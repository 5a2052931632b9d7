/** The timer subsystem as it runs: counts ticked down in place, lists relinked while they are walked. */
module Timers {
  import opened Options
  import opened TimerRules

  /** Walking a list by position; stepping on from nowhere starts over. */
  function First<T>(list: seq<T>): Option<nat> {
    if list == [] then None else Some(0)
  }

  function Next<T>(list: seq<T>, at: Option<nat>): Option<nat> {
    if at.None? then First(list) else if at.value + 1 < |list| then Some(at.value + 1) else None
  }

  function Previous(at: nat): Option<nat> {
    if at == 0 then None else Some(at - 1)
  }

  lemma TickedOneMore(timers: seq<Timer>, pending: seq<nat>, k: nat, ticks: nat)
    requires InRange(pending, |timers|) && Distinct(pending) && k < |pending|
    ensures var t := Ticked(timers, pending[..k], ticks);
            var i := pending[k];
            t[i] == timers[i]
            && Ticked(timers, pending[..k + 1], ticks) == t[i := t[i].(deltaTime := Less(t[i].deltaTime, ticks))]
  {
    assert pending[..k + 1] == pending[..k] + [pending[k]];
    assert pending[k] !in pending[..k];
  }

  /** One step of the loop over what is pending: one more timer ticked, the minimum kept. */
  lemma UpdateStep(was: seq<Timer>, pending: seq<nat>, k: nat, ticks: nat)
    requires InRange(pending, |was|) && Distinct(pending) && k < |pending|
    ensures InRange(pending[..k], |was|) && InRange(pending[..k + 1], |was|)
    ensures var t, i := Ticked(was, pending[..k], ticks), pending[k];
            var t' := t[i := t[i].(deltaTime := Less(t[i].deltaTime, ticks))];
            var rest := Smallest(t, pending[..k]);
            && t' == Ticked(was, pending[..k + 1], ticks)
            && Smallest(t', pending[..k + 1]) == if t'[i].deltaTime < rest then t'[i].deltaTime else rest
  {
    TickedOneMore(was, pending, k, ticks);
    var t, i := Ticked(was, pending[..k], ticks), pending[k];
    var t' := t[i := t[i].(deltaTime := Less(t[i].deltaTime, ticks))];
    assert i !in pending[..k];
    SameSmallest(t, t', pending[..k]);
    assert pending[..k + 1][..k] == pending[..k];
  }

  lemma TickedNowhere(timers: seq<Timer>, ticks: nat)
    ensures Ticked(timers, [], ticks) == timers && Smallest(timers, []) == NOTHING_PENDING
  {
  }

  lemma TickedSound(s: Sys, ticks: nat)
    requires Sound(s)
    ensures Sound(s.(timers := Ticked(s.timers, s.pending, ticks)))
  {
  }

  lemma TickedByNone(timers: seq<Timer>, pending: seq<nat>)
    ensures Ticked(timers, pending, 0) == timers
  {
  }

  lemma ExpiryOneMore(timers: seq<Timer>, pending: seq<nat>, j: nat)
    requires InRange(pending, |timers|) && j < |pending|
    ensures InRange(pending[..j], |timers|) && InRange(pending[..j + 1], |timers|)
    ensures var due := timers[pending[j]].deltaTime == 0;
            Expired(timers, pending[..j + 1]) == (if due then Expired(timers, pending[..j]) + [pending[j]]
              else Expired(timers, pending[..j]))
            && Live(timers, pending[..j + 1]) == (if due then Live(timers, pending[..j])
               else Live(timers, pending[..j]) + [pending[j]])
  {
    assert pending[..j + 1][..j] == pending[..j];
  }

  lemma CallbacksOneMore(timers: seq<Timer>, expired: seq<nat>, i: nat)
    requires InRange(expired, |timers|) && i < |timers|
    ensures InRange(expired + [i], |timers|)
    ensures Callbacks(timers, expired + [i]) == Callbacks(timers, expired) + Notice(timers[i])
  {
    assert (expired + [i])[..|expired|] == expired;
  }

  lemma ExpiryNone(timers: seq<Timer>)
    ensures Live(timers, []) == Expired(timers, []) == [] && Callbacks(timers, []) == []
            && Unflagged(timers, []) == timers
  {
  }

  /** After j timers were examined: their expired ones are gone and unflagged, the rest stand in order before the
      others. */
  ghost predicate Split(was: seq<Timer>, all: seq<nat>, j: nat, timers: seq<Timer>, pending: seq<nat>)
    requires InRange(all, |was|) && j <= |all|
  {
    InRange(all[..j], |was|) && pending == Live(was, all[..j]) + all[j..]
    && timers == Unflagged(was, Expired(was, all[..j]))
  }

  lemma UnflaggedOneMore(timers: seq<Timer>, expired: seq<nat>, i: nat)
    requires i < |timers| && i !in expired
    ensures Unflagged(timers, expired)[i] == timers[i]
    ensures Unflagged(timers, expired + [i]) == Unflagged(timers, expired)[i := timers[i].(pending := false)]
  {
  }

  lemma SplitStep(was: seq<Timer>, all: seq<nat>, j: nat, timers: seq<Timer>, pending: seq<nat>)
    requires InRange(all, |was|) && Distinct(all) && j < |all|
    requires Split(was, all, j, timers, pending)
    ensures InRange(all[..j + 1], |was|)
    ensures var k, i := |Live(was, all[..j])|, all[j];
            && |pending| == k + |all| - j && pending[k] == i && |timers| == |was| && timers[i] == was[i]
            && (was[i].deltaTime == 0 ==>
                  && Split(was, all, j + 1, timers[i := was[i].(pending := false)], pending[..k] + pending[k + 1..])
                  && Expired(was, all[..j + 1]) == Expired(was, all[..j]) + [i]
                  && InRange(Expired(was, all[..j + 1]), |was|)
                  && Live(was, all[..j + 1]) == Live(was, all[..j]))
            && (was[i].deltaTime != 0 ==>
                  && Split(was, all, j + 1, timers, pending)
                  && Expired(was, all[..j + 1]) == Expired(was, all[..j]) && InRange(Expired(was, all[..j + 1]), |was|)
                  && Live(was, all[..j + 1]) == Live(was, all[..j]) + [i])
  {
    hide Live, Expired, Unflagged;
    ExpiryOneMore(was, all, j);
    UnflaggedOneMore(was, Expired(was, all[..j]), all[j]);
    assert all[j..] == [all[j]] + all[j + 1..];
    assert all[j] !in all[..j];
  }

  lemma SplitEnds(was: seq<Timer>, all: seq<nat>, timers: seq<Timer>, pending: seq<nat>)
    requires InRange(all, |was|)
    ensures Split(was, all, 0, was, all)
    ensures Split(was, all, |all|, timers, pending) ==>
              pending == Live(was, all) && timers == Unflagged(was, Expired(was, all))
  {
    ExpiryNone(was);
    assert all[..|all|] == all;
    assert all[..0] == [];
    assert Live(was, all) + [] == Live(was, all);
  }

  /** Where the loop over the pending list stands after j timers. */
  ghost predicate Halfway(was: seq<Timer>, all: seq<nat>, j: nat, timers: seq<Timer>, pending: seq<nat>,
                          before: seq<Callback>, sent: seq<Callback>, at: Option<nat>)
    requires j <= |all|
  {
    && InRange(all, |was|) && Distinct(all)
    && Split(was, all, j, timers, pending)
    && InRange(all[..j], |was|) && InRange(Expired(was, all[..j]), |was|)
    && sent == before + Callbacks(was, Expired(was, all[..j]))
    && at == if j < |all| then Some(|Live(was, all[..j])|) else None
  }

  lemma HalfwayStarts(s: Sys)
    requires Sound(s)
    ensures Halfway(s.timers, s.pending, 0, s.timers, s.pending, s.sent, s.sent, First(s.pending))
  {
    ExpiryNone(s.timers);
    SplitEnds(s.timers, s.pending, s.timers, s.pending);
    assert s.pending[..0] == [] && s.sent + [] == s.sent;
  }

  lemma HalfwayStep(was: seq<Timer>, all: seq<nat>, j: nat, timers: seq<Timer>, pending: seq<nat>,
                    before: seq<Callback>, sent: seq<Callback>, at: Option<nat>)
    requires j <= |all| && at.Some? && Halfway(was, all, j, timers, pending, before, sent, at)
    ensures j < |all| && at.value < |pending| && pending[at.value] < |timers|
    ensures var k, i := at.value, pending[at.value];
            var rest := pending[..k] + pending[k + 1..];
            if timers[i].deltaTime == 0
            then Halfway(was, all, j + 1, timers[i := timers[i].(pending := false)], rest,
                         before, sent + Notice(timers[i]), Next(rest, Previous(k)))
            else Halfway(was, all, j + 1, timers, pending, before, sent, Next(pending, at))
  {
    hide Live, Expired, Callbacks, Unflagged, Split, Notice;
    SplitStep(was, all, j, timers, pending);
    var i := pending[at.value];
    CallbacksOneMore(was, Expired(was, all[..j]), i);
    assert before + Callbacks(was, Expired(was, all[..j])) + Notice(was[i])
        == before + (Callbacks(was, Expired(was, all[..j])) + Notice(was[i]));
  }

  lemma HalfwayEnds(s: Sys, timers: seq<Timer>, pending: seq<nat>, sent: seq<Callback>, j: nat)
    requires Sound(s) && j <= |s.pending|
    requires Halfway(s.timers, s.pending, j, timers, pending, s.sent, sent, None)
    ensures s.(timers := timers, pending := pending, sent := sent) == Process(s)
  {
    hide Live, Expired, Callbacks, Unflagged, Split;
    assert s.pending[..|s.pending|] == s.pending;
    SplitEnds(s.timers, s.pending, timers, pending);
  }

  lemma TickTaken(s: Sys, n: nat)
    requires Sound(s)
    ensures Sound(s.(lastTick := n))
  {
  }

  class TimerList {
    const timers: array<Timer>
    var noFreeTimers: int
    var free: seq<nat>
    var pending: seq<nat>
    var lastTick: nat
    var armed: Option<int>
    var sent: seq<Callback>

    ghost function View(): Sys
      reads this, timers
    {
      Sys(timers[..], free, pending, noFreeTimers, lastTick, armed, sent)
    }

    ghost predicate Valid()
      reads this, timers
    {
      Sound(View())
    }

    constructor (noTimers: nat)
      ensures AtRest(View()) && fresh(timers)
      ensures free == seq(noTimers, k => k) && pending == [] && lastTick == 0 && armed == None && sent == []
    {
      timers := new Timer[noTimers](_ => Timer(0, false, None, 0));
      noFreeTimers := noTimers;
      free, pending := [], [];
      lastTick := 0;
      armed := None;
      sent := [];
      new;
      var i := 0;
      while i < noTimers
        invariant 0 <= i <= noTimers
        invariant free == seq(i, k => k) && noFreeTimers == noTimers
        invariant pending == [] && lastTick == 0 && armed == None && sent == []
        invariant fresh(timers) && timers.Length == noTimers && forall k :: 0 <= k < noTimers ==>
                  timers[k] == Timer(0, false, None, 0)
      {
        free := free + [i];
        i := i + 1;
      }
    }

    // ----- internal calls

    method UpdateTimers(delta: nat) returns (smallest: nat)
      requires Valid()
      modifies timers
      ensures Valid() && View() == old(View()).(timers := Ticked(old(timers[..]), pending, delta))
      ensures smallest == Smallest(timers[..], pending)
    {
      hide Ticked, Smallest;
      ghost var was := timers[..];
      TickedNowhere(was, delta);
      smallest := NOTHING_PENDING;
      var at := First(pending);
      ghost var k := 0;
      while at.Some?
        invariant 0 <= k <= |pending|
        invariant at == if k < |pending| then Some(k) else None
        invariant InRange(pending[..k], timers.Length)
        invariant timers[..] == Ticked(was, pending[..k], delta)
        invariant smallest == Smallest(timers[..], pending[..k])
        decreases |pending| - k
      {
        UpdateStep(was, pending, k, delta);
        var i := pending[at.value];
        timers[i] := timers[i].(deltaTime := if timers[i].deltaTime <= delta then 0 else timers[i].deltaTime - delta);
        assert timers[..] == Ticked(was, pending[..k + 1], delta);
        if timers[i].deltaTime < smallest {
          smallest := timers[i].deltaTime;
        }
        at := Next(pending, at);
        k := k + 1;
      }
      assert pending[..k] == pending;
      TickedSound(old(View()), delta);
    }

    /** Takes a timer off the pending list and sends its notice; yields the position before it. */
    method Expire(at: nat, i: nat) returns (previous: Option<nat>)
      requires at < |pending| && pending[at] == i && i < timers.Length
      modifies this`pending, this`sent, timers
      ensures previous == Previous(at)
      ensures pending == old(pending[..at]) + old(pending[at + 1..])
      ensures timers[..] == old(timers[..])[i := old(timers[i]).(pending := false)]
      ensures sent == old(sent) + Notice(old(timers[i]))
    {
      previous := Previous(at);
      pending := pending[..at] + pending[at + 1..];
      timers[i] := timers[i].(pending := false);
      if timers[i].routine.Some? {
        sent := sent + [Callback(timers[i].routine.value, timers[i].parm)];
      }
    }

    /** One turn of the loop below: a timer that is due goes, and the walk steps back before it steps on. */
    method Visit(at: nat, ghost was: seq<Timer>, ghost all: seq<nat>, ghost j: nat, ghost before: seq<Callback>)
      returns (next: Option<nat>)
      requires j <= |all| && Halfway(was, all, j, timers[..], pending, before, sent, Some(at))
      modifies this`pending, this`sent, timers
      ensures j < |all| && Halfway(was, all, j + 1, timers[..], pending, before, sent, next)
    {
      hide Halfway, Notice;
      HalfwayStep(was, all, j, timers[..], pending, before, sent, Some(at));
      var i := pending[at];
      next := Some(at);
      if timers[i].deltaTime == 0 {
        next := Expire(at, i);
      }
      next := Next(pending, next);
    }

    /** The loop steps back after a removal, so that nothing behind the removed timer is skipped. */
    method ProcessExpiredTimers()
      requires Valid()
      modifies this`pending, this`sent, timers
      ensures View() == Process(old(View()))
    {
      hide Halfway, Process, Sound;
      ghost var was, all, before := timers[..], pending, sent;
      HalfwayStarts(View());
      var at := First(pending);
      ghost var j := 0;
      while at.Some?
        invariant j <= |all| && Halfway(was, all, j, timers[..], pending, before, sent, at)
        decreases |all| - j
      {
        at := Visit(at.value, was, all, j, before);
        j := j + 1;
      }
      HalfwayEnds(old(View()), timers[..], pending, sent, j);
    }

    method ServiceTimers(process: bool, c: Clock) returns (smallest: int)
      requires Valid()
      modifies this`lastTick, this`pending, this`sent, timers
      ensures Valid() && View() == Service(old(View()), process, c)
      ensures smallest == Narrow(Smallest(timers[..], pending))
    {
      hide Ticked, Smallest, Process, Sound;
      ghost var s := View();
      ServiceSound(s, process, c);
      UpdateSound(s, c);
      TickTaken(s, c.last);
      if lastTick == 0 {
        lastTick := c.first;
      }
      var numberOfTicks := (c.tick - lastTick) % RANGE;
      lastTick := c.last;
      var delta := UpdateTimers(numberOfTicks);
      assert View() == Update(s, c);
      if process && delta == 0 {
        ProcessSound(View());
        ProcessExpiredTimers();
        TickedByNone(timers[..], pending);
        delta := UpdateTimers(0);
      }
      SmallestMeans(timers[..], pending);
      smallest := if delta < 0x8000_0000 then delta else delta - RANGE;
    }

    method TimerSignalHandler(c: Clock)
      requires Valid()
      modifies this, timers
      ensures View() == Signal(old(View()), c) && AtRest(View())
    {
      SignalRests(View(), c);
      var delta := ServiceTimers(true, c);
      armed := Some(delta);
    }

    // ----- calls

    method Create(timer: Option<nat>, routine: Option<nat>, parm: nat) returns (r: Option<nat>)
      requires Valid() && (timer.Some? ==> timer.value < timers.Length)
      modifies this, timers
      ensures Valid() && (View(), r) == TimerRules.Create(old(View()), timer, routine, parm)
    {
      CreateSound(View(), timer, routine, parm);
      r := timer;
      if timer.None? {
        if free == [] {
          return None;
        }
        r := Some(free[0]);
        free := free[1..];
        noFreeTimers := noFreeTimers - 1;
        timers[r.value] := timers[r.value].(pending := false);
      }
      timers[r.value] := timers[r.value].(routine := routine);
      timers[r.value] := timers[r.value].(parm := parm);
      assert timers[..] == TimerRules.Create(old(View()), timer, routine, parm).0.timers;
    }

    method Start(timer: Option<nat>, time: nat, before: Clock, after: Clock)
      requires Valid() && (timer.Some? ==> timer.value < timers.Length && timer.value !in free) && time < RANGE
      modifies this, timers
      ensures timer.None? ==> View() == old(View())
      ensures timer.Some? ==> View() == TimerRules.Start(old(View()), timer.value, time, before, after)
      ensures Valid() && (timer.Some? ==> AtRest(View()))
    {
      if timer.None? {
        return;
      }
      var i := timer.value;
      var _ := ServiceTimers(false, before);
      EnterSound(View(), i, time);
      ghost var s := View();
      timers[i] := timers[i].(deltaTime := time);
      if !timers[i].pending {
        timers[i] := timers[i].(pending := true);
        pending := pending + [i];
      }
      assert timers[..] == Enter(s, i, time).timers;
      TimerSignalHandler(after);
    }

    method Stop(timer: Option<nat>, c: Clock)
      requires Valid() && (timer.Some? ==> timer.value < timers.Length)
      modifies this, timers
      ensures timer.None? ==> View() == old(View())
      ensures timer.Some? ==> View() == TimerRules.Stop(old(View()), timer.value, c)
      ensures Valid() && (timer.Some? ==> AtRest(View()))
    {
      if timer.None? {
        return;
      }
      var i := timer.value;
      LeaveSound(View(), i);
      if timers[i].pending {
        timers[i] := timers[i].(pending := false);
        pending := Without(pending, i);
      }
      TimerSignalHandler(c);
    }

    method Delete(timer: Option<nat>, c: Clock)
      requires Valid() && (timer.Some? ==> timer.value < timers.Length && timer.value !in free)
      modifies this, timers
      ensures timer.None? ==> View() == old(View())
      ensures timer.Some? ==> View() == TimerRules.Delete(old(View()), timer.value, c)
      ensures Valid() && (timer.Some? ==> AtRest(View()))
    {
      if timer.None? {
        return;
      }
      DeleteRests(View(), timer.value, c);
      Stop(timer, c);
      free := free + [timer.value];
      noFreeTimers := noFreeTimers + 1;
    }
  }
}
