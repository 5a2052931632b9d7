/** What is sent when a timer expires, and in which order timers are served. */
module TimerNotices {
  import opened Options
  import opened Orders
  import opened TimerRules
  import opened TimerRuns
  import opened TimerLife

  // ----- the routine and parameter last given

  /** Timer i has the routine and parameter, and every expiry of it from the n-th on was notified with them. */
  ghost predicate Given(w: Watch, n: nat, i: nat, routine: Option<nat>, parm: nat)
    requires Shape(w)
  {
    && i < |w.sys.timers| && w.sys.timers[i].routine == routine && w.sys.timers[i].parm == parm
    && n <= |w.expiries|
    && forall k :: n <= k < |w.expiries| && w.expiries[k].timer == i ==>
         w.expiries[k].notice == if routine.Some? then [Callback(routine.value, parm)] else []
  }

  /** The call gives timer i a routine: it names it, or takes it off the free list. */
  predicate Gives(s: Sys, e: Event, i: nat) {
    e.Create? && (e.timer == Some(i) || (e.timer == None && s.free != [] && s.free[0] == i))
  }

  lemma WatchedGiven(w: Watch, process: bool, c: Clock, n: nat, i: nat, routine: Option<nat>, parm: nat)
    requires Shape(w) && Given(w, n, i, routine, parm)
    ensures Given(Watched(w, process, c), n, i, routine, parm)
  {
    hide Due;
    var w' := Watched(w, process, c);
    Logged(w, process, c);
    forall k | n <= k < |w'.expiries| && w'.expiries[k].timer == i
      ensures w'.expiries[k].notice == if routine.Some? then [Callback(routine.value, parm)] else []
    {
      if k < |w.expiries| {
        assert w'.expiries[k] == w.expiries[k];
      }
    }
  }

  lemma EnteredGiven(w: Watch, j: nat, time: nat, n: nat, i: nat, routine: Option<nat>, parm: nat)
    requires Shape(w) && Given(w, n, i, routine, parm)
    requires j < |w.sys.timers| && j !in w.sys.free && time < RANGE
    ensures Given(Entered(w, j, time), n, i, routine, parm)
  {
  }

  lemma LeftGiven(w: Watch, j: nat, n: nat, i: nat, routine: Option<nat>, parm: nat)
    requires Shape(w) && Given(w, n, i, routine, parm) && j < |w.sys.timers|
    ensures Given(Left(w, j), n, i, routine, parm)
  {
  }

  lemma DoGiven(w: Watch, e: Event, n: nat, i: nat, routine: Option<nat>, parm: nat)
    requires Shape(w) && Can(w, e) && Shape(Do(w, e))
    requires Given(w, n, i, routine, parm) && !Gives(w.sys, e, i)
    ensures Given(Do(w, e), n, i, routine, parm)
  {
    hide Watched, Entered, Left;
    match e
    case Create(timer, r, p) =>
    case Start(j, time, before, after) =>
      var v := Watched(w, false, before);
      WatchedGiven(w, false, before, n, i, routine, parm);
      WatchedFree(w, false, before);
      EnteredGiven(v, j, time, n, i, routine, parm);
      WatchedGiven(Entered(v, j, time), true, after, n, i, routine, parm);
    case Stop(j, c) =>
      LeftGiven(w, j, n, i, routine, parm);
      WatchedGiven(Left(w, j), true, c, n, i, routine, parm);
    case Delete(j, c) =>
      LeftGiven(w, j, n, i, routine, parm);
      WatchedGiven(Left(w, j), true, c, n, i, routine, parm);
    case Signal(c) =>
      WatchedGiven(w, true, c, n, i, routine, parm);
  }

  /** No call of the run gives timer i a routine. */
  ghost predicate Ungiven(w: Watch, events: seq<Event>, i: nat)
    requires Inv(w) && CanRun(w, events)
    decreases |events|
  {
    events == [] ||
    (!Gives(w.sys, events[0], i) && (DoInv(w, events[0]); Ungiven(Do(w, events[0]), events[1..], i)))
  }

  lemma {:induction false} RunGiven(w: Watch, events: seq<Event>, n: nat, i: nat, routine: Option<nat>, parm: nat)
    requires Inv(w) && CanRun(w, events) && Given(w, n, i, routine, parm) && Ungiven(w, events, i)
    ensures Shape(Run(w, events)) && Given(Run(w, events), n, i, routine, parm)
    decreases |events|
  {
    hide Do, Inv, Can, Given;
    InvShape(w);
    if events != [] {
      DoInv(w, events[0]);
      InvShape(Do(w, events[0]));
      DoGiven(w, events[0], n, i, routine, parm);
      RunGiven(Do(w, events[0]), events[1..], n, i, routine, parm);
    }
  }

  /** Every notice of a timer carries the routine and the parameter last given to it, whatever was called since; a
      timer without a routine sends none. */
  lemma NoticesAsGiven(w: Watch, i: nat, timer: Option<nat>, routine: Option<nat>, parm: nat, events: seq<Event>)
    requires Inv(w) && Can(w, Create(timer, routine, parm)) && Gives(w.sys, Create(timer, routine, parm), i)
    requires Inv(Do(w, Create(timer, routine, parm))) && CanRun(Do(w, Create(timer, routine, parm)), events)
    requires Ungiven(Do(w, Create(timer, routine, parm)), events, i)
    ensures var w' := Run(Do(w, Create(timer, routine, parm)), events);
            forall k :: |w.expiries| <= k < |w'.expiries| && w'.expiries[k].timer == i ==>
              w'.expiries[k].notice == if routine.Some? then [Callback(routine.value, parm)] else []
  {
    var v := Do(w, Create(timer, routine, parm));
    assert i < |w.sys.timers| by {
      if timer.None? {
        assert w.sys.free[0] in w.sys.free;
      }
    }
    RunGiven(v, events, |w.expiries|, i, routine, parm);
  }

  // ----- the order of service

  /** Those due and those that stay are in the order of the list. */
  lemma {:induction false} SplitInOrder(timers: seq<Timer>, pending: seq<nat>, a: nat, b: nat)
    requires InRange(pending, |timers|)
    ensures Ahead(Expired(timers, pending), a, b) ==> Ahead(pending, a, b)
    ensures Ahead(Live(timers, pending), a, b) ==> Ahead(pending, a, b)
  {
    if pending != [] {
      hide Ahead;
      var front, x := pending[..|pending| - 1], pending[|pending| - 1];
      SplitInOrder(timers, front, a, b);
      assert pending == front + [x];
      var part := if timers[x].deltaTime == 0 then Expired(timers, pending) else Live(timers, pending);
      assert part[..|part| - 1] == if timers[x].deltaTime == 0 then Expired(timers, front) else Live(timers, front);
      if Ahead(part, a, b) {
        AheadFront(part, a, b);
      }
      if Ahead(front, a, b) || (a in front && b == x) {
        AheadMore(front, x, a, b);
      }
    }
  }

  lemma ServiceInOrder(s: Sys, process: bool, c: Clock, a: nat, b: nat)
    requires Sound(s) && Ahead(Service(s, process, c).pending, a, b)
    ensures Ahead(s.pending, a, b)
  {
    hide Ahead, Ticked;
    var u := Update(s, c);
    SplitInOrder(u.timers, u.pending, a, b);
  }

  lemma EnterInOrder(s: Sys, i: nat, time: nat, a: nat, b: nat)
    requires Sound(s) && i < |s.timers| && Ahead(Enter(s, i, time).pending, a, b)
    ensures Ahead(s.pending, a, b) || (b == i && i !in s.pending)
  {
    hide Ahead;
    if !s.timers[i].pending {
      AheadFront(s.pending + [i], a, b);
      assert (s.pending + [i])[..|s.pending|] == s.pending;
    }
  }

  lemma {:induction false} WithoutInOrder(pending: seq<nat>, i: nat, a: nat, b: nat)
    requires Ahead(Without(pending, i), a, b)
    ensures Ahead(pending, a, b)
  {
    var r := Without(pending, i);
    var j, k :| 0 <= j < k < |r| && r[j] == a && r[k] == b;
    var rest := pending[1..];
    if pending[0] == i {
      assert pending[j + 1] == a && pending[k + 1] == b;
    } else if j > 0 {
      assert Without(rest, i)[j - 1] == a && Without(rest, i)[k - 1] == b;
      WithoutInOrder(rest, i, a, b);
      var l, m :| 0 <= l < m < |rest| && rest[l] == a && rest[m] == b;
      assert pending[l + 1] == a && pending[m + 1] == b;
    } else {
      assert b in Without(rest, i);
      WithoutWithin(rest, i, b);
      var m :| 0 <= m < |rest| && rest[m] == b;
      assert pending[0] == a && pending[m + 1] == b;
    }
  }

  lemma {:induction false} WithoutWithin(pending: seq<nat>, i: nat, b: nat)
    requires b in Without(pending, i)
    ensures b in pending
  {
    if pending[0] != i && b != pending[0] {
      WithoutWithin(pending[1..], i, b);
    }
  }

  lemma DoneInOrder(w: Watch, c: Clock, a: nat, b: nat)
    requires Shape(w) && Ahead(Armed(Watched(w, true, c)).sys.pending, a, b)
    ensures Ahead(w.sys.pending, a, b)
  {
    hide Service, Ahead;
    ServiceInOrder(w.sys, true, c, a, b);
  }

  lemma EnteredInOrder(w: Watch, i: nat, time: nat, c: Clock, a: nat, b: nat)
    requires Shape(w) && i < |w.sys.timers| && i !in w.sys.free && time < RANGE
    requires i < |Watched(w, false, c).sys.timers| && i !in Watched(w, false, c).sys.free
    requires Ahead(Entered(Watched(w, false, c), i, time).sys.pending, a, b)
    ensures Ahead(w.sys.pending, a, b) || (b == i && i !in w.sys.pending)
  {
    hide Enter, Ahead, Ticked;
    EnterInOrder(Watched(w, false, c).sys, i, time, a, b);
  }

  /** A timer comes to stand behind another only by being started while it is not pending: timers stand, and are
      served, in the order in which they began to run. */
  lemma PendingInOrder(w: Watch, e: Event, a: nat, b: nat)
    requires Shape(w) && Can(w, e) && Ahead(Do(w, e).sys.pending, a, b)
    ensures Ahead(w.sys.pending, a, b) || (e.Start? && e.i == b && b !in w.sys.pending)
  {
    hide Ahead, Watched, Sound, Entered, Leave, Enter;
    match e
    case Create(timer, r, p) => CreateKeepsPending(w.sys, timer, r, p);
    case Start(i, time, before, after) =>
      WatchedFree(w, false, before);
      DoneInOrder(Entered(Watched(w, false, before), i, time), after, a, b);
      EnteredInOrder(w, i, time, before, a, b);
    case Stop(i, c) =>
      DoneInOrder(Left(w, i), c, a, b);
      LeaveInOrder(w.sys, i, a, b);
    case Delete(i, c) =>
      DoneInOrder(Left(w, i), c, a, b);
      LeaveInOrder(w.sys, i, a, b);
    case Signal(c) =>
      DoneInOrder(w, c, a, b);
  }

  lemma LeaveInOrder(s: Sys, i: nat, a: nat, b: nat)
    requires Sound(s) && i < |s.timers| && Ahead(Leave(s, i).pending, a, b)
    ensures Ahead(s.pending, a, b)
  {
    hide Ahead;
    if s.timers[i].pending {
      WithoutInOrder(s.pending, i, a, b);
    }
  }

  lemma DueInOrder(s: Sys, process: bool, c: Clock, j: nat, k: nat)
    requires Sound(s) && j < k < |Due(s, process, c)|
    ensures Ahead(s.pending, Due(s, process, c)[j], Due(s, process, c)[k])
  {
    hide Ahead, Expired, Smallest, Ticks, Sound;
    var due, u := Due(s, process, c), Update(s, c);
    UpdateSound(s, c);
    DuePart(s, process, c);
    AheadAt(due, j, k);
    SplitInOrder(u.timers, u.pending, due[j], due[k]);
  }

  lemma DuePart(s: Sys, process: bool, c: Clock)
    requires Sound(s)
    ensures var u, due := Update(s, c), Due(s, process, c);
            InRange(u.pending, |u.timers|) && u.pending == s.pending
            && (due == [] || due == Expired(u.timers, u.pending))
  {
    hide Expired, Smallest, Ticks;
  }

  /** Within one service the expiries are in the order of the list. */
  lemma ServedInOrder(w: Watch, process: bool, c: Clock, j: nat, k: nat)
    requires Shape(w) && |w.expiries| <= j < k < |Watched(w, process, c).expiries|
    ensures var es := Watched(w, process, c).expiries; Ahead(w.sys.pending, es[j].timer, es[k].timer)
  {
    hide Ahead, Due, Watched, Sound;
    Logged(w, process, c);
    DueInOrder(w.sys, process, c, j - |w.expiries|, k - |w.expiries|);
  }
}
