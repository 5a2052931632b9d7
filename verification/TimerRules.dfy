/** The timer subsystem as functions on its state: many timers share one interval timer. Timers are numbered
    by their place in the block of memory they are made from, and a list holds numbers. */
module TimerRules {
  import opened Options

  /** A millisecond count kept in 32 bits. */
  const RANGE: nat := 0x1_0000_0000
  const NOTHING_PENDING: nat := 0xFFFF_FFFF

  datatype Callback = Callback(routine: nat, parm: nat)
  datatype Timer = Timer(deltaTime: nat, pending: bool, routine: Option<nat>, parm: nat)

  datatype Sys = Sys(timers: seq<Timer>, free: seq<nat>, pending: seq<nat>, noFreeTimers: int,
                     lastTick: nat, armed: Option<int>, sent: seq<Callback>)

  /** The clock readings of one service: the first one is used only when no tick was ever taken. */
  datatype Clock = Clock(first: nat, tick: nat, last: nat)

  // ----- ticking

  function Less(delta: nat, ticks: nat): nat {
    if delta <= ticks then 0 else delta - ticks
  }

  function Ticked(timers: seq<Timer>, pending: seq<nat>, ticks: nat): (r: seq<Timer>)
    ensures |r| == |timers|
    ensures forall i :: 0 <= i < |r| ==>
              r[i] == if i in pending then timers[i].(deltaTime := Less(timers[i].deltaTime, ticks)) else timers[i]
  {
    seq(|timers|, i requires 0 <= i < |timers| =>
      if i in pending then timers[i].(deltaTime := Less(timers[i].deltaTime, ticks)) else timers[i])
  }

  ghost predicate InRange(pending: seq<nat>, n: nat): (b: bool)
    ensures b <==> forall i :: i in pending ==> i < n
  {
    assert forall k :: 0 <= k < |pending| ==> pending[k] in pending;
    forall k :: 0 <= k < |pending| ==> pending[k] < n
  }

  function Smallest(timers: seq<Timer>, pending: seq<nat>): nat
    requires InRange(pending, |timers|)
  {
    if pending == [] then NOTHING_PENDING
    else
      var rest := Smallest(timers, pending[..|pending| - 1]);
      var delta := timers[pending[|pending| - 1]].deltaTime;
      if delta < rest then delta else rest
  }

  /** It is a lower bound, and reached unless nothing pending is below the value for nothing pending. */
  lemma {:induction false} SmallestMeans(timers: seq<Timer>, pending: seq<nat>)
    requires InRange(pending, |timers|)
    ensures Smallest(timers, pending) <= NOTHING_PENDING
    ensures forall k :: 0 <= k < |pending| ==> Smallest(timers, pending) <= timers[pending[k]].deltaTime
    ensures Smallest(timers, pending) < NOTHING_PENDING ==>
              exists k :: 0 <= k < |pending| && timers[pending[k]].deltaTime == Smallest(timers, pending)
  {
    if pending != [] {
      var front := pending[..|pending| - 1];
      SmallestMeans(timers, front);
      forall k | 0 <= k < |pending|
        ensures Smallest(timers, pending) <= timers[pending[k]].deltaTime
      {
        if k < |front| {
          assert front[k] == pending[k];
        }
      }
      if Smallest(timers, pending) < NOTHING_PENDING {
        if timers[pending[|front|]].deltaTime >= Smallest(timers, front) {
          var k :| 0 <= k < |front| && timers[front[k]].deltaTime == Smallest(timers, front);
          assert pending[k] == front[k];
        }
      }
    }
  }

  // ----- expiry

  function Expired(timers: seq<Timer>, pending: seq<nat>): (r: seq<nat>)
    requires InRange(pending, |timers|)
    ensures forall i :: i in r <==> i in pending && timers[i].deltaTime == 0
  {
    if pending == [] then []
    else
      var rest := Expired(timers, pending[..|pending| - 1]);
      var i := pending[|pending| - 1];
      assert pending == pending[..|pending| - 1] + [i];
      if timers[i].deltaTime == 0 then rest + [i] else rest
  }

  function Live(timers: seq<Timer>, pending: seq<nat>): (r: seq<nat>)
    requires InRange(pending, |timers|)
    ensures forall i :: i in r <==> i in pending && timers[i].deltaTime != 0
  {
    if pending == [] then []
    else
      var rest := Live(timers, pending[..|pending| - 1]);
      var i := pending[|pending| - 1];
      assert pending == pending[..|pending| - 1] + [i];
      if timers[i].deltaTime != 0 then rest + [i] else rest
  }

  /** A timer without a routine expires silently. */
  function Notice(t: Timer): seq<Callback> {
    if t.routine.Some? then [Callback(t.routine.value, t.parm)] else []
  }

  function Callbacks(timers: seq<Timer>, expired: seq<nat>): seq<Callback>
    requires InRange(expired, |timers|)
  {
    if expired == [] then []
    else
      var rest := Callbacks(timers, expired[..|expired| - 1]);
      rest + Notice(timers[expired[|expired| - 1]])
  }

  function Unflagged(timers: seq<Timer>, expired: seq<nat>): (r: seq<Timer>)
    ensures |r| == |timers|
    ensures forall i :: 0 <= i < |r| ==> r[i] == if i in expired then timers[i].(pending := false) else timers[i]
  {
    seq(|timers|, i requires 0 <= i < |timers| => if i in expired then timers[i].(pending := false) else timers[i])
  }

  function Process(s: Sys): Sys
    requires InRange(s.pending, |s.timers|)
  {
    var expired := Expired(s.timers, s.pending);
    s.(timers := Unflagged(s.timers, expired), pending := Live(s.timers, s.pending),
       sent := s.sent + Callbacks(s.timers, expired))
  }

  // ----- service

  function Ticks(lastTick: nat, c: Clock): nat {
    (c.tick - if lastTick == 0 then c.first else lastTick) % RANGE
  }

  function Update(s: Sys, c: Clock): Sys {
    s.(timers := Ticked(s.timers, s.pending, Ticks(s.lastTick, c)), lastTick := c.last)
  }

  function Service(s: Sys, process: bool, c: Clock): Sys
    requires InRange(s.pending, |s.timers|)
  {
    var u := Update(s, c);
    if process && Smallest(u.timers, u.pending) == 0 then Process(u) else u
  }

  /** The smallest count goes through a signed 32-bit result. */
  function Narrow(delta: nat): int
    requires delta < RANGE
  {
    if delta < 0x8000_0000 then delta else delta - RANGE
  }

  function Arm(s: Sys): Sys
    requires InRange(s.pending, |s.timers|)
  {
    SmallestMeans(s.timers, s.pending);
    s.(armed := Some(Narrow(Smallest(s.timers, s.pending))))
  }

  // ----- calls

  function Signal(s: Sys, c: Clock): Sys
    requires Sound(s)
  {
    ServiceSound(s, true, c);
    Arm(Service(s, true, c))
  }

  function Create(s: Sys, timer: Option<nat>, routine: Option<nat>, parm: nat): (Sys, Option<nat>)
    requires Sound(s) && (timer.Some? ==> timer.value < |s.timers|)
  {
    if timer.Some? then
      (s.(timers := s.timers[timer.value := s.timers[timer.value].(routine := routine, parm := parm)]), timer)
    else if s.free == [] then (s, None)
    else
      var i := s.free[0];
      (s.(timers := s.timers[i := s.timers[i].(pending := false, routine := routine, parm := parm)],
          free := s.free[1..], noFreeTimers := s.noFreeTimers - 1), Some(i))
  }

  function Enter(s: Sys, i: nat, time: nat): Sys
    requires i < |s.timers|
  {
    s.(timers := s.timers[i := s.timers[i].(deltaTime := time, pending := true)],
       pending := if s.timers[i].pending then s.pending else s.pending + [i])
  }

  function Start(s: Sys, i: nat, time: nat, before: Clock, after: Clock): Sys
    requires Sound(s) && i < |s.timers| && i !in s.free && time < RANGE
  {
    ServiceSound(s, false, before);
    EnterSound(Service(s, false, before), i, time);
    Signal(Enter(Service(s, false, before), i, time), after)
  }

  function Without(pending: seq<nat>, i: nat): seq<nat> {
    if pending == [] then []
    else if pending[0] == i then pending[1..]
    else [pending[0]] + Without(pending[1..], i)
  }

  function Leave(s: Sys, i: nat): Sys
    requires i < |s.timers|
  {
    if s.timers[i].pending
    then s.(timers := s.timers[i := s.timers[i].(pending := false)], pending := Without(s.pending, i))
    else s
  }

  function Stop(s: Sys, i: nat, c: Clock): Sys
    requires Sound(s) && i < |s.timers|
  {
    LeaveSound(s, i);
    Signal(Leave(s, i), c)
  }

  function Delete(s: Sys, i: nat, c: Clock): Sys
    requires Sound(s) && i < |s.timers|
  {
    var t := Stop(s, i, c);
    t.(free := t.free + [i], noFreeTimers := t.noFreeTimers + 1)
  }

  // ----- invariants

  ghost predicate Distinct(s: seq<nat>) {
    forall j, k :: 0 <= j < k < |s| ==> s[j] != s[k]
  }

  /** The lists and flags agree. */
  ghost predicate Sound(s: Sys) {
    && InRange(s.free, |s.timers|) && InRange(s.pending, |s.timers|)
    && Distinct(s.free) && Distinct(s.pending)
    && (forall i :: i in s.free ==> i !in s.pending)
    && (forall i :: 0 <= i < |s.timers| ==> (s.timers[i].pending <==> i in s.pending) && s.timers[i].deltaTime < RANGE)
    && s.noFreeTimers == |s.free|
  }

  /** Between calls, also: nothing is due, and the interval timer stands at the smallest count. */
  ghost predicate AtRest(s: Sys) {
    && Sound(s)
    && (forall i :: i in s.pending ==> s.timers[i].deltaTime > 0)
    && (s.pending != [] ==> s.armed == Arm(s).armed)
  }

  lemma {:induction false} LiveDistinct(timers: seq<Timer>, pending: seq<nat>)
    requires InRange(pending, |timers|) && Distinct(pending)
    ensures Distinct(Live(timers, pending)) && Distinct(Expired(timers, pending))
  {
    if pending != [] {
      var front := pending[..|pending| - 1];
      LiveDistinct(timers, front);
      var i := pending[|front|];
      assert i !in front;
    }
  }

  lemma UpdateSound(s: Sys, c: Clock)
    requires Sound(s)
    ensures Sound(Update(s, c))
  {
  }

  lemma ProcessSound(s: Sys)
    requires Sound(s)
    ensures Sound(Process(s))
    ensures forall i :: i in Process(s).pending ==> Process(s).timers[i].deltaTime > 0
  {
    LiveDistinct(s.timers, s.pending);
  }

  lemma ServiceSound(s: Sys, process: bool, c: Clock)
    requires Sound(s)
    ensures Sound(Service(s, process, c))
    ensures process ==> forall i :: i in Service(s, process, c).pending ==>
            Service(s, process, c).timers[i].deltaTime > 0
  {
    hide Sound, Process, Update;
    var u := Update(s, c);
    UpdateSound(s, c);
    ProcessSound(u);
    NoneDue(u);
  }

  lemma NoneDue(s: Sys)
    requires InRange(s.pending, |s.timers|)
    ensures Smallest(s.timers, s.pending) != 0 ==> forall i :: i in s.pending ==> s.timers[i].deltaTime > 0
  {
    SmallestMeans(s.timers, s.pending);
    forall i | i in s.pending && Smallest(s.timers, s.pending) != 0
      ensures s.timers[i].deltaTime > 0
    {
      var k :| 0 <= k < |s.pending| && s.pending[k] == i;
    }
  }

  lemma EnterSound(s: Sys, i: nat, time: nat)
    requires Sound(s) && i < |s.timers| && i !in s.free && time < RANGE
    ensures Sound(Enter(s, i, time))
  {
  }

  lemma {:induction false} WithoutMeans(pending: seq<nat>, i: nat)
    requires Distinct(pending)
    ensures forall j :: j in Without(pending, i) <==> j in pending && j != i
    ensures Distinct(Without(pending, i))
  {
    if pending != [] {
      var rest := pending[1..];
      assert forall k :: 0 <= k < |rest| ==> rest[k] == pending[k + 1];
      WithoutMeans(rest, i);
      assert pending == [pending[0]] + rest;
      assert pending[0] !in rest;
    }
  }

  lemma LeaveSound(s: Sys, i: nat)
    requires Sound(s) && i < |s.timers|
    ensures Sound(Leave(s, i))
  {
    WithoutMeans(s.pending, i);
  }

  // ----- every call ends at rest

  lemma SignalRests(s: Sys, c: Clock)
    requires Sound(s)
    ensures AtRest(Signal(s, c))
  {
    ServiceSound(s, true, c);
  }

  lemma TailDistinct(free: seq<nat>)
    requires free != [] && Distinct(free)
    ensures Distinct(free[1..]) && free[0] !in free[1..]
    ensures forall i :: i in free <==> i == free[0] || i in free[1..]
  {
    assert free == [free[0]] + free[1..];
  }

  lemma CreateSound(s: Sys, timer: Option<nat>, routine: Option<nat>, parm: nat)
    requires Sound(s) && (timer.Some? ==> timer.value < |s.timers|)
    ensures Sound(Create(s, timer, routine, parm).0)
  {
    if timer.None? && s.free != [] {
      hide Distinct;
      TailDistinct(s.free);
    }
  }

  lemma CreateKeepsPending(s: Sys, timer: Option<nat>, routine: Option<nat>, parm: nat)
    requires Sound(s) && (timer.Some? ==> timer.value < |s.timers|)
    ensures var r := Create(s, timer, routine, parm).0;
            && r.pending == s.pending && r.armed == s.armed && |r.timers| == |s.timers|
            && r.sent == s.sent && r.lastTick == s.lastTick
            && forall i :: 0 <= i < |r.timers| ==> r.timers[i].deltaTime == s.timers[i].deltaTime
  {
  }

  lemma CreateTouches(s: Sys, timer: Option<nat>, routine: Option<nat>, parm: nat)
    requires Sound(s) && (timer.Some? ==> timer.value < |s.timers|)
    ensures var (r, made) := Create(s, timer, routine, parm);
            && (forall i :: 0 <= i < |s.timers| && made != Some(i) ==> r.timers[i] == s.timers[i])
            && (timer.Some? ==> made == timer && r.free == s.free)
            && (timer.None? ==> made == (if s.free == [] then None else Some(s.free[0])))
            && (timer.None? ==> r.free == (if s.free == [] then [] else s.free[1..]))
  {
  }

  /** A new timer comes off the free list, and only an empty list yields none; the rest is untouched. */
  lemma CreateRests(s: Sys, timer: Option<nat>, routine: Option<nat>, parm: nat)
    requires AtRest(s) && (timer.Some? ==> timer.value < |s.timers|)
    ensures AtRest(Create(s, timer, routine, parm).0)
    ensures timer.None? ==> Create(s, timer, routine, parm).1 == if s.free == [] then None else Some(s.free[0])
    ensures timer.None? && s.free != [] ==> s.free[0] !in Create(s, timer, routine, parm).0.free
    ensures var (r, made) := Create(s, timer, routine, parm);
            && r.pending == s.pending && r.armed == s.armed && r.sent == s.sent && r.lastTick == s.lastTick
            && (forall i :: 0 <= i < |s.timers| && made != Some(i) ==> r.timers[i] == s.timers[i])
            && (r.free == if made == timer then s.free else s.free[1..])
  {
    hide Create;
    var r := Create(s, timer, routine, parm).0;
    CreateSound(s, timer, routine, parm);
    CreateKeepsPending(s, timer, routine, parm);
    CreateTouches(s, timer, routine, parm);
    SameSmallest(s.timers, r.timers, s.pending);
    if timer.None? && s.free != [] {
      TailDistinct(s.free);
    }
  }

  lemma {:induction false} SameSmallest(a: seq<Timer>, b: seq<Timer>, pending: seq<nat>)
    requires InRange(pending, |a|) && InRange(pending, |b|)
    requires forall i :: i in pending ==> a[i].deltaTime == b[i].deltaTime
    ensures Smallest(a, pending) == Smallest(b, pending)
  {
    if pending != [] {
      SameSmallest(a, b, pending[..|pending| - 1]);
    }
  }

  lemma DeleteRests(s: Sys, i: nat, c: Clock)
    requires Sound(s) && i < |s.timers| && i !in s.free
    ensures AtRest(Delete(s, i, c)) && Delete(s, i, c).free == s.free + [i]
  {
    hide Signal;
    LeaveSound(s, i);
    WithoutMeans(s.pending, i);
    SignalRests(Leave(s, i), c);
    SignalKeepsFree(Leave(s, i), c);
  }

  lemma SignalKeepsFree(s: Sys, c: Clock)
    requires Sound(s)
    ensures var r := Signal(s, c);
            r.free == s.free && |r.timers| == |s.timers| && forall i :: i in r.pending ==> i in s.pending
  {
    ServiceSound(s, true, c);
  }

  /** What the interval timer stands at: the least count, if counts stay below 2^31. */
  lemma ArmedForTheFirst(s: Sys)
    requires AtRest(s) && s.pending != []
    requires forall i :: i in s.pending ==> s.timers[i].deltaTime < 0x8000_0000
    ensures s.armed.Some? && s.armed.value > 0
    ensures exists i :: i in s.pending && s.timers[i].deltaTime == s.armed.value
    ensures forall i :: i in s.pending ==> s.armed.value <= s.timers[i].deltaTime
  {
    SmallestMeans(s.timers, s.pending);
    NoneDue(s);
    assert s.pending[0] in s.pending;
    var k :| 0 <= k < |s.pending| && s.timers[s.pending[k]].deltaTime == Smallest(s.timers, s.pending);
    assert s.pending[k] in s.pending;
    forall i | i in s.pending
      ensures s.armed.value <= s.timers[i].deltaTime
    {
      var j :| 0 <= j < |s.pending| && s.pending[j] == i;
    }
  }

  /** Whatever the counts, the interval timer stands at the least one read as a signed number, and at -1 if none is
      pending. */
  lemma SignalArms(s: Sys, c: Clock)
    requires Sound(s)
    ensures var r := Signal(s, c);
            && (r.pending == [] ==> r.armed == Some(-1))
            && (r.pending != [] ==> exists i ::
                  && i in r.pending && i < |r.timers|
                  && (forall j :: j in r.pending ==> r.timers[i].deltaTime <= r.timers[j].deltaTime)
                  && r.armed == Some(if r.timers[i].deltaTime < 0x8000_0000 then r.timers[i].deltaTime
                                     else r.timers[i].deltaTime - 0x1_0000_0000))
  {
    hide Service;
    ServiceSound(s, true, c);
    var r := Service(s, true, c);
    if r.pending != [] {
      LeastPending(r);
    }
  }

  lemma LeastPending(s: Sys)
    requires Sound(s) && s.pending != []
    ensures exists i :: i in s.pending && s.timers[i].deltaTime == Smallest(s.timers, s.pending)
                        && forall j :: j in s.pending ==> s.timers[i].deltaTime <= s.timers[j].deltaTime
  {
    SmallestMeans(s.timers, s.pending);
    var k: nat := 0;
    if Smallest(s.timers, s.pending) < NOTHING_PENDING {
      k :| 0 <= k < |s.pending| && s.timers[s.pending[k]].deltaTime == Smallest(s.timers, s.pending);
    }
    assert s.pending[k] in s.pending && s.timers[s.pending[k]].deltaTime < RANGE;
    forall j | j in s.pending
      ensures s.timers[s.pending[k]].deltaTime <= s.timers[j].deltaTime
    {
      var l :| 0 <= l < |s.pending| && s.pending[l] == j;
    }
  }
}
