/** Whole runs of the timer subsystem. Beside the state stands a record of every arming: when it was made, for
    how long, and how much time the clock readings have let slip since; and of every expiry. */
module TimerRuns {
  import opened Options
  import opened TimerRules

  datatype Arming = Arming(serial: nat, time: nat, base: nat, lost: int)
  datatype Expiry = Expiry(timer: nat, arming: Arming, at: nat, notice: seq<Callback>)
  datatype Watch = Watch(sys: Sys, armings: seq<Arming>, next: nat, expiries: seq<Expiry>)

  // ----- steps

  ghost predicate Shape(w: Watch) {
    Sound(w.sys) && |w.armings| == |w.sys.timers|
  }

  /** Clocks do not run backwards. */
  predicate Later(s: Sys, c: Clock) {
    s.lastTick <= c.first <= c.tick <= c.last
  }

  /** Time that passes between two services and is not ticked off. */
  function Slip(s: Sys, c: Clock): int {
    c.last - s.lastTick - Ticks(s.lastTick, c)
  }

  function Due(s: Sys, process: bool, c: Clock): (r: seq<nat>)
    requires Sound(s)
    ensures InRange(r, |s.timers|) && forall i :: i in r ==> i in s.pending
  {
    var u := Update(s, c);
    if process && Smallest(u.timers, u.pending) == 0 then Expired(u.timers, u.pending) else []
  }

  function Log(armings: seq<Arming>, timers: seq<Timer>, due: seq<nat>, at: nat): (r: seq<Expiry>)
    requires InRange(due, |timers|) && |armings| == |timers|
    ensures |r| == |due|
    ensures forall k :: 0 <= k < |r| ==> r[k] == Expiry(due[k], armings[due[k]], at, Notice(timers[due[k]]))
  {
    seq(|due|, k requires 0 <= k < |due| => Expiry(due[k], armings[due[k]], at, Notice(timers[due[k]])))
  }

  function Slipped(armings: seq<Arming>, pending: seq<nat>, slip: int): (r: seq<Arming>)
    ensures |r| == |armings|
    ensures forall i :: 0 <= i < |r| ==>
              r[i] == if i in pending then armings[i].(lost := armings[i].lost + slip) else armings[i]
  {
    seq(|armings|, i requires 0 <= i < |armings| =>
      if i in pending then armings[i].(lost := armings[i].lost + slip) else armings[i])
  }

  function Watched(w: Watch, process: bool, c: Clock): (w': Watch)
    requires Shape(w)
    ensures Shape(w')
  {
    ServiceSound(w.sys, process, c);
    Watch(Service(w.sys, process, c), Slipped(w.armings, w.sys.pending, Slip(w.sys, c)), w.next,
          w.expiries + Log(w.armings, w.sys.timers, Due(w.sys, process, c), c.tick))
  }

  datatype Event =
    | Create(timer: Option<nat>, routine: Option<nat>, parm: nat)
    | Start(i: nat, time: nat, before: Clock, after: Clock)
    | Stop(i: nat, c: Clock)
    | Delete(i: nat, c: Clock)
    | Signal(c: Clock)

  /** Callers use only timers they were given and have not deleted. */
  ghost predicate Can(w: Watch, e: Event)
    requires Shape(w)
  {
    match e
    case Create(timer, _, _) => timer.Some? ==> timer.value < |w.sys.timers|
    case Start(i, time, before, after) =>
      i < |w.sys.timers| && i !in w.sys.free && time < RANGE && Later(w.sys, before)
      && Later(w.sys.(lastTick := before.last), after)
    case Stop(i, c) => i < |w.sys.timers| && Later(w.sys, c)
    case Delete(i, c) => i < |w.sys.timers| && i !in w.sys.free && Later(w.sys, c)
    case Signal(c) => Later(w.sys, c)
  }

  function Armed(w: Watch): Watch
    requires Shape(w)
  {
    w.(sys := Arm(w.sys))
  }

  function Entered(w: Watch, i: nat, time: nat): (w': Watch)
    requires Shape(w) && i < |w.sys.timers| && i !in w.sys.free && time < RANGE
    ensures Shape(w')
  {
    EnterSound(w.sys, i, time);
    w.(sys := Enter(w.sys, i, time), armings := w.armings[i := Arming(w.next, time, w.sys.lastTick, 0)],
       next := w.next + 1)
  }

  function Left(w: Watch, i: nat): (w': Watch)
    requires Shape(w) && i < |w.sys.timers|
    ensures Shape(w')
  {
    LeaveSound(w.sys, i);
    w.(sys := Leave(w.sys, i))
  }

  function Do(w: Watch, e: Event): Watch
    requires Shape(w) && Can(w, e)
  {
    match e
    case Create(timer, routine, parm) => w.(sys := TimerRules.Create(w.sys, timer, routine, parm).0)
    case Start(i, time, before, after) => Armed(Watched(Entered(Watched(w, false, before), i, time), true, after))
    case Stop(i, c) => Armed(Watched(Left(w, i), true, c))
    case Delete(i, c) =>
      var t := Armed(Watched(Left(w, i), true, c));
      t.(sys := t.sys.(free := t.sys.free + [i], noFreeTimers := t.sys.noFreeTimers + 1))
    case Signal(c) => Armed(Watched(w, true, c))
  }

  /** What is watched are the calls themselves. */
  lemma DoIsCall(w: Watch, e: Event)
    requires Shape(w) && Can(w, e)
    ensures match e
            case Create(timer, routine, parm) => Do(w, e).sys == TimerRules.Create(w.sys, timer, routine, parm).0
            case Start(i, time, before, after) => Do(w, e).sys == TimerRules.Start(w.sys, i, time, before, after)
            case Stop(i, c) => Do(w, e).sys == TimerRules.Stop(w.sys, i, c)
            case Delete(i, c) => Do(w, e).sys == TimerRules.Delete(w.sys, i, c)
            case Signal(c) => Do(w, e).sys == TimerRules.Signal(w.sys, c)
  {
    hide Service, Arm, Sound;
  }

  // ----- the invariant

  /** The count left and the time gone make up the time asked for and the time let slip. */
  predicate Accounted(t: Timer, a: Arming, lastTick: nat) {
    && a.base <= lastTick && a.lost >= 0
    && t.deltaTime + (lastTick - a.base) >= a.time + a.lost
    && (t.deltaTime > 0 ==> t.deltaTime + (lastTick - a.base) == a.time + a.lost)
  }

  /** No notice before the time asked for, counted from the last clock reading before the timer was armed. */
  predicate OnTime(e: Expiry) {
    e.arming.lost >= 0 && e.at >= e.arming.base + e.arming.time + e.arming.lost
  }

  ghost predicate Serials(w: Watch)
    requires Shape(w)
  {
    && (forall i :: i in w.sys.pending ==> w.armings[i].serial < w.next)
    && (forall i, j :: i in w.sys.pending && j in w.sys.pending && i != j ==>
       w.armings[i].serial != w.armings[j].serial)
    && (forall e :: e in w.expiries ==> e.arming.serial < w.next)
    && (forall e, i :: e in w.expiries && i in w.sys.pending ==> e.arming.serial != w.armings[i].serial)
    && (forall j, k :: 0 <= j < k < |w.expiries| ==> w.expiries[j].arming.serial != w.expiries[k].arming.serial)
  }

  lemma PendingDiffer(w: Watch, i: nat, j: nat)
    requires Shape(w) && Serials(w) && i in w.sys.pending && j in w.sys.pending && i != j
    ensures w.armings[i].serial != w.armings[j].serial
  {
  }

  lemma ExpiredDiffers(w: Watch, k: nat, i: nat)
    requires Shape(w) && Serials(w) && k < |w.expiries| && i in w.sys.pending
    ensures w.expiries[k].arming.serial != w.armings[i].serial
  {
    assert w.expiries[k] in w.expiries;
  }

  lemma ExpiriesDiffer(w: Watch, j: nat, k: nat)
    requires Shape(w) && Serials(w) && j < k < |w.expiries|
    ensures w.expiries[j].arming.serial != w.expiries[k].arming.serial
  {
  }

  ghost predicate Times(w: Watch)
    requires Shape(w)
  {
    && (forall i :: i in w.sys.pending ==> Accounted(w.sys.timers[i], w.armings[i], w.sys.lastTick))
    && (forall e :: e in w.expiries ==> OnTime(e))
  }

  ghost predicate Inv(w: Watch) {
    Shape(w) && Serials(w) && Times(w)
  }

  /** A 32-bit difference is never more than the difference. */
  lemma TicksAtMost(s: Sys, c: Clock)
    requires Later(s, c)
    ensures Ticks(s.lastTick, c) <= c.tick - s.lastTick && Slip(s, c) >= 0
  {
    var from := if s.lastTick == 0 then c.first else s.lastTick;
    assert (c.tick - from) % RANGE <= c.tick - from;
  }

  lemma AccountKept(t: Timer, a: Arming, s: Sys, c: Clock)
    requires Later(s, c) && Accounted(t, a, s.lastTick)
    ensures var ticks := Ticks(s.lastTick, c);
            && Accounted(t.(deltaTime := Less(t.deltaTime, ticks)), a.(lost := a.lost + Slip(s, c)), c.last)
            && (Less(t.deltaTime, ticks) == 0 ==> c.tick >= a.base + a.time + a.lost)
  {
    TicksAtMost(s, c);
  }

  lemma WatchedPending(w: Watch, process: bool, c: Clock)
    requires Shape(w)
    ensures var w', due := Watched(w, process, c), Due(w.sys, process, c);
            && (forall i :: i in w'.sys.pending <==> i in w.sys.pending && i !in due)
            && (forall i :: 0 <= i < |w.sys.timers| ==>
                  w'.sys.timers[i].deltaTime
                  == if i in w.sys.pending then Less(w.sys.timers[i].deltaTime, Ticks(w.sys.lastTick, c))
                     else w.sys.timers[i].deltaTime)
            && (forall i :: i in due ==> Less(w.sys.timers[i].deltaTime, Ticks(w.sys.lastTick, c)) == 0)
            && w'.sys.lastTick == c.last && w'.next == w.next && |w'.armings| == |w.armings|
            && (forall i :: 0 <= i < |w.armings| ==> w'.armings[i].serial == w.armings[i].serial)
            && Distinct(due)
  {
    LiveDistinct(Update(w.sys, c).timers, w.sys.pending);
  }

  lemma WatchedTimes(w: Watch, process: bool, c: Clock)
    requires Inv(w) && Later(w.sys, c)
    ensures Times(Watched(w, process, c))
  {
    hide Service, Due, Accounted, OnTime;
    var w', due := Watched(w, process, c), Due(w.sys, process, c);
    WatchedPending(w, process, c);
    forall i | i in w'.sys.pending
      ensures Accounted(w'.sys.timers[i], w'.armings[i], c.last)
    {
      AccountKept(w.sys.timers[i], w.armings[i], w.sys, c);
      SameAccount(w.sys.timers[i].(deltaTime := Less(w.sys.timers[i].deltaTime, Ticks(w.sys.lastTick, c))),
        w'.sys.timers[i], w'.armings[i], c.last);
    }
    forall e | e in w'.expiries
      ensures OnTime(e)
    {
      if e !in w.expiries {
        Logged(w, process, c);
        var k :| 0 <= k < |w'.expiries| && w'.expiries[k] == e;
        assert k < |w.expiries| ==> w'.expiries[k] == w.expiries[k];
        var i := e.timer;
        AccountKept(w.sys.timers[i], w.armings[i], w.sys, c);
        DueOnTime(w.sys.timers[i], w.sys, e);
      }
    }
  }

  lemma SameAccount(t: Timer, u: Timer, a: Arming, lastTick: nat)
    requires Accounted(t, a, lastTick) && u.deltaTime == t.deltaTime
    ensures Accounted(u, a, lastTick)
  {
  }

  lemma DueOnTime(t: Timer, s: Sys, e: Expiry)
    requires Accounted(t, e.arming, s.lastTick) && e.at >= e.arming.base + e.arming.time + e.arming.lost
    ensures OnTime(e)
  {
  }

  /** What is logged comes from timers that were pending, each logged once. */
  lemma Logged(w: Watch, process: bool, c: Clock)
    requires Shape(w)
    ensures var es, due, n := Watched(w, process, c).expiries, Due(w.sys, process, c), |w.expiries|;
            && |es| == n + |due| && es[..n] == w.expiries
            && (forall k :: n <= k < |es| ==>
                  es[k].timer == due[k - n] && due[k - n] in due && due[k - n] in w.sys.pending
                    && due[k - n] < |w.armings|
                  && es[k].arming == w.armings[due[k - n]])
            && (forall j, k :: n <= j < k < |es| ==> es[j].timer != es[k].timer)
  {
    hide Service, Due;
    WatchedPending(w, process, c);
    var es, due, n := Watched(w, process, c).expiries, Due(w.sys, process, c), |w.expiries|;
    assert es[..n] == w.expiries;
    assert forall k :: 0 <= k < |due| ==> due[k] in due;
  }

  lemma WatchedExpiry(w: Watch, process: bool, c: Clock, k: nat, i: nat)
    requires Shape(w) && Serials(w) && k < |Watched(w, process, c).expiries|
    ensures Watched(w, process, c).expiries[k].arming.serial < w.next
    ensures i in Watched(w, process, c).sys.pending ==>
              i in w.sys.pending && i < |w.armings|
              && Watched(w, process, c).expiries[k].arming.serial != w.armings[i].serial
  {
    hide Service, Due, Serials, Watched;
    WatchedPending(w, process, c);
    Logged(w, process, c);
    Below(w);
    if k < |w.expiries| {
      assert Watched(w, process, c).expiries[k] == w.expiries[k] && w.expiries[k] in w.expiries;
      if i in w.sys.pending {
        ExpiredDiffers(w, k, i);
      }
    } else if i in Watched(w, process, c).sys.pending {
      PendingDiffer(w, Watched(w, process, c).expiries[k].timer, i);
    }
  }

  lemma Below(w: Watch)
    requires Shape(w) && Serials(w)
    ensures forall i :: i in w.sys.pending ==> w.armings[i].serial < w.next
    ensures forall e :: e in w.expiries ==> e.arming.serial < w.next
  {
  }

  lemma WatchedDistinct(w: Watch, process: bool, c: Clock, j: nat, k: nat)
    requires Shape(w) && Serials(w) && j < k < |Watched(w, process, c).expiries|
    ensures var es := Watched(w, process, c).expiries; es[j].arming.serial != es[k].arming.serial
  {
    hide Service, Due, Serials, Watched;
    var es, n := Watched(w, process, c).expiries, |w.expiries|;
    Logged(w, process, c);
    assert forall l :: 0 <= l < n ==> es[l] == w.expiries[l];
    if k < n {
      ExpiriesDiffer(w, j, k);
    } else if j < n {
      ExpiredDiffers(w, j, es[k].timer);
    } else {
      PendingDiffer(w, es[j].timer, es[k].timer);
    }
  }

  lemma WatchedSerials(w: Watch, process: bool, c: Clock)
    requires Shape(w) && Serials(w)
    ensures Serials(Watched(w, process, c))
  {
    hide Service, Due, Watched;
    var w' := Watched(w, process, c);
    WatchedPending(w, process, c);
    forall e | e in w'.expiries
      ensures e.arming.serial < w.next
      ensures forall i :: i in w'.sys.pending ==> i < |w'.armings| && e.arming.serial != w'.armings[i].serial
    {
      var k :| 0 <= k < |w'.expiries| && w'.expiries[k] == e;
      forall i | i in w'.sys.pending
        ensures i < |w'.armings| && e.arming.serial != w'.armings[i].serial
      {
        WatchedExpiry(w, process, c, k, i);
      }
      WatchedExpiry(w, process, c, k, 0);
    }
    forall i, j | i in w'.sys.pending && j in w'.sys.pending && i != j
      ensures w'.armings[i].serial != w'.armings[j].serial
    {
      PendingDiffer(w, i, j);
    }
    forall j, k | 0 <= j < k < |w'.expiries|
      ensures w'.expiries[j].arming.serial != w'.expiries[k].arming.serial
    {
      WatchedDistinct(w, process, c, j, k);
    }
  }

  lemma WatchedInv(w: Watch, process: bool, c: Clock)
    requires Inv(w) && Later(w.sys, c)
    ensures Inv(Watched(w, process, c))
  {
    WatchedTimes(w, process, c);
    WatchedSerials(w, process, c);
  }

  lemma EnteredInv(w: Watch, i: nat, time: nat)
    requires Inv(w) && i < |w.sys.timers| && i !in w.sys.free && time < RANGE
    ensures Inv(Entered(w, i, time))
  {
    Below(w);
  }

  lemma LeftInv(w: Watch, i: nat)
    requires Inv(w) && i < |w.sys.timers|
    ensures Inv(Left(w, i))
    ensures forall j :: j in Left(w, i).sys.pending <==> j in w.sys.pending && j != i
  {
    WithoutMeans(w.sys.pending, i);
  }

  lemma ArmedInv(w: Watch)
    requires Inv(w)
    ensures Inv(Armed(w))
  {
  }

  lemma CreatedInv(w: Watch, timer: Option<nat>, routine: Option<nat>, parm: nat)
    requires Inv(w) && (timer.Some? ==> timer.value < |w.sys.timers|)
    ensures Inv(w.(sys := TimerRules.Create(w.sys, timer, routine, parm).0))
  {
    hide TimerRules.Create;
    CreateSound(w.sys, timer, routine, parm);
    CreateKeepsPending(w.sys, timer, routine, parm);
  }

  lemma FreedInv(w: Watch, i: nat)
    requires Inv(w) && Sound(w.sys.(free := w.sys.free + [i], noFreeTimers := w.sys.noFreeTimers + 1))
    ensures Inv(w.(sys := w.sys.(free := w.sys.free + [i], noFreeTimers := w.sys.noFreeTimers + 1)))
  {
  }

  lemma StoppedInv(w: Watch, i: nat, c: Clock)
    requires Inv(w) && i < |w.sys.timers| && Later(w.sys, c)
    ensures Inv(Armed(Watched(Left(w, i), true, c)))
  {
    hide Watched, Left, Armed, Serials, Times;
    LeftInv(w, i);
    LeftTick(w, i);
    WatchedInv(Left(w, i), true, c);
    ArmedInv(Watched(Left(w, i), true, c));
  }

  lemma DoInv(w: Watch, e: Event)
    requires Inv(w) && Can(w, e)
    ensures Inv(Do(w, e))
  {
    hide Watched, Entered, Left, Armed, Serials, Times;
    match e
    case Create(timer, routine, parm) =>
      CreatedInv(w, timer, routine, parm);
    case Start(i, time, before, after) =>
      var v := Watched(w, false, before);
      WatchedInv(w, false, before);
      WatchedPending(w, false, before);
      WatchedFree(w, false, before);
      EnteredInv(v, i, time);
      EnteredTick(v, i, time);
      WatchedInv(Entered(v, i, time), true, after);
      ArmedInv(Watched(Entered(v, i, time), true, after));
    case Stop(i, c) =>
      StoppedInv(w, i, c);
    case Delete(i, c) =>
      StoppedInv(w, i, c);
      DoIsCall(w, e);
      DeleteRests(w.sys, i, c);
      FreedInv(Armed(Watched(Left(w, i), true, c)), i);
    case Signal(c) =>
      WatchedInv(w, true, c);
      ArmedInv(Watched(w, true, c));
  }

  lemma WatchedFree(w: Watch, process: bool, c: Clock)
    requires Shape(w)
    ensures var r := Watched(w, process, c).sys; r.free == w.sys.free && |r.timers| == |w.sys.timers|
  {
  }

  lemma EnteredTick(w: Watch, i: nat, time: nat)
    requires Shape(w) && i < |w.sys.timers| && i !in w.sys.free && time < RANGE
    ensures Entered(w, i, time).sys.lastTick == w.sys.lastTick
  {
  }

  lemma LeftTick(w: Watch, i: nat)
    requires Shape(w) && i < |w.sys.timers|
    ensures Left(w, i).sys.lastTick == w.sys.lastTick && Left(w, i).sys.free == w.sys.free
  {
  }

  // ----- what was sent is what expired

  function Notices(es: seq<Expiry>): seq<Callback> {
    if es == [] then [] else Notices(es[..|es| - 1]) + es[|es| - 1].notice
  }

  lemma {:induction false} NoticesConcat(a: seq<Expiry>, b: seq<Expiry>)
    ensures Notices(a + b) == Notices(a) + Notices(b)
  {
    if b == [] {
      assert a + b == a;
    } else {
      assert (a + b)[..|a + b| - 1] == a + b[..|b| - 1];
      NoticesConcat(a, b[..|b| - 1]);
    }
  }

  lemma {:induction false} LogSaid(armings: seq<Arming>, timers: seq<Timer>, ticked: seq<Timer>, due: seq<nat>, at: nat)
    requires InRange(due, |timers|) && |armings| == |timers| == |ticked|
    requires forall i :: 0 <= i < |timers| ==> Notice(ticked[i]) == Notice(timers[i])
    ensures Notices(Log(armings, timers, due, at)) == Callbacks(ticked, due)
  {
    if due != [] {
      var front := due[..|due| - 1];
      LogSaid(armings, timers, ticked, front, at);
      assert Log(armings, timers, due, at)[..|due| - 1] == Log(armings, timers, front, at);
    }
  }

  predicate Said(w: Watch) {
    w.sys.sent == Notices(w.expiries)
  }

  lemma WatchedSaid(w: Watch, process: bool, c: Clock)
    requires Shape(w) && Said(w)
    ensures Said(Watched(w, process, c))
  {
    var u, due := Update(w.sys, c), Due(w.sys, process, c);
    LogSaid(w.armings, w.sys.timers, u.timers, due, c.tick);
    NoticesConcat(w.expiries, Log(w.armings, w.sys.timers, due, c.tick));
  }

  lemma DoSaid(w: Watch, e: Event)
    requires Shape(w) && Can(w, e) && Said(w)
    ensures Said(Do(w, e))
  {
    hide Watched, Notices;
    match e
    case Create(timer, routine, parm) =>
      CreateKeepsPending(w.sys, timer, routine, parm);
    case Start(i, time, before, after) =>
      WatchedSaid(w, false, before);
      WatchedFree(w, false, before);
      WatchedSaid(Entered(Watched(w, false, before), i, time), true, after);
    case Stop(i, c) => WatchedSaid(Left(w, i), true, c);
    case Delete(i, c) => WatchedSaid(Left(w, i), true, c);
    case Signal(c) => WatchedSaid(w, true, c);
  }

  lemma DoRests(w: Watch, e: Event)
    requires Shape(w) && Can(w, e) && AtRest(w.sys)
    ensures AtRest(Do(w, e).sys)
  {
    hide Do, TimerRules.Signal, AtRest;
    DoIsCall(w, e);
    match e
    case Create(timer, routine, parm) => RestIsSound(w.sys); CreateRests(w.sys, timer, routine, parm);
    case Start(i, time, before, after) => StartRests(w.sys, i, time, before, after);
    case Stop(i, c) => LeaveSound(w.sys, i); SignalRests(Leave(w.sys, i), c);
    case Delete(i, c) => DeleteRests(w.sys, i, c);
    case Signal(c) => SignalRests(w.sys, c);
  }

  lemma RestIsSound(s: Sys)
    requires AtRest(s)
    ensures Sound(s)
  {
  }

  lemma StartRests(s: Sys, i: nat, time: nat, before: Clock, after: Clock)
    requires Sound(s) && i < |s.timers| && i !in s.free && time < RANGE
    ensures AtRest(TimerRules.Start(s, i, time, before, after))
  {
    hide TimerRules.Signal, Service;
    ServiceSound(s, false, before);
    ServiceKeepsFree(s, false, before);
    EnterSound(Service(s, false, before), i, time);
    SignalRests(Enter(Service(s, false, before), i, time), after);
  }

  lemma ServiceKeepsFree(s: Sys, process: bool, c: Clock)
    requires Sound(s)
    ensures Service(s, process, c).free == s.free && |Service(s, process, c).timers| == |s.timers|
  {
  }

  // ----- runs

  ghost predicate CanRun(w: Watch, events: seq<Event>)
    requires Inv(w)
    decreases |events|
  {
    events == [] ||
    (Can(w, events[0]) && (DoInv(w, events[0]); CanRun(Do(w, events[0]), events[1..])))
  }

  ghost function Run(w: Watch, events: seq<Event>): Watch
    requires Inv(w) && CanRun(w, events)
    decreases |events|
  {
    if events == [] then w else
      DoInv(w, events[0]);
      Run(Do(w, events[0]), events[1..])
  }

  ghost function Initial(n: nat): (w: Watch)
    ensures Inv(w) && AtRest(w.sys) && Said(w)
  {
    Watch(Sys(seq(n, _ => Timer(0, false, None, 0)), seq(n, i => i), [], n, 0, None, []),
      seq(n, _ => Arming(0, 0, 0, 0)), 0, [])
  }

  /** Every notice comes in time and at most once for each arming, and nothing that is due waits longer than to
      the next service; the time let slip is all that a timer runs late by. */
  ghost predicate Timely(w: Watch)
    requires Inv(w)
  {
    && (forall e :: e in w.expiries ==> OnTime(e) && e.at - e.arming.base >= e.arming.time)
    && (forall j, k :: 0 <= j < k < |w.expiries| ==> w.expiries[j].arming.serial != w.expiries[k].arming.serial)
    && (forall i :: i in w.sys.pending ==> w.sys.lastTick - w.armings[i].base < w.armings[i].time + w.armings[i].lost)
    && w.sys.sent == Notices(w.expiries)
  }

  lemma {:induction false} RunIsTimely(w: Watch, events: seq<Event>)
    requires Inv(w) && AtRest(w.sys) && Said(w) && CanRun(w, events)
    ensures Inv(Run(w, events)) && AtRest(Run(w, events).sys) && Timely(Run(w, events))
    decreases |events|
  {
    if events == [] {
      RestTimely(w);
    } else {
      hide Do, Inv, AtRest, Said, Timely, Can;
      DoInv(w, events[0]);
      DoRestsInv(w, events[0]);
      RunIsTimely(Do(w, events[0]), events[1..]);
    }
  }

  lemma DoRestsInv(w: Watch, e: Event)
    requires Inv(w) && Can(w, e) && AtRest(w.sys) && Said(w)
    ensures AtRest(Do(w, e).sys) && Said(Do(w, e))
  {
    hide Do;
    DoRests(w, e);
    DoSaid(w, e);
  }

  lemma RestTimely(w: Watch)
    requires Inv(w) && AtRest(w.sys) && Said(w)
    ensures Timely(w)
  {
    forall i | i in w.sys.pending
      ensures w.sys.lastTick - w.armings[i].base < w.armings[i].time + w.armings[i].lost
    {
      assert Accounted(w.sys.timers[i], w.armings[i], w.sys.lastTick);
    }
  }

  lemma TimersAreTimely(n: nat, events: seq<Event>)
    requires CanRun(Initial(n), events)
    ensures Inv(Run(Initial(n), events)) && AtRest(Run(Initial(n), events).sys) && Timely(Run(Initial(n), events))
  {
    RunIsTimely(Initial(n), events);
  }

  // ----- after a stop

  /** Arming k is over and was never notified. */
  ghost predicate Silent(w: Watch, k: nat)
    requires Shape(w)
  {
    && k < w.next
    && (forall i :: i in w.sys.pending ==> w.armings[i].serial != k)
    && (forall j :: 0 <= j < |w.expiries| ==> w.expiries[j].arming.serial != k)
  }

  lemma WatchedSilent(w: Watch, process: bool, c: Clock, k: nat)
    requires Shape(w) && Silent(w, k)
    ensures Silent(Watched(w, process, c), k)
  {
    hide Watched, Due;
    var w' := Watched(w, process, c);
    WatchedPending(w, process, c);
    Logged(w, process, c);
    forall j | 0 <= j < |w'.expiries|
      ensures w'.expiries[j].arming.serial != k
    {
      if j < |w.expiries| {
        assert w'.expiries[j] == w.expiries[j];
      } else {
        assert w'.expiries[j].timer in w.sys.pending;
      }
    }
  }

  lemma EnteredSilent(w: Watch, i: nat, time: nat, k: nat)
    requires Shape(w) && i < |w.sys.timers| && i !in w.sys.free && time < RANGE
    requires k < w.next && (forall j :: j in w.sys.pending && j != i ==> w.armings[j].serial != k)
    requires forall j :: 0 <= j < |w.expiries| ==> w.expiries[j].arming.serial != k
    ensures Silent(Entered(w, i, time), k)
  {
  }

  lemma LeftSilent(w: Watch, i: nat, k: nat)
    requires Shape(w) && i < |w.sys.timers|
    requires k < w.next && (forall j :: j in w.sys.pending && j != i ==> w.armings[j].serial != k)
    requires forall j :: 0 <= j < |w.expiries| ==> w.expiries[j].arming.serial != k
    ensures Silent(Left(w, i), k)
  {
    WithoutMeans(w.sys.pending, i);
  }

  lemma DoSilent(w: Watch, e: Event, k: nat)
    requires Shape(w) && Can(w, e) && Silent(w, k) && Shape(Do(w, e))
    ensures Silent(Do(w, e), k)
  {
    hide Watched, Entered, Left;
    match e
    case Create(timer, routine, parm) =>
      CreateKeepsPending(w.sys, timer, routine, parm);
    case Start(i, time, before, after) =>
      var v := Watched(w, false, before);
      WatchedSilent(w, false, before, k);
      WatchedFree(w, false, before);
      EnteredSilent(v, i, time, k);
      WatchedSilent(Entered(v, i, time), true, after, k);
    case Stop(i, c) =>
      LeftSilent(w, i, k);
      WatchedSilent(Left(w, i), true, c, k);
    case Delete(i, c) =>
      LeftSilent(w, i, k);
      WatchedSilent(Left(w, i), true, c, k);
    case Signal(c) =>
      WatchedSilent(w, true, c, k);
  }

  lemma {:induction false} RunSilent(w: Watch, events: seq<Event>, k: nat)
    requires Inv(w) && CanRun(w, events) && Silent(w, k)
    ensures Inv(Run(w, events)) && Silent(Run(w, events), k)
    decreases |events|
  {
    if events != [] {
      hide Do, Serials, Times, Shape, Can;
      DoInv(w, events[0]);
      DoSilent(w, events[0], k);
      RunSilent(Do(w, events[0]), events[1..], k);
    }
  }

  /** A timer that is stopped while it runs is never notified for that arming: not by the service inside the call
      that stops it, and not by any later one. Starting it anew ends the old arming in the same way. */
  lemma StopSilences(w: Watch, e: Event, i: nat, events: seq<Event>)
    requires Inv(w) && Can(w, e) && i in w.sys.pending
    requires (e.Stop? || e.Delete? || e.Start?) && e.i == i
    requires Inv(Do(w, e)) && CanRun(Do(w, e), events)
    ensures Inv(Run(Do(w, e), events))
    ensures forall x :: x in Run(Do(w, e), events).expiries ==> x.arming.serial != w.armings[i].serial
  {
    EndsArming(w, e, i);
    RunSilent(Do(w, e), events, w.armings[i].serial);
  }

  lemma EndsArming(w: Watch, e: Event, i: nat)
    requires Inv(w) && Can(w, e) && i in w.sys.pending
    requires (e.Stop? || e.Delete? || e.Start?) && e.i == i
    ensures Shape(Do(w, e)) && Silent(Do(w, e), w.armings[i].serial)
  {
    hide Watched, Entered, Left;
    var k := w.armings[i].serial;
    DoInv(w, e);
    Below(w);
    assert forall j :: 0 <= j < |w.expiries| ==> w.expiries[j] in w.expiries;
    match e
    case Start(_, time, before, after) =>
      var v := Watched(w, false, before);
      NoneDueUnprocessed(w, before);
      WatchedPending(w, false, before);
      WatchedFree(w, false, before);
      EnteredSilent(v, i, time, k);
      WatchedSilent(Entered(v, i, time), true, after, k);
    case Stop(_, c) =>
      LeftSilent(w, i, k);
      WatchedSilent(Left(w, i), true, c, k);
    case Delete(_, c) =>
      LeftSilent(w, i, k);
      WatchedSilent(Left(w, i), true, c, k);
  }

  lemma NoneDueUnprocessed(w: Watch, c: Clock)
    requires Shape(w)
    ensures Watched(w, false, c).expiries == w.expiries
  {
  }
}
