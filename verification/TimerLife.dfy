/** The life of one timer: from the call that starts it, through any run in which nobody starts, stops or deletes it
    again, its count and the moment of its notice follow from the clock readings alone. */
module TimerLife {
  import opened Options
  import opened TimerRules
  import opened TimerRuns

  // ----- one service

  /** Every pending count goes down by the milliseconds since the last reading, as far as 32 bits tell, and no other
      count changes; a service that processes takes those at 0 off the list. */
  lemma CountsDown(s: Sys, process: bool, c: Clock)
    requires Sound(s) && Later(s, c)
    ensures var r := Service(s, process, c);
            var gone := (c.tick - (if s.lastTick == 0 then c.first else s.lastTick)) % 0x1_0000_0000;
            && r.lastTick == c.last && |r.timers| == |s.timers|
            && (forall i :: i in s.pending ==>
                  r.timers[i].deltaTime == if s.timers[i].deltaTime > gone then s.timers[i].deltaTime - gone else 0)
            && (forall i :: 0 <= i < |s.timers| && i !in s.pending ==>
                  r.timers[i].deltaTime == s.timers[i].deltaTime)
            && (forall i :: i in r.pending <==> i in s.pending && !(process && r.timers[i].deltaTime == 0))
  {
    hide Sound, Update, Process;
    var u := Update(s, c);
    UpdateSound(s, c);
    UpdateCounts(s, c);
    NoneDue(u);
    ProcessTakes(u);
  }

  lemma UpdateCounts(s: Sys, c: Clock)
    requires Sound(s) && Later(s, c)
    ensures var r := Update(s, c);
            var gone := (c.tick - (if s.lastTick == 0 then c.first else s.lastTick)) % 0x1_0000_0000;
            && r.lastTick == c.last && |r.timers| == |s.timers| && r.pending == s.pending
            && InRange(s.pending, |s.timers|)
            && (forall i :: i in s.pending ==>
                  r.timers[i].deltaTime == if s.timers[i].deltaTime > gone then s.timers[i].deltaTime - gone else 0)
            && (forall i :: 0 <= i < |s.timers| && i !in s.pending ==>
                  r.timers[i].deltaTime == s.timers[i].deltaTime)
  {
    hide Ticks;
    TicksGone(s, c);
  }

  lemma TicksGone(s: Sys, c: Clock)
    requires Later(s, c)
    ensures Ticks(s.lastTick, c)
            == (c.tick - (if s.lastTick == 0 then c.first else s.lastTick)) % 0x1_0000_0000
  {
  }

  lemma ProcessTakes(s: Sys)
    requires Sound(s)
    ensures var r := Process(s);
            && r.lastTick == s.lastTick && |r.timers| == |s.timers|
            && (forall i :: 0 <= i < |s.timers| ==> r.timers[i].deltaTime == s.timers[i].deltaTime)
            && (forall i :: i in r.pending <==> i in s.pending && r.timers[i].deltaTime != 0)
  {
  }

  // ----- the clock readings of a run

  function Services(e: Event): seq<Clock> {
    match e
    case Create(_, _, _) => []
    case Start(_, _, before, after) => [before, after]
    case Stop(_, c) => [c]
    case Delete(_, c) => [c]
    case Signal(c) => [c]
  }

  function Readings(events: seq<Event>): seq<Clock> {
    if events == [] then [] else Services(events[0]) + Readings(events[1..])
  }

  /** The time that passes inside services, between the reading that is ticked off and the one that is kept. */
  function Slack(cs: seq<Clock>): int {
    if cs == [] then 0 else cs[0].last - cs[0].tick + Slack(cs[1..])
  }

  /** Services follow one another within 2^32 milliseconds. */
  predicate Close(last: nat, cs: seq<Clock>)
    decreases |cs|
  {
    cs == [] || (cs[0].tick - last < 0x1_0000_0000 && Close(cs[0].last, cs[1..]))
  }

  function LastReading(last: nat, cs: seq<Clock>): nat
    decreases |cs|
  {
    if cs == [] then last else LastReading(cs[0].last, cs[1..])
  }

  lemma {:induction false} SlackConcat(a: seq<Clock>, b: seq<Clock>)
    ensures Slack(a + b) == Slack(a) + Slack(b)
  {
    if a == [] {
      assert a + b == b;
    } else {
      assert (a + b)[1..] == a[1..] + b;
      SlackConcat(a[1..], b);
    }
  }

  lemma {:induction false} CloseConcat(last: nat, a: seq<Clock>, b: seq<Clock>)
    ensures Close(last, a + b) <==> Close(last, a) && Close(LastReading(last, a), b)
    ensures LastReading(last, a + b) == LastReading(LastReading(last, a), b)
    decreases |a|
  {
    if a == [] {
      assert a + b == b;
    } else {
      assert (a + b)[1..] == a[1..] + b;
      CloseConcat(a[0].last, a[1..], b);
    }
  }

  // ----- one timer

  /** The timer runs in the arming that began as a, and is due when the clock reads due. */
  ghost predicate Waits(w: Watch, i: nat, a: Arming, due: int)
    requires Shape(w)
  {
    && i in w.sys.pending && w.sys.lastTick > 0
    && w.armings[i] == a.(lost := due - a.base - a.time)
    && w.sys.timers[i].deltaTime == if due > w.sys.lastTick then due - w.sys.lastTick else 0
  }

  /** It has expired, and the expiry of this arming is on record. */
  ghost predicate Served(w: Watch, i: nat, a: Arming)
    requires Shape(w)
  {
    && i !in w.sys.pending
    && exists k :: 0 <= k < |w.expiries| && w.expiries[k].timer == i && w.expiries[k].arming.serial == a.serial
  }

  ghost predicate WaitsOrServed(w: Watch, i: nat, a: Arming, due: int)
    requires Shape(w)
  {
    if w.sys.lastTick < due then Waits(w, i, a, due) else Served(w, i, a)
  }

  predicate Touches(e: Event, i: nat) {
    (e.Start? || e.Stop? || e.Delete?) && e.i == i
  }

  lemma NoWrap(s: Sys, c: Clock)
    requires Later(s, c) && s.lastTick > 0 && c.tick - s.lastTick < 0x1_0000_0000
    ensures Ticks(s.lastTick, c) == c.tick - s.lastTick && Slip(s, c) == c.last - c.tick
  {
  }

  lemma WatchedWaits(w: Watch, process: bool, c: Clock, i: nat, a: Arming, due: int)
    requires Shape(w) && Later(w.sys, c) && Waits(w, i, a, due) && c.tick - w.sys.lastTick < 0x1_0000_0000
    ensures var w', due' := Watched(w, process, c), due + (c.last - c.tick);
            && w'.sys.lastTick == c.last
            && (c.tick < due || !process ==> Waits(w', i, a, due'))
            && (c.tick >= due && process ==> Served(w', i, a))
  {
    hide Watched, Service, Due, Sound, Slip;
    var w' := Watched(w, process, c);
    NoWrap(w.sys, c);
    CountsDown(w.sys, process, c);
    WatchedArming(w, process, c, i);
    if c.tick >= due && process {
      DueListed(w, c, i);
      var es, n := w'.expiries, |w.expiries|;
      Logged(w, process, c);
      var k :| 0 <= k < |Due(w.sys, process, c)| && Due(w.sys, process, c)[k] == i;
      assert es[n + k].timer == i && es[n + k].arming == w.armings[i];
    }
  }

  lemma WatchedArming(w: Watch, process: bool, c: Clock, i: nat)
    requires Shape(w) && i in w.sys.pending
    ensures Watched(w, process, c).sys == Service(w.sys, process, c) && i < |w.armings|
    ensures Watched(w, process, c).armings[i] == w.armings[i].(lost := w.armings[i].lost + Slip(w.sys, c))
  {
  }

  lemma DueListed(w: Watch, c: Clock, i: nat)
    requires Shape(w) && Later(w.sys, c) && i in w.sys.pending && Service(w.sys, true, c).timers[i].deltaTime == 0
    ensures i in Due(w.sys, true, c)
  {
    var u := Update(w.sys, c);
    UpdateSound(w.sys, c);
    NoneDue(u);
  }

  lemma WatchedServed(w: Watch, process: bool, c: Clock, i: nat, a: Arming)
    requires Shape(w) && Served(w, i, a)
    ensures Served(Watched(w, process, c), i, a)
  {
    WatchedPending(w, process, c);
    var k :| 0 <= k < |w.expiries| && w.expiries[k].timer == i && w.expiries[k].arming.serial == a.serial;
    assert Watched(w, process, c).expiries[k] == w.expiries[k];
  }

  // ----- the other parts of a call

  lemma EnteredOther(w: Watch, j: nat, time: nat, i: nat, a: Arming, due: int)
    requires Shape(w) && j < |w.sys.timers| && j !in w.sys.free && time < RANGE && j != i
    ensures Waits(w, i, a, due) ==> Waits(Entered(w, j, time), i, a, due)
    ensures Served(w, i, a) ==> Served(Entered(w, j, time), i, a)
  {
  }

  lemma LeftOther(w: Watch, j: nat, i: nat, a: Arming, due: int)
    requires Shape(w) && j < |w.sys.timers| && j != i
    ensures Waits(w, i, a, due) ==> Waits(Left(w, j), i, a, due)
    ensures Served(w, i, a) ==> Served(Left(w, j), i, a)
  {
    WithoutMeans(w.sys.pending, j);
  }

  /** Only lists and counts matter here. */
  lemma SameLife(w: Watch, v: Watch, i: nat, a: Arming, due: int)
    requires Shape(w) && Shape(v) && v.sys.pending == w.sys.pending && v.sys.lastTick == w.sys.lastTick
    requires forall k :: 0 <= k < |w.sys.timers| && k < |v.sys.timers| ==>
             v.sys.timers[k].deltaTime == w.sys.timers[k].deltaTime
    requires v.armings == w.armings && v.expiries == w.expiries
    ensures Waits(v, i, a, due) == Waits(w, i, a, due) && Served(v, i, a) == Served(w, i, a)
  {
  }

  lemma DoneWaits(w: Watch, c: Clock, i: nat, a: Arming, due: int)
    requires Shape(w) && Later(w.sys, c) && Waits(w, i, a, due) && c.tick - w.sys.lastTick < 0x1_0000_0000
    ensures Shape(Armed(Watched(w, true, c))) && Armed(Watched(w, true, c)).sys.lastTick == c.last
    ensures WaitsOrServed(Armed(Watched(w, true, c)), i, a, due + (c.last - c.tick))
  {
    hide Watched, Waits, Served;
    var v := Watched(w, true, c);
    WatchedWaits(w, true, c, i, a, due);
    SameLife(v, Armed(v), i, a, due + (c.last - c.tick));
  }

  lemma DoneServed(w: Watch, c: Clock, i: nat, a: Arming)
    requires Shape(w) && Served(w, i, a)
    ensures Shape(Armed(Watched(w, true, c))) && Served(Armed(Watched(w, true, c)), i, a)
  {
    hide Watched, Waits, Served;
    WatchedServed(w, true, c, i, a);
    SameLife(Watched(w, true, c), Armed(Watched(w, true, c)), i, a, 0);
  }

  // ----- a call

  lemma OneReading(last: nat, c: Clock)
    ensures LastReading(last, [c]) == c.last && Slack([c]) == c.last - c.tick
    ensures Close(last, [c]) <==> c.tick - last < 0x1_0000_0000
  {
    assert [c][1..] == [];
  }

  lemma TwoReadings(last: nat, c: Clock, d: Clock)
    ensures LastReading(last, [c, d]) == d.last && Slack([c, d]) == c.last - c.tick + (d.last - d.tick)
    ensures Close(last, [c, d]) <==> c.tick - last < 0x1_0000_0000 && d.tick - c.last < 0x1_0000_0000
  {
    assert [c, d][1..] == [d];
    OneReading(c.last, d);
  }

  lemma DoneTick(w: Watch, c: Clock)
    requires Shape(w)
    ensures Shape(Armed(Watched(w, true, c))) && Armed(Watched(w, true, c)).sys.lastTick == c.last
  {
    hide Watched;
    WatchedPending(w, true, c);
  }

  lemma DoTick(w: Watch, e: Event)
    requires Shape(w) && Can(w, e)
    ensures Do(w, e).sys.lastTick == LastReading(w.sys.lastTick, Services(e))
    ensures Do(w, e).sys.lastTick - Slack(Services(e)) >= w.sys.lastTick
  {
    hide Watched, Entered, Left, Armed, LastReading, Slack, Close, Sound;
    match e
    case Create(timer, routine, parm) =>
      CreateKeepsPending(w.sys, timer, routine, parm);
      NoReading(w.sys.lastTick);
    case Start(i, time, before, after) =>
      var v := Watched(w, false, before);
      WatchedPending(w, false, before);
      WatchedFree(w, false, before);
      EnteredTick(v, i, time);
      DoneTick(Entered(v, i, time), after);
      TwoReadings(w.sys.lastTick, before, after);
    case Stop(i, c) =>
      LeftTick(w, i);
      DoneTick(Left(w, i), c);
      OneReading(w.sys.lastTick, c);
    case Delete(i, c) =>
      LeftTick(w, i);
      DoneTick(Left(w, i), c);
      OneReading(w.sys.lastTick, c);
    case Signal(c) =>
      DoneTick(w, c);
      OneReading(w.sys.lastTick, c);
  }

  lemma NoReading(last: nat)
    ensures LastReading(last, []) == last && Slack([]) == 0
  {
  }

  /** A call that does not touch the timer moves its due time by the slack of its services. */
  lemma DoWaits(w: Watch, e: Event, i: nat, a: Arming, due: int)
    requires Shape(w) && Can(w, e) && !Touches(e, i) && Shape(Do(w, e))
    requires w.sys.lastTick < due && Waits(w, i, a, due) && Close(w.sys.lastTick, Services(e))
    ensures WaitsOrServed(Do(w, e), i, a, due + Slack(Services(e)))
  {
    hide Watched, Entered, Left, Armed, LastReading, Slack, Close, Sound, Waits, Served;
    match e
    case Create(timer, routine, parm) =>
      CreateKeepsPending(w.sys, timer, routine, parm);
      NoReading(w.sys.lastTick);
      SameLife(w, Do(w, e), i, a, due);
    case Start(j, time, before, after) =>
      var v := Watched(w, false, before);
      TwoReadings(w.sys.lastTick, before, after);
      WatchedWaits(w, false, before, i, a, due);
      WatchedFree(w, false, before);
      EnteredTick(v, j, time);
      EnteredOther(v, j, time, i, a, due + (before.last - before.tick));
      DoneWaits(Entered(v, j, time), after, i, a, due + (before.last - before.tick));
    case Stop(j, c) =>
      OneReading(w.sys.lastTick, c);
      LeftTick(w, j);
      LeftOther(w, j, i, a, due);
      DoneWaits(Left(w, j), c, i, a, due);
    case Delete(j, c) =>
      OneReading(w.sys.lastTick, c);
      LeftTick(w, j);
      LeftOther(w, j, i, a, due);
      DoneWaits(Left(w, j), c, i, a, due);
      FreedLife(Armed(Watched(Left(w, j), true, c)), Do(w, e), i, a, due + (c.last - c.tick));
    case Signal(c) =>
      OneReading(w.sys.lastTick, c);
      DoneWaits(w, c, i, a, due);
  }

  lemma FreedLife(w: Watch, v: Watch, i: nat, a: Arming, due: int)
    requires Shape(w) && Shape(v)
    requires v == w.(sys := w.sys.(free := v.sys.free, noFreeTimers := v.sys.noFreeTimers))
    ensures Waits(v, i, a, due) == Waits(w, i, a, due) && Served(v, i, a) == Served(w, i, a)
    ensures WaitsOrServed(v, i, a, due) == WaitsOrServed(w, i, a, due)
  {
  }

  lemma DoServed(w: Watch, e: Event, i: nat, a: Arming)
    requires Shape(w) && Can(w, e) && !Touches(e, i) && Shape(Do(w, e)) && Served(w, i, a)
    ensures Served(Do(w, e), i, a)
  {
    hide Watched, Entered, Left, Armed, Sound, Served;
    match e
    case Create(timer, routine, parm) =>
      CreateKeepsPending(w.sys, timer, routine, parm);
      SameLife(w, Do(w, e), i, a, 0);
    case Start(j, time, before, after) =>
      var v := Watched(w, false, before);
      WatchedServed(w, false, before, i, a);
      WatchedFree(w, false, before);
      EnteredOther(v, j, time, i, a, 0);
      DoneServed(Entered(v, j, time), after, i, a);
    case Stop(j, c) =>
      LeftOther(w, j, i, a, 0);
      DoneServed(Left(w, j), c, i, a);
    case Delete(j, c) =>
      LeftOther(w, j, i, a, 0);
      DoneServed(Left(w, j), c, i, a);
      FreedLife(Armed(Watched(Left(w, j), true, c)), Do(w, e), i, a, 0);
    case Signal(c) =>
      DoneServed(w, c, i, a);
  }

  // ----- a run

  predicate Untouched(events: seq<Event>, i: nat) {
    forall k :: 0 <= k < |events| ==> !Touches(events[k], i)
  }

  lemma {:induction false} RunTick(w: Watch, events: seq<Event>)
    requires Inv(w) && CanRun(w, events)
    ensures Run(w, events).sys.lastTick == LastReading(w.sys.lastTick, Readings(events))
    ensures Run(w, events).sys.lastTick - Slack(Readings(events)) >= w.sys.lastTick
    decreases |events|
  {
    hide Do, Inv, Can, LastReading, Slack, Close;
    if events == [] {
      NoReading(w.sys.lastTick);
    } else {
      InvShape(w);
      DoInv(w, events[0]);
      DoTick(w, events[0]);
      RunTick(Do(w, events[0]), events[1..]);
      CloseConcat(w.sys.lastTick, Services(events[0]), Readings(events[1..]));
      SlackConcat(Services(events[0]), Readings(events[1..]));
    }
  }

  lemma InvShape(w: Watch)
    requires Inv(w)
    ensures Shape(w)
  {
  }

  lemma {:induction false} RunServed(w: Watch, events: seq<Event>, i: nat, a: Arming)
    requires Inv(w) && CanRun(w, events) && Untouched(events, i) && Served(w, i, a)
    ensures Shape(Run(w, events)) && Served(Run(w, events), i, a)
    decreases |events|
  {
    hide Do, Inv, Can, Served;
    InvShape(w);
    if events != [] {
      DoInv(w, events[0]);
      InvShape(Do(w, events[0]));
      DoServed(w, events[0], i, a);
      RunServed(Do(w, events[0]), events[1..], i, a);
    }
  }

  lemma {:induction false} RunWaits(w: Watch, events: seq<Event>, i: nat, a: Arming, due: int)
    requires Inv(w) && CanRun(w, events) && Untouched(events, i)
    requires WaitsOrServed(w, i, a, due) && Close(w.sys.lastTick, Readings(events))
    ensures Shape(Run(w, events)) && WaitsOrServed(Run(w, events), i, a, due + Slack(Readings(events)))
    decreases |events|
  {
    hide Do, Inv, Can, LastReading, Slack, Close, Waits, Served;
    InvShape(w);
    RunTick(w, events);
    if w.sys.lastTick >= due {
      RunServed(w, events, i, a);
    } else if events == [] {
      NoReading(w.sys.lastTick);
    } else {
      var e, rest := events[0], events[1..];
      DoInv(w, e);
      InvShape(Do(w, e));
      DoTick(w, e);
      CloseConcat(w.sys.lastTick, Services(e), Readings(rest));
      SlackConcat(Services(e), Readings(rest));
      DoWaits(w, e, i, a, due);
      RunWaits(Do(w, e), rest, i, a, due + Slack(Services(e)));
    }
  }

  // ----- from its start on

  lemma StartWaits(w: Watch, i: nat, time: nat, before: Clock, after: Clock)
    requires Inv(w) && Can(w, Start(i, time, before, after)) && before.last > 0
    requires after.tick - before.last < 0x1_0000_0000
    ensures var w' := Do(w, Start(i, time, before, after));
            Shape(w') && WaitsOrServed(w', i, Arming(w.next, time, before.last, 0),
                                       before.last + time + (after.last - after.tick))
  {
    hide Watched, Armed, Sound, WaitsOrServed;
    var v := Watched(w, false, before);
    WatchedPending(w, false, before);
    WatchedFree(w, false, before);
    EnteredTick(v, i, time);
    EnteredSelf(v, i, time);
    DoneWaits(Entered(v, i, time), after, i, Arming(w.next, time, before.last, 0), before.last + time);
  }

  lemma EnteredSelf(w: Watch, i: nat, time: nat)
    requires Shape(w) && i < |w.sys.timers| && i !in w.sys.free && time < RANGE && w.sys.lastTick > 0
    ensures Waits(Entered(w, i, time), i, Arming(w.next, time, w.sys.lastTick, 0), w.sys.lastTick + time)
  {
  }

  /** A timer started for some time at the reading before.last, and not touched again, runs after any further calls
      and signals exactly if the clock was last read before that reading plus the time plus the slack of the services
      since. While it runs its count is what is missing, and the time let slip is that slack; afterwards its expiry is
      on record. */
  lemma TimerRunsOut(w: Watch, i: nat, time: nat, before: Clock, after: Clock, events: seq<Event>)
    requires Inv(w) && Can(w, Start(i, time, before, after)) && before.last > 0
    requires Inv(Do(w, Start(i, time, before, after))) && CanRun(Do(w, Start(i, time, before, after)), events)
    requires Untouched(events, i) && Close(before.last, [after] + Readings(events))
    ensures var w', cs := Run(Do(w, Start(i, time, before, after)), events), [after] + Readings(events);
            var due := before.last + time + Slack(cs);
            && Shape(w') && w'.sys.lastTick == LastReading(before.last, cs)
            && (i in w'.sys.pending <==> w'.sys.lastTick < due)
            && (i in w'.sys.pending ==>
                  && w'.sys.timers[i].deltaTime == due - w'.sys.lastTick
                  && w'.armings[i] == Arming(w.next, time, before.last, Slack(cs)))
            && (i !in w'.sys.pending ==> exists k :: 0 <= k < |w'.expiries| && w'.expiries[k].timer == i
                                                     && w'.expiries[k].arming.serial == w.next)
  {
    hide Do, Inv, Can, LastReading, Slack, Close;
    InvShape(w);
    var e := Start(i, time, before, after);
    var v, cs := Do(w, e), [after] + Readings(events);
    var a := Arming(w.next, time, before.last, 0);
    CloseConcat(before.last, [after], Readings(events));
    SlackConcat([after], Readings(events));
    OneReading(before.last, after);
    DoTick(w, e);
    TwoReadings(w.sys.lastTick, before, after);
    StartWaits(w, i, time, before, after);
    RunWaits(v, events, i, a, before.last + time + (after.last - after.tick));
    RunTick(v, events);
  }
}
