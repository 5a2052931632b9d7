/** Runs of the whole network from its start: coverage holds throughout, unless a process withdraws
    message ID 0, which the code takes for all IDs. */
module RouterRuns {
  import opened RouterTables
  import opened RouterNet
  import RouterDelivery

  ghost predicate Run(states: seq<Net>, steps: seq<Step>) {
    && |states| == |steps| + 1 && states[0] == START
    && forall i :: 0 <= i < |steps| ==> Enabled(states[i], steps[i]) && states[i + 1] == Next(states[i], steps[i])
  }

  lemma StartInv()
    ensures NetInv(START) && NoWildcard(START)
  {
  }

  lemma RunStep(states: seq<Net>, steps: seq<Step>, i: nat)
    requires Run(states, steps) && i < |steps|
    ensures |states| == |steps| + 1 && Enabled(states[i], steps[i]) && states[i + 1] == Next(states[i], steps[i])
  {
  }

  /** Up to a step that spoils, tables are well formed and interest is covered; right after it, interest is not. */
  lemma {:induction false} CoverageUpTo(states: seq<Net>, steps: seq<Step>, i: nat)
    requires Run(states, steps) && i < |states|
    requires forall j :: 0 <= j < i ==> Enabled(states[j], steps[j]) && !Spoils(states[j], steps[j])
    ensures NetInv(states[i])
    decreases i
  {
    if i == 0 {
      StartInv();
    } else {
      CoverageUpTo(states, steps, i - 1);
      RunStep(states, steps, i - 1);
      NextKeepsInv(states[i - 1], steps[i - 1]);
    }
  }

  /** Interest is covered in every state of a run if and only if no step of the run spoils. */
  lemma CoverageAlwaysIff(states: seq<Net>, steps: seq<Step>)
    requires Run(states, steps)
    ensures (forall i :: 0 <= i < |states| ==> Coverage(states[i])) <==>
            (forall i :: 0 <= i < |steps| ==> Enabled(states[i], steps[i]) && !Spoils(states[i], steps[i]))
  {
    hide Coverage, Spoils, NetInv;
    if forall i :: 0 <= i < |steps| ==> Enabled(states[i], steps[i]) && !Spoils(states[i], steps[i]) {
      forall i | 0 <= i < |states|
        ensures Coverage(states[i])
      {
        CoverageUpTo(states, steps, i);
        InvParts(states[i]);
      }
    } else {
      var i := FirstSpoils(states, steps);
      CoverageUpTo(states, steps, i);
      RunStep(states, steps, i);
      NextCoverage(states[i], steps[i]);
      assert !Coverage(states[i + 1]);
    }
  }

  lemma FirstSpoils(states: seq<Net>, steps: seq<Step>) returns (i: nat)
    requires Run(states, steps)
    requires !forall i :: 0 <= i < |steps| ==> Enabled(states[i], steps[i]) && !Spoils(states[i], steps[i])
    ensures i < |steps| && Enabled(states[i], steps[i]) && Spoils(states[i], steps[i])
    ensures forall j :: 0 <= j < i ==> Enabled(states[j], steps[j]) && !Spoils(states[j], steps[j])
  {
    hide Spoils;
    i := 0;
    while Enabled(states[i], steps[i]) && !Spoils(states[i], steps[i])
      invariant i < |steps|
      invariant forall j :: 0 <= j < i ==> Enabled(states[j], steps[j]) && !Spoils(states[j], steps[j])
      decreases |steps| - i
    {
      i := i + 1;
    }
    RunStep(states, steps, i);
  }

  /** Where no process withdraws ID 0, no step spoils. The client library refuses to do so. */
  lemma {:induction false} CoverageAlways(states: seq<Net>, steps: seq<Step>, i: nat)
    requires Run(states, steps) && i < |states|
    requires forall j :: 0 <= j < |steps| ==> Proper(steps[j])
    ensures NetInv(states[i]) && NoWildcard(states[i])
    decreases i
  {
    hide NetInv, NoWildcard;
    if i == 0 {
      StartInv();
    } else {
      CoverageAlways(states, steps, i - 1);
      RunStep(states, steps, i - 1);
      InvParts(states[i - 1]);
      ProperSpoilsNothing(states[i - 1], steps[i - 1]);
      NextKeepsInv(states[i - 1], steps[i - 1]);
      NextNoWildcard(states[i - 1], steps[i - 1]);
    }
  }

  /** A state of a run with nothing but messages in flight and both ends of each link up has settled. */
  lemma RunSettles(states: seq<Net>, steps: seq<Step>, i: nat)
    requires Run(states, steps) && i < |states|
    requires forall j :: 0 <= j < i ==> Enabled(states[j], steps[j]) && !Spoils(states[j], steps[j])
    requires forall x: Rid, y: Rid, p :: p in Queue(states[i], x, y) ==> p.Data?
    requires forall x: Rid, y: Rid :: Remote(y) in Tab(states[i], x).pibs ==> (x, y) in states[i].synced
    ensures RouterDelivery.Settled(states[i], states[i].synced)
  {
    CoverageUpTo(states, steps, i);
  }

  // ----- such a run exists

  /** A run with one more step. */
  lemma Extend(states: seq<Net>, steps: seq<Step>, s: Step) returns (states': seq<Net>)
    requires Run(states, steps) && Enabled(states[|steps|], s)
    ensures states' == states + [Next(states[|steps|], s)]
    ensures Run(states', steps + [s])
  {
    var n' := Next(states[|steps|], s);
    states' := states + [n'];
    var steps' := steps + [s];
    forall i | 0 <= i < |steps'|
      ensures Enabled(states'[i], steps'[i]) && states'[i + 1] == Next(states'[i], steps'[i])
    {
      if i < |steps| {
        assert states'[i] == states[i] && states'[i + 1] == states[i + 1] && steps'[i] == steps[i];
      } else {
        assert states'[i] == states[i] && states'[i + 1] == n' && steps'[i] == s;
      }
    }
  }

  lemma RunLength(states: seq<Net>, steps: seq<Step>)
    requires Run(states, steps)
    ensures |states| == |steps| + 1
  {
  }

  lemma ExtendRequest(states: seq<Net>, steps: seq<Step>, pid: int, req: RouterTables.Request)
    returns (states': seq<Net>)
    requires Run(states, steps) && NetInv(states[|steps|]) && req != Packet(Disable(0))
    ensures Run(states', steps + [Request(1, pid, req)])
    ensures var n, n' := states[|steps|], states'[|steps| + 1];
            && NetInv(n') && n'.synced == n.synced
            && Tab(n', 1) == Handle(Tab(n, 1), Local(pid), req).0 && Tab(n', 2) == Tab(n, 2)
  {
    var n := states[|steps|];
    states' := Extend(states, steps, Request(1, pid, req));
    assert !Spoils(n, Request(1, pid, req));
    NextKeepsInv(n, Request(1, pid, req));
    HandleAtMeans(n, 1, Local(pid), req, 1, 1);
    HandleAtMeans(n, 1, Local(pid), req, 2, 2);
  }

  lemma ExtendLink(states: seq<Net>, steps: seq<Step>) returns (states': seq<Net>)
    requires Run(states, steps) && NetInv(states[|steps|])
    requires Tab(states[|steps|], 1) == Tables([Local(10)], []) && Tab(states[|steps|], 2) == Tables([], [])
    requires states[|steps|].synced == {}
    ensures Run(states', steps + [Connect(1, 2)] + [Accept(2, 1)] + [Ack(1, 2)])
    ensures var n' := states'[|steps| + 3];
            NetInv(n') && (1, 2) in n'.synced && Tab(n', 1) == REGISTERED
  {
    hide NetInv, Run, Next, Enabled, List, AnnounceLink, Tab, SpoilsAt;
    RunLength(states, steps);
    var n := states[|steps|];
    LinkComesUp(n);
    var s1 := Extend(states, steps, Connect(1, 2));
    NextKeepsInv(n, Connect(1, 2));
    var n1 := List(n, 1, 2);
    var s2 := Extend(s1, steps + [Connect(1, 2)], Accept(2, 1));
    NextKeepsInv(n1, Accept(2, 1));
    var n2 := AnnounceLink(List(n1, 2, 1), 2, 1);
    states' := Extend(s2, steps + [Connect(1, 2)] + [Accept(2, 1)], Ack(1, 2));
    NextKeepsInv(n2, Ack(1, 2));
  }

  /** The three steps that link routers 1 and 2. */
  lemma LinkComesUp(n: Net)
    requires Tab(n, 1) == Tables([Local(10)], []) && Tab(n, 2) == Tables([], []) && n.synced == {}
    ensures Enabled(n, Connect(1, 2))
    ensures var n1 := List(n, 1, 2);
            var n2 := AnnounceLink(List(n1, 2, 1), 2, 1);
            var n3 := AnnounceLink(n2, 1, 2);
            && Next(n, Connect(1, 2)) == n1
            && Enabled(n1, Accept(2, 1)) && Next(n1, Accept(2, 1)) == n2
            && Enabled(n2, Ack(1, 2)) && Next(n2, Ack(1, 2)) == n3
            && (1, 2) in n3.synced && Tab(n3, 1) == REGISTERED
  {
    var l := List(List(n, 1, 2), 2, 1);
    var n2 := AnnounceLink(l, 2, 1);
    AnnounceLinkMeans(l, 2, 1, 1, 2);
    AnnounceLinkMeans(n2, 1, 2, 1, 2);
  }

  const REGISTERED := Tables([Local(10), Remote(2)], [])
  const WITH_ID_5 := Tables([Local(10), Remote(2)], [Miib(5, [Local(10)])])
  const WITH_ID_0 := Tables([Local(10), Remote(2)], [Miib(5, [Local(10)]), Miib(0, [Local(10)])])

  lemma TablesOnTheWay()
    ensures Handle(Tables([], []), Local(10), Register).0 == Tables([Local(10)], [])
    ensures Handle(REGISTERED, Local(10), Packet(Enable(5))).0 == WITH_ID_5
    ensures Handle(WITH_ID_5, Local(10), Packet(Enable(0))).0 == WITH_ID_0
    ensures Consumers(WITH_ID_0, 5) == [Local(10)] == Consumers(WITH_ID_0, 0)
    ensures HasOther(WITH_ID_0, 5, Remote(2))
  {
    var i := FindMiib(WITH_ID_5.miibs, 0);
    assert i == 1;
    var j := FindMiib(WITH_ID_0.miibs, 0);
    assert j == 1;
    assert Consumers(WITH_ID_0, 5)[0] == Local(10);
  }

  /** A run whose last step, the withdrawal of ID 0, takes coverage away. */
  ghost predicate SpoiledByWithdrawal(states: seq<Net>, steps: seq<Step>) {
    && Run(states, steps) && steps != [] && steps[|steps| - 1] == Request(1, 10, Packet(Disable(0)))
    && NetInv(states[|steps| - 1]) && !Coverage(states[|steps|])
  }

  lemma StartRun()
    ensures Run([START], []) && Tab(START, 1) == Tab(START, 2) == Tables([], []) && START.synced == {}
  {
  }

  /** Two linked routers: a process at the first subscribes to 5 and to 0, and withdraws from 0. */
  lemma WildcardBreaksCoverage()
    ensures exists states, steps :: SpoiledByWithdrawal(states, steps)
  {
    hide NetInv, Run, RouterTables.Handle, SpoiledByWithdrawal;
    StartInv();
    StartRun();
    TablesOnTheWay();
    var s0, p0 := [START], [];
    var s1 := ExtendRequest(s0, p0, 10, Register);
    var p1 := p0 + [Request(1, 10, Register)];
    var s4 := ExtendLink(s1, p1);
    var p4 := p1 + [Connect(1, 2)] + [Accept(2, 1)] + [Ack(1, 2)];
    var s5 := ExtendRequest(s4, p4, 10, Packet(Enable(5)));
    var p5 := p4 + [Request(1, 10, Packet(Enable(5)))];
    var s6 := ExtendRequest(s5, p5, 10, Packet(Enable(0)));
    var p6 := p5 + [Request(1, 10, Packet(Enable(0)))];
    RunLength(s6, p6);
    LastStepSpoils(s6, p6);
  }

  lemma LastStepSpoils(states: seq<Net>, steps: seq<Step>)
    requires Run(states, steps)
    requires var n := states[|steps|]; NetInv(n) && (1, 2) in n.synced && Tab(n, 1) == WITH_ID_0
    ensures exists states', steps' :: SpoiledByWithdrawal(states', steps')
  {
    hide NetInv, Run, Next, Tab, Consumers, Coverage;
    TablesOnTheWay();
    RunLength(states, steps);
    var n, s := states[|steps|], Request(1, 10, Packet(Disable(0)));
    assert Withdraws(Tab(n, 1), Local(10), Packet(Disable(0)), 2, 5);
    NextCoverage(n, s);
    var states' := Extend(states, steps, s);
    var steps' := steps + [s];
    assert states'[|steps|] == n;
    assert SpoiledByWithdrawal(states', steps');
  }

  // ----- a withdrawal that spoils only further on

  const NEAR := Tables([Local(10), Remote(2)], [Miib(0, [Local(10)]), Miib(5, [Remote(2)])])
  const MIDDLE := Tables([Local(20), Remote(1), Remote(3)], [Miib(5, [Local(20)]), Miib(0, [Remote(1)])])
  const FAR := Tables([Remote(2)], [Miib(5, [Remote(2)]), Miib(0, [Remote(2)])])
  const CHAIN := Net(map[1 := NEAR, 2 := MIDDLE, 3 := FAR], map[], {(1, 2), (2, 1), (2, 3), (3, 2)}, multiset{})

  lemma ChainConsumers(k: MsgId)
    ensures Consumers(NEAR, k) == if k == 0 then [Local(10)] else if k == 5 then [Remote(2)] else []
    ensures Consumers(MIDDLE, k) == if k == 0 then [Remote(1)] else if k == 5 then [Local(20)] else []
    ensures Consumers(FAR, k) == if k == 0 || k == 5 then [Remote(2)] else []
  {
    assert FindMiib(NEAR.miibs, k) == if k == 0 then 0 else if k == 5 then 1 else 2;
    assert FindMiib(MIDDLE.miibs, k) == if k == 5 then 0 else if k == 0 then 1 else 2;
    assert FindMiib(FAR.miibs, k) == if k == 5 then 0 else if k == 0 then 1 else 2;
  }

  lemma ChainWellFormed()
    ensures WellFormed(NEAR) && WellFormed(MIDDLE) && WellFormed(FAR) && WellFormed(Tables([], []))
    ensures Remote(1) !in NEAR.pibs && Remote(2) !in MIDDLE.pibs && Remote(3) !in FAR.pibs
  {
  }

  lemma ChainTables()
    ensures WellFormedNet(CHAIN)
    ensures Tab(CHAIN, 1) == NEAR && Tab(CHAIN, 2) == MIDDLE && Tab(CHAIN, 3) == FAR
    ensures forall x, y :: Queue(CHAIN, x, y) == []
  {
    hide WellFormed;
    ChainWellFormed();
    forall a
      ensures WellFormed(Tab(CHAIN, a)) && Remote(a) !in Tab(CHAIN, a).pibs
    {
      assert Tab(CHAIN, a)
             == if a == 1 then NEAR else if a == 2 then MIDDLE else if a == 3 then FAR else Tables([], []);
    }
  }

  lemma ChainCovers(x: Rid, y: Rid, k: MsgId)
    requires (x, y) in CHAIN.synced
    ensures Covers(CHAIN, x, y, k)
  {
    hide Tab, Queue, Consumers;
    ChainTables();
    ChainConsumers(k);
    assert (x == 1 && y == 2) || (x == 2 && (y == 1 || y == 3)) || (x == 3 && y == 2);
  }

  lemma ChainInv()
    ensures NetInv(CHAIN)
  {
    hide Tab, Queue, Covers, WellFormedNet;
    ChainTables();
    forall x, y, k | (x, y) in CHAIN.synced
      ensures Covers(CHAIN, x, y, k)
    {
      ChainCovers(x, y, k);
    }
  }

  /** Three routers in a row. Withdrawing ID 0 at the first keeps interest covered, but the first then passes the
      withdrawal on, and the second withdraws from the third an ID that its own process still consumes. */
  lemma WithdrawalSpreads()
    ensures var s, r := Request(1, 10, Packet(Disable(0))), Receive(1, 2);
            && NetInv(CHAIN) && Enabled(CHAIN, s) && NetInv(Next(CHAIN, s))
            && Enabled(Next(CHAIN, s), r) && !Coverage(Next(Next(CHAIN, s), r))
  {
    var s, r := Request(1, 10, Packet(Disable(0))), Receive(1, 2);
    ChainInv();
    FirstWithdraws();
    var n := Next(CHAIN, s);
    NextKeepsInv(CHAIN, s);
    ChainConsumers(0);
    ChainConsumers(5);
    assert Withdraws(MIDDLE, Remote(1), Packet(Disable(0)), 3, 5) by {
      assert Consumers(MIDDLE, 5)[0] == Local(20);
    }
    assert SpoilsAt(n, 2, Remote(1), Packet(Disable(0)));
    NextCoverage(n, r);
  }

  lemma NearAnnounces()
    ensures Announce(NEAR.miibs, 0, false) == [Disable(0), Disable(5)]
  {
    assert NEAR.miibs[1..] == [Miib(5, [Remote(2)])];
    assert Announce(NEAR.miibs[1..], 0, false) == [Disable(5)] + Announce([], 0, false);
  }

  lemma NearKeeps(y: Rid, k: MsgId)
    requires (1, y) in CHAIN.synced
    ensures !Withdraws(NEAR, Local(10), Packet(Disable(0)), y, k)
  {
    hide Consumers;
    ChainConsumers(k);
  }

  lemma FirstWithdraws()
    ensures var s := Request(1, 10, Packet(Disable(0)));
            var n := Next(CHAIN, s);
            && !Spoils(CHAIN, s)
            && Queue(n, 1, 2) == [Disable(0), Disable(5)] && Tab(n, 2) == MIDDLE && n.synced == CHAIN.synced
  {
    hide Tab, Queue, HandleAt, HandleDisable, Consumers, Announce, AnnounceAll, To, FindMiib, Withdraws, WellFormed;
    var s, t := Request(1, 10, Packet(Disable(0))), NEAR;
    ChainWellFormed();
    ChainTables();
    ChainConsumers(0);
    forall y, k | (1, y) in CHAIN.synced
      ensures !Withdraws(t, Local(10), s.req, y, k)
    {
      NearKeeps(y, k);
    }
    DisableSends(t, Local(10), 0);
    NearDistinct();
    ToAnnounceAll(t.pibs, t.miibs, 0, false, Local(10), 2);
    NearAnnounces();
    HandleAtMeans(CHAIN, 1, Local(10), s.req, 1, 2);
    HandleAtMeans(CHAIN, 1, Local(10), s.req, 2, 2);
  }

  lemma NearDistinct()
    ensures Distinct(NEAR.pibs)
  {
  }
}
