/** Forwarding comes to an end: every copy moves away from where it came from, so that the routers beyond its link
    grow fewer; and when nothing can move any more, everything has been delivered. */
module RouterQuiet {
  import opened RouterTables
  import opened RouterNet
  import opened RouterTree
  import opened RouterDelivery

  // ----- the routers beyond a link

  /** From each router the next one on the way to v. */
  ghost function Ways(R: set<Rid>, E: set<(Rid, Rid)>, v: Rid): (par: map<Rid, Rid>)
    requires IsTree(R, E) && v in R
    ensures exists depth :: Rooted(R, E, v, par, depth)
  {
    RootAt(R, E, v);
    var par, depth :| Rooted(R, E, v, par, depth);
    par
  }

  lemma RootAt(R: set<Rid>, E: set<(Rid, Rid)>, v: Rid)
    requires IsTree(R, E) && v in R
    ensures exists par, depth :: Rooted(R, E, v, par, depth)
  {
    var r0, par0, depth0 :| Rooted(R, E, r0, par0, depth0);
    var par, depth := AnyRoot(R, E, r0, par0, depth0, v);
  }

  /** The routers whose way from x leads over y. */
  ghost function Beyond(R: set<Rid>, E: set<(Rid, Rid)>, x: Rid, y: Rid): set<Rid>
    requires IsTree(R, E)
  {
    set v | v in R && x in Ways(R, E, v) && Ways(R, E, v)[x] == y
  }

  lemma BeyondParts(R: set<Rid>, E: set<(Rid, Rid)>, x: Rid, y: Rid, z: Rid)
    requires IsTree(R, E)
    ensures x !in Beyond(R, E, x, y)
    ensures y != z ==> Beyond(R, E, x, y) !! Beyond(R, E, x, z)
  {
  }

  lemma TreeLinks(R: set<Rid>, E: set<(Rid, Rid)>, a: Rid, b: Rid)
    requires IsTree(R, E) && (a, b) in E
    ensures (b, a) in E && a in R && b in R
  {
    var r, par, depth :| Rooted(R, E, r, par, depth);
  }

  /** Beyond a link lie its far end and what lies beyond the far end's other links. */
  lemma BeyondShrinks(R: set<Rid>, E: set<(Rid, Rid)>, b: Rid, a: Rid, y: Rid)
    requires IsTree(R, E) && (b, a) in E && y != b
    ensures a in R && a in Beyond(R, E, b, a)
    ensures Beyond(R, E, a, y) <= Beyond(R, E, b, a) - {a}
  {
    var r, par0, depth0 :| Rooted(R, E, r, par0, depth0);
    assert a in R && b in R;
    var depth :| Rooted(R, E, a, Ways(R, E, a), depth);
    forall v | v in Beyond(R, E, a, y)
      ensures v in Beyond(R, E, b, a) - {a}
    {
      var d :| Rooted(R, E, v, Ways(R, E, v), d);
    }
  }

  ghost function Union(R: set<Rid>, E: set<(Rid, Rid)>, a: Rid, ys: seq<Rid>): set<Rid>
    requires IsTree(R, E)
  {
    if ys == [] then {} else Beyond(R, E, a, ys[0]) + Union(R, E, a, ys[1..])
  }

  /** Routers beyond each of several links, added up. */
  ghost function Load(R: set<Rid>, E: set<(Rid, Rid)>, links: seq<(Rid, Rid)>): nat
    requires IsTree(R, E)
  {
    if links == [] then 0 else |Beyond(R, E, links[0].0, links[0].1)| + Load(R, E, links[1..])
  }

  function From(a: Rid, ys: seq<Rid>): seq<(Rid, Rid)> {
    if ys == [] then [] else [(a, ys[0])] + From(a, ys[1..])
  }

  lemma {:induction false} UnionApart(R: set<Rid>, E: set<(Rid, Rid)>, a: Rid, ys: seq<Rid>, y: Rid)
    requires IsTree(R, E) && y !in ys
    ensures Beyond(R, E, a, y) !! Union(R, E, a, ys)
  {
    hide Beyond;
    if ys != [] {
      UnionApart(R, E, a, ys[1..], y);
      BeyondParts(R, E, a, y, ys[0]);
    }
  }

  lemma {:induction false} LoadIsUnion(R: set<Rid>, E: set<(Rid, Rid)>, a: Rid, ys: seq<Rid>)
    requires IsTree(R, E) && Distinct(ys)
    ensures Load(R, E, From(a, ys)) == |Union(R, E, a, ys)|
  {
    hide Beyond;
    if ys != [] {
      LoadIsUnion(R, E, a, ys[1..]);
      UnionApart(R, E, a, ys[1..], ys[0]);
      assert From(a, ys)[1..] == From(a, ys[1..]);
    }
  }

  lemma {:induction false} UnionWithin(R: set<Rid>, E: set<(Rid, Rid)>, b: Rid, a: Rid, ys: seq<Rid>)
    requires IsTree(R, E) && (b, a) in E && b !in ys
    ensures Union(R, E, a, ys) <= Beyond(R, E, b, a) - {a}
  {
    hide Beyond;
    if ys != [] {
      BeyondShrinks(R, E, b, a, ys[0]);
      UnionWithin(R, E, b, a, ys[1..]);
    }
  }

  /** One copy going in weighs more than all copies going on. */
  lemma HopLightens(R: set<Rid>, E: set<(Rid, Rid)>, b: Rid, a: Rid, ys: seq<Rid>)
    requires IsTree(R, E) && (b, a) in E && b !in ys && Distinct(ys)
    ensures Load(R, E, From(a, ys)) < |Beyond(R, E, b, a)|
  {
    hide Beyond;
    LoadIsUnion(R, E, a, ys);
    UnionWithin(R, E, b, a, ys);
    BeyondShrinks(R, E, b, a, a);
    SubsetSize(Union(R, E, a, ys), Beyond(R, E, b, a) - {a});
  }

  lemma {:induction false} LoadConcat(R: set<Rid>, E: set<(Rid, Rid)>, p: seq<(Rid, Rid)>, q: seq<(Rid, Rid)>)
    requires IsTree(R, E)
    ensures Load(R, E, p + q) == Load(R, E, p) + Load(R, E, q)
  {
    hide Beyond;
    if p == [] {
      assert p + q == q;
    } else {
      assert (p + q)[1..] == p[1..] + q;
      LoadConcat(R, E, p[1..], q);
    }
  }

  /** A copy has at most all other routers beyond it. */
  lemma {:induction false} LoadBound(R: set<Rid>, E: set<(Rid, Rid)>, links: seq<(Rid, Rid)>)
    requires IsTree(R, E)
    ensures |R| > 0 && Load(R, E, links) <= |links| * (|R| - 1)
  {
    var r: Rid, par, depth :| Rooted(R, E, r, par, depth);
    SubsetSize<Rid>({r}, R);
    if links != [] {
      var x, y := links[0].0, links[0].1;
      LoadBound(R, E, links[1..]);
      BeyondBound(R, E, x, y);
      OneMore(|links|, |R| - 1);
    }
  }

  lemma BeyondBound(R: set<Rid>, E: set<(Rid, Rid)>, x: Rid, y: Rid)
    requires IsTree(R, E) && |R| > 0
    ensures |Beyond(R, E, x, y)| <= |R| - 1
  {
    var bs := Beyond(R, E, x, y);
    forall v | v in bs
      ensures x in R
    {
      var d :| Rooted(R, E, v, Ways(R, E, v), d);
    }
    if x in R {
      SubsetSize(bs, R - {x});
    } else {
      assert bs == {};
    }
  }

  lemma OneMore(a: nat, b: nat)
    requires a > 0
    ensures a * b == (a - 1) * b + b
  {
  }

  // ----- copies in flight

  /** The links with a copy in flight, one mention for each copy. */
  ghost predicate Traffic(n: Net, links: seq<(Rid, Rid)>) {
    forall x: Rid, y: Rid :: multiset(links)[(x, y)] == |Queue(n, x, y)|
  }

  /** Remote consumers but the source. */
  function Onward(cs: seq<Client>, b: Rid): seq<Rid> {
    if cs == [] then []
    else (if cs[0].Remote? && cs[0].peer != b then [cs[0].peer] else []) + Onward(cs[1..], b)
  }

  lemma {:induction false} OnwardMeans(cs: seq<Client>, b: Rid)
    requires Distinct(cs)
    ensures Distinct(Onward(cs, b)) && b !in Onward(cs, b)
    ensures forall y :: y in Onward(cs, b) <==> Remote(y) in cs && y != b
  {
    if cs != [] {
      OnwardMeans(cs[1..], b);
      assert forall c :: c in cs <==> c == cs[0] || c in cs[1..];
    }
  }

  lemma {:induction false} OnwardSent(cs: seq<Client>, p: Packet, b: Rid, y: Rid)
    ensures |To(Forward(cs, p, Remote(b)), Remote(y))| == multiset(Onward(cs, b))[y]
  {
    if cs != [] {
      OnwardSent(cs[1..], p, b, y);
      var f, f' := Forward(cs, p, Remote(b)), Forward(cs[1..], p, Remote(b));
      var first := if cs[0].Remote? && cs[0].peer != b then [cs[0].peer] else [];
      CountConcat(first, Onward(cs[1..], b), y);
      if cs[0] == Remote(b) {
        assert f == f';
      } else {
        assert f[1..] == f' && f[0] == Out(cs[0], p);
      }
    }
  }

  lemma {:induction false} FromCounts(a: Rid, ys: seq<Rid>, x: Rid, y: Rid)
    ensures multiset(From(a, ys))[(x, y)] == if x == a then multiset(ys)[y] else 0
  {
    if ys != [] {
      FromCounts(a, ys[1..], x, y);
      CountConcat([(a, ys[0])], From(a, ys[1..]), (x, y));
      CountConcat([ys[0]], ys[1..], y);
      assert ys == [ys[0]] + ys[1..];
    }
  }

  lemma {:induction false} TrafficOf(n: Net, keys: set<(Rid, Rid)>) returns (links: seq<(Rid, Rid)>)
    requires keys <= n.queue.Keys
    ensures forall x: Rid, y: Rid :: multiset(links)[(x, y)] == if (x, y) in keys then |n.queue[(x, y)]| else 0
    decreases keys
  {
    if keys == {} {
      links := [];
    } else {
      var l :| l in keys;
      var rest := TrafficOf(n, keys - {l});
      var own := seq(|n.queue[l]|, _ => l);
      links := own + rest;
      forall x: Rid, y: Rid
        ensures multiset(links)[(x, y)] == if (x, y) in keys then |n.queue[(x, y)]| else 0
      {
        CountConcat(own, rest, (x, y));
        CountSame(|n.queue[l]|, l, (x, y));
      }
    }
  }

  lemma {:induction false} CountSame<T>(k: nat, l: T, m: T)
    ensures multiset(seq(k, _ => l))[m] == if l == m then k else 0
  {
    if k > 0 {
      CountSame(k - 1, l, m);
      assert seq(k, _ => l) == seq(k - 1, _ => l) + [l];
      CountConcat(seq(k - 1, _ => l), [l], m);
    }
  }

  lemma LoadOne(R: set<Rid>, E: set<(Rid, Rid)>, l: (Rid, Rid))
    requires IsTree(R, E)
    ensures Load(R, E, [l]) == |Beyond(R, E, l.0, l.1)|
  {
    assert [l][1..] == [];
  }

  /** One mention out, others in. */
  lemma Replaced(R: set<Rid>, E: set<(Rid, Rid)>, links: seq<(Rid, Rid)>, i: nat, more: seq<(Rid, Rid)>)
    requires IsTree(R, E) && i < |links|
    ensures var r := links[..i] + links[i + 1..] + more;
            && Load(R, E, r) + |Beyond(R, E, links[i].0, links[i].1)| == Load(R, E, links) + Load(R, E, more)
            && forall l :: multiset(r)[l] == multiset(links)[l] - (if l == links[i] then 1 else 0) + multiset(more)[l]
  {
    hide Beyond, Load;
    var before, at, after := links[..i], [links[i]], links[i + 1..];
    assert links == before + at + after;
    LoadOne(R, E, links[i]);
    LoadConcat(R, E, before + at, after);
    LoadConcat(R, E, before, at);
    LoadConcat(R, E, before + after, more);
    LoadConcat(R, E, before, after);
    forall l
      ensures multiset(before + after + more)[l]
              == multiset(links)[l] - (if l == links[i] then 1 else 0) + multiset(more)[l]
    {
      CountConcat(before + after, more, l);
      CountConcat(before, after, l);
      CountConcat(before + at, after, l);
      CountConcat(before, at, l);
    }
  }

  /** Receiving takes one mention out and puts the onward links in. */
  lemma ReceiveTraffic(n: Net, R: set<Rid>, E: set<(Rid, Rid)>, b: Rid, a: Rid, links: seq<(Rid, Rid)>)
    returns (links': seq<(Rid, Rid)>)
    requires Settled(n, E) && IsTree(R, E) && Enabled(n, Receive(b, a)) && Traffic(n, links)
    ensures Traffic(Next(n, Receive(b, a)), links')
    ensures Load(R, E, links') < Load(R, E, links)
  {
    hide Next, Load, Beyond, Onward, From, Consumers, IsTree;
    var p := Queue(n, b, a)[0];
    var cs := Consumers(Tab(n, a), p.m);
    assert WellFormed(Tab(n, a)) && (a, b) in E;
    TreeLinks(R, E, a, b);
    ConsumersGood(Tab(n, a), p.m);
    var ys := Onward(cs, b);
    OnwardMeans(cs, b);
    HopLightens(R, E, b, a, ys);
    assert multiset(links)[(b, a)] > 0;
    var i :| 0 <= i < |links| && links[i] == (b, a);
    links' := links[..i] + links[i + 1..] + From(a, ys);
    Replaced(R, E, links, i, From(a, ys));
    forall x: Rid, y: Rid
      ensures multiset(links')[(x, y)] == |Queue(Next(n, Receive(b, a)), x, y)|
    {
      ReceiveCount(n, E, b, a, x, y);
      FromCounts(a, ys, x, y);
    }
  }

  lemma ReceiveCount(n: Net, E: set<(Rid, Rid)>, b: Rid, a: Rid, x: Rid, y: Rid)
    requires Settled(n, E) && Enabled(n, Receive(b, a))
    ensures var p := Queue(n, b, a)[0];
            |Queue(Next(n, Receive(b, a)), x, y)| == |Queue(n, x, y)| - (if (x, y) == (b, a) then 1 else 0)
              + (if x == a then multiset(Onward(Consumers(Tab(n, a), p.m), b))[y] else 0)
  {
    hide HandleAt, Queue, Consumers, To, Onward, Forward;
    var p := Queue(n, b, a)[0];
    assert p in Queue(n, b, a) && p.Data?;
    PoppedCount(n, b, a, x, y);
    HandleAtMeans(Popped(n, b, a), a, Remote(b), Packet(p), x, y);
    OnwardSent(Consumers(Tab(n, a), p.m), p, b, y);
  }

  lemma PoppedCount(n: Net, b: Rid, a: Rid, x: Rid, y: Rid)
    requires Queue(n, b, a) != []
    ensures |Queue(Popped(n, b, a), x, y)| == |Queue(n, x, y)| - (if (x, y) == (b, a) then 1 else 0)
    ensures Tab(Popped(n, b, a), a) == Tab(n, a)
  {
  }

  // ----- runs that only receive

  predicate AllReceive(steps: seq<Step>) {
    forall i :: 0 <= i < |steps| ==> steps[i].Receive?
  }

  /** Nothing can be received. */
  ghost predicate Quiet(n: Net) {
    forall x, y :: !Enabled(n, Receive(x, y))
  }

  /** However messages move, they move no more often than each copy in flight has other routers to reach. */
  lemma {:induction false} ReceivesBounded(n: Net, R: set<Rid>, E: set<(Rid, Rid)>, links: seq<(Rid, Rid)>,
                                           steps: seq<Step>, p: Packet)
    requires Settled(n, E) && IsTree(R, E) && Traffic(n, links)
    requires AllReceive(steps) && MessageRun(n, steps, p)
    ensures |steps| <= Load(R, E, links)
    decreases |steps|
  {
    if steps != [] {
      hide Next, Load, Settled, IsTree, Traffic;
      var s := steps[0];
      assert s.Receive?;
      var links' := ReceiveTraffic(n, R, E, s.b, s.a, links);
      MessageStepSettled(n, E, s);
      ReceivesBounded(Next(n, s), R, E, links', steps[1..], p);
    }
  }

  lemma RunCons(n: Net, s: Step, rest: seq<Step>, p: Packet)
    requires s.Receive? && Enabled(n, s) && AllReceive(rest) && MessageRun(Next(n, s), rest, p)
    ensures AllReceive([s] + rest) && MessageRun(n, [s] + rest, p)
    ensures Final(n, [s] + rest, p) == Final(Next(n, s), rest, p)
  {
    hide Next;
    assert ([s] + rest)[1..] == rest;
  }

  /** They can always be moved until none can. */
  lemma {:induction false} ReceivesDrain(n: Net, R: set<Rid>, E: set<(Rid, Rid)>, links: seq<(Rid, Rid)>, p: Packet)
    returns (steps: seq<Step>)
    requires Settled(n, E) && IsTree(R, E) && Traffic(n, links)
    ensures AllReceive(steps) && MessageRun(n, steps, p) && Quiet(Final(n, steps, p))
    decreases Load(R, E, links)
  {
    if Quiet(n) {
      steps := [];
    } else {
      hide Next, Load, Settled, IsTree, Traffic, Final, MessageRun, AllReceive;
      var x, y :| Enabled(n, Receive(x, y));
      var s := Receive(x, y);
      var links' := ReceiveTraffic(n, R, E, x, y, links);
      MessageStepSettled(n, E, s);
      var rest := ReceivesDrain(Next(n, s), R, E, links', p);
      RunCons(n, s, rest, p);
      steps := [s] + rest;
    }
  }

  /** Forwarding terminates: from a settled state messages can be received no more often than each copy in flight
      has other routers to reach. */
  lemma ForwardingEnds(n: Net, R: set<Rid>, E: set<(Rid, Rid)>, links: seq<(Rid, Rid)>, steps: seq<Step>, p: Packet)
    requires Settled(n, E) && IsTree(R, E) && Traffic(n, links)
    requires AllReceive(steps) && MessageRun(n, steps, p)
    ensures |R| > 0 && |steps| <= |links| * (|R| - 1)
  {
    hide Settled, IsTree, Traffic, MessageRun;
    ReceivesBounded(n, R, E, links, steps, p);
    LoadBound(R, E, links);
  }

  /** A published message has reached every subscriber, once, in any state in which nothing can be received. */
  lemma ServedWhenQuiet(n: Net, R: set<Rid>, E: set<(Rid, Rid)>, o: Rid, pid: int, p: Packet, steps: seq<Step>)
    requires Settled(n, E) && IsTree(R, E) && o in R
    requires p.Data? && Local(pid) in Tab(n, o).pibs && Unsent(n, p)
    requires MessageRun(Next(n, Request(o, pid, Packet(p))), steps, p)
    requires Quiet(Final(Next(n, Request(o, pid, Packet(p))), steps, p))
    ensures var n' := Final(Next(n, Request(o, pid, Packet(p))), steps, p);
            forall v, q :: v in R ==> Deliveries(n', v, q, p) == if Subscribed(n, v, q, p) then 1 else 0
  {
    hide Next, Final, Settled, IsTree, Copies, Deliveries, Subscribed, Unsent;
    var n1 := Next(n, Request(o, pid, Packet(p)));
    var par, depth, H := Published(n, R, E, o, pid, p, steps);
    if InFlight(Final(n1, steps, p), p) {
      FloodMoves(Final(n1, steps, p), R, E, o, par, depth, H, p);
    }
    DeliveredOnce(n, R, E, o, pid, p, steps);
  }

  /** And there is such a state to come: receiving alone brings every subscriber its copy. */
  lemma PublishedArrives(n: Net, R: set<Rid>, E: set<(Rid, Rid)>, o: Rid, pid: int, p: Packet)
    returns (steps: seq<Step>)
    requires Settled(n, E) && IsTree(R, E) && o in R
    requires p.Data? && Local(pid) in Tab(n, o).pibs && Unsent(n, p)
    ensures AllReceive(steps) && MessageRun(Next(n, Request(o, pid, Packet(p))), steps, p)
    ensures var n' := Final(Next(n, Request(o, pid, Packet(p))), steps, p);
            && Quiet(n')
            && forall v, q :: v in R ==> Deliveries(n', v, q, p) == if Subscribed(n, v, q, p) then 1 else 0
  {
    hide Next, Final, Settled, IsTree, Deliveries, Subscribed, Unsent;
    var s := Request(o, pid, Packet(p));
    MessageStepSettled(n, E, s);
    var links := TrafficAt(Next(n, s));
    steps := ReceivesDrain(Next(n, s), R, E, links, p);
    ServedWhenQuiet(n, R, E, o, pid, p, steps);
  }

  lemma TrafficAt(n: Net) returns (links: seq<(Rid, Rid)>)
    ensures Traffic(n, links)
  {
    links := TrafficOf(n, n.queue.Keys);
  }
}
