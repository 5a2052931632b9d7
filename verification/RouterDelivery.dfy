/** Delivery in a tree of routers whose registrations have settled: every subscribed process gets a
    published message once, nobody else gets it, and it is handled at most once per router. */
module RouterDelivery {
  import opened RouterTables
  import opened RouterNet
  import opened RouterTree

  /** Registrations have settled: links up exactly along E, and only messages in flight. */
  ghost predicate Settled(n: Net, E: set<(Rid, Rid)>) {
    && WellFormedNet(n) && Coverage(n)
    && (forall x, y :: (x, y) in E <==> (x, y) in n.synced)
    && (forall x: Rid, y: Rid :: Remote(y) in Tab(n, x).pibs <==> (x, y) in E)
    && (forall x: Rid, y: Rid, p :: p in Queue(n, x, y) ==> p.Data?)
  }

  /** Steps that publish or forward messages. */
  predicate MessageStep(s: Step) {
    s.Receive? || (s.Request? && s.req.Packet? && s.req.packet.Data?)
  }

  function Copies(n: Net, x: Rid, y: Rid, p: Packet): nat {
    multiset(Queue(n, x, y))[p]
  }

  function Deliveries(n: Net, v: Rid, pid: int, p: Packet): nat {
    n.delivered[Delivery(v, pid, p)]
  }

  predicate Subscribed(n: Net, v: Rid, pid: int, p: Packet) {
    Local(pid) in Consumers(Tab(n, v), p.m)
  }

  // ----- what forwarding sends, counted

  lemma SendOneCounts(n: Net, a: Rid, o: Out, x: Rid, y: Rid, v: Rid, pid: int, p: Packet)
    ensures var n' := SendOne(n, a, o);
            && Copies(n', x, y, p) == Copies(n, x, y, p) + (if x == a && o == Out(Remote(y), p) then 1 else 0)
            && Deliveries(n', v, pid, p) == Deliveries(n, v, pid, p)
               + (if v == a && o == Out(Local(pid), p) then 1 else 0)
  {
    SendOneMeans(n, a, o, x, y);
    CountConcat(Queue(n, x, y), [o.packet], p);
    CountConcat(Queue(n, x, y), [], p);
  }

  lemma ToCounts(outs: seq<Out>, c: Client, p: Packet)
    requires outs != []
    ensures multiset(To(outs, c))[p] == (if outs[0] == Out(c, p) then 1 else 0) + multiset(To(outs[1..], c))[p]
  {
    CountConcat([outs[0].packet], To(outs[1..], c), p);
    CountConcat([], To(outs[1..], c), p);
  }

  lemma {:induction false} SendCounts(n: Net, a: Rid, outs: seq<Out>, x: Rid, y: Rid, v: Rid, pid: int, p: Packet)
    ensures var n' := Send(n, a, outs);
            && Copies(n', x, y, p) == Copies(n, x, y, p) + (if x == a then multiset(To(outs, Remote(y)))[p] else 0)
            && Deliveries(n', v, pid, p) == Deliveries(n, v, pid, p)
               + (if v == a then multiset(To(outs, Local(pid)))[p] else 0)
    decreases outs
  {
    if outs != [] {
      SendCounts(SendOne(n, a, outs[0]), a, outs[1..], x, y, v, pid, p);
      SendOneCounts(n, a, outs[0], x, y, v, pid, p);
      ToCounts(outs, Remote(y), p);
      ToCounts(outs, Local(pid), p);
    }
  }

  lemma CountConcat<T>(a: seq<T>, b: seq<T>, x: T)
    ensures multiset(a + b)[x] == multiset(a)[x] + multiset(b)[x]
  {
  }

  /** Forwarding sends one copy to each consumer, except back to the remote source. */
  lemma {:induction false} ForwardCounts(cs: seq<Client>, q: Packet, src: Client, c: Client, p: Packet)
    requires Distinct(cs)
    ensures multiset(To(Forward(cs, q, src), c))[p] == if q == p && c in cs && !(c == src && src.Remote?) then 1 else 0
  {
    if cs != [] {
      ForwardCounts(cs[1..], q, src, c, p);
      var f, f' := Forward(cs, q, src), Forward(cs[1..], q, src);
      if cs[0] == src && src.Remote? {
        assert f == f';
      } else {
        assert f[1..] == f' && f[0] == Out(cs[0], q);
        CountConcat([q], To(f', c), p);
        assert [] + To(f', c) == To(f', c);
      }
      assert c in cs <==> cs[0] == c || c in cs[1..];
    }
  }

  /** One router handling one message, counted; a process that is not registered is ignored. */
  lemma HandleCounts(n: Net, a: Rid, src: Client, q: Packet, x: Rid, y: Rid, v: Rid, pid: int, p: Packet)
    requires WellFormed(Tab(n, a)) && q.Data? && (src.Remote? ==> src in Tab(n, a).pibs)
    ensures var n' := HandleAt(n, a, src, Packet(q));
            var cs := if src in Tab(n, a).pibs then Consumers(Tab(n, a), q.m) else [];
            && (forall b :: Tab(n', b) == Tab(n, b)) && n'.synced == n.synced
            && Copies(n', x, y, p) == Copies(n, x, y, p)
                 + (if x == a && q == p && Remote(y) in cs && src != Remote(y) then 1 else 0)
            && Deliveries(n', v, pid, p) == Deliveries(n, v, pid, p)
                 + (if v == a && q == p && Local(pid) in cs then 1 else 0)
  {
    var t := Tab(n, a);
    var outs := Handle(t, src, Packet(q)).1;
    ConsumersGood(t, q.m);
    SendCounts(n.(tab := n.tab[a := t]), a, outs, x, y, v, pid, p);
    ForwardCounts(Consumers(t, q.m), q, src, Remote(y), p);
    ForwardCounts(Consumers(t, q.m), q, src, Local(pid), p);
    forall b ensures Tab(HandleAt(n, a, src, Packet(q)), b) == Tab(n, b) {
      HandleAtMeans(n, a, src, Packet(q), b, b);
    }
    HandleAtMeans(n, a, src, Packet(q), a, a);
  }

  // ----- settled registrations

  lemma {:induction false} DataSaysNothing(q: seq<Packet>, m: MsgId)
    requires forall p :: p in q ==> p.Data?
    ensures LastAbout(q, m) == Nothing
  {
    if q != [] {
      assert q[0] in q;
      DataSaysNothing(q[1..], m);
    }
  }

  /** Once registrations have settled, interest is listed. */
  lemma SettledLists(n: Net, E: set<(Rid, Rid)>, x: Rid, y: Rid, m: MsgId)
    requires Settled(n, E) && (x, y) in E && HasOther(Tab(n, x), m, Remote(y))
    ensures Remote(x) in Consumers(Tab(n, y), m)
  {
    assert Covers(n, x, y, m);
    DataSaysNothing(Queue(n, x, y), m);
  }

  function Source(s: Step): Client
    requires MessageStep(s)
  {
    if s.Receive? then Remote(s.b) else Local(s.pid)
  }

  function Carried(n: Net, s: Step): Packet
    requires MessageStep(s) && Enabled(n, s)
  {
    if s.Receive? then Queue(n, s.b, s.a)[0] else s.req.packet
  }

  /** A message step takes at most the copy it receives, and hands its message to the consumers, but not back. */
  lemma MessageStepCounts(n: Net, E: set<(Rid, Rid)>, s: Step, x: Rid, y: Rid, v: Rid, pid: int, p: Packet)
    requires Settled(n, E) && Enabled(n, s) && MessageStep(s)
    ensures var n', src, q := Next(n, s), Source(s), Carried(n, s);
            var cs := if src in Tab(n, s.a).pibs then Consumers(Tab(n, s.a), q.m) else [];
            && q.Data? && (forall b :: Tab(n', b) == Tab(n, b)) && n'.synced == n.synced
            && Copies(n', x, y, p) == Copies(n, x, y, p)
                 - (if s.Receive? && (x, y) == (s.b, s.a) && q == p then 1 else 0)
                 + (if x == s.a && q == p && Remote(y) in cs && src != Remote(y) then 1 else 0)
            && Deliveries(n', v, pid, p) == Deliveries(n, v, pid, p)
                 + (if v == s.a && q == p && Local(pid) in cs then 1 else 0)
  {
    assert WellFormed(Tab(n, s.a));
    var src, q := Source(s), Carried(n, s);
    if s.Receive? {
      var full := Queue(n, s.b, s.a);
      assert q in full;
      var popped := n.(queue := n.queue[(s.b, s.a) := full[1..]]);
      assert full == [q] + full[1..];
      CountConcat([q], full[1..], p);
      assert forall b :: Tab(popped, b) == Tab(n, b);
      HandleCounts(popped, s.a, src, q, x, y, v, pid, p);
    } else {
      HandleCounts(n, s.a, src, q, x, y, v, pid, p);
    }
  }

  lemma MessageStepSettled(n: Net, E: set<(Rid, Rid)>, s: Step)
    requires Settled(n, E) && Enabled(n, s) && MessageStep(s)
    ensures Settled(Next(n, s), E)
  {
    var n' := Next(n, s);
    forall x, y, p | p in Queue(n', x, y)
      ensures p.Data?
    {
      MessageStepCounts(n, E, s, x, y, 0, 0, p);
      assert Copies(n', x, y, p) > 0;
    }
    MessageStepCounts(n, E, s, 0, 0, 0, 0, Data(0, 0));
    assert forall x :: WellFormed(Tab(n, x)) && Remote(x) !in Tab(n, x).pibs;
    forall x, y, m | (x, y) in n'.synced
      ensures Covers(n', x, y, m)
    {
      if HasOther(Tab(n, x), m, Remote(y)) {
        SettledLists(n, E, x, y, m);
        DataSaysNothing(Queue(n', x, y), m);
      }
    }
  }

  // ----- the flood

  /** A copy of p is due on the link from x to y: x has handled p, y has not, and y lies further out and asked for
      it. */
  predicate Due(n: Net, par: map<Rid, Rid>, H: set<Rid>, x: Rid, y: Rid, p: Packet) {
    x in H && y !in H && y in par && par[y] == x && Remote(y) in Consumers(Tab(n, x), p.m)
  }

  /** H are the routers that have handled p: exactly the copies due are in flight, and exactly the
      subscribers at H have been served, once each. */
  ghost predicate Flood(n: Net, par: map<Rid, Rid>, o: Rid, H: set<Rid>, p: Packet) {
    && o in H && (forall v :: v in H && v != o ==> v in par && par[v] in H)
    && (forall x: Rid, y: Rid :: Copies(n, x, y, p) == if Due(n, par, H, x, y, p) then 1 else 0)
    && (forall v: Rid, pid :: Deliveries(n, v, pid, p) == if v in H && Subscribed(n, v, pid, p) then 1 else 0)
  }

  predicate HandlesP(n: Net, s: Step, p: Packet)
    requires MessageStep(s) && Enabled(n, s)
  {
    s.Receive? && Carried(n, s) == p
  }

  lemma DueSame(n: Net, n': Net, par: map<Rid, Rid>, H: set<Rid>, x: Rid, y: Rid, p: Packet)
    requires forall b :: Tab(n', b) == Tab(n, b)
    ensures Due(n', par, H, x, y, p) == Due(n, par, H, x, y, p)
  {
  }

  lemma IdleCopies(n: Net, E: set<(Rid, Rid)>, o: Rid, par: map<Rid, Rid>, H: set<Rid>, p: Packet, s: Step, x: Rid,
                   y: Rid)
    requires Settled(n, E) && Flood(n, par, o, H, p)
    requires Enabled(n, s) && MessageStep(s) && Carried(n, s) != p
    ensures Copies(Next(n, s), x, y, p) == if Due(Next(n, s), par, H, x, y, p) then 1 else 0
  {
    MessageStepCounts(n, E, s, x, y, 0, 0, p);
    DueSame(n, Next(n, s), par, H, x, y, p);
  }

  lemma IdleDeliveries(n: Net, E: set<(Rid, Rid)>, o: Rid, par: map<Rid, Rid>, H: set<Rid>, p: Packet, s: Step, v: Rid,
                       pid: int)
    requires Settled(n, E) && Flood(n, par, o, H, p)
    requires Enabled(n, s) && MessageStep(s) && Carried(n, s) != p
    ensures Deliveries(Next(n, s), v, pid, p) == if v in H && Subscribed(Next(n, s), v, pid, p) then 1 else 0
  {
    MessageStepCounts(n, E, s, 0, 0, v, pid, p);
  }

  lemma HopCopies(n: Net, R: set<Rid>, E: set<(Rid, Rid)>, o: Rid, par: map<Rid, Rid>, depth: map<Rid, nat>,
                  H: set<Rid>, p: Packet, s: Step, x: Rid, y: Rid)
    requires Settled(n, E) && Rooted(R, E, o, par, depth) && Flood(n, par, o, H, p)
    requires Enabled(n, s) && s.Receive? && Carried(n, s) == p && Due(n, par, H, s.b, s.a, p)
    ensures Copies(Next(n, s), x, y, p) == if Due(Next(n, s), par, H + {s.a}, x, y, p) then 1 else 0
  {
    MessageStepCounts(n, E, s, x, y, 0, 0, p);
    DueSame(n, Next(n, s), par, H + {s.a}, x, y, p);
    if x == s.a {
      NextHop(n, R, E, o, par, depth, H, p, s.b, s.a, y);
    }
  }

  lemma HopDeliveries(n: Net, E: set<(Rid, Rid)>, o: Rid, par: map<Rid, Rid>, H: set<Rid>, p: Packet, s: Step, v: Rid,
                      pid: int)
    requires Settled(n, E) && Flood(n, par, o, H, p)
    requires Enabled(n, s) && s.Receive? && Carried(n, s) == p && s.a !in H
    ensures Deliveries(Next(n, s), v, pid, p) == if v in H + {s.a} && Subscribed(Next(n, s), v, pid, p) then 1 else 0
  {
    MessageStepCounts(n, E, s, 0, 0, v, pid, p);
  }

  lemma HandledCopy(n: Net, s: Step, p: Packet)
    requires MessageStep(s) && Enabled(n, s) && HandlesP(n, s, p)
    ensures Copies(n, s.b, s.a, p) > 0
  {
  }

  /** Receiving p is its first arrival there; any other message leaves the flood of p alone. */
  lemma FloodStep(n: Net, R: set<Rid>, E: set<(Rid, Rid)>, o: Rid, par: map<Rid, Rid>, depth: map<Rid, nat>,
                  H: set<Rid>, p: Packet, s: Step)
    requires Settled(n, E) && Rooted(R, E, o, par, depth) && Flood(n, par, o, H, p)
    requires Enabled(n, s) && MessageStep(s) && (s.Request? ==> s.req.packet != p)
    ensures HandlesP(n, s, p) ==> s.a in R && s.a !in H
    ensures Flood(Next(n, s), par, o, if HandlesP(n, s, p) then H + {s.a} else H, p)
  {
    hide Copies, Deliveries, Settled, Subscribed, Next, Consumers;
    var n' := Next(n, s);
    if HandlesP(n, s, p) {
      HandledCopy(n, s, p);
      assert Due(n, par, H, s.b, s.a, p);
      forall x: Rid, y: Rid ensures Copies(n', x, y, p) == if Due(n', par, H + {s.a}, x, y, p) then 1 else 0 {
        HopCopies(n, R, E, o, par, depth, H, p, s, x, y);
      }
      forall v: Rid, pid
        ensures Deliveries(n', v, pid, p) == if v in H + {s.a} && Subscribed(n', v, pid, p) then 1 else 0
      {
        HopDeliveries(n, E, o, par, H, p, s, v, pid);
      }
    } else {
      forall x: Rid, y: Rid ensures Copies(n', x, y, p) == if Due(n', par, H, x, y, p) then 1 else 0 {
        IdleCopies(n, E, o, par, H, p, s, x, y);
      }
      forall v: Rid, pid ensures Deliveries(n', v, pid, p) == if v in H && Subscribed(n', v, pid, p) then 1 else 0 {
        IdleDeliveries(n, E, o, par, H, p, s, v, pid);
      }
    }
  }

  /** A router reached from its parent passes the message on exactly to the children that asked for it. */
  lemma NextHop(n: Net, R: set<Rid>, E: set<(Rid, Rid)>, o: Rid, par: map<Rid, Rid>, depth: map<Rid, nat>, H: set<Rid>,
                p: Packet, b: Rid, a: Rid, y: Rid)
    requires Settled(n, E) && Rooted(R, E, o, par, depth) && Flood(n, par, o, H, p)
    requires Due(n, par, H, b, a, p)
    ensures Remote(y) in Consumers(Tab(n, a), p.m) && y != b <==> Due(n, par, H + {a}, a, y, p)
    ensures !Due(n, par, H, a, y, p)
  {
    assert WellFormed(Tab(n, a));
    ConsumersGood(Tab(n, a), p.m);
    if Remote(y) in Consumers(Tab(n, a), p.m) && y != b {
      assert (a, y) in E;
      assert y in par && par[y] == a;
      assert y !in H;
    }
  }

  lemma FloodStarts(n: Net, R: set<Rid>, E: set<(Rid, Rid)>, o: Rid, par: map<Rid, Rid>, depth: map<Rid, nat>,
                    p: Packet, pid: int)
    requires Settled(n, E) && Rooted(R, E, o, par, depth)
    requires p.Data? && Local(pid) in Tab(n, o).pibs && Unsent(n, p)
    ensures Flood(Next(n, Request(o, pid, Packet(p))), par, o, {o}, p)
  {
    var s := Request(o, pid, Packet(p));
    var n' := Next(n, s);
    assert WellFormed(Tab(n, o));
    ConsumersGood(Tab(n, o), p.m);
    forall x: Rid, y: Rid ensures Copies(n', x, y, p) == if Due(n', par, {o}, x, y, p) then 1 else 0 {
      MessageStepCounts(n, E, s, x, y, 0, 0, p);
      DueSame(n, n', par, {o}, x, y, p);
      if x == o && Remote(y) in Consumers(Tab(n, o), p.m) {
        assert (o, y) in E;
      }
    }
    forall v: Rid, q ensures Deliveries(n', v, q, p) == if v in {o} && Subscribed(n', v, q, p) then 1 else 0 {
      MessageStepCounts(n, E, s, 0, 0, v, q, p);
    }
  }

  /** p has not been published yet. */
  ghost predicate Unsent(n: Net, p: Packet) {
    && (forall x: Rid, y: Rid :: Copies(n, x, y, p) == 0)
    && (forall v: Rid, pid :: Deliveries(n, v, pid, p) == 0)
  }

  ghost predicate InFlight(n: Net, p: Packet) {
    exists x: Rid, y: Rid :: Copies(n, x, y, p) > 0
  }

  /** When no copy is in flight any more, every router with interest beyond its parent has been reached. */
  lemma {:induction false} Reached(n: Net, R: set<Rid>, E: set<(Rid, Rid)>, o: Rid, par: map<Rid, Rid>,
                                   depth: map<Rid, nat>, H: set<Rid>, p: Packet, v: Rid)
    requires Settled(n, E) && Rooted(R, E, o, par, depth) && Flood(n, par, o, H, p)
    requires !InFlight(n, p) && v in R
    requires v == o || HasOther(Tab(n, v), p.m, Remote(par[v]))
    ensures v in H
    decreases depth[v]
  {
    if v != o {
      var u := par[v];
      assert (v, u) in E && (u, v) in E;
      SettledLists(n, E, v, u, p.m);
      var i :| 0 <= i < |Consumers(Tab(n, u), p.m)| && Consumers(Tab(n, u), p.m)[i] == Remote(v);
      if u != o {
        assert depth[v] == depth[u] + 1 && depth[u] == depth[par[u]] + 1;
        assert Consumers(Tab(n, u), p.m)[i] != Remote(par[u]);
      }
      Reached(n, R, E, o, par, depth, H, p, u);
      assert Copies(n, u, v, p) == 0;
      assert !Due(n, par, H, u, v, p);
    }
  }

  /** A copy in flight can always be received. */
  lemma FloodMoves(n: Net, R: set<Rid>, E: set<(Rid, Rid)>, o: Rid, par: map<Rid, Rid>, depth: map<Rid, nat>,
                   H: set<Rid>, p: Packet)
    requires Settled(n, E) && Rooted(R, E, o, par, depth) && Flood(n, par, o, H, p)
    requires InFlight(n, p)
    ensures exists x, y :: Copies(n, x, y, p) > 0 && Enabled(n, Receive(x, y))
  {
    var x: Rid, y: Rid :| Copies(n, x, y, p) > 0;
    assert Due(n, par, H, x, y, p);
    assert (y, x) in E;
    assert p in Queue(n, x, y);
  }

  // ----- whole runs

  ghost predicate MessageRun(n: Net, steps: seq<Step>, p: Packet)
    decreases steps
  {
    steps != [] ==>
      && Enabled(n, steps[0]) && MessageStep(steps[0]) && (steps[0].Request? ==> steps[0].req.packet != p)
      && MessageRun(Next(n, steps[0]), steps[1..], p)
  }

  ghost function Final(n: Net, steps: seq<Step>, p: Packet): Net
    requires MessageRun(n, steps, p)
    decreases steps
  {
    if steps == [] then n else Final(Next(n, steps[0]), steps[1..], p)
  }

  /** How often a router takes p from a link. */
  ghost function Hops(n: Net, steps: seq<Step>, p: Packet): nat
    requires MessageRun(n, steps, p)
    decreases steps
  {
    if steps == [] then 0
    else (if HandlesP(n, steps[0], p) then 1 else 0) + Hops(Next(n, steps[0]), steps[1..], p)
  }

  lemma {:induction false} FloodRun(n: Net, R: set<Rid>, E: set<(Rid, Rid)>, o: Rid, par: map<Rid, Rid>,
                                    depth: map<Rid, nat>, H: set<Rid>, p: Packet, steps: seq<Step>)
    returns (H': set<Rid>)
    requires Settled(n, E) && Rooted(R, E, o, par, depth) && Flood(n, par, o, H, p) && H <= R
    requires MessageRun(n, steps, p)
    ensures var n' := Final(n, steps, p);
            && Settled(n', E) && Flood(n', par, o, H', p) && H' <= R
            && |H'| == |H| + Hops(n, steps, p)
            && forall b :: Tab(n', b) == Tab(n, b)
    decreases steps
  {
    hide Next, Settled, Rooted, Flood, Copies, Deliveries;
    H' := H;
    if steps != [] {
      var s := steps[0];
      FloodStep(n, R, E, o, par, depth, H, p, s);
      MessageStepSettled(n, E, s);
      MessageStepCounts(n, E, s, 0, 0, 0, 0, p);
      H' := FloodRun(Next(n, s), R, E, o, par, depth, if HandlesP(n, s, p) then H + {s.a} else H, p, steps[1..]);
    }
  }

  lemma SubsetSize<T>(a: set<T>, b: set<T>)
    requires a <= b
    ensures |a| <= |b|
  {
    assert b == a + (b - a);
  }

  lemma SubscriberReached(n: Net, R: set<Rid>, E: set<(Rid, Rid)>, o: Rid, par: map<Rid, Rid>, depth: map<Rid, nat>,
                          H: set<Rid>, p: Packet, v: Rid, pid: int)
    requires Settled(n, E) && Rooted(R, E, o, par, depth) && Flood(n, par, o, H, p)
    requires !InFlight(n, p) && v in R && Subscribed(n, v, pid, p)
    ensures v in H
  {
    if v != o {
      var i :| 0 <= i < |Consumers(Tab(n, v), p.m)| && Consumers(Tab(n, v), p.m)[i] == Local(pid);
      assert Consumers(Tab(n, v), p.m)[i] != Remote(par[v]);
    }
    Reached(n, R, E, o, par, depth, H, p, v);
  }

  lemma Published(n: Net, R: set<Rid>, E: set<(Rid, Rid)>, o: Rid, pid: int, p: Packet, steps: seq<Step>)
    returns (par: map<Rid, Rid>, depth: map<Rid, nat>, H: set<Rid>)
    requires Settled(n, E) && IsTree(R, E) && o in R
    requires p.Data? && Local(pid) in Tab(n, o).pibs && Unsent(n, p)
    requires MessageRun(Next(n, Request(o, pid, Packet(p))), steps, p)
    ensures var n1 := Next(n, Request(o, pid, Packet(p)));
            var n' := Final(n1, steps, p);
            && Settled(n', E) && Rooted(R, E, o, par, depth) && Flood(n', par, o, H, p) && H <= R
            && |H| == 1 + Hops(n1, steps, p)
            && forall b :: Tab(n', b) == Tab(n, b)
  {
    var s := Request(o, pid, Packet(p));
    var r0, par0, depth0 :| Rooted(R, E, r0, par0, depth0);
    par, depth := AnyRoot(R, E, r0, par0, depth0, o);
    FloodStarts(n, R, E, o, par, depth, p, pid);
    MessageStepSettled(n, E, s);
    MessageStepCounts(n, E, s, 0, 0, 0, 0, p);
    H := FloodRun(Next(n, s), R, E, o, par, depth, {o}, p, steps);
  }

  /** In a settled tree, whatever the order in which messages move: every process gets a published message
      at most once and only if it subscribed; no more hops are made than there are other routers; and when
      no copy is left in flight, every subscriber in the tree has it exactly once. */
  lemma DeliveredOnce(n: Net, R: set<Rid>, E: set<(Rid, Rid)>, o: Rid, pid: int, p: Packet, steps: seq<Step>)
    requires Settled(n, E) && IsTree(R, E) && o in R
    requires p.Data? && Local(pid) in Tab(n, o).pibs && Unsent(n, p)
    requires MessageRun(Next(n, Request(o, pid, Packet(p))), steps, p)
    ensures var n1 := Next(n, Request(o, pid, Packet(p)));
            var n' := Final(n1, steps, p);
            && (forall v: Rid, q :: Deliveries(n', v, q, p) <= if Subscribed(n, v, q, p) then 1 else 0)
            && Hops(n1, steps, p) < |R|
            && (!InFlight(n', p) ==> forall v, q :: v in R ==>
               Deliveries(n', v, q, p) == if Subscribed(n, v, q, p) then 1 else 0)
  {
    var par, depth, H := Published(n, R, E, o, pid, p, steps);
    var n' := Final(Next(n, Request(o, pid, Packet(p))), steps, p);
    SubsetSize(H, R);
    assert forall v, q :: Subscribed(n', v, q, p) == Subscribed(n, v, q, p);
    if !InFlight(n', p) {
      forall v, q | v in R && Subscribed(n', v, q, p)
        ensures v in H
      {
        SubscriberReached(n', R, E, o, par, depth, H, p, v, q);
      }
    }
  }
}
