/** What a process can rely on over any run of the network, in terms of the requests made alone: when it is registered,
    when it consumes an ID, and which messages it is sent. */
module RouterClients {
  import opened RouterTables
  import opened RouterNet
  import opened RouterRuns
  import opened RouterLaws
  import RouterDelivery

  // ----- one step

  /** Which tables a step changes, and by which request. */
  lemma NextTables(n: Net, s: Step, x: Rid)
    requires WellFormedNet(n) && Enabled(n, s)
    ensures WellFormedNet(Next(n, s))
    ensures match s
            case Request(a, pid, req) =>
              Tab(Next(n, s), x) == if x == a then Handle(Tab(n, x), Local(pid), req).0 else Tab(n, x)
            case Receive(b, a) =>
              Tab(Next(n, s), x)
              == if x == a then Handle(Tab(n, x), Remote(b), Packet(Queue(n, b, a)[0])).0 else Tab(n, x)
            case _ =>
              && Tab(Next(n, s), x).miibs == Tab(n, x).miibs
              && forall pid :: Local(pid) in Tab(Next(n, s), x).pibs <==> Local(pid) in Tab(n, x).pibs
  {
    hide HandleAt, AnnounceLink, RouterTables.Handle;
    match s
    case Request(a, pid, req) =>
      HandleKeepsWellFormedNet(n, a, Local(pid), req);
      HandleAtMeans(n, a, Local(pid), req, x, x);
    case Receive(b, a) =>
      var req := Packet(Queue(n, b, a)[0]);
      PoppedMeans(n, b, a, x, x, 0);
      HandleKeepsWellFormedNet(Popped(n, b, a), a, Remote(b), req);
      HandleAtMeans(Popped(n, b, a), a, Remote(b), req, x, x);
    case Connect(a, b) =>
      ListKeeps(n, a, b);
    case Accept(b, a) =>
      ListKeeps(n, b, a);
      AnnouncedTables(List(n, b, a), b, a);
    case Ack(a, b) =>
      AnnouncedTables(n, a, b);
  }

  lemma AnnouncedTables(n: Net, a: Rid, b: Rid)
    requires WellFormedNet(n) && Remote(b) in Tab(n, a).pibs
    ensures WellFormedNet(AnnounceLink(n, a, b))
    ensures forall x :: Tab(AnnounceLink(n, a, b), x) == Tab(n, x)
  {
    AnnounceLinkMeans(n, a, b, a, b);
    assert forall x :: Tab(AnnounceLink(n, a, b), x) == Tab(n, x);
  }

  /** Only a process's own requests register it and deregister it. */
  lemma NextMember(n: Net, s: Step, x: Rid, pid: int)
    requires WellFormedNet(n) && Enabled(n, s)
    ensures Local(pid) in Tab(Next(n, s), x).pibs <==>
            s == Request(x, pid, Register) || (Local(pid) in Tab(n, x).pibs && s != Request(x, pid, Deregister))
  {
    hide Next;
    NextTables(n, s, x);
    assert WellFormed(Tab(n, x));
    if s.Request? && s.a == x {
      HandledMember(Tab(n, x), Local(s.pid), s.req, pid);
    } else if s.Receive? && s.a == x {
      HandledMember(Tab(n, x), Remote(s.b), Packet(Queue(n, s.b, x)[0]), pid);
    }
  }

  lemma HandledMember(t: Tables, src: Client, req: RouterTables.Request, pid: int)
    requires WellFormed(t) && (src.Remote? ==> src in t.pibs && req.Packet?)
    ensures Local(pid) in Handle(t, src, req).0.pibs <==>
            (src == Local(pid) && req == Register)
            || (Local(pid) in t.pibs && !(src == Local(pid) && req == Deregister))
  {
    hide DropEverywhere, Drop, AnnounceAll;
    if req.Deregister? && src in t.pibs {
      DropMeans(t.pibs, src);
    }
  }

  /** Only a process's own requests make it consume an ID and end that. */
  lemma NextConsumes(n: Net, s: Step, x: Rid, pid: int, m: MsgId)
    requires WellFormedNet(n) && Enabled(n, s)
    ensures Consumes(Tab(Next(n, s), x), Local(pid), m) <==>
            || (s == Request(x, pid, Packet(Enable(m))) && Local(pid) in Tab(n, x).pibs)
            || (Consumes(Tab(n, x), Local(pid), m)
                && s != Request(x, pid, Deregister) && s != Request(x, pid, Packet(Disable(m))))
  {
    hide Next, Consumes;
    NextTables(n, s, x);
    assert WellFormed(Tab(n, x));
    if s.Request? && s.a == x {
      HandledConsumes(Tab(n, x), Local(s.pid), s.req, pid, m);
    } else if s.Receive? && s.a == x {
      HandledConsumes(Tab(n, x), Remote(s.b), Packet(Queue(n, s.b, x)[0]), pid, m);
    } else {
      SameConsumes(Tab(Next(n, s), x), Tab(n, x), Local(pid), m);
    }
  }

  lemma SameConsumes(t: Tables, u: Tables, c: Client, m: MsgId)
    requires t.miibs == u.miibs
    ensures Consumes(t, c, m) == Consumes(u, c, m)
  {
  }

  lemma HandledConsumes(t: Tables, src: Client, req: RouterTables.Request, pid: int, m: MsgId)
    requires WellFormed(t) && (src.Remote? ==> src in t.pibs && req.Packet?)
    ensures Consumes(Handle(t, src, req).0, Local(pid), m) <==>
            || (src == Local(pid) && req == Packet(Enable(m)) && src in t.pibs)
            || (Consumes(t, Local(pid), m)
                && !(src == Local(pid) && (req == Deregister || req == Packet(Disable(m)))))
  {
    hide RouterTables.Handle, Consumes, Consumers;
    ConsumerListed(t, Local(pid), m);
    if src !in t.pibs {
      if req == Register {
        RegisterMeans(t, src);
        SameConsumes(Handle(t, src, req).0, t, Local(pid), m);
      } else {
        StrangerIgnored(t, src, req);
      }
    } else {
      match req
      case Register => SameConsumes(Handle(t, src, req).0, t, Local(pid), m) by { Known(t, src); }
      case Deregister => DeregisterMeans(t, src);
      case Packet(p) =>
        match p
        case Enable(k) => EnableMeans(t, src, k);
        case Disable(k) => DisableMeans(t, src, k);
        case Data(k, body) => DataMeans(t, src, k, body);
    }
  }

  lemma Known(t: Tables, src: Client)
    requires src in t.pibs
    ensures Handle(t, src, Register) == (t, [])
  {
  }

  lemma ConsumerListed(t: Tables, c: Client, m: MsgId)
    requires WellFormed(t)
    ensures Consumes(t, c, m) ==> c in t.pibs
  {
    ConsumesIs(t, c, m);
    ConsumersGood(t, m);
  }

  // ----- runs

  /** Before step i the process registered last, and has not left since. */
  ghost predicate Member(steps: seq<Step>, i: nat, x: Rid, pid: int)
    requires i <= |steps|
  {
    exists j :: 0 <= j < i && steps[j] == Request(x, pid, Register)
                && forall l :: j < l < i ==> steps[l] != Request(x, pid, Deregister)
  }

  /** Before step i the process, being registered, asked for m, and has neither withdrawn that nor left since. */
  ghost predicate Asked(steps: seq<Step>, i: nat, x: Rid, pid: int, m: MsgId)
    requires i <= |steps|
  {
    exists j :: 0 <= j < i && steps[j] == Request(x, pid, Packet(Enable(m))) && Member(steps, j, x, pid)
                && forall l :: j < l < i ==> steps[l] != Request(x, pid, Deregister)
                                             && steps[l] != Request(x, pid, Packet(Disable(m)))
  }

  lemma MemberStep(steps: seq<Step>, i: nat, x: Rid, pid: int)
    requires i < |steps|
    ensures !Member(steps, 0, x, pid)
    ensures Member(steps, i + 1, x, pid) <==>
            steps[i] == Request(x, pid, Register)
            || (Member(steps, i, x, pid) && steps[i] != Request(x, pid, Deregister))
  {
    if Member(steps, i, x, pid) && steps[i] != Request(x, pid, Deregister) {
      var j :| 0 <= j < i && steps[j] == Request(x, pid, Register)
               && forall l :: j < l < i ==> steps[l] != Request(x, pid, Deregister);
      assert forall l :: j < l < i + 1 ==> steps[l] != Request(x, pid, Deregister);
    }
  }

  lemma AskedStep(steps: seq<Step>, i: nat, x: Rid, pid: int, m: MsgId)
    requires i < |steps|
    ensures !Asked(steps, 0, x, pid, m)
    ensures Asked(steps, i + 1, x, pid, m) <==>
            || (steps[i] == Request(x, pid, Packet(Enable(m))) && Member(steps, i, x, pid))
            || (Asked(steps, i, x, pid, m)
                && steps[i] != Request(x, pid, Deregister) && steps[i] != Request(x, pid, Packet(Disable(m))))
  {
    hide Member;
    if Asked(steps, i, x, pid, m) && steps[i] != Request(x, pid, Deregister)
       && steps[i] != Request(x, pid, Packet(Disable(m))) {
      var j :| 0 <= j < i && steps[j] == Request(x, pid, Packet(Enable(m))) && Member(steps, j, x, pid)
               && forall l :: j < l < i ==> steps[l] != Request(x, pid, Deregister)
                                            && steps[l] != Request(x, pid, Packet(Disable(m)));
      assert forall l :: j < l < i + 1 ==> steps[l] != Request(x, pid, Deregister)
                                           && steps[l] != Request(x, pid, Packet(Disable(m)));
    }
  }

  /** In every state of every run a process is registered exactly if it registered and has not left since, and it
      consumes an ID exactly if, while registered, it asked for it and has neither withdrawn that nor left since. */
  lemma {:induction false} AsRequested(states: seq<Net>, steps: seq<Step>, i: nat, x: Rid, pid: int, m: MsgId)
    requires Run(states, steps) && i < |states|
    ensures WellFormedNet(states[i])
    ensures Local(pid) in Tab(states[i], x).pibs <==> Member(steps, i, x, pid)
    ensures Consumes(Tab(states[i], x), Local(pid), m) <==> Asked(steps, i, x, pid, m)
    decreases i
  {
    hide Member, Asked, Next, Enabled, Run, NetInv, WellFormedNet;
    if i == 0 {
      StartsEmpty(states, steps, x, pid, m);
    } else {
      var k := i - 1;
      RunLength(states, steps);
      RunStep(states, steps, k);
      AsRequested(states, steps, k, x, pid, m);
      NextTables(states[k], steps[k], x);
      NextMember(states[k], steps[k], x, pid);
      NextConsumes(states[k], steps[k], x, pid, m);
      MemberStep(steps, k, x, pid);
      AskedStep(steps, k, x, pid, m);
    }
  }

  lemma StartsEmpty(states: seq<Net>, steps: seq<Step>, x: Rid, pid: int, m: MsgId)
    requires Run(states, steps)
    ensures WellFormedNet(states[0])
    ensures Local(pid) !in Tab(states[0], x).pibs && !Member(steps, 0, x, pid)
    ensures !Consumes(Tab(states[0], x), Local(pid), m) && !Asked(steps, 0, x, pid, m)
  {
  }

  /** The message a step handles at router x, if its source is registered there. */
  ghost predicate HandlesAt(n: Net, s: Step, x: Rid, p: Packet)
    requires Enabled(n, s)
  {
    match s
    case Request(a, pid, req) => a == x && req == Packet(p) && Local(pid) in Tab(n, x).pibs
    case Receive(b, a) => a == x && Queue(n, b, a)[0] == p
    case _ => false
  }

  /** In every run, a process is sent a message exactly when its router handles one with an ID it has asked for. */
  lemma SentAsRequested(states: seq<Net>, steps: seq<Step>, i: nat, x: Rid, pid: int, m: MsgId, body: int)
    requires Run(states, steps) && i < |steps|
    ensures Enabled(states[i], steps[i]) && i + 1 < |states|
    ensures RouterDelivery.Deliveries(states[i + 1], x, pid, Data(m, body))
            == RouterDelivery.Deliveries(states[i], x, pid, Data(m, body))
               + (if HandlesAt(states[i], steps[i], x, Data(m, body)) && Asked(steps, i, x, pid, m) then 1 else 0)
  {
    hide Member, Asked, Run, WellFormedNet;
    RunLength(states, steps);
    RunStep(states, steps, i);
    AsRequested(states, steps, i, x, pid, m);
    NextDeliveries(states[i], steps[i], x, pid, m, body);
  }

  lemma NextDeliveries(n: Net, s: Step, x: Rid, pid: int, m: MsgId, body: int)
    requires WellFormedNet(n) && Enabled(n, s)
    ensures RouterDelivery.Deliveries(Next(n, s), x, pid, Data(m, body))
            == RouterDelivery.Deliveries(n, x, pid, Data(m, body))
               + (if HandlesAt(n, s, x, Data(m, body)) && Consumes(Tab(n, x), Local(pid), m) then 1 else 0)
  {
    hide HandleAt, Consumes;
    match s
    case Request(a, q, req) =>
      HandledDeliveries(n, a, Local(q), req, x, pid, m, body);
    case Receive(b, a) =>
      PoppedMeans(n, b, a, x, x, 0);
      HandledDeliveries(Popped(n, b, a), a, Remote(b), Packet(Queue(n, b, a)[0]), x, pid, m, body);
    case Connect(a, b) =>
    case Accept(b, a) => AnnouncedDeliveries(List(n, b, a), b, a, x, pid, Data(m, body));
    case Ack(a, b) => AnnouncedDeliveries(n, a, b, x, pid, Data(m, body));
  }

  lemma AnnouncedDeliveries(n: Net, a: Rid, b: Rid, x: Rid, pid: int, p: Packet)
    ensures RouterDelivery.Deliveries(AnnounceLink(n, a, b), x, pid, p) == RouterDelivery.Deliveries(n, x, pid, p)
  {
    var ps := Announce(Tab(n, a).miibs, 0, true);
    RouterDelivery.SendCounts(n.(synced := n.synced + {(a, b)}), a, Addressed(Remote(b), ps), x, x, x, pid, p);
    ToAddressed(Remote(b), ps, Local(pid));
  }

  lemma HandledDeliveries(n: Net, a: Rid, src: Client, req: RouterTables.Request, x: Rid, pid: int, m: MsgId, body: int)
    requires WellFormedNet(n) && (src.Remote? ==> src in Tab(n, a).pibs && req.Packet?)
    ensures RouterDelivery.Deliveries(HandleAt(n, a, src, req), x, pid, Data(m, body))
            == RouterDelivery.Deliveries(n, x, pid, Data(m, body))
               + (if x == a && req == Packet(Data(m, body)) && src in Tab(n, a).pibs
                     && Consumes(Tab(n, x), Local(pid), m) then 1 else 0)
  {
    hide RouterTables.Handle, Consumes, Send;
    assert WellFormed(Tab(n, a));
    var (t, outs) := Handle(Tab(n, a), src, req);
    var n0, p := n.(tab := n.tab[a := t]), Data(m, body);
    RouterDelivery.SendCounts(n0, a, outs, x, x, x, pid, p);
    ToTimes(outs, Local(pid), p);
    HandledTimes(Tab(n, a), src, req, pid, m, body);
  }

  lemma {:induction false} ToTimes(outs: seq<Out>, c: Client, p: Packet)
    ensures multiset(To(outs, c))[p] == Times(outs, Out(c, p))
  {
    if outs != [] {
      ToTimes(outs[1..], c, p);
      RouterDelivery.ToCounts(outs, c, p);
      TimesConcat([outs[0]], outs[1..], Out(c, p));
      assert outs == [outs[0]] + outs[1..];
    }
  }

  lemma HandledTimes(t: Tables, src: Client, req: RouterTables.Request, pid: int, m: MsgId, body: int)
    requires WellFormed(t) && (src.Remote? ==> src in t.pibs && req.Packet?)
    ensures Times(Handle(t, src, req).1, Out(Local(pid), Data(m, body)))
            == if req == Packet(Data(m, body)) && src in t.pibs && Consumes(t, Local(pid), m) then 1 else 0
  {
    hide RouterTables.Handle, Consumes, Times;
    NoTimes(Out(Local(pid), Data(m, body)));
    if src !in t.pibs {
      if req == Register {
        RegisterMeans(t, src);
      } else {
        StrangerIgnored(t, src, req);
      }
    } else {
      match req
      case Register => Known(t, src);
      case Deregister => DeregisterMeans(t, src);
      case Packet(p) =>
        match p
        case Enable(k) => EnableMeans(t, src, k);
        case Disable(k) => DisableMeans(t, src, k);
        case Data(k, b) => DataMeans(t, src, k, b);
    }
  }
}
