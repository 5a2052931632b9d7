/** Routers joined by first-in first-out links, stepping in any order; a router's tables always cover
    the interest of its neighbours, in spite of the registrations still in flight. */
module RouterNet {
  import opened RouterTables

  datatype Delivery = Delivery(router: Rid, pid: int, packet: Packet)

  /** Tables of each router, packets in flight on each directed link, the link ends that have announced
      all their registrations, and what local processes were sent. */
  datatype Net = Net(tab: map<Rid, Tables>, queue: map<(Rid, Rid), seq<Packet>>, synced: set<(Rid, Rid)>,
                     delivered: multiset<Delivery>)

  function Tab(n: Net, a: Rid): Tables {
    if a in n.tab then n.tab[a] else Tables([], [])
  }

  function Queue(n: Net, a: Rid, b: Rid): seq<Packet> {
    if (a, b) in n.queue then n.queue[(a, b)] else []
  }

  const START := Net(map[], map[], {}, multiset{})

  // ----- sending

  function SendOne(n: Net, a: Rid, o: Out): Net {
    match o.dest
    case Local(pid) => n.(delivered := n.delivered + multiset{Delivery(a, pid, o.packet)})
    case Remote(b) => n.(queue := n.queue[(a, b) := Queue(n, a, b) + [o.packet]])
  }

  function Send(n: Net, a: Rid, outs: seq<Out>): Net
    decreases outs
  {
    if outs == [] then n else Send(SendOne(n, a, outs[0]), a, outs[1..])
  }

  /** The packets addressed to one client. */
  function To(outs: seq<Out>, c: Client): seq<Packet> {
    if outs == [] then []
    else (if outs[0].dest == c then [outs[0].packet] else []) + To(outs[1..], c)
  }

  lemma SendOneMeans(n: Net, a: Rid, o: Out, x: Rid, y: Rid)
    ensures var n' := SendOne(n, a, o);
            && n'.tab == n.tab && n'.synced == n.synced
            && Queue(n', x, y) == Queue(n, x, y) + (if x == a && o.dest == Remote(y) then [o.packet] else [])
  {
  }

  lemma ToOne(outs: seq<Out>, c: Client)
    requires outs != []
    ensures To(outs, c) == (if outs[0].dest == c then [outs[0].packet] else []) + To(outs[1..], c)
  {
  }

  lemma {:induction false} SendMeans(n: Net, a: Rid, outs: seq<Out>, x: Rid, y: Rid)
    ensures var n' := Send(n, a, outs);
            && n'.tab == n.tab && n'.synced == n.synced
            && Queue(n', x, y) == Queue(n, x, y) + (if x == a then To(outs, Remote(y)) else [])
    decreases outs
  {
    hide SendOne, Queue, To;
    var q, c := Queue(n, x, y), Remote(y);
    if outs == [] {
      NoneTo(c);
      assert q + [] == q;
    } else {
      var n1 := SendOne(n, a, outs[0]);
      SendOneMeans(n, a, outs[0], x, y);
      SendMeans(n1, a, outs[1..], x, y);
      ToOne(outs, c);
      var first := if outs[0].dest == c then [outs[0].packet] else [];
      assert q + (first + To(outs[1..], c)) == (q + first) + To(outs[1..], c);
      assert q + [] + [] == q + [];
    }
  }

  lemma NoneTo(c: Client)
    ensures To([], c) == []
  {
  }

  // ----- steps

  datatype Step =
    | Request(a: Rid, pid: int, req: Request)   // a message from a local process
    | Receive(b: Rid, a: Rid)                   // a takes the next packet of the link from b
    | Connect(a: Rid, b: Rid)                   // a opens a link to b and lists it
    | Accept(b: Rid, a: Rid)                    // b answers, announces everything and lists a
    | Ack(a: Rid, b: Rid)                       // a sees the answer and announces everything

  predicate Enabled(n: Net, s: Step) {
    match s
    case Request(a, pid, req) => true
    case Receive(b, a) => Queue(n, b, a) != [] && (a, b) in n.synced
    case Connect(a, b) => a != b && Remote(b) !in Tab(n, a).pibs
    case Accept(b, a) => a != b && Remote(b) in Tab(n, a).pibs && Remote(a) !in Tab(n, b).pibs
    case Ack(a, b) => a != b && Remote(b) in Tab(n, a).pibs && (b, a) in n.synced && (a, b) !in n.synced
  }

  function HandleAt(n: Net, a: Rid, src: Client, req: RouterTables.Request): Net {
    var (t, outs) := Handle(Tab(n, a), src, req);
    Send(n.(tab := n.tab[a := t]), a, outs)
  }

  function AnnounceLink(n: Net, a: Rid, b: Rid): Net {
    Send(n.(synced := n.synced + {(a, b)}), a, Addressed(Remote(b), Announce(Tab(n, a).miibs, 0, true)))
  }

  function List(n: Net, a: Rid, b: Rid): Net {
    n.(tab := n.tab[a := Tab(n, a).(pibs := Tab(n, a).pibs + [Remote(b)])])
  }

  function Next(n: Net, s: Step): Net
    requires Enabled(n, s)
  {
    match s
    case Request(a, pid, req) => HandleAt(n, a, Local(pid), req)
    case Receive(b, a) =>
      var q := Queue(n, b, a);
      HandleAt(n.(queue := n.queue[(b, a) := q[1..]]), a, Remote(b), Packet(q[0]))
    case Connect(a, b) => List(n, a, b)
    case Accept(b, a) => AnnounceLink(List(n, b, a), b, a)
    case Ack(a, b) => AnnounceLink(n, a, b)
  }

  // ----- interest coverage

  datatype Said = Nothing | On | Off

  /** What the last packet about m says, if there is one. */
  function LastAbout(q: seq<Packet>, m: MsgId): Said {
    if q == [] then Nothing
    else
      var later := LastAbout(q[1..], m);
      if !later.Nothing? then later
      else if q[0] == Enable(m) then On
      else if q[0] == Disable(m) then Off
      else Nothing
  }

  predicate Other(cs: seq<Client>, c: Client) {
    exists i :: 0 <= i < |cs| && cs[i] != c
  }

  predicate HasOther(t: Tables, m: MsgId, c: Client) {
    Other(Consumers(t, m), c)
  }

  /** If a has a consumer of m other than b, then b lists a as a consumer of m, or is about to. */
  ghost predicate Covers(n: Net, a: Rid, b: Rid, m: MsgId) {
    HasOther(Tab(n, a), m, Remote(b)) ==>
      match LastAbout(Queue(n, a, b), m)
      case On => true
      case Off => false
      case Nothing => Remote(a) in Consumers(Tab(n, b), m)
  }

  ghost predicate Coverage(n: Net) {
    forall a, b, m :: (a, b) in n.synced ==> Covers(n, a, b, m)
  }

  ghost predicate WellFormedNet(n: Net) {
    && (forall a :: WellFormed(Tab(n, a)) && Remote(a) !in Tab(n, a).pibs)
    && (forall a, b :: (a, b) in n.synced ==> Remote(b) in Tab(n, a).pibs)
  }

  ghost predicate NetInv(n: Net) {
    WellFormedNet(n) && Coverage(n)
  }

  // ----- withdrawals of ID 0, which the code takes for all IDs

  /** Handling the request takes the last consumer of ID 0, so that every ID is withdrawn from b, which is not the
      source and which the router needs for ID k. */
  predicate Withdraws(t: Tables, src: Client, req: RouterTables.Request, b: Rid, k: MsgId) {
    && req == Packet(Disable(0)) && Consumers(t, 0) == [src]
    && Remote(b) != src && k != 0 && HasOther(t, k, Remote(b))
  }

  ghost predicate SpoilsAt(n: Net, a: Rid, src: Client, req: RouterTables.Request) {
    exists y, k :: (a, y) in n.synced && Withdraws(Tab(n, a), src, req, y, k)
  }

  /** The step makes a router withdraw from a linked one an ID that it still needs from there. */
  ghost predicate Spoils(n: Net, s: Step)
    requires Enabled(n, s)
  {
    match s
    case Request(a, pid, req) => SpoilsAt(n, a, Local(pid), req)
    case Receive(b, a) => SpoilsAt(n, a, Remote(b), Packet(Queue(n, b, a)[0]))
    case _ => false
  }

  /** No withdrawal of ID 0 is on its way. */
  ghost predicate NoWildcard(n: Net) {
    forall a, b :: Disable(0) !in Queue(n, a, b)
  }

  /** A step of a program that uses the client library, which refuses to withdraw ID 0. */
  predicate Proper(s: Step) {
    s.Request? ==> s.req != Packet(Disable(0))
  }

  lemma ProperSpoilsNothing(n: Net, s: Step)
    requires NoWildcard(n) && Enabled(n, s) && Proper(s)
    ensures !Spoils(n, s)
  {
    if s.Receive? {
      assert Queue(n, s.b, s.a)[0] in Queue(n, s.b, s.a);
    }
  }

  // ----- how requests change consumers

  lemma FindUnique(miibs: seq<Miib>, i: nat)
    requires DistinctIds(miibs) && i < |miibs|
    ensures FindMiib(miibs, miibs[i].msgId) == i
  {
  }

  lemma EnableConsumers(t: Tables, m: MsgId, c: Client, k: MsgId)
    requires WellFormed(t)
    ensures var t' := t.(miibs := EnableMiibs(t.miibs, m, c));
            Consumers(t', k) == if k == m then Add(Consumers(t, m), c) else Consumers(t, k)
  {
    var i, j := FindMiib(t.miibs, m), FindMiib(t.miibs, k);
    var miibs := EnableMiibs(t.miibs, m, c);
    assert DistinctIds(miibs);
    if i < |miibs| {
      FindUnique(miibs, i);
    }
    if j < |t.miibs| {
      FindUnique(miibs, j);
    }
  }

  /** Taking entry i out moves the entries behind it. */
  lemma TakenOutConsumers(pibs: seq<Client>, miibs: seq<Miib>, i: nat, k: MsgId)
    requires DistinctIds(miibs) && i < |miibs|
    ensures Consumers(Tables(pibs, miibs[..i] + miibs[i + 1..]), k)
         == if k == miibs[i].msgId then [] else Consumers(Tables(pibs, miibs), k)
  {
    hide FindMiib;
    var r := miibs[..i] + miibs[i + 1..];
    assert forall x :: 0 <= x < |r| ==> r[x] == miibs[if x < i then x else x + 1];
    var j := FindMiib(miibs, k);
    if j < |miibs| && j != i {
      FindUnique(r, if j < i then j else j - 1);
    } else {
      assert forall x :: 0 <= x < |r| ==> r[x].msgId != k;
    }
  }

  /** New consumers for entry i leave the others alone. */
  lemma ReplacedConsumers(pibs: seq<Client>, miibs: seq<Miib>, i: nat, cs: seq<Client>, k: MsgId)
    requires DistinctIds(miibs) && i < |miibs|
    ensures Consumers(Tables(pibs, miibs[i := Miib(miibs[i].msgId, cs)]), k)
         == if k == miibs[i].msgId then cs else Consumers(Tables(pibs, miibs), k)
  {
    hide FindMiib;
    var r := miibs[i := Miib(miibs[i].msgId, cs)];
    assert forall x :: 0 <= x < |r| ==> r[x].msgId == miibs[x].msgId;
    var j := FindMiib(miibs, k);
    if j < |miibs| {
      FindUnique(r, j);
    } else {
      assert forall x :: 0 <= x < |r| ==> r[x].msgId != k;
    }
  }

  lemma DisableConsumers(t: Tables, m: MsgId, c: Client, k: MsgId)
    requires WellFormed(t)
    ensures Consumers(HandleDisable(t, c, m).0, k) == if k == m then Drop(Consumers(t, m), c) else Consumers(t, k)
  {
    hide FindMiib, Drop;
    var i := FindMiib(t.miibs, m);
    DropNone(c);
    if i < |t.miibs| {
      TakenOutConsumers(t.pibs, t.miibs, i, k);
      ReplacedConsumers(t.pibs, t.miibs, i, Drop(t.miibs[i].consumers, c), k);
    }
  }

  lemma DropNone(c: Client)
    ensures Drop([], c) == []
  {
  }

  lemma ConsumersSkip(pibs: seq<Client>, miibs: seq<Miib>, k: MsgId)
    requires miibs != []
    ensures Consumers(Tables(pibs, miibs), k)
         == if miibs[0].msgId == k then miibs[0].consumers else Consumers(Tables(pibs, miibs[1..]), k)
  {
  }

  lemma {:induction false} DropEverywhereConsumers(miibs: seq<Miib>, c: Client, k: MsgId, pibs: seq<Client>)
    requires DistinctIds(miibs)
    ensures Consumers(Tables(pibs, DropEverywhere(miibs, c)), k) == Drop(Consumers(Tables(pibs, miibs), k), c)
  {
    if miibs != [] {
      var e, rest := miibs[0], miibs[1..];
      DropEverywhereConsumers(rest, c, k, pibs);
      ConsumersSkip(pibs, miibs, k);
      var r, r' := DropEverywhere(miibs, c), DropEverywhere(rest, c);
      if Drop(e.consumers, c) != [] {
        assert r[1..] == r';
        ConsumersSkip(pibs, r, k);
      } else {
        assert r == r';
        if e.msgId == k {
          assert FindMiib(rest, k) == |rest|;
        }
      }
    }
  }

  // ----- what requests send

  lemma ToFirst(o: Out, rest: seq<Out>, c: Client)
    ensures To([o] + rest, c) == (if o.dest == c then [o.packet] else []) + To(rest, c)
  {
    assert ([o] + rest)[1..] == rest;
  }

  lemma {:induction false} ToConcat(a: seq<Out>, b: seq<Out>, c: Client)
    ensures To(a + b, c) == To(a, c) + To(b, c)
  {
    if a == [] {
      assert a + b == b;
    } else {
      hide To;
      assert a + b == [a[0]] + (a[1..] + b) && a == [a[0]] + a[1..];
      ToFirst(a[0], a[1..] + b, c);
      ToFirst(a[0], a[1..], c);
      ToConcat(a[1..], b, c);
    }
  }

  lemma {:induction false} ToAddressed(d: Client, ps: seq<Packet>, c: Client)
    ensures To(Addressed(d, ps), c) == if d == c then ps else []
  {
    if ps != [] {
      ToAddressed(d, ps[1..], c);
      assert Addressed(d, ps)[1..] == Addressed(d, ps[1..]);
    }
  }

  lemma AnnounceAllStep(pibs: seq<Client>, miibs: seq<Miib>, m: MsgId, on: bool, src: Client, c: Client)
    requires pibs != []
    ensures To(AnnounceAll(pibs, miibs, m, on, src), c)
         == (if pibs[0].Remote? && pibs[0] != src && pibs[0] == c then Announce(miibs, m, on) else [])
            + To(AnnounceAll(pibs[1..], miibs, m, on, src), c)
  {
    hide To, Addressed, Announce;
    var first := if pibs[0].Remote? && pibs[0] != src then Addressed(pibs[0], Announce(miibs, m, on)) else [];
    ToConcat(first, AnnounceAll(pibs[1..], miibs, m, on, src), c);
    ToAddressed(pibs[0], Announce(miibs, m, on), c);
    NoneTo(c);
  }

  lemma {:induction false} ToAnnounceAll(pibs: seq<Client>, miibs: seq<Miib>, m: MsgId, on: bool, src: Client, b: Rid)
    requires Distinct(pibs)
    ensures To(AnnounceAll(pibs, miibs, m, on, src), Remote(b))
         == if Remote(b) in pibs && Remote(b) != src then Announce(miibs, m, on) else []
  {
    hide To, Announce;
    if pibs == [] {
      NoneTo(Remote(b));
    } else {
      var ps := Announce(miibs, m, on);
      AnnounceAllStep(pibs, miibs, m, on, src, Remote(b));
      ToAnnounceAll(pibs[1..], miibs, m, on, src, b);
      assert pibs == [pibs[0]] + pibs[1..];
      assert [] + ps == ps && ps + [] == ps;
    }
  }

  lemma {:induction false} LastAboutConcat(q: seq<Packet>, r: seq<Packet>, m: MsgId)
    ensures LastAbout(q + r, m) == if LastAbout(r, m).Nothing? then LastAbout(q, m) else LastAbout(r, m)
  {
    if q == [] {
      assert q + r == r;
    } else {
      assert (q + r)[1..] == q[1..] + r;
      LastAboutConcat(q[1..], r, m);
    }
  }

  lemma {:induction false} LastAboutAnnounce(miibs: seq<Miib>, m: MsgId, on: bool, k: MsgId)
    ensures LastAbout(Announce(miibs, m, on), k)
         == if (m == 0 || m == k) && FindMiib(miibs, k) < |miibs| then (if on then On else Off) else Nothing
    ensures on || m != 0 ==> Disable(0) !in Announce(miibs, m, on)
  {
    if miibs != [] {
      LastAboutAnnounce(miibs[1..], m, on, k);
      var id := miibs[0].msgId;
      if m == 0 || id == m {
        assert Announce(miibs, m, on)[1..] == Announce(miibs[1..], m, on);
      } else {
        assert Announce(miibs, m, on) == Announce(miibs[1..], m, on);
      }
    }
  }

  lemma {:induction false} ForwardSaysNothing(cs: seq<Client>, m: MsgId, body: int, src: Client, c: Client, k: MsgId)
    ensures var ps := To(Forward(cs, Data(m, body), src), c); LastAbout(ps, k) == Nothing && Disable(0) !in ps
  {
    if cs != [] {
      ForwardSaysNothing(cs[1..], m, body, src, c, k);
      var f, f' := Forward(cs, Data(m, body), src), Forward(cs[1..], Data(m, body), src);
      if cs[0] == src && src.Remote? {
        assert f == f';
      } else {
        assert f[1..] == f';
        var ps, ps' := To(f, c), To(f', c);
        if cs[0] == c {
          assert ps[1..] == ps';
        } else {
          assert ps == ps';
        }
      }
    }
  }

  /** What a request at a router means for its neighbour b's interest bookkeeping about k. */
  lemma RequestSpeaks(t: Tables, src: Client, req: RouterTables.Request, b: Rid, k: MsgId)
    requires WellFormed(t) && (src.Remote? ==> src in t.pibs) && Remote(b) in t.pibs
    ensures var (t', outs) := Handle(t, src, req);
            var ps := To(outs, Remote(b));
            && (req != Packet(Disable(0)) ==> Disable(0) !in ps)
            && (!Withdraws(t, src, req, b, k) && HasOther(t', k, Remote(b)) ==>
                  LastAbout(ps, k).On? || (LastAbout(ps, k).Nothing? && HasOther(t, k, Remote(b))))
            && (Withdraws(t, src, req, b, k) ==> LastAbout(ps, k).Off? && HasOther(t', k, Remote(b)))
  {
    hide FindMiib, Drop, Announce, AnnounceAll, LastAbout;
    match req
    case Register => NoneSaid(b, k);
    case Deregister =>
      NoneSaid(b, k);
      if src in t.pibs {
        DropEverywhereConsumers(t.miibs, src, k, t.pibs);
        DroppedOther(Consumers(t, k), src, Remote(b));
      }
    case Packet(p) =>
      NoneSaid(b, k);
      if src in t.pibs {
        match p
        case Enable(m) => EnableSpeaks(t, src, m, b, k);
        case Disable(m) => DisableSpeaks(t, src, m, b, k);
        case Data(m, body) => ForwardSaysNothing(Consumers(t, m), m, body, src, Remote(b), k);
      } else {
        ConsumersGood(t, 0);
      }
  }

  lemma NoneSaid(b: Rid, k: MsgId)
    ensures To([], Remote(b)) == [] && LastAbout([], k) == Nothing
  {
  }

  lemma EnableSpeaks(t: Tables, src: Client, m: MsgId, b: Rid, k: MsgId)
    requires WellFormed(t) && src in t.pibs && Remote(b) in t.pibs
    ensures var (t', outs) := HandleEnable(t, src, m);
            var ps := To(outs, Remote(b));
            && Disable(0) !in ps
            && (HasOther(t', k, Remote(b)) ==>
                  LastAbout(ps, k).On? || (LastAbout(ps, k).Nothing? && HasOther(t, k, Remote(b))))
  {
    var miibs := EnableMiibs(t.miibs, m, src);
    EnableConsumers(t, m, src, k);
    ToAnnounceAll(t.pibs, miibs, m, true, src, b);
    LastAboutAnnounce(miibs, m, true, k);
    AddedOther(Consumers(t, k), src, Remote(b));
  }

  /** A withdrawal empties its ID exactly when its source is the one consumer. */
  lemma EmptiesWhen(t: Tables, src: Client, m: MsgId)
    requires WellFormed(t)
    ensures Consumers(t, m) == [src] <==> FindMiib(t.miibs, m) < |t.miibs| && Drop(Consumers(t, m), src) == []
  {
    var i := FindMiib(t.miibs, m);
    if i < |t.miibs| {
      assert GoodEntry(t.pibs, t.miibs[i]);
      DropMeans(t.miibs[i].consumers, src);
      var cs := t.miibs[i].consumers;
      if Drop(cs, src) == [] {
        assert forall j :: 0 <= j < |cs| ==> cs[j] in cs && cs[j] == src;
        assert cs == [src];
      }
    }
  }

  lemma DisableSends(t: Tables, src: Client, m: MsgId)
    requires WellFormed(t)
    ensures HandleDisable(t, src, m).1
            == if Consumers(t, m) == [src] then AnnounceAll(t.pibs, t.miibs, m, false, src) else []
  {
    hide AnnounceAll;
    EmptiesWhen(t, src, m);
  }

  lemma DisableSpeaks(t: Tables, src: Client, m: MsgId, b: Rid, k: MsgId)
    requires WellFormed(t) && src in t.pibs && Remote(b) in t.pibs
    ensures var (t', outs) := HandleDisable(t, src, m);
            var ps, req := To(outs, Remote(b)), Packet(Disable(m));
            && (m != 0 ==> Disable(0) !in ps)
            && (!Withdraws(t, src, req, b, k) && HasOther(t', k, Remote(b)) ==>
                  LastAbout(ps, k).Nothing? && HasOther(t, k, Remote(b)))
            && (Withdraws(t, src, req, b, k) ==> LastAbout(ps, k).Off? && HasOther(t', k, Remote(b)))
  {
    hide HandleDisable, Drop, Announce, AnnounceAll, LastAbout, To, FindMiib, Consumers;
    DisableConsumers(t, m, src, k);
    DisableSends(t, src, m);
    OnlyDropped(src);
    NoneSaid(b, k);
    ToAnnounceAll(t.pibs, t.miibs, m, false, src, b);
    LastAboutAnnounce(t.miibs, m, false, k);
    OtherListed(t, k, Remote(b));
    DroppedOther(Consumers(t, k), src, Remote(b));
  }

  lemma OnlyDropped(c: Client)
    ensures Drop([c], c) == []
  {
  }

  lemma OtherListed(t: Tables, k: MsgId, c: Client)
    ensures HasOther(t, k, c) ==> FindMiib(t.miibs, k) < |t.miibs|
  {
  }

  lemma AddedOther(cs: seq<Client>, c: Client, d: Client)
    ensures Other(Add(cs, c), d) ==> Other(cs, d) || c != d
  {
    if Other(Add(cs, c), d) && c == d {
      var i :| 0 <= i < |Add(cs, c)| && Add(cs, c)[i] != d;
      assert i < |cs| && cs[i] != d;
    }
  }

  lemma DroppedOther(cs: seq<Client>, c: Client, d: Client)
    ensures Other(Drop(cs, c), d) ==> Other(cs, d)
  {
    var r, n := Drop(cs, c), FindClient(cs, c);
    if Other(r, d) {
      var i :| 0 <= i < |r| && r[i] != d;
      assert cs[if i < n then i else i + 1] != d;
    }
  }

  /** A request takes no consumer away but its source, and that only by withdrawing or leaving. */
  lemma RequestKeepsOthers(t: Tables, src: Client, req: RouterTables.Request, c: Client, k: MsgId)
    requires WellFormed(t) && (src.Remote? ==> src in t.pibs)
    ensures var t' := Handle(t, src, req).0;
            && (c in Consumers(t, k) && c != src ==> c in Consumers(t', k))
            && (req.Packet? && req.packet != Disable(k) && c in Consumers(t, k) ==> c in Consumers(t', k))
            && (req == Packet(Enable(k)) && src in t.pibs ==> src in Consumers(t', k))
  {
    ConsumersGood(t, k);
    match req
    case Register =>
    case Deregister =>
      if src in t.pibs {
        DropEverywhereConsumers(t.miibs, src, k, t.pibs);
        DropMeans(Consumers(t, k), src);
      }
    case Packet(p) =>
      if src in t.pibs {
        match p
        case Enable(m) => EnableConsumers(t, m, src, k);
        case Disable(m) =>
          DisableConsumers(t, m, src, k);
          DropMeans(Consumers(t, k), src);
        case Data(m, body) =>
      }
  }

  lemma ConsumersGood(t: Tables, k: MsgId)
    requires WellFormed(t)
    ensures Distinct(Consumers(t, k)) && forall c :: c in Consumers(t, k) ==> c in t.pibs
  {
    var i := FindMiib(t.miibs, k);
    if i < |t.miibs| {
      assert GoodEntry(t.pibs, t.miibs[i]);
    }
  }

  // ----- coverage is kept by every step

  lemma HandleAtMeans(n: Net, a: Rid, src: Client, req: RouterTables.Request, x: Rid, y: Rid)
    ensures var (t', outs) := Handle(Tab(n, a), src, req);
            var n' := HandleAt(n, a, src, req);
            && Tab(n', x) == (if x == a then t' else Tab(n, x))
            && Queue(n', x, y) == (if x == a then Queue(n, x, y) + To(outs, Remote(y)) else Queue(n, x, y))
            && n'.synced == n.synced
  {
    var (t', outs) := Handle(Tab(n, a), src, req);
    SendMeans(n.(tab := n.tab[a := t']), a, outs, x, y);
    assert Queue(n, x, y) + [] == Queue(n, x, y);
  }

  /** The handling router's own side: what it still needs from y it has announced to y, unless it withdraws
      everything. */
  lemma SpeakerCovers(n: Net, a: Rid, src: Client, req: RouterTables.Request, y: Rid, k: MsgId)
    requires WellFormed(Tab(n, a)) && (src.Remote? ==> src in Tab(n, a).pibs) && Remote(y) in Tab(n, a).pibs && y != a
    requires Covers(n, a, y, k)
    ensures Covers(HandleAt(n, a, src, req), a, y, k) <==> !Withdraws(Tab(n, a), src, req, y, k)
  {
    hide RouterTables.Handle, HandleAt, Withdraws, LastAbout, To, Consumers;
    RequestSpeaks(Tab(n, a), src, req, y, k);
    HandleAtMeans(n, a, src, req, a, y);
    HandleAtMeans(n, a, src, req, y, y);
    LastAboutConcat(Queue(n, a, y), To(Handle(Tab(n, a), src, req).1, Remote(y)), k);
  }

  /** The other side: a router that is not the source stays listed. */
  lemma ListenerCovers(n: Net, a: Rid, src: Client, req: RouterTables.Request, x: Rid, k: MsgId)
    requires WellFormed(Tab(n, a)) && (src.Remote? ==> src in Tab(n, a).pibs) && x != a && src != Remote(x)
    requires Covers(n, x, a, k)
    ensures Covers(HandleAt(n, a, src, req), x, a, k)
  {
    RequestKeepsOthers(Tab(n, a), src, req, Remote(x), k);
    HandleAtMeans(n, a, src, req, x, a);
    HandleAtMeans(n, a, src, req, a, a);
  }

  /** The link a packet came from: taking it off the link and obeying it keeps coverage. */
  lemma ReceiverCovers(n: Net, b: Rid, a: Rid, k: MsgId)
    requires Queue(n, b, a) != [] && a != b
    requires WellFormed(Tab(n, a)) && Remote(b) in Tab(n, a).pibs
    requires Covers(n, b, a, k)
    ensures Covers(Next(n.(synced := n.synced + {(a, b)}), Receive(b, a)), b, a, k)
  {
    var q := Queue(n, b, a);
    var popped := n.(queue := n.queue[(b, a) := q[1..]], synced := n.synced + {(a, b)});
    var req := Packet(q[0]);
    RequestKeepsOthers(Tab(n, a), Remote(b), req, Remote(b), k);
    HandleAtMeans(popped, a, Remote(b), req, b, a);
    HandleAtMeans(popped, a, Remote(b), req, a, a);
  }

  lemma AnnounceLinkMeans(n: Net, a: Rid, b: Rid, x: Rid, y: Rid)
    ensures var n' := AnnounceLink(n, a, b);
            && n'.tab == n.tab && n'.synced == n.synced + {(a, b)}
            && Queue(n', x, y)
               == if x == a && y == b then Queue(n, x, y) + Announce(Tab(n, a).miibs, 0, true) else Queue(n, x, y)
  {
    assert Queue(n, x, y) + [] == Queue(n, x, y);
    var ps := Announce(Tab(n, a).miibs, 0, true);
    SendMeans(n.(synced := n.synced + {(a, b)}), a, Addressed(Remote(b), ps), x, y);
    ToAddressed(Remote(b), ps, Remote(y));
  }

  /** A link end that announces everything covers, and the other links are not touched. */
  lemma AnnounceLinkCovers(n: Net, a: Rid, b: Rid, x: Rid, y: Rid, k: MsgId)
    requires (x, y) == (a, b) || Covers(n, x, y, k)
    ensures Covers(AnnounceLink(n, a, b), x, y, k)
    ensures Disable(0) !in Queue(n, x, y) ==> Disable(0) !in Queue(AnnounceLink(n, a, b), x, y)
  {
    var ps := Announce(Tab(n, a).miibs, 0, true);
    AnnounceLinkMeans(n, a, b, x, y);
    LastAboutAnnounce(Tab(n, a).miibs, 0, true, k);
    assert HasOther(Tab(n, a), k, Remote(b)) ==> FindMiib(Tab(n, a).miibs, k) < |Tab(n, a).miibs|;
    LastAboutConcat(Queue(n, x, y), ps, k);
  }

  lemma ListKeeps(n: Net, a: Rid, b: Rid)
    requires a != b && Remote(b) !in Tab(n, a).pibs
    requires WellFormedNet(n)
    ensures WellFormedNet(List(n, a, b))
    ensures forall x, y, k :: Covers(n, x, y, k) ==> Covers(List(n, a, b), x, y, k)
  {
    var n' := List(n, a, b);
    forall x
      ensures WellFormed(Tab(n', x)) && Remote(x) !in Tab(n', x).pibs && Tab(n', x).miibs == Tab(n, x).miibs
    {
      var t, t' := Tab(n, x), Tab(n', x);
      assert WellFormed(t);
      assert forall i :: 0 <= i < |t.miibs| ==> GoodEntry(t.pibs, t.miibs[i]) ==> GoodEntry(t'.pibs, t.miibs[i]);
    }
    forall x, k
      ensures Consumers(Tab(n', x), k) == Consumers(Tab(n, x), k)
    {
    }
    forall x, y, k | Covers(n, x, y, k)
      ensures Covers(n', x, y, k)
    {
      assert Queue(n', x, y) == Queue(n, x, y);
    }
  }

  lemma ListKeepsInv(n: Net, a: Rid, b: Rid)
    requires NetInv(n) && a != b && Remote(b) !in Tab(n, a).pibs
    ensures NetInv(List(n, a, b))
  {
    ListKeeps(n, a, b);
  }

  lemma AnnounceLinkKeepsInv(n: Net, a: Rid, b: Rid)
    requires NetInv(n) && Remote(b) in Tab(n, a).pibs
    ensures NetInv(AnnounceLink(n, a, b))
  {
    var n' := AnnounceLink(n, a, b);
    AnnounceLinkMeans(n, a, b, a, b);
    assert forall x :: Tab(n', x) == Tab(n, x);
    forall x, y, k | (x, y) in n'.synced ensures Covers(n', x, y, k) {
      assert (x, y) == (a, b) || Covers(n, x, y, k);
      AnnounceLinkCovers(n, a, b, x, y, k);
    }
  }

  /** Handling a request breaks a link's coverage exactly at the router that handles it, towards a router from
      which it withdraws an ID it needs. The link a packet came from is ReceiverCovers'. */
  lemma HandledCovers(n: Net, a: Rid, src: Client, req: RouterTables.Request, x: Rid, y: Rid, k: MsgId)
    requires WellFormedNet(n) && (src.Remote? ==> src in Tab(n, a).pibs)
    requires (x, y) in n.synced && !(y == a && src == Remote(x))
    requires Covers(n, x, y, k)
    ensures Covers(HandleAt(n, a, src, req), x, y, k) <==> !(x == a && Withdraws(Tab(n, a), src, req, y, k))
  {
    hide HandleAt, Withdraws, RouterTables.Handle;
    assert WellFormed(Tab(n, a)) && Remote(y) in Tab(n, x).pibs && Remote(x) !in Tab(n, x).pibs;
    if x == a {
      SpeakerCovers(n, a, src, req, y, k);
    } else if y == a {
      ListenerCovers(n, a, src, req, x, k);
    } else {
      HandleAtMeans(n, a, src, req, x, y);
      HandleAtMeans(n, a, src, req, y, y);
    }
  }

  lemma RemotesKept(t: Tables, src: Client, req: RouterTables.Request, y: Rid)
    requires WellFormed(t) && (src.Remote? ==> src in t.pibs && req.Packet?)
    ensures Remote(y) in Handle(t, src, req).0.pibs <==> Remote(y) in t.pibs
  {
    if req.Deregister? && src in t.pibs {
      DropMeans(t.pibs, src);
    }
  }

  lemma HandleKeepsWellFormedNet(n: Net, a: Rid, src: Client, req: RouterTables.Request)
    requires WellFormedNet(n) && (src.Remote? ==> src in Tab(n, a).pibs && req.Packet?)
    ensures WellFormedNet(HandleAt(n, a, src, req))
  {
    var n' := HandleAt(n, a, src, req);
    assert WellFormed(Tab(n, a));
    HandleKeepsWellFormed(Tab(n, a), src, req);
    forall x, y
      ensures WellFormed(Tab(n', x)) && (Remote(y) in Tab(n', x).pibs <==> Remote(y) in Tab(n, x).pibs)
    {
      HandleAtMeans(n, a, src, req, x, x);
      assert WellFormed(Tab(n, x));
      RemotesKept(Tab(n, a), src, req, y);
    }
    HandleAtMeans(n, a, src, req, a, a);
  }

  lemma RequestCoverage(n: Net, a: Rid, pid: int, req: RouterTables.Request)
    requires NetInv(n)
    ensures WellFormedNet(HandleAt(n, a, Local(pid), req))
    ensures Coverage(HandleAt(n, a, Local(pid), req)) <==> !SpoilsAt(n, a, Local(pid), req)
  {
    hide HandleAt, Covers, WellFormedNet, Withdraws;
    var n', src := HandleAt(n, a, Local(pid), req), Local(pid);
    HandleKeepsWellFormedNet(n, a, src, req);
    HandleAtMeans(n, a, src, req, a, a);
    forall x, y, k | (x, y) in n'.synced
      ensures Covers(n', x, y, k) <==> !(x == a && Withdraws(Tab(n, a), src, req, y, k))
    {
      HandledCovers(n, a, src, req, x, y, k);
    }
    if SpoilsAt(n, a, src, req) {
      var y, k :| (a, y) in n.synced && Withdraws(Tab(n, a), src, req, y, k);
      assert !Covers(n', a, y, k);
    }
  }

  /** The state in which a router handles a packet it has taken from a link. */
  function Popped(n: Net, b: Rid, a: Rid): Net
    requires Queue(n, b, a) != []
  {
    n.(queue := n.queue[(b, a) := Queue(n, b, a)[1..]])
  }

  lemma PoppedMeans(n: Net, b: Rid, a: Rid, x: Rid, y: Rid, k: MsgId)
    requires Queue(n, b, a) != []
    ensures var popped := Popped(n, b, a);
            && popped.synced == n.synced && (forall z :: Tab(popped, z) == Tab(n, z))
            && ((x, y) != (b, a) ==> (Covers(popped, x, y, k) <==> Covers(n, x, y, k)))
            && (forall p :: p in Queue(popped, x, y) ==> p in Queue(n, x, y))
    ensures WellFormedNet(n) ==> WellFormedNet(Popped(n, b, a))
  {
    var popped := Popped(n, b, a);
    assert forall z :: Tab(popped, z) == Tab(n, z);
  }

  lemma ReceivedCovers(n: Net, b: Rid, a: Rid, x: Rid, y: Rid, k: MsgId)
    requires NetInv(n) && Enabled(n, Receive(b, a)) && (x, y) in n.synced
    ensures Covers(Next(n, Receive(b, a)), x, y, k) <==>
            !(x == a && Withdraws(Tab(n, a), Remote(b), Packet(Queue(n, b, a)[0]), y, k))
  {
    hide HandleAt, Covers, Withdraws;
    var req := Packet(Queue(n, b, a)[0]);
    assert WellFormed(Tab(n, a)) && WellFormed(Tab(n, b));
    assert Remote(b) in Tab(n, a).pibs && Remote(a) !in Tab(n, a).pibs;
    PoppedMeans(n, b, a, x, y, k);
    assert Covers(n, x, y, k);
    if (x, y) == (b, a) {
      assert n.synced + {(a, b)} == n.synced;
      assert n.(synced := n.synced + {(a, b)}) == n;
      ReceiverCovers(n, b, a, k);
    } else {
      HandledCovers(Popped(n, b, a), a, Remote(b), req, x, y, k);
    }
  }

  lemma ReceiveCoverage(n: Net, b: Rid, a: Rid)
    requires NetInv(n) && Enabled(n, Receive(b, a))
    ensures var n' := Next(n, Receive(b, a));
            WellFormedNet(n') && (Coverage(n') <==> !SpoilsAt(n, a, Remote(b), Packet(Queue(n, b, a)[0])))
  {
    hide HandleAt, Covers, Withdraws;
    var n', req := Next(n, Receive(b, a)), Packet(Queue(n, b, a)[0]);
    PoppedMeans(n, b, a, b, a, 0);
    HandleKeepsWellFormedNet(Popped(n, b, a), a, Remote(b), req);
    HandleAtMeans(Popped(n, b, a), a, Remote(b), req, a, a);
    forall x, y, k | (x, y) in n'.synced
      ensures Covers(n', x, y, k) <==> !(x == a && Withdraws(Tab(n, a), Remote(b), req, y, k))
    {
      ReceivedCovers(n, b, a, x, y, k);
    }
    if SpoilsAt(n, a, Remote(b), req) {
      var y, k :| (a, y) in n.synced && Withdraws(Tab(n, a), Remote(b), req, y, k);
      assert !Covers(n', a, y, k);
    }
  }

  /** From a state with well-formed tables and covered interest every step keeps the tables well formed, and it
      keeps interest covered exactly if it does not make a router withdraw by ID 0 what it needs. */
  lemma NextCoverage(n: Net, s: Step)
    requires NetInv(n) && Enabled(n, s)
    ensures WellFormedNet(Next(n, s))
    ensures Coverage(Next(n, s)) <==> !Spoils(n, s)
  {
    hide NetInv, HandleAt, SpoilsAt;
    match s
    case Request(a, pid, req) =>
      RequestCoverage(n, a, pid, req);
    case Receive(b, a) =>
      ReceiveCoverage(n, b, a);
    case Connect(a, b) =>
      ListKeepsInv(n, a, b);
      InvParts(Next(n, s));
    case Accept(b, a) =>
      ListKeepsInv(n, b, a);
      AnnounceLinkKeepsInv(List(n, b, a), b, a);
      InvParts(Next(n, s));
    case Ack(a, b) =>
      AnnounceLinkKeepsInv(n, a, b);
      InvParts(Next(n, s));
  }

  lemma InvParts(n: Net)
    requires NetInv(n)
    ensures WellFormedNet(n) && Coverage(n)
  {
  }

  lemma NextKeepsInv(n: Net, s: Step)
    requires NetInv(n) && Enabled(n, s) && !Spoils(n, s)
    ensures NetInv(Next(n, s))
  {
    NextCoverage(n, s);
  }

  // ----- without withdrawals of ID 0

  lemma HandledNoWildcard(n: Net, a: Rid, src: Client, req: RouterTables.Request, x: Rid, y: Rid)
    requires WellFormedNet(n) && (src.Remote? ==> src in Tab(n, a).pibs)
    requires req != Packet(Disable(0)) && Disable(0) !in Queue(n, x, y)
    ensures Disable(0) !in Queue(HandleAt(n, a, src, req), x, y)
  {
    hide HandleAt, RouterTables.Handle;
    HandleAtMeans(n, a, src, req, x, y);
    assert WellFormed(Tab(n, a));
    if x == a {
      if Remote(y) in Tab(n, a).pibs {
        RequestSpeaks(Tab(n, a), src, req, y, 0);
      } else {
        NothingUnlisted(Tab(n, a), src, req, y);
      }
    }
  }

  /** Registrations go only to listed remotes, and messages only to consumers, which are listed. */
  lemma NothingUnlisted(t: Tables, src: Client, req: RouterTables.Request, y: Rid)
    requires WellFormed(t) && Remote(y) !in t.pibs
    ensures To(Handle(t, src, req).1, Remote(y)) == []
  {
    if req.Packet? {
      match req.packet
      case Enable(m) => ToAnnounceAll(t.pibs, EnableMiibs(t.miibs, m, src), m, true, src, y);
      case Disable(m) => ToAnnounceAll(t.pibs, t.miibs, m, false, src, y);
      case Data(m, _) =>
        ConsumersGood(t, m);
        ForwardOnlyTo(Consumers(t, m), req.packet, src, Remote(y));
    }
  }

  lemma {:induction false} ForwardOnlyTo(cs: seq<Client>, p: Packet, src: Client, c: Client)
    requires c !in cs
    ensures To(Forward(cs, p, src), c) == []
  {
    if cs != [] {
      ForwardOnlyTo(cs[1..], p, src, c);
      if cs[0] == src && src.Remote? {
        assert Forward(cs, p, src) == Forward(cs[1..], p, src);
      } else {
        assert Forward(cs, p, src)[1..] == Forward(cs[1..], p, src);
      }
    }
  }

  lemma AnnouncedNoWildcard(n: Net, a: Rid, b: Rid)
    requires NoWildcard(n)
    ensures NoWildcard(AnnounceLink(n, a, b))
  {
    forall x, y ensures Disable(0) !in Queue(AnnounceLink(n, a, b), x, y) {
      AnnounceLinkMeans(n, a, b, x, y);
      LastAboutAnnounce(Tab(n, a).miibs, 0, true, 0);
      assert Disable(0) !in Queue(n, x, y);
    }
  }

  lemma ListedNoWildcard(n: Net, a: Rid, b: Rid)
    requires NoWildcard(n)
    ensures NoWildcard(List(n, a, b))
  {
    assert forall x, y :: Queue(List(n, a, b), x, y) == Queue(n, x, y);
  }

  /** Where no process withdraws ID 0, no router does. */
  lemma NextNoWildcard(n: Net, s: Step)
    requires WellFormedNet(n) && NoWildcard(n) && Enabled(n, s) && Proper(s)
    ensures NoWildcard(Next(n, s))
  {
    hide HandleAt, AnnounceLink, List;
    match s
    case Request(a, pid, req) =>
      forall x, y ensures Disable(0) !in Queue(Next(n, s), x, y) {
        HandledNoWildcard(n, a, Local(pid), req, x, y);
      }
    case Receive(b, a) =>
      var req := Packet(Queue(n, b, a)[0]);
      assert Queue(n, b, a)[0] in Queue(n, b, a);
      forall x, y ensures Disable(0) !in Queue(Next(n, s), x, y) {
        PoppedMeans(n, b, a, x, y, 0);
        HandledNoWildcard(Popped(n, b, a), a, Remote(b), req, x, y);
      }
    case Connect(a, b) =>
      ListedNoWildcard(n, a, b);
    case Accept(b, a) =>
      ListedNoWildcard(n, b, a);
      AnnouncedNoWildcard(List(n, b, a), b, a);
    case Ack(a, b) =>
      AnnouncedNoWildcard(n, a, b);
  }
}
