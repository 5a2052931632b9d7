/** The message router's tables as values, and what each request does to them and sends. */
module RouterTables {

  type Rid = nat
  type MsgId = nat

  /** A registrant: a local process by pid, or the router at the other end of a link. */
  datatype Client = Local(pid: int) | Remote(peer: Rid)

  datatype Packet = Enable(m: MsgId) | Disable(m: MsgId) | Data(m: MsgId, body: int)

  datatype Request = Register | Deregister | Packet(packet: Packet)

  /** A message ID with its consumers. */
  datatype Miib = Miib(msgId: MsgId, consumers: seq<Client>)

  datatype Tables = Tables(pibs: seq<Client>, miibs: seq<Miib>)

  datatype Out = Out(dest: Client, packet: Packet)

  // ----- reading the tables

  /** The first entry for m, or the length if there is none. */
  function FindMiib(miibs: seq<Miib>, m: MsgId): (i: nat)
    ensures i <= |miibs|
    ensures i < |miibs| ==> miibs[i].msgId == m
    ensures forall j :: 0 <= j < i ==> miibs[j].msgId != m
  {
    if miibs == [] || miibs[0].msgId == m then 0 else 1 + FindMiib(miibs[1..], m)
  }

  function Consumers(t: Tables, m: MsgId): seq<Client> {
    var i := FindMiib(t.miibs, m);
    if i < |t.miibs| then t.miibs[i].consumers else []
  }

  function FindClient(cs: seq<Client>, c: Client): (i: nat)
    ensures i <= |cs|
    ensures i < |cs| ==> cs[i] == c
    ensures forall j :: 0 <= j < i ==> cs[j] != c
  {
    if cs == [] || cs[0] == c then 0 else 1 + FindClient(cs[1..], c)
  }

  // ----- what is sent

  /** The registrations (or their withdrawals) for one remote: for ID m, or for every ID when m is 0. */
  function Announce(miibs: seq<Miib>, m: MsgId, on: bool): seq<Packet> {
    if miibs == [] then []
    else
      var id := miibs[0].msgId;
      (if m == 0 || id == m then [if on then Enable(id) else Disable(id)] else []) + Announce(miibs[1..], m, on)
  }

  function Addressed(dest: Client, ps: seq<Packet>): seq<Out> {
    if ps == [] then [] else [Out(dest, ps[0])] + Addressed(dest, ps[1..])
  }

  /** The same to every remote registrant but the source. */
  function AnnounceAll(pibs: seq<Client>, miibs: seq<Miib>, m: MsgId, on: bool, src: Client): seq<Out> {
    if pibs == [] then []
    else
      (if pibs[0].Remote? && pibs[0] != src then Addressed(pibs[0], Announce(miibs, m, on)) else [])
      + AnnounceAll(pibs[1..], miibs, m, on, src)
  }

  /** A message goes to every consumer, but never back to the remote it came from. */
  function Forward(cs: seq<Client>, p: Packet, src: Client): seq<Out> {
    if cs == [] then []
    else (if cs[0] == src && src.Remote? then [] else [Out(cs[0], p)]) + Forward(cs[1..], p, src)
  }

  // ----- what a request changes

  function Add(cs: seq<Client>, c: Client): seq<Client> {
    if c in cs then cs else cs + [c]
  }

  function Drop(cs: seq<Client>, c: Client): seq<Client> {
    var i := FindClient(cs, c);
    if i < |cs| then cs[..i] + cs[i + 1..] else cs
  }

  function EnableMiibs(miibs: seq<Miib>, m: MsgId, c: Client): seq<Miib> {
    var i := FindMiib(miibs, m);
    if i < |miibs| then miibs[i := Miib(m, Add(miibs[i].consumers, c))] else miibs + [Miib(m, [c])]
  }

  /** The client is gone from every ID, and so is every ID left without consumers. */
  function DropEverywhere(miibs: seq<Miib>, c: Client): seq<Miib> {
    if miibs == [] then []
    else
      var cs := Drop(miibs[0].consumers, c);
      (if cs == [] then [] else [Miib(miibs[0].msgId, cs)]) + DropEverywhere(miibs[1..], c)
  }

  function HandleEnable(t: Tables, src: Client, m: MsgId): (Tables, seq<Out>) {
    var miibs := EnableMiibs(t.miibs, m, src);
    (t.(miibs := miibs), AnnounceAll(t.pibs, miibs, m, true, src))
  }

  function HandleDisable(t: Tables, src: Client, m: MsgId): (Tables, seq<Out>) {
    var i := FindMiib(t.miibs, m);
    if i == |t.miibs| then (t, [])
    else
      var cs := Drop(t.miibs[i].consumers, src);
      if cs == [] then
        (t.(miibs := t.miibs[..i] + t.miibs[i + 1..]), AnnounceAll(t.pibs, t.miibs, m, false, src))
      else
        (t.(miibs := t.miibs[i := Miib(m, cs)]), [])
  }

  function Handle(t: Tables, src: Client, req: Request): (Tables, seq<Out>) {
    match req
    case Register =>
      if src.Remote? || src in t.pibs then (t, []) else (t.(pibs := t.pibs + [src]), [])
    case Deregister =>
      if src !in t.pibs then (t, []) else (Tables(Drop(t.pibs, src), DropEverywhere(t.miibs, src)), [])
    case Packet(p) =>
      if src.Local? && src !in t.pibs then (t, [])
      else
        match p
        case Enable(m) => HandleEnable(t, src, m)
        case Disable(m) => HandleDisable(t, src, m)
        case Data(m, _) => (t, Forward(Consumers(t, m), p, src))
  }

  // ----- well-formed tables

  predicate Distinct<T(==)>(s: seq<T>) {
    forall i, j :: 0 <= i < j < |s| ==> s[i] != s[j]
  }

  predicate DistinctIds(miibs: seq<Miib>) {
    forall i, j :: 0 <= i < j < |miibs| ==> miibs[i].msgId != miibs[j].msgId
  }

  predicate GoodEntry(pibs: seq<Client>, e: Miib) {
    e.consumers != [] && Distinct(e.consumers) && forall c :: c in e.consumers ==> c in pibs
  }

  predicate WellFormed(t: Tables) {
    && Distinct(t.pibs) && DistinctIds(t.miibs)
    && forall i :: 0 <= i < |t.miibs| ==> GoodEntry(t.pibs, t.miibs[i])
  }

  lemma DropMeans(cs: seq<Client>, c: Client)
    requires Distinct(cs)
    ensures Distinct(Drop(cs, c))
    ensures forall x :: x in Drop(cs, c) <==> x in cs && x != c
  {
    var i := FindClient(cs, c);
    var r := Drop(cs, c);
    if i < |cs| {
      forall x | x in cs && x != c
        ensures x in r
      {
        var j :| 0 <= j < |cs| && cs[j] == x;
        assert r[if j < i then j else j - 1] == x;
      }
    }
  }

  /** Those that stay keep their order. */
  lemma DropKeepsOrder(cs: seq<Client>, c: Client, i: nat, j: nat)
    requires Distinct(cs) && i < j < |Drop(cs, c)|
    ensures FindClient(cs, Drop(cs, c)[i]) < FindClient(cs, Drop(cs, c)[j]) < |cs|
  {
    hide Drop;
    var k := FindClient(cs, c);
    DropAt(cs, c, i);
    DropAt(cs, c, j);
  }

  lemma DropAt(cs: seq<Client>, c: Client, i: nat)
    requires Distinct(cs) && i < |Drop(cs, c)|
    ensures var at := if i < FindClient(cs, c) then i else i + 1;
            at < |cs| && FindClient(cs, Drop(cs, c)[i]) == at
  {
    var at := if i < FindClient(cs, c) then i else i + 1;
    hide Distinct, Drop;
    DropTakes(cs, c, i);
    FoundAt(cs, at);
  }

  lemma DropTakes(cs: seq<Client>, c: Client, i: nat)
    requires i < |Drop(cs, c)|
    ensures var at := if i < FindClient(cs, c) then i else i + 1;
            at < |cs| && Drop(cs, c)[i] == cs[at]
  {
    hide FindClient;
  }

  lemma FoundAt(cs: seq<Client>, at: nat)
    requires Distinct(cs) && at < |cs|
    ensures FindClient(cs, cs[at]) == at
  {
    hide FindClient;
  }

  lemma {:induction false} DropEverywhereIds(miibs: seq<Miib>, c: Client, id: MsgId)
    requires forall i :: 0 <= i < |miibs| ==> miibs[i].msgId != id
    ensures forall i :: 0 <= i < |DropEverywhere(miibs, c)| ==> DropEverywhere(miibs, c)[i].msgId != id
  {
    if miibs != [] {
      DropEverywhereIds(miibs[1..], c, id);
    }
  }

  lemma {:induction false} DropEverywhereKeeps(miibs: seq<Miib>, c: Client, pibs: seq<Client>, pibs': seq<Client>)
    requires DistinctIds(miibs) && forall x :: x in pibs' <==> x in pibs && x != c
    requires forall i :: 0 <= i < |miibs| ==> GoodEntry(pibs, miibs[i])
    ensures DistinctIds(DropEverywhere(miibs, c))
    ensures forall i :: 0 <= i < |DropEverywhere(miibs, c)| ==> GoodEntry(pibs', DropEverywhere(miibs, c)[i])
  {
    if miibs != [] {
      var e, rest := miibs[0], miibs[1..];
      DropEverywhereKeeps(rest, c, pibs, pibs');
      DropEverywhereIds(rest, c, e.msgId);
      DropMeans(e.consumers, c);
      var cs := Drop(e.consumers, c);
      assert cs != [] ==> GoodEntry(pibs', Miib(e.msgId, cs));
    }
  }

  lemma EnableKeeps(t: Tables, src: Client, m: MsgId)
    requires WellFormed(t) && src in t.pibs
    ensures WellFormed(t.(miibs := EnableMiibs(t.miibs, m, src)))
  {
    var i := FindMiib(t.miibs, m);
    if i < |t.miibs| {
      assert GoodEntry(t.pibs, t.miibs[i]);
      assert GoodEntry(t.pibs, Miib(m, Add(t.miibs[i].consumers, src)));
    } else {
      assert GoodEntry(t.pibs, Miib(m, [src]));
    }
  }

  lemma DisableKeeps(t: Tables, src: Client, m: MsgId)
    requires WellFormed(t)
    ensures WellFormed(HandleDisable(t, src, m).0)
  {
    var i := FindMiib(t.miibs, m);
    if i < |t.miibs| {
      assert GoodEntry(t.pibs, t.miibs[i]);
      DropMeans(t.miibs[i].consumers, src);
      var cs := Drop(t.miibs[i].consumers, src);
      if cs == [] {
        var r := t.miibs[..i] + t.miibs[i + 1..];
        assert forall j :: 0 <= j < |r| ==> r[j] == t.miibs[if j < i then j else j + 1];
      } else {
        assert GoodEntry(t.pibs, Miib(m, cs));
      }
    }
  }

  /** Every request keeps the tables well formed, provided a remote source has its registrant. */
  lemma HandleKeepsWellFormed(t: Tables, src: Client, req: Request)
    requires WellFormed(t) && (src.Remote? ==> src in t.pibs)
    ensures WellFormed(Handle(t, src, req).0)
  {
    match req
    case Register =>
      assert forall i :: 0 <= i < |t.miibs| ==> GoodEntry(t.pibs, t.miibs[i]) ==> GoodEntry(t.pibs + [src], t.miibs[i]);
    case Deregister =>
      if src in t.pibs {
        DropMeans(t.pibs, src);
        DropEverywhereKeeps(t.miibs, src, t.pibs, Drop(t.pibs, src));
      }
    case Packet(p) =>
      if src in t.pibs {
        match p
        case Enable(m) => EnableKeeps(t, src, m);
        case Disable(m) => DisableKeeps(t, src, m);
        case Data(m, _) =>
      }
  }
}
