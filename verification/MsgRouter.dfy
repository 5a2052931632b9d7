/** The message router process: its tables, changed in place by traversal loops, and what it sends. */
module MsgRouter {
  import opened Options
  import opened RouterTables

  class Router {
    var pibList: seq<Client>
    var miibList: seq<Miib>
    var sent: seq<Out>

    function State(): Tables
      reads this
    {
      Tables(pibList, miibList)
    }

    constructor ()
      ensures State() == Tables([], []) && sent == []
    {
      pibList, miibList, sent := [], [], [];
    }

    method GetMIIB(findMsgID: MsgId) returns (i: nat)
      ensures i == FindMiib(miibList, findMsgID)
    {
      i := 0;
      while i < |miibList| && miibList[i].msgId != findMsgID
        invariant i <= |miibList|
        invariant FindMiib(miibList, findMsgID) == i + FindMiib(miibList[i..], findMsgID)
      {
        assert miibList[i..][1..] == miibList[i + 1..];
        i := i + 1;
      }
    }

    method GetPIB(client: Client) returns (found: bool)
      ensures found == (client in pibList)
    {
      var i := 0;
      while i < |pibList|
        invariant i <= |pibList| && client !in pibList[..i]
      {
        if pibList[i] == client {
          return true;
        }
        i := i + 1;
      }
      assert pibList[..i] == pibList;
      found := false;
    }

    /** Tells one remote of one ID, or of all for 0. */
    method RegisterRemoteMsgID(remote: Client, msgID: MsgId, isRegister: bool)
      modifies `sent
      ensures sent == old(sent) + Addressed(remote, Announce(miibList, msgID, isRegister))
    {
      var i := 0;
      while i < |miibList|
        invariant i <= |miibList|
        invariant sent + Addressed(remote, Announce(miibList[i..], msgID, isRegister))
               == old(sent) + Addressed(remote, Announce(miibList, msgID, isRegister))
      {
        assert miibList[i..][1..] == miibList[i + 1..];
        ghost var ps, ps' := Announce(miibList[i..], msgID, isRegister), Announce(miibList[i + 1..], msgID, isRegister);
        var id := miibList[i].msgId;
        if msgID == 0 || id == msgID {
          var p := if isRegister then Enable(id) else Disable(id);
          assert ps == [p] + ps' && ps[1..] == ps';
          assert Addressed(remote, ps) == [Out(remote, p)] + Addressed(remote, ps');
          sent := sent + [Out(remote, p)];
        } else {
          assert ps == ps';
        }
        i := i + 1;
      }
    }

    /** Tells every remote but the source. */
    method AnnounceToRemotes(msgID: MsgId, isRegister: bool, notThisOne: Client)
      modifies `sent
      ensures sent == old(sent) + AnnounceAll(pibList, miibList, msgID, isRegister, notThisOne)
    {
      hide AnnounceAll, Addressed;
      AnnounceAllNone(miibList, msgID, isRegister, notThisOne);
      assert pibList[0..] == pibList;
      var i := 0;
      while i < |pibList|
        invariant i <= |pibList|
        invariant sent + AnnounceAll(pibList[i..], miibList, msgID, isRegister, notThisOne)
               == old(sent) + AnnounceAll(pibList, miibList, msgID, isRegister, notThisOne)
      {
        assert pibList[i..][1..] == pibList[i + 1..];
        AnnounceAllOne(sent, pibList[i..], miibList, msgID, isRegister, notThisOne);
        var pib := pibList[i];
        if pib != notThisOne && pib.Remote? {
          RegisterRemoteMsgID(pib, msgID, isRegister);
        }
        i := i + 1;
      }
      assert pibList[i..] == [] && sent + [] == sent;
    }

    method DropConsumer(i: nat, client: Client)
      requires i < |miibList|
      modifies `miibList
      ensures miibList == old(miibList)[i := Miib(old(miibList)[i].msgId, Drop(old(miibList)[i].consumers, client))]
    {
      var cs := miibList[i].consumers;
      var j := 0;
      while j < |cs|
        invariant j <= |cs| && miibList == old(miibList)
        invariant FindClient(cs, client) == j + FindClient(cs[j..], client)
      {
        assert cs[j..][1..] == cs[j + 1..];
        if cs[j] == client {
          miibList := miibList[i := Miib(miibList[i].msgId, cs[..j] + cs[j + 1..])];
          return;
        }
        j := j + 1;
      }
    }

    /** Removes a client from every ID; an ID left without consumers is unlinked and the walk steps back. */
    method RemoveClientFromAllMsgs(client: Client)
      modifies `miibList
      ensures miibList == DropEverywhere(old(miibList), client)
    {
      hide DropEverywhere;
      var node := 0;
      ghost var done := 0;
      DropEverywhereNone(client);
      while node < |miibList|
        invariant 0 <= node <= |miibList| && 0 <= done <= |old(miibList)|
        invariant miibList[node..] == old(miibList)[done..]
        invariant miibList[..node] + DropEverywhere(old(miibList)[done..], client)
                  == DropEverywhere(old(miibList), client)
        decreases |miibList| - node
      {
        ghost var rest, before := old(miibList)[done..], miibList;
        assert rest[1..] == old(miibList)[done + 1..] && rest[0] == before[node];
        DropEverywhereOne(rest, client);
        DropConsumer(node, client);
        assert miibList[node + 1..] == rest[1..] by {
          assert before[node..][1..] == before[node + 1..] == miibList[node + 1..];
        }
        var cs := miibList[node].consumers;
        if |cs| == 0 {
          var tempnode := node - 1;
          miibList := miibList[..node] + miibList[node + 1..];
          assert miibList[..node] == before[..node] && miibList[node..] == rest[1..];
          node := tempnode;
        } else {
          assert miibList[..node + 1] == before[..node] + [Miib(rest[0].msgId, cs)];
          Prepend(before[..node], Miib(rest[0].msgId, cs), DropEverywhere(rest[1..], client));
        }
        node := node + 1;
        done := done + 1;
      }
    }

    method AddClient(i: nat, client: Client)
      requires i < |miibList|
      modifies `miibList
      ensures miibList == old(miibList)[i := Miib(old(miibList)[i].msgId, Add(old(miibList)[i].consumers, client))]
    {
      var cs := miibList[i].consumers;
      var j := 0;
      while j < |cs|
        invariant j <= |cs| && client !in cs[..j]
      {
        if cs[j] == client {
          assert miibList[i] == Miib(miibList[i].msgId, Add(cs, client));
          return;
        }
        j := j + 1;
      }
      assert cs[..j] == cs;
      miibList := miibList[i := Miib(miibList[i].msgId, cs + [client])];
    }

    method RemovePib(client: Client)
      modifies `pibList
      ensures pibList == Drop(old(pibList), client)
    {
      var i := 0;
      while i < |pibList| && pibList[i] != client
        invariant i <= |pibList| && FindClient(pibList, client) == i + FindClient(pibList[i..], client)
      {
        assert pibList[i..][1..] == pibList[i + 1..];
        i := i + 1;
      }
      if i < |pibList| {
        pibList := pibList[..i] + pibList[i + 1..];
      }
    }

    method EnableMsgID(src: Client, m: MsgId)
      modifies this
      ensures pibList == old(pibList)
      ensures var r := HandleEnable(old(State()), src, m); State() == r.0 && sent == old(sent) + r.1
    {
      var i := GetMIIB(m);
      if i == |miibList| {
        miibList := miibList + [Miib(m, [])];
        assert miibList[..i] == old(miibList) && [] + [src] == [src];
      }
      AddClient(i, src);
      assert miibList == EnableMiibs(old(miibList), m, src);
      AnnounceToRemotes(m, true, src);
    }

    method DisableMsgID(src: Client, m: MsgId)
      modifies this
      ensures pibList == old(pibList)
      ensures var r := HandleDisable(old(State()), src, m); State() == r.0 && sent == old(sent) + r.1
    {
      var i := GetMIIB(m);
      if i == |miibList| {
        return;
      }
      DropConsumer(i, src);
      if |miibList[i].consumers| == 0 {
        AnnounceSameIds(miibList, old(miibList), m, false);
        AnnounceAllSameIds(pibList, miibList, old(miibList), m, false, src);
        AnnounceToRemotes(m, false, src);
        miibList := miibList[..i] + miibList[i + 1..];
      }
    }

    method RouteData(src: Client, m: MsgId, body: int)
      modifies `sent
      ensures sent == old(sent) + Forward(Consumers(State(), m), Data(m, body), src)
    {
      var i := GetMIIB(m);
      if i == |miibList| {
        return;
      }
      var cs := miibList[i].consumers;
      var p := Data(m, body);
      var j := 0;
      while j < |cs|
        invariant j <= |cs|
        invariant sent + Forward(cs[j..], p, src) == old(sent) + Forward(cs, p, src)
      {
        assert cs[j..][1..] == cs[j + 1..];
        if !(cs[j] == src && src.Remote?) {
          sent := sent + [Out(cs[j], p)];
        }
        j := j + 1;
      }
    }

    /** The question whether an ID has consumers changes nothing; an ID that is not listed gets no answer at all. */
    method AnswerIsRegistered(src: Client, m: MsgId) returns (answer: Option<bool>)
      ensures answer == Answer(State(), src, m)
    {
      if src.Local? {
        var known := GetPIB(src);
        if !known {
          return None;
        }
      }
      var i := GetMIIB(m);
      if i == |miibList| {
        return None;
      }
      answer := Some(|miibList[i].consumers| > 0);
    }

    /** Handles one request; a process that registers is acknowledged, each time. */
    method QueueMsgHandler(src: Client, req: Request) returns (ack: bool)
      modifies this
      ensures var r := Handle(old(State()), src, req); State() == r.0 && sent == old(sent) + r.1
      ensures ack <==> req == Register && src.Local?
    {
      ack := false;
      match req {
        case Register =>
          if src.Remote? {
            return;
          }
          var known := GetPIB(src);
          if !known {
            pibList := pibList + [src];
          }
          ack := true;
        case Deregister =>
          var known := GetPIB(src);
          if known {
            RemoveClientFromAllMsgs(src);
            RemovePib(src);
          }
        case Packet(p) =>
          if src.Local? {
            var known := GetPIB(src);
            if !known {
              return;
            }
          }
          match p {
            case Enable(m) => EnableMsgID(src, m);
            case Disable(m) => DisableMsgID(src, m);
            case Data(m, body) => RouteData(src, m, body);
          }
      }
    }
  }

  function Answer(t: Tables, src: Client, m: MsgId): Option<bool> {
    if src.Local? && src !in t.pibs then None
    else
      var i := FindMiib(t.miibs, m);
      if i == |t.miibs| then None else Some(|t.miibs[i].consumers| > 0)
  }

  /** In well-formed tables a listed ID has consumers, so that no is never an answer: a registered client, or a link, is
      told yes exactly if somebody consumes the ID, and nothing otherwise. Other processes are told nothing. */
  lemma AnswerIsYes(t: Tables, src: Client, m: MsgId)
    requires WellFormed(t)
    ensures Answer(t, src, m)
            == if (src.Remote? || src in t.pibs) && (exists i :: 0 <= i < |t.miibs| && t.miibs[i].msgId == m)
               then Some(true) else None
  {
    var i := FindMiib(t.miibs, m);
    if i < |t.miibs| {
      assert GoodEntry(t.pibs, t.miibs[i]);
    }
  }

  lemma AnnounceAllNone(miibs: seq<Miib>, m: MsgId, on: bool, src: Client)
    ensures AnnounceAll([], miibs, m, on, src) == []
  {
  }

  lemma AnnounceAllOne(sent: seq<Out>, pibs: seq<Client>, miibs: seq<Miib>, m: MsgId, on: bool, src: Client)
    requires pibs != []
    ensures sent + AnnounceAll(pibs, miibs, m, on, src)
         == (if pibs[0].Remote? && pibs[0] != src then sent + Addressed(pibs[0], Announce(miibs, m, on)) else sent)
            + AnnounceAll(pibs[1..], miibs, m, on, src)
  {
    hide Addressed;
    if !(pibs[0].Remote? && pibs[0] != src) {
      assert [] + AnnounceAll(pibs[1..], miibs, m, on, src) == AnnounceAll(pibs[1..], miibs, m, on, src);
    }
  }

  lemma DropEverywhereNone(client: Client)
    ensures DropEverywhere([], client) == []
  {
  }

  lemma DropEverywhereOne(rest: seq<Miib>, client: Client)
    requires rest != []
    ensures var cs := Drop(rest[0].consumers, client);
            DropEverywhere(rest, client) ==
            if cs == [] then DropEverywhere(rest[1..], client)
            else [Miib(rest[0].msgId, cs)] + DropEverywhere(rest[1..], client)
  {
  }

  lemma Prepend<T>(a: seq<T>, x: T, b: seq<T>)
    ensures (a + [x]) + b == a + ([x] + b)
  {
  }

  lemma {:induction false} AnnounceSameIds(a: seq<Miib>, b: seq<Miib>, m: MsgId, on: bool)
    requires |a| == |b| && forall i :: 0 <= i < |a| ==> a[i].msgId == b[i].msgId
    ensures Announce(a, m, on) == Announce(b, m, on)
  {
    if a != [] {
      assert forall i :: 0 <= i < |a| - 1 ==> a[1..][i] == a[i + 1] && b[1..][i] == b[i + 1];
      AnnounceSameIds(a[1..], b[1..], m, on);
    }
  }

  lemma {:induction false} AnnounceAllSameIds(pibs: seq<Client>, a: seq<Miib>, b: seq<Miib>, m: MsgId, on: bool,
                                              src: Client)
    requires Announce(a, m, on) == Announce(b, m, on)
    ensures AnnounceAll(pibs, a, m, on, src) == AnnounceAll(pibs, b, m, on, src)
  {
    if pibs != [] {
      AnnounceAllSameIds(pibs[1..], a, b, m, on, src);
    }
  }
}
