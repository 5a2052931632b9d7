/** What each request means, in terms of who is registered, who consumes what, and how often each packet is sent to
    each client: for all well-formed tables. */
module RouterLaws {
  import opened Orders
  import opened RouterTables
  import RouterNet

  // ----- the meaning of tables

  predicate Consumes(t: Tables, c: Client, k: MsgId) {
    exists i :: 0 <= i < |t.miibs| && t.miibs[i].msgId == k && c in t.miibs[i].consumers
  }

  predicate Listed(miibs: seq<Miib>, k: MsgId) {
    exists i :: 0 <= i < |miibs| && miibs[i].msgId == k
  }

  function Times<T(==)>(s: seq<T>, x: T): nat {
    multiset(s)[x]
  }

  /** Whether a remote other than the source is told. */
  predicate Told(t: Tables, src: Client, d: Client) {
    d.Remote? && d in t.pibs && d != src
  }

  /** It is the one consumer of m. */
  ghost predicate LastConsumer(t: Tables, c: Client, m: MsgId) {
    Consumes(t, c, m) && forall d :: Consumes(t, d, m) ==> d == c
  }

  lemma ConsumesIs(t: Tables, c: Client, k: MsgId)
    requires DistinctIds(t.miibs)
    ensures Consumes(t, c, k) <==> c in Consumers(t, k)
  {
  }

  lemma ListedIs(t: Tables, k: MsgId)
    requires WellFormed(t)
    ensures Listed(t.miibs, k) <==> FindMiib(t.miibs, k) < |t.miibs|
    ensures Listed(t.miibs, k) <==> exists c :: Consumes(t, c, k)
    ensures Listed(t.miibs, k) <==> Consumers(t, k) != []
  {
    var i := FindMiib(t.miibs, k);
    if i < |t.miibs| {
      assert GoodEntry(t.pibs, t.miibs[i]);
      assert Consumes(t, t.miibs[i].consumers[0], k);
    }
  }

  // ----- what is sent, counted

  lemma TimesConcat<T>(a: seq<T>, b: seq<T>, x: T)
    ensures Times(a + b, x) == Times(a, x) + Times(b, x)
  {
  }

  lemma {:induction false} AnnounceTimes(miibs: seq<Miib>, m: MsgId, on: bool, p: Packet)
    requires DistinctIds(miibs)
    ensures Times(Announce(miibs, m, on), p)
            == if (if on then p.Enable? else p.Disable?) && Listed(miibs, p.m) && (m == 0 || p.m == m) then 1 else 0
  {
    if miibs != [] {
      var rest, id := miibs[1..], miibs[0].msgId;
      AnnounceTimes(rest, m, on, p);
      var first := if m == 0 || id == m then [if on then Enable(id) else Disable(id)] else [];
      TimesConcat(first, Announce(rest, m, on), p);
      ListedFirst(miibs, p.m);
    }
  }

  lemma ListedFirst(miibs: seq<Miib>, k: MsgId)
    requires miibs != [] && DistinctIds(miibs)
    ensures Listed(miibs, k) <==> miibs[0].msgId == k || Listed(miibs[1..], k)
    ensures Listed(miibs[1..], k) ==> miibs[0].msgId != k
  {
    if Listed(miibs[1..], k) {
      var i :| 0 <= i < |miibs| - 1 && miibs[1..][i].msgId == k;
      assert miibs[i + 1].msgId == k;
    }
    if Listed(miibs, k) && miibs[0].msgId != k {
      var i :| 0 <= i < |miibs| && miibs[i].msgId == k;
      assert miibs[1..][i - 1].msgId == k;
    }
  }

  lemma {:induction false} AddressedTimes(d: Client, ps: seq<Packet>, o: Out)
    ensures Times(Addressed(d, ps), o) == if o.dest == d then Times(ps, o.packet) else 0
  {
    if ps != [] {
      AddressedTimes(d, ps[1..], o);
      TimesConcat([Out(d, ps[0])], Addressed(d, ps[1..]), o);
      TimesConcat([ps[0]], ps[1..], o.packet);
      assert ps == [ps[0]] + ps[1..];
    }
  }

  lemma {:induction false} AnnounceAllTimes(t: Tables, miibs: seq<Miib>, m: MsgId, on: bool, src: Client, o: Out)
    requires Distinct(t.pibs) && DistinctIds(miibs)
    ensures Times(AnnounceAll(t.pibs, miibs, m, on, src), o)
            == if Told(t, src, o.dest) && (if on then o.packet.Enable? else o.packet.Disable?)
                  && Listed(miibs, o.packet.m) && (m == 0 || o.packet.m == m) then 1 else 0
    decreases |t.pibs|
  {
    hide Announce, Addressed, Listed, Times, DistinctIds, AnnounceAll;
    NoTimes(o);
    AnnounceTimes(miibs, m, on, o.packet);
    if t.pibs == [] {
      NoneAnnounced(miibs, m, on, src);
    } else {
      var c, rest := t.pibs[0], t.(pibs := t.pibs[1..]);
      AnnounceAllTimes(rest, miibs, m, on, src, o);
      OneAnnounced(t, miibs, m, on, src, o);
      assert t.pibs == [c] + rest.pibs && c !in rest.pibs;
    }
  }

  lemma NoneAnnounced(miibs: seq<Miib>, m: MsgId, on: bool, src: Client)
    ensures AnnounceAll([], miibs, m, on, src) == []
  {
  }

  lemma OneAnnounced(t: Tables, miibs: seq<Miib>, m: MsgId, on: bool, src: Client, o: Out)
    requires t.pibs != []
    ensures Times(AnnounceAll(t.pibs, miibs, m, on, src), o)
            == Times(AnnounceAll(t.pibs[1..], miibs, m, on, src), o)
               + (if o.dest == t.pibs[0] && o.dest.Remote? && o.dest != src then Times(Announce(miibs, m, on), o.packet)
                  else 0)
  {
    hide Announce, Addressed;
    var c, ps := t.pibs[0], Announce(miibs, m, on);
    TimesConcat(if c.Remote? && c != src then Addressed(c, ps) else [],
                AnnounceAll(t.pibs[1..], miibs, m, on, src), o);
    AddressedTimes(c, ps, o);
  }

  lemma {:induction false} ForwardTimes(cs: seq<Client>, p: Packet, src: Client, o: Out)
    requires Distinct(cs)
    ensures Times(Forward(cs, p, src), o)
            == if o.packet == p && o.dest in cs && !(o.dest == src && src.Remote?) then 1 else 0
  {
    hide Times;
    NoTimes(o);
    if cs != [] {
      ForwardTimes(cs[1..], p, src, o);
      OneTime(Out(cs[0], p), o);
      TimesConcat(if cs[0] == src && src.Remote? then [] else [Out(cs[0], p)], Forward(cs[1..], p, src), o);
      assert cs == [cs[0]] + cs[1..] && cs[0] !in cs[1..];
    }
  }

  // ----- each request

  /** A process registers once, behind those already there. */
  lemma RegisterMeans(t: Tables, src: Client)
    requires src.Local?
    ensures var (t', outs) := Handle(t, src, Register);
            && outs == [] && t'.miibs == t.miibs && src in t'.pibs
            && t'.pibs == if src in t.pibs then t.pibs else t.pibs + [src]
  {
  }

  /** A client that leaves is gone from the registrants and from every ID; everybody else stays as they were and in
      their order, IDs left without consumers go, and nothing is sent. */
  lemma DeregisterMeans(t: Tables, src: Client)
    requires WellFormed(t) && src in t.pibs
    ensures var (t', outs) := Handle(t, src, Deregister);
            && outs == [] && WellFormed(t')
            && (forall c :: c in t'.pibs <==> c in t.pibs && c != src)
            && (forall c, k :: Consumes(t', c, k) <==> Consumes(t, c, k) && c != src)
            && (forall k :: Listed(t'.miibs, k) <==> exists c :: c != src && Consumes(t, c, k))
            && (forall a, b :: Ahead(t'.pibs, a, b) ==> Ahead(t.pibs, a, b))
            && (forall a, b, k :: Ahead(Consumers(t', k), a, b) ==> Ahead(Consumers(t, k), a, b))
  {
    hide DropEverywhere, Drop, Ahead, Consumes, Listed, Consumers, DistinctIds;
    var t' := Handle(t, src, Deregister).0;
    Leaving(t, src);
    forall c, k
      ensures Consumes(t', c, k) <==> Consumes(t, c, k) && c != src
    {
      LeavingConsumes(t, src, c, k);
    }
    forall k
      ensures Listed(t'.miibs, k) <==> exists c :: c != src && Consumes(t, c, k)
    {
      ListedIs(t', k);
      if c :| c != src && Consumes(t, c, k) {
        assert Consumes(t', c, k);
      }
    }
    forall a, b, k | Ahead(Consumers(t', k), a, b)
      ensures Ahead(Consumers(t, k), a, b)
    {
      LeavingConsumers(t, src, k);
      DropAhead(Consumers(t, k), src, a, b);
    }
    forall a, b | Ahead(t'.pibs, a, b)
      ensures Ahead(t.pibs, a, b)
    {
      DropAhead(t.pibs, src, a, b);
    }
  }

  lemma Leaving(t: Tables, src: Client)
    requires WellFormed(t) && src in t.pibs
    ensures var (t', outs) := Handle(t, src, Deregister);
            && outs == [] && WellFormed(t') && t'.pibs == Drop(t.pibs, src)
            && forall c :: c in t'.pibs <==> c in t.pibs && c != src
  {
    HandleKeepsWellFormed(t, src, Deregister);
    DropMeans(t.pibs, src);
  }

  lemma LeavingConsumers(t: Tables, src: Client, k: MsgId)
    requires WellFormed(t) && src in t.pibs
    ensures Consumers(Handle(t, src, Deregister).0, k) == Drop(Consumers(t, k), src)
  {
    hide Consumers, DropEverywhere;
    RouterNet.DropEverywhereConsumers(t.miibs, src, k, t.pibs);
    SameConsumers(t.pibs, Drop(t.pibs, src), DropEverywhere(t.miibs, src), k);
  }

  lemma SameConsumers(pibs: seq<Client>, pibs': seq<Client>, miibs: seq<Miib>, k: MsgId)
    ensures Consumers(Tables(pibs, miibs), k) == Consumers(Tables(pibs', miibs), k)
  {
  }

  lemma LeavingConsumes(t: Tables, src: Client, c: Client, k: MsgId)
    requires WellFormed(t) && src in t.pibs
    ensures Consumes(Handle(t, src, Deregister).0, c, k) <==> Consumes(t, c, k) && c != src
  {
    hide Consumes, Consumers, Drop, RouterTables.Handle;
    Leaving(t, src);
    LeavingConsumers(t, src, k);
    RouterNet.ConsumersGood(t, k);
    DropMeans(Consumers(t, k), src);
    ConsumesIs(t, c, k);
    ConsumesIs(Handle(t, src, Deregister).0, c, k);
  }

  lemma DropAhead(cs: seq<Client>, c: Client, a: Client, b: Client)
    requires Ahead(Drop(cs, c), a, b)
    ensures Ahead(cs, a, b)
  {
    hide FindClient, Ahead;
    var i := FindClient(cs, c);
    if i < |cs| {
      AheadWithout(cs, i, a, b);
    }
  }

  /** A client that enables an ID consumes it, as its last consumer if it did not before; every other remote is told of
      the ID once, or once of every ID if it is 0. */
  lemma EnableMeans(t: Tables, src: Client, m: MsgId)
    requires WellFormed(t) && src in t.pibs
    ensures var (t', outs) := Handle(t, src, Packet(Enable(m)));
            && t'.pibs == t.pibs
            && (forall c, k :: Consumes(t', c, k) <==> Consumes(t, c, k) || (c == src && k == m))
            && Consumers(t', m) == (if Consumes(t, src, m) then Consumers(t, m) else Consumers(t, m) + [src])
            && (forall k :: k != m ==> Consumers(t', k) == Consumers(t, k))
            && (forall d, p :: Times(outs, Out(d, p)) ==
                  if Told(t, src, d) && p.Enable? && Listed(t'.miibs, p.m) && (m == 0 || p.m == m) then 1 else 0)
  {
    hide Consumes, Consumers, DistinctIds, EnableMiibs, AnnounceAll, Listed, Told, Times;
    var (t', outs) := Handle(t, src, Packet(Enable(m)));
    HandleKeepsWellFormed(t, src, Packet(Enable(m)));
    ConsumesIs(t, src, m);
    forall c, k
      ensures Consumes(t', c, k) <==> Consumes(t, c, k) || (c == src && k == m)
    {
      RouterNet.EnableConsumers(t, m, src, k);
      ConsumesIs(t, c, k);
      ConsumesIs(t', c, k);
    }
    forall k
      ensures Consumers(t', k) == if k == m then Add(Consumers(t, m), src) else Consumers(t, k)
    {
      RouterNet.EnableConsumers(t, m, src, k);
    }
    forall d, p
      ensures Times(outs, Out(d, p)) ==
                if Told(t, src, d) && p.Enable? && Listed(t'.miibs, p.m) && (m == 0 || p.m == m) then 1 else 0
    {
      AnnounceAllTimes(t, t'.miibs, m, true, src, Out(d, p));
    }
  }

  /** A client that disables an ID does not consume it any more. If it was the only consumer the ID goes, and every
      other remote is told once of the ID, or once of every ID if it is 0; otherwise nothing is sent. */
  lemma DisableMeans(t: Tables, src: Client, m: MsgId)
    requires WellFormed(t) && src in t.pibs
    ensures var (t', outs) := Handle(t, src, Packet(Disable(m)));
            && t'.pibs == t.pibs && WellFormed(t')
            && (forall c, k :: Consumes(t', c, k) <==> Consumes(t, c, k) && !(c == src && k == m))
            && (forall a, b, k :: Ahead(Consumers(t', k), a, b) ==> Ahead(Consumers(t, k), a, b))
            && (forall d, p :: Times(outs, Out(d, p)) ==
                  if LastConsumer(t, src, m) && Told(t, src, d) && p.Disable? && Listed(t.miibs, p.m)
                     && (m == 0 || p.m == m) then 1
                  else 0)
  {
    hide Consumes, Consumers, DistinctIds, HandleDisable, AnnounceAll, Listed, Told, Times, Ahead, Drop, LastConsumer;
    var (t', outs) := Handle(t, src, Packet(Disable(m)));
    HandleKeepsWellFormed(t, src, Packet(Disable(m)));
    RouterNet.DisableSends(t, src, m);
    DisablePibs(t, src, m);
    OnlyConsumer(t, src, m);
    forall c, k
      ensures Consumes(t', c, k) <==> Consumes(t, c, k) && !(c == src && k == m)
    {
      DisablingConsumes(t, src, m, c, k);
    }
    forall a, b, k | Ahead(Consumers(t', k), a, b)
      ensures Ahead(Consumers(t, k), a, b)
    {
      RouterNet.DisableConsumers(t, m, src, k);
      if k == m {
        DropAhead(Consumers(t, k), src, a, b);
      }
    }
    forall d, p
      ensures Times(outs, Out(d, p)) ==
                if Consumers(t, m) == [src] && Told(t, src, d) && p.Disable? && Listed(t.miibs, p.m)
                   && (m == 0 || p.m == m) then 1 else 0
    {
      AnnounceAllTimes(t, t.miibs, m, false, src, Out(d, p));
      NoTimes(Out(d, p));
    }
  }

  lemma DisablePibs(t: Tables, src: Client, m: MsgId)
    ensures HandleDisable(t, src, m).0.pibs == t.pibs
  {
  }

  lemma OneTime<T>(x: T, y: T)
    ensures Times([x], y) == if x == y then 1 else 0
  {
  }

  lemma NoTimes<T>(x: T)
    ensures Times([], x) == 0
  {
  }

  lemma DisablingConsumes(t: Tables, src: Client, m: MsgId, c: Client, k: MsgId)
    requires WellFormed(t) && src in t.pibs
    ensures Consumes(HandleDisable(t, src, m).0, c, k) <==> Consumes(t, c, k) && !(c == src && k == m)
  {
    hide Consumes, Consumers, HandleDisable, Drop;
    DisableKeeps(t, src, m);
    RouterNet.DisableConsumers(t, m, src, k);
    RouterNet.ConsumersGood(t, k);
    DropMeans(Consumers(t, k), src);
    ConsumesIs(t, c, k);
    ConsumesIs(HandleDisable(t, src, m).0, c, k);
  }

  lemma OnlyConsumer(t: Tables, src: Client, m: MsgId)
    requires WellFormed(t)
    ensures Consumers(t, m) == [src] <==> LastConsumer(t, src, m)
  {
    hide Consumes, Consumers;
    var cs := Consumers(t, m);
    RouterNet.ConsumersGood(t, m);
    forall c
      ensures Consumes(t, c, m) <==> c in cs
    {
      ConsumesIs(t, c, m);
    }
    if LastConsumer(t, src, m) {
      forall i | 0 <= i < |cs|
        ensures cs[i] == src
      {
        assert cs[i] in cs;
      }
      assert src in cs;
      if |cs| > 1 {
        TwoDiffer(cs);
      }
      assert cs == [src];
    }
  }

  lemma TwoDiffer(cs: seq<Client>)
    requires Distinct(cs) && |cs| > 1
    ensures cs[0] != cs[1]
  {
  }

  /** A message goes once to each of its consumers, but not back over the link it came from, and changes nothing. */
  lemma DataMeans(t: Tables, src: Client, m: MsgId, body: int)
    requires WellFormed(t) && src in t.pibs
    ensures var (t', outs) := Handle(t, src, Packet(Data(m, body)));
            && t' == t
            && forall d, p :: Times(outs, Out(d, p)) ==
                 if p == Data(m, body) && Consumes(t, d, m) && !(d == src && src.Remote?) then 1 else 0
  {
    hide Consumes, Consumers, Forward, Times;
    RouterNet.ConsumersGood(t, m);
    forall d, p
      ensures Times(Forward(Consumers(t, m), Data(m, body), src), Out(d, p)) ==
                if p == Data(m, body) && Consumes(t, d, m) && !(d == src && src.Remote?) then 1 else 0
    {
      ForwardTimes(Consumers(t, m), Data(m, body), src, Out(d, p));
      ConsumesIs(t, d, m);
    }
  }

  /** A process that is not registered is ignored, whatever else it asks; so is a link that asks to be registered, and
      whoever leaves without being registered. */
  lemma StrangerIgnored(t: Tables, src: Client, req: Request)
    requires || (src.Local? && src !in t.pibs && req != Register)
             || (src.Remote? && req == Register)
             || (src !in t.pibs && req == Deregister)
    ensures Handle(t, src, req) == (t, [])
  {
  }

  /** Who has left is sent no message any more, whoever publishes it. */
  lemma LeftGetsNothing(t: Tables, src: Client, other: Client, m: MsgId, body: int, p: Packet)
    requires WellFormed(t) && src in t.pibs && (other.Remote? ==> other in t.pibs && other != src)
    ensures Times(Handle(Handle(t, src, Deregister).0, other, Packet(Data(m, body))).1, Out(src, p)) == 0
  {
    hide RouterTables.Handle, Times, Consumes;
    var t' := Handle(t, src, Deregister).0;
    DeregisterMeans(t, src);
    NoTimes(Out(src, p));
    if other in t'.pibs {
      DataMeans(t', other, m, body);
    } else {
      StrangerIgnored(t', other, Packet(Data(m, body)));
    }
  }
}
