/** What the sums over the classes count: all buffers, and the buffers on the free lists. */
module BufferCounts {
  import opened BufferLayout
  import opened BufferPool

  ghost function Elements(s: seq<nat>): set<nat> {
    set b | b in s
  }

  lemma {:induction false} AsManyElements(s: seq<nat>)
    requires NoDuplicates(s)
    ensures |Elements(s)| == |s|
  {
    if s != [] {
      var front, x := s[..|s| - 1], s[|s| - 1];
      AsManyElements(front);
      assert x !in front;
      assert s == front + [x];
      assert Elements(s) == Elements(front) + {x};
    }
  }

  /** The buffers on the first n lists. */
  ghost function ListedUpTo(mem: Memory, free: seq<seq<nat>>, n: nat): set<nat>
    requires n <= |free|
  {
    set b | b in mem && exists i :: 0 <= i < n && b in free[i]
  }

  lemma {:induction false} ListsCount(mem: Memory, pool: seq<nat>, free: seq<seq<nat>>, n: nat)
    requires ListsOk(mem, pool, free) && n <= |free|
    ensures Sum(Lengths(free)[..n]) == |ListedUpTo(mem, free, n)|
  {
    if n == 0 {
      assert Lengths(free)[..0] == [] && ListedUpTo(mem, free, 0) == {};
    } else {
      var i := n - 1;
      ListsCount(mem, pool, free, i);
      SumSnoc(Lengths(free), i);
      assert ListOk(mem, pool[i], i, free[i]);
      AsManyElements(free[i]);
      OneMoreList(mem, pool, free, i);
    }
  }

  lemma OneMoreList(mem: Memory, pool: seq<nat>, free: seq<seq<nat>>, i: nat)
    requires ListsOk(mem, pool, free) && i < |free|
    ensures |ListedUpTo(mem, free, i + 1)| == |ListedUpTo(mem, free, i)| + |Elements(free[i])|
  {
    var before, more := ListedUpTo(mem, free, i), Elements(free[i]);
    assert ListOk(mem, pool[i], i, free[i]);
    forall b | b in before
      ensures b !in more
    {
      var k :| 0 <= k < i && b in free[k];
      assert ListOk(mem, pool[k], k, free[k]);
    }
    assert ListedUpTo(mem, free, i + 1) == before + more;
  }

  /** The sum of the lengths of the free lists is the number of buffers on them. */
  lemma AvailableCounts(mem: Memory, pool: seq<nat>, free: seq<seq<nat>>)
    requires ListsOk(mem, pool, free)
    ensures Sum(Lengths(free)) == |(set b | b in mem && exists i :: 0 <= i < MAX_BFR_SIZES && b in free[i])|
  {
    ListsCount(mem, pool, free, MAX_BFR_SIZES);
    assert Lengths(free)[..MAX_BFR_SIZES] == Lengths(free);
    assert ListedUpTo(mem, free, MAX_BFR_SIZES)
           == (set b | b in mem && exists i :: 0 <= i < MAX_BFR_SIZES && b in free[i]);
  }

  /** In a valid pool these are the buffers not in use. */
  lemma AvailableIsUnused(share: Share)
    requires share.Valid()
    ensures Sum(Lengths(share.free)) == |(set b | b in share.mem && share.mem[b].inUse == 0)|
  {
    AvailableCounts(share.mem, share.pool, share.free);
    assert (set b | b in share.mem && share.mem[b].inUse == 0)
           == (set b | b in share.mem && exists i :: 0 <= i < MAX_BFR_SIZES && b in share.free[i]);
  }

  /** The sum of the counts is the number of buffers laid out. */
  lemma TotalCounts(mem: Memory, pool: seq<nat>, l: Layout)
    requires Proper(l) && |pool| == MAX_BFR_SIZES
    requires forall i :: 0 <= i < MAX_BFR_SIZES ==> pool[i] == if i < |l.sizes| then Position(l, i, 0) else 0
    requires forall i, j :: IsBuffer(l, i, j) ==> Written(mem, l, i, j)
    requires forall b :: b in mem <==> exists i, j :: IsBuffer(l, i, j) && b == Position(l, i, j)
    ensures Sum(l.counts) == |mem|
  {
    hide ListsOk, InitialFree, IsBuffer, Written, Position, Positions, Lengths, Sum;
    InitialPool(mem, pool, l);
    var free := InitialFree(l);
    AvailableCounts(mem, pool, free);
    AllListed(mem, free);
    InitialLengths(l);
    SumTail(Lengths(free), |l.sizes|);
  }

  lemma AllListed(mem: Memory, free: seq<seq<nat>>)
    requires |free| == MAX_BFR_SIZES
    requires forall b :: b in mem ==> mem[b].sizeIndex < MAX_BFR_SIZES && b in free[mem[b].sizeIndex]
    ensures |(set b | b in mem && exists i :: 0 <= i < MAX_BFR_SIZES && b in free[i])| == |mem|
  {
    assert mem.Keys == (set b | b in mem && exists i :: 0 <= i < MAX_BFR_SIZES && b in free[i]);
  }

  lemma InitialLengths(l: Layout)
    requires Proper(l)
    ensures Lengths(InitialFree(l))[..|l.sizes|] == l.counts
    ensures forall k :: |l.sizes| <= k < MAX_BFR_SIZES ==> Lengths(InitialFree(l))[k] == 0
  {
  }
}
