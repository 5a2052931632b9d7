/** The buffer pool in its shared segment: initialization, and a single caller's get and release. */
module BufferPool {
  import opened Options
  import opened Powers
  import opened BufferLayout

  datatype Hdr = Hdr(next: nat, sizeIndex: nat, inUse: nat)

  type Memory = map<nat, Hdr>

  /** The free list that starts at head; offset 0 ends it. */
  ghost predicate Chain(mem: Memory, head: nat, s: seq<nat>)
    decreases s
  {
    if s == [] then head == 0
    else head == s[0] && head > 0 && head in mem && Chain(mem, mem[head].next, s[1..])
  }

  ghost predicate NoDuplicates(s: seq<nat>) {
    forall i, j :: 0 <= i < j < |s| ==> s[i] != s[j]
  }

  /** Class i's free list is the chain from pool[i], without repetition, and holds only buffers of class i. */
  ghost predicate ListOk(mem: Memory, head: nat, i: nat, s: seq<nat>) {
    Chain(mem, head, s) && NoDuplicates(s) && forall b :: b in s ==> b in mem && mem[b].sizeIndex == i
  }

  ghost predicate ListsOk(mem: Memory, pool: seq<nat>, free: seq<seq<nat>>) {
    |pool| == |free| == MAX_BFR_SIZES && forall i :: 0 <= i < MAX_BFR_SIZES ==> ListOk(mem, pool[i], i, free[i])
  }

  // ----- chains and changes elsewhere

  lemma {:induction false} ChainFrame(mem: Memory, mem': Memory, head: nat, s: seq<nat>)
    requires Chain(mem, head, s)
    requires forall b :: b in s ==> b in mem' && (b in mem ==> mem'[b].next == mem[b].next)
    ensures Chain(mem', head, s)
    decreases s
  {
    if s != [] {
      assert s[0] in s && forall b :: b in s[1..] ==> b in s;
      ChainFrame(mem, mem', mem[head].next, s[1..]);
    }
  }

  lemma {:induction false} ChainInMemory(mem: Memory, head: nat, s: seq<nat>)
    requires Chain(mem, head, s)
    ensures forall b :: b in s ==> b in mem && b > 0
    decreases s
  {
    if s != [] {
      ChainInMemory(mem, mem[head].next, s[1..]);
      assert s == [s[0]] + s[1..];
    }
  }

  lemma ListFrame(mem: Memory, mem': Memory, head: nat, i: nat, s: seq<nat>)
    requires ListOk(mem, head, i, s)
    requires forall b :: b in s ==> b in mem' && mem'[b].next == mem[b].next && mem'[b].sizeIndex == mem[b].sizeIndex
    ensures ListOk(mem', head, i, s)
  {
    ChainFrame(mem, mem', head, s);
  }

  // ----- the two list operations

  /** Class i's list without its head. */
  lemma PopKeepsLists(mem: Memory, pool: seq<nat>, free: seq<seq<nat>>, i: nat)
    requires ListsOk(mem, pool, free) && i < MAX_BFR_SIZES && pool[i] != 0
    ensures free[i] != [] && free[i][0] == pool[i] && pool[i] in mem
    ensures ListsOk(mem, pool[i := mem[pool[i]].next], free[i := free[i][1..]])
    ensures var free' := free[i := free[i][1..]]; forall k :: 0 <= k < MAX_BFR_SIZES ==> pool[i] !in free'[k]
  {
    assert ListOk(mem, pool[i], i, free[i]);
    var s := free[i];
    forall b | b in s[1..]
      ensures b in mem && mem[b].sizeIndex == i && b != s[0]
    {
      assert b in s;
    }
    forall k | 0 <= k < MAX_BFR_SIZES && k != i
      ensures pool[i] !in free[k]
    {
      assert ListOk(mem, pool[k], k, free[k]);
      assert mem[s[0]].sizeIndex == i by { assert s[0] in s; }
    }
  }

  /** A buffer that is on no list put in front of its class's list. */
  lemma PushKeepsLists(mem: Memory, pool: seq<nat>, free: seq<seq<nat>>, b: nat)
    requires ListsOk(mem, pool, free) && b in mem && b > 0 && mem[b].sizeIndex < MAX_BFR_SIZES
    requires forall k :: 0 <= k < MAX_BFR_SIZES ==> b !in free[k]
    ensures var i := mem[b].sizeIndex;
            ListsOk(mem[b := mem[b].(next := pool[i])], pool[i := b], free[i := [b] + free[i]])
  {
    var i := mem[b].sizeIndex;
    var mem' := mem[b := mem[b].(next := pool[i])];
    var pool', free' := pool[i := b], free[i := [b] + free[i]];
    forall k | 0 <= k < MAX_BFR_SIZES
      ensures ListOk(mem', pool'[k], k, free'[k])
    {
      assert ListOk(mem, pool[k], k, free[k]);
      ListFrame(mem, mem', pool[k], k, free[k]);
      if k == i {
        assert ([b] + free[i])[1..] == free[i];
      }
    }
  }

  // ----- initialization

  const ULONG_RANGE: int := 0x1_0000_0000_0000_0000

  /** An int argument as the unsigned long it is compared with. */
  function AsULong(x: int): nat {
    x % ULONG_RANGE
  }

  /** What initialization writes at buffer j of class i. */
  function InitialHdr(l: Layout, i: nat, j: nat): Hdr
    requires |l.sizes| == |l.counts| && IsBuffer(l, i, j)
  {
    Hdr(if j == l.counts[i] - 1 then 0 else Position(l, i, j + 1), i, 0)
  }

  ghost predicate Written(mem: Memory, l: Layout, i: nat, j: nat)
    requires |l.sizes| == |l.counts| && IsBuffer(l, i, j)
  {
    Position(l, i, j) in mem && mem[Position(l, i, j)] == InitialHdr(l, i, j)
  }

  /** The buffers of class i from number j on, in order. */
  ghost function Positions(l: Layout, i: nat, j: nat): (s: seq<nat>)
    requires |l.sizes| == |l.counts| && i < |l.sizes| && j <= l.counts[i]
    ensures |s| == l.counts[i] - j
    ensures forall k :: 0 <= k < |s| ==> s[k] == Position(l, i, j + k)
    decreases l.counts[i] - j
  {
    if j == l.counts[i] then [] else [Position(l, i, j)] + Positions(l, i, j + 1)
  }

  ghost function InitialFree(l: Layout): (free: seq<seq<nat>>)
    requires Proper(l)
    ensures |free| == MAX_BFR_SIZES
    ensures forall i :: 0 <= i < |l.sizes| ==> free[i] == Positions(l, i, 0)
    ensures forall i :: |l.sizes| <= i < MAX_BFR_SIZES ==> free[i] == []
  {
    seq(MAX_BFR_SIZES, i requires 0 <= i < MAX_BFR_SIZES => if i < |l.sizes| then Positions(l, i, 0) else [])
  }

  lemma {:induction false} InitialChain(mem: Memory, l: Layout, i: nat, j: nat)
    requires Proper(l) && i < |l.sizes| && j <= l.counts[i]
    requires forall k :: 0 <= k < l.counts[i] ==> Written(mem, l, i, k)
    ensures Chain(mem, if j == l.counts[i] then 0 else Position(l, i, j), Positions(l, i, j))
    decreases l.counts[i] - j
  {
    var s := Positions(l, i, j);
    if j < l.counts[i] {
      WithinSegment(l, i, j);
      InitialChain(mem, l, i, j + 1);
      assert Written(mem, l, i, j);
      assert s[1..] == Positions(l, i, j + 1);
    }
  }

  lemma InitialList(mem: Memory, l: Layout, i: nat)
    requires Proper(l) && i < |l.sizes|
    requires forall k :: 0 <= k < l.counts[i] ==> Written(mem, l, i, k)
    ensures ListOk(mem, Position(l, i, 0), i, Positions(l, i, 0))
  {
    var s := Positions(l, i, 0);
    InitialChain(mem, l, i, 0);
    forall j, k | 0 <= j < k < |s|
      ensures s[j] != s[k]
    {
      Disjoint(l, i, j, i, k);
    }
    forall b | b in s
      ensures b in mem && mem[b].sizeIndex == i
    {
      var k :| 0 <= k < |s| && s[k] == b;
      assert Written(mem, l, i, k);
    }
  }

  /** After initialization every buffer is on its class's list, not in use. */
  lemma InitialPool(mem: Memory, pool: seq<nat>, l: Layout)
    requires Proper(l) && |pool| == MAX_BFR_SIZES
    requires forall i :: 0 <= i < MAX_BFR_SIZES ==> pool[i] == if i < |l.sizes| then Position(l, i, 0) else 0
    requires forall i, j :: IsBuffer(l, i, j) ==> Written(mem, l, i, j)
    requires forall b :: b in mem ==> exists i, j :: IsBuffer(l, i, j) && b == Position(l, i, j)
    ensures ListsOk(mem, pool, InitialFree(l))
    ensures forall b :: b in mem ==>
            mem[b].sizeIndex < MAX_BFR_SIZES && mem[b].inUse == 0 && b in InitialFree(l)[mem[b].sizeIndex]
    ensures forall i, j :: IsBuffer(l, i, j) ==> Position(l, i, j) in mem
  {
    var free := InitialFree(l);
    forall i | 0 <= i < MAX_BFR_SIZES
      ensures ListOk(mem, pool[i], i, free[i])
    {
      if i < |l.sizes| {
        InitialList(mem, l, i);
      }
    }
    forall b | b in mem
      ensures mem[b].sizeIndex < MAX_BFR_SIZES && mem[b].inUse == 0 && b in free[mem[b].sizeIndex]
    {
      var i, j :| IsBuffer(l, i, j) && b == Position(l, i, j);
      assert Written(mem, l, i, j);
      assert Positions(l, i, 0)[j] == b;
    }
    forall i, j | IsBuffer(l, i, j)
      ensures Position(l, i, j) in mem
    {
      assert Written(mem, l, i, j);
    }
  }

  /** The classes that can serve a request: big enough, and with a free buffer. */
  predicate Serves(sizes: seq<nat>, free: seq<seq<nat>>, i: int, size: int)
    requires |sizes| == |free| == MAX_BFR_SIZES
  {
    0 <= i < MAX_BFR_SIZES && sizes[i] >= AsULong(size) && sizes[i] > 0 && free[i] != []
  }

  /** The shared segment: the directory of classes, the heads of the free lists, and the buffer headers by offset. */
  class Share {
    var numSizes: nat
    var sizes: seq<nat>
    var count: seq<int>
    var pool: seq<nat>
    var allocCount: int
    var mem: Memory
    ghost var layout: Layout
    ghost var free: seq<seq<nat>>

    /** The directory describes the layout, the lists are sound, and exactly buffers that are not in use are listed. */
    ghost predicate Valid()
      reads this
    {
      && Proper(layout) && numSizes == |layout.sizes|
      && |sizes| == |count| == MAX_BFR_SIZES
      && (forall i :: 0 <= i < numSizes ==> sizes[i] == layout.sizes[i] && count[i] == layout.counts[i])
      && (forall i :: numSizes <= i < MAX_BFR_SIZES ==> sizes[i] == 0)
      && (forall i, j :: 0 <= i < j < numSizes ==> sizes[i] <= sizes[j])
      && ListsOk(mem, pool, free)
      && (forall i, b :: 0 <= i < MAX_BFR_SIZES && b in free[i] ==> mem[b].inUse == 0)
      && (forall i :: numSizes <= i < MAX_BFR_SIZES ==> free[i] == [])
      && (forall b :: b in mem && mem[b].inUse == 0 ==> mem[b].sizeIndex < MAX_BFR_SIZES && b in free[mem[b].sizeIndex])
    }

    constructor Attach()
    {
      numSizes, sizes, count, pool, allocCount, mem := 0, [], [], [], 0, map[];
    }

    /** Lays out and links all buffers; the counts are those of consecutive classes. A process that only attaches
        gives none. */
    method Init(minBufferSize: int, maxBufferSize: int, numberOfEachSize: seq<int>) returns (ok: bool)
      requires maxBufferSize > 0 ==> minBufferSize >= 0
      requires maxBufferSize > 0 ==> LongEnough(numberOfEachSize, StartOf(minBufferSize, 0x10), maxBufferSize)
      modifies this
      ensures ok == (maxBufferSize > 0)
      ensures !ok ==> mem == old(mem) && pool == old(pool)
      ensures ok ==> Valid() && allocCount == 0
      ensures ok ==> IsStartSize(StartOf(minBufferSize, 0x10), minBufferSize)
      ensures ok ==> Made(layout, StartOf(minBufferSize, 0x10), maxBufferSize, numberOfEachSize)
      ensures ok ==> forall b :: b in mem <==> exists i, j :: IsBuffer(layout, i, j) && b == Position(layout, i, j)
      ensures ok ==> forall i, j :: IsBuffer(layout, i, j) ==> Written(mem, layout, i, j)
      ensures ok ==> forall i :: 0 <= i < MAX_BFR_SIZES ==>
              pool[i] == if i < |layout.sizes| then Position(layout, i, 0) else 0
      ensures ok ==> free == InitialFree(layout)
    {
      if maxBufferSize <= 0 {
        return false;
      }
      var start := StartSize(minBufferSize);
      var n, szs;
      ghost var l;
      n, szs, l := MakeClasses(start, maxBufferSize, numberOfEachSize);
      numSizes, sizes := n, szs;
      count := seq(MAX_BFR_SIZES, i requires 0 <= i < MAX_BFR_SIZES => if i < n then numberOfEachSize[i] else 0);
      allocCount := 0;
      mem, pool := LinkBuffers(numSizes, sizes, count, l);
      forall i, j | 0 <= i < j < n
        ensures szs[i] <= szs[j]
      {
        Doubling(start, i, j);
      }
      layout, free := l, InitialFree(l);
      InitialPool(mem, pool, l);
      return true;
    }

    lemma HeadIsFree(i: nat)
      requires Valid() && i < MAX_BFR_SIZES && pool[i] != 0
      ensures free[i] != [] && free[i][0] == pool[i] && pool[i] in mem && mem[pool[i]].inUse == 0
    {
      PopKeepsLists(mem, pool, free, i);
      assert pool[i] in free[i];
    }

    /** Unlinks the head of a free list and marks it. */
    method Take(i: nat) returns (b: nat)
      requires Valid() && i < MAX_BFR_SIZES && pool[i] != 0
      modifies `pool, `mem, `free, `allocCount
      ensures Valid()
      ensures old(free)[i] != [] && b == old(free)[i][0] && b in old(mem)
      ensures free == old(free)[i := old(free)[i][1..]]
      ensures mem == old(mem)[b := old(mem)[b].(inUse := 1)]
      ensures allocCount == old(allocCount) + 1
    {
      HeadIsFree(i);
      PopKeepsLists(mem, pool, free, i);
      b := pool[i];
      ghost var mem0, free0 := mem, free;
      pool := pool[i := mem[b].next];
      allocCount := allocCount + 1;
      mem := mem[b := mem[b].(inUse := 1)];
      free := free[i := free[i][1..]];
      Marked(mem0, mem, pool, free, b);
      StillListed(mem0, mem, free0, free, i, b);
    }

    /** The class to serve a request from, or ten. */
    method FindClass(size: int) returns (index: nat)
      requires Valid()
      ensures index <= MAX_BFR_SIZES
      ensures index < MAX_BFR_SIZES ==> Serves(sizes, free, index, size) && pool[index] != 0
      ensures forall k :: k < index ==> !Serves(sizes, free, k, size)
    {
      index := 0;
      while index < MAX_BFR_SIZES && sizes[index] < AsULong(size)
        invariant index <= MAX_BFR_SIZES && forall k :: 0 <= k < index ==> sizes[k] < AsULong(size)
      {
        index := index + 1;
      }
      if index >= MAX_BFR_SIZES {
        return;
      }
      // a class with no free buffer sends the request on to a larger one
      while index < MAX_BFR_SIZES
        invariant index <= MAX_BFR_SIZES
        invariant index < numSizes ==> sizes[index] >= AsULong(size)
        invariant forall k :: k < index ==> !Serves(sizes, free, k, size)
      {
        if sizes[index] == 0 {
          // every class has been looked at
          return MAX_BFR_SIZES;
        }
        assert ListOk(mem, pool[index], index, free[index]);
        if pool[index] != 0 {
          HeadIsFree(index);
          if mem[pool[index]].inUse == 0 {
            return;
          }
        }
        index := index + 1;
      }
    }

    /** Best fit: the first buffer of the first class that can serve the request; the offset is past the header. */
    method Get(size: int) returns (r: Option<nat>)
      requires Valid()
      modifies `pool, `mem, `free, `allocCount
      ensures Valid()
      ensures r == None <==> forall i :: !Serves(sizes, old(free), i, size)
      ensures r == None ==> pool == old(pool) && mem == old(mem) && free == old(free) && allocCount == old(allocCount)
      ensures r.Some? ==> exists i ::
        && Serves(sizes, old(free), i, size) && (forall k :: k < i ==> !Serves(sizes, old(free), k, size))
        && var b := old(free)[i][0];
           && r == Some(b + HDR_SIZE)
           && free == old(free)[i := old(free)[i][1..]]
           && b in old(mem) && mem == old(mem)[b := old(mem)[b].(inUse := 1)]
           && allocCount == old(allocCount) + 1
    {
      var index := FindClass(size);
      if index == MAX_BFR_SIZES {
        return None;
      }
      assert Serves(sizes, old(free), index, size);
      var b := Take(index);
      return Some(b + HDR_SIZE);
    }

    /** Puts a buffer back in front of its class's list; refuses one that is not in use. */
    method Rls(buffer: nat) returns (ok: bool)
      requires Valid() && buffer >= HDR_SIZE && buffer - HDR_SIZE in mem && buffer > HDR_SIZE
      requires mem[buffer - HDR_SIZE].sizeIndex < numSizes
      modifies `pool, `mem, `free
      ensures Valid()
      ensures ok == (old(mem)[buffer - HDR_SIZE].inUse == 1)
      ensures !ok ==> pool == old(pool) && mem == old(mem) && free == old(free)
      ensures ok ==> var b := buffer - HDR_SIZE; var i := old(mem)[b].sizeIndex;
        && free == old(free)[i := [b] + old(free)[i]]
        && mem == old(mem)[b := old(mem)[b].(inUse := 0, next := old(pool)[i])]
    {
      var ptr := buffer - HDR_SIZE;
      if mem[ptr].inUse != 1 {
        return false;
      }
      NotListed(ptr);
      ghost var mem0, free0 := mem, free;
      mem := mem[ptr := mem[ptr].(inUse := 0)];
      Marked(mem0, mem, pool, free, ptr);
      PushKeepsLists(mem, pool, free, ptr);
      var i := mem[ptr].sizeIndex;
      mem := mem[ptr := mem[ptr].(next := pool[i])];
      pool := pool[i := ptr];
      free := free[i := [ptr] + free[i]];
      return true;
    }

    lemma NotListed(b: nat)
      requires Valid() && b in mem && mem[b].inUse != 0
      ensures forall k :: 0 <= k < MAX_BFR_SIZES ==> b !in free[k]
    {
    }

    /** The length of a free list, counted along its links. */
    method GetSizeAvail(sizeIndex: nat) returns (count: nat)
      requires Valid() && sizeIndex < MAX_BFR_SIZES
      ensures count == |free[sizeIndex]|
    {
      assert ListOk(mem, pool[sizeIndex], sizeIndex, free[sizeIndex]);
      if pool[sizeIndex] == 0 {
        return 0;
      }
      count := 1;
      var hdr := pool[sizeIndex];
      ghost var rest := free[sizeIndex];
      while mem[hdr].next != 0
        invariant rest != [] && hdr in mem && Chain(mem, hdr, rest)
        invariant count + |rest| == 1 + |free[sizeIndex]|
        decreases rest
      {
        count := count + 1;
        hdr := mem[hdr].next;
        rest := rest[1..];
      }
    }

    method GetTotal() returns (sum: int)
      requires Valid()
      ensures sum == Sum(layout.counts)
    {
      sum := 0;
      var i := 0;
      while i < numSizes
        invariant i <= numSizes && sum == Sum(layout.counts[..i])
      {
        SumSnoc(layout.counts, i);
        sum := sum + count[i];
        i := i + 1;
      }
      assert layout.counts[..i] == layout.counts;
    }

    method GetAvailable() returns (sum: int)
      requires Valid()
      ensures sum == Sum(Lengths(free))
    {
      sum := 0;
      var i := 0;
      while i < numSizes
        invariant i <= numSizes && sum == Sum(Lengths(free)[..i])
      {
        var avail := GetSizeAvail(i);
        SumSnoc(Lengths(free), i);
        sum := sum + avail;
        i := i + 1;
      }
      SumTail(Lengths(free), i);
    }
  }

  function Sum(s: seq<nat>): nat {
    if s == [] then 0 else s[0] + Sum(s[1..])
  }

  function Lengths(s: seq<seq<nat>>): (r: seq<nat>)
    ensures |r| == |s| && forall i :: 0 <= i < |s| ==> r[i] == |s[i]|
  {
    if s == [] then [] else [|s[0]|] + Lengths(s[1..])
  }

  lemma {:induction false} SumSnoc(s: seq<nat>, i: nat)
    requires i < |s|
    ensures Sum(s[..i + 1]) == Sum(s[..i]) + s[i]
  {
    if i > 0 {
      SumSnoc(s[1..], i - 1);
      assert s[..i + 1][1..] == s[1..][..i] && s[..i][1..] == s[1..][..i - 1];
    }
  }

  lemma {:induction false} SumTail(s: seq<nat>, i: nat)
    requires i <= |s| && forall k :: i <= k < |s| ==> s[k] == 0
    ensures Sum(s[..i]) == Sum(s)
    decreases |s| - i
  {
    if i < |s| {
      SumTail(s, i + 1);
      SumSnoc(s, i);
    } else {
      assert s[..i] == s;
    }
  }

  /** Changing a flag does not disturb the lists. */
  lemma Marked(mem: Memory, mem': Memory, pool: seq<nat>, free: seq<seq<nat>>, b: nat)
    requires ListsOk(mem, pool, free) && b in mem
    requires b in mem' && mem' == mem[b := mem[b].(inUse := mem'[b].inUse)]
    ensures ListsOk(mem', pool, free)
  {
    forall k | 0 <= k < MAX_BFR_SIZES
      ensures ListOk(mem', pool[k], k, free[k])
    {
      assert ListOk(mem, pool[k], k, free[k]);
      ListFrame(mem, mem', pool[k], k, free[k]);
    }
  }

  lemma StillListed(mem: Memory, mem': Memory, free: seq<seq<nat>>, free': seq<seq<nat>>, i: nat, b: nat)
    requires |free| == MAX_BFR_SIZES && i < MAX_BFR_SIZES && free[i] != [] && free[i][0] == b && b in mem
    requires free' == free[i := free[i][1..]] && mem' == mem[b := mem[b].(inUse := 1)]
    requires forall x :: x in mem && mem[x].inUse == 0 ==>
             mem[x].sizeIndex < MAX_BFR_SIZES && x in free[mem[x].sizeIndex]
    ensures forall x :: x in mem' && mem'[x].inUse == 0 ==>
            mem'[x].sizeIndex < MAX_BFR_SIZES && x in free'[mem'[x].sizeIndex]
  {
    assert free[i] == [b] + free[i][1..];
  }

  lemma FirstRead(counts: seq<int>, start: nat, max: int)
    ensures Reads(counts, start, max, 0)
  {
  }

  lemma NextRead(counts: seq<int>, start: nat, max: int, n: nat)
    requires n < MAX_BFR_SIZES && Reads(counts, start, max, n) && Makes(counts, start, max, n)
    ensures n + 1 < MAX_BFR_SIZES ==> Reads(counts, start, max, n + 1)
  {
  }

  /** The class sizes: doubling, ending with the first that reaches max, at a count that is not positive, or after
      ten. */
  method MakeClasses(start: nat, max: int, counts: seq<int>) returns (n: nat, sizes: seq<nat>, ghost l: Layout)
    requires start > 0 && LongEnough(counts, start, max)
    ensures n <= MAX_BFR_SIZES && |sizes| == MAX_BFR_SIZES && Made(l, start, max, counts)
    ensures n == |l.sizes| && (forall i :: 0 <= i < n ==> sizes[i] == l.sizes[i])
    ensures forall i :: n <= i < MAX_BFR_SIZES ==> sizes[i] == 0
  {
    sizes := seq(MAX_BFR_SIZES, _ => 0);
    var size, lastOne := start, false;
    l := Layout([], []);
    n := 0;
    hide ClassSize, Reads;
    ClassSizeStep(start, 0);
    FirstRead(counts, start, max);
    while n < MAX_BFR_SIZES && counts[n] > 0 && !lastOne
      invariant n < MAX_BFR_SIZES ==> lastOne || Reads(counts, start, max, n)
      invariant n <= MAX_BFR_SIZES && n <= |counts| && (n < MAX_BFR_SIZES && lastOne ==> n < |counts|)
                && |sizes| == MAX_BFR_SIZES && |l.sizes| == |l.counts| == n
      invariant size == ClassSize(start, n) && size > 0
      invariant forall i :: 0 <= i < n ==>
                sizes[i] == l.sizes[i] == ClassSize(start, i) && l.sizes[i] > 0 && l.counts[i] == counts[i] > 0
      invariant forall i :: n <= i < MAX_BFR_SIZES ==> sizes[i] == 0
      invariant forall i :: 0 <= i < n - 1 ==> l.sizes[i] < max
      invariant if n == 0 then !lastOne else lastOne == (l.sizes[n - 1] >= max)
    {
      ClassSizeStep(start, n);
      NextRead(counts, start, max, n);
      if size >= max {
        lastOne := true;
      }
      sizes := sizes[n := size];
      l := Layout(l.sizes + [size], l.counts + [counts[n]]);
      size := size * 2;
      n := n + 1;
    }
  }

  /** Writes every header; class by class, each buffer linked to the next one. */
  method LinkBuffers(n: nat, sizes: seq<nat>, count: seq<int>, ghost l: Layout) returns (mem: Memory, pool: seq<nat>)
    requires Proper(l) && n == |l.sizes| && |sizes| == |count| == MAX_BFR_SIZES
    requires forall i :: 0 <= i < n ==> sizes[i] == l.sizes[i] && count[i] == l.counts[i]
    requires forall i :: n <= i < MAX_BFR_SIZES ==> sizes[i] == 0
    ensures |pool| == MAX_BFR_SIZES
    ensures forall i :: 0 <= i < MAX_BFR_SIZES ==> pool[i] == if i < n then Position(l, i, 0) else 0
    ensures forall i, j :: IsBuffer(l, i, j) ==> Written(mem, l, i, j)
    ensures forall b :: b in mem ==> exists i, j :: IsBuffer(l, i, j) && b == Position(l, i, j)
  {
    mem, pool := map[], seq(MAX_BFR_SIZES, _ => 0);
    var tempInt := SHARE_SIZE;
    var i := 0;
    while i < MAX_BFR_SIZES && sizes[i] != 0
      invariant i <= n && |pool| == MAX_BFR_SIZES
      invariant tempInt == if i == 0 then SHARE_SIZE else Base(l, i - 1)
      invariant forall k :: 0 <= k < MAX_BFR_SIZES ==> pool[k] == if k < i then Position(l, k, 0) else 0
      invariant forall k, j :: k < i && IsBuffer(l, k, j) ==> Written(mem, l, k, j)
      invariant forall b :: b in mem ==> exists k, j :: IsBuffer(l, k, j) && b == Position(l, k, j)
    {
      if i != 0 {
        tempInt := tempInt + (sizes[i - 1] + HDR_SIZE) * count[i - 1];
      }
      assert tempInt == Base(l, i) == Position(l, i, 0);
      pool := pool[i := tempInt];
      mem := LinkClass(i, tempInt, sizes[i], count[i], mem, l);
      i := i + 1;
    }
  }

  method LinkClass(i: nat, base: nat, size: nat, count: nat, mem0: Memory, ghost l: Layout) returns (mem: Memory)
    requires Proper(l) && i < |l.sizes| && base == Base(l, i) && size == l.sizes[i] && count == l.counts[i]
    requires forall b :: b in mem0 ==> exists k, j :: IsBuffer(l, k, j) && b == Position(l, k, j)
    ensures forall j :: IsBuffer(l, i, j) ==> Written(mem, l, i, j)
    ensures forall k, j :: k != i && IsBuffer(l, k, j) && Written(mem0, l, k, j) ==> Written(mem, l, k, j)
    ensures forall b :: b in mem ==> exists k, j :: IsBuffer(l, k, j) && b == Position(l, k, j)
  {
    mem := mem0;
    var j := 0;
    while j < count
      invariant j <= count
      invariant forall k :: 0 <= k < j ==> Written(mem, l, i, k)
      invariant forall k, j' :: k != i && IsBuffer(l, k, j') && Written(mem0, l, k, j') ==> Written(mem, l, k, j')
      invariant forall b :: b in mem ==> exists k, j' :: IsBuffer(l, k, j') && b == Position(l, k, j')
    {
      var hdr := base + j * (HDR_SIZE + size);
      assert hdr == Position(l, i, j) && IsBuffer(l, i, j);
      ghost var before := mem;
      mem := mem[hdr := Hdr(if j == count - 1 then 0 else base + (j + 1) * (HDR_SIZE + size), i, 0)];
      forall k, j' | IsBuffer(l, k, j') && (k, j') != (i, j) && Written(before, l, k, j')
        ensures Written(mem, l, k, j')
      {
        Disjoint(l, i, j, k, j');
      }
      j := j + 1;
    }
  }

  /** The first power of two from 16 up that is at least min. */
  method StartSize(min: int) returns (size: nat)
    requires min >= 0
    ensures IsStartSize(size, min) && size == StartOf(min, 0x10)
  {
    size := 0x10;
    ghost var k: nat := 0;
    assert Pow2(0) == 1;
    while size < min
      invariant size == 16 * Pow2(k) && size > 0
      invariant size == 16 || size / 2 < min
      invariant StartOf(min, size) == StartOf(min, 0x10)
      decreases min - size
    {
      size := size * 2;
      k := k + 1;
    }
  }
}
