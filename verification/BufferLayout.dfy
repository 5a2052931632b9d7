/** Where the buffers lie in the shared segment: class sizes, class regions and buffer positions. */
module BufferLayout {
  import opened Powers

  const MAX_BFR_SIZES: nat := 10
  /** sizeof (BFR_HDR): a 32-bit link and two 16-bit fields, packed. */
  const HDR_SIZE: nat := 8
  /** sizeof (BUFFER_SHARE) with 64-bit longs. */
  const SHARE_SIZE: nat := 176

  /** The classes in use: sizes of the class buffers and how many there are of each. */
  datatype Layout = Layout(sizes: seq<nat>, counts: seq<nat>)

  ghost predicate Proper(l: Layout) {
    && |l.sizes| == |l.counts| <= MAX_BFR_SIZES
    && (forall i :: 0 <= i < |l.sizes| ==> l.sizes[i] > 0 && l.counts[i] > 0)
  }

  /** What one buffer of class i takes, header included. */
  function Stride(l: Layout, i: nat): nat
    requires i < |l.sizes|
  {
    l.sizes[i] + HDR_SIZE
  }

  /** Where class i starts; for i past the last class, where the segment ends. */
  function Base(l: Layout, i: nat): nat
    requires |l.sizes| == |l.counts| && i <= |l.sizes|
  {
    if i == 0 then SHARE_SIZE else Base(l, i - 1) + Stride(l, i - 1) * l.counts[i - 1]
  }

  function SegmentSize(l: Layout): nat
    requires |l.sizes| == |l.counts|
  {
    Base(l, |l.sizes|)
  }

  /** Where buffer j of class i lies. */
  function Position(l: Layout, i: nat, j: nat): nat
    requires |l.sizes| == |l.counts| && i < |l.sizes|
  {
    Base(l, i) + j * Stride(l, i)
  }

  predicate IsBuffer(l: Layout, i: int, j: int)
    requires |l.sizes| == |l.counts|
  {
    0 <= i < |l.sizes| && 0 <= j < l.counts[i]
  }

  lemma Monotone(a: nat, b: nat, c: nat)
    requires a <= b
    ensures a * c <= b * c
  {
  }

  lemma {:induction false} BasesGrow(l: Layout, i: nat, i': nat)
    requires Proper(l) && i <= i' <= |l.sizes|
    ensures SHARE_SIZE <= Base(l, i) <= Base(l, i')
    decreases i'
  {
    if i < i' {
      BasesGrow(l, i, i' - 1);
    } else if i > 0 {
      BasesGrow(l, i - 1, i - 1);
    }
  }

  /** A buffer ends within its class's region. */
  lemma WithinClass(l: Layout, i: nat, j: nat)
    requires Proper(l) && IsBuffer(l, i, j)
    ensures Base(l, i) <= Position(l, i, j)
    ensures Position(l, i, j) + Stride(l, i) <= Base(l, i + 1)
  {
    Monotone(j + 1, l.counts[i], Stride(l, i));
    assert (j + 1) * Stride(l, i) == j * Stride(l, i) + Stride(l, i);
    assert Stride(l, i) * l.counts[i] == l.counts[i] * Stride(l, i);
  }

  /** Every buffer lies after the share header and inside the segment. */
  lemma WithinSegment(l: Layout, i: nat, j: nat)
    requires Proper(l) && IsBuffer(l, i, j)
    ensures 176 <= Position(l, i, j)
    ensures Position(l, i, j) + (8 + l.sizes[i]) <= SegmentSize(l)
  {
    WithinClass(l, i, j);
    BasesGrow(l, 0, i);
    BasesGrow(l, i + 1, |l.sizes|);
  }

  /** Different buffers, each with its header of 8 bytes and all the room of its class, do not overlap. */
  lemma Disjoint(l: Layout, i: nat, j: nat, i': nat, j': nat)
    requires Proper(l) && IsBuffer(l, i, j) && IsBuffer(l, i', j') && (i, j) != (i', j')
    ensures Position(l, i, j) + (8 + l.sizes[i]) <= Position(l, i', j')
         || Position(l, i', j') + (8 + l.sizes[i']) <= Position(l, i, j)
  {
    if i < i' {
      WithinClass(l, i, j);
      WithinClass(l, i', j');
      BasesGrow(l, i + 1, i');
    } else if i' < i {
      WithinClass(l, i', j');
      WithinClass(l, i, j);
      BasesGrow(l, i' + 1, i);
    } else if j < j' {
      SameClass(Base(l, i), j, j', Stride(l, i));
    } else {
      SameClass(Base(l, i), j', j, Stride(l, i));
    }
  }

  /** Nor is there a gap: buffers follow one another behind the share header, class by class, up to the end. */
  lemma PackedTight(l: Layout, i: nat, j: nat)
    requires Proper(l) && IsBuffer(l, i, j)
    ensures (i, j) == (0, 0) ==> Position(l, i, j) == 176
    ensures j + 1 < l.counts[i] ==> Position(l, i, j + 1) == Position(l, i, j) + (8 + l.sizes[i])
    ensures j + 1 == l.counts[i] && i + 1 < |l.sizes| ==> Position(l, i + 1, 0) == Position(l, i, j) + (8 + l.sizes[i])
    ensures j + 1 == l.counts[i] && i + 1 == |l.sizes| ==> SegmentSize(l) == Position(l, i, j) + (8 + l.sizes[i])
  {
    var stride := Stride(l, i);
    assert (j + 1) * stride == j * stride + stride;
    assert stride * l.counts[i] == l.counts[i] * stride;
  }

  lemma SameClass(base: nat, j: nat, j': nat, stride: nat)
    requires j < j'
    ensures base + j * stride + stride <= base + j' * stride
  {
    Monotone(j + 1, j', stride);
    assert (j + 1) * stride == j * stride + stride;
  }

  // ----- which classes there are

  function ClassSize(start: nat, i: nat): nat { start * Pow2(i) }

  lemma ClassSizeStep(start: nat, i: nat)
    ensures ClassSize(start, 0) == start && ClassSize(start, i + 1) == 2 * ClassSize(start, i)
  {
    Pow2Step(i);
    assert start * (2 * Pow2(i)) == 2 * (start * Pow2(i));
  }

  lemma {:induction false} Doubling(start: nat, i: nat, j: nat)
    requires i <= j
    ensures ClassSize(start, i) <= ClassSize(start, j)
    decreases j
  {
    if i < j {
      Doubling(start, i, j - 1);
      ClassSizeStep(start, j - 1);
    }
  }

  /** The first of 16, 32, 64, ... that is at least min. */
  ghost predicate IsStartSize(size: nat, min: int) {
    && (exists k: nat :: size == 16 * Pow2(k))
    && size >= min && (size == 16 || size / 2 < min)
  }

  function StartOf(min: int, from: nat): (size: nat)
    requires from > 0
    ensures size > 0
    decreases min - from
  {
    if from < min then StartOf(min, 2 * from) else from
  }

  /** The search for the first size doubles an unsigned 64-bit number. */
  function Doubled(k: nat): nat {
    if k == 0 then 0x10 else Doubled(k - 1) * 2 % 0x1_0000_0000_0000_0000
  }

  lemma Pow2Of59()
    ensures Pow2(59) == 0x800_0000_0000_0000
  {
    Pow2Adds(30, 29);
    Pow2Adds(15, 15);
    Pow2Adds(15, 14);
    assert Pow2(15) == 0x8000 && Pow2(14) == 0x4000;
  }

  lemma Wraps(x: nat)
    requires x <= 0x1_0000_0000_0000_0000
    ensures x % 0x1_0000_0000_0000_0000 == if x < 0x1_0000_0000_0000_0000 then x else 0
  {
  }

  lemma {:induction false} DoubledMeans(k: nat)
    ensures Doubled(k) == if k < 60 then 16 * Pow2(k) else 0
  {
    hide Pow2;
    Pow2Step(k);
    if k > 0 {
      DoubledMeans(k - 1);
      Pow2Step(k - 1);
      Pow2Of59();
      if k <= 60 {
        Pow2Monotone(k - 1, 59);
        if k < 60 {
          Pow2Monotone(k, 59);
        }
        Wraps(Doubled(k - 1) * 2);
      }
    }
  }

  /** A smallest size asked for, an int, is compared as an unsigned number. */
  function Unsigned(min: int): int {
    if min < 0 then min + 0x1_0000_0000_0000_0000 else min
  }

  /** The search ends exactly if the smallest size asked for is not negative. */
  lemma SearchEndsIff(min: int)
    requires -0x8000_0000 <= min < 0x8000_0000
    ensures (exists k: nat :: Doubled(k) >= Unsigned(min)) <==> min >= 0
  {
    hide Doubled, Pow2;
    if min >= 0 {
      LargeEnough();
      assert Doubled(27) >= Unsigned(min);
    } else {
      forall k: nat
        ensures Doubled(k) < Unsigned(min)
      {
        DoubledMeans(k);
        Pow2Of59();
        if k < 60 {
          Pow2Monotone(k, 59);
        }
      }
    }
  }

  lemma LargeEnough()
    ensures Doubled(27) == 0x8000_0000
  {
    DoubledMeans(27);
    Pow2Adds(15, 12);
    assert Pow2(15) == 0x8000 && Pow2(12) == 0x1000;
  }

  /** The classes an initialization makes: doubling sizes, up to ten, ending at the first count that is
      not positive or with the first size that reaches the largest size asked for. */
  ghost predicate Made(l: Layout, start: nat, max: int, counts: seq<int>) {
    var n := |l.sizes|;
    && Proper(l) && n <= |counts|
    && (forall i :: 0 <= i < n ==> l.sizes[i] == ClassSize(start, i) && l.counts[i] == counts[i])
    && (forall i :: 0 <= i < n - 1 ==> l.sizes[i] < max)
    && (n == MAX_BFR_SIZES || (n > 0 && l.sizes[n - 1] >= max) || (n < |counts| && counts[n] <= 0))
  }

  // ----- how far the array of counts is read

  /** Whether class i is made, once those before it are. */
  predicate Makes(counts: seq<int>, start: nat, max: int, i: nat) {
    i < |counts| && counts[i] > 0 && (i > 0 ==> ClassSize(start, i - 1) < max)
  }

  /** Whether count i is read: it is looked at before it is asked whether the last class was the largest. */
  ghost predicate Reads(counts: seq<int>, start: nat, max: int, i: nat) {
    i < MAX_BFR_SIZES && forall j :: 0 <= j < i ==> Makes(counts, start, max, j)
  }

  ghost predicate LongEnough(counts: seq<int>, start: nat, max: int) {
    forall i: nat :: Reads(counts, start, max, i) ==> i < |counts|
  }

  /** The array is long enough exactly if it has ten counts, or a count that is not positive, or a count more than
      there are classes up to the largest size. */
  lemma LongEnoughIff(counts: seq<int>, start: nat, max: int)
    ensures LongEnough(counts, start, max) <==>
              || |counts| >= MAX_BFR_SIZES
              || (exists i :: 0 <= i < |counts| && counts[i] <= 0)
              || (exists i :: 0 <= i < |counts| - 1 && ClassSize(start, i) >= max)
  {
    hide ClassSize;
    var n := |counts|;
    if j: nat :| j < n && !Makes(counts, start, max, j) {
      assert forall i: nat :: Reads(counts, start, max, i) ==> i <= j;
      assert counts[j] <= 0 || (j > 0 && ClassSize(start, j - 1) >= max);
    } else {
      forall i | 0 <= i < n
        ensures counts[i] > 0 && (i < n - 1 ==> ClassSize(start, i) < max)
      {
        assert Makes(counts, start, max, i);
        assert i < n - 1 ==> Makes(counts, start, max, i + 1);
      }
      assert n < MAX_BFR_SIZES ==> Reads(counts, start, max, n);
    }
  }

  /** The library's default array, which ends in 0, is long enough. */
  lemma DefaultCountsReach(counts: seq<int>, max: int)
    requires |counts| == 9 && counts[8] == 0
    ensures LongEnough(counts, 64, max)
  {
    LongEnoughIff(counts, 64, max);
  }

  /** An array of eight positive counts for the sizes from 64 to 8192 is read at its ninth place. */
  lemma EightCountsTooFew(counts: seq<int>)
    requires |counts| == 8 && forall i :: 0 <= i < 8 ==> counts[i] > 0
    ensures Reads(counts, 64, 8192, 8) && !LongEnough(counts, 64, 8192)
  {
    forall j | 0 <= j < 8
      ensures Makes(counts, 64, 8192, j)
    {
      if j > 0 {
        Doubling(64, j - 1, 6);
        assert Pow2(6) == 64;
      }
    }
    assert Reads(counts, 64, 8192, 8);
  }
}
