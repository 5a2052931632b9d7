/** Red-black trees as values, and zippers: a position in a tree is a context (the nodes above,
    innermost first, each with its other subtree) and the subtree at the position.  A node carries
    an identity, so that a tree value can also say which memory cell holds it. */
module RedBlack {
  import opened Powers
  import opened SearchText

  datatype Item<I> = Item(id: I, key: Key, ord: int)

  datatype Tree<I> = Leaf | Node(item: Item<I>, red: bool, left: Tree<I>, right: Tree<I>)

  datatype Ctx<I> = Top | Frame(up: Ctx<I>, item: Item<I>, red: bool, dir: bool, sib: Tree<I>)

  // ----- building blocks; a direction is false for link[0] and true for link[1]

  function Mk<I>(item: Item<I>, red: bool, dir: bool, near: Tree<I>, far: Tree<I>): Tree<I> {
    if dir then Node(item, red, far, near) else Node(item, red, near, far)
  }

  function Child<I>(t: Tree<I>, dir: bool): Tree<I>
    requires t.Node?
  {
    if dir then t.right else t.left
  }

  predicate Red<I>(t: Tree<I>) {
    t.Node? && t.red
  }

  function Paint<I>(t: Tree<I>, red: bool): Tree<I> {
    if t.Node? then t.(red := red) else t
  }

  function Plug<I>(c: Ctx<I>, t: Tree<I>): Tree<I> {
    match c
    case Top => t
    case Frame(up, item, red, dir, sib) => Plug(up, Mk(item, red, dir, t, sib))
  }

  /** The position one step down from the root of t. */
  function Down<I>(c: Ctx<I>, t: Tree<I>, dir: bool): Ctx<I>
    requires t.Node?
  {
    Frame(c, t.item, t.red, dir, Child(t, !dir))
  }

  // ----- what a tree means: its items in order

  function InOrder<I>(t: Tree<I>): seq<Item<I>> {
    match t
    case Leaf => []
    case Node(item, _, l, r) => InOrder(l) + [item] + InOrder(r)
  }

  function Before<I>(c: Ctx<I>): seq<Item<I>> {
    match c
    case Top => []
    case Frame(up, item, _, dir, sib) => if dir then Before(up) + InOrder(sib) + [item] else Before(up)
  }

  function After<I>(c: Ctx<I>): seq<Item<I>> {
    match c
    case Top => []
    case Frame(up, item, _, dir, sib) => if dir then After(up) else [item] + InOrder(sib) + After(up)
  }

  lemma TopOrder<I>(t: Tree<I>)
    ensures Before<I>(Top) + InOrder(t) + After<I>(Top) == InOrder(t)
  {
  }

  lemma FrameInOrder<I>(up: Ctx<I>, item: Item<I>, red: bool, dir: bool, sib: Tree<I>, t: Tree<I>)
    ensures Before(up) + InOrder(Mk(item, red, dir, t, sib)) + After(up)
         == Before(Frame(up, item, red, dir, sib)) + InOrder(t) + After(Frame(up, item, red, dir, sib))
  {
    var b, a, s, i := Before(up), After(up), InOrder(sib), InOrder(t);
    if dir {
      assert b + (s + [item] + i) + a == (b + s + [item]) + i + a;
    } else {
      assert b + (i + [item] + s) + a == b + i + ([item] + s + a);
    }
  }

  lemma {:induction false} PlugInOrder<I>(c: Ctx<I>, t: Tree<I>)
    ensures InOrder(Plug(c, t)) == Before(c) + InOrder(t) + After(c)
    decreases c
  {
    match c
    case Top =>
    case Frame(up, item, red, dir, sib) =>
      PlugInOrder(up, Mk(item, red, dir, t, sib));
      FrameInOrder(up, item, red, dir, sib, t);
  }

  lemma DownKeepsOrder<I>(c: Ctx<I>, t: Tree<I>, dir: bool)
    requires t.Node?
    ensures Before(Down(c, t, dir)) + InOrder(Child(t, dir)) + After(Down(c, t, dir))
            == Before(c) + InOrder(t) + After(c)
  {
    if dir {
      Regroup(Before(c), InOrder(t.left) + [t.item], InOrder(t.right), After(c));
      assert Before(c) + (InOrder(t.left) + [t.item]) == Before(Down(c, t, dir));
    } else {
      Regroup(Before(c), InOrder(t.left), [t.item] + InOrder(t.right), After(c));
      assert InOrder(t.left) + ([t.item] + InOrder(t.right)) == InOrder(t);
      assert ([t.item] + InOrder(t.right)) + After(c) == After(Down(c, t, dir));
    }
  }

  lemma Regroup<T>(a: seq<T>, b: seq<T>, c: seq<T>, d: seq<T>)
    ensures a + (b + c) + d == (a + b) + c + d == a + b + (c + d)
  {
  }

  ghost predicate Sorted<I>(s: seq<Item<I>>) {
    forall i, j :: 0 <= i < j < |s| ==> Below(s[i].key, s[j].key)
  }

  /** The finite map an item sequence stands for. */
  function ToMap<I>(s: seq<Item<I>>): map<Key, int> {
    if s == [] then map[] else ToMap(s[1..])[s[0].key := s[0].ord]
  }

  lemma {:induction false} ToMapConcat<I>(a: seq<Item<I>>, b: seq<Item<I>>)
    ensures ToMap(a + b) == ToMap(b) + ToMap(a)
  {
    if a == [] {
      assert a + b == b;
    } else {
      assert (a + b)[1..] == a[1..] + b;
      ToMapConcat(a[1..], b);
    }
  }

  lemma {:induction false} ToMapDomain<I>(s: seq<Item<I>>, k: Key)
    ensures k in ToMap(s) ==> exists i :: 0 <= i < |s| && s[i].key == k
  {
    if s != [] && k in ToMap(s) && s[0].key != k {
      ToMapDomain(s[1..], k);
      var i :| 0 <= i < |s| - 1 && s[1..][i].key == k;
      assert s[i + 1].key == k;
    }
  }

  lemma {:induction false} ToMapAt<I>(s: seq<Item<I>>, i: nat)
    requires Sorted(s) && i < |s|
    ensures s[i].key in ToMap(s) && ToMap(s)[s[i].key] == s[i].ord
  {
    if i > 0 {
      ToMapAt(s[1..], i - 1);
      BelowTotal(s[0].key, s[i].key);
    }
  }

  lemma SortedWithout<I>(a: seq<Item<I>>, x: Item<I>, b: seq<Item<I>>)
    requires Sorted(a + [x] + b)
    ensures Sorted(a + b)
    ensures forall i :: 0 <= i < |a + b| ==> (a + b)[i].key != x.key
  {
    var s, r := a + [x] + b, a + b;
    forall i | 0 <= i < |r|
      ensures r[i].key != x.key
      ensures forall j :: i < j < |r| ==> Below(r[i].key, r[j].key)
    {
      var i' := if i < |a| then i else i + 1;
      assert s[i'] == r[i] && s[|a|] == x;
      BelowTotal(r[i].key, x.key);
      BelowTotal(x.key, r[i].key);
      forall j | i < j < |r|
        ensures Below(r[i].key, r[j].key)
      {
        assert s[if j < |a| then j else j + 1] == r[j];
      }
    }
  }

  /** Adding one item in its place adds exactly one binding, taking it away removes exactly one. */
  lemma ToMapFirst<I>(x: Item<I>, b: seq<Item<I>>)
    ensures ToMap([x] + b) == ToMap(b)[x.key := x.ord]
  {
    assert ([x] + b)[1..] == b;
  }

  lemma ToMapOneMore<I>(a: seq<Item<I>>, x: Item<I>, b: seq<Item<I>>)
    requires Sorted(a + [x] + b)
    ensures Sorted(a + b)
    ensures ToMap(a + [x] + b) == ToMap(a + b)[x.key := x.ord]
    ensures ToMap(a + b) == ToMap(a + [x] + b) - {x.key}
  {
    hide ToMap;
    SortedWithout(a, x, b);
    assert x.key !in ToMap(a) && x.key !in ToMap(b) by {
      assert forall i :: 0 <= i < |a| ==> (a + b)[i] == a[i];
      assert forall i :: 0 <= i < |b| ==> (a + b)[|a| + i] == b[i];
      ToMapDomain(a, x.key);
      ToMapDomain(b, x.key);
    }
    ToMapConcat(a, b);
    assert a + [x] + b == a + ([x] + b);
    ToMapConcat(a, [x] + b);
    ToMapFirst(x, b);
  }

  /** A key strictly between two halves goes in the middle. */
  lemma SortedWith<I>(a: seq<Item<I>>, x: Item<I>, b: seq<Item<I>>)
    requires Sorted(a + b)
    requires forall i :: 0 <= i < |a| ==> Below(a[i].key, x.key)
    requires forall i :: 0 <= i < |b| ==> Below(x.key, b[i].key)
    ensures Sorted(a + [x] + b)
  {
    var s, r := a + [x] + b, a + b;
    forall i, j | 0 <= i < j < |s|
      ensures Below(s[i].key, s[j].key)
    {
      if i != |a| && j != |a| {
        assert s[i] == r[if i < |a| then i else i - 1];
        assert s[j] == r[if j < |a| then j else j - 1];
      }
    }
  }

  /** Every node above a position lies on the side of k that leads here. */
  predicate Brackets<I>(c: Ctx<I>, k: Key) {
    c.Frame? ==>
      && (if c.dir then Below(c.item.key, k) else Below(k, c.item.key))
      && Brackets(c.up, k)
  }

  /** Hence so does everything before and after the position. */
  lemma {:induction false} BracketsMean<I>(c: Ctx<I>, k: Key)
    requires Brackets(c, k) && Sorted(Before(c)) && Sorted(After(c))
    ensures forall i :: 0 <= i < |Before(c)| ==> Below(Before(c)[i].key, k)
    ensures forall i :: 0 <= i < |After(c)| ==> Below(k, After(c)[i].key)
  {
    if c.Frame? {
      if c.dir {
        var b := Before(c);
        assert b[|b| - 1] == c.item;
        assert Before(c.up) == b[..|Before(c.up)|];
        BracketsMean(c.up, k);
        forall i | 0 <= i < |b| - 1 ensures Below(b[i].key, k) {
          BelowTransitive(b[i].key, c.item.key, k);
        }
      } else {
        var a := After(c);
        assert a[0] == c.item;
        assert After(c.up) == a[|a| - |After(c.up)|..];
        BracketsMean(c.up, k);
        forall i | 0 < i < |a| ensures Below(k, a[i].key) {
          BelowTransitive(k, c.item.key, a[i].key);
        }
      }
    }
  }

  lemma SortedHalves<I>(a: seq<Item<I>>, m: seq<Item<I>>, b: seq<Item<I>>)
    requires Sorted(a + m + b)
    ensures Sorted(a) && Sorted(b)
  {
    var s := a + m + b;
    assert forall i :: 0 <= i < |a| ==> a[i] == s[i];
    assert forall i :: 0 <= i < |b| ==> b[i] == s[|a| + |m| + i];
  }

  // ----- the red-black rules, with the black height as a parameter

  predicate RB<I>(t: Tree<I>, h: nat) {
    match t
    case Leaf => h == 0
    case Node(_, red, l, r) =>
      if red then RB(l, h) && RB(r, h) && !Red(l) && !Red(r)
      else h > 0 && RB(l, h - 1) && RB(r, h - 1)
  }

  /** A subtree of black height h, with a red root only if childRed, completes c to a tree obeying the rules. */
  predicate RBCtx<I>(c: Ctx<I>, h: nat, childRed: bool) {
    match c
    case Top => true
    case Frame(up, _, red, _, sib) =>
      RB(sib, h) && (red ==> !childRed && !Red(sib)) && RBCtx(up, if red then h else h + 1, red)
  }

  function TopHeight<I>(c: Ctx<I>, h: nat): nat {
    match c
    case Top => h
    case Frame(up, _, red, _, _) => TopHeight(up, if red then h else h + 1)
  }

  lemma {:induction false} PlugRB<I>(c: Ctx<I>, t: Tree<I>, h: nat)
    requires RB(t, h) && RBCtx(c, h, Red(t))
    ensures RB(Plug(c, t), TopHeight(c, h))
    decreases c
  {
    match c
    case Top =>
    case Frame(up, item, red, dir, sib) =>
      PlugRB(up, Mk(item, red, dir, t, sib), if red then h else h + 1);
  }

  function BlackHeight<I>(t: Tree<I>): nat {
    match t
    case Leaf => 0
    case Node(_, red, l, _) => BlackHeight(l) + if red then 0 else 1
  }

  lemma {:induction false} HeightUnique<I>(t: Tree<I>, h: nat)
    requires RB(t, h)
    ensures h == BlackHeight(t)
  {
    match t
    case Leaf =>
    case Node(_, red, l, _) => HeightUnique(l, if red then h else h - 1);
  }

  /** A red-black tree as it is between calls: black root, all rules. */
  predicate WellColored<I>(t: Tree<I>) {
    !Red(t) && RB(t, BlackHeight(t))
  }

  lemma PaintedBlack<I>(t: Tree<I>, h: nat)
    requires RB(t, h)
    ensures WellColored(Paint(t, false)) && InOrder(Paint(t, false)) == InOrder(t)
  {
    if t.Node? {
      HeightUnique(t, h);
      assert RB(t.(red := false), if t.red then h + 1 else h);
      HeightUnique(t.(red := false), if t.red then h + 1 else h);
    }
  }

  /** The subtree t at position c obeys the rules, and so does everything around it. */
  predicate Rules<I>(c: Ctx<I>, t: Tree<I>) {
    RB(t, BlackHeight(t)) && RBCtx(c, BlackHeight(t), Red(t))
  }

  // ----- rotations

  function RotateSingle<I>(t: Tree<I>, dir: bool): Tree<I>
    requires t.Node? && Child(t, !dir).Node?
  {
    var save := Child(t, !dir);
    Mk(save.item, false, dir, Mk(t.item, true, dir, Child(t, dir), Child(save, dir)), Child(save, !dir))
  }

  function RotateDouble<I>(t: Tree<I>, dir: bool): Tree<I>
    requires t.Node? && Child(t, !dir).Node? && Child(Child(t, !dir), dir).Node?
  {
    RotateSingle(Mk(t.item, t.red, dir, Child(t, dir), RotateSingle(Child(t, !dir), !dir)), dir)
  }

  lemma RotateSingleKeepsOrder<I>(t: Tree<I>, dir: bool)
    requires t.Node? && Child(t, !dir).Node?
    ensures InOrder(RotateSingle(t, dir)) == InOrder(t)
  {
    var save := Child(t, !dir);
    if dir {
      assert InOrder(t) == InOrder(save.left) + [save.item] + InOrder(save.right) + [t.item] + InOrder(t.right);
      assert InOrder(RotateSingle(t, dir)) == InOrder(save.left) + [save.item]
             + (InOrder(save.right) + [t.item] + InOrder(t.right));
    } else {
      assert InOrder(t) == InOrder(t.left) + [t.item] + (InOrder(save.left) + [save.item] + InOrder(save.right));
      assert InOrder(RotateSingle(t, dir)) == (InOrder(t.left) + [t.item] + InOrder(save.left)) + [save.item]
             + InOrder(save.right);
    }
  }

  lemma RotateDoubleKeepsOrder<I>(t: Tree<I>, dir: bool)
    requires t.Node? && Child(t, !dir).Node? && Child(Child(t, !dir), dir).Node?
    ensures InOrder(RotateDouble(t, dir)) == InOrder(t)
  {
    RotateSingleKeepsOrder(Child(t, !dir), !dir);
    RotateSingleKeepsOrder(Mk(t.item, t.red, dir, Child(t, dir), RotateSingle(Child(t, !dir), !dir)), dir);
  }

  // ----- search paths are short

  /** Nodes on the search path for k. */
  function PathLength<I>(t: Tree<I>, k: Key): nat {
    if t.Leaf? then 0
    else if t.item.key == k then 1
    else 1 + PathLength(Child(t, Below(t.item.key, k)), k)
  }

  lemma {:induction false} PathWithinHeight<I>(t: Tree<I>, h: nat, k: Key)
    requires RB(t, h)
    ensures PathLength(t, k) <= 2 * h + if Red(t) then 1 else 0
  {
    if t.Node? && t.item.key != k {
      PathWithinHeight(Child(t, Below(t.item.key, k)), if t.red then h else h - 1, k);
    }
  }

  lemma {:induction false} HeightWithinSize<I>(t: Tree<I>, h: nat)
    requires RB(t, h)
    ensures Pow2(h) <= |InOrder(t)| + 1
  {
    if t.Node? {
      HeightWithinSize(t.left, if t.red then h else h - 1);
      HeightWithinSize(t.right, if t.red then h else h - 1);
    }
  }

  /** A search path has at most 2 * log2(n + 1) nodes. */
  lemma PathIsLogarithmic<I>(t: Tree<I>, k: Key)
    requires WellColored(t)
    ensures Pow2(PathLength(t, k)) <= (|InOrder(t)| + 1) * (|InOrder(t)| + 1)
  {
    var h, n, len := BlackHeight(t), |InOrder(t)| + 1, PathLength(t, k);
    PathWithinHeight(t, h, k);
    HeightWithinSize(t, h);
    LogarithmBound(len, h, n);
  }

  lemma LogarithmBound(len: nat, h: nat, n: nat)
    requires len <= 2 * h && Pow2(h) <= n
    ensures Pow2(len) <= n * n
  {
    Pow2Monotone(len, h + h);
    Pow2Adds(h, h);
    Squares(Pow2(h), n);
  }

  lemma Squares(a: nat, b: nat)
    requires a <= b
    ensures a * a <= b * b
  {
    assert a * a <= a * b <= b * b;
  }

  // ----- the local checks of the debugging walk

  predicate LocallyOrdered<I>(t: Tree<I>) {
    t.Node? ==>
      && (t.left.Node? ==> Below(t.left.item.key, t.item.key))
      && (t.right.Node? ==> Below(t.item.key, t.right.item.key))
      && LocallyOrdered(t.left) && LocallyOrdered(t.right)
  }

  lemma {:induction false} SortedIsLocallyOrdered<I>(t: Tree<I>)
    requires Sorted(InOrder(t))
    ensures LocallyOrdered(t)
  {
    if t.Node? {
      var l, r, s := InOrder(t.left), InOrder(t.right), InOrder(t);
      SortedHalves(l, [t.item], r);
      assert s[|l|] == t.item;
      if t.left.Node? {
        assert s[|InOrder(t.left.left)|] == t.left.item;
      }
      if t.right.Node? {
        assert s[|l| + 1 + |InOrder(t.right.left)|] == t.right.item;
      }
      SortedIsLocallyOrdered(t.left);
      SortedIsLocallyOrdered(t.right);
    }
  }
}
