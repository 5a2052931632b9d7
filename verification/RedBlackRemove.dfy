/** The top-down removal as steps of a zipper: a red node is pushed down ahead of the walk, so that
    the node unlinked at the bottom is red, and the predecessor's data moves to the node found. */
module RedBlackRemove {
  import opened SearchText
  import opened RedBlack

  /** What holds at a visited node, with dir the way on: the red has been pushed down this far. */
  predicate Pushed<I>(c: Ctx<I>, t: Tree<I>, dir: bool) {
    && t.Node? && Rules(c, t)
    && (Red(t) || Red(Child(t, dir)) || (c.Top? && !Red(t.left) && !Red(t.right)))
  }

  /** What holds on arriving at a node. */
  predicate Pushable<I>(c: Ctx<I>, t: Tree<I>) {
    && t.Node? && Rules(c, t)
    && (Red(t) || c.Top? || c.red || (c.up.Top? && !Red(c.sib)))
  }

  datatype PushCase = Stay | Rotate | ColorFlip | SiblingDouble | SiblingSingle

  function CaseOf<I>(c: Ctx<I>, t: Tree<I>, dir: bool): PushCase
    requires t.Node?
  {
    if Red(t) || Red(Child(t, dir)) then Stay
    else if Red(Child(t, !dir)) then Rotate
    else if c.Top? || c.sib.Leaf? then Stay
    else if !Red(c.sib.left) && !Red(c.sib.right) then ColorFlip
    else if Red(Child(c.sib, c.dir)) then SiblingDouble
    else SiblingSingle
  }

  /** The position after the red has been pushed down: the visited node, further down or painted red. */
  function Push<I>(c: Ctx<I>, t: Tree<I>, dir: bool): (Ctx<I>, Tree<I>)
    requires t.Node?
  {
    match CaseOf(c, t, dir)
    case Stay => (c, t)
    case Rotate =>
      var save := Child(t, !dir);
      (Frame(c, save.item, false, dir, Child(save, !dir)), Mk(t.item, true, dir, Child(t, dir), Child(save, dir)))
    case ColorFlip =>
      (Frame(c.up, c.item, false, c.dir, Paint(c.sib, true)), Paint(t, true))
    case SiblingDouble =>
      var s, r := c.sib, Child(c.sib, c.dir);
      var top := Frame(c.up, r.item, true, c.dir, Mk(s.item, false, c.dir, Child(r, !c.dir), Child(s, !c.dir)));
      (Frame(top, c.item, false, c.dir, Child(r, c.dir)), Paint(t, true))
    case SiblingSingle =>
      var s := c.sib;
      var top := Frame(c.up, s.item, true, c.dir, Paint(Child(s, !c.dir), false));
      (Frame(top, c.item, false, c.dir, Child(s, c.dir)), Paint(t, true))
  }

  lemma DownIsPushable<I>(c: Ctx<I>, t: Tree<I>, dir: bool)
    requires Pushed(c, t, dir) && Child(t, dir).Node?
    ensures Pushable(Down(c, t, dir), Child(t, dir))
  {
    HeightUnique(Child(t, dir), if t.red then BlackHeight(t) else BlackHeight(t) - 1);
  }

  /** The sibling of a black node is there, and black. */
  lemma SiblingIsBlack<I>(c: Ctx<I>, t: Tree<I>)
    requires Pushable(c, t) && !Red(t) && c.Frame?
    ensures c.sib.Node? && !c.sib.red
    ensures c.red || c.up.Top?
  {
  }

  lemma PushKeepsRules<I>(c: Ctx<I>, t: Tree<I>, dir: bool)
    requires Pushable(c, t)
    ensures var (c', t') := Push(c, t, dir); Pushed(c', t', dir) && t'.item == t.item && Child(t', dir) == Child(t, dir)
  {
    var (c', t') := Push(c, t, dir);
    var h := BlackHeight(t);
    var cas := CaseOf(c, t, dir);
    if cas.Rotate? {
      assert RB(Child(t, !dir), h - 1) && RB(Child(t, dir), h - 1);
      assert RB(t', h - 1);
      HeightUnique(t', h - 1);
    } else if !cas.Stay? {
      SiblingIsBlack(c, t);
      assert RB(t', h - 1);
      HeightUnique(t', h - 1);
      assert RB(c.sib.left, h - 1) && RB(c.sib.right, h - 1);
      assert RBCtx(c.up, h, true) && RBCtx(c.up, h, false);
      if cas.SiblingDouble? {
        var r := Child(c.sib, c.dir);
        assert RB(r.left, h - 1) && RB(r.right, h - 1);
        assert RB(c'.up.sib, h) && RBCtx(c'.up, h, false);
      } else if cas.SiblingSingle? {
        assert RB(c'.up.sib, h) && RBCtx(c'.up, h, false);
      }
      assert RBCtx(c', h - 1, true);
    }
  }

  /** Nothing moves from one side of the walk to the other. */
  lemma PushKeepsOrder<I>(c: Ctx<I>, t: Tree<I>, dir: bool)
    requires t.Node?
    ensures var (c', t') := Push(c, t, dir);
            && Before(Down(c', t', dir)) == Before(Down(c, t, dir))
            && After(Down(c', t', dir)) == After(Down(c, t, dir))
  {
    var cas := CaseOf(c, t, dir);
    if cas.Rotate? {
      var save := Child(t, !dir);
      if dir {
        Regroup(Before(c), InOrder(save.left) + [save.item], InOrder(save.right), [t.item]);
        assert Before(c) + (InOrder(save.left) + [save.item]) == Before(c) + InOrder(save.left) + [save.item];
      } else {
        Regroup([t.item], InOrder(save.left), [save.item] + InOrder(save.right), After(c));
        assert InOrder(save.left) + ([save.item] + InOrder(save.right)) == InOrder(save);
        assert [save.item] + InOrder(save.right) + After(c) == ([save.item] + InOrder(save.right)) + After(c);
      }
    } else if !cas.Stay? {
      SiblingKeepsOrder(c, t, dir);
    }
  }

  lemma SiblingKeepsOrder<I>(c: Ctx<I>, t: Tree<I>, dir: bool)
    requires t.Node?
    requires var cas := CaseOf(c, t, dir); cas.ColorFlip? || cas.SiblingSingle? || cas.SiblingDouble?
    ensures var (c', t') := Push(c, t, dir);
            Before(c') == Before(c) && After(c') == After(c) && t' == Paint(t, true)
  {
    match CaseOf(c, t, dir)
    case ColorFlip =>
    case SiblingSingle => SiblingSingleKeepsOrder(c, t, dir);
    case SiblingDouble => SiblingDoubleKeepsOrder(c, t, dir);
  }

  lemma Spread<T>(a: seq<T>, b: seq<T>, c: seq<T>, d: seq<T>, e: seq<T>)
    ensures a + (b + c + d) + e == a + b + c + d + e == a + b + (c + d + e)
  {
  }

  lemma SiblingSingleKeepsOrder<I>(c: Ctx<I>, t: Tree<I>, dir: bool)
    requires t.Node? && CaseOf(c, t, dir).SiblingSingle?
    ensures var (c', t') := Push(c, t, dir); Before(c') == Before(c) && After(c') == After(c)
  {
    var s := c.sib;
    if c.dir {
      Spread(Before(c.up), InOrder(s.left), [s.item], InOrder(s.right), [c.item]);
    } else {
      Spread([c.item], InOrder(s.left), [s.item], InOrder(s.right), After(c.up));
    }
  }

  lemma SiblingDoubleKeepsOrder<I>(c: Ctx<I>, t: Tree<I>, dir: bool)
    requires t.Node? && CaseOf(c, t, dir).SiblingDouble?
    ensures var (c', t') := Push(c, t, dir); Before(c') == Before(c) && After(c') == After(c)
  {
    var s := c.sib;
    var r := Child(s, c.dir);
    if c.dir {
      var near := InOrder(s.left) + [s.item] + InOrder(r.left);
      Regroup(InOrder(s.left) + [s.item], InOrder(r.left), [r.item], InOrder(r.right));
      assert InOrder(s) == near + [r.item] + InOrder(r.right);
      Spread(Before(c.up), near, [r.item], InOrder(r.right), [c.item]);
    } else {
      var far := InOrder(r.right) + [s.item] + InOrder(s.right);
      Regroup(InOrder(r.left) + [r.item], InOrder(r.right), [s.item], InOrder(s.right));
      assert InOrder(s) == InOrder(r.left) + [r.item] + far;
      Spread([c.item], InOrder(r.left), [r.item], far, After(c.up));
    }
  }

  /** The node at the end of the walk has no children, and is red unless it is the root. */
  lemma BottomIsRedLeaf<I>(c: Ctx<I>, t: Tree<I>, dir: bool)
    requires Pushed(c, t, dir) && Child(t, dir).Leaf?
    ensures t.left.Leaf? && t.right.Leaf?
    ensures Rules(c, Leaf)
  {
    var h := if t.red then BlackHeight(t) else BlackHeight(t) - 1;
    assert RB(t.left, h) && RB(t.right, h);
  }

  // ----- what the walk knows about the key it looks for

  /** Everything before the gap is below k; the node found, if any, is the first one after the gap. */
  ghost predicate GapInv<I>(before: seq<Item<I>>, after: seq<Item<I>>, k: Key, hit: bool) {
    && (forall i :: 0 <= i < |before| ==> Below(before[i].key, k))
    && (if hit then |after| > 0 && after[0].key == k else forall i :: 0 <= i < |after| ==> Below(k, after[i].key))
  }

  lemma GapStep<I>(before: seq<Item<I>>, l: seq<Item<I>>, x: Item<I>, r: seq<Item<I>>, after: seq<Item<I>>, k: Key,
                   hit: bool)
    requires Sorted(before + (l + [x] + r) + after)
    requires GapInv(before, after, k, hit)
    ensures Below(x.key, k) ==> GapInv(before + l + [x], after, k, hit)
    ensures !Below(x.key, k) ==> !hit && GapInv(before, [x] + r + after, k, x.key == k)
  {
    var s := before + (l + [x] + r) + after;
    var n := |before| + |l|;
    assert s[n] == x;
    assert forall i :: 0 <= i < |l| ==> l[i] == s[|before| + i];
    assert forall i :: 0 <= i < |r| ==> r[i] == s[n + 1 + i];
    assert forall i :: 0 <= i < |after| ==> after[i] == s[n + 1 + |r| + i];
    BelowTotal(x.key, k);
    if Below(x.key, k) {
      forall i | 0 <= i < |l| ensures Below(l[i].key, k) {
        BelowTransitive(l[i].key, x.key, k);
      }
    } else if x.key != k {
      forall i | 0 <= i < |r| ensures Below(k, r[i].key) {
        BelowTransitive(k, x.key, r[i].key);
      }
      forall i | 0 <= i < |after| ensures Below(k, after[i].key) {
        BelowTransitive(k, x.key, after[i].key);
      }
    }
  }

  // ----- moving the predecessor's data

  /** c with the data of the first node after the position replaced. */
  function SetNext<I>(c: Ctx<I>, key: Key, ord: int): Ctx<I> {
    match c
    case Top => Top
    case Frame(up, item, red, dir, sib) =>
      if dir then Frame(SetNext(up, key, ord), item, red, dir, sib)
      else Frame(up, item.(key := key, ord := ord), red, dir, sib)
  }

  lemma {:induction false} SetNextKeeps<I>(c: Ctx<I>, key: Key, ord: int, h: nat, childRed: bool)
    requires After(c) != []
    requires RBCtx(c, h, childRed)
    ensures Before(SetNext(c, key, ord)) == Before(c)
    ensures After(SetNext(c, key, ord)) == [After(c)[0].(key := key, ord := ord)] + After(c)[1..]
    ensures RBCtx(SetNext(c, key, ord), h, childRed)
    decreases c
  {
    if c.dir {
      SetNextKeeps(c.up, key, ord, if c.red then h else h + 1, c.red);
    } else {
      assert After(c)[1..] == InOrder(c.sib) + After(c.up);
    }
  }

  /** Only keys and ordinals matter for what a sequence means. */
  lemma {:induction false} ToMapSameData<I>(s: seq<Item<I>>, t: seq<Item<I>>)
    requires |s| == |t| && forall i :: 0 <= i < |s| ==> s[i].key == t[i].key && s[i].ord == t[i].ord
    ensures ToMap(s) == ToMap(t)
  {
    if s != [] {
      assert forall i :: 0 <= i < |s| - 1 ==> s[1..][i] == s[i + 1] && t[1..][i] == t[i + 1];
      ToMapSameData(s[1..], t[1..]);
    }
  }

  /** Taking the found node's item away removes exactly its key, ... */
  lemma HitRemoved<I>(before: seq<Item<I>>, after: seq<Item<I>>)
    requires Sorted(before + after) && after != []
    ensures Sorted(before + after[1..])
    ensures ToMap(before + after[1..]) == ToMap(before + after) - {after[0].key}
  {
    assert before + after == before + [after[0]] + after[1..];
    ToMapOneMore(before, after[0], after[1..]);
  }

  /** ... and so does overwriting it by the last item before it. */
  lemma PredecessorMoved<I>(before: seq<Item<I>>, x: Item<I>, after: seq<Item<I>>)
    requires Sorted(before + [x] + after) && after != []
    ensures var s := before + ([after[0].(key := x.key, ord := x.ord)] + after[1..]);
            Sorted(s) && ToMap(s) == ToMap(before + [x] + after) - {after[0].key}
  {
    HitRemoved(before + [x], after);
    var s := before + ([after[0].(key := x.key, ord := x.ord)] + after[1..]);
    var r := before + [x] + after[1..];
    assert forall i :: 0 <= i < |s| ==> s[i].key == r[i].key && s[i].ord == r[i].ord;
    ToMapSameData(s, r);
  }

  lemma Missing<I>(before: seq<Item<I>>, after: seq<Item<I>>, k: Key)
    requires GapInv(before, after, k, false)
    ensures k !in ToMap(before + after)
  {
    BelowTotal(k, k);
    ToMapDomain(before + after, k);
  }
}
