/** Insertion: one walk down with trailing pointers, flipping and rotating on the way. */
module InsertWalk {
  import opened SearchText
  import opened RedBlack
  import opened RedBlackInsert
  import opened SearchNodes

  // ----- moving between the walk's pointers and its position

  /** Where a node's child stands. */
  lemma ChildPlace(c: NodeCtx, t: NodeTree, dir: bool, head: SearchNode)
    requires At(c, t, head) && t.Node? && Child(t, dir).Node?
    ensures RootOf(t) in Cells(t) && RootOf(t).Link(dir) == RootOf(Child(t, dir)) && RootOf(Child(t, dir)) in Cells(t)
  {
  }

  lemma PaintedCells(t: NodeTree, dir: bool, red: bool)
    requires t.Node?
    ensures Cells(Paint(t, red)) == Cells(t)
    ensures Cells(Mk(t.item, t.red, dir, Paint(Child(t, dir), red), Child(t, !dir))) == Cells(t)
  {
  }

  method PaintChildAt(n: SearchNode, dir: bool, red: bool, ghost c: NodeCtx, ghost t: NodeTree, head: SearchNode)
    requires At(c, t, head) && t.Node? && RootOf(Child(t, dir)) == n
    modifies n
    ensures At(c, Mk(t.item, t.red, dir, Paint(Child(t, dir), red), Child(t, !dir)), head)
  {
    hide At, Cells;
    Unzip(c, t, dir, head);
    PaintAt(n, red, Down(c, t, dir), Child(t, dir), head);
    Zip(Down(c, t, dir), Paint(Child(t, dir), red), head);
  }

  method FlipAt(q: SearchNode, ghost c: NodeCtx, ghost t: NodeTree, head: SearchNode)
    requires At(c, t, head) && RootOf(t) == q && t.left.Node? && t.right.Node?
    modifies Cells(t)
    ensures At(c, Flip(t), head) && Cells(Flip(t)) == Cells(t)
  {
    hide At, Cells;
    ghost var t1 := Paint(t, true);
    ghost var t2 := Node(t.item, true, Paint(t.left, false), t.right);
    PaintedCells(t, false, true);
    PaintedCells(t1, false, false);
    PaintedCells(t2, true, false);
    ChildPlace(c, t, false, head);
    PaintAt(q, true, c, t, head);
    ChildPlace(c, t1, false, head);
    PaintChildAt(q.link0, false, false, c, t1, head);
    ChildPlace(c, t2, true, head);
    PaintChildAt(q.link1, true, false, c, t2, head);
  }

  ghost function ParentVar(c: NodeCtx): SearchNode? {
    if c.Frame? then c.item.id else null
  }

  ghost function GrandVar(c: NodeCtx): SearchNode? {
    if c.Frame? then ParentVar(c.up) else null
  }

  ghost function GreatVar(c: NodeCtx, head: SearchNode): SearchNode {
    if c.Frame? && c.up.Frame? then ParentOf(c.up.up, head) else head
  }

  /** Arriving at a position: a node is made if there is none, a black node with two red children is flipped. */
  method ArriveAt(q: SearchNode?, parent: SearchNode?, dir: bool, text: string, ordinal: int,
                  ghost c: NodeCtx, ghost t: NodeTree, head: SearchNode)
    returns (r: SearchNode, ghost item: Item<SearchNode>)
    requires At(c, t, head) && RootOf(t) == q
    requires c.Frame? ==> parent == c.item.id && dir == c.dir
    requires c.Top? ==> t.Node?
    modifies AllCells(c, t, head)
    ensures At(c, Arrive(t, item), head) && r == RootOf(Arrive(t, item))
    ensures item.key == KeyOf(text) && item.ord == ordinal
    ensures AllCells(c, Arrive(t, item), head) == AllCells(c, t, head) + {r}
    ensures r in AllCells(c, t, head) || fresh(r)
  {
    if q == null {
      assert allocated(CtxCells(c, head));
      var made := new SearchNode(text, ordinal);
      item := Item(made, KeyOf(text), ordinal);
      Relink(parent, dir, made, c, null, head);
      r := made;
    } else {
      r := q;
      item := Item(q, KeyOf(text), ordinal);
      assert Holds(t.left) && Holds(t.right);
      if NodeIsRed(q.link0) && NodeIsRed(q.link1) {
        FlipAt(q, c, t, head);
      }
    }
  }

  /** A violation on the outside: one rotation at the grandparent, hung below the great-grandparent. */
  method FixOuterAt(great: SearchNode, gparent: SearchNode, q: SearchNode, last: bool,
               ghost c: NodeCtx, ghost t: NodeTree, head: SearchNode)
    requires At(c, t, head) && RootOf(t) == q && Fixable(c, t)
    requires gparent == c.up.item.id && great == ParentOf(c.up.up, head)
    requires last == c.up.dir == c.dir
    modifies AllCells(c, t, head)
    ensures var (c', t') := Fix(c, t);
            && At(c', t', head) && RootOf(t') == q
            && AllCells(c', t', head) == AllCells(c, t, head)
  {
    ghost var g := AtGrand(c, t);
    ghost var up := c.up.up;
    Zip(c, t, head);
    Zip(c.up, Mk(c.item, c.red, c.dir, t, c.sib), head);
    var dir2 := great.link1 == gparent;
    assert dir2 == DirOf(up);
    assert allocated(CtxCells(up, head)) && allocated(Cells(g));
    var top := RotateSingleAt(gparent, !last, g);
    Relink(great, dir2, top, up, gparent, head);
    assert At(up, RotateSingle(g, !last), head);
    Unzip(up, RotateSingle(g, !last), last, head);
  }

  /** A violation on the inside: a double rotation there. */
  method FixInnerAt(great: SearchNode, gparent: SearchNode, q: SearchNode, last: bool,
               ghost c: NodeCtx, ghost t: NodeTree, head: SearchNode)
    requires At(c, t, head) && RootOf(t) == q && Fixable(c, t)
    requires gparent == c.up.item.id && great == ParentOf(c.up.up, head)
    requires last == c.up.dir && last != c.dir
    modifies AllCells(c, t, head)
    ensures var (c', t') := Fix(c, t);
            && At(c', t', head) && RootOf(t') == q
            && AllCells(c', t', head) == AllCells(c, t, head)
  {
    ghost var g := AtGrand(c, t);
    ghost var up := c.up.up;
    Zip(c, t, head);
    Zip(c.up, Mk(c.item, c.red, c.dir, t, c.sib), head);
    var dir2 := great.link1 == gparent;
    assert dir2 == DirOf(up);
    assert allocated(CtxCells(up, head)) && allocated(Cells(g));
    var top := RotateDoubleAt(gparent, !last, g);
    Relink(great, dir2, top, up, gparent, head);
  }

  /** Repairing a violation below a black great-grandparent, whichever side it is on. */
  method FixAt(great: SearchNode, gparent: SearchNode, parent: SearchNode, q: SearchNode, last: bool,
               ghost c: NodeCtx, ghost t: NodeTree, head: SearchNode)
    requires At(c, t, head) && RootOf(t) == q && Fixable(c, t)
    requires parent == c.item.id && gparent == c.up.item.id && great == ParentOf(c.up.up, head)
    requires last == c.up.dir
    modifies AllCells(c, t, head)
    ensures var (c', t') := Fix(c, t);
            && At(c', t', head) && RootOf(t') == q
            && AllCells(c', t', head) == AllCells(c, t, head)
  {
    Zip(c, t, head);
    if q == parent.Link(last) {
      assert c.dir == last;
      FixOuterAt(great, gparent, q, last, c, t, head);
    } else {
      assert c.dir != last;
      FixInnerAt(great, gparent, q, last, c, t, head);
    }
  }

  /** One stop of the insertion walk: arrive, and repair the violation if there is one. */
  method SettleAt(great: SearchNode, gparent: SearchNode?, parent: SearchNode?, q: SearchNode?, dir: bool, last: bool,
                  text: string, ordinal: int, ghost c: NodeCtx, ghost t: NodeTree, ghost trail: Trail, head: SearchNode)
    returns (r: SearchNode, ghost item: Item<SearchNode>)
    requires At(c, t, head) && RootOf(t) == q && WalkInv(c, t, trail, KeyOf(text))
    requires parent == ParentVar(c) && (c.Frame? ==> dir == c.dir)
    requires trail.Exact? ==> gparent == GrandVar(c) && great == GreatVar(c, head)
    requires trail.Exact? && c.Frame? && c.up.Frame? ==> last == c.up.dir
    modifies AllCells(c, t, head)
    ensures item.key == KeyOf(text) && item.ord == ordinal
    ensures var (c', t') := Settle(c, t, item);
            && At(c', t', head) && r == RootOf(t')
            && AllCells(c', t', head) == AllCells(c, t, head) + {r}
    ensures r in AllCells(c, t, head) || fresh(r)
  {
    r, item := ArriveAt(q, parent, dir, text, ordinal, c, t, head);
    ghost var a := Arrive(t, item);
    if NodeIsRed(r) && NodeIsRed(parent) {
      ViolationIsFixable(c, t, trail, KeyOf(text), item);
      FixAt(great, gparent, parent, r, last, c, a, head);
    }
  }

  lemma RootPresent(a: seq<Item<SearchNode>>, t: NodeTree, b: seq<Item<SearchNode>>)
    requires t.Node? && Sorted(a + InOrder(t) + b)
    ensures t.item.key in ToMap(a + InOrder(t) + b)
  {
    var i := |a| + |InOrder(t.left)|;
    assert (a + InOrder(t) + b)[i] == t.item;
    ToMapAt(a + InOrder(t) + b, i);
  }

  lemma MadeHere(c: NodeCtx, item: Item<SearchNode>, items: seq<Item<SearchNode>>)
    requires Brackets(c, item.key) && Sorted(items)
    requires items == Before(c) + [] + After(c)
    ensures Sorted(Before(c) + [item] + After(c))
    ensures item.key !in ToMap(items)
    ensures ToMap(Before(c) + [item] + After(c)) == ToMap(items)[item.key := item.ord]
  {
    assert items == Before(c) + After(c);
    NewItem(c, item);
  }

  /** When the walk stops at the key, its items stand for the map with the key added if it was missing. */
  lemma FoundOrMade(c: NodeCtx, t: NodeTree, c': NodeCtx, t': NodeTree, item: Item<SearchNode>,
                    items: seq<Item<SearchNode>>, items': seq<Item<SearchNode>>)
    requires Brackets(c, item.key) && Sorted(items)
    requires items == Before(c) + InOrder(t) + After(c)
    requires t'.Node? && t'.item.key == item.key
    requires items' == Before(c') + InOrder(t') + After(c')
    requires items' == Before(c) + (if t.Leaf? then [item] else InOrder(t)) + After(c)
    ensures Sorted(items')
    ensures ToMap(items') == if item.key in ToMap(items) then ToMap(items) else ToMap(items)[item.key := item.ord]
  {
    if t.Leaf? {
      MadeHere(c, item, items);
    } else {
      assert items' == items;
      RootPresent(Before(c'), t', After(c'));
    }
  }

  /** What the pointers of the walk are worth at a position. */
  ghost predicate Pointers(c: NodeCtx, trail: Trail, head: SearchNode, great: SearchNode,
                           gparent: SearchNode?, parent: SearchNode?, dir: bool, last: bool)
  {
    && parent == ParentVar(c) && (c.Frame? ==> dir == c.dir)
    && (!trail.GrandStale? ==> gparent == GrandVar(c))
    && (trail.GreatStale? ==> c.Frame? && c.up.Frame?)
    && (trail.Exact? ==> great == GreatVar(c, head))
    && (trail.Exact? && c.Frame? && c.up.Frame? ==> last == c.up.dir)
  }

  lemma PointersAdvance(c: NodeCtx, t: NodeTree, trail: Trail, head: SearchNode, great: SearchNode,
                        gparent: SearchNode?,
                        parent: SearchNode?, dir: bool, last: bool, dir': bool, k: Key, item: Item<SearchNode>)
    requires WalkInv(c, t, trail, k) && t.Node?
    requires Pointers(c, trail, head, great, gparent, parent, dir, last)
    ensures var (c', t') := Settle(c, t, item);
            t'.Node? && Pointers(Down(c', t', dir'), NextTrail(c, t, trail, item), head,
                     if gparent != null then gparent else great, parent, RootOf(t'), dir', dir)
  {
  }

  /** The insertion walk from the root to the node with the text, which it makes if it is missing. */
  method Walk(root: SearchNode, text: string, ordinal: int, head: SearchNode, ghost tree: NodeTree)
    returns (ghost c: NodeCtx, ghost sub: NodeTree)
    requires At(Top, tree, head) && RootOf(tree) == root
    requires WellColored(tree) && Sorted(InOrder(tree))
    modifies AllCells(Top, tree, head)
    ensures At(c, sub, head) && Rules(c, sub)
    ensures forall x :: x in AllCells(c, sub, head) ==> x in AllCells(Top, tree, head) || fresh(x)
    ensures sub.Node?
    ensures var items, items', k := InOrder(tree), Before(c) + InOrder(sub) + After(c), KeyOf(text);
            && Sorted(items')
            && ToMap(items') == if k in ToMap(items) then ToMap(items) else ToMap(items)[k := ordinal]
  {
    hide StrNCmp, ToMap, Sorted, PathLength, NextTrail, InOrder, Before, After;
    TopOrder(tree);
    ghost var k := KeyOf(text);
    var t: SearchNode := head;
    var gparent: SearchNode?, parent: SearchNode? := null, null;
    var q := root;
    var dir, last := false, false;

    ghost var trail := Exact;
    c, sub := Top, tree;
    while true
      invariant WalkInv(c, sub, trail, k)
      invariant At(c, sub, head) && RootOf(sub) == q
      invariant forall x :: x in AllCells(c, sub, head) ==> x in AllCells(Top, tree, head) || fresh(x)
      invariant Pointers(c, trail, head, t, gparent, parent, dir, last)
      invariant Before(c) + InOrder(sub) + After(c) == InOrder(tree)
      decreases PathLength(sub, k), if trail.GrandStale? then 0 else 1
    {
      ghost var item;
      q, item := SettleAt(t, gparent, parent, q, dir, last, text, ordinal, c, sub, trail, head);
      ghost var (c', t') := Settle(c, sub, item);
      SettleKeepsRules(c, sub, trail, k, item);
      SettleKeepsOrder(c, sub, item);

      // the text is here, new or old
      CompareMeans(text, q.text);
      StrNCmpAntisymmetric(text, q.text, SEARCH_TEXT_MAX);
      if StrNCmp(q.text, text, SEARCH_TEXT_MAX) == 0 {
        FoundOrMade(c, sub, c', t', item, InOrder(tree), Before(c') + InOrder(t') + After(c'));
        c, sub := c', t';
        break;
      }

      // one level down
      ghost var last' := last;
      last := dir;
      dir := StrNCmp(text, q.text, SEARCH_TEXT_MAX) > 0;
      WalkStep(c, sub, trail, k, item);
      WalkEnds(c, sub, trail, k, item);
      PointersAdvance(c, sub, trail, head, t, gparent, parent, last, last', dir, k, item);
      Unzip(c', t', dir, head);
      DownKeepsOrder(c', t', dir);
      if gparent != null {
        t := gparent;
      }
      gparent, parent := parent, q;
      q := q.Link(dir);

      trail := NextTrail(c, sub, trail, item);
      c, sub := Down(c', t', dir), Child(t', dir);
    }
  }

  /** Insertion into a non-empty tree below a false root; the new root may still be red. */
  method InsertBelow(root: SearchNode, text: string, ordinal: int, ghost tree: NodeTree)
    returns (top: SearchNode, ghost whole: NodeTree)
    requires Holds(tree) && RootOf(tree) == root
    requires WellColored(tree) && Sorted(InOrder(tree))
    modifies Cells(tree)
    ensures Holds(whole) && RootOf(whole) == top
    ensures WellColored(Paint(whole, false)) && InOrder(Paint(whole, false)) == InOrder(whole)
    ensures forall x :: x in Cells(whole) ==> x in Cells(tree) || fresh(x)
    ensures Sorted(InOrder(whole))
    ensures var k := KeyOf(text);
            ToMap(InOrder(whole)) == if k in ToMap(InOrder(tree)) then ToMap(InOrder(tree))
                                     else ToMap(InOrder(tree))[k := ordinal]
  {
    assert allocated(Cells(tree));
    var head := new SearchNode("", 0);
    head.red := false;
    head.link1 := root;
    ghost var c, sub := Walk(root, text, ordinal, head, tree);
    Rebuilt(c, sub, head);
    whole := Plug(c, sub);
    assert forall x :: x in Cells(whole) ==> x in AllCells(c, sub, head) && x != head;
    top := head.link1;
  }
}
