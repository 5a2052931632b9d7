/** Removal: one walk down that pushes a red node ahead, remembers the node found, and at the bottom
    moves the last node's data there and unlinks the last node. */
module RemoveWalk {
  import opened SearchText
  import opened RedBlack
  import opened RedBlackRemove
  import opened SearchNodes

  /** The text to remove; a null pointer asks for the first node. */
  datatype Wanted = Null | Text(text: string)

  /** Red on top, black children, and the visited node red. */
  method RecolorAt(top: SearchNode, q: SearchNode, last: bool, ghost c: NodeCtx, ghost t: NodeTree, head: SearchNode)
    returns (ghost c': NodeCtx, ghost t': NodeTree)
    requires At(c, t, head) && RootOf(t) == top && t.left.Node? && t.right.Node?
    requires Child(Child(t, last), last).Node? && RootOf(Child(Child(t, last), last)) == q
    modifies AllCells(c, t, head)
    ensures At(c', t', head) && AllCells(c', t', head) == AllCells(c, t, head)
    ensures var p := Child(t, last);
            && c' == Frame(Frame(c, t.item, true, last, Paint(Child(t, !last), false)),
                           p.item, false, last, Child(p, !last))
            && t' == Paint(Child(p, last), true)
  {
    ghost var p, o := Child(t, last), Child(t, !last);
    assert Holds(p) && Holds(o);
    PaintAt(top, true, c, t, head);
    ghost var t1 := Paint(t, true);

    Unzip(c, t1, !last, head);
    PaintAt(top.Link(!last), false, Down(c, t1, !last), o, head);
    Zip(Down(c, t1, !last), Paint(o, false), head);
    ghost var t2 := Mk(t.item, true, !last, Paint(o, false), p);

    Unzip(c, t2, last, head);
    ghost var c2 := Down(c, t2, last);
    PaintAt(top.Link(last), false, c2, p, head);
    Unzip(c2, Paint(p, false), last, head);
    c' := Down(c2, Paint(p, false), last);
    PaintAt(q, true, c', Child(p, last), head);
    t' := Paint(Child(p, last), true);
  }

  /** The subtree at the parent, after the rotation that lends the sibling's red node. */
  function Lent(c: NodeCtx, t: NodeTree, dir: bool): NodeTree
    requires t.Node?
    requires var cas := CaseOf(c, t, dir); cas.SiblingSingle? || cas.SiblingDouble?
  {
    var g := Mk(c.item, c.red, c.dir, t, c.sib);
    if CaseOf(c, t, dir).SiblingDouble? then RotateDouble(g, c.dir) else RotateSingle(g, c.dir)
  }

  lemma LentShape(c: NodeCtx, t: NodeTree, dir: bool)
    requires t.Node?
    requires var cas := CaseOf(c, t, dir); cas.SiblingSingle? || cas.SiblingDouble?
    ensures var u := Lent(c, t, dir);
            && u.left.Node? && u.right.Node? && Child(u, c.dir).item == c.item
            && Child(Child(u, c.dir), c.dir) == t
            && Push(c, t, dir) ==
               (Frame(Frame(c.up, u.item, true, c.dir, Paint(Child(u, !c.dir), false)),
                      c.item, false, c.dir, Child(Child(u, c.dir), !c.dir)),
                Paint(t, true))
  {
  }

  method LendAt(parent: SearchNode, s: SearchNode, dir: bool, last: bool,
                ghost c: NodeCtx, ghost t: NodeTree, ghost g: NodeTree)
    returns (top: SearchNode)
    requires t.Node? && c.Frame? && g == Mk(c.item, c.red, c.dir, t, c.sib) && Holds(g)
    requires var cas := CaseOf(c, t, dir); cas.SiblingSingle? || cas.SiblingDouble?
    requires parent == c.item.id && last == c.dir && s == RootOf(c.sib)
    modifies Cells(g)
    ensures Holds(Lent(c, t, dir)) && RootOf(Lent(c, t, dir)) == top && Cells(Lent(c, t, dir)) == Cells(g)
  {
    assert Holds(c.sib) && Holds(Child(c.sib, last));
    if NodeIsRed(s.Link(last)) {
      top := RotateDoubleAt(parent, last, g);
    } else {
      top := RotateSingleAt(parent, last, g);
    }
  }

  /** The sibling lends a red node: rotate at the parent, hang the result below the grandparent, recolor. */
  method SiblingAt(gparent: SearchNode, parent: SearchNode, q: SearchNode, s: SearchNode, dir: bool, last: bool,
                   ghost c: NodeCtx, ghost t: NodeTree, head: SearchNode)
    requires At(c, t, head) && RootOf(t) == q && c.Frame?
    requires var cas := CaseOf(c, t, dir); cas.SiblingSingle? || cas.SiblingDouble?
    requires parent == c.item.id && gparent == ParentOf(c.up, head) && last == c.dir && s == RootOf(c.sib)
    modifies AllCells(c, t, head)
    ensures var (c', t') := Push(c, t, dir);
            && At(c', t', head) && RootOf(t') == q && ParentOf(c', head) == parent
            && AllCells(c', t', head) == AllCells(c, t, head)
  {
    ghost var up, g, lent := c.up, Mk(c.item, c.red, c.dir, t, c.sib), Lent(c, t, dir);
    Zip(c, t, head);
    LentShape(c, t, dir);
    var dir2 := gparent.link1 == parent;
    assert dir2 == DirOf(up);
    assert allocated(CtxCells(up, head)) && allocated(Cells(g));
    var top := LendAt(parent, s, dir, last, c, t, g);
    Relink(gparent, dir2, top, up, parent, head);
    assert At(up, lent, head);

    // one node is left out of the pushing: the root stays black
    ghost var c', t' := RecolorAt(gparent.Link(dir2), q, last, up, lent, head);
  }

  /** The visited node goes down below its red child on the other side, which takes its place. */
  method RotateDownAt(parent: SearchNode, q: SearchNode, dir: bool, last: bool, ghost c: NodeCtx, ghost t: NodeTree,
                      head: SearchNode)
    returns (save: SearchNode)
    requires At(c, t, head) && RootOf(t) == q && t.Node? && CaseOf(c, t, dir).Rotate?
    requires parent == ParentOf(c, head) && last == DirOf(c)
    modifies AllCells(c, t, head)
    ensures var (c', t') := Push(c, t, dir);
            && At(c', t', head) && RootOf(t') == q && ParentOf(c', head) == save
            && AllCells(c', t', head) == AllCells(c, t, head)
  {
    assert allocated(CtxCells(c, head)) && allocated(Cells(t));
    save := RotateSingleAt(q, dir, t);
    Relink(parent, last, save, c, q, head);
    Unzip(c, RotateSingle(t, dir), dir, head);
  }

  /** Pushing the red node down past the visited node q. */
  method PushAt(gparent: SearchNode?, parent: SearchNode, q: SearchNode, dir: bool, last: bool,
                ghost c: NodeCtx, ghost t: NodeTree, head: SearchNode)
    returns (p: SearchNode)
    requires At(c, t, head) && RootOf(t) == q && Pushable(c, t)
    requires parent == ParentOf(c, head) && last == DirOf(c)
    requires c.Frame? ==> gparent == ParentOf(c.up, head)
    modifies AllCells(c, t, head)
    ensures var (c', t') := Push(c, t, dir);
            && At(c', t', head) && RootOf(t') == q && ParentOf(c', head) == p
            && AllCells(c', t', head) == AllCells(c, t, head)
  {
    hide AllCells, Cells, CtxCells;
    p := parent;
    assert Holds(t.left) && Holds(t.right);
    if !NodeIsRed(q) && !NodeIsRed(q.Link(dir)) {
      if NodeIsRed(q.Link(!dir)) {
        p := RotateDownAt(parent, q, dir, last, c, t, head);
      } else {
        var s := parent.Link(!last);
        if s != null {
          assert Holds(c.sib) && Holds(c.sib.left) && Holds(c.sib.right);
          if !NodeIsRed(s.Link(!last)) && !NodeIsRed(s.Link(last)) {
            ColorFlipAt(parent, s, q, c, t, head);
          } else {
            SiblingAt(gparent, parent, q, s, dir, last, c, t, head);
          }
        }
      }
    }
  }

  method ColorFlipAt(parent: SearchNode, s: SearchNode, q: SearchNode, ghost c: NodeCtx, ghost t: NodeTree,
                     head: SearchNode)
    requires At(c, t, head) && RootOf(t) == q && t.Node?
    requires c.Frame? && c.sib.Node? && parent == c.item.id && s == c.sib.item.id
    modifies AllCells(c, t, head)
    ensures var c', t' := Frame(c.up, c.item, false, c.dir, Paint(c.sib, true)), Paint(t, true);
            && At(c', t', head) && AllCells(c', t', head) == AllCells(c, t, head)
  {
    Zip(c, t, head);
    ghost var g := Mk(c.item, c.red, c.dir, t, c.sib);
    PaintAt(parent, false, c.up, g, head);
    Unzip(c.up, Paint(g, false), !c.dir, head);
    PaintAt(s, true, Down(c.up, Paint(g, false), !c.dir), c.sib, head);
    Zip(Down(c.up, Paint(g, false), !c.dir), Paint(c.sib, true), head);
    Unzip(c.up, Mk(c.item, false, c.dir, t, Paint(c.sib, true)), c.dir, head);
    PaintAt(q, true, Frame(c.up, c.item, false, c.dir, Paint(c.sib, true)), t, head);
  }

  // ----- the first node after a position

  function NextCtx(c: NodeCtx): NodeCtx {
    if c.Top? then Top else if c.dir then NextCtx(c.up) else c.up
  }

  function NextTree(c: NodeCtx, t: NodeTree): NodeTree
    decreases c
  {
    if c.Top? then t
    else
      var g := Mk(c.item, c.red, c.dir, t, c.sib);
      if c.dir then NextTree(c.up, g) else g
  }

  lemma {:induction false} NextPosition(c: NodeCtx, t: NodeTree, head: SearchNode)
    requires At(c, t, head) && After(c) != []
    ensures At(NextCtx(c), NextTree(c, t), head)
    ensures AllCells(NextCtx(c), NextTree(c, t), head) == AllCells(c, t, head)
    ensures NextTree(c, t).Node? && NextTree(c, t).item == After(c)[0]
    decreases c
  {
    Zip(c, t, head);
    if c.dir {
      NextPosition(c.up, Mk(c.item, c.red, c.dir, t, c.sib), head);
    }
  }

  lemma {:induction false} SetNextPlug(c: NodeCtx, t: NodeTree, key: Key, ord: int)
    requires After(c) != []
    ensures NextTree(c, t).Node?
    ensures var n := NextTree(c, t);
            Plug(SetNext(c, key, ord), t) == Plug(NextCtx(c), n.(item := n.item.(key := key, ord := ord)))
    decreases c
  {
    if c.dir {
      SetNextPlug(c.up, Mk(c.item, c.red, c.dir, t, c.sib), key, ord);
    }
  }

  method OverwriteAt(n: SearchNode, text: Key, ordinal: int, ghost c: NodeCtx, ghost t: NodeTree, head: SearchNode)
    requires At(c, t, head) && RootOf(t) == n
    modifies n
    ensures var t' := t.(item := t.item.(key := text, ord := ordinal));
            At(c, t', head) && AllCells(c, t', head) == AllCells(c, t, head)
  {
    assert Holds(t.left) && Holds(t.right);
    assert allocated(Cells(t.left)) && allocated(Cells(t.right)) && allocated(CtxCells(c, head));
    n.text, n.ordinal := text, ordinal;
  }

  /** Moving the bottom node's data to the node found. */
  method Replace(found: SearchNode, q: SearchNode, ghost c: NodeCtx, ghost t: NodeTree, ghost dir: bool,
                 head: SearchNode)
    returns (ghost c': NodeCtx)
    requires At(c, t, head) && RootOf(t) == q && t.Node? && t.left.Leaf? && t.right.Leaf?
    requires Rules(c, Leaf)
    requires var after := After(Down(c, t, dir)); after != [] && after[0].id == found
    requires Sorted(Before(Down(c, t, dir)) + After(Down(c, t, dir)))
    modifies AllCells(c, t, head)
    ensures At(c', t, head) && AllCells(c', t, head) == AllCells(c, t, head)
    ensures Rules(c', Leaf) && ParentOf(c', head) == ParentOf(c, head) && DirOf(c') == DirOf(c)
    ensures var before, after, items := Before(Down(c, t, dir)), After(Down(c, t, dir)), Before(c') + After(c');
            Sorted(items) && ToMap(items) == ToMap(before + after) - {after[0].key}
  {
    ghost var before, after := Before(Down(c, t, dir)), After(Down(c, t, dir));
    if found == q {
      // its own data: nothing changes
      found.text, found.ordinal := q.text, q.ordinal;
      c' := c;
      OwnNode(c, t, dir, head);
      HitRemoved(before, after);
      assert before == Before(c) && after[1..] == After(c);
    } else {
      OtherNode(c, t, dir, head);
      NextPosition(c, t, head);
      SetNextPlug(c, t, q.text, q.ordinal);
      ghost var n := NextTree(c, t);
      OverwriteAt(found, q.text, q.ordinal, NextCtx(c), n, head);
      ghost var n' := n.(item := n.item.(key := t.item.key, ord := t.item.ord));
      c' := SetNext(c, t.item.key, t.item.ord);
      AtPlug(NextCtx(c), n', head);
      AtUnplug(c', t, head);
      SetNextKeeps(c, t.item.key, t.item.ord, 0, false);
      assert before == Before(c) + [t.item];
      PredecessorMoved(Before(c), t.item, after);
    }
  }

  lemma {:induction false} NextIsAbove(c: NodeCtx, head: SearchNode)
    requires After(c) != []
    ensures After(c)[0].id in CtxCells(c, head)
    decreases c
  {
    if c.dir {
      NextIsAbove(c.up, head);
    }
  }

  lemma OwnNode(c: NodeCtx, t: NodeTree, dir: bool, head: SearchNode)
    requires At(c, t, head) && t.Node? && t.left.Leaf? && t.right.Leaf?
    requires var after := After(Down(c, t, dir)); after != [] && after[0].id == t.item.id
    ensures !dir
  {
    if dir {
      NextIsAbove(c, head);
    }
  }

  lemma OtherNode(c: NodeCtx, t: NodeTree, dir: bool, head: SearchNode)
    requires At(c, t, head) && t.Node? && t.left.Leaf? && t.right.Leaf?
    requires var after := After(Down(c, t, dir)); after != [] && after[0].id != t.item.id
    ensures dir && After(c) == After(Down(c, t, dir))
  {
  }

  /** Replacing the node found and unlinking the bottom node. */
  method Unlink(found: SearchNode, q: SearchNode, parent: SearchNode, ghost c: NodeCtx, ghost t: NodeTree,
                ghost dir: bool, head: SearchNode)
    returns (ghost c': NodeCtx)
    requires At(c, t, head) && RootOf(t) == q && Pushed(c, t, dir) && Child(t, dir).Leaf?
    requires parent == ParentOf(c, head)
    requires var after := After(Down(c, t, dir)); after != [] && after[0].id == found
    requires Sorted(Before(Down(c, t, dir)) + After(Down(c, t, dir)))
    modifies AllCells(c, t, head)
    ensures At(c', Leaf, head) && Rules(c', Leaf) && AllCells(c', Leaf, head) <= AllCells(c, t, head)
    ensures var before, after, items := Before(Down(c, t, dir)), After(Down(c, t, dir)), Before(c') + After(c');
            Sorted(items) && ToMap(items) == ToMap(before + after) - {after[0].key}
  {
    BottomIsRedLeaf(c, t, dir);
    c' := Replace(found, q, c, t, dir, head);
    var d := parent.link1 == q;
    assert d == DirOf(c');
    Relink(parent, d, q.Link(q.link0 == null), c', q, head);
  }

  /** What the walk knows: the gap it is heading for, and what it remembers as found. */
  ghost predicate Knows(wanted: Wanted, before: seq<Item<SearchNode>>, after: seq<Item<SearchNode>>,
                        found: SearchNode?) {
    && (found != null ==> after != [] && after[0].id == found)
    && match wanted
       case Null => before == []
       case Text(text) => GapInv(before, after, KeyOf(text), found != null)
  }

  /** Choosing the way at a node keeps what the walk knows, for the gap beyond the node. */
  lemma Chosen(c: NodeCtx, t: NodeTree, wanted: Wanted, found: SearchNode?, found': SearchNode?, d: bool,
               items: seq<Item<SearchNode>>)
    requires t.Node? && Sorted(items) && items == Before(c) + InOrder(t) + After(c)
    requires Knows(wanted, Before(c), After(c), found)
    requires wanted.Null? ==> !d && found' == t.item.id
    requires wanted.Text? ==> d == Below(t.item.key, KeyOf(wanted.text))
    requires wanted.Text? ==> found' == if t.item.key == KeyOf(wanted.text) then t.item.id else found
    ensures var n := Push(c, t, d); var down := Down(n.0, n.1, d);
            && Knows(wanted, Before(down), After(down), found')
            && Before(down) + InOrder(Child(t, d)) + After(down) == items
  {
    DownKeepsOrder(c, t, d);
    PushKeepsOrder(c, t, d);
    if wanted.Text? {
      GapStep(Before(c), InOrder(t.left), t.item, InOrder(t.right), After(c), KeyOf(wanted.text), found != null);
    }
  }

  /** Leaving a node behind once the way on is chosen: the red is pushed down past it. */
  method VisitAt(gparent: SearchNode?, parent: SearchNode, q: SearchNode, d: bool, last: bool, ghost c: NodeCtx,
                 ghost t: NodeTree,
                 head: SearchNode, ghost wanted: Wanted, ghost found: SearchNode?, ghost found': SearchNode?,
                 ghost items: seq<Item<SearchNode>>)
    returns (p: SearchNode, ghost c': NodeCtx, ghost t': NodeTree)
    requires At(c, t, head) && RootOf(t) == q && Pushable(c, t)
    requires parent == ParentOf(c, head) && last == DirOf(c)
    requires c.Frame? ==> gparent == ParentOf(c.up, head)
    requires Sorted(items) && items == Before(c) + InOrder(t) + After(c)
    requires Knows(wanted, Before(c), After(c), found)
    requires wanted.Null? ==> !d && found' == q
    requires wanted.Text? ==> d == Below(t.item.key, KeyOf(wanted.text))
    requires wanted.Text? ==> found' == if t.item.key == KeyOf(wanted.text) then q else found
    modifies AllCells(c, t, head)
    ensures At(c', t', head) && RootOf(t') == q && p == ParentOf(c', head) && q != head
    ensures Pushed(c', t', d) && Child(t', d) == Child(t, d)
    ensures var down := Down(c', t', d);
            && At(down, Child(t', d), head) && AllCells(down, Child(t', d), head) == AllCells(c, t, head)
            && Before(down) + InOrder(Child(t', d)) + After(down) == items
            && Knows(wanted, Before(down), After(down), found')
  {
    Chosen(c, t, wanted, found, found', d, items);
    PushKeepsRules(c, t, d);
    p := PushAt(gparent, parent, q, d, last, c, t, head);
    c', t' := Push(c, t, d).0, Push(c, t, d).1;
    HeadIsAbove(c', head);
    Unzip(c', t', d, head);
  }

  /** Which way on at q, and what is found by then; a null text just takes every node it comes to. */
  function Choose(wanted: Wanted, q: SearchNode, found: SearchNode?): (r: (bool, SearchNode?))
    reads q
    ensures wanted.Null? ==> !r.0 && r.1 == q
    ensures wanted.Text? ==> r.0 == Below(q.text, KeyOf(wanted.text))
    ensures wanted.Text? ==> r.1 == if q.text == KeyOf(wanted.text) then q else found
  {
    match wanted
    case Null => (false, q)
    case Text(text) =>
      CompareMeans(text, q.text);
      var retVal := StrNCmp(text, q.text, SEARCH_TEXT_MAX);
      (retVal > 0, if retVal == 0 then q else found)
  }

  /** The removal walk, up to the bottom node. */
  method Walk(root: SearchNode, wanted: Wanted, head: SearchNode, ghost tree: NodeTree)
    returns (q: SearchNode, parent: SearchNode, found: SearchNode?,
             ghost c: NodeCtx, ghost t: NodeTree, ghost dir: bool)
    requires At(Top, tree, head) && RootOf(tree) == root
    requires WellColored(tree) && Sorted(InOrder(tree))
    modifies AllCells(Top, tree, head)
    ensures At(c, t, head) && RootOf(t) == q && Pushed(c, t, dir) && Child(t, dir).Leaf?
    ensures AllCells(c, t, head) == AllCells(Top, tree, head)
    ensures parent == ParentOf(c, head)
    ensures Before(Down(c, t, dir)) + After(Down(c, t, dir)) == InOrder(tree)
    ensures Knows(wanted, Before(Down(c, t, dir)), After(Down(c, t, dir)), found)
    ensures wanted.Null? ==> found != null
  {
    q, found := head, null;
    var gparent: SearchNode?;
    var parent': SearchNode? := null;
    var d, last := true, true;

    // where the walk goes next, and the subtree there
    ghost var next: NodeCtx, ahead := Top, tree;
    c, t := Top, tree;
    while q.Link(d) != null
      invariant At(next, ahead, head) && AllCells(next, ahead, head) == AllCells(Top, tree, head)
      invariant q == head ==> next == Top && ahead == tree && d && found == null
      invariant q != head ==>
        && RootOf(t) == q && Pushed(c, t, d)
        && next == Down(c, t, d) && ahead == Child(t, d)
        && parent' == ParentOf(c, head)
        && (wanted.Null? ==> found != null)
      invariant Before(next) + InOrder(ahead) + After(next) == InOrder(tree)
      invariant Knows(wanted, Before(next), After(next), found)
      decreases ahead
    {
      last := d;
      gparent, parent' := parent', q;
      q := q.Link(d);
      if parent' != head {
        DownIsPushable(c, t, d);
      }
      assert Pushable(next, ahead);
      assert parent' == ParentOf(next, head) && last == DirOf(next);

      ghost var found' := found;
      var choice := Choose(wanted, q, found);
      d, found := choice.0, choice.1;
      parent', c, t := VisitAt(gparent, parent', q, d, last, next, ahead, head, wanted, found', found, InOrder(tree));
      next, ahead := Down(c, t, d), Child(t, d);
    }
    Zip(next, ahead, head);
    assert Before(next) + [] == Before(next);
    parent := parent';
    dir := d;
  }
}
