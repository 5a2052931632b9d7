/** The memory of the text index: linked nodes, and what it means that memory holds a tree, or holds
    a tree seen from a position inside it, below a false root. */
module SearchNodes {
  import opened SearchText
  import opened RedBlack

  class SearchNode {
    var red: bool
    var link0: SearchNode?
    var link1: SearchNode?
    var text: Key
    var ordinal: int

    /** makeNode: a red node without children. */
    constructor (text: string, ordinal: int)
      ensures red && link0 == null && link1 == null
      ensures this.text == KeyOf(text) && this.ordinal == ordinal
    {
      red := true;
      link0, link1 := null, null;
      this.text, this.ordinal := KeyOf(text), ordinal;
    }

    function Link(dir: bool): SearchNode?
      reads this
    {
      if dir then link1 else link0
    }

    method SetLink(dir: bool, n: SearchNode?)
      modifies this
      ensures Link(dir) == n && Link(!dir) == old(Link(!dir))
      ensures red == old(red) && text == old(text) && ordinal == old(ordinal)
    {
      if dir {
        link1 := n;
      } else {
        link0 := n;
      }
    }
  }

  type NodeTree = Tree<SearchNode>
  type NodeCtx = Ctx<SearchNode>

  function NodeIsRed(n: SearchNode?): bool
    reads n
  {
    n != null && n.red
  }

  function RootOf(t: NodeTree): SearchNode? {
    if t.Leaf? then null else t.item.id
  }

  ghost function Cells(t: NodeTree): set<SearchNode> {
    match t
    case Leaf => {}
    case Node(item, _, l, r) => {item.id} + Cells(l) + Cells(r)
  }

  /** Memory holds t, each node in its own cell. */
  ghost predicate Holds(t: NodeTree)
    reads Cells(t)
  {
    t.Node? ==>
      var n := t.item.id;
      && n.text == t.item.key && n.ordinal == t.item.ord && n.red == t.red
      && n.link0 == RootOf(t.left) && n.link1 == RootOf(t.right)
      && n !in Cells(t.left) && n !in Cells(t.right) && Cells(t.left) !! Cells(t.right)
      && Holds(t.left) && Holds(t.right)
  }

  ghost function CtxCells(c: NodeCtx, head: SearchNode): set<SearchNode> {
    match c
    case Top => {head}
    case Frame(up, item, _, _, sib) => {item.id} + Cells(sib) + CtxCells(up, head)
  }

  function ParentOf(c: NodeCtx, head: SearchNode): SearchNode {
    if c.Top? then head else c.item.id
  }

  /** The root hangs on link[1] of the false root. */
  function DirOf(c: NodeCtx): bool {
    c.Top? || c.dir
  }

  /** Memory holds everything above a position, with child in the gap. */
  ghost predicate HoldsCtx(c: NodeCtx, child: SearchNode?, head: SearchNode)
    reads CtxCells(c, head)
  {
    match c
    case Top => head.link1 == child && head.link0 == null
    case Frame(up, item, red, dir, sib) =>
      var n := item.id;
      && n.text == item.key && n.ordinal == item.ord && n.red == red
      && n.Link(dir) == child && n.Link(!dir) == RootOf(sib)
      && n !in Cells(sib) && n !in CtxCells(up, head) && Cells(sib) !! CtxCells(up, head)
      && Holds(sib) && HoldsCtx(up, n, head)
  }

  ghost predicate At(c: NodeCtx, t: NodeTree, head: SearchNode)
    reads Cells(t), CtxCells(c, head)
  {
    Holds(t) && HoldsCtx(c, RootOf(t), head) && Cells(t) !! CtxCells(c, head)
  }

  ghost function AllCells(c: NodeCtx, t: NodeTree, head: SearchNode): set<SearchNode> {
    Cells(t) + CtxCells(c, head)
  }

  lemma {:induction false} HeadIsAbove(c: NodeCtx, head: SearchNode)
    ensures head in CtxCells(c, head)
    decreases c
  {
    if c.Frame? {
      HeadIsAbove(c.up, head);
    }
  }

  lemma Zip(c: NodeCtx, t: NodeTree, head: SearchNode)
    requires At(c, t, head) && c.Frame?
    ensures At(c.up, Mk(c.item, c.red, c.dir, t, c.sib), head)
    ensures AllCells(c.up, Mk(c.item, c.red, c.dir, t, c.sib), head) == AllCells(c, t, head)
  {
  }

  lemma Unzip(c: NodeCtx, t: NodeTree, dir: bool, head: SearchNode)
    requires At(c, t, head) && t.Node?
    ensures At(Down(c, t, dir), Child(t, dir), head)
    ensures AllCells(Down(c, t, dir), Child(t, dir), head) == AllCells(c, t, head)
  {
  }

  lemma {:induction false} AtPlug(c: NodeCtx, t: NodeTree, head: SearchNode)
    requires At(c, t, head)
    ensures At(Top, Plug(c, t), head)
    ensures AllCells(Top, Plug(c, t), head) == AllCells(c, t, head)
    decreases c
  {
    if c.Frame? {
      Zip(c, t, head);
      AtPlug(c.up, Mk(c.item, c.red, c.dir, t, c.sib), head);
    }
  }

  /** Hanging another child into the gap of a position. */
  method Relink(n: SearchNode, dir: bool, child: SearchNode?, ghost c: NodeCtx, ghost was: SearchNode?,
                head: SearchNode)
    requires HoldsCtx(c, was, head)
    requires n == ParentOf(c, head) && dir == DirOf(c)
    modifies n
    ensures HoldsCtx(c, child, head)
  {
    assert c.Frame? ==> allocated(Cells(c.sib)) && allocated(CtxCells(c.up, head));
    n.SetLink(dir, child);
    assert c.Frame? ==> Holds(c.sib) && HoldsCtx(c.up, n, head);
  }

  lemma RotatedCells(t: NodeTree, dir: bool)
    requires t.Node? && Child(t, !dir).Node?
    ensures Cells(RotateSingle(t, dir)) == Cells(t)
  {
  }

  lemma HoldsChild(t: NodeTree, dir: bool)
    requires Holds(t) && t.Node?
    ensures var near, far, n := Child(t, dir), Child(t, !dir), t.item.id;
            && Holds(near) && Holds(far) && n.Link(dir) == RootOf(near) && n.Link(!dir) == RootOf(far)
            && n.text == t.item.key && n.ordinal == t.item.ord
            && Cells(t) == {n} + Cells(near) + Cells(far)
            && n !in Cells(near) && n !in Cells(far) && Cells(near) !! Cells(far)
  {
  }

  lemma HoldsMk(n: SearchNode, item: Item<SearchNode>, dir: bool, near: NodeTree, far: NodeTree)
    requires item.id == n && n.text == item.key && n.ordinal == item.ord
    requires Holds(near) && Holds(far) && n.Link(dir) == RootOf(near) && n.Link(!dir) == RootOf(far)
    requires n !in Cells(near) && n !in Cells(far) && Cells(near) !! Cells(far)
    ensures Holds(Mk(item, n.red, dir, near, far))
    ensures Cells(Mk(item, n.red, dir, near, far)) == {n} + Cells(near) + Cells(far)
  {
  }

  method RotateSingleAt(root: SearchNode, dir: bool, ghost t: NodeTree) returns (save: SearchNode)
    requires Holds(t) && RootOf(t) == root && Child(t, !dir).Node?
    modifies Cells(t)
    ensures Holds(RotateSingle(t, dir)) && save == RootOf(RotateSingle(t, dir))
    ensures Cells(RotateSingle(t, dir)) == Cells(t)
  {
    hide Holds, Cells;
    RotatedCells(t, dir);
    ghost var s := Child(t, !dir);
    HoldsChild(t, dir);
    HoldsChild(s, dir);
    ghost var near, inner, outer := Child(t, dir), Child(s, dir), Child(s, !dir);
    assert allocated(Cells(near)) && allocated(Cells(inner)) && allocated(Cells(outer));
    save := root.Link(!dir);
    root.SetLink(!dir, save.Link(dir));
    save.SetLink(dir, root);
    root.red := true;
    save.red := false;
    assert Holds(near) && Holds(inner) && Holds(outer);
    HoldsMk(root, t.item, dir, near, inner);
    HoldsMk(save, s.item, dir, Mk(t.item, true, dir, near, inner), outer);
  }

  method RotateDoubleAt(root: SearchNode, dir: bool, ghost t: NodeTree) returns (save: SearchNode)
    requires Holds(t) && RootOf(t) == root && Child(t, !dir).Node? && Child(Child(t, !dir), dir).Node?
    modifies Cells(t)
    ensures Holds(RotateDouble(t, dir)) && save == RootOf(RotateDouble(t, dir))
    ensures Cells(RotateDouble(t, dir)) == Cells(t)
  {
    ghost var s := Child(t, !dir);
    assert allocated(Cells(s)) && allocated(Cells(Child(t, dir)));
    var top := RotateSingleAt(root.Link(!dir), !dir, s);
    assert Holds(Child(t, dir));
    root.SetLink(!dir, top);
    assert Holds(Child(t, dir)) && Holds(RotateSingle(s, !dir));
    ghost var mid := Mk(t.item, t.red, dir, Child(t, dir), RotateSingle(s, !dir));
    assert Holds(mid);
    save := RotateSingleAt(root, dir, mid);
  }

  method PaintAt(n: SearchNode, red: bool, ghost c: NodeCtx, ghost t: NodeTree, head: SearchNode)
    requires At(c, t, head) && RootOf(t) == n
    modifies n
    ensures At(c, Paint(t, red), head) && AllCells(c, Paint(t, red), head) == AllCells(c, t, head)
  {
    assert Holds(t.left) && Holds(t.right);
    assert allocated(Cells(t.left)) && allocated(Cells(t.right)) && allocated(CtxCells(c, head));
    n.red := red;
  }

  lemma {:induction false} AtUnplug(c: NodeCtx, t: NodeTree, head: SearchNode)
    requires At(Top, Plug(c, t), head)
    ensures At(c, t, head)
    ensures AllCells(Top, Plug(c, t), head) == AllCells(c, t, head)
    decreases c
  {
    if c.Frame? {
      var g := Mk(c.item, c.red, c.dir, t, c.sib);
      AtUnplug(c.up, g, head);
      Unzip(c.up, g, c.dir, head);
    }
  }

  /** The whole tree, once the walk is over. */
  lemma Rebuilt(c: NodeCtx, t: NodeTree, head: SearchNode)
    requires At(c, t, head) && Rules(c, t)
    ensures var whole := Plug(c, t);
            && Holds(whole) && head.link1 == RootOf(whole) && head !in Cells(whole)
            && Cells(whole) + {head} == AllCells(c, t, head)
            && InOrder(whole) == Before(c) + InOrder(t) + After(c)
            && WellColored(Paint(whole, false)) && InOrder(Paint(whole, false)) == InOrder(whole)
  {
    AtPlug(c, t, head);
    PlugRB(c, t, BlackHeight(t));
    PlugInOrder(c, t);
    PaintedBlack(Plug(c, t), TopHeight(c, BlackHeight(t)));
  }
}
