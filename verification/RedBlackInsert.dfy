/** The top-down insertion as steps of a zipper, and why the walk never meets a red violation while
    its trailing pointers are stale. */
module RedBlackInsert {
  import opened SearchText
  import opened RedBlack

  /** How far the trailing pointers of the walk can be trusted: all of them; all but the great-grandparent;
      only the parent. */
  datatype Trail = Exact | GreatStale | GrandStale

  /** Can neither be flipped nor take part in a violation, and nor can it be missing. */
  predicate Cool<I>(t: Tree<I>) {
    t.Node? && !t.red && !Red(t.left) && !Red(t.right)
  }

  predicate Flippable<I>(t: Tree<I>) {
    t.Node? && Red(t.left) && Red(t.right)
  }

  function Flip<I>(t: Tree<I>): Tree<I>
    requires t.Node?
  {
    Node(t.item, true, Paint(t.left, false), Paint(t.right, false))
  }

  /** What the walk makes of the subtree it arrives at: a new node, a flipped one, or the same. */
  function Arrive<I>(t: Tree<I>, item: Item<I>): Tree<I> {
    if t.Leaf? then Node(item, true, Leaf, Leaf)
    else if Flippable(t) then Flip(t)
    else t
  }

  predicate Violation<I>(c: Ctx<I>, t: Tree<I>) {
    c.Frame? && c.red && Red(t)
  }

  predicate Fixable<I>(c: Ctx<I>, t: Tree<I>) {
    && Violation(c, t) && c.up.Frame? && !c.up.red && !Red(c.up.sib)
  }

  /** The subtree at the grandparent, before the rotation. */
  function AtGrand<I>(c: Ctx<I>, t: Tree<I>): Tree<I>
    requires c.Frame? && c.up.Frame?
  {
    Mk(c.up.item, c.up.red, c.up.dir, Mk(c.item, c.red, c.dir, t, c.sib), c.up.sib)
  }

  /** The position after the rotation: still at t after a single one, at its top after a double one. */
  function Fix<I>(c: Ctx<I>, t: Tree<I>): (Ctx<I>, Tree<I>)
    requires Fixable(c, t)
  {
    if c.dir == c.up.dir then
      (Frame(c.up.up, c.item, false, c.dir, Mk(c.up.item, true, c.up.dir, c.sib, c.up.sib)), t)
    else
      (c.up.up, RotateDouble(AtGrand(c, t), !c.up.dir))
  }

  /** What holds each time the walk for k is about to look at the subtree t. */
  predicate WalkInv<I>(c: Ctx<I>, t: Tree<I>, trail: Trail, k: Key) {
    && Rules(c, t)
    && Brackets(c, k)
    && (c.Top? ==> t.Node? && !t.red && trail.Exact?)
    && (c.Frame? ==>
          match trail
          case Exact =>
            && (Red(t) ==> !Red(c.sib))
            && (c.red ==> Cool(t) || (c.up.Frame? && !Red(c.up.sib)))
          case GreatStale =>
            Cool(t)
          case GrandStale =>
            && !c.red && Red(t)
            && (t.item.key != k ==> Cool(Child(t, Below(t.item.key, k)))))
  }

  lemma ArriveKeeps<I>(c: Ctx<I>, t: Tree<I>, item: Item<I>, h: nat)
    requires RB(t, h)
    ensures RB(Arrive(t, item), h)
    ensures t.Node? ==> InOrder(Arrive(t, item)) == InOrder(t)
    ensures Red(Arrive(t, item)) && !Red(t) ==> t.Leaf? || Flippable(t)
  {
  }

  /** A violation is met only with exact pointers, below a black grandparent with a black sibling. */
  lemma ViolationIsFixable<I>(c: Ctx<I>, t: Tree<I>, trail: Trail, k: Key, item: Item<I>)
    requires WalkInv(c, t, trail, k)
    requires Violation(c, Arrive(t, item))
    ensures trail.Exact? && Fixable(c, Arrive(t, item))
  {
    assert RBCtx(c.up, BlackHeight(t), true);
  }

  /** The rotations restore the rules. */
  lemma FixKeepsRules<I>(c: Ctx<I>, t: Tree<I>, h: nat)
    requires Fixable(c, t) && RB(t, h) && RBCtx(c, h, false)
    ensures var (c', t') := Fix(c, t);
            var h' := if c.dir == c.up.dir then h else h + 1;
            RB(t', h') && RBCtx(c', h', Red(t'))
  {
  }

  lemma FixKeepsOrder<I>(c: Ctx<I>, t: Tree<I>)
    requires Fixable(c, t)
    ensures var (c', t') := Fix(c, t);
            Before(c') + InOrder(t') + After(c') == Before(c) + InOrder(t) + After(c)
    ensures var (c', t') := Fix(c, t); Plug(c', t') == Plug(c.up.up,
              if c.dir == c.up.dir then RotateSingle(AtGrand(c, t), !c.up.dir)
              else RotateDouble(AtGrand(c, t), !c.up.dir))
  {
    var (c', t') := Fix(c, t);
    var g := AtGrand(c, t);
    PlugInOrder(c', t');
    PlugInOrder(c, t);
    PlugInOrder(c.up.up, g);
    if c.dir == c.up.dir {
      RotateSingleKeepsOrder(g, !c.up.dir);
      PlugInOrder(c.up.up, RotateSingle(g, !c.up.dir));
    } else {
      RotateDoubleKeepsOrder(g, !c.up.dir);
      PlugInOrder(c.up.up, t');
    }
  }

  /** The position after arriving and fixing. */
  function Settle<I>(c: Ctx<I>, t: Tree<I>, item: Item<I>): (Ctx<I>, Tree<I>) {
    var a := Arrive(t, item);
    if Fixable(c, a) then Fix(c, a) else (c, a)
  }

  function NextTrail<I>(c: Ctx<I>, t: Tree<I>, trail: Trail, item: Item<I>): Trail {
    if Fixable(c, Arrive(t, item)) then (if c.dir == c.up.dir then GreatStale else GrandStale)
    else if trail.GrandStale? then GreatStale
    else Exact
  }

  lemma SettleKeepsRules<I>(c: Ctx<I>, t: Tree<I>, trail: Trail, k: Key, item: Item<I>)
    requires WalkInv(c, t, trail, k)
    ensures var (c', t') := Settle(c, t, item); t'.Node? && Rules(c', t') && Brackets(c', k)
  {
    var h := BlackHeight(t);
    var a := Arrive(t, item);
    ArriveKeeps(c, t, item, h);
    if Violation(c, a) {
      ViolationIsFixable(c, t, trail, k, item);
      FixKeepsRules(c, a, h);
      assert Brackets(c.up, k) && Brackets(c.up.up, k);
    }
    var (c', t') := Settle(c, t, item);
    HeightUnique(t', if Fixable(c, a) && c.dir != c.up.dir then h + 1 else h);
  }

  /** The children of a subtree that was just flipped are cool. */
  lemma FlippedChildrenAreCool<I>(t: Tree<I>, h: nat)
    requires Flippable(t) && RB(t, h)
    ensures Cool(Paint(t.left, false)) && Cool(Paint(t.right, false))
  {
    assert RB(t.left, h - 1) && RB(t.right, h - 1);
  }

  /** One step of the walk keeps the invariant. */
  lemma WalkStep<I>(c: Ctx<I>, t: Tree<I>, trail: Trail, k: Key, item: Item<I>)
    requires WalkInv(c, t, trail, k)
    requires t.Node?
    requires Settle(c, t, item).1.item.key != k
    ensures var (c', t') := Settle(c, t, item);
            var dir := Below(t'.item.key, k);
            WalkInv(Down(c', t', dir), Child(t', dir), NextTrail(c, t, trail, item), k)
  {
    SettleKeepsRules(c, t, trail, k, item);
    var a := Arrive(t, item);
    var (c', t') := Settle(c, t, item);
    var dir := Below(t'.item.key, k);
    var sub := Child(t', dir);
    HeightUnique(sub, if t'.red then BlackHeight(t') else BlackHeight(t') - 1);
    BelowTotal(t'.item.key, k);
    if Violation(c, a) {
      ViolationIsFixable(c, t, trail, k, item);
      assert Brackets(c.up, k);
      BelowTotal(c.item.key, k);
      BelowTotal(c.up.item.key, k);
    }
    if Flippable(t) {
      FlippedChildrenAreCool(t, BlackHeight(t));
    }
  }

  /** The walk ends: each step shortens the search path left, except for one repeated step after a double rotation. */
  lemma WalkEnds<I>(c: Ctx<I>, t: Tree<I>, trail: Trail, k: Key, item: Item<I>)
    requires WalkInv(c, t, trail, k)
    requires t.Node? && Settle(c, t, item).1.item.key != k
    ensures var t' := Settle(c, t, item).1;
            var sub := Child(t', Below(t'.item.key, k));
            || PathLength(sub, k) < PathLength(t, k)
            || (PathLength(sub, k) == PathLength(t, k) && !trail.GrandStale?
               && NextTrail(c, t, trail, item).GrandStale?)
  {
    var a := Arrive(t, item);
    assert PathLength(a, k) == PathLength(t, k);
    if Violation(c, a) {
      ViolationIsFixable(c, t, trail, k, item);
      assert Brackets(c.up, k);
      BelowTotal(c.item.key, k);
      BelowTotal(c.up.item.key, k);
    }
  }

  /** A missing key belongs in the gap at the end of its search path. */
  lemma NewItem<I>(c: Ctx<I>, x: Item<I>)
    requires Brackets(c, x.key) && Sorted(Before(c) + After(c))
    ensures Sorted(Before(c) + [x] + After(c))
    ensures x.key !in ToMap(Before(c) + After(c))
    ensures ToMap(Before(c) + [x] + After(c)) == ToMap(Before(c) + After(c))[x.key := x.ord]
  {
    assert Before(c) + After(c) == Before(c) + [] + After(c);
    SortedHalves(Before(c), [], After(c));
    BracketsMean(c, x.key);
    SortedWith(Before(c), x, After(c));
    ToMapOneMore(Before(c), x, After(c));
    SortedWithout(Before(c), x, After(c));
    ToMapDomain(Before(c) + After(c), x.key);
  }

  lemma SettleKeepsOrder<I>(c: Ctx<I>, t: Tree<I>, item: Item<I>)
    ensures var (c', t') := Settle(c, t, item);
            Before(c') + InOrder(t') + After(c')
              == Before(c) + (if t.Leaf? then [item] else InOrder(t)) + After(c)
  {
    var a := Arrive(t, item);
    if Fixable(c, a) {
      FixKeepsOrder(c, a);
    }
    if t.Leaf? {
      assert InOrder(a) == [item];
    }
  }
}
