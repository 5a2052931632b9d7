/** The text index of radtextsearch: a finite map from texts, up to their first 128 characters, to ordinals. */
module TextSearch {
  import opened Powers
  import opened SearchText
  import opened RedBlack
  import RedBlackInsert
  import RedBlackRemove
  import opened SearchNodes
  import InsertWalk
  import opened RemoveWalk

  const OK := 0
  const ERROR := -1

  class TextSearch {
    var root: SearchNode?
    ghost var tree: NodeTree

    ghost predicate Valid()
      reads this, Cells(tree)
    {
      && root == RootOf(tree) && Holds(tree)
      && WellColored(tree) && Sorted(InOrder(tree))
    }

    ghost function Contents(): map<Key, int>
      reads this
    {
      ToMap(InOrder(tree))
    }

    /** radtextsearchInit */
    constructor ()
      ensures Valid() && Contents() == map[] && Cells(tree) == {}
    {
      root, tree := null, Leaf;
    }

    method MakeRootBlack()
      requires root == RootOf(tree) && Holds(tree) && tree.Node?
      modifies this, root
      ensures root == RootOf(tree) && Holds(tree) && tree == Paint(old(tree), false)
      ensures root == old(root) && Cells(tree) == old(Cells(tree))
    {
      assert Holds(tree.left) && Holds(tree.right);
      assert allocated(Cells(tree.left)) && allocated(Cells(tree.right));
      root.red := false;
      tree := Paint(tree, false);
    }

    method Insert(text: string, ordinal: int) returns (status: int)
      requires Valid()
      modifies this, Cells(tree)
      ensures Valid() && fresh(Cells(tree) - old(Cells(tree)))
      ensures status == OK
      ensures Contents() == if KeyOf(text) in old(Contents()) then old(Contents())
                            else old(Contents())[KeyOf(text) := ordinal]
    {
      ghost var k := KeyOf(text);
      if root == null {
        root := new SearchNode(text, ordinal);
        tree := Node(Item(root, k, ordinal), true, Leaf, Leaf);
      } else {
        root, tree := InsertWalk.InsertBelow(root, text, ordinal, tree);
      }
      MakeRootBlack();
      status := OK;
    }

    /** Removes a text, or the least one; it reports an error only for an empty index. */
    method Remove(wanted: Wanted) returns (status: int)
      requires Valid()
      modifies this, Cells(tree)
      ensures Valid() && Cells(tree) <= old(Cells(tree))
      ensures status == if old(Contents()) == map[] then ERROR else OK
      ensures wanted.Text? ==> Contents() == old(Contents()) - {KeyOf(wanted.text)}
      ensures wanted.Null? && status == OK ==>
        exists k :: IsLeast(k, old(Contents())) && Contents() == old(Contents()) - {k}
      ensures status == ERROR ==> Contents() == map[]
    {
      EmptyOrNot(tree);
      if root == null {
        return ERROR;
      }
      ghost var items := InOrder(tree);
      root, tree := RemoveBelow(root, wanted, tree);
      if root != null {
        MakeRootBlack();
      }
      if wanted.Null? {
        FirstIsLeast(items);
        assert IsLeast(items[0].key, old(Contents())) && Contents() == old(Contents()) - {items[0].key};
      }
      status := OK;
    }

    /** Looks a text up; the store is written only when it is found, after at most 2 * log2(n + 1) steps. */
    method Find(text: string, store: int) returns (status: int, ordinal: int, ghost steps: nat)
      requires Valid()
      ensures status == if KeyOf(text) in Contents() then OK else ERROR
      ensures ordinal == if KeyOf(text) in Contents() then Contents()[KeyOf(text)] else store
      ensures Pow2(steps) <= (|InOrder(tree)| + 1) * (|InOrder(tree)| + 1)
    {
      hide Pow2;
      Pow2Step(0);
      ghost var k, items := KeyOf(text), InOrder(tree);
      if root == null {
        return ERROR, store, 0;
      }
      var q := root;
      ghost var c: NodeCtx, t := Top, tree;
      steps := 0;
      PathIsLogarithmic(tree, k);
      while q != null
        invariant Holds(t) && q == RootOf(t) && Brackets(c, k)
        invariant Before(c) + InOrder(t) + After(c) == items
        invariant steps + PathLength(t, k) == PathLength(tree, k)
        decreases t
      {
        CompareMeans(text, q.text);
        BelowTotal(q.text, k);
        var retVal := StrNCmp(text, q.text, SEARCH_TEXT_MAX);
        var dir := retVal > 0;
        steps := steps + 1;
        if retVal == 0 {
          ItemHere(c, t, items);
          return OK, q.ordinal, steps;
        }
        DownKeepsOrder(c, t, dir);
        q := q.Link(dir);
        c, t := Down(c, t, dir), Child(t, dir);
      }
      NothingHere(c, items, k);
      status, ordinal := ERROR, store;
    }

    /** Empties the index, least text first. */
    method Exit() returns (ghost removed: seq<Key>)
      requires Valid()
      modifies this, Cells(tree)
      ensures root == null && Contents() == map[]
      ensures forall k :: k in old(Contents()) <==> k in removed
      ensures Ascending(removed, map[])
    {
      removed := [];
      var status := OK;
      while status == OK
        invariant Valid() && Cells(tree) <= old(Cells(tree))
        invariant status == OK || Contents() == map[]
        invariant forall k :: k in old(Contents()) <==> k in removed || k in Contents()
        invariant Ascending(removed, Contents())
        decreases status == OK, |Contents()|
      {
        ghost var was := Contents();
        status := Remove(Null);
        if status == OK {
          ghost var k :| IsLeast(k, was) && Contents() == was - {k};
          OneFewer(was, k, removed);
          removed := removed + [k];
        }
      }
      EmptyOrNot(tree);
    }
  }

  ghost predicate IsLeast(k: Key, m: map<Key, int>) {
    k in m && forall k' :: k' in m && k' != k ==> Below(k, k')
  }

  /** In ascending order, and all of them below what is left. */
  ghost predicate Ascending(removed: seq<Key>, left: map<Key, int>) {
    && (forall i, j :: 0 <= i < j < |removed| ==> Below(removed[i], removed[j]))
    && (forall i, k :: 0 <= i < |removed| && k in left ==> Below(removed[i], k))
  }

  lemma OneFewer(m: map<Key, int>, k: Key, removed: seq<Key>)
    requires IsLeast(k, m) && Ascending(removed, m)
    ensures |m - {k}| < |m| && Ascending(removed + [k], m - {k})
    ensures forall k' :: k' in m <==> k' == k || k' in m - {k}
  {
    assert m.Keys == (m - {k}).Keys + {k};
  }

  lemma FirstIsLeast(items: seq<Item<SearchNode>>)
    requires Sorted(items) && items != []
    ensures IsLeast(items[0].key, ToMap(items))
  {
    forall k | k in ToMap(items) && k != items[0].key
      ensures Below(items[0].key, k)
    {
      ToMapDomain(items, k);
    }
  }

  lemma EmptyOrNot(t: NodeTree)
    ensures ToMap(InOrder(t)) == map[] <==> t.Leaf?
  {
    if t.Node? {
      assert InOrder(t) != [];
      assert InOrder(t)[0].key in ToMap(InOrder(t));
    }
  }

  lemma ItemHere(c: NodeCtx, t: NodeTree, items: seq<Item<SearchNode>>)
    requires t.Node? && Sorted(items) && items == Before(c) + InOrder(t) + After(c)
    ensures t.item.key in ToMap(items) && ToMap(items)[t.item.key] == t.item.ord
  {
    var i := |Before(c)| + |InOrder(t.left)|;
    assert items[i] == t.item;
    ToMapAt(items, i);
  }

  lemma NothingHere(c: NodeCtx, items: seq<Item<SearchNode>>, k: Key)
    requires Sorted(items) && items == Before(c) + [] + After(c) && Brackets(c, k)
    ensures k !in ToMap(items)
  {
    SortedHalves(Before(c), [], After(c));
    BracketsMean(c, k);
    BelowTotal(k, k);
    ToMapDomain(items, k);
  }

  lemma WhatIsRemoved(wanted: Wanted, before: seq<Item<SearchNode>>, after: seq<Item<SearchNode>>, found: SearchNode?,
                      items: seq<Item<SearchNode>>)
    requires Knows(wanted, before, after, found) && before + after == items && items != []
    requires wanted.Null? ==> found != null
    ensures var k := if wanted.Text? then KeyOf(wanted.text) else items[0].key;
            if found != null then after != [] && after[0].key == k else ToMap(items) == ToMap(items) - {k}
  {
    if found == null {
      RedBlackRemove.Missing(before, after, KeyOf(wanted.text));
    }
  }

  lemma NothingBetween(c: NodeCtx)
    ensures Before(c) + InOrder<SearchNode>(Leaf) + After(c) == Before(c) + After(c)
  {
  }

  lemma GapOrder(c: NodeCtx, t: NodeTree, dir: bool)
    requires t.Node? && Child(t, dir).Leaf?
    ensures Before(c) + InOrder(t) + After(c) == Before(Down(c, t, dir)) + After(Down(c, t, dir))
  {
    DownKeepsOrder(c, t, dir);
    NothingBetween(Down(c, t, dir));
  }

  /** Removal from a non-empty tree below a false root; the new root may still be red. */
  method RemoveBelow(root: SearchNode, wanted: Wanted, ghost tree: NodeTree)
    returns (top: SearchNode?, ghost whole: NodeTree)
    requires Holds(tree) && RootOf(tree) == root
    requires WellColored(tree) && Sorted(InOrder(tree))
    modifies Cells(tree)
    ensures Holds(whole) && RootOf(whole) == top && Cells(whole) <= Cells(tree)
    ensures WellColored(Paint(whole, false)) && InOrder(Paint(whole, false)) == InOrder(whole)
    ensures Sorted(InOrder(whole))
    ensures ToMap(InOrder(whole))
            == ToMap(InOrder(tree)) - {if wanted.Text? then KeyOf(wanted.text) else InOrder(tree)[0].key}
  {
    assert allocated(Cells(tree));
    var head := new SearchNode("", 0);
    head.red := false;
    head.link1 := root;
    var q, parent, found;
    ghost var c, t, dir;
    q, parent, found, c, t, dir := RemoveWalk.Walk(root, wanted, head, tree);
    WhatIsRemoved(wanted, Before(Down(c, t, dir)), After(Down(c, t, dir)), found, InOrder(tree));
    if found != null {
      c := Unlink(found, q, parent, c, t, dir, head);
      t := Leaf;
      NothingBetween(c);
    } else {
      GapOrder(c, t, dir);
    }
    Rebuilt(c, t, head);
    whole := Plug(c, t);
    assert forall x :: x in Cells(whole) ==> x in AllCells(c, t, head) && x != head;
    top := head.link1;
  }

  /** What the debugging walk makes of a node from what it found below. */
  function Verdict(t: NodeTree, lh: nat, rh: nat): nat
    requires t.Node?
  {
    if t.red && (Red(t.left) || Red(t.right)) then 0
    else if (t.left.Node? && !Below(t.left.item.key, t.item.key))
      || (t.right.Node? && !Below(t.item.key, t.right.item.key)) then 0
    else if lh != 0 && rh != 0 && lh != rh then 0
    else if lh != 0 && rh != 0 then (if t.red then lh else lh + 1)
    else 0
  }

  /** A positive verdict is one more than the black height of a tree that keeps the rules, and no other tree gets
      one. */
  ghost predicate Judged(t: NodeTree, r: nat) {
    && (r > 0 ==> RB(t, r - 1) && LocallyOrdered(t))
    && (RB(t, BlackHeight(t)) && LocallyOrdered(t) ==> r == BlackHeight(t) + 1)
  }

  lemma VerdictSound(t: NodeTree, lh: nat, rh: nat)
    requires t.Node? && Judged(t.left, lh) && Judged(t.right, rh)
    ensures var r := Verdict(t, lh, rh); r > 0 ==> RB(t, r - 1) && LocallyOrdered(t)
  {
    if Verdict(t, lh, rh) > 0 {
      assert RB(t.left, lh - 1) && RB(t.right, lh - 1);
    }
  }

  lemma VerdictComplete(t: NodeTree, lh: nat, rh: nat)
    requires t.Node? && Judged(t.left, lh) && Judged(t.right, rh)
    requires RB(t, BlackHeight(t)) && LocallyOrdered(t)
    ensures Verdict(t, lh, rh) == BlackHeight(t) + 1
  {
    var h := BlackHeight(t);
    var h' := if t.red then h else h - 1;
    assert RB(t.left, h') && RB(t.right, h');
    HeightUnique(t.left, h');
    HeightUnique(t.right, h');
  }

  lemma VerdictJudged(t: NodeTree, lh: nat, rh: nat)
    requires t.Node? && Judged(t.left, lh) && Judged(t.right, rh)
    ensures Judged(t, Verdict(t, lh, rh))
  {
    hide Verdict, RB, LocallyOrdered, BlackHeight;
    VerdictSound(t, lh, rh);
    if RB(t, BlackHeight(t)) && LocallyOrdered(t) {
      VerdictComplete(t, lh, rh);
    }
  }

  /** The debugging walk. */
  function Debug(n: SearchNode?, ghost t: NodeTree): (r: nat)
    requires Holds(t) && n == RootOf(t)
    reads Cells(t)
    ensures Judged(t, r)
    decreases t
  {
    if n == null then 1
    else
      assert Holds(t.left) && Holds(t.right);
      var ln, rn := n.link0, n.link1;
      var lh := Debug(ln, t.left);
      var rh := Debug(rn, t.right);
      VerdictJudged(t, lh, rh);
      var redBelowRed := NodeIsRed(n) && (NodeIsRed(ln) || NodeIsRed(rn));
      var unordered := (ln != null && StrNCmp(ln.text, n.text, SEARCH_TEXT_MAX) >= 0)
                       || (rn != null && StrNCmp(n.text, rn.text, SEARCH_TEXT_MAX) >= 0);
      var r := if redBelowRed || unordered || (lh != 0 && rh != 0 && lh != rh) then 0
               else if lh != 0 && rh != 0 then (if NodeIsRed(n) then lh else lh + 1)
               else 0;
      assert r == Verdict(t, lh, rh);
      r
  }

  /** Between calls the debugging walk never complains. */
  lemma DebugAccepts(index: TextSearch)
    requires index.Valid()
    ensures Debug(index.root, index.tree) == BlackHeight(index.tree) + 1
  {
    SortedIsLocallyOrdered(index.tree);
  }
}
