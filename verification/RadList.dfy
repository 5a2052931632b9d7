/** The doubly linked list: nodes chained between two dummies, and the sequence the chain stands for. */
module RadList {

  class Node {
    var prevNode: Node?
    var nextNode: Node?

    constructor ()
      ensures prevNode == null && nextNode == null
    {
      prevNode, nextNode := null, null;
    }
  }

  /** Neighbours in a chain point at each other, and no node stands in it twice. */
  ghost predicate Linked(cells: seq<Node>)
    reads cells
  {
    && (forall i, j :: 0 <= i < j < |cells| ==> cells[i] != cells[j])
    && (forall i :: 0 <= i < |cells| - 1 ==> cells[i].nextNode == cells[i + 1])
    && (forall i :: 0 < i < |cells| ==> cells[i].prevNode == cells[i - 1])
  }

  /** Links as they are after a node was put in behind place k. */
  lemma LinkedIn(cells: seq<Node>, k: nat, node: Node)
    requires k + 1 < |cells| && node !in cells
    requires forall i, j :: 0 <= i < j < |cells| ==> cells[i] != cells[j]
    requires forall i :: 0 <= i < |cells| - 1 && i != k ==> cells[i].nextNode == cells[i + 1]
    requires forall i :: 0 < i < |cells| && i != k + 1 ==> cells[i].prevNode == cells[i - 1]
    requires cells[k].nextNode == node && node.nextNode == cells[k + 1]
    requires cells[k + 1].prevNode == node && node.prevNode == cells[k]
    ensures Linked(cells[..k + 1] + [node] + cells[k + 1..])
  {
    var r := cells[..k + 1] + [node] + cells[k + 1..];
    forall i | 0 <= i < |r| - 1
      ensures r[i].nextNode == r[i + 1]
    {
      if i > k + 1 {
        assert r[i] == cells[i - 1];
      }
    }
    forall i | 0 < i < |r|
      ensures r[i].prevNode == r[i - 1]
    {
      if i > k + 1 {
        assert r[i] == cells[i - 1];
      }
    }
  }

  /** Links as they are after the node in place k was taken out. */
  lemma LinkedOut(cells: seq<Node>, k: nat)
    requires 0 < k < |cells| - 1
    requires forall i, j :: 0 <= i < j < |cells| ==> cells[i] != cells[j]
    requires forall i :: 0 <= i < |cells| - 1 && i != k - 1 && i != k ==> cells[i].nextNode == cells[i + 1]
    requires forall i :: 0 < i < |cells| && i != k && i != k + 1 ==> cells[i].prevNode == cells[i - 1]
    requires cells[k - 1].nextNode == cells[k + 1] && cells[k + 1].prevNode == cells[k - 1]
    ensures Linked(cells[..k] + cells[k + 1..])
  {
    var r := cells[..k] + cells[k + 1..];
    forall i | 0 <= i < |r| - 1
      ensures r[i].nextNode == r[i + 1]
    {
      if i >= k {
        assert r[i] == cells[i + 1];
      }
    }
    forall i | 0 < i < |r|
      ensures r[i].prevNode == r[i - 1]
    {
      if i >= k {
        assert r[i] == cells[i + 1];
      }
    }
  }

  function Framed<T>(first: T, nodes: seq<T>, last: T): (s: seq<T>)
    ensures |s| == |nodes| + 2 && s[0] == first && s[|nodes| + 1] == last
    ensures forall i :: 0 <= i < |nodes| ==> s[i + 1] == nodes[i]
  {
    [first] + nodes + [last]
  }

  lemma FramedWith<T>(first: T, nodes: seq<T>, last: T, k: nat, node: T)
    requires k <= |nodes|
    ensures var s := Framed(first, nodes, last);
            Framed(first, nodes[..k] + [node] + nodes[k..], last) == s[..k + 1] + [node] + s[k + 1..]
  {
    hide Framed;
    var s, r := Framed(first, nodes, last), Framed(first, nodes[..k] + [node] + nodes[k..], last);
    var e := s[..k + 1] + [node] + s[k + 1..];
    forall i | 0 <= i < |r|
      ensures r[i] == e[i]
    {
      if 0 < i < |nodes| + 2 {
        assert r[i] == (nodes[..k] + [node] + nodes[k..])[i - 1];
      }
    }
  }

  lemma FramedWithout<T>(first: T, nodes: seq<T>, last: T, k: nat)
    requires k < |nodes|
    ensures var s := Framed(first, nodes, last);
            Framed(first, nodes[..k] + nodes[k + 1..], last) == s[..k + 1] + s[k + 2..]
  {
    hide Framed;
    var s, r := Framed(first, nodes, last), Framed(first, nodes[..k] + nodes[k + 1..], last);
    var e := s[..k + 1] + s[k + 2..];
    forall i | 0 <= i < |r|
      ensures r[i] == e[i]
    {
      if 0 < i < |nodes| {
        assert r[i] == (nodes[..k] + nodes[k + 1..])[i - 1];
      }
    }
  }

  lemma FramedMembers<T>(first: T, nodes: seq<T>, last: T)
    ensures forall c :: c in Framed(first, nodes, last) <==> c == first || c == last || c in nodes
  {
  }

  class List {
    const dummyFirst: Node
    const dummyLast: Node
    var noNodes: int
    ghost var nodes: seq<Node>

    ghost function Cells(): seq<Node>
      reads this
    {
      Framed(dummyFirst, nodes, dummyLast)
    }

    ghost predicate Valid()
      reads this, Cells()
    {
      && Linked(Cells())
      && dummyFirst.prevNode == null && dummyLast.nextNode == null
      && noNodes == |nodes|
    }

    constructor ()
      ensures Valid() && nodes == []
      ensures fresh(dummyFirst) && fresh(dummyLast)
    {
      dummyFirst := new Node();
      dummyLast := new Node();
      new;
      Reset();
    }

    /** Empties the list whatever it held. */
    method Reset()
      requires dummyFirst != dummyLast
      modifies this, dummyFirst, dummyLast
      ensures Valid() && nodes == []
    {
      dummyFirst.prevNode := null;
      dummyFirst.nextNode := dummyLast;
      dummyLast.prevNode := dummyFirst;
      dummyLast.nextNode := null;
      noNodes := 0;
      nodes := [];
      assert Cells() == [dummyFirst, dummyLast];
    }

    // ----- putting in

    ghost function With(k: nat, node: Node): seq<Node>
      reads this
      requires k <= |nodes|
    {
      nodes[..k] + [node] + nodes[k..]
    }

    /** k is the place behind `after`. */
    method InsertAfter(after: Node, node: Node, ghost k: nat)
      requires Valid() && k <= |nodes| && after == Cells()[k] && node !in Cells()
      modifies this, Cells(), node
      ensures Valid() && nodes == old(With(k, node))
    {
      hide Framed;
      ghost var cells := Cells();
      assert after.nextNode == cells[k + 1];
      node.nextNode := after.nextNode;
      node.prevNode := after;
      after.nextNode := node;
      node.nextNode.prevNode := node;
      noNodes := noNodes + 1;
      LinkedIn(cells, k, node);
      FramedWith(dummyFirst, nodes, dummyLast, k, node);
      nodes := With(k, node);
    }

    method InsertBefore(before: Node, node: Node, ghost k: nat)
      requires Valid() && k <= |nodes| && before == Cells()[k + 1] && node !in Cells()
      modifies this, Cells(), node
      ensures Valid() && nodes == old(With(k, node))
    {
      hide Framed;
      ghost var cells := Cells();
      assert before.prevNode == cells[k];
      node.prevNode := before.prevNode;
      node.nextNode := before;
      before.prevNode := node;
      node.prevNode.nextNode := node;
      noNodes := noNodes + 1;
      LinkedIn(cells, k, node);
      FramedWith(dummyFirst, nodes, dummyLast, k, node);
      nodes := With(k, node);
    }

    method AddToFront(node: Node)
      requires Valid() && node !in Cells()
      modifies this, Cells(), node
      ensures Valid() && nodes == [node] + old(nodes)
    {
      hide Framed;
      ghost var cells := Cells();
      assert dummyFirst.nextNode == cells[1];
      node.prevNode := dummyFirst;
      node.nextNode := dummyFirst.nextNode;
      dummyFirst.nextNode := node;
      node.nextNode.prevNode := node;
      noNodes := noNodes + 1;
      LinkedIn(cells, 0, node);
      FramedWith(dummyFirst, nodes, dummyLast, 0, node);
      nodes := With(0, node);
    }

    method AddToEnd(node: Node)
      requires Valid() && node !in Cells()
      modifies this, Cells(), node
      ensures Valid() && nodes == old(nodes) + [node]
    {
      hide Framed;
      ghost var cells := Cells();
      assert dummyLast.prevNode == cells[|nodes|];
      node.prevNode := dummyLast.prevNode;
      node.nextNode := dummyLast;
      dummyLast.prevNode := node;
      node.prevNode.nextNode := node;
      noNodes := noNodes + 1;
      LinkedIn(cells, |nodes|, node);
      FramedWith(dummyFirst, nodes, dummyLast, |nodes|, node);
      nodes := With(|nodes|, node);
    }

    // ----- taking out

    method Remove(node: Node, ghost k: nat)
      requires Valid() && k < |nodes| && nodes[k] == node
      modifies this, Cells()
      ensures Valid() && nodes == old(nodes[..k] + nodes[k + 1..])
    {
      hide Framed;
      ghost var cells := Cells();
      assert node == cells[k + 1] && node.nextNode == cells[k + 2] && node.prevNode == cells[k];
      node.nextNode.prevNode := node.prevNode;
      node.prevNode.nextNode := node.nextNode;
      noNodes := noNodes - 1;
      LinkedOut(cells, k + 1);
      FramedWithout(dummyFirst, nodes, dummyLast, k);
      nodes := nodes[..k] + nodes[k + 1..];
    }

    method RemoveFirst() returns (node: Node?)
      requires Valid()
      modifies this, Cells()
      ensures Valid()
      ensures node == null <==> old(nodes) == []
      ensures node != null ==> node == old(nodes)[0] && nodes == old(nodes)[1..]
      ensures node == null ==> nodes == []
    {
      hide Framed;
      ghost var cells := Cells();
      assert dummyFirst.nextNode == cells[1];
      if dummyFirst.nextNode == dummyLast {
        return null;
      }
      node := dummyFirst.nextNode;
      assert node.nextNode == cells[2];
      dummyFirst.nextNode := node.nextNode;
      node.nextNode.prevNode := dummyFirst;
      noNodes := noNodes - 1;
      LinkedOut(cells, 1);
      FramedWithout(dummyFirst, nodes, dummyLast, 0);
      nodes := nodes[..0] + nodes[1..];
    }

    method RemoveLast() returns (node: Node?)
      requires Valid()
      modifies this, Cells()
      ensures Valid()
      ensures node == null <==> old(nodes) == []
      ensures node != null ==> node == old(nodes)[|old(nodes)| - 1] && nodes == old(nodes)[..|old(nodes)| - 1]
      ensures node == null ==> nodes == []
    {
      hide Framed;
      ghost var cells, n := Cells(), |nodes|;
      assert dummyLast.prevNode == cells[n];
      if dummyLast.prevNode == dummyFirst {
        return null;
      }
      node := dummyLast.prevNode;
      assert node.prevNode == cells[n - 1];
      dummyLast.prevNode := node.prevNode;
      node.prevNode.nextNode := dummyLast;
      noNodes := noNodes - 1;
      LinkedOut(cells, n);
      FramedWithout(dummyFirst, nodes, dummyLast, n - 1);
      nodes := nodes[..n - 1] + nodes[n..];
    }

    // ----- looking

    method GetNumberOfNodes() returns (n: int)
      requires Valid()
      ensures n == |nodes|
    {
      n := noNodes;
    }

    method GetFirst() returns (r: Node?)
      requires Valid()
      ensures r == if nodes == [] then null else nodes[0]
    {
      hide Framed;
      ghost var cells := Cells();
      assert dummyFirst.nextNode == cells[1];
      r := if dummyFirst.nextNode == dummyLast then null else dummyFirst.nextNode;
    }

    method GetLast() returns (r: Node?)
      requires Valid()
      ensures r == if nodes == [] then null else nodes[|nodes| - 1]
    {
      hide Framed;
      ghost var cells := Cells();
      assert dummyLast.prevNode == cells[|nodes|];
      r := if dummyLast.prevNode == dummyFirst then null else dummyLast.prevNode;
    }

    /** The node in place k + 1, where no node at all counts as place -1. */
    method GetNext(after: Node?, ghost k: int) returns (r: Node?)
      requires Valid() && -1 <= k < |nodes|
      requires after == if k == -1 then null else nodes[k]
      ensures r == if k + 1 < |nodes| then nodes[k + 1] else null
    {
      if after == null {
        r := GetFirst();
        return;
      }
      hide Framed;
      ghost var cells := Cells();
      assert after == cells[k + 1] && after.nextNode == cells[k + 2];
      r := if after.nextNode == dummyLast then null else after.nextNode;
    }

    /** The node in place k - 1, where no node at all counts as the place behind the last. */
    method GetPrevious(before: Node?, ghost k: nat) returns (r: Node?)
      requires Valid() && k <= |nodes|
      requires before == if k == |nodes| then null else nodes[k]
      ensures r == if k > 0 then nodes[k - 1] else null
    {
      if before == null {
        r := GetLast();
        return;
      }
      hide Framed;
      ghost var cells := Cells();
      assert before == cells[k + 1] && before.prevNode == cells[k];
      r := if before.prevNode == dummyFirst then null else before.prevNode;
    }

    /** Takes a node out, steps back and on again: to the node that stood behind it. */
    method TakeOut(node: Node, ghost k: nat) returns (next: Node?)
      requires Valid() && k < |nodes| && nodes[k] == node
      modifies this, Cells()
      ensures Valid() && nodes == old(nodes[..k] + nodes[k + 1..])
      ensures next == if k < |nodes| then nodes[k] else null
    {
      var previous := GetPrevious(node, k);
      Remove(node, k);
      next := GetNext(previous, k - 1);
    }

    /** One turn of the loop below. */
    method Visit(node: Node, unwanted: set<Node>, ghost k: nat) returns (next: Node?)
      requires Valid() && k < |nodes| && nodes[k] == node
      modifies this, Cells()
      ensures Valid() && nodes == old(if node in unwanted then nodes[..k] + nodes[k + 1..] else nodes)
      ensures next == if node in unwanted then (if k < |nodes| then nodes[k] else null)
                      else if k + 1 < |nodes| then nodes[k + 1] else null
    {
      if node in unwanted {
        next := TakeOut(node, k);
      } else {
        next := GetNext(node, k);
      }
    }

    /** The loop that callers take nodes out with: after a removal it steps back, and stepping on from nowhere
        starts at the front again. Every node is looked at once, and exactly the unwanted ones go. */
    method RemoveAll(unwanted: set<Node>) returns (ghost seen: seq<Node>)
      requires Valid()
      modifies this, Cells()
      ensures Valid() && nodes == Kept(old(nodes), unwanted)
      ensures seen == old(nodes)
    {
      hide Kept;
      ghost var all := nodes;
      ghost var j := 0;
      KeptEnds(all, unwanted);
      var node := GetFirst();
      while node != null
        invariant Valid() && j <= |all|
        invariant nodes == Kept(all[..j], unwanted) + all[j..]
        invariant node == if j < |all| then all[j] else null
        decreases |all| - j
      {
        ghost var k := |Kept(all[..j], unwanted)|;
        KeptOneMore(all, j, nodes, unwanted);
        FramedKept(dummyFirst, all, dummyLast, j, unwanted);
        node := Visit(node, unwanted, k);
        j := j + 1;
      }
      seen := all[..j];
    }
  }

  ghost function Kept(nodes: seq<Node>, unwanted: set<Node>): seq<Node> {
    if nodes == [] then []
    else
      var rest := Kept(nodes[..|nodes| - 1], unwanted);
      if nodes[|nodes| - 1] in unwanted then rest else rest + [nodes[|nodes| - 1]]
  }

  lemma KeptEnds(all: seq<Node>, unwanted: set<Node>)
    ensures Kept(all[..0], unwanted) + all[0..] == all
    ensures Kept(all[..|all|], unwanted) + all[|all|..] == Kept(all, unwanted) && all[..|all|] == all
  {
    assert all[..|all|] == all;
    assert all[..0] == [];
    assert [] + all[0..] == all;
  }

  lemma KeptOneMore(all: seq<Node>, j: nat, nodes: seq<Node>, unwanted: set<Node>)
    requires j < |all| && nodes == Kept(all[..j], unwanted) + all[j..]
    ensures var k := |Kept(all[..j], unwanted)|;
            && |nodes| == k + |all| - j && nodes[k] == all[j]
            && (j + 1 < |all| ==> nodes[k + 1] == all[j + 1])
            && if all[j] in unwanted
               then nodes[..k] + nodes[k + 1..] == Kept(all[..j + 1], unwanted) + all[j + 1..]
               else nodes == Kept(all[..j + 1], unwanted) + all[j + 1..]
  {
    assert all[..j + 1][..j] == all[..j];
  }

  lemma {:induction false} KeptMember(nodes: seq<Node>, unwanted: set<Node>, n: Node)
    ensures n in Kept(nodes, unwanted) <==> n in nodes && n !in unwanted
  {
    if nodes != [] {
      KeptMember(nodes[..|nodes| - 1], unwanted, n);
      assert nodes == nodes[..|nodes| - 1] + [nodes[|nodes| - 1]];
    }
  }

  lemma FramedKept(first: Node, all: seq<Node>, last: Node, j: nat, unwanted: set<Node>)
    requires j <= |all|
    ensures var s := Framed(first, Kept(all[..j], unwanted) + all[j..], last);
            forall i :: 0 <= i < |s| ==> s[i] in Framed(first, all, last)
  {
    var kept := Kept(all[..j], unwanted);
    var s := Framed(first, kept + all[j..], last);
    forall i | 0 <= i < |s|
      ensures s[i] in Framed(first, all, last)
    {
      FramedMembers(first, all, last);
      if 1 <= i <= |kept| {
        KeptMember(all[..j], unwanted, kept[i - 1]);
      }
    }
  }

  /** a stands before b. */
  ghost predicate Before(nodes: seq<Node>, a: Node, b: Node) {
    exists i, j :: 0 <= i < j < |nodes| && nodes[i] == a && nodes[j] == b
  }

  /** What is kept is the rest in its order: every kept node was there and is wanted, and none is lost. */
  lemma {:induction false} KeptMeans(nodes: seq<Node>, unwanted: set<Node>)
    ensures forall n :: n in Kept(nodes, unwanted) <==> n in nodes && n !in unwanted
    ensures forall a, b :: 0 <= a < b < |Kept(nodes, unwanted)| ==>
            Before(nodes, Kept(nodes, unwanted)[a], Kept(nodes, unwanted)[b])
  {
    forall n: Node
      ensures n in Kept(nodes, unwanted) <==> n in nodes && n !in unwanted
    {
      KeptMember(nodes, unwanted, n);
    }
    if nodes != [] {
      var front, last := nodes[..|nodes| - 1], nodes[|nodes| - 1];
      assert nodes == front + [last];
      KeptMeans(front, unwanted);
      var r, s := Kept(nodes, unwanted), Kept(front, unwanted);
      forall a, b | 0 <= a < b < |r|
        ensures Before(nodes, r[a], r[b])
      {
        assert a < |s| && r[a] == s[a];
        KeptMember(front, unwanted, s[a]);
        if b < |s| {
          BeforeStill(front, last, s[a], s[b]);
        } else {
          assert s[a] in front;
          var i :| 0 <= i < |front| && front[i] == s[a];
          assert nodes[i] == r[a] && nodes[|front|] == r[b];
        }
      }
    }
  }

  lemma BeforeStill(nodes: seq<Node>, last: Node, a: Node, b: Node)
    requires Before(nodes, a, b)
    ensures Before(nodes + [last], a, b)
  {
    var i, j :| 0 <= i < j < |nodes| && nodes[i] == a && nodes[j] == b;
    assert (nodes + [last])[i] == a && (nodes + [last])[j] == b;
  }
}
