/** The tree node, kept in an arena: a node is addressed by its position in
    `Tree.nodes`, its children are ids of that arena and its parent link is a
    non-owning id that may be absent. Position 0 is the root. */
module TreeNode {

  import opened Wrappers
  import Seqs

  datatype Node = Node(name: string, fullPath: string, children: seq<nat>, parent: Option<nat>)

  datatype Tree = Tree(nodes: seq<Node>)

  const Root: nat := 0

  /** Constructs a node with no children, with or without a parent link; the
      node is not yet anybody's child. */
  function NewNode(t: Tree, name: string, fullPath: string, parent: Option<nat>): (r: (Tree, nat))
    ensures r.1 == |t.nodes| && |r.0.nodes| == |t.nodes| + 1
    ensures r.0.nodes[..|t.nodes|] == t.nodes
    ensures r.0.nodes[r.1] == Node(name, fullPath, [], parent)
  {
    (Tree(t.nodes + [Node(name, fullPath, [], parent)]), |t.nodes|)
  }

  function ChildCount(t: Tree, n: nat): nat
    requires n < |t.nodes|
  {
    |t.nodes[n].children|
  }

  /** The child at position `i`, or None when `i` is out of range. */
  function Child(t: Tree, n: nat, i: int): (r: Option<nat>)
    requires n < |t.nodes|
    ensures r.Some? <==> 0 <= i < ChildCount(t, n)
    ensures r.Some? ==> r.value == t.nodes[n].children[i]
  {
    if 0 <= i < |t.nodes[n].children| then Some(t.nodes[n].children[i]) else None
  }

  /** Appends `c` to the children of `n`; the parent link of `c` is not checked. */
  function AppendChild(t: Tree, n: nat, c: nat): (r: Tree)
    requires n < |t.nodes|
    ensures |r.nodes| == |t.nodes|
    ensures forall i | 0 <= i < |t.nodes| && i != n :: r.nodes[i] == t.nodes[i]
    ensures ChildCount(r, n) == ChildCount(t, n) + 1
    ensures forall i | 0 <= i < ChildCount(t, n) :: Child(r, n, i) == Child(t, n, i)
    ensures Child(r, n, ChildCount(t, n)) == Some(c)
    ensures r.nodes[n].name == t.nodes[n].name && r.nodes[n].fullPath == t.nodes[n].fullPath
    ensures r.nodes[n].parent == t.nodes[n].parent
  {
    var node := t.nodes[n];
    Tree(t.nodes[n := node.(children := node.children + [c])])
  }

  /** Position of `n` among its parent's children, found by a linear search.
      A node without a usable parent link, or one its parent does not list,
      is at row 0: the node class is not part of this model, and 0 is the
      value assumed for it there. */
  function Row(t: Tree, n: nat): (r: nat)
    requires n < |t.nodes|
    ensures t.nodes[n].parent.None? ==> r == 0
  {
    match t.nodes[n].parent
    case None => 0
    case Some(p) =>
      if p < |t.nodes| then
        match Seqs.IndexOf(t.nodes[p].children, n)
        case Some(k) => k
        case None => 0
      else 0
  }

  /** A node whose parent lists it sits at its row: the child of the parent at
      `Row(n)` is `n` itself, and no earlier child is `n`. */
  lemma RowLocatesNode(t: Tree, n: nat)
    requires n < |t.nodes|
    requires t.nodes[n].parent.Some? && t.nodes[n].parent.value < |t.nodes|
    requires n in t.nodes[t.nodes[n].parent.value].children
    ensures Row(t, n) < ChildCount(t, t.nodes[n].parent.value)
    ensures Child(t, t.nodes[n].parent.value, Row(t, n)) == Some(n)
    ensures n !in t.nodes[t.nodes[n].parent.value].children[..Row(t, n)]
  {
  }

  /** The row of a node just appended to a parent that did not list it yet is
      the parent's former child count. */
  lemma RowAfterAppend(t: Tree, p: nat, c: nat)
    requires p < |t.nodes| && c < |t.nodes| && c != p
    requires t.nodes[c].parent == Some(p)
    requires c !in t.nodes[p].children
    ensures Row(AppendChild(t, p, c), c) == ChildCount(t, p)
  {
    var r := AppendChild(t, p, c);
    assert r.nodes[p].children == t.nodes[p].children + [c];
    assert r.nodes[p].children[..ChildCount(t, p)] == t.nodes[p].children;
  }

  /** Discards every node but the root, and the root's children. */
  function ResetTreeNode(t: Tree): (r: Tree)
    requires |t.nodes| > 0
    ensures |r.nodes| == 1 && ChildCount(r, Root) == 0
    ensures r.nodes[Root].name == t.nodes[Root].name
    ensures r.nodes[Root].fullPath == t.nodes[Root].fullPath
    ensures r.nodes[Root].parent == t.nodes[Root].parent
  {
    Tree([t.nodes[Root].(children := [])])
  }
}
