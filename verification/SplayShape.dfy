/** Shapes of a splay tree: trees of nodes, and the two spines that a splay takes apart from the tree above the root. */
module SplayShape {

  class Node {
    const key: int
    var left: Node?
    var right: Node?

    constructor (key: int)
      ensures this.key == key && left == null && right == null
    {
      this.key, left, right := key, null, null;
    }
  }

  datatype Tree = Leaf | Bin(left: Tree, node: Node, right: Tree)

  function Inorder(t: Tree): seq<Node> {
    match t
    case Leaf => []
    case Bin(l, n, r) => Inorder(l) + [n] + Inorder(r)
  }

  function Nodes(t: Tree): set<Node> {
    match t
    case Leaf => {}
    case Bin(l, n, r) => Nodes(l) + {n} + Nodes(r)
  }

  predicate Distinct(t: Tree) {
    match t
    case Leaf => true
    case Bin(l, n, r) => n !in Nodes(l) && n !in Nodes(r) && Nodes(l) !! Nodes(r) && Distinct(l) && Distinct(r)
  }

  /** The heap holds `t` at pointer `p`. */
  ghost predicate Holds(t: Tree, p: Node?)
    reads Nodes(t)
  {
    match t
    case Leaf => p == null
    case Bin(l, n, r) => p == n && Holds(l, n.left) && Holds(r, n.right)
  }

  /**
   * A spine: pieces linked from the outside in. Piece `node` hangs off the end of the pieces before it and keeps
   * `side`, its subtree on the far side; the last piece has a hole for what comes next.
   */
  datatype Spine = Empty | Grown(before: Spine, side: Tree, node: Node)

  function SpineNodes(s: Spine): set<Node> {
    match s
    case Empty => {}
    case Grown(b, t, n) => SpineNodes(b) + Nodes(t) + {n}
  }

  predicate SpineDistinct(s: Spine) {
    match s
    case Empty => true
    case Grown(b, t, n) =>
      Distinct(t) && n !in Nodes(t) && n !in SpineNodes(b) && Nodes(t) !! SpineNodes(b) && SpineDistinct(b)
  }

  /** The node with the hole: the last piece, or the dummy node the spine starts from. */
  function Tip(s: Spine, dummy: Node): (r: Node)
    ensures r == dummy || r in SpineNodes(s)
  {
    match s
    case Empty => dummy
    case Grown(_, _, n) => n
  }

  /** The spine of smaller nodes: linked by right pointers from the dummy. */
  ghost predicate HoldsSmall(s: Spine, dummy: Node)
    reads dummy`right, SpineNodes(s)
  {
    match s
    case Empty => true
    case Grown(b, t, n) => Tip(b, dummy).right == n && Holds(t, n.left) && HoldsSmall(b, dummy)
  }

  /** The spine of larger nodes: linked by left pointers from the dummy. */
  ghost predicate HoldsLarge(s: Spine, dummy: Node)
    reads dummy`left, SpineNodes(s)
  {
    match s
    case Empty => true
    case Grown(b, t, n) => Tip(b, dummy).left == n && Holds(t, n.right) && HoldsLarge(b, dummy)
  }

  /** The tree that the spine of smaller nodes makes with `t` in its hole. */
  function FillSmall(s: Spine, t: Tree): Tree {
    match s
    case Empty => t
    case Grown(b, u, n) => FillSmall(b, Bin(u, n, t))
  }

  function FillLarge(s: Spine, t: Tree): Tree {
    match s
    case Empty => t
    case Grown(b, u, n) => FillLarge(b, Bin(t, n, u))
  }

  function SmallInorder(s: Spine): seq<Node> {
    match s
    case Empty => []
    case Grown(b, u, n) => SmallInorder(b) + Inorder(u) + [n]
  }

  function LargeInorder(s: Spine): seq<Node> {
    match s
    case Empty => []
    case Grown(b, u, n) => [n] + Inorder(u) + LargeInorder(b)
  }

  lemma Assoc(a: seq<Node>, b: seq<Node>, c: seq<Node>, d: seq<Node>)
    ensures (a + b + c) + d == a + (b + c + d) == a + b + (c + d)
  {
  }

  lemma {:induction false} FillSmallInorder(s: Spine, t: Tree)
    ensures Inorder(FillSmall(s, t)) == SmallInorder(s) + Inorder(t)
    decreases s
  {
    if s.Grown? {
      FillSmallInorder(s.before, Bin(s.side, s.node, t));
      Assoc(SmallInorder(s.before), Inorder(s.side), [s.node], Inorder(t));
    }
  }

  lemma {:induction false} FillLargeInorder(s: Spine, t: Tree)
    ensures Inorder(FillLarge(s, t)) == Inorder(t) + LargeInorder(s)
    decreases s
  {
    if s.Grown? {
      FillLargeInorder(s.before, Bin(t, s.node, s.side));
      Assoc(Inorder(t), [s.node], Inorder(s.side), LargeInorder(s.before));
    }
  }

  lemma {:induction false} FillSmallHolds(s: Spine, dummy: Node, t: Tree)
    requires HoldsSmall(s, dummy) && Holds(t, Tip(s, dummy).right)
    ensures Holds(FillSmall(s, t), dummy.right)
    decreases s
  {
    if s.Grown? {
      FillSmallHolds(s.before, dummy, Bin(s.side, s.node, t));
    }
  }

  lemma {:induction false} FillLargeHolds(s: Spine, dummy: Node, t: Tree)
    requires HoldsLarge(s, dummy) && Holds(t, Tip(s, dummy).left)
    ensures Holds(FillLarge(s, t), dummy.left)
    decreases s
  {
    if s.Grown? {
      FillLargeHolds(s.before, dummy, Bin(t, s.node, s.side));
    }
  }

  lemma {:induction false} FillSmallDistinct(s: Spine, t: Tree)
    requires SpineDistinct(s) && Distinct(t) && SpineNodes(s) !! Nodes(t)
    ensures Distinct(FillSmall(s, t)) && Nodes(FillSmall(s, t)) == SpineNodes(s) + Nodes(t)
    decreases s
  {
    if s.Grown? {
      FillSmallDistinct(s.before, Bin(s.side, s.node, t));
    }
  }

  lemma {:induction false} FillLargeDistinct(s: Spine, t: Tree)
    requires SpineDistinct(s) && Distinct(t) && SpineNodes(s) !! Nodes(t)
    ensures Distinct(FillLarge(s, t)) && Nodes(FillLarge(s, t)) == SpineNodes(s) + Nodes(t)
    decreases s
  {
    if s.Grown? {
      FillLargeDistinct(s.before, Bin(t, s.node, s.side));
    }
  }

  // ----- order -----

  predicate Sorted(s: seq<Node>) {
    forall i, j :: 0 <= i < j < |s| ==> s[i].key < s[j].key
  }

  predicate AllBelow(s: seq<Node>, key: int) {
    forall i :: 0 <= i < |s| ==> s[i].key < key
  }

  predicate AllAbove(s: seq<Node>, key: int) {
    forall i :: 0 <= i < |s| ==> s[i].key > key
  }

  lemma SortedParts(a: seq<Node>, n: Node, b: seq<Node>)
    requires Sorted(a + [n] + b)
    ensures Sorted(a) && Sorted(b) && AllBelow(a, n.key) && AllAbove(b, n.key)
  {
    var s := a + [n] + b;
    assert forall i :: 0 <= i < |a| ==> s[i] == a[i];
    assert s[|a|] == n;
    assert forall i :: 0 <= i < |b| ==> s[|a| + 1 + i] == b[i];
  }

  lemma {:induction false} NodesAreInorder(t: Tree)
    ensures forall n :: n in Nodes(t) <==> n in Inorder(t)
    decreases t
  {
    if t.Bin? {
      NodesAreInorder(t.left);
      NodesAreInorder(t.right);
    }
  }

  // ----- rotations -----

  lemma Open(t: Tree, p: Node?)
    requires Holds(t, p) && t.Bin?
    ensures p == t.node && Holds(t.left, p.left) && Holds(t.right, p.right)
  {
  }

  lemma Parts(t: Tree)
    requires t.Bin?
    ensures Nodes(t) == Nodes(t.left) + {t.node} + Nodes(t.right)
    ensures Distinct(t) <==>
      t.node !in Nodes(t.left) && t.node !in Nodes(t.right) && Nodes(t.left) !! Nodes(t.right)
      && Distinct(t.left) && Distinct(t.right)
  {
  }

  lemma TurnRight(t: Tree, below: Tree)
    requires t.Bin? && t.left.Bin? && Distinct(t) && below == Bin(t.left.right, t.node, t.right)
    ensures Distinct(Bin(t.left.left, t.left.node, below)) && Nodes(Bin(t.left.left, t.left.node, below)) == Nodes(t)
    ensures t.left.node !in Nodes(below) && t.node !in Nodes(t.left.left) && Nodes(t.left) !! Nodes(t.right)
    ensures Nodes(t.left) == Nodes(t.left.left) + {t.left.node} + Nodes(t.left.right)
    ensures t.node in Nodes(t) && t.left.node in Nodes(t)
  {
    Parts(t.left);
    Parts(t);
    Parts(below);
    Parts(Bin(t.left.left, t.left.node, below));
  }

  lemma TurnLeft(t: Tree, below: Tree)
    requires t.Bin? && t.right.Bin? && Distinct(t) && below == Bin(t.left, t.node, t.right.left)
    ensures Distinct(Bin(below, t.right.node, t.right.right))
      && Nodes(Bin(below, t.right.node, t.right.right)) == Nodes(t)
    ensures t.right.node !in Nodes(below) && t.node !in Nodes(t.right.right) && Nodes(t.left) !! Nodes(t.right)
    ensures Nodes(t.right) == Nodes(t.right.left) + {t.right.node} + Nodes(t.right.right)
    ensures t.node in Nodes(t) && t.right.node in Nodes(t)
  {
    Parts(t.right);
    Parts(t);
    Parts(below);
    Parts(Bin(below, t.right.node, t.right.right));
  }

  /** A rotation keeps the order of the nodes. */
  lemma TurnKeepsOrder(a: Tree, x: Node, b: Tree, y: Node, c: Tree)
    ensures Inorder(Bin(Bin(a, x, b), y, c)) == Inorder(Bin(a, x, Bin(b, y, c)))
  {
    Assoc(Inorder(a) + [x], Inorder(b), [y], Inorder(c));
  }
}
