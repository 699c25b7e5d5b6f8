/** Search, insertion and removal in a splay tree, as operations on its nodes in ascending order. */
module SplaySets {
  import opened SplayShape
  import opened SplayTree

  /** The ascending sequence with a node more. */
  function With(s: seq<Node>, n: Node): seq<Node> {
    if s == [] || n.key < s[0].key then [n] + s else [s[0]] + With(s[1..], n)
  }

  /** The ascending sequence without the node that has the key. */
  function Without(s: seq<Node>, key: int): seq<Node> {
    if s == [] then [] else if s[0].key == key then s[1..] else [s[0]] + Without(s[1..], key)
  }

  predicate HasKey(s: seq<Node>, key: int) {
    exists i :: 0 <= i < |s| && s[i].key == key
  }

  lemma {:induction false} WithBetween(a: seq<Node>, n: Node, b: seq<Node>)
    requires AllBelow(a, n.key) && AllAbove(b, n.key)
    ensures With(a + b, n) == a + [n] + b
  {
    if a == [] {
      assert a + b == b;
    } else {
      assert (a + b)[1..] == a[1..] + b;
      WithBetween(a[1..], n, b);
      assert [a[0]] + (a[1..] + [n] + b) == a + [n] + b;
    }
  }

  lemma {:induction false} WithoutBetween(a: seq<Node>, n: Node, b: seq<Node>)
    requires AllBelow(a, n.key)
    ensures Without(a + [n] + b, n.key) == a + b
  {
    var s := a + [n] + b;
    if a == [] {
      assert s[1..] == b;
    } else {
      assert s[1..] == a[1..] + [n] + b;
      WithoutBetween(a[1..], n, b);
      assert [a[0]] + (a[1..] + b) == a + b;
    }
  }

  lemma {:induction false} WithoutNothing(s: seq<Node>, key: int)
    requires !HasKey(s, key)
    ensures Without(s, key) == s
  {
    if s != [] {
      forall i | 0 <= i < |s[1..]|
        ensures s[1..][i].key != key
      {
        assert s[i + 1].key != key;
      }
      assert s[0].key != key;
      WithoutNothing(s[1..], key);
    }
  }

  /** A node between smaller and larger ones keeps the order. */
  lemma SortedBetween(a: seq<Node>, n: Node, b: seq<Node>)
    requires Sorted(a) && Sorted(b) && AllBelow(a, n.key) && AllAbove(b, n.key)
    ensures Sorted(a + [n] + b)
  {
    var s := a + [n] + b;
    forall i, j | 0 <= i < j < |s|
      ensures s[i].key < s[j].key
    {
      if i < |a| <= j {
        assert s[i].key < n.key;
      }
    }
  }

  lemma SortedJoin(a: seq<Node>, b: seq<Node>, key: int)
    requires Sorted(a) && Sorted(b) && AllBelow(a, key) && AllAbove(b, key)
    ensures Sorted(a + b)
  {
    var s := a + b;
    forall i, j | 0 <= i < j < |s|
      ensures s[i].key < s[j].key
    {
      if i < |a| <= j {
        assert s[i].key < key < s[j].key;
      }
    }
  }

  /** The key is in the tree exactly when the nearest node has it. */
  lemma NearestHasIt(t: Tree, key: int)
    requires Sorted(Inorder(t)) && Nearest(t, key)
    ensures HasKey(Inorder(t), key) <==> t.node.key == key
  {
    var a, b, s := Inorder(t.left), Inorder(t.right), Inorder(t);
    assert s[|a|] == t.node;
    forall i | 0 <= i < |s| && i != |a|
      ensures s[i].key != key
    {
      assert s[i] == if i < |a| then a[i] else b[i - |a| - 1];
    }
  }

  /** The node with the key, which is then at the root, or none. */
  method Find(head: Head, key: int) returns (n: Node?)
    requires head.Valid() && Sorted(Inorder(head.tree))
    modifies head`root, head`tree, head.nodes
    ensures head.Valid() && Inorder(head.tree) == Inorder(old(head.tree))
    ensures n == null <==> !HasKey(Inorder(head.tree), key)
    ensures n != null ==> n in head.nodes && n.key == key && n == head.root
  {
    if head.root == null {
      return null;
    }
    NotEmpty(head);
    head.Splay(key);
    NotEmpty(head);
    NearestHasIt(head.tree, key);
    n := if head.root.key == key then head.root else null;
  }

  lemma NotEmpty(head: Head)
    requires head.Valid()
    ensures head.tree.Bin? <==> head.root != null
    ensures head.tree.Bin? ==> head.root == head.tree.node && head.root in head.nodes
    ensures head.tree.Leaf? ==> head.nodes == {}
  {
  }

  /** The root goes to one side of the new node, its subtree on the other side goes over to it. */
  method HangLeft(head: Head, elm: Node)
    requires head.Valid() && head.tree.Bin? && elm !in head.nodes
    modifies head, head.root, elm
    ensures head.Valid() && head.nodes == old(head.nodes) + {elm}
    ensures var t := old(head.tree); head.tree == Bin(t.left, elm, Bin(Leaf, t.node, t.right))
  {
    ghost var t := head.tree;
    Open(t, head.root);
    Parts(t);
    elm.left := head.root.left;
    elm.right := head.root;
    head.root.left := null;
    head.root := elm;
    ghost var over := Bin(Leaf, t.node, t.right);
    assert Holds(over, elm.right);
    head.tree := Bin(t.left, elm, over);
    head.nodes := head.nodes + {elm};
    Parts(over);
    Parts(head.tree);
  }

  method HangRight(head: Head, elm: Node)
    requires head.Valid() && head.tree.Bin? && elm !in head.nodes
    modifies head, head.root, elm
    ensures head.Valid() && head.nodes == old(head.nodes) + {elm}
    ensures var t := old(head.tree); head.tree == Bin(Bin(t.left, t.node, Leaf), elm, t.right)
  {
    ghost var t := head.tree;
    Open(t, head.root);
    Parts(t);
    elm.right := head.root.right;
    elm.left := head.root;
    head.root.right := null;
    head.root := elm;
    ghost var over := Bin(t.left, t.node, Leaf);
    assert Holds(over, elm.left);
    head.tree := Bin(over, elm, t.right);
    head.nodes := head.nodes + {elm};
    Parts(over);
    Parts(head.tree);
  }

  /** A new key adds exactly the node, in its place; a key that is there already gives its node back. */
  method Insert(head: Head, elm: Node) returns (n: Node?)
    requires head.Valid() && Sorted(Inorder(head.tree))
    modifies head, head.nodes, elm
    ensures head.Valid() && Sorted(Inorder(head.tree))
    ensures n == null <==> !HasKey(Inorder(old(head.tree)), elm.key)
    ensures n == null ==>
      Inorder(head.tree) == With(Inorder(old(head.tree)), elm) && head.nodes == old(head.nodes) + {elm}
    ensures n != null ==> (n in head.nodes && n.key == elm.key
      && Inorder(head.tree) == Inorder(old(head.tree)) && head.nodes == old(head.nodes))
  {
    hide Holds, Distinct, Nodes, Nearest, Sorted, HasKey, With;
    ghost var all := Inorder(head.tree);
    NotEmpty(head);
    if elm in head.nodes { OwnKeyIsThere(head, elm); }
    if head.root == null {
      elm.left, elm.right := null, null;
      NothingBefore(elm);
      head.root := elm;
      head.tree := Bin(Leaf, elm, Leaf);
      head.nodes := {elm};
      Single(elm, head);
      return null;
    }
    head.Splay(elm.key);
    NotEmpty(head);
    NearestHasIt(head.tree, elm.key);
    Placed(head.tree, elm);
    if elm.key < head.root.key {
      HangLeft(head, elm);
    } else if elm.key > head.root.key {
      HangRight(head, elm);
    } else {
      return head.root;
    }
    n := null;
  }

  /** A node of the tree has its key in the tree, so it is never hung a second time. */
  lemma OwnKeyIsThere(head: Head, elm: Node)
    requires head.Valid() && elm in head.nodes
    ensures HasKey(Inorder(head.tree), elm.key)
  {
    NodesAreInorder(head.tree);
    var i :| 0 <= i < |Inorder(head.tree)| && Inorder(head.tree)[i] == elm;
  }

  lemma NothingBefore(elm: Node)
    ensures With([], elm) == [elm] && !HasKey([], elm.key) && Sorted([elm])
  {
  }

  lemma Single(elm: Node, head: Head)
    requires elm.left == null && elm.right == null && head.root == elm && head.tree == Bin(Leaf, elm, Leaf)
      && head.nodes == {elm}
    ensures head.Valid() && Inorder(head.tree) == [elm]
  {
    assert Holds(Leaf, elm.left) && Holds(Leaf, elm.right);
  }

  /** Where a node goes whose key the nearest node does not have. */
  lemma Placed(t: Tree, elm: Node)
    requires Sorted(Inorder(t)) && Nearest(t, elm.key)
    ensures elm.key < t.node.key ==>
      (var r := Bin(t.left, elm, Bin(Leaf, t.node, t.right)); Inorder(r) == With(Inorder(t), elm) && Sorted(Inorder(r)))
    ensures elm.key > t.node.key ==>
      (var r := Bin(Bin(t.left, t.node, Leaf), elm, t.right); Inorder(r) == With(Inorder(t), elm) && Sorted(Inorder(r)))
  {
    hide Sorted, AllBelow, AllAbove, With;
    var a, n, b := Inorder(t.left), t.node, Inorder(t.right);
    SortedParts(a, n, b);
    if elm.key < n.key {
      PlacedBefore(a, elm, n, b);
      var below := Bin(Leaf, n, t.right);
      assert Inorder(below) == [] + [n] + b == [n] + b;
      assert Inorder(Bin(t.left, elm, below)) == a + [elm] + ([n] + b);
    } else if elm.key > n.key {
      PlacedAfter(a, n, elm, b);
      var below := Bin(t.left, n, Leaf);
      assert Inorder(below) == a + [n] + [] == a + [n];
      assert Inorder(Bin(below, elm, t.right)) == (a + [n]) + [elm] + b;
    }
  }

  lemma PlacedBefore(a: seq<Node>, elm: Node, n: Node, b: seq<Node>)
    requires Sorted(a) && Sorted(b) && AllBelow(a, elm.key) && AllAbove(b, n.key) && elm.key < n.key
    ensures With(a + [n] + b, elm) == a + [elm] + ([n] + b) && Sorted(a + [elm] + ([n] + b))
  {
    var c := [n] + b;
    assert a + [n] + b == a + c;
    assert Sorted(c) && AllAbove(c, elm.key);
    WithBetween(a, elm, c);
    SortedBetween(a, elm, c);
  }

  lemma PlacedAfter(a: seq<Node>, n: Node, elm: Node, b: seq<Node>)
    requires Sorted(a) && Sorted(b) && AllBelow(a, n.key) && AllAbove(b, elm.key) && elm.key > n.key
    ensures With(a + [n] + b, elm) == (a + [n]) + [elm] + b && Sorted((a + [n]) + [elm] + b)
  {
    var c := a + [n];
    assert Sorted(c) && AllBelow(c, elm.key);
    WithBetween(c, elm, b);
    SortedBetween(c, elm, b);
  }

  /**
   * Takes out the node with the key of `elm`, if there is one. Splaying its left subtree for the same key leaves the
   * largest node of that subtree on top with nothing to the right, where the right subtree then goes.
   */
  method Remove(head: Head, elm: Node) returns (r: Node?)
    requires head.Valid() && Sorted(Inorder(head.tree))
    modifies head, head.nodes
    ensures head.Valid() && Sorted(Inorder(head.tree))
    ensures Inorder(head.tree) == Without(Inorder(old(head.tree)), elm.key)
    ensures r == if HasKey(Inorder(old(head.tree)), elm.key) then elm else null
    ensures head.nodes <= old(head.nodes)
  {
    hide Holds, Distinct, Nodes, Nearest, Sorted, HasKey, Without;
    ghost var all := Inorder(head.tree);
    NotEmpty(head);
    if head.root == null {
      NothingThere(elm.key);
      return null;
    }
    head.Splay(elm.key);
    NotEmpty(head);
    NearestHasIt(head.tree, elm.key);
    if head.root.key != elm.key {
      WithoutNothing(all, elm.key);
      return null;
    }
    RemovedRoot(head.tree, elm.key);
    ghost var t := head.tree;
    LeftOf(head);
    if head.root.left == null {
      KeepRight(head);
    } else {
      var tmp := KeepLeft(head);
      head.Splay(elm.key);
      RightIsEmpty(head.tree, elm.key);
      NotEmpty(head);
      HungOrder(head.tree, t.right);
      HangOn(head, tmp, t.right);
    }
    r := elm;
  }

  lemma LeftOf(head: Head)
    requires head.Valid() && head.tree.Bin?
    ensures head.root != null && (head.root.left == null <==> head.tree.left.Leaf?)
  {
    Open(head.tree, head.root);
    if head.tree.left.Bin? {
      Open(head.tree.left, head.root.left);
    }
  }

  lemma NothingThere(key: int)
    ensures Without([], key) == [] && !HasKey([], key)
  {
  }

  /** Once the root is gone, its two subtrees in order are all the other nodes. */
  lemma RemovedRoot(t: Tree, key: int)
    requires t.Bin? && Sorted(Inorder(t)) && t.node.key == key
    ensures Without(Inorder(t), key) == Inorder(t.left) + Inorder(t.right)
    ensures AllBelow(Inorder(t.left), key) && AllAbove(Inorder(t.right), key)
    ensures Sorted(Inorder(t.left)) && Sorted(Inorder(t.right)) && Sorted(Inorder(t.left) + Inorder(t.right))
  {
    SortedParts(Inorder(t.left), t.node, Inorder(t.right));
    WithoutBetween(Inorder(t.left), t.node, Inorder(t.right));
    SortedJoin(Inorder(t.left), Inorder(t.right), key);
  }

  /** Nearest to a key above them all is the largest node. */
  lemma RightIsEmpty(t: Tree, key: int)
    requires Nearest(t, key) && AllBelow(Inorder(t), key)
    ensures t.right == Leaf
  {
    if t.right.Bin? {
      IsInside(t);
    }
  }

  lemma IsInside(t: Tree)
    requires t.Bin? && t.right.Bin?
    ensures t.right.node in Inorder(t.right) && t.right.node in Inorder(t)
  {
    assert Inorder(t.right)[|Inorder(t.right.left)|] == t.right.node;
    assert Inorder(t)[|Inorder(t.left)| + 1 + |Inorder(t.right.left)|] == t.right.node;
  }

  lemma HungOrder(t: Tree, r: Tree)
    requires t.Bin? && t.right == Leaf
    ensures Inorder(t.(right := r)) == Inorder(t) + Inorder(r)
  {
    assert Inorder(t) == Inorder(t.left) + [t.node];
  }

  method KeepRight(head: Head)
    requires head.Valid() && head.tree.Bin?
    modifies head
    ensures head.Valid() && head.tree == old(head.tree).right && head.nodes <= old(head.nodes)
  {
    ghost var t := head.tree;
    Open(t, head.root);
    Parts(t);
    head.root := head.root.right;
    head.tree := t.right;
    head.nodes := Nodes(t.right);
  }

  /** The left subtree of the root becomes the tree; the right one is handed over. */
  method KeepLeft(head: Head) returns (right: Node?)
    requires head.Valid() && head.tree.Bin?
    modifies head
    ensures var t := old(head.tree);
      Holds(t.right, right) && Distinct(t.right) && Nodes(t.right) !! Nodes(t.left) && Nodes(t.right) <= old(head.nodes)
      && head.Valid() && head.tree == t.left && head.nodes <= old(head.nodes)
  {
    ghost var t := head.tree;
    Open(t, head.root);
    Parts(t);
    right := head.root.right;
    head.root := head.root.left;
    head.tree := t.left;
    head.nodes := Nodes(t.left);
  }

  method HangOn(head: Head, right: Node?, ghost t: Tree)
    requires head.Valid() && head.tree.Bin? && head.tree.right == Leaf
    requires Holds(t, right) && Distinct(t) && Nodes(t) !! head.nodes
    modifies head, head.root
    ensures head.Valid() && head.tree == old(head.tree).(right := t) && head.nodes == old(head.nodes) + Nodes(t)
  {
    Open(head.tree, head.root);
    Parts(head.tree);
    head.root.right := right;
    head.tree := head.tree.(right := t);
    head.nodes := head.nodes + Nodes(t);
    Parts(head.tree);
  }

  predicate FollowsAt(s: seq<Node>, i: int, n: Node, m: Node?) {
    0 <= i < |s| && s[i] == n && m == if i + 1 < |s| then s[i + 1] else null
  }

  ghost predicate IsNext(s: seq<Node>, n: Node, m: Node?) {
    exists i: int :: FollowsAt(s, i, n, m)
  }

  /** The node after `elm` in ascending order, or none; `elm` itself comes to the top. */
  method Next(head: Head, elm: Node) returns (n: Node?)
    requires head.Valid() && Sorted(Inorder(head.tree)) && elm in head.nodes
    modifies head`root, head`tree, head.nodes
    ensures head.Valid() && Inorder(head.tree) == Inorder(old(head.tree))
    ensures IsNext(Inorder(head.tree), elm, n)
  {
    NotEmpty(head);
    head.Splay(elm.key);
    NotEmpty(head);
    IsAtTop(head.tree, elm);
    AfterRoot(head.tree);
    Open(head.tree, head.root);
    if elm.right == null {
      return null;
    }
    n := Leftmost(elm.right, head.tree.right);
  }

  method Leftmost(p: Node, ghost t: Tree) returns (n: Node)
    requires Holds(t, p) && t.Bin?
    ensures Inorder(t) != [] && n == Inorder(t)[0]
  {
    n := p;
    ghost var u := t;
    while n.left != null
      invariant u.Bin? && Holds(u, n) && Inorder(u)[0] == Inorder(t)[0]
      decreases u
    {
      Open(u, n);
      n := n.left;
      u := u.left;
    }
    Open(u, n);
    assert u.left.Leaf?;
  }

  /** In order, the root is followed by the first node of its right subtree. */
  lemma AfterRoot(t: Tree)
    requires t.Bin?
    ensures IsNext(Inorder(t), t.node, if t.right.Leaf? then null else Inorder(t.right)[0])
  {
    var a, b := Inorder(t.left), Inorder(t.right);
    assert FollowsAt(a + [t.node] + b, |a|, t.node, if b == [] then null else b[0]);
    assert t.right.Bin? ==> b[|Inorder(t.right.left)|] == t.right.node;
  }

  lemma IsAtTop(t: Tree, n: Node)
    requires Sorted(Inorder(t)) && Nearest(t, n.key) && n in Nodes(t)
    ensures t.node == n
  {
    NodesAreInorder(t);
    var s := Inorder(t);
    var i :| 0 <= i < |s| && s[i] == n;
    NearestHasIt(t, n.key);
    assert s[|Inorder(t.left)|] == t.node;
  }

  /** The smallest or the largest node, which comes to the top. */
  method MinMax(head: Head, val: int) returns (n: Node)
    requires head.Valid() && head.tree.Bin? && val != 0
    modifies head`root, head`tree, head.nodes
    ensures head.Valid() && Inorder(head.tree) == Inorder(old(head.tree)) && Inorder(head.tree) != []
    ensures n == if val < 0 then Inorder(head.tree)[0] else Inorder(head.tree)[|Inorder(head.tree)| - 1]
  {
    head.SplayMinMax(val);
    NotEmpty(head);
    n := head.root;
  }
}
