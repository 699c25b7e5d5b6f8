/** The top-down splay tree: splaying takes the tree apart on the way down and puts it together around the new root. */
module SplayTree {
  import opened SplayShape

  /** The current tree and the two spines have no node in common, and the dummy is in none of them. */
  ghost predicate Apart(dummy: Node, small: Spine, t: Tree, large: Spine) {
    Distinct(t) && SpineDistinct(small) && SpineDistinct(large)
    && SpineNodes(small) !! Nodes(t) && SpineNodes(large) !! Nodes(t) && SpineNodes(small) !! SpineNodes(large)
    && dummy !in SpineNodes(small) && dummy !in Nodes(t) && dummy !in SpineNodes(large)
  }

  lemma ApartLinkedLeft(dummy: Node, small: Spine, t: Tree, large: Spine)
    requires Apart(dummy, small, t, large) && t.Bin?
    ensures Apart(dummy, small, t.left, Grown(large, t.right, t.node))
    ensures SpineNodes(Grown(large, t.right, t.node)) == SpineNodes(large) + Nodes(t.right) + {t.node}
    ensures t.node != dummy && t.node !in SpineNodes(small) && t.node !in SpineNodes(large)
    ensures t.node !in Nodes(t.left) && t.node !in Nodes(t.right)
    ensures Tip(large, dummy) !in Nodes(t) && Tip(large, dummy) !in SpineNodes(small)
    ensures dummy !in SpineNodes(large) && SpineDistinct(large)
  {
    Parts(t);
  }

  lemma ApartLinkedRight(dummy: Node, small: Spine, t: Tree, large: Spine)
    requires Apart(dummy, small, t, large) && t.Bin?
    ensures Apart(dummy, Grown(small, t.left, t.node), t.right, large)
    ensures SpineNodes(Grown(small, t.left, t.node)) == SpineNodes(small) + Nodes(t.left) + {t.node}
    ensures t.node != dummy && t.node !in SpineNodes(small) && t.node !in SpineNodes(large)
    ensures t.node !in Nodes(t.left) && t.node !in Nodes(t.right)
    ensures Tip(small, dummy) !in Nodes(t) && Tip(small, dummy) !in SpineNodes(large)
    ensures dummy !in SpineNodes(small) && SpineDistinct(small)
  {
    Parts(t);
  }

  lemma OneMoreLarge(s: Spine, t: Tree, n: Node, dummy: Node)
    requires Tip(s, dummy).left == n && Holds(t, n.right) && HoldsLarge(s, dummy)
    ensures HoldsLarge(Grown(s, t, n), dummy)
  {
  }

  lemma OneMoreSmall(s: Spine, t: Tree, n: Node, dummy: Node)
    requires Tip(s, dummy).right == n && Holds(t, n.left) && HoldsSmall(s, dummy)
    ensures HoldsSmall(Grown(s, t, n), dummy)
  {
  }

  /** All nodes in order, wherever they are at the moment. */
  function Whole(small: Spine, t: Tree, large: Spine): seq<Node> {
    SmallInorder(small) + Inorder(t) + LargeInorder(large)
  }

  /** All nodes before the root are below the key and all after it above: the root has the key or is next to it. */
  predicate Nearest(t: Tree, key: int) {
    t.Bin? && AllBelow(Inorder(t.left), key) && AllAbove(Inorder(t.right), key)
  }

  /** So far the splay has kept the order of all nodes. */
  predicate Ordered(all: seq<Node>, small: Spine, t: Tree, large: Spine) {
    Whole(small, t, large) == all
  }

  /** And the spines lie on their sides of the key. */
  predicate Parted(all: seq<Node>, small: Spine, t: Tree, large: Spine, key: int) {
    Ordered(all, small, t, large)
    && (Sorted(all) ==> AllBelow(SmallInorder(small), key) && AllAbove(LargeInorder(large), key))
  }

  /** The loop stops where the root has the key or there is no subtree towards it. */
  predicate Stops(t: Tree, key: int) {
    t.Bin? && (key == t.node.key || (key < t.node.key && t.left.Leaf?) || (key > t.node.key && t.right.Leaf?))
  }

  lemma WholeParts(all: seq<Node>, small: Spine, t: Tree, large: Spine)
    requires Whole(small, t, large) == all && t.Bin? && Sorted(all)
    ensures AllBelow(SmallInorder(small), t.node.key) && AllBelow(Inorder(t.left), t.node.key)
    ensures AllAbove(Inorder(t.right), t.node.key) && AllAbove(LargeInorder(large), t.node.key)
  {
    var a, b := SmallInorder(small) + Inorder(t.left), Inorder(t.right) + LargeInorder(large);
    assert all == a + [t.node] + b;
    SortedParts(a, t.node, b);
    hide Sorted, Inorder, SmallInorder, LargeInorder;
    PartsBelow(SmallInorder(small), Inorder(t.left), t.node.key);
    PartsAbove(Inorder(t.right), LargeInorder(large), t.node.key);
  }

  lemma PartsBelow(a: seq<Node>, b: seq<Node>, key: int)
    requires AllBelow(a + b, key)
    ensures AllBelow(a, key) && AllBelow(b, key)
  {
    assert forall i :: 0 <= i < |a| ==> (a + b)[i] == a[i];
    assert forall i :: 0 <= i < |b| ==> (a + b)[|a| + i] == b[i];
  }

  lemma PartsAbove(a: seq<Node>, b: seq<Node>, key: int)
    requires AllAbove(a + b, key)
    ensures AllAbove(a, key) && AllAbove(b, key)
  {
    assert forall i :: 0 <= i < |a| ==> (a + b)[i] == a[i];
    assert forall i :: 0 <= i < |b| ==> (a + b)[|a| + i] == b[i];
  }

  lemma JoinsBelow(a: seq<Node>, b: seq<Node>, n: Node, key: int)
    requires AllBelow(a, key) && AllBelow(b, n.key) && n.key < key
    ensures AllBelow(a + b + [n], key)
  {
  }

  lemma JoinsAbove(n: Node, a: seq<Node>, b: seq<Node>, key: int)
    requires key < n.key && AllAbove(a, n.key) && AllAbove(b, key)
    ensures AllAbove([n] + a + b, key)
  {
  }

  lemma OrderLinkedRight(all: seq<Node>, small: Spine, t: Tree, large: Spine)
    requires Ordered(all, small, t, large) && t.Bin?
    ensures Ordered(all, Grown(small, t.left, t.node), t.right, large)
  {
    Assoc(SmallInorder(small), Inorder(t.left), [t.node], Inorder(t.right));
  }

  lemma OrderLinkedLeft(all: seq<Node>, small: Spine, t: Tree, large: Spine)
    requires Ordered(all, small, t, large) && t.Bin?
    ensures Ordered(all, small, t.left, Grown(large, t.right, t.node))
  {
    Assoc(SmallInorder(small) + Inorder(t.left), [t.node], Inorder(t.right), LargeInorder(large));
    Assoc(SmallInorder(small), Inorder(t.left), [t.node], Inorder(t.right));
  }

  lemma OrderTurnRight(all: seq<Node>, small: Spine, t: Tree, large: Spine)
    requires t.Bin? && t.left.Bin? && Ordered(all, small, t, large)
    ensures Ordered(all, small, Bin(t.left.left, t.left.node, Bin(t.left.right, t.node, t.right)), large)
  {
    TurnKeepsOrder(t.left.left, t.left.node, t.left.right, t.node, t.right);
  }

  lemma OrderTurnLeft(all: seq<Node>, small: Spine, t: Tree, large: Spine)
    requires t.Bin? && t.right.Bin? && Ordered(all, small, t, large)
    ensures Ordered(all, small, Bin(Bin(t.left, t.node, t.right.left), t.right.node, t.right.right), large)
  {
    TurnKeepsOrder(t.left, t.node, t.right.left, t.right.node, t.right.right);
  }

  lemma OrderAssembled(all: seq<Node>, small: Spine, t: Tree, large: Spine)
    requires Ordered(all, small, t, large) && t.Bin?
    ensures Inorder(Bin(FillSmall(small, t.left), t.node, FillLarge(large, t.right))) == all
  {
    FillSmallInorder(small, t.left);
    FillLargeInorder(large, t.right);
    Assoc(SmallInorder(small), Inorder(t.left), [t.node], Inorder(t.right));
    Assoc(SmallInorder(small) + Inorder(t.left), [t.node], Inorder(t.right), LargeInorder(large));
  }

  lemma LinkedRight(all: seq<Node>, small: Spine, t: Tree, large: Spine, key: int)
    requires Parted(all, small, t, large, key) && t.Bin? && t.node.key < key
    ensures Parted(all, Grown(small, t.left, t.node), t.right, large, key)
  {
    hide AllBelow, AllAbove, Sorted;
    OrderLinkedRight(all, small, t, large);
    if Sorted(all) {
      WholeParts(all, small, t, large);
      JoinsBelow(SmallInorder(small), Inorder(t.left), t.node, key);
    }
  }

  lemma LinkedLeft(all: seq<Node>, small: Spine, t: Tree, large: Spine, key: int)
    requires Parted(all, small, t, large, key) && t.Bin? && key < t.node.key
    ensures Parted(all, small, t.left, Grown(large, t.right, t.node), key)
  {
    hide AllBelow, AllAbove, Sorted;
    OrderLinkedLeft(all, small, t, large);
    if Sorted(all) {
      WholeParts(all, small, t, large);
      JoinsAbove(t.node, Inorder(t.right), LargeInorder(large), key);
    }
  }

  /** Put together again, the tree has all nodes in order, and its root is the nearest to the key. */
  lemma Assembled(all: seq<Node>, small: Spine, t: Tree, large: Spine, key: int)
    requires Parted(all, small, t, large, key) && t.Bin?
    ensures var r := Bin(FillSmall(small, t.left), t.node, FillLarge(large, t.right));
      Inorder(r) == all && (Sorted(all) && Stops(t, key) ==> Nearest(r, key))
  {
    OrderAssembled(all, small, t, large);
    FillSmallInorder(small, t.left);
    FillLargeInorder(large, t.right);
    if Sorted(all) {
      WholeParts(all, small, t, large);
    }
  }

  class Head {
    var root: Node?
    ghost var tree: Tree
    ghost var nodes: set<Node>   // all nodes of the tree, on the spines or not

    constructor ()
      ensures Valid() && tree == Leaf
    {
      root, tree, nodes := null, Leaf, {};
    }

    ghost predicate Valid()
      reads this, Nodes(tree)
    {
      Holds(tree, root) && Distinct(tree) && Nodes(tree) == nodes
    }

    /** In the middle of a splay: `tree` is what is left below, the spines hang off the dummy. */
    ghost predicate Working(dummy: Node, small: Spine, large: Spine)
      reads this, Nodes(tree), dummy, SpineNodes(small), SpineNodes(large)
    {
      Holds(tree, root) && HoldsSmall(small, dummy) && HoldsLarge(large, dummy) && Apart(dummy, small, tree, large)
      && SpineNodes(small) + Nodes(tree) + SpineNodes(large) == nodes
    }

    method RotateRight(tmp: Node, ghost dummy: Node, ghost small: Spine, ghost large: Spine)
      requires Working(dummy, small, large) && tree.Bin? && tree.left.Bin? && tmp == tree.left.node
      modifies this`root, this`tree, root, tmp
      ensures Working(dummy, small, large)
      ensures var t := old(tree);
        tree == Bin(t.left.left, t.left.node, Bin(t.left.right, t.node, t.right))
    {
      hide Holds, HoldsSmall, HoldsLarge, Distinct, Nodes, SpineNodes, SpineDistinct;
      ghost var t := tree;
      Open(t, root);
      TurnRight(t, Bin(t.left.right, t.node, t.right));
      SwingRight(root, tmp, t);
      root := tmp;
      tree := Bin(t.left.left, t.left.node, Bin(t.left.right, t.node, t.right));
    }

    static method SwingRight(x: Node, tmp: Node, ghost t: Tree)
      requires t.Bin? && t.left.Bin? && Distinct(t) && Holds(t, x) && tmp == t.left.node
      modifies x, tmp
      ensures Holds(Bin(t.left.left, tmp, Bin(t.left.right, x, t.right)), tmp)
    {
      Open(t, x);
      Open(t.left, x.left);
      TurnRight(t, Bin(t.left.right, t.node, t.right));
      x.left := tmp.right;
      tmp.right := x;
      assert Holds(Bin(t.left.right, x, t.right), x);
    }

    method RotateLeft(tmp: Node, ghost dummy: Node, ghost small: Spine, ghost large: Spine)
      requires Working(dummy, small, large) && tree.Bin? && tree.right.Bin? && tmp == tree.right.node
      modifies this`root, this`tree, root, tmp
      ensures Working(dummy, small, large)
      ensures var t := old(tree);
        tree == Bin(Bin(t.left, t.node, t.right.left), t.right.node, t.right.right)
    {
      hide Holds, HoldsSmall, HoldsLarge, Distinct, Nodes, SpineNodes, SpineDistinct;
      ghost var t := tree;
      Open(t, root);
      TurnLeft(t, Bin(t.left, t.node, t.right.left));
      SwingLeft(root, tmp, t);
      root := tmp;
      tree := Bin(Bin(t.left, t.node, t.right.left), t.right.node, t.right.right);
    }

    static method SwingLeft(x: Node, tmp: Node, ghost t: Tree)
      requires t.Bin? && t.right.Bin? && Distinct(t) && Holds(t, x) && tmp == t.right.node
      modifies x, tmp
      ensures Holds(Bin(Bin(t.left, x, t.right.left), tmp, t.right.right), tmp)
    {
      Open(t, x);
      Open(t.right, x.right);
      TurnLeft(t, Bin(t.left, t.node, t.right.left));
      x.right := tmp.left;
      tmp.left := x;
      assert Holds(Bin(t.left, x, t.right.left), x);
    }

    /** What hangs in the hole of a spine does not belong to the spine. */
    static method HangLarge(right: Node, p: Node?, ghost dummy: Node, ghost s: Spine)
      requires HoldsLarge(s, dummy) && SpineDistinct(s) && dummy !in SpineNodes(s) && right == Tip(s, dummy)
      modifies right`left
      ensures HoldsLarge(s, dummy) && right.left == p
    {
      right.left := p;
    }

    static method HangSmall(left: Node, p: Node?, ghost dummy: Node, ghost s: Spine)
      requires HoldsSmall(s, dummy) && SpineDistinct(s) && dummy !in SpineNodes(s) && left == Tip(s, dummy)
      modifies left`right
      ensures HoldsSmall(s, dummy) && left.right == p
    {
      left.right := p;
    }

    /** The root and what is right of it go to the end of the spine of larger nodes. */
    method LinkLeft(right: Node, ghost dummy: Node, ghost small: Spine, ghost large: Spine)
      returns (right2: Node, ghost large2: Spine)
      requires Working(dummy, small, large) && tree.Bin? && right == Tip(large, dummy)
      modifies this`root, this`tree, right`left
      ensures large2 == Grown(large, old(tree.right), old(tree.node)) && tree == old(tree.left)
      ensures Working(dummy, small, large2) && right2 == Tip(large2, dummy)
    {
      hide Holds, HoldsSmall, HoldsLarge, Nodes, SpineNodes, Apart;
      ghost var t := tree;
      Open(t, root);
      Parts(t);
      ApartLinkedLeft(dummy, small, t, large);
      large2 := Grown(large, t.right, t.node);
      HangLarge(right, root, dummy, large);
      OneMoreLarge(large, t.right, t.node, dummy);
      right2 := root;
      root := root.left;
      tree := t.left;
    }

    /** The root and what is left of it go to the end of the spine of smaller nodes. */
    method LinkRight(left: Node, ghost dummy: Node, ghost small: Spine, ghost large: Spine)
      returns (left2: Node, ghost small2: Spine)
      requires Working(dummy, small, large) && tree.Bin? && left == Tip(small, dummy)
      modifies this`root, this`tree, left`right
      ensures small2 == Grown(small, old(tree.left), old(tree.node)) && tree == old(tree.right)
      ensures Working(dummy, small2, large) && left2 == Tip(small2, dummy)
    {
      hide Holds, HoldsSmall, HoldsLarge, Nodes, SpineNodes, Apart;
      ghost var t := tree;
      Open(t, root);
      Parts(t);
      ApartLinkedRight(dummy, small, t, large);
      small2 := Grown(small, t.left, t.node);
      HangSmall(left, root, dummy, small);
      OneMoreSmall(small, t.left, t.node, dummy);
      left2 := root;
      root := root.right;
      tree := t.right;
    }

    /** The subtrees of the root fill the holes of the spines, and the spines become the subtrees. */
    method Assemble(dummy: Node, left: Node, right: Node, ghost small: Spine, ghost large: Spine)
      requires Working(dummy, small, large) && tree.Bin?
      requires left == Tip(small, dummy) && right == Tip(large, dummy)
      modifies this`root, this`tree, root, dummy, left`right, right`left
      ensures Valid()
      ensures tree == Bin(FillSmall(small, old(tree.left)), old(tree.node), FillLarge(large, old(tree.right)))
    {
      hide HoldsSmall, HoldsLarge, SpineNodes, SpineDistinct, FillSmall, FillLarge, Distinct, Nodes, Inorder;
      ghost var t := tree;
      ghost var below, above := FillSmall(small, t.left), FillLarge(large, t.right);
      Open(t, root);
      Parts(t);
      FillHoles(dummy, left, right, small, large);
      FillSmallDistinct(small, t.left);
      FillLargeDistinct(large, t.right);
      root.left := dummy.right;
      root.right := dummy.left;
      assert Holds(below, root.left) && Holds(above, root.right);
      tree := Bin(below, t.node, above);
      Parts(tree);
    }

    static method FillLeft(left: Node, p: Node?, ghost dummy: Node, ghost s: Spine, ghost t: Tree)
      requires HoldsSmall(s, dummy) && SpineDistinct(s) && dummy !in SpineNodes(s) && left == Tip(s, dummy)
      requires Holds(t, p) && left !in Nodes(t)
      modifies left`right
      ensures Holds(FillSmall(s, t), dummy.right)
    {
      hide FillSmall;
      left.right := p;
      FillSmallHolds(s, dummy, t);
    }

    static method FillRight(right: Node, p: Node?, ghost dummy: Node, ghost s: Spine, ghost t: Tree)
      requires HoldsLarge(s, dummy) && SpineDistinct(s) && dummy !in SpineNodes(s) && right == Tip(s, dummy)
      requires Holds(t, p) && right !in Nodes(t)
      modifies right`left
      ensures Holds(FillLarge(s, t), dummy.left)
    {
      hide FillLarge;
      right.left := p;
      FillLargeHolds(s, dummy, t);
    }

    method FillHoles(dummy: Node, left: Node, right: Node, ghost small: Spine, ghost large: Spine)
      requires Working(dummy, small, large) && tree.Bin?
      requires left == Tip(small, dummy) && right == Tip(large, dummy)
      modifies left`right, right`left
      ensures Holds(FillSmall(small, tree.left), dummy.right) && Holds(FillLarge(large, tree.right), dummy.left)
    {
      hide Holds, HoldsSmall, HoldsLarge, FillSmall, FillLarge, Nodes, SpineNodes, SpineDistinct, Distinct;
      Open(tree, root);
      Parts(tree);
      FillSmallDistinct(small, tree.left);
      FillLeft(left, root.left, dummy, small, tree.left);
      FillRight(right, root.right, dummy, large, tree.right);
    }

    lemma StartsWorking(dummy: Node, key: int)
      requires Valid() && tree.Bin? && dummy !in nodes
      ensures Working(dummy, Empty, Empty) && root == tree.node && Parted(Inorder(tree), Empty, tree, Empty, key)
    {
      assert [] + Inorder(tree) + [] == Inorder(tree);
    }

    /** What the pointers at the root show. */
    lemma AtRoot(dummy: Node, small: Spine, large: Spine)
      requires Working(dummy, small, large) && tree.Bin?
      ensures root == tree.node && root in nodes
      ensures root.left == (if tree.left.Bin? then tree.left.node else null)
        && (tree.left.Bin? ==> tree.left.node in nodes)
      ensures root.right == (if tree.right.Bin? then tree.right.node else null)
        && (tree.right.Bin? ==> tree.right.node in nodes)
      ensures (Tip(small, dummy) == dummy || Tip(small, dummy) in nodes)
        && (Tip(large, dummy) == dummy || Tip(large, dummy) in nodes)
    {
      Open(tree, root);
      Parts(tree);
      if tree.left.Bin? {
        Open(tree.left, root.left);
        Parts(tree.left);
      }
      if tree.right.Bin? {
        Open(tree.right, root.right);
        Parts(tree.right);
      }
    }

    /** One step down towards a smaller key; `more` is false where there is nothing further down. */
    method StepLeft(key: int, right: Node, ghost dummy: Node, ghost small: Spine, ghost large: Spine,
                    ghost all: seq<Node>)
      returns (more: bool, right2: Node, ghost large2: Spine)
      requires tree.Bin? && Working(dummy, small, large) && root == tree.node && right == Tip(large, dummy)
      requires key < root.key && Parted(all, small, tree, large, key) && dummy !in nodes
      modifies this`root, this`tree, nodes, dummy`left
      ensures tree.Bin? && Working(dummy, small, large2) && right2 == Tip(large2, dummy) && root == tree.node
      ensures Parted(all, small, tree, large2, key) && (!more ==> Stops(tree, key))
      ensures more ==> (old(tree) decreases to tree)
    {
      hide Holds, Head.Working, Inorder, Nodes, SpineNodes, Ordered;
      more, right2, large2 := false, right, large;
      AtRoot(dummy, small, large);
      var tmp := root.left;
      if tmp == null {
        return;
      }
      if key < tmp.key {
        OrderTurnRight(all, small, tree, large);
        RotateRight(tmp, dummy, small, large);
        AtRoot(dummy, small, large);
        if root.left == null {
          return;
        }
      }
      LinkedLeft(all, small, tree, large, key);
      right2, large2 := LinkLeft(right, dummy, small, large);
      AtRoot(dummy, small, large2);
      more := true;
    }

    method StepRight(key: int, left: Node, ghost dummy: Node, ghost small: Spine, ghost large: Spine,
                     ghost all: seq<Node>)
      returns (more: bool, left2: Node, ghost small2: Spine)
      requires tree.Bin? && Working(dummy, small, large) && root == tree.node && left == Tip(small, dummy)
      requires key > root.key && Parted(all, small, tree, large, key) && dummy !in nodes
      modifies this`root, this`tree, nodes, dummy`right
      ensures tree.Bin? && Working(dummy, small2, large) && left2 == Tip(small2, dummy) && root == tree.node
      ensures Parted(all, small2, tree, large, key) && (!more ==> Stops(tree, key))
      ensures more ==> (old(tree) decreases to tree)
    {
      hide Holds, Head.Working, Inorder, Nodes, SpineNodes, Ordered;
      more, left2, small2 := false, left, small;
      AtRoot(dummy, small, large);
      var tmp := root.right;
      if tmp == null {
        return;
      }
      if key > tmp.key {
        OrderTurnLeft(all, small, tree, large);
        RotateLeft(tmp, dummy, small, large);
        AtRoot(dummy, small, large);
        if root.right == null {
          return;
        }
      }
      LinkedRight(all, small, tree, large, key);
      left2, small2 := LinkRight(left, dummy, small, large);
      AtRoot(dummy, small2, large);
      more := true;
    }

    /** Moves the node nearest to the key to the top; the order of the nodes stays, whatever the tree and the key. */
    method Splay(key: int)
      requires Valid() && tree.Bin?
      modifies this`root, this`tree, nodes
      ensures Valid() && Inorder(tree) == Inorder(old(tree)) && tree.Bin?
      ensures Sorted(Inorder(tree)) ==> Nearest(tree, key)
    {
      hide Holds, Head.Working, Inorder, Nodes, SpineNodes, Parted, Nearest;
      var dummy := new Node(key);
      ghost var all := Inorder(tree);
      var left, right := dummy, dummy;
      ghost var small: Spine, large: Spine := Empty, Empty;
      StartsWorking(dummy, key);
      while key != root.key
        invariant tree.Bin? && root == tree.node && Working(dummy, small, large)
        invariant left == Tip(small, dummy) && right == Tip(large, dummy)
        invariant Parted(all, small, tree, large, key)
        decreases tree
      {
        var more;
        if key < root.key {
          more, right, large := StepLeft(key, right, dummy, small, large, all);
        } else {
          more, left, small := StepRight(key, left, dummy, small, large, all);
        }
        if !more {
          break;
        }
      }
      AtRoot(dummy, small, large);
      Assembled(all, small, tree, large, key);
      Assemble(dummy, left, right, small, large);
    }

    /** Moves the smallest (`val` below zero) or the largest node (`val` above zero) to the top. */
    method SplayMinMax(val: int)
      requires Valid() && tree.Bin? && val != 0
      modifies this`root, this`tree, nodes
      ensures Valid() && Inorder(tree) == Inorder(old(tree)) && tree.Bin?
      ensures if val < 0 then tree.left.Leaf? else tree.right.Leaf?
    {
      hide Holds, Head.Working, Inorder, Nodes, SpineNodes, Parted;
      var dummy := new Node(val);
      ghost var all := Inorder(tree);
      var left, right := dummy, dummy;
      ghost var small: Spine, large: Spine := Empty, Empty;
      StartsWorking(dummy, val);
      while true
        invariant tree.Bin? && root == tree.node && Working(dummy, small, large)
        invariant left == Tip(small, dummy) && right == Tip(large, dummy)
        invariant Ordered(all, small, tree, large)
        invariant if val < 0 then small == Empty else large == Empty
        decreases tree
      {
        var more;
        if val < 0 {
          more, right, large := StepToMin(right, dummy, small, large, all);
        } else {
          more, left, small := StepToMax(left, dummy, small, large, all);
        }
        if !more {
          break;
        }
      }
      AtRoot(dummy, small, large);
      OrderAssembled(all, small, tree, large);
      Assemble(dummy, left, right, small, large);
    }

    method StepToMin(right: Node, ghost dummy: Node, ghost small: Spine, ghost large: Spine, ghost all: seq<Node>)
      returns (more: bool, right2: Node, ghost large2: Spine)
      requires tree.Bin? && Working(dummy, small, large) && root == tree.node && right == Tip(large, dummy)
      requires Ordered(all, small, tree, large) && dummy !in nodes
      modifies this`root, this`tree, nodes, dummy`left
      ensures tree.Bin? && Working(dummy, small, large2) && right2 == Tip(large2, dummy) && root == tree.node
      ensures Ordered(all, small, tree, large2) && (!more ==> tree.left.Leaf?)
      ensures more ==> (old(tree) decreases to tree)
    {
      hide Holds, Head.Working, Inorder, Nodes, SpineNodes, Ordered;
      more, right2, large2 := false, right, large;
      AtRoot(dummy, small, large);
      var tmp := root.left;
      if tmp == null {
        return;
      }
      OrderTurnRight(all, small, tree, large);
      RotateRight(tmp, dummy, small, large);
      AtRoot(dummy, small, large);
      if root.left == null {
        return;
      }
      OrderLinkedLeft(all, small, tree, large);
      right2, large2 := LinkLeft(right, dummy, small, large);
      AtRoot(dummy, small, large2);
      more := true;
    }

    method StepToMax(left: Node, ghost dummy: Node, ghost small: Spine, ghost large: Spine, ghost all: seq<Node>)
      returns (more: bool, left2: Node, ghost small2: Spine)
      requires tree.Bin? && Working(dummy, small, large) && root == tree.node && left == Tip(small, dummy)
      requires Ordered(all, small, tree, large) && dummy !in nodes
      modifies this`root, this`tree, nodes, dummy`right
      ensures tree.Bin? && Working(dummy, small2, large) && left2 == Tip(small2, dummy) && root == tree.node
      ensures Ordered(all, small2, tree, large) && (!more ==> tree.right.Leaf?)
      ensures more ==> (old(tree) decreases to tree)
    {
      hide Holds, Head.Working, Inorder, Nodes, SpineNodes, Ordered;
      more, left2, small2 := false, left, small;
      AtRoot(dummy, small, large);
      var tmp := root.right;
      if tmp == null {
        return;
      }
      OrderTurnLeft(all, small, tree, large);
      RotateLeft(tmp, dummy, small, large);
      AtRoot(dummy, small, large);
      if root.right == null {
        return;
      }
      OrderLinkedRight(all, small, tree, large);
      left2, small2 := LinkRight(left, dummy, small, large);
      AtRoot(dummy, small2, large);
      more := true;
    }
  }
}
