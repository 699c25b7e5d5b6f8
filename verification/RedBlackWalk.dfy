/** Walking the tree in key order: first, last, successor, predecessor, and the for-each loop. */
module RedBlackWalk {
  import opened KeyOrder
  import opened RedBlackShape
  import opened RedBlackHeap

  ghost predicate NextAt<T>(s: seq<Node<T>>, k: int, x: Node<T>, y: Node?<T>) {
    0 <= k < |s| && s[k] == x && y == if k + 1 < |s| then s[k + 1] else null
  }

  ghost predicate PrevAt<T>(s: seq<Node<T>>, k: int, x: Node<T>, y: Node?<T>) {
    0 <= k < |s| && s[k] == x && y == if k > 0 then s[k - 1] else null
  }

  /** `y` is the element after `x`, or null if `x` is the last one. */
  ghost predicate IsNext<T>(s: seq<Node<T>>, x: Node<T>, y: Node?<T>) {
    exists k :: NextAt(s, k, x, y)
  }

  /** `y` is the element before `x`, or null if `x` is the first one. */
  ghost predicate IsPrev<T>(s: seq<Node<T>>, x: Node<T>, y: Node?<T>) {
    exists k :: PrevAt(s, k, x, y)
  }

  lemma {:induction false} Locate<T>(t: Tree<T>, n: Node<T>) returns (c: Ctx<T>, s: Tree<T>)
    requires n in Nodes(t)
    ensures t == Plug(c, s) && s.Bin? && s.node == n
  {
    if t.node == n {
      c, s := Top, t;
    } else if n in Nodes(t.left) {
      var d;
      d, s := Locate(t.left, n);
      c := Over(InLeft(Top, t.node, t.red, t.right), d);
      PlugOver(InLeft(Top, t.node, t.red, t.right), d, s);
    } else {
      var d;
      d, s := Locate(t.right, n);
      c := Over(InRight(Top, t.node, t.red, t.left), d);
      PlugOver(InRight(Top, t.node, t.red, t.left), d, s);
    }
  }

  /** Down the left links: the smallest node of the focus. */
  method Leftmost<T>(head: Head<T>, elm0: Node<T>, ghost c: Ctx<T>, ghost t0: Tree<T>)
    returns (elm: Node<T>, ghost d: Ctx<T>, ghost t: Tree<T>)
    requires head.Focus(c, t0) && Ref(t0) == elm0
    ensures head.Focus(Over(c, d), t) && Ref(t) == elm && t.left.Leaf? && Plug(d, t) == t0 && Before(d) == []
    ensures elm in head.nodes
  {
    hide Head.Focus;
    elm, d, t := elm0, Top, t0;
    head.Look(c, t);
    while elm.left != null
      invariant head.Focus(Over(c, d), t) && Ref(t) == elm && Plug(d, t) == t0 && Before(d) == []
      invariant elm in head.nodes && elm.left == Ref(t.left)
      decreases t
    {
      elm := elm.left;
      head.Left(Over(c, d), t.left, t.node, t.red, t.right);
      d, t := InLeft(d, t.node, t.red, t.right), t.left;
      head.Look(Over(c, d), t);
    }
  }

  method Rightmost<T>(head: Head<T>, elm0: Node<T>, ghost c: Ctx<T>, ghost t0: Tree<T>)
    returns (elm: Node<T>, ghost d: Ctx<T>, ghost t: Tree<T>)
    requires head.Focus(c, t0) && Ref(t0) == elm0
    ensures head.Focus(Over(c, d), t) && Ref(t) == elm && t.right.Leaf? && Plug(d, t) == t0 && After(d) == []
    ensures elm in head.nodes
  {
    hide Head.Focus;
    elm, d, t := elm0, Top, t0;
    head.Look(c, t);
    while elm.right != null
      invariant head.Focus(Over(c, d), t) && Ref(t) == elm && Plug(d, t) == t0 && After(d) == []
      invariant elm in head.nodes && elm.right == Ref(t.right)
      decreases t
    {
      elm := elm.right;
      head.Right(Over(c, d), t.left, t.node, t.red, t.right);
      d, t := InRight(d, t.node, t.red, t.left), t.right;
      head.Look(Over(c, d), t);
    }
  }

  /** RB_MIN. */
  method Min<T>(head: Head<T>) returns (r: Node?<T>)
    requires head.Valid()
    ensures if head.Contents() == [] then r == null else r == head.Contents()[0]
  {
    hide Head.Focus;
    r := head.root;
    head.Look(Top, head.shape);
    if r != null {
      var n, c, t := Leftmost(head, r, Top, head.shape);
      PlugOver(Top, c, t);
      InorderPlug(c, t);
      r := n;
    }
  }

  /** RB_MAX. */
  method Max<T>(head: Head<T>) returns (r: Node?<T>)
    requires head.Valid()
    ensures if head.Contents() == [] then r == null else r == head.Contents()[|head.Contents()| - 1]
  {
    hide Head.Focus;
    r := head.root;
    head.Look(Top, head.shape);
    if r != null {
      var n, c, t := Rightmost(head, r, Top, head.shape);
      PlugOver(Top, c, t);
      InorderPlug(c, t);
      r := n;
    }
  }

  /** Up, as long as the node is a right child. */
  method ClimbRight<T>(head: Head<T>, elm0: Node<T>, ghost c0: Ctx<T>, ghost t0: Tree<T>)
    returns (r: Node?<T>, ghost c: Ctx<T>, ghost t: Tree<T>)
    requires head.Focus(c0, t0) && Ref(t0) == elm0
    ensures Plug(c, t) == Plug(c0, t0) && !c.InRight? && r == ParentOf(c)
    ensures Before(c) + Inorder(t) == Before(c0) + Inorder(t0)
  {
    hide Head.Focus;
    var elm := elm0;
    c, t := c0, t0;
    head.Look(c, t);
    while elm.parent != null && elm == elm.parent.right
      invariant head.Focus(c, t) && Ref(t) == elm && Plug(c, t) == Plug(c0, t0)
      invariant Before(c) + Inorder(t) == Before(c0) + Inorder(t0)
      invariant elm in head.nodes && elm.parent == ParentOf(c)
      invariant c.InLeft? ==> elm.parent.right != elm
      decreases c
    {
      head.Look(c, t);
      elm := elm.parent;
      head.Right(c.up, c.sibling, c.node, c.red, t);
      Assoc3(Before(c.up), Inorder(c.sibling), [c.node], Inorder(t));
      c, t := c.up, Bin(c.sibling, c.node, c.red, t);
      head.Look(c, t);
    }
    head.Look(c, t);
    r := elm.parent;
  }

  method ClimbLeft<T>(head: Head<T>, elm0: Node<T>, ghost c0: Ctx<T>, ghost t0: Tree<T>)
    returns (r: Node?<T>, ghost c: Ctx<T>, ghost t: Tree<T>)
    requires head.Focus(c0, t0) && Ref(t0) == elm0
    ensures Plug(c, t) == Plug(c0, t0) && !c.InLeft? && r == ParentOf(c)
    ensures Inorder(t) + After(c) == Inorder(t0) + After(c0)
  {
    hide Head.Focus;
    var elm := elm0;
    c, t := c0, t0;
    head.Look(c, t);
    while elm.parent != null && elm == elm.parent.left
      invariant head.Focus(c, t) && Ref(t) == elm && Plug(c, t) == Plug(c0, t0)
      invariant Inorder(t) + After(c) == Inorder(t0) + After(c0)
      invariant elm in head.nodes && elm.parent == ParentOf(c)
      invariant c.InRight? ==> elm.parent.left != elm
      decreases c
    {
      head.Look(c, t);
      elm := elm.parent;
      head.Left(c.up, t, c.node, c.red, c.sibling);
      Assoc3(Inorder(t), [c.node], Inorder(c.sibling), After(c.up));
      c, t := c.up, Bin(t, c.node, c.red, c.sibling);
      head.Look(c, t);
    }
    head.Look(c, t);
    r := elm.parent;
  }

  /** Position of the focus' root in the whole. */
  lemma FocusAt<T>(c: Ctx<T>, t: Tree<T>)
    requires t.Bin?
    ensures Inorder(Plug(c, t)) == (Before(c) + Inorder(t.left)) + [t.node] + (Inorder(t.right) + After(c))
  {
    InorderPlug(c, t);
    Assoc5(Before(c), Inorder(t.left), [t.node], Inorder(t.right), After(c));
    Assoc(Before(c) + Inorder(t.left) + [t.node], Inorder(t.right), After(c));
  }

  lemma NextBelow<T>(c: Ctx<T>, t: Tree<T>, c': Ctx<T>, t': Tree<T>)
    requires t.Bin? && t'.Bin? && t'.left.Leaf? && Plug(c', t') == Plug(c, t)
    requires Before(c') == Before(c) + Inorder(t.left) + [t.node]
    ensures IsNext(Inorder(Plug(c, t)), t.node, t'.node)
  {
    FocusAt(c, t);
    FocusAt(c', t');
    assert NextAt(Inorder(Plug(c, t)), |Before(c) + Inorder(t.left)|, t.node, t'.node);
  }

  lemma PrevBelow<T>(c: Ctx<T>, t: Tree<T>, c': Ctx<T>, t': Tree<T>)
    requires t.Bin? && t'.Bin? && t'.right.Leaf? && Plug(c', t') == Plug(c, t)
    requires After(c') == [t.node] + Inorder(t.right) + After(c)
    ensures IsPrev(Inorder(Plug(c, t)), t.node, t'.node)
  {
    FocusAt(c, t);
    FocusAt(c', t');
    var s, k := Inorder(Plug(c, t)), |Before(c) + Inorder(t.left)|;
    assert |s| == |Before(c') + Inorder(t'.left)| + 1 + |After(c')|;
    assert PrevAt(s, k, t.node, t'.node);
  }

  /** The same sequence cut after `x` in two ways. */
  lemma CutAfter<T>(s: seq<Node<T>>, b: seq<Node<T>>, x: Node<T>, p: seq<Node<T>>, a: seq<Node<T>>)
    requires s == p + a && p == b + [x]
    ensures IsNext(s, x, if a == [] then null else a[0])
  {
    var y: Node?<T> := if a == [] then null else a[0];
    assert NextAt(s, |b|, x, y);
  }

  lemma CutBefore<T>(s: seq<Node<T>>, b: seq<Node<T>>, x: Node<T>, q: seq<Node<T>>, a: seq<Node<T>>)
    requires s == b + q && q == [x] + a
    ensures IsPrev(s, x, if b == [] then null else b[|b| - 1])
  {
    var y: Node?<T> := if b == [] then null else b[|b| - 1];
    assert PrevAt(s, |b|, x, y);
  }

  lemma NextAbove<T>(c: Ctx<T>, t: Tree<T>, c': Ctx<T>, t': Tree<T>)
    requires t.Bin? && t.right.Leaf? && !c'.InRight? && Plug(c', t') == Plug(c, t)
    requires Before(c') + Inorder(t') == Before(c) + Inorder(t)
    ensures IsNext(Inorder(Plug(c, t)), t.node, ParentOf(c'))
  {
    InorderPlug(c', t');
    assert Before(c) + Inorder(t) == (Before(c) + Inorder(t.left)) + [t.node];
    CutAfter(Inorder(Plug(c, t)), Before(c) + Inorder(t.left), t.node, Before(c') + Inorder(t'), After(c'));
  }

  lemma PrevAbove<T>(c: Ctx<T>, t: Tree<T>, c': Ctx<T>, t': Tree<T>)
    requires t.Bin? && t.left.Leaf? && !c'.InLeft? && Plug(c', t') == Plug(c, t)
    requires Inorder(t') + After(c') == Inorder(t) + After(c)
    ensures IsPrev(Inorder(Plug(c, t)), t.node, ParentOf(c'))
  {
    InorderPlug(c', t');
    assert Inorder(t) == [t.node] + Inorder(t.right);
    Assoc([t.node], Inorder(t.right), After(c));
    Assoc(Before(c'), Inorder(t'), After(c'));
    CutBefore(Inorder(Plug(c, t)), Before(c'), t.node, Inorder(t') + After(c'), Inorder(t.right) + After(c));
  }

  /** RB_NEXT. */
  method Next<T>(head: Head<T>, elm: Node<T>) returns (r: Node?<T>)
    requires head.Valid() && elm in head.nodes
    ensures IsNext(head.Contents(), elm, r) && (r != null ==> r in head.nodes)
  {
    hide Head.Focus;
    ghost var c, t := Locate(head.shape, elm);
    head.Whole(c, t);
    head.Look(c, t);
    if elm.right != null {
      head.Right(c, t.left, elm, t.red, t.right);
      ghost var c1 := InRight(c, elm, t.red, t.left);
      var n, d, t' := Leftmost(head, elm.right, c1, t.right);
      PlugOver(c1, d, t');
      BeforeOver(c1, d);
      NextBelow(c, t, Over(c1, d), t');
      r := n;
    } else {
      var n, c', t' := ClimbRight(head, elm, c, t);
      NextAbove(c, t, c', t');
      r := n;
    }
    NodesAreInorder(head.shape);
  }

  /** RB_PREV. */
  method Prev<T>(head: Head<T>, elm: Node<T>) returns (r: Node?<T>)
    requires head.Valid() && elm in head.nodes
    ensures IsPrev(head.Contents(), elm, r) && (r != null ==> r in head.nodes)
  {
    hide Head.Focus;
    ghost var c, t := Locate(head.shape, elm);
    head.Whole(c, t);
    head.Look(c, t);
    if elm.left != null {
      head.Left(c, t.left, elm, t.red, t.right);
      ghost var c1 := InLeft(c, elm, t.red, t.right);
      var n, d, t' := Rightmost(head, elm.left, c1, t.left);
      PlugOver(c1, d, t');
      BeforeOver(c1, d);
      PrevBelow(c, t, Over(c1, d), t');
      r := n;
    } else {
      var n, c', t' := ClimbLeft(head, elm, c, t);
      PrevAbove(c, t, c', t');
      r := n;
    }
    NodesAreInorder(head.shape);
  }

  /** Successor and predecessor undo each other. */
  lemma NextPrevInverse<T>(s: seq<Node<T>>, x: Node<T>, y: Node<T>)
    requires Sorted(s)
    ensures IsNext(s, x, y) <==> IsPrev(s, y, x)
  {
    SortedDistinct(s);
    if IsNext(s, x, y) {
      var k :| NextAt(s, k, x, y);
      assert PrevAt(s, k + 1, y, x);
    }
    if IsPrev(s, y, x) {
      var k :| PrevAt(s, k, y, x);
      assert NextAt(s, k - 1, x, y);
    }
  }

  lemma SortedDistinct<T>(s: seq<Node<T>>)
    requires Sorted(s)
    ensures forall i, j :: 0 <= i < j < |s| ==> s[i] != s[j]
  {
    forall i, j | 0 <= i < j < |s| ensures s[i] != s[j] { Antisymmetric(s[i].key, s[j].key); }
  }

  /** RB_FOREACH: every node once, in ascending order. */
  method ForEach<T>(head: Head<T>) returns (visited: seq<Node<T>>)
    requires head.Valid()
    ensures visited == head.Contents()
  {
    hide Head.Focus;
    visited := [];
    SortedDistinct(head.Contents());
    NodesAreInorder(head.shape);
    var x := Min(head);
    while x != null
      invariant |visited| <= |head.Contents()| && visited == head.Contents()[..|visited|]
      invariant if |visited| < |head.Contents()| then x == head.Contents()[|visited|] else x == null
      decreases |head.Contents()| - |visited|
    {
      visited := visited + [x];
      x := Next(head, x);
    }
  }
}
