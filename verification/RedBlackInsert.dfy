/** Insertion: descent to the empty place of a key, and the colour fix-up. */
module RedBlackInsert {
  import opened KeyOrder
  import opened RedBlackShape
  import opened RedBlackHeap
  import opened RedBlackSearch

  /** The red node being fixed: everything is in order except that its parent may be red too. */
  ghost predicate RedFocus<T>(c: Ctx<T>, l: Tree<T>, r: Tree<T>, h: nat) {
    RB(l, h) && RB(r, h) && !IsRed(l) && !IsRed(r) && Fits(c, h)
  }

  /** Parent and uncle of `elm` are red: repaint, and go on from the grandparent. */
  method Repaint<T>(head: Head<T>, gparent: Node<T>, parent: Node<T>, uncle: Node<T>, leftSide: bool,
                    ghost c: Ctx<T>, ghost p: Tree<T>, ghost u: Tree<T>)
    requires p.Bin? && p.node == parent && p.red && u.Bin? && u.node == uncle && u.red
    requires head.Focus(c, if leftSide then Bin(p, gparent, false, u) else Bin(u, gparent, false, p))
    modifies head.nodes
    ensures var p', u' := Blacken(p), Blacken(u);
            head.Focus(c, if leftSide then Bin(p', gparent, true, u') else Bin(u', gparent, true, p'))
  {
    hide Head.Focus;
    ghost var p', u' := Blacken(p), Blacken(u);
    if leftSide {
      head.Right(c, p, gparent, false, u);
      head.SetRed(uncle, false, InRight(c, gparent, false, p), u.left, true, u.right);
      head.Right(c, p, gparent, false, u');
      head.Left(c, p, gparent, false, u');
      head.SetRed(parent, false, InLeft(c, gparent, false, u'), p.left, true, p.right);
      head.Left(c, p', gparent, false, u');
      head.SetRed(gparent, true, c, p', false, u');
    } else {
      head.Left(c, u, gparent, false, p);
      head.SetRed(uncle, false, InLeft(c, gparent, false, p), u.left, true, u.right);
      head.Left(c, u', gparent, false, p);
      head.Right(c, u', gparent, false, p);
      head.SetRed(parent, false, InRight(c, gparent, false, u'), p.left, true, p.right);
      head.Right(c, u', gparent, false, p');
      head.SetRed(gparent, true, c, u', false, p');
    }
  }

  /** `elm` and its parent are red, the uncle `u` is not; all three on the left of the grandparent. */
  method TurnLeft<T>(head: Head<T>, elm: Node<T>, parent: Node<T>, gparent: Node<T>, ghost c: Ctx<T>,
                         ghost l: Tree<T>, ghost r: Tree<T>, ghost s: Tree<T>, ghost u: Tree<T>, inner: bool,
                         ghost h: nat)
    returns (elm': Node<T>, ghost c': Ctx<T>, ghost l': Tree<T>, ghost r': Tree<T>)
    requires RB(s, h) && !IsRed(s) && RB(u, h) && !IsRed(u) && RB(l, h) && !IsRed(l) && RB(r, h) && !IsRed(r)
    requires Fits(c, h + 1)
    requires var e := Bin(l, elm, true, r);
             head.Focus(c, Bin(if inner then Bin(s, parent, true, e) else Bin(e, parent, true, s), gparent, false, u))
    modifies head`root, head.nodes
    ensures head.Focus(c', Bin(l', elm', true, r')) && RedFocus(c', l', r', h)
    ensures Depth(c') == Depth(c) + 1 && !HoleUnderRed(c')
    ensures var e := Bin(l, elm, true, r);
            var p := if inner then Bin(s, parent, true, e) else Bin(e, parent, true, s);
            Inorder(Plug(c', Bin(l', elm', true, r'))) == Inorder(Plug(c, Bin(p, gparent, false, u)))
  {
    hide Head.Focus;
    ghost var e := Bin(l, elm, true, r);
    ghost var was := Bin(if inner then Bin(s, parent, true, e) else Bin(e, parent, true, s), gparent, false, u);
    var top;
    ghost var s';
    if inner {
      head.Left(c, was.left, gparent, false, u);
      head.RotateLeft(parent, InLeft(c, gparent, false, u), s, true, l, elm, true, r);
      top, elm', l', r', s' := elm, parent, s, l, r;
      RotateInorder(s, parent, l, elm, r, true, true, true, true);
    } else {
      head.Left(c, was.left, gparent, false, u);
      top, elm', l', r', s' := parent, elm, l, r, s;
    }
    ghost var e' := Bin(l', elm', true, r');
    head.SetRed(top, false, InLeft(c, gparent, false, u), e', true, s');
    head.Left(c, Bin(e', top, false, s'), gparent, false, u);
    head.SetRed(gparent, true, c, Bin(e', top, false, s'), false, u);
    head.RotateRight(gparent, c, e', top, false, s', true, u);
    RotateInorder(e', top, s', gparent, u, false, true, false, true);
    head.Left(c, e', top, false, Bin(s', gparent, true, u));
    c' := InLeft(c, top, false, Bin(s', gparent, true, u));
    PlugInorder(c, was, Bin(e', top, false, Bin(s', gparent, true, u)));
  }

  method TurnRight<T>(head: Head<T>, elm: Node<T>, parent: Node<T>, gparent: Node<T>, ghost c: Ctx<T>,
                      ghost l: Tree<T>, ghost r: Tree<T>, ghost s: Tree<T>, ghost u: Tree<T>, inner: bool, ghost h: nat)
    returns (elm': Node<T>, ghost c': Ctx<T>, ghost l': Tree<T>, ghost r': Tree<T>)
    requires RB(s, h) && !IsRed(s) && RB(u, h) && !IsRed(u) && RB(l, h) && !IsRed(l) && RB(r, h) && !IsRed(r)
    requires Fits(c, h + 1)
    requires var e := Bin(l, elm, true, r);
             head.Focus(c, Bin(u, gparent, false, if inner then Bin(e, parent, true, s) else Bin(s, parent, true, e)))
    modifies head`root, head.nodes
    ensures head.Focus(c', Bin(l', elm', true, r')) && RedFocus(c', l', r', h)
    ensures Depth(c') == Depth(c) + 1 && !HoleUnderRed(c')
    ensures var e := Bin(l, elm, true, r);
            var p := if inner then Bin(e, parent, true, s) else Bin(s, parent, true, e);
            Inorder(Plug(c', Bin(l', elm', true, r'))) == Inorder(Plug(c, Bin(u, gparent, false, p)))
  {
    hide Head.Focus;
    ghost var e := Bin(l, elm, true, r);
    ghost var was := Bin(u, gparent, false, if inner then Bin(e, parent, true, s) else Bin(s, parent, true, e));
    var top;
    ghost var s';
    head.Right(c, u, gparent, false, was.right);
    if inner {
      head.RotateRight(parent, InRight(c, gparent, false, u), l, elm, true, r, true, s);
      top, elm', s', l', r' := elm, parent, l, r, s;
      RotateInorder(l, elm, r, parent, s, true, true, true, true);
    } else {
      top, elm', s', l', r' := parent, elm, s, l, r;
    }
    ghost var e' := Bin(l', elm', true, r');
    head.SetRed(top, false, InRight(c, gparent, false, u), s', true, e');
    head.Right(c, u, gparent, false, Bin(s', top, false, e'));
    head.SetRed(gparent, true, c, u, false, Bin(s', top, false, e'));
    head.RotateLeft(gparent, c, u, true, s', top, false, e');
    RotateInorder(u, gparent, s', top, e', false, true, true, false);
    head.Right(c, Bin(u, gparent, true, s'), top, false, e');
    c' := InRight(c, top, false, Bin(u, gparent, true, s'));
    PlugInorder(c, was, Bin(Bin(u, gparent, true, s'), top, false, e'));
  }

  /** The parent, red like `elm`, is a left child. */
  method FixUnderLeft<T>(head: Head<T>, elm: Node<T>, parent: Node<T>, gparent: Node<T>, inner: bool, ghost c: Ctx<T>,
                         ghost l: Tree<T>, ghost r: Tree<T>, ghost s: Tree<T>, ghost u: Tree<T>, ghost h: nat)
    returns (elm': Node<T>, ghost c': Ctx<T>, ghost l': Tree<T>, ghost r': Tree<T>, ghost h': nat)
    requires RB(s, h) && !IsRed(s) && RB(u, h) && RB(l, h) && !IsRed(l) && RB(r, h) && !IsRed(r) && Fits(c, h + 1)
    requires var e := Bin(l, elm, true, r);
             head.Focus(c, Bin(if inner then Bin(s, parent, true, e) else Bin(e, parent, true, s), gparent, false, u))
    modifies head`root, head.nodes
    ensures head.Focus(c', Bin(l', elm', true, r')) && RedFocus(c', l', r', h') && Depth(c') <= Depth(c) + 1
    ensures var e := Bin(l, elm, true, r);
            var p := if inner then Bin(s, parent, true, e) else Bin(e, parent, true, s);
            Inorder(Plug(c', Bin(l', elm', true, r'))) == Inorder(Plug(c, Bin(p, gparent, false, u)))
  {
    hide Head.Focus;
    ghost var e := Bin(l, elm, true, r);
    ghost var p := if inner then Bin(s, parent, true, e) else Bin(e, parent, true, s);
    head.Look(c, Bin(p, gparent, false, u));
    head.Right(c, p, gparent, false, u);
    head.Look(InRight(c, gparent, false, p), u);
    var tmp := gparent.right;
    assert RB(e, h);
    if tmp != null && tmp.red {
      Repaint(head, gparent, parent, tmp, true, c, p, u);
      elm', c', l', r', h' := gparent, c, Blacken(p), Blacken(u), h + 1;
      PlugInorder(c, Bin(p, gparent, false, u), Bin(l', gparent, true, r'));
    } else {
      elm', c', l', r' := TurnLeft(head, elm, parent, gparent, c, l, r, s, u, inner, h);
      h' := h;
    }
  }

  /** The parent, red like `elm`, is a right child. */
  method FixUnderRight<T>(head: Head<T>, elm: Node<T>, parent: Node<T>, gparent: Node<T>, inner: bool, ghost c: Ctx<T>,
                          ghost l: Tree<T>, ghost r: Tree<T>, ghost s: Tree<T>, ghost u: Tree<T>, ghost h: nat)
    returns (elm': Node<T>, ghost c': Ctx<T>, ghost l': Tree<T>, ghost r': Tree<T>, ghost h': nat)
    requires RB(s, h) && !IsRed(s) && RB(u, h) && RB(l, h) && !IsRed(l) && RB(r, h) && !IsRed(r) && Fits(c, h + 1)
    requires var e := Bin(l, elm, true, r);
             head.Focus(c, Bin(u, gparent, false, if inner then Bin(e, parent, true, s) else Bin(s, parent, true, e)))
    modifies head`root, head.nodes
    ensures head.Focus(c', Bin(l', elm', true, r')) && RedFocus(c', l', r', h') && Depth(c') <= Depth(c) + 1
    ensures var e := Bin(l, elm, true, r);
            var p := if inner then Bin(e, parent, true, s) else Bin(s, parent, true, e);
            Inorder(Plug(c', Bin(l', elm', true, r'))) == Inorder(Plug(c, Bin(u, gparent, false, p)))
  {
    hide Head.Focus;
    ghost var e := Bin(l, elm, true, r);
    ghost var p := if inner then Bin(e, parent, true, s) else Bin(s, parent, true, e);
    head.Look(c, Bin(u, gparent, false, p));
    head.Left(c, u, gparent, false, p);
    head.Look(InLeft(c, gparent, false, p), u);
    var tmp := gparent.left;
    assert RB(e, h);
    if tmp != null && tmp.red {
      Repaint(head, gparent, parent, tmp, false, c, p, u);
      elm', c', l', r', h' := gparent, c, Blacken(u), Blacken(p), h + 1;
      PlugInorder(c, Bin(u, gparent, false, p), Bin(l', gparent, true, r'));
    } else {
      elm', c', l', r' := TurnRight(head, elm, parent, gparent, c, l, r, s, u, inner, h);
      h' := h;
    }
  }

  /** One round of the fix-up: `elm` and its parent are both red, so there is a grandparent. */
  method InsertColorStep<T>(head: Head<T>, elm: Node<T>, parent: Node<T>, ghost c: Ctx<T>, ghost l: Tree<T>,
                            ghost r: Tree<T>, ghost h: nat)
    returns (elm': Node<T>, ghost c': Ctx<T>, ghost l': Tree<T>, ghost r': Tree<T>, ghost h': nat)
    requires head.Focus(c, Bin(l, elm, true, r)) && RedFocus(c, l, r, h) && HoleUnderRed(c) && parent == c.node
    modifies head`root, head.nodes
    ensures head.Focus(c', Bin(l', elm', true, r')) && RedFocus(c', l', r', h') && Depth(c') < Depth(c)
    ensures Inorder(Plug(c', Bin(l', elm', true, r'))) == Inorder(Plug(c, Bin(l, elm, true, r)))
  {
    hide Head.Focus;
    ghost var e, cp, s := Bin(l, elm, true, r), c.up, c.sibling;
    ghost var p := if c.InLeft? then Bin(e, parent, true, s) else Bin(s, parent, true, e);
    assert FitsAt(cp, true, s, h) && Fits(cp, h) && !cp.red;
    ghost var cg, u := cp.up, cp.sibling;
    assert RB(u, h) && Fits(cg, h + 1);
    head.Look(c, e);
    if c.InLeft? { head.Left(cp, e, parent, true, s); } else { head.Right(cp, s, parent, true, e); }
    head.Look(cp, p);
    var gparent := parent.parent;
    if cp.InLeft? { head.Left(cg, p, gparent, false, u); } else { head.Right(cg, u, gparent, false, p); }
    if parent == gparent.left {
      elm', c', l', r', h' := FixUnderLeft(head, elm, parent, gparent, parent.right == elm, cg, l, r, s, u, h);
    } else {
      elm', c', l', r', h' := FixUnderRight(head, elm, parent, gparent, parent.left == elm, cg, l, r, s, u, h);
    }
  }

  method InsertColor<T>(head: Head<T>, elm0: Node<T>, ghost c0: Ctx<T>, ghost l0: Tree<T>, ghost r0: Tree<T>,
                        ghost h0: nat)
    returns (ghost t: Tree<T>, ghost bh: nat)
    requires head.Focus(c0, Bin(l0, elm0, true, r0)) && RedFocus(c0, l0, r0, h0)
    modifies head`root, head.nodes
    ensures head.Focus(Top, t) && !IsRed(t) && RB(t, bh) && Inorder(t) == Inorder(Plug(c0, Bin(l0, elm0, true, r0)))
  {
    hide Head.Focus;
    var elm := elm0;
    ghost var c, l, r, h := c0, l0, r0, h0;
    head.Look(c, Bin(l, elm, true, r));
    while elm.parent != null && elm.parent.red
      invariant head.Focus(c, Bin(l, elm, true, r)) && RedFocus(c, l, r, h)
      invariant elm in head.nodes && elm.parent == ParentOf(c)
        && (elm.parent != null ==> elm.parent.red == HoleUnderRed(c))
      invariant Inorder(Plug(c, Bin(l, elm, true, r))) == Inorder(Plug(c0, Bin(l0, elm0, true, r0)))
      decreases Depth(c)
    {
      elm, c, l, r, h := InsertColorStep(head, elm, elm.parent, c, l, r, h);
      head.Look(c, Bin(l, elm, true, r));
    }
    t := Plug(c, Bin(l, elm, true, r));
    bh := PlugRB(c, Bin(l, elm, true, r), h);
    head.Whole(c, Bin(l, elm, true, r));
    head.Look(Top, t);
    head.SetRed(head.root, false, Top, t.left, t.red, t.right);
    bh := if t.red then bh + 1 else bh;
    t := Blacken(t);
  }

  /** RB_SET, and the link from the parent found by the search. */
  method Attach<T>(head: Head<T>, elm: Node<T>, parent: Node?<T>, comp: int, ghost c: Ctx<T>)
    requires head.Focus(c, Leaf) && parent == ParentOf(c) && (c.InLeft? <==> comp < 0) && elm !in CNodes(c) + head.nodes
    modifies head`root, head`nodes, elm, Opt(parent)
    ensures head.nodes == old(head.nodes) + {elm} && head.Focus(c, Bin(Leaf, elm, true, Leaf))
  {
    ghost var m, r, changed := Snap(head.nodes), head.root, {elm} + Owner(c);
    head.Look(c, Leaf);
    hide At, Same;
    elm.parent := parent;
    elm.left, elm.right := null, null;
    elm.red := true;
    if parent != null {
      if comp < 0 {
        parent.left := elm;
      } else {
        parent.right := elm;
      }
    } else {
      head.root := elm;
    }
    head.nodes := head.nodes + {elm};
    forall n | n in m && n !in changed ensures m[n] == Entry(n.left, n.right, n.parent, n.red) { }
    SnapSame(m, head.nodes, changed);
    AttachAt(m, Snap(head.nodes), r, head.root, c, elm);
  }

  /** After the attachment: fix the colours and record the new shape. */
  method Rebalance<T>(head: Head<T>, elm: Node<T>, ghost c: Ctx<T>, ghost whole: Tree<T>)
    requires RedBlack(Plug(c, Leaf)) && head.Focus(c, Bin(Leaf, elm, true, Leaf))
    requires whole == Plug(c, Bin(Leaf, elm, true, Leaf)) && head.nodes == Nodes(whole) && Sorted(Inorder(whole))
    modifies head`root, head`shape, head.nodes
    ensures head.Valid() && head.Contents() == Inorder(whole)
  {
    hide Head.Focus;
    ghost var bh := UnplugRB(c, Leaf, BlackHeight(Plug(c, Leaf)));
    ghost var t;
    t, bh := InsertColor(head, elm, c, Leaf, Leaf, 0);
    RBHasBlackHeight(t, bh);
    SameNodes(t, whole);
    head.shape := t;
  }

  /** The key belongs in the hole of `c`: hang the node there and rebalance. */
  method InsertAt<T>(head: Head<T>, elm: Node<T>, parent: Node?<T>, comp: int, ghost c: Ctx<T>)
    requires head.Valid() && elm !in head.nodes && Plug(c, Leaf) == head.shape && Between(c, elm.key)
    requires parent == ParentOf(c) && (c.InLeft? <==> comp < 0)
    modifies head`root, head`shape, head`nodes, head.nodes, elm
    ensures head.Valid() && head.nodes == old(head.nodes) + {elm}
    ensures Inserted(old(head.Contents()), elm, head.Contents())
  {
    hide Head.Focus;
    head.Whole(c, Leaf);
    PlugNodes(c, Leaf);
    Attached(c, elm);
    Attach(head, elm, parent, comp, c);
    ghost var whole := Plug(c, Bin(Leaf, elm, true, Leaf));
    PlugNodes(c, Bin(Leaf, elm, true, Leaf));
    Rebalance(head, elm, c, whole);
  }

  /** Inserts `elm`, unless a node with an equal key is there already: then that node is returned. */
  method Insert<T>(head: Head<T>, elm: Node<T>, cmp: Node<T> ~> int) returns (found: Node?<T>)
    requires head.Valid() && Compares(cmp, elm.key, head.nodes)
    modifies head`root, head`shape, head`nodes, head.nodes, elm
    ensures head.Valid()
    ensures found != null ==> found in old(head.nodes) && StrCaseCmp(elm.key, found.key) == 0
                              && unchanged(head) && (forall n :: n in head.nodes ==> unchanged(n)) && unchanged(elm)
    ensures found == null ==>
      Inserted(old(head.Contents()), elm, head.Contents()) && head.nodes == old(head.nodes) + {elm}
    ensures found == null ==> forall n :: n in old(head.nodes) ==> StrCaseCmp(elm.key, n.key) != 0
  {
    hide Head.Focus;
    var tmp, parent, comp, _, c, t := Descend(head, elm.key, cmp);
    PlugNodes(c, t);
    if tmp != null {
      return tmp;
    }
    BetweenIsAbsent(c, elm.key);
    Antisymmetric(elm.key, elm.key);
    InsertAt(head, elm, parent, comp, c);
    found := null;
  }
}
