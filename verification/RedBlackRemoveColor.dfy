/** The colour fix-up after a removal, for a subtree that is one black node short. */
module RedBlackRemoveColor {
  import opened RedBlackShape
  import opened RedBlackHeap

  /** The focus is one black node short of what its context needs, unless its root is red:
      then painting it black makes up for it. */
  ghost predicate Short<T>(c: Ctx<T>, t: Tree<T>, h: nat) {
    Fits(c, h + 1) && (if IsRed(t) then RB(Blacken(t), h + 1) else RB(t, h))
  }

  ghost predicate Settled<T>(c: Ctx<T>, t: Tree<T>, h: nat) {
    Fits(c, h) && RB(t, h) && (c.Top? || HoleUnderRed(c) ==> !IsRed(t))
  }

  /** What is left to do: nothing under a red focus, else one step per level. The step that meets
      a red sibling moves the focus down, but paints the parent red. */
  ghost function Work<T>(c: Ctx<T>, t: Tree<T>): nat {
    if IsRed(t) then 0 else Depth(c) + 1
  }

  // ----- the focus is a left child -----

  method RedSiblingRight<T>(head: Head<T>, parent: Node<T>, tmp: Node<T>, ghost c: Ctx<T>, ghost t: Tree<T>,
                            ghost sl: Tree<T>, ghost sr: Tree<T>)
    requires head.Focus(c, Bin(t, parent, false, Bin(sl, tmp, true, sr)))
    modifies head`root, head.nodes
    ensures head.Focus(InLeft(c, tmp, false, sr), Bin(t, parent, true, sl))
    ensures Inorder(Plug(InLeft(c, tmp, false, sr), Bin(t, parent, true, sl))) ==
      Inorder(Plug(c, Bin(t, parent, false, Bin(sl, tmp, true, sr))))
  {
    hide Head.Focus;
    head.Right(c, t, parent, false, Bin(sl, tmp, true, sr));
    head.SetRed(tmp, false, InRight(c, parent, false, t), sl, true, sr);
    head.Right(c, t, parent, false, Bin(sl, tmp, false, sr));
    head.SetRed(parent, true, c, t, false, Bin(sl, tmp, false, sr));
    head.RotateLeft(parent, c, t, true, sl, tmp, false, sr);
    head.Left(c, Bin(t, parent, true, sl), tmp, false, sr);
    RotateInorder(t, parent, sl, tmp, sr, false, true, true, false);
    PlugInorder(c, Bin(t, parent, false, Bin(sl, tmp, true, sr)), Bin(Bin(t, parent, true, sl), tmp, false, sr));
  }

  /** The nephew next to the focus is red, the far one is not: make the far one red. */
  method NearNephewRight<T>(head: Head<T>, parent: Node<T>, tmp: Node<T>, oleft: Node<T>, ghost c: Ctx<T>,
                            ghost t: Tree<T>, ghost pr: bool,
                            ghost sl: Tree<T>, ghost sr: Tree<T>) returns (tmp': Node<T>)
    requires sl.Bin? && sl.node == oleft && sl.red
    requires head.Focus(c, Bin(t, parent, pr, Bin(sl, tmp, false, sr)))
    modifies head`root, head.nodes
    ensures tmp' == oleft && head.Focus(c, Bin(t, parent, pr, Bin(sl.left, oleft, false, Bin(sl.right, tmp, true, sr))))
    ensures Inorder(Bin(sl.left, oleft, false, Bin(sl.right, tmp, true, sr))) == Inorder(Bin(sl, tmp, false, sr))
  {
    hide Head.Focus;
    ghost var a, b := sl.left, sl.right;
    ghost var cs := InRight(c, parent, pr, t);
    head.Right(c, t, parent, pr, Bin(sl, tmp, false, sr));
    head.Left(cs, sl, tmp, false, sr);
    head.SetRed(oleft, false, InLeft(cs, tmp, false, sr), a, true, b);
    head.Left(cs, Blacken(sl), tmp, false, sr);
    head.SetRed(tmp, true, cs, Blacken(sl), false, sr);
    head.RotateRight(tmp, cs, a, oleft, false, b, true, sr);
    head.Right(c, t, parent, pr, Bin(a, oleft, false, Bin(b, tmp, true, sr)));
    head.Look(c, Bin(t, parent, pr, Bin(a, oleft, false, Bin(b, tmp, true, sr))));
    tmp' := parent.right;
    RotateInorder(a, oleft, b, tmp, sr, false, true, true, false);
  }

  /** The far nephew is red: one rotation makes up for the missing black node. */
  method FarNephewRight<T>(head: Head<T>, parent: Node<T>, tmp: Node<T>, ghost c: Ctx<T>, ghost t: Tree<T>,
                           ghost pr: bool, ghost sl: Tree<T>, ghost sr: Tree<T>)
    requires IsRed(sr) && head.Focus(c, Bin(t, parent, pr, Bin(sl, tmp, false, sr)))
    modifies head`root, head.nodes
    ensures head.Focus(c, Bin(Bin(t, parent, false, sl), tmp, pr, Blacken(sr)))
    ensures Inorder(Bin(Bin(t, parent, false, sl), tmp, pr, Blacken(sr))) ==
      Inorder(Bin(t, parent, pr, Bin(sl, tmp, false, sr)))
  {
    hide Head.Focus;
    ghost var s := Bin(sl, tmp, false, sr);
    head.Look(c, Bin(t, parent, pr, s));
    head.Right(c, t, parent, pr, s);
    head.SetRed(tmp, parent.red, InRight(c, parent, pr, t), sl, false, sr);
    head.Right(c, t, parent, pr, Bin(sl, tmp, pr, sr));
    head.SetRed(parent, false, c, t, pr, Bin(sl, tmp, pr, sr));
    ghost var cs := InRight(c, parent, false, t);
    head.Right(c, t, parent, false, Bin(sl, tmp, pr, sr));
    head.Right(cs, sl, tmp, pr, sr);
    head.Look(cs, Bin(sl, tmp, pr, sr));
    if tmp.right != null {
      head.SetRed(tmp.right, false, InRight(cs, tmp, pr, sl), sr.left, true, sr.right);
    }
    head.Right(cs, sl, tmp, pr, Blacken(sr));
    head.Right(c, t, parent, false, Bin(sl, tmp, pr, Blacken(sr)));
    head.RotateLeft(parent, c, t, false, sl, tmp, pr, Blacken(sr));
    RotateInorder(t, parent, sl, tmp, sr, pr, false, false, pr);
  }

  /** A nephew is red: one or two rotations and the fix-up is over. */
  method RedNephewRight<T>(head: Head<T>, parent: Node<T>, tmp0: Node<T>, farIsRed: bool, ghost c: Ctx<T>,
                           ghost t: Tree<T>, ghost pr: bool, ghost sl: Tree<T>, ghost sr: Tree<T>, ghost h: nat)
    returns (ghost t': Tree<T>, ghost h': nat)
    requires head.Focus(c, Bin(t, parent, pr, Bin(sl, tmp0, false, sr)))
    requires farIsRed == IsRed(sr) && (farIsRed || IsRed(sl)) && !IsRed(t) && RB(t, h) && RB(sl, h) && RB(sr, h)
    modifies head`root, head.nodes
    ensures head.Focus(c, t') && Inorder(t') == Inorder(Bin(t, parent, pr, Bin(sl, tmp0, false, sr)))
    ensures RB(t', h') && IsRed(t') == pr && h' == if pr then h + 1 else h + 2
  {
    hide Head.Focus;
    var tmp := tmp0;
    ghost var nl, nr := sl, sr;
    if !farIsRed {
      head.Right(c, t, parent, pr, Bin(sl, tmp, false, sr));
      head.Look(InRight(c, parent, pr, t), Bin(sl, tmp, false, sr));
      nl, nr := sl.left, Bin(sl.right, tmp, true, sr);
      tmp := NearNephewRight(head, parent, tmp, tmp.left, c, t, pr, sl, sr);
    }
    FarNephewRight(head, parent, tmp, c, t, pr, nl, nr);
    t', h' := Bin(Bin(t, parent, false, nl), tmp, pr, Blacken(nr)), if pr then h + 1 else h + 2;
  }

  method BlackSiblingRight<T>(head: Head<T>, parent: Node<T>, tmp: Node<T>, ghost c: Ctx<T>, ghost t: Tree<T>,
                              ghost pr: bool, ghost sl: Tree<T>, ghost sr: Tree<T>, ghost h: nat)
    returns (stop: bool, ghost t': Tree<T>, ghost h': nat)
    requires head.Focus(c, Bin(t, parent, pr, Bin(sl, tmp, false, sr)))
    requires !IsRed(t) && RB(t, h) && RB(sl, h) && RB(sr, h)
    requires if pr then Fits(c, h + 1) && !c.Top? && !HoleUnderRed(c) else Fits(c, h + 2)
    modifies head`root, head.nodes
    ensures head.Focus(c, t') && Inorder(t') == Inorder(Bin(t, parent, pr, Bin(sl, tmp, false, sr)))
    ensures if stop then Settled(c, t', h') else Short(c, t', h') && Ref(t') == parent && IsRed(t') == pr
  {
    hide Head.Focus;
    head.Right(c, t, parent, pr, Bin(sl, tmp, false, sr));
    LookBothSides(head, InRight(c, parent, pr, t), sl, tmp, false, sr);
    assert !IsRed(sl) && !IsRed(sr) ==> RB(Bin(sl, tmp, true, sr), h);
    if (tmp.left == null || !tmp.left.red) && (tmp.right == null || !tmp.right.red) {
      head.SetRed(tmp, true, InRight(c, parent, pr, t), sl, false, sr);
      head.Right(c, t, parent, pr, Bin(sl, tmp, true, sr));
      stop, t', h' := false, Bin(t, parent, pr, Bin(sl, tmp, true, sr)), if pr then h else h + 1;
    } else {
      t', h' := RedNephewRight(head, parent, tmp, tmp.right != null && tmp.right.red, c, t, pr, sl, sr, h);
      stop := true;
    }
  }

  // ----- the focus is a right child -----

  method RedSiblingLeft<T>(head: Head<T>, parent: Node<T>, tmp: Node<T>, ghost c: Ctx<T>, ghost t: Tree<T>,
                           ghost sl: Tree<T>, ghost sr: Tree<T>)
    requires head.Focus(c, Bin(Bin(sl, tmp, true, sr), parent, false, t))
    modifies head`root, head.nodes
    ensures head.Focus(InRight(c, tmp, false, sl), Bin(sr, parent, true, t))
    ensures Inorder(Plug(InRight(c, tmp, false, sl), Bin(sr, parent, true, t))) ==
      Inorder(Plug(c, Bin(Bin(sl, tmp, true, sr), parent, false, t)))
  {
    hide Head.Focus;
    head.Left(c, Bin(sl, tmp, true, sr), parent, false, t);
    head.SetRed(tmp, false, InLeft(c, parent, false, t), sl, true, sr);
    head.Left(c, Bin(sl, tmp, false, sr), parent, false, t);
    head.SetRed(parent, true, c, Bin(sl, tmp, false, sr), false, t);
    head.RotateRight(parent, c, sl, tmp, false, sr, true, t);
    head.Right(c, sl, tmp, false, Bin(sr, parent, true, t));
    RotateInorder(sl, tmp, sr, parent, t, false, true, true, false);
    PlugInorder(c, Bin(Bin(sl, tmp, true, sr), parent, false, t), Bin(sl, tmp, false, Bin(sr, parent, true, t)));
  }

  /** The nephew next to the focus is red, the far one is not: make the far one red. */
  method NearNephewLeft<T>(head: Head<T>, parent: Node<T>, tmp: Node<T>, oright: Node<T>, ghost c: Ctx<T>,
                           ghost t: Tree<T>, ghost pr: bool,
                           ghost sl: Tree<T>, ghost sr: Tree<T>) returns (tmp': Node<T>)
    requires sr.Bin? && sr.node == oright && sr.red
    requires head.Focus(c, Bin(Bin(sl, tmp, false, sr), parent, pr, t))
    modifies head`root, head.nodes
    ensures tmp' == oright
      && head.Focus(c, Bin(Bin(Bin(sl, tmp, true, sr.left), oright, false, sr.right), parent, pr, t))
    ensures Inorder(Bin(Bin(sl, tmp, true, sr.left), oright, false, sr.right)) == Inorder(Bin(sl, tmp, false, sr))
  {
    hide Head.Focus;
    ghost var a, b := sr.left, sr.right;
    ghost var cs := InLeft(c, parent, pr, t);
    head.Left(c, Bin(sl, tmp, false, sr), parent, pr, t);
    head.Right(cs, sl, tmp, false, sr);
    head.SetRed(oright, false, InRight(cs, tmp, false, sl), a, true, b);
    head.Right(cs, sl, tmp, false, Blacken(sr));
    head.SetRed(tmp, true, cs, sl, false, Blacken(sr));
    head.RotateLeft(tmp, cs, sl, true, a, oright, false, b);
    ghost var now := Bin(Bin(sl, tmp, true, a), oright, false, b);
    head.Left(c, now, parent, pr, t);
    head.Look(c, Bin(now, parent, pr, t));
    tmp' := parent.left;
    RotateInorder(sl, tmp, a, oright, b, false, true, true, false);
  }

  /** The far nephew is red: one rotation makes up for the missing black node. */
  method FarNephewLeft<T>(head: Head<T>, parent: Node<T>, tmp: Node<T>, ghost c: Ctx<T>, ghost t: Tree<T>,
                          ghost pr: bool, ghost sl: Tree<T>, ghost sr: Tree<T>)
    requires IsRed(sl) && head.Focus(c, Bin(Bin(sl, tmp, false, sr), parent, pr, t))
    modifies head`root, head.nodes
    ensures head.Focus(c, Bin(Blacken(sl), tmp, pr, Bin(sr, parent, false, t)))
    ensures Inorder(Bin(Blacken(sl), tmp, pr, Bin(sr, parent, false, t))) ==
      Inorder(Bin(Bin(sl, tmp, false, sr), parent, pr, t))
  {
    hide Head.Focus;
    ghost var s := Bin(sl, tmp, false, sr);
    head.Look(c, Bin(s, parent, pr, t));
    head.Left(c, s, parent, pr, t);
    head.SetRed(tmp, parent.red, InLeft(c, parent, pr, t), sl, false, sr);
    head.Left(c, Bin(sl, tmp, pr, sr), parent, pr, t);
    head.SetRed(parent, false, c, Bin(sl, tmp, pr, sr), pr, t);
    ghost var cs := InLeft(c, parent, false, t);
    head.Left(c, Bin(sl, tmp, pr, sr), parent, false, t);
    head.Left(cs, sl, tmp, pr, sr);
    head.Look(cs, Bin(sl, tmp, pr, sr));
    if tmp.left != null {
      head.SetRed(tmp.left, false, InLeft(cs, tmp, pr, sr), sl.left, true, sl.right);
    }
    head.Left(cs, Blacken(sl), tmp, pr, sr);
    head.Left(c, Bin(Blacken(sl), tmp, pr, sr), parent, false, t);
    head.RotateRight(parent, c, Blacken(sl), tmp, pr, sr, false, t);
    RotateInorder(sl, tmp, sr, parent, t, pr, false, false, pr);
  }

  /** A nephew is red: one or two rotations and the fix-up is over. */
  method RedNephewLeft<T>(head: Head<T>, parent: Node<T>, tmp0: Node<T>, farIsRed: bool, ghost c: Ctx<T>,
                          ghost t: Tree<T>, ghost pr: bool, ghost sl: Tree<T>, ghost sr: Tree<T>, ghost h: nat)
    returns (ghost t': Tree<T>, ghost h': nat)
    requires head.Focus(c, Bin(Bin(sl, tmp0, false, sr), parent, pr, t))
    requires farIsRed == IsRed(sl) && (farIsRed || IsRed(sr)) && !IsRed(t) && RB(t, h) && RB(sl, h) && RB(sr, h)
    modifies head`root, head.nodes
    ensures head.Focus(c, t') && Inorder(t') == Inorder(Bin(Bin(sl, tmp0, false, sr), parent, pr, t))
    ensures RB(t', h') && IsRed(t') == pr && h' == if pr then h + 1 else h + 2
  {
    hide Head.Focus;
    var tmp := tmp0;
    ghost var nl, nr := sl, sr;
    if !farIsRed {
      head.Left(c, Bin(sl, tmp, false, sr), parent, pr, t);
      head.Look(InLeft(c, parent, pr, t), Bin(sl, tmp, false, sr));
      nl, nr := Bin(sl, tmp, true, sr.left), sr.right;
      tmp := NearNephewLeft(head, parent, tmp, tmp.right, c, t, pr, sl, sr);
    }
    FarNephewLeft(head, parent, tmp, c, t, pr, nl, nr);
    t', h' := Bin(Blacken(nl), tmp, pr, Bin(nr, parent, false, t)), if pr then h + 1 else h + 2;
  }

  method BlackSiblingLeft<T>(head: Head<T>, parent: Node<T>, tmp: Node<T>, ghost c: Ctx<T>, ghost t: Tree<T>,
                             ghost pr: bool, ghost sl: Tree<T>, ghost sr: Tree<T>, ghost h: nat)
    returns (stop: bool, ghost t': Tree<T>, ghost h': nat)
    requires head.Focus(c, Bin(Bin(sl, tmp, false, sr), parent, pr, t))
    requires !IsRed(t) && RB(t, h) && RB(sl, h) && RB(sr, h)
    requires if pr then Fits(c, h + 1) && !c.Top? && !HoleUnderRed(c) else Fits(c, h + 2)
    modifies head`root, head.nodes
    ensures head.Focus(c, t') && Inorder(t') == Inorder(Bin(Bin(sl, tmp, false, sr), parent, pr, t))
    ensures if stop then Settled(c, t', h') else Short(c, t', h') && Ref(t') == parent && IsRed(t') == pr
  {
    hide Head.Focus;
    head.Left(c, Bin(sl, tmp, false, sr), parent, pr, t);
    LookBothSides(head, InLeft(c, parent, pr, t), sl, tmp, false, sr);
    assert !IsRed(sl) && !IsRed(sr) ==> RB(Bin(sl, tmp, true, sr), h);
    if (tmp.left == null || !tmp.left.red) && (tmp.right == null || !tmp.right.red) {
      head.SetRed(tmp, true, InLeft(c, parent, pr, t), sl, false, sr);
      head.Left(c, Bin(sl, tmp, true, sr), parent, pr, t);
      stop, t', h' := false, Bin(Bin(sl, tmp, true, sr), parent, pr, t), if pr then h else h + 1;
    } else {
      t', h' := RedNephewLeft(head, parent, tmp, tmp.left != null && tmp.left.red, c, t, pr, sl, sr, h);
      stop := true;
    }
  }

  /** The fields of a node and the colours of its children. */
  lemma LookBothSides<T>(head: Head<T>, c: Ctx<T>, l: Tree<T>, n: Node<T>, red: bool, r: Tree<T>)
    requires head.Focus(c, Bin(l, n, red, r))
    ensures n in head.nodes && n.left == Ref(l) && n.right == Ref(r) && n.red == red
    ensures l.Bin? ==> l.node in head.nodes && l.node.red == l.red
    ensures r.Bin? ==> r.node in head.nodes && r.node.red == r.red
  {
    head.Look(c, Bin(l, n, red, r));
    head.Left(c, l, n, red, r);
    head.Look(InLeft(c, n, red, r), l);
    head.Right(c, l, n, red, r);
    head.Look(InRight(c, n, red, l), r);
  }

  /** A red sibling: rotate it above the parent; the new sibling is black. */
  method FixUnderRedLeft<T>(head: Head<T>, parent: Node<T>, tmp0: Node<T>, ghost c: Ctx<T>, ghost sl: Tree<T>,
                            ghost sr: Tree<T>, ghost t: Tree<T>, ghost h: nat)
    returns (stop: bool, ghost c': Ctx<T>, ghost t': Tree<T>, ghost h': nat)
    requires head.Focus(c, Bin(t, parent, false, Bin(sl, tmp0, true, sr)))
    requires !IsRed(t) && RB(t, h) && RB(sl, h + 1) && !IsRed(sl) && RB(sr, h + 1) && Fits(c, h + 2)
    modifies head`root, head.nodes
    ensures head.Focus(c', t')
      && Inorder(Plug(c', t')) == Inorder(Plug(c, Bin(t, parent, false, Bin(sl, tmp0, true, sr))))
    ensures if stop then Settled(c', t', h') else Short(c', t', h') && Ref(t') == parent && IsRed(t')
  {
    hide Head.Focus;
    RedSiblingRight(head, parent, tmp0, c, t, sl, sr);
    c' := InLeft(c, tmp0, false, sr);
    head.Look(c', Bin(t, parent, true, sl));
    var tmp := parent.right;
    stop, t', h' := BlackSiblingRight(head, parent, tmp, c', t, true, sl.left, sl.right, h);
    PlugInorder(c', Bin(t, parent, true, sl), t');
  }

  method FixUnderRedRight<T>(head: Head<T>, parent: Node<T>, tmp0: Node<T>, ghost c: Ctx<T>, ghost sl: Tree<T>,
                             ghost sr: Tree<T>, ghost t: Tree<T>, ghost h: nat)
    returns (stop: bool, ghost c': Ctx<T>, ghost t': Tree<T>, ghost h': nat)
    requires head.Focus(c, Bin(Bin(sl, tmp0, true, sr), parent, false, t))
    requires !IsRed(t) && RB(t, h) && RB(sr, h + 1) && !IsRed(sr) && RB(sl, h + 1) && Fits(c, h + 2)
    modifies head`root, head.nodes
    ensures head.Focus(c', t')
      && Inorder(Plug(c', t')) == Inorder(Plug(c, Bin(Bin(sl, tmp0, true, sr), parent, false, t)))
    ensures if stop then Settled(c', t', h') else Short(c', t', h') && Ref(t') == parent && IsRed(t')
  {
    hide Head.Focus;
    RedSiblingLeft(head, parent, tmp0, c, t, sl, sr);
    c' := InRight(c, tmp0, false, sl);
    head.Look(c', Bin(sr, parent, true, t));
    var tmp := parent.left;
    stop, t', h' := BlackSiblingLeft(head, parent, tmp, c', t, true, sr.left, sr.right, h);
    PlugInorder(c', Bin(sr, parent, true, t), t');
  }

  /** One round for a left child: the sibling is there, because it carries the missing black node. */
  method FixLeftChild<T>(head: Head<T>, parent: Node<T>, ghost c: Ctx<T>, ghost pr: bool, ghost s: Tree<T>,
                         ghost t: Tree<T>, ghost h: nat)
    returns (stop: bool, ghost c': Ctx<T>, ghost t': Tree<T>, ghost h': nat)
    requires head.Focus(InLeft(c, parent, pr, s), t) && !IsRed(t) && Short(InLeft(c, parent, pr, s), t, h)
    modifies head`root, head.nodes
    ensures head.Focus(c', t') && Inorder(Plug(c', t')) == Inorder(Plug(c, Bin(t, parent, pr, s)))
    ensures if stop then Settled(c', t', h') else Short(c', t', h') && Ref(t') == parent && Work(c', t') < Depth(c) + 2
  {
    hide Head.Focus;
    assert FitsAt(c, pr, s, h + 1);
    head.Left(c, t, parent, pr, s);
    LookBothSides(head, c, t, parent, pr, s);
    var tmp := parent.right;
    if tmp.red {
      stop, c', t', h' := FixUnderRedLeft(head, parent, tmp, c, s.left, s.right, t, h);
    } else {
      c' := c;
      stop, t', h' := BlackSiblingRight(head, parent, tmp, c, t, pr, s.left, s.right, h);
      PlugInorder(c', Bin(t, parent, pr, s), t');
    }
  }

  /** One round for a right child. */
  method FixRightChild<T>(head: Head<T>, parent: Node<T>, ghost c: Ctx<T>, ghost pr: bool, ghost s: Tree<T>,
                          ghost t: Tree<T>, ghost h: nat)
    returns (stop: bool, ghost c': Ctx<T>, ghost t': Tree<T>, ghost h': nat)
    requires head.Focus(InRight(c, parent, pr, s), t) && !IsRed(t) && Short(InRight(c, parent, pr, s), t, h)
    modifies head`root, head.nodes
    ensures head.Focus(c', t') && Inorder(Plug(c', t')) == Inorder(Plug(c, Bin(s, parent, pr, t)))
    ensures if stop then Settled(c', t', h') else Short(c', t', h') && Ref(t') == parent && Work(c', t') < Depth(c) + 2
  {
    hide Head.Focus;
    assert FitsAt(c, pr, s, h + 1);
    head.Right(c, s, parent, pr, t);
    LookBothSides(head, c, s, parent, pr, t);
    var tmp := parent.left;
    if tmp.red {
      stop, c', t', h' := FixUnderRedRight(head, parent, tmp, c, s.left, s.right, t, h);
    } else {
      c' := c;
      stop, t', h' := BlackSiblingLeft(head, parent, tmp, c, t, pr, s.left, s.right, h);
      PlugInorder(c', Bin(s, parent, pr, t), t');
    }
  }

  method RemoveColorStep<T>(head: Head<T>, parent: Node<T>, elm: Node?<T>, ghost c: Ctx<T>, ghost t: Tree<T>,
                            ghost h: nat)
    returns (stop: bool, ghost c': Ctx<T>, ghost t': Tree<T>, ghost h': nat)
    requires head.Focus(c, t) && Short(c, t, h) && !IsRed(t) && !c.Top? && elm == Ref(t) && parent == c.node
    modifies head`root, head.nodes
    ensures head.Focus(c', t') && Inorder(Plug(c', t')) == Inorder(Plug(c, t))
    ensures if stop then c'.Top? && RB(t', h') && !IsRed(t')
      else (Short(c', t', h') && Ref(t') == parent && Work(c', t') < Work(c, t))
  {
    hide Head.Focus;
    head.Look(c, t);
    assert FitsAt(c.up, c.red, c.sibling, h + 1);
    if parent.left == elm {
      stop, c', t', h' := FixLeftChild(head, parent, c.up, c.red, c.sibling, t, h);
    } else {
      stop, c', t', h' := FixRightChild(head, parent, c.up, c.red, c.sibling, t, h);
    }
    if stop {
      h' := PlugRB(c', t', h');
      head.Whole(c', t');
      c', t' := Top, Plug(c', t');
    }
  }

  method RemoveColor<T>(head: Head<T>, parent0: Node?<T>, elm0: Node?<T>, ghost c0: Ctx<T>, ghost t0: Tree<T>,
                        ghost h0: nat)
    returns (ghost t': Tree<T>)
    requires head.Focus(c0, t0) && Short(c0, t0, h0) && elm0 == Ref(t0) && parent0 == ParentOf(c0)
    modifies head`root, head.nodes
    ensures head.Focus(Top, t') && RedBlack(t') && Inorder(t') == Inorder(Plug(c0, t0))
  {
    hide Head.Focus;
    var parent, elm := parent0, elm0;
    ghost var c, t, h := c0, t0, h0;
    head.Look(c, t);
    while (elm == null || !elm.red) && elm != head.root
      invariant head.Focus(c, t) && elm == Ref(t) && parent == ParentOf(c) && Short(c, t, h)
      invariant c.Top? <==> head.root == Ref(t)
      invariant elm != null ==> elm in head.nodes && elm.red == t.red
      invariant Inorder(Plug(c, t)) == Inorder(Plug(c0, t0))
      decreases Work(c, t)
    {
      var stop;
      stop, c, t, h := RemoveColorStep(head, parent, elm, c, t, h);
      head.Look(c, t);
      elm := if stop then head.root else parent;
      if stop {
        break;
      }
      parent := elm.parent;
    }
    if elm != null {
      head.SetRed(elm, false, c, t.left, t.red, t.right);
    }
    PlugInorder(c, t, Blacken(t));
    t' := Plug(c, Blacken(t));
    h := PlugRB(c, Blacken(t), if IsRed(t) || !c.Top? then h + 1 else h);
    RBHasBlackHeight(t', h);
    head.Whole(c, Blacken(t));
  }
}
