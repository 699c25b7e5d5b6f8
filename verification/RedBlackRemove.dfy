/** Removal: every cursor on the node moves on, the node is unlinked, the colours are fixed. */
module RedBlackRemove {
  import opened KeyOrder
  import opened RedBlackShape
  import opened RedBlackHeap
  import opened RedBlackWalk
  import opened RedBlackRemoveColor

  ghost predicate Removed<T>(was: seq<Node<T>>, elm: Node<T>, now: seq<Node<T>>) {
    exists k :: 0 <= k < |was| && was[k] == elm && now == was[..k] + was[k + 1..]
  }

  lemma RemovedParts<T>(b: seq<Node<T>>, elm: Node<T>, a: seq<Node<T>>)
    ensures Removed(b + [elm] + a, elm, b + a)
    ensures Sorted(b + [elm] + a) ==> Sorted(b + a) && Elems(b + a) == Elems(b + [elm] + a) - {elm}
  {
    hide Sorted, Elems, Less;
    var was := b + [elm] + a;
    assert was[|b|] == elm && was[..|b|] == b && was[|b| + 1..] == a;
    if Sorted(was) {
      StillSorted(b, elm, a);
      OneLess(b, elm, a);
    }
  }

  lemma StillSorted<T>(b: seq<Node<T>>, elm: Node<T>, a: seq<Node<T>>)
    requires Sorted(b + [elm] + a)
    ensures Sorted(b + a)
  {
    hide Less;
    var was := b + [elm] + a;
    forall i, j | 0 <= i < j < |b + a| ensures Less((b + a)[i].key, (b + a)[j].key) {
      var i', j' := if i < |b| then i else i + 1, if j < |b| then j else j + 1;
      assert was[i'] == (b + a)[i] && was[j'] == (b + a)[j];
    }
  }

  lemma OneLess<T>(b: seq<Node<T>>, elm: Node<T>, a: seq<Node<T>>)
    requires Sorted(b + [elm] + a)
    ensures Elems(b + a) == Elems(b + [elm] + a) - {elm}
  {
    var was := b + [elm] + a;
    SortedDistinct(was);
    hide Sorted, Less;
    forall i | 0 <= i < |b + a| ensures (b + a)[i] != elm {
      assert was[|b|] == elm && was[if i < |b| then i else i + 1] == (b + a)[i];
    }
    assert forall n :: n in was <==> n in b + a || n == elm;
  }

  /** The links around `elm`, read off the shape. */
  ghost predicate Around<T>(m: Mem<T>, c: Ctx<T>, l: Tree<T>, n: Node<T>, r: Tree<T>) {
    && n in m && m[n].left == Ref(l) && m[n].right == Ref(r) && m[n].parent == ParentOf(c)
    && (l.Bin? ==> l.node in m && l.node != n && l.node != ParentOf(c) && l.node != Ref(r))
    && (r.Bin? ==> r.node in m && r.node != n && r.node != ParentOf(c))
    && (!c.Top? ==> c.node in m && c.node != n)
    && (c.InLeft? ==> m[c.node].left == n)
    && (c.InRight? ==> m[c.node].right == n && m[c.node].left != n)
  }

  lemma ReadsAround<T>(m: Mem<T>, root: Node?<T>, c: Ctx<T>, l: Tree<T>, n: Node<T>, red: bool, r: Tree<T>)
    requires At(m, root, c, Bin(l, n, red, r))
    ensures Around(m, c, l, n, r)
  {
    assert RootNode(l) <= Nodes(l) && RootNode(r) <= Nodes(r) && Owner(c) <= CNodes(c);
    assert l.Bin? ==> Holds(m, l, n);
    assert r.Bin? ==> Holds(m, r, n);
    if c.InRight? { assert RootNode(c.sibling) <= Nodes(c.sibling); }
  }

  method SpliceEntries<T>(head: Head<T>, elm: Node<T>, child: Node?<T>, ghost c: Ctx<T>, ghost l: Tree<T>,
                          ghost r: Tree<T>, ghost ch: Tree<T>)
    requires Around(Snap(head.nodes), c, l, elm, r) && (ch == l || ch == r) && child == Ref(ch)
    modifies head`root, head`nodes, head.nodes
    ensures head.nodes == old(head.nodes) - {elm}
    ensures Spliced(old(Snap(head.nodes)), Snap(head.nodes), old(head.root), head.root, c, elm, ch)
  {
    ghost var m, changed := Snap(head.nodes), {elm} + RootNode(ch) + Owner(c);
    if child != null {
      child.parent := elm.parent;
    }
    head.Relink(elm, elm.parent, child);
    head.nodes := head.nodes - {elm};
    forall n | n in m && n !in changed ensures m[n] == Entry(n.left, n.right, n.parent, n.red) { }
    SnapSame(m, head.nodes, changed);
  }

  /** `elm` has at most one child: that child takes its place. */
  method Splice<T>(head: Head<T>, elm: Node<T>, child: Node?<T>, ghost c: Ctx<T>, ghost t: Tree<T>, ghost ch: Tree<T>)
    requires head.Focus(c, t) && Ref(t) == elm && child == Ref(ch)
    requires (t.left.Leaf? && ch == t.right) || (t.right.Leaf? && ch == t.left)
    modifies head`root, head`nodes, head.nodes
    ensures head.nodes == old(head.nodes) - {elm} && head.Focus(c, ch)
  {
    hide At, Around, Spliced;
    ghost var m, r := Snap(head.nodes), head.root;
    ReadsAround(m, r, c, t.left, elm, t.red, t.right);
    SpliceEntries(head, elm, child, c, t.left, t.right, ch);
    SpliceAt(m, Snap(head.nodes), r, head.root, c, t, ch);
  }

  method ReplaceLinks<T>(head: Head<T>, old_: Node<T>, s: Node<T>)
    requires old_.left != null && s !in {old_, old_.left} + Opt(old_.right) + Opt(old_.parent)
    requires old_.left != old_ && old_.right != old_ && old_.parent != old_
    requires old_.left != old_.parent && old_.left != old_.right && (old_.right != null ==> old_.right != old_.parent)
    modifies head`root, s, old_.left, Opt(old_.right), Opt(old_.parent)
    ensures s.left == old_.left && s.right == old_.right && s.parent == old_.parent && s.red == old_.red
    ensures head.root == if old_.parent == null then s else old(head.root)
    ensures var p := old_.parent;
            p != null ==> (p.parent == old(p.parent) && p.red == old(p.red)
                           && (if old(p.left) == old_ then p.left == s && p.right == old(p.right)
                               else p.right == s && p.left == old(p.left)))
    ensures var p := old_.left; p.parent == s && p.left == old(p.left) && p.right == old(p.right) && p.red == old(p.red)
    ensures var p := old_.right;
            p != null ==> p.parent == s && p.left == old(p.left) && p.right == old(p.right) && p.red == old(p.red)
  {
    s.left, s.right, s.parent, s.red := old_.left, old_.right, old_.parent, old_.red;
    head.Relink(old_, old_.parent, s);
    old_.left.parent := s;
    if old_.right != null {
      old_.right.parent := s;
    }
  }

  method ReplaceEntries<T>(head: Head<T>, old_: Node<T>, s: Node<T>, ghost c: Ctx<T>, ghost l: Tree<T>,
                           ghost r: Tree<T>)
    requires Around(Snap(head.nodes), c, l, old_, r) && l.Bin? && s !in head.nodes
    modifies head`root, head`nodes, head.nodes, s
    ensures head.nodes == old(head.nodes) - {old_} + {s}
    ensures Replaced(old(Snap(head.nodes)), Snap(head.nodes), old(head.root), head.root, c, l, old_, r, s)
  {
    ghost var m, changed := Snap(head.nodes), {old_, s} + RootNode(l) + RootNode(r) + Owner(c);
    ReplaceLinks(head, old_, s);
    head.nodes := head.nodes - {old_} + {s};
    forall n | n in m && n !in changed ensures m[n] == Entry(n.left, n.right, n.parent, n.red) { }
    SnapSame(m, head.nodes, changed);
  }

  /** `s`, no longer in the tree, takes over the entry of `old_`, which leaves it. */
  method Replace<T>(head: Head<T>, old_: Node<T>, s: Node<T>, ghost c: Ctx<T>, ghost l: Tree<T>, ghost red: bool,
                    ghost r: Tree<T>)
    requires head.Focus(c, Bin(l, old_, red, r)) && l.Bin?
    requires s !in head.nodes + CNodes(c) + Nodes(Bin(l, old_, red, r))
    modifies head`root, head`nodes, head.nodes, s
    ensures head.nodes == old(head.nodes) - {old_} + {s} && head.Focus(c, Bin(l, s, red, r))
  {
    hide At, Around, Replaced;
    ghost var m, rt := Snap(head.nodes), head.root;
    ReadsAround(m, rt, c, l, old_, red, r);
    ReplaceEntries(head, old_, s, c, l, r);
    ReplaceAt(m, Snap(head.nodes), rt, head.root, c, l, old_, red, r, s);
  }

  /** What unlinking leaves behind: the child in its place, with or without a missing black node. */
  ghost predicate Unlinked<T>(c: Ctx<T>, ch: Tree<T>, color: bool, h: nat) {
    Fits(c, h) && (if color then RB(ch, h) && !IsRed(ch) else h > 0 && RB(ch, h - 1))
  }

  /** The node with at most one child, taken out of its place. */
  lemma UnlinkedChild<T>(c: Ctx<T>, t: Tree<T>, ch: Tree<T>, bh: nat) returns (h: nat)
    requires t.Bin? && ((t.left.Leaf? && ch == t.right) || (t.right.Leaf? && ch == t.left))
    requires RB(Plug(c, t), bh) && !IsRed(Plug(c, t))
    ensures Unlinked(c, ch, t.red, h)
  {
    h := UnplugRB(c, t, bh);
  }

  lemma SuccessorFacts<T>(c: Ctx<T>, l: Tree<T>, old_: Node<T>, red: bool, d: Ctx<T>, t: Tree<T>)
    requires Apart(c, Bin(l, old_, red, Plug(d, t))) && t.Bin?
    ensures t.node != old_ && t.node !in CNodes(c) && t.node !in Nodes(l) && t.node !in Nodes(Plug(d, t.right))
    ensures t.node in Nodes(Plug(d, t)) && old_ !in Nodes(Plug(d, t)) && Apart(d, t)
    ensures !d.Top? ==> d.node != old_
  {
    PlugNodes(d, t);
    PlugNodes(d, t.right);
    var r := Plug(d, t);
    assert old_ !in Nodes(r) && Nodes(l) !! Nodes(r) && Nodes(r) !! CNodes(c);
    assert t.node in Nodes(t) && t.node !in CNodes(d) && t.node !in Nodes(t.right);
    assert !d.Top? ==> d.node in CNodes(d);
    hide *;
  }

  lemma Regroup<A>(b: seq<A>, i: seq<A>, e: seq<A>, x: seq<A>, a: seq<A>)
    ensures b + (i + e + x) + a == b + i + ((e + x) + a)
  {
    Assoc(b, i + e + x, a);
    Assoc(i, e, x);
    Assoc(i, e + x, a);
    Assoc(b, i, (e + x) + a);
  }

  /** The node at the far left comes first. */
  lemma LeastFirst<T>(d: Ctx<T>, t: Tree<T>)
    requires t.Bin? && t.left.Leaf? && Before(d) == []
    ensures Inorder(Plug(d, t)) == [t.node] + Inorder(Plug(d, t.right))
  {
    InorderPlug(d, t);
    InorderPlug(d, t.right);
    assert [] + Inorder(t) == [t.node] + Inorder(t.right);
    assert [] + Inorder(t.right) == Inorder(t.right);
    Assoc([t.node], Inorder(t.right), After(d));
  }

  lemma SuccessorInorder<T>(c: Ctx<T>, l: Tree<T>, elm: Node<T>, red: bool, d: Ctx<T>, t: Tree<T>, ch: Tree<T>)
    requires t.Bin? && t.node == elm && t.left.Leaf? && t.right == ch && Before(d) == []
    ensures Inorder(Plug(c, Bin(l, elm, red, Plug(d, ch)))) == Before(c) + Inorder(l) + (Inorder(Plug(d, t)) + After(c))
  {
    InorderPlug(c, Bin(l, elm, red, Plug(d, ch)));
    LeastFirst(d, t);
    Regroup(Before(c), Inorder(l), [elm], Inorder(Plug(d, ch)), After(c));
  }

  /** The successor `elm` is unlinked; the focus goes back to the node with two children. */
  method TakeSuccessor<T>(head: Head<T>, old_: Node<T>, ghost c: Ctx<T>, ghost l: Tree<T>, ghost red: bool,
                          ghost r: Tree<T>)
    returns (elm: Node<T>, child: Node?<T>, parent: Node?<T>, color: bool, ghost d: Ctx<T>, ghost t: Tree<T>)
    requires head.Focus(c, Bin(l, old_, red, r)) && r.Bin?
    modifies head`root, head`nodes, head.nodes
    ensures Plug(d, t) == r && Before(d) == [] && Ref(t) == elm && t.left.Leaf? && color == t.red
    ensures head.Focus(c, Bin(l, old_, red, Plug(d, t.right))) && head.nodes == old(head.nodes) - {elm}
    ensures child == Ref(t.right) && parent == ParentOf(Over(InRight(c, old_, red, l), d))
    ensures Apart(c, Bin(l, old_, red, r)) && elm in old(head.nodes)
  {
    ghost var c0 := InRight(c, old_, red, l);
    head.Look(c, Bin(l, old_, red, r));
    head.Right(c, l, old_, red, r);
    elm, d, t := Leftmost(head, old_.right, c0, r);
    head.Look(Over(c0, d), t);
    child, parent, color := elm.right, elm.parent, elm.red;
    Splice(head, elm, child, Over(c0, d), t, t.right);
    head.Zoom(c0, d, t.right);
    head.Right(c, l, old_, red, Plug(d, t.right));
  }

  /** The successor takes the place of `old_`; the focus goes to where it was unlinked. */
  method PutSuccessor<T>(head: Head<T>, old_: Node<T>, elm: Node<T>, ghost c: Ctx<T>, ghost l: Tree<T>,
                         ghost red: bool, ghost d: Ctx<T>, ghost ch: Tree<T>)
    requires head.Focus(c, Bin(l, old_, red, Plug(d, ch))) && l.Bin?
    requires elm !in head.nodes + CNodes(c) + Nodes(Bin(l, old_, red, Plug(d, ch)))
    modifies head`root, head`nodes, head.nodes, elm
    ensures head.Focus(Over(InRight(c, elm, red, l), d), ch) && head.nodes == old(head.nodes) - {old_} + {elm}
  {
    hide Head.Focus;
    Replace(head, old_, elm, c, l, red, Plug(d, ch));
    head.Right(c, l, elm, red, Plug(d, ch));
    head.Zoom(InRight(c, elm, red, l), d, ch);
  }

  /** Node with two children: its successor, found at the far left of the right subtree, replaces it. */
  method UnlinkInner<T>(head: Head<T>, old_: Node<T>, ghost c: Ctx<T>, ghost l: Tree<T>, ghost red: bool,
                        ghost r: Tree<T>)
    returns (child: Node?<T>, parent: Node?<T>, color: bool, ghost c': Ctx<T>, ghost ch: Tree<T>, ghost h: nat)
    requires head.Focus(c, Bin(l, old_, red, r)) && l.Bin? && r.Bin? && old_ in head.nodes
    requires RedBlack(Plug(c, Bin(l, old_, red, r)))
    modifies head`root, head`nodes, head.nodes
    ensures head.Focus(c', ch) && child == Ref(ch) && parent == ParentOf(c') && Unlinked(c', ch, color, h)
    ensures head.nodes == old(head.nodes) - {old_}
    ensures Inorder(Plug(c', ch)) == Before(c) + Inorder(l) + (Inorder(r) + After(c))
  {
    hide Head.Focus;
    var elm;
    ghost var d, t;
    elm, child, parent, color, d, t := TakeSuccessor(head, old_, c, l, red, r);
    ch := t.right;
    SuccessorFacts(c, l, old_, red, d, t);
    if parent == old_ {
      parent := elm;
    }
    PutSuccessor(head, old_, elm, c, l, red, d, ch);
    c' := Over(InRight(c, elm, red, l), d);
    h := UnlinkedInner(c, l, old_, elm, red, d, t);
  }

  lemma UnlinkedInner<T>(c: Ctx<T>, l: Tree<T>, old_: Node<T>, elm: Node<T>, red: bool, d: Ctx<T>, t: Tree<T>)
    returns (h: nat)
    requires t.Bin? && t.left.Leaf? && t.node == elm && Before(d) == []
      && RedBlack(Plug(c, Bin(l, old_, red, Plug(d, t))))
    ensures Unlinked(Over(InRight(c, elm, red, l), d), t.right, t.red, h)
    ensures Inorder(Plug(Over(InRight(c, elm, red, l), d), t.right)) ==
      Before(c) + Inorder(l) + (Inorder(Plug(d, t)) + After(c))
  {
    PlugOver(InRight(c, old_, red, l), d, t);
    h := UnlinkedChild(Over(InRight(c, old_, red, l), d), t, t.right,
      BlackHeight(Plug(c, Bin(l, old_, red, Plug(d, t)))));
    FitsRename(c, d, old_, elm, red, l, h);
    PlugOver(InRight(c, elm, red, l), d, t.right);
    SuccessorInorder(c, l, elm, red, d, t, t.right);
  }

  /** Node with at most one child. */
  method UnlinkOuter<T>(head: Head<T>, elm: Node<T>, child: Node?<T>, ghost c: Ctx<T>, ghost t: Tree<T>,
                        ghost ch: Tree<T>)
    returns (parent: Node?<T>, color: bool, ghost h: nat)
    requires head.Focus(c, t) && Ref(t) == elm && RedBlack(Plug(c, t)) && child == Ref(ch)
    requires (t.left.Leaf? && ch == t.right) || (t.right.Leaf? && ch == t.left)
    modifies head`root, head`nodes, head.nodes
    ensures head.Focus(c, ch) && parent == ParentOf(c) && Unlinked(c, ch, color, h)
      && head.nodes == old(head.nodes) - {elm}
    ensures Inorder(Plug(c, ch)) == Before(c) + Inorder(t.left) + (Inorder(t.right) + After(c))
  {
    hide Head.Focus;
    head.Look(c, t);
    parent, color := elm.parent, elm.red;
    Splice(head, elm, child, c, t, ch);
    h := UnlinkedChild(c, t, ch, BlackHeight(Plug(c, t)));
    InorderPlug(c, ch);
    Assoc(Before(c), Inorder(ch), After(c));
    assert [] + After(c) == After(c) && Before(c) + [] == Before(c);
  }

  /** RB_REMOVE after the cursors: both ways of unlinking. */
  method Unlink<T>(head: Head<T>, elm: Node<T>, ghost c: Ctx<T>, ghost t: Tree<T>)
    returns (child: Node?<T>, parent: Node?<T>, color: bool, ghost c': Ctx<T>, ghost ch: Tree<T>, ghost h: nat)
    requires head.Focus(c, t) && Ref(t) == elm && RedBlack(Plug(c, t)) && elm in head.nodes
    modifies head`root, head`nodes, head.nodes
    ensures head.Focus(c', ch) && child == Ref(ch) && parent == ParentOf(c') && Unlinked(c', ch, color, h)
    ensures head.nodes == old(head.nodes) - {elm}
    ensures Inorder(Plug(c', ch)) == Before(c) + Inorder(t.left) + (Inorder(t.right) + After(c))
  {
    hide Head.Focus;
    head.Look(c, t);
    if elm.left == null {
      child, c', ch := elm.right, c, t.right;
      parent, color, h := UnlinkOuter(head, elm, child, c, t, ch);
    } else if elm.right == null {
      child, c', ch := elm.left, c, t.left;
      parent, color, h := UnlinkOuter(head, elm, child, c, t, ch);
    } else {
      child, parent, color, c', ch, h := UnlinkInner(head, elm, c, t.left, t.red, t.right);
    }
  }

  method FixColors<T>(head: Head<T>, child: Node?<T>, parent: Node?<T>, color: bool, ghost c: Ctx<T>,
                      ghost ch: Tree<T>, ghost h: nat)
    returns (ghost t: Tree<T>)
    requires head.Focus(c, ch) && child == Ref(ch) && parent == ParentOf(c) && Unlinked(c, ch, color, h)
    modifies head`root, head.nodes
    ensures head.Focus(Top, t) && RedBlack(t) && Inorder(t) == Inorder(Plug(c, ch))
  {
    hide Head.Focus;
    if !color {
      t := RemoveColor(head, parent, child, c, ch, h - 1);
    } else {
      t := Plug(c, ch);
      head.Whole(c, ch);
      var bh := PlugRB(c, ch, h);
      RBHasBlackHeight(t, bh);
    }
  }

  method AdvanceScan<T>(head: Head<T>, s: ScanInfo<T>, elm: Node<T>)
    requires head.Valid() && head.CursorsIn() && elm in head.nodes && s in head.scans
    modifies s`node
    ensures head.CursorsIn() && Advanced(head.Contents(), elm, old(s.node), s.node)
  {
    if s.node == elm {
      s.node := Next(head, elm);
    }
  }

  /** Every scan that was to visit `elm` next will visit its successor instead. */
  method AdvanceScans<T>(head: Head<T>, elm: Node<T>)
    requires head.Valid() && head.ScansOk() && elm in head.nodes
    modifies head.scans`node
    ensures head.CursorsIn()
    ensures forall s :: s in head.scans ==> Advanced(head.Contents(), elm, old(s.node), s.node)
  {
    hide Head.Valid, Head.CursorsIn, Advanced;
    ghost var k := 0;
    var inprog := head.inprog;
    while inprog != null
      invariant 0 <= k <= |head.scans| && inprog == (if k < |head.scans| then head.scans[k] else null)
      invariant head.CursorsIn()
      invariant forall i :: 0 <= i < k ==> Advanced(head.Contents(), elm, old(head.scans[i].node), head.scans[i].node)
      invariant forall i :: k <= i < |head.scans| ==> head.scans[i].node == old(head.scans[i].node)
      decreases |head.scans| - k
    {
      assert head.scans[k].link == Following(head.scans, k);
      AdvanceScan(head, inprog, elm);
      k := k + 1;
      inprog := inprog.link;
    }
  }

  /** What a removal of `elm` does to a cursor. */
  ghost predicate Advanced<T>(s: seq<Node<T>>, elm: Node<T>, was: Node?<T>, now: Node?<T>) {
    if was == elm then IsNext(s, elm, now) else now == was
  }

  lemma NextIsOther<T>(s: seq<Node<T>>, elm: Node<T>, y: Node?<T>)
    requires Sorted(s) && IsNext(s, elm, y)
    ensures y != elm
  {
    SortedDistinct(s);
    var k :| NextAt(s, k, elm, y);
  }

  /** RB_REMOVE. */
  method Remove<T>(head: Head<T>, elm: Node<T>) returns (removed: Node<T>)
    requires head.Valid() && head.ScansOk() && elm in head.nodes
    modifies head`root, head`shape, head`nodes, head.nodes, head.scans`node
    ensures head.Valid() && head.ScansOk() && removed == elm
    ensures Removed(old(head.Contents()), elm, head.Contents()) && head.nodes == old(head.nodes) - {elm}
    ensures forall s :: s in head.scans ==>
      s.link == old(s.link) && Advanced(old(head.Contents()), elm, old(s.node), s.node)
  {
    hide Head.Focus;
    AdvanceScans(head, elm);
    RemoveNode(head, elm);
    forall s | s in head.scans && old(s.node) == elm ensures s.node != elm {
      NextIsOther(old(head.Contents()), elm, s.node);
    }
    removed := elm;
  }

  method RemoveNode<T>(head: Head<T>, elm: Node<T>)
    requires head.Valid() && elm in head.nodes
    modifies head`root, head`shape, head`nodes, head.nodes
    ensures head.Valid()
    ensures Removed(old(head.Contents()), elm, head.Contents()) && head.nodes == old(head.nodes) - {elm}
  {
    hide Head.Focus;
    ghost var c, t := Locate(head.shape, elm);
    ghost var c', ch, h, t';
    head.Whole(c, t);
    FocusAt(c, t);
    NodesAreInorder(head.shape);
    RemovedParts(Before(c) + Inorder(t.left), elm, Inorder(t.right) + After(c));
    hide Sorted, Unlinked, Nodes, Elems, Removed;
    var child, parent, color;
    child, parent, color, c', ch, h := Unlink(head, elm, c, t);
    t' := FixColors(head, child, parent, color, c', ch, h);
    NodesAreInorder(t');
    head.shape := t';
  }
}
