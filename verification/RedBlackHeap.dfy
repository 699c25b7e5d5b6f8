/** The linked entries of a red-black tree: field writes and the two rotations. */
module RedBlackHeap {
  import opened RedBlackShape

  /** What the entries of `s` contain now. */
  ghost function Snap<T>(s: set<Node<T>>): Mem<T>
    reads s
  {
    map n | n in s :: Entry(n.left, n.right, n.parent, n.red)
  }

  ghost function Opt<T>(p: Node?<T>): set<Node<T>> {
    if p == null then {} else {p}
  }

  lemma SnapSame<T>(m: Mem<T>, s: set<Node<T>>, changed: set<Node<T>>)
    requires m.Keys <= s + changed
    requires forall n :: n in m && n !in changed ==> m[n] == Entry(n.left, n.right, n.parent, n.red)
    ensures Same(m, Snap(s), changed)
  {
  }

  /** A scan in progress: the node it will visit next, and the scan it runs inside of. */
  class ScanInfo<T> {
    var link: ScanInfo?<T>
    var node: Node?<T>

    constructor (node: Node?<T>)
      ensures this.node == node && link == null
    {
      this.node, link := node, null;
    }
  }

  ghost function Following<T>(s: seq<ScanInfo<T>>, i: nat): ScanInfo?<T> {
    if i + 1 < |s| then s[i + 1] else null
  }

  class Head<T> {
    var root: Node?<T>
    var inprog: ScanInfo?<T>
    /** The scans in progress, innermost first. */
    ghost var scans: seq<ScanInfo<T>>
    /** The shape of the tree between operations, and all its entries. */
    ghost var shape: Tree<T>
    ghost var nodes: set<Node<T>>

    constructor ()
      ensures Valid() && Contents() == [] && nodes == {} && ScansOk() && scans == []
    {
      root, shape, nodes, inprog, scans := null, Leaf, {}, null, [];
    }

    /** The nodes in key order. */
    ghost function Contents(): seq<Node<T>>
      reads this`shape
    {
      Inorder(shape)
    }

    ghost predicate Valid()
      reads this`root, this`shape, this`nodes, nodes
    {
      Focus(Top, shape) && nodes == Nodes(shape) && RedBlack(shape) && Sorted(Contents())
    }

    /** `inprog` heads the list of the scans in progress. */
    ghost predicate Linked()
      reads this`inprog, this`scans, scans`link
    {
      && inprog == (if scans == [] then null else scans[0])
      && (forall i :: 0 <= i < |scans| ==> scans[i].link == Following(scans, i))
      && (forall i, j :: 0 <= i < j < |scans| ==> scans[i] != scans[j])
    }

    /** Every cursor is a node of the tree or null. */
    ghost predicate CursorsIn()
      reads this`scans, this`nodes, scans`node
    {
      forall s :: s in scans && s.node != null ==> s.node in nodes
    }

    ghost predicate ScansOk()
      reads this`inprog, this`scans, this`nodes, scans
    {
      Linked() && CursorsIn()
    }

    ghost predicate Focus(c: Ctx<T>, t: Tree<T>)
      reads this`root, this`nodes, nodes
    {
      At(Snap(nodes), root, c, t)
    }

    /** The child `elm` of `par` (or the root) is replaced by `tmp`. */
    method Relink(elm: Node<T>, par: Node?<T>, tmp: Node?<T>)
      modifies this`root, Opt(par)
      ensures root == if par == null then tmp else old(root)
      ensures par != null ==> par.parent == old(par.parent) && par.red == old(par.red)
      ensures par != null && old(par.left) == elm ==> par.left == tmp && par.right == old(par.right)
      ensures par != null && old(par.left) != elm ==> par.right == tmp && par.left == old(par.left)
    {
      if par != null {
        if par.left == elm {
          par.left := tmp;
        } else {
          par.right := tmp;
        }
      } else {
        root := tmp;
      }
    }

    method RotateLeftLinks(elm: Node<T>) returns (tmp: Node<T>)
      requires elm.right != null
      requires elm != elm.right && elm.parent != elm && elm.parent != elm.right
      requires elm.right.left != null ==> elm.right.left !in {elm, elm.right} && elm.right.left != elm.parent
      modifies this`root, {elm, elm.right} + Opt(elm.right.left) + Opt(elm.parent)
      ensures tmp == old(elm.right)
      ensures elm.left == old(elm.left) && elm.right == old(tmp.left) && elm.parent == tmp && elm.red == old(elm.red)
      ensures tmp.left == elm && tmp.right == old(tmp.right) && tmp.parent == old(elm.parent) && tmp.red == old(tmp.red)
      ensures var b := old(tmp.left);
              b != null ==> b.parent == elm && b.left == old(b.left) && b.right == old(b.right) && b.red == old(b.red)
      ensures var par := old(elm.parent);
              par != null ==> (par.parent == old(par.parent) && par.red == old(par.red)
                               && (if old(par.left) == elm then par.left == tmp && par.right == old(par.right)
                                   else par.right == tmp && par.left == old(par.left)))
      ensures root == if old(elm.parent) == null then tmp else old(root)
    {
      tmp := elm.right;
      elm.right := tmp.left;
      if elm.right != null {
        tmp.left.parent := elm;
      }
      tmp.parent := elm.parent;
      Relink(elm, elm.parent, tmp);
      tmp.left := elm;
      elm.parent := tmp;
    }

    method RotateLeftEntries(elm: Node<T>, ghost c: Ctx<T>, ghost b: Tree<T>, ghost y: Node<T>)
      requires Surroundings(Snap(nodes), c, elm, b, y)
      requires elm.right == y && elm.parent == ParentOf(c) && y.left == Ref(b)
      modifies this`root, nodes
      ensures Rotated(old(Snap(nodes)), Snap(nodes), old(root), root, c, elm, b, y)
      ensures elm.left == old(elm.left) && elm.right == Ref(b) && elm.parent == y && elm.red == old(elm.red)
      ensures y.left == elm && y.right == old(y.right) && y.parent == ParentOf(c) && y.red == old(y.red)
    {
      ghost var m, changed := Snap(nodes), {elm, y} + RootNode(b) + Owner(c);
      var tmp := RotateLeftLinks(elm);
      forall n | n in m && n !in changed ensures m[n] == Entry(n.left, n.right, n.parent, n.red) { }
      SnapSame(m, nodes, changed);
    }

    method RotateLeft(elm: Node<T>, ghost c: Ctx<T>, ghost a: Tree<T>, ghost rx: bool,
                      ghost b: Tree<T>, ghost y: Node<T>, ghost ry: bool, ghost d: Tree<T>)
      requires Focus(c, Bin(a, elm, rx, Bin(b, y, ry, d)))
      modifies this`root, nodes
      ensures Focus(c, Bin(Bin(a, elm, rx, b), y, ry, d))
    {
      ghost var m, r := Snap(nodes), root;
      LeftSurroundings(m, root, c, a, elm, rx, b, y, ry, d);
      hide At, Surroundings, Rotated;
      RotateLeftEntries(elm, c, b, y);
      RotateLeftAt(m, Snap(nodes), r, root, c, a, elm, rx, b, y, ry, d);
    }

    method RotateRightLinks(elm: Node<T>) returns (tmp: Node<T>)
      requires elm.left != null
      requires elm != elm.left && elm.parent != elm && elm.parent != elm.left
      requires elm.left.right != null ==> elm.left.right !in {elm, elm.left} && elm.left.right != elm.parent
      modifies this`root, {elm, elm.left} + Opt(elm.left.right) + Opt(elm.parent)
      ensures tmp == old(elm.left)
      ensures elm.right == old(elm.right) && elm.left == old(tmp.right) && elm.parent == tmp && elm.red == old(elm.red)
      ensures tmp.right == elm && tmp.left == old(tmp.left) && tmp.parent == old(elm.parent) && tmp.red == old(tmp.red)
      ensures var b := old(tmp.right);
              b != null ==> b.parent == elm && b.left == old(b.left) && b.right == old(b.right) && b.red == old(b.red)
      ensures var par := old(elm.parent);
              par != null ==> (par.parent == old(par.parent) && par.red == old(par.red)
                               && (if old(par.left) == elm then par.left == tmp && par.right == old(par.right)
                                   else par.right == tmp && par.left == old(par.left)))
      ensures root == if old(elm.parent) == null then tmp else old(root)
    {
      tmp := elm.left;
      elm.left := tmp.right;
      if elm.left != null {
        tmp.right.parent := elm;
      }
      tmp.parent := elm.parent;
      Relink(elm, elm.parent, tmp);
      tmp.right := elm;
      elm.parent := tmp;
    }

    method RotateRightEntries(elm: Node<T>, ghost c: Ctx<T>, ghost x: Node<T>, ghost b: Tree<T>)
      requires Surroundings(Snap(nodes), c, elm, b, x)
      requires elm.left == x && elm.parent == ParentOf(c) && x.right == Ref(b)
      modifies this`root, nodes
      ensures Rotated(old(Snap(nodes)), Snap(nodes), old(root), root, c, elm, b, x)
      ensures elm.right == old(elm.right) && elm.left == Ref(b) && elm.parent == x && elm.red == old(elm.red)
      ensures x.right == elm && x.left == old(x.left) && x.parent == ParentOf(c) && x.red == old(x.red)
    {
      ghost var m, changed := Snap(nodes), {elm, x} + RootNode(b) + Owner(c);
      var tmp := RotateRightLinks(elm);
      forall n | n in m && n !in changed ensures m[n] == Entry(n.left, n.right, n.parent, n.red) { }
      SnapSame(m, nodes, changed);
    }

    method RotateRight(elm: Node<T>, ghost c: Ctx<T>, ghost a: Tree<T>, ghost x: Node<T>, ghost rx: bool,
                       ghost b: Tree<T>, ghost ry: bool, ghost d: Tree<T>)
      requires Focus(c, Bin(Bin(a, x, rx, b), elm, ry, d))
      modifies this`root, nodes
      ensures Focus(c, Bin(a, x, rx, Bin(b, elm, ry, d)))
    {
      ghost var m, r := Snap(nodes), root;
      RightSurroundings(m, root, c, a, x, rx, b, elm, ry, d);
      hide At, Surroundings, Rotated;
      RotateRightEntries(elm, c, x, b);
      RotateRightAt(m, Snap(nodes), r, root, c, a, x, rx, b, elm, ry, d);
    }

    method SetRed(n: Node<T>, red: bool, ghost c: Ctx<T>, ghost l: Tree<T>, ghost was: bool, ghost r: Tree<T>)
      requires Focus(c, Bin(l, n, was, r))
      modifies nodes
      ensures Focus(c, Bin(l, n, red, r))
    {
      ghost var m := Snap(nodes);
      n.red := red;
      RecolourAt(m, Snap(nodes), root, c, l, n, was, red, r);
    }

    /** What the real fields around the focus are. */
    lemma Look(c: Ctx<T>, t: Tree<T>)
      requires Focus(c, t)
      ensures c.Top? <==> root == Ref(t)
      ensures t.Bin? ==> t.node in nodes && t.node.left == Ref(t.left) && t.node.right == Ref(t.right)
                         && t.node.red == t.red && t.node.parent == ParentOf(c)
      ensures !c.Top? ==> c.node in nodes && c.node.red == c.red && c.node.parent == ParentOf(c.up) && c.node != Ref(t)
      ensures c.InLeft? ==> c.node.left == Ref(t) && c.node.right == Ref(c.sibling)
      ensures c.InRight? ==> c.node.right == Ref(t) && c.node.left == Ref(c.sibling)
      ensures !c.Top? && (t.Bin? || c.sibling.Bin?) ==> Ref(c.sibling) != Ref(t)
    {
      if !c.Top? { NotRoot(Snap(nodes), root, c, Ref(t)); }
    }

    lemma Left(c: Ctx<T>, l: Tree<T>, n: Node<T>, red: bool, r: Tree<T>)
      ensures Focus(c, Bin(l, n, red, r)) <==> Focus(InLeft(c, n, red, r), l)
    {
      StepLeft(Snap(nodes), root, c, l, n, red, r);
    }

    lemma Right(c: Ctx<T>, l: Tree<T>, n: Node<T>, red: bool, r: Tree<T>)
      ensures Focus(c, Bin(l, n, red, r)) <==> Focus(InRight(c, n, red, l), r)
    {
      StepRight(Snap(nodes), root, c, l, n, red, r);
    }

    /** Zooming out of (into) a subtree along its context `d`. */
    lemma Zoom(c: Ctx<T>, d: Ctx<T>, t: Tree<T>)
      ensures Focus(Over(c, d), t) <==> Focus(c, Plug(d, t))
    {
      StepOver(Snap(nodes), root, c, d, t);
    }

    lemma Whole(c: Ctx<T>, t: Tree<T>)
      ensures Focus(c, t) <==> Focus(Top, Plug(c, t))
    {
      OverTop(c);
      Zoom(Top, c, t);
    }
  }
}
