/** Pure shapes of a red-black tree: trees of node references and the contexts
    they sit in. Nothing here reads the heap. */
module RedBlackShape {
  import opened KeyOrder

  /** An intrusive tree entry (RB_ENTRY): three links and a colour. `key` is what the
      comparator looks at; `item` is the record the entry is embedded in. */
  class Node<T> {
    const key: string
    const item: T
    var left: Node?<T>
    var right: Node?<T>
    var parent: Node?<T>
    var red: bool

    constructor (key: string, item: T)
      ensures this.key == key && this.item == item
    {
      this.key, this.item := key, item;
      left, right, parent, red := null, null, null, false;
    }
  }

  /** The contents of one entry, and of all entries: what the heap holds. */
  datatype Entry<T> = Entry(left: Node?<T>, right: Node?<T>, parent: Node?<T>, red: bool)
  type Mem<T> = map<Node<T>, Entry<T>>

  datatype Tree<T> = Leaf | Bin(left: Tree<T>, node: Node<T>, red: bool, right: Tree<T>)

  /** A tree with a hole: the hole is the left (right) child of `node`, whose other child is `sibling`. */
  datatype Ctx<T> =
    | Top
    | InLeft(up: Ctx<T>, node: Node<T>, red: bool, sibling: Tree<T>)
    | InRight(up: Ctx<T>, node: Node<T>, red: bool, sibling: Tree<T>)

  ghost function Plug<T>(c: Ctx<T>, t: Tree<T>): Tree<T>
    decreases c
  {
    match c
    case Top => t
    case InLeft(up, n, red, s) => Plug(up, Bin(t, n, red, s))
    case InRight(up, n, red, s) => Plug(up, Bin(s, n, red, t))
  }

  ghost function Depth<T>(c: Ctx<T>): nat {
    if c.Top? then 0 else Depth(c.up) + 1
  }

  ghost function Inorder<T>(t: Tree<T>): seq<Node<T>> {
    match t
    case Leaf => []
    case Bin(l, n, _, r) => Inorder(l) + [n] + Inorder(r)
  }

  ghost function Nodes<T>(t: Tree<T>): set<Node<T>> {
    match t
    case Leaf => {}
    case Bin(l, n, _, r) => Nodes(l) + {n} + Nodes(r)
  }

  ghost function CNodes<T>(c: Ctx<T>): set<Node<T>> {
    match c
    case Top => {}
    case InLeft(up, n, _, s) => CNodes(up) + {n} + Nodes(s)
    case InRight(up, n, _, s) => CNodes(up) + {n} + Nodes(s)
  }

  /** No node occurs twice. */
  ghost predicate Distinct<T>(t: Tree<T>) {
    match t
    case Leaf => true
    case Bin(l, n, _, r) =>
      n !in Nodes(l) && n !in Nodes(r) && Nodes(l) !! Nodes(r) && Distinct(l) && Distinct(r)
  }

  ghost predicate CDistinct<T>(c: Ctx<T>) {
    match c
    case Top => true
    case InLeft(up, n, _, s) =>
      n !in CNodes(up) && n !in Nodes(s) && Nodes(s) !! CNodes(up) && Distinct(s) && CDistinct(up)
    case InRight(up, n, _, s) =>
      n !in CNodes(up) && n !in Nodes(s) && Nodes(s) !! CNodes(up) && Distinct(s) && CDistinct(up)
  }

  ghost predicate Apart<T>(c: Ctx<T>, t: Tree<T>) {
    Distinct(t) && CDistinct(c) && Nodes(t) !! CNodes(c)
  }

  /** All that a rotation needs to know about who is different from whom. */
  ghost predicate Flat<T>(c: Ctx<T>, a: Tree<T>, x: Node<T>, b: Tree<T>, y: Node<T>, d: Tree<T>) {
    && x != y && x !in CNodes(c) && y !in CNodes(c)
    && x !in Nodes(a) && x !in Nodes(b) && x !in Nodes(d)
    && y !in Nodes(a) && y !in Nodes(b) && y !in Nodes(d)
    && Nodes(a) !! Nodes(b) && Nodes(a) !! Nodes(d) && Nodes(b) !! Nodes(d)
    && Nodes(a) !! CNodes(c) && Nodes(b) !! CNodes(c) && Nodes(d) !! CNodes(c)
    && Distinct(a) && Distinct(b) && Distinct(d) && CDistinct(c)
  }

  lemma FlatRight<T>(c: Ctx<T>, a: Tree<T>, x: Node<T>, b: Tree<T>, y: Node<T>, d: Tree<T>, r1: bool, r2: bool)
    ensures Apart(c, Bin(a, x, r1, Bin(b, y, r2, d))) <==> Flat(c, a, x, b, y, d)
  {
    var t := Bin(b, y, r2, d);
    assert Nodes(t) == Nodes(b) + {y} + Nodes(d);
    assert Nodes(Bin(a, x, r1, t)) == Nodes(a) + {x} + Nodes(t);
    assert Distinct(t) <==> y !in Nodes(b) && y !in Nodes(d) && Nodes(b) !! Nodes(d) && Distinct(b) && Distinct(d);
    hide Nodes, CNodes, CDistinct;
  }

  lemma FlatLeft<T>(c: Ctx<T>, a: Tree<T>, x: Node<T>, b: Tree<T>, y: Node<T>, d: Tree<T>, r1: bool, r2: bool)
    ensures Apart(c, Bin(Bin(a, x, r1, b), y, r2, d)) <==> Flat(c, a, x, b, y, d)
  {
    var t := Bin(a, x, r1, b);
    assert Nodes(t) == Nodes(a) + {x} + Nodes(b);
    assert Nodes(Bin(t, y, r2, d)) == Nodes(t) + {y} + Nodes(d);
    assert Distinct(t) <==> x !in Nodes(a) && x !in Nodes(b) && Nodes(a) !! Nodes(b) && Distinct(a) && Distinct(b);
    hide Nodes, CNodes, CDistinct;
  }

  // ----- colours -----

  predicate IsRed<T>(t: Tree<T>) { t.Bin? && t.red }

  /** `t` has black height `h` and no red node has a red child. */
  ghost predicate RB<T>(t: Tree<T>, h: nat) {
    match t
    case Leaf => h == 0
    case Bin(l, _, red, r) =>
      if red then !IsRed(l) && !IsRed(r) && RB(l, h) && RB(r, h)
      else h > 0 && RB(l, h - 1) && RB(r, h - 1)
  }

  ghost predicate HoleUnderRed<T>(c: Ctx<T>) { !c.Top? && c.red }

  /** Plugging a tree of black height `h` into `c` keeps all black heights equal; every red
      ancestor has a black sibling of the hole and a black parent (so the root is black). */
  ghost predicate Fits<T>(c: Ctx<T>, h: nat) {
    match c
    case Top => true
    case InLeft(up, _, red, s) => FitsAt(up, red, s, h) && (if red then Fits(up, h) else Fits(up, h + 1))
    case InRight(up, _, red, s) => FitsAt(up, red, s, h) && (if red then Fits(up, h) else Fits(up, h + 1))
  }

  ghost predicate FitsAt<T>(up: Ctx<T>, red: bool, s: Tree<T>, h: nat) {
    RB(s, h) && (red ==> !IsRed(s) && !up.Top? && !HoleUnderRed(up))
  }

  ghost function Blacken<T>(t: Tree<T>): Tree<T> {
    if t.Bin? then t.(red := false) else t
  }

  /** The header's conditions: equal black heights, no red node under a red one, a black root. */
  ghost predicate RedBlack<T>(t: Tree<T>) {
    !IsRed(t) && RB(t, BlackHeight(t))
  }

  ghost function BlackHeight<T>(t: Tree<T>): nat {
    if t.Leaf? then 0 else BlackHeight(t.left) + if t.red then 0 else 1
  }

  lemma {:induction false} RBHasBlackHeight<T>(t: Tree<T>, h: nat)
    requires RB(t, h)
    ensures h == BlackHeight(t)
  {
    if t.Bin? { RBHasBlackHeight(t.left, if t.red then h else h - 1); }
  }

  ghost function Height<T>(t: Tree<T>): nat {
    if t.Leaf? then 0
    else 1 + if Height(t.left) > Height(t.right) then Height(t.left) else Height(t.right)
  }

  // ----- order -----

  ghost predicate Sorted<T>(s: seq<Node<T>>) {
    forall i, j :: 0 <= i < j < |s| ==> Less(s[i].key, s[j].key)
  }

  ghost function Before<T>(c: Ctx<T>): seq<Node<T>> {
    match c
    case Top => []
    case InLeft(up, _, _, _) => Before(up)
    case InRight(up, n, _, s) => Before(up) + Inorder(s) + [n]
  }

  ghost function After<T>(c: Ctx<T>): seq<Node<T>> {
    match c
    case Top => []
    case InLeft(up, n, _, s) => [n] + Inorder(s) + After(up)
    case InRight(up, _, _, _) => After(up)
  }

  lemma Assoc<A>(a: seq<A>, b: seq<A>, c: seq<A>)
    ensures (a + b) + c == a + (b + c)
  {
  }

  lemma Assoc3<A>(a: seq<A>, b: seq<A>, c: seq<A>, d: seq<A>)
    ensures a + (b + c + d) == (a + b + c) + d
    ensures (a + b + c) + d == a + (b + c + d)
  {
  }

  lemma Assoc5<A>(a: seq<A>, b: seq<A>, c: seq<A>, d: seq<A>, e: seq<A>)
    ensures a + (b + c + d) + e == a + b + (c + d + e) == (a + b + c) + d + e
  {
    assert a + (b + c + d) == a + b + c + d;
    Assoc(a + b, c + d, e);
    Assoc(a + b, c, d);
  }

  lemma {:induction false} InorderPlug<T>(c: Ctx<T>, t: Tree<T>)
    ensures Inorder(Plug(c, t)) == Before(c) + Inorder(t) + After(c)
    decreases c
  {
    match c
    case Top =>
    case InLeft(up, n, red, s) =>
      InorderPlug(up, Bin(t, n, red, s));
      Assoc5(Before(up), Inorder(t), [n], Inorder(s), After(up));
    case InRight(up, n, red, s) =>
      InorderPlug(up, Bin(s, n, red, t));
      Assoc5(Before(up), Inorder(s), [n], Inorder(t), After(up));
  }

  // ----- what it means for a memory to hold a shape -----

  /** The node (or null) a tree hangs from. */
  ghost function Ref<T>(t: Tree<T>): Node?<T> {
    if t.Leaf? then null else t.node
  }

  ghost function ParentOf<T>(c: Ctx<T>): Node?<T> {
    if c.Top? then null else c.node
  }

  ghost predicate Holds<T>(m: Mem<T>, t: Tree<T>, par: Node?<T>) {
    match t
    case Leaf => true
    case Bin(l, n, red, r) =>
      n in m && m[n] == Entry(Ref(l), Ref(r), par, red) && Holds(m, l, n) && Holds(m, r, n)
  }

  /** `m` and `root` are linked as `c` says around a hole that holds `p`. */
  ghost predicate HoldsC<T>(m: Mem<T>, root: Node?<T>, c: Ctx<T>, p: Node?<T>)
    decreases c
  {
    match c
    case Top => root == p
    case InLeft(up, n, red, s) =>
      n in m && m[n] == Entry(p, Ref(s), ParentOf(up), red) && Holds(m, s, n) && HoldsC(m, root, up, n)
    case InRight(up, n, red, s) =>
      n in m && m[n] == Entry(Ref(s), p, ParentOf(up), red) && Holds(m, s, n) && HoldsC(m, root, up, n)
  }

  /** The focus `t` sits in context `c`. */
  ghost predicate At<T>(m: Mem<T>, root: Node?<T>, c: Ctx<T>, t: Tree<T>) {
    Apart(c, t) && Holds(m, t, ParentOf(c)) && HoldsC(m, root, c, Ref(t))
  }

  lemma RootHeld<T>(m: Mem<T>, t: Tree<T>, par: Node?<T>)
    requires Holds(m, t, par)
    ensures t.Bin? ==> t.node in m
  {
  }

  lemma OwnerHeld<T>(m: Mem<T>, root: Node?<T>, c: Ctx<T>, p: Node?<T>)
    requires HoldsC(m, root, c, p)
    ensures !c.Top? ==> c.node in m
  {
  }

  /** Outside `changed` the two memories agree. */
  ghost predicate Same<T>(m: Mem<T>, m': Mem<T>, changed: set<Node<T>>) {
    forall n :: n in m && n !in changed ==> n in m' && m'[n] == m[n]
  }

  lemma {:induction false} Frame<T>(m: Mem<T>, m': Mem<T>, changed: set<Node<T>>, t: Tree<T>, par: Node?<T>)
    requires Holds(m, t, par) && Same(m, m', changed) && changed !! Nodes(t)
    ensures Holds(m', t, par)
  {
    if t.Bin? { Frame(m, m', changed, t.left, t.node); Frame(m, m', changed, t.right, t.node); }
  }

  lemma {:induction false} FrameC<T>(m: Mem<T>, m': Mem<T>, changed: set<Node<T>>, root: Node?<T>, c: Ctx<T>,
                                     p: Node?<T>)
    requires HoldsC(m, root, c, p) && Same(m, m', changed) && changed !! CNodes(c)
    ensures HoldsC(m', root, c, p)
    decreases c
  {
    if !c.Top? { Frame(m, m', changed, c.sibling, c.node); FrameC(m, m', changed, root, c.up, c.node); }
  }

  /** Entry of the hole's owner once the hole holds `q`. */
  ghost function Hung<T>(c: Ctx<T>, e: Entry<T>, q: Node?<T>): Entry<T> {
    if c.InLeft? then e.(left := q) else e.(right := q)
  }

  /** In the context only the hole's owner (or the root) changed: the hole now holds `q`. */
  lemma Rehang<T>(m: Mem<T>, m': Mem<T>, changed: set<Node<T>>, root: Node?<T>, root': Node?<T>, c: Ctx<T>,
                  p: Node?<T>, q: Node?<T>)
    requires CDistinct(c) && HoldsC(m, root, c, p) && Same(m, m', changed)
    requires root' == if c.Top? then q else root
    requires !c.Top? ==> c.node in m' && m'[c.node] == Hung(c, m[c.node], q) && (changed - {c.node}) !! CNodes(c)
    ensures HoldsC(m', root', c, q)
  {
    if !c.Top? {
      Frame(m, m', changed, c.sibling, c.node);
      FrameC(m, m', changed, root, c.up, c.node);
    }
  }

  /** In `t` only the root changed, and only in its parent link. */
  lemma Reparent<T>(m: Mem<T>, m': Mem<T>, changed: set<Node<T>>, t: Tree<T>, par: Node?<T>, par': Node?<T>)
    requires Distinct(t) && Holds(m, t, par) && Same(m, m', changed)
    requires t.Bin? ==> t.node in m' && m'[t.node] == m[t.node].(parent := par') && (changed - {t.node}) !! Nodes(t)
    ensures Holds(m', t, par')
  {
    if t.Bin? {
      Frame(m, m', changed, t.left, t.node);
      Frame(m, m', changed, t.right, t.node);
    }
  }

  ghost function RootNode<T>(t: Tree<T>): set<Node<T>> {
    if t.Leaf? then {} else {t.node}
  }

  ghost function Owner<T>(c: Ctx<T>): set<Node<T>> {
    if c.Top? then {} else {c.node}
  }

  /** The entries a rotation of the edge between `x` and `y` changes: `b` moves from `y` to `x`,
      and `y` replaces `x` in the hole of `c`. */
  ghost predicate Rotated<T>(m: Mem<T>, m': Mem<T>, root: Node?<T>, root': Node?<T>, c: Ctx<T>, x: Node<T>,
                             b: Tree<T>, y: Node<T>) {
    && Same(m, m', {x, y} + RootNode(b) + Owner(c))
    && root' == (if c.Top? then y else root)
    && (b.Bin? && b.node in m ==> b.node in m' && m'[b.node] == m[b.node].(parent := x))
    && (!c.Top? && c.node in m ==> c.node in m' && m'[c.node] == Hung(c, m[c.node], y))
  }

  lemma RootIn<T>(t: Tree<T>)
    ensures RootNode(t) <= Nodes(t)
  {
  }

  lemma OwnerIn<T>(c: Ctx<T>)
    ensures Owner(c) <= CNodes(c)
  {
  }

  /** Around the entries that a rotation changes. */
  lemma FlatOutside<T>(c: Ctx<T>, a: Tree<T>, x: Node<T>, b: Tree<T>, y: Node<T>, d: Tree<T>)
    requires Flat(c, a, x, b, y, d)
    ensures var changed := {x, y} + RootNode(b) + Owner(c);
      changed !! Nodes(a) && changed !! Nodes(d)
      && changed - RootNode(b) !! Nodes(b) && changed - Owner(c) !! CNodes(c)
    ensures Distinct(b) && CDistinct(c)
  {
    RootIn(b);
    OwnerIn(c);
    hide Nodes, CNodes, Distinct, CDistinct;
  }

  lemma RotateRest<T>(m: Mem<T>, m': Mem<T>, root: Node?<T>, root': Node?<T>, c: Ctx<T>, a: Tree<T>, x: Node<T>,
                      b: Tree<T>, y: Node<T>, d: Tree<T>)
    requires Flat(c, a, x, b, y, d)
    requires Holds(m, a, x) && Holds(m, b, y) && Holds(m, d, y) && HoldsC(m, root, c, x)
    requires Rotated(m, m', root, root', c, x, b, y)
    ensures Holds(m', a, x) && Holds(m', b, x) && Holds(m', d, y) && HoldsC(m', root', c, y)
  {
    var changed := {x, y} + RootNode(b) + Owner(c);
    hide Flat, Nodes, CNodes, Distinct, CDistinct;
    FlatOutside(c, a, x, b, y, d);
    assert b.Bin? ==> b.node in m;
    assert !c.Top? ==> c.node in m;
    hide Holds, HoldsC, Same, Owner, RootNode;
    Frame(m, m', changed, a, x);
    Frame(m, m', changed, d, y);
    Reparent(m, m', changed, b, y, x);
    Rehang(m, m', changed, root, root', c, x, y);
  }

  /** Which entries a rotation meets, read off the shape. */
  ghost predicate Surroundings<T>(m: Mem<T>, c: Ctx<T>, x: Node<T>, b: Tree<T>, y: Node<T>) {
    && {x, y} <= m.Keys && x != y
    && (b.Bin? ==> b.node in m && b.node != x && b.node != y && b.node != ParentOf(c))
    && (!c.Top? ==> c.node in m && c.node != x && c.node != y)
    && (c.InLeft? ==> m[c.node].left == x)
    && (c.InRight? ==> m[c.node].right == x && m[c.node].left != x)
  }

  /** What a chain of two nodes leaning right (left) hangs together from. */
  lemma RightParts<T>(m: Mem<T>, root: Node?<T>, c: Ctx<T>, a: Tree<T>, x: Node<T>, rx: bool,
                      b: Tree<T>, y: Node<T>, ry: bool, d: Tree<T>)
    ensures At(m, root, c, Bin(a, x, rx, Bin(b, y, ry, d))) <==>
      Flat(c, a, x, b, y, d) && {x, y} <= m.Keys
      && m[x] == Entry(Ref(a), y, ParentOf(c), rx) && m[y] == Entry(Ref(b), Ref(d), x, ry)
      && Holds(m, a, x) && Holds(m, b, y) && Holds(m, d, y) && HoldsC(m, root, c, x)
  {
    hide Nodes, CNodes, Distinct, CDistinct, HoldsC, Flat, Apart;
    FlatRight(c, a, x, b, y, d, rx, ry);
    var t := Bin(b, y, ry, d);
    HoldsBin(m, b, y, ry, d, x);
    HoldsBin(m, a, x, rx, t, ParentOf(c));
  }

  lemma LeftParts<T>(m: Mem<T>, root: Node?<T>, c: Ctx<T>, a: Tree<T>, x: Node<T>, rx: bool,
                     b: Tree<T>, y: Node<T>, ry: bool, d: Tree<T>)
    ensures At(m, root, c, Bin(Bin(a, x, rx, b), y, ry, d)) <==>
      Flat(c, a, x, b, y, d) && {x, y} <= m.Keys
      && m[y] == Entry(x, Ref(d), ParentOf(c), ry) && m[x] == Entry(Ref(a), Ref(b), y, rx)
      && Holds(m, a, x) && Holds(m, b, x) && Holds(m, d, y) && HoldsC(m, root, c, y)
  {
    hide Nodes, CNodes, Distinct, CDistinct, HoldsC, Flat, Apart;
    FlatLeft(c, a, x, b, y, d, rx, ry);
    var t := Bin(a, x, rx, b);
    HoldsBin(m, a, x, rx, b, y);
    HoldsBin(m, t, y, ry, d, ParentOf(c));
  }

  lemma HoldsBin<T>(m: Mem<T>, l: Tree<T>, n: Node<T>, red: bool, r: Tree<T>, par: Node?<T>)
    ensures Holds(m, Bin(l, n, red, r), par) <==>
      n in m && m[n] == Entry(Ref(l), Ref(r), par, red) && Holds(m, l, n) && Holds(m, r, n)
  {
  }

  lemma FlatBack<T>(c: Ctx<T>, a: Tree<T>, x: Node<T>, b: Tree<T>, y: Node<T>, d: Tree<T>)
    ensures Flat(c, a, x, b, y, d) <==> Flat(c, d, y, b, x, a)
  {
    hide Nodes, CNodes, Distinct, CDistinct;
  }

  lemma FlatSurroundings<T>(m: Mem<T>, root: Node?<T>, c: Ctx<T>, a: Tree<T>, x: Node<T>, b: Tree<T>, y: Node<T>,
                            d: Tree<T>)
    requires Flat(c, a, x, b, y, d) && {x, y} <= m.Keys && Holds(m, b, y) && HoldsC(m, root, c, x)
    ensures Surroundings(m, c, x, b, y)
  {
    assert RootNode(b) <= Nodes(b) && Owner(c) <= CNodes(c);
  }

  lemma LeftSurroundings<T>(m: Mem<T>, root: Node?<T>, c: Ctx<T>, a: Tree<T>, x: Node<T>, rx: bool,
                            b: Tree<T>, y: Node<T>, ry: bool, d: Tree<T>)
    requires At(m, root, c, Bin(a, x, rx, Bin(b, y, ry, d)))
    ensures Surroundings(m, c, x, b, y)
    ensures m[x] == Entry(Ref(a), y, ParentOf(c), rx) && m[y] == Entry(Ref(b), Ref(d), x, ry)
  {
    RightParts(m, root, c, a, x, rx, b, y, ry, d);
    FlatSurroundings(m, root, c, a, x, b, y, d);
  }

  lemma RightSurroundings<T>(m: Mem<T>, root: Node?<T>, c: Ctx<T>, a: Tree<T>, x: Node<T>, rx: bool,
                             b: Tree<T>, y: Node<T>, ry: bool, d: Tree<T>)
    requires At(m, root, c, Bin(Bin(a, x, rx, b), y, ry, d))
    ensures Surroundings(m, c, y, b, x)
    ensures m[y] == Entry(x, Ref(d), ParentOf(c), ry) && m[x] == Entry(Ref(a), Ref(b), y, rx)
  {
    LeftParts(m, root, c, a, x, rx, b, y, ry, d);
    FlatBack(c, a, x, b, y, d);
    FlatSurroundings(m, root, c, d, y, b, x, a);
  }

  lemma RotateLeftAt<T>(m: Mem<T>, m': Mem<T>, root: Node?<T>, root': Node?<T>, c: Ctx<T>, a: Tree<T>, x: Node<T>,
                        rx: bool, b: Tree<T>, y: Node<T>, ry: bool, d: Tree<T>)
    requires At(m, root, c, Bin(a, x, rx, Bin(b, y, ry, d)))
    requires Rotated(m, m', root, root', c, x, b, y)
    requires {x, y} <= m'.Keys && m'[x] == Entry(Ref(a), Ref(b), y, rx) && m'[y] == Entry(x, Ref(d), ParentOf(c), ry)
    ensures At(m', root', c, Bin(Bin(a, x, rx, b), y, ry, d))
  {
    hide At, Flat, Holds, HoldsC, Rotated;
    RightParts(m, root, c, a, x, rx, b, y, ry, d);
    RotateRest(m, m', root, root', c, a, x, b, y, d);
    LeftParts(m', root', c, a, x, rx, b, y, ry, d);
  }

  lemma RotateRightAt<T>(m: Mem<T>, m': Mem<T>, root: Node?<T>, root': Node?<T>, c: Ctx<T>, a: Tree<T>, x: Node<T>,
                         rx: bool, b: Tree<T>, y: Node<T>, ry: bool, d: Tree<T>)
    requires At(m, root, c, Bin(Bin(a, x, rx, b), y, ry, d))
    requires Rotated(m, m', root, root', c, y, b, x)
    requires {x, y} <= m'.Keys && m'[x] == Entry(Ref(a), y, ParentOf(c), rx) && m'[y] == Entry(Ref(b), Ref(d), x, ry)
    ensures At(m', root', c, Bin(a, x, rx, Bin(b, y, ry, d)))
  {
    hide At, Flat, Holds, HoldsC, Rotated;
    LeftParts(m, root, c, a, x, rx, b, y, ry, d);
    FlatBack(c, a, x, b, y, d);
    RotateRest(m, m', root, root', c, d, y, b, x, a);
    RightParts(m', root', c, a, x, rx, b, y, ry, d);
  }

  /** Only the colour of the focus' root changed. */
  lemma RecolourAt<T>(m: Mem<T>, m': Mem<T>, root: Node?<T>, c: Ctx<T>, l: Tree<T>, n: Node<T>, was: bool, red: bool,
                      r: Tree<T>)
    requires At(m, root, c, Bin(l, n, was, r))
    requires Same(m, m', {n}) && n in m' && m'[n] == m[n].(red := red)
    ensures At(m', root, c, Bin(l, n, red, r))
  {
    Frame(m, m', {n}, l, n);
    Frame(m, m', {n}, r, n);
    FrameC(m, m', {n}, root, c, n);
  }

  /** Moving the focus between a node and its left (right) child. */
  lemma StepLeft<T>(m: Mem<T>, root: Node?<T>, c: Ctx<T>, l: Tree<T>, n: Node<T>, red: bool, r: Tree<T>)
    ensures At(m, root, c, Bin(l, n, red, r)) <==> At(m, root, InLeft(c, n, red, r), l)
  {
  }

  lemma StepRight<T>(m: Mem<T>, root: Node?<T>, c: Ctx<T>, l: Tree<T>, n: Node<T>, red: bool, r: Tree<T>)
    ensures At(m, root, c, Bin(l, n, red, r)) <==> At(m, root, InRight(c, n, red, l), r)
  {
  }

  /** Below a context that is not `Top` sits something other than the root. */
  lemma {:induction false} NotRoot<T>(m: Mem<T>, root: Node?<T>, c: Ctx<T>, p: Node?<T>)
    requires HoldsC(m, root, c, p) && !c.Top?
    ensures root != null && root in CNodes(c)
    decreases c
  {
    if !c.up.Top? { NotRoot(m, root, c.up, c.node); }
  }

  /** A new red entry hangs in an empty hole. */
  lemma AttachAt<T>(m: Mem<T>, m': Mem<T>, root: Node?<T>, root': Node?<T>, c: Ctx<T>, elm: Node<T>)
    requires At(m, root, c, Leaf) && elm !in CNodes(c)
    requires Same(m, m', {elm} + Owner(c)) && elm in m' && m'[elm] == Entry(null, null, ParentOf(c), true)
    requires root' == if c.Top? then elm else root
    requires !c.Top? && c.node in m ==> c.node in m' && m'[c.node] == Hung(c, m[c.node], elm)
    ensures At(m', root', c, Bin(Leaf, elm, true, Leaf))
  {
    Rehang(m, m', {elm} + Owner(c), root, root', c, null, elm);
  }

  /** The entries that change when the child `ch` of `elm`, or nothing, replaces `elm` in the hole of `c`. */
  ghost predicate Spliced<T>(m: Mem<T>, m': Mem<T>, root: Node?<T>, root': Node?<T>, c: Ctx<T>, elm: Node<T>,
                             ch: Tree<T>) {
    && Same(m, m', {elm} + RootNode(ch) + Owner(c))
    && (ch.Bin? && ch.node in m ==> ch.node in m' && m'[ch.node] == m[ch.node].(parent := ParentOf(c)))
    && (!c.Top? && c.node in m ==> c.node in m' && m'[c.node] == Hung(c, m[c.node], Ref(ch)))
    && root' == if c.Top? then Ref(ch) else root
  }

  /** `elm` has at most one child `ch`, which takes its place. */
  lemma SpliceAt<T>(m: Mem<T>, m': Mem<T>, root: Node?<T>, root': Node?<T>, c: Ctx<T>, t: Tree<T>, ch: Tree<T>)
    requires At(m, root, c, t) && t.Bin? && ((t.left.Leaf? && ch == t.right) || (t.right.Leaf? && ch == t.left))
    requires Spliced(m, m', root, root', c, t.node, ch)
    ensures At(m', root', c, ch)
  {
    var changed := {t.node} + RootNode(ch) + Owner(c);
    assert RootNode(ch) <= Nodes(ch) && Owner(c) <= CNodes(c);
    Reparent(m, m', changed, ch, t.node, ParentOf(c));
    Rehang(m, m', changed, root, root', c, t.node, Ref(ch));
  }

  lemma ReplaceOutside<T>(c: Ctx<T>, l: Tree<T>, old_: Node<T>, red: bool, r: Tree<T>, s: Node<T>)
    requires Apart(c, Bin(l, old_, red, r)) && s !in CNodes(c) + Nodes(Bin(l, old_, red, r))
    ensures var changed := {old_, s} + RootNode(l) + RootNode(r) + Owner(c);
      changed - RootNode(l) !! Nodes(l) && changed - RootNode(r) !! Nodes(r) && changed - Owner(c) !! CNodes(c)
    ensures Distinct(l) && Distinct(r) && CDistinct(c) && Apart(c, Bin(l, s, red, r))
  {
    RootIn(l);
    RootIn(r);
    OwnerIn(c);
  }

  /** The entries that change when `s` takes over the entry of `old_` between `c`, `l` and `r`. */
  ghost predicate Replaced<T>(m: Mem<T>, m': Mem<T>, root: Node?<T>, root': Node?<T>, c: Ctx<T>, l: Tree<T>,
                              old_: Node<T>, r: Tree<T>, s: Node<T>) {
    && Same(m, m', {old_, s} + RootNode(l) + RootNode(r) + Owner(c))
    && s in m' && old_ in m && m'[s] == m[old_]
    && (l.Bin? && l.node in m ==> l.node in m' && m'[l.node] == m[l.node].(parent := s))
    && (r.Bin? && r.node in m ==> r.node in m' && m'[r.node] == m[r.node].(parent := s))
    && (!c.Top? && c.node in m ==> c.node in m' && m'[c.node] == Hung(c, m[c.node], s))
    && root' == if c.Top? then s else root
  }

  /** `s` takes the place, the links and the colour of `old_`. */
  lemma ReplaceAt<T>(m: Mem<T>, m': Mem<T>, root: Node?<T>, root': Node?<T>, c: Ctx<T>, l: Tree<T>, old_: Node<T>,
                     red: bool, r: Tree<T>, s: Node<T>)
    requires At(m, root, c, Bin(l, old_, red, r)) && s !in CNodes(c) + Nodes(Bin(l, old_, red, r))
    requires Replaced(m, m', root, root', c, l, old_, r, s)
    ensures At(m', root', c, Bin(l, s, red, r))
  {
    var changed := {old_, s} + RootNode(l) + RootNode(r) + Owner(c);
    ReplaceOutside(c, l, old_, red, r, s);
    hide Nodes, CNodes, Distinct, CDistinct, Holds, HoldsC, Same, Owner, Apart;
    HoldsBin(m, l, old_, red, r, ParentOf(c));
    HoldsBin(m', l, s, red, r, ParentOf(c));
    RootHeld(m, l, old_);
    RootHeld(m, r, old_);
    OwnerHeld(m, root, c, old_);
    Reparent(m, m', changed, l, old_, s);
    Reparent(m, m', changed, r, old_, s);
    Rehang(m, m', changed, root, root', c, old_, s);
  }

  // ----- contexts in contexts -----

  /** The context `d` of a subtree, continued by the context `c` of that subtree. */
  ghost function Over<T>(c: Ctx<T>, d: Ctx<T>): Ctx<T>
    decreases d
  {
    match d
    case Top => c
    case InLeft(up, n, red, s) => InLeft(Over(c, up), n, red, s)
    case InRight(up, n, red, s) => InRight(Over(c, up), n, red, s)
  }

  lemma {:induction false} OverTop<T>(d: Ctx<T>)
    ensures Over(Top, d) == d
  {
    if !d.Top? { OverTop(d.up); }
  }

  lemma {:induction false} PlugOver<T>(c: Ctx<T>, d: Ctx<T>, t: Tree<T>)
    ensures Plug(Over(c, d), t) == Plug(c, Plug(d, t))
    decreases d
  {
    match d
    case Top =>
    case InLeft(up, n, red, s) => PlugOver(c, up, Bin(t, n, red, s));
    case InRight(up, n, red, s) => PlugOver(c, up, Bin(s, n, red, t));
  }

  lemma {:induction false} StepOver<T>(m: Mem<T>, root: Node?<T>, c: Ctx<T>, d: Ctx<T>, t: Tree<T>)
    ensures At(m, root, Over(c, d), t) <==> At(m, root, c, Plug(d, t))
    decreases d
  {
    match d
    case Top =>
    case InLeft(up, n, red, s) =>
      StepLeft(m, root, Over(c, up), t, n, red, s);
      StepOver(m, root, c, up, Bin(t, n, red, s));
    case InRight(up, n, red, s) =>
      StepRight(m, root, Over(c, up), s, n, red, t);
      StepOver(m, root, c, up, Bin(s, n, red, t));
  }

  lemma {:induction false} BeforeOver<T>(c: Ctx<T>, d: Ctx<T>)
    ensures Before(Over(c, d)) == Before(c) + Before(d)
    ensures After(Over(c, d)) == After(d) + After(c)
    decreases d
  {
    if !d.Top? { BeforeOver(c, d.up); }
  }

  /** Colours do not depend on which node carries them. */
  lemma {:induction false} FitsRename<T>(c: Ctx<T>, d: Ctx<T>, x: Node<T>, y: Node<T>, red: bool, l: Tree<T>, h: nat)
    ensures Fits(Over(InRight(c, x, red, l), d), h) <==> Fits(Over(InRight(c, y, red, l), d), h)
    ensures HoleUnderRed(Over(InRight(c, x, red, l), d)) <==> HoleUnderRed(Over(InRight(c, y, red, l), d))
    decreases d
  {
    if !d.Top? {
      FitsRename(c, d.up, x, y, red, l, h);
      FitsRename(c, d.up, x, y, red, l, h + 1);
    }
  }

  // ----- order-preserving moves -----

  lemma RotateInorder<T>(a: Tree<T>, x: Node<T>, b: Tree<T>, y: Node<T>, d: Tree<T>, r1: bool, r2: bool, r3: bool,
                         r4: bool)
    ensures Inorder(Bin(a, x, r1, Bin(b, y, r2, d))) == Inorder(Bin(Bin(a, x, r3, b), y, r4, d))
  {
    assert Inorder(a) + [x] + (Inorder(b) + [y] + Inorder(d)) == (Inorder(a) + [x] + Inorder(b)) + [y] + Inorder(d);
  }

  lemma {:induction false} PlugInorder<T>(c: Ctx<T>, t: Tree<T>, t': Tree<T>)
    requires Inorder(t) == Inorder(t')
    ensures Inorder(Plug(c, t)) == Inorder(Plug(c, t'))
    decreases c
  {
    match c
    case Top =>
    case InLeft(up, n, red, s) => PlugInorder(up, Bin(t, n, red, s), Bin(t', n, red, s));
    case InRight(up, n, red, s) => PlugInorder(up, Bin(s, n, red, t), Bin(s, n, red, t'));
  }

  lemma {:induction false} PlugNodes<T>(c: Ctx<T>, t: Tree<T>)
    ensures Nodes(Plug(c, t)) == CNodes(c) + Nodes(t)
    ensures Apart(c, t) <==> Distinct(Plug(c, t))
    decreases c
  {
    match c
    case Top =>
    case InLeft(up, n, red, s) => PlugNodes(up, Bin(t, n, red, s));
    case InRight(up, n, red, s) => PlugNodes(up, Bin(s, n, red, t));
  }

  /** The colour invariant of the whole tree from that of the focus and its context. */
  lemma {:induction false} PlugRB<T>(c: Ctx<T>, t: Tree<T>, h: nat) returns (H: nat)
    requires RB(t, h) && Fits(c, h)
    requires HoleUnderRed(c) ==> !IsRed(t)
    ensures RB(Plug(c, t), H)
    ensures !c.Top? || !IsRed(t) ==> !IsRed(Plug(c, t))
    ensures t.Bin? ==> Plug(c, t).Bin?
    decreases c
  {
    match c
    case Top => H := h;
    case InLeft(up, n, red, s) => H := PlugRB(up, Bin(t, n, red, s), if red then h else h + 1);
    case InRight(up, n, red, s) => H := PlugRB(up, Bin(s, n, red, t), if red then h else h + 1);
  }

  /** The converse: any place in a red-black tree is a focus that fits its context. */
  lemma {:induction false} UnplugRB<T>(c: Ctx<T>, t: Tree<T>, H: nat) returns (h: nat)
    requires RB(Plug(c, t), H) && !IsRed(Plug(c, t))
    ensures RB(t, h) && Fits(c, h)
    ensures c.Top? || HoleUnderRed(c) ==> !IsRed(t)
    decreases c
  {
    match c
    case Top => h := H;
    case InLeft(up, n, red, s) => h := UnplugRB(up, Bin(t, n, red, s), H); h := if red then h else h - 1;
    case InRight(up, n, red, s) => h := UnplugRB(up, Bin(s, n, red, t), H); h := if red then h else h - 1;
  }

  ghost function Elems<T>(s: seq<Node<T>>): set<Node<T>> {
    set n | n in s
  }

  lemma {:induction false} NodesAreInorder<T>(t: Tree<T>)
    ensures Nodes(t) == Elems(Inorder(t))
  {
    if t.Bin? { NodesAreInorder(t.left); NodesAreInorder(t.right); }
  }

  lemma SameNodes<T>(t: Tree<T>, t': Tree<T>)
    requires Inorder(t) == Inorder(t')
    ensures Nodes(t) == Nodes(t')
  {
    NodesAreInorder(t);
    NodesAreInorder(t');
  }
}
