/** The range scan, whose callbacks may delete any node and start scans of their own. */
module RedBlackScan {
  import opened KeyOrder
  import opened RedBlackShape
  import opened RedBlackHeap
  import opened RedBlackSearch
  import opened RedBlackWalk
  import opened RedBlackRemove
  import opened RedBlackScanMeaning

  // ----- cursors -----

  /** `y` is the least node of `now` that is not below `x`. */
  ghost predicate Moved<T>(now: seq<Node<T>>, x: Node?<T>, y: Node?<T>) {
    && (x == null ==> y == null)
    && (y != null ==> x != null && y in now && !Less(y.key, x.key))
    && (x != null ==> forall n :: n in now && !Less(n.key, x.key) ==> y != null && !Less(n.key, y.key))
  }

  lemma NotLessTransitive(a: string, b: string, c: string)
    requires !Less(a, b) && !Less(b, c)
    ensures !Less(a, c)
  {
    Antisymmetric(a, b);
    Antisymmetric(b, c);
    if Less(a, c) { Transitive(b, a, c); }
  }

  lemma MovedTwice<T>(s1: seq<Node<T>>, s2: seq<Node<T>>, x: Node?<T>, y: Node?<T>, z: Node?<T>)
    requires Elems(s2) <= Elems(s1) && Moved(s1, x, y) && Moved(s2, y, z)
    ensures Moved(s2, x, z)
  {
    hide Less;
    if z != null { NotLessTransitive(z.key, y.key, x.key); }
    forall n | n in s2 && x != null && !Less(n.key, x.key) ensures z != null && !Less(n.key, z.key) {
      assert n in Elems(s2);
      assert n in s1;
    }
  }

  lemma NotBelowItself(a: string)
    ensures !Less(a, a)
  {
    Antisymmetric(a, a);
  }

  lemma MovedByNothing<T>(s: seq<Node<T>>, x: Node?<T>)
    requires x != null ==> x in s
    ensures Moved(s, x, x)
  {
    if x != null { NotBelowItself(x.key); }
  }

  /** In a sorted sequence the successor is the least node above. */
  lemma NextIsLeast<T>(s: seq<Node<T>>, x: Node<T>, y: Node?<T>)
    requires Sorted(s) && IsNext(s, x, y)
    ensures y != null ==> y in s && Less(x.key, y.key)
    ensures forall n :: n in s && Less(x.key, n.key) ==> y != null && !Less(n.key, y.key)
    ensures forall n :: n in s && n != x && !Less(n.key, x.key) ==> Less(x.key, n.key)
    ensures forall n :: n in s && y != null && Less(n.key, y.key) ==> n == x || Less(n.key, x.key)
    ensures y == null ==> forall n :: n in s ==> n == x || Less(n.key, x.key)
  {
    var k :| NextAt(s, k, x, y);
    forall n | n in s
      ensures n != x && !Less(n.key, x.key) ==> Less(x.key, n.key)
      ensures Less(x.key, n.key) ==> y != null && !Less(n.key, y.key)
      ensures (y != null ==> Less(n.key, y.key)) ==> n == x || Less(n.key, x.key)
    {
      var i :| 0 <= i < |s| && s[i] == n;
      Antisymmetric(n.key, x.key);
      Antisymmetric(n.key, n.key);
      if k + 1 < |s| && i > k + 1 { Antisymmetric(y.key, n.key); }
    }
  }

  lemma AdvancedMoves<T>(was: seq<Node<T>>, now: seq<Node<T>>, elm: Node<T>, x: Node?<T>, y: Node?<T>)
    requires Sorted(was) && Elems(now) == Elems(was) - {elm} && elm in was && (x != null ==> x in was)
    requires Advanced(was, elm, x, y)
    ensures Moved(now, x, y)
  {
    hide Less;
    assert forall n :: n in now <==> n in Elems(now);
    assert forall n :: n in was <==> n in Elems(was);
    if x == elm {
      NextIsOther(was, elm, y);
      NextIsLeast(was, elm, y);
      if y != null { LessNotBack(elm.key, y.key); }
    } else if x != null {
      NotBelowItself(x.key);
    }
  }

  lemma LessNotBack(a: string, b: string)
    ensures Less(a, b) ==> !Less(b, a)
  {
    Antisymmetric(a, b);
  }

  // ----- the cursor and the meaning of a scan -----

  lemma OneOrder<T>(s: seq<Node<T>>, a: Node<T>, b: Node<T>)
    requires Sorted(s) && a in s && b in s && a != b
    ensures Less(a.key, b.key) || Less(b.key, a.key)
  {
  }

  lemma LessThenNotLess(a: string, b: string, c: string)
    requires Less(a, b) && !Less(c, b)
    ensures Less(a, c)
  {
    Antisymmetric(b, c);
    Transitive(a, b, c);
  }

  /**
   * Whatever the callback deleted, the cursor that stood at the successor of `best` stands at the first node left
   * beyond `best`.
   */
  lemma CursorIsFirst<T>(s: seq<Node<T>>, best: Node<T>, next: Node?<T>, s2: seq<Node<T>>, c2: Node?<T>)
    requires Sorted(s) && Sorted(s2) && Elems(s2) <= Elems(s) && IsNext(s, best, next) && Moved(s2, next, c2)
    ensures c2 == FirstAbove(s2, best.key)
  {
    hide Less;
    NextIsLeast(s, best, next);
    FirstAboveIsLeast(s2, best.key);
    var a := FirstAbove(s2, best.key);
    if c2 != null {
      LessThenNotLess(best.key, next.key, c2.key);
    }
    if a != null {
      assert a in Elems(s2);
      assert a in Elems(s);
    }
  }

  lemma LeastIsFirst<T>(s: seq<Node<T>>, f: ScanCmp, best: Node?<T>)
    requires Sorted(s) && LeastMatch(f, s, best)
    ensures best == FirstIn(s, f)
  {
    hide Less;
    FirstInIsLeast(s, f);
  }

  /** A deletion takes out exactly the node that carries the key. */
  lemma RemovedIsWithout<T>(was: seq<Node<T>>, hit: Node<T>, now: seq<Node<T>>, key: string)
    requires Sorted(was) && hit in was && StrCaseCmp(key, hit.key) == 0 && Removed(was, hit, now)
    ensures now == WithoutKey(was, key)
  {
    OnlyOne(was, hit, key);
    SortedDistinct(was);
    var k :| 0 <= k < |was| && was[k] == hit && now == was[..k] + was[k + 1..];
    assert forall i :: 0 <= i < |was| && i != k ==> StrCaseCmp(key, was[i].key) != 0;
    WithoutOne(was, key, k);
  }

  lemma {:induction false} WithoutOne<T>(s: seq<Node<T>>, key: string, k: nat)
    requires k < |s| && StrCaseCmp(key, s[k].key) == 0
    requires forall i :: 0 <= i < |s| && i != k ==> StrCaseCmp(key, s[i].key) != 0
    ensures WithoutKey(s, key) == s[..k] + s[k + 1..]
  {
    if k == 0 {
      WithoutNone(s[1..], key);
      assert s[..0] + s[1..] == s[1..];
    } else {
      WithoutOne(s[1..], key, k - 1);
      assert [s[0]] + (s[1..][..k - 1] + s[1..][k..]) == s[..k] + s[k + 1..];
    }
  }

  lemma {:induction false} WithoutNone<T>(s: seq<Node<T>>, key: string)
    requires forall i :: 0 <= i < |s| ==> StrCaseCmp(key, s[i].key) != 0
    ensures WithoutKey(s, key) == s
  {
    if s != [] {
      WithoutNone(s[1..], key);
    }
  }

  // ----- the scan -----

  /** The smallest matching node. */
  ghost predicate LeastMatch<T>(f: ScanCmp, s: seq<Node<T>>, best: Node?<T>) {
    if best == null then forall n :: n in s ==> !In(f, n.key)
    else best in s && In(f, best.key) && forall n :: n in s && Less(n.key, best.key) ==> !In(f, n.key)
  }

  /** Everything left of the hole is below the range; the best match so far, if any, is the first on
      the right, else everything there is beyond. */
  ghost predicate Closing<T>(f: ScanCmp, b: seq<Node<T>>, best: Node?<T>, a: seq<Node<T>>) {
    && (forall n :: n in b ==> f(n.key) < 0)
    && (if best == null then forall n :: n in a ==> f(n.key) > 0 else a != [] && a[0] == best && In(f, best.key))
  }

  lemma ClosingStep<T>(f: ScanCmp, c: Ctx<T>, t: Tree<T>, best: Node?<T>)
    requires t.Bin? && Sorted(Inorder(Plug(c, t))) && Closing(f, Before(c), best, After(c))
    ensures f(t.node.key) < 0 ==> Closing(f, Before(c) + Inorder(t.left) + [t.node], best, After(c))
    ensures f(t.node.key) > 0 ==> Closing(f, Before(c), best, [t.node] + Inorder(t.right) + After(c))
    ensures f(t.node.key) == 0 ==> Closing(f, Before(c), t.node, [t.node] + Inorder(t.right) + After(c))
  {
    var n, l, r, a := t.node, Inorder(t.left), Inorder(t.right), After(c);
    FocusAt(c, t);
    SortedJoin(Before(c) + l, n, r + a);
    forall x | x in l ensures Less(x.key, n.key) { assert x in Before(c) + l; }
    forall x: Node<T> | x in r + a ensures Less(n.key, x.key) { }
    if best != null { assert a[0] in r + a; }
  }

  lemma ClosingDone<T>(f: ScanCmp, c: Ctx<T>, best: Node?<T>)
    requires Sorted(Inorder(Plug(c, Leaf))) && Closing(f, Before(c), best, After(c))
    ensures LeastMatch(f, Inorder(Plug(c, Leaf)), best)
  {
    var b, a := Before(c), After(c);
    InorderPlug(c, Leaf);
    assert b + [] + a == b + a;
    SortedParts(b, a);
    if best != null { HeadIsLeast(a); }
    forall n: Node<T> | n in b + a && (best == null || Less(n.key, best.key)) ensures !In(f, n.key) { }
  }

  lemma HeadIsLeast<T>(a: seq<Node<T>>)
    requires Sorted(a) && a != []
    ensures forall n :: n in a ==> !Less(n.key, a[0].key)
  {
    forall i | 0 <= i < |a| ensures !Less(a[i].key, a[0].key) { Antisymmetric(a[i].key, a[0].key); }
  }

  method FirstMatch<T>(head: Head<T>, f: ScanCmp) returns (best: Node?<T>)
    requires head.Valid()
    ensures LeastMatch(f, head.Contents(), best)
  {
    var tmp := head.root;
    best := null;
    ghost var c, t := Top, head.shape;
    head.Look(c, t);
    while tmp != null
      invariant head.Focus(c, t) && tmp == Ref(t) && Plug(c, t) == head.shape
      invariant Closing(f, Before(c), best, After(c))
      decreases t
    {
      head.Look(c, t);
      ClosingStep(f, c, t, best);
      var comp := f(tmp.key);
      if comp < 0 {
        head.Right(c, t.left, t.node, t.red, t.right);
        tmp := tmp.right;
        c, t := InRight(c, t.node, t.red, t.left), t.right;
      } else {
        if comp == 0 {
          best := tmp;
        }
        head.Left(c, t.left, t.node, t.red, t.right);
        tmp := tmp.left;
        c, t := InLeft(c, t.node, t.red, t.right), t.left;
      }
      head.Look(c, t);
    }
    ClosingDone(f, c, best);
  }

  /** scan_info_link. */
  method ScanLink<T>(head: Head<T>, info: ScanInfo<T>)
    requires head.Linked() && head.CursorsIn() && info !in head.scans && (info.node != null ==> info.node in head.nodes)
    modifies head`inprog, head`scans, info`link
    ensures head.Linked() && head.CursorsIn() && head.scans == [info] + old(head.scans)
  {
    info.link := head.inprog;
    head.inprog := info;
    ghost var was := head.scans;
    head.scans := [info] + was;
    forall i | 0 <= i < |head.scans| ensures head.scans[i].link == Following(head.scans, i) {
      if i > 0 { assert was[i - 1].link == Following(was, i - 1); }
    }
  }

  /** The scan in front of `info` in the list, if there is one. */
  method ScanBefore<T>(head: Head<T>, info: ScanInfo<T>, ghost k: nat) returns (before: ScanInfo?<T>)
    requires head.Linked() && k < |head.scans| && info == head.scans[k]
    ensures before == if k == 0 then null else head.scans[k - 1]
  {
    ghost var i := 0;
    var at := head.inprog;
    before := null;
    while at != info
      invariant i <= k && at == head.scans[i] && before == (if i == 0 then null else head.scans[i - 1])
      decreases k - i
    {
      assert head.scans[i].link == Following(head.scans, i);
      before, at := at, at.link;
      i := i + 1;
    }
  }

  /** scan_info_done: the scan leaves the list, wherever it is in it. */
  method ScanDone<T>(head: Head<T>, info: ScanInfo<T>, ghost k: nat)
    requires head.Linked() && head.CursorsIn() && k < |head.scans| && info == head.scans[k]
    modifies head`inprog, head`scans, head.scans`link
    ensures head.Linked() && head.CursorsIn() && head.scans == old(head.scans)[..k] + old(head.scans)[k + 1..]
  {
    hide *;
    ghost var was := head.scans;
    var before := ScanBefore(head, info, k);
    LinksAndCursors(head);
    if before == null {
      head.inprog := info.link;
    } else {
      before.link := info.link;
    }
    head.scans := was[..k] + was[k + 1..];
    forall i | 0 <= i < |was| && i != k - 1
      ensures was[i].link == Following(was, i)
    {
      assert k > 0 ==> was[i] != was[k - 1];
    }
    StillLinked(head, was, k);
    FewerCursors(head, was, k);
  }

  lemma LinksAndCursors<T>(head: Head<T>)
    requires head.Linked() && head.CursorsIn()
    ensures head.inprog == if head.scans == [] then null else head.scans[0]
    ensures forall i :: 0 <= i < |head.scans| ==> head.scans[i].link == Following(head.scans, i)
    ensures forall i, j :: 0 <= i < j < |head.scans| ==> head.scans[i] != head.scans[j]
    ensures forall i :: 0 <= i < |head.scans| && head.scans[i].node != null ==> head.scans[i].node in head.nodes
  {
  }

  lemma FewerCursors<T>(head: Head<T>, was: seq<ScanInfo<T>>, k: nat)
    requires k < |was| && head.scans == was[..k] + was[k + 1..]
    requires forall i :: 0 <= i < |was| && was[i].node != null ==> was[i].node in head.nodes
    ensures head.CursorsIn()
  {
    forall s | s in head.scans && s.node != null ensures s.node in head.nodes {
      var i :| 0 <= i < |head.scans| && head.scans[i] == s;
      assert was[if i < k then i else i + 1] == s;
    }
  }

  /** A list of scans from which one is left out. */
  lemma StillLinked<T>(head: Head<T>, was: seq<ScanInfo<T>>, k: nat)
    requires k < |was| && head.scans == was[..k] + was[k + 1..]
    requires forall i, j :: 0 <= i < j < |was| ==> was[i] != was[j]
    requires forall i :: 0 <= i < |was| && i != k - 1 ==> was[i].link == Following(was, i)
    requires if k == 0 then head.inprog == Following(was, 0)
      else (head.inprog == was[0] && was[k - 1].link == Following(was, k))
    ensures head.Linked()
  {
    forall j | 0 <= j < |head.scans|
      ensures head.scans[j].link == Following(head.scans, j)
    {
      var o := if j < k then j else j + 1;
      assert head.scans[j] == was[o];
    }
  }

  /** A tree with its scans at one moment. */
  datatype State<T> = State(contents: seq<Node<T>>, scans: seq<ScanInfo<T>>, cursors: map<ScanInfo<T>, Node?<T>>)

  ghost function Now<T>(head: Head<T>): State<T>
    reads head`shape, head`scans, head.scans`node
  {
    StateOf(head, head.scans)
  }

  ghost function StateOf<T>(head: Head<T>, scans: seq<ScanInfo<T>>): State<T>
    reads head`shape, scans`node
  {
    State(head.Contents(), scans, map s | s in scans :: s.node)
  }

  /** From `a` to `b` only removals happened: the same scans are in progress, and every cursor has
      moved to the first node that is left at or after where it stood. */
  ghost predicate OnlyRemoved<T>(a: State<T>, b: State<T>) {
    && b.scans == a.scans && Elems(b.contents) <= Elems(a.contents)
    && forall s :: s in a.scans ==> s in a.cursors && s in b.cursors && Moved(b.contents, a.cursors[s], b.cursors[s])
  }

  lemma OnlyRemovedTwice<T>(a: State<T>, b: State<T>, c: State<T>)
    requires OnlyRemoved(a, b) && OnlyRemoved(b, c)
    ensures OnlyRemoved(a, c)
  {
    forall s | s in a.scans ensures s in c.cursors && Moved(c.contents, a.cursors[s], c.cursors[s]) {
      MovedTwice(b.contents, c.contents, a.cursors[s], b.cursors[s], c.cursors[s]);
    }
  }

  ghost predicate Ok<T>(head: Head<T>)
    reads head, head.nodes, head.scans
  {
    head.Valid() && head.ScansOk()
  }

  lemma NothingRemoved<T>(head: Head<T>)
    requires Ok(head)
    ensures OnlyRemoved(Now(head), Now(head))
  {
    NodesAreInorder(head.shape);
    forall s | s in head.scans ensures Moved(head.Contents(), s.node, s.node) {
      MovedByNothing(head.Contents(), s.node);
    }
  }

  method DeleteNode<T>(head: Head<T>, hit: Node<T>)
    requires Ok(head) && hit in head.nodes
    modifies head, head.nodes, head.scans
    ensures Ok(head) && OnlyRemoved(old(Now(head)), Now(head)) && head.nodes == old(head.nodes) - {hit}
    ensures Removed(old(head.Contents()), hit, head.Contents())
  {
    NodesAreInorder(head.shape);
    ghost var was := head.Contents();
    var _ := Remove(head, hit);
    NodesAreInorder(head.shape);
    hide Moved, Advanced, Sorted, RedBlack, Removed, Head.Focus;
    forall s | s in head.scans ensures Moved(head.Contents(), old(s.node), s.node) {
      AdvancedMoves(was, head.Contents(), hit, old(s.node), s.node);
    }
  }

  /** A callback's deletion of whatever carries the name now. */
  method DeleteKey<T>(head: Head<T>, key: string)
    requires Ok(head)
    modifies head, head.nodes, head.scans
    ensures Ok(head) && OnlyRemoved(old(Now(head)), Now(head)) && head.nodes <= old(head.nodes)
    ensures head.Contents() == WithoutKey(old(head.Contents()), key)
  {
    hide Less, Sorted, RedBlack, Removed, Head.Focus, OnlyRemoved;
    var hit, _ := Find(head, key, (n: Node<T>) => StrCaseCmp(key, n.key));
    NodesAreInorder(head.shape);
    ghost var was := head.Contents();
    if hit != null {
      assert hit in Elems(was);
      DeleteNode(head, hit);
      RemovedIsWithout(was, hit, head.Contents(), key);
    } else {
      NothingRemoved(head);
      assert forall i :: 0 <= i < |was| ==> was[i] in Elems(was);
      WithoutNone(was, key);
    }
  }

  lemma OnlyOne<T>(s: seq<Node<T>>, hit: Node<T>, key: string)
    requires Sorted(s) && hit in s && StrCaseCmp(key, hit.key) == 0
    ensures forall n :: n in s && n != hit ==> StrCaseCmp(key, n.key) != 0
  {
    forall n | n in s && n != hit ensures StrCaseCmp(key, n.key) != 0 {
      OneOrder(s, n, hit);
      Antisymmetric(n.key, hit.key);
      Antisymmetric(key, hit.key);
      Antisymmetric(key, n.key);
      if StrCaseCmp(key, n.key) == 0 {
        if Less(n.key, hit.key) { Transitive(n.key, hit.key, key); } else { Transitive(hit.key, n.key, key); }
      }
    }
  }

  /** One callback: exactly what its plan says is gone from the tree. */
  method RunVisit<T>(head: Head<T>, v: Visit)
    requires Ok(head)
    modifies head, head.nodes, head.scans
    ensures Ok(head) && OnlyRemoved(old(Now(head)), Now(head)) && head.nodes <= old(head.nodes)
    ensures head.Contents() == AfterVisit(old(head.Contents()), v)
    decreases v
  {
    hide Ok, AfterActs, AfterAct, Moved;
    NothingRemoved(head);
    NoActs(head.Contents());
    for i := 0 to |v.acts|
      invariant Ok(head) && OnlyRemoved(old(Now(head)), Now(head)) && head.nodes <= old(head.nodes)
      invariant head.Contents() == AfterActs(old(head.Contents()), v.acts[..i])
    {
      ghost var mid := Now(head);
      OneMoreAct(old(head.Contents()), v.acts, i);
      match v.acts[i] {
        case Delete(key) => DeleteKey(head, key);
        case Nested(cmp, plan) => var _, _ := Scan(head, cmp, plan);
      }
      OnlyRemovedTwice(old(Now(head)), mid, Now(head));
    }
    assert v.acts[..|v.acts|] == v.acts;
  }

  lemma NoActs<T>(s: seq<Node<T>>)
    ensures forall acts: seq<Act> :: AfterActs(s, acts[..0]) == s
  {
  }

  lemma OneMoreAct<T>(s: seq<Node<T>>, acts: seq<Act>, i: nat)
    requires i < |acts|
    ensures var mid := AfterActs(s, acts[..i]);
      AfterActs(s, acts[..i + 1]) ==
        match acts[i]
        case Delete(key) => WithoutKey(mid, key)
        case Nested(cmp, plan) => ScanOf(mid, cmp, plan).after
  {
    assert acts[..i + 1][..i] == acts[..i];
  }

  /** The k-th callback of a run. */
  method Callback<T>(head: Head<T>, plan: Plan, k: nat) returns (comp: int)
    requires Ok(head)
    modifies head, head.nodes, head.scans
    ensures Ok(head) && OnlyRemoved(old(Now(head)), Now(head)) && head.nodes <= old(head.nodes)
    ensures comp == VisitAt(plan, k).result && head.Contents() == Left(old(head.Contents()), plan, k)
    decreases plan, 0
  {
    NothingRemoved(head);
    comp := VisitAt(plan, k).result;
    if k < |plan.visits| {
      RunVisit(head, plan.visits[k]);
    }
  }

  /** The nodes a scan standing at `best` can still meet. */
  ghost function Ahead<T>(s: set<Node<T>>, best: Node?<T>): set<Node<T>> {
    set n | n in s && best != null && !Less(n.key, best.key)
  }

  lemma AheadShrinks<T>(s: set<Node<T>>, best: Node<T>, s2: set<Node<T>>, best2: Node<T>)
    requires s2 <= s && best in s && Less(best.key, best2.key)
    ensures Ahead(s2, best2) < Ahead(s, best)
  {
    hide Less;
    NotBelowItself(best.key);
    LessNotBack(best.key, best2.key);
    forall n | n in Ahead(s2, best2) ensures n in Ahead(s, best) { NotLessTransitive(n.key, best2.key, best.key); }
    assert best in Ahead(s, best) && best !in Ahead(s2, best2);
  }

  /** The scan from `best` on is what is left of the whole scan after the callbacks in `log`. */
  ghost predicate Ongoing<T>(whole: Trace<T>, log: seq<Node<T>>, count: int, rest: Trace<T>) {
    whole.log == log + rest.log && whole.after == rest.after && count >= 0
    && whole.count == if rest.count < 0 then rest.count else count + rest.count
  }

  /** What a scan returns is its meaning. */
  ghost predicate Result<T>(whole: Trace<T>, log: seq<Node<T>>, count: int, after: seq<Node<T>>) {
    whole.log == log && whole.count == count && whole.after == after
  }

  /** The loop of RB_SCAN goes round once. */
  lemma Turn<T>(whole: Trace<T>, f: ScanCmp, plan: Plan, s: seq<Node<T>>, best: Node<T>, log: seq<Node<T>>, count: int)
    returns (next: Node?<T>)
    requires Ongoing(whole, log, count, ScanFrom(s, f, plan, |log|, best))
    ensures next == FirstAbove(Left(s, plan, |log|), best.key)
    ensures var v, s2 := VisitAt(plan, |log|), Left(s, plan, |log|);
      if v.result < 0 then Result(whole, log + [best], v.result, s2)
      else if next == null || !In(f, next.key) then Result(whole, log + [best], count + v.result, s2)
      else Ongoing(whole, log + [best], count + v.result, ScanFrom(s2, f, plan, |log| + 1, next))
  {
    hide ScanFrom, Left;
    next := ScanStep(s, f, plan, |log|, best);
    var v := VisitAt(plan, |log|);
    if v.result >= 0 && next != null && In(f, next.key) {
      var r := ScanFrom(Left(s, plan, |log|), f, plan, |log| + 1, next);
      assert log + ([best] + r.log) == (log + [best]) + r.log;
    }
  }

  // ----- the loop -----

  /** Meanwhile the tree has only lost nodes, and `info` is the innermost scan. */
  ghost predicate InScan<T>(head: Head<T>, info: ScanInfo<T>, start: State<T>, n0: set<Node<T>>)
    reads head, head.nodes, head.scans, start.scans
  {
    && Ok(head) && head.scans == [info] + start.scans && head.nodes <= n0
    && OnlyRemoved(start, StateOf(head, start.scans))
  }

  /** The callback on `best`, and where the cursor stands after it. */
  method ScanCall<T>(head: Head<T>, plan: Plan, info: ScanInfo<T>, k: nat, ghost start: State<T>,
                     ghost n0: set<Node<T>>)
    returns (comp: int)
    requires InScan(head, info, start, n0)
    modifies head, head.nodes, head.scans
    ensures InScan(head, info, start, n0) && comp == VisitAt(plan, k).result
    ensures head.nodes <= old(head.nodes) && head.scans == old(head.scans)
    ensures head.Contents() == Left(old(head.Contents()), plan, k) && Elems(head.Contents()) == head.nodes
    ensures Sorted(head.Contents()) && Sorted(old(head.Contents()))
    ensures Moved(head.Contents(), old(info.node), info.node)
    decreases plan, 1
  {
    ghost var mid := StateOf(head, start.scans);
    assert forall x :: x in start.scans ==> x in head.scans;
    assert head.scans[0] == info;
    comp := Callback(head, plan, k);
    NodesAreInorder(head.shape);
    OnlyRemovedTwice(start, mid, StateOf(head, start.scans));
  }

  /** The scan's own cursor goes on to the successor of the node it is about to visit. */
  method AdvanceOwn<T>(head: Head<T>, info: ScanInfo<T>, best: Node<T>, ghost start: State<T>, ghost n0: set<Node<T>>)
    requires InScan(head, info, start, n0) && best in head.nodes
    modifies info`node
    ensures InScan(head, info, start, n0) && IsNext(head.Contents(), best, info.node)
  {
    hide Head.Focus, OnlyRemoved, IsNext, Sorted, RedBlack, Nodes;
    var next := Next(head, best);
    forall j | 0 <= j < |start.scans| ensures start.scans[j] != info { assert head.scans[j + 1] == start.scans[j]; }
    info.node := next;
    assert StateOf(head, start.scans) == old(StateOf(head, start.scans));
  }

  /** One turn: the callback on `best`, and whether there is a node to go on with. */
  method ScanTurn<T>(head: Head<T>, f: ScanCmp, plan: Plan, info: ScanInfo<T>, best: Node<T>, n: nat, count: int,
                     ghost start: State<T>, ghost n0: set<Node<T>>, ghost log: seq<Node<T>>, ghost whole: Trace<T>)
    returns (stop: bool, best': Node<T>, count': int)
    requires InScan(head, info, start, n0) && best in head.nodes && info in head.scans && n == |log|
    requires IsNext(head.Contents(), best, info.node)
    requires Ongoing(whole, log, count, ScanFrom(head.Contents(), f, plan, n, best))
    modifies head, head.nodes, head.scans
    ensures InScan(head, info, start, n0) && head.nodes <= old(head.nodes) && head.scans == old(head.scans)
    ensures stop ==> Result(whole, log + [best], count', head.Contents())
    ensures !stop ==> best' in head.nodes && IsNext(head.Contents(), best', info.node)
    ensures !stop ==> Ongoing(whole, log + [best], count', ScanFrom(head.Contents(), f, plan, n + 1, best'))
    ensures !stop ==> Ahead(head.nodes, best') < Ahead(old(head.nodes), best)
    decreases plan, 2
  {
    hide InScan, Ongoing, Result, IsNext, ScanFrom, Left, Sorted, FirstAbove, Moved, Less;
    ghost var s, next, nodes := head.Contents(), info.node, head.nodes;
    ghost var first := Turn(whole, f, plan, s, best, log, count);
    var comp := ScanCall(head, plan, info, n, start, n0);
    CursorIsFirst(s, best, next, head.Contents(), info.node);
    stop, best', count' := true, best, if comp < 0 then comp else count + comp;
    if comp >= 0 && info.node != null && f(info.node.key) == 0 {
      assert info.node in Elems(head.Contents());
      AheadShrinks(nodes, best, head.nodes, info.node);
      stop, best' := false, info.node;
      AdvanceOwn(head, info, best', start, n0);
    }
  }

  method ScanLoop<T>(head: Head<T>, f: ScanCmp, plan: Plan, info: ScanInfo<T>, best0: Node<T>,
                     ghost start: State<T>, ghost n0: set<Node<T>>)
    returns (count: int, log: seq<Node<T>>)
    requires InScan(head, info, start, n0) && best0 in head.nodes && info in head.scans
    requires IsNext(head.Contents(), best0, info.node)
    modifies head, head.nodes, head.scans
    ensures InScan(head, info, start, n0) && head.nodes <= old(head.nodes)
    ensures Result(ScanFrom(old(head.Contents()), f, plan, 0, best0), log, count, head.Contents())
    decreases plan, 3
  {
    hide InScan, Ongoing, Result, IsNext, ScanFrom;
    ghost var whole := ScanFrom(head.Contents(), f, plan, 0, best0);
    var best: Node<T>, stop := best0, false;
    count, log := 0, [];
    AtStart(whole);
    while !stop
      invariant InScan(head, info, start, n0) && head.nodes <= old(head.nodes) && head.scans == old(head.scans)
      invariant stop ==> Result(whole, log, count, head.Contents())
      invariant !stop ==> best in head.nodes && IsNext(head.Contents(), best, info.node)
      invariant !stop ==> Ongoing(whole, log, count, ScanFrom(head.Contents(), f, plan, |log|, best))
      decreases !stop, Ahead(head.nodes, best)
    {
      var next: Node<T>;
      stop, next, count := ScanTurn(head, f, plan, info, best, |log|, count, start, n0, log, whole);
      log, best := log + [best], next;
    }
  }

  lemma AtStart<T>(whole: Trace<T>)
    ensures Ongoing(whole, [], 0, whole)
  {
    assert [] + whole.log == whole.log;
  }

  method NewScan<T>(head: Head<T>, best: Node<T>) returns (info: ScanInfo<T>)
    requires Ok(head) && best in head.nodes
    modifies head`inprog, head`scans
    ensures fresh(info) && head.scans == [info] + old(head.scans) && head.ScansOk()
    ensures IsNext(head.Contents(), best, info.node)
  {
    var next := Next(head, best);
    hide Head.Valid, IsNext;
    info := new ScanInfo(next);
    ScanLink(head, info);
  }

  method EnterScan<T>(head: Head<T>, best: Node<T>) returns (info: ScanInfo<T>)
    requires Ok(head) && best in head.nodes
    modifies head`inprog, head`scans
    ensures fresh(info) && info in head.scans && InScan(head, info, old(Now(head)), head.nodes)
    ensures IsNext(head.Contents(), best, info.node)
  {
    NothingRemoved(head);
    hide Head.Valid, Head.ScansOk, OnlyRemoved, StateOf, IsNext;
    info := NewScan(head, best);
    assert head.scans[0] == info;
  }

  method LeaveScan<T>(head: Head<T>, info: ScanInfo<T>, ghost start: State<T>, ghost n0: set<Node<T>>)
    requires InScan(head, info, start, n0)
    modifies head`inprog, head`scans, head.scans`link
    ensures Ok(head) && OnlyRemoved(start, Now(head)) && head.nodes <= n0
  {
    hide *;
    BeforeLeaving(head, info, start, n0);
    assert head.scans[0] == info && head.scans[..0] + head.scans[1..] == start.scans;
    ghost var was := StateOf(head, start.scans);
    ScanDone(head, info, 0);
    assert StateOf(head, start.scans) == was;
    AfterLeaving(head, start);
  }

  lemma BeforeLeaving<T>(head: Head<T>, info: ScanInfo<T>, start: State<T>, n0: set<Node<T>>)
    requires InScan(head, info, start, n0)
    ensures head.Valid() && head.Linked() && head.CursorsIn() && head.scans == [info] + start.scans && head.nodes <= n0
    ensures OnlyRemoved(start, StateOf(head, start.scans))
  {
  }

  lemma AfterLeaving<T>(head: Head<T>, start: State<T>)
    requires head.Valid() && head.Linked() && head.CursorsIn() && head.scans == start.scans
    requires OnlyRemoved(start, StateOf(head, start.scans))
    ensures Ok(head) && OnlyRemoved(start, Now(head))
  {
  }

  /** The scan from its first node on, registered as in progress meanwhile. */
  method ScanOn<T>(head: Head<T>, f: ScanCmp, plan: Plan, best: Node<T>) returns (count: int, log: seq<Node<T>>)
    requires Ok(head) && best in head.nodes
    modifies head, head.nodes, head.scans
    ensures Ok(head) && OnlyRemoved(old(Now(head)), Now(head)) && head.nodes <= old(head.nodes)
    ensures Result(ScanFrom(old(head.Contents()), f, plan, 0, best), log, count, head.Contents())
    decreases plan, 4
  {
    ghost var start, n0 := Now(head), head.nodes;
    var info := EnterScan(head, best);
    hide Result, OnlyRemoved, Ok, InScan, ScanFrom;
    count, log := ScanLoop(head, f, plan, info, best, start, n0);
    LeaveScan(head, info, start, n0);
  }

  /**
   * RB_SCAN: what it calls back on, what it returns and what it leaves of the tree are its meaning, also when callbacks
   * delete nodes and start scans of their own; the scans around it are in progress as before.
   */
  method Scan<T>(head: Head<T>, f: ScanCmp, plan: Plan) returns (count: int, log: seq<Node<T>>)
    requires Ok(head)
    modifies head, head.nodes, head.scans
    ensures Ok(head) && OnlyRemoved(old(Now(head)), Now(head)) && head.nodes <= old(head.nodes)
    ensures Result(ScanOf(old(head.Contents()), f, plan), log, count, head.Contents())
    decreases plan, 5
  {
    hide ScanFrom, Sorted, LeastMatch, OnlyRemoved;
    var best := FirstMatch(head, f);
    LeastIsFirst(head.Contents(), f, best);
    if best != null {
      NodesAreInorder(head.shape);
      assert best in Elems(head.Contents());
      count, log := ScanOn(head, f, plan, best);
    } else {
      NothingRemoved(head);
      count, log := 0, [];
    }
  }
}
