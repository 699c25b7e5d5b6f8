/** The search loop shared by lookup and insertion, and what it knows about the order. */
module RedBlackSearch {
  import opened KeyOrder
  import opened RedBlackShape
  import opened RedBlackHeap
  import opened RedBlackBounds

  /** Every name in `s` is smaller (larger) than `key`. */
  ghost predicate AllBelow<T>(s: seq<Node<T>>, key: string) {
    forall i :: 0 <= i < |s| ==> Less(s[i].key, key)
  }

  ghost predicate AllAbove<T>(key: string, s: seq<Node<T>>) {
    forall i :: 0 <= i < |s| ==> Less(key, s[i].key)
  }

  /** Everything left of the hole is smaller than `key`, everything right of it larger. */
  ghost predicate Between<T>(c: Ctx<T>, key: string) {
    AllBelow(Before(c), key) && AllAbove(key, After(c))
  }

  lemma SortedParts<T>(a: seq<Node<T>>, b: seq<Node<T>>)
    ensures Sorted(a + b) ==> Sorted(a) && Sorted(b)
  {
    hide Less;
    var s := a + b;
    if Sorted(s) {
      forall i, j | 0 <= i < j < |a| ensures Less(a[i].key, a[j].key) { assert s[i] == a[i] && s[j] == a[j]; }
      forall i, j | 0 <= i < j < |b| ensures Less(b[i].key, b[j].key) {
        assert s[|a| + i] == b[i] && s[|a| + j] == b[j];
      }
    }
  }

  /** A key goes between what is smaller and what is larger. */
  lemma SortedJoin<T>(a: seq<Node<T>>, x: Node<T>, b: seq<Node<T>>)
    ensures Sorted(a + [x] + b) <==> Sorted(a) && Sorted(b) && AllBelow(a, x.key) && AllAbove(x.key, b)
  {
    hide Less;
    var s := a + [x] + b;
    if Sorted(s) {
      SortedParts(a, [x] + b);
      assert a + ([x] + b) == s;
      SortedParts([x], b);
      forall i | 0 <= i < |a| ensures Less(a[i].key, x.key) { assert s[i] == a[i] && s[|a|] == x; }
      forall i | 0 <= i < |b| ensures Less(x.key, b[i].key) { assert s[|a| + 1 + i] == b[i] && s[|a|] == x; }
    }
    if Sorted(a) && Sorted(b) && AllBelow(a, x.key) && AllAbove(x.key, b) {
      forall i, j | 0 <= i < j < |s| ensures Less(s[i].key, s[j].key) {
        JoinedPair(a, x, b, i, j);
      }
    }
  }

  lemma JoinedPair<T>(a: seq<Node<T>>, x: Node<T>, b: seq<Node<T>>, i: nat, j: nat)
    requires Sorted(a) && Sorted(b) && AllBelow(a, x.key) && AllAbove(x.key, b) && i < j < |a + [x] + b|
    ensures Less((a + [x] + b)[i].key, (a + [x] + b)[j].key)
  {
    if i < |a| && j > |a| { Transitive(a[i].key, x.key, b[j - |a| - 1].key); }
  }

  lemma StepBetween<T>(c: Ctx<T>, l: Tree<T>, n: Node<T>, red: bool, r: Tree<T>, key: string)
    requires Between(c, key) && Sorted(Inorder(Plug(c, Bin(l, n, red, r))))
    ensures Less(key, n.key) ==> Between(InLeft(c, n, red, r), key)
    ensures Less(n.key, key) ==> Between(InRight(c, n, red, l), key)
  {
    hide Less;
    InorderPlug(c, Bin(l, n, red, r));
    SortedParts(Before(c) + Inorder(Bin(l, n, red, r)), After(c));
    SortedParts(Before(c), Inorder(Bin(l, n, red, r)));
    SortedJoin(Inorder(l), n, Inorder(r));
    if Less(key, n.key) {
      forall i | 0 <= i < |Inorder(r)| ensures Less(key, Inorder(r)[i].key) { Chain(key, n.key, Inorder(r)[i].key); }
    }
    if Less(n.key, key) {
      forall i | 0 <= i < |Inorder(l)| ensures Less(Inorder(l)[i].key, key) { Chain(Inorder(l)[i].key, n.key, key); }
    }
  }

  lemma Chain(a: string, b: string, c: string)
    requires Less(a, b) && Less(b, c)
    ensures Less(a, c)
  {
    Transitive(a, b, c);
  }

  /** A key that lies strictly between all nodes equals none of them. */
  lemma BetweenIsAbsent<T>(c: Ctx<T>, key: string)
    requires Between(c, key)
    ensures forall n :: n in Nodes(Plug(c, Leaf)) ==> StrCaseCmp(key, n.key) != 0
  {
    InorderPlug(c, Leaf);
    NodesAreInorder(Plug(c, Leaf));
    forall n | n in Nodes(Plug(c, Leaf)) ensures StrCaseCmp(key, n.key) != 0 {
      assert n in Before(c) + [] + After(c);
      Antisymmetric(key, n.key);
    }
  }

  ghost predicate Inserted<T>(was: seq<Node<T>>, elm: Node<T>, now: seq<Node<T>>) {
    exists k :: 0 <= k <= |was| && now == was[..k] + [elm] + was[k..]
  }

  lemma Attached<T>(c: Ctx<T>, elm: Node<T>)
    requires Between(c, elm.key) && Sorted(Inorder(Plug(c, Leaf)))
    ensures Sorted(Inorder(Plug(c, Bin(Leaf, elm, true, Leaf))))
    ensures Inserted(Inorder(Plug(c, Leaf)), elm, Inorder(Plug(c, Bin(Leaf, elm, true, Leaf))))
  {
    hide Less;
    InorderPlug(c, Leaf);
    InorderPlug(c, Bin(Leaf, elm, true, Leaf));
    assert Before(c) + [] + After(c) == Before(c) + After(c);
    assert [] + [elm] + [] == [elm];
    SortedParts(Before(c), After(c));
    SortedJoin(Before(c), elm, After(c));
    var was := Before(c) + After(c);
    assert was[..|Before(c)|] == Before(c) && was[|Before(c)|..] == After(c);
  }

  /** On these nodes the comparator, which may read the records they are part of, compares `key` with their keys. */
  ghost predicate Compares<T>(cmp: Node<T> ~> int, key: string, nodes: set<Node<T>>)
    reads *
  {
    forall n :: n in nodes ==> cmp.requires(n) && cmp(n) == StrCaseCmp(key, n.key)
  }


  /** The loop of RB_FIND and RB_INSERT. `hit` is the node with an equal key, or null at the
      empty place where one belongs: below `parent`, on the side that `comp` says. */
  method Descend<T>(head: Head<T>, ghost key: string, cmp: Node<T> ~> int)
    returns (hit: Node?<T>, parent: Node?<T>, comp: int, count: nat, ghost c: Ctx<T>, ghost t: Tree<T>)
    requires head.Valid() && Compares(cmp, key, head.nodes)
    ensures head.Focus(c, t) && Plug(c, t) == head.shape && hit == Ref(t) && Between(c, key)
    ensures hit != null ==> StrCaseCmp(key, hit.key) == 0
    ensures hit == null ==> parent == ParentOf(c) && (c.InLeft? <==> comp < 0)
    ensures count <= Height(head.shape)
  {
    hide Head.Focus;
    parent, comp, count := null, 0, 0;
    hit := head.root;
    c, t := Top, head.shape;
    head.Look(c, t);
    while hit != null
      invariant head.Focus(c, t) && hit == Ref(t) && parent == ParentOf(c) && Plug(c, t) == head.shape
      invariant Between(c, key) && (c.InLeft? <==> comp < 0)
      invariant count + Height(t) <= Height(head.shape)
      decreases t
    {
      head.Look(c, t);
      count := count + 1;
      comp := cmp(hit);
      if comp == 0 {
        return;
      }
      parent := hit;
      StepBetween(c, t.left, t.node, t.red, t.right, key);
      Antisymmetric(key, parent.key);
      if comp < 0 {
        head.Left(c, t.left, t.node, t.red, t.right);
        hit := hit.left;
        c, t := InLeft(c, t.node, t.red, t.right), t.left;
      } else {
        head.Right(c, t.left, t.node, t.red, t.right);
        hit := hit.right;
        c, t := InRight(c, t.node, t.red, t.left), t.right;
      }
      head.Look(c, t);
    }
  }

  /** RB_FIND: at most 2 lg (n + 1) comparisons. */
  method Find<T>(head: Head<T>, ghost key: string, cmp: Node<T> ~> int) returns (hit: Node?<T>, count: nat)
    requires head.Valid() && Compares(cmp, key, head.nodes)
    ensures hit != null ==> hit in head.nodes && StrCaseCmp(key, hit.key) == 0
    ensures hit == null ==> forall n :: n in head.nodes ==> StrCaseCmp(key, n.key) != 0
    ensures Pow2(count) <= (|head.Contents()| + 1) * (|head.Contents()| + 1)
  {
    var found, _, _, steps, c, t := Descend(head, key, cmp);
    hit, count := found, steps;
    PlugNodes(c, t);
    if hit == null {
      BetweenIsAbsent(c, key);
    }
    HeightBound(head.shape);
    Pow2Monotone(count, Height(head.shape));
  }
}
