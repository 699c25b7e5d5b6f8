/**
 * What a range scan means, whatever its callbacks do: a function of the nodes in the tree, the scan function and the
 * behaviour of the callbacks. There is no cursor here: the next node is found in what the callback has left.
 */
module RedBlackScanMeaning {
  import opened KeyOrder
  import opened RedBlackShape
  import opened RedBlackSearch

  /** A scan function: negative below the wanted range, zero inside, positive beyond. */
  ghost predicate Monotone(f: string -> int) {
    forall a, b :: Less(a, b) ==> (f(b) < 0 ==> f(a) < 0) && (f(a) > 0 ==> f(b) > 0)
  }

  type ScanCmp = f: string -> int | Monotone(f) witness (s: string) => 0

  ghost predicate In(f: ScanCmp, key: string) { f(key) == 0 }

  /** What callbacks do, call by call: any behaviour of a callback in one run is such a plan. */
  datatype Plan = Plan(visits: seq<Visit>)
  datatype Visit = Visit(acts: seq<Act>, result: int)
  datatype Act = Delete(key: string) | Nested(cmp: ScanCmp, plan: Plan)

  function VisitAt(p: Plan, k: nat): Visit {
    if k < |p.visits| then p.visits[k] else Visit([], 0)
  }

  /**
   * A scan: the nodes it calls back on, the contents of the tree at each call, the result, and the contents in the
   * end.
   */
  datatype Trace<T> = Trace(log: seq<Node<T>>, states: seq<seq<Node<T>>>, count: int, after: seq<Node<T>>)

  // ----- the meaning -----

  /** The node that carries the key goes, if there is one. */
  ghost function WithoutKey<T>(s: seq<Node<T>>, key: string): (r: seq<Node<T>>)
    ensures Elems(r) <= Elems(s)
  {
    if s == [] then []
    else
      var r := WithoutKey(s[1..], key);
      TailIsPart(s);
      if StrCaseCmp(key, s[0].key) == 0 then r
      else
        HeadAndTail(s, r);
        [s[0]] + r
  }

  lemma TailIsPart<T>(s: seq<Node<T>>)
    requires s != []
    ensures Elems(s[1..]) <= Elems(s) && Elems(s) == {s[0]} + Elems(s[1..])
  {
    forall n | n in s
      ensures n in {s[0]} + Elems(s[1..])
    {
      var i :| 0 <= i < |s| && s[i] == n;
      assert i > 0 ==> s[1..][i - 1] == n;
    }
  }

  lemma HeadAndTail<T>(s: seq<Node<T>>, r: seq<Node<T>>)
    requires s != [] && Elems(r) <= Elems(s[1..])
    ensures Elems([s[0]] + r) <= Elems(s)
  {
    TailIsPart(s);
    assert forall n :: n in [s[0]] + r ==> n == s[0] || n in Elems(r);
  }

  /** Exactly the nodes go that carry the key. */
  lemma {:induction false} WithoutKeyIsFilter<T>(s: seq<Node<T>>, key: string)
    ensures forall n :: n in WithoutKey(s, key) <==> n in s && StrCaseCmp(key, n.key) != 0
  {
    if s != [] {
      WithoutKeyIsFilter(s[1..], key);
      TailIsPart(s);
      assert forall n :: n in s <==> n == s[0] || n in s[1..];
    }
  }

  ghost function AfterAct<T>(s: seq<Node<T>>, a: Act): (r: seq<Node<T>>)
    ensures Elems(r) <= Elems(s)
    decreases a, 0
  {
    match a
    case Delete(key) => WithoutKey(s, key)
    case Nested(cmp, plan) => ScanOf(s, cmp, plan).after
  }

  ghost function AfterActs<T>(s: seq<Node<T>>, acts: seq<Act>): (r: seq<Node<T>>)
    ensures Elems(r) <= Elems(s)
    decreases acts, |acts|
  {
    if acts == [] then s
    else
      var k := |acts| - 1;
      AfterAct(AfterActs(s, acts[..k]), acts[k])
  }

  /** What a callback leaves of the tree. */
  ghost function AfterVisit<T>(s: seq<Node<T>>, v: Visit): (r: seq<Node<T>>)
    ensures Elems(r) <= Elems(s)
    decreases v
  {
    AfterActs(s, v.acts)
  }

  /** The first node in order beyond the key. */
  ghost function FirstAbove<T>(s: seq<Node<T>>, key: string): (n: Node?<T>)
    ensures n != null ==> n in s && Less(key, n.key)
  {
    if s == [] then null else if Less(key, s[0].key) then s[0] else FirstAbove(s[1..], key)
  }

  /** The first node in order that matches. */
  ghost function FirstIn<T>(s: seq<Node<T>>, f: ScanCmp): (n: Node?<T>)
    ensures n != null ==> n in s && In(f, n.key)
  {
    if s == [] then null else if In(f, s[0].key) then s[0] else FirstIn(s[1..], f)
  }

  ghost function Above<T>(s: seq<Node<T>>, key: string): set<Node<T>> {
    set n | n in s && Less(key, n.key)
  }

  lemma AboveShrinks<T>(s: seq<Node<T>>, s2: seq<Node<T>>, best: Node<T>, next: Node<T>)
    requires Elems(s2) <= Elems(s) && next in s2 && Less(best.key, next.key)
    ensures Above(s2, next.key) < Above(s, best.key)
  {
    forall n | n in Above(s2, next.key)
      ensures n in Above(s, best.key)
    {
      assert n in Elems(s2);
      Transitive(best.key, next.key, n.key);
    }
    assert next in Elems(s2);
    Antisymmetric(next.key, next.key);
    assert next in Above(s, best.key) && next !in Above(s2, next.key);
  }

  /**
   * The scan that calls back on `best` as its k-th node: a negative result ends it, otherwise it goes on with the
   * first node beyond `best` in what the callback has left, as long as that matches.
   */
  ghost function ScanFrom<T>(s: seq<Node<T>>, f: ScanCmp, plan: Plan, k: nat, best: Node<T>): (r: Trace<T>)
    ensures Elems(r.after) <= Elems(s) && |r.log| == |r.states| && r.log != []
    decreases plan, 0, Above(s, best.key)
  {
    var v := VisitAt(plan, k);
    var s2 := if k < |plan.visits| then AfterVisit(s, plan.visits[k]) else s;
    var next := FirstAbove(s2, best.key);
    if v.result < 0 || next == null || !In(f, next.key) then Trace([best], [s], v.result, s2)
    else
      AboveShrinks(s, s2, best, next);
      var r := ScanFrom(s2, f, plan, k + 1, next);
      Trace([best] + r.log, [s] + r.states, if r.count < 0 then r.count else v.result + r.count, r.after)
  }

  ghost function ScanOf<T>(s: seq<Node<T>>, f: ScanCmp, plan: Plan): (r: Trace<T>)
    ensures Elems(r.after) <= Elems(s) && |r.log| == |r.states|
    decreases plan, 1
  {
    var best := FirstIn(s, f);
    if best == null then Trace([], [], 0, s) else ScanFrom(s, f, plan, 0, best)
  }

  // ----- what callbacks leave -----

  lemma {:induction false} WithoutKeySorted<T>(s: seq<Node<T>>, key: string)
    requires Sorted(s)
    ensures Sorted(WithoutKey(s, key))
  {
    if s != [] {
      assert Sorted(s[1..]);
      WithoutKeySorted(s[1..], key);
      var r := WithoutKey(s[1..], key);
      forall i | 0 <= i < |r|
        ensures Less(s[0].key, r[i].key)
      {
        assert r[i] in Elems(r);
        assert r[i] in Elems(s[1..]);
      }
    }
  }

  lemma {:induction false} ActKeepsSorted<T>(s: seq<Node<T>>, a: Act)
    requires Sorted(s)
    ensures Sorted(AfterAct(s, a))
    decreases a, 0
  {
    match a
    case Delete(key) => WithoutKeySorted(s, key);
    case Nested(cmp, plan) => ScanKeepsSorted(s, cmp, plan);
  }

  lemma {:induction false} ActsKeepSorted<T>(s: seq<Node<T>>, acts: seq<Act>)
    requires Sorted(s)
    ensures Sorted(AfterActs(s, acts))
    decreases acts, |acts|
  {
    if acts != [] {
      var k := |acts| - 1;
      ActsKeepSorted(s, acts[..k]);
      ActKeepsSorted(AfterActs(s, acts[..k]), acts[k]);
    }
  }

  lemma {:induction false} VisitKeepsSorted<T>(s: seq<Node<T>>, v: Visit)
    requires Sorted(s)
    ensures Sorted(AfterVisit(s, v))
    decreases v
  {
    ActsKeepSorted(s, v.acts);
  }

  lemma {:induction false} ScanKeepsSorted<T>(s: seq<Node<T>>, f: ScanCmp, plan: Plan)
    requires Sorted(s)
    ensures Sorted(ScanOf(s, f, plan).after)
    decreases plan, 1
  {
    var best := FirstIn(s, f);
    if best != null {
      FromKeepsSorted(s, f, plan, 0, best);
    }
  }

  lemma {:induction false} FromKeepsSorted<T>(s: seq<Node<T>>, f: ScanCmp, plan: Plan, k: nat, best: Node<T>)
    requires Sorted(s)
    ensures Sorted(ScanFrom(s, f, plan, k, best).after)
    decreases plan, 0, Above(s, best.key)
  {
    if k < |plan.visits| {
      VisitKeepsSorted(s, plan.visits[k]);
    }
    var s2 := Left(s, plan, k);
    var next := FirstAbove(s2, best.key);
    if VisitAt(plan, k).result >= 0 && next != null && In(f, next.key) {
      AboveShrinks(s, s2, best, next);
      FromKeepsSorted(s2, f, plan, k + 1, next);
    }
  }

  /** What the k-th callback leaves. */
  ghost function Left<T>(s: seq<Node<T>>, plan: Plan, k: nat): (r: seq<Node<T>>)
    ensures Elems(r) <= Elems(s)
    ensures r == if k < |plan.visits| then AfterVisit(s, plan.visits[k]) else s
  {
    AfterVisit(s, VisitAt(plan, k))
  }

  // ----- the first node in order -----

  /** In a sorted tree the first node beyond the key is the least one. */
  lemma {:induction false} FirstAboveIsLeast<T>(s: seq<Node<T>>, key: string)
    requires Sorted(s)
    ensures var n := FirstAbove(s, key);
      forall m :: m in s && Less(key, m.key) ==> n != null && (m == n || Less(n.key, m.key))
  {
    if s != [] {
      assert Sorted(s[1..]);
      FirstAboveIsLeast(s[1..], key);
      assert forall m :: m in s ==> m == s[0] || m in s[1..];
      assert forall i :: 0 <= i < |s[1..]| ==> Less(s[0].key, s[1..][i].key);
    }
  }

  lemma {:induction false} FirstInIsLeast<T>(s: seq<Node<T>>, f: ScanCmp)
    requires Sorted(s)
    ensures var n := FirstIn(s, f);
      forall m :: m in s && In(f, m.key) ==> n != null && (m == n || Less(n.key, m.key))
  {
    if s != [] {
      assert Sorted(s[1..]);
      FirstInIsLeast(s[1..], f);
      assert forall m :: m in s ==> m == s[0] || m in s[1..];
      assert forall i :: 0 <= i < |s[1..]| ==> Less(s[0].key, s[1..][i].key);
    }
  }

  // ----- what every scan keeps to -----

  /** The contents of the tree after the i-th callback. */
  ghost function StateAfter<T>(t: Trace<T>, i: nat): seq<Node<T>>
    requires i < |t.states|
  {
    if i + 1 < |t.states| then t.states[i + 1] else t.after
  }

  /** Each callback starts from what the one before has left, and the scan ends with what the last has left. */
  ghost predicate Follows<T>(t: Trace<T>, plan: Plan, k: nat, s: seq<Node<T>>) {
    |t.states| == |t.log|
    && (if t.log == [] then t.after == s else t.states[0] == s)
    && forall i :: 0 <= i < |t.log| ==> StateAfter(t, i) == Left(t.states[i], plan, k + i)
  }

  /** The callbacks get nodes in strictly ascending order; each matches and is in the tree at that moment. */
  ghost predicate Calls<T>(t: Trace<T>, f: ScanCmp) {
    |t.states| == |t.log| && Sorted(t.log)
    && forall i :: 0 <= i < |t.log| ==> t.log[i] in t.states[i] && In(f, t.log[i].key)
  }

  /** The i-th callback deletes `n`. */
  ghost predicate DeletedBy<T>(t: Trace<T>, i: nat, n: Node<T>)
    requires |t.states| == |t.log|
  {
    i < |t.log| && n in t.states[i] && n !in StateAfter(t, i)
  }

  /** A node is missed only because an earlier callback deleted it, or because a negative result ended the scan. */
  ghost predicate Excused<T>(t: Trace<T>, n: Node<T>)
    requires |t.states| == |t.log|
  {
    (exists i: nat :: DeletedBy(t, i, n) && Less(t.log[i].key, n.key))
    || (t.count < 0 && t.log != [] && Less(t.log[|t.log| - 1].key, n.key))
  }

  ghost function Total(p: Plan, k: nat, n: nat): int
    decreases n
  {
    if n == 0 then 0 else VisitAt(p, k).result + Total(p, k + 1, n - 1)
  }

  /** The result is the sum of the callbacks' results, or the negative one that ended the scan. */
  ghost predicate Counts<T>(t: Trace<T>, plan: Plan, k: nat) {
    if t.count < 0 then
      t.log != [] && t.count == VisitAt(plan, k + |t.log| - 1).result
      && forall j :: k <= j < k + |t.log| - 1 ==> VisitAt(plan, j).result >= 0
    else
      t.count == Total(plan, k, |t.log|) && forall j :: k <= j < k + |t.log| ==> VisitAt(plan, j).result >= 0
  }

  /** One callback more in front. */
  ghost function Prepended<T>(best: Node<T>, s: seq<Node<T>>, result: int, r: Trace<T>): Trace<T> {
    Trace([best] + r.log, [s] + r.states, if r.count < 0 then r.count else result + r.count, r.after)
  }

  /** One callback and the scan that goes on after it. */
  lemma ScanStep<T>(s: seq<Node<T>>, f: ScanCmp, plan: Plan, k: nat, best: Node<T>) returns (next: Node?<T>)
    ensures var v, s2 := VisitAt(plan, k), Left(s, plan, k);
      next == FirstAbove(s2, best.key)
      && ScanFrom(s, f, plan, k, best) ==
        if v.result < 0 || next == null || !In(f, next.key) then Trace([best], [s], v.result, s2)
        else Prepended(best, s, v.result, ScanFrom(s2, f, plan, k + 1, next))
    ensures next != null ==> Above(Left(s, plan, k), next.key) < Above(s, best.key)
  {
    hide AfterVisit;
    var s2 := Left(s, plan, k);
    next := FirstAbove(s2, best.key);
    if next != null {
      AboveShrinks(s, s2, best, next);
    }
  }

  lemma {:induction false} FromFollows<T>(s: seq<Node<T>>, f: ScanCmp, plan: Plan, k: nat, best: Node<T>)
    ensures Follows(ScanFrom(s, f, plan, k, best), plan, k, s)
    decreases Above(s, best.key)
  {
    hide ScanFrom, Left, Less;
    var s2 := Left(s, plan, k);
    var next := ScanStep(s, f, plan, k, best);
    var t := ScanFrom(s, f, plan, k, best);
    if VisitAt(plan, k).result >= 0 && next != null && In(f, next.key) {
      FromFollows(s2, f, plan, k + 1, next);
      var r := ScanFrom(s2, f, plan, k + 1, next);
      forall i | 0 <= i < |t.log|
        ensures StateAfter(t, i) == Left(t.states[i], plan, k + i)
      {
        if i > 0 {
          assert StateAfter(r, i - 1) == Left(r.states[i - 1], plan, k + 1 + (i - 1));
        }
      }
    }
  }

  lemma {:induction false} FromCalls<T>(s: seq<Node<T>>, f: ScanCmp, plan: Plan, k: nat, best: Node<T>)
    requires best in s && In(f, best.key)
    ensures var t := ScanFrom(s, f, plan, k, best); Calls(t, f) && t.log[0] == best
    decreases Above(s, best.key)
  {
    hide ScanFrom, Left, Less;
    var s2 := Left(s, plan, k);
    var next := ScanStep(s, f, plan, k, best);
    var t := ScanFrom(s, f, plan, k, best);
    if VisitAt(plan, k).result >= 0 && next != null && In(f, next.key) {
      FromCalls(s2, f, plan, k + 1, next);
      var r := ScanFrom(s2, f, plan, k + 1, next);
      forall i | 0 <= i < |r.log|
        ensures Less(best.key, r.log[i].key)
      {
        if i > 0 {
          Chain(best.key, r.log[0].key, r.log[i].key);
        }
      }
    }
  }

  lemma {:induction false} FromCounts<T>(s: seq<Node<T>>, f: ScanCmp, plan: Plan, k: nat, best: Node<T>)
    ensures Counts(ScanFrom(s, f, plan, k, best), plan, k)
    decreases Above(s, best.key)
  {
    hide ScanFrom, Left;
    var s2 := Left(s, plan, k);
    var next := ScanStep(s, f, plan, k, best);
    var t := ScanFrom(s, f, plan, k, best);
    if VisitAt(plan, k).result >= 0 && next != null && In(f, next.key) {
      FromCounts(s2, f, plan, k + 1, next);
      var r := ScanFrom(s2, f, plan, k + 1, next);
      CountsToo(best, s, plan, k, r);
    } else {
      assert Total(plan, k, 1) == VisitAt(plan, k).result + Total(plan, k + 1, 0);
    }
  }

  lemma CountsToo<T>(best: Node<T>, s: seq<Node<T>>, plan: Plan, k: nat, r: Trace<T>)
    requires Counts(r, plan, k + 1) && VisitAt(plan, k).result >= 0
    ensures Counts(Prepended(best, s, VisitAt(plan, k).result, r), plan, k)
  {
  }

  /** From `best` on, every matching node beyond it is called back on or excused. */
  lemma {:induction false} FromMisses<T>(s: seq<Node<T>>, f: ScanCmp, plan: Plan, k: nat, best: Node<T>, n: Node<T>)
    requires Sorted(s) && best in s && In(f, best.key) && n in s && In(f, n.key) && Less(best.key, n.key)
    ensures var t := ScanFrom(s, f, plan, k, best); n in t.log || Excused(t, n)
    decreases Above(s, best.key)
  {
    hide ScanFrom, Left, Less, Sorted, Calls, Follows, Excused, DeletedBy, Elems;
    var s2 := Left(s, plan, k);
    var next := ScanStep(s, f, plan, k, best);
    FromFollows(s, f, plan, k, best);
    FromCalls(s, f, plan, k, best);
    if n !in s2 {
      DeletedFirst(ScanFrom(s, f, plan, k, best), f, plan, k, s, n);
    } else if VisitAt(plan, k).result < 0 {
      EndedFirst(best, s, VisitAt(plan, k).result, s2, n);
    } else {
      VisitKeepsSorted(s, VisitAt(plan, k));
      FirstAboveIsLeast(s2, best.key);
      BetweenMatches(f, best.key, next.key, n.key);
      var r := ScanFrom(s2, f, plan, k + 1, next);
      FromCalls(s2, f, plan, k + 1, next);
      if n != next {
        FromMisses(s2, f, plan, k + 1, next, n);
      }
      ExcusedToo(best, s, VisitAt(plan, k).result, r, n);
    }
  }

  lemma DeletedFirst<T>(t: Trace<T>, f: ScanCmp, plan: Plan, k: nat, s: seq<Node<T>>, n: Node<T>)
    requires Follows(t, plan, k, s) && Calls(t, f) && t.log != []
    requires n in s && n !in Left(s, plan, k) && Less(t.log[0].key, n.key)
    ensures Excused(t, n)
  {
    hide Left, Less;
    assert StateAfter(t, 0) == Left(t.states[0], plan, k + 0);
    assert DeletedBy(t, 0, n);
  }

  lemma EndedFirst<T>(best: Node<T>, s: seq<Node<T>>, result: int, s2: seq<Node<T>>, n: Node<T>)
    requires result < 0 && Less(best.key, n.key)
    ensures Excused(Trace([best], [s], result, s2), n)
  {
  }

  lemma ExcusedToo<T>(best: Node<T>, s: seq<Node<T>>, result: int, r: Trace<T>, n: Node<T>)
    requires |r.states| == |r.log| && r.log != [] && result >= 0
    ensures Excused(r, n) ==> Excused(Prepended(best, s, result, r), n)
    ensures n in r.log ==> n in Prepended(best, s, result, r).log
  {
    var t := Prepended(best, s, result, r);
    if i: nat :| DeletedBy(r, i, n) && Less(r.log[i].key, n.key) {
      assert t.states[i + 1] == r.states[i] && StateAfter(t, i + 1) == StateAfter(r, i) && t.log[i + 1] == r.log[i];
      assert DeletedBy(t, i + 1, n);
    }
    assert t.log[|t.log| - 1] == r.log[|r.log| - 1];
  }

  /** The range has no holes. */
  lemma BetweenMatches(f: ScanCmp, a: string, b: string, c: string)
    requires In(f, a) && In(f, c) && Less(a, b) && (b == c || Less(b, c))
    ensures In(f, b)
  {
  }

  // ----- whole scans -----

  /** Every scan calls back in ascending order on matching nodes that are there, and returns the sum of the results. */
  lemma ScanKeepsTo<T>(s: seq<Node<T>>, f: ScanCmp, plan: Plan)
    requires Sorted(s)
    ensures var t := ScanOf(s, f, plan);
      Follows(t, plan, 0, s) && Calls(t, f) && Counts(t, plan, 0) && Sorted(t.after)
  {
    hide ScanFrom;
    var best := FirstIn(s, f);
    ScanKeepsSorted(s, f, plan);
    if best != null {
      FromFollows(s, f, plan, 0, best);
      FromCalls(s, f, plan, 0, best);
      FromCounts(s, f, plan, 0, best);
    }
  }

  /** What is deleted by a callback is gone for good. */
  lemma {:induction false} GoneForGood<T>(t: Trace<T>, plan: Plan, k: nat, s: seq<Node<T>>, i: nat, j: nat, n: Node<T>)
    requires Follows(t, plan, k, s) && i < j < |t.log| && DeletedBy(t, i, n)
    ensures n !in t.states[j]
    decreases j
  {
    hide Elems, Follows, Left, Less;
    SameLength(t, plan, k, s);
    if j > i + 1 {
      GoneForGood(t, plan, k, s, i, j - 1, n);
      StatesShrink(t, plan, k, s, j);
      NotThereLater(t.states[j - 1], t.states[j], n);
    }
  }

  lemma SameLength<T>(t: Trace<T>, plan: Plan, k: nat, s: seq<Node<T>>)
    requires Follows(t, plan, k, s)
    ensures |t.states| == |t.log|
  {
  }

  lemma StatesShrink<T>(t: Trace<T>, plan: Plan, k: nat, s: seq<Node<T>>, j: nat)
    requires Follows(t, plan, k, s) && 0 < j < |t.log|
    ensures Elems(t.states[j]) <= Elems(t.states[j - 1])
  {
    hide Elems;
    assert StateAfter(t, j - 1) == Left(t.states[j - 1], plan, k + (j - 1));
  }

  lemma NotThereLater<T>(a: seq<Node<T>>, b: seq<Node<T>>, n: Node<T>)
    requires Elems(b) <= Elems(a) && n !in a
    ensures n !in b
  {
    assert n !in Elems(a);
    assert n !in Elems(b);
  }

  /** No callback gets a node that an earlier callback has deleted. */
  lemma NeverOnDeleted<T>(s: seq<Node<T>>, f: ScanCmp, plan: Plan, i: nat, j: nat, n: Node<T>)
    requires Sorted(s) && i < j < |ScanOf(s, f, plan).log| && DeletedBy(ScanOf(s, f, plan), i, n)
    ensures ScanOf(s, f, plan).log[j] != n
  {
    hide ScanOf, Left;
    ScanKeepsTo(s, f, plan);
    GoneForGood(ScanOf(s, f, plan), plan, 0, s, i, j, n);
  }

  /**
   * Every matching node is called back on, unless a callback on a smaller node deleted it or a negative result ended
   * the scan before it.
   */
  lemma NothingMissed<T>(s: seq<Node<T>>, f: ScanCmp, plan: Plan, n: Node<T>)
    requires Sorted(s) && n in s && In(f, n.key)
    ensures var t := ScanOf(s, f, plan); n in t.log || Excused(t, n)
  {
    hide ScanFrom;
    FirstInIsLeast(s, f);
    var best := FirstIn(s, f);
    if n == best {
      FromCalls(s, f, plan, 0, best);
    } else {
      FromMisses(s, f, plan, 0, best, n);
    }
  }
}
