/** What the C functions that call functions of the program come to: `map`, `foldl` and `times`. */
module HigherOrder {
  import opened Bytecode
  import opened Machine
  import Discipline
  import Locality
  import M = Meaning
  import Simulation

  /** What a function makes of its arguments and the globals. */
  type Meaning = (seq<Value>, Globals) -> (Value, Globals)

  /**
   * Whenever function `id` is called with `argc` arguments and globals in `within`, and returns, it has put what `f`
   * says in their place, and the globals are in `within` again.
   */
  ghost predicate OneResult(within: iset<Globals>, t: Table, p: Builtins, id: nat, argc: nat, f: Meaning) {
    forall base: seq<Value>, args: seq<Value>, g: Globals, c: nat :: |args| == argc && g in within ==>
      Gives(within, Machine.Invoke(t, p, id, argc, |base|, State(base + args, g, c)), base, f(args, g))
  }

  ghost predicate Gives(within: iset<Globals>, r: Outcome, base: seq<Value>, x: (Value, Globals)) {
    r.Timeout? || (r.Done? && r.state.stack == base + [x.0] && r.state.globals == x.1 && x.1 in within)
  }

  /** Every function that keeps the stack discipline has such a meaning, for all globals that its calls can rely on. */
  lemma {:induction false} DisciplinedHasMeaning(t: Table, d: M.Definitions, sig: Discipline.Signature, p: Builtins,
                                                 id: nat, argc: nat)
    requires Simulation.Implements(t, d) && Discipline.Disciplined(d, sig) && Discipline.Returning(d, sig, p)
    requires Discipline.Fits(d, id, argc)
    ensures OneResult(Locality.Conforming(d, sig), t, p, id, argc, (args, g) => Locality.ResultOf(d, p, id, args, g))
  {
    hide Discipline.Conforms, Discipline.Disciplined, Discipline.Returning, Discipline.Fits, Simulation.Implements;
    hide Machine.Invoke, Locality.ResultOf;
    var within := Locality.Conforming(d, sig);
    forall base: seq<Value>, args: seq<Value>, g: Globals, c: nat | |args| == argc && g in within
      ensures Gives(within, Machine.Invoke(t, p, id, argc, |base|, State(base + args, g, c)), base,
                    Locality.ResultOf(d, p, id, args, g))
    {
      Locality.ResultIsOne(t, d, sig, p, id, base, args, g, c);
    }
  }

  /** The results of one call for every input, in their order, with the effects on globals of one seen by the next. */
  function Each(f: Meaning, k: Iteration, xs: seq<Value>, g: Globals): (r: (seq<Value>, Globals))
    ensures |r.0| == |xs|
  {
    if xs == [] then ([], g)
    else
      var x := f(LoopArguments(k, Nil, xs[0]), g);
      var m := Each(f, k, xs[1..], x.1);
      ([x.0] + m.0, m.1)
  }

  /** The left fold: the list is used up from its front. */
  function FoldLeft(f: Meaning, v: Value, xs: seq<Value>, g: Globals): (Value, Globals)
    decreases |xs|
  {
    if xs == [] then (v, g)
    else
      var x := f([v, xs[0]], g);
      FoldLeft(f, x.0, xs[1..], x.1)
  }

  /** `n` calls one after the other, the last with index `n - 1`; none for a negative number. */
  function Repeat(f: Meaning, n: int, indexed: bool, g: Globals): (r: (seq<Value>, Globals))
    ensures |r.0| == if n < 0 then 0 else n
  {
    if n <= 0 then ([], g)
    else
      var m := Repeat(f, n - 1, indexed, g);
      var x := f(if indexed then [Num(n - 1)] else [], m.1);
      (m.0 + [x.0], x.1)
  }

  /** Without effects on globals the results of `map` are the images of the elements, in order. */
  lemma {:induction false} MapIsPointwise(f: Meaning, h: Value -> Value, xs: seq<Value>, g: Globals)
    requires forall x, g :: f([x], g) == (h(x), g)
    ensures Each(f, Mapping, xs, g).1 == g
    ensures forall i :: 0 <= i < |xs| ==> Each(f, Mapping, xs, g).0[i] == h(xs[i])
  {
    if xs != [] {
      assert f([xs[0]], g) == (h(xs[0]), g);
      MapIsPointwise(f, h, xs[1..], g);
    }
  }

  /** Calls for two lists one after the other are the calls for the first, and then those for the second. */
  lemma {:induction false} EachOfAppend(f: Meaning, k: Iteration, xs: seq<Value>, ys: seq<Value>, g: Globals)
    ensures var m := Each(f, k, xs, g);
      var n := Each(f, k, ys, m.1);
      Each(f, k, xs + ys, g) == (m.0 + n.0, n.1)
    decreases |xs|
  {
    if xs == [] {
      assert xs + ys == ys && [] + Each(f, k, ys, g).0 == Each(f, k, ys, g).0;
    } else {
      assert (xs + ys)[1..] == xs[1..] + ys;
      var x := f(LoopArguments(k, Nil, xs[0]), g);
      EachOfAppend(f, k, xs[1..], ys, x.1);
      var m := Each(f, k, xs[1..], x.1);
      assert [x.0] + (m.0 + Each(f, k, ys, m.1).0) == ([x.0] + m.0) + Each(f, k, ys, m.1).0;
    }
  }

  /** A fold over two lists one after the other is the fold over the second from the result of the first. */
  lemma {:induction false} FoldOfAppend(f: Meaning, v: Value, xs: seq<Value>, ys: seq<Value>, g: Globals)
    ensures var m := FoldLeft(f, v, xs, g); FoldLeft(f, v, xs + ys, g) == FoldLeft(f, m.0, ys, m.1)
    decreases |xs|
  {
    if xs == [] {
      assert xs + ys == ys;
    } else {
      assert (xs + ys)[1..] == xs[1..] + ys;
      var x := f([v, xs[0]], g);
      FoldOfAppend(f, x.0, xs[1..], ys, x.1);
    }
  }

  lemma {:induction false} OneCall(f: Meaning, k: Iteration, x: Value, g: Globals)
    ensures Each(f, k, [x], g) == (var r := f(LoopArguments(k, Nil, x), g); ([r.0], r.1))
  {
    var r := f(LoopArguments(k, Nil, x), g);
    assert [x][1..] == [] && [r.0] + [] == [r.0];
  }

  /** Going through the numbers from zero is calling again and again. */
  lemma {:induction false} NumbersRepeat(f: Meaning, n: int, indexed: bool, g: Globals)
    ensures Each(f, Repeating(indexed), Numbers(n), g) == Repeat(f, n, indexed, g)
    decreases if n < 0 then 0 else n
  {
    if n > 0 {
      NumbersRepeat(f, n - 1, indexed, g);
      EachOfAppend(f, Repeating(indexed), Numbers(n - 1), [Num(n - 1)], g);
      OneCall(f, Repeating(indexed), Num(n - 1), Repeat(f, n - 1, indexed, g).1);
    }
  }

  // ----- runs -----

  function Arity(k: Iteration): nat {
    match k
    case Mapping => 1
    case Folding => 2
    case Repeating(indexed) => if indexed then 1 else 0
  }

  /** A one-result function answers with its result, and leaves what is below its arguments alone. */
  lemma {:induction false} AskMeans(t: Table, p: Builtins, id: nat, args: seq<Value>, floor: nat, f: Meaning, s: State,
                                    within: iset<Globals>)
    requires s.globals in within && OneResult(within, t, p, id, |args|, f) && floor <= |s.stack|
    ensures var x := Ask(t, p, id, args, floor, s);
      if x.NoAnswer? then x.outcome == Timeout
      else
        (x.value, x.state.globals) == f(args, s.globals) && x.state.stack == s.stack && x.state.globals in within
  {
    var r := Machine.Invoke(t, p, id, |args|, |s.stack|, State(s.stack + args, s.globals, s.clock));
    assert Gives(within, r, s.stack, f(args, s.globals));
    hide Machine.Invoke, OneResult;
    assert s.(stack := s.stack + args) == State(s.stack + args, s.globals, s.clock);
    if r.Done? {
      assert r.state.stack[..|s.stack|] == s.stack;
    }
  }

  /** What the calls of a loop come to when they start with `acc`. */
  function LoopResult(f: Meaning, k: Iteration, acc: Value, xs: seq<Value>, g: Globals): (Value, Globals)
    requires k.Folding? || acc.List?
  {
    if k.Folding? then FoldLeft(f, acc, xs, g)
    else
      var m := Each(f, k, xs, g);
      (Value.List(acc.items + m.0), m.1)
  }

  lemma {:induction false} ResultStep(f: Meaning, k: Iteration, acc: Value, xs: seq<Value>, g: Globals)
    requires (k.Folding? || acc.List?) && xs != []
    ensures var x := f(LoopArguments(k, acc, xs[0]), g);
      (k.Folding? || Gather(k, acc, x.0).List?)
      && LoopResult(f, k, acc, xs, g) == LoopResult(f, k, Gather(k, acc, x.0), xs[1..], x.1)
  {
    if !k.Folding? {
      var x := f(LoopArguments(k, acc, xs[0]), g);
      var m := Each(f, k, xs[1..], x.1);
      assert acc.items + ([x.0] + m.0) == (acc.items + [x.0]) + m.0;
    }
  }

  /** The loop makes its calls in order, threads their effects, and leaves the stack below them as it was. */
  lemma {:induction false} LoopMeans(t: Table, p: Builtins, k: Iteration, id: nat, xs: seq<Value>, acc: Value,
                                     floor: nat, f: Meaning, s: State, within: iset<Globals>)
    requires s.globals in within && OneResult(within, t, p, id, Arity(k), f) && floor <= |s.stack|
    requires k.Folding? || acc.List?
    ensures var r := Loop(t, p, k, id, xs, acc, floor, s);
      if r.NoAnswer? then r.outcome == Timeout
      else
        (r.value, r.state.globals) == LoopResult(f, k, acc, xs, s.globals) && r.state.stack == s.stack
        && r.state.globals in within
    decreases |xs|
  {
    hide OneResult, Ask, LoopResult;
    if xs == [] {
      NothingLooped(f, k, acc, s.globals);
    } else {
      var args := LoopArguments(k, acc, xs[0]);
      AskMeans(t, p, id, args, floor, f, s, within);
      ResultStep(f, k, acc, xs, s.globals);
      var r := Ask(t, p, id, args, floor, s);
      if r.Answer? {
        LoopMeans(t, p, k, id, xs[1..], Gather(k, acc, r.value), floor, f, r.state, within);
      }
    }
  }

  lemma {:induction false} NothingLooped(f: Meaning, k: Iteration, acc: Value, g: Globals)
    requires k.Folding? || acc.List?
    ensures LoopResult(f, k, acc, [], g) == (acc, g)
  {
    if !k.Folding? {
      assert acc.items + [] == acc.items;
    }
  }

  // ----- calls -----

  /** What a call of one of these functions gives: nil when the arguments are not what it wants. */
  function CallResult(f: Meaning, k: Iteration, args: seq<Value>, g: Globals): (Value, Globals) {
    if WellTyped(args, Wants(k)) then LoopResult(f, k, Start(k, args), Inputs(k, args), g) else (Nil, g)
  }

  /** A call that returns puts that in place of its arguments, and nothing below them changes. */
  lemma {:induction false} CallMeans(t: Table, p: Builtins, id: nat, k: Iteration, base: seq<Value>, args: seq<Value>,
                                     f: Meaning, g: Globals, c: nat, within: iset<Globals>)
    requires id < |t| && t[id] == Iter(k) && g in within
    requires WellTyped(args, Wants(k)) ==> OneResult(within, t, p, CalledBack(k, args), Arity(k), f)
    ensures Gives(within, Machine.Invoke(t, p, id, |args|, |base|, State(base + args, g, c)), base,
                  CallResult(f, k, args, g))
  {
    hide Loop, OneResult, LoopResult;
    var s := State(base + args, g, c);
    if c > 0 {
      assert s.stack[|base|..] == args && s.stack[..|base|] == base;
      if WellTyped(args, Wants(k)) {
        LoopMeans(t, p, k, CalledBack(k, args), Inputs(k, args), Start(k, args), |base|, f, State(base, g, c - 1),
          within);
      }
    }
  }

  /** `map`: the list of the results, in the order of the elements. */
  lemma {:induction false} MapMeans(t: Table, p: Builtins, id: nat, base: seq<Value>, xs: seq<Value>, fn: nat,
                                    f: Meaning, g: Globals, c: nat, within: iset<Globals>)
    requires id < |t| && t[id] == Iter(Mapping) && g in within && OneResult(within, t, p, fn, 1, f)
    ensures var m := Each(f, Mapping, xs, g);
      Gives(within, Machine.Invoke(t, p, id, 2, |base|, State(base + [Value.List(xs), Fun(fn)], g, c)), base,
            (Value.List(m.0), m.1))
  {
    hide Machine.Invoke, OneResult;
    assert [] + Each(f, Mapping, xs, g).0 == Each(f, Mapping, xs, g).0;
    CallMeans(t, p, id, Mapping, base, [Value.List(xs), Fun(fn)], f, g, c, within);
  }

  /** `foldl`: the left fold from the first argument over the list. */
  lemma {:induction false} FoldMeans(t: Table, p: Builtins, id: nat, base: seq<Value>, v: Value, xs: seq<Value>,
                                     fn: nat, f: Meaning, g: Globals, c: nat, within: iset<Globals>)
    requires id < |t| && t[id] == Iter(Folding) && g in within && OneResult(within, t, p, fn, 2, f)
    ensures Gives(within, Machine.Invoke(t, p, id, 3, |base|, State(base + [v, Value.List(xs), Fun(fn)], g, c)), base,
                  FoldLeft(f, v, xs, g))
  {
    hide Machine.Invoke, OneResult;
    CallMeans(t, p, id, Folding, base, [v, Value.List(xs), Fun(fn)], f, g, c, within);
  }

  /** `times`: the list of as many results as the number says, of no results when it is negative. */
  lemma {:induction false} TimesMeans(t: Table, p: Builtins, id: nat, base: seq<Value>, n: int, indexed: bool, fn: nat,
                                      f: Meaning, g: Globals, c: nat, within: iset<Globals>)
    requires id < |t| && t[id] == Iter(Repeating(indexed)) && g in within
    requires OneResult(within, t, p, fn, if indexed then 1 else 0, f)
    ensures var m := Repeat(f, n, indexed, g);
      Gives(within, Machine.Invoke(t, p, id, 2, |base|, State(base + [Num(n), Fun(fn)], g, c)), base,
            (Value.List(m.0), m.1))
  {
    hide Machine.Invoke, OneResult, Numbers, Repeat;
    NumbersRepeat(f, n, indexed, g);
    assert [] + Repeat(f, n, indexed, g).0 == Repeat(f, n, indexed, g).0;
    CallMeans(t, p, id, Repeating(indexed), base, [Num(n), Fun(fn)], f, g, c, within);
  }
}
