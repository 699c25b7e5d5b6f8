/**
 * The language without a machine: what an expression is worth, as the list of values it leaves, with no stack, no
 * frames and no popping. Evaluation on the stack, and with it the compiled code, is proved to come to the same.
 */
module Direct {
  import opened Bytecode
  import opened Settings
  import opened Machine
  import opened Meaning
  import Laws

  /**
   * The values that are left, the globals and the ticks; or the clock ran out; or the expression wants a value that it
   * did not make itself, so that what it comes to is up to what surrounds it.
   */
  datatype Worth = Worth(values: seq<Value>, globals: Globals, ticks: nat) | OutOfTime | Unclear

  /** What came of some calls from a C function: values that were left over, and the result so far. */
  datatype Gathered = Gathered(left: seq<Value>, acc: Value, globals: Globals, ticks: nat) | LoopOutOfTime | LoopUnclear

  function Of(d: Definitions, p: Builtins, e: Core, args: seq<Value>, g: Globals, c: nat): (r: Worth)
    ensures r.Worth? ==> r.ticks <= c
    decreases c, 1, e, 2
  {
    match e
    case Skip => Worth([], g, c)
    case Const(v) => Worth([v], g, c)
    case Param(i) => if i < |args| then Worth([args[i]], g, c) else Unclear
    case Global(x) => Worth([if x in g then g[x] else Nil], g, c)
    case App(x, fn, es) =>
      var r := OfAll(d, p, es, args, g, c);
      if !r.Worth? then r
      else if fn.Some? then OfCall(d, p, fn.value, Count(es), r.values, r.globals, r.ticks)
      else if x in r.globals && r.globals[x].Fun? then
        OfCall(d, p, r.globals[x].id, Count(es), r.values, r.globals, r.ticks)
      else r
    case NoApp(es) =>
      var r := OfAll(d, p, es, args, g, c);
      if r.Worth? then Worth(r.values + [Nil], r.globals, r.ticks) else r
    case Then(a, b) =>
      var r := Of(d, p, a, args, g, c);
      if !r.Worth? then r else After(r.values, Of(d, p, b, args, r.globals, r.ticks))
    case If(cond, a, b) =>
      var r := Of(d, p, cond, args, g, c);
      if !r.Worth? then r
      else if r.values == [] then Unclear
      else if Last(r.values) == Nil then After(Front(r.values), Of(d, p, b, args, r.globals, r.ticks))
      else After(Front(r.values), Of(d, p, a, args, r.globals, r.ticks))
    case When(cond, a) =>
      var r := Of(d, p, cond, args, g, c);
      if !r.Worth? then r
      else if r.values == [] then Unclear
      else if Last(r.values) == Nil then Worth(Front(r.values), r.globals, r.ticks)
      else After(Front(r.values), Of(d, p, a, args, r.globals, r.ticks))
    case While(_, _) => OfWhile(d, p, e, args, g, c)
    case Assign(x, a) =>
      var r := Of(d, p, a, args, g, c);
      if !r.Worth? then r
      else if r.values == [] then Unclear
      else Worth(r.values, r.globals[x := Last(r.values)], r.ticks)
  }

  function Last(vs: seq<Value>): Value
    requires vs != []
  {
    vs[|vs| - 1]
  }

  function Front(vs: seq<Value>): seq<Value>
    requires vs != []
  {
    vs[..|vs| - 1]
  }

  function After(vs: seq<Value>, r: Worth): Worth {
    if r.Worth? then Worth(vs + r.values, r.globals, r.ticks) else r
  }

  /** Turn after turn until the condition is nil; going round takes a tick. */
  function OfWhile(d: Definitions, p: Builtins, e: Core, args: seq<Value>, g: Globals, c: nat): (r: Worth)
    requires e.While?
    ensures r.Worth? ==> r.ticks <= c
    decreases c, 1, e, 1
  {
    var r := Of(d, p, e.cond, args, g, c);
    if !r.Worth? then r
    else if r.values == [] then Unclear
    else if Last(r.values) == Nil then Worth(Front(r.values), r.globals, r.ticks)
    else
      var q := Of(d, p, e.body, args, r.globals, r.ticks);
      if !q.Worth? then q
      else if q.ticks == 0 then OutOfTime
      else After(Front(r.values) + q.values, OfWhile(d, p, e, args, q.globals, q.ticks - 1))
  }

  function OfAll(d: Definitions, p: Builtins, es: Cores, args: seq<Value>, g: Globals, c: nat): (r: Worth)
    ensures r.Worth? ==> r.ticks <= c
    decreases c, 1, es, 0
  {
    match es
    case End => Worth([], g, c)
    case Cons(e, rest) =>
      var r := Of(d, p, e, args, g, c);
      if !r.Worth? then r else After(r.values, OfAll(d, p, rest, args, r.globals, r.ticks))
  }

  /** A call with the last `argc` of these values. */
  function OfCall(d: Definitions, p: Builtins, id: nat, argc: nat, vs: seq<Value>, g: Globals, c: nat): (r: Worth)
    ensures r.Worth? ==> r.ticks <= c
    decreases c, 0, 1
  {
    if |vs| < argc || id >= |d| then Unclear
    else After(vs[..|vs| - argc], OfFunction(d, p, id, vs[|vs| - argc..], g, c))
  }

  /** What a function makes of its arguments. */
  function OfFunction(d: Definitions, p: Builtins, id: nat, args: seq<Value>, g: Globals, c: nat): (r: Worth)
    requires id < |d|
    ensures r.Worth? ==> r.ticks <= c
    decreases c, 0, 0
  {
    match d[id]
    case Primitive(cid) =>
      var q := p(cid, args, g);
      Worth(if q.value.Some? then [q.value.value] else [], SetEach(g, q.settings), c)
    case Keyword(_) => Worth([], g, c)
    case Defined(_, body) => if c == 0 then OutOfTime else Of(d, p, body, args, g, c - 1)
    case Iterates(k) => if c == 0 then OutOfTime else OfIteration(d, p, k, args, g, c - 1)
  }

  // ----- functions that call functions -----

  function OfIteration(d: Definitions, p: Builtins, k: Iteration, args: seq<Value>, g: Globals, c: nat): (r: Worth)
    ensures r.Worth? ==> r.ticks <= c
    decreases c, 1
  {
    if k == Mapping && |args| == 2 && args[0].List? && args[1].Fun? then
      Finished(OfMap(d, p, args[1].id, args[0].items, [], g, c))
    else if k == Folding && |args| == 3 && args[1].List? && args[2].Fun? then
      Finished(OfFold(d, p, args[2].id, args[0], args[1].items, g, c))
    else if k.Repeating? && |args| == 2 && args[0].Num? && args[1].Fun? then
      Finished(OfTimes(d, p, args[1].id, 0, args[0].n, k.indexed, [], g, c))
    else Worth([Nil], g, c)
  }

  function Finished(r: Gathered): Worth {
    match r
    case Gathered(left, acc, g, c) => Worth(left + [acc], g, c)
    case LoopOutOfTime => OutOfTime
    case LoopUnclear => Unclear
  }

  /** One call, and the last of what it leaves for its result. */
  function OfAsk(d: Definitions, p: Builtins, id: nat, args: seq<Value>, g: Globals, c: nat): (r: Gathered)
    ensures r.Gathered? ==> r.ticks <= c
    decreases c, 0, 1
  {
    if id >= |d| then LoopUnclear
    else
      var r := OfFunction(d, p, id, args, g, c);
      if r.OutOfTime? then LoopOutOfTime
      else if r.Unclear? || r.values == [] then LoopUnclear
      else Gathered(Front(r.values), Last(r.values), r.globals, r.ticks)
  }

  function Before(left: seq<Value>, r: Gathered): Gathered {
    if r.Gathered? then r.(left := left + r.left) else r
  }

  /** The results in the order of the elements. */
  function OfMap(d: Definitions, p: Builtins, id: nat, xs: seq<Value>, ys: seq<Value>, g: Globals, c: nat)
    : (r: Gathered)
    ensures r.Gathered? ==> r.ticks <= c
    decreases c, 0, 2 + |xs|
  {
    if xs == [] then Gathered([], Value.List(ys), g, c)
    else
      var r := OfAsk(d, p, id, [xs[0]], g, c);
      if r.Gathered? then Before(r.left, OfMap(d, p, id, xs[1..], ys + [r.acc], r.globals, r.ticks)) else r
  }

  /** Each call gets the result so far and the next element. */
  function OfFold(d: Definitions, p: Builtins, id: nat, v: Value, xs: seq<Value>, g: Globals, c: nat): (r: Gathered)
    ensures r.Gathered? ==> r.ticks <= c
    decreases c, 0, 2 + |xs|
  {
    if xs == [] then Gathered([], v, g, c)
    else
      var r := OfAsk(d, p, id, [v, xs[0]], g, c);
      if r.Gathered? then Before(r.left, OfFold(d, p, id, r.acc, xs[1..], r.globals, r.ticks)) else r
  }

  /** From `i` up to `n`, which may be below it. */
  function OfTimes(d: Definitions, p: Builtins, id: nat, i: int, n: int, indexed: bool, ys: seq<Value>, g: Globals,
                   c: nat): (r: Gathered)
    ensures r.Gathered? ==> r.ticks <= c
    decreases c, 0, 2 + if i < n then n - i else 0
  {
    if i >= n then Gathered([], Value.List(ys), g, c)
    else
      var r := OfAsk(d, p, id, if indexed then [Num(i)] else [], g, c);
      if r.Gathered? then Before(r.left, OfTimes(d, p, id, i + 1, n, indexed, ys + [r.acc], r.globals, r.ticks)) else r
  }

  // ----- the stack machine comes to the same -----

  /** On top of `st` the outcome has left what the expression is worth. */
  predicate Leaves(st: seq<Value>, r: Worth, o: Outcome) {
    match r
    case Worth(vs, g, c) => o == Done(State(st + vs, g, c))
    case OutOfTime => o == Timeout
    case Unclear => true
  }

  predicate Answers(st: seq<Value>, r: Gathered, a: Answer) {
    match r
    case Gathered(left, acc, g, c) => a == Answer(acc, State(st + left, g, c))
    case LoopOutOfTime => a == NoAnswer(Timeout)
    case LoopUnclear => true
  }

  lemma {:induction false} Nothing(st: seq<Value>)
    ensures st + [] == st
  {
  }

  lemma {:induction false} Regroup(st: seq<Value>, a: seq<Value>, b: seq<Value>)
    ensures st + (a + b) == (st + a) + b
  {
  }

  /** What is left first stays below what is left then. */
  lemma {:induction false} OnTopOfThat(st: seq<Value>, vs: seq<Value>, r: Worth, o: Outcome)
    requires Leaves(st + vs, r, o)
    ensures Leaves(st, After(vs, r), o)
  {
    if r.Worth? { Regroup(st, vs, r.values); }
  }

  lemma {:induction false} FrontAndLast(st: seq<Value>, vs: seq<Value>)
    requires vs != []
    ensures st + vs == (st + Front(vs)) + [Last(vs)]
  {
  }

  /**
   * Evaluation on the stack, whatever lies on it, leaves exactly what the expression is worth,
     and takes the same ticks;
   * and it runs out of time exactly when that does.
   */
  lemma {:induction false} EvalAgrees(d: Definitions, p: Builtins, e: Core, args: seq<Value>, floor: nat, s: State)
    requires floor <= |s.stack|
    ensures Leaves(s.stack, Of(d, p, e, args, s.globals, s.clock), Eval(d, p, e, args, floor, s))
    decreases s.clock, 1, e, 2
  {
    hide EvalIf, EvalWhen, EvalWhile, EvalAll, OfWhile, OfAll, OfCall, Call, Apply;
    match e
    case Skip => Nothing(s.stack);
    case Const(_) =>
    case Param(_) =>
    case Global(_) =>
    case App(_, _, _) => AppAgrees(d, p, e, args, floor, s);
    case NoApp(es) =>
      AllAgrees(d, p, es, args, floor, s);
      var r := OfAll(d, p, es, args, s.globals, s.clock);
      if r.Worth? { Regroup(s.stack, r.values, [Nil]); }
    case Then(a, b) =>
      EvalAgrees(d, p, a, args, floor, s);
      var r := Of(d, p, a, args, s.globals, s.clock);
      if r.Worth? {
        var s1 := State(s.stack + r.values, r.globals, r.ticks);
        EvalAgrees(d, p, b, args, floor, s1);
        OnTopOfThat(s.stack, r.values, Of(d, p, b, args, r.globals, r.ticks), Eval(d, p, b, args, floor, s1));
      }
    case If(_, _, _) => IfAgrees(d, p, e, args, floor, s);
    case When(_, _) => WhenAgrees(d, p, e, args, floor, s);
    case While(_, _) =>
      WhileAgrees(d, p, e, args, floor, s);
    case Assign(x, a) =>
      EvalAgrees(d, p, a, args, floor, s);
      var r := Of(d, p, a, args, s.globals, s.clock);
      if r.Worth? && r.values != [] {
        FrontAndLast(s.stack, r.values);
        Laws.SetStores(d, p, x, a, args, floor, s, s.stack + Front(r.values), Last(r.values), r.globals, r.ticks);
      }
  }

  lemma {:induction false} FailedCondition(d: Definitions, p: Builtins, e: Core, args: seq<Value>, floor: nat, s: State)
    requires floor <= |s.stack| && Eval(d, p, e, args, floor, s) == Timeout
    ensures EvalCondition(d, p, e, args, floor, s) == Failed(Timeout)
  {
  }

  lemma {:induction false} TimedOut(d: Definitions, p: Builtins, e: Core, c: Core, args: seq<Value>, floor: nat,
                                    s: State)
    requires floor <= |s.stack| && Eval(d, p, c, args, floor, s) == Timeout
    requires (e.If? && e.cond == c) || (e.When? && e.cond == c) || (e.While? && e.cond == c)
    ensures Eval(d, p, e, args, floor, s) == Timeout
  {
    FailedCondition(d, p, c, args, floor, s);
    match e
    case If(_, _, _) => assert Eval(d, p, e, args, floor, s) == EvalIf(d, p, e, args, floor, s);
    case When(_, _) => assert Eval(d, p, e, args, floor, s) == EvalWhen(d, p, e, args, floor, s);
    case While(_, _) => assert Eval(d, p, e, args, floor, s) == EvalWhile(d, p, e, args, floor, s);
  }

  lemma {:induction false} IfAgrees(d: Definitions, p: Builtins, e: Core, args: seq<Value>, floor: nat, s: State)
    requires e.If? && floor <= |s.stack|
    ensures Leaves(s.stack, Of(d, p, e, args, s.globals, s.clock), Eval(d, p, e, args, floor, s))
    decreases s.clock, 1, e, 1
  {
    EvalAgrees(d, p, e.cond, args, floor, s);
    var r := Of(d, p, e.cond, args, s.globals, s.clock);
    if r.OutOfTime? { TimedOut(d, p, e, e.cond, args, floor, s); }
    if r.Worth? && r.values != [] {
      var st, v := s.stack + Front(r.values), Last(r.values);
      FrontAndLast(s.stack, r.values);
      Laws.IfTakes(d, p, e.cond, e.yes, e.no, args, floor, s, st, v, r.globals, r.ticks);
      hide Eval;
      var b := if v == Nil then e.no else e.yes;
      EvalAgrees(d, p, b, args, floor, State(st, r.globals, r.ticks));
      OnTopOfThat(s.stack, Front(r.values), Of(d, p, b, args, r.globals, r.ticks),
                  Eval(d, p, b, args, floor, State(st, r.globals, r.ticks)));
    }
  }

  lemma {:induction false} WhenAgrees(d: Definitions, p: Builtins, e: Core, args: seq<Value>, floor: nat, s: State)
    requires e.When? && floor <= |s.stack|
    ensures Leaves(s.stack, Of(d, p, e, args, s.globals, s.clock), Eval(d, p, e, args, floor, s))
    decreases s.clock, 1, e, 1
  {
    EvalAgrees(d, p, e.cond, args, floor, s);
    var r := Of(d, p, e.cond, args, s.globals, s.clock);
    if r.OutOfTime? { TimedOut(d, p, e, e.cond, args, floor, s); }
    if r.Worth? && r.values != [] {
      var st, v := s.stack + Front(r.values), Last(r.values);
      FrontAndLast(s.stack, r.values);
      Laws.WhenTakes(d, p, e.cond, e.body, args, floor, s, st, v, r.globals, r.ticks);
      hide Eval;
      if v != Nil {
        EvalAgrees(d, p, e.body, args, floor, State(st, r.globals, r.ticks));
        OnTopOfThat(s.stack, Front(r.values), Of(d, p, e.body, args, r.globals, r.ticks),
                    Eval(d, p, e.body, args, floor, State(st, r.globals, r.ticks)));
      }
    }
  }

  lemma {:induction false} WhileAgrees(d: Definitions, p: Builtins, e: Core, args: seq<Value>, floor: nat, s: State)
    requires e.While? && floor <= |s.stack|
    ensures Leaves(s.stack, Of(d, p, e, args, s.globals, s.clock), Eval(d, p, e, args, floor, s))
    ensures Of(d, p, e, args, s.globals, s.clock) == OfWhile(d, p, e, args, s.globals, s.clock)
    decreases s.clock, 1, e, 1
  {
    EvalAgrees(d, p, e.cond, args, floor, s);
    var r := Of(d, p, e.cond, args, s.globals, s.clock);
    if r.OutOfTime? { TimedOut(d, p, e, e.cond, args, floor, s); }
    if r.Worth? && r.values != [] {
      var st, v := s.stack + Front(r.values), Last(r.values);
      FrontAndLast(s.stack, r.values);
      Laws.WhileTakes(d, p, e.cond, e.body, args, floor, s, st, v, r.globals, r.ticks);
      if v != Nil {
        hide Eval;
        EvalAgrees(d, p, e.body, args, floor, State(st, r.globals, r.ticks));
        var q := Of(d, p, e.body, args, r.globals, r.ticks);
        if q.Worth? && q.ticks > 0 {
          Regroup(s.stack, Front(r.values), q.values);
          var s2 := State(st + q.values, q.globals, q.ticks - 1);
          WhileAgrees(d, p, e, args, floor, s2);
          OnTopOfThat(s.stack, Front(r.values) + q.values, Of(d, p, e, args, q.globals, q.ticks - 1),
                      Eval(d, p, e, args, floor, s2));
        }
      }
    }
  }

  lemma {:induction false} AllAgrees(d: Definitions, p: Builtins, es: Cores, args: seq<Value>, floor: nat, s: State)
    requires floor <= |s.stack|
    ensures Leaves(s.stack, OfAll(d, p, es, args, s.globals, s.clock), EvalAll(d, p, es, args, floor, s))
    decreases s.clock, 1, es, 1
  {
    hide Eval, Of;
    match es
    case End => Nothing(s.stack);
    case Cons(e, rest) =>
      EvalAgrees(d, p, e, args, floor, s);
      var r := Of(d, p, e, args, s.globals, s.clock);
      if r.Worth? {
        var s1 := State(s.stack + r.values, r.globals, r.ticks);
        AllAgrees(d, p, rest, args, floor, s1);
        OnTopOfThat(s.stack, r.values, OfAll(d, p, rest, args, r.globals, r.ticks),
                    EvalAll(d, p, rest, args, floor, s1));
      }
  }

  lemma {:induction false} AppAgrees(d: Definitions, p: Builtins, e: Core, args: seq<Value>, floor: nat, s: State)
    requires e.App? && floor <= |s.stack|
    ensures Leaves(s.stack, Of(d, p, e, args, s.globals, s.clock), Eval(d, p, e, args, floor, s))
    decreases s.clock, 1, e, 1
  {
    hide EvalAll, OfAll, OfCall, Apply;
    AllAgrees(d, p, e.args, args, floor, s);
    var r := OfAll(d, p, e.args, args, s.globals, s.clock);
    if r.Worth? {
      var s1 := State(s.stack + r.values, r.globals, r.ticks);
      if e.fn.Some? {
        CallAgrees(d, p, e.fn.value, Count(e.args), s.stack, r.values, floor, r.globals, r.ticks);
      } else if e.name in r.globals && r.globals[e.name].Fun? {
        CallAgrees(d, p, r.globals[e.name].id, Count(e.args), s.stack, r.values, floor, r.globals, r.ticks);
      }
    }
  }

  lemma {:induction false} CallAgrees(d: Definitions, p: Builtins, id: nat, argc: nat, st: seq<Value>, vs: seq<Value>,
                                      floor: nat, g: Globals, c: nat)
    requires floor <= |st|
    ensures Leaves(st, OfCall(d, p, id, argc, vs, g, c), Apply(d, p, id, argc, floor, State(st + vs, g, c)))
    decreases c, 0, 1
  {
    hide Apply, OfFunction;
    if argc <= |vs| && id < |d| {
      var low, args := vs[..|vs| - argc], vs[|vs| - argc..];
      assert vs == low + args;
      Regroup(st, low, args);
      FunctionAgrees(d, p, id, st + low, args, floor, g, c);
      OnTopOfThat(st, low, OfFunction(d, p, id, args, g, c), Apply(d, p, id, argc, floor, State(st + vs, g, c)));
    }
  }

  /** Applying a function to arguments on the stack leaves in their place what the function makes of them. */
  lemma {:induction false} FunctionAgrees(d: Definitions, p: Builtins, id: nat, st: seq<Value>, args: seq<Value>,
                                          floor: nat, g: Globals, c: nat)
    requires id < |d| && floor <= |st|
    ensures Leaves(st, OfFunction(d, p, id, args, g, c), Apply(d, p, id, |args|, floor, State(st + args, g, c)))
    decreases c, 0, 0
  {
    hide Eval, IterateSource, OfIteration, Of, SetEach;
    Laws.OnTop(st, args);
    match d[id]
    case Primitive(_) => Nothing(st);
    case Keyword(_) => FrameGoes(st, args, []);
    case Iterates(k) =>
      if c > 0 {
        IterationAgrees(d, p, k, st, args, g, c - 1);
      }
    case Defined(_, body) =>
      if c > 0 {
        var s1 := State(st + args, g, c - 1);
        EvalAgrees(d, p, body, args, |s1.stack|, s1);
        var r := Of(d, p, body, args, g, c - 1);
        if r.Worth? { FrameGoes(st, args, r.values); }
      }
  }

  lemma {:induction false} FrameGoes(st: seq<Value>, args: seq<Value>, vs: seq<Value>)
    ensures (st + args + vs)[..|st|] + (st + args + vs)[|st| + |args|..] == st + vs
    ensures st + args + [] == st + args
  {
    assert st + args + vs == st + (args + vs);
  }

  /** What each of the functions wants. */
  lemma {:induction false} Wanted(k: Iteration, args: seq<Value>)
    ensures WellTyped(args, Wants(k)) <==>
      match k
      case Mapping => |args| == 2 && args[0].List? && args[1].Fun?
      case Folding => |args| == 3 && args[1].List? && args[2].Fun?
      case Repeating(_) => |args| == 2 && args[0].Num? && args[1].Fun?
  {
    var w := Wants(k);
    if |args| == |w| {
      assert WellTyped(args, w) ==> IsA(args[0], w[0]) && IsA(args[1], w[1]) && IsA(args[|args| - 1], w[|args| - 1]);
    }
  }

  lemma {:induction false} IterationStep(d: Definitions, p: Builtins, k: Iteration, st: seq<Value>, args: seq<Value>,
                                         g: Globals, c: nat)
    ensures IterateSource(d, p, k, |args|, State(st + args, g, c)) ==
      if !WellTyped(args, Wants(k)) then Done(State(st + [Nil], g, c))
      else
        var r := LoopSource(d, p, k, CalledBack(k, args), Inputs(k, args), Start(k, args), |st|, State(st, g, c));
        if r.NoAnswer? then r.outcome else Done(Push(r.state, r.value))
  {
    hide LoopSource, WellTyped, CalledBack, Inputs, Start, Wants;
    Laws.OnTop(st, args);
  }

  lemma {:induction false} IterationAgrees(d: Definitions, p: Builtins, k: Iteration, st: seq<Value>, args: seq<Value>,
                                           g: Globals, c: nat)
    ensures Leaves(st, OfIteration(d, p, k, args, g, c), IterateSource(d, p, k, |args|, State(st + args, g, c)))
    decreases c, 1
  {
    hide LoopSource, IterateSource, OfMap, OfFold, OfTimes, Numbers, WellTyped;
    Wanted(k, args);
    IterationStep(d, p, k, st, args, g, c);
    if WellTyped(args, Wants(k)) {
      var s := State(st, g, c);
      match k
      case Mapping => MapAgrees(d, p, args[1].id, args[0].items, [], |st|, s);
      case Folding => FoldAgrees(d, p, args[2].id, args[0], args[1].items, |st|, s);
      case Repeating(indexed) =>
        TimesAgrees(d, p, args[1].id, 0, args[0].n, indexed, [], |st|, s);
        assert Numbers(args[0].n)[0..] == Numbers(args[0].n);
    }
    Delivers(st, OfIteration(d, p, k, args, g, c));
  }

  lemma {:induction false} Delivers(st: seq<Value>, r: Worth)
    ensures r.Worth? && r.values != [] ==> (st + Front(r.values)) + [Last(r.values)] == st + r.values
  {
  }

  lemma {:induction false} AskAgrees(d: Definitions, p: Builtins, id: nat, args: seq<Value>, floor: nat, s: State)
    requires floor <= |s.stack|
    ensures Answers(s.stack, OfAsk(d, p, id, args, s.globals, s.clock), AskSource(d, p, id, args, floor, s))
    decreases s.clock, 0, 1
  {
    hide Apply, OfFunction;
    if id < |d| {
      assert s.(stack := s.stack + args) == State(s.stack + args, s.globals, s.clock);
      FunctionAgrees(d, p, id, s.stack, args, |s.stack|, s.globals, s.clock);
      var r := OfFunction(d, p, id, args, s.globals, s.clock);
      if r.Worth? && r.values != [] {
        FrontAndLast(s.stack, r.values);
        Laws.TopOff(s.stack + Front(r.values), Last(r.values));
      }
    }
  }

  lemma {:induction false} AnswersOnTop(st: seq<Value>, left: seq<Value>, r: Gathered, a: Answer)
    requires Answers(st + left, r, a)
    ensures Answers(st, Before(left, r), a)
  {
    if r.Gathered? { Regroup(st, left, r.left); }
  }

  lemma {:induction false} MapAgrees(d: Definitions, p: Builtins, id: nat, xs: seq<Value>, ys: seq<Value>, floor: nat,
                                     s: State)
    requires floor <= |s.stack|
    ensures Answers(s.stack, OfMap(d, p, id, xs, ys, s.globals, s.clock),
                    LoopSource(d, p, Mapping, id, xs, Value.List(ys), floor, s))
    decreases s.clock, 0, 2 + |xs|
  {
    hide AskSource, OfAsk;
    if xs == [] {
      Nothing(s.stack);
    } else {
      AskAgrees(d, p, id, [xs[0]], floor, s);
      var r := OfAsk(d, p, id, [xs[0]], s.globals, s.clock);
      if r.Gathered? {
        var s1 := State(s.stack + r.left, r.globals, r.ticks);
        MapAgrees(d, p, id, xs[1..], ys + [r.acc], floor, s1);
        AnswersOnTop(s.stack, r.left, OfMap(d, p, id, xs[1..], ys + [r.acc], r.globals, r.ticks),
                     LoopSource(d, p, Mapping, id, xs[1..], Value.List(ys + [r.acc]), floor, s1));
      }
    }
  }

  lemma {:induction false} FoldAgrees(d: Definitions, p: Builtins, id: nat, v: Value, xs: seq<Value>, floor: nat,
                                      s: State)
    requires floor <= |s.stack|
    ensures Answers(s.stack, OfFold(d, p, id, v, xs, s.globals, s.clock),
                    LoopSource(d, p, Folding, id, xs, v, floor, s))
    decreases s.clock, 0, 2 + |xs|
  {
    hide AskSource, OfAsk;
    if xs == [] {
      Nothing(s.stack);
    } else {
      AskAgrees(d, p, id, [v, xs[0]], floor, s);
      var r := OfAsk(d, p, id, [v, xs[0]], s.globals, s.clock);
      if r.Gathered? {
        var s1 := State(s.stack + r.left, r.globals, r.ticks);
        FoldAgrees(d, p, id, r.acc, xs[1..], floor, s1);
        AnswersOnTop(s.stack, r.left, OfFold(d, p, id, r.acc, xs[1..], r.globals, r.ticks),
                     LoopSource(d, p, Folding, id, xs[1..], r.acc, floor, s1));
      }
    }
  }

  lemma {:induction false} TimesAgrees(d: Definitions, p: Builtins, id: nat, i: nat, n: int, indexed: bool,
                                       ys: seq<Value>, floor: nat, s: State)
    requires floor <= |s.stack| && i <= |Numbers(n)|
    ensures Answers(s.stack, OfTimes(d, p, id, i, n, indexed, ys, s.globals, s.clock),
                    LoopSource(d, p, Repeating(indexed), id, Numbers(n)[i..], Value.List(ys), floor, s))
    decreases s.clock, 0, 2 + |Numbers(n)| - i
  {
    hide AskSource, OfAsk, Numbers;
    if i >= n {
      Nothing(s.stack);
    } else {
      var args := if indexed then [Num(i)] else [];
      AskAgrees(d, p, id, args, floor, s);
      assert Numbers(n)[i..][0] == Num(i) && Numbers(n)[i..][1..] == Numbers(n)[i + 1..];
      var r := OfAsk(d, p, id, args, s.globals, s.clock);
      if r.Gathered? {
        var s1 := State(s.stack + r.left, r.globals, r.ticks);
        TimesAgrees(d, p, id, i + 1, n, indexed, ys + [r.acc], floor, s1);
        AnswersOnTop(s.stack, r.left, OfTimes(d, p, id, i + 1, n, indexed, ys + [r.acc], r.globals, r.ticks),
          LoopSource(d, p, Repeating(indexed), id, Numbers(n)[i + 1..], Value.List(ys + [r.acc]), floor, s1));
      }
    }
  }
}
