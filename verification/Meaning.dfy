/** The structured language behind the bytecode, names resolved, and what its expressions mean. */
module Meaning {
  import opened Options
  import opened Bytecode
  import opened Machine

  /** An expression turns a stack into a stack: `when` may push nothing, `while` may push many values. */
  datatype Core =
    | Skip
    | Const(value: Value)
    | Param(index: nat)
    | Global(name: string)
    | App(name: string, fn: Option<nat>, args: Cores)
    | NoApp(args: Cores)             // the head names a global that is no function: the arguments, then nil
    | Then(first: Core, second: Core)
    | If(cond: Core, yes: Core, no: Core)
    | When(cond: Core, body: Core)
    | While(cond: Core, body: Core)
    | Assign(name: string, arg: Core)

  datatype Cores = End | Cons(head: Core, tail: Cores)

  /** A function as its source: what a user function does is its body. */
  datatype Definition =
    | Primitive(cid: nat)
    | Iterates(kind: Iteration)
    | Keyword(form: Form)
    | Defined(params: seq<string>, body: Core)

  type Definitions = seq<Definition>

  /** Left-to-right evaluation in a call with arguments `args`, whose own part of the stack starts at `floor`. */
  function Eval(d: Definitions, p: Builtins, e: Core, args: seq<Value>, floor: nat, s: State): (r: Outcome)
    requires floor <= |s.stack|
    ensures r.Done? ==> Keeps(floor, s, r.state)
    decreases s.clock, 1, e, 3
  {
    match e
    case Skip => Done(s)
    case Const(v) => Done(Push(s, v))
    case Param(i) => if i < |args| then Done(Push(s, args[i])) else Stuck
    case Global(x) => Done(Push(s, Lookup(s.globals, x)))
    case App(x, fn, es) =>
      var r := EvalAll(d, p, es, args, floor, s);
      if r.Done? then Call(d, p, fn, x, Count(es), floor, r.state) else r
    case NoApp(es) =>
      var r := EvalAll(d, p, es, args, floor, s);
      if r.Done? then Done(Push(r.state, Nil)) else r
    case Then(a, b) =>
      var r := Eval(d, p, a, args, floor, s);
      if r.Done? then Eval(d, p, b, args, floor, r.state) else r
    case If(_, _, _) => EvalIf(d, p, e, args, floor, s)
    case When(_, _) => EvalWhen(d, p, e, args, floor, s)
    case While(_, _) => EvalWhile(d, p, e, args, floor, s)
    case Assign(x, a) =>
      var r := Eval(d, p, a, args, floor, s);
      if r.Done? then Done(SetTop(r.state, x)) else r
  }

  function EvalIf(d: Definitions, p: Builtins, e: Core, args: seq<Value>, floor: nat, s: State): (r: Outcome)
    requires e.If? && floor <= |s.stack|
    ensures r.Done? ==> Keeps(floor, s, r.state)
    decreases s.clock, 1, e, 2
  {
    var r := EvalCondition(d, p, e.cond, args, floor, s);
    if r.No? then Eval(d, p, e.no, args, floor, r.state)
    else if r.Yes? then Eval(d, p, e.yes, args, floor, r.state)
    else r.outcome
  }

  function EvalWhen(d: Definitions, p: Builtins, e: Core, args: seq<Value>, floor: nat, s: State): (r: Outcome)
    requires e.When? && floor <= |s.stack|
    ensures r.Done? ==> Keeps(floor, s, r.state)
    decreases s.clock, 1, e, 2
  {
    var r := EvalCondition(d, p, e.cond, args, floor, s);
    if r.No? then Done(r.state)
    else if r.Yes? then Eval(d, p, e.body, args, floor, r.state)
    else r.outcome
  }

  /** Every turn leaves its values on the stack; going round once takes a tick. */
  function EvalWhile(d: Definitions, p: Builtins, e: Core, args: seq<Value>, floor: nat, s: State): (r: Outcome)
    requires e.While? && floor <= |s.stack|
    ensures r.Done? ==> Keeps(floor, s, r.state)
    decreases s.clock, 1, e, 2
  {
    var r := EvalCondition(d, p, e.cond, args, floor, s);
    if r.No? then Done(r.state)
    else if r.Failed? then r.outcome
    else
      var q := Eval(d, p, e.body, args, floor, r.state);
      if !q.Done? then q
      else if q.state.clock == 0 then Timeout
      else EvalWhile(d, p, e, args, floor, q.state.(clock := q.state.clock - 1))
  }

  datatype Condition = Yes(state: State) | No(state: State) | Failed(outcome: Outcome)

  function EvalCondition(d: Definitions, p: Builtins, e: Core, args: seq<Value>, floor: nat, s: State): (r: Condition)
    requires floor <= |s.stack|
    ensures r.Yes? || r.No? ==> Keeps(floor, s, r.state)
    ensures r.Failed? ==> !r.outcome.Done?
    decreases s.clock, 1, e, 4
  {
    var r := Eval(d, p, e, args, floor, s);
    if !r.Done? then Failed(r)
    else
      var c := PopCondition(floor, r.state);
      if c.None? then Failed(Stuck)
      else if c.value.isNil then No(c.value.state)
      else Yes(c.value.state)
  }

  function EvalAll(d: Definitions, p: Builtins, es: Cores, args: seq<Value>, floor: nat, s: State): (r: Outcome)
    requires floor <= |s.stack|
    ensures r.Done? ==> Keeps(floor, s, r.state)
    decreases s.clock, 1, es, 1
  {
    match es
    case End => Done(s)
    case Cons(e, rest) =>
      var r := Eval(d, p, e, args, floor, s);
      if r.Done? then EvalAll(d, p, rest, args, floor, r.state) else r
  }

  function Count(es: Cores): nat {
    match es
    case End => 0
    case Cons(_, rest) => 1 + Count(rest)
  }

  /** A call whose name means nothing, or no function, does nothing. */
  function Call(d: Definitions, p: Builtins, fn: Option<nat>, x: string, argc: nat, floor: nat, s: State): (r: Outcome)
    requires floor <= |s.stack|
    ensures r.Done? ==> Keeps(floor, s, r.state)
    decreases s.clock, 0, 1
  {
    var c := Callee(fn, x, s.globals);
    if c.None? then Done(s) else Apply(d, p, c.value, argc, floor, s)
  }

  /** A user function pushes what its body pushes in place of its arguments. */
  function Apply(d: Definitions, p: Builtins, id: nat, argc: nat, floor: nat, s: State): (r: Outcome)
    requires floor <= |s.stack|
    ensures r.Done? ==> Keeps(floor, s, r.state)
    decreases s.clock, 0, 0
  {
    if id >= |d| || |s.stack| < floor + argc then Stuck
    else
      var fr := Frame(|s.stack| - argc, argc);
      match d[id]
      case Primitive(cid) => Done(CallBuiltin(p, cid, argc, s))
      case Iterates(k) =>
        if s.clock == 0 then Timeout
        else
          var r := IterateSource(d, p, k, argc, s.(clock := s.clock - 1));
          if r.Done? then KeepsLess(fr.base, floor, s, r.state); r else r
      case Keyword(_) => Done(DestroyFrame(fr, s))
      case Defined(_, body) =>
        if s.clock == 0 then Timeout
        else
          var r := Eval(d, p, body, s.stack[fr.base..], fr.base + fr.argc, s.(clock := s.clock - 1));
          if r.Done? then DestroyKeeps(fr, floor, s, r.state); Done(DestroyFrame(fr, r.state)) else r
  }

  // ----- functions that call functions -----

  function AskSource(d: Definitions, p: Builtins, id: nat, args: seq<Value>, floor: nat, s: State): (r: Answer)
    requires floor <= |s.stack|
    ensures r.Answer? ==> Keeps(floor, s, r.state)
    ensures r.NoAnswer? ==> !r.outcome.Done?
    decreases s.clock, 0, 1
  {
    Taken(floor, s, Apply(d, p, id, |args|, |s.stack|, s.(stack := s.stack + args)), args)
  }

  /** One call for every input, in their order. */
  function LoopSource(d: Definitions, p: Builtins, k: Iteration, id: nat, xs: seq<Value>, acc: Value, floor: nat,
                      s: State)
    : (r: Answer)
    requires floor <= |s.stack|
    ensures r.Answer? ==> Keeps(floor, s, r.state)
    ensures r.NoAnswer? ==> !r.outcome.Done?
    decreases s.clock, 0, 2 + |xs|
  {
    if xs == [] then Answer(acc, s)
    else
      var r := AskSource(d, p, id, LoopArguments(k, acc, xs[0]), floor, s);
      if r.NoAnswer? then r else LoopSource(d, p, k, id, xs[1..], Gather(k, acc, r.value), floor, r.state)
  }

  function IterateSource(d: Definitions, p: Builtins, k: Iteration, argc: nat, s: State): (r: Outcome)
    requires argc <= |s.stack|
    ensures r.Done? ==> Keeps(|s.stack| - argc, s, r.state)
    decreases s.clock, 1
  {
    var base := |s.stack| - argc;
    var args := s.stack[base..];
    var low := s.(stack := s.stack[..base]);
    if !WellTyped(args, Wants(k)) then Done(Push(low, Nil))
    else
      var r := LoopSource(d, p, k, CalledBack(k, args), Inputs(k, args), Start(k, args), base, low);
      if r.NoAnswer? then r.outcome else Done(Push(r.state, r.value))
  }
}
