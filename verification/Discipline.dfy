/** Stack discipline: expressions without `when` and `while` push exactly one value, and never reach below it. */
module Discipline {
  import opened Options
  import opened Bytecode
  import opened Machine
  import opened Meaning
  import opened Settings

  /** Names that are called before they are known at compile time, with their number of arguments. */
  type Signature = map<string, nat>

  /** Function `id` may be called with `argc` arguments. */
  predicate Fits(d: Definitions, id: nat, argc: nat) {
    id < |d| && match d[id]
      case Primitive(_) => true
      case Iterates(_) => false
      case Keyword(_) => false
      case Defined(params, _) => |params| == argc
  }

  predicate OneValued(d: Definitions, sig: Signature, arity: nat, e: Core) {
    match e
    case Const(_) => true
    case Global(_) => true
    case Param(i) => i < arity
    case App(x, fn, es) =>
      AllOneValued(d, sig, arity, es)
      && (if fn.Some? then Fits(d, fn.value, Count(es)) else x in sig && sig[x] == Count(es))
    case If(c, a, b) => OneValued(d, sig, arity, c) && OneValued(d, sig, arity, a) && OneValued(d, sig, arity, b)
    case Assign(x, a) => x !in sig && OneValued(d, sig, arity, a)
    case NoApp(es) => es == End
    case Then(a, b) => a == Skip && OneValued(d, sig, arity, b)
    case _ => false
  }

  predicate AllOneValued(d: Definitions, sig: Signature, arity: nat, es: Cores) {
    match es
    case End => true
    case Cons(e, rest) => OneValued(d, sig, arity, e) && AllOneValued(d, sig, arity, rest)
  }

  /** The names of the signature are bound to functions that fit. */
  ghost predicate Conforms(d: Definitions, sig: Signature, g: Globals) {
    forall x :: x in sig ==> x in g && g[x].Fun? && Fits(d, g[x].id, sig[x])
  }

  /** C functions return a value and leave the names of the signature bound to functions that fit. */
  ghost predicate Returning(d: Definitions, sig: Signature, p: Builtins) {
    forall cid, args, g :: Conforms(d, sig, g) ==>
      p(cid, args, g).value.Some? && Conforms(d, sig, SetEach(g, p(cid, args, g).settings))
  }

  predicate Disciplined(d: Definitions, sig: Signature) {
    forall id :: 0 <= id < |d| && d[id].Defined? ==> OneValued(d, sig, |d[id].params|, d[id].body)
  }

  /** What a disciplined expression comes to: it may run for ever, but it never gets stuck. */
  ghost predicate Pushes(d: Definitions, sig: Signature, n: nat, s: State, r: Outcome) {
    r.Timeout? || (r.Done? && Conforms(d, sig, r.state.globals)
                   && |r.state.stack| == |s.stack| + n && r.state.stack[..|s.stack|] == s.stack)
  }

  /** Exactly one value more, everything below as it was, however deep the calls. */
  lemma {:induction false} PushesOne(d: Definitions, sig: Signature, p: Builtins, e: Core,
                                     args: seq<Value>, floor: nat, s: State)
    requires Disciplined(d, sig) && Returning(d, sig, p) && Conforms(d, sig, s.globals)
    requires OneValued(d, sig, |args|, e) && floor <= |s.stack|
    ensures Pushes(d, sig, 1, s, Eval(d, p, e, args, floor, s))
    decreases s.clock, 1, e, 1
  {
    hide Conforms, EvalIf, EvalCondition, EvalAll, Call;
    match e
    case Const(_) =>
    case Global(_) =>
    case Param(_) =>
    case App(x, fn, es) =>
      PushesEach(d, sig, p, es, args, floor, s);
      var r := EvalAll(d, p, es, args, floor, s);
      if r.Done? {
        CallPushesOne(d, sig, p, fn, x, Count(es), floor, r.state);
        var q := Call(d, p, fn, x, Count(es), floor, r.state);
        if q.Done? {
          assert q.state.stack[..|s.stack|] == q.state.stack[..|r.state.stack| - Count(es)][..|s.stack|];
        }
      }
    case If(_, _, _) => IfPushesOne(d, sig, p, e, args, floor, s);
    case NoApp(_) => NothingToDo(d, p, args, floor, s);
    case Then(_, b) =>
      NothingToDo(d, p, args, floor, s);
      PushesOne(d, sig, p, b, args, floor, s);
    case Assign(x, a) =>
      PushesOne(d, sig, p, a, args, floor, s);
      var r := Eval(d, p, a, args, floor, s);
      if r.Done? {
        SetKeepsConforming(d, sig, r.state, x);
      }
  }

  lemma NothingToDo(d: Definitions, p: Builtins, args: seq<Value>, floor: nat, s: State)
    requires floor <= |s.stack|
    ensures EvalAll(d, p, End, args, floor, s) == Done(s) && Eval(d, p, Skip, args, floor, s) == Done(s)
  {
  }

  lemma SetKeepsConforming(d: Definitions, sig: Signature, s: State, x: string)
    requires Conforms(d, sig, s.globals) && x !in sig
    ensures Conforms(d, sig, SetTop(s, x).globals)
  {
  }

  lemma {:induction false} IfPushesOne(d: Definitions, sig: Signature, p: Builtins, e: Core,
                                       args: seq<Value>, floor: nat, s: State)
    requires Disciplined(d, sig) && Returning(d, sig, p) && Conforms(d, sig, s.globals)
    requires e.If? && OneValued(d, sig, |args|, e) && floor <= |s.stack|
    ensures Pushes(d, sig, 1, s, EvalIf(d, p, e, args, floor, s))
    decreases s.clock, 1, e, 0
  {
    hide Conforms, Eval;
    PushesOne(d, sig, p, e.cond, args, floor, s);
    var r := Eval(d, p, e.cond, args, floor, s);
    if r.Done? {
      var c := PopCondition(floor, r.state).value.state;
      assert c.stack == s.stack;
      PushesOne(d, sig, p, e.yes, args, floor, c);
      PushesOne(d, sig, p, e.no, args, floor, c);
    }
  }

  /** Arguments are pushed one by one in source order, so the call that follows sees exactly them. */
  lemma {:induction false} PushesEach(d: Definitions, sig: Signature, p: Builtins, es: Cores,
                                      args: seq<Value>, floor: nat, s: State)
    requires Disciplined(d, sig) && Returning(d, sig, p) && Conforms(d, sig, s.globals)
    requires AllOneValued(d, sig, |args|, es) && floor <= |s.stack|
    ensures Pushes(d, sig, Count(es), s, EvalAll(d, p, es, args, floor, s))
    decreases s.clock, 1, es, 0
  {
    hide Conforms, Eval;
    match es
    case End =>
    case Cons(e, rest) =>
      PushesOne(d, sig, p, e, args, floor, s);
      var r := Eval(d, p, e, args, floor, s);
      if r.Done? {
        PushesEach(d, sig, p, rest, args, floor, r.state);
        var q := EvalAll(d, p, rest, args, floor, r.state);
        if q.Done? {
          assert q.state.stack[..|s.stack|] == q.state.stack[..|r.state.stack|][..|s.stack|];
        }
      }
  }

  /** The arguments go, one result comes. */
  lemma {:induction false} CallPushesOne(d: Definitions, sig: Signature, p: Builtins, fn: Option<nat>, x: string,
                                         argc: nat, floor: nat, s: State)
    requires Disciplined(d, sig) && Returning(d, sig, p) && Conforms(d, sig, s.globals)
    requires if fn.Some? then Fits(d, fn.value, argc) else x in sig && sig[x] == argc
    requires floor + argc <= |s.stack|
    ensures var r := Call(d, p, fn, x, argc, floor, s);
      r.Timeout? || (r.Done? && Conforms(d, sig, r.state.globals)
        && |r.state.stack| == |s.stack| - argc + 1
        && r.state.stack[..|s.stack| - argc] == s.stack[..|s.stack| - argc])
    decreases s.clock, 0
  {
    hide Eval;
    var id := Callee(fn, x, s.globals).value;
    assert Fits(d, id, argc);
    var base := |s.stack| - argc;
    match d[id]
    case Primitive(cid) =>
      assert p(cid, s.stack[base..], s.globals).value.Some?;
    case Defined(params, body) =>
      if s.clock > 0 {
        var s1 := s.(clock := s.clock - 1);
        PushesOne(d, sig, p, body, s.stack[base..], |s.stack|, s1);
      }
  }
}
