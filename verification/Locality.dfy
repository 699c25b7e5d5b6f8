/** What a disciplined expression does depends on its arguments and the globals, not on what lies below on the stack. */
module Locality {
  import opened Options
  import opened Bytecode
  import opened Machine
  import opened Meaning
  import opened Discipline
  import Runs
  import Simulation

  /** What a run from a stack of height `base` leaves on top of it, with the globals and the ticks left. */
  datatype Effect = Effect(values: seq<Value>, globals: Globals, clock: nat) | Unfinished

  function EffectOf(base: nat, r: Outcome): Effect {
    if r.Done? && base <= |r.state.stack| then Effect(r.state.stack[base..], r.state.globals, r.state.clock)
    else Unfinished
  }

  predicate SameBut(s: State, s2: State) {
    s.globals == s2.globals && s.clock == s2.clock
  }

  /** Two evaluations of one expression in the same globals do the same, whatever is below. */
  lemma {:induction false} Local(d: Definitions, sig: Signature, p: Builtins, e: Core, args: seq<Value>,
                                 floor: nat, s: State, floor2: nat, s2: State)
    requires Disciplined(d, sig) && Returning(d, sig, p) && Conforms(d, sig, s.globals)
    requires OneValued(d, sig, |args|, e) && floor <= |s.stack| && floor2 <= |s2.stack| && SameBut(s, s2)
    ensures EffectOf(|s.stack|, Eval(d, p, e, args, floor, s)) == EffectOf(|s2.stack|, Eval(d, p, e, args, floor2, s2))
    decreases s.clock, 1, e, 1
  {
    hide Conforms, Disciplined, Returning, EvalIf, EvalCondition, EvalAll, Call;
    match e
    case Const(_) =>
    case Global(_) =>
    case Param(_) =>
    case App(_, _, _) =>
      AppIsLocal(d, sig, p, e, args, floor, s, floor2, s2);
    case If(_, _, _) =>
      IfIsLocal(d, sig, p, e, args, floor, s, floor2, s2);
    case NoApp(_) =>
      NothingToDo(d, p, args, floor, s);
      NothingToDo(d, p, args, floor2, s2);
    case Then(_, b) =>
      NothingToDo(d, p, args, floor, s);
      NothingToDo(d, p, args, floor2, s2);
      Local(d, sig, p, b, args, floor, s, floor2, s2);
    case Assign(x, a) =>
      PushesOne(d, sig, p, a, args, floor, s);
      PushesOne(d, sig, p, a, args, floor2, s2);
      Local(d, sig, p, a, args, floor, s, floor2, s2);
      SetsTheSame(x, |s.stack|, Eval(d, p, a, args, floor, s), |s2.stack|, Eval(d, p, a, args, floor2, s2));
  }

  lemma {:induction false} AppIsLocal(d: Definitions, sig: Signature, p: Builtins, e: Core, args: seq<Value>,
                                      floor: nat, s: State, floor2: nat, s2: State)
    requires Disciplined(d, sig) && Returning(d, sig, p) && Conforms(d, sig, s.globals)
    requires e.App? && OneValued(d, sig, |args|, e) && floor <= |s.stack| && floor2 <= |s2.stack| && SameBut(s, s2)
    ensures EffectOf(|s.stack|, Eval(d, p, e, args, floor, s)) == EffectOf(|s2.stack|, Eval(d, p, e, args, floor2, s2))
    decreases s.clock, 1, e, 0
  {
    hide Conforms, Disciplined, Returning, EvalAll, Call;
    PushesEach(d, sig, p, e.args, args, floor, s);
    PushesEach(d, sig, p, e.args, args, floor2, s2);
    LocalEach(d, sig, p, e.args, args, floor, s, floor2, s2);
    var r, r2 := EvalAll(d, p, e.args, args, floor, s), EvalAll(d, p, e.args, args, floor2, s2);
    if r.Done? {
      CallIsLocal(d, sig, p, e.fn, e.name, Count(e.args), floor, r.state, floor2, r2.state);
    }
  }

  lemma SetsTheSame(x: string, base: nat, r: Outcome, base2: nat, r2: Outcome)
    requires EffectOf(base, r) == EffectOf(base2, r2)
    requires r.Done? ==> |r.state.stack| == base + 1
    requires r2.Done? ==> |r2.state.stack| == base2 + 1
    ensures r.Done? && r2.Done? ==>
      EffectOf(base, Done(SetTop(r.state, x))) == EffectOf(base2, Done(SetTop(r2.state, x)))
  {
    if r.Done? && r2.Done? {
      assert r.state.stack[base..] == [r.state.stack[base]] && r2.state.stack[base2..] == [r2.state.stack[base2]];
    }
  }

  lemma {:induction false} IfIsLocal(d: Definitions, sig: Signature, p: Builtins, e: Core, args: seq<Value>,
                                     floor: nat, s: State, floor2: nat, s2: State)
    requires Disciplined(d, sig) && Returning(d, sig, p) && Conforms(d, sig, s.globals)
    requires e.If? && OneValued(d, sig, |args|, e) && floor <= |s.stack| && floor2 <= |s2.stack| && SameBut(s, s2)
    ensures EffectOf(|s.stack|, EvalIf(d, p, e, args, floor, s)) ==
      EffectOf(|s2.stack|, EvalIf(d, p, e, args, floor2, s2))
    decreases s.clock, 1, e, 0
  {
    hide Conforms, Disciplined, Returning, Eval;
    PushesOne(d, sig, p, e.cond, args, floor, s);
    PushesOne(d, sig, p, e.cond, args, floor2, s2);
    Local(d, sig, p, e.cond, args, floor, s, floor2, s2);
    var r, r2 := Eval(d, p, e.cond, args, floor, s), Eval(d, p, e.cond, args, floor2, s2);
    if r.Done? {
      TopsAgree(|s.stack|, r.state.stack, |s2.stack|, r2.state.stack);
      var c, c2 := PopCondition(floor, r.state).value.state, PopCondition(floor2, r2.state).value.state;
      assert c.stack == s.stack && c2.stack == s2.stack;
      Local(d, sig, p, e.yes, args, floor, c, floor2, c2);
      Local(d, sig, p, e.no, args, floor, c, floor2, c2);
    }
  }

  lemma TopsAgree(base: nat, a: seq<Value>, base2: nat, b: seq<Value>)
    requires |a| == base + 1 && |b| == base2 + 1 && a[base..] == b[base2..]
    ensures a[base] == b[base2]
  {
    assert a[base..][0] == b[base2..][0];
  }

  lemma {:induction false} LocalEach(d: Definitions, sig: Signature, p: Builtins, es: Cores, args: seq<Value>,
                                     floor: nat, s: State, floor2: nat, s2: State)
    requires Disciplined(d, sig) && Returning(d, sig, p) && Conforms(d, sig, s.globals)
    requires AllOneValued(d, sig, |args|, es) && floor <= |s.stack| && floor2 <= |s2.stack| && SameBut(s, s2)
    ensures EffectOf(|s.stack|, EvalAll(d, p, es, args, floor, s)) ==
      EffectOf(|s2.stack|, EvalAll(d, p, es, args, floor2, s2))
    decreases s.clock, 1, es, 0
  {
    hide Conforms, Disciplined, Returning, Eval;
    match es
    case End =>
    case Cons(e, rest) =>
      PushesOne(d, sig, p, e, args, floor, s);
      PushesOne(d, sig, p, e, args, floor2, s2);
      Local(d, sig, p, e, args, floor, s, floor2, s2);
      var r, r2 := Eval(d, p, e, args, floor, s), Eval(d, p, e, args, floor2, s2);
      if r.Done? {
        PushesEach(d, sig, p, rest, args, floor, r.state);
        PushesEach(d, sig, p, rest, args, floor2, r2.state);
        LocalEach(d, sig, p, rest, args, floor, r.state, floor2, r2.state);
        var q, q2 := EvalAll(d, p, rest, args, floor, r.state), EvalAll(d, p, rest, args, floor2, r2.state);
        if q.Done? {
          FirstAndRest(|s.stack|, r.state.stack, q.state.stack);
          FirstAndRest(|s2.stack|, r2.state.stack, q2.state.stack);
        }
      }
  }

  lemma FirstAndRest(base: nat, r: seq<Value>, q: seq<Value>)
    requires base <= |r| <= |q| && q[..|r|] == r
    ensures q[base..] == r[base..] + q[|r|..]
  {
    assert q == r + q[|r|..];
  }

  /** Calls with the same arguments on top give the same result. */
  lemma {:induction false} CallIsLocal(d: Definitions, sig: Signature, p: Builtins, fn: Option<nat>, x: string,
                                       argc: nat, floor: nat, s: State, floor2: nat, s2: State)
    requires Disciplined(d, sig) && Returning(d, sig, p) && Conforms(d, sig, s.globals)
    requires if fn.Some? then Fits(d, fn.value, argc) else x in sig && sig[x] == argc
    requires floor + argc <= |s.stack| && floor2 + argc <= |s2.stack| && SameBut(s, s2)
    requires s.stack[|s.stack| - argc..] == s2.stack[|s2.stack| - argc..]
    ensures EffectOf(|s.stack| - argc, Call(d, p, fn, x, argc, floor, s)) ==
      EffectOf(|s2.stack| - argc, Call(d, p, fn, x, argc, floor2, s2))
    decreases s.clock, 0
  {
    hide Eval, Apply, Disciplined, Returning, DestroyFrame, CallBuiltin;
    var id := Callee(fn, x, s.globals).value;
    assert Fits(d, id, argc);
    hide Conforms;
    var args := s.stack[|s.stack| - argc..];
    match d[id]
    case Primitive(cid) =>
      ApplyPrimitive(d, p, id, argc, floor, s);
      ApplyPrimitive(d, p, id, argc, floor2, s2);
      BuiltinIsLocal(p, cid, argc, s, s2);
    case Defined(params, body) =>
      ApplyDefined(d, p, id, argc, floor, s);
      ApplyDefined(d, p, id, argc, floor2, s2);
      BodyIsOneValued(d, sig, id);
      if s.clock > 0 {
        var t, t2 := s.(clock := s.clock - 1), s2.(clock := s2.clock - 1);
        PushesOne(d, sig, p, body, args, |s.stack|, t);
        PushesOne(d, sig, p, body, args, |s2.stack|, t2);
        Local(d, sig, p, body, args, |s.stack|, t, |s2.stack|, t2);
        FramesGo(argc, s.stack, Eval(d, p, body, args, |s.stack|, t), s2.stack, Eval(d, p, body, args, |s2.stack|, t2));
      }
  }

  lemma ApplyPrimitive(d: Definitions, p: Builtins, id: nat, argc: nat, floor: nat, s: State)
    requires id < |d| && d[id].Primitive? && floor + argc <= |s.stack|
    ensures Apply(d, p, id, argc, floor, s) == Done(CallBuiltin(p, d[id].cid, argc, s))
  {
    hide CallBuiltin;
  }

  lemma ApplyDefined(d: Definitions, p: Builtins, id: nat, argc: nat, floor: nat, s: State)
    requires id < |d| && d[id].Defined? && floor + argc <= |s.stack|
    ensures Apply(d, p, id, argc, floor, s) ==
      if s.clock == 0 then Timeout
      else
        var n := |s.stack|;
        var r := Eval(d, p, d[id].body, s.stack[n - argc..], n, s.(clock := s.clock - 1));
        if r.Done? then Done(DestroyFrame(Frame(n - argc, argc), r.state)) else r
  {
    hide Eval, DestroyFrame;
  }

  lemma BodyIsOneValued(d: Definitions, sig: Signature, id: nat)
    requires Disciplined(d, sig) && id < |d| && d[id].Defined?
    ensures OneValued(d, sig, |d[id].params|, d[id].body)
  {
  }

  lemma BuiltinIsLocal(p: Builtins, cid: nat, argc: nat, s: State, s2: State)
    requires argc <= |s.stack| && argc <= |s2.stack| && SameBut(s, s2)
    requires s.stack[|s.stack| - argc..] == s2.stack[|s2.stack| - argc..]
    ensures EffectOf(|s.stack| - argc, Done(CallBuiltin(p, cid, argc, s))) ==
      EffectOf(|s2.stack| - argc, Done(CallBuiltin(p, cid, argc, s2)))
  {
  }

  lemma FramesGo(argc: nat, a: seq<Value>, r: Outcome, b: seq<Value>, r2: Outcome)
    requires argc <= |a| && argc <= |b| && EffectOf(|a|, r) == EffectOf(|b|, r2)
    requires r.Done? && r2.Done? ==> |a| <= |r.state.stack| && |b| <= |r2.state.stack|
    ensures r.Done? && r2.Done? ==>
      EffectOf(|a| - argc, Done(DestroyFrame(Frame(|a| - argc, argc), r.state))) ==
      EffectOf(|b| - argc, Done(DestroyFrame(Frame(|b| - argc, argc), r2.state)))
  {
    if r.Done? && r2.Done? {
      assert DestroyFrame(Frame(|a| - argc, argc), r.state).stack[|a| - argc..] == r.state.stack[|a|..];
      assert DestroyFrame(Frame(|b| - argc, argc), r2.state).stack[|b| - argc..] == r2.state.stack[|b|..];
    }
  }

  // ----- the meaning of a disciplined function -----

  ghost predicate Halts(d: Definitions, p: Builtins, id: nat, args: seq<Value>, g: Globals, c: nat) {
    var r := Apply(d, p, id, |args|, 0, State(args, g, c));
    r.Done? && r.state.stack != []
  }

  /** The result of a call that ends some time, and the globals after it. */
  ghost function ResultOf(d: Definitions, p: Builtins, id: nat, args: seq<Value>, g: Globals): (Value, Globals) {
    if exists c: nat :: Halts(d, p, id, args, g, c) then
      var c: nat :| Halts(d, p, id, args, g, c);
      var r := Apply(d, p, id, |args|, 0, State(args, g, c));
      (r.state.stack[0], r.state.globals)
    else (Nil, g)
  }

  /** The globals in which the names of the signature are bound to functions that fit. */
  ghost function Conforming(d: Definitions, sig: Signature): iset<Globals> {
    iset g: Globals | Conforms(d, sig, g)
  }

  lemma ResultIsChosen(d: Definitions, p: Builtins, id: nat, args: seq<Value>, g: Globals, c: nat) returns (c0: nat)
    requires Halts(d, p, id, args, g, c)
    ensures Halts(d, p, id, args, g, c0)
    ensures var r := Apply(d, p, id, |args|, 0, State(args, g, c0)).state;
      ResultOf(d, p, id, args, g) == (r.stack[0], r.globals)
  {
    hide Apply;
    c0 :| Halts(d, p, id, args, g, c0)
      && ResultOf(d, p, id, args, g) ==
        (Apply(d, p, id, |args|, 0, State(args, g, c0)).state.stack[0],
         Apply(d, p, id, |args|, 0, State(args, g, c0)).state.globals);
  }

  /** A call on top of `base` does what the call on an empty stack does. */
  lemma CallAnywhere(d: Definitions, sig: Signature, p: Builtins, id: nat, base: seq<Value>, args: seq<Value>,
                     g: Globals, c: nat)
    requires Disciplined(d, sig) && Returning(d, sig, p) && Conforms(d, sig, g) && Fits(d, id, |args|)
    ensures var r := Apply(d, p, id, |args|, |base|, State(base + args, g, c));
      r.Timeout? || (r.Done? && Conforms(d, sig, r.state.globals) && Halts(d, p, id, args, g, c)
        && (var low := Apply(d, p, id, |args|, 0, State(args, g, c)).state;
            r.state.stack == base + [low.stack[0]] && r.state.globals == low.globals))
  {
    hide Conforms, Disciplined, Returning, Apply, Fits;
    var s, s2 := State(base + args, g, c), State(args, g, c);
    assert s.stack[|base|..] == args && args[0..] == args;
    CallPushesOne(d, sig, p, Some(id), "", |args|, |base|, s);
    CallIsLocal(d, sig, p, Some(id), "", |args|, |base|, s, 0, s2);
    CallPushesOne(d, sig, p, Some(id), "", |args|, 0, s2);
    var r, low := Apply(d, p, id, |args|, |base|, s), Apply(d, p, id, |args|, 0, s2);
    if r.Done? {
      OnTopOfBase(base, args, r.state.stack, low.state.stack);
    }
  }

  lemma OnTopOfBase(base: seq<Value>, args: seq<Value>, a: seq<Value>, b: seq<Value>)
    requires |a| == |base| + 1 && |b| == 1 && a[..|base|] == (base + args)[..|base|] && a[|base|..] == b[0..]
    ensures a == base + [b[0]]
  {
    assert a[..|base|] == base && a == a[..|base|] + a[|base|..] && b[0..] == [b[0]];
  }

  /** However deep on the stack and however long it takes: a disciplined function always comes to its one result. */
  lemma ResultIsOne(t: Table, d: Definitions, sig: Signature, p: Builtins, id: nat, base: seq<Value>, args: seq<Value>,
                    g: Globals, c: nat)
    requires Simulation.Implements(t, d) && Disciplined(d, sig) && Returning(d, sig, p)
    requires Conforms(d, sig, g) && Fits(d, id, |args|)
    ensures var r := Machine.Invoke(t, p, id, |args|, |base|, State(base + args, g, c));
      r.Timeout? || (r.Done? && Conforms(d, sig, r.state.globals)
        && r.state.stack == base + [ResultOf(d, p, id, args, g).0] && r.state.globals == ResultOf(d, p, id, args, g).1)
  {
    hide Conforms, Disciplined, Returning, Simulation.Implements, Apply, Machine.Invoke, Halts, ResultOf;
    Simulation.CallsAgree(t, d, p, id, |args|, |base|, State(base + args, g, c));
    CallAnywhere(d, sig, p, id, base, args, g, c);
    if Halts(d, p, id, args, g, c) {
      var c0 := ResultIsChosen(d, p, id, args, g, c);
      ClockDoesNotMatter(t, d, p, id, args, g, c, c0);
    }
  }

  lemma ClockDoesNotMatter(t: Table, d: Definitions, p: Builtins, id: nat, args: seq<Value>, g: Globals, c: nat,
                           c0: nat)
    requires Simulation.Implements(t, d) && Halts(d, p, id, args, g, c) && Halts(d, p, id, args, g, c0)
    ensures var r, r0 := Apply(d, p, id, |args|, 0, State(args, g, c)), Apply(d, p, id, |args|, 0, State(args, g, c0));
      r.state.stack == r0.state.stack && r.state.globals == r0.state.globals
  {
    hide Apply, Machine.Invoke, Simulation.Implements;
    var s, s0 := State(args, g, c), State(args, g, c0);
    Simulation.CallsAgree(t, d, p, id, |args|, 0, s);
    Simulation.CallsAgree(t, d, p, id, |args|, 0, s0);
    if c <= c0 {
      Runs.PatienceInInvoke(t, p, id, |args|, 0, s, c0 - c);
    } else {
      Runs.PatienceInInvoke(t, p, id, |args|, 0, s0, c - c0);
    }
  }
}
