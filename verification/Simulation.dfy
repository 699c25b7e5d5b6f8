/** Compiled code does what its source means: the same outcome, tick for tick of the clock. */
module Simulation {
  import opened Options
  import opened Bytecode
  import opened Machine
  import opened Meaning
  import opened Codegen

  function BodyOf(f: Function): Body
    requires f.User?
  {
    Body(f.code, f.labels)
  }

  /** The code of `e` stands at `at` in function `me`. */
  predicate Placed(t: Table, me: nat, e: Core, at: nat, l: nat) {
    me < |t| && t[me].User? && Coded(BodyOf(t[me]), me, e, at, l)
  }

  /** The code of a function is the code of its body, and a waiting NOP at most. */
  predicate Realizes(t: Table, id: nat, def: Definition)
    requires id < |t|
  {
    match def
    case Primitive(cid) => t[id] == CFun(cid)
    case Iterates(k) => t[id] == Iter(k)
    case Keyword(form) => t[id] == Special(form)
    case Defined(params, body) =>
      t[id].User? && t[id].params == params && Placed(t, id, body, 0, 0) && EndsAt(t[id].code, Len(body))
  }

  predicate EndsAt(code: seq<Instr>, n: nat) {
    |code| == n || (|code| == n + 1 && code[n] == NOP)
  }

  predicate Implements(t: Table, d: Definitions) {
    |t| == |d| && forall id :: 0 <= id < |t| ==> Realizes(t, id, d[id])
  }

  /** The window of the running call holds exactly its own arguments. */
  predicate Framed(fr: Frame, args: seq<Value>, s: State) {
    fr.base + fr.argc <= |s.stack| && |args| == fr.argc && s.stack[fr.base..fr.base + fr.argc] == args
  }

  /** Whatever happens above the window and in nested calls, the window keeps the arguments. */
  lemma FrameIsStable(fr: Frame, args: seq<Value>, s: State, r: State)
    requires Framed(fr, args, s) && Keeps(fr.base + fr.argc, s, r)
    ensures Framed(fr, args, r)
  {
    assert r.stack[fr.base..fr.base + fr.argc] == r.stack[..fr.base + fr.argc][fr.base..]
      == s.stack[..fr.base + fr.argc][fr.base..] == s.stack[fr.base..fr.base + fr.argc];
  }

  /** What follows once `r` has come to its end: the run goes on at `pc`. */
  function Continue(t: Table, p: Builtins, me: nat, fr: Frame, pc: nat, r: Outcome): Outcome
    requires r.Done? ==> fr.base + fr.argc <= |r.state.stack|
  {
    if r.Done? then Exec(t, p, me, fr, pc, r.state) else r
  }

  predicate Ready(t: Table, me: nat, pc: nat, i: Instr) {
    me < |t| && t[me].User? && pc < |t[me].code| && t[me].code[pc] == i
  }

  // ----- single steps of the machine -----

  lemma StepPush(t: Table, p: Builtins, me: nat, fr: Frame, pc: nat, v: Value, s: State)
    requires fr.base + fr.argc <= |s.stack| && Ready(t, me, pc, PUSH(Some(v)))
    ensures Exec(t, p, me, fr, pc, s) == Exec(t, p, me, fr, pc + 1, Push(s, v))
  {
  }

  lemma StepLoad(t: Table, p: Builtins, me: nat, fr: Frame, pc: nat, i: nat, args: seq<Value>, s: State)
    requires Framed(fr, args, s) && Ready(t, me, pc, LOAD(i))
    ensures i < |args| ==> Exec(t, p, me, fr, pc, s) == Exec(t, p, me, fr, pc + 1, Push(s, args[i]))
    ensures i >= |args| ==> Exec(t, p, me, fr, pc, s) == Stuck
  {
    if i < |args| {
      assert args[i] == s.stack[fr.base..fr.base + fr.argc][i] == s.stack[fr.base + i];
    }
  }

  lemma StepGet(t: Table, p: Builtins, me: nat, fr: Frame, pc: nat, x: string, s: State)
    requires fr.base + fr.argc <= |s.stack| && Ready(t, me, pc, GET(x))
    ensures Exec(t, p, me, fr, pc, s) == Exec(t, p, me, fr, pc + 1, Push(s, Lookup(s.globals, x)))
  {
  }

  lemma StepSet(t: Table, p: Builtins, me: nat, fr: Frame, pc: nat, x: string, s: State)
    requires fr.base + fr.argc <= |s.stack| && Ready(t, me, pc, SET(x))
    ensures Exec(t, p, me, fr, pc, s) == Exec(t, p, me, fr, pc + 1, SetTop(s, x))
  {
  }

  lemma StepCall(t: Table, p: Builtins, me: nat, fr: Frame, pc: nat, x: string, fn: Option<nat>, argc: nat, s: State)
    requires fr.base + fr.argc <= |s.stack| && Ready(t, me, pc, CALL(x, fn, argc))
    ensures var c := Callee(fn, x, s.globals);
      Exec(t, p, me, fr, pc, s) ==
      if c.None? then Exec(t, p, me, fr, pc + 1, s)
      else Continue(t, p, me, fr, pc + 1, Invoke(t, p, c.value, argc, fr.base + fr.argc, s))
  {
  }

  lemma StepForward(t: Table, p: Builtins, me: nat, fr: Frame, pc: nat, l: LabelRef, to: nat, s: State)
    requires fr.base + fr.argc <= |s.stack| && Ready(t, me, pc, JMP(l)) && Destination(t, l) == Bound(me, to) && pc < to
    ensures Exec(t, p, me, fr, pc, s) == Exec(t, p, me, fr, to, s)
  {
  }

  lemma StepBack(t: Table, p: Builtins, me: nat, fr: Frame, pc: nat, l: LabelRef, to: nat, s: State)
    requires fr.base + fr.argc <= |s.stack| && Ready(t, me, pc, JMP(l)) && Destination(t, l) == Bound(me, to)
      && to <= pc
    ensures s.clock == 0 ==> Exec(t, p, me, fr, pc, s) == Timeout
    ensures s.clock > 0 ==> Exec(t, p, me, fr, pc, s) == Exec(t, p, me, fr, to, s.(clock := s.clock - 1))
  {
  }

  lemma StepBranch(t: Table, p: Builtins, me: nat, fr: Frame, pc: nat, l: LabelRef, to: nat, s: State)
    requires fr.base + fr.argc <= |s.stack| && Ready(t, me, pc, JN(l)) && Destination(t, l) == Bound(me, to) && pc < to
    ensures var c := PopCondition(fr.base + fr.argc, s);
      Exec(t, p, me, fr, pc, s) ==
      if c.None? then Stuck else Exec(t, p, me, fr, if c.value.isNil then to else pc + 1, c.value.state)
  {
  }

  lemma StepEnd(t: Table, p: Builtins, me: nat, fr: Frame, n: nat, s: State)
    requires fr.base + fr.argc <= |s.stack| && me < |t| && t[me].User? && EndsAt(t[me].code, n)
    ensures Exec(t, p, me, fr, n, s) == Done(s)
  {
    if |t[me].code| == n + 1 {
      assert Exec(t, p, me, fr, n, s) == Exec(t, p, me, fr, n + 1, s);
    }
  }

  // ----- the simulation, form by form -----

  /** The run of the code of `e` is the evaluation of `e`, and then whatever follows it. */
  lemma {:induction false} Simulates(t: Table, d: Definitions, p: Builtins, e: Core,
                                     me: nat, at: nat, l: nat, args: seq<Value>, fr: Frame, s: State)
    requires Implements(t, d) && Placed(t, me, e, at, l) && Framed(fr, args, s)
    ensures Exec(t, p, me, fr, at, s) ==
      Continue(t, p, me, fr, at + Len(e), Eval(d, p, e, args, fr.base + fr.argc, s))
    decreases s.clock, 1, e, 3
  {
    hide Exec, EvalIf, EvalWhen, EvalWhile, EvalAll, EvalCondition, Call;
    hide CodedAll, CodedThen, CodedIf, CodedWhen, CodedWhile, CodedAssign;
    match e
    case Skip =>
    case Const(v) => StepPush(t, p, me, fr, at, v, s);
    case Param(i) => StepLoad(t, p, me, fr, at, i, args, s);
    case Global(x) => StepGet(t, p, me, fr, at, x, s);
    case App(_, _, _) => SimulatesApp(t, d, p, e, me, at, l, args, fr, s);
    case NoApp(_) => SimulatesNoApp(t, d, p, e, me, at, l, args, fr, s);
    case Then(_, _) => SimulatesThen(t, d, p, e, me, at, l, args, fr, s);
    case If(_, _, _) => SimulatesIf(t, d, p, e, me, at, l, args, fr, s);
    case When(_, _) => SimulatesWhen(t, d, p, e, me, at, l, args, fr, s);
    case While(_, _) => SimulatesWhile(t, d, p, e, me, at, l, args, fr, s);
    case Assign(_, _) => SimulatesAssign(t, d, p, e, me, at, l, args, fr, s);
  }

  lemma {:induction false} SimulatesAll(t: Table, d: Definitions, p: Builtins, es: Cores,
                                        me: nat, at: nat, l: nat, args: seq<Value>, fr: Frame, s: State)
    requires Implements(t, d) && Framed(fr, args, s)
    requires me < |t| && t[me].User? && CodedAll(BodyOf(t[me]), me, es, at, l)
    ensures Exec(t, p, me, fr, at, s) ==
      Continue(t, p, me, fr, at + LenAll(es), EvalAll(d, p, es, args, fr.base + fr.argc, s))
    decreases s.clock, 1, es, 1
  {
    hide Exec, Coded, Eval, Len, Marks;
    match es
    case End =>
    case Cons(e, rest) =>
      Simulates(t, d, p, e, me, at, l, args, fr, s);
      var r := Eval(d, p, e, args, fr.base + fr.argc, s);
      if r.Done? {
        FrameIsStable(fr, args, s, r.state);
        SimulatesAll(t, d, p, rest, me, at + Len(e), l + Marks(e), args, fr, r.state);
      }
  }

  lemma {:induction false} SimulatesApp(t: Table, d: Definitions, p: Builtins, e: Core,
                                        me: nat, at: nat, l: nat, args: seq<Value>, fr: Frame, s: State)
    requires e.App? && Implements(t, d) && Placed(t, me, e, at, l) && Framed(fr, args, s)
    ensures Exec(t, p, me, fr, at, s) ==
      Continue(t, p, me, fr, at + Len(e), Eval(d, p, e, args, fr.base + fr.argc, s))
    decreases s.clock, 1, e, 2
  {
    hide Exec, EvalAll, Coded, CodedAll, Len, LenAll;
    UnfoldApp(BodyOf(t[me]), me, e, at, l);
    SimulatesAll(t, d, p, e.args, me, at, l, args, fr, s);
    var r := EvalAll(d, p, e.args, args, fr.base + fr.argc, s);
    if r.Done? {
      var argc := Count(e.args);
      StepCall(t, p, me, fr, at + LenAll(e.args), e.name, e.fn, argc, r.state);
      var c := Callee(e.fn, e.name, r.state.globals);
      if c.Some? {
        CallsAgree(t, d, p, c.value, argc, fr.base + fr.argc, r.state);
      }
    }
  }

  /** Calling a function by its code and by its source is the same. */
  lemma {:induction false} CallsAgree(t: Table, d: Definitions, p: Builtins, id: nat, argc: nat, floor: nat, s: State)
    requires Implements(t, d) && floor <= |s.stack|
    ensures Invoke(t, p, id, argc, floor, s) == Apply(d, p, id, argc, floor, s)
    decreases s.clock, 0
  {
    hide Exec, Eval, Iterate, IterateSource;
    if id < |t| && floor + argc <= |s.stack| {
      assert Realizes(t, id, d[id]);
      if d[id].Iterates? && s.clock > 0 {
        IterationsAgree(t, d, p, d[id].kind, argc, s.(clock := s.clock - 1));
      }
      if d[id].Defined? && s.clock > 0 {
        var fr := Frame(|s.stack| - argc, argc);
        var s1 := s.(clock := s.clock - 1);
        var body := d[id].body;
        Simulates(t, d, p, body, id, 0, 0, s.stack[fr.base..], fr, s1);
        var r := Eval(d, p, body, s.stack[fr.base..], fr.base + fr.argc, s1);
        if r.Done? {
          StepEnd(t, p, id, fr, Len(body), r.state);
        }
      }
    }
  }

  lemma {:induction false} IterationsAgree(t: Table, d: Definitions, p: Builtins, k: Iteration, argc: nat, s: State)
    requires Implements(t, d) && argc <= |s.stack|
    ensures Iterate(t, p, k, argc, s) == IterateSource(d, p, k, argc, s)
    decreases s.clock, 2
  {
    hide Loop, LoopSource;
    var base := |s.stack| - argc;
    var args := s.stack[base..];
    if WellTyped(args, Wants(k)) {
      LoopsAgree(t, d, p, k, CalledBack(k, args), Inputs(k, args), Start(k, args), base, s.(stack := s.stack[..base]));
    }
  }

  /** The calls that a C function makes are the same on both sides. */
  lemma {:induction false} LoopsAgree(t: Table, d: Definitions, p: Builtins, k: Iteration, id: nat, xs: seq<Value>,
                                      acc: Value, floor: nat, s: State)
    requires Implements(t, d) && floor <= |s.stack|
    ensures Loop(t, p, k, id, xs, acc, floor, s) == LoopSource(d, p, k, id, xs, acc, floor, s)
    decreases s.clock, 1, |xs|
  {
    hide Invoke, Apply, Implements;
    if xs != [] {
      var args := LoopArguments(k, acc, xs[0]);
      CallsAgree(t, d, p, id, |args|, |s.stack|, s.(stack := s.stack + args));
      var r := Ask(t, p, id, args, floor, s);
      if r.Answer? {
        LoopsAgree(t, d, p, k, id, xs[1..], Gather(k, acc, r.value), floor, r.state);
      }
    }
  }

  lemma {:induction false} SimulatesNoApp(t: Table, d: Definitions, p: Builtins, e: Core,
                                          me: nat, at: nat, l: nat, args: seq<Value>, fr: Frame, s: State)
    requires e.NoApp? && Implements(t, d) && Placed(t, me, e, at, l) && Framed(fr, args, s)
    ensures Exec(t, p, me, fr, at, s) ==
      Continue(t, p, me, fr, at + Len(e), Eval(d, p, e, args, fr.base + fr.argc, s))
    decreases s.clock, 1, e, 2
  {
    hide Exec, EvalAll, Coded, CodedAll, Len, LenAll;
    UnfoldNoApp(BodyOf(t[me]), me, e, at, l);
    SimulatesAll(t, d, p, e.args, me, at, l, args, fr, s);
    var r := EvalAll(d, p, e.args, args, fr.base + fr.argc, s);
    if r.Done? {
      StepPush(t, p, me, fr, at + LenAll(e.args), Nil, r.state);
    }
  }

  lemma {:induction false} SimulatesThen(t: Table, d: Definitions, p: Builtins, e: Core,
                                         me: nat, at: nat, l: nat, args: seq<Value>, fr: Frame, s: State)
    requires e.Then? && Implements(t, d) && Placed(t, me, e, at, l) && Framed(fr, args, s)
    ensures Exec(t, p, me, fr, at, s) ==
      Continue(t, p, me, fr, at + Len(e), Eval(d, p, e, args, fr.base + fr.argc, s))
    decreases s.clock, 1, e, 2
  {
    hide Exec, Coded, Len, Marks;
    UnfoldThen(BodyOf(t[me]), me, e, at, l);
    Simulates(t, d, p, e.first, me, at, l, args, fr, s);
    var r := Eval(d, p, e.first, args, fr.base + fr.argc, s);
    if r.Done? {
      FrameIsStable(fr, args, s, r.state);
      Simulates(t, d, p, e.second, me, at + Len(e.first), l + Marks(e.first), args, fr, r.state);
    }
  }

  lemma {:induction false} SimulatesAssign(t: Table, d: Definitions, p: Builtins, e: Core,
                                           me: nat, at: nat, l: nat, args: seq<Value>, fr: Frame, s: State)
    requires e.Assign? && Implements(t, d) && Placed(t, me, e, at, l) && Framed(fr, args, s)
    ensures Exec(t, p, me, fr, at, s) ==
      Continue(t, p, me, fr, at + Len(e), Eval(d, p, e, args, fr.base + fr.argc, s))
    decreases s.clock, 1, e, 2
  {
    hide Exec, Coded, Len, Marks;
    UnfoldAssign(BodyOf(t[me]), me, e, at, l);
    Simulates(t, d, p, e.arg, me, at, l, args, fr, s);
    var r := Eval(d, p, e.arg, args, fr.base + fr.argc, s);
    if r.Done? {
      StepSet(t, p, me, fr, at + Len(e.arg), e.name, r.state);
    }
  }

  /** A condition and the jump after it: on to the next instruction, or to `to`. */
  lemma {:induction false} SimulatesCondition(t: Table, d: Definitions, p: Builtins, c: Core, me: nat, at: nat, l: nat,
                                              label_: LabelRef, to: nat, args: seq<Value>, fr: Frame, s: State)
    requires Implements(t, d) && Placed(t, me, c, at, l) && Framed(fr, args, s)
    requires Ready(t, me, at + Len(c), JN(label_)) && Destination(t, label_) == Bound(me, to) && at + Len(c) < to
    ensures var r := EvalCondition(d, p, c, args, fr.base + fr.argc, s);
      Exec(t, p, me, fr, at, s) ==
      if r.Yes? then Exec(t, p, me, fr, at + Len(c) + 1, r.state)
      else if r.No? then Exec(t, p, me, fr, to, r.state)
      else r.outcome
    ensures var r := EvalCondition(d, p, c, args, fr.base + fr.argc, s);
      !r.Failed? ==> Framed(fr, args, r.state)
    decreases s.clock, 1, c, 4
  {
    hide Exec, Eval, Coded;
    Simulates(t, d, p, c, me, at, l, args, fr, s);
    var r := Eval(d, p, c, args, fr.base + fr.argc, s);
    if r.Done? {
      StepBranch(t, p, me, fr, at + Len(c), label_, to, r.state);
    }
    var q := EvalCondition(d, p, c, args, fr.base + fr.argc, s);
    if !q.Failed? {
      FrameIsStable(fr, args, s, q.state);
    }
  }

  lemma {:induction false} SimulatesIf(t: Table, d: Definitions, p: Builtins, e: Core,
                                       me: nat, at: nat, l: nat, args: seq<Value>, fr: Frame, s: State)
    requires e.If? && Implements(t, d) && Framed(fr, args, s)
    requires me < |t| && t[me].User? && CodedIf(BodyOf(t[me]), me, e, at, l)
    ensures Exec(t, p, me, fr, at, s) ==
      Continue(t, p, me, fr, at + Len(e.cond) + Len(e.yes) + Len(e.no) + 2,
               EvalIf(d, p, e, args, fr.base + fr.argc, s))
    decreases s.clock, 1, e, 2
  {
    hide Exec, EvalCondition, Eval, Coded, Len, Marks;
    var yes := at + Len(e.cond) + 1;
    var no := yes + Len(e.yes) + 1;
    SimulatesCondition(t, d, p, e.cond, me, at, l + 2, LabelRef(me, l + 1), no, args, fr, s);
    var r := EvalCondition(d, p, e.cond, args, fr.base + fr.argc, s);
    if r.Yes? {
      Simulates(t, d, p, e.yes, me, yes, l + 2 + Marks(e.cond), args, fr, r.state);
      var q := Eval(d, p, e.yes, args, fr.base + fr.argc, r.state);
      if q.Done? {
        StepForward(t, p, me, fr, no - 1, LabelRef(me, l), no + Len(e.no), q.state);
      }
    } else if r.No? {
      Simulates(t, d, p, e.no, me, no, l + 2 + Marks(e.cond) + Marks(e.yes), args, fr, r.state);
    }
  }

  lemma {:induction false} SimulatesWhen(t: Table, d: Definitions, p: Builtins, e: Core,
                                         me: nat, at: nat, l: nat, args: seq<Value>, fr: Frame, s: State)
    requires e.When? && Implements(t, d) && Framed(fr, args, s)
    requires me < |t| && t[me].User? && CodedWhen(BodyOf(t[me]), me, e, at, l)
    ensures Exec(t, p, me, fr, at, s) ==
      Continue(t, p, me, fr, at + Len(e.cond) + Len(e.body) + 1,
               EvalWhen(d, p, e, args, fr.base + fr.argc, s))
    decreases s.clock, 1, e, 2
  {
    hide Exec, EvalCondition, Eval, Coded, Len, Marks;
    var yes := at + Len(e.cond) + 1;
    SimulatesCondition(t, d, p, e.cond, me, at, l + 1, LabelRef(me, l), yes + Len(e.body), args, fr, s);
    var r := EvalCondition(d, p, e.cond, args, fr.base + fr.argc, s);
    if r.Yes? {
      Simulates(t, d, p, e.body, me, yes, l + 1 + Marks(e.cond), args, fr, r.state);
    }
  }

  lemma {:induction false} SimulatesWhile(t: Table, d: Definitions, p: Builtins, e: Core,
                                          me: nat, at: nat, l: nat, args: seq<Value>, fr: Frame, s: State)
    requires e.While? && Implements(t, d) && Framed(fr, args, s)
    requires me < |t| && t[me].User? && CodedWhile(BodyOf(t[me]), me, e, at, l)
    ensures Exec(t, p, me, fr, at, s) ==
      Continue(t, p, me, fr, at + Len(e.cond) + Len(e.body) + 2,
               EvalWhile(d, p, e, args, fr.base + fr.argc, s))
    decreases s.clock, 1, e, 2
  {
    hide Exec, EvalCondition, Eval, Coded, Len, Marks;
    var yes := at + Len(e.cond) + 1;
    var last := yes + Len(e.body);
    SimulatesCondition(t, d, p, e.cond, me, at, l + 2, LabelRef(me, l + 1), last + 1, args, fr, s);
    var r := EvalCondition(d, p, e.cond, args, fr.base + fr.argc, s);
    if r.Yes? {
      Simulates(t, d, p, e.body, me, yes, l + 2 + Marks(e.cond), args, fr, r.state);
      var q := Eval(d, p, e.body, args, fr.base + fr.argc, r.state);
      if q.Done? {
        StepBack(t, p, me, fr, last, LabelRef(me, l), at, q.state);
        if q.state.clock > 0 {
          FrameIsStable(fr, args, s, q.state);
          SimulatesWhile(t, d, p, e, me, at, l, args, fr, q.state.(clock := q.state.clock - 1));
        }
      }
    }
  }
}
