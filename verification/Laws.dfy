/**
 * The language in the words of its documentation: which branch a condition takes, what an assignment stores, what a
 * call leaves. Each law speaks of the values themselves and not of how the machine pops and pushes them.
 */
module Laws {
  import opened Options
  import opened KeyOrder
  import opened Bytecode
  import opened Settings
  import opened Machine
  import opened Meaning

  // ----- conditions -----

  /** When the condition leaves nil on top, the else part is what counts, and otherwise the first. */
  lemma {:induction false} IfTakes(d: Definitions, p: Builtins, c: Core, a: Core, b: Core, args: seq<Value>,
                                   floor: nat, s: State, st: seq<Value>, v: Value, g: Globals, k: nat)
    requires floor <= |s.stack| && floor <= |st|
    requires Eval(d, p, c, args, floor, s) == Done(State(st + [v], g, k))
    ensures Eval(d, p, Core.If(c, a, b), args, floor, s) ==
      Eval(d, p, if v == Nil then b else a, args, floor, State(st, g, k))
  {
    ConditionIs(d, p, c, args, floor, s, st, v, g, k);
    assert Eval(d, p, Core.If(c, a, b), args, floor, s) == EvalIf(d, p, Core.If(c, a, b), args, floor, s);
  }

  lemma {:induction false} TopOff(st: seq<Value>, v: Value)
    ensures (st + [v])[..|st + [v]| - 1] == st && (st + [v])[|st + [v]| - 1] == v
  {
  }

  lemma {:induction false} ConditionIs(d: Definitions, p: Builtins, c: Core, args: seq<Value>, floor: nat, s: State,
                                       st: seq<Value>, v: Value, g: Globals, k: nat)
    requires floor <= |s.stack| && floor <= |st|
    requires Eval(d, p, c, args, floor, s) == Done(State(st + [v], g, k))
    ensures EvalCondition(d, p, c, args, floor, s) == if v == Nil then No(State(st, g, k)) else Yes(State(st, g, k))
  {
    TopOff(st, v);
  }

  /** `when` evaluates its body unless the condition is nil, and then it pushes nothing. */
  lemma {:induction false} WhenTakes(d: Definitions, p: Builtins, c: Core, b: Core, args: seq<Value>, floor: nat,
                                     s: State, st: seq<Value>, v: Value, g: Globals, k: nat)
    requires floor <= |s.stack| && floor <= |st|
    requires Eval(d, p, c, args, floor, s) == Done(State(st + [v], g, k))
    ensures Eval(d, p, When(c, b), args, floor, s) ==
      if v == Nil then Done(State(st, g, k)) else Eval(d, p, b, args, floor, State(st, g, k))
  {
    ConditionIs(d, p, c, args, floor, s, st, v, g, k);
    assert Eval(d, p, When(c, b), args, floor, s) == EvalWhen(d, p, When(c, b), args, floor, s);
  }

  /** `while` ends when the condition is nil, and otherwise goes on after its body, within the clock. */
  lemma {:induction false} WhileTakes(d: Definitions, p: Builtins, c: Core, b: Core, args: seq<Value>, floor: nat,
                                      s: State, st: seq<Value>, v: Value, g: Globals, k: nat)
    requires floor <= |s.stack| && floor <= |st|
    requires Eval(d, p, c, args, floor, s) == Done(State(st + [v], g, k))
    ensures Eval(d, p, While(c, b), args, floor, s) ==
      if v == Nil then Done(State(st, g, k))
      else
        var r := Eval(d, p, b, args, floor, State(st, g, k));
        if !r.Done? then r
        else if r.state.clock == 0 then Timeout
        else Eval(d, p, While(c, b), args, floor, r.state.(clock := r.state.clock - 1))
  {
    ConditionIs(d, p, c, args, floor, s, st, v, g, k);
    assert Eval(d, p, While(c, b), args, floor, s) == EvalWhile(d, p, While(c, b), args, floor, s);
  }

  /** A condition that leaves the whole stack empty counts as nil. */
  lemma {:induction false} NothingIsNil(d: Definitions, p: Builtins, c: Core, a: Core, b: Core, args: seq<Value>,
                                        s: State, g: Globals, k: nat)
    requires Eval(d, p, c, args, 0, s) == Done(State([], g, k))
    ensures Eval(d, p, Core.If(c, a, b), args, 0, s) == Eval(d, p, b, args, 0, State([], g, k))
    ensures Eval(d, p, When(c, a), args, 0, s) == Done(State([], g, k))
    ensures Eval(d, p, While(c, a), args, 0, s) == Done(State([], g, k))
  {
    EmptyIsNil(d, p, c, args, s, g, k);
    assert Eval(d, p, Core.If(c, a, b), args, 0, s) == EvalIf(d, p, Core.If(c, a, b), args, 0, s);
    assert Eval(d, p, When(c, a), args, 0, s) == EvalWhen(d, p, When(c, a), args, 0, s);
    assert Eval(d, p, While(c, a), args, 0, s) == EvalWhile(d, p, While(c, a), args, 0, s);
  }

  lemma {:induction false} EmptyIsNil(d: Definitions, p: Builtins, c: Core, args: seq<Value>, s: State, g: Globals,
                                      k: nat)
    requires Eval(d, p, c, args, 0, s) == Done(State([], g, k))
    ensures EvalCondition(d, p, c, args, 0, s) == No(State([], g, k))
  {
  }

  // ----- globals -----

  /** `set` stores the value that its argument leaves on top, and leaves it there. */
  lemma {:induction false} SetStores(d: Definitions, p: Builtins, x: string, a: Core, args: seq<Value>, floor: nat,
                                     s: State, st: seq<Value>, v: Value, g: Globals, k: nat)
    requires floor <= |s.stack| && Eval(d, p, a, args, floor, s) == Done(State(st + [v], g, k))
    ensures Eval(d, p, Assign(x, a), args, floor, s) == Done(State(st + [v], g[x := v], k))
  {
    TopOff(st, v);
  }

  /** A global read after that has the value stored; any other name has the value it had, or none, which is nil. */
  lemma {:induction false} ReadsWhatWasSet(d: Definitions, p: Builtins, x: string, y: string, args: seq<Value>,
                                           floor: nat, st: seq<Value>, v: Value, g: Globals, k: nat)
    requires floor <= |st|
    ensures Eval(d, p, Global(y), args, floor, State(st, g[x := v], k)) ==
      Done(State(st + [if y == x then v else if y in g then g[y] else Nil], g[x := v], k))
  {
  }

  // ----- calls -----

  /** A C function leaves the value it returns in place of its arguments, and the globals with what it set. */
  lemma {:induction false} CFunctionLeaves(t: Table, p: Builtins, id: nat, cid: nat, base: seq<Value>,
                                           args: seq<Value>, g: Globals, c: nat)
    requires id < |t| && t[id] == CFun(cid)
    ensures var q := p(cid, args, g);
      Invoke(t, p, id, |args|, |base|, State(base + args, g, c)) ==
      Done(State(if q.value.Some? then base + [q.value.value] else base, SetEach(g, q.settings), c))
  {
    OnTop(base, args);
    assert base + [] == base;
  }

  lemma {:induction false} OnTop(base: seq<Value>, args: seq<Value>)
    ensures (base + args)[..|base + args| - |args|] == base && (base + args)[|base + args| - |args|..] == args
  {
  }

  /** Of the globals a C function sets under a name, up to case, the last one is there after the call. */
  lemma {:induction false} CFunctionSets(t: Table, p: Builtins, id: nat, cid: nat, base: seq<Value>, args: seq<Value>,
                                         g: Globals, c: nat, name: string, i: nat)
    requires id < |t| && t[id] == CFun(cid)
    requires var ws := p(cid, args, g).settings;
      i < |ws| && SameName(ws[i].name, name) && forall j :: i < j < |ws| ==> !SameName(ws[j].name, name)
    ensures var r := Invoke(t, p, id, |args|, |base|, State(base + args, g, c));
      r.Done? && Fold(name) in r.state.globals && r.state.globals[Fold(name)] == p(cid, args, g).settings[i].value
  {
    CFunctionLeaves(t, p, id, cid, base, args, g, c);
    LastOneCounts(g, p(cid, args, g).settings, name, i);
  }

  /** And a name under which it sets nothing is as it was. */
  lemma {:induction false} CFunctionSparesOthers(t: Table, p: Builtins, id: nat, cid: nat, base: seq<Value>,
                                                 args: seq<Value>, g: Globals, c: nat, name: string)
    requires id < |t| && t[id] == CFun(cid)
    requires var ws := p(cid, args, g).settings; forall j :: 0 <= j < |ws| ==> !SameName(ws[j].name, name)
    ensures var r := Invoke(t, p, id, |args|, |base|, State(base + args, g, c));
      r.Done? && (Fold(name) in r.state.globals <==> Fold(name) in g)
      && (Fold(name) in g ==> r.state.globals[Fold(name)] == g[Fold(name)])
  {
    CFunctionLeaves(t, p, id, cid, base, args, g, c);
    OthersUntouched(g, p(cid, args, g).settings, name);
  }

  /** What the body of a user function has pushed when it ends is what the call leaves in place of the arguments. */
  lemma {:induction false} UserFunctionLeaves(t: Table, p: Builtins, id: nat, base: seq<Value>, args: seq<Value>,
                                              g: Globals, c: nat, vs: seq<Value>, g2: Globals, c2: nat)
    requires id < |t| && t[id].User? && c > 0
    requires Exec(t, p, id, Frame(|base|, |args|), 0, State(base + args, g, c - 1)) ==
      Done(State(base + args + vs, g2, c2))
    ensures Invoke(t, p, id, |args|, |base|, State(base + args, g, c)) == Done(State(base + vs, g2, c2))
  {
    hide Exec;
    OnTop(base, args);
    assert base + args + vs == base + (args + vs);
    assert (base + args + vs)[..|base|] + (base + args + vs)[|base| + |args|..] == base + vs;
  }

  /** In a call of a user function a parameter is the argument in its place. */
  lemma {:induction false} ParameterIsArgument(t: Table, p: Builtins, me: nat, pc: nat, base: seq<Value>,
                                               args: seq<Value>, vs: seq<Value>, g: Globals, c: nat, i: nat)
    requires me < |t| && t[me].User? && pc < |t[me].code| && t[me].code[pc] == LOAD(i) && i < |args|
    ensures var fr := Frame(|base|, |args|);
      Exec(t, p, me, fr, pc, State(base + args + vs, g, c)) ==
      Exec(t, p, me, fr, pc + 1, State(base + args + vs + [args[i]], g, c))
  {
    Unroll(t, p, me, Frame(|base|, |args|), pc, State(base + args + vs, g, c));
    hide Exec;
    assert (base + args + vs)[|base| + i] == args[i];
  }

  /** A NULL operand ends the run where it is. */
  lemma {:induction false} NullEndsTheRun(t: Table, p: Builtins, me: nat, fr: Frame, pc: nat, s: State)
    requires me < |t| && t[me].User? && pc < |t[me].code| && t[me].code[pc] == PUSH(None)
    requires fr.base + fr.argc <= |s.stack|
    ensures Exec(t, p, me, fr, pc, s) == Done(s)
  {
    hide Invoke, Jump;
  }

  /** A special form that is called while the program runs takes its arguments off and leaves nothing. */
  lemma {:induction false} FormLeavesNothing(t: Table, p: Builtins, id: nat, base: seq<Value>, args: seq<Value>,
                                             g: Globals, c: nat)
    requires id < |t| && t[id].Special?
    ensures Invoke(t, p, id, |args|, |base|, State(base + args, g, c)) == Done(State(base, g, c))
  {
    OnTop(base, args);
    assert base + [] == base;
    assert (base + args)[|base| + |args|..] == [];
  }

  /** A function given by name is the one that the global of that name holds now; other names leave all as it was. */
  lemma {:induction false} LateCall(d: Definitions, p: Builtins, x: string, argc: nat, floor: nat, s: State)
    requires floor <= |s.stack|
    ensures x in s.globals && s.globals[x].Fun? ==>
      Call(d, p, None, x, argc, floor, s) == Apply(d, p, s.globals[x].id, argc, floor, s)
    ensures x in s.globals && !s.globals[x].Fun? ==> Call(d, p, None, x, argc, floor, s) == Done(s)
    ensures x !in s.globals ==> Call(d, p, None, x, argc, floor, s) == Done(s)
    ensures forall id: nat :: Call(d, p, Some(id), x, argc, floor, s) == Apply(d, p, id, argc, floor, s)
  {
    hide Apply;
  }

  /** A value is of the type that is wanted when it was made as one. */
  lemma {:induction false} TypesOfValues(v: Value)
    ensures IsA(v, Anything)
    ensures IsA(v, ANumber) <==> exists n :: v == Num(n)
    ensures IsA(v, AString) <==> exists s :: v == Str(s)
    ensures IsA(v, ASymbol) <==> exists x :: v == Sym(x)
    ensures IsA(v, AList) <==> exists xs :: v == Value.List(xs)
    ensures IsA(v, AFunction) <==> exists id: nat :: v == Fun(id)
  {
    match v
    case Num(n) => assert v == Num(n);
    case Str(s) => assert v == Str(s);
    case Sym(x) => assert v == Sym(x);
    case List(xs) => assert v == Value.List(xs);
    case Fun(id) => assert v == Fun(id);
    case _ =>
  }
}
