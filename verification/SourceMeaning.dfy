/** What programs are worth: the names and forms of the source, disciplined programs, and compiled programs. */
module SourceMeaning {
  import opened Bytecode
  import opened Settings
  import opened Machine
  import opened Meaning
  import opened Grammar
  import opened Direct
  import opened Discipline
  import Compiler
  import OnePass
  import Programs
  import Reader

  // ----- names and forms -----

  /** As an argument a name is the first parameter of that name, and otherwise the global, nil if it has no value. */
  lemma {:induction false} NameIsWorth(d: Definitions, p: Builtins, x: string, sc: Scope, args: seq<Value>, g: Globals,
                                       c: nat, i: nat)
    requires |args| == |sc.params|
    ensures var r := Of(d, p, ResolveArg(Name(x), sc).core, args, g, c);
      (i < |args| && sc.params[i] == x && x !in sc.params[..i] ==> r == Worth([args[i]], g, c))
      && (x !in sc.params ==> r == Worth([if x in g then g[x] else Nil], g, c))
  {
    var k := ArgumentFinder(sc.params, x);
    if k.Some? {
      IsBefore(sc.params, k.value, i);
      IsBefore(sc.params, i, k.value);
    }
  }

  lemma {:induction false} IsBefore(xs: seq<string>, i: nat, j: nat)
    ensures i < j <= |xs| ==> xs[i] in xs[..j]
  {
    if i < j <= |xs| { assert xs[..j][i] == xs[i]; }
  }

  /** A `lambda` as an argument is a function with these parameters; its body knows them and what is known around it. */
  lemma {:induction false} LambdaIsWorth(d: Definitions, p: Builtins, k: string, ps: Params, doc: seq<Reader.Token>,
                                         b: Expr, sc: Scope, args: seq<Value>, g: Globals, c: nat)
    ensures var r := ResolveArg(Lambda(k, ps, doc, b), sc);
      Of(d, p, r.core, args, g, c) == Worth([Fun(sc.next)], g, c) && r.made != []
      && r.made[0] == Defined(Names(ps), Resolve(b, Scope(sc.env, Names(ps), sc.next + 1)).core)
  {
    hide Names;
    var r := Resolve(Lambda(k, ps, doc, b), sc);
    assert r == ResolveFunction(Names(ps), b, sc, Skip);
    PushesFunction(d, p, sc.next, args, g, c);
  }

  lemma {:induction false} PushesFunction(d: Definitions, p: Builtins, id: nat, args: seq<Value>, g: Globals, c: nat)
    ensures Of(d, p, Then(Skip, Const(Fun(id))), args, g, c) == Worth([Fun(id)], g, c)
  {
    assert Of(d, p, Skip, args, g, c) == Worth([], g, c);
    assert [] + [Fun(id)] == [Fun(id)];
  }

  /** A definition leaves its name, and from its body on the name is the function that it made. */
  lemma {:induction false} DefunIsWorth(d: Definitions, p: Builtins, f: string, ps: Params, doc: seq<Reader.Token>,
                                        b: Expr, sc: Scope, args: seq<Value>, g: Globals, c: nat)
    ensures var r := Resolve(Defun(f, ps, doc, b), sc);
      var env := sc.env[f := Fun(sc.next)];
      Of(d, p, r.core, args, g, c) == Worth([Sym(f)], g, c) && r.made != []
      && r.made[0] == Defined(Names(ps), Resolve(b, Scope(env, Names(ps), sc.next + 1)).core)
      && r.after.env == Resolve(b, Scope(env, Names(ps), sc.next + 1)).after.env
  {
    hide Names;
  }

  /** `if` with a condition that comes to one value is worth its first branch, or its second when the value is nil. */
  lemma {:induction false} IfIsWorth(d: Definitions, p: Builtins, e: Expr, sc: Scope, args: seq<Value>, g: Globals,
                                     c: nat, v: Value, g2: Globals, c2: nat)
    requires e.If? && Of(d, p, Resolve(e.cond, sc).core, args, g, c) == Worth([v], g2, c2)
    ensures var yes := Resolve(e.yes, Resolve(e.cond, sc).after);
      var no := Resolve(e.no, yes.after);
      Of(d, p, Resolve(e, sc).core, args, g, c) == Of(d, p, if v == Nil then no.core else yes.core, args, g2, c2)
  {
    var yes := Resolve(e.yes, Resolve(e.cond, sc).after);
    var no := Resolve(e.no, yes.after);
    var b := Of(d, p, if v == Nil then no.core else yes.core, args, g2, c2);
    assert Front([v]) == [];
    if b.Worth? { assert [] + b.values == b.values; }
  }

  /** A call of a known function with arguments that come to values is worth what the function makes of these. */
  lemma {:induction false} CallIsWorth(d: Definitions, p: Builtins, f: string, es: Exprs, sc: Scope, args: seq<Value>,
                                       g: Globals, c: nat, vs: seq<Value>, g2: Globals, c2: nat)
    requires f in sc.env && sc.env[f].Fun? && sc.env[f].id < |d|
    requires OfAll(d, p, ResolveAll(es, sc).cores, args, g, c) == Worth(vs, g2, c2)
    requires |vs| == Count(ResolveAll(es, sc).cores)
    ensures Of(d, p, Resolve(Invoke(f, es), sc).core, args, g, c) == OfFunction(d, p, sc.env[f].id, vs, g2, c2)
  {
    hide OfFunction, OfAll, ResolveAll;
    var r := OfFunction(d, p, sc.env[f].id, vs, g2, c2);
    assert vs[..|vs| - |vs|] == [] && vs[|vs| - |vs|..] == vs;
    if r.Worth? { assert [] + r.values == r.values; }
  }

  /** A `lambda` at the head of a list is not called: the list leaves its arguments, and the function is not used. */
  lemma {:induction false} HeadIsNotCalled(d: Definitions, p: Builtins, h: Expr, es: Exprs, sc: Scope,
                                           args: seq<Value>, g: Globals, c: nat)
    requires h.Lambda?
    ensures Of(d, p, Resolve(Applied(h, es), sc).core, args, g, c) ==
      OfAll(d, p, ResolveAll(es, Resolve(h, sc).after).cores, args, g, c)
  {
    var t := ResolveAll(es, Resolve(h, sc).after);
    OnePass.ResolveOfApplied(Applied(h, es), sc);
    assert Resolve(h, sc) == ResolveFunction(Names(h.params), h.body, sc, Skip);
    hide Resolve, ResolveAll, OfAll;
    RowIsWorth(d, p, t.cores, args, g, c);
    var r := OfAll(d, p, t.cores, args, g, c);
    if r.Worth? { assert [] + r.values == r.values; }
  }

  lemma {:induction false} RowIsWorth(d: Definitions, p: Builtins, es: Cores, args: seq<Value>, g: Globals, c: nat)
    ensures Of(d, p, Row(es), args, g, c) == OfAll(d, p, es, args, g, c)
    decreases es
  {
    match es
    case End =>
    case Cons(e, rest) =>
      var r := Of(d, p, e, args, g, c);
      if r.Worth? { RowIsWorth(d, p, rest, args, r.globals, r.ticks); }
  }

  // ----- disciplined programs -----

  /** One value, and globals that calls by name can rely on; or the clock ran out. */
  ghost predicate IsClear(d: Definitions, sig: Signature, n: nat, r: Worth) {
    r.OutOfTime? || (r.Worth? && |r.values| == n && Conforms(d, sig, r.globals))
  }

  /** What a disciplined expression is worth is never unclear: it is one value, whatever surrounds it. */
  lemma {:induction false} DisciplinedIsClear(d: Definitions, sig: Signature, p: Builtins, e: Core, args: seq<Value>,
                                              g: Globals, c: nat)
    requires Disciplined(d, sig) && Returning(d, sig, p) && Conforms(d, sig, g) && OneValued(d, sig, |args|, e)
    ensures IsClear(d, sig, 1, Of(d, p, e, args, g, c))
    decreases c, 1, e, 1
  {
    hide Conforms, Disciplined, Returning, OfAll, OfCall, Fits;
    match e
    case Const(_) =>
    case Global(_) =>
    case Param(_) =>
    case App(x, fn, es) =>
      EachIsClear(d, sig, p, es, args, g, c);
      var r := OfAll(d, p, es, args, g, c);
      if r.Worth? {
        if fn.None? { KnownByName(d, sig, r.globals, x); }
        FunctionIsClear(d, sig, p, if fn.Some? then fn.value else r.globals[x].id, Count(es), r.values, r.globals,
          r.ticks);
      }
    case If(cond, a, b) =>
      DisciplinedIsClear(d, sig, p, cond, args, g, c);
      var r := Of(d, p, cond, args, g, c);
      if r.Worth? {
        DisciplinedIsClear(d, sig, p, a, args, r.globals, r.ticks);
        DisciplinedIsClear(d, sig, p, b, args, r.globals, r.ticks);
      }
    case NoApp(es) => NoValues(d, p, args, g, c);
    case Then(a, b) =>
      NoValues(d, p, args, g, c);
      DisciplinedIsClear(d, sig, p, b, args, g, c);
    case Assign(x, a) =>
      DisciplinedIsClear(d, sig, p, a, args, g, c);
      var r := Of(d, p, a, args, g, c);
      if r.Worth? {
        SettingSpares(d, sig, r.globals, x, Last(r.values));
      }
  }

  lemma {:induction false} NoValues(d: Definitions, p: Builtins, args: seq<Value>, g: Globals, c: nat)
    ensures OfAll(d, p, End, args, g, c) == Worth([], g, c) && Of(d, p, Skip, args, g, c) == Worth([], g, c)
  {
  }

  lemma {:induction false} SettingSpares(d: Definitions, sig: Signature, g: Globals, x: string, v: Value)
    requires Conforms(d, sig, g) && x !in sig
    ensures Conforms(d, sig, g[x := v])
  {
  }

  lemma {:induction false} KnownByName(d: Definitions, sig: Signature, g: Globals, x: string)
    requires Conforms(d, sig, g) && x in sig
    ensures x in g && g[x].Fun? && Fits(d, g[x].id, sig[x])
  {
  }

  lemma {:induction false} EachIsClear(d: Definitions, sig: Signature, p: Builtins, es: Cores, args: seq<Value>,
                                       g: Globals, c: nat)
    requires Disciplined(d, sig) && Returning(d, sig, p) && Conforms(d, sig, g) && AllOneValued(d, sig, |args|, es)
    ensures IsClear(d, sig, Count(es), OfAll(d, p, es, args, g, c))
    decreases c, 1, es, 0
  {
    hide Conforms, Disciplined, Returning, Of, OneValued;
    match es
    case End =>
    case Cons(e, rest) =>
      DisciplinedIsClear(d, sig, p, e, args, g, c);
      var r := Of(d, p, e, args, g, c);
      if r.Worth? {
        EachIsClear(d, sig, p, rest, args, r.globals, r.ticks);
      }
  }

  lemma {:induction false} FunctionIsClear(d: Definitions, sig: Signature, p: Builtins, id: nat, argc: nat,
                                           vs: seq<Value>, g: Globals, c: nat)
    requires Disciplined(d, sig) && Returning(d, sig, p) && Conforms(d, sig, g) && Fits(d, id, argc) && |vs| == argc
    ensures IsClear(d, sig, 1, OfCall(d, p, id, argc, vs, g, c))
    decreases c, 0
  {
    hide Conforms, OneValued, Of;
    assert vs[|vs| - argc..] == vs && vs[..|vs| - argc] == [];
    match d[id]
    case Primitive(cid) =>
      assert p(cid, vs, g).value.Some? && Conforms(d, sig, SetEach(g, p(cid, vs, g).settings));
    case Defined(params, body) =>
      if c > 0 {
        DisciplinedIsClear(d, sig, p, body, vs, g, c - 1);
      }
  }

  // ----- compiled programs -----

  /** What a program is worth, with the definitions of the library and its own. */
  function WorthOf(es: Exprs, g: Globals, funs: Table, d: Definitions, p: Builtins, env: Globals, c: nat): Worth {
    Of(Programs.AllDefinitions(es, g, funs, d), p, Programs.MainOf(es, g, funs).core, [], env, c)
  }

  /** The compiled program leaves on the stack, on top of whatever was there, exactly what its source is worth. */
  lemma {:induction false} CompiledIsWorth(es: Exprs, g: Globals, funs: Table, d: Definitions, p: Builtins, s: State)
    requires AllWellFormed(es) && OnePass.FormsBound(g, funs) && Programs.Library(funs, d)
    ensures Leaves(s.stack, WorthOf(es, g, funs, d, p, s.globals, s.clock),
                   Exec(Compiler.Compile(WriteAll(es, []), g, funs).funs, p, |funs|, Frame(0, 0), 0, s))
  {
    hide Exec, Eval, Of, Compiler.Compile, Programs.AllDefinitions, Programs.MainOf, AllWellFormed, WriteAll;
    Programs.ProgramMeansItsSource(es, g, funs, d, p, s);
    EvalAgrees(Programs.AllDefinitions(es, g, funs, d), p, Programs.MainOf(es, g, funs).core, [], 0, s);
  }
}
