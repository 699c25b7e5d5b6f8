/**
 * Names stay in lower case: the lexer makes them so, and from the tokens to the bytecode no other name comes in. That
 * is why a name can stand for its symbol, which the tables find up to case.
 */
module LowerCase {
  import opened KeyOrder
  import opened Bytecode
  import opened Reader
  import opened Meaning
  import opened Codegen
  import opened Grammar
  import D = DataText
  import Lexing
  import Programs
  import Simulation
  import StackMachine

  predicate Low(x: string) {
    Fold(x) == x
  }

  predicate LowNames(g: Globals) {
    forall x :: x in g ==> Low(x)
  }

  predicate LowTokens(toks: seq<Token>) {
    forall i :: 0 <= i < |toks| && toks[i].ATOM? ==> Low(toks[i].name)
  }

  predicate LowExpr(e: Expr) {
    match e
    case Self(_) => true
    case Quoted(_) => true
    case Name(x) => Low(x)
    case Nothing => true
    case Invoke(f, es) => Low(f) && LowExprs(es)
    case If(c, a, b) => LowExpr(c) && LowExpr(a) && LowExpr(b)
    case When(c, b) => LowExpr(c) && LowExpr(b)
    case While(c, b) => LowExpr(c) && LowExpr(b)
    case Set(x, a) => Low(x) && LowExpr(a)
    case Lambda(_, _, _, b) => LowExpr(b)
    case Defun(f, _, _, b) => Low(f) && LowExpr(b)
    case Applied(h, es) => LowExpr(h) && LowExprs(es)
  }

  predicate LowExprs(es: Exprs) {
    match es
    case NoMore => true
    case More(e, rest) => LowExpr(e) && LowExprs(rest)
  }

  predicate LowCore(e: Core) {
    match e
    case Global(x) => Low(x)
    case App(x, _, es) => Low(x) && LowCores(es)
    case NoApp(es) => LowCores(es)
    case Then(a, b) => LowCore(a) && LowCore(b)
    case If(c, a, b) => LowCore(c) && LowCore(a) && LowCore(b)
    case When(c, b) => LowCore(c) && LowCore(b)
    case While(c, b) => LowCore(c) && LowCore(b)
    case Assign(x, a) => Low(x) && LowCore(a)
    case _ => true
  }

  predicate LowCores(es: Cores) {
    match es
    case End => true
    case Cons(e, rest) => LowCore(e) && LowCores(rest)
  }

  predicate LowDefinitions(d: Definitions) {
    forall i :: 0 <= i < |d| && d[i].Defined? ==> LowCore(d[i].body)
  }

  // ----- from tokens to expressions -----

  lemma LowParts(a: seq<Token>, b: seq<Token>)
    requires LowTokens(a + b)
    ensures LowTokens(a) && LowTokens(b)
  {
    hide Low;
    forall i | 0 <= i < |a| && a[i].ATOM?
      ensures Low(a[i].name)
    {
      assert (a + b)[i] == a[i];
    }
    forall i | 0 <= i < |b| && b[i].ATOM?
      ensures Low(b[i].name)
    {
      assert (a + b)[|a| + i] == b[i];
    }
  }

  /** An expression has no other names than its tokens. */
  lemma {:induction false} WrittenLow(e: Expr, rest: seq<Token>)
    requires LowTokens(Write(e, rest))
    ensures LowExpr(e) && LowTokens(rest)
    decreases e, 1
  {
    hide Low, LowTokens;
    match e
    case Self(d) => LowParts(Spell(d), rest);
    case Quoted(d) =>
      LowParts([QUOTE], Spell(d) + rest);
      LowParts(Spell(d), rest);
    case Name(x) =>
      LowParts([ATOM(x)], rest);
      LowAtom(x);
    case _ =>
      LowParts([LBRACE], Inside(e, rest));
      InsideLow(e, rest);
  }

  lemma LowAtom(x: string)
    requires LowTokens([ATOM(x)])
    ensures Low(x)
  {
    assert [ATOM(x)][0].ATOM?;
  }

  lemma {:induction false} InsideLow(e: Expr, rest: seq<Token>)
    requires IsList(e) && LowTokens(Inside(e, rest))
    ensures LowExpr(e) && LowTokens(rest)
    decreases e, 0
  {
    hide Low, LowTokens;
    var close := [RBRACE] + rest;
    match e {
      case Nothing =>
      case Invoke(f, es) =>
        LowParts([ATOM(f)], WriteAll(es, close));
        LowAtom(f);
        WrittenAllLow(es, close);
      case If(c, a, b) =>
        LowParts([ATOM("if")], Write(c, Write(a, Write(b, close))));
        WrittenLow(c, Write(a, Write(b, close)));
        WrittenLow(a, Write(b, close));
        WrittenLow(b, close);
      case When(c, b) =>
        LowParts([ATOM("when")], Write(c, Write(b, close)));
        WrittenLow(c, Write(b, close));
        WrittenLow(b, close);
      case While(c, b) =>
        LowParts([ATOM("while")], Write(c, Write(b, close)));
        WrittenLow(c, Write(b, close));
        WrittenLow(b, close);
      case Set(x, a) =>
        LowParts([ATOM("set!")], [ATOM(x)] + Write(a, close));
        LowParts([ATOM(x)], Write(a, close));
        LowAtom(x);
        WrittenLow(a, close);
      case Lambda(k, ps, doc, b) =>
        LowParts([ATOM(k)], WriteParams(ps, doc + Write(b, close)));
        ParamsLow(ps, doc + Write(b, close));
        LowParts(doc, Write(b, close));
        WrittenLow(b, close);
      case Defun(f, ps, doc, b) =>
        LowParts([ATOM("defun!")], [ATOM(f)] + WriteParams(ps, doc + Write(b, close)));
        LowParts([ATOM(f)], WriteParams(ps, doc + Write(b, close)));
        LowAtom(f);
        ParamsLow(ps, doc + Write(b, close));
        LowParts(doc, Write(b, close));
        WrittenLow(b, close);
      case Applied(h, es) =>
        WrittenLow(h, WriteAll(es, close));
        WrittenAllLow(es, close);
    }
    LowParts([RBRACE], rest);
  }

  lemma {:induction false} WrittenAllLow(es: Exprs, rest: seq<Token>)
    requires LowTokens(WriteAll(es, rest))
    ensures LowExprs(es) && LowTokens(rest)
    decreases es, 1
  {
    hide LowTokens, LowExpr, Write;
    match es
    case NoMore =>
    case More(e, more) =>
      WrittenLow(e, WriteAll(more, rest));
      WrittenAllLow(more, rest);
  }

  lemma ParamsLow(ps: Params, rest: seq<Token>)
    requires LowTokens(WriteParams(ps, rest))
    ensures LowTokens(rest)
  {
    hide LowTokens, WriteNames;
    match ps
    case NoParams => LowParts([NIL], rest);
    case Listed(xs) =>
      LowParts([LBRACE], WriteNames(xs, rest));
      NamesLow(xs, rest);
  }

  lemma {:induction false} NamesLow(xs: seq<string>, rest: seq<Token>)
    requires LowTokens(WriteNames(xs, rest))
    ensures LowTokens(rest)
  {
    hide LowTokens;
    if xs == [] {
      LowParts([RBRACE], rest);
    } else {
      LowParts([ATOM(xs[0])], WriteNames(xs[1..], rest));
      NamesLow(xs[1..], rest);
    }
  }

  // ----- from expressions to what they resolve to -----

  /** Resolving names brings no name in that was not in the source. */
  lemma {:induction false} ResolvedLow(e: Expr, sc: Scope)
    requires LowExpr(e) && LowNames(sc.env)
    ensures var r := Resolve(e, sc); LowCore(r.core) && LowDefinitions(r.made) && LowNames(r.after.env)
    decreases e, 0
  {
    hide Low, ResolveFunction, ResolveAll;
    match e
    case Self(_) =>
    case Quoted(_) =>
    case Name(_) =>
    case Nothing =>
    case Invoke(_, es) => ResolvedAllLow(es, sc);
    case If(c, a, b) =>
      var r1 := Resolve(c, sc);
      ResolvedLow(c, sc);
      var r2 := Resolve(a, r1.after);
      ResolvedLow(a, r1.after);
      ResolvedLow(b, r2.after);
    case When(c, b) =>
      ResolvedLow(c, sc);
      ResolvedLow(b, Resolve(c, sc).after);
    case While(c, b) =>
      ResolvedLow(c, sc);
      ResolvedLow(b, Resolve(c, sc).after);
    case Set(_, a) =>
      ResolvedLow(a, sc);
      FunctionIsPushed(a, Resolve(a, sc).core, sc.next);
    case Lambda(_, ps, _, b) => FunctionLow(Names(ps), b, sc, Skip);
    case Applied(h, es) =>
      ResolvedLow(h, sc);
      ResolvedAllLow(es, Resolve(h, sc).after);
      RowLow(ResolveAll(es, Resolve(h, sc).after).cores);
    case Defun(f, ps, _, b) => FunctionLow(Names(ps), b, sc.(env := sc.env[f := Fun(sc.next)]), Const(Sym(f)));
  }

  lemma {:induction false} RowLow(es: Cores)
    requires LowCores(es)
    ensures LowCore(Row(es))
  {
    match es
    case End =>
    case Cons(_, rest) => RowLow(rest);
  }

  lemma FunctionIsPushed(e: Expr, core: Core, id: nat)
    requires LowCore(core)
    ensures LowCore(WithFunction(e, core, id))
  {
  }

  lemma {:induction false} FunctionLow(params: seq<string>, b: Expr, sc: Scope, core: Core)
    requires LowExpr(b) && LowNames(sc.env) && LowCore(core)
    ensures var r := ResolveFunction(params, b, sc, core);
      LowCore(r.core) && LowDefinitions(r.made) && LowNames(r.after.env)
    decreases b, 1
  {
    hide Low, Resolve, LowCore, LowExpr;
    ResolvedLow(b, Scope(sc.env, params, sc.next + 1));
  }

  lemma {:induction false} ResolvedAllLow(es: Exprs, sc: Scope)
    requires LowExprs(es) && LowNames(sc.env)
    ensures var r := ResolveAll(es, sc); LowCores(r.cores) && LowDefinitions(r.made) && LowNames(r.after.env)
    decreases es, 0
  {
    hide Low, Resolve;
    match es
    case NoMore =>
    case More(e, rest) =>
      ResolvedLow(e, sc);
      FunctionIsPushed(e, Resolve(e, sc).core, sc.next);
      ResolvedAllLow(rest, ResolveArg(e, sc).after);
  }

  lemma {:induction false} ProgramLow(es: Exprs, sc: Scope)
    requires LowExprs(es) && LowNames(sc.env)
    ensures var r := Programs.ResolveProgram(es, sc);
      LowCore(r.core) && LowDefinitions(r.made) && LowNames(r.after.env)
  {
    hide Low, Resolve, LowExpr;
    match es
    case NoMore =>
    case More(e, rest) =>
      ResolvedLow(e, sc);
      ProgramLow(rest, Resolve(e, sc).after);
  }

  // ----- from resolved expressions to code -----

  predicate LowRange(code: seq<Instr>, at: nat, n: nat) {
    at + n <= |code| && forall k :: at <= k < at + n ==> StackMachine.LowerName(code[k])
  }

  /** The code of an expression has no other names than the expression. */
  lemma {:induction false} CodedLow(b: Body, me: nat, e: Core, at: nat, l: nat)
    requires Coded(b, me, e, at, l) && LowCore(e)
    ensures LowRange(b.code, at, Len(e))
    decreases e, 1
  {
    hide CodedAll, CodedThen, CodedIf, CodedWhen, CodedWhile, CodedAssign, Fold;
    match e
    case App(_, _, es) => CodedAllLow(b, me, es, at, l);
    case NoApp(es) => CodedAllLow(b, me, es, at, l);
    case Then(_, _) => CodedThenLow(b, me, e, at, l);
    case If(_, _, _) => CodedIfLow(b, me, e, at, l);
    case When(_, _) => CodedWhenLow(b, me, e, at, l);
    case While(_, _) => CodedWhileLow(b, me, e, at, l);
    case Assign(_, _) => CodedAssignLow(b, me, e, at, l);
    case _ =>
  }

  lemma {:induction false} CodedAllLow(b: Body, me: nat, es: Cores, at: nat, l: nat)
    requires CodedAll(b, me, es, at, l) && LowCores(es)
    ensures LowRange(b.code, at, LenAll(es))
    decreases es, 1
  {
    hide Coded, Len, Marks, LowCore, StackMachine.LowerName;
    match es
    case End =>
    case Cons(e, rest) =>
      UnfoldCons(b, me, es, at, l);
      CodedLow(b, me, e, at, l);
      CodedAllLow(b, me, rest, at + Len(e), l + Marks(e));
  }

  lemma {:induction false} CodedThenLow(b: Body, me: nat, e: Core, at: nat, l: nat)
    requires e.Then? && CodedThen(b, me, e, at, l) && LowCore(e)
    ensures LowRange(b.code, at, Len(e.first) + Len(e.second))
    decreases e, 0
  {
    hide Coded, Len, Marks, StackMachine.LowerName;
    CodedLow(b, me, e.first, at, l);
    CodedLow(b, me, e.second, at + Len(e.first), l + Marks(e.first));
  }

  lemma {:induction false} CodedAssignLow(b: Body, me: nat, e: Core, at: nat, l: nat)
    requires e.Assign? && CodedAssign(b, me, e, at, l) && LowCore(e)
    ensures LowRange(b.code, at, Len(e.arg) + 1)
    decreases e, 0
  {
    hide Coded, Len, Marks;
    CodedLow(b, me, e.arg, at, l);
  }

  lemma {:induction false} CodedIfLow(b: Body, me: nat, e: Core, at: nat, l: nat)
    requires e.If? && CodedIf(b, me, e, at, l) && LowCore(e)
    ensures LowRange(b.code, at, Len(e.cond) + Len(e.yes) + Len(e.no) + 2)
    decreases e, 0
  {
    hide Coded, Len, Marks;
    CodedLow(b, me, e.cond, at, l + 2);
    CodedLow(b, me, e.yes, at + Len(e.cond) + 1, l + 2 + Marks(e.cond));
    CodedLow(b, me, e.no, at + Len(e.cond) + Len(e.yes) + 2, l + 2 + Marks(e.cond) + Marks(e.yes));
  }

  lemma {:induction false} CodedWhenLow(b: Body, me: nat, e: Core, at: nat, l: nat)
    requires e.When? && CodedWhen(b, me, e, at, l) && LowCore(e)
    ensures LowRange(b.code, at, Len(e.cond) + Len(e.body) + 1)
    decreases e, 0
  {
    hide Coded, Len, Marks;
    CodedLow(b, me, e.cond, at, l + 1);
    CodedLow(b, me, e.body, at + Len(e.cond) + 1, l + 1 + Marks(e.cond));
  }

  lemma {:induction false} CodedWhileLow(b: Body, me: nat, e: Core, at: nat, l: nat)
    requires e.While? && CodedWhile(b, me, e, at, l) && LowCore(e)
    ensures LowRange(b.code, at, Len(e.cond) + Len(e.body) + 2)
    decreases e, 0
  {
    hide Coded, Len, Marks;
    CodedLow(b, me, e.cond, at, l + 2);
    CodedLow(b, me, e.body, at + Len(e.cond) + 1, l + 2 + Marks(e.cond));
  }

  lemma TableLow(t: Table, d: Definitions)
    requires Simulation.Implements(t, d) && LowDefinitions(d)
    ensures StackMachine.Lower(t)
  {
    hide LowCore, Coded, Len;
    forall id | 0 <= id < |t| && t[id].User?
      ensures StackMachine.LowerCode(t[id].code)
    {
      assert Simulation.Realizes(t, id, d[id]);
      CodedLow(Simulation.BodyOf(t[id]), id, d[id].body, 0, 0);
    }
  }

  /** A program with lower-case names compiles to code and globals with lower-case names. */
  lemma CompiledLow(es: Exprs, g: Globals, t: Table, funs: Table, d: Definitions)
    requires LowExprs(es) && LowNames(g) && LowDefinitions(d)
    requires Simulation.Implements(t, Programs.AllDefinitions(es, g, funs, d))
    ensures StackMachine.Lower(t) && LowNames(Programs.MainOf(es, g, funs).after.env)
  {
    hide Simulation.Implements, StackMachine.Lower, LowCore, Low;
    ProgramLow(es, Scope(g, [], |funs| + 1));
    TableLow(t, Programs.AllDefinitions(es, g, funs, d));
  }

  // ----- from texts to tokens -----

  predicate LowWord(l: D.Lexed) {
    l.tok !in {D.NUMBER, D.STRING} ==> Low(l.dev.buffer)
  }

  lemma {:induction false} CopiedLow(d: D.Device)
    ensures Low(D.CopyAtom(d).chars)
    decreases |d.text| - d.pos
  {
    var c := D.Peek(d);
    if c != D.NUL && !D.EndsAtom(c) && !D.AtEof(D.Getc(d)) {
      CopiedLow(D.Getc(d));
      var w := D.CopyAtom(D.Getc(d)).chars;
      var all := [ToLower(c)] + w;
      D.FoldOne(all);
      assert all[1..] == w;
    }
  }

  lemma {:induction false} LexedLow(d: D.Device, op: string)
    requires Low(d.buffer) && |op| <= 1 && Low(op)
    ensures LowWord(D.Lex(d, op))
    decreases |d.text| - d.pos
  {
    hide D.CopyNumber, D.CopyString, D.CopyAtom, D.CommentEnds, D.SkipComment, D.SkipLine, D.LineEnds, D.Holds;
    var c, d1 := D.Peek(d), D.Getc(d);
    if c == D.NUL || c as int == 255 {
    } else if c == '#' && d1.count == 1 {
      var d2 := D.SkipLine(d1);
      LexedLow(if D.LineEnds(d1) then d2.(count := 0) else d2, op);
    } else if c == '\n' {
      LexedLow(d1.(count := 0), op);
    } else if c == '+' || c == '-' {
      if op == "" { LexedLow(d1, [c]); }
    } else if D.IsDigit(c) {
    } else if c == ' ' || c == ')' {
      if op == "" && c == ' ' { LexedLow(d1, op); }
    } else if c == ';' {
      if D.CommentEnds(d1) { LexedLow(D.SkipComment(d1), op); }
    } else if D.IsAlpha(c) || D.IsPunct(c) {
      CopiedLow(if op != "" then D.Ungetc(d) else d);
    } else {
      LexedLow(d1, op);
    }
  }

  /** Whatever the text: the names among its tokens have no capitals. */
  lemma NoCapitalsInTokens(d: D.Device, num: Lexing.Worth)
    requires NoCapitals(d.buffer)
    ensures var toks := Lexing.Tokens(d, num);
      forall i :: 0 <= i < |toks| && toks[i].ATOM? ==> NoCapitals(toks[i].name)
  {
    hide D.Lex, Lexing.Tokens;
    FoldIsLower(d.buffer);
    TokensLow(d, num);
    var toks := Lexing.Tokens(d, num);
    forall i | 0 <= i < |toks| && toks[i].ATOM?
      ensures NoCapitals(toks[i].name)
    {
      FoldIsLower(toks[i].name);
    }
  }

  lemma {:induction false} TokensLow(d: D.Device, num: Lexing.Worth)
    requires Low(d.buffer)
    ensures LowTokens(Lexing.Tokens(d, num))
    decreases |d.text| - d.pos
  {
    hide D.Lex, Low;
    LexedLow(d, "") by { LowNothing(); }
    if d.pos >= |d.text| { Lexing.PastTheEnd(d); }
    var l := D.Lex(d, "");
    if l.tok != D.EOF {
      LowNothing();
      TokensLow(Lexing.Taken(l), num);
    }
  }

  lemma LowNothing()
    ensures Low("")
  {
  }
}
