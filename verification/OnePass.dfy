/**
 * One-pass compilation agrees with the grammar: on the tokens of an expression followed by any others the compiler
 * takes exactly the expression's tokens and emits the code that its syntax tree asks for.
 */
module OnePass {
  import opened Options
  import opened Bytecode
  import opened Reader
  import opened Meaning
  import opened Codegen
  import opened Grammar
  import opened Compiler
  import opened Builder

  /** The keywords are bound to the special forms, and no other name is. */
  predicate FormsBound(g: Globals, funs: Table) {
    (forall x :: x in KEYWORDS ==> x in g && g[x].Fun? && g[x].id < |funs| && funs[g[x].id] == Special(KEYWORDS[x]))
    && (forall x :: x in g && x !in KEYWORDS && g[x].Fun? ==> g[x].id >= |funs| || !funs[g[x].id].Special?)
  }

  predicate Sound(j: Job, me: nat) {
    Open(j, me) && !j.fault && FormsBound(j.globals, j.funs)
  }

  function ScopeOf(j: Job, me: nat): Scope
    requires IsUser(j, me)
  {
    Scope(j.globals, j.funs[me].params, |j.funs|)
  }

  function DoneBody(f: Function): Body
    requires f.User?
  {
    Body(Finished(f.code), f.labels)
  }

  function Size(f: Function): nat
    requires f.User?
  {
    |Finished(f.code)|
  }

  /** Function `id` is what `def` says: its finished code is the code of the body. */
  predicate Built(funs: Table, id: nat, def: Definition) {
    id < |funs| && def.Defined? && funs[id].User? && funs[id].params == def.params
    && Coded(DoneBody(funs[id]), id, def.body, 0, 0)
    && Size(funs[id]) == Len(def.body) && |funs[id].labels| == Marks(def.body)
  }

  predicate AllBuilt(funs: Table, id: nat, defs: seq<Definition>) {
    forall i :: 0 <= i < |defs| ==> Built(funs, id + i, defs[i])
  }

  /** From `j` to `k` the code of `core` was added to function `me`, and the functions `made` were compiled. */
  predicate Emitted(j: Job, k: Job, me: nat, core: Core, after: Scope, made: seq<Definition>) {
    Grows(j, k, me, 0) && Sound(k, me) && ScopeOf(k, me) == after
    && Coded(DoneBody(k.funs[me]), me, core, Size(j.funs[me]), |j.funs[me].labels|)
    && Size(k.funs[me]) == Size(j.funs[me]) + Len(core)
    && |k.funs[me].labels| == |j.funs[me].labels| + Marks(core)
    && after.next == |j.funs| + |made| && AllBuilt(k.funs, |j.funs|, made)
  }

  predicate EmittedAll(j: Job, k: Job, me: nat, es: Cores, after: Scope, made: seq<Definition>) {
    Grows(j, k, me, 0) && Sound(k, me) && ScopeOf(k, me) == after
    && CodedAll(DoneBody(k.funs[me]), me, es, Size(j.funs[me]), |j.funs[me].labels|)
    && Size(k.funs[me]) == Size(j.funs[me]) + LenAll(es)
    && |k.funs[me].labels| == |j.funs[me].labels| + MarksAll(es)
    && after.next == |j.funs| + |made| && AllBuilt(k.funs, |j.funs|, made)
  }

  /** What is finished in `f` is so in `g`, and the labels from `lo` on are kept. */
  predicate Keeps(f: Function, g: Function, lo: nat) {
    f.User? && g.User? && Finished(f.code) <= Finished(g.code) && |f.labels| <= |g.labels|
    && forall i :: lo <= i < |f.labels| ==> g.labels[i] == f.labels[i]
  }

  lemma GrowsKeeps(j: Job, k: Job, me: nat)
    requires Grows(j, k, me, 0)
    ensures Keeps(j.funs[me], k.funs[me], 0)
  {
    var f, g := j.funs[me], k.funs[me];
    forall i | 0 <= i < |f.labels|
      ensures g.labels[i] == f.labels[i]
    {
      assert g.labels[i] == g.labels[..|f.labels|][i];
    }
  }

  lemma KeepsCoded(f: Function, g: Function, lo: nat, me: nat, e: Core, at: nat, l: nat)
    requires Keeps(f, g, lo) && Coded(DoneBody(f), me, e, at, l) && lo <= l
    requires at + Len(e) <= Size(f) && l + Marks(e) <= |f.labels|
    ensures Coded(DoneBody(g), me, e, at, l)
  {
    hide Coded, Len, Marks;
    var a, b := DoneBody(f), DoneBody(g);
    assert forall k :: at <= k < at + Len(e) ==> a.code[k] == b.code[k];
    CodedMoves(a, b, me, e, at, l);
  }

  lemma KeepsCodedAll(f: Function, g: Function, lo: nat, me: nat, es: Cores, at: nat, l: nat)
    requires Keeps(f, g, lo) && CodedAll(DoneBody(f), me, es, at, l) && lo <= l
    requires at + LenAll(es) <= Size(f) && l + MarksAll(es) <= |f.labels|
    ensures CodedAll(DoneBody(g), me, es, at, l)
  {
    hide CodedAll, LenAll, MarksAll;
    var a, b := DoneBody(f), DoneBody(g);
    assert forall k :: at <= k < at + LenAll(es) ==> a.code[k] == b.code[k];
    CodedAllMoves(a, b, me, es, at, l);
  }

  lemma BuiltStays(a: Table, b: Table, id: nat, defs: seq<Definition>)
    requires AllBuilt(a, id, defs) && |a| <= |b|
    requires forall i :: id <= i < id + |defs| ==> i < |a| && b[i] == a[i]
    ensures AllBuilt(b, id, defs)
  {
    hide Coded;
    forall i | 0 <= i < |defs|
      ensures Built(b, id + i, defs[i])
    {
      assert Built(a, id + i, defs[i]);
    }
  }

  lemma BuiltJoins(funs: Table, id: nat, x: seq<Definition>, y: seq<Definition>)
    requires AllBuilt(funs, id, x) && AllBuilt(funs, id + |x|, y)
    ensures AllBuilt(funs, id, x + y)
  {
    hide Built;
    forall i | 0 <= i < |x + y|
      ensures Built(funs, id + i, (x + y)[i])
    {
      if i < |x| {
        assert Built(funs, id + i, x[i]);
      } else {
        assert Built(funs, id + |x| + (i - |x|), y[i - |x|]);
      }
    }
  }

  /** Special forms stay special forms, and new functions are none. */
  lemma FormsStay(j: Job, k: Job, me: nat, n: nat)
    requires Grows(j, k, me, n) && FormsBound(j.globals, j.funs) && k.globals == j.globals
    ensures FormsBound(k.globals, k.funs)
  {
    assert BodyGrows(j.funs[me], k.funs[me], me, n);
    hide BodyGrows, Tidy;
    assert j.funs[me].User? && k.funs[me].User?;
    forall x | x in k.globals && x !in KEYWORDS && k.globals[x].Fun?
      ensures k.globals[x].id >= |k.funs| || !k.funs[k.globals[x].id].Special?
    {
      var id := k.globals[x].id;
      if |j.funs| <= id < |k.funs| {
        assert Whole(k.funs[id], id) && Tidy(k.funs[id], id);
        assert k.funs[id].User?;
      }
    }
  }

  // ----- single instructions -----

  lemma EmitsOne(j: Job, me: nat, i: Instr, core: Core)
    requires Sound(j, me) && Own(i, me, |j.funs[me].labels|)
    requires Len(core) == 1 && Marks(core) == 0
    requires forall b: Body, at: nat, l: nat :: Op(b, at, i) && l <= |b.labels| ==> Coded(b, me, core, at, l)
    ensures Emitted(j, Emit(j, Context(me, me), i), me, core, ScopeOf(j, me), [])
  {
    hide Coded;
    EmitGrows(j, me, me, i);
    var k := Emit(j, Context(me, me), i);
    FormsStay(j, k, me, 0);
    assert Op(DoneBody(k.funs[me]), Size(j.funs[me]), i);
  }

  lemma EmitsConst(j: Job, me: nat, v: Value)
    requires Sound(j, me)
    ensures Emitted(j, Emit(j, Context(me, me), PUSH(Some(v))), me, Const(v), ScopeOf(j, me), [])
  {
    EmitsOne(j, me, PUSH(Some(v)), Const(v));
  }

  lemma EmitsName(j: Job, me: nat, x: string)
    requires Sound(j, me)
    ensures Emitted(j, EmitLoad(j, Context(me, me), x), me, ResolveName(x, j.funs[me].params), ScopeOf(j, me), [])
  {
    var i := ArgumentFinder(j.funs[me].params, x);
    if i.Some? {
      EmitsOne(j, me, LOAD(i.value), Param(i.value));
    } else {
      EmitsOne(j, me, GET(x), Global(x));
    }
  }

  /** Only the tokens differ. */
  lemma EmittedFrom(j: Job, j2: Job, k: Job, me: nat, core: Core, after: Scope, made: seq<Definition>)
    requires Emitted(j2, k, me, core, after, made) && j2.funs == j.funs && j2.globals == j.globals
    ensures Emitted(j, k, me, core, after, made)
  {
    hide Coded;
  }

  lemma EmitsRead(j: Job, me: nat, v: Value, rest: seq<Token>)
    requires Sound(j, me) && |rest| <= |j.toks|
    ensures var k := EmitParsed(j, Context(me, me), Parsed(Some(v), rest, false));
      k.toks == rest && Emitted(j, k, me, Const(v), ScopeOf(j, me), [])
  {
    var j2 := j.(toks := rest);
    EmitsConst(j2, me, v);
    EmittedFrom(j, j2, Emit(j2, Context(me, me), PUSH(Some(v))), me, Const(v), ScopeOf(j, me), []);
  }

  /** An instruction after an expression. */
  lemma EmitsAfter(j: Job, k: Job, me: nat, core: Core, after: Scope, made: seq<Definition>, v: Value)
    requires Sound(j, me) && Emitted(j, k, me, core, after, made)
    ensures Emitted(j, Emit(k, Context(me, me), PUSH(Some(v))), me, Then(core, Const(v)), after, made)
  {
    var m := Emit(k, Context(me, me), PUSH(Some(v)));
    EmitsConst(k, me, v);
    Joins(j, k, m, me, core, Const(v), after, after, made, []);
    assert made + [] == made;
  }

  /** One expression and then another. */
  lemma Joins(j: Job, k: Job, m: Job, me: nat, x: Core, y: Core, s1: Scope, s2: Scope,
              made1: seq<Definition>, made2: seq<Definition>)
    requires Emitted(j, k, me, x, s1, made1) && Emitted(k, m, me, y, s2, made2)
    ensures Emitted(j, m, me, Then(x, y), s2, made1 + made2)
  {
    hide Coded, Len, Marks, BodyGrows, FormsBound, Tidy;
    GrowsKeeps(j, k, me);
    GrowsKeeps(k, m, me);
    var at, l := Size(j.funs[me]), |j.funs[me].labels|;
    UnfoldThen(DoneBody(m.funs[me]), me, Then(x, y), at, l);
    KeepsCoded(k.funs[me], m.funs[me], 0, me, x, at, l);
    GrowsOn(j, k, m, me, 0);
    MadeJoins(j, k, m, me, made1, made2);
  }

  lemma MadeJoins(j: Job, k: Job, m: Job, me: nat, made1: seq<Definition>, made2: seq<Definition>)
    requires Grows(j, k, me, 0) && Grows(k, m, me, 0) && |k.funs| == |j.funs| + |made1|
    requires AllBuilt(k.funs, |j.funs|, made1) && AllBuilt(m.funs, |k.funs|, made2)
    ensures AllBuilt(m.funs, |j.funs|, made1 + made2)
  {
    hide AllBuilt, BodyGrows;
    BuiltStays(k.funs, m.funs, |j.funs|, made1);
    BuiltJoins(m.funs, |j.funs|, made1, made2);
  }

  // ----- operands, lists and arguments -----

  /** What compiling the operand `e` must come to. */
  predicate Operand(j: Job, r: Next, me: nat, e: Expr, rest: seq<Token>)
    requires IsUser(j, me)
  {
    var sc := ScopeOf(j, me);
    var s := Resolve(e, sc);
    r.job.toks == rest && r.tok != EOF && r.fn == Made(e, sc) && Emitted(j, r.job, me, s.core, s.after, s.made)
  }

  /** What compiling the list `e` must come to. */
  predicate Listed(j: Job, r: Compiled, me: nat, e: Expr, rest: seq<Token>)
    requires IsUser(j, me)
  {
    var sc := ScopeOf(j, me);
    var s := Resolve(e, sc);
    r.job.toks == rest && r.fn == Made(e, sc) && Emitted(j, r.job, me, s.core, s.after, s.made)
  }

  /** The compiler takes exactly the tokens of `e` and emits its code. */
  lemma {:induction false} NextEmits(e: Expr, rest: seq<Token>, j: Job, me: nat)
    requires WellFormed(e) && Sound(j, me) && j.toks == Write(e, rest)
    ensures Operand(j, CompileNext(j, Context(me, me)), me, e, rest)
    decreases e, 3
  {
    hide Emitted, EmitParsed, CompileList, ParseToken, Sound;
    var cx := Context(me, me);
    var k := Take(j);
    TakeIsSound(j, me);
    match e
    case Self(d) => SelfEmits(d, rest, j, me);
    case Quoted(d) => QuotedOperand(d, rest, j, me);
    case Name(x) => NameOperand(x, rest, j, me);
    case _ =>
      assert k.toks == Inside(e, rest);
      ListEmits(e, rest, k, me);
      var r := CompileList(k, cx, START);
      var s := Resolve(e, ScopeOf(j, me));
      EmittedFrom(j, k, r.job, me, s.core, s.after, s.made);
  }

  lemma ParsesAtom(x: string, rest: seq<Token>)
    ensures ParseToken(ATOM(x), rest) == Parsed(Some(Sym(x)), rest, false)
  {
  }

  lemma TakeIsSound(j: Job, me: nat)
    requires Sound(j, me)
    ensures IsUser(j, me) && Sound(Take(j), me) && ScopeOf(Take(j), me) == ScopeOf(j, me)
  {
  }

  lemma QuotedOperand(d: Datum, rest: seq<Token>, j: Job, me: nat)
    requires Sound(j, me) && j.toks == [QUOTE] + (Spell(d) + rest)
    ensures Operand(j, CompileNext(j, Context(me, me)), me, Quoted(d), rest)
  {
    hide Emitted, EmitParsed, CompileList, ParseToken, Sound;
    var k := Take(j);
    TakeIsSound(j, me);
    assert k.toks == Spell(d) + rest;
    TakeIsSound(k, me);
    ReadsDatum(d, rest);
    assert Take(k).toks == Spell(d)[1..] + rest;
    EmitsRead(Take(k), me, Denotes(d), rest);
    EmittedFrom(j, Take(k), EmitParsed(Take(k), Context(me, me), Parsed(Some(Denotes(d)), rest, false)), me,
                Const(Denotes(d)), ScopeOf(j, me), []);
  }

  lemma NameOperand(x: string, rest: seq<Token>, j: Job, me: nat)
    requires Sound(j, me) && j.toks == [ATOM(x)] + rest
    ensures Operand(j, CompileNext(j, Context(me, me)), me, Name(x), rest)
  {
    hide Emitted, EmitParsed, CompileList, ParseToken, Sound;
    var k := Take(j);
    TakeIsSound(j, me);
    assert k.toks == rest;
    ParsesAtom(x, rest);
    EmitsRead(k, me, Sym(x), rest);
    EmittedFrom(j, k, EmitParsed(k, Context(me, me), Parsed(Some(Sym(x)), rest, false)), me,
                Const(Sym(x)), ScopeOf(j, me), []);
  }

  lemma SelfEmits(d: Datum, rest: seq<Token>, j: Job, me: nat)
    requires WellFormed(Self(d)) && Sound(j, me) && j.toks == Spell(d) + rest
    ensures Operand(j, CompileNext(j, Context(me, me)), me, Self(d), rest)
  {
    hide Emitted, EmitParsed, CompileList, ParseToken, Sound;
    var cx := Context(me, me);
    var k := Take(j);
    TakeIsSound(j, me);
    assert k.toks == Spell(d)[1..] + rest;
    ReadsDatum(d, rest);
    EmitsRead(k, me, Denotes(d), rest);
    EmittedFrom(j, k, EmitParsed(k, cx, Parsed(Some(Denotes(d)), rest, false)), me, Const(Denotes(d)), ScopeOf(j, me),
      []);
  }

  lemma EmittedTo(j: Job, k: Job, k2: Job, me: nat, core: Core, after: Scope, made: seq<Definition>)
    requires Emitted(j, k, me, core, after, made)
    requires k2.funs == k.funs && k2.globals == k.globals && k2.fault == k.fault
    ensures Emitted(j, k2, me, core, after, made)
  {
    hide Coded;
  }

  lemma {:induction false} ListEmits(e: Expr, rest: seq<Token>, j: Job, me: nat)
    requires IsList(e) && WellFormed(e) && Sound(j, me) && j.toks == Inside(e, rest)
    ensures Listed(j, CompileList(j, Context(me, me), START), me, e, rest)
    decreases e, 2
  {
    hide Emitted, CompileList, CompileForm, Sound, Inside, Resolve;
    var cx := Context(me, me);
    var k := Take(j);
    TakeIsSound(j, me);
    if e.Nothing? {
      NothingEmits(rest, j, me);
    } else if e.Invoke? {
      InvokeEmits(e, rest, j, me);
    } else if e.Applied? {
      AppliedEmits(e, rest, j, me);
    } else {
      InsideForm(e, rest);
      assert k.toks == Operands(e, rest);
      FormEmits(e, rest, k, me);
      FormListed(e, rest, j, me, CompileForm(KEYWORDS[KeywordOf(e)], k, cx));
    }
  }

  predicate IsForm(e: Expr) {
    IsList(e) && !e.Nothing? && !e.Invoke? && !e.Applied?
  }

  function KeywordOf(e: Expr): (x: string)
    requires IsForm(e)
  {
    match e
    case If(_, _, _) => "if"
    case When(_, _) => "when"
    case While(_, _) => "while"
    case Set(_, _) => "set!"
    case Lambda(k, _, _, _) => k
    case Defun(_, _, _, _) => "defun!"
  }

  /** What stands between the keyword and the end of the form. */
  function Operands(e: Expr, rest: seq<Token>): seq<Token>
    requires IsForm(e)
  {
    var close := [RBRACE] + rest;
    match e
    case If(c, a, b) => Write(c, Write(a, Write(b, close)))
    case When(c, b) => Write(c, Write(b, close))
    case While(c, b) => Write(c, Write(b, close))
    case Set(x, a) => [ATOM(x)] + Write(a, close)
    case Lambda(_, ps, doc, b) => WriteParams(ps, doc + Write(b, close))
    case Defun(f, ps, doc, b) => [ATOM(f)] + WriteParams(ps, doc + Write(b, close))
  }

  lemma InsideForm(e: Expr, rest: seq<Token>)
    requires IsForm(e) && WellFormed(e)
    ensures Inside(e, rest) == [ATOM(KeywordOf(e))] + Operands(e, rest) && KeywordOf(e) in KEYWORDS
    ensures Inside(e, rest)[1..] == Operands(e, rest)
  {
    hide Write;
  }

  /** What compiling the operands of the form `e` must come to. */
  predicate Formed(j: Job, c: Compiled, me: nat, e: Expr, rest: seq<Token>)
    requires IsUser(j, me)
  {
    Listed(j, c, me, e, [RBRACE] + rest)
  }

  /** After a special form comes the closing brace, and nothing more is emitted. */
  lemma FormListed(e: Expr, rest: seq<Token>, j: Job, me: nat, c: Compiled)
    requires IsForm(e) && WellFormed(e) && Sound(j, me) && j.toks == Inside(e, rest)
    requires IsUser(j, me) && IsUser(Take(j), me) && KeywordOf(e) in KEYWORDS
    requires c == CompileForm(KEYWORDS[KeywordOf(e)], Take(j), Context(me, me)) && Formed(Take(j), c, me, e, rest)
    ensures Listed(j, CompileList(j, Context(me, me), START), me, e, rest)
  {
    hide Emitted, CompileForm, Inside, Resolve, Operands;
    InsideForm(e, rest);
    var cx := Context(me, me);
    var k := Take(j);
    var kw := KeywordOf(e);
    var s := Resolve(e, ScopeOf(j, me));
    var (pf, fun) := PrefetchFunction(k, kw);
    assert pf == SForm && k.funs[fun.value].form == KEYWORDS[kw];
    var st := START.(pf := SForm, fun := c.fn, felem := false);
    assert CompileList(j, cx, START) == CompileList(c.job, cx, st);
    assert Take(c.job).toks == rest;
    assert CompileList(c.job, cx, st) == Compiled(Take(c.job), c.fn);
    EmittedFrom(j, k, c.job, me, s.core, s.after, s.made);
    EmittedTo(j, c.job, Take(c.job), me, s.core, s.after, s.made);
  }

  lemma NothingEmits(rest: seq<Token>, j: Job, me: nat)
    requires Sound(j, me) && j.toks == Inside(Nothing, rest)
    ensures Listed(j, CompileList(j, Context(me, me), START), me, Nothing, rest)
  {
    hide Emitted, Sound;
    var k := Take(j);
    TakeIsSound(j, me);
    assert k.toks == rest;
    EmitsConst(k, me, Nil);
    EmittedFrom(j, k, Emit(k, Context(me, me), PUSH(Some(Nil))), me, Const(Nil), ScopeOf(j, me), []);
  }

  lemma {:induction false} FormEmits(e: Expr, rest: seq<Token>, j: Job, me: nat)
    requires IsForm(e) && WellFormed(e) && Sound(j, me) && j.toks == Operands(e, rest) && KeywordOf(e) in KEYWORDS
    ensures Formed(j, CompileForm(KEYWORDS[KeywordOf(e)], j, Context(me, me)), me, e, rest)
    decreases e, 1
  {
    hide Formed, CompileIf, CompileWhen, CompileWhile, CompileSet, CompileDefun, CompileLambda, Sound;
    match e
    case If(_, _, _) => IfEmits(e, rest, j, me);
    case When(_, _) => WhenEmits(e, rest, j, me);
    case While(_, _) => WhileEmits(e, rest, j, me);
    case Set(_, _) => SetEmits(e, rest, j, me);
    case Lambda(_, _, _, _) => LambdaEmits(e, rest, j, me);
    case Defun(_, _, _, _) => DefunEmits(e, rest, j, me);
  }

  // ----- forms with labels -----

  /** Since `j` the form has allocated `n` labels; the functions `made` were compiled. */
  predicate Opened(j: Job, k: Job, me: nat, n: nat, after: Scope, made: seq<Definition>) {
    Grows(j, k, me, n) && Sound(k, me) && ScopeOf(k, me) == after
    && after.next == |j.funs| + |made| && AllBuilt(k.funs, |j.funs|, made)
  }

  lemma OpenLabels(j: Job, me: nat, n: nat)
    requires Sound(j, me)
    ensures var k := NewLabels(j, Context(me, me), n);
      k.toks == j.toks && IsUser(k, me) && Opened(j, k, me, n, ScopeOf(j, me), [])
      && Size(k.funs[me]) == Size(j.funs[me]) && |k.funs[me].labels| == |j.funs[me].labels| + n
  {
    NewLabelsGrows(j, me, n);
    FormsStay(j, NewLabels(j, Context(me, me), n), me, n);
  }

  lemma OpenEmit(j: Job, k: Job, me: nat, n: nat, after: Scope, made: seq<Definition>, i: Instr)
    requires Opened(j, k, me, n, after, made) && Own(i, me, |j.funs[me].labels| + n)
    ensures var m := Emit(k, Context(me, me), i);
      IsUser(m, me) && m.toks == k.toks && Opened(j, m, me, n, after, made)
        && Op(DoneBody(m.funs[me]), Size(k.funs[me]), i)
      && Size(m.funs[me]) == Size(k.funs[me]) + 1 && m.funs[me].labels == k.funs[me].labels
      && Keeps(k.funs[me], m.funs[me], 0)
  {
    hide AllBuilt;
    var m := Emit(k, Context(me, me), i);
    EmitGrows(k, me, me, i);
    GrowsOn(j, k, m, me, n);
    FormsStay(k, m, me, 0);
    BuiltStays(k.funs, m.funs, |j.funs|, made);
    GrowsKeeps(k, m, me);
  }

  lemma OpenBind(j: Job, k: Job, me: nat, n: nat, after: Scope, made: seq<Definition>, l: nat)
    requires Opened(j, k, me, n, after, made) && |j.funs[me].labels| <= l < |j.funs[me].labels| + n
    ensures var m := BindLabel(k, Context(me, me), l);
      IsUser(m, me) && m.toks == k.toks && Opened(j, m, me, n, after, made)
        && Mark(DoneBody(m.funs[me]), l, me, Size(k.funs[me]))
      && Finished(m.funs[me].code) == Finished(k.funs[me].code) && l < |k.funs[me].labels|
      && m.funs[me].labels == k.funs[me].labels[l := Bound(me, Size(k.funs[me]))]
      && Keeps(k.funs[me], m.funs[me], |j.funs[me].labels| + n)
  {
    hide AllBuilt;
    var m := BindLabel(k, Context(me, me), l);
    BindGrows(j, k, me, n, l);
    FormsKept(k, m, me);
    BuiltStays(k.funs, m.funs, |j.funs|, made);
  }

  lemma FormsKept(j: Job, k: Job, me: nat)
    requires me < |j.funs| == |k.funs| && j.funs[me].User? && k.funs[me].User?
    requires FormsBound(j.globals, j.funs) && k.globals == j.globals
    requires forall i :: 0 <= i < |j.funs| && i != me ==> k.funs[i] == j.funs[i]
    ensures FormsBound(k.globals, k.funs)
  {
  }

  /** An operand of a form that has allocated `n` labels. */
  lemma {:induction false} OpenOperand(e: Expr, rest: seq<Token>, j: Job, k: Job, me: nat, n: nat,
                                       after: Scope, made: seq<Definition>)
    requires WellFormed(e) && Opened(j, k, me, n, after, made) && k.toks == Write(e, rest)
    ensures var r := CompileNext(k, Context(me, me));
      var s := Resolve(e, after);
      IsUser(r.job, me) && r.job.toks == rest && r.fn == Made(e, after)
        && Opened(j, r.job, me, n, s.after, made + s.made)
      && Coded(DoneBody(r.job.funs[me]), me, s.core, Size(k.funs[me]), |k.funs[me].labels|)
      && Size(r.job.funs[me]) == Size(k.funs[me]) + Len(s.core)
      && |r.job.funs[me].labels| == |k.funs[me].labels| + Marks(s.core)
      && Keeps(k.funs[me], r.job.funs[me], 0)
    decreases e, 4
  {
    hide Coded, Write, CompileNext, Resolve, Len, Marks, BodyGrows, FormsBound;
    NextEmits(e, rest, k, me);
    var r := CompileNext(k, Context(me, me)).job;
    var s := Resolve(e, after);
    GrowsOn(j, k, r, me, n);
    GrowsKeeps(k, r, me);
    OpenMade(j, k, r, me, n, made, s.made);
  }

  lemma OpenMade(j: Job, k: Job, m: Job, me: nat, n: nat, made1: seq<Definition>, made2: seq<Definition>)
    requires Grows(j, k, me, n) && Grows(k, m, me, 0) && |k.funs| == |j.funs| + |made1|
    requires AllBuilt(k.funs, |j.funs|, made1) && AllBuilt(m.funs, |k.funs|, made2)
    ensures AllBuilt(m.funs, |j.funs|, made1 + made2)
  {
    hide AllBuilt, BodyGrows;
    BuiltStays(k.funs, m.funs, |j.funs|, made1);
    BuiltJoins(m.funs, |j.funs|, made1, made2);
  }

  lemma KeepsOn(f: Function, g: Function, h: Function, lo: nat)
    requires Keeps(f, g, 0) || Keeps(f, g, lo)
    requires Keeps(g, h, 0) || Keeps(g, h, lo)
    ensures Keeps(f, h, lo)
  {
  }

  lemma KeepsUsers(f: Function, g: Function, lo: nat)
    requires Keeps(f, g, lo)
    ensures f.User? && g.User?
  {
  }

  lemma KeepsOp(f: Function, g: Function, lo: nat, at: nat, i: Instr)
    requires Keeps(f, g, lo) && Op(DoneBody(f), at, i)
    ensures Op(DoneBody(g), at, i)
  {
  }

  lemma Closed(j: Job, k: Job, me: nat, n: nat, core: Core, after: Scope, made: seq<Definition>)
    requires Opened(j, k, me, n, after, made) && IsUser(j, me) && IsUser(k, me)
    requires forall i :: |j.funs[me].labels| <= i < |j.funs[me].labels| + n ==> k.funs[me].labels[i].Bound?
    requires Coded(DoneBody(k.funs[me]), me, core, Size(j.funs[me]), |j.funs[me].labels|)
    requires Size(k.funs[me]) == Size(j.funs[me]) + Len(core)
    requires |k.funs[me].labels| == |j.funs[me].labels| + Marks(core)
    ensures Emitted(j, k, me, core, after, made)
  {
    hide Coded, Len, Marks;
    AllBound(j, k, me, n);
  }

  lemma ResolveWhen(e: Expr, sc: Scope)
    requires e.When?
    ensures var s1 := Resolve(e.cond, sc);
      var s2 := Resolve(e.body, s1.after);
      Resolve(e, sc) == Resolved(Core.When(s1.core, s2.core), s2.after, s1.made + s2.made)
  {
  }

  lemma {:induction false} WhenEmits(e: Expr, rest: seq<Token>, j: Job, me: nat)
    requires e.When? && WellFormed(e) && Sound(j, me) && j.toks == Operands(e, rest)
    ensures Formed(j, CompileWhen(j, Context(me, me)), me, e, rest)
    decreases e, 0
  {
    hide Coded, CodedWhen, Write, Resolve, Len, Marks, CompileNext, Emit, NewLabels, BindLabel;
    hide Opened, Keeps, Op, Mark, BodyGrows, FormsBound, Grows, Emitted;
    var cx := Context(me, me);
    TakeIsSound(j, me);
    var l := |j.funs[me].labels|;
    var sc := ScopeOf(j, me);
    ResolveWhen(e, sc);
    var s1 := Resolve(e.cond, sc);
    var s2 := Resolve(e.body, s1.after);
    var i := JN(LabelRef(me, l));
    var k0 := NewLabels(j, cx, 1);
    OpenLabels(j, me, 1);
    OpenOperand(e.cond, Write(e.body, [RBRACE] + rest), j, k0, me, 1, sc, []);
    var k1 := CompileNext(k0, cx).job;
    OpenEmit(j, k1, me, 1, s1.after, [] + s1.made, i);
    var k2 := Emit(k1, cx, i);
    OpenOperand(e.body, [RBRACE] + rest, j, k2, me, 1, s1.after, [] + s1.made);
    var k3 := CompileNext(k2, cx).job;
    assert ([] + s1.made) + s2.made == s1.made + s2.made;
    OpenBind(j, k3, me, 1, s2.after, s1.made + s2.made, l);
    var k4 := BindLabel(k3, cx, l);
    WhenInPlace(me, s1.core, s2.core, l, k0.funs[me], k1.funs[me], k2.funs[me], k3.funs[me], k4.funs[me]);
    UnfoldWhen(DoneBody(k4.funs[me]), me, Core.When(s1.core, s2.core), Size(j.funs[me]), l);
    Closed(j, k4, me, 1, Core.When(s1.core, s2.core), s2.after, s1.made + s2.made);
  }

  /** The pieces of the form, each put in place at its time, are all in place at the end. */
  lemma WhenInPlace(me: nat, x: Core, y: Core, l: nat, f0: Function, f1: Function, f2: Function, f3: Function,
                    f4: Function)
    requires f0.User? && |f0.labels| == l + 1
    requires Keeps(f1, f2, 0) && Keeps(f2, f3, 0) && Keeps(f3, f4, l + 1)
    requires Coded(DoneBody(f1), me, x, Size(f0), l + 1)
    requires Size(f1) == Size(f0) + Len(x) && |f1.labels| == l + 1 + Marks(x)
    requires Op(DoneBody(f2), Size(f1), JN(LabelRef(me, l)))
    requires Size(f2) == Size(f1) + 1 && |f2.labels| == |f1.labels|
    requires Coded(DoneBody(f3), me, y, Size(f2), |f2.labels|)
    requires Size(f3) == Size(f2) + Len(y) && |f3.labels| == |f2.labels| + Marks(y)
    requires Mark(DoneBody(f4), l, me, Size(f3))
    ensures Coded(DoneBody(f4), me, Core.When(x, y), Size(f0), l)
  {
    hide Coded, Len, Marks, Keeps, Op, Mark, DoneBody, Size;
    KeepsUsers(f1, f2, 0);
    KeepsUsers(f3, f4, l + 1);
    UnfoldWhen(DoneBody(f4), me, Core.When(x, y), Size(f0), l);
    KeepsOn(f1, f2, f3, l + 1);
    KeepsOn(f1, f3, f4, l + 1);
    KeepsOn(f2, f3, f4, l + 1);
    KeepsCoded(f1, f4, l + 1, me, x, Size(f0), l + 1);
    KeepsOp(f2, f4, l + 1, Size(f1), JN(LabelRef(me, l)));
    KeepsCoded(f3, f4, l + 1, me, y, Size(f2), l + 1 + Marks(x));
  }

  lemma ResolveIf(e: Expr, sc: Scope)
    requires e.If?
    ensures var s1 := Resolve(e.cond, sc);
      var s2 := Resolve(e.yes, s1.after);
      var s3 := Resolve(e.no, s2.after);
      Resolve(e, sc) == Resolved(Core.If(s1.core, s2.core, s3.core), s3.after, s1.made + s2.made + s3.made)
  {
  }

  lemma {:induction false} IfEmits(e: Expr, rest: seq<Token>, j: Job, me: nat)
    requires e.If? && WellFormed(e) && Sound(j, me) && j.toks == Operands(e, rest)
    ensures Formed(j, CompileIf(j, Context(me, me)), me, e, rest)
    decreases e, 0
  {
    hide Coded, CodedIf, Write, Resolve, Len, Marks, CompileNext, Emit, NewLabels, BindLabel;
    hide Opened, Keeps, Op, Mark, BodyGrows, FormsBound, Grows, Emitted;
    var cx := Context(me, me);
    var close := [RBRACE] + rest;
    TakeIsSound(j, me);
    var l := |j.funs[me].labels|;
    var sc := ScopeOf(j, me);
    ResolveIf(e, sc);
    var s1 := Resolve(e.cond, sc);
    var s2 := Resolve(e.yes, s1.after);
    var s3 := Resolve(e.no, s2.after);
    var made1, made2 := [] + s1.made, [] + s1.made + s2.made;
    assert made2 + s3.made == s1.made + s2.made + s3.made;
    var i, i2 := JN(LabelRef(me, l + 1)), JMP(LabelRef(me, l));
    var k0 := NewLabels(j, cx, 2);
    OpenLabels(j, me, 2);
    OpenOperand(e.cond, Write(e.yes, Write(e.no, close)), j, k0, me, 2, sc, []);
    var k1 := CompileNext(k0, cx).job;
    OpenEmit(j, k1, me, 2, s1.after, made1, i);
    var k2 := Emit(k1, cx, i);
    OpenOperand(e.yes, Write(e.no, close), j, k2, me, 2, s1.after, made1);
    var k3 := CompileNext(k2, cx).job;
    OpenEmit(j, k3, me, 2, s2.after, made2, i2);
    var k4 := Emit(k3, cx, i2);
    OpenBind(j, k4, me, 2, s2.after, made2, l + 1);
    var k5 := BindLabel(k4, cx, l + 1);
    OpenOperand(e.no, close, j, k5, me, 2, s2.after, made2);
    var k6 := CompileNext(k5, cx).job;
    OpenBind(j, k6, me, 2, s3.after, made2 + s3.made, l);
    var k7 := BindLabel(k6, cx, l);
    IfInPlace(me, s1.core, s2.core, s3.core, l, Size(j.funs[me]), k1.funs[me], k2.funs[me], k3.funs[me], k4.funs[me],
              k5.funs[me], k6.funs[me], k7.funs[me]);
    UnfoldIf(DoneBody(k7.funs[me]), me, Core.If(s1.core, s2.core, s3.core), Size(j.funs[me]), l);
    Closed(j, k7, me, 2, Core.If(s1.core, s2.core, s3.core), s3.after, s1.made + s2.made + s3.made);
  }

  lemma IfInPlace(me: nat, x: Core, y: Core, z: Core, l: nat, at: nat, f1: Function, f2: Function, f3: Function,
                  f4: Function, f5: Function, f6: Function, f7: Function)
    requires Keeps(f1, f2, 0) && Keeps(f2, f3, 0) && Keeps(f3, f4, 0) && Keeps(f4, f5, l + 2)
    requires Keeps(f5, f6, 0) && Keeps(f6, f7, l + 2)
    requires Coded(DoneBody(f1), me, x, at, l + 2)
    requires Size(f1) == at + Len(x) && |f1.labels| == l + 2 + Marks(x)
    requires Op(DoneBody(f2), Size(f1), JN(LabelRef(me, l + 1)))
    requires Size(f2) == Size(f1) + 1 && |f2.labels| == |f1.labels|
    requires Coded(DoneBody(f3), me, y, Size(f2), |f2.labels|)
    requires Size(f3) == Size(f2) + Len(y) && |f3.labels| == |f2.labels| + Marks(y)
    requires Op(DoneBody(f4), Size(f3), JMP(LabelRef(me, l)))
    requires Size(f4) == Size(f3) + 1 && |f4.labels| == |f3.labels|
    requires Mark(DoneBody(f5), l + 1, me, Size(f4)) && Size(f5) == Size(f4) && |f5.labels| == |f4.labels|
    requires Coded(DoneBody(f6), me, z, Size(f5), |f5.labels|)
    requires Size(f6) == Size(f5) + Len(z) && |f6.labels| == |f5.labels| + Marks(z)
    requires l + 1 < |f6.labels| && f7.User? && f7.labels == f6.labels[l := Bound(me, Size(f6))]
    requires Mark(DoneBody(f7), l, me, Size(f6)) && Size(f7) == Size(f6)
    ensures Coded(DoneBody(f7), me, Core.If(x, y, z), at, l)
    ensures l + 1 < |f7.labels| && f7.labels[l].Bound? && f7.labels[l + 1].Bound?
  {
    hide Coded, Len, Marks, Keeps, Op, Mark, DoneBody, Size;
    KeepsUsers(f1, f2, 0);
    KeepsUsers(f3, f4, 0);
    KeepsUsers(f5, f6, 0);
    UnfoldIf(DoneBody(f7), me, Core.If(x, y, z), at, l);
    KeepsOn(f5, f6, f7, l + 2);
    KeepsOn(f4, f5, f7, l + 2);
    KeepsOn(f3, f4, f7, l + 2);
    KeepsOn(f2, f3, f7, l + 2);
    KeepsOn(f1, f2, f7, l + 2);
    KeepsCoded(f1, f7, l + 2, me, x, at, l + 2);
    KeepsOp(f2, f7, l + 2, Size(f1), JN(LabelRef(me, l + 1)));
    KeepsCoded(f3, f7, l + 2, me, y, Size(f2), l + 2 + Marks(x));
    KeepsOp(f4, f7, l + 2, Size(f3), JMP(LabelRef(me, l)));
    KeepsMark(f5, f6, 0, l + 1, me, Size(f4));
    KeepsOtherMark(f6, f7, l, l + 1, me, Size(f4));
    MarkIsBound(f7, l + 1, me, Size(f4));
    KeepsCoded(f6, f7, l + 2, me, z, Size(f5), l + 2 + Marks(x) + Marks(y));
  }

  lemma KeepsMark(f: Function, g: Function, lo: nat, l: nat, me: nat, pc: nat)
    requires Keeps(f, g, lo) && lo <= l && Mark(DoneBody(f), l, me, pc)
    ensures Mark(DoneBody(g), l, me, pc)
  {
  }

  lemma MarkIsBound(f: Function, l: nat, me: nat, pc: nat)
    requires f.User? && Mark(DoneBody(f), l, me, pc)
    ensures l < |f.labels| && f.labels[l].Bound?
  {
  }

  lemma KeepsOtherMark(f: Function, g: Function, bound: nat, l: nat, me: nat, pc: nat)
    requires f.User? && g.User? && Size(f) == Size(g) && bound != l && bound < |f.labels|
    requires |g.labels| == |f.labels| && g.labels == f.labels[bound := g.labels[bound]]
    requires Mark(DoneBody(f), l, me, pc)
    ensures Mark(DoneBody(g), l, me, pc)
  {
  }

  lemma ResolveWhile(e: Expr, sc: Scope)
    requires e.While?
    ensures var s1 := Resolve(e.cond, sc);
      var s2 := Resolve(e.body, s1.after);
      Resolve(e, sc) == Resolved(Core.While(s1.core, s2.core), s2.after, s1.made + s2.made)
  {
  }

  lemma {:induction false} WhileEmits(e: Expr, rest: seq<Token>, j: Job, me: nat)
    requires e.While? && WellFormed(e) && Sound(j, me) && j.toks == Operands(e, rest)
    ensures Formed(j, CompileWhile(j, Context(me, me)), me, e, rest)
    decreases e, 0
  {
    hide Coded, CodedWhile, Write, Resolve, Len, Marks, CompileNext, Emit, NewLabels, BindLabel;
    hide Opened, Keeps, Op, Mark, BodyGrows, FormsBound, Grows, Emitted;
    var cx := Context(me, me);
    TakeIsSound(j, me);
    var l := |j.funs[me].labels|;
    var sc := ScopeOf(j, me);
    ResolveWhile(e, sc);
    var s1 := Resolve(e.cond, sc);
    var s2 := Resolve(e.body, s1.after);
    var made1 := [] + s1.made;
    assert made1 + s2.made == s1.made + s2.made;
    var i, i2 := JN(LabelRef(me, l + 1)), JMP(LabelRef(me, l));
    OpenLabels(j, me, 2);
    OpenBind(j, NewLabels(j, cx, 2), me, 2, sc, [], l);
    var k0 := BindLabel(NewLabels(j, cx, 2), cx, l);
    OpenOperand(e.cond, Write(e.body, [RBRACE] + rest), j, k0, me, 2, sc, []);
    var k1 := CompileNext(k0, cx).job;
    OpenEmit(j, k1, me, 2, s1.after, made1, i);
    var k2 := Emit(k1, cx, i);
    OpenOperand(e.body, [RBRACE] + rest, j, k2, me, 2, s1.after, made1);
    var k3 := CompileNext(k2, cx).job;
    OpenEmit(j, k3, me, 2, s2.after, s1.made + s2.made, i2);
    var k4 := Emit(k3, cx, i2);
    OpenBind(j, k4, me, 2, s2.after, s1.made + s2.made, l + 1);
    var k5 := BindLabel(k4, cx, l + 1);
    WhileInPlace(me, s1.core, s2.core, l, k0.funs[me], k1.funs[me], k2.funs[me], k3.funs[me], k4.funs[me], k5.funs[me]);
    UnfoldWhile(DoneBody(k5.funs[me]), me, Core.While(s1.core, s2.core), Size(j.funs[me]), l);
    Closed(j, k5, me, 2, Core.While(s1.core, s2.core), s2.after, s1.made + s2.made);
  }

  lemma WhileInPlace(me: nat, x: Core, y: Core, l: nat, f0: Function, f1: Function, f2: Function, f3: Function,
                     f4: Function, f5: Function)
    requires Keeps(f0, f1, 0) && Keeps(f1, f2, 0) && Keeps(f2, f3, 0) && Keeps(f3, f4, 0) && Keeps(f4, f5, l + 2)
    requires f0.User? && |f0.labels| == l + 2 && Mark(DoneBody(f0), l, me, Size(f0))
    requires Coded(DoneBody(f1), me, x, Size(f0), l + 2)
    requires Size(f1) == Size(f0) + Len(x) && |f1.labels| == l + 2 + Marks(x)
    requires Op(DoneBody(f2), Size(f1), JN(LabelRef(me, l + 1)))
    requires Size(f2) == Size(f1) + 1 && |f2.labels| == |f1.labels|
    requires Coded(DoneBody(f3), me, y, Size(f2), |f2.labels|)
    requires Size(f3) == Size(f2) + Len(y) && |f3.labels| == |f2.labels| + Marks(y)
    requires Op(DoneBody(f4), Size(f3), JMP(LabelRef(me, l)))
    requires Size(f4) == Size(f3) + 1 && |f4.labels| == |f3.labels|
    requires f5.User? && Size(f5) == Size(f4) && f5.labels == f4.labels[l + 1 := Bound(me, Size(f4))]
    requires Mark(DoneBody(f5), l + 1, me, Size(f4))
    ensures Coded(DoneBody(f5), me, Core.While(x, y), Size(f0), l)
    ensures l + 1 < |f5.labels| && f5.labels[l].Bound? && f5.labels[l + 1].Bound?
  {
    hide Coded, Len, Marks, Keeps, Op, Mark, DoneBody, Size;
    KeepsUsers(f1, f2, 0);
    KeepsUsers(f3, f4, 0);
    UnfoldWhile(DoneBody(f5), me, Core.While(x, y), Size(f0), l);
    KeepsOn(f3, f4, f5, l + 2);
    KeepsOn(f2, f3, f5, l + 2);
    KeepsOn(f1, f2, f5, l + 2);
    KeepsOn(f2, f3, f4, 0);
    KeepsOn(f1, f2, f4, 0);
    KeepsOn(f0, f1, f4, 0);
    KeepsMark(f0, f4, 0, l, me, Size(f0));
    KeepsOtherMark(f4, f5, l + 1, l, me, Size(f0));
    KeepsCoded(f1, f5, l + 2, me, x, Size(f0), l + 2);
    KeepsOp(f2, f5, l + 2, Size(f1), JN(LabelRef(me, l + 1)));
    KeepsCoded(f3, f5, l + 2, me, y, Size(f2), l + 2 + Marks(x));
    KeepsOp(f4, f5, l + 2, Size(f3), JMP(LabelRef(me, l)));
    MarkIsBound(f5, l, me, Size(f0));
    MarkIsBound(f5, l + 1, me, Size(f4));
  }

  // ----- set!, lambda and defun! -----

  lemma ResolveSet(e: Expr, sc: Scope)
    requires e.Set?
    ensures var s := Resolve(e.arg, sc);
      Resolve(e, sc) == Resolved(Assign(e.name, WithFunction(e.arg, s.core, sc.next)), s.after, s.made)
  {
  }

  lemma {:induction false} SetEmits(e: Expr, rest: seq<Token>, j: Job, me: nat)
    requires e.Set? && WellFormed(e) && Sound(j, me) && j.toks == Operands(e, rest)
    ensures Formed(j, CompileSet(j, Context(me, me)), me, e, rest)
    decreases e, 0
  {
    hide Coded, Write, Resolve, CompileNext, Emit, Emitted, Sound;
    var cx := Context(me, me);
    var close := [RBRACE] + rest;
    TakeIsSound(j, me);
    var sc := ScopeOf(j, me);
    ResolveSet(e, sc);
    var k := Take(j);
    assert k.toks == Write(e.arg, close);
    NextEmits(e.arg, close, k, me);
    var n := CompileNext(k, cx);
    var s := Resolve(e.arg, sc);
    EmittedFrom(j, k, n.job, me, s.core, s.after, s.made);
    if n.fn.Some? {
      EmitsAfter(j, n.job, me, s.core, s.after, s.made, Fun(sc.next));
    }
    var j1 := if n.fn.Some? then Emit(n.job, cx, PUSH(Some(Fun(n.fn.value)))) else n.job;
    SetAfter(j, j1, me, e.name, WithFunction(e.arg, s.core, sc.next), s.after, s.made);
  }

  lemma SetAfter(j: Job, k: Job, me: nat, x: string, core: Core, after: Scope, made: seq<Definition>)
    requires Emitted(j, k, me, core, after, made)
    ensures Emitted(j, Emit(k, Context(me, me), SET(x)), me, Assign(x, core), after, made)
  {
    hide Coded, Len, Marks, BodyGrows, FormsBound, AllBuilt, Tidy;
    var m := Emit(k, Context(me, me), SET(x));
    GrowsKeeps(j, k, me);
    StaysOpen(j, k, me);
    EmitGrows(k, me, me, SET(x));
    GrowsOn(j, k, m, me, 0);
    FormsStay(k, m, me, 0);
    BuiltStays(k.funs, m.funs, |j.funs|, made);
    GrowsKeeps(k, m, me);
    StaysOpen(k, m, me);
    KeepsCoded(k.funs[me], m.funs[me], 0, me, core, Size(j.funs[me]), |j.funs[me].labels|);
    UnfoldAssign(DoneBody(m.funs[me]), me, Assign(x, core), Size(j.funs[me]), |j.funs[me].labels|);
  }

  lemma ReadsParams(ps: Params, rest: seq<Token>)
    ensures ParseParams(WriteParams(ps, rest)) == Parameters(Names(ps), rest, false)
  {
    match ps
    case NoParams => assert WriteParams(ps, rest)[1..] == rest;
    case Listed(xs) =>
      assert WriteParams(ps, rest)[1..] == WriteNames(xs, rest);
      ReadsNames(xs, rest);
  }

  lemma {:induction false} ReadsNames(xs: seq<string>, rest: seq<Token>)
    ensures ParseNames(WriteNames(xs, rest)) == Parameters(xs, rest, false)
  {
    var toks := WriteNames(xs, rest);
    if xs == [] {
      assert toks[1..] == rest;
    } else {
      ReadsNames(xs[1..], rest);
      assert toks[1..] == WriteNames(xs[1..], rest);
      assert [xs[0]] + xs[1..] == xs;
    }
  }

  /** Documentation goes, and the token behind it; a body that is no string stays. */
  lemma SkipsDocumentation(doc: seq<Token>, b: Expr, rest: seq<Token>, j: Job)
    requires IsDoc(doc, b) && j.toks == doc + Write(b, rest)
    ensures SkipDocumentation(j) == j.(toks := Write(b, rest))
  {
    hide Write;
    var toks := Write(b, rest);
    if doc == [] {
      assert doc + toks == toks;
      StartsWithNoString(b, rest);
    } else {
      assert doc + toks == [doc[0]] + ([doc[1]] + toks);
      assert j.toks[1..] == [doc[1]] + toks && j.toks[1..][1..] == toks;
    }
  }

  lemma StartsWithNoString(b: Expr, rest: seq<Token>)
    requires !IsString(b)
    ensures !Peek(Write(b, rest)).STRING?
  {
    hide Inside;
  }

  /** So the body of a documented function, whatever it is, is not compiled from its first token on. */
  lemma DocumentationTakesAToken(doc: string, b: Expr, rest: seq<Token>, j: Job)
    requires j.toks == [STRING(doc)] + Write(b, rest) && WellFormed(b)
    ensures Write(b, rest) != [] && SkipDocumentation(j).toks == Write(b, rest)[1..]
    ensures SkipDocumentation(j).toks != Write(b, rest)
  {
    hide Inside;
    assert j.toks[1..] == Write(b, rest);
    assert |Write(b, rest)| == 1 + |Write(b, rest)[1..]|;
  }

  /** A new function with parameters `params` to which the tokens of its body follow. */
  function Entered(j: Job, params: seq<string>, toks: seq<Token>, g: Globals): Job {
    AddFunction(j, params).(toks := toks, globals := g)
  }

  lemma EnteredIsSound(j: Job, me: nat, params: seq<string>, toks: seq<Token>, g: Globals)
    requires Sound(j, me)
    requires g == j.globals || exists x :: x !in KEYWORDS && g == j.globals[x := Fun(|j.funs|)]
    ensures var k := Entered(j, params, toks, g);
      IsUser(j, me) && Sound(k, |j.funs|) && ScopeOf(k, |j.funs|) == Scope(g, params, |j.funs| + 1)
      && k.funs[..|j.funs|] == j.funs && |k.funs| == |j.funs| + 1
  {
  }

  /** The body of a function is compiled into the function. */
  lemma {:induction false} FunctionEmits(b: Expr, rest: seq<Token>, j: Job, me: nat, params: seq<string>, g: Globals)
    requires WellFormed(b) && Sound(j, me) && IsUser(j, me)
    requires g == j.globals || exists x :: x !in KEYWORDS && g == j.globals[x := Fun(|j.funs|)]
    ensures var f := |j.funs|;
      var r := CompileNext(Entered(j, params, Write(b, rest), g), Context(f, f)).job;
      var s := ResolveFunction(params, b, ScopeOf(j, me).(env := g), Skip);
      r.toks == rest && Emitted(j, r, me, Skip, s.after, s.made)
    decreases b, 4
  {
    hide CompileNext, Write, Resolve, Coded, Emitted, Sound;
    var f := |j.funs|;
    var k := Entered(j, params, Write(b, rest), g);
    EnteredIsSound(j, me, params, Write(b, rest), g);
    NextEmits(b, rest, k, f);
    var r := CompileNext(k, Context(f, f)).job;
    var s := Resolve(b, ScopeOf(k, f));
    FunctionEmitted(j, k, r, me, Defined(params, s.core), s.after, s.made);
  }

  lemma FunctionEmitted(j: Job, k: Job, r: Job, me: nat, def: Definition, after: Scope, made: seq<Definition>)
    requires Sound(j, me) && IsUser(j, me) && |k.funs| == |j.funs| + 1 && k.funs[..|j.funs|] == j.funs
    requires k.funs[|j.funs|] == User(after.params, [], [])
    requires def.Defined? && def.params == after.params && Emitted(k, r, |j.funs|, def.body, after, made)
    ensures Emitted(j, r, me, Skip, after.(params := j.funs[me].params), [def] + made)
  {
    hide Coded, FormsBound, Len, Marks;
    InnerGrows(j, k, r, me);
    UnfoldSkip(DoneBody(r.funs[me]), me, Size(j.funs[me]), |j.funs[me].labels|);
    assert Built(r.funs, |j.funs|, def);
    assert AllBuilt(r.funs, |j.funs|, [def]);
    BuiltJoins(r.funs, |j.funs|, [def], made);
  }

  lemma {:induction false} LambdaEmits(e: Expr, rest: seq<Token>, j: Job, me: nat)
    requires e.Lambda? && WellFormed(e) && Sound(j, me) && j.toks == Operands(e, rest)
    ensures Formed(j, CompileLambda(j, Context(me, me)), me, e, rest)
    decreases e, 0
  {
    hide CompileNext, Write, WriteParams, ParseParams, SkipDocumentation, Emitted, Sound;
    var toks := e.doc + Write(e.body, [RBRACE] + rest);
    TakeIsSound(j, me);
    ReadsParams(e.params, toks);
    SkipsDocumentation(e.doc, e.body, [RBRACE] + rest, Entered(j, Names(e.params), toks, j.globals));
    FunctionEmits(e.body, [RBRACE] + rest, j, me, Names(e.params), j.globals);
    assert ScopeOf(j, me).(env := j.globals) == ScopeOf(j, me);
  }

  lemma {:induction false} DefunEmits(e: Expr, rest: seq<Token>, j: Job, me: nat)
    requires e.Defun? && WellFormed(e) && Sound(j, me) && j.toks == Operands(e, rest)
    ensures Formed(j, CompileDefun(j, Context(me, me)), me, e, rest)
    decreases e, 0
  {
    hide CompileNext, Write, WriteParams, ParseParams, SkipDocumentation, Emitted, Sound, Emit;
    var close := [RBRACE] + rest;
    var f := |j.funs|;
    var toks := e.doc + Write(e.body, close);
    var g := j.globals[e.name := Fun(f)];
    TakeIsSound(j, me);
    assert Take(j).toks == WriteParams(e.params, toks);
    ReadsParams(e.params, toks);
    var k := Entered(j, Names(e.params), Write(e.body, close), g);
    SkipsDocumentation(e.doc, e.body, close, Entered(j, Names(e.params), toks, j.globals));
    FunctionEmits(e.body, close, j, me, Names(e.params), g);
    var r := CompileNext(k, Context(f, f)).job;
    var s := ResolveFunction(Names(e.params), e.body, ScopeOf(j, me).(env := g), Skip);
    AfterSkip(j, r, me, s.after, s.made, Sym(e.name));
    SameEmit(r, me, f, PUSH(Some(Sym(e.name))));
    ResolveDefun(e, ScopeOf(j, me));
  }

  lemma ResolveDefun(e: Expr, sc: Scope)
    requires e.Defun?
    ensures Resolve(e, sc) ==
      ResolveFunction(Names(e.params), e.body, sc.(env := sc.env[e.name := Fun(sc.next)]),
        Skip).(core := Const(Sym(e.name)))
  {
  }

  lemma SameEmit(j: Job, me: nat, comp: nat, i: Instr)
    ensures Emit(j, Context(me, comp), i) == Emit(j, Context(me, me), i)
  {
  }

  lemma AfterSkip(j: Job, k: Job, me: nat, after: Scope, made: seq<Definition>, v: Value)
    requires Sound(j, me) && Emitted(j, k, me, Skip, after, made)
    ensures Emitted(j, Emit(k, Context(me, me), PUSH(Some(v))), me, Const(v), after, made)
  {
    hide Coded, Len, Marks, BodyGrows, FormsBound, AllBuilt, Tidy;
    var m := Emit(k, Context(me, me), PUSH(Some(v)));
    GrowsKeeps(j, k, me);
    EmitsConst(k, me, v);
    UnfoldSkip(DoneBody(k.funs[me]), me, Size(j.funs[me]), |j.funs[me].labels|);
    GrowsOn(j, k, m, me, 0);
    GrowsKeeps(k, m, me);
    BuiltStays(k.funs, m.funs, |j.funs|, made);
  }

  // ----- calls and their arguments -----

  /** The loop after one more argument. */
  function OneMore(st: Loop): Loop {
    st.(argc := st.argc + 1, felem := false)
  }

  /** One argument of a call: the loop over the list goes on with one more argument on the stack. */
  lemma {:induction false} ArgEmits(e: Expr, rest: seq<Token>, j: Job, me: nat, st: Loop) returns (k: Job)
    requires !st.felem && WellFormed(e) && Sound(j, me) && IsUser(j, me) && j.toks == Write(e, rest)
    ensures var s := ResolveArg(e, ScopeOf(j, me));
      CompileList(j, Context(me, me), st) == CompileList(k, Context(me, me), st.(argc := st.argc + 1))
      && k.toks == rest && Emitted(j, k, me, s.core, s.after, s.made)
    decreases e, 4
  {
    hide Emitted, Sound, CompileList;
    var j1 := Take(j);
    TakeIsSound(j, me);
    assert OneMore(st) == st.(argc := st.argc + 1);
    match e
    case Self(d) => k := SelfArgEmits(d, rest, j, me, st);
    case Quoted(d) => k := QuotedEmits(d, rest, j, me, st);
    case Name(x) => k := NameArgEmits(x, rest, j, me, st);
    case _ =>
      assert j1.toks == Inside(e, rest);
      k := SublistEmits(e, rest, j1, me, st);
      IsSublist(j, Context(me, me), st, Inside(e, rest));
      var s := ResolveArg(e, ScopeOf(j, me));
      EmittedFrom(j, j1, k, me, s.core, s.after, s.made);
  }

  lemma IsSublist(j: Job, cx: Context, st: Loop, toks: seq<Token>)
    requires j.toks == [LBRACE] + toks
    ensures CompileList(j, cx, st) == CompileSublist(Take(j), cx, st, false)
  {
    hide CompileSublist;
  }

  lemma SelfArgEmits(d: Datum, rest: seq<Token>, j: Job, me: nat, st: Loop) returns (k: Job)
    requires WellFormed(Self(d)) && Sound(j, me) && IsUser(j, me) && j.toks == Spell(d) + rest
    ensures CompileList(j, Context(me, me), st) == CompileList(k, Context(me, me), OneMore(st))
    ensures k.toks == rest && Emitted(j, k, me, Const(Denotes(d)), ScopeOf(j, me), [])
  {
    hide Emitted, Sound, EmitParsed, ParseToken, CompileList;
    SelfIsRead(d, rest, j, Context(me, me), st);
    hide Spell, WellFormed;
    var j1 := Take(j);
    TakeIsSound(j, me);
    assert j1.toks == Spell(d)[1..] + rest;
    ReadsDatum(d, rest);
    EmitsRead(j1, me, Denotes(d), rest);
    k := EmitParsed(j1, Context(me, me), Parsed(Some(Denotes(d)), rest, false));
    EmittedFrom(j, j1, k, me, Const(Denotes(d)), ScopeOf(j, me), []);
  }

  lemma SelfIsRead(d: Datum, rest: seq<Token>, j: Job, cx: Context, st: Loop)
    requires WellFormed(Self(d)) && j.toks == Spell(d) + rest
    ensures var v := ParseToken(Spell(d)[0], Spell(d)[1..] + rest);
      CompileList(j, cx, st) == CompileList(EmitParsed(Take(j), cx, v), cx, OneMore(st))
  {
    hide EmitParsed, ParseToken, CompileList;
    assert Take(j).toks == Spell(d)[1..] + rest;
    OneIsRead(j, cx, st, false);
  }

  /** Whatever is no atom, no list to compile and no end is read as data and pushed. */
  lemma OneIsRead(j: Job, cx: Context, st: Loop, quoted: bool)
    requires quoted <==> Peek(j.toks) == QUOTE
    requires var tok := Peek((if quoted then Take(j) else j).toks);
      !tok.ATOM? && tok != RBRACE && tok != EOF && (tok == LBRACE ==> quoted)
    ensures var k := if quoted then Take(j) else j;
      var v := ParseToken(Peek(k.toks), Take(k).toks);
      CompileList(j, cx, st) == CompileList(EmitParsed(Take(k), cx, v), cx, OneMore(st))
  {
    hide EmitParsed, ParseToken, Take, CompileAtom, CloseList, Emit, CompileForm;
  }

  lemma NameArgEmits(x: string, rest: seq<Token>, j: Job, me: nat, st: Loop) returns (k: Job)
    requires !st.felem && Sound(j, me) && IsUser(j, me) && j.toks == [ATOM(x)] + rest
    ensures CompileList(j, Context(me, me), st) == CompileList(k, Context(me, me), st.(argc := st.argc + 1))
    ensures k.toks == rest && Emitted(j, k, me, ResolveName(x, j.funs[me].params), ScopeOf(j, me), [])
  {
    hide Emitted, Sound, EmitLoad, CompileAtom;
    var j1 := Take(j);
    TakeIsSound(j, me);
    assert j1.toks == rest;
    k := EmitLoad(j1, Context(me, me), x);
    EmitsName(j1, me, x);
    EmittedFrom(j, j1, k, me, ResolveName(x, j.funs[me].params), ScopeOf(j, me), []);
    AtomIsLoaded(j1, Context(me, me), st, x);
  }

  lemma AtomIsLoaded(j: Job, cx: Context, st: Loop, x: string)
    requires !st.felem
    ensures CompileAtom(j, cx, st, false, x) == CompileList(EmitLoad(j, cx, x), cx, st.(argc := st.argc + 1))
    ensures CompileAtom(j, cx, st, true, x) ==
      CompileList(Emit(j, cx, PUSH(Some(Sym(x)))), cx, st.(argc := st.argc + 1))
  {
  }

  lemma QuotedEmits(d: Datum, rest: seq<Token>, j: Job, me: nat, st: Loop) returns (k: Job)
    requires (st.felem ==> !d.DAtom?) && Sound(j, me) && IsUser(j, me) && j.toks == [QUOTE] + (Spell(d) + rest)
    ensures CompileList(j, Context(me, me), st) == CompileList(k, Context(me, me), OneMore(st))
    ensures k.toks == rest && Emitted(j, k, me, Const(Denotes(d)), ScopeOf(j, me), [])
  {
    hide Emitted, Sound, EmitParsed, ParseToken, Emit, CompileList, CompileAtom, Spell;
    var cx := Context(me, me);
    var j1 := Take(j);
    TakeIsSound(j, me);
    assert j1.toks == Spell(d) + rest;
    var j2 := Take(j1);
    TakeIsSound(j1, me);
    assert j2.toks == Spell(d)[1..] + rest;
    if d.DAtom? {
      k := Emit(j2, cx, PUSH(Some(Sym(d.name))));
      AtomIsQuoted(j, me, d.name, rest, st);
      assert OneMore(st) == st.(argc := st.argc + 1);
      EmitsConst(j2, me, Sym(d.name));
    } else {
      ReadsDatum(d, rest);
      EmitsRead(j2, me, Denotes(d), rest);
      k := EmitParsed(j2, cx, Parsed(Some(Denotes(d)), rest, false));
      DatumIsQuoted(d, rest, j, cx, st);
    }
    EmittedFrom(j, j2, k, me, Const(Denotes(d)), ScopeOf(j, me), []);
  }

  lemma AtomIsQuoted(j: Job, me: nat, x: string, rest: seq<Token>, st: Loop)
    requires !st.felem && j.toks == [QUOTE] + (Spell(DAtom(x)) + rest)
    ensures var j2 := Take(Take(j));
      j2.toks == rest && CompileList(j, Context(me, me), st) ==
        CompileList(Emit(j2, Context(me, me), PUSH(Some(Sym(x)))), Context(me, me), st.(argc := st.argc + 1))
  {
    hide Emit, CompileAtom;
    assert Take(j).toks == [ATOM(x)] + rest;
    AtomIsLoaded(Take(Take(j)), Context(me, me), st, x);
  }

  lemma DatumIsQuoted(d: Datum, rest: seq<Token>, j: Job, cx: Context, st: Loop)
    requires !d.DAtom? && j.toks == [QUOTE] + (Spell(d) + rest)
    ensures var v := ParseToken(Spell(d)[0], Spell(d)[1..] + rest);
      CompileList(j, cx, st) == CompileList(EmitParsed(Take(Take(j)), cx, v), cx, OneMore(st))
  {
    hide EmitParsed, ParseToken, CompileList, Spell;
    StartsDatum(d);
    assert Take(j).toks == Spell(d) + rest;
    assert Take(Take(j)).toks == Spell(d)[1..] + rest;
    OneIsRead(j, cx, st, true);
  }

  lemma StartsDatum(d: Datum)
    requires !d.DAtom?
    ensures Spell(d) != [] && !Spell(d)[0].ATOM? && Spell(d)[0] != RBRACE && Spell(d)[0] != EOF
  {
  }

  /** A list as an argument; the function it may have made is pushed. */
  lemma {:induction false} SublistEmits(e: Expr, rest: seq<Token>, j: Job, me: nat, st: Loop) returns (k: Job)
    requires IsList(e) && !st.felem && WellFormed(e) && Sound(j, me) && IsUser(j, me) && j.toks == Inside(e, rest)
    ensures var s := ResolveArg(e, ScopeOf(j, me));
      CompileSublist(j, Context(me, me), st, false) == CompileList(k, Context(me, me), st.(argc := st.argc + 1))
      && k.toks == rest && Emitted(j, k, me, s.core, s.after, s.made)
    decreases e, 3
  {
    hide Emitted, Sound, Emit, Resolve, Inside, CompileList;
    var cx := Context(me, me);
    ListEmits(e, rest, j, me);
    var c := CompileList(j, cx, START);
    var st2 := st.(argc := st.argc + 1);
    assert st2.(felem := false) == st2;
    k := c.job;
    if c.fn.Some? {
      var s := Resolve(e, ScopeOf(j, me));
      k := Emit(c.job, cx, PUSH(Some(Fun(c.fn.value))));
      EmitsAfter(j, c.job, me, s.core, s.after, s.made, Fun(c.fn.value));
    }
  }

  lemma {:induction false} ArgsEmit(es: Exprs, rest: seq<Token>, j: Job, me: nat, st: Loop) returns (m: Job)
    requires !st.felem && AllWellFormed(es) && Sound(j, me) && IsUser(j, me) && j.toks == WriteAll(es, rest)
    ensures var s := ResolveAll(es, ScopeOf(j, me));
      CompileList(j, Context(me, me), st) == CompileList(m, Context(me, me), st.(argc := st.argc + Count(s.cores)))
      && m.toks == rest && EmittedAll(j, m, me, s.cores, s.after, s.made)
    decreases es, 3
  {
    hide CompileList, Emitted, EmittedAll, ResolveArg, Write, Sound;
    match es
    case NoMore =>
      m := j;
      NoneEmitted(j, me);
      assert st.(argc := st.argc + 0) == st;
    case More(e, es2) =>
      var k := ArgEmits(e, WriteAll(es2, rest), j, me, st);
      var s := ResolveArg(e, ScopeOf(j, me));
      IsSound(j, k, me, s.core, s.after, s.made);
      var st2 := st.(argc := st.argc + 1);
      m := ArgsEmit(es2, rest, k, me, st2);
      var t := ResolveAll(es2, s.after);
      JoinsAll(j, k, m, me, s.core, t.cores, s.after, t.after, s.made, t.made);
      assert st2.(argc := st2.argc + Count(t.cores)) == st.(argc := st.argc + Count(Cons(s.core, t.cores)));
  }

  lemma IsSound(j: Job, k: Job, me: nat, core: Core, after: Scope, made: seq<Definition>)
    requires Emitted(j, k, me, core, after, made)
    ensures IsUser(k, me) && Sound(k, me) && ScopeOf(k, me) == after
  {
    hide Coded;
  }

  lemma NoneEmitted(j: Job, me: nat)
    requires Sound(j, me)
    ensures IsUser(j, me) && EmittedAll(j, j, me, End, ScopeOf(j, me), [])
  {
    Unmoved(j, j, me);
  }

  lemma JoinsAll(j: Job, k: Job, m: Job, me: nat, x: Core, es: Cores, s1: Scope, s2: Scope,
                 made1: seq<Definition>, made2: seq<Definition>)
    requires Emitted(j, k, me, x, s1, made1) && EmittedAll(k, m, me, es, s2, made2)
    ensures EmittedAll(j, m, me, Cons(x, es), s2, made1 + made2)
  {
    hide Coded, CodedAll, Len, Marks, LenAll, MarksAll, BodyGrows, FormsBound, Tidy;
    GrowsKeeps(j, k, me);
    GrowsKeeps(k, m, me);
    var at, l := Size(j.funs[me]), |j.funs[me].labels|;
    UnfoldCons(DoneBody(m.funs[me]), me, Cons(x, es), at, l);
    KeepsCoded(k.funs[me], m.funs[me], 0, me, x, at, l);
    GrowsOn(j, k, m, me, 0);
    MadeJoins(j, k, m, me, made1, made2);
  }

  /** An instruction after the arguments. */
  lemma CallAfter(j: Job, k: Job, me: nat, es: Cores, after: Scope, made: seq<Definition>, i: Instr, core: Core)
    requires EmittedAll(j, k, me, es, after, made) && !i.JMP? && !i.JN?
    requires (core.App? && core.args == es && i == CALL(core.name, core.fn, Count(es)))
          || (core == NoApp(es) && i == PUSH(Some(Nil)))
    ensures Emitted(j, Emit(k, Context(me, me), i), me, core, after, made)
  {
    hide CodedAll, LenAll, MarksAll, BodyGrows, FormsBound, AllBuilt, Tidy;
    var m := Emit(k, Context(me, me), i);
    GrowsKeeps(j, k, me);
    StaysOpen(j, k, me);
    EmitGrows(k, me, me, i);
    GrowsOn(j, k, m, me, 0);
    FormsStay(k, m, me, 0);
    BuiltStays(k.funs, m.funs, |j.funs|, made);
    GrowsKeeps(k, m, me);
    StaysOpen(k, m, me);
    KeepsCodedAll(k.funs[me], m.funs[me], 0, me, es, Size(j.funs[me]), |j.funs[me].labels|);
  }

  lemma {:induction false} InvokeEmits(e: Expr, rest: seq<Token>, j: Job, me: nat)
    requires e.Invoke? && WellFormed(e) && Sound(j, me) && j.toks == Inside(e, rest)
    ensures Listed(j, CompileList(j, Context(me, me), START), me, e, rest)
    decreases e, 1
  {
    hide Emitted, EmittedAll, Emit, Sound, WriteAll;
    var cx := Context(me, me);
    var k := Take(j);
    TakeIsSound(j, me);
    var close := [RBRACE] + rest;
    assert k.toks == WriteAll(e.args, close);
    HeadIsNoForm(k, me, e.head);
    var (pf, fun) := PrefetchFunction(k, e.head);
    var st := START.(pf := pf, fun := fun, sym := if pf == NotFn then None else Some(e.head), felem := false);
    var m := ArgsEmit(e.args, close, k, me, st);
    var s := ResolveAll(e.args, ScopeOf(j, me));
    var st2 := st.(argc := Count(s.cores));
    ClosesCall(m, me, st2, rest);
    assert CompileList(j, cx, START) == CompileList(k, cx, st) == CompileList(m, cx, st2);
    var core := ResolveHead(e.head, j.globals, s.cores);
    var i := if pf == NotFn then PUSH(Some(Nil)) else CALL(e.head, fun, Count(s.cores));
    AllFrom(j, k, m, Take(m), me, s.cores, s.after, s.made);
    CallAfter(j, Take(m), me, s.cores, s.after, s.made, i, core);
  }

  lemma HeadIsNoForm(j: Job, me: nat, x: string)
    requires Sound(j, me) && x !in KEYWORDS
    ensures PrefetchFunction(j, x).0 != SForm
  {
  }

  lemma ClosesCall(m: Job, me: nat, st: Loop, rest: seq<Token>)
    requires m.toks == [RBRACE] + rest && st.pf != SForm && (st.sym.Some? || st.fun.None?)
    ensures var i := if st.sym.Some? then CALL(st.sym.value, st.fun, st.argc) else PUSH(Some(Nil));
      CompileList(m, Context(me, me), st) == Compiled(Emit(Take(m), Context(me, me), i), None) && Take(m).toks == rest
  {
    hide Emit;
    assert m.toks[1..] == rest;
  }

  lemma AllFrom(j: Job, j2: Job, k: Job, k2: Job, me: nat, es: Cores, after: Scope, made: seq<Definition>)
    requires EmittedAll(j2, k, me, es, after, made) && j2.funs == j.funs && j2.globals == j.globals
    requires k2.funs == k.funs && k2.globals == k.globals && k2.fault == k.fault
    ensures EmittedAll(j, k2, me, es, after, made)
  {
    hide CodedAll;
  }

  // ----- lists whose head is no name -----

  /** The head of such a list; a function that it makes is kept for the closing brace. */
  lemma {:induction false} HeadEmits(h: Expr, rest: seq<Token>, j: Job, me: nat) returns (k: Job)
    requires !h.Name? && (h.Quoted? ==> !h.datum.DAtom?) && WellFormed(h)
    requires Sound(j, me) && IsUser(j, me) && j.toks == Write(h, rest)
    ensures var sc := ScopeOf(j, me);
      var s := Resolve(h, sc);
      CompileList(j, Context(me, me), START) == CompileList(k, Context(me, me), OneMore(START).(fun := Made(h, sc)))
      && k.toks == rest && Emitted(j, k, me, s.core, s.after, s.made)
    decreases h, 4
  {
    hide Emitted, Sound, CompileList;
    if h.Self? {
      k := SelfArgEmits(h.datum, rest, j, me, START);
    } else if h.Quoted? {
      k := QuotedEmits(h.datum, rest, j, me, START);
    } else {
      k := ListHeadEmits(h, rest, j, me);
    }
  }

  lemma {:induction false} ListHeadEmits(h: Expr, rest: seq<Token>, j: Job, me: nat) returns (k: Job)
    requires IsList(h) && WellFormed(h) && Sound(j, me) && IsUser(j, me) && j.toks == Write(h, rest)
    ensures var sc := ScopeOf(j, me);
      var s := Resolve(h, sc);
      CompileList(j, Context(me, me), START) == CompileList(k, Context(me, me), OneMore(START).(fun := Made(h, sc)))
      && k.toks == rest && Emitted(j, k, me, s.core, s.after, s.made)
    decreases h, 3
  {
    hide Emitted, Sound, CompileList, Resolve, Inside, WellFormed;
    TakeIsSound(j, me);
    var j1, cx := Take(j), Context(me, me);
    WrittenList(h, rest);
    assert j1.toks == Inside(h, rest);
    ListEmits(h, rest, j1, me);
    IsSublist(j, cx, START, Inside(h, rest));
    var c := CompileList(j1, cx, START);
    k := c.job;
    HeadIsKept(j1, cx, c);
    var s := Resolve(h, ScopeOf(j, me));
    EmittedFrom(j, j1, k, me, s.core, s.after, s.made);
  }

  lemma WrittenList(e: Expr, rest: seq<Token>)
    requires IsList(e)
    ensures Write(e, rest) == [LBRACE] + Inside(e, rest) && Write(e, rest)[1..] == Inside(e, rest)
  {
    hide Inside;
  }

  lemma HeadIsKept(j: Job, cx: Context, c: Compiled)
    requires c == CompileList(j, cx, START)
    ensures CompileSublist(j, cx, START, false) == CompileList(c.job, cx, OneMore(START).(fun := c.fn))
  {
    hide CompileList, Emit;
  }

  lemma {:induction false} RowCoded(b: Body, me: nat, es: Cores, at: nat, l: nat)
    requires CodedAll(b, me, es, at, l)
    ensures Coded(b, me, Row(es), at, l)
    decreases es
  {
    hide Coded, Len, Marks;
    match es
    case End => UnfoldSkip(b, me, at, l);
    case Cons(e, rest) =>
      UnfoldCons(b, me, es, at, l);
      RowCoded(b, me, rest, at + Len(e), l + Marks(e));
      UnfoldThen(b, me, Row(es), at, l);
  }

  lemma {:induction false} RowSize(es: Cores)
    ensures Len(Row(es)) == LenAll(es) && Marks(Row(es)) == MarksAll(es)
  {
    match es
    case End =>
    case Cons(_, rest) => RowSize(rest);
  }

  lemma RowEmitted(j: Job, k: Job, me: nat, es: Cores, after: Scope, made: seq<Definition>)
    requires EmittedAll(j, k, me, es, after, made)
    ensures Emitted(j, k, me, Row(es), after, made)
  {
    hide Coded, CodedAll, Len, Marks, LenAll, MarksAll, Row;
    RowCoded(DoneBody(k.funs[me]), me, es, Size(j.funs[me]), |j.funs[me].labels|);
    RowSize(es);
  }

  /** At the closing brace there is no call: the function stays, or nil is pushed. */
  lemma ClosesApplied(m: Job, me: nat, st: Loop, rest: seq<Token>)
    requires m.toks == [RBRACE] + rest && st.pf == NotFound && st.sym.None?
    ensures CompileList(m, Context(me, me), st) ==
      (if st.fun.Some? then Compiled(Take(m), st.fun)
       else Compiled(Emit(Take(m), Context(me, me), PUSH(Some(Nil))), None))
    ensures Take(m).toks == rest
  {
    hide Emit;
    assert m.toks[1..] == rest;
  }

  lemma ResolveOfApplied(e: Expr, sc: Scope)
    requires e.Applied?
    ensures var s := Resolve(e.inner, sc);
      var t := ResolveAll(e.args, s.after);
      Resolve(e, sc) == Resolved(ResolveApplied(e.inner, s.core, t.cores), t.after, s.made + t.made)
    ensures Made(e, sc) == Made(e.inner, sc)
  {
  }

  lemma {:induction false} AppliedEmits(e: Expr, rest: seq<Token>, j: Job, me: nat)
    requires e.Applied? && WellFormed(e) && Sound(j, me) && j.toks == Inside(e, rest)
    ensures Listed(j, CompileList(j, Context(me, me), START), me, e, rest)
    decreases e, 1
  {
    hide Emitted, EmittedAll, Emit, Sound, WriteAll, Write, CompileList, Resolve, ResolveAll, Row, ResolveApplied;
    var cx, close := Context(me, me), [RBRACE] + rest;
    TakeIsSound(j, me);
    var sc := ScopeOf(j, me);
    ResolveOfApplied(e, sc);
    var k := HeadEmits(e.inner, WriteAll(e.args, close), j, me);
    var s := Resolve(e.inner, sc);
    IsSound(j, k, me, s.core, s.after, s.made);
    var st := OneMore(START).(fun := Made(e.inner, sc));
    var m := ArgsEmit(e.args, close, k, me, st);
    var t := ResolveAll(e.args, s.after);
    var st2 := st.(argc := st.argc + Count(t.cores));
    ClosesApplied(m, me, st2, rest);
    AppliedEmitted(e, j, k, m, me, s, t);
  }

  /** The code of head and arguments is that of the list. */
  lemma {:induction false} AppliedEmitted(e: Expr, j: Job, k: Job, m: Job, me: nat, s: Resolved, t: ResolvedAll)
    requires e.Applied? && Sound(j, me) && IsUser(j, me)
    requires Emitted(j, k, me, s.core, s.after, s.made) && EmittedAll(k, m, me, t.cores, t.after, t.made)
    ensures var core := ResolveApplied(e.inner, s.core, t.cores);
      var r := if MakesFunction(e.inner) then Take(m) else Emit(Take(m), Context(me, me), PUSH(Some(Nil)));
      Emitted(j, r, me, core, t.after, s.made + t.made)
  {
    hide Emitted, EmittedAll, Sound, Emit, Row;
    if MakesFunction(e.inner) {
      RowEmitted(k, m, me, t.cores, t.after, t.made);
      Joins(j, k, m, me, s.core, Row(t.cores), s.after, t.after, s.made, t.made);
      EmittedTo(j, m, Take(m), me, Then(s.core, Row(t.cores)), t.after, s.made + t.made);
    } else {
      var es := Cons(s.core, t.cores);
      JoinsAll(j, k, m, me, s.core, t.cores, s.after, t.after, s.made, t.made);
      AllFrom(j, j, m, Take(m), me, es, t.after, s.made + t.made);
      CallAfter(j, Take(m), me, es, t.after, s.made + t.made, PUSH(Some(Nil)), NoApp(es));
    }
  }
}
