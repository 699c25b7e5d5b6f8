/** The one-pass compiler: no syntax tree, special forms read the tokens and emit code with labels. */
module Compiler {
  import opened Options
  import opened Bytecode
  import opened Reader

  /** What a compilation reads and writes. `fault` records that a NULL was dereferenced or a loop never ended. */
  datatype Job = Job(toks: seq<Token>, globals: Globals, funs: Table, fault: bool)

  /** Code goes to function `ir`, labels and parameters belong to function `comp`. Special forms get a copy. */
  datatype Context = Context(ir: nat, comp: nat)

  datatype Compiled = Compiled(job: Job, fn: Option<nat>)

  datatype Next = Next(job: Job, fn: Option<nat>, tok: Token)

  datatype Prefetch = NotFound | Normal | SForm | NotFn

  /** The variables of the loop over an unquoted list. */
  datatype Loop = Loop(pf: Prefetch, argc: nat, felem: bool, fun: Option<nat>, sym: Option<string>)

  const START := Loop(NotFound, 0, true, None, None)

  function Fault(j: Job): Job {
    j.(toks := [], fault := true)
  }

  function Take(j: Job): (r: Job)
    ensures |r.toks| <= |j.toks|
  {
    j.(toks := Advance(j.toks))
  }

  predicate IsUser(j: Job, f: nat) {
    f < |j.funs| && j.funs[f].User?
  }

  function WithCode(j: Job, f: nat, code: seq<Instr>): Job
    requires IsUser(j, f)
  {
    j.(funs := j.funs[f := j.funs[f].(code := code)])
  }

  function WithLabels(j: Job, f: nat, labels: seq<Label>): Job
    requires IsUser(j, f)
  {
    j.(funs := j.funs[f := j.funs[f].(labels := labels)])
  }

  function Emit(j: Job, cx: Context, i: Instr): (r: Job)
    ensures r.toks == j.toks
  {
    if IsUser(j, cx.ir) then WithCode(j, cx.ir, Build(j.funs[cx.ir].code, i)) else j
  }

  /** The offset at which new labels start. */
  function LabelCount(j: Job, cx: Context): nat {
    if IsUser(j, cx.comp) then |j.funs[cx.comp].labels| else 0
  }

  function NewLabels(j: Job, cx: Context, n: nat): (r: Job)
    ensures r.toks == j.toks
  {
    if IsUser(j, cx.comp) then WithLabels(j, cx.comp, j.funs[cx.comp].labels + seq(n, _ => Unbound)) else j
  }

  /** Label `l` is bound to the waiting NOP, which is made if there is none. */
  function BindLabel(j: Job, cx: Context, l: nat): (r: Job)
    ensures r.toks == j.toks
  {
    if IsUser(j, cx.ir) && IsUser(j, cx.comp) && l < |j.funs[cx.comp].labels| then
      var code := CreateOrGet(j.funs[cx.ir].code);
      var k := WithCode(j, cx.ir, code);
      WithLabels(k, cx.comp, k.funs[cx.comp].labels[l := Bound(cx.ir, |code| - 1)])
    else j
  }

  /** A parameter of the function being compiled, or else a global. */
  function EmitLoad(j: Job, cx: Context, x: string): (r: Job)
    ensures r.toks == j.toks
  {
    if IsUser(j, cx.comp) then
      var i := ArgumentFinder(j.funs[cx.comp].params, x);
      Emit(j, cx, if i.Some? then LOAD(i.value) else GET(x))
    else j
  }

  /** A value that may have been read with a fault. */
  function EmitParsed(j: Job, cx: Context, v: Parsed): (r: Job)
    requires |v.rest| <= |j.toks|
    ensures |r.toks| <= |j.toks|
  {
    if v.fault then Fault(j) else Emit(j.(toks := v.rest), cx, PUSH(v.value))
  }

  function PrefetchFunction(j: Job, x: string): (Prefetch, Option<nat>) {
    if x !in j.globals then (NotFound, None)
    else
      var v := j.globals[x];
      if v.Fun? then
        if v.id < |j.funs| && j.funs[v.id].Special? then (SForm, Some(v.id)) else (Normal, Some(v.id))
      else (NotFn, None)
  }

  /** One operand. A bare atom is a symbol constant here. */
  function CompileNext(j: Job, cx: Context): (r: Next)
    ensures |r.job.toks| <= |j.toks|
    ensures r.tok != EOF ==> |r.job.toks| < |j.toks|
    decreases |j.toks|, 1
  {
    var tok := Peek(j.toks);
    var k := Take(j);
    match tok
    case LBRACE =>
      var c := CompileList(k, cx, START);
      Next(c.job, c.fn, LBRACE)
    case QUOTE =>
      var tok2 := Peek(k.toks);
      var k2 := Take(k);
      Next(EmitParsed(k2, cx, ParseToken(tok2, k2.toks)), None, tok2)
    case EOF => Next(k, None, EOF)
    case _ => Next(EmitParsed(k, cx, ParseToken(tok, k.toks)), None, tok)
  }

  /** The loop over the elements of an unquoted list, up to its closing brace. */
  function CompileList(j: Job, cx: Context, st: Loop): (r: Compiled)
    ensures |r.job.toks| <= |j.toks|
    decreases |j.toks|, 0
  {
    if Peek(j.toks) == EOF then Compiled(Take(j), None)
    else
      var quoted := Peek(j.toks) == QUOTE;
      var k := if quoted then Take(j) else j;
      var tok := Peek(k.toks);
      var k2 := Take(k);
      match tok
      case ATOM(x) => CompileAtom(k2, cx, st, quoted, x)
      case LBRACE => CompileSublist(k2, cx, st, quoted)
      case RBRACE => CloseList(k2, cx, st)
      case EOF => Compiled(Fault(k2), None)
      case _ =>
        CompileList(EmitParsed(k2, cx, ParseToken(tok, k2.toks)), cx, st.(argc := st.argc + 1, felem := false))
  }

  /** In first place an atom is a function or a special form, elsewhere an argument. */
  function CompileAtom(j: Job, cx: Context, st: Loop, quoted: bool, x: string): (r: Compiled)
    ensures |r.job.toks| <= |j.toks|
    decreases |j.toks|, 4
  {
    if st.felem then
      var (pf, fun) := PrefetchFunction(j, x);
      match pf
      case SForm =>
        var c := CompileForm(j.funs[fun.value].form, j, cx);
        CompileList(c.job, cx, st.(pf := pf, fun := c.fn, felem := false))
      case NotFn => CompileList(j, cx, st.(pf := pf, fun := fun, felem := false))
      case _ => CompileList(j, cx, st.(pf := pf, fun := fun, sym := Some(x), felem := false))
    else if quoted then CompileList(Emit(j, cx, PUSH(Some(Sym(x)))), cx, st.(argc := st.argc + 1))
    else CompileList(EmitLoad(j, cx, x), cx, st.(argc := st.argc + 1))
  }

  /** A list inside a list: data if it is quoted, otherwise compiled in turn; a function it makes is pushed. */
  function CompileSublist(j: Job, cx: Context, st: Loop, quoted: bool): (r: Compiled)
    ensures |r.job.toks| <= |j.toks|
    decreases |j.toks|, 4
  {
    var st2 := st.(argc := st.argc + 1, felem := false);
    if quoted then CompileList(EmitParsed(j, cx, ParseToken(LBRACE, j.toks)), cx, st2)
    else
      var c := CompileList(j, cx, START);
      if c.fn.None? then CompileList(c.job, cx, st2)
      else if st.felem then CompileList(c.job, cx, st2.(fun := c.fn))
      else CompileList(Emit(c.job, cx, PUSH(Some(Fun(c.fn.value)))), cx, st2)
  }

  /** At the closing brace it is time for the call, unless the list made a function or was a special form. */
  function CloseList(j: Job, cx: Context, st: Loop): (r: Compiled)
    ensures |r.job.toks| <= |j.toks|
  {
    if st.sym.Some? then Compiled(Emit(j, cx, CALL(st.sym.value, st.fun, st.argc)), None)
    else if st.fun.Some? then Compiled(j, st.fun)
    else if st.pf != SForm then Compiled(Emit(j, cx, PUSH(Some(Nil))), None)
    else Compiled(j, None)
  }

  function CompileForm(form: Form, j: Job, cx: Context): (r: Compiled)
    ensures |r.job.toks| <= |j.toks|
    decreases |j.toks|, 3
  {
    match form
    case SIf => CompileIf(j, cx)
    case SWhen => CompileWhen(j, cx)
    case SWhile => CompileWhile(j, cx)
    case SSet => CompileSet(j, cx)
    case SDefun => CompileDefun(j, cx)
    case SLambda => CompileLambda(j, cx)
  }

  function CompileWhen(j: Job, cx: Context): (r: Compiled)
    ensures |r.job.toks| <= |j.toks|
    decreases |j.toks|, 2
  {
    var l := LabelCount(j, cx);
    var j1 := CompileNext(NewLabels(j, cx, 1), cx).job;
    var j2 := CompileNext(Emit(j1, cx, JN(LabelRef(cx.comp, l))), cx).job;
    Compiled(BindLabel(j2, cx, l), None)
  }

  function CompileIf(j: Job, cx: Context): (r: Compiled)
    ensures |r.job.toks| <= |j.toks|
    decreases |j.toks|, 2
  {
    var l := LabelCount(j, cx);
    var j1 := CompileNext(NewLabels(j, cx, 2), cx).job;
    var j2 := CompileNext(Emit(j1, cx, JN(LabelRef(cx.comp, l + 1))), cx).job;
    var j3 := BindLabel(Emit(j2, cx, JMP(LabelRef(cx.comp, l))), cx, l + 1);
    var j4 := CompileNext(j3, cx).job;
    Compiled(BindLabel(j4, cx, l), None)
  }

  function CompileWhile(j: Job, cx: Context): (r: Compiled)
    ensures |r.job.toks| <= |j.toks|
    decreases |j.toks|, 2
  {
    var l := LabelCount(j, cx);
    var j1 := CompileNext(BindLabel(NewLabels(j, cx, 2), cx, l), cx).job;
    var j2 := CompileNext(Emit(j1, cx, JN(LabelRef(cx.comp, l + 1))), cx).job;
    Compiled(BindLabel(Emit(j2, cx, JMP(LabelRef(cx.comp, l))), cx, l + 1), None)
  }

  function CompileSet(j: Job, cx: Context): (r: Compiled)
    ensures |r.job.toks| <= |j.toks|
    decreases |j.toks|, 2
  {
    var tok := Peek(j.toks);
    if !tok.ATOM? then Compiled(Take(j), None)
    else
      var n := CompileNext(Take(j), cx);
      var j1 := if n.fn.Some? then Emit(n.job, cx, PUSH(Some(Fun(n.fn.value)))) else n.job;
      Compiled(Emit(j1, cx, SET(tok.name)), None)
  }

  datatype Parameters = Parameters(names: seq<string>, rest: seq<Token>, fault: bool)

  function ParseParams(toks: seq<Token>): (r: Parameters)
    ensures |r.rest| <= |toks|
  {
    if Peek(toks) != LBRACE then Parameters([], Advance(toks), false) else ParseNames(Advance(toks))
  }

  /** Up to the closing brace; without one the loop never ends. */
  function ParseNames(toks: seq<Token>): (r: Parameters)
    ensures |r.rest| <= |toks|
  {
    if toks == [] then Parameters([], [], true)
    else if toks[0] == RBRACE then Parameters([], toks[1..], false)
    else
      var r := ParseNames(toks[1..]);
      if toks[0].ATOM? then r.(names := [toks[0].name] + r.names) else r
  }

  /** A string after the parameters is taken for documentation, and the token after it is lost. */
  function SkipDocumentation(j: Job): (r: Job)
    ensures |r.toks| <= |j.toks|
  {
    if Peek(j.toks).STRING? then Take(Take(j)) else j
  }

  /** A new user function with these parameters and no code. */
  function AddFunction(j: Job, params: seq<string>): (r: Job)
    ensures r.toks == j.toks
  {
    j.(funs := j.funs + [User(params, [], [])])
  }

  /** The global is bound before the body is compiled, so that the function can call itself. */
  function CompileDefun(j: Job, cx: Context): (r: Compiled)
    ensures |r.job.toks| <= |j.toks|
    decreases |j.toks|, 2
  {
    var f := |j.funs|;
    var tok := Peek(j.toks);
    if !tok.ATOM? then Compiled(AddFunction(Take(j), []), None)
    else
      var ps := ParseParams(Take(j).toks);
      if ps.fault then Compiled(Fault(AddFunction(j, [])), None)
      else
        var j1 := SkipDocumentation(AddFunction(j.(toks := ps.rest), ps.names));
        var j2 := j1.(globals := j1.globals[tok.name := Fun(f)]);
        var j3 := CompileNext(j2, Context(f, f)).job;
        Compiled(Emit(j3, Context(cx.ir, f), PUSH(Some(Sym(tok.name)))), Some(f))
  }

  function CompileLambda(j: Job, cx: Context): (r: Compiled)
    ensures |r.job.toks| <= |j.toks|
    decreases |j.toks|, 2
  {
    var f := |j.funs|;
    var ps := ParseParams(j.toks);
    if ps.fault then Compiled(Fault(AddFunction(j, [])), None)
    else
      var j1 := SkipDocumentation(AddFunction(j.(toks := ps.rest), ps.names));
      Compiled(CompileNext(j1, Context(f, f)).job, Some(f))
  }

  /** Operand after operand, until the end of the input. */
  function CompileAll(j: Job, cx: Context): (r: Job)
    decreases |j.toks|
  {
    var n := CompileNext(j, cx);
    if n.tok == EOF then n.job else CompileAll(n.job, cx)
  }

  /** The final NOP goes; anything else would be put back. */
  function DropLastNop(code: seq<Instr>): seq<Instr> {
    if code != [] && code[|code| - 1] == NOP then code[..|code| - 1] else code
  }

  /** Compiles a program; its main function is the one after those that are there already. */
  function Compile(toks: seq<Token>, globals: Globals, funs: Table): Job {
    var m := |funs|;
    var j := CompileAll(AddFunction(Job(toks, globals, funs, false), []), Context(m, m));
    if IsUser(j, m) then WithCode(j, m, DropLastNop(j.funs[m].code)) else j
  }
}
