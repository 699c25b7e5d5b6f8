/** The source language: its expressions, how they are written as tokens, and what their names refer to. */
module Grammar {
  import opened Options
  import opened Bytecode
  import opened Reader
  import opened Meaning

  datatype Params = NoParams | Listed(names: seq<string>)

  datatype Expr =
    | Self(datum: Datum)
    | Quoted(datum: Datum)
    | Name(name: string)
    | Nothing
    | Invoke(head: string, args: Exprs)
    | If(cond: Expr, yes: Expr, no: Expr)
    | When(cond: Expr, body: Expr)
    | While(cond: Expr, body: Expr)
    | Set(name: string, arg: Expr)
    | Lambda(keyword: string, params: Params, doc: seq<Token>, body: Expr)
    | Defun(name: string, params: Params, doc: seq<Token>, body: Expr)
    | Applied(inner: Expr, args: Exprs)   // a list whose first element is no bare name

  datatype Exprs = NoMore | More(first: Expr, rest: Exprs)

  const KEYWORDS: map<string, Form> :=
    map["if" := SIf, "lambda" := SLambda, "->" := SLambda, "when" := SWhen, "while" := SWhile,
        "defun!" := SDefun, "set!" := SSet]

  /**
   * What the grammar asks for: plain data evaluate to themselves, keywords are not redefined or called, a list does not
   * start with a quoted name, and no function body is a string where it would be taken for documentation.
   */
  predicate WellFormed(e: Expr) {
    match e
    case Self(d) => d.DNum? || d.DStr? || d.DNil? || d.DTrue?
    case Quoted(_) => true
    case Name(_) => true
    case Nothing => true
    case Invoke(f, es) => f !in KEYWORDS && AllWellFormed(es)
    case If(c, a, b) => WellFormed(c) && WellFormed(a) && WellFormed(b)
    case When(c, b) => WellFormed(c) && WellFormed(b)
    case While(c, b) => WellFormed(c) && WellFormed(b)
    case Set(_, a) => WellFormed(a)
    case Lambda(k, _, doc, b) => (k == "lambda" || k == "->") && WellFormed(b) && IsDoc(doc, b)
    case Defun(f, _, doc, b) => f !in KEYWORDS && WellFormed(b) && IsDoc(doc, b)
    case Applied(h, es) => !h.Name? && (h.Quoted? ==> !h.datum.DAtom?) && WellFormed(h) && AllWellFormed(es)
  }

  predicate AllWellFormed(es: Exprs) {
    match es
    case NoMore => true
    case More(e, rest) => WellFormed(e) && AllWellFormed(rest)
  }

  /** No documentation; or a string, and the one token after it that is lost with it. */
  predicate IsDoc(doc: seq<Token>, b: Expr) {
    if doc == [] then !IsString(b) else |doc| == 2 && doc[0].STRING?
  }

  predicate IsString(e: Expr) {
    e.Self? && e.datum.DStr?
  }

  predicate IsList(e: Expr) {
    !e.Self? && !e.Quoted? && !e.Name?
  }

  /** The tokens of `e`, and then `rest`. */
  function Write(e: Expr, rest: seq<Token>): seq<Token>
    decreases e, 1
  {
    match e
    case Self(d) => Spell(d) + rest
    case Quoted(d) => [QUOTE] + (Spell(d) + rest)
    case Name(x) => [ATOM(x)] + rest
    case _ => [LBRACE] + Inside(e, rest)
  }

  /** A list after its opening brace. */
  function Inside(e: Expr, rest: seq<Token>): seq<Token>
    requires IsList(e)
    decreases e, 0
  {
    var close := [RBRACE] + rest;
    match e
    case Nothing => close
    case Invoke(f, es) => [ATOM(f)] + WriteAll(es, close)
    case If(c, a, b) => [ATOM("if")] + Write(c, Write(a, Write(b, close)))
    case When(c, b) => [ATOM("when")] + Write(c, Write(b, close))
    case While(c, b) => [ATOM("while")] + Write(c, Write(b, close))
    case Set(x, a) => [ATOM("set!")] + ([ATOM(x)] + Write(a, close))
    case Lambda(k, ps, doc, b) => [ATOM(k)] + WriteParams(ps, doc + Write(b, close))
    case Defun(f, ps, doc, b) => [ATOM("defun!")] + ([ATOM(f)] + WriteParams(ps, doc + Write(b, close)))
    case Applied(h, es) => Write(h, WriteAll(es, close))
  }

  function WriteAll(es: Exprs, rest: seq<Token>): seq<Token>
    decreases es, 1
  {
    match es
    case NoMore => rest
    case More(e, es2) => Write(e, WriteAll(es2, rest))
  }

  /** Empty parentheses are read as NIL. */
  function WriteParams(ps: Params, rest: seq<Token>): seq<Token> {
    match ps
    case NoParams => [NIL] + rest
    case Listed(xs) => [LBRACE] + WriteNames(xs, rest)
  }

  function WriteNames(xs: seq<string>, rest: seq<Token>): seq<Token> {
    if xs == [] then [RBRACE] + rest else [ATOM(xs[0])] + WriteNames(xs[1..], rest)
  }

  function Names(ps: Params): seq<string> {
    match ps
    case NoParams => []
    case Listed(xs) => xs
  }

  // ----- resolving names -----

  /** What is known where an expression stands: globals so far, the parameters around it, the next function's index. */
  datatype Scope = Scope(env: Globals, params: seq<string>, next: nat)

  /** The expression resolved, what is known after it, and the functions it made. */
  datatype Resolved = Resolved(core: Core, after: Scope, made: seq<Definition>)

  datatype ResolvedAll = ResolvedAll(cores: Cores, after: Scope, made: seq<Definition>)

  /** An expression as operand: a bare name is a symbol constant; a function that is made is not pushed. */
  function Resolve(e: Expr, sc: Scope): (r: Resolved)
    ensures r.after.params == sc.params && r.after.next == sc.next + |r.made|
    decreases e, 0
  {
    match e
    case Self(d) => Resolved(Const(Denotes(d)), sc, [])
    case Quoted(d) => Resolved(Const(Denotes(d)), sc, [])
    case Name(x) => Resolved(Const(Sym(x)), sc, [])
    case Nothing => Resolved(Const(Nil), sc, [])
    case Invoke(f, es) =>
      var r := ResolveAll(es, sc);
      Resolved(ResolveHead(f, sc.env, r.cores), r.after, r.made)
    case If(c, a, b) =>
      var r1 := Resolve(c, sc);
      var r2 := Resolve(a, r1.after);
      var r3 := Resolve(b, r2.after);
      Resolved(Core.If(r1.core, r2.core, r3.core), r3.after, r1.made + r2.made + r3.made)
    case When(c, b) =>
      var r1 := Resolve(c, sc);
      var r2 := Resolve(b, r1.after);
      Resolved(Core.When(r1.core, r2.core), r2.after, r1.made + r2.made)
    case While(c, b) =>
      var r1 := Resolve(c, sc);
      var r2 := Resolve(b, r1.after);
      Resolved(Core.While(r1.core, r2.core), r2.after, r1.made + r2.made)
    case Set(x, a) =>
      var r := Resolve(a, sc);
      r.(core := Assign(x, WithFunction(a, r.core, sc.next)))
    case Lambda(_, ps, _, b) => ResolveFunction(Names(ps), b, sc, Skip)
    case Defun(f, ps, _, b) =>
      ResolveFunction(Names(ps), b, sc.(env := sc.env[f := Fun(sc.next)]), Const(Sym(f)))
    case Applied(h, es) =>
      var r := Resolve(h, sc);
      var rs := ResolveAll(es, r.after);
      Resolved(ResolveApplied(h, r.core, rs.cores), rs.after, r.made + rs.made)
  }

  function ResolveFunction(params: seq<string>, b: Expr, sc: Scope, core: Core): (r: Resolved)
    ensures r.after.params == sc.params && r.after.next == sc.next + |r.made|
    decreases b, 1
  {
    var r := Resolve(b, Scope(sc.env, params, sc.next + 1));
    Resolved(core, r.after.(params := sc.params), [Defined(params, r.core)] + r.made)
  }

  /** A list is worth a function when it defines one, or when its head is such a list. */
  predicate MakesFunction(e: Expr) {
    e.Lambda? || e.Defun? || (e.Applied? && MakesFunction(e.inner))
  }

  /** With a head that is no name nothing is called: head and arguments are pushed, then nil unless it is a function. */
  function ResolveApplied(h: Expr, core: Core, es: Cores): Core {
    if MakesFunction(h) then Then(core, Row(es)) else NoApp(Cons(core, es))
  }

  function Row(es: Cores): Core {
    match es
    case End => Skip
    case Cons(e, rest) => Then(e, Row(rest))
  }

  /** A function made in a place where its value is wanted is pushed as well. */
  function WithFunction(e: Expr, core: Core, id: nat): Core {
    if MakesFunction(e) then Then(core, Const(Fun(id))) else core
  }

  function ResolveHead(f: string, env: Globals, es: Cores): Core {
    if f !in env then App(f, None, es)
    else if env[f].Fun? then App(f, Some(env[f].id), es)
    else NoApp(es)
  }

  function ResolveName(x: string, params: seq<string>): Core {
    var i := ArgumentFinder(params, x);
    if i.Some? then Param(i.value) else Global(x)
  }

  /** As argument of a call a bare name is a parameter or else a global. */
  function ResolveArg(e: Expr, sc: Scope): (r: Resolved)
    ensures r.after.params == sc.params && r.after.next == sc.next + |r.made|
    decreases e, 1
  {
    if e.Name? then Resolved(ResolveName(e.name, sc.params), sc, [])
    else
      var r := Resolve(e, sc);
      r.(core := WithFunction(e, r.core, sc.next))
  }

  function ResolveAll(es: Exprs, sc: Scope): (r: ResolvedAll)
    ensures r.after.params == sc.params && r.after.next == sc.next + |r.made|
    decreases es, 0
  {
    match es
    case NoMore => ResolvedAll(End, sc, [])
    case More(e, rest) =>
      var r := ResolveArg(e, sc);
      var rs := ResolveAll(rest, r.after);
      ResolvedAll(Cons(r.core, rs.cores), rs.after, r.made + rs.made)
  }

  function Made(e: Expr, sc: Scope): Option<nat> {
    if MakesFunction(e) then Some(sc.next) else None
  }
}
