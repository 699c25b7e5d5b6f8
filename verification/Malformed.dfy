/** What the compiler makes of tokens that are no program: forms without a name, lists broken off, stray brackets. */
module Malformed {
  import opened Options
  import opened Bytecode
  import opened Reader
  import opened Compiler

  /** The names among these tokens, in order. */
  function NamesAmong(toks: seq<Token>): seq<string> {
    if toks == [] then []
    else
      var k := |toks| - 1;
      NamesAmong(toks[..k]) + if toks[k].ATOM? then [toks[k].name] else []
  }

  lemma {:induction false} NamesFromFront(tok: Token, toks: seq<Token>)
    ensures NamesAmong([tok] + toks) == (if tok.ATOM? then [tok.name] else []) + NamesAmong(toks)
    decreases |toks|
  {
    if toks == [] {
      assert ([tok] + toks)[..0] == [];
    } else {
      var k := |toks| - 1;
      assert ([tok] + toks)[..k + 1] == [tok] + toks[..k];
      NamesFromFront(tok, toks[..k]);
    }
  }

  /** Whatever stands between the brackets of a parameter list: the names in it are the parameters. */
  lemma {:induction false} ParamsAreNames(toks: seq<Token>, rest: seq<Token>)
    requires RBRACE !in toks
    ensures ParseParams([LBRACE] + (toks + [RBRACE] + rest)) == Parameters(NamesAmong(toks), rest, false)
  {
    NamesUpToBracket(toks, rest);
    assert ([LBRACE] + (toks + [RBRACE] + rest))[1..] == toks + [RBRACE] + rest;
  }

  lemma {:induction false} NamesUpToBracket(toks: seq<Token>, rest: seq<Token>)
    requires RBRACE !in toks
    ensures ParseNames(toks + [RBRACE] + rest) == Parameters(NamesAmong(toks), rest, false)
  {
    if toks == [] {
      assert (toks + [RBRACE] + rest)[1..] == rest;
    } else {
      assert (toks + [RBRACE] + rest)[1..] == toks[1..] + [RBRACE] + rest;
      assert toks[0] in toks && toks == [toks[0]] + toks[1..];
      NamesUpToBracket(toks[1..], rest);
      NamesFromFront(toks[0], toks[1..]);
    }
  }

  /** A parameter list is read without a fault exactly if it is closed, or is no list, and then one token is lost. */
  lemma {:induction false} ParamsFault(toks: seq<Token>)
    ensures ParseParams(toks).fault <==> toks != [] && toks[0] == LBRACE && RBRACE !in toks
    ensures toks != [] && toks[0] != LBRACE ==> ParseParams(toks) == Parameters([], toks[1..], false)
  {
    if toks != [] {
      NamesFault(toks[1..]);
      assert toks == [toks[0]] + toks[1..];
    }
  }

  lemma {:induction false} NamesFault(toks: seq<Token>)
    ensures ParseNames(toks).fault <==> RBRACE !in toks
  {
    if toks != [] {
      NamesFault(toks[1..]);
      assert toks == [toks[0]] + toks[1..];
    }
  }

  /** `set!` without a name takes one token and compiles nothing. */
  lemma {:induction false} SetWithoutName(j: Job, cx: Context)
    requires j.toks == [] || !j.toks[0].ATOM?
    ensures var c := CompileSet(j, cx);
      c.fn == None && c.job.funs == j.funs && c.job.globals == j.globals && c.job.fault == j.fault
      && c.job.toks == if j.toks == [] then [] else j.toks[1..]
  {
    hide CompileNext, Emit;
  }

  /** `defun!` without a name takes one token and makes a function without parameters or code that nothing refers to. */
  lemma {:induction false} DefunWithoutName(j: Job, cx: Context)
    requires j.toks == [] || !j.toks[0].ATOM?
    ensures var c := CompileDefun(j, cx);
      c.fn == None && c.job.funs == j.funs + [User([], [], [])] && c.job.globals == j.globals && c.job.fault == j.fault
      && c.job.toks == if j.toks == [] then [] else j.toks[1..]
  {
    hide CompileNext, Emit, ParseParams, SkipDocumentation;
  }

  /** A list that the text breaks off has pushed its arguments, and there is no call. */
  lemma {:induction false} ListBrokenOff(j: Job, cx: Context, st: Loop)
    requires j.toks == []
    ensures CompileList(j, cx, st) == Compiled(j, None)
  {
    hide CompileAtom, CompileSublist, CloseList, EmitParsed;
  }

  /** After a quote that ends the text the source follows a NULL. */
  lemma {:induction false} QuoteAtTheEnd(j: Job, cx: Context, st: Loop)
    requires j.toks == [QUOTE]
    ensures var c := CompileList(j, cx, st); c.fn == None && c.job.fault && c.job.funs == j.funs
  {
    hide CompileAtom, CompileSublist, CloseList, EmitParsed;
  }

  /** A closing bracket where an operand is wanted is a NULL operand: a run that comes to it ends there. */
  lemma {:induction false} BracketAsOperand(j: Job, cx: Context, rest: seq<Token>)
    requires j.toks == [RBRACE] + rest && IsUser(j, cx.ir)
    ensures var n := CompileNext(j, cx);
      n.fn == None && n.job.toks == rest && n.job.globals == j.globals && n.job.fault == j.fault
      && n.job.funs == j.funs[cx.ir := j.funs[cx.ir].(code := Build(j.funs[cx.ir].code, PUSH(None)))]
  {
    hide CompileList, Build;
    assert j.toks[1..] == rest;
    assert ParseToken(RBRACE, rest) == Parsed(None, rest, false);
  }
}
