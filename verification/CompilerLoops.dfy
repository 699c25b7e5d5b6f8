/**
 * The compiler as it runs: one object whose token stream, globals and functions are changed step by step, with the
 * loops over lists, labels and parameters. Each method is proved to come to what the functions of Compiler say.
 */
module CompilerLoops {
  import opened Options
  import opened Bytecode
  import opened Reader
  import Compiler

  type Context = Compiler.Context

  /** Where reading a value leaves the compilation. */
  function AfterReading(j: Compiler.Job, v: Parsed): Compiler.Job {
    if v.fault then Compiler.Fault(j) else j.(toks := v.rest)
  }

  class Compilation {
    var toks: seq<Token>
    var globals: Globals
    var funs: Table
    var fault: bool

    ghost function Job(): Compiler.Job
      reads this
    {
      Compiler.Job(toks, globals, funs, fault)
    }

    constructor (toks: seq<Token>, globals: Globals, funs: Table)
      ensures Job() == Compiler.Job(toks, globals, funs, false)
    {
      this.toks, this.globals, this.funs, this.fault := toks, globals, funs, false;
    }

    method Lex() returns (tok: Token)
      modifies this`toks
      ensures tok == Peek(old(toks)) && Job() == Compiler.Take(old(Job()))
    {
      if toks == [] {
        return EOF;
      }
      tok := toks[0];
      toks := toks[1..];
    }

    method Crash()
      modifies this`toks, this`fault
      ensures Job() == Compiler.Fault(old(Job()))
    {
      toks, fault := [], true;
    }

    // ----- reading data: `bad` tells that a NULL was dereferenced -----

    method ParseToken(tok: Token) returns (value: Option<Value>, bad: bool)
      modifies this`toks, this`fault
      ensures var v := Reader.ParseToken(tok, old(toks));
        bad == v.fault && Job() == AfterReading(old(Job()), v) && (!bad ==> value == v.value)
      decreases |toks|, 2
    {
      value, bad := None, false;
      match tok
      case EOF =>
      case RBRACE =>
      case ATOM(x) => value := Some(Sym(x));
      case NUMBER(n) => value := Some(Num(n));
      case STRING(s) => value := Some(Str(s));
      case LBRACE =>
        var items;
        items, bad := ParseList();
        value := Some(List(items));
      case NIL => value := Some(Nil);
      case TRUE => value := Some(True);
      case QUOTE =>
        Crash();
        bad := true;
    }

    method ParseValue() returns (value: Option<Value>, bad: bool)
      modifies this`toks, this`fault
      ensures var v := Reader.ParseValue(old(toks));
        bad == v.fault && Job() == AfterReading(old(Job()), v) && (!bad ==> value == v.value)
      decreases |toks|, 0
    {
      if toks == [] {
        return None, false;
      }
      var tok := Lex();
      if tok == QUOTE {
        if toks == [] {
          return None, false;
        }
        tok := Lex();
      }
      value, bad := ParseToken(tok);
    }

    /** Appends values until there is none. */
    method ParseList() returns (items: seq<Value>, bad: bool)
      modifies this`toks, this`fault
      ensures var l := ParseItems(old(toks));
        bad == l.fault && Job() == AfterReading(old(Job()), Parsed(None, l.rest, l.fault)) && items == l.items
      decreases |toks|, 1
    {
      hide ParseItems, Reader.ParseValue;
      ghost var all := ParseItems(toks);
      items := [];
      while true
        invariant fault == old(fault) && |toks| <= |old(toks)|
        invariant all.items == items + ParseItems(toks).items
        invariant all.rest == ParseItems(toks).rest && all.fault == ParseItems(toks).fault
        decreases |toks|
      {
        ItemsStep(toks);
        var value;
        value, bad := ParseValue();
        if bad || value.None? {
          return;
        }
        Append(items, value.value, ParseItems(toks).items);
        items := items + [value.value];
      }
    }

    static lemma ItemsStep(toks: seq<Token>)
      ensures var v := Reader.ParseValue(toks);
        var l := ParseItems(v.rest);
        ParseItems(toks) ==
        if v.fault then ParsedItems([], [], true)
        else if v.value.None? then ParsedItems([], v.rest, false)
        else ParsedItems([v.value.value] + l.items, l.rest, l.fault)
      ensures toks != [] ==> |Reader.ParseValue(toks).rest| < |toks|
      ensures toks == [] ==> Reader.ParseValue(toks).value.None?
    {
    }

    static lemma Append<X>(xs: seq<X>, x: X, more: seq<X>)
      ensures xs + ([x] + more) == (xs + [x]) + more
    {
    }

    // ----- emitting -----

    /** The waiting NOP becomes the instruction, and a new NOP is appended. */
    method Emit(cx: Context, i: Instr)
      modifies this`funs
      ensures Job() == Compiler.Emit(old(Job()), cx, i)
    {
      if cx.ir < |funs| && funs[cx.ir].User? {
        var code := CreateOrGet(funs[cx.ir].code);
        code := code[|code| - 1 := i];
        funs := funs[cx.ir := funs[cx.ir].(code := code + [NOP])];
      }
    }

    /** Appends `n` labels and returns the number of the first. */
    method NewLabels(cx: Context, n: nat) returns (offset: nat)
      modifies this`funs
      ensures offset == Compiler.LabelCount(old(Job()), cx) && Job() == Compiler.NewLabels(old(Job()), cx, n)
    {
      offset := 0;
      if cx.comp < |funs| && funs[cx.comp].User? {
        offset := |funs[cx.comp].labels|;
        ghost var labels := funs[cx.comp].labels;
        var i := 0;
        assert labels + seq(0, _ => Unbound) == labels;
        while i < n
          invariant 0 <= i <= n && |funs| == |old(funs)| && funs[cx.comp].User?
          invariant funs == old(funs)[cx.comp := old(funs)[cx.comp].(labels := labels + seq(i, _ => Unbound))]
        {
          funs := funs[cx.comp := funs[cx.comp].(labels := funs[cx.comp].labels + [Unbound])];
          assert (labels + seq(i, _ => Unbound)) + [Unbound] == labels + seq(i + 1, _ => Unbound);
          i := i + 1;
        }
      }
    }

    method BindLabel(cx: Context, l: nat)
      modifies this`funs
      ensures Job() == Compiler.BindLabel(old(Job()), cx, l)
    {
      if cx.ir < |funs| && funs[cx.ir].User? && cx.comp < |funs| && funs[cx.comp].User? && l < |funs[cx.comp].labels| {
        var code := CreateOrGet(funs[cx.ir].code);
        funs := funs[cx.ir := funs[cx.ir].(code := code)];
        funs := funs[cx.comp := funs[cx.comp].(labels := funs[cx.comp].labels[l := Bound(cx.ir, |code| - 1)])];
      }
    }

    /** The first position of `x` among the parameters. */
    static method FindArgument(params: seq<string>, x: string) returns (index: Option<nat>)
      ensures index == ArgumentFinder(params, x)
      ensures index.Some? ==> index.value < |params| && params[index.value] == x && x !in params[..index.value]
      ensures index.None? ==> x !in params
    {
      var i := 0;
      while i < |params|
        invariant 0 <= i <= |params| && x !in params[..i]
      {
        if params[i] == x {
          FirstIsUnique(params, x, i);
          return Some(i);
        }
        i := i + 1;
      }
      assert params[..|params|] == params;
      return None;
    }

    static lemma {:induction false} FirstIsUnique(params: seq<string>, x: string, i: nat)
      requires i < |params| && params[i] == x && x !in params[..i]
      ensures ArgumentFinder(params, x) == Some(i)
    {
      if i > 0 {
        assert params[0] == params[..i][0];
        assert params[1..][..i - 1] == params[..i][1..];
        FirstIsUnique(params[1..], x, i - 1);
      }
    }

    method EmitLoad(cx: Context, x: string)
      modifies this`funs
      ensures Job() == Compiler.EmitLoad(old(Job()), cx, x)
    {
      if cx.comp < |funs| && funs[cx.comp].User? {
        var index := FindArgument(funs[cx.comp].params, x);
        if index.Some? {
          Emit(cx, LOAD(index.value));
        } else {
          Emit(cx, GET(x));
        }
      }
    }

    method ReadAndPush(cx: Context, tok: Token)
      modifies this
      ensures Job() == Compiler.EmitParsed(old(Job()), cx, Reader.ParseToken(tok, old(toks)))
      decreases |toks|, 3
    {
      var value, bad := ParseToken(tok);
      if !bad {
        Emit(cx, PUSH(value));
      }
    }

    method PrefetchFunction(x: string) returns (pf: Compiler.Prefetch, fun: Option<nat>)
      ensures (pf, fun) == Compiler.PrefetchFunction(Job(), x)
    {
      if x !in globals {
        return Compiler.NotFound, None;
      }
      var v := globals[x];
      if v.Fun? {
        if v.id < |funs| && funs[v.id].Special? {
          return Compiler.SForm, Some(v.id);
        }
        return Compiler.Normal, Some(v.id);
      }
      return Compiler.NotFn, None;
    }

    // ----- operands and lists -----

    method CompileNext(cx: Context) returns (fn: Option<nat>, tok: Token)
      modifies this
      ensures var n := Compiler.CompileNext(old(Job()), cx);
        Job() == n.job && fn == n.fn && tok == n.tok
      decreases |toks|, 1
    {
      fn := None;
      tok := Lex();
      match tok
      case LBRACE => fn := CompileList(cx);
      case QUOTE =>
        tok := Lex();
        ReadAndPush(cx, tok);
      case EOF =>
      case _ => ReadAndPush(cx, tok);
    }

    static lemma AtEnd(j: Compiler.Job, cx: Context, st: Compiler.Loop)
      requires Peek(j.toks) == EOF
      ensures Compiler.CompileList(j, cx, st) == Compiler.Compiled(Compiler.Take(j), None)
    {
    }

    /** One turn of the loop. */
    static lemma Turn(j: Compiler.Job, cx: Context, st: Compiler.Loop)
      requires Peek(j.toks) != EOF
      ensures var quoted := Peek(j.toks) == QUOTE;
        var k := if quoted then Compiler.Take(j) else j;
        var k2 := Compiler.Take(k);
        Compiler.CompileList(j, cx, st) ==
        match Peek(k.toks)
        case ATOM(x) => Compiler.CompileAtom(k2, cx, st, quoted, x)
        case LBRACE => Compiler.CompileSublist(k2, cx, st, quoted)
        case RBRACE => Compiler.CloseList(k2, cx, st)
        case EOF => Compiler.Compiled(Compiler.Fault(k2), None)
        case tok =>
          Compiler.CompileList(Compiler.EmitParsed(k2, cx, Reader.ParseToken(tok, k2.toks)), cx,
                               st.(argc := st.argc + 1, felem := false))
    {
      hide Compiler.CompileAtom, Compiler.CompileSublist, Compiler.CloseList;
    }

    /** The loop over an unquoted list, with its flags and counters. */
    method CompileList(cx: Context) returns (fn: Option<nat>)
      modifies this
      ensures var c := Compiler.CompileList(old(Job()), cx, Compiler.START);
        Job() == c.job && fn == c.fn
      decreases |toks|, 0
    {
      hide Compiler.CompileList, Compiler.CompileForm, Compiler.Emit, Compiler.EmitLoad, Compiler.EmitParsed;
      var pf, argc, felem := Compiler.NotFound, 0, true;
      var fun: Option<nat>, sym: Option<string> := None, None;
      ghost var whole := Compiler.CompileList(Job(), cx, Compiler.START);
      while true
        invariant |toks| <= |old(toks)|
        invariant whole == Compiler.CompileList(Job(), cx, Compiler.Loop(pf, argc, felem, fun, sym))
        decreases |toks|
      {
        ghost var j, st := Job(), Compiler.Loop(pf, argc, felem, fun, sym);
        var tok := Lex();
        if tok == EOF {
          AtEnd(j, cx, st);
          return None;
        }
        Turn(j, cx, st);
        var quoted := tok == QUOTE;
        if quoted {
          tok := Lex();
        }
        if tok.ATOM? {
          if felem {
            pf, fun := PrefetchFunction(tok.name);
            if pf == Compiler.SForm {
              fun := CompileForm(funs[fun.value].form, cx);
            } else if pf != Compiler.NotFn {
              sym := Some(tok.name);
            }
          } else {
            if quoted {
              Emit(cx, PUSH(Some(Sym(tok.name))));
            } else {
              EmitLoad(cx, tok.name);
            }
            argc := argc + 1;
          }
        } else if tok == LBRACE {
          if quoted {
            ReadAndPush(cx, LBRACE);
          } else {
            var f := CompileList(cx);
            if f.Some? {
              if felem {
                fun := f;
              } else {
                Emit(cx, PUSH(Some(Fun(f.value))));
              }
            }
          }
          argc := argc + 1;
        } else if tok == RBRACE {
          fn := None;
          if sym.Some? {
            Emit(cx, CALL(sym.value, fun, argc));
          } else if fun.Some? {
            fn := fun;
          } else if pf != Compiler.SForm {
            Emit(cx, PUSH(Some(Nil)));
          }
          return;
        } else if tok == EOF {
          Crash();
          return None;
        } else {
          ReadAndPush(cx, tok);
          argc := argc + 1;
        }
        felem := false;
      }
    }

    // ----- special forms -----

    method CompileForm(form: Form, cx: Context) returns (fn: Option<nat>)
      modifies this
      ensures var c := Compiler.CompileForm(form, old(Job()), cx);
        Job() == c.job && fn == c.fn
      decreases |toks|, 3
    {
      fn := None;
      match form
      case SIf => CompileIf(cx);
      case SWhen => CompileWhen(cx);
      case SWhile => CompileWhile(cx);
      case SSet => CompileSet(cx);
      case SDefun => fn := CompileDefun(cx);
      case SLambda => fn := CompileLambda(cx);
    }

    method CompileWhen(cx: Context)
      modifies this
      ensures Compiler.Compiled(Job(), None) == Compiler.CompileWhen(old(Job()), cx)
      decreases |toks|, 2
    {
      var l := NewLabels(cx, 1);
      var _, _ := CompileNext(cx);
      Emit(cx, JN(LabelRef(cx.comp, l)));
      var _, _ := CompileNext(cx);
      BindLabel(cx, l);
    }

    method CompileIf(cx: Context)
      modifies this
      ensures Compiler.Compiled(Job(), None) == Compiler.CompileIf(old(Job()), cx)
      decreases |toks|, 2
    {
      var l := NewLabels(cx, 2);
      var _, _ := CompileNext(cx);
      Emit(cx, JN(LabelRef(cx.comp, l + 1)));
      var _, _ := CompileNext(cx);
      Emit(cx, JMP(LabelRef(cx.comp, l)));
      BindLabel(cx, l + 1);
      var _, _ := CompileNext(cx);
      BindLabel(cx, l);
    }

    method CompileWhile(cx: Context)
      modifies this
      ensures Compiler.Compiled(Job(), None) == Compiler.CompileWhile(old(Job()), cx)
      decreases |toks|, 2
    {
      var l := NewLabels(cx, 2);
      BindLabel(cx, l);
      var _, _ := CompileNext(cx);
      Emit(cx, JN(LabelRef(cx.comp, l + 1)));
      var _, _ := CompileNext(cx);
      Emit(cx, JMP(LabelRef(cx.comp, l)));
      BindLabel(cx, l + 1);
    }

    method CompileSet(cx: Context)
      modifies this
      ensures Compiler.Compiled(Job(), None) == Compiler.CompileSet(old(Job()), cx)
      decreases |toks|, 2
    {
      var tok := Lex();
      if !tok.ATOM? {
        return;
      }
      var fn, _ := CompileNext(cx);
      if fn.Some? {
        Emit(cx, PUSH(Some(Fun(fn.value))));
      }
      Emit(cx, SET(tok.name));
    }

    method ParseParams() returns (params: seq<string>, bad: bool)
      modifies this`toks, this`fault
      ensures var ps := Compiler.ParseParams(old(toks));
        params == ps.names && bad == ps.fault
        && Job() == if ps.fault then Compiler.Fault(old(Job())) else old(Job()).(toks := ps.rest)
    {
      var tok := Lex();
      if tok != LBRACE {
        return [], false;
      }
      params, bad := ParseNames();
    }

    static lemma NamesStep(toks: seq<Token>)
      requires toks != [] && toks[0] != RBRACE
      ensures var ps := Compiler.ParseNames(toks[1..]);
        Compiler.ParseNames(toks) ==
        ps.(names := (if toks[0].ATOM? then [toks[0].name] else []) + ps.names)
    {
    }

    static lemma NamesEnd(toks: seq<Token>)
      requires toks == [] || toks[0] == RBRACE
      ensures Compiler.ParseNames(toks) == Compiler.Parameters([], Advance(toks), toks == [])
    {
    }

    /** Collects the atoms up to the closing brace; at the end of the input it would never come to an end. */
    method ParseNames() returns (params: seq<string>, bad: bool)
      modifies this`toks, this`fault
      ensures var ps := Compiler.ParseNames(old(toks));
        params == ps.names && bad == ps.fault
        && Job() == if ps.fault then Compiler.Fault(old(Job())) else old(Job()).(toks := ps.rest)
    {
      hide Compiler.ParseNames;
      params, bad := [], false;
      ghost var all := Compiler.ParseNames(toks);
      while toks != [] && toks[0] != RBRACE
        invariant fault == old(fault)
        invariant all.names == params + Compiler.ParseNames(toks).names
        invariant all.rest == Compiler.ParseNames(toks).rest && all.fault == Compiler.ParseNames(toks).fault
        decreases |toks|
      {
        NamesStep(toks);
        var tok := Lex();
        ghost var more := Compiler.ParseNames(toks).names;
        if tok.ATOM? {
          Append(params, tok.name, more);
          params := params + [tok.name];
        } else {
          assert [] + more == more;
        }
      }
      NamesEnd(toks);
      if toks == [] {
        Crash();
        bad := true;
      } else {
        var _ := Lex();
      }
    }

    method SkipDocumentation()
      modifies this`toks
      ensures Job() == Compiler.SkipDocumentation(old(Job()))
    {
      if Peek(toks).STRING? {
        var _ := Lex();
        var _ := Lex();
      }
    }

    method CompileDefun(cx: Context) returns (fn: Option<nat>)
      modifies this
      ensures var c := Compiler.CompileDefun(old(Job()), cx);
        Job() == c.job && fn == c.fn
      decreases |toks|, 2
    {
      var f := |funs|;
      funs := funs + [User([], [], [])];
      var tok := Lex();
      if !tok.ATOM? {
        return None;
      }
      var params, bad := ParseParams();
      if bad {
        return None;
      }
      funs := funs[f := funs[f].(params := params)];
      assert funs == old(funs) + [User(params, [], [])];
      SkipDocumentation();
      globals := globals[tok.name := Fun(f)];
      var _, _ := CompileNext(Compiler.Context(f, f));
      Emit(Compiler.Context(cx.ir, f), PUSH(Some(Sym(tok.name))));
      fn := Some(f);
    }

    method CompileLambda(cx: Context) returns (fn: Option<nat>)
      modifies this
      ensures var c := Compiler.CompileLambda(old(Job()), cx);
        Job() == c.job && fn == c.fn
      decreases |toks|, 2
    {
      var f := |funs|;
      funs := funs + [User([], [], [])];
      var params, bad := ParseParams();
      if bad {
        return None;
      }
      funs := funs[f := funs[f].(params := params)];
      assert funs == old(funs) + [User(params, [], [])];
      SkipDocumentation();
      var _, _ := CompileNext(Compiler.Context(f, f));
      fn := Some(f);
    }

    // ----- a whole program -----

    /** Operand after operand until the end of the input, into a new function whose last NOP is then popped. */
    method Compile() returns (main: nat)
      modifies this
      ensures main == |old(funs)|
      ensures !old(fault) ==> Job() == Compiler.Compile(old(toks), old(globals), old(funs))
    {
      main := |funs|;
      funs := funs + [User([], [], [])];
      var cx := Compiler.Context(main, main);
      ghost var start := Job();
      var tok := NIL;
      while tok != EOF
        invariant if tok == EOF then Job() == Compiler.CompileAll(start, cx)
          else Compiler.CompileAll(Job(), cx) == Compiler.CompileAll(start, cx)
        decreases tok != EOF, |toks|
      {
        var fn;
        fn, tok := CompileNext(cx);
      }
      if main < |funs| && funs[main].User? {
        var code := funs[main].code;
        if code != [] && code[|code| - 1] == NOP {
          funs := funs[main := funs[main].(code := code[..|code| - 1])];
        }
      }
    }
  }
}
