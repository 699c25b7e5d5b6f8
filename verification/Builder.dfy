/** What every compilation keeps, whatever the tokens: how the code and the labels of a function grow. */
module Builder {
  import opened Options
  import opened Bytecode
  import opened Reader
  import opened Compiler

  /** The instructions before the waiting NOP. */
  function Finished(code: seq<Instr>): seq<Instr> {
    if code == [] then [] else code[..|code| - 1]
  }

  /** A jump of function `me` goes to a label of function `me`. */
  predicate Own(i: Instr, me: nat, labels: nat) {
    i.JMP? || i.JN? ==> i.target.owner == me && i.target.number < labels
  }

  /** A bound label denotes an instruction of its own function. */
  predicate Home(l: Label, me: nat, size: nat) {
    l.Bound? ==> l.ir == me && l.pc < size
  }

  /** The code is empty or ends in the waiting NOP, and jumps and labels stay within the function. */
  predicate Tidy(f: Function, me: nat) {
    f.User?
    && (f.code == [] || f.code[|f.code| - 1] == NOP)
    && (forall k :: 0 <= k < |Finished(f.code)| ==> Own(f.code[k], me, |f.labels|))
    && (forall k :: 0 <= k < |f.labels| ==> Home(f.labels[k], me, |f.code|))
  }

  /** A function whose compilation is over: every label it allocated is bound. */
  predicate Whole(f: Function, me: nat) {
    Tidy(f, me) && forall k :: 0 <= k < |f.labels| ==> f.labels[k].Bound?
  }

  /**
   * From `f` to `g`: finished instructions and old labels are never rewritten, and all new labels but the first
   * `n` are bound.
   */
  predicate BodyGrows(f: Function, g: Function, me: nat, n: nat) {
    Tidy(f, me) && Tidy(g, me) && f.params == g.params
    && Finished(f.code) <= Finished(g.code)
    && |f.labels| + n <= |g.labels| && f.labels == g.labels[..|f.labels|]
    && forall k :: |f.labels| + n <= k < |g.labels| ==> g.labels[k].Bound?
  }

  /** From `a` to `b` only function `me` changes, and it grows; functions that are new are whole. */
  predicate Grows(a: Job, b: Job, me: nat, n: nat) {
    me < |a.funs| <= |b.funs|
    && BodyGrows(a.funs[me], b.funs[me], me, n)
    && (forall i :: 0 <= i < |a.funs| && i != me ==> b.funs[i] == a.funs[i])
    && (forall i :: |a.funs| <= i < |b.funs| ==> Whole(b.funs[i], i))
  }

  predicate Open(j: Job, me: nat) {
    me < |j.funs| && Tidy(j.funs[me], me)
  }

  lemma Unmoved(j: Job, k: Job, me: nat)
    requires Open(j, me) && k.funs == j.funs
    ensures Grows(j, k, me, 0) && Open(k, me)
  {
  }

  lemma GrowsOn(a: Job, b: Job, c: Job, me: nat, n: nat)
    requires Grows(a, b, me, n) && Grows(b, c, me, 0)
    ensures Grows(a, c, me, n)
  {
    var f, g, h := a.funs[me], b.funs[me], c.funs[me];
    assert h.labels[..|f.labels|] == h.labels[..|g.labels|][..|f.labels|];
    forall k | |f.labels| + n <= k < |h.labels|
      ensures h.labels[k].Bound?
    {
      if k < |g.labels| {
        assert h.labels[k] == h.labels[..|g.labels|][k];
      }
    }
    assert Finished(f.code) <= Finished(h.code);
  }

  lemma EmitGrows(j: Job, me: nat, comp: nat, i: Instr)
    requires Open(j, me) && Own(i, me, |j.funs[me].labels|)
    ensures Grows(j, Emit(j, Context(me, comp), i), me, 0)
    ensures var k := Emit(j, Context(me, comp), i);
      Finished(k.funs[me].code) == Finished(j.funs[me].code) + [i] && k.funs[me].labels == j.funs[me].labels
  {
    var f := j.funs[me];
    var g := Emit(j, Context(me, comp), i).funs[me];
    BuildAppends(f.code, Finished(f.code), i);
    assert g.code == Finished(f.code) + [i] + [NOP];
    forall k | 0 <= k < |Finished(g.code)|
      ensures Own(g.code[k], me, |g.labels|)
    {
      if k < |Finished(f.code)| {
        assert g.code[k] == f.code[k];
      }
    }
  }

  lemma EmitLoadGrows(j: Job, me: nat, x: string)
    requires Open(j, me)
    ensures Grows(j, EmitLoad(j, Context(me, me), x), me, 0)
  {
    var i := ArgumentFinder(j.funs[me].params, x);
    EmitGrows(j, me, me, if i.Some? then LOAD(i.value) else GET(x));
  }

  lemma EmitParsedGrows(j: Job, me: nat, v: Parsed)
    requires Open(j, me) && |v.rest| <= |j.toks|
    ensures Grows(j, EmitParsed(j, Context(me, me), v), me, 0)
  {
    if v.fault {
      Unmoved(j, Fault(j), me);
    } else {
      var k := j.(toks := v.rest);
      Unmoved(j, k, me);
      EmitGrows(k, me, me, PUSH(v.value));
      GrowsOn(j, k, EmitParsed(j, Context(me, me), v), me, 0);
    }
  }

  lemma NewLabelsGrows(j: Job, me: nat, n: nat)
    requires Open(j, me)
    ensures var k := NewLabels(j, Context(me, me), n);
      Grows(j, k, me, n) && Open(k, me) && k.funs[me].code == j.funs[me].code
      && |k.funs[me].labels| == |j.funs[me].labels| + n
  {
    var f := j.funs[me];
    var g := NewLabels(j, Context(me, me), n).funs[me];
    assert g.labels[..|f.labels|] == f.labels;
  }

  /** A label bound now denotes the next instruction that is emitted. */
  lemma BindGrows(a: Job, j: Job, me: nat, n: nat, l: nat)
    requires Grows(a, j, me, n) && |a.funs[me].labels| <= l < |a.funs[me].labels| + n
    ensures var k := BindLabel(j, Context(me, me), l);
      Grows(a, k, me, n) && |k.funs| == |j.funs| && l < |j.funs[me].labels|
        && (forall i :: 0 <= i < |j.funs| && i != me ==> k.funs[i] == j.funs[i])
      && k.globals == j.globals && k.fault == j.fault
      && k.funs[me].params == j.funs[me].params && Finished(k.funs[me].code) == Finished(j.funs[me].code)
      && k.funs[me].labels == j.funs[me].labels[l := Bound(me, |Finished(j.funs[me].code)|)]
  {
    var f, g := a.funs[me], j.funs[me];
    var k := BindLabel(j, Context(me, me), l);
    var h := k.funs[me];
    assert h.labels[..|f.labels|] == g.labels[..|f.labels|];
    assert Finished(h.code) == Finished(g.code);
    forall i | 0 <= i < |Finished(h.code)|
      ensures Own(h.code[i], me, |h.labels|)
    {
      assert h.code[i] == g.code[i];
    }
  }

  /** Once its own labels are bound, a form has left nothing open. */
  lemma AllBound(a: Job, b: Job, me: nat, n: nat)
    requires Grows(a, b, me, n)
    requires forall k :: |a.funs[me].labels| <= k < |a.funs[me].labels| + n ==> b.funs[me].labels[k].Bound?
    ensures Grows(a, b, me, 0)
  {
  }

  lemma NewFunction(j: Job, me: nat, params: seq<string>)
    requires Open(j, me)
    ensures Grows(j, AddFunction(j, params), me, 0) && Open(AddFunction(j, params), |j.funs|)
  {
  }

  /** What the compilation of an inner function does is growth for the function around it. */
  lemma InnerGrows(j: Job, k: Job, m: Job, me: nat)
    requires Open(j, me) && |k.funs| == |j.funs| + 1 && k.funs[..|j.funs|] == j.funs
    requires k.funs[|j.funs|].User? && k.funs[|j.funs|].labels == [] && Grows(k, m, |j.funs|, 0)
    ensures Grows(j, m, me, 0)
  {
    var f := |j.funs|;
    forall i | 0 <= i < f
      ensures m.funs[i] == j.funs[i]
    {
      assert k.funs[i] == j.funs[i];
    }
    assert Whole(m.funs[f], f);
    forall i | f <= i < |m.funs|
      ensures Whole(m.funs[i], i)
    {
    }
  }

  // ----- the whole compilation, by recursion over the tokens -----

  lemma {:induction false} NextGrows(j: Job, me: nat)
    requires Open(j, me)
    ensures Grows(j, CompileNext(j, Context(me, me)).job, me, 0)
    decreases |j.toks|, 1, 0
  {
    hide CompileList, Grows, Open, EmitParsed;
    var cx := Context(me, me);
    var tok := Peek(j.toks);
    var k := Take(j);
    Unmoved(j, k, me);
    match tok
    case LBRACE =>
      ListGrows(k, me, START);
      GrowsOn(j, k, CompileList(k, cx, START).job, me, 0);
    case QUOTE =>
      var k2 := Take(k);
      Unmoved(j, k2, me);
      var v := ParseToken(Peek(k.toks), k2.toks);
      EmitParsedGrows(k2, me, v);
      GrowsOn(j, k2, EmitParsed(k2, cx, v), me, 0);
    case EOF =>
    case _ =>
      var v := ParseToken(tok, k.toks);
      EmitParsedGrows(k, me, v);
      GrowsOn(j, k, EmitParsed(k, cx, v), me, 0);
  }

  lemma StaysOpen(a: Job, b: Job, me: nat)
    requires Grows(a, b, me, 0)
    ensures Open(a, me) && Open(b, me)
  {
  }

  lemma {:induction false} ListGrows(j: Job, me: nat, st: Loop)
    requires Open(j, me)
    ensures Grows(j, CompileList(j, Context(me, me), st).job, me, 0)
    decreases |j.toks|, 0
  {
    hide Grows, Open, EmitParsed, CompileAtom, CompileSublist, CloseList;
    var cx := Context(me, me);
    Unmoved(j, Take(j), me);
    if Peek(j.toks) != EOF {
      var quoted := Peek(j.toks) == QUOTE;
      var k := if quoted then Take(j) else j;
      var tok := Peek(k.toks);
      var k2 := Take(k);
      Unmoved(j, k2, me);
      match tok
      case ATOM(x) =>
        AtomGrows(k2, me, st, quoted, x);
        GrowsOn(j, k2, CompileAtom(k2, cx, st, quoted, x).job, me, 0);
      case LBRACE =>
        SublistGrows(k2, me, st, quoted);
        GrowsOn(j, k2, CompileSublist(k2, cx, st, quoted).job, me, 0);
      case RBRACE =>
        CloseGrows(k2, me, st);
        GrowsOn(j, k2, CloseList(k2, cx, st).job, me, 0);
      case EOF => Unmoved(j, Fault(k2), me);
      case _ =>
        var v := ParseToken(tok, k2.toks);
        var st2 := st.(argc := st.argc + 1, felem := false);
        EmitParsedGrows(k2, me, v);
        GrowsOn(j, k2, EmitParsed(k2, cx, v), me, 0);
        RestGrows(j, EmitParsed(k2, cx, v), me, st2);
    }
  }

  /** One step, and then the rest of the list. */
  lemma {:induction false} RestGrows(j: Job, k: Job, me: nat, st: Loop)
    requires Grows(j, k, me, 0)
    ensures Grows(j, CompileList(k, Context(me, me), st).job, me, 0)
    decreases |k.toks|, 1
  {
    hide CompileList, Grows, Open;
    StaysOpen(j, k, me);
    ListGrows(k, me, st);
    GrowsOn(j, k, CompileList(k, Context(me, me), st).job, me, 0);
  }

  lemma {:induction false} AtomGrows(j: Job, me: nat, st: Loop, quoted: bool, x: string)
    requires Open(j, me)
    ensures Grows(j, CompileAtom(j, Context(me, me), st, quoted, x).job, me, 0)
    decreases |j.toks|, 4
  {
    hide Grows, Open, Emit, EmitLoad, CompileForm, CompileList;
    var cx := Context(me, me);
    if st.felem {
      var (pf, fun) := PrefetchFunction(j, x);
      match pf
      case SForm =>
        var c := CompileForm(j.funs[fun.value].form, j, cx);
        FormGrows(j.funs[fun.value].form, j, me);
        RestGrows(j, c.job, me, st.(pf := pf, fun := c.fn, felem := false));
      case NotFn => ListGrows(j, me, st.(pf := pf, fun := fun, felem := false));
      case _ => ListGrows(j, me, st.(pf := pf, fun := fun, sym := Some(x), felem := false));
    } else if quoted {
      EmitGrows(j, me, me, PUSH(Some(Sym(x))));
      RestGrows(j, Emit(j, cx, PUSH(Some(Sym(x)))), me, st.(argc := st.argc + 1));
    } else {
      EmitLoadGrows(j, me, x);
      RestGrows(j, EmitLoad(j, cx, x), me, st.(argc := st.argc + 1));
    }
  }

  lemma {:induction false} SublistGrows(j: Job, me: nat, st: Loop, quoted: bool)
    requires Open(j, me)
    ensures Grows(j, CompileSublist(j, Context(me, me), st, quoted).job, me, 0)
    decreases |j.toks|, 4
  {
    hide Grows, Open, Emit, EmitParsed, CompileList, ParseToken;
    var cx := Context(me, me);
    var st2 := st.(argc := st.argc + 1, felem := false);
    if quoted {
      var v := ParseToken(LBRACE, j.toks);
      EmitParsedGrows(j, me, v);
      RestGrows(j, EmitParsed(j, cx, v), me, st2);
    } else {
      var c := CompileList(j, cx, START);
      ListGrows(j, me, START);
      if c.fn.None? {
        RestGrows(j, c.job, me, st2);
      } else if st.felem {
        RestGrows(j, c.job, me, st2.(fun := c.fn));
      } else {
        StaysOpen(j, c.job, me);
        var i := PUSH(Some(Fun(c.fn.value)));
        EmitGrows(c.job, me, me, i);
        GrowsOn(j, c.job, Emit(c.job, cx, i), me, 0);
        RestGrows(j, Emit(c.job, cx, i), me, st2);
      }
    }
  }

  lemma CloseGrows(j: Job, me: nat, st: Loop)
    requires Open(j, me)
    ensures Grows(j, CloseList(j, Context(me, me), st).job, me, 0)
  {
    Unmoved(j, j, me);
    if st.sym.Some? {
      EmitGrows(j, me, me, CALL(st.sym.value, st.fun, st.argc));
    } else {
      EmitGrows(j, me, me, PUSH(Some(Nil)));
    }
  }

  // ----- the special forms -----

  lemma {:induction false} FormGrows(form: Form, j: Job, me: nat)
    requires Open(j, me)
    ensures Grows(j, CompileForm(form, j, Context(me, me)).job, me, 0)
    decreases |j.toks|, 3
  {
    hide Grows, Open, CompileIf, CompileWhen, CompileWhile, CompileSet, CompileDefun, CompileLambda;
    match form
    case SIf => IfGrows(j, me);
    case SWhen => WhenGrows(j, me);
    case SWhile => WhileGrows(j, me);
    case SSet => SetGrows(j, me);
    case SDefun => DefunGrows(j, me);
    case SLambda => LambdaGrows(j, me);
  }

  /** A jump to a label of the form, while the form still has `n` labels open. */
  lemma JumpGrows(a: Job, j: Job, me: nat, n: nat, i: Instr)
    requires Grows(a, j, me, n) && Own(i, me, |a.funs[me].labels| + n)
    ensures Grows(a, Emit(j, Context(me, me), i), me, n)
    ensures Emit(j, Context(me, me), i).funs[me].labels == j.funs[me].labels
  {
    EmitGrows(j, me, me, i);
    GrowsOn(a, j, Emit(j, Context(me, me), i), me, n);
  }

  /** An operand, while the form still has `n` labels open: it leaves them as they are. */
  lemma {:induction false} OperandGrows(a: Job, j: Job, me: nat, n: nat)
    requires Grows(a, j, me, n)
    ensures var k := CompileNext(j, Context(me, me)).job;
      Grows(a, k, me, n) && |j.funs[me].labels| <= |k.funs[me].labels|
      && forall i :: 0 <= i < |a.funs[me].labels| + n ==> k.funs[me].labels[i] == j.funs[me].labels[i]
    decreases |j.toks|, 1, 1
  {
    hide CompileNext;
    NextGrows(j, me);
    var k := CompileNext(j, Context(me, me)).job;
    GrowsOn(a, j, k, me, n);
    var f, g := j.funs[me], k.funs[me];
    forall i | 0 <= i < |a.funs[me].labels| + n
      ensures g.labels[i] == f.labels[i]
    {
      assert g.labels[i] == g.labels[..|f.labels|][i];
    }
  }

  lemma {:induction false} WhenGrows(j: Job, me: nat)
    requires Open(j, me)
    ensures Grows(j, CompileWhen(j, Context(me, me)).job, me, 0)
    decreases |j.toks|, 2
  {
    hide CompileNext, BodyGrows, Emit, NewLabels, BindLabel;
    var cx := Context(me, me);
    var l := LabelCount(j, cx);
    NewLabelsGrows(j, me, 1);
    OperandGrows(j, NewLabels(j, cx, 1), me, 1);
    var j1 := CompileNext(NewLabels(j, cx, 1), cx).job;
    var i := JN(LabelRef(me, l));
    JumpGrows(j, j1, me, 1, i);
    OperandGrows(j, Emit(j1, cx, i), me, 1);
    var j2 := CompileNext(Emit(j1, cx, i), cx).job;
    BindGrows(j, j2, me, 1, l);
    AllBound(j, BindLabel(j2, cx, l), me, 1);
  }

  lemma {:induction false} IfGrows(j: Job, me: nat)
    requires Open(j, me)
    ensures Grows(j, CompileIf(j, Context(me, me)).job, me, 0)
    decreases |j.toks|, 2
  {
    hide CompileNext, BodyGrows, Emit, NewLabels, BindLabel;
    var cx := Context(me, me);
    var l := LabelCount(j, cx);
    NewLabelsGrows(j, me, 2);
    OperandGrows(j, NewLabels(j, cx, 2), me, 2);
    var j1 := CompileNext(NewLabels(j, cx, 2), cx).job;
    var i := JN(LabelRef(me, l + 1));
    JumpGrows(j, j1, me, 2, i);
    OperandGrows(j, Emit(j1, cx, i), me, 2);
    var j2 := CompileNext(Emit(j1, cx, i), cx).job;
    var i2 := JMP(LabelRef(me, l));
    JumpGrows(j, j2, me, 2, i2);
    BindGrows(j, Emit(j2, cx, i2), me, 2, l + 1);
    var j3 := BindLabel(Emit(j2, cx, i2), cx, l + 1);
    OperandGrows(j, j3, me, 2);
    var j4 := CompileNext(j3, cx).job;
    BindGrows(j, j4, me, 2, l);
    AllBound(j, BindLabel(j4, cx, l), me, 2);
  }

  lemma {:induction false} WhileGrows(j: Job, me: nat)
    requires Open(j, me)
    ensures Grows(j, CompileWhile(j, Context(me, me)).job, me, 0)
    decreases |j.toks|, 2
  {
    hide CompileNext, BodyGrows, Emit, NewLabels, BindLabel;
    var cx := Context(me, me);
    var l := LabelCount(j, cx);
    NewLabelsGrows(j, me, 2);
    BindGrows(j, NewLabels(j, cx, 2), me, 2, l);
    var j0 := BindLabel(NewLabels(j, cx, 2), cx, l);
    OperandGrows(j, j0, me, 2);
    var j1 := CompileNext(j0, cx).job;
    var i := JN(LabelRef(me, l + 1));
    JumpGrows(j, j1, me, 2, i);
    OperandGrows(j, Emit(j1, cx, i), me, 2);
    var j2 := CompileNext(Emit(j1, cx, i), cx).job;
    var i2 := JMP(LabelRef(me, l));
    JumpGrows(j, j2, me, 2, i2);
    BindGrows(j, Emit(j2, cx, i2), me, 2, l + 1);
    AllBound(j, BindLabel(Emit(j2, cx, i2), cx, l + 1), me, 2);
  }

  lemma {:induction false} SetGrows(j: Job, me: nat)
    requires Open(j, me)
    ensures Grows(j, CompileSet(j, Context(me, me)).job, me, 0)
    decreases |j.toks|, 2
  {
    hide CompileNext, BodyGrows, Emit;
    var cx := Context(me, me);
    Unmoved(j, Take(j), me);
    var tok := Peek(j.toks);
    if tok.ATOM? {
      OperandGrows(j, Take(j), me, 0);
      var n := CompileNext(Take(j), cx);
      if n.fn.Some? {
        JumpGrows(j, n.job, me, 0, PUSH(Some(Fun(n.fn.value))));
      }
      var j1 := if n.fn.Some? then Emit(n.job, cx, PUSH(Some(Fun(n.fn.value)))) else n.job;
      JumpGrows(j, j1, me, 0, SET(tok.name));
    }
  }

  lemma {:induction false} DefunGrows(j: Job, me: nat)
    requires Open(j, me)
    ensures Grows(j, CompileDefun(j, Context(me, me)).job, me, 0)
    decreases |j.toks|, 2
  {
    hide CompileNext, BodyGrows, Emit;
    var f := |j.funs|;
    var tok := Peek(j.toks);
    NewFunction(j, me, []);
    if !tok.ATOM? {
      Unmoved(AddFunction(j, []), AddFunction(Take(j), []), me);
    } else {
      var ps := ParseParams(Take(j).toks);
      if ps.fault {
        Unmoved(AddFunction(j, []), Fault(AddFunction(j, [])), me);
      } else {
        var j1 := SkipDocumentation(AddFunction(j.(toks := ps.rest), ps.names));
        var j2 := j1.(globals := j1.globals[tok.name := Fun(f)]);
        FunctionGrows(j, j2, me);
        var j3 := CompileNext(j2, Context(f, f)).job;
        StaysOpen(j, j3, me);
        EmitGrows(j3, me, f, PUSH(Some(Sym(tok.name))));
        GrowsOn(j, j3, Emit(j3, Context(me, f), PUSH(Some(Sym(tok.name)))), me, 0);
      }
    }
  }

  lemma {:induction false} LambdaGrows(j: Job, me: nat)
    requires Open(j, me)
    ensures Grows(j, CompileLambda(j, Context(me, me)).job, me, 0)
    decreases |j.toks|, 2
  {
    hide CompileNext, BodyGrows;
    var ps := ParseParams(j.toks);
    NewFunction(j, me, []);
    if ps.fault {
      Unmoved(AddFunction(j, []), Fault(AddFunction(j, [])), me);
    } else {
      FunctionGrows(j, SkipDocumentation(AddFunction(j.(toks := ps.rest), ps.names)), me);
    }
  }

  /** The body of a new function is compiled into that function: all the functions there were stay as they are. */
  lemma {:induction false} FunctionGrows(j: Job, k: Job, me: nat)
    requires Open(j, me) && |k.toks| <= |j.toks|
    requires |k.funs| == |j.funs| + 1 && k.funs[..|j.funs|] == j.funs
    requires k.funs[|j.funs|].User? && k.funs[|j.funs|].code == [] && k.funs[|j.funs|].labels == []
    ensures Grows(j, CompileNext(k, Context(|j.funs|, |j.funs|)).job, me, 0)
    decreases |k.toks|, 1, 1
  {
    hide CompileNext;
    NextGrows(k, |j.funs|);
    InnerGrows(j, k, CompileNext(k, Context(|j.funs|, |j.funs|)).job, me);
  }
}
