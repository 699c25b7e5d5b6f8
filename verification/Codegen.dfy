/** The jump code of a structured expression: the scheme that every compiled piece of code must follow. */
module Codegen {
  import opened Options
  import opened Bytecode
  import opened Meaning

  /** How many instructions an expression takes. */
  function Len(e: Core): nat {
    match e
    case Skip => 0
    case Const(_) => 1
    case Param(_) => 1
    case Global(_) => 1
    case App(_, _, es) => LenAll(es) + 1
    case NoApp(es) => LenAll(es) + 1
    case Then(a, b) => Len(a) + Len(b)
    case If(c, a, b) => Len(c) + Len(a) + Len(b) + 2
    case When(c, b) => Len(c) + Len(b) + 1
    case While(c, b) => Len(c) + Len(b) + 2
    case Assign(_, a) => Len(a) + 1
  }

  function LenAll(es: Cores): nat {
    match es
    case End => 0
    case Cons(e, rest) => Len(e) + LenAll(rest)
  }

  /** How many labels an expression takes. */
  function Marks(e: Core): nat {
    match e
    case Skip => 0
    case Const(_) => 0
    case Param(_) => 0
    case Global(_) => 0
    case App(_, _, es) => MarksAll(es)
    case NoApp(es) => MarksAll(es)
    case Then(a, b) => Marks(a) + Marks(b)
    case If(c, a, b) => 2 + Marks(c) + Marks(a) + Marks(b)
    case When(c, b) => 1 + Marks(c) + Marks(b)
    case While(c, b) => 2 + Marks(c) + Marks(b)
    case Assign(_, a) => Marks(a)
  }

  function MarksAll(es: Cores): nat {
    match es
    case End => 0
    case Cons(e, rest) => Marks(e) + MarksAll(rest)
  }

  /** The body of a function: its instructions and what its labels are bound to. */
  datatype Body = Body(code: seq<Instr>, labels: seq<Label>)

  predicate Op(b: Body, at: nat, i: Instr) {
    at < |b.code| && b.code[at] == i
  }

  predicate Mark(b: Body, l: nat, me: nat, pc: nat) {
    l < |b.labels| && b.labels[l] == Bound(me, pc) && pc <= |b.code|
  }

  predicate Room(b: Body, at: nat, n: nat, l: nat, m: nat) {
    at + n <= |b.code| && l + m <= |b.labels|
  }

  /** In body `b` of function `me` the code of `e` stands at instruction `at`, its labels are numbered from `l`. */
  predicate Coded(b: Body, me: nat, e: Core, at: nat, l: nat)
    decreases e, 1
  {
    match e
    case Skip => Room(b, at, 0, l, 0)
    case Const(v) => Room(b, at, 1, l, 0) && Op(b, at, PUSH(Some(v)))
    case Param(i) => Room(b, at, 1, l, 0) && Op(b, at, LOAD(i))
    case Global(x) => Room(b, at, 1, l, 0) && Op(b, at, GET(x))
    case App(x, fn, es) => CodedAll(b, me, es, at, l) && Op(b, at + LenAll(es), CALL(x, fn, Count(es)))
    case NoApp(es) => CodedAll(b, me, es, at, l) && Op(b, at + LenAll(es), PUSH(Some(Nil)))
    case Then(_, _) => CodedThen(b, me, e, at, l)
    case If(_, _, _) => CodedIf(b, me, e, at, l)
    case When(_, _) => CodedWhen(b, me, e, at, l)
    case While(_, _) => CodedWhile(b, me, e, at, l)
    case Assign(_, _) => CodedAssign(b, me, e, at, l)
  }

  predicate CodedAll(b: Body, me: nat, es: Cores, at: nat, l: nat)
    decreases es, 1
  {
    match es
    case End => Room(b, at, 0, l, 0)
    case Cons(e, rest) => Coded(b, me, e, at, l) && CodedAll(b, me, rest, at + Len(e), l + Marks(e))
  }

  predicate CodedThen(b: Body, me: nat, e: Core, at: nat, l: nat)
    requires e.Then?
    decreases e, 0
  {
    Coded(b, me, e.first, at, l) && Coded(b, me, e.second, at + Len(e.first), l + Marks(e.first))
  }

  predicate CodedAssign(b: Body, me: nat, e: Core, at: nat, l: nat)
    requires e.Assign?
    decreases e, 0
  {
    Coded(b, me, e.arg, at, l) && Op(b, at + Len(e.arg), SET(e.name))
  }

  predicate CodedIf(b: Body, me: nat, e: Core, at: nat, l: nat)
    requires e.If?
    decreases e, 0
  {
    var yes := at + Len(e.cond) + 1;
    var no := yes + Len(e.yes) + 1;
    Coded(b, me, e.cond, at, l + 2)
    && Op(b, yes - 1, JN(LabelRef(me, l + 1)))
    && Coded(b, me, e.yes, yes, l + 2 + Marks(e.cond))
    && Op(b, no - 1, JMP(LabelRef(me, l)))
    && Mark(b, l + 1, me, no)
    && Coded(b, me, e.no, no, l + 2 + Marks(e.cond) + Marks(e.yes))
    && Mark(b, l, me, no + Len(e.no))
  }

  predicate CodedWhen(b: Body, me: nat, e: Core, at: nat, l: nat)
    requires e.When?
    decreases e, 0
  {
    var yes := at + Len(e.cond) + 1;
    Coded(b, me, e.cond, at, l + 1)
    && Op(b, yes - 1, JN(LabelRef(me, l)))
    && Coded(b, me, e.body, yes, l + 1 + Marks(e.cond))
    && Mark(b, l, me, yes + Len(e.body))
  }

  predicate CodedWhile(b: Body, me: nat, e: Core, at: nat, l: nat)
    requires e.While?
    decreases e, 0
  {
    var yes := at + Len(e.cond) + 1;
    Mark(b, l, me, at)
    && Coded(b, me, e.cond, at, l + 2)
    && Op(b, yes - 1, JN(LabelRef(me, l + 1)))
    && Coded(b, me, e.body, yes, l + 2 + Marks(e.cond))
    && Op(b, yes + Len(e.body), JMP(LabelRef(me, l)))
    && Mark(b, l + 1, me, yes + Len(e.body) + 1)
  }

  // ----- one step of the scheme at a time -----

  lemma UnfoldSkip(b: Body, me: nat, at: nat, l: nat)
    ensures Coded(b, me, Skip, at, l) == Room(b, at, 0, l, 0) && Len(Skip) == 0 && Marks(Skip) == 0
  {
  }

  lemma UnfoldApp(b: Body, me: nat, e: Core, at: nat, l: nat)
    requires e.App?
    ensures Coded(b, me, e, at, l) ==
      (CodedAll(b, me, e.args, at, l) && Op(b, at + LenAll(e.args), CALL(e.name, e.fn, Count(e.args))))
    ensures Len(e) == LenAll(e.args) + 1
  {
    hide CodedAll, LenAll;
  }

  lemma UnfoldNoApp(b: Body, me: nat, e: Core, at: nat, l: nat)
    requires e.NoApp?
    ensures Coded(b, me, e, at, l) ==
      (CodedAll(b, me, e.args, at, l) && Op(b, at + LenAll(e.args), PUSH(Some(Nil))))
    ensures Len(e) == LenAll(e.args) + 1
  {
    hide CodedAll, LenAll;
  }

  lemma UnfoldCons(b: Body, me: nat, es: Cores, at: nat, l: nat)
    requires es.Cons?
    ensures CodedAll(b, me, es, at, l) ==
      (Coded(b, me, es.head, at, l) && CodedAll(b, me, es.tail, at + Len(es.head), l + Marks(es.head)))
    ensures LenAll(es) == Len(es.head) + LenAll(es.tail) && MarksAll(es) == Marks(es.head) + MarksAll(es.tail)
  {
    hide Coded, Len, Marks;
  }

  lemma UnfoldThen(b: Body, me: nat, e: Core, at: nat, l: nat)
    requires e.Then?
    ensures Coded(b, me, e, at, l) == CodedThen(b, me, e, at, l)
    ensures Len(e) == Len(e.first) + Len(e.second) && Marks(e) == Marks(e.first) + Marks(e.second)
  {
    hide CodedThen;
  }

  lemma UnfoldIf(b: Body, me: nat, e: Core, at: nat, l: nat)
    requires e.If?
    ensures Coded(b, me, e, at, l) == CodedIf(b, me, e, at, l)
    ensures Len(e) == Len(e.cond) + Len(e.yes) + Len(e.no) + 2
      && Marks(e) == Marks(e.cond) + Marks(e.yes) + Marks(e.no) + 2
  {
    hide CodedIf;
  }

  lemma UnfoldWhen(b: Body, me: nat, e: Core, at: nat, l: nat)
    requires e.When?
    ensures Coded(b, me, e, at, l) == CodedWhen(b, me, e, at, l)
    ensures Len(e) == Len(e.cond) + Len(e.body) + 1 && Marks(e) == Marks(e.cond) + Marks(e.body) + 1
  {
    hide CodedWhen;
  }

  lemma UnfoldWhile(b: Body, me: nat, e: Core, at: nat, l: nat)
    requires e.While?
    ensures Coded(b, me, e, at, l) == CodedWhile(b, me, e, at, l)
    ensures Len(e) == Len(e.cond) + Len(e.body) + 2 && Marks(e) == Marks(e.cond) + Marks(e.body) + 2
  {
    hide CodedWhile;
  }

  lemma UnfoldAssign(b: Body, me: nat, e: Core, at: nat, l: nat)
    requires e.Assign?
    ensures Coded(b, me, e, at, l) == CodedAssign(b, me, e, at, l)
    ensures Len(e) == Len(e.arg) + 1 && Marks(e) == Marks(e.arg)
  {
    hide CodedAssign;
  }

  // ----- code that is in place stays in place -----

  predicate Agree(a: Body, b: Body, at: nat, n: nat, l: nat, m: nat) {
    Room(a, at, n, l, m) && Room(b, at, n, l, m)
    && (forall k :: at <= k < at + n ==> a.code[k] == b.code[k])
    && (forall k :: l <= k < l + m ==> a.labels[k] == b.labels[k])
  }

  /** What is in place stays in place when the piece of the body it takes up does not change. */
  lemma {:induction false} CodedMoves(a: Body, b: Body, me: nat, e: Core, at: nat, l: nat)
    requires Coded(a, me, e, at, l) && Agree(a, b, at, Len(e), l, Marks(e)) && |a.code| <= |b.code|
    ensures Coded(b, me, e, at, l)
    decreases e, 1
  {
    hide CodedAll, CodedThen, CodedIf, CodedWhen, CodedWhile, CodedAssign;
    match e
    case App(_, _, es) => CodedAllMoves(a, b, me, es, at, l);
    case NoApp(es) => CodedAllMoves(a, b, me, es, at, l);
    case Then(_, _) => CodedThenMoves(a, b, me, e, at, l);
    case If(_, _, _) => CodedIfMoves(a, b, me, e, at, l);
    case When(_, _) => CodedWhenMoves(a, b, me, e, at, l);
    case While(_, _) => CodedWhileMoves(a, b, me, e, at, l);
    case Assign(_, _) => CodedAssignMoves(a, b, me, e, at, l);
    case _ =>
  }

  lemma {:induction false} CodedThenMoves(a: Body, b: Body, me: nat, e: Core, at: nat, l: nat)
    requires e.Then? && CodedThen(a, me, e, at, l) && |a.code| <= |b.code|
    requires Agree(a, b, at, Len(e.first) + Len(e.second), l, Marks(e.first) + Marks(e.second))
    ensures CodedThen(b, me, e, at, l)
    decreases e, 0
  {
    hide Coded, Len, Marks;
    CodedMoves(a, b, me, e.first, at, l);
    CodedMoves(a, b, me, e.second, at + Len(e.first), l + Marks(e.first));
  }

  lemma {:induction false} CodedAssignMoves(a: Body, b: Body, me: nat, e: Core, at: nat, l: nat)
    requires e.Assign? && CodedAssign(a, me, e, at, l) && |a.code| <= |b.code|
    requires Agree(a, b, at, Len(e.arg) + 1, l, Marks(e.arg))
    ensures CodedAssign(b, me, e, at, l)
    decreases e, 0
  {
    hide Coded, Len, Marks;
    CodedMoves(a, b, me, e.arg, at, l);
  }

  lemma {:induction false} CodedIfMoves(a: Body, b: Body, me: nat, e: Core, at: nat, l: nat)
    requires e.If? && CodedIf(a, me, e, at, l) && |a.code| <= |b.code|
    requires Agree(a, b, at, Len(e.cond) + Len(e.yes) + Len(e.no) + 2,
                   l, 2 + Marks(e.cond) + Marks(e.yes) + Marks(e.no))
    ensures CodedIf(b, me, e, at, l)
    decreases e, 0
  {
    hide Coded, Len, Marks;
    CodedMoves(a, b, me, e.cond, at, l + 2);
    CodedMoves(a, b, me, e.yes, at + Len(e.cond) + 1, l + 2 + Marks(e.cond));
    CodedMoves(a, b, me, e.no, at + Len(e.cond) + Len(e.yes) + 2, l + 2 + Marks(e.cond) + Marks(e.yes));
  }

  lemma {:induction false} CodedWhenMoves(a: Body, b: Body, me: nat, e: Core, at: nat, l: nat)
    requires e.When? && CodedWhen(a, me, e, at, l) && |a.code| <= |b.code|
    requires Agree(a, b, at, Len(e.cond) + Len(e.body) + 1, l, 1 + Marks(e.cond) + Marks(e.body))
    ensures CodedWhen(b, me, e, at, l)
    decreases e, 0
  {
    hide Coded, Len, Marks;
    CodedMoves(a, b, me, e.cond, at, l + 1);
    CodedMoves(a, b, me, e.body, at + Len(e.cond) + 1, l + 1 + Marks(e.cond));
  }

  lemma {:induction false} CodedWhileMoves(a: Body, b: Body, me: nat, e: Core, at: nat, l: nat)
    requires e.While? && CodedWhile(a, me, e, at, l) && |a.code| <= |b.code|
    requires Agree(a, b, at, Len(e.cond) + Len(e.body) + 2, l, 2 + Marks(e.cond) + Marks(e.body))
    ensures CodedWhile(b, me, e, at, l)
    decreases e, 0
  {
    hide Coded, Len, Marks;
    CodedMoves(a, b, me, e.cond, at, l + 2);
    CodedMoves(a, b, me, e.body, at + Len(e.cond) + 1, l + 2 + Marks(e.cond));
  }

  lemma {:induction false} CodedAllMoves(a: Body, b: Body, me: nat, es: Cores, at: nat, l: nat)
    requires CodedAll(a, me, es, at, l) && Agree(a, b, at, LenAll(es), l, MarksAll(es)) && |a.code| <= |b.code|
    ensures CodedAll(b, me, es, at, l)
    decreases es, 1
  {
    hide Coded, Len, Marks;
    match es
    case End =>
    case Cons(e, rest) =>
      UnfoldCons(a, me, es, at, l);
      UnfoldCons(b, me, es, at, l);
      CodedMoves(a, b, me, e, at, l);
      CodedAllMoves(a, b, me, rest, at + Len(e), l + Marks(e));
  }

  // ----- the scheme leaves no choice -----

  /** Two bodies that hold the code of `e` at the same place have the same instructions and labels there. */
  lemma {:induction false} CodedDetermines(a: Body, b: Body, me: nat, e: Core, at: nat, l: nat)
    requires Coded(a, me, e, at, l) && Coded(b, me, e, at, l)
    ensures Agree(a, b, at, Len(e), l, Marks(e))
    decreases e, 1
  {
    hide CodedAll, CodedThen, CodedIf, CodedWhen, CodedWhile, CodedAssign;
    match e
    case App(_, _, es) => CodedAllDetermines(a, b, me, es, at, l);
    case NoApp(es) => CodedAllDetermines(a, b, me, es, at, l);
    case Then(_, _) => ThenDetermines(a, b, me, e, at, l);
    case If(_, _, _) => IfDetermines(a, b, me, e, at, l);
    case When(_, _) => WhenDetermines(a, b, me, e, at, l);
    case While(_, _) => WhileDetermines(a, b, me, e, at, l);
    case Assign(_, _) => AssignDetermines(a, b, me, e, at, l);
    case _ =>
  }

  lemma {:induction false} CodedAllDetermines(a: Body, b: Body, me: nat, es: Cores, at: nat, l: nat)
    requires CodedAll(a, me, es, at, l) && CodedAll(b, me, es, at, l)
    ensures Agree(a, b, at, LenAll(es), l, MarksAll(es))
    decreases es, 1
  {
    hide Coded, Len, Marks;
    match es
    case End =>
    case Cons(e, rest) =>
      UnfoldCons(a, me, es, at, l);
      UnfoldCons(b, me, es, at, l);
      CodedDetermines(a, b, me, e, at, l);
      CodedAllDetermines(a, b, me, rest, at + Len(e), l + Marks(e));
  }

  lemma {:induction false} ThenDetermines(a: Body, b: Body, me: nat, e: Core, at: nat, l: nat)
    requires e.Then? && CodedThen(a, me, e, at, l) && CodedThen(b, me, e, at, l)
    ensures Agree(a, b, at, Len(e.first) + Len(e.second), l, Marks(e.first) + Marks(e.second))
    decreases e, 0
  {
    hide Coded, Len, Marks;
    CodedDetermines(a, b, me, e.first, at, l);
    CodedDetermines(a, b, me, e.second, at + Len(e.first), l + Marks(e.first));
  }

  lemma {:induction false} AssignDetermines(a: Body, b: Body, me: nat, e: Core, at: nat, l: nat)
    requires e.Assign? && CodedAssign(a, me, e, at, l) && CodedAssign(b, me, e, at, l)
    ensures Agree(a, b, at, Len(e.arg) + 1, l, Marks(e.arg))
    decreases e, 0
  {
    hide Coded, Len, Marks;
    CodedDetermines(a, b, me, e.arg, at, l);
  }

  lemma {:induction false} IfDetermines(a: Body, b: Body, me: nat, e: Core, at: nat, l: nat)
    requires e.If? && CodedIf(a, me, e, at, l) && CodedIf(b, me, e, at, l)
    ensures Agree(a, b, at, Len(e.cond) + Len(e.yes) + Len(e.no) + 2,
                  l, 2 + Marks(e.cond) + Marks(e.yes) + Marks(e.no))
    decreases e, 0
  {
    hide Coded, Len, Marks;
    CodedDetermines(a, b, me, e.cond, at, l + 2);
    CodedDetermines(a, b, me, e.yes, at + Len(e.cond) + 1, l + 2 + Marks(e.cond));
    CodedDetermines(a, b, me, e.no, at + Len(e.cond) + Len(e.yes) + 2, l + 2 + Marks(e.cond) + Marks(e.yes));
  }

  lemma {:induction false} WhenDetermines(a: Body, b: Body, me: nat, e: Core, at: nat, l: nat)
    requires e.When? && CodedWhen(a, me, e, at, l) && CodedWhen(b, me, e, at, l)
    ensures Agree(a, b, at, Len(e.cond) + Len(e.body) + 1, l, 1 + Marks(e.cond) + Marks(e.body))
    decreases e, 0
  {
    hide Coded, Len, Marks;
    CodedDetermines(a, b, me, e.cond, at, l + 1);
    CodedDetermines(a, b, me, e.body, at + Len(e.cond) + 1, l + 1 + Marks(e.cond));
  }

  lemma {:induction false} WhileDetermines(a: Body, b: Body, me: nat, e: Core, at: nat, l: nat)
    requires e.While? && CodedWhile(a, me, e, at, l) && CodedWhile(b, me, e, at, l)
    ensures Agree(a, b, at, Len(e.cond) + Len(e.body) + 2, l, 2 + Marks(e.cond) + Marks(e.body))
    decreases e, 0
  {
    hide Coded, Len, Marks;
    CodedDetermines(a, b, me, e.cond, at, l + 2);
    CodedDetermines(a, b, me, e.body, at + Len(e.cond) + 1, l + 2 + Marks(e.cond));
  }
}
