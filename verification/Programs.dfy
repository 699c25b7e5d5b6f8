/** Whole programs: what the compiler makes of one means what its source means. */
module Programs {
  import opened Options
  import opened Bytecode
  import opened Reader
  import opened Machine
  import opened Meaning
  import opened Codegen
  import opened Grammar
  import opened Compiler
  import opened Builder
  import opened OnePass
  import Simulation
  import Discipline
  import Runs

  /** A program is a sequence of expressions, one after the other. */
  function ResolveProgram(es: Exprs, sc: Scope): (r: Resolved)
    ensures r.after.params == sc.params && r.after.next == sc.next + |r.made|
  {
    match es
    case NoMore => Resolved(Skip, sc, [])
    case More(e, rest) =>
      var r := Resolve(e, sc);
      var q := ResolveProgram(rest, r.after);
      Resolved(Then(r.core, q.core), q.after, r.made + q.made)
  }

  /** Operand after operand, the loop over the input compiles the whole program. */
  lemma {:induction false} ProgramEmits(es: Exprs, j: Job, me: nat)
    requires AllWellFormed(es) && Sound(j, me) && IsUser(j, me) && j.toks == WriteAll(es, [])
    ensures var r := CompileAll(j, Context(me, me));
      var s := ResolveProgram(es, ScopeOf(j, me));
      r.toks == [] && Emitted(j, r, me, s.core, s.after, s.made)
    decreases es
  {
    hide CompileNext, Emitted, Sound, Write, Resolve;
    match es
    case NoMore => NothingLeft(j, me);
    case More(e, rest) =>
      NextEmits(e, WriteAll(rest, []), j, me);
      var n := CompileNext(j, Context(me, me));
      var s := Resolve(e, ScopeOf(j, me));
      IsSound(j, n.job, me, s.core, s.after, s.made);
      ProgramEmits(rest, n.job, me);
      var q := ResolveProgram(rest, s.after);
      Joins(j, n.job, CompileAll(n.job, Context(me, me)), me, s.core, q.core, s.after, q.after, s.made, q.made);
  }

  lemma NothingLeft(j: Job, me: nat)
    requires Sound(j, me) && IsUser(j, me) && j.toks == []
    ensures CompileAll(j, Context(me, me)) == j && Emitted(j, j, me, Skip, ScopeOf(j, me), [])
  {
    Unmoved(j, j, me);
    assert CompileNext(j, Context(me, me)) == Next(j, None, EOF);
  }

  /** The functions there are before the program: C functions, special forms and finished user functions. */
  predicate Library(funs: Table, d: Definitions) {
    Simulation.Implements(funs, d) && forall i :: 0 <= i < |funs| && funs[i].User? ==> Whole(funs[i], i)
  }

  function MainOf(es: Exprs, g: Globals, funs: Table): Resolved {
    ResolveProgram(es, Scope(g, [], |funs| + 1))
  }

  /** The definitions of the library, of the main program, and of the functions it makes. */
  function AllDefinitions(es: Exprs, g: Globals, funs: Table, d: Definitions): Definitions {
    var s := MainOf(es, g, funs);
    d + [Defined([], s.core)] + s.made
  }

  function StartJob(toks: seq<Token>, g: Globals, funs: Table): Job {
    AddFunction(Job(toks, g, funs, false), [])
  }

  lemma StartIsSound(toks: seq<Token>, g: Globals, funs: Table)
    requires FormsBound(g, funs)
    ensures var j := StartJob(toks, g, funs);
      Sound(j, |funs|) && IsUser(j, |funs|) && ScopeOf(j, |funs|) == Scope(g, [], |funs| + 1)
      && j.funs[|funs|] == User([], [], []) && j.funs[..|funs|] == funs
  {
  }

  /**
   * Compiling a program takes all its tokens without a fault, leaves the globals that its definitions bind, and
   * makes a table of functions in which every function has the code of its source.
   */
  lemma ProgramCompiles(es: Exprs, g: Globals, funs: Table, d: Definitions)
    requires AllWellFormed(es) && FormsBound(g, funs) && Library(funs, d)
    ensures var job := Compile(WriteAll(es, []), g, funs);
      job.toks == [] && !job.fault && job.globals == MainOf(es, g, funs).after.env
      && Simulation.Implements(job.funs, AllDefinitions(es, g, funs, d))
  {
    var m := |funs|;
    var toks := WriteAll(es, []);
    var j := StartJob(toks, g, funs);
    StartIsSound(toks, g, funs);
    ProgramEmits(es, j, m);
    var r := CompileAll(j, Context(m, m));
    var s := MainOf(es, g, funs);
    IsSound(j, r, m, s.core, s.after, s.made);
    var job := Compile(toks, g, funs);
    FunctionsCompiled(j, r, job, m, s, d, AllDefinitions(es, g, funs, d));
  }

  lemma FunctionsCompiled(j: Job, r: Job, job: Job, m: nat, s: Resolved, d: Definitions, all: Definitions)
    requires |j.funs| == m + 1 && j.funs[m] == User([], [], []) && Library(j.funs[..m], d)
    requires Emitted(j, r, m, s.core, s.after, s.made) && IsUser(r, m)
    requires job == WithCode(r, m, DropLastNop(r.funs[m].code))
    requires all == d + [Defined([], s.core)] + s.made
    ensures !job.fault && job.globals == s.after.env && Simulation.Implements(job.funs, all)
  {
    hide Coded, FormsBound, Len, Marks;
    forall id | 0 <= id < |job.funs|
      ensures Simulation.Realizes(job.funs, id, all[id])
    {
      if id < m {
        assert j.funs[id] == j.funs[..m][id] && all[id] == d[id];
        assert Simulation.Realizes(j.funs[..m], id, d[id]);
      } else if id == m {
        MainRealized(j, r, job, m, s);
      } else {
        assert Built(r.funs, m + 1 + (id - m - 1), s.made[id - m - 1]);
        assert Whole(r.funs[id], id);
        BuiltRealizes(r.funs, id, all[id]);
      }
    }
  }

  lemma MainRealized(j: Job, r: Job, job: Job, m: nat, s: Resolved)
    requires |j.funs| == m + 1 && j.funs[m] == User([], [], [])
    requires Emitted(j, r, m, s.core, s.after, s.made) && IsUser(r, m)
    requires job == WithCode(r, m, DropLastNop(r.funs[m].code))
    ensures Simulation.Realizes(job.funs, m, Defined([], s.core))
  {
    hide Coded, FormsBound, Len, Marks, AllBuilt;
    assert job.funs[m].code == Finished(r.funs[m].code);
  }

  lemma BuiltRealizes(funs: Table, id: nat, def: Definition)
    requires Built(funs, id, def) && Whole(funs[id], id)
    ensures Simulation.Realizes(funs, id, def)
  {
    hide Coded, Len, Marks;
    var f := funs[id];
    CodedMoves(DoneBody(f), Simulation.BodyOf(f), id, def.body, 0, 0);
  }

  /**
   * Meaning preservation: for every well-formed program, every library, every clock and every stack to start from,
   * running the compiled main function is evaluating the source from left to right.
   */
  lemma ProgramMeansItsSource(es: Exprs, g: Globals, funs: Table, d: Definitions, p: Builtins, s: State)
    requires AllWellFormed(es) && FormsBound(g, funs) && Library(funs, d)
    ensures Exec(Compile(WriteAll(es, []), g, funs).funs, p, |funs|, Frame(0, 0), 0, s) ==
      Eval(AllDefinitions(es, g, funs, d), p, MainOf(es, g, funs).core, [], 0, s)
  {
    hide Exec, Eval, Compile, Coded, Len, Marks;
    ProgramCompiles(es, g, funs, d);
    var t := Compile(WriteAll(es, []), g, funs).funs;
    var all := AllDefinitions(es, g, funs, d);
    var core := MainOf(es, g, funs).core;
    assert all[|funs|] == Defined([], core);
    assert Simulation.Realizes(t, |funs|, all[|funs|]);
    Simulation.Simulates(t, all, p, core, |funs|, 0, 0, [], Frame(0, 0), s);
    var r := Eval(all, p, core, [], 0, s);
    if r.Done? {
      Simulation.StepEnd(t, p, |funs|, Frame(0, 0), Len(core), r.state);
    }
  }

  // ----- halting -----

  /** Some number of ticks is enough for the run to come to its end with this stack and these globals. */
  ghost predicate MachineHalts(t: Table, p: Builtins, me: nat, g: Globals, stack: seq<Value>, globals: Globals) {
    exists n: nat, left: nat :: Exec(t, p, me, Frame(0, 0), 0, State([], g, n)) == Done(State(stack, globals, left))
  }

  ghost predicate SourceHalts(d: Definitions, p: Builtins, e: Core, g: Globals, stack: seq<Value>, globals: Globals) {
    exists n: nat, left: nat :: Eval(d, p, e, [], 0, State([], g, n)) == Done(State(stack, globals, left))
  }

  /** The machine halts exactly when the evaluation of the source does, and with the same result. */
  lemma HaltsWithItsSource(es: Exprs, g: Globals, funs: Table, d: Definitions, p: Builtins, stack: seq<Value>,
                           globals: Globals)
    requires AllWellFormed(es) && FormsBound(g, funs) && Library(funs, d)
    ensures var job := Compile(WriteAll(es, []), g, funs);
      MachineHalts(job.funs, p, |funs|, job.globals, stack, globals) <==>
      SourceHalts(AllDefinitions(es, g, funs, d), p, MainOf(es, g, funs).core, job.globals, stack, globals)
  {
    hide Exec, Eval, Compile, MainOf, AllDefinitions;
    var job := Compile(WriteAll(es, []), g, funs);
    forall n: nat
      ensures Exec(job.funs, p, |funs|, Frame(0, 0), 0, State([], job.globals, n)) ==
        Eval(AllDefinitions(es, g, funs, d), p, MainOf(es, g, funs).core, [], 0, State([], job.globals, n))
    {
      ProgramMeansItsSource(es, g, funs, d, p, State([], job.globals, n));
    }
  }

  /** The result of a run that halts is one only. */
  lemma OneResult(t: Table, p: Builtins, me: nat, g: Globals, stack: seq<Value>, globals: Globals,
                  stack2: seq<Value>, globals2: Globals)
    requires MachineHalts(t, p, me, g, stack, globals) && MachineHalts(t, p, me, g, stack2, globals2)
    ensures stack == stack2 && globals == globals2
  {
    hide Exec;
    var n: nat, left: nat :| Exec(t, p, me, Frame(0, 0), 0, State([], g, n)) == Done(State(stack, globals, left));
    var n2: nat, left2: nat :| Exec(t, p, me, Frame(0, 0), 0, State([], g, n2)) == Done(State(stack2, globals2, left2));
    if n <= n2 {
      Runs.ClockIsOnlyPatience(t, p, me, Frame(0, 0), 0, State([], g, n), n2 - n);
    } else {
      Runs.ClockIsOnlyPatience(t, p, me, Frame(0, 0), 0, State([], g, n2), n - n2);
    }
  }

  // ----- programs that keep the stack discipline -----

  /** A sequence of `n` expressions, each of which pushes one value. */
  predicate Lines(d: Definitions, sig: Discipline.Signature, e: Core, n: nat) {
    match e
    case Skip => n == 0
    case Then(a, b) => n > 0 && Discipline.OneValued(d, sig, 0, a) && Lines(d, sig, b, n - 1)
    case _ => false
  }

  lemma {:induction false} LinesPush(d: Definitions, sig: Discipline.Signature, p: Builtins, e: Core, n: nat, s: State)
    requires Discipline.Disciplined(d, sig) && Discipline.Returning(d, sig, p) && Discipline.Conforms(d, sig, s.globals)
    requires Lines(d, sig, e, n)
    ensures Discipline.Pushes(d, sig, n, s, Eval(d, p, e, [], 0, s))
  {
    hide Discipline.Conforms, Discipline.Disciplined, Discipline.Returning;
    match e
    case Skip =>
    case Then(a, b) =>
      Discipline.PushesOne(d, sig, p, a, [], 0, s);
      var r := Eval(d, p, a, [], 0, s);
      if r.Done? {
        LinesPush(d, sig, p, b, n - 1, r.state);
        var q := Eval(d, p, b, [], 0, r.state);
        if q.Done? {
          assert q.state.stack[..|s.stack|] == q.state.stack[..|r.state.stack|][..|s.stack|];
        }
      }
  }

  /** A compiled program of `n` disciplined expressions never gets stuck, and ends with exactly `n` values. */
  lemma DisciplinedProgramRuns(es: Exprs, g: Globals, funs: Table, d: Definitions, p: Builtins,
                               all: Definitions, sig: Discipline.Signature, n: nat, s: State)
    requires AllWellFormed(es) && FormsBound(g, funs) && Library(funs, d) && all == AllDefinitions(es, g, funs, d)
    requires Lines(all, sig, MainOf(es, g, funs).core, n) && Discipline.Disciplined(all, sig)
    requires Discipline.Returning(all, sig, p) && Discipline.Conforms(all, sig, s.globals)
    ensures Discipline.Pushes(all, sig, n, s,
      Exec(Compile(WriteAll(es, []), g, funs).funs, p, |funs|, Frame(0, 0), 0, s))
  {
    hide *;
    ProgramMeansItsSource(es, g, funs, d, p, s);
    LinesPush(all, sig, p, MainOf(es, g, funs).core, n, s);
  }

  // ----- any tokens whatever -----

  lemma {:induction false} AllGrows(j: Job, me: nat)
    requires Open(j, me)
    ensures Grows(j, CompileAll(j, Context(me, me)), me, 0)
    decreases |j.toks|
  {
    hide CompileNext, Grows, Open;
    NextGrows(j, me);
    var n := CompileNext(j, Context(me, me));
    StaysOpen(j, n.job, me);
    if n.tok != EOF {
      AllGrows(n.job, me);
      GrowsOn(j, n.job, CompileAll(n.job, Context(me, me)), me, 0);
    }
  }

  /** Whatever the tokens: in every function all labels are bound, and every jump goes to its own function's code. */
  lemma JumpsStayHome(toks: seq<Token>, g: Globals, funs: Table)
    requires forall i :: 0 <= i < |funs| && funs[i].User? ==> Whole(funs[i], i)
    ensures var t := CompileAll(StartJob(toks, g, funs), Context(|funs|, |funs|)).funs;
      |funs| < |t| && forall i :: 0 <= i < |t| && t[i].User? ==> Whole(t[i], i)
  {
    hide CompileAll;
    var j := StartJob(toks, g, funs);
    var m := |funs|;
    AllGrows(j, m);
    var t := CompileAll(j, Context(m, m)).funs;
    forall i | 0 <= i < |t| && t[i].User?
      ensures Whole(t[i], i)
    {
      if i < m {
        assert t[i] == j.funs[i] == funs[i];
      }
    }
  }

  /** And taking the last NOP off the main program changes no run of any of the functions. */
  lemma DroppingChangesNoRun(toks: seq<Token>, g: Globals, funs: Table, p: Builtins, cur: nat, fr: Frame, pc: nat,
                             s: State)
    requires forall i :: 0 <= i < |funs| && funs[i].User? ==> Whole(funs[i], i)
    requires fr.base + fr.argc <= |s.stack|
    ensures var t := CompileAll(StartJob(toks, g, funs), Context(|funs|, |funs|)).funs;
      Exec(Compile(toks, g, funs).funs, p, cur, fr, pc, s) == Exec(t, p, cur, fr, pc, s)
  {
    hide Exec, CompileAll;
    var m := |funs|;
    var j := StartJob(toks, g, funs);
    JumpsStayHome(toks, g, funs);
    AllGrows(j, m);
    var t := CompileAll(j, Context(m, m)).funs;
    var u := Compile(toks, g, funs).funs;
    assert Whole(t[m], m);
    if t[m].code == [] {
      assert u == t;
    } else {
      forall l: LabelRef | Destination(t, l).Bound? && Destination(t, l).ir == m
        ensures Destination(t, l).pc < |t[m].code|
      {
        assert Whole(t[l.owner], l.owner);
        assert Home(t[l.owner].labels[l.number], l.owner, |t[l.owner].code|);
      }
      Runs.FinalNopIsUnused(t, m, p, cur, fr, pc, s);
      assert u == Runs.WithoutLast(t, m);
    }
  }
}
