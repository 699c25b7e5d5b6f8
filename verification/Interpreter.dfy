/** From text to values: lexing, compiling a program and running it on the shared stack. */
module Interpreter {
  import opened Bytecode
  import opened Reader
  import opened Machine
  import opened Grammar
  import opened KeyOrder
  import opened LinkedList
  import opened ValueStack
  import opened GlobalStore
  import opened Programs
  import Meaning
  import LowerCase
  import OnePass
  import SourceMeaning
  import Compiler
  import CompilerLoops
  import DataText
  import Direct
  import Lexing
  import StackMachine
  import TextLoops

  /**
   * Compiles the tokens of a program and runs its main function on an empty stack, with the globals in their tree.
   * What is on the stack in the end, and what the globals are, is what evaluating the source from left to right gives;
   * and the run comes to its end within the clock exactly when that evaluation does. Globals and library come under
   * folded names, as the trees keep them, and tokens as the lexer makes them.
   */
  method Interpret(toks: seq<Token>, g: Globals, funs: Table, p: Builtins, habits: StackMachine.Habits, clock: nat,
                   ghost es: Exprs, ghost d: Meaning.Definitions) returns (vm: StackMachine.Vm, ended: bool)
    requires toks == WriteAll(es, []) && AllWellFormed(es) && OnePass.FormsBound(g, funs) && Library(funs, d)
    requires LowerCase.LowTokens(toks) && LowerCase.LowNames(g) && LowerCase.LowDefinitions(d)
    requires SourceOutcome(es, g, funs, d, p, clock) != Stuck
    ensures fresh(vm) && (ended ==> vm.Valid())
    ensures SourceOutcome(es, g, funs, d, p, clock) == if ended then Done(vm.View()) else Timeout
    ensures Direct.Leaves([], SourceWorth(es, g, funs, d, p, clock), if ended then Done(vm.View()) else Timeout)
  {
    hide Meaning.Eval, Stack.Valid, Store.Valid, StackMachine.Lower, SourceOutcome, SourceWorth, Direct.Leaves;
    hide Library, OnePass.FormsBound;
    hide AllWellFormed, WriteAll, MainOf, Compiler.Compile, LowerCase.LowTokens, LowerCase.LowDefinitions, Fold;
    var t, main, globals := CompileAll(toks, g, funs, es, d);
    vm := new StackMachine.Vm(t, p, habits, clock);
    vm.Load(globals);
    assert map[] + globals == globals;
    ended := RunMain(vm, main, es, g, funs, d);
  }

  method CompileAll(toks: seq<Token>, g: Globals, funs: Table, ghost es: Exprs, ghost d: Meaning.Definitions)
    returns (t: Table, main: nat, globals: Globals)
    requires toks == WriteAll(es, []) && AllWellFormed(es) && OnePass.FormsBound(g, funs) && Library(funs, d)
    requires LowerCase.LowTokens(toks) && LowerCase.LowNames(g) && LowerCase.LowDefinitions(d)
    ensures t == Compiler.Compile(WriteAll(es, []), g, funs).funs && main == |funs|
    ensures globals == MainOf(es, g, funs).after.env && LowerCase.LowNames(globals) && StackMachine.Lower(t)
  {
    var unit := new CompilerLoops.Compilation(toks, g, funs);
    main := unit.Compile();
    t, globals := unit.funs, unit.globals;
    ProgramCompiles(es, g, funs, d);
    LowerCase.WrittenAllLow(es, []);
    LowerCase.CompiledLow(es, g, t, funs, d);
  }

  method RunMain(vm: StackMachine.Vm, main: nat, ghost es: Exprs, ghost g: Globals, ghost funs: Table,
                 ghost d: Meaning.Definitions) returns (ended: bool)
    requires AllWellFormed(es) && OnePass.FormsBound(g, funs) && Library(funs, d) && main == |funs|
    requires vm.Valid() && vm.table == Compiler.Compile(WriteAll(es, []), g, funs).funs
    requires vm.View() == State([], MainOf(es, g, funs).after.env, vm.clock)
    requires SourceOutcome(es, g, funs, d, vm.builtins, vm.clock) != Stuck
    modifies vm`clock, vm.values, vm.values.repr, vm.store, vm.store.parts
    ensures ended ==> vm.Valid()
    ensures SourceOutcome(es, g, funs, d, vm.builtins, old(vm.clock)) == if ended then Done(vm.View()) else Timeout
    ensures Direct.Leaves([], SourceWorth(es, g, funs, d, vm.builtins, old(vm.clock)),
                          if ended then Done(vm.View()) else Timeout)
  {
    hide Direct.Leaves, SourceWorth;
    WorthIsOutcome(es, g, funs, d, vm.builtins, vm.clock);
    var frame := new List<Value>();
    ProgramMeansItsSource(es, g, funs, d, vm.builtins, vm.View());
    ended := vm.Run(main, frame, 0, 0);
  }

  /** What the source says: evaluation on an empty stack with the globals that the program's definitions bind. */
  function SourceOutcome(es: Exprs, g: Globals, funs: Table, d: Meaning.Definitions, p: Builtins, clock: nat): Outcome {
    var s := MainOf(es, g, funs);
    Meaning.Eval(AllDefinitions(es, g, funs, d), p, s.core, [], 0, State([], s.after.env, clock))
  }

  /** What it is worth: the values it leaves, without a stack. */
  function SourceWorth(es: Exprs, g: Globals, funs: Table, d: Meaning.Definitions, p: Builtins, clock: nat)
    : Direct.Worth
  {
    SourceMeaning.WorthOf(es, g, funs, d, p, MainOf(es, g, funs).after.env, clock)
  }

  lemma WorthIsOutcome(es: Exprs, g: Globals, funs: Table, d: Meaning.Definitions, p: Builtins, clock: nat)
    ensures Direct.Leaves([], SourceWorth(es, g, funs, d, p, clock), SourceOutcome(es, g, funs, d, p, clock))
  {
    hide Meaning.Eval, Direct.Of, MainOf, AllDefinitions;
    var s := MainOf(es, g, funs);
    Direct.EvalAgrees(AllDefinitions(es, g, funs, d), p, s.core, [], 0, State([], s.after.env, clock));
  }

  /**
   * The same from a text whose tokens, with any spaces, newlines and comments between them and after a first line for
   * the shell, are those of the program; what numbers are worth is up to `num`.
   */
  method InterpretText(text: string, ghost first: string, ghost lead: string, ghost xs: seq<Lexing.Lexeme>,
                       ghost gaps: seq<string>, num: Lexing.Worth, g: Globals, funs: Table, p: Builtins,
                       habits: StackMachine.Habits, clock: nat, ghost es: Exprs, ghost d: Meaning.Definitions)
    returns (vm: StackMachine.Vm, ended: bool)
    requires |gaps| == |xs| && Lexing.Hashbang(first) && Lexing.Gap(lead) && Lexing.Proper(xs, gaps)
    requires text == first + (lead + Lexing.Spelled(xs, gaps))
    requires Lexing.AllMeant(xs, num) == WriteAll(es, [])
    requires AllWellFormed(es) && OnePass.FormsBound(g, funs) && Library(funs, d)
    requires LowerCase.LowNames(g) && LowerCase.LowDefinitions(d)
    requires SourceOutcome(es, g, funs, d, p, clock) != Stuck
    ensures fresh(vm) && (ended ==> vm.Valid())
    ensures SourceOutcome(es, g, funs, d, p, clock) == if ended then Done(vm.View()) else Timeout
    ensures Direct.Leaves([], SourceWorth(es, g, funs, d, p, clock), if ended then Done(vm.View()) else Timeout)
  {
    hide Lexing.Tokens, Lexing.Proper, Lexing.Spelled, Lexing.AllMeant, Lexing.Gap, WriteAll, AllWellFormed;
    hide OnePass.FormsBound, Library, SourceOutcome, SourceWorth, Direct.Leaves;
    hide LowerCase.LowTokens, LowerCase.LowNames, LowerCase.LowDefinitions;
    var source := new TextLoops.Source(text);
    Lexing.TextLexesBack(first, lead, xs, gaps, num);
    LowerCase.TokensLow(DataText.Device(text, 0, "", 0), num);
    var toks := source.Tokens(num);
    vm, ended := Interpret(toks, g, funs, p, habits, clock, es, d);
  }
}
