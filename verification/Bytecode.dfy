/**
 * Values, bytecode and functions of the interpreter, and the builder that appends instructions.
 * A name stands for an interned symbol, so equal names are the same symbol.
 */
module Bytecode {
  import opened Options

  /** Numbers stay opaque: only their identity matters here. A function is an index into the table of functions. */
  datatype Value =
    | Nil
    | True
    | Num(n: int)
    | Str(s: string)
    | Sym(name: string)
    | List(items: seq<Value>)
    | Fun(id: nat)

  type Globals = map<string, Value>

  /** PUSH of None is the NULL operand that a token which is no value leaves behind. */
  datatype Instr =
    | NOP
    | PUSH(arg: Option<Value>)
    | LOAD(index: nat)
    | CALL(sym: string, fn: Option<nat>, argc: nat)
    | GET(sym: string)
    | SET(sym: string)
    | JMP(target: LabelRef)
    | JN(target: LabelRef)

  /** The label numbered `number` in the label list of function `owner`. */
  datatype LabelRef = LabelRef(owner: nat, number: nat)

  /** A label that is bound denotes instruction `pc` of the code of function `ir`. */
  datatype Label = Unbound | Bound(ir: nat, pc: nat)

  datatype Form = SIf | SWhen | SWhile | SSet | SDefun | SLambda

  /** The C functions that call functions of the program: map, foldl, times and its variant with an index. */
  datatype Iteration = Mapping | Folding | Repeating(indexed: bool)

  datatype Function =
    | CFun(cid: nat)
    | Iter(kind: Iteration)
    | Special(form: Form)
    | User(params: seq<string>, code: seq<Instr>, labels: seq<Label>)

  type Table = seq<Function>

  /** The position of a name in a parameter list, first occurrence. */
  function ArgumentFinder(params: seq<string>, name: string): (r: Option<nat>)
    ensures r.Some? ==> r.value < |params| && params[r.value] == name && name !in params[..r.value]
    ensures r.None? ==> name !in params
  {
    if params == [] then None
    else if params[0] == name then Some(0)
    else
      var r := ArgumentFinder(params[1..], name);
      if r.None? then None
      else
        assert params[..r.value + 1] == [params[0]] + params[1..][..r.value];
        Some(r.value + 1)
  }

  // ----- the builder: the last instruction is always a NOP in waiting -----

  function CreateOrGet(code: seq<Instr>): (r: seq<Instr>)
    ensures r != []
  {
    if code == [] then [NOP] else code
  }

  /** The waiting NOP becomes `i`, and a new NOP waits after it. */
  function Build(code: seq<Instr>, i: Instr): seq<Instr> {
    var c := CreateOrGet(code);
    c[|c| - 1 := i] + [NOP]
  }

  /** `code` is the finished instructions `done` and, unless nothing was ever built, the waiting NOP. */
  predicate Waiting(code: seq<Instr>, done: seq<Instr>) {
    code == done + [NOP] || (code == [] && done == [])
  }

  /** Building never rewrites a finished instruction: it adds exactly one. */
  lemma BuildAppends(code: seq<Instr>, done: seq<Instr>, i: Instr)
    requires Waiting(code, done)
    ensures Build(code, i) == done + [i] + [NOP] && Waiting(Build(code, i), done + [i])
  {
  }
}
