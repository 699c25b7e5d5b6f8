/**
 * The virtual machine: running the bytecode of a function over one shared stack.
 * A run is watched for a number of clock ticks; a call of a user function and a jump backwards use one up.
 */
module Machine {
  import opened Options
  import opened Bytecode
  import opened Settings

  datatype State = State(stack: seq<Value>, globals: Globals, clock: nat)

  /**
   * Done: the run came to its end. Timeout: the clock ran out first. Stuck: the run left what the code keeps to
   * (took an entry below its own part of the stack, read a parameter that was not passed, jumped to no instruction).
   */
  datatype Outcome = Done(state: State) | Timeout | Stuck

  datatype Returned = Returned(value: Option<Value>, settings: seq<Setting<Value>>)

  /** What a C function does with the arguments in its frame: a value, None for NULL, and the globals that it sets. */
  type Builtins = (nat, seq<Value>, Globals) -> Returned

  /** The window of the stack that holds the arguments of the running call. */
  datatype Frame = Frame(base: nat, argc: nat)

  function Push(s: State, v: Value): State {
    s.(stack := s.stack + [v])
  }

  function Lookup(g: Globals, x: string): Value {
    if x in g then g[x] else Nil
  }

  /** SET leaves the value on the stack. */
  function SetTop(s: State, x: string): State {
    if s.stack == [] then s else s.(globals := s.globals[x := s.stack[|s.stack| - 1]])
  }

  datatype Popped = Popped(isNil: bool, state: State)

  /** The condition of a jump: an empty stack counts as nil. */
  function PopCondition(floor: nat, s: State): (r: Option<Popped>)
    ensures r.Some? && floor <= |s.stack| ==> Keeps(floor, s, r.value.state)
  {
    var n := |s.stack|;
    if n == 0 then Some(Popped(true, s))
    else if n <= floor then None
    else Some(Popped(s.stack[n - 1] == Nil, s.(stack := s.stack[..n - 1])))
  }

  /** Everything below `floor` is as it was, and no tick was given back. */
  predicate Keeps(floor: nat, s: State, r: State) {
    floor <= |s.stack| && floor <= |r.stack| && r.stack[..floor] == s.stack[..floor] && r.clock <= s.clock
  }

  /** The function a call refers to: resolved early, or now by its name. */
  function Callee(fn: Option<nat>, x: string, g: Globals): Option<nat> {
    if fn.Some? then fn
    else if x in g && g[x].Fun? then Some(g[x].id)
    else None
  }

  /** A C function: whatever it took from its frame, the rest of the frame is destroyed. */
  function CallBuiltin(p: Builtins, cid: nat, argc: nat, s: State): State
    requires argc <= |s.stack|
  {
    var n := |s.stack| - argc;
    var r := p(cid, s.stack[n..], s.globals);
    State(s.stack[..n] + (if r.value.Some? then [r.value.value] else []), SetEach(s.globals, r.settings), s.clock)
  }

  /** The arguments leave from under whatever the body pushed. */
  function DestroyFrame(fr: Frame, s: State): State
    requires fr.base + fr.argc <= |s.stack|
  {
    s.(stack := s.stack[..fr.base] + s.stack[fr.base + fr.argc..])
  }

  lemma DestroyKeeps(fr: Frame, floor: nat, s: State, r: State)
    requires floor <= fr.base && fr.base + fr.argc <= |s.stack| && fr.base + fr.argc <= |r.stack| && r.clock <= s.clock
    requires r.stack[..fr.base + fr.argc] == s.stack[..fr.base + fr.argc]
    ensures Keeps(floor, s, DestroyFrame(fr, r))
  {
    var n := fr.base + fr.argc;
    assert r.stack[..floor] == r.stack[..n][..floor] == s.stack[..n][..floor] == s.stack[..floor];
  }

  /** What lies below the arguments lies below the floor too. */
  lemma KeepsLess(base: nat, floor: nat, s: State, r: State)
    requires floor <= base && base <= |s.stack| && base <= |r.stack| && r.stack[..base] == s.stack[..base]
      && r.clock <= s.clock
    ensures Keeps(floor, s, r)
  {
    assert r.stack[..floor] == r.stack[..base][..floor] == s.stack[..base][..floor];
  }

  // ----- what functions that call functions want and do -----

  datatype Want = Anything | ANumber | AString | ASymbol | AList | AFunction

  predicate IsA(v: Value, w: Want) {
    match w
    case Anything => true
    case ANumber => v.Num?
    case AString => v.Str?
    case ASymbol => v.Sym?
    case AList => v.List?
    case AFunction => v.Fun?
  }

  /** As many arguments as are wanted, each of the type that is wanted. */
  predicate WellTyped(args: seq<Value>, wants: seq<Want>) {
    |args| == |wants| && forall i :: 0 <= i < |args| ==> IsA(args[i], wants[i])
  }

  function Wants(k: Iteration): seq<Want> {
    match k
    case Mapping => [AList, AFunction]
    case Folding => [Anything, AList, AFunction]
    case Repeating(_) => [ANumber, AFunction]
  }

  function CalledBack(k: Iteration, args: seq<Value>): nat
    requires WellTyped(args, Wants(k))
  {
    args[|args| - 1].id
  }

  /** The elements of the list, or the numbers up to the one given; none for a negative number. */
  function Inputs(k: Iteration, args: seq<Value>): seq<Value>
    requires WellTyped(args, Wants(k))
  {
    match k
    case Mapping => args[0].items
    case Folding => args[1].items
    case Repeating(_) => Numbers(args[0].n)
  }

  function Numbers(n: int): (r: seq<Value>)
    ensures |r| == (if n < 0 then 0 else n) && forall i :: 0 <= i < |r| ==> r[i] == Num(i)
  {
    if n <= 0 then [] else Numbers(n - 1) + [Num(n - 1)]
  }

  function Start(k: Iteration, args: seq<Value>): Value
    requires WellTyped(args, Wants(k))
  {
    if k.Folding? then args[0] else List([])
  }

  function LoopArguments(k: Iteration, acc: Value, x: Value): seq<Value> {
    match k
    case Mapping => [x]
    case Folding => [acc, x]
    case Repeating(indexed) => if indexed then [x] else []
  }

  /** The fold goes on with the result, the others append it to their list. */
  function Gather(k: Iteration, acc: Value, v: Value): Value {
    if k.Folding? then v else if acc.List? then List(acc.items + [v]) else acc
  }

  function Left(t: Table, cur: nat, pc: nat): nat {
    if cur < |t| && t[cur].User? && pc < |t[cur].code| then |t[cur].code| - pc else 0
  }

  /** Runs the code of function `cur` from instruction `pc`. */
  function Exec(t: Table, p: Builtins, cur: nat, fr: Frame, pc: nat, s: State): (r: Outcome)
    requires fr.base + fr.argc <= |s.stack|
    ensures r.Done? ==> Keeps(fr.base + fr.argc, s, r.state)
    decreases s.clock, Left(t, cur, pc), 1
  {
    if cur >= |t| || !t[cur].User? then Stuck
    else if pc >= |t[cur].code| then Done(s)
    else
      match t[cur].code[pc]
      case NOP => Exec(t, p, cur, fr, pc + 1, s)
      case PUSH(v) => if v.None? then Done(s) else Exec(t, p, cur, fr, pc + 1, Push(s, v.value))
      case LOAD(i) => if i < fr.argc then Exec(t, p, cur, fr, pc + 1, Push(s, s.stack[fr.base + i])) else Stuck
      case GET(x) => Exec(t, p, cur, fr, pc + 1, Push(s, Lookup(s.globals, x)))
      case SET(x) => Exec(t, p, cur, fr, pc + 1, SetTop(s, x))
      case CALL(x, fn, argc) =>
        var c := Callee(fn, x, s.globals);
        if c.None? then Exec(t, p, cur, fr, pc + 1, s)
        else
          var r := Invoke(t, p, c.value, argc, fr.base + fr.argc, s);
          if r.Done? then Exec(t, p, cur, fr, pc + 1, r.state) else r
      case JMP(l) => Jump(t, p, cur, fr, pc, l, s)
      case JN(l) =>
        var c := PopCondition(fr.base + fr.argc, s);
        if c.None? then Stuck
        else if c.value.isNil then Jump(t, p, cur, fr, pc, l, c.value.state)
        else Exec(t, p, cur, fr, pc + 1, c.value.state)
  }

  function Jump(t: Table, p: Builtins, cur: nat, fr: Frame, pc: nat, l: LabelRef, s: State): (r: Outcome)
    requires fr.base + fr.argc <= |s.stack|
    requires 0 < Left(t, cur, pc)
    ensures r.Done? ==> Keeps(fr.base + fr.argc, s, r.state)
    decreases s.clock, Left(t, cur, pc), 0
  {
    var b := Destination(t, l);
    if b.Unbound? then Stuck
    else if b.ir == cur && b.pc > pc then Exec(t, p, cur, fr, b.pc, s)
    else if s.clock == 0 then Timeout
    else Exec(t, p, b.ir, fr, b.pc, s.(clock := s.clock - 1))
  }

  /** The instruction a label denotes. The NOP that the end of a main program loses counts as its end. */
  function Destination(t: Table, l: LabelRef): (b: Label)
    ensures b.Bound? ==> b.ir < |t| && t[b.ir].User? && b.pc <= |t[b.ir].code|
  {
    if l.owner < |t| && t[l.owner].User? && l.number < |t[l.owner].labels| then
      var b := t[l.owner].labels[l.number];
      if b.Bound? && b.ir < |t| && t[b.ir].User? && b.pc <= |t[b.ir].code| then b else Unbound
    else Unbound
  }

  /** Calls function `id` with the top `argc` values, which must lie above `floor`. */
  function Invoke(t: Table, p: Builtins, id: nat, argc: nat, floor: nat, s: State): (r: Outcome)
    requires floor <= |s.stack|
    ensures r.Done? ==> Keeps(floor, s, r.state)
    decreases s.clock, 0, 0
  {
    if id >= |t| || |s.stack| < floor + argc then Stuck
    else
      var fr := Frame(|s.stack| - argc, argc);
      match t[id]
      case CFun(cid) => Done(CallBuiltin(p, cid, argc, s))
      case Iter(k) =>
        if s.clock == 0 then Timeout
        else
          var r := Iterate(t, p, k, argc, s.(clock := s.clock - 1));
          if r.Done? then KeepsLess(fr.base, floor, s, r.state); r else r
      case Special(_) => Done(DestroyFrame(fr, s))
      case User(_, _, _) =>
        if s.clock == 0 then Timeout
        else
          var r := Exec(t, p, id, fr, 0, s.(clock := s.clock - 1));
          if r.Done? then DestroyKeeps(fr, floor, s, r.state); Done(DestroyFrame(fr, r.state)) else r
  }

  /** What an instruction does that goes on to the next one and calls nothing. */
  function AfterSimple(i: Instr, fr: Frame, s: State): (r: Option<State>)
    requires fr.base + fr.argc <= |s.stack|
    ensures r.Some? ==> Keeps(fr.base + fr.argc, s, r.value) && r.value.clock == s.clock
  {
    match i
    case NOP => Some(s)
    case PUSH(v) => if v.Some? then Some(Push(s, v.value)) else None
    case LOAD(k) => if k < fr.argc then Some(Push(s, s.stack[fr.base + k])) else None
    case GET(x) => Some(Push(s, Lookup(s.globals, x)))
    case SET(x) => Some(SetTop(s, x))
    case _ => None
  }

  /** One instruction and what follows. */
  lemma Unroll(t: Table, p: Builtins, cur: nat, fr: Frame, pc: nat, s: State)
    requires fr.base + fr.argc <= |s.stack| && 0 < Left(t, cur, pc)
    ensures Exec(t, p, cur, fr, pc, s) ==
      match t[cur].code[pc]
      case PUSH(None) => Done(s)
      case CALL(x, fn, argc) =>
        var c := Callee(fn, x, s.globals);
        if c.None? then Exec(t, p, cur, fr, pc + 1, s)
        else
          var r := Invoke(t, p, c.value, argc, fr.base + fr.argc, s);
          if r.Done? then Exec(t, p, cur, fr, pc + 1, r.state) else r
      case JMP(l) => Jump(t, p, cur, fr, pc, l, s)
      case JN(l) =>
        var c := PopCondition(fr.base + fr.argc, s);
        if c.None? then Stuck
        else if c.value.isNil then Jump(t, p, cur, fr, pc, l, c.value.state)
        else Exec(t, p, cur, fr, pc + 1, c.value.state)
      case i =>
        var r := AfterSimple(i, fr, s);
        if r.None? then Stuck else Exec(t, p, cur, fr, pc + 1, r.value)
  {
    hide Invoke, Jump;
  }

  lemma AtEnd(t: Table, p: Builtins, cur: nat, fr: Frame, pc: nat, s: State)
    requires fr.base + fr.argc <= |s.stack| && Left(t, cur, pc) == 0
    ensures Exec(t, p, cur, fr, pc, s) == if cur < |t| && t[cur].User? then Done(s) else Stuck
  {
  }

  // ----- functions that call functions -----

  /** An answer to a call from inside a C function, and the state with the answer taken off the stack. */
  datatype Answer = Answer(value: Value, state: State) | NoAnswer(outcome: Outcome)

  /** Pushes the arguments, calls the function and takes the top of the stack for its result. */
  function Ask(t: Table, p: Builtins, id: nat, args: seq<Value>, floor: nat, s: State): (r: Answer)
    requires floor <= |s.stack|
    ensures r.Answer? ==> Keeps(floor, s, r.state)
    ensures r.NoAnswer? ==> !r.outcome.Done?
    decreases s.clock, 1, 0
  {
    Taken(floor, s, Invoke(t, p, id, |args|, |s.stack|, s.(stack := s.stack + args)), args)
  }

  function Taken(floor: nat, s: State, r: Outcome, args: seq<Value>): (q: Answer)
    requires floor <= |s.stack| && (r.Done? ==> Keeps(|s.stack|, s.(stack := s.stack + args), r.state))
    ensures q.Answer? ==> Keeps(floor, s, q.state)
    ensures q.NoAnswer? ==> !q.outcome.Done?
  {
    if !r.Done? then NoAnswer(r)
    else
      var n := |r.state.stack|;
      if n <= floor then NoAnswer(Stuck)
      else
        assert r.state.stack[..floor] == r.state.stack[..|s.stack|][..floor] == (s.stack + args)[..floor];
        Answer(r.state.stack[n - 1], r.state.(stack := r.state.stack[..n - 1]))
  }

  /** One call for every input, with what was gathered so far. */
  function Loop(t: Table, p: Builtins, k: Iteration, id: nat, xs: seq<Value>, acc: Value, floor: nat,
                s: State): (r: Answer)
    requires floor <= |s.stack|
    ensures r.Answer? ==> Keeps(floor, s, r.state)
    ensures r.NoAnswer? ==> !r.outcome.Done?
    decreases s.clock, 1, 1 + |xs|
  {
    if xs == [] then Answer(acc, s)
    else
      var r := Ask(t, p, id, LoopArguments(k, acc, xs[0]), floor, s);
      if r.NoAnswer? then r else Loop(t, p, k, id, xs[1..], Gather(k, acc, r.value), floor, r.state)
  }

  function Iterate(t: Table, p: Builtins, k: Iteration, argc: nat, s: State): (r: Outcome)
    requires argc <= |s.stack|
    ensures r.Done? ==> Keeps(|s.stack| - argc, s, r.state)
    decreases s.clock, 2, 0
  {
    var base := |s.stack| - argc;
    var args := s.stack[base..];
    var low := s.(stack := s.stack[..base]);
    if !WellTyped(args, Wants(k)) then Done(Push(low, Nil))
    else
      var r := Loop(t, p, k, CalledBack(k, args), Inputs(k, args), Start(k, args), base, low);
      if r.NoAnswer? then r.outcome else Done(Push(r.state, r.value))
  }
}
