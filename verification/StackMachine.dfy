/**
 * The virtual machine as it runs: a loop over instructions that changes one shared doubly-linked stack and the trees
 * of the global variables in place. It is proved to do what Machine.Exec says.
 */
module StackMachine {
  import opened Options
  import opened KeyOrder
  import opened Bytecode
  import opened Settings
  import opened Machine
  import opened LinkedList
  import opened StackFrames
  import opened ValueStack
  import opened GlobalStore

  type Habits = (nat, seq<Value>, Globals) -> seq<Take>

  /** Names are kept in lower case. */
  predicate LowerName(i: Instr) {
    match i
    case CALL(x, _, _) => Fold(x) == x
    case GET(x) => Fold(x) == x
    case SET(x) => Fold(x) == x
    case _ => true
  }

  predicate LowerCode(code: seq<Instr>) {
    forall k :: 0 <= k < |code| ==> LowerName(code[k])
  }

  predicate Lower(t: Table) {
    forall id :: 0 <= id < |t| && t[id].User? ==> LowerCode(t[id].code)
  }

  class Vm {
    const table: Table
    const builtins: Builtins
    const habits: Habits
    const values: Stack
    const store: Store
    var clock: nat

    constructor (table: Table, builtins: Builtins, habits: Habits, clock: nat)
      requires Lower(table)
      ensures Valid() && fresh(values) && fresh(values.repr) && fresh(store) && fresh(store.parts)
      ensures View() == State([], map[], clock)
      ensures this.table == table && this.builtins == builtins && this.habits == habits
    {
      hide Stack.Valid, Store.Valid, Vm.Valid, Vm.View, Lower, Data;
      this.table, this.builtins, this.habits, this.clock := table, builtins, habits, clock;
      this.values := new Stack();
      this.store := new Store();
      new;
      values.Owns();
      store.Open();
      FromScratch();
    }

    /** Stack and globals share no object. */
    ghost predicate Apart()
      reads values, store
    {
      this !in values.repr && this !in store.parts && values !in values.repr && values !in store.parts
      && store !in values.repr && store !in store.parts && values.repr !! store.parts
    }

    ghost predicate Valid()
      reads values, values.repr, store, store.parts
    {
      values.Valid() && store.Valid() && Apart() && Lower(table)
    }

    lemma FromScratch()
      requires values.Valid() && store.Valid() && Apart() && Lower(table) && values.nodes == [] && store.values == map[]
      ensures Valid() && View() == State([], map[], clock)
    {
      hide Stack.Valid, Store.Valid, Lower;
    }

    /** The values on the stack, the globals and the ticks left. */
    ghost function View(): State
      reads this, values, store
    {
      State(Data(values.nodes), store.values, clock)
    }

    /** The lowest `n` entries are the very same ones as before, and only new objects came in. */
    twostate predicate Stable(n: nat)
      reads values, store
    {
      values.Stable(n) && old(store.parts) <= store.parts && fresh(store.parts - old(store.parts))
    }

    /** The frame of the running call is the window of the `argc` entries from `base` on. */
    ghost predicate Running(frame: List<Value>, base: nat, argc: nat)
      reads values, values.repr, store, store.parts, frame
    {
      Valid() && values.Window(frame, base, argc) && frame !in store.parts
    }

    /** The globals that there are before a program. */
    method Load(g: Globals)
      requires Valid() && forall x :: x in g ==> Fold(x) == x
      modifies store, store.parts
      ensures Valid() && View() == old(View()).(globals := old(store.values) + g)
      ensures old(store.parts) <= store.parts && fresh(store.parts - old(store.parts))
    {
      hide Stack.Valid, Store.Valid, Lower, Fold;
      store.Load(g);
    }

    // ----- single instructions -----

    method Push(v: Value)
      requires Valid()
      modifies values, values.repr
      ensures Valid() && Stable(|old(values.nodes)|) && View() == Machine.Push(old(View()), v)
    {
      hide Stack.Valid, Store.Valid, Data, Lower;
      values.Push(v);
    }

    /** A condition: true when nil, or when there is nothing to pop. */
    method PopIsNil(ghost floor: nat) returns (isNil: bool)
      requires Valid() && PopCondition(floor, View()).Some? && floor <= |values.nodes|
      modifies values, values.repr
      ensures Valid() && Stable(floor) && PopCondition(floor, old(View())) == Some(Popped(isNil, View()))
      ensures isNil <==> old(values.nodes) == [] || Data(old(values.nodes))[|old(values.nodes)| - 1] == Nil
      ensures values.nodes == if old(values.nodes) == [] then [] else old(values.nodes)[..|old(values.nodes)| - 1]
    {
      hide Stack.Valid, Store.Valid, Data, Lower;
      var v := values.Pop();
      isNil := v.None? || v.value == Nil;
    }

    /** A name that has no value is nil. */
    method GetGlobal(x: string) returns (v: Value)
      requires Valid() && Fold(x) == x
      ensures v == Lookup(store.values, x)
      ensures v == if x in store.values then store.values[x] else Nil
    {
      hide Stack.Valid, Store.Valid, Lower, Fold;
      v := store.Get(x);
    }

    method SetGlobal(x: string)
      requires Valid() && Fold(x) == x
      modifies store, store.parts
      ensures Valid() && Stable(|old(values.nodes)|) && View() == SetTop(old(View()), x)
      ensures values.nodes == old(values.nodes) && store.values == if values.nodes == [] then old(store.values)
        else old(store.values)[x := Data(values.nodes)[|values.nodes| - 1]]
    {
      hide Stack.Valid, Store.Valid, Data, Lower, Fold;
      var v := values.Top();
      if v.Some? {
        store.Set(x, v.value);
      }
    }

    // ----- the calling convention -----

    /**
     * A C function takes as many of its arguments as it likes, from either end, and sets what globals it likes; the
     * value it returns is pushed, and what it has left of its frame goes.
     */
    method CallBuiltinBound(cid: nat, frame: List<Value>, ghost argc: nat)
      requires argc <= |values.nodes| && Running(frame, |values.nodes| - argc, argc)
      modifies values, values.repr, store, store.parts, frame
      ensures Valid() && Stable(|old(values.nodes)| - argc) && View() == CallBuiltin(builtins, cid, argc, old(View()))
      ensures var all, base := Data(old(values.nodes)), |old(values.nodes)| - argc;
        var r := builtins(cid, all[base..], old(store.values));
        Data(values.nodes) == all[..base] + (if r.value.Some? then [r.value.value] else [])
        && store.values == SetEach(old(store.values), r.settings)
    {
      hide Stack.Valid, Store.Valid, Data, Lower, List.Spans, SetEach;
      ghost var base := |values.nodes| - argc;
      ghost var all := values.nodes;
      var args := values.Arguments(frame, base, argc);
      var g := store.Snapshot();
      var r := builtins(cid, args, g);
      ghost var left := values.TakeArguments(frame, habits(cid, args, g), base, argc);
      SameBelow(values.nodes, all, base);
      store.SetAll(r.settings);
      values.PushAndDestroy(r.value, frame, base, left);
      ToTheEnd(Data(all), base, argc);
    }

    /** The arguments leave from under whatever lies above them. */
    method Unframe(frame: List<Value>, ghost base: nat, ghost argc: nat)
      requires Running(frame, base, argc)
      modifies values, values.repr, frame
      ensures Valid() && Stable(base) && base + argc <= |old(values.nodes)|
      ensures View() == Machine.DestroyFrame(Frame(base, argc), old(View()))
    {
      hide Stack.Valid, Store.Valid, Data, Lower, List.Spans;
      values.Unframe(frame, base, argc);
    }

    /** Calls a function with the top `argc` values; `ended` is false when the clock ran out. */
    method Invoke(id: nat, argc: nat, ghost floor: nat) returns (ended: bool)
      requires Valid() && floor <= |values.nodes|
      requires Machine.Invoke(table, builtins, id, argc, floor, View()) != Stuck
      modifies this`clock, values, values.repr, store, store.parts
      ensures ended ==> Valid() && Stable(floor) && clock <= old(clock)
      ensures Machine.Invoke(table, builtins, id, argc, floor, old(View())) == if ended then Done(View()) else Timeout
      decreases clock, 0, 1
    {
      hide Machine.Invoke, UserCall, IterationCall, Vm.Running, Vm.Valid, Data, CallBuiltin, Machine.DestroyFrame;
      CallIs(table, builtins, id, argc, floor, View());
      ghost var base := |values.nodes| - argc;
      var frame := NewFrame(argc);
      match table[id] {
        case CFun(cid) =>
          CallBuiltinBound(cid, frame, argc);
          ended := true;
        case Iter(k) => ended := CallIteration(k, frame, argc);
        case Special(_) =>
          Unframe(frame, base, argc);
          ended := true;
        case User(_, _, _) => ended := CallUser(id, frame, argc);
      }
      if ended {
        Below(values.nodes, old(values.nodes), base, floor);
      }
    }

    method NewFrame(argc: nat) returns (frame: List<Value>)
      requires Valid() && argc <= |values.nodes|
      ensures fresh(frame) && Running(frame, |values.nodes| - argc, argc)
    {
      hide Store.Valid, Lower, List.Holds, List.Spans;
      frame := InitFrame(values.list, argc, values.nodes);
    }

    method CallUser(id: nat, frame: List<Value>, ghost argc: nat) returns (ended: bool)
      requires argc <= |values.nodes| && Running(frame, |values.nodes| - argc, argc)
      requires id < |table| && table[id].User?
      requires UserCall(table, builtins, id, argc, View()) != Stuck
      modifies this`clock, values, values.repr, store, store.parts, frame
      ensures ended ==> Valid() && Stable(|old(values.nodes)| - argc) && clock <= old(clock)
      ensures UserCall(table, builtins, id, argc, old(View())) == if ended then Done(View()) else Timeout
      decreases clock, 0, 0
    {
      hide Exec, Machine.DestroyFrame, Stack.Valid, Store.Valid, Stack.Window, Lower, Data;
      ghost var base := |values.nodes| - argc;
      if clock == 0 {
        return false;
      }
      clock := clock - 1;
      ended := Run(id, frame, base, argc);
      if ended {
        Below(values.nodes, old(values.nodes), base + argc, base);
        Unframe(frame, base, argc);
      }
    }

    /** Runs the code of function `start` from its first instruction to its end, unless the clock runs out first. */
    method Run(start: nat, frame: List<Value>, ghost base: nat, ghost argc: nat) returns (ended: bool)
      requires Running(frame, base, argc) && base + argc <= |values.nodes|
      requires Exec(table, builtins, start, Frame(base, argc), 0, View()) != Stuck
      modifies this`clock, values, values.repr, store, store.parts
      ensures ended ==> Stable(base + argc) && Running(frame, base, argc) && clock <= old(clock)
      ensures Exec(table, builtins, start, Frame(base, argc), 0, old(View())) == if ended then Done(View()) else Timeout
      decreases clock, 1
    {
      hide Exec, Machine.Invoke, Destination, PopCondition, Vm.Running, AfterSimple, Data, Fold;
      ghost var fr := Frame(base, argc);
      ghost var all := Exec(table, builtins, start, fr, 0, View());
      var cur: nat, pc: nat := start, 0;
      ended := true;
      while cur < |table| && table[cur].User? && pc < |table[cur].code|
        invariant Running(frame, base, argc) && Stable(base + argc)
        invariant clock <= old(clock) && all == Exec(table, builtins, cur, fr, pc, View())
        decreases clock, Left(table, cur, pc)
      {
        Unroll(table, builtins, cur, fr, pc, View());
        NamesAreLower(frame, base, argc, cur, pc);
        var i := table[cur].code[pc];
        if i == PUSH(None) {
          return;
        } else if i.CALL? {
          ended := CallByName(i.sym, i.fn, i.argc, frame, base, argc);
          pc := pc + 1;
        } else if i.JMP? {
          cur, pc, ended := Goto(i.target, cur, pc, frame, base, argc);
        } else if i.JN? {
          cur, pc, ended := Branch(i.target, cur, pc, frame, base, argc);
        } else {
          Simple(i, frame, base, argc);
          pc := pc + 1;
        }
        if !ended {
          return;
        }
      }
      AtEnd(table, builtins, cur, fr, pc, View());
    }

    lemma NamesAreLower(frame: List<Value>, base: nat, argc: nat, cur: nat, pc: nat)
      requires Running(frame, base, argc) && 0 < Left(table, cur, pc)
      ensures LowerName(table[cur].code[pc])
    {
      hide LowerName, Stack.Valid, Store.Valid;
    }

    /** An instruction that goes on to the next one and calls nothing. */
    method Simple(i: Instr, frame: List<Value>, ghost base: nat, ghost argc: nat)
      requires Running(frame, base, argc) && base + argc <= |values.nodes|
      requires AfterSimple(i, Frame(base, argc), View()).Some? && LowerName(i)
      modifies values, values.repr, store, store.parts
      ensures Running(frame, base, argc) && Stable(base + argc)
      ensures AfterSimple(i, Frame(base, argc), old(View())) == Some(View())
    {
      hide Stack.Valid, Store.Valid, Vm.Apart, Data, Lower, Fold, List.Spans;
      match i {
        case PUSH(v) => Push(v.value);
        case LOAD(k) =>
          var v := values.Load(frame, k, base, argc);
          Push(v);
        case GET(x) =>
          var v := GetGlobal(x);
          Push(v);
        case SET(x) => SetGlobal(x);
        case _ =>
      }
      Below(values.nodes, old(values.nodes), |old(values.nodes)|, base + argc);
      values.WindowStays(frame, old(values.nodes), base, argc);
    }

    method CallByName(x: string, fn: Option<nat>, n: nat, frame: List<Value>, ghost base: nat, ghost argc: nat)
      returns (ended: bool)
      requires Running(frame, base, argc) && base + argc <= |values.nodes| && Fold(x) == x
      requires var c := Callee(fn, x, store.values);
        c.Some? ==> Machine.Invoke(table, builtins, c.value, n, base + argc, View()) != Stuck
      modifies this`clock, values, values.repr, store, store.parts
      ensures ended ==> Running(frame, base, argc) && Stable(base + argc) && clock <= old(clock)
      ensures var c := Callee(fn, x, old(store.values));
        if c.None? then ended && View() == old(View())
        else
          Machine.Invoke(table, builtins, c.value, n, base + argc, old(View())) ==
            if ended then Done(View()) else Timeout
      decreases clock, 0, 2
    {
      hide Machine.Invoke, Stack.Valid, Store.Valid, Vm.Apart, Data, Lower, Fold, List.Spans;
      ended := true;
      var callee := fn;
      if fn.None? {
        var v := GetGlobal(x);
        callee := if v.Fun? then Some(v.id) else None;
      }
      if callee.Some? {
        ended := Invoke(callee.value, n, base + argc);
        if ended {
          values.WindowStays(frame, old(values.nodes), base, argc);
        }
      }
    }

    method Branch(l: LabelRef, cur: nat, pc: nat, frame: List<Value>, ghost base: nat, ghost argc: nat)
      returns (cur2: nat, pc2: nat, ended: bool)
      requires Running(frame, base, argc) && base + argc <= |values.nodes|
      requires var c := PopCondition(base + argc, View());
        c.Some? && (c.value.isNil ==> Destination(table, l).Bound?)
      modifies this`clock, values, values.repr
      ensures Running(frame, base, argc) && Stable(base + argc) && clock <= old(clock)
      ensures var c := PopCondition(base + argc, old(View())).value;
        if c.isNil then Went(c.state, cur, pc, l, cur2, pc2, ended)
        else cur2 == cur && pc2 == pc + 1 && ended && View() == c.state
    {
      hide Destination, Stack.Valid, Store.Valid, Vm.Apart, Data, Lower, List.Spans;
      var isNil := PopIsNil(base + argc);
      values.WindowStays(frame, old(values.nodes), base, argc);
      if isNil {
        cur2, pc2, ended := Goto(l, cur, pc, frame, base, argc);
      } else {
        cur2, pc2, ended := cur, pc + 1, true;
      }
    }

    /** A jump from state `s` to label `l` led to instruction `pc2` of function `cur2`, unless the clock ran out. */
    ghost predicate Went(s: State, cur: nat, pc: nat, l: LabelRef, cur2: nat, pc2: nat, ended: bool)
      requires Destination(table, l).Bound?
      reads this, values, store
    {
      var b := Destination(table, l);
      cur2 == b.ir && pc2 == b.pc
      && (if b.ir == cur && b.pc > pc then ended && View() == s
          else if s.clock == 0 then !ended
          else ended && View() == s.(clock := s.clock - 1))
    }

    /** Moves to the instruction of a label; backwards this takes a tick of the clock. */
    method Goto(l: LabelRef, cur: nat, pc: nat, frame: List<Value>, ghost base: nat, ghost argc: nat)
      returns (cur2: nat, pc2: nat, ended: bool)
      requires Running(frame, base, argc) && base + argc <= |values.nodes| && Destination(table, l).Bound?
      modifies this`clock
      ensures Running(frame, base, argc) && Stable(base + argc) && clock <= old(clock)
      ensures Went(old(View()), cur, pc, l, cur2, pc2, ended)
    {
      hide Stack.Valid, Store.Valid, Stack.Window, Data, Lower;
      var b := Destination(table, l);
      cur2, pc2, ended := b.ir, b.pc, true;
      if b.ir != cur || b.pc <= pc {
        if clock == 0 {
          ended := false;
        } else {
          clock := clock - 1;
        }
      }
    }

    // ----- C functions that call functions -----

    /** A call of one of these functions takes a tick, as a call of a user function does. */
    method CallIteration(k: Iteration, frame: List<Value>, ghost argc: nat) returns (ended: bool)
      requires argc <= |values.nodes| && Running(frame, |values.nodes| - argc, argc)
      requires IterationCall(table, builtins, k, argc, View()) != Stuck
      modifies this`clock, values, values.repr, store, store.parts, frame
      ensures ended ==> Valid() && Stable(|old(values.nodes)| - argc) && clock <= old(clock)
      ensures IterationCall(table, builtins, k, argc, old(View())) == if ended then Done(View()) else Timeout
      decreases clock, 0, 0
    {
      hide Stack.Valid, Store.Valid, Stack.Window, Lower, Data, Machine.Iterate;
      if clock == 0 {
        return false;
      }
      clock := clock - 1;
      ended := Iterate(k, frame, argc);
    }

    /** Takes the list or number and the function, makes the calls, and delivers the result in place of the frame. */
    method Iterate(k: Iteration, frame: List<Value>, ghost argc: nat) returns (ended: bool)
      requires argc <= |values.nodes| && Running(frame, |values.nodes| - argc, argc)
      requires Machine.Iterate(table, builtins, k, argc, View()) != Stuck
      modifies this`clock, values, values.repr, store, store.parts, frame
      ensures ended ==> Valid() && Stable(|old(values.nodes)| - argc) && clock <= old(clock)
      ensures Machine.Iterate(table, builtins, k, argc, old(View())) == if ended then Done(View()) else Timeout
      decreases clock, 6
    {
      hide Stack.Valid, Store.Valid, Stack.Window, Lower, Data, Loop, Machine.Iterate, WellTyped;
      ghost var base, s := |values.nodes| - argc, View();
      var args, ok, left := TakeAll(k, frame, base, argc);
      IterationIs(table, builtins, k, argc, s, View().(stack := s.stack[..base]));
      var result := Nil;
      ended := true;
      if ok {
        JustThese(View().stack, base);
        result, ended := LoopOver(k, args, frame, base);
      }
      if ended {
        JoinAgain(View().stack, base, left);
        Deliver(result, frame, base, left);
      }
    }

    /** Takes the arguments off the frame, as long as they are of the types that the function wants. */
    method TakeAll(k: Iteration, frame: List<Value>, ghost base: nat, ghost argc: nat)
      returns (args: seq<Value>, ok: bool, ghost left: nat)
      requires Running(frame, base, argc) && base + argc == |values.nodes|
      modifies values, values.repr, frame
      ensures Running(frame, base, left) && base + left == |values.nodes| && Stable(base)
        && values.repr == old(values.repr)
      ensures View().stack[..base] == old(View()).stack[..base]
      ensures ok <==> WellTyped(old(View()).stack[base..], Wants(k))
      ensures ok ==> args == old(View()).stack[base..] && left == 0
    {
      hide Stack.Valid, Store.Valid, Data, Lower, List.Spans, WellTyped;
      args, ok, left := values.GetArgs(frame, Wants(k), base, argc);
      SameBelow(values.nodes, old(values.nodes), base);
    }

    /** The result comes on top, and what is left of the frame goes from under it. */
    method Deliver(result: Value, frame: List<Value>, ghost base: nat, ghost left: nat)
      requires Running(frame, base, left) && base + left <= |values.nodes|
      modifies values, values.repr, frame
      ensures Valid() && Stable(base)
      ensures var s := old(View());
        View() == Machine.Push(s.(stack := s.stack[..base] + s.stack[base + left..]), result)
    {
      hide Stack.Valid, Store.Valid, Data, Lower, List.Spans;
      values.PushAndDestroy(Some(result), frame, base, left);
    }

    method LoopOver(k: Iteration, args: seq<Value>, frame: List<Value>, ghost base: nat)
      returns (result: Value, ended: bool)
      requires Running(frame, base, 0) && base <= |values.nodes| && WellTyped(args, Wants(k))
      requires CallsOf(k, args, base, View()) != NoAnswer(Stuck)
      modifies this`clock, values, values.repr, store, store.parts
      ensures ended ==> Running(frame, base, 0) && Stable(base) && clock <= old(clock)
      ensures CallsOf(k, args, base, old(View())) == if ended then Answer(result, View()) else NoAnswer(Timeout)
      decreases clock, 5
    {
      hide Stack.Valid, Store.Valid, Vm.Apart, Lower, Loop, Data;
      match k {
        case Mapping => result, ended := Map(args[1].id, args[0].items, base);
        case Folding => result, ended := Foldl(args[2].id, args[0], args[1].items, base);
        case Repeating(indexed) => result, ended := Times(args[1].id, args[0].n, indexed, base);
      }
    }

    /** What the calls that `map`, `foldl` or `times` makes come to. */
    ghost function CallsOf(k: Iteration, args: seq<Value>, base: nat, s: State): Answer
      requires WellTyped(args, Wants(k)) && base <= |s.stack|
    {
      Loop(table, builtins, k, CalledBack(k, args), Inputs(k, args), Start(k, args), base, s)
    }

    /** A new list of the results, in the order of the elements. */
    method Map(id: nat, xs: seq<Value>, ghost base: nat) returns (result: Value, ended: bool)
      requires Valid() && base <= |values.nodes|
      requires Loop(table, builtins, Mapping, id, xs, Value.List([]), base, View()) != NoAnswer(Stuck)
      modifies this`clock, values, values.repr, store, store.parts
      ensures ended ==> Valid() && Stable(base) && clock <= old(clock)
      ensures Loop(table, builtins, Mapping, id, xs, Value.List([]), base, old(View())) ==
        if ended then Answer(result, View()) else NoAnswer(Timeout)
      decreases clock, 4
    {
      hide Vm.Valid, Loop, Ask, Data, Machine.Invoke;
      ghost var all := Loop(table, builtins, Mapping, id, xs, Value.List([]), base, View());
      var ys, it := [], 0;
      while it < |xs|
        invariant 0 <= it <= |xs| && Valid() && Stable(base) && clock <= old(clock)
        invariant all == Loop(table, builtins, Mapping, id, xs[it..], Value.List(ys), base, View())
      {
        ghost var s := View();
        LoopStep(table, builtins, Mapping, id, xs, it, Value.List(ys), base, s);
        Push(xs[it]);
        var y;
        y, ended := CallAndPop(id, 1, [xs[it]], s, base);
        if !ended {
          return Nil, false;
        }
        ys := ys + [y];
        it := it + 1;
      }
      result, ended := Value.List(ys), true;
      LoopEnd(table, builtins, Mapping, id, xs[it..], result, base, View());
    }

    /** The left fold: each call gets the result so far and the next element. */
    method Foldl(id: nat, start: Value, xs: seq<Value>, ghost base: nat) returns (v: Value, ended: bool)
      requires Valid() && base <= |values.nodes|
      requires Loop(table, builtins, Folding, id, xs, start, base, View()) != NoAnswer(Stuck)
      modifies this`clock, values, values.repr, store, store.parts
      ensures ended ==> Valid() && Stable(base) && clock <= old(clock)
      ensures Loop(table, builtins, Folding, id, xs, start, base, old(View())) ==
        if ended then Answer(v, View()) else NoAnswer(Timeout)
      decreases clock, 4
    {
      hide Vm.Valid, Loop, Ask, Data, Machine.Invoke;
      ghost var all := Loop(table, builtins, Folding, id, xs, start, base, View());
      v := start;
      var it := 0;
      while it < |xs|
        invariant 0 <= it <= |xs| && Valid() && Stable(base) && clock <= old(clock)
        invariant all == Loop(table, builtins, Folding, id, xs[it..], v, base, View())
      {
        ghost var s := View();
        LoopStep(table, builtins, Folding, id, xs, it, v, base, s);
        Push(v);
        Push(xs[it]);
        TwoMore(s.stack, v, xs[it]);
        v, ended := CallAndPop(id, 2, [v, xs[it]], s, base);
        if !ended {
          return;
        }
        it := it + 1;
      }
      ended := true;
      LoopEnd(table, builtins, Folding, id, xs[it..], v, base, View());
    }

    /** As many calls as the number says, none when it is negative; each gets its index when that is asked for. */
    method Times(id: nat, n: int, indexed: bool, ghost base: nat) returns (result: Value, ended: bool)
      requires Valid() && base <= |values.nodes|
      requires Loop(table, builtins, Repeating(indexed), id, Numbers(n), Value.List([]), base,
        View()) != NoAnswer(Stuck)
      modifies this`clock, values, values.repr, store, store.parts
      ensures ended ==> Valid() && Stable(base) && clock <= old(clock)
      ensures Loop(table, builtins, Repeating(indexed), id, Numbers(n), Value.List([]), base, old(View())) ==
        if ended then Answer(result, View()) else NoAnswer(Timeout)
      decreases clock, 4
    {
      hide Vm.Valid, Loop, Ask, Data, Machine.Invoke, Numbers;
      ghost var xs, k := Numbers(n), Repeating(indexed);
      ghost var all := Loop(table, builtins, k, id, xs, Value.List([]), base, View());
      var ys, i := [], 0;
      while i < n
        invariant 0 <= i <= |xs| && Valid() && Stable(base) && clock <= old(clock)
        invariant all == Loop(table, builtins, k, id, xs[i..], Value.List(ys), base, View())
      {
        ghost var s := View();
        LoopStep(table, builtins, k, id, xs, i, Value.List(ys), base, s);
        if indexed {
          Push(Num(i));
        }
        var y;
        y, ended := CallAndPop(id, if indexed then 1 else 0, if indexed then [Num(i)] else [], s, base);
        if !ended {
          return Nil, false;
        }
        ys := ys + [y];
        i := i + 1;
      }
      result, ended := Value.List(ys), true;
      LoopEnd(table, builtins, k, id, xs[i..], result, base, View());
    }

    /** Calls a function with the arguments that were just pushed, and takes the result off again. */
    method CallAndPop(id: nat, argc: nat, ghost args: seq<Value>, ghost s: State, ghost floor: nat)
      returns (x: Value, ended: bool)
      requires Valid() && |args| == argc && floor <= |s.stack| && View() == s.(stack := s.stack + args)
      requires Ask(table, builtins, id, args, floor, s) != NoAnswer(Stuck)
      modifies this`clock, values, values.repr, store, store.parts
      ensures ended ==> Valid() && Stable(floor) && clock <= old(clock)
      ensures Ask(table, builtins, id, args, floor, s) == if ended then Answer(x, View()) else NoAnswer(Timeout)
      decreases clock, 3
    {
      hide Stack.Valid, Store.Valid, Data, Lower, Machine.Invoke;
      ended := Invoke(id, argc, |s.stack|);
      x := Nil;
      if ended {
        Below(values.nodes, old(values.nodes), |s.stack|, floor);
        ghost var was := values.nodes;
        var v := values.Pop();
        x := v.value;
        Below(values.nodes, was, |values.nodes|, floor);
      }
    }
  }

  lemma LoopStep(t: Table, p: Builtins, k: Iteration, id: nat, xs: seq<Value>, i: nat, acc: Value, floor: nat,
                 s: State)
    requires floor <= |s.stack| && i < |xs|
    ensures Loop(t, p, k, id, xs[i..], acc, floor, s) ==
      var r := Ask(t, p, id, LoopArguments(k, acc, xs[i]), floor, s);
      if r.NoAnswer? then r else Loop(t, p, k, id, xs[i + 1..], Gather(k, acc, r.value), floor, r.state)
  {
    hide Ask;
    assert xs[i..][0] == xs[i] && xs[i..][1..] == xs[i + 1..];
  }

  lemma LoopEnd(t: Table, p: Builtins, k: Iteration, id: nat, xs: seq<Value>, acc: Value, floor: nat, s: State)
    requires floor <= |s.stack| && xs == []
    ensures Loop(t, p, k, id, xs, acc, floor, s) == Answer(acc, s)
  {
  }

  lemma TwoMore(s: seq<Value>, v: Value, x: Value)
    ensures s + [v] + [x] == s + [v, x]
  {
  }

  lemma JustThese(s: seq<Value>, n: nat)
    requires |s| == n
    ensures s[..n] == s
  {
  }

  lemma JoinAgain(s: seq<Value>, base: nat, left: nat)
    requires base + left <= |s|
    ensures left == 0 ==> s[..base] + s[base + left..] == s
    ensures base + left == |s| ==> s[..base] + s[base + left..] == s[..base]
  {
  }

  lemma ToTheEnd<X>(s: seq<X>, i: nat, n: nat)
    requires i + n == |s|
    ensures s[i..i + n] == s[i..]
  {
  }

  // ----- a call by the kind of the function -----

  /** A call of a user function, whose arguments are the top `argc` values. */
  function UserCall(t: Table, p: Builtins, id: nat, argc: nat, s: State): Outcome
    requires argc <= |s.stack|
  {
    var fr := Frame(|s.stack| - argc, argc);
    if s.clock == 0 then Timeout
    else
      var r := Exec(t, p, id, fr, 0, s.(clock := s.clock - 1));
      if r.Done? then Done(Machine.DestroyFrame(fr, r.state)) else r
  }

  function IterationCall(t: Table, p: Builtins, k: Iteration, argc: nat, s: State): Outcome
    requires argc <= |s.stack|
  {
    if s.clock == 0 then Timeout else Machine.Iterate(t, p, k, argc, s.(clock := s.clock - 1))
  }

  lemma CallIs(t: Table, p: Builtins, id: nat, argc: nat, floor: nat, s: State)
    requires floor <= |s.stack| && Machine.Invoke(t, p, id, argc, floor, s) != Stuck
    ensures id < |t| && floor + argc <= |s.stack|
    ensures Machine.Invoke(t, p, id, argc, floor, s) ==
      match t[id]
      case CFun(cid) => Done(CallBuiltin(p, cid, argc, s))
      case Iter(k) => IterationCall(t, p, k, argc, s)
      case Special(_) => Done(Machine.DestroyFrame(Frame(|s.stack| - argc, argc), s))
      case User(_, _, _) => UserCall(t, p, id, argc, s)
  {
    hide Exec, Machine.Iterate;
  }

  lemma IterationIs(t: Table, p: Builtins, k: Iteration, argc: nat, s: State, low: State)
    requires argc <= |s.stack| && low == s.(stack := s.stack[..|s.stack| - argc])
    ensures Machine.Iterate(t, p, k, argc, s) ==
      var base := |s.stack| - argc;
      var args := s.stack[base..];
      if !WellTyped(args, Wants(k)) then Done(Machine.Push(low, Nil))
      else
        var r := Loop(t, p, k, CalledBack(k, args), Inputs(k, args), Start(k, args), base, low);
        if r.NoAnswer? then r.outcome else Done(Machine.Push(r.state, r.value))
  {
    hide Loop, WellTyped;
  }
}
