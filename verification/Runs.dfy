/** Properties of every run of the machine, whatever the code. */
module Runs {
  import opened Options
  import opened Bytecode
  import opened Machine

  /** The same outcome, with `n` more ticks left. */
  function Later(r: Outcome, n: nat): Outcome {
    if r.Done? then Done(r.state.(clock := r.state.clock + n)) else r
  }

  function Wind(s: State, n: nat): State {
    s.(clock := s.clock + n)
  }

  /** A run that ends does not depend on how long it could have gone on. */
  lemma {:induction false} ClockIsOnlyPatience(t: Table, p: Builtins, cur: nat, fr: Frame, pc: nat, s: State, n: nat)
    requires fr.base + fr.argc <= |s.stack| && Exec(t, p, cur, fr, pc, s) != Timeout
    ensures Exec(t, p, cur, fr, pc, Wind(s, n)) == Later(Exec(t, p, cur, fr, pc, s), n)
    decreases s.clock, Left(t, cur, pc), 1
  {
    hide Exec, Jump, Invoke, PopCondition, Callee, AfterSimple;
    if Left(t, cur, pc) == 0 {
      AtEnd(t, p, cur, fr, pc, s);
      AtEnd(t, p, cur, fr, pc, Wind(s, n));
    } else {
      Unroll(t, p, cur, fr, pc, s);
      Unroll(t, p, cur, fr, pc, Wind(s, n));
      match t[cur].code[pc]
      case PUSH(None) =>
      case CALL(_, _, _) => PatienceInCall(t, p, cur, fr, pc, s, n);
      case JMP(l) => PatienceInJump(t, p, cur, fr, pc, l, s, n);
      case JN(_) => PatienceInBranch(t, p, cur, fr, pc, s, n);
      case i =>
        SimpleLater(i, fr, s, n);
        var r := AfterSimple(i, fr, s);
        if r.Some? {
          ClockIsOnlyPatience(t, p, cur, fr, pc + 1, r.value, n);
        }
    }
  }

  lemma SimpleLater(i: Instr, fr: Frame, s: State, n: nat)
    requires fr.base + fr.argc <= |s.stack|
    ensures var r := AfterSimple(i, fr, s);
      AfterSimple(i, fr, Wind(s, n)) == if r.Some? then Some(Wind(r.value, n)) else None
  {
  }

  lemma {:induction false} PatienceInBranch(t: Table, p: Builtins, cur: nat, fr: Frame, pc: nat, s: State, n: nat)
    requires fr.base + fr.argc <= |s.stack| && 0 < Left(t, cur, pc) && t[cur].code[pc].JN?
    requires Exec(t, p, cur, fr, pc, s) != Timeout
    ensures Exec(t, p, cur, fr, pc, Wind(s, n)) == Later(Exec(t, p, cur, fr, pc, s), n)
    decreases s.clock, Left(t, cur, pc), 0, 1
  {
    hide Jump, Invoke;
    var c := PopCondition(fr.base + fr.argc, s);
    if c.Some? {
      assert PopCondition(fr.base + fr.argc, Wind(s, n)) == Some(Popped(c.value.isNil, Wind(c.value.state, n)));
      if c.value.isNil {
        PatienceInJump(t, p, cur, fr, pc, t[cur].code[pc].target, c.value.state, n);
      } else {
        ClockIsOnlyPatience(t, p, cur, fr, pc + 1, c.value.state, n);
      }
    }
  }

  lemma {:induction false} PatienceInCall(t: Table, p: Builtins, cur: nat, fr: Frame, pc: nat, s: State, n: nat)
    requires fr.base + fr.argc <= |s.stack| && 0 < Left(t, cur, pc) && t[cur].code[pc].CALL?
    requires Exec(t, p, cur, fr, pc, s) != Timeout
    ensures Exec(t, p, cur, fr, pc, Wind(s, n)) == Later(Exec(t, p, cur, fr, pc, s), n)
    decreases s.clock, Left(t, cur, pc), 0
  {
    hide Jump, Invoke;
    var i := t[cur].code[pc];
    var c := Callee(i.fn, i.sym, s.globals);
    if c.None? {
      ClockIsOnlyPatience(t, p, cur, fr, pc + 1, s, n);
    } else {
      PatienceInInvoke(t, p, c.value, i.argc, fr.base + fr.argc, s, n);
      var r := Invoke(t, p, c.value, i.argc, fr.base + fr.argc, s);
      if r.Done? {
        ClockIsOnlyPatience(t, p, cur, fr, pc + 1, r.state, n);
      }
    }
  }

  lemma {:induction false} PatienceInJump(t: Table, p: Builtins, cur: nat, fr: Frame, pc: nat,
                                          l: LabelRef, s: State, n: nat)
    requires fr.base + fr.argc <= |s.stack| && 0 < Left(t, cur, pc)
    requires Jump(t, p, cur, fr, pc, l, s) != Timeout
    ensures Jump(t, p, cur, fr, pc, l, Wind(s, n)) == Later(Jump(t, p, cur, fr, pc, l, s), n)
    decreases s.clock, Left(t, cur, pc), 0, 0
  {
    hide Exec;
    var b := Destination(t, l);
    if b.Bound? {
      if b.ir == cur && b.pc > pc {
        ClockIsOnlyPatience(t, p, cur, fr, b.pc, s, n);
      } else {
        var s1 := s.(clock := s.clock - 1);
        ClockIsOnlyPatience(t, p, b.ir, fr, b.pc, s1, n);
        assert Wind(s1, n) == Wind(s, n).(clock := Wind(s, n).clock - 1);
      }
    }
  }

  lemma {:induction false} PatienceInInvoke(t: Table, p: Builtins, id: nat, argc: nat, floor: nat, s: State, n: nat)
    requires floor <= |s.stack| && Invoke(t, p, id, argc, floor, s) != Timeout
    ensures Invoke(t, p, id, argc, floor, Wind(s, n)) == Later(Invoke(t, p, id, argc, floor, s), n)
    decreases s.clock, 0, 0
  {
    hide Exec, Iterate;
    if id < |t| && floor + argc <= |s.stack| && (t[id].User? || t[id].Iter?) {
      var s1 := s.(clock := s.clock - 1);
      assert Wind(s1, n) == Wind(s, n).(clock := Wind(s, n).clock - 1);
      if t[id].User? {
        ClockIsOnlyPatience(t, p, id, Frame(|s.stack| - argc, argc), 0, s1, n);
      } else {
        PatienceInIteration(t, p, t[id].kind, argc, s1, n);
      }
    }
  }

  lemma {:induction false} PatienceInIteration(t: Table, p: Builtins, k: Iteration, argc: nat, s: State, n: nat)
    requires argc <= |s.stack| && Iterate(t, p, k, argc, s) != Timeout
    ensures Iterate(t, p, k, argc, Wind(s, n)) == Later(Iterate(t, p, k, argc, s), n)
    decreases s.clock, 2, 0
  {
    hide Loop, Iterate, WellTyped, Wants, Inputs, Start, CalledBack;
    IterateStep(t, p, k, argc, s);
    IterateStep(t, p, k, argc, Wind(s, n));
    var base := |s.stack| - argc;
    var args := s.stack[base..];
    if WellTyped(args, Wants(k)) {
      var low := s.(stack := s.stack[..base]);
      PatienceInLoop(t, p, k, CalledBack(k, args), Inputs(k, args), Start(k, args), base, low, n);
      assert Wind(low, n) == Wind(s, n).(stack := s.stack[..base]);
    }
  }

  /** The result of the calls is pushed. */
  function Finish(r: Answer): Outcome {
    if r.NoAnswer? then r.outcome else Done(Push(r.state, r.value))
  }

  lemma IterateStep(t: Table, p: Builtins, k: Iteration, argc: nat, s: State)
    requires argc <= |s.stack|
    ensures var base := |s.stack| - argc;
      var args, low := s.stack[base..], s.(stack := s.stack[..base]);
      Iterate(t, p, k, argc, s) ==
        if !WellTyped(args, Wants(k)) then Done(Push(low, Nil))
        else Finish(Loop(t, p, k, CalledBack(k, args), Inputs(k, args), Start(k, args), base, low))
  {
    hide Loop, WellTyped, Wants, Inputs, Start, CalledBack;
  }

  lemma {:induction false} PatienceInAsk(t: Table, p: Builtins, id: nat, args: seq<Value>, floor: nat, s: State, n: nat)
    requires floor <= |s.stack| && Ask(t, p, id, args, floor, s) != NoAnswer(Timeout)
    ensures Ask(t, p, id, args, floor, Wind(s, n)) == LaterAnswer(Ask(t, p, id, args, floor, s), n)
    decreases s.clock, 1, 0
  {
    hide Invoke;
    var s1 := s.(stack := s.stack + args);
    PatienceInInvoke(t, p, id, |args|, |s.stack|, s1, n);
    assert Wind(s1, n) == Wind(s, n).(stack := Wind(s, n).stack + args);
  }

  function LaterAnswer(r: Answer, n: nat): Answer {
    if r.Answer? then Answer(r.value, Wind(r.state, n)) else r
  }

  lemma {:induction false} PatienceInLoop(t: Table, p: Builtins, k: Iteration, id: nat, xs: seq<Value>, acc: Value,
                                          floor: nat, s: State, n: nat)
    requires floor <= |s.stack| && Loop(t, p, k, id, xs, acc, floor, s) != NoAnswer(Timeout)
    ensures Loop(t, p, k, id, xs, acc, floor, Wind(s, n)) == LaterAnswer(Loop(t, p, k, id, xs, acc, floor, s), n)
    decreases s.clock, 1, 1 + |xs|
  {
    hide Ask, LoopArguments, Gather;
    if xs != [] {
      var args := LoopArguments(k, acc, xs[0]);
      PatienceInAsk(t, p, id, args, floor, s, n);
      var r := Ask(t, p, id, args, floor, s);
      if r.Answer? {
        PatienceInLoop(t, p, k, id, xs[1..], Gather(k, acc, r.value), floor, r.state, n);
      }
    }
  }

  // ----- the final NOP of a main program -----

  function WithoutLast(t: Table, me: nat): Table
    requires me < |t| && t[me].User? && t[me].code != []
  {
    t[me := t[me].(code := t[me].code[..|t[me].code| - 1])]
  }

  /** The code of `me` ends in a NOP, to which labels may point, but no label points past it. */
  ghost predicate EndsInNop(t: Table, me: nat) {
    me < |t| && t[me].User? && t[me].code != [] && t[me].code[|t[me].code| - 1] == NOP
    && forall l: LabelRef :: Destination(t, l).Bound? && Destination(t, l).ir == me ==>
         Destination(t, l).pc < |t[me].code|
  }

  lemma SameDestination(t: Table, me: nat, l: LabelRef)
    requires EndsInNop(t, me)
    ensures Destination(WithoutLast(t, me), l) == Destination(t, l)
  {
    var b := Destination(t, l);
  }

  lemma SameCode(t: Table, me: nat, cur: nat, pc: nat)
    requires EndsInNop(t, me)
    ensures me < |t| && t[me].User? && t[me].code != [] && t[me].code[|t[me].code| - 1] == NOP
    ensures var u := WithoutLast(t, me);
      |u| == |t| && (cur < |t| ==> u[cur].User? == t[cur].User?)
      && (cur < |t| && t[cur].User? ==>
        |u[cur].code| == |t[cur].code| - (if cur == me then 1 else 0)
        && (pc < |u[cur].code| ==> u[cur].code[pc] == t[cur].code[pc]))
  {
  }

  /** Popping the final NOP changes no run, even though jumps may target it. */
  lemma {:induction false} FinalNopIsUnused(t: Table, me: nat, p: Builtins, cur: nat, fr: Frame, pc: nat, s: State)
    requires EndsInNop(t, me) && fr.base + fr.argc <= |s.stack|
    ensures Exec(WithoutLast(t, me), p, cur, fr, pc, s) == Exec(t, p, cur, fr, pc, s)
    decreases s.clock, Left(t, cur, pc), 1
  {
    hide Exec, Jump, Invoke, Destination, EndsInNop, WithoutLast, PopCondition;
    SameCode(t, me, cur, pc);
    var u := WithoutLast(t, me);
    if Left(t, cur, pc) == 0 {
      AtEnd(t, p, cur, fr, pc, s);
      AtEnd(u, p, cur, fr, pc, s);
    } else if Left(u, cur, pc) == 0 {
      Unroll(t, p, cur, fr, pc, s);
      AtEnd(t, p, cur, fr, pc + 1, s);
      AtEnd(u, p, cur, fr, pc, s);
    } else {
      var i := t[cur].code[pc];
      if i.CALL? {
        SameCallStep(t, me, p, cur, fr, pc, s);
      } else if i.JMP? || i.JN? {
        SameJumpStep(t, me, p, cur, fr, pc, s);
      } else {
        Unroll(t, p, cur, fr, pc, s);
        Unroll(u, p, cur, fr, pc, s);
        var r := AfterSimple(i, fr, s);
        if r.Some? { FinalNopIsUnused(t, me, p, cur, fr, pc + 1, r.value); }
      }
    }
  }

  lemma {:induction false} SameJumpStep(t: Table, me: nat, p: Builtins, cur: nat, fr: Frame, pc: nat, s: State)
    requires EndsInNop(t, me) && fr.base + fr.argc <= |s.stack| && 0 < Left(WithoutLast(t, me), cur, pc)
    requires 0 < Left(t, cur, pc) && (t[cur].code[pc].JMP? || t[cur].code[pc].JN?)
    requires WithoutLast(t, me)[cur].code[pc] == t[cur].code[pc]
    ensures Exec(WithoutLast(t, me), p, cur, fr, pc, s) == Exec(t, p, cur, fr, pc, s)
    decreases s.clock, Left(t, cur, pc), 0, 2
  {
    hide Exec, Jump, EndsInNop, WithoutLast, PopCondition;
    SameCode(t, me, cur, pc);
    Unroll(t, p, cur, fr, pc, s);
    Unroll(WithoutLast(t, me), p, cur, fr, pc, s);
    if t[cur].code[pc].JMP? {
      SameJump(t, me, p, cur, fr, pc, t[cur].code[pc].target, s);
    } else {
      SameBranch(t, me, p, cur, fr, pc, s);
    }
  }

  lemma {:induction false} SameCallStep(t: Table, me: nat, p: Builtins, cur: nat, fr: Frame, pc: nat, s: State)
    requires EndsInNop(t, me) && fr.base + fr.argc <= |s.stack| && 0 < Left(WithoutLast(t, me), cur, pc)
    requires 0 < Left(t, cur, pc) && t[cur].code[pc].CALL? && WithoutLast(t, me)[cur].code[pc] == t[cur].code[pc]
    ensures Exec(WithoutLast(t, me), p, cur, fr, pc, s) == Exec(t, p, cur, fr, pc, s)
    decreases s.clock, Left(t, cur, pc), 0, 1
  {
    hide Jump, Invoke, EndsInNop;
    var i := t[cur].code[pc];
    var c := Callee(i.fn, i.sym, s.globals);
    if c.None? {
      FinalNopIsUnused(t, me, p, cur, fr, pc + 1, s);
    } else {
      SameCall(t, me, p, c.value, i.argc, fr.base + fr.argc, s);
      var r := Invoke(t, p, c.value, i.argc, fr.base + fr.argc, s);
      if r.Done? {
        FinalNopIsUnused(t, me, p, cur, fr, pc + 1, r.state);
      }
    }
  }

  lemma {:induction false} SameBranch(t: Table, me: nat, p: Builtins, cur: nat, fr: Frame, pc: nat, s: State)
    requires EndsInNop(t, me) && fr.base + fr.argc <= |s.stack| && 0 < Left(WithoutLast(t, me), cur, pc)
    requires 0 < Left(t, cur, pc) && t[cur].code[pc].JN? && WithoutLast(t, me)[cur].code[pc] == t[cur].code[pc]
    ensures Exec(WithoutLast(t, me), p, cur, fr, pc, s) == Exec(t, p, cur, fr, pc, s)
    decreases s.clock, Left(t, cur, pc), 0, 1
  {
    hide Jump, Invoke, EndsInNop;
    var c := PopCondition(fr.base + fr.argc, s);
    if c.Some? {
      if c.value.isNil {
        SameJump(t, me, p, cur, fr, pc, t[cur].code[pc].target, c.value.state);
      } else {
        FinalNopIsUnused(t, me, p, cur, fr, pc + 1, c.value.state);
      }
    }
  }

  lemma {:induction false} SameJump(t: Table, me: nat, p: Builtins, cur: nat, fr: Frame, pc: nat, l: LabelRef, s: State)
    requires EndsInNop(t, me) && fr.base + fr.argc <= |s.stack|
    requires 0 < Left(t, cur, pc) && 0 < Left(WithoutLast(t, me), cur, pc)
    ensures Jump(WithoutLast(t, me), p, cur, fr, pc, l, s) == Jump(t, p, cur, fr, pc, l, s)
    decreases s.clock, Left(t, cur, pc), 0, 0
  {
    hide Exec;
    SameDestination(t, me, l);
    var b := Destination(t, l);
    if b.Bound? {
      if b.ir == cur && b.pc > pc {
        FinalNopIsUnused(t, me, p, cur, fr, b.pc, s);
      } else if s.clock > 0 {
        FinalNopIsUnused(t, me, p, b.ir, fr, b.pc, s.(clock := s.clock - 1));
      }
    }
  }

  lemma {:induction false} SameCall(t: Table, me: nat, p: Builtins, id: nat, argc: nat, floor: nat, s: State)
    requires EndsInNop(t, me) && floor <= |s.stack|
    ensures Invoke(WithoutLast(t, me), p, id, argc, floor, s) == Invoke(t, p, id, argc, floor, s)
    decreases s.clock, 0, 0
  {
    hide Exec, Iterate, Destination;
    if id < |t| && floor + argc <= |s.stack| && s.clock > 0 {
      var s1 := s.(clock := s.clock - 1);
      if t[id].User? {
        FinalNopIsUnused(t, me, p, id, Frame(|s.stack| - argc, argc), 0, s1);
      } else if t[id].Iter? {
        SameIteration(t, me, p, t[id].kind, argc, s1);
      }
    }
  }

  lemma {:induction false} SameIteration(t: Table, me: nat, p: Builtins, k: Iteration, argc: nat, s: State)
    requires EndsInNop(t, me) && argc <= |s.stack|
    ensures Iterate(WithoutLast(t, me), p, k, argc, s) == Iterate(t, p, k, argc, s)
    decreases s.clock, 2, 0
  {
    hide Loop, EndsInNop;
    var base := |s.stack| - argc;
    var args := s.stack[base..];
    if WellTyped(args, Wants(k)) {
      SameLoop(t, me, p, k, CalledBack(k, args), Inputs(k, args), Start(k, args), base, s.(stack := s.stack[..base]));
    }
  }

  lemma {:induction false} SameLoop(t: Table, me: nat, p: Builtins, k: Iteration, id: nat, xs: seq<Value>, acc: Value,
                                    floor: nat, s: State)
    requires EndsInNop(t, me) && floor <= |s.stack|
    ensures Loop(WithoutLast(t, me), p, k, id, xs, acc, floor, s) == Loop(t, p, k, id, xs, acc, floor, s)
    decreases s.clock, 1, 1 + |xs|
  {
    hide Invoke, EndsInNop;
    if xs != [] {
      var args := LoopArguments(k, acc, xs[0]);
      SameCall(t, me, p, id, |args|, |s.stack|, s.(stack := s.stack + args));
      var r := Ask(t, p, id, args, floor, s);
      if r.Answer? {
        SameLoop(t, me, p, k, id, xs[1..], Gather(k, acc, r.value), floor, r.state);
      }
    }
  }
}
