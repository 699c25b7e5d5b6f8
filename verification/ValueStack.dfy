/** The shared stack of values: one doubly-linked list, changed in place, with the frames of calls as windows on it. */
module ValueStack {
  import opened Options
  import opened Bytecode
  import opened Machine
  import opened LinkedList
  import opened StackFrames

  type Nodes = seq<Entry<Value>>

  /** How a C function takes arguments from its frame: from the front or from the back, as often as it likes. */
  datatype Take = First | Last

  lemma DataOfCut(nodes: Nodes, lo: nat, hi: nat)
    requires lo <= hi <= |nodes|
    ensures Data(Cut(nodes, lo, hi)) == Data(nodes)[..lo] + Data(nodes)[hi..]
  {
  }

  lemma DataOfAppend(nodes: Nodes, e: Entry<Value>)
    ensures Data(nodes + [e]) == Data(nodes) + [e.data]
  {
  }

  class Stack {
    const list: List<Value>
    ghost var nodes: Nodes
    /** The list and every entry that ever was on it. */
    ghost var repr: set<object>

    constructor ()
      ensures Valid() && nodes == [] && fresh(repr)
    {
      list := new List();
      nodes, repr := [], {};
      new;
      repr := {list};
    }

    ghost predicate Valid()
      reads this, repr
    {
      this !in repr && list in repr && (forall i :: 0 <= i < |nodes| ==> nodes[i] in repr) && list.Holds(nodes)
    }

    lemma Owns()
      requires Valid()
      ensures this !in repr
    {
    }

    /** `frame` is the window of the `argc` entries from `base` on. */
    ghost predicate Window(frame: List<Value>, base: nat, argc: nat)
      reads this, frame
    {
      frame !in repr && frame.Spans(nodes, base, base + argc)
    }

    /** The lowest `n` entries are the very same ones as before, and only new entries came in. */
    twostate predicate Stable(n: nat)
      reads this
    {
      n <= |nodes| && n <= |old(nodes)| && nodes[..n] == old(nodes)[..n] && old(repr) <= repr && fresh(repr - old(repr))
    }

    method Push(v: Value)
      requires Valid()
      modifies this, repr
      ensures Valid() && Stable(|old(nodes)|) && |nodes| == |old(nodes)| + 1 && Data(nodes) == Data(old(nodes)) + [v]
    {
      var e := list.Append(v, nodes);
      DataOfAppend(nodes, e);
      nodes, repr := nodes + [e], repr + {e};
    }

    /** The top of the stack, if there is one. */
    method Top() returns (v: Option<Value>)
      requires Valid()
      ensures v == if nodes == [] then None else Some(Data(nodes)[|nodes| - 1])
    {
      v := if list.last == null then None else Some(list.last.data);
    }

    /** Takes the top off the stack; NULL when it is empty. */
    method Pop() returns (v: Option<Value>)
      requires Valid()
      modifies this, repr
      ensures Valid() && repr == old(repr)
      ensures old(nodes) == [] ==> v == None && nodes == []
      ensures old(nodes) != [] ==>
        v == Some(Data(old(nodes))[|old(nodes)| - 1]) && nodes == old(nodes)[..|old(nodes)| - 1]
        && Data(nodes) == Data(old(nodes))[..|nodes|]
    {
      var found, x := list.Pop(nodes);
      v := if found then Some(x[0]) else None;
      if found {
        assert Data(nodes[..|nodes| - 1]) == Data(nodes)[..|nodes| - 1];
        nodes := nodes[..|nodes| - 1];
      }
    }

    /** The argument at position `i` of the running call. */
    method Load(frame: List<Value>, i: nat, ghost base: nat, ghost argc: nat) returns (v: Value)
      requires Valid() && Window(frame, base, argc) && i < argc
      ensures v == Data(nodes)[base + i]
    {
      var e := frame.IndexEntry(i, nodes, base);
      v := e.data;
    }

    // ----- the calling convention -----

    /** What a C function can see of its arguments through its frame. */
    method Arguments(frame: List<Value>, ghost base: nat, ghost argc: nat) returns (args: seq<Value>)
      requires Valid() && Window(frame, base, argc)
      ensures args == Data(nodes)[base..base + argc]
    {
      args := [];
      var i := 0;
      while i < frame.count
        invariant 0 <= i <= argc && args == Data(nodes)[base..base + i]
      {
        var v := Load(frame, i, base, argc);
        args := args + [v];
        i := i + 1;
      }
    }

    /** Takes arguments off the frame, from either end; below the frame nothing changes. */
    method TakeArguments(frame: List<Value>, plan: seq<Take>, ghost base: nat, ghost argc: nat)
      returns (ghost left: nat)
      requires Valid() && Window(frame, base, argc) && base + argc == |nodes|
      modifies this, frame, repr
      ensures Valid() && Stable(base) && repr == old(repr) && Window(frame, base, left) && base + left == |nodes|
    {
      var ctx := new Context<Value>(list, frame);
      left := argc;
      var i := 0;
      while i < |plan|
        invariant Valid() && Stable(base) && repr == old(repr) && Window(frame, base, left) && base + left == |nodes|
      {
        var v;
        v, left := TakeOne(ctx, plan[i], base, left);
        i := i + 1;
      }
    }

    /** The first or the last argument, which goes off the frame and off the stack, or none. */
    method TakeOne(ctx: Context<Value>, take: Take, ghost base: nat, ghost argc: nat)
      returns (v: Option<Value>, ghost left: nat)
      requires ctx.stack == list && Valid() && Window(ctx.frame, base, argc) && base + argc == |nodes|
      modifies this`nodes, ctx.frame, repr
      ensures Valid() && base <= |nodes| && nodes[..base] == old(nodes)[..base]
      ensures Window(ctx.frame, base, left) && base + left == |nodes|
      ensures argc == 0 ==> v == None && left == 0
      ensures argc > 0 ==> left == argc - 1
      ensures argc > 0 && take == First ==> v == Some(old(nodes)[base].data) && nodes[base..] == old(nodes)[base + 1..]
      ensures argc > 0 && take == Last ==>
        v == Some(old(nodes)[base + left].data) && nodes[base..] == old(nodes)[base..base + left]
    {
      var e: Entry?<Value>;
      if take == First {
        e := ctx.Shift(nodes, base, base + argc);
      } else {
        e := ctx.Pop(nodes, base, base + argc);
      }
      v := if e == null then None else Some(e.data);
      left := argc;
      if argc > 0 {
        nodes := Without(nodes, if take == First then base else base + argc - 1);
        left := argc - 1;
      }
    }

    /** Takes the arguments off the frame one by one, as long as they fit. */
    method GetArgs(frame: List<Value>, wants: seq<Want>, ghost base: nat, ghost argc: nat)
      returns (args: seq<Value>, ok: bool, ghost left: nat)
      requires Valid() && Window(frame, base, argc) && base + argc == |nodes|
      modifies this`nodes, frame, repr
      ensures Valid() && Window(frame, base, left) && base + left == |nodes| && nodes[..base] == old(nodes)[..base]
      ensures ok <==> WellTyped(Data(old(nodes))[base..], wants)
      ensures ok ==> args == Data(old(nodes))[base..] && left == 0
    {
      hide List.Holds, List.Spans;
      ghost var all := Data(nodes)[base..];
      ghost var was := nodes;
      var count := frame.count;
      FrameCount(frame, base, argc);
      var ctx := new Context<Value>(list, frame);
      args, left := [], argc;
      var i := 0;
      while i < |wants|
        invariant 0 <= i <= |wants| && i <= argc && left == argc - i && |args| == i
        invariant Valid() && Window(frame, base, left) && base + left == |nodes|
        invariant nodes[..base] == was[..base] && nodes[base..] == was[base + i..]
        invariant args == all[..i] && forall k :: 0 <= k < i ==> IsA(all[k], wants[k])
      {
        var v;
        ghost var before := nodes;
        v, left := TakeOne(ctx, First, base, left);
        if v.None? {
          return args, false, left;
        }
        NextArgument(was, before, base, i);
        if !IsA(v.value, wants[i]) {
          return args, false, left;
        }
        args := args + [v.value];
        i := i + 1;
      }
      ok := count == |wants|;
    }

    lemma FrameCount(frame: List<Value>, base: nat, argc: nat)
      requires Window(frame, base, argc)
      ensures frame.count == argc
    {
    }

    method DestroyFrame(frame: List<Value>, ghost lo: nat, ghost hi: nat)
      requires Valid() && lo <= hi && Window(frame, lo, hi - lo)
      modifies this`nodes, frame, repr
      ensures Valid() && lo <= hi <= |old(nodes)| && nodes == Cut(old(nodes), lo, hi) && Stable(lo)
      ensures frame.count == 0
    {
      var ctx := new Context<Value>(list, frame);
      ctx.Destroy(nodes, lo, hi);
      nodes := Cut(nodes, lo, hi);
    }

    /** The result comes on top, and what is left of the frame goes from under it. */
    method PushAndDestroy(value: Option<Value>, frame: List<Value>, ghost base: nat, ghost left: nat)
      requires Valid() && Window(frame, base, left)
      modifies this, frame, repr
      ensures Valid() && base + left <= |old(nodes)| && Stable(base)
      ensures Data(nodes) == Data(old(nodes))[..base] + Data(old(nodes))[base + left..]
        + if value.Some? then [value.value] else []
    {
      hide List.Holds, Data, Cut;
      InBounds(frame, base, left);
      ghost var was := nodes;
      if value.Some? {
        Push(value.value);
      }
      WindowStays(frame, was, base, left);
      ghost var middle := nodes;
      DestroyFrame(frame, base, base + left);
      DataOfCut(middle, base, base + left);
      CutBelow(Data(was), if value.Some? then [value.value] else [], base, base + left);
      Below(nodes, middle, base, base);
      Below(middle, was, |was|, base);
    }

    lemma InBounds(frame: List<Value>, base: nat, argc: nat)
      requires Window(frame, base, argc)
      ensures base + argc <= |nodes|
    {
    }

    /** The arguments leave from under whatever lies above them. */
    method Unframe(frame: List<Value>, ghost base: nat, ghost argc: nat)
      requires Valid() && Window(frame, base, argc)
      modifies this, frame, repr
      ensures Valid() && Stable(base) && base + argc <= |old(nodes)|
      ensures Data(nodes) == Data(old(nodes))[..base] + Data(old(nodes))[base + argc..]
    {
      hide List.Holds, Data, Cut;
      DestroyFrame(frame, base, base + argc);
      DataOfCut(old(nodes), base, base + argc);
    }

    lemma WindowStays(frame: List<Value>, was: Nodes, base: nat, argc: nat)
      requires frame !in repr && frame.Spans(was, base, base + argc)
      requires base + argc <= |nodes| && base + argc <= |was| && nodes[..base + argc] == was[..base + argc]
      ensures Window(frame, base, argc)
    {
      if argc > 0 {
        assert nodes[base] == nodes[..base + argc][base] && was[base] == was[..base + argc][base];
        var i := base + argc - 1;
        assert nodes[i] == nodes[..base + argc][i] && was[i] == was[..base + argc][i];
      }
    }
  }

  lemma CutBelow<X>(s: seq<X>, t: seq<X>, lo: nat, hi: nat)
    requires lo <= hi <= |s|
    ensures (s + t)[..lo] + (s + t)[hi..] == s[..lo] + s[hi..] + t
  {
  }

  lemma NextArgument(was: Nodes, now: Nodes, base: nat, i: nat)
    requires base + i < |was| && base < |now| && now[base..] == was[base + i..]
    ensures now[base].data == Data(was)[base..][i] && now[base + 1..] == was[base + i + 1..]
    ensures Data(was)[base..][..i + 1] == Data(was)[base..][..i] + [now[base].data]
  {
    assert now[base] == now[base..][0] == was[base + i..][0] == was[base + i];
    assert now[base + 1..] == now[base..][1..] == was[base + i..][1..] == was[base + i + 1..];
  }

  lemma Below(a: Nodes, b: Nodes, n: nat, k: nat)
    requires k <= n <= |a| && n <= |b| && a[..n] == b[..n]
    ensures a[..k] == b[..k]
  {
    assert a[..k] == a[..n][..k] == b[..n][..k] == b[..k];
  }

  /** Entries never change their data. */
  lemma SameBelow(a: Nodes, b: Nodes, n: nat)
    requires n <= |a| && n <= |b| && a[..n] == b[..n]
    ensures Data(a)[..n] == Data(b)[..n]
  {
    forall i | 0 <= i < n
      ensures Data(a)[i] == Data(b)[i]
    {
      assert a[i] == a[..n][i] == b[i];
    }
  }
}
