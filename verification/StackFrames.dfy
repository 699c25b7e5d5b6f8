/**
 * Frames on the shared stack: a frame is a list object of its own whose entries are the last entries of the stack,
 * the very same ones, so taking one off the frame takes it out of the middle of the stack.
 */
module StackFrames {
  import opened LinkedList

  /** The stack without its entries from `lo` up to `hi`. */
  function Cut<X>(s: seq<X>, lo: nat, hi: nat): seq<X>
    requires lo <= hi <= |s|
  {
    s[..lo] + s[hi..]
  }

  class Context<T> {
    const stack: List<T>
    const frame: List<T>

    constructor (stack: List<T>, frame: List<T>)
      requires stack != frame
      ensures this.stack == stack && this.frame == frame
    {
      this.stack, this.frame := stack, frame;
    }

    /** The stack is `nodes`, and the frame is its part from `lo` up to `hi`. */
    ghost predicate Framed(nodes: seq<Entry<T>>, lo: nat, hi: nat)
      reads stack, frame, nodes
    {
      stack != frame && stack.Holds(nodes) && frame.Spans(nodes, lo, hi)
    }

    /** Takes the first argument off the frame; the stack is repaired around it. */
    method Shift(ghost nodes: seq<Entry<T>>, ghost lo: nat, ghost hi: nat) returns (e: Entry?<T>)
      requires Framed(nodes, lo, hi)
      modifies stack, frame, nodes
      ensures lo == hi ==> e == null && Framed(nodes, lo, hi)
      ensures lo < hi ==> e == nodes[lo] && Framed(Without(nodes, lo), lo, hi - 1)
    {
      if frame.count == 0 {
        return null;
      }
      assert Linked(nodes, lo);
      assert lo > 0 ==> Linked(nodes, lo - 1);
      assert lo + 1 < |nodes| ==> Linked(nodes, lo + 1);
      e := frame.ShiftEntry();
      stack.RemoveEntry(e);
      ghost var rest := Without(nodes, lo);
      forall i | 0 <= i < |rest|
        ensures Linked(rest, i)
      {
        assert old(Linked(nodes, if i < lo then i else i + 1));
      }
    }

    /** Takes the last argument off the frame, whatever the stack holds above it. */
    method Pop(ghost nodes: seq<Entry<T>>, ghost lo: nat, ghost hi: nat) returns (e: Entry?<T>)
      requires Framed(nodes, lo, hi)
      modifies stack, frame, nodes
      ensures lo == hi ==> e == null && Framed(nodes, lo, hi)
      ensures lo < hi ==> e == nodes[hi - 1] && Framed(Without(nodes, hi - 1), lo, hi - 1)
    {
      if frame.count == 0 {
        return null;
      }
      assert Linked(nodes, hi - 1);
      assert hi > 1 ==> Linked(nodes, hi - 2);
      assert hi < |nodes| ==> Linked(nodes, hi);
      e := frame.last;
      frame.RemoveEntry(e);
      stack.RemoveEntry(e);
      ghost var rest := Without(nodes, hi - 1);
      forall i | 0 <= i < |rest|
        ensures Linked(rest, i)
      {
        assert old(Linked(nodes, if i < hi - 1 then i else i + 1));
      }
    }

    /** Whatever is left of the frame goes; what lies below and above it stays, in order. */
    method Destroy(ghost nodes: seq<Entry<T>>, ghost lo: nat, ghost hi: nat)
      requires Framed(nodes, lo, hi)
      modifies stack, frame, nodes
      ensures stack.Holds(Cut(nodes, lo, hi)) && frame.count == 0
    {
      hide Context.Framed, Without, Cut;
      ghost var rest, end := nodes, hi;
      FrameFits(nodes, lo, hi);
      WholeIsCut(nodes, hi);
      var more := true;
      while more
        invariant lo <= end <= hi && rest == Cut(nodes, end, hi) && Framed(rest, lo, end)
        invariant !more ==> lo == end
        decreases end - lo, more
      {
        CutIsPart(nodes, end, hi);
        var e := Pop(rest, lo, end);
        more := e != null;
        if lo < end {
          CutsOneMore(nodes, end, hi);
          rest, end := Without(rest, end - 1), end - 1;
        }
      }
      EmptyFrame(rest, lo);
    }

    lemma FrameFits(nodes: seq<Entry<T>>, lo: nat, hi: nat)
      requires Framed(nodes, lo, hi)
      ensures lo <= hi <= |nodes|
    {
    }

    lemma EmptyFrame(nodes: seq<Entry<T>>, lo: nat)
      requires Framed(nodes, lo, lo)
      ensures stack.Holds(nodes) && frame.count == 0
    {
    }
  }

  lemma WholeIsCut<X>(s: seq<X>, k: nat)
    requires k <= |s|
    ensures Cut(s, k, k) == s
  {
  }

  lemma CutIsPart<T>(nodes: seq<Entry<T>>, lo: nat, hi: nat)
    requires lo <= hi <= |nodes|
    ensures |Cut(nodes, lo, hi)| == |nodes| - (hi - lo)
    ensures forall i :: 0 <= i < |Cut(nodes, lo, hi)| ==> Cut(nodes, lo, hi)[i] in nodes
  {
  }

  lemma CutsOneMore<T>(nodes: seq<Entry<T>>, k: nat, hi: nat)
    requires 0 < k <= hi <= |nodes|
    ensures k <= |Cut(nodes, k, hi)| && Without(Cut(nodes, k, hi), k - 1) == Cut(nodes, k - 1, hi)
  {
  }

  /**
   * The frame of a call: the last `argc` entries. With no arguments its ends run over the whole stack, but its count
   * is zero; with too few entries on the stack it claims more than there are.
   */
  method InitFrame<T>(stack: List<T>, argc: nat, ghost nodes: seq<Entry<T>>) returns (frame: List<T>)
    requires stack.Holds(nodes)
    ensures fresh(frame) && frame.count == argc && frame.last == At(nodes, |nodes| - 1)
    ensures 0 < argc <= |nodes| ==> frame.head == nodes[|nodes| - argc]
    ensures argc == 0 || argc > |nodes| ==> frame.head == At(nodes, 0)
    ensures argc <= |nodes| ==> frame.Spans(nodes, |nodes| - argc, |nodes|)
  {
    frame := new List();
    var it := stack.last;
    frame.count := argc;
    frame.last := it;
    var fs := argc - 1;
    ghost var k := 1;
    while fs != 0 && it != null && it.prev != null
      invariant stack.Holds(nodes) && frame.count == argc && frame.last == stack.last
      invariant 1 <= k && (nodes != [] ==> k <= |nodes|) && it == At(nodes, |nodes| - k) && fs == argc - k
      invariant argc > 0 ==> fs >= 0
      decreases |nodes| - k
    {
      assert Linked(nodes, |nodes| - k);
      it := it.prev;
      fs := fs - 1;
      k := k + 1;
    }
    frame.head := it;
    assert nodes != [] ==> Linked(nodes, |nodes| - k);
  }
}
