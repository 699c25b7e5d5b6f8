/** The doubly-linked list. The data of an entry never change; its neighbours do. */
module LinkedList {

  class Entry<T> {
    const data: T
    var prev: Entry?<T>
    var next: Entry?<T>

    constructor (data: T)
      ensures this.data == data && prev == null && next == null
    {
      this.data, prev, next := data, null, null;
    }
  }

  function At<T>(nodes: seq<Entry<T>>, i: int): Entry?<T> {
    if 0 <= i < |nodes| then nodes[i] else null
  }

  ghost predicate Linked<T>(nodes: seq<Entry<T>>, i: nat)
    requires i < |nodes|
    reads nodes[i]
  {
    nodes[i].prev == At(nodes, i - 1) && nodes[i].next == At(nodes, i + 1)
  }

  ghost predicate Distinct<T>(nodes: seq<Entry<T>>) {
    forall i, j :: 0 <= i < j < |nodes| ==> nodes[i] != nodes[j]
  }

  /** The entries are distinct and linked both ways, and nothing comes before the first or after the last. */
  ghost predicate Chain<T>(nodes: seq<Entry<T>>)
    reads nodes
  {
    Distinct(nodes) && forall i :: 0 <= i < |nodes| ==> Linked(nodes, i)
  }

  function Data<T>(nodes: seq<Entry<T>>): (r: seq<T>)
    ensures |r| == |nodes| && forall i :: 0 <= i < |nodes| ==> r[i] == nodes[i].data
  {
    seq(|nodes|, i requires 0 <= i < |nodes| => nodes[i].data)
  }

  function Without<T>(nodes: seq<Entry<T>>, k: nat): seq<Entry<T>>
    requires k < |nodes|
  {
    nodes[..k] + nodes[k + 1..]
  }

  /** A list object: two ends and a count. It may span a whole chain of entries or a part of one. */
  class List<T> {
    var head: Entry?<T>
    var last: Entry?<T>
    var count: int

    constructor ()
      ensures Holds([])
    {
      head, last, count := null, null, 0;
    }

    /** The list is the whole chain of `nodes`. */
    ghost predicate Holds(nodes: seq<Entry<T>>)
      reads this, nodes
    {
      Chain(nodes) && head == At(nodes, 0) && last == At(nodes, |nodes| - 1) && count == |nodes|
    }

    /** The list is the part of the chain `nodes` from `lo` up to `hi`; an empty part is known by its count alone. */
    ghost predicate Spans(nodes: seq<Entry<T>>, lo: nat, hi: nat)
      reads this
    {
      lo <= hi <= |nodes| && count == hi - lo && (lo < hi ==> head == nodes[lo] && last == nodes[hi - 1])
    }

    method Append(x: T, ghost nodes: seq<Entry<T>>) returns (e: Entry<T>)
      requires Holds(nodes)
      modifies this, nodes
      ensures fresh(e) && e.data == x && Holds(nodes + [e])
    {
      assert nodes != [] ==> Linked(nodes, |nodes| - 1);
      e := new Entry(x);
      if head == null {
        head := e;
      } else {
        last.next := e;
        e.prev := last;
      }
      last := e;
      count := count + 1;
      ghost var all := nodes + [e];
      forall i | 0 <= i < |all|
        ensures Linked(all, i)
      {
        assert i < |nodes| ==> old(Linked(nodes, i));
      }
    }

    method InsertHead(x: T, ghost nodes: seq<Entry<T>>) returns (e: Entry<T>)
      requires Holds(nodes)
      modifies this, nodes
      ensures fresh(e) && e.data == x && Holds([e] + nodes)
    {
      e := new Entry(x);
      if head == null {
        last := e;
      } else {
        head.prev := e;
        e.next := head;
      }
      head := e;
      count := count + 1;
      ghost var all := [e] + nodes;
      forall i | 0 <= i < |all|
        ensures Linked(all, i)
      {
        assert i > 0 ==> old(Linked(nodes, i - 1));
      }
    }

    /** Takes the first entry off this list, which may span part of a chain; the entry keeps its own links. */
    method ShiftEntry() returns (e: Entry?<T>)
      requires head != null ==> head.next != head
      modifies this, if head == null || head.next == null then {} else {head.next}
      ensures e == old(head) && count == old(count) - 1
      ensures e == null ==> head == null && last == old(last)
      ensures e != null ==>
        head == old(e.next) && (head != null ==> head.prev == null && head.next == old(head.next.next))
      ensures e != null ==> last == if old(last) == e then head else old(last)
    {
      e := head;
      var second := if e == null then null else e.next;
      head := second;
      if second != null {
        second.prev := null;
      }
      if e == last {
        last := second;
      }
      count := count - 1;
    }

    /** Takes an entry out of the chain it is in, and off the ends of this list if it is there. */
    method RemoveEntry(e: Entry<T>)
      requires e.prev != e && e.next != e && (e.prev != null ==> e.prev != e.next)
      modifies this, if e.prev == null then {} else {e.prev}, if e.next == null then {} else {e.next}
      ensures e.prev == old(e.prev) && e.next == old(e.next)
      ensures e.prev != null ==> e.prev.next == e.next && e.prev.prev == old(e.prev.prev)
      ensures e.next != null ==> e.next.prev == e.prev && e.next.next == old(e.next.next)
      ensures head == (if old(head) == e then e.next else old(head))
      ensures last == (if old(last) == e then e.prev else old(last))
      ensures count == old(count) - 1
    {
      var prev, next := e.prev, e.next;
      if prev != null {
        prev.next := next;
      }
      if next != null {
        next.prev := prev;
      }
      if head == e {
        head := next;
      }
      if last == e {
        last := prev;
      }
      count := count - 1;
    }

    /** Takes entry `k` out of a list that is a whole chain. */
    method Remove(ghost nodes: seq<Entry<T>>, ghost k: nat, e: Entry<T>)
      requires Holds(nodes) && k < |nodes| && e == nodes[k]
      modifies this, nodes
      ensures Holds(Without(nodes, k))
    {
      assert Linked(nodes, k);
      assert k > 0 ==> Linked(nodes, k - 1);
      assert k + 1 < |nodes| ==> Linked(nodes, k + 1);
      RemoveEntry(e);
      ghost var rest := Without(nodes, k);
      forall i | 0 <= i < |rest|
        ensures Linked(rest, i)
      {
        assert old(Linked(nodes, if i < k then i else i + 1));
      }
    }

    method PopEntry(ghost nodes: seq<Entry<T>>) returns (e: Entry?<T>)
      requires Holds(nodes)
      modifies this, nodes
      ensures nodes == [] ==> e == null && Holds([])
      ensures nodes != [] ==> e == nodes[|nodes| - 1] && Holds(nodes[..|nodes| - 1])
    {
      if last == null {
        return null;
      }
      e := last;
      Remove(nodes, |nodes| - 1, e);
      assert Without(nodes, |nodes| - 1) == nodes[..|nodes| - 1];
    }

    /** The value that was last, or none. */
    method Pop(ghost nodes: seq<Entry<T>>) returns (found: bool, x: seq<T>)
      requires Holds(nodes)
      modifies this, nodes
      ensures found == (nodes != []) && x == (if found then [Data(nodes)[|nodes| - 1]] else [])
      ensures Holds(if found then nodes[..|nodes| - 1] else [])
    {
      var e := PopEntry(nodes);
      found := e != null;
      x := if e == null then [] else [e.data];
    }

    /** On a list that is not empty this takes the first entry off; on an empty one the count goes wrong. */
    method Shift(ghost nodes: seq<Entry<T>>) returns (e: Entry?<T>)
      requires Holds(nodes)
      modifies this, nodes
      ensures e == At(nodes, 0)
      ensures nodes != [] ==> Holds(nodes[1..])
      ensures nodes == [] ==> head == null && last == null && count == -1
    {
      assert nodes != [] ==> Linked(nodes, 0);
      assert |nodes| > 1 ==> Linked(nodes, 1);
      e := ShiftEntry();
      if nodes != [] {
        forall i | 0 <= i < |nodes[1..]|
          ensures Linked(nodes[1..], i)
        {
          assert old(Linked(nodes, i + 1));
        }
      }
    }

    /** The entry at an index, counted from the front, or from the back when it is negative. */
    method IndexEntry(index: int, ghost nodes: seq<Entry<T>>, ghost lo: nat) returns (e: Entry?<T>)
      requires Chain(nodes) && lo <= |nodes|
      requires if index >= 0 then head == At(nodes, lo)
        else (last == At(nodes, |nodes| - 1) && (head != null ==> nodes != []))
      ensures index >= 0 ==> e == At(nodes, lo + index)
      ensures index < 0 && head != null ==> e == At(nodes, |nodes| + index)
      ensures head == null ==> e == null
    {
      if head == null {
        return null;
      }
      e := head;
      var i := index;
      if index >= 0 {
        while i != 0
          invariant 0 <= i <= index && e != null && e == At(nodes, lo + index - i)
        {
          assert Linked(nodes, lo + index - i);
          e := e.next;
          if e == null {
            return;
          }
          i := i - 1;
        }
      } else {
        e := last;
        i := i + 1;
        while i != 0
          invariant index < i <= 0 && e != null && e == At(nodes, |nodes| + index - i)
          decreases -i
        {
          assert Linked(nodes, |nodes| + index - i);
          e := e.prev;
          if e == null {
            return;
          }
          i := i + 1;
        }
      }
    }

    /** The rest of a list shares its entries: it is a window of the same chain. */
    method Cdr(ghost nodes: seq<Entry<T>>) returns (l: List?<T>)
      requires Holds(nodes)
      ensures l == null <==> nodes == []
      ensures l != null ==> fresh(l) && l.Spans(nodes, 1, |nodes|)
    {
      if count == 0 {
        return null;
      }
      l := new List();
      l.count := count - 1;
      if l.count > 0 {
        assert Linked(nodes, 0);
        l.head := head.next;
        l.last := last;
      }
    }
  }
}
