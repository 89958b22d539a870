/**
 The two operations of Python's heapq that the proxy uses, on lists of load entries. A list
 need not be in heap order when they are called, so they are modelled in full.
 */
module Heapq {
  datatype Entry = Entry(priority: real, server: nat)

  /** Entries compare like the tuples they are: by priority, then by server. */
  predicate Less(a: Entry, b: Entry) {
    a.priority < b.priority || (a.priority == b.priority && a.server < b.server)
  }

  function Parent(k: nat): nat
    requires k > 0
  {
    (k - 1) / 2
  }

  ghost predicate IsHeap(h: seq<Entry>) {
    forall k :: 0 < k < |h| ==> !Less(h[k], h[Parent(k)])
  }

  function Swapped(h: seq<Entry>, i: nat, j: nat): (r: seq<Entry>)
    requires i < |h| && j < |h|
    ensures |r| == |h|
  {
    h[i := h[j]][j := h[i]]
  }

  /** Move the entry at pos towards the root while it is smaller than its parent. */
  function SiftDown(h: seq<Entry>, pos: nat): (r: seq<Entry>)
    requires pos < |h|
    ensures |r| == |h|
    decreases pos
  {
    if pos > 0 && Less(h[pos], h[Parent(pos)]) then SiftDown(Swapped(h, pos, Parent(pos)), Parent(pos)) else h
  }

  /** The smaller child of pos; the right one when the left one is not smaller. */
  function SmallerChild(h: seq<Entry>, pos: nat): (c: nat)
    requires 2 * pos + 1 < |h|
    ensures pos < c < |h| && Parent(c) == pos
  {
    var left, right := 2 * pos + 1, 2 * pos + 2;
    if right < |h| && !Less(h[left], h[right]) then right else left
  }

  /** Move the entry at pos down along the smaller children to a leaf, then up to where it belongs. */
  function SiftUp(h: seq<Entry>, pos: nat): (r: seq<Entry>)
    requires pos < |h|
    ensures |r| == |h|
    decreases |h| - pos
  {
    if 2 * pos + 1 < |h| then SiftUp(Swapped(h, pos, SmallerChild(h, pos)), SmallerChild(h, pos))
    else SiftDown(h, pos)
  }

  function Push(h: seq<Entry>, e: Entry): (r: seq<Entry>)
    ensures |r| == |h| + 1
  {
    SiftDown(h + [e], |h|)
  }

  function Pop(h: seq<Entry>): (r: (Entry, seq<Entry>))
    requires h != []
    ensures r.0 == h[0] && |r.1| == |h| - 1
  {
    var last, rest := h[|h|-1], h[..|h|-1];
    if rest == [] then (last, rest) else (rest[0], SiftUp(rest[0 := last], 0))
  }

  // ---------------------------------------------------------------- nothing is lost

  lemma SwapKeepsEntries(h: seq<Entry>, i: nat, j: nat)
    requires i < |h| && j < |h|
    ensures multiset(Swapped(h, i, j)) == multiset(h)
  {
  }

  lemma {:induction false} SiftDownKeepsEntries(h: seq<Entry>, pos: nat)
    requires pos < |h|
    ensures multiset(SiftDown(h, pos)) == multiset(h)
    decreases pos
  {
    if pos > 0 && Less(h[pos], h[Parent(pos)]) {
      SwapKeepsEntries(h, pos, Parent(pos));
      SiftDownKeepsEntries(Swapped(h, pos, Parent(pos)), Parent(pos));
    }
  }

  lemma {:induction false} SiftUpKeepsEntries(h: seq<Entry>, pos: nat)
    requires pos < |h|
    ensures multiset(SiftUp(h, pos)) == multiset(h)
    decreases |h| - pos
  {
    if 2 * pos + 1 < |h| {
      var c := SmallerChild(h, pos);
      SwapKeepsEntries(h, pos, c);
      SiftUpKeepsEntries(Swapped(h, pos, c), c);
    } else {
      SiftDownKeepsEntries(h, pos);
    }
  }

  lemma PushAddsEntry(h: seq<Entry>, e: Entry)
    ensures multiset(Push(h, e)) == multiset(h) + multiset{e}
  {
    SiftDownKeepsEntries(h + [e], |h|);
  }

  lemma PopRemovesEntry(h: seq<Entry>)
    requires h != []
    ensures multiset(Pop(h).1) + multiset{h[0]} == multiset(h)
  {
    hide SiftUp;
    var last, rest := h[|h|-1], h[..|h|-1];
    assert h == rest + [last];
    if rest != [] {
      SiftUpKeepsEntries(rest[0 := last], 0);
      FirstReplaced(rest, last);
    }
  }

  lemma FirstReplaced(rest: seq<Entry>, last: Entry)
    requires rest != []
    ensures multiset(rest[0 := last]) + multiset{rest[0]} == multiset(rest + [last])
  {
    var tail := rest[1..];
    assert rest == [rest[0]] + tail && rest[0 := last] == [last] + tail;
  }

  // ---------------------------------------------------------------- heap order

  /** In order but for pos, which may be smaller than its parent; its children are above that parent. */
  ghost predicate OrderedBut(h: seq<Entry>, pos: nat) {
    && (forall k :: 0 < k < |h| && k != pos ==> !Less(h[k], h[Parent(k)]))
    && (forall k :: 0 < k < |h| && pos > 0 && Parent(k) == pos && pos < |h| ==> !Less(h[k], h[Parent(pos)]))
  }

  /** In order but for pos, which may also be larger than its children. */
  ghost predicate OrderedAround(h: seq<Entry>, pos: nat) {
    && (forall k :: 0 < k < |h| && k != pos && Parent(k) != pos ==> !Less(h[k], h[Parent(k)]))
    && (forall k :: 0 < k < |h| && pos > 0 && Parent(k) == pos && pos < |h| ==> !Less(h[k], h[Parent(pos)]))
  }

  lemma SwapUp(h: seq<Entry>, pos: nat)
    requires 0 < pos < |h| && OrderedBut(h, pos) && Less(h[pos], h[Parent(pos)])
    ensures OrderedBut(Swapped(h, pos, Parent(pos)), Parent(pos))
  {
    var p, h' := Parent(pos), Swapped(h, pos, Parent(pos));
    forall k | 0 < k < |h| && k != p ensures !Less(h'[k], h'[Parent(k)]) {
      if Parent(k) == p && k != pos {
        assert !Less(h[k], h[p]);
      }
    }
    forall k | 0 < k < |h| && p > 0 && Parent(k) == p ensures !Less(h'[k], h'[Parent(p)]) {
      assert !Less(h[p], h[Parent(p)]);
      if k != pos {
        assert !Less(h[k], h[p]);
      }
    }
  }

  lemma {:induction false} SiftDownOrders(h: seq<Entry>, pos: nat)
    requires pos < |h| && OrderedBut(h, pos)
    ensures IsHeap(SiftDown(h, pos))
    decreases pos
  {
    hide OrderedBut;
    if pos > 0 && Less(h[pos], h[Parent(pos)]) {
      SwapUp(h, pos);
      SiftDownOrders(Swapped(h, pos, Parent(pos)), Parent(pos));
    } else {
      OrderedWhole(h, pos);
    }
  }

  lemma OrderedWhole(h: seq<Entry>, pos: nat)
    requires pos < |h| && OrderedBut(h, pos) && (pos > 0 ==> !Less(h[pos], h[Parent(pos)]))
    ensures IsHeap(h)
  {
  }

  lemma SwapSmallerChild(h: seq<Entry>, pos: nat)
    requires 2 * pos + 1 < |h| && OrderedAround(h, pos)
    ensures OrderedAround(Swapped(h, pos, SmallerChild(h, pos)), SmallerChild(h, pos))
  {
    var c := SmallerChild(h, pos);
    var h' := Swapped(h, pos, c);
    forall k | 0 < k < |h| && k != c && Parent(k) != c ensures !Less(h'[k], h'[Parent(k)]) {
      if Parent(k) == pos {
        assert k == 2 * pos + 1 || k == 2 * pos + 2;
      } else if k == pos {
        assert Parent(c) == pos;
        assert !Less(h[c], h[Parent(pos)]);
      }
    }
    forall k | 0 < k < |h| && Parent(k) == c ensures !Less(h'[k], h'[Parent(c)]) {
      assert !Less(h[k], h[c]);
    }
  }

  lemma {:induction false} SiftUpOrders(h: seq<Entry>, pos: nat)
    requires pos < |h| && OrderedAround(h, pos)
    ensures IsHeap(SiftUp(h, pos))
    decreases |h| - pos
  {
    if 2 * pos + 1 < |h| {
      hide OrderedAround, SmallerChild;
      SwapSmallerChild(h, pos);
      SiftUpOrders(Swapped(h, pos, SmallerChild(h, pos)), SmallerChild(h, pos));
    } else {
      SiftDownOrders(h, pos);
    }
  }

  lemma PushKeepsHeap(h: seq<Entry>, e: Entry)
    requires IsHeap(h)
    ensures IsHeap(Push(h, e))
  {
    SiftDownOrders(h + [e], |h|);
  }

  lemma PopKeepsHeap(h: seq<Entry>)
    requires h != [] && IsHeap(h)
    ensures IsHeap(Pop(h).1)
  {
    var last, rest := h[|h|-1], h[..|h|-1];
    if rest != [] {
      assert OrderedAround(rest[0 := last], 0);
      SiftUpOrders(rest[0 := last], 0);
    }
  }

  /** The root of a heap is smallest. */
  lemma {:induction false} RootIsLeast(h: seq<Entry>, k: nat)
    requires IsHeap(h) && k < |h|
    ensures !Less(h[k], h[0])
    decreases k
  {
    if k > 0 {
      RootIsLeast(h, Parent(k));
    }
  }

  /** An entry that the moving one is not smaller than stays where it is, in heap order or not. */
  lemma {:induction false} SiftDownLeavesSmaller(h: seq<Entry>, pos: nat, q: nat)
    requires pos < |h| && q < |h| && q != pos && !Less(h[pos], h[q])
    ensures SiftDown(h, pos)[q] == h[q]
    decreases pos
  {
    if pos > 0 && Less(h[pos], h[Parent(pos)]) {
      SiftDownLeavesSmaller(Swapped(h, pos, Parent(pos)), Parent(pos), q);
    }
  }
}
