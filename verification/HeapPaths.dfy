/**
 Where entries of a list go when one is pushed, popped or renewed, in heap order or not: what
 lies on the path from the last position to the root moves, what lies beside it does not.
 */
module HeapPaths {
  import opened Heapq
  import opened ProxyPool

  /** q is pos or a descendant of it. */
  predicate Below(q: nat, pos: nat)
    decreases q
  {
    q == pos || (q > pos && Below(Parent(q), pos))
  }

  lemma {:induction false} BelowChild(q: nat, c: nat, pos: nat)
    requires Below(q, c) && c > pos && Parent(c) == pos
    ensures Below(q, pos)
    decreases q
  {
    if q != c {
      BelowChild(Parent(q), c, pos);
    }
  }

  /** The ancestor of q next to the root, and the one next to that. */
  function Depth1(q: nat): (d: nat)
    requires q >= 1
    ensures 1 <= d <= 2 && d <= q && Below(q, d)
  {
    if q <= 2 then q else Depth1(Parent(q))
  }

  function Depth2(q: nat): (d: nat)
    requires q >= 3
    ensures 3 <= d <= 6 && d <= q && Below(q, d) && Parent(d) == Depth1(q)
  {
    if q <= 6 then q else Depth2(Parent(q))
  }

  /** The other child of the root. */
  function Beside(q: nat): (o: nat)
    requires q >= 1
    ensures 1 <= o <= 2 && o != Depth1(q) && !Below(q, o)
  {
    OneAncestorEach(q, 3 - Depth1(q));
    3 - Depth1(q)
  }

  lemma {:induction false} OneAncestorEach(q: nat, a: nat)
    requires q >= 1 && 1 <= a <= 6
    ensures Below(q, a) && a <= 2 ==> a == Depth1(q)
    ensures Below(q, a) && a >= 3 ==> q >= 3 && a == Depth2(q)
    decreases q
  {
    if Below(q, a) && q != a && q > 2 {
      OneAncestorEach(Parent(q), a);
    }
  }

  // ---------------------------------------------------------------- sifting

  /** Rising from pos touches pos and its ancestors only. */
  lemma {:induction false} SiftDownElsewhere(h: seq<Entry>, pos: nat, q: nat)
    requires pos < |h| && q < |h| && !Below(pos, q)
    ensures SiftDown(h, pos)[q] == h[q]
    decreases pos
  {
    if pos > 0 && Less(h[pos], h[Parent(pos)]) {
      SiftDownElsewhere(Swapped(h, pos, Parent(pos)), Parent(pos), q);
    }
  }

  /** Sinking from pos touches descendants and ancestors only. */
  lemma {:induction false} SiftUpElsewhere(h: seq<Entry>, pos: nat, q: nat)
    requires pos < |h| && q < |h| && !Below(q, pos) && !Below(pos, q)
    ensures SiftUp(h, pos)[q] == h[q]
    decreases |h| - pos
  {
    if 2 * pos + 1 < |h| {
      var c := SmallerChild(h, pos);
      if Below(q, c) {
        BelowChild(q, c, pos);
      }
      SiftUpElsewhere(Swapped(h, pos, c), c, q);
    } else {
      SiftDownElsewhere(h, pos, q);
    }
  }

  /** Sinking an entry from pos leaves alone what is not below pos and not larger than it. */
  lemma {:induction false} SiftUpLeavesSmaller(h: seq<Entry>, pos: nat, q: nat)
    requires pos < |h| && q < |h| && !Below(q, pos) && !Less(h[pos], h[q])
    ensures SiftUp(h, pos)[q] == h[q]
    decreases |h| - pos
  {
    if 2 * pos + 1 < |h| {
      var c := SmallerChild(h, pos);
      if Below(q, c) {
        BelowChild(q, c, pos);
      }
      SiftUpLeavesSmaller(Swapped(h, pos, c), c, q);
    } else {
      SiftDownLeavesSmaller(h, pos, q);
    }
  }

  /** A rising entry ends on its path. */
  lemma {:induction false} SiftDownLands(h: seq<Entry>, pos: nat) returns (q: nat)
    requires pos < |h|
    ensures q <= pos && Below(pos, q) && SiftDown(h, pos)[q] == h[pos]
    decreases pos
  {
    if pos > 0 && Less(h[pos], h[Parent(pos)]) {
      q := SiftDownLands(Swapped(h, pos, Parent(pos)), Parent(pos));
    } else {
      q := pos;
    }
  }

  /** Everything between pos and the root is larger than the entry at pos. */
  ghost predicate PathLarger(h: seq<Entry>, pos: nat)
    requires pos < |h|
  {
    forall k: nat :: 0 < k < pos && Below(pos, k) ==> Less(h[pos], h[k])
  }

  lemma PathLargerStep(h: seq<Entry>, pos: nat)
    requires 2 < pos < |h| && PathLarger(h, pos)
    ensures Less(h[pos], h[Parent(pos)])
    ensures PathLarger(Swapped(h, pos, Parent(pos)), Parent(pos))
  {
    var p := Parent(pos);
    assert Below(pos, p);
    forall k: nat | 0 < k < p && Below(p, k) ensures Less(h[pos], h[k]) {
      assert Below(pos, k);
    }
  }

  /** Then the entry rises to the child of the root, or to the root itself. */
  lemma {:induction false} SiftDownRises(h: seq<Entry>, pos: nat)
    requires 1 <= pos < |h| && PathLarger(h, pos)
    ensures
      var r := SiftDown(h, pos);
      if Less(h[pos], h[0]) then r[0] == h[pos] && r[Depth1(pos)] == h[0]
      else r[0] == h[0] && r[Depth1(pos)] == h[pos]
    decreases pos
  {
    if pos > 2 {
      PathLargerStep(h, pos);
      SiftDownRises(Swapped(h, pos, Parent(pos)), Parent(pos));
    } else {
      assert Parent(pos) == 0;
      if Less(h[pos], h[0]) {
        var s := Swapped(h, pos, 0);
        assert SiftDown(h, pos) == SiftDown(s, 0) == s;
      }
    }
  }

  /** And what stood next to the root moves one further down the path. */
  lemma {:induction false} SiftDownShifts(h: seq<Entry>, pos: nat)
    requires 3 <= pos < |h| && PathLarger(h, pos)
    ensures SiftDown(h, pos)[Depth2(pos)] == h[Depth1(pos)]
    decreases pos
  {
    PathLargerStep(h, pos);
    var p := Parent(pos);
    var s := Swapped(h, pos, p);
    if pos > 6 {
      SiftDownShifts(s, p);
    } else {
      assert p == Depth1(pos) && s[pos] == h[p];
      assert !Below(p, pos);
      SiftDownElsewhere(s, p, pos);
    }
  }

  lemma {:induction false} SiftDownRoot(h: seq<Entry>, pos: nat)
    requires pos < |h|
    ensures SiftDown(h, pos)[0] == h[0] || SiftDown(h, pos)[0] == h[pos]
    decreases pos
  {
    if pos > 0 && Less(h[pos], h[Parent(pos)]) {
      SiftDownRoot(Swapped(h, pos, Parent(pos)), Parent(pos));
    }
  }

  lemma {:induction false} SiftUpRoot(h: seq<Entry>, pos: nat)
    requires 0 < pos < |h|
    ensures SiftUp(h, pos)[0] == h[0] || SiftUp(h, pos)[0] == h[pos]
    decreases |h| - pos
  {
    if 2 * pos + 1 < |h| {
      var c := SmallerChild(h, pos);
      SiftUpRoot(Swapped(h, pos, c), c);
    } else {
      SiftDownRoot(h, pos);
    }
  }

  // ---------------------------------------------------------------- select: a pop and a push

  /** The list after a select renews the root's entry to e. */
  function Replaced(h: seq<Entry>, e: Entry): (r: seq<Entry>)
    requires h != []
    ensures |r| == |h|
  {
    Push(Pop(h).1, e)
  }

  lemma ReplacedEntries(h: seq<Entry>, e: Entry)
    requires h != []
    ensures multiset(Replaced(h, e)) + multiset{h[0]} == multiset(h) + multiset{e}
  {
    PopRemovesEntry(h);
    PushAddsEntry(Pop(h).1, e);
  }

  /** The new root is the pushed entry or one of three: what was at 1, 2 or at the end. */
  lemma NextRoot(h: seq<Entry>, e: Entry)
    requires |h| >= 4
    ensures Replaced(h, e)[0] in {e, h[1], h[2], h[|h|-1]}
  {
    var sunk := h[..|h|-1][0 := h[|h|-1]];
    var c := SmallerChild(sunk, 0);
    assert c == 1 || c == 2;
    SiftUpRoot(Swapped(sunk, 0, c), c);
    assert Pop(h).1 == SiftUp(sunk, 0);
    SiftDownRoot(Pop(h).1 + [e], |h| - 1);
  }

  /** The smaller child of the root is drawn up; the other one's side is left alone by the pop. */
  lemma PopBeside(h: seq<Entry>, c: nat, q: nat)
    requires |h| >= 4 && 1 <= c <= 2 && Less(h[c], h[3 - c])
    requires q < |h| - 1 && !Below(q, c) && !Below(c, q)
    ensures Pop(h).1[q] == h[q]
  {
    var sunk := h[..|h|-1][0 := h[|h|-1]];
    assert SmallerChild(sunk, 0) == c;
    assert Below(c, 0);
    SiftUpElsewhere(Swapped(sunk, 0, c), c, q);
  }

  lemma PopDrawsUp(h: seq<Entry>, c: nat)
    requires |h| >= 4 && 1 <= c <= 2 && Less(h[c], h[3 - c]) && !Less(h[|h|-1], h[c])
    ensures Pop(h).1[0] == h[c]
  {
    var sunk := h[..|h|-1][0 := h[|h|-1]];
    assert SmallerChild(sunk, 0) == c;
    SiftUpLeavesSmaller(Swapped(sunk, 0, c), c, 0);
  }

  lemma ReplacedBeside(h: seq<Entry>, e: Entry, c: nat, q: nat)
    requires |h| >= 4 && 1 <= c <= 2 && Less(h[c], h[3 - c])
    requires q < |h| - 1 && !Below(q, c) && !Below(c, q)
    requires !Below(|h| - 1, q) || !Less(e, h[q])
    ensures Replaced(h, e)[q] == h[q]
  {
    PopBeside(h, c, q);
    var all := Pop(h).1 + [e];
    if !Below(|h| - 1, q) {
      SiftDownElsewhere(all, |h| - 1, q);
    } else {
      SiftDownLeavesSmaller(all, |h| - 1, q);
    }
  }

  lemma ReplacedRoot(h: seq<Entry>, e: Entry, c: nat)
    requires |h| >= 4 && 1 <= c <= 2 && Less(h[c], h[3 - c]) && !Less(h[|h|-1], h[c]) && !Less(e, h[c])
    ensures Replaced(h, e)[0] == h[c]
  {
    PopDrawsUp(h, c);
    SiftDownLeavesSmaller(Pop(h).1 + [e], |h| - 1, 0);
  }

  // ---------------------------------------------------------------- release: a filter and a push

  /** The list after a release renews the entry at position k to e. */
  function Renewed(h: seq<Entry>, k: nat, e: Entry): (r: seq<Entry>)
    requires k < |h|
    ensures |r| == |h|
  {
    Push(h[..k] + h[k+1..], e)
  }

  ghost predicate DifferentServers(h: seq<Entry>) {
    forall i, j :: 0 <= i < j < |h| ==> h[i].server != h[j].server
  }

  lemma {:induction false} WithoutOne(front: seq<Entry>, e: Entry, back: seq<Entry>)
    requires forall k :: 0 <= k < |front| ==> front[k].server != e.server
    requires forall k :: 0 <= k < |back| ==> back[k].server != e.server
    ensures Without(front + [e] + back, e.server) == front + back
    decreases |back|
  {
    var all := front + [e] + back;
    if back == [] {
      assert all[..|all|-1] == front;
      WithoutNobody(front, e.server);
    } else {
      var shorter := back[..|back|-1];
      assert all[..|all|-1] == front + [e] + shorter;
      WithoutOne(front, e, shorter);
      assert (front + shorter) + [back[|back|-1]] == front + back;
    }
  }

  lemma RenewedIsFilterAndPush(h: seq<Entry>, k: nat, e: Entry)
    requires k < |h| && DifferentServers(h) && e.server == h[k].server
    ensures Push(Without(h, e.server), e) == Renewed(h, k, e)
  {
    assert h == h[..k] + [h[k]] + h[k+1..];
    WithoutOne(h[..k], h[k], h[k+1..]);
  }

  lemma RenewedEntries(h: seq<Entry>, k: nat, e: Entry)
    requires k < |h|
    ensures multiset(Renewed(h, k, e)) + multiset{h[k]} == multiset(h) + multiset{e}
  {
    assert h == h[..k] + [h[k]] + h[k+1..];
    PushAddsEntry(h[..k] + h[k+1..], e);
  }

  /** Beside the path the others stand where they stood, those behind k one position earlier. */
  lemma RenewedBeside(h: seq<Entry>, k: nat, e: Entry, q: nat)
    requires k < |h| && q < |h| - 1 && !Below(|h| - 1, q)
    ensures Renewed(h, k, e)[q] == if q < k then h[q] else h[q + 1]
  {
    SiftDownElsewhere(h[..k] + h[k+1..] + [e], |h| - 1, q);
  }
}
