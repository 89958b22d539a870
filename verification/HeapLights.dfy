/**
 Lists in which a few entries are smaller than all the rest, and where those few stand after
 a select or a release.
 */
module HeapLights {
  import opened Heapq
  import opened ProxyPool
  import opened HeapPaths

  /** The three smallest entries, in this order, stand at 0, pb and pc. */
  ghost predicate Three(h: seq<Entry>, pb: nat, pc: nat) {
    && 0 < pb < |h| && 0 < pc < |h| && pb != pc
    && Less(h[0], h[pb]) && Less(h[pb], h[pc])
    && forall k :: 0 < k < |h| && k != pb && k != pc ==> Less(h[pc], h[k])
  }

  /** The two smallest stand at 0 and q. */
  ghost predicate Two(h: seq<Entry>, q: nat) {
    && 0 < q < |h| && Less(h[0], h[q])
    && forall k :: 0 < k < |h| && k != q ==> Less(h[q], h[k])
  }

  /** The list h' holds what h holds, but for one entry that e replaces. */
  ghost predicate Exchange(h: seq<Entry>, h': seq<Entry>, old': Entry, e: Entry) {
    && |h'| == |h| && multiset(h') + multiset{old'} == multiset(h) + multiset{e}
    && old' in h && old'.server == e.server && DifferentServers(h) && DifferentServers(h')
  }

  lemma {:induction false} OnceIn(h: seq<Entry>, x: Entry)
    requires DifferentServers(h)
    ensures multiset(h)[x] <= 1
  {
    if h != [] {
      var front, last := h[..|h|-1], h[|h|-1];
      OnceIn(front, x);
      assert h == front + [last];
      assert forall k :: 0 <= k < |front| ==> front[k].server != last.server;
      assert last !in front;
      assert last !in multiset(front);
    }
  }

  lemma ExchangeCounts(h: seq<Entry>, h': seq<Entry>, old': Entry, e: Entry, x: Entry)
    requires Exchange(h, h', old', e)
    ensures multiset(h')[x] + (if x == old' then 1 else 0) == multiset(h)[x] + if x == e then 1 else 0
  {
    assert (multiset(h') + multiset{old'})[x] == (multiset(h) + multiset{e})[x];
  }

  /** An entry of the new list is e or an entry of the old one other than the one replaced. */
  lemma ExchangedEntry(h: seq<Entry>, h': seq<Entry>, old': Entry, e: Entry, k: nat)
    requires Exchange(h, h', old', e) && k < |h'|
    ensures h'[k] == e || (h'[k] in h && h'[k] != old')
  {
    var x := h'[k];
    assert x in multiset(h');
    OnceIn(h, x);
    ExchangeCounts(h, h', old', e, x);
    if x != e {
      assert x in multiset(h);
    }
  }

  /** Every other entry of the old list is somewhere in the new one, and so is e. */
  lemma ExchangedPlace(h: seq<Entry>, h': seq<Entry>, old': Entry, e: Entry, x: Entry) returns (k: nat)
    requires Exchange(h, h', old', e) && (x == e || (x in h && x != old'))
    ensures k < |h'| && h'[k] == x
  {
    ExchangeCounts(h, h', old', e, x);
    assert x == e || x in multiset(h);
    if x == old' {
      assert multiset(h)[x] >= 1 by {
        assert old' in multiset(h);
      }
    }
    assert x in multiset(h');
    k :| 0 <= k < |h'| && h'[k] == x;
  }

  /** Larger than top, or one of the given entries. */
  ghost predicate LargeBut(h: seq<Entry>, few: set<Entry>, top: Entry) {
    forall x :: x in h && x !in few ==> Less(top, x)
  }

  lemma ExchangeKeepsLarge(h: seq<Entry>, h': seq<Entry>, old': Entry, e: Entry, few: set<Entry>, top: Entry)
    requires Exchange(h, h', old', e) && LargeBut(h, few + {old'}, top) && (e in few || Less(top, e))
    ensures LargeBut(h', few, top)
  {
    forall x | x in h' && x !in few ensures Less(top, x) {
      var k :| 0 <= k < |h'| && h'[k] == x;
      ExchangedEntry(h, h', old', e, k);
    }
  }

  lemma ThreeFrom(h: seq<Entry>, pb: nat, pc: nat)
    requires DifferentServers(h) && 0 < pb < |h| && 0 < pc < |h| && pb != pc
    requires Less(h[0], h[pb]) && Less(h[pb], h[pc]) && LargeBut(h, {h[0], h[pb], h[pc]}, h[pc])
    ensures Three(h, pb, pc)
  {
    forall k | 0 < k < |h| && k != pb && k != pc ensures Less(h[pc], h[k]) {
      assert h[k] in h;
    }
  }

  lemma ThreeLarge(h: seq<Entry>, pb: nat, pc: nat)
    requires Three(h, pb, pc)
    ensures LargeBut(h, {h[0], h[pb], h[pc]}, h[pc])
  {
  }

  lemma TwoFrom(h: seq<Entry>, q: nat)
    requires DifferentServers(h) && 0 < q < |h| && Less(h[0], h[q]) && LargeBut(h, {h[0], h[q]}, h[q])
    ensures Two(h, q)
  {
    forall k | 0 < k < |h| && k != q ensures Less(h[q], h[k]) {
      assert h[k] in h;
    }
  }

  lemma ReplacedExchange(h: seq<Entry>, e: Entry)
    requires h != [] && DifferentServers(h) && DifferentServers(Replaced(h, e)) && h[0].server == e.server
    ensures Exchange(h, Replaced(h, e), h[0], e)
  {
    ReplacedEntries(h, e);
  }

  lemma RenewedExchange(h: seq<Entry>, k: nat, e: Entry)
    requires k < |h| && DifferentServers(h) && DifferentServers(Renewed(h, k, e)) && h[k].server == e.server
    ensures Exchange(h, Renewed(h, k, e), h[k], e)
  {
    RenewedEntries(h, k, e);
  }

  // ---------------------------------------------------------------- a select that makes the root third

  /** In heap order the second smallest is next to the root, the third next to one of the two. */
  lemma HeapPlaces(h: seq<Entry>, pb: nat, pc: nat)
    requires IsHeap(h) && Three(h, pb, pc)
    ensures 1 <= pb <= 2 && (Parent(pc) == 0 || Parent(pc) == pb)
  {
    assert !Less(h[pb], h[Parent(pb)]);
    assert !Less(h[pc], h[Parent(pc)]);
  }

  /** The third smallest ends on the path of the last position; it and the second are placed in one of two ways. */
  ghost predicate OnPath(h: seq<Entry>, pb: nat, pc: nat) {
    && |h| >= 5
    && var m := |h| - 1;
      (pb == Depth1(m) && pc == Depth2(m)) || (pb == Beside(m) && pc == Depth1(m))
  }

  lemma ThirdSelected(h: seq<Entry>, pb: nat, pc: nat, e: Entry) returns (qb: nat, qc: nat)
    requires |h| >= 5 && IsHeap(h) && Three(h, pb, pc)
    requires Exchange(h, Replaced(h, e), h[0], e)
    requires Less(h[pc], e) && forall k :: 0 < k < |h| && k != pb && k != pc ==> Less(e, h[k])
    ensures
      var r := Replaced(h, e);
      && IsHeap(r) && Three(r, qb, qc) && r[0] == h[pb] && r[qb] == h[pc] && r[qc] == e
      && Below(|h| - 1, qc)
  {
    var r := Replaced(h, e);
    PopKeepsHeap(h);
    PushKeepsHeap(Pop(h).1, e);
    ThreeLarge(h, pb, pc);
    assert LargeBut(h, {h[pb], h[pc]} + {h[0]}, e) by {
      LargeThanNew(h, pb, pc, e);
    }
    ExchangeKeepsLarge(h, r, h[0], e, {h[pb], h[pc], e}, e) by {
      assert LargeBut(h, {h[pb], h[pc], e} + {h[0]}, e);
    }
    var k := ExchangedPlace(h, r, h[0], e, h[pb]);
    RootIsLeast(r, k);
    ExchangedEntry(h, r, h[0], e, 0);
    RootIsSecond(h, r, pb, pc, e);
    qb := ExchangedPlace(h, r, h[0], e, h[pc]);
    qc := SiftDownLands(Pop(h).1 + [e], |h| - 1);
    assert r[qc] == e;
    ThreeFrom(r, qb, qc);
  }

  lemma LargeThanNew(h: seq<Entry>, pb: nat, pc: nat, e: Entry)
    requires Three(h, pb, pc)
    requires forall k :: 0 < k < |h| && k != pb && k != pc ==> Less(e, h[k])
    ensures LargeBut(h, {h[pb], h[pc]} + {h[0]}, e)
  {
    forall x | x in h && x !in {h[pb], h[pc]} + {h[0]} ensures Less(e, x) {
      var k :| 0 <= k < |h| && h[k] == x;
    }
  }

  lemma RootIsSecond(h: seq<Entry>, r: seq<Entry>, pb: nat, pc: nat, e: Entry)
    requires Three(h, pb, pc) && r != [] && Less(h[pc], e)
    requires !Less(h[pb], r[0]) && (r[0] == e || (r[0] in h && r[0] != h[0]))
    ensures r[0] == h[pb]
  {
    if r[0] != e {
      var k :| 0 <= k < |h| && h[k] == r[0];
    }
  }

  /** Wherever the three stood, the new third is on the path. */
  lemma ThirdOnPath(h: seq<Entry>, pb: nat, pc: nat)
    requires |h| >= 5 && IsHeap(h) && Three(h, pb, pc) && Below(|h| - 1, pc)
    ensures OnPath(h, pb, pc)
  {
    var m := |h| - 1;
    HeapPlaces(h, pb, pc);
    assert pc <= 6;
    OneAncestorEach(m, pc);
    hide Depth1, Depth2, Three, Below;
    assert pb == Depth1(m) || pb == Beside(m);
    assert pc >= 3 ==> Parent(pc) == Depth1(m);
  }

  /** Once the three are on the path in either way, a further select leaves all of them on it. */
  lemma StaysOnPath(h: seq<Entry>, pb: nat, pc: nat, e: Entry, qb: nat, qc: nat)
    requires |h| >= 5 && IsHeap(h) && Three(h, pb, pc) && OnPath(h, pb, pc)
    requires Exchange(h, Replaced(h, e), h[0], e)
    requires Less(h[pc], e) && forall k :: 0 < k < |h| && k != pb && k != pc ==> Less(e, h[k])
    requires
      var r := Replaced(h, e);
      && IsHeap(r) && Three(r, qb, qc) && r[0] == h[pb] && r[qb] == h[pc] && r[qc] == e
      && OnPath(r, qb, qc)
    ensures qb == Depth1(|h| - 1) && qc == Depth2(|h| - 1)
  {
    hide Replaced, Depth1, Depth2, Exchange, IsHeap;
    var m, r := |h| - 1, Replaced(h, e);
    var d, o := Depth1(m), Beside(m);
    assert o == 3 - d && !Below(d, o) && !Below(o, d);
    hide Below;
    if pb == d {
      ReplacedBeside(h, e, d, o);
      assert r[o] == h[o];
      assert Less(e, h[o]);
    } else {
      ReplacedBeside(h, e, o, d);
      assert r[d] == h[pc] == r[qb];
      assert qb == d;
    }
  }

  // ---------------------------------------------------------------- releases and a select out of heap order

  /** Renewing the second smallest below the third moves the third one position to the left. */
  lemma SecondReleased(h: seq<Entry>, q: nat, e: Entry)
    requires |h| >= 5 && Three(h, Depth1(|h| - 1), q)
    requires 3 <= q && q - 1 != Depth1(|h| - 1) && !Below(|h| - 1, q - 1)
    requires Exchange(h, Renewed(h, Depth1(|h| - 1), e), h[Depth1(|h| - 1)], e) && Less(e, h[q])
    requires Less(e, h[0]) || Less(h[0], e)
    ensures
      var d, r := Depth1(|h| - 1), Renewed(h, Depth1(|h| - 1), e);
      && (if Less(e, h[0]) then r[0] == e && r[d] == h[0] else r[0] == h[0] && r[d] == e)
      && r[q - 1] == h[q] && Three(r, d, q - 1)
  {
    hide Depth1, Depth2, Exchange, Below;
    var m, d := |h| - 1, Depth1(|h| - 1);
    var r, all := Renewed(h, d, e), h[..d] + h[d+1..] + [e];
    SecondPathLarger(h, q, e, all);
    SiftDownRises(all, m);
    assert r == SiftDown(all, m);
    RenewedBeside(h, d, e, q - 1);
    ThreeLarge(h, d, q);
    assert LargeBut(h, {h[0], e, h[q]} + {h[d]}, h[q]);
    ExchangeKeepsLarge(h, r, h[d], e, {h[0], e, h[q]}, h[q]);
    assert DifferentServers(r) by {
      ExchangeDiffers(h, r, h[d], e);
    }
    ThreeFrom(r, d, q - 1);
  }

  lemma ExchangeDiffers(h: seq<Entry>, h': seq<Entry>, old': Entry, e: Entry)
    requires Exchange(h, h', old', e)
    ensures DifferentServers(h) && DifferentServers(h')
  {
  }

  lemma SecondPathLarger(h: seq<Entry>, q: nat, e: Entry, all: seq<Entry>)
    requires |h| >= 5 && Three(h, Depth1(|h| - 1), q) && q >= 1 && !Below(|h| - 1, q - 1) && Less(e, h[q])
    requires all == h[..Depth1(|h| - 1)] + h[Depth1(|h| - 1) + 1..] + [e]
    ensures |all| == |h| && PathLarger(all, |h| - 1)
  {
    hide Depth1, Depth2, Below, Three;
    var m, d := |h| - 1, Depth1(|h| - 1);
    forall k: nat | 0 < k < m && Below(m, k) ensures Less(all[m], all[k]) {
      if k < d {
        OneAncestorEach(m, k);
      }
      ShiftedAt(h, d, e, k);
      ThirdBelow(h, d, q, k + 1, e);
    }
    ShiftedAt(h, d, e, m);
  }

  lemma ShiftedAt(h: seq<Entry>, d: nat, e: Entry, k: nat)
    requires d < |h| && k < |h|
    ensures
      var all := h[..d] + h[d+1..] + [e];
      |all| == |h| && all[k] == if k < d then h[k] else if k < |h| - 1 then h[k + 1] else e
  {
  }

  lemma ThirdBelow(h: seq<Entry>, pb: nat, pc: nat, k: nat, e: Entry)
    requires Three(h, pb, pc) && Less(e, h[pc]) && 0 < k < |h| && k != pb && k != pc
    ensures Less(e, h[k])
  {
    assert Less(h[pc], h[k]);
  }

  /** A large select takes the root; the second becomes the root and the third stays beside the path. */
  lemma RootSelected(h: seq<Entry>, q: nat, e: Entry)
    requires |h| >= 5 && Three(h, Depth1(|h| - 1), q)
    requires q < |h| - 1 && !Below(|h| - 1, q) && !Below(q, Depth1(|h| - 1)) && !Below(Depth1(|h| - 1), q)
    requires Exchange(h, Replaced(h, e), h[0], e) && Less(h[q], e)
    ensures
      var r := Replaced(h, e);
      r[0] == h[Depth1(|h| - 1)] && r[q] == h[q] && Two(r, q)
  {
    hide Depth1, Exchange, Below, Replaced;
    var m, d, r := |h| - 1, Depth1(|h| - 1), Replaced(h, e);
    assert Less(h[d], h[3 - d]);
    ReplacedRoot(h, e, d);
    ReplacedBeside(h, e, d, q);
    ThreeLarge(h, d, q);
    assert LargeBut(h, {h[d], h[q]} + {h[0]}, h[q]);
    ExchangeKeepsLarge(h, r, h[0], e, {h[d], h[q]}, h[q]);
    ExchangeDiffers(h, r, h[0], e);
    TwoFrom(r, q);
  }

  /** Renewing the root below everything pushes it back to the root and everything on its path down by one. */
  lemma RootReleased(h: seq<Entry>, q: nat, e: Entry, q': nat)
    requires |h| >= 5 && Two(h, q) && Less(e, h[q]) && Exchange(h, Renewed(h, 0, e), h[0], e)
    requires q' == if q == Depth1(|h| - 1) + 1 then Depth2(|h| - 1) else q - 1
    requires q != Depth1(|h| - 1) + 1 ==> q >= 2 && !Below(|h| - 1, q - 1)
    ensures
      var r := Renewed(h, 0, e);
      r[0] == e && r[q'] == h[q] && Two(r, q')
  {
    hide Depth1, Depth2, Exchange, Below, Two;
    var r := Renewed(h, 0, e);
    RootRises(h, q, e);
    if q != Depth1(|h| - 1) + 1 {
      RenewedBeside(h, 0, e, q - 1);
    }
    TwoLarge(h, q);
    assert LargeBut(h, {e, h[q]} + {h[0]}, h[q]);
    ExchangeKeepsLarge(h, r, h[0], e, {e, h[q]}, h[q]);
    ExchangeDiffers(h, r, h[0], e);
    TwoFrom(r, q');
  }

  lemma RootRises(h: seq<Entry>, q: nat, e: Entry)
    requires |h| >= 5 && Two(h, q) && Less(e, h[q])
    ensures 0 < q < |h|
    ensures Renewed(h, 0, e)[0] == e
    ensures Renewed(h, 0, e)[Depth2(|h| - 1)] == h[Depth1(|h| - 1) + 1]
  {
    hide Depth1, Depth2, Below, PathLarger, SiftDown, Two;
    var all := RootShifted(h, q, e);
    SiftDownRises(all, |h| - 1);
    SiftDownShifts(all, |h| - 1);
  }

  lemma RootShifted(h: seq<Entry>, q: nat, e: Entry) returns (all: seq<Entry>)
    requires |h| >= 5 && Two(h, q) && Less(e, h[q])
    ensures 0 < q < |h| && |all| == |h| && Renewed(h, 0, e) == SiftDown(all, |h| - 1) && PathLarger(all, |h| - 1)
    ensures all[|h| - 1] == e && Less(e, all[0])
    ensures all[Depth1(|h| - 1)] == h[Depth1(|h| - 1) + 1]
  {
    hide Depth1, Depth2, Below, PathLarger, SiftDown;
    all := h[..0] + h[1..] + [e];
    RootPathLarger(h, q, e, all);
    ShiftedAt(h, 0, e, 0);
    ShiftedAt(h, 0, e, Depth1(|h| - 1));
    ShiftedAt(h, 0, e, |h| - 1);
    SecondBelow(h, q, 1, e);
  }

  lemma SecondBelow(h: seq<Entry>, q: nat, k: nat, e: Entry)
    requires Two(h, q) && Less(e, h[q]) && 0 < k < |h|
    ensures Less(e, h[k])
  {
    assert k == q || Less(h[q], h[k]);
  }

  lemma RootPathLarger(h: seq<Entry>, q: nat, e: Entry, all: seq<Entry>)
    requires |h| >= 1 && Two(h, q) && Less(e, h[q]) && all == h[..0] + h[1..] + [e]
    ensures |all| == |h| && PathLarger(all, |h| - 1)
  {
    hide Two, Below;
    var m := |h| - 1;
    ShiftedAt(h, 0, e, m);
    forall k: nat | 0 < k < m && Below(m, k) ensures Less(all[m], all[k]) {
      ShiftedAt(h, 0, e, k);
      SecondBelow(h, q, k + 1, e);
    }
  }

  lemma TwoLarge(h: seq<Entry>, q: nat)
    requires Two(h, q)
    ensures LargeBut(h, {h[0], h[q]}, h[q])
  {
  }

  /** With the second smallest hidden below, another select brings a larger entry to the root. */
  lemma HiddenIsMissed(h: seq<Entry>, q: nat, e: Entry)
    requires |h| >= 5 && Two(h, q) && 3 <= q < |h| - 1 && DifferentServers(h) && e.server == h[0].server
    ensures Replaced(h, e)[0].server != h[q].server
  {
    hide Replaced;
    NextRoot(h, e);
  }
}
