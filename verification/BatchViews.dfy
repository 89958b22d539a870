/**
 The rows of a scheduled batch and the two ways the code splits them into a decode lane and
 an offloaded prefill lane: the scheduler's loop of appends and the runner's index lists.
 */
module BatchViews {
  import opened Picking
  import opened Wrappers

  type ReqId = string

  /** A request scheduled for the first time. */
  datatype NewReq = NewReq(reqId: ReqId, numComputedTokens: int, promptTokenIds: seq<int>, blockIds: seq<seq<int>>)

  /** Requests scheduled before, as parallel lists; newTokenIds may be shorter than the others. */
  datatype Cached = Cached(
    reqIds: seq<ReqId>,
    resumedReqIds: set<ReqId>,
    newTokenIds: seq<seq<int>>,
    allTokenIds: map<ReqId, seq<int>>,
    newBlockIds: seq<Option<seq<seq<int>>>>,
    numComputedTokens: seq<int>,
    numOutputTokens: seq<int>)

  const EMPTY_CACHED := Cached([], {}, [], map[], [], [], [])

  /** What the parallel lists say about one request. */
  datatype Row = Row(
    reqId: ReqId,
    resumed: bool,
    newTokens: Option<seq<int>>,
    allTokens: Option<seq<int>>,
    newBlocks: Option<seq<seq<int>>>,
    numComputed: int,
    numOutput: int)

  /** One lane's view of a batch. */
  datatype LaneView = LaneView(
    newReqs: seq<NewReq>,
    cachedReqs: Cached,
    numScheduledTokens: map<ReqId, int>,
    totalNumScheduledTokens: int,
    specDecodeTokens: map<ReqId, seq<int>>,
    encoderInputs: map<ReqId, seq<int>>,
    numCommonPrefixBlocks: seq<int>)

  const EMPTY_VIEW := LaneView([], EMPTY_CACHED, map[], 0, map[], map[], [])

  predicate Aligned(c: Cached) {
    && |c.reqIds| <= |c.newBlockIds|
    && |c.reqIds| <= |c.numComputedTokens|
    && |c.reqIds| <= |c.numOutputTokens|
  }

  function RowAt(c: Cached, i: nat): Row
    requires Aligned(c) && i < |c.reqIds|
  {
    var r := c.reqIds[i];
    Row(r, r in c.resumedReqIds,
        if i < |c.newTokenIds| then Some(c.newTokenIds[i]) else None,
        if r in c.allTokenIds then Some(c.allTokenIds[r]) else None,
        c.newBlockIds[i], c.numComputedTokens[i], c.numOutputTokens[i])
  }

  function Rows(c: Cached): (rows: seq<Row>)
    requires Aligned(c)
    ensures |rows| == |c.reqIds|
  {
    seq(|c.reqIds|, i requires 0 <= i < |c.reqIds| => RowAt(c, i))
  }

  // ---------------------------------------------------------------- the two splits

  /** The positions below n whose request is (or is not) in ids. */
  function IndicesTo(reqIds: seq<ReqId>, ids: set<ReqId>, inside: bool, n: nat): (r: seq<nat>)
    requires n <= |reqIds|
    ensures forall k :: 0 <= k < |r| ==> r[k] < n
  {
    if n == 0 then []
    else
      var r := IndicesTo(reqIds, ids, inside, n - 1);
      if (reqIds[n-1] in ids) == inside then r + [n - 1] else r
  }

  function Indices(reqIds: seq<ReqId>, ids: set<ReqId>, inside: bool): (r: seq<nat>)
    ensures forall k :: 0 <= k < |r| ==> r[k] < |reqIds|
  {
    IndicesTo(reqIds, ids, inside, |reqIds|)
  }

  function Gather<T>(s: seq<T>, indices: seq<nat>): (r: seq<T>)
    requires forall k :: 0 <= k < |indices| ==> indices[k] < |s|
    ensures |r| == |indices|
  {
    seq(|indices|, k requires 0 <= k < |indices| => s[indices[k]])
  }

  /** The entries at the given positions, leaving out positions the list does not reach. */
  function GatherPresent<T>(s: seq<T>, indices: seq<nat>): (r: seq<T>)
    ensures |r| <= |indices|
  {
    if indices == [] then []
    else
      var r := GatherPresent(s, indices[..|indices|-1]);
      var i := indices[|indices|-1];
      if i < |s| then r + [s[i]] else r
  }

  function Restrict<T>(m: map<ReqId, T>, ids: set<ReqId>): map<ReqId, T> {
    map r | r in m && r in ids :: m[r]
  }

  function Without<T>(m: map<ReqId, T>, ids: set<ReqId>): map<ReqId, T> {
    map r | r in m && r !in ids :: m[r]
  }

  function ToSet(s: seq<ReqId>): set<ReqId> {
    set r | r in s
  }

  /** The parallel lists at the given positions. */
  function BuildAt(c: Cached, indices: seq<nat>): Cached
    requires Aligned(c)
    requires forall k :: 0 <= k < |indices| ==> indices[k] < |c.reqIds|
  {
    var ids := ToSet(Gather(c.reqIds, indices));
    Cached(
      Gather(c.reqIds, indices),
      c.resumedReqIds * ids,
      GatherPresent(c.newTokenIds, indices),
      Restrict(c.allTokenIds, ids),
      Gather(c.newBlockIds, indices),
      Gather(c.numComputedTokens, indices),
      Gather(c.numOutputTokens, indices))
  }

  function Part(c: Cached, ids: set<ReqId>, inside: bool): Cached
    requires Aligned(c)
  {
    BuildAt(c, Indices(c.reqIds, ids, inside))
  }

  /** The runner's version: two index lists, then one comprehension per list. */
  method SplitByIndex(cached: Cached, movedReqIds: set<ReqId>) returns (kept: Cached, moved: Cached)
    requires Aligned(cached)
    ensures kept == Part(cached, movedReqIds, false)
    ensures moved == Part(cached, movedReqIds, true)
  {
    if cached.reqIds == [] {
      EmptyParts(cached, movedReqIds);
      return EMPTY_CACHED, EMPTY_CACHED;
    }
    hide BuildAt;
    var keptIndices: seq<nat>, movedIndices: seq<nat> := [], [];
    for i := 0 to |cached.reqIds|
      invariant keptIndices == IndicesTo(cached.reqIds, movedReqIds, false, i)
      invariant movedIndices == IndicesTo(cached.reqIds, movedReqIds, true, i)
    {
      if cached.reqIds[i] in movedReqIds {
        movedIndices := movedIndices + [i];
      } else {
        keptIndices := keptIndices + [i];
      }
    }
    kept, moved := BuildAt(cached, keptIndices), BuildAt(cached, movedIndices);
  }

  /** The scheduler's version: one pass that appends every field to one of two sets of lists. */
  method SplitByAppending(cached: Cached, offloadReqIds: set<ReqId>) returns (kept: Cached, moved: Cached)
    requires Aligned(cached)
    ensures kept == Part(cached, offloadReqIds, false)
    ensures moved == Part(cached, offloadReqIds, true)
  {
    if cached.reqIds == [] {
      EmptyParts(cached, offloadReqIds);
      return EMPTY_CACHED, EMPTY_CACHED;
    }
    hide AppendRow, CollectedTo, Part, Completed;
    NothingCollected(cached, offloadReqIds);
    var k, m := EMPTY_CACHED, EMPTY_CACHED;
    for i := 0 to |cached.reqIds|
      invariant CollectedTo(cached, offloadReqIds, false, i, k)
      invariant CollectedTo(cached, offloadReqIds, true, i, m)
    {
      if cached.reqIds[i] in offloadReqIds {
        CollectOne(cached, offloadReqIds, true, m, i);
        CollectNone(cached, offloadReqIds, false, k, i);
        m := AppendRow(cached, m, i);
      } else {
        CollectOne(cached, offloadReqIds, false, k, i);
        CollectNone(cached, offloadReqIds, true, m, i);
        k := AppendRow(cached, k, i);
      }
    }
    CollectedIsPart(cached, offloadReqIds, false, k);
    CollectedIsPart(cached, offloadReqIds, true, m);
    kept, moved := Completed(cached, k), Completed(cached, m);
  }

  /** The collected lists with the two fields that are looked up rather than appended. */
  function Completed(cached: Cached, target: Cached): Cached {
    var present := ToSet(target.reqIds);
    target.(resumedReqIds := cached.resumedReqIds * present, allTokenIds := Restrict(cached.allTokenIds, present))
  }

  /** The appends of one iteration, to the lists of the chosen side. */
  function AppendRow(cached: Cached, target: Cached, i: nat): Cached
    requires Aligned(cached) && i < |cached.reqIds|
  {
    target.(
      reqIds := target.reqIds + [cached.reqIds[i]],
      newBlockIds := target.newBlockIds + [cached.newBlockIds[i]],
      numComputedTokens := target.numComputedTokens + [cached.numComputedTokens[i]],
      numOutputTokens := target.numOutputTokens + [cached.numOutputTokens[i]],
      newTokenIds := if i < |cached.newTokenIds| then target.newTokenIds + [cached.newTokenIds[i]] else target.newTokenIds)
  }

  /** The lists appended to so far hold the entries at the given positions. */
  ghost predicate Collected(cached: Cached, indices: seq<nat>, target: Cached)
    requires Aligned(cached)
    requires forall k :: 0 <= k < |indices| ==> indices[k] < |cached.reqIds|
  {
    && target.reqIds == Gather(cached.reqIds, indices)
    && target.newTokenIds == GatherPresent(cached.newTokenIds, indices)
    && target.newBlockIds == Gather(cached.newBlockIds, indices)
    && target.numComputedTokens == Gather(cached.numComputedTokens, indices)
    && target.numOutputTokens == Gather(cached.numOutputTokens, indices)
  }

  /** The lists appended to by the first n iterations, for one side. */
  ghost predicate CollectedTo(cached: Cached, ids: set<ReqId>, inside: bool, n: nat, target: Cached)
    requires Aligned(cached) && n <= |cached.reqIds|
  {
    Collected(cached, IndicesTo(cached.reqIds, ids, inside, n), target)
  }

  lemma EmptyParts(cached: Cached, ids: set<ReqId>)
    requires cached.reqIds == [] && Aligned(cached)
    ensures Part(cached, ids, false) == Part(cached, ids, true) == EMPTY_CACHED
  {
  }

  lemma NothingCollected(cached: Cached, ids: set<ReqId>)
    requires Aligned(cached)
    ensures CollectedTo(cached, ids, false, 0, EMPTY_CACHED)
    ensures CollectedTo(cached, ids, true, 0, EMPTY_CACHED)
  {
  }

  lemma CollectedIsPart(cached: Cached, ids: set<ReqId>, inside: bool, target: Cached)
    requires Aligned(cached) && CollectedTo(cached, ids, inside, |cached.reqIds|, target)
    ensures Completed(cached, target) == Part(cached, ids, inside)
  {
  }

  lemma GatherAppend<T>(s: seq<T>, indices: seq<nat>, i: nat)
    requires i < |s| && forall k :: 0 <= k < |indices| ==> indices[k] < |s|
    ensures Gather(s, indices + [i]) == Gather(s, indices) + [s[i]]
  {
  }

  lemma GatherPresentAppend<T>(s: seq<T>, indices: seq<nat>, i: nat)
    ensures GatherPresent(s, indices + [i]) ==
      if i < |s| then GatherPresent(s, indices) + [s[i]] else GatherPresent(s, indices)
  {
    assert (indices + [i])[..|indices|] == indices;
  }

  lemma CollectOne(cached: Cached, ids: set<ReqId>, inside: bool, target: Cached, i: nat)
    requires Aligned(cached) && i < |cached.reqIds| && (cached.reqIds[i] in ids) == inside
    requires CollectedTo(cached, ids, inside, i, target)
    ensures CollectedTo(cached, ids, inside, i + 1, AppendRow(cached, target, i))
  {
    var indices := IndicesTo(cached.reqIds, ids, inside, i);
    assert IndicesTo(cached.reqIds, ids, inside, i + 1) == indices + [i];
    hide IndicesTo, Gather, GatherPresent;
    GatherAppend(cached.reqIds, indices, i);
    GatherPresentAppend(cached.newTokenIds, indices, i);
    GatherAppend(cached.newBlockIds, indices, i);
    GatherAppend(cached.numComputedTokens, indices, i);
    GatherAppend(cached.numOutputTokens, indices, i);
  }

  lemma CollectNone(cached: Cached, ids: set<ReqId>, inside: bool, target: Cached, i: nat)
    requires Aligned(cached) && i < |cached.reqIds| && (cached.reqIds[i] in ids) != inside
    requires CollectedTo(cached, ids, inside, i, target)
    ensures CollectedTo(cached, ids, inside, i + 1, target)
  {
    assert IndicesTo(cached.reqIds, ids, inside, i + 1) == IndicesTo(cached.reqIds, ids, inside, i);
  }

  // ---------------------------------------------------------------- what a split keeps

  /** The rows whose request is (or is not) in ids, in order. */
  function RowsWhere(rows: seq<Row>, ids: set<ReqId>, inside: bool): seq<Row> {
    if rows == [] then []
    else
      var r := RowsWhere(rows[..|rows|-1], ids, inside);
      var last := rows[|rows|-1];
      if (last.reqId in ids) == inside then r + [last] else r
  }

  function RowIn(ids: set<ReqId>, inside: bool): Row -> bool {
    (row: Row) => (row.reqId in ids) == inside
  }

  /** The filter keeps the rows inside, or outside, of the ids: all of them, in order. */
  lemma {:induction false} RowsArePicked(rows: seq<Row>, ids: set<ReqId>, inside: bool)
    ensures Picks(rows, RowIn(ids, inside), RowsWhere(rows, ids, inside))
  {
    if rows == [] {
      PicksNothing(RowIn(ids, inside));
    } else {
      hide Picks;
      var front, last := rows[..|rows|-1], rows[|rows|-1];
      assert rows == front + [last];
      RowsArePicked(front, ids, inside);
      PicksOneMore(front, RowIn(ids, inside), RowsWhere(front, ids, inside), last);
    }
  }

  lemma {:induction false} RowsWhereIsGather(rows: seq<Row>, reqIds: seq<ReqId>, ids: set<ReqId>, inside: bool, n: nat)
    requires n <= |rows| == |reqIds|
    requires forall i :: 0 <= i < |rows| ==> rows[i].reqId == reqIds[i]
    ensures RowsWhere(rows[..n], ids, inside) == Gather(rows, IndicesTo(reqIds, ids, inside, n))
  {
    if n != 0 {
      RowsWhereIsGather(rows, reqIds, ids, inside, n - 1);
      assert rows[..n][..n-1] == rows[..n-1];
      var r := IndicesTo(reqIds, ids, inside, n - 1);
      if (reqIds[n-1] in ids) == inside {
        assert Gather(rows, r + [n - 1]) == Gather(rows, r) + [rows[n-1]];
      }
    }
  }

  ghost predicate Ascending(r: seq<nat>) {
    forall j, k :: 0 <= j < k < |r| ==> r[j] < r[k]
  }

  /** Positions in increasing order: those within the list come first, so entries stay aligned. */
  lemma {:induction false} PresentArePrefix<T>(s: seq<T>, indices: seq<nat>)
    requires Ascending(indices)
    ensures forall k :: 0 <= k < |indices| ==> (k < |GatherPresent(s, indices)| <==> indices[k] < |s|)
    ensures forall k :: 0 <= k < |GatherPresent(s, indices)| ==> GatherPresent(s, indices)[k] == s[indices[k]]
  {
    if indices != [] {
      var n := |indices| - 1;
      var front := indices[..n];
      var r := GatherPresent(s, front);
      PresentArePrefix(s, front);
      assert forall k :: 0 <= k < n ==> front[k] == indices[k];
      if indices[n] < |s| && n > 0 {
        assert front[n-1] < indices[n];
        assert |r| == n;
      }
    }
  }

  lemma PartRow(c: Cached, indices: seq<nat>, k: nat)
    requires Aligned(c)
    requires forall j :: 0 <= j < |indices| ==> indices[j] < |c.reqIds|
    requires Ascending(indices)
    requires k < |indices|
    ensures RowAt(BuildAt(c, indices), k) == RowAt(c, indices[k])
  {
    PresentArePrefix(c.newTokenIds, indices);
    var ids := Gather(c.reqIds, indices);
    assert ids[k] in ToSet(ids);
  }

  /** A part consists of exactly the rows of its requests, in order and with every field unchanged. */
  lemma PartKeepsRows(c: Cached, ids: set<ReqId>, inside: bool)
    requires Aligned(c)
    ensures Aligned(Part(c, ids, inside))
    ensures Rows(Part(c, ids, inside)) == RowsWhere(Rows(c), ids, inside)
    ensures Picks(Rows(c), RowIn(ids, inside), Rows(Part(c, ids, inside)))
  {
    RowsArePicked(Rows(c), ids, inside);
    hide RowAt, IndicesTo, Picks;
    var indices, p, rows := Indices(c.reqIds, ids, inside), Part(c, ids, inside), Rows(c);
    RowIds(c);
    IndicesAscend(c.reqIds, ids, inside, |c.reqIds|);
    RowsWhereIsGather(rows, c.reqIds, ids, inside, |rows|);
    assert rows[..|rows|] == rows;
    forall k | 0 <= k < |indices| ensures Rows(p)[k] == rows[indices[k]] {
      PartRow(c, indices, k);
    }
    assert Rows(p) == Gather(rows, indices);
  }

  lemma {:induction false} IndicesAscend(reqIds: seq<ReqId>, ids: set<ReqId>, inside: bool, n: nat)
    requires n <= |reqIds|
    ensures Ascending(IndicesTo(reqIds, ids, inside, n))
  {
    if n != 0 {
      var front := IndicesTo(reqIds, ids, inside, n - 1);
      IndicesAscend(reqIds, ids, inside, n - 1);
      AscendingAppend(front, n - 1);
    }
  }

  lemma AscendingAppend(front: seq<nat>, last: nat)
    requires Ascending(front) && forall k :: 0 <= k < |front| ==> front[k] < last
    ensures Ascending(front + [last])
  {
  }

  lemma RowIds(c: Cached)
    requires Aligned(c)
    ensures forall i :: 0 <= i < |c.reqIds| ==> Rows(c)[i].reqId == c.reqIds[i]
  {
  }

  /** Whichever of the two splits is used, the halves are the same. */
  method SplitsAgree(cached: Cached, ids: set<ReqId>) returns (a: (Cached, Cached), b: (Cached, Cached))
    requires Aligned(cached)
    ensures a == b
  {
    var k, m := SplitByAppending(cached, ids);
    var k', m' := SplitByIndex(cached, ids);
    a, b := (k, m), (k', m');
  }

  // ---------------------------------------------------------------- request-keyed maps

  method SplitMapping<T>(mapping: map<ReqId, T>, offloadReqIds: set<ReqId>)
    returns (kept: map<ReqId, T>, moved: map<ReqId, T>)
    ensures kept == Without(mapping, offloadReqIds)
    ensures moved == Restrict(mapping, offloadReqIds)
  {
    kept, moved := map[], map[];
    var todo := mapping.Keys;
    while todo != {}
      invariant todo <= mapping.Keys
      invariant kept == Without(map r | r in mapping && r !in todo :: mapping[r], offloadReqIds)
      invariant moved == Restrict(map r | r in mapping && r !in todo :: mapping[r], offloadReqIds)
      decreases todo
    {
      var r :| r in todo;
      if r in offloadReqIds {
        moved := moved[r := mapping[r]];
      } else {
        kept := kept[r := mapping[r]];
      }
      todo := todo - {r};
    }
    assert (map r | r in mapping && r !in todo :: mapping[r]) == mapping;
  }

  /** Updating one half with the other gives the whole mapping back. */
  lemma SplitMappingRoundTrip<T>(m: map<ReqId, T>, ids: set<ReqId>)
    ensures Without(m, ids) + Restrict(m, ids) == m
  {
  }

  /** The sum of the values of a token table. */
  ghost function SumTokens(m: map<ReqId, int>): int
    decreases |m|
  {
    if m == map[] then 0
    else
      var r :| r in m;
      m[r] + SumTokens(m - {r})
  }

  /** The sum does not depend on the order in which entries are taken. */
  lemma {:induction false} SumTokensTake(m: map<ReqId, int>, r: ReqId)
    requires r in m
    ensures SumTokens(m) == m[r] + SumTokens(m - {r})
    decreases |m|
  {
    var q :| q in m && SumTokens(m) == m[q] + SumTokens(m - {q});
    if q != r {
      SumTokensTake(m - {q}, r);
      SumTokensTake(m - {r}, q);
      assert m - {q} - {r} == m - {r} - {q};
    }
  }

  /** Splitting a token table does not change the total. */
  lemma {:induction false} SplitKeepsTotal(m: map<ReqId, int>, ids: set<ReqId>)
    ensures SumTokens(Without(m, ids)) + SumTokens(Restrict(m, ids)) == SumTokens(m)
    decreases |m|
  {
    if m == map[] {
      assert Without(m, ids) == map[] && Restrict(m, ids) == map[];
    } else {
      var r :| r in m;
      var m' := m - {r};
      SplitKeepsTotal(m', ids);
      SumTokensTake(m, r);
      if r in ids {
        SumTokensTake(Restrict(m, ids), r);
        assert Restrict(m, ids) - {r} == Restrict(m', ids);
        assert Without(m, ids) == Without(m', ids);
      } else {
        SumTokensTake(Without(m, ids), r);
        assert Without(m, ids) - {r} == Without(m', ids);
        assert Restrict(m, ids) == Restrict(m', ids);
      }
    }
  }
}
