/**
 The scheduler's bookkeeping for offloaded prefill chunks, as functions on values: what is
 selected, moved, moved back, released and refreshed.
 */
module OffloadState {
  import opened BatchViews
  import opened HoldRestore
  import opened Picking

  datatype Request = Request(numPromptTokens: int, numComputedTokens: int)

  /** The scheduler's fields. pressure is the number of offloaded tokens on this instance. */
  datatype Sched = Sched(
    requests: map<ReqId, Request>,
    running: seq<ReqId>,
    inflight: set<ReqId>,
    inflightTokens: map<ReqId, int>,
    continuing: set<ReqId>,
    inDecodeBatch: set<ReqId>,
    pressure: int)

  /** A scheduler output: the main fields, the prefill view beside them, and the ids announced. */
  datatype Output = Output(
    main: LaneView,
    prefill: LaneView,
    finishedReqIds: set<ReqId>,
    prefillRequestIds: set<ReqId>,
    prefillRequestNotPut: set<ReqId>)

  /** What the base scheduler leaves behind in the fields it owns. */
  datatype BaseSchedule = BaseSchedule(running: seq<ReqId>, requests: map<ReqId, Request>)

  // ---------------------------------------------------------------- selection

  function NewStarts(reqs: seq<NewReq>): map<ReqId, int> {
    if reqs == [] then map[]
    else
      var last := reqs[|reqs|-1];
      NewStarts(reqs[..|reqs|-1])[last.reqId := last.numComputedTokens]
  }

  /** The first n cached requests with their computed-token counts; later entries win. */
  function CachedStarts(c: Cached, n: nat): map<ReqId, int>
    requires n <= |c.reqIds| && n <= |c.numComputedTokens|
  {
    if n == 0 then map[] else CachedStarts(c, n - 1)[c.reqIds[n-1] := c.numComputedTokens[n-1]]
  }

  function ZipLength(c: Cached): (n: nat)
    ensures n <= |c.reqIds| && n <= |c.numComputedTokens|
  {
    if |c.reqIds| < |c.numComputedTokens| then |c.reqIds| else |c.numComputedTokens|
  }

  /** Where each scheduled request stood when it was scheduled. */
  function StartTokens(view: LaneView): map<ReqId, int> {
    NewStarts(view.newReqs) + CachedStarts(view.cachedReqs, ZipLength(view.cachedReqs))
  }

  function PromptTokensScheduled(request: Request, start: int, scheduled: int): int {
    var left := request.numPromptTokens - start;
    var m := if scheduled < left then scheduled else left;
    if m > 0 then m else 0
  }

  function PromptTokensRemaining(request: Request, start: int): int {
    var left := request.numPromptTokens - start;
    if left > 0 then left else 0
  }

  predicate SelectsOne(s: Sched, view: LaneView, threshold: nat, r: ReqId)
    requires r in view.numScheduledTokens
  {
    && r in s.requests
    && r in StartTokens(view)
    && PromptTokensScheduled(s.requests[r], StartTokens(view)[r], view.numScheduledTokens[r]) != 0
    && (r in s.inflight || r in s.continuing
        || PromptTokensRemaining(s.requests[r], StartTokens(view)[r]) >= threshold)
  }

  /** The requests whose prompt tokens go to the offloaded lane. */
  function Selected(s: Sched, view: LaneView, threshold: nat): set<ReqId> {
    set r | r in view.numScheduledTokens && SelectsOne(s, view, threshold, r)
  }

  // ---------------------------------------------------------------- what is selected, by the fields

  /** Position i is the last one that holds r. */
  ghost predicate LastAt(ids: seq<ReqId>, r: ReqId, i: nat) {
    i < |ids| && ids[i] == r && forall j :: i < j < |ids| ==> ids[j] != r
  }

  ghost predicate LastNewAt(reqs: seq<NewReq>, r: ReqId, i: nat) {
    i < |reqs| && reqs[i].reqId == r && forall j :: i < j < |reqs| ==> reqs[j].reqId != r
  }

  /** The request's own row says that it stood at start: its cached row, or its new one if it has no cached row. */
  ghost predicate StartsAt(view: LaneView, r: ReqId, start: int)
    requires Aligned(view.cachedReqs)
  {
    var c := view.cachedReqs;
    if r in c.reqIds then exists i: nat :: LastAt(c.reqIds, r, i) && c.numComputedTokens[i] == start
    else exists i: nat :: LastNewAt(view.newReqs, r, i) && view.newReqs[i].numComputedTokens == start
  }

  lemma {:induction false} CachedStartsAt(c: Cached, n: nat, r: ReqId) returns (i: nat)
    requires n <= |c.reqIds| && n <= |c.numComputedTokens|
    ensures r in CachedStarts(c, n) <==> r in c.reqIds[..n]
    ensures r in c.reqIds[..n] ==> LastAt(c.reqIds[..n], r, i) && CachedStarts(c, n)[r] == c.numComputedTokens[i]
  {
    i := 0;
    if n > 0 {
      var front := c.reqIds[..n-1];
      assert c.reqIds[..n] == front + [c.reqIds[n-1]];
      if c.reqIds[n-1] == r {
        i := n - 1;
      } else {
        i := CachedStartsAt(c, n - 1, r);
      }
    }
  }

  lemma {:induction false} NewStartsAt(reqs: seq<NewReq>, r: ReqId) returns (i: nat)
    ensures r in NewStarts(reqs) ==> LastNewAt(reqs, r, i) && NewStarts(reqs)[r] == reqs[i].numComputedTokens
    ensures r !in NewStarts(reqs) ==> forall j :: 0 <= j < |reqs| ==> reqs[j].reqId != r
  {
    i := 0;
    if reqs != [] {
      if reqs[|reqs|-1].reqId == r {
        i := |reqs| - 1;
      } else {
        i := NewStartsAt(reqs[..|reqs|-1], r);
      }
    }
  }

  lemma LastIsOne(ids: seq<ReqId>, r: ReqId, i: nat, j: nat)
    requires LastAt(ids, r, i) && LastAt(ids, r, j)
    ensures i == j
  {
  }

  /** A start count is known for exactly the requests with a row, and it is the one in the row. */
  lemma StartTokensExactly(view: LaneView, r: ReqId, start: int)
    requires Aligned(view.cachedReqs)
    ensures StartsAt(view, r, start) <==> r in StartTokens(view) && StartTokens(view)[r] == start
  {
    hide CachedStarts, NewStarts;
    var c := view.cachedReqs;
    var n := ZipLength(c);
    assert n == |c.reqIds| && c.reqIds[..n] == c.reqIds;
    var i := CachedStartsAt(c, n, r);
    var j := NewStartsAt(view.newReqs, r);
    if r in c.reqIds {
      assert LastAt(c.reqIds, r, i);
    } else if r in NewStarts(view.newReqs) {
      assert LastNewAt(view.newReqs, r, j);
    }
  }

  /**
   Selected is exactly a known request with tokens in this step whose own row puts it before
   the end of its prompt, and that is in flight, continuing, or has the threshold left.
   */
  ghost predicate ToOffload(s: Sched, view: LaneView, threshold: nat, r: ReqId, start: int) {
    && r in view.numScheduledTokens && view.numScheduledTokens[r] > 0 && r in s.requests
    && start < s.requests[r].numPromptTokens
    && (r in s.inflight || r in s.continuing || s.requests[r].numPromptTokens - start >= threshold)
  }

  lemma SelectedExactly(s: Sched, view: LaneView, threshold: nat, r: ReqId)
    requires Aligned(view.cachedReqs)
    ensures r in Selected(s, view, threshold) <==>
      exists start :: StartsAt(view, r, start) && ToOffload(s, view, threshold, r, start)
  {
    hide StartTokens, StartsAt;
    if r in StartTokens(view) {
      StartTokensExactly(view, r, StartTokens(view)[r]);
    }
    forall start | StartsAt(view, r, start) ensures r in StartTokens(view) && StartTokens(view)[r] == start {
      StartTokensExactly(view, r, start);
    }
  }

  // ---------------------------------------------------------------- moving out and back

  function NewReqsWhere(reqs: seq<NewReq>, ids: set<ReqId>, inside: bool): seq<NewReq> {
    if reqs == [] then []
    else
      var r := NewReqsWhere(reqs[..|reqs|-1], ids, inside);
      var last := reqs[|reqs|-1];
      if (last.reqId in ids) == inside then r + [last] else r
  }

  function NewIn(ids: set<ReqId>, inside: bool): NewReq -> bool {
    (q: NewReq) => (q.reqId in ids) == inside
  }

  /** The filter keeps the new requests inside, or outside, of the ids: all of them, in order. */
  lemma {:induction false} NewReqsArePicked(reqs: seq<NewReq>, ids: set<ReqId>, inside: bool)
    ensures Picks(reqs, NewIn(ids, inside), NewReqsWhere(reqs, ids, inside))
  {
    if reqs == [] {
      PicksNothing(NewIn(ids, inside));
    } else {
      hide Picks;
      var front, last := reqs[..|reqs|-1], reqs[|reqs|-1];
      assert reqs == front + [last];
      NewReqsArePicked(front, ids, inside);
      PicksOneMore(front, NewIn(ids, inside), NewReqsWhere(front, ids, inside), last);
    }
  }

  /** Every new request is on one side, as often as it was there. */
  lemma NewReqsDivided(reqs: seq<NewReq>, ids: set<ReqId>)
    ensures multiset(NewReqsWhere(reqs, ids, false)) + multiset(NewReqsWhere(reqs, ids, true)) == multiset(reqs)
  {
    hide Picks;
    var out, moved := NewReqsWhere(reqs, ids, false), NewReqsWhere(reqs, ids, true);
    forall q ensures (multiset(out) + multiset(moved))[q] == multiset(reqs)[q] {
      NewReqsArePicked(reqs, ids, false);
      NewReqsArePicked(reqs, ids, true);
      PicksCount(reqs, NewIn(ids, false), out, q);
      PicksCount(reqs, NewIn(ids, true), moved, q);
    }
  }

  function EmptyPrefill(o: Output): Output {
    o.(prefill := EMPTY_VIEW, prefillRequestIds := {}, prefillRequestNotPut := {})
  }

  ghost function PrefillPart(v: LaneView, ids: set<ReqId>): LaneView
    requires Aligned(v.cachedReqs)
  {
    LaneView(
      NewReqsWhere(v.newReqs, ids, true),
      Part(v.cachedReqs, ids, true),
      Restrict(v.numScheduledTokens, ids),
      SumTokens(Restrict(v.numScheduledTokens, ids)),
      Restrict(v.specDecodeTokens, ids),
      Restrict(v.encoderInputs, ids),
      v.numCommonPrefixBlocks)
  }

  /** The main view loses only its request-keyed maps' entries; its row lists stay whole. */
  function MainRest(v: LaneView, ids: set<ReqId>): LaneView {
    v.(numScheduledTokens := Without(v.numScheduledTokens, ids),
       specDecodeTokens := Without(v.specDecodeTokens, ids),
       encoderInputs := Without(v.encoderInputs, ids))
  }

  ghost function MovedOut(o: Output, ids: set<ReqId>): Output
    requires Aligned(o.main.cachedReqs)
  {
    var moved := Restrict(o.main.numScheduledTokens, ids).Keys;
    o.(main := MainRest(o.main, ids), prefill := PrefillPart(o.main, ids),
       prefillRequestIds := moved, prefillRequestNotPut := moved)
  }

  function MergeCached(a: Cached, b: Cached): Cached {
    Cached(
      a.reqIds + b.reqIds,
      a.resumedReqIds + b.resumedReqIds,
      a.newTokenIds + b.newTokenIds,
      a.allTokenIds + b.allTokenIds,
      a.newBlockIds + b.newBlockIds,
      a.numComputedTokens + b.numComputedTokens,
      a.numOutputTokens + b.numOutputTokens)
  }

  function MovedBack(o: Output): Output {
    o.(main := LaneView(
      o.main.newReqs + o.prefill.newReqs,
      MergeCached(o.main.cachedReqs, o.prefill.cachedReqs),
      o.main.numScheduledTokens + o.prefill.numScheduledTokens,
      o.main.totalNumScheduledTokens,
      o.main.specDecodeTokens + o.prefill.specDecodeTokens,
      o.main.encoderInputs + o.prefill.encoderInputs,
      o.prefill.numCommonPrefixBlocks))
  }

  /** Lists as the base scheduler builds them: one entry per request, the token list possibly left out. */
  ghost predicate Parallel(c: Cached) {
    && |c.reqIds| == |c.newBlockIds| == |c.numComputedTokens| == |c.numOutputTokens|
    && (c.newTokenIds == [] || |c.newTokenIds| == |c.reqIds|)
  }

  /** Merging a part of the rows back adds those rows a second time, behind all others. */
  lemma MergedBackRows(c: Cached, ids: set<ReqId>)
    requires Parallel(c)
    ensures Aligned(MergeCached(c, Part(c, ids, true)))
    ensures Rows(MergeCached(c, Part(c, ids, true))) == Rows(c) + RowsWhere(Rows(c), ids, true)
  {
    hide RowAt, RowsWhere, Part, Parallel, Picks;
    MergedBackAligned(c, ids);
    var p := Part(c, ids, true);
    var b, n := MergeCached(c, p), |c.reqIds|;
    PartKeepsRows(c, ids, true);
    forall j: nat | j < |b.reqIds| ensures Rows(b)[j] == if j < n then Rows(c)[j] else Rows(p)[j - n] {
      MergedBackRow(c, ids, j);
    }
    assert Rows(b) == Rows(c) + Rows(p);
  }

  lemma MergedBackAligned(c: Cached, ids: set<ReqId>)
    requires Parallel(c)
    ensures Aligned(c) && Aligned(Part(c, ids, true)) && Aligned(MergeCached(c, Part(c, ids, true)))
  {
  }

  lemma MergedBackRow(c: Cached, ids: set<ReqId>, j: nat)
    requires Parallel(c) && j < |c.reqIds| + |Part(c, ids, true).reqIds|
    ensures
      var b, p := MergeCached(c, Part(c, ids, true)), Part(c, ids, true);
      Aligned(b) && Aligned(p) && RowAt(b, j) == if j < |c.reqIds| then RowAt(c, j) else RowAt(p, j - |c.reqIds|)
  {
    var indices := Indices(c.reqIds, ids, true);
    hide Indices, GatherPresent;
    AllPresent(c.newTokenIds, indices, |c.reqIds|);
    var p := Part(c, ids, true);
    assert p.allTokenIds.Keys <= c.allTokenIds.Keys;
    if j >= |c.reqIds| {
      assert p.reqIds[j - |c.reqIds|] in ToSet(p.reqIds);
    }
  }

  /** Gathering from a list that reaches all positions, or from an empty one, leaves none or all of them out. */
  lemma {:induction false} AllPresent<T>(s: seq<T>, indices: seq<nat>, n: nat)
    requires (forall k :: 0 <= k < |indices| ==> indices[k] < n) && (s == [] || |s| == n)
    ensures |GatherPresent(s, indices)| == if s == [] then 0 else |indices|
  {
    if indices != [] {
      AllPresent(s, indices[..|indices|-1], n);
    }
  }

  /**
   Moving out and back restores the three request-keyed maps and the prefix blocks and keeps the
   total; the moved rows, new and cached, are there twice afterwards.
   */
  lemma MovedBackMaps(o: Output, ids: set<ReqId>)
    requires Aligned(o.main.cachedReqs)
    ensures
      var b := MovedBack(MovedOut(o, ids));
      && b.main.numScheduledTokens == o.main.numScheduledTokens
      && b.main.specDecodeTokens == o.main.specDecodeTokens
      && b.main.encoderInputs == o.main.encoderInputs
      && b.main.numCommonPrefixBlocks == o.main.numCommonPrefixBlocks
      && b.main.totalNumScheduledTokens == o.main.totalNumScheduledTokens
      && b.main.newReqs == o.main.newReqs + NewReqsWhere(o.main.newReqs, ids, true)
      && (Parallel(o.main.cachedReqs) ==>
            && Aligned(b.main.cachedReqs)
            && Rows(b.main.cachedReqs) == Rows(o.main.cachedReqs) + RowsWhere(Rows(o.main.cachedReqs), ids, true))
  {
    hide Rows, RowsWhere, Part, Aligned;
    if Parallel(o.main.cachedReqs) {
      MergedBackRows(o.main.cachedReqs, ids);
    }
  }

  /** An output whose every scheduled id has a row. */
  ghost predicate RowsCoverScheduled(v: LaneView) {
    forall r :: r in v.numScheduledTokens ==>
      (exists i :: 0 <= i < |v.newReqs| && v.newReqs[i].reqId == r) || r in v.cachedReqs.reqIds
  }

  lemma {:induction false} NewReqsWhereHas(reqs: seq<NewReq>, ids: set<ReqId>, i: nat)
    requires i < |reqs| && reqs[i].reqId in ids
    ensures NewReqsWhere(reqs, ids, true) != []
    decreases |reqs|
  {
    if i < |reqs| - 1 {
      NewReqsWhereHas(reqs[..|reqs|-1], ids, i);
    }
  }

  lemma {:induction false} IndicesHas(reqIds: seq<ReqId>, ids: set<ReqId>, i: nat, n: nat)
    requires i < n <= |reqIds| && reqIds[i] in ids
    ensures IndicesTo(reqIds, ids, true, n) != []
    decreases n
  {
    if i < n - 1 {
      IndicesHas(reqIds, ids, i, n - 1);
    }
  }

  /**
   The round trip through an update gives the base scheduler its own output back exactly when
   nothing was offloaded and there were no common prefix blocks: with an offload the moved
   rows are there twice, without one the prefix blocks are overwritten by the empty list.
   */
  lemma RoundTripExactly(o: Output, ids: set<ReqId>)
    requires Aligned(o.main.cachedReqs) && RowsCoverScheduled(o.main) && ids <= o.main.numScheduledTokens.Keys
    ensures
      var clean := EmptyPrefill(o);
      var sent := if ids == {} then clean else MovedOut(clean, ids);
      MovedBack(sent).main == o.main <==> ids == {} && o.main.numCommonPrefixBlocks == []
  {
    var clean, v := EmptyPrefill(o), o.main;
    if ids == {} {
      assert v.numScheduledTokens + map[] == v.numScheduledTokens;
      assert v.specDecodeTokens + map[] == v.specDecodeTokens;
      assert v.encoderInputs + map[] == v.encoderInputs;
      MergeWithEmpty(v.cachedReqs);
    } else {
      var r :| r in ids;
      var back := MovedBack(MovedOut(clean, ids)).main;
      if i :| 0 <= i < |v.newReqs| && v.newReqs[i].reqId == r {
        NewReqsWhereHas(v.newReqs, ids, i);
        assert |back.newReqs| > |v.newReqs|;
      } else {
        var i :| 0 <= i < |v.cachedReqs.reqIds| && v.cachedReqs.reqIds[i] == r;
        IndicesHas(v.cachedReqs.reqIds, ids, i, |v.cachedReqs.reqIds|);
        assert |back.cachedReqs.reqIds| > |v.cachedReqs.reqIds|;
      }
    }
  }

  lemma MergeWithEmpty(c: Cached)
    ensures MergeCached(c, EMPTY_CACHED) == c
  {
  }

  // ---------------------------------------------------------------- the runner's two views

  /** The decode lane's view, rebuilt by the runner from the main fields. */
  ghost function DecodeView(o: Output): LaneView
    requires Aligned(o.main.cachedReqs)
  {
    var moved := o.prefill.numScheduledTokens.Keys;
    if moved == {} then o.main
    else
      var tokens := Without(o.main.numScheduledTokens, moved);
      LaneView(
        NewReqsWhere(o.main.newReqs, moved, false),
        Part(o.main.cachedReqs, moved, false),
        tokens,
        SumTokens(tokens),
        Without(o.main.specDecodeTokens, moved),
        Without(o.main.encoderInputs, moved),
        o.main.numCommonPrefixBlocks)
  }

  /** The prefill lane's view, taken from the prefill fields. */
  function PrefillView(o: Output): LaneView {
    o.prefill.(numCommonPrefixBlocks :=
      if o.prefill.numCommonPrefixBlocks != [] then o.prefill.numCommonPrefixBlocks else o.main.numCommonPrefixBlocks)
  }

  /**
   The two lanes between them hold every row once, unchanged and in order, every map entry
   once, and token totals that add up to the batch.
   */
  lemma LanesPartitionBatch(o: Output, ids: set<ReqId>)
    requires Aligned(o.main.cachedReqs) && ids != {} && ids <= o.main.numScheduledTokens.Keys
    ensures
      var sent := MovedOut(EmptyPrefill(o), ids);
      var d, p, v := DecodeView(sent), PrefillView(sent), o.main;
      && Picks(v.newReqs, NewIn(ids, false), d.newReqs) && Picks(v.newReqs, NewIn(ids, true), p.newReqs)
      && multiset(d.newReqs) + multiset(p.newReqs) == multiset(v.newReqs)
      && Aligned(d.cachedReqs) && Aligned(p.cachedReqs)
      && Picks(Rows(v.cachedReqs), RowIn(ids, false), Rows(d.cachedReqs))
      && Picks(Rows(v.cachedReqs), RowIn(ids, true), Rows(p.cachedReqs))
      && sent.prefillRequestIds == sent.prefillRequestNotPut == p.numScheduledTokens.Keys == ids
      && d.numScheduledTokens.Keys !! ids
      && p.specDecodeTokens.Keys <= ids && d.specDecodeTokens.Keys !! ids
      && p.encoderInputs.Keys <= ids && d.encoderInputs.Keys !! ids
      && d.numScheduledTokens + p.numScheduledTokens == v.numScheduledTokens
      && d.specDecodeTokens + p.specDecodeTokens == v.specDecodeTokens
      && d.encoderInputs + p.encoderInputs == v.encoderInputs
      && d.totalNumScheduledTokens == SumTokens(d.numScheduledTokens)
      && p.totalNumScheduledTokens == SumTokens(p.numScheduledTokens)
      && d.totalNumScheduledTokens + p.totalNumScheduledTokens == SumTokens(v.numScheduledTokens)
      && d.numCommonPrefixBlocks == p.numCommonPrefixBlocks == v.numCommonPrefixBlocks
  {
    hide Part, RowsWhere, NewReqsWhere, SumTokens, Aligned, Picks;
    var v := o.main;
    NewReqsArePicked(v.newReqs, ids, false);
    NewReqsArePicked(v.newReqs, ids, true);
    NewReqsDivided(v.newReqs, ids);
    var sent := MovedOut(EmptyPrefill(o), ids);
    assert sent.prefill.numScheduledTokens.Keys == ids;
    PartKeepsRows(v.cachedReqs, ids, false);
    PartKeepsRows(v.cachedReqs, ids, true);
    SplitKeepsTotal(v.numScheduledTokens, ids);
    WithoutTwice(v.numScheduledTokens, ids);
    WithoutTwice(v.specDecodeTokens, ids);
    WithoutTwice(v.encoderInputs, ids);
  }

  /** A batch without an offloaded part is the decode lane's batch as the base scheduler made it. */
  lemma NoOffloadKeepsBatch(o: Output)
    requires Aligned(o.main.cachedReqs)
    ensures DecodeView(EmptyPrefill(o)) == o.main
    ensures PrefillView(EmptyPrefill(o)) == EMPTY_VIEW.(numCommonPrefixBlocks := o.main.numCommonPrefixBlocks)
  {
  }

  lemma WithoutTwice<T>(m: map<ReqId, T>, ids: set<ReqId>)
    ensures Without(Without(m, ids), ids) == Without(m, ids)
    ensures Without(m, ids) + Restrict(m, ids) == m
  {
  }

  // ---------------------------------------------------------------- bookkeeping

  ghost function Recorded(s: Sched, moved: map<ReqId, int>): Sched {
    s.(inflight := s.inflight + moved.Keys,
       inflightTokens := s.inflightTokens + moved,
       continuing := s.continuing + moved.Keys,
       inDecodeBatch := s.inDecodeBatch + moved.Keys)
  }

  function Stale(s: Sched, finished: set<ReqId>): set<ReqId> {
    finished + (s.inflight - s.requests.Keys)
  }

  ghost function Refreshed(s: Sched, finished: set<ReqId>): Sched {
    var stale := Stale(s, finished);
    var inflight := s.inflight - stale;
    s.(inflight := inflight,
       inflightTokens := s.inflightTokens - stale,
       continuing := s.continuing * (s.requests.Keys - finished),
       inDecodeBatch := s.inDecodeBatch * inflight,
       pressure := SumTokens(s.inflightTokens - stale))
  }

  predicate PromptDone(s: Sched, r: ReqId) {
    r !in s.requests || s.requests[r].numComputedTokens >= s.requests[r].numPromptTokens
  }

  /** Release the chunks that the runner reports finished. */
  ghost function Released(s: Sched, finished: set<ReqId>): Sched {
    if finished == {} then s
    else
      s.(inflight := s.inflight - finished,
         inflightTokens := s.inflightTokens - finished,
         inDecodeBatch := s.inDecodeBatch - finished,
         continuing := (set r | r in s.continuing && !(r in finished && PromptDone(s, r))),
         pressure := SumTokens(s.inflightTokens - finished))
  }

  /** Restore the held requests among those the base scheduler left running. */
  function AfterBase(s: Sched, base: BaseSchedule): Sched {
    s.(requests := base.requests,
       running := Restored(base.running, SkippedFrom(s.running, s.inflight, 0), base.requests.Keys))
  }

  /** One call of schedule: the scheduler's new fields and the output it returns. */
  ghost function Scheduled(s: Sched, base: BaseSchedule, o: Output, enabled: bool, threshold: nat): (Sched, Output)
    requires Aligned(o.main.cachedReqs)
  {
    var s1 := AfterBase(s, base);
    var clean := EmptyPrefill(o);
    var ids := if enabled then Selected(s1, o.main, threshold) else {};
    if ids == {} then (Refreshed(s1, o.finishedReqIds), clean)
    else
      var sent := MovedOut(clean, ids);
      (Refreshed(Recorded(s1, sent.prefill.numScheduledTokens), o.finishedReqIds), sent)
  }
}
