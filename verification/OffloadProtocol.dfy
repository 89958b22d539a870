/**
 The whole offload protocol as a state machine: the scheduler's fields, the batches sent to
 the runner, the runner's pending prefill outputs and the outputs on their way back.
 */
module OffloadProtocol {
  import opened BatchViews
  import opened HoldRestore
  import opened OffloadState

  datatype Lane = DecodeLane | OffloadLane

  /**
   sent, pending and delivered hold the request ids of offloaded chunks: in batches the runner
   has not executed, in outputs it has not handed back, and in outputs not yet passed to
   update_from_output. lanes remembers where a request's last prompt chunk went since it was
   admitted or preempted; it is not a field of the program.
   */
  datatype System = System(
    sched: Sched,
    waiting: set<ReqId>,
    announced: set<ReqId>,
    used: set<ReqId>,
    sent: seq<set<ReqId>>,
    pending: seq<set<ReqId>>,
    delivered: seq<set<ReqId>>,
    lanes: map<ReqId, Lane>)

  datatype Config = Config(enabled: bool, threshold: nat)

  /**
   Schedule: one call of schedule. Execute: execute and sample the oldest batch, handing back
   the first taken of the pending outputs. Update: update_from_output on the oldest result.
   Finish: requests end or are aborted; forgotten ones leave the request table.
   */
  datatype Event =
    | Add(r: ReqId, request: Request)
    | Schedule(base: BaseSchedule, waiting: set<ReqId>, output: Output, preempted: set<ReqId>)
    | Execute(taken: nat)
    | Update(requests: map<ReqId, Request>)
    | Finish(ids: set<ReqId>, forgotten: set<ReqId>)

  function Union(chunks: seq<set<ReqId>>): set<ReqId> {
    set i, r | 0 <= i < |chunks| && r in chunks[i] :: r
  }

  function Chunks(y: System): seq<set<ReqId>> {
    y.sent + y.pending + y.delivered
  }

  /** Every request with an offloaded chunk somewhere between schedule and update_from_output. */
  function Outstanding(y: System): set<ReqId> {
    Union(y.sent) + Union(y.pending) + Union(y.delivered)
  }

  function Live(y: System): set<ReqId> {
    ToSet(y.sched.running) + y.waiting
  }

  function Remaining(running: seq<ReqId>, gone: set<ReqId>): seq<ReqId> {
    Where(running, gone, false)
  }

  // ---------------------------------------------------------------- steps

  /** What the base scheduler may do: it sees the kept and the waiting requests only. */
  ghost predicate BaseContract(y: System, e: Event)
    requires e.Schedule?
  {
    var s, v := y.sched, e.output.main;
    var kept := Kept(s.running, s.inflight);
    && Aligned(v.cachedReqs)
    && Distinct(e.base.running)
    && ToSet(e.base.running) !! e.waiting
    && ToSet(e.base.running) + e.waiting == ToSet(kept) + y.waiting
    && e.base.requests.Keys == s.requests.Keys
    && e.output.finishedReqIds == y.announced
    && v.numScheduledTokens.Keys <= ToSet(e.base.running)
    && e.preempted <= ToSet(kept) && e.preempted <= e.waiting
    && ToSet(kept) * e.waiting <= e.preempted
    && (forall r :: r in v.numScheduledTokens ==> ScheduledRow(y, e, r))
    && (forall r :: r in s.requests ==> e.base.requests[r].numPromptTokens == s.requests[r].numPromptTokens)
    && (forall r :: r in s.running && r in s.requests && r !in v.numScheduledTokens && r !in e.preempted ==>
          e.base.requests[r] == s.requests[r])
  }

  /** A scheduled request advances from where its row says it stood; a running one stood where it was left. */
  ghost predicate ScheduledRow(y: System, e: Event, r: ReqId)
    requires e.Schedule?
  {
    var s, v, starts := y.sched, e.output.main, StartTokens(e.output.main);
    && r in v.numScheduledTokens && v.numScheduledTokens[r] > 0 && r in starts
    && r in s.requests && r in e.base.requests
    && e.base.requests[r].numComputedTokens == starts[r] + v.numScheduledTokens[r]
    && (r in s.running ==> starts[r] == s.requests[r].numComputedTokens)
  }

  /** The base update may take back tokens, but none of the prompt. */
  ghost predicate UpdateContract(before: map<ReqId, Request>, after: map<ReqId, Request>) {
    && after.Keys == before.Keys
    && forall r :: r in before ==>
         && after[r].numPromptTokens == before[r].numPromptTokens
         && (after[r].numComputedTokens >= before[r].numComputedTokens
             || after[r].numComputedTokens >= before[r].numPromptTokens)
  }

  ghost predicate Enabled(y: System, e: Event) {
    match e
    case Add(r, request) => r !in y.used
    case Schedule(base, waiting, output, preempted) => BaseContract(y, e)
    case Execute(taken) => y.sent != [] && taken <= |Queue(y)|
    case Update(requests) => y.delivered != [] && UpdateContract(y.sched.requests, requests)
    case Finish(ids, forgotten) => ids <= Live(y) && forgotten !! (Live(y) - ids)
  }

  /** The runner's queue once the oldest batch has been executed. */
  function Queue(y: System): seq<set<ReqId>>
    requires y.sent != []
  {
    y.pending + if y.sent[0] == {} then [] else [y.sent[0]]
  }

  /** Does this call of schedule give the request a prompt chunk: does its row put it before the end of its prompt? */
  ghost predicate HasPromptChunk(y: System, e: Event, r: ReqId)
    requires e.Schedule? && BaseContract(y, e)
  {
    && r in e.output.main.numScheduledTokens
    && ScheduledRow(y, e, r)
    && StartTokens(e.output.main)[r] < e.base.requests[r].numPromptTokens
  }

  ghost function ScheduleResult(y: System, e: Event, c: Config): (Sched, Output)
    requires e.Schedule? && BaseContract(y, e)
  {
    Scheduled(y.sched, e.base, e.output, c.enabled, c.threshold)
  }

  ghost function LanesAfter(y: System, e: Event, c: Config): map<ReqId, Lane>
    requires e.Schedule? && BaseContract(y, e)
  {
    var moved := ScheduleResult(y, e, c).1.prefillRequestIds;
    (y.lanes - e.preempted) +
    map r | r in e.output.main.numScheduledTokens && HasPromptChunk(y, e, r) ::
      if r in moved then OffloadLane else DecodeLane
  }

  ghost function Next(y: System, e: Event, c: Config): System
    requires Enabled(y, e)
  {
    match e
    case Add(r, request) =>
      y.(sched := y.sched.(requests := y.sched.requests[r := request]),
         waiting := y.waiting + {r}, used := y.used + {r})
    case Schedule(base, waiting, output, preempted) =>
      var (s, o) := ScheduleResult(y, e, c);
      y.(sched := s, waiting := waiting, announced := {}, sent := y.sent + [o.prefillRequestIds],
         lanes := LanesAfter(y, e, c))
    case Execute(taken) =>
      var queue := Queue(y);
      y.(sent := y.sent[1..], pending := queue[taken..], delivered := y.delivered + [Union(queue[..taken])])
    case Update(requests) =>
      y.(sched := Released(y.sched, y.delivered[0]).(requests := requests), delivered := y.delivered[1..])
    case Finish(ids, forgotten) =>
      y.(sched := y.sched.(running := Remaining(y.sched.running, ids), requests := y.sched.requests - forgotten),
         waiting := y.waiting - ids, announced := y.announced + ids)
  }

  // ---------------------------------------------------------------- the invariant

  ghost predicate DisjointChunks(chunks: seq<set<ReqId>>) {
    forall i, j :: 0 <= i < j < |chunks| ==> chunks[i] !! chunks[j]
  }

  /** The four tables of the scheduler agree with each other. */
  ghost predicate TablesAgree(s: Sched) {
    && s.inflightTokens.Keys == s.inflight == s.inDecodeBatch
    && s.inflight <= s.continuing
    && s.pressure == SumTokens(s.inflightTokens)
  }

  ghost predicate RequestsOrdered(y: System) {
    && Distinct(y.sched.running)
    && ToSet(y.sched.running) !! y.waiting
    && Live(y) <= y.sched.requests.Keys
    && y.announced !! Live(y)
    && y.sched.requests.Keys <= y.used && Outstanding(y) <= y.used && y.lanes.Keys <= y.used
    && y.announced <= y.used
    && y.lanes.Keys !! y.waiting
  }

  /** The in-flight set covers exactly the live requests with an outstanding chunk, and only running ones. */
  ghost predicate InFlightTracked(y: System) {
    && DisjointChunks(Chunks(y))
    && y.sched.inflight <= Outstanding(y)
    && Outstanding(y) * Live(y) <= y.sched.inflight
    && y.sched.inflight !! y.waiting
  }

  /** A request part way through its prompt is committed to one lane. */
  ghost predicate LaneKept(y: System, r: ReqId, threshold: nat)
    requires r in y.lanes && r in y.sched.requests
  {
    var q := y.sched.requests[r];
    if y.lanes[r] == OffloadLane then q.numComputedTokens < q.numPromptTokens ==> r in y.sched.continuing
    else
      && r !in y.sched.continuing
      && (q.numComputedTokens < q.numPromptTokens ==> q.numPromptTokens - q.numComputedTokens < threshold)
  }

  ghost predicate LanesKept(y: System, c: Config) {
    c.enabled ==> forall r :: r in y.lanes && r in Live(y) && r in y.sched.requests ==> LaneKept(y, r, c.threshold)
  }

  ghost predicate Inv(y: System, c: Config) {
    TablesAgree(y.sched) && RequestsOrdered(y) && InFlightTracked(y) && LanesKept(y, c)
  }

  ghost const INITIAL: System :=
    System(Sched(map[], [], {}, map[], {}, {}, 0), {}, {}, {}, [], [], [], map[])

  lemma InitialInv(c: Config)
    ensures Inv(INITIAL, c)
  {
  }

  // ---------------------------------------------------------------- sets of chunks

  lemma UnionConcat(a: seq<set<ReqId>>, b: seq<set<ReqId>>)
    ensures Union(a + b) == Union(a) + Union(b)
  {
    var ab := a + b;
    assert forall i :: 0 <= i < |a| ==> ab[i] == a[i];
    assert forall i :: 0 <= i < |b| ==> ab[|a| + i] == b[i];
  }

  lemma UnionOne(x: set<ReqId>)
    ensures Union([x]) == x
  {
    assert [x][0] == x;
  }

  lemma DisjointExtend(a: seq<set<ReqId>>, x: set<ReqId>, b: seq<set<ReqId>>)
    requires DisjointChunks(a + b) && x !! Union(a + b)
    ensures DisjointChunks(a + [x] + b)
  {
    var old', new' := a + b, a + [x] + b;
    assert forall i :: 0 <= i < |a| ==> new'[i] == old'[i];
    assert forall i :: |a| < i < |new'| ==> new'[i] == old'[i - 1];
    assert new'[|a|] == x;
    assert forall i :: 0 <= i < |old'| ==> old'[i] <= Union(old');
  }

  /** Joining neighbouring chunks, or dropping some, keeps the rest disjoint. */
  lemma DisjointParts(a: seq<set<ReqId>>, b: seq<set<ReqId>>)
    ensures DisjointChunks(a + b) <==> DisjointChunks(a) && DisjointChunks(b) && Union(a) !! Union(b)
  {
    var ab := a + b;
    assert forall i :: 0 <= i < |a| ==> ab[i] == a[i];
    assert forall i :: 0 <= i < |b| ==> ab[|a| + i] == b[i];
    if DisjointChunks(ab) {
      forall r | r in Union(a) ensures r !in Union(b) {
        var i :| 0 <= i < |a| && r in a[i];
        forall j | 0 <= j < |b| ensures r !in b[j] {
          assert ab[i] !! ab[|a| + j];
        }
      }
    }
    if DisjointChunks(a) && DisjointChunks(b) && Union(a) !! Union(b) {
      forall i, j | 0 <= i < j < |ab| ensures ab[i] !! ab[j] {
        if i < |a| <= j {
          assert a[i] <= Union(a) && b[j - |a|] <= Union(b);
        }
      }
    }
  }

  // ---------------------------------------------------------------- one call of schedule

  /** Nothing the base scheduler schedules has an outstanding chunk. */
  lemma NeverScheduledWhileInFlight(y: System, e: Event, c: Config)
    requires Inv(y, c) && e.Schedule? && BaseContract(y, e)
    ensures e.output.main.numScheduledTokens.Keys !! Outstanding(y)
    ensures e.output.main.numScheduledTokens.Keys !! y.sched.inflight
  {
    KeptSubset(y.sched.running, y.sched.inflight);
  }

  /** So testing for requests already offloaded makes no difference to what is selected. */
  lemma AlreadyOffloadedNeverFires(y: System, e: Event, c: Config)
    requires Inv(y, c) && e.Schedule? && BaseContract(y, e)
    ensures
      var s := AfterBase(y.sched, e.base);
      Selected(s, e.output.main, c.threshold) == Selected(s.(inflight := {}), e.output.main, c.threshold)
  {
    hide StartTokens, PromptTokensScheduled, PromptTokensRemaining;
    NeverScheduledWhileInFlight(y, e, c);
  }

  lemma RunningAfterSchedule(y: System, e: Event, c: Config)
    requires Inv(y, c) && e.Schedule? && BaseContract(y, e)
    ensures
      var running := AfterBase(y.sched, e.base).running;
      && Distinct(running) && ToSet(running) !! e.waiting
      && ToSet(running) == ToSet(e.base.running) + ToSet(y.sched.running) * y.sched.inflight
      && ToSet(running) + e.waiting == Live(y)
  {
    var s, keys := y.sched, e.base.requests.Keys;
    var skipped := SkippedFrom(s.running, s.inflight, 0);
    KeptSubset(s.running, s.inflight);
    RestoredMembers(e.base.running, skipped, keys);
    SkippedIdsAre(s.running, s.inflight, 0);
    assert s.running[0..] == s.running;
    assert SkippedIds(skipped) * keys == ToSet(s.running) * s.inflight;
    assert ToSet(Kept(s.running, s.inflight)) == ToSet(s.running) - s.inflight;
  }

  /** What schedule does to the in-flight tables, in terms of the ids it moves. */
  lemma TablesAfterSchedule(y: System, e: Event, c: Config)
    requires Inv(y, c) && e.Schedule? && BaseContract(y, e)
    ensures
      var (s, o) := ScheduleResult(y, e, c);
      var moved := o.prefillRequestIds;
      && moved <= e.output.main.numScheduledTokens.Keys
      && (c.enabled ==> moved == Selected(AfterBase(y.sched, e.base), e.output.main, c.threshold))
      && (!c.enabled ==> moved == {})
      && s.requests == e.base.requests && s.running == AfterBase(y.sched, e.base).running
      && s.inflight == y.sched.inflight + moved - y.announced - (y.sched.inflight + moved - s.requests.Keys)
      && s.continuing == (y.sched.continuing + moved) * (s.requests.Keys - y.announced)
      && TablesAgree(s)
  {
    hide Restored, Selected, PrefillPart, MainRest, SumTokens, RequestsOrdered, InFlightTracked, LanesKept;
    var s1 := AfterBase(y.sched, e.base);
    var ids := if c.enabled then Selected(s1, e.output.main, c.threshold) else {};
    SelectedAreScheduled(s1, e.output.main, c.threshold);
    if ids == {} {
      RefreshKeepsTables(s1, y.announced);
    } else {
      var tokens := Restrict(e.output.main.numScheduledTokens, ids);
      assert tokens.Keys == ids;
      MovedTokens(EmptyPrefill(e.output), ids);
      RefreshKeepsTables(Recorded(s1, tokens), y.announced);
    }
  }

  lemma SelectedAreScheduled(s: Sched, v: LaneView, threshold: nat)
    ensures Selected(s, v, threshold) <= v.numScheduledTokens.Keys
  {
  }

  lemma MovedTokens(o: Output, ids: set<ReqId>)
    requires Aligned(o.main.cachedReqs)
    ensures MovedOut(o, ids).prefill.numScheduledTokens == Restrict(o.main.numScheduledTokens, ids)
    ensures MovedOut(o, ids).prefillRequestIds == Restrict(o.main.numScheduledTokens, ids).Keys
  {
  }

  /** A refresh re-establishes the agreement of the tables, whatever the recorded pressure was. */
  lemma RefreshKeepsTables(s: Sched, finished: set<ReqId>)
    requires s.inflightTokens.Keys == s.inflight == s.inDecodeBatch && s.inflight <= s.continuing
    ensures TablesAgree(Refreshed(s, finished))
  {
  }

  lemma ReleaseKeepsTables(s: Sched, finished: set<ReqId>)
    requires TablesAgree(s)
    ensures TablesAgree(Released(s, finished))
  {
  }

  /** The new chunk joins the queues without touching the others, and nobody comes or goes. */
  lemma ScheduleChunks(y: System, e: Event, c: Config)
    requires Inv(y, c) && e.Schedule? && BaseContract(y, e)
    ensures
      var z, moved := Next(y, e, c), ScheduleResult(y, e, c).1.prefillRequestIds;
      && Outstanding(z) == Outstanding(y) + moved
      && DisjointChunks(Chunks(z))
      && Live(z) == Live(y)
  {
    hide Scheduled, AfterBase, BaseContract, LanesAfter, TablesAgree, LanesKept, Union, Where, Kept;
    var z := Next(y, e, c);
    var moved := ScheduleResult(y, e, c).1.prefillRequestIds;
    NeverScheduledWhileInFlight(y, e, c);
    TablesAfterSchedule(y, e, c);
    RunningAfterSchedule(y, e, c);
    UnionConcat(y.sent, [moved]);
    UnionOne(moved);
    var rest := y.pending + y.delivered;
    assert Chunks(y) == y.sent + rest && Chunks(z) == y.sent + [moved] + rest;
    UnionConcat(y.sent, rest);
    UnionConcat(y.pending, y.delivered);
    DisjointExtend(y.sent, moved, rest);
  }

  lemma ScheduleKeepsInFlight(y: System, e: Event, c: Config)
    requires Inv(y, c) && e.Schedule? && BaseContract(y, e)
    ensures InFlightTracked(Next(y, e, c)) && TablesAgree(Next(y, e, c).sched)
  {
    hide Scheduled, AfterBase, SumTokens, ScheduledRow, Outstanding, Chunks, Live, LanesAfter;
    ScheduleChunks(y, e, c);
    NeverScheduledWhileInFlight(y, e, c);
    TablesAfterSchedule(y, e, c);
    KeptSubset(y.sched.running, y.sched.inflight);
  }

  lemma ScheduleKeepsOrdered(y: System, e: Event, c: Config)
    requires Inv(y, c) && e.Schedule? && BaseContract(y, e)
    ensures RequestsOrdered(Next(y, e, c))
  {
    hide Scheduled, AfterBase, SumTokens, ScheduledRow, Outstanding, Chunks;
    var z := Next(y, e, c);
    ScheduleChunks(y, e, c);
    TablesAfterSchedule(y, e, c);
    RunningAfterSchedule(y, e, c);
    KeptSubset(y.sched.running, y.sched.inflight);
    assert z.lanes.Keys <= y.lanes.Keys - e.preempted + e.output.main.numScheduledTokens.Keys;
  }

  // ---------------------------------------------------------------- lanes

  /** Of the requests given a prompt chunk, exactly those continuing or with enough prompt left are moved. */
  lemma MovedExactly(y: System, e: Event, c: Config, r: ReqId)
    requires Inv(y, c) && c.enabled && e.Schedule? && BaseContract(y, e)
    requires r in e.output.main.numScheduledTokens && ScheduledRow(y, e, r)
    ensures r in ScheduleResult(y, e, c).1.prefillRequestIds <==>
      && HasPromptChunk(y, e, r)
      && (r in y.sched.continuing
          || e.base.requests[r].numPromptTokens - StartTokens(e.output.main)[r] >= c.threshold)
  {
    hide Scheduled, Restored, SumTokens, StartTokens, BaseContract, LanesKept, RequestsOrdered, InFlightTracked;
    TablesAfterSchedule(y, e, c);
    NeverScheduledWhileInFlight(y, e, c);
    assert r !in y.sched.inflight;
  }

  lemma LanesAfterSchedule(y: System, e: Event, c: Config, r: ReqId)
    requires Inv(y, c) && c.enabled && e.Schedule? && BaseContract(y, e)
    ensures
      var z := Next(y, e, c);
      if r in e.output.main.numScheduledTokens && HasPromptChunk(y, e, r) then
        r in z.lanes
        && (z.lanes[r] == OffloadLane <==> r in ScheduleResult(y, e, c).1.prefillRequestIds)
      else r in z.lanes <==> r in y.lanes && r !in e.preempted
    ensures
      !(r in e.output.main.numScheduledTokens && HasPromptChunk(y, e, r)) && r in y.lanes && r !in e.preempted ==>
      Next(y, e, c).lanes[r] == y.lanes[r]
  {
    hide Scheduled, Restored, SumTokens, StartTokens, HasPromptChunk, ScheduledRow;
  }

  lemma ScheduleKeepsLane(y: System, e: Event, c: Config, r: ReqId)
    requires Inv(y, c) && e.Schedule? && BaseContract(y, e) && c.enabled
    requires r in Next(y, e, c).lanes && r in Live(y) && r in Next(y, e, c).sched.requests
    ensures LaneKept(Next(y, e, c), r, c.threshold)
  {
    TablesAfterSchedule(y, e, c);
    LanesAfterSchedule(y, e, c, r);
    if r in e.output.main.numScheduledTokens {
      assert ScheduledRow(y, e, r);
      MovedExactly(y, e, c, r);
      ChunkKeepsLane(y, e, c, r);
    } else {
      IdleKeepsLane(y, e, c, r);
    }
  }

  lemma ChunkKeepsLane(y: System, e: Event, c: Config, r: ReqId)
    requires Inv(y, c) && e.Schedule? && BaseContract(y, e) && c.enabled
    requires r in Next(y, e, c).lanes && r in Live(y) && r in Next(y, e, c).sched.requests
    requires r in e.output.main.numScheduledTokens && ScheduledRow(y, e, r)
    ensures LaneKept(Next(y, e, c), r, c.threshold)
  {
    if HasPromptChunk(y, e, r) {
      PromptChunkKeepsLane(y, e, c, r);
    } else {
      OtherChunkKeepsLane(y, e, c, r);
    }
  }

  /** A request with a prompt chunk ends up in the lane of that chunk, and continues there if it is not done. */
  lemma PromptChunkKeepsLane(y: System, e: Event, c: Config, r: ReqId)
    requires Inv(y, c) && e.Schedule? && BaseContract(y, e) && c.enabled
    requires r in Live(y) && r in Next(y, e, c).sched.requests
    requires r in e.output.main.numScheduledTokens && ScheduledRow(y, e, r) && HasPromptChunk(y, e, r)
    ensures r in Next(y, e, c).lanes && LaneKept(Next(y, e, c), r, c.threshold)
  {
    hide Scheduled, Restored, SumTokens, StartTokens, LanesAfter, Selected, TablesAgree, InFlightTracked, AfterBase,
      BaseContract, LanesKept, Distinct, Kept, Outstanding;
    TablesAfterSchedule(y, e, c);
    LanesAfterSchedule(y, e, c, r);
    MovedExactly(y, e, c, r);
    assert r !in y.announced;
  }

  /** A chunk without prompt tokens belongs to a request whose prompt is done. */
  lemma OtherChunkKeepsLane(y: System, e: Event, c: Config, r: ReqId)
    requires Inv(y, c) && e.Schedule? && BaseContract(y, e) && c.enabled
    requires r in Next(y, e, c).lanes && r in Live(y) && r in Next(y, e, c).sched.requests
    requires r in e.output.main.numScheduledTokens && ScheduledRow(y, e, r) && !HasPromptChunk(y, e, r)
    ensures LaneKept(Next(y, e, c), r, c.threshold)
  {
    hide Scheduled, Restored, SumTokens, StartTokens, LanesAfter, Selected, TablesAgree, InFlightTracked, AfterBase,
      BaseContract, Distinct, Kept, Outstanding;
    TablesAfterSchedule(y, e, c);
    LanesAfterSchedule(y, e, c, r);
    MovedExactly(y, e, c, r);
    assert e.base.requests[r].numComputedTokens >= e.base.requests[r].numPromptTokens;
    assert LaneKept(y, r, c.threshold);
  }

  lemma IdleKeepsLane(y: System, e: Event, c: Config, r: ReqId)
    requires Inv(y, c) && e.Schedule? && BaseContract(y, e) && c.enabled
    requires r in Next(y, e, c).lanes && r in Live(y) && r in Next(y, e, c).sched.requests
    requires r !in e.output.main.numScheduledTokens
    ensures LaneKept(Next(y, e, c), r, c.threshold)
  {
    hide Scheduled, Restored, SumTokens, StartTokens, LanesAfter, Selected, TablesAgree, InFlightTracked, AfterBase,
      ScheduledRow, HasPromptChunk, Distinct, Kept;
    TablesAfterSchedule(y, e, c);
    LanesAfterSchedule(y, e, c, r);
    var z := Next(y, e, c);
    assert r in y.lanes && z.lanes[r] == y.lanes[r];
    assert z.sched.requests[r] == y.sched.requests[r];
    assert r !in y.announced;
    assert r in z.sched.continuing <==> r in y.sched.continuing;
    assert LaneKept(y, r, c.threshold);
  }

  lemma ScheduleKeepsLanes(y: System, e: Event, c: Config)
    requires Inv(y, c) && e.Schedule? && BaseContract(y, e)
    ensures LanesKept(Next(y, e, c), c)
  {
    if c.enabled {
      var z := Next(y, e, c);
      ScheduleChunks(y, e, c);
      hide Scheduled, AfterBase, BaseContract, LanesAfter, TablesAgree, Outstanding, Live, LaneKept, Inv;
      forall r | r in z.lanes && r in Live(z) && r in z.sched.requests ensures LaneKept(z, r, c.threshold) {
        ScheduleKeepsLane(y, e, c, r);
      }
    }
  }

  /**
   Lane commitment: a request that has had a prompt chunk since it was admitted or preempted
   gets its next prompt chunk in the same lane.
   */
  lemma PromptStaysInOneLane(y: System, e: Event, c: Config, r: ReqId)
    requires Inv(y, c) && c.enabled && e.Schedule? && BaseContract(y, e)
    requires r in y.lanes && HasPromptChunk(y, e, r)
    ensures r in Next(y, e, c).lanes && Next(y, e, c).lanes[r] == y.lanes[r]
  {
    LanesAfterSchedule(y, e, c, r);
    MovedExactly(y, e, c, r);
    KeptSubset(y.sched.running, y.sched.inflight);
    hide Scheduled, Restored, SumTokens, StartTokens, LanesAfter, Selected, TablesAgree, InFlightTracked, AfterBase;
    assert r in y.sched.running;
    assert LaneKept(y, r, c.threshold);
  }

  /** The first prompt chunk decides: the offload lane for those continuing there or with enough prompt left. */
  lemma FirstChunkDecides(y: System, e: Event, c: Config, r: ReqId)
    requires Inv(y, c) && c.enabled && e.Schedule? && BaseContract(y, e)
    requires HasPromptChunk(y, e, r)
    ensures r in Next(y, e, c).lanes
    ensures Next(y, e, c).lanes[r] == OffloadLane <==>
      r in y.sched.continuing
      || e.base.requests[r].numPromptTokens - StartTokens(e.output.main)[r] >= c.threshold
  {
    LanesAfterSchedule(y, e, c, r);
    MovedExactly(y, e, c, r);
  }

  // ---------------------------------------------------------------- the other steps

  lemma AddKeepsInv(y: System, e: Event, c: Config)
    requires Inv(y, c) && e.Add? && Enabled(y, e)
    ensures Inv(Next(y, e, c), c)
  {
    var z := Next(y, e, c);
    assert Live(z) == Live(y) + {e.r};
    assert Chunks(z) == Chunks(y) && Outstanding(z) == Outstanding(y);
    forall r | c.enabled && r in z.lanes && r in Live(z) && r in z.sched.requests ensures LaneKept(z, r, c.threshold) {
      assert r in y.lanes && r != e.r;
      assert LaneKept(y, r, c.threshold);
    }
  }

  /** Executing a batch and handing back a prefix of the queue moves chunks but loses and joins none twice. */
  lemma ExecuteKeepsChunks(y: System, e: Event, c: Config)
    requires DisjointChunks(Chunks(y)) && e.Execute? && Enabled(y, e)
    ensures DisjointChunks(Chunks(Next(y, e, c))) && Outstanding(Next(y, e, c)) == Outstanding(y)
  {
    hide DisjointChunks, Union;
    var z, queue, first := Next(y, e, c), Queue(y), y.sent[0];
    var later, front, back := y.sent[1..], queue[..e.taken], queue[e.taken..];
    var made: seq<set<ReqId>> := if first == {} then [] else [first];
    assert queue == y.pending + made;
    assert queue == front + back;
    assert y.sent == [first] + later;
    UnionOne(first);
    UnionOfMade(first, made);
    UnionOne(Union(front));
    UnionConcat(y.pending, made);
    UnionConcat(front, back);
    UnionConcat([first], later);
    UnionConcat(y.delivered, [Union(front)]);

    assert Chunks(y) == [first] + (later + (y.pending + y.delivered));
    DisjointParts([first], later + (y.pending + y.delivered));
    UnionConcat(later, y.pending + y.delivered);
    DisjointParts(later, y.pending + y.delivered);
    UnionConcat(y.pending, y.delivered);
    DisjointParts(y.pending, y.delivered);

    DisjointMade(first, made);
    DisjointParts(y.pending, made);
    DisjointParts(front, back);
    DisjointMade(Union(front), [Union(front)]);
    DisjointParts(y.delivered, [Union(front)]);
    UnionConcat(back, z.delivered);
    DisjointParts(back, z.delivered);
    DisjointParts(later, back + z.delivered);
    assert Chunks(z) == later + (back + z.delivered);
  }

  lemma UnionOfMade(first: set<ReqId>, made: seq<set<ReqId>>)
    requires made == if first == {} then [] else [first]
    ensures Union(made) == first
  {
    if first != {} {
      UnionOne(first);
    }
  }

  lemma DisjointMade(first: set<ReqId>, made: seq<set<ReqId>>)
    requires |made| <= 1
    ensures DisjointChunks(made)
  {
  }

  lemma ExecuteKeepsInv(y: System, e: Event, c: Config)
    requires Inv(y, c) && e.Execute? && Enabled(y, e)
    ensures Inv(Next(y, e, c), c)
  {
    hide Chunks, Outstanding, Union, DisjointChunks;
    ExecuteKeepsChunks(y, e, c);
    var z := Next(y, e, c);
    assert Live(z) == Live(y);
    forall r | c.enabled && r in z.lanes && r in Live(z) && r in z.sched.requests ensures LaneKept(z, r, c.threshold) {
      assert LaneKept(y, r, c.threshold);
    }
  }

  lemma UpdateDropsChunk(y: System, e: Event, c: Config)
    requires DisjointChunks(Chunks(y)) && e.Update? && Enabled(y, e)
    ensures
      var z := Next(y, e, c);
      DisjointChunks(Chunks(z)) && Outstanding(z) == Outstanding(y) - y.delivered[0]
  {
    hide DisjointChunks, Union;
    var first, later, before := y.delivered[0], y.delivered[1..], y.sent + y.pending;
    assert y.delivered == [first] + later;
    assert Chunks(y) == before + ([first] + later);
    UnionOne(first);
    UnionConcat([first], later);
    UnionConcat(y.sent, y.pending);
    DisjointParts(before, [first] + later);
    DisjointParts([first], later);
    DisjointParts(before, later);
  }

  lemma UpdateKeepsInv(y: System, e: Event, c: Config)
    requires Inv(y, c) && e.Update? && Enabled(y, e)
    ensures Inv(Next(y, e, c), c)
  {
    hide Chunks, Outstanding, Union, DisjointChunks, SumTokens;
    UpdateDropsChunk(y, e, c);
    ReleaseKeepsTables(y.sched, y.delivered[0]);
    var z := Next(y, e, c);
    assert Live(z) == Live(y);
    forall r | c.enabled && r in z.lanes && r in Live(z) && r in z.sched.requests ensures LaneKept(z, r, c.threshold) {
      assert LaneKept(y, r, c.threshold);
    }
  }

  /**
   What an update does to the tables: reported requests are no longer in flight, those of them
   whose prompt is done stop continuing, and nobody else's entry changes.
   */
  lemma UpdateReleases(y: System, e: Event, c: Config, r: ReqId)
    requires e.Update? && Enabled(y, e)
    ensures
      var s, t := y.sched, Next(y, e, c).sched;
      var reported := r in y.delivered[0];
      var done := r !in s.requests || s.requests[r].numComputedTokens >= s.requests[r].numPromptTokens;
      && (r in t.inflight <==> r in s.inflight && !reported)
      && (r in t.inflightTokens <==> r in s.inflightTokens && !reported)
      && (r in t.inflightTokens ==> t.inflightTokens[r] == s.inflightTokens[r])
      && (r in t.inDecodeBatch <==> r in s.inDecodeBatch && !reported)
      && (r in t.continuing <==> r in s.continuing && !(reported && done))
      && t.running == s.running
  {
    hide SumTokens;
  }

  lemma RemainingAre(running: seq<ReqId>, gone: set<ReqId>)
    ensures ToSet(Remaining(running, gone)) == ToSet(running) - gone
    ensures Distinct(running) ==> Distinct(Remaining(running, gone))
  {
    WhereMembers(running, gone, false);
  }

  lemma FinishKeepsInv(y: System, e: Event, c: Config)
    requires Inv(y, c) && e.Finish? && Enabled(y, e)
    ensures Inv(Next(y, e, c), c)
  {
    hide Union, DisjointChunks, SumTokens, Where;
    var z := Next(y, e, c);
    RemainingAre(y.sched.running, e.ids);
    assert Live(z) == Live(y) - e.ids;
    assert Chunks(z) == Chunks(y) && Outstanding(z) == Outstanding(y);
    forall r | c.enabled && r in z.lanes && r in Live(z) && r in z.sched.requests ensures LaneKept(z, r, c.threshold) {
      assert LaneKept(y, r, c.threshold);
    }
  }

  lemma StepKeepsInv(y: System, e: Event, c: Config)
    requires Inv(y, c) && Enabled(y, e)
    ensures Inv(Next(y, e, c), c)
  {
    hide Next, TablesAgree, RequestsOrdered, InFlightTracked, LanesKept, BaseContract;
    match e {
      case Add(_, _) => AddKeepsInv(y, e, c);
      case Schedule(_, _, _, _) =>
        ScheduleKeepsInFlight(y, e, c);
        ScheduleKeepsOrdered(y, e, c);
        ScheduleKeepsLanes(y, e, c);
      case Execute(_) => ExecuteKeepsInv(y, e, c);
      case Update(_) => UpdateKeepsInv(y, e, c);
      case Finish(_, _) => FinishKeepsInv(y, e, c);
    }
  }

  // ---------------------------------------------------------------- runs

  /** Each event is possible where it happens. */
  ghost predicate IsRun(y: System, events: seq<Event>, c: Config)
    decreases |events|
  {
    events == [] || (Enabled(y, events[0]) && IsRun(Next(y, events[0], c), events[1..], c))
  }

  ghost function After(y: System, events: seq<Event>, c: Config): System
    requires IsRun(y, events, c)
    decreases |events|
  {
    if events == [] then y else After(Next(y, events[0], c), events[1..], c)
  }

  lemma {:induction false} RunKeepsInv(y: System, events: seq<Event>, c: Config)
    requires Inv(y, c) && IsRun(y, events, c)
    ensures Inv(After(y, events, c), c)
    decreases |events|
  {
    if events != [] {
      StepKeepsInv(y, events[0], c);
      RunKeepsInv(Next(y, events[0], c), events[1..], c);
    }
  }

  /** No request ends while a chunk of it is outstanding. */
  ghost predicate EndsOnlyIdle(y: System, events: seq<Event>, c: Config)
    requires IsRun(y, events, c)
    decreases |events|
  {
    events != [] ==>
      && (events[0].Finish? ==> events[0].ids !! Outstanding(y))
      && EndsOnlyIdle(Next(y, events[0], c), events[1..], c)
  }

  lemma StepKeepsOutstandingLive(y: System, e: Event, c: Config)
    requires Inv(y, c) && Enabled(y, e) && Outstanding(y) <= Live(y)
    requires e.Finish? ==> e.ids !! Outstanding(y)
    ensures Outstanding(Next(y, e, c)) <= Live(Next(y, e, c))
  {
    hide Union, Scheduled, TablesAgree, LanesKept, BaseContract;
    match e {
      case Add(_, _) =>
      case Schedule(_, _, _, _) =>
        ScheduleChunks(y, e, c);
        TablesAfterSchedule(y, e, c);
        MovedAreLive(y, e, c);
      case Execute(_) => ExecuteKeepsChunks(y, e, c);
      case Update(_) => UpdateDropsChunk(y, e, c);
      case Finish(ids, _) => RemainingAre(y.sched.running, ids);
    }
  }

  lemma MovedAreLive(y: System, e: Event, c: Config)
    requires Inv(y, c) && e.Schedule? && BaseContract(y, e)
    ensures e.output.main.numScheduledTokens.Keys <= Live(y)
  {
    KeptSubset(y.sched.running, y.sched.inflight);
  }

  /**
   In a run in which no request ends while in flight, the scheduler's in-flight set is at
   every moment the union of the three disjoint places a chunk can be in.
   */
  lemma {:induction false} InFlightIsOutstanding(y: System, events: seq<Event>, c: Config)
    requires Inv(y, c) && Outstanding(y) <= Live(y)
    requires IsRun(y, events, c) && EndsOnlyIdle(y, events, c)
    ensures
      var z := After(y, events, c);
      && z.sched.inflight == Union(z.sent) + Union(z.pending) + Union(z.delivered)
      && Union(z.sent) !! Union(z.pending) && Union(z.sent) !! Union(z.delivered) && Union(z.pending) !! Union(z.delivered)
      && DisjointChunks(Chunks(z))
    decreases |events|
  {
    if events == [] {
      hide Union, DisjointChunks;
      assert Chunks(y) == y.sent + (y.pending + y.delivered);
      DisjointParts(y.sent, y.pending + y.delivered);
      DisjointParts(y.pending, y.delivered);
      UnionConcat(y.pending, y.delivered);
    } else {
      StepKeepsInv(y, events[0], c);
      StepKeepsOutstandingLive(y, events[0], c);
      InFlightIsOutstanding(Next(y, events[0], c), events[1..], c);
    }
  }
}
