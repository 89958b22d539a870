/**
 The tensor-parallel ranks of one runner: every rank keeps its own queue, and whether an output
 counts as ready is decided by a MIN all-reduce over the ranks' own copies.
 */
module RunnerRanks {
  import opened Wrappers
  import opened ModelRunner

  /** The MIN all-reduce: the q-th collective says ready exactly when every rank's own copy is. */
  ghost function AllReady(local: seq<Answers>): Answers {
    (q: nat) => forall r :: 0 <= r < |local| ==> local[r](q)
  }

  /** Two ranks are in step: as many outputs waiting, as many collectives issued, the same lane flags. */
  ghost predicate InStep<T>(a: Lanes<T>, b: Lanes<T>) {
    && |a.pending| == |b.pending| && a.queries == b.queries
    && a.decodeHasState == b.decodeHasState && a.prefillHasState == b.prefillHasState
    && a.decodeImmediate.Some? == b.decodeImmediate.Some? && a.prefillImmediate.Some? == b.prefillImmediate.Some?
  }

  ghost predicate SameRun<T>(a: LaneRun<T>, b: LaneRun<T>) {
    a.immediate.Some? == b.immediate.Some? && a.leavesState == b.leavesState
  }

  /** The same call on two ranks, whose tensors may differ. */
  ghost predicate SameCall<T>(a: Call<T>, b: Call<T>) {
    match a
    case ExecuteDecode(d) => b.ExecuteDecode? && SameRun(d, b.decode)
    case ExecuteBoth(d, p, tokens) =>
      b.ExecuteBoth? && SameRun(d, b.decode) && SameRun(p, b.prefill) && tokens == b.prefillHasTokens
    case Sample(d, p) => b.Sample? && d.Some? == b.sampledDecode.Some? && p.Some? == b.sampledPrefill.Some?
  }

  lemma TakeKeepsStep<T>(a: Lanes<T>, b: Lanes<T>, block: bool, ready: Answers)
    requires InStep(a, b)
    ensures InStep(Taken(a, block, ready).1, Taken(b, block, ready).1)
    ensures |Taken(a, block, ready).0| == |Taken(b, block, ready).0|
  {
  }

  lemma MergeKeepsStep<T>(
    a: Lanes<T>, b: Lanes<T>, da: Option<T>, db: Option<T>, pa: seq<T>, pb: seq<T>, block: bool, ready: Answers)
    requires InStep(a, b) && da.Some? == db.Some? && |pa| == |pb|
    ensures InStep(MergedResult(a, da, pa, block, ready).1, MergedResult(b, db, pb, block, ready).1)
    ensures |MergedResult(a, da, pa, block, ready).0.Delivered()| == |MergedResult(b, db, pb, block, ready).0.Delivered()|
  {
    TakeKeepsStep(a, b, block && da.None?, ready);
  }

  lemma CallKeepsStep<T>(a: Lanes<T>, b: Lanes<T>, ca: Call<T>, cb: Call<T>, polls: bool, ready: Answers)
    requires InStep(a, b) && SameCall(ca, cb)
    ensures InStep(Step(a, ca, polls, ready).1, Step(b, cb, polls, ready).1)
    ensures |Step(a, ca, polls, ready).0.Delivered()| == |Step(b, cb, polls, ready).0.Delivered()|
  {
    hide ExecutedDecode, ExecutedBoth, Sampled, InStep;
    match ca {
      case ExecuteDecode(d) =>
        DecodeKeepsStep(a, b, d, cb.decode, polls, ready);
      case ExecuteBoth(d, p, tokens) =>
        BothKeepsStep(a, b, d, cb.decode, p, cb.prefill, tokens, ready);
      case Sample(d, p) =>
        SampleKeepsStep(a, b, d, cb.sampledDecode, p, cb.sampledPrefill, ready);
    }
  }

  lemma DecodeKeepsStep<T>(a: Lanes<T>, b: Lanes<T>, da: LaneRun<T>, db: LaneRun<T>, polls: bool, ready: Answers)
    requires InStep(a, b) && SameRun(da, db)
    ensures InStep(ExecutedDecode(a, da, polls, ready).1, ExecutedDecode(b, db, polls, ready).1)
    ensures |ExecutedDecode(a, da, polls, ready).0.Delivered()| == |ExecutedDecode(b, db, polls, ready).0.Delivered()|
  {
    hide Taken;
    var pa := (if polls then Polled(Polled(a, ready), ready) else Polled(a, ready)).(decodeHasState := da.leavesState);
    var pb := (if polls then Polled(Polled(b, ready), ready) else Polled(b, ready)).(decodeHasState := db.leavesState);
    TakeKeepsStep(pa, pb, false, ready);
  }

  lemma BothKeepsStep<T>(
    a: Lanes<T>, b: Lanes<T>, da: LaneRun<T>, db: LaneRun<T>, pa: LaneRun<T>, pb: LaneRun<T>, tokens: bool, ready: Answers)
    requires InStep(a, b) && SameRun(da, db) && SameRun(pa, pb)
    ensures InStep(ExecutedBoth(a, da, pa, tokens, ready).1, ExecutedBoth(b, db, pb, tokens, ready).1)
    ensures |ExecutedBoth(a, da, pa, tokens, ready).0.Delivered()| == |ExecutedBoth(b, db, pb, tokens, ready).0.Delivered()|
  {
    var a1 := a.(decodeImmediate := da.immediate, decodeHasState := da.leavesState,
                 prefillImmediate := if tokens then pa.immediate else None,
                 prefillHasState := if tokens then pa.leavesState else a.prefillHasState);
    var b1 := b.(decodeImmediate := db.immediate, decodeHasState := db.leavesState,
                 prefillImmediate := if tokens then pb.immediate else None,
                 prefillHasState := if tokens then pb.leavesState else b.prefillHasState);
    MergeKeepsStep(a1, b1, a1.decodeImmediate, b1.decodeImmediate,
                   if a1.prefillImmediate.Some? then [a1.prefillImmediate.value] else [],
                   if b1.prefillImmediate.Some? then [b1.prefillImmediate.value] else [], true, ready);
  }

  lemma SampleKeepsStep<T>(
    a: Lanes<T>, b: Lanes<T>, da: Option<T>, db: Option<T>, pa: Option<T>, pb: Option<T>, ready: Answers)
    requires InStep(a, b) && da.Some? == db.Some? && pa.Some? == pb.Some?
    ensures InStep(Sampled(a, da, pa, ready).1, Sampled(b, db, pb, ready).1)
    ensures |Sampled(a, da, pa, ready).0.Delivered()| == |Sampled(b, db, pb, ready).0.Delivered()|
  {
    var xa, xb := Appended(a, pa), Appended(b, pb);
    var a1 := a.(pending := if xa.Some? then a.pending + [xa.value] else a.pending,
                 decodeHasState := false, prefillHasState := false);
    var b1 := b.(pending := if xb.Some? then b.pending + [xb.value] else b.pending,
                 decodeHasState := false, prefillHasState := false);
    var decodeA := if a.decodeHasState then da else a.decodeImmediate;
    var decodeB := if b.decodeHasState then db else b.decodeImmediate;
    TakeKeepsStep(a1, b1, decodeA.None?, ready);
    MergeKeepsStep(Taken(a1, decodeA.None?, ready).1, Taken(b1, decodeB.None?, ready).1, decodeA, decodeB,
                   Taken(a1, decodeA.None?, ready).0, Taken(b1, decodeB.None?, ready).0, decodeA.None?, ready);
  }

  // ---------------------------------------------------------------- what the collectives ask about

  /** The positions asked about, from the head of the queue on, up to the first that is not ready. */
  function Asked<T>(l: Lanes<T>, head: nat, ready: Answers): seq<nat> {
    seq(QueriesFor(|l.pending|, l.queries, ready), i requires i >= 0 => head + i)
  }

  function AskedByTake<T>(l: Lanes<T>, head: nat, block: bool, ready: Answers): seq<nat> {
    if block then [] else Asked(l, head, ready)
  }

  /**
   The queue positions a call's collectives ask about, in order. Positions count every output
   ever queued, so that head, the position of the first pending one, moves with each take.
   */
  function AskedByCall<T>(l: Lanes<T>, head: nat, c: Call<T>, polls: bool, ready: Answers): seq<nat> {
    match c
    case ExecuteDecode(d) =>
      var l1 := Polled(l, ready);
      var l2 := if polls then Polled(l1, ready) else l1;
      Asked(l, head, ready) + (if polls then Asked(l1, head, ready) else [])
        + (if d.immediate.None? then [] else AskedByTake(l2, head, false, ready))
    case ExecuteBoth(d, p, tokens) =>
      if d.leavesState || (if tokens then p.leavesState else l.prefillHasState) then []
      else AskedByTake(l, head, d.immediate.None?, ready)
    case Sample(d, p) =>
      var block := (if l.decodeHasState then d else l.decodeImmediate).None?;
      var l1 := l.(pending := l.pending + AsSeq(Appended(l, p)), decodeHasState := false, prefillHasState := false);
      var (first, l2) := Taken(l1, block, ready);
      AskedByTake(l1, head, block, ready) + AskedByTake(l2, head + |first|, block, ready)
  }

  /** Outputs leave the queue from the front; only a sample call appends one. */
  lemma QueueShrinks<T>(l: Lanes<T>, c: Call<T>, polls: bool, ready: Answers)
    ensures |Step(l, c, polls, ready).1.pending|
      <= |l.pending| + if c.Sample? then |AsSeq(Appended(l, c.sampledPrefill))| else 0
  {
    match c {
      case ExecuteDecode(d) => DecodeOnlyDelivers(l, d, polls, ready);
      case ExecuteBoth(d, p, tokens) =>
      case Sample(d, p) => SampleDelivers(l, d, p, ready);
    }
  }

  /** The head's position after a call: past whatever left the queue. */
  function HeadAfter<T>(l: Lanes<T>, head: nat, c: Call<T>, polls: bool, ready: Answers): (r: nat)
    ensures r >= head
  {
    QueueShrinks(l, c, polls, ready);
    head + |l.pending| + (if c.Sample? then |AsSeq(Appended(l, c.sampledPrefill))| else 0)
      - |Step(l, c, polls, ready).1.pending|
  }

  lemma TakeAsks<T>(l: Lanes<T>, head: nat, block: bool, ready: Answers)
    ensures Taken(l, block, ready).1.queries == l.queries + |AskedByTake(l, head, block, ready)|
  {
  }

  /** Every collective a call issues asks about one queue position. */
  lemma CallAsks<T>(l: Lanes<T>, head: nat, c: Call<T>, polls: bool, ready: Answers)
    ensures Step(l, c, polls, ready).1.queries == l.queries + |AskedByCall(l, head, c, polls, ready)|
  {
    hide Taken, AskedByTake, Asked;
    match c {
      case ExecuteDecode(d) => DecodeAsks(l, head, d, polls, ready);
      case ExecuteBoth(d, p, tokens) => BothAsks(l, head, d, p, tokens, ready);
      case Sample(d, p) => SampleAsks(l, head, d, p, ready);
    }
  }

  lemma DecodeAsks<T>(l: Lanes<T>, head: nat, d: LaneRun<T>, polls: bool, ready: Answers)
    ensures ExecutedDecode(l, d, polls, ready).1.queries
      == l.queries + |AskedByCall(l, head, ExecuteDecode(d), polls, ready)|
  {
    hide Taken;
    var l1 := Polled(l, ready);
    var l2 := if polls then Polled(l1, ready) else l1;
    TakeAsks(l2.(decodeHasState := d.leavesState), head, false, ready);
  }

  lemma BothAsks<T>(l: Lanes<T>, head: nat, d: LaneRun<T>, p: LaneRun<T>, tokens: bool, ready: Answers)
    ensures ExecutedBoth(l, d, p, tokens, ready).1.queries
      == l.queries + |AskedByCall(l, head, ExecuteBoth(d, p, tokens), false, ready)|
  {
    hide Taken, AskedByTake;
    var l1 := l.(decodeImmediate := d.immediate, decodeHasState := d.leavesState,
                 prefillImmediate := if tokens then p.immediate else None,
                 prefillHasState := if tokens then p.leavesState else l.prefillHasState);
    TakeAsks(l1, head, d.immediate.None?, ready);
    SameQueueAsks(l, l1, head, d.immediate.None?, ready);
  }

  lemma SampleAsks<T>(l: Lanes<T>, head: nat, d: Option<T>, p: Option<T>, ready: Answers)
    ensures Sampled(l, d, p, ready).1.queries == l.queries + |AskedByCall(l, head, Sample(d, p), false, ready)|
  {
    hide Taken, AskedByTake, Appended;
    var block := (if l.decodeHasState then d else l.decodeImmediate).None?;
    var appended := AsSeq(Appended(l, p));
    assert l.pending + [] == l.pending;
    var l1 := l.(pending := l.pending + appended, decodeHasState := false, prefillHasState := false);
    TakeAsks(l1, head, block, ready);
    var (first, l2) := Taken(l1, block, ready);
    TakeAsks(l2, head + |first|, block, ready);
  }

  lemma SameQueueAsks<A, B>(a: Lanes<A>, b: Lanes<B>, head: nat, block: bool, ready: Answers)
    requires |a.pending| == |b.pending| && a.queries == b.queries
    ensures AskedByTake(a, head, block, ready) == AskedByTake(b, head, block, ready)
  {
  }

  /** Ranks in step ask about the same positions and stay at the same head. */
  lemma CallAsksAlike<T>(a: Lanes<T>, b: Lanes<T>, head: nat, ca: Call<T>, cb: Call<T>, polls: bool, ready: Answers)
    requires InStep(a, b) && SameCall(ca, cb)
    ensures AskedByCall(a, head, ca, polls, ready) == AskedByCall(b, head, cb, polls, ready)
    ensures HeadAfter(a, head, ca, polls, ready) == HeadAfter(b, head, cb, polls, ready)
  {
    hide Step, InStep, Appended;
    CallKeepsStep(a, b, ca, cb, polls, ready);
    HeadsAlike(a, b, head, ca, cb, polls, ready);
    hide HeadAfter;
    match ca {
      case ExecuteDecode(d) => DecodeAsksAlike(a, b, head, d, cb.decode, polls, ready);
      case ExecuteBoth(d, p, tokens) => BothAsksAlike(a, b, head, d, cb.decode, p, cb.prefill, tokens, ready);
      case Sample(d, p) => SampleAsksAlike(a, b, head, d, cb.sampledDecode, p, cb.sampledPrefill, ready);
    }
  }

  lemma HeadsAlike<T>(a: Lanes<T>, b: Lanes<T>, head: nat, ca: Call<T>, cb: Call<T>, polls: bool, ready: Answers)
    requires InStep(a, b) && SameCall(ca, cb) && InStep(Step(a, ca, polls, ready).1, Step(b, cb, polls, ready).1)
    ensures HeadAfter(a, head, ca, polls, ready) == HeadAfter(b, head, cb, polls, ready)
  {
    hide Step;
  }

  lemma AskedAlike<T>(a: Lanes<T>, b: Lanes<T>, head: nat, ready: Answers)
    requires InStep(a, b)
    ensures Asked(a, head, ready) == Asked(b, head, ready) && InStep(Polled(a, ready), Polled(b, ready))
  {
  }

  lemma DecodeAsksAlike<T>(
    a: Lanes<T>, b: Lanes<T>, head: nat, da: LaneRun<T>, db: LaneRun<T>, polls: bool, ready: Answers)
    requires InStep(a, b) && SameRun(da, db)
    ensures AskedByCall(a, head, ExecuteDecode(da), polls, ready) == AskedByCall(b, head, ExecuteDecode(db), polls, ready)
  {
    hide InStep, Asked, Polled;
    AskedAlike(a, b, head, ready);
    var (a1, b1) := (Polled(a, ready), Polled(b, ready));
    AskedAlike(a1, b1, head, ready);
    AskedAlike(Polled(a1, ready), Polled(b1, ready), head, ready);
  }

  lemma BothAsksAlike<T>(
    a: Lanes<T>, b: Lanes<T>, head: nat, da: LaneRun<T>, db: LaneRun<T>, pa: LaneRun<T>, pb: LaneRun<T>, tokens: bool,
    ready: Answers)
    requires InStep(a, b) && SameRun(da, db) && SameRun(pa, pb)
    ensures AskedByCall(a, head, ExecuteBoth(da, pa, tokens), false, ready)
      == AskedByCall(b, head, ExecuteBoth(db, pb, tokens), false, ready)
  {
    hide Asked;
    AskedAlike(a, b, head, ready);
  }

  lemma SampleAsksAlike<T>(
    a: Lanes<T>, b: Lanes<T>, head: nat, da: Option<T>, db: Option<T>, pa: Option<T>, pb: Option<T>, ready: Answers)
    requires InStep(a, b) && da.Some? == db.Some? && pa.Some? == pb.Some?
    ensures AskedByCall(a, head, Sample(da, pa), false, ready) == AskedByCall(b, head, Sample(db, pb), false, ready)
  {
    var block := (if a.decodeHasState then da else a.decodeImmediate).None?;
    var a1 := a.(pending := a.pending + AsSeq(Appended(a, pa)), decodeHasState := false, prefillHasState := false);
    var b1 := b.(pending := b.pending + AsSeq(Appended(b, pb)), decodeHasState := false, prefillHasState := false);
    TakeKeepsStep(a1, b1, block, ready);
    SameQueueAsks(a1, b1, head, block, ready);
    var (firstA, a2) := Taken(a1, block, ready);
    var (firstB, b2) := Taken(b1, block, ready);
    hide Taken;
    SameQueueAsks(a2, b2, head + |firstA|, block, ready);
  }

  // ---------------------------------------------------------------- whole runs

  /** What the collectives of a run ask about, in order. */
  function AskedByRun<T>(h: History<T>, head: nat, calls: seq<Call<T>>, polls: bool, ready: Answers): seq<nat>
    decreases |calls|
  {
    if calls == [] then []
    else
      AskedByCall(h.lanes, head, calls[0], polls, ready)
        + AskedByRun(Advanced(h, calls[0], polls, ready), HeadAfter(h.lanes, head, calls[0], polls, ready),
                     calls[1..], polls, ready)
  }

  /** Two ranks making the same calls. */
  ghost predicate SameCalls<T>(a: seq<Call<T>>, b: seq<Call<T>>) {
    |a| == |b| && forall i :: 0 <= i < |a| ==> SameCall(a[i], b[i])
  }

  ghost predicate Alike<T>(a: History<T>, b: History<T>) {
    InStep(a.lanes, b.lanes) && |a.delivered| == |b.delivered|
  }

  lemma {:induction false} TwoStayInStep<T>(
    a: History<T>, b: History<T>, head: nat, callsA: seq<Call<T>>, callsB: seq<Call<T>>, polls: bool, ready: Answers)
    requires Alike(a, b) && SameCalls(callsA, callsB)
    ensures Alike(Run(a, callsA, polls, ready), Run(b, callsB, polls, ready))
    ensures AskedByRun(a, head, callsA, polls, ready) == AskedByRun(b, head, callsB, polls, ready)
    ensures Run(a, callsA, polls, ready).lanes.queries == a.lanes.queries + |AskedByRun(a, head, callsA, polls, ready)|
    decreases |callsA|
  {
    if callsA != [] {
      hide InStep, Step, AskedByCall, HeadAfter;
      CallKeepsStep(a.lanes, b.lanes, callsA[0], callsB[0], polls, ready);
      CallAsksAlike(a.lanes, b.lanes, head, callsA[0], callsB[0], polls, ready);
      CallAsks(a.lanes, head, callsA[0], polls, ready);
      TwoStayInStep(
        Advanced(a, callsA[0], polls, ready), Advanced(b, callsB[0], polls, ready),
        HeadAfter(a.lanes, head, callsA[0], polls, ready), callsA[1..], callsB[1..], polls, ready);
    }
  }

  /**
   Any number of ranks that make the same calls, each with its own outputs and its own copies'
   readiness combined by MIN, stay in step for the whole run: equally long queues, equally many
   outputs handed back, and the same number of collectives, the q-th of which asks about the
   same queue position on every rank.
   */
  lemma RanksStayInStep<T>(
    ranks: seq<History<T>>, calls: seq<seq<Call<T>>>, local: seq<Answers>, head: nat, polls: bool, a: nat, b: nat)
    requires |ranks| == |calls| == |local|
    requires forall i, j :: 0 <= i < |ranks| && 0 <= j < |ranks| ==> Alike(ranks[i], ranks[j]) && SameCalls(calls[i], calls[j])
    requires a < |ranks| && b < |ranks|
    ensures
      var ready := AllReady(local);
      var (x, y) := (Run(ranks[a], calls[a], polls, ready), Run(ranks[b], calls[b], polls, ready));
      var asked := AskedByRun(ranks[a], head, calls[a], polls, ready);
      && Alike(x, y)
      && asked == AskedByRun(ranks[b], head, calls[b], polls, ready)
      && x.lanes.queries == y.lanes.queries == ranks[a].lanes.queries + |asked|
  {
    hide Run, AskedByRun, SameCalls;
    TwoStayInStep(ranks[a], ranks[b], head, calls[a], calls[b], polls, AllReady(local));
  }

  /** A take that does not wait hands back the longest run of outputs of which every rank has its copy, and nothing beyond. */
  lemma TakenIsReadyEverywhere<T>(l: Lanes<T>, local: seq<Answers>, i: nat)
    requires i <= |Taken(l, false, AllReady(local)).0|
    ensures i < |Taken(l, false, AllReady(local)).0| ==> forall r :: 0 <= r < |local| ==> local[r](l.queries + i)
    ensures i == |Taken(l, false, AllReady(local)).0| < |l.pending| ==>
      exists r :: 0 <= r < |local| && !local[r](l.queries + i)
  {
    var ready := AllReady(local);
    TakesMaximalReadyPrefix(|l.pending|, l.queries, ready);
    assert i < |Taken(l, false, ready).0| ==> ready(l.queries + i);
  }

  /** Without the all-reduce two ranks part company on the first output that only one has ready. */
  lemma LocalReadinessDiverges(l: Lanes<int>, mine: Answers, yours: Answers)
    requires l.pending != [] && mine(l.queries) && !yours(l.queries)
    ensures !InStep(Taken(l, false, mine).1, Taken(l, false, yours).1)
  {
    assert ReadyPrefix(|l.pending|, l.queries, mine) >= 1;
    assert ReadyPrefix(|l.pending|, l.queries, yours) == 0;
  }
}
