/**
 The runner's two lanes: what an execute call and a sample call do to the queue of prefill
 outputs that are waiting for their copy to finish, and what they hand back.
 */
module ModelRunner {
  import opened Wrappers

  /**
   What one lane's base call leaves: an immediate result, or a saved state to sample from.
   The base runner is not part of this model.
   */
  datatype LaneRun<T> = LaneRun(immediate: Option<T>, leavesState: bool)

  datatype Result<T> =
    | Nothing
    | DecodeOnly(output: T)
    | WithPrefill(decode: Option<T>, prefills: seq<T>)
  {
    /** The prefill outputs handed back. */
    function Delivered(): seq<T> {
      if WithPrefill? then prefills else []
    }

    /** The decode output handed back, if any. */
    function Decoded(): Option<T> {
      match this
      case Nothing => None
      case DecodeOnly(output) => Some(output)
      case WithPrefill(decode, prefills) => decode
    }
  }

  /**
   The runner's fields. queries counts the readiness collectives issued so far; the n-th one
   is answered by ready(n), the same on every tensor-parallel rank.
   */
  datatype Lanes<T> = Lanes(
    pending: seq<T>,
    decodeImmediate: Option<T>,
    prefillImmediate: Option<T>,
    decodeHasState: bool,
    prefillHasState: bool,
    queries: nat)

  type Answers = nat -> bool

  /** The number of outputs at the front that are ready, asking one after the other. */
  function ReadyPrefix(n: nat, queries: nat, ready: Answers): (k: nat)
    ensures k <= n
    decreases n
  {
    if n > 0 && ready(queries) then 1 + ReadyPrefix(n - 1, queries + 1, ready) else 0
  }

  /** How many collectives that takes: one more than the ready ones, unless all are ready. */
  function QueriesFor(n: nat, queries: nat, ready: Answers): (k: nat) {
    var p := ReadyPrefix(n, queries, ready);
    if p < n then p + 1 else p
  }

  function Taken<T>(l: Lanes<T>, block: bool, ready: Answers): (r: (seq<T>, Lanes<T>)) {
    if l.pending == [] then ([], l)
    else if block then ([l.pending[0]], l.(pending := l.pending[1..]))
    else
      var k := ReadyPrefix(|l.pending|, l.queries, ready);
      (l.pending[..k], l.(pending := l.pending[k..], queries := l.queries + QueriesFor(|l.pending|, l.queries, ready)))
  }

  /** Asking after every pending output until one is not ready; the queue is left alone. */
  function Polled<T>(l: Lanes<T>, ready: Answers): Lanes<T> {
    if l.pending == [] then l
    else l.(queries := l.queries + QueriesFor(|l.pending|, l.queries, ready))
  }

  function MergedResult<T>(
    l: Lanes<T>, decode: Option<T>, prefills: seq<T>, blockWhenNoDecode: bool, ready: Answers): (Result<T>, Lanes<T>)
  {
    var (more, l') := Taken(l, blockWhenNoDecode && decode.None?, ready);
    if prefills + more != [] then (WithPrefill(decode, prefills + more), l')
    else (if decode.Some? then DecodeOnly(decode.value) else Nothing, l')
  }

  /** execute_model on a batch without an offloaded prefill part. */
  function ExecutedDecode<T>(l: Lanes<T>, decode: LaneRun<T>, pollsMode: bool, ready: Answers): (Result<T>, Lanes<T>) {
    var polled := Polled(l, ready);
    var polledTwice := if pollsMode then Polled(polled, ready) else polled;
    var l1 := polledTwice.(decodeHasState := decode.leavesState);
    if decode.immediate.None? then (Nothing, l1)
    else
      var (more, l2) := Taken(l1, false, ready);
      if more != [] then (WithPrefill(decode.immediate, more), l2) else (DecodeOnly(decode.immediate.value), l2)
  }

  /** execute_model on a batch with an offloaded prefill part; the prefill lane is skipped when it has no tokens. */
  function ExecutedBoth<T>(
    l: Lanes<T>, decode: LaneRun<T>, prefill: LaneRun<T>, prefillHasTokens: bool, ready: Answers): (Result<T>, Lanes<T>)
  {
    var l1 := l.(
      decodeImmediate := decode.immediate,
      decodeHasState := decode.leavesState,
      prefillImmediate := if prefillHasTokens then prefill.immediate else None,
      prefillHasState := if prefillHasTokens then prefill.leavesState else l.prefillHasState);
    if l1.decodeHasState || l1.prefillHasState then (Nothing, l1)
    else
      MergedResult(l1, l1.decodeImmediate, if l1.prefillImmediate.Some? then [l1.prefillImmediate.value] else [], true, ready)
  }

  /** The prefill output a sample call appends: freshly sampled, or else the remembered immediate one. */
  function Appended<T>(l: Lanes<T>, sampledPrefill: Option<T>): Option<T> {
    if l.prefillHasState then sampledPrefill else l.prefillImmediate
  }

  function Sampled<T>(l: Lanes<T>, sampledDecode: Option<T>, sampledPrefill: Option<T>, ready: Answers): (Result<T>, Lanes<T>) {
    var decode := if l.decodeHasState then sampledDecode else l.decodeImmediate;
    var appended := Appended(l, sampledPrefill);
    var l1 := l.(
      pending := if appended.Some? then l.pending + [appended.value] else l.pending,
      decodeHasState := false,
      prefillHasState := false);
    var (first, l2) := Taken(l1, decode.None?, ready);
    MergedResult(l2, decode, first, decode.None?, ready)
  }

  // ---------------------------------------------------------------- the runner's methods

  class Runner<T> {
    var pendingPrefillOutputs: seq<T>
    var decodeImmediateOutput: Option<T>
    var prefillImmediateOutput: Option<T>
    var decodeLaneHasState: bool
    var prefillLaneHasState: bool
    var active: bool
    var queries: nat
    const pollsBeforeDecode: bool

    ghost function State(): Lanes<T>
      reads this
    {
      Lanes(pendingPrefillOutputs, decodeImmediateOutput, prefillImmediateOutput,
            decodeLaneHasState, prefillLaneHasState, queries)
    }

    constructor (pollsBeforeDecode: bool)
      ensures State() == Lanes([], None, None, false, false, 0) && !active
      ensures this.pollsBeforeDecode == pollsBeforeDecode
    {
      this.pollsBeforeDecode := pollsBeforeDecode;
      pendingPrefillOutputs := [];
      decodeImmediateOutput, prefillImmediateOutput := None, None;
      decodeLaneHasState, prefillLaneHasState, active, queries := false, false, false, 0;
    }

    method TakeReadyPrefillOutputs(block: bool, ready: Answers) returns (taken: seq<T>)
      modifies this`pendingPrefillOutputs, this`queries
      ensures (taken, State()) == Taken(old(State()), block, ready)
    {
      if pendingPrefillOutputs == [] {
        return [];
      }
      if block {
        taken := [pendingPrefillOutputs[0]];
        pendingPrefillOutputs := pendingPrefillOutputs[1..];
        return;
      }
      taken := [];
      var asked := true;
      ghost var all, start := pendingPrefillOutputs, queries;
      while pendingPrefillOutputs != [] && asked
        invariant |taken| <= |all| && taken == all[..|taken|] && pendingPrefillOutputs == all[|taken|..]
        invariant asked ==> queries == start + |taken|
        invariant asked ==> |taken| + ReadyPrefix(|all| - |taken|, queries, ready) == ReadyPrefix(|all|, start, ready)
        invariant !asked ==> |taken| == ReadyPrefix(|all|, start, ready) < |all| && queries == start + |taken| + 1
        decreases |pendingPrefillOutputs|, asked
      {
        asked := ready(queries);
        queries := queries + 1;
        if asked {
          taken := taken + [pendingPrefillOutputs[0]];
          pendingPrefillOutputs := pendingPrefillOutputs[1..];
        }
      }
    }

    /** all(_async_output_ready(output) for output in pending): asks until the first output that is not ready. */
    method PollPending(ready: Answers)
      modifies this`queries
      ensures State() == Polled(old(State()), ready)
    {
      var i, n := 0, |pendingPrefillOutputs|;
      var allReady := true;
      ghost var start := queries;
      while i < n && allReady
        invariant 0 <= i <= n
        invariant allReady ==> queries == start + i && i + ReadyPrefix(n - i, queries, ready) == ReadyPrefix(n, start, ready)
        invariant !allReady ==> i == ReadyPrefix(n, start, ready) < n && queries == start + i + 1
        decreases n - i, allReady
      {
        allReady := ready(queries);
        queries := queries + 1;
        if allReady {
          i := i + 1;
        }
      }
    }

    method MergeDynamicPdOutputs(decode: Option<T>, prefills: seq<T>, blockWhenNoDecode: bool, ready: Answers)
      returns (result: Result<T>)
      modifies this`pendingPrefillOutputs, this`queries
      ensures (result, State()) == MergedResult(old(State()), decode, prefills, blockWhenNoDecode, ready)
    {
      var more := TakeReadyPrefillOutputs(blockWhenNoDecode && decode.None?, ready);
      var all := prefills + more;
      if all != [] {
        return WithPrefill(decode, all);
      }
      result := if decode.Some? then DecodeOnly(decode.value) else Nothing;
    }

    method ExecuteDecodeOnly(decode: LaneRun<T>, ready: Answers) returns (result: Result<T>)
      modifies this`pendingPrefillOutputs, this`queries, this`decodeLaneHasState
      ensures (result, State()) == ExecutedDecode(old(State()), decode, pollsBeforeDecode, ready)
    {
      PollPending(ready);
      if pollsBeforeDecode {
        PollPending(ready);
      }
      decodeLaneHasState := decode.leavesState;
      if decode.immediate.None? {
        return Nothing;
      }
      var more := TakeReadyPrefillOutputs(false, ready);
      if more != [] {
        return WithPrefill(decode.immediate, more);
      }
      result := DecodeOnly(decode.immediate.value);
    }

    method ExecuteBothLanes(decode: LaneRun<T>, prefill: LaneRun<T>, prefillHasTokens: bool, ready: Answers)
      returns (result: Result<T>)
      modifies this
      ensures (result, State()) == ExecutedBoth(old(State()), decode, prefill, prefillHasTokens, ready)
    {
      active := true;
      decodeImmediateOutput, prefillImmediateOutput := None, None;
      decodeImmediateOutput := decode.immediate;
      decodeLaneHasState := decode.leavesState;
      if prefillHasTokens {
        prefillImmediateOutput := prefill.immediate;
        prefillLaneHasState := prefill.leavesState;
      }
      if decodeLaneHasState || prefillLaneHasState {
        return Nothing;
      }
      active := false;
      var immediate := if prefillImmediateOutput.Some? then [prefillImmediateOutput.value] else [];
      result := MergeDynamicPdOutputs(decodeImmediateOutput, immediate, true, ready);
    }

    method SampleTokens(sampledDecode: Option<T>, sampledPrefill: Option<T>, ready: Answers) returns (result: Result<T>)
      modifies this
      ensures (result, State()) == Sampled(old(State()), sampledDecode, sampledPrefill, ready)
    {
      hide Taken, MergedResult;
      var decode, prefill := decodeImmediateOutput, prefillImmediateOutput;
      if decodeLaneHasState {
        decode := sampledDecode;
        decodeLaneHasState := false;
      }
      if prefillLaneHasState {
        prefill := sampledPrefill;
        prefillLaneHasState := false;
      }
      if prefill.Some? {
        pendingPrefillOutputs := pendingPrefillOutputs + [prefill.value];
      }
      active := |pendingPrefillOutputs| > 0;
      var first := TakeReadyPrefillOutputs(decode.None?, ready);
      result := MergeDynamicPdOutputs(decode, first, decode.None?, ready);
    }
  }

  // ---------------------------------------------------------------- single calls

  /** A take removes a prefix of the queue. */
  lemma TakenIsPrefix<T>(l: Lanes<T>, block: bool, ready: Answers)
    ensures Taken(l, block, ready).0 + Taken(l, block, ready).1.pending == l.pending
    ensures Taken(l, block, ready).1
      == l.(pending := Taken(l, block, ready).1.pending, queries := Taken(l, block, ready).1.queries)
    ensures block && l.pending != [] ==> |Taken(l, block, ready).0| == 1
  {
  }

  /** A take that does not wait removes the longest ready prefix, asking each output once. */
  lemma {:induction false} TakesMaximalReadyPrefix(n: nat, queries: nat, ready: Answers)
    ensures
      var k := ReadyPrefix(n, queries, ready);
      && (forall i :: queries <= i < queries + k ==> ready(i))
      && (k < n ==> !ready(queries + k))
    decreases n
  {
    if n > 0 && ready(queries) {
      TakesMaximalReadyPrefix(n - 1, queries + 1, ready);
    }
  }

  /** Merging hands back the given prefill outputs followed by a prefix of the queue. */
  lemma MergeDelivers<T>(l: Lanes<T>, decode: Option<T>, prefills: seq<T>, block: bool, ready: Answers)
    ensures
      var (result, l') := MergedResult(l, decode, prefills, block, ready);
      && result.Delivered() + l'.pending == prefills + l.pending
      && l' == l.(pending := l'.pending, queries := l'.queries)
      && (block && decode.None? && l.pending != [] ==> |result.Delivered()| > |prefills|)
      && (result.WithPrefill? ==> result.decode == decode)
  {
    TakenIsPrefix(l, block && decode.None?, ready);
    var more, l' := Taken(l, block && decode.None?, ready).0, Taken(l, block && decode.None?, ready).1;
    assert (prefills + more) + l'.pending == prefills + (more + l'.pending);
  }

  /** Merging hands back the decode output it was given, with prefill outputs or without, and nothing only for want of both. */
  lemma MergeHandsBackDecode<T>(l: Lanes<T>, decode: Option<T>, prefills: seq<T>, block: bool, ready: Answers)
    ensures
      var result := MergedResult(l, decode, prefills, block, ready).0;
      result.Decoded() == decode && (result == Nothing <==> decode.None? && result.Delivered() == [])
  {
    hide Taken;
  }

  /** An execute call without offloaded part hands back the decode lane's immediate output, no other and no earlier one. */
  lemma DecodeOnlyHandsBack<T>(l: Lanes<T>, decode: LaneRun<T>, polls: bool, ready: Answers)
    ensures ExecutedDecode(l, decode, polls, ready).0.Decoded() == decode.immediate
    ensures ExecutedDecode(l, decode, polls, ready).0 == Nothing <==> decode.immediate.None?
    ensures ExecutedDecode(l, decode, polls, ready).1.decodeHasState == decode.leavesState
  {
    hide Taken;
    var polled := Polled(l, ready);
    var l1 := (if polls then Polled(polled, ready) else polled).(decodeHasState := decode.leavesState);
    TakenIsPrefix(l1, false, ready);
  }

  /** With offloaded part it does so when no lane left a state; otherwise it remembers the output for the sample call. */
  lemma BothHandsBack<T>(l: Lanes<T>, decode: LaneRun<T>, prefill: LaneRun<T>, tokens: bool, ready: Answers)
    ensures
      var (result, l') := ExecutedBoth(l, decode, prefill, tokens, ready);
      var saved := decode.leavesState || if tokens then prefill.leavesState else l.prefillHasState;
      && result.Decoded() == (if saved then None else decode.immediate)
      && (saved ==> result == Nothing)
      && l'.decodeHasState == decode.leavesState && l'.decodeImmediate == decode.immediate
  {
    hide Taken, MergedResult;
    var l1 := l.(decodeImmediate := decode.immediate, decodeHasState := decode.leavesState,
                 prefillImmediate := if tokens then prefill.immediate else None,
                 prefillHasState := if tokens then prefill.leavesState else l.prefillHasState);
    var given := if l1.prefillImmediate.Some? then [l1.prefillImmediate.value] else [];
    MergeHandsBackDecode(l1, decode.immediate, given, true, ready);
    MergeDelivers(l1, decode.immediate, given, true, ready);
  }

  /** A sample call hands back what it sampled from the decode lane's state, or else the remembered output. */
  lemma SampleHandsBack<T>(l: Lanes<T>, sampledDecode: Option<T>, sampledPrefill: Option<T>, ready: Answers)
    ensures Sampled(l, sampledDecode, sampledPrefill, ready).0.Decoded()
      == if l.decodeHasState then sampledDecode else l.decodeImmediate
  {
    hide Taken, MergedResult;
    var decode := if l.decodeHasState then sampledDecode else l.decodeImmediate;
    var appended := Appended(l, sampledPrefill);
    var l1 := l.(pending := if appended.Some? then l.pending + [appended.value] else l.pending,
                 decodeHasState := false, prefillHasState := false);
    var (first, l2) := Taken(l1, decode.None?, ready);
    MergeHandsBackDecode(l2, decode, first, decode.None?, ready);
  }

  /** A sample call appends at most one output and hands back a prefix; without a decode output it hands back at least one. */
  lemma SampleDelivers<T>(l: Lanes<T>, sampledDecode: Option<T>, sampledPrefill: Option<T>, ready: Answers)
    ensures
      var (result, l') := Sampled(l, sampledDecode, sampledPrefill, ready);
      var appended := Appended(l, sampledPrefill);
      var queue := l.pending + if appended.Some? then [appended.value] else [];
      && result.Delivered() + l'.pending == queue
      && !l'.decodeHasState && !l'.prefillHasState
      && l'.prefillImmediate == l.prefillImmediate && l'.decodeImmediate == l.decodeImmediate
      && ((if l.decodeHasState then sampledDecode else l.decodeImmediate).None? && queue != [] ==> result.Delivered() != [])
  {
    var decode := if l.decodeHasState then sampledDecode else l.decodeImmediate;
    var appended := Appended(l, sampledPrefill);
    var l1 := l.(pending := if appended.Some? then l.pending + [appended.value] else l.pending,
                 decodeHasState := false, prefillHasState := false);
    TakenIsPrefix(l1, decode.None?, ready);
    var (first, l2) := Taken(l1, decode.None?, ready);
    MergeDelivers(l2, decode, first, decode.None?, ready);
  }

  lemma DecodeOnlyDelivers<T>(l: Lanes<T>, decode: LaneRun<T>, polls: bool, ready: Answers)
    ensures
      var (result, l') := ExecutedDecode(l, decode, polls, ready);
      && result.Delivered() + l'.pending == l.pending
      && l'.prefillImmediate == l.prefillImmediate && l'.prefillHasState == l.prefillHasState
  {
    var polled := Polled(l, ready);
    var l1 := (if polls then Polled(polled, ready) else polled).(decodeHasState := decode.leavesState);
    TakenIsPrefix(l1, false, ready);
  }

  /**
   How many prefill outputs a sample call hands back. Without a decode output it waits twice,
   once for each of the two oldest; with one it takes the ready ones, and those that have
   become ready when it asks again.
   */
  lemma SampleCounts<T>(l: Lanes<T>, sampledDecode: Option<T>, sampledPrefill: Option<T>, ready: Answers)
    ensures
      var n := |l.pending| + |AsSeq(Appended(l, sampledPrefill))|;
      var k := ReadyPrefix(n, l.queries, ready);
      |Sampled(l, sampledDecode, sampledPrefill, ready).0.Delivered()| ==
        if (if l.decodeHasState then sampledDecode else l.decodeImmediate).None? then (if n < 2 then n else 2)
        else k + ReadyPrefix(n - k, l.queries + QueriesFor(n, l.queries, ready), ready)
  {
    hide ReadyPrefix, QueriesFor, Taken, MergedResult;
    var decode := if l.decodeHasState then sampledDecode else l.decodeImmediate;
    var appended := Appended(l, sampledPrefill);
    var l1 := l.(pending := if appended.Some? then l.pending + [appended.value] else l.pending,
                 decodeHasState := false, prefillHasState := false);
    TakenCounts(l1, decode.None?, ready);
    var (first, l2) := Taken(l1, decode.None?, ready);
    TakenCounts(l2, decode.None?, ready);
    MergeCounts(l2, decode, first, decode.None?, ready);
  }

  lemma TakenCounts<T>(l: Lanes<T>, block: bool, ready: Answers)
    ensures
      var (taken, l') := Taken(l, block, ready);
      var n := |l.pending|;
      && |taken| == (if block then (if n < 1 then n else 1) else ReadyPrefix(n, l.queries, ready))
      && |l'.pending| == n - |taken|
      && (!block ==> l'.queries == l.queries + QueriesFor(n, l.queries, ready))
  {
    hide ReadyPrefix, QueriesFor;
    NothingReady(l.queries, ready);
  }

  lemma MergeCounts<T>(l: Lanes<T>, decode: Option<T>, prefills: seq<T>, block: bool, ready: Answers)
    ensures |MergedResult(l, decode, prefills, block, ready).0.Delivered()|
      == |prefills| + |Taken(l, block && decode.None?, ready).0|
  {
    hide Taken;
  }

  lemma NothingReady(queries: nat, ready: Answers)
    ensures ReadyPrefix(0, queries, ready) == 0 && QueriesFor(0, queries, ready) == 0
  {
  }

  /** An execute call without offloaded part hands back the outputs ready after its polls, if it has a decode output. */
  lemma DecodeOnlyCounts<T>(l: Lanes<T>, decode: LaneRun<T>, polls: bool, ready: Answers)
    ensures
      var asked := if polls then Polled(Polled(l, ready), ready).queries else Polled(l, ready).queries;
      |ExecutedDecode(l, decode, polls, ready).0.Delivered()|
        == if decode.immediate.None? then 0 else ReadyPrefix(|l.pending|, asked, ready)
  {
    hide ReadyPrefix, QueriesFor, Taken;
    var polled := Polled(l, ready);
    var l1 := (if polls then Polled(polled, ready) else polled).(decodeHasState := decode.leavesState);
    TakenCounts(l1, false, ready);
  }

  // ---------------------------------------------------------------- whole runs

  datatype Call<T> =
    | ExecuteDecode(decode: LaneRun<T>)
    | ExecuteBoth(decode: LaneRun<T>, prefill: LaneRun<T>, prefillHasTokens: bool)
    | Sample(sampledDecode: Option<T>, sampledPrefill: Option<T>)

  function Step<T>(l: Lanes<T>, c: Call<T>, polls: bool, ready: Answers): (Result<T>, Lanes<T>) {
    match c
    case ExecuteDecode(d) => ExecutedDecode(l, d, polls, ready)
    case ExecuteBoth(d, p, tokens) => ExecutedBoth(l, d, p, tokens, ready)
    case Sample(d, p) => Sampled(l, d, p, ready)
  }

  /** The prefill outputs a call obtains from the prefill lane: returned at once, or sampled from its saved state. */
  function Produced<T>(l: Lanes<T>, c: Call<T>): seq<T> {
    match c
    case ExecuteDecode(d) => []
    case ExecuteBoth(d, p, tokens) => if tokens && p.immediate.Some? then [p.immediate.value] else []
    case Sample(d, p) => if l.prefillHasState && p.Some? then [p.value] else []
  }

  /** The prefill outputs produced and delivered so far, and the decode outputs handed back. */
  datatype History<T> = History(lanes: Lanes<T>, produced: seq<T>, delivered: seq<T>, decoded: seq<T>)

  function AsSeq<T>(x: Option<T>): (r: seq<T>)
    ensures |r| <= 1
  {
    if x.Some? then [x.value] else []
  }

  function Advanced<T>(h: History<T>, c: Call<T>, polls: bool, ready: Answers): History<T> {
    var (result, l) := Step(h.lanes, c, polls, ready);
    History(l, h.produced + Produced(h.lanes, c), h.delivered + result.Delivered(), h.decoded + AsSeq(result.Decoded()))
  }

  function Run<T>(h: History<T>, calls: seq<Call<T>>, polls: bool, ready: Answers): History<T>
    decreases |calls|
  {
    if calls == [] then h else Run(Advanced(h, calls[0], polls, ready), calls[1..], polls, ready)
  }

  /** The prefill lane's contract: a run with tokens saves a state and returns nothing at once. */
  ghost predicate PrefillSavesState<T>(calls: seq<Call<T>>) {
    forall i :: 0 <= i < |calls| && calls[i].ExecuteBoth? ==>
      calls[i].prefillHasTokens ==> calls[i].prefill == LaneRun(None, true)
  }

  /** What was handed back followed by what is pending is what was produced. */
  ghost predicate Balanced<T>(h: History<T>) {
    h.delivered + h.lanes.pending == h.produced
  }

  ghost predicate InOrder<T>(h: History<T>) {
    h.lanes.prefillImmediate.None? && Balanced(h)
  }

  lemma BothDelivers<T>(l: Lanes<T>, decode: LaneRun<T>, prefill: LaneRun<T>, tokens: bool, ready: Answers)
    requires tokens ==> prefill == LaneRun(None, true)
    ensures
      var (result, l') := ExecutedBoth(l, decode, prefill, tokens, ready);
      result.Delivered() + l'.pending == l.pending && l'.prefillImmediate.None?
  {
    hide Taken;
    var l1 := l.(decodeImmediate := decode.immediate, decodeHasState := decode.leavesState, prefillImmediate := None,
                 prefillHasState := tokens || l.prefillHasState);
    MergeDelivers(l1, decode.immediate, [], true, ready);
  }

  /** One call hands back a prefix of the queue extended by what the call produced. */
  lemma CallDelivers<T>(l: Lanes<T>, c: Call<T>, polls: bool, ready: Answers)
    requires l.prefillImmediate.None?
    requires c.ExecuteBoth? && c.prefillHasTokens ==> c.prefill == LaneRun(None, true)
    ensures
      var (result, l') := Step(l, c, polls, ready);
      result.Delivered() + l'.pending == l.pending + Produced(l, c) && l'.prefillImmediate.None?
  {
    hide ExecutedDecode, ExecutedBoth, Sampled;
    match c {
      case ExecuteDecode(d) => DecodeOnlyDelivers(l, d, polls, ready);
      case ExecuteBoth(d, p, tokens) => BothDelivers(l, d, p, tokens, ready);
      case Sample(d, p) => SampleDelivers(l, d, p, ready);
    }
  }

  lemma CallKeepsOrder<T>(h: History<T>, c: Call<T>, polls: bool, ready: Answers)
    requires InOrder(h)
    requires c.ExecuteBoth? && c.prefillHasTokens ==> c.prefill == LaneRun(None, true)
    ensures InOrder(Advanced(h, c, polls, ready))
  {
    hide Step;
    var (result, l) := Step(h.lanes, c, polls, ready);
    CallDelivers(h.lanes, c, polls, ready);
    var made := Produced(h.lanes, c);
    assert (h.delivered + result.Delivered()) + l.pending == h.delivered + (result.Delivered() + l.pending);
    assert h.delivered + (h.lanes.pending + made) == (h.delivered + h.lanes.pending) + made;
  }

  /**
   Over any run whose prefill lane keeps its contract, what was delivered followed by what is
   pending is what was produced, in order: nothing lost, doubled or overtaken.
   */
  lemma {:induction false} DeliveryInOrder<T>(h: History<T>, calls: seq<Call<T>>, polls: bool, ready: Answers)
    requires InOrder(h) && PrefillSavesState(calls)
    ensures InOrder(Run(h, calls, polls, ready))
    decreases |calls|
  {
    if calls != [] {
      CallKeepsOrder(h, calls[0], polls, ready);
      DeliveryInOrder(Advanced(h, calls[0], polls, ready), calls[1..], polls, ready);
    }
  }

  // ---------------------------------------------------------------- outside that contract

  /** One batch: an execute call, and a sample call when the execute call returned nothing. */
  function AfterBatch<T>(
    h: History<T>, execute: Call<T>, decode: Option<T>, prefill: Option<T>, polls: bool, ready: Answers): History<T>
    requires !execute.Sample?
  {
    var h1 := Advanced(h, execute, polls, ready);
    if Step(h.lanes, execute, polls, ready).0.Nothing? then Advanced(h1, Sample(decode, prefill), polls, ready) else h1
  }

  /**
   When a batch keeps every output once and in order: a decode batch that has to be sampled must
   find no remembered prefill output; an immediate prefill output must not also leave a state,
   and when it is handed back at once no different output may be waiting.
   */
  ghost predicate KeepsOrder<T>(l: Lanes<T>, execute: Call<T>)
    requires !execute.Sample?
  {
    match execute
    case ExecuteDecode(d) => d.immediate.Some? || l.prefillImmediate.None?
    case ExecuteBoth(d, p, tokens) =>
      tokens && p.immediate.Some? ==>
        && !p.leavesState
        && (!d.leavesState ==> forall x :: x in l.pending ==> x == p.immediate.value)
  }

  lemma {:induction false} OvertakesUnlessEqual<T>(x: T, queue: seq<T>)
    ensures [x] + queue == queue + [x] <==> forall y :: y in queue ==> y == x
  {
    var a, b := [x] + queue, queue + [x];
    if a == b {
      var k := 0;
      while k < |queue|
        invariant k <= |queue| && forall i :: 0 <= i < k ==> queue[i] == x
      {
        assert a[k] == b[k];
        k := k + 1;
      }
    } else if forall y :: y in queue ==> y == x {
      forall i | 0 <= i < |a| ensures a[i] == b[i] {
        assert i > 0 ==> a[i] == queue[i - 1] && queue[i - 1] in queue;
        assert i < |queue| ==> b[i] == queue[i] && queue[i] in queue;
      }
    }
  }

  /**
   After a sample call, a decode-only execute and a second sample call
   queue something again, without any prefill lane run between, exactly when an immediate
   prefill output is still remembered.
   */
  lemma RememberedOutputIsQueuedAgain<T>(
    l: Lanes<T>, d1: Option<T>, p1: Option<T>, decode: LaneRun<T>, p2: Option<T>, polls: bool, ready: Answers)
    ensures
      var l1 := Sampled(l, d1, p1, ready).1;
      var l2 := ExecutedDecode(l1, decode, polls, ready).1;
      Appended(l2, p2).Some? <==> l.prefillImmediate.Some?
  {
    SampleDelivers(l, d1, p1, ready);
    var l1 := Sampled(l, d1, p1, ready).1;
    DecodeOnlyDelivers(l1, decode, polls, ready);
  }

  /**
   When both lanes answer at once, the new prefill output is handed back ahead of the pending
   ones; they keep their order exactly when none of them differs from it.
   */
  lemma ImmediateOutputOvertakes<T>(l: Lanes<T>, decode: Option<T>, prefill: T, ready: Answers)
    ensures
      var (result, l') := ExecutedBoth(l, LaneRun(decode, false), LaneRun(Some(prefill), false), true, ready);
      && result.WithPrefill? && result.prefills[0] == prefill
      && result.Delivered() + l'.pending == [prefill] + l.pending
      && (result.Delivered() + l'.pending == l.pending + [prefill] <==> forall x :: x in l.pending ==> x == prefill)
  {
    OvertakesUnlessEqual(prefill, l.pending);
    var l1 := l.(decodeImmediate := decode, decodeHasState := false,
                 prefillImmediate := Some(prefill), prefillHasState := false);
    MergeDelivers(l1, decode, [prefill], true, ready);
  }

  lemma SameLength<T>(a: seq<T>, b: seq<T>, extra: seq<T>)
    ensures a + extra == b + extra <==> a == b
    ensures extra + a == extra + b <==> a == b
  {
    if a + extra == b + extra {
      assert a == (a + extra)[..|a|];
      assert b == (b + extra)[..|b|];
    }
    if extra + a == extra + b {
      assert a == (extra + a)[|extra|..];
      assert b == (extra + b)[|extra|..];
    }
  }

  /** From a balanced state a call stays balanced exactly when it appends to the queue what it produces. */
  lemma BalancedAfter<T>(h: History<T>, c: Call<T>, polls: bool, ready: Answers, queue: seq<T>)
    requires Balanced(h)
    requires
      var (result, l) := Step(h.lanes, c, polls, ready);
      result.Delivered() + l.pending == queue
    ensures Balanced(Advanced(h, c, polls, ready)) <==> queue == h.lanes.pending + Produced(h.lanes, c)
  {
    hide Step;
    var (result, l) := Step(h.lanes, c, polls, ready);
    var made := Produced(h.lanes, c);
    assert (h.delivered + result.Delivered()) + l.pending == h.delivered + queue;
    assert h.produced + made == h.delivered + (h.lanes.pending + made);
    SameLength(queue, h.lanes.pending + made, h.delivered);
  }

  /** A batch that is sampled stays balanced exactly when the sample call appends what the two calls produce. */
  lemma SampledBatch<T>(
    h: History<T>, execute: Call<T>, decode: Option<T>, prefill: Option<T>, polls: bool, ready: Answers)
    requires Balanced(h) && !execute.Sample? && Step(h.lanes, execute, polls, ready).0.Nothing?
    requires Step(h.lanes, execute, polls, ready).1.pending == h.lanes.pending
    ensures
      var l1 := Step(h.lanes, execute, polls, ready).1;
      Balanced(AfterBatch(h, execute, decode, prefill, polls, ready)) <==>
        AsSeq(Appended(l1, prefill)) == Produced(h.lanes, execute) + Produced(l1, Sample(decode, prefill))
  {
    hide Sampled, Appended, Produced, ExecutedDecode, ExecutedBoth;
    var l1 := Step(h.lanes, execute, polls, ready).1;
    SampleDelivers(l1, decode, prefill, ready);
    var (result, l2) := Sampled(l1, decode, prefill, ready);
    var (p1, p2) := (Produced(h.lanes, execute), Produced(l1, Sample(decode, prefill)));
    var h2 := AfterBatch(h, execute, decode, prefill, polls, ready);
    assert h2.produced == h.produced + p1 + p2 && h2.delivered == h.delivered + [] + result.Delivered() && h2.lanes == l2;
    BalanceMoves(h.delivered, h.lanes.pending, result.Delivered(), l2.pending, AsSeq(Appended(l1, prefill)), p1, p2);
  }

  lemma BalanceMoves<T>(
    delivered: seq<T>, pending: seq<T>, more: seq<T>, rest: seq<T>, appended: seq<T>, p1: seq<T>, p2: seq<T>)
    requires more + rest == pending + appended
    ensures delivered + [] + more + rest == (delivered + pending) + p1 + p2 <==> appended == p1 + p2
  {
    assert delivered + [] + more + rest == (delivered + pending) + appended by {
      assert delivered + [] + more + rest == delivered + (more + rest);
    }
    assert (delivered + pending) + p1 + p2 == (delivered + pending) + (p1 + p2);
    SameLength(appended, p1 + p2, delivered + pending);
  }

  lemma DecodeBatchKeepsOrder<T>(
    h: History<T>, d: LaneRun<T>, decode: Option<T>, prefill: Option<T>, polls: bool, ready: Answers)
    requires Balanced(h) && !h.lanes.prefillHasState
    ensures Balanced(AfterBatch(h, ExecuteDecode(d), decode, prefill, polls, ready)) <==> KeepsOrder(h.lanes, ExecuteDecode(d))
  {
    DecodeOnlyDelivers(h.lanes, d, polls, ready);
    if d.immediate.None? {
      SampledBatch(h, ExecuteDecode(d), decode, prefill, polls, ready);
    } else {
      BalancedAfter(h, ExecuteDecode(d), polls, ready, h.lanes.pending);
    }
  }

  /** A batch with an offloaded part: its execute call either saves a state and touches no queue, or hands back at once. */
  lemma OffloadBatchKeepsOrder<T>(
    h: History<T>, d: LaneRun<T>, p: LaneRun<T>, tokens: bool, decode: Option<T>, prefill: Option<T>, polls: bool,
    ready: Answers)
    requires Balanced(h) && !h.lanes.prefillHasState
    ensures
      var execute := ExecuteBoth(d, p, tokens);
      Balanced(AfterBatch(h, execute, decode, prefill, polls, ready)) <==> KeepsOrder(h.lanes, execute)
  {
    var execute := ExecuteBoth(d, p, tokens);
    if d.leavesState || (tokens && p.leavesState) {
      SampledBatch(h, execute, decode, prefill, polls, ready);
    } else {
      AtOnceKeepsOrder(h, d, p, tokens, decode, prefill, polls, ready);
    }
  }

  lemma NothingMerged<T>(l: Lanes<T>, decode: Option<T>, prefills: seq<T>, block: bool, ready: Answers)
    requires MergedResult(l, decode, prefills, block, ready).0.Nothing?
    ensures prefills == [] && MergedResult(l, decode, prefills, block, ready).1.pending == l.pending
  {
    hide Taken;
    TakenIsPrefix(l, block && decode.None?, ready);
  }

  lemma AtOnceKeepsOrder<T>(
    h: History<T>, d: LaneRun<T>, p: LaneRun<T>, tokens: bool, decode: Option<T>, prefill: Option<T>, polls: bool,
    ready: Answers)
    requires Balanced(h) && !h.lanes.prefillHasState && !d.leavesState && !(tokens && p.leavesState)
    ensures
      var execute := ExecuteBoth(d, p, tokens);
      Balanced(AfterBatch(h, execute, decode, prefill, polls, ready)) <==> KeepsOrder(h.lanes, execute)
  {
    hide MergedResult, Advanced, Balanced, Sampled, ExecutedDecode;
    var execute, l, imm := ExecuteBoth(d, p, tokens), h.lanes, if tokens then p.immediate else None;
    var l1 := l.(decodeImmediate := d.immediate, decodeHasState := false, prefillImmediate := imm, prefillHasState := false);
    MergeDelivers(l1, d.immediate, AsSeq(imm), true, ready);
    var (result, l2) := Step(l, execute, polls, ready);
    assert (result, l2) == MergedResult(l1, d.immediate, AsSeq(imm), true, ready);
    if result.Nothing? {
      NothingMerged(l1, d.immediate, AsSeq(imm), true, ready);
      SampledBatch(h, execute, decode, prefill, polls, ready);
    } else {
      BalancedAfter(h, execute, polls, ready, AsSeq(imm) + l.pending);
      if imm.Some? {
        OvertakesUnlessEqual(imm.value, l.pending);
      }
    }
  }

  /** Exactly when a batch keeps every prefill output once and in order, whatever the lanes answer. */
  lemma BatchKeepsOrderExactly<T>(
    h: History<T>, execute: Call<T>, decode: Option<T>, prefill: Option<T>, polls: bool, ready: Answers)
    requires Balanced(h) && !h.lanes.prefillHasState && !execute.Sample?
    ensures Balanced(AfterBatch(h, execute, decode, prefill, polls, ready)) <==> KeepsOrder(h.lanes, execute)
    ensures !AfterBatch(h, execute, decode, prefill, polls, ready).lanes.prefillHasState
  {
    BatchLeavesNoState(h, execute, decode, prefill, polls, ready);
    hide AfterBatch, KeepsOrder;
    match execute {
      case ExecuteDecode(d) => DecodeBatchKeepsOrder(h, d, decode, prefill, polls, ready);
      case ExecuteBoth(d, p, tokens) => OffloadBatchKeepsOrder(h, d, p, tokens, decode, prefill, polls, ready);
    }
  }

  lemma BatchLeavesNoState<T>(
    h: History<T>, execute: Call<T>, decode: Option<T>, prefill: Option<T>, polls: bool, ready: Answers)
    requires !h.lanes.prefillHasState && !execute.Sample?
    ensures !AfterBatch(h, execute, decode, prefill, polls, ready).lanes.prefillHasState
  {
    var (result, l1) := Step(h.lanes, execute, polls, ready);
    if result.Nothing? {
      SampleDelivers(l1, decode, prefill, ready);
    } else {
      hide ExecutedDecode, ExecutedBoth;
      match execute {
        case ExecuteDecode(d) => DecodeOnlyDelivers(h.lanes, d, polls, ready);
        case ExecuteBoth(d, p, tokens) => AnsweredAtOnce(h.lanes, d, p, tokens, ready);
      }
    }
  }

  lemma AnsweredAtOnce<T>(l: Lanes<T>, d: LaneRun<T>, p: LaneRun<T>, tokens: bool, ready: Answers)
    requires !ExecutedBoth(l, d, p, tokens, ready).0.Nothing?
    ensures !ExecutedBoth(l, d, p, tokens, ready).1.prefillHasState
  {
  }

  // ---------------------------------------------------------------- decode outputs

  /** The base runner's decode lane either answers at once or leaves a state to sample from. */
  predicate AnswersOrSaves<T>(execute: Call<T>)
    requires !execute.Sample?
  {
    execute.decode.immediate.Some? != execute.decode.leavesState
  }

  /** The decode output of a batch: the immediate one, or what is sampled from the state. */
  function DecodeAnswer<T>(execute: Call<T>, sampled: Option<T>): Option<T>
    requires !execute.Sample?
  {
    if execute.decode.immediate.Some? then execute.decode.immediate else sampled
  }

  /** A batch hands back its own decode output once, in one of its two calls. */
  lemma BatchHandsBackDecode<T>(
    h: History<T>, execute: Call<T>, decode: Option<T>, prefill: Option<T>, polls: bool, ready: Answers)
    requires !execute.Sample? && AnswersOrSaves(execute)
    ensures AfterBatch(h, execute, decode, prefill, polls, ready).decoded == h.decoded + AsSeq(DecodeAnswer(execute, decode))
  {
    hide ExecutedDecode, ExecutedBoth, Sampled, Produced;
    var (result, l1) := Step(h.lanes, execute, polls, ready);
    match execute {
      case ExecuteDecode(d) => DecodeOnlyHandsBack(h.lanes, d, polls, ready);
      case ExecuteBoth(d, p, tokens) => BothHandsBack(h.lanes, d, p, tokens, ready);
    }
    SampleHandsBack(l1, decode, prefill, ready);
  }

  datatype Batch<T> = Batch(execute: Call<T>, decode: Option<T>, prefill: Option<T>)

  function AfterBatches<T>(h: History<T>, batches: seq<Batch<T>>, polls: bool, ready: Answers): History<T>
    requires forall b :: b in batches ==> !b.execute.Sample?
  {
    if batches == [] then h
    else
      var last := batches[|batches|-1];
      AfterBatch(AfterBatches(h, batches[..|batches|-1], polls, ready), last.execute, last.decode, last.prefill, polls, ready)
  }

  function DecodeAnswers<T>(batches: seq<Batch<T>>): seq<T>
    requires forall b :: b in batches ==> !b.execute.Sample?
  {
    if batches == [] then []
    else
      var last := batches[|batches|-1];
      DecodeAnswers(batches[..|batches|-1]) + AsSeq(DecodeAnswer(last.execute, last.decode))
  }

  /** Over any run of batches the decode outputs handed back are those of the batches, each once and in order. */
  lemma {:induction false} DecodesInOrder<T>(h: History<T>, batches: seq<Batch<T>>, polls: bool, ready: Answers)
    requires forall b :: b in batches ==> !b.execute.Sample? && AnswersOrSaves(b.execute)
    ensures AfterBatches(h, batches, polls, ready).decoded == h.decoded + DecodeAnswers(batches)
    decreases |batches|
  {
    hide AfterBatch, DecodeAnswer, AnswersOrSaves, AsSeq;
    if batches != [] {
      var front, last := batches[..|batches|-1], batches[|batches|-1];
      assert last in batches;
      DecodesInOrder(h, front, polls, ready);
      BatchHandsBackDecode(AfterBatches(h, front, polls, ready), last.execute, last.decode, last.prefill, polls, ready);
    }
  }

  const EMPTY: Lanes<nat> := Lanes([], None, None, false, false, 0)
  const NEVER: Answers := _ => false
  const SAVES: LaneRun<nat> := LaneRun(None, true)

  const OVERTAKING: seq<Call<nat>> := [
    ExecuteBoth(SAVES, SAVES, true), Sample(Some(10), Some(1)),
    ExecuteBoth(LaneRun(Some(20), false), LaneRun(Some(2), false), true)]

  const DOUBLING: seq<Call<nat>> := [
    ExecuteBoth(SAVES, LaneRun(Some(7), false), true), Sample(Some(10), None),
    ExecuteDecode(SAVES), Sample(Some(20), None)]

  lemma RunOneMore<T>(h: History<T>, calls: seq<Call<T>>, c: Call<T>, polls: bool, ready: Answers)
    ensures Run(h, [c] + calls, polls, ready) == Run(Advanced(h, c, polls, ready), calls, polls, ready)
  {
    assert ([c] + calls)[1..] == calls;
  }

  lemma FirstIsQueued(polls: bool)
    ensures
      var h1 := Advanced(History(EMPTY, [], [], []), ExecuteBoth(SAVES, SAVES, true), polls, NEVER);
      var h2 := Advanced(h1, Sample(Some(10), Some(1)), polls, NEVER);
      h2.lanes.pending == [1] && h2.produced == [1] && h2.delivered == []
  {
    var h1 := Advanced(History(EMPTY, [], [], []), ExecuteBoth(SAVES, SAVES, true), polls, NEVER);
    assert h1.lanes == Lanes([], None, None, true, true, 0);
  }

  lemma SecondIsHandedBack(h: History<nat>, polls: bool)
    requires h.lanes.pending == [1] && h.produced == [1] && h.delivered == []
    ensures
      var h' := Advanced(h, ExecuteBoth(LaneRun(Some(20), false), LaneRun(Some(2), false), true), polls, NEVER);
      h'.lanes.pending == [1] && h'.produced == [1, 2] && h'.delivered == [2]
  {
  }

  /** A run from the empty runner that hands back the second output while the first still waits. */
  lemma OutputsOvertake(polls: bool)
    ensures
      var h := Run(History(EMPTY, [], [], []), OVERTAKING, polls, NEVER);
      h.produced == [1, 2] && h.delivered == [2] && h.lanes.pending == [1]
  {
    hide Advanced;
    var h0, c := History(EMPTY, [], [], []), OVERTAKING;
    var h1 := Advanced(h0, c[0], polls, NEVER);
    FirstIsQueued(polls);
    var h2 := Advanced(h1, c[1], polls, NEVER);
    SecondIsHandedBack(h2, polls);
    assert c == [c[0]] + ([c[1]] + ([c[2]] + []));
    RunOneMore(h0, [c[1]] + ([c[2]] + []), c[0], polls, NEVER);
    RunOneMore(h1, [c[2]] + [], c[1], polls, NEVER);
    RunOneMore(h2, [], c[2], polls, NEVER);
  }

  lemma QueuedOnce(polls: bool)
    ensures
      var h1 := Advanced(History(EMPTY, [], [], []), ExecuteBoth(SAVES, LaneRun(Some(7), false), true), polls, NEVER);
      var h := Advanced(h1, Sample(Some(10), None), polls, NEVER);
      && h.lanes.pending == [7] && h.produced == [7] && h.delivered == [] && h.lanes.prefillImmediate == Some(7)
      && !h.lanes.prefillHasState
  {
    var h1 := Advanced(History(EMPTY, [], [], []), ExecuteBoth(SAVES, LaneRun(Some(7), false), true), polls, NEVER);
    assert h1.lanes == Lanes([], None, Some(7), true, false, 0);
  }

  lemma QueuedAgain(h: History<nat>, polls: bool)
    requires h.lanes.pending == [7] && h.produced == [7] && h.delivered == [] && h.lanes.prefillImmediate == Some(7)
    requires !h.lanes.prefillHasState
    ensures
      var h' := Advanced(Advanced(h, ExecuteDecode(SAVES), polls, NEVER), Sample(Some(20), None), polls, NEVER);
      h'.lanes.pending == [7, 7] && h'.produced == [7] && h'.delivered == []
  {
    DecodeOnlyDelivers(h.lanes, SAVES, polls, NEVER);
    var h1 := Advanced(h, ExecuteDecode(SAVES), polls, NEVER);
    assert h1.lanes.pending == [7] && h1.produced == [7] && h1.delivered == [] && h1.lanes.decodeHasState;
  }

  /** A run from the empty runner in which one prefill output is queued twice. */
  lemma OutputIsDoubled(polls: bool)
    ensures
      var h := Run(History(EMPTY, [], [], []), DOUBLING, polls, NEVER);
      h.produced == [7] && h.delivered == [] && h.lanes.pending == [7, 7]
  {
    hide Advanced;
    var h0, c := History(EMPTY, [], [], []), DOUBLING;
    var h1 := Advanced(h0, c[0], polls, NEVER);
    var h2 := Advanced(h1, c[1], polls, NEVER);
    QueuedOnce(polls);
    var h3 := Advanced(h2, c[2], polls, NEVER);
    var h4 := Advanced(h3, c[3], polls, NEVER);
    QueuedAgain(h2, polls);
    assert c == [c[0]] + ([c[1]] + ([c[2]] + ([c[3]] + [])));
    RunOneMore(h0, [c[1]] + ([c[2]] + ([c[3]] + [])), c[0], polls, NEVER);
    RunOneMore(h1, [c[2]] + ([c[3]] + []), c[1], polls, NEVER);
    RunOneMore(h2, [c[3]] + [], c[2], polls, NEVER);
    RunOneMore(h3, [], c[3], polls, NEVER);
  }
}
