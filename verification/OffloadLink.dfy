/**
 How the runner's calls and the merging of outputs make up the Execute step of the offload
 protocol: which chunks stay pending, and which ids the merged output reports finished.
 */
module OffloadLink {
  import opened Wrappers
  import opened BatchViews
  import opened HoldRestore
  import opened ModelRunner
  import opened OutputMerge
  import opened OffloadProtocol

  /** The chunks that outputs stand for. */
  function IdSets(outputs: seq<ModelOutput>): (r: seq<set<ReqId>>)
    ensures |r| == |outputs|
  {
    seq(|outputs|, i requires 0 <= i < |outputs| => ToSet(outputs[i].reqIds))
  }

  /** What update_from_output is told to release. */
  function Finished(output: ModelOutput): set<ReqId> {
    if output.finishedPrefillReqs.Some? then output.finishedPrefillReqs.value else {}
  }

  lemma IdSetsConcat(a: seq<ModelOutput>, b: seq<ModelOutput>)
    ensures IdSets(a + b) == IdSets(a) + IdSets(b)
  {
  }

  // ---------------------------------------------------------------- what a merged output releases

  lemma PrefillIdsConcat(a: seq<Source>, b: seq<Source>)
    ensures PrefillIds(a + b) == PrefillIds(a) + PrefillIds(b)
  {
    var ab := a + b;
    assert forall i :: 0 <= i < |a| ==> ab[i] == a[i];
    assert forall i :: 0 <= i < |b| ==> ab[|a| + i] == b[i];
  }

  lemma PrefillIdsOne(s: Source)
    ensures PrefillIds([s]) == if s.isPrefill then ToSet(s.output.reqIds) else {}
  {
    assert [s][0] == s;
  }

  lemma {:induction false} TaggedIds(prefills: seq<ModelOutput>)
    ensures PrefillIds(Tagged(prefills)) == Union(IdSets(prefills))
  {
    if prefills == [] {
      assert PrefillIds([]) == {} == Union([]);
    } else {
      var front, last := prefills[..|prefills|-1], prefills[|prefills|-1];
      hide PrefillIds, Union;
      TaggedIds(front);
      PrefillIdsConcat(Tagged(front), [Source(last, true)]);
      PrefillIdsOne(Source(last, true));
      UnionConcat(IdSets(front), [ToSet(last.reqIds)]);
      UnionOne(ToSet(last.reqIds));
      assert IdSets(prefills) == IdSets(front) + [ToSet(last.reqIds)];
    }
  }

  lemma {:induction false} TaggedArePrefills(prefills: seq<ModelOutput>)
    ensures forall k :: 0 <= k < |Tagged(prefills)| ==> Tagged(prefills)[k].isPrefill
  {
    if prefills != [] {
      TaggedArePrefills(prefills[..|prefills|-1]);
    }
  }

  lemma SourcesIds(decode: Option<ModelOutput>, prefills: seq<ModelOutput>)
    ensures PrefillIds(Sources(decode, prefills)) == Union(IdSets(prefills))
  {
    hide Tagged, Union, IdSets, PrefillIds;
    TaggedIds(prefills);
    if decode.Some? && decode.value.reqIds != [] {
      var first := Source(decode.value, false);
      PrefillIdsConcat([first], Tagged(prefills));
      PrefillIdsOne(first);
    } else {
      assert Sources(decode, prefills) == Tagged(prefills);
    }
  }

  /** What a merged output reports finished: everything from prefill sources. */
  lemma MergedFinishes(s: seq<Source>)
    requires |s| == 1 && !s[0].isPrefill ==> s[0].output.finishedPrefillReqs.None?
    ensures Finished(Merged(s)) == PrefillIds(s)
  {
    hide PrefillIds, MergedLogprobs, PromptUnion, IndexMap, Flatten;
    if |s| == 0 {
      NoIds();
    } else if |s| == 1 {
      assert s == [s[0]];
      PrefillIdsOne(s[0]);
    }
  }

  /** Merging one decode output with prefill outputs, empty ones or none among them, releases exactly the prefills' ids. */
  lemma MergedReleases(decode: Option<ModelOutput>, prefills: seq<ModelOutput>)
    requires decode.Some? ==> decode.value.finishedPrefillReqs.None?
    ensures Finished(Merged(Sources(decode, prefills))) == Union(IdSets(prefills))
  {
    hide Union, IdSets, PrefillIds, Merged, Tagged;
    SourcesIds(decode, prefills);
    var s := Sources(decode, prefills);
    TaggedArePrefills(prefills);
    MergedFinishes(s);
  }

  lemma NoIds()
    ensures PrefillIds([]) == {}
  {
  }

  // ---------------------------------------------------------------- the Execute step

  /** Between two batches the protocol's queue stands for the runner's, and the prefill lane holds nothing back. */
  ghost predicate Stands(y: System, l: Lanes<ModelOutput>) {
    y.pending == IdSets(l.pending) && l.prefillImmediate.None? && !l.prefillHasState
  }

  /** The system after one execute step that takes as many chunks as outputs were handed back. */
  ghost predicate IsExecute(y: System, l: Lanes<ModelOutput>, c: OffloadProtocol.Config, handed: seq<ModelOutput>) {
    var e := Execute(|handed|);
    && OffloadProtocol.Enabled(y, e)
    && Stands(OffloadProtocol.Next(y, e, c), l)
    && OffloadProtocol.Next(y, e, c).delivered == y.delivered + [Union(IdSets(handed))]
  }

  /**
   A batch with an offloaded part: executing both lanes and sampling is the protocol's Execute
   step, taking as many chunks as outputs are handed back.
   */
  lemma OffloadBatchIsExecute(
    y: System, l: Lanes<ModelOutput>, c: OffloadProtocol.Config, decode: LaneRun<ModelOutput>,
    sampledDecode: Option<ModelOutput>, sampled: ModelOutput, ready: Answers)
    requires Stands(y, l) && y.sent != [] && y.sent[0] != {} && ToSet(sampled.reqIds) == y.sent[0]
    ensures
      var (early, l1) := ExecutedBoth(l, decode, LaneRun(None, true), true, ready);
      var (result, l2) := Sampled(l1, sampledDecode, Some(sampled), ready);
      early == Nothing && IsExecute(y, l2, c, result.Delivered())
  {
    hide Sampled, Union, IdSets;
    var l1 := ExecutedBoth(l, decode, LaneRun(None, true), true, ready).1;
    var (result, l2) := Sampled(l1, sampledDecode, Some(sampled), ready);
    SampleDelivers(l1, sampledDecode, Some(sampled), ready);
    var queue := l.pending + [sampled];
    assert result.Delivered() + l2.pending == queue;
    IdSetsConcat(l.pending, [sampled]);
    IdSetsConcat(result.Delivered(), l2.pending);
    IdSetsOne(sampled);
    assert Queue(y) == IdSets(queue) == IdSets(result.Delivered()) + IdSets(l2.pending);
  }

  lemma IdSetsOne(x: ModelOutput)
    ensures IdSets([x]) == [ToSet(x.reqIds)]
  {
  }

  /** A batch without one that is answered at once: likewise, on the queue as it is. */
  lemma DecodeBatchIsExecute(
    y: System, l: Lanes<ModelOutput>, c: OffloadProtocol.Config, decode: LaneRun<ModelOutput>, polls: bool, ready: Answers)
    requires Stands(y, l) && y.sent != [] && y.sent[0] == {} && decode.immediate.Some?
    ensures
      var (result, l') := ExecutedDecode(l, decode, polls, ready);
      result != Nothing && IsExecute(y, l', c, result.Delivered())
  {
    hide ExecutedDecode, Union, IdSets;
    var (result, l') := ExecutedDecode(l, decode, polls, ready);
    DecodeAnswersAtOnce(l, decode, polls, ready);
    DecodeOnlyDelivers(l, decode, polls, ready);
    IdSetsConcat(result.Delivered(), l'.pending);
    assert Queue(y) == IdSets(l.pending) == IdSets(result.Delivered()) + IdSets(l'.pending);
  }

  lemma DecodeAnswersAtOnce(l: Lanes<ModelOutput>, decode: LaneRun<ModelOutput>, polls: bool, ready: Answers)
    ensures ExecutedDecode(l, decode, polls, ready).0 == Nothing <==> decode.immediate.None?
  {
  }

  /**
   A decode batch that answers nothing, saved state or not, is sampled next; the two calls
   together are one Execute step, which counts what either of them hands back.
   */
  lemma SampledDecodeBatchIsExecute(
    y: System, l: Lanes<ModelOutput>, c: OffloadProtocol.Config, decode: LaneRun<ModelOutput>, polls: bool,
    sampledDecode: Option<ModelOutput>, sampledPrefill: Option<ModelOutput>, ready: Answers)
    requires Stands(y, l) && y.sent != [] && y.sent[0] == {} && decode.immediate.None?
    ensures
      var (early, l1) := ExecutedDecode(l, decode, polls, ready);
      var (result, l2) := Sampled(l1, sampledDecode, sampledPrefill, ready);
      early == Nothing && IsExecute(y, l2, c, early.Delivered() + result.Delivered())
  {
    hide ExecutedDecode, Sampled, Union, IdSets;
    DecodeAnswersAtOnce(l, decode, polls, ready);
    DecodeOnlyDelivers(l, decode, polls, ready);
    var (early, l1) := ExecutedDecode(l, decode, polls, ready);
    SampleDelivers(l1, sampledDecode, sampledPrefill, ready);
    var (result, l2) := Sampled(l1, sampledDecode, sampledPrefill, ready);
    var handed := early.Delivered() + result.Delivered();
    assert l.pending == early.Delivered() + l1.pending == l1.pending;
    assert early.Delivered() == [] && handed == result.Delivered();
    assert l1.pending + [] == l1.pending;
    IdSetsConcat(handed, l2.pending);
    assert Queue(y) == IdSets(l.pending) == IdSets(handed + l2.pending);
  }
}
