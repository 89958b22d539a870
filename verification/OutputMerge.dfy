/**
 Merging the decode lane's output with finished prefill outputs into one model output, and
 what a look-up in the merged output gives.
 */
module OutputMerge {
  import opened Wrappers
  import opened BatchViews
  import opened HoldRestore
  import opened Picking

  /** One row per generated token; starts holds one start row per request, or nothing for one row each. */
  datatype Logprobs = Logprobs(
    tokenIds: seq<seq<int>>,
    logprobs: seq<seq<real>>,
    ranks: seq<int>,
    starts: Option<seq<nat>>)

  datatype ModelOutput = ModelOutput(
    reqIds: seq<ReqId>,
    reqIdToIndex: map<ReqId, nat>,
    sampledTokenIds: seq<seq<int>>,
    logprobs: Option<Logprobs>,
    promptLogprobs: map<ReqId, seq<real>>,
    finishedPrefillReqs: Option<set<ReqId>>)

  const EMPTY_OUTPUT := ModelOutput([], map[], [], None, map[], None)

  function Flatten<T>(ss: seq<seq<T>>): seq<T> {
    if ss == [] then [] else Flatten(ss[..|ss|-1]) + ss[|ss|-1]
  }

  /** The k-th part sits behind everything before it. */
  lemma {:induction false} FlattenPart<T>(ss: seq<seq<T>>, k: nat)
    requires k < |ss|
    ensures |Flatten(ss[..k])| + |ss[k]| <= |Flatten(ss)|
    ensures Flatten(ss)[|Flatten(ss[..k])|..|Flatten(ss[..k])| + |ss[k]|] == ss[k]
  {
    var front := ss[..|ss|-1];
    if k < |ss| - 1 {
      FlattenPart(front, k);
      assert front[..k] == ss[..k];
    }
  }

  lemma FlattenAppend<T>(ss: seq<seq<T>>, s: seq<T>)
    ensures Flatten(ss + [s]) == Flatten(ss) + s
  {
    assert (ss + [s])[..|ss|] == ss;
  }

  /** Lists of the same shape have the same offsets. */
  lemma {:induction false} FlattenSameShape<A, B>(a: seq<seq<A>>, b: seq<seq<B>>)
    requires |a| == |b| && forall k :: 0 <= k < |a| ==> |a[k]| == |b[k]|
    ensures |Flatten(a)| == |Flatten(b)|
  {
    if a != [] {
      FlattenSameShape(a[..|a|-1], b[..|b|-1]);
    }
  }

  /** A slice of part k, found in the flattened list of anything of the same shape. */
  lemma PartSlice<A, T>(shape: seq<seq<A>>, ss: seq<seq<T>>, k: nat, a: nat, n: nat)
    requires |shape| == |ss| && forall j :: 0 <= j < |ss| ==> |shape[j]| == |ss[j]|
    requires k < |ss| && a + n <= |ss[k]|
    ensures |Flatten(ss)| == |Flatten(shape)|
    ensures |Flatten(shape[..k])| + a + n <= |Flatten(ss)|
    ensures Flatten(ss)[|Flatten(shape[..k])| + a..|Flatten(shape[..k])| + a + n] == ss[k][a..a+n]
  {
    hide Flatten;
    FlattenSameShape(shape, ss);
    FlattenSameShape(shape[..k], ss[..k]);
    FlattenPart(ss, k);
    SliceOfSlice(Flatten(ss), |Flatten(ss[..k])|, |ss[k]|, a, n);
  }

  lemma SliceOfSlice<T>(f: seq<T>, base: nat, length: nat, a: nat, n: nat)
    requires base + length <= |f| && a + n <= length
    ensures f[base..base + length][a..a+n] == f[base + a..base + a + n]
  {
    var part, slice := f[base..base + length], f[base + a..base + a + n];
    forall i | 0 <= i < n ensures part[a..a+n][i] == slice[i] {
      assert part[a + i] == f[base + (a + i)];
    }
  }

  lemma PartAt<A, T>(shape: seq<seq<A>>, ss: seq<seq<T>>, k: nat, i: nat)
    requires |shape| == |ss| && forall j :: 0 <= j < |ss| ==> |shape[j]| == |ss[j]|
    requires k < |ss| && i < |ss[k]|
    ensures |Flatten(ss)| == |Flatten(shape)|
    ensures |Flatten(shape[..k])| + i < |Flatten(ss)|
    ensures Flatten(ss)[|Flatten(shape[..k])| + i] == ss[k][i]
  {
    hide Flatten;
    PartSlice(shape, ss, k, i, 1);
    var at := |Flatten(shape[..k])| + i;
    assert Flatten(ss)[at..at + 1][0] == ss[k][i..i+1][0];
  }

  // ---------------------------------------------------------------- request indices

  /** The index of each request in a list; a later occurrence would win. */
  function IndexMap(ids: seq<ReqId>, n: nat): map<ReqId, nat>
    requires n <= |ids|
  {
    if n == 0 then map[] else IndexMap(ids, n - 1)[ids[n-1] := n - 1]
  }

  lemma {:induction false} IndexMapInverts(ids: seq<ReqId>, n: nat)
    requires n <= |ids| && Distinct(ids)
    ensures forall r :: r in IndexMap(ids, n) <==> r in ids[..n]
    ensures forall i :: 0 <= i < n ==> IndexMap(ids, n)[ids[i]] == i
  {
    if n != 0 {
      IndexMapInverts(ids, n - 1);
      assert ids[..n] == ids[..n-1] + [ids[n-1]];
    }
  }

  // ---------------------------------------------------------------- logprobs

  /** The start rows an item contributes when the rows before it number offset. */
  function ShiftedStarts(item: Logprobs, offset: nat): (s: seq<nat>)
    ensures |s| == if item.starts.Some? then |item.starts.value| else |item.ranks|
  {
    match item.starts
    case None => seq(|item.ranks|, i requires 0 <= i < |item.ranks| => offset + i)
    case Some(starts) => seq(|starts|, i requires 0 <= i < |starts| => offset + starts[i])
  }

  function RankLists(items: seq<Logprobs>): (r: seq<seq<int>>)
    ensures |r| == |items|
  {
    seq(|items|, k requires 0 <= k < |items| => items[k].ranks)
  }

  function TokenLists(items: seq<Logprobs>): (r: seq<seq<seq<int>>>)
    ensures |r| == |items|
  {
    seq(|items|, k requires 0 <= k < |items| => items[k].tokenIds)
  }

  function ValueLists(items: seq<Logprobs>): (r: seq<seq<seq<real>>>)
    ensures |r| == |items|
  {
    seq(|items|, k requires 0 <= k < |items| => items[k].logprobs)
  }

  function RowsBefore(items: seq<Logprobs>, k: nat): nat
    requires k <= |items|
  {
    |Flatten(RankLists(items)[..k])|
  }

  function StartLists(items: seq<Logprobs>): (r: seq<seq<nat>>)
    ensures |r| == |items|
  {
    seq(|items|, k requires 0 <= k < |items| => ShiftedStarts(items[k], RowsBefore(items, k)))
  }

  function NonEmpty(items: seq<Option<Logprobs>>): (r: seq<Logprobs>)
    ensures |r| <= |items|
  {
    if items == [] then []
    else
      var r := NonEmpty(items[..|items|-1]);
      match items[|items|-1]
      case None => r
      case Some(item) => r + [item]
  }

  function Joined(items: seq<Logprobs>): Logprobs {
    Logprobs(
      Flatten(TokenLists(items)),
      Flatten(ValueLists(items)),
      Flatten(RankLists(items)),
      if exists k :: 0 <= k < |items| && items[k].starts.Some? then Some(Flatten(StartLists(items))) else None)
  }

  function MergedLogprobs(items: seq<Option<Logprobs>>): Option<Logprobs> {
    var present := NonEmpty(items);
    if |present| == 0 then None else if |present| == 1 then Some(present[0]) else Some(Joined(present))
  }

  lemma StartsStep(items: seq<Logprobs>, k: nat)
    requires k < |items|
    ensures RowsBefore(items, k + 1) == RowsBefore(items, k) + |items[k].ranks|
    ensures Flatten(StartLists(items)[..k+1])
      == Flatten(StartLists(items)[..k]) + ShiftedStarts(items[k], RowsBefore(items, k))
  {
    var lists, ranks := StartLists(items), RankLists(items);
    assert lists[..k+1] == lists[..k] + [lists[k]];
    assert ranks[..k+1] == ranks[..k] + [ranks[k]];
    hide Flatten;
    FlattenAppend(lists[..k], lists[k]);
    FlattenAppend(ranks[..k], ranks[k]);
  }

  /** The loop that shifts and collects the start rows. */
  method CollectStarts(items: seq<Logprobs>) returns (collected: seq<nat>)
    ensures collected == Flatten(StartLists(items))
  {
    collected := [];
    var offset := 0;
    for k := 0 to |items|
      invariant offset == RowsBefore(items, k)
      invariant collected == Flatten(StartLists(items)[..k])
    {
      StartsStep(items, k);
      collected := collected + ShiftedStarts(items[k], offset);
      offset := offset + |items[k].ranks|;
    }
    assert StartLists(items)[..|items|] == StartLists(items);
  }

  method MergeLogprobs(items: seq<Option<Logprobs>>) returns (merged: Option<Logprobs>)
    ensures merged == MergedLogprobs(items)
  {
    hide Flatten;
    var present := NonEmpty(items);
    if |present| == 0 {
      return None;
    }
    if |present| == 1 {
      return Some(present[0]);
    }
    var starts: Option<seq<nat>> := None;
    if exists k :: 0 <= k < |present| && present[k].starts.Some? {
      var collected := CollectStarts(present);
      starts := Some(collected);
    }
    merged := Some(Logprobs(
      Flatten(TokenLists(present)), Flatten(ValueLists(present)), Flatten(RankLists(present)), starts));
  }

  // ---------------------------------------------------------------- whole outputs

  /** An output to merge, and whether it came from the prefill lane. */
  datatype Source = Source(output: ModelOutput, isPrefill: bool)

  function Tagged(outputs: seq<ModelOutput>): (s: seq<Source>) {
    if outputs == [] then []
    else
      var s := Tagged(outputs[..|outputs|-1]);
      var last := outputs[|outputs|-1];
      if last.reqIds == [] then s else s + [Source(last, true)]
  }

  /** The outputs that carry requests: the decode output first, then the prefill outputs in order. */
  function Sources(decode: Option<ModelOutput>, prefills: seq<ModelOutput>): seq<Source> {
    (if decode.Some? && decode.value.reqIds != [] then [Source(decode.value, false)] else []) + Tagged(prefills)
  }

  function IdLists(s: seq<Source>): (r: seq<seq<ReqId>>)
    ensures |r| == |s|
  {
    seq(|s|, k requires 0 <= k < |s| => s[k].output.reqIds)
  }

  function SampledLists(s: seq<Source>): (r: seq<seq<seq<int>>>)
    ensures |r| == |s|
  {
    seq(|s|, k requires 0 <= k < |s| => s[k].output.sampledTokenIds)
  }

  function LogprobItems(s: seq<Source>): (r: seq<Option<Logprobs>>)
    ensures |r| == |s|
  {
    seq(|s|, k requires 0 <= k < |s| => s[k].output.logprobs)
  }

  function PrefillIds(s: seq<Source>): set<ReqId> {
    set k, r | 0 <= k < |s| && s[k].isPrefill && r in s[k].output.reqIds :: r
  }

  function PromptUnion(s: seq<Source>, n: nat): map<ReqId, seq<real>>
    requires n <= |s|
  {
    if n == 0 then map[] else PromptUnion(s, n - 1) + s[n-1].output.promptLogprobs
  }

  /** The merged output of the given sources. */
  function Merged(s: seq<Source>): ModelOutput {
    if |s| == 0 then EMPTY_OUTPUT
    else if |s| == 1 then
      if s[0].isPrefill then s[0].output.(finishedPrefillReqs := Some(ToSet(s[0].output.reqIds))) else s[0].output
    else
      var reqIds := Flatten(IdLists(s));
      ModelOutput(reqIds, IndexMap(reqIds, |reqIds|), Flatten(SampledLists(s)),
                  MergedLogprobs(LogprobItems(s)), PromptUnion(s, |s|), Some(PrefillIds(s)))
  }

  lemma SourcesStep(s: seq<Source>, k: nat)
    requires k < |s|
    ensures Flatten(IdLists(s)[..k+1]) == Flatten(IdLists(s)[..k]) + s[k].output.reqIds
    ensures Flatten(SampledLists(s)[..k+1]) == Flatten(SampledLists(s)[..k]) + s[k].output.sampledTokenIds
  {
    var ids, samples := IdLists(s), SampledLists(s);
    assert ids[..k+1] == ids[..k] + [ids[k]];
    assert samples[..k+1] == samples[..k] + [samples[k]];
    hide Flatten;
    FlattenAppend(ids[..k], ids[k]);
    FlattenAppend(samples[..k], samples[k]);
  }

  method MergeOutputs(decode: Option<ModelOutput>, prefills: seq<ModelOutput>) returns (merged: ModelOutput)
    ensures merged == Merged(Sources(decode, prefills))
  {
    hide Sources, MergedLogprobs, PrefillIds;
    var s := Sources(decode, prefills);
    if |s| == 0 {
      return EMPTY_OUTPUT;
    }
    if |s| == 1 {
      var output := s[0].output;
      if s[0].isPrefill {
        output := output.(finishedPrefillReqs := Some(ToSet(output.reqIds)));
      }
      return output;
    }
    var reqIds: seq<ReqId>, sampled: seq<seq<int>> := [], [];
    var prompts: map<ReqId, seq<real>>, finished: set<ReqId> := map[], {};
    NoPrefillIds(s);
    for k := 0 to |s|
      invariant reqIds == Flatten(IdLists(s)[..k])
      invariant sampled == Flatten(SampledLists(s)[..k])
      invariant prompts == PromptUnion(s, k)
      invariant finished == PrefillIds(s[..k])
    {
      SourcesStep(s, k);
      PrefillIdsStep(s, k);
      reqIds := reqIds + s[k].output.reqIds;
      sampled := sampled + s[k].output.sampledTokenIds;
      prompts := prompts + s[k].output.promptLogprobs;
      if s[k].isPrefill {
        finished := finished + ToSet(s[k].output.reqIds);
      }
    }
    assert IdLists(s)[..|s|] == IdLists(s) && SampledLists(s)[..|s|] == SampledLists(s) && s[..|s|] == s;
    var logprobs := MergeLogprobs(LogprobItems(s));
    merged := ModelOutput(reqIds, IndexMap(reqIds, |reqIds|), sampled, logprobs, prompts, Some(finished));
  }

  lemma NoPrefillIds(s: seq<Source>)
    ensures PrefillIds(s[..0]) == {}
  {
  }

  lemma PrefillIdsStep(s: seq<Source>, k: nat)
    requires k < |s|
    ensures PrefillIds(s[..k+1]) == PrefillIds(s[..k]) + if s[k].isPrefill then ToSet(s[k].output.reqIds) else {}
  {
    var a, b := s[..k], s[..k+1];
    assert forall j :: 0 <= j < k ==> a[j] == b[j];
    assert b[k] == s[k];
  }

  // ---------------------------------------------------------------- what a look-up gives

  /** The first row of a request's logprobs. */
  function StartRow(l: Logprobs, index: nat): nat
    requires l.starts.Some? ==> index < |l.starts.value|
  {
    if l.starts.Some? then l.starts.value[index] else index
  }

  /** n rows of an output's logprobs from the given request on. */
  function Slice(l: Logprobs, index: nat, n: nat): (seq<seq<int>>, seq<seq<real>>, seq<int>)
    requires l.starts.Some? ==> index < |l.starts.value|
    requires StartRow(l, index) + n <= |l.ranks| == |l.tokenIds| == |l.logprobs|
  {
    var a := StartRow(l, index);
    (l.tokenIds[a..a+n], l.logprobs[a..a+n], l.ranks[a..a+n])
  }

  /** Parallel rows; one start per request; every request's rows lie inside. */
  ghost predicate LogprobsFit(l: Logprobs, o: ModelOutput)
    requires |o.sampledTokenIds| == |o.reqIds|
  {
    && |l.ranks| == |l.tokenIds| == |l.logprobs|
    && (if l.starts.Some? then |l.starts.value| == |o.reqIds| else |l.ranks| == |o.reqIds|)
    && forall i :: 0 <= i < |o.reqIds| ==> StartRow(l, i) + |o.sampledTokenIds[i]| <= |l.ranks|
  }

  ghost predicate Mergeable(s: seq<Source>) {
    && (forall k :: 0 <= k < |s| ==> |s[k].output.sampledTokenIds| == |s[k].output.reqIds|)
    && Distinct(Flatten(IdLists(s)))
    && ((forall k :: 0 <= k < |s| ==> s[k].output.logprobs.None?)
        || forall k :: 0 <= k < |s| ==>
             s[k].output.logprobs.Some? && LogprobsFit(s[k].output.logprobs.value, s[k].output))
  }

  /** Every request's index leads back to it; the runner builds its outputs so. */
  ghost predicate Inverts(o: ModelOutput) {
    forall i :: 0 <= i < |o.reqIds| ==> o.reqIds[i] in o.reqIdToIndex && o.reqIdToIndex[o.reqIds[i]] == i
  }

  /** The merged request ids are those of all sources, one behind the other; one source is no exception. */
  lemma MergedIds(s: seq<Source>)
    ensures Merged(s).reqIds == Flatten(IdLists(s))
  {
    if |s| == 1 {
      var ids := IdLists(s);
      assert ids[..0] == [] && ids == [s[0].output.reqIds];
    }
  }

  /** The ids come behind those of all sources before. */
  lemma MergedIdsAt(s: seq<Source>, k: nat, i: nat)
    requires k < |s| && i < |s[k].output.reqIds|
    ensures |Flatten(IdLists(s)[..k])| + i < |Merged(s).reqIds|
    ensures Merged(s).reqIds[|Flatten(IdLists(s)[..k])| + i] == s[k].output.reqIds[i]
  {
    hide Flatten, Merged;
    MergedIds(s);
    PartAt(IdLists(s), IdLists(s), k, i);
  }

  /** Looking up request i of source k in the merged output, of one source or many, finds that request's own tokens. */
  lemma MergedTokens(s: seq<Source>, k: nat, i: nat)
    requires Mergeable(s) && k < |s| && i < |s[k].output.reqIds|
    requires |s| == 1 ==> Inverts(s[0].output)
    ensures
      var m, r := Merged(s), s[k].output.reqIds[i];
      && r in m.reqIdToIndex
      && m.reqIdToIndex[r] == |Flatten(IdLists(s)[..k])| + i < |m.reqIds| == |m.sampledTokenIds|
      && m.reqIds[m.reqIdToIndex[r]] == r
      && m.sampledTokenIds[m.reqIdToIndex[r]] == s[k].output.sampledTokenIds[i]
  {
    if |s| == 1 {
      assert IdLists(s)[..0] == [];
    } else {
      hide Flatten, IndexMap, MergedLogprobs, PromptUnion, PrefillIds;
      var ids, samples := IdLists(s), SampledLists(s);
      PartAt(ids, ids, k, i);
      PartAt(ids, samples, k, i);
      var all := Flatten(ids);
      IndexMapInverts(all, |all|);
      assert all[..|all|] == all;
    }
  }

  // ---------------------------------------------------------------- prompt logprobs

  lemma {:induction false} PromptUnionAt(s: seq<Source>, n: nat, k: nat, r: ReqId)
    requires k < n <= |s| && r in s[k].output.promptLogprobs
    requires forall j :: k < j < n ==> r !in s[j].output.promptLogprobs
    ensures r in PromptUnion(s, n) && PromptUnion(s, n)[r] == s[k].output.promptLogprobs[r]
    decreases n
  {
    if k < n - 1 {
      PromptUnionAt(s, n - 1, k, r);
    }
  }

  lemma {:induction false} PromptUnionFrom(s: seq<Source>, n: nat, r: ReqId) returns (k: nat)
    requires n <= |s| && r in PromptUnion(s, n)
    ensures k < n && r in s[k].output.promptLogprobs
    decreases n
  {
    if r in s[n-1].output.promptLogprobs {
      k := n - 1;
    } else {
      k := PromptUnionFrom(s, n - 1, r);
    }
  }

  /** A request's prompt logprobs are those of the last source that has some for it. */
  lemma MergedPrompts(s: seq<Source>, k: nat, r: ReqId)
    requires k < |s| && r in s[k].output.promptLogprobs
    requires forall j :: k < j < |s| ==> r !in s[j].output.promptLogprobs
    ensures r in Merged(s).promptLogprobs && Merged(s).promptLogprobs[r] == s[k].output.promptLogprobs[r]
  {
    hide Flatten, IndexMap, MergedLogprobs, PromptUnion, PrefillIds;
    PromptUnionAt(s, |s|, k, r);
  }

  /** And there are no others. */
  lemma MergedPromptsFrom(s: seq<Source>, r: ReqId) returns (k: nat)
    requires r in Merged(s).promptLogprobs
    ensures k < |s| && r in s[k].output.promptLogprobs
  {
    hide Flatten, IndexMap, MergedLogprobs, PromptUnion, PrefillIds;
    if |s| == 1 {
      k := 0;
    } else {
      k := PromptUnionFrom(s, |s|, r);
    }
  }

  // ---------------------------------------------------------------- from the outputs that were given

  predicate HasRequests(o: ModelOutput) {
    o.reqIds != []
  }

  ghost predicate AllPrefill(prefills: seq<ModelOutput>, s: seq<Source>) {
    |s| == |prefills| && forall k :: 0 <= k < |s| ==> s[k] == Source(prefills[k], true)
  }

  lemma {:induction false} TaggedArePicked(prefills: seq<ModelOutput>) returns (picked: seq<ModelOutput>)
    ensures Picks(prefills, HasRequests, picked) && AllPrefill(picked, Tagged(prefills))
  {
    if prefills == [] {
      picked := [];
      PicksNothing(HasRequests);
    } else {
      hide Picks, AllPrefill, Tagged;
      var front, last := prefills[..|prefills|-1], prefills[|prefills|-1];
      assert prefills == front + [last];
      var before := TaggedArePicked(front);
      PicksOneMore(front, HasRequests, before, last);
      picked := if HasRequests(last) then before + [last] else before;
      TaggedOneMore(front, last, before);
    }
  }

  lemma TaggedOneMore(front: seq<ModelOutput>, last: ModelOutput, before: seq<ModelOutput>)
    requires AllPrefill(before, Tagged(front))
    ensures AllPrefill(if HasRequests(last) then before + [last] else before, Tagged(front + [last]))
  {
    assert (front + [last])[..|front|] == front;
  }

  /** The sources are the decode output and the prefill outputs that have requests, in order. */
  lemma SourcesArePicked(decode: Option<ModelOutput>, prefills: seq<ModelOutput>) returns (picked: seq<ModelOutput>)
    ensures Picks(prefills, HasRequests, picked)
    ensures
      var s := Sources(decode, prefills);
      if decode.Some? && HasRequests(decode.value) then
        |s| > 0 && s[0] == Source(decode.value, false) && AllPrefill(picked, s[1..])
      else AllPrefill(picked, s)
  {
    hide Picks;
    picked := TaggedArePicked(prefills);
    if decode.Some? && HasRequests(decode.value) {
      assert Sources(decode, prefills)[1..] == Tagged(prefills);
    } else {
      assert Sources(decode, prefills) == Tagged(prefills);
    }
  }

  lemma SourceOfDecode(decode: ModelOutput, prefills: seq<ModelOutput>)
    requires decode.reqIds != []
    ensures Sources(Some(decode), prefills) != [] && Sources(Some(decode), prefills)[0] == Source(decode, false)
  {
    hide Picks;
    var picked := SourcesArePicked(Some(decode), prefills);
  }

  lemma SourceOfPrefill(decode: Option<ModelOutput>, prefills: seq<ModelOutput>, o: ModelOutput) returns (k: nat)
    requires o in prefills && o.reqIds != []
    ensures k < |Sources(decode, prefills)| && Sources(decode, prefills)[k] == Source(o, true)
  {
    hide Sources;
    var s := Sources(decode, prefills);
    var picked := SourcesArePicked(decode, prefills);
    PicksCount(prefills, HasRequests, picked, o);
    assert o in multiset(picked);
    var j :| 0 <= j < |picked| && picked[j] == o;
    k := if decode.Some? && HasRequests(decode.value) then j + 1 else j;
    assert decode.Some? && HasRequests(decode.value) ==> s[1..][j] == s[k];
  }

  /** Whatever is merged, every request of every output that was given finds its own tokens. */
  lemma EveryRequestServed(decode: Option<ModelOutput>, prefills: seq<ModelOutput>, o: ModelOutput, i: nat)
    requires decode == Some(o) || o in prefills
    requires i < |o.reqIds| == |o.sampledTokenIds| && Mergeable(Sources(decode, prefills)) && Inverts(o)
    ensures
      var m, r := Merged(Sources(decode, prefills)), o.reqIds[i];
      && r in m.reqIdToIndex && m.reqIdToIndex[r] < |m.reqIds| == |m.sampledTokenIds|
      && m.reqIds[m.reqIdToIndex[r]] == r
      && m.sampledTokenIds[m.reqIdToIndex[r]] == o.sampledTokenIds[i]
  {
    hide Sources, Merged, Flatten, Mergeable;
    var s := Sources(decode, prefills);
    var k: nat := 0;
    if decode == Some(o) {
      SourceOfDecode(o, prefills);
    } else {
      k := SourceOfPrefill(decode, prefills, o);
    }
    MergedTokens(s, k, i);
  }

  lemma {:induction false} AllPresent(items: seq<Option<Logprobs>>)
    requires forall k :: 0 <= k < |items| ==> items[k].Some?
    ensures |NonEmpty(items)| == |items|
    ensures forall k :: 0 <= k < |items| ==> NonEmpty(items)[k] == items[k].value
  {
    if items != [] {
      AllPresent(items[..|items|-1]);
    }
  }

  /** In the joined logprobs the rows of item k start RowsBefore(k) later than in the item. */
  lemma JoinedRows(items: seq<Logprobs>, k: nat, a: nat, n: nat)
    requires k < |items| && a + n <= |items[k].ranks|
    requires forall j :: 0 <= j < |items| ==> |items[j].ranks| == |items[j].tokenIds| == |items[j].logprobs|
    ensures
      var base, joined := RowsBefore(items, k), Joined(items);
      && base + a + n <= |joined.ranks| == |joined.tokenIds| == |joined.logprobs|
      && joined.ranks[base + a..base + a + n] == items[k].ranks[a..a+n]
      && joined.tokenIds[base + a..base + a + n] == items[k].tokenIds[a..a+n]
      && joined.logprobs[base + a..base + a + n] == items[k].logprobs[a..a+n]
  {
    hide Flatten, StartLists;
    var r, t, v := RankLists(items), TokenLists(items), ValueLists(items);
    PartSlice(r, r, k, a, n);
    PartSlice(r, t, k, a, n);
    PartSlice(r, v, k, a, n);
  }

  /** The joined start row of request i of item k is its own start row, moved by the rows before. */
  lemma JoinedStart(items: seq<Logprobs>, ids: seq<seq<ReqId>>, k: nat, i: nat)
    requires |items| == |ids| && k < |items| && i < |ids[k]|
    requires forall j :: 0 <= j < |items| ==>
      |ids[j]| == if items[j].starts.Some? then |items[j].starts.value| else |items[j].ranks|
    ensures
      var index, joined := |Flatten(ids[..k])| + i, Joined(items);
      && (joined.starts.Some? ==> index < |joined.starts.value|)
      && StartRow(joined, index) == RowsBefore(items, k) + StartRow(items[k], i)
  {
    hide Flatten, TokenLists, ValueLists;
    var joined := Joined(items);
    if joined.starts.Some? {
      var lists := StartLists(items);
      assert forall j :: 0 <= j < |items| ==> |lists[j]| == |ids[j]|;
      PartAt(ids, lists, k, i);
    } else {
      assert forall j :: 0 <= j < |items| ==> items[j].starts.None?;
      var ranks := RankLists(items);
      FlattenSameShape(ids[..k], ranks[..k]);
    }
  }

  /** The logprob rows of request i of source k, before merging. */
  ghost function OwnSlice(o: ModelOutput, i: nat): (seq<seq<int>>, seq<seq<real>>, seq<int>)
    requires |o.sampledTokenIds| == |o.reqIds| && i < |o.reqIds|
    requires o.logprobs.Some? && LogprobsFit(o.logprobs.value, o)
  {
    Slice(o.logprobs.value, i, |o.sampledTokenIds[i]|)
  }

  /** The rows that the logprobs hold at the index are those of request i of the output. */
  ghost predicate RowsFound(l: Logprobs, index: nat, o: ModelOutput, i: nat)
    requires |o.sampledTokenIds| == |o.reqIds| && i < |o.reqIds|
    requires o.logprobs.Some? && LogprobsFit(o.logprobs.value, o)
  {
    && (l.starts.Some? ==> index < |l.starts.value|)
    && StartRow(l, index) + |o.sampledTokenIds[i]| <= |l.ranks| == |l.tokenIds| == |l.logprobs|
    && Slice(l, index, |o.sampledTokenIds[i]|) == OwnSlice(o, i)
  }

  /** With logprobs in the first output, and so in all of them. */
  ghost predicate LogprobsMergeable(s: seq<Source>) {
    s != [] && Mergeable(s) && s[0].output.logprobs.Some?
  }

  lemma EachFits(s: seq<Source>, k: nat)
    requires LogprobsMergeable(s) && k < |s|
    ensures |s[k].output.sampledTokenIds| == |s[k].output.reqIds|
    ensures s[k].output.logprobs.Some? && LogprobsFit(s[k].output.logprobs.value, s[k].output)
  {
  }

  /** Looking up request i of source k in the merged logprobs, of one source or many, finds that request's own rows. */
  lemma MergedRows(s: seq<Source>, k: nat, i: nat)
    requires LogprobsMergeable(s) && k < |s| && i < |s[k].output.reqIds|
    ensures |s[k].output.sampledTokenIds| == |s[k].output.reqIds|
    ensures s[k].output.logprobs.Some? && LogprobsFit(s[k].output.logprobs.value, s[k].output)
    ensures Merged(s).logprobs.Some?
    ensures RowsFound(Merged(s).logprobs.value, |Flatten(IdLists(s)[..k])| + i, s[k].output, i)
  {
    EachFits(s, k);
    if |s| == 1 {
      assert IdLists(s)[..0] == [];
    } else {
      JoinedRowsFound(s, k, i);
    }
  }

  lemma JoinedRowsFound(s: seq<Source>, k: nat, i: nat)
    requires LogprobsMergeable(s) && |s| >= 2 && k < |s| && i < |s[k].output.reqIds|
    requires |s[k].output.sampledTokenIds| == |s[k].output.reqIds|
    requires s[k].output.logprobs.Some? && LogprobsFit(s[k].output.logprobs.value, s[k].output)
    ensures Merged(s).logprobs.Some?
    ensures RowsFound(Merged(s).logprobs.value, |Flatten(IdLists(s)[..k])| + i, s[k].output, i)
  {
    hide Flatten, IndexMap, PromptUnion, PrefillIds, Joined, RowsBefore;
    AllPresent(LogprobItems(s));
    var present := NonEmpty(LogprobItems(s));
    forall j | 0 <= j < |s| ensures present[j] == s[j].output.logprobs.value && LogprobsFit(present[j], s[j].output) {
      EachFits(s, j);
    }
    var own, n := s[k].output.logprobs.value, |s[k].output.sampledTokenIds[i]|;
    JoinedStart(present, IdLists(s), k, i);
    JoinedRows(present, k, StartRow(own, i), n);
  }

  lemma {:induction false} NonePresent(items: seq<Option<Logprobs>>)
    ensures NonEmpty(items) == [] <==> forall k :: 0 <= k < |items| ==> items[k].None?
  {
    if items != [] {
      NonePresent(items[..|items|-1]);
    }
  }

  /** There are merged logprobs exactly when some source has logprobs. */
  lemma MergedHasLogprobs(s: seq<Source>)
    ensures Merged(s).logprobs.Some? <==> exists k :: 0 <= k < |s| && s[k].output.logprobs.Some?
  {
    hide Flatten, IndexMap, PromptUnion, PrefillIds, Joined;
    NonePresent(LogprobItems(s));
    if k :| 0 <= k < |s| && s[k].output.logprobs.Some? {
      assert LogprobItems(s)[k].Some?;
    }
    if |s| == 1 && s[0].output.logprobs.None? {
      assert forall k :: 0 <= k < |s| ==> s[k].output.logprobs.None?;
    }
  }
}
