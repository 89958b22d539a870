/**
 When only some of the merged outputs carry logprobs: exactly when every request that has
 logprobs still finds them at its index in the merged output.
 */
module LogprobAlignment {
  import opened Wrappers
  import opened BatchViews
  import opened HoldRestore
  import opened OutputMerge

  ghost predicate Present(s: seq<Source>, k: nat)
    requires k < |s|
  {
    s[k].output.logprobs.Some?
  }

  /** Non-empty outputs of different requests, each with sound logprobs or none; one has some. */
  ghost predicate PartlyMergeable(s: seq<Source>) {
    && |s| >= 2
    && (forall k :: 0 <= k < |s| ==> s[k].output.reqIds != [])
    && (forall k :: 0 <= k < |s| ==> |s[k].output.sampledTokenIds| == |s[k].output.reqIds|)
    && Distinct(Flatten(IdLists(s)))
    && (forall k: nat :: k < |s| && Present(s, k) ==> LogprobsFit(s[k].output.logprobs.value, s[k].output))
    && (exists k: nat :: k < |s| && Present(s, k))
  }

  /** How many requests the logprobs have a place for. */
  function Places(l: Logprobs): nat {
    if l.starts.Some? then |l.starts.value| else |l.ranks|
  }

  /** There is a place at the given index, and the rows there are those of request i of the output. */
  ghost predicate FindsIn(l: Logprobs, index: nat, o: ModelOutput, i: nat)
    requires |o.sampledTokenIds| == |o.reqIds| && i < |o.reqIds|
    requires o.logprobs.Some? && LogprobsFit(o.logprobs.value, o)
  {
    && index < Places(l)
    && StartRow(l, index) + |o.sampledTokenIds[i]| <= |l.ranks| == |l.tokenIds| == |l.logprobs|
    && Slice(l, index, |o.sampledTokenIds[i]|) == OwnSlice(o, i)
  }

  /** Request i of source k finds its own rows at its merged index. */
  ghost predicate Finds(s: seq<Source>, k: nat, i: nat)
    requires PartlyMergeable(s) && k < |s| && Present(s, k) && i < |s[k].output.reqIds|
  {
    && Merged(s).logprobs.Some?
    && FindsIn(Merged(s).logprobs.value, |Flatten(IdLists(s)[..k])| + i, s[k].output, i)
  }

  ghost predicate AllFind(s: seq<Source>)
    requires PartlyMergeable(s)
  {
    forall k: nat, i: nat :: k < |s| && Present(s, k) && i < |s[k].output.reqIds| ==> Finds(s, k, i)
  }

  /** No output without logprobs comes before one with. */
  ghost predicate PresentFirst(s: seq<Source>) {
    forall j: nat, k: nat :: j < k < |s| && Present(s, k) ==> Present(s, j)
  }

  // ---------------------------------------------------------------- the present ones first

  lemma {:induction false} NonEmptyFront(items: seq<Option<Logprobs>>, p: nat)
    requires p <= |items| && forall k :: p <= k < |items| ==> items[k].None?
    ensures NonEmpty(items) == NonEmpty(items[..p])
    decreases |items|
  {
    if p < |items| {
      NonEmptyFront(items[..|items|-1], p);
      assert items[..|items|-1][..p] == items[..p];
    } else {
      assert items[..p] == items;
    }
  }

  /** The number of outputs up to the last one with logprobs. */
  lemma {:induction false} LastPresent(s: seq<Source>, n: nat) returns (p: nat)
    requires n <= |s| && exists k: nat :: k < n && Present(s, k)
    ensures 0 < p <= n && Present(s, p - 1) && forall k: nat :: p <= k < n ==> !Present(s, k)
    decreases n
  {
    if Present(s, n - 1) {
      p := n;
    } else {
      p := LastPresent(s, n - 1);
    }
  }

  lemma FrontItems(s: seq<Source>, p: nat) returns (present: seq<Logprobs>)
    requires PartlyMergeable(s) && 0 < p <= |s|
    requires (forall k: nat :: k < p ==> Present(s, k)) && (forall k: nat :: p <= k < |s| ==> !Present(s, k))
    ensures |present| == p && NonEmpty(LogprobItems(s)) == present
    ensures forall k: nat :: k < p ==>
      Present(s, k) && present[k] == s[k].output.logprobs.value && LogprobsFit(present[k], s[k].output)
  {
    hide Flatten;
    var items := LogprobItems(s);
    forall k | p <= k < |items| ensures items[k].None? {
      assert !Present(s, k);
    }
    forall k | 0 <= k < p ensures items[..p][k].Some? {
      assert Present(s, k);
    }
    NonEmptyFront(items, p);
    AllPresent(items[..p]);
    present := NonEmpty(items);
    forall k: nat | k < p
      ensures Present(s, k) && present[k] == s[k].output.logprobs.value && LogprobsFit(present[k], s[k].output)
    {
      assert Present(s, k);
      assert items[..p][k] == items[k];
    }
  }

  lemma FirstFinds(s: seq<Source>, p: nat, k: nat, i: nat)
    requires PartlyMergeable(s) && 0 < p <= |s|
    requires (forall j: nat :: j < p ==> Present(s, j)) && (forall j: nat :: p <= j < |s| ==> !Present(s, j))
    requires k < p && i < |s[k].output.reqIds|
    ensures Finds(s, k, i)
  {
    hide Flatten, IndexMap, PromptUnion, PrefillIds, Joined, RowsBefore;
    var present := FrontItems(s, p);
    assert Merged(s).logprobs == MergedLogprobs(LogprobItems(s));
    assert Present(s, k);
    var own, ids := s[k].output.logprobs.value, IdLists(s);
    if p == 1 {
      assert Merged(s).logprobs == Some(own);
      NothingBefore(ids);
    } else {
      assert ids[..p][..k] == ids[..k];
      hide FindsIn, PartlyMergeable, LogprobsFit;
      FindsInJoined(present, ids[..p], s[k].output, k, i);
    }
  }

  lemma FindsInJoined(items: seq<Logprobs>, ids: seq<seq<ReqId>>, o: ModelOutput, k: nat, i: nat)
    requires |items| == |ids| && k < |items| && i < |ids[k]|
    requires forall j :: 0 <= j < |items| ==>
      |ids[j]| == Places(items[j]) && |items[j].ranks| == |items[j].tokenIds| == |items[j].logprobs|
    requires |o.sampledTokenIds| == |o.reqIds| && o.reqIds == ids[k]
    requires o.logprobs == Some(items[k]) && LogprobsFit(items[k], o)
    ensures FindsIn(Joined(items), |Flatten(ids[..k])| + i, o, i)
  {
    hide Flatten, Joined, RowsBefore;
    var own, n := items[k], |o.sampledTokenIds[i]|;
    JoinedStart(items, ids, k, i);
    JoinedRows(items, k, StartRow(own, i), n);
    JoinedPlace(items, ids, k, i);
  }

  lemma NothingBefore(ids: seq<seq<ReqId>>)
    ensures |Flatten(ids[..0])| == 0
  {
  }

  /** There is a place at the index of every request of every item. */
  lemma JoinedPlace(items: seq<Logprobs>, ids: seq<seq<ReqId>>, k: nat, i: nat)
    requires |items| == |ids| && k < |items| && i < |ids[k]|
    requires forall j :: 0 <= j < |items| ==> |ids[j]| == Places(items[j])
    ensures |Flatten(ids[..k])| + i < Places(Joined(items))
  {
    hide Flatten;
    JoinedPlaces(items, ids);
    FlattenPart(ids, k);
  }

  lemma JoinedPlaces(items: seq<Logprobs>, ids: seq<seq<ReqId>>)
    requires |items| == |ids| && forall j :: 0 <= j < |items| ==> |ids[j]| == Places(items[j])
    ensures Places(Joined(items)) == |Flatten(ids)|
  {
    hide Flatten;
    if Joined(items).starts.Some? {
      FlattenSameShape(StartLists(items), ids);
    } else {
      assert forall j :: 0 <= j < |items| ==> items[j].starts.None?;
      FlattenSameShape(RankLists(items), ids);
    }
  }

  // ---------------------------------------------------------------- one missing before

  /** The request lists of the outputs with logprobs, among the first n. */
  ghost function PresentIds(s: seq<Source>, n: nat): seq<seq<ReqId>>
    requires n <= |s|
  {
    if n == 0 then []
    else PresentIds(s, n - 1) + if Present(s, n - 1) then [s[n-1].output.reqIds] else []
  }

  lemma {:induction false} PresentShape(s: seq<Source>, n: nat)
    requires PartlyMergeable(s) && n <= |s|
    ensures
      var items := NonEmpty(LogprobItems(s)[..n]);
      |items| == |PresentIds(s, n)| && forall j :: 0 <= j < |items| ==> |PresentIds(s, n)[j]| == Places(items[j])
  {
    hide Flatten;
    if n > 0 {
      PresentShape(s, n - 1);
      var items := LogprobItems(s);
      assert items[..n][..n-1] == items[..n-1];
      assert Present(s, n - 1) ==> LogprobsFit(s[n-1].output.logprobs.value, s[n-1].output);
    }
  }

  /** The merged logprobs have places for the requests of the outputs with logprobs only. */
  lemma MergedPlaces(s: seq<Source>)
    requires PartlyMergeable(s)
    ensures Merged(s).logprobs.Some? && Places(Merged(s).logprobs.value) == |Flatten(PresentIds(s, |s|))|
  {
    hide Flatten, IndexMap, PromptUnion, PrefillIds, Joined;
    var items, ids := NonEmpty(LogprobItems(s)), PresentIds(s, |s|);
    assert LogprobItems(s)[..|s|] == LogprobItems(s);
    PresentShape(s, |s|);
    SomePresent(s, |s|);
    assert Merged(s).logprobs == MergedLogprobs(LogprobItems(s));
    if |items| == 1 {
      OneList(ids);
    } else {
      JoinedPlaces(items, ids);
    }
  }

  lemma OneList(ids: seq<seq<ReqId>>)
    requires |ids| == 1
    ensures |Flatten(ids)| == |ids[0]|
  {
    assert ids == [] + [ids[0]];
    FlattenAppend([], ids[0]);
  }

  lemma {:induction false} SomePresent(s: seq<Source>, n: nat)
    requires n <= |s| && exists k: nat :: k < n && Present(s, k)
    ensures PresentIds(s, n) != []
    decreases n
  {
    if !Present(s, n - 1) {
      SomePresent(s, n - 1);
    }
  }

  lemma PlacesStep(s: seq<Source>, m: nat)
    requires m < |s|
    ensures |Flatten(IdLists(s)[..m+1])| == |Flatten(IdLists(s)[..m])| + |s[m].output.reqIds|
    ensures |Flatten(PresentIds(s, m + 1))|
      == |Flatten(PresentIds(s, m))| + if Present(s, m) then |s[m].output.reqIds| else 0
  {
    hide Flatten;
    var ids := IdLists(s);
    assert ids[..m+1] == ids[..m] + [ids[m]];
    FlattenAppend(ids[..m], ids[m]);
    FlattenAppend(PresentIds(s, m), s[m].output.reqIds);
    assert PresentIds(s, m) + [] == PresentIds(s, m);
  }

  /** Leaving outputs out leaves their requests out; behind the last one with logprobs nothing is added. */
  lemma {:induction false} FewerPlaces(s: seq<Source>, j: nat, n: nat)
    requires PartlyMergeable(s) && j < n <= |s| && !Present(s, j)
    ensures |Flatten(PresentIds(s, n))| < |Flatten(IdLists(s)[..n])|
    decreases n
  {
    hide Flatten;
    var m := n - 1;
    PlacesStep(s, m);
    if j < m {
      FewerPlaces(s, j, m);
    } else {
      NoMorePlaces(s, m);
    }
  }

  lemma {:induction false} NoMorePlaces(s: seq<Source>, n: nat)
    requires n <= |s|
    ensures |Flatten(PresentIds(s, n))| <= |Flatten(IdLists(s)[..n])|
  {
    if n > 0 {
      var m := n - 1;
      NoMorePlaces(s, m);
      PlacesStep(s, m);
    }
  }

  lemma {:induction false} NothingAdded(s: seq<Source>, p: nat, n: nat)
    requires p <= n <= |s| && forall k: nat :: p <= k < n ==> !Present(s, k)
    ensures PresentIds(s, n) == PresentIds(s, p)
    decreases n
  {
    if p < n {
      NothingAdded(s, p, n - 1);
    }
  }

  /** With a gap before it, the last request of the last output with logprobs has no place. */
  lemma GapMisses(s: seq<Source>, j: nat, p: nat)
    requires PartlyMergeable(s) && j < p <= |s| && !Present(s, j)
    requires Present(s, p - 1) && forall k: nat :: p <= k < |s| ==> !Present(s, k)
    ensures !Finds(s, p - 1, |s[p-1].output.reqIds| - 1)
  {
    hide Flatten;
    var ids, k := IdLists(s), p - 1;
    MergedPlaces(s);
    NothingAdded(s, p, |s|);
    FewerPlaces(s, j, p);
    assert ids[..p] == ids[..k] + [ids[k]];
    FlattenAppend(ids[..k], ids[k]);
  }

  /** Every request with logprobs finds its own at its merged index exactly when the outputs with logprobs come first. */
  lemma LogprobsFoundExactly(s: seq<Source>)
    requires PartlyMergeable(s)
    ensures AllFind(s) <==> PresentFirst(s)
  {
    hide PartlyMergeable, Finds, Present;
    var p := LastPresentOf(s);
    if PresentFirst(s) {
      forall j: nat | j < p ensures Present(s, j) {
        assert j == p - 1 || j < p - 1;
      }
      forall k: nat, i: nat | k < |s| && Present(s, k) && i < |s[k].output.reqIds| ensures Finds(s, k, i) {
        FirstFinds(s, p, k, i);
      }
    } else {
      var j: nat, k: nat :| j < k < |s| && Present(s, k) && !Present(s, j);
      GapMisses(s, j, p);
      NotEmptyAt(s, p - 1);
    }
  }

  lemma LastPresentOf(s: seq<Source>) returns (p: nat)
    requires PartlyMergeable(s)
    ensures 0 < p <= |s| && Present(s, p - 1) && forall k: nat :: p <= k < |s| ==> !Present(s, k)
  {
    p := LastPresent(s, |s|);
  }

  lemma NotEmptyAt(s: seq<Source>, k: nat)
    requires PartlyMergeable(s) && k < |s|
    ensures s[k].output.reqIds != []
  {
  }

  /**
   The two lanes' outputs: behind a decode output without logprobs, some request of the prefill
   outputs that have them no longer finds its own.
   */
  lemma MixedLogprobsMisalign(decode: ModelOutput, prefills: seq<ModelOutput>)
    requires decode.reqIds != [] && decode.logprobs.None? && PartlyMergeable(Sources(Some(decode), prefills))
    ensures !AllFind(Sources(Some(decode), prefills))
  {
    hide AllFind;
    var s := Sources(Some(decode), prefills);
    assert s[0] == Source(decode, false);
    assert !Present(s, 0);
    var k: nat :| k < |s| && Present(s, k);
    assert !PresentFirst(s);
    LogprobsFoundExactly(s);
  }

  /** Such a batch: one decode request without logprobs and one prefill request with them. */
  lemma MixedLogprobsOccur()
    ensures
      var plain := ModelOutput(["a"], map["a" := 0], [[7]], None, map[], None);
      var rich := ModelOutput(["b"], map["b" := 0], [[8]],
                              Some(Logprobs([[8]], [[0.5]], [1], Some([0]))), map[], None);
      PartlyMergeable(Sources(Some(plain), [rich]))
  {
    var plain := ModelOutput(["a"], map["a" := 0], [[7]], None, map[], None);
    var rich := ModelOutput(["b"], map["b" := 0], [[8]],
                            Some(Logprobs([[8]], [[0.5]], [1], Some([0]))), map[], None);
    assert Tagged([rich]) == Tagged([]) + [Source(rich, true)];
    var s := Sources(Some(plain), [rich]);
    assert s == [Source(plain, false), Source(rich, true)];
    var ids := IdLists(s);
    assert ids == [["a"], ["b"]];
    FlattenAppend([["a"]], ["b"]);
    FlattenAppend([], ["a"]);
    assert [["a"]] + [["b"]] == ids && [] + [["a"]] == [["a"]];
    assert Flatten(ids) == ["a", "b"];
    assert Present(s, 1);
  }
}
