/**
 Load reports of the engines, the dictionaries they are kept in, and the choice of a decode
 engine from a client's view of them.
 */
module LoadView {
  import opened Picking
  import opened Wrappers

  type InstanceId = string

  datatype EngineLoad = EngineLoad(
    instance: InstanceId,
    role: string,
    group: string,
    waitingReqs: int,
    runningReqs: int,
    waitingTokens: int,
    runningTokens: int,
    prefillTokensInDecode: int,
    kvCacheUsage: real,
    ts: int)

  // ---------------------------------------------------------------- dictionaries by instance

  /** A dictionary keyed by instance, as the list of its values in insertion order. */
  ghost predicate OnePerInstance(d: seq<EngineLoad>) {
    forall i, j :: 0 <= i < j < |d| ==> d[i].instance != d[j].instance
  }

  /** Assigning to a key: in place when the key is there, at the end otherwise. */
  function Assigned(d: seq<EngineLoad>, l: EngineLoad): (r: seq<EngineLoad>)
    ensures |d| <= |r| <= |d| + 1
  {
    if d == [] then [l]
    else if d[0].instance == l.instance then [l] + d[1..]
    else [d[0]] + Assigned(d[1..], l)
  }

  /** After an assignment: the new load, and everybody else's as before. */
  lemma {:induction false} AssignedIs(d: seq<EngineLoad>, l: EngineLoad)
    requires OnePerInstance(d)
    ensures OnePerInstance(Assigned(d, l))
    ensures forall x :: x in Assigned(d, l) <==> x == l || (x in d && x.instance != l.instance)
  {
    if d != [] {
      if d[0].instance == l.instance {
        forall x | x in d[1..] ensures x.instance != l.instance {
          var i :| 0 <= i < |d[1..]| && d[1..][i] == x;
          assert d[i + 1] == x;
        }
      } else {
        assert forall i :: 0 <= i < |d[1..]| ==> d[1..][i] == d[i + 1];
        AssignedIs(d[1..], l);
        Prepended(d[0], Assigned(d[1..], l));
      }
      assert d == [d[0]] + d[1..];
    }
  }

  lemma Prepended(x: EngineLoad, d: seq<EngineLoad>)
    requires OnePerInstance(d) && forall y :: y in d ==> y.instance != x.instance
    ensures OnePerInstance([x] + d)
  {
  }

  /** The loads not older than staleMs, in order. */
  function Fresh(loads: seq<EngineLoad>, now: int, staleMs: int): (r: seq<EngineLoad>) {
    if loads == [] then []
    else
      var r := Fresh(loads[..|loads|-1], now, staleMs);
      if now - loads[|loads|-1].ts <= staleMs then r + [loads[|loads|-1]] else r
  }

  lemma {:induction false} FreshAre(loads: seq<EngineLoad>, now: int, staleMs: int)
    ensures forall x :: x in Fresh(loads, now, staleMs) <==> x in loads && now - x.ts <= staleMs
  {
    if loads != [] {
      FreshAre(loads[..|loads|-1], now, staleMs);
      assert loads == loads[..|loads|-1] + [loads[|loads|-1]];
    }
  }

  function NotStale(now: int, staleMs: int): EngineLoad -> bool {
    (l: EngineLoad) => now - l.ts <= staleMs
  }

  /** All of them, in order and no others. */
  lemma {:induction false} FreshArePicked(loads: seq<EngineLoad>, now: int, staleMs: int)
    ensures Picks(loads, NotStale(now, staleMs), Fresh(loads, now, staleMs))
  {
    if loads == [] {
      PicksNothing(NotStale(now, staleMs));
    } else {
      hide Picks;
      var front, last := loads[..|loads|-1], loads[|loads|-1];
      assert loads == front + [last];
      FreshArePicked(front, now, staleMs);
      PicksOneMore(front, NotStale(now, staleMs), Fresh(front, now, staleMs), last);
    }
  }

  /** The dictionary built from the loads one after the other; a later load of an instance wins. */
  function Collected(loads: seq<EngineLoad>): seq<EngineLoad> {
    if loads == [] then [] else Assigned(Collected(loads[..|loads|-1]), loads[|loads|-1])
  }

  lemma {:induction false} CollectedAre(loads: seq<EngineLoad>)
    ensures OnePerInstance(Collected(loads))
    ensures forall x :: x in Collected(loads) ==> x in loads
    ensures forall y :: y in loads ==> exists x :: x in Collected(loads) && x.instance == y.instance
  {
    if loads != [] {
      var front, last := loads[..|loads|-1], loads[|loads|-1];
      CollectedAre(front);
      AssignedIs(Collected(front), last);
      assert loads == front + [last];
      assert last in Collected(loads);
      forall y | y in loads ensures exists x :: x in Collected(loads) && x.instance == y.instance {
        if y.instance != last.instance {
          var x :| x in Collected(front) && x.instance == y.instance;
          assert x in Collected(loads);
        }
      }
    }
  }

  /** The last load of its instance. */
  ghost predicate LastOf(loads: seq<EngineLoad>, x: EngineLoad) {
    exists i :: 0 <= i < |loads| && loads[i] == x && forall j :: i < j < |loads| ==> loads[j].instance != x.instance
  }

  lemma LastOfOneMore(front: seq<EngineLoad>, last: EngineLoad, x: EngineLoad)
    ensures LastOf(front + [last], x) <==> x == last || (LastOf(front, x) && x.instance != last.instance)
  {
    var loads := front + [last];
    if LastOf(loads, x) && x != last {
      var i :| 0 <= i < |loads| && loads[i] == x && forall j :: i < j < |loads| ==> loads[j].instance != x.instance;
      assert loads[|front|] == last && i < |front|;
      assert front[i] == x && forall j :: i < j < |front| ==> front[j] == loads[j];
    }
    if x == last {
      assert loads[|front|] == x;
    }
    if LastOf(front, x) && x.instance != last.instance {
      var i :| 0 <= i < |front| && front[i] == x && forall j :: i < j < |front| ==> front[j].instance != x.instance;
      assert loads[i] == x;
    }
  }

  /** Of each instance the dictionary holds the last load. */
  lemma {:induction false} CollectedAreLast(loads: seq<EngineLoad>, x: EngineLoad)
    ensures x in Collected(loads) <==> LastOf(loads, x)
  {
    if loads != [] {
      hide LastOf;
      var front, last := loads[..|loads|-1], loads[|loads|-1];
      assert loads == front + [last];
      CollectedAreLast(front, x);
      CollectedAre(front);
      AssignedIs(Collected(front), last);
      LastOfOneMore(front, last, x);
    }
  }

  lemma {:induction false} AssignedAtEnd(d: seq<EngineLoad>, l: EngineLoad)
    requires forall x :: x in d ==> x.instance != l.instance
    ensures Assigned(d, l) == d + [l]
  {
    if d != [] {
      AssignedAtEnd(d[1..], l);
      assert d == [d[0]] + d[1..];
    }
  }

  /** What the coordinator publishes names each instance once, and comes back as it was. */
  lemma {:induction false} CollectedDistinct(loads: seq<EngineLoad>)
    requires OnePerInstance(loads)
    ensures Collected(loads) == loads
  {
    if loads != [] {
      CollectedDistinct(loads[..|loads|-1]);
      AssignedAtEnd(loads[..|loads|-1], loads[|loads|-1]);
    }
  }

  // ---------------------------------------------------------------- choosing a decode engine

  predicate Eligible(l: EngineLoad, group: string, watermark: real, maxOffload: int) {
    && l.group == group && (l.role == "decode" || l.role == "both")
    && l.kvCacheUsage < watermark
    && l.prefillTokensInDecode < maxOffload
  }

  /** Offloaded tokens first, then all tokens, then weighted requests, then cache usage. */
  predicate Better(a: EngineLoad, b: EngineLoad) {
    var x, y := a.waitingTokens + a.runningTokens, b.waitingTokens + b.runningTokens;
    var m, n := a.waitingReqs * 4 + a.runningReqs, b.waitingReqs * 4 + b.runningReqs;
    a.prefillTokensInDecode < b.prefillTokensInDecode
    || (a.prefillTokensInDecode == b.prefillTokensInDecode
        && (x < y || (x == y && (m < n || (m == n && a.kvCacheUsage < b.kvCacheUsage)))))
  }

  lemma BetterIsOrder(a: EngineLoad, b: EngineLoad, c: EngineLoad)
    ensures !Better(a, a)
    ensures Better(a, b) && Better(b, c) ==> Better(a, c)
    ensures !Better(a, b) && !Better(b, c) ==> !Better(a, c)
  {
  }

  class PDLoadView {
    var engines: seq<EngineLoad>

    constructor ()
      ensures engines == []
    {
      engines := [];
    }

    /** Replace the view by the loads that are not stale at the given time. */
    method Update(loads: seq<EngineLoad>, staleMs: int, now: int)
      modifies this
      ensures engines == Collected(Fresh(loads, now, staleMs))
    {
      engines := [];
      for i := 0 to |loads|
        invariant engines == Collected(Fresh(loads[..i], now, staleMs))
      {
        assert loads[..i+1][..i] == loads[..i];
        if now - loads[i].ts <= staleMs {
          engines := Assigned(engines, loads[i]);
        }
      }
      assert loads[..|loads|] == loads;
    }

    /** The first best of the eligible engines; none exactly when nobody is eligible. */
    method BestDecode(group: string, watermark: real, maxOffload: int) returns (best: Option<EngineLoad>)
      ensures best.None? <==> forall k :: 0 <= k < |engines| ==> !CanTake(engines[k], group, watermark, maxOffload)
      ensures best.Some? ==>
        (exists b :: 0 <= b < |engines| && engines[b] == best.value
                     && FirstLeastLoaded(engines, group, watermark, maxOffload, b))
      ensures best.Some? ==>
        (exists b :: 0 <= b < |engines| && engines[b] == best.value && FirstBest(engines, group, watermark, maxOffload, b))
    {
      hide Better, Eligible, CandidatesUpTo, CanTake, FirstLeastLoaded;
      EligibleCanTake(engines, group, watermark, maxOffload);
      var candidates: seq<EngineLoad> := [];
      ghost var from: seq<nat> := [];
      NoCandidates(engines, group, watermark, maxOffload);
      for k := 0 to |engines|
        invariant CandidatesUpTo(engines, group, watermark, maxOffload, k, candidates, from)
      {
        CandidatesStep(engines, group, watermark, maxOffload, k, candidates, from);
        if Eligible(engines[k], group, watermark, maxOffload) {
          candidates := candidates + [engines[k]];
          from := from + [k];
        }
      }
      CandidatesAll(engines, group, watermark, maxOffload, candidates, from);
      if candidates == [] {
        return None;
      }
      var m := 0;
      BetterIsOrder(candidates[0], candidates[0], candidates[0]);
      for c := 1 to |candidates|
        invariant FirstLeast(candidates, c, m)
      {
        FirstLeastStep(candidates, c, m);
        if Better(candidates[c], candidates[m]) {
          m := c;
        }
      }
      FirstCandidateIsBest(engines, group, watermark, maxOffload, candidates, from, m);
      ghost var b := from[m];
      assert FirstBest(engines, group, watermark, maxOffload, b);
      BestIsLeastLoaded(engines, group, watermark, maxOffload, b);
      return Some(candidates[m]);
    }
  }

  /** Eligible, no worse than any eligible one, and better than those before it. */
  ghost predicate FirstBest(engines: seq<EngineLoad>, group: string, watermark: real, maxOffload: int, b: int)
    requires 0 <= b < |engines|
  {
    && Eligible(engines[b], group, watermark, maxOffload)
    && forall k :: 0 <= k < |engines| && Eligible(engines[k], group, watermark, maxOffload) ==>
         !Better(engines[k], engines[b]) && (k < b ==> Better(engines[b], engines[k]))
  }

  /** Of this group, takes decode work, has cache left below the watermark and offloaded tokens below the limit. */
  ghost predicate CanTake(l: EngineLoad, group: string, watermark: real, maxOffload: int) {
    && l.group == group && l.role in {"decode", "both"}
    && !(l.kvCacheUsage >= watermark) && !(l.prefillTokensInDecode >= maxOffload)
  }

  /**
   Among those that can take the work: nobody has fewer offloaded tokens; of those with as
   many, nobody has fewer tokens; of those, nobody has a smaller weighted request count; of
   those, nobody uses less cache; and of those that are alike in all four it is the first.
   */
  ghost predicate FirstLeastLoaded(engines: seq<EngineLoad>, group: string, watermark: real, maxOffload: int, b: int)
    requires 0 <= b < |engines|
  {
    && CanTake(engines[b], group, watermark, maxOffload)
    && forall k :: 0 <= k < |engines| && CanTake(engines[k], group, watermark, maxOffload) ==> NotAbove(engines, b, k)
  }

  ghost predicate NotAbove(engines: seq<EngineLoad>, b: int, k: int)
    requires 0 <= b < |engines| && 0 <= k < |engines|
  {
    var x, y := engines[b], engines[k];
    && x.prefillTokensInDecode <= y.prefillTokensInDecode
    && (x.prefillTokensInDecode == y.prefillTokensInDecode ==>
          && x.waitingTokens + x.runningTokens <= y.waitingTokens + y.runningTokens
          && (x.waitingTokens + x.runningTokens == y.waitingTokens + y.runningTokens ==>
                && 4 * x.waitingReqs + x.runningReqs <= 4 * y.waitingReqs + y.runningReqs
                && (4 * x.waitingReqs + x.runningReqs == 4 * y.waitingReqs + y.runningReqs ==>
                      && x.kvCacheUsage <= y.kvCacheUsage
                      && (x.kvCacheUsage == y.kvCacheUsage ==> b <= k))))
  }

  lemma EligibleCanTake(engines: seq<EngineLoad>, group: string, watermark: real, maxOffload: int)
    ensures forall k :: 0 <= k < |engines| ==>
      (Eligible(engines[k], group, watermark, maxOffload) <==> CanTake(engines[k], group, watermark, maxOffload))
  {
  }

  lemma BestIsLeastLoaded(engines: seq<EngineLoad>, group: string, watermark: real, maxOffload: int, b: int)
    requires 0 <= b < |engines| && FirstBest(engines, group, watermark, maxOffload, b)
    ensures FirstLeastLoaded(engines, group, watermark, maxOffload, b)
  {
    hide Eligible, CanTake;
    EligibleCanTake(engines, group, watermark, maxOffload);
    forall k | 0 <= k < |engines| && CanTake(engines[k], group, watermark, maxOffload) ensures NotAbove(engines, b, k) {
      assert Eligible(engines[k], group, watermark, maxOffload);
    }
  }

  /** candidates[c] is engines[from[c]]: the eligible ones among the first n, in order. */
  ghost predicate CandidatesUpTo(
    engines: seq<EngineLoad>, group: string, watermark: real, maxOffload: int, n: nat,
    candidates: seq<EngineLoad>, from: seq<nat>)
  {
    && n <= |engines| && |from| == |candidates|
    && (forall c :: 0 <= c < |from| ==>
          from[c] < n && engines[from[c]] == candidates[c] && Eligible(candidates[c], group, watermark, maxOffload))
    && (forall c, d :: 0 <= c < d < |from| ==> from[c] < from[d])
    && (forall k: nat :: k < n && Eligible(engines[k], group, watermark, maxOffload) ==> k in from)
  }

  lemma NoCandidates(engines: seq<EngineLoad>, group: string, watermark: real, maxOffload: int)
    ensures CandidatesUpTo(engines, group, watermark, maxOffload, 0, [], [])
  {
  }

  lemma CandidatesStep(
    engines: seq<EngineLoad>, group: string, watermark: real, maxOffload: int, n: nat,
    candidates: seq<EngineLoad>, from: seq<nat>)
    requires n < |engines| && CandidatesUpTo(engines, group, watermark, maxOffload, n, candidates, from)
    ensures
      if Eligible(engines[n], group, watermark, maxOffload) then
        CandidatesUpTo(engines, group, watermark, maxOffload, n + 1, candidates + [engines[n]], from + [n])
      else CandidatesUpTo(engines, group, watermark, maxOffload, n + 1, candidates, from)
  {
    hide Eligible;
  }

  lemma CandidatesAll(
    engines: seq<EngineLoad>, group: string, watermark: real, maxOffload: int,
    candidates: seq<EngineLoad>, from: seq<nat>)
    requires CandidatesUpTo(engines, group, watermark, maxOffload, |engines|, candidates, from)
    ensures candidates == [] <==> forall k :: 0 <= k < |engines| ==> !Eligible(engines[k], group, watermark, maxOffload)
  {
    hide Eligible;
    if candidates != [] {
      assert Eligible(engines[from[0]], group, watermark, maxOffload);
    }
  }

  /** Candidate m is the first least one of the first n. */
  ghost predicate FirstLeast(candidates: seq<EngineLoad>, n: nat, m: nat) {
    && m < n <= |candidates|
    && (forall d :: 0 <= d < n ==> !Better(candidates[d], candidates[m]))
    && (forall d :: 0 <= d < m ==> Better(candidates[m], candidates[d]))
  }

  lemma FirstLeastStep(candidates: seq<EngineLoad>, n: nat, m: nat)
    requires n < |candidates| && FirstLeast(candidates, n, m)
    ensures FirstLeast(candidates, n + 1, if Better(candidates[n], candidates[m]) then n else m)
  {
    hide Better;
    BetterIsOrder(candidates[n], candidates[n], candidates[n]);
    if Better(candidates[n], candidates[m]) {
      forall d | 0 <= d < n ensures Better(candidates[n], candidates[d]) && !Better(candidates[d], candidates[n]) {
        BetterIsOrder(candidates[n], candidates[m], candidates[d]);
        BetterIsOrder(candidates[n], candidates[d], candidates[m]);
        BetterIsOrder(candidates[n], candidates[d], candidates[n]);
      }
    }
  }

  lemma FirstCandidateIsBest(
    engines: seq<EngineLoad>, group: string, watermark: real, maxOffload: int,
    candidates: seq<EngineLoad>, from: seq<nat>, m: nat)
    requires CandidatesUpTo(engines, group, watermark, maxOffload, |engines|, candidates, from)
    requires candidates != [] && FirstLeast(candidates, |candidates|, m)
    ensures m < |from| == |candidates| && from[m] < |engines| && engines[from[m]] == candidates[m]
    ensures FirstBest(engines, group, watermark, maxOffload, from[m])
  {
    hide Better, Eligible;
    forall k | 0 <= k < |engines| && Eligible(engines[k], group, watermark, maxOffload)
      ensures !Better(engines[k], engines[from[m]]) && (k < from[m] ==> Better(engines[from[m]], engines[k]))
    {
      var c :| 0 <= c < |from| && from[c] == k;
      assert engines[k] == candidates[c];
    }
  }
}
