/** The patched scheduler and the output object it edits in place. */
module OffloadScheduler {
  import opened BatchViews
  import opened HoldRestore
  import opened OffloadState

  class SchedulerOutput {
    var main: LaneView
    var prefill: LaneView
    var finishedReqIds: set<ReqId>
    var prefillRequestIds: set<ReqId>
    var prefillRequestNotPut: set<ReqId>

    ghost function View(): Output
      reads this
    {
      Output(main, prefill, finishedReqIds, prefillRequestIds, prefillRequestNotPut)
    }

    method EmptyPrefillFields()
      modifies this
      ensures View() == EmptyPrefill(old(View()))
    {
      prefill := EMPTY_VIEW;
      prefillRequestIds, prefillRequestNotPut := {}, {};
    }
  }

  method SumOfTokens(m: map<ReqId, int>) returns (total: int)
    ensures total == SumTokens(m)
  {
    total := 0;
    var left := m;
    while left != map[]
      invariant total + SumTokens(left) == SumTokens(m)
      decreases |left|
    {
      var r :| r in left;
      SumTokensTake(left, r);
      total := total + left[r];
      left := left - {r};
    }
  }

  class Scheduler {
    const useAsyncOffload: bool
    const decodeSide: bool
    const asyncThreshold: nat
    var requests: map<ReqId, Request>
    var running: seq<ReqId>
    var asyncOffloadInflightReqIds: set<ReqId>
    var asyncOffloadInflightTokens: map<ReqId, int>
    var asyncOffloadContinuingReqIds: set<ReqId>
    var prefillReqsInDecodeBatch: set<ReqId>
    var prefillTokensInDecode: int
    var batchInfos: seq<SchedulerOutput>

    ghost function State(): Sched
      reads this
    {
      Sched(requests, running, asyncOffloadInflightReqIds, asyncOffloadInflightTokens,
            asyncOffloadContinuingReqIds, prefillReqsInDecodeBatch, prefillTokensInDecode)
    }

    constructor (useAsyncOffload: bool, decodeSide: bool, asyncThreshold: nat)
      ensures State() == Sched(map[], [], {}, map[], {}, {}, 0) && batchInfos == []
      ensures this.useAsyncOffload == useAsyncOffload && this.decodeSide == decodeSide
      ensures this.asyncThreshold == asyncThreshold
    {
      this.useAsyncOffload := useAsyncOffload;
      this.decodeSide := decodeSide;
      this.asyncThreshold := asyncThreshold;
      requests, running := map[], [];
      asyncOffloadInflightReqIds, asyncOffloadInflightTokens := {}, map[];
      asyncOffloadContinuingReqIds, prefillReqsInDecodeBatch := {}, {};
      prefillTokensInDecode, batchInfos := 0, [];
    }

    method HoldInflight() returns (skipped: Skipped)
      modifies this`running
      ensures skipped == SkippedFrom(old(running), asyncOffloadInflightReqIds, 0)
      ensures running == Kept(old(running), asyncOffloadInflightReqIds)
    {
      if asyncOffloadInflightReqIds == {} {
        NothingHeld(running, 0);
        return [];
      }
      skipped := [];
      var keptRunning: seq<ReqId> := [];
      for index := 0 to |running|
        invariant skipped + SkippedFrom(running, asyncOffloadInflightReqIds, index)
          == SkippedFrom(running, asyncOffloadInflightReqIds, 0)
        invariant keptRunning + Kept(running[index..], asyncOffloadInflightReqIds)
          == Kept(running, asyncOffloadInflightReqIds)
      {
        ghost var rest := running[index..];
        assert rest[0] == running[index] && rest[1..] == running[index+1..];
        if running[index] in asyncOffloadInflightReqIds {
          skipped := skipped + [(index, running[index])];
        } else {
          keptRunning := keptRunning + [running[index]];
        }
      }
      assert running[|running|..] == [];
      running := keptRunning;
    }

    method RestoreInflight(skipped: Skipped)
      requires AscendingPositions(skipped)
      modifies this`running
      ensures running == Restored(old(running), skipped, requests.Keys)
    {
      for k := 0 to |skipped|
        invariant Restored(running, skipped[k..], requests.Keys) == Restored(old(running), skipped, requests.Keys)
      {
        var (index, r) := skipped[k];
        assert skipped[k..][0] == skipped[k] && skipped[k..][1..] == skipped[k+1..];
        if r !in requests || r in running {
          continue;
        }
        var p := if index < |running| then index else |running|;
        running := running[..p] + [r] + running[p..];
      }
    }

    method StartCounts(view: LaneView) returns (starts: map<ReqId, int>)
      ensures starts == StartTokens(view)
    {
      starts := map[];
      for i := 0 to |view.newReqs|
        invariant starts == NewStarts(view.newReqs[..i])
      {
        assert view.newReqs[..i+1][..i] == view.newReqs[..i];
        starts := starts[view.newReqs[i].reqId := view.newReqs[i].numComputedTokens];
      }
      assert view.newReqs[..|view.newReqs|] == view.newReqs;
      ghost var fromNew := starts;
      var c := view.cachedReqs;
      for i := 0 to ZipLength(c)
        invariant starts == fromNew + CachedStarts(c, i)
      {
        starts := starts[c.reqIds[i] := c.numComputedTokens[i]];
      }
    }

    method SelectAsyncOffloadRequests(output: SchedulerOutput) returns (offloadReqIds: set<ReqId>)
      ensures offloadReqIds == Selected(State(), output.main, asyncThreshold)
    {
      offloadReqIds := {};
      var starts := StartCounts(output.main);
      var todo := output.main.numScheduledTokens.Keys;
      while todo != {}
        invariant todo <= output.main.numScheduledTokens.Keys
        invariant offloadReqIds == Selected(State(), output.main, asyncThreshold) - todo
        decreases todo
      {
        var r :| r in todo;
        todo := todo - {r};
        if r !in requests || r !in starts {
          continue;
        }
        var request, start := requests[r], starts[r];
        if PromptTokensScheduled(request, start, output.main.numScheduledTokens[r]) == 0 {
          continue;
        }
        var remaining := PromptTokensRemaining(request, start);
        if r in asyncOffloadInflightReqIds || r in asyncOffloadContinuingReqIds || remaining >= asyncThreshold {
          offloadReqIds := offloadReqIds + {r};
        }
      }
    }

    method MoveRequestsToPrefillOutput(output: SchedulerOutput, offloadReqIds: set<ReqId>)
      requires Aligned(output.main.cachedReqs)
      modifies output, this`asyncOffloadInflightReqIds, this`asyncOffloadInflightTokens,
        this`asyncOffloadContinuingReqIds, this`prefillReqsInDecodeBatch
      ensures output.View() == MovedOut(old(output.View()), offloadReqIds)
      ensures State() == Recorded(old(State()), output.prefill.numScheduledTokens)
    {
      var v := output.main;
      var newReqs := NewReqsWhere(v.newReqs, offloadReqIds, true);
      var _, cached := SplitByAppending(v.cachedReqs, offloadReqIds);
      var tokens, movedTokens := SplitMapping(v.numScheduledTokens, offloadReqIds);
      var spec, movedSpec := SplitMapping(v.specDecodeTokens, offloadReqIds);
      var encoder, movedEncoder := SplitMapping(v.encoderInputs, offloadReqIds);
      var total := SumOfTokens(movedTokens);
      output.main := v.(numScheduledTokens := tokens, specDecodeTokens := spec, encoderInputs := encoder);
      output.prefill := LaneView(newReqs, cached, movedTokens, total, movedSpec, movedEncoder, v.numCommonPrefixBlocks);
      output.prefillRequestIds := movedTokens.Keys;
      output.prefillRequestNotPut := movedTokens.Keys;

      asyncOffloadInflightReqIds := asyncOffloadInflightReqIds + output.prefillRequestIds;
      asyncOffloadInflightTokens := asyncOffloadInflightTokens + output.prefill.numScheduledTokens;
      asyncOffloadContinuingReqIds := asyncOffloadContinuingReqIds + output.prefillRequestIds;
      prefillReqsInDecodeBatch := prefillReqsInDecodeBatch + output.prefillRequestIds;
    }

    method MovePrefillOutputBack(output: SchedulerOutput)
      modifies output
      ensures output.View() == MovedBack(old(output.View()))
    {
      var m, p := output.main, output.prefill;
      output.main := LaneView(
        m.newReqs + p.newReqs,
        MergeCached(m.cachedReqs, p.cachedReqs),
        m.numScheduledTokens + p.numScheduledTokens,
        m.totalNumScheduledTokens,
        m.specDecodeTokens + p.specDecodeTokens,
        m.encoderInputs + p.encoderInputs,
        p.numCommonPrefixBlocks);
    }

    method RefreshAsyncOffloadPressure(output: SchedulerOutput)
      modifies this`asyncOffloadInflightReqIds, this`asyncOffloadInflightTokens,
        this`asyncOffloadContinuingReqIds, this`prefillReqsInDecodeBatch, this`prefillTokensInDecode
      ensures State() == Refreshed(old(State()), output.finishedReqIds)
    {
      var activeReqIds := requests.Keys;
      var stale := output.finishedReqIds + (asyncOffloadInflightReqIds - activeReqIds);
      asyncOffloadInflightReqIds := asyncOffloadInflightReqIds - stale;
      asyncOffloadInflightTokens := asyncOffloadInflightTokens - stale;
      asyncOffloadContinuingReqIds := asyncOffloadContinuingReqIds * (activeReqIds - output.finishedReqIds);
      prefillReqsInDecodeBatch := prefillReqsInDecodeBatch * asyncOffloadInflightReqIds;
      prefillTokensInDecode := SumOfTokens(asyncOffloadInflightTokens);
    }

    method MarkAsyncPrefillFinished(finishedPrefillReqs: set<ReqId>)
      modifies this`asyncOffloadInflightReqIds, this`asyncOffloadInflightTokens,
        this`asyncOffloadContinuingReqIds, this`prefillReqsInDecodeBatch, this`prefillTokensInDecode
      ensures State() == Released(old(State()), finishedPrefillReqs)
    {
      if finishedPrefillReqs == {} {
        return;
      }
      ghost var before := State();
      var todo := finishedPrefillReqs;
      while todo != {}
        invariant todo <= finishedPrefillReqs
        invariant asyncOffloadInflightReqIds == before.inflight - (finishedPrefillReqs - todo)
        invariant asyncOffloadInflightTokens == before.inflightTokens - (finishedPrefillReqs - todo)
        invariant prefillReqsInDecodeBatch == before.inDecodeBatch - (finishedPrefillReqs - todo)
        invariant asyncOffloadContinuingReqIds
          == set r | r in before.continuing && !(r in finishedPrefillReqs - todo && PromptDone(before, r))
        decreases todo
      {
        var r :| r in todo;
        todo := todo - {r};
        asyncOffloadInflightReqIds := asyncOffloadInflightReqIds - {r};
        asyncOffloadInflightTokens := asyncOffloadInflightTokens - {r};
        prefillReqsInDecodeBatch := prefillReqsInDecodeBatch - {r};
        if r !in requests || requests[r].numComputedTokens >= requests[r].numPromptTokens {
          asyncOffloadContinuingReqIds := asyncOffloadContinuingReqIds - {r};
        }
      }
      assert finishedPrefillReqs - todo == finishedPrefillReqs;
      prefillTokensInDecode := SumOfTokens(asyncOffloadInflightTokens);
    }

    /** schedule(): base is what the base scheduler leaves behind, output what it returned. */
    method Schedule(base: BaseSchedule, output: SchedulerOutput)
      requires Aligned(output.main.cachedReqs)
      modifies this, output
      ensures (State(), output.View())
        == Scheduled(old(State()), base, old(output.View()), useAsyncOffload && decodeSide, asyncThreshold)
      ensures batchInfos == old(batchInfos) + [output]
    {
      SkippedShape(running, asyncOffloadInflightReqIds, 0);
      hide Refreshed, Recorded, MovedOut, EmptyPrefill, Restored, SkippedFrom, Aligned;
      var skipped := HoldInflight();
      running, requests := base.running, base.requests;
      RestoreInflight(skipped);
      assert State() == AfterBase(old(State()), base);
      output.EmptyPrefillFields();
      hide AfterBase, Selected;
      if useAsyncOffload && decodeSide {
        var offloadReqIds := SelectAsyncOffloadRequests(output);
        if offloadReqIds != {} {
          MoveRequestsToPrefillOutput(output, offloadReqIds);
        }
      }
      RefreshAsyncOffloadPressure(output);
      batchInfos := batchInfos + [output];
    }

    /** The part of update_from_output that comes before the base scheduler's own update. */
    method UpdateFromOutput(schedulerOutput: SchedulerOutput, finishedPrefillReqs: set<ReqId>)
      modifies this, schedulerOutput
      ensures State() == Released(old(State()), finishedPrefillReqs)
      ensures schedulerOutput.View() == MovedBack(old(schedulerOutput.View()))
      ensures batchInfos == if old(batchInfos) == [] then [] else old(batchInfos)[1..]
    {
      MarkAsyncPrefillFinished(finishedPrefillReqs);
      if batchInfos != [] {
        batchInfos := batchInfos[1..];
      }
      MovePrefillOutputBack(schedulerOutput);
    }
  }

  lemma {:induction false} NothingHeld(running: seq<ReqId>, n: nat)
    requires n <= |running|
    ensures SkippedFrom(running, {}, n) == [] && Kept(running[n..], {}) == running[n..]
    ensures n == 0 ==> Kept(running, {}) == running
    decreases |running| - n
  {
    if n < |running| {
      NothingHeld(running, n + 1);
      assert running[n..] == [running[n]] + running[n+1..];
    }
    if n == 0 {
      assert running[0..] == running;
    }
  }
}
