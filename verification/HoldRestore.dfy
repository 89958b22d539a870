/**
 Requests with an offloaded chunk in flight are taken out of the running list while the base
 scheduler runs and put back afterwards.
 */
module HoldRestore {
  import opened BatchViews

  type Skipped = seq<(nat, ReqId)>

  /** The requests that stay in the running list. */
  function Kept(running: seq<ReqId>, inflight: set<ReqId>): (r: seq<ReqId>)
    ensures |r| <= |running|
  {
    if running == [] then []
    else if running[0] in inflight then Kept(running[1..], inflight)
    else [running[0]] + Kept(running[1..], inflight)
  }

  /** The requests taken out, each with its position, from position n on. */
  function SkippedFrom(running: seq<ReqId>, inflight: set<ReqId>, n: nat): Skipped
    requires n <= |running|
    decreases |running| - n
  {
    if n == |running| then []
    else if running[n] in inflight then [(n, running[n])] + SkippedFrom(running, inflight, n + 1)
    else SkippedFrom(running, inflight, n + 1)
  }

  function InsertAt(s: seq<ReqId>, index: nat, r: ReqId): seq<ReqId> {
    var p := if index < |s| then index else |s|;
    s[..p] + [r] + s[p..]
  }

  /** Put each skipped request back at its position, unless it is unknown or already there. */
  function Restored(running: seq<ReqId>, skipped: Skipped, known: set<ReqId>): seq<ReqId>
    decreases |skipped|
  {
    if skipped == [] then running
    else
      var (index, r) := skipped[0];
      if r !in known || r in running then Restored(running, skipped[1..], known)
      else Restored(InsertAt(running, index, r), skipped[1..], known)
  }

  ghost predicate Distinct(s: seq<ReqId>) {
    forall i, j :: 0 <= i < j < |s| ==> s[i] != s[j]
  }

  /** Positions strictly increase, as they do in what SkippedFrom returns. */
  ghost predicate AscendingPositions(skipped: Skipped) {
    forall i, j :: 0 <= i < j < |skipped| ==> skipped[i].0 < skipped[j].0
  }

  // ---------------------------------------------------------------- restore after an append

  /**
   When the base scheduler only appends and every held request is still known, restoring
   gives the original list with the appended requests behind it.
   */
  lemma {:induction false} RestoreAfterAppend(
    running: seq<ReqId>, suffix: seq<ReqId>, inflight: set<ReqId>, known: set<ReqId>, n: nat)
    requires n <= |running| && Distinct(running + suffix)
    requires forall r :: r in running && r in inflight ==> r in known
    ensures Restored(running[..n] + Kept(running[n..], inflight) + suffix, SkippedFrom(running, inflight, n), known)
      == running + suffix
    decreases |running| - n
  {
    var now := running[..n] + Kept(running[n..], inflight) + suffix;
    if n == |running| {
      assert now == running + suffix;
    } else {
      var r, tail := running[n], Kept(running[n+1..], inflight) + suffix;
      var next := running[..n+1] + Kept(running[n+1..], inflight) + suffix;
      assert running[n..][1..] == running[n+1..];
      assert next == running[..n] + [r] + tail;
      RestoreAfterAppend(running, suffix, inflight, known, n + 1);
      if r in inflight {
        assert now == running[..n] + tail;
        assert r !in running[..n] + tail by {
          DistinctParts(running, suffix, n);
          KeptSubset(running[n+1..], inflight);
        }
        InsertOne(running[..n], r, tail, SkippedFrom(running, inflight, n + 1), known);
      } else {
        assert now == next;
      }
    }
  }

  /** One step of restoring: the first skipped request goes between what was before and behind it. */
  lemma InsertOne(front: seq<ReqId>, r: ReqId, back: seq<ReqId>, later: Skipped, known: set<ReqId>)
    requires r in known && r !in front + back
    ensures Restored(front + back, [(|front|, r)] + later, known) == Restored(front + [r] + back, later, known)
  {
    InsertBetween(front, r, back);
    assert ([(|front|, r)] + later)[1..] == later;
  }

  lemma InsertBetween(front: seq<ReqId>, r: ReqId, back: seq<ReqId>)
    ensures InsertAt(front + back, |front|, r) == front + [r] + back
  {
    assert (front + back)[..|front|] == front && (front + back)[|front|..] == back;
  }

  lemma DistinctParts(running: seq<ReqId>, suffix: seq<ReqId>, n: nat)
    requires n < |running| && Distinct(running + suffix)
    ensures running[n] !in running[..n] && running[n] !in running[n+1..] && running[n] !in suffix
  {
    var all := running + suffix;
    assert forall i :: 0 <= i < |suffix| ==> all[|running| + i] == suffix[i];
    assert forall i :: 0 <= i < |running| ==> all[i] == running[i];
  }

  lemma {:induction false} KeptSubset(running: seq<ReqId>, inflight: set<ReqId>)
    ensures forall r :: r in Kept(running, inflight) <==> r in running && r !in inflight
  {
    if running != [] {
      KeptSubset(running[1..], inflight);
    }
  }

  // ---------------------------------------------------------------- restore after anything

  function Where(s: seq<ReqId>, ids: set<ReqId>, inside: bool): seq<ReqId> {
    if s == [] then []
    else if (s[0] in ids) == inside then [s[0]] + Where(s[1..], ids, inside)
    else Where(s[1..], ids, inside)
  }

  lemma {:induction false} WhereConcat(a: seq<ReqId>, b: seq<ReqId>, ids: set<ReqId>, inside: bool)
    ensures Where(a + b, ids, inside) == Where(a, ids, inside) + Where(b, ids, inside)
  {
    if a == [] {
      assert a + b == b;
    } else {
      assert (a + b)[1..] == a[1..] + b;
      WhereConcat(a[1..], b, ids, inside);
    }
  }

  lemma {:induction false} WhereNone(s: seq<ReqId>, ids: set<ReqId>, inside: bool)
    requires forall r :: r in s ==> (r in ids) != inside
    ensures Where(s, ids, inside) == []
  {
    if s != [] {
      WhereNone(s[1..], ids, inside);
    }
  }

  lemma {:induction false} WhereMembers(s: seq<ReqId>, ids: set<ReqId>, inside: bool)
    ensures forall r :: r in Where(s, ids, inside) <==> r in s && (r in ids) == inside
    ensures Distinct(s) ==> Distinct(Where(s, ids, inside))
  {
    if s != [] {
      var rest := Where(s[1..], ids, inside);
      WhereMembers(s[1..], ids, inside);
      assert forall i :: 1 <= i < |s| ==> s[1..][i-1] == s[i];
      if Distinct(s) {
        assert s[0] !in rest;
        DistinctPrepend(s[0], rest);
      }
    }
  }

  lemma DistinctPrepend(r: ReqId, s: seq<ReqId>)
    requires r !in s && Distinct(s)
    ensures Distinct([r] + s)
  {
  }

  /** The ids of the skipped requests that are still known, in order. */
  function KnownIds(skipped: Skipped, known: set<ReqId>): seq<ReqId> {
    if skipped == [] then []
    else if skipped[0].1 in known then [skipped[0].1] + KnownIds(skipped[1..], known)
    else KnownIds(skipped[1..], known)
  }

  /** What one insertion behind everything held does to the two projections. */
  lemma InsertKeepsOrder(s: seq<ReqId>, index: nat, r: ReqId, held: set<ReqId>)
    requires r in held
    requires forall q :: 0 <= q < |s| && s[q] in held ==> q < index
    ensures Where(InsertAt(s, index, r), held, false) == Where(s, held, false)
    ensures Where(InsertAt(s, index, r), held, true) == Where(s, held, true) + [r]
  {
    var p := if index < |s| then index else |s|;
    var front, back := s[..p], s[p..];
    forall i | 0 <= i < |back| ensures back[i] !in held {
      assert back[i] == s[p + i];
    }
    hide Where;
    OrderAround(front, r, back, held);
    assert s == front + back;
  }

  lemma OrderAround(front: seq<ReqId>, r: ReqId, back: seq<ReqId>, held: set<ReqId>)
    requires r in held && forall x :: x in back ==> x !in held
    ensures Where(front + [r] + back, held, false) == Where(front + back, held, false)
    ensures Where(front + [r] + back, held, true) == Where(front + back, held, true) + [r]
  {
    hide Where;
    WhereNone(back, held, true);
    WhereInserted(front, r, back, held, false);
    WhereInserted(front, r, back, held, true);
  }

  lemma InsertedHeldPositions(s: seq<ReqId>, index: nat, r: ReqId, held: set<ReqId>)
    requires forall q :: 0 <= q < |s| && s[q] in held ==> q < index
    ensures forall q :: 0 <= q < |InsertAt(s, index, r)| && InsertAt(s, index, r)[q] in held ==> q <= index
  {
    var t := InsertAt(s, index, r);
    forall q | index < q < |t| ensures t[q] !in held {
      assert t[q] == s[q - 1];
    }
  }

  lemma WhereInserted(front: seq<ReqId>, r: ReqId, back: seq<ReqId>, held: set<ReqId>, inside: bool)
    ensures Where(front + back, held, inside) == Where(front, held, inside) + Where(back, held, inside)
    ensures Where(front + [r] + back, held, inside)
      == Where(front, held, inside) + (if (r in held) == inside then [r] else []) + Where(back, held, inside)
  {
    assert Where([r], held, inside) == if (r in held) == inside then [r] else [];
    hide Where;
    WhereConcat(front, back, held, inside);
    WhereConcat(front + [r], back, held, inside);
    WhereConcat(front, [r], held, inside);
  }

  /**
   Whatever the base scheduler does to the others, as long as it schedules no held request:
   nobody is lost or doubled, the others keep their order, and so do the held requests.
   */
  lemma {:induction false} RestoreKeepsOrder(s: seq<ReqId>, skipped: Skipped, held: set<ReqId>, known: set<ReqId>)
    requires AscendingPositions(skipped)
    requires forall i :: 0 <= i < |skipped| ==> skipped[i].1 in held
    requires forall i, j :: 0 <= i < j < |skipped| ==> skipped[i].1 != skipped[j].1
    requires forall i :: 0 <= i < |skipped| ==> skipped[i].1 !in s
    requires skipped != [] ==> forall q :: 0 <= q < |s| && s[q] in held ==> q < skipped[0].0
    ensures Where(Restored(s, skipped, known), held, false) == Where(s, held, false)
    ensures Where(Restored(s, skipped, known), held, true) == Where(s, held, true) + KnownIds(skipped, known)
    decreases |skipped|
  {
    hide Where, InsertAt;
    if skipped != [] {
      var (index, r) := skipped[0];
      var rest := skipped[1..];
      assert forall i :: 0 <= i < |rest| ==> rest[i] == skipped[i + 1];
      if r in known {
        var next := InsertAt(s, index, r);
        InsertKeepsOrder(s, index, r, held);
        InsertedHeldPositions(s, index, r, held);
        InsertMembers(s, index, r);
        forall i | 0 <= i < |rest| ensures rest[i].1 !in next {
          assert rest[i].1 !in ToSet(s) && rest[i].1 != r;
          assert rest[i].1 !in ToSet(next);
        }
        assert rest != [] ==> index < rest[0].0;
        RestoreKeepsOrder(next, rest, held, known);
      } else {
        RestoreKeepsOrder(s, rest, held, known);
      }
    }
  }

  function SkippedIds(skipped: Skipped): set<ReqId> {
    set i | 0 <= i < |skipped| :: skipped[i].1
  }

  lemma SkippedIdsCons(x: (nat, ReqId), rest: Skipped)
    ensures SkippedIds([x] + rest) == {x.1} + SkippedIds(rest)
  {
    var all := [x] + rest;
    assert all[0] == x;
    assert forall i :: 0 <= i < |rest| ==> rest[i] == all[i + 1];
    assert forall i :: 1 <= i < |all| ==> all[i] == rest[i - 1];
  }

  /** Exactly the listed and the known skipped requests are there afterwards, each once. */
  lemma {:induction false} RestoredMembers(s: seq<ReqId>, skipped: Skipped, known: set<ReqId>)
    ensures ToSet(Restored(s, skipped, known)) == ToSet(s) + SkippedIds(skipped) * known
    ensures Distinct(s) ==> Distinct(Restored(s, skipped, known))
    decreases |skipped|
  {
    if skipped != [] {
      var (index, r) := skipped[0];
      var rest := skipped[1..];
      SkippedIdsCons(skipped[0], rest);
      assert skipped == [skipped[0]] + rest;
      if r !in known || r in s {
        RestoredMembers(s, rest, known);
      } else {
        InsertMembers(s, index, r);
        RestoredMembers(InsertAt(s, index, r), rest, known);
      }
    }
  }

  lemma InsertMembers(s: seq<ReqId>, index: nat, r: ReqId)
    ensures ToSet(InsertAt(s, index, r)) == {r} + ToSet(s)
    ensures r !in s && Distinct(s) ==> Distinct(InsertAt(s, index, r))
  {
    var p := if index < |s| then index else |s|;
    assert s == s[..p] + s[p..];
    var t := InsertAt(s, index, r);
    forall q | q in s ensures q in t {
      var i :| 0 <= i < |s| && s[i] == q;
      assert t[if i < p then i else i + 1] == q;
    }
    assert t[p] == r;
  }

  /** What is taken out: held requests at their positions, positions ascending. */
  lemma {:induction false} SkippedShape(running: seq<ReqId>, inflight: set<ReqId>, n: nat)
    requires n <= |running|
    ensures
      forall i :: 0 <= i < |SkippedFrom(running, inflight, n)| ==>
        var (index, r) := SkippedFrom(running, inflight, n)[i];
        n <= index < |running| && running[index] == r && r in inflight
    ensures AscendingPositions(SkippedFrom(running, inflight, n))
    decreases |running| - n
  {
    if n < |running| {
      SkippedShape(running, inflight, n + 1);
    }
  }

  lemma {:induction false} SkippedIdsAre(running: seq<ReqId>, inflight: set<ReqId>, n: nat)
    requires n <= |running|
    ensures SkippedIds(SkippedFrom(running, inflight, n)) == ToSet(running[n..]) * inflight
    decreases |running| - n
  {
    if n < |running| {
      var rest, skipped := SkippedFrom(running, inflight, n + 1), SkippedFrom(running, inflight, n);
      SkippedIdsAre(running, inflight, n + 1);
      assert running[n..] == [running[n]] + running[n+1..];
      if running[n] in inflight {
        SkippedIdsCons((n, running[n]), rest);
      }
    }
  }

  lemma {:induction false} KnownIdsAre(running: seq<ReqId>, inflight: set<ReqId>, known: set<ReqId>, n: nat)
    requires n <= |running|
    ensures KnownIds(SkippedFrom(running, inflight, n), known) == Where(Where(running[n..], inflight, true), known, true)
    decreases |running| - n
  {
    if n < |running| {
      KnownIdsAre(running, inflight, known, n + 1);
      assert running[n..][1..] == running[n+1..];
    }
  }

  lemma {:induction false} WhereAll(s: seq<ReqId>, ids: set<ReqId>, inside: bool)
    requires forall r :: r in s ==> (r in ids) == inside
    ensures Where(s, ids, inside) == s
  {
    if s != [] {
      WhereAll(s[1..], ids, inside);
    }
  }

  /**
   Hold, any base scheduler that lists no held request, restore: the others are exactly the
   base scheduler's list in its order, the held ones exactly those still known in theirs, and
   nobody is listed twice.
   */
  lemma HoldThenRestore(running: seq<ReqId>, base: seq<ReqId>, inflight: set<ReqId>, known: set<ReqId>)
    requires Distinct(running) && Distinct(base)
    requires forall r :: r in base ==> r !in inflight
    ensures
      var restored := Restored(base, SkippedFrom(running, inflight, 0), known);
      && Where(restored, inflight, false) == base
      && Where(restored, inflight, true) == Where(Where(running, inflight, true), known, true)
      && Distinct(restored)
  {
    hide Where, Restored, SkippedFrom, KnownIds, SkippedIds;
    var skipped := SkippedFrom(running, inflight, 0);
    SkippedShape(running, inflight, 0);
    KnownIdsAre(running, inflight, known, 0);
    assert running[0..] == running;
    WhereAll(base, inflight, false);
    WhereNone(base, inflight, true);
    RestoreKeepsOrder(base, skipped, inflight, known);
    RestoredMembers(base, skipped, known);
  }
}
