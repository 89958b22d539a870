/** What it means to pick some entries of a list and keep their order. */
module Picking {
  ghost predicate Ascends(at: seq<nat>) {
    forall i, j :: 0 <= i < j < |at| ==> at[i] < at[j]
  }

  /** r holds the entries of s at the positions where keep holds, all of them and in order. */
  ghost predicate PicksAt<T>(s: seq<T>, keep: T -> bool, at: seq<nat>, r: seq<T>) {
    && Ascends(at) && |at| == |r|
    && (forall i :: 0 <= i < |at| ==> at[i] < |s| && keep(s[at[i]]) && r[i] == s[at[i]])
    && (forall k :: 0 <= k < |s| && keep(s[k]) ==> k in at)
  }

  ghost predicate Picks<T>(s: seq<T>, keep: T -> bool, r: seq<T>) {
    exists at: seq<nat> :: PicksAt(s, keep, at, r)
  }

  lemma PicksNothing<T>(keep: T -> bool)
    ensures Picks([], keep, [])
  {
    var at: seq<nat> := [];
    assert PicksAt([], keep, at, []);
  }

  /** One more entry is picked or left out. */
  lemma PicksOneMore<T>(s: seq<T>, keep: T -> bool, r: seq<T>, x: T)
    requires Picks(s, keep, r)
    ensures Picks(s + [x], keep, if keep(x) then r + [x] else r)
  {
    var at: seq<nat> :| PicksAt(s, keep, at, r);
    if keep(x) {
      PicksLast(s, keep, at, r, x);
    } else {
      assert PicksAt(s + [x], keep, at, r);
    }
  }

  lemma PicksLast<T>(s: seq<T>, keep: T -> bool, at: seq<nat>, r: seq<T>, x: T)
    requires PicksAt(s, keep, at, r) && keep(x)
    ensures PicksAt(s + [x], keep, at + [|s|], r + [x])
  {
    var all, at' := s + [x], at + [|s|];
    forall k | 0 <= k < |all| && keep(all[k]) ensures k in at' {
      if k < |s| {
        assert keep(s[k]) && k in at;
      } else {
        assert at'[|at|] == k;
      }
    }
  }

  /** What is picked from s + [x] ends in x or is picked from s. */
  lemma PicksOneLess<T>(s: seq<T>, keep: T -> bool, r: seq<T>, x: T)
    requires Picks(s + [x], keep, r)
    ensures if keep(x) then r != [] && r[|r|-1] == x && Picks(s, keep, r[..|r|-1]) else Picks(s, keep, r)
  {
    hide PicksAt;
    var at: seq<nat> :| PicksAt(s + [x], keep, at, r);
    if keep(x) {
      LastPosition(s, keep, at, r, x);
      assert PicksAt(s, keep, at[..|at|-1], r[..|r|-1]);
    } else {
      NotLast(s, keep, at, r, x);
    }
  }

  lemma NotLast<T>(s: seq<T>, keep: T -> bool, at: seq<nat>, r: seq<T>, x: T)
    requires PicksAt(s + [x], keep, at, r) && !keep(x)
    ensures PicksAt(s, keep, at, r)
  {
    var all := s + [x];
    forall i | 0 <= i < |at| ensures at[i] < |s| && keep(s[at[i]]) && r[i] == s[at[i]] {
      assert keep(all[at[i]]);
    }
    forall k | 0 <= k < |s| && keep(s[k]) ensures k in at {
      assert all[k] == s[k];
    }
  }

  lemma LastPosition<T>(s: seq<T>, keep: T -> bool, at: seq<nat>, r: seq<T>, x: T)
    requires PicksAt(s + [x], keep, at, r) && keep(x)
    ensures r != [] && |at| == |r| && r[|r|-1] == x && PicksAt(s, keep, at[..|at|-1], r[..|r|-1])
  {
    var all, n := s + [x], |s|;
    assert all[n] == x;
    var last :| 0 <= last < |at| && at[last] == n;
    var i := |at| - 1;
    assert at[last] <= at[i];
    var at' := at[..i];
    forall k | 0 <= k < i ensures at'[k] < n && keep(s[at'[k]]) && r[k] == s[at'[k]] {
      assert at[k] < at[i] && keep(all[at[k]]);
    }
    forall k | 0 <= k < n && keep(s[k]) ensures k in at' {
      assert all[k] == s[k];
      var m :| 0 <= m < |at| && at[m] == k;
      assert m < i && at'[m] == k;
    }
  }

  /** There is only one way to pick. */
  lemma {:induction false} PicksSame<T>(s: seq<T>, keep: T -> bool, r: seq<T>, r': seq<T>)
    requires Picks(s, keep, r) && Picks(s, keep, r')
    ensures r == r'
    decreases |s|
  {
    hide Picks;
    if s == [] {
      NothingPicked(keep, r);
      NothingPicked(keep, r');
    } else {
      var n := |s| - 1;
      assert s == s[..n] + [s[n]];
      PicksOneLess(s[..n], keep, r, s[n]);
      PicksOneLess(s[..n], keep, r', s[n]);
      if keep(s[n]) {
        PicksSame(s[..n], keep, r[..|r|-1], r'[..|r'|-1]);
        assert r == r[..|r|-1] + [s[n]] && r' == r'[..|r'|-1] + [s[n]];
      } else {
        PicksSame(s[..n], keep, r, r');
      }
    }
  }

  function First(at: seq<nat>): nat {
    if at == [] then 0 else at[0]
  }

  lemma NothingPicked<T>(keep: T -> bool, r: seq<T>)
    requires Picks([], keep, r)
    ensures r == []
  {
    var none: seq<T> := [];
    var at: seq<nat> :| PicksAt(none, keep, at, r);
    assert at != [] ==> First(at) < |none|;
  }

  /** Every entry is picked as often as it occurs, or not at all. */
  lemma {:induction false} PicksCount<T>(s: seq<T>, keep: T -> bool, r: seq<T>, x: T)
    requires Picks(s, keep, r)
    ensures multiset(r)[x] == if keep(x) then multiset(s)[x] else 0
    decreases |s|
  {
    hide Picks;
    if s == [] {
      NothingPicked(keep, r);
    } else {
      var n := |s| - 1;
      assert s == s[..n] + [s[n]];
      PicksOneLess(s[..n], keep, r, s[n]);
      if keep(s[n]) {
        PicksCount(s[..n], keep, r[..|r|-1], x);
        assert r == r[..|r|-1] + [s[n]];
      } else {
        PicksCount(s[..n], keep, r, x);
      }
    }
  }
}
