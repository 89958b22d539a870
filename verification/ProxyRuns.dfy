/**
 Runs as the proxy makes them: from the constructor's idle servers, selects with positive
 scores, and releases that give back the score of one earlier select, each at most once.
 */
module ProxyRuns {
  import opened Wrappers
  import opened Heapq
  import opened ProxyPool
  import opened ProxyReleases

  /** The selects not yet released, of tokens and of kv cache, each with the server it chose. */
  datatype Proxy = Proxy(pool: Pool, owed: multiset<(nat, real)>, owedKv: multiset<(nat, real)>)

  /** What is owed are positive scores of servers of the pool. */
  ghost predicate OwedBy(owed: multiset<(nat, real)>, size: nat) {
    forall x :: x in owed ==> x.0 < size && x.1 > 0.0
  }

  ghost predicate Sound(role: Role, y: Proxy) {
    && Mirrors(role, y.pool)
    && OwedBy(y.owed, |y.pool.loads|) && OwedBy(y.owedKv, |y.pool.loads|)
  }

  ghost predicate Enabled(role: Role, y: Proxy, e: Event) {
    match e
    case Select(tokens) => tokens > 0.0
    case Release(server, tokens) => (server, tokens) in y.owed
    case ReleaseKv(server, tokens) => role.Prefiller? && (server, tokens) in y.owedKv
  }

  ghost function Next(role: Role, y: Proxy, e: Event): Proxy
    requires Sound(role, y) && Enabled(role, y, e)
  {
    match e
    case Select(tokens) =>
      var (chosen, pool) := Selected(role, y.pool, tokens);
      if chosen.None? then y
      else
        Proxy(pool, y.owed + multiset{(chosen.value, tokens)},
              if role.Prefiller? then y.owedKv + multiset{(chosen.value, tokens)} else y.owedKv)
    case Release(server, tokens) =>
      y.(pool := Released(role, y.pool, server, tokens), owed := y.owed - multiset{(server, tokens)})
    case ReleaseKv(server, tokens) =>
      y.(pool := ReleasedKv(y.pool, server, tokens), owedKv := y.owedKv - multiset{(server, tokens)})
  }

  /** One event of a run is one step of the pool. */
  lemma NextIsStep(role: Role, y: Proxy, e: Event)
    requires Sound(role, y) && Enabled(role, y, e)
    ensures Allowed(role, y.pool, e) && Next(role, y, e).pool == Step(role, y.pool, e)
  {
  }

  lemma OwedMore(owed: multiset<(nat, real)>, x: (nat, real), size: nat)
    requires OwedBy(owed, size) && x.0 < size && x.1 > 0.0
    ensures OwedBy(owed + multiset{x}, size)
  {
  }

  lemma OwedLess(owed: multiset<(nat, real)>, x: (nat, real), size: nat)
    requires OwedBy(owed, size)
    ensures OwedBy(owed - multiset{x}, size)
  {
  }

  lemma NextIsSound(role: Role, y: Proxy, e: Event)
    requires Sound(role, y) && Enabled(role, y, e)
    ensures Sound(role, Next(role, y, e)) && |Next(role, y, e).pool.loads| == |y.pool.loads|
  {
    NextIsStep(role, y, e);
    StepKeepsMirror(role, y.pool, e);
    hide Mirrors, Reprioritised, Pop, Step, OwedBy;
    match e {
      case Select(tokens) =>
        if y.pool.heap != [] {
          EntryServer(role, y.pool, 0);
          OwedMore(y.owed, (y.pool.heap[0].server, tokens), |y.pool.loads|);
          OwedMore(y.owedKv, (y.pool.heap[0].server, tokens), |y.pool.loads|);
        }
      case Release(server, tokens) => OwedLess(y.owed, (server, tokens), |y.pool.loads|);
      case ReleaseKv(server, tokens) => OwedLess(y.owedKv, (server, tokens), |y.pool.loads|);
    }
  }

  /** The proxy after a run from idle servers; None when one of the events is not possible. */
  ghost function After(role: Role, n: nat, events: seq<Event>): (y: Option<Proxy>)
    ensures y.Some? ==> Sound(role, y.value) && |y.value.pool.loads| == n
  {
    if events == [] then
      IdleIsOrdered(role, n);
      Some(Proxy(Idle(n), multiset{}, multiset{}))
    else
      match After(role, n, events[..|events|-1])
      case None => None
      case Some(y) =>
        var e := events[|events|-1];
        if Enabled(role, y, e) then
          NextIsSound(role, y, e);
          Some(Next(role, y, e))
        else None
  }

  lemma AfterOneMore(role: Role, n: nat, events: seq<Event>, e: Event)
    requires After(role, n, events).Some? && Enabled(role, After(role, n, events).value, e)
    ensures After(role, n, events + [e]) == Some(Next(role, After(role, n, events).value, e))
  {
    assert (events + [e])[..|events|] == events;
  }

  // ---------------------------------------------------------------- loads are what is owed

  function Share(x: (nat, real), server: nat): real {
    if x.0 == server then x.1 else 0.0
  }

  /** What is owed at one server. */
  ghost function Owing(owed: multiset<(nat, real)>, server: nat): real
    decreases |owed|
  {
    if owed == multiset{} then 0.0
    else
      var x :| x in owed;
      Share(x, server) + Owing(owed - multiset{x}, server)
  }

  /** In whatever order it is added up. */
  lemma {:induction false} OwingTake(owed: multiset<(nat, real)>, x: (nat, real), server: nat)
    requires x in owed
    ensures Owing(owed, server) == Share(x, server) + Owing(owed - multiset{x}, server)
    decreases |owed|
  {
    var q :| q in owed && Owing(owed, server) == Share(q, server) + Owing(owed - multiset{q}, server);
    if q != x {
      OwingTake(owed - multiset{q}, x, server);
      OwingTake(owed - multiset{x}, q, server);
      assert owed - multiset{q} - multiset{x} == owed - multiset{x} - multiset{q};
    }
  }

  lemma OwingMore(owed: multiset<(nat, real)>, x: (nat, real), server: nat)
    ensures Owing(owed + multiset{x}, server) == Owing(owed, server) + Share(x, server)
  {
    OwingTake(owed + multiset{x}, x, server);
    assert owed + multiset{x} - multiset{x} == owed;
  }

  lemma {:induction false} OwingPositive(owed: multiset<(nat, real)>, size: nat, server: nat)
    requires OwedBy(owed, size)
    ensures Owing(owed, server) >= 0.0
    decreases |owed|
  {
    if owed != multiset{} {
      var x :| x in owed;
      OwingTake(owed, x, server);
      OwingPositive(owed - multiset{x}, size, server);
      assert Share(x, server) >= 0.0;
    }
  }

  /** Every server carries exactly the tokens, and a prefiller the cache, of the selects that are still owed there. */
  ghost predicate CarriesOwed(role: Role, y: Proxy) {
    forall i: nat :: i < |y.pool.loads| ==> CarriesAt(role, y, i)
  }

  ghost predicate CarriesAt(role: Role, y: Proxy, i: nat)
    requires i < |y.pool.loads|
  {
    y.pool.loads[i] == Load(Owing(y.owed, i), if role.Prefiller? then Owing(y.owedKv, i) else 0.0)
  }

  /** What a select changes: the root's server gains a load, and its score is owed. */
  lemma NextSelect(role: Role, y: Proxy, tokens: real)
    requires Sound(role, y) && Enabled(role, y, Select(tokens)) && y.pool.heap != []
    ensures y.pool.heap[0].server < |y.pool.loads|
    ensures
      var s, z := y.pool.heap[0].server, Next(role, y, Select(tokens));
      && z.pool.loads == y.pool.loads[s := Added(role, y.pool.loads[s], tokens)]
      && z.owed == y.owed + multiset{(s, tokens)}
      && (role.Prefiller? ==> z.owedKv == y.owedKv + multiset{(s, tokens)})
  {
    hide Mirrors, Pop, Without, Push, OwedBy;
    EntryServer(role, y.pool, 0);
    PopIsRoot(y.pool.heap);
  }

  lemma PopIsRoot(h: seq<Entry>)
    requires h != []
    ensures Pop(h).0 == h[0]
  {
  }

  lemma SelectCarriesOwed(role: Role, y: Proxy, tokens: real)
    requires Sound(role, y) && CarriesOwed(role, y) && Enabled(role, y, Select(tokens))
    ensures CarriesOwed(role, Next(role, y, Select(tokens)))
  {
    if y.pool.heap != [] {
      NextSelect(role, y, tokens);
      hide Next, Sound, Mirrors, CarriesAt;
      var z := Next(role, y, Select(tokens));
      forall i: nat | i < |z.pool.loads| ensures CarriesAt(role, z, i) {
        SelectCarriesAt(role, y, z, (y.pool.heap[0].server, tokens), i);
      }
    }
  }

  lemma SelectCarriesAt(role: Role, y: Proxy, z: Proxy, x: (nat, real), i: nat)
    requires x.0 < |y.pool.loads| && i < |y.pool.loads| && CarriesAt(role, y, i)
    requires z.pool.loads == y.pool.loads[x.0 := Added(role, y.pool.loads[x.0], x.1)]
    requires z.owed == y.owed + multiset{x} && (role.Prefiller? ==> z.owedKv == y.owedKv + multiset{x})
    ensures CarriesAt(role, z, i)
  {
    hide Owing;
    OwingMore(y.owed, x, i);
    OwingMore(y.owedKv, x, i);
  }

  lemma ReleaseCarriesOwed(role: Role, y: Proxy, server: nat, tokens: real)
    requires Sound(role, y) && CarriesOwed(role, y) && Enabled(role, y, Release(server, tokens))
    ensures CarriesOwed(role, Next(role, y, Release(server, tokens)))
  {
    hide Owing, Mirrors, Push, Without;
    var x, z := (server, tokens), Next(role, y, Release(server, tokens));
    forall i: nat | i < |z.pool.loads| ensures CarriesAt(role, z, i) {
      assert CarriesAt(role, y, i);
      OwingTake(y.owed, x, i);
    }
  }

  lemma ReleaseKvCarriesOwed(role: Role, y: Proxy, server: nat, tokens: real)
    requires Sound(role, y) && CarriesOwed(role, y) && Enabled(role, y, ReleaseKv(server, tokens))
    ensures CarriesOwed(role, Next(role, y, ReleaseKv(server, tokens)))
  {
    hide Owing, Mirrors, Push, Without;
    var x, z := (server, tokens), Next(role, y, ReleaseKv(server, tokens));
    OwingTake(y.owedKv, x, server);
    OwingPositive(y.owedKv - multiset{x}, |y.pool.loads|, server);
    assert CarriesAt(role, y, server) && y.pool.loads[server].kv > 0.0;
    forall i: nat | i < |z.pool.loads| ensures CarriesAt(role, z, i) {
      assert CarriesAt(role, y, i);
      OwingTake(y.owedKv, x, i);
    }
  }

  /**
   After every run a server's load is the total of the scores selected onto it and not given
   back; in particular it is idle again once everything has been given back.
   */
  lemma {:induction false} LoadsAreOwed(role: Role, n: nat, events: seq<Event>)
    requires After(role, n, events).Some?
    ensures CarriesOwed(role, After(role, n, events).value)
    decreases |events|
  {
    hide CarriesOwed, Next, Enabled, Sound;
    if events == [] {
      NothingOwed(role, n);
    } else {
      var front, e := events[..|events|-1], events[|events|-1];
      LoadsAreOwed(role, n, front);
      var y := After(role, n, front).value;
      match e {
        case Select(tokens) => SelectCarriesOwed(role, y, tokens);
        case Release(server, tokens) => ReleaseCarriesOwed(role, y, server, tokens);
        case ReleaseKv(server, tokens) => ReleaseKvCarriesOwed(role, y, server, tokens);
      }
    }
  }

  lemma NothingOwed(role: Role, n: nat)
    ensures CarriesOwed(role, Proxy(Idle(n), multiset{}, multiset{}))
  {
  }

  // ---------------------------------------------------------------- up to four servers

  lemma {:induction false} FewServersRootLeast(role: Role, n: nat, events: seq<Event>)
    requires n <= 4 && After(role, n, events).Some?
    ensures RootLeast(After(role, n, events).value.pool.heap)
    decreases |events|
  {
    hide RootLeast, Enabled, Next, Sound;
    if events == [] {
      IdleIsOrdered(role, n);
      HeapRootLeast(Idle(n).heap);
    } else {
      var front, e := events[..|events|-1], events[|events|-1];
      FewServersRootLeast(role, n, front);
      StepOfFew(role, After(role, n, front).value, e);
    }
  }

  lemma StepOfFew(role: Role, y: Proxy, e: Event)
    requires Sound(role, y) && Enabled(role, y, e) && |y.pool.loads| <= 4 && RootLeast(y.pool.heap)
    ensures RootLeast(Next(role, y, e).pool.heap)
  {
    hide RootLeast, Next;
    NextIsStep(role, y, e);
    if e.Select? {
      SelectOfFew(role, y.pool, e.tokens);
      HeapRootLeast(Step(role, y.pool, e).heap);
    } else {
      ReleaseKeepsRootLeast(role, y.pool, e);
    }
  }

  /** After every run the next select takes a server with the least load. */
  ghost predicate AlwaysSelectsLeast(role: Role, n: nat) {
    forall events: seq<Event> :: After(role, n, events).Some? ==> NextIsLeast(role, After(role, n, events).value.pool)
  }

  ghost predicate NextIsLeast(role: Role, p: Pool) {
    p.heap != [] ==> LeastLoaded(role, p.loads, p.heap[0].server)
  }

  lemma FewServersSelectLeastLoaded(role: Role, n: nat)
    requires n <= 4
    ensures AlwaysSelectsLeast(role, n)
  {
    forall events: seq<Event> | After(role, n, events).Some?
      ensures NextIsLeast(role, After(role, n, events).value.pool)
    {
      FewServersRootLeast(role, n, events);
      var p := After(role, n, events).value.pool;
      if p.heap != [] {
        RootDecidesSelection(role, p);
      }
    }
  }
}
