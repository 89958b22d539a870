/**
 With five servers or more there are runs after which the next select does not take a
 least-loaded server. Three light servers are lined up along the path of the heap's last
 position; releases then move the lightest to where the next pop leaves it below the root.
 */
module ProxyMisselection {
  import opened Wrappers
  import opened Heapq
  import opened ProxyPool
  import opened HeapPaths
  import opened HeapLights
  import opened ProxyRuns
  import ProxyReleases

  type Event = ProxyReleases.Event

  /** Every event is for one of two scores. */
  ghost predicate Scores(events: seq<Event>, u: real, v: real) {
    forall k :: 0 <= k < |events| ==> events[k].tokens == u || events[k].tokens == v
  }

  ghost predicate Reached(role: Role, n: nat, u: real, v: real, y: Proxy) {
    exists events: seq<Event> :: Scores(events, u, v) && After(role, n, events) == Some(y)
  }

  lemma ReachedIsSound(role: Role, n: nat, u: real, v: real, y: Proxy)
    requires Reached(role, n, u, v, y)
    ensures Sound(role, y) && Mirrors(role, y.pool) && |y.pool.loads| == n && |y.pool.heap| == n
  {
    hide Mirrors;
    var events: seq<Event> :| Scores(events, u, v) && After(role, n, events) == Some(y);
    MirrorsSize(role, y.pool);
  }

  lemma ReachedNext(role: Role, n: nat, u: real, v: real, y: Proxy, e: Event)
    requires Reached(role, n, u, v, y) && Sound(role, y) && Enabled(role, y, e) && (e.tokens == u || e.tokens == v)
    ensures Reached(role, n, u, v, Next(role, y, e))
  {
    hide Next, Enabled, Sound;
    var events: seq<Event> :| Scores(events, u, v) && After(role, n, events) == Some(y);
    AfterOneMore(role, n, events, e);
    assert Scores(events + [e], u, v);
  }

  lemma MirrorsDiffers(role: Role, p: Pool)
    requires Mirrors(role, p)
    ensures DifferentServers(p.heap)
  {
    hide Mirrors;
    forall i, j | 0 <= i < j < |p.heap| ensures p.heap[i].server != p.heap[j].server {
      EntryServer(role, p, i);
      var k := ProxyReleases.OneEntryEach(role, p, p.heap[i].server);
    }
  }

  // ---------------------------------------------------------------- one event

  /** What a select does to the pool: the root's server is loaded and its entry renewed. */
  lemma SelectReplaces(role: Role, p: Pool, tokens: real)
    requires Mirrors(role, p) && p.heap != []
    ensures p.heap[0].server < |p.loads|
    ensures
      var s := p.heap[0].server;
      var load := Added(role, p.loads[s], tokens);
      Selected(role, p, tokens)
        == (Some(s), Pool(p.loads[s := load], Replaced(p.heap, Entry(Priority(role, load), s))))
  {
    hide Pop, Push, Mirrors;
    EntryServer(role, p, 0);
    PoppedIsGone(role, p);
  }

  lemma ReleaseRenews(role: Role, p: Pool, k: nat, tokens: real)
    requires Mirrors(role, p) && k < |p.heap|
    ensures p.heap[k].server < |p.loads|
    ensures
      var s := p.heap[k].server;
      var load := GivenBack(p.loads[s], tokens);
      Released(role, p, s, tokens) == Pool(p.loads[s := load], Renewed(p.heap, k, Entry(Priority(role, load), s)))
  {
    hide Push, Mirrors, Renewed;
    EntryServer(role, p, k);
    MirrorsDiffers(role, p);
    var s := p.heap[k].server;
    RenewedIsFilterAndPush(p.heap, k, Entry(Priority(role, GivenBack(p.loads[s], tokens)), s));
  }

  function GivenBack(load: Load, tokens: real): Load {
    load.(tokens := load.tokens - tokens)
  }

  /** Who is at k after one more event, in one statement for selects and releases. */
  ghost predicate Moved(role: Role, n: nat, u: real, v: real, y: Proxy, y': Proxy, k: nat, load: Load, e: Entry) {
    && |y.pool.loads| == n && |y.pool.heap| == n && |y'.pool.heap| == n && k < n && y.pool.heap[k].server < n
    && Reached(role, n, u, v, y')
    && y'.pool.loads == y.pool.loads[y.pool.heap[k].server := load]
    && e == Entry(Priority(role, load), y.pool.heap[k].server)
    && Exchange(y.pool.heap, y'.pool.heap, y.pool.heap[k], e)
  }

  lemma SelectNext(role: Role, n: nat, u: real, v: real, y: Proxy, tokens: real) returns (y': Proxy, load: Load, e: Entry)
    requires Reached(role, n, u, v, y) && n > 0 && tokens > 0.0 && (tokens == u || tokens == v)
    ensures Moved(role, n, u, v, y, y', 0, load, e) && load == Added(role, y.pool.loads[y.pool.heap[0].server], tokens)
    ensures y'.pool.heap == Replaced(y.pool.heap, e)
    ensures y'.owed == y.owed + multiset{(y.pool.heap[0].server, tokens)}
  {
    hide Mirrors, Replaced, Reached, Selected;
    ReachedIsSound(role, n, u, v, y);
    var event := ProxyReleases.Select(tokens);
    SelectReplaces(role, y.pool, tokens);
    ReachedNext(role, n, u, v, y, event);
    y' := Next(role, y, event);
    var s := y.pool.heap[0].server;
    load := Added(role, y.pool.loads[s], tokens);
    e := Entry(Priority(role, load), s);
    ReachedIsSound(role, n, u, v, y');
    MirrorsDiffers(role, y.pool);
    MirrorsDiffers(role, y'.pool);
    ReplacedExchange(y.pool.heap, e);
  }

  lemma ReleaseNext(role: Role, n: nat, u: real, v: real, y: Proxy, k: nat) returns (y': Proxy, load: Load, e: Entry)
    requires Reached(role, n, u, v, y) && k < n == |y.pool.heap| && (y.pool.heap[k].server, u) in y.owed
    ensures Moved(role, n, u, v, y, y', k, load, e) && load == GivenBack(y.pool.loads[y.pool.heap[k].server], u)
    ensures y'.pool.heap == Renewed(y.pool.heap, k, e)
    ensures y'.owed == y.owed - multiset{(y.pool.heap[k].server, u)}
  {
    hide Mirrors, Renewed, Reached, Released;
    ReachedIsSound(role, n, u, v, y);
    var s := y.pool.heap[k].server;
    var event := ProxyReleases.Release(s, u);
    ReleaseRenews(role, y.pool, k, u);
    ReachedNext(role, n, u, v, y, event);
    y' := Next(role, y, event);
    load := GivenBack(y.pool.loads[s], u);
    e := Entry(Priority(role, load), s);
    ReachedIsSound(role, n, u, v, y');
    MirrorsDiffers(role, y.pool);
    MirrorsDiffers(role, y'.pool);
    RenewedExchange(y.pool.heap, k, e);
  }

  // ---------------------------------------------------------------- heavy servers and three light ones

  const IDLE := Load(0.0, 0.0)

  function Heavy(role: Role, v: real): Load {
    Added(role, IDLE, v)
  }

  function Units(role: Role, u: real, k: nat): Load {
    if k == 0 then IDLE else Added(role, Units(role, u, k - 1), u)
  }

  lemma UnitsMore(role: Role, u: real, k: nat)
    requires u > 0.0
    ensures Priority(role, Units(role, u, k)) < Priority(role, Units(role, u, k + 1))
  {
  }

  /** One large score outweighs three small ones. */
  lemma HeavyOutweighs(role: Role, u: real, v: real, k: nat)
    requires 0.0 < 3.0 * u < v && k <= 3
    ensures Priority(role, Units(role, u, k)) < Priority(role, Heavy(role, v))
  {
    assert Units(role, u, 1) == Added(role, Units(role, u, 0), u);
    assert Units(role, u, 2) == Added(role, Units(role, u, 1), u);
    assert Units(role, u, 3) == Added(role, Units(role, u, 2), u);
  }

  lemma UnitsAtLeast(role: Role, u: real, k: nat)
    requires u >= 0.0
    ensures Units(role, u, k).tokens >= 0.0 && Units(role, u, k).kv >= 0.0
  {
  }

  /** All servers but the last three carry one load each. */
  function Loads(n: nat, heavy: Load, lights: seq<Load>): (r: seq<Load>)
    requires |lights| == 3 <= n
    ensures |r| == n
  {
    seq(n, i requires 0 <= i < n => if i < n - 3 then heavy else lights[i - (n - 3)])
  }

  lemma LoadsUpdated(n: nat, heavy: Load, lights: seq<Load>, i: nat, load: Load)
    requires |lights| == 3 <= n && i < 3
    ensures Loads(n, heavy, lights)[n - 3 + i := load] == Loads(n, heavy, lights[i := load])
  {
  }

  /** In heap order the first server with the least load is at the root. */
  lemma RootIs(role: Role, p: Pool, s: nat)
    requires Mirrors(role, p) && IsHeap(p.heap) && LeastLoaded(role, p.loads, s)
    requires forall i :: 0 <= i < s ==> Priority(role, p.loads[s]) < Priority(role, p.loads[i])
    ensures p.heap != [] && p.heap[0].server == s
  {
    hide Mirrors;
    MirrorsSize(role, p);
    HeapRootLeast(p.heap);
    RootDecidesSelection(role, p);
    EntryServer(role, p, 0);
  }

  lemma SelectInOrder(role: Role, n: nat, u: real, v: real, y: Proxy, y': Proxy, load: Load, e: Entry)
    requires Moved(role, n, u, v, y, y', 0, load, e) && IsHeap(y.pool.heap) && y'.pool.heap == Replaced(y.pool.heap, e)
    ensures IsHeap(y'.pool.heap)
  {
    hide IsHeap, Pop, Push;
    PopKeepsHeap(y.pool.heap);
    PushKeepsHeap(Pop(y.pool.heap).1, e);
  }

  function FirstHeavy(role: Role, n: nat, v: real, k: nat): (r: seq<Load>)
    ensures |r| == n
  {
    seq(n, i requires 0 <= i < n => if i < k then Heavy(role, v) else IDLE)
  }

  lemma FirstHeavyNext(role: Role, n: nat, v: real, k: nat)
    requires k < n
    ensures FirstHeavy(role, n, v, k)[k := Added(role, FirstHeavy(role, n, v, k)[k], v)] == FirstHeavy(role, n, v, k + 1)
  {
    var now, next := FirstHeavy(role, n, v, k)[k := Heavy(role, v)], FirstHeavy(role, n, v, k + 1);
    assert FirstHeavy(role, n, v, k)[k] == IDLE;
    assert forall i :: 0 <= i < n ==> now[i] == next[i];
  }

  /** Large selects go to one idle server after another. */
  lemma {:induction false} HeavyReached(role: Role, n: nat, u: real, v: real, k: nat) returns (y: Proxy)
    requires 0.0 < 3.0 * u < v && k <= n
    ensures Reached(role, n, u, v, y) && IsHeap(y.pool.heap) && y.pool.loads == FirstHeavy(role, n, v, k)
    decreases k
  {
    hide Reached, IsHeap, Moved, Replaced;
    if k == 0 {
      IdleReached(role, n, u, v);
      y := Proxy(Idle(n), multiset{}, multiset{});
      assert y.pool.loads == FirstHeavy(role, n, v, k);
    } else {
      var x := HeavyReached(role, n, u, v, k - 1);
      ReachedIsSound(role, n, u, v, x);
      FirstIdle(role, n, v, k - 1, x.pool);
      var load, e;
      y, load, e := SelectNext(role, n, u, v, x, v);
      SelectInOrder(role, n, u, v, x, y, load, e);
      MovedFacts(role, n, u, v, x, y, 0, load, e);
      FirstHeavyNext(role, n, v, k - 1);
    }
  }

  lemma FirstIdle(role: Role, n: nat, v: real, k: nat, p: Pool)
    requires Mirrors(role, p) && IsHeap(p.heap) && v > 0.0 && k < n && p.loads == FirstHeavy(role, n, v, k)
    ensures p.heap != [] && p.heap[0].server == k
  {
    hide Mirrors, IsHeap;
    assert Priority(role, IDLE) < Priority(role, Heavy(role, v));
    RootIs(role, p, k);
  }

  lemma IdleReached(role: Role, n: nat, u: real, v: real)
    ensures Reached(role, n, u, v, Proxy(Idle(n), multiset{}, multiset{})) && IsHeap(Idle(n).heap)
  {
    IdleIsOrdered(role, n);
    assert Scores([], u, v) && After(role, n, []) == Some(Proxy(Idle(n), multiset{}, multiset{}));
  }

  lemma MovedFacts(role: Role, n: nat, u: real, v: real, y: Proxy, y': Proxy, k: nat, load: Load, e: Entry)
    requires Moved(role, n, u, v, y, y', k, load, e)
    ensures Reached(role, n, u, v, y') && |y.pool.loads| == n && |y.pool.heap| == n && |y'.pool.heap| == n && k < n
    ensures y.pool.heap[k].server < n && y'.pool.loads == y.pool.loads[y.pool.heap[k].server := load]
    ensures e == Entry(Priority(role, load), y.pool.heap[k].server)
    ensures Exchange(y.pool.heap, y'.pool.heap, y.pool.heap[k], e)
  {
  }

  // ---------------------------------------------------------------- nine small selects

  /** The last three servers after j small selects, which they take in turn. */
  function Lights(role: Role, u: real, j: nat): (r: seq<Load>)
    ensures |r| == 3
  {
    [Units(role, u, (j + 2) / 3), Units(role, u, (j + 1) / 3), Units(role, u, j / 3)]
  }

  lemma LightsNext(role: Role, u: real, j: nat)
    ensures Lights(role, u, j)[j % 3] == Units(role, u, j / 3)
    ensures Lights(role, u, j)[j % 3 := Added(role, Units(role, u, j / 3), u)] == Lights(role, u, j + 1)
  {
    var k, r := j / 3, j % 3;
    assert j == 3 * k + r;
    assert Units(role, u, k + 1) == Added(role, Units(role, u, k), u);
  }

  /** Each of the three owes one small score for every turn it has had. */
  ghost predicate Owing(n: nat, u: real, j: nat, y: Proxy)
    requires n >= 3
  {
    y.owed[(n - 3, u)] >= (j + 2) / 3 && y.owed[(n - 2, u)] >= (j + 1) / 3 && y.owed[(n - 1, u)] >= j / 3
  }

  ghost predicate Lit(role: Role, n: nat, u: real, v: real, j: nat, y: Proxy)
    requires n >= 3
  {
    && Reached(role, n, u, v, y) && IsHeap(y.pool.heap)
    && y.pool.loads == Loads(n, Heavy(role, v), Lights(role, u, j))
    && Owing(n, u, j, y)
  }

  lemma NextLight(role: Role, n: nat, u: real, v: real, j: nat, p: Pool)
    requires 0.0 < 3.0 * u < v && n >= 5 && j < 9
    requires Mirrors(role, p) && IsHeap(p.heap) && p.loads == Loads(n, Heavy(role, v), Lights(role, u, j))
    ensures p.heap != [] && p.heap[0].server == n - 3 + j % 3
  {
    hide Mirrors, IsHeap, Heavy;
    var k := j / 3;
    UnitsMore(role, u, k);
    HeavyOutweighs(role, u, v, k);
    LightsNext(role, u, j);
    hide Units;
    RootIs(role, p, n - 3 + j % 3);
  }

  lemma LightNext(role: Role, n: nat, u: real, v: real, j: nat, y: Proxy) returns (y': Proxy, load: Load, e: Entry)
    requires 0.0 < 3.0 * u < v && n >= 5 && j < 9 && Lit(role, n, u, v, j, y)
    ensures Lit(role, n, u, v, j + 1, y') && Moved(role, n, u, v, y, y', 0, load, e)
    ensures y.pool.heap[0].server == n - 3 + j % 3 && e.priority == Priority(role, Units(role, u, j / 3 + 1))
    ensures y'.pool.heap == Replaced(y.pool.heap, e)
  {
    hide Reached, IsHeap, Moved, Replaced, Units, Lights, Heavy, Owing;
    ReachedIsSound(role, n, u, v, y);
    NextLight(role, n, u, v, j, y.pool);
    y', load, e := SelectNext(role, n, u, v, y, u);
    SelectInOrder(role, n, u, v, y, y', load, e);
    MovedFacts(role, n, u, v, y, y', 0, load, e);
    LightsNext(role, u, j);
    UnitsNext(role, u, j / 3);
    LoadsUpdated(n, Heavy(role, v), Lights(role, u, j), j % 3, load);
    OwingNext(n, u, j, y, y');
  }

  lemma UnitsNext(role: Role, u: real, k: nat)
    ensures Units(role, u, k + 1) == Added(role, Units(role, u, k), u)
  {
  }

  lemma OwingNext(n: nat, u: real, j: nat, y: Proxy, y': Proxy)
    requires n >= 3 && Owing(n, u, j, y) && y'.owed == y.owed + multiset{(n - 3 + j % 3, u)}
    ensures Owing(n, u, j + 1, y')
  {
    var x := (n - 3 + j % 3, u);
    assert y'.owed[x] == y.owed[x] + 1;
  }

  lemma {:induction false} FirstThree(role: Role, n: nat, u: real, v: real, j: nat) returns (y: Proxy)
    requires 0.0 < 3.0 * u < v && n >= 5 && j <= 3
    ensures Lit(role, n, u, v, j, y)
    decreases j
  {
    hide Reached, IsHeap, Moved;
    if j == 0 {
      y := HeavyReached(role, n, u, v, n - 3);
      assert y.pool.loads == Loads(n, Heavy(role, v), Lights(role, u, 0));
    } else {
      var x := FirstThree(role, n, u, v, j - 1);
      hide Lit;
      var load, e;
      y, load, e := LightNext(role, n, u, v, j - 1, x);
    }
  }

  /** The three light servers are the smallest entries, in the order of their next turns. */
  ghost predicate Turns(n: nat, j: nat, h: seq<Entry>, pb: nat, pc: nat) {
    && 5 <= n == |h| && Three(h, pb, pc)
    && h[0].server == n - 3 + j % 3 && h[pb].server == n - 3 + (j + 1) % 3 && h[pc].server == n - 3 + (j + 2) % 3
  }

  lemma OthersAreHeavy(role: Role, n: nat, v: real, lights: seq<Load>, p: Pool, pa: nat, pb: nat, pc: nat, k: nat)
    requires n >= 5 && |lights| == 3 && Mirrors(role, p) && p.loads == Loads(n, Heavy(role, v), lights)
    requires pa < |p.heap| && pb < |p.heap| && pc < |p.heap|
    requires {p.heap[pa].server, p.heap[pb].server, p.heap[pc].server} == {n - 3, n - 2, n - 1}
    requires k < |p.heap| && k != pa && k != pb && k != pc
    ensures p.heap[k].server < n - 3 && p.heap[k].priority == Priority(role, Heavy(role, v))
  {
    hide Mirrors, Heavy;
    MirrorsDiffers(role, p);
    EntryServer(role, p, k);
    var s := p.heap[k].server;
    assert s != p.heap[pa].server && s != p.heap[pb].server && s != p.heap[pc].server;
    assert s !in {n - 3, n - 2, n - 1};
  }

  lemma FirstTurns(role: Role, n: nat, u: real, v: real, p: Pool) returns (pb: nat, pc: nat)
    requires 0.0 < 3.0 * u < v && n >= 5
    requires Mirrors(role, p) && IsHeap(p.heap) && p.loads == Loads(n, Heavy(role, v), Lights(role, u, 3))
    ensures Turns(n, 3, p.heap, pb, pc)
  {
    hide Mirrors, IsHeap, Heavy, Units;
    MirrorsSize(role, p);
    NextLight(role, n, u, v, 3, p);
    EntryServer(role, p, 0);
    pb := ProxyReleases.OneEntryEach(role, p, n - 2);
    pc := ProxyReleases.OneEntryEach(role, p, n - 1);
    HeavyOutweighs(role, u, v, 1);
    forall k | 0 < k < n && k != pb && k != pc ensures Less(p.heap[pc], p.heap[k]) {
      OthersAreHeavy(role, n, v, Lights(role, u, 3), p, 0, pb, pc, k);
    }
  }

  /** The renewed entry comes after the other two lights and before all heavy servers. */
  lemma NewIsThird(role: Role, n: nat, u: real, v: real, j: nat, p: Pool, pb: nat, pc: nat, e: Entry)
    requires 0.0 < 3.0 * u < v && 3 <= j < 9 && Mirrors(role, p) && Turns(n, j, p.heap, pb, pc)
    requires p.loads == Loads(n, Heavy(role, v), Lights(role, u, j))
    requires e == Entry(Priority(role, Units(role, u, j / 3 + 1)), n - 3 + j % 3)
    ensures Less(p.heap[pc], e)
    ensures forall k :: 0 < k < |p.heap| && k != pb && k != pc ==> Less(e, p.heap[k])
  {
    hide Mirrors, Heavy;
    EntryServer(role, p, pc);
    UnitsMore(role, u, j / 3);
    HeavyOutweighs(role, u, v, j / 3 + 1);
    hide Units;
    assert p.heap[pc].priority == Priority(role, Lights(role, u, j)[(j + 2) % 3]);
    forall k | 0 < k < |p.heap| && k != pb && k != pc ensures Less(e, p.heap[k]) {
      OthersAreHeavy(role, n, v, Lights(role, u, j), p, 0, pb, pc, k);
    }
  }

  lemma TurnsNext(n: nat, j: nat, h: seq<Entry>, pb: nat, pc: nat, r: seq<Entry>, qb: nat, qc: nat, e: Entry)
    requires Turns(n, j, h, pb, pc) && |r| == n && Three(r, qb, qc)
    requires r[0] == h[pb] && r[qb] == h[pc] && r[qc] == e && e.server == h[0].server
    ensures Turns(n, j + 1, r, qb, qc)
  {
    assert (j + 3) % 3 == j % 3;
  }

  /** One more turn; from the second on all three stand on the path of the last position. */
  lemma TurnTaken(role: Role, n: nat, u: real, v: real, j: nat, y: Proxy, pb: nat, pc: nat)
    returns (y': Proxy, qb: nat, qc: nat)
    requires 0.0 < 3.0 * u < v && n >= 5 && 3 <= j < 9
    requires Lit(role, n, u, v, j, y) && Turns(n, j, y.pool.heap, pb, pc)
    ensures Lit(role, n, u, v, j + 1, y') && Turns(n, j + 1, y'.pool.heap, qb, qc)
    ensures OnPath(y'.pool.heap, qb, qc)
    ensures OnPath(y.pool.heap, pb, pc) ==> qb == Depth1(n - 1) && qc == Depth2(n - 1)
  {
    hide Reached, IsHeap, Moved, Units, Lights, Heavy, Owing, Turns, OnPath, Replaced, Three, Exchange, Mirrors, Sound;
    hide Loads, Less, Below, Depth1, Depth2, Priority;
    ReachedIsSound(role, n, u, v, y);
    var load, e;
    y', load, e := LightNext(role, n, u, v, j, y);
    MovedFacts(role, n, u, v, y, y', 0, load, e);
    NewIsThird(role, n, u, v, j, y.pool, pb, pc, e);
    TurnsThree(n, j, y.pool.heap, pb, pc);
    qb, qc := ThirdSelected(y.pool.heap, pb, pc, e);
    TurnsNext(n, j, y.pool.heap, pb, pc, y'.pool.heap, qb, qc, e);
    ThirdOnPath(y'.pool.heap, qb, qc);
    if OnPath(y.pool.heap, pb, pc) {
      StaysOnPath(y.pool.heap, pb, pc, e, qb, qc);
    }
  }

  lemma TurnsThree(n: nat, j: nat, h: seq<Entry>, pb: nat, pc: nat)
    requires Turns(n, j, h, pb, pc)
    ensures |h| == n && Three(h, pb, pc)
  {
  }

  /** After nine small selects the three lights stand at the root and next to it on the path. */
  lemma {:induction false} NineTurns(role: Role, n: nat, u: real, v: real, j: nat) returns (y: Proxy, pb: nat, pc: nat)
    requires 0.0 < 3.0 * u < v && n >= 5 && 3 <= j <= 9
    ensures Lit(role, n, u, v, j, y) && Turns(n, j, y.pool.heap, pb, pc)
    ensures j >= 4 ==> OnPath(y.pool.heap, pb, pc)
    ensures j >= 5 ==> pb == Depth1(n - 1) && pc == Depth2(n - 1)
    decreases j
  {
    hide Turns, OnPath, IsHeap, Owing, Lights, Reached, Mirrors;
    if j == 3 {
      y := FirstThree(role, n, u, v, 3);
      ReachedIsSound(role, n, u, v, y);
      pb, pc := FirstTurns(role, n, u, v, y.pool);
    } else {
      var x, qb, qc := NineTurns(role, n, u, v, j - 1);
      y, pb, pc := TurnTaken(role, n, u, v, j - 1, x, qb, qc);
    }
  }

  // ---------------------------------------------------------------- releases move the last light

  /** The last server keeps its three small scores and stands at q; the lights are the given loads. */
  ghost predicate Placed(role: Role, n: nat, u: real, v: real, y: Proxy, lights: seq<Load>, q: nat) {
    && 5 <= n && |lights| == 3 && lights[2] == Units(role, u, 3) && |y.pool.heap| == n && q < n
    && Reached(role, n, u, v, y)
    && y.pool.loads == Loads(n, Heavy(role, v), lights)
    && y.pool.heap[q].server == n - 1
  }

  /** The server of light i stands at k and has a small score to give back. */
  ghost predicate Stands(n: nat, u: real, y: Proxy, i: nat, k: nat, owed: nat) {
    && n >= 3 && i < 2 && k < |y.pool.heap| && y.pool.heap[k].server == n - 3 + i
    && y.owed[(n - 3 + i, u)] >= owed
  }

  lemma PlacedPriority(role: Role, n: nat, u: real, v: real, y: Proxy, lights: seq<Load>, q: nat, i: nat, k: nat)
    requires Placed(role, n, u, v, y, lights, q)
    requires i < 3 && k < |y.pool.heap| && y.pool.heap[k].server == n - 3 + i
    ensures y.pool.loads[n - 3 + i] == lights[i] && y.pool.heap[k].priority == Priority(role, lights[i])
  {
    hide Mirrors, Sound, Reached, Heavy, Units, Priority;
    ReachedIsSound(role, n, u, v, y);
    EntryServer(role, y.pool, k);
  }

  lemma PlacedNext(role: Role, n: nat, u: real, v: real, y: Proxy, y': Proxy, lights: seq<Load>, q: nat, i: nat, k: nat,
                   load: Load, e: Entry, q': nat)
    requires Placed(role, n, u, v, y, lights, q) && Moved(role, n, u, v, y, y', k, load, e)
    requires i < 2 && y.pool.heap[k].server == n - 3 + i
    requires q' < n && y'.pool.heap[q'] == y.pool.heap[q]
    ensures Placed(role, n, u, v, y', lights[i := load], q')
  {
    LoadsUpdated(n, Heavy(role, v), lights, i, load);
  }

  /** The second light gives back a score and becomes the root; the last one moves one to the left. */
  lemma SecondGivesBack(role: Role, n: nat, u: real, v: real, y: Proxy, lights: seq<Load>, q: nat, i: nat, owed: nat)
    returns (y': Proxy)
    requires u > 0.0 && Placed(role, n, u, v, y, lights, q) && Three(y.pool.heap, Depth1(n - 1), q)
    requires owed > 0 && Stands(n, u, y, i, Depth1(n - 1), owed) && Stands(n, u, y, 1 - i, 0, 0)
    requires 3 <= q && q - 1 != Depth1(n - 1) && !Below(n - 1, q - 1)
    requires Less(Entry(Priority(role, GivenBack(lights[i], u)), n - 3 + i), y.pool.heap[0])
    ensures Placed(role, n, u, v, y', lights[i := GivenBack(lights[i], u)], q - 1)
    ensures Three(y'.pool.heap, Depth1(n - 1), q - 1)
    ensures Stands(n, u, y', i, 0, owed - 1) && Stands(n, u, y', 1 - i, Depth1(n - 1), y.owed[(n - 2 - i, u)])
  {
    hide Reached, Moved, Renewed, Three, Below, Units, Heavy;
    var d := Depth1(n - 1);
    var load, e;
    y', load, e := ReleaseNext(role, n, u, v, y, d);
    MovedFacts(role, n, u, v, y, y', d, load, e);
    PlacedPriority(role, n, u, v, y, lights, q, i, d);
    assert Less(e, y.pool.heap[q]) by {
      ThreeOrder(y.pool.heap, d, q);
    }
    SecondReleased(y.pool.heap, q, e);
    PlacedNext(role, n, u, v, y, y', lights, q, i, d, load, e, q - 1);
    assert (n - 3 + (1 - i), u) == (n - 2 - i, u);
  }

  lemma ThreeOrder(h: seq<Entry>, pb: nat, pc: nat)
    requires Three(h, pb, pc)
    ensures 0 < pb < |h| && 0 < pc < |h| && Less(h[0], h[pb]) && Less(h[pb], h[pc])
  {
  }

  lemma LastIsLight(role: Role, n: nat, u: real, v: real, y: Proxy, lights: seq<Load>, q: nat)
    requires Placed(role, n, u, v, y, lights, q)
    ensures y.pool.heap[q].priority == Priority(role, Units(role, u, 3))
  {
    hide Units, Heavy;
    PlacedPriority(role, n, u, v, y, lights, q, 2, q);
  }

  predicate NotNegative(load: Load) {
    load.tokens >= 0.0 && load.kv >= 0.0
  }

  lemma AddedOutweighs(role: Role, u: real, v: real, load: Load)
    requires 0.0 < 3.0 * u < v && NotNegative(load)
    ensures Priority(role, Units(role, u, 3)) < Priority(role, Added(role, load, v))
  {
    HeavyOutweighs(role, u, v, 3);
  }

  /** The root takes a large select; the other light follows it to the root and the last one stays. */
  lemma RootTakesLarge(role: Role, n: nat, u: real, v: real, y: Proxy, lights: seq<Load>, q: nat, i: nat)
    returns (y': Proxy)
    requires 0.0 < 3.0 * u < v && Placed(role, n, u, v, y, lights, q) && Three(y.pool.heap, Depth1(n - 1), q)
    requires Stands(n, u, y, i, 0, 0) && Stands(n, u, y, 1 - i, Depth1(n - 1), 0) && NotNegative(lights[i])
    requires q < n - 1 && !Below(n - 1, q) && !Below(q, Depth1(n - 1)) && !Below(Depth1(n - 1), q)
    ensures Placed(role, n, u, v, y', lights[i := Added(role, lights[i], v)], q) && Two(y'.pool.heap, q)
    ensures Stands(n, u, y', 1 - i, 0, y.owed[(n - 2 - i, u)])
  {
    hide Reached, Moved, Replaced, Three, Below, Units, Heavy;
    var load, e;
    y', load, e := SelectNext(role, n, u, v, y, v);
    MovedFacts(role, n, u, v, y, y', 0, load, e);
    PlacedPriority(role, n, u, v, y, lights, q, i, 0);
    LastIsLight(role, n, u, v, y, lights, q);
    AddedOutweighs(role, u, v, lights[i]);
    RootSelected(y.pool.heap, q, e);
    PlacedNext(role, n, u, v, y, y', lights, q, i, 0, load, e, q);
    assert (n - 3 + (1 - i), u) == (n - 2 - i, u);
  }

  /** The root gives back a score and stays at the root; the last light moves. */
  lemma RootGivesBack(role: Role, n: nat, u: real, v: real, y: Proxy, lights: seq<Load>, q: nat, i: nat, owed: nat, q': nat)
    returns (y': Proxy)
    requires u > 0.0 && Placed(role, n, u, v, y, lights, q) && Two(y.pool.heap, q)
    requires owed > 0 && Stands(n, u, y, i, 0, owed)
    requires q' == if q == Depth1(n - 1) + 1 then Depth2(n - 1) else q - 1
    requires q != Depth1(n - 1) + 1 ==> q >= 2 && !Below(n - 1, q - 1)
    ensures Placed(role, n, u, v, y', lights[i := GivenBack(lights[i], u)], q') && Two(y'.pool.heap, q')
    ensures Stands(n, u, y', i, 0, owed - 1)
  {
    hide Reached, Moved, Renewed, Two, Below, Units, Heavy;
    var load, e;
    y', load, e := ReleaseNext(role, n, u, v, y, 0);
    MovedFacts(role, n, u, v, y, y', 0, load, e);
    PlacedPriority(role, n, u, v, y, lights, q, i, 0);
    assert Less(e, y.pool.heap[q]) by {
      TwoOrder(y.pool.heap, q);
    }
    RootReleased(y.pool.heap, q, e, q');
    PlacedNext(role, n, u, v, y, y', lights, q, i, 0, load, e, q');
  }

  lemma TwoOrder(h: seq<Entry>, q: nat)
    requires Two(h, q)
    ensures 0 < q < |h| && Less(h[0], h[q])
  {
  }

  /** One more large select, and the root is a server with more load than the last one has. */
  lemma LastIsMissed(role: Role, n: nat, u: real, v: real, y: Proxy, lights: seq<Load>, q: nat, i: nat)
    returns (y': Proxy)
    requires 0.0 < 3.0 * u < v && Placed(role, n, u, v, y, lights, q) && Two(y.pool.heap, q) && 3 <= q < n - 1
    requires Stands(n, u, y, i, 0, 0) && NotNegative(lights[i])
    requires Priority(role, Units(role, u, 3)) < Priority(role, lights[1 - i])
    ensures Reached(role, n, u, v, y') && !NextIsLeast(role, y'.pool)
  {
    hide Reached, Moved, Replaced, Two, Units, Heavy, Mirrors;
    var load, e;
    y', load, e := SelectNext(role, n, u, v, y, v);
    MovedFacts(role, n, u, v, y, y', 0, load, e);
    PlacedPriority(role, n, u, v, y, lights, q, i, 0);
    ReachedIsSound(role, n, u, v, y);
    MirrorsDiffers(role, y.pool);
    HiddenIsMissed(y.pool.heap, q, e);
    AddedOutweighs(role, u, v, lights[i]);
    HeavyOutweighs(role, u, v, 3);
    ReachedIsSound(role, n, u, v, y');
    EntryServer(role, y'.pool, 0);
    LoadsUpdated(n, Heavy(role, v), lights, i, load);
    OthersOutweigh(role, n, u, Heavy(role, v), lights[i := load], y'.pool.heap[0].server);
    assert !LeastLoaded(role, y'.pool.loads, y'.pool.heap[0].server);
  }

  lemma OthersOutweigh(role: Role, n: nat, u: real, heavy: Load, lights: seq<Load>, s: nat)
    requires 3 <= n && |lights| == 3 && lights[2] == Units(role, u, 3) && s < n - 1
    requires Priority(role, lights[2]) < Priority(role, heavy)
    requires Priority(role, lights[2]) < Priority(role, lights[0]) && Priority(role, lights[2]) < Priority(role, lights[1])
    ensures Priority(role, Loads(n, heavy, lights)[n - 1]) < Priority(role, Loads(n, heavy, lights)[s])
  {
  }

  // ---------------------------------------------------------------- the run

  /** Three small scores of which k have been given back. */
  function Left(role: Role, u: real, k: nat): Load {
    if k == 0 then Units(role, u, 3) else GivenBack(Left(role, u, k - 1), u)
  }

  lemma LeftNotNegative(role: Role, u: real, k: nat)
    requires u > 0.0 && k <= 3
    ensures NotNegative(Left(role, u, k))
  {
    UnitsAtLeast(role, u, 3);
    UnitsNext(role, u, 0);
    UnitsNext(role, u, 1);
    UnitsNext(role, u, 2);
    assert Units(role, u, 3).tokens == 3.0 * u;
    assert Left(role, u, 1) == GivenBack(Left(role, u, 0), u);
    assert Left(role, u, 2) == GivenBack(Left(role, u, 1), u);
    assert Left(role, u, 3) == GivenBack(Left(role, u, 2), u);
  }

  /** Where the last light stands before the large select: out of the way of the path. */
  function Target(n: nat): (q: nat)
    requires n >= 5
    ensures q < n - 1 && !Below(n - 1, q) && !Below(q, Depth1(n - 1)) && !Below(Depth1(n - 1), q)
    ensures q == if Depth1(n - 1) == 1 then 2 else 4
  {
    var q: nat := if Depth1(n - 1) == 1 then 2 else 4;
    OneAncestorEach(n - 1, q);
    q
  }

  /** The position before the last light's is not on the path. */
  lemma BeforeIsBeside(m: nat, q: nat)
    requires m >= 4 && q == Depth2(m)
    ensures q - 1 != Depth1(m) && !Below(m, q - 1)
    ensures q % 2 == 0 ==> q >= 4 && q - 2 != Depth1(m) && !Below(m, q - 2)
    ensures Depth1(m) == (q - 1) / 2
  {
    OneAncestorEach(m, q - 1);
    if q % 2 == 0 {
      OneAncestorEach(m, q - 2);
    }
  }

  lemma LinedUp(role: Role, n: nat, u: real, v: real) returns (y: Proxy)
    requires 0.0 < 3.0 * u < v && n >= 5
    ensures Placed(role, n, u, v, y, [Left(role, u, 0), Left(role, u, 0), Left(role, u, 0)], Depth2(n - 1))
    ensures Three(y.pool.heap, Depth1(n - 1), Depth2(n - 1))
    ensures Stands(n, u, y, 0, 0, 3) && Stands(n, u, y, 1, Depth1(n - 1), 3)
  {
    hide Three, IsHeap, Reached, Heavy, Units, Depth1, Depth2;
    var pb, pc;
    y, pb, pc := NineTurns(role, n, u, v, 9);
    ReachedIsSound(role, n, u, v, y);
    assert (n - 3 + 0, u) == (n - 3, u) && (n - 3 + 1, u) == (n - 2, u);
    assert Lights(role, u, 9) == [Left(role, u, 0), Left(role, u, 0), Left(role, u, 0)];
  }

  /** One or two releases bring the last light to its target; the second light keeps two small scores to give back. */
  lemma LastMoved(role: Role, n: nat, u: real, v: real) returns (y: Proxy, lights: seq<Load>, i: nat, k: nat)
    requires 0.0 < 3.0 * u < v && n >= 5
    ensures Placed(role, n, u, v, y, lights, Target(n)) && Three(y.pool.heap, Depth1(n - 1), Target(n))
    ensures Stands(n, u, y, i, 0, 0) && Stands(n, u, y, 1 - i, Depth1(n - 1), 2)
    ensures |lights| == 3 && i < 2 && k <= 1 && lights[i] == Left(role, u, 1) && lights[1 - i] == Left(role, u, k)
  {
    hide Placed, Three, Below, Heavy, Units, Depth1, Depth2, Left;
    var d, q := Depth1(n - 1), Depth2(n - 1);
    BeforeIsBeside(n - 1, q);
    var x := LinedUp(role, n, u, v);
    var start := [Left(role, u, 0), Left(role, u, 0), Left(role, u, 0)];
    LeftNext(role, u, 0);
    RootPriority(role, n, u, v, x, start, q, 0, 0);
    y := SecondGivesBack(role, n, u, v, x, start, q, 1, 3);
    lights, i, k := start[1 := Left(role, u, 1)], 1, 0;
    if q % 2 == 0 {
      x := y;
      RootPriority(role, n, u, v, x, lights, q - 1, 1, 1);
      y := SecondGivesBack(role, n, u, v, x, lights, q - 1, 0, 3);
      lights, i, k := lights[0 := Left(role, u, 1)], 0, 1;
    }
  }

  lemma LeftNext(role: Role, u: real, k: nat)
    ensures Left(role, u, k + 1) == GivenBack(Left(role, u, k), u)
    ensures Priority(role, Left(role, u, k + 1)) == Priority(role, Left(role, u, k)) - u
  {
  }

  lemma RootPriority(role: Role, n: nat, u: real, v: real, y: Proxy, lights: seq<Load>, q: nat, i: nat, k: nat)
    requires Placed(role, n, u, v, y, lights, q) && Stands(n, u, y, i, 0, 0) && lights[i] == Left(role, u, k)
    ensures y.pool.heap[0] == Entry(Priority(role, Left(role, u, k)), n - 3 + i)
  {
    PlacedPriority(role, n, u, v, y, lights, q, i, 0);
  }

  /** A run of small and large scores after which the next select does not take a least-loaded server. */
  lemma SelectGoesWrong(role: Role, n: nat, u: real, v: real) returns (y: Proxy)
    requires 0.0 < 3.0 * u < v && n >= 5
    ensures Reached(role, n, u, v, y) && !NextIsLeast(role, y.pool)
  {
    hide Placed, Three, Two, Below, Reached, Heavy, Units, Depth1, Depth2, Left, NextIsLeast, Target;
    var d, q := Depth1(n - 1), Depth2(n - 1);
    BeforeIsBeside(n - 1, q);
    var x, lights, i, k := LastMoved(role, n, u, v);
    var j := 1 - i;
    LeftNotNegative(role, u, 1);
    LeftNotNegative(role, u, k);
    AddedOutweighs(role, u, v, lights[i]);
    y := RootTakesLarge(role, n, u, v, x, lights, Target(n), i);
    lights := lights[i := Added(role, lights[i], v)];
    if d == 1 {
      x := y;
      y := RootGivesBack(role, n, u, v, x, lights, 2, j, 2, q);
      LeftNext(role, u, k);
      LeftNotNegative(role, u, k + 1);
      lights := lights[j := Left(role, u, k + 1)];
      if q == n - 1 {
        x := y;
        y := RootGivesBack(role, n, u, v, x, lights, q, j, 1, q - 1);
        LeftNext(role, u, k + 1);
        LeftNotNegative(role, u, k + 2);
        lights := lights[j := Left(role, u, k + 2)];
        y := LastIsMissed(role, n, u, v, y, lights, q - 1, j);
      } else {
        y := LastIsMissed(role, n, u, v, y, lights, q, j);
      }
    } else {
      y := LastIsMissed(role, n, u, v, y, lights, 4, j);
    }
  }

  /**
   Over all runs of selects and matching releases from idle servers, selection is always
   least-loaded exactly with four servers or fewer.
   */
  lemma LeastLoadedUpToFour(role: Role, n: nat)
    ensures AlwaysSelectsLeast(role, n) <==> n <= 4
  {
    if n <= 4 {
      FewServersSelectLeastLoaded(role, n);
    } else {
      var events := MisselectedByTwoScores(role, n, 1.0, 4.0);
    }
  }

  /** With five servers or more, two scores are enough, whichever they are, if one is over three times the other. */
  lemma MisselectedByTwoScores(role: Role, n: nat, u: real, v: real) returns (events: seq<Event>)
    requires 0.0 < 3.0 * u < v && n >= 5
    ensures Scores(events, u, v) && After(role, n, events).Some?
    ensures !NextIsLeast(role, After(role, n, events).value.pool)
  {
    hide NextIsLeast, Scores;
    var y := SelectGoesWrong(role, n, u, v);
    events :| Scores(events, u, v) && After(role, n, events) == Some(y);
  }
}
