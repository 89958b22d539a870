/**
 Load reports on their way from the engines over the coordinator to a client, as a state
 machine. Channels keep their order but may lose messages.
 */
module LoadProtocol {
  import opened Wrappers
  import opened LoadView
  import opened Picking

  // ---------------------------------------------------------------- coordinator and client

  datatype Coordinator = Coordinator(loads: seq<EngineLoad>, lastPublish: int)

  /** One pass of the coordinator's loop: at most one report comes in, then perhaps a publication goes out. */
  function Ticked(c: Coordinator, received: Option<EngineLoad>, now: int, staleMs: int, minInterval: int):
    (Coordinator, Option<seq<EngineLoad>>)
  {
    var loads := if received.Some? then Assigned(c.loads, received.value) else c.loads;
    if now - c.lastPublish >= minInterval then (Coordinator(loads, now), Some(Fresh(loads, now, staleMs)))
    else (Coordinator(loads, c.lastPublish), None)
  }

  /** What a pass does: the report replaces its instance's load, and a publication carries every load that is fresh then. */
  lemma TickPublishes(c: Coordinator, received: Option<EngineLoad>, now: int, staleMs: int, minInterval: int)
    requires OnePerInstance(c.loads)
    ensures
      var (c', published) := Ticked(c, received, now, staleMs, minInterval);
      && OnePerInstance(c'.loads)
      && (forall x :: x in c'.loads <==>
            received == Some(x) || (x in c.loads && (received.Some? ==> x.instance != received.value.instance)))
      && (published.Some? <==> now - c.lastPublish >= minInterval)
      && c'.lastPublish == (if published.Some? then now else c.lastPublish)
      && (published.Some? ==> Picks(c'.loads, NotStale(now, staleMs), published.value))
      && (published.Some? ==> forall x :: x in published.value <==> x in c'.loads && now - x.ts <= staleMs)
  {
    hide Picks, Assigned, Fresh;
    if received.Some? {
      AssignedIs(c.loads, received.value);
    }
    var loads := if received.Some? then Assigned(c.loads, received.value) else c.loads;
    FreshArePicked(loads, now, staleMs);
    FreshAre(loads, now, staleMs);
  }

  class PDCoordinator {
    var loads: seq<EngineLoad>
    var lastPublishMs: int
    const staleMs: int
    const minPublishIntervalMs: int

    ghost function State(): Coordinator
      reads this
    {
      Coordinator(loads, lastPublishMs)
    }

    constructor (staleMs: int, minPublishIntervalMs: int)
      ensures State() == Coordinator([], 0)
      ensures this.staleMs == staleMs && this.minPublishIntervalMs == minPublishIntervalMs
    {
      this.staleMs, this.minPublishIntervalMs := staleMs, minPublishIntervalMs;
      loads, lastPublishMs := [], 0;
    }

    method Tick(received: Option<EngineLoad>, now: int) returns (published: Option<seq<EngineLoad>>)
      modifies this
      ensures (State(), published) == Ticked(old(State()), received, now, staleMs, minPublishIntervalMs)
    {
      if received.Some? {
        loads := Assigned(loads, received.value);
      }
      published := None;
      if now - lastPublishMs >= minPublishIntervalMs {
        published := Some(Fresh(loads, now, staleMs));
        lastPublishMs := now;
      }
    }
  }

  /** The view after a poll: the last message waiting counts, and without one the view stays. */
  function Polled(view: seq<EngineLoad>, waiting: seq<seq<EngineLoad>>, staleMs: int, now: int): seq<EngineLoad> {
    if waiting == [] then view else Collected(Fresh(waiting[|waiting|-1], now, staleMs))
  }

  /**
   The view after a poll comes from the newest message alone: of each instance the last load in
   it that is not stale. Without a message the view is the old one.
   */
  lemma PollTakesNewest(view: seq<EngineLoad>, waiting: seq<seq<EngineLoad>>, staleMs: int, now: int, x: EngineLoad)
    ensures waiting == [] ==> Polled(view, waiting, staleMs, now) == view
    ensures waiting != [] ==>
      (x in Polled(view, waiting, staleMs, now) <==>
        exists fresh' :: Picks(waiting[|waiting|-1], NotStale(now, staleMs), fresh') && LastOf(fresh', x))
    ensures waiting != [] && OnePerInstance(waiting[|waiting|-1]) ==>
      (x in Polled(view, waiting, staleMs, now) <==> x in waiting[|waiting|-1] && now - x.ts <= staleMs)
  {
    if waiting != [] {
      hide Picks, Collected, Fresh, LastOf, OnePerInstance;
      var newest := waiting[|waiting|-1];
      var fresh' := Fresh(newest, now, staleMs);
      FreshArePicked(newest, now, staleMs);
      FreshAre(newest, now, staleMs);
      CollectedAreLast(fresh', x);
      forall other | Picks(newest, NotStale(now, staleMs), other) ensures other == fresh' {
        PicksSame(newest, NotStale(now, staleMs), other, fresh');
      }
      if OnePerInstance(newest) {
        FreshStaysDistinct(newest, now, staleMs);
        CollectedDistinct(fresh');
      }
    }
  }

  lemma {:induction false} FreshStaysDistinct(loads: seq<EngineLoad>, now: int, staleMs: int)
    requires OnePerInstance(loads)
    ensures OnePerInstance(Fresh(loads, now, staleMs))
  {
    if loads != [] {
      var front, last := loads[..|loads|-1], loads[|loads|-1];
      FreshStaysDistinct(front, now, staleMs);
      FreshAre(front, now, staleMs);
      forall x | x in front ensures x.instance != last.instance {
        var i :| 0 <= i < |front| && front[i] == x;
        assert loads[i] == x;
      }
    }
  }

  class PDLoadClient {
    var waiting: seq<seq<EngineLoad>>
    const view: PDLoadView
    const staleMs: int

    constructor (staleMs: int)
      ensures fresh(view) && view.engines == [] && waiting == [] && this.staleMs == staleMs
    {
      this.staleMs := staleMs;
      waiting := [];
      view := new PDLoadView();
    }

    method Poll(now: int)
      modifies this`waiting, view
      ensures waiting == []
      ensures view.engines == Polled(old(view.engines), old(waiting), staleMs, now)
    {
      hide Collected, Fresh;
      var latest: Option<seq<EngineLoad>> := None;
      ghost var all, n := waiting, 0;
      while waiting != []
        invariant n <= |all| && waiting == all[n..]
        invariant latest == if n == 0 then None else Some(all[n-1])
        invariant view.engines == old(view.engines)
        decreases |waiting|
      {
        latest := Some(waiting[0]);
        waiting := waiting[1..];
        n := n + 1;
      }
      if latest.Some? {
        view.Update(latest.value, staleMs, now);
      }
    }
  }

  // ---------------------------------------------------------------- the system

  datatype Update = Update(time: int, view: seq<EngineLoad>)

  /**
   input holds reports on their way to the coordinator, oldest first; those of one instance
   keep their order. queue holds publications on their way to the client. reported, updates and
   publishTimes remember what happened and are no fields of the program.
   */
  datatype System = System(
    reported: seq<EngineLoad>,
    input: seq<EngineLoad>,
    coordinator: Coordinator,
    queue: seq<seq<EngineLoad>>,
    view: seq<EngineLoad>,
    updates: seq<Update>,
    publishTimes: seq<int>)

  datatype Config = Config(staleMs: int, clientStaleMs: int, minInterval: int)

  datatype Event =
    | Report(load: EngineLoad, accepted: bool)
    | Tick(receive: Option<nat>, now: int, subscribed: bool)
    | LoseReport(index: nat)
    | LosePublication(index: nat)
    | Poll(now: int)

  /** An instance reports with timestamps that do not decrease. */
  ghost predicate NotEarlier(reported: seq<EngineLoad>, load: EngineLoad) {
    forall x :: x in reported && x.instance == load.instance ==> x.ts <= load.ts
  }

  ghost predicate Enabled(y: System, e: Event) {
    match e
    case Report(load, _) => NotEarlier(y.reported, load)
    case Tick(receive, _, _) =>
      receive.Some? ==>
        receive.value < |y.input|
        && forall j :: 0 <= j < receive.value ==> y.input[j].instance != y.input[receive.value].instance
    case LoseReport(i) => i < |y.input|
    case LosePublication(i) => i < |y.queue|
    case Poll(_) => true
  }

  function Removed<T>(s: seq<T>, i: nat): seq<T>
    requires i < |s|
  {
    s[..i] + s[i+1..]
  }

  ghost function Next(y: System, e: Event, c: Config): System
    requires Enabled(y, e)
  {
    match e
    case Report(load, accepted) =>
      y.(reported := y.reported + [load], input := if accepted then y.input + [load] else y.input)
    case Tick(receive, now, subscribed) =>
      var received := if receive.Some? then Some(y.input[receive.value]) else None;
      var (coordinator, published) := Ticked(y.coordinator, received, now, c.staleMs, c.minInterval);
      y.(coordinator := coordinator,
         input := if receive.Some? then Removed(y.input, receive.value) else y.input,
         queue := if published.Some? && subscribed then y.queue + [published.value] else y.queue,
         publishTimes := if published.Some? then y.publishTimes + [now] else y.publishTimes)
    case LoseReport(i) => y.(input := Removed(y.input, i))
    case LosePublication(i) => y.(queue := Removed(y.queue, i))
    case Poll(now) =>
      var view := Polled(y.view, y.queue, c.clientStaleMs, now);
      y.(queue := [], view := view, updates := if y.queue == [] then y.updates else y.updates + [Update(now, view)])
  }

  const INITIAL := System([], [], Coordinator([], 0), [], [], [], [])

  // ---------------------------------------------------------------- the invariant

  /** Reports of one instance are no older in b than in a. */
  ghost predicate NoOlder(a: seq<EngineLoad>, b: seq<EngineLoad>) {
    forall x, y :: x in a && y in b && x.instance == y.instance ==> x.ts <= y.ts
  }

  function Views(updates: seq<Update>): (r: seq<seq<EngineLoad>>)
    ensures |r| == |updates|
  {
    seq(|updates|, i requires 0 <= i < |updates| => updates[i].view)
  }

  function Singles(input: seq<EngineLoad>): (r: seq<seq<EngineLoad>>)
    ensures |r| == |input|
  {
    seq(|input|, i requires 0 <= i < |input| => [input[i]])
  }

  /** Everything between the client and the engines, from the oldest information to the newest. */
  function Chain(y: System): seq<seq<EngineLoad>> {
    Views(y.updates) + y.queue + [y.coordinator.loads] + Singles(y.input)
  }

  ghost predicate Ordered(chain: seq<seq<EngineLoad>>) {
    forall i, j :: 0 <= i < j < |chain| ==> NoOlder(chain[i], chain[j])
  }

  ghost predicate AllReported(chain: seq<seq<EngineLoad>>, reported: seq<EngineLoad>) {
    forall i, x :: 0 <= i < |chain| && x in chain[i] ==> x in reported
  }

  /** Each update of the view took only loads that were not stale then. */
  ghost predicate UpdatesFresh(updates: seq<Update>, staleMs: int) {
    forall i, x :: 0 <= i < |updates| && x in updates[i].view ==> updates[i].time - x.ts <= staleMs
  }

  /** Publications keep their distance, and the coordinator knows when the last one was. */
  ghost predicate Spaced(times: seq<int>, lastPublish: int, minInterval: int) {
    && (forall i :: 0 < i < |times| ==> times[i] - times[i-1] >= minInterval)
    && (times != [] ==> times[|times|-1] == lastPublish)
  }

  ghost predicate Inv(y: System, c: Config) {
    && OnePerInstance(y.coordinator.loads)
    && Ordered(Chain(y)) && AllReported(Chain(y), y.reported)
    && UpdatesFresh(y.updates, c.clientStaleMs)
    && Spaced(y.publishTimes, y.coordinator.lastPublish, c.minInterval)
    && y.view == (if y.updates == [] then [] else y.updates[|y.updates|-1].view)
  }

  lemma InitialInv(c: Config)
    ensures Inv(INITIAL, c)
  {
  }

  // ---------------------------------------------------------------- chains

  lemma OrderedParts(a: seq<seq<EngineLoad>>, b: seq<seq<EngineLoad>>)
    ensures Ordered(a + b) <==>
      Ordered(a) && Ordered(b) && forall i, j :: 0 <= i < |a| && 0 <= j < |b| ==> NoOlder(a[i], b[j])
  {
    hide NoOlder;
    var ab := a + b;
    assert forall i :: 0 <= i < |a| ==> ab[i] == a[i];
    assert forall j :: 0 <= j < |b| ==> ab[|a| + j] == b[j];
    if Ordered(ab) {
      forall i, j | 0 <= i < |a| && 0 <= j < |b| ensures NoOlder(a[i], b[j]) {
        assert NoOlder(ab[i], ab[|a| + j]);
      }
      forall i, j | 0 <= i < j < |b| ensures NoOlder(b[i], b[j]) {
        assert NoOlder(ab[|a| + i], ab[|a| + j]);
      }
    }
  }

  lemma ReportedParts(a: seq<seq<EngineLoad>>, b: seq<seq<EngineLoad>>, reported: seq<EngineLoad>)
    ensures AllReported(a + b, reported) <==> AllReported(a, reported) && AllReported(b, reported)
  {
    var ab := a + b;
    assert forall i :: 0 <= i < |a| ==> ab[i] == a[i];
    assert forall j :: 0 <= j < |b| ==> ab[|a| + j] == b[j];
  }

  /** A chain of which some links are left out is still in order, and still reported. */
  lemma Dropped(a: seq<seq<EngineLoad>>, b: seq<seq<EngineLoad>>, d: seq<seq<EngineLoad>>, reported: seq<EngineLoad>)
    requires Ordered(a + b + d) && AllReported(a + b + d, reported)
    ensures Ordered(a + d) && AllReported(a + d, reported)
  {
    hide Ordered, AllReported, NoOlder;
    assert a + b + d == a + (b + d);
    OrderedParts(a, b + d);
    OrderedParts(b, d);
    ReportedParts(a, b + d, reported);
    ReportedParts(b, d, reported);
    forall i, j | 0 <= i < |a| && 0 <= j < |d| ensures NoOlder(a[i], d[j]) {
      assert (b + d)[|b| + j] == d[j];
    }
    OrderedParts(a, d);
    ReportedParts(a, d, reported);
  }

  /** A link may be replaced by one that holds only loads of it, or be repeated in that way before it. */
  lemma Thinned(
    a: seq<seq<EngineLoad>>, x: seq<EngineLoad>, less: seq<EngineLoad>, d: seq<seq<EngineLoad>>, reported: seq<EngineLoad>)
    requires Ordered(a + [x] + d) && AllReported(a + [x] + d, reported)
    requires forall l :: l in less ==> l in x
    ensures Ordered(a + [less] + d) && AllReported(a + [less] + d, reported)
  {
    var before, after := a + [x] + d, a + [less] + d;
    assert forall i :: 0 <= i < |after| && i != |a| ==> after[i] == before[i];
    assert before[|a|] == x && after[|a|] == less;
    forall i, j | 0 <= i < j < |after| ensures NoOlder(after[i], after[j]) {
      assert NoOlder(before[i], before[j]);
    }
  }

  lemma Doubled(
    a: seq<seq<EngineLoad>>, x: seq<EngineLoad>, less: seq<EngineLoad>, d: seq<seq<EngineLoad>>, reported: seq<EngineLoad>)
    requires Ordered(a + [x] + d) && AllReported(a + [x] + d, reported) && OnePerInstance(x)
    requires forall l :: l in less ==> l in x
    ensures Ordered(a + [less] + [x] + d) && AllReported(a + [less] + [x] + d, reported)
  {
    hide Ordered, AllReported, NoOlder, OnePerInstance;
    assert a + [x] + d == a + ([x] + d) && a + [less] + [x] + d == (a + [less]) + ([x] + d);
    Thinned(a, x, less, d, reported);
    assert a + [less] + d == (a + [less]) + d;
    OrderedParts(a, [x] + d);
    OrderedParts(a + [less], d);
    ReportedParts(a, [x] + d, reported);
    ReportedParts(a + [less], d, reported);
    SubsetNoOlder(less, x);
    forall i, j | 0 <= i < |a + [less]| && 0 <= j < |[x] + d| ensures NoOlder((a + [less])[i], ([x] + d)[j]) {
      if i < |a| {
        assert NoOlder(a[i], ([x] + d)[j]);
      } else if j > 0 {
        assert NoOlder((a + [less])[i], d[j - 1]);
      }
    }
    OrderedParts(a + [less], [x] + d);
    ReportedParts(a + [less], [x] + d, reported);
  }

  lemma SubsetNoOlder(less: seq<EngineLoad>, x: seq<EngineLoad>)
    requires OnePerInstance(x) && forall l :: l in less ==> l in x
    ensures NoOlder(less, x)
  {
  }

  // ---------------------------------------------------------------- the steps

  lemma ReportKeepsInv(y: System, e: Event, c: Config)
    requires Inv(y, c) && e.Report? && Enabled(y, e)
    ensures Inv(Next(y, e, c), c)
  {
    hide Ordered, NoOlder, OnePerInstance, UpdatesFresh, Spaced;
    var z, chain := Next(y, e, c), Chain(y);
    assert AllReported(chain, z.reported);
    if e.accepted {
      assert Singles(z.input) == Singles(y.input) + [[e.load]];
      assert Chain(z) == chain + [[e.load]];
      forall i | 0 <= i < |chain| ensures NoOlder(chain[i], [e.load]) {
        ReportedNoOlder(chain[i], y.reported, e.load);
      }
      OneLink([e.load]);
      OrderedParts(chain, [[e.load]]);
      ReportedParts(chain, [[e.load]], z.reported);
    }
  }

  lemma OneLink(x: seq<EngineLoad>)
    ensures Ordered([x])
  {
  }

  lemma ReportedNoOlder(x: seq<EngineLoad>, reported: seq<EngineLoad>, load: EngineLoad)
    requires (forall l :: l in x ==> l in reported) && NotEarlier(reported, load)
    ensures NoOlder(x, [load])
  {
  }

  lemma LoseReportKeepsInv(y: System, e: Event, c: Config)
    requires Inv(y, c) && e.LoseReport? && Enabled(y, e)
    ensures Inv(Next(y, e, c), c)
  {
    hide Ordered, AllReported, OnePerInstance, UpdatesFresh, Spaced;
    var z, i := Next(y, e, c), e.index;
    var front := Views(y.updates) + y.queue + [y.coordinator.loads];
    InputSplit(y.input, i);
    assert Chain(y) == (front + Singles(y.input[..i])) + [[y.input[i]]] + Singles(y.input[i+1..]);
    assert Chain(z) == (front + Singles(y.input[..i])) + Singles(y.input[i+1..]);
    Dropped(front + Singles(y.input[..i]), [[y.input[i]]], Singles(y.input[i+1..]), y.reported);
  }

  lemma InputSplit(input: seq<EngineLoad>, i: nat)
    requires i < |input|
    ensures Singles(input) == Singles(input[..i]) + [[input[i]]] + Singles(input[i+1..])
    ensures Singles(Removed(input, i)) == Singles(input[..i]) + Singles(input[i+1..])
  {
  }

  lemma LosePublicationKeepsInv(y: System, e: Event, c: Config)
    requires Inv(y, c) && e.LosePublication? && Enabled(y, e)
    ensures Inv(Next(y, e, c), c)
  {
    hide Ordered, AllReported, OnePerInstance, UpdatesFresh, Spaced, Views, Singles;
    var z, i := Next(y, e, c), e.index;
    var front, back := Views(y.updates) + y.queue[..i], y.queue[i+1..] + [y.coordinator.loads] + Singles(y.input);
    assert y.queue == y.queue[..i] + [y.queue[i]] + y.queue[i+1..];
    assert Chain(y) == front + [y.queue[i]] + back;
    assert Chain(z) == front + back;
    Dropped(front, [y.queue[i]], back, y.reported);
  }

  /** Draining the queue and building a view from its last message. */
  lemma PollKeepsInv(y: System, e: Event, c: Config)
    requires Inv(y, c) && e.Poll?
    ensures Inv(Next(y, e, c), c)
  {
    if y.queue != [] {
      var z := Next(y, e, c);
      var u := Update(e.now, z.view);
      PolledView(y.queue[|y.queue|-1], e.now, c.clientStaleMs);
      hide UpdatesFresh, Ordered, AllReported, OnePerInstance, Spaced, Views, Singles, Collected, Fresh, NoOlder;
      UpdateExtends(y.updates, u, c.clientStaleMs);
      PolledChain(y, z, u);
      hide Chain;
    }
  }

  lemma PolledView(last: seq<EngineLoad>, now: int, staleMs: int)
    ensures forall l :: l in Collected(Fresh(last, now, staleMs)) ==> l in last && now - l.ts <= staleMs
  {
    hide Collected, Fresh;
    FreshAre(last, now, staleMs);
    CollectedAre(Fresh(last, now, staleMs));
  }

  lemma PolledChain(y: System, z: System, u: Update)
    requires y.queue != [] && Ordered(Chain(y)) && AllReported(Chain(y), y.reported)
    requires forall l :: l in u.view ==> l in y.queue[|y.queue|-1]
    requires z.updates == y.updates + [u] && z.queue == [] && z.coordinator == y.coordinator && z.input == y.input
    ensures Ordered(Chain(z)) && AllReported(Chain(z), y.reported)
  {
    hide Ordered, AllReported, Views, Singles;
    ViewsExtend(y.updates, u);
    var front, back := Views(y.updates), [y.coordinator.loads] + Singles(y.input);
    assert Chain(y) == front + y.queue + back;
    assert Chain(z) == front + [u.view] + back;
    Drained(front, y.queue, u.view, back, y.reported);
  }

  /** Putting a part of the last queued view in place of the whole queue. */
  lemma Drained(
    front: seq<seq<EngineLoad>>, queue: seq<seq<EngineLoad>>, view: seq<EngineLoad>, back: seq<seq<EngineLoad>>,
    reported: seq<EngineLoad>)
    requires queue != [] && Ordered(front + queue + back) && AllReported(front + queue + back, reported)
    requires forall l :: l in view ==> l in queue[|queue|-1]
    ensures Ordered(front + [view] + back) && AllReported(front + [view] + back, reported)
  {
    hide Ordered, AllReported;
    var n, last := |queue| - 1, queue[|queue|-1];
    assert queue == queue[..n] + [last];
    assert front + queue + back == front + queue[..n] + ([last] + back);
    Dropped(front, queue[..n], [last] + back, reported);
    assert front + ([last] + back) == front + [last] + back;
    Thinned(front, last, view, back, reported);
  }

  lemma UpdateExtends(updates: seq<Update>, u: Update, staleMs: int)
    requires UpdatesFresh(updates, staleMs) && forall l :: l in u.view ==> u.time - l.ts <= staleMs
    ensures UpdatesFresh(updates + [u], staleMs)
  {
  }

  lemma ViewsExtend(updates: seq<Update>, u: Update)
    ensures Views(updates + [u]) == Views(updates) + [u.view]
  {
  }

  /** Taking in a report that no earlier one of its instance precedes. */
  lemma ReceiveKeepsChain(front: seq<seq<EngineLoad>>, loads: seq<EngineLoad>, input: seq<EngineLoad>, k: nat,
                          reported: seq<EngineLoad>)
    requires OnePerInstance(loads) && k < |input|
    requires Ordered(front + [loads] + Singles(input)) && AllReported(front + [loads] + Singles(input), reported)
    requires forall j :: 0 <= j < k ==> input[j].instance != input[k].instance
    ensures OnePerInstance(Assigned(loads, input[k]))
    ensures Ordered(front + [Assigned(loads, input[k])] + Singles(Removed(input, k)))
    ensures AllReported(front + [Assigned(loads, input[k])] + Singles(Removed(input, k)), reported)
  {
    hide Assigned, OnePerInstance, Ordered, NoOlder;
    var l, later := input[k], Removed(input, k);
    var loads' := Assigned(loads, l);
    AssignedIs(loads, l);
    OrderedParts(front + [loads], Singles(input));
    OrderedParts(front, [loads]);
    ReportedParts(front + [loads], Singles(input), reported);
    ReportedParts(front, [loads], reported);
    InputSplit(input, k);
    assert Singles(input)[k] == [l];
    assert (front + [loads])[|front|] == loads;
    forall i | 0 <= i < |front| ensures NoOlder(front[i], loads') {
      assert (front + [loads])[i] == front[i];
      assert NoOlder(front[i], loads) && NoOlder(front[i], [l]);
      JoinedNoOlder(front[i], loads, l, loads');
    }
    OneLink(loads');
    OrderedParts(front, [loads']);
    RestOrdered(front, loads, input, k, loads');
    assert loads in [loads] && [loads][0] == loads;
    assert l in Singles(input)[k];
    assert forall x :: x in loads' ==> x in reported;
    ReportedRest(input, k, reported);
    ReportedParts(front, [loads'], reported);
    ReportedParts(front + [loads'], Singles(later), reported);
  }

  lemma JoinedNoOlder(a: seq<EngineLoad>, loads: seq<EngineLoad>, l: EngineLoad, loads': seq<EngineLoad>)
    requires NoOlder(a, loads) && NoOlder(a, [l])
    requires forall x :: x in loads' ==> x == l || x in loads
    ensures NoOlder(a, loads')
  {
    assert l in [l];
  }

  lemma ReportedRest(input: seq<EngineLoad>, k: nat, reported: seq<EngineLoad>)
    requires k < |input| && AllReported(Singles(input), reported)
    ensures AllReported(Singles(Removed(input, k)), reported)
  {
    InputSplit(input, k);
    ReportedParts(Singles(input[..k]) + [[input[k]]], Singles(input[k+1..]), reported);
    ReportedParts(Singles(input[..k]), [[input[k]]], reported);
    ReportedParts(Singles(input[..k]), Singles(input[k+1..]), reported);
  }

  lemma RestOrdered(
    front: seq<seq<EngineLoad>>, loads: seq<EngineLoad>, input: seq<EngineLoad>, k: nat, loads': seq<EngineLoad>)
    requires k < |input| && Ordered(front + [loads] + Singles(input)) && Ordered(front + [loads'])
    requires forall j :: 0 <= j < k ==> input[j].instance != input[k].instance
    requires forall x :: x in loads' ==> x == input[k] || x in loads
    ensures Ordered(front + [loads'] + Singles(Removed(input, k)))
  {
    hide Ordered, NoOlder;
    var later := Removed(input, k);
    OrderedParts(front + [loads], Singles(input));
    var a, b := Singles(input[..k]), Singles(input[k+1..]);
    InputSplit(input, k);
    OrderedParts(a + [[input[k]]], b);
    OrderedParts(a, [[input[k]]]);
    forall i, j | 0 <= i < |a| && 0 <= j < |b| ensures NoOlder(a[i], b[j]) {
      assert (a + [[input[k]]])[i] == a[i];
    }
    OrderedParts(a, b);
    forall i, j | 0 <= i < |front + [loads']| && 0 <= j < |later|
      ensures NoOlder((front + [loads'])[i], Singles(later)[j])
    {
      var q := if j < k then j else j + 1;
      assert later[j] == input[q] && Singles(input)[q] == [input[q]];
      if i < |front| {
        assert (front + [loads])[i] == front[i] == (front + [loads'])[i];
        assert NoOlder((front + [loads])[i], Singles(input)[q]);
      } else {
        assert NoOlder((front + [loads])[|front|], Singles(input)[q]);
        if q > k {
          assert NoOlder(Singles(input)[k], Singles(input)[q]) by {
            LinkOrder(Singles(input), k, q);
          }
        }
        LoadsNoOlder(loads, input[k], input[q], loads');
      }
    }
    OrderedParts(front + [loads'], Singles(later));
  }

  lemma LinkOrder(chain: seq<seq<EngineLoad>>, i: nat, j: nat)
    requires Ordered(chain) && i < j < |chain|
    ensures NoOlder(chain[i], chain[j])
  {
  }

  lemma LoadsNoOlder(loads: seq<EngineLoad>, l: EngineLoad, m: EngineLoad, loads': seq<EngineLoad>)
    requires NoOlder(loads, [m]) && (l.instance != m.instance || NoOlder([l], [m]))
    requires forall x :: x in loads' ==> x == l || x in loads
    ensures NoOlder(loads', [m])
  {
    assert l in [l] && m in [m];
  }

  lemma TickKeepsInv(y: System, e: Event, c: Config)
    requires Inv(y, c) && e.Tick? && Enabled(y, e)
    ensures Inv(Next(y, e, c), c)
  {
    hide Ordered, AllReported, OnePerInstance, UpdatesFresh, Views, Singles, Assigned, Fresh;
    var z, front := Next(y, e, c), Views(y.updates) + y.queue;
    assert Chain(y) == front + [y.coordinator.loads] + Singles(y.input);
    if e.receive.Some? {
      ReceiveKeepsChain(front, y.coordinator.loads, y.input, e.receive.value, y.reported);
    }
    var loads, input := z.coordinator.loads, z.input;
    assert Ordered(front + [loads] + Singles(input)) && AllReported(front + [loads] + Singles(input), y.reported);
    if e.now - y.coordinator.lastPublish >= c.minInterval && e.subscribed {
      var sent := Fresh(loads, e.now, c.staleMs);
      FreshAre(loads, e.now, c.staleMs);
      Doubled(front, loads, sent, Singles(input), y.reported);
      assert z.queue == y.queue + [sent];
      assert Chain(z) == front + [sent] + [loads] + Singles(input);
    } else {
      assert Chain(z) == front + [loads] + Singles(input);
    }
  }

  lemma StepKeepsInv(y: System, e: Event, c: Config)
    requires Inv(y, c) && Enabled(y, e)
    ensures Inv(Next(y, e, c), c)
  {
    hide Inv, Next;
    match e {
      case Report(_, _) => ReportKeepsInv(y, e, c);
      case Tick(_, _, _) => TickKeepsInv(y, e, c);
      case LoseReport(_) => LoseReportKeepsInv(y, e, c);
      case LosePublication(_) => LosePublicationKeepsInv(y, e, c);
      case Poll(_) => PollKeepsInv(y, e, c);
    }
  }

  // ---------------------------------------------------------------- runs

  ghost predicate IsRun(y: System, events: seq<Event>, c: Config)
    decreases |events|
  {
    events == [] || (Enabled(y, events[0]) && IsRun(Next(y, events[0], c), events[1..], c))
  }

  ghost function After(y: System, events: seq<Event>, c: Config): System
    requires IsRun(y, events, c)
    decreases |events|
  {
    if events == [] then y else After(Next(y, events[0], c), events[1..], c)
  }

  /** The invariant holds after every run, and what was reported stays reported. */
  lemma {:induction false} RunKeepsInv(y: System, events: seq<Event>, c: Config)
    requires Inv(y, c) && IsRun(y, events, c)
    ensures Inv(After(y, events, c), c) && y.reported <= After(y, events, c).reported
    decreases |events|
  {
    if events != [] {
      StepKeepsInv(y, events[0], c);
      RunKeepsInv(Next(y, events[0], c), events[1..], c);
    }
  }

  /**
   Over every run from the start, with reports and publications lost at will: each load in each
   view the client has had was reported, and was not stale when that view was made; an
   instance's timestamp never goes back from one view to a later one, even when the instance is
   missing in between; and publications are at least the minimum interval apart.
   */
  lemma ViewsAreSound(events: seq<Event>, c: Config)
    requires IsRun(INITIAL, events, c)
    ensures
      var z := After(INITIAL, events, c);
      && (forall l :: l in z.view ==> l in z.reported)
      && (forall i, l :: 0 <= i < |z.updates| && l in z.updates[i].view ==>
            l in z.reported && z.updates[i].time - l.ts <= c.clientStaleMs)
      && (forall i, j :: 0 <= i < j < |z.updates| ==> NoOlder(z.updates[i].view, z.updates[j].view))
      && (forall i :: 0 < i < |z.publishTimes| ==> z.publishTimes[i] - z.publishTimes[i-1] >= c.minInterval)
  {
    InitialInv(c);
    RunKeepsInv(INITIAL, events, c);
    hide IsRun, After;
    InvSpeaks(After(INITIAL, events, c), c);
  }

  lemma InvSpeaks(z: System, c: Config)
    requires Inv(z, c)
    ensures forall i, l :: 0 <= i < |z.updates| && l in z.updates[i].view ==>
      l in z.reported && z.updates[i].time - l.ts <= c.clientStaleMs
    ensures forall i, j :: 0 <= i < j < |z.updates| ==> NoOlder(z.updates[i].view, z.updates[j].view)
    ensures forall l :: l in z.view ==> l in z.reported
  {
    var chain := Chain(z);
    assert forall i :: 0 <= i < |z.updates| ==> chain[i] == z.updates[i].view;
    forall i, j | 0 <= i < j < |z.updates| ensures NoOlder(z.updates[i].view, z.updates[j].view) {
      assert NoOlder(chain[i], chain[j]);
    }
  }

  ghost predicate AllFresh(view: seq<EngineLoad>, now: int, staleMs: int) {
    forall l :: l in view ==> now - l.ts <= staleMs
  }

  /** The earliest timestamp of a view. */
  function Oldest(view: seq<EngineLoad>): (t: int)
    requires view != []
    ensures (exists l :: l in view && l.ts == t) && forall l :: l in view ==> t <= l.ts
  {
    var first, rest := view[0], view[1..];
    assert view == [first] + rest;
    if rest == [] then first.ts
    else if first.ts <= Oldest(rest) then first.ts else Oldest(rest)
  }

  /**
   A view is filtered only when a message arrives: after a poll that finds one it is fresh, and
   after one that finds none it is fresh as long as its earliest timestamp is within the limit.
   */
  lemma FreshAfterPollExactly(y: System, c: Config, now: int)
    ensures AllFresh(Next(y, Poll(now), c).view, now, c.clientStaleMs) <==>
      y.queue != [] || y.view == [] || now <= Oldest(y.view) + c.clientStaleMs
  {
    if y.queue != [] {
      hide Collected, Fresh, Oldest;
      PolledView(y.queue[|y.queue|-1], now, c.clientStaleMs);
    }
  }

  // A stale view is reached by one report, one publication, and a second poll after the limit.

  function Reported(l: EngineLoad): System {
    System([l], [l], Coordinator([], 0), [], [], [], [])
  }

  function Published(l: EngineLoad): System {
    System([l], [], Coordinator([l], l.ts), [[l]], [], [], [l.ts])
  }

  function Viewed(l: EngineLoad): System {
    System([l], [], Coordinator([l], l.ts), [], [l], [Update(l.ts, [l])], [l.ts])
  }

  lemma FreshOne(l: EngineLoad, now: int, staleMs: int)
    requires now - l.ts <= staleMs
    ensures Fresh([l], now, staleMs) == [l] && Collected([l]) == [l]
  {
    assert [l][..0] == [];
  }

  lemma ReportStep(c: Config, l: EngineLoad)
    ensures Enabled(INITIAL, Report(l, true)) && Next(INITIAL, Report(l, true), c) == Reported(l)
  {
  }

  lemma PublishStep(c: Config, l: EngineLoad)
    requires c.staleMs >= 0 && l.ts == c.minInterval
    ensures Enabled(Reported(l), Tick(Some(0), l.ts, true))
    ensures Next(Reported(l), Tick(Some(0), l.ts, true), c) == Published(l)
  {
    FreshOne(l, l.ts, c.staleMs);
    hide Fresh;
    assert Removed([l], 0) == [];
  }

  lemma ViewStep(c: Config, l: EngineLoad)
    requires c.clientStaleMs >= 0
    ensures Next(Published(l), Poll(l.ts), c) == Viewed(l)
  {
    FreshOne(l, l.ts, c.clientStaleMs);
    hide Fresh, Collected;
  }

  lemma {:induction false} RunStep(y: System, e: Event, events: seq<Event>, c: Config)
    requires Enabled(y, e) && IsRun(Next(y, e, c), events, c)
    ensures IsRun(y, [e] + events, c) && After(y, [e] + events, c) == After(Next(y, e, c), events, c)
  {
    hide Next, Enabled;
    assert ([e] + events)[1..] == events;
  }

  lemma StaleViewReached(c: Config, l: EngineLoad) returns (events: seq<Event>, late: int)
    requires c.staleMs >= 0 && c.clientStaleMs >= 0 && l.ts == c.minInterval
    ensures late > l.ts + c.clientStaleMs && IsRun(INITIAL, events, c)
    ensures After(INITIAL, events, c).view == [l]
    ensures |events| == 4 && events[3] == Poll(late)
  {
    late := l.ts + c.clientStaleMs + 1;
    ReportStep(c, l);
    PublishStep(c, l);
    ViewStep(c, l);
    assert Next(Viewed(l), Poll(late), c) == Viewed(l);
    assert Enabled(Published(l), Poll(l.ts)) && Enabled(Viewed(l), Poll(late));
    assert IsRun(Viewed(l), [], c) && After(Viewed(l), [], c) == Viewed(l);
    hide Next, Enabled, IsRun, After;
    var last := [Poll(late)] + [];
    RunStep(Viewed(l), Poll(late), [], c);
    var polls := [Poll(l.ts)] + last;
    RunStep(Published(l), Poll(l.ts), last, c);
    var ticked := [Tick(Some(0), l.ts, true)] + polls;
    RunStep(Reported(l), Tick(Some(0), l.ts, true), polls, c);
    events := [Report(l, true)] + ticked;
    RunStep(INITIAL, Report(l, true), ticked, c);
  }
}
