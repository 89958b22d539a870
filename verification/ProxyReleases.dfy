/**
 Runs that mix selects and releases. A release rebuilds the heap by filtering and can leave it
 out of order; this module says what that does, and does not do, to later selections.
 */
module ProxyReleases {
  import opened Heapq
  import opened ProxyPool

  datatype Event =
    | Select(tokens: real)
    | Release(server: nat, tokens: real)
    | ReleaseKv(server: nat, tokens: real)

  /** Releases name a server and give back no negative amount; only prefillers hold kv cache. */
  predicate Allowed(role: Role, p: Pool, e: Event) {
    match e
    case Select(tokens) => true
    case Release(server, tokens) => server < |p.loads| && tokens >= 0.0
    case ReleaseKv(server, tokens) => role.Prefiller? && server < |p.loads| && tokens >= 0.0
  }

  function Step(role: Role, p: Pool, e: Event): Pool
    requires Mirrors(role, p) && Allowed(role, p, e)
  {
    match e
    case Select(tokens) => Selected(role, p, tokens).1
    case Release(server, tokens) => Released(role, p, server, tokens)
    case ReleaseKv(server, tokens) => ReleasedKv(p, server, tokens)
  }

  lemma StepKeepsMirror(role: Role, p: Pool, e: Event)
    requires Mirrors(role, p) && Allowed(role, p, e)
    ensures Mirrors(role, Step(role, p, e)) && |Step(role, p, e).loads| == |p.loads|
  {
    hide Mirrors, Push, Without;
    match e {
      case Select(tokens) =>
        SelectKeepsMirror(role, p, tokens);
        if p.heap != [] {
          EntryServer(role, p, 0);
        }
      case Release(server, tokens) => ReleaseKeepsMirror(role, p, server, tokens);
      case ReleaseKv(server, tokens) => ReleaseKvKeepsMirror(p, server, tokens);
    }
  }

  ghost predicate IsRun(role: Role, p: Pool, events: seq<Event>)
    requires Mirrors(role, p)
    decreases |events|
  {
    events != [] ==>
      && Allowed(role, p, events[0])
      && (StepKeepsMirror(role, p, events[0]); IsRun(role, Step(role, p, events[0]), events[1..]))
  }

  ghost function After(role: Role, p: Pool, events: seq<Event>): Pool
    requires Mirrors(role, p) && IsRun(role, p, events)
    decreases |events|
  {
    if events == [] then p
    else
      StepKeepsMirror(role, p, events[0]);
      After(role, Step(role, p, events[0]), events[1..])
  }

  /** After any run of selects and releases every server still has exactly one entry, with its present load. */
  lemma {:induction false} RunKeepsMirror(role: Role, p: Pool, events: seq<Event>)
    requires Mirrors(role, p) && IsRun(role, p, events)
    ensures Mirrors(role, After(role, p, events)) && |After(role, p, events).loads| == |p.loads|
    decreases |events|
  {
    if events != [] {
      StepKeepsMirror(role, p, events[0]);
      RunKeepsMirror(role, Step(role, p, events[0]), events[1..]);
    }
  }

  // ---------------------------------------------------------------- a release keeps the root

  lemma {:induction false} LeastRises(h: seq<Entry>, pos: nat)
    requires pos < |h| && forall k :: 0 <= k < |h| && k != pos ==> Less(h[pos], h[k])
    ensures SiftDown(h, pos)[0] == h[pos]
    decreases pos
  {
    if pos > 0 {
      LeastRises(Swapped(h, pos, Parent(pos)), Parent(pos));
    }
  }

  lemma RootLeastOf(h: seq<Entry>, before: seq<Entry>)
    requires h != [] && multiset(h) == multiset(before)
    requires forall k :: 0 <= k < |before| ==> !Less(before[k], h[0])
    ensures RootLeast(h)
  {
    forall k | 0 <= k < |h| ensures !Less(h[k], h[0]) {
      assert h[k] in multiset(h);
      assert h[k] in before;
    }
  }

  lemma PushedLeast(h: seq<Entry>, e: Entry)
    requires forall k :: 0 <= k < |h| ==> Less(e, h[k])
    ensures RootLeast(Push(h, e))
  {
    LeastRises(h + [e], |h|);
    SiftDownKeepsEntries(h + [e], |h|);
    RootLeastOf(Push(h, e), h + [e]);
  }

  lemma PushKeepsRootLeast(h: seq<Entry>, e: Entry)
    requires RootLeast(h)
    ensures RootLeast(Push(h, e))
  {
    if h == [] || Less(e, h[0]) {
      PushedLeast(h, e);
    } else {
      SiftDownLeavesSmaller(h + [e], |h|, 0);
      SiftDownKeepsEntries(h + [e], |h|);
      RootLeastOf(Push(h, e), h + [e]);
    }
  }

  lemma {:induction false} WithoutOthers(h: seq<Entry>, server: nat)
    ensures forall k :: 0 <= k < |Without(h, server)| ==> Without(h, server)[k] in h && Without(h, server)[k].server != server
    ensures h != [] && h[0].server != server ==> Without(h, server) != [] && Without(h, server)[0] == h[0]
  {
    if h != [] {
      WithoutOthers(h[..|h|-1], server);
    }
  }

  /** Lowering one server's entry by filtering and pushing keeps the least entry at the root. */
  lemma LoweredKeepsRootLeast(h: seq<Entry>, server: nat, e: Entry, k: nat)
    requires RootLeast(h) && e.server == server
    requires k < |h| && h[k].server == server && e.priority <= h[k].priority
    requires forall j :: 0 <= j < |h| && j != k ==> h[j].server != server
    ensures RootLeast(Push(Without(h, server), e))
  {
    hide Without, Push;
    var others := Without(h, server);
    WithoutOthers(h, server);
    if k == 0 {
      forall j | 0 <= j < |others| ensures Less(e, others[j]) {
        assert !Less(others[j], h[0]);
      }
      PushedLeast(others, e);
    } else {
      forall j | 0 <= j < |others| ensures !Less(others[j], others[0]) {
        assert others[j] in h && others[0] == h[0];
      }
      PushKeepsRootLeast(others, e);
    }
  }

  /** In a heap that mirrors the loads, a server's entry is where no other entry of it is. */
  lemma OneEntryEach(role: Role, p: Pool, server: nat) returns (k: nat)
    requires Mirrors(role, p) && server < |p.loads|
    ensures k < |p.heap| && p.heap[k] == Entry(Priority(role, p.loads[server]), server)
    ensures forall j :: 0 <= j < |p.heap| && j != k ==> p.heap[j].server != server
  {
    EntryPresent(role, p, server);
    var e := Entry(Priority(role, p.loads[server]), server);
    k :| 0 <= k < |p.heap| && p.heap[k] == e;
    EntriesCount(role, p.loads, e);
    forall j | 0 <= j < |p.heap| && j != k ensures p.heap[j].server != server {
      if p.heap[j].server == server {
        EntryServer(role, p, j);
        TwiceCounted(p.heap, if j < k then j else k, if j < k then k else j);
      }
    }
  }

  lemma TwiceCounted(h: seq<Entry>, i: nat, j: nat)
    requires i < j < |h| && h[i] == h[j]
    ensures multiset(h)[h[i]] >= 2
  {
    assert h == h[..i] + [h[i]] + h[i+1..j] + [h[j]] + h[j+1..];
  }

  /** A release, of tokens or of kv cache, never moves the least entry away from the root. */
  lemma ReleaseKeepsRootLeast(role: Role, p: Pool, e: Event)
    requires Mirrors(role, p) && Allowed(role, p, e) && !e.Select?
    requires RootLeast(p.heap)
    ensures RootLeast(Step(role, p, e).heap)
  {
    hide Mirrors, Push, Without, RootLeast;
    var k := OneEntryEach(role, p, e.server);
    var load := Step(role, p, e).loads[e.server];
    LoweredKeepsRootLeast(p.heap, e.server, Entry(Priority(role, load), e.server), k);
  }

  // ---------------------------------------------------------------- up to four servers

  /** With at most four entries a pop always leaves a heap, in order or not before. */
  lemma PopOfFew(h: seq<Entry>)
    requires 0 < |h| <= 4
    ensures IsHeap(Pop(h).1)
  {
    var last, rest := h[|h|-1], h[..|h|-1];
    if rest != [] {
      assert OrderedAround(rest[0 := last], 0);
      SiftUpOrders(rest[0 := last], 0);
    }
  }

  lemma SelectOfFew(role: Role, p: Pool, tokens: real)
    requires Mirrors(role, p) && |p.loads| <= 4
    ensures IsHeap(Selected(role, p, tokens).1.heap)
  {
    MirrorsSize(role, p);
    if p.heap != [] {
      hide Pop, Push, EntriesOf, IsHeap;
      PopOfFew(p.heap);
      PoppedIsGone(role, p);
      EntryServer(role, p, 0);
      var server := p.heap[0].server;
      PushKeepsHeap(Pop(p.heap).1, Entry(Priority(role, Added(role, p.loads[server], tokens)), server));
    } else {
      assert IsHeap(p.heap);
    }
  }

  /** After every run the next select would choose a least-loaded server. */
  lemma {:induction false} FewServersSelectLeast(role: Role, p: Pool, events: seq<Event>)
    requires Mirrors(role, p) && RootLeast(p.heap) && |p.loads| <= 4 && IsRun(role, p, events)
    ensures RootLeast(After(role, p, events).heap)
    decreases |events|
  {
    if events != [] {
      var e := events[0];
      StepKeepsMirror(role, p, e);
      if e.Select? {
        SelectOfFew(role, p, e.tokens);
        HeapRootLeast(Step(role, p, e).heap);
      } else {
        ReleaseKeepsRootLeast(role, p, e);
      }
      hide RootLeast, Step;
      FewServersSelectLeast(role, Step(role, p, e), events[1..]);
    }
  }
}
