/**
 One side of the proxy, prefill or decode, as a value: the load of every server and the heap
 that is meant to mirror those loads.
 */
module ProxyPool {
  import opened Wrappers
  import opened Heapq

  datatype Role = Prefiller | Decoder

  datatype Load = Load(tokens: real, kv: real)

  datatype Pool = Pool(loads: seq<Load>, heap: seq<Entry>)

  function Priority(role: Role, load: Load): real {
    if role.Prefiller? then load.tokens + load.kv * 0.3 else load.tokens
  }

  function Without(h: seq<Entry>, server: nat): (r: seq<Entry>)
    ensures |r| <= |h|
  {
    if h == [] then []
    else
      var r := Without(h[..|h|-1], server);
      if h[|h|-1].server != server then r + [h[|h|-1]] else r
  }

  /** Drop the server's entry and push one with its present load. */
  function Reprioritised(role: Role, p: Pool, server: nat): Pool
    requires server < |p.loads|
  {
    p.(heap := Push(Without(p.heap, server), Entry(Priority(role, p.loads[server]), server)))
  }

  /** Every server has exactly one entry, with its present load. */
  ghost predicate Mirrors(role: Role, p: Pool) {
    multiset(p.heap) == multiset(EntriesOf(role, p.loads))
  }

  function EntriesOf(role: Role, loads: seq<Load>): (r: seq<Entry>)
    ensures |r| == |loads|
  {
    seq(|loads|, i requires 0 <= i < |loads| => Entry(Priority(role, loads[i]), i))
  }

  function Added(role: Role, load: Load, tokens: real): Load {
    Load(load.tokens + tokens, if role.Prefiller? then load.kv + tokens else load.kv)
  }

  /** select_prefiller and select_decoder: None when there is no server. */
  function Selected(role: Role, p: Pool, tokens: real): (Option<nat>, Pool)
    requires Mirrors(role, p)
  {
    if p.heap == [] then (None, p)
    else
      var (entry, rest) := Pop(p.heap);
      EntryServer(role, p, 0);
      (Some(entry.server),
       Reprioritised(role, Pool(p.loads[entry.server := Added(role, p.loads[entry.server], tokens)], rest), entry.server))
  }

  function Released(role: Role, p: Pool, server: nat, tokens: real): Pool
    requires server < |p.loads|
  {
    Reprioritised(role, p.(loads := p.loads[server := p.loads[server].(tokens := p.loads[server].tokens - tokens)]), server)
  }

  function ReleasedKv(p: Pool, server: nat, tokens: real): Pool
    requires server < |p.loads|
  {
    var load := p.loads[server];
    var after := if load.kv > 0.0 then load.(kv := load.kv - tokens) else load;
    Reprioritised(Prefiller, p.(loads := p.loads[server := after]), server)
  }

  // ---------------------------------------------------------------- the heap mirrors the loads

  /** How often an entry occurs among the entries of the loads: once if it is up to date. */
  lemma {:induction false} EntriesCount(role: Role, loads: seq<Load>, e: Entry)
    ensures multiset(EntriesOf(role, loads))[e]
      == if e.server < |loads| && e.priority == Priority(role, loads[e.server]) then 1 else 0
  {
    var all := EntriesOf(role, loads);
    if loads != [] {
      var n := |loads| - 1;
      EntriesCount(role, loads[..n], e);
      assert all == EntriesOf(role, loads[..n]) + [all[n]];
    }
  }

  lemma {:induction false} WithoutCount(h: seq<Entry>, server: nat, e: Entry)
    ensures multiset(Without(h, server))[e] == if e.server == server then 0 else multiset(h)[e]
  {
    if h != [] {
      WithoutCount(h[..|h|-1], server, e);
      assert h == h[..|h|-1] + [h[|h|-1]];
    }
  }

  lemma EntryServer(role: Role, p: Pool, k: nat)
    requires Mirrors(role, p) && k < |p.heap|
    ensures p.heap[k].server < |p.loads| && p.heap[k].priority == Priority(role, p.loads[p.heap[k].server])
  {
    EntriesCount(role, p.loads, p.heap[k]);
    assert p.heap[k] in multiset(p.heap);
  }

  lemma MirrorsSize(role: Role, p: Pool)
    requires Mirrors(role, p)
    ensures |p.heap| == |p.loads|
  {
    assert |multiset(p.heap)| == |p.heap| && |multiset(EntriesOf(role, p.loads))| == |p.loads|;
  }

  /** Whatever the server's own entry was, or whether it had one, afterwards the heap mirrors the loads. */
  lemma ReprioritisedMirrors(role: Role, p: Pool, server: nat)
    requires server < |p.loads|
    requires forall e: Entry :: e.server != server ==> multiset(p.heap)[e] == multiset(EntriesOf(role, p.loads))[e]
    ensures Mirrors(role, Reprioritised(role, p, server))
  {
    hide Push, EntriesOf;
    var fresh' := Entry(Priority(role, p.loads[server]), server);
    PushAddsEntry(Without(p.heap, server), fresh');
    forall e: Entry ensures multiset(Reprioritised(role, p, server).heap)[e] == multiset(EntriesOf(role, p.loads))[e] {
      WithoutCount(p.heap, server, e);
      EntriesCount(role, p.loads, e);
    }
  }

  /** Changing one server's load leaves the others' entries right. */
  lemma OthersMirror(role: Role, p: Pool, loads: seq<Load>, server: nat)
    requires Mirrors(role, p) && server < |p.loads| && |loads| == |p.loads|
    requires forall i :: 0 <= i < |loads| && i != server ==> loads[i] == p.loads[i]
    ensures forall e: Entry :: e.server != server ==> multiset(p.heap)[e] == multiset(EntriesOf(role, loads))[e]
  {
    hide EntriesOf;
    forall e: Entry | e.server != server ensures multiset(p.heap)[e] == multiset(EntriesOf(role, loads))[e] {
      EntriesCount(role, p.loads, e);
      EntriesCount(role, loads, e);
    }
  }

  lemma SelectKeepsMirror(role: Role, p: Pool, tokens: real)
    requires Mirrors(role, p)
    ensures Mirrors(role, Selected(role, p, tokens).1)
  {
    if p.heap != [] {
      hide Pop, Reprioritised, EntriesOf;
      var (entry, rest) := Pop(p.heap);
      EntryServer(role, p, 0);
      var server := entry.server;
      var loads := p.loads[server := Added(role, p.loads[server], tokens)];
      PopRemovesEntry(p.heap);
      OthersMirror(role, p, loads, server);
      ReprioritisedMirrors(role, Pool(loads, rest), server);
    }
  }

  lemma ReleaseKeepsMirror(role: Role, p: Pool, server: nat, tokens: real)
    requires Mirrors(role, p) && server < |p.loads|
    ensures Mirrors(role, Released(role, p, server, tokens))
  {
    hide Reprioritised, EntriesOf;
    var loads := p.loads[server := p.loads[server].(tokens := p.loads[server].tokens - tokens)];
    OthersMirror(role, p, loads, server);
    ReprioritisedMirrors(role, p.(loads := loads), server);
  }

  lemma ReleaseKvKeepsMirror(p: Pool, server: nat, tokens: real)
    requires Mirrors(Prefiller, p) && server < |p.loads|
    ensures Mirrors(Prefiller, ReleasedKv(p, server, tokens))
  {
    hide Reprioritised, EntriesOf;
    var load := p.loads[server];
    var after := if load.kv > 0.0 then load.(kv := load.kv - tokens) else load;
    var loads := p.loads[server := after];
    OthersMirror(Prefiller, p, loads, server);
    ReprioritisedMirrors(Prefiller, p.(loads := loads), server);
  }

  // ---------------------------------------------------------------- least-loaded selection

  /** The root is smallest; the rest may be in any order. */
  ghost predicate RootLeast(h: seq<Entry>) {
    forall k :: 0 <= k < |h| ==> !Less(h[k], h[0])
  }

  lemma HeapRootLeast(h: seq<Entry>)
    requires IsHeap(h)
    ensures RootLeast(h)
  {
    forall k | 0 <= k < |h| ensures !Less(h[k], h[0]) {
      RootIsLeast(h, k);
    }
  }

  ghost predicate LeastLoaded(role: Role, loads: seq<Load>, server: nat) {
    && server < |loads|
    && forall i :: 0 <= i < |loads| ==> Priority(role, loads[server]) <= Priority(role, loads[i])
  }

  lemma {:induction false} EntryPresent(role: Role, p: Pool, server: nat)
    requires Mirrors(role, p) && server < |p.loads|
    ensures Entry(Priority(role, p.loads[server]), server) in p.heap
  {
    var e := Entry(Priority(role, p.loads[server]), server);
    EntriesCount(role, p.loads, e);
    assert e in multiset(p.heap);
  }

  /** The root being least is exactly what makes a select choose a least-loaded server, the first one among equals. */
  lemma RootDecidesSelection(role: Role, p: Pool)
    requires Mirrors(role, p) && p.heap != []
    ensures RootLeast(p.heap) <==>
      && LeastLoaded(role, p.loads, p.heap[0].server)
      && forall i :: 0 <= i < p.heap[0].server && i < |p.loads| ==> !LeastLoaded(role, p.loads, i)
  {
    var root := p.heap[0];
    EntryServer(role, p, 0);
    if RootLeast(p.heap) {
      forall i | 0 <= i < |p.loads| ensures !Less(Entry(Priority(role, p.loads[i]), i), root) {
        EntryPresent(role, p, i);
      }
    } else {
      var k :| 0 <= k < |p.heap| && Less(p.heap[k], root);
      EntryServer(role, p, k);
      var other := p.heap[k].server;
      if LeastLoaded(role, p.loads, root.server) {
        assert LeastLoaded(role, p.loads, other);
      }
    }
  }

  // ---------------------------------------------------------------- runs of selects

  lemma SelectKeepsHeap(role: Role, p: Pool, tokens: real)
    requires Mirrors(role, p) && IsHeap(p.heap)
    ensures IsHeap(Selected(role, p, tokens).1.heap)
  {
    if p.heap != [] {
      hide Pop, Push, EntriesOf, IsHeap;
      var (entry, rest) := Pop(p.heap);
      PopKeepsHeap(p.heap);
      PoppedIsGone(role, p);
      EntryServer(role, p, 0);
      var server := entry.server;
      PushKeepsHeap(rest, Entry(Priority(role, Added(role, p.loads[server], tokens)), server));
    }
  }

  /** After a pop the filter finds nothing to drop. */
  lemma PoppedIsGone(role: Role, p: Pool)
    requires Mirrors(role, p) && p.heap != []
    ensures Without(Pop(p.heap).1, p.heap[0].server) == Pop(p.heap).1
  {
    hide Pop, EntriesOf;
    var root, rest := p.heap[0], Pop(p.heap).1;
    PopRemovesEntry(p.heap);
    EntryServer(role, p, 0);
    forall k | 0 <= k < |rest| ensures rest[k].server != root.server {
      var e := rest[k];
      assert e in multiset(rest);
      assert multiset(p.heap)[e] == multiset(rest)[e] + multiset{root}[e];
      EntriesCount(role, p.loads, e);
      EntriesCount(role, p.loads, root);
    }
    WithoutNobody(rest, root.server);
  }

  lemma {:induction false} WithoutNobody(h: seq<Entry>, server: nat)
    requires forall k :: 0 <= k < |h| ==> h[k].server != server
    ensures Without(h, server) == h
  {
    if h != [] {
      WithoutNobody(h[..|h|-1], server);
    }
  }

  function AllSelected(role: Role, p: Pool, counts: seq<real>): Pool
    requires Mirrors(role, p)
    decreases |counts|
  {
    if counts == [] then p
    else
      SelectKeepsMirror(role, p, counts[0]);
      AllSelected(role, Selected(role, p, counts[0]).1, counts[1..])
  }

  /** No two servers' loads are further apart than most. */
  ghost predicate Balanced(role: Role, loads: seq<Load>, most: real) {
    forall i, j :: 0 <= i < |loads| && 0 <= j < |loads| ==>
      Priority(role, loads[i]) - Priority(role, loads[j]) <= most
  }

  /** What one selected token adds to a priority. */
  function TokenWeight(role: Role): real {
    if role.Prefiller? then 1.3 else 1.0
  }

  lemma SelectKeepsBalance(role: Role, p: Pool, tokens: real, most: real)
    requires Mirrors(role, p) && IsHeap(p.heap) && Balanced(role, p.loads, most * TokenWeight(role))
    requires 0.0 <= tokens <= most
    ensures Balanced(role, Selected(role, p, tokens).1.loads, most * TokenWeight(role))
  {
    if p.heap != [] {
      HeapRootLeast(p.heap);
      RootDecidesSelection(role, p);
      var load := p.loads[p.heap[0].server];
      assert Priority(role, Added(role, load, tokens)) == Priority(role, load) + tokens * TokenWeight(role);
    }
  }

  /**
   In a run of selects alone the heap stays in order and mirrors the loads, the next select
   takes a least-loaded server, and no two priorities differ by more than the largest token
   count adds to one: decoder loads never differ by more than that count.
   */
  lemma {:induction false} SelectsStayBalanced(role: Role, p: Pool, counts: seq<real>, most: real)
    requires Mirrors(role, p) && IsHeap(p.heap) && Balanced(role, p.loads, most * TokenWeight(role))
    requires forall k :: 0 <= k < |counts| ==> 0.0 <= counts[k] <= most
    ensures
      var z := AllSelected(role, p, counts);
      && Mirrors(role, z) && IsHeap(z.heap) && Balanced(role, z.loads, most * TokenWeight(role))
      && (z.heap != [] ==> LeastLoaded(role, z.loads, z.heap[0].server))
    decreases |counts|
  {
    hide IsHeap, Balanced, EntriesOf, TokenWeight;
    if counts == [] {
      HeapRootLeast(p.heap);
      if p.heap != [] {
        RootDecidesSelection(role, p);
      }
    } else {
      SelectKeepsMirror(role, p, counts[0]);
      SelectKeepsHeap(role, p, counts[0]);
      SelectKeepsBalance(role, p, counts[0], most);
      SelectsStayBalanced(role, Selected(role, p, counts[0]).1, counts[1..], most);
    }
  }

  /** What the constructor builds: nobody loaded, entries in server order. */
  function Idle(n: nat): Pool {
    Pool(seq(n, _ => Load(0.0, 0.0)), seq(n, i requires 0 <= i < n => Entry(0.0, i)))
  }

  lemma IdleIsOrdered(role: Role, n: nat)
    ensures Mirrors(role, Idle(n)) && IsHeap(Idle(n).heap) && Balanced(role, Idle(n).loads, 0.0)
  {
    assert Idle(n).heap == EntriesOf(role, Idle(n).loads);
  }
}
