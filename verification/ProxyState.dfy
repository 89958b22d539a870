/** The proxy's state: the load fields of its servers and the two heaps beside them. */
module ProxyState {
  import opened Wrappers
  import opened Heapq
  import opened ProxyPool

  class ProxyState {
    var prefillers: seq<Load>
    var decoders: seq<Load>
    var prefillerHeap: seq<Entry>
    var decoderHeap: seq<Entry>

    ghost function Prefillers(): Pool
      reads this
    {
      Pool(prefillers, prefillerHeap)
    }

    ghost function Decoders(): Pool
      reads this
    {
      Pool(decoders, decoderHeap)
    }

    /** Each heap mirrors its servers' loads. */
    ghost predicate Valid()
      reads this
    {
      Mirrors(Prefiller, Prefillers()) && Mirrors(Decoder, Decoders())
    }

    constructor (numPrefillers: nat, numDecoders: nat)
      ensures Valid()
      ensures Prefillers() == Idle(numPrefillers) && Decoders() == Idle(numDecoders)
    {
      prefillers, prefillerHeap := Idle(numPrefillers).loads, Idle(numPrefillers).heap;
      decoders, decoderHeap := Idle(numDecoders).loads, Idle(numDecoders).heap;
      IdleIsOrdered(Prefiller, numPrefillers);
      IdleIsOrdered(Decoder, numDecoders);
    }

    method UpdatePrefillerPriority(server: nat)
      requires server < |prefillers|
      modifies this`prefillerHeap
      ensures Prefillers() == Reprioritised(Prefiller, old(Prefillers()), server)
    {
      var priority := prefillers[server].tokens + prefillers[server].kv * 0.3;
      prefillerHeap := Push(Without(prefillerHeap, server), Entry(priority, server));
    }

    method UpdateDecoderPriority(server: nat)
      requires server < |decoders|
      modifies this`decoderHeap
      ensures Decoders() == Reprioritised(Decoder, old(Decoders()), server)
    {
      var priority := decoders[server].tokens;
      decoderHeap := Push(Without(decoderHeap, server), Entry(priority, server));
    }

    method SelectPrefiller(tokens: real) returns (chosen: Option<nat>)
      requires Valid()
      modifies this`prefillers, this`prefillerHeap
      ensures Valid()
      ensures (chosen, Prefillers()) == Selected(Prefiller, old(Prefillers()), tokens)
    {
      if prefillerHeap == [] {
        return None;
      }
      hide Mirrors, Pop, Push, Reprioritised, Priority;
      ghost var z := Selected(Prefiller, Prefillers(), tokens);
      EntryServer(Prefiller, Prefillers(), 0);
      SelectKeepsMirror(Prefiller, Prefillers(), tokens);
      var (entry, rest) := Pop(prefillerHeap);
      prefillerHeap := rest;
      var server := prefillers[entry.server];
      server := server.(tokens := server.tokens + tokens);
      server := server.(kv := server.kv + tokens);
      prefillers := prefillers[entry.server := server];
      assert server == Added(Prefiller, old(prefillers)[entry.server], tokens);
      assert z == (Some(entry.server), Reprioritised(Prefiller, Prefillers(), entry.server));
      hide Selected;
      UpdatePrefillerPriority(entry.server);
      return Some(entry.server);
    }

    method ReleasePrefiller(server: nat, tokens: real)
      requires Valid() && server < |prefillers|
      modifies this`prefillers, this`prefillerHeap
      ensures Valid()
      ensures Prefillers() == Released(Prefiller, old(Prefillers()), server, tokens)
    {
      hide Mirrors, Reprioritised;
      ReleaseKeepsMirror(Prefiller, Prefillers(), server, tokens);
      prefillers := prefillers[server := prefillers[server].(tokens := prefillers[server].tokens - tokens)];
      UpdatePrefillerPriority(server);
    }

    method ReleasePrefillerKv(server: nat, tokens: real)
      requires Valid() && server < |prefillers|
      modifies this`prefillers, this`prefillerHeap
      ensures Valid()
      ensures Prefillers() == ReleasedKv(old(Prefillers()), server, tokens)
    {
      hide Mirrors, Reprioritised;
      ReleaseKvKeepsMirror(Prefillers(), server, tokens);
      if prefillers[server].kv > 0.0 {
        prefillers := prefillers[server := prefillers[server].(kv := prefillers[server].kv - tokens)];
      }
      assert old(prefillers)[server := old(prefillers)[server]] == old(prefillers);
      UpdatePrefillerPriority(server);
    }

    method SelectDecoder(tokens: real) returns (chosen: Option<nat>)
      requires Valid()
      modifies this`decoders, this`decoderHeap
      ensures Valid()
      ensures (chosen, Decoders()) == Selected(Decoder, old(Decoders()), tokens)
    {
      if decoderHeap == [] {
        return None;
      }
      hide Mirrors, Pop, Push, Reprioritised, Priority;
      ghost var z := Selected(Decoder, Decoders(), tokens);
      EntryServer(Decoder, Decoders(), 0);
      SelectKeepsMirror(Decoder, Decoders(), tokens);
      var (entry, rest) := Pop(decoderHeap);
      decoderHeap := rest;
      var server := decoders[entry.server];
      decoders := decoders[entry.server := server.(tokens := server.tokens + tokens)];
      assert decoders[entry.server] == Added(Decoder, old(decoders)[entry.server], tokens);
      assert z == (Some(entry.server), Reprioritised(Decoder, Decoders(), entry.server));
      hide Selected;
      UpdateDecoderPriority(entry.server);
      return Some(entry.server);
    }

    method ReleaseDecoder(server: nat, tokens: real)
      requires Valid() && server < |decoders|
      modifies this`decoders, this`decoderHeap
      ensures Valid()
      ensures Decoders() == Released(Decoder, old(Decoders()), server, tokens)
    {
      hide Mirrors, Reprioritised;
      ReleaseKeepsMirror(Decoder, Decoders(), server, tokens);
      decoders := decoders[server := decoders[server].(tokens := decoders[server].tokens - tokens)];
      UpdateDecoderPriority(server);
    }
  }
}
