/** The follower loop (kachat-names/src/follower.rs): reorg-safe steps over an in-place registry. */
module FollowerLoop {
  import opened Base
  import opened States
  import opened Ingest
  import opened Undo
  import opened Chain
  import opened RegistryEngine

  /** Profile records applied in order, each journaled when accepted. */
  function ReplayProfiles(h: Host, r: Reg, txs: seq<Tx>): Reg {
    if txs == [] then r
    else
      var before, tx := ReplayProfiles(h, r, txs[..|txs| - 1]), txs[|txs| - 1];
      match AcceptedProfile(h, before.profiles, tx)
      case None => before
      case Some(p) =>
        Reg(before.utxos, before.profiles[p.0 := p.1],
            before.journal + [UndoEntry(tx.block, [], [], ProfileUndoOf(before.profiles, Some(p)))])
  }

  /** The transactions whose record was accepted, in order. */
  function AcceptedIds(h: Host, r: Reg, txs: seq<Tx>): seq<Bytes32> {
    if txs == [] then []
    else
      var before, tx := ReplayProfiles(h, r, txs[..|txs| - 1]), txs[|txs| - 1];
      AcceptedIds(h, r, txs[..|txs| - 1]) + if AcceptedProfile(h, before.profiles, tx).Some? then [tx.id] else []
  }

  function StepProfilesReg(h: Host, r: Reg, keep: nat, batch: Batch): Reg {
    var after := ReplayProfiles(h, UndoBlocks(r, batch.removed), batch.accepted);
    after.(journal := Prune(after.journal, keep))
  }

  function RunProfiles(h: Host, seed: Reg, keep: nat, turns: seq<Turn>): Reg {
    if turns == [] then seed
    else StepProfilesReg(h, RunProfiles(h, seed, keep, turns[..|turns| - 1]), keep, turns[|turns| - 1].batch)
  }

  function WithShards(utxos: Utxos, shards: seq<(Outpoint, PriceState)>): Utxos {
    if shards == [] then utxos
    else
      var last := shards[|shards| - 1];
      WithShards(utxos, shards[..|shards| - 1])[last.0 := Shard(last.1)]
  }

  predicate LastAt(shards: seq<(Outpoint, PriceState)>, i: int, op: Outpoint) {
    0 <= i < |shards| && shards[i].0 == op && forall j :: i < j < |shards| ==> shards[j].0 != op
  }

  /** The last entry of an outpoint counts, and nothing but the listed outpoints changes. */
  lemma {:induction false} ShardsSeeded(utxos: Utxos, shards: seq<(Outpoint, PriceState)>, op: Outpoint)
    ensures var u := WithShards(utxos, shards);
            (forall i :: LastAt(shards, i, op) ==> op in u && u[op] == Shard(shards[i].1))
            && ((forall i :: 0 <= i < |shards| ==> shards[i].0 != op) ==>
                  (op in u <==> op in utxos) && (op in u ==> u[op] == utxos[op]))
  {
    if shards != [] {
      var init := shards[..|shards| - 1];
      ShardsSeeded(utxos, init, op);
      assert forall i :: 0 <= i < |init| ==> init[i] == shards[i];
      assert forall i :: LastAt(shards, i, op) && i < |init| ==> LastAt(init, i, op);
    }
  }

  class Follower {
    const registry: Registry
    var checkpoint: Option<Bytes32>
    const finalityKeep: nat

    constructor (keep: nat)
      ensures fresh(registry) && registry.State() == Reg(map[], map[], [])
      ensures checkpoint == None && finalityKeep == keep
    {
      registry := new Registry();
      checkpoint := None;
      finalityKeep := keep;
    }

    /** A follower that takes over a loaded registry. */
    constructor Resume(keep: nat, loaded: Registry, at: Option<Bytes32>)
      ensures registry == loaded && checkpoint == at && finalityKeep == keep
    {
      registry := loaded;
      checkpoint := at;
      finalityKeep := keep;
    }

    /** Seeds the genesis gap and starts from the manifest's scan-from block. */
    method Seed(scanFrom: Bytes32, genesis: Outpoint, gap: GapState)
      modifies this, registry
      ensures registry.State() == old(registry.State()).(utxos := old(registry.utxos)[genesis := Gap(gap)])
      ensures checkpoint == Some(scanFrom)
    {
      registry.SeedGenesis(genesis, gap);
      checkpoint := Some(scanFrom);
    }

    /** Registry v3: the price genesis seeds the shards. */
    method SeedShards(shards: seq<(Outpoint, PriceState)>)
      modifies registry
      ensures registry.State() == old(registry.State()).(utxos := WithShards(old(registry.utxos), shards))
      ensures forall i, op :: LastAt(shards, i, op) ==>
                op in registry.utxos && registry.utxos[op] == Shard(shards[i].1)
    {
      forall op {
        ShardsSeeded(registry.utxos, shards, op);
      }
      for i := 0 to |shards|
        invariant registry.State() == old(registry.State()).(utxos := WithShards(old(registry.utxos), shards[..i]))
      {
        assert shards[..i + 1][..i] == shards[..i];
        registry.SeedShard(shards[i].0, shards[i].1);
      }
      assert shards[..|shards|] == shards;
    }

    method UndoRemoved(blocks: seq<Bytes32>)
      modifies registry
      ensures registry.State() == UndoBlocks(old(registry.State()), blocks)
    {
      for i := 0 to |blocks|
        invariant registry.State() == UndoBlocks(old(registry.State()), blocks[..i])
      {
        assert blocks[..i + 1][..i] == blocks[..i];
        registry.UndoBlock(blocks[i]);
      }
      assert blocks[..|blocks|] == blocks;
    }

    /** Takes one batch (None when the source failed): undo the removed blocks, apply the accepted
        transactions, move the checkpoint, prune the journal. */
    method Step(t: Templates, answer: Option<Batch>) returns (ok: bool)
      modifies this, registry
      ensures ok == answer.Some?
      ensures !ok ==> registry.State() == old(registry.State()) && checkpoint == old(checkpoint)
      ensures ok ==> registry.State() == StepReg(t, old(registry.State()), finalityKeep, answer.value)
                     && checkpoint == if answer.value.tip.Some? then answer.value.tip else old(checkpoint)
    {
      hide Ingest.Apply, UndoBlocks;
      if answer.None? {
        return false;
      }
      var batch := answer.value;
      UndoRemoved(batch.removed);
      ghost var undone := registry.State();
      for i := 0 to |batch.accepted|
        invariant registry.State() == Replay(t, undone, batch.accepted[..i]) && checkpoint == old(checkpoint)
      {
        assert batch.accepted[..i + 1][..i] == batch.accepted[..i];
        registry.Apply(t, batch.accepted[i]);
      }
      assert batch.accepted[..|batch.accepted|] == batch.accepted;
      if batch.tip.Some? {
        checkpoint := batch.tip;
      }
      registry.PruneJournal(finalityKeep);
      return true;
    }

    /** The profiles follower's step (None when the source failed); returns the ids whose record was
        accepted. */
    method StepProfiles(h: Host, answer: Option<Batch>) returns (applied: Option<seq<Bytes32>>)
      modifies this, registry
      ensures applied.Some? <==> answer.Some?
      ensures answer.None? ==> registry.State() == old(registry.State()) && checkpoint == old(checkpoint)
      ensures answer.Some? ==>
                registry.State() == StepProfilesReg(h, old(registry.State()), finalityKeep, answer.value)
                && checkpoint == (if answer.value.tip.Some? then answer.value.tip else old(checkpoint))
                && applied.value == AcceptedIds(h, UndoBlocks(old(registry.State()), answer.value.removed),
                                                answer.value.accepted)
    {
      hide AcceptedProfile, UndoBlocks, ProfileUndoOf;
      if answer.None? {
        return None;
      }
      var batch := answer.value;
      var ids := [];
      UndoRemoved(batch.removed);
      ghost var undone := registry.State();
      for i := 0 to |batch.accepted|
        invariant registry.State() == ReplayProfiles(h, undone, batch.accepted[..i]) && checkpoint == old(checkpoint)
        invariant ids == AcceptedIds(h, undone, batch.accepted[..i])
      {
        assert batch.accepted[..i + 1][..i] == batch.accepted[..i];
        var accepted := registry.ApplyProfileOnly(h, batch.accepted[i]);
        if accepted {
          ids := ids + [batch.accepted[i].id];
        }
      }
      assert batch.accepted[..|batch.accepted|] == batch.accepted;
      if batch.tip.Some? {
        checkpoint := batch.tip;
      }
      registry.PruneJournal(finalityKeep);
      return Some(ids);
    }

    /** Any run of batches of the profiles follower. */
    method FollowProfiles(h: Host, turns: seq<Turn>)
      modifies this, registry
      ensures registry.State() == RunProfiles(h, old(registry.State()), finalityKeep, turns)
    {
      hide StepProfilesReg;
      for i := 0 to |turns|
        invariant registry.State() == RunProfiles(h, old(registry.State()), finalityKeep, turns[..i])
      {
        assert turns[..i + 1][..i] == turns[..i];
        var applied := StepProfiles(h, Some(turns[i].batch));
      }
      assert turns[..|turns|] == turns;
    }

    /** Any proper run of batches leaves exactly the current chain's UTXOs and profiles. */
    method Follow(t: Templates, turns: seq<Turn>)
      requires registry.journal == [] && ProperRun(t, registry.State(), finalityKeep, turns)
      modifies this, registry
      ensures SameLive(registry.State(), Replay(t, old(registry.State()), TxsOf(ChainAfter(turns))))
    {
      hide StepReg, Replay, ProperRun, TxsOf;
      ghost var seed := registry.State();
      for i := 0 to |turns|
        invariant registry.State() == RunReg(t, seed, finalityKeep, turns[..i])
      {
        assert turns[..i + 1][..i] == turns[..i];
        var ok := Step(t, Some(turns[i].batch));
      }
      assert turns[..|turns|] == turns;
      RunFollowsChain(t, seed, finalityKeep, turns);
    }
  }
}
