/** What holds of the follower's registry in every state it reaches, reorgs included. */
module Reachable {
  import opened Base
  import opened States
  import opened Ingest
  import opened Undo
  import opened Chain
  import opened Tiling
  import opened Verified

  /** After any batches and reorgs whose current chain is contract-valid, the gaps form one chain from
      the genesis lower end to its upper end whose interior boundaries are the live names' keys. */
  lemma ReachableIsTiled(t: Templates, seed: Reg, keep: nat, turns: seq<Turn>, lo: Bytes32, hi: Bytes32)
    requires ManifestOk(t) && seed.journal == [] && ProperRun(t, seed, keep, turns)
    requires ValidRun(t, seed, TxsOf(ChainAfter(turns))) && Tiled(seed.utxos, lo, hi)
    ensures Tiled(RunReg(t, seed, keep, turns).utxos, lo, hi)
  {
    hide RunReg, Replay, Tiled, ValidRun, ProperRun;
    RunFollowsChain(t, seed, keep, turns);
    RunKeepsTiling(t, seed, TxsOf(ChainAfter(turns)), lo, hi);
  }

  /** No name is ever live twice: of one text at most one output is tracked, whatever its owner. */
  lemma OneLiveOutputPerName(t: Templates, seed: Reg, keep: nat, turns: seq<Turn>, lo: Bytes32, hi: Bytes32,
                             a: Outpoint, b: Outpoint)
    requires ManifestOk(t) && HonestLookup(t.host) && seed.journal == [] && ProperRun(t, seed, keep, turns)
    requires ValidRun(t, seed, TxsOf(ChainAfter(turns))) && Tiled(seed.utxos, lo, hi)
    requires Everywhere((op, s) => Keyed(t.host, op, s), seed)
    requires var u := RunReg(t, seed, keep, turns).utxos;
             a in u && b in u && u[a].Name? && u[b].Name? && u[a].name.name == u[b].name.name
    ensures a == b
  {
    hide RunReg, Tiled, ValidRun, ProperRun, HonestLookup, ManifestOk;
    ReachableIsTiled(t, seed, keep, turns, lo, hi);
    NamesStayKeyed(t, seed, keep, turns);
    var u := RunReg(t, seed, keep, turns).utxos;
    assert Keyed(t.host, a, u[a]) && Keyed(t.host, b, u[b]);
    OneNamePerKey(u, lo, hi, a, b);
  }
}
