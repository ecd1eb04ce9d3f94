/** Where undo stops being exact: blocks undone oldest first, and a block whose journal entries were
    partly pruned. */
module ReorgLimits {
  import opened Base
  import opened Ingest
  import opened Undo
  import opened Chain

  // ------------------------------------------------------------------ a partly pruned block --

  /** A journaled transaction changed the tracked set or a profile. */
  lemma JournaledChanges(t: Templates, r: Reg, tx: Tx)
    requires Changes(UndoOf(t, r, tx))
    ensures !SameLive(Apply(t, r, tx), r)
  {
    hide ApplyUtxos, Spends, Claims;
    var undo := UndoOf(t, r, tx);
    var after := ApplyUtxos(t, r.utxos, tx);
    if undo.added != [] {
      assert undo.added[0] in undo.added;
      assert undo.added[0] in after && undo.added[0] !in r.utxos;
    } else if undo.removed != [] {
      ApplyFrame(t, r.utxos, tx);
      RemovedAre(t, r.utxos, tx);
      var op := undo.removed[0].0;
      assert undo.removed[0] in undo.removed;
      assert op in r.utxos && op !in after;
    } else {
      var (address, entry) := AcceptedProfile(t.host, r.profiles, tx).value;
      if address in r.profiles && r.profiles[address] == entry {
        LessIrreflexive(entry.tx);
      }
    }
  }

  /** The loop's guard asks only for one entry of a removed block. With two journaled transactions
      in the block and one of them pruned, the guard passes and the undo leaves the first applied. */
  lemma OneEntryIsNotEnough(t: Templates, r: Reg, a: Tx, b: Tx)
    requires r.journal == [] && a.block == b.block && Fresh(r.utxos, a.id) && Fresh(Apply(t, r, a).utxos, b.id)
    requires Changes(UndoOf(t, r, a)) && Changes(UndoOf(t, Apply(t, r, a), b))
    ensures var end := Replay(t, r, [a, b]);
            var pruned := end.(journal := Prune(end.journal, 1));
            EntriesOf(pruned.journal, a.block) != []
            && SameLive(UndoBlock(pruned, a.block), Apply(t, r, a)) && !SameLive(UndoBlock(pruned, a.block), r)
  {
    hide ApplyUtxos, RevertUtxos, RevertProfiles, AcceptedProfile, WithProfile;
    var mid := Apply(t, r, a);
    assert [a, b][..1] == [a] && [a][..0] == [];
    assert Replay(t, r, [a]) == mid;
    var (ua, ub) := (UndoOf(t, r, a), UndoOf(t, mid, b));
    var end := Replay(t, r, [a, b]);
    assert end == Apply(t, mid, b) && end.journal == [ua, ub] && Prune(end.journal, 1) == [ub];
    assert [ub][..0] == [];
    RevertApplyUtxos(t, mid, b);
    RevertApplyProfiles(t, mid, b);
    JournaledChanges(t, r, a);
    assert [ub][0].block == a.block;
    assert EntriesOf([ub], a.block) == [ub] && EntriesNotOf([ub], a.block) == [];
    var bare := end.(journal := []);
    assert RevertAll(bare, [ub])
        == bare.(utxos := RevertUtxos(end.utxos, ub), profiles := RevertProfiles(end.profiles, ub));
    assert UndoBlock(end.(journal := [ub]), a.block) == RevertAll(bare, [ub]);
  }

  // ------------------------------------------------------------------ the order of undo --

  /** `back` is `x` with what was consumed between `before` and `after` restored and the outputs of
      the transactions `ids` gone. */
  ghost predicate PutBack(ids: set<Bytes32>, before: Utxos, after: Utxos, x: Utxos, back: Utxos) {
    forall op: Outpoint ::
      if op.tx in ids then op !in back
      else if op in before && op !in after then op in back && back[op] == before[op]
      else (op in back <==> op in x) && (op in back ==> back[op] == x[op])
  }

  /** Reverting one transaction's entry on a tracked set that has since moved on. */
  lemma RevertOne(t: Templates, r: Reg, tx: Tx, x: Utxos)
    requires Fresh(r.utxos, tx.id)
    requires forall op :: op in x && op.tx == tx.id ==> op in ApplyUtxos(t, r.utxos, tx)
    ensures var undo := UndoOf(t, r, tx);
            PutBack({tx.id}, r.utxos, ApplyUtxos(t, r.utxos, tx), x, if Changes(undo) then RevertUtxos(x, undo) else x)
  {
    hide ApplyUtxos, Spends, Removed, SpentOutpoints, ProfileUndoOf, AcceptedProfile, RestoreAll, Apply;
    if Changes(UndoOf(t, r, tx)) {
      RevertChanged(t, r, tx, x);
    } else {
      UnjournaledIsIdle(t, r, tx);
      SameUtxos(t, r, tx);
    }
  }

  lemma SameUtxos(t: Templates, r: Reg, tx: Tx)
    ensures Apply(t, r, tx).utxos == ApplyUtxos(t, r.utxos, tx)
  {
  }

  lemma RestoresSpent(t: Templates, r: Reg, tx: Tx, y: Utxos)
    ensures var back, spent := RestoreAll(y, UndoOf(t, r, tx).removed), SpentOutpoints(Spends(t, r.utxos, tx));
            forall op: Outpoint :: if op in spent then op in back && op in r.utxos && back[op] == r.utxos[op]
                         else (op in back <==> op in y) && (op in back ==> back[op] == y[op])
  {
    hide ApplyUtxos, Spends, Removed, SpentOutpoints, ProfileUndoOf, AcceptedProfile, RestoreAll;
    ApplyFrame(t, r.utxos, tx);
    RemovedAre(t, r.utxos, tx);
    RestoreAllFrom(y, UndoOf(t, r, tx).removed, r.utxos);
  }

  lemma RevertChanged(t: Templates, r: Reg, tx: Tx, x: Utxos)
    requires Fresh(r.utxos, tx.id)
    requires forall op :: op in x && op.tx == tx.id ==> op in ApplyUtxos(t, r.utxos, tx)
    ensures PutBack({tx.id}, r.utxos, ApplyUtxos(t, r.utxos, tx), x, RevertUtxos(x, UndoOf(t, r, tx)))
  {
    hide ApplyUtxos, Spends, Removed, SpentOutpoints, ProfileUndoOf, AcceptedProfile, RestoreAll;
    var added := UndoOf(t, r, tx).added;
    ApplyFrame(t, r.utxos, tx);
    RestoresSpent(t, r, tx, x - Elements(added));
    assert forall op :: op in Elements(added) <==> op in added;
  }

  lemma SeedHasNoIds(r: Reg, txs: seq<Tx>)
    requires NewIds(r, txs)
    ensures forall op :: op in r.utxos ==> op.tx !in Ids(txs)
  {
  }

  /** Reverting a run's entries, likewise. */
  lemma {:induction false} RevertElsewhere(t: Templates, r: Reg, txs: seq<Tx>, x: Reg)
    requires NewIds(r, txs)
    requires forall op :: op in x.utxos && op.tx in Ids(txs) ==> op in Replay(t, r, txs).utxos
    ensures var end := Replay(t, r, txs);
            PutBack(Ids(txs), r.utxos, end.utxos, x.utxos, RevertAll(x, end.journal[|r.journal|..]).utxos)
  {
    hide ApplyUtxos, UndoOf, AcceptedProfile, WithProfile, RevertUtxos, RevertProfiles, Spends, SpentOutpoints, NewIds,
        Ids, PutBack;
    var end := Replay(t, r, txs);
    if txs == [] {
      PutBackNothing(x.utxos, r.utxos);
      assert end.journal[|r.journal|..] == [];
    } else {
      var init, last := txs[..|txs| - 1], txs[|txs| - 1];
      var before := Replay(t, r, init);
      IdsSplit(txs);
      NewIdsPrefix(r, txs);
      SeedHasNoIds(r, init);
      NewIdsAreFresh(t, r, init);
      StatesAreFinal(t, r, init, |init|);
      var undo := UndoOf(t, before, last);
      ApplyFrame(t, before.utxos, last);
      RevertOne(t, before, last, x.utxos);
      var next := x;
      if Changes(undo) {
        next := x.(utxos := RevertUtxos(x.utxos, undo), profiles := RevertProfiles(x.profiles, undo));
        assert end.journal[|r.journal|..] == before.journal[|r.journal|..] + [undo];
      }
      PutBackSource(Ids(init), last.id, before.utxos, end.utxos, x.utxos, next.utxos);
      RevertElsewhere(t, r, init, next);
      PutBackTrans(Ids(init), last.id, r.utxos, before.utxos, end.utxos, x.utxos, next.utxos,
                   RevertAll(next, before.journal[|r.journal|..]).utxos);
    }
  }

  lemma PutBackNothing(x: Utxos, u: Utxos)
    ensures Ids([]) == {} && PutBack({}, u, u, x, x)
  {
  }

  lemma PutBackSource(ids: set<Bytes32>, id: Bytes32, mid: Utxos, end: Utxos, x: Utxos, y: Utxos)
    requires PutBack({id}, mid, end, x, y) && forall op :: op in end ==> op in mid || op.tx == id
    requires forall op :: op in x && op.tx in ids + {id} ==> op in end
    ensures forall op :: op in y && op.tx in ids ==> op in mid
  {
  }

  lemma PutBackTrans(ids: set<Bytes32>, id: Bytes32, u: Utxos, mid: Utxos, end: Utxos, x: Utxos, y: Utxos, z: Utxos)
    requires id !in ids && forall op :: op in u ==> op.tx !in ids && op.tx != id
    requires forall op :: op in mid ==> op.tx != id && (op in u || op.tx in ids) && (op in u ==> mid[op] == u[op])
    requires forall op :: op in end ==> op in mid || op.tx == id
    requires PutBack({id}, mid, end, x, y) && PutBack(ids, u, mid, y, z)
    ensures PutBack(ids + {id}, u, end, x, z)
  {
  }

  /** Reverting the entries of two consecutive runs in the wrong order. */
  lemma WrongOrder(t: Templates, r0: Reg, a: seq<Tx>, b: seq<Tx>)
    requires NewIds(r0, a + b)
    ensures var (r1, r2) := (Replay(t, r0, a), Replay(t, r0, a + b));
            |r0.journal| <= |r1.journal| <= |r2.journal|
            && (RevertAll(RevertAll(r2, r1.journal[|r0.journal|..]), r2.journal[|r1.journal|..]).utxos == r0.utxos
                <==> forall op :: op in r1.utxos && op !in r0.utxos ==> op in r2.utxos)
  {
    hide Replay, RevertAll, NewIds, Ids, FreshRun;
    var (r1, r2) := (Replay(t, r0, a), Replay(t, r0, a + b));
    NewIdsAfter(t, r0, a, b);
    ReplayConcat(t, r0, a, b);
    NewIdsAreFresh(t, r0, a);
    NewIdsAreFresh(t, r1, b);
    StatesAreFinal(t, r0, a, |a|);
    StatesAreFinal(t, r1, b, |b|);
    SeedHasNoIds(r0, a + b);
    SeedHasNoIds(r1, b);
    RevertElsewhere(t, r0, a, r2);
    var x1 := RevertAll(r2, r1.journal[|r0.journal|..]);
    RevertElsewhere(t, r1, b, x1);
    var x2 := RevertAll(x1, r2.journal[|r1.journal|..]);
    WrongOrderMaps(Ids(a), Ids(b), r0.utxos, r1.utxos, r2.utxos, x1.utxos, x2.utxos);
  }

  lemma WrongOrderMaps(a: set<Bytes32>, b: set<Bytes32>, u0: Utxos, u1: Utxos, u2: Utxos, x1: Utxos, x2: Utxos)
    requires a !! b && forall op :: op in u0 ==> op.tx !in a && op.tx !in b
    requires forall op :: op in u1 ==> op.tx !in b && (op in u0 || op.tx in a) && (op in u0 ==> u1[op] == u0[op])
    requires forall op :: op in u2 ==> (op in u1 || op.tx in b) && (op in u1 ==> u2[op] == u1[op])
    requires PutBack(a, u0, u1, u2, x1) && PutBack(b, u1, u2, x1, x2)
    ensures x2 == u0 <==> forall op :: op in u1 && op !in u0 ==> op in u2
  {
    if forall op :: op in u1 && op !in u0 ==> op in u2 {
      forall op ensures (op in x2 <==> op in u0) && (op in x2 ==> x2[op] == u0[op]) {
      }
    } else {
      var op :| op in u1 && op !in u0 && op !in u2;
      assert op in x2;
    }
  }

  /** Undoing two blocks, in whichever order, reverts their entries in that order. */
  lemma TwoUndos(r: Reg, older: seq<UndoEntry>, ea: seq<UndoEntry>, eb: seq<UndoEntry>, a: Bytes32, b: Bytes32)
    requires a != b && r.journal == older + ea + eb
    requires NoneOf(older, a) && NoneOf(older, b) && AllOf(ea, a) && AllOf(eb, b)
    ensures UndoBlocks(r, [a, b]).utxos == RevertAll(RevertAll(r, ea), eb).utxos
  {
    hide RevertAll, EntriesOf, EntriesNotOf;
    EntriesConcat(older + ea, eb, a);
    SplitEntries(older, ea, a);
    UniformEntries(eb, a);
    SplitEntries(older, eb, b);
    assert [a, b][..1] == [a] && [a][..0] == [];
    assert ea + [] == ea;
    RevertAllKeepsJournal(r, ea, older + eb);
    RevertAllKeepsJournal(RevertAll(r, ea), eb, older);
    var y := UndoBlock(r, a);
    assert UndoBlocks(r, [a]) == y;
    assert UndoBlocks(r, [a, b]) == UndoBlock(y, b);
    assert y == RevertAll(r, ea).(journal := older + eb);
    assert y.(journal := older) == RevertAll(r, ea).(journal := older);
  }

  /** Two blocks at the tip, undone oldest first instead of newest first: the tracked set comes back
      exactly when the later block spends no output the earlier one created. */
  lemma OldestFirst(t: Templates, seed: Reg, chain: seq<Block>)
    requires seed.journal == [] && |chain| >= 2 && WellFormed(chain) && NewIds(seed, TxsOf(chain))
    ensures var n := |chain|;
            var (r0, r1, r2) := (Replay(t, seed, TxsOf(chain[..n - 2])), Replay(t, seed, TxsOf(chain[..n - 1])),
                                 Replay(t, seed, TxsOf(chain)));
            UndoBlocks(r2, [chain[n - 2].id, chain[n - 1].id]).utxos == r0.utxos
            <==> forall op :: op in r1.utxos && op !in r0.utxos ==> op in r2.utxos
  {
    hide Replay, RevertAll, NewIds, UndoBlocks;
    var n := |chain|;
    var (c0, c1) := (chain[..n - 2], chain[..n - 1]);
    var (a, b) := (chain[n - 2], chain[n - 1]);
    assert c1[..n - 2] == c0 && c1[n - 2] == a;
    assert TxsOf(c0) + (a.txs + b.txs) == TxsOf(chain);
    var (r0, r1, r2) := (Replay(t, seed, TxsOf(c0)), Replay(t, seed, TxsOf(c1)), Replay(t, seed, TxsOf(chain)));
    ReplayConcat(t, seed, TxsOf(c0), a.txs);
    ReplayConcat(t, seed, TxsOf(c0), a.txs + b.txs);
    NewIdsAfter(t, seed, TxsOf(c0), a.txs + b.txs);
    WrongOrder(t, r0, a.txs, b.txs);
    LastBlockEntries(t, seed, chain);
    LastBlockEntries(t, seed, c1);
    var (ea, eb) := (r1.journal[|r0.journal|..], r2.journal[|r1.journal|..]);
    assert r1.journal == r0.journal + ea && r2.journal == r0.journal + ea + eb;
    assert forall e :: e in r0.journal ==> e in r1.journal;
    TwoUndos(r2, r0.journal, ea, eb, a.id, b.id);
  }
}
