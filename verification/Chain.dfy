/** The follower's runs (kachat-names/src/follower.rs) against their specification: the registry it
    keeps, through any reorgs, is the seed with the transactions of the current chain applied. */
module Chain {
  import opened Base
  import opened Ingest
  import opened Undo

  // ------------------------------------------------------------------ chains and batches --

  /** A block of the virtual chain with the transactions it accepted. */
  datatype Block = Block(id: Bytes32, txs: seq<Tx>)

  function TxsOf(chain: seq<Block>): seq<Tx> {
    if chain == [] then [] else TxsOf(chain[..|chain| - 1]) + chain[|chain| - 1].txs
  }

  /** Block ids occur once and every transaction names the block that accepted it. */
  ghost predicate WellFormed(chain: seq<Block>) {
    (forall i, j :: 0 <= i < j < |chain| ==> chain[i].id != chain[j].id)
    && forall i, tx :: 0 <= i < |chain| && tx in chain[i].txs ==> tx.block == chain[i].id
  }

  function NewestFirst(chain: seq<Block>): seq<Bytes32> {
    if chain == [] then [] else [chain[|chain| - 1].id] + NewestFirst(chain[..|chain| - 1])
  }

  datatype Batch = Batch(removed: seq<Bytes32>, accepted: seq<Tx>, tip: Option<Bytes32>)

  /** What `Follower::step` does to the registry: undo the removed blocks, apply the accepted
      transactions, prune the journal. */
  function StepReg(t: Templates, r: Reg, keep: nat, batch: Batch): Reg {
    var after := Replay(t, UndoBlocks(r, batch.removed), batch.accepted);
    after.(journal := Prune(after.journal, keep))
  }

  // ------------------------------------------------------------------ following a chain --

  /** The registry holds what `full` holds; of its journal, the entries from `d` on. */
  predicate Follows(r: Reg, full: Reg, d: nat) {
    SameLive(r, full) && d <= |full.journal| && r.journal == full.journal[d..]
  }

  /** A transaction reads and writes the journal only at its end. */
  lemma {:induction false} FollowsReplay(t: Templates, r: Reg, full: Reg, d: nat, txs: seq<Tx>)
    requires Follows(r, full, d)
    ensures Follows(Replay(t, r, txs), Replay(t, full, txs), d)
  {
    hide ApplyUtxos, Spends, AcceptedProfile, WithProfile, ProfileUndoOf, Added, Removed;
    if txs != [] {
      FollowsReplay(t, r, full, d, txs[..|txs| - 1]);
    }
  }

  lemma {:induction false} TxsOfConcat(a: seq<Block>, b: seq<Block>)
    ensures TxsOf(a + b) == TxsOf(a) + TxsOf(b)
  {
    if b == [] {
      assert a + b == a && TxsOf(a) + [] == TxsOf(a);
    } else {
      assert (a + b)[..|a + b| - 1] == a + b[..|b| - 1];
      TxsOfConcat(a, b[..|b| - 1]);
    }
  }

  // ------------------------------------------------------------------ which entries a block has --

  ghost predicate NoneOf(journal: seq<UndoEntry>, block: Bytes32) {
    forall e :: e in journal ==> e.block != block
  }

  ghost predicate AllOf(journal: seq<UndoEntry>, block: Bytes32) {
    forall e :: e in journal ==> e.block == block
  }

  lemma {:induction false} EntriesConcat(a: seq<UndoEntry>, b: seq<UndoEntry>, block: Bytes32)
    ensures EntriesOf(a + b, block) == EntriesOf(a, block) + EntriesOf(b, block)
    ensures EntriesNotOf(a + b, block) == EntriesNotOf(a, block) + EntriesNotOf(b, block)
  {
    if b == [] {
      assert a + b == a;
    } else {
      assert (a + b)[..|a + b| - 1] == a + b[..|b| - 1];
      EntriesConcat(a, b[..|b| - 1], block);
    }
  }

  lemma {:induction false} EntriesAreOld(journal: seq<UndoEntry>, block: Bytes32)
    ensures forall e :: e in EntriesOf(journal, block) || e in EntriesNotOf(journal, block) ==> e in journal
  {
    if journal != [] {
      EntriesAreOld(journal[..|journal| - 1], block);
    }
  }

  lemma {:induction false} UniformEntries(journal: seq<UndoEntry>, block: Bytes32)
    ensures NoneOf(journal, block) ==> EntriesOf(journal, block) == [] && EntriesNotOf(journal, block) == journal
    ensures AllOf(journal, block) ==> EntriesOf(journal, block) == journal && EntriesNotOf(journal, block) == []
  {
    if journal != [] {
      var init, last := journal[..|journal| - 1], journal[|journal| - 1];
      UniformEntries(init, block);
      assert last in journal && journal == init + [last];
    }
  }

  /** A journal that ends in one block's entries, with none of them before, splits there. */
  lemma SplitEntries(older: seq<UndoEntry>, es: seq<UndoEntry>, block: Bytes32)
    requires NoneOf(older, block) && AllOf(es, block)
    ensures EntriesOf(older + es, block) == es && EntriesNotOf(older + es, block) == older
  {
    EntriesConcat(older, es, block);
    UniformEntries(older, block);
    UniformEntries(es, block);
  }

  /** Journal entries carry the accepting block of the transaction that pushed them. */
  lemma {:induction false} NewEntries(t: Templates, r: Reg, txs: seq<Tx>)
    ensures r.journal <= Replay(t, r, txs).journal
    ensures forall e :: e in Replay(t, r, txs).journal[|r.journal|..] ==> exists tx :: tx in txs && tx.block == e.block
  {
    hide ApplyUtxos, AcceptedProfile, WithProfile, ProfileUndoOf, Added, Removed, Spends;
    if txs != [] {
      var init, last := txs[..|txs| - 1], txs[|txs| - 1];
      var before := Replay(t, r, init);
      NewEntries(t, r, init);
      assert txs == init + [last];
      var es := Replay(t, r, txs).journal[|r.journal|..];
      assert Changes(UndoOf(t, before, last)) ==> es == before.journal[|r.journal|..] + [UndoOf(t, before, last)];
    }
  }

  /** In a well-formed chain the last block's entries are exactly the ones its transactions pushed. */
  lemma LastBlockEntries(t: Templates, seed: Reg, chain: seq<Block>)
    requires seed.journal == [] && WellFormed(chain) && chain != []
    ensures var before, after := Replay(t, seed, TxsOf(chain[..|chain| - 1])), Replay(t, seed, TxsOf(chain));
            before.journal <= after.journal
            && NoneOf(before.journal, chain[|chain| - 1].id)
            && AllOf(after.journal[|before.journal|..], chain[|chain| - 1].id)
  {
    hide Replay;
    var init, last := chain[..|chain| - 1], chain[|chain| - 1];
    var before := Replay(t, seed, TxsOf(init));
    ReplayConcat(t, seed, TxsOf(init), last.txs);
    NewEntries(t, before, last.txs);
    NewEntries(t, seed, TxsOf(init));
    TxBlocks(init);
    forall e | e in before.journal ensures e.block != last.id {
      assert e in before.journal[0..];
    }
  }

  lemma {:induction false} TxBlocks(chain: seq<Block>)
    requires WellFormed(chain)
    ensures forall tx :: tx in TxsOf(chain) ==> exists i :: 0 <= i < |chain| && tx.block == chain[i].id
  {
    if chain != [] {
      TxBlocks(chain[..|chain| - 1]);
    }
  }

  // ------------------------------------------------------------------ undoing the tip --

  /** What is left after undoing blocks down to `n`: all of them when the journal reached that far
      back; otherwise the run stops short, at the oldest transaction the journal still covered. */
  ghost predicate Rewound(t: Templates, seed: Reg, chain: seq<Block>, n: nat, d: nat, r: Reg)
    requires n <= |chain|
  {
    var target := Replay(t, seed, TxsOf(chain[..n]));
    if d <= |target.journal| then Follows(r, target, d)
    else
      r.journal == []
      && exists m :: |TxsOf(chain[..n])| <= m <= |TxsOf(chain)|
                     && SameLive(r, Replay(t, seed, TxsOf(chain)[..m]))
                     && |Replay(t, seed, TxsOf(chain)[..m]).journal| == d
  }

  lemma {:induction false} TxsOfPrefix(chain: seq<Block>, n: nat)
    requires n <= |chain|
    ensures TxsOf(chain[..n]) <= TxsOf(chain)
  {
    TxsOfConcat(chain[..n], chain[n..]);
    assert chain[..n] + chain[n..] == chain;
  }

  /** Undoing the last block with the journal that is left. */
  lemma UndoTip(t: Templates, seed: Reg, chain: seq<Block>, d: nat, r: Reg)
    requires seed.journal == [] && WellFormed(chain) && chain != [] && FreshRun(t, seed, TxsOf(chain))
    requires Follows(r, Replay(t, seed, TxsOf(chain)), d)
    ensures Rewound(t, seed, chain, |chain| - 1, d, UndoBlock(r, chain[|chain| - 1].id))
  {
    hide Replay, RevertAll, EntriesOf, EntriesNotOf, TxsOf, FreshRun, NewestFirst;
    var txs, before := TxsOf(chain), TxsOf(chain[..|chain| - 1]);
    var full, target := Replay(t, seed, txs), Replay(t, seed, before);
    var id, j := chain[|chain| - 1].id, |target.journal|;
    LastBlockEntries(t, seed, chain);
    TxsOfPrefix(chain, |chain| - 1);
    var cut := if d <= j then j else d;
    var older := if d <= j then target.journal[d..] else [];
    assert r.journal == older + full.journal[cut..];
    SplitEntries(older, full.journal[cut..], id);
    var m := RewindRun(t, seed, txs, cut);
    RevertAllKeepsJournal(full, full.journal[cut..], older);
    assert r.(journal := older) == full.(journal := older);
    assert txs[..|before|] == before;
    if m < |before| {
      FreshRunPrefix(t, seed, txs, |before|);
      JournalGrows(t, seed, before, m);
      assert before[..m] == txs[..m];
      IdleStretch(t, seed, before, m);
      m := |before|;
    }
    if d <= j {
      FreshRunPrefix(t, seed, txs, m);
      assert txs[..m][..|before|] == before;
      IdleStretch(t, seed, txs[..m], |before|);
    }
  }

  /** Applying a block's transactions, however they spend one another's outputs, and undoing the block
      gives back the registry exactly: tracked set, profiles and journal. */
  lemma BlockUndone(t: Templates, r: Reg, block: Block)
    requires NewIds(r, block.txs) && NoneOf(r.journal, block.id)
    requires forall tx :: tx in block.txs ==> tx.block == block.id
    ensures UndoBlock(Replay(t, r, block.txs), block.id) == r
  {
    hide Replay, RevertAll, EntriesOf, EntriesNotOf, FreshRun, NewIds;
    var txs, end, k := block.txs, Replay(t, r, block.txs), |r.journal|;
    NewEntries(t, r, txs);
    assert end.journal == r.journal + end.journal[k..];
    SplitEntries(r.journal, end.journal[k..], block.id);
    NewIdsAreFresh(t, r, txs);
    var m := RewindRun(t, r, txs, k);
    RevertAllKeepsJournal(end, end.journal[k..], r.journal);
    FreshRunPrefix(t, r, txs, m);
    ReplayNothing(t, r);
    assert txs[..m][..0] == [];
    IdleStretch(t, r, txs[..m], 0);
  }

  lemma ReplayNothing(t: Templates, r: Reg)
    ensures Replay(t, r, []) == r
  {
  }

  /** An empty journal undoes nothing. */
  lemma {:induction false} UndoNothing(r: Reg, blocks: seq<Bytes32>)
    requires r.journal == []
    ensures UndoBlocks(r, blocks) == r
  {
    if blocks != [] {
      UndoNothing(r, blocks[..|blocks| - 1]);
    }
  }

  lemma {:induction false} UndoBlocksFirst(r: Reg, first: Bytes32, rest: seq<Bytes32>)
    ensures UndoBlocks(r, [first] + rest) == UndoBlocks(UndoBlock(r, first), rest)
  {
    var blocks := [first] + rest;
    if rest == [] {
      assert blocks[..0] == [];
    } else {
      assert blocks[..|blocks| - 1] == [first] + rest[..|rest| - 1];
      UndoBlocksFirst(r, first, rest[..|rest| - 1]);
    }
  }

  /** Undoing any number of blocks from the tip, newest first: exact for every journal, including
      one that no longer reaches back to all of them. */
  lemma {:induction false} UndoExact(t: Templates, seed: Reg, chain: seq<Block>, n: nat, d: nat, r: Reg)
    requires seed.journal == [] && WellFormed(chain) && FreshRun(t, seed, TxsOf(chain)) && n <= |chain|
    requires Follows(r, Replay(t, seed, TxsOf(chain)), d)
    ensures Rewound(t, seed, chain, n, d, UndoBlocks(r, NewestFirst(chain[n..])))
  {
    hide Replay, UndoBlock, FreshRun, Rewound, Follows, WellFormed;
    if n == |chain| {
      RewoundNowhere(t, seed, chain, d, r);
    } else {
      var init, last := chain[..|chain| - 1], chain[|chain| - 1];
      var after := UndoBlock(r, last.id);
      UndoTip(t, seed, chain, d, r);
      assert chain[n..][..|chain| - n - 1] == init[n..];
      UndoBlocksFirst(r, last.id, NewestFirst(init[n..]));
      if d <= |Replay(t, seed, TxsOf(init)).journal| {
        RewoundOne(t, seed, chain, d, after);
        UndoExact(t, seed, init, n, d, after);
        RewoundLonger(t, seed, chain, n, d, UndoBlocks(after, NewestFirst(init[n..])));
      } else {
        RewoundShort(t, seed, chain, n, d, after);
        UndoNothing(after, NewestFirst(init[n..]));
      }
    }
  }

  lemma RewoundNowhere(t: Templates, seed: Reg, chain: seq<Block>, d: nat, r: Reg)
    requires Follows(r, Replay(t, seed, TxsOf(chain)), d)
    ensures Rewound(t, seed, chain, |chain|, d, UndoBlocks(r, NewestFirst(chain[|chain|..])))
  {
    hide Replay;
    assert chain[..|chain|] == chain;
  }

  /** The journal still reaches below the block just undone. */
  lemma RewoundOne(t: Templates, seed: Reg, chain: seq<Block>, d: nat, r: Reg)
    requires chain != [] && WellFormed(chain) && FreshRun(t, seed, TxsOf(chain))
        && Rewound(t, seed, chain, |chain| - 1, d, r)
    requires d <= |Replay(t, seed, TxsOf(chain[..|chain| - 1])).journal|
    ensures var init := chain[..|chain| - 1];
            WellFormed(init) && FreshRun(t, seed, TxsOf(init)) && Follows(r, Replay(t, seed, TxsOf(init)), d)
  {
    hide Replay, FreshRun, TxsOf;
    TxsOfPrefix(chain, |chain| - 1);
    FreshRunPrefix(t, seed, TxsOf(chain), |TxsOf(chain[..|chain| - 1])|);
    assert TxsOf(chain)[..|TxsOf(chain[..|chain| - 1])|] == TxsOf(chain[..|chain| - 1]);
  }

  /** The journal ended inside the block just undone: nothing older is undone. */
  lemma RewoundShort(t: Templates, seed: Reg, chain: seq<Block>, n: nat, d: nat, r: Reg)
    requires n < |chain| && Rewound(t, seed, chain, |chain| - 1, d, r)
    requires d > |Replay(t, seed, TxsOf(chain[..|chain| - 1])).journal|
    ensures Rewound(t, seed, chain, n, d, r) && r.journal == []
  {
    hide Replay, TxsOf;
    var init := chain[..|chain| - 1];
    assert init[..n] == chain[..n];
    TxsOfPrefix(init, n);
    JournalGrows(t, seed, TxsOf(init), |TxsOf(chain[..n])|);
    assert TxsOf(init)[..|TxsOf(chain[..n])|] == TxsOf(chain[..n]);
  }

  lemma RewoundLonger(t: Templates, seed: Reg, chain: seq<Block>, n: nat, d: nat, r: Reg)
    requires n < |chain| && Rewound(t, seed, chain[..|chain| - 1], n, d, r)
    ensures Rewound(t, seed, chain, n, d, r)
  {
    hide Replay;
    var init := chain[..|chain| - 1];
    assert init[..n] == chain[..n];
    TxsOfPrefix(chain, |chain| - 1);
    assert forall m :: 0 <= m <= |TxsOf(init)| ==> TxsOf(init)[..m] == TxsOf(chain)[..m];
  }

  // ------------------------------------------------------------------ whole runs --

  /** One batch: what it carries, how many blocks of the old chain it keeps, and the chain after it. */
  datatype Turn = Turn(batch: Batch, kept: nat, chain: seq<Block>)

  function ChainAfter(turns: seq<Turn>): seq<Block> {
    if turns == [] then [] else turns[|turns| - 1].chain
  }

  function RunReg(t: Templates, seed: Reg, keep: nat, turns: seq<Turn>): Reg {
    if turns == [] then seed
    else StepReg(t, RunReg(t, seed, keep, turns[..|turns| - 1]), keep, turns[|turns| - 1].batch)
  }

  /** The batch takes the old chain to the new one: the abandoned blocks newest first, then the
      transactions of the new ones in chain order. */
  ghost predicate Connects(before: seq<Block>, turn: Turn) {
    turn.kept <= |before| && turn.kept <= |turn.chain|
    && turn.chain[..turn.kept] == before[..turn.kept]
    && turn.batch.removed == NewestFirst(before[turn.kept..])
    && turn.batch.accepted == TxsOf(turn.chain[turn.kept..])
  }

  /** How many journal entries the transactions of a chain push. */
  function Pushed(t: Templates, seed: Reg, chain: seq<Block>): nat {
    |Replay(t, seed, TxsOf(chain)).journal|
  }

  /** The most entries a follower of these batches can have had to let go, by the chains alone: of the
      longest journal all but the newest `keep`. */
  function MostPruned(t: Templates, seed: Reg, keep: nat, turns: seq<Turn>): nat {
    if turns == [] then 0
    else
      var pruned, length := MostPruned(t, seed, keep, turns[..|turns| - 1]), Pushed(t, seed, turns[|turns| - 1].chain);
      if length > pruned + keep then length - keep else pruned
  }

  lemma {:induction false} MostPrunedIsMost(t: Templates, seed: Reg, keep: nat, turns: seq<Turn>)
    ensures forall turn :: turn in turns ==> Pushed(t, seed, turn.chain) - keep <= MostPruned(t, seed, keep, turns)
    ensures MostPruned(t, seed, keep, turns) > 0 ==>
              exists turn :: turn in turns && MostPruned(t, seed, keep, turns) == Pushed(t, seed, turn.chain) - keep
  {
    hide Pushed;
    if turns != [] {
      MostPrunedIsMost(t, seed, keep, turns[..|turns| - 1]);
      assert turns == turns[..|turns| - 1] + [turns[|turns| - 1]];
    }
  }

  /** The run a node's answers describe: well-formed chains with new transaction ids, each batch
      connecting one to the next, and no reorg past the newest `keep` entries of the longest chain so far. */
  ghost predicate ProperRun(t: Templates, seed: Reg, keep: nat, turns: seq<Turn>) {
    turns != [] ==>
      var (init, last) := (turns[..|turns| - 1], turns[|turns| - 1]);
      ProperRun(t, seed, keep, init)
      && WellFormed(last.chain) && NewIds(seed, TxsOf(last.chain))
      && Connects(ChainAfter(init), last)
      && MostPruned(t, seed, keep, init) <= Pushed(t, seed, ChainAfter(init)[..last.kept])
  }

  /** A step keeps the newest `keep` entries of what undoing and applying left, and all when they are fewer. */
  lemma StepKeepsNewest(t: Templates, r: Reg, keep: nat, batch: Batch)
    ensures var had, has := Replay(t, UndoBlocks(r, batch.removed), batch.accepted).journal,
        StepReg(t, r, keep, batch).journal;
            |has| == (if |had| < keep then |had| else keep) && had[|had| - |has|..] == has
  {
    hide Replay, UndoBlocks;
  }

  /** One batch whose removed blocks the journal still covers keeps the registry on the chain, and of the
      new chain's journal the newest `keep` entries, as far as the old one reached. */
  lemma StepFollows(t: Templates, seed: Reg, before: seq<Block>, turn: Turn, keep: nat, r: Reg, d: nat)
    requires seed.journal == [] && WellFormed(before) && FreshRun(t, seed, TxsOf(before)) && Connects(before, turn)
    requires Follows(r, Replay(t, seed, TxsOf(before)), d) && d <= Pushed(t, seed, before[..turn.kept])
    ensures var length := Pushed(t, seed, turn.chain);
            Follows(StepReg(t, r, keep, turn.batch), Replay(t, seed, TxsOf(turn.chain)),
                    if length > d + keep then length - keep else d)
  {
    hide Replay, UndoBlocks, FreshRun, WellFormed, NewestFirst, TxsOf, StepReg;
    var n := turn.kept;
    var undone := UndoBlocks(r, turn.batch.removed);
    UndoExact(t, seed, before, n, d, r);
    var base := Replay(t, seed, TxsOf(before[..n]));
    FollowsReplay(t, undone, base, d, turn.batch.accepted);
    TxsOfConcat(turn.chain[..n], turn.chain[n..]);
    assert turn.chain[..n] + turn.chain[n..] == turn.chain;
    ReplayConcat(t, seed, TxsOf(before[..n]), turn.batch.accepted);
    StepKeepsNewest(t, r, keep, turn.batch);
    StepKeepsLive(t, r, keep, turn.batch);
  }

  lemma StepKeepsLive(t: Templates, r: Reg, keep: nat, batch: Batch)
    ensures SameLive(StepReg(t, r, keep, batch), Replay(t, UndoBlocks(r, batch.removed), batch.accepted))
  {
    hide Replay, UndoBlocks;
  }

  /** For every run over batches with reorgs, the tracked UTXOs and profiles are the seed with the
      transactions of the current chain applied, and nothing of the abandoned ones; of the chain's
      journal exactly the most ever pruned is missing. */
  lemma {:induction false} RunFollowsChain(t: Templates, seed: Reg, keep: nat, turns: seq<Turn>)
    requires seed.journal == [] && ProperRun(t, seed, keep, turns)
    ensures Follows(RunReg(t, seed, keep, turns), Replay(t, seed, TxsOf(ChainAfter(turns))),
                    MostPruned(t, seed, keep, turns))
    ensures FreshRun(t, seed, TxsOf(ChainAfter(turns))) && WellFormed(ChainAfter(turns))
  {
    hide Follows, StepReg, Replay, Connects, Pushed, WellFormed, FreshRun, NewIds, TxsOf;
    if turns == [] {
      NothingFollowed(t, seed);
    } else {
      var init, last := turns[..|turns| - 1], turns[|turns| - 1];
      RunFollowsChain(t, seed, keep, init);
      StepFollows(t, seed, ChainAfter(init), last, keep, RunReg(t, seed, keep, init), MostPruned(t, seed, keep, init));
      NewIdsAreFresh(t, seed, TxsOf(last.chain));
    }
  }

  lemma NothingFollowed(t: Templates, seed: Reg)
    requires seed.journal == []
    ensures Follows(seed, Replay(t, seed, TxsOf([])), 0) && WellFormed([]) && FreshRun(t, seed, TxsOf([]))
  {
  }

  /** While the chain's journal never gets shorter, every reorg that removes at most `keep` entries is proper. */
  ghost predicate GrowingRun(t: Templates, seed: Reg, keep: nat, turns: seq<Turn>) {
    turns != [] ==>
      var (init, last) := (turns[..|turns| - 1], turns[|turns| - 1]);
      GrowingRun(t, seed, keep, init)
      && WellFormed(last.chain) && NewIds(seed, TxsOf(last.chain))
      && Connects(ChainAfter(init), last)
      && Pushed(t, seed, ChainAfter(init)) <= Pushed(t, seed, last.chain)
      && Pushed(t, seed, ChainAfter(init)) - Pushed(t, seed, ChainAfter(init)[..last.kept]) <= keep
  }

  lemma {:induction false} GrowingIsProper(t: Templates, seed: Reg, keep: nat, turns: seq<Turn>)
    requires seed.journal == [] && GrowingRun(t, seed, keep, turns)
    ensures ProperRun(t, seed, keep, turns)
    ensures MostPruned(t, seed, keep, turns) <= Pushed(t, seed, ChainAfter(turns))
    ensures MostPruned(t, seed, keep, turns) > 0 ==>
              MostPruned(t, seed, keep, turns) == Pushed(t, seed, ChainAfter(turns)) - keep
  {
    hide Pushed, WellFormed, Connects, NewIds;
    if turns != [] {
      GrowingIsProper(t, seed, keep, turns[..|turns| - 1]);
    }
  }
}
