/** Which reorgs a follower that restarts can still undo (kachat-names/src/ingest.rs,
    kachat-names-follower/src/main.rs): said of the chains alone, in transactions. */
module Coverage {
  import opened Base
  import opened Ingest
  import opened Undo
  import opened Chain
  import opened Journal
  import opened Store
  import opened Service
  import opened Restarts

  // ------------------------------------------------------------------ transactions that matter --

  /** How many of these transactions change the tracked set where they stand, or set a profile record.
      After a restart, which forgets profiles, any record may be journaled. */
  function Noted(t: Templates, seed: Reg, txs: seq<Tx>): nat {
    if txs == [] then 0
    else
      var (init, tx) := (txs[..|txs| - 1], txs[|txs| - 1]);
      var utxos := Replay(t, seed, init).utxos;
      Noted(t, seed, init) + if ApplyUtxos(t, utxos, tx) != utxos || ProfileOf(t.host, tx).Some? then 1 else 0
  }

  function NotedIn(t: Templates, seed: Reg, chain: seq<Block>): nat {
    Noted(t, seed, TxsOf(chain))
  }

  lemma {:induction false} NotedGrows(t: Templates, seed: Reg, a: seq<Tx>, b: seq<Tx>)
    ensures Noted(t, seed, a) <= Noted(t, seed, a + b)
  {
    if b == [] {
      assert a + b == a;
    } else {
      assert (a + b)[..|a + b| - 1] == a + b[..|b| - 1];
      NotedGrows(t, seed, a, b[..|b| - 1]);
    }
  }

  lemma NotedPrefix(t: Templates, seed: Reg, chain: seq<Block>, n: nat)
    requires n <= |chain|
    ensures NotedIn(t, seed, chain[..n]) <= NotedIn(t, seed, chain)
  {
    TxsOfConcat(chain[..n], chain[n..]);
    assert chain[..n] + chain[n..] == chain;
    NotedGrows(t, seed, TxsOf(chain[..n]), TxsOf(chain[n..]));
  }

  lemma KeptIsChange(t: Templates, r: Reg, tx: Tx)
    requires Fresh(r.utxos, tx.id) && Kept(UndoOf(t, r, tx))
    ensures ApplyUtxos(t, r.utxos, tx) != r.utxos
  {
    hide ApplyUtxos;
    var e := UndoOf(t, r, tx);
    UndoTells(t, r, tx);
    assert e.added != [] ==> e.added[0] in e.added;
    assert e.removed != [] ==> (e.removed[0].0, e.removed[0].1) in e.removed;
  }

  /** Applying to a registry that tracks what the chain so far leaves journals no more than these. */
  lemma {:induction false} JournaledIsNoted(t: Templates, seed: Reg, before: seq<Tx>, txs: seq<Tx>, r: Reg)
    requires FreshRun(t, seed, before + txs) && r.utxos == Replay(t, seed, before).utxos
    ensures var after := Replay(t, r, txs);
            after.utxos == Replay(t, seed, before + txs).utxos && r.journal <= after.journal
            && |after.journal| - |r.journal| <= Noted(t, seed, before + txs) - Noted(t, seed, before)
  {
    hide ApplyUtxos, ProfileOf, FreshRun, Replay, Noted, Apply;
    if txs == [] {
      ReplayNothing(t, r);
      assert before + txs == before;
    } else {
      var init, tx := txs[..|txs| - 1], txs[|txs| - 1];
      assert (before + txs)[..|before + txs| - 1] == before + init;
      FreshRunPrefix(t, seed, before + txs, |before + init|);
      assert (before + txs)[..|before + init|] == before + init;
      JournaledIsNoted(t, seed, before, init, r);
      LastIsFresh(t, seed, before + txs);
      LastApplied(t, r, txs);
      LastApplied(t, seed, before + txs);
      LastNoted(t, seed, before + txs);
      OneJournaled(t, Replay(t, r, init), tx);
    }
  }

  lemma LastApplied(t: Templates, r: Reg, txs: seq<Tx>)
    requires txs != []
    ensures Replay(t, r, txs) == Apply(t, Replay(t, r, txs[..|txs| - 1]), txs[|txs| - 1])
    ensures Replay(t, r, txs).utxos == ApplyUtxos(t, Replay(t, r, txs[..|txs| - 1]).utxos, txs[|txs| - 1])
  {
    hide ApplyUtxos;
  }

  lemma LastNoted(t: Templates, seed: Reg, txs: seq<Tx>)
    requires txs != []
    ensures var (init, tx) := (txs[..|txs| - 1], txs[|txs| - 1]);
            var utxos := Replay(t, seed, init).utxos;
            Noted(t, seed, txs)
            == Noted(t, seed, init)
               + if ApplyUtxos(t, utxos, tx) != utxos || ProfileOf(t.host, tx).Some? then 1 else 0
  {
    hide ApplyUtxos, ProfileOf, Replay;
  }

  lemma LastIsFresh(t: Templates, seed: Reg, txs: seq<Tx>)
    requires txs != [] && FreshRun(t, seed, txs)
    ensures Fresh(Replay(t, seed, txs[..|txs| - 1]).utxos, txs[|txs| - 1].id)
  {
    hide Replay;
  }

  lemma OneJournaled(t: Templates, r: Reg, tx: Tx)
    requires Fresh(r.utxos, tx.id)
    ensures var after := Apply(t, r, tx);
            r.journal <= after.journal && |after.journal| <= |r.journal| + 1
            && (|after.journal| > |r.journal| ==>
                  ApplyUtxos(t, r.utxos, tx) != r.utxos || ProfileOf(t.host, tx).Some?)
  {
    hide ApplyUtxos, Added, Removed, Spends, NewerProfile, ProfileOf;
    if Kept(UndoOf(t, r, tx)) {
      KeptIsChange(t, r, tx);
    }
  }

  // ------------------------------------------------------------------ the journal, block by block --

  /** These entries are of the chain's last block, no more than its transactions that matter. */
  ghost predicate OfLast(t: Templates, seed: Reg, chain: seq<Block>, es: seq<UndoEntry>)
    requires chain != []
  {
    AllOf(es, chain[|chain| - 1].id)
    && |es| + NotedIn(t, seed, chain[..|chain| - 1]) <= NotedIn(t, seed, chain)
  }

  /** The journal has the blocks' entries in chain order, of each no more than matter. */
  ghost predicate InBlocks(t: Templates, seed: Reg, chain: seq<Block>, journal: seq<UndoEntry>) {
    if chain == [] then journal == []
    else exists m: nat :: m <= |journal| && OfLast(t, seed, chain, journal[m..])
                          && InBlocks(t, seed, chain[..|chain| - 1], journal[..m])
  }

  lemma {:induction false} BlocksOf(t: Templates, seed: Reg, chain: seq<Block>, journal: seq<UndoEntry>)
    requires InBlocks(t, seed, chain, journal)
    ensures forall e :: e in journal ==> exists i :: 0 <= i < |chain| && e.block == chain[i].id
  {
    hide NotedIn;
    if chain != [] {
      var init := chain[..|chain| - 1];
      var m: nat :| m <= |journal| && OfLast(t, seed, chain, journal[m..]) && InBlocks(t, seed, init, journal[..m]);
      BlocksOf(t, seed, init, journal[..m]);
      assert journal == journal[..m] + journal[m..];
      forall e | e in journal ensures exists i :: 0 <= i < |chain| && e.block == chain[i].id {
        if e in journal[..m] {
          var i :| 0 <= i < |init| && e.block == init[i].id;
          assert e.block == chain[i].id;
        } else {
          assert e.block == chain[|chain| - 1].id;
        }
      }
    }
  }

  /** Letting the oldest entries go keeps the order. */
  lemma {:induction false} NewestInBlocks(t: Templates, seed: Reg, chain: seq<Block>, journal: seq<UndoEntry>, c: nat)
    requires InBlocks(t, seed, chain, journal) && c <= |journal|
    ensures InBlocks(t, seed, chain, journal[c..])
  {
    hide NotedIn;
    if chain != [] {
      var init, rest := chain[..|chain| - 1], journal[c..];
      var m: nat :| m <= |journal| && OfLast(t, seed, chain, journal[m..]) && InBlocks(t, seed, init, journal[..m]);
      var k := if c <= m then c else m;
      NewestInBlocks(t, seed, init, journal[..m], k);
      assert rest[..m - k] == journal[..m][k..];
      assert forall e :: e in rest[m - k..] ==> e in journal[m..];
      assert OfLast(t, seed, chain, rest[m - k..]);
    }
  }

  /** So does dropping what is not stored. */
  lemma {:induction false} StoredInBlocks(t: Templates, seed: Reg, chain: seq<Block>, journal: seq<UndoEntry>)
    requires InBlocks(t, seed, chain, journal)
    ensures InBlocks(t, seed, chain, Strip(journal))
  {
    hide NotedIn;
    if chain != [] {
      var init := chain[..|chain| - 1];
      var m: nat :| m <= |journal| && OfLast(t, seed, chain, journal[m..]) && InBlocks(t, seed, init, journal[..m]);
      StoredInBlocks(t, seed, init, journal[..m]);
      StripConcat(journal[..m], journal[m..]);
      assert journal[..m] + journal[m..] == journal;
      var k := |Strip(journal[..m])|;
      assert Strip(journal)[..k] == Strip(journal[..m]) && Strip(journal)[k..] == Strip(journal[m..]);
      StripBlocks(journal[m..], chain[|chain| - 1].id);
      assert OfLast(t, seed, chain, Strip(journal)[k..]);
    }
  }

  lemma {:induction false} StripBlocks(es: seq<UndoEntry>, block: Bytes32)
    requires AllOf(es, block)
    ensures AllOf(Strip(es), block) && |Strip(es)| <= |es|
  {
    if es != [] {
      assert es[|es| - 1] in es && forall e :: e in es[..|es| - 1] ==> e in es;
      StripBlocks(es[..|es| - 1], block);
    }
  }

  /** Undoing blocks takes their entries off the end, no more than their transactions that matter. */
  lemma {:induction false} UndoneInBlocks(t: Templates, seed: Reg, chain: seq<Block>, n: nat, r: Reg)
    requires WellFormed(chain) && InBlocks(t, seed, chain, r.journal) && n <= |chain|
    ensures var u := UndoBlocks(r, NewestFirst(chain[n..]));
            InBlocks(t, seed, chain[..n], u.journal) && u.journal <= r.journal
            && |r.journal| - |u.journal| <= NotedIn(t, seed, chain) - NotedIn(t, seed, chain[..n])
  {
    hide NotedIn, UndoBlock, InBlocks, WellFormed;
    if n == |chain| {
      assert chain[..n] == chain && chain[n..] == [];
      assert UndoBlocks(r, NewestFirst([])) == r;
    } else {
      var init, last := chain[..|chain| - 1], chain[|chain| - 1];
      UndoneTip(t, seed, chain, r);
      WellFormedInit(chain);
      UndoneInBlocks(t, seed, init, n, UndoBlock(r, last.id));
      assert chain[n..][..|chain| - n - 1] == init[n..] && init[..n] == chain[..n];
      UndoBlocksFirst(r, last.id, NewestFirst(init[n..]));
    }
  }

  lemma UndoneTip(t: Templates, seed: Reg, chain: seq<Block>, r: Reg)
    requires WellFormed(chain) && InBlocks(t, seed, chain, r.journal) && chain != []
    ensures var init, u := chain[..|chain| - 1], UndoBlock(r, chain[|chain| - 1].id);
            InBlocks(t, seed, init, u.journal) && u.journal <= r.journal
            && |r.journal| - |u.journal| <= NotedIn(t, seed, chain) - NotedIn(t, seed, init)
  {
    hide NotedIn, UndoBlock;
    var init, last := chain[..|chain| - 1], chain[|chain| - 1];
    var m: nat :| m <= |r.journal| && OfLast(t, seed, chain, r.journal[m..]) && InBlocks(t, seed, init, r.journal[..m]);
    BlocksOf(t, seed, init, r.journal[..m]);
    UndoneLast(r, m, last.id);
  }

  lemma UndoneLast(r: Reg, m: nat, block: Bytes32)
    requires m <= |r.journal| && NoneOf(r.journal[..m], block) && AllOf(r.journal[m..], block)
    ensures UndoBlock(r, block).journal == r.journal[..m]
  {
    assert r.journal == r.journal[..m] + r.journal[m..];
    SplitEntries(r.journal[..m], r.journal[m..], block);
    RevertAllKeepsJournal(r, r.journal[m..], r.journal[..m]);
  }

  /** Applying further blocks appends their entries. */
  lemma {:induction false} AppliedInBlocks(t: Templates, seed: Reg, chain: seq<Block>, n: nat, r: Reg)
    requires WellFormed(chain) && FreshRun(t, seed, TxsOf(chain)) && n <= |chain|
    requires InBlocks(t, seed, chain[..n], r.journal) && r.utxos == Replay(t, seed, TxsOf(chain[..n])).utxos
    ensures InBlocks(t, seed, chain, Replay(t, r, TxsOf(chain[n..])).journal)
    ensures Replay(t, r, TxsOf(chain[n..])).utxos == Replay(t, seed, TxsOf(chain)).utxos
  {
    hide Replay, Noted, FreshRun, InBlocks, WellFormed;
    if n == |chain| {
      assert chain[..n] == chain && chain[n..] == [];
      ReplayNothing(t, r);
    } else {
      var init, last := chain[..|chain| - 1], chain[|chain| - 1];
      assert init[..n] == chain[..n] && chain[n..][..|chain| - n - 1] == init[n..];
      FreshInit(t, seed, chain);
      WellFormedInit(chain);
      AppliedInBlocks(t, seed, init, n, r);
      var before := Replay(t, r, TxsOf(init[n..]));
      ReplayConcat(t, r, TxsOf(init[n..]), last.txs);
      BlockApplied(t, seed, chain, before);
    }
  }

  lemma WellFormedInit(chain: seq<Block>)
    requires WellFormed(chain) && chain != []
    ensures WellFormed(chain[..|chain| - 1])
    ensures forall tx :: tx in chain[|chain| - 1].txs ==> tx.block == chain[|chain| - 1].id
  {
  }

  lemma BlockApplied(t: Templates, seed: Reg, chain: seq<Block>, r: Reg)
    requires WellFormed(chain) && chain != [] && FreshRun(t, seed, TxsOf(chain))
    requires InBlocks(t, seed, chain[..|chain| - 1], r.journal)
    requires r.utxos == Replay(t, seed, TxsOf(chain[..|chain| - 1])).utxos
    ensures InBlocks(t, seed, chain, Replay(t, r, chain[|chain| - 1].txs).journal)
    ensures Replay(t, r, chain[|chain| - 1].txs).utxos == Replay(t, seed, TxsOf(chain)).utxos
  {
    hide Replay, Noted, FreshRun, WellFormed;
    var init, last := chain[..|chain| - 1], chain[|chain| - 1];
    WellFormedInit(chain);
    JournaledIsNoted(t, seed, TxsOf(init), last.txs, r);
    NewEntries(t, r, last.txs);
    var journal, m := Replay(t, r, last.txs).journal, |r.journal|;
    assert journal[..m] == r.journal && OfLast(t, seed, chain, journal[m..]);
  }

  lemma FreshInit(t: Templates, seed: Reg, chain: seq<Block>)
    requires chain != [] && FreshRun(t, seed, TxsOf(chain))
    ensures FreshRun(t, seed, TxsOf(chain[..|chain| - 1]))
  {
    hide Replay, FreshRun;
    TxsOfPrefix(chain, |chain| - 1);
    FreshRunPrefix(t, seed, TxsOf(chain), |TxsOf(chain[..|chain| - 1])|);
    assert TxsOf(chain)[..|TxsOf(chain[..|chain| - 1])|] == TxsOf(chain[..|chain| - 1]);
  }

  lemma {:induction false} LongerInBlocks(t: Templates, seed: Reg, chain: seq<Block>, n: nat, journal: seq<UndoEntry>)
    requires n <= |chain| && InBlocks(t, seed, chain[..n], journal)
    ensures InBlocks(t, seed, chain, journal)
  {
    hide NotedIn;
    if n == |chain| {
      assert chain[..n] == chain;
    } else {
      var init := chain[..|chain| - 1];
      assert init[..n] == chain[..n];
      LongerInBlocks(t, seed, init, n, journal);
      NotedPrefix(t, seed, chain, |chain| - 1);
      var m := |journal|;
      assert journal[..m] == journal && OfLast(t, seed, chain, journal[m..]);
    }
  }

  // ------------------------------------------------------------------ what a reorg may remove --

  /** The journal still has every kept entry of the blocks from `n` on, if at most `keep` of their
      transactions matter. */
  ghost predicate Covers(t: Templates, seed: Reg, keep: nat, chain: seq<Block>, d: nat) {
    forall n :: 0 <= n <= |chain| && NotedIn(t, seed, chain) - NotedIn(t, seed, chain[..n]) <= keep ==>
      d <= |Strip(Replay(t, seed, TxsOf(chain[..n])).journal)|
  }

  /** The registry follows the chain and can undo what `keep` allows. */
  ghost predicate CoversFrom(t: Templates, seed: Reg, keep: nat, chain: seq<Block>, r: Reg, d: nat) {
    FollowsLive(r, Replay(t, seed, TxsOf(chain)), d) && InBlocks(t, seed, chain, r.journal)
    && Covers(t, seed, keep, chain, d)
  }

  lemma KeptGrows(t: Templates, seed: Reg, chain: seq<Block>, k: nat, n: nat)
    requires k <= n <= |chain|
    ensures |Strip(Replay(t, seed, TxsOf(chain[..k])).journal)| <= |Strip(Replay(t, seed, TxsOf(chain[..n])).journal)|
  {
    hide Replay, Strip;
    var small, large := TxsOf(chain[..k]), TxsOf(chain[..n]);
    assert chain[..n][..k] == chain[..k];
    TxsOfPrefix(chain[..n], k);
    assert large[..|small|] == small;
    JournalGrows(t, seed, large, |small|);
    var a, b := Replay(t, seed, small).journal, Replay(t, seed, large).journal;
    assert b[..|a|] == a;
    StripSuffix(b, |a|);
  }

  /** After undoing and applying, before the prune: what was missing is still missing, and nothing more. */
  lemma UndoneAndApplied(t: Templates, seed: Reg, keep: nat, before: seq<Block>, turn: Turn, r: Reg, d: nat)
      returns (p: Reg)
    requires seed.journal == [] && WellFormed(before) && FreshRun(t, seed, TxsOf(before)) && Connects(before, turn)
    requires WellFormed(turn.chain) && FreshRun(t, seed, TxsOf(turn.chain))
    requires CoversFrom(t, seed, keep, before, r, d)
    requires NotedIn(t, seed, before) - NotedIn(t, seed, before[..turn.kept]) <= keep
    ensures KeptSince(t, seed, before, turn.kept) <= |Strip(r.journal)|
    ensures p == Replay(t, UndoBlocks(r, turn.batch.removed), turn.batch.accepted)
    ensures FollowsLive(p, Replay(t, seed, TxsOf(turn.chain)), d) && InBlocks(t, seed, turn.chain, p.journal)
  {
    hide Replay, UndoBlocks, FreshRun, Strip, WellFormed, NewestFirst, TxsOf, NotedIn, InBlocks;
    var n := turn.kept;
    var undone, base := UndoBlocks(r, turn.batch.removed), Replay(t, seed, TxsOf(before[..n]));
    UndoLive(t, seed, before, n, r, d);
    ReplayLive(t, undone, base, d, turn.batch.accepted);
    TxsOfConcat(turn.chain[..n], turn.chain[n..]);
    assert turn.chain[..n] + turn.chain[n..] == turn.chain;
    ReplayConcat(t, seed, TxsOf(before[..n]), turn.batch.accepted);
    UndoneInBlocks(t, seed, before, n, r);
    AppliedInBlocks(t, seed, turn.chain, n, undone);
    p := Replay(t, undone, turn.batch.accepted);
  }

  /** What was missing before the prune is not among what the new chain must cover. */
  lemma StillCovers(t: Templates, seed: Reg, keep: nat, before: seq<Block>, turn: Turn, d: nat, n: nat)
    requires Connects(before, turn) && Covers(t, seed, keep, before, d)
    requires NotedIn(t, seed, before) <= NotedIn(t, seed, turn.chain)
    requires NotedIn(t, seed, before) - NotedIn(t, seed, before[..turn.kept]) <= keep
    requires n <= |turn.chain| && NotedIn(t, seed, turn.chain) - NotedIn(t, seed, turn.chain[..n]) <= keep
    ensures d <= |Strip(Replay(t, seed, TxsOf(turn.chain[..n])).journal)|
  {
    hide Replay, Strip, TxsOf, NotedIn;
    if n <= turn.kept {
      assert turn.chain[..n] == turn.chain[..turn.kept][..n] == before[..turn.kept][..n] == before[..n];
    } else {
      KeptGrows(t, seed, turn.chain, turn.kept, n);
    }
  }

  /** The prune lets go of nothing that the new chain must cover. */
  lemma PruneCovers(t: Templates, seed: Reg, keep: nat, chain: seq<Block>, p: Reg, d: nat, n: nat)
    requires seed.journal == [] && WellFormed(chain) && FreshRun(t, seed, TxsOf(chain)) && n <= |chain|
    requires FollowsLive(p, Replay(t, seed, TxsOf(chain)), d) && InBlocks(t, seed, chain, p.journal)
    requires NotedIn(t, seed, chain) - NotedIn(t, seed, chain[..n]) <= keep
    requires d <= |Strip(Replay(t, seed, TxsOf(chain[..n])).journal)|
    ensures var cut := |p.journal| - |Prune(p.journal, keep)|;
            cut >= 0 && d + |Strip(p.journal[..cut])| <= |Strip(Replay(t, seed, TxsOf(chain[..n])).journal)|
  {
    hide Replay, UndoBlocks, FreshRun, Strip, WellFormed, NewestFirst, TxsOf, NotedIn, InBlocks;
    UndoLive(t, seed, chain, n, p, d);
    UndoneInBlocks(t, seed, chain, n, p);
    var u, cut := UndoBlocks(p, NewestFirst(chain[n..])), |p.journal| - |Prune(p.journal, keep)|;
    assert cut <= |u.journal| && p.journal[..cut] == u.journal[..cut];
    StripSuffix(u.journal, cut);
  }

  /** One batch of a chain that does not lose transactions that matter, and removes at most `keep` of them. */
  lemma StepCovers(t: Templates, seed: Reg, keep: nat, before: seq<Block>, turn: Turn, r: Reg, d: nat) returns (d': nat)
    requires seed.journal == [] && WellFormed(before) && FreshRun(t, seed, TxsOf(before)) && Connects(before, turn)
    requires WellFormed(turn.chain) && FreshRun(t, seed, TxsOf(turn.chain))
    requires CoversFrom(t, seed, keep, before, r, d)
    requires NotedIn(t, seed, before) <= NotedIn(t, seed, turn.chain)
    requires NotedIn(t, seed, before) - NotedIn(t, seed, before[..turn.kept]) <= keep
    ensures KeptSince(t, seed, before, turn.kept) <= |Strip(r.journal)|
    ensures CoversFrom(t, seed, keep, turn.chain, StepReg(t, r, keep, turn.batch), d')
  {
    hide Replay, UndoBlocks, FreshRun, Strip, WellFormed, NewestFirst, TxsOf, NotedIn, InBlocks, Connects, KeptSince;
    var p := UndoneAndApplied(t, seed, keep, before, turn, r, d);
    var cut := |p.journal| - |Prune(p.journal, keep)|;
    StripSuffix(p.journal, cut);
    assert Prune(p.journal, keep) == p.journal[cut..];
    NewestInBlocks(t, seed, turn.chain, p.journal, cut);
    d' := d + |Strip(p.journal[..cut])|;
    forall n | 0 <= n <= |turn.chain| && NotedIn(t, seed, turn.chain) - NotedIn(t, seed, turn.chain[..n]) <= keep
      ensures d' <= |Strip(Replay(t, seed, TxsOf(turn.chain[..n])).journal)|
    {
      StillCovers(t, seed, keep, before, turn, d, n);
      PruneCovers(t, seed, keep, turn.chain, p, d, n);
    }
  }

  // ------------------------------------------------------------------ with restarts --

  /** A batch as a node sends it, said of the chains alone: the new chain has no fewer transactions that
      matter than the old one, and of those removed at most `keep` matter. */
  ghost predicate Grows(m: Manifest, keep: nat, before: seq<Block>, turn: Turn, eventBlocks: seq<Bytes32>) {
    var (t, seed) := (m.templates, AtStart(m).reg);
    WellFormed(turn.chain) && NewIds(seed, TxsOf(turn.chain)) && Connects(before, turn)
    && NotedIn(t, seed, before) <= NotedIn(t, seed, turn.chain)
    && NotedIn(t, seed, before) - NotedIn(t, seed, before[..turn.kept]) <= keep
    && (forall tx :: tx in turn.batch.accepted && NewOffer(t, tx).Some? ==> tx.block in eventBlocks)
    && forall e :: e in Full(m, turn.chain).journal ==> StatesEncodable(e)
  }

  ghost predicate GrowingLife(m: Manifest, keep: nat, hs: seq<Happening>) {
    hs != [] ==>
      var (init, h) := (hs[..|hs| - 1], hs[|hs| - 1]);
      GrowingLife(m, keep, init)
      && (h.Fetched? && !Stuck(Lived(m, keep, init).s, h.turn) ==>
            Grows(m, keep, Lived(m, keep, init).chain, h.turn, h.eventBlocks))
  }

  ghost predicate Covered(m: Manifest, keep: nat, r: Reg, chain: seq<Block>) {
    exists d :: CoversFrom(m.templates, AtStart(m).reg, keep, chain, r, d)
  }

  /** In memory and, once written, in what is stored. */
  ghost predicate BothCovered(m: Manifest, keep: nat, at: Life) {
    Covered(m, keep, at.s.reg, at.chain) && (!at.s.dirty ==> Covered(m, keep, at.s.stored, at.chain))
  }

  lemma StartCovered(m: Manifest, keep: nat, history: set<Bytes32>)
    ensures BothCovered(m, keep, Life(AtStart(m).(history := history), []))
  {
    hide Seeded;
    assert CoversFrom(m.templates, AtStart(m).reg, keep, [], AtStart(m).reg, 0);
  }

  lemma StoredCovers(t: Templates, seed: Reg, keep: nat, chain: seq<Block>, r: Reg, d: nat)
    requires CoversFrom(t, seed, keep, chain, r, d)
    ensures CoversFrom(t, seed, keep, chain, Reg(r.utxos, map[], Strip(r.journal)), d)
  {
    hide Replay, Strip, InBlocks, Covers;
    StripTwice(r.journal);
    StoredInBlocks(t, seed, chain, r.journal);
  }

  /** What was stored before a batch written as a status covers as much after it. */
  lemma QuietCovers(t: Templates, seed: Reg, keep: nat, before: seq<Block>, chain: seq<Block>, r: Reg, d: nat)
    requires CoversFrom(t, seed, keep, before, r, d) && before <= chain
    requires FollowsLive(r, Replay(t, seed, TxsOf(chain)), d)
    ensures CoversFrom(t, seed, keep, chain, r, d)
  {
    hide Replay, Strip, InBlocks, NotedIn, FollowsLive;
    var n := |before|;
    assert chain[..n] == before == before[..n];
    LongerInBlocks(t, seed, chain, n, r.journal);
    NotedPrefix(t, seed, chain, n);
    forall k | 0 <= k <= |chain| && NotedIn(t, seed, chain) - NotedIn(t, seed, chain[..k]) <= keep
      ensures d <= |Strip(Replay(t, seed, TxsOf(chain[..k])).journal)|
    {
      if k <= n {
        assert before[..k] == chain[..k];
      } else {
        KeptGrows(t, seed, chain, n, k);
      }
    }
  }

  /** What a registry that follows a chain could restore is what the chain's transactions spent. */
  lemma RestoresEncodable(r: Reg, full: Reg, d: nat)
    requires FollowsLive(r, full, d) && forall e :: e in full.journal ==> StatesEncodable(e)
    ensures forall e :: e in r.journal ==> StatesEncodable(e)
  {
    hide Strip, Encodable;
    StrippedFrom(full.journal);
    forall e | e in r.journal ensures StatesEncodable(e) {
      StrippedIn(r.journal, e);
      if Kept(e) {
        assert e.(profile := None) in Strip(full.journal);
      }
    }
  }

  lemma {:induction false} StrippedIn(journal: seq<UndoEntry>, e: UndoEntry)
    requires e in journal
    ensures Kept(e) ==> e.(profile := None) in Strip(journal)
  {
    if e in journal[..|journal| - 1] {
      StrippedIn(journal[..|journal| - 1], e);
    }
  }

  lemma {:induction false} StrippedFrom(journal: seq<UndoEntry>)
    ensures forall e :: e in Strip(journal) ==> exists f :: f in journal && f.(profile := None) == e
  {
    if journal != [] {
      StrippedFrom(journal[..|journal| - 1]);
      assert journal[|journal| - 1] in journal && forall f :: f in journal[..|journal| - 1] ==> f in journal;
    }
  }

  /** One fetched batch, in memory. */
  lemma BatchCovers(m: Manifest, keep: nat, at: Life, turn: Turn, eventBlocks: seq<Bytes32>) returns (d: nat)
    requires Following(m, at) && Covered(m, keep, at.s.reg, at.chain) && Grows(m, keep, at.chain, turn, eventBlocks)
    ensures Answers(m, keep, at, turn, eventBlocks)
    ensures CoversFrom(m.templates, AtStart(m).reg, keep, turn.chain, StepReg(m.templates, at.s.reg, keep, turn.batch),
                       d)
  {
    hide Replay, Strip, NewIds, FreshRun, StepReg, StatesEncodable, NewOffer, KeptSince, Seeded, WellFormed, Connects,
        NotedIn, InBlocks, Covers;
    var t, seed := m.templates, AtStart(m).reg;
    d :| CoversFrom(t, seed, keep, at.chain, at.s.reg, d);
    NewIdsAreFresh(t, seed, TxsOf(turn.chain));
    d := StepCovers(t, seed, keep, at.chain, turn, at.s.reg, d);
    RestoresEncodable(StepReg(t, at.s.reg, keep, turn.batch), Full(m, turn.chain), d);
  }

  lemma QuietStored(m: Manifest, keep: nat, at: Life, turn: Turn)
    requires Following(m, at) && Answers(m, keep, at, turn, []) && Covered(m, keep, at.s.stored, at.chain)
    requires OnChain(m, StepReg(m.templates, at.s.reg, keep, turn.batch), turn.chain)
    requires !Changed(at.s, StepReg(m.templates, at.s.reg, keep, turn.batch).utxos, turn.batch, [])
    ensures Covered(m, keep, at.s.stored, turn.chain)
  {
    hide Replay, Strip, StepReg, Changed, Answers, Following, OnChain, InBlocks, Covers, Seeded;
    QuietSame(m, keep, at, turn);
    var t, seed := m.templates, AtStart(m).reg;
    var k :| CoversFrom(t, seed, keep, at.chain, at.s.stored, k);
    QuietCovers(t, seed, keep, at.chain, turn.chain, at.s.stored, k);
  }

  /** In memory and in what is stored. */
  lemma TurnCovers(m: Manifest, keep: nat, at: Life, turn: Turn, eventBlocks: seq<Bytes32>)
    requires Following(m, at) && BothCovered(m, keep, at) && !Stuck(at.s, turn)
    requires Grows(m, keep, at.chain, turn, eventBlocks)
    ensures Answers(m, keep, at, turn, eventBlocks)
    ensures BothCovered(m, keep, Next(m, keep, at, Fetched(turn, eventBlocks)))
  {
    hide Replay, Strip, StepReg, StatesEncodable, Seeded, Unrevertable, LoadedJournal, EncodeJournal, InBlocks, Covers,
        Grows, Following;
    var t, seed := m.templates, AtStart(m).reg;
    var d := BatchCovers(m, keep, at, turn, eventBlocks);
    var reg := StepReg(t, at.s.reg, keep, turn.batch);
    assert FollowsLive(reg, Full(m, turn.chain), d);
    StoredFollows(m, reg, turn.chain);
    StoredCovers(t, seed, keep, turn.chain, reg, d);
    if !Changed(at.s, reg.utxos, turn.batch, eventBlocks) {
      QuietStored(m, keep, at, turn);
    }
  }

  /** Over any run of batches with reorgs, restarts and fresh starts in which the chain never loses
      transactions that matter and a batch removes at most `keep` of them, every reorg that does not start
      over is undone exactly, in memory and after any restart; so the registry follows the chain. */
  lemma {:induction false} GrowingLifeFollows(m: Manifest, keep: nat, hs: seq<Happening>)
    requires GrowingLife(m, keep, hs)
    ensures ProperLife(m, keep, hs) && BothCovered(m, keep, Lived(m, keep, hs))
    ensures var at := Lived(m, keep, hs);
            at.s.reg.utxos == Full(m, at.chain).utxos && Restarted(m, at.s).reg.utxos == Full(m, at.chain).utxos
  {
    hide Turned, Answers, Seeded, Unrevertable, Full, Grows, BothCovered, Following;
    if hs == [] {
      StartCovered(m, keep, {});
    } else {
      var init, h := hs[..|hs| - 1], hs[|hs| - 1];
      var at := Lived(m, keep, init);
      GrowingLifeFollows(m, keep, init);
      LifeFollowsChain(m, keep, init);
      match h
      case Stopped => RestartCovered(m, keep, at);
      case Fetched(turn, eventBlocks) =>
        if Stuck(at.s, turn) {
          OverCovered(m, keep, at, turn, eventBlocks);
        } else {
          TurnCovers(m, keep, at, turn, eventBlocks);
        }
    }
    LifeFollowsChain(m, keep, hs);
  }

  lemma RestartCovered(m: Manifest, keep: nat, at: Life)
    requires Following(m, at) && BothCovered(m, keep, at)
    ensures BothCovered(m, keep, at.(s := Restarted(m, at.s)))
  {
    hide Seeded, Covered, OnChain, Full;
    StartCovered(m, keep, at.s.history);
  }

  lemma OverCovered(m: Manifest, keep: nat, at: Life, turn: Turn, eventBlocks: seq<Bytes32>)
    requires Stuck(at.s, turn)
    ensures BothCovered(m, keep, Next(m, keep, at, Fetched(turn, eventBlocks)))
  {
    hide Seeded, Unrevertable, BothCovered;
    StartCovered(m, keep, {});
  }
}
