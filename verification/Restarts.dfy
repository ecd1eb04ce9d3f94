/** Restarts (kachat-names-follower/src/main.rs, store.rs): what is stored carries the follower's run on,
    whether the last turns were written in full or as a status only. */
module Restarts {
  import opened Base
  import opened States
  import opened Ingest
  import opened Undo
  import opened Chain
  import opened Verified
  import opened RegistryEngine
  import opened FollowerLoop
  import opened Journal
  import opened Store
  import opened Service

  // ------------------------------------------------------------------ up to profiles and old entries --

  /** The registry tracks what `full` tracks; of the entries of its journal that would change the
      tracked set, it has those from the `d`-th on. Profiles are not stored, so they are left aside. */
  predicate FollowsLive(r: Reg, full: Reg, d: nat) {
    r.utxos == full.utxos && d <= |Strip(full.journal)| && Strip(r.journal) == Strip(full.journal)[d..]
  }

  /** Two registries that differ only in profiles and profile undo. */
  predicate SameTracking(a: Reg, b: Reg) {
    a.utxos == b.utxos && Strip(a.journal) == Strip(b.journal)
  }

  lemma UndoSameTracking(a: Reg, b: Reg, blocks: seq<Bytes32>)
    requires SameTracking(a, b)
    ensures SameTracking(UndoBlocks(a, blocks), UndoBlocks(b, blocks))
  {
    hide UndoBlocks;
    var s := a.(journal := Strip(a.journal));
    UndoFromStored(a, s, blocks);
    UndoFromStored(b, s, blocks);
  }

  /** A transaction reads only the tracked set and adds the same entry, up to profiles. */
  lemma {:induction false} ReplaySameTracking(t: Templates, a: Reg, b: Reg, txs: seq<Tx>)
    requires a.utxos == b.utxos
    ensures var x, y := Replay(t, a, txs), Replay(t, b, txs);
            x.utxos == y.utxos && Strip(a.journal) <= Strip(x.journal) && Strip(b.journal) <= Strip(y.journal)
            && Strip(x.journal)[|Strip(a.journal)|..] == Strip(y.journal)[|Strip(b.journal)|..]
  {
    hide ApplyUtxos, Spends, AcceptedProfile, WithProfile, ProfileUndoOf, Added, Removed, Strip;
    if txs != [] {
      var init, tx := txs[..|txs| - 1], txs[|txs| - 1];
      ReplaySameTracking(t, a, b, init);
      var x, y := Replay(t, a, init), Replay(t, b, init);
      StripOneMore(x.journal, UndoOf(t, x, tx));
      StripOneMore(y.journal, UndoOf(t, y, tx));
      JournalAfter(t, x, tx);
      JournalAfter(t, y, tx);
    }
  }

  lemma JournalAfter(t: Templates, r: Reg, tx: Tx)
    ensures Strip(Apply(t, r, tx).journal)
            == Strip(r.journal) + if Kept(UndoOf(t, r, tx)) then [UndoOf(t, r, tx).(profile := None)] else []
  {
    hide ApplyUtxos, Spends, AcceptedProfile, WithProfile, ProfileUndoOf, Added, Removed;
    StripOneMore(r.journal, UndoOf(t, r, tx));
  }

  lemma StripOneMore(journal: seq<UndoEntry>, e: UndoEntry)
    ensures Strip(journal + [e]) == Strip(journal) + if Kept(e) then [e.(profile := None)] else []
  {
    assert (journal + [e])[..|journal|] == journal;
  }

  /** A cut of the journal behind exactly `d` kept entries. */
  lemma {:induction false} CutBehind(journal: seq<UndoEntry>, d: nat) returns (k: nat)
    requires d <= |Strip(journal)|
    ensures k <= |journal| && |Strip(journal[..k])| == d
  {
    if d == |Strip(journal)| {
      k := |journal|;
      assert journal[..k] == journal;
    } else {
      var init := journal[..|journal| - 1];
      k := CutBehind(init, d);
      assert init[..k] == journal[..k];
    }
  }

  lemma StripSuffix(journal: seq<UndoEntry>, k: nat)
    requires k <= |journal|
    ensures |Strip(journal[..k])| <= |Strip(journal)| && Strip(journal[k..]) == Strip(journal)[|Strip(journal[..k])|..]
  {
    StripConcat(journal[..k], journal[k..]);
    assert journal[..k] + journal[k..] == journal;
  }

  /** How many kept entries the blocks from `n` on have pushed. */
  function KeptSince(t: Templates, seed: Reg, chain: seq<Block>, n: nat): int
    requires n <= |chain|
  {
    |Strip(Replay(t, seed, TxsOf(chain)).journal)| - |Strip(Replay(t, seed, TxsOf(chain[..n])).journal)|
  }

  /** Undoing the removed blocks when the journal still has all their kept entries. */
  lemma UndoLive(t: Templates, seed: Reg, chain: seq<Block>, n: nat, r: Reg, d: nat)
    requires seed.journal == [] && WellFormed(chain) && FreshRun(t, seed, TxsOf(chain)) && n <= |chain|
    requires FollowsLive(r, Replay(t, seed, TxsOf(chain)), d) && KeptSince(t, seed, chain, n) <= |Strip(r.journal)|
    ensures FollowsLive(UndoBlocks(r, NewestFirst(chain[n..])), Replay(t, seed, TxsOf(chain[..n])), d)
  {
    hide Replay, UndoBlocks, Strip, FreshRun, WellFormed;
    var full, target := Replay(t, seed, TxsOf(chain)), Replay(t, seed, TxsOf(chain[..n]));
    TxsOfPrefix(chain, n);
    JournalGrows(t, seed, TxsOf(chain), |TxsOf(chain[..n])|);
    assert TxsOf(chain)[..|TxsOf(chain[..n])|] == TxsOf(chain[..n]);
    var k := CutBehind(target.journal, d);
    assert target.journal[..k] == full.journal[..k];
    StripSuffix(full.journal, k);
    StripSuffix(target.journal, k);
    var proxy := full.(journal := full.journal[k..]);
    UndoExact(t, seed, chain, n, k, proxy);
    UndoSameTracking(r, proxy, NewestFirst(chain[n..]));
  }

  /** One batch whose removed blocks the journal still covers keeps the tracked set on the chain. */
  lemma StepFollowsLive(t: Templates, seed: Reg, before: seq<Block>, turn: Turn, keep: nat, r: Reg, d: nat)
      returns (d': nat)
    requires seed.journal == [] && WellFormed(before) && FreshRun(t, seed, TxsOf(before)) && Connects(before, turn)
    requires FollowsLive(r, Replay(t, seed, TxsOf(before)), d)
    requires KeptSince(t, seed, before, turn.kept) <= |Strip(r.journal)|
    ensures FollowsLive(StepReg(t, r, keep, turn.batch), Replay(t, seed, TxsOf(turn.chain)), d')
  {
    hide Replay, UndoBlocks, FreshRun, Strip, WellFormed, KeptSince, NewestFirst, TxsOf, Prune;
    var n := turn.kept;
    var undone, base := UndoBlocks(r, turn.batch.removed), Replay(t, seed, TxsOf(before[..n]));
    UndoLive(t, seed, before, n, r, d);
    ReplayLive(t, undone, base, d, turn.batch.accepted);
    TxsOfConcat(turn.chain[..n], turn.chain[n..]);
    assert turn.chain[..n] + turn.chain[n..] == turn.chain;
    ReplayConcat(t, seed, TxsOf(before[..n]), turn.batch.accepted);
    d' := PruneLive(Replay(t, undone, turn.batch.accepted), Replay(t, seed, TxsOf(turn.chain)), d, keep);
  }

  lemma ReplayLive(t: Templates, r: Reg, full: Reg, d: nat, txs: seq<Tx>)
    requires FollowsLive(r, full, d)
    ensures FollowsLive(Replay(t, r, txs), Replay(t, full, txs), d)
  {
    hide Replay, Strip;
    ReplaySameTracking(t, r, full, txs);
    var a, b := Strip(Replay(t, r, txs).journal), Strip(Replay(t, full, txs).journal);
    var i, j := |Strip(r.journal)|, |Strip(full.journal)|;
    assert a == a[..i] + a[i..] && b == b[..j] + b[j..];
    assert b[d..] == b[..j][d..] + b[j..];
  }

  lemma PruneLive(r: Reg, full: Reg, d: nat, keep: nat) returns (d': nat)
    requires FollowsLive(r, full, d)
    ensures FollowsLive(r.(journal := Prune(r.journal, keep)), full, d')
  {
    hide Strip;
    var cut := if |r.journal| > keep then |r.journal| - keep else 0;
    StripSuffix(r.journal, cut);
    assert Prune(r.journal, keep) == r.journal[cut..];
    d' := d + |Strip(r.journal[..cut])|;
  }

  // ------------------------------------------------------------------ quiet batches --

  /** A batch that announces no offer and after which the tracked set is the same pushed no entry that
      would change it. */
  lemma {:induction false} QuietKeepsJournal(t: Templates, r: Reg, txs: seq<Tx>, n: nat)
    requires NewIds(r, txs) && n <= |txs| && Replay(t, r, txs).utxos == r.utxos
    requires forall tx :: tx in txs ==> NewOffer(t, tx).None?
    ensures Replay(t, r, txs[..n]).utxos == r.utxos && Strip(Replay(t, r, txs[..n]).journal) == Strip(r.journal)
  {
    hide Strip, NewOffer, NewIds, ApplyUtxos, Kept, UndoOf;
    if n == 0 {
      assert txs[..0] == [];
    } else {
      QuietKeepsJournal(t, r, txs, n - 1);
      var before, tx := Replay(t, r, txs[..n - 1]), txs[n - 1];
      assert txs[..n][..n - 1] == txs[..n - 1] && tx in txs;
      StatesAreFinal(t, r, txs, n);
      ApplyFrame(t, before.utxos, tx);
      NothingSpent(t, before, tx);
      JournalAfter(t, before, tx);
    }
  }

  /** A transaction after which everything tracked is still tracked, and that announces no offer, spent
      nothing tracked and pushes nothing kept. */
  lemma NothingSpent(t: Templates, r: Reg, tx: Tx)
    requires NewOffer(t, tx).None? && r.utxos.Keys <= ApplyUtxos(t, r.utxos, tx).Keys
    ensures ApplyUtxos(t, r.utxos, tx) == r.utxos && !Kept(UndoOf(t, r, tx)) && Apply(t, r, tx).utxos == r.utxos
  {
    hide NewOffer, Claims, SpendsUpTo;
    var spends := Spends(t, r.utxos, tx);
    ApplyFrame(t, r.utxos, tx);
    NoneSpent(spends);
    NoClaimsNoWork(t, tx, r.utxos);
    NoneAdded(tx, r.utxos, |tx.outputs|);
  }

  lemma NoneSpent(spends: seq<Spend>)
    ensures spends != [] ==> SpentOutpoints(spends) != {}
  {
    assert spends != [] ==> spends[0].op in SpentOutpoints(spends);
  }

  lemma NoClaimsNoWork(t: Templates, tx: Tx, u: Utxos)
    ensures Claims(t, []) == [] && RunClaims(t, tx, [], Work([], u)).utxos == u
  {
  }

  lemma {:induction false} NoneAdded(tx: Tx, u: Utxos, n: nat)
    requires n <= |tx.outputs|
    ensures Added(tx, u, u, n) == []
  {
    if n > 0 {
      NoneAdded(tx, u, n - 1);
    }
  }

  // ------------------------------------------------------------------ runs of turns and restarts --

  /** A batch is fetched, with the blocks of the events it will emit, or the process is restarted. */
  datatype Happening = Fetched(turn: Turn, eventBlocks: seq<Bytes32>) | Stopped

  /** The follower and the chain it has followed; starting over forgets the chain. */
  datatype Life = Life(s: Snapshot, chain: seq<Block>)

  predicate Stuck(s: Snapshot, turn: Turn) {
    Unrevertable(s.reg.journal, s.history, turn.batch.removed)
  }

  function Next(m: Manifest, keep: nat, at: Life, h: Happening): Life {
    match h
    case Stopped => at.(s := Restarted(m, at.s))
    case Fetched(turn, eventBlocks) =>
      Life(Turned(m, keep, at.s, turn.batch, eventBlocks), if Stuck(at.s, turn) then [] else turn.chain)
  }

  function Lived(m: Manifest, keep: nat, hs: seq<Happening>): Life {
    if hs == [] then Life(AtStart(m), []) else Next(m, keep, Lived(m, keep, hs[..|hs| - 1]), hs[|hs| - 1])
  }

  /** What a node's answers look like: the batch leads from the followed chain to a well-formed one with
      new transaction ids, an announced offer is among its events, no removed block is older than the
      journal, and the states the journal restores can be encoded. */
  ghost predicate Answers(m: Manifest, keep: nat, at: Life, turn: Turn, eventBlocks: seq<Bytes32>) {
    var seed := AtStart(m).reg;
    WellFormed(turn.chain) && NewIds(seed, TxsOf(turn.chain)) && Connects(at.chain, turn)
    && KeptSince(m.templates, seed, at.chain, turn.kept) <= |Strip(at.s.reg.journal)|
    && (forall tx :: tx in turn.batch.accepted && NewOffer(m.templates, tx).Some? ==> tx.block in eventBlocks)
    && forall e :: e in StepReg(m.templates, at.s.reg, keep, turn.batch).journal ==> StatesEncodable(e)
  }

  /** A turn that starts over needs nothing of its batch. */
  ghost predicate Possible(m: Manifest, keep: nat, at: Life, h: Happening) {
    h.Fetched? && !Stuck(at.s, h.turn) ==> Answers(m, keep, at, h.turn, h.eventBlocks)
  }

  ghost predicate ProperLife(m: Manifest, keep: nat, hs: seq<Happening>) {
    hs != [] ==>
      ProperLife(m, keep, hs[..|hs| - 1]) && Possible(m, keep, Lived(m, keep, hs[..|hs| - 1]), hs[|hs| - 1])
  }

  function Full(m: Manifest, chain: seq<Block>): Reg {
    Replay(m.templates, AtStart(m).reg, TxsOf(chain))
  }

  ghost predicate OnChain(m: Manifest, r: Reg, chain: seq<Block>) {
    exists d :: FollowsLive(r, Full(m, chain), d)
  }

  /** What is in memory and what is stored both follow the chain; before the first write nothing is
      stored and nothing followed. */
  ghost predicate Following(m: Manifest, at: Life) {
    WellFormed(at.chain) && FreshRun(m.templates, AtStart(m).reg, TxsOf(at.chain))
        && NewIds(AtStart(m).reg, TxsOf(at.chain))
    && OnChain(m, at.s.reg, at.chain)
    && if at.s.dirty then at.chain == [] && at.s.stored == AtStart(m).stored else OnChain(m, at.s.stored, at.chain)
  }

  lemma StartFollows(m: Manifest, history: set<Bytes32>)
    ensures Following(m, Life(AtStart(m).(history := history), []))
  {
    hide Seeded;
    assert FollowsLive(AtStart(m).reg, Full(m, []), 0);
  }

  lemma RestartFollows(m: Manifest, at: Life)
    requires Following(m, at)
    ensures Following(m, at.(s := Restarted(m, at.s)))
  {
    hide Seeded, OnChain, Full;
    StartFollows(m, at.s.history);
  }

  lemma {:induction false} StripTwice(journal: seq<UndoEntry>)
    ensures Strip(Strip(journal)) == Strip(journal)
  {
    if journal != [] {
      var init, last := journal[..|journal| - 1], journal[|journal| - 1];
      StripTwice(init);
      StripConcat(Strip(init), if Kept(last) then [last.(profile := None)] else []);
    }
  }

  /** What a full write stores is as good as what it was written from. */
  lemma StoredFollows(m: Manifest, r: Reg, chain: seq<Block>)
    requires OnChain(m, r, chain) && forall e :: e in r.journal ==> StatesEncodable(e)
    ensures LoadedJournal(Some(EncodeJournal(r.journal))) == Strip(r.journal)
    ensures OnChain(m, Reg(r.utxos, map[], LoadedJournal(Some(EncodeJournal(r.journal)))), chain)
  {
    hide Strip, EncodeJournal, DecodeEntries, StatesEncodable, Full;
    JournalRoundTrip(r.journal);
    StripTwice(r.journal);
    var d :| FollowsLive(r, Full(m, chain), d);
    assert FollowsLive(Reg(r.utxos, map[], Strip(r.journal)), Full(m, chain), d);
  }

  lemma {:induction false} NothingRemoved(chain: seq<Block>)
    ensures |NewestFirst(chain)| == |chain|
  {
    if chain != [] {
      NothingRemoved(chain[..|chain| - 1]);
    }
  }

  /** When only the status is written, the batch extended the chain and changed nothing kept. */
  lemma QuietSame(m: Manifest, keep: nat, at: Life, turn: Turn)
    requires Following(m, at) && Answers(m, keep, at, turn, [])
    requires OnChain(m, StepReg(m.templates, at.s.reg, keep, turn.batch), turn.chain)
    requires !Changed(at.s, StepReg(m.templates, at.s.reg, keep, turn.batch).utxos, turn.batch, [])
    ensures at.chain <= turn.chain && Full(m, turn.chain).utxos == Full(m, at.chain).utxos
        && Strip(Full(m, turn.chain).journal) == Strip(Full(m, at.chain).journal)
  {
    hide Replay, Strip, NewIds, FreshRun, StepReg, UndoBlocks, StatesEncodable, NewOffer, KeptSince, Seeded, WellFormed;
    var seed, before, accepted := AtStart(m).reg, Full(m, at.chain), turn.batch.accepted;
    NothingRemoved(at.chain[turn.kept..]);
    assert turn.chain[..turn.kept] == at.chain && at.chain + turn.chain[turn.kept..] == turn.chain;
    TxsOfConcat(at.chain, turn.chain[turn.kept..]);
    NewIdsAfter(m.templates, seed, TxsOf(at.chain), accepted);
    ReplayConcat(m.templates, seed, TxsOf(at.chain), accepted);
    SameIds(before, at.s.reg, accepted);
    StepQuietly(m, at.s.reg, keep, turn.batch);
    assert accepted[..|accepted|] == accepted;
    QuietKeepsJournal(m.templates, before, accepted, |accepted|);
  }

  /** Then what was stored before follows the new chain too. */
  lemma QuietFollows(m: Manifest, keep: nat, at: Life, turn: Turn)
    requires Following(m, at) && Answers(m, keep, at, turn, [])
    requires OnChain(m, StepReg(m.templates, at.s.reg, keep, turn.batch), turn.chain)
    requires !Changed(at.s, StepReg(m.templates, at.s.reg, keep, turn.batch).utxos, turn.batch, [])
    ensures OnChain(m, at.s.stored, turn.chain)
  {
    hide Full, Strip, Answers, StepReg;
    QuietSame(m, keep, at, turn);
    var k :| FollowsLive(at.s.stored, Full(m, at.chain), k);
    assert FollowsLive(at.s.stored, Full(m, turn.chain), k);
  }

  lemma SameIds(a: Reg, b: Reg, txs: seq<Tx>)
    requires NewIds(a, txs) && a.utxos == b.utxos
    ensures NewIds(b, txs)
  {
  }

  lemma StepQuietly(m: Manifest, r: Reg, keep: nat, batch: Batch)
    requires batch.removed == [] && NewIds(r, batch.accepted)
    requires var after := StepReg(m.templates, r, keep, batch).utxos; |after| == |r.utxos| && after.Keys <= r.utxos.Keys
    ensures StepReg(m.templates, r, keep, batch).utxos == r.utxos
  {
    hide StepReg, NewIds;
    QuietBatch(m.templates, r, keep, batch);
  }

  /** One turn. */
  lemma TurnFollows(m: Manifest, keep: nat, at: Life, turn: Turn, eventBlocks: seq<Bytes32>)
    requires Following(m, at) && !Stuck(at.s, turn) && Answers(m, keep, at, turn, eventBlocks)
    ensures Following(m, Next(m, keep, at, Fetched(turn, eventBlocks)))
  {
    hide Replay, Strip, NewIds, FreshRun, StepReg, StatesEncodable, NewOffer, KeptSince, Seeded, WellFormed, Connects,
        Unrevertable,
         LoadedJournal, EncodeJournal;
    var d :| FollowsLive(at.s.reg, Full(m, at.chain), d);
    d := StepFollowsLive(m.templates, AtStart(m).reg, at.chain, turn, keep, at.s.reg, d);
    NewIdsAreFresh(m.templates, AtStart(m).reg, TxsOf(turn.chain));
    var reg := StepReg(m.templates, at.s.reg, keep, turn.batch);
    assert FollowsLive(reg, Full(m, turn.chain), d);
    StoredFollows(m, reg, turn.chain);
    if !Changed(at.s, reg.utxos, turn.batch, eventBlocks) {
      QuietFollows(m, keep, at, turn);
    }
  }

  /** Over any run of batches with reorgs, full and status-only writes, restarts and fresh starts, the
      registry in memory and the one a restart would load track what the followed chain leaves. */
  lemma {:induction false} LifeFollowsChain(m: Manifest, keep: nat, hs: seq<Happening>)
    requires ProperLife(m, keep, hs)
    ensures var at := Lived(m, keep, hs);
            Following(m, at) && at.s.reg.utxos == Full(m, at.chain).utxos
            && Restarted(m, at.s).reg.utxos == Full(m, at.chain).utxos
  {
    hide Following, Turned, Restarted, Answers, Seeded, Unrevertable, Full;
    if hs == [] {
      StartFollows(m, {});
    } else {
      var at := Lived(m, keep, hs[..|hs| - 1]);
      LifeFollowsChain(m, keep, hs[..|hs| - 1]);
      match hs[|hs| - 1]
      case Stopped => RestartFollows(m, at);
      case Fetched(turn, eventBlocks) =>
        if Stuck(at.s, turn) {
          TurnStartsOver(m, keep, at, turn, eventBlocks);
        } else {
          TurnFollows(m, keep, at, turn, eventBlocks);
        }
    }
    BothOnChain(m, Lived(m, keep, hs));
  }

  lemma TurnStartsOver(m: Manifest, keep: nat, at: Life, turn: Turn, eventBlocks: seq<Bytes32>)
    requires Stuck(at.s, turn)
    ensures Following(m, Next(m, keep, at, Fetched(turn, eventBlocks)))
  {
    hide Following, Seeded, Unrevertable;
    StartFollows(m, {});
  }

  lemma BothOnChain(m: Manifest, at: Life)
    requires Following(m, at)
    ensures at.s.reg.utxos == Full(m, at.chain).utxos && Restarted(m, at.s).reg.utxos == Full(m, at.chain).utxos
  {
    hide Full, Seeded, Strip;
    RestartFollows(m, at);
  }

  // ------------------------------------------------------------------ the service runs it --

  lemma {:induction false} StripKeeps(ok: Property, journal: seq<UndoEntry>)
    requires forall e :: e in journal ==> HoldsOfEntry(ok, e)
    ensures forall e :: e in Strip(journal) ==> HoldsOfEntry(ok, e)
  {
    if journal != [] {
      var init, last := journal[..|journal| - 1], journal[|journal| - 1];
      assert last in journal && forall e :: e in init ==> e in journal;
      StripKeeps(ok, init);
      assert HoldsOfEntry(ok, last.(profile := None));
    }
  }

  /** Names are padded names in memory and in what is stored. */
  ghost predicate NamesKept(s: Snapshot) {
    Everywhere(NamePadded, s.reg) && Everywhere(NamePadded, s.stored)
  }

  lemma SeededNames(m: Manifest)
    ensures NamesKept(AtStart(m))
  {
    hide Padded;
    ShardsNameless(map[m.genesis := Gap(m.gap)], m.shards);
  }

  lemma {:induction false} LifeKeepsNames(m: Manifest, keep: nat, hs: seq<Happening>)
    requires ProperLife(m, keep, hs) && HonestLookup(m.templates.host)
    ensures NamesKept(Lived(m, keep, hs).s)
  {
    hide Answers, Seeded, Unrevertable, Changed, NamePadded, HonestLookup, StepReg;
    if hs == [] {
      SeededNames(m);
    } else {
      var at := Lived(m, keep, hs[..|hs| - 1]);
      LifeKeepsNames(m, keep, hs[..|hs| - 1]);
      LifeFollowsChain(m, keep, hs[..|hs| - 1]);
      NextKeepsNames(m, keep, at, hs[|hs| - 1]);
    }
  }

  lemma NextKeepsNames(m: Manifest, keep: nat, at: Life, h: Happening)
    requires NamesKept(at.s) && Following(m, at) && Possible(m, keep, at, h) && HonestLookup(m.templates.host)
    ensures NamesKept(Next(m, keep, at, h).s)
  {
    hide Seeded, Unrevertable, Changed, NamePadded, HonestLookup, StepReg, LoadedJournal, EncodeJournal, Holds,
        HoldsOfEntry,
         OnChain, StatesEncodable, Connects, KeptSince, WellFormed, NewIds, FreshRun;
    SeededNames(m);
    if h.Fetched? && !Stuck(at.s, h.turn) {
      StepKeepsNames(m.templates, at.s.reg, keep, h.turn.batch);
      var reg := StepReg(m.templates, at.s.reg, keep, h.turn.batch);
      JournalStored(reg.journal);
      StripKeeps(NamePadded, reg.journal);
    }
  }

  lemma JournalStored(journal: seq<UndoEntry>)
    requires forall e :: e in journal ==> StatesEncodable(e)
    ensures LoadedJournal(Some(EncodeJournal(journal))) == Strip(journal)
  {
    hide Strip, EncodeJournal, DecodeEntries, StatesEncodable;
    JournalRoundTrip(journal);
  }

  /** A batch the chain connects to brings new ids to what undoing its removed blocks leaves. */
  lemma BatchIsNew(m: Manifest, keep: nat, at: Life, turn: Turn, eventBlocks: seq<Bytes32>)
    requires Following(m, at) && Answers(m, keep, at, turn, eventBlocks)
    ensures NewIds(UndoBlocks(at.s.reg, turn.batch.removed), turn.batch.accepted)
  {
    hide Replay, Strip, NewIds, FreshRun, StepReg, StatesEncodable, NewOffer, KeptSince, Seeded, WellFormed, UndoBlocks;
    var seed, n := AtStart(m).reg, turn.kept;
    var d :| FollowsLive(at.s.reg, Full(m, at.chain), d);
    UndoLive(m.templates, seed, at.chain, n, at.s.reg, d);
    TxsOfConcat(turn.chain[..n], turn.chain[n..]);
    assert turn.chain[..n] + turn.chain[n..] == turn.chain;
    NewIdsAfter(m.templates, seed, TxsOf(at.chain[..n]), turn.batch.accepted);
    SameIds(Full(m, at.chain[..n]), UndoBlocks(at.s.reg, turn.batch.removed), turn.batch.accepted);
  }

  /** The service over any such run, from a first start: its registry tracks what the chain it followed
      leaves. */
  method Live(first: Service, hs: seq<Happening>) returns (s: Service)
    requires first.Valid() && first.follower.finalityKeep == first.keep && first.Snap() == AtStart(first.m)
    requires HonestLookup(first.m.templates.host) && KeepsAscii(first.db.lossy) && ProperLife(first.m, first.keep, hs)
    modifies first, first.db, first.follower, first.follower.registry
    ensures s.Valid() && s.db == first.db && s.Snap() == Lived(first.m, first.keep, hs).s
    ensures s.follower.registry.utxos == Full(first.m, Lived(first.m, first.keep, hs).chain).utxos
  {
    hide Turned, Answers, Seeded, Unrevertable, NamePadded, HonestLookup, KeepsAscii, StepReg, Full, UndoBlocks, NewIds,
        Following,
         Everywhere, LoadUtxos, LoadedJournal, Restarted, AtStart;
    s := first;
    assert hs[..0] == [];
    for i := 0 to |hs|
      invariant s == first || fresh(s)
      invariant s.follower == old(first.follower) || fresh(s.follower)
      invariant s.follower.registry == old(first.follower.registry) || fresh(s.follower.registry)
      invariant s.m == first.m && s.keep == first.keep && s.db == first.db
      invariant s.Valid() && s.follower.finalityKeep == s.keep
      invariant ProperLife(first.m, first.keep, hs[..i]) && s.Snap() == Lived(first.m, first.keep, hs[..i]).s
    {
      ghost var at := Lived(first.m, first.keep, hs[..i]);
      LifeFollowsChain(first.m, first.keep, hs[..i]);
      LifeKeepsNames(first.m, first.keep, hs[..i]);
      assert hs[..i + 1][..i] == hs[..i];
      ProperPrefix(first.m, first.keep, hs, i + 1);
      match hs[i]
      case Stopped =>
        s := Restart(s);
      case Fetched(turn, eventBlocks) =>
        if !Unrevertable(s.follower.registry.journal, s.db.history, turn.batch.removed) {
          BatchIsNew(first.m, first.keep, at, turn, eventBlocks);
        }
        var outcome := s.Turn(turn.batch, eventBlocks);
    }
    assert hs[..|hs|] == hs;
    LifeFollowsChain(first.m, first.keep, hs);
  }

  lemma {:induction false} ProperPrefix(m: Manifest, keep: nat, hs: seq<Happening>, n: nat)
    requires ProperLife(m, keep, hs) && n <= |hs|
    ensures ProperLife(m, keep, hs[..n])
  {
    hide Answers, Lived, Possible;
    if n < |hs| {
      ProperPrefix(m, keep, hs[..|hs| - 1], n);
      assert hs[..|hs| - 1][..n] == hs[..n];
    } else {
      assert hs[..n] == hs;
    }
  }
}
