/** Profiles (kachat-names/src/ingest.rs `apply_profile`): each address shows its newest valid
    record, whatever order and however often the transactions arrive. */
module Profiles {
  import opened Base
  import opened States
  import opened Transition
  import opened Ingest
  import opened Undo
  import opened Chain
  import opened FollowerLoop
  import opened LastWrite

  function Older(a: ProfileEntry, b: ProfileEntry): bool {
    NewerProfile(b, a)
  }

  function ProfilesAfter(h: Host, p: Profiles, txs: seq<Tx>): Profiles {
    if txs == [] then p
    else
      var before := ProfilesAfter(h, p, txs[..|txs| - 1]);
      WithProfile(before, AcceptedProfile(h, before, txs[|txs| - 1]))
  }

  /** The valid self-send records for an address, in order of arrival. */
  function Records(h: Host, txs: seq<Tx>, address: Bytes): seq<ProfileEntry> {
    if txs == [] then []
    else
      var p := ProfileOf(h, txs[|txs| - 1]);
      Records(h, txs[..|txs| - 1], address) + if p.Some? && p.value.0 == address then [p.value.1] else []
  }

  /** Both followers keep their profiles this way. */
  lemma {:induction false} BothFollowers(t: Templates, r: Reg, txs: seq<Tx>)
    ensures Replay(t, r, txs).profiles == ProfilesAfter(t.host, r.profiles, txs)
    ensures ReplayProfiles(t.host, r, txs).profiles == ProfilesAfter(t.host, r.profiles, txs)
    ensures ReplayProfiles(t.host, r, txs).utxos == r.utxos
  {
    hide ApplyUtxos, Added, Removed, AcceptedProfile;
    if txs != [] {
      BothFollowers(t, r, txs[..|txs| - 1]);
    }
  }

  lemma {:induction false} ProfileIsLatest(h: Host, txs: seq<Tx>, address: Bytes)
    ensures var p, held := ProfilesAfter(h, map[], txs), Latest(Older, Records(h, txs, address));
            (address in p <==> held.Some?) && (address in p ==> p[address] == held.value)
  {
    hide NewerProfile, ProfileOf;
    if txs != [] {
      var init, tx := txs[..|txs| - 1], txs[|txs| - 1];
      ProfileIsLatest(h, init, address);
      var p := ProfileOf(h, tx);
      if p.Some? && p.value.0 == address {
        assert Records(h, txs, address)[..|Records(h, init, address)|] == Records(h, init, address);
      } else {
        assert Records(h, txs, address) == Records(h, init, address);
      }
    }
  }

  lemma {:induction false} RecordsOfTxs(h: Host, txs: seq<Tx>, address: Bytes)
    ensures forall e :: e in Records(h, txs, address)
                        <==> exists tx :: tx in txs && ProfileOf(h, tx) == Some((address, e))
  {
    hide ProfileOf;
    if txs != [] {
      RecordsOfTxs(h, txs[..|txs| - 1], address);
      assert txs == txs[..|txs| - 1] + [txs[|txs| - 1]];
    }
  }

  /** A transaction id stands for one transaction's contents. */
  ghost predicate IdsNameContents(txs: seq<Tx>) {
    forall a, b :: a in txs && b in txs && a.id == b.id ==>
        a.payload == b.payload && a.inputs == b.inputs && a.outputs == b.outputs
  }

  lemma RecordsOrdered(h: Host, txs: seq<Tx>, address: Bytes)
    requires IdsNameContents(txs)
    ensures Ordered(Older, Elements(Records(h, txs, address)))
  {
    hide Less;
    RecordsOfTxs(h, txs, address);
    var s := Elements(Records(h, txs, address));
    forall x | x in s ensures !Older(x, x) {
      LessIrreflexive(x.tx);
    }
    forall x, y | x in s && y in s ensures x == y || Older(x, y) || Older(y, x) {
      LessTotal(x.tx, y.tx);
    }
    forall x, y, z | x in s && y in s && z in s && Older(x, y) && Older(y, z) ensures Older(x, z) {
      if x.daa == y.daa == z.daa {
        LessTransitive(x.tx, y.tx, z.tx);
      }
    }
  }

  lemma GreatestRecordShows(h: Host, txs: seq<Tx>, address: Bytes)
    requires IdsNameContents(txs)
    ensures var p, records := ProfilesAfter(h, map[], txs), Elements(Records(h, txs, address));
            (address in p <==> records != {}) && (address in p ==> Greatest(Older, records, p[address]))
  {
    ProfileIsLatest(h, txs, address);
    RecordsOrdered(h, txs, address);
    LatestIsGreatest(Older, Records(h, txs, address));
  }

  /** The transaction carries a valid record, pays its first output to the address, and spends from it. */
  ghost predicate SelfSends(h: Host, tx: Tx, address: Bytes, json: Bytes) {
    h.profileRecord(tx.payload) == Some(json) && |tx.outputs| > 0 && tx.outputs[0].script == address
    && address != [] && exists i :: 0 <= i < |tx.inputs| && tx.inputs[i].spentScript == address
  }

  lemma RecordIsSelfSend(h: Host, tx: Tx, address: Bytes, e: ProfileEntry)
    ensures ProfileOf(h, tx) == Some((address, e))
            <==> SelfSends(h, tx, address, e.json) && e.daa == tx.daa && e.tx == tx.id
  {
  }

  /** The profile shown for an address is its own newest: the record of a self-send of that address, with
      its accepting DAA score and id, and no other self-send of the address has a greater score, or the
      same score and a greater id. */
  ghost predicate ShowsNewest(h: Host, p: Profiles, txs: seq<Tx>, address: Bytes) {
    (address in p <==> exists tx, json :: tx in txs && SelfSends(h, tx, address, json))
    && (address in p ==>
          (exists tx :: tx in txs && SelfSends(h, tx, address, p[address].json) && tx.daa == p[address].daa
                        && tx.id == p[address].tx)
          && forall tx, json :: tx in txs && SelfSends(h, tx, address, json) ==>
               tx.daa < p[address].daa || (tx.daa == p[address].daa
                                           && (tx.id == p[address].tx || Less(tx.id, p[address].tx))))
  }

  /** From no profiles, over any transactions, exactly the addresses that sent themselves a valid record
      have a profile, and it is the newest. */
  lemma NewestRecordShows(h: Host, txs: seq<Tx>, address: Bytes)
    requires IdsNameContents(txs)
    ensures ShowsNewest(h, ProfilesAfter(h, map[], txs), txs, address)
  {
    hide ProfileOf, Less, SelfSends;
    var p, records := ProfilesAfter(h, map[], txs), Elements(Records(h, txs, address));
    GreatestRecordShows(h, txs, address);
    RecordsOfTxs(h, txs, address);
    if address in p {
      assert p[address] in Records(h, txs, address);
      var tx :| tx in txs && ProfileOf(h, tx) == Some((address, p[address]));
      RecordIsSelfSend(h, tx, address, p[address]);
    }
    forall tx, json | tx in txs && SelfSends(h, tx, address, json)
      ensures address in p
              && (tx.daa < p[address].daa || (tx.daa == p[address].daa
                                              && (tx.id == p[address].tx || Less(tx.id, p[address].tx))))
    {
      var e := ProfileEntry(json, tx.daa, tx.id);
      RecordIsSelfSend(h, tx, address, e);
      assert e in records;
    }
  }

  /** The profiles depend only on which transactions were seen: any order, any repeats. */
  lemma ProfilesDependOnSet(h: Host, txs: seq<Tx>, others: seq<Tx>)
    requires IdsNameContents(txs) && Elements(txs) == Elements(others)
    ensures ProfilesAfter(h, map[], txs) == ProfilesAfter(h, map[], others)
  {
    hide ProfileOf;
    var p, q := ProfilesAfter(h, map[], txs), ProfilesAfter(h, map[], others);
    forall address ensures (address in p <==> address in q) && (address in p ==> p[address] == q[address]) {
      ProfileIsLatest(h, txs, address);
      ProfileIsLatest(h, others, address);
      RecordsOfTxs(h, txs, address);
      RecordsOfTxs(h, others, address);
      assert forall tx :: tx in txs <==> tx in Elements(txs);
      assert forall tx :: tx in others <==> tx in Elements(others);
      assert Elements(Records(h, txs, address)) == Elements(Records(h, others, address));
      RecordsOrdered(h, txs, address);
      LatestOfSet(Older, Records(h, txs, address), Records(h, others, address));
    }
    assert p == q;
  }

  /** Seeing a transaction again changes nothing. */
  lemma SeenAgain(h: Host, txs: seq<Tx>, tx: Tx)
    requires IdsNameContents(txs) && tx in txs
    ensures AcceptedProfile(h, ProfilesAfter(h, map[], txs), tx).None?
  {
    hide Less;
    var p := ProfileOf(h, tx);
    if p.Some? {
      var (address, entry) := p.value;
      GreatestRecordShows(h, txs, address);
      RecordsOfTxs(h, txs, address);
      assert entry in Elements(Records(h, txs, address));
      var held := ProfilesAfter(h, map[], txs)[address];
      LessIrreflexive(entry.tx);
      if held != entry && held.daa == entry.daa {
        LessAsymmetric(entry.tx, held.tx);
      }
    }
  }

  // ------------------------------------------------------------------ the profiles follower --

  /** Templates under which the engine itself tracks nothing: its runs are then the profiles
      follower's. */
  function ProfilesOnly(h: Host): Templates {
    var none := ContractTemplate([], [], 0);
    Templates(h.(offerMarker := (stateLen, payload) => None), none, none, none, None, [], 0, None, None)
  }

  /** Nothing is tracked, and the journal would restore nothing tracked. */
  ghost predicate Inert(r: Reg) {
    r.utxos == map[] && forall e :: e in r.journal ==> e.added == [] && e.removed == []
  }

  lemma {:induction false} NoSpends(t: Templates, tx: Tx, n: nat)
    requires n <= |tx.inputs|
    ensures SpendsUpTo(t, map[], tx, n) == []
  {
    if n > 0 {
      NoSpends(t, tx, n - 1);
    }
  }

  lemma NothingTracked(h: Host, tx: Tx)
    ensures Spends(ProfilesOnly(h), map[], tx) == [] && ApplyUtxos(ProfilesOnly(h), map[], tx) == map[]
  {
    var t := ProfilesOnly(h);
    NoSpends(t, tx, |tx.inputs|);
    assert Claims(t, []) == [];
    assert NewOffer(t, tx).None?;
  }

  lemma {:induction false} NothingAdded(tx: Tx, before: Utxos, n: nat)
    requires n <= |tx.outputs|
    ensures Added(tx, before, map[], n) == []
  {
    if n > 0 {
      NothingAdded(tx, before, n - 1);
    }
  }

  lemma SameRule(h: Host, p: Profiles, tx: Tx)
    ensures AcceptedProfile(ProfilesOnly(h).host, p, tx) == AcceptedProfile(h, p, tx)
  {
    assert ProfileOf(ProfilesOnly(h).host, tx) == ProfileOf(h, tx);
  }

  lemma {:induction false} InertReplay(h: Host, r: Reg, txs: seq<Tx>)
    requires Inert(r)
    ensures ReplayProfiles(h, r, txs) == Replay(ProfilesOnly(h), r, txs) && Inert(ReplayProfiles(h, r, txs))
  {
    hide ApplyUtxos, AcceptedProfile, Spends;
    if txs != [] {
      var init, tx := txs[..|txs| - 1], txs[|txs| - 1];
      InertReplay(h, r, init);
      NothingTracked(h, tx);
      var before := ReplayProfiles(h, r, init);
      NothingAdded(tx, before.utxos, |tx.outputs|);
      SameRule(h, before.profiles, tx);
    }
  }

  lemma {:induction false} InertRevert(r: Reg, es: seq<UndoEntry>)
    requires Inert(r) && forall e :: e in es ==> e.added == [] && e.removed == []
    ensures Inert(RevertAll(r, es))
    decreases |es|
  {
    if es != [] {
      var last := es[|es| - 1];
      assert last in es;
      InertRevert(r.(utxos := RevertUtxos(r.utxos, last), profiles := RevertProfiles(r.profiles, last)),
                  es[..|es| - 1]);
    }
  }

  lemma {:induction false} InertUndo(r: Reg, blocks: seq<Bytes32>)
    requires Inert(r)
    ensures Inert(UndoBlocks(r, blocks))
  {
    hide RevertAll, EntriesOf, EntriesNotOf;
    if blocks != [] {
      var before, block := UndoBlocks(r, blocks[..|blocks| - 1]), blocks[|blocks| - 1];
      InertUndo(r, blocks[..|blocks| - 1]);
      EntriesAreOld(before.journal, block);
      InertRevert(before.(journal := EntriesNotOf(before.journal, block)), EntriesOf(before.journal, block));
    }
  }

  lemma {:induction false} InertRun(h: Host, seed: Reg, keep: nat, turns: seq<Turn>)
    requires Inert(seed)
    ensures RunProfiles(h, seed, keep, turns) == RunReg(ProfilesOnly(h), seed, keep, turns)
        && Inert(RunProfiles(h, seed, keep, turns))
  {
    hide ReplayProfiles, Replay, UndoBlocks;
    if turns != [] {
      var init, last := turns[..|turns| - 1], turns[|turns| - 1];
      InertRun(h, seed, keep, init);
      InertUndo(RunProfiles(h, seed, keep, init), last.batch.removed);
      InertReplay(h, UndoBlocks(RunProfiles(h, seed, keep, init), last.batch.removed), last.batch.accepted);
    }
  }

  /** For every run of the profiles follower over batches with reorgs no deeper than its journal, the
      profiles are the current chain's: abandoned records are gone, and of the others the newest shows. */
  lemma ProfilesFollowChain(h: Host, seed: Reg, keep: nat, turns: seq<Turn>)
    requires seed.utxos == map[] && seed.journal == [] && ProperRun(ProfilesOnly(h), seed, keep, turns)
    ensures RunProfiles(h, seed, keep, turns).profiles == ProfilesAfter(h, seed.profiles, TxsOf(ChainAfter(turns)))
  {
    hide RunProfiles, RunReg, Replay, ProperRun, TxsOf, ProfilesAfter;
    InertRun(h, seed, keep, turns);
    RunFollowsChain(ProfilesOnly(h), seed, keep, turns);
    BothFollowers(ProfilesOnly(h), seed, TxsOf(ChainAfter(turns)));
    SameRules(h, seed.profiles, TxsOf(ChainAfter(turns)));
  }

  /** So after any such run each address shows the newest self-send of the current chain. */
  lemma FollowerShowsNewest(h: Host, seed: Reg, keep: nat, turns: seq<Turn>, address: Bytes)
    requires seed == Reg(map[], map[], []) && ProperRun(ProfilesOnly(h), seed, keep, turns)
    requires IdsNameContents(TxsOf(ChainAfter(turns)))
    ensures ShowsNewest(h, RunProfiles(h, seed, keep, turns).profiles, TxsOf(ChainAfter(turns)), address)
  {
    hide RunProfiles, ProperRun, TxsOf, ProfilesAfter, ShowsNewest;
    ProfilesFollowChain(h, seed, keep, turns);
    NewestRecordShows(h, TxsOf(ChainAfter(turns)), address);
  }

  lemma {:induction false} SameRules(h: Host, p: Profiles, txs: seq<Tx>)
    ensures ProfilesAfter(ProfilesOnly(h).host, p, txs) == ProfilesAfter(h, p, txs)
  {
    if txs != [] {
      SameRules(h, p, txs[..|txs| - 1]);
      SameRule(h, ProfilesAfter(h, p, txs[..|txs| - 1]), txs[|txs| - 1]);
    }
  }
}
