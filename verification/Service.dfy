/** The follower service (kachat-names-follower/src/main.rs `run`): one turn takes a batch, starts over
    when a reorg cannot be undone, and otherwise steps the engine and writes the database. */
module Service {
  import opened Base
  import opened States
  import opened Ingest
  import opened Undo
  import opened Chain
  import opened Verified
  import opened RegistryEngine
  import opened FollowerLoop
  import opened Journal
  import opened Store

  datatype Manifest = Manifest(
    templates: Templates,
    scanFrom: Bytes32,
    genesis: Outpoint,
    gap: GapState,
    shards: seq<(Outpoint, PriceState)>)

  datatype Outcome = StartedOver | Persisted | StatusOnly

  /** The tracked set the manifest seeds on top of what is already there. */
  function Seeded(m: Manifest, utxos: Utxos): Utxos {
    WithShards(utxos[m.genesis := Gap(m.gap)], m.shards)
  }

  /** What a turn or a restart reads: the registry in memory, the one a start would load, the blocks
      with history rows, and whether the live set was never written. */
  datatype Snapshot = Snapshot(reg: Reg, stored: Reg, history: set<Bytes32>, dirty: bool)

  /** An empty database and the registry the manifest seeds. */
  function AtStart(m: Manifest): Snapshot {
    Snapshot(Reg(Seeded(m, map[]), map[], []), Reg(map[], map[], []), {}, true)
  }

  /** The batch has to be written in full: the status alone would not do. */
  predicate Changed(s: Snapshot, after: Utxos, batch: Batch, eventBlocks: seq<Bytes32>) {
    s.dirty || batch.removed != [] || eventBlocks != [] || |after| != |s.reg.utxos| || !(after.Keys <= s.reg.utxos.Keys)
  }

  function Turned(m: Manifest, keep: nat, s: Snapshot, batch: Batch, eventBlocks: seq<Bytes32>): Snapshot {
    if Unrevertable(s.reg.journal, s.history, batch.removed) then AtStart(m)
    else
      var reg := StepReg(m.templates, s.reg, keep, batch);
      if Changed(s, reg.utxos, batch, eventBlocks)
      then Snapshot(reg, Reg(reg.utxos, map[], LoadedJournal(Some(EncodeJournal(reg.journal)))),
                    s.history - Elements(batch.removed) + Elements(eventBlocks), false)
      else s.(reg := reg)
  }

  function Restarted(m: Manifest, s: Snapshot): Snapshot {
    s.(reg := if s.dirty then s.stored.(utxos := Seeded(m, s.stored.utxos)) else s.stored)
  }

  /** The block changed the registry but has no entry in the undo journal. */
  predicate Lost(journal: seq<UndoEntry>, history: set<Bytes32>, block: Bytes32) {
    block in history && EntriesOf(journal, block) == []
  }

  predicate Unrevertable(journal: seq<UndoEntry>, history: set<Bytes32>, removed: seq<Bytes32>) {
    exists b :: b in removed && Lost(journal, history, b)
  }

  /** The guard in terms of the journal's entries and the blocks of the stored events. */
  lemma UndoneByJournal(journal: seq<UndoEntry>, history: set<Bytes32>, removed: seq<Bytes32>)
    ensures Unrevertable(journal, history, removed)
            <==> exists b :: b in removed && b in history && forall e :: e in journal ==> e.block != b
  {
    forall b ensures EntriesOf(journal, b) == [] <==> forall e :: e in journal ==> e.block != b {
      EntriesAreOfBlock(journal, b);
    }
    if b :| b in removed && b in history && forall e :: e in journal ==> e.block != b {
      assert Lost(journal, history, b);
    }
  }

  lemma {:induction false} EntriesAreOfBlock(journal: seq<UndoEntry>, b: Bytes32)
    ensures EntriesOf(journal, b) == [] <==> forall e :: e in journal ==> e.block != b
  {
    if journal != [] {
      var init, last := journal[..|journal| - 1], journal[|journal| - 1];
      EntriesAreOfBlock(init, b);
      assert forall e :: e in journal <==> e in init || e == last;
    }
  }

  lemma SameSize<T>(a: set<T>, b: set<T>)
    requires a <= b && |a| == |b|
    ensures a == b
  {
    assert b == a + (b - a);
    assert |b| == |a| + |b - a|;
  }

  /** A batch after which the same outpoints are tracked changed none of their states. */
  lemma QuietBatch(t: Templates, r: Reg, keep: nat, batch: Batch)
    requires batch.removed == [] && NewIds(r, batch.accepted)
    requires var after := StepReg(t, r, keep, batch).utxos; |after| == |r.utxos| && after.Keys <= r.utxos.Keys
    ensures StepReg(t, r, keep, batch).utxos == r.utxos
  {
    hide NewIds;
    var after := StepReg(t, r, keep, batch).utxos;
    StatesAreFinal(t, r, batch.accepted, |batch.accepted|);
    SameSize(after.Keys, r.utxos.Keys);
  }

  lemma {:induction false} ShardsNameless(utxos: Utxos, shards: seq<(Outpoint, PriceState)>)
    requires Holds(NamePadded, utxos)
    ensures Holds(NamePadded, WithShards(utxos, shards))
  {
    hide Padded;
    if shards != [] {
      ShardsNameless(utxos, shards[..|shards| - 1]);
    }
  }

  /** Names stay padded names through one step. */
  lemma StepKeepsNames(t: Templates, r: Reg, keep: nat, batch: Batch)
    requires HonestLookup(t.host) && Everywhere(NamePadded, r)
    ensures Everywhere(NamePadded, StepReg(t, r, keep, batch))
  {
    hide HonestLookup, NamePadded, StepReg, Holds;
    var turns := [Turn(batch, 0, [])];
    NamesStayNames(t, r, keep, turns);
    assert turns[..0] == [];
    assert RunReg(t, r, keep, turns) == StepReg(t, RunReg(t, r, keep, turns[..0]), keep, batch);
  }

  class Service {
    const m: Manifest
    const keep: nat
    const db: Database
    var follower: Follower
    /** The live set has not been written since it was seeded. */
    var dirty: bool

    /** Names are padded names everywhere; a rewrite is due exactly while no checkpoint is stored, and
        otherwise the rows are the live set. */
    ghost predicate Valid()
      reads this, db, follower, follower.registry
    {
      Everywhere(NamePadded, follower.registry.State()) && ProperKeys(db.rows)
      && (dirty <==> db.checkpoint.None?) && follower.checkpoint.Some?
      && (!dirty ==> LoadUtxos(db.rows) == follower.registry.utxos)
    }

    ghost function Snap(): Snapshot
      reads this, db, follower, follower.registry
    {
      Snapshot(follower.registry.State(), Reg(LoadUtxos(db.rows), map[], LoadedJournal(db.journal)), db.history, dirty)
    }

    /** Start from what is stored, or from the manifest when nothing was checkpointed. */
    constructor (m: Manifest, keep: nat, db: Database, reg: Registry, at: Option<Bytes32>)
      requires ProperKeys(db.rows) && reg.utxos == LoadUtxos(db.rows) && Everywhere(NamePadded, reg.State())
      requires at == db.checkpoint
      modifies reg
      ensures this.m == m && this.keep == keep && this.db == db && follower.registry == reg && fresh(follower)
      ensures follower.finalityKeep == keep && Valid()
      ensures dirty == at.None?
      ensures follower.checkpoint == if at.Some? then at else Some(m.scanFrom)
      ensures reg.State() == if at.Some? then old(reg.State())
                             else old(reg.State()).(utxos := Seeded(m, old(reg.utxos)))
    {
      this.m, this.keep, this.db := m, keep, db;
      follower := new Follower.Resume(keep, reg, at);
      dirty := at.None?;
      new;
      if at.None? {
        SeedFollower();
      }
    }

    method SeedFollower()
      requires Everywhere(NamePadded, follower.registry.State())
      modifies follower, follower.registry
      ensures follower.registry.State()
          == old(follower.registry.State()).(utxos := Seeded(m, old(follower.registry.utxos)))
      ensures follower.checkpoint == Some(m.scanFrom)
      ensures Everywhere(NamePadded, follower.registry.State())
    {
      hide Padded;
      follower.Seed(m.scanFrom, m.genesis, m.gap);
      ShardsNameless(follower.registry.utxos, m.shards);
      follower.SeedShards(m.shards);
    }

    method CannotUndo(removed: seq<Bytes32>) returns (r: bool)
      ensures r == Unrevertable(follower.registry.journal, db.history, removed)
      ensures r <==> exists b :: b in removed && b in db.history
                                 && forall e :: e in follower.registry.journal ==> e.block != b
    {
      UndoneByJournal(follower.registry.journal, db.history, removed);
      for i := 0 to |removed|
        invariant !Unrevertable(follower.registry.journal, db.history, removed[..i])
      {
        var inJournal := follower.registry.JournalHasBlock(removed[i]);
        if !inJournal && removed[i] in db.history {
          assert removed[i] in removed && Lost(follower.registry.journal, db.history, removed[i]);
          return true;
        }
        assert forall b :: b in removed[..i + 1] <==> b in removed[..i] || b == removed[i];
      }
      assert removed[..|removed|] == removed;
      return false;
    }

    method StartOver()
      modifies this, db
      ensures db.rows == map[] && db.checkpoint == None && db.history == {}
      ensures fresh(follower) && fresh(follower.registry) && follower.finalityKeep == keep
      ensures follower.registry.State() == Reg(Seeded(m, map[]), map[], []) && follower.checkpoint == Some(m.scanFrom)
      ensures dirty && Valid() && Snap() == AtStart(m)
    {
      hide Padded, Seeded, DecodeEntries;
      db.Rewind();
      assert LoadUtxos(db.rows) == map[];
      var reg, at := db.Load();
      follower := new Follower.Resume(keep, reg, None);
      SeedFollower();
      dirty := true;
    }

    /** One turn on a fetched batch. Whatever was written, a full rewrite or the status alone, the
        rows load back to the tracked set at the stored checkpoint. */
    method Turn(batch: Batch, eventBlocks: seq<Bytes32>) returns (outcome: Outcome)
      requires Valid() && follower.finalityKeep == keep && HonestLookup(m.templates.host) && KeepsAscii(db.lossy)
      requires !Unrevertable(follower.registry.journal, db.history, batch.removed) ==>
                 NewIds(UndoBlocks(follower.registry.State(), batch.removed), batch.accepted)
      modifies this, db, follower, follower.registry
      ensures Valid() && follower.finalityKeep == keep
      ensures outcome == StartedOver <==> old(Unrevertable(follower.registry.journal, db.history, batch.removed))
      ensures outcome == StartedOver ==>
                follower.registry.State() == Reg(Seeded(m, map[]), map[], []) && follower.checkpoint == Some(m.scanFrom)
                && db.rows == map[] && db.checkpoint == None && fresh(follower) && fresh(follower.registry)
      ensures outcome != StartedOver ==>
                follower.registry.State() == StepReg(m.templates, old(follower.registry.State()), keep, batch)
                && follower == old(follower) && !dirty
      ensures outcome != StartedOver ==>
          LoadUtxos(db.rows) == follower.registry.utxos && db.checkpoint == follower.checkpoint
      ensures outcome == StatusOnly ==>
                db.journal == old(db.journal) && db.rows == old(db.rows) && db.history == old(db.history)
                && !old(dirty) && batch.removed == [] && eventBlocks == []
      ensures outcome == Persisted ==>
                db.journal == Some(EncodeJournal(follower.registry.journal))
                && forall b :: b in db.history <==> b in eventBlocks || (b in old(db.history) && b !in batch.removed)
      ensures Snap() == Turned(m, keep, old(Snap()), batch, eventBlocks)
    {
      hide StepReg, NewIds, Padded, HonestLookup, KeepsAscii, LoadUtxos, RowsOf, EncodeJournal, LoadedJournal,
          UndoBlocks, Seeded, Unrevertable;
      var stuck := CannotUndo(batch.removed);
      if stuck {
        StartOver();
        return StartedOver;
      }
      ghost var before := follower.registry.State();
      var keys, count := follower.registry.utxos.Keys, |follower.registry.utxos|;
      var stepped := follower.Step(m.templates, Some(batch));
      StepKeepsNames(m.templates, before, keep, batch);
      var utxos := follower.registry.utxos;
      var changed := dirty || batch.removed != [] || eventBlocks != [] || |utxos| != count
                     || exists op :: op in utxos && op !in keys;
      if changed {
        RowsLoadBack(db.lossy, utxos);
        db.Persist(follower.registry, batch.removed, eventBlocks, follower.checkpoint);
        dirty := false;
        return Persisted;
      } else {
        assert UndoBlocks(before, []) == before by { UndoNone(before); }
        QuietBatch(m.templates, before, keep, batch);
        db.SaveStatus(follower.checkpoint);
        return StatusOnly;
      }
    }
  }

  /** A new process on the same database. */
  method Restart(s: Service) returns (n: Service)
    requires s.Valid() && Everywhere(NamePadded, s.Snap().stored)
    ensures fresh(n) && fresh(n.follower) && fresh(n.follower.registry) && n.db == s.db && n.m == s.m
        && n.keep == s.keep
    ensures n.Valid() && n.follower.finalityKeep == n.keep
    ensures n.Snap() == Restarted(s.m, s.Snap())
  {
    hide StepReg, Padded, LoadUtxos, LoadedJournal, Seeded, NamePadded;
    var reg, at := s.db.Load();
    n := new Service(s.m, s.keep, s.db, reg, at);
  }

  lemma UndoNone(r: Reg)
    ensures UndoBlocks(r, []) == r
  {
  }
}
