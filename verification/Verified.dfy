/** What can ever be tracked: only states whose script a real output carries, under the covenant
    binding the node reports; and only names a valid name pads to. Both hold in the tracked set and
    in the undo journal, after any batches whatsoever. */
module Verified {
  import opened Base
  import opened States
  import opened Transition
  import opened Ingest
  import opened Undo
  import opened Chain
  import opened Claiming

  // ------------------------------------------------------------------ invariants over whole runs --

  type Property = (Outpoint, Tracked) -> bool

  ghost predicate Holds(ok: Property, u: Utxos) {
    forall op :: op in u ==> ok(op, u[op])
  }

  ghost predicate HoldsOfEntry(ok: Property, e: UndoEntry) {
    forall p :: p in e.removed ==> ok(p.0, p.1)
  }

  /** A property of every tracked state and of every state the journal could restore. */
  ghost predicate Everywhere(ok: Property, r: Reg) {
    Holds(ok, r.utxos) && forall e :: e in r.journal ==> HoldsOfEntry(ok, e)
  }

  /** A transaction that meets only good states tracks only good states. */
  ghost predicate KeptBy(t: Templates, ok: Property, tx: Tx) {
    forall u :: Holds(ok, u) ==> Holds(ok, ApplyUtxos(t, u, tx))
  }

  lemma {:induction false} ReplayEverywhere(t: Templates, ok: Property, r: Reg, txs: seq<Tx>)
    requires Everywhere(ok, r) && forall tx :: tx in txs ==> KeptBy(t, ok, tx)
    ensures Everywhere(ok, Replay(t, r, txs))
  {
    hide ApplyUtxos, AcceptedProfile, WithProfile, ProfileUndoOf, Added, Spends;
    if txs != [] {
      var init, last := txs[..|txs| - 1], txs[|txs| - 1];
      assert last in txs && forall tx :: tx in init ==> tx in txs;
      ReplayEverywhere(t, ok, r, init);
      var before := Replay(t, r, init);
      RemovedAre(t, before.utxos, last);
      ApplyFrame(t, before.utxos, last);
      assert HoldsOfEntry(ok, UndoOf(t, before, last));
    }
  }

  lemma {:induction false} RestoreAllHolds(ok: Property, u: Utxos, removed: seq<(Outpoint, Tracked)>)
    requires Holds(ok, u) && forall p :: p in removed ==> ok(p.0, p.1)
    ensures Holds(ok, RestoreAll(u, removed))
  {
    if removed != [] {
      RestoreAllHolds(ok, u, removed[..|removed| - 1]);
      assert removed[|removed| - 1] in removed;
    }
  }

  lemma {:induction false} RevertAllHolds(ok: Property, r: Reg, es: seq<UndoEntry>)
    requires Holds(ok, r.utxos) && forall e :: e in es ==> HoldsOfEntry(ok, e)
    ensures Holds(ok, RevertAll(r, es).utxos) && RevertAll(r, es).journal == r.journal
    decreases |es|
  {
    if es != [] {
      var last := es[|es| - 1];
      assert last in es;
      RestoreAllHolds(ok, r.utxos - Elements(last.added), last.removed);
      RevertAllHolds(ok, r.(utxos := RevertUtxos(r.utxos, last), profiles := RevertProfiles(r.profiles, last)),
                     es[..|es| - 1]);
    }
  }

  lemma {:induction false} UndoEverywhere(ok: Property, r: Reg, blocks: seq<Bytes32>)
    requires Everywhere(ok, r)
    ensures Everywhere(ok, UndoBlocks(r, blocks))
  {
    if blocks != [] {
      UndoEverywhere(ok, r, blocks[..|blocks| - 1]);
      var before, block := UndoBlocks(r, blocks[..|blocks| - 1]), blocks[|blocks| - 1];
      EntriesAreOld(before.journal, block);
      RevertAllHolds(ok, before.(journal := EntriesNotOf(before.journal, block)), EntriesOf(before.journal, block));
    }
  }

  function AllTxs(turns: seq<Turn>): seq<Tx> {
    if turns == [] then [] else AllTxs(turns[..|turns| - 1]) + turns[|turns| - 1].batch.accepted
  }

  /** Such a property survives any run of batches: reorgs in any order, of any depth. */
  lemma {:induction false} RunEverywhere(t: Templates, ok: Property, seed: Reg, keep: nat, turns: seq<Turn>)
    requires Everywhere(ok, seed) && forall tx :: tx in AllTxs(turns) ==> KeptBy(t, ok, tx)
    ensures Everywhere(ok, RunReg(t, seed, keep, turns))
  {
    hide Replay, UndoBlocks, KeptBy;
    if turns != [] {
      var init, last := turns[..|turns| - 1], turns[|turns| - 1];
      RunEverywhere(t, ok, seed, keep, init);
      var r := RunReg(t, seed, keep, init);
      UndoEverywhere(ok, r, last.batch.removed);
      ReplayEverywhere(t, ok, UndoBlocks(r, last.batch.removed), last.batch.accepted);
    }
  }

  // ------------------------------------------------------------------ what claims may look like --

  /** A claim names an input of the transaction and the covenant its kind of state lives under;
      offers are never claimed. */
  ghost predicate ProperClaim(t: Templates, tx: Tx, c: Claim) {
    match c
    case TakeOffer(b, _) => exists k: nat :: k < |tx.inputs| && b == RegistryBinding(t, k)
    case Continue(b, Shard(_)) => t.priceId.Some? && exists k: nat :: k < |tx.inputs| && b == Some((k, t.priceId.value))
    case Continue(_, Offer(_)) => false
    case Continue(b, _) => exists k: nat :: k < |tx.inputs| && b == RegistryBinding(t, k)
  }

  lemma {:induction false} ShardInputsAre(spends: seq<Spend>)
    ensures forall p :: p in ShardInputs(spends) ==> exists s :: s in spends && s.input == p.0
  {
    if spends != [] {
      ShardInputsAre(spends[..|spends| - 1]);
      assert spends[|spends| - 1] in spends;
    }
  }

  lemma {:induction false} UpdateClaimsProper(t: Templates, tx: Tx, shards: seq<(nat, PriceState)>, authority: Bytes32,
                                              prices: Prices)
    requires t.priceId.Some? && forall p :: p in shards ==> p.0 < |tx.inputs|
    ensures forall c :: c in UpdateClaims(t.priceId.value, shards, authority, prices) ==> ProperClaim(t, tx, c)
  {
    if shards != [] {
      UpdateClaimsProper(t, tx, shards[..|shards| - 1], authority, prices);
      assert shards[|shards| - 1] in shards;
    }
  }

  lemma {:induction false} PriceClaimsProper(t: Templates, tx: Tx, spends: seq<Spend>, n: nat)
    requires n <= |spends| && forall s :: s in spends ==> s.input < |tx.inputs|
    ensures forall c :: c in PriceClaims(t, spends, n) ==> ProperClaim(t, tx, c)
  {
    hide PriceArgs;
    if n > 0 && t.priceId.Some? {
      PriceClaimsProper(t, tx, spends, n - 1);
      var s := spends[n - 1];
      assert s in spends;
      ShardInputsAre(spends);
      if s.tracked.Shard? && s.entry == PriceUpdate && PriceArgs(s.sig).Some? {
        UpdateClaimsProper(t, tx, ShardInputs(spends), PriceArgs(s.sig).value.0, PriceArgs(s.sig).value.1);
      }
    }
  }

  lemma {:induction false} NameClaimsProper(t: Templates, tx: Tx, spends: seq<Spend>, n: nat)
    requires n <= |spends| && forall s :: s in spends ==> s.input < |tx.inputs|
    ensures forall c :: c in NameClaims(t, spends, n) ==> ProperClaim(t, tx, c)
  {
    hide NextName, RegistryBinding;
    if n > 0 {
      NameClaimsProper(t, tx, spends, n - 1);
      assert spends[n - 1] in spends;
    }
  }

  lemma ClaimsProper(t: Templates, u: Utxos, tx: Tx)
    ensures forall c :: c in Claims(t, Spends(t, u, tx)) ==> ProperClaim(t, tx, c)
  {
    hide MintedName, NameClaims, PriceClaims, SpendsUpTo;
    var spends := Spends(t, u, tx);
    PriceClaimsProper(t, tx, spends, |spends|);
    NameClaimsProper(t, tx, spends, |spends|);
  }

  // ------------------------------------------------------------------ every tracked state is on chain --

  /** Output `i` of `tx` really is `s`: its script is the state's, and its covenant is the one the
      state's contract lives under whenever the node reports bindings. */
  ghost predicate Carries(t: Templates, tx: Tx, i: nat, s: Tracked) {
    i < |tx.outputs| && tx.outputs[i].script == ScriptOf(t, s)
    && match s
       case Offer(_) => tx.outputs[i].covenant.None?
       case Shard(_) => t.priceId.Some? && BoundTo(tx, i, t.priceId.value)
       case _ => t.registryId.Some? ==> BoundTo(tx, i, t.registryId.value)
  }

  ghost predicate BoundTo(tx: Tx, i: nat, id: Bytes32)
    requires i < |tx.outputs|
  {
    BindingsKnown(tx) ==> exists k: nat :: k < |tx.inputs| && tx.outputs[i].covenant == Some(Authorizing((k, id)))
  }

  /** Seeded, or carried by an output of one of the transactions. */
  ghost predicate Vouched(t: Templates, seed: Utxos, txs: seq<Tx>, op: Outpoint, s: Tracked) {
    (op in seed && seed[op] == s) || exists tx :: tx in txs && tx.id == op.tx && Carries(t, tx, op.index, s)
  }

  lemma PlaceVouched(t: Templates, seed: Utxos, txs: seq<Tx>, tx: Tx, b: Binding, s: Tracked, w: Work)
    requires tx in txs && ProperClaim(t, tx, Continue(b, s))
    requires Holds((op, x) => Vouched(t, seed, txs, op, x), w.utxos)
    ensures Holds((op, x) => Vouched(t, seed, txs, op, x), Place(t, tx, b, s, w).utxos)
  {
    hide ScriptOf, BindingsKnown;
    var found := FirstFree(tx, ScriptOf(t, s), b, w.used, 0);
    if found.Some? {
      assert Carries(t, tx, found.value, s);
      assert Vouched(t, seed, txs, Outpoint(tx.id, found.value), s);
    }
  }

  lemma {:induction false} ClaimsVouched(t: Templates, seed: Utxos, txs: seq<Tx>, tx: Tx, claims: seq<Claim>, w: Work)
    requires tx in txs && forall c :: c in claims ==> ProperClaim(t, tx, c)
    requires Holds((op, x) => Vouched(t, seed, txs, op, x), w.utxos)
    ensures Holds((op, x) => Vouched(t, seed, txs, op, x), RunClaims(t, tx, claims, w).utxos)
  {
    hide Place, Vouched;
    if claims != [] {
      var init, last := claims[..|claims| - 1], claims[|claims| - 1];
      assert last in claims;
      ClaimsVouched(t, seed, txs, tx, init, w);
      var mid := RunClaims(t, tx, init, w);
      match last {
        case Continue(b, s) => PlaceVouched(t, seed, txs, tx, b, s, mid);
        case TakeOffer(b, o) =>
          var n := t.host.nameByKey(mid.utxos, o.key);
          if n.Some? {
            PlaceVouched(t, seed, txs, tx, b, Name(Transfer(n.value, o.buyer)), mid);
          }
      }
    }
  }

  lemma ApplyVouched(t: Templates, seed: Utxos, txs: seq<Tx>, tx: Tx)
    requires tx in txs
    ensures KeptBy(t, (op, s) => Vouched(t, seed, txs, op, s), tx)
  {
    hide Claims, RunClaims, Spends, NewOffer, ScriptOf;
    var ok: Property := (op, s) => Vouched(t, seed, txs, op, s);
    forall u | Holds(ok, u) ensures Holds(ok, ApplyUtxos(t, u, tx)) {
      ClaimsProper(t, u, tx);
      var offer := NewOffer(t, tx);
      if offer.Some? {
        assert Carries(t, tx, offer.value.0, Offer(offer.value.1));
      }
      ClaimsVouched(t, seed, txs, tx, Claims(t, Spends(t, u, tx)), Work([], WithOffer(t, u, tx)));
    }
  }

  /** Nothing unverified is ever tracked, nor kept for restoring: after any run of batches every
      state was seeded or is carried by the output of an accepted transaction at its outpoint. */
  lemma OnlyVerifiedIsTracked(t: Templates, seed: Reg, keep: nat, turns: seq<Turn>)
    requires seed.journal == []
    ensures Everywhere((op, s) => Vouched(t, seed.utxos, AllTxs(turns), op, s), RunReg(t, seed, keep, turns))
  {
    var ok: Property := (op, s) => Vouched(t, seed.utxos, AllTxs(turns), op, s);
    forall tx | tx in AllTxs(turns) ensures KeptBy(t, ok, tx) {
      ApplyVouched(t, seed.utxos, AllTxs(turns), tx);
    }
    RunEverywhere(t, ok, seed, keep, turns);
  }

  /** No output is claimed by two spends. */
  lemma {:induction false} NothingClaimedTwice(t: Templates, tx: Tx, claims: seq<Claim>, w: Work)
    requires Distinct(w.used)
    ensures Distinct(RunClaims(t, tx, claims, w).used)
  {
    hide ScriptOf, Matches;
    if claims != [] {
      NothingClaimedTwice(t, tx, claims[..|claims| - 1], w);
    }
  }

  // ------------------------------------------------------------------ names stay names --

  /** A fact about a name state's key and name field. */
  type NameFact = (Bytes32, Bytes32) -> bool

  /** The fact holds of a name as it is registered or imported. */
  ghost predicate HoldsOfNew(h: Host, fact: NameFact) {
    forall name :: IsValidName(name) ==> fact(h.nameKey(name), PadName(name))
  }

  predicate NameHas(fact: NameFact, s: Tracked) {
    s.Name? ==> fact(s.name.key, s.name.name)
  }

  /** A lookup by key returns a tracked name. */
  ghost predicate HonestLookup(h: Host) {
    forall u, key :: h.nameByKey(u, key).Some? ==> exists op :: op in u && u[op] == Name(h.nameByKey(u, key).value)
  }

  predicate ClaimHas(fact: NameFact, c: Claim) {
    c.Continue? ==> NameHas(fact, c.state)
  }

  lemma {:induction false} NameClaimsHave(t: Templates, fact: NameFact, spends: seq<Spend>, n: nat)
    requires n <= |spends| && forall s :: s in spends ==> NameHas(fact, s.tracked)
    ensures forall c :: c in NameClaims(t, spends, n) ==> ClaimHas(fact, c)
  {
    if n > 0 {
      NameClaimsHave(t, fact, spends, n - 1);
      assert spends[n - 1] in spends;
    }
  }

  lemma {:induction false} PriceClaimsHave(t: Templates, fact: NameFact, spends: seq<Spend>, n: nat)
    requires n <= |spends|
    ensures forall c :: c in PriceClaims(t, spends, n) ==> ClaimHas(fact, c)
  {
    hide PriceArgs;
    if n > 0 && t.priceId.Some? {
      PriceClaimsHave(t, fact, spends, n - 1);
      var s := spends[n - 1];
      if s.tracked.Shard? && s.entry == PriceUpdate && PriceArgs(s.sig).Some? {
        UpdateClaimsHave(fact, t.priceId.value, ShardInputs(spends), PriceArgs(s.sig).value.0,
                         PriceArgs(s.sig).value.1);
      }
    }
  }

  lemma {:induction false} UpdateClaimsHave(fact: NameFact, id: Bytes32, shards: seq<(nat, PriceState)>,
                                             authority: Bytes32, prices: Prices)
    ensures forall c :: c in UpdateClaims(id, shards, authority, prices) ==> ClaimHas(fact, c)
  {
    if shards != [] {
      UpdateClaimsHave(fact, id, shards[..|shards| - 1], authority, prices);
    }
  }

  lemma MintHas(t: Templates, fact: NameFact, s: Spend)
    requires HoldsOfNew(t.host, fact) && MintedName(t, s).Some?
    ensures NameHas(fact, Name(MintedName(t, s).value))
  {
    assert IsValidName(ArgBytes(s.sig, 0).value);
  }

  lemma ClaimsHave(t: Templates, fact: NameFact, spends: seq<Spend>)
    requires HoldsOfNew(t.host, fact) && forall s :: s in spends ==> NameHas(fact, s.tracked)
    ensures forall c :: c in Claims(t, spends) ==> ClaimHas(fact, c)
  {
    hide HoldsOfNew, MintedName, NameClaims, PriceClaims;
    PriceClaimsHave(t, fact, spends, |spends|);
    NameClaimsHave(t, fact, spends, |spends|);
    forall e: Entry ensures forall c :: c in MintClaims(t, spends, e) ==> ClaimHas(fact, c) {
      var s := FirstWith(spends, e);
      if s.Some? && s.value.tracked.Gap? && MintedName(t, s.value).Some? {
        MintHas(t, fact, s.value);
      }
    }
  }

  ghost predicate AllHave(fact: NameFact, u: Utxos) {
    forall op :: op in u ==> NameHas(fact, u[op])
  }

  lemma {:induction false} RunClaimsHave(t: Templates, fact: NameFact, tx: Tx, claims: seq<Claim>, w: Work)
    requires HonestLookup(t.host) && AllHave(fact, w.utxos) && forall c :: c in claims ==> ClaimHas(fact, c)
    ensures AllHave(fact, RunClaims(t, tx, claims, w).utxos)
  {
    hide FirstFree, ScriptOf;
    if claims != [] {
      assert claims[|claims| - 1] in claims;
      RunClaimsHave(t, fact, tx, claims[..|claims| - 1], w);
    }
  }

  lemma ApplyKeepsFact(t: Templates, fact: NameFact, u: Utxos, tx: Tx)
    requires HonestLookup(t.host) && HoldsOfNew(t.host, fact) && AllHave(fact, u)
    ensures AllHave(fact, ApplyUtxos(t, u, tx))
  {
    hide HonestLookup, HoldsOfNew, Claims, RunClaims, SpendsUpTo;
    ClaimsHave(t, fact, Spends(t, u, tx));
    RunClaimsHave(t, fact, tx, Claims(t, Spends(t, u, tx)), Work([], WithOffer(t, u, tx)));
  }

  /** What holds of every new name's key and text holds of every tracked name, and of every name the
      journal could restore, in every state any run of batches reaches. */
  lemma NamesKeepFact(t: Templates, fact: NameFact, seed: Reg, keep: nat, turns: seq<Turn>)
    requires HonestLookup(t.host) && HoldsOfNew(t.host, fact) && Everywhere((op, s) => NameHas(fact, s), seed)
    ensures Everywhere((op, s) => NameHas(fact, s), RunReg(t, seed, keep, turns))
  {
    hide HonestLookup, HoldsOfNew;
    var ok: Property := (op, s) => NameHas(fact, s);
    forall tx: Tx ensures KeptBy(t, ok, tx) {
      forall u | Holds(ok, u) ensures Holds(ok, ApplyUtxos(t, u, tx)) {
        ApplyKeepsFact(t, fact, u, tx);
      }
    }
    RunEverywhere(t, ok, seed, keep, turns);
  }

  /** The name field is some valid name, padded. */
  ghost predicate Padded(field: Bytes32) {
    exists name :: IsValidName(name) && field == PadName(name)
  }

  /** Letters a to z, digits and hyphens, one to 32 of them and no hyphen at either end, then zeros. */
  ghost predicate Spelled(field: Bytes32) {
    exists n :: SpelledTo(field, n)
  }

  ghost predicate SpelledTo(field: Bytes32, n: nat) {
    0 < n <= 32 && field[0] != 45 && field[n - 1] != 45
    && forall i :: 0 <= i < 32 ==>
         if i < n then 97 <= field[i] <= 122 || 48 <= field[i] <= 57 || field[i] == 45 else field[i] == 0
  }

  lemma PaddedIsSpelled(field: Bytes32)
    ensures Padded(field) <==> Spelled(field)
  {
    if Padded(field) {
      var name :| IsValidName(name) && field == PadName(name);
      assert forall i :: 0 <= i < |name| ==> field[i] == name[i] && name[i] in name;
      assert SpelledTo(field, |name|);
    }
    if n: nat :| SpelledTo(field, n) {
      assert IsValidName(field[..n]) && field == PadName(field[..n]);
    }
  }

  ghost predicate NamePadded(op: Outpoint, s: Tracked) {
    s.Name? ==> Padded(s.name.name)
  }

  /** A name is kept under the key of its own text. */
  predicate Keyed(h: Host, op: Outpoint, s: Tracked) {
    s.Name? ==> s.name.key == h.nameKey(TrimName(s.name.name))
  }

  /** In every state a run reaches, the journal included, each name field is a padded valid name. */
  lemma NamesStayNames(t: Templates, seed: Reg, keep: nat, turns: seq<Turn>)
    requires HonestLookup(t.host) && Everywhere(NamePadded, seed)
    ensures Everywhere(NamePadded, RunReg(t, seed, keep, turns))
  {
    hide RunReg, HonestLookup, Padded;
    var fact: NameFact := (key: Bytes32, field: Bytes32) => Padded(field);
    assert HoldsOfNew(t.host, fact) by {
      forall name | IsValidName(name) ensures Padded(PadName(name)) {
        NewIsPadded(name);
      }
    }
    NamesKeepFact(t, fact, seed, keep, turns);
  }

  lemma NewIsPadded(name: Bytes)
    requires IsValidName(name)
    ensures Padded(PadName(name))
  {
  }

  /** In every state a run reaches, the journal included, each name is kept under its text's key. */
  lemma NamesStayKeyed(t: Templates, seed: Reg, keep: nat, turns: seq<Turn>)
    requires HonestLookup(t.host) && Everywhere((op, s) => Keyed(t.host, op, s), seed)
    ensures Everywhere((op, s) => Keyed(t.host, op, s), RunReg(t, seed, keep, turns))
  {
    hide RunReg, HonestLookup;
    var fact: NameFact := (key: Bytes32, field: Bytes32) => key == t.host.nameKey(TrimName(field));
    assert HoldsOfNew(t.host, fact) by {
      forall name | IsValidName(name) ensures TrimName(PadName(name)) == name {
        PaddingRoundTrip(name);
      }
    }
    NamesKeepFact(t, fact, seed, keep, turns);
  }
}
