/** The shape of the registry: live gaps form one chain from the genesis gap's lower end to its
    upper end, meeting exactly at the live names' keys. Kept by every transaction the contracts
    allow, so it holds in every state a follower reaches. */
module Tiling {
  import opened Base
  import opened States
  import opened Transition
  import opened Ingest
  import opened Undo
  import opened Claiming

  // ------------------------------------------------------------------ the invariant --

  /** Where the chain runs: its boundaries in order, the gap between each two neighbours and the
      name at each inner boundary. */
  datatype Links = Links(bounds: seq<Bytes32>, gapAt: seq<Outpoint>, nameAt: seq<Outpoint>)

  ghost predicate Sorted(keys: seq<Bytes32>) {
    forall i, j :: 0 <= i < j < |keys| ==> Less(keys[i], keys[j])
  }

  function Between(bounds: seq<Bytes32>, i: nat): GapState
    requires i + 1 < |bounds|
  {
    GapState(bounds[i], bounds[i + 1])
  }

  function Inner(bounds: seq<Bytes32>, i: nat): Bytes32
    requires i + 1 < |bounds|
  {
    bounds[i + 1]
  }

  /** The gaps of `u` are exactly those between neighbouring bounds. */
  ghost predicate GapsAlong(u: Utxos, bounds: seq<Bytes32>, gapAt: seq<Outpoint>) {
    |bounds| == |gapAt| + 1
    && (forall i :: 0 <= i < |gapAt| ==> gapAt[i] in u && u[gapAt[i]] == Gap(Between(bounds, i)))
    && (forall op :: op in u && u[op].Gap? ==> op in gapAt)
  }

  /** The names of `u` are exactly those at the inner bounds. */
  ghost predicate NamesAlong(u: Utxos, bounds: seq<Bytes32>, nameAt: seq<Outpoint>) {
    |bounds| == |nameAt| + 2
    && (forall i :: 0 <= i < |nameAt| ==>
        nameAt[i] in u && u[nameAt[i]].Name? && u[nameAt[i]].name.key == Inner(bounds, i))
    && (forall op :: op in u && u[op].Name? ==> op in nameAt)
  }

  ghost predicate Tiles(u: Utxos, c: Links, lo: Bytes32, hi: Bytes32) {
    |c.bounds| >= 2 && c.bounds[0] == lo && c.bounds[|c.bounds| - 1] == hi && Sorted(c.bounds)
    && GapsAlong(u, c.bounds, c.gapAt) && NamesAlong(u, c.bounds, c.nameAt)
  }

  ghost predicate Tiled(u: Utxos, lo: Bytes32, hi: Bytes32) {
    exists c :: Tiles(u, c, lo, hi)
  }

  // ------------------------------------------------------------------ what the chain enforces --

  /** Manifest tags name entries of their own contract, and a price covenant implies a registry one. */
  ghost predicate ManifestOk(t: Templates) {
    (forall tag :: tag in t.tags ==> tag.2.Contract() == tag.0) && (t.priceId.Some? ==> t.registryId.Some?)
  }

  predicate IsRegistry(s: Spend) {
    s.tracked.Gap? || s.tracked.Name?
  }

  /** A register or import: the only gap or name spent, the minted key strictly inside the gap. */
  ghost predicate Splits(t: Templates, spends: seq<Spend>, s: Spend) {
    s in spends && s.tracked.Gap? && (s.entry == GapRegister || s.entry == GapImport) && MintedName(t, s).Some?
    && Less(s.tracked.gap.lo, MintedName(t, s).value.key) && Less(MintedName(t, s).value.key, s.tracked.gap.hi)
    && forall o :: o in spends && IsRegistry(o) ==> o == s
  }

  /** An exit: a released or reclaimed name with the two gaps that meet at its key. */
  ghost predicate Merges(spends: seq<Spend>, lo: Spend, name: Spend, hi: Spend) {
    lo in spends && name in spends && hi in spends
    && lo.tracked.Gap? && lo.entry == GapMerge && hi.tracked.Gap? && hi.entry == GapAbsorbed
    && name.tracked.Name? && (name.entry == NameRelease || name.entry == NameReclaim)
    && lo.tracked.gap.hi == name.tracked.name.key == hi.tracked.gap.lo
    && forall o :: o in spends && IsRegistry(o) ==> o == lo || o == name || o == hi
  }

  /** Only names are spent, each to be continued. */
  ghost predicate Continues(t: Templates, spends: seq<Spend>) {
    forall o :: o in spends && IsRegistry(o) ==> o.tracked.Name? && NextName(t, o).Some?
  }

  /** What the covenant scripts and consensus check about a transaction that spends registry
      outputs: no output is spent twice, the spends have one of the three shapes, an accepted offer
      comes with the name's own transfer, and every continuation owed has an output of its own. */
  ghost predicate ContractValid(t: Templates, u: Utxos, tx: Tx) {
    var spends := Spends(t, u, tx);
    (forall a, b :: a in spends && b in spends && a.op == b.op ==> a == b)
    && (forall o :: o in spends && o.tracked.Offer? && o.entry == OfferAccept ==> Has(spends, NameTransfer))
    && ((exists s :: Splits(t, spends, s)) || (exists lo, name, hi :: Merges(spends, lo, name, hi))
        || Continues(t, spends))
    && exists slots :: Owed(t, tx, Claims(t, spends), slots)
  }

  // ------------------------------------------------------------------ claims of a valid transaction --

  lemma {:induction false} TagContract(tags: seq<(Contract, Bytes, Entry)>, contract: Contract, tag: Bytes)
    requires forall x :: x in tags ==> x.2.Contract() == x.0
    ensures FindTag(tags, contract, tag).Some? ==> FindTag(tags, contract, tag).value.Contract() == contract
  {
    if tags != [] {
      assert tags[0] in tags;
      TagContract(tags[1..], contract, tag);
    }
  }

  /** An entry is always one of the spent contract's own. */
  lemma {:induction false} SpendEntries(t: Templates, u: Utxos, tx: Tx, n: nat)
    requires ManifestOk(t) && n <= |tx.inputs|
    ensures forall s :: s in SpendsUpTo(t, u, tx, n) ==> s.entry.Contract() == s.tracked.Contract()
  {
    if n > 0 {
      SpendEntries(t, u, tx, n - 1);
      var s := SpendAt(t, u, tx, n - 1);
      if s.Some? {
        TagContract(t.tags, s.value.tracked.Contract(), s.value.sig.tag);
      }
    }
  }

  lemma EntriesMatch(t: Templates, u: Utxos, tx: Tx)
    requires ManifestOk(t)
    ensures forall s :: s in Spends(t, u, tx) ==> s.entry.Contract() == s.tracked.Contract()
  {
    SpendEntries(t, u, tx, |tx.inputs|);
  }

  lemma {:induction false} UpdateClaimsAreShards(id: Bytes32, shards: seq<(nat, PriceState)>, authority: Bytes32,
                                                 prices: Prices)
    ensures forall c :: c in UpdateClaims(id, shards, authority, prices) ==>
        c.Continue? && c.state.Shard? && c.binding.Some?
  {
    if shards != [] {
      UpdateClaimsAreShards(id, shards[..|shards| - 1], authority, prices);
    }
  }

  lemma {:induction false} PriceClaimsAreShards(t: Templates, spends: seq<Spend>, n: nat)
    requires n <= |spends|
    ensures forall c :: c in PriceClaims(t, spends, n) ==> c.Continue? && c.state.Shard? && c.binding.Some?
    ensures PriceClaims(t, spends, n) != [] ==> t.priceId.Some?
  {
    if n > 0 && t.priceId.Some? {
      PriceClaimsAreShards(t, spends, n - 1);
      var s := spends[n - 1];
      if s.tracked.Shard? && s.entry == PriceUpdate && PriceArgs(s.sig).Some? {
        UpdateClaimsAreShards(t.priceId.value, ShardInputs(spends), PriceArgs(s.sig).value.0, PriceArgs(s.sig).value.1);
      }
    }
  }

  function NameSpends(spends: seq<Spend>, n: nat): seq<Spend>
    requires n <= |spends|
  {
    if n == 0 then []
    else NameSpends(spends, n - 1) + if spends[n - 1].tracked.Name? then [spends[n - 1]] else []
  }

  /** `s` is one of the first `n` spends, and of a name. */
  predicate NameAmong(spends: seq<Spend>, n: nat, s: Spend)
    requires n <= |spends|
  {
    s.tracked.Name? && exists k :: 0 <= k < n && spends[k] == s
  }

  lemma {:induction false} NameSpendsAre(spends: seq<Spend>, n: nat)
    requires n <= |spends|
    ensures forall s :: s in NameSpends(spends, n) <==> NameAmong(spends, n, s)
  {
    if n > 0 {
      NameSpendsAre(spends, n - 1);
      forall s ensures NameAmong(spends, n, s)
          <==> NameAmong(spends, n - 1, s) || (s.tracked.Name? && s == spends[n - 1]) {
      }
    }
  }

  function Continuation(t: Templates, s: Spend): Claim
    requires s.tracked.Name? && NextName(t, s).Some?
  {
    Continue(RegistryBinding(t, s.input), Name(NextName(t, s).value))
  }

  /** One continuation per spent name, in the order of the inputs. */
  lemma {:induction false} NameClaimsAre(t: Templates, spends: seq<Spend>, n: nat)
    requires n <= |spends| && Continues(t, spends)
    requires forall o :: o in spends && o.tracked.Offer? && o.entry == OfferAccept ==> Has(spends, NameTransfer)
    ensures var names, claims := NameSpends(spends, n), NameClaims(t, spends, n);
            |claims| == |names| && forall k :: 0 <= k < |names| ==>
              names[k] in spends && names[k].tracked.Name? && NextName(t, names[k]).Some?
              && claims[k] == Continuation(t, names[k])
  {
    hide NextName;
    if n > 0 {
      NameClaimsAre(t, spends, n - 1);
      assert spends[n - 1] in spends;
    }
  }

  /** Spends come in the order of their inputs, one per input. */
  ghost predicate Increasing(spends: seq<Spend>) {
    forall i, j :: 0 <= i < j < |spends| ==> spends[i].input < spends[j].input
  }

  lemma IncreasingAppend(spends: seq<Spend>, s: Spend)
    requires Increasing(spends) && forall o :: o in spends ==> o.input < s.input
    ensures Increasing(spends + [s])
  {
    forall i | 0 <= i < |spends| ensures spends[i].input < s.input {
      assert spends[i] in spends;
    }
  }

  lemma {:induction false} SpendsIncrease(t: Templates, u: Utxos, tx: Tx, n: nat)
    requires n <= |tx.inputs|
    ensures Increasing(SpendsUpTo(t, u, tx, n))
  {
    hide Increasing, EntryOf;
    if n == 0 {
      NoneIncrease();
    } else {
      SpendsIncrease(t, u, tx, n - 1);
      var s := SpendAt(t, u, tx, n - 1);
      if s.Some? {
        IncreasingAppend(SpendsUpTo(t, u, tx, n - 1), s.value);
      }
    }
  }

  lemma NamesComeBefore(spends: seq<Spend>, n: nat)
    requires n < |spends| && Increasing(spends)
    ensures forall o :: o in NameSpends(spends, n) ==> o.input < spends[n].input
  {
    hide NameSpends;
    NameSpendsAre(spends, n);
  }

  lemma {:induction false} NameSpendsIncrease(spends: seq<Spend>, n: nat)
    requires n <= |spends| && Increasing(spends)
    ensures Increasing(NameSpends(spends, n))
  {
    hide Increasing;
    if n == 0 {
      NoneIncrease();
    } else {
      NameSpendsIncrease(spends, n - 1);
      NamesComeBefore(spends, n - 1);
      if spends[n - 1].tracked.Name? {
        IncreasingAppend(NameSpends(spends, n - 1), spends[n - 1]);
      } else {
        assert NameSpends(spends, n) == NameSpends(spends, n - 1);
      }
    }
  }

  lemma NoneIncrease()
    ensures Increasing([])
  {
  }

  /** The claims besides the price shards': a split's three, a merge's one, or the names'. */
  lemma SplitShape(t: Templates, u: Utxos, tx: Tx, s: Spend)
    requires ManifestOk(t) && Splits(t, Spends(t, u, tx), s)
    ensures BodyClaims(t, Spends(t, u, tx)) == SplitClaims(t, s, MintedName(t, s).value)
  {
    hide MintedName, NameClaims, Spends, Less;
    EntriesMatch(t, u, tx);
    var spends := Spends(t, u, tx);
    assert forall o :: o in spends && o.entry.Contract() == GapContract ==> o == s;
    assert FirstWith(spends, s.entry) == Some(s);
  }

  lemma MergeShape(t: Templates, u: Utxos, tx: Tx, lo: Spend, name: Spend, hi: Spend)
    requires Merges(Spends(t, u, tx), lo, name, hi)
    ensures BodyClaims(t, Spends(t, u, tx))
        == [Continue(RegistryBinding(t, lo.input), Gap(MergeGaps(lo.tracked.gap, hi.tracked.gap)))]
  {
    hide MintClaims, NameClaims, Spends;
    FirstGapFound(Spends(t, u, tx), lo);
    FirstGapFound(Spends(t, u, tx), hi);
  }

  lemma ContinueShape(t: Templates, u: Utxos, tx: Tx)
    requires ManifestOk(t) && Continues(t, Spends(t, u, tx))
    ensures BodyClaims(t, Spends(t, u, tx)) == NameClaims(t, Spends(t, u, tx), |Spends(t, u, tx)|)
  {
    hide MintClaims, MergeClaims, NameClaims, NextName, Spends;
    EntriesMatch(t, u, tx);
  }

  lemma {:induction false} FirstGapFound(spends: seq<Spend>, s: Spend)
    requires s in spends && s.tracked.Gap?
    requires forall o :: o in spends && o.tracked.Gap? && o.entry == s.entry ==> o == s
    ensures FirstGapWith(spends, s.entry) == Some(s)
  {
    if spends[0] != s {
      assert forall o :: o in spends[1..] ==> o in spends;
      FirstGapFound(spends[1..], s);
    }
  }

  /** What a valid transaction leaves: unspent outpoints as they were, each claim's state at an
      output of its own, and besides these at most a new offer. */
  ghost predicate Effect(u: Utxos, id: Bytes32, spent: set<Outpoint>, claims: seq<Claim>, placed: seq<nat>,
                         after: Utxos)
    requires |placed| == |claims| && forall k :: 0 <= k < |placed| ==> placed[k] < 0x1_0000_0000 && claims[k].Continue?
  {
    Distinct(placed)
    && (forall op :: op in u && op !in spent ==> op in after && after[op] == u[op])
    && (forall op :: op in spent ==> op !in after)
    && (forall k :: 0 <= k < |placed| ==>
          Outpoint(id, placed[k]) in after && after[Outpoint(id, placed[k])] == claims[k].state)
    && (forall op :: op in after && op !in u && !after[op].Offer? ==> op.tx == id && op.index in placed)
  }

  lemma ValidEffect(t: Templates, u: Utxos, tx: Tx) returns (placed: seq<nat>)
    requires ManifestOk(t) && ContractValid(t, u, tx) && Fresh(u, tx.id)
    ensures var spends := Spends(t, u, tx);
            Owed(t, tx, Claims(t, spends), placed)
            && Effect(u, tx.id, SpentOutpoints(spends), Claims(t, spends), placed, ApplyUtxos(t, u, tx))
  {
    hide RunClaims, Claims, Spends, Splits, Merges, Continues, NewOffer, Matches, ScriptOf, ManifestOk, Fresh,
        WithOffer,
         SpentOutpoints, Effect, ApplyUtxos;
    var spends := Spends(t, u, tx);
    var claims := Claims(t, spends);
    var slots :| Owed(t, tx, claims, slots);
    ClaimsUniform(t, u, tx);
    var start := Work([], WithOffer(t, u, tx));
    placed := GreedyClaims(t, tx, claims, slots, start);
    ApplyFrame(t, u, tx);
    PlacedEffect(t, u, tx, claims, placed);
  }

  lemma PlacedEffect(t: Templates, u: Utxos, tx: Tx, claims: seq<Claim>, placed: seq<nat>)
    requires Fresh(u, tx.id) && claims == Claims(t, Spends(t, u, tx)) && Owed(t, tx, claims, placed)
    requires SpentOutpoints(Spends(t, u, tx)) <= u.Keys
    requires Placed(tx.id, claims, placed, WithOffer(t, u, tx),
                    RunClaims(t, tx, claims, Work([], WithOffer(t, u, tx))).utxos)
    ensures Effect(u, tx.id, SpentOutpoints(Spends(t, u, tx)), claims, placed, ApplyUtxos(t, u, tx))
  {
    hide RunClaims, Claims, Spends, NewOffer, Matches, ScriptOf, SpentOutpoints;
  }

  lemma ClaimsUniform(t: Templates, u: Utxos, tx: Tx)
    requires ManifestOk(t) && ContractValid(t, u, tx)
    ensures Uniform(Claims(t, Spends(t, u, tx)))
  {
    hide MintedName, NextName, NameClaims, PriceClaims, BodyClaims, Owed, Spends, Splits, Merges, Continues;
    var spends := Spends(t, u, tx);
    var prices, body := PriceClaims(t, spends, |spends|), BodyClaims(t, spends);
    PriceClaimsAreShards(t, spends, |spends|);
    BodyBound(t, u, tx);
    var all: seq<Claim> := prices + body;
    forall k | 0 <= k < |all| ensures all[k].binding.Some? <==> t.registryId.Some? {
      assert all[k] in prices || all[k] in body;
    }
  }

  lemma BodyBound(t: Templates, u: Utxos, tx: Tx)
    requires ManifestOk(t) && ContractValid(t, u, tx)
    ensures forall c :: c in BodyClaims(t, Spends(t, u, tx)) ==> (c.binding.Some? <==> t.registryId.Some?)
  {
    hide MintedName, NextName, NameClaims, BodyClaims, Owed, Spends, ManifestOk;
    var spends := Spends(t, u, tx);
    if s :| Splits(t, spends, s) {
      SplitShape(t, u, tx, s);
    } else if lo, name, hi :| Merges(spends, lo, name, hi) {
      MergeShape(t, u, tx, lo, name, hi);
    } else {
      ContinueShape(t, u, tx);
      NameClaimsAre(t, spends, |spends|);
    }
  }

  // ------------------------------------------------------------------ chains of links --

  /** From `u` to `v` the gaps and names at `gone` are consumed, exactly those at `made` are new. */
  ghost predicate Rewires(u: Utxos, v: Utxos, gone: set<Outpoint>, made: set<Outpoint>) {
    (forall op :: op in u && (u[op].Gap? || u[op].Name?) && op !in gone ==> op in v && v[op] == u[op])
    && (forall op :: op in v && op in u ==> v[op] == u[op])
    && (forall op :: op in v && (v[op].Gap? || v[op].Name?) && op !in u ==> op in made)
    && (forall op :: op in gone ==> op !in v)
    && (forall op :: op in made ==> op !in u)
  }

  lemma SortedInsert(keys: seq<Bytes32>, i: nat, key: Bytes32)
    requires Sorted(keys) && i + 1 < |keys| && Less(keys[i], key) && Less(key, keys[i + 1])
    ensures Sorted(keys[..i + 1] + [key] + keys[i + 1..])
  {
    hide Less;
    forall j | 0 <= j <= i ensures Less(keys[j], key) {
      if j < i {
        LessTransitive(keys[j], keys[i], key);
      }
    }
    forall j | i + 1 <= j < |keys| ensures Less(key, keys[j]) {
      if i + 1 < j {
        LessTransitive(key, keys[i + 1], keys[j]);
      }
    }
  }

  lemma SortedRemove(keys: seq<Bytes32>, i: nat)
    requires Sorted(keys) && i + 2 < |keys|
    ensures Sorted(keys[..i + 1] + keys[i + 2..])
  {
    hide Less;
  }

  lemma SplitGapsAlong(u: Utxos, v: Utxos, bounds: seq<Bytes32>, gapAt: seq<Outpoint>, i: nat, key: Bytes32,
                       left: Outpoint, right: Outpoint, name: Outpoint)
    requires Sorted(bounds) && GapsAlong(u, bounds, gapAt) && i < |gapAt|
    requires Rewires(u, v, {gapAt[i]}, {left, right, name})
    requires left in v && v[left] == Gap(GapState(bounds[i], key))
    requires right in v && v[right] == Gap(GapState(key, bounds[i + 1]))
    requires name in v && v[name].Name?
    ensures GapsAlong(v, bounds[..i + 1] + [key] + bounds[i + 1..], gapAt[..i] + [left, right] + gapAt[i + 1..])
  {
    hide Less;
    var gaps := gapAt[..i] + [left, right] + gapAt[i + 1..];
    var keys := bounds[..i + 1] + [key] + bounds[i + 1..];
    GapsDiffer(u, bounds, gapAt);
    forall j | 0 <= j < |gaps| ensures gaps[j] in v && v[gaps[j]] == Gap(Between(keys, j)) {
      if j < i {
        assert gaps[j] == gapAt[j] && gapAt[j] in u && Between(keys, j) == Between(bounds, j);
      } else if j > i + 1 {
        assert gaps[j] == gapAt[j - 1] && gapAt[j - 1] in u && Between(keys, j) == Between(bounds, j - 1);
      }
    }
    forall op | op in v && v[op].Gap? ensures op in gaps {
      if op in u {
        var j :| 0 <= j < |gapAt| && gapAt[j] == op;
        assert j < i ==> gaps[j] == op;
        assert j > i ==> gaps[j + 1] == op;
      } else {
        assert gaps[i] == left && gaps[i + 1] == right;
      }
    }
  }

  lemma SplitNamesAlong(u: Utxos, v: Utxos, bounds: seq<Bytes32>, nameAt: seq<Outpoint>, i: nat, key: Bytes32,
                        gap: Outpoint, left: Outpoint, right: Outpoint, name: Outpoint)
    requires NamesAlong(u, bounds, nameAt) && i <= |nameAt| && gap in u && u[gap].Gap?
    requires Rewires(u, v, {gap}, {left, right, name})
    requires left in v && v[left].Gap? && right in v && v[right].Gap?
    requires name in v && v[name].Name? && v[name].name.key == key
    ensures NamesAlong(v, bounds[..i + 1] + [key] + bounds[i + 1..], nameAt[..i] + [name] + nameAt[i..])
  {
    var names, keys := nameAt[..i] + [name] + nameAt[i..], bounds[..i + 1] + [key] + bounds[i + 1..];
    InsertedAt(nameAt, i, name);
    InsertedAt(bounds, i + 1, key);
    forall k | 0 <= k < |names| ensures names[k] in v && v[names[k]].Name? && v[names[k]].name.key == Inner(keys, k) {
      var j := if k < i then k else k - 1;
      assert k != i ==> names[k] == nameAt[j] && Inner(keys, k) == Inner(bounds, j);
    }
    forall op | op in v && v[op].Name? ensures op in names {
    }
  }

  lemma GapsDiffer(u: Utxos, bounds: seq<Bytes32>, gapAt: seq<Outpoint>)
    requires Sorted(bounds) && GapsAlong(u, bounds, gapAt)
    ensures Distinct(gapAt)
  {
    forall j, k | 0 <= j < k < |gapAt| ensures gapAt[j] != gapAt[k] {
      assert Less(bounds[j], bounds[k]);
      assert u[gapAt[j]].gap.lo == bounds[j] && u[gapAt[k]].gap.lo == bounds[k];
      LessIrreflexive(bounds[j]);
    }
  }

  lemma NamesDiffer(u: Utxos, bounds: seq<Bytes32>, nameAt: seq<Outpoint>)
    requires Sorted(bounds) && NamesAlong(u, bounds, nameAt)
    ensures Distinct(nameAt)
  {
    forall j, k | 0 <= j < k < |nameAt| ensures nameAt[j] != nameAt[k] {
      assert Less(bounds[j + 1], bounds[k + 1]);
      LessIrreflexive(bounds[j + 1]);
    }
  }

  lemma MergeGapsAlong(u: Utxos, v: Utxos, bounds: seq<Bytes32>, gapAt: seq<Outpoint>, i: nat, name: Outpoint,
                       merged: Outpoint)
    requires Sorted(bounds) && GapsAlong(u, bounds, gapAt) && i + 1 < |gapAt| && name in u && u[name].Name?
    requires Rewires(u, v, {gapAt[i], name, gapAt[i + 1]}, {merged})
    requires merged in v && v[merged] == Gap(GapState(bounds[i], bounds[i + 2]))
    ensures GapsAlong(v, bounds[..i + 1] + bounds[i + 2..], gapAt[..i] + [merged] + gapAt[i + 2..])
  {
    hide Less;
    var gaps := gapAt[..i] + [merged] + gapAt[i + 2..];
    var keys := bounds[..i + 1] + bounds[i + 2..];
    GapsDiffer(u, bounds, gapAt);
    forall j | 0 <= j < |gaps| ensures gaps[j] in v && v[gaps[j]] == Gap(Between(keys, j)) {
      if j < i {
        assert gaps[j] == gapAt[j] && gapAt[j] in u && Between(keys, j) == Between(bounds, j);
      } else if j > i {
        assert gaps[j] == gapAt[j + 1] && gapAt[j + 1] in u && Between(keys, j) == Between(bounds, j + 1);
      }
    }
    forall op | op in v && v[op].Gap? ensures op in gaps {
      if op in u {
        var j :| 0 <= j < |gapAt| && gapAt[j] == op;
        assert j < i ==> gaps[j] == op;
        assert j > i + 1 ==> gaps[j - 1] == op;
      } else {
        assert gaps[i] == merged;
      }
    }
  }

  lemma MergeNamesAlong(u: Utxos, v: Utxos, bounds: seq<Bytes32>, nameAt: seq<Outpoint>, i: nat, a: Outpoint,
                        b: Outpoint, merged: Outpoint)
    requires Sorted(bounds) && NamesAlong(u, bounds, nameAt) && i < |nameAt|
    requires a in u && u[a].Gap? && b in u && u[b].Gap? && Rewires(u, v, {a, nameAt[i], b}, {merged})
    requires merged in v && v[merged].Gap?
    ensures NamesAlong(v, bounds[..i + 1] + bounds[i + 2..], nameAt[..i] + nameAt[i + 1..])
  {
    hide Less, Sorted;
    var names, keys := nameAt[..i] + nameAt[i + 1..], bounds[..i + 1] + bounds[i + 2..];
    NamesDiffer(u, bounds, nameAt);
    RemovedAt(nameAt, i);
    RemovedAt(bounds, i + 1);
    forall k | 0 <= k < |names| ensures names[k] in v && v[names[k]].Name? && v[names[k]].name.key == Inner(keys, k) {
      var j := if k < i then k else k + 1;
      assert names[k] == nameAt[j] && Inner(keys, k) == Inner(bounds, j);
    }
    forall op | op in v && v[op].Name? ensures op in names {
    }
  }

  /** Names that move to new outpoints stay along: `moved` says where each consumed one went. */
  lemma MoveNames(u: Utxos, v: Utxos, c: Links, lo: Bytes32, hi: Bytes32, moved: map<Outpoint, Outpoint>)
      returns (c': Links)
    requires Tiles(u, c, lo, hi)
    requires Rewires(u, v, moved.Keys, moved.Values)
    requires forall op :: op in moved ==>
               op in u && u[op].Name? && moved[op] in v && v[moved[op]].Name? && v[moved[op]].name.key == u[op].name.key
    ensures Tiles(v, c', lo, hi)
  {
    hide Less, Sorted, NamesAlong, GapsAlong;
    var names := seq(|c.nameAt|, i requires 0 <= i < |c.nameAt| =>
                       if c.nameAt[i] in moved then moved[c.nameAt[i]] else c.nameAt[i]);
    c' := c.(nameAt := names);
    NamesMoved(u, v, c.bounds, c.nameAt, names, moved);
    GapsStay(u, v, c.bounds, c.gapAt, moved);
  }

  lemma NamesMoved(u: Utxos, v: Utxos, bounds: seq<Bytes32>, nameAt: seq<Outpoint>, names: seq<Outpoint>,
                   moved: map<Outpoint, Outpoint>)
    requires NamesAlong(u, bounds, nameAt) && Rewires(u, v, moved.Keys, moved.Values)
    requires forall op :: op in moved ==>
               op in u && u[op].Name? && moved[op] in v && v[moved[op]].Name? && v[moved[op]].name.key == u[op].name.key
    requires |names| == |nameAt|
    requires forall i :: 0 <= i < |nameAt| ==> names[i] == if nameAt[i] in moved then moved[nameAt[i]] else nameAt[i]
    ensures NamesAlong(v, bounds, names)
  {
    forall op | op in v && v[op].Name? ensures op in names {
      var from := op;
      if op !in u {
        from :| from in moved && moved[from] == op;
      }
      var j :| 0 <= j < |nameAt| && nameAt[j] == from;
      assert names[j] == op;
    }
  }

  lemma GapsStay(u: Utxos, v: Utxos, bounds: seq<Bytes32>, gapAt: seq<Outpoint>, moved: map<Outpoint, Outpoint>)
    requires GapsAlong(u, bounds, gapAt) && Rewires(u, v, moved.Keys, moved.Values)
    requires forall op :: op in moved ==> op in u && u[op].Name? && moved[op] in v && v[moved[op]].Name?
    ensures GapsAlong(v, bounds, gapAt)
  {
  }

  // ------------------------------------------------------------------ the three shapes --

  /** The gaps and names of `after`: the unspent ones and the body's claims at the outpoints `at`. */
  ghost predicate Leaves(u: Utxos, spent: set<Outpoint>, body: seq<Claim>, at: seq<Outpoint>, after: Utxos) {
    |at| == |body| && Distinct(at)
    && (forall k :: 0 <= k < |at| ==>
        body[k].Continue? && at[k] !in u && at[k] in after && after[at[k]] == body[k].state)
    && (forall op :: op in after && op !in u && (after[op].Gap? || after[op].Name?) ==> op in at)
    && (forall op :: op in u && op !in spent ==> op in after && after[op] == u[op])
    && (forall op :: op in spent ==> op !in after)
  }

  /** Where the claims after the first `p` were placed. */
  function PlacesFrom(id: Bytes32, placed: seq<nat>, p: nat): (at: seq<Outpoint>)
    requires p <= |placed| && forall k :: 0 <= k < |placed| ==> placed[k] < 0x1_0000_0000
    ensures |at| == |placed| - p && forall k :: 0 <= k < |at| ==> at[k] == Outpoint(id, placed[p + k])
  {
    seq(|placed| - p, k requires 0 <= k < |placed| - p => Outpoint(id, placed[p + k]))
  }

  lemma NewAreBody(u: Utxos, id: Bytes32, spent: set<Outpoint>, prices: seq<Claim>, body: seq<Claim>, placed: seq<nat>,
                   after: Utxos)
    requires |placed| == |prices| + |body|
    requires forall k :: 0 <= k < |placed| ==> placed[k] < 0x1_0000_0000 && (prices + body)[k].Continue?
    requires forall c :: c in prices ==> c.Continue? && c.state.Shard?
    requires Effect(u, id, spent, prices + body, placed, after)
    ensures forall op :: op in after && op !in u && (after[op].Gap? || after[op].Name?) ==>
        op in PlacesFrom(id, placed, |prices|)
  {
    hide Fresh;
    var at := PlacesFrom(id, placed, |prices|);
    forall op | op in after && op !in u && (after[op].Gap? || after[op].Name?) ensures op in at {
      var k :| 0 <= k < |placed| && placed[k] == op.index;
      assert Outpoint(id, placed[k]) == op;
      assert at[k - |prices|] == op;
    }
  }

  lemma EffectBody(u: Utxos, id: Bytes32, spent: set<Outpoint>, prices: seq<Claim>, body: seq<Claim>, placed: seq<nat>,
                   after: Utxos)
    returns (at: seq<Outpoint>)
    requires |placed| == |prices| + |body|
    requires forall k :: 0 <= k < |placed| ==> placed[k] < 0x1_0000_0000 && (prices + body)[k].Continue?
    requires forall c :: c in prices ==> c.Continue? && c.state.Shard?
    requires Fresh(u, id) && spent <= u.Keys && Effect(u, id, spent, prices + body, placed, after)
    ensures Leaves(u, spent, body, at, after)
  {
    var p := |prices|;
    at := PlacesFrom(id, placed, p);
    NewAreBody(u, id, spent, prices, body, placed, after);
    forall k | 0 <= k < |at| ensures body[k].Continue? && at[k] !in u && at[k] in after
        && after[at[k]] == body[k].state {
      assert (prices + body)[p + k] == body[k];
      assert Outpoint(id, placed[p + k]) == at[k];
    }
  }

  /** New outpoints carry the body's claims; the price claims only make shards. */
  lemma BodyOutputs(t: Templates, u: Utxos, tx: Tx) returns (at: seq<Outpoint>)
    requires ManifestOk(t) && ContractValid(t, u, tx) && Fresh(u, tx.id)
    ensures Leaves(u, SpentOutpoints(Spends(t, u, tx)), BodyClaims(t, Spends(t, u, tx)), at, ApplyUtxos(t, u, tx))
  {
    hide ApplyUtxos, Spends, PriceClaims, BodyClaims, ScriptOf, Matches, SpentOutpoints, Fresh, Leaves, ContractValid;
    var spends := Spends(t, u, tx);
    var placed := ValidEffect(t, u, tx);
    var (prices, body) := (PriceClaims(t, spends, |spends|), BodyClaims(t, spends));
    PriceClaimsAreShards(t, spends, |spends|);
    ApplyFrame(t, u, tx);
    at := EffectBody(u, tx.id, SpentOutpoints(spends), prices, body, placed, ApplyUtxos(t, u, tx));
  }

  lemma LeavesRewires(t: Templates, u: Utxos, tx: Tx, body: seq<Claim>, at: seq<Outpoint>, after: Utxos,
                      gone: set<Outpoint>)
    requires Leaves(u, SpentOutpoints(Spends(t, u, tx)), body, at, after) && after == ApplyUtxos(t, u, tx)
        && Fresh(u, tx.id)
    requires gone <= SpentOutpoints(Spends(t, u, tx))
    requires forall o :: o in Spends(t, u, tx) && IsRegistry(o) ==> o.op in gone
    ensures Rewires(u, after, gone, Elements(at))
  {
    hide ApplyUtxos, Spends;
    SpendsAre(t, u, tx);
    ApplyFrame(t, u, tx);
  }

  lemma SplitKeepsTiles(t: Templates, u: Utxos, tx: Tx, c: Links, lo: Bytes32, hi: Bytes32, s: Spend)
      returns (c': Links)
    requires ManifestOk(t) && ContractValid(t, u, tx) && Fresh(u, tx.id) && Tiles(u, c, lo, hi)
    requires Splits(t, Spends(t, u, tx), s)
    ensures Tiles(ApplyUtxos(t, u, tx), c', lo, hi)
  {
    hide ApplyUtxos, Spends, BodyClaims, MintedName, ContractValid, Less, Sorted, SpentOutpoints, Fresh, Rewires;
    var after := ApplyUtxos(t, u, tx);
    var at := BodyOutputs(t, u, tx);
    SplitShape(t, u, tx, s);
    SpendsAre(t, u, tx);
    var n := MintedName(t, s).value;
    var i :| 0 <= i < |c.gapAt| && c.gapAt[i] == s.op;
    assert u[c.gapAt[i]] == s.tracked == Gap(Between(c.bounds, i));
    LeavesRewires(t, u, tx, SplitClaims(t, s, n), at, after, {s.op});
    assert Elements(at) == {at[0], at[1], at[2]};
    SplitTiles(u, after, c, lo, hi, i, n.key, at[0], at[1], at[2]);
    c' := SplitAt(c, i, n.key, at[0], at[1], at[2]);
  }

  function SplitAt(c: Links, i: nat, key: Bytes32, left: Outpoint, right: Outpoint, name: Outpoint): Links
    requires i < |c.gapAt| && |c.gapAt| + 1 == |c.bounds| && |c.nameAt| + 2 == |c.bounds|
  {
    Links(c.bounds[..i + 1] + [key] + c.bounds[i + 1..],
          c.gapAt[..i] + [left, right] + c.gapAt[i + 1..],
          c.nameAt[..i] + [name] + c.nameAt[i..])
  }

  lemma SplitTiles(u: Utxos, v: Utxos, c: Links, lo: Bytes32, hi: Bytes32, i: nat, key: Bytes32,
                   left: Outpoint, right: Outpoint, name: Outpoint)
    requires Tiles(u, c, lo, hi) && i < |c.gapAt| && Less(c.bounds[i], key) && Less(key, c.bounds[i + 1])
    requires Rewires(u, v, {c.gapAt[i]}, {left, right, name})
    requires left in v && v[left] == Gap(GapState(c.bounds[i], key))
    requires right in v && v[right] == Gap(GapState(key, c.bounds[i + 1]))
    requires name in v && v[name].Name? && v[name].name.key == key
    ensures Tiles(v, SplitAt(c, i, key, left, right, name), lo, hi)
  {
    hide Less, Sorted, Rewires;
    SortedInsert(c.bounds, i, key);
    SplitGapsAlong(u, v, c.bounds, c.gapAt, i, key, left, right, name);
    SplitNamesAlong(u, v, c.bounds, c.nameAt, i, key, c.gapAt[i], left, right, name);
  }

  lemma SpendsAre(t: Templates, u: Utxos, tx: Tx)
    ensures var spends := Spends(t, u, tx);
            (forall o :: o in spends ==> o.op in u && u[o.op] == o.tracked && o.op in SpentOutpoints(spends))
            && forall op :: op in SpentOutpoints(spends) ==> exists o :: o in spends && o.op == op
  {
  }

  function MergeAt(c: Links, i: nat, merged: Outpoint): Links
    requires i + 1 < |c.gapAt| && |c.gapAt| + 1 == |c.bounds| && |c.nameAt| + 2 == |c.bounds|
  {
    Links(c.bounds[..i + 1] + c.bounds[i + 2..],
          c.gapAt[..i] + [merged] + c.gapAt[i + 2..],
          c.nameAt[..i] + c.nameAt[i + 1..])
  }

  lemma MergeTiles(u: Utxos, v: Utxos, c: Links, lo: Bytes32, hi: Bytes32, i: nat, merged: Outpoint)
    requires Tiles(u, c, lo, hi) && i + 1 < |c.gapAt|
    requires Rewires(u, v, {c.gapAt[i], c.nameAt[i], c.gapAt[i + 1]}, {merged})
    requires merged in v && v[merged] == Gap(GapState(c.bounds[i], c.bounds[i + 2]))
    ensures Tiles(v, MergeAt(c, i, merged), lo, hi)
  {
    hide Less, Sorted, Rewires;
    SortedRemove(c.bounds, i);
    MergeGapsAlong(u, v, c.bounds, c.gapAt, i, c.nameAt[i], merged);
    MergeNamesAlong(u, v, c.bounds, c.nameAt, i, c.gapAt[i], c.gapAt[i + 1], merged);
  }

  lemma MergeKeepsTiles(t: Templates, u: Utxos, tx: Tx, c: Links, lo: Bytes32, hi: Bytes32, a: Spend, name: Spend,
                        b: Spend)
    returns (c': Links)
    requires ManifestOk(t) && ContractValid(t, u, tx) && Fresh(u, tx.id) && Tiles(u, c, lo, hi)
    requires Merges(Spends(t, u, tx), a, name, b)
    ensures Tiles(ApplyUtxos(t, u, tx), c', lo, hi)
  {
    hide ApplyUtxos, Spends, BodyClaims, ContractValid, Less, Sorted, SpentOutpoints, Fresh, Rewires, GapsAlong,
        NamesAlong;
    var after := ApplyUtxos(t, u, tx);
    var at := BodyOutputs(t, u, tx);
    MergeShape(t, u, tx, a, name, b);
    SpendsAre(t, u, tx);
    var i := MergeIndex(u, c, lo, hi, a, name, b);
    LeavesRewires(t, u, tx, BodyClaims(t, Spends(t, u, tx)), at, after, {a.op, name.op, b.op});
    assert Elements(at) == {at[0]};
    MergeTiles(u, after, c, lo, hi, i, at[0]);
    c' := MergeAt(c, i, at[0]);
  }

  /** The three spent outputs of an exit sit next to each other in the chain. */
  lemma MergeIndex(u: Utxos, c: Links, lo: Bytes32, hi: Bytes32, a: Spend, name: Spend, b: Spend) returns (i: nat)
    requires Tiles(u, c, lo, hi) && a.op in u && u[a.op] == a.tracked && name.op in u && u[name.op] == name.tracked
    requires b.op in u && u[b.op] == b.tracked
    requires a.tracked.Gap? && b.tracked.Gap? && name.tracked.Name?
    requires a.tracked.gap.hi == name.tracked.name.key == b.tracked.gap.lo
    ensures i + 1 < |c.gapAt| && |c.gapAt| + 1 == |c.bounds| && |c.nameAt| + 2 == |c.bounds|
    ensures c.gapAt[i] == a.op && c.nameAt[i] == name.op && c.gapAt[i + 1] == b.op
    ensures a.tracked.gap.lo == c.bounds[i] && b.tracked.gap.hi == c.bounds[i + 2]
  {
    hide Less, Sorted;
    i :| 0 <= i < |c.gapAt| && c.gapAt[i] == a.op;
    var k :| 0 <= k < |c.gapAt| && c.gapAt[k] == b.op;
    var j :| 0 <= j < |c.nameAt| && c.nameAt[j] == name.op;
    assert a.tracked == Gap(Between(c.bounds, i)) && b.tracked == Gap(Between(c.bounds, k));
    assert name.tracked.name.key == Inner(c.bounds, j);
    SameBound(c.bounds, i + 1, k);
    SameBound(c.bounds, i + 1, j + 1);
  }

  lemma SameBound(keys: seq<Bytes32>, i: nat, j: nat)
    requires Sorted(keys) && i < |keys| && j < |keys| && keys[i] == keys[j]
    ensures i == j
  {
    LessIrreflexive(keys[i]);
  }

  lemma NamesOfSpends(t: Templates, u: Utxos, tx: Tx) returns (names: seq<Spend>)
    requires ManifestOk(t) && ContractValid(t, u, tx) && Continues(t, Spends(t, u, tx))
    ensures |names| == |BodyClaims(t, Spends(t, u, tx))|
    ensures forall k :: 0 <= k < |names| ==>
              names[k] in Spends(t, u, tx) && names[k].tracked.Name? && NextName(t, names[k]).Some?
              && BodyClaims(t, Spends(t, u, tx))[k] == Continuation(t, names[k])
    ensures forall s :: s in Spends(t, u, tx) && IsRegistry(s) ==> s in names
    ensures forall i, j :: 0 <= i < j < |names| ==> names[i].op != names[j].op
  {
    hide BodyClaims, NextName, NameClaims, SpendsUpTo, Owed;
    var spends := Spends(t, u, tx);
    ContinueShape(t, u, tx);
    NameClaimsAre(t, spends, |spends|);
    SpendsIncrease(t, u, tx, |tx.inputs|);
    NameSpendsIncrease(spends, |spends|);
    NameSpendsAre(spends, |spends|);
    names := NameSpends(spends, |spends|);
    assert forall s :: s in spends && s.tracked.Name? ==> NameAmong(spends, |spends|, s);
    forall i, j | 0 <= i < j < |names| ensures names[i].op != names[j].op {
      assert names[i] in spends && names[j] in spends && names[i].input < names[j].input;
    }
  }

  lemma ContinueKeepsTiles(t: Templates, u: Utxos, tx: Tx, c: Links, lo: Bytes32, hi: Bytes32) returns (c': Links)
    requires ManifestOk(t) && ContractValid(t, u, tx) && Fresh(u, tx.id) && Tiles(u, c, lo, hi)
    requires Continues(t, Spends(t, u, tx))
    ensures Tiles(ApplyUtxos(t, u, tx), c', lo, hi)
  {
    hide ApplyUtxos, BodyClaims, Spends, SpentOutpoints, Fresh, Rewires, Tiles, NextName, ContractValid, Continues;
    var after := ApplyUtxos(t, u, tx);
    var at := BodyOutputs(t, u, tx);
    SpendsAre(t, u, tx);
    var names := NamesOfSpends(t, u, tx);
    var moved := MovedNames(t, names, at);
    LeavesRewires(t, u, tx, BodyClaims(t, Spends(t, u, tx)), at, after, moved.Keys);
    forall op | op in moved
      ensures op in u && u[op].Name? && moved[op] in after && after[moved[op]].Name?
          && after[moved[op]].name.key == u[op].name.key
    {
      var k :| 0 <= k < |names| && names[k].op == op && moved[op] == at[k];
      KeyStays(t, names[k]);
    }
    c' := MoveNames(u, after, c, lo, hi, moved);
  }

  ghost function MovedNames(t: Templates, names: seq<Spend>, at: seq<Outpoint>): (moved: map<Outpoint, Outpoint>)
    requires |at| == |names| && forall i, j :: 0 <= i < j < |names| ==> names[i].op != names[j].op
    ensures forall op :: op in moved <==> exists k :: 0 <= k < |names| && names[k].op == op
    ensures forall k :: 0 <= k < |names| ==> names[k].op in moved && moved[names[k].op] == at[k]
    ensures moved.Values == Elements(at)
  {
    var moved := map k | 0 <= k < |names| :: names[k].op := at[k];
    assert forall k :: 0 <= k < |names| ==> names[k].op in moved && moved[names[k].op] == at[k];
    assert moved.Values == Elements(at) by {
      forall op | op in Elements(at) ensures op in moved.Values {
        var k :| 0 <= k < |at| && at[k] == op;
        assert moved[names[k].op] == op;
      }
    }
    moved
  }

  lemma KeyStays(t: Templates, s: Spend)
    requires s.tracked.Name? && NextName(t, s).Some?
    ensures NextName(t, s).value.key == s.tracked.name.key && NextName(t, s).value.name == s.tracked.name.name
  {
  }

  // ------------------------------------------------------------------ every reachable state --

  /** A valid transaction keeps the chain of gaps and names. */
  lemma ApplyKeepsTiling(t: Templates, u: Utxos, tx: Tx, lo: Bytes32, hi: Bytes32)
    requires ManifestOk(t) && ContractValid(t, u, tx) && Fresh(u, tx.id) && Tiled(u, lo, hi)
    ensures Tiled(ApplyUtxos(t, u, tx), lo, hi)
  {
    hide ApplyUtxos, Spends, Splits, Merges, Continues, Tiles, Owed;
    var c :| Tiles(u, c, lo, hi);
    if s :| Splits(t, Spends(t, u, tx), s) {
      var c' := SplitKeepsTiles(t, u, tx, c, lo, hi, s);
    } else if a, name, b :| Merges(Spends(t, u, tx), a, name, b) {
      var c' := MergeKeepsTiles(t, u, tx, c, lo, hi, a, name, b);
    } else {
      var c' := ContinueKeepsTiles(t, u, tx, c, lo, hi);
    }
  }

  /** Every transaction of a run is valid where it is applied. */
  ghost predicate ValidRun(t: Templates, r: Reg, txs: seq<Tx>) {
    txs != [] ==>
      ValidRun(t, r, txs[..|txs| - 1]) && ContractValid(t, Replay(t, r, txs[..|txs| - 1]).utxos, txs[|txs| - 1])
  }

  lemma {:induction false} RunKeepsTiling(t: Templates, r: Reg, txs: seq<Tx>, lo: Bytes32, hi: Bytes32)
    requires ManifestOk(t) && ValidRun(t, r, txs) && FreshRun(t, r, txs) && Tiled(r.utxos, lo, hi)
    ensures Tiled(Replay(t, r, txs).utxos, lo, hi)
  {
    hide ApplyUtxos, ContractValid, Tiled, Fresh;
    if txs != [] {
      RunKeepsTiling(t, r, txs[..|txs| - 1], lo, hi);
      ApplyKeepsTiling(t, Replay(t, r, txs[..|txs| - 1]).utxos, txs[|txs| - 1], lo, hi);
    }
  }

  /** The genesis gap alone, with any price shards, is a chain. */
  lemma GenesisTiles(u: Utxos, op: Outpoint, g: GapState)
    requires Less(g.lo, g.hi) && op in u && u[op] == Gap(g)
    requires forall o :: o in u && o != op ==> u[o].Shard?
    ensures Tiled(u, g.lo, g.hi)
  {
    var c := Links([g.lo, g.hi], [op], []);
    assert Tiles(u, c, g.lo, g.hi);
  }

  // ------------------------------------------------------------------ what it means --

  /** No two live names share a key. */
  lemma OneNamePerKey(u: Utxos, lo: Bytes32, hi: Bytes32, a: Outpoint, b: Outpoint)
    requires Tiled(u, lo, hi) && a in u && b in u && u[a].Name? && u[b].Name? && u[a].name.key == u[b].name.key
    ensures a == b
  {
    hide Less;
    var c :| Tiles(u, c, lo, hi);
    var i :| 0 <= i < |c.nameAt| && c.nameAt[i] == a;
    var j :| 0 <= j < |c.nameAt| && c.nameAt[j] == b;
    assert Inner(c.bounds, i) == Inner(c.bounds, j);
    SameBound(c.bounds, i + 1, j + 1);
  }

  /** There is always exactly one gap more than names. */
  lemma OneMoreGap(u: Utxos, lo: Bytes32, hi: Bytes32)
    requires Tiled(u, lo, hi)
    ensures |set op | op in u && u[op].Gap?| == |set op | op in u && u[op].Name?| + 1
  {
    hide Less;
    var c :| Tiles(u, c, lo, hi);
    GapsDiffer(u, c.bounds, c.gapAt);
    NamesDiffer(u, c.bounds, c.nameAt);
    DistinctSize(c.gapAt);
    DistinctSize(c.nameAt);
    assert (set op | op in u && u[op].Gap?) == Elements(c.gapAt);
    assert (set op | op in u && u[op].Name?) == Elements(c.nameAt);
  }

  predicate Covers(g: GapState, key: Bytes32) {
    (g.lo == key || Less(g.lo, key)) && Less(key, g.hi)
  }

  /** Every key from the genesis lower end up to its upper end lies in exactly one live gap. */
  lemma OneGapPerKey(u: Utxos, lo: Bytes32, hi: Bytes32, key: Bytes32)
    requires Tiled(u, lo, hi) && Covers(GapState(lo, hi), key)
    ensures exists op :: op in u && u[op].Gap? && Covers(u[op].gap, key)
    ensures forall a, b :: a in u && b in u && u[a].Gap? && u[b].Gap?
                           && Covers(u[a].gap, key) && Covers(u[b].gap, key)
                           ==> a == b
  {
    hide Less;
    var c :| Tiles(u, c, lo, hi);
    var i := FindBound(c.bounds, key, |c.bounds| - 1);
    assert u[c.gapAt[i]] == Gap(Between(c.bounds, i));
    forall a, b | a in u && b in u && u[a].Gap? && u[b].Gap? && Covers(u[a].gap, key) && Covers(u[b].gap, key)
      ensures a == b
    {
      var j :| 0 <= j < |c.gapAt| && c.gapAt[j] == a;
      var k :| 0 <= k < |c.gapAt| && c.gapAt[k] == b;
      assert u[a] == Gap(Between(c.bounds, j)) && u[b] == Gap(Between(c.bounds, k));
      NoOverlap(c.bounds, j, k, key);
      NoOverlap(c.bounds, k, j, key);
    }
  }

  lemma {:induction false} FindBound(bounds: seq<Bytes32>, key: Bytes32, n: nat) returns (i: nat)
    requires 0 < n < |bounds| && (bounds[0] == key || Less(bounds[0], key)) && Less(key, bounds[n])
    ensures i < n && Covers(Between(bounds, i), key)
  {
    hide Less;
    LessTotal(bounds[n - 1], key);
    if Less(key, bounds[n - 1]) {
      if n == 1 {
        LessAsymmetric(key, bounds[0]);
        assert false;
      }
      i := FindBound(bounds, key, n - 1);
    } else {
      i := n - 1;
    }
  }

  lemma NoOverlap(bounds: seq<Bytes32>, j: nat, k: nat, key: Bytes32)
    requires Sorted(bounds) && j + 1 < |bounds| && k + 1 < |bounds| && Covers(Between(bounds, j), key)
        && Covers(Between(bounds, k), key)
    ensures j >= k
  {
    hide Less;
    if j < k {
      assert j + 1 == k || Less(bounds[j + 1], bounds[k]);
      if bounds[j + 1] != bounds[k] {
        LessTransitive(key, bounds[j + 1], bounds[k]);
      }
      if bounds[k] == key {
        LessIrreflexive(key);
      } else {
        LessTransitive(key, bounds[k], key);
        LessIrreflexive(key);
      }
    }
  }
}
