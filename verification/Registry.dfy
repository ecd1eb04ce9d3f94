/** The registry engine itself (kachat-names/src/ingest.rs `impl Registry`): the tracked set, the
    profiles and the undo journal, updated in place, each method proved against `Ingest`. */
module RegistryEngine {
  import opened Base
  import opened Pushes
  import opened States
  import opened Transition
  import opened Ingest

  class Registry {
    var utxos: Utxos
    var profiles: Profiles
    var journal: seq<UndoEntry>

    function State(): Reg
      reads this
    {
      Reg(utxos, profiles, journal)
    }

    constructor ()
      ensures State() == Reg(map[], map[], [])
    {
      utxos, profiles, journal := map[], map[], [];
    }

    method SeedGenesis(op: Outpoint, gap: GapState)
      modifies this
      ensures State() == old(State()).(utxos := old(utxos)[op := Gap(gap)])
    {
      utxos := utxos[op := Gap(gap)];
    }

    method SeedShard(op: Outpoint, shard: PriceState)
      modifies this
      ensures State() == old(State()).(utxos := old(utxos)[op := Shard(shard)])
    {
      utxos := utxos[op := Shard(shard)];
    }

    /** The first unclaimed output that carries `script` under binding `b`, now claimed. */
    static method FindOutput(tx: Tx, script: Bytes, b: Binding, used: seq<nat>)
        returns (found: Option<nat>, used': seq<nat>)
      ensures found == FirstFree(tx, script, b, used, 0)
      ensures used' == if found.None? then used else used + [found.value]
    {
      var bindingsKnown := exists o :: o in tx.outputs && o.covenant.Some?;
      for i := 0 to |tx.outputs|
        invariant FirstFree(tx, script, b, used, 0) == FirstFree(tx, script, b, used, i)
      {
        var o := tx.outputs[i];
        if i in used || o.script != script {
          continue;
        }
        if b.Some? && bindingsKnown && o.covenant != Some(CovenantBinding(b.value.0 % 0x1_0000, b.value.1)) {
          continue;
        }
        return Some(i), used + [i];
      }
      return None, used;
    }

    /** Look for the output that carries a derived state, and track it there. */
    method Track(t: Templates, tx: Tx, b: Binding, s: Tracked, used: seq<nat>) returns (used': seq<nat>)
      modifies this`utxos
      ensures Work(used', utxos) == Place(t, tx, b, s, Work(used, old(utxos)))
    {
      var found;
      found, used' := FindOutput(tx, ScriptOf(t, s), b, used);
      if found.Some? {
        utxos := utxos[Outpoint(tx.id, found.value) := s];
      }
    }

    method CollectSpends(t: Templates, tx: Tx) returns (spends: seq<Spend>)
      ensures spends == Spends(t, utxos, tx)
    {
      spends := [];
      for i := 0 to |tx.inputs|
        invariant spends == SpendsUpTo(t, utxos, tx, i)
      {
        var op := tx.inputs[i].previous;
        if op !in utxos {
          continue;
        }
        var sig := DecodeSigScript(tx.inputs[i].signatureScript);
        if sig.None? {
          continue;
        }
        var entry := EntryOf(t, utxos[op].Contract(), sig.value.tag);
        if entry.None? {
          continue;
        }
        spends := spends + [Spend(i, op, utxos[op], entry.value, sig.value)];
      }
    }

    /** A price change's new state for each shard, under that shard's own input. */
    method UpdateShards(t: Templates, tx: Tx, id: Bytes32, shards: seq<(nat, PriceState)>, authority: Bytes32,
                        prices: Prices, used: seq<nat>) returns (used': seq<nat>)
      modifies this`utxos
      ensures Work(used', utxos) == RunClaims(t, tx, UpdateClaims(id, shards, authority, prices),
                                              Work(used, old(utxos)))
    {
      hide Place;
      used' := used;
      for j := 0 to |shards|
        invariant Work(used', utxos)
            == RunClaims(t, tx, UpdateClaims(id, shards[..j], authority, prices), Work(used, old(utxos)))
      {
        var (input, shard) := shards[j];
        var next := Shard(PriceState(shard.shard, authority, prices));
        assert shards[..j + 1][..j] == shards[..j];
        used' := Track(t, tx, Some((input, id)), next, used');
        RunOne(t, tx, UpdateClaims(id, shards[..j], authority, prices), Continue(Some((input, id)), next),
               Work(used, old(utxos)));
      }
      assert shards[..|shards|] == shards;
    }

    /** One spent shard: `use` continues unchanged, `update` rewrites every shard of the
        transaction, `follow` is written by the update. */
    method ApplyPriceSpend(t: Templates, tx: Tx, id: Bytes32, spends: seq<Spend>, s: Spend, used: seq<nat>)
      returns (used': seq<nat>)
      modifies this`utxos
      ensures Work(used', utxos) == RunClaims(t, tx, PriceClaim(id, spends, s), Work(used, old(utxos)))
    {
      hide RunClaims, Place, ShardInputs, UpdateClaims, PriceArgs;
      used' := used;
      RunNone(t, tx, Work(used, utxos));
      if s.tracked.Shard? && s.entry == PriceUse {
        RunOne(t, tx, [], Continue(Some((s.input, id)), s.tracked), Work(used, utxos));
        used' := Track(t, tx, Some((s.input, id)), s.tracked, used');
      } else if s.tracked.Shard? && s.entry == PriceUpdate {
        var args := PriceArgs(s.sig);
        if args.Some? {
          used' := UpdateShards(t, tx, id, ShardInputs(spends), args.value.0, args.value.1, used');
        }
      }
    }

    method ApplyPriceSpends(t: Templates, tx: Tx, spends: seq<Spend>, used: seq<nat>) returns (used': seq<nat>)
      modifies this`utxos
      ensures Work(used', utxos) == RunClaims(t, tx, PriceClaims(t, spends, |spends|), Work(used, old(utxos)))
    {
      hide RunClaims, PriceClaim;
      used' := used;
      RunNone(t, tx, Work(used, utxos));
      if t.priceId.None? {
        return;
      }
      for n := 0 to |spends|
        invariant Work(used', utxos) == RunClaims(t, tx, PriceClaims(t, spends, n), Work(used, old(utxos)))
      {
        RunClaimsConcat(t, tx, PriceClaims(t, spends, n), PriceClaim(t.priceId.value, spends, spends[n]),
                        Work(used, old(utxos)));
        used' := ApplyPriceSpend(t, tx, t.priceId.value, spends, spends[n], used');
      }
    }

    /** `register` and `import`: the two gaps and the name, in output order. */
    method ApplyMint(t: Templates, tx: Tx, spends: seq<Spend>, e: Entry, used: seq<nat>) returns (used': seq<nat>)
      modifies this`utxos
      ensures Work(used', utxos) == RunClaims(t, tx, MintClaims(t, spends, e), Work(used, old(utxos)))
    {
      hide Place, RunClaims, MintedName;
      used' := used;
      RunNone(t, tx, Work(used, utxos));
      var s := FirstWith(spends, e);
      if s.None? || !s.value.tracked.Gap? {
        return;
      }
      var n := MintedName(t, s.value);
      if n.None? {
        return;
      }
      var (left, right) := SplitGap(s.value.tracked.gap, n.value.key);
      var b := RegistryBinding(t, s.value.input);
      ghost var start := Work(used, utxos);
      used' := Track(t, tx, b, Gap(left), used');
      used' := Track(t, tx, b, Gap(right), used');
      used' := Track(t, tx, b, Name(n.value), used');
      var (c1, c2, c3) := (Continue(b, Gap(left)), Continue(b, Gap(right)), Continue(b, Name(n.value)));
      RunOne(t, tx, [], c1, start);
      RunOne(t, tx, [c1], c2, start);
      RunOne(t, tx, [c1, c2], c3, start);
      assert [c1] + [c2] == [c1, c2] && [c1, c2] + [c3] == SplitClaims(t, s.value, n.value);
    }

    method ApplyMerge(t: Templates, tx: Tx, spends: seq<Spend>, used: seq<nat>) returns (used': seq<nat>)
      modifies this`utxos
      ensures Work(used', utxos) == RunClaims(t, tx, MergeClaims(t, spends), Work(used, old(utxos)))
    {
      used' := used;
      var lo, hi := FirstGapWith(spends, GapMerge), FirstGapWith(spends, GapAbsorbed);
      if lo.Some? && hi.Some? {
        var b := RegistryBinding(t, lo.value.input);
        var merged := Gap(MergeGaps(lo.value.tracked.gap, hi.value.tracked.gap));
        RunOne(t, tx, [], Continue(b, merged), Work(used, utxos));
        used' := Track(t, tx, b, merged, used');
      }
    }

    /** Per-name continuations, and registry v2's accept of an offer. */
    method ApplyNameSpends(t: Templates, tx: Tx, spends: seq<Spend>, used: seq<nat>) returns (used': seq<nat>)
      modifies this`utxos
      ensures Work(used', utxos) == RunClaims(t, tx, NameClaims(t, spends, |spends|), Work(used, old(utxos)))
    {
      hide Place, RunClaims, NextName;
      used' := used;
      RunNone(t, tx, Work(used, utxos));
      for n := 0 to |spends|
        invariant Work(used', utxos) == RunClaims(t, tx, NameClaims(t, spends, n), Work(used, old(utxos)))
      {
        var s := spends[n];
        var b := RegistryBinding(t, s.input);
        ghost var done := RunClaims(t, tx, NameClaims(t, spends, n), Work(used, old(utxos)));
        RunClaimsConcat(t, tx, NameClaims(t, spends, n), NameClaim(t, spends, s), Work(used, old(utxos)));
        RunNone(t, tx, done);
        if s.tracked.Name? {
          var next := NextName(t, s);
          if next.Some? {
            used' := Track(t, tx, b, Name(next.value), used');
            RunOne(t, tx, [], Continue(b, Name(next.value)), done);
          }
        } else if s.tracked.Offer? && s.entry == OfferAccept && !Has(spends, NameTransfer) {
          var name := t.host.nameByKey(utxos, s.tracked.offer.key);
          if name.Some? {
            used' := Track(t, tx, b, Name(Transfer(name.value, s.tracked.offer.buyer)), used');
          }
          RunOne(t, tx, [], TakeOffer(b, s.tracked.offer), done);
        }
      }
    }

    method ApplySpends(t: Templates, tx: Tx, spends: seq<Spend>, used: seq<nat>) returns (used': seq<nat>)
      modifies this`utxos
      ensures Work(used', utxos) == RunClaims(t, tx, Claims(t, spends), Work(used, old(utxos)))
    {
      RunClaimsConcat(t, tx, PriceClaims(t, spends, |spends|), BodyClaims(t, spends), Work(used, utxos));
      used' := ApplyPriceSpends(t, tx, spends, used);
      if Has(spends, GapMerge) {
        used' := ApplyMerge(t, tx, spends, used');
      } else if Has(spends, GapRegister) {
        used' := ApplyMint(t, tx, spends, GapRegister, used');
      } else if Has(spends, GapImport) {
        used' := ApplyMint(t, tx, spends, GapImport, used');
      } else {
        used' := ApplyNameSpends(t, tx, spends, used');
      }
    }

    method ApplyOfferMarker(t: Templates, tx: Tx)
      modifies this`utxos
      ensures utxos == WithOffer(t, old(utxos), tx)
    {
      var offer := t.host.offerMarker(t.offer.stateLen, tx.payload);
      if offer.None? || offer.value.refundAfter < 0 || !t.host.usableKey(offer.value.buyer)
         || (offer.value.seller.Some? && !t.host.usableKey(offer.value.seller.value)) {
        return;
      }
      var script := ScriptOf(t, Offer(offer.value));
      for i := 0 to |tx.outputs|
        invariant utxos == old(utxos) && OfferOutput(tx, script, 0) == OfferOutput(tx, script, i)
      {
        if tx.outputs[i].script == script && tx.outputs[i].covenant.None? {
          utxos := utxos[Outpoint(tx.id, i) := Offer(offer.value)];
          return;
        }
      }
    }

    /** Sets the profile a self-send carries; returns what it replaced, for the undo entry. */
    method ApplyProfile(h: Host, tx: Tx) returns (undo: Option<ProfileUndo>)
      modifies this`profiles
      ensures var accepted := AcceptedProfile(h, old(profiles), tx);
              profiles == WithProfile(old(profiles), accepted) && undo == ProfileUndoOf(old(profiles), accepted)
    {
      var json := h.profileRecord(tx.payload);
      if json.None? || tx.outputs == [] {
        return None;
      }
      var address := tx.outputs[0].script;
      if !exists i :: i in tx.inputs && i.spentScript != [] && i.spentScript == address {
        return None;
      }
      var entry := ProfileEntry(json.value, tx.daa, tx.id);
      if address in profiles && !NewerProfile(entry, profiles[address]) {
        return None;
      }
      undo := Some(ProfileUndo(address, if address in profiles then Some(profiles[address]) else None));
      profiles := profiles[address := entry];
    }

    /** Applies one accepted transaction. */
    method Apply(t: Templates, tx: Tx)
      modifies this
      ensures State() == Ingest.Apply(t, old(State()), tx)
    {
      hide RunClaims, Claims, Spends, WithOffer, AcceptedProfile, WithProfile, ProfileUndoOf, Added;
      var before := utxos;
      var spends := CollectSpends(t, tx);
      ApplyOfferMarker(t, tx);
      var undo := ApplyProfile(t.host, tx);
      if spends != [] {
        var used := ApplySpends(t, tx, spends, []);
      } else {
        NoClaims(t);
        RunNone(t, tx, Work([], utxos));
      }
      var removed := Removed(spends);
      for i := 0 to |removed|
        invariant utxos == RunClaims(t, tx, Claims(t, spends), Work([], WithOffer(t, before, tx))).utxos
                           - SpentOutpoints(spends[..i])
        invariant profiles == WithProfile(old(profiles), AcceptedProfile(t.host, old(profiles), tx))
        invariant journal == old(journal)
      {
        assert SpentOutpoints(spends[..i + 1]) == SpentOutpoints(spends[..i]) + {spends[i].op};
        utxos := utxos - {removed[i].0};
      }
      assert spends[..|spends|] == spends;
      var added := Added(tx, before, utxos, |tx.outputs|);
      if added != [] || removed != [] || undo.Some? {
        journal := journal + [UndoEntry(tx.block, added, removed, undo)];
      }
    }

    /** Applies only the profile rules; true when the record was accepted. */
    method ApplyProfileOnly(h: Host, tx: Tx) returns (accepted: bool)
      modifies this
      ensures utxos == old(utxos)
      ensures var p := AcceptedProfile(h, old(profiles), tx);
              accepted == p.Some? && profiles == WithProfile(old(profiles), p)
              && journal == if p.None? then old(journal)
                            else old(journal) + [UndoEntry(tx.block, [], [], ProfileUndoOf(old(profiles), p))]
    {
      var undo := ApplyProfile(h, tx);
      if undo.None? {
        return false;
      }
      journal := journal + [UndoEntry(tx.block, [], [], undo)];
      return true;
    }

    /** Reverses one journaled transaction: removes what it added, restores what it consumed. */
    method Revert(e: UndoEntry)
      modifies this`utxos, this`profiles
      ensures utxos == RevertUtxos(old(utxos), e) && profiles == RevertProfiles(old(profiles), e)
    {
      for i := 0 to |e.added|
        invariant utxos == old(utxos) - Elements(e.added[..i]) && profiles == old(profiles)
      {
        assert Elements(e.added[..i + 1]) == Elements(e.added[..i]) + {e.added[i]};
        utxos := utxos - {e.added[i]};
      }
      assert e.added[..|e.added|] == e.added;
      for i := 0 to |e.removed|
        invariant utxos == RestoreAll(old(utxos) - Elements(e.added), e.removed[..i]) && profiles == old(profiles)
      {
        assert e.removed[..i + 1][..i] == e.removed[..i];
        utxos := utxos[e.removed[i].0 := e.removed[i].1];
      }
      assert e.removed[..|e.removed|] == e.removed;
      match e.profile {
        case None =>
        case Some(u) =>
          profiles := if u.prior.Some? then profiles[u.address := u.prior.value] else profiles - {u.address};
      }
    }

    /** Undoes every transaction a removed chain block accepted, newest first. */
    method UndoBlock(block: Bytes32)
      modifies this
      ensures State() == Ingest.UndoBlock(old(State()), block)
    {
      var undo, keep := [], [];
      for i := 0 to |journal|
        invariant State() == old(State())
        invariant undo == EntriesOf(journal[..i], block) && keep == EntriesNotOf(journal[..i], block)
      {
        var e := journal[i];
        assert journal[..i + 1][..i] == journal[..i];
        if e.block == block {
          undo := undo + [e];
        } else {
          keep := keep + [e];
        }
      }
      assert journal[..|journal|] == journal;
      journal := keep;
      var n := |undo|;
      ghost var start := State();
      assert undo[..n] == undo;
      while n > 0
        invariant n <= |undo|
        invariant journal == keep && RevertAll(start, undo) == RevertAll(State(), undo[..n])
      {
        n := n - 1;
        assert undo[..n + 1][..n] == undo[..n] && undo[..n + 1][n] == undo[n];
        label before: ghost var r := State();
        Revert(undo[n]);
        assert State() == r.(utxos := RevertUtxos(r.utxos, undo[n]), profiles := RevertProfiles(r.profiles, undo[n]));
      }
      assert undo[..0] == [];
    }

    method PruneJournal(keepLast: nat)
      modifies this`journal
      ensures journal == Prune(old(journal), keepLast)
      ensures |journal| == if |old(journal)| < keepLast then |old(journal)| else keepLast
      ensures journal == old(journal)[|old(journal)| - |journal|..]
    {
      if |journal| > keepLast {
        journal := journal[|journal| - keepLast..];
      }
    }

    method RestoreJournal(entries: seq<UndoEntry>)
      modifies this`journal
      ensures journal == entries
    {
      journal := entries;
    }

    /** Whether the journal holds anything to undo for this chain block. */
    method JournalHasBlock(block: Bytes32) returns (r: bool)
      ensures r <==> EntriesOf(journal, block) != []
    {
      r := false;
      for i := 0 to |journal|
        invariant r <==> EntriesOf(journal[..i], block) != []
      {
        assert journal[..i + 1][..i] == journal[..i];
        r := r || journal[i].block == block;
      }
      assert journal[..|journal|] == journal;
    }
  }

  lemma RunOne(t: Templates, tx: Tx, claims: seq<Claim>, c: Claim, w: Work)
    ensures RunClaims(t, tx, claims + [c], w) == RunClaim(t, tx, c, RunClaims(t, tx, claims, w))
    ensures RunClaims(t, tx, [c], w) == RunClaim(t, tx, c, w)
  {
    assert (claims + [c])[..|claims|] == claims;
  }

  lemma RunNone(t: Templates, tx: Tx, w: Work)
    ensures RunClaims(t, tx, [], w) == w
  {
  }

  lemma NoClaims(t: Templates)
    ensures Claims(t, []) == []
  {
  }
}
