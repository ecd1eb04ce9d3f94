/** Exact undo: reverting what a transaction journaled restores the registry it was applied to, and
    reverting the newest journal entries of a run rewinds the run. */
module Undo {
  import opened Base
  import opened Ingest

  /** No tracked outpoint carries this transaction id yet. */
  ghost predicate Fresh(utxos: Utxos, id: Bytes32) {
    forall op :: op in utxos ==> op.tx != id
  }

  predicate SameLive(a: Reg, b: Reg) {
    a.utxos == b.utxos && a.profiles == b.profiles
  }

  // ------------------------------------------------------------------ what a transaction touches --

  /** Two tracked sets agree on every outpoint that is not an output of `tx`. */
  ghost predicate AgreeOutside(tx: Tx, a: Utxos, b: Utxos) {
    forall op: Outpoint :: op.tx != tx.id || op.index >= |tx.outputs| ==>
        (op in a <==> op in b) && (op in a ==> a[op] == b[op])
  }

  /** Claims only ever write the transaction's own outputs. */
  lemma {:induction false} ClaimsStayInside(t: Templates, tx: Tx, claims: seq<Claim>, w: Work)
    ensures AgreeOutside(tx, w.utxos, RunClaims(t, tx, claims, w).utxos)
  {
    if claims != [] {
      ClaimsStayInside(t, tx, claims[..|claims| - 1], w);
    }
  }

  lemma ApplyFrame(t: Templates, utxos: Utxos, tx: Tx)
    ensures var after, spent := ApplyUtxos(t, utxos, tx), SpentOutpoints(Spends(t, utxos, tx));
            AgreeOutside(tx, utxos - spent, after) && spent <= utxos.Keys && spent !! after.Keys
  {
    var spends := Spends(t, utxos, tx);
    ClaimsStayInside(t, tx, Claims(t, spends), Work([], WithOffer(t, utxos, tx)));
  }

  // ------------------------------------------------------------------ one transaction --

  lemma {:induction false} RestoreAllFrom(utxos: Utxos, removed: seq<(Outpoint, Tracked)>, source: Utxos)
    requires forall p :: p in removed ==> p.0 in source && source[p.0] == p.1
    ensures var r := RestoreAll(utxos, removed);
            forall op :: if exists p :: p in removed && p.0 == op then op in r && r[op] == source[op]
                         else (op in r <==> op in utxos) && (op in r ==> r[op] == utxos[op])
  {
    if removed != [] {
      var n := |removed| - 1;
      RestoreAllFrom(utxos, removed[..n], source);
      assert removed == removed[..n] + [removed[n]];
    }
  }

  lemma RemovedAre(t: Templates, utxos: Utxos, tx: Tx)
    ensures var removed, spent := Removed(Spends(t, utxos, tx)), SpentOutpoints(Spends(t, utxos, tx));
            (forall p :: p in removed ==> p.0 in spent && utxos[p.0] == p.1)
            && forall op :: op in spent ==> exists p :: p in removed && p.0 == op
  {
    var spends := Spends(t, utxos, tx);
    forall op | op in SpentOutpoints(spends) ensures exists p :: p in Removed(spends) && p.0 == op {
      var i :| 0 <= i < |spends| && spends[i].op == op;
      assert Removed(spends)[i].0 == op;
    }
  }

  /** Reverting a fresh transaction's own entry gives back exactly the tracked set it met. */
  lemma RevertApplyUtxos(t: Templates, r: Reg, tx: Tx)
    requires Fresh(r.utxos, tx.id)
    ensures RevertUtxos(ApplyUtxos(t, r.utxos, tx), UndoOf(t, r, tx)) == r.utxos
  {
    hide ApplyUtxos, Spends, Removed, SpentOutpoints, ProfileUndoOf, AcceptedProfile;
    var after, undo := ApplyUtxos(t, r.utxos, tx), UndoOf(t, r, tx);
    var spent := SpentOutpoints(Spends(t, r.utxos, tx));
    ApplyFrame(t, r.utxos, tx);
    RemovedAre(t, r.utxos, tx);
    var base := after - Elements(undo.added);
    RestoreAllFrom(base, undo.removed, r.utxos);
    var back := RestoreAll(base, undo.removed);
    forall op ensures (op in back <==> op in r.utxos) && (op in back ==> back[op] == r.utxos[op]) {
      if op !in spent {
        assert op in undo.added <==> op.tx == tx.id && op.index < |tx.outputs| && op in after && op !in r.utxos;
      }
    }
    assert back == r.utxos;
  }

  lemma RevertApplyProfiles(t: Templates, r: Reg, tx: Tx)
    ensures RevertProfiles(Apply(t, r, tx).profiles, UndoOf(t, r, tx)) == r.profiles
  {
  }

  /** A transaction that journals nothing changed nothing. */
  lemma UnjournaledIsIdle(t: Templates, r: Reg, tx: Tx)
    requires Fresh(r.utxos, tx.id) && !Changes(UndoOf(t, r, tx))
    ensures SameLive(Apply(t, r, tx), r)
  {
    RevertApplyUtxos(t, r, tx);
    RevertApplyProfiles(t, r, tx);
    var undo := UndoOf(t, r, tx);
    assert Elements(undo.added) == {};
  }

  /** The last entry says what became of the tracked set between the two registries, and whether the
      profiles changed. */
  ghost predicate Tells(e: UndoEntry, before: Reg, after: Reg) {
    (forall op :: op in e.added <==> op in after.utxos && op !in before.utxos)
    && (forall op, s :: (op, s) in e.removed <==> op in before.utxos && before.utxos[op] == s && op !in after.utxos)
    && (e.profile.None? <==> after.profiles == before.profiles)
  }

  /** A transaction journals one entry, of its block, exactly when it changed anything; the entry is what
      it changed. */
  lemma JournalIsTheChange(t: Templates, r: Reg, tx: Tx)
    requires Fresh(r.utxos, tx.id)
    ensures var s := Apply(t, r, tx);
            if SameLive(s, r) then s.journal == r.journal
            else |s.journal| == |r.journal| + 1 && r.journal <= s.journal && s.journal[|r.journal|].block == tx.block
                 && Tells(s.journal[|r.journal|], r, s)
  {
    hide ApplyUtxos, ProfileUndoOf, AcceptedProfile;
    var e := UndoOf(t, r, tx);
    UndoTells(t, r, tx);
    if Changes(e) {
      assert e.added != [] ==> e.added[0] in e.added;
      assert e.removed != [] ==> (e.removed[0].0, e.removed[0].1) in e.removed;
    } else {
      UnjournaledIsIdle(t, r, tx);
    }
  }

  lemma UndoTells(t: Templates, r: Reg, tx: Tx)
    requires Fresh(r.utxos, tx.id)
    ensures Tells(UndoOf(t, r, tx), r, Apply(t, r, tx))
  {
    hide ApplyUtxos, Spends, Removed, SpentOutpoints, NewerProfile, ProfileOf;
    ApplyFrame(t, r.utxos, tx);
    RemovedAre(t, r.utxos, tx);
    var e, after, spent := UndoOf(t, r, tx), ApplyUtxos(t, r.utxos, tx), SpentOutpoints(Spends(t, r.utxos, tx));
    forall op, s ensures (op, s) in e.removed <==> op in r.utxos && r.utxos[op] == s && op !in after {
      if op in r.utxos && r.utxos[op] == s && op !in after {
        assert op in spent;
        var p :| p in e.removed && p.0 == op;
        assert p == (op, s);
      }
    }
    ProfileTells(t, r, tx);
  }

  lemma ProfileTells(t: Templates, r: Reg, tx: Tx)
    ensures UndoOf(t, r, tx).profile.None? <==> Apply(t, r, tx).profiles == r.profiles
  {
    hide ProfileOf, ApplyUtxos;
    var p := AcceptedProfile(t.host, r.profiles, tx);
    if p.Some? && p.value.0 in r.profiles {
      LessIrreflexive(p.value.1.tx);
      assert r.profiles[p.value.0] != p.value.1;
    }
  }

  // ------------------------------------------------------------------ whole runs --

  /** Every transaction is fresh where it is applied. */
  ghost predicate FreshRun(t: Templates, r: Reg, txs: seq<Tx>) {
    txs != [] ==> FreshRun(t, r, txs[..|txs| - 1]) && Fresh(Replay(t, r, txs[..|txs| - 1]).utxos, txs[|txs| - 1].id)
  }

  /** Transaction ids occur once, and no tracked outpoint of the start carries one. */
  ghost predicate NewIds(r: Reg, txs: seq<Tx>) {
    (forall i, j :: 0 <= i < j < |txs| ==> txs[i].id != txs[j].id)
    && forall tx :: tx in txs ==> Fresh(r.utxos, tx.id)
  }

  function Ids(txs: seq<Tx>): set<Bytes32> {
    set tx | tx in txs :: tx.id
  }

  lemma IdsSplit(txs: seq<Tx>)
    requires txs != []
    ensures Ids(txs) == Ids(txs[..|txs| - 1]) + {txs[|txs| - 1].id}
  {
    assert txs == txs[..|txs| - 1] + [txs[|txs| - 1]];
  }

  lemma NewIdsPrefix(r: Reg, txs: seq<Tx>)
    requires NewIds(r, txs) && txs != []
    ensures NewIds(r, txs[..|txs| - 1]) && Fresh(r.utxos, txs[|txs| - 1].id)
    ensures txs[|txs| - 1].id !in Ids(txs[..|txs| - 1])
  {
    var init, last := txs[..|txs| - 1], txs[|txs| - 1];
    assert last in txs && forall tx :: tx in init ==> tx in txs;
  }

  /** A run of new ids is fresh throughout and creates only its own outputs. */
  lemma {:induction false} NewIdsAreFresh(t: Templates, r: Reg, txs: seq<Tx>)
    requires NewIds(r, txs)
    ensures FreshRun(t, r, txs)
    ensures forall op :: op in Replay(t, r, txs).utxos ==> op in r.utxos || op.tx in Ids(txs)
  {
    hide ApplyUtxos, UndoOf, AcceptedProfile, WithProfile, Spends, SpentOutpoints, NewIds, Ids;
    if txs != [] {
      var init, last := txs[..|txs| - 1], txs[|txs| - 1];
      NewIdsPrefix(r, txs);
      IdsSplit(txs);
      NewIdsAreFresh(t, r, init);
      ApplyFrame(t, Replay(t, r, init).utxos, last);
    }
  }

  lemma NewIdsAfter(t: Templates, r: Reg, pre: seq<Tx>, post: seq<Tx>)
    requires NewIds(r, pre + post)
    ensures NewIds(r, pre) && NewIds(Replay(t, r, pre), post)
    ensures Ids(pre) !! Ids(post) && Ids(pre + post) == Ids(pre) + Ids(post)
  {
    var txs := pre + post;
    assert forall i :: 0 <= i < |pre| ==> txs[i] == pre[i];
    assert forall i :: 0 <= i < |post| ==> txs[|pre| + i] == post[i];
    forall id | id in Ids(pre) ensures id !in Ids(post) {
      var i :| 0 <= i < |pre| && pre[i].id == id;
      forall j | 0 <= j < |post| ensures post[j].id != id {
        assert txs[i].id != txs[|pre| + j].id;
      }
    }
    forall tx | tx in pre ensures tx in txs {}
    NewIdsAreFresh(t, r, pre);
    forall tx | tx in post ensures Fresh(Replay(t, r, pre).utxos, tx.id) {
      assert tx in txs && tx.id in Ids(post);
    }
  }

  /** An outpoint's state never changes while it is tracked, and a spent one does not come back. */
  lemma {:induction false} StatesAreFinal(t: Templates, r: Reg, txs: seq<Tx>, n: nat)
    requires NewIds(r, txs) && n <= |txs|
    ensures forall op :: op in r.utxos && op in Replay(t, r, txs).utxos ==>
              op in Replay(t, r, txs[..n]).utxos && Replay(t, r, txs).utxos[op] == r.utxos[op]
  {
    hide ApplyUtxos, UndoOf, AcceptedProfile, WithProfile, Spends, SpentOutpoints, NewIds;
    if txs != [] {
      var init, last := txs[..|txs| - 1], txs[|txs| - 1];
      NewIdsPrefix(r, txs);
      ApplyFrame(t, Replay(t, r, init).utxos, last);
      StatesAreFinal(t, r, init, if n < |txs| then n else |init|);
      assert n < |txs| ==> init[..n] == txs[..n];
      assert txs[..|txs|] == txs;
    }
  }

  lemma {:induction false} FreshRunPrefix(t: Templates, r: Reg, txs: seq<Tx>, n: nat)
    requires FreshRun(t, r, txs) && n <= |txs|
    ensures FreshRun(t, r, txs[..n])
  {
    hide Replay, Fresh;
    if n < |txs| {
      FreshRunPrefix(t, r, txs[..|txs| - 1], n);
      assert txs[..|txs| - 1][..n] == txs[..n];
    } else {
      assert txs[..n] == txs;
    }
  }

  lemma {:induction false} JournalGrows(t: Templates, r: Reg, txs: seq<Tx>, n: nat)
    requires n <= |txs|
    ensures Replay(t, r, txs[..n]).journal <= Replay(t, r, txs).journal
  {
    hide ApplyUtxos, UndoOf, AcceptedProfile, WithProfile;
    if n < |txs| {
      JournalGrows(t, r, txs[..|txs| - 1], n);
      assert txs[..|txs| - 1][..n] == txs[..n];
    } else {
      assert txs[..n] == txs;
    }
  }

  lemma {:induction false} RevertAllKeepsJournal(r: Reg, es: seq<UndoEntry>, journal: seq<UndoEntry>)
    ensures RevertAll(r.(journal := journal), es) == RevertAll(r, es).(journal := journal)
    decreases |es|
  {
    if es != [] {
      var last := es[|es| - 1];
      var next := r.(utxos := RevertUtxos(r.utxos, last), profiles := RevertProfiles(r.profiles, last));
      RevertAllKeepsJournal(next, es[..|es| - 1], journal);
      assert r.(journal := journal).(utxos := next.utxos, profiles := next.profiles) == next.(journal := journal);
    }
  }

  /** Reverting the newest entries of a run, down to any journal length, leaves what the run had
      when its journal was that long. */
  lemma {:induction false} RewindRun(t: Templates, r: Reg, txs: seq<Tx>, k: nat) returns (m: nat)
    requires FreshRun(t, r, txs)
    requires |r.journal| <= k <= |Replay(t, r, txs).journal|
    ensures m <= |txs| && |Replay(t, r, txs[..m]).journal| == k
    ensures SameLive(RevertAll(Replay(t, r, txs), Replay(t, r, txs).journal[k..]), Replay(t, r, txs[..m]))
  {
    hide ApplyUtxos, UndoOf, AcceptedProfile, WithProfile, RevertUtxos, RevertProfiles, Fresh;
    var end := Replay(t, r, txs);
    if k == |end.journal| {
      m := |txs|;
      assert txs[..m] == txs;
    } else {
      var init, last := txs[..|txs| - 1], txs[|txs| - 1];
      var before := Replay(t, r, init);
      m := RewindRun(t, r, init, k);
      assert init[..m] == txs[..m];
      var undo := UndoOf(t, before, last);
      if Changes(undo) {
        RevertApplyUtxos(t, before, last);
        RevertApplyProfiles(t, before, last);
        assert end.journal[k..] == before.journal[k..] + [undo];
        assert end.(utxos := before.utxos, profiles := before.profiles) == before.(journal := end.journal);
      } else {
        UnjournaledIsIdle(t, before, last);
        assert end == before.(journal := end.journal);
      }
      RevertAllKeepsJournal(before, before.journal[k..], end.journal);
    }
  }

  /** Between two points of a run with equally long journals nothing changed. */
  lemma {:induction false} IdleStretch(t: Templates, r: Reg, txs: seq<Tx>, n: nat)
    requires FreshRun(t, r, txs) && n <= |txs|
    requires |Replay(t, r, txs[..n]).journal| == |Replay(t, r, txs).journal|
    ensures SameLive(Replay(t, r, txs[..n]), Replay(t, r, txs))
  {
    hide ApplyUtxos, UndoOf, AcceptedProfile, WithProfile, Fresh;
    if n < |txs| {
      var init, last := txs[..|txs| - 1], txs[|txs| - 1];
      assert init[..n] == txs[..n];
      JournalGrows(t, r, init, n);
      IdleStretch(t, r, init, n);
      UnjournaledIsIdle(t, Replay(t, r, init), last);
    } else {
      assert txs[..n] == txs;
    }
  }
}
