/** The engine looks for each continuation's output greedily, first match first. When the
    transaction has an output for every continuation, greedy claiming finds one for each. */
module Claiming {
  import opened Base
  import opened Ingest
  import opened Undo

  /** `slots` gives every claim an output of its own that matches it. */
  ghost predicate Owed(t: Templates, tx: Tx, claims: seq<Claim>, slots: seq<nat>) {
    |slots| == |claims| && Distinct(slots)
    && forall k :: 0 <= k < |claims| ==>
         claims[k].Continue? && slots[k] < |tx.outputs|
         && Matches(tx, ScriptOf(t, claims[k].state), claims[k].binding, slots[k])
  }

  /** Either every claim names a covenant or none does. */
  ghost predicate Uniform(claims: seq<Claim>) {
    forall k, l :: 0 <= k < |claims| && 0 <= l < |claims| ==> (claims[k].binding.Some? <==> claims[l].binding.Some?)
  }

  /** Two claims that can share one output can share every output either could use. */
  lemma SharedOutput(t: Templates, tx: Tx, c: Claim, d: Claim, i: nat, j: nat)
    requires c.Continue? && d.Continue? && (c.binding.Some? <==> d.binding.Some?)
    requires i < |tx.outputs| && j < |tx.outputs|
    requires Matches(tx, ScriptOf(t, c.state), c.binding, i) && Matches(tx, ScriptOf(t, d.state), d.binding, i)
    requires Matches(tx, ScriptOf(t, c.state), c.binding, j)
    ensures Matches(tx, ScriptOf(t, d.state), d.binding, j)
  {
  }

  /** `after` is `before` with each claim's state tracked at its own output. */
  ghost predicate Placed(id: Bytes32, claims: seq<Claim>, placed: seq<nat>, before: Utxos, after: Utxos)
    requires |placed| == |claims| && forall k :: 0 <= k < |placed| ==> placed[k] < 0x1_0000_0000 && claims[k].Continue?
  {
    (forall k :: 0 <= k < |placed| ==>
       Outpoint(id, placed[k]) in after && after[Outpoint(id, placed[k])] == claims[k].state)
    && (forall op: Outpoint :: op.tx != id || op.index !in placed ==>
          (op in after <==> op in before) && (op in after ==> after[op] == before[op]))
  }

  lemma {:induction false} RunFirst(t: Templates, tx: Tx, c: Claim, rest: seq<Claim>, w: Work)
    ensures RunClaims(t, tx, [c] + rest, w) == RunClaims(t, tx, rest, RunClaim(t, tx, c, w))
  {
    RunClaimsConcat(t, tx, [c], rest, w);
    assert [c][..0] == [];
  }

  lemma {:induction false} GreedyClaims(t: Templates, tx: Tx, claims: seq<Claim>, slots: seq<nat>, w: Work)
    returns (placed: seq<nat>)
    requires Owed(t, tx, claims, slots) && Uniform(claims)
    requires forall k :: 0 <= k < |slots| ==> slots[k] !in w.used
    ensures Owed(t, tx, claims, placed)
    ensures forall k :: 0 <= k < |placed| ==> placed[k] !in w.used
    ensures RunClaims(t, tx, claims, w).used == w.used + placed
    ensures Placed(tx.id, claims, placed, w.utxos, RunClaims(t, tx, claims, w).utxos)
  {
    hide Matches, ScriptOf, RunClaims, RunClaim, Placed, Uniform;
    if claims == [] {
      placed := [];
      RunNothing(t, tx, w);
      assert w.used + placed == w.used;
    } else {
      var c, rest := claims[0], claims[1..];
      assert claims == [c] + rest;
      RunFirst(t, tx, c, rest, w);
      var i := ClaimStep(t, tx, c, slots[0], w);
      var left := Reassign(t, tx, claims, slots, i);
      var next := Work(w.used + [i], w.utxos[Outpoint(tx.id, i) := c.state]);
      var tail := GreedyClaims(t, tx, rest, left, next);
      placed := [i] + tail;
      assert placed[1..] == tail;
      assert i in next.used;
      Regroup(w.used, [i], tail);
      OwedFirst(t, tx, claims, placed);
      PlacedFirst(tx.id, claims, placed, w.utxos, next.utxos, RunClaims(t, tx, claims, w).utxos);
    }
  }

  lemma Regroup<T>(a: seq<T>, b: seq<T>, c: seq<T>)
    ensures (a + b) + c == a + (b + c)
  {
  }

  lemma OwedFirst(t: Templates, tx: Tx, claims: seq<Claim>, placed: seq<nat>)
    requires |placed| == |claims| > 0 && claims[0].Continue? && placed[0] < |tx.outputs|
    requires Matches(tx, ScriptOf(t, claims[0].state), claims[0].binding, placed[0])
    requires Owed(t, tx, claims[1..], placed[1..]) && forall k :: 1 <= k < |placed| ==> placed[k] != placed[0]
    ensures Owed(t, tx, claims, placed)
  {
    hide Matches, ScriptOf;
    forall k | 1 <= k < |claims| ensures claims[k] == claims[1..][k - 1] && placed[k] == placed[1..][k - 1] {}
    forall i, j | 0 <= i < j < |placed| ensures placed[i] != placed[j] {
      if i > 0 {
        assert placed[1..][i - 1] != placed[1..][j - 1];
      }
    }
  }

  lemma PlacedFirst(id: Bytes32, claims: seq<Claim>, placed: seq<nat>, before: Utxos, mid: Utxos, after: Utxos)
    requires |placed| == |claims| > 0 && Distinct(placed)
    requires forall k :: 0 <= k < |placed| ==> placed[k] < 0x1_0000_0000 && claims[k].Continue?
    requires mid == before[Outpoint(id, placed[0]) := claims[0].state]
    requires Placed(id, claims[1..], placed[1..], mid, after)
    ensures Placed(id, claims, placed, before, after)
  {
    forall k | 0 <= k < |placed|
      ensures Outpoint(id, placed[k]) in after && after[Outpoint(id, placed[k])] == claims[k].state
    {
      if k > 0 {
        assert placed[k] == placed[1..][k - 1] && claims[k] == claims[1..][k - 1];
      }
    }
  }

  /** A claim with a free matching output takes the first one. */
  lemma ClaimStep(t: Templates, tx: Tx, c: Claim, slot: nat, w: Work) returns (i: nat)
    requires c.Continue? && slot < |tx.outputs| && slot !in w.used && Matches(tx, ScriptOf(t, c.state), c.binding, slot)
    ensures i < |tx.outputs| && i !in w.used && Matches(tx, ScriptOf(t, c.state), c.binding, i)
    ensures RunClaim(t, tx, c, w) == Work(w.used + [i], w.utxos[Outpoint(tx.id, i) := c.state])
  {
    hide Matches, ScriptOf;
    i := FirstFree(tx, ScriptOf(t, c.state), c.binding, w.used, 0).value;
  }

  lemma RunNothing(t: Templates, tx: Tx, w: Work)
    ensures RunClaims(t, tx, [], w) == w && Placed(tx.id, [], [], w.utxos, w.utxos)
  {
  }

  /** When the first claim takes another claim's output, that claim gets the first one's. */
  lemma Reassign(t: Templates, tx: Tx, claims: seq<Claim>, slots: seq<nat>, i: nat) returns (left: seq<nat>)
    requires Owed(t, tx, claims, slots) && Uniform(claims) && claims != []
    requires i < |tx.outputs| && Matches(tx, ScriptOf(t, claims[0].state), claims[0].binding, i)
    ensures Owed(t, tx, claims[1..], left) && Uniform(claims[1..])
    ensures forall k :: 0 <= k < |left| ==> left[k] in slots && left[k] != i
  {
    hide Matches, ScriptOf;
    left := slots[1..];
    if i in left {
      var k :| 0 <= k < |left| && left[k] == i;
      SharedOutput(t, tx, claims[0], claims[1..][k], i, slots[0]);
      left := left[k := slots[0]];
    }
  }
}
