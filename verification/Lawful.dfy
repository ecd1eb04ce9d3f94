/** The gate, derived: a chain whose transactions the contracts allow passes the rebuild's readiness gate
    by itself, and in whatever gated order they are applied, every offer accepted comes with the name's
    own transfer. */
module Lawful {
  import opened Base
  import opened Pushes
  import opened States
  import opened Transition
  import opened Ingest
  import opened Undo
  import opened Claiming
  import opened Tiling
  import opened Verified
  import opened Confluence

  // ------------------------------------------------------------------ what chain and contracts enforce --

  /** An output of the transaction under one of our covenants. */
  predicate OurOutput(t: Templates, cov: Covenants, rt: RestTx, i: nat) {
    i < |rt.tx.outputs| && Ours(t, cov(Outpoint(rt.tx.id, i)))
  }

  /** Every output under one of our covenants is a continuation the spends ask for. */
  ghost predicate NoStrays(t: Templates, cov: Covenants, u: Utxos, rt: RestTx) {
    exists slots :: Owed(t, rt.tx, Claims(t, Spends(t, u, rt.tx)), slots)
                    && forall i: nat :: OurOutput(t, cov, rt, i) ==> i in slots
  }

  predicate Made(txs: seq<RestTx>, op: Outpoint) {
    exists rt :: rt in txs && rt.tx.id == op.tx && op.index < |rt.tx.outputs|
  }

  predicate SpentIn(txs: seq<RestTx>, op: Outpoint) {
    exists rt, x :: rt in txs && x in rt.tx.inputs && x.previous == op
  }

  /** Where it stands in the chain the transaction is allowed: its contracts are satisfied, it adds
      nothing under our covenants but what they ask for, and what it spends was made before it. */
  ghost predicate Allowed(t: Templates, cov: Covenants, seed: Reg, chain: seq<RestTx>, i: nat)
    requires i < |chain|
  {
    var (u, rt) := (UpTo(t, seed, chain, i), chain[i]);
    ContractValid(t, u, rt.tx) && NoStrays(t, cov, u, rt)
    && (forall x :: x in rt.tx.inputs && Ours(t, cov(x.previous)) ==>
        x.previous in seed.utxos || Made(chain[..i], x.previous))
    && forall x, y :: x in rt.tx.inputs && y in chain[i..] ==> x.previous.tx != y.tx.id
  }

  ghost predicate LawfulChain(t: Templates, cov: Covenants, seed: Reg, chain: seq<RestTx>) {
    forall i :: 0 <= i < |chain| ==> Allowed(t, cov, seed, chain, i)
  }

  /** What is tracked before the `n`-th transaction of an order. */
  function UpTo(t: Templates, seed: Reg, order: seq<RestTx>, n: nat): Utxos
    requires n <= |order|
  {
    Replay(t, seed, Plain(order[..n])).utxos
  }

  lemma UpToNext(t: Templates, seed: Reg, order: seq<RestTx>, n: nat)
    requires n < |order|
    ensures UpTo(t, seed, order, n + 1) == ApplyUtxos(t, UpTo(t, seed, order, n), order[n].tx)
  {
    hide ApplyUtxos, UndoOf, AcceptedProfile, WithProfile;
    assert order[..n + 1][..n] == order[..n];
    assert Plain(order[..n + 1])[..n] == Plain(order[..n]);
  }

  // ------------------------------------------------------------------ our outputs are tracked --

  lemma SameMembers(a: seq<nat>, b: seq<nat>)
    requires Distinct(a) && Distinct(b) && |a| == |b| && forall k :: k in a ==> k in b
    ensures forall k :: k in b ==> k in a
  {
    DistinctSize(a);
    DistinctSize(b);
    assert Elements(b) == Elements(a) + (Elements(b) - Elements(a));
    assert |Elements(b)| == |Elements(a)| + |Elements(b) - Elements(a)|;
    assert forall k :: k in b ==> k in Elements(b);
  }

  /** A claimed output is under one of our covenants. */
  lemma PlacedAreOurs(t: Templates, cov: Covenants, rt: RestTx, claims: seq<Claim>, placed: seq<nat>)
    requires t.registryId.Some? && Honest(t, cov, rt) && BindingsKnown(rt.tx) && Owed(t, rt.tx, claims, placed)
    requires forall c :: c in claims ==> ProperClaim(t, rt.tx, c)
    ensures forall i :: i in placed ==> OurOutput(t, cov, rt, i)
  {
    hide ScriptOf, BindingsKnown;
    forall i | i in placed ensures OurOutput(t, cov, rt, i) {
      var k :| 0 <= k < |placed| && placed[k] == i;
      assert claims[k] in claims;
    }
  }

  /** Every output under one of our covenants that an allowed transaction leaves is tracked after it. */
  lemma OursAreTracked(t: Templates, cov: Covenants, u: Utxos, rt: RestTx)
    requires ManifestOk(t) && t.registryId.Some? && Honest(t, cov, rt) && Fresh(u, rt.tx.id)
    requires ContractValid(t, u, rt.tx) && NoStrays(t, cov, u, rt)
    ensures forall i: nat :: OurOutput(t, cov, rt, i) ==> Outpoint(rt.tx.id, i) in ApplyUtxos(t, u, rt.tx)
  {
    hide ApplyUtxos, Claims, Spends, ContractValid, ManifestOk, ProperClaim, Matches, ScriptOf, Owed, Honest,
        BindingsKnown, Fresh;
    var claims := Claims(t, Spends(t, u, rt.tx));
    var placed := ValidEffect(t, u, rt.tx);
    var slots :| Owed(t, rt.tx, claims, slots) && forall i: nat :: OurOutput(t, cov, rt, i) ==> i in slots;
    ClaimsProper(t, u, rt.tx);
    if BindingsKnown(rt.tx) {
      PlacedAreOurs(t, cov, rt, claims, placed);
      OwedSizes(t, rt.tx, claims, placed);
      OwedSizes(t, rt.tx, claims, slots);
      SameMembers(placed, slots);
    } else {
      NoneIsOurs(t, cov, rt);
    }
  }

  lemma OwedSizes(t: Templates, tx: Tx, claims: seq<Claim>, slots: seq<nat>)
    requires Owed(t, tx, claims, slots)
    ensures |slots| == |claims| && Distinct(slots)
  {
  }

  lemma NoneIsOurs(t: Templates, cov: Covenants, rt: RestTx)
    requires Honest(t, cov, rt) && !BindingsKnown(rt.tx)
    ensures forall i: nat :: !OurOutput(t, cov, rt, i)
  {
    assert forall i :: 0 <= i < |rt.tx.outputs| ==> rt.tx.outputs[i] in rt.tx.outputs;
  }

  /** Every unspent output under our covenants that the seed had or the transactions made is tracked. */
  ghost predicate AllTracked(t: Templates, cov: Covenants, seed: Reg, txs: seq<RestTx>, u: Utxos) {
    forall op :: Ours(t, cov(op)) && (op in seed.utxos || Made(txs, op)) && !SpentIn(txs, op) ==> op in u
  }

  lemma TrackedNext(t: Templates, cov: Covenants, seed: Reg, txs: seq<RestTx>, rt: RestTx, u: Utxos)
    requires ManifestOk(t) && t.registryId.Some? && Honest(t, cov, rt) && Fresh(u, rt.tx.id)
    requires ContractValid(t, u, rt.tx) && NoStrays(t, cov, u, rt) && AllTracked(t, cov, seed, txs, u)
    ensures AllTracked(t, cov, seed, txs + [rt], ApplyUtxos(t, u, rt.tx))
  {
    hide ApplyUtxos, Spends, ContractValid, ManifestOk, NoStrays, Honest;
    OursAreTracked(t, cov, u, rt);
    ApplyFrame(t, u, rt.tx);
    SpentByInputs(t, u, rt.tx);
    var all, after := txs + [rt], ApplyUtxos(t, u, rt.tx);
    assert rt in all && forall a :: a in txs ==> a in all;
    forall op | Ours(t, cov(op)) && (op in seed.utxos || Made(all, op)) && !SpentIn(all, op) ensures op in after {
      if op.tx == rt.tx.id && op.index < |rt.tx.outputs| {
        assert OurOutput(t, cov, rt, op.index);
      } else {
        assert !SpentIn(txs, op) && op !in SpentOutpoints(Spends(t, u, rt.tx));
        assert Made(all, op) ==> Made(txs, op);
      }
    }
  }

  lemma SpentByInputs(t: Templates, u: Utxos, tx: Tx)
    ensures forall op :: op in SpentOutpoints(Spends(t, u, tx)) ==> exists x :: x in tx.inputs && x.previous == op
  {
    hide SpendsUpTo;
    forall s | s in Spends(t, u, tx) ensures exists x :: x in tx.inputs && x.previous == s.op {
      assert tx.inputs[s.input] in tx.inputs;
    }
  }

  // ------------------------------------------------------------------ the chain's own gate --

  /** What consensus gives two transactions of one chain, seen from the `n`-th. */
  lemma NotSpentBefore(t: Templates, cov: Covenants, u: Utxos, chain: seq<RestTx>, n: nat, x: TxInput)
    requires Compatible(t, cov, u, chain) && n < |chain| && x in chain[n].tx.inputs
    ensures !SpentIn(chain[..n], x.previous)
  {
    hide Honest;
    forall rt | rt in chain[..n] ensures rt in chain && rt != chain[n] && Apart(rt.tx, chain[n].tx) {
      assert rt in chain;
    }
  }

  /** Along an allowed chain our outputs stay tracked, and with that every transaction is ready. */
  lemma {:induction false} LawfulUpTo(t: Templates, cov: Covenants, seed: Reg, chain: seq<RestTx>, n: nat)
    requires ManifestOk(t) && t.registryId.Some? && Coloured(t, cov, seed.utxos)
    requires Compatible(t, cov, seed.utxos, chain) && LawfulChain(t, cov, seed, chain) && n <= |chain|
    ensures var u := UpTo(t, seed, chain, n);
            AllTracked(t, cov, seed, chain[..n], u) && Coloured(t, cov, u)
            && (n < |chain| ==> Fresh(u, chain[n].tx.id) && Ready(t, u, chain[n]) && CoSpent(Spends(t, u, chain[n].tx)))
  {
    hide ManifestOk, Coloured, Compatible, Allowed, UpTo, AllTracked, Ready, CoSpent, Spends, Fresh;
    if n == 0 {
      NothingYet(t, cov, seed, chain);
    } else {
      LawfulUpTo(t, cov, seed, chain, n - 1);
      assert chain[..n] == chain[..n - 1] + [chain[n - 1]];
      LawfulNext(t, cov, seed, chain, n - 1);
      UpToNext(t, seed, chain, n - 1);
    }
    if n < |chain| {
      AllowedIsReady(t, cov, seed, chain, n);
    }
  }

  lemma NothingYet(t: Templates, cov: Covenants, seed: Reg, chain: seq<RestTx>)
    ensures UpTo(t, seed, chain, 0) == seed.utxos && AllTracked(t, cov, seed, chain[..0], seed.utxos)
  {
  }

  lemma LawfulNext(t: Templates, cov: Covenants, seed: Reg, chain: seq<RestTx>, n: nat)
    requires ManifestOk(t) && t.registryId.Some? && Compatible(t, cov, seed.utxos, chain) && n < |chain|
    requires Allowed(t, cov, seed, chain, n)
    requires var u := UpTo(t, seed, chain, n);
             AllTracked(t, cov, seed, chain[..n], u) && Coloured(t, cov, u)
             && Fresh(u, chain[n].tx.id) && CoSpent(Spends(t, u, chain[n].tx))
    ensures var after := ApplyUtxos(t, UpTo(t, seed, chain, n), chain[n].tx);
            AllTracked(t, cov, seed, chain[..n] + [chain[n]], after) && Coloured(t, cov, after)
  {
    hide ManifestOk, Coloured, UpTo, AllTracked, CoSpent, Spends, Fresh, ApplyUtxos, ContractValid, NoStrays, Honest,
        Apart;
    var u, rt := UpTo(t, seed, chain, n), chain[n];
    assert rt in chain;
    TrackedNext(t, cov, seed, chain[..n], rt, u);
    ApplyKeepsColours(t, cov, u, rt);
  }

  lemma AllowedIsReady(t: Templates, cov: Covenants, seed: Reg, chain: seq<RestTx>, n: nat)
    requires ManifestOk(t) && Compatible(t, cov, seed.utxos, chain) && n < |chain| && Allowed(t, cov, seed, chain, n)
    requires AllTracked(t, cov, seed, chain[..n], UpTo(t, seed, chain, n))
    ensures var u := UpTo(t, seed, chain, n);
            Fresh(u, chain[n].tx.id) && Ready(t, u, chain[n]) && CoSpent(Spends(t, u, chain[n].tx))
  {
    hide ManifestOk, Spends, NoStrays, Splits, Merges, Continues, Replay;
    var u, rt := UpTo(t, seed, chain, n), chain[n];
    assert rt in chain;
    forall k | 0 <= k < |rt.tx.inputs| && k < |rt.inputCovenants| && Ours(t, rt.inputCovenants[k])
      ensures rt.tx.inputs[k].previous in u
    {
      assert rt.tx.inputs[k] in rt.tx.inputs;
      NotSpentBefore(t, cov, seed.utxos, chain, n, rt.tx.inputs[k]);
    }
    FreshAt(t, cov, seed, chain, n);
  }

  lemma FreshAt(t: Templates, cov: Covenants, seed: Reg, chain: seq<RestTx>, n: nat)
    requires Compatible(t, cov, seed.utxos, chain) && n < |chain|
    ensures Fresh(UpTo(t, seed, chain, n), chain[n].tx.id)
  {
    hide Replay, NewIds;
    CompatibleIdsAreNew(t, cov, seed, chain, chain);
    var before, rest := Plain(chain[..n]), Plain(chain[n..]);
    assert Plain(chain) == before + rest;
    NewIdsAfter(t, seed, before, rest);
    FirstIsFresh(Replay(t, seed, before), rest);
  }

  lemma FirstIsFresh(r: Reg, txs: seq<Tx>)
    requires NewIds(r, txs) && txs != []
    ensures Fresh(r.utxos, txs[0].id)
  {
    assert txs[0] in txs;
  }

  /** An allowed chain passes the gate and accepts no offer without the name's own transfer. */
  lemma LawfulChainIsGated(t: Templates, cov: Covenants, seed: Reg, chain: seq<RestTx>)
    requires ManifestOk(t) && t.registryId.Some? && Coloured(t, cov, seed.utxos)
    requires Compatible(t, cov, seed.utxos, chain) && LawfulChain(t, cov, seed, chain)
    ensures GateRespected(t, seed, chain) && AcceptsCoSpent(t, seed, chain)
  {
    hide ManifestOk, Coloured, Compatible, LawfulChain, Ready, CoSpent, Spends, Fresh, Replay, AllTracked;
    forall i | 0 <= i < |chain|
      ensures Ready(t, Replay(t, seed, Plain(chain[..i])).utxos, chain[i])
              && CoSpent(Spends(t, Replay(t, seed, Plain(chain[..i])).utxos, chain[i].tx))
    {
      LawfulUpTo(t, cov, seed, chain, i);
    }
  }

  // ------------------------------------------------------------------ one transaction in two orders --

  lemma SubCompatible(t: Templates, cov: Covenants, c: Utxos, chain: seq<RestTx>, s: seq<RestTx>)
    requires Compatible(t, cov, c, chain) && Distinct(s) && forall rt :: rt in s ==> rt in chain
    ensures Compatible(t, cov, c, s)
  {
    hide Honest, Apart;
  }

  lemma {:induction false} RunKeepsCompatible(t: Templates, cov: Covenants, c: Utxos, first: seq<RestTx>,
                                              rest: seq<RestTx>)
    requires ManifestOk(t) && t.registryId.Some? && OursOnly(t, cov, c) && Compatible(t, cov, c, first + rest)
    ensures OursOnly(t, cov, CoreRun(t, c, first)) && Compatible(t, cov, CoreRun(t, c, first), rest)
    decreases |first|
  {
    hide CoreStep, Compatible, OursOnly, ManifestOk;
    if first == [] {
      assert first + rest == rest;
    } else {
      assert first + rest == [first[0]] + (first[1..] + rest);
      StepKeepsCompatible(t, cov, c, first[0], first[1..] + rest);
      RunKeepsCompatible(t, cov, CoreStep(t, c, first[0].tx), first[1..], rest);
    }
  }

  /** Once ready, a transaction stays ready and spends the same, whatever is applied before it. */
  lemma {:induction false} ReadyStays(t: Templates, cov: Covenants, c: Utxos, between: seq<RestTx>, x: RestTx)
    requires ManifestOk(t) && t.registryId.Some? && OursOnly(t, cov, c) && Compatible(t, cov, c, between + [x])
        && Ready(t, c, x)
    ensures Ready(t, CoreRun(t, c, between), x) && Spends(t, CoreRun(t, c, between), x.tx) == Spends(t, c, x.tx)
    decreases |between|
  {
    hide CoreStep, Compatible, OursOnly, ManifestOk, Ready, Spends;
    if between != [] {
      var y, rest := between[0], between[1..];
      assert between + [x] == [y] + (rest + [x]);
      NextStillReady(t, cov, c, y, x, rest);
      StepKeepsCompatible(t, cov, c, y, rest + [x]);
      ReadyStays(t, cov, CoreStep(t, c, y.tx), rest, x);
    }
  }

  lemma NextStillReady(t: Templates, cov: Covenants, c: Utxos, y: RestTx, x: RestTx, rest: seq<RestTx>)
    requires ManifestOk(t) && t.registryId.Some? && OursOnly(t, cov, c)
    requires Compatible(t, cov, c, [y] + (rest + [x])) && Ready(t, c, x)
    ensures Ready(t, CoreStep(t, c, y.tx), x) && Spends(t, CoreStep(t, c, y.tx), x.tx) == Spends(t, c, x.tx)
  {
    hide CoreStep, OursOnly, ManifestOk, Ready, Spends, Honest, Apart;
    var all := [y] + (rest + [x]);
    assert all[0] == y && all[|all| - 1] == x;
    assert x in all && y in all && x != y;
    StillReady(t, cov, c, y, x);
  }

  lemma {:induction false} GatedPrefix(t: Templates, c: Utxos, order: seq<RestTx>, n: nat)
    requires Gated(t, c, order) && n <= |order|
    ensures Gated(t, c, order[..n]) && (n < |order| ==> Ready(t, CoreRun(t, c, order[..n]), order[n]))
    decreases n
  {
    hide CoreStep, Ready;
    if n > 0 {
      FirstOfPrefix(order, n);
      RunFirstStep(t, c, order[0], order[1..][..n - 1]);
      GatedPrefix(t, CoreStep(t, c, order[0].tx), order[1..], n - 1);
    }
  }

  /** Taking one transaction out of a gated chain to its front leaves another's spends as they were. */
  lemma SpendsAfterMove(t: Templates, cov: Covenants, c: Utxos, chain: seq<RestTx>, k: nat, i: nat)
    requires ManifestOk(t) && t.registryId.Some? && OursOnly(t, cov, c) && Compatible(t, cov, c, chain)
        && Gated(t, c, chain)
    requires k < |chain| && i < |chain| && k != i && Ready(t, c, chain[k])
    ensures var rest := chain[..k] + chain[k + 1..];
            var j := if k < i then i - 1 else i;
            rest[j] == chain[i]
            && Spends(t, CoreRun(t, CoreStep(t, c, chain[k].tx), rest[..j]), chain[i].tx)
               == Spends(t, CoreRun(t, c, chain[..i]), chain[i].tx)
  {
    hide CoreStep, Compatible, OursOnly, ManifestOk, Ready, Spends, Gated, CoreRun;
    var y, rest := chain[k], chain[..k] + chain[k + 1..];
    GatedPrefix(t, c, chain, i);
    if k < i {
      PrefixIsPart(t, cov, c, chain, i);
      SubCompatible(t, cov, c, chain, chain[..i]);
      MoveFront(t, cov, c, chain[..i], k);
      assert MovedFirst(chain[..i], k) == [y] + rest[..i - 1];
      RunFirstStep(t, c, y, rest[..i - 1]);
    } else {
      assert rest[..i] == chain[..i];
      MovedOver(t, cov, c, chain, k, i);
    }
  }

  lemma PrefixIsPart(t: Templates, cov: Covenants, c: Utxos, chain: seq<RestTx>, n: nat)
    requires Compatible(t, cov, c, chain) && n <= |chain|
    ensures Distinct(chain[..n]) && forall rt :: rt in chain[..n] ==> rt in chain
  {
  }

  /** The case of a later transaction moved in front of the prefix. */
  lemma MovedOver(t: Templates, cov: Covenants, c: Utxos, chain: seq<RestTx>, k: nat, i: nat)
    requires ManifestOk(t) && t.registryId.Some? && OursOnly(t, cov, c) && Compatible(t, cov, c, chain)
        && Gated(t, c, chain)
    requires i < k < |chain| && Ready(t, c, chain[k])
    ensures Spends(t, CoreRun(t, CoreStep(t, c, chain[k].tx), chain[..i]), chain[i].tx)
            == Spends(t, CoreRun(t, c, chain[..i]), chain[i].tx)
  {
    hide CoreStep, Compatible, OursOnly, ManifestOk, Ready, Spends, Gated, CoreRun;
    var y, x, before := chain[k], chain[i], chain[..i];
    var here := CoreRun(t, c, before);
    ThreeCompatible(t, cov, c, chain, k, i);
    GatedPrefix(t, c, chain, i);
    ReadyStays(t, cov, c, before, y);
    CoreRunAppend(t, c, before, y);
    MoveFront(t, cov, c, before + [y], i);
    assert MovedFirst(before + [y], i) == [y] + before;
    RunFirstStep(t, c, y, before);
    RunKeepsCompatible(t, cov, c, before, [y] + ([] + [x]));
    NextStillReady(t, cov, here, y, x, []);
  }

  lemma ThreeCompatible(t: Templates, cov: Covenants, c: Utxos, chain: seq<RestTx>, k: nat, i: nat)
    requires Compatible(t, cov, c, chain) && i < k < |chain|
    ensures Compatible(t, cov, c, chain[..i] + [chain[k]])
    ensures Compatible(t, cov, c, chain[..i] + ([chain[k]] + ([] + [chain[i]])))
  {
    hide Honest, Apart;
    var a, b := chain[..i] + [chain[k]], chain[..i] + ([chain[k]] + ([] + [chain[i]]));
    assert forall j :: 0 <= j < |a| ==> a[j] == if j < i then chain[j] else chain[k];
    assert forall j :: 0 <= j < |b| ==> b[j] == if j < i then chain[j] else if j == i then chain[k] else chain[i];
    SubCompatible(t, cov, c, chain, a);
    SubCompatible(t, cov, c, chain, b);
  }

  /** The last transaction of a gated order spends what it spends in any gated chain that has it. */
  lemma {:induction false} SpendsAgree(t: Templates, cov: Covenants, c: Utxos, order: seq<RestTx>, chain: seq<RestTx>,
                                       i: nat)
    requires ManifestOk(t) && t.registryId.Some? && OursOnly(t, cov, c) && Compatible(t, cov, c, chain)
    requires Distinct(order) && order != [] && (forall rt :: rt in order ==> rt in chain)
    requires Gated(t, c, order) && Gated(t, c, chain) && i < |chain| && chain[i] == order[|order| - 1]
    ensures Spends(t, CoreRun(t, c, order[..|order| - 1]), chain[i].tx)
        == Spends(t, CoreRun(t, c, chain[..i]), chain[i].tx)
    decreases |order|
  {
    hide CoreStep, Compatible, OursOnly, ManifestOk, Ready, Spends, Gated, CoreRun;
    var n, y := |order| - 1, order[0];
    assert y in order && order == [y] + order[1..];
    RunFirstStep(t, c, y, order[1..]);
    if n == 0 {
      PrefixIsPart(t, cov, c, chain, i + 1);
      SubCompatible(t, cov, c, chain, chain[..i + 1]);
      assert chain[..i + 1] == chain[..i] + [y];
      ReadyStays(t, cov, c, chain[..i], y);
      assert order[..n] == [];
      RunNone(t, c);
    } else {
      var k :| 0 <= k < |chain| && chain[k] == y;
      var rest, j := chain[..k] + chain[k + 1..], if k < i then i - 1 else i;
      assert y != order[n];
      SpendsAfterMove(t, cov, c, chain, k, i);
      RestOfChain(t, cov, c, order, chain, k);
      FirstOfPrefix(order, n);
      RunFirstStep(t, c, y, order[1..][..n - 1]);
      SpendsAgree(t, cov, CoreStep(t, c, y.tx), order[1..], rest, j);
    }
  }

  lemma RunNone(t: Templates, c: Utxos)
    ensures CoreRun(t, c, []) == c
  {
  }

  /** What is left of the chain once the order's first transaction is applied. */
  lemma RestOfChain(t: Templates, cov: Covenants, c: Utxos, order: seq<RestTx>, chain: seq<RestTx>, k: nat)
    requires ManifestOk(t) && t.registryId.Some? && OursOnly(t, cov, c) && Compatible(t, cov, c, chain)
        && Gated(t, c, chain)
    requires Distinct(order) && order != [] && (forall rt :: rt in order ==> rt in chain)
    requires k < |chain| && chain[k] == order[0] && Ready(t, c, chain[k])
    ensures var (rest, next) := (chain[..k] + chain[k + 1..], CoreStep(t, c, chain[k].tx));
            OursOnly(t, cov, next) && Compatible(t, cov, next, rest) && Gated(t, next, rest)
            && Distinct(order[1..]) && forall rt :: rt in order[1..] ==> rt in rest
  {
    hide CoreStep, OursOnly, ManifestOk, Ready, Gated, CoreRun, Honest, Apart;
    MoveFront(t, cov, c, chain, k);
    MovedIsCompatible(t, cov, c, chain, k);
    RunFirstStep(t, c, chain[k], chain[..k] + chain[k + 1..]);
    StepKeepsCompatible(t, cov, c, chain[k], chain[..k] + chain[k + 1..]);
    CoversRest(map[], order, chain, k);
  }

  // ------------------------------------------------------------------ offers --

  /** Claims track no offers. */
  lemma {:induction false} ClaimsMakeNoOffers(t: Templates, tx: Tx, claims: seq<Claim>, w: Work)
    requires forall c :: c in claims ==> ProperClaim(t, tx, c)
    ensures var after := RunClaims(t, tx, claims, w).utxos;
            w.utxos.Keys <= after.Keys
            && forall op :: op in after && after[op].Offer? ==> op in w.utxos && w.utxos[op] == after[op]
  {
    hide ScriptOf;
    if claims != [] {
      assert claims[|claims| - 1] in claims;
      ClaimsMakeNoOffers(t, tx, claims[..|claims| - 1], w);
    }
  }

  /** A tracked offer was tracked before or is the one the transaction announced. */
  lemma OffersOf(t: Templates, u: Utxos, tx: Tx)
    ensures var after := ApplyUtxos(t, u, tx);
            (forall op :: op in after && after[op].Offer? ==>
             op in WithOffer(t, u, tx) && WithOffer(t, u, tx)[op] == after[op])
            && forall op :: op in WithOffer(t, u, tx) && op !in SpentOutpoints(Spends(t, u, tx)) ==> op in after
  {
    hide RunClaims, Claims, Spends, ProperClaim, WithOffer;
    ClaimsProper(t, u, tx);
    ClaimsMakeNoOffers(t, tx, Claims(t, Spends(t, u, tx)), Work([], WithOffer(t, u, tx)));
  }

  /** The offer is in the seed or was announced by one of the transactions. */
  ghost predicate Announced(t: Templates, seed: Reg, txs: seq<RestTx>, op: Outpoint, o: OfferState) {
    (op in seed.utxos && seed.utxos[op] == Offer(o))
    || exists rt :: rt in txs && rt.tx.id == op.tx && NewOffer(t, rt.tx) == Some((op.index, o))
  }

  lemma {:induction false} TrackedWasAnnounced(t: Templates, seed: Reg, order: seq<RestTx>, n: nat, op: Outpoint)
    requires n <= |order| && op in UpTo(t, seed, order, n) && UpTo(t, seed, order, n)[op].Offer?
    ensures Announced(t, seed, order[..n], op, UpTo(t, seed, order, n)[op].offer)
  {
    hide UpTo, ApplyUtxos, Spends, NewOffer;
    if n == 0 {
      UpToStart(t, seed, order);
    } else {
      var u := UpTo(t, seed, order, n - 1);
      UpToNext(t, seed, order, n - 1);
      OffersOf(t, u, order[n - 1].tx);
      assert order[n - 1] in order[..n] && forall rt :: rt in order[..n - 1] ==> rt in order[..n];
      if op in u && u[op] == UpTo(t, seed, order, n)[op] {
        TrackedWasAnnounced(t, seed, order, n - 1, op);
      }
    }
  }

  lemma UpToStart(t: Templates, seed: Reg, order: seq<RestTx>)
    ensures UpTo(t, seed, order, 0) == seed.utxos
  {
  }

  /** What is tracked and neither spent nor made again stays. */
  lemma StaysTracked(t: Templates, u: Utxos, tx: Tx, op: Outpoint)
    requires op in u && Fresh(u, tx.id) && forall x :: x in tx.inputs ==> x.previous != op
    ensures op in ApplyUtxos(t, u, tx) && ApplyUtxos(t, u, tx)[op] == u[op]
  {
    hide ApplyUtxos, Spends;
    ApplyFrame(t, u, tx);
    SpentByInputs(t, u, tx);
  }

  /** An announced offer is tracked right after its transaction. */
  lemma AnnouncedIsTracked(t: Templates, cov: Covenants, u: Utxos, rt: RestTx, op: Outpoint, o: OfferState)
    requires t.registryId.Some? && Honest(t, cov, rt) && Fresh(u, rt.tx.id) && Coloured(t, cov, ApplyUtxos(t, u, rt.tx))
    requires op.tx == rt.tx.id && NewOffer(t, rt.tx) == Some((op.index, o))
    ensures op in ApplyUtxos(t, u, rt.tx) && ApplyUtxos(t, u, rt.tx)[op] == Offer(o)
  {
    hide ApplyUtxos, Spends, NewOffer, BindingsKnown;
    ApplyFrame(t, u, rt.tx);
    OffersOf(t, u, rt.tx);
    assert op == Outpoint(rt.tx.id, op.index) && cov(op) == None;
    assert op in WithOffer(t, u, rt.tx) && WithOffer(t, u, rt.tx)[op] == Offer(o);
  }

  /** Along an allowed chain, an announced offer is tracked until it is spent. */
  lemma {:induction false} AnnouncedUntilSpent(t: Templates, cov: Covenants, seed: Reg, chain: seq<RestTx>, n: nat,
                                               op: Outpoint, o: OfferState)
    requires ManifestOk(t) && t.registryId.Some? && Coloured(t, cov, seed.utxos)
    requires Compatible(t, cov, seed.utxos, chain) && LawfulChain(t, cov, seed, chain) && n <= |chain|
    requires Announced(t, seed, chain[..n], op, o) && !SpentIn(chain[..n], op)
    ensures op in UpTo(t, seed, chain, n) && UpTo(t, seed, chain, n)[op] == Offer(o)
  {
    hide ManifestOk, Coloured, Compatible, LawfulChain, UpTo, ApplyUtxos, NewOffer, Ready, CoSpent, Spends, Fresh,
        AllTracked, Honest;
    if n == 0 {
      UpToStart(t, seed, chain);
    } else {
      var before, rt := chain[..n - 1], chain[n - 1];
      var u := UpTo(t, seed, chain, n - 1);
      assert chain[..n] == before + [rt];
      UpToNext(t, seed, chain, n - 1);
      LawfulUpTo(t, cov, seed, chain, n - 1);
      LawfulUpTo(t, cov, seed, chain, n);
      assert rt in chain[..n] && forall a :: a in before ==> a in chain[..n];
      if Announced(t, seed, before, op, o) {
        AnnouncedUntilSpent(t, cov, seed, chain, n - 1, op, o);
        StaysTracked(t, u, rt.tx, op);
      } else {
        HonestAt(t, cov, seed, chain, n - 1);
        AnnouncedIsTracked(t, cov, u, rt, op, o);
      }
    }
  }

  lemma HonestAt(t: Templates, cov: Covenants, seed: Reg, chain: seq<RestTx>, n: nat)
    requires Compatible(t, cov, seed.utxos, chain) && n < |chain|
    ensures Honest(t, cov, chain[n])
  {
    hide Honest, Apart;
    assert chain[n] in chain;
  }

  // ------------------------------------------------------------------ accepts in any gated order --

  lemma {:induction false} SpendsFrom(t: Templates, u: Utxos, tx: Tx, n: nat)
    requires n <= |tx.inputs|
    ensures forall s :: s in SpendsUpTo(t, u, tx, n) <==> exists k :: 0 <= k < n && SpendAt(t, u, tx, k) == Some(s)
  {
    hide SpendAt;
    if n > 0 {
      SpendsFrom(t, u, tx, n - 1);
    }
  }

  /** A spend of a state that is tracked elsewhere too is a spend there. */
  lemma SpendsElsewhere(t: Templates, u: Utxos, v: Utxos, tx: Tx, s: Spend)
    requires s in Spends(t, u, tx) && s.op in v && v[s.op] == s.tracked
    ensures s in Spends(t, v, tx)
  {
    hide SpendsUpTo, SignatureOf, EntryOf;
    SpendsFrom(t, u, tx, |tx.inputs|);
    SpendsFrom(t, v, tx, |tx.inputs|);
    var k :| 0 <= k < |tx.inputs| && SpendAt(t, u, tx, k) == Some(s);
    assert SpendAt(t, v, tx, k) == Some(s);
  }

  /** The same gaps, names and shards spent, and every accepted offer accepted in both: the name's own
      transfer is there in both. */
  lemma CoSpentElsewhere(t: Templates, u: Utxos, v: Utxos, tx: Tx)
    requires ManifestOk(t) && Spends(t, Core(u), tx) == Spends(t, Core(v), tx) && CoSpent(Spends(t, v, tx))
    requires forall s :: s in Spends(t, u, tx) && s.tracked.Offer? ==> s in Spends(t, v, tx)
    ensures CoSpent(Spends(t, u, tx))
  {
    hide SpendsUpTo, Has, ManifestOk, NonOffers, Core;
    EntriesMatch(t, u, tx);
    EntriesMatch(t, v, tx);
    CoreSpends(t, u, tx, |tx.inputs|);
    CoreSpends(t, v, tx, |tx.inputs|);
    HasInNonOffers(Spends(t, u, tx), NameTransfer);
    HasInNonOffers(Spends(t, v, tx), NameTransfer);
  }

  /** An offer the transaction spends in some order is tracked where it stands in the chain. */
  lemma OfferInChain(t: Templates, cov: Covenants, seed: Reg, order: seq<RestTx>, n: nat, chain: seq<RestTx>, i: nat,
                     s: Spend)
    requires ManifestOk(t) && t.registryId.Some? && Coloured(t, cov, seed.utxos)
    requires Compatible(t, cov, seed.utxos, chain) && LawfulChain(t, cov, seed, chain)
    requires (forall rt :: rt in order ==> rt in chain) && n < |order| && i < |chain| && chain[i] == order[n]
    requires s in Spends(t, UpTo(t, seed, order, n), order[n].tx) && s.tracked.Offer?
    ensures s in Spends(t, UpTo(t, seed, chain, i), order[n].tx)
  {
    hide ManifestOk, Coloured, Compatible, UpTo, SpendsUpTo, NewOffer, ContractValid, NoStrays;
    var x, op, o := chain[i], s.op, s.tracked.offer;
    assert x.tx.inputs[s.input] in x.tx.inputs;
    TrackedWasAnnounced(t, seed, order, n, op);
    if !(op in seed.utxos && seed.utxos[op] == Offer(o)) {
      var rt :| rt in order[..n] && rt.tx.id == op.tx && NewOffer(t, rt.tx) == Some((op.index, o));
      assert rt in order && Allowed(t, cov, seed, chain, i);
      assert rt in chain[..i] + chain[i..] by { assert chain[..i] + chain[i..] == chain; }
    }
    NotSpentBefore(t, cov, seed.utxos, chain, i, x.tx.inputs[s.input]);
    AnnouncedUntilSpent(t, cov, seed, chain, i, op, o);
    SpendsElsewhere(t, UpTo(t, seed, order, n), UpTo(t, seed, chain, i), x.tx, s);
  }

  /** Some of an allowed chain's transactions in a gated order. */
  ghost predicate Rebuilds(t: Templates, cov: Covenants, seed: Reg, order: seq<RestTx>, chain: seq<RestTx>) {
    ManifestOk(t) && t.registryId.Some? && Coloured(t, cov, seed.utxos)
    && Compatible(t, cov, seed.utxos, chain) && LawfulChain(t, cov, seed, chain)
    && Distinct(order) && (forall rt :: rt in order ==> rt in chain) && GateRespected(t, seed, order)
  }

  lemma ReadyInCore(t: Templates, cov: Covenants, u: Utxos, rt: RestTx)
    requires Honest(t, cov, rt) && Coloured(t, cov, u) && Ready(t, u, rt)
    ensures Ready(t, Core(u), rt)
  {
  }

  lemma ColoursOfCore(t: Templates, cov: Covenants, u: Utxos)
    requires Coloured(t, cov, u)
    ensures OursOnly(t, cov, Core(u))
  {
  }

  /** The prefix of an order on the core, when its accepts are known to be co-spent. */
  lemma PrefixOfCore(t: Templates, cov: Covenants, seed: Reg, order: seq<RestTx>, chain: seq<RestTx>, n: nat)
    requires Rebuilds(t, cov, seed, order, chain) && n <= |order|
    requires forall j {:trigger order[j]} :: 0 <= j < n ==> CoSpent(Spends(t, UpTo(t, seed, order, j), order[j].tx))
    ensures var c, u := Core(seed.utxos), UpTo(t, seed, order, n);
            CoreRun(t, c, order[..n]) == Core(u) && Coloured(t, cov, u) && Gated(t, c, order[..n])
            && (n < |order| ==> Gated(t, c, order[..n + 1]))
  {
    hide ManifestOk, Coloured, Replay, CoSpent, Spends, Ready, Core, LawfulChain, CoreRun, Gated, Honest, Compatible;
    PrefixIsRun(t, cov, seed, order, chain, n);
    RunOfCore(t, cov, seed, order[..n]);
    if n < |order| {
      HonestIn(t, cov, seed, chain, order[n]) by { assert order[n] in order; }
      ReadyInCore(t, cov, UpTo(t, seed, order, n), order[n]);
      CoreRunAppend(t, Core(seed.utxos), order[..n], order[n]);
      assert order[..n + 1] == order[..n] + [order[n]];
    }
  }

  lemma HonestIn(t: Templates, cov: Covenants, seed: Reg, chain: seq<RestTx>, rt: RestTx)
    requires Compatible(t, cov, seed.utxos, chain) && rt in chain
    ensures Honest(t, cov, rt)
  {
    hide Honest, Apart;
  }

  lemma PrefixIsRun(t: Templates, cov: Covenants, seed: Reg, order: seq<RestTx>, chain: seq<RestTx>, n: nat)
    requires Rebuilds(t, cov, seed, order, chain) && n <= |order|
    requires forall j {:trigger order[j]} :: 0 <= j < n ==> CoSpent(Spends(t, UpTo(t, seed, order, j), order[j].tx))
    ensures AcceptsCoSpent(t, seed, order[..n]) && GateRespected(t, seed, order[..n])
    ensures NewIds(seed, Plain(order[..n])) && forall rt :: rt in order[..n] ==> Honest(t, cov, rt)
  {
    hide ManifestOk, Coloured, Replay, CoSpent, Spends, Ready, LawfulChain, Honest, NewIds, Compatible;
    var before := order[..n];
    forall j | 0 <= j < |before| ensures before[j] == order[j] && before[..j] == order[..j] {}
    forall rt | rt in before ensures rt in chain && Honest(t, cov, rt) {
      assert rt in order;
      HonestIn(t, cov, seed, chain, rt);
    }
    CompatibleIdsAreNew(t, cov, seed, before, chain);
  }

  /** In any gated order of an allowed chain's transactions, accepted offers come with the transfer. */
  lemma {:induction false} AcceptsInOrder(t: Templates, cov: Covenants, seed: Reg, order: seq<RestTx>,
                                          chain: seq<RestTx>, n: nat)
    requires Rebuilds(t, cov, seed, order, chain) && n <= |order|
    ensures forall j {:trigger order[j]} :: 0 <= j < n ==> CoSpent(Spends(t, UpTo(t, seed, order, j), order[j].tx))
  {
    hide Rebuilds, CoSpent, Spends, UpTo;
    if n > 0 {
      AcceptsInOrder(t, cov, seed, order, chain, n - 1);
      AcceptsNext(t, cov, seed, order, chain, n - 1);
    }
  }

  lemma AcceptsNext(t: Templates, cov: Covenants, seed: Reg, order: seq<RestTx>, chain: seq<RestTx>, n: nat)
    requires Rebuilds(t, cov, seed, order, chain) && n < |order|
    requires forall j {:trigger order[j]} :: 0 <= j < n ==> CoSpent(Spends(t, UpTo(t, seed, order, j), order[j].tx))
    ensures CoSpent(Spends(t, UpTo(t, seed, order, n), order[n].tx))
  {
    hide ManifestOk, Coloured, CoSpent, Spends, Ready, Core, CoreRun, Gated, LawfulChain, Compatible, UpTo,
        GateRespected;
    assert order[n] in order;
    var i :| 0 <= i < |chain| && chain[i] == order[n];
    SameCoreSpends(t, cov, seed, order, chain, n, i);
    LawfulUpTo(t, cov, seed, chain, i);
    var u, v, tx := UpTo(t, seed, order, n), UpTo(t, seed, chain, i), order[n].tx;
    forall s | s in Spends(t, u, tx) && s.tracked.Offer? ensures s in Spends(t, v, tx) {
      OfferInChain(t, cov, seed, order, n, chain, i, s);
    }
    CoSpentElsewhere(t, u, v, tx);
  }

  lemma SameCoreSpends(t: Templates, cov: Covenants, seed: Reg, order: seq<RestTx>, chain: seq<RestTx>, n: nat, i: nat)
    requires Rebuilds(t, cov, seed, order, chain) && n < |order| && i < |chain| && chain[i] == order[n]
    requires forall j {:trigger order[j]} :: 0 <= j < n ==> CoSpent(Spends(t, UpTo(t, seed, order, j), order[j].tx))
    ensures Spends(t, Core(UpTo(t, seed, order, n)), order[n].tx)
        == Spends(t, Core(UpTo(t, seed, chain, i)), order[n].tx)
  {
    hide ManifestOk, Coloured, CoSpent, Spends, Ready, Core, CoreRun, Gated, LawfulChain, Compatible, Replay;
    PrefixOfCore(t, cov, seed, order, chain, n);
    ChainRebuilds(t, cov, seed, order, chain);
    WholeChain(t, cov, seed, chain, i);
    CompatibleCore(t, cov, seed, order, chain, n);
    assert order[..n + 1][..n] == order[..n];
    SpendsAgree(t, cov, Core(seed.utxos), order[..n + 1], chain, i);
  }

  /** An allowed chain is one of its own gated orders. */
  lemma ChainRebuilds(t: Templates, cov: Covenants, seed: Reg, order: seq<RestTx>, chain: seq<RestTx>)
    requires Rebuilds(t, cov, seed, order, chain)
    ensures Rebuilds(t, cov, seed, chain, chain) && AcceptsCoSpent(t, seed, chain)
  {
    hide ManifestOk, Coloured, LawfulChain, GateRespected, AcceptsCoSpent, Honest, Apart;
    LawfulChainIsGated(t, cov, seed, chain);
  }

  lemma WholeChain(t: Templates, cov: Covenants, seed: Reg, chain: seq<RestTx>, i: nat)
    requires Rebuilds(t, cov, seed, chain, chain) && AcceptsCoSpent(t, seed, chain) && i < |chain|
    ensures CoreRun(t, Core(seed.utxos), chain[..i]) == Core(UpTo(t, seed, chain, i))
        && Gated(t, Core(seed.utxos), chain)
  {
    hide Rebuilds, CoSpent, Spends, Core, CoreRun, Gated, Replay;
    PrefixOfCore(t, cov, seed, chain, chain, i);
    PrefixOfCore(t, cov, seed, chain, chain, |chain|);
    assert chain[..|chain|] == chain;
  }

  lemma CompatibleCore(t: Templates, cov: Covenants, seed: Reg, order: seq<RestTx>, chain: seq<RestTx>, n: nat)
    requires Rebuilds(t, cov, seed, order, chain) && n < |order|
    ensures OursOnly(t, cov, Core(seed.utxos)) && Compatible(t, cov, Core(seed.utxos), chain)
    ensures Distinct(order[..n + 1]) && forall rt :: rt in order[..n + 1] ==> rt in chain
  {
    hide ManifestOk, LawfulChain, GateRespected, Core, Honest, Apart;
    ColoursOfCore(t, cov, seed.utxos);
    CompatibleIdsAreNew(t, cov, seed, chain, chain);
  }

  /** Nothing is assumed of the gate along the chain, nor of accepted offers: from what contracts and
      consensus enforce along the chain, any gated order of its transactions after which none of the
      others spends a tracked output leaves the chain's gaps, names and price shards. */
  lemma LawfulRebuildMeetsChain(t: Templates, cov: Covenants, seed: Reg, order: seq<RestTx>, chain: seq<RestTx>)
    requires Rebuilds(t, cov, seed, order, chain)
        && Confluence.Covers(Replay(t, seed, Plain(order)).utxos, order, chain)
    ensures Core(Replay(t, seed, Plain(order)).utxos) == Core(Replay(t, seed, Plain(chain)).utxos)
  {
    hide ManifestOk, Coloured, Compatible, LawfulChain, GateRespected, AcceptsCoSpent, Replay, Core, Confluence.Covers;
    LawfulChainIsGated(t, cov, seed, chain);
    OrderCoSpends(t, cov, seed, order, chain);
    RebuildMeetsChain(t, cov, seed, order, chain);
  }

  lemma OrderCoSpends(t: Templates, cov: Covenants, seed: Reg, order: seq<RestTx>, chain: seq<RestTx>)
    requires Rebuilds(t, cov, seed, order, chain)
    ensures AcceptsCoSpent(t, seed, order)
  {
    hide Rebuilds, CoSpent, Spends, Replay;
    AcceptsInOrder(t, cov, seed, order, chain, |order|);
  }
}
