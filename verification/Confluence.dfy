/** The bootstrap applies transactions as they become ready, not in chain order. Any two orders that
    respect the readiness gate leave the same gaps, names and price shards. */
module Confluence {
  import opened Base
  import opened Pushes
  import opened States
  import opened Transition
  import opened Ingest
  import opened Undo
  import opened Claiming
  import opened Tiling
  import opened Verified

  // ------------------------------------------------------------------ the gate --

  /** A REST transaction with, per input, the covenant id of the output it spends. */
  datatype RestTx = RestTx(tx: Tx, inputCovenants: seq<Option<Bytes32>>, blockTime: int)

  /** The registry's or the price record's covenant. */
  predicate Ours(t: Templates, c: Option<Bytes32>) {
    c.Some? && (c == t.registryId || c == t.priceId)
  }

  /** Every input taken from one of our covenants is tracked. */
  predicate Ready(t: Templates, u: Utxos, rt: RestTx) {
    forall k :: 0 <= k < |rt.tx.inputs| && k < |rt.inputCovenants| && Ours(t, rt.inputCovenants[k])
                ==> rt.tx.inputs[k].previous in u
  }

  /** The covenant of every output there is. */
  type Covenants = Outpoint -> Option<Bytes32>

  /** The REST data tells the truth about covenants, and a transaction that spends one of ours has
      an output under some covenant. */
  ghost predicate Honest(t: Templates, cov: Covenants, rt: RestTx) {
    |rt.inputCovenants| == |rt.tx.inputs|
    && (forall k :: 0 <= k < |rt.tx.inputs| ==> rt.inputCovenants[k] == cov(rt.tx.inputs[k].previous))
    && (forall i :: 0 <= i < |rt.tx.outputs| ==>
          cov(Outpoint(rt.tx.id, i))
          == (match rt.tx.outputs[i].covenant case None => None case Some(b) => Some(b.covenantId)))
    && ((exists k :: 0 <= k < |rt.tx.inputs| && Ours(t, rt.inputCovenants[k])) ==> BindingsKnown(rt.tx))
  }

  /** Exactly the offers among the tracked outputs are under none of our covenants. */
  ghost predicate Coloured(t: Templates, cov: Covenants, u: Utxos) {
    forall op :: op in u ==> (u[op].Offer? <==> !Ours(t, cov(op)))
  }

  // ------------------------------------------------------------------ the core: no offers --

  function Core(u: Utxos): Utxos {
    map op | op in u && !u[op].Offer? :: u[op]
  }

  /** What claims write, on their own. */
  function Writes(t: Templates, tx: Tx, claims: seq<Claim>): Utxos {
    RunClaims(t, tx, claims, Work([], map[])).utxos
  }

  /** A transaction's effect on gaps, names and shards. */
  function CoreStep(t: Templates, c: Utxos, tx: Tx): Utxos {
    var spends := Spends(t, c, tx);
    (c + Writes(t, tx, Claims(t, spends))) - SpentOutpoints(spends)
  }

  lemma {:induction false} RunClaimsOnTop(t: Templates, tx: Tx, claims: seq<Claim>, u: Utxos)
    requires forall c :: c in claims ==> c.Continue?
    ensures RunClaims(t, tx, claims, Work([], u)).utxos == u + Writes(t, tx, claims)
    ensures RunClaims(t, tx, claims, Work([], u)).used == RunClaims(t, tx, claims, Work([], map[])).used
  {
    hide ScriptOf, FirstFree;
    if claims != [] {
      assert claims[|claims| - 1] in claims;
      RunClaimsOnTop(t, tx, claims[..|claims| - 1], u);
    }
  }

  function NonOffers(spends: seq<Spend>): seq<Spend> {
    if spends == [] then []
    else
      var last := spends[|spends| - 1];
      NonOffers(spends[..|spends| - 1]) + if last.tracked.Offer? then [] else [last]
  }

  lemma CoreSpendAt(t: Templates, u: Utxos, tx: Tx, i: nat)
    requires i < |tx.inputs|
    ensures SpendAt(t, Core(u), tx, i)
            == if SpendAt(t, u, tx, i).Some? && SpendAt(t, u, tx, i).value.tracked.Offer? then None
               else SpendAt(t, u, tx, i)
  {
    hide SignatureOf, EntryOf;
  }

  lemma {:induction false} CoreSpends(t: Templates, u: Utxos, tx: Tx, n: nat)
    requires n <= |tx.inputs|
    ensures SpendsUpTo(t, Core(u), tx, n) == NonOffers(SpendsUpTo(t, u, tx, n))
  {
    hide SpendAt, Core;
    if n > 0 {
      CoreSpends(t, u, tx, n - 1);
      CoreSpendAt(t, u, tx, n - 1);
      var spends, s := SpendsUpTo(t, u, tx, n - 1), SpendAt(t, u, tx, n - 1);
      if s.Some? {
        assert (spends + [s.value])[..|spends|] == spends;
      }
    }
  }

  /** Every offer accepted comes with the name's own transfer. */
  ghost predicate CoSpent(spends: seq<Spend>) {
    forall s :: s in spends && s.tracked.Offer? && s.entry == OfferAccept ==> Has(spends, NameTransfer)
  }

  ghost predicate OwnEntries(spends: seq<Spend>) {
    forall s :: s in spends ==> s.entry.Contract() == s.tracked.Contract()
  }

  lemma {:induction false} NonOffersConcat(a: seq<Spend>, b: seq<Spend>)
    ensures NonOffers(a + b) == NonOffers(a) + NonOffers(b)
  {
    if b == [] {
      assert a + b == a;
    } else {
      assert (a + b)[..|a + b| - 1] == a + b[..|b| - 1];
      NonOffersConcat(a, b[..|b| - 1]);
    }
  }

  lemma {:induction false} NonOffersMembers(spends: seq<Spend>)
    ensures forall s :: s in NonOffers(spends) <==> s in spends && !s.tracked.Offer?
  {
    if spends != [] {
      NonOffersMembers(spends[..|spends| - 1]);
      assert spends == spends[..|spends| - 1] + [spends[|spends| - 1]];
    }
  }

  lemma NonOffersAre(spends: seq<Spend>, n: nat)
    requires n <= |spends|
    ensures forall s :: s in NonOffers(spends) <==> s in spends && !s.tracked.Offer?
    ensures NonOffers(spends[..n]) <= NonOffers(spends)
    ensures n < |spends| ==>
              NonOffers(spends[..n + 1])
              == NonOffers(spends[..n]) + if spends[n].tracked.Offer? then [] else [spends[n]]
  {
    hide NonOffers;
    NonOffersMembers(spends);
    NonOffersConcat(spends[..n], spends[n..]);
    assert spends[..n] + spends[n..] == spends;
    if n < |spends| {
      NonOffersConcat(spends[..n], [spends[n]]);
      NonOffersOne(spends[n]);
      assert spends[..n + 1] == spends[..n] + [spends[n]];
    }
  }

  lemma NonOffersOne(s: Spend)
    ensures NonOffers([s]) == if s.tracked.Offer? then [] else [s]
  {
    assert [s][..0] == [];
  }

  lemma NonOffersFront(spends: seq<Spend>)
    requires spends != []
    ensures NonOffers(spends) == (if spends[0].tracked.Offer? then [] else [spends[0]]) + NonOffers(spends[1..])
  {
    hide NonOffers;
    NonOffersConcat([spends[0]], spends[1..]);
    NonOffersOne(spends[0]);
    assert [spends[0]] + spends[1..] == spends;
  }

  lemma {:induction false} FirstsOfNonOffers(spends: seq<Spend>, e: Entry)
    requires OwnEntries(spends) && e.Contract() == GapContract
    ensures FirstWith(NonOffers(spends), e) == FirstWith(spends, e)
    ensures FirstGapWith(NonOffers(spends), e) == FirstGapWith(spends, e)
  {
    hide NonOffers;
    if spends == [] {
      NonOffersAre(spends, 0);
      assert NonOffers(spends) == [] by { NoSpends(); }
    } else {
      var head, rest := spends[0], spends[1..];
      NonOffersFront(spends);
      assert head in spends && forall s :: s in rest ==> s in spends;
      FirstsOfNonOffers(rest, e);
      if head.tracked.Offer? {
        assert head.entry != e;
        assert NonOffers(spends) == NonOffers(rest);
      } else {
        assert NonOffers(spends)[0] == head && NonOffers(spends)[1..] == NonOffers(rest);
      }
    }
  }

  lemma NoSpends()
    ensures NonOffers([]) == []
  {
  }

  lemma {:induction false} ShardsOfNonOffers(spends: seq<Spend>)
    ensures ShardInputs(NonOffers(spends)) == ShardInputs(spends)
  {
    if spends != [] {
      var init, last := spends[..|spends| - 1], spends[|spends| - 1];
      ShardsOfNonOffers(init);
      if last.tracked.Offer? {
        assert NonOffers(spends) == NonOffers(init);
      } else {
        var kept := NonOffers(spends);
        assert kept[..|kept| - 1] == NonOffers(init) && kept[|kept| - 1] == last;
      }
    }
  }

  lemma SamePriceClaim(id: Bytes32, a: seq<Spend>, b: seq<Spend>, s: Spend)
    requires ShardInputs(a) == ShardInputs(b)
    ensures PriceClaim(id, a, s) == PriceClaim(id, b, s)
  {
  }

  lemma SameNameClaim(t: Templates, a: seq<Spend>, b: seq<Spend>, s: Spend)
    requires Has(a, NameTransfer) <==> Has(b, NameTransfer)
    ensures NameClaim(t, a, s) == NameClaim(t, b, s)
  {
  }

  lemma {:induction false} PricesOfNonOffers(t: Templates, spends: seq<Spend>, n: nat)
    requires n <= |spends|
    ensures |NonOffers(spends[..n])| <= |NonOffers(spends)|
    ensures PriceClaims(t, NonOffers(spends), |NonOffers(spends[..n])|) == PriceClaims(t, spends, n)
  {
    hide NonOffers, PriceClaim, ShardInputs;
    NonOffersAre(spends, n);
    if n == 0 {
      assert spends[..0] == [];
      NoSpends();
    } else {
      PricesOfNonOffers(t, spends, n - 1);
      NonOffersAre(spends, n - 1);
      var kept, m, s := NonOffers(spends), |NonOffers(spends[..n - 1])|, spends[n - 1];
      if s.tracked.Offer? {
        assert NonOffers(spends[..n]) == NonOffers(spends[..n - 1]);
        OfferClaimsNothing(t, spends, s);
      } else if t.priceId.Some? {
        assert kept[m] == s;
        ShardsOfNonOffers(spends);
        SamePriceClaim(t.priceId.value, kept, spends, s);
      }
    }
  }

  lemma OfferClaimsNothing(t: Templates, spends: seq<Spend>, s: Spend)
    requires s.tracked.Offer?
    ensures t.priceId.Some? ==> PriceClaim(t.priceId.value, spends, s) == []
    ensures (s.entry == OfferAccept ==> Has(spends, NameTransfer)) ==> NameClaim(t, spends, s) == []
  {
  }

  lemma {:induction false} NamesOfNonOffers(t: Templates, spends: seq<Spend>, n: nat)
    requires n <= |spends| && CoSpent(spends) && (Has(NonOffers(spends), NameTransfer) <==> Has(spends, NameTransfer))
    ensures |NonOffers(spends[..n])| <= |NonOffers(spends)|
    ensures NameClaims(t, NonOffers(spends), |NonOffers(spends[..n])|) == NameClaims(t, spends, n)
  {
    hide NonOffers, NameClaim, Has;
    NonOffersAre(spends, n);
    if n == 0 {
      assert spends[..0] == [];
      NoSpends();
    } else {
      NamesOfNonOffers(t, spends, n - 1);
      NonOffersAre(spends, n - 1);
      var kept, m, s := NonOffers(spends), |NonOffers(spends[..n - 1])|, spends[n - 1];
      assert s in spends;
      if s.tracked.Offer? {
        assert NonOffers(spends[..n]) == NonOffers(spends[..n - 1]);
        OfferClaimsNothing(t, spends, s);
      } else {
        assert kept[m] == s;
        SameNameClaim(t, kept, spends, s);
      }
    }
  }

  lemma HasInNonOffers(spends: seq<Spend>, e: Entry)
    requires OwnEntries(spends) && e.Contract() != OfferContract
    ensures Has(NonOffers(spends), e) <==> Has(spends, e)
  {
    hide NonOffers;
    NonOffersAre(spends, |spends|);
  }

  /** Spent offers ask for nothing of their own. */
  lemma ClaimsOfNonOffers(t: Templates, spends: seq<Spend>)
    requires OwnEntries(spends) && CoSpent(spends)
    ensures Claims(t, NonOffers(spends)) == Claims(t, spends)
    ensures forall c :: c in Claims(t, spends) ==> c.Continue?
  {
    hide PriceClaims, NameClaims, MintedName, NonOffers, Has, FirstWith, FirstGapWith;
    assert spends[..|spends|] == spends;
    HasInNonOffers(spends, GapMerge);
    HasInNonOffers(spends, GapRegister);
    HasInNonOffers(spends, GapImport);
    HasInNonOffers(spends, NameTransfer);
    PricesOfNonOffers(t, spends, |spends|);
    NamesOfNonOffers(t, spends, |spends|);
    FirstsOfNonOffers(spends, GapMerge);
    FirstsOfNonOffers(spends, GapAbsorbed);
    FirstsOfNonOffers(spends, GapRegister);
    FirstsOfNonOffers(spends, GapImport);
    PriceClaimsAreShards(t, spends, |spends|);
    NameClaimsContinue(t, spends, |spends|);
  }

  lemma {:induction false} NameClaimsContinue(t: Templates, spends: seq<Spend>, n: nat)
    requires n <= |spends| && CoSpent(spends)
    ensures forall c :: c in NameClaims(t, spends, n) ==> c.Continue?
  {
    hide NextName;
    if n > 0 {
      NameClaimsContinue(t, spends, n - 1);
      assert spends[n - 1] in spends;
    }
  }

  /** What claims write: the transaction's own outputs, no offers. */
  lemma {:induction false} WritesAre(t: Templates, tx: Tx, claims: seq<Claim>)
    requires forall c :: c in claims ==> c.Continue? && ProperClaim(t, tx, c)
    ensures forall op :: op in Writes(t, tx, claims) ==>
        op.tx == tx.id && op.index < |tx.outputs| && !Writes(t, tx, claims)[op].Offer?
  {
    hide ScriptOf;
    if claims != [] {
      assert claims[|claims| - 1] in claims;
      WritesAre(t, tx, claims[..|claims| - 1]);
    }
  }

  /** On gaps, names and shards a transaction acts through the core alone. */
  lemma CoreApply(t: Templates, u: Utxos, tx: Tx)
    requires ManifestOk(t) && Fresh(u, tx.id) && CoSpent(Spends(t, u, tx))
    ensures Core(ApplyUtxos(t, u, tx)) == CoreStep(t, Core(u), tx)
  {
    hide RunClaims, Claims, SpendsUpTo, NewOffer, ProperClaim;
    var spends := Spends(t, u, tx);
    var claims := Claims(t, spends);
    EntriesMatch(t, u, tx);
    CoreSpends(t, u, tx, |tx.inputs|);
    NonOffersAre(spends, |spends|);
    ClaimsOfNonOffers(t, spends);
    ClaimsProper(t, u, tx);
    WritesAre(t, tx, claims);
    RunClaimsOnTop(t, tx, claims, WithOffer(t, u, tx));
    CoreMaps(t, u, tx, Writes(t, tx, claims));
  }

  lemma CoreMaps(t: Templates, u: Utxos, tx: Tx, made: Utxos)
    requires Fresh(u, tx.id) && forall op :: op in made ==> op.tx == tx.id && !made[op].Offer?
    requires forall s :: s in NonOffers(Spends(t, u, tx)) <==> s in Spends(t, u, tx) && !s.tracked.Offer?
    ensures Core((WithOffer(t, u, tx) + made) - SpentOutpoints(Spends(t, u, tx)))
            == (Core(u) + made) - SpentOutpoints(NonOffers(Spends(t, u, tx)))
  {
    hide SpendsUpTo, NewOffer, NonOffers;
    var left := Core((WithOffer(t, u, tx) + made) - SpentOutpoints(Spends(t, u, tx)));
    var right := (Core(u) + made) - SpentOutpoints(NonOffers(Spends(t, u, tx)));
    forall op ensures (op in left <==> op in right) && (op in left ==> left[op] == right[op]) {
      if op in u {
        assert op in SpentOutpoints(Spends(t, u, tx)) ==>
            exists s :: s in Spends(t, u, tx) && s.op == op && s.tracked == u[op];
      }
    }
    assert left == right;
  }

  // ------------------------------------------------------------------ one step of the core --

  /** A core: no offers, and everything under one of our covenants. */
  ghost predicate OursOnly(t: Templates, cov: Covenants, c: Utxos) {
    forall op :: op in c ==> !c[op].Offer? && Ours(t, cov(op))
  }

  /** Claims write only outputs bound to one of our covenants. */
  lemma {:induction false} WritesAreOurs(t: Templates, tx: Tx, claims: seq<Claim>)
    requires t.registryId.Some? && BindingsKnown(tx)
    requires forall c :: c in claims ==> c.Continue? && ProperClaim(t, tx, c)
    ensures forall op :: op in Writes(t, tx, claims) ==>
              op.tx == tx.id && op.index < |tx.outputs| && tx.outputs[op.index].covenant.Some?
              && Ours(t, Some(tx.outputs[op.index].covenant.value.covenantId))
  {
    hide ScriptOf, BindingsKnown;
    if claims != [] {
      assert claims[|claims| - 1] in claims;
      WritesAreOurs(t, tx, claims[..|claims| - 1]);
    }
  }

  lemma CoreClaims(t: Templates, cov: Covenants, c: Utxos, tx: Tx)
    requires ManifestOk(t) && OursOnly(t, cov, c)
    ensures forall claim :: claim in Claims(t, Spends(t, c, tx)) ==> claim.Continue? && ProperClaim(t, tx, claim)
  {
    hide Claims, SpendsUpTo, ProperClaim;
    EntriesMatch(t, c, tx);
    ClaimsOfNonOffers(t, Spends(t, c, tx));
    ClaimsProper(t, c, tx);
  }

  /** A core stays a core, and only the transaction's own outputs are new in it. */
  lemma StepKeepsOurs(t: Templates, cov: Covenants, c: Utxos, rt: RestTx)
    requires ManifestOk(t) && t.registryId.Some? && Honest(t, cov, rt) && OursOnly(t, cov, c) && Fresh(c, rt.tx.id)
    ensures var after := CoreStep(t, c, rt.tx);
            OursOnly(t, cov, after) && forall op :: op in after ==> (op in c && after[op] == c[op]) || op.tx == rt.tx.id
  {
    hide Claims, RunClaims, SpendsUpTo, ProperClaim, BindingsKnown;
    var spends := Spends(t, c, rt.tx);
    CoreClaims(t, cov, c, rt.tx);
    WritesAre(t, rt.tx, Claims(t, spends));
    if spends == [] {
      NothingFromNothing(t, rt.tx);
    } else {
      assert spends[0] in spends;
      assert Ours(t, rt.inputCovenants[spends[0].input]);
      WritesAreOurs(t, rt.tx, Claims(t, spends));
    }
  }

  lemma NothingFromNothing(t: Templates, tx: Tx)
    ensures Writes(t, tx, Claims(t, [])) == map[]
  {
  }

  lemma {:induction false} NoSpendsOf(t: Templates, c: Utxos, tx: Tx, n: nat)
    requires n <= |tx.inputs| && forall x :: x in tx.inputs ==> x.previous !in c
    ensures SpendsUpTo(t, c, tx, n) == []
  {
    if n > 0 {
      NoSpendsOf(t, c, tx, n - 1);
      assert tx.inputs[n - 1] in tx.inputs;
    }
  }

  /** A transaction that spends nothing tracked does nothing. */
  lemma IdleStep(t: Templates, c: Utxos, tx: Tx)
    requires forall x :: x in tx.inputs ==> x.previous !in c
    ensures CoreStep(t, c, tx) == c
  {
    hide Claims, Writes;
    NoSpendsOf(t, c, tx, |tx.inputs|);
    NothingFromNothing(t, tx);
  }

  // ------------------------------------------------------------------ independent transactions --

  predicate Apart(a: Tx, b: Tx) {
    forall x, y :: x in a.inputs && y in b.inputs ==> x.previous != y.previous
  }

  /** Where a ready transaction finds its inputs does not depend on an independent one before it. */
  lemma {:induction false} SameSpends(t: Templates, c: Utxos, d: Utxos, tx: Tx, n: nat)
    requires n <= |tx.inputs|
    requires forall x :: x in tx.inputs ==>
               (x.previous in c <==> x.previous in d) && (x.previous in c ==> c[x.previous] == d[x.previous])
    ensures SpendsUpTo(t, c, tx, n) == SpendsUpTo(t, d, tx, n)
  {
    hide SignatureOf, EntryOf;
    if n > 0 {
      SameSpends(t, c, d, tx, n - 1);
      assert tx.inputs[n - 1] in tx.inputs;
    }
  }

  lemma StillReady(t: Templates, cov: Covenants, c: Utxos, a: RestTx, b: RestTx)
    requires ManifestOk(t) && t.registryId.Some? && OursOnly(t, cov, c)
    requires Honest(t, cov, a) && Honest(t, cov, b) && Apart(a.tx, b.tx)
    requires Fresh(c, a.tx.id) && Ready(t, c, b)
    ensures Spends(t, CoreStep(t, c, a.tx), b.tx) == Spends(t, c, b.tx)
    ensures Ready(t, CoreStep(t, c, a.tx), b)
  {
    hide Claims, RunClaims, SpendsUpTo, ProperClaim, BindingsKnown;
    var after, spends := CoreStep(t, c, a.tx), Spends(t, c, a.tx);
    StepKeepsOurs(t, cov, c, a);
    CoreClaims(t, cov, c, a.tx);
    WritesAre(t, a.tx, Claims(t, spends));
    forall x | x in b.tx.inputs
      ensures (x.previous in c <==> x.previous in after) && (x.previous in c ==> c[x.previous] == after[x.previous])
    {
      var k :| 0 <= k < |b.tx.inputs| && b.tx.inputs[k] == x;
      assert b.inputCovenants[k] == cov(x.previous);
      assert x.previous !in SpentOutpoints(spends) by {
        assert forall s :: s in spends ==> a.tx.inputs[s.input] in a.tx.inputs;
      }
    }
    SameSpends(t, after, c, b.tx, |b.tx.inputs|);
  }

  lemma StepsCommute(c: Utxos, wa: Utxos, wb: Utxos, sa: set<Outpoint>, sb: set<Outpoint>, a: Bytes32, b: Bytes32)
    requires a != b && sa <= c.Keys && sb <= c.Keys && Fresh(c, a) && Fresh(c, b)
    requires (forall op :: op in wa ==> op.tx == a) && forall op :: op in wb ==> op.tx == b
    ensures (((c + wa) - sa) + wb) - sb == (((c + wb) - sb) + wa) - sa
  {
  }

  /** The diamond: two ready transactions of one chain act independently. */
  lemma Diamond(t: Templates, cov: Covenants, c: Utxos, a: RestTx, b: RestTx)
    requires ManifestOk(t) && t.registryId.Some? && OursOnly(t, cov, c)
    requires Honest(t, cov, a) && Honest(t, cov, b) && Apart(a.tx, b.tx) && a.tx.id != b.tx.id
    requires Fresh(c, a.tx.id) && Fresh(c, b.tx.id) && Ready(t, c, a) && Ready(t, c, b)
    ensures CoreStep(t, CoreStep(t, c, a.tx), b.tx) == CoreStep(t, CoreStep(t, c, b.tx), a.tx)
    ensures Ready(t, CoreStep(t, c, a.tx), b) && Ready(t, CoreStep(t, c, b.tx), a)
  {
    hide Claims, Writes, SpendsUpTo, ProperClaim, Honest, Ready;
    StillReady(t, cov, c, a, b);
    assert Apart(b.tx, a.tx);
    StillReady(t, cov, c, b, a);
    CoreClaims(t, cov, c, a.tx);
    CoreClaims(t, cov, c, b.tx);
    WritesAre(t, a.tx, Claims(t, Spends(t, c, a.tx)));
    WritesAre(t, b.tx, Claims(t, Spends(t, c, b.tx)));
    var wa, wb := Writes(t, a.tx, Claims(t, Spends(t, c, a.tx))), Writes(t, b.tx, Claims(t, Spends(t, c, b.tx)));
    StepsCommute(c, wa, wb, SpentOutpoints(Spends(t, c, a.tx)), SpentOutpoints(Spends(t, c, b.tx)), a.tx.id, b.tx.id);
  }

  // ------------------------------------------------------------------ orders --

  function CoreRun(t: Templates, c: Utxos, order: seq<RestTx>): Utxos
    decreases |order|
  {
    if order == [] then c else CoreRun(t, CoreStep(t, c, order[0].tx), order[1..])
  }

  predicate Gated(t: Templates, c: Utxos, order: seq<RestTx>)
    decreases |order|
  {
    order == [] || (Ready(t, c, order[0]) && Gated(t, CoreStep(t, c, order[0].tx), order[1..]))
  }

  /** Transactions one chain could accept: honest data, ids that differ, no output spent twice. */
  ghost predicate Compatible(t: Templates, cov: Covenants, c: Utxos, order: seq<RestTx>) {
    Distinct(order)
    && (forall a :: a in order ==> Honest(t, cov, a) && Fresh(c, a.tx.id))
    && forall a, b :: a in order && b in order && a != b ==> a.tx.id != b.tx.id && Apart(a.tx, b.tx)
  }

  lemma StepKeepsCompatible(t: Templates, cov: Covenants, c: Utxos, x: RestTx, rest: seq<RestTx>)
    requires ManifestOk(t) && t.registryId.Some? && OursOnly(t, cov, c) && Compatible(t, cov, c, [x] + rest)
    ensures OursOnly(t, cov, CoreStep(t, c, x.tx)) && Compatible(t, cov, CoreStep(t, c, x.tx), rest)
  {
    hide CoreStep, Honest, Apart;
    var all := [x] + rest;
    assert all[0] == x && all[1..] == rest;
    assert forall a :: a in rest ==> a in all;
    StepKeepsOurs(t, cov, c, x);
    assert forall i :: 0 <= i < |rest| ==> rest[i] == all[i + 1];
    assert x !in rest;
  }

  function MovedFirst<T>(order: seq<T>, k: nat): seq<T>
    requires k < |order|
  {
    [order[k]] + (order[..k] + order[k + 1..])
  }

  lemma MovedIsCompatible(t: Templates, cov: Covenants, c: Utxos, order: seq<RestTx>, k: nat)
    requires Compatible(t, cov, c, order) && k < |order|
    ensures Compatible(t, cov, c, MovedFirst(order, k))
  {
    hide Honest, Apart;
    var moved := MovedFirst(order, k);
    assert forall i :: 0 <= i < |moved| ==>
        moved[i] == if i == 0 then order[k] else if i <= k then order[i - 1] else order[i];
    assert forall a :: a in moved ==> a in order;
  }

  lemma FirstTwoCommute(t: Templates, cov: Covenants, c: Utxos, order: seq<RestTx>, k: nat)
    requires ManifestOk(t) && t.registryId.Some? && OursOnly(t, cov, c) && Compatible(t, cov, c, order)
    requires 0 < k < |order| && Ready(t, c, order[0]) && Ready(t, c, order[k])
    ensures var (x, y) := (order[k], order[0]);
            CoreStep(t, CoreStep(t, c, y.tx), x.tx) == CoreStep(t, CoreStep(t, c, x.tx), y.tx)
            && Ready(t, CoreStep(t, c, y.tx), x) && Ready(t, CoreStep(t, c, x.tx), y)
  {
    hide CoreStep, Ready, Honest, Apart, OursOnly, ManifestOk;
    assert order[k] in order && order[0] in order && order[k] != order[0];
    Diamond(t, cov, c, order[k], order[0]);
  }

  lemma RunFirstStep(t: Templates, c: Utxos, x: RestTx, rest: seq<RestTx>)
    ensures CoreRun(t, c, [x] + rest) == CoreRun(t, CoreStep(t, c, x.tx), rest)
    ensures Gated(t, c, [x] + rest) <==> Ready(t, c, x) && Gated(t, CoreStep(t, c, x.tx), rest)
  {
    hide CoreStep, Ready;
    assert ([x] + rest)[1..] == rest;
  }

  /** A transaction that is ready at the start can be applied first. */
  lemma {:induction false} MoveFront(t: Templates, cov: Covenants, c: Utxos, order: seq<RestTx>, k: nat)
    requires ManifestOk(t) && t.registryId.Some? && OursOnly(t, cov, c) && Compatible(t, cov, c, order)
    requires k < |order| && Gated(t, c, order) && Ready(t, c, order[k])
    ensures Gated(t, c, MovedFirst(order, k)) && CoreRun(t, c, MovedFirst(order, k)) == CoreRun(t, c, order)
    decreases k
  {
    hide CoreStep, Ready, Compatible, OursOnly, ManifestOk, Gated, CoreRun;
    var x, y, rest := order[k], order[0], order[1..];
    if k == 0 {
      assert MovedFirst(order, k) == order;
    } else {
      assert order == [y] + rest && rest[k - 1] == x;
      RunFirstStep(t, c, y, rest);
      StepKeepsCompatible(t, cov, c, y, rest);
      FirstTwoCommute(t, cov, c, order, k);
      MoveFront(t, cov, CoreStep(t, c, y.tx), rest, k - 1);
      var others := rest[..k - 1] + rest[k..];
      assert MovedFirst(rest, k - 1) == [x] + others;
      assert MovedFirst(order, k) == [x] + ([y] + others);
      RunFirstStep(t, CoreStep(t, c, y.tx), x, others);
      RunFirstStep(t, c, x, [y] + others);
      RunFirstStep(t, CoreStep(t, c, x.tx), y, others);
    }
  }

  /** What is left over of a chain spends nothing that is tracked, so it changes nothing. */
  lemma {:induction false} IdleRun(t: Templates, c: Utxos, order: seq<RestTx>)
    requires forall rt, x :: rt in order && x in rt.tx.inputs ==> x.previous !in c
    ensures CoreRun(t, c, order) == c
    decreases |order|
  {
    hide CoreStep;
    if order != [] {
      assert order[0] in order;
      IdleStep(t, c, order[0].tx);
      IdleRun(t, c, order[1..]);
    }
  }

  /** `order` is some of `chain`'s transactions, and none of the others spends a tracked output. */
  ghost predicate Covers(c: Utxos, order: seq<RestTx>, chain: seq<RestTx>) {
    (forall rt :: rt in order ==> rt in chain)
    && forall rt, x :: rt in chain && rt !in order && x in rt.tx.inputs ==> x.previous !in c
  }

  /** Applied in any gated order, as soon as no tracked output is spent by a transaction not yet
      applied, the transactions of a chain leave what the whole chain leaves. */
  lemma {:induction false} GatedOrdersAgree(t: Templates, cov: Covenants, c: Utxos, order: seq<RestTx>,
                                            chain: seq<RestTx>)
    requires ManifestOk(t) && t.registryId.Some? && OursOnly(t, cov, c)
    requires Compatible(t, cov, c, chain) && Distinct(order) && Gated(t, c, order) && Gated(t, c, chain)
    requires Covers(CoreRun(t, c, order), order, chain)
    ensures CoreRun(t, c, order) == CoreRun(t, c, chain)
    decreases |order|
  {
    hide CoreStep, Ready, Honest, Apart, Fresh, OursOnly, ManifestOk;
    if order == [] {
      IdleRun(t, c, chain);
    } else {
      var x := order[0];
      assert x in order && order == [x] + order[1..];
      RunFirstStep(t, c, x, order[1..]);
      var k :| 0 <= k < |chain| && chain[k] == x;
      MoveFront(t, cov, c, chain, k);
      MovedIsCompatible(t, cov, c, chain, k);
      var rest := chain[..k] + chain[k + 1..];
      RunFirstStep(t, c, x, rest);
      StepKeepsCompatible(t, cov, c, x, rest);
      CoversRest(CoreRun(t, c, order), order, chain, k);
      GatedOrdersAgree(t, cov, CoreStep(t, c, x.tx), order[1..], rest);
    }
  }

  lemma CoversRest(c: Utxos, order: seq<RestTx>, chain: seq<RestTx>, k: nat)
    requires Distinct(chain) && Distinct(order) && order != [] && k < |chain| && chain[k] == order[0]
        && Covers(c, order, chain)
    ensures Distinct(order[1..]) && Covers(c, order[1..], chain[..k] + chain[k + 1..])
  {
    var rest := chain[..k] + chain[k + 1..];
    forall rt | rt in order[1..] ensures rt in rest {
      assert rt in order && rt != order[0];
      var i :| 0 <= i < |chain| && chain[i] == rt;
      assert rt == if i < k then rest[i] else rest[i - 1];
    }
    forall i | 0 <= i < |rest| ensures rest[i] in chain && rest[i] != order[0] {
      assert rest[i] == if i < k then chain[i] else chain[i + 1];
    }
    assert forall rt :: rt in order ==> rt == order[0] || rt in order[1..];
  }

  // ------------------------------------------------------------------ the engine's own runs --

  function Plain(order: seq<RestTx>): (txs: seq<Tx>)
    ensures |txs| == |order| && forall i :: 0 <= i < |order| ==> txs[i] == order[i].tx
  {
    seq(|order|, i requires 0 <= i < |order| => order[i].tx)
  }

  /** Every transaction was ready where the engine met it. */
  ghost predicate GateRespected(t: Templates, r: Reg, order: seq<RestTx>) {
    forall i {:trigger order[i]} :: 0 <= i < |order| ==> Ready(t, Replay(t, r, Plain(order[..i])).utxos, order[i])
  }

  /** Every offer accepted was accepted together with the name's own transfer. */
  ghost predicate AcceptsCoSpent(t: Templates, r: Reg, order: seq<RestTx>) {
    forall i {:trigger order[i]} :: 0 <= i < |order| ==>
      CoSpent(Spends(t, Replay(t, r, Plain(order[..i])).utxos, order[i].tx))
  }

  /** Offers stay outside our covenants. */
  lemma ApplyKeepsColours(t: Templates, cov: Covenants, u: Utxos, rt: RestTx)
    requires ManifestOk(t) && t.registryId.Some? && Honest(t, cov, rt)
    requires Coloured(t, cov, u) && Fresh(u, rt.tx.id) && CoSpent(Spends(t, u, rt.tx))
    ensures Coloured(t, cov, ApplyUtxos(t, u, rt.tx))
  {
    hide Claims, RunClaims, SpendsUpTo, ProperClaim, BindingsKnown, NewOffer, CoreStep, CoSpent, ManifestOk;
    var spends := Spends(t, u, rt.tx);
    CoreApply(t, u, rt.tx);
    StepKeepsOurs(t, cov, Core(u), rt);
    EntriesMatch(t, u, rt.tx);
    ClaimsOfNonOffers(t, spends);
    ClaimsProper(t, u, rt.tx);
    WritesAre(t, rt.tx, Claims(t, spends));
    RunClaimsOnTop(t, rt.tx, Claims(t, spends), WithOffer(t, u, rt.tx));
    var after := ApplyUtxos(t, u, rt.tx);
    forall op | op in after ensures after[op].Offer? <==> !Ours(t, cov(op)) {
      if !after[op].Offer? {
        assert op in Core(after);
      }
    }
  }

  lemma {:induction false} CoreRunAppend(t: Templates, c: Utxos, order: seq<RestTx>, x: RestTx)
    ensures CoreRun(t, c, order + [x]) == CoreStep(t, CoreRun(t, c, order), x.tx)
    ensures Gated(t, c, order + [x]) <==> Gated(t, c, order) && Ready(t, CoreRun(t, c, order), x)
    decreases |order|
  {
    hide CoreStep, Ready;
    if order == [] {
      RunFirstStep(t, c, x, []);
      assert [] + [x] == [x] + [];
    } else {
      CoreRunAppend(t, CoreStep(t, c, order[0].tx), order[1..], x);
      RunFirstStep(t, c, order[0], order[1..] + [x]);
      assert order + [x] == [order[0]] + (order[1..] + [x]);
    }
  }

  lemma GatePrefix(t: Templates, r: Reg, order: seq<RestTx>)
    requires GateRespected(t, r, order) && AcceptsCoSpent(t, r, order) && order != []
    ensures var (init, last) := (order[..|order| - 1], order[|order| - 1]);
            var u := Replay(t, r, Plain(init)).utxos;
            GateRespected(t, r, init) && AcceptsCoSpent(t, r, init) && Ready(t, u, last)
                && CoSpent(Spends(t, u, last.tx))
  {
    hide Replay, Ready, CoSpent, Spends;
    var init := order[..|order| - 1];
    assert forall i :: 0 <= i < |init| ==> init[i] == order[i] && init[..i] == order[..i];
    assert order[|order| - 1] in order;
  }

  lemma StepOfCore(t: Templates, cov: Covenants, u: Utxos, rt: RestTx)
    requires ManifestOk(t) && t.registryId.Some? && Honest(t, cov, rt) && Coloured(t, cov, u) && Fresh(u, rt.tx.id)
    requires Ready(t, u, rt) && CoSpent(Spends(t, u, rt.tx))
    ensures Core(ApplyUtxos(t, u, rt.tx)) == CoreStep(t, Core(u), rt.tx)
    ensures Ready(t, Core(u), rt) && Coloured(t, cov, ApplyUtxos(t, u, rt.tx))
  {
    hide ApplyUtxos, CoreStep, CoSpent, ManifestOk, Spends;
    CoreApply(t, u, rt.tx);
    ApplyKeepsColours(t, cov, u, rt);
  }

  /** The engine's run, seen on gaps, names and shards, is the core's. */
  lemma {:induction false} RunOfCore(t: Templates, cov: Covenants, r: Reg, order: seq<RestTx>)
    requires ManifestOk(t) && t.registryId.Some? && Coloured(t, cov, r.utxos)
    requires GateRespected(t, r, order) && AcceptsCoSpent(t, r, order)
    requires NewIds(r, Plain(order)) && forall rt :: rt in order ==> Honest(t, cov, rt)
    ensures var after := Replay(t, r, Plain(order)).utxos;
            CoreRun(t, Core(r.utxos), order) == Core(after) && Gated(t, Core(r.utxos), order) && Coloured(t, cov, after)
  {
    hide CoreStep, CoSpent, Honest, ManifestOk, ApplyUtxos, Spends, NewIds, UndoOf, AcceptedProfile, WithProfile, Core,
      Coloured, GateRespected, AcceptsCoSpent, Fresh, Ready;
    if order != [] {
      var init, last := order[..|order| - 1], order[|order| - 1];
      assert Plain(order)[..|order| - 1] == Plain(init) && init + [last] == order && last in order;
      NewIdsPrefix(r, Plain(order));
      GatePrefix(t, r, order);
      RunOfCore(t, cov, r, init);
      NewIdsAreFresh(t, r, Plain(order));
      StepOfCore(t, cov, Replay(t, r, Plain(init)).utxos, last);
      CoreRunAppend(t, Core(r.utxos), init, last);
    }
  }

  lemma CompatibleIdsAreNew(t: Templates, cov: Covenants, r: Reg, order: seq<RestTx>, chain: seq<RestTx>)
    requires Compatible(t, cov, r.utxos, chain) && Distinct(order) && forall rt :: rt in order ==> rt in chain
    ensures NewIds(r, Plain(order)) && Compatible(t, cov, Core(r.utxos), chain)
  {
    hide Honest, Apart;
    var txs := Plain(order);
    forall i, j | 0 <= i < j < |txs| ensures txs[i].id != txs[j].id {
      assert order[i] in order && order[j] in order && order[i] != order[j];
    }
    forall tx | tx in txs ensures Fresh(r.utxos, tx.id) {
      var i :| 0 <= i < |txs| && txs[i] == tx;
      assert order[i] in order;
    }
  }

  /** Bootstrap confluence. Whatever gated order some of a chain's transactions are applied in, once
      none of the chain's other transactions spends a tracked output, the gaps, names and price
      shards are the ones the whole chain leaves. */
  lemma RebuildMeetsChain(t: Templates, cov: Covenants, seed: Reg, order: seq<RestTx>, chain: seq<RestTx>)
    requires ManifestOk(t) && t.registryId.Some? && Coloured(t, cov, seed.utxos)
    requires Compatible(t, cov, seed.utxos, chain) && Distinct(order)
    requires GateRespected(t, seed, order) && GateRespected(t, seed, chain)
    requires AcceptsCoSpent(t, seed, order) && AcceptsCoSpent(t, seed, chain)
    requires Covers(Replay(t, seed, Plain(order)).utxos, order, chain)
    ensures Core(Replay(t, seed, Plain(order)).utxos) == Core(Replay(t, seed, Plain(chain)).utxos)
  {
    hide Replay, Honest, Apart, ManifestOk, GateRespected, AcceptsCoSpent, CoreRun, Gated;
    CompatibleIdsAreNew(t, cov, seed, order, chain);
    CompatibleIdsAreNew(t, cov, seed, chain, chain);
    RunOfCore(t, cov, seed, order);
    RunOfCore(t, cov, seed, chain);
    GatedOrdersAgree(t, cov, Core(seed.utxos), order, chain);
  }

  /** Any two gated orders of the same transactions leave the same gaps, names and shards. */
  lemma OrderDoesNotMatter(t: Templates, cov: Covenants, seed: Reg, order: seq<RestTx>, other: seq<RestTx>)
    requires ManifestOk(t) && t.registryId.Some? && Coloured(t, cov, seed.utxos)
    requires Compatible(t, cov, seed.utxos, order) && Distinct(other) && Elements(order) == Elements(other)
    requires GateRespected(t, seed, order) && GateRespected(t, seed, other)
    requires AcceptsCoSpent(t, seed, order) && AcceptsCoSpent(t, seed, other)
    ensures Core(Replay(t, seed, Plain(order)).utxos) == Core(Replay(t, seed, Plain(other)).utxos)
  {
    hide Replay, Compatible, ManifestOk, GateRespected, AcceptsCoSpent;
    assert forall rt :: rt in other <==> rt in Elements(other);
    assert forall rt :: rt in order <==> rt in Elements(order);
    RebuildMeetsChain(t, cov, seed, other, order);
  }
}
