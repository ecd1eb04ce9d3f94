/** The used-signature ledger (kachat-transaction-processor/src/k_protocol.rs `signature_is_fresh`): a
    signed action counts for the first transaction that carries it. */
module Ledger {
  import opened Base

  /** kachat_used_signatures: signature to transaction. */
  type Used = map<Bytes, Bytes>

  /** A signature with the transaction that carries it. */
  datatype Claim = Claim(signature: Bytes, tx: Bytes)

  predicate IsFresh(used: Used, c: Claim) {
    c.signature !in used || used[c.signature] == c.tx
  }

  function Record(used: Used, c: Claim): Used {
    if c.signature in used then used else used[c.signature := c.tx]
  }

  /** No signature appears in two transactions. */
  ghost predicate NoReplays(claims: set<Claim>) {
    forall c, d :: c in claims && d in claims && c.signature == d.signature ==> c.tx == d.tx
  }

  ghost predicate RecordsOnly(used: Used, claims: set<Claim>) {
    forall s :: s in used ==> Claim(s, used[s]) in claims
  }

  /** Without replays every action is fresh, however often it is processed. */
  lemma FreshWithoutReplays(used: Used, claims: set<Claim>, c: Claim)
    requires RecordsOnly(used, claims) && NoReplays(claims) && c in claims
    ensures IsFresh(used, c) && RecordsOnly(Record(used, c), claims)
  {
  }

  /** A transaction's signature stays its own: once recorded, no other transaction is let through. */
  lemma FirstUseWins(used: Used, c: Claim, d: Claim)
    requires IsFresh(used, c) && d.signature == c.signature
    ensures IsFresh(Record(used, c), d) <==> d.tx == c.tx
  {
  }

  // ------------------------------------------------------------------ streams of signed actions --

  /** What an action puts to the ledger: None when its signature does not verify, since the handlers
      check that first. */
  type Signing<!A> = A -> Option<Claim>

  /** The action's transaction is the one the ledger lets through. */
  predicate Admits<A>(signed: Signing<A>, used: Used, a: A) {
    signed(a).Some? && signed(a).value.signature in used && used[signed(a).value.signature] == signed(a).value.tx
  }

  /** The ledger after one more action, and after a stream. */
  function Note<A>(signed: Signing<A>, used: Used, a: A): Used {
    if signed(a).None? then used else Record(used, signed(a).value)
  }

  function After<A>(signed: Signing<A>, used: Used, xs: seq<A>): Used {
    if xs == [] then used else Note(signed, After(signed, used, xs[..|xs| - 1]), xs[|xs| - 1])
  }

  /** A way to give each signature to one of the transactions that carry it, keeping what the ledger
      already has. */
  ghost predicate Choice<A>(signed: Signing<A>, used: Used, s: set<A>, chosen: Used) {
    (forall k :: k in used ==> k in chosen && chosen[k] == used[k])
    && (forall a :: a in s && signed(a).Some? ==> signed(a).value.signature in chosen)
    && forall k :: k in chosen ==> k in used || exists a :: a in s && signed(a) == Some(Claim(k, chosen[k]))
  }

  /** Every order of processing makes such a choice. */
  lemma {:induction false} AfterIsChoice<A>(signed: Signing<A>, used: Used, xs: seq<A>)
    ensures Choice(signed, used, Elements(xs), After(signed, used, xs))
  {
    if xs != [] {
      var init, a := xs[..|xs| - 1], xs[|xs| - 1];
      AfterIsChoice(signed, used, init);
      assert Elements(xs) == Elements(init) + {a};
    }
  }

  /** A stream whose transactions the choice lets through leaves the ledger inside the choice. */
  lemma {:induction false} StaysWithin<A>(signed: Signing<A>, used: Used, xs: seq<A>, chosen: Used)
    requires forall k :: k in used ==> k in chosen && chosen[k] == used[k]
    requires forall a :: a in xs ==> Admits(signed, chosen, a)
    ensures forall k :: k in After(signed, used, xs) ==> k in chosen && chosen[k] == After(signed, used, xs)[k]
    ensures forall a :: a in xs && signed(a).Some? ==> signed(a).value.signature in After(signed, used, xs)
  {
    if xs != [] {
      var init, a := xs[..|xs| - 1], xs[|xs| - 1];
      assert a in xs && forall b :: b in init ==> b in xs;
      StaysWithin(signed, used, init, chosen);
      assert xs == init + [a];
    }
  }

  /** Once every signature of a stream is recorded, the stream changes nothing. */
  lemma {:induction false} NothingNew<A>(signed: Signing<A>, used: Used, xs: seq<A>)
    requires forall a :: a in xs && signed(a).Some? ==> signed(a).value.signature in used
    ensures After(signed, used, xs) == used
  {
    if xs != [] {
      assert xs[|xs| - 1] in xs;
      NothingNew(signed, used, xs[..|xs| - 1]);
    }
  }

  lemma {:induction false} AfterConcat<A>(signed: Signing<A>, used: Used, xs: seq<A>, ys: seq<A>)
    ensures After(signed, used, xs + ys) == After(signed, After(signed, used, xs), ys)
  {
    if ys == [] {
      assert xs + ys == xs;
    } else {
      assert (xs + ys)[..|xs + ys| - 1] == xs + ys[..|ys| - 1];
      AfterConcat(signed, used, xs, ys[..|ys| - 1]);
    }
  }

  function Consistent<A>(signed: Signing<A>, chosen: Used, xs: seq<A>): (r: seq<A>)
    ensures forall a :: a in r ==> a in xs && Admits(signed, chosen, a)
    ensures forall a :: a in xs && Admits(signed, chosen, a) ==> a in r
  {
    if xs == [] then []
    else
      assert xs == xs[..|xs| - 1] + [xs[|xs| - 1]];
      Consistent(signed, chosen, xs[..|xs| - 1]) + if Admits(signed, chosen, xs[|xs| - 1]) then [xs[|xs| - 1]] else []
  }

  /** The order that makes the choice: what it lets through first, then everything. */
  lemma ChoiceIsMade<A>(signed: Signing<A>, used: Used, xs: seq<A>, chosen: Used, first: seq<A>)
    requires Choice(signed, used, Elements(xs), chosen)
    requires forall a :: a in first ==> a in xs && Admits(signed, chosen, a)
    ensures After(signed, used, first + Consistent(signed, chosen, xs)) == chosen
  {
    hide After, Consistent;
    var ys := first + Consistent(signed, chosen, xs);
    StaysWithin(signed, used, ys, chosen);
    var l := After(signed, used, ys);
    AfterIsChoice(signed, used, ys);
    forall k | k in chosen ensures k in l {
      if k !in used {
        var a :| a in Elements(xs) && signed(a) == Some(Claim(k, chosen[k]));
        assert a in ys;
      }
    }
    assert l == chosen;
  }

  /** Without replays there is one choice, and it lets every signed action through. */
  lemma OneChoice<A>(signed: Signing<A>, used: Used, s: set<A>, chosen: Used, claims: set<Claim>)
    requires Choice(signed, used, s, chosen) && NoReplays(claims) && RecordsOnly(used, claims)
    requires forall a :: a in s && signed(a).Some? ==> signed(a).value in claims
    ensures forall a :: a in s && signed(a).Some? ==> Admits(signed, chosen, a)
  {
    forall a | a in s && signed(a).Some? ensures Admits(signed, chosen, a) {
      var k := signed(a).value.signature;
      assert Claim(k, chosen[k]) in claims;
    }
  }

  /** Two copies of one signed action and another action, in this order, on an empty ledger: the first
      copy's transaction is the one let through. */
  lemma FirstCopyAdmitted<A>(signed: Signing<A>, x: A, y: A, z: A)
    requires signed(x).Some? && signed(y).Some? && signed(z).Some?
    requires signed(x).value.signature == signed(y).value.signature != signed(z).value.signature
    requires signed(x).value.tx != signed(y).value.tx
    ensures var l := After(signed, map[], [x, y, z]);
            Admits(signed, l, x) && Admits(signed, l, z) && !Admits(signed, l, y)
  {
    assert [x, y, z][..2] == [x, y] && [x, y][..1] == [x] && [x][..0] == [];
    assert After(signed, map[], [x]) == Note(signed, map[], x);
    assert After(signed, map[], [x, y]) == Note(signed, Note(signed, map[], x), y);
  }

  // ------------------------------------------------------------------ by position --

  ghost predicate Signs<A>(signed: Signing<A>, a: A, signature: Bytes) {
    signed(a).Some? && signed(a).value.signature == signature
  }

  /** The `i`-th action of a stream is let through: the ledger already had its signature for its
      transaction, or had it for none and the first action of the stream with it is of its transaction. */
  ghost predicate FirstUse<A>(signed: Signing<A>, used: Used, xs: seq<A>, i: nat) {
    i < |xs| && signed(xs[i]).Some?
    && var c := signed(xs[i]).value;
       if c.signature in used then used[c.signature] == c.tx
       else
         forall j :: 0 <= j < i && Signs(signed, xs[j], c.signature)
                     && (forall k :: 0 <= k < j ==> !Signs(signed, xs[k], c.signature))
                     ==> signed(xs[j]).value.tx == c.tx
  }

  /** After a stream a signature belongs to whom it belonged before, or else to the first that used it. */
  lemma {:induction false} OwnerAfter<A>(signed: Signing<A>, used: Used, xs: seq<A>, signature: Bytes)
    ensures var l := After(signed, used, xs);
            (signature in used ==> signature in l && l[signature] == used[signature])
            && (signature !in used && signature in l ==>
                  exists j :: 0 <= j < |xs| && Signs(signed, xs[j], signature) && l[signature] == signed(xs[j]).value.tx
                              && forall k :: 0 <= k < j ==> !Signs(signed, xs[k], signature))
            && (signature !in l ==> forall j :: 0 <= j < |xs| ==> !Signs(signed, xs[j], signature))
  {
    if xs != [] {
      var init, a := xs[..|xs| - 1], xs[|xs| - 1];
      OwnerAfter(signed, used, init, signature);
      assert forall j :: 0 <= j < |init| ==> init[j] == xs[j];
      if signature !in used && signature in After(signed, used, init) {
        var j :| 0 <= j < |init| && Signs(signed, init[j], signature)
                 && After(signed, used, init)[signature] == signed(init[j]).value.tx
                 && forall k :: 0 <= k < j ==> !Signs(signed, init[k], signature);
        assert Signs(signed, xs[j], signature);
      }
    }
  }

  lemma AdmittedIsFirstUse<A>(signed: Signing<A>, used: Used, xs: seq<A>, i: nat)
    requires i < |xs|
    ensures Admits(signed, After(signed, used, xs), xs[i]) <==> FirstUse(signed, used, xs, i)
  {
    hide After;
    if signed(xs[i]).Some? {
      var c := signed(xs[i]).value;
      OwnerAfter(signed, used, xs, c.signature);
      assert Signs(signed, xs[i], c.signature);
    }
  }

  /** Two ways to write what the actions put to the ledger. */
  lemma {:induction false} SameLedger<A(!new)>(f: Signing<A>, g: Signing<A>, used: Used, xs: seq<A>)
    requires forall a :: f(a) == g(a)
    ensures After(f, used, xs) == After(g, used, xs)
  {
    if xs != [] {
      SameLedger(f, g, used, xs[..|xs| - 1]);
    }
  }
}
