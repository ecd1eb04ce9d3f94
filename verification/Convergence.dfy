/** What a register that keeps the newest signed action can end with, over all orders of processing
    and all repeats: exactly the newest actions of some choice of one transaction per signature. */
module Convergence {
  import opened Base
  import opened Ledger

  /** A register's rule: what an action puts to the ledger, whether the register takes it, when it was
      made, and whether one of the same time replaces the one held. */
  datatype Rule<!A> = Rule(signed: Signing<A>, keep: A -> bool, time: A -> int, ties: bool)

  predicate Replaces<A>(r: Rule<A>, held: Option<A>, a: A) {
    held.None? || r.time(held.value) < r.time(a) || (r.ties && r.time(held.value) == r.time(a))
  }

  /** The action standing after a stream, from an empty register and any ledger. */
  function Standing<A>(r: Rule<A>, used: Used, xs: seq<A>): Option<A> {
    if xs == [] then None
    else
      var (init, a) := (xs[..|xs| - 1], xs[|xs| - 1]);
      var held := Standing(r, used, init);
      if Admits(r.signed, After(r.signed, used, xs), a) && r.keep(a) && Replaces(r, held, a) then Some(a) else held
  }

  /** Of the actions the choice lets through and the register takes, none is later. */
  predicate Top<A>(r: Rule<A>, chosen: Used, s: set<A>, a: A) {
    a in s && Admits(r.signed, chosen, a) && r.keep(a)
    && forall b :: b in s && Admits(r.signed, chosen, b) && r.keep(b) ==> r.time(b) <= r.time(a)
  }

  predicate Silent<A>(r: Rule<A>, chosen: Used, s: set<A>) {
    forall b :: b in s && Admits(r.signed, chosen, b) ==> !r.keep(b)
  }

  predicate EndsWith<A>(r: Rule<A>, chosen: Used, s: set<A>, n: Option<A>) {
    if n.None? then Silent(r, chosen, s) else Top(r, chosen, s, n.value)
  }

  /** The register can end with `n`: some choice of one transaction per signature makes it newest. */
  ghost predicate CanStand<A>(r: Rule<A>, used: Used, s: set<A>, n: Option<A>) {
    exists chosen :: Choice(r.signed, used, s, chosen) && EndsWith(r, chosen, s, n)
  }

  // ------------------------------------------------------------------ every order --

  lemma StepKeepsAdmitted<A>(signed: Signing<A>, used: Used, xs: seq<A>, b: A)
    requires xs != [] && b in xs[..|xs| - 1]
    ensures Admits(signed, After(signed, used, xs), b) <==> Admits(signed, After(signed, used, xs[..|xs| - 1]), b)
  {
    AfterIsChoice(signed, used, xs[..|xs| - 1]);
    assert b in Elements(xs[..|xs| - 1]);
  }

  /** The register holds the newest of the actions whose transaction was the first processed with its
      signature. */
  lemma {:induction false} StandingIsNewest<A>(r: Rule<A>, used: Used, xs: seq<A>)
    ensures EndsWith(r, After(r.signed, used, xs), Elements(xs), Standing(r, used, xs))
  {
    hide After, Admits;
    if xs != [] {
      var init, a := xs[..|xs| - 1], xs[|xs| - 1];
      StandingIsNewest(r, used, init);
      assert Elements(xs) == Elements(init) + {a};
      forall b | b in Elements(init)
        ensures Admits(r.signed, After(r.signed, used, xs), b) <==> Admits(r.signed, After(r.signed, used, init), b)
      {
        StepKeepsAdmitted(r.signed, used, xs, b);
      }
    }
  }

  lemma StandingCanStand<A>(r: Rule<A>, used: Used, xs: seq<A>)
    ensures CanStand(r, used, Elements(xs), Standing(r, used, xs))
  {
    AfterIsChoice(r.signed, used, xs);
    StandingIsNewest(r, used, xs);
  }

  /** One more action: it stands if it is let through, taken and not beaten. */
  lemma OneMore<A>(r: Rule<A>, used: Used, xs: seq<A>, a: A)
    ensures After(r.signed, used, xs + [a]) == Note(r.signed, After(r.signed, used, xs), a)
    ensures var held := Standing(r, used, xs);
            Standing(r, used, xs + [a])
            == if Admits(r.signed, Note(r.signed, After(r.signed, used, xs), a), a) && r.keep(a) && Replaces(r, held, a)
               then Some(a) else held
  {
    assert (xs + [a])[..|xs|] == xs;
  }

  // ------------------------------------------------------------------ every choice --

  /** Where ties do not replace, an action that comes first and is never beaten stays. */
  lemma {:induction false} FirstStays<A>(r: Rule<A>, used: Used, a: A, rest: seq<A>)
    requires !r.ties && r.keep(a) && Admits(r.signed, Note(r.signed, used, a), a)
    requires forall b :: b in rest && Admits(r.signed, After(r.signed, used, [a] + rest), b) && r.keep(b) ==>
        r.time(b) <= r.time(a)
    ensures Standing(r, used, [a] + rest) == Some(a)
  {
    hide Admits, Note;
    var xs := [a] + rest;
    if rest == [] {
      assert xs == [a] && xs[..0] == [] && After(r.signed, used, xs) == Note(r.signed, used, a);
    } else {
      var init, b := rest[..|rest| - 1], rest[|rest| - 1];
      assert xs[..|xs| - 1] == [a] + init && b in rest;
      forall c | c in init && Admits(r.signed, After(r.signed, used, [a] + init), c) && r.keep(c)
          ensures r.time(c) <= r.time(a) {
        StepKeepsAdmitted(r.signed, used, xs, c);
        assert c in rest;
      }
      FirstStays(r, used, a, init);
    }
  }

  /** Processing `a`, what the choice lets through, everything, and `a` again, leaves `a` standing. */
  lemma Arranged<A>(r: Rule<A>, used: Used, xs: seq<A>, chosen: Used, a: A) returns (ys: seq<A>)
    requires Choice(r.signed, used, Elements(xs), chosen) && Top(r, chosen, Elements(xs), a)
    ensures Elements(ys) == Elements(xs) && Standing(r, used, ys) == Some(a)
  {
    hide Choice, Note;
    var first := Consistent(r.signed, chosen, xs);
    var most := [a] + first + xs;
    ys := most + [a];
    assert Elements(most) == Elements(xs) && Elements(ys) == Elements(xs);
    LedgerArranged(r.signed, used, xs, chosen, [a], [a]);
    if r.ties {
      LedgerArranged(r.signed, used, xs, chosen, [a], []);
      assert most + [] == most && ys[..|ys| - 1] == most;
      StandingIsNewest(r, used, most);
    } else {
      var rest := first + xs + [a];
      assert ys == [a] + rest;
      FirstAdmitted(r.signed, used, a, chosen, Elements(xs));
      FirstStays(r, used, a, rest);
    }
  }

  lemma FirstAdmitted<A>(signed: Signing<A>, used: Used, a: A, chosen: Used, s: set<A>)
    requires Choice(signed, used, s, chosen) && Admits(signed, chosen, a)
    ensures Admits(signed, Note(signed, used, a), a)
  {
  }

  lemma LedgerArranged<A>(signed: Signing<A>, used: Used, xs: seq<A>, chosen: Used, first: seq<A>, last: seq<A>)
    requires Choice(signed, used, Elements(xs), chosen)
    requires (forall a :: a in first ==> a in xs && Admits(signed, chosen, a)) && forall a :: a in last ==> a in xs
    ensures After(signed, used, first + Consistent(signed, chosen, xs) + xs + last) == chosen
  {
    var front := first + Consistent(signed, chosen, xs);
    ChoiceIsMade(signed, used, xs, chosen, first);
    AfterConcat(signed, used, front, xs + last);
    assert front + (xs + last) == front + xs + last;
    assert forall a :: a in xs ==> a in Elements(xs);
    NothingNew(signed, chosen, xs + last);
  }

  /** Whatever can stand is what some order of the same actions, with some repeats, ends with. */
  lemma ReachedInSomeOrder<A>(r: Rule<A>, used: Used, xs: seq<A>, n: Option<A>) returns (ys: seq<A>)
    requires CanStand(r, used, Elements(xs), n)
    ensures Elements(ys) == Elements(xs) && Standing(r, used, ys) == n
  {
    hide Choice, Top, Silent, Standing, Admits;
    var chosen :| Choice(r.signed, used, Elements(xs), chosen) && EndsWith(r, chosen, Elements(xs), n);
    if n.Some? {
      ys := Arranged(r, used, xs, chosen, n.value);
    } else {
      var front := Consistent(r.signed, chosen, xs);
      ys := [] + front + xs + [];
      assert Elements(ys) == Elements(xs);
      LedgerArranged(r.signed, used, xs, chosen, [], []);
      StandingIsNewest(r, used, ys);
      NoneStands(r, chosen, Elements(xs), Standing(r, used, ys));
    }
  }

  lemma NoneStands<A>(r: Rule<A>, chosen: Used, s: set<A>, n: Option<A>)
    requires Silent(r, chosen, s) && EndsWith(r, chosen, s, n)
    ensures n.None?
  {
  }

  // ------------------------------------------------------------------ when order does not matter --

  ghost predicate SameInEveryOrder<A(!new), V>(r: Rule<A>, used: Used, xs: seq<A>, view: Option<A> -> V) {
    forall ys, zs :: Elements(ys) == Elements(xs) && Elements(zs) == Elements(xs) ==>
      view(Standing(r, used, ys)) == view(Standing(r, used, zs))
  }

  /** Whichever transaction each signature goes to, the newest actions look the same. */
  ghost predicate ChoicesAgree<A(!new), V>(r: Rule<A>, used: Used, s: set<A>, view: Option<A> -> V) {
    forall m, n :: CanStand(r, used, s, m) && CanStand(r, used, s, n) ==> view(m) == view(n)
  }

  /** What the register shows is independent of order and repeats exactly when every choice of one
      transaction per signature has newest actions that look the same. */
  lemma OrderMattersExactly<A(!new), V>(r: Rule<A>, used: Used, xs: seq<A>, view: Option<A> -> V)
    ensures SameInEveryOrder(r, used, xs, view) <==> ChoicesAgree(r, used, Elements(xs), view)
  {
    hide CanStand, Standing;
    if ChoicesAgree(r, used, Elements(xs), view) {
      forall ys, zs | Elements(ys) == Elements(xs) && Elements(zs) == Elements(xs)
        ensures view(Standing(r, used, ys)) == view(Standing(r, used, zs))
      {
        StandingCanStand(r, used, ys);
        StandingCanStand(r, used, zs);
      }
    }
    if SameInEveryOrder(r, used, xs, view) {
      forall m, n | CanStand(r, used, Elements(xs), m) && CanStand(r, used, Elements(xs), n)
          ensures view(m) == view(n) {
        var ys := ReachedInSomeOrder(r, used, xs, m);
        var zs := ReachedInSomeOrder(r, used, xs, n);
      }
    }
  }

  // ------------------------------------------------------------------ without replays --

  /** The newest of the signed actions the register takes. */
  predicate NewestKept<A>(r: Rule<A>, s: set<A>, a: A) {
    a in s && r.signed(a).Some? && r.keep(a)
    && forall b :: b in s && r.signed(b).Some? && r.keep(b) ==> r.time(b) <= r.time(a)
  }

  /** When no signature is in two transactions, what can stand is any newest action, or nothing when
      there is none. */
  lemma WithoutReplays<A>(r: Rule<A>, used: Used, xs: seq<A>, claims: set<Claim>, n: Option<A>)
    requires NoReplays(claims) && RecordsOnly(used, claims)
    requires forall a :: a in xs && r.signed(a).Some? ==> r.signed(a).value in claims
    ensures CanStand(r, used, Elements(xs), n)
            <==> if n.Some? then NewestKept(r, Elements(xs), n.value)
                 else forall b :: b in xs && r.signed(b).Some? ==> !r.keep(b)
  {
    hide Choice, NoReplays, RecordsOnly;
    var s := Elements(xs);
    assert forall a :: a in xs <==> a in s;
    AfterIsChoice(r.signed, used, xs);
    forall chosen | Choice(r.signed, used, s, chosen)
        ensures forall a :: a in s && r.signed(a).Some? ==> Admits(r.signed, chosen, a) {
      OneChoice(r.signed, used, s, chosen, claims);
    }
    assert EndsWith(r, After(r.signed, used, xs), s, n) ==> CanStand(r, used, s, n);
  }

  // ------------------------------------------------------------------ by position --

  /** The `i`-th action of a stream stands: it is let through and taken, and no such action is later, nor
      of the same time and processed after it (before it, where ties do not replace). */
  ghost predicate StandsAt<A>(r: Rule<A>, used: Used, xs: seq<A>, i: nat) {
    FirstUse(r.signed, used, xs, i) && r.keep(xs[i])
    && forall j: nat :: FirstUse(r.signed, used, xs, j) && r.keep(xs[j]) ==>
         r.time(xs[j]) < r.time(xs[i]) || (r.time(xs[j]) == r.time(xs[i]) && if r.ties then j <= i else i <= j)
  }

  lemma FirstUseEarlier<A>(signed: Signing<A>, used: Used, xs: seq<A>, i: nat)
    requires xs != [] && i < |xs| - 1
    ensures FirstUse(signed, used, xs, i) <==> FirstUse(signed, used, xs[..|xs| - 1], i)
  {
    hide Signs;
    var init := xs[..|xs| - 1];
    assert forall j :: 0 <= j < |init| ==> init[j] == xs[j];
  }

  /** Exactly one position stands, unless nothing is let through and taken. */
  lemma {:induction false} StandingIsAt<A>(r: Rule<A>, used: Used, xs: seq<A>)
    ensures Standing(r, used, xs).None? <==> forall i: nat :: FirstUse(r.signed, used, xs, i) ==> !r.keep(xs[i])
    ensures Standing(r, used, xs).Some? ==> exists i: nat ::
        StandsAt(r, used, xs, i) && xs[i] == Standing(r, used, xs).value
  {
    hide After, Admits, FirstUse;
    if xs == [] {
      NothingUsed(r.signed, used, xs);
    } else {
      var init, last := xs[..|xs| - 1], |xs| - 1;
      StandingIsAt(r, used, init);
      AdmittedIsFirstUse(r.signed, used, xs, last);
      UsedInRange(r.signed, used, xs);
      UsedInRange(r.signed, used, init);
      forall i: nat | i < last ensures FirstUse(r.signed, used, xs, i) <==> FirstUse(r.signed, used, init, i) {
        FirstUseEarlier(r.signed, used, xs, i);
      }
      StandingStep(r, used, xs);
    }
  }

  lemma NothingUsed<A>(signed: Signing<A>, used: Used, xs: seq<A>)
    requires xs == []
    ensures forall i: nat :: !FirstUse(signed, used, xs, i)
  {
  }

  lemma UsedInRange<A>(signed: Signing<A>, used: Used, xs: seq<A>)
    ensures forall i: nat :: FirstUse(signed, used, xs, i) ==> i < |xs|
  {
  }

  lemma StandingStep<A>(r: Rule<A>, used: Used, xs: seq<A>)
    requires xs != []
    requires var init, last := xs[..|xs| - 1], |xs| - 1;
             (forall i: nat :: i < last ==> (FirstUse(r.signed, used, xs, i) <==> FirstUse(r.signed, used, init, i)))
             && (forall i: nat :: FirstUse(r.signed, used, xs, i) ==> i < |xs|)
             && (forall i: nat :: FirstUse(r.signed, used, init, i) ==> i < |init|)
             && (Admits(r.signed, After(r.signed, used, xs), xs[last]) <==> FirstUse(r.signed, used, xs, last))
             && (Standing(r, used, init).None?
                 <==> forall i: nat :: FirstUse(r.signed, used, init, i) ==> !r.keep(init[i]))
             && (Standing(r, used, init).Some? ==>
                   exists i: nat :: StandsAt(r, used, init, i) && init[i] == Standing(r, used, init).value)
    ensures Standing(r, used, xs).None? <==> forall i: nat :: FirstUse(r.signed, used, xs, i) ==> !r.keep(xs[i])
    ensures Standing(r, used, xs).Some? ==> exists i: nat ::
        StandsAt(r, used, xs, i) && xs[i] == Standing(r, used, xs).value
  {
    hide After, Admits, FirstUse, Standing;
    var init, last := xs[..|xs| - 1], |xs| - 1;
    OneMore(r, used, init, xs[last]);
    assert init + [xs[last]] == xs;
    assert forall i :: 0 <= i < last ==> init[i] == xs[i];
    if Standing(r, used, init).Some? {
      var i: nat :| StandsAt(r, used, init, i) && init[i] == Standing(r, used, init).value;
      assert FirstUse(r.signed, used, init, i) && FirstUse(r.signed, used, xs, i);
      if FirstUse(r.signed, used, xs, last) && r.keep(xs[last]) && Replaces(r, Standing(r, used, init), xs[last]) {
        assert StandsAt(r, used, xs, last);
      } else {
        assert StandsAt(r, used, xs, i);
      }
    } else if FirstUse(r.signed, used, xs, last) && r.keep(xs[last]) {
      assert StandsAt(r, used, xs, last);
    }
  }

  /** Two positions of one stream do not both stand. */
  lemma OneStands<A>(r: Rule<A>, used: Used, xs: seq<A>, i: nat, j: nat)
    requires StandsAt(r, used, xs, i) && StandsAt(r, used, xs, j)
    ensures i == j
  {
    hide FirstUse;
  }

  /** Rules that say the same of every action have the same positions standing. */
  lemma SameStands<A(!new)>(r: Rule<A>, q: Rule<A>, used: Used, xs: seq<A>, i: nat)
    requires r.ties == q.ties
    requires forall a :: r.signed(a) == q.signed(a) && r.keep(a) == q.keep(a) && r.time(a) == q.time(a)
    ensures StandsAt(r, used, xs, i) <==> StandsAt(q, used, xs, i)
  {
    hide Signs;
    forall j: nat ensures FirstUse(r.signed, used, xs, j) <==> FirstUse(q.signed, used, xs, j) {
      forall k | 0 <= k < |xs| && j < |xs| && r.signed(xs[j]).Some?
        ensures Signs(r.signed, xs[k], r.signed(xs[j]).value.signature)
            <==> Signs(q.signed, xs[k], r.signed(xs[j]).value.signature)
      {
        SameSigns(r.signed, q.signed, xs[k], r.signed(xs[j]).value.signature);
      }
    }
  }

  lemma SameSigns<A>(f: Signing<A>, g: Signing<A>, a: A, signature: Bytes)
    requires f(a) == g(a)
    ensures Signs(f, a, signature) <==> Signs(g, a, signature)
  {
  }

  /** What stands by a rule, said by one that is written another way. */
  lemma StandingBy<A(!new)>(r: Rule<A>, q: Rule<A>, used: Used, xs: seq<A>)
    requires r.ties == q.ties
    requires forall a :: r.signed(a) == q.signed(a) && r.keep(a) == q.keep(a) && r.time(a) == q.time(a)
    ensures forall i: nat :: StandsAt(q, used, xs, i) ==> i < |xs| && Standing(r, used, xs) == Some(xs[i])
    ensures Standing(r, used, xs).Some? ==>
        exists i: nat :: StandsAt(q, used, xs, i) && i < |xs| && xs[i] == Standing(r, used, xs).value
  {
    hide StandsAt, FirstUse;
    StandingIsAt(r, used, xs);
    forall i: nat ensures StandsAt(r, used, xs, i) <==> StandsAt(q, used, xs, i) {
      SameStands(r, q, used, xs, i);
    }
    forall i: nat | StandsAt(r, used, xs, i) ensures i < |xs| && FirstUse(r.signed, used, xs, i) && r.keep(xs[i]) {
      StandsIsUsed(r, used, xs, i);
    }
    forall i: nat | StandsAt(r, used, xs, i) ensures Standing(r, used, xs) == Some(xs[i]) {
      if Standing(r, used, xs).Some? {
        var j: nat :| StandsAt(r, used, xs, j) && j < |xs| && xs[j] == Standing(r, used, xs).value;
        OneStands(r, used, xs, i, j);
      }
    }
  }

  lemma StandsIsUsed<A>(r: Rule<A>, used: Used, xs: seq<A>, i: nat)
    requires StandsAt(r, used, xs, i)
    ensures i < |xs| && FirstUse(r.signed, used, xs, i) && r.keep(xs[i])
  {
  }
}
