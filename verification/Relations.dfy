/** Follows and blocks (kachat-transaction-processor/src/k_protocol.rs): the newest action on chain for
    a pair decides, whatever order the transactions are processed in and however often. */
module Relations {
  import opened Base
  import opened Convergence
  import opened Ledger

  type Key = Bytes

  datatype Kind = Follow | Block

  /** A parsed follow/unfollow (`on` for follow) or block/unblock. `verified` is the signature check;
      `related` says a follow involves a KaChat identity. */
  datatype Action = Action(kind: Kind, tx: Bytes, time: int, sender: Key, target: Key, on: bool,
                           signature: Bytes, verified: bool, related: bool)
  {
    function Signed(): Claim {
      Claim(signature, tx)
    }

    /** The pair a row is kept for: both tables and the recency record use the target without its
        first byte. */
    function About(): Pair {
      Pair(kind, sender, Tail(target))
    }

    /** What the handler looks at: a verified action, and of follows only related ones. */
    predicate Counts() {
      verified && (kind == Follow && on ==> related)
    }
  }

  datatype Pair = Pair(kind: Kind, sender: Key, target: Bytes)

  function Tail(k: Key): Bytes {
    if k == [] then [] else k[1..]
  }

  datatype Last = Last(on: bool, time: int)

  datatype Row = Row(tx: Bytes, time: int)

  /** kachat_used_signatures, kachat_relation_last, and k_follows with k_blocks. */
  datatype Tables = Tables(used: Used, last: map<Pair, Last>, rows: map<Pair, Row>)

  // ------------------------------------------------------------------ one action --

  predicate IsNewest(last: map<Pair, Last>, a: Action) {
    a.About() in last ==> last[a.About()].time <= a.time
  }

  function Change(rows: map<Pair, Row>, a: Action): map<Pair, Row> {
    var p := a.About();
    if a.on then (if p in rows then rows else rows[p := Row(a.tx, a.time)])
    else if p in rows && rows[p].time <= a.time then rows - {p}
    else rows
  }

  function Processed(d: Tables, a: Action): Tables {
    if !a.verified || !IsFresh(d.used, a.Signed()) then d
    else
      var e := d.(used := Record(d.used, a.Signed()));
      if !a.Counts() || !IsNewest(d.last, a) then e
      else e.(last := d.last[a.About() := Last(a.on, a.time)], rows := Change(d.rows, a))
  }

  class Database {
    var used: Used
    var last: map<Pair, Last>
    var rows: map<Pair, Row>

    function Contents(): Tables
      reads this
    {
      Tables(used, last, rows)
    }

    constructor ()
      ensures Contents() == Tables(map[], map[], map[])
    {
      used, last, rows := map[], map[], map[];
    }

    method SignatureIsFresh(c: Claim) returns (first: bool)
      modifies this`used
      ensures first == IsFresh(old(used), c) && used == Record(old(used), c)
    {
      if c.signature !in used {
        used := used[c.signature := c.tx];
      }
      first := used[c.signature] == c.tx;
    }

    /** Records the action as the newest for its pair, unless a later one is known. */
    method RelationIsNewest(p: Pair, on: bool, time: int) returns (newest: bool)
      modifies this`last
      ensures newest == (p in old(last) ==> old(last)[p].time <= time)
      ensures last == if newest then old(last)[p := Last(on, time)] else old(last)
    {
      newest := p !in last || last[p].time <= time;
      if newest {
        last := last[p := Last(on, time)];
      }
    }

    method Process(a: Action)
      modifies this
      ensures Contents() == Processed(old(Contents()), a)
    {
      if !a.verified {
        return;
      }
      var first := SignatureIsFresh(a.Signed());
      if !first || (a.kind == Follow && a.on && !a.related) {
        return;
      }
      var p := a.About();
      var newest := RelationIsNewest(p, a.on, a.time);
      if !newest {
        return;
      }
      if a.on {
        if p !in rows {
          rows := rows[p := Row(a.tx, a.time)];
        }
      } else if p in rows && rows[p].time <= a.time {
        rows := rows - {p};
      }
    }

    /** Any stream of actions. */
    method ProcessStream(xs: seq<Action>)
      modifies this
      ensures Contents() == ProcessAll(old(Contents()), xs)
    {
      for i := 0 to |xs|
        invariant Contents() == ProcessAll(old(Contents()), xs[..i])
      {
        assert xs[..i + 1][..i] == xs[..i];
        Process(xs[i]);
      }
      assert xs[..|xs|] == xs;
    }
  }

  // ------------------------------------------------------------------ streams of actions --

  /** Neither table has a row yet; the ledger, which every kind of action shares, may hold anything. */
  function Start(used: Used): Tables {
    Tables(used, map[], map[])
  }

  function ProcessAll(d: Tables, xs: seq<Action>): Tables {
    if xs == [] then d else Processed(ProcessAll(d, xs[..|xs| - 1]), xs[|xs| - 1])
  }

  function TimeOf(a: Action): int {
    a.time
  }

  /** The signature is checked before the ledger is asked, so a forged copy claims nothing. */
  function ClaimOf(a: Action): Option<Claim> {
    if a.verified then Some(a.Signed()) else None
  }

  /** The rule a pair's row follows. */
  function RuleFor(p: Pair): Rule<Action> {
    Rule(ClaimOf, (a: Action) => a.Counts() && a.About() == p, TimeOf, true)
  }

  /** Whether a row is there, by the action standing. */
  function There(n: Option<Action>): bool {
    n.Some? && n.value.on
  }

  lemma OneAction(used: Used, d: Tables, a: Action, p: Pair)
    requires d.used == used
    ensures var e, u := Processed(d, a), Note(ClaimOf, used, a);
            e.used == u
            && if Admits(ClaimOf, u, a) && a.Counts() && a.About() == p && (p in d.last ==> d.last[p].time <= a.time)
               then p in e.last && e.last[p] == Last(a.on, a.time)
                    && (a.on ==> p in e.rows && e.rows[p] == if p in d.rows then d.rows[p] else Row(a.tx, a.time))
                    && (!a.on && (p in d.rows ==> d.rows[p].time <= a.time) ==> p !in e.rows)
               else (p in e.last <==> p in d.last) && (p in d.last ==> e.last[p] == d.last[p])
                    && (p in e.rows <==> p in d.rows) && (p in d.rows ==> e.rows[p] == d.rows[p])
  {
  }

  /** After any stream, replays and forgeries included, and from any ledger: the recorded action is the
      newest of those whose transaction was the first processed with its signature, and a row is
      there exactly when it was a follow or block. */
  lemma {:induction false} RowFollowsNewest(used: Used, xs: seq<Action>, p: Pair)
    ensures var d, n := ProcessAll(Start(used), xs), Standing(RuleFor(p), used, xs);
            d.used == After(ClaimOf, used, xs) && EndsWith(RuleFor(p), d.used, Elements(xs), n)
            && (p in d.last <==> n.Some?) && (p in d.last ==> d.last[p] == Last(n.value.on, n.value.time))
            && (p in d.rows <==> There(n)) && (p in d.rows ==> d.rows[p].time <= n.value.time)
  {
    hide Processed, Note, Admits, EndsWith;
    StandingIsNewest(RuleFor(p), used, xs);
    if xs != [] {
      var init, a := xs[..|xs| - 1], xs[|xs| - 1];
      RowFollowsNewest(used, init, p);
      OneAction(After(ClaimOf, used, init), ProcessAll(Start(used), init), a, p);
    }
  }

  /** The rule of a pair's row with every condition written out: signed, a block or unblock, an unfollow,
      or a follow of a KaChat identity; and an opposite of the same instant replaces what it finds. */
  function Written(kind: Kind, sender: Key, rest: Bytes): Rule<Action> {
    Rule((a: Action) => if a.verified then Some(Claim(a.signature, a.tx)) else None,
         (a: Action) => a.verified && a.kind == kind && a.sender == sender && (a.kind == Block || a.related || !a.on)
                        && if a.target == [] then rest == [] else a.target[1..] == rest,
         (a: Action) => a.time, true)
  }

  /** A row is there exactly when the one action that stands, by its place in the stream, is a follow or
      a block; the record of the pair is that action's. */
  lemma RowByPosition(used: Used, xs: seq<Action>, p: Pair)
    ensures var d, w := ProcessAll(Start(used), xs), Written(p.kind, p.sender, p.target);
            (p in d.rows <==> exists i: nat :: StandsAt(w, used, xs, i) && xs[i].on)
            && forall on, time :: (p in d.last && d.last[p] == Last(on, time))
                                  <==> exists i: nat :: StandsAt(w, used, xs, i) && xs[i].on == on && xs[i].time == time
  {
    hide ProcessAll, Standing, StandsAt, After, Admits;
    var w := Written(p.kind, p.sender, p.target);
    RowFollowsNewest(used, xs, p);
    StandingBy(RuleFor(p), w, used, xs);
  }

  /** A row is that of one of the stream's verified follows or blocks of its pair. */
  lemma {:induction false} RowsNameActions(used: Used, xs: seq<Action>, p: Pair)
    ensures p in ProcessAll(Start(used), xs).rows ==>
        exists a :: a in xs && a.verified && a.on && a.kind == p.kind && a.sender == p.sender
                    && (if a.target == [] then p.target == [] else a.target[1..] == p.target)
                    && ProcessAll(Start(used), xs).rows[p] == Row(a.tx, a.time)
  {
    if xs != [] {
      var init, b := xs[..|xs| - 1], xs[|xs| - 1];
      RowsNameActions(used, init, p);
      assert forall a :: a in xs <==> a in init || a == b;
    }
  }

  // ------------------------------------------------------------------ convergence --

  /** The same actions in another order, with other repeats, never decide whether the row is there. */
  ghost predicate Converges(used: Used, xs: seq<Action>, p: Pair) {
    forall ys, zs :: Elements(ys) == Elements(xs) && Elements(zs) == Elements(xs) ==>
      (p in ProcessAll(Start(used), ys).rows <==> p in ProcessAll(Start(used), zs).rows)
  }

  /** A row converges exactly when every choice of one transaction per signature has newest actions
      that agree. */
  lemma ConvergesExactly(used: Used, xs: seq<Action>, p: Pair)
    ensures Converges(used, xs, p) <==> ChoicesAgree(RuleFor(p), used, Elements(xs), There)
  {
    hide ProcessAll, Standing, ChoicesAgree, RuleFor;
    OrderMattersExactly(RuleFor(p), used, xs, There);
    forall ys: seq<Action> ensures p in ProcessAll(Start(used), ys).rows <==> There(Standing(RuleFor(p), used, ys)) {
      RowFollowsNewest(used, ys, p);
    }
  }

  /** `a` is verified, counts for its pair, and no counting action of the pair is later. */
  predicate Latest(xs: seq<Action>, a: Action) {
    a in xs && a.Counts() && forall b :: b in xs && b.Counts() && b.About() == a.About() ==> b.time <= a.time
  }

  /** The newest actions of the pair are all follows (blocks) or all the opposite. */
  ghost predicate NewestAgree(xs: seq<Action>, p: Pair) {
    forall a, b :: Latest(xs, a) && Latest(xs, b) && a.About() == p && b.About() == p ==> a.on == b.on
  }

  /** What the verified actions put to the ledger. */
  function Claims(xs: seq<Action>): set<Claim> {
    set a | a in xs && a.verified :: a.Signed()
  }

  lemma StandsWithoutReplays(used: Used, xs: seq<Action>, p: Pair, claims: set<Claim>, n: Option<Action>)
    requires NoReplays(claims) && Claims(xs) <= claims && RecordsOnly(used, claims)
    ensures CanStand(RuleFor(p), used, Elements(xs), n)
            <==> if n.Some? then Latest(xs, n.value) && n.value.About() == p
                 else forall b :: b in xs && b.Counts() ==> b.About() != p
  {
    hide CanStand, NoReplays, RecordsOnly;
    WithoutReplays(RuleFor(p), used, xs, claims, n);
    assert forall a :: a in xs <==> a in Elements(xs);
  }

  /** Without replayed signatures that is: the newest actions of the pair agree. Two opposite ones in
      the same instant go to whichever is processed last. */
  lemma ConvergesWithoutTies(used: Used, xs: seq<Action>, p: Pair, claims: set<Claim>)
    requires NoReplays(claims) && Claims(xs) <= claims && RecordsOnly(used, claims)
    ensures Converges(used, xs, p) <==> NewestAgree(xs, p)
  {
    hide Converges, CanStand, Latest, RuleFor, NoReplays, RecordsOnly;
    ConvergesExactly(used, xs, p);
    forall n: Option<Action>
      ensures CanStand(RuleFor(p), used, Elements(xs), n)
              <==> if n.Some? then Latest(xs, n.value) && n.value.About() == p
                   else forall b :: b in xs && b.Counts() ==> b.About() != p
    {
      StandsWithoutReplays(used, xs, p, claims, n);
    }
    if NewestAgree(xs, p) {
      forall m, n | CanStand(RuleFor(p), used, Elements(xs), m) && CanStand(RuleFor(p), used, Elements(xs), n)
        ensures There(m) == There(n)
      {
        LatestIsOne(xs, p, m, n);
      }
    }
    if ChoicesAgree(RuleFor(p), used, Elements(xs), There) {
      forall a, b | Latest(xs, a) && Latest(xs, b) && a.About() == p && b.About() == p ensures a.on == b.on {
        assert CanStand(RuleFor(p), used, Elements(xs), Some(a)) && CanStand(RuleFor(p), used, Elements(xs), Some(b));
        assert There(Some(a)) == There(Some(b));
      }
    }
  }

  /** A pair with a newest action does not also have none. */
  lemma LatestIsOne(xs: seq<Action>, p: Pair, m: Option<Action>, n: Option<Action>)
    requires NewestAgree(xs, p)
    requires if m.Some? then Latest(xs, m.value) && m.value.About() == p
             else forall b :: b in xs && b.Counts() ==> b.About() != p
    requires if n.Some? then Latest(xs, n.value) && n.value.About() == p
             else forall b :: b in xs && b.Counts() ==> b.About() != p
    ensures There(m) == There(n)
  {
  }

  /** Then a row is there exactly when the newest action on chain is a follow (a block). */
  lemma RowShowsNewest(used: Used, xs: seq<Action>, p: Pair, claims: set<Claim>)
    requires NoReplays(claims) && Claims(xs) <= claims && RecordsOnly(used, claims) && NewestAgree(xs, p)
    ensures p in ProcessAll(Start(used), xs).rows <==> exists a :: Latest(xs, a) && a.About() == p && a.on
  {
    hide ProcessAll, Standing, NoReplays, RecordsOnly, CanStand;
    var n := Standing(RuleFor(p), used, xs);
    RowFollowsNewest(used, xs, p);
    StandingCanStand(RuleFor(p), used, xs);
    StandsWithoutReplays(used, xs, p, claims, n);
  }

  /** A signed action copied into a later transaction, and an opposite action in between: which of the
      two copies is processed first decides the row, although no two actions share a time. */
  lemma ReplayDecides(a: Action, copy: Action, c: Action)
    requires a.Counts() && c.Counts() && a.About() == c.About() && a.signature != c.signature
    requires copy == a.(tx := copy.tx, time := copy.time) && copy.tx != a.tx
    requires a.time < c.time < copy.time && a.on != c.on
    ensures var (first, second) := (ProcessAll(Start(map[]), [a, copy, c]), ProcessAll(Start(map[]), [copy, a, c]));
            NewestAgree([a, copy, c], a.About())
            && (a.About() in first.rows <==> c.on) && (a.About() in second.rows <==> a.on)
  {
    hide ProcessAll;
    FirstCopyCounts(a, copy, c);
    FirstCopyCounts(copy, a, c);
  }

  /** Of two copies only the one processed first is weighed against the third action. */
  lemma FirstCopyCounts(x: Action, y: Action, z: Action)
    requires x.Counts() && y.verified && z.Counts() && x.About() == z.About() && x.time != z.time
    requires x.signature == y.signature != z.signature && x.tx != y.tx
    ensures x.About() in ProcessAll(Start(map[]), [x, y, z]).rows <==> if x.time < z.time then z.on else x.on
  {
    hide ProcessAll, Standing, After;
    var xs := [x, y, z];
    RowFollowsNewest(map[], xs, x.About());
    FirstCopyAdmitted(ClaimOf, x, y, z);
    assert x in Elements(xs) && z in Elements(xs);
  }
}
