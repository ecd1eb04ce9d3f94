/** K profiles (kachat-transaction-processor/src/k_protocol.rs `save_k_broadcast_to_database`): one per
    key, the newest, whatever order the broadcasts are processed in. */
module ProfileBroadcasts {
  import opened Base
  import opened Convergence
  import opened Ledger

  /** A parsed broadcast; `valid` is the content check and the signature check. */
  datatype Broadcast = Broadcast(tx: Bytes, time: int, sender: Bytes, signature: Bytes, profile: Bytes, valid: bool)
  {
    function Signed(): Claim {
      Claim(signature, tx)
    }

    function Stored(): Row {
      Row(tx, time, sender, profile)
    }
  }

  datatype Row = Row(tx: Bytes, time: int, sender: Bytes, profile: Bytes)

  /** The key without its parity byte: the 02 and 03 forms of a key are one person. */
  function Person(key: Bytes): Bytes {
    if key == [] then [] else key[1..]
  }

  /** kachat_used_signatures, kachat_broadcast_signatures and k_broadcasts. */
  datatype Tables = Tables(used: Used, accepted: Used, rows: set<Row>)

  // ------------------------------------------------------------------ one broadcast --

  function Others(rows: set<Row>, b: Broadcast): set<Row> {
    set q | q in rows && Person(q.sender) == Person(b.sender) && q.tx != b.tx
  }

  predicate HasNewer(rows: set<Row>, b: Broadcast) {
    exists q :: q in Others(rows, b) && q.time > b.time
  }

  /** The one statement that replaces a person's profile, unless they have a newer one. */
  function Replace(rows: set<Row>, b: Broadcast): set<Row> {
    if HasNewer(rows, b) then rows
    else
      var kept := rows - Others(rows, b);
      if exists q :: q in rows && q.tx == b.tx then kept else kept + {b.Stored()}
  }

  function Processed(d: Tables, b: Broadcast): Tables {
    if !b.valid || !IsFresh(d.used, b.Signed()) then d
    else
      var e := d.(used := Record(d.used, b.Signed()));
      if !IsFresh(d.accepted, b.Signed()) then e
      else e.(accepted := Record(d.accepted, b.Signed()), rows := Replace(d.rows, b))
  }

  class Database {
    var used: Used
    var accepted: Used
    var rows: set<Row>

    function Contents(): Tables
      reads this
    {
      Tables(used, accepted, rows)
    }

    method Save(b: Broadcast)
      modifies this
      ensures Contents() == Processed(old(Contents()), b)
    {
      var claim := b.Signed();
      if !b.valid {
        return;
      }
      if claim.signature !in used {
        used := used[claim.signature := claim.tx];
      }
      if used[claim.signature] != claim.tx {
        return;
      }
      if claim.signature !in accepted {
        accepted := accepted[claim.signature := claim.tx];
      } else if accepted[claim.signature] != claim.tx {
        return;
      }
      var others := Others(rows, b);
      if !exists q :: q in others && q.time > b.time {
        var there := exists q :: q in rows && q.tx == b.tx;
        rows := rows - others;
        if !there {
          rows := rows + {b.Stored()};
        }
      }
    }
  }

  // ------------------------------------------------------------------ streams of broadcasts --

  /** No profiles yet; both ledgers may hold anything. */
  function Start(used: Used, accepted: Used): Tables {
    Tables(used, accepted, {})
  }

  function ProcessAll(d: Tables, xs: seq<Broadcast>): Tables {
    if xs == [] then d else Processed(ProcessAll(d, xs[..|xs| - 1]), xs[|xs| - 1])
  }

  function TimeOf(b: Broadcast): int {
    b.time
  }

  /** The signature is checked before the ledgers are asked, so a forged copy claims nothing. */
  function ClaimOf(b: Broadcast): Option<Claim> {
    if b.valid then Some(b.Signed()) else None
  }

  /** The rule a person's profile follows. The second ledger refuses only what it held at the start,
      since the first lets one transaction through for each signature. */
  function RuleFor(accepted: Used, person: Bytes): Rule<Broadcast> {
    Rule(ClaimOf, (b: Broadcast) => Person(b.sender) == person && IsFresh(accepted, b.Signed()), TimeOf, true)
  }

  /** A transaction carries one broadcast. */
  ghost predicate OnePerTx(all: set<Broadcast>) {
    forall b, c :: b in all && c in all && b.valid && c.valid && b.tx == c.tx ==> b == c
  }

  function RowsFor(n: Option<Broadcast>): set<Row> {
    if n.None? then {} else {n.value.Stored()}
  }

  function RowsOf(rows: set<Row>, person: Bytes): set<Row> {
    set r | r in rows && Person(r.sender) == person
  }

  predicate Shows(used: Used, accepted: Used, xs: seq<Broadcast>, r: Row) {
    r in RowsFor(Standing(RuleFor(accepted, Person(r.sender)), used, xs))
  }

  /** The second ledger holds what it started with, and signatures the first gave to the same
      transaction. */
  predicate LedgersAgree(accepted: Used, d: Tables) {
    (forall s :: s in accepted ==> s in d.accepted && d.accepted[s] == accepted[s])
    && forall s :: s in d.accepted && s !in accepted ==> s in d.used && d.used[s] == d.accepted[s]
  }

  /** What the tables hold after the broadcasts processed so far. */
  ghost predicate Holds(used: Used, accepted: Used, xs: seq<Broadcast>, d: Tables) {
    d.used == After(ClaimOf, used, xs) && LedgersAgree(accepted, d)
    && forall r :: r in d.rows <==> Shows(used, accepted, xs, r)
  }

  lemma RowIsBroadcast(used: Used, accepted: Used, xs: seq<Broadcast>, d: Tables, q: Row) returns (u: Broadcast)
    requires Holds(used, accepted, xs, d) && q in d.rows
    ensures u in Elements(xs) && u.valid && u.Stored() == q
  {
    hide Standing, After, Person;
    assert Shows(used, accepted, xs, q);
    u := Standing(RuleFor(accepted, Person(q.sender)), used, xs).value;
    StandingIsNewest(RuleFor(accepted, Person(q.sender)), used, xs);
  }

  lemma OnlyItself(used: Used, accepted: Used, xs: seq<Broadcast>, d: Tables, b: Broadcast)
    requires Holds(used, accepted, xs, d) && OnePerTx(Elements(xs + [b])) && b.valid
    ensures forall q :: q in d.rows && q.tx == b.tx ==> q == b.Stored()
  {
    hide Holds, Person;
    forall q | q in d.rows && q.tx == b.tx ensures q == b.Stored() {
      var u := RowIsBroadcast(used, accepted, xs, d, q);
      assert u in Elements(xs + [b]) && b in Elements(xs + [b]);
    }
  }

  /** Both ledgers let the broadcast through. */
  predicate Accepted(d: Tables, b: Broadcast) {
    b.valid && IsFresh(d.used, b.Signed()) && IsFresh(d.accepted, b.Signed())
  }

  /** One more broadcast: what the rule for its person sees. */
  lemma LedgersStep(used: Used, accepted: Used, xs: seq<Broadcast>, d: Tables, b: Broadcast)
    requires d.used == After(ClaimOf, used, xs) && LedgersAgree(accepted, d)
    ensures Processed(d, b).used == After(ClaimOf, used, xs + [b]) && LedgersAgree(accepted, Processed(d, b))
    ensures Accepted(d, b) <==> Admits(ClaimOf, After(ClaimOf, used, xs + [b]), b) && IsFresh(accepted, b.Signed())
  {
    hide Replace, Standing, After;
    OneMore(RuleFor(accepted, []), used, xs, b);
  }

  lemma RowsStep(used: Used, accepted: Used, xs: seq<Broadcast>, d: Tables, b: Broadcast)
    requires Holds(used, accepted, xs, d) && OnePerTx(Elements(xs + [b])) && Accepted(d, b)
    ensures forall r :: r in Processed(d, b).rows <==> Shows(used, accepted, xs + [b], r)
  {
    hide OnePerTx, Person, Standing, After, LedgersAgree;
    LedgersStep(used, accepted, xs, d, b);
    forall r ensures r in Processed(d, b).rows <==> Shows(used, accepted, xs + [b], r) {
      OneMore(RuleFor(accepted, Person(r.sender)), used, xs, b);
      if Person(r.sender) == Person(b.sender) {
        OwnRow(used, accepted, xs, d, b, r);
      } else {
        OtherRow(d, b, r);
      }
    }
  }

  lemma OtherRow(d: Tables, b: Broadcast, r: Row)
    requires Accepted(d, b) && Person(r.sender) != Person(b.sender)
    ensures r in Processed(d, b).rows <==> r in d.rows
  {
    hide Person;
  }

  /** A row of the broadcast's own person: the broadcast's if none newer stands, else what stood. */
  lemma OwnRow(used: Used, accepted: Used, xs: seq<Broadcast>, d: Tables, b: Broadcast, r: Row)
    requires Holds(used, accepted, xs, d) && OnePerTx(Elements(xs + [b])) && Accepted(d, b)
    requires Person(r.sender) == Person(b.sender)
    ensures var n := Standing(RuleFor(accepted, Person(b.sender)), used, xs);
            r in Processed(d, b).rows <==> r in RowsFor(if n.Some? && n.value.time > b.time then n else Some(b))
  {
    hide OnePerTx, Person, Standing, After, LedgersAgree;
    var person := Person(b.sender);
    OnlyItself(used, accepted, xs, d, b);
    var n := Standing(RuleFor(accepted, person), used, xs);
    StandingIsNewest(RuleFor(accepted, person), used, xs);
    assert forall q :: q in d.rows && Person(q.sender) == person ==> Shows(used, accepted, xs, q);
    assert n.Some? ==> Shows(used, accepted, xs, n.value.Stored());
    HeldIsSame(used, accepted, xs, d, b, n);
  }

  /** What stands for the person, and whether it keeps the broadcast out. */
  lemma HeldIsSame(used: Used, accepted: Used, xs: seq<Broadcast>, d: Tables, b: Broadcast, n: Option<Broadcast>)
    requires OnePerTx(Elements(xs + [b])) && b.valid
    requires n.Some? ==>
               n.value in Elements(xs) && n.value.valid && n.value.Stored() in d.rows
               && Person(n.value.sender) == Person(b.sender)
    requires forall q :: q in d.rows && Person(q.sender) == Person(b.sender) ==> n.Some? && q == n.value.Stored()
    ensures HasNewer(d.rows, b) <==> n.Some? && n.value.time > b.time
    ensures n.Some? && n.value.tx == b.tx ==> n.value == b
  {
    hide Person;
    assert n.Some? ==> n.value in Elements(xs + [b]);
    assert b in Elements(xs + [b]);
  }

  lemma {:induction false} TablesHold(used: Used, accepted: Used, xs: seq<Broadcast>)
    requires OnePerTx(Elements(xs))
    ensures Holds(used, accepted, xs, ProcessAll(Start(used, accepted), xs))
  {
    hide Processed, Shows, Accepted, LedgersAgree;
    if xs == [] {
      NothingYet(used, accepted);
    } else {
      var init, b := xs[..|xs| - 1], xs[|xs| - 1];
      assert xs == init + [b] && Elements(init) <= Elements(xs);
      TablesHold(used, accepted, init);
      var d := ProcessAll(Start(used, accepted), init);
      LedgersStep(used, accepted, init, d, b);
      if Accepted(d, b) {
        RowsStep(used, accepted, init, d, b);
      } else {
        IdleStep(used, accepted, init, d, b);
      }
    }
  }

  lemma NothingYet(used: Used, accepted: Used)
    ensures Holds(used, accepted, [], Start(used, accepted))
  {
  }

  /** A broadcast that is not valid or that either ledger refuses changes no profile. */
  lemma IdleStep(used: Used, accepted: Used, xs: seq<Broadcast>, d: Tables, b: Broadcast)
    requires Holds(used, accepted, xs, d) && !Accepted(d, b)
    ensures Holds(used, accepted, xs + [b], Processed(d, b))
  {
    hide Replace, Person, Standing, After;
    LedgersStep(used, accepted, xs, d, b);
    forall r ensures Shows(used, accepted, xs + [b], r) <==> Shows(used, accepted, xs, r) {
      OneMore(RuleFor(accepted, Person(r.sender)), used, xs, b);
    }
  }

  // ------------------------------------------------------------------ convergence --

  /** After any stream, replays and forgeries included, and from any ledgers: a person has one profile,
      their newest broadcast of those whose transaction was the first processed with its signature. */
  lemma NewestProfileStands(used: Used, accepted: Used, xs: seq<Broadcast>, person: Bytes)
    requires OnePerTx(Elements(xs))
    ensures var d, n := ProcessAll(Start(used, accepted), xs), Standing(RuleFor(accepted, person), used, xs);
            RowsOf(d.rows, person) == RowsFor(n) && d.used == After(ClaimOf, used, xs)
            && EndsWith(RuleFor(accepted, person), d.used, Elements(xs), n)
  {
    hide ProcessAll, OnePerTx, Standing, After, Person, LedgersAgree;
    TablesHold(used, accepted, xs);
    StandingIsNewest(RuleFor(accepted, person), used, xs);
    var d, n := ProcessAll(Start(used, accepted), xs), Standing(RuleFor(accepted, person), used, xs);
    forall r ensures r in RowsOf(d.rows, person) <==> r in RowsFor(n) {
      assert Person(r.sender) == person ==> (r in d.rows <==> Shows(used, accepted, xs, r));
    }
  }

  /** The two keys are the same but for their first byte. */
  predicate SamePerson(key: Bytes, person: Bytes) {
    (key == [] && person == []) || exists parity :: key == [parity] + person
  }

  lemma PersonOfKey(key: Bytes, person: Bytes)
    ensures SamePerson(key, person) <==> Person(key) == person
  {
    if key != [] {
      assert key == [key[0]] + key[1..];
    }
  }

  /** The rule of a person's profile with every condition written out; `accepted` is the second ledger
      as it was at the start. */
  function Written(accepted: Used, person: Bytes): Rule<Broadcast> {
    Rule((b: Broadcast) => if b.valid then Some(Claim(b.signature, b.tx)) else None,
         (b: Broadcast) => SamePerson(b.sender, person)
                           && (b.signature in accepted ==> accepted[b.signature] == b.tx),
         (b: Broadcast) => b.time, true)
  }

  predicate RowOfBroadcast(r: Row, b: Broadcast) {
    r.tx == b.tx && r.time == b.time && r.sender == b.sender && r.profile == b.profile
  }

  /** The profiles a person has are the broadcast that stands by its place in the stream. */
  lemma ProfileByPosition(used: Used, accepted: Used, xs: seq<Broadcast>, person: Bytes)
    requires OnePerTx(Elements(xs))
    ensures forall r :: r in ProcessAll(Start(used, accepted), xs).rows && SamePerson(r.sender, person)
                        <==> exists i: nat :: StandsAt(Written(accepted, person), used, xs, i) && RowOfBroadcast(r,
                            xs[i])
  {
    hide ProcessAll, Standing, StandsAt, After, OnePerTx, Person, SamePerson;
    forall k ensures SamePerson(k, person) <==> Person(k) == person {
      PersonOfKey(k, person);
    }
    NewestProfileStands(used, accepted, xs, person);
    StandingBy(RuleFor(accepted, person), Written(accepted, person), used, xs);
    var d, n := ProcessAll(Start(used, accepted), xs), Standing(RuleFor(accepted, person), used, xs);
    forall r ensures r in d.rows && SamePerson(r.sender, person) <==> r in RowsFor(n) {
      assert r in RowsOf(d.rows, person) <==> r in d.rows && Person(r.sender) == person;
    }
  }

  /** The same broadcasts in another order, with other repeats, leave the person the same profile. */
  ghost predicate Converges(used: Used, accepted: Used, xs: seq<Broadcast>, person: Bytes) {
    forall ys, zs :: Elements(ys) == Elements(xs) && Elements(zs) == Elements(xs) ==>
      RowsOf(ProcessAll(Start(used, accepted), ys).rows, person)
          == RowsOf(ProcessAll(Start(used, accepted), zs).rows, person)
  }

  /** A profile converges exactly when every choice of one transaction per signature has the same
      newest broadcast. */
  lemma ProfilesConvergeExactly(used: Used, accepted: Used, xs: seq<Broadcast>, person: Bytes)
    requires OnePerTx(Elements(xs))
    ensures Converges(used, accepted, xs, person)
        <==> ChoicesAgree(RuleFor(accepted, person), used, Elements(xs), RowsFor)
  {
    hide ProcessAll, Standing, ChoicesAgree, RuleFor, OnePerTx, RowsOf;
    OrderMattersExactly(RuleFor(accepted, person), used, xs, RowsFor);
    forall ys: seq<Broadcast> | Elements(ys) == Elements(xs)
      ensures RowsOf(ProcessAll(Start(used, accepted), ys).rows, person)
          == RowsFor(Standing(RuleFor(accepted, person), used, ys))
    {
      NewestProfileStands(used, accepted, ys, person);
    }
  }

  /** A newest valid broadcast of its person. */
  predicate Latest(xs: seq<Broadcast>, b: Broadcast) {
    b in xs && b.valid && forall c :: c in xs && c.valid && Person(c.sender) == Person(b.sender) ==> c.time <= b.time
  }

  /** No two newest broadcasts of the person share their instant; ties below the top do no harm. */
  ghost predicate NoTieAtTop(xs: seq<Broadcast>, person: Bytes) {
    forall b, c :: Latest(xs, b) && Latest(xs, c) && Person(b.sender) == person && Person(c.sender) == person ==> b == c
  }

  function Claims(xs: seq<Broadcast>): set<Claim> {
    set b | b in xs && b.valid :: b.Signed()
  }

  lemma StandsWithoutReplays(used: Used, accepted: Used, xs: seq<Broadcast>, person: Bytes, claims: set<Claim>,
                             n: Option<Broadcast>)
    requires NoReplays(claims) && Claims(xs) <= claims && RecordsOnly(used, claims) && RecordsOnly(accepted, claims)
    ensures CanStand(RuleFor(accepted, person), used, Elements(xs), n)
            <==> if n.Some? then Latest(xs, n.value) && Person(n.value.sender) == person
                 else forall b :: b in xs && b.valid ==> Person(b.sender) != person
  {
    hide CanStand, Person;
    WithoutReplays(RuleFor(accepted, person), used, xs, claims, n);
    assert forall b :: b in xs <==> b in Elements(xs);
    forall b | b in xs && b.valid ensures IsFresh(accepted, b.Signed()) {
      assert b.Signed() in Claims(xs);
    }
  }

  /** Without replayed signatures that is: one newest broadcast. */
  lemma ProfilesConverge(used: Used, accepted: Used, xs: seq<Broadcast>, person: Bytes, claims: set<Claim>)
    requires OnePerTx(Elements(xs))
    requires NoReplays(claims) && Claims(xs) <= claims && RecordsOnly(used, claims) && RecordsOnly(accepted, claims)
    ensures Converges(used, accepted, xs, person) <==> NoTieAtTop(xs, person)
  {
    hide Converges, CanStand, Latest, RuleFor, NoReplays, RecordsOnly, OnePerTx;
    ProfilesConvergeExactly(used, accepted, xs, person);
    forall n: Option<Broadcast>
      ensures CanStand(RuleFor(accepted, person), used, Elements(xs), n)
              <==> if n.Some? then Latest(xs, n.value) && Person(n.value.sender) == person
                   else forall b :: b in xs && b.valid ==> Person(b.sender) != person
    {
      StandsWithoutReplays(used, accepted, xs, person, claims, n);
    }
    if NoTieAtTop(xs, person) {
      forall m, n | CanStand(RuleFor(accepted, person), used, Elements(xs), m)
          && CanStand(RuleFor(accepted, person), used, Elements(xs), n)
        ensures RowsFor(m) == RowsFor(n)
      {
        LatestIsOne(xs, person, m, n);
      }
    }
    if ChoicesAgree(RuleFor(accepted, person), used, Elements(xs), RowsFor) {
      forall b, c | Latest(xs, b) && Latest(xs, c) && Person(b.sender) == person && Person(c.sender) == person
          ensures b == c {
        assert CanStand(RuleFor(accepted, person), used, Elements(xs), Some(b));
        assert CanStand(RuleFor(accepted, person), used, Elements(xs), Some(c));
        assert RowsFor(Some(b)) == RowsFor(Some(c));
        SameRow(xs, b, c);
      }
    }
  }

  lemma LatestIsOne(xs: seq<Broadcast>, person: Bytes, m: Option<Broadcast>, n: Option<Broadcast>)
    requires NoTieAtTop(xs, person)
    requires if m.Some? then Latest(xs, m.value) && Person(m.value.sender) == person
             else forall b :: b in xs && b.valid ==> Person(b.sender) != person
    requires if n.Some? then Latest(xs, n.value) && Person(n.value.sender) == person
             else forall b :: b in xs && b.valid ==> Person(b.sender) != person
    ensures m == n
  {
  }

  lemma SameRow(xs: seq<Broadcast>, b: Broadcast, c: Broadcast)
    requires OnePerTx(Elements(xs)) && Latest(xs, b) && Latest(xs, c) && RowsFor(Some(b)) == RowsFor(Some(c))
    ensures b == c
  {
    assert b.Stored() in RowsFor(Some(c));
    assert b in Elements(xs) && c in Elements(xs);
  }

  /** A signed broadcast copied into a later transaction, and a newer one in between: which of the two
      copies is processed first decides the profile, although no two broadcasts share a time. */
  lemma ReplayDecides(a: Broadcast, copy: Broadcast, c: Broadcast)
    requires a.valid && c.valid && Person(a.sender) == Person(c.sender) && a.signature != c.signature && a.tx != c.tx
    requires copy == a.(tx := copy.tx, time := copy.time) && copy.tx != a.tx && copy.tx != c.tx
    requires a.time < c.time < copy.time
    ensures NoTieAtTop([a, copy, c], Person(a.sender))
    ensures RowsOf(ProcessAll(Start(map[], map[]), [a, copy, c]).rows, Person(a.sender)) == {c.Stored()}
    ensures RowsOf(ProcessAll(Start(map[], map[]), [copy, a, c]).rows, Person(a.sender)) == {copy.Stored()}
  {
    hide ProcessAll, RowsOf, Person;
    FirstCopyCounts(a, copy, c);
    FirstCopyCounts(copy, a, c);
  }

  /** Of two copies only the one processed first is weighed against the third broadcast. */
  lemma FirstCopyCounts(x: Broadcast, y: Broadcast, z: Broadcast)
    requires x.valid && y.valid && z.valid && Person(x.sender) == Person(z.sender) && x.time != z.time
    requires x.signature == y.signature != z.signature && x.tx != y.tx && x.tx != z.tx && y.tx != z.tx
    ensures RowsOf(ProcessAll(Start(map[], map[]), [x, y, z]).rows, Person(x.sender))
            == {if x.time < z.time then z.Stored() else x.Stored()}
  {
    hide ProcessAll, Standing, After, Person, RowsOf;
    var xs := [x, y, z];
    NewestProfileStands(map[], map[], xs, Person(x.sender));
    FirstCopyAdmitted(ClaimOf, x, y, z);
    assert x in Elements(xs) && z in Elements(xs);
  }
}
