/** Votes (kachat-transaction-processor/src/k_protocol.rs `save_k_vote_to_database`): one per key and
    post, the newest, whatever order the transactions are processed in; each with its mention. */
module Votes {
  import opened Base
  import opened Convergence
  import opened Ledger

  type Key = Bytes

  /** A parsed up or down vote. `verified` is the signature check, `indexed` that its post is there. */
  datatype Vote = Vote(tx: Bytes, time: int, sender: Key, signature: Bytes, post: Bytes, up: bool, mentioned: Key,
                       verified: bool, indexed: bool)
  {
    function Signed(): Claim {
      Claim(signature, tx)
    }

    function Stored(): Row {
      Row(tx, time, sender, signature, post, up)
    }

    function Notice(): Mention {
      Mention(tx, mentioned, time, sender)
    }

    function Cast(): Ballot {
      Ballot(post, XOnly(sender))
    }

    predicate Counts() {
      verified && indexed
    }
  }

  /** A k_votes row; a k_mentions row of content type vote. */
  datatype Row = Row(tx: Bytes, time: int, sender: Key, signature: Bytes, post: Bytes, up: bool)
  {
    function Cast(): Ballot {
      Ballot(post, XOnly(sender))
    }
  }

  datatype Mention = Mention(content: Bytes, mentioned: Key, time: int, sender: Key)

  datatype Ballot = Ballot(post: Bytes, xonly: Bytes)

  /** The last 32 bytes of a key: its x coordinate, whatever its parity byte. */
  function XOnly(k: Key): Bytes {
    if |k| > 32 then k[|k| - 32..] else k
  }

  datatype Tables = Tables(used: Used, rows: set<Row>, mentions: set<Mention>)

  // ------------------------------------------------------------------ one vote --

  function Replaced(rows: set<Row>, v: Vote): set<Row> {
    set q | q in rows && q.Cast() == v.Cast() && q.time <= v.time && q.signature != v.signature
  }

  /** One of the unique indexes has a row already: by transaction, signature or key and post. */
  predicate Conflicts(rows: set<Row>, v: Vote) {
    exists q :: q in rows && (q.tx == v.tx || q.signature == v.signature || q.Cast() == v.Cast())
  }

  function WithoutMentionsOf(mentions: set<Mention>, gone: set<Row>): set<Mention> {
    set m | m in mentions && !exists q :: q in gone && q.tx == m.content
  }

  function Processed(d: Tables, v: Vote): Tables {
    if !v.verified || !IsFresh(d.used, v.Signed()) then d
    else
      var e := d.(used := Record(d.used, v.Signed()));
      if !v.indexed then e
      else
        var gone := Replaced(d.rows, v);
        var (rows, mentions) := (d.rows - gone, WithoutMentionsOf(d.mentions, gone));
        if Conflicts(rows, v) then e.(rows := rows, mentions := mentions)
        else e.(rows := rows + {v.Stored()}, mentions := mentions + {v.Notice()})
  }

  class Database {
    var used: Used
    var rows: set<Row>
    var mentions: set<Mention>

    function Contents(): Tables
      reads this
    {
      Tables(used, rows, mentions)
    }

    method Save(v: Vote)
      modifies this
      ensures Contents() == Processed(old(Contents()), v)
    {
      if !v.verified {
        return;
      }
      var claim := v.Signed();
      if claim.signature !in used {
        used := used[claim.signature := claim.tx];
      }
      if used[claim.signature] != claim.tx || !v.indexed {
        return;
      }
      var gone := Replaced(rows, v);
      rows := rows - gone;
      if gone != {} {
        mentions := WithoutMentionsOf(mentions, gone);
      } else {
        assert WithoutMentionsOf(mentions, gone) == mentions;
      }
      if !Conflicts(rows, v) {
        rows := rows + {v.Stored()};
        mentions := mentions + {v.Notice()};
      }
    }

    method SaveAll(votes: seq<Vote>)
      modifies this
      ensures Contents() == ProcessAll(old(Contents()), votes)
    {
      hide Processed;
      for i := 0 to |votes|
        invariant Contents() == ProcessAll(old(Contents()), votes[..i])
      {
        assert votes[..i + 1][..i] == votes[..i];
        Save(votes[i]);
      }
      assert votes[..|votes|] == votes;
    }
  }

  // ------------------------------------------------------------------ streams of votes --

  /** No votes yet; the ledger, which every kind of action shares, may hold anything. */
  function Start(used: Used): Tables {
    Tables(used, {}, {})
  }

  function ProcessAll(d: Tables, votes: seq<Vote>): Tables {
    if votes == [] then d else Processed(ProcessAll(d, votes[..|votes| - 1]), votes[|votes| - 1])
  }

  function TimeOf(v: Vote): int {
    v.time
  }

  /** The signature is checked before the ledger is asked, so a forged copy claims nothing. */
  function ClaimOf(v: Vote): Option<Claim> {
    if v.verified then Some(v.Signed()) else None
  }

  /** The rule a ballot's row follows. */
  function RuleFor(b: Ballot): Rule<Vote> {
    Rule(ClaimOf, (v: Vote) => v.Counts() && v.Cast() == b, TimeOf, true)
  }

  /** A transaction carries one vote. */
  ghost predicate OneVotePerTx(all: set<Vote>) {
    forall v, w :: v in all && w in all && v.Counts() && w.Counts() && v.tx == w.tx ==> v == w
  }

  /** The rows a ballot has when `n` stands. */
  function RowsFor(n: Option<Vote>): set<Row> {
    if n.None? then {} else {n.value.Stored()}
  }

  function RowsOf(rows: set<Row>, b: Ballot): set<Row> {
    set r | r in rows && r.Cast() == b
  }

  /** The row a ballot should have after `votes`. */
  predicate Shows(used: Used, votes: seq<Vote>, r: Row) {
    r in RowsFor(Standing(RuleFor(r.Cast()), used, votes))
  }

  /** What the tables hold after the votes processed so far. */
  ghost predicate Holds(used: Used, votes: seq<Vote>, d: Tables) {
    d.used == After(ClaimOf, used, votes)
    && (forall r :: r in d.rows <==> Shows(used, votes, r))
    && (forall m :: m in d.mentions
                    <==> exists v :: v in votes && v.Counts() && v.Stored() in d.rows && v.Notice() == m)
  }

  /** A stored row is a vote that counted and that the ledger lets through. */
  lemma RowIsVote(used: Used, votes: seq<Vote>, d: Tables, q: Row) returns (u: Vote)
    requires Holds(used, votes, d) && q in d.rows
    ensures u in votes && u in Elements(votes) && u.Counts() && u.Stored() == q && Admits(ClaimOf, d.used, u)
  {
    hide Standing, After, XOnly;
    assert Shows(used, votes, q);
    u := Standing(RuleFor(q.Cast()), used, votes).value;
    StandingIsNewest(RuleFor(q.Cast()), used, votes);
  }

  /** A stored row with a fresh vote's transaction or signature is the vote's own. */
  lemma OnlyItself(used: Used, votes: seq<Vote>, d: Tables, v: Vote)
    requires Holds(used, votes, d) && OneVotePerTx(Elements(votes + [v])) && v.Counts() && IsFresh(d.used, v.Signed())
    ensures forall q :: q in d.rows && (q.tx == v.tx || q.signature == v.signature) ==> q == v.Stored()
  {
    hide Holds, XOnly;
    forall q | q in d.rows && (q.tx == v.tx || q.signature == v.signature) ensures q == v.Stored() {
      var u := RowIsVote(used, votes, d, q);
      assert u in Elements(votes + [v]) && v in Elements(votes + [v]);
    }
  }

  lemma RowsStep(used: Used, votes: seq<Vote>, d: Tables, v: Vote)
    requires Holds(used, votes, d) && OneVotePerTx(Elements(votes + [v])) && v.Counts() && IsFresh(d.used, v.Signed())
    ensures forall r :: r in Processed(d, v).rows <==> Shows(used, votes + [v], r)
  {
    hide OneVotePerTx, XOnly, Standing, After;
    var e, b := Processed(d, v), v.Cast();
    OnlyItself(used, votes, d, v);
    var n := Standing(RuleFor(b), used, votes);
    StandingIsNewest(RuleFor(b), used, votes);
    assert forall q :: q in d.rows && q.Cast() == b ==> Shows(used, votes, q);
    assert n.Some? ==> Shows(used, votes, n.value.Stored());
    forall r ensures r in e.rows <==> Shows(used, votes + [v], r) {
      OneMore(RuleFor(r.Cast()), used, votes, v);
      assert r.Cast() != b ==> (r in e.rows <==> r in d.rows);
    }
  }

  lemma MentionsStep(used: Used, votes: seq<Vote>, d: Tables, v: Vote)
    requires Holds(used, votes, d) && OneVotePerTx(Elements(votes + [v])) && v.Counts() && IsFresh(d.used, v.Signed())
    ensures var e := Processed(d, v);
            forall m :: m in e.mentions
                        <==> exists w :: w in votes + [v] && w.Counts() && w.Stored() in e.rows && w.Notice() == m
  {
    hide XOnly, Shows, After;
    var e := Processed(d, v);
    OnlyItself(used, votes, d, v);
    assert forall w :: w in votes ==> w in Elements(votes + [v]);
    forall m ensures m in e.mentions
        <==> exists w :: w in votes + [v] && w.Counts() && w.Stored() in e.rows && w.Notice() == m {
      if m in e.mentions {
        if m in d.mentions {
          var w :| w in votes && w.Counts() && w.Stored() in d.rows && w.Notice() == m;
          assert w in votes + [v] && w.Stored() in e.rows;
        } else {
          assert m == v.Notice() && v in votes + [v];
        }
      }
      if w :| w in votes + [v] && w.Counts() && w.Stored() in e.rows && w.Notice() == m {
        if w.Stored() in d.rows {
          var u := RowIsVote(used, votes, d, w.Stored());
          assert u in Elements(votes + [v]) && w in Elements(votes + [v]) && u == w;
          assert m in d.mentions;
          GoneIsOther(used, votes, d, v, w);
        }
      }
    }
  }

  /** The mention of a vote whose row stays is not taken with another's. */
  lemma GoneIsOther(used: Used, votes: seq<Vote>, d: Tables, v: Vote, w: Vote)
    requires Holds(used, votes, d) && OneVotePerTx(Elements(votes + [v])) && w in votes && w.Counts()
    ensures forall q :: q in d.rows && q.tx == w.tx ==> q == w.Stored()
  {
    hide Holds, XOnly;
    forall q | q in d.rows && q.tx == w.tx ensures q == w.Stored() {
      var u := RowIsVote(used, votes, d, q);
      assert u in Elements(votes + [v]) && w in Elements(votes + [v]);
    }
  }

  /** A vote that does not verify, replays a signature or has no post changes no row. */
  lemma IdleStep(used: Used, votes: seq<Vote>, d: Tables, v: Vote)
    requires Holds(used, votes, d) && !(v.Counts() && IsFresh(d.used, v.Signed()))
    ensures Holds(used, votes + [v], Processed(d, v))
  {
    hide XOnly, Standing, After, Replaced, Conflicts, WithoutMentionsOf;
    var e := Processed(d, v);
    assert e.rows == d.rows && e.mentions == d.mentions;
    LedgerStep(used, votes, d, v);
    forall r ensures Shows(used, votes + [v], r) <==> Shows(used, votes, r) {
      OneMore(RuleFor(r.Cast()), used, votes, v);
    }
    StaleHasNoRow(used, votes, d, v);
    assert forall w :: w in votes + [v] <==> w in votes || w == v;
  }

  lemma StaleHasNoRow(used: Used, votes: seq<Vote>, d: Tables, v: Vote)
    requires Holds(used, votes, d) && !(v.Counts() && IsFresh(d.used, v.Signed()))
    ensures v.Counts() ==> v.Stored() !in d.rows
  {
    hide Holds;
    if v.Stored() in d.rows {
      var u := RowIsVote(used, votes, d, v.Stored());
    }
  }

  lemma {:induction false} TablesHold(used: Used, votes: seq<Vote>)
    requires OneVotePerTx(Elements(votes))
    ensures Holds(used, votes, ProcessAll(Start(used), votes))
  {
    hide Processed, IsFresh, Shows;
    if votes == [] {
      NothingYet(used);
    } else {
      var init, v := votes[..|votes| - 1], votes[|votes| - 1];
      assert votes == init + [v] && Elements(init) <= Elements(votes);
      TablesHold(used, init);
      var d := ProcessAll(Start(used), init);
      if v.Counts() && IsFresh(d.used, v.Signed()) {
        RowsStep(used, init, d, v);
        MentionsStep(used, init, d, v);
        LedgerStep(used, init, d, v);
      } else {
        IdleStep(used, init, d, v);
      }
    }
  }

  lemma NothingYet(used: Used)
    ensures Holds(used, [], Start(used))
  {
  }

  lemma LedgerStep(used: Used, votes: seq<Vote>, d: Tables, v: Vote)
    requires d.used == After(ClaimOf, used, votes)
    ensures Processed(d, v).used == After(ClaimOf, used, votes + [v])
  {
    OneMore(RuleFor(v.Cast()), used, votes, v);
  }

  // ------------------------------------------------------------------ convergence --

  /** After any stream, replays and forgeries included, and from any ledger: a ballot has one row, the
      newest of the votes whose transaction was the first processed with its signature, or none. */
  lemma NewestVoteStands(used: Used, votes: seq<Vote>, b: Ballot)
    requires OneVotePerTx(Elements(votes))
    ensures var d, n := ProcessAll(Start(used), votes), Standing(RuleFor(b), used, votes);
            RowsOf(d.rows, b) == RowsFor(n) && d.used == After(ClaimOf, used, votes)
            && EndsWith(RuleFor(b), d.used, Elements(votes), n)
            && (n.Some? ==> n.value.Notice() in d.mentions)
  {
    hide ProcessAll, OneVotePerTx, Standing, After, XOnly;
    TablesHold(used, votes);
    StandingIsNewest(RuleFor(b), used, votes);
    var d, n := ProcessAll(Start(used), votes), Standing(RuleFor(b), used, votes);
    forall r ensures r in RowsOf(d.rows, b) <==> r in RowsFor(n) {
      assert r.Cast() == b ==> (r in d.rows <==> Shows(used, votes, r));
    }
    if n.Some? {
      assert Shows(used, votes, n.value.Stored()) && n.value in votes;
    }
  }

  /** The key ends in these 32 bytes, or is they when it is no longer. */
  predicate EndsIn(k: Key, xonly: Bytes) {
    (|k| <= 32 && k == xonly) || (|k| > 32 && |xonly| == 32 && forall i :: 0 <= i < 32 ==> xonly[i] == k[|k| - 32 + i])
  }

  lemma EndsInXOnly(k: Key, xonly: Bytes)
    ensures EndsIn(k, xonly) <==> XOnly(k) == xonly
  {
  }

  /** The rule of a ballot's row with every condition written out. */
  function Written(post: Bytes, xonly: Bytes): Rule<Vote> {
    Rule((v: Vote) => if v.verified then Some(Claim(v.signature, v.tx)) else None,
         (v: Vote) => v.verified && v.indexed && v.post == post && EndsIn(v.sender, xonly), (v: Vote) => v.time, true)
  }

  predicate RowOfVote(r: Row, v: Vote) {
    r.tx == v.tx && r.time == v.time && r.sender == v.sender && r.signature == v.signature && r.post == v.post
    && r.up == v.up
  }

  /** The rows a post has for a key are the vote that stands by its place in the stream, with the mention
      that came with it. */
  lemma VoteByPosition(used: Used, votes: seq<Vote>, post: Bytes, xonly: Bytes)
    requires OneVotePerTx(Elements(votes))
    ensures var (d, w) := (ProcessAll(Start(used), votes), Written(post, xonly));
            (forall r :: r in d.rows && r.post == post && EndsIn(r.sender, xonly)
                         <==> exists i: nat :: StandsAt(w, used, votes, i) && RowOfVote(r, votes[i]))
            && forall i: nat :: StandsAt(w, used, votes, i) ==>
                 var v := votes[i]; Mention(v.tx, v.mentioned, v.time, v.sender) in d.mentions
  {
    hide ProcessAll, Standing, StandsAt, After, OneVotePerTx, XOnly, EndsIn;
    var (b, w) := (Ballot(post, xonly), Written(post, xonly));
    forall k ensures EndsIn(k, xonly) <==> XOnly(k) == xonly {
      EndsInXOnly(k, xonly);
    }
    NewestVoteStands(used, votes, b);
    StandingBy(RuleFor(b), w, used, votes);
    var (d, n) := (ProcessAll(Start(used), votes), Standing(RuleFor(b), used, votes));
    forall r ensures r in d.rows && r.post == post && EndsIn(r.sender, xonly) <==> r in RowsFor(n) {
      assert r in RowsOf(d.rows, b) <==> r in d.rows && r.Cast() == b;
    }
  }

  lemma MentionOf(used: Used, votes: seq<Vote>, d: Tables, m: Mention) returns (v: Vote)
    requires Holds(used, votes, d) && m in d.mentions
    ensures v in Elements(votes) && v.Counts() && v.Stored() in d.rows && v.Notice() == m
  {
    hide Shows;
    v :| v in votes && v.Counts() && v.Stored() in d.rows && v.Notice() == m;
  }

  lemma RowMentioned(used: Used, votes: seq<Vote>, d: Tables, r: Row) returns (v: Vote)
    requires Holds(used, votes, d) && r in d.rows
    ensures v in Elements(votes) && v.Notice() in d.mentions && v.Stored() == r
  {
    hide Shows;
    v := RowIsVote(used, votes, d, r);
  }

  /** There is exactly one mention for every row, and none besides. */
  lemma MentionsMatchRows(used: Used, votes: seq<Vote>)
    requires OneVotePerTx(Elements(votes))
    ensures var d := ProcessAll(Start(used), votes);
            (forall r :: r in d.rows ==> exists m :: m in d.mentions && m.content == r.tx)
            && (forall m :: m in d.mentions ==>
                  exists r :: r in d.rows && m.content == r.tx && m.time == r.time && m.sender == r.sender)
            && forall m, k :: m in d.mentions && k in d.mentions && m.content == k.content ==> m == k
  {
    hide ProcessAll, Holds, Elements;
    var d := ProcessAll(Start(used), votes);
    TablesHold(used, votes);
    forall r | r in d.rows ensures exists m :: m in d.mentions && m.content == r.tx {
      var v := RowMentioned(used, votes, d, r);
      assert v.Notice().content == r.tx;
    }
    forall m | m in d.mentions
      ensures exists r :: r in d.rows && m.content == r.tx && m.time == r.time && m.sender == r.sender
    {
      var v := MentionOf(used, votes, d, m);
      assert v.Stored().tx == m.content;
    }
    forall m, k | m in d.mentions && k in d.mentions && m.content == k.content ensures m == k {
      var v := MentionOf(used, votes, d, m);
      var w := MentionOf(used, votes, d, k);
    }
  }

  /** The same votes in another order, with other repeats, leave the ballot the same row. */
  ghost predicate Converges(used: Used, votes: seq<Vote>, b: Ballot) {
    forall ys, zs :: Elements(ys) == Elements(votes) && Elements(zs) == Elements(votes) ==>
      RowsOf(ProcessAll(Start(used), ys).rows, b) == RowsOf(ProcessAll(Start(used), zs).rows, b)
  }

  /** A ballot's row converges exactly when every choice of one transaction per signature has the same
      newest vote. */
  lemma VotesConvergeExactly(used: Used, votes: seq<Vote>, b: Ballot)
    requires OneVotePerTx(Elements(votes))
    ensures Converges(used, votes, b) <==> ChoicesAgree(RuleFor(b), used, Elements(votes), RowsFor)
  {
    hide ProcessAll, Standing, ChoicesAgree, RuleFor, OneVotePerTx, RowsOf;
    OrderMattersExactly(RuleFor(b), used, votes, RowsFor);
    forall ys: seq<Vote> | Elements(ys) == Elements(votes)
      ensures RowsOf(ProcessAll(Start(used), ys).rows, b) == RowsFor(Standing(RuleFor(b), used, ys))
    {
      NewestVoteStands(used, ys, b);
    }
  }

  /** The newest counting vote of a ballot. */
  predicate Latest(votes: seq<Vote>, v: Vote) {
    v in votes && v.Counts() && forall w :: w in votes && w.Counts() && w.Cast() == v.Cast() ==> w.time <= v.time
  }

  /** No two newest votes of the ballot share their instant; ties below the top do no harm. */
  ghost predicate NoTieAtTop(votes: seq<Vote>, b: Ballot) {
    forall v, w :: Latest(votes, v) && Latest(votes, w) && v.Cast() == b && w.Cast() == b ==> v == w
  }

  function Claims(votes: seq<Vote>): set<Claim> {
    set v | v in votes && v.verified :: v.Signed()
  }

  lemma StandsWithoutReplays(used: Used, votes: seq<Vote>, b: Ballot, claims: set<Claim>, n: Option<Vote>)
    requires NoReplays(claims) && Claims(votes) <= claims && RecordsOnly(used, claims)
    ensures CanStand(RuleFor(b), used, Elements(votes), n)
            <==> if n.Some? then Latest(votes, n.value) && n.value.Cast() == b
                 else forall v :: v in votes && v.Counts() ==> v.Cast() != b
  {
    hide CanStand, NoReplays, RecordsOnly, XOnly;
    WithoutReplays(RuleFor(b), used, votes, claims, n);
    assert forall v :: v in votes <==> v in Elements(votes);
  }

  /** Without replayed signatures that is: one newest vote. */
  lemma VotesConverge(used: Used, votes: seq<Vote>, b: Ballot, claims: set<Claim>)
    requires OneVotePerTx(Elements(votes)) && NoReplays(claims) && Claims(votes) <= claims && RecordsOnly(used, claims)
    ensures Converges(used, votes, b) <==> NoTieAtTop(votes, b)
  {
    hide Converges, CanStand, Latest, RuleFor, NoReplays, RecordsOnly;
    VotesConvergeExactly(used, votes, b);
    forall n: Option<Vote>
      ensures CanStand(RuleFor(b), used, Elements(votes), n)
              <==> if n.Some? then Latest(votes, n.value) && n.value.Cast() == b
                   else forall v :: v in votes && v.Counts() ==> v.Cast() != b
    {
      StandsWithoutReplays(used, votes, b, claims, n);
    }
    if NoTieAtTop(votes, b) {
      forall m, n | CanStand(RuleFor(b), used, Elements(votes), m) && CanStand(RuleFor(b), used, Elements(votes), n)
        ensures RowsFor(m) == RowsFor(n)
      {
        LatestIsOne(votes, b, m, n);
      }
    }
    if ChoicesAgree(RuleFor(b), used, Elements(votes), RowsFor) {
      forall v, w | Latest(votes, v) && Latest(votes, w) && v.Cast() == b && w.Cast() == b ensures v == w {
        assert CanStand(RuleFor(b), used, Elements(votes), Some(v))
            && CanStand(RuleFor(b), used, Elements(votes), Some(w));
        assert RowsFor(Some(v)) == RowsFor(Some(w));
        SameRow(votes, v, w);
      }
    }
  }

  lemma LatestIsOne(votes: seq<Vote>, b: Ballot, m: Option<Vote>, n: Option<Vote>)
    requires NoTieAtTop(votes, b)
    requires if m.Some? then Latest(votes, m.value) && m.value.Cast() == b
             else forall v :: v in votes && v.Counts() ==> v.Cast() != b
    requires if n.Some? then Latest(votes, n.value) && n.value.Cast() == b
             else forall v :: v in votes && v.Counts() ==> v.Cast() != b
    ensures m == n
  {
  }

  lemma SameRow(votes: seq<Vote>, v: Vote, w: Vote)
    requires OneVotePerTx(Elements(votes)) && Latest(votes, v) && Latest(votes, w)
        && RowsFor(Some(v)) == RowsFor(Some(w))
    ensures v == w
  {
    assert v.Stored() in RowsFor(Some(w));
    assert v in Elements(votes) && w in Elements(votes);
  }

  /** A signed vote copied into a later transaction, and the voter's change of mind in between: which of
      the two copies is processed first decides the row, although no two votes share a time. */
  lemma ReplayDecides(a: Vote, copy: Vote, c: Vote)
    requires a.Counts() && c.Counts() && a.Cast() == c.Cast() && a.signature != c.signature && a.tx != c.tx
    requires copy == a.(tx := copy.tx, time := copy.time) && copy.tx != a.tx && copy.tx != c.tx
    requires a.time < c.time < copy.time
    ensures NoTieAtTop([a, copy, c], a.Cast())
    ensures RowsOf(ProcessAll(Start(map[]), [a, copy, c]).rows, a.Cast()) == {c.Stored()}
    ensures RowsOf(ProcessAll(Start(map[]), [copy, a, c]).rows, a.Cast()) == {copy.Stored()}
  {
    hide ProcessAll, RowsOf, XOnly;
    FirstCopyCounts(a, copy, c);
    FirstCopyCounts(copy, a, c);
  }

  /** Of two copies only the one processed first is weighed against the third vote. */
  lemma FirstCopyCounts(x: Vote, y: Vote, z: Vote)
    requires x.Counts() && y.Counts() && z.Counts() && x.Cast() == z.Cast() && x.time != z.time
    requires x.signature == y.signature != z.signature && x.tx != y.tx && x.tx != z.tx && y.tx != z.tx
    ensures RowsOf(ProcessAll(Start(map[]), [x, y, z]).rows, x.Cast())
        == {if x.time < z.time then z.Stored() else x.Stored()}
  {
    hide ProcessAll, Standing, After, XOnly, RowsOf;
    var votes := [x, y, z];
    NewestVoteStands(map[], votes, x.Cast());
    FirstCopyAdmitted(ClaimOf, x, y, z);
    assert x in Elements(votes) && z in Elements(votes);
  }
}
