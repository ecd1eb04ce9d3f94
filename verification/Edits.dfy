/** Edits (kachat-transaction-processor/src/k_protocol.rs `process_k_edit_in_database`): an indexed post
    shows its author's latest edit within two hours of the post, in whatever order edits arrive. */
module Edits {
  import opened Base
  import opened Convergence
  import opened Ledger

  const EDIT_WINDOW_MS := 7_200_000

  /** A parsed edit; `verified` is the signature check, `allowed` the content policy. */
  datatype Edit = Edit(tx: Bytes, time: int, sender: Bytes, signature: Bytes, post: Bytes, message: Bytes,
                       verified: bool, allowed: bool)
  {
    function Signed(): Claim {
      Claim(signature, tx)
    }
  }

  /** A k_contents row. */
  datatype Post = Post(author: Bytes, time: int, poll: bool, message: Bytes, editedAt: Option<int>)
  {
    /** COALESCE(edited_at, block_time). */
    function Effective(): int {
      if editedAt.Some? then editedAt.value else time
    }
  }

  datatype Tables = Tables(used: Used, posts: map<Bytes, Post>, audit: map<Bytes, Edit>)

  /** The post takes edits by this sender at this time. */
  predicate Editable(p: Post, e: Edit) {
    !p.poll && p.author == e.sender && e.time <= p.time + EDIT_WINDOW_MS
  }

  function Processed(d: Tables, e: Edit): Tables {
    if !e.verified || !IsFresh(d.used, e.Signed()) then d
    else
      var r := d.(used := Record(d.used, e.Signed()));
      if !e.allowed || e.post !in d.posts || !Editable(d.posts[e.post], e) then r
      else
        var p := d.posts[e.post];
        r.(audit := if e.signature in d.audit then d.audit else d.audit[e.signature := e],
           posts := if e.time > p.Effective() then d.posts[e.post := p.(message := e.message, editedAt := Some(e.time))]
                    else d.posts)
  }

  class Database {
    var used: Used
    var posts: map<Bytes, Post>
    /** k_edits, by signature. */
    var audit: map<Bytes, Edit>

    function Contents(): Tables
      reads this
    {
      Tables(used, posts, audit)
    }

    method Process(e: Edit)
      modifies this
      ensures Contents() == Processed(old(Contents()), e)
    {
      if !e.verified {
        return;
      }
      if e.signature !in used {
        used := used[e.signature := e.tx];
      }
      if used[e.signature] != e.tx || !e.allowed || e.post !in posts {
        return;
      }
      var p := posts[e.post];
      if p.poll || p.author != e.sender || e.time > p.time + EDIT_WINDOW_MS {
        return;
      }
      if e.signature !in audit {
        audit := audit[e.signature := e];
      }
      if e.time > p.Effective() {
        posts := posts[e.post := p.(message := e.message, editedAt := Some(e.time))];
      }
    }
  }

  // ------------------------------------------------------------------ streams of edits --

  function ProcessAll(d: Tables, edits: seq<Edit>): Tables {
    if edits == [] then d else Processed(ProcessAll(d, edits[..|edits| - 1]), edits[|edits| - 1])
  }

  function TimeOf(e: Edit): int {
    e.time
  }

  /** The signature is checked before the ledger is asked, so a forged copy claims nothing. */
  function ClaimOf(e: Edit): Option<Claim> {
    if e.verified then Some(e.Signed()) else None
  }

  predicate Accepted(p: Post, id: Bytes, e: Edit) {
    e.verified && e.allowed && e.post == id && Editable(p, e)
  }

  /** The rule a post's text follows: acceptable edits later than what it shows, the first processed
      of the same time staying. */
  function RuleFor(p: Post, id: Bytes): Rule<Edit> {
    Rule(ClaimOf, (e: Edit) => Accepted(p, id, e) && e.time > p.Effective(), TimeOf, false)
  }

  /** The post as it shows an edit, or none. */
  function Shown(p: Post, n: Option<Edit>): Post {
    if n.None? then p else p.(message := n.value.message, editedAt := Some(n.value.time))
  }

  function View(p: Post): Option<Edit> -> Post {
    n => Shown(p, n)
  }

  lemma OneEdit(d: Tables, p: Post, id: Bytes, n: Option<Edit>, e: Edit)
    requires id in d.posts && d.posts[id] == Shown(p, n) && (n.Some? ==> n.value.time > p.Effective())
    ensures var r, u := Processed(d, e), Note(ClaimOf, d.used, e);
            r.used == u && id in r.posts
            && r.posts[id] == Shown(p, if Admits(ClaimOf, u, e) && Accepted(p, id, e) && e.time > p.Effective()
                                          && (n.None? || n.value.time < e.time)
                                       then Some(e) else n)
  {
  }

  /** After any edits, replays and forgeries included, and from any ledger: the post shows the newest of
      the acceptable edits whose transaction was the first processed with its signature, if one is
      later than what it showed. */
  lemma {:induction false} LatestEditShows(d: Tables, id: Bytes, edits: seq<Edit>)
    requires id in d.posts
    ensures var p, r := d.posts[id], ProcessAll(d, edits);
            var n := Standing(RuleFor(p, id), d.used, edits);
            r.used == After(ClaimOf, d.used, edits) && EndsWith(RuleFor(p, id), r.used, Elements(edits), n)
            && id in r.posts && r.posts[id] == Shown(p, n) && (n.Some? ==> n.value.time > p.Effective())
  {
    hide Processed, Note, Admits, EndsWith, Editable;
    var p := d.posts[id];
    StandingIsNewest(RuleFor(p, id), d.used, edits);
    if edits != [] {
      var init, e := edits[..|edits| - 1], edits[|edits| - 1];
      LatestEditShows(d, id, init);
      OneEdit(ProcessAll(d, init), p, id, Standing(RuleFor(p, id), d.used, init), e);
    }
  }

  /** The rule of a post's text with every condition written out: signed by the post's author, allowed,
      the post no poll, within two hours of it, and later than what it shows. */
  function Written(p: Post, id: Bytes): Rule<Edit> {
    Rule((e: Edit) => if e.verified then Some(Claim(e.signature, e.tx)) else None,
         (e: Edit) => e.verified && e.allowed && e.post == id && e.sender == p.author && !p.poll
                      && e.time - p.time <= 2 * 60 * 60 * 1000
                      && e.time > match p.editedAt case Some(t) => t case None => p.time,
         (e: Edit) => e.time, false)
  }

  /** The post has the text and time of the edit that stands by its place in the stream and is otherwise
      as it was; without one it is all as it was. */
  lemma EditByPosition(d: Tables, id: Bytes, edits: seq<Edit>)
    requires id in d.posts
    ensures id in ProcessAll(d, edits).posts
    ensures var (p, q, w) := (d.posts[id], ProcessAll(d, edits).posts[id], Written(d.posts[id], id));
            (forall i: nat :: StandsAt(w, d.used, edits, i) ==>
                q == Post(p.author, p.time, p.poll, edits[i].message, Some(edits[i].time)))
            && ((forall i: nat :: !StandsAt(w, d.used, edits, i)) ==> q == p)
  {
    hide ProcessAll, Standing, StandsAt, After, Admits;
    LatestEditShows(d, id, edits);
    StandingBy(RuleFor(d.posts[id], id), Written(d.posts[id], id), d.used, edits);
  }

  /** Posts come and go only by other handlers, and each audit row is an acceptable edit of a post. */
  lemma {:induction false} AuditIsOfAuthors(d: Tables, edits: seq<Edit>)
    ensures var r := ProcessAll(d, edits);
            r.posts.Keys == d.posts.Keys
            && (forall s :: s in d.audit ==> s in r.audit && r.audit[s] == d.audit[s])
            && forall s :: s in r.audit && s !in d.audit ==>
                 var e := r.audit[s];
                 e in edits && e.signature == s && e.verified && e.allowed && e.post in d.posts
                 && e.sender == d.posts[e.post].author && !d.posts[e.post].poll
                 && e.time - d.posts[e.post].time <= 2 * 60 * 60 * 1000
    ensures forall id :: id in d.posts ==>
        var (p, q) := (d.posts[id], ProcessAll(d, edits).posts[id]);
        p.author == q.author && p.time == q.time && p.poll == q.poll
  {
    hide Processed;
    if edits != [] {
      var init, e := edits[..|edits| - 1], edits[|edits| - 1];
      AuditIsOfAuthors(d, init);
      AuditStep(ProcessAll(d, init), e);
      assert forall f :: f in init ==> f in edits;
      assert e in edits;
    }
  }

  /** One edit writes no more than its own audit row and its own post's text. */
  lemma AuditStep(d: Tables, e: Edit)
    ensures var r := Processed(d, e);
            r.posts.Keys == d.posts.Keys
            && (forall s :: s in d.audit ==> s in r.audit && r.audit[s] == d.audit[s])
            && (forall s :: s in r.audit && s !in d.audit ==>
                  r.audit[s] == e && e.signature == s && e.verified && e.allowed && e.post in d.posts
                  && e.sender == d.posts[e.post].author && !d.posts[e.post].poll
                  && e.time - d.posts[e.post].time <= 7_200_000)
            && forall id :: id in d.posts ==>
                 var (p, q) := (d.posts[id], r.posts[id]);
                 p.author == q.author && p.time == q.time && p.poll == q.poll
  {
  }

  /** Each acceptable edit let through has its audit row, even one too old to show. */
  lemma {:induction false} AuditIsComplete(d: Tables, edits: seq<Edit>, i: nat)
    requires var w := (e: Edit) => if e.verified then Some(Claim(e.signature, e.tx)) else None;
             FirstUse(w, d.used, edits, i)
    requires var e := edits[i];
             e.allowed && e.post in d.posts && e.sender == d.posts[e.post].author && !d.posts[e.post].poll
             && e.time - d.posts[e.post].time <= 7_200_000
    ensures edits[i].signature in ProcessAll(d, edits).audit
  {
    var w := (e: Edit) => if e.verified then Some(Claim(e.signature, e.tx)) else None;
    var (init, last, e) := (edits[..|edits| - 1], |edits| - 1, edits[i]);
    AuditIsOfAuthors(d, init);
    AuditIsOfAuthors(d, edits);
    if i < last {
      FirstUseEarlier(w, d.used, edits, i);
      AuditIsComplete(d, init, i);
    } else {
      AdmittedIsFirstUse(w, d.used, edits, i);
      SameLedger(ClaimOf, w, d.used, edits);
      LatestEditShows(d, e.post, init);
      LatestEditShows(d, e.post, edits);
    }
  }

  // ------------------------------------------------------------------ convergence --

  /** The same edits in another order, with other repeats, leave the post the same. */
  ghost predicate Converges(d: Tables, id: Bytes, edits: seq<Edit>)
    requires id in d.posts
  {
    forall ys, zs :: Elements(ys) == Elements(edits) && Elements(zs) == Elements(edits) ==>
      id in ProcessAll(d, ys).posts && id in ProcessAll(d, zs).posts
      && ProcessAll(d, ys).posts[id] == ProcessAll(d, zs).posts[id]
  }

  /** A post converges exactly when every choice of one transaction per signature shows the same newest
      edit. */
  lemma EditsConvergeExactly(d: Tables, id: Bytes, edits: seq<Edit>)
    requires id in d.posts
    ensures Converges(d, id, edits)
            <==> ChoicesAgree(RuleFor(d.posts[id], id), d.used, Elements(edits), View(d.posts[id]))
  {
    hide ProcessAll, Standing, ChoicesAgree, RuleFor;
    var p := d.posts[id];
    OrderMattersExactly(RuleFor(p, id), d.used, edits, View(p));
    forall ys: seq<Edit>
      ensures id in ProcessAll(d, ys).posts
          && ProcessAll(d, ys).posts[id] == View(p)(Standing(RuleFor(p, id), d.used, ys))
    {
      LatestEditShows(d, id, ys);
    }
  }

  /** A newest of the acceptable edits that are later than what the post shows. */
  predicate Latest(p: Post, id: Bytes, edits: seq<Edit>, e: Edit) {
    e in edits && Accepted(p, id, e) && e.time > p.Effective()
    && forall f :: f in edits && Accepted(p, id, f) ==> f.time <= e.time
  }

  /** The newest edits have one text; ties below the top do no harm. */
  ghost predicate NewestAgree(p: Post, id: Bytes, edits: seq<Edit>) {
    forall e, f :: Latest(p, id, edits, e) && Latest(p, id, edits, f) ==> e.message == f.message
  }

  function Claims(edits: seq<Edit>): set<Claim> {
    set e | e in edits && e.verified :: e.Signed()
  }

  lemma StandsWithoutReplays(p: Post, id: Bytes, used: Used, edits: seq<Edit>, claims: set<Claim>, n: Option<Edit>)
    requires NoReplays(claims) && Claims(edits) <= claims && RecordsOnly(used, claims)
    ensures CanStand(RuleFor(p, id), used, Elements(edits), n)
            <==> if n.Some? then Latest(p, id, edits, n.value)
                 else forall e :: e in edits && Accepted(p, id, e) ==> e.time <= p.Effective()
  {
    hide CanStand, NoReplays, RecordsOnly, Editable;
    WithoutReplays(RuleFor(p, id), used, edits, claims, n);
    assert forall e :: e in edits <==> e in Elements(edits);
  }

  /** Without replayed signatures that is: the newest acceptable edits have one text. */
  lemma EditsConverge(d: Tables, id: Bytes, edits: seq<Edit>, claims: set<Claim>)
    requires id in d.posts && NoReplays(claims) && Claims(edits) <= claims && RecordsOnly(d.used, claims)
    ensures Converges(d, id, edits) <==> NewestAgree(d.posts[id], id, edits)
  {
    hide Converges, CanStand, Latest, RuleFor, NoReplays, RecordsOnly, Accepted;
    var p := d.posts[id];
    EditsConvergeExactly(d, id, edits);
    forall n: Option<Edit>
      ensures CanStand(RuleFor(p, id), d.used, Elements(edits), n)
              <==> if n.Some? then Latest(p, id, edits, n.value)
                   else forall e :: e in edits && Accepted(p, id, e) ==> e.time <= p.Effective()
    {
      StandsWithoutReplays(p, id, d.used, edits, claims, n);
    }
    if NewestAgree(p, id, edits) {
      forall m, n | CanStand(RuleFor(p, id), d.used, Elements(edits), m)
          && CanStand(RuleFor(p, id), d.used, Elements(edits), n)
        ensures View(p)(m) == View(p)(n)
      {
        LatestIsOne(p, id, edits, m, n);
      }
    }
    if ChoicesAgree(RuleFor(p, id), d.used, Elements(edits), View(p)) {
      forall e, f | Latest(p, id, edits, e) && Latest(p, id, edits, f) ensures e.message == f.message {
        assert CanStand(RuleFor(p, id), d.used, Elements(edits), Some(e));
        assert CanStand(RuleFor(p, id), d.used, Elements(edits), Some(f));
        assert View(p)(Some(e)) == View(p)(Some(f));
      }
    }
  }

  lemma LatestIsOne(p: Post, id: Bytes, edits: seq<Edit>, m: Option<Edit>, n: Option<Edit>)
    requires NewestAgree(p, id, edits)
    requires if m.Some? then Latest(p, id, edits, m.value)
             else forall e :: e in edits && Accepted(p, id, e) ==> e.time <= p.Effective()
    requires if n.Some? then Latest(p, id, edits, n.value)
             else forall e :: e in edits && Accepted(p, id, e) ==> e.time <= p.Effective()
    ensures Shown(p, m) == Shown(p, n)
  {
    hide Accepted;
  }

  /** A signed edit copied into a later transaction, and another edit in between: which of the two copies
      is processed first decides the text, although no two edits share a time. */
  lemma ReplayDecides(d: Tables, id: Bytes, a: Edit, copy: Edit, c: Edit)
    requires id in d.posts && d.used == map[]
    requires Accepted(d.posts[id], id, a) && Accepted(d.posts[id], id, c) && Accepted(d.posts[id], id, copy)
    requires copy == a.(tx := copy.tx, time := copy.time) && copy.tx != a.tx && a.signature != c.signature
    requires d.posts[id].Effective() < a.time < c.time < copy.time
    ensures NewestAgree(d.posts[id], id, [a, copy, c])
    ensures var (first, second) := (ProcessAll(d, [a, copy, c]).posts, ProcessAll(d, [copy, a, c]).posts);
            id in first && first[id] == Shown(d.posts[id], Some(c)) && id in second
                && second[id] == Shown(d.posts[id], Some(copy))
  {
    hide ProcessAll, Editable;
    FirstCopyCounts(d, id, a, copy, c);
    FirstCopyCounts(d, id, copy, a, c);
  }

  /** Of two copies only the one processed first is weighed against the third edit. */
  lemma FirstCopyCounts(d: Tables, id: Bytes, x: Edit, y: Edit, z: Edit)
    requires id in d.posts && d.used == map[] && x.time != z.time
    requires Accepted(d.posts[id], id, x) && Accepted(d.posts[id], id, y) && Accepted(d.posts[id], id, z)
    requires x.time > d.posts[id].Effective() && z.time > d.posts[id].Effective()
    requires x.signature == y.signature != z.signature && x.tx != y.tx
    ensures var r := ProcessAll(d, [x, y, z]).posts;
            id in r && r[id] == Shown(d.posts[id], Some(if x.time < z.time then z else x))
  {
    hide ProcessAll, Standing, After, Editable;
    var edits := [x, y, z];
    LatestEditShows(d, id, edits);
    FirstCopyAdmitted(ClaimOf, x, y, z);
    assert x in Elements(edits) && z in Elements(edits);
  }
}
