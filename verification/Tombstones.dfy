/** Deleting a post while other workers save it (kachat-transaction-processor/src/k_protocol.rs,
    IDX-039). Each SQL statement is one atomic step; workers interleave in any way. */
module Tombstones {
  import opened Base

  type Id = Bytes
  type Key = Bytes

  // ------------------------------------------------------------------ tables and workers --

  datatype Tables = Tables(
    /** k_contents: post id to author. */
    contents: map<Id, Key>,
    /** kachat_delete_tombstones: (post id, signer). */
    tombstones: set<(Id, Key)>,
    /** k_deletes: post id to signer. */
    audits: map<Id, Key>,
    /** k_votes and k_mentions: (voter or mentioned key, post id). */
    votes: set<(Key, Id)>,
    mentions: set<(Key, Id)>)

  /** Where a worker saving a post is: it looks for a tombstone, saves, looks again, and drops. */
  datatype SaveStep = Check | Save | Recheck | Drop | Saved

  /** Where a worker processing a delete is: tombstone, look for the post, audit row, removal. */
  datatype DeleteStep = Bury | Read | Audit | Remove | Deleted

  /** Where a worker processing a vote is: it looks for the post, then writes the vote row. */
  datatype VoteStep = Look | Cast | Voted

  datatype Worker =
    | Saver(post: Id, author: Key, accepted: bool, mentioned: set<Key>, saving: SaveStep)
    | Deleter(post: Id, signer: Key, deleting: DeleteStep)
    | Voter(voter: Key, target: Id, voting: VoteStep)
  {
    predicate Done() {
      match this
      case Saver(_, _, _, _, s) => s == Saved
      case Deleter(_, _, s) => s == Deleted
      case Voter(_, _, s) => s == Voted
    }

    /** The same job taken up again from its first statement. */
    function Again(): Worker {
      match this
      case Saver(_, _, _, _, _) => this.(saving := Check)
      case Deleter(_, _, _) => this.(deleting := Bury)
      case Voter(_, _, _) => this.(voting := Look)
    }
  }

  datatype System = System(db: Tables, workers: seq<Worker>)

  // ------------------------------------------------------------------ statements --

  /** The post and its mentions, unless it is there already. */
  function Insert(db: Tables, post: Id, author: Key, mentioned: set<Key>): Tables {
    if post in db.contents then db
    else db.(contents := db.contents[post := author], mentions := db.mentions + (set k | k in mentioned :: (k, post)))
  }

  predicate AuthoredBy(db: Tables, post: Id, key: Key) {
    post in db.contents && db.contents[post] == key
  }

  /** The content row when it is the author's, and the votes and mentions of the post. */
  function HardDelete(db: Tables, post: Id, author: Key): Tables {
    db.(contents := if AuthoredBy(db, post, author) then db.contents - {post} else db.contents,
        votes := (set v | v in db.votes && v.1 != post),
        mentions := (set m | m in db.mentions && m.1 != post))
  }

  function StepWorker(db: Tables, w: Worker): (Tables, Worker) {
    match w
    case Saver(post, author, accepted, mentioned, at) =>
      (match at
       case Check => (db, w.(saving := if (post, author) in db.tombstones then Saved else Save))
       case Save => (if accepted then Insert(db, post, author, mentioned) else db, w.(saving := Recheck))
       case Recheck => (db, w.(saving := if (post, author) in db.tombstones then Drop else Saved))
       case Drop => (HardDelete(db, post, author), w.(saving := Saved))
       case Saved => (db, w))
    case Deleter(post, signer, at) =>
      (match at
       case Bury => (db.(tombstones := db.tombstones + {(post, signer)}), w.(deleting := Read))
       case Read => (db, w.(deleting := if AuthoredBy(db, post, signer) then Audit else Deleted))
       case Audit => (if post in db.audits then db else db.(audits := db.audits[post := signer]),
                      w.(deleting := Remove))
       case Remove => (HardDelete(db, post, signer), w.(deleting := Deleted))
       case Deleted => (db, w))
    case Voter(voter, target, at) =>
      (match at
       case Look => (db, w.(voting := if target in db.contents then Cast else Voted))
       case Cast => (db.(votes := db.votes + {(voter, target)}), w.(voting := Voted))
       case Voted => (db, w))
  }

  // ------------------------------------------------------------------ runs --

  /** One worker's next statement, or a worker stopped and its job taken up again. */
  datatype Event = Next(worker: nat) | Interrupt(worker: nat)

  function Happen(s: System, e: Event): (r: System)
    ensures |r.workers| == |s.workers|
  {
    if e.worker >= |s.workers| then s
    else match e
      case Next(i) =>
        var (db, w) := StepWorker(s.db, s.workers[i]);
        System(db, s.workers[i := w])
      case Interrupt(i) => s.(workers := s.workers[i := s.workers[i].Again()])
  }

  function Run(s: System, events: seq<Event>): (r: System)
    ensures |r.workers| == |s.workers|
  {
    if events == [] then s else Happen(Run(s, events[..|events| - 1]), events[|events| - 1])
  }

  predicate AllDone(s: System) {
    forall w :: w in s.workers ==> w.Done()
  }

  // ------------------------------------------------------------------ what every run keeps --

  /** A post id stands for one transaction, so for one author; and a worker's place in its job says
      what it has already seen and written. */
  ghost predicate Sound(author: Id -> Key, s: System) {
    (forall p :: p in s.db.contents ==> s.db.contents[p] == author(p))
    && (forall p :: p in s.db.audits ==> s.db.audits[p] == author(p))
    && forall w :: w in s.workers ==> SoundWorker(author, s.db, w)
  }

  predicate SoundWorker(author: Id -> Key, db: Tables, w: Worker) {
    match w
    case Saver(post, a, _, _, at) => a == author(post) && (at == Drop ==> (post, a) in db.tombstones)
    case Deleter(post, signer, at) =>
      (at != Bury ==> (post, signer) in db.tombstones) && (at == Audit || at == Remove ==> signer == author(post))
      && (at == Remove ==> post in db.audits)
    case Voter(_, _, _) => true
  }

  lemma HappenIsSound(author: Id -> Key, s: System, e: Event)
    requires Sound(author, s)
    ensures Sound(author, Happen(s, e)) && s.db.tombstones <= Happen(s, e).db.tombstones
  {
    hide StepWorker;
    if e.worker < |s.workers| {
      var w := s.workers[e.worker];
      assert w in s.workers;
      StepIsSound(author, s, w);
      var after := Happen(s, e);
      forall v | v in after.workers ensures SoundWorker(author, after.db, v) {
        assert v == after.workers[e.worker] || v in s.workers;
      }
    }
  }

  lemma StepIsSound(author: Id -> Key, s: System, w: Worker)
    requires Sound(author, s) && SoundWorker(author, s.db, w)
    ensures var (db, v) := StepWorker(s.db, w);
            s.db.tombstones <= db.tombstones && s.db.audits.Keys <= db.audits.Keys
            && SoundWorker(author, db, v)
            && (forall p :: p in db.contents ==> db.contents[p] == author(p))
            && forall p :: p in db.audits ==> db.audits[p] == author(p)
  {
  }

  /** What `w` will still remove: a post it has saved or is to look at. With `early`, a save under
      way counts too. */
  predicate Owes(w: Worker, p: Id, a: Key, early: bool) {
    match w
    case Saver(post, author, _, _, at) => post == p && author == a
        && (at == Recheck || at == Drop || (early && at == Save))
    case Deleter(post, signer, at) => post == p && signer == a && at != Deleted
    case Voter(_, _, _) => false
  }

  ghost predicate Owed(s: System, p: Id, a: Key, early: bool) {
    exists i :: 0 <= i < |s.workers| && Owes(s.workers[i], p, a, early)
  }

  /** A post still there although its author deleted it. */
  predicate Doomed(s: System, p: Id, a: Key) {
    AuthoredBy(s.db, p, a) && (p, a) in s.db.tombstones
  }

  /** Stopping here loses what the worker owes: it will not look at the post again. */
  predicate Careless(s: System, e: Event) {
    e.Interrupt? && e.worker < |s.workers| && s.workers[e.worker].Saver?
    && (s.workers[e.worker].saving == Recheck || s.workers[e.worker].saving == Drop)
  }

  /** As long as a deleted post is there, some worker owes its removal. */
  lemma DoomedIsOwed(author: Id -> Key, s: System, e: Event, p: Id, a: Key, early: bool)
    requires Sound(author, s) && (early ==> e.Next?) && !Careless(s, e)
    requires Doomed(s, p, a) ==> Owed(s, p, a, early)
    ensures Doomed(Happen(s, e), p, a) ==> Owed(Happen(s, e), p, a, early)
  {
    var after := Happen(s, e);
    if e.worker < |s.workers| && Doomed(after, p, a) {
      if Doomed(s, p, a) {
        var i :| 0 <= i < |s.workers| && Owes(s.workers[i], p, a, early);
        assert Owes(after.workers[i], p, a, early);
      } else {
        assert Owes(after.workers[e.worker], p, a, early);
      }
    }
  }

  /** No worker that had saved a post was stopped before it looked for a delete again. */
  ghost predicate NoCarelessStop(s: System, events: seq<Event>) {
    events != [] ==>
      NoCarelessStop(s, events[..|events| - 1]) && !Careless(Run(s, events[..|events| - 1]), events[|events| - 1])
  }

  lemma {:induction false} RunIsSound(author: Id -> Key, s: System, events: seq<Event>)
    requires Sound(author, s)
    ensures Sound(author, Run(s, events)) && s.db.tombstones <= Run(s, events).db.tombstones
  {
    hide Sound;
    if events != [] {
      RunIsSound(author, s, events[..|events| - 1]);
      HappenIsSound(author, Run(s, events[..|events| - 1]), events[|events| - 1]);
    }
  }

  lemma {:induction false} DoomedIsOwedThroughout(author: Id -> Key, s: System, events: seq<Event>, p: Id, a: Key,
                                                  early: bool)
    requires Sound(author, s) && NoCarelessStop(s, events) && (early ==> forall e :: e in events ==> e.Next?)
    requires Doomed(s, p, a) ==> Owed(s, p, a, early)
    ensures Doomed(Run(s, events), p, a) ==> Owed(Run(s, events), p, a, early)
  {
    hide Doomed, Owed, Sound, Happen, Careless;
    if events != [] {
      var init := events[..|events| - 1];
      assert events[|events| - 1] in events && forall e :: e in init ==> e in events;
      DoomedIsOwedThroughout(author, s, init, p, a, early);
      RunIsSound(author, s, init);
      DoomedIsOwed(author, Run(s, init), events[|events| - 1], p, a, early);
    }
  }

  lemma DoneOwesNothing(s: System, p: Id, a: Key, early: bool)
    requires AllDone(s)
    ensures !Owed(s, p, a, early)
  {
    assert forall i :: 0 <= i < |s.workers| ==> s.workers[i] in s.workers;
  }

  /** Tables that hold no post its author has deleted, and workers anywhere in their jobs. */
  ghost predicate Start(author: Id -> Key, s: System) {
    Sound(author, s) && forall p, a :: !Doomed(s, p, a)
  }

  /** However the statements of any number of savers and deleters interleave, and wherever workers
      are stopped and their jobs taken up again except between a save and its second look: once all
      have finished, no post is there that its author has deleted. */
  lemma DeletedIsGone(author: Id -> Key, s: System, events: seq<Event>, i: nat)
    requires Start(author, s) && NoCarelessStop(s, events) && AllDone(Run(s, events))
    requires i < |s.workers| && Run(s, events).workers[i].Deleter?
    ensures var d := Run(s, events).workers[i]; !AuthoredBy(Run(s, events).db, d.post, d.signer)
  {
    hide Sound, Happen, NoCarelessStop, Run;
    var end := Run(s, events);
    RunIsSound(author, s, events);
    var d := end.workers[i];
    assert d in end.workers && SoundWorker(author, end.db, d) by { SoundMembers(author, end, d); }
    DoomedIsOwedThroughout(author, s, events, d.post, d.signer, false);
    DoneOwesNothing(end, d.post, d.signer, false);
  }

  /** A delete that takes a post away has its audit row, under the author, which stays. */
  lemma RemovalIsAudited(author: Id -> Key, s: System, i: nat, p: Id)
    requires Sound(author, s) && i < |s.workers| && s.workers[i].Deleter?
    requires p in s.db.contents && p !in Happen(s, Next(i)).db.contents
    ensures s.workers[i].post == p && s.workers[i].signer == author(p)
    ensures p in s.db.audits && s.db.audits[p] == author(p) && Happen(s, Next(i)).db.audits == s.db.audits
  {
    assert s.workers[i] in s.workers;
  }

  lemma SoundMembers(author: Id -> Key, s: System, w: Worker)
    requires Sound(author, s)
    ensures w in s.workers ==> SoundWorker(author, s.db, w)
  {
  }

  // ------------------------------------------------------------------ the rows of a post --

  /** The mention rows are exactly those of the posts that are there, each post mentioning whom its
      transaction names; `names` says whom. */
  ghost predicate MentionsRight(names: Id -> set<Key>, s: System) {
    (forall k, p :: (k, p) in s.db.mentions <==> p in s.db.contents && k in names(p))
    && forall w :: w in s.workers && w.Saver? ==> w.mentioned == names(w.post)
  }

  lemma MentionsStep(author: Id -> Key, names: Id -> set<Key>, s: System, e: Event)
    requires Sound(author, s) && MentionsRight(names, s)
    ensures MentionsRight(names, Happen(s, e))
  {
    hide StepWorker;
    if e.worker < |s.workers| {
      var w, after := s.workers[e.worker], Happen(s, e);
      assert w in s.workers;
      WorkerMentions(author, names, s.db, w);
      assert forall v :: v in after.workers ==> v == after.workers[e.worker] || v in s.workers;
    }
  }

  lemma WorkerMentions(author: Id -> Key, names: Id -> set<Key>, db: Tables, w: Worker)
    requires forall k, p :: (k, p) in db.mentions <==> p in db.contents && k in names(p)
    requires forall p :: p in db.contents ==> db.contents[p] == author(p)
    requires SoundWorker(author, db, w) && (w.Saver? ==> w.mentioned == names(w.post))
    ensures var (after, v) := StepWorker(db, w);
            (forall k, p :: (k, p) in after.mentions <==> p in after.contents && k in names(p))
            && (v.Saver? <==> w.Saver?) && (v.Saver? ==> v.mentioned == w.mentioned && v.post == w.post)
  {
  }

  /** Through any run, stops anywhere, posts have exactly their mentions, and a post that is gone has none. */
  lemma {:induction false} MentionsGoWithPosts(author: Id -> Key, names: Id -> set<Key>, s: System, events: seq<Event>)
    requires Sound(author, s) && MentionsRight(names, s)
    ensures MentionsRight(names, Run(s, events))
  {
    hide Sound, MentionsRight, Happen;
    if events != [] {
      MentionsGoWithPosts(author, names, s, events[..|events| - 1]);
      RunIsSound(author, s, events[..|events| - 1]);
      MentionsStep(author, names, Run(s, events[..|events| - 1]), events[|events| - 1]);
    }
  }

  /** The worker writes a vote for a post that has gone since it looked. */
  predicate CastsLate(s: System, e: Event, k: Key, p: Id) {
    e.Next? && e.worker < |s.workers| && s.workers[e.worker] == Voter(k, p, Cast) && p !in s.db.contents
  }

  /** The post is saved, or a delete of it removes what is there. */
  predicate Clears(s: System, e: Event, p: Id) {
    e.Next? && e.worker < |s.workers|
    && match s.workers[e.worker]
       case Saver(post, _, accepted, _, at) => post == p && ((at == Save && accepted) || at == Drop)
       case Deleter(post, _, at) => post == p && at == Remove
       case Voter(_, _, _) => false
  }

  /** A vote came late, and since then the post was neither saved nor deleted again. */
  ghost predicate Strays(s: System, events: seq<Event>, k: Key, p: Id) {
    events != []
    && var (init, e) := (events[..|events| - 1], events[|events| - 1]);
       CastsLate(Run(s, init), e, k, p) || (Strays(s, init, k, p) && !Clears(Run(s, init), e, p))
  }

  ghost predicate VotesThere(s: System) {
    forall k, p :: (k, p) in s.db.votes ==> p in s.db.contents
  }

  lemma StrayStep(author: Id -> Key, s: System, e: Event, k: Key, p: Id)
    requires Sound(author, s)
    ensures var before, after := (k, p) in s.db.votes && p !in s.db.contents,
                                 (k, p) in Happen(s, e).db.votes && p !in Happen(s, e).db.contents;
            after <==> CastsLate(s, e, k, p) || (before && !Clears(s, e, p))
  {
    if e.worker < |s.workers| {
      assert s.workers[e.worker] in s.workers;
    }
  }

  /** A vote row outlives its post exactly when it was written late. Every other vote goes with the post. */
  lemma {:induction false} StrayVotesExactly(author: Id -> Key, s: System, events: seq<Event>, k: Key, p: Id)
    requires Sound(author, s) && VotesThere(s)
    ensures (k, p) in Run(s, events).db.votes && p !in Run(s, events).db.contents <==> Strays(s, events, k, p)
  {
    hide Sound, Happen, CastsLate, Clears;
    if events != [] {
      var init := events[..|events| - 1];
      StrayVotesExactly(author, s, init, k, p);
      RunIsSound(author, s, init);
      StrayStep(author, Run(s, init), events[|events| - 1], k, p);
    }
  }

  /** Once all have finished, nothing is left of a post its author deleted: not the post, not a mention in
      it, and not a vote for it but one written late. */
  lemma DeletedLeavesNothing(author: Id -> Key, names: Id -> set<Key>, s: System, events: seq<Event>, i: nat)
    requires Start(author, s) && MentionsRight(names, s) && VotesThere(s)
    requires NoCarelessStop(s, events) && AllDone(Run(s, events))
    requires i < |s.workers| && Run(s, events).workers[i].Deleter?
    ensures var d, db := Run(s, events).workers[i], Run(s, events).db;
            d.signer == author(d.post) ==>
              d.post !in db.contents && (forall k :: (k, d.post) !in db.mentions)
              && forall k :: (k, d.post) in db.votes ==> Strays(s, events, k, d.post)
  {
    hide Sound, Happen, NoCarelessStop, Run, Strays, VotesThere;
    var d, db := Run(s, events).workers[i], Run(s, events).db;
    DeletedIsGone(author, s, events, i);
    RunIsSound(author, s, events);
    AuthorsAre(author, Run(s, events), d.post);
    MentionsGoWithPosts(author, names, s, events);
    forall k | (k, d.post) in db.votes && d.signer == author(d.post) ensures Strays(s, events, k, d.post) {
      StrayVotesExactly(author, s, events, k, d.post);
    }
  }

  lemma AuthorsAre(author: Id -> Key, s: System, p: Id)
    requires Sound(author, s)
    ensures p in s.db.contents ==> AuthoredBy(s.db, p, author(p))
  {
  }

  /** The run in which a vote outlives its post: the voter has seen the post, the delete takes it and its
      votes, and then the vote is written. */
  lemma LateVoteStays(post: Id, author: Key, voter: Key) returns (s: System, events: seq<Event>)
    ensures Start(p => author, s) && VotesThere(s) && NoCarelessStop(s, events)
    ensures s.db.contents == map[post := author] && s.workers == [Deleter(post, author, Bury), Voter(voter, post, Look)]
    ensures AllDone(Run(s, events)) && post !in Run(s, events).db.contents && (voter, post) in Run(s, events).db.votes
  {
    hide Run, Strays, NoCarelessStop;
    var first, second := [Next(1), Next(0), Next(0)], [Next(0), Next(0), Next(1)];
    s := System(Tables(map[post := author], {}, map[], {}, {}),
                [Deleter(post, author, Bury), Voter(voter, post, Look)]);
    events := first + second;
    NextIsCareful(s, events);
    RunConcat(s, first, second);
    RunThree(s, Next(1), Next(0), Next(0));
    var tables := Tables(map[post := author], {(post, author)}, map[], {}, {});
    var looked := System(s.db, [Deleter(post, author, Bury), Voter(voter, post, Cast)]);
    assert Happen(s, Next(1)) == looked;
    var buried := System(tables, [Deleter(post, author, Read), Voter(voter, post, Cast)]);
    assert Happen(looked, Next(0)) == buried;
    var read := System(tables, [Deleter(post, author, Audit), Voter(voter, post, Cast)]);
    assert Happen(buried, Next(0)) == read;
    RunThree(read, Next(0), Next(0), Next(1));
    DeleteThenVote(post, author, voter, read);
  }

  lemma DeleteThenVote(post: Id, author: Key, voter: Key, s: System)
    requires s == System(Tables(map[post := author], {(post, author)}, map[], {}, {}),
                         [Deleter(post, author, Audit), Voter(voter, post, Cast)])
    ensures var end := Happen(Happen(Happen(s, Next(0)), Next(0)), Next(1));
            AllDone(end) && post !in end.db.contents && (voter, post) in end.db.votes
  {
    var audited := Happen(s, Next(0));
    assert audited.workers == [Deleter(post, author, Remove), Voter(voter, post, Cast)];
    var gone := Happen(audited, Next(0));
    assert gone.workers == [Deleter(post, author, Deleted), Voter(voter, post, Cast)] && post !in gone.db.contents;
    assert Happen(gone, Next(1)).workers == [Deleter(post, author, Deleted), Voter(voter, post, Voted)];
  }

  // ------------------------------------------------------------------ other people's deletes --

  /** No delete signed by `a` for `p` exists: no tombstone and no worker. */
  ghost predicate NotDeletedBy(s: System, p: Id, a: Key) {
    (p, a) !in s.db.tombstones && forall w :: w in s.workers ==> !(w.Deleter? && w.post == p && w.signer == a)
  }

  lemma ForeignStep(author: Id -> Key, s: System, e: Event, p: Id)
    requires Sound(author, s) && NotDeletedBy(s, p, author(p))
    ensures NotDeletedBy(Happen(s, e), p, author(p))
    ensures p in s.db.contents ==> p in Happen(s, e).db.contents
    ensures forall k :: (k, p) in s.db.votes ==> (k, p) in Happen(s, e).db.votes
    ensures forall k :: (k, p) in s.db.mentions ==> (k, p) in Happen(s, e).db.mentions
  {
    if e.worker < |s.workers| {
      assert s.workers[e.worker] in s.workers;
    }
  }

  /** Deletes signed by anyone but the author remove neither the post nor its votes and mentions,
      however often and whenever they are processed. */
  lemma {:induction false} ForeignDeletesDoNothing(author: Id -> Key, s: System, events: seq<Event>, p: Id)
    requires Sound(author, s) && NotDeletedBy(s, p, author(p))
    ensures NotDeletedBy(Run(s, events), p, author(p))
    ensures p in s.db.contents ==> AuthoredBy(Run(s, events).db, p, author(p))
    ensures forall k :: (k, p) in s.db.votes ==> (k, p) in Run(s, events).db.votes
    ensures forall k :: (k, p) in s.db.mentions ==> (k, p) in Run(s, events).db.mentions
  {
    hide NotDeletedBy, Happen;
    if events != [] {
      var init := events[..|events| - 1];
      ForeignDeletesDoNothing(author, s, init, p);
      RunIsSound(author, s, init);
      ForeignStep(author, Run(s, init), events[|events| - 1], p);
    }
    RunIsSound(author, s, events);
  }

  // ------------------------------------------------------------------ exactly when a deleted post goes --

  lemma UnowedStep(author: Id -> Key, s: System, e: Event, p: Id, a: Key)
    requires Sound(author, s) && Doomed(s, p, a) && !Owed(s, p, a, true) && e.Next?
    ensures Doomed(Happen(s, e), p, a) && !Owed(Happen(s, e), p, a, true)
  {
    if e.worker < |s.workers| {
      var w := s.workers[e.worker];
      assert w in s.workers && !Owes(w, p, a, true);
      var after := Happen(s, e);
      assert forall i :: 0 <= i < |s.workers| && i != e.worker ==> after.workers[i] == s.workers[i];
    }
  }

  lemma {:induction false} UnowedStays(author: Id -> Key, s: System, events: seq<Event>, p: Id, a: Key)
    requires Sound(author, s) && Doomed(s, p, a) && !Owed(s, p, a, true) && forall e :: e in events ==> e.Next?
    ensures Doomed(Run(s, events), p, a)
    ensures !Owed(Run(s, events), p, a, true)
  {
    hide Doomed, Owed, Happen;
    if events != [] {
      var init := events[..|events| - 1];
      assert events[|events| - 1] in events && forall e :: e in init ==> e in events;
      UnowedStays(author, s, init, p, a);
      RunIsSound(author, s, init);
      UnowedStep(author, Run(s, init), events[|events| - 1], p, a);
    }
  }

  lemma {:induction false} NextIsCareful(s: System, events: seq<Event>)
    requires forall e :: e in events ==> e.Next?
    ensures NoCarelessStop(s, events)
  {
    if events != [] {
      assert events[|events| - 1] in events;
      NextIsCareful(s, events[..|events| - 1]);
    }
  }

  /** From any point where a post is there that its author has deleted: when the workers run to their
      end, it goes exactly when some worker still owes its removal. */
  lemma DoomedGoesWhenOwed(author: Id -> Key, s: System, events: seq<Event>, p: Id, a: Key)
    requires Sound(author, s) && Doomed(s, p, a) && (forall e :: e in events ==> e.Next?) && AllDone(Run(s, events))
    ensures !AuthoredBy(Run(s, events).db, p, a) <==> Owed(s, p, a, true)
  {
    hide Sound, Owed, NoCarelessStop;
    RunIsSound(author, s, events);
    if Owed(s, p, a, true) {
      NextIsCareful(s, events);
      DoomedIsOwedThroughout(author, s, events, p, a, true);
      DoneOwesNothing(Run(s, events), p, a, true);
    } else {
      UnowedStays(author, s, events, p, a);
    }
  }

  /** The stop that loses a delete: a worker saves a post, is stopped before its second look, and the
      delete had looked for the post before it was saved. Taken up again, the save finds the
      tombstone first and returns without looking at the post, which stays. */
  lemma InterruptedSaveSurvives(post: Id, author: Key) returns (s: System, events: seq<Event>)
    ensures Start(p => author, s) && s.workers == [Saver(post, author, true, {}, Check), Deleter(post, author, Bury)]
    ensures AllDone(Run(s, events)) && AuthoredBy(Run(s, events).db, post, author)
    ensures (post, author) in Run(s, events).db.tombstones
  {
    hide Run;
    var first, second := [Next(0), Next(1), Next(1)], [Next(0), Interrupt(0), Next(0)];
    s := System(Tables(map[], {}, map[], {}, {}), [Saver(post, author, true, {}, Check), Deleter(post, author, Bury)]);
    events := first + second;
    RunConcat(s, first, second);
    DeleteMissesPost(post, author, s);
    SaveReturnsEarly(post, author, Run(s, first));
  }

  /** The worker has looked for a delete; then the delete comes, finds no post and is done. */
  lemma DeleteMissesPost(post: Id, author: Key, s: System)
    requires s == System(Tables(map[], {}, map[], {}, {}),
                         [Saver(post, author, true, {}, Check), Deleter(post, author, Bury)])
    ensures Run(s, [Next(0), Next(1), Next(1)])
            == System(Tables(map[], {(post, author)}, map[], {}, {}),
                      [Saver(post, author, true, {}, Save), Deleter(post, author, Deleted)])
  {
    RunThree(s, Next(0), Next(1), Next(1));
    var looked := s.(workers := [Saver(post, author, true, {}, Save), Deleter(post, author, Bury)]);
    assert Happen(s, Next(0)) == looked;
    var buried := System(Tables(map[], {(post, author)}, map[], {}, {}),
                         [Saver(post, author, true, {}, Save), Deleter(post, author, Read)]);
    assert Happen(looked, Next(1)) == buried;
    assert Happen(buried, Next(1)).workers == [Saver(post, author, true, {}, Save), Deleter(post, author, Deleted)];
  }

  /** The worker saves, is stopped, starts again and finds the tombstone. */
  lemma SaveReturnsEarly(post: Id, author: Key, s: System)
    requires s == System(Tables(map[], {(post, author)}, map[], {}, {}),
                         [Saver(post, author, true, {}, Save), Deleter(post, author, Deleted)])
    ensures var end := Run(s, [Next(0), Interrupt(0), Next(0)]);
            end.workers == [Saver(post, author, true, {}, Saved), Deleter(post, author, Deleted)]
                && Doomed(end, post, author)
  {
    RunThree(s, Next(0), Interrupt(0), Next(0));
    var saved := Happen(s, Next(0));
    assert saved.workers == [Saver(post, author, true, {}, Recheck), Deleter(post, author, Deleted)]
        && Doomed(saved, post, author);
    var again := Happen(saved, Interrupt(0));
    assert again.workers == [Saver(post, author, true, {}, Check), Deleter(post, author, Deleted)];
    assert Happen(again, Next(0)).workers == [Saver(post, author, true, {}, Saved), Deleter(post, author, Deleted)];
  }

  lemma RunThree(s: System, a: Event, b: Event, c: Event)
    ensures Run(s, [a, b, c]) == Happen(Happen(Happen(s, a), b), c)
  {
    hide Happen;
    assert [a, b, c][..2] == [a, b] && [a, b][..1] == [a] && [a][..0] == [];
    assert Run(s, []) == s && Run(s, [a]) == Happen(s, a);
    assert Run(s, [a, b]) == Happen(Happen(s, a), b);
  }

  lemma {:induction false} RunConcat(s: System, a: seq<Event>, b: seq<Event>)
    ensures Run(s, a + b) == Run(Run(s, a), b)
  {
    hide Happen;
    if b == [] {
      assert a + b == a;
    } else {
      assert (a + b)[..|a + b| - 1] == a + b[..|b| - 1];
      RunConcat(s, a, b[..|b| - 1]);
    }
  }
}
