/** The retry queue for broadcasts and tips whose sender or outputs the node did not return yet
    (kachat-transaction-processor/src/bcast_pending.rs). */
module Pending {
  import opened Base

  const RETRY_FOR_MS := 3_600_000
  const MIN_ATTEMPTS := 10
  const FIRST_BACKOFF_MS := 5_000
  const MAX_BACKOFF_MS := 300_000
  const BATCH := 50

  type Id = Bytes

  /** A kachat_bcast_pending row. */
  datatype Row = Row(firstSeen: int, attempts: nat, nextAt: int)

  type Queue = map<Id, Row>

  function PowerOfTwo(n: nat): (r: nat)
    ensures r >= 1
  {
    if n == 0 then 1 else 2 * PowerOfTwo(n - 1)
  }

  function Clamp(attempts: int): nat {
    if attempts < 0 then 0 else if attempts > 16 then 16 else attempts
  }

  /** The delay before the next try after `attempts` failed ones. */
  function Backoff(attempts: int): int {
    var d := FIRST_BACKOFF_MS * PowerOfTwo(Clamp(attempts));
    if d < MAX_BACKOFF_MS then d else MAX_BACKOFF_MS
  }

  /** Given up only when both the time and the attempt floor are reached. */
  predicate Exhausted(firstSeen: int, attempts: int, now: int) {
    now - firstSeen >= RETRY_FOR_MS && attempts >= MIN_ATTEMPTS
  }

  // ------------------------------------------------------------------ the queue --

  datatype Outcome = Resolved | NotYet

  /** A lookup of a row selected at `selected`: what came of it, whether the node was still connected
      afterwards, and the clock then. */
  datatype Event =
    | Park(id: Id, now: int)
    | Sweep(id: Id, now: int)
    | Lookup(id: Id, selected: int, outcome: Outcome, connected: bool, now: int)

  /** The row is due, so a lookup of it is real. */
  predicate Due(q: Queue, e: Event) {
    e.Lookup? && e.id in q && q[e.id].nextAt <= e.selected
  }

  predicate Counts(q: Queue, e: Event) {
    Due(q, e) && e.outcome == NotYet && e.connected
  }

  predicate GivesUp(q: Queue, e: Event) {
    Counts(q, e) && Exhausted(q[e.id].firstSeen, q[e.id].attempts + 1, e.now)
  }

  function After(q: Queue, e: Event): Queue {
    match e
    case Park(id, now) => if id in q then q else q[id := Row(now, 0, now + FIRST_BACKOFF_MS)]
    case Sweep(id, now) => if id in q then q else q[id := Row(now, 0, now)]
    case Lookup(id, _, outcome, connected, now) =>
      if !Due(q, e) then q
      else if outcome == Resolved || GivesUp(q, e) then q - {id}
      else if !connected then q
      else q[id := q[id].(attempts := q[id].attempts + 1, nextAt := now + Backoff(q[id].attempts + 1))]
  }

  function Run(q: Queue, events: seq<Event>): Queue {
    if events == [] then q else After(Run(q, events[..|events| - 1]), events[|events| - 1])
  }

  /** The node's answers for one pass: by transaction, what a lookup gives, whether the node is still
      there after it, and the clock. */
  datatype Answers = Answers(outcome: Id -> Outcome, connected: Id -> bool, clock: Id -> int)
  {
    function LookupOf(id: Id, selected: int): Event {
      Lookup(id, selected, outcome(id), connected(id), clock(id))
    }

    function Lookups(ids: seq<Id>, selected: int): seq<Event> {
      if ids == [] then [] else Lookups(ids[..|ids| - 1], selected) + [LookupOf(ids[|ids| - 1], selected)]
    }
  }

  class Retries {
    var rows: Queue

    method Enqueue(id: Id, now: int)
      modifies this
      ensures rows == After(old(rows), Park(id, now))
    {
      if id !in rows {
        rows := rows[id := Row(now, 0, now + FIRST_BACKOFF_MS)];
      }
    }

    /** The startup sweep over the last hour's unstored transactions. */
    method SweepIn(ids: seq<Id>, now: int)
      modifies this
      ensures rows == Run(old(rows), seq(|ids|, i requires 0 <= i < |ids| => Sweep(ids[i], now)))
    {
      ghost var events := seq(|ids|, i requires 0 <= i < |ids| => Sweep(ids[i], now));
      for i := 0 to |ids|
        invariant rows == Run(old(rows), events[..i])
      {
        assert events[..i + 1][..i] == events[..i];
        if ids[i] !in rows {
          rows := rows[ids[i] := Row(now, 0, now)];
        }
      }
      assert events[..|ids|] == events;
    }

    /** One row's lookup; false when the node was lost in it. */
    method Try(id: Id, selected: int, a: Answers) returns (stay: bool)
      requires id in rows && rows[id].nextAt <= selected
      modifies this
      ensures rows == After(old(rows), a.LookupOf(id, selected))
      ensures forall other :: other != id && other in old(rows) ==> other in rows && rows[other] == old(rows)[other]
      ensures !stay ==> !a.connected(id)
    {
      hide Exhausted, Backoff;
      var row := rows[id];
      var outcome := a.outcome(id);
      if outcome == Resolved {
        rows := rows - {id};
        return true;
      }
      if !a.connected(id) {
        return false;
      }
      var attempts, now := row.attempts + 1, a.clock(id);
      if Exhausted(row.firstSeen, attempts, now) {
        rows := rows - {id};
      } else {
        rows := rows[id := row.(attempts := attempts, nextAt := now + Backoff(attempts))];
      }
      return true;
    }

    /** One pass over rows due at `selected`; losing the node ends it. */
    method Pass(batch: seq<Id>, selected: int, a: Answers) returns (done: nat)
      requires Distinct(batch) && |batch| <= BATCH
      requires forall id :: id in batch ==> id in rows && rows[id].nextAt <= selected
      modifies this
      ensures done <= |batch| && rows == Run(old(rows), a.Lookups(batch[..done], selected))
      ensures done < |batch| ==> done > 0 && !a.connected(batch[done - 1])
    {
      hide After;
      done := 0;
      var stay := true;
      while stay && done < |batch|
        invariant done <= |batch| && rows == Run(old(rows), a.Lookups(batch[..done], selected))
        invariant forall i :: done <= i < |batch| ==> batch[i] in rows && rows[batch[i]] == old(rows)[batch[i]]
        invariant !stay ==> done > 0 && !a.connected(batch[done - 1])
        decreases |batch| - done
      {
        assert batch[done] in batch && batch[..done + 1][..done] == batch[..done];
        stay := Try(batch[done], selected, a);
        done := done + 1;
      }
    }
  }

  // ------------------------------------------------------------------ how long and how often --

  /** A lookup ends no earlier than its row was selected. */
  predicate ClockRuns(events: seq<Event>) {
    forall e :: e in events && e.Lookup? ==> e.selected <= e.now
  }

  /** When the transaction now in the queue was put there. */
  function QueuedAt(events: seq<Event>, id: Id): Option<int> {
    if events == [] then None
    else
      var (init, e) := (events[..|events| - 1], events[|events| - 1]);
      if e.id != id || id !in After(Run(map[], init), e) then (if e.id == id then None else QueuedAt(init, id))
      else if id in Run(map[], init) then QueuedAt(init, id)
      else Some(e.now)
  }

  /** How many real lookups, with the node there, have failed since. */
  function Counted(events: seq<Event>, id: Id): nat {
    if events == [] then 0
    else
      var (init, e) := (events[..|events| - 1], events[|events| - 1]);
      if e.id != id then Counted(init, id)
      else if id !in Run(map[], init) then 0
      else Counted(init, id) + if Counts(Run(map[], init), e) then 1 else 0
  }

  /** The waits before the lookups after the first, added up. */
  function Waited(attempts: nat): int {
    if attempts == 0 then 0 else Waited(attempts - 1) + Backoff(attempts)
  }

  lemma BackoffValues()
    ensures Backoff(1) == 10_000 && Backoff(2) == 20_000 && Backoff(3) == 40_000 && Backoff(4) == 80_000
        && Backoff(5) == 160_000
    ensures forall n :: n >= 6 ==> Backoff(n) == 300_000
  {
    assert PowerOfTwo(1) == 2 && PowerOfTwo(2) == 4 && PowerOfTwo(3) == 8 && PowerOfTwo(4) == 16 && PowerOfTwo(5) == 32;
    forall n | n >= 6 ensures Backoff(n) == MAX_BACKOFF_MS {
      DoublesPast(Clamp(n));
    }
  }

  lemma {:induction false} DoublesPast(n: nat)
    requires n >= 6
    ensures PowerOfTwo(n) >= 64
  {
    if n > 6 {
      DoublesPast(n - 1);
    } else {
      assert PowerOfTwo(3) == 8;
    }
  }

  lemma {:induction false} WaitedFromSix(n: nat)
    requires n >= 5
    ensures Waited(n) == 310_000 + (n - 5) * 300_000
  {
    BackoffValues();
    if n > 5 {
      WaitedFromSix(n - 1);
    } else {
      assert Waited(2) == 30_000 && Waited(4) == 150_000;
    }
  }

  /** How a queue takes an event, in milliseconds: a new transaction waits five seconds, one of the sweep
      none, and either leaves a queued one as it is; a lookup of a row that is due removes it when the
      node answers, leaves it when the node is lost, and otherwise removes it after an hour and ten
      tries or doubles its wait from ten seconds up to five minutes. */
  lemma EventsTake(q: Queue, id: Id, selected: int, now: int)
    ensures id in q ==> After(q, Park(id, now)) == q && After(q, Sweep(id, now)) == q
    ensures id !in q ==> After(q, Park(id, now)) == q[id := Row(now, 0, now + 5_000)]
                         && After(q, Sweep(id, now)) == q[id := Row(now, 0, now)]
    ensures forall outcome, connected ::
        id !in q || q[id].nextAt > selected ==> After(q, Lookup(id, selected, outcome, connected, now)) == q
    ensures id in q && q[id].nextAt <= selected ==>
        (forall connected :: After(q, Lookup(id, selected, Resolved, connected, now)) == q - {id})
        && After(q, Lookup(id, selected, NotYet, false, now)) == q
        && var row, n := q[id], q[id].attempts + 1;
           After(q, Lookup(id, selected, NotYet, true, now))
           == if n >= 10 && now >= row.firstSeen + 3_600_000 then q - {id}
              else q[id := Row(row.firstSeen, n, now + if n >= 6 then 300_000
                               else [10_000, 20_000, 40_000, 80_000, 160_000][n - 1])]
  {
    hide Backoff;
    BackoffValues();
  }

  /** What the queue knows of a row: when it came in, and how many counted lookups it has had, each
      at least the backoff after the one before. */
  lemma {:induction false} RowsRemember(events: seq<Event>, id: Id)
    requires ClockRuns(events) && id in Run(map[], events)
    ensures var row := Run(map[], events)[id];
            QueuedAt(events, id) == Some(row.firstSeen) && row.attempts == Counted(events, id)
            && row.nextAt >= row.firstSeen + Waited(row.attempts)
            && (row.attempts >= 10 ==> Waited(row.attempts - 1) < 3_600_000)
  {
    hide Backoff, Exhausted, After, Counts;
    var init, e := events[..|events| - 1], events[|events| - 1];
    assert e in events && forall x :: x in init ==> x in events;
    RowAfter(Run(map[], init), e, id);
    if id in Run(map[], init) {
      RowsRemember(init, id);
      if e.id == id && Counts(Run(map[], init), e) {
        DueLookup(Run(map[], init), e);
        NotExhausted(Run(map[], init)[id], e);
      }
    }
  }

  /** What an event makes of a row that is in the queue after it. */
  lemma RowAfter(q: Queue, e: Event, id: Id)
    requires id in After(q, e)
    ensures id in q ==>
              After(q, e)[id] == if e.id != id || !Counts(q, e) then q[id]
                                 else Row(q[id].firstSeen, q[id].attempts + 1, e.now + Backoff(q[id].attempts + 1))
    ensures id in q && e.id == id && Counts(q, e) ==> !Exhausted(q[id].firstSeen, q[id].attempts + 1, e.now)
    ensures id !in q ==>
              e.id == id && After(q, e)[id].firstSeen == e.now && After(q, e)[id].attempts == 0
              && After(q, e)[id].nextAt >= e.now
  {
    hide Backoff, Exhausted;
  }

  lemma DueLookup(q: Queue, e: Event)
    requires Counts(q, e)
    ensures e.Lookup? && e.id in q && q[e.id].nextAt <= e.selected
  {
  }

  lemma NotExhausted(row: Row, e: Event)
    requires e.Lookup? && row.nextAt <= e.selected <= e.now && row.nextAt >= row.firstSeen + Waited(row.attempts)
    requires !Exhausted(row.firstSeen, row.attempts + 1, e.now)
    ensures row.attempts + 1 >= MIN_ATTEMPTS ==> Waited(row.attempts) < RETRY_FOR_MS
  {
  }

  /** A queued broadcast or tip is given up only after at least an hour and at least 10 lookups made
      while the node was there, and it is given up by the seventeenth; lookups the node was lost in
      count for nothing. */
  lemma GivenUpWhenDue(events: seq<Event>, e: Event)
    requires ClockRuns(events + [e]) && GivesUp(Run(map[], events), e)
    ensures QueuedAt(events, e.id).Some? && e.now - QueuedAt(events, e.id).value >= 3_600_000
    ensures 10 <= Counted(events, e.id) + 1 <= 17
  {
    assert forall x :: x in events ==> x in events + [e];
    RowsRemember(events, e.id);
    AtMostSixteen(events, e.id);
  }

  /** A row still queued has had at most 16 counted lookups, and the next one ends it. */
  lemma AtMostSixteen(events: seq<Event>, id: Id)
    requires ClockRuns(events) && id in Run(map[], events)
    ensures Counted(events, id) <= 16
    ensures forall e: Event :: e.id == id && Counts(Run(map[], events), e) && e.selected <= e.now
                               && Counted(events, id) == 16
                        ==> GivesUp(Run(map[], events), e)
  {
    hide Backoff;
    RowsRemember(events, id);
    var n := Counted(events, id);
    if n >= 6 {
      WaitedFromSix(n - 1);
    }
    WaitedFromSix(16);
  }
}
