/** Recovered transactions (kachat-transaction-processor/src/reindex.rs, worker.rs and the prune in
    main.rs): stored by a reindex, queued in memory, marked consumed by a worker; processed at least
    once although the processor may crash at any step. */
module Recovery {
  import opened Base

  type Id = Bytes

  const WEEK_MS := 7 * 86_400_000
  const MONTH_MS := 30 * 86_400_000

  /** A kachat_recovered_transactions row. */
  datatype Row = Row(blockTime: int, insertedAt: int, consumedAt: Option<int>)

  type Table = map<Id, Row>

  /** How a worker's processing of one transaction ended: `NotKaChat` is a payload of no KaChat
      prefix; `Failed` an error, a missing row, an unreadable payload. */
  datatype Outcome = Processed | NotKaChat | Failed

  /** What reading the transaction gives a worker, and what its payload is: KaChat's, with whether
      processing it returned Ok, another protocol's, or not text. */
  datatype Payload = KaChat(ok: bool) | Other | Unreadable

  datatype Fetched = Got(payload: Payload) | Missing | Error

  /** How a worker ends with a transaction: read errors are retried, and a retry that finds a
      payload that is not KaChat's leaves the row as it is. */
  function OutcomeOf(first: Fetched, retries: seq<Fetched>): Outcome {
    match first
    case Got(KaChat(ok)) => if ok then Processed else Failed
    case Got(Other) => NotKaChat
    case Got(Unreadable) => Failed
    case Missing => Failed
    case Error => RetryOutcome(retries)
  }

  function RetryOutcome(retries: seq<Fetched>): Outcome {
    if retries == [] then Failed
    else if retries[0].Got? then (if retries[0].payload == KaChat(true) then Processed else Failed)
    else RetryOutcome(retries[1..])
  }

  /** The first retry that read the transaction. */
  predicate FirstRead(retries: seq<Fetched>, i: int) {
    0 <= i < |retries| && retries[i].Got? && forall j :: 0 <= j < i ==> !retries[j].Got?
  }

  /** A retried read counts only as the payload it first finds, and only as KaChat's. */
  lemma {:induction false} ReadByRetry(retries: seq<Fetched>)
    ensures RetryOutcome(retries) != NotKaChat
    ensures RetryOutcome(retries) == Processed
            <==> exists i :: FirstRead(retries, i) && retries[i] == Got(KaChat(true))
  {
    if retries != [] {
      var rest := retries[1..];
      ReadByRetry(rest);
      if retries[0].Got? {
        assert FirstRead(retries, 0);
      } else {
        forall i ensures FirstRead(rest, i) <==> i >= 0 && FirstRead(retries, i + 1) {
          assert FirstRead(rest, i) && i < |rest| ==> forall j :: 0 < j < i + 1 ==> rest[j - 1] == retries[j];
          assert FirstRead(retries, i + 1) ==> forall j :: 0 <= j < i ==> rest[j] == retries[j + 1];
        }
        if i :| FirstRead(rest, i) && rest[i] == Got(KaChat(true)) {
          assert FirstRead(retries, i + 1);
        }
        if i :| FirstRead(retries, i) && retries[i] == Got(KaChat(true)) {
          assert FirstRead(rest, i - 1);
        }
      }
    }
  }

  /** The table and the in-memory queue, the transactions workers hold, and two things no code
      stores: how each transaction's processing has ended so far, and what was tried since the start. */
  datatype System = System(
    table: Table,
    queue: seq<Id>,
    held: set<Id>,
    processed: set<Id>,
    foreign: set<Id>,
    tried: set<Id>)

  // ------------------------------------------------------------------ the operations --

  /** A reindex meets a transaction: stored and queued, unless it is indexed or already consumed. */
  function Found(t: Table, id: Id, blockTime: int, now: int, indexed: bool): (Table, bool) {
    if indexed || (id in t && t[id].consumedAt.Some?) then (t, false)
    else if id in t then (t[id := t[id].(insertedAt := now)], true)
    else (t[id := Row(blockTime, now, None)], true)
  }

  function Consumed(t: Table, id: Id, now: int): Table {
    if id in t && t[id].consumedAt.None? then t[id := t[id].(consumedAt := Some(now))] else t
  }

  predicate Expired(r: Row, now: int) {
    (r.consumedAt.Some? && r.insertedAt < now - WEEK_MS) || r.insertedAt < now - MONTH_MS
  }

  function Pruned(t: Table, now: int): Table {
    map id | id in t && !Expired(t[id], now) :: t[id]
  }

  function Unconsumed(t: Table): set<Id> {
    set id | id in t && t[id].consumedAt.None?
  }

  ghost predicate ByTime(t: Table, ids: seq<Id>) {
    Distinct(ids) && (forall id :: id in ids ==> id in t)
    && forall i, j :: 0 <= i < j < |ids| ==> t[ids[i]].blockTime <= t[ids[j]].blockTime
  }

  /** The unconsumed rows, oldest first. */
  ghost predicate OldestFirst(t: Table, ids: seq<Id>) {
    ByTime(t, ids) && Elements(ids) == Unconsumed(t)
  }

  /** No row of `left` is earlier than one of `ids`. */
  ghost predicate NoneEarlier(t: Table, ids: seq<Id>, left: set<Id>) {
    (forall x :: x in ids ==> x in t && x !in left)
    && forall x, y :: x in ids && y in left && x in t && y in t ==> t[x].blockTime <= t[y].blockTime
  }

  lemma EmptyByTime(t: Table, left: set<Id>)
    ensures ByTime(t, []) && NoneEarlier(t, [], left)
  {
  }

  lemma OneMoreByTime(t: Table, ids: seq<Id>, left: set<Id>, id: Id)
    requires ByTime(t, ids) && NoneEarlier(t, ids, left) && left <= Unconsumed(t)
    requires id in left && forall x :: x in left ==> x in t && t[id].blockTime <= t[x].blockTime
    ensures ByTime(t, ids + [id]) && NoneEarlier(t, ids + [id], left - {id})
    ensures Elements(ids + [id]) == Elements(ids) + {id}
  {
    var more := ids + [id];
    assert forall i :: 0 <= i < |ids| ==> ids[i] in ids;
    assert forall x :: x in more <==> x in ids || x == id;
  }

  /** A transaction of the walked blocks. */
  datatype Seen = Seen(id: Id, blockTime: int, kachat: bool, indexed: bool)

  function FoundAll(t: Table, queue: seq<Id>, txs: seq<Seen>, now: int): (Table, seq<Id>) {
    if txs == [] then (t, queue)
    else
      var (t1, q1) := FoundAll(t, queue, txs[..|txs| - 1], now);
      var tx := txs[|txs| - 1];
      if !tx.kachat then (t1, q1)
      else
        var (t2, queued) := Found(t1, tx.id, tx.blockTime, now, tx.indexed);
        (t2, if queued then q1 + [tx.id] else q1)
  }

  /** The transaction is one of the block's that the walk is to store. */
  predicate Wanted(t: Table, tx: Seen, id: Id) {
    tx.id == id && tx.kachat && !tx.indexed && (id in t ==> t[id].consumedAt == None)
  }

  predicate SomeWanted(t: Table, txs: seq<Seen>, id: Id) {
    exists tx :: tx in txs && Wanted(t, tx, id)
  }

  predicate SomeWantedAt(t: Table, txs: seq<Seen>, id: Id, blockTime: int) {
    exists tx :: tx in txs && Wanted(t, tx, id) && tx.blockTime == blockTime
  }

  /** What a walked block leaves: each transaction wanted is queued, stored as of now, not consumed and
      with the time it had; nothing else is queued, and all other rows are as they were. */
  ghost predicate Leaves(t: Table, txs: seq<Seen>, now: int, t': Table, queued: seq<Id>) {
    |queued| <= |txs| && (forall id :: id in queued <==> SomeWanted(t, txs, id))
    && (forall id :: id !in queued ==> (id in t' <==> id in t) && (id in t ==> t'[id] == t[id]))
    && forall id :: id in queued ==>
         id in t' && t'[id].insertedAt == now && t'[id].consumedAt == None
         && if id in t then t'[id].blockTime == t[id].blockTime else SomeWantedAt(t, txs, id, t'[id].blockTime)
  }

  lemma {:induction false} WalkStores(t: Table, queue: seq<Id>, txs: seq<Seen>, now: int)
    ensures var (t', q') := FoundAll(t, queue, txs, now);
            queue <= q' && Leaves(t, txs, now, t', q'[|queue|..])
  {
    hide Leaves;
    if txs == [] {
      assert Leaves(t, [], now, t, []) by { NothingWalked(t, now); }
      assert queue[|queue|..] == [];
    } else {
      var init, last := txs[..|txs| - 1], txs[|txs| - 1];
      WalkStores(t, queue, init, now);
      var (t1, q1) := FoundAll(t, queue, init, now);
      var (t2, q2) := FoundAll(t, queue, txs, now);
      StepLeaves(t, init, last, now, t1, q1[|queue|..]);
      assert txs == init + [last];
      assert (q1 + [last.id])[|queue|..] == q1[|queue|..] + [last.id];
    }
  }

  lemma NothingWalked(t: Table, now: int)
    ensures Leaves(t, [], now, t, [])
  {
  }

  lemma StepLeaves(t: Table, init: seq<Seen>, last: Seen, now: int, t1: Table, queued: seq<Id>)
    requires Leaves(t, init, now, t1, queued)
    ensures var (t2, more) := Found(t1, last.id, last.blockTime, now, last.indexed);
            if last.kachat then Leaves(t, init + [last], now, t2, if more then queued + [last.id] else queued)
            else Leaves(t, init + [last], now, t1, queued)
  {
    hide Wanted, Found, SomeWanted, SomeWantedAt;
    LastMore(t, init, last);
    WantedIsItself(t, last);
    LastWanted(t, init, last, now, t1, queued);
    if Wanted(t, last, last.id) {
      FoundNow(t, init, last, now, t1, queued);
    }
  }

  lemma LastMore(t: Table, init: seq<Seen>, last: Seen)
    ensures forall id :: SomeWanted(t, init + [last], id) <==> SomeWanted(t, init, id) || Wanted(t, last, id)
    ensures forall id, at ::
        SomeWantedAt(t, init + [last], id, at)
        <==> SomeWantedAt(t, init, id, at) || (Wanted(t, last, id) && last.blockTime == at)
  {
    hide Wanted;
    assert forall tx :: tx in init + [last] <==> tx in init || tx == last;
  }

  lemma WantedIsItself(t: Table, tx: Seen)
    ensures forall id :: Wanted(t, tx, id) ==> id == tx.id
  {
  }

  /** A transaction the block lists again is taken or left as the first time. */
  lemma LastWanted(t: Table, init: seq<Seen>, last: Seen, now: int, t1: Table, queued: seq<Id>)
    requires Leaves(t, init, now, t1, queued)
    ensures last.kachat && !last.indexed && (last.id in t1 ==> t1[last.id].consumedAt == None)
            <==> Wanted(t, last, last.id)
    ensures last.kachat && !Wanted(t, last, last.id) ==>
        Found(t1, last.id, last.blockTime, now, last.indexed) == (t1, false)
  {
    hide SomeWantedAt;
  }

  lemma FoundNow(t: Table, init: seq<Seen>, last: Seen, now: int, t1: Table, queued: seq<Id>)
    requires Leaves(t, init, now, t1, queued) && Wanted(t, last, last.id)
    ensures last.kachat
    ensures Found(t1, last.id, last.blockTime, now, last.indexed)
            == (t1[last.id := Row(if last.id in t1 then t1[last.id].blockTime else last.blockTime, now, None)], true)
  {
    hide SomeWantedAt, SomeWanted;
    LastWanted(t, init, last, now, t1, queued);
  }

  class Processor {
    var table: Table
    var queue: seq<Id>

    /** One block of a reindex's walk. */
    method WalkBlock(txs: seq<Seen>, now: int) returns (found: nat, queued: nat)
      modifies this
      ensures (table, queue) == FoundAll(old(table), old(queue), txs, now)
      ensures queued == |queue| - |old(queue)| && queued <= found <= |txs|
    {
      found, queued := 0, 0;
      for i := 0 to |txs|
        invariant (table, queue) == FoundAll(old(table), old(queue), txs[..i], now)
        invariant queued == |queue| - |old(queue)| && queued <= found <= i
      {
        assert txs[..i + 1][..i] == txs[..i];
        var tx := txs[i];
        if !tx.kachat {
          continue;
        }
        found := found + 1;
        if tx.indexed || (tx.id in table && table[tx.id].consumedAt.Some?) {
          continue;
        }
        table := table[tx.id := if tx.id in table then table[tx.id].(insertedAt := now)
                                else Row(tx.blockTime, now, None)];
        queued := queued + 1;
        queue := queue + [tx.id];
      }
      assert txs[..|txs|] == txs;
    }

    /** At every start: the rows no worker has consumed go back into the queue, oldest first. */
    method RequeueUnconsumed(readable: bool) returns (ids: seq<Id>)
      modifies this`queue
      ensures queue == old(queue) + ids
      ensures readable ==> OldestFirst(table, ids)
      ensures !readable ==> ids == []
    {
      ids := [];
      if !readable {
        return;
      }
      ids := SelectUnconsumed();
      queue := queue + ids;
    }

    /** SELECT .. WHERE consumed_at IS NULL ORDER BY block_time. */
    method SelectUnconsumed() returns (ids: seq<Id>)
      ensures OldestFirst(table, ids)
    {
      hide ByTime, NoneEarlier;
      ids := [];
      var left := Unconsumed(table);
      assert ByTime(table, ids) && NoneEarlier(table, ids, left) by {
        EmptyByTime(table, left);
      }
      while left != {}
        invariant left <= Unconsumed(table) && Elements(ids) == Unconsumed(table) - left
        invariant ByTime(table, ids) && NoneEarlier(table, ids, left)
      {
        var id := Earliest(left);
        OneMoreByTime(table, ids, left, id);
        ids := ids + [id];
        left := left - {id};
      }
    }

    method Earliest(ids: set<Id>) returns (first: Id)
      requires ids != {} && forall id :: id in ids ==> id in table
      ensures first in ids && forall id :: id in ids ==> table[first].blockTime <= table[id].blockTime
    {
      first :| first in ids;
      var left := ids - {first};
      while left != {}
        invariant first in ids && left <= ids && first !in left
        invariant forall id :: id in ids && id !in left ==> table[first].blockTime <= table[id].blockTime
      {
        var id :| id in left;
        left := left - {id};
        if table[id].blockTime < table[first].blockTime {
          first := id;
        }
      }
    }

    /** A worker's turn with one transaction. */
    method ProcessTransaction(id: Id, first: Fetched, retries: seq<Fetched>, writable: bool, now: int)
        returns (outcome: Outcome)
      modifies this`table
      ensures outcome == OutcomeOf(first, retries)
      ensures outcome == Processed <==>
                first == Got(KaChat(true))
                || (first == Error && exists i :: FirstRead(retries, i) && retries[i] == Got(KaChat(true)))
      ensures outcome == NotKaChat <==> first == Got(Other)
      ensures table == if outcome != Failed && writable then Consumed(old(table), id, now) else old(table)
    {
      ReadByRetry(retries);
      match first {
        case Got(payload) =>
          if payload == Unreadable || payload == KaChat(false) {
            return Failed;
          }
          outcome := if payload == Other then NotKaChat else Processed;
          if writable {
            MarkConsumed(id, now);
          }
        case Missing =>
          return Failed;
        case Error =>
          for i := 0 to |retries|
            invariant table == old(table)
            invariant RetryOutcome(retries) == RetryOutcome(retries[i..])
          {
            if retries[i].Got? {
              if retries[i].payload != KaChat(true) {
                return Failed;
              }
              if writable {
                MarkConsumed(id, now);
              }
              return Processed;
            }
          }
          return Failed;
      }
    }

    method MarkConsumed(id: Id, now: int)
      modifies this`table
      ensures table == Consumed(old(table), id, now)
    {
      if id in table && table[id].consumedAt.None? {
        table := table[id := table[id].(consumedAt := Some(now))];
      }
    }
  }

  // ------------------------------------------------------------------ runs with crashes --

  datatype Event =
    | Walk(txs: seq<Seen>, now: int)
    /** A worker takes the next transaction. */
    | Take
    /** A worker ends with one it holds; `marked` says the update of the row succeeded. */
    | Finish(id: Id, outcome: Outcome, marked: bool, now: int)
    /** The processor dies: the queue and what workers held are gone. */
    | Crash
    /** It starts; `order` is what the read of the table returned, None when it failed. */
    | Start(order: Option<seq<Id>>)
    | Prune(now: int)

  ghost predicate Possible(s: System, e: Event) {
    match e
    case Take => s.queue != []
    case Finish(id, _, _, _) => id in s.held
    case Start(Some(ids)) => OldestFirst(s.table, ids)
    case _ => true
  }

  function After(s: System, e: Event): System {
    match e
    case Walk(txs, now) =>
      var (table, queue) := FoundAll(s.table, s.queue, txs, now);
      s.(table := table, queue := queue)
    case Take => if s.queue == [] then s else s.(queue := s.queue[1..], held := s.held + {s.queue[0]})
    case Finish(id, outcome, marked, now) =>
      var done := s.(held := s.held - {id}, tried := s.tried + {id});
      (match outcome
       case Failed => done
       case Processed =>
         done.(processed := s.processed + {id}, table := if marked then Consumed(s.table, id, now) else s.table)
       case NotKaChat =>
         done.(foreign := s.foreign + {id}, table := if marked then Consumed(s.table, id, now) else s.table))
    case Crash => s.(queue := [], held := {}, tried := {})
    case Start(order) => s.(queue := s.queue + (if order.Some? then order.value else []))
    case Prune(now) => s.(table := Pruned(s.table, now))
  }

  function Run(s: System, events: seq<Event>): System {
    if events == [] then s else After(Run(s, events[..|events| - 1]), events[|events| - 1])
  }

  ghost predicate PossibleRun(s: System, events: seq<Event>) {
    events != [] ==>
      PossibleRun(s, events[..|events| - 1]) && Possible(Run(s, events[..|events| - 1]), events[|events| - 1])
  }

  const EMPTY := System(map[], [], {}, {}, {}, {})

  // ------------------------------------------------------------------ consumed means processed --

  ghost predicate ConsumedIsProcessed(s: System) {
    forall id :: id in s.table && s.table[id].consumedAt.Some? ==> id in s.processed || id in s.foreign
  }

  lemma {:induction false} WalkConsumesNothing(t: Table, queue: seq<Id>, txs: seq<Seen>, now: int)
    ensures var t', q' := FoundAll(t, queue, txs, now).0, FoundAll(t, queue, txs, now).1;
            (forall id :: id in t ==>
               id in t' && t'[id].consumedAt == t[id].consumedAt && (t'[id] == t[id] || t'[id].insertedAt == now))
            && (forall id :: id in t' && id !in t ==> t'[id].consumedAt == None && t'[id].insertedAt == now && id in q')
            && queue <= q' && forall id :: id in t' && id in t && t'[id].insertedAt != t[id].insertedAt ==> id in q'
  {
    if txs != [] {
      WalkConsumesNothing(t, queue, txs[..|txs| - 1], now);
    }
  }

  /** In every run, crashes anywhere, a row is marked consumed only after its processing succeeded or
      its payload turned out not to be KaChat's. */
  lemma {:induction false} OnlyProcessedIsConsumed(events: seq<Event>)
    ensures ConsumedIsProcessed(Run(EMPTY, events))
  {
    hide FoundAll, Expired;
    if events != [] {
      var init, e := events[..|events| - 1], events[|events| - 1];
      OnlyProcessedIsConsumed(init);
      if e.Walk? {
        var s := Run(EMPTY, init);
        WalkConsumesNothing(s.table, s.queue, e.txs, e.now);
      }
    }
  }

  // ------------------------------------------------------------------ nothing is forgotten --

  /** Every start that can read the table queues every row not yet consumed. */
  lemma StartQueuesAll(s: System, ids: seq<Id>)
    requires OldestFirst(s.table, ids)
    ensures forall id :: id in Unconsumed(s.table) ==> id in After(s, Start(Some(ids))).queue
  {
    assert forall id :: id in Unconsumed(s.table) ==> id in Elements(ids);
  }

  /** While the processor runs, each unconsumed row is queued, held by a worker, or was tried. */
  ghost predicate NoneForgotten(s: System) {
    forall id :: id in Unconsumed(s.table) ==> id in s.queue || id in s.held || id in s.tried
  }

  lemma NoneForgottenStep(s: System, e: Event)
    requires NoneForgotten(s) && Possible(s, e) && e != Crash
    ensures NoneForgotten(After(s, e))
  {
    hide FoundAll, Expired, OldestFirst;
    match e {
      case Walk(txs, now) =>
        WalkConsumesNothing(s.table, s.queue, txs, now);
        assert forall id :: id in s.queue ==> id in After(s, e).queue;
      case Take =>
        assert forall id :: id in s.queue ==> id == s.queue[0] || id in s.queue[1..];
      case _ =>
    }
  }

  /** From a start that could read the table up to the next crash, no unconsumed row is forgotten. */
  lemma {:induction false} NoneForgottenSince(s: System, ids: seq<Id>, events: seq<Event>)
    requires OldestFirst(s.table, ids) && PossibleRun(After(s, Start(Some(ids))), events) && Crash !in events
    ensures NoneForgotten(Run(After(s, Start(Some(ids))), events))
  {
    hide NoneForgotten, OldestFirst, Possible, After;
    if events == [] {
      assert NoneForgotten(After(s, Start(Some(ids)))) by {
        QueuedIsNotForgotten(s, ids);
      }
    } else {
      var init := events[..|events| - 1];
      assert events[|events| - 1] in events && Crash !in init;
      NoneForgottenSince(s, ids, init);
      NoneForgottenStep(Run(After(s, Start(Some(ids))), init), events[|events| - 1]);
    }
  }

  lemma QueuedIsNotForgotten(s: System, ids: seq<Id>)
    requires OldestFirst(s.table, ids)
    ensures NoneForgotten(After(s, Start(Some(ids))))
  {
    StartQueuesAll(s, ids);
  }

  // ------------------------------------------------------------------ nothing is lost --

  /** When the reindex last stored or refreshed the row. */
  function LastFound(events: seq<Event>, id: Id): Option<int> {
    if events == [] then None
    else
      var (init, e) := (events[..|events| - 1], events[|events| - 1]);
      if e.Walk? && Stores(Run(EMPTY, init), e, id) then Some(e.now) else LastFound(init, id)
  }

  /** The walk writes the row. */
  predicate Stores(s: System, e: Event, id: Id)
    requires e.Walk?
  {
    var after := After(s, e).table;
    id in after && (id !in s.table || after[id].insertedAt != s.table[id].insertedAt)
  }

  /** Some prune ran more than 30 days after the row was last stored. */
  predicate AgedOut(events: seq<Event>, id: Id) {
    exists k :: 0 <= k < |events| && events[k].Prune?
                && LastFound(events[..k], id).Some?
                    && LastFound(events[..k], id).value + 30 * 86_400_000 < events[k].now
  }

  lemma AgedOutLater(events: seq<Event>, id: Id)
    requires events != [] && AgedOut(events[..|events| - 1], id)
    ensures AgedOut(events, id)
  {
    var init := events[..|events| - 1];
    var k :| 0 <= k < |init| && init[k].Prune?
             && LastFound(init[..k], id).Some? && LastFound(init[..k], id).value < init[k].now - MONTH_MS;
    assert init[..k] == events[..k] && init[k] == events[k];
  }

  lemma AgedOutNow(events: seq<Event>, id: Id)
    requires events != [] && events[|events| - 1].Prune? && LastFound(events[..|events| - 1], id).Some?
    requires LastFound(events[..|events| - 1], id).value < events[|events| - 1].now - MONTH_MS
    ensures AgedOut(events, id)
  {
    assert events[..|events| - 1] == events[..|events| - 1];
  }

  lemma {:induction false} InsertedWhenFound(events: seq<Event>, id: Id)
    requires id in Run(EMPTY, events).table
    ensures LastFound(events, id) == Some(Run(EMPTY, events).table[id].insertedAt)
  {
    hide FoundAll, Expired;
    var init, e := events[..|events| - 1], events[|events| - 1];
    var s := Run(EMPTY, init);
    if e.Walk? {
      WalkConsumesNothing(s.table, s.queue, e.txs, e.now);
      if !Stores(s, e, id) {
        InsertedWhenFound(init, id);
      }
    } else {
      InsertedWhenFound(init, id);
    }
  }

  /** A transaction the reindex ever stored is, at every later point, processed (or not KaChat's), or
      still there to be queued again, or older than 30 days: crashes lose none. */
  lemma {:induction false} NothingIsLost(events: seq<Event>, id: Id)
    requires LastFound(events, id).Some?
    ensures var s := Run(EMPTY, events);
            id in s.processed || id in s.foreign || id in Unconsumed(s.table) || AgedOut(events, id)
  {
    hide FoundAll, AgedOut, Stores;
    var init, e := events[..|events| - 1], events[|events| - 1];
    var s := Run(EMPTY, init);
    OnlyProcessedIsConsumed(events);
    if e.Walk? {
      WalkConsumesNothing(s.table, s.queue, e.txs, e.now);
    }
    if e.Walk? && Stores(s, e, id) {
      StoredIsThere(s, e, id);
    } else {
      NothingIsLost(init, id);
      if AgedOut(init, id) {
        AgedOutLater(events, id);
      } else if e.Prune? && id in Unconsumed(s.table) && id !in Unconsumed(After(s, e).table) {
        InsertedWhenFound(init, id);
        AgedOutNow(events, id);
      }
    }
  }

  lemma StoredIsThere(s: System, e: Event, id: Id)
    requires e.Walk? && Stores(s, e, id)
    ensures id in After(s, e).table
  {
  }

  // ------------------------------------------------------------------ a week from when --

  lemma RunTwoMore(events: seq<Event>, a: Event, b: Event)
    ensures Run(EMPTY, events + [a, b]) == After(After(Run(EMPTY, events), a), b)
  {
    hide After;
    var all := events + [a, b];
    assert all[..|all| - 1] == events + [a];
    assert (events + [a])[..|events|] == events;
  }

  /** A row that is consumed outlives a later prune if and only if a reindex stored it in the week
      before that prune; when it was consumed plays no part. */
  lemma WeekCountsFromStorage(events: seq<Event>, id: Id, consumed: int, at: int)
    requires id in Unconsumed(Run(EMPTY, events).table) && consumed <= at
    ensures var after := Run(EMPTY, events + [Finish(id, Processed, true, consumed), Prune(at)]);
            LastFound(events, id).Some? && (id in after.table <==> LastFound(events, id).value + 7 * 86_400_000 >= at)
  {
    hide Run, LastFound;
    InsertedWhenFound(events, id);
    RunTwoMore(events, Finish(id, Processed, true, consumed), Prune(at));
  }

  /** A row that is not consumed outlives a prune if and only if a reindex stored it in the 30 days before. */
  lemma MonthCountsFromStorage(events: seq<Event>, id: Id, at: int)
    requires id in Unconsumed(Run(EMPTY, events).table)
    ensures LastFound(events, id).Some?
            && (id in Run(EMPTY, events + [Prune(at)]).table <==> LastFound(events, id).value + 30 * 86_400_000 >= at)
  {
    hide LastFound;
    InsertedWhenFound(events, id);
    assert (events + [Prune(at)])[..|events|] == events;
  }

  /** So a row can go at the very moment a worker has consumed it: here one waited for eight days. */
  lemma GoneWhenConsumed(id: Id)
    ensures var now := 8 * 86_400_000;
            var waiting := [Walk([Seen(id, 0, true, false)], 0), Take];
            var events := waiting + [Finish(id, Processed, true, now), Prune(now)];
            PossibleRun(EMPTY, events) && id in Pruned(Run(EMPTY, waiting).table, now)
                && id !in Run(EMPTY, events).table
  {
    var now, walk := 8 * 86_400_000, Walk([Seen(id, 0, true, false)], 0);
    var waiting, finish := [walk, Take], Finish(id, Processed, true, 8 * 86_400_000);
    var events := waiting + [finish, Prune(now)];
    FoundOne(id);
    assert waiting[..1] == [walk] && [walk][..0] == [];
    assert Run(EMPTY, [walk]) == System(map[id := Row(0, 0, None)], [id], {}, {}, {}, {});
    assert Run(EMPTY, waiting) == System(map[id := Row(0, 0, None)], [], {id}, {}, {}, {});
    assert PossibleRun(EMPTY, waiting);
    RunTwoMore(waiting, finish, Prune(now));
    assert events[..3] == waiting + [finish] && events[..3][..2] == waiting;
    assert PossibleRun(EMPTY, events[..3]);
  }

  lemma FoundOne(id: Id)
    ensures FoundAll(map[], [], [Seen(id, 0, true, false)], 0) == (map[id := Row(0, 0, None)], [id])
  {
    var one := [Seen(id, 0, true, false)];
    var table: Table, queue: seq<Id> := map[], [];
    assert one[..|one| - 1] == [] && FoundAll(table, queue, [], 0) == (table, queue);
    var (t2, queued) := Found(table, id, 0, 0, false);
    assert queue + [id] == [id] && FoundAll(table, queue, one, 0) == (t2, [id]);
    assert t2 == map[id := Row(0, 0, None)];
  }
}
