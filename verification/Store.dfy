/** The database (kachat-names-follower/src/store.rs): one row per tracked UTXO, the stored journal, the
    blocks with history rows and the checkpoint. What `persist` writes, `load` reads back. */
module Store {
  import opened Base
  import opened Codec
  import opened States
  import opened Ingest
  import opened Undo
  import opened Chain
  import opened Verified
  import opened RegistryEngine
  import opened Text
  import opened Journal

  // ------------------------------------------------------------------ rows --

  /** A `names_utxos` row; columns a kind does not use are None. */
  datatype Row = Row(
    kind: string,
    lo: Option<Bytes>, hi: Option<Bytes>,
    key: Option<Bytes>, name: Option<Bytes>, owner: Option<Bytes>,
    price: Option<Int64>, periodStart: Option<Int64>, expiresAt: Option<Int64>,
    buyer: Option<Bytes>, seller: Option<Bytes>, refundAfter: Option<Int64>,
    shard: Option<Int64>, authority: Option<Bytes>, prices: Option<string>)

  const EMPTY_ROW := Row("", None, None, None, None, None, None, None, None, None, None, None, None, None, None)

  /** The primary key: txid and the index as a 32-bit signed column. */
  type RowKey = (Bytes, int)

  type Rows = map<RowKey, Row>

  /** `String::from_utf8_lossy`, as the bytes of its text. */
  type Lossy = Bytes -> Bytes

  /** ASCII text is taken as it is. */
  ghost predicate KeepsAscii(lossy: Lossy) {
    forall b: Bytes :: (forall c :: c in b ==> c < 128) ==> lossy(b) == b
  }

  function Int32Of(i: UInt32): int {
    if i < 0x8000_0000 then i else i - 0x1_0000_0000
  }

  function UInt32Of(i: int): UInt32 {
    i % 0x1_0000_0000
  }

  function KeyOf(op: Outpoint): RowKey {
    (op.tx, Int32Of(op.index))
  }

  function RowOf(lossy: Lossy, s: Tracked): Row {
    match s
    case Gap(g) => EMPTY_ROW.(kind := "gap", lo := Some(g.lo), hi := Some(g.hi))
    case Name(n) => EMPTY_ROW.(kind := "name", key := Some(n.key), name := Some(lossy(TrimName(n.name))),
                               owner := Some(n.owner), price := Some(n.price),
                               periodStart := Some(n.periodStart), expiresAt := Some(n.expiresAt))
    case Offer(o) => EMPTY_ROW.(kind := "offer", key := Some(o.key), buyer := Some(o.buyer), seller := o.seller,
                                refundAfter := Some(o.refundAfter))
    case Shard(p) => EMPTY_ROW.(kind := "shard", shard := Some(p.shard), authority := Some(p.authority),
                                prices := Some(JoinNumbers(p.prices)))
  }

  function Zeros(): Bytes32 {
    PadName([])
  }

  function Hash(b: Option<Bytes>): Option<Bytes32> {
    if b.Some? && |b.value| == 32 then Some(b.value) else None
  }

  function HashOrZeros(b: Option<Bytes>): Bytes32 {
    if Hash(b).Some? then Hash(b).value else Zeros()
  }

  function OrZero(x: Option<Int64>): Int64 {
    if x.Some? then x.value else 0
  }

  function PricesOf(row: Row): Option<Prices> {
    var numbers: seq<Int64> := SplitNumbers(if row.prices.Some? then row.prices.value else "");
    if |numbers| == 5 then Some(numbers) else None
  }

  /** The state a row holds; a row of an unknown kind, or a shard without five prices, is skipped. */
  function StateOf(row: Row): Option<Tracked> {
    if row.kind == "gap" then Some(Gap(GapState(HashOrZeros(row.lo), HashOrZeros(row.hi))))
    else if row.kind == "name" then
      Some(Name(NameState(HashOrZeros(row.key), PadName(if row.name.Some? then row.name.value else []),
                          HashOrZeros(row.owner), OrZero(row.price), OrZero(row.periodStart), OrZero(row.expiresAt))))
    else if row.kind == "offer" then
      Some(Offer(OfferState(HashOrZeros(row.key), HashOrZeros(row.buyer), Hash(row.seller), OrZero(row.refundAfter))))
    else if row.kind == "shard" then
      (match PricesOf(row)
       case None => None
       case Some(prices) => Some(Shard(PriceState(OrZero(row.shard), HashOrZeros(row.authority), prices))))
    else None
  }

  /** A row reads back to the state it was written for, exactly when its name field is the padding of
      its own text. */
  lemma RowRoundTrip(lossy: Lossy, s: Tracked)
    ensures StateOf(RowOf(lossy, s)) == Some(s) <==> (s.Name? ==> PadName(lossy(TrimName(s.name.name))) == s.name.name)
  {
    hide SplitNumbers, JoinNumbers, TrimName, PadName, Zeros;
    match s {
      case Gap(_) =>
      case Name(_) =>
      case Offer(_) =>
      case Shard(p) => NumbersRoundTrip(p.prices);
    }
  }

  lemma PaddedNamesSurvive(lossy: Lossy, field: Bytes32)
    requires KeepsAscii(lossy) && Padded(field)
    ensures PadName(lossy(TrimName(field))) == field
  {
    var name :| IsValidName(name) && field == PadName(name);
    PaddingRoundTrip(name);
  }

  // ------------------------------------------------------------------ the live set as rows --

  function RowsOf(lossy: Lossy, utxos: Utxos): Rows {
    map k | k in RowKeys(utxos) :: RowOf(lossy, utxos[OutpointOf(k)])
  }

  function RowKeys(utxos: Utxos): (keys: set<RowKey>)
    ensures forall k :: k in keys ==> |k.0| == 32 && OutpointOf(k) in utxos && KeyOf(OutpointOf(k)) == k
    ensures forall op :: op in utxos ==> KeyOf(op) in keys && OutpointOf(KeyOf(op)) == op
  {
    set op | op in utxos :: KeyOf(op)
  }

  function OutpointOf(k: RowKey): Outpoint {
    Outpoint(HashOrZeros(Some(k.0)), UInt32Of(k.1))
  }

  /** Every row's outpoint is its own: what the tables hold when `persist` wrote them. */
  ghost predicate ProperKeys(rows: Rows) {
    forall k :: k in rows ==> KeyOf(OutpointOf(k)) == k
  }

  function Outpoints(keys: set<RowKey>): set<Outpoint> {
    set k | k in keys :: OutpointOf(k)
  }

  /** What the rows with these keys hold. */
  function LoadSome(rows: Rows, keys: set<RowKey>): Utxos {
    map op | op in Outpoints(keys) && KeyOf(op) in rows && StateOf(rows[KeyOf(op)]).Some? ::
        StateOf(rows[KeyOf(op)]).value
  }

  function LoadUtxos(rows: Rows): Utxos {
    LoadSome(rows, rows.Keys)
  }

  /** The stored rows load back to the live set. */
  lemma RowsLoadBack(lossy: Lossy, utxos: Utxos)
    requires KeepsAscii(lossy) && Holds(NamePadded, utxos)
    ensures LoadUtxos(RowsOf(lossy, utxos)) == utxos && ProperKeys(RowsOf(lossy, utxos))
  {
    hide RowOf, StateOf, KeepsAscii, Padded, HashOrZeros;
    var rows := RowsOf(lossy, utxos);
    var loaded := LoadUtxos(rows);
    forall op | op in utxos ensures KeyOf(op) in rows && StateOf(rows[KeyOf(op)]) == Some(utxos[op])
        && OutpointOf(KeyOf(op)) == op {
      assert KeyOf(op) in RowKeys(utxos);
      RowRoundTrip(lossy, utxos[op]);
      if utxos[op].Name? {
        assert NamePadded(op, utxos[op]);
        PaddedNamesSurvive(lossy, utxos[op].name.name);
      }
    }
    forall op ensures (op in loaded <==> op in utxos) && (op in loaded ==> loaded[op] == utxos[op]) {
    }
    assert loaded == utxos;
  }

  /** The journal a start reads; one that does not decode counts as none. */
  function LoadedJournal(journal: Option<Json>): seq<UndoEntry> {
    match journal
    case None => []
    case Some(text) => if DecodeEntries(text).Some? then DecodeEntries(text).value else []
  }

  // ------------------------------------------------------------------ the database --

  class Database {
    var rows: Rows
    var journal: Option<Json>
    /** Blocks with history rows. */
    var history: set<Bytes32>
    var checkpoint: Option<Bytes32>
    const lossy: Lossy

    constructor (lossy: Lossy)
      ensures rows == map[] && journal == None && history == {} && checkpoint == None && this.lossy == lossy
    {
      rows, journal, history, checkpoint := map[], None, {}, None;
      this.lossy := lossy;
    }

    /** The whole live set, rewritten. */
    method WriteLiveSet(utxos: Utxos)
      modifies this`rows
      ensures rows == RowsOf(lossy, utxos)
    {
      hide RowOf;
      rows := map[];
      var left := utxos.Keys;
      while left != {}
        invariant left <= utxos.Keys
        invariant rows == map k | k in RowKeys(utxos) && OutpointOf(k) !in left :: RowOf(lossy, utxos[OutpointOf(k)])
      {
        var op :| op in left;
        assert KeyOf(op) in RowKeys(utxos);
        ghost var before := left;
        left := left - {op};
        rows := rows[KeyOf(op) := RowOf(lossy, utxos[op])];
        assert forall k :: k in RowKeys(utxos) ==>
            (OutpointOf(k) !in left <==> OutpointOf(k) !in before || k == KeyOf(op));
      }
      assert rows == RowsOf(lossy, utxos);
    }

    /** The history rows of removed blocks dropped, those of new events added. */
    method WriteHistory(removed: seq<Bytes32>, eventBlocks: seq<Bytes32>)
      modifies this`history
      ensures history == old(history) - Elements(removed) + Elements(eventBlocks)
    {
      for i := 0 to |removed|
        invariant history == old(history) - Elements(removed[..i])
      {
        assert removed[..i + 1] == removed[..i] + [removed[i]];
        history := history - {removed[i]};
      }
      assert removed[..|removed|] == removed;
      for i := 0 to |eventBlocks|
        invariant history == old(history) - Elements(removed) + Elements(eventBlocks[..i])
      {
        assert eventBlocks[..i + 1] == eventBlocks[..i] + [eventBlocks[i]];
        history := history + {eventBlocks[i]};
      }
      assert eventBlocks[..|eventBlocks|] == eventBlocks;
    }

    /** One transaction: the live set, the history, the undo journal, and the checkpoint. */
    method Persist(reg: Registry, removed: seq<Bytes32>, eventBlocks: seq<Bytes32>, at: Option<Bytes32>)
      modifies this
      ensures rows == RowsOf(lossy, reg.utxos)
      ensures journal == Some(EncodeJournal(reg.journal))
      ensures history == old(history) - Elements(removed) + Elements(eventBlocks)
      ensures checkpoint == at
    {
      hide RowsOf, EncodeJournal;
      WriteLiveSet(reg.utxos);
      WriteHistory(removed, eventBlocks);
      journal := Some(EncodeJournal(reg.journal));
      checkpoint := at;
    }

    /** A status-only write. */
    method SaveStatus(at: Option<Bytes32>)
      modifies this`checkpoint
      ensures checkpoint == at
    {
      checkpoint := at;
    }

    /** After a reorg the journal cannot undo: the live set, its history, the journal and the
        checkpoint go. */
    method Rewind()
      modifies this
      ensures rows == map[] && history == {} && checkpoint == None && journal == None
    {
      rows, history, checkpoint, journal := map[], {}, None, None;
    }

    /** The registry as stored. */
    method Load() returns (reg: Registry, at: Option<Bytes32>)
      ensures fresh(reg) && at == checkpoint && reg.profiles == map[]
      ensures ProperKeys(rows) ==> reg.utxos == LoadUtxos(rows)
      ensures reg.journal == LoadedJournal(journal)
    {
      hide StateOf, DecodeEntries, EncodeJournal;
      reg := new Registry();
      var left := rows.Keys;
      while left != {}
        invariant left <= rows.Keys
        invariant ProperKeys(rows) ==> reg.utxos == LoadSome(rows, rows.Keys - left)
        invariant reg.profiles == map[] && reg.journal == []
      {
        var k :| k in left;
        var state := StateOf(rows[k]);
        assert rows.Keys - left + {k} == rows.Keys - (left - {k});
        assert Outpoints(rows.Keys - left + {k}) == Outpoints(rows.Keys - left) + {OutpointOf(k)};
        left := left - {k};
        if state.None? {
          continue;
        }
        reg.utxos := reg.utxos[OutpointOf(k) := state.value];
      }
      assert rows.Keys - left == rows.Keys;
      if journal.Some? {
        var entries := DecodeJournal(journal.value);
        if entries.Some? {
          reg.RestoreJournal(entries.value);
        }
      }
      at := checkpoint;
    }

    /** A restart right after a write: the same tracked set, and any reorg is undone as it would have
        been without the restart. */
    method Restart(reg: Registry, removed: seq<Bytes32>, eventBlocks: seq<Bytes32>, at: Option<Bytes32>,
                   ghost blocks: seq<Bytes32>)
      returns (after: Registry, from: Option<Bytes32>)
      requires KeepsAscii(lossy) && Holds(NamePadded, reg.utxos)
      requires forall e :: e in reg.journal ==> StatesEncodable(e)
      modifies this
      ensures fresh(after) && from == at && after.utxos == reg.utxos && after.journal == Strip(reg.journal)
      ensures UndoBlocks(after.State(), blocks).utxos == UndoBlocks(reg.State(), blocks).utxos
    {
      hide DecodeEntries, EncodeJournal, LoadUtxos, RowsOf, KeepsAscii, UndoBlocks, StatesEncodable, Strip;
      Persist(reg, removed, eventBlocks, at);
      RowsLoadBack(lossy, reg.utxos);
      JournalRoundTrip(reg.journal);
      after, from := Load();
      UndoFromStored(reg.State(), after.State(), blocks);
    }
  }
}
