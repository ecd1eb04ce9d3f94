/** The stored undo journal (kachat-names-follower/src/store.rs `encode_journal`, `decode_journal`),
    over JSON values: what survives storing it, and that undo from it is undo from the live one. */
module Journal {
  import opened Base
  import opened Codec
  import opened States
  import opened Ingest
  import opened Chain
  import opened Text

  // ------------------------------------------------------------------ JSON values --

  datatype Json = Null | Number(n: int) | Text(s: string) | Array(items: seq<Json>) | Object(fields: map<string, Json>)

  /** Indexing as serde_json does: Null for anything missing. */
  function At(v: Json, i: nat): Json {
    if v.Array? && i < |v.items| then v.items[i] else Null
  }

  function Field(v: Json, name: string): Json {
    if v.Object? && name in v.fields then v.fields[name] else Null
  }

  function AsText(v: Json): Option<string> {
    if v.Text? then Some(v.s) else None
  }

  function AsItems(v: Json): Option<seq<Json>> {
    if v.Array? then Some(v.items) else None
  }

  function AsHash(v: Json): Option<Bytes32> {
    match AsText(v)
    case None => None
    case Some(s) =>
      match HexDecode(s)
      case None => None
      case Some(b) => if |b| == 32 then Some(b) else None
  }

  function AsUInt32(v: Json): Option<UInt32> {
    if v.Number? && 0 <= v.n < 0x1_0000_0000 then Some(v.n) else None
  }

  // ------------------------------------------------------------------ states --

  function TrackedEncode(s: Tracked): (string, string) {
    match s
    case Gap(g) => ("gap", HexEncode(GapEncode(g)))
    case Name(n) => ("name", HexEncode(NameEncode(n)))
    case Offer(o) => ("offer", HexEncode(OfferEncode(o)))
    case Shard(p) => ("shard", HexEncode(PriceEncode(p)))
  }

  function TrackedDecode(kind: string, state: string): Option<Tracked> {
    match HexDecode(state)
    case None => None
    case Some(b) =>
      if kind == "gap" then (match GapDecode(b) case None => None case Some(g) => Some(Gap(g)))
      else if kind == "name" then (match NameDecode(b) case None => None case Some(n) => Some(Name(n)))
      else if kind == "offer" then (match OfferDecode(b) case None => None case Some(o) => Some(Offer(o)))
      else if kind == "shard" then (match PriceDecode(b) case None => None case Some(p) => Some(Shard(p)))
      else None
  }

  /** No number in the state is the i64 minimum, the one value the on-chain encoding cannot hold. */
  predicate Encodable(s: Tracked) {
    match s
    case Gap(_) => true
    case Name(n) => NameEncodable(n)
    case Offer(o) => o.refundAfter != INT64_MIN
    case Shard(p) => PriceEncodable(p)
  }

  lemma TrackedRoundTrip(s: Tracked)
    ensures var (kind, state) := TrackedEncode(s);
            TrackedDecode(kind, state).Some? && (TrackedDecode(kind, state) == Some(s) <==> Encodable(s))
  {
    hide GapEncode, GapDecode, NameEncode, NameDecode, OfferEncode, OfferDecode, PriceEncode, PriceDecode, HexEncode,
        HexDecode;
    match s {
      case Gap(g) =>
        HexRoundTrip(GapEncode(g));
        GapRoundTrip(g, GapEncode(g));
      case Name(n) =>
        HexRoundTrip(NameEncode(n));
        NameRoundTrip(n);
      case Offer(o) =>
        HexRoundTrip(OfferEncode(o));
        OfferRoundTrip(o);
      case Shard(p) =>
        HexRoundTrip(PriceEncode(p));
        PriceRoundTrip(p);
    }
  }

  // ------------------------------------------------------------------ entries --

  function EncodeOutpoint(op: Outpoint): Json {
    Array([Text(HexEncode(op.tx)), Number(op.index)])
  }

  function DecodeOutpoint(v: Json): Option<Outpoint> {
    var (tx, index) := (AsHash(At(v, 0)), AsUInt32(At(v, 1)));
    if tx.None? || index.None? then None else Some(Outpoint(tx.value, index.value))
  }

  function EncodeRemoved(p: (Outpoint, Tracked)): Json {
    var (kind, state) := TrackedEncode(p.1);
    Array([Text(HexEncode(p.0.tx)), Number(p.0.index), Text(kind), Text(state)])
  }

  function DecodeRemoved(v: Json): Option<(Outpoint, Tracked)> {
    var (op, kind, state) := (DecodeOutpoint(v), AsText(At(v, 2)), AsText(At(v, 3)));
    if op.None? || kind.None? || state.None? then None
    else match TrackedDecode(kind.value, state.value)
      case None => None
      case Some(s) => Some((op.value, s))
  }

  function EncodeAll<A>(f: A -> Json, xs: seq<A>): seq<Json> {
    if xs == [] then [] else EncodeAll(f, xs[..|xs| - 1]) + [f(xs[|xs| - 1])]
  }

  /** Every item, or None when any of them does not decode. */
  function DecodeAll<A>(f: Json -> Option<A>, items: seq<Json>): Option<seq<A>> {
    if items == [] then Some([])
    else
      var (init, last) := (DecodeAll(f, items[..|items| - 1]), f(items[|items| - 1]));
      if init.None? || last.None? then None else Some(init.value + [last.value])
  }

  function EncodeEntry(e: UndoEntry): Json {
    Object(map["b" := Text(HexEncode(e.block)), "a" := Array(EncodeAll(EncodeOutpoint, e.added)),
               "r" := Array(EncodeAll(EncodeRemoved, e.removed))])
  }

  function DecodeEntry(v: Json): Option<UndoEntry> {
    var (a, r) := (AsItems(Field(v, "a")), AsItems(Field(v, "r")));
    if a.None? || r.None? then None
    else
      var (added, removed, block) :=
          (DecodeAll(DecodeOutpoint, a.value), DecodeAll(DecodeRemoved, r.value), AsHash(Field(v, "b")));
      if added.None? || removed.None? || block.None? then None
      else Some(UndoEntry(block.value, added.value, removed.value, None))
  }

  /** A profile-only entry is not kept. */
  predicate Kept(e: UndoEntry) {
    e.added != [] || e.removed != []
  }

  function EncodeJournal(journal: seq<UndoEntry>): Json {
    Array(EncodeEntries(journal))
  }

  function EncodeEntries(journal: seq<UndoEntry>): seq<Json> {
    if journal == [] then []
    else
      var last := journal[|journal| - 1];
      EncodeEntries(journal[..|journal| - 1]) + if Kept(last) then [EncodeEntry(last)] else []
  }

  function DecodeEntries(v: Json): Option<seq<UndoEntry>> {
    match AsItems(v)
    case None => None
    case Some(items) => DecodeAll(DecodeEntry, items)
  }

  /** The decoder's loop: one bad entry fails the whole journal. */
  method DecodeJournal(v: Json) returns (r: Option<seq<UndoEntry>>)
    ensures r == DecodeEntries(v)
  {
    hide DecodeEntry;
    if !v.Array? {
      return None;
    }
    var out: seq<UndoEntry> := [];
    for i := 0 to |v.items|
      invariant DecodeAll(DecodeEntry, v.items[..i]) == Some(out)
    {
      assert v.items[..i + 1][..i] == v.items[..i];
      var e := DecodeEntry(v.items[i]);
      if e.None? {
        Undecodable(DecodeEntry, v.items, i + 1);
        return None;
      }
      out := out + [e.value];
    }
    assert v.items[..|v.items|] == v.items;
    return Some(out);
  }

  lemma {:induction false} Undecodable<A>(f: Json -> Option<A>, items: seq<Json>, n: nat)
    requires n <= |items| && DecodeAll(f, items[..n]).None?
    ensures DecodeAll(f, items).None?
  {
    if n == |items| {
      assert items[..n] == items;
    } else {
      assert items[..|items| - 1][..n] == items[..n];
      Undecodable(f, items[..|items| - 1], n);
    }
  }

  // ------------------------------------------------------------------ the round trip --

  lemma OutpointRoundTrip(op: Outpoint)
    ensures DecodeOutpoint(EncodeOutpoint(op)) == Some(op)
  {
    HexRoundTrip(op.tx);
  }

  lemma RemovedRoundTrip(p: (Outpoint, Tracked))
    ensures var d := DecodeRemoved(EncodeRemoved(p)); d.Some? && (d == Some(p) <==> Encodable(p.1))
  {
    hide TrackedEncode, TrackedDecode, HexEncode, HexDecode, Encodable;
    HexRoundTrip(p.0.tx);
    TrackedRoundTrip(p.1);
  }

  lemma {:induction false} AddedRoundTrip(added: seq<Outpoint>)
    ensures DecodeAll(DecodeOutpoint, EncodeAll(EncodeOutpoint, added)) == Some(added)
  {
    hide DecodeOutpoint, EncodeOutpoint;
    if added != [] {
      var init := added[..|added| - 1];
      AddedRoundTrip(init);
      OutpointRoundTrip(added[|added| - 1]);
      assert EncodeAll(EncodeOutpoint, added)[..|EncodeAll(EncodeOutpoint, init)|] == EncodeAll(EncodeOutpoint, init);
      assert |EncodeAll(EncodeOutpoint, added)| == |EncodeAll(EncodeOutpoint, init)| + 1;
      assert added == init + [added[|added| - 1]];
    }
  }

  lemma {:induction false} RemovedAllRoundTrip(removed: seq<(Outpoint, Tracked)>)
    ensures var d := DecodeAll(DecodeRemoved, EncodeAll(EncodeRemoved, removed));
            d.Some? && |d.value| == |removed| && (d == Some(removed) <==> forall p :: p in removed ==> Encodable(p.1))
  {
    hide DecodeRemoved, EncodeRemoved, Encodable;
    if removed != [] {
      var init, last := removed[..|removed| - 1], removed[|removed| - 1];
      RemovedAllRoundTrip(init);
      RemovedRoundTrip(last);
      var all := EncodeAll(EncodeRemoved, removed);
      assert all[..|all| - 1] == EncodeAll(EncodeRemoved, init);
      var d := DecodeAll(DecodeRemoved, all).value;
      assert removed == init + [last] && d[..|d| - 1] == DecodeAll(DecodeRemoved, all[..|all| - 1]).value;
    }
  }

  predicate StatesEncodable(e: UndoEntry) {
    forall p :: p in e.removed ==> Encodable(p.1)
  }

  lemma EntryRoundTrip(e: UndoEntry)
    ensures var d := DecodeEntry(EncodeEntry(e)); d.Some? && (d == Some(e.(profile := None)) <==> StatesEncodable(e))
  {
    hide DecodeAll, EncodeAll, HexEncode, HexDecode, Encodable;
    HexRoundTrip(e.block);
    AddedRoundTrip(e.added);
    RemovedAllRoundTrip(e.removed);
  }

  /** The journal without its profile undo and without the entries that hold nothing else. */
  function Strip(journal: seq<UndoEntry>): seq<UndoEntry> {
    if journal == [] then []
    else
      var last := journal[|journal| - 1];
      Strip(journal[..|journal| - 1]) + if Kept(last) then [last.(profile := None)] else []
  }

  /** Storing a journal always gives one back, and gives back exactly the stripped journal when and
      only when no state it would restore holds the i64 minimum. */
  lemma {:induction false} JournalRoundTrip(journal: seq<UndoEntry>)
    ensures var d := DecodeEntries(EncodeJournal(journal));
            d.Some? && |d.value| == |Strip(journal)|
            && (d == Some(Strip(journal)) <==> forall e :: e in journal ==> StatesEncodable(e))
  {
    hide DecodeEntry, EncodeEntry, StatesEncodable;
    if journal != [] {
      var init, last := journal[..|journal| - 1], journal[|journal| - 1];
      JournalRoundTrip(init);
      assert journal == init + [last];
      if Kept(last) {
        EntryRoundTrip(last);
        var items := EncodeEntries(journal);
        assert items[..|items| - 1] == EncodeEntries(init);
        var d, s := DecodeEntries(EncodeJournal(journal)).value, Strip(journal);
        assert d[..|d| - 1] == DecodeEntries(EncodeJournal(init)).value && s[..|s| - 1] == Strip(init);
      } else {
        NothingToEncode(last);
        assert EncodeEntries(journal) == EncodeEntries(init) && Strip(journal) == Strip(init);
      }
    }
  }

  lemma NothingToEncode(e: UndoEntry)
    requires !Kept(e)
    ensures StatesEncodable(e)
  {
  }

  // ------------------------------------------------------------------ undo from the stored journal --

  lemma {:induction false} StripEntries(journal: seq<UndoEntry>, block: Bytes32)
    ensures EntriesOf(Strip(journal), block) == Strip(EntriesOf(journal, block))
    ensures EntriesNotOf(Strip(journal), block) == Strip(EntriesNotOf(journal, block))
  {
    if journal != [] {
      var init, last := journal[..|journal| - 1], journal[|journal| - 1];
      StripEntries(init, block);
      StripConcat(EntriesOf(init, block), if last.block == block then [last] else []);
      StripConcat(EntriesNotOf(init, block), if last.block == block then [] else [last]);
      EntriesConcat(Strip(init), if Kept(last) then [last.(profile := None)] else [], block);
    }
  }

  lemma {:induction false} StripConcat(a: seq<UndoEntry>, b: seq<UndoEntry>)
    ensures Strip(a + b) == Strip(a) + Strip(b)
  {
    if b == [] {
      assert a + b == a;
    } else {
      assert (a + b)[..|a + b| - 1] == a + b[..|b| - 1];
      StripConcat(a, b[..|b| - 1]);
    }
  }

  lemma {:induction false} RevertStripped(r: Reg, s: Reg, es: seq<UndoEntry>)
    requires r.utxos == s.utxos
    ensures RevertAll(s, Strip(es)).utxos == RevertAll(r, es).utxos
    ensures RevertAll(s, Strip(es)).journal == s.journal && RevertAll(r, es).journal == r.journal
    decreases |es|
  {
    if es != [] {
      var init, last := es[..|es| - 1], es[|es| - 1];
      var r' := r.(utxos := RevertUtxos(r.utxos, last), profiles := RevertProfiles(r.profiles, last));
      if Kept(last) {
        var kept := last.(profile := None);
        var s' := s.(utxos := RevertUtxos(s.utxos, kept), profiles := RevertProfiles(s.profiles, kept));
        var stripped := Strip(es);
        assert stripped[..|stripped| - 1] == Strip(init) && stripped[|stripped| - 1] == kept;
        RevertStripped(r', s', init);
      } else {
        assert Elements(last.added) == {};
        assert RevertUtxos(r.utxos, last) == r.utxos && Strip(es) == Strip(init);
        RevertStripped(r', s, init);
      }
    }
  }

  /** Undoing any blocks, in any order, from the stored journal gives the live one's tracked set. */
  lemma {:induction false} UndoFromStored(r: Reg, s: Reg, blocks: seq<Bytes32>)
    requires s.utxos == r.utxos && s.journal == Strip(r.journal)
    ensures UndoBlocks(s, blocks).utxos == UndoBlocks(r, blocks).utxos
    ensures UndoBlocks(s, blocks).journal == Strip(UndoBlocks(r, blocks).journal)
  {
    hide RevertAll, Strip, EntriesOf, EntriesNotOf;
    if blocks != [] {
      UndoFromStored(r, s, blocks[..|blocks| - 1]);
      var block := blocks[|blocks| - 1];
      var a, b := UndoBlocks(r, blocks[..|blocks| - 1]), UndoBlocks(s, blocks[..|blocks| - 1]);
      StripEntries(a.journal, block);
      RevertStripped(a.(journal := EntriesNotOf(a.journal, block)), b.(journal := EntriesNotOf(b.journal, block)),
                     EntriesOf(a.journal, block));
    }
  }
}
