/** What one accepted transaction does to the tracked registry (kachat-names/src/ingest.rs), as
    functions on values. `Registry.dfy` has the in-place engine proved against these. */
module Ingest {
  import opened Base
  import opened Pushes
  import opened States
  import opened Transition

  // ------------------------------------------------------------------ data --

  datatype Outpoint = Outpoint(tx: Bytes32, index: UInt32)

  /** One tracked registry UTXO. */
  datatype Tracked =
    | Gap(gap: GapState)
    | Name(name: NameState)
    | Offer(offer: OfferState)
    | Shard(shard: PriceState)
  {
    function Contract(): Contract {
      match this
      case Gap(_) => GapContract
      case Name(_) => NameContract
      case Offer(_) => OfferContract
      case Shard(_) => PriceContract
    }
  }

  type Utxos = map<Outpoint, Tracked>

  /** What the engine calls but this model does not define: the two hashes, the curve check, the
      text formats carried in payloads, and which of several names with one key a lookup in an
      unordered map returns. */
  datatype Host = Host(
    blake2b: Bytes -> Bytes32,
    nameKey: Bytes -> Bytes32,
    usableKey: Bytes32 -> bool,
    /** The offer a `kchat:1:offer:` payload describes, given the offer state's length. */
    offerMarker: (nat, Bytes) -> Option<OfferState>,
    /** The JSON of a valid `kchat:1:profile:` payload. */
    profileRecord: Bytes -> Option<Bytes>,
    nameByKey: (Utxos, Bytes32) -> Option<NameState>)

  /** redeem = prefix + state + suffix; the script pays to its hash. */
  datatype ContractTemplate = ContractTemplate(prefix: Bytes, suffix: Bytes, stateLen: nat)

  datatype Templates = Templates(
    host: Host,
    gap: ContractTemplate,
    name: ContractTemplate,
    offer: ContractTemplate,
    price: Option<ContractTemplate>,
    tags: seq<(Contract, Bytes, Entry)>,
    periodMs: Int64,
    registryId: Option<Bytes32>,
    priceId: Option<Bytes32>)

  datatype CovenantBinding = CovenantBinding(authorizingInput: nat, covenantId: Bytes32)

  datatype TxInput = TxInput(previous: Outpoint, signatureScript: Bytes, spentScript: Bytes)

  datatype TxOutput = TxOutput(script: Bytes, covenant: Option<CovenantBinding>)

  type Outputs = o: seq<TxOutput> | |o| < 0x1_0000_0000

  datatype Tx = Tx(id: Bytes32, inputs: seq<TxInput>, outputs: Outputs, payload: Bytes, block: Bytes32, daa: nat)

  datatype ProfileEntry = ProfileEntry(json: Bytes, daa: nat, tx: Bytes32)

  type Profiles = map<Bytes, ProfileEntry>

  datatype ProfileUndo = ProfileUndo(address: Bytes, prior: Option<ProfileEntry>)

  /** What one applied transaction changed, enough to reverse it. */
  datatype UndoEntry = UndoEntry(
    block: Bytes32,
    added: seq<Outpoint>,
    removed: seq<(Outpoint, Tracked)>,
    profile: Option<ProfileUndo>)

  datatype Reg = Reg(utxos: Utxos, profiles: Profiles, journal: seq<UndoEntry>)

  // ------------------------------------------------------------------ scripts and entries --

  function PayTo(t: Templates, c: ContractTemplate, state: Bytes): Bytes {
    [0xaa, 0x20] + t.host.blake2b(c.prefix + state + c.suffix) + [0x87]
  }

  /** The script of a tracked state; a shard without a price template has the empty one. */
  function ScriptOf(t: Templates, s: Tracked): Bytes {
    match s
    case Gap(g) => PayTo(t, t.gap, GapEncode(g))
    case Name(n) => PayTo(t, t.name, NameEncode(n))
    case Offer(o) => PayTo(t, t.offer, OfferEncode(o))
    case Shard(p) => if t.price.None? then [] else PayTo(t, t.price.value, PriceEncode(p))
  }

  function FindTag(tags: seq<(Contract, Bytes, Entry)>, contract: Contract, tag: Bytes): Option<Entry> {
    if tags == [] then None
    else if tags[0].0 == contract && tags[0].1 == tag then Some(tags[0].2)
    else FindTag(tags[1..], contract, tag)
  }

  /** The entry a spend of `contract` with this dispatch tag calls. */
  function EntryOf(t: Templates, contract: Contract, tag: Bytes): Option<Entry> {
    if t.tags == [] then
      match EntryForTag(tag)
      case None => None
      case Some(e) => if e.Contract() == contract then Some(e) else None
    else FindTag(t.tags, contract, tag)
  }

  // ------------------------------------------------------------------ spends --

  /** An input that spends a tracked UTXO under a known entry. */
  datatype Spend = Spend(input: nat, op: Outpoint, tracked: Tracked, entry: Entry, sig: SigScript)

  function SpendAt(t: Templates, utxos: Utxos, tx: Tx, i: nat): Option<Spend>
    requires i < |tx.inputs|
  {
    var op := tx.inputs[i].previous;
    if op !in utxos then None
    else match SignatureOf(tx.inputs[i].signatureScript)
      case None => None
      case Some(sig) =>
        match EntryOf(t, utxos[op].Contract(), sig.tag)
        case None => None
        case Some(entry) => Some(Spend(i, op, utxos[op], entry, sig))
  }

  function SpendsUpTo(t: Templates, utxos: Utxos, tx: Tx, n: nat): (spends: seq<Spend>)
    requires n <= |tx.inputs|
    ensures forall s :: s in spends ==> s.op in utxos && s.tracked == utxos[s.op] && s.input < n
                                        && s.op == tx.inputs[s.input].previous
  {
    if n == 0 then []
    else match SpendAt(t, utxos, tx, n - 1)
      case None => SpendsUpTo(t, utxos, tx, n - 1)
      case Some(s) => SpendsUpTo(t, utxos, tx, n - 1) + [s]
  }

  function Spends(t: Templates, utxos: Utxos, tx: Tx): seq<Spend> {
    SpendsUpTo(t, utxos, tx, |tx.inputs|)
  }

  predicate Has(spends: seq<Spend>, e: Entry) {
    exists s :: s in spends && s.entry == e
  }

  function FirstWith(spends: seq<Spend>, e: Entry): (r: Option<Spend>)
    ensures r.Some? <==> Has(spends, e)
    ensures r.Some? ==> r.value in spends && r.value.entry == e
  {
    if spends == [] then None
    else if spends[0].entry == e then Some(spends[0])
    else
      assert forall s :: s in spends ==> s == spends[0] || s in spends[1..];
      FirstWith(spends[1..], e)
  }

  // ------------------------------------------------------------------ arguments --

  function ArgBytes(sig: SigScript, k: nat): Option<Bytes> {
    if k < |sig.args| then sig.args[k].Bytes() else None
  }

  function ArgKey(sig: SigScript, k: nat): Option<Bytes32> {
    match ArgBytes(sig, k)
    case None => None
    case Some(d) => if |d| == 32 then Some(d) else None
  }

  function ArgInt(sig: SigScript, k: nat): Option<Int64> {
    if k < |sig.args| then Some(sig.args[k].Int()) else None
  }

  // ------------------------------------------------------------------ claims --

  /** The covenant an output must be bound to: its authorizing input and covenant id. */
  type Binding = Option<(nat, Bytes32)>

  /** A continuation a spend asks for: an output carrying `state`'s script under `binding`, or
      (registry v2) the accepted offer's name handed to its buyer. */
  datatype Claim =
    | Continue(binding: Binding, state: Tracked)
    | TakeOffer(binding: Binding, offer: OfferState)

  function RegistryBinding(t: Templates, input: nat): Binding {
    if t.registryId.None? then None else Some((input, t.registryId.value))
  }

  function ShardInputs(spends: seq<Spend>): seq<(nat, PriceState)> {
    if spends == [] then []
    else
      var last := spends[|spends| - 1];
      ShardInputs(spends[..|spends| - 1]) + if last.tracked.Shard? then [(last.input, last.tracked.shard)] else []
  }

  function PriceArgs(sig: SigScript): Option<(Bytes32, Prices)> {
    var authority := ArgKey(sig, 0);
    var (p1, p2, p3, p4, p5) := (ArgInt(sig, 1), ArgInt(sig, 2), ArgInt(sig, 3), ArgInt(sig, 4), ArgInt(sig, 5));
    if authority.None? || p1.None? || p2.None? || p3.None? || p4.None? || p5.None? then None
    else
      var prices: Prices := [p1.value, p2.value, p3.value, p4.value, p5.value];
      if exists p :: p in prices && p < 0 then None else Some((authority.value, prices))
  }

  /** A price change rewrites every shard the transaction spends, each under its own input. */
  function UpdateClaims(id: Bytes32, shards: seq<(nat, PriceState)>, authority: Bytes32, prices: Prices): seq<Claim> {
    if shards == [] then []
    else
      var (input, shard) := shards[|shards| - 1];
      UpdateClaims(id, shards[..|shards| - 1], authority, prices)
        + [Continue(Some((input, id)), Shard(PriceState(shard.shard, authority, prices)))]
  }

  function PriceClaim(id: Bytes32, spends: seq<Spend>, s: Spend): seq<Claim> {
    if !s.tracked.Shard? then []
    else match s.entry
      case PriceUse => [Continue(Some((s.input, id)), s.tracked)]
      case PriceUpdate =>
        (match PriceArgs(s.sig)
         case None => []
         case Some((authority, prices)) => UpdateClaims(id, ShardInputs(spends), authority, prices))
      case _ => []
  }

  function PriceClaims(t: Templates, spends: seq<Spend>, n: nat): seq<Claim>
    requires n <= |spends|
  {
    if n == 0 || t.priceId.None? then []
    else PriceClaims(t, spends, n - 1) + PriceClaim(t.priceId.value, spends, spends[n - 1])
  }

  /** The two gaps and the name of a `register` or `import`, in the order they are looked for. */
  function SplitClaims(t: Templates, s: Spend, n: NameState): seq<Claim>
    requires s.tracked.Gap?
  {
    var (left, right) := SplitGap(s.tracked.gap, n.key);
    var b := RegistryBinding(t, s.input);
    [Continue(b, Gap(left)), Continue(b, Gap(right)), Continue(b, Name(n))]
  }

  /** The name state a gap spend mints, from its arguments; None when they do not decode or the
      name is not valid. */
  function MintedName(t: Templates, s: Spend): Option<NameState> {
    var (name, owner) := (ArgBytes(s.sig, 0), ArgKey(s.sig, 1));
    if name.None? || owner.None? || !IsValidName(name.value) then None
    else
      var key := t.host.nameKey(name.value);
      if s.entry == GapRegister then
        var (now, years) := (ArgInt(s.sig, 3), ArgInt(s.sig, 4));
        if now.None? || years.None? then None
        else Some(RegisteredName(key, name.value, owner.value, now.value, years.value, t.periodMs))
      else
        var (start, expires) := (ArgInt(s.sig, 2), ArgInt(s.sig, 3));
        if start.None? || expires.None? then None
        else Some(ImportedName(key, name.value, owner.value, start.value, expires.value))
  }

  function MintClaims(t: Templates, spends: seq<Spend>, e: Entry): seq<Claim> {
    match FirstWith(spends, e)
    case None => []
    case Some(s) =>
      if !s.tracked.Gap? then []
      else match MintedName(t, s)
        case None => []
        case Some(n) => SplitClaims(t, s, n)
  }

  function FirstGapWith(spends: seq<Spend>, e: Entry): (r: Option<Spend>)
    ensures r.Some? ==> r.value in spends && r.value.entry == e && r.value.tracked.Gap?
  {
    if spends == [] then None
    else if spends[0].entry == e && spends[0].tracked.Gap? then Some(spends[0])
    else FirstGapWith(spends[1..], e)
  }

  function MergeClaims(t: Templates, spends: seq<Spend>): seq<Claim> {
    var (lo, hi) := (FirstGapWith(spends, GapMerge), FirstGapWith(spends, GapAbsorbed));
    if lo.None? || hi.None? then []
    else [Continue(RegistryBinding(t, lo.value.input), Gap(MergeGaps(lo.value.tracked.gap, hi.value.tracked.gap)))]
  }

  /** The next state of a spent name, or None for an entry that does not continue it. */
  function NextName(t: Templates, s: Spend): Option<NameState>
    requires s.tracked.Name?
  {
    var name := s.tracked.name;
    match s.entry
    case NameTransfer | NameBuy =>
      (match ArgKey(s.sig, 0) case None => None case Some(owner) => Some(Transfer(name, owner)))
    case NameList => (match ArgInt(s.sig, 0) case None => None case Some(price) => Some(List(name, price)))
    case NameRenew =>
      (match ArgInt(s.sig, 0) case None => None case Some(years) => Some(Renew(name, years, t.periodMs)))
    case NameExtend =>
      (match ArgInt(s.sig, 0) case None => None case Some(years) => Some(Extend(name, years, t.periodMs)))
    case _ => None
  }

  function NameClaim(t: Templates, spends: seq<Spend>, s: Spend): seq<Claim> {
    var b := RegistryBinding(t, s.input);
    match s.tracked
    case Name(_) => (match NextName(t, s) case None => [] case Some(n) => [Continue(b, Name(n))])
    case Offer(o) => if s.entry == OfferAccept && !Has(spends, NameTransfer) then [TakeOffer(b, o)] else []
    case _ => []
  }

  function NameClaims(t: Templates, spends: seq<Spend>, n: nat): seq<Claim>
    requires n <= |spends|
  {
    if n == 0 then [] else NameClaims(t, spends, n - 1) + NameClaim(t, spends, spends[n - 1])
  }

  function BodyClaims(t: Templates, spends: seq<Spend>): seq<Claim> {
    if Has(spends, GapMerge) then MergeClaims(t, spends)
    else if Has(spends, GapRegister) then MintClaims(t, spends, GapRegister)
    else if Has(spends, GapImport) then MintClaims(t, spends, GapImport)
    else NameClaims(t, spends, |spends|)
  }

  /** Every continuation the spends ask for, in the order the engine looks for them. */
  function Claims(t: Templates, spends: seq<Spend>): seq<Claim> {
    PriceClaims(t, spends, |spends|) + BodyClaims(t, spends)
  }

  // ------------------------------------------------------------------ claiming outputs --

  predicate BindingsKnown(tx: Tx) {
    exists o :: o in tx.outputs && o.covenant.Some?
  }

  /** An input index as the 16 bits a covenant binding holds. */
  function Authorizing(b: (nat, Bytes32)): CovenantBinding {
    CovenantBinding(b.0 % 0x1_0000, b.1)
  }

  predicate Matches(tx: Tx, script: Bytes, b: Binding, i: nat)
    requires i < |tx.outputs|
  {
    tx.outputs[i].script == script
    && (b.Some? && BindingsKnown(tx) ==> tx.outputs[i].covenant == Some(Authorizing(b.value)))
  }

  /** The first unclaimed output from index `i` on that matches. */
  function FirstFree(tx: Tx, script: Bytes, b: Binding, used: seq<nat>, i: nat): (r: Option<nat>)
    requires i <= |tx.outputs|
    ensures r.Some? ==> i <= r.value < |tx.outputs| && r.value !in used && Matches(tx, script, b, r.value)
    ensures forall j :: i <= j < (if r.Some? then r.value else |tx.outputs|) ==> j in used || !Matches(tx, script, b, j)
    decreases |tx.outputs| - i
  {
    if i == |tx.outputs| then None
    else if i !in used && Matches(tx, script, b, i) then Some(i)
    else FirstFree(tx, script, b, used, i + 1)
  }

  /** The outputs claimed so far and the tracked set as it is being changed. */
  datatype Work = Work(used: seq<nat>, utxos: Utxos)

  function Place(t: Templates, tx: Tx, b: Binding, s: Tracked, w: Work): Work {
    match FirstFree(tx, ScriptOf(t, s), b, w.used, 0)
    case None => w
    case Some(i) => Work(w.used + [i], w.utxos[Outpoint(tx.id, i) := s])
  }

  function RunClaim(t: Templates, tx: Tx, c: Claim, w: Work): Work {
    match c
    case Continue(b, s) => Place(t, tx, b, s, w)
    case TakeOffer(b, o) =>
      match t.host.nameByKey(w.utxos, o.key)
      case None => w
      case Some(n) => Place(t, tx, b, Name(Transfer(n, o.buyer)), w)
  }

  function RunClaims(t: Templates, tx: Tx, claims: seq<Claim>, w: Work): Work {
    if claims == [] then w
    else RunClaim(t, tx, claims[|claims| - 1], RunClaims(t, tx, claims[..|claims| - 1], w))
  }

  lemma {:induction false} RunClaimsConcat(t: Templates, tx: Tx, a: seq<Claim>, b: seq<Claim>, w: Work)
    ensures RunClaims(t, tx, a + b, w) == RunClaims(t, tx, b, RunClaims(t, tx, a, w))
  {
    if b == [] {
      assert a + b == a;
    } else {
      assert (a + b)[..|a + b| - 1] == a + b[..|b| - 1];
      RunClaimsConcat(t, tx, a, b[..|b| - 1], w);
    }
  }

  // ------------------------------------------------------------------ offers and profiles --

  /** The first output that carries the offer's script and no covenant. */
  function OfferOutput(tx: Tx, script: Bytes, i: nat): (r: Option<nat>)
    requires i <= |tx.outputs|
    ensures r.Some? ==> i <= r.value < |tx.outputs|
                        && tx.outputs[r.value].script == script && tx.outputs[r.value].covenant.None?
    decreases |tx.outputs| - i
  {
    if i == |tx.outputs| then None
    else if tx.outputs[i].script == script && tx.outputs[i].covenant.None? then Some(i)
    else OfferOutput(tx, script, i + 1)
  }

  /** The offer a payload marker announces, when its keys can be used and an output carries it. */
  function NewOffer(t: Templates, tx: Tx): (r: Option<(nat, OfferState)>)
    ensures r.Some? ==> r.value.0 < |tx.outputs|
                        && tx.outputs[r.value.0].script == ScriptOf(t, Offer(r.value.1))
                        && tx.outputs[r.value.0].covenant.None?
  {
    match t.host.offerMarker(t.offer.stateLen, tx.payload)
    case None => None
    case Some(o) =>
      if o.refundAfter < 0 || !t.host.usableKey(o.buyer)
          || (o.seller.Some? && !t.host.usableKey(o.seller.value)) then None
      else match OfferOutput(tx, ScriptOf(t, Offer(o)), 0)
        case None => None
        case Some(i) => Some((i, o))
  }

  function WithOffer(t: Templates, utxos: Utxos, tx: Tx): Utxos {
    match NewOffer(t, tx)
    case None => utxos
    case Some((i, o)) => utxos[Outpoint(tx.id, i) := Offer(o)]
  }

  predicate NewerProfile(a: ProfileEntry, b: ProfileEntry) {
    a.daa > b.daa || (a.daa == b.daa && Less(b.tx, a.tx))
  }

  /** A valid record on a self-send: the address is the first output's, and an input spends from it. */
  function ProfileOf(h: Host, tx: Tx): Option<(Bytes, ProfileEntry)> {
    match h.profileRecord(tx.payload)
    case None => None
    case Some(json) =>
      if tx.outputs == [] then None
      else
        var address := tx.outputs[0].script;
        if exists i :: i in tx.inputs && i.spentScript != [] && i.spentScript == address
        then Some((address, ProfileEntry(json, tx.daa, tx.id)))
        else None
  }

  /** The record a transaction sets, unless the address already has one at least as new. */
  function AcceptedProfile(h: Host, profiles: Profiles, tx: Tx): Option<(Bytes, ProfileEntry)> {
    match ProfileOf(h, tx)
    case None => None
    case Some((address, entry)) =>
      if address in profiles && !NewerProfile(entry, profiles[address]) then None else Some((address, entry))
  }

  function WithProfile(profiles: Profiles, p: Option<(Bytes, ProfileEntry)>): Profiles {
    if p.None? then profiles else profiles[p.value.0 := p.value.1]
  }

  function ProfileUndoOf(profiles: Profiles, p: Option<(Bytes, ProfileEntry)>): Option<ProfileUndo> {
    if p.None? then None
    else
      var address := p.value.0;
      Some(ProfileUndo(address, if address in profiles then Some(profiles[address]) else None))
  }

  // ------------------------------------------------------------------ apply --

  function SpentOutpoints(spends: seq<Spend>): set<Outpoint> {
    set s | s in spends :: s.op
  }

  function Removed(spends: seq<Spend>): (r: seq<(Outpoint, Tracked)>)
    ensures |r| == |spends|
  {
    seq(|spends|, i requires 0 <= i < |spends| => (spends[i].op, spends[i].tracked))
  }

  /** The transaction's outputs, below index `n`, that are tracked after it and were not before. */
  function Added(tx: Tx, before: Utxos, after: Utxos, n: nat): (r: seq<Outpoint>)
    requires n <= |tx.outputs|
    ensures forall op :: op in r <==> op.tx == tx.id && op.index < n && op in after && op !in before
  {
    if n == 0 then []
    else
      var op := Outpoint(tx.id, n - 1);
      Added(tx, before, after, n - 1) + if op in after && op !in before then [op] else []
  }

  /** The tracked set a transaction leaves. */
  function ApplyUtxos(t: Templates, utxos: Utxos, tx: Tx): Utxos {
    var spends := Spends(t, utxos, tx);
    RunClaims(t, tx, Claims(t, spends), Work([], WithOffer(t, utxos, tx))).utxos - SpentOutpoints(spends)
  }

  function UndoOf(t: Templates, r: Reg, tx: Tx): UndoEntry {
    UndoEntry(tx.block,
              Added(tx, r.utxos, ApplyUtxos(t, r.utxos, tx), |tx.outputs|),
              Removed(Spends(t, r.utxos, tx)),
              ProfileUndoOf(r.profiles, AcceptedProfile(t.host, r.profiles, tx)))
  }

  predicate Changes(e: UndoEntry) {
    e.added != [] || e.removed != [] || e.profile.Some?
  }

  function Apply(t: Templates, r: Reg, tx: Tx): Reg {
    var undo := UndoOf(t, r, tx);
    Reg(ApplyUtxos(t, r.utxos, tx),
        WithProfile(r.profiles, AcceptedProfile(t.host, r.profiles, tx)),
        if Changes(undo) then r.journal + [undo] else r.journal)
  }

  /** Transactions in order, the last one applied last. */
  function Replay(t: Templates, r: Reg, txs: seq<Tx>): (end: Reg)
    ensures r.journal <= end.journal
  {
    if txs == [] then r else Apply(t, Replay(t, r, txs[..|txs| - 1]), txs[|txs| - 1])
  }

  lemma {:induction false} ReplayConcat(t: Templates, r: Reg, a: seq<Tx>, b: seq<Tx>)
    ensures Replay(t, r, a + b) == Replay(t, Replay(t, r, a), b)
  {
    hide Apply;
    if b == [] {
      assert a + b == a;
    } else {
      assert (a + b)[..|a + b| - 1] == a + b[..|b| - 1];
      ReplayConcat(t, r, a, b[..|b| - 1]);
    }
  }

  // ------------------------------------------------------------------ undo --

  function RestoreAll(utxos: Utxos, removed: seq<(Outpoint, Tracked)>): Utxos {
    if removed == [] then utxos
    else
      var last := removed[|removed| - 1];
      RestoreAll(utxos, removed[..|removed| - 1])[last.0 := last.1]
  }

  function RevertUtxos(utxos: Utxos, e: UndoEntry): Utxos {
    RestoreAll(utxos - Elements(e.added), e.removed)
  }

  function RevertProfiles(profiles: Profiles, e: UndoEntry): Profiles {
    match e.profile
    case None => profiles
    case Some(u) => if u.prior.Some? then profiles[u.address := u.prior.value] else profiles - {u.address}
  }

  /** Undo the entries of `es`, last first. */
  function RevertAll(r: Reg, es: seq<UndoEntry>): Reg
    decreases |es|
  {
    if es == [] then r
    else
      var last := es[|es| - 1];
      RevertAll(r.(utxos := RevertUtxos(r.utxos, last), profiles := RevertProfiles(r.profiles, last)), es[..|es| - 1])
  }

  function EntriesOf(journal: seq<UndoEntry>, block: Bytes32): seq<UndoEntry> {
    if journal == [] then []
    else
      var last := journal[|journal| - 1];
      EntriesOf(journal[..|journal| - 1], block) + if last.block == block then [last] else []
  }

  function EntriesNotOf(journal: seq<UndoEntry>, block: Bytes32): seq<UndoEntry> {
    if journal == [] then []
    else
      var last := journal[|journal| - 1];
      EntriesNotOf(journal[..|journal| - 1], block) + if last.block == block then [] else [last]
  }

  /** Reverse every transaction a removed chain block accepted, newest first. */
  function UndoBlock(r: Reg, block: Bytes32): Reg {
    RevertAll(r.(journal := EntriesNotOf(r.journal, block)), EntriesOf(r.journal, block))
  }

  function UndoBlocks(r: Reg, blocks: seq<Bytes32>): Reg {
    if blocks == [] then r else UndoBlock(UndoBlocks(r, blocks[..|blocks| - 1]), blocks[|blocks| - 1])
  }

  function Prune(journal: seq<UndoEntry>, keep: nat): seq<UndoEntry> {
    if |journal| > keep then journal[|journal| - keep..] else journal
  }
}
