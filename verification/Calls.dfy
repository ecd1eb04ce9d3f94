/** From bytes to effect, for every entry of the contracts: a transaction whose inputs call entries with
    arguments leaves the states those calls ask for, written out field by field. */
module Calls {
  import opened Base
  import opened Pushes
  import opened States
  import opened Transition
  import opened Ingest
  import opened Claiming

  // ------------------------------------------------------------------ what an input calls --

  datatype Call =
    | Register(text: Bytes, holder: Bytes32, now: Int64, years: Int64)
    | Import(text: Bytes, holder: Bytes32, start: Int64, expires: Int64)
    | Merge | Absorbed
    | TransferTo(owner: Bytes32) | BuyTo(owner: Bytes32)
    | ListAt(price: Int64) | RenewFor(years: Int64) | ExtendFor(years: Int64)
    | Release | Reclaim
    | Accept | Withdraw | Refund | Decline
    | Use | Update(authority: Bytes32, prices: Prices) | Follow
  {
    function Entry(): Entry {
      match this
      case Register(_, _, _, _) => GapRegister
      case Import(_, _, _, _) => GapImport
      case Merge => GapMerge
      case Absorbed => GapAbsorbed
      case TransferTo(_) => NameTransfer
      case BuyTo(_) => NameBuy
      case ListAt(_) => NameList
      case RenewFor(_) => NameRenew
      case ExtendFor(_) => NameExtend
      case Release => NameRelease
      case Reclaim => NameReclaim
      case Accept => OfferAccept
      case Withdraw => OfferWithdraw
      case Refund => OfferRefund
      case Decline => OfferDecline
      case Use => PriceUse
      case Update(_, _) => PriceUpdate
      case Follow => PriceFollow
    }

    /** The entry is one of the contract the state is under. */
    predicate Fits(s: Tracked) {
      if Register? || Import? || Merge? || Absorbed? then s.Gap?
      else if Accept? || Withdraw? || Refund? || Decline? then s.Offer?
      else if Use? || Update? || Follow? then s.Shard?
      else s.Name?
    }

    /** The arguments of a signature script are this call's; further ones are the contract's own. */
    predicate Reads(args: seq<Push>) {
      match this
      case Register(text, holder, now, years) =>
        |args| >= 5 && args[0] == Data(text) && args[1] == Data(holder) && args[3].Int() == now
            && args[4].Int() == years
      case Import(text, holder, start, expires) =>
        |args| >= 4 && args[0] == Data(text) && args[1] == Data(holder) && args[2].Int() == start
            && args[3].Int() == expires
      case TransferTo(owner) => |args| >= 1 && args[0] == Data(owner)
      case BuyTo(owner) => |args| >= 1 && args[0] == Data(owner)
      case ListAt(price) => |args| >= 1 && args[0].Int() == price
      case RenewFor(years) => |args| >= 1 && args[0].Int() == years
      case ExtendFor(years) => |args| >= 1 && args[0].Int() == years
      case Update(authority, prices) =>
        |args| >= 6 && args[0] == Data(authority) && args[1].Int() == prices[0] && args[2].Int() == prices[1]
        && args[3].Int() == prices[2] && args[4].Int() == prices[3] && args[5].Int() == prices[4]
      case _ => true
    }
  }

  /** The contract and dispatch tag of each registry v2 entry. */
  function PinnedTag(e: Entry): Option<(Contract, Bytes)> {
    match e
    case GapRegister => Some((GapContract, [0x86, 0x67, 0xaf, 0x5e]))
    case GapMerge => Some((GapContract, [0x63, 0xd2, 0x5b, 0xc2]))
    case GapAbsorbed => Some((GapContract, [0xda, 0xb7, 0x63, 0x55]))
    case NameTransfer => Some((NameContract, [0x79, 0x4d, 0xca, 0x54]))
    case NameList => Some((NameContract, [0x67, 0x4a, 0x8e, 0xa4]))
    case NameBuy => Some((NameContract, [0x76, 0xa0, 0x2e, 0xb9]))
    case NameRenew => Some((NameContract, [0xb7, 0x06, 0xac, 0x38]))
    case NameExtend => Some((NameContract, [0x2c, 0xe7, 0xcc, 0xeb]))
    case NameRelease => Some((NameContract, [0x38, 0x8a, 0xd0, 0xb4]))
    case NameReclaim => Some((NameContract, [0xf5, 0x6a, 0xf4, 0xdf]))
    case OfferAccept => Some((OfferContract, [0x9d, 0x40, 0x43, 0xb4]))
    case OfferWithdraw => Some((OfferContract, [0x80, 0x34, 0x4f, 0xf1]))
    case OfferRefund => Some((OfferContract, [0x77, 0x7f, 0x5b, 0x11]))
    case _ => None
  }

  /** The tag dispatches to the entry: by the manifest's first line for the contract and tag, or by the
      pinned tags when it lists none. */
  ghost predicate Dispatches(t: Templates, contract: Contract, tag: Bytes, e: Entry) {
    if t.tags == [] then PinnedTag(e) == Some((contract, tag))
    else
      exists i :: 0 <= i < |t.tags| && t.tags[i] == (contract, tag, e)
                  && forall j :: 0 <= j < i ==> t.tags[j].0 != contract || t.tags[j].1 != tag
  }

  lemma {:induction false} FirstLine(tags: seq<(Contract, Bytes, Entry)>, contract: Contract, tag: Bytes, i: nat)
    requires i < |tags| && tags[i].0 == contract && tags[i].1 == tag
    requires forall j :: 0 <= j < i ==> tags[j].0 != contract || tags[j].1 != tag
    ensures FindTag(tags, contract, tag) == Some(tags[i].2)
  {
    if i > 0 {
      FirstLine(tags[1..], contract, tag, i - 1);
    }
  }

  lemma {:induction false} FoundLine(tags: seq<(Contract, Bytes, Entry)>, contract: Contract, tag: Bytes)
      returns (i: nat)
    requires FindTag(tags, contract, tag).Some?
    ensures i < |tags| && tags[i] == (contract, tag, FindTag(tags, contract, tag).value)
    ensures forall j :: 0 <= j < i ==> tags[j].0 != contract || tags[j].1 != tag
  {
    i := 0;
    if !(tags[0].0 == contract && tags[0].1 == tag) {
      i := FoundLine(tags[1..], contract, tag);
      i := i + 1;
    }
  }

  lemma PinnedEntry(tag: Bytes, e: Entry)
    ensures EntryForTag(tag) == Some(e) <==> PinnedTag(e).Some? && PinnedTag(e).value.1 == tag
  {
    hide Entry.Contract;
  }

  lemma PinnedContract(e: Entry)
    ensures PinnedTag(e).Some? ==> PinnedTag(e).value.0 == e.Contract()
  {
  }

  /** A dispatch tag calls an entry exactly when the manifest or the pinned table says so. */
  lemma EntryIsDispatched(t: Templates, contract: Contract, tag: Bytes, e: Entry)
    ensures EntryOf(t, contract, tag) == Some(e) <==> Dispatches(t, contract, tag, e)
  {
    if t.tags == [] {
      PinnedDispatch(t, contract, tag, e);
    } else {
      ListedDispatch(t, contract, tag, e);
    }
  }

  lemma PinnedDispatch(t: Templates, contract: Contract, tag: Bytes, e: Entry)
    requires t.tags == []
    ensures EntryOf(t, contract, tag) == Some(e) <==> Dispatches(t, contract, tag, e)
  {
    hide EntryForTag, PinnedTag, FindTag, Entry.Contract;
    PinnedEntry(tag, e);
    PinnedContract(e);
  }

  lemma ListedDispatch(t: Templates, contract: Contract, tag: Bytes, e: Entry)
    requires t.tags != []
    ensures EntryOf(t, contract, tag) == Some(e) <==> Dispatches(t, contract, tag, e)
  {
    hide EntryForTag, PinnedTag, FindTag, Entry.Contract;
    if EntryOf(t, contract, tag) == Some(e) {
      var i := FoundLine(t.tags, contract, tag);
    }
    if i :| 0 <= i < |t.tags| && t.tags[i] == (contract, tag, e)
            && forall j :: 0 <= j < i ==> t.tags[j].0 != contract || t.tags[j].1 != tag {
      FirstLine(t.tags, contract, tag, i);
    }
  }

  ghost predicate Signs(t: Templates, contract: Contract, script: Bytes, c: Call) {
    SignatureOf(script).Some? && Dispatches(t, contract, SignatureOf(script).value.tag, c.Entry())
    && c.Reads(SignatureOf(script).value.args)
  }

  /** A tracked input, what it spends and what it calls. */
  datatype Move = Move(input: nat, op: Outpoint, state: Tracked, call: Call)

  /** Every tracked input of the transaction calls an entry of its state's contract. */
  ghost predicate Calling(t: Templates, u: Utxos, tx: Tx, calls: map<nat, Call>) {
    (forall i :: i in calls ==> CallsAt(t, u, tx, i, calls[i]))
    && forall i :: 0 <= i < |tx.inputs| && tx.inputs[i].previous in u ==> i in calls
  }

  ghost predicate CallsAt(t: Templates, u: Utxos, tx: Tx, i: nat, c: Call) {
    i < |tx.inputs| && tx.inputs[i].previous in u && c.Fits(u[tx.inputs[i].previous])
    && Signs(t, u[tx.inputs[i].previous].Contract(), tx.inputs[i].signatureScript, c)
  }

  /** The moves of the first `n` inputs, in order. */
  function MovesUpTo(u: Utxos, tx: Tx, calls: map<nat, Call>, n: nat): (moves: seq<Move>)
    requires n <= |tx.inputs| && forall i :: i in calls ==> i < |tx.inputs| && tx.inputs[i].previous in u
  {
    if n == 0 then []
    else
      MovesUpTo(u, tx, calls, n - 1)
      + if n - 1 in calls then
          [Move(n - 1, tx.inputs[n - 1].previous, u[tx.inputs[n - 1].previous], calls[n - 1])]
        else []
  }

  ghost predicate IsSpend(s: Spend, m: Move) {
    s.input == m.input && s.op == m.op && s.tracked == m.state && s.entry == m.call.Entry()
    && m.call.Reads(s.sig.args) && m.call.Fits(m.state)
  }

  ghost predicate AreSpends(spends: seq<Spend>, moves: seq<Move>) {
    |spends| == |moves| && forall k :: 0 <= k < |spends| ==> IsSpend(spends[k], moves[k])
  }

  lemma SpendOfCall(t: Templates, u: Utxos, tx: Tx, i: nat, c: Call)
    requires CallsAt(t, u, tx, i, c)
    ensures SpendAt(t, u, tx, i).Some?
            && IsSpend(SpendAt(t, u, tx, i).value, Move(i, tx.inputs[i].previous, u[tx.inputs[i].previous], c))
  {
    hide SignatureOf, EntryOf, Dispatches;
    var script, state := tx.inputs[i].signatureScript, u[tx.inputs[i].previous];
    EntryIsDispatched(t, state.Contract(), SignatureOf(script).value.tag, c.Entry());
  }

  lemma {:induction false} SpendsOfCalls(t: Templates, u: Utxos, tx: Tx, calls: map<nat, Call>, n: nat)
    requires Calling(t, u, tx, calls) && n <= |tx.inputs|
    ensures AreSpends(SpendsUpTo(t, u, tx, n), MovesUpTo(u, tx, calls, n))
  {
    hide CallsAt, SpendAt, IsSpend;
    assert forall i :: i in calls ==> i < |tx.inputs| && tx.inputs[i].previous in u by {
      InRange(t, u, tx, calls);
    }
    if n > 0 {
      SpendsOfCalls(t, u, tx, calls, n - 1);
      if n - 1 in calls {
        SpendOfCall(t, u, tx, n - 1, calls[n - 1]);
      } else {
        UntrackedSpendsNothing(t, u, tx, n - 1);
      }
    }
  }

  lemma InRange(t: Templates, u: Utxos, tx: Tx, calls: map<nat, Call>)
    requires Calling(t, u, tx, calls)
    ensures forall i :: i in calls ==> i < |tx.inputs| && tx.inputs[i].previous in u
  {
    hide Signs;
  }

  lemma UntrackedSpendsNothing(t: Templates, u: Utxos, tx: Tx, i: nat)
    requires i < |tx.inputs| && tx.inputs[i].previous !in u
    ensures SpendAt(t, u, tx, i).None?
  {
  }

  // ------------------------------------------------------------------ what the calls ask for --

  predicate TextByte(c: Byte) {
    97 <= c <= 122 || 48 <= c <= 57 || c == 45
  }

  /** Lower-case letters, digits and hyphens, one to 32, no hyphen at either end. */
  predicate ValidText(text: Bytes) {
    1 <= |text| <= 32 && text[0] != 45 && text[|text| - 1] != 45 && forall i :: 0 <= i < |text| ==> TextByte(text[i])
  }

  function Under(t: Templates, input: nat): Option<(nat, Bytes32)> {
    if t.registryId.None? then None else Some((input, t.registryId.value))
  }

  function Split(t: Templates, input: nat, g: GapState, n: NameState): seq<Claim> {
    [Continue(Under(t, input), Gap(GapState(g.lo, n.key))), Continue(Under(t, input), Gap(GapState(n.key, g.hi))),
     Continue(Under(t, input), Name(n))]
  }

  function FirstCall(moves: seq<Move>, e: Entry): (r: Option<Move>)
    ensures r.Some? <==> exists m :: m in moves && m.call.Entry() == e
    ensures r.Some? ==> r.value in moves && r.value.call.Entry() == e
  {
    if moves == [] then None
    else if moves[0].call.Entry() == e then Some(moves[0])
    else
      assert forall m :: m in moves ==> m == moves[0] || m in moves[1..];
      FirstCall(moves[1..], e)
  }

  /** An update rewrites every shard that is spent, each under its own input. */
  function Rewritten(id: Bytes32, moves: seq<Move>, authority: Bytes32, prices: Prices): seq<Claim> {
    if moves == [] then []
    else
      var m := moves[|moves| - 1];
      Rewritten(id, moves[..|moves| - 1], authority, prices)
      + if m.state.Shard? then [Continue(Some((m.input, id)),
                                         Shard(PriceState(m.state.shard.shard, authority, prices)))]
        else []
  }

  function ShardsAsked(t: Templates, moves: seq<Move>, n: nat): seq<Claim>
    requires n <= |moves|
  {
    if n == 0 || t.priceId.None? then []
    else
      ShardsAsked(t, moves, n - 1)
      + match moves[n - 1].call
        case Use => [Continue(Some((moves[n - 1].input, t.priceId.value)), moves[n - 1].state)]
        case Update(authority, prices) =>
          if prices[0] < 0 || prices[1] < 0 || prices[2] < 0 || prices[3] < 0 || prices[4] < 0 then []
          else Rewritten(t.priceId.value, moves, authority, prices)
        case _ => []
  }

  function NameAsked(t: Templates, moves: seq<Move>, m: Move): seq<Claim>
    requires m.call.Fits(m.state)
  {
    var b := Under(t, m.input);
    match m.call
    case TransferTo(owner) =>
      var n := m.state.name;
      [Continue(b, Name(NameState(n.key, n.name, owner, 0, n.periodStart, n.expiresAt)))]
    case BuyTo(owner) =>
      var n := m.state.name;
      [Continue(b, Name(NameState(n.key, n.name, owner, 0, n.periodStart, n.expiresAt)))]
    case ListAt(price) =>
      var n := m.state.name;
      [Continue(b, Name(NameState(n.key, n.name, n.owner, price, n.periodStart, n.expiresAt)))]
    case RenewFor(years) =>
      var n := m.state.name;
      [Continue(b, Name(NameState(n.key, n.name, n.owner, n.price, n.expiresAt,
                                  Wrap64(n.expiresAt + years * t.periodMs))))]
    case ExtendFor(years) =>
      var n := m.state.name;
      [Continue(b, Name(NameState(n.key, n.name, n.owner, n.price, n.periodStart,
                                  Wrap64(n.expiresAt + years * t.periodMs))))]
    case Accept =>
      if exists o :: o in moves && o.call.Entry() == NameTransfer then [] else [TakeOffer(b, m.state.offer)]
    case _ => []
  }

  function NamesAsked(t: Templates, moves: seq<Move>, n: nat): seq<Claim>
    requires n <= |moves| && forall m :: m in moves ==> m.call.Fits(m.state)
  {
    if n == 0 then [] else NamesAsked(t, moves, n - 1) + NameAsked(t, moves, moves[n - 1])
  }

  function Minted(t: Templates, m: Move): seq<Claim>
    requires m.call.Fits(m.state) && (m.call.Register? || m.call.Import?)
  {
    var text := m.call.text;
    if !ValidText(text) then []
    else
      var key := t.host.nameKey(text);
      match m.call
      case Register(_, owner, now, years) =>
        Split(t, m.input, m.state.gap, NameState(key, PadName(text), owner, 0, now, Wrap64(now + years * t.periodMs)))
      case Import(_, owner, start, expires) =>
        Split(t, m.input, m.state.gap, NameState(key, PadName(text), owner, 0, start, expires))
  }

  /** An exit asks for the merged gap, a register or import for its split, and otherwise every name for its
      own continuation. */
  function BodyAsked(t: Templates, moves: seq<Move>): seq<Claim>
    requires forall m :: m in moves ==> m.call.Fits(m.state)
  {
    var lo, hi := FirstCall(moves, GapMerge), FirstCall(moves, GapAbsorbed);
    var register, imported := FirstCall(moves, GapRegister), FirstCall(moves, GapImport);
    if lo.Some? then
      if hi.None? then []
      else
        assert lo.value.call.Fits(lo.value.state) && hi.value.call.Fits(hi.value.state);
        [Continue(Under(t, lo.value.input), Gap(GapState(lo.value.state.gap.lo, hi.value.state.gap.hi)))]
    else if register.Some? then Minted(t, register.value)
    else if imported.Some? then Minted(t, imported.value)
    else NamesAsked(t, moves, |moves|)
  }

  function Asked(t: Templates, moves: seq<Move>): seq<Claim>
    requires forall m :: m in moves ==> m.call.Fits(m.state)
  {
    ShardsAsked(t, moves, |moves|) + BodyAsked(t, moves)
  }

  // ------------------------------------------------------------------ the engine asks for the same --

  lemma SameText(text: Bytes)
    ensures IsValidName(text) <==> ValidText(text)
  {
    assert IsValidName(text) ==> forall i :: 0 <= i < |text| ==> text[i] in text && NameByte(text[i]);
  }

  lemma AllFit(spends: seq<Spend>, moves: seq<Move>)
    requires AreSpends(spends, moves)
    ensures forall m :: m in moves ==> m.call.Fits(m.state)
  {
    forall m | m in moves ensures m.call.Fits(m.state) {
      var k :| 0 <= k < |moves| && moves[k] == m;
      assert IsSpend(spends[k], moves[k]);
    }
  }

  lemma SameHas(spends: seq<Spend>, moves: seq<Move>, e: Entry)
    requires AreSpends(spends, moves)
    ensures Has(spends, e) <==> exists m :: m in moves && m.call.Entry() == e
  {
    if Has(spends, e) {
      var s :| s in spends && s.entry == e;
      var k :| 0 <= k < |spends| && spends[k] == s;
      assert IsSpend(spends[k], moves[k]) && moves[k] in moves;
    }
    if m :| m in moves && m.call.Entry() == e {
      var k :| 0 <= k < |moves| && moves[k] == m;
      assert IsSpend(spends[k], moves[k]) && spends[k] in spends;
    }
  }

  lemma RestAreSpends(spends: seq<Spend>, moves: seq<Move>)
    requires AreSpends(spends, moves) && spends != []
    ensures AreSpends(spends[1..], moves[1..]) && IsSpend(spends[0], moves[0])
    ensures AreSpends(spends[..|spends| - 1], moves[..|moves| - 1]) && IsSpend(spends[|spends| - 1], moves[|moves| - 1])
  {
    hide IsSpend;
  }

  lemma {:induction false} SameFirst(spends: seq<Spend>, moves: seq<Move>, e: Entry)
    requires AreSpends(spends, moves)
    ensures var s, m := FirstWith(spends, e), FirstCall(moves, e);
            (s.Some? <==> m.Some?) && (s.Some? ==> IsSpend(s.value, m.value))
  {
    hide AreSpends, IsSpend;
    Lengths(spends, moves);
    if spends != [] {
      RestAreSpends(spends, moves);
      EntryOfSpend(spends[0], moves[0]);
      SameFirst(spends[1..], moves[1..], e);
    }
  }

  lemma Lengths(spends: seq<Spend>, moves: seq<Move>)
    requires AreSpends(spends, moves)
    ensures |spends| == |moves|
  {
  }

  lemma EntryOfSpend(s: Spend, m: Move)
    requires IsSpend(s, m)
    ensures s.entry == m.call.Entry() && s.input == m.input && s.tracked == m.state && m.call.Fits(m.state)
    ensures m.call.Entry() in [GapRegister, GapImport, GapMerge, GapAbsorbed] ==> s.tracked.Gap?
  {
  }

  /** The first gap under an entry of the gap contract is the first spend under it. */
  lemma {:induction false} SameFirstGap(spends: seq<Spend>, moves: seq<Move>, e: Entry)
    requires AreSpends(spends, moves) && (e == GapMerge || e == GapAbsorbed)
    ensures FirstGapWith(spends, e) == FirstWith(spends, e)
  {
    hide AreSpends, IsSpend;
    Lengths(spends, moves);
    if spends != [] {
      RestAreSpends(spends, moves);
      EntryOfSpend(spends[0], moves[0]);
      SameFirstGap(spends[1..], moves[1..], e);
    }
  }

  lemma {:induction false} SameRewritten(id: Bytes32, spends: seq<Spend>, moves: seq<Move>, authority: Bytes32,
                                         prices: Prices)
    requires AreSpends(spends, moves)
    ensures UpdateClaims(id, ShardInputs(spends), authority, prices) == Rewritten(id, moves, authority, prices)
  {
    hide AreSpends, IsSpend;
    Lengths(spends, moves);
    if spends != [] {
      var init, last := spends[..|spends| - 1], spends[|spends| - 1];
      RestAreSpends(spends, moves);
      EntryOfSpend(last, moves[|moves| - 1]);
      SameRewritten(id, init, moves[..|moves| - 1], authority, prices);
      var shards := ShardInputs(spends);
      if last.tracked.Shard? {
        assert shards[..|shards| - 1] == ShardInputs(init) && shards[|shards| - 1] == (last.input, last.tracked.shard);
      } else {
        assert shards == ShardInputs(init);
      }
    }
  }

  lemma SamePriceArgs(s: Spend, m: Move)
    requires IsSpend(s, m) && m.call.Update?
    ensures var p := m.call.prices;
            PriceArgs(s.sig)
            == if p[0] < 0 || p[1] < 0 || p[2] < 0 || p[3] < 0 || p[4] < 0 then None else Some((m.call.authority, p))
  {
    var p, args := m.call.prices, s.sig.args;
    assert ArgKey(s.sig, 0) == Some(m.call.authority);
    assert ArgInt(s.sig, 1) == Some(p[0]) && ArgInt(s.sig, 2) == Some(p[1]) && ArgInt(s.sig, 3) == Some(p[2]);
    assert ArgInt(s.sig, 4) == Some(p[3]) && ArgInt(s.sig, 5) == Some(p[4]);
    var q: Prices := [p[0], p[1], p[2], p[3], p[4]];
    assert q == p;
    assert forall i :: 0 <= i < 5 ==> q[i] in q;
    if p[0] < 0 || p[1] < 0 || p[2] < 0 || p[3] < 0 || p[4] < 0 {
      assert exists x :: x in q && x < 0;
    } else {
      assert !exists x :: x in q && x < 0;
    }
  }

  lemma SameShard(t: Templates, spends: seq<Spend>, moves: seq<Move>, k: nat)
    requires t.priceId.Some? && AreSpends(spends, moves) && k < |spends|
    ensures ShardsAsked(t, moves, k + 1) == ShardsAsked(t, moves, k) + PriceClaim(t.priceId.value, spends, spends[k])
  {
    hide PriceArgs, UpdateClaims, Rewritten, ShardInputs;
    var s, m := spends[k], moves[k];
    assert IsSpend(s, m);
    if m.call.Update? {
      SamePriceArgs(s, m);
      SameRewritten(t.priceId.value, spends, moves, m.call.authority, m.call.prices);
    }
  }

  lemma {:induction false} SameShards(t: Templates, spends: seq<Spend>, moves: seq<Move>, n: nat)
    requires AreSpends(spends, moves) && n <= |spends|
    ensures PriceClaims(t, spends, n) == ShardsAsked(t, moves, n)
  {
    hide AreSpends, PriceClaim;
    Lengths(spends, moves);
    if n > 0 && t.priceId.Some? {
      SameShards(t, spends, moves, n - 1);
      SameShard(t, spends, moves, n - 1);
    }
  }

  lemma SameName(t: Templates, spends: seq<Spend>, moves: seq<Move>, s: Spend, m: Move)
    requires AreSpends(spends, moves) && IsSpend(s, m)
    ensures NameClaim(t, spends, s) == NameAsked(t, moves, m)
  {
    hide AreSpends, Has;
    SameHas(spends, moves, NameTransfer);
  }

  lemma {:induction false} SameNames(t: Templates, spends: seq<Spend>, moves: seq<Move>, n: nat)
    requires AreSpends(spends, moves) && n <= |spends| && forall m :: m in moves ==> m.call.Fits(m.state)
    ensures NameClaims(t, spends, n) == NamesAsked(t, moves, n)
  {
    hide NameClaim, NameAsked, IsSpend;
    if n > 0 {
      SameNames(t, spends, moves, n - 1);
      SameName(t, spends, moves, spends[n - 1], moves[n - 1]);
    }
  }

  lemma SameMint(t: Templates, spends: seq<Spend>, moves: seq<Move>, e: Entry, m: Move)
    requires AreSpends(spends, moves) && (e == GapRegister || e == GapImport) && FirstCall(moves, e) == Some(m)
    requires m.call.Fits(m.state)
    ensures (m.call.Register? || m.call.Import?) && MintClaims(t, spends, e) == Minted(t, m)
  {
    hide AreSpends, IsValidName, ValidText, FirstWith, FirstCall;
    SameFirst(spends, moves, e);
    SameText(m.call.text);
  }

  lemma SameBody(t: Templates, spends: seq<Spend>, moves: seq<Move>)
    requires AreSpends(spends, moves) && forall m :: m in moves ==> m.call.Fits(m.state)
    ensures BodyClaims(t, spends) == BodyAsked(t, moves)
  {
    hide AreSpends, MintClaims, Minted, NameClaims, NamesAsked, FirstWith, FirstCall, FirstGapWith, Has;
    Lengths(spends, moves);
    SameHas(spends, moves, GapMerge);
    SameHas(spends, moves, GapRegister);
    SameHas(spends, moves, GapImport);
    SameFirst(spends, moves, GapMerge);
    SameFirst(spends, moves, GapAbsorbed);
    SameFirstGap(spends, moves, GapMerge);
    SameFirstGap(spends, moves, GapAbsorbed);
    if FirstCall(moves, GapRegister).Some? {
      SameMint(t, spends, moves, GapRegister, FirstCall(moves, GapRegister).value);
    }
    if FirstCall(moves, GapImport).Some? {
      SameMint(t, spends, moves, GapImport, FirstCall(moves, GapImport).value);
    }
    SameNames(t, spends, moves, |spends|);
  }

  /** The engine asks for exactly what the calls say. */
  lemma ClaimsOfCalls(t: Templates, u: Utxos, tx: Tx, calls: map<nat, Call>) returns (moves: seq<Move>)
    requires Calling(t, u, tx, calls)
    ensures forall i :: i in calls ==> i < |tx.inputs| && tx.inputs[i].previous in u
    ensures moves == MovesUpTo(u, tx, calls, |tx.inputs|) && forall m :: m in moves ==> m.call.Fits(m.state)
    ensures Claims(t, Spends(t, u, tx)) == Asked(t, moves)
  {
    hide Calling, AreSpends, PriceClaims, ShardsAsked, BodyClaims, BodyAsked, SpendsUpTo, MovesUpTo;
    InRange(t, u, tx, calls);
    var spends := Spends(t, u, tx);
    moves := MovesUpTo(u, tx, calls, |tx.inputs|);
    SpendsOfCalls(t, u, tx, calls, |tx.inputs|);
    Lengths(spends, moves);
    AllFit(spends, moves);
    SameShards(t, spends, moves, |spends|);
    SameBody(t, spends, moves);
  }
}
