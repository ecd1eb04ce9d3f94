/** A register from the bytes a wallet prints to the gap's split, and that the contracts allow it. */
module Registering {
  import opened Base
  import opened Codec
  import opened Script
  import opened Pushes
  import opened States
  import opened Transition
  import opened Ingest
  import opened Claiming
  import opened Tiling
  import opened Calls
  import opened Effects

  /** A number argument as it is pushed: a number op when one exists, else a script number. */
  function NumberArg(v: Int64): Push {
    if -1 <= v <= 16 then Num(v) else Data(ScriptNumberBytes(v))
  }

  lemma NumberArgReads(v: Int64)
    ensures Printable(NumberArg(v)) && NumberArg(v).Int() == v
  {
    hide ScriptNumber;
    if !(-1 <= v <= 16) {
      ScriptNumberRoundTrip(v);
      NumberArgLength(v);
    }
  }

  lemma NumberArgLength(v: Int64)
    requires v != 0
    ensures 0 < |ScriptNumberBytes(v)| <= 9
  {
    hide MinimalBytes;
    MinimalLength(Abs(v));
  }

  /** The arguments of a call as they are pushed; `salt` is a register's third, which only its commit reads. */
  function Args(c: Call, salt: Bytes): seq<Push> {
    match c
    case Register(text, holder, now, years) => [Data(text), Data(holder), Data(salt), NumberArg(now), NumberArg(years)]
    case Import(text, holder, start, expires) => [Data(text), Data(holder), NumberArg(start), NumberArg(expires)]
    case TransferTo(owner) => [Data(owner)]
    case BuyTo(owner) => [Data(owner)]
    case ListAt(price) => [NumberArg(price)]
    case RenewFor(years) => [NumberArg(years)]
    case ExtendFor(years) => [NumberArg(years)]
    case Update(authority, prices) =>
      [Data(authority), NumberArg(prices[0]), NumberArg(prices[1]), NumberArg(prices[2]), NumberArg(prices[3]),
       NumberArg(prices[4])]
    case _ => []
  }

  lemma ArgsRead(c: Call, salt: Bytes, more: seq<Push>)
    ensures c.Reads(Args(c, salt) + more)
  {
    hide NumberArg, ScriptNumber;
    forall v: Int64 ensures NumberArg(v).Int() == v {
      NumberArgReads(v);
    }
  }

  /** A minimally printed signature script signs the call, whatever arguments the contract has besides. */
  lemma PrintedSigns(t: Templates, contract: Contract, c: Call, salt: Bytes, more: seq<Push>, tag: Bytes, redeem: Bytes)
    requires |tag| == 4 && 0 < |redeem| < 0x1_0000_0000 && Dispatches(t, contract, tag, c.Entry())
    requires forall p :: p in Args(c, salt) + more ==> Printable(p)
    ensures Signs(t, contract, PrintAll(Args(c, salt) + more) + Print(Data(tag)) + Print(Data(redeem)), c)
  {
    hide Print, PrintAll, SignatureOf, Dispatches, Args, Call.Reads;
    SignatureRoundTrip(Args(c, salt) + more, tag, redeem);
    ArgsRead(c, salt, more);
  }

  /** The gap at input `i` is registered; besides, only price shards are used. */
  ghost predicate Registers(t: Templates, u: Utxos, tx: Tx, calls: map<nat, Call>, i: nat) {
    Served(t, u, tx, calls) && i in calls && calls[i].Register? && ValidText(calls[i].text)
    && forall j :: j in calls && j != i ==> calls[j].Use?
  }

  /** A register is tracked exactly: the gap's two halves, the name and each shard used, every one at an
      output of its own that carries it, in place of the gap and those shards. Nothing else changes
      but an offer the payload may announce. */
  lemma RegisterTracked(t: Templates, u: Utxos, tx: Tx, calls: map<nat, Call>, i: nat)
    returns (asked: seq<Claim>, placed: seq<nat>)
    requires Registers(t, u, tx, calls, i)
    ensures u[tx.inputs[i].previous].Gap?
    ensures var g, c, moves := u[tx.inputs[i].previous].gap, calls[i], MovesUpTo(u, tx, calls, |tx.inputs|);
            var key := t.host.nameKey(c.text);
            var name := NameState(key, PadName(c.text), c.holder, 0, c.now, Wrap64(c.now + c.years * t.periodMs));
            asked == ShardsAsked(t, moves, |moves|)
                     + [Continue(Under(t, i), Gap(GapState(g.lo, key))),
                        Continue(Under(t, i), Gap(GapState(key, g.hi))),
                        Continue(Under(t, i), Name(name))]
    ensures Provided(t, tx, asked, placed) && Left(t, u, tx, asked, placed, ApplyUtxos(t, u, tx))
  {
    hide Signs, Provided, Left, ShardsAsked, NamesAsked, FirstCall, MovesUpTo, ApplyUtxos, PadName, Wrap64, ValidText;
    asked, placed := CallsTracked(t, u, tx, calls);
    FirstAt(u, tx, calls, i);
    NoneCalls(u, tx, calls, GapMerge);
  }

  /** A register whose key is strictly inside the gap is what the tiling takes the contracts to allow. */
  lemma RegisterIsValid(t: Templates, u: Utxos, tx: Tx, calls: map<nat, Call>, i: nat)
    requires Registers(t, u, tx, calls, i) && u[tx.inputs[i].previous].Gap?
    requires forall j, k :: 0 <= j < k < |tx.inputs| ==> tx.inputs[j].previous != tx.inputs[k].previous
    requires var g, key := u[tx.inputs[i].previous].gap, t.host.nameKey(calls[i].text);
             Less(g.lo, key) && Less(key, g.hi)
    ensures ContractValid(t, u, tx)
  {
    hide Signs, Provided, MovesUpTo, SpendsUpTo, Claims, Asked, Calling, Merges, Continues, MintedName, Owed, Less,
        ValidText;
    var moves := ClaimsOfCalls(t, u, tx, calls);
    var slots :| Provided(t, tx, Asked(t, moves), slots);
    ProvidedIsOwed(t, tx, Asked(t, moves), slots);
    var s := RegisterSplits(t, u, tx, calls, i);
    SpentOnce(t, u, tx);
  }

  lemma RegisterSplits(t: Templates, u: Utxos, tx: Tx, calls: map<nat, Call>, i: nat) returns (s: Spend)
    requires Registers(t, u, tx, calls, i) && u[tx.inputs[i].previous].Gap?
    requires var g, key := u[tx.inputs[i].previous].gap, t.host.nameKey(calls[i].text);
             Less(g.lo, key) && Less(key, g.hi)
    ensures Splits(t, Spends(t, u, tx), s)
    ensures forall o :: o in Spends(t, u, tx) ==> o == s || (o.tracked.Shard? && o.entry == PriceUse)
  {
    hide Signs, Provided, MovesUpTo, SpendsUpTo, Asked, IsSpend, MintedName, Less, ValidText;
    var spends, moves := Spends(t, u, tx), MovesUpTo(u, tx, calls, |tx.inputs|);
    SpendsOfCalls(t, u, tx, calls, |tx.inputs|);
    var k := RegisterMove(u, tx, calls, i);
    s := spends[k];
    MintedByRegister(t, s, moves[k]);
    OthersUse(spends, moves, k);
  }

  lemma RegisterMove(u: Utxos, tx: Tx, calls: map<nat, Call>, i: nat) returns (k: nat)
    requires forall j :: j in calls ==> j < |tx.inputs| && tx.inputs[j].previous in u
    requires i in calls && forall j :: j in calls && j != i ==> calls[j].Use?
    ensures var moves := MovesUpTo(u, tx, calls, |tx.inputs|);
            k < |moves| && moves[k] == Move(i, tx.inputs[i].previous, u[tx.inputs[i].previous], calls[i])
            && forall j :: 0 <= j < |moves| && j != k ==> moves[j].call.Use?
  {
    hide MovesUpTo;
    var moves := MovesUpTo(u, tx, calls, |tx.inputs|);
    CallsOfMoves(u, tx, calls, |tx.inputs|);
    MovesAscend(u, tx, calls, |tx.inputs|);
    MoveOf(u, tx, calls, i, |tx.inputs|);
    k :| 0 <= k < |moves| && moves[k] == Move(i, tx.inputs[i].previous, u[tx.inputs[i].previous], calls[i]);
    forall j | 0 <= j < |moves| && j != k ensures moves[j].call.Use? {
      assert moves[j] in moves;
    }
  }

  lemma OthersUse(spends: seq<Spend>, moves: seq<Move>, k: nat)
    requires AreSpends(spends, moves) && k < |moves| && forall j :: 0 <= j < |moves| && j != k ==> moves[j].call.Use?
    ensures forall o :: o in spends ==> o == spends[k] || (o.tracked.Shard? && o.entry == PriceUse)
  {
    hide IsSpend;
    forall o | o in spends ensures o == spends[k] || (o.tracked.Shard? && o.entry == PriceUse) {
      var j :| 0 <= j < |spends| && spends[j] == o;
      SpendOfUse(o, moves[j]);
    }
  }

  lemma SpendOfUse(s: Spend, m: Move)
    requires IsSpend(s, m)
    ensures m.call.Use? ==> s.tracked.Shard? && s.entry == PriceUse
  {
  }

  lemma MintedByRegister(t: Templates, s: Spend, m: Move)
    requires IsSpend(s, m) && m.call.Register? && ValidText(m.call.text)
    ensures s.tracked == m.state && s.tracked.Gap? && s.entry == GapRegister
    ensures MintedName(t, s).Some? && MintedName(t, s).value.key == t.host.nameKey(m.call.text)
  {
    hide IsValidName, ValidText, PadName, Wrap64;
    SameText(m.call.text);
  }

  lemma SpentOnce(t: Templates, u: Utxos, tx: Tx)
    requires forall i, j :: 0 <= i < j < |tx.inputs| ==> tx.inputs[i].previous != tx.inputs[j].previous
    ensures forall a, b :: a in Spends(t, u, tx) && b in Spends(t, u, tx) && a.op == b.op ==> a == b
  {
    SpendsIncrease(t, u, tx, |tx.inputs|);
  }
}
