/** What a transaction that calls entries leaves tracked, for every entry: states written out field by
    field, at outputs that carry them byte by byte. */
module Effects {
  import opened Base
  import opened States
  import opened Transition
  import opened Ingest
  import opened Undo
  import opened Claiming
  import opened Calls

  // ------------------------------------------------------------------ outputs that carry it --

  /** The script that pays to a state: the hash of its contract's code with the state's bytes inside. */
  function PaysTo(t: Templates, s: Tracked): Bytes {
    match s
    case Gap(g) => [0xaa, 0x20] + t.host.blake2b(t.gap.prefix + GapEncode(g) + t.gap.suffix) + [0x87]
    case Name(n) => [0xaa, 0x20] + t.host.blake2b(t.name.prefix + NameEncode(n) + t.name.suffix) + [0x87]
    case Offer(o) => [0xaa, 0x20] + t.host.blake2b(t.offer.prefix + OfferEncode(o) + t.offer.suffix) + [0x87]
    case Shard(p) =>
      if t.price.None? then []
      else [0xaa, 0x20] + t.host.blake2b(t.price.value.prefix + PriceEncode(p) + t.price.value.suffix) + [0x87]
  }

  /** Output `i` carries the state, under the covenant and authorized by the input asked for whenever the
      transaction's covenants are known. */
  predicate Carries(t: Templates, tx: Tx, b: Option<(nat, Bytes32)>, s: Tracked, i: nat) {
    i < |tx.outputs| && tx.outputs[i].script == PaysTo(t, s)
    && (b.Some? && (exists o :: o in tx.outputs && o.covenant.Some?) ==>
          tx.outputs[i].covenant == Some(CovenantBinding(b.value.0 % 0x1_0000, b.value.1)))
  }

  lemma CarriesIsMatch(t: Templates, tx: Tx, b: Option<(nat, Bytes32)>, s: Tracked, i: nat)
    ensures Carries(t, tx, b, s, i) <==> i < |tx.outputs| && Matches(tx, ScriptOf(t, s), b, i)
  {
    assert (exists o :: o in tx.outputs && o.covenant.Some?) <==> BindingsKnown(tx);
  }

  /** Every state asked for has an output of its own that carries it. */
  ghost predicate Provided(t: Templates, tx: Tx, asked: seq<Claim>, slots: seq<nat>) {
    |slots| == |asked| && (forall j, k :: 0 <= j < k < |slots| ==> slots[j] != slots[k])
    && forall k :: 0 <= k < |slots| ==>
         asked[k].Continue? && Carries(t, tx, asked[k].binding, asked[k].state, slots[k])
  }

  lemma ProvidedIsOwed(t: Templates, tx: Tx, asked: seq<Claim>, slots: seq<nat>)
    ensures Provided(t, tx, asked, slots) <==> Owed(t, tx, asked, slots)
  {
    hide Carries, Matches, ScriptOf;
    forall k | 0 <= k < |slots| && |slots| == |asked| && asked[k].Continue?
      ensures Carries(t, tx, asked[k].binding, asked[k].state, slots[k])
              <==> slots[k] < |tx.outputs| && Matches(tx, ScriptOf(t, asked[k].state), asked[k].binding, slots[k])
    {
      CarriesIsMatch(t, tx, asked[k].binding, asked[k].state, slots[k]);
    }
  }

  /** The payload announces this offer, and output `i` is the first that pays to it under no covenant. */
  predicate Announces(t: Templates, tx: Tx, i: nat, o: OfferState) {
    t.host.offerMarker(t.offer.stateLen, tx.payload) == Some(o) && o.refundAfter >= 0 && t.host.usableKey(o.buyer)
    && (o.seller.Some? ==> t.host.usableKey(o.seller.value))
    && i < |tx.outputs| && tx.outputs[i].script == PaysTo(t, Offer(o)) && tx.outputs[i].covenant == None
    && forall j :: 0 <= j < i ==> tx.outputs[j].script != PaysTo(t, Offer(o)) || tx.outputs[j].covenant.Some?
  }

  lemma {:induction false} FirstToOffer(tx: Tx, script: Bytes, from: nat)
    requires from <= |tx.outputs|
    ensures var i := OfferOutput(tx, script, from);
            (i.Some? ==> forall j :: from <= j < i.value ==>
             tx.outputs[j].script != script || tx.outputs[j].covenant.Some?)
            && (i.None? ==>
                  forall j :: from <= j < |tx.outputs| ==>
                      tx.outputs[j].script != script || tx.outputs[j].covenant.Some?)
    decreases |tx.outputs| - from
  {
    if from < |tx.outputs| && !(tx.outputs[from].script == script && tx.outputs[from].covenant.None?) {
      FirstToOffer(tx, script, from + 1);
    }
  }

  /** Exactly the offers a payload announces, with usable keys and an output that carries them, are new. */
  lemma OffersAreAnnounced(t: Templates, tx: Tx, i: nat, o: OfferState)
    ensures NewOffer(t, tx) == Some((i, o)) <==> Announces(t, tx, i, o)
  {
    FirstToOffer(tx, ScriptOf(t, Offer(o)), 0);
  }

  // ------------------------------------------------------------------ what the transaction leaves --

  ghost predicate IsInput(tx: Tx, op: Outpoint) {
    exists i :: 0 <= i < |tx.inputs| && tx.inputs[i].previous == op
  }

  /** What was tracked and is not spent is as it was, every state asked for is tracked at the output that
      carries it, an announced offer is tracked, and nothing else is new. */
  ghost predicate Left(t: Templates, u: Utxos, tx: Tx, asked: seq<Claim>, placed: seq<nat>, after: Utxos)
    requires |placed| == |asked| && forall k :: 0 <= k < |placed| ==> placed[k] < 0x1_0000_0000 && asked[k].Continue?
  {
    (forall op :: op in u && !IsInput(tx, op) ==> op in after && after[op] == u[op])
    && (forall op :: op in u && IsInput(tx, op) ==> op !in after)
    && (forall k :: 0 <= k < |placed| ==>
          Outpoint(tx.id, placed[k]) in after && after[Outpoint(tx.id, placed[k])] == asked[k].state)
    && (forall op :: op in after && op !in u ==>
          op.tx == tx.id && (op.index in placed || (after[op].Offer? && Announces(t, tx, op.index, after[op].offer))))
    && (forall i: nat, o :: Announces(t, tx, i, o) && i !in placed && i < 0x1_0000_0000 ==>
          Outpoint(tx.id, i) in after && after[Outpoint(tx.id, i)] == Offer(o))
  }

  lemma SpentAreInputs(t: Templates, u: Utxos, tx: Tx, calls: map<nat, Call>)
    requires Calling(t, u, tx, calls)
    ensures forall op :: op in SpentOutpoints(Spends(t, u, tx)) <==> op in u && IsInput(tx, op)
  {
    hide CallsAt, SpendAt, IsSpend;
    InRange(t, u, tx, calls);
    var spends, moves := Spends(t, u, tx), MovesUpTo(u, tx, calls, |tx.inputs|);
    SpendsOfCalls(t, u, tx, calls, |tx.inputs|);
    forall s | s in spends ensures s.op in u && IsInput(tx, s.op) {
      assert tx.inputs[s.input].previous == s.op;
    }
    forall i | 0 <= i < |tx.inputs| && tx.inputs[i].previous in u
        ensures tx.inputs[i].previous in SpentOutpoints(spends) {
      MoveOf(u, tx, calls, i, |tx.inputs|);
      var k :| 0 <= k < |moves| && moves[k].op == tx.inputs[i].previous;
      SpendOp(spends[k], moves[k]);
      assert spends[k] in spends;
    }
  }

  lemma SpendOp(s: Spend, m: Move)
    requires IsSpend(s, m)
    ensures s.op == m.op
  {
  }

  lemma {:induction false} MoveOf(u: Utxos, tx: Tx, calls: map<nat, Call>, i: nat, n: nat)
    requires i < n <= |tx.inputs| && forall j :: j in calls ==> j < |tx.inputs| && tx.inputs[j].previous in u
    requires i in calls
    ensures exists k :: 0 <= k < |MovesUpTo(u, tx, calls, n)|
                        && MovesUpTo(u, tx, calls, n)[k]
                           == Move(i, tx.inputs[i].previous, u[tx.inputs[i].previous], calls[i])
  {
    var moves := MovesUpTo(u, tx, calls, n);
    if i == n - 1 {
      assert moves[|moves| - 1] == Move(i, tx.inputs[i].previous, u[tx.inputs[i].previous], calls[i]);
    } else {
      MoveOf(u, tx, calls, i, n - 1);
      var k :| 0 <= k < |MovesUpTo(u, tx, calls, n - 1)|
               && MovesUpTo(u, tx, calls, n - 1)[k]
                  == Move(i, tx.inputs[i].previous, u[tx.inputs[i].previous], calls[i]);
      assert moves[k] == MovesUpTo(u, tx, calls, n - 1)[k];
    }
  }

  lemma {:induction false} AskedOfShards(t: Templates, moves: seq<Move>, n: nat)
    requires n <= |moves|
    ensures forall c :: c in ShardsAsked(t, moves, n) ==> c.Continue? && c.binding.Some?
    ensures ShardsAsked(t, moves, n) != [] ==> t.priceId.Some?
  {
    if n > 0 && t.priceId.Some? {
      AskedOfShards(t, moves, n - 1);
      RewrittenBound(t.priceId.value, moves, if moves[n - 1].call.Update? then moves[n - 1].call.authority
                     else seq(32, i => 0),
                     if moves[n - 1].call.Update? then moves[n - 1].call.prices else [0, 0, 0, 0, 0]);
    }
  }

  lemma {:induction false} RewrittenBound(id: Bytes32, moves: seq<Move>, authority: Bytes32, prices: Prices)
    ensures forall c :: c in Rewritten(id, moves, authority, prices) ==> c.Continue? && c.binding.Some?
  {
    if moves != [] {
      RewrittenBound(id, moves[..|moves| - 1], authority, prices);
    }
  }

  lemma {:induction false} AskedOfNames(t: Templates, moves: seq<Move>, n: nat)
    requires n <= |moves| && forall m :: m in moves ==> m.call.Fits(m.state)
    ensures forall c :: c in NamesAsked(t, moves, n) ==> (c.binding.Some? <==> t.registryId.Some?)
  {
    if n > 0 {
      AskedOfNames(t, moves, n - 1);
    }
  }

  lemma AskedUniform(t: Templates, moves: seq<Move>)
    requires t.priceId.Some? ==> t.registryId.Some?
    requires forall m :: m in moves ==> m.call.Fits(m.state)
    ensures Uniform(Asked(t, moves))
  {
    hide ShardsAsked, NamesAsked, FirstCall, ValidText;
    AskedOfShards(t, moves, |moves|);
    AskedOfNames(t, moves, |moves|);
    var shards, body: seq<Claim> := ShardsAsked(t, moves, |moves|), BodyAsked(t, moves);
    assert forall c :: c in body ==> (c.binding.Some? <==> t.registryId.Some?);
    var all: seq<Claim> := shards + body;
    forall k | 0 <= k < |all| ensures all[k].binding.Some? <==> t.registryId.Some? {
      assert all[k] in shards || all[k] in body;
    }
  }

  /** Every tracked input calls an entry, and every state the calls ask for has an output of its own. */
  ghost predicate Served(t: Templates, u: Utxos, tx: Tx, calls: map<nat, Call>) {
    (t.priceId.Some? ==> t.registryId.Some?) && Fresh(u, tx.id) && Calling(t, u, tx, calls)
    && (forall i :: i in calls ==> i < |tx.inputs| && tx.inputs[i].previous in u)
    && (forall m :: m in MovesUpTo(u, tx, calls, |tx.inputs|) ==> m.call.Fits(m.state))
    && exists slots :: Provided(t, tx, Asked(t, MovesUpTo(u, tx, calls, |tx.inputs|)), slots)
  }

  /** The effect of any such transaction. */
  lemma CallsTracked(t: Templates, u: Utxos, tx: Tx, calls: map<nat, Call>)
      returns (asked: seq<Claim>, placed: seq<nat>)
    requires Served(t, u, tx, calls)
    ensures asked == Asked(t, MovesUpTo(u, tx, calls, |tx.inputs|)) && Provided(t, tx, asked, placed)
    ensures Left(t, u, tx, asked, placed, ApplyUtxos(t, u, tx))
  {
    hide Calling, Asked, RunClaims, Claims, SpendsUpTo, Uniform, Owed, Provided, Left, WithOffer, MovesUpTo,
        SpentOutpoints;
    var moves := ClaimsOfCalls(t, u, tx, calls);
    asked := Asked(t, moves);
    AskedUniform(t, moves);
    var slots :| Provided(t, tx, asked, slots);
    ProvidedIsOwed(t, tx, asked, slots);
    var start := Work([], WithOffer(t, u, tx));
    placed := GreedyClaims(t, tx, asked, slots, start);
    ProvidedIsOwed(t, tx, asked, placed);
    SpentAreInputs(t, u, tx, calls);
    PlacedLeaves(t, u, tx, asked, placed, RunClaims(t, tx, asked, start).utxos, SpentOutpoints(Spends(t, u, tx)));
  }

  lemma PlacedLeaves(t: Templates, u: Utxos, tx: Tx, asked: seq<Claim>, placed: seq<nat>, made: Utxos,
                     spent: set<Outpoint>)
    requires Fresh(u, tx.id) && Owed(t, tx, asked, placed) && Placed(tx.id, asked, placed, WithOffer(t, u, tx), made)
    requires forall op :: op in spent <==> op in u && IsInput(tx, op)
    ensures Left(t, u, tx, asked, placed, made - spent)
  {
    hide Matches, ScriptOf, NewOffer, IsInput, Announces;
    var after := made - spent;
    if NewOffer(t, tx).Some? {
      OffersAreAnnounced(t, tx, NewOffer(t, tx).value.0, NewOffer(t, tx).value.1);
    }
    forall i: nat, o | Announces(t, tx, i, o) && i !in placed && i < 0x1_0000_0000
      ensures Outpoint(tx.id, i) in after && after[Outpoint(tx.id, i)] == Offer(o)
    {
      OffersAreAnnounced(t, tx, i, o);
    }
    forall op | op in after && op !in u
      ensures op.tx == tx.id && (op.index in placed
                                 || (after[op].Offer? && Announces(t, tx, op.index, after[op].offer)))
    {
    }
  }

  // ------------------------------------------------------------------ a name's next owner, price and dates --

  /** The transaction leaves this state tracked at an output that carries it under the binding. */
  ghost predicate Moves(t: Templates, tx: Tx, b: Option<(nat, Bytes32)>, s: Tracked, after: Utxos) {
    exists j: nat :: j < 0x1_0000_0000 && Carries(t, tx, b, s, j)
                     && Outpoint(tx.id, j) in after && after[Outpoint(tx.id, j)] == s
  }

  lemma AskedMoves(t: Templates, u: Utxos, tx: Tx, asked: seq<Claim>, placed: seq<nat>,
                   b: Option<(nat, Bytes32)>, s: Tracked, after: Utxos)
    requires Provided(t, tx, asked, placed) && Left(t, u, tx, asked, placed, after) && Continue(b, s) in asked
    ensures Moves(t, tx, b, s, after)
  {
    hide Carries, Announces, IsInput;
    var k :| 0 <= k < |asked| && asked[k] == Continue(b, s);
    assert Carries(t, tx, asked[k].binding, asked[k].state, placed[k]);
    CarriedInRange(t, tx, asked[k].binding, s, placed[k]);
  }

  lemma CarriedInRange(t: Templates, tx: Tx, b: Option<(nat, Bytes32)>, s: Tracked, i: nat)
    requires Carries(t, tx, b, s, i)
    ensures i < |tx.outputs| < 0x1_0000_0000
  {
  }

  lemma {:induction false} NameAskedIn(t: Templates, moves: seq<Move>, k: nat, n: nat)
    requires k < n <= |moves| && forall m :: m in moves ==> m.call.Fits(m.state)
    ensures forall c :: c in NameAsked(t, moves, moves[k]) ==> c in NamesAsked(t, moves, n)
  {
    hide NameAsked;
    if k < n - 1 {
      NameAskedIn(t, moves, k, n - 1);
    }
  }

  /** No call of the transaction mints a name or ends one. */
  predicate OnlyContinues(calls: map<nat, Call>) {
    forall i :: i in calls ==> !calls[i].Merge? && !calls[i].Register? && !calls[i].Import?
  }

  lemma NoGapCalls(u: Utxos, tx: Tx, calls: map<nat, Call>, n: nat, e: Entry)
    requires n <= |tx.inputs| && forall i :: i in calls ==> i < |tx.inputs| && tx.inputs[i].previous in u
    requires OnlyContinues(calls) && (e == GapMerge || e == GapRegister || e == GapImport)
    ensures FirstCall(MovesUpTo(u, tx, calls, n), e).None?
  {
    hide FirstCall, MovesUpTo;
    CallsOfMoves(u, tx, calls, n);
  }

  lemma {:induction false} CallsOfMoves(u: Utxos, tx: Tx, calls: map<nat, Call>, n: nat)
    requires n <= |tx.inputs| && forall i :: i in calls ==> i < |tx.inputs| && tx.inputs[i].previous in u
    ensures forall m :: m in MovesUpTo(u, tx, calls, n) ==>
              m.input in calls && m.call == calls[m.input] && m.op == tx.inputs[m.input].previous && m.state == u[m.op]
  {
    if n > 0 {
      CallsOfMoves(u, tx, calls, n - 1);
    }
  }

  /** A name that is moved is tracked again with exactly what the call says changed: a transfer or sale
      changes the owner and ends any listing, a listing changes the price, a renewal starts a new period at
      the old expiry, an extension moves the expiry, and nothing else of the name changes. */
  lemma NameContinues(t: Templates, u: Utxos, tx: Tx, calls: map<nat, Call>, i: nat)
    requires Served(t, u, tx, calls) && OnlyContinues(calls) && i in calls && u[tx.inputs[i].previous].Name?
    ensures var n, c, after := u[tx.inputs[i].previous].name, calls[i], ApplyUtxos(t, u, tx);
            tx.inputs[i].previous !in after
            && (c.TransferTo? ==>
                  Moves(t, tx, Under(t, i), Name(NameState(n.key, n.name, c.owner, 0, n.periodStart, n.expiresAt)),
                        after))
            && (c.BuyTo? ==>
                  Moves(t, tx, Under(t, i), Name(NameState(n.key, n.name, c.owner, 0, n.periodStart, n.expiresAt)),
                        after))
            && (c.ListAt? ==>
                  Moves(t, tx, Under(t, i), Name(NameState(n.key, n.name, n.owner, c.price, n.periodStart,
                                                           n.expiresAt)), after))
            && (c.RenewFor? ==>
                  Moves(t, tx, Under(t, i), Name(NameState(n.key, n.name, n.owner, n.price, n.expiresAt,
                                                 Wrap64(n.expiresAt + c.years * t.periodMs))), after))
            && (c.ExtendFor? ==>
                  Moves(t, tx, Under(t, i), Name(NameState(n.key, n.name, n.owner, n.price, n.periodStart,
                                                 Wrap64(n.expiresAt + c.years * t.periodMs))), after))
  {
    hide Calling, Carries, Announces, ShardsAsked, NamesAsked, FirstCall, MovesUpTo, Provided, Moves, ApplyUtxos,
        Wrap64;
    var asked, placed := CallsTracked(t, u, tx, calls);
    var moves := MovesUpTo(u, tx, calls, |tx.inputs|);
    NoGapCalls(u, tx, calls, |tx.inputs|, GapMerge);
    NoGapCalls(u, tx, calls, |tx.inputs|, GapRegister);
    NoGapCalls(u, tx, calls, |tx.inputs|, GapImport);
    MoveOf(u, tx, calls, i, |tx.inputs|);
    var k :| 0 <= k < |moves| && moves[k] == Move(i, tx.inputs[i].previous, u[tx.inputs[i].previous], calls[i]);
    NameAskedIn(t, moves, k, |moves|);
    var wanted := NameAsked(t, moves, moves[k]);
    forall s | Continue(Under(t, i), s) in wanted ensures Moves(t, tx, Under(t, i), s, ApplyUtxos(t, u, tx)) {
      assert Continue(Under(t, i), s) in asked;
      AskedMoves(t, u, tx, asked, placed, Under(t, i), s, ApplyUtxos(t, u, tx));
    }
    assert IsInput(tx, tx.inputs[i].previous);
    assert wanted == [] || wanted[0] in wanted;
  }

  // ------------------------------------------------------------------ price shards --

  lemma {:induction false} RewrittenIn(id: Bytes32, moves: seq<Move>, authority: Bytes32, prices: Prices, k: nat)
    requires k < |moves| && moves[k].state.Shard?
    ensures Continue(Some((moves[k].input, id)), Shard(PriceState(moves[k].state.shard.shard, authority, prices)))
            in Rewritten(id, moves, authority, prices)
  {
    if k < |moves| - 1 {
      RewrittenIn(id, moves[..|moves| - 1], authority, prices, k);
    }
  }

  lemma {:induction false} ShardsAskedIn(t: Templates, moves: seq<Move>, k: nat, n: nat)
    requires k < n <= |moves| && t.priceId.Some?
    ensures moves[k].call.Use? ==>
        Continue(Some((moves[k].input, t.priceId.value)), moves[k].state) in ShardsAsked(t, moves, n)
    ensures moves[k].call.Update? && (forall p :: p in moves[k].call.prices ==> p >= 0) ==>
              forall c :: c in Rewritten(t.priceId.value, moves, moves[k].call.authority, moves[k].call.prices) ==>
                c in ShardsAsked(t, moves, n)
  {
    hide Rewritten;
    if k < n - 1 {
      ShardsAskedIn(t, moves, k, n - 1);
    } else if moves[k].call.Update? {
      assert forall x :: 0 <= x < 5 ==> moves[k].call.prices[x] in moves[k].call.prices;
    }
  }

  /** A shard that is used is tracked again as it was; a price change writes its authority and prices to
      every shard the transaction spends, the one it is called on and the others, each under its own input. */
  lemma ShardContinues(t: Templates, u: Utxos, tx: Tx, calls: map<nat, Call>, i: nat, j: nat)
    requires Served(t, u, tx, calls) && t.priceId.Some? && i in calls && j in calls && u[tx.inputs[j].previous].Shard?
    ensures var p, c, after := u[tx.inputs[j].previous].shard, calls[i], ApplyUtxos(t, u, tx);
            tx.inputs[j].previous !in after
            && (calls[j].Use? ==> Moves(t, tx, Some((j, t.priceId.value)), Shard(p), after))
            && (c.Update? && (forall x :: x in c.prices ==> x >= 0) ==>
                  Moves(t, tx, Some((j, t.priceId.value)), Shard(PriceState(p.shard, c.authority, c.prices)), after))
  {
    hide Calling, Carries, Announces, ShardsAsked, BodyAsked, MovesUpTo, Provided, Moves, ApplyUtxos, Rewritten;
    var asked, placed := CallsTracked(t, u, tx, calls);
    var moves, after, id := MovesUpTo(u, tx, calls, |tx.inputs|), ApplyUtxos(t, u, tx), t.priceId.value;
    MoveOf(u, tx, calls, i, |tx.inputs|);
    var a :| 0 <= a < |moves| && moves[a] == Move(i, tx.inputs[i].previous, u[tx.inputs[i].previous], calls[i]);
    MoveOf(u, tx, calls, j, |tx.inputs|);
    var b :| 0 <= b < |moves| && moves[b] == Move(j, tx.inputs[j].previous, u[tx.inputs[j].previous], calls[j]);
    ShardsAskedIn(t, moves, a, |moves|);
    ShardsAskedIn(t, moves, b, |moves|);
    if calls[i].Update? {
      RewrittenIn(id, moves, calls[i].authority, calls[i].prices, b);
    }
    forall s | Continue(Some((j, id)), s) in ShardsAsked(t, moves, |moves|)
        ensures Moves(t, tx, Some((j, id)), s, after) {
      assert Continue(Some((j, id)), s) in asked;
      AskedMoves(t, u, tx, asked, placed, Some((j, id)), s, after);
    }
    assert IsInput(tx, tx.inputs[j].previous);
  }

  // ------------------------------------------------------------------ registers, imports and exits --

  lemma {:induction false} FirstIsOnly(moves: seq<Move>, e: Entry, k: nat)
    requires k < |moves| && moves[k].call.Entry() == e
    requires forall j :: 0 <= j < |moves| && j != k ==> moves[j].call.Entry() != e
    ensures FirstCall(moves, e) == Some(moves[k])
  {
    if k > 0 {
      FirstIsOnly(moves[1..], e, k - 1);
    }
  }

  /** Only input `i` calls this entry. */
  predicate OnlyAt(calls: map<nat, Call>, i: nat) {
    i in calls && forall j :: j in calls && calls[j].Entry() == calls[i].Entry() ==> j == i
  }

  ghost predicate Ascending(moves: seq<Move>, n: nat) {
    (forall k :: 0 <= k < |moves| ==> moves[k].input < n)
    && forall j, k :: 0 <= j < k < |moves| ==> moves[j].input < moves[k].input
  }

  lemma AscendingMore(moves: seq<Move>, n: nat, more: seq<Move>)
    requires Ascending(moves, n) && |more| <= 1 && forall m :: m in more ==> m.input == n
    ensures Ascending(moves + more, n + 1)
  {
  }

  lemma {:induction false} MovesAscend(u: Utxos, tx: Tx, calls: map<nat, Call>, n: nat)
    requires n <= |tx.inputs| && forall i :: i in calls ==> i < |tx.inputs| && tx.inputs[i].previous in u
    ensures Ascending(MovesUpTo(u, tx, calls, n), n)
  {
    hide Ascending;
    if n == 0 {
      assert Ascending([], 0) by { NoMoves(); }
    } else {
      MovesAscend(u, tx, calls, n - 1);
      var init, moves := MovesUpTo(u, tx, calls, n - 1), MovesUpTo(u, tx, calls, n);
      AscendingMore(init, n - 1, moves[|init|..]);
      assert moves == init + moves[|init|..];
    }
  }

  lemma NoMoves()
    ensures Ascending([], 0)
  {
  }

  lemma FirstAt(u: Utxos, tx: Tx, calls: map<nat, Call>, i: nat)
    requires forall j :: j in calls ==> j < |tx.inputs| && tx.inputs[j].previous in u
    requires OnlyAt(calls, i)
    ensures FirstCall(MovesUpTo(u, tx, calls, |tx.inputs|), calls[i].Entry())
            == Some(Move(i, tx.inputs[i].previous, u[tx.inputs[i].previous], calls[i]))
  {
    hide MovesUpTo, FirstCall;
    var moves := MovesUpTo(u, tx, calls, |tx.inputs|);
    MoveOf(u, tx, calls, i, |tx.inputs|);
    var k :| 0 <= k < |moves| && moves[k] == Move(i, tx.inputs[i].previous, u[tx.inputs[i].previous], calls[i]);
    CallsOfMoves(u, tx, calls, |tx.inputs|);
    MovesAscend(u, tx, calls, |tx.inputs|);
    forall j | 0 <= j < |moves| && j != k ensures moves[j].call.Entry() != calls[i].Entry() {
      assert moves[j] in moves;
    }
    FirstIsOnly(moves, calls[i].Entry(), k);
  }

  lemma NoneCalls(u: Utxos, tx: Tx, calls: map<nat, Call>, e: Entry)
    requires forall j :: j in calls ==> j < |tx.inputs| && tx.inputs[j].previous in u && calls[j].Entry() != e
    ensures FirstCall(MovesUpTo(u, tx, calls, |tx.inputs|), e).None?
  {
    hide FirstCall, MovesUpTo;
    CallsOfMoves(u, tx, calls, |tx.inputs|);
  }

  /** A register or import of a valid name leaves the gap's two halves around the name's key, and the name
      with its text padded, its owner, no price and its dates, in place of the gap. */
  lemma GapSplits(t: Templates, u: Utxos, tx: Tx, calls: map<nat, Call>, i: nat)
    requires Served(t, u, tx, calls) && OnlyAt(calls, i) && (calls[i].Register? || calls[i].Import?)
    requires forall j :: j in calls ==>
               !calls[j].Merge? && (calls[i].Import? ==> !calls[j].Register?)
    requires ValidText(calls[i].text)
    ensures u[tx.inputs[i].previous].Gap?
    ensures var g, c, after := u[tx.inputs[i].previous].gap, calls[i], ApplyUtxos(t, u, tx);
            var key := t.host.nameKey(c.text);
            tx.inputs[i].previous !in after
            && Moves(t, tx, Under(t, i), Gap(GapState(g.lo, key)), after)
            && Moves(t, tx, Under(t, i), Gap(GapState(key, g.hi)), after)
            && (c.Register? ==>
                  Moves(t, tx, Under(t, i),
                        Name(NameState(key, PadName(c.text), c.holder, 0, c.now, Wrap64(c.now + c.years * t.periodMs))),
                            after))
            && (c.Import? ==>
                  Moves(t, tx, Under(t, i), Name(NameState(key, PadName(c.text), c.holder, 0, c.start, c.expires)),
                        after))
  {
    hide Carries, Announces, Asked, MovesUpTo, Provided, Left, Moves, ApplyUtxos, Wrap64, PadName, ValidText, Signs,
        Minted;
    var asked, placed := CallsTracked(t, u, tx, calls);
    var moves, after, c := MovesUpTo(u, tx, calls, |tx.inputs|), ApplyUtxos(t, u, tx), calls[i];
    var m := Move(i, tx.inputs[i].previous, u[tx.inputs[i].previous], c);
    MintIsAsked(t, u, tx, calls, i);
    forall s | Continue(Under(t, i), s) in Minted(t, m) ensures Moves(t, tx, Under(t, i), s, after) {
      AskedMoves(t, u, tx, asked, placed, Under(t, i), s, after);
    }
    MintedStates(t, m);
    SpentIsGone(t, u, tx, asked, placed, i, after);
  }

  lemma MintedStates(t: Templates, m: Move)
    requires m.call.Fits(m.state) && (m.call.Register? || m.call.Import?) && ValidText(m.call.text)
    ensures var g, c, key := m.state.gap, m.call, t.host.nameKey(m.call.text);
            Continue(Under(t, m.input), Gap(GapState(g.lo, key))) in Minted(t, m)
            && Continue(Under(t, m.input), Gap(GapState(key, g.hi))) in Minted(t, m)
            && (c.Register? ==>
                  Continue(Under(t, m.input),
                           Name(NameState(key, PadName(c.text), c.holder, 0, c.now,
                                          Wrap64(c.now + c.years * t.periodMs))))
                  in Minted(t, m))
            && (c.Import? ==>
                  Continue(Under(t, m.input), Name(NameState(key, PadName(c.text), c.holder, 0, c.start, c.expires)))
                  in Minted(t, m))
  {
    hide PadName, Wrap64, ValidText;
    var split := Minted(t, m);
    assert split[0] in split && split[1] in split && split[2] in split;
  }

  lemma MintIsAsked(t: Templates, u: Utxos, tx: Tx, calls: map<nat, Call>, i: nat)
    requires Served(t, u, tx, calls) && OnlyAt(calls, i) && (calls[i].Register? || calls[i].Import?)
    requires forall j :: j in calls ==>
               !calls[j].Merge? && (calls[i].Import? ==> !calls[j].Register?)
    ensures u[tx.inputs[i].previous].Gap?
    ensures var m := Move(i, tx.inputs[i].previous, u[tx.inputs[i].previous], calls[i]);
            forall c :: c in Minted(t, m) ==> c in Asked(t, MovesUpTo(u, tx, calls, |tx.inputs|))
  {
    hide ShardsAsked, NamesAsked, FirstCall, MovesUpTo, Provided, Minted, Signs;
    FirstAt(u, tx, calls, i);
    NoneCalls(u, tx, calls, GapMerge);
    if calls[i].Import? {
      NoneCalls(u, tx, calls, GapRegister);
    }
  }

  lemma SpentIsGone(t: Templates, u: Utxos, tx: Tx, asked: seq<Claim>, placed: seq<nat>, i: nat, after: Utxos)
    requires Provided(t, tx, asked, placed) && Left(t, u, tx, asked, placed, after) && i < |tx.inputs|
        && tx.inputs[i].previous in u
    ensures tx.inputs[i].previous !in after
  {
    hide Announces, Carries;
    assert IsInput(tx, tx.inputs[i].previous);
  }

  /** An exit leaves one gap from the lower gap's start to the upper gap's end, and none of what it spent. */
  lemma GapsMerge(t: Templates, u: Utxos, tx: Tx, calls: map<nat, Call>, i: nat, j: nat)
    requires Served(t, u, tx, calls) && OnlyAt(calls, i) && calls[i].Merge? && OnlyAt(calls, j) && calls[j].Absorbed?
    ensures u[tx.inputs[i].previous].Gap? && u[tx.inputs[j].previous].Gap?
    ensures var lo, hi := u[tx.inputs[i].previous].gap, u[tx.inputs[j].previous].gap;
            Moves(t, tx, Under(t, i), Gap(GapState(lo.lo, hi.hi)), ApplyUtxos(t, u, tx))
            && forall k :: k in calls ==> tx.inputs[k].previous !in ApplyUtxos(t, u, tx)
  {
    hide Carries, Announces, ShardsAsked, NamesAsked, FirstCall, MovesUpTo, Provided, Moves, ApplyUtxos, Signs;
    var asked, placed := CallsTracked(t, u, tx, calls);
    var moves, after := MovesUpTo(u, tx, calls, |tx.inputs|), ApplyUtxos(t, u, tx);
    FirstAt(u, tx, calls, i);
    FirstAt(u, tx, calls, j);
    var s := Gap(GapState(u[tx.inputs[i].previous].gap.lo, u[tx.inputs[j].previous].gap.hi));
    assert BodyAsked(t, moves) == [Continue(Under(t, i), s)];
    assert BodyAsked(t, moves)[0] in asked;
    AskedMoves(t, u, tx, asked, placed, Under(t, i), s, after);
    forall k | k in calls ensures tx.inputs[k].previous !in after {
      assert IsInput(tx, tx.inputs[k].previous);
    }
  }

  // ------------------------------------------------------------------ an offer accepted without a transfer --

  /** Besides the accept no call mints, moves or ends a name. */
  predicate OnlyAccepts(calls: map<nat, Call>, i: nat) {
    OnlyAt(calls, i) && calls[i].Accept? && OnlyContinues(calls)
    && forall j :: j in calls && j != i ==>
         !calls[j].TransferTo? && !calls[j].BuyTo? && !calls[j].ListAt? && !calls[j].RenewFor? && !calls[j].ExtendFor?
  }

  lemma {:induction false} NamesOfAccept(t: Templates, moves: seq<Move>, k: nat, n: nat)
    requires k < |moves| && n <= |moves| && forall m :: m in moves ==> m.call.Fits(m.state)
    requires moves[k].call.Accept? && forall m :: m in moves ==> !m.call.TransferTo?
    requires forall j :: 0 <= j < |moves| && j != k ==> NameAsked(t, moves, moves[j]) == []
    ensures NamesAsked(t, moves, n) == if k < n then [TakeOffer(Under(t, moves[k].input), moves[k].state.offer)] else []
  {
    hide NameAsked;
    if n > 0 {
      NamesOfAccept(t, moves, k, n - 1);
      AcceptAsks(t, moves, moves[k]);
    }
  }

  lemma AcceptAsks(t: Templates, moves: seq<Move>, m: Move)
    requires m.call.Accept? && m.state.Offer? && forall o :: o in moves ==> !o.call.TransferTo?
    ensures NameAsked(t, moves, m) == [TakeOffer(Under(t, m.input), m.state.offer)]
  {
  }

  lemma NamesAskedOfAccept(t: Templates, u: Utxos, tx: Tx, calls: map<nat, Call>, i: nat)
    requires (forall j :: j in calls ==> j < |tx.inputs| && tx.inputs[j].previous in u) && OnlyAccepts(calls, i)
    requires forall m :: m in MovesUpTo(u, tx, calls, |tx.inputs|) ==> m.call.Fits(m.state)
    ensures u[tx.inputs[i].previous].Offer?
    ensures var moves := MovesUpTo(u, tx, calls, |tx.inputs|);
            NamesAsked(t, moves, |moves|) == [TakeOffer(Under(t, i), u[tx.inputs[i].previous].offer)]
  {
    hide NamesAsked, NameAsked, MovesUpTo;
    var moves := MovesUpTo(u, tx, calls, |tx.inputs|);
    CallsOfMoves(u, tx, calls, |tx.inputs|);
    MovesAscend(u, tx, calls, |tx.inputs|);
    MoveOf(u, tx, calls, i, |tx.inputs|);
    var k :| 0 <= k < |moves| && moves[k] == Move(i, tx.inputs[i].previous, u[tx.inputs[i].previous], calls[i]);
    assert moves[k] in moves;
    forall j | 0 <= j < |moves| && j != k ensures NameAsked(t, moves, moves[j]) == [] {
      assert moves[j] in moves && moves[j].input != i;
      AsksNothing(t, calls, i, moves, moves[j]);
    }
    NamesOfAccept(t, moves, k, |moves|);
  }

  lemma AsksNothing(t: Templates, calls: map<nat, Call>, i: nat, moves: seq<Move>, m: Move)
    requires OnlyAccepts(calls, i) && m.input in calls && m.input != i && m.call == calls[m.input]
        && m.call.Fits(m.state)
    ensures NameAsked(t, moves, m) == []
  {
    assert calls[m.input].Entry() != OfferAccept;
  }

  lemma AskedOfAccept(t: Templates, u: Utxos, tx: Tx, calls: map<nat, Call>, i: nat) returns (moves: seq<Move>)
    requires Calling(t, u, tx, calls) && OnlyAccepts(calls, i)
    ensures (forall j :: j in calls ==> j < |tx.inputs| && tx.inputs[j].previous in u)
            && u[tx.inputs[i].previous].Offer? && moves == MovesUpTo(u, tx, calls, |tx.inputs|)
    ensures Claims(t, Spends(t, u, tx))
            == ShardsAsked(t, moves, |moves|) + [TakeOffer(Under(t, i), u[tx.inputs[i].previous].offer)]
  {
    hide ShardsAsked, NamesAsked, FirstCall, MovesUpTo, Claims, Calling, SpendsUpTo;
    moves := ClaimsOfCalls(t, u, tx, calls);
    NoGapCalls(u, tx, calls, |tx.inputs|, GapMerge);
    NoGapCalls(u, tx, calls, |tx.inputs|, GapRegister);
    NoGapCalls(u, tx, calls, |tx.inputs|, GapImport);
    NamesAskedOfAccept(t, u, tx, calls, i);
  }

  /** Registry v2: an accepted offer hands the name found under its key to the offer's buyer, no longer for
      sale and otherwise as it was, at the first output left that carries it; besides, only what the price
      shards ask for changes. */
  lemma AcceptHandsOver(t: Templates, u: Utxos, tx: Tx, calls: map<nat, Call>, i: nat)
    returns (asked: seq<Claim>, placed: seq<nat>, made: Utxos, before: Utxos)
    requires Fresh(u, tx.id) && Calling(t, u, tx, calls) && OnlyAccepts(calls, i)
    requires (forall j :: j in calls ==> j < |tx.inputs| && tx.inputs[j].previous in u)
             && u[tx.inputs[i].previous].Offer?
             && exists slots :: Provided(t, tx, ShardsAsked(t, MovesUpTo(u, tx, calls, |tx.inputs|),
                                                            |MovesUpTo(u, tx, calls, |tx.inputs|)|), slots)
    ensures Provided(t, tx, asked, placed) && Left(t, u, tx, asked, placed, before)
    ensures (forall op :: op in before ==> op in made && made[op] == before[op])
            && forall op :: op in made && op !in before ==> op in u && made[op] == u[op] && IsInput(tx, op)
    ensures var o, after := u[tx.inputs[i].previous].offer, ApplyUtxos(t, u, tx);
            match t.host.nameByKey(made, o.key)
            case None => after == before
            case Some(n) =>
              var s := Name(NameState(n.key, n.name, o.buyer, 0, n.periodStart, n.expiresAt));
              ((exists j: nat :: j !in placed && Carries(t, tx, Under(t, i), s, j)) ==>
               Moves(t, tx, Under(t, i), s, after))
              && ((forall j: nat :: j !in placed ==> !Carries(t, tx, Under(t, i), s, j)) ==> after == before)
  {
    hide Calling, Asked, RunClaims, Claims, SpendsUpTo, Uniform, Owed, Provided, Left, WithOffer, MovesUpTo,
        SpentOutpoints,
         ShardsAsked, OnlyContinues;
    var moves := AskedOfAccept(t, u, tx, calls, i);
    asked := ShardsAsked(t, moves, |moves|);
    var slots :| Provided(t, tx, asked, slots);
    ProvidedIsOwed(t, tx, asked, slots);
    ShardsUniform(t, moves);
    var start, o := Work([], WithOffer(t, u, tx)), u[tx.inputs[i].previous].offer;
    placed := GreedyClaims(t, tx, asked, slots, start);
    ProvidedIsOwed(t, tx, asked, placed);
    made := RunClaims(t, tx, asked, start).utxos;
    SpentAreInputs(t, u, tx, calls);
    var spent := SpentOutpoints(Spends(t, u, tx));
    before := made - spent;
    PlacedLeaves(t, u, tx, asked, placed, made, spent);
    PlacedKeeps(t, u, tx, asked, placed, made);
    LastClaim(t, tx, asked, TakeOffer(Under(t, i), o), start);
    assert [] + placed == placed;
    TakenIsMoved(t, tx, Under(t, i), o, placed, made, spent);
  }

  lemma ShardsUniform(t: Templates, moves: seq<Move>)
    ensures Uniform(ShardsAsked(t, moves, |moves|))
  {
    hide ShardsAsked;
    AskedOfShards(t, moves, |moves|);
    var asked := ShardsAsked(t, moves, |moves|);
    assert forall k :: 0 <= k < |asked| ==> asked[k] in asked;
  }

  lemma LastClaim(t: Templates, tx: Tx, asked: seq<Claim>, c: Claim, w: Work)
    ensures RunClaims(t, tx, asked + [c], w) == RunClaim(t, tx, c, RunClaims(t, tx, asked, w))
  {
    hide RunClaim;
    assert (asked + [c])[..|asked|] == asked;
  }

  /** Placing states changes nothing that was tracked before. */
  lemma PlacedKeeps(t: Templates, u: Utxos, tx: Tx, asked: seq<Claim>, placed: seq<nat>, made: Utxos)
    requires Fresh(u, tx.id) && Owed(t, tx, asked, placed) && Placed(tx.id, asked, placed, WithOffer(t, u, tx), made)
    ensures forall op :: op in u ==> op in made && made[op] == u[op]
  {
    hide Matches, ScriptOf, NewOffer;
  }

  lemma TakenIsMoved(t: Templates, tx: Tx, b: Option<(nat, Bytes32)>, o: OfferState, placed: seq<nat>, made: Utxos,
                     spent: set<Outpoint>)
    requires forall op :: op in spent ==> op.tx != tx.id
    ensures var after := RunClaim(t, tx, TakeOffer(b, o), Work(placed, made)).utxos - spent;
            match t.host.nameByKey(made, o.key)
            case None => after == made - spent
            case Some(n) =>
              var s := Name(NameState(n.key, n.name, o.buyer, 0, n.periodStart, n.expiresAt));
              ((exists j: nat :: j !in placed && Carries(t, tx, b, s, j)) ==> Moves(t, tx, b, s, after))
              && ((forall j: nat :: j !in placed ==> !Carries(t, tx, b, s, j)) ==> after == made - spent)
  {
    hide Carries, Matches, ScriptOf;
    var found := t.host.nameByKey(made, o.key);
    if found.Some? {
      var n := found.value;
      var s := Name(NameState(n.key, n.name, o.buyer, 0, n.periodStart, n.expiresAt));
      var i := FirstFree(tx, ScriptOf(t, s), b, placed, 0);
      forall j: nat ensures Carries(t, tx, b, s, j) <==> j < |tx.outputs| && Matches(tx, ScriptOf(t, s), b, j) {
        CarriesIsMatch(t, tx, b, s, j);
      }
      if i.Some? {
        var after := made[Outpoint(tx.id, i.value) := s] - spent;
        assert Outpoint(tx.id, i.value) in after && Carries(t, tx, b, s, i.value);
      }
    }
  }
}
