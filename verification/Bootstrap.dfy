/** The REST bootstrap (kachat-names-follower/src/bootstrap.rs `walk`): rounds that ask the node which
    tracked outputs are still unspent, look up the spenders of the others, and apply each once every
    registry input it has is tracked. The node's and the REST API's answers are arbitrary. */
module Bootstrap {
  import opened Base
  import opened States
  import opened Ingest
  import opened Undo
  import opened RegistryEngine
  import opened Tiling
  import opened Confluence
  import Lawful
  import opened FollowerLoop

  datatype Verdict = Verified | Unverifiable | Forged

  /** One page of an address's history: how many rows it had, and the ones that parsed. */
  datatype Page = Page(rows: nat, txs: seq<RestTx>)

  /** Every answer one walk can get; None is a failed request. */
  datatype World = World(
    /** The address of a script, if it has one. */
    address: Bytes -> Option<Bytes>,
    /** What the node has unspent among the tracked outputs, by round. */
    unspent: nat -> Option<set<Outpoint>>,
    /** A page of an address's history, by round. */
    page: (nat, Bytes, nat) -> Option<Page>,
    verdict: (nat, RestTx) -> Verdict)

  const MAX_ROUNDS: nat := 512
  const PAGE: nat := 50
  const MAX_PAGES: nat := 100

  // ------------------------------------------------------------------ the order of application --

  predicate Before(a: RestTx, b: RestTx) {
    a.tx.daa < b.tx.daa
    || (a.tx.daa == b.tx.daa && (a.blockTime < b.blockTime || (a.blockTime == b.blockTime && Less(a.tx.id, b.tx.id))))
  }

  lemma BeforeTransitive(a: RestTx, b: RestTx, c: RestTx)
    requires Before(a, b) && Before(b, c)
    ensures Before(a, c)
  {
    hide Less;
    if Less(a.tx.id, b.tx.id) && Less(b.tx.id, c.tx.id) {
      LessTransitive(a.tx.id, b.tx.id, c.tx.id);
    }
  }

  lemma BeforeTotal(a: RestTx, b: RestTx)
    requires a.tx.id != b.tx.id
    ensures Before(a, b) || Before(b, a)
  {
    LessTotal(a.tx.id, b.tx.id);
  }

  predicate InOrder(s: seq<RestTx>) {
    forall i, j :: 0 <= i < j < |s| ==> Before(s[i], s[j])
  }

  predicate DistinctIds(s: seq<RestTx>) {
    forall i, j :: 0 <= i < j < |s| ==> s[i].tx.id != s[j].tx.id
  }

  type Candidates = map<Bytes32, RestTx>

  predicate KeyedById(candidates: Candidates) {
    forall id :: id in candidates ==> candidates[id].tx.id == id
  }

  /** `s` lists the candidates with these ids, each once. */
  ghost predicate Lists(s: seq<RestTx>, candidates: Candidates, ids: set<Bytes32>) {
    DistinctIds(s) && forall rt :: rt in s <==> rt.tx.id in ids && rt.tx.id in candidates && candidates[rt.tx.id] == rt
  }

  /** The candidates by accepting DAA score, block time and id. */
  method Sorted(candidates: Candidates) returns (s: seq<RestTx>)
    requires KeyedById(candidates)
    ensures InOrder(s) && Lists(s, candidates, candidates.Keys)
    ensures forall i, j :: 0 <= i < j < |s| ==>
              var (x, y) := (s[i], s[j]);
              x.tx.daa <= y.tx.daa && (x.tx.daa == y.tx.daa ==> x.blockTime <= y.blockTime)
              && (x.tx.daa == y.tx.daa && x.blockTime == y.blockTime ==> FirstDiffers(x.tx.id, y.tx.id))
  {
    hide FirstDiffers;
    s := [];
    var left := candidates.Keys;
    while left != {}
      invariant left <= candidates.Keys
      invariant InOrder(s) && Lists(s, candidates, candidates.Keys - left)
    {
      var id :| id in left;
      s := Insert(s, candidates, candidates.Keys - left, candidates[id]);
      assert candidates.Keys - left + {id} == candidates.Keys - (left - {id});
      left := left - {id};
    }
    assert candidates.Keys - left == candidates.Keys;
    forall i, j | 0 <= i < j < |s| && Less(s[i].tx.id, s[j].tx.id) ensures FirstDiffers(s[i].tx.id, s[j].tx.id) {
      SmallerFirst(s[i].tx.id, s[j].tx.id);
    }
  }

  /** The first byte in which the ids differ is smaller in `a`. */
  ghost predicate FirstDiffers(a: Bytes32, b: Bytes32) {
    exists k: nat :: k < 32 && a[..k] == b[..k] && a[k] < b[k]
  }

  lemma SmallerFirst(a: Bytes32, b: Bytes32)
    requires Less(a, b)
    ensures FirstDiffers(a, b)
  {
    LessAtFirstDifference(a, b);
  }

  method Insert(s: seq<RestTx>, ghost candidates: Candidates, ghost ids: set<Bytes32>, rt: RestTx)
      returns (s': seq<RestTx>)
    requires InOrder(s) && Lists(s, candidates, ids) && rt.tx.id !in ids && rt.tx.id in candidates
        && candidates[rt.tx.id] == rt
    ensures InOrder(s') && Lists(s', candidates, ids + {rt.tx.id})
  {
    hide Before, InOrder, Lists;
    var i := 0;
    while i < |s| && Before(s[i], rt)
      invariant i <= |s| && forall k :: 0 <= k < i ==> Before(s[k], rt)
    {
      i := i + 1;
    }
    s' := s[..i] + [rt] + s[i..];
    InsertedLists(s, candidates, ids, rt, i);
    InsertedInOrder(s, candidates, ids, rt, i);
  }

  lemma InsertedLists(s: seq<RestTx>, candidates: Candidates, ids: set<Bytes32>, rt: RestTx, i: nat)
    requires Lists(s, candidates, ids) && rt.tx.id !in ids && rt.tx.id in candidates && candidates[rt.tx.id] == rt
        && i <= |s|
    ensures Lists(s[..i] + [rt] + s[i..], candidates, ids + {rt.tx.id})
  {
    InsertedAt(s, i, rt);
    InsertedDistinct(s, rt, i) by {
      assert forall k :: 0 <= k < |s| ==> s[k] in s;
    }
  }

  lemma InsertedDistinct(s: seq<RestTx>, rt: RestTx, i: nat)
    requires DistinctIds(s) && i <= |s| && forall k :: 0 <= k < |s| ==> s[k].tx.id != rt.tx.id
    ensures DistinctIds(s[..i] + [rt] + s[i..])
  {
    InsertedAt(s, i, rt);
  }

  lemma InsertedInOrder(s: seq<RestTx>, candidates: Candidates, ids: set<Bytes32>, rt: RestTx, i: nat)
    requires InOrder(s) && Lists(s, candidates, ids) && rt.tx.id !in ids && i <= |s|
    requires (forall k :: 0 <= k < i ==> Before(s[k], rt)) && (i < |s| ==> !Before(s[i], rt))
    ensures InOrder(s[..i] + [rt] + s[i..])
  {
    hide Before;
    var s' := s[..i] + [rt] + s[i..];
    forall k | i <= k < |s| ensures Before(rt, s[k]) {
      assert s[i] in s && s[i].tx.id != rt.tx.id;
      BeforeTotal(s[i], rt);
      if i < k {
        BeforeTransitive(rt, s[i], s[k]);
      }
    }
    assert forall k :: 0 <= k < |s'| ==> s'[k] == if k < i then s[k] else if k == i then rt else s[k - 1];
  }

  // ------------------------------------------------------------------ what a walk has done --

  class Report {
    var rounds: nat
    var applied: seq<Tx>
    var unresolved: nat
    var unverified: nat
    var rejected: nat
    /** The applied transactions as the REST API served them. */
    ghost var order: seq<RestTx>

    ghost predicate Valid()
      reads this
    {
      applied == Plain(order) && DistinctIds(order)
    }

    constructor ()
      ensures Valid() && order == [] && unresolved == 0
    {
      rounds, applied, unresolved, unverified, rejected := 0, [], 0, 0, 0;
      order := [];
    }
  }

  function IdsOf(txs: seq<Tx>): set<Bytes32> {
    set tx | tx in txs :: tx.id
  }

  /** From registry `r` and applied list `done`, more transactions were applied, each once it was
      ready and none the node called forged. */
  ghost predicate Extends(t: Templates, w: set<World>, r: Reg, done: seq<RestTx>, r': Reg, done': seq<RestTx>) {
    done <= done'
    && r' == Replay(t, r, Plain(done'[|done|..]))
    && GateRespected(t, r, done'[|done|..])
    && forall rt :: rt in done'[|done|..] ==> Vetted(w, rt)
  }

  ghost predicate Vetted(worlds: set<World>, rt: RestTx) {
    exists w, k :: w in worlds && w.verdict(k, rt) != Forged
  }

  lemma ExtendsNothing(t: Templates, w: set<World>, r: Reg, done: seq<RestTx>)
    ensures Extends(t, w, r, done, r, done)
  {
  }

  lemma GateOne(t: Templates, r: Reg, x: RestTx)
    requires Ready(t, r.utxos, x)
    ensures GateRespected(t, r, [x])
  {
    hide Ready;
    assert Plain([x][..0]) == [];
  }

  lemma ExtendsByOne(t: Templates, w: set<World>, r: Reg, done: seq<RestTx>, r': Reg, done': seq<RestTx>, x: RestTx)
    requires Extends(t, w, r, done, r', done') && Ready(t, r'.utxos, x) && Vetted(w, x)
    ensures Extends(t, w, r, done, Apply(t, r', x.tx), done' + [x])
  {
    hide Ready, Apply, Vetted, GateRespected;
    var since, longer := done'[|done|..], (done' + [x])[|done|..];
    assert longer == since + [x] && Plain(longer)[..|since|] == Plain(since);
    GateOne(t, r', x);
    GateConcat(t, r, since, [x]);
  }

  lemma GateConcat(t: Templates, r: Reg, a: seq<RestTx>, b: seq<RestTx>)
    requires GateRespected(t, r, a) && GateRespected(t, Replay(t, r, Plain(a)), b)
    ensures GateRespected(t, r, a + b)
  {
    hide Ready, Replay;
    var all := a + b;
    forall i | 0 <= i < |all| ensures Ready(t, Replay(t, r, Plain(all[..i])).utxos, all[i]) {
      if i < |a| {
        assert all[..i] == a[..i] && all[i] == a[i];
      } else {
        assert all[..i] == a + b[..i - |a|] && Plain(all[..i]) == Plain(a) + Plain(b[..i - |a|]);
        ReplayConcat(t, r, Plain(a), Plain(b[..i - |a|]));
        assert all[i] == b[i - |a|];
      }
    }
  }

  lemma ExtendsFurther(t: Templates, w: set<World>, v: set<World>, r: Reg, a: seq<RestTx>, r1: Reg, b: seq<RestTx>,
                       r2: Reg, c: seq<RestTx>)
    requires Extends(t, w, r, a, r1, b) && Extends(t, v, r1, b, r2, c)
    ensures Extends(t, w + v, r, a, r2, c)
  {
    hide Replay, GateRespected;
    var x, y := b[|a|..], c[|b|..];
    assert c[|a|..] == x + y && Plain(x + y) == Plain(x) + Plain(y);
    ReplayConcat(t, r, Plain(x), Plain(y));
    GateConcat(t, r, x, y);
  }

  // ------------------------------------------------------------------ the queries of a round --

  /** The outpoint is tracked, and `a` is the address of the script its state pays to. */
  ghost predicate AddressedTo(w: World, t: Templates, utxos: Utxos, op: Outpoint, a: Bytes) {
    op in utxos && w.address(ScriptOf(t, utxos[op])) == Some(a)
  }

  /** Every output is filed under its own address, and nothing else is. */
  ghost predicate FiledRight(w: World, t: Templates, utxos: Utxos, keys: set<Outpoint>,
                             filed: map<Bytes, set<Outpoint>>) {
    (forall a, op :: a in filed && op in filed[a] ==> op in keys && AddressedTo(w, t, utxos, op, a))
    && forall op :: op in keys && op in utxos ==>
         var a := w.address(ScriptOf(t, utxos[op])); a.Some? && a.value in filed && op in filed[a.value]
  }

  lemma FileOne(w: World, t: Templates, utxos: Utxos, keys: set<Outpoint>, filed: map<Bytes, set<Outpoint>>,
                op: Outpoint,
                a: Bytes)
    requires FiledRight(w, t, utxos, keys, filed) && AddressedTo(w, t, utxos, op, a)
    ensures FiledRight(w, t, utxos, keys + {op}, filed[a := (if a in filed then filed[a] else {}) + {op}])
  {
    hide ScriptOf;
  }

  /** The tracked outputs by address; None when a script has no address. */
  method ByAddress(w: World, t: Templates, utxos: Utxos) returns (filed: Option<map<Bytes, set<Outpoint>>>)
    ensures filed.Some? ==> FiledRight(w, t, utxos, utxos.Keys, filed.value)
    ensures filed.None? ==> exists op :: op in utxos && w.address(ScriptOf(t, utxos[op])).None?
  {
    hide ScriptOf;
    var out: map<Bytes, set<Outpoint>> := map[];
    var left := utxos.Keys;
    while left != {}
      invariant left <= utxos.Keys
      invariant FiledRight(w, t, utxos, utxos.Keys - left, out)
    {
      var op :| op in left;
      var a := w.address(ScriptOf(t, utxos[op]));
      if a.None? {
        return None;
      }
      FileOne(w, t, utxos, utxos.Keys - left, out, op, a.value);
      assert utxos.Keys - left + {op} == utxos.Keys - (left - {op});
      out := out[a.value := (if a.value in out then out[a.value] else {}) + {op}];
      left := left - {op};
    }
    assert utxos.Keys - left == utxos.Keys;
    return Some(out);
  }

  function InputOutpoints(tx: Tx): set<Outpoint> {
    set x | x in tx.inputs :: x.previous
  }

  function SpentBy(txs: seq<RestTx>): set<Outpoint> {
    set rt, x | rt in txs && x in rt.tx.inputs :: x.previous
  }

  ghost predicate SpendersIn(txs: seq<RestTx>, wanted: set<Outpoint>, out: seq<RestTx>) {
    forall rt :: rt in txs && InputOutpoints(rt.tx) * wanted != {} ==> exists s :: s in out && s.tx.id == rt.tx.id
  }

  /** Every transaction of the first `n` pages that spends a wanted output is in `out`. */
  ghost predicate Listed(w: World, round: nat, address: Bytes, wanted: set<Outpoint>, n: nat, out: seq<RestTx>) {
    forall k :: 0 <= k < n ==>
      w.page(round, address, k).Some? && SpendersIn(w.page(round, address, k).value.txs, wanted, out)
  }

  /** The transaction is on one of the first `n` pages. */
  ghost predicate OnPages(w: World, round: nat, address: Bytes, n: nat, rt: RestTx) {
    exists k :: 0 <= k < n && w.page(round, address, k).Some? && rt in w.page(round, address, k).value.txs
  }

  /** The transactions in an address's history that spend a wanted output: paged until every wanted
      output's spender is seen, the history ends, or the page limit. */
  method AddressHistory(w: World, round: nat, address: Bytes, wanted: set<Outpoint>)
      returns (r: Option<seq<RestTx>>, ghost pages: nat)
    ensures r.Some? ==> DistinctIds(r.value) && forall rt :: rt in r.value ==> InputOutpoints(rt.tx) * wanted != {}
    ensures r.Some? ==> pages <= MAX_PAGES && Listed(w, round, address, wanted, pages, r.value)
    ensures r.Some? ==> pages == MAX_PAGES || wanted <= SpentBy(r.value)
                        || (0 < pages && w.page(round, address, pages - 1).value.rows < PAGE)
    ensures r.Some? ==> forall rt :: rt in r.value ==> OnPages(w, round, address, pages, rt)
    ensures r.None? ==> pages < 100 && w.page(round, address, pages).None?
  {
    hide InputOutpoints, SpentBy, SpendersIn, Collected, DistinctIds, Listed;
    var out: seq<RestTx> := [];
    var found: set<Outpoint> := {};
    pages := 0;
    NothingListed(w, round, address, wanted);
    for page := 0 to MAX_PAGES
      invariant pages == page && Collected(out, found, wanted) && Listed(w, round, address, wanted, page, out)
      invariant forall rt :: rt in out ==> OnPages(w, round, address, page, rt)
    {
      var body := w.page(round, address, page);
      if body.None? {
        return None, page;
      }
      ghost var before := out;
      out, found := Hits(body.value.txs, wanted, out, found);
      ListedNext(w, round, address, wanted, page, before, out);
      pages := page + 1;
      if body.value.rows < PAGE || wanted <= found {
        CollectedMeans(out, found, wanted);
        return Some(out), pages;
      }
    }
    CollectedMeans(out, found, wanted);
    return Some(out), MAX_PAGES;
  }

  lemma NothingListed(w: World, round: nat, address: Bytes, wanted: set<Outpoint>)
    ensures Collected([], {}, wanted) && Listed(w, round, address, wanted, 0, [])
  {
  }

  lemma ListedNext(w: World, round: nat, address: Bytes, wanted: set<Outpoint>, n: nat, before: seq<RestTx>,
                   out: seq<RestTx>)
    requires Listed(w, round, address, wanted, n, before) && before <= out && w.page(round, address, n).Some?
    requires SpendersIn(w.page(round, address, n).value.txs, wanted, out)
    ensures Listed(w, round, address, wanted, n + 1, out)
  {
    hide SpendersIn;
    forall k | 0 <= k < n ensures SpendersIn(w.page(round, address, k).value.txs, wanted, out) {
      MoreSpenders(w.page(round, address, k).value.txs, wanted, before, out);
    }
  }

  lemma CollectedMeans(out: seq<RestTx>, found: set<Outpoint>, wanted: set<Outpoint>)
    requires Collected(out, found, wanted)
    ensures DistinctIds(out) && forall rt :: rt in out ==> InputOutpoints(rt.tx) * wanted != {}
    ensures wanted <= found ==> wanted <= SpentBy(out)
  {
    hide InputOutpoints, SpentBy, DistinctIds;
  }

  /** What a history's answer has so far: distinct transactions, each a spender of a wanted output. */
  ghost predicate Collected(out: seq<RestTx>, found: set<Outpoint>, wanted: set<Outpoint>) {
    DistinctIds(out) && found == SpentBy(out) * wanted
    && forall rt :: rt in out ==> InputOutpoints(rt.tx) * wanted != {}
  }

  lemma CollectOne(out: seq<RestTx>, found: set<Outpoint>, wanted: set<Outpoint>, rt: RestTx)
    requires Collected(out, found, wanted) && InputOutpoints(rt.tx) * wanted != {}
    requires !exists s :: s in out && s.tx.id == rt.tx.id
    ensures Collected(out + [rt], found + InputOutpoints(rt.tx) * wanted, wanted)
  {
    hide InputOutpoints, SpentBy;
    SpentByOneMore(out, rt);
    assert forall i :: 0 <= i < |out| ==> out[i] in out;
  }

  lemma MoreSpenders(txs: seq<RestTx>, wanted: set<Outpoint>, out: seq<RestTx>, more: seq<RestTx>)
    requires SpendersIn(txs, wanted, out) && out <= more
    ensures SpendersIn(txs, wanted, more)
  {
    hide InputOutpoints;
    assert forall s :: s in out ==> s in more;
  }

  /** One page's rows, those already seen left out. */
  method Hits(rows: seq<RestTx>, wanted: set<Outpoint>, seen: seq<RestTx>, found: set<Outpoint>)
    returns (out: seq<RestTx>, found': set<Outpoint>)
    requires Collected(seen, found, wanted)
    ensures seen <= out && Collected(out, found', wanted) && SpendersIn(rows, wanted, out)
    ensures forall rt :: rt in out ==> rt in seen || rt in rows
  {
    hide InputOutpoints, SpentBy, Collected;
    out, found' := seen, found;
    for i := 0 to |rows|
      invariant seen <= out && Collected(out, found', wanted) && SpendersIn(rows[..i], wanted, out)
      invariant forall rt :: rt in out ==> rt in seen || rt in rows
    {
      var rt := rows[i];
      assert forall x :: x in rows[..i + 1] <==> x in rows[..i] || x == rt;
      var hits := InputOutpoints(rt.tx) * wanted;
      if hits == {} || exists s :: s in out && s.tx.id == rt.tx.id {
        continue;
      }
      CollectOne(out, found', wanted, rt);
      MoreSpenders(rows[..i], wanted, out, out + [rt]);
      out := out + [rt];
      assert rt in out;
      found' := found' + hits;
    }
    assert rows[..|rows|] == rows;
  }

  lemma SpentByOneMore(txs: seq<RestTx>, rt: RestTx)
    ensures SpentBy(txs + [rt]) == SpentBy(txs) + InputOutpoints(rt.tx)
  {
    assert forall s :: s in txs + [rt] <==> s in txs || s == rt;
  }

  // ------------------------------------------------------------------ a round --

  ghost predicate SpentByOne(candidates: Candidates, op: Outpoint) {
    exists id :: id in candidates && op in InputOutpoints(candidates[id].tx)
  }

  /** The candidates of a round: fresh, not forged, each spending a wanted output. */
  ghost predicate Proper(w: World, candidates: Candidates, done: set<Bytes32>, wanted: set<Outpoint>,
                         found: set<Outpoint>) {
    KeyedById(candidates) && candidates.Keys !! done
    && (forall op :: op in found <==> op in wanted && SpentByOne(candidates, op))
    && forall id :: id in candidates ==> Vetted({w}, candidates[id])
  }

  /** A page of the round has the transaction. */
  ghost predicate Served(w: World, round: nat, rt: RestTx) {
    exists a, n :: OnPages(w, round, a, n, rt)
  }

  /** In this round the node called a transaction of this id, as served, forged. */
  ghost predicate RefusedAt(w: World, round: nat, id: Bytes32) {
    exists rt :: Served(w, round, rt) && rt.tx.id == id && w.verdict(round, rt) == Forged
  }

  /** The address's history was read, to its end, to the page limit, or until each of `outputs` had a
      spender in it; and the id of every transaction read that spends one of `outputs` is in `taken`. */
  ghost predicate Searched(w: World, round: nat, address: Bytes, outputs: set<Outpoint>, taken: set<Bytes32>) {
    exists pages ::
      ReadEnough(w, round, address, outputs, pages)
      && forall rt :: OnPages(w, round, address, pages, rt) && InputOutpoints(rt.tx) * outputs != {} ==>
          rt.tx.id in taken
  }

  ghost predicate ReadEnough(w: World, round: nat, address: Bytes, outputs: set<Outpoint>, pages: nat) {
    pages <= MAX_PAGES && (forall k :: 0 <= k < pages ==> w.page(round, address, k).Some?)
    && (pages == MAX_PAGES
        || (0 < pages && w.page(round, address, pages - 1).value.rows < PAGE)
        || forall op :: op in outputs ==> exists rt ::
            OnPages(w, round, address, pages, rt) && op in InputOutpoints(rt.tx))
  }

  lemma HistorySearched(w: World, round: nat, address: Bytes, outputs: set<Outpoint>, pages: nat, history: seq<RestTx>,
                        taken: set<Bytes32>)
    requires pages <= MAX_PAGES && Listed(w, round, address, outputs, pages, history)
    requires pages == MAX_PAGES || outputs <= SpentBy(history)
             || (0 < pages && w.page(round, address, pages - 1).value.rows < PAGE)
    requires forall rt :: rt in history ==> OnPages(w, round, address, pages, rt) && rt.tx.id in taken
    ensures Searched(w, round, address, outputs, taken)
  {
    hide InputOutpoints;
    forall op | op in outputs && outputs <= SpentBy(history)
      ensures exists rt :: OnPages(w, round, address, pages, rt) && op in InputOutpoints(rt.tx)
    {
      SpenderOf(history, op);
    }
    assert ReadEnough(w, round, address, outputs, pages);
    forall rt | OnPages(w, round, address, pages, rt) && InputOutpoints(rt.tx) * outputs != {}
        ensures rt.tx.id in taken {
      var k :| 0 <= k < pages && w.page(round, address, k).Some? && rt in w.page(round, address, k).value.txs;
      assert SpendersIn(w.page(round, address, k).value.txs, outputs, history);
    }
  }

  lemma SpenderOf(txs: seq<RestTx>, op: Outpoint)
    requires op in SpentBy(txs)
    ensures exists rt :: rt in txs && op in InputOutpoints(rt.tx)
  {
  }

  lemma SearchedMore(w: World, round: nat, address: Bytes, outputs: set<Outpoint>, taken: set<Bytes32>,
                     more: set<Bytes32>)
    requires Searched(w, round, address, outputs, taken) && taken <= more
    ensures Searched(w, round, address, outputs, more)
  {
    hide InputOutpoints, ReadEnough, OnPages;
  }

  /** Look up the spenders of the wanted outputs, address by address: every transaction read that spends
      one of an address's is applied already, a candidate, or set aside as forged. */
  method Gather(w: World, round: nat, wantedAt: map<Bytes, set<Outpoint>>, wanted: set<Outpoint>, done: set<Bytes32>,
                rejectedIds: set<Bytes32>, report: Report)
    returns (ok: bool, candidates: Candidates, found: set<Outpoint>, rejectedIds': set<Bytes32>)
    modifies report`unverified, report`rejected
    ensures ok ==> Proper(w, candidates, done, wanted, found)
    ensures report.rejected - old(report.rejected) == |rejectedIds'| - |rejectedIds|
    ensures ok ==> forall a :: a in wantedAt ==>
                     Searched(w, round, a, wantedAt[a], done + candidates.Keys + rejectedIds')
    ensures forall id :: id in candidates ==> Served(w, round, candidates[id])
    ensures forall id :: id in rejectedIds' ==> id in rejectedIds || RefusedAt(w, round, id)
    ensures !ok ==> PageFailed(w, round)
  {
    hide Proper, Searched, Served, Listed, OnPages, SpentBy, InputOutpoints, DistinctIds;
    candidates, found, rejectedIds' := map[], {}, rejectedIds;
    NoCandidates(w, candidates, done, wanted);
    var addresses := wantedAt.Keys;
    while addresses != {}
      invariant addresses <= wantedAt.Keys
      invariant Proper(w, candidates, done, wanted, found)
      invariant report.rejected - old(report.rejected) == |rejectedIds'| - |rejectedIds|
      invariant forall a :: a in wantedAt && a !in addresses ==>
                  Searched(w, round, a, wantedAt[a], done + candidates.Keys + rejectedIds')
      invariant forall id :: id in candidates ==> Served(w, round, candidates[id])
      invariant forall id :: id in rejectedIds' ==> id in rejectedIds || RefusedAt(w, round, id)
    {
      var a :| a in addresses;
      var history, pages := AddressHistory(w, round, a, wantedAt[a]);
      if history.None? {
        return false, candidates, found, rejectedIds';
      }
      PagesServe(w, round, a, pages, history.value);
      ghost var taken := done + candidates.Keys + rejectedIds';
      candidates, found, rejectedIds' :=
        Consider(w, round, history.value, wanted, done, candidates, found, rejectedIds', report);
      ghost var more := done + candidates.Keys + rejectedIds';
      HistorySearched(w, round, a, wantedAt[a], pages, history.value, more);
      forall b | b in wantedAt && b !in addresses ensures Searched(w, round, b, wantedAt[b], more) {
        SearchedMore(w, round, b, wantedAt[b], taken, more);
      }
      addresses := addresses - {a};
    }
    ok := true;
  }

  lemma ProperIsKeyed(w: World, candidates: Candidates, done: set<Bytes32>, wanted: set<Outpoint>, found: set<Outpoint>)
    requires Proper(w, candidates, done, wanted, found)
    ensures KeyedById(candidates)
  {
  }

  lemma NoCandidates(w: World, candidates: Candidates, done: set<Bytes32>, wanted: set<Outpoint>)
    requires candidates == map[]
    ensures Proper(w, candidates, done, wanted, {})
  {
  }

  lemma PagesServe(w: World, round: nat, address: Bytes, pages: nat, txs: seq<RestTx>)
    requires forall rt :: rt in txs ==> OnPages(w, round, address, pages, rt)
    ensures forall rt :: rt in txs ==> Served(w, round, rt)
  {
    hide OnPages;
  }

  /** One address's history: forged transactions are set aside, the others become candidates. */
  method Consider(w: World, round: nat, history: seq<RestTx>, wanted: set<Outpoint>, done: set<Bytes32>,
                  candidates: Candidates, found: set<Outpoint>, rejectedIds: set<Bytes32>, report: Report)
    returns (candidates': Candidates, found': set<Outpoint>, rejectedIds': set<Bytes32>)
    requires Proper(w, candidates, done, wanted, found)
    requires forall rt :: rt in history ==> Served(w, round, rt)
    requires forall id :: id in candidates ==> Served(w, round, candidates[id])
    modifies report`unverified, report`rejected
    ensures Proper(w, candidates', done, wanted, found')
    ensures report.rejected - old(report.rejected) == |rejectedIds'| - |rejectedIds|
    ensures candidates.Keys <= candidates'.Keys && rejectedIds <= rejectedIds'
    ensures forall rt :: rt in history ==> rt.tx.id in done || rt.tx.id in candidates' || rt.tx.id in rejectedIds'
    ensures forall id :: id in candidates' ==> Served(w, round, candidates'[id])
    ensures forall id :: id in rejectedIds' ==> id in rejectedIds || RefusedAt(w, round, id)
  {
    hide InputOutpoints, Served, Vetted, Proper;
    candidates', found', rejectedIds' := candidates, found, rejectedIds;
    for i := 0 to |history|
      invariant Proper(w, candidates', done, wanted, found')
      invariant report.rejected - old(report.rejected) == |rejectedIds'| - |rejectedIds|
      invariant candidates.Keys <= candidates'.Keys && rejectedIds <= rejectedIds'
      invariant forall j :: 0 <= j < i ==>
                  history[j].tx.id in done || history[j].tx.id in candidates' || history[j].tx.id in rejectedIds'
      invariant forall id :: id in candidates' ==> Served(w, round, candidates'[id])
      invariant forall id :: id in rejectedIds' ==> id in rejectedIds || RefusedAt(w, round, id)
    {
      var rt := history[i];
      if rt.tx.id in done || rt.tx.id in rejectedIds' || rt.tx.id in candidates' {
        continue;
      }
      var verdict := w.verdict(round, rt);
      if verdict == Forged {
        rejectedIds' := rejectedIds' + {rt.tx.id};
        report.rejected := report.rejected + 1;
        continue;
      }
      if verdict == Unverifiable {
        report.unverified := report.unverified + 1;
      }
      OneMoreCandidate(w, round, candidates', done, wanted, found', rt, candidates'[rt.tx.id := rt]);
      found' := found' + InputOutpoints(rt.tx) * wanted;
      candidates' := candidates'[rt.tx.id := rt];
    }
  }

  lemma OneMoreCandidate(w: World, round: nat, candidates: Candidates, done: set<Bytes32>, wanted: set<Outpoint>,
                         found: set<Outpoint>, rt: RestTx, more: Candidates)
    requires Proper(w, candidates, done, wanted, found) && w.verdict(round, rt) != Forged
    requires rt.tx.id !in done && rt.tx.id !in candidates && more == candidates[rt.tx.id := rt]
    ensures Proper(w, more, done, wanted, found + InputOutpoints(rt.tx) * wanted)
  {
    hide InputOutpoints;
    assert Vetted({w}, rt);
    assert rt.tx.id in more && more[rt.tx.id] == rt;
    forall op ensures SpentByOne(more, op) <==> SpentByOne(candidates, op) || op in InputOutpoints(rt.tx) {
      if SpentByOne(candidates, op) {
        var id :| id in candidates && op in InputOutpoints(candidates[id].tx);
        assert id in more && more[id] == candidates[id];
      }
    }
  }

  /** What is known of the transactions still to be applied. */
  ghost predicate Waiting(w: World, pending: seq<RestTx>, order: seq<RestTx>) {
    DistinctIds(pending) && (forall rt :: rt in pending ==> Vetted({w}, rt))
    && forall a, b :: a in pending && b in order ==> a.tx.id != b.tx.id
  }

  lemma OneLessWaiting(w: World, before: seq<RestTx>, rt: RestTx, after: seq<RestTx>, order: seq<RestTx>)
    requires Waiting(w, before + [rt] + after, order) && DistinctIds(order)
    ensures Waiting(w, before + after, order + [rt]) && DistinctIds(order + [rt]) && Vetted({w}, rt)
  {
    hide Vetted;
    var all, less := before + [rt] + after, before + after;
    assert all[|before|] == rt && rt in all;
    assert forall i :: 0 <= i < |less| ==> less[i] == all[if i < |before| then i else i + 1];
  }

  /** One pass over the pending transactions: those that are ready are applied, in order. */
  method ApplyPass(w: World, t: Templates, reg: Registry, report: Report, pending: seq<RestTx>)
      returns (rest: seq<RestTx>)
    requires report.Valid() && Waiting(w, pending, report.order)
    modifies reg, report`applied, report`order
    ensures report.Valid() && Waiting(w, rest, report.order)
    ensures Extends(t, {w}, old(reg.State()), old(report.order), reg.State(), report.order)
    ensures |rest| <= |pending| && |report.order| - |old(report.order)| + |rest| == |pending|
    ensures |rest| == |pending| ==>
              reg.State() == old(reg.State()) && rest == pending && forall rt :: rt in rest ==> !Ready(t, reg.utxos, rt)
  {
    hide Ready, Ingest.Apply, Vetted, Extends, Waiting, DistinctIds;
    ghost var r0, o0 := reg.State(), report.order;
    rest := [];
    ExtendsNothing(t, {w}, r0, o0);
    assert rest + pending[0..] == pending;
    for i := 0 to |pending|
      invariant report.Valid() && Waiting(w, rest + pending[i..], report.order)
      invariant Extends(t, {w}, r0, o0, reg.State(), report.order)
      invariant |report.order| - |o0| + |rest| == i
      invariant |rest| <= i && (|rest| == i ==>
                                  reg.State() == r0 && rest == pending[..i]
                                  && forall rt :: rt in rest ==> !Ready(t, reg.utxos, rt))
    {
      var rt := pending[i];
      assert rest + pending[i..] == rest + [rt] + pending[i + 1..];
      if !Ready(t, reg.utxos, rt) {
        rest := rest + [rt];
      } else {
        OneLessWaiting(w, rest, rt, pending[i + 1..], report.order);
        ExtendsByOne(t, {w}, r0, o0, reg.State(), report.order, rt);
        reg.Apply(t, rt.tx);
        report.applied := report.applied + [rt.tx];
        report.order := report.order + [rt];
      }
    }
    assert rest + pending[|pending|..] == rest && pending[..|pending|] == pending;
  }

  /** Passes until none makes progress, so one transaction can make the next one ready. */
  method ApplyReady(w: World, t: Templates, reg: Registry, report: Report, candidates: seq<RestTx>)
      returns (pending: seq<RestTx>)
    requires report.Valid() && Waiting(w, candidates, report.order)
    modifies reg, report`applied, report`order
    ensures report.Valid()
    ensures Extends(t, {w}, old(reg.State()), old(report.order), reg.State(), report.order)
    ensures |pending| <= |candidates|
    ensures |pending| == |candidates| ==> reg.State() == old(reg.State()) && pending == candidates
    ensures |report.order| - |old(report.order)| + |pending| == |candidates|
    ensures forall rt :: rt in pending ==> !Ready(t, reg.utxos, rt)
  {
    hide Ready, Ingest.Apply, Vetted, Extends, Waiting, DistinctIds;
    ghost var r0, o0 := reg.State(), report.order;
    pending := candidates;
    ExtendsNothing(t, {w}, r0, o0);
    while true
      invariant report.Valid() && Waiting(w, pending, report.order)
      invariant Extends(t, {w}, r0, o0, reg.State(), report.order)
      invariant |report.order| - |o0| + |pending| == |candidates|
      invariant |pending| <= |candidates| && (|pending| == |candidates| ==> reg.State() == r0 && pending == candidates)
      decreases |pending|
    {
      ghost var r1, o1 := reg.State(), report.order;
      var rest := ApplyPass(w, t, reg, report, pending);
      ExtendsFurther(t, {w}, {w}, r0, o0, r1, o1, reg.State(), report.order);
      assert {w} + {w} == {w};
      var progressed := |rest| < |pending|;
      pending := rest;
      if !progressed || pending == [] {
        break;
      }
    }
  }

  // ------------------------------------------------------------------ the walk --

  /** The wanted (spent) outputs of each address. */
  function WantedAt(filed: map<Bytes, set<Outpoint>>, live: set<Outpoint>): map<Bytes, set<Outpoint>> {
    map a | a in filed && filed[a] - live != {} :: filed[a] - live
  }

  /** The tracked outputs at an address that the node no longer has. */
  function SpentAt(w: World, t: Templates, utxos: Utxos, live: set<Outpoint>, address: Bytes): set<Outpoint> {
    set op | op in utxos && op !in live && w.address(ScriptOf(t, utxos[op])) == Some(address)
  }

  /** For each tracked output the node no longer has, the history of its own address was searched for the
      spenders of all such outputs there. */
  ghost predicate LookedFor(w: World, t: Templates, round: nat, utxos: Utxos, live: set<Outpoint>,
                            taken: set<Bytes32>) {
    forall op :: op in utxos && op !in live ==>
      var a := w.address(ScriptOf(t, utxos[op]));
      a.Some? && Searched(w, round, a.value, SpentAt(w, t, utxos, live, a.value), taken)
  }

  lemma WantedIsSpent(w: World, t: Templates, utxos: Utxos, filed: map<Bytes, set<Outpoint>>, live: set<Outpoint>,
                      round: nat, taken: set<Bytes32>)
    requires FiledRight(w, t, utxos, utxos.Keys, filed)
    requires forall a :: a in WantedAt(filed, live) ==> Searched(w, round, a, WantedAt(filed, live)[a], taken)
    ensures LookedFor(w, t, round, utxos, live, taken)
  {
    hide ScriptOf, Searched;
    forall op | op in utxos && op !in live
      ensures var a := w.address(ScriptOf(t, utxos[op]));
              a.Some? && Searched(w, round, a.value, SpentAt(w, t, utxos, live, a.value), taken)
    {
      var a := w.address(ScriptOf(t, utxos[op])).value;
      assert op in filed[a] - live;
      assert a in WantedAt(filed, live);
      forall o ensures o in filed[a] - live <==> o in SpentAt(w, t, utxos, live, a) {
        assert o in filed[a] ==> AddressedTo(w, t, utxos, o, a);
      }
      assert filed[a] - live == SpentAt(w, t, utxos, live, a);
    }
  }

  /** A transaction of this id was served, not forged, and is not ready. */
  ghost predicate Waits(w: World, t: Templates, round: nat, utxos: Utxos, id: Bytes32) {
    exists rt :: Served(w, round, rt) && rt.tx.id == id && !Ready(t, utxos, rt)
  }

  ghost predicate Refused(w: World, last: nat, id: Bytes32) {
    exists k :: 0 <= k <= last && RefusedAt(w, k, id)
  }

  ghost predicate AllSettled(w: World, t: Templates, last: nat, utxos: Utxos, applied: set<Bytes32>,
                             taken: set<Bytes32>) {
    forall id :: id in taken ==> id in applied || Refused(w, last, id) || Waits(w, t, last, utxos, id)
  }

  /** Nothing that could still be applied was passed over: every spender the last round read of an output
      the node no longer has is applied already, was called forged, or waits for another transaction. */
  ghost predicate Stuck(w: World, t: Templates, last: nat, utxos: Utxos, applied: set<Bytes32>)
    requires w.unspent(last).Some?
  {
    exists taken ::
      LookedFor(w, t, last, utxos, w.unspent(last).value, taken)
      && AllSettled(w, t, last, utxos, applied, taken)
  }

  /** The REST API serves one transaction under an id. */
  ghost predicate OneVersion(w: World) {
    forall j, k, a, b :: Served(w, j, a) && Served(w, k, b) && a.tx.id == b.tx.id ==> a == b
  }

  /** A walk that ends with something unresolved leaves, among the pages it read of the address of a tracked
      output that is spent, no spender of it that is ready, not applied, and was never called forged. */
  lemma NoneReadyIsLeft(w: World, t: Templates, last: nat, utxos: Utxos, applied: set<Bytes32>, op: Outpoint)
    returns (address: Bytes, pages: nat)
    requires w.unspent(last).Some? && Stuck(w, t, last, utxos, applied) && OneVersion(w)
    requires op in utxos && op !in w.unspent(last).value
    ensures w.address(ScriptOf(t, utxos[op])) == Some(address)
    ensures pages <= 100 && forall k :: 0 <= k < pages ==> w.page(last, address, k).Some?
    ensures pages == 100 || (0 < pages && w.page(last, address, pages - 1).value.rows < 50)
            || forall o :: o in utxos && o !in w.unspent(last).value && w.address(ScriptOf(t,
                                                                                           utxos[o])) == Some(address)
                           ==> SpenderRead(w, last, address, pages, o)
    ensures forall k, rt, x :: 0 <= k < pages && rt in w.page(last, address, k).value.txs
                               && x in rt.tx.inputs && x.previous == op && Ready(t, utxos, rt)
                               ==> rt.tx.id in applied || exists j :: 0 <= j <= last && w.verdict(j, rt) == Forged
  {
    hide ScriptOf, Ready, SpenderRead, Searched, ReadEnough, OnPages, InputOutpoints, OneVersion, AllSettled;
    var live := w.unspent(last).value;
    var taken :| LookedFor(w, t, last, utxos, live, taken) && AllSettled(w, t, last, utxos, applied, taken);
    address := w.address(ScriptOf(t, utxos[op])).value;
    var outputs := SpentAt(w, t, utxos, live, address);
    pages := ReadPages(w, last, address, outputs, taken);
    EnoughIsRead(w, last, address, outputs, pages);
    forall k, rt, x | 0 <= k < pages && rt in w.page(last, address, k).value.txs && x in rt.tx.inputs
                      && x.previous == op && Ready(t, utxos, rt) && rt.tx.id !in applied
      ensures exists j :: 0 <= j <= last && w.verdict(j, rt) == Forged
    {
      SpenderSettled(w, t, last, utxos, applied, outputs, taken, address, pages, op, k, rt, x);
    }
  }

  /** The first `pages` pages have a transaction that spends the output. */
  ghost predicate SpenderRead(w: World, round: nat, address: Bytes, pages: nat, op: Outpoint) {
    exists k, rt, x :: 0 <= k < pages && w.page(round, address, k).Some?
                       && rt in w.page(round, address, k).value.txs && x in rt.tx.inputs && x.previous == op
  }

  lemma EnoughIsRead(w: World, round: nat, address: Bytes, outputs: set<Outpoint>, pages: nat)
    requires ReadEnough(w, round, address, outputs, pages)
    ensures pages <= 100 && forall k :: 0 <= k < pages ==> w.page(round, address, k).Some?
    ensures pages == 100 || (0 < pages && w.page(round, address, pages - 1).value.rows < 50)
            || forall o :: o in outputs ==> SpenderRead(w, round, address, pages, o)
  {
    if pages != 100 && !(0 < pages && w.page(round, address, pages - 1).value.rows < 50) {
      forall o | o in outputs ensures SpenderRead(w, round, address, pages, o) {
        var rt :| OnPages(w, round, address, pages, rt) && o in InputOutpoints(rt.tx);
        var x :| x in rt.tx.inputs && x.previous == o;
      }
    }
  }

  lemma SpenderSettled(w: World, t: Templates, last: nat, utxos: Utxos, applied: set<Bytes32>, outputs: set<Outpoint>,
                       taken: set<Bytes32>, address: Bytes, pages: nat, op: Outpoint, k: nat, rt: RestTx, x: TxInput)
    requires AllSettled(w, t, last, utxos, applied, taken) && OneVersion(w) && op in outputs
    requires forall r :: OnPages(w, last, address, pages, r) && InputOutpoints(r.tx) * outputs != {} ==>
        r.tx.id in taken
    requires k < pages && w.page(last, address, k).Some? && rt in w.page(last, address, k).value.txs
    requires x in rt.tx.inputs && x.previous == op && Ready(t, utxos, rt)
    ensures rt.tx.id in applied || exists j :: 0 <= j <= last && w.verdict(j, rt) == Forged
  {
    hide Ready, OneVersion, Refused;
    assert OnPages(w, last, address, pages, rt) && Served(w, last, rt);
    assert op in InputOutpoints(rt.tx) * outputs;
    if Waits(w, t, last, utxos, rt.tx.id) {
      OneServed(w, t, last, utxos, rt);
    } else if rt.tx.id !in applied {
      RefusedIsForged(w, last, rt);
    }
  }

  lemma OneServed(w: World, t: Templates, last: nat, utxos: Utxos, rt: RestTx)
    requires OneVersion(w) && Served(w, last, rt) && Ready(t, utxos, rt)
    ensures !Waits(w, t, last, utxos, rt.tx.id)
  {
    hide Served, Ready;
  }

  lemma ReadPages(w: World, round: nat, address: Bytes, outputs: set<Outpoint>, taken: set<Bytes32>)
      returns (pages: nat)
    requires Searched(w, round, address, outputs, taken)
    ensures ReadEnough(w, round, address, outputs, pages)
    ensures forall rt :: OnPages(w, round, address, pages, rt) && InputOutpoints(rt.tx) * outputs != {} ==>
        rt.tx.id in taken
  {
    hide ReadEnough, OnPages, InputOutpoints;
    pages :| ReadEnough(w, round, address, outputs, pages)
             && forall rt :: OnPages(w, round, address, pages, rt) && InputOutpoints(rt.tx) * outputs != {} ==>
                  rt.tx.id in taken;
  }

  lemma RefusedIsForged(w: World, last: nat, rt: RestTx)
    requires OneVersion(w) && Served(w, last, rt)
    ensures Refused(w, last, rt.tx.id) ==> exists j :: 0 <= j <= last && w.verdict(j, rt) == Forged
  {
    hide Served;
  }

  /** Each of these ids was called forged in a round before this one. */
  ghost predicate RefusedBefore(w: World, round: nat, ids: set<Bytes32>) {
    forall id :: id in ids ==> exists k :: 0 <= k < round && RefusedAt(w, k, id)
  }

  lemma NoneRefused(w: World)
    ensures RefusedBefore(w, 0, {})
  {
  }

  lemma RefusedSoFar(w: World, round: nat, before: set<Bytes32>, ids: set<Bytes32>)
    requires RefusedBefore(w, round, before) && forall id :: id in ids ==> id in before || RefusedAt(w, round, id)
    ensures RefusedBefore(w, round + 1, ids) && forall id :: id in ids ==> Refused(w, round, id)
  {
    hide RefusedAt;
  }

  /** What the search knows of the transactions it took in: applied, called forged, or served in this
      round and waiting. */
  ghost predicate Told(w: World, round: nat, applied: set<Bytes32>, pending: seq<RestTx>, taken: set<Bytes32>) {
    forall id :: id in taken ==>
      id in applied || Refused(w, round, id) || exists rt :: rt in pending && Served(w, round, rt) && rt.tx.id == id
  }

  /** One round's search for the spenders of what the node no longer has. */
  method Search(w: World, t: Templates, round: nat, utxos: Utxos, filed: map<Bytes, set<Outpoint>>, live: set<Outpoint>,
                rejectedIds: set<Bytes32>, report: Report)
    returns (ok: bool, pending: seq<RestTx>, missing: nat, rejectedIds': set<Bytes32>, ghost taken: set<Bytes32>)
    requires report.Valid() && FiledRight(w, t, utxos, utxos.Keys, filed) && utxos.Keys - live != {}
    requires RefusedBefore(w, round, rejectedIds)
    modifies report`unverified, report`rejected
    ensures report.Valid()
    ensures !ok ==> PageFailed(w, round)
    ensures ok ==> RefusedBefore(w, round + 1, rejectedIds') && Waiting(w, pending, report.order)
                   && LookedFor(w, t, round, utxos, live, taken)
                   && Told(w, round, IdsOf(report.applied), pending, taken)
                   && (missing == 0 ==> pending != [])
  {
    hide Proper, Searched, Served, FiledRight, PageFailed, RefusedAt, WantedAt, ScriptOf, LookedFor, Vetted,
        DistinctIds,
        InOrder, FirstDiffers, Waiting, Refused, RefusedBefore;
    var spent, done := utxos.Keys - live, IdsOf(report.applied);
    var candidates, found;
    pending, missing, taken := [], 0, {};
    ok, candidates, found, rejectedIds' := Gather(w, round, WantedAt(filed, live), spent, done, rejectedIds, report);
    if !ok {
      return;
    }
    RefusedSoFar(w, round, rejectedIds, rejectedIds');
    taken := done + candidates.Keys + rejectedIds';
    WantedIsSpent(w, t, utxos, filed, live, round, taken);
    assert KeyedById(candidates) by { ProperIsKeyed(w, candidates, done, spent, found); }
    pending := Sorted(candidates);
    CandidatesWait(w, candidates, done, spent, found, pending, report);
    missing := |spent - found|;
    StoppedShort(w, candidates, done, spent, found, pending);
    forall id | id in candidates ensures exists rt :: rt in pending && Served(w, round, rt) && rt.tx.id == id {
      assert candidates[id] in pending;
    }
  }

  ghost predicate PageFailed(w: World, round: nat) {
    exists address, k: nat :: k < 100 && w.page(round, address, k).None?
  }

  /** Something the round needed could not be had: the address of a tracked output, the node's answer, or
      one of the first 100 pages of some history. */
  ghost predicate CutOff(w: World, t: Templates, round: nat, utxos: Utxos) {
    w.unspent(round).None? || (exists op :: op in utxos && w.address(ScriptOf(t, utxos[op])).None?)
    || PageFailed(w, round)
  }

  /** One walk. When it succeeds, nothing is unresolved exactly when the node's last answer had
      every tracked output unspent, and otherwise nothing it could have applied is left. It fails only
      when cut off, or after 512 rounds that each applied a transaction. */
  method Walk(w: World, t: Templates, reg: Registry, report: Report) returns (ok: bool, last: nat)
    requires report.Valid()
    modifies reg, report
    ensures report.Valid() && Extends(t, {w}, old(reg.State()), old(report.order), reg.State(), report.order)
    ensures ok ==> last < 512 && w.unspent(last).Some?
                   && (report.unresolved == 0 <==> reg.utxos.Keys <= w.unspent(last).value)
    ensures ok && report.unresolved != 0 ==>
              Stuck(w, t, last, reg.utxos, IdsOf(report.applied))
    ensures !ok ==> if last < 512 then
        CutOff(w, t, last, reg.utxos) else last == 512 && |report.order| >= |old(report.order)| + 512
  {
    hide PageFailed, Stuck, ScriptOf, Ready, Ingest.Apply, Extends, Waiting, DistinctIds, FiledRight, LookedFor, Told,
        RefusedBefore;
    ghost var r0, o0 := reg.State(), report.order;
    ExtendsNothing(t, {w}, r0, o0);
    var rejectedIds: set<Bytes32> := {};
    NoneRefused(w);
    report.unresolved := 0;
    for round := 0 to MAX_ROUNDS
      invariant report.Valid() && Extends(t, {w}, r0, o0, reg.State(), report.order)
      invariant RefusedBefore(w, round, rejectedIds)
      invariant |report.order| >= |o0| + round
    {
      report.rounds := report.rounds + 1;
      var filed := ByAddress(w, t, reg.utxos);
      if filed.None? {
        return false, round;
      }
      var live := w.unspent(round);
      if live.None? {
        return false, round;
      }
      NothingMissing(reg.utxos.Keys, live.value);
      if reg.utxos.Keys - live.value == {} {
        report.unresolved := 0;
        return true, round;
      }
      var gathered, pending, missing;
      ghost var taken;
      gathered, pending, missing, rejectedIds, taken :=
        Search(w, t, round, reg.utxos, filed.value, live.value, rejectedIds, report);
      if !gathered {
        return false, round;
      }
      report.unresolved := missing;
      ghost var r1, o1 := reg.State(), report.order;
      var count := |pending|;
      pending := ApplyReady(w, t, reg, report, pending);
      ExtendsFurther(t, {w}, {w}, r0, o0, r1, o1, reg.State(), report.order);
      assert {w} + {w} == {w};
      if |pending| == count {
        report.unresolved := report.unresolved + |pending|;
        NoneApplied(t, w, r1, o1, reg.State(), report.order);
        NothingPassedOver(w, t, round, reg.utxos, IdsOf(report.applied), pending, taken);
        return true, round;
      }
    }
    return false, MAX_ROUNDS;
  }

  lemma NoneApplied(t: Templates, w: World, r: Reg, before: seq<RestTx>, r': Reg, after: seq<RestTx>)
    requires Extends(t, {w}, r, before, r', after) && |after| == |before|
    ensures after == before
  {
  }

  lemma NothingPassedOver(w: World, t: Templates, round: nat, utxos: Utxos, applied: set<Bytes32>,
                          pending: seq<RestTx>, taken: set<Bytes32>)
    requires w.unspent(round).Some? && LookedFor(w, t, round, utxos, w.unspent(round).value, taken)
    requires Told(w, round, applied, pending, taken) && forall rt :: rt in pending ==> !Ready(t, utxos, rt)
    ensures Stuck(w, t, round, utxos, applied)
  {
    hide LookedFor, Served, Ready, Refused;
    forall id | id in taken ensures id in applied || Refused(w, round, id) || Waits(w, t, round, utxos, id) {
    }
  }

  lemma NothingMissing<T>(a: set<T>, b: set<T>)
    ensures a - b == {} <==> a <= b
  {
    assert forall x :: x in a - b <==> x in a && x !in b;
    if a - b == {} {
      assert forall x :: x in a ==> x !in a - b;
    }
  }

  lemma CandidatesWait(w: World, candidates: Candidates, done: set<Bytes32>, wanted: set<Outpoint>,
                       found: set<Outpoint>, pending: seq<RestTx>, report: Report)
    requires report.Valid() && Proper(w, candidates, done, wanted, found) && Lists(pending, candidates, candidates.Keys)
    requires done == IdsOf(report.applied)
    ensures Waiting(w, pending, report.order)
  {
    hide Vetted, DistinctIds;
    forall a, b | a in pending && b in report.order ensures a.tx.id != b.tx.id {
      var i :| 0 <= i < |report.order| && report.order[i] == b;
      assert report.applied[i] == b.tx && b.tx in report.applied;
      assert b.tx.id in done;
    }
  }

  /** A round that applied nothing leaves something unresolved: either an output without a known
      spender or a transaction still waiting. */
  lemma StoppedShort(w: World, candidates: Candidates, done: set<Bytes32>, spent: set<Outpoint>, found: set<Outpoint>,
                     pending: seq<RestTx>)
    requires Proper(w, candidates, done, spent, found) && spent != {} && (pending == [] ==> candidates == map[])
    ensures |spent - found| + |pending| > 0
  {
    if pending == [] {
      assert spent - found == spent;
    }
  }

  // ------------------------------------------------------------------ the caller --

  /** One rebuild attempt (kachat-names-follower/src/main.rs): up to four walks, resuming one another,
      and a checkpoint at the node's sink only when the last one left nothing unresolved. */
  method Attempt(worlds: seq<World>, t: Templates, f: Follower, report: Report, sink: Bytes32)
    returns (complete: bool, ghost n: nat, ghost k: nat)
    requires |worlds| == 4 && report.Valid()
    modifies f, f.registry, report
    ensures report.Valid()
    ensures Extends(t, Elements(worlds), old(f.registry.State()), old(report.order), f.registry.State(), report.order)
    ensures f.checkpoint == if complete then Some(sink) else old(f.checkpoint)
    ensures !complete ==>
              n < 4 && ((k < 512 && CutOff(worlds[n], t, k, f.registry.utxos)) || k == 512
                        || (n == 3 && worlds[n].unspent(k).Some?
                            && Stuck(worlds[n], t, k, f.registry.utxos, IdsOf(report.applied))))
    ensures complete ==> n < 4 && worlds[n].unspent(k).Some? && f.registry.utxos.Keys <= worlds[n].unspent(k).value
  {
    hide Extends, DistinctIds, Stuck, CutOff;
    ghost var r0, o0 := f.registry.State(), report.order;
    n, k := 0, 0;
    var ok := true;
    ghost var used: set<World> := {};
    ExtendsNothing(t, {}, r0, o0);
    for attempt := 0 to 4
      invariant report.Valid() && used <= Elements(worlds) && f.checkpoint == old(f.checkpoint)
      invariant Extends(t, used, r0, o0, f.registry.State(), report.order)
      invariant attempt == 0 || (ok && report.unresolved != 0 && n == attempt - 1 && worlds[n].unspent(k).Some?
                                 && Stuck(worlds[n], t, k, f.registry.utxos, IdsOf(report.applied)))
    {
      ghost var r1, o1 := f.registry.State(), report.order;
      var last;
      ok, last := Walk(worlds[attempt], t, f.registry, report);
      n, k := attempt, last;
      assert worlds[attempt] in worlds;
      ExtendsFurther(t, used, {worlds[attempt]}, r0, o0, r1, o1, f.registry.State(), report.order);
      used := used + {worlds[attempt]};
      if !ok || report.unresolved == 0 {
        break;
      }
    }
    MoreWorlds(t, used, Elements(worlds), r0, o0, f.registry.State(), report.order);
    complete := ok && report.unresolved == 0;
    if complete {
      f.checkpoint := Some(sink);
    }
  }

  lemma MoreWorlds(t: Templates, w: set<World>, v: set<World>, r: Reg, done: seq<RestTx>, r': Reg, done': seq<RestTx>)
    requires w <= v && Extends(t, w, r, done, r', done')
    ensures Extends(t, v, r, done, r', done')
  {
    hide GateRespected;
  }

  /** What the node says is unspent is not spent by any of the chain's transactions still missing. */
  ghost predicate TruthfulAnswer(live: set<Outpoint>, order: seq<RestTx>, chain: seq<RestTx>) {
    forall rt, x :: rt in chain && rt !in order && x in rt.tx.inputs ==> x.previous !in live
  }

  /** A complete rebuild is exact: it has the gaps, names and price shards the chain leaves, although
      it applied only some of the chain's transactions, and in another order. Of the chain only what
      contracts and consensus enforce is assumed. */
  lemma CompleteRebuildIsExact(t: Templates, cov: Covenants, seed: Reg, after: Reg, worlds: set<World>,
                               order: seq<RestTx>, live: set<Outpoint>, chain: seq<RestTx>)
    requires ManifestOk(t) && t.registryId.Some? && Coloured(t, cov, seed.utxos)
    requires Extends(t, worlds, seed, [], after, order) && DistinctIds(order) && after.utxos.Keys <= live
    requires (forall rt :: rt in order ==> rt in chain) && TruthfulAnswer(live, order, chain)
    requires Compatible(t, cov, seed.utxos, chain) && Lawful.LawfulChain(t, cov, seed, chain)
    ensures Core(after.utxos) == Core(Replay(t, seed, Plain(chain)).utxos)
  {
    hide Replay, GateRespected, Compatible, ManifestOk, Core, Lawful.LawfulChain;
    assert order[0..] == order;
    assert Distinct(order);
    Lawful.LawfulRebuildMeetsChain(t, cov, seed, order, chain);
  }
}
