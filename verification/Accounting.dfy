/**
 The accounting jobs of main.py against the tables: sync_fills as the program runs it, with its two
 dictionaries, and settle_open_orders.
 */
module Accounting {
  import opened Wrappers
  import opened Ledger
  import opened LedgerRuns
  import opened LedgerTables
  import opened Settling
  import opened FillSync
  import opened Text

  // ---------------------------------------------------------------- sync_fills

  /** Looking up a ticker in the dictionary of unresolved rows. */
  function Get(unresolved: map<Ticker, seq<nat>>, ticker: Ticker): seq<nat> {
    if ticker in unresolved then unresolved[ticker] else []
  }

  ghost predicate UpToDate(unresolved: map<Ticker, seq<nat>>, l: LedgerState) {
    forall t :: Get(unresolved, t) == Waiting(l, t)
  }

  /** `unresolved_orders_by_ticker` */
  method UnresolvedOrdersByTicker(orders: seq<OrderRow>) returns (out: map<Ticker, seq<nat>>)
    ensures forall t :: Get(out, t) == WaitingBelow(orders, t, |orders|)
  {
    out := map[];
    var i := 0;
    while i < |orders|
      invariant i <= |orders|
      invariant forall t :: Get(out, t) == WaitingBelow(orders, t, i)
    {
      var row := orders[i];
      if IsUnresolved(row.outcome) && row.orderId.None? {
        out := out[row.ticker := Get(out, row.ticker) + [i]];
      }
      i := i + 1;
    }
  }

  /** The grouping of the fills by order id. */
  method GroupByOrder(fills: seq<FillRecord>) returns (keys: seq<OrderId>, byOrder: map<OrderId, seq<FillRecord>>)
    ensures keys == OrdersIn(fills)
    ensures forall oid :: oid in byOrder <==> oid in keys
    ensures forall oid :: oid in byOrder ==> byOrder[oid] == FillsUnder(fills, oid)
  {
    keys, byOrder := [], map[];
    var i := 0;
    while i < |fills|
      invariant i <= |fills|
      invariant keys == OrdersIn(fills[..i])
      invariant forall oid :: oid in byOrder <==> oid in keys
      invariant forall oid: OrderId :: FillsUnder(fills[..i], oid) == if oid in byOrder then byOrder[oid] else []
    {
      var (before, f) := (fills[..i], fills[i]);
      assert fills[..i + 1][..i] == before && fills[..i + 1][i] == f;
      i := i + 1;
      if IsNba(f) {
        var oid := f.fill.orderId.value;
        if oid !in byOrder {
          keys, byOrder := keys + [oid], byOrder[oid := []];
        }
        byOrder := byOrder[oid := byOrder[oid] + [f]];
      }
    }
    assert fills[..|fills|] == fills;
  }

  lemma {:induction false} WaitingSame(orders: seq<OrderRow>, orders': seq<OrderRow>, ticker: Ticker, n: nat)
    requires n <= |orders| && n <= |orders'|
    requires forall i :: 0 <= i < n ==> (WaitsFor(orders[i], ticker) <==> WaitsFor(orders'[i], ticker))
    ensures WaitingBelow(orders, ticker, n) == WaitingBelow(orders', ticker, n)
  {
    if n > 0 { WaitingSame(orders, orders', ticker, n - 1); }
  }

  /** Taking the first waiting row out of the queue. */
  lemma {:induction false} WaitingPops(orders: seq<OrderRow>, orders': seq<OrderRow>, ticker: Ticker, n: nat)
    requires n <= |orders| == |orders'| && WaitingBelow(orders, ticker, n) != []
    requires var pk := WaitingBelow(orders, ticker, n)[0];
             !WaitsFor(orders'[pk], ticker) && forall i :: 0 <= i < n && i != pk ==> orders'[i] == orders[i]
    ensures WaitingBelow(orders', ticker, n) == WaitingBelow(orders, ticker, n)[1..]
  {
    var front := WaitingBelow(orders, ticker, n - 1);
    if front == [] {
      WaitingSame(orders, orders', ticker, n - 1);
    } else {
      WaitingPops(orders, orders', ticker, n - 1);
    }
  }

  /** After a row took an id, its ticker's queue is shorter by its head; every other queue is as before. */
  lemma QueuesAfterApply(l: LedgerState, ticker: Ticker, row': OrderRow, t: Ticker)
    requires Waiting(l, ticker) != [] && row'.ticker == ticker && row'.orderId.Some?
    ensures var pk := Waiting(l, ticker)[0];
            Waiting(l.(orders := l.orders[pk := row']), t) == if t == ticker then Waiting(l, t)[1..] else Waiting(l, t)
  {
    var pk := Waiting(l, ticker)[0];
    if t == ticker {
      WaitingPops(l.orders, l.orders[pk := row'], ticker, |l.orders|);
    } else {
      WaitingSame(l.orders, l.orders[pk := row'], t, |l.orders|);
    }
  }

  lemma QueuesAfterAttach(l: LedgerState, pk: nat, oid: OrderId, t: Ticker)
    ensures Waiting(AttachOrderId(l, pk, oid).0, t) == Waiting(l, t)
  {
    WaitingSame(l.orders, AttachOrderId(l, pk, oid).0.orders, t, |l.orders|);
  }

  lemma QueuesAfterAdopt(l: LedgerState, ticker: Ticker, oid: OrderId, count: int, avg: Option<real>, limit: int,
      t: Ticker)
    ensures Waiting(AdoptOrder(l, ticker, Some(oid), count, avg, limit, 0).0, t) == Waiting(l, t)
  {
    var l' := AdoptOrder(l, ticker, Some(oid), count, avg, limit, 0).0;
    WaitingSame(l.orders, l'.orders, t, |l.orders|);
  }

  /** The body of the loop over `by_order`. */
  method AttributeOne(db: LedgerDb, unresolved: map<Ticker, seq<nat>>, oid: OrderId, fs: seq<FillRecord>, adopt: bool)
    returns (raised: bool, unresolved': map<Ticker, seq<nat>>)
    requires UpToDate(unresolved, db.State()) && fs != [] && IsNba(fs[0])
    modifies db`orders
    ensures raised <==> SyncOrder(old(db.State()), oid, fs, adopt).None?
    ensures !raised ==>
              db.State() == SyncOrder(old(db.State()), oid, fs, adopt).value && UpToDate(unresolved', db.State())
    ensures raised ==> db.State() == old(db.State())
  {
    ghost var l := db.State();
    raised, unresolved' := false, unresolved;
    if FirstWithOrderId(db.State(), oid).Some? { return; }
    var ticker := fs[0].fill.ticker.value;
    var total := TotalOf(fs);
    if total <= 0 { return; }
    if !AllPriced(fs) { return true, unresolved; }
    var avg := CostOf(fs) as real / total as real;
    var pending := Get(unresolved, ticker);
    if pending != [] {
      var error := db.ApplyOrderState(pending[0], Some(oid), None, Some(total), Some(avg), Lookup);
      if error.Some? { return true, unresolved; }
      unresolved' := unresolved[ticker := pending[1..]];
      forall t ensures Get(unresolved', t) == Waiting(db.State(), t) {
        var row' := AppliedRow(l.orders[pending[0]], Some(oid), None, Some(total), Some(avg), Lookup);
        QueuesAfterApply(l, ticker, row', t);
      }
      return;
    }
    var bare := FirstBare(db.State(), ticker, 0);
    if bare.Some? {
      var attached := db.AttachOrderId(bare.value, oid);
      forall t ensures Waiting(db.State(), t) == Waiting(l, t) { QueuesAfterAttach(l, bare.value, oid, t); }
      if attached { return; }
    }
    if !adopt { return; }
    var _ := db.AdoptOrder(ticker, Some(oid), total, Some(avg), Round(avg), 0);
    forall t ensures Waiting(db.State(), t) == Waiting(l, t) {
      QueuesAfterAdopt(l, ticker, oid, total, Some(avg), Round(avg), t);
    }
  }

  /** How far the loop has come: what was done so far, and that the rest of the loop yields the result. */
  ghost predicate Underway(l: LedgerState, now: LedgerState, fills: seq<FillRecord>, todo: seq<OrderId>, adopt: bool,
                           result: Option<LedgerState>)
  {
    && Attributes(l, now)
    && (forall oid :: oid in todo ==> oid in OrdersIn(fills))
    && SyncOrders(now, fills, todo, adopt) == result
  }

  lemma {:induction false} OneMore(l: LedgerState, now: LedgerState, fills: seq<FillRecord>, todo: seq<OrderId>,
                                   adopt: bool, result: Option<LedgerState>)
    requires todo != [] && Underway(l, now, fills, todo, adopt, result)
    ensures FillsUnder(fills, todo[0]) != [] && IsNba(FillsUnder(fills, todo[0])[0])
    ensures var next := SyncOrder(now, todo[0], FillsUnder(fills, todo[0]), adopt);
            if next.None? then result.None? else Underway(l, next.value, fills, todo[1..], adopt, result)
  {
    var fs := FillsUnder(fills, todo[0]);
    FillsUnderNba(fills, todo[0]);
    assert fs[0] in fs;
    var next := SyncOrder(now, todo[0], fs, adopt);
    if next.Some? {
      SyncOrderEffect(now, todo[0], fs, adopt);
      AttributesCompose(l, now, next.value);
    }
  }

  /** `sync_fills`; when it raises half way, the orders handled so far stay handled. */
  method SyncFills(db: LedgerDb, fills: seq<FillRecord>, adopt: bool) returns (raised: bool)
    requires WellFormed(db.State())
    modifies db`orders, db`fills
    ensures raised <==> FillSync.SyncFills(old(db.State()), fills, adopt).None?
    ensures !raised ==> db.State() == FillSync.SyncFills(old(db.State()), fills, adopt).value
    ensures Attributes(old(db.State()), db.State())
  {
    ghost var l, result := db.State(), FillSync.SyncFills(db.State(), fills, adopt);
    var _ := db.UpsertFills(fills);
    SameOrdersAttributes(l, db.fills);
    var unresolved := UnresolvedOrdersByTicker(db.orders);
    var todo, byOrder := GroupByOrder(fills);
    while todo != []
      invariant Underway(l, db.State(), fills, todo, adopt, result)
      invariant UpToDate(unresolved, db.State())
      invariant forall oid :: oid in todo ==> oid in byOrder && byOrder[oid] == FillsUnder(fills, oid)
    {
      OneMore(l, db.State(), fills, todo, adopt, result);
      raised, unresolved := AttributeOne(db, unresolved, todo[0], byOrder[todo[0]], adopt);
      if raised { return; }
      todo := todo[1..];
    }
    raised := false;
  }

  // ---------------------------------------------------------------- settle_open_orders

  /** What Kalshi answers about an order; an order without an entry is one whose lookup raised. */
  datatype OrderInfo = OrderInfo(status: Option<string>, filled: Option<int>, avg: Option<real>)

  type Answers = map<OrderId, Option<OrderInfo>>

  function OrZero(n: Option<int>): int { if n.Some? then n.value else 0 }

  predicate EndedUnfilled(status: Option<string>) {
    status.Some? && Lower(status.value) in {"canceled", "cancelled", "expired"}
  }

  /** The id to ask Kalshi about; a placeholder id is not one. */
  function RealId(row: OrderRow): Option<OrderId> {
    if row.orderId.Some? && !("adopted:" <= row.orderId.value) then row.orderId else None
  }

  ghost function OpenRows(l: LedgerState): set<nat> { set pk: nat | pk < |l.orders| && Unsettled(l, pk) }

  /** The answer about a row's own order; None when there is none to ask about or Kalshi knows no such order. */
  function AnswerFor(row: OrderRow, answers: Answers): Option<OrderInfo> {
    if RealId(row).Some? && RealId(row).value in answers then answers[RealId(row).value] else None
  }

  /** The market has resolved, the fills are fresh, and the order lookup, if one is needed, did not raise. */
  predicate Asks(row: OrderRow, results: map<Ticker, bool>, answers: Answers, syncOk: bool) {
    syncOk && row.ticker in results && (RealId(row).Some? ==> RealId(row).value in answers)
  }

  /** The row after it was told its own state, which happens only when no fills are stored for it. */
  function Asked(fills: map<FillId, Fill>, row: OrderRow, answers: Answers): OrderRow {
    var od := AnswerFor(row, answers);
    if FillsFor(fills, RealId(row)) != map[] || od.None? then row
    else AppliedRow(row, RealId(row), od.value.status, od.value.filled, od.value.avg, Lookup)
  }

  /** Enough is known to book the row: all reported fills are stored, or it ended as reported. */
  ghost predicate Known(fills: map<FillId, Fill>, row: OrderRow, answers: Answers) {
    var fs := FillsFor(fills, RealId(row));
    if fs != map[] then
      AnswerFor(row, answers).Some? ==> OrZero(AnswerFor(row, answers).value.filled) <= SumOf(CountValues(fs))
    else OrZero(Asked(fills, row, answers).filled) != 0 || EndedUnfilled(Asked(fills, row, answers).status)
  }

  /** The job settles a row on its own merits. */
  ghost predicate Books(fills: map<FillId, Fill>, row: OrderRow, results: map<Ticker, bool>, answers: Answers,
                        syncOk: bool)
  {
    Asks(row, results, answers, syncOk) && Known(fills, row, answers) && AllSupported(FillsFor(fills, row.orderId))
  }

  ghost predicate Settles(l: LedgerState, pk: nat, results: map<Ticker, bool>, answers: Answers, syncOk: bool) {
    AloneOnTicker(l, pk) && Books(l.fills, l.orders[pk], results, answers, syncOk)
  }

  /** The row the job leaves behind, and the settlement it writes. */
  ghost function RowAfter(l: LedgerState, pk: nat, results: map<Ticker, bool>, answers: Answers, syncOk: bool): OrderRow
    requires pk < |l.orders|
  {
    if AloneOnTicker(l, pk) && Asks(l.orders[pk], results, answers, syncOk) then Asked(l.fills, l.orders[pk], answers)
    else l.orders[pk]
  }

  ghost function Written(l: LedgerState, pk: nat, results: map<Ticker, bool>, answers: Answers): Settlement
    requires pk < |l.orders| && l.orders[pk].ticker in results
  {
    SettlementOf(l.fills, Asked(l.fills, l.orders[pk], answers), results[l.orders[pk].ticker])
  }

  /**
   The whole effect of the job on the rows in `handled`, from the tables `l` before it: which are settled and
   how, and what every row looks like afterwards.
   */
  ghost predicate JobDone(l: LedgerState, l': LedgerState, handled: set<nat>, results: map<Ticker, bool>,
                          answers: Answers, syncOk: bool)
  {
    && l'.fills == l.fills && |l'.orders| == |l.orders|
    && (forall pk: nat :: pk < |l.orders| ==>
          l'.orders[pk] == if pk in handled then RowAfter(l, pk, results, answers, syncOk) else l.orders[pk])
    && (forall pk :: pk in l'.settlements <==>
          pk in l.settlements || (pk in handled && Settles(l, pk, results, answers, syncOk)))
    && (forall pk :: pk in l.settlements ==> l'.settlements[pk] == l.settlements[pk])
    && (forall pk :: pk in handled && pk !in l.settlements && Settles(l, pk, results, answers, syncOk) ==>
          l'.settlements[pk] == Written(l, pk, results, answers))
  }

  ghost predicate ListsOpen(l: LedgerState, pks: seq<nat>) {
    && (forall pk: nat :: pk in pks <==> Unsettled(l, pk))
    && (forall i, j :: 0 <= i < j < |pks| ==> pks[i] < pks[j])
  }

  method OpenOrders(db: LedgerDb) returns (pks: seq<nat>)
    ensures ListsOpen(db.State(), pks)
  {
    pks := [];
    var i := 0;
    while i < |db.orders|
      invariant i <= |db.orders|
      invariant forall pk: nat :: pk in pks <==> pk < i && Unsettled(db.State(), pk)
      invariant forall i, j :: 0 <= i < j < |pks| ==> pks[i] < pks[j]
    {
      if Unsettled(db.State(), i) {
        assert forall k :: 0 <= k < |pks| ==> pks[k] in pks;
        pks := pks + [i];
      }
      i := i + 1;
    }
  }

  function CountOf(tickers: seq<Ticker>, t: Ticker): nat {
    if tickers == [] then 0
    else CountOf(tickers[..|tickers| - 1], t) + if tickers[|tickers| - 1] == t then 1 else 0
  }

  lemma {:induction false} CountsOne(tickers: seq<Ticker>, a: nat)
    requires a < |tickers|
    ensures CountOf(tickers, tickers[a]) >= 1
  {
    var n := |tickers| - 1;
    if a < n { CountsOne(tickers[..n], a); }
  }

  lemma {:induction false} CountsBoth(tickers: seq<Ticker>, a: nat, b: nat)
    requires a < b < |tickers| && tickers[a] == tickers[b]
    ensures CountOf(tickers, tickers[a]) >= 2
  {
    var n := |tickers| - 1;
    if b < n { CountsBoth(tickers[..n], a, b); } else { CountsOne(tickers[..n], a); }
  }

  method CountPerTicker(tickers: seq<Ticker>) returns (perTicker: map<Ticker, nat>)
    ensures forall t :: t in tickers ==> t in perTicker
    ensures forall t :: t in perTicker ==> perTicker[t] == CountOf(tickers, t)
  {
    perTicker := map[];
    var i := 0;
    while i < |tickers|
      invariant i <= |tickers|
      invariant forall t :: t in tickers[..i] ==> t in perTicker
      invariant forall t: Ticker :: CountOf(tickers[..i], t) == if t in perTicker then perTicker[t] else 0
    {
      assert tickers[..i + 1][..i] == tickers[..i];
      var t := tickers[i];
      perTicker := perTicker[t := 1 + if t in perTicker then perTicker[t] else 0];
      i := i + 1;
    }
    assert tickers[..|tickers|] == tickers;
  }

  function StoredCount(fs: map<FillId, Fill>, ids: seq<FillId>): int
    requires forall id :: id in ids ==> id in fs
  {
    if ids == [] then 0 else StoredCount(fs, ids[..|ids| - 1]) + fs[ids[|ids| - 1]].count
  }

  lemma {:induction false} StoredCountIsSum(fs: map<FillId, Fill>, ids: seq<FillId>, i: nat)
    requires i <= |ids| && (forall a, b :: 0 <= a < b < |ids| ==> ids[a] != ids[b])
    requires forall id :: id in ids ==> id in fs
    ensures Done(ids, i) <= fs.Keys
    ensures StoredCount(fs, ids[..i]) == SumOver(Done(ids, i), CountValues(fs))
  {
    if i > 0 {
      assert ids[i - 1] in ids && ids[..i][..i - 1] == ids[..i - 1];
      StoredCountIsSum(fs, ids, i - 1);
      DoneStep(ids, i - 1, CountValues(fs));
    }
  }

  lemma AllStored(fs: map<FillId, Fill>, ids: seq<FillId>)
    requires (forall a, b :: 0 <= a < b < |ids| ==> ids[a] != ids[b]) && forall id :: id in ids <==> id in fs
    ensures StoredCount(fs, ids) == SumOf(CountValues(fs))
  {
    StoredCountIsSum(fs, ids, |ids|);
    assert ids[..|ids|] == ids;
    assert Done(ids, |ids|) == fs.Keys by {
      forall id | id in fs ensures id in Done(ids, |ids|) { assert id in ids; }
    }
    assert CountValues(fs).Keys == fs.Keys;
  }

  /** Tell the row its state if no fills are stored; true when it may be settled. */
  method ReadyToSettle(db: LedgerDb, pk: nat, answers: Answers) returns (ready: bool)
    requires pk < |db.orders| && pk !in db.settlements
    modifies db`orders
    ensures db.orders == old(db.orders)[pk := Asked(db.fills, old(db.orders)[pk], answers)]
    ensures ready <==> Known(db.fills, old(db.orders)[pk], answers)
  {
    var row := db.orders[pk];
    var (oid, od) := (RealId(row), AnswerFor(row, answers));
    var fs := FillsFor(db.fills, oid);
    var ids := db.FillsForOrder(oid);
    if ids != [] {
      assert ids[0] in fs;
      AllStored(fs, ids);
      return od.None? || OrZero(od.value.filled) <= StoredCount(fs, ids);
    }
    assert fs == map[] by { forall id ensures id !in fs { assert id in fs <==> id in ids; } }
    if od.Some? {
      var _ := db.ApplyOrderState(pk, oid, od.value.status, od.value.filled, od.value.avg, Lookup);
    }
    ready := OrZero(db.orders[pk].filled) != 0 || EndedUnfilled(db.orders[pk].status);
  }

  /** The body of the loop for one open unsettled row, once its ticker was found to have no second one. */
  method SettleOne(db: LedgerDb, pk: nat, results: map<Ticker, bool>, answers: Answers, syncOk: bool)
    requires Unsettled(db.State(), pk)
    modifies db`orders, db`settlements
    ensures var row := old(db.orders)[pk];
            db.orders == if Asks(row, results, answers, syncOk) then old(db.orders)[pk := Asked(db.fills, row, answers)]
                         else old(db.orders)
    ensures var row := old(db.orders)[pk];
            db.settlements == if Books(db.fills, row, results, answers, syncOk)
                              then old(db.settlements)[pk := SettlementOf(db.fills, Asked(db.fills, row, answers),
                                  results[row.ticker])]
                              else old(db.settlements)
  {
    var row := db.orders[pk];
    if row.ticker !in results || !syncOk { return; }
    if RealId(row).Some? && RealId(row).value !in answers { return; }
    AskedKeeps(db.fills, row, answers);
    var ready := ReadyToSettle(db, pk, answers);
    if !ready { return; }
    hide Known, SettlementOf, Asked, FillsFor, AllSupported;
    var _ := db.RecordSettlementFromFills(pk, results[row.ticker]);
  }

  lemma AskedKeeps(fills: map<FillId, Fill>, row: OrderRow, answers: Answers)
    requires IsOpen(row.outcome)
    ensures var row' := Asked(fills, row, answers);
            && row'.outcome == row.outcome && row'.ticker == row.ticker && row'.clientId == row.clientId
            && row'.orderId == row.orderId && row'.count == row.count && row'.limitPrice == row.limitPrice
  {
  }

  lemma AnotherOne(tickers: seq<Ticker>, i: nat) returns (j: nat)
    requires i < |tickers| && CountOf(tickers, tickers[i]) >= 2
    ensures j < |tickers| && j != i && tickers[j] == tickers[i]
  {
    var n := |tickers| - 1;
    if i == n {
      j := SomeOne(tickers[..n], tickers[i]);
    } else if tickers[n] == tickers[i] {
      j := n;
    } else {
      j := AnotherOne(tickers[..n], i);
    }
  }

  lemma SomeOne(tickers: seq<Ticker>, t: Ticker) returns (j: nat)
    requires CountOf(tickers, t) >= 1
    ensures j < |tickers| && tickers[j] == t
  {
    var n := |tickers| - 1;
    if tickers[n] == t { j := n; } else { j := SomeOne(tickers[..n], t); }
  }

  /** The per-ticker count of the job decides whether a row is the only open one on its ticker. */
  lemma CountedOnceIsAlone(l: LedgerState, pks: seq<nat>, tickers: seq<Ticker>, i: nat)
    requires ListsOpen(l, pks) && |tickers| == |pks| && i < |pks|
    requires forall k :: 0 <= k < |pks| ==> pks[k] < |l.orders| && tickers[k] == l.orders[pks[k]].ticker
    ensures CountOf(tickers, tickers[i]) <= 1 <==> AloneOnTicker(l, pks[i])
  {
    assert pks[i] in pks;
    if CountOf(tickers, tickers[i]) <= 1 {
      forall j: nat | Unsettled(l, j) && l.orders[j].ticker == tickers[i] ensures j == pks[i] {
        assert j in pks;
        var k :| 0 <= k < |pks| && pks[k] == j;
        if k < i { CountsBoth(tickers, k, i); }
        if i < k { CountsBoth(tickers, i, k); }
      }
    } else {
      var j := AnotherOne(tickers, i);
      assert pks[j] in pks && pks[j] != pks[i];
    }
  }

  /** One more row, settled or asked on its own merits. */
  lemma JobStep(l: LedgerState, now: LedgerState, next: LedgerState, handled: set<nat>, pk: nat,
                results: map<Ticker, bool>, answers: Answers, syncOk: bool)
    requires JobDone(l, now, handled, results, answers, syncOk) && pk !in handled && Unsettled(l, pk)
    requires next.fills == now.fills
    requires next.orders == if AloneOnTicker(l, pk) && Asks(now.orders[pk], results, answers, syncOk)
                            then now.orders[pk := Asked(now.fills, now.orders[pk], answers)] else now.orders
    requires next.settlements == if AloneOnTicker(l, pk) && Books(now.fills, now.orders[pk], results, answers, syncOk)
                                 then now.settlements[pk := SettlementOf(now.fills,
                                     Asked(now.fills, now.orders[pk], answers),
                                                                         results[now.orders[pk].ticker])]
                                 else now.settlements
    ensures JobDone(l, next, handled + {pk}, results, answers, syncOk)
  {
    hide AloneOnTicker, Asks, Asked, Known, SettlementOf;
  }

  method TickersOf(orders: seq<OrderRow>, pks: seq<nat>) returns (tickers: seq<Ticker>)
    requires forall k :: 0 <= k < |pks| ==> pks[k] < |orders|
    ensures |tickers| == |pks| && forall k :: 0 <= k < |pks| ==> tickers[k] == orders[pks[k]].ticker
  {
    tickers := [];
    while |tickers| < |pks|
      invariant |tickers| <= |pks| && forall k :: 0 <= k < |tickers| ==> tickers[k] == orders[pks[k]].ticker
    {
      tickers := tickers + [orders[pks[|tickers|]].ticker];
    }
  }

  ghost function FirstOf(pks: seq<nat>, i: nat): set<nat>
    requires i <= |pks|
  {
    set k | 0 <= k < i :: pks[k]
  }

  lemma FirstOfGrows(l: LedgerState, pks: seq<nat>, i: nat)
    requires ListsOpen(l, pks) && i < |pks|
    ensures pks[i] !in FirstOf(pks, i) && FirstOf(pks, i + 1) == FirstOf(pks, i) + {pks[i]} && Unsettled(l, pks[i])
  {
    assert pks[i] in pks;
  }

  lemma FirstOfAll(l: LedgerState, pks: seq<nat>)
    requires ListsOpen(l, pks)
    ensures FirstOf(pks, 0) == {} && FirstOf(pks, |pks|) == OpenRows(l)
  {
    forall pk | pk in OpenRows(l) ensures pk in FirstOf(pks, |pks|) { assert pk in pks; }
    forall k | 0 <= k < |pks| ensures pks[k] in OpenRows(l) { assert pks[k] in pks; }
  }

  /** One turn of the loop: a row alone on its ticker is settled on its merits, any other is left. */
  method HandleRow(db: LedgerDb, ghost l: LedgerState, ghost handled: set<nat>, pk: nat, alone: bool,
                   results: map<Ticker, bool>, answers: Answers, syncOk: bool)
    requires JobDone(l, db.State(), handled, results, answers, syncOk)
    requires pk !in handled && Unsettled(l, pk) && (alone <==> AloneOnTicker(l, pk))
    modifies db`orders, db`settlements
    ensures JobDone(l, db.State(), handled + {pk}, results, answers, syncOk)
  {
    ghost var now := db.State();
    RowStillThere(l, now, handled, pk, results, answers, syncOk);
    hide JobDone, Asks, Asked, Books, SettlementOf;
    if alone { SettleOne(db, pk, results, answers, syncOk); }
    JobStep(l, now, db.State(), handled, pk, results, answers, syncOk);
  }

  /** `settle_open_orders`, after its fill sync: its exact effect, which does not depend on the order of the rows. */
  method SettleOpenOrders(db: LedgerDb, results: map<Ticker, bool>, answers: Answers, syncOk: bool)
    modifies db`orders, db`settlements
    ensures JobDone(old(db.State()), db.State(), OpenRows(old(db.State())), results, answers, syncOk)
  {
    ghost var l := db.State();
    var pks := OpenOrders(db);
    assert forall k :: 0 <= k < |pks| ==> pks[k] in pks;
    var tickers := TickersOf(db.orders, pks);
    var perTicker := CountPerTicker(tickers);
    ghost var handled: set<nat> := {};
    JobStart(l, results, answers, syncOk);
    FirstOfAll(l, pks);
    assert forall k :: 0 <= k < |pks| ==> Unsettled(l, pks[k]) && pks[k] < |l.orders|;
    hide JobDone, Unsettled, AloneOnTicker, CountOf, FirstOf, ListsOpen;
    var i := 0;
    while i < |pks|
      invariant i <= |pks|
      invariant handled == FirstOf(pks, i)
      invariant JobDone(l, db.State(), handled, results, answers, syncOk)
    {
      CountedOnceIsAlone(l, pks, tickers, i);
      FirstOfGrows(l, pks, i);
      HandleRow(db, l, handled, pks[i], perTicker[tickers[i]] <= 1, results, answers, syncOk);
      handled := handled + {pks[i]};
      i := i + 1;
    }
  }

  lemma RowStillThere(l: LedgerState, now: LedgerState, handled: set<nat>, pk: nat, results: map<Ticker, bool>,
                      answers: Answers, syncOk: bool)
    requires JobDone(l, now, handled, results, answers, syncOk) && pk !in handled && Unsettled(l, pk)
    ensures Unsettled(now, pk) && now.orders[pk] == l.orders[pk]
  {
  }

  lemma JobStart(l: LedgerState, results: map<Ticker, bool>, answers: Answers, syncOk: bool)
    ensures JobDone(l, l, {}, results, answers, syncOk)
  {
  }

  // ---------------------------------------------------------------- what the job promises

  /**
   Whatever the job has settled before, a row it finds alone on its ticker at the start is still alone at its turn.
   */
  lemma SettledWhileAlone(l: LedgerState, now: LedgerState, handled: set<nat>, pk: nat, results: map<Ticker, bool>,
                          answers: Answers, syncOk: bool)
    requires JobDone(l, now, handled, results, answers, syncOk) && pk !in handled && AloneOnTicker(l, pk)
    ensures AloneOnTicker(now, pk)
  {
    forall j: nat | Unsettled(now, j) && now.orders[j].ticker == now.orders[pk].ticker ensures j == pk {
      OutcomeStays(l, now, handled, j, results, answers, syncOk);
    }
  }

  lemma OutcomeStays(l: LedgerState, now: LedgerState, handled: set<nat>, j: nat, results: map<Ticker, bool>,
                     answers: Answers, syncOk: bool)
    requires JobDone(l, now, handled, results, answers, syncOk) && j < |l.orders|
    ensures now.orders[j].outcome == l.orders[j].outcome && now.orders[j].ticker == l.orders[j].ticker
  {
    if AloneOnTicker(l, j) { AskedKeeps(l.fills, l.orders[j], answers); }
  }

  /**
   Nothing is booked from a partial picture: a settlement from fills covers all contracts Kalshi reports, one
   without fills has a fill count or an order that ended unfilled, and a ticker with two open rows is left alone.
   */
  lemma SettlesOnlyCompletePictures(l: LedgerState, l': LedgerState, results: map<Ticker, bool>, answers: Answers,
                                    syncOk: bool, pk: nat)
    requires JobDone(l, l', OpenRows(l), results, answers, syncOk) && pk in l'.settlements && pk !in l.settlements
    ensures var s := l'.settlements[pk];
            && AloneOnTicker(l, pk) && syncOk && pk < |l'.orders|
            && l.orders[pk].ticker in results && s.yesWon == results[l.orders[pk].ticker]
            && (s.source.Computed? ==> s.filled != 0 || EndedUnfilled(l'.orders[pk].status))
            && (s.source.KalshiFills? && AnswerFor(l.orders[pk], answers).Some? ==>
                  OrZero(AnswerFor(l.orders[pk], answers).value.filled) <= s.filled)
  {
    assert Settles(l, pk, results, answers, syncOk);
    AskedKeeps(l.fills, l.orders[pk], answers);
  }

  /** The order id to ask Kalshi about. A placeholder "adopted:..." is none. */
  function AskedId(row: OrderRow): Option<OrderId> {
    if row.orderId.Some? && !("adopted:" <= row.orderId.value) then row.orderId else None
  }

  predicate IsUnsettled(l: LedgerState, pk: nat) {
    pk < |l.orders| && pk !in l.settlements && (l.orders[pk].outcome.Placed? || l.orders[pk].outcome.Adopted?)
  }

  /** The only open unsettled row of its ticker, whose market resolved, whose lookup answered, in a fresh cycle. */
  ghost predicate UpForSettlement(l: LedgerState, pk: nat, results: map<Ticker, bool>, answers: Answers, syncOk: bool) {
    && IsUnsettled(l, pk)
    && (forall j: nat :: IsUnsettled(l, j) && l.orders[j].ticker == l.orders[pk].ticker ==> j == pk)
    && syncOk && l.orders[pk].ticker in results
    && (AskedId(l.orders[pk]).Some? ==> AskedId(l.orders[pk]).value in answers)
  }

  /**
   With fills stored: no order info, or a filled count no larger than they add up to. Without: a fill count other than
   zero, or an order that ended; the reply's values count before the stored ones.
   */
  ghost predicate PictureComplete(l: LedgerState, row: OrderRow, answers: Answers) {
    var oid := AskedId(row);
    var info := if oid.Some? && oid.value in answers then answers[oid.value] else None;
    var stored := map id | id in l.fills && oid.Some? && l.fills[id].orderId == oid :: l.fills[id].count;
    if stored != map[] then
      info.Some? ==> (if info.value.filled.Some? then info.value.filled.value else 0) <= SumOf(stored)
    else
      var filled := if info.Some? && info.value.filled.Some? then info.value.filled else row.filled;
      var status := if info.Some? && info.value.status.Some? then info.value.status else row.status;
      || (filled.Some? && filled.value != 0)
      || (status.Some? && Lower(status.value) in {"canceled", "cancelled", "expired"})
  }

  ghost predicate SidesKnown(l: LedgerState, row: OrderRow) {
    forall id :: id in l.fills && l.fills[id].orderId.Some? && l.fills[id].orderId == row.orderId ==>
      l.fills[id].side != Some(OtherSide)
  }

  /** The job settles a row exactly when it is up for settlement, its picture is complete and its sides are known. */
  lemma SettledExactly(l: LedgerState, l': LedgerState, results: map<Ticker, bool>, answers: Answers, syncOk: bool,
                       pk: nat)
    requires JobDone(l, l', OpenRows(l), results, answers, syncOk)
    ensures pk in l'.settlements <==>
              || pk in l.settlements
              || (UpForSettlement(l, pk, results, answers, syncOk)
                  && PictureComplete(l, l.orders[pk], answers) && SidesKnown(l, l.orders[pk]))
  {
    if pk < |l.orders| { SettlesExactly(l, pk, results, answers, syncOk); }
    hide UpForSettlement, PictureComplete, SidesKnown, Settles;
  }

  lemma SettlesExactly(l: LedgerState, pk: nat, results: map<Ticker, bool>, answers: Answers, syncOk: bool)
    requires pk < |l.orders|
    ensures Settles(l, pk, results, answers, syncOk) <==>
              && UpForSettlement(l, pk, results, answers, syncOk)
              && PictureComplete(l, l.orders[pk], answers) && SidesKnown(l, l.orders[pk])
  {
    UpExactly(l, pk, results, answers, syncOk);
    CompleteExactly(l, l.orders[pk], answers);
    var fs := FillsFor(l.fills, l.orders[pk].orderId);
    assert AllSupported(fs) <==> SidesKnown(l, l.orders[pk]) by {
      forall id | id in l.fills && l.fills[id].orderId.Some? && l.fills[id].orderId == l.orders[pk].orderId
        ensures id in fs
      {
      }
    }
    hide UpForSettlement, PictureComplete, Known, AloneOnTicker, Asks;
  }

  lemma UpExactly(l: LedgerState, pk: nat, results: map<Ticker, bool>, answers: Answers, syncOk: bool)
    requires pk < |l.orders|
    ensures UpForSettlement(l, pk, results, answers, syncOk) <==>
              AloneOnTicker(l, pk) && Asks(l.orders[pk], results, answers, syncOk)
  {
    assert forall j: nat :: IsUnsettled(l, j) <==> Unsettled(l, j);
  }

  lemma CompleteExactly(l: LedgerState, row: OrderRow, answers: Answers)
    ensures PictureComplete(l, row, answers) <==> Known(l.fills, row, answers)
  {
    var (oid, fs) := (AskedId(row), FillsFor(l.fills, AskedId(row)));
    var stored := map id | id in l.fills && oid.Some? && l.fills[id].orderId == oid :: l.fills[id].count;
    assert stored == CountValues(fs);
    assert stored == map[] <==> fs == map[];
  }

  /** The row after its order's state was written down: what the reply says where it says something. */
  predicate IsTold(row: OrderRow, info: OrderInfo, row': OrderRow) {
    && row' == row.(status := row'.status, filled := row'.filled, avgFill := row'.avgFill, via := row'.via)
    && row'.status == (if info.status.Some? then info.status else row.status)
    && row'.filled == (if info.filled.Some? then info.filled else row.filled)
    && row'.avgFill == (if info.avg.Some? then info.avg else row.avgFill)
    && row'.via == Some(Via.Lookup)
  }

  /** Only a row up for settlement without stored fills is told its state, and nothing else about any row moves. */
  lemma RowsToldExactly(l: LedgerState, l': LedgerState, results: map<Ticker, bool>, answers: Answers, syncOk: bool,
                        pk: nat)
    requires JobDone(l, l', OpenRows(l), results, answers, syncOk) && pk < |l.orders|
    ensures |l'.orders| == |l.orders| && l'.fills == l.fills
    ensures var oid := AskedId(l.orders[pk]);
            if && UpForSettlement(l, pk, results, answers, syncOk) && oid.Some? && answers[oid.value].Some?
               && forall id :: id in l.fills ==> l.fills[id].orderId != oid
            then IsTold(l.orders[pk], answers[oid.value].value, l'.orders[pk])
            else l'.orders[pk] == l.orders[pk]
  {
    UpExactly(l, pk, results, answers, syncOk);
    var (row, oid) := (l.orders[pk], AskedId(l.orders[pk]));
    assert (forall id :: id in l.fills ==> l.fills[id].orderId != oid) ==> FillsFor(l.fills, oid) == map[];
    assert oid.Some? && FillsFor(l.fills, oid) == map[] ==>
        forall id :: id in l.fills ==> l.fills[id].orderId != oid by {
      forall id | id in l.fills && oid.Some? && l.fills[id].orderId == oid ensures id in FillsFor(l.fills, oid) {
      }
    }
    hide UpForSettlement;
  }

  /** What the job writes for a row is the cash flow of its fills, or of the row as it was last told. */
  lemma SettledAtCash(l: LedgerState, l': LedgerState, results: map<Ticker, bool>, answers: Answers, syncOk: bool,
                      pk: nat)
    requires JobDone(l, l', OpenRows(l), results, answers, syncOk)
    ensures pk in l.settlements ==> pk in l'.settlements && l'.settlements[pk] == l.settlements[pk]
    ensures pk in l'.settlements && pk !in l.settlements ==>
              && pk < |l.orders| && |l'.orders| == |l.orders| && l.orders[pk].ticker in results
              && IsCashOfRow(l'.settlements[pk], l.fills, l'.orders[pk], results[l.orders[pk].ticker])
  {
    if pk in l'.settlements && pk !in l.settlements {
      assert Settles(l, pk, results, answers, syncOk);
      AskedKeeps(l.fills, l.orders[pk], answers);
      SettlementIsCash(l.fills, l'.orders[pk], results[l.orders[pk].ticker]);
      hide IsCashOfRow, SettlementOf, Known, AloneOnTicker;
    }
  }

  /** The tables stay well formed, settled rows and outcomes stay as they were, order ids stay where they are. */
  lemma JobKeepsTables(l: LedgerState, l': LedgerState, results: map<Ticker, bool>, answers: Answers, syncOk: bool)
    requires WellFormed(l) && JobDone(l, l', OpenRows(l), results, answers, syncOk)
    ensures WellFormed(l') && (DistinctIds(l) ==> DistinctIds(l'))
    ensures forall i :: 0 <= i < |l.orders| ==>
              l'.orders[i].outcome == l.orders[i].outcome && l'.orders[i].orderId == l.orders[i].orderId
    ensures forall i :: 0 <= i < |l.orders| && i in l.settlements ==> l'.orders[i] == l.orders[i]
  {
    forall i: nat | i < |l.orders|
      ensures l'.orders[i].outcome == l.orders[i].outcome && l'.orders[i].orderId == l.orders[i].orderId
      ensures l'.orders[i].clientId == l.orders[i].clientId
    {
      if IsOpen(l.orders[i].outcome) { AskedKeeps(l.fills, l.orders[i], answers); }
    }
    forall i | 0 <= i < |l'.orders| ensures RowFits(l'.orders[i]) { assert RowFits(l.orders[i]); }
  }
}
