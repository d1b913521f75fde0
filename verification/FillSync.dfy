/**
 sync_fills in main.py: fills under an order id the ledger does not know go to a row that lost track of
 its order, else to a position-adopted row without an id, else to a new adopted row.
 */
module FillSync {
  import opened Wrappers
  import opened Ledger
  import opened LedgerRuns

  const NBA_PREFIX := "KXNBAGAME-"

  predicate IsNba(r: FillRecord) {
    r.fill.orderId.Some? && r.fill.ticker.Some? && NBA_PREFIX <= r.fill.ticker.value
  }

  /** The fills reported under one order id, in the order they came. */
  function FillsUnder(fills: seq<FillRecord>, oid: OrderId): seq<FillRecord> {
    if fills == [] then []
    else
      var (front, r) := (fills[..|fills| - 1], fills[|fills| - 1]);
      if IsNba(r) && r.fill.orderId == Some(oid) then FillsUnder(front, oid) + [r] else FillsUnder(front, oid)
  }

  /** The NBA order ids, in the order they first appear: the key order of `by_order`. */
  function OrdersIn(fills: seq<FillRecord>): seq<OrderId> {
    if fills == [] then []
    else
      var (front, r) := (fills[..|fills| - 1], fills[|fills| - 1]);
      if IsNba(r) && r.fill.orderId.value !in OrdersIn(front) then OrdersIn(front) + [r.fill.orderId.value]
      else OrdersIn(front)
  }

  function TotalOf(fs: seq<FillRecord>): int {
    if fs == [] then 0 else TotalOf(fs[..|fs| - 1]) + fs[|fs| - 1].fill.count
  }

  predicate AllPriced(fs: seq<FillRecord>) { forall i :: 0 <= i < |fs| ==> fs[i].price.Some? }

  function CostOf(fs: seq<FillRecord>): int
    requires AllPriced(fs)
  {
    if fs == [] then 0 else CostOf(fs[..|fs| - 1]) + fs[|fs| - 1].fill.count * fs[|fs| - 1].price.value
  }

  /** Python's round: to the nearest integer, halves to even. */
  function Round(x: real): (r: int)
    ensures -0.5 <= r as real - x <= 0.5
    ensures r as real - x == 0.5 || r as real - x == -0.5 ==> r % 2 == 0
  {
    var f := x.Floor;
    if x - f as real < 0.5 then f
    else if x - f as real > 0.5 then f + 1
    else if f % 2 == 0 then f else f + 1
  }

  // ---------------------------------------------------------------- what a fill can be attributed to

  predicate WaitsFor(row: OrderRow, ticker: Ticker) {
    IsUnresolved(row.outcome) && row.orderId.None? && row.ticker == ticker
  }

  predicate IsBare(l: LedgerState, i: nat, ticker: Ticker)
    requires i < |l.orders|
  {
    IsOpen(l.orders[i].outcome) && i !in l.settlements && l.orders[i].ticker == ticker && l.orders[i].orderId.None?
  }

  /** `unresolved_orders_by_ticker()[ticker]`, as primary keys. */
  function Waiting(l: LedgerState, ticker: Ticker): (pks: seq<nat>)
    ensures forall i :: i in pks <==> 0 <= i < |l.orders| && WaitsFor(l.orders[i], ticker)
    ensures pks != [] ==> pks[0] < |l.orders| && WaitsFor(l.orders[pks[0]], ticker)
  {
    WaitingBelow(l.orders, ticker, |l.orders|)
  }

  function WaitingBelow(orders: seq<OrderRow>, ticker: Ticker, n: nat): (pks: seq<nat>)
    requires n <= |orders|
    ensures forall i :: i in pks <==> 0 <= i < n && WaitsFor(orders[i], ticker)
    ensures pks != [] ==> pks[0] < n && WaitsFor(orders[pks[0]], ticker)
  {
    if n == 0 then []
    else
      var front := WaitingBelow(orders, ticker, n - 1);
      if WaitsFor(orders[n - 1], ticker) then front + [n - 1] else front
  }

  ghost predicate IsFirstBare(l: LedgerState, ticker: Ticker, r: Option<nat>) {
    match r
    case None => forall i :: 0 <= i < |l.orders| ==> !IsBare(l, i, ticker)
    case Some(k) => k < |l.orders| && IsBare(l, k, ticker) && forall i :: 0 <= i < k ==> !IsBare(l, i, ticker)
  }

  function FirstBare(l: LedgerState, ticker: Ticker, n: nat): (r: Option<nat>)
    requires n <= |l.orders| && forall i :: 0 <= i < n ==> !IsBare(l, i, ticker)
    ensures IsFirstBare(l, ticker, r)
    decreases |l.orders| - n
  {
    if n == |l.orders| then None else if IsBare(l, n, ticker) then Some(n) else FirstBare(l, ticker, n + 1)
  }

  // ---------------------------------------------------------------- one order id

  /** The loop body of `sync_fills`; None when it raises. */
  function SyncOrder(l: LedgerState, oid: OrderId, fs: seq<FillRecord>, adopt: bool): Option<LedgerState>
    requires fs != [] && IsNba(fs[0])
  {
    if FirstWithOrderId(l, oid).Some? || TotalOf(fs) <= 0 then Some(l)
    else if !AllPriced(fs) then None
    else
      var ticker := fs[0].fill.ticker.value;
      var total := TotalOf(fs);
      var avg := CostOf(fs) as real / total as real;
      var pending := Waiting(l, ticker);
      if pending != [] then
        var r := ApplyOrderState(l, pending[0], Some(oid), None, Some(total), Some(avg), Lookup);
        if r.Ok? then Some(r.value) else None
      else
        var bare := FirstBare(l, ticker, 0);
        var attached := if bare.Some? then AttachOrderId(l, bare.value, oid) else (l, false);
        if attached.1 then Some(attached.0)
        else if !adopt then Some(l)
        else Some(AdoptOrder(l, ticker, Some(oid), total, Some(avg), Round(avg), 0).0)
  }

  lemma {:induction fills} FillsUnderNba(fills: seq<FillRecord>, oid: OrderId)
    ensures forall r :: r in FillsUnder(fills, oid) ==> IsNba(r) && r.fill.orderId == Some(oid)
    ensures oid in OrdersIn(fills) ==> FillsUnder(fills, oid) != []
  {
  }

  /** The loop over `by_order`; `done` ids have been handled. None when some body raised. */
  function SyncOrders(l: LedgerState, fills: seq<FillRecord>, oids: seq<OrderId>, adopt: bool): Option<LedgerState>
    requires forall oid :: oid in oids ==> oid in OrdersIn(fills)
    decreases |oids|
  {
    if oids == [] then Some(l)
    else
      FillsUnderNba(fills, oids[0]);
      assert FillsUnder(fills, oids[0])[0] in FillsUnder(fills, oids[0]);
      var next := SyncOrder(l, oids[0], FillsUnder(fills, oids[0]), adopt);
      if next.None? then None else SyncOrders(next.value, fills, oids[1..], adopt)
  }

  /** `sync_fills` */
  function SyncFills(l: LedgerState, fills: seq<FillRecord>, adopt: bool): Option<LedgerState> {
    SyncOrders(l.(fills := UpsertAll(l.fills, fills)), fills, OrdersIn(fills), adopt)
  }

  // ---------------------------------------------------------------- properties

  ghost predicate OnARow(l: LedgerState, oid: OrderId) {
    exists i :: 0 <= i < |l.orders| && l.orders[i].orderId == Some(oid)
  }

  ghost predicate OnExactlyOneRow(l: LedgerState, oid: OrderId) {
    exists i :: 0 <= i < |l.orders| && l.orders[i].orderId == Some(oid)
                && forall j :: 0 <= j < |l.orders| && l.orders[j].orderId == Some(oid) ==> j == i
  }

  /** Nothing on this ticker could take an unknown order id. */
  predicate NoTaker(l: LedgerState, ticker: Ticker) {
    && Waiting(l, ticker) == []
    && (FirstBare(l, ticker, 0).Some? ==> !l.orders[FirstBare(l, ticker, 0).value].outcome.Adopted?)
  }

  /** A row is untouched, or it lacked an order id, was unresolved or adopted, and now has one. */
  predicate RowAttributed(row: OrderRow, row': OrderRow) {
    || row' == row
    || (row.orderId.None? && row'.orderId.Some? && (IsUnresolved(row.outcome) || row.outcome.Adopted?)
        && RowMoves(row, row'))
  }

  /** How the tables may move while fills are attributed. */
  ghost predicate Attributes(l: LedgerState, l': LedgerState) {
    && WellFormed(l') && l'.settlements == l.settlements && |l.orders| <= |l'.orders|
    && (forall i :: 0 <= i < |l.orders| ==> RowAttributed(l.orders[i], l'.orders[i]))
    && (forall i :: 0 <= i < |l.orders| && i in l.settlements ==> l'.orders[i] == l.orders[i])
    && (forall i :: |l.orders| <= i < |l'.orders| ==> l'.orders[i].outcome.Adopted? && l'.orders[i].orderId.Some?)
    && (DistinctIds(l) ==> DistinctIds(l'))
  }

  lemma AttributesCompose(a: LedgerState, b: LedgerState, c: LedgerState)
    requires Attributes(a, b) && Attributes(b, c)
    ensures Attributes(a, c)
  {
    forall i | 0 <= i < |a.orders| ensures RowAttributed(a.orders[i], c.orders[i]) {
      assert RowAttributed(a.orders[i], b.orders[i]) && RowAttributed(b.orders[i], c.orders[i]);
    }
    forall i | |a.orders| <= i < |c.orders| ensures c.orders[i].outcome.Adopted? && c.orders[i].orderId.Some? {
      assert i < |b.orders| ==> RowAttributed(b.orders[i], c.orders[i]);
    }
  }

  /** Writing an id that is on no row to an unresolved or adopted row that has none. */
  lemma NewIdAttributes(l: LedgerState, a: LedgerAction, oid: OrderId)
    requires WellFormed(l) && CalledByMain(l, a) && (a.Apply? || a.Attach?)
    requires a.pk < |l.orders| && a.pk !in l.settlements && l.orders[a.pk].orderId.None?
    requires IsUnresolved(l.orders[a.pk].outcome) || l.orders[a.pk].outcome.Adopted?
    requires Writes(a) == Some((a.pk, oid)) && !OnARow(l, oid) && LStep(l, a) != l
    ensures Attributes(l, LStep(l, a)) && OnARow(LStep(l, a), oid)
  {
    StepKeepsWellFormed(l, a);
    ChangesOneRow(l, a);
    if DistinctIds(l) { DistinctIdsStepwise(l, a); }
    assert LStep(l, a).orders[a.pk].orderId == Some(oid);
  }

  lemma AdoptAttributes(l: LedgerState, ticker: Ticker, oid: OrderId, count: int, avg: Option<real>, limit: int)
    requires WellFormed(l) && !OnARow(l, oid)
    ensures var l' := AdoptOrder(l, ticker, Some(oid), count, avg, limit, 0).0;
            Attributes(l, l') && OnARow(l', oid)
  {
    var a := AdoptNew(ticker, Some(oid), count, avg, limit, 0);
    StepKeepsWellFormed(l, a);
    if DistinctIds(l) { DistinctIdsStepwise(l, a); }
    var found := FirstWithOrderId(l, oid);
    assert LStep(l, a).orders[|l.orders|].orderId == Some(oid);
  }

  /** Nothing is left to do for this order id. */
  ghost predicate Handled(l: LedgerState, oid: OrderId, fs: seq<FillRecord>, adopt: bool)
    requires fs != [] && IsNba(fs[0])
  {
    TotalOf(fs) <= 0 || OnARow(l, oid) || (!adopt && AllPriced(fs) && NoTaker(l, fs[0].fill.ticker.value))
  }

  /** One pass of the loop body handles its order id and touches nothing that had one. */
  lemma {:induction false} SyncOrderEffect(l: LedgerState, oid: OrderId, fs: seq<FillRecord>, adopt: bool)
    requires WellFormed(l) && fs != [] && IsNba(fs[0]) && SyncOrder(l, oid, fs, adopt).Some?
    ensures Attributes(l, SyncOrder(l, oid, fs, adopt).value)
    ensures Handled(SyncOrder(l, oid, fs, adopt).value, oid, fs, adopt)
  {
    var owner := FirstWithOrderId(l, oid);
    if owner.None? && TotalOf(fs) > 0 {
      assert !OnARow(l, oid);
      var ticker := fs[0].fill.ticker.value;
      var total := TotalOf(fs);
      var avg := CostOf(fs) as real / total as real;
      var pending := Waiting(l, ticker);
      var bare := FirstBare(l, ticker, 0);
      if pending != [] {
        assert pending[0] in pending;
        NewIdAttributes(l, Apply(pending[0], Some(oid), None, Some(total), Some(avg), Lookup), oid);
      } else if bare.Some? && l.orders[bare.value].outcome.Adopted? {
        NewIdAttributes(l, Attach(bare.value, oid), oid);
      } else if adopt {
        AdoptAttributes(l, ticker, oid, total, Some(avg), Round(avg));
      }
    }
  }

  lemma {:induction false} HandledIsNoOp(l: LedgerState, oid: OrderId, fs: seq<FillRecord>, adopt: bool)
    requires fs != [] && IsNba(fs[0]) && Handled(l, oid, fs, adopt)
    ensures SyncOrder(l, oid, fs, adopt) == Some(l)
  {
    var owner := FirstWithOrderId(l, oid);
  }

  lemma NoTakerStays(l: LedgerState, l': LedgerState, ticker: Ticker)
    requires Attributes(l, l') && NoTaker(l, ticker)
    ensures NoTaker(l', ticker)
  {
    var (waiting, bare) := (Waiting(l', ticker), FirstBare(l, ticker, 0));
    forall i: nat | i < |l'.orders| ensures !WaitsFor(l'.orders[i], ticker) {
      assert i < |l.orders| ==> RowAttributed(l.orders[i], l'.orders[i]) && i !in Waiting(l, ticker);
    }
    forall i: nat | i < |l'.orders| && IsBare(l', i, ticker) ensures i < |l.orders| && IsBare(l, i, ticker) {
      if i < |l.orders| { assert RowAttributed(l.orders[i], l'.orders[i]); }
    }
    if bare.Some? {
      assert RowAttributed(l.orders[bare.value], l'.orders[bare.value]) && IsBare(l', bare.value, ticker);
    }
    assert FirstBare(l', ticker, 0) == bare;
  }

  lemma {:induction false} HandledStays(l: LedgerState, l': LedgerState, oid: OrderId, fs: seq<FillRecord>, adopt: bool)
    requires fs != [] && IsNba(fs[0]) && Handled(l, oid, fs, adopt) && Attributes(l, l')
    ensures Handled(l', oid, fs, adopt)
  {
    if OnARow(l, oid) {
      var i :| 0 <= i < |l.orders| && l.orders[i].orderId == Some(oid);
      assert RowAttributed(l.orders[i], l'.orders[i]) && l'.orders[i].orderId == Some(oid);
    } else if TotalOf(fs) > 0 {
      NoTakerStays(l, l', fs[0].fill.ticker.value);
    }
  }

  /** The group of fills `by_order[oid]`. */
  ghost predicate HandledIn(l: LedgerState, fills: seq<FillRecord>, oid: OrderId, adopt: bool)
    requires oid in OrdersIn(fills)
  {
    FillsUnderNba(fills, oid);
    assert FillsUnder(fills, oid)[0] in FillsUnder(fills, oid);
    Handled(l, oid, FillsUnder(fills, oid), adopt)
  }

  lemma {:induction false} SyncOrdersEffect(l: LedgerState, fills: seq<FillRecord>, oids: seq<OrderId>, adopt: bool)
    requires WellFormed(l) && (forall oid :: oid in oids ==> oid in OrdersIn(fills))
    requires SyncOrders(l, fills, oids, adopt).Some?
    ensures Attributes(l, SyncOrders(l, fills, oids, adopt).value)
    ensures forall oid :: oid in oids ==> HandledIn(SyncOrders(l, fills, oids, adopt).value, fills, oid, adopt)
    decreases |oids|
  {
    if oids != [] {
      var fs := FillsUnder(fills, oids[0]);
      FillsUnderNba(fills, oids[0]);
      assert fs[0] in fs;
      var next := SyncOrder(l, oids[0], fs, adopt).value;
      SyncOrderEffect(l, oids[0], fs, adopt);
      SyncOrdersEffect(next, fills, oids[1..], adopt);
      var l' := SyncOrders(l, fills, oids, adopt).value;
      AttributesCompose(l, next, l');
      HandledStays(next, l', oids[0], fs, adopt);
      forall oid | oid in oids ensures HandledIn(l', fills, oid, adopt) {
        assert oid == oids[0] || oid in oids[1..];
      }
    }
  }

  lemma {:induction false} AllHandledIsNoOp(l: LedgerState, fills: seq<FillRecord>, oids: seq<OrderId>, adopt: bool)
    requires forall oid :: oid in oids ==> oid in OrdersIn(fills) && HandledIn(l, fills, oid, adopt)
    ensures SyncOrders(l, fills, oids, adopt) == Some(l)
    decreases |oids|
  {
    if oids != [] {
      var fs := FillsUnder(fills, oids[0]);
      FillsUnderNba(fills, oids[0]);
      assert fs[0] in fs && HandledIn(l, fills, oids[0], adopt);
      HandledIsNoOp(l, oids[0], fs, adopt);
      AllHandledIsNoOp(l, fills, oids[1..], adopt);
    }
  }

  lemma SameOrdersAttributes(l: LedgerState, fills: map<FillId, Fill>)
    requires WellFormed(l)
    ensures Attributes(l, l.(fills := fills))
  {
  }

  /**
   `sync_fills` keeps non-null order ids distinct, touches no row that already had one and no settled
   row, and adds only adopted rows.
   */
  lemma SyncKeepsDistinctIds(l: LedgerState, fills: seq<FillRecord>, adopt: bool)
    requires WellFormed(l) && SyncFills(l, fills, adopt).Some?
    ensures Attributes(l, SyncFills(l, fills, adopt).value)
  {
    var start := l.(fills := UpsertAll(l.fills, fills));
    SameOrdersAttributes(l, start.fills);
    SyncOrdersEffect(start, fills, OrdersIn(fills), adopt);
    AttributesCompose(l, start, SyncFills(l, fills, adopt).value);
  }

  lemma AtMostOneRow(l: LedgerState, oid: OrderId)
    requires DistinctIds(l) && OnARow(l, oid)
    ensures OnExactlyOneRow(l, oid)
  {
    var i :| 0 <= i < |l.orders| && l.orders[i].orderId == Some(oid);
    forall j | 0 <= j < |l.orders| && l.orders[j].orderId == Some(oid) ensures i <= j <= i {
    }
  }

  /** With adoption on, every NBA order id with a positive fill total ends on exactly one row. */
  lemma EveryFilledOrderOnOneRow(l: LedgerState, fills: seq<FillRecord>, oid: OrderId)
    requires WellFormed(l) && DistinctIds(l) && SyncFills(l, fills, true).Some?
    requires oid in OrdersIn(fills) && TotalOf(FillsUnder(fills, oid)) > 0
    ensures OnExactlyOneRow(SyncFills(l, fills, true).value, oid)
  {
    var l' := SyncFills(l, fills, true).value;
    SyncKeepsDistinctIds(l, fills, true);
    SyncOrdersEffect(l.(fills := UpsertAll(l.fills, fills)), fills, OrdersIn(fills), true);
    assert HandledIn(l', fills, oid, true);
    AtMostOneRow(l', oid);
  }

  /** Running it again on the same fills, in either mode, changes no order row and no settlement. */
  lemma SyncAgainChangesNothing(l: LedgerState, fills: seq<FillRecord>, adopt: bool)
    requires WellFormed(l) && SyncFills(l, fills, adopt).Some?
    ensures var l' := SyncFills(l, fills, adopt).value;
            && SyncFills(l', fills, adopt).Some?
            && SyncFills(l', fills, adopt).value == l'.(fills := UpsertAll(l'.fills, fills))
  {
    var l' := SyncFills(l, fills, adopt).value;
    var again := l'.(fills := UpsertAll(l'.fills, fills));
    SyncOrdersEffect(l.(fills := UpsertAll(l.fills, fills)), fills, OrdersIn(fills), adopt);
    SyncKeepsDistinctIds(l, fills, adopt);
    SameOrdersAttributes(l', again.fills);
    forall oid | oid in OrdersIn(fills) ensures HandledIn(again, fills, oid, adopt) {
      assert HandledIn(l', fills, oid, adopt);
      var fs := FillsUnder(fills, oid);
      FillsUnderNba(fills, oid);
      assert fs[0] in fs;
      HandledStays(l', again, oid, fs, adopt);
    }
    AllHandledIsNoOp(again, fills, OrdersIn(fills), adopt);
  }
}
