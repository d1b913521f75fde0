/**
 ledger.py: the order, fill and settlement tables. Each operation is first a function on the value of
 the tables, then a method of class LedgerDb that changes them in place and is proved equal to it.
 A row's primary key is its position: rows are only ever appended.
 */
module Ledger {
  import opened Wrappers

  type Ticker = string
  /** An empty order id counts as no id at all. */
  type OrderId = s: string | s != "" witness "0"
  type FillId = string

  datatype Outcome =
    | Submitting | Unconfirmed | NotFound
    | InsufficientFunds | BlockedLocation | Duplicate | Failed
    | Placed | Adopted

  predicate IsOpen(o: Outcome) { o.Placed? || o.Adopted? }

  predicate IsRejection(o: Outcome) { o.InsufficientFunds? || o.BlockedLocation? || o.Duplicate? || o.Failed? }

  predicate IsUnresolved(o: Outcome) { o.Submitting? || o.Unconfirmed? || o.NotFound? }

  /** `_OUTCOME_TRANSITIONS`, with the no-op X -> X. */
  predicate MaySet(current: Outcome, next: Outcome) {
    || current == next
    || (current.Submitting? && !next.Submitting?)
    || (current.Unconfirmed? && (next.NotFound? || next.Failed?))
  }

  datatype Via = Response | Lookup | Startup | Adopt

  /** `nba-<game>-<ticker>`, `adopted:<order id>`, or `adopted:` and a random token. */
  datatype ClientId = Game(game: string, ticker: Ticker) | AdoptedOrder(order: OrderId) | AdoptedAnon(token: nat)

  datatype OrderRow = OrderRow(
    ticker: Ticker,
    clientId: ClientId,
    orderId: Option<OrderId>,
    count: int,
    limitPrice: int,
    outcome: Outcome,
    filled: Option<int>,
    status: Option<string>,
    avgFill: Option<real>,
    via: Option<Via>)

  datatype Side = Yes | No | OtherSide

  /** A stored fill; a missing side counts as yes, a missing action as buy. */
  datatype Fill = Fill(
    orderId: Option<OrderId>,
    ticker: Option<Ticker>,
    count: int,
    price: int,
    side: Option<Side>,
    isBuy: Option<bool>,
    fee: Option<int>)

  datatype Source = Computed | KalshiFills

  datatype Settlement = Settlement(yesWon: bool, filled: int, fee: int, pnl: int, source: Source)

  datatype LedgerState = LedgerState(
    orders: seq<OrderRow>,
    fills: map<FillId, Fill>,
    settlements: map<nat, Settlement>)

  const EMPTY_LEDGER := LedgerState([], map[], map[])

  datatype Error = NoSuchOrder | IllegalTransition | AlreadySettled | NotSettable | UnsupportedSide

  // ---------------------------------------------------------------- lookups

  ghost predicate IsFirst(orders: seq<OrderRow>, r: Option<nat>, p: OrderRow -> bool) {
    match r
    case None => forall i :: 0 <= i < |orders| ==> !p(orders[i])
    case Some(k) => k < |orders| && p(orders[k]) && forall i :: 0 <= i < k ==> !p(orders[i])
  }

  /** `... ORDER BY id LIMIT 1` */
  function First(orders: seq<OrderRow>, p: OrderRow -> bool): (r: Option<nat>)
    ensures IsFirst(orders, r, p)
  {
    if orders == [] then None
    else
      var r := First(orders[..|orders| - 1], p);
      if r.Some? then r
      else if p(orders[|orders| - 1]) then Some(|orders| - 1) else None
  }

  function FirstWithClientId(l: LedgerState, c: ClientId): Option<nat> {
    First(l.orders, (row: OrderRow) => row.clientId == c)
  }

  function FirstWithOrderId(l: LedgerState, oid: OrderId): Option<nat> {
    First(l.orders, (row: OrderRow) => row.orderId == Some(oid))
  }

  predicate IsSettled(l: LedgerState, pk: nat) { pk in l.settlements }

  // ---------------------------------------------------------------- order lifecycle

  /** `begin_order` -> (tables, primary key, created) */
  function BeginOrder(l: LedgerState, ticker: Ticker, c: ClientId, count: int, limit: int): (LedgerState, nat, bool) {
    var found := FirstWithClientId(l, c);
    if found.Some? then (l, found.value, false)
    else
      var row := OrderRow(ticker, c, None, count, limit, Submitting, None, None, None, None);
      (l.(orders := l.orders + [row]), |l.orders|, true)
  }

  function MarkPlaced(l: LedgerState, pk: nat, oid: OrderId, status: Option<string>): Result<LedgerState, Error> {
    if pk >= |l.orders| then Err(NoSuchOrder)
    else
      var row := l.orders[pk];
      if !(row.outcome.Submitting? || row.outcome.Unconfirmed? || row.outcome.Placed?) then Err(IllegalTransition)
      else if IsSettled(l, pk) then Err(AlreadySettled)
      else
        var placed := row.(outcome := Placed, orderId := Some(oid), status := Coalesce(status, row.status),
                           via := Coalesce(row.via, Some(Response)));
        Ok(l.(orders := l.orders[pk := placed]))
  }

  function SetOrderOutcome(l: LedgerState, pk: nat, outcome: Outcome): Result<LedgerState, Error> {
    if outcome.Submitting? || IsOpen(outcome) then Err(NotSettable)
    else if pk >= |l.orders| then Err(NoSuchOrder)
    else if !MaySet(l.orders[pk].outcome, outcome) then Err(IllegalTransition)
    else if IsSettled(l, pk) then Err(AlreadySettled)
    else Ok(l.(orders := l.orders[pk := l.orders[pk].(outcome := outcome)]))
  }

  function AppliedRow(row: OrderRow, oid: Option<OrderId>, status: Option<string>, filled: Option<int>,
                      avg: Option<real>, via: Via): OrderRow {
    row.(outcome := if row.outcome.Adopted? then Adopted else Placed,
         orderId := Coalesce(oid, row.orderId), status := Coalesce(status, row.status),
         filled := Coalesce(filled, row.filled), avgFill := Coalesce(avg, row.avgFill), via := Some(via))
  }

  function ApplyOrderState(l: LedgerState, pk: nat, oid: Option<OrderId>, status: Option<string>,
                           filled: Option<int>, avg: Option<real>, via: Via): Result<LedgerState, Error> {
    if pk >= |l.orders| then Err(NoSuchOrder)
    else if IsSettled(l, pk) then Err(AlreadySettled)
    else Ok(l.(orders := l.orders[pk := AppliedRow(l.orders[pk], oid, status, filled, avg, via)]))
  }

  function NonNegative(n: int): int { if n > 0 then n else 0 }

  function AdoptedClientId(oid: Option<OrderId>, token: nat): ClientId {
    if oid.Some? then AdoptedOrder(oid.value) else AdoptedAnon(token)
  }

  /** `adopt_order` without a client order id, as main.py calls it. -> (tables, primary key) */
  function AdoptOrder(l: LedgerState, ticker: Ticker, oid: Option<OrderId>, filled: int, avg: Option<real>,
                      limit: int, token: nat): (LedgerState, nat) {
    var found := if oid.Some? then FirstWithOrderId(l, oid.value) else None;
    if found.Some? then (l, found.value)
    else
      var n := NonNegative(filled);
      var row := OrderRow(ticker, AdoptedClientId(oid, token), oid, n, limit, Adopted, Some(n), None, avg, Some(Adopt));
      (l.(orders := l.orders + [row]), |l.orders|)
  }

  /** `attach_order_id` -> (tables, attached) */
  function AttachOrderId(l: LedgerState, pk: nat, oid: OrderId): (LedgerState, bool) {
    if pk >= |l.orders| || !l.orders[pk].outcome.Adopted? || l.orders[pk].orderId.Some?
        || IsSettled(l, pk) then (l, false)
    else (l.(orders := l.orders[pk := l.orders[pk].(orderId := Some(oid))]), true)
  }

  // ---------------------------------------------------------------- fills

  /** A fill as Kalshi reports it; one without an id or a price cannot be stored. */
  datatype FillRecord = FillRecord(id: Option<FillId>, price: Option<int>, fill: Fill)

  predicate Storable(r: FillRecord) { r.id.Some? && r.price.Some? }

  /** The row a storable record becomes. */
  function Incoming(r: FillRecord): Fill
    requires Storable(r)
  {
    r.fill.(price := r.price.value)
  }

  /** An already stored fill only has its missing fields filled in. */
  function MergeFill(stored: Fill, new': Fill): Fill {
    stored.(orderId := Coalesce(stored.orderId, new'.orderId), ticker := Coalesce(stored.ticker, new'.ticker),
            side := Coalesce(stored.side, new'.side), isBuy := Coalesce(stored.isBuy, new'.isBuy),
            fee := Coalesce(stored.fee, new'.fee))
  }

  function UpsertOne(fills: map<FillId, Fill>, r: FillRecord): map<FillId, Fill> {
    if !Storable(r) then fills
    else if r.id.value in fills then fills[r.id.value := MergeFill(fills[r.id.value], Incoming(r))]
    else fills[r.id.value := Incoming(r)]
  }

  function UpsertAll(fills: map<FillId, Fill>, batch: seq<FillRecord>): map<FillId, Fill> {
    if batch == [] then fills
    else UpsertOne(UpsertAll(fills, batch[..|batch| - 1]), batch[|batch| - 1])
  }

  // ---------------------------------------------------------------- money

  function CeilDiv(a: int, b: int): int
    requires b > 0
  {
    -((-a) / b)
  }

  /** Taker fee in whole cents: the ceiling of 7 * count * p * (100 - p) / 10000, p in cents. */
  function KalshiFee(count: int, price: int): int {
    CeilDiv(7 * price * (100 - price) * count, 10000)
  }

  /** Gross payoff in cents of `count` YES contracts bought at `price`. */
  function Leg(count: int, price: int, yesWon: bool): int {
    if yesWon then count * (100 - price) else -(count * price)
  }

  predicate Supported(f: Fill) { f.side != Some(OtherSide) }

  predicate LongYes(f: Fill) {
    (f.side == None || f.side == Some(Yes)) == (f.isBuy == None || f.isBuy == Some(true))
  }

  function Payoff(f: Fill, yesWon: bool): int {
    if LongYes(f) then Leg(f.count, f.price, yesWon) else -Leg(f.count, f.price, yesWon)
  }

  function FeeOf(f: Fill): int {
    if f.fee.Some? then f.fee.value else KalshiFee(f.count, f.price)
  }

  /** Signed payoff minus fee. */
  function Net(f: Fill, yesWon: bool): int { Payoff(f, yesWon) - FeeOf(f) }

  /** `settlement_pnl_cents`, and (0, 0) for nothing filled. */
  function ComputedPnl(filled: int, price: int, yesWon: bool): int {
    if filled == 0 then 0 else Leg(filled, price, yesWon) - KalshiFee(filled, price)
  }
}
