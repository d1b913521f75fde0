/** The figures `sync_fills` writes beside an order id: contracts, average price and limit, counted from the front. */
module FillFigures {
  import opened Wrappers
  import opened Ledger
  import opened LedgerRuns
  import opened FillSync

  // ---------------------------------------------------------------- what is reported under an order id

  predicate Under(r: FillRecord, oid: OrderId) {
    r.fill.orderId == Some(oid) && r.fill.ticker.Some? && "KXNBAGAME-" <= r.fill.ticker.value
  }

  /** The list of an order id, record by record: each NBA fill under it once, in the order reported. */
  lemma {:induction false} FillsUnderExactly(a: seq<FillRecord>, b: seq<FillRecord>, r: FillRecord, oid: OrderId)
    ensures FillsUnder([], oid) == [] && FillsUnder([r], oid) == (if Under(r, oid) then [r] else [])
    ensures FillsUnder(a + b, oid) == FillsUnder(a, oid) + FillsUnder(b, oid)
    decreases |b|
  {
    assert [r][..0] == [] && FillsUnder([], oid) == [];
    if b == [] {
      assert a + b == a;
    } else {
      var front := b[..|b| - 1];
      FillsUnderExactly(a, front, r, oid);
      assert (a + b)[..|a + b| - 1] == a + front;
    }
  }

  /** The order ids handled are those of the NBA fills, each once. */
  lemma {:induction false} OrdersInExactly(fills: seq<FillRecord>)
    ensures forall oid :: oid in OrdersIn(fills) <==> exists i :: 0 <= i < |fills| && Under(fills[i], oid)
    ensures forall i, j :: 0 <= i < j < |OrdersIn(fills)| ==> OrdersIn(fills)[i] != OrdersIn(fills)[j]
    decreases |fills|
  {
    if fills != [] {
      var (front, r) := (fills[..|fills| - 1], fills[|fills| - 1]);
      OrdersInExactly(front);
      forall oid ensures oid in OrdersIn(fills) <==> exists i :: 0 <= i < |fills| && Under(fills[i], oid) {
        if oid in OrdersIn(front) {
          var i :| 0 <= i < |front| && Under(front[i], oid);
          assert Under(fills[i], oid);
        } else {
          assert forall i :: 0 <= i < |front| ==> (Under(front[i], oid) <==> Under(fills[i], oid));
          assert oid in OrdersIn(fills) <==> Under(fills[|front|], oid);
        }
      }
    }
  }

  /** They are handled in the order in which they first appear. */
  lemma {:induction false} OrdersInGrows(a: seq<FillRecord>, b: seq<FillRecord>)
    ensures OrdersIn(a) <= OrdersIn(a + b)
    decreases |b|
  {
    if b == [] {
      assert a + b == a;
    } else {
      OrdersInGrows(a, b[..|b| - 1]);
      assert (a + b)[..|a + b| - 1] == a + b[..|b| - 1];
    }
  }

  // ---------------------------------------------------------------- contracts and money

  function Contracts(fs: seq<FillRecord>): int { if fs == [] then 0 else fs[0].fill.count + Contracts(fs[1..]) }

  function Money(fs: seq<FillRecord>): int
    requires forall i :: 0 <= i < |fs| ==> fs[i].price.Some?
  {
    if fs == [] then 0 else fs[0].fill.count * fs[0].price.value + Money(fs[1..])
  }

  lemma {:induction false} ContractsAreTotal(fs: seq<FillRecord>)
    ensures Contracts(fs) == TotalOf(fs)
    decreases |fs|
  {
    if |fs| >= 2 {
      var (front, back, mid) := (fs[..|fs| - 1], fs[1..], fs[1..|fs| - 1]);
      assert front[1..] == mid == back[..|back| - 1];
      ContractsAreTotal(front);
      ContractsAreTotal(back);
      ContractsAreTotal(mid);
    } else if |fs| == 1 {
      assert fs[1..] == [] == fs[..0];
    }
  }

  lemma {:induction false} MoneyIsCost(fs: seq<FillRecord>)
    requires AllPriced(fs)
    ensures Money(fs) == CostOf(fs)
    decreases |fs|
  {
    if |fs| >= 2 {
      var (front, back, mid) := (fs[..|fs| - 1], fs[1..], fs[1..|fs| - 1]);
      assert front[1..] == mid == back[..|back| - 1];
      MoneyIsCost(front);
      MoneyIsCost(back);
      MoneyIsCost(mid);
    } else if |fs| == 1 {
      assert fs[1..] == [] == fs[..0];
    }
  }

  /** The average over these fills, of as many contracts as they hold. */
  predicate HasFigures(row: OrderRow, fs: seq<FillRecord>) {
    && (forall i :: 0 <= i < |fs| ==> fs[i].price.Some?)
    && row.filled == Some(Contracts(fs)) && row.avgFill.Some?
    && row.avgFill.value * Contracts(fs) as real == Money(fs) as real
  }

  lemma {:induction false} MoneyBetween(fs: seq<FillRecord>, lo: int, hi: int)
    requires forall i :: 0 <= i < |fs| ==> fs[i].price.Some? && fs[i].fill.count > 0 && lo <= fs[i].price.value <= hi
    ensures lo * Contracts(fs) <= Money(fs) <= hi * Contracts(fs)
    ensures fs != [] ==> Contracts(fs) > 0
  {
    if fs != [] {
      MoneyBetween(fs[1..], lo, hi);
      var (c, p) := (fs[0].fill.count, fs[0].price.value);
      Scale(c, lo, p);
      Scale(c, p, hi);
      assert lo * Contracts(fs) == c * lo + lo * Contracts(fs[1..]);
      assert hi * Contracts(fs) == c * hi + hi * Contracts(fs[1..]);
    }
  }

  lemma Scale(c: nat, x: int, y: int)
    requires x <= y
    ensures c * x <= c * y
  {
  }

  lemma Unscale(x: real, y: real, n: real)
    requires n > 0.0 && x * n <= y * n
    ensures x <= y
  {
    var d := x - y;
    assert d * n <= 0.0;
  }

  lemma RealProduct(x: int, y: int)
    ensures (x * y) as real == x as real * y as real
  {
  }

  /** With positive counts the average lies between the lowest and the highest price. */
  lemma AverageBetween(row: OrderRow, fs: seq<FillRecord>, lo: int, hi: int)
    requires HasFigures(row, fs) && fs != []
    requires forall i :: 0 <= i < |fs| ==> fs[i].fill.count > 0 && lo <= fs[i].price.value <= hi
    ensures lo as real <= row.avgFill.value <= hi as real
  {
    MoneyBetween(fs, lo, hi);
    var (n, a) := (Contracts(fs), row.avgFill.value);
    RealProduct(lo, n);
    RealProduct(hi, n);
    hide Contracts, Money;
    Unscale(lo as real, a, n as real);
    Unscale(a, hi as real, n as real);
  }

  // ---------------------------------------------------------------- the row that takes an order id

  predicate WaitsAt(l: LedgerState, i: nat, t: Ticker) {
    && i < |l.orders| && l.orders[i].ticker == t && l.orders[i].orderId.None?
    && (l.orders[i].outcome.Submitting? || l.orders[i].outcome.Unconfirmed? || l.orders[i].outcome.NotFound?)
  }

  predicate BareAt(l: LedgerState, i: nat, t: Ticker) {
    && i < |l.orders| && l.orders[i].ticker == t && l.orders[i].orderId.None? && i !in l.settlements
    && (l.orders[i].outcome.Placed? || l.orders[i].outcome.Adopted?)
  }

  ghost predicate FirstToWait(l: LedgerState, q: nat, t: Ticker) {
    WaitsAt(l, q, t) && forall i: nat :: i < q ==> !WaitsAt(l, i, t)
  }

  ghost predicate FirstToBeBare(l: LedgerState, q: nat, t: Ticker) {
    BareAt(l, q, t) && forall i: nat :: i < q ==> !BareAt(l, i, t)
  }

  /** The order is told to be placed with these fills; nothing else about the row moves. */
  predicate ToldFills(row: OrderRow, row': OrderRow, oid: OrderId, fs: seq<FillRecord>) {
    && HasFigures(row', fs)
    && row' == row.(outcome := Placed, orderId := Some(oid), filled := row'.filled, avgFill := row'.avgFill,
                    via := Some(Via.Lookup))
  }

  /** A new row for an order nobody knew: count and fills agree, and the limit is the nearest whole cent. */
  predicate NewlyAdopted(row: OrderRow, oid: OrderId, fs: seq<FillRecord>) {
    && fs != [] && row.ticker == (if fs[0].fill.ticker.Some? then fs[0].fill.ticker.value else "")
    && HasFigures(row, fs) && row.count == Contracts(fs)
    && row.outcome.Adopted? && row.orderId == Some(oid) && row.clientId == AdoptedOrder(oid)
    && row.status.None? && row.via == Some(Via.Adopt)
    && -0.5 <= row.limitPrice as real - row.avgFill.value <= 0.5
  }

  /**
   What one order id changes: nothing if a row has it or its fills add up to nothing; else the row of its ticker that
   has waited longest takes it with the fills' figures, else the first open row without an id takes it if it was
   adopted, else a new row is adopted.
   */
  ghost predicate OneTaken(l: LedgerState, l': LedgerState, oid: OrderId, fs: seq<FillRecord>, adopt: bool, q: nat)
    requires fs != [] && IsNba(fs[0])
  {
    var t := fs[0].fill.ticker.value;
    && l'.fills == l.fills && l'.settlements == l.settlements
    && if OnARow(l, oid) || Contracts(fs) <= 0 then l' == l
       else if exists i: nat :: WaitsAt(l, i, t) then
         && FirstToWait(l, q, t) && |l'.orders| == |l.orders|
         && l'.orders == l.orders[q := l'.orders[q]] && ToldFills(l.orders[q], l'.orders[q], oid, fs)
       else if FirstToBeBare(l, q, t) && l.orders[q].outcome.Adopted? then
         l'.orders == l.orders[q := l.orders[q].(orderId := Some(oid))]
       else if adopt then
         && q == |l.orders| && |l'.orders| == q + 1 && l'.orders == l.orders + [l'.orders[q]]
         && NewlyAdopted(l'.orders[q], oid, fs)
       else l' == l
  }

  lemma {:induction false} FirstOfWaiting(orders: seq<OrderRow>, t: Ticker, n: nat)
    requires n <= |orders| && WaitingBelow(orders, t, n) != []
    ensures forall i :: 0 <= i < WaitingBelow(orders, t, n)[0] ==> !WaitsFor(orders[i], t)
    decreases n
  {
    if n > 0 {
      if WaitingBelow(orders, t, n - 1) != [] {
        FirstOfWaiting(orders, t, n - 1);
      } else {
        forall i | 0 <= i < n - 1 ensures !WaitsFor(orders[i], t) { assert i !in WaitingBelow(orders, t, n - 1); }
      }
    }
  }

  lemma WaitingExactly(l: LedgerState, t: Ticker)
    ensures Waiting(l, t) != [] <==> exists i: nat :: WaitsAt(l, i, t)
    ensures Waiting(l, t) != [] ==> FirstToWait(l, Waiting(l, t)[0], t)
  {
    forall i: nat ensures WaitsAt(l, i, t) <==> i in Waiting(l, t) {
    }
    if Waiting(l, t) != [] {
      FirstOfWaiting(l.orders, t, |l.orders|);
      assert WaitsAt(l, Waiting(l, t)[0], t);
    }
  }

  lemma BareExactly(l: LedgerState, t: Ticker)
    ensures FirstBare(l, t, 0).Some? ==> FirstToBeBare(l, FirstBare(l, t, 0).value, t)
    ensures FirstBare(l, t, 0).None? ==> forall q: nat :: !FirstToBeBare(l, q, t)
  {
    forall i: nat | i < |l.orders| ensures BareAt(l, i, t) <==> IsBare(l, i, t) {
    }
  }

  lemma AverageTimesTotal(cost: int, total: int)
    requires total > 0
    ensures (cost as real / total as real) * total as real == cost as real
  {
  }

  /** The figures as the loop body computes them. */
  lemma FiguresOf(row: OrderRow, fs: seq<FillRecord>)
    requires TotalOf(fs) > 0 && AllPriced(fs)
    requires row.filled == Some(TotalOf(fs)) && row.avgFill == Some(CostOf(fs) as real / TotalOf(fs) as real)
    ensures HasFigures(row, fs)
  {
    ContractsAreTotal(fs);
    MoneyIsCost(fs);
    AverageTimesTotal(CostOf(fs), TotalOf(fs));
  }

  lemma OneOrderTaken(l: LedgerState, oid: OrderId, fs: seq<FillRecord>, adopt: bool) returns (q: nat)
    requires fs != [] && IsNba(fs[0]) && SyncOrder(l, oid, fs, adopt).Some?
    ensures OneTaken(l, SyncOrder(l, oid, fs, adopt).value, oid, fs, adopt, q)
  {
    q := |l.orders|;
    var (t, l') := (fs[0].fill.ticker.value, SyncOrder(l, oid, fs, adopt).value);
    ContractsAreTotal(fs);
    WaitingExactly(l, t);
    BareExactly(l, t);
    assert FirstWithOrderId(l, oid).Some? <==> OnARow(l, oid);
    if !OnARow(l, oid) && TotalOf(fs) > 0 {
      if Waiting(l, t) != [] {
        q := Waiting(l, t)[0];
        FiguresOf(l'.orders[q], fs);
      } else if FirstBare(l, t, 0).Some? && l.orders[FirstBare(l, t, 0).value].outcome.Adopted? {
        q := FirstBare(l, t, 0).value;
      } else if adopt {
        FiguresOf(l'.orders[q], fs);
      }
    }
    hide Waiting, FirstBare, HasFigures, Contracts;
  }

  // ---------------------------------------------------------------- the whole job

  /** What the job may have done to a row it found: nothing, or one order id with the figures of that order's fills. */
  ghost predicate RowTook(row: OrderRow, row': OrderRow, fills: seq<FillRecord>) {
    || row' == row
    || (row.orderId.None? && row'.orderId.Some? && row'.orderId.value in OrdersIn(fills)
        && (ToldFills(row, row', row'.orderId.value, FillsUnder(fills, row'.orderId.value))
            || (row.outcome.Adopted? && row' == row.(orderId := row'.orderId))))
  }

  ghost predicate RowMade(row: OrderRow, fills: seq<FillRecord>) {
    && row.orderId.Some? && row.orderId.value in OrdersIn(fills)
    && NewlyAdopted(row, row.orderId.value, FillsUnder(fills, row.orderId.value))
  }

  ghost predicate AllTook(l: LedgerState, l': LedgerState, fills: seq<FillRecord>) {
    && |l.orders| <= |l'.orders|
    && (forall i :: 0 <= i < |l.orders| ==> RowTook(l.orders[i], l'.orders[i], fills))
    && (forall i :: |l.orders| <= i < |l'.orders| ==> RowMade(l'.orders[i], fills))
  }

  lemma TookCompose(a: LedgerState, b: LedgerState, c: LedgerState, fills: seq<FillRecord>)
    requires AllTook(a, b, fills) && AllTook(b, c, fills)
    ensures AllTook(a, c, fills)
  {
    forall i | 0 <= i < |a.orders| ensures RowTook(a.orders[i], c.orders[i], fills) {
      assert RowTook(a.orders[i], b.orders[i], fills) && RowTook(b.orders[i], c.orders[i], fills);
    }
    forall i | |a.orders| <= i < |c.orders| ensures RowMade(c.orders[i], fills) {
      assert i < |b.orders| ==> RowMade(b.orders[i], fills) && RowTook(b.orders[i], c.orders[i], fills);
    }
  }

  lemma {:induction false} OrdersTook(l: LedgerState, fills: seq<FillRecord>, oids: seq<OrderId>, adopt: bool)
    requires forall oid :: oid in oids ==> oid in OrdersIn(fills)
    requires SyncOrders(l, fills, oids, adopt).Some?
    ensures AllTook(l, SyncOrders(l, fills, oids, adopt).value, fills)
    decreases |oids|
  {
    if oids != [] {
      FillsUnderNba(fills, oids[0]);
      var fs := FillsUnder(fills, oids[0]);
      assert fs[0] in fs;
      var q := OneOrderTaken(l, oids[0], fs, adopt);
      var next := SyncOrder(l, oids[0], fs, adopt).value;
      OneTook(l, next, oids[0], fills, adopt, q);
      hide SyncOrder, OneTaken, AllTook;
      OrdersTook(next, fills, oids[1..], adopt);
      TookCompose(l, next, SyncOrders(l, fills, oids, adopt).value, fills);
    }
  }

  lemma OneTook(l: LedgerState, l': LedgerState, oid: OrderId, fills: seq<FillRecord>, adopt: bool, q: nat)
    requires oid in OrdersIn(fills) && FillsUnder(fills, oid) != [] && IsNba(FillsUnder(fills, oid)[0])
    requires OneTaken(l, l', oid, FillsUnder(fills, oid), adopt, q)
    ensures AllTook(l, l', fills)
  {
    hide HasFigures, FillsUnder, OrdersIn, Contracts;
  }

  /**
   After the job every row is as it was, or has taken the id of one reported order: told its contracts and average, or
   adopted before and given the id alone; and every new row is an adopted order with its own fills' figures.
   */
  lemma SyncedFigures(l: LedgerState, fills: seq<FillRecord>, adopt: bool)
    requires SyncFills(l, fills, adopt).Some?
    ensures AllTook(l, SyncFills(l, fills, adopt).value, fills)
  {
    OrdersTook(l.(fills := UpsertAll(l.fills, fills)), fills, OrdersIn(fills), adopt);
  }
}
