/** Settling an order from its fills: sums that depend only on the set of fills, and the fee arithmetic. */
module Settling {
  import opened Wrappers
  import opened Ledger

  // ---------------------------------------------------------------- sums over a set of fills

  ghost function SumOver(ids: set<FillId>, v: map<FillId, int>): int
    requires ids <= v.Keys
  {
    if ids == {} then 0
    else var k :| k in ids; v[k] + SumOver(ids - {k}, v)
  }

  ghost function SumOf(v: map<FillId, int>): int { SumOver(v.Keys, v) }

  /** The sum does not depend on the order in which the fills are taken. */
  lemma {:induction false} SumRemove(ids: set<FillId>, v: map<FillId, int>, k: FillId)
    requires ids <= v.Keys && k in ids
    ensures SumOver(ids, v) == v[k] + SumOver(ids - {k}, v)
    decreases |ids|
  {
    var p :| p in ids && SumOver(ids, v) == v[p] + SumOver(ids - {p}, v);
    if p != k {
      SumRemove(ids - {p}, v, k);
      SumRemove(ids - {k}, v, p);
      assert ids - {p} - {k} == ids - {k} - {p};
    }
  }

  lemma {:induction false} SumAgrees(ids: set<FillId>, v: map<FillId, int>, w: map<FillId, int>)
    requires ids <= v.Keys && ids <= w.Keys && forall k :: k in ids ==> v[k] == w[k]
    ensures SumOver(ids, v) == SumOver(ids, w)
    decreases |ids|
  {
    if ids != {} {
      var k :| k in ids;
      SumRemove(ids, v, k);
      SumRemove(ids, w, k);
      SumAgrees(ids - {k}, v, w);
    }
  }

  lemma {:induction false} SumSplit(a: set<FillId>, b: set<FillId>, v: map<FillId, int>)
    requires a !! b && a + b <= v.Keys
    ensures SumOver(a + b, v) == SumOver(a, v) + SumOver(b, v)
    decreases |a|
  {
    if a == {} {
      assert a + b == b;
    } else {
      var k :| k in a;
      SumRemove(a, v, k);
      SumRemove(a + b, v, k);
      assert a + b - {k} == (a - {k}) + b;
      SumSplit(a - {k}, b, v);
    }
  }

  /** Two disjoint maps merged. */
  lemma SumDisjoint(a: map<FillId, int>, b: map<FillId, int>)
    requires a.Keys !! b.Keys
    ensures SumOf(a + b) == SumOf(a) + SumOf(b)
  {
    assert (a + b).Keys == a.Keys + b.Keys;
    SumSplit(a.Keys, b.Keys, a + b);
    SumAgrees(a.Keys, a, a + b);
    SumAgrees(b.Keys, b, a + b);
  }

  function FillsFor(fills: map<FillId, Fill>, oid: Option<OrderId>): map<FillId, Fill> {
    map id | id in fills && oid.Some? && fills[id].orderId == oid :: fills[id]
  }

  function NetValues(fs: map<FillId, Fill>, yesWon: bool): map<FillId, int> {
    map id | id in fs :: Net(fs[id], yesWon)
  }

  function FeeValues(fs: map<FillId, Fill>): map<FillId, int> { map id | id in fs :: FeeOf(fs[id]) }

  function CountValues(fs: map<FillId, Fill>): map<FillId, int> { map id | id in fs :: fs[id].count }

  predicate AllSupported(fs: map<FillId, Fill>) { forall id :: id in fs ==> Supported(fs[id]) }

  /** `record_settlement_from_fills` -> (tables, pnl); None when there is nothing to settle. */
  ghost function RecordSettlement(l: LedgerState, pk: nat, yesWon: bool): Result<(LedgerState, Option<int>), Error> {
    if pk >= |l.orders| || !IsOpen(l.orders[pk].outcome) then Ok((l, None))
    else
      var row := l.orders[pk];
      if !AllSupported(FillsFor(l.fills, row.orderId)) then Err(UnsupportedSide)
      else
        var s := SettlementOf(l.fills, row, yesWon);
        Ok((l.(settlements := l.settlements[pk := s]), Some(s.pnl)))
  }

  ghost function FillSettlement(fs: map<FillId, Fill>, yesWon: bool): Settlement {
    Settlement(yesWon, SumOf(CountValues(fs)), SumOf(FeeValues(fs)), SumOf(NetValues(fs, yesWon)), KalshiFills)
  }

  /** The settlement row: from the stored fills, or from the order itself when there are none. */
  ghost function SettlementOf(fills: map<FillId, Fill>, row: OrderRow, yesWon: bool): Settlement {
    var fs := FillsFor(fills, row.orderId);
    if fs != map[] then FillSettlement(fs, yesWon) else ComputedSettlement(row, yesWon)
  }

  function ComputedSettlement(row: OrderRow, yesWon: bool): Settlement {
    var filled := if row.filled.Some? then row.filled.value else 0;
    Settlement(yesWon, filled, if filled == 0 then 0 else KalshiFee(filled, row.limitPrice),
               ComputedPnl(filled, row.limitPrice, yesWon), Computed)
  }

  // ---------------------------------------------------------------- fees and the two outcomes

  function CeilReal(x: real): int { -((-x).Floor) }

  /** The guard of 1e-9 that kalshi_fee_cents takes off before rounding up never changes the fee. */
  lemma FeeGuardIsHarmless(count: int, price: int)
    ensures CeilReal((7 * price * (100 - price) * count) as real / 10000.0 - 0.000000001) == KalshiFee(count, price)
  {
    CeilGuard(7 * price * (100 - price) * count);
  }

  lemma CeilGuard(a: int)
    ensures CeilReal(a as real / 10000.0 - 0.000000001) == CeilDiv(a, 10000)
  {
    var c := CeilDiv(a, 10000);
    assert 10000 * (c - 1) + 1 <= a <= 10000 * c;
    var y := 0.000000001 - a as real / 10000.0;
    assert -c as real <= y < -c as real + 1.0;
  }

  /** Rounding up the parts costs at least rounding up the whole, and less than one cent more per part. */
  lemma CeilSplit(a: int, b: int)
    ensures CeilDiv(a, 10000) + CeilDiv(b, 10000) - 1 <= CeilDiv(a + b, 10000) <= CeilDiv(a, 10000) + CeilDiv(b, 10000)
  {
  }

  /** Long-YES fills at one price whose fee Kalshi did not report, in any of the forms it may take. */
  predicate LongAt(f: Fill, price: int) { LongYes(f) && f.price == price && f.fee.None? }

  predicate AllLongAt(fs: map<FillId, Fill>, price: int) { forall id :: id in fs ==> LongAt(fs[id], price) }

  /** Fees rounded fill by fill cost at least the fee on the total, and less than one cent more per fill. */
  lemma {:induction false} FeesOver(ids: set<FillId>, fs: map<FillId, Fill>, price: int)
    requires ids <= fs.Keys && ids != {} && AllLongAt(fs, price)
    ensures var (fee, whole) := (SumOver(ids, FeeValues(fs)), KalshiFee(SumOver(ids, CountValues(fs)), price));
            whole <= fee <= whole + |ids| - 1
    decreases |ids|
  {
    var k :| k in ids;
    SumRemove(ids, FeeValues(fs), k);
    SumRemove(ids, CountValues(fs), k);
    assert LongAt(fs[k], price);
    if ids != {k} {
      FeesOver(ids - {k}, fs, price);
      FeeSplit(fs[k].count, SumOver(ids - {k}, CountValues(fs)), price);
    }
  }

  lemma FeeSplit(a: int, b: int, price: int)
    ensures KalshiFee(a, price) + KalshiFee(b, price) - 1 <= KalshiFee(a + b, price)
            <= KalshiFee(a, price) + KalshiFee(b, price)
  {
    var rate := 7 * price * (100 - price);
    assert rate * (a + b) == rate * a + rate * b;
    CeilSplit(rate * a, rate * b);
  }

  lemma LegAdds(a: int, b: int, price: int, yesWon: bool)
    ensures Leg(a, price, yesWon) + Leg(b, price, yesWon) == Leg(a + b, price, yesWon)
  {
    assert (a + b) * (100 - price) == a * (100 - price) + b * (100 - price);
    assert (a + b) * price == a * price + b * price;
  }

  lemma {:induction false} NetIsLegMinusFees(ids: set<FillId>, fs: map<FillId, Fill>, price: int, yesWon: bool)
    requires ids <= fs.Keys && AllLongAt(fs, price)
    ensures SumOver(ids, NetValues(fs, yesWon))
            == Leg(SumOver(ids, CountValues(fs)), price, yesWon) - SumOver(ids, FeeValues(fs))
    decreases |ids|
  {
    if ids != {} {
      var k :| k in ids;
      SumRemove(ids, NetValues(fs, yesWon), k);
      SumRemove(ids, FeeValues(fs), k);
      SumRemove(ids, CountValues(fs), k);
      assert LongAt(fs[k], price);
      NetIsLegMinusFees(ids - {k}, fs, price, yesWon);
      LegAdds(fs[k].count, SumOver(ids - {k}, CountValues(fs)), price, yesWon);
    }
  }

  /** The fee on a whole order against the fees its fills are charged one by one. */
  lemma FeeOfParts(fs: map<FillId, Fill>, price: int)
    requires fs != map[] && AllLongAt(fs, price)
    ensures var (fee, whole) := (SumOf(FeeValues(fs)), KalshiFee(SumOf(CountValues(fs)), price));
            whole <= fee <= whole + |fs| - 1
  {
    SameKeys(fs, true);
    FeesOver(fs.Keys, fs, price);
  }

  lemma SameKeys(fs: map<FillId, Fill>, yesWon: bool)
    ensures NetValues(fs, yesWon).Keys == FeeValues(fs).Keys == CountValues(fs).Keys == fs.Keys
    ensures |fs.Keys| == |fs|
  {
  }

  /** Settling from n long-YES fills at the limit price books the computed fallback less 0 to n - 1 cents. */
  lemma FillPnlNearComputed(fs: map<FillId, Fill>, price: int, yesWon: bool)
    requires fs != map[] && AllLongAt(fs, price) && SumOf(CountValues(fs)) != 0
    ensures 0 <= ComputedPnl(SumOf(CountValues(fs)), price, yesWon) - FillSettlement(fs, yesWon).pnl <= |fs| - 1
  {
    SameKeys(fs, yesWon);
    FeeOfParts(fs, price);
    NetIsLegMinusFees(fs.Keys, fs, price, yesWon);
  }

  /** The same of the ledger itself: the stored fills against the row's own limit price and filled count. */
  lemma RecordedNearFallback(l: LedgerState, pk: nat, yesWon: bool)
    requires pk < |l.orders| && IsOpen(l.orders[pk].outcome)
    requires var (row, fs) := (l.orders[pk], FillsFor(l.fills, l.orders[pk].orderId));
             && fs != map[] && AllSupported(fs) && AllLongAt(fs, row.limitPrice)
             && row.filled == Some(SumOf(CountValues(fs))) && row.filled.value != 0
    ensures RecordSettlement(l, pk, yesWon).Ok? && RecordSettlement(l, pk, yesWon).value.1.Some?
    ensures var pnl := RecordSettlement(l, pk, yesWon).value.1.value;
            0 <= ComputedSettlement(l.orders[pk], yesWon).pnl - pnl <= |FillsFor(l.fills, l.orders[pk].orderId)| - 1
  {
    FillPnlNearComputed(FillsFor(l.fills, l.orders[pk].orderId), l.orders[pk].limitPrice, yesWon);
  }

  // ---------------------------------------------------------------- money in, money out

  /** YES contracts a fill adds to the position: YES bought or NO sold counts up, YES sold or NO bought counts down. */
  function YesContracts(f: Fill): int {
    match (f.side, f.isBuy)
    case (Some(No), Some(false)) => f.count
    case (Some(No), _) => -f.count
    case (_, Some(false)) => -f.count
    case (_, _) => f.count
  }

  /** The fee of a fill: as reported, else 7 percent of count * p * (1 - p) dollars, rounded up to whole cents. */
  function ChargedFee(f: Fill): int {
    if f.fee.Some? then f.fee.value
    else CeilReal((7 * f.price * (100 - f.price) * f.count) as real / 10000.0)
  }

  function YesValues(fs: map<FillId, Fill>): map<FillId, int> { map id | id in fs :: YesContracts(fs[id]) }

  function PaidValues(fs: map<FillId, Fill>): map<FillId, int> {
    map id | id in fs :: YesContracts(fs[id]) * fs[id].price
  }

  function ChargedValues(fs: map<FillId, Fill>): map<FillId, int> { map id | id in fs :: ChargedFee(fs[id]) }

  lemma CashOfOne(f: Fill, yesWon: bool)
    requires Supported(f)
    ensures Payoff(f, yesWon) == (if yesWon then 100 * YesContracts(f) else 0) - YesContracts(f) * f.price
    ensures FeeOf(f) == ChargedFee(f)
  {
    assert f.count * (100 - f.price) == 100 * f.count - f.count * f.price;
    assert 7 * f.price * (100 - f.price) * f.count == (7 * f.price * (100 - f.price)) * f.count;
    CeilQuotient(7 * f.price * (100 - f.price) * f.count);
  }

  lemma CeilQuotient(a: int)
    ensures CeilReal(a as real / 10000.0) == CeilDiv(a, 10000)
  {
    var c := CeilDiv(a, 10000);
    assert 10000 * (c - 1) + 1 <= a <= 10000 * c;
    var y := -(a as real / 10000.0);
    assert -c as real <= y < -c as real + 1.0;
  }

  lemma {:induction false} CashOver(ids: set<FillId>, fs: map<FillId, Fill>, yesWon: bool)
    requires ids <= fs.Keys && AllSupported(fs)
    ensures SumOver(ids, NetValues(fs, yesWon)) + SumOver(ids, FeeValues(fs))
            == (if yesWon then 100 * SumOver(ids, YesValues(fs)) else 0) - SumOver(ids, PaidValues(fs))
    ensures SumOver(ids, FeeValues(fs)) == SumOver(ids, ChargedValues(fs))
    decreases |ids|
  {
    if ids != {} {
      var k :| k in ids;
      SumRemove(ids, NetValues(fs, yesWon), k);
      SumRemove(ids, FeeValues(fs), k);
      SumRemove(ids, YesValues(fs), k);
      SumRemove(ids, PaidValues(fs), k);
      SumRemove(ids, ChargedValues(fs), k);
      CashOfOne(fs[k], yesWon);
      CashOver(ids - {k}, fs, yesWon);
    }
  }

  /**
   A settlement that is the cash flow of these fills: what the position pays out at 100 cents per YES contract, less
   what was paid for it, less the fees.
   */
  ghost predicate IsCashFlow(s: Settlement, fs: map<FillId, Fill>, yesWon: bool) {
    && s.yesWon == yesWon && s.source.KalshiFills?
    && s.fee == SumOf(ChargedValues(fs))
    && s.filled == SumOf(CountValues(fs))
    && s.pnl == (if yesWon then 100 * SumOf(YesValues(fs)) else 0) - SumOf(PaidValues(fs)) - s.fee
  }

  /** The same for an order known only by its count and limit: that many YES contracts, bought at the limit. */
  predicate IsCashOfOrder(s: Settlement, count: int, limit: int, yesWon: bool) {
    && s.yesWon == yesWon && s.source.Computed? && s.filled == count
    && s.fee == CeilReal((7 * limit * (100 - limit) * count) as real / 10000.0)
    && s.pnl == (if yesWon then 100 * count else 0) - count * limit - s.fee
  }

  lemma FillSettlementIsCashFlow(fs: map<FillId, Fill>, yesWon: bool)
    requires AllSupported(fs)
    ensures IsCashFlow(FillSettlement(fs, yesWon), fs, yesWon)
  {
    CashOver(fs.Keys, fs, yesWon);
    assert NetValues(fs, yesWon).Keys == FeeValues(fs).Keys == fs.Keys;
    assert YesValues(fs).Keys == PaidValues(fs).Keys == ChargedValues(fs).Keys == fs.Keys;
  }

  lemma ComputedIsCashOfOrder(row: OrderRow, yesWon: bool)
    ensures IsCashOfOrder(ComputedSettlement(row, yesWon), if row.filled.Some? then row.filled.value else 0,
                          row.limitPrice, yesWon)
  {
    var count := if row.filled.Some? then row.filled.value else 0;
    assert count * (100 - row.limitPrice) == 100 * count - count * row.limitPrice;
    CeilQuotient(7 * row.limitPrice * (100 - row.limitPrice) * count);
  }

  /** The settlement a row gets, from its stored fills if there are any and from the row itself otherwise. */
  ghost predicate IsCashOfRow(s: Settlement, fills: map<FillId, Fill>, row: OrderRow, yesWon: bool) {
    var fs := map id | id in fills && row.orderId.Some? && fills[id].orderId == row.orderId :: fills[id];
    if fs != map[] then IsCashFlow(s, fs, yesWon)
    else IsCashOfOrder(s, if row.filled.Some? then row.filled.value else 0, row.limitPrice, yesWon)
  }

  lemma SettlementIsCash(fills: map<FillId, Fill>, row: OrderRow, yesWon: bool)
    requires AllSupported(FillsFor(fills, row.orderId))
    ensures IsCashOfRow(SettlementOf(fills, row, yesWon), fills, row, yesWon)
  {
    var fs := FillsFor(fills, row.orderId);
    assert fs == map id | id in fills && row.orderId.Some? && fills[id].orderId == row.orderId :: fills[id];
    FillSettlementIsCashFlow(fs, yesWon);
    ComputedIsCashOfOrder(row, yesWon);
    hide IsCashFlow, IsCashOfOrder, FillSettlement, ComputedSettlement;
  }

  /** What is recorded, exactly when it is, and that nothing else in the tables moves. */
  lemma RecordedIsCash(l: LedgerState, pk: nat, yesWon: bool)
    ensures var r := RecordSettlement(l, pk, yesWon);
            && (r.Err? <==> && pk < |l.orders| && IsOpen(l.orders[pk].outcome)
                            && exists id :: id in l.fills && l.fills[id].orderId.Some?
                                 && l.fills[id].orderId == l.orders[pk].orderId && l.fills[id].side == Some(OtherSide))
            && (r.Ok? && (pk >= |l.orders| || !IsOpen(l.orders[pk].outcome)) ==> r.value == (l, None))
            && (r.Ok? && pk < |l.orders| && IsOpen(l.orders[pk].outcome) ==>
                  var t := r.value.0;
                  && t == l.(settlements := t.settlements) && pk in t.settlements
                  && t.settlements == l.settlements[pk := t.settlements[pk]]
                  && r.value.1 == Some(t.settlements[pk].pnl)
                  && IsCashOfRow(t.settlements[pk], l.fills, l.orders[pk], yesWon))
  {
    if pk < |l.orders| && IsOpen(l.orders[pk].outcome) {
      var fs := FillsFor(l.fills, l.orders[pk].orderId);
      hide IsCashOfRow, SettlementOf;
      if AllSupported(fs) {
        SettlementIsCash(l.fills, l.orders[pk], yesWon);
        forall id | id in l.fills && l.fills[id].orderId.Some? && l.fills[id].orderId == l.orders[pk].orderId
          ensures l.fills[id].side != Some(OtherSide)
        {
          assert id in fs;
        }
      } else {
        var id :| id in fs && !Supported(fs[id]);
        assert id in l.fills;
      }
    }
  }

  // ---------------------------------------------------------------- two outcomes compared

  function SignedCount(f: Fill): int { if LongYes(f) then f.count else -f.count }

  function SignedCounts(fs: map<FillId, Fill>): map<FillId, int> { map id | id in fs :: SignedCount(fs[id]) }

  lemma {:induction false} YesMinusNoOver(ids: set<FillId>, fs: map<FillId, Fill>)
    requires ids <= fs.Keys
    ensures SumOver(ids, NetValues(fs, true)) - SumOver(ids, NetValues(fs, false))
            == 100 * SumOver(ids, SignedCounts(fs))
    decreases |ids|
  {
    if ids != {} {
      var k :| k in ids;
      SumRemove(ids, NetValues(fs, true), k);
      SumRemove(ids, NetValues(fs, false), k);
      SumRemove(ids, SignedCounts(fs), k);
      YesMinusNoOver(ids - {k}, fs);
      LegGap(fs[k].count, fs[k].price);
    }
  }

  /** For any fills, YES winning instead of NO is worth 100 cents per net long contract. */
  lemma YesMinusNo(fs: map<FillId, Fill>)
    ensures SumOf(NetValues(fs, true)) - SumOf(NetValues(fs, false)) == 100 * SumOf(SignedCounts(fs))
  {
    YesMinusNoOver(fs.Keys, fs);
    assert NetValues(fs, true).Keys == fs.Keys && NetValues(fs, false).Keys == fs.Keys
           && SignedCounts(fs).Keys == fs.Keys;
  }

  function Opposite(f: Fill): Fill {
    f.(isBuy := Some(!(f.isBuy == None || f.isBuy == Some(true))))
  }

  /**
   Contracts bought at p and sold again at q earn the price difference, whoever wins, on either side of the market.
   */
  lemma RoundTripIsPriceDifference(f: Fill, q: int, yesWon: bool)
    requires Supported(f)
    ensures var back := Opposite(f).(price := q);
            Payoff(f, yesWon) + Payoff(back, yesWon) == if LongYes(f) then f.count * (q - f.price)
                else f.count * (f.price - q)
  {
    var (c, p) := (f.count, f.price);
    assert c * (100 - p) - c * (100 - q) == c * (q - p);
    assert c * (q - p) == c * q - c * p && c * (p - q) == c * p - c * q;
  }

  /** Buying NO is selling YES at the same YES-leg price. */
  lemma BuyingNoIsSellingYes(f: Fill, yesWon: bool)
    requires f.side == Some(No)
    ensures Payoff(f, yesWon) == Payoff(Opposite(f).(side := Some(Yes)), yesWon)
            == Payoff(Opposite(f).(side := None), yesWon)
  {
  }

  lemma LegGap(count: int, price: int)
    ensures Leg(count, price, true) - Leg(count, price, false) == 100 * count
  {
    assert count * (100 - price) == 100 * count - count * price;
  }

  // ---------------------------------------------------------------- what upserts leave in the table

  /** Every present field of `view` agrees with `truth`; count and price are always present. */
  predicate ViewOf(view: Fill, truth: Fill) {
    && view.count == truth.count && view.price == truth.price
    && (view.orderId.Some? ==> view.orderId == truth.orderId)
    && (view.ticker.Some? ==> view.ticker == truth.ticker)
    && (view.side.Some? ==> view.side == truth.side)
    && (view.isBuy.Some? ==> view.isBuy == truth.isBuy)
    && (view.fee.Some? ==> view.fee == truth.fee)
  }

  /** Records that agree wherever they share a fill id: all are views of one truth. */
  ghost predicate Agree(batch: seq<FillRecord>, truth: map<FillId, Fill>) {
    forall r :: r in batch && Storable(r) ==> r.id.value in truth && ViewOf(Incoming(r), truth[r.id.value])
  }

  ghost predicate Mentions(batch: seq<FillRecord>, id: FillId) {
    exists r :: r in batch && Storable(r) && r.id.value == id
  }

  /** The fields a stored fill may still be missing. */
  datatype Field = OrderField | TickerField | SideField | ActionField | FeeField

  predicate Has(f: Fill, field: Field) {
    match field
    case OrderField => f.orderId.Some?
    case TickerField => f.ticker.Some?
    case SideField => f.side.Some?
    case ActionField => f.isBuy.Some?
    case FeeField => f.fee.Some?
  }

  ghost predicate Carries(batch: seq<FillRecord>, id: FillId, field: Field) {
    exists r :: r in batch && Storable(r) && r.id.value == id && Has(Incoming(r), field)
  }

  /** What one record does: a fill without an id or a price is skipped, a new one is stored, a known one completed. */
  lemma UpsertedExactly(fills: map<FillId, Fill>, r: FillRecord, id: FillId)
    ensures var (after, mine) := (UpsertOne(fills, r), r.id == Some(id) && r.price.Some?);
            && (id in after <==> id in fills || mine)
            && (id in fills && !mine ==> after[id] == fills[id])
            && (mine && id !in fills ==>
                  after[id] == Fill(r.fill.orderId, r.fill.ticker, r.fill.count, r.price.value, r.fill.side,
                                    r.fill.isBuy, r.fill.fee))
            && (mine && id in fills ==>
                  var (was, got) := (fills[id], r.fill);
                  after[id] == Fill(if was.orderId.Some? then was.orderId else got.orderId,
                                    if was.ticker.Some? then was.ticker else got.ticker,
                                    was.count, was.price,
                                    if was.side.Some? then was.side else got.side,
                                    if was.isBuy.Some? then was.isBuy else got.isBuy,
                                    if was.fee.Some? then was.fee else got.fee))
  {
  }

  /** The row for this fill is the truth, cut down to the fields some record carried. */
  ghost predicate Assembled(row: Fill, batch: seq<FillRecord>, id: FillId, truth: Fill) {
    ViewOf(row, truth) && forall field :: Has(row, field) <==> Carries(batch, id, field)
  }

  lemma CarriesSnoc(batch: seq<FillRecord>, r: FillRecord, id: FillId, field: Field)
    ensures Carries(batch + [r], id, field) <==>
              Carries(batch, id, field) || (Storable(r) && r.id.value == id && Has(Incoming(r), field))
  {
    assert forall x :: x in batch + [r] <==> x in batch || x == r;
  }

  lemma {:induction false} UpsertAssembles(batch: seq<FillRecord>, truth: map<FillId, Fill>, id: FillId)
    requires Agree(batch, truth)
    ensures id in UpsertAll(map[], batch) <==> Mentions(batch, id)
    ensures id in UpsertAll(map[], batch) ==>
              id in truth && Assembled(UpsertAll(map[], batch)[id], batch, id, truth[id])
    decreases |batch|
  {
    if batch != [] {
      var (front, r) := (batch[..|batch| - 1], batch[|batch| - 1]);
      assert batch == front + [r];
      assert forall x :: x in batch <==> x in front || x == r;
      UpsertAssembles(front, truth, id);
      forall field ensures Carries(batch, id, field) <==>
        Carries(front, id, field) || (Storable(r) && r.id.value == id && Has(Incoming(r), field))
      {
        CarriesSnoc(front, r, id, field);
      }
    }
  }

  ghost predicate SameRecords(a: seq<FillRecord>, b: seq<FillRecord>) { forall r :: r in a <==> r in b }

  /**
   The fill table depends only on which records arrived: not on their order, their batches, or how
   often each was repeated, as long as records of one fill agree.
   */
  lemma UpsertsCommute(a: seq<FillRecord>, b: seq<FillRecord>, truth: map<FillId, Fill>)
    requires Agree(a, truth) && SameRecords(a, b)
    ensures UpsertAll(map[], a) == UpsertAll(map[], b)
  {
    forall id ensures id in UpsertAll(map[], a) <==> id in UpsertAll(map[], b)
    {
      UpsertAssembles(a, truth, id);
      UpsertAssembles(b, truth, id);
    }
    forall id | id in UpsertAll(map[], a) ensures UpsertAll(map[], a)[id] == UpsertAll(map[], b)[id]
    {
      UpsertAssembles(a, truth, id);
      UpsertAssembles(b, truth, id);
      var (x, y) := (UpsertAll(map[], a)[id], UpsertAll(map[], b)[id]);
      forall field ensures Has(x, field) <==> Has(y, field) {
        assert Carries(a, id, field) <==> Carries(b, id, field);
      }
      SameView(x, y, truth[id]);
    }
  }

  lemma SameView(x: Fill, y: Fill, truth: Fill)
    requires ViewOf(x, truth) && ViewOf(y, truth) && forall field :: Has(x, field) <==> Has(y, field)
    ensures x == y
  {
    assert Has(x, OrderField) <==> Has(y, OrderField);
    assert Has(x, TickerField) <==> Has(y, TickerField);
    assert Has(x, SideField) <==> Has(y, SideField);
    assert Has(x, ActionField) <==> Has(y, ActionField);
    assert Has(x, FeeField) <==> Has(y, FeeField);
  }

  lemma {:induction false} UpsertConcat(fills: map<FillId, Fill>, a: seq<FillRecord>, b: seq<FillRecord>)
    ensures UpsertAll(UpsertAll(fills, a), b) == UpsertAll(fills, a + b)
    decreases |b|
  {
    if b == [] {
      assert a + b == a;
    } else {
      assert (a + b)[..|a + b| - 1] == a + b[..|b| - 1];
      UpsertConcat(fills, a, b[..|b| - 1]);
    }
  }

  /** A repeated or overlapping batch adds nothing: any batch already covered by earlier ones is a no-op. */
  lemma RepeatedUpsertIsNoOp(earlier: seq<FillRecord>, again: seq<FillRecord>, truth: map<FillId, Fill>)
    requires Agree(earlier, truth) && forall r :: r in again ==> r in earlier
    ensures UpsertAll(UpsertAll(map[], earlier), again) == UpsertAll(map[], earlier)
  {
    UpsertConcat(map[], earlier, again);
    UpsertsCommute(earlier + again, earlier, truth);
  }
}
