/** portfolio.py's lots, and the exposure cap over whole runs of evaluations, fills and cancellations. */
module Exposure {
  import opened Wrappers
  import opened Ledger
  import opened Settling
  import opened Strategy

  datatype Lot = Lot(price: int, qty: int, time: real)

  type Lots = map<Ticker, seq<Lot>>

  /** A position as Kalshi reports it; the cost basis may be missing. */
  datatype Position = Position(qty: int, exposure: Option<int>)

  type Positions = map<Ticker, Position>

  function LotsCost(lots: seq<Lot>): int {
    if lots == [] then 0 else LotsCost(lots[..|lots| - 1]) + lots[|lots| - 1].price * lots[|lots| - 1].qty
  }

  function LotsQty(lots: seq<Lot>): int {
    if lots == [] then 0 else LotsQty(lots[..|lots| - 1]) + lots[|lots| - 1].qty
  }

  function NewestTime(lots: seq<Lot>): real {
    if lots == [] then 0.0
    else if |lots| == 1 then lots[0].time
    else
      var front := NewestTime(lots[..|lots| - 1]);
      if lots[|lots| - 1].time > front then lots[|lots| - 1].time else front
  }

  function AbsInt(n: int): int { if n < 0 then -n else n }

  // ---------------------------------------------------------------- exposure_cents

  predicate HasLots(lots: Lots, t: Ticker) { t in lots && lots[t] != [] }

  /** A reported position of unknown cost. */
  predicate CostUnknown(positions: Positions, lots: Lots, t: Ticker) {
    t in positions && positions[t].exposure.None? && !HasLots(lots, t)
  }

  /** What each ticker contributes: Kalshi's number, else the local lots. */
  function CostOf(positions: Positions, lots: Lots, t: Ticker): int {
    if t in positions && positions[t].exposure.Some? then AbsInt(positions[t].exposure.value)
    else if t in lots then LotsCost(lots[t]) else 0
  }

  function Costs(positions: Positions, lots: Lots): map<Ticker, int> {
    map t | t in positions.Keys + lots.Keys :: CostOf(positions, lots, t)
  }

  /** Kalshi's number counts by its size, local lots where there is none; without either the cost is unknown. */
  lemma CostExactly(positions: Positions, lots: Lots, t: Ticker)
    ensures t in positions && positions[t].exposure.Some? ==>
              CostOf(positions, lots, t) >= 0
              && (CostOf(positions, lots, t) == positions[t].exposure.value
                  || CostOf(positions, lots, t) == 0 - positions[t].exposure.value)
    ensures !(t in positions && positions[t].exposure.Some?) ==>
              CostOf(positions, lots, t) == if t in lots then LotsCost(lots[t]) else 0
    ensures CostUnknown(positions, lots, t) <==>
              t in positions && positions[t].exposure.None? && (t in lots ==> |lots[t]| == 0)
  {
  }

  /** What the bot believes it has at risk. */
  ghost function ExposureOf(positions: Positions, lots: Lots): int { SumOf(Costs(positions, lots)) }

  // ---------------------------------------------------------------- reconcile

  predicate Drops(lots: seq<Lot>, held: int, now: real, grace: real) {
    held <= 0 && now - NewestTime(lots) >= grace
  }

  /** The last lot's quantity is moved so that the lots add up to what is held. */
  function Corrected(lots: seq<Lot>, held: int): seq<Lot> {
    if held <= 0 || held == LotsQty(lots) || lots == [] then lots
    else
      var last := |lots| - 1;
      lots[last := lots[last].(qty := Max(lots[last].qty + held - LotsQty(lots), 0))]
  }

  function ReconciledOne(lots: Lots, t: Ticker, held: int, now: real, grace: real): Lots
    requires t in lots
  {
    if Drops(lots[t], held, now, grace) then lots - {t} else lots[t := Corrected(lots[t], held)]
  }

  function HeldOf(positions: map<Ticker, int>, t: Ticker): int { if t in positions then positions[t] else 0 }

  function GraceOf(overrides: map<Ticker, real>, grace: real, t: Ticker): real {
    if t in overrides then overrides[t] else grace
  }

  function Reconciled(lots: Lots, positions: map<Ticker, int>, now: real, grace: real,
                      overrides: map<Ticker, real>): Lots
  {
    map t | t in lots && !Drops(lots[t], HeldOf(positions, t), now, GraceOf(overrides, grace, t)) ::
      Corrected(lots[t], HeldOf(positions, t))
  }

  /** After a reconcile the lots of every held ticker add up to the holding, or are as close as zero lots allow. */
  lemma CorrectedAddsUp(lots: seq<Lot>, held: int)
    requires held > 0 && lots != [] && lots[|lots| - 1].qty >= 0
    ensures var last := |lots| - 1;
            LotsQty(Corrected(lots, held)) == Max(held, LotsQty(lots[..last]))
    ensures LotsQty(lots[..|lots| - 1]) <= held ==> LotsQty(Corrected(lots, held)) == held
  {
    var last := |lots| - 1;
    assert Corrected(lots, held)[..last] == lots[..last];
  }

  /** Only the last lot is corrected, only its quantity, and only while something is held. */
  lemma CorrectedExactly(lots: seq<Lot>, held: int)
    ensures var after := Corrected(lots, held);
            && |after| == |lots|
            && (forall i :: 0 <= i < |lots| - 1 ==> after[i] == lots[i])
            && (lots != [] ==>
                  var (was, new') := (lots[|lots| - 1], after[|lots| - 1]);
                  var others := LotsQty(lots[..|lots| - 1]);
                  && new'.price == was.price && new'.time == was.time
                  && new'.qty == if held <= 0 || held == others + was.qty then was.qty
                               else if held > others then held - others else 0)
  {
  }

  /** A ticker is kept exactly while something is held or one of its lots is younger than its grace period. */
  lemma KeptExactly(lots: Lots, positions: map<Ticker, int>, now: real, grace: real, overrides: map<Ticker, real>,
                    t: Ticker)
    requires t in lots
    ensures var g := if t in overrides then overrides[t] else grace;
            t in Reconciled(lots, positions, now, grace, overrides) <==>
              || (t in positions && positions[t] > 0)
              || (exists i :: 0 <= i < |lots[t]| && now - lots[t][i].time < g)
              || (lots[t] == [] && now < g)
  {
    var g := if t in overrides then overrides[t] else grace;
    ReconciledAt(lots, positions, now, grace, overrides, t);
    if lots[t] != [] { NewestAtMost(lots[t], now - g); }
  }

  lemma {:induction false} NewestAtMost(lots: seq<Lot>, t: real)
    requires lots != []
    ensures NewestTime(lots) <= t <==> forall i :: 0 <= i < |lots| ==> lots[i].time <= t
    decreases |lots|
  {
    if |lots| > 1 {
      var front := lots[..|lots| - 1];
      NewestAtMost(front, t);
      assert (forall i :: 0 <= i < |lots| ==> lots[i].time <= t) <==>
             (forall i :: 0 <= i < |front| ==> front[i].time <= t) && lots[|lots| - 1].time <= t;
    }
  }

  /** Cost and quantity add up lot by lot. */
  lemma {:induction false} LotsAddUp(a: seq<Lot>, b: seq<Lot>, lot: Lot)
    ensures LotsCost([lot]) == lot.price * lot.qty && LotsQty([lot]) == lot.qty
    ensures LotsCost(a + b) == LotsCost(a) + LotsCost(b) && LotsQty(a + b) == LotsQty(a) + LotsQty(b)
    decreases |b|
  {
    assert [lot][..0] == [];
    if b == [] {
      assert a + b == a;
    } else {
      LotsAddUp(a, b[..|b| - 1], lot);
      assert (a + b)[..|a + b| - 1] == a + b[..|b| - 1];
    }
  }

  // ---------------------------------------------------------------- the class

  class Portfolio {
    var positions: Lots

    constructor ()
      ensures positions == map[]
    {
      positions := map[];
    }

    method AddPosition(ticker: Ticker, price: int, shares: int, now: real)
      modifies this
      ensures positions == WithLot(old(positions), ticker, Lot(price, shares, now))
    {
      if ticker !in positions {
        positions := positions[ticker := []];
      }
      positions := positions[ticker := positions[ticker] + [Lot(price, shares, now)]];
    }

    /** One reported ticker: its cost, and whether it is unknown. */
    method CountOne(reported: Positions, ticker: Ticker) returns (cost: int, unknown: bool)
      requires ticker in reported
      ensures cost == CostOf(reported, positions, ticker)
      ensures unknown <==> CostUnknown(reported, positions, ticker)
    {
      cost, unknown := 0, false;
      if reported[ticker].exposure.Some? {
        cost := AbsInt(reported[ticker].exposure.value);
      } else if ticker in positions && positions[ticker] != [] {
        cost := LotsCost(positions[ticker]);
      } else {
        unknown := true;
      }
    }

    /** The first loop: what Kalshi reports. */
    method CountReported(reported: Positions) returns (total: int, unknown: set<Ticker>)
      ensures reported.Keys <= Costs(reported, positions).Keys
      ensures total == SumOver(reported.Keys, Costs(reported, positions))
      ensures forall t :: t in unknown <==> CostUnknown(reported, positions, t)
    {
      hide *;
      total, unknown := 0, {};
      ghost var costs := Costs(reported, positions);
      CostsKeys(reported, positions);
      SumOfNothing(costs);
      UnknownIsReported(reported, positions);
      assert reported.Keys - reported.Keys == {};
      var todo := reported.Keys;
      while todo != {}
        invariant todo <= reported.Keys <= costs.Keys
        invariant total == SumOver(reported.Keys - todo, costs)
        invariant forall t :: t in unknown <==> t in reported && t !in todo && CostUnknown(reported, positions, t)
        decreases |todo|
      {
        var ticker :| ticker in todo;
        CostAt(reported, positions, ticker);
        SumShrinks(reported.Keys, todo, costs, ticker);
        todo := todo - {ticker};
        var cost, isUnknown := CountOne(reported, ticker);
        total := total + cost;
        if isUnknown { unknown := unknown + {ticker}; }
      }
      assert reported.Keys - {} == reported.Keys;
    }

    method ExposureCents(reported: Positions) returns (total: int, unknown: set<Ticker>)
      ensures total == ExposureOf(reported, positions)
      ensures forall t :: t in unknown <==> CostUnknown(reported, positions, t)
    {
      hide *;
      total, unknown := CountReported(reported);
      CostsKeys(reported, positions);
      ghost var costs := Costs(reported, positions);
      ghost var all := reported.Keys + positions.Keys;
      var todo := positions.Keys - reported.Keys;
      assert all - todo == reported.Keys;
      while todo != {}
        invariant todo <= positions.Keys - reported.Keys && all == costs.Keys
        invariant total == SumOver(all - todo, costs)
        decreases |todo|
      {
        var ticker :| ticker in todo;
        CostAt(reported, positions, ticker);
        SumShrinks(all, todo, costs, ticker);
        todo := todo - {ticker};
        total := total + LotsCost(positions[ticker]);
      }
      assert all - {} == costs.Keys;
      TotalIsExposure(reported, positions);
    }

    /** The body of the loop of `reconcile`. */
    method ReconcileTicker(ticker: Ticker, held: int, now: real, grace: real) returns (dropped: bool)
      requires ticker in positions
      modifies this
      ensures dropped <==> Drops(old(positions)[ticker], held, now, grace)
      ensures positions == ReconciledOne(old(positions), ticker, held, now, grace)
    {
      var lots := positions[ticker];
      dropped := false;
      if held <= 0 {
        if now - NewestTime(lots) >= grace {
          positions := positions - {ticker};
          dropped := true;
        }
      } else {
        var local := LotsQty(lots);
        if held != local && lots != [] {
          var last := |lots| - 1;
          positions := positions[ticker := lots[last := lots[last].(qty := Max(lots[last].qty + held - local, 0))]];
        }
      }
    }

    method Reconcile(held: map<Ticker, int>, now: real, grace: real, overrides: map<Ticker, real>)
        returns (dropped: set<Ticker>)
      modifies this
      ensures positions == Reconciled(old(positions), held, now, grace, overrides)
      ensures dropped == old(positions).Keys - positions.Keys
    {
      hide *;
      ghost var before, after := positions, Reconciled(positions, held, now, grace, overrides);
      ReconciledKeys(before, held, now, grace, overrides);
      PartEnds(before, after);
      dropped := {};
      var todo := positions.Keys;
      while todo != {}
        invariant todo <= before.Keys && positions == Part(before, after, todo)
        invariant dropped == before.Keys - todo - after.Keys
        decreases |todo|
      {
        var ticker :| ticker in todo;
        PartStep(before, held, now, grace, overrides, todo, ticker);
        todo := todo - {ticker};
        var gone := ReconcileTicker(ticker, HeldOf(held, ticker), now, GraceOf(overrides, grace, ticker));
        if gone { dropped := dropped + {ticker}; }
      }
    }
  }

  /** Half way through a reconcile: tickers still to do are as before, the others as after. */
  function Part(before: Lots, after: Lots, todo: set<Ticker>): Lots {
    map t | t in before && (t in todo || t in after) :: if t in todo then before[t] else after[t]
  }

  lemma PartEnds(before: Lots, after: Lots)
    requires after.Keys <= before.Keys
    ensures Part(before, after, before.Keys) == before && Part(before, after, {}) == after
  {
  }

  lemma PartStep(before: Lots, held: map<Ticker, int>, now: real, grace: real, overrides: map<Ticker, real>,
                 todo: set<Ticker>, t: Ticker)
    requires t in todo && todo <= before.Keys
    ensures var after := Reconciled(before, held, now, grace, overrides);
            && t in Part(before, after, todo)
            && Part(before, after, todo - {t}) ==
                 ReconciledOne(Part(before, after, todo), t, HeldOf(held, t), now, GraceOf(overrides, grace, t))
            && (t !in after <==> Drops(Part(before, after, todo)[t], HeldOf(held, t), now,
                GraceOf(overrides, grace, t)))
  {
    hide Drops, Corrected, HeldOf, GraceOf;
    ReconciledAt(before, held, now, grace, overrides, t);
    ReconciledKeys(before, held, now, grace, overrides);
  }

  lemma ReconciledKeys(lots: Lots, held: map<Ticker, int>, now: real, grace: real, overrides: map<Ticker, real>)
    ensures Reconciled(lots, held, now, grace, overrides).Keys <= lots.Keys
  {
  }

  lemma ReconciledAt(lots: Lots, held: map<Ticker, int>, now: real, grace: real, overrides: map<Ticker, real>,
      t: Ticker)
    requires t in lots
    ensures var after := Reconciled(lots, held, now, grace, overrides);
            && (t in after <==> !Drops(lots[t], HeldOf(held, t), now, GraceOf(overrides, grace, t)))
            && (t in after ==> after[t] == Corrected(lots[t], HeldOf(held, t)))
  {
  }

  lemma CostsKeys(reported: Positions, lots: Lots)
    ensures Costs(reported, lots).Keys == reported.Keys + lots.Keys
  {
  }

  lemma SumOfNothing(costs: map<Ticker, int>)
    ensures SumOver({}, costs) == 0
  {
  }

  lemma UnknownIsReported(reported: Positions, lots: Lots)
    ensures forall t :: CostUnknown(reported, lots, t) ==> t in reported
  {
  }

  lemma TotalIsExposure(reported: Positions, lots: Lots)
    ensures ExposureOf(reported, lots) == SumOver(Costs(reported, lots).Keys, Costs(reported, lots))
  {
  }

  lemma CostAt(reported: Positions, lots: Lots, t: Ticker)
    requires t in reported || t in lots
    ensures t in Costs(reported, lots)
    ensures Costs(reported, lots)[t] == CostOf(reported, lots, t)
    ensures t !in reported ==> CostOf(reported, lots, t) == LotsCost(lots[t])
  {
  }

  function WithLot(lots: Lots, ticker: Ticker, lot: Lot): Lots {
    lots[ticker := (if ticker in lots then lots[ticker] else []) + [lot]]
  }

  /** Taking one more ticker off the list of those still to do. */
  lemma SumShrinks(all: set<Ticker>, todo: set<Ticker>, costs: map<Ticker, int>, t: Ticker)
    requires todo <= all <= costs.Keys && t in todo
    ensures SumOver(all - (todo - {t}), costs) == SumOver(all - todo, costs) + costs[t]
  {
    SumRemove(all - (todo - {t}), costs, t);
    assert all - (todo - {t}) - {t} == all - todo;
  }
}
