/**
 The exposure cap over whole runs. Evaluations read cash, then positions, then place an order; the reply and
 the lookup decide whether the order gets a lot; an order may be accepted late, found again later, filled
 all-or-nothing at or below its limit, or cancelled at any moment. The exchange holds an order's cost back from
 cash and takes no order that cash does not cover. Fees and settlement are left out.
 */
module ExposureCap {
  import opened Wrappers
  import opened Ledger
  import opened Settling
  import opened Strategy
  import opened Exposure
  import FillSync
  import OrderProtocol

  /** The settings of strategy_config that size an order or halt the bot. */
  datatype Config = Config(fraction: real, buffer: int, priceMin: int, priceMax: int, maxPct: real,
    maxDrawdown: real)

  datatype Order = Order(qty: nat, limit: nat)

  datatype Holding = Holding(qty: nat, cost: nat)

  /** The account as it truly is. */
  datatype Account = Account(cash: int, resting: map<Ticker, Order>, held: map<Ticker, Holding>)

  /**
   The one evaluation under the trade lock: what it has read so far. `sound` is history: everything committed was
   counted by the read of positions, and no late order was accepted since the read of cash.
   */
  datatype Pc = Idle | HasCash(cash: int, sound: bool) | HasExposure(cash: int, openCost: int, sound: bool)

  /**
   `sent` are the ledger's rows of our own orders, `unresolved` those still to be looked up. `inFlight`,
   `accepted` and `adopted` are history: POSTs the exchange has not decided, orders it took, and tickers whose
   lot was made from a reported position. `peak` is the high-water mark of the drawdown breaker.
   */
  datatype World = World(
    account: Account,
    lots: Lots,
    sent: map<Ticker, Order>,
    unresolved: set<Ticker>,
    inFlight: set<Ticker>,
    accepted: set<Ticker>,
    adopted: set<Ticker>,
    peak: Option<int>,
    pc: Pc)

  function TrueCost(a: Account, t: Ticker): int {
    if t in a.held then a.held[t].cost
    else if t in a.resting then a.resting[t].qty * a.resting[t].limit else 0
  }

  function TrueCosts(a: Account): map<Ticker, int> {
    map t | t in a.resting.Keys + a.held.Keys :: TrueCost(a, t)
  }

  /** Money committed: resting orders at their limit, holdings at cost. */
  ghost function OpenCost(a: Account): int { SumOf(TrueCosts(a)) }

  ghost function Equity(a: Account): int { a.cash + OpenCost(a) }

  // ---------------------------------------------------------------- what the bot records

  /** A lookup by client order id: it raised, found nothing, or found the order with these counts. */
  datatype Looked = Unanswered | NotThere | Hit(filled: Option<int>, remaining: Option<int>)

  function FirstNonZero(a: Option<int>, b: Option<int>, c: int): int {
    if a.Some? && a.value != 0 then a.value else if b.Some? && b.value != 0 then b.value else c
  }

  /** The lot a found order gets: the row's limit, and what was filled, else what remains, else the row's count. */
  function FoundLot(o: Order, looked: Looked, now: real): Lot
    requires looked.Hit?
  {
    Lot(o.limit, FirstNonZero(looked.filled, looked.remaining, o.qty), now)
  }

  /** The lot the order job records after its reply and, when that is unclear, its lookup. */
  function RecordedLot(o: Order, answer: OrderProtocol.Answer, looked: Looked, now: real): Option<Lot> {
    if answer.Confirmed? then Some(Lot(o.limit, o.qty, now))
    else if !IsRejection(OrderProtocol.ReadAnswer(answer)) && looked.Hit? then Some(FoundLot(o, looked, now))
    else None
  }

  /** The reply left it open whether the order exists, and the lookup did not find it. */
  predicate LeavesUnresolved(answer: OrderProtocol.Answer, looked: Looked) {
    !answer.Confirmed? && !IsRejection(OrderProtocol.ReadAnswer(answer)) && !looked.Hit?
  }

  predicate IsNbaTicker(t: Ticker) { FillSync.NBA_PREFIX <= t }

  /** The price per contract at which a reported position is adopted; 100 is the worst case. */
  function AdoptionPrice(p: Position): int {
    if p.exposure.Some? && p.qty != 0 then FillSync.Round(p.exposure.value as real / p.qty as real) else 100
  }

  type Lookups = map<Ticker, Looked>

  function LookedUp(lookups: Lookups, t: Ticker): Looked { if t in lookups then lookups[t] else Unanswered }

  /** The lot `_adopt_unknown_positions` makes for a held ticker without one; none for a foreign market. */
  function NewLot(w: World, t: Ticker, p: Position, lookups: Lookups, now: real): Option<Lot> {
    if t in w.unresolved && t in w.sent && LookedUp(lookups, t).Hit? then
      Some(FoundLot(w.sent[t], LookedUp(lookups, t), now))
    else if t in w.unresolved || IsNbaTicker(t) then Some(Lot(AdoptionPrice(p), p.qty, now))
    else None
  }

  /** What Kalshi reports: everything held, with its cost unless that is missing. */
  function Reported(a: Account, missing: set<Ticker>): Positions {
    map t | t in a.held :: Position(a.held[t].qty, if t in missing then None else Some(a.held[t].cost))
  }

  function HeldQty(reported: Positions): map<Ticker, int> { map t | t in reported :: reported[t].qty }

  datatype Sync = Sync(missing: set<Ticker>, now: real, grace: real, overrides: map<Ticker, real>, lookups: Lookups)

  function Kept(w: World, x: Sync): Lots {
    Reconciled(w.lots, HeldQty(Reported(w.account, x.missing)), x.now, x.grace, x.overrides)
  }

  /** A held ticker that has no lot after the reconcile and gets one. */
  predicate Adopts(w: World, x: Sync, t: Ticker) {
    t in w.account.held && t !in Kept(w, x)
    && NewLot(w, t, Reported(w.account, x.missing)[t], x.lookups, x.now).Some?
  }

  /** The lots after `_sync_positions`: reconciled, and one new lot for each position that had none. */
  function SyncedLots(w: World, x: Sync): Lots {
    map t | t in Kept(w, x).Keys + w.account.held.Keys && (t in Kept(w, x) || Adopts(w, x, t)) ::
      if t in Kept(w, x) then Kept(w, x)[t]
      else [NewLot(w, t, Reported(w.account, x.missing)[t], x.lookups, x.now).value]
  }

  predicate FoundInSync(w: World, x: Sync, t: Ticker) {
    t in w.unresolved && t in w.sent && LookedUp(x.lookups, t).Hit?
  }

  function StillUnresolved(w: World, x: Sync): set<Ticker> {
    set t | t in w.unresolved && !(Adopts(w, x, t) && FoundInSync(w, x, t))
  }

  function NewlyAdopted(w: World, x: Sync): set<Ticker> {
    set t | t in w.account.held && Adopts(w, x, t) && !FoundInSync(w, x, t)
  }

  // ---------------------------------------------------------------- steps

  /** What the exchange makes of a POST while the client waits. */
  datatype Fate = Takes | Refuses | DecidesLater

  datatype Action =
    | ReadCash
    | ReadPositions(x: Sync)
    | Place(ticker: Ticker, ask: int, now: real, fate: Fate, answer: OrderProtocol.Answer, looked: Looked)
    | GiveUp                                        // skipped, or the process stopped; lots are on disk
    | Late(ticker: Ticker, takes: bool)             // the exchange decides a POST the client stopped waiting for
    | Recover(ticker: Ticker, looked: Looked, now: real)
    | Forget(ticker: Ticker)                        // the row was resolved otherwise, or is too old to look up
    | Fill(ticker: Ticker, price: nat)
    | Cancel(ticker: Ticker)
    | SeesEquity(equity: int)                       // the health job, which may have read its cash long before

  /** `HighWaterMark.update`, for an equity without positions of unknown cost. */
  function Raised(peak: Option<int>, equity: int): Option<int> {
    if equity < 0 then peak
    else if peak.None? || equity > peak.value then Some(equity) else peak
  }

  /** `HighWaterMark.drawdown_pct` */
  function DrawdownPct(peak: Option<int>, equity: int): real {
    if peak.None? || peak.value <= 0 || equity >= peak.value then 0.0
    else (peak.value - equity) as real / peak.value as real * 100.0
  }

  /** `HighWaterMark.is_circuit_broken` */
  predicate BreakerTrips(peak: Option<int>, equity: int, maxDrawdown: real) {
    DrawdownPct(peak, equity) >= maxDrawdown
  }

  ghost predicate CostsKnown(w: World, x: Sync) {
    forall t :: t in w.account.held ==> !CostUnknown(Reported(w.account, x.missing), SyncedLots(w, x), t)
  }

  /**
   The order an evaluation comes to, if any: with the breaker closed, in the band, sized by equity, capped by cash
   and exposure.
   */
  function Wanted(w: World, ask: int, c: Config): Option<Order>
    requires w.pc.HasExposure?
  {
    var equity := w.pc.cash + w.pc.openCost;
    var limit := ComputeLimitPrice(Some(ask), c.buffer, c.priceMax);
    if BreakerTrips(w.peak, equity, c.maxDrawdown) then None
    else if !(c.priceMin <= ask <= c.priceMax) || limit.None? || !(c.priceMin <= limit.value <= c.priceMax) then None
    else
      var n := CapShares(ComputeSharesToBuy(equity, ask, c.fraction), limit, w.pc.cash, equity, w.pc.openCost,
          c.maxPct);
      if n <= 0 then None else Some(Order(n, limit.value))
  }

  /** A lookup reports an order only if the exchange took it, with counts that fit an all-or-nothing order. */
  predicate Truthful(o: Order, accepted: bool, looked: Looked) {
    looked.Hit? ==>
      && accepted
      && (looked.filled.Some? ==> looked.filled.value in {0, o.qty})
      && (looked.remaining.Some? ==> looked.remaining.value in {0, o.qty})
  }

  ghost predicate Possible(w: World, a: Action, c: Config) {
    match a
    case ReadCash => w.pc.Idle?
    case ReadPositions(x) =>
      && w.pc.HasCash?
      && (forall t :: t in w.sent ==> Truthful(w.sent[t], t in w.accepted, LookedUp(x.lookups, t)))
      && (forall t :: t in w.account.resting && t in w.lots ==> t in Kept(w, x))  // no lot goes while its order rests
    case Place(t, ask, _, fate, answer, looked) =>
      && w.pc.HasExposure? && t !in w.lots && t !in w.sent && IsNbaTicker(t)      // one order per client order id
      && (Wanted(w, ask, c).Some? ==>
            var o := Wanted(w, ask, c).value;
            && (fate.Takes? ==> o.qty * o.limit <= w.account.cash)
            && (answer.Confirmed? ==> fate.Takes?) && Truthful(o, fate.Takes?, looked))
    case GiveUp => true
    case Late(t, takes) =>
      t in w.inFlight && t in w.sent && (takes ==> w.sent[t].qty * w.sent[t].limit <= w.account.cash)
    case Recover(t, looked, _) =>
      w.pc.Idle? && t in w.unresolved && t in w.sent && looked.Hit? && Truthful(w.sent[t], t in w.accepted, looked)
    case Forget(_) => true
    case Fill(t, price) => t in w.account.resting && price <= w.account.resting[t].limit && price <= 100
    case Cancel(t) => t in w.account.resting
    case SeesEquity(_) => true
  }

  function Committed(a: Account, t: Ticker, o: Order): Account {
    a.(cash := a.cash - o.qty * o.limit, resting := a.resting[t := o])
  }

  function Disturbed(pc: Pc): Pc { if pc.Idle? then pc else pc.(sound := false) }

  function PlaceStep(w: World, t: Ticker, o: Order, now: real, fate: Fate, answer: OrderProtocol.Answer,
                     looked: Looked): World
  {
    var lot := RecordedLot(o, answer, looked, now);
    World(if fate.Takes? then Committed(w.account, t, o) else w.account,
          if lot.Some? then WithLot(w.lots, t, lot.value) else w.lots,
          w.sent[t := o],
          if LeavesUnresolved(answer, looked) then w.unresolved + {t} else w.unresolved,
          if fate.DecidesLater? then w.inFlight + {t} else w.inFlight,
          if fate.Takes? then w.accepted + {t} else w.accepted,
          w.adopted,
          w.peak,
          Idle)
  }

  ghost function Step(w: World, a: Action, c: Config): World
    requires Possible(w, a, c)
  {
    match a
    case ReadCash => w.(pc := HasCash(w.account.cash, true))
    case ReadPositions(x) =>
      var openCost := ExposureOf(Reported(w.account, x.missing), SyncedLots(w, x));
      w.(lots := SyncedLots(w, x),
         unresolved := StillUnresolved(w, x),
         adopted := w.adopted + NewlyAdopted(w, x),
         peak := if CostsKnown(w, x) then Raised(w.peak, w.pc.cash + openCost) else w.peak,
         pc := HasExposure(w.pc.cash, openCost, w.pc.sound && CountsEverything(w, x)))
    case Place(t, ask, now, fate, answer, looked) =>
      var o := Wanted(w, ask, c);
      if o.None? then w.(pc := Idle) else PlaceStep(w, t, o.value, now, fate, answer, looked)
    case GiveUp => w.(pc := Idle)
    case Late(t, takes) =>
      if takes then w.(account := Committed(w.account, t, w.sent[t]), inFlight := w.inFlight - {t},
                       accepted := w.accepted + {t}, pc := Disturbed(w.pc))
      else w.(inFlight := w.inFlight - {t})
    case Recover(t, looked, now) =>
      w.(lots := if t in w.lots then w.lots else WithLot(w.lots, t, FoundLot(w.sent[t], looked, now)),
         unresolved := w.unresolved - {t})
    case Forget(t) => w.(unresolved := w.unresolved - {t})
    case Fill(t, price) =>
      var o := w.account.resting[t];
      w.(account := Account(w.account.cash + o.qty * o.limit - o.qty * price, w.account.resting - {t},
                            w.account.held[t := Holding(o.qty, o.qty * price)]))
    case Cancel(t) =>
      var o := w.account.resting[t];
      w.(account := w.account.(cash := w.account.cash + o.qty * o.limit, resting := w.account.resting - {t}))
    case SeesEquity(equity) => w.(peak := Raised(w.peak, equity))
  }

  // ---------------------------------------------------------------- what a read of positions misses

  /** Every resting order has its lot, and every position whose cost is missing has lots that cover it. */
  ghost predicate CountsEverything(w: World, x: Sync) {
    && w.account.resting.Keys <= w.lots.Keys
    && forall t :: t in w.account.held && t in x.missing ==>
         t in SyncedLots(w, x) && LotsCost(SyncedLots(w, x)[t]) >= w.account.held[t].cost
  }

  // ---------------------------------------------------------------- the invariant

  function AveragePrice(h: Holding): int
    requires h.qty > 0
  {
    FillSync.Round(h.cost as real / h.qty as real)
  }

  /** How the records of one ticker fit together. */
  predicate Fits(w: World, t: Ticker) {
    var a := w.account;
    && (t in a.resting ==>
          t in w.accepted && t in w.sent && a.resting[t] == w.sent[t] && t !in a.held && t !in w.adopted)
    && (t in w.sent ==> w.sent[t].qty > 0)
    && (t in w.accepted || t in w.inFlight || t in w.unresolved ==> t in w.sent)
    && (t in w.inFlight ==> t !in w.accepted)
    && HoldingFits(w, t) && LotFits(w, t)
  }

  predicate HoldingFits(w: World, t: Ticker) {
    var a := w.account;
    t in a.held ==>
      && a.held[t].qty > 0 && a.held[t].cost <= 100 * a.held[t].qty
      && (t in w.sent ==>
            t in w.accepted && a.held[t].qty == w.sent[t].qty && a.held[t].cost <= a.held[t].qty * w.sent[t].limit)
  }

  /** A ticker has one lot: our order at its limit, or an adopted position at 100 or its rounded average price. */
  predicate LotFits(w: World, t: Ticker) {
    && (t in w.lots ==>
          && |w.lots[t]| == 1 && (t in w.sent ==> t in w.accepted)
          && (t in w.sent || t in w.adopted)
          && (t !in w.adopted ==> w.lots[t][0].qty == w.sent[t].qty && w.lots[t][0].price == w.sent[t].limit))
    && (t in w.adopted ==>
          && t in w.account.held && t in w.lots && |w.lots[t]| == 1 && w.account.held[t].qty > 0
          && w.lots[t][0].qty == w.account.held[t].qty
          && w.lots[t][0].price in {100, AveragePrice(w.account.held[t])})
  }

  ghost predicate AllFit(w: World) { forall t: Ticker :: Fits(w, t) }

  /** What a sound evaluation read is no better than the truth; every NBA position is known to it. */
  ghost predicate ReadsSafely(w: World) {
    match w.pc
    case Idle => true
    case HasCash(cash, sound) => sound ==> cash <= w.account.cash
    case HasExposure(cash, openCost, sound) =>
      && (sound ==> cash <= w.account.cash && OpenCost(w.account) <= openCost)
      && forall t :: t in w.account.held && IsNbaTicker(t) ==> t in w.lots || t in w.sent
  }

  ghost predicate Inv(w: World) { w.account.cash >= 0 && AllFit(w) && ReadsSafely(w) }

  lemma StartFits(cash: nat, held: map<Ticker, Holding>, peak: Option<int>)
    requires forall t :: t in held ==> held[t].qty > 0 && held[t].cost <= 100 * held[t].qty
    ensures Inv(World(Account(cash, map[], held), map[], map[], {}, {}, {}, {}, peak, Idle))
  {
    var w := World(Account(cash, map[], held), map[], map[], {}, {}, {}, {}, peak, Idle);
    forall t: Ticker ensures Fits(w, t) {
    }
  }

  // ---------------------------------------------------------------- sums

  lemma SumAfterUpdate(v: map<Ticker, int>, t: Ticker, x: int)
    ensures SumOf(v[t := x]) == SumOf(v) + x - (if t in v then v[t] else 0)
  {
    var w := v[t := x];
    SumRemove(w.Keys, w, t);
    if t in v { SumRemove(v.Keys, v, t); }
    assert w.Keys - {t} == v.Keys - {t};
    SumAgrees(v.Keys - {t}, v, w);
    if t !in v { assert v.Keys - {t} == v.Keys; }
  }

  lemma SumAfterRemoval(v: map<Ticker, int>, t: Ticker)
    requires t in v
    ensures SumOf(v - {t}) == SumOf(v) - v[t]
  {
    SumRemove(v.Keys, v, t);
    assert (v - {t}).Keys == v.Keys - {t};
    SumAgrees(v.Keys - {t}, v, v - {t});
  }

  /** A sum over more tickers, with nothing for the new ones, taken apart into two. */
  lemma {:induction false} SumApart(all: set<Ticker>, v: map<Ticker, int>, w: map<Ticker, int>, gaps: map<Ticker, int>)
    requires all == gaps.Keys && v.Keys <= all && w.Keys <= all
    requires forall t :: t in all ==> Get(v, t) == Get(w, t) + gaps[t]
    ensures SumOf(v) == SumOf(w) + SumOf(gaps)
    decreases |all|
  {
    if all != {} {
      hide SumOver;
      var t :| t in all;
      SumWithout(v, t);
      SumWithout(w, t);
      SumWithout(gaps, t);
      SumApart(all - {t}, v - {t}, w - {t}, gaps - {t});
    }
  }

  function Get(v: map<Ticker, int>, t: Ticker): int { if t in v then v[t] else 0 }

  lemma SumWithout(v: map<Ticker, int>, t: Ticker)
    ensures SumOf(v) == SumOf(v - {t}) + Get(v, t)
  {
    if t in v { SumAfterRemoval(v, t); } else { assert v - {t} == v; }
  }

  lemma {:induction false} SumNotPositive(ids: set<Ticker>, v: map<Ticker, int>)
    requires ids <= v.Keys && forall t :: t in ids ==> v[t] <= 0
    ensures SumOver(ids, v) <= 0
    decreases |ids|
  {
    if ids != {} {
      var t :| t in ids;
      SumRemove(ids, v, t);
      SumNotPositive(ids - {t}, v);
    }
  }

  // ---------------------------------------------------------------- the exchange's own moves

  lemma TimesMonotone2(q: nat, a: nat, b: nat)
    requires a <= b
    ensures q * a <= q * b
  {
  }

  lemma FillKeepsMoney(a: Account, t: Ticker, price: nat)
    requires t in a.resting && t !in a.held && price <= a.resting[t].limit
    ensures var o := a.resting[t];
            var a' := Account(a.cash + o.qty * o.limit - o.qty * price, a.resting - {t},
                a.held[t := Holding(o.qty, o.qty * price)]);
            a'.cash >= a.cash && OpenCost(a') <= OpenCost(a) && Equity(a') == Equity(a)
  {
    var o := a.resting[t];
    var a' := Account(a.cash + o.qty * o.limit - o.qty * price, a.resting - {t},
        a.held[t := Holding(o.qty, o.qty * price)]);
    TimesMonotone2(o.qty, price, o.limit);
    SumAfterUpdate(TrueCosts(a), t, o.qty * price);
    assert TrueCosts(a') == TrueCosts(a)[t := o.qty * price];
  }

  lemma CancelKeepsMoney(a: Account, t: Ticker)
    requires t in a.resting && t !in a.held
    ensures var o := a.resting[t];
            var a' := a.(cash := a.cash + o.qty * o.limit, resting := a.resting - {t});
            a'.cash >= a.cash && OpenCost(a') <= OpenCost(a) && Equity(a') == Equity(a)
  {
    var o := a.resting[t];
    var a' := a.(cash := a.cash + o.qty * o.limit, resting := a.resting - {t});
    TimesMonotone2(o.qty, 0, o.limit);
    assert TrueCosts(a)[t] == o.qty * o.limit;
    SumAfterRemoval(TrueCosts(a), t);
    assert TrueCosts(a') == TrueCosts(a) - {t};
  }

  lemma CommitKeepsMoney(a: Account, t: Ticker, o: Order)
    requires t !in a.resting && t !in a.held
    ensures var a' := Committed(a, t, o);
            a'.cash == a.cash - o.qty * o.limit && OpenCost(a') == OpenCost(a) + o.qty * o.limit
                && Equity(a') == Equity(a)
  {
    SumAfterUpdate(TrueCosts(a), t, o.qty * o.limit);
    assert TrueCosts(Committed(a, t, o)) == TrueCosts(a)[t := o.qty * o.limit];
  }

  // ---------------------------------------------------------------- steps keep the records together

  lemma ExchangeKeepsFit(w: World, a: Action, c: Config)
    requires AllFit(w) && Possible(w, a, c) && (a.Fill? || a.Cancel? || a.Late?)
    ensures AllFit(Step(w, a, c))
  {
    var w' := Step(w, a, c);
    forall t: Ticker ensures Fits(w', t) {
      assert Fits(w, t) && Fits(w, a.ticker);
      if a.Fill? {
        TimesMonotone2(w.account.resting[a.ticker].qty, a.price, w.account.resting[a.ticker].limit);
        TimesMonotone2(w.account.resting[a.ticker].qty, a.price, 100);
      }
    }
  }

  lemma FoundLotIsOwn(o: Order, looked: Looked, now: real)
    requires looked.Hit? && Truthful(o, true, looked)
    ensures FoundLot(o, looked, now) == Lot(o.limit, o.qty, now)
  {
  }

  lemma RecoverKeepsFit(w: World, t: Ticker, looked: Looked, now: real, c: Config)
    requires AllFit(w) && Possible(w, Recover(t, looked, now), c)
    ensures AllFit(Step(w, Recover(t, looked, now), c))
  {
    var w' := Step(w, Recover(t, looked, now), c);
    FoundLotIsOwn(w.sent[t], looked, now);
    forall u: Ticker ensures Fits(w', u) {
      assert Fits(w, u) && Fits(w, t);
      assert t !in w.lots ==> w'.lots[t] == [Lot(w.sent[t].limit, w.sent[t].qty, now)];
    }
  }

  lemma PlaceKeepsFit(w: World, a: Action, c: Config)
    requires AllFit(w) && ReadsSafely(w) && a.Place? && Possible(w, a, c) && Wanted(w, a.ask, c).Some?
    ensures a.ticker !in w.account.resting && a.ticker !in w.account.held
    ensures AllFit(Step(w, a, c))
  {
    var (w', o) := (Step(w, a, c), Wanted(w, a.ask, c).value);
    var lot := RecordedLot(o, a.answer, a.looked, a.now);
    assert Fits(w, a.ticker);
    if lot.Some? {
      if !a.answer.Confirmed? { FoundLotIsOwn(o, a.looked, a.now); }
      assert w'.lots[a.ticker] == [Lot(o.limit, o.qty, a.now)];
    }
    hide Wanted;
    forall t: Ticker ensures Fits(w', t) {
      assert Fits(w, t);
    }
  }

  /** A reconcile drops a lot or leaves it as it is, and keeps the lots of everything held. */
  lemma KeptLot(w: World, x: Sync, t: Ticker)
    requires Fits(w, t)
    ensures t in Kept(w, x) ==> t in w.lots && Kept(w, x)[t] == w.lots[t]
    ensures t in w.lots && t in w.account.held ==> t in Kept(w, x)
  {
    var held := HeldQty(Reported(w.account, x.missing));
    if t in w.lots {
      ReconciledAt(w.lots, held, x.now, x.grace, x.overrides, t);
      assert w.lots[t] == [w.lots[t][0]] && w.lots[t][..0] == [];
      assert LotsQty(w.lots[t]) == w.lots[t][0].qty;
    } else {
      ReconciledKeys(w.lots, held, x.now, x.grace, x.overrides);
    }
  }

  lemma SyncKeepsFitAt(w: World, x: Sync, t: Ticker, c: Config)
    requires AllFit(w) && Possible(w, ReadPositions(x), c)
    ensures Fits(Step(w, ReadPositions(x), c), t)
  {
    assert Fits(w, t);
    KeptLot(w, x, t);
    if FoundInSync(w, x, t) && LookedUp(x.lookups, t).Hit? {
      FoundLotIsOwn(w.sent[t], LookedUp(x.lookups, t), x.now);
    }
  }

  lemma SyncKeepsFit(w: World, x: Sync, c: Config)
    requires AllFit(w) && Possible(w, ReadPositions(x), c)
    ensures AllFit(Step(w, ReadPositions(x), c))
  {
    forall t: Ticker ensures Fits(Step(w, ReadPositions(x), c), t) { SyncKeepsFitAt(w, x, t, c); }
  }

  // ---------------------------------------------------------------- how far the bot's exposure is off

  /** What the read of positions leaves uncounted of one ticker; less than nothing where it counts too much. */
  function Uncounted(w: World, x: Sync, t: Ticker): int {
    var (a, lots) := (w.account, SyncedLots(w, x));
    if t in a.held then
      if t !in x.missing then 0 else a.held[t].cost - if t in lots then LotsCost(lots[t]) else 0
    else if t in a.resting then if t in lots then 0 else a.resting[t].qty * a.resting[t].limit
    else if t in lots then -LotsCost(lots[t]) else 0
  }

  function Tickers(w: World, x: Sync): set<Ticker> {
    w.account.resting.Keys + w.account.held.Keys + SyncedLots(w, x).Keys
  }

  function Gaps(w: World, x: Sync): map<Ticker, int> { map t | t in Tickers(w, x) :: Uncounted(w, x, t) }

  lemma OneLotCost(lots: seq<Lot>)
    requires |lots| == 1
    ensures LotsCost(lots) == lots[0].price * lots[0].qty
  {
    assert lots[..0] == [];
  }

  lemma UncountedAt(w: World, x: Sync, t: Ticker, c: Config)
    requires AllFit(w) && Possible(w, ReadPositions(x), c) && t in Tickers(w, x)
    ensures var costs := Costs(Reported(w.account, x.missing), SyncedLots(w, x));
            Get(TrueCosts(w.account), t) == Get(costs, t) + Uncounted(w, x, t)
  {
    var (reported, lots) := (Reported(w.account, x.missing), SyncedLots(w, x));
    SyncKeepsFitAt(w, x, t, c);
    KeptLot(w, x, t);
    assert Fits(w, t);
    CostsKeys(reported, lots);
    if t in reported || t in lots { CostAt(reported, lots, t); }
    if t in lots { OneLotCost(lots[t]); }
  }

  /** The bot's exposure is what is truly committed less exactly what is uncounted, ticker by ticker. */
  lemma ExposureIsOffByTheGaps(w: World, x: Sync, c: Config)
    requires AllFit(w) && Possible(w, ReadPositions(x), c)
    ensures OpenCost(w.account) == ExposureOf(Reported(w.account, x.missing), SyncedLots(w, x)) + SumOf(Gaps(w, x))
  {
    var costs := Costs(Reported(w.account, x.missing), SyncedLots(w, x));
    CostsKeys(Reported(w.account, x.missing), SyncedLots(w, x));
    forall t | t in Tickers(w, x) ensures Get(TrueCosts(w.account), t) == Get(costs, t) + Gaps(w, x)[t] {
      UncountedAt(w, x, t, c);
    }
    hide Uncounted, SyncedLots, Costs;
    SumApart(Tickers(w, x), TrueCosts(w.account), costs, Gaps(w, x));
  }

  /** A sound read counts at least what is committed. */
  lemma SoundReadCoversOpenCost(w: World, x: Sync, c: Config)
    requires AllFit(w) && Possible(w, ReadPositions(x), c) && CountsEverything(w, x)
    ensures OpenCost(w.account) <= ExposureOf(Reported(w.account, x.missing), SyncedLots(w, x))
  {
    ExposureIsOffByTheGaps(w, x, c);
    forall t | t in Gaps(w, x) ensures Gaps(w, x)[t] <= 0 { NothingUncounted(w, x, t, c); }
    SumNotPositive(Gaps(w, x).Keys, Gaps(w, x));
  }

  lemma NothingUncounted(w: World, x: Sync, t: Ticker, c: Config)
    requires AllFit(w) && Possible(w, ReadPositions(x), c) && CountsEverything(w, x)
    ensures Uncounted(w, x, t) <= 0
  {
    SyncKeepsFitAt(w, x, t, c);
    KeptLot(w, x, t);
    assert Fits(w, t);
    if t in SyncedLots(w, x) && t !in w.account.held {
      OneLotCost(SyncedLots(w, x)[t]);
      TimesMonotone2(SyncedLots(w, x)[t][0].qty, 0, SyncedLots(w, x)[t][0].price);
    }
  }

  // ---------------------------------------------------------------- positions whose cost Kalshi leaves out

  /** The average price has a fraction that rounding cuts off. */
  predicate RoundsDown(cost: nat, qty: nat)
    requires qty > 0
  {
    var (q, r) := (cost / qty, cost % qty);
    r > 0 && (2 * r < qty || (2 * r == qty && q % 2 == 0))
  }

  lemma AverageParts(cost: nat, qty: nat)
    requires qty > 0
    ensures var (x, q, r) := (cost as real / qty as real, cost / qty, cost % qty);
            && x.Floor == q && cost == q * qty + r && 0 <= r < qty
            && (x - q as real < 0.5 <==> 2 * r < qty) && (x - q as real > 0.5 <==> 2 * r > qty)
  {
    var (x, q, r) := (cost as real / qty as real, cost / qty, cost % qty);
    assert cost == q * qty + r;
    var f := x - q as real;
    assert f * qty as real == r as real by { assert x * qty as real == cost as real; }
    FractionOf(f, r as real, qty as real);
  }

  lemma FractionOf(f: real, r: real, n: real)
    requires n > 0.0 && f * n == r && 0.0 <= r < n
    ensures 0.0 <= f < 1.0
    ensures (f < 0.5 <==> 2.0 * r < n) && (f > 0.5 <==> 2.0 * r > n)
  {
    CompareProducts(f, 0.0, n);
    PerUnit(f, r, n);
    PerUnit(2.0 * f, 2.0 * r, n);
  }

  lemma PerUnit(x: real, total: real, n: real)
    requires n > 0.0 && x * n == total
    ensures (x < 1.0 <==> total < n) && (x > 1.0 <==> total > n)
  {
    CompareProducts(x, 1.0, n);
  }

  lemma CompareProducts(x: real, y: real, n: real)
    requires n > 0.0
    ensures (x < y <==> x * n < y * n) && (x > y <==> x * n > y * n)
  {
    var d := x - y;
    assert x * n - y * n == d * n;
    if d > 0.0 { assert d * n > 0.0; }
    if d < 0.0 { assert d * n < 0.0; }
  }

  /**
   A lot adopted at the rounded average price costs less than the position exactly when the average rounds down,
   and then by at most half a cent per contract.
   */
  lemma AdoptedLotFallsShort(cost: nat, qty: nat)
    requires qty > 0
    ensures var price := AveragePrice(Holding(qty, cost));
            && (price * qty < cost <==> RoundsDown(cost, qty))
            && 2 * (cost - price * qty) <= qty
  {
    AverageParts(cost, qty);
    var (q, r) := (cost / qty, cost % qty);
    assert (q + 1) * qty == q * qty + qty;
  }

  /** 149 cents for 2 contracts are adopted as a lot of 148. */
  lemma AdoptedAt148()
    ensures AveragePrice(Holding(2, 149)) * 2 == 148 && RoundsDown(149, 2)
  {
    AverageParts(149, 2);
  }

  predicate AdoptedAtWorst(lots: seq<Lot>) { lots == [] || lots[0].price == 100 }

  /**
   When the lot of a held ticker covers a cost that Kalshi leaves out: ours always, an adopted one unless it was
   rounded down.
   */
  ghost predicate CoveredWithoutCost(w: World, x: Sync, t: Ticker)
    requires t in w.account.held
  {
    var h := w.account.held[t];
    && t in SyncedLots(w, x)
    && (t !in w.adopted + NewlyAdopted(w, x) || AdoptedAtWorst(SyncedLots(w, x)[t]) || h.qty == 0
        || !RoundsDown(h.cost, h.qty))
  }

  /** The one lot of a held ticker after the sync: our own at a limit that covers it, or an adopted one. */
  lemma HeldLotAfterSync(w: World, x: Sync, t: Ticker, c: Config)
    requires AllFit(w) && Possible(w, ReadPositions(x), c) && t in w.account.held && t in SyncedLots(w, x)
    ensures var (h, ls) := (w.account.held[t], SyncedLots(w, x)[t]);
            && h.qty > 0 && h.cost <= 100 * h.qty && |ls| == 1 && ls[0].qty == h.qty
            && if t in w.adopted + NewlyAdopted(w, x) then ls[0].price in {100, AveragePrice(h)}
               else h.cost <= h.qty * ls[0].price
  {
    SyncKeepsFitAt(w, x, t, c);
    assert Fits(w, t);
  }

  lemma CoverageExactly(w: World, x: Sync, t: Ticker, c: Config)
    requires AllFit(w) && Possible(w, ReadPositions(x), c) && t in w.account.held
    ensures (t in SyncedLots(w, x) && LotsCost(SyncedLots(w, x)[t]) >= w.account.held[t].cost) <==>
            CoveredWithoutCost(w, x, t)
  {
    hide AllFit, Possible, SyncedLots, NewlyAdopted, AveragePrice, RoundsDown, LotsCost;
    if t in SyncedLots(w, x) {
      HeldLotAfterSync(w, x, t, c);
      OneLotCost(SyncedLots(w, x)[t]);
      AdoptedLotFallsShort(w.account.held[t].cost, w.account.held[t].qty);
    }
  }

  /** A read of positions is sound exactly when every resting order has its lot and every missing cost is covered. */
  lemma SoundExactly(w: World, x: Sync, c: Config)
    requires AllFit(w) && Possible(w, ReadPositions(x), c)
    ensures CountsEverything(w, x) <==>
              && w.account.resting.Keys <= w.lots.Keys
              && forall t :: t in w.account.held && t in x.missing ==> CoveredWithoutCost(w, x, t)
  {
    forall t | t in w.account.held
      ensures (t in SyncedLots(w, x) && LotsCost(SyncedLots(w, x)[t]) >= w.account.held[t].cost) <==>
              CoveredWithoutCost(w, x, t)
    {
      CoverageExactly(w, x, t, c);
    }
  }

  // ---------------------------------------------------------------- one placement

  /** Cash is not negative and open cost is at most `pct` percent of equity. */
  ghost predicate WithinCap(a: Account, pct: real) {
    a.cash >= 0 && OpenCost(a) as real <= Equity(a) as real * pct / 100.0
  }

  /** The condition for the cap, from what was read and how far that was off when the order went in. */
  predicate FitsUnderCap(cost: int, readCash: int, readOpen: int, cashGained: int, uncounted: int, pct: real) {
    cost as real + uncounted as real * (1.0 - pct / 100.0)
      <= Headroom(readCash + readOpen, readOpen, pct) + cashGained as real * (pct / 100.0)
  }

  lemma CapArithmetic(cash: int, open: int, readCash: int, readOpen: int, cost: int, pct: real)
    requires cost > 0 && cost as real <= Headroom(readCash + readOpen, readOpen, pct)
    ensures (open + cost) as real <= (cash + open) as real * pct / 100.0 <==>
              FitsUnderCap(cost, readCash, readOpen, cash - readCash, open - readOpen, pct)
  {
    var f := pct / 100.0;
    var (u, d) := ((open - readOpen) as real, (cash - readCash) as real);
    var read := (readCash + readOpen) as real;
    assert (cash + open) as real == read + u + d;
    assert (read + u + d) * pct / 100.0 == read * pct / 100.0 + u * f + d * f;
    assert u * (1.0 - f) == u - u * f;
  }

  lemma LimitPositive(shares: int, limit: int, cash: int, equity: int, openCost: int, pct: real)
    requires CapShares(shares, Some(limit), cash, equity, openCost, pct) > 0
    ensures limit > 0
  {
  }

  lemma WantedFits(w: World, ask: int, c: Config)
    requires w.pc.HasExposure? && Wanted(w, ask, c).Some?
    ensures var o := Wanted(w, ask, c).value;
            && o.qty > 0 && o.limit > 0 && o.qty * o.limit > 0 && o.qty * o.limit <= w.pc.cash
            && (o.qty * o.limit) as real <= Headroom(w.pc.cash + w.pc.openCost, w.pc.openCost, c.maxPct)
  {
    hide CapShares, Headroom, ComputeSharesToBuy;
    var o := Wanted(w, ask, c).value;
    var equity := w.pc.cash + w.pc.openCost;
    var shares := ComputeSharesToBuy(equity, ask, c.fraction);
    LimitPositive(shares, o.limit, w.pc.cash, equity, w.pc.openCost, c.maxPct);
    CapSharesIsLargest(shares, o.limit, w.pc.cash, equity, w.pc.openCost, c.maxPct, o.qty);
    TimesMonotone(1, o.qty, o.limit);
    assert (o.qty * o.limit) as real == o.qty as real * o.limit as real;
  }

  /**
   An order that the exchange takes leaves the account within the cap if and only if it fits under the cap so
   corrected.
   */
  lemma PlacementExactly(w: World, a: Action, c: Config)
    requires Inv(w) && a.Place? && a.fate.Takes? && Possible(w, a, c) && Wanted(w, a.ask, c).Some?
    ensures var (w', o) := (Step(w, a, c), Wanted(w, a.ask, c).value);
            && w'.account.cash >= 0 && Equity(w'.account) == Equity(w.account)
            && (WithinCap(w'.account, c.maxPct) <==>
                  FitsUnderCap(o.qty * o.limit, w.pc.cash, w.pc.openCost, w.account.cash - w.pc.cash,
                               OpenCost(w.account) - w.pc.openCost, c.maxPct))
  {
    hide Wanted, FitsUnderCap, AllFit, ReadsSafely, Headroom, RecordedLot, LeavesUnresolved, WithLot;
    var o := Wanted(w, a.ask, c).value;
    PlaceKeepsFit(w, a, c);
    WantedFits(w, a.ask, c);
    CommitKeepsMoney(w.account, a.ticker, o);
    CapArithmetic(w.account.cash, OpenCost(w.account), w.pc.cash, w.pc.openCost, o.qty * o.limit, c.maxPct);
  }

  lemma NoMoreThan(cost: real, u: real, v: real, d: real, f: real, h: real)
    requires u <= 0.0 && v >= 0.0 && d >= 0.0 && f >= 0.0 && cost <= h
    ensures cost + u * v <= h + d * f
  {
    ProductNotNegative(-u, v);
    ProductNotNegative(d, f);
  }

  lemma ProductNotNegative(x: real, y: real)
    requires x >= 0.0 && y >= 0.0
    ensures x * y >= 0.0
  {
  }

  lemma SoundFitsUnderCap(cost: int, readCash: int, readOpen: int, cashGained: int, uncounted: int, pct: real)
    requires 0.0 <= pct <= 100.0 && cashGained >= 0 && uncounted <= 0
    requires cost as real <= Headroom(readCash + readOpen, readOpen, pct)
    ensures FitsUnderCap(cost, readCash, readOpen, cashGained, uncounted, pct)
  {
    hide Headroom;
    NoMoreThan(cost as real, uncounted as real, 1.0 - pct / 100.0, cashGained as real, pct / 100.0,
               Headroom(readCash + readOpen, readOpen, pct));
  }

  // ---------------------------------------------------------------- every step

  lemma MoneyStep(w: World, a: Action, c: Config)
    requires Inv(w) && Possible(w, a, c)
    ensures var w' := Step(w, a, c);
            && w'.account.cash >= 0 && Equity(w'.account) == Equity(w.account)
            && (a.Fill? || a.Cancel? ==>
                  w'.account.cash >= w.account.cash && OpenCost(w'.account) <= OpenCost(w.account))
  {
    match a
    case Fill(t, price) =>
      assert Fits(w, t);
      FillKeepsMoney(w.account, t, price);
    case Cancel(t) =>
      assert Fits(w, t);
      CancelKeepsMoney(w.account, t);
    case Late(t, takes) =>
      assert Fits(w, t);
      if takes { CommitKeepsMoney(w.account, t, w.sent[t]); }
    case Place(t, ask, _, fate, _, _) =>
      if Wanted(w, ask, c).Some? {
        PlaceKeepsFit(w, a, c);
        if fate.Takes? { CommitKeepsMoney(w.account, t, Wanted(w, ask, c).value); }
      }
    case _ =>
  }

  lemma StepKeepsFit(w: World, a: Action, c: Config)
    requires Inv(w) && Possible(w, a, c)
    ensures AllFit(Step(w, a, c))
  {
    match a
    case ReadPositions(x) => SyncKeepsFit(w, x, c);
    case Place(_, ask, _, _, _, _) =>
      if Wanted(w, ask, c).Some? { PlaceKeepsFit(w, a, c); } else { SameRecords(w, Step(w, a, c)); }
    case Recover(t, looked, now) => RecoverKeepsFit(w, t, looked, now, c);
    case ReadCash => SameRecords(w, Step(w, a, c));
    case GiveUp => SameRecords(w, Step(w, a, c));
    case Forget(_) => SameRecords(w, Step(w, a, c));
    case SeesEquity(_) => SameRecords(w, Step(w, a, c));
    case _ => ExchangeKeepsFit(w, a, c);
  }

  lemma SameRecords(w: World, w': World)
    requires AllFit(w) && w' == w.(pc := w'.pc, peak := w'.peak, unresolved := w'.unresolved)
    requires w'.unresolved <= w.unresolved
    ensures AllFit(w')
  {
    forall t: Ticker ensures Fits(w', t) { assert Fits(w, t); }
  }

  lemma SyncReadsSafely(w: World, x: Sync, c: Config)
    requires Inv(w) && Possible(w, ReadPositions(x), c)
    ensures ReadsSafely(Step(w, ReadPositions(x), c))
  {
    if CountsEverything(w, x) { SoundReadCoversOpenCost(w, x, c); }
    forall t | t in w.account.held && IsNbaTicker(t) ensures t in SyncedLots(w, x) {
    }
  }

  lemma StepReadsSafely(w: World, a: Action, c: Config)
    requires Inv(w) && Possible(w, a, c)
    ensures ReadsSafely(Step(w, a, c))
  {
    match a
    case ReadPositions(x) => SyncReadsSafely(w, x, c);
    case Fill(t, _) =>
      MoneyStep(w, a, c);
      assert Fits(w, t);
    case Cancel(_) => MoneyStep(w, a, c);
    case _ =>
  }

  lemma StepKeepsInv(w: World, a: Action, c: Config)
    requires Inv(w) && Possible(w, a, c)
    ensures Inv(Step(w, a, c)) && Equity(Step(w, a, c).account) == Equity(w.account)
  {
    StepKeepsFit(w, a, c);
    MoneyStep(w, a, c);
    StepReadsSafely(w, a, c);
  }

  // ---------------------------------------------------------------- whole runs

  /** The worlds a run passes through, the first included. */
  ghost predicate IsRun(ws: seq<World>, acts: seq<Action>, c: Config) {
    && |ws| == |acts| + 1
    && forall i :: 0 <= i < |acts| ==> Possible(ws[i], acts[i], c) && ws[i + 1] == Step(ws[i], acts[i], c)
  }

  lemma {:induction false} RunKeepsInv(ws: seq<World>, acts: seq<Action>, c: Config, k: nat)
    requires IsRun(ws, acts, c) && Inv(ws[0]) && k <= |acts|
    ensures Inv(ws[k]) && Equity(ws[k].account) == Equity(ws[0].account)
  {
    if k > 0 {
      RunKeepsInv(ws, acts, c, k - 1);
      hide Inv, Step, Possible;
      StepKeepsInv(ws[k - 1], acts[k - 1], c);
    }
  }

  /** The k-th action places an order and the exchange takes it at once. */
  ghost predicate Places(ws: seq<World>, acts: seq<Action>, c: Config, k: nat)
    requires IsRun(ws, acts, c) && k < |acts|
  {
    acts[k].Place? && acts[k].fate.Takes? && Wanted(ws[k], acts[k].ask, c).Some?
  }

  /**
   Over any run, whatever was lost, late, found again or left out of a report: cash is never negative, no step
   changes equity, and a placement leaves open cost within the cap if and only if the order fits under the cap
   after correcting for the cash gained since it was read and for what the read of positions left uncounted.
   */
  lemma CapExactlyAtEveryPlacement(ws: seq<World>, acts: seq<Action>, c: Config, k: nat)
    requires IsRun(ws, acts, c) && Inv(ws[0]) && k < |acts|
    ensures ws[k + 1].account.cash >= 0 && Equity(ws[k + 1].account) == Equity(ws[0].account)
    ensures Places(ws, acts, c, k) ==>
              var (w, o) := (ws[k], Wanted(ws[k], acts[k].ask, c).value);
              WithinCap(ws[k + 1].account, c.maxPct) <==>
                FitsUnderCap(o.qty * o.limit, w.pc.cash, w.pc.openCost, w.account.cash - w.pc.cash,
                             OpenCost(w.account) - w.pc.openCost, c.maxPct)
  {
    RunKeepsInv(ws, acts, c, k);
    RunKeepsInv(ws, acts, c, k + 1);
    assert Possible(ws[k], acts[k], c) && ws[k + 1] == Step(ws[k], acts[k], c);
    hide Inv, Step, Possible, FitsUnderCap, WithinCap, Wanted;
    InvHasCash(ws[k + 1]);
    if Places(ws, acts, c, k) { PlacementExactly(ws[k], acts[k], c); }
  }

  lemma InvHasCash(w: World)
    requires Inv(w)
    ensures w.account.cash >= 0
  {
  }

  /** A placement after a sound read stays within the cap, in any run, lost and recovered orders before it included. */
  lemma SoundPlacementStaysWithinCap(ws: seq<World>, acts: seq<Action>, c: Config, k: nat)
    requires IsRun(ws, acts, c) && Inv(ws[0]) && k < |acts| && Places(ws, acts, c, k)
    requires 0.0 <= c.maxPct <= 100.0 && ws[k].pc.sound
    ensures WithinCap(ws[k + 1].account, c.maxPct)
  {
    var (w, o) := (ws[k], Wanted(ws[k], acts[k].ask, c).value);
    RunKeepsInv(ws, acts, c, k);
    CapExactlyAtEveryPlacement(ws, acts, c, k);
    WantedFits(w, acts[k].ask, c);
    hide Wanted, IsRun, AllFit;
    SoundFitsUnderCap(o.qty * o.limit, w.pc.cash, w.pc.openCost, w.account.cash - w.pc.cash,
                      OpenCost(w.account) - w.pc.openCost, c.maxPct);
  }

  // ---------------------------------------------------------------- which orders the bot does not count

  /** Orders at the exchange that have no lot. */
  function Unrecorded(w: World): set<Ticker> { w.account.resting.Keys - w.lots.Keys }

  /** The reply, or else the lookup, gave the order its lot. */
  ghost predicate Recorded(answer: OrderProtocol.Answer, looked: Looked) {
    || answer.Confirmed?
    || (looked.Hit? && (answer.HttpError? ==> !OrderProtocol.ReadsAsRejection(answer.code, answer.body)))
  }

  /**
   An order goes uncounted exactly when it is taken without a usable reply or lookup, at once or late; it is
   counted again once a later lookup finds it, and it is gone once it fills or is cancelled.
   */
  lemma UnrecordedStepwise(w: World, a: Action, c: Config)
    requires Inv(w) && Possible(w, a, c)
    ensures Unrecorded(Step(w, a, c)) ==
              match a
              case Place(t, ask, _, fate, answer, looked) =>
                if Wanted(w, ask, c).Some? && fate.Takes? && !Recorded(answer, looked) then Unrecorded(w) + {t}
                else Unrecorded(w)
              case Late(t, takes) => if takes then Unrecorded(w) + {t} else Unrecorded(w)
              case Recover(t, _, _) => Unrecorded(w) - {t}
              case Fill(t, _) => Unrecorded(w) - {t}
              case Cancel(t) => Unrecorded(w) - {t}
              case _ => Unrecorded(w)
  {
    match a
    case ReadPositions(x) => SyncLeavesUnrecorded(w, x, c);
    case Late(t, _) => assert Fits(w, t);
    case Place(t, ask, _, _, answer, _) =>
      RecordedExactly(answer);
      if Wanted(w, ask, c).Some? { PlaceKeepsFit(w, a, c); }
    case _ =>
  }

  lemma RecordedExactly(answer: OrderProtocol.Answer)
    ensures !answer.Confirmed? ==>
              (IsRejection(OrderProtocol.ReadAnswer(answer)) <==>
                 answer.HttpError? && OrderProtocol.ReadsAsRejection(answer.code, answer.body))
  {
    if answer.HttpError? { OrderProtocol.ReadErrorExactly(answer.code, answer.body); }
  }

  lemma SyncLeavesUnrecorded(w: World, x: Sync, c: Config)
    requires Inv(w) && Possible(w, ReadPositions(x), c)
    ensures Unrecorded(Step(w, ReadPositions(x), c)) == Unrecorded(w)
  {
    forall t | t in w.account.resting ensures t in SyncedLots(w, x) <==> t in w.lots {
      assert Fits(w, t);
      KeptLot(w, x, t);
    }
  }

  /** No order is taken unrecorded or late, and every missing cost is covered by its lot. */
  ghost predicate Orderly(w: World, a: Action, c: Config) {
    match a
    case Place(_, _, _, fate, answer, looked) => fate.Takes? ==> Recorded(answer, looked)
    case Late(_, takes) => !takes
    case ReadPositions(x) => forall t :: t in w.account.held && t in x.missing ==> CoveredWithoutCost(w, x, t)
    case _ => true
  }

  ghost predicate AllOrderly(ws: seq<World>, acts: seq<Action>, c: Config)
    requires |ws| == |acts| + 1
  {
    forall i :: 0 <= i < |acts| ==> Orderly(ws[i], acts[i], c)
  }

  predicate SoundSoFar(w: World) { Unrecorded(w) == {} && (w.pc.Idle? || w.pc.sound) }

  lemma OrderlyStep(w: World, a: Action, c: Config)
    requires Inv(w) && Possible(w, a, c) && Orderly(w, a, c) && SoundSoFar(w)
    ensures SoundSoFar(Step(w, a, c))
  {
    UnrecordedStepwise(w, a, c);
    if a.ReadPositions? {
      forall t | t in w.account.resting ensures t in w.lots { assert t !in Unrecorded(w); }
      SoundExactly(w, a.x, c);
    }
  }

  lemma {:induction false} OrderlyRunIsSound(ws: seq<World>, acts: seq<Action>, c: Config, k: nat)
    requires IsRun(ws, acts, c) && Inv(ws[0]) && SoundSoFar(ws[0]) && AllOrderly(ws, acts, c) && k <= |acts|
    ensures SoundSoFar(ws[k])
  {
    if k > 0 {
      OrderlyRunIsSound(ws, acts, c, k - 1);
      RunKeepsInv(ws, acts, c, k - 1);
      assert Possible(ws[k - 1], acts[k - 1], c) && Orderly(ws[k - 1], acts[k - 1], c);
      hide Inv, Step, Possible, Orderly, SoundSoFar;
      OrderlyStep(ws[k - 1], acts[k - 1], c);
    }
  }

  /**
   Over any run in which every order the exchange takes gets a reply or a lookup that records it, every placement
   leaves open cost within the cap.
   */
  lemma CapHoldsAtEveryPlacement(ws: seq<World>, acts: seq<Action>, c: Config, k: nat)
    requires IsRun(ws, acts, c) && Inv(ws[0]) && SoundSoFar(ws[0]) && AllOrderly(ws, acts, c)
    requires 0.0 <= c.maxPct <= 100.0 && k < |acts| && Places(ws, acts, c, k)
    ensures WithinCap(ws[k + 1].account, c.maxPct)
  {
    OrderlyRunIsSound(ws, acts, c, k);
    SoundPlacementStaysWithinCap(ws, acts, c, k);
  }

  // ---------------------------------------------------------------- how far past the cap the breaker lets it go

  /** The bot has seen all of its equity at least once. */
  ghost predicate PeakSeen(w: World) { w.peak.Some? && w.peak.value > 0 && w.peak.value >= Equity(w.account) }

  /** The peak never falls and equity never moves, so a peak that was seen stays so. */
  lemma {:induction false} PeakStaysSeen(ws: seq<World>, acts: seq<Action>, c: Config, j: nat, k: nat)
    requires IsRun(ws, acts, c) && Inv(ws[0]) && j <= k <= |acts| && PeakSeen(ws[j])
    ensures PeakSeen(ws[k])
    decreases k - j
  {
    if j < k {
      PeakStaysSeen(ws, acts, c, j, k - 1);
      RunKeepsInv(ws, acts, c, k - 1);
      StepKeepsInv(ws[k - 1], acts[k - 1], c);
    }
  }

  /** One read in which every cost is known, everything is counted and cash has not moved is enough. */
  lemma PeakSeenByRead(w: World, x: Sync, c: Config)
    requires Inv(w) && Possible(w, ReadPositions(x), c) && Equity(w.account) > 0
    requires w.pc.cash == w.account.cash && CountsEverything(w, x) && CostsKnown(w, x)
    ensures PeakSeen(Step(w, ReadPositions(x), c))
  {
    SoundReadCoversOpenCost(w, x, c);
  }

  lemma ClosedBreaker(peak: int, equity: int, pct: real)
    requires peak > 0 && pct >= 0.0 && !BreakerTrips(Some(peak), equity, pct)
    ensures (peak - equity) as real <= peak as real * pct / 100.0
  {
    if equity >= peak {
      ProductNotNegative(peak as real, pct);
    } else {
      var d := (peak - equity) as real / peak as real;
      assert d * peak as real == (peak - equity) as real;
      CompareProducts(d, pct / 100.0, peak as real);
    }
  }

  lemma ExcessArithmetic(cash: int, open: int, readCash: int, readOpen: int, cost: int, f: real, lost: real)
    requires 0.0 <= f <= 1.0 && cost > 0
    requires cost as real <= (readCash + readOpen) as real * f - readOpen as real
    requires (cash + open - readCash - readOpen) as real <= lost
    ensures (open + cost) as real - (cash + open) as real * f <= lost * (1.0 - f) + (readCash - cash) as real
  {
    var (u, d) := ((open - readOpen) as real, (cash - readCash) as real);
    assert (cash + open) as real * f == (readCash + readOpen) as real * f + (u + d) * f;
    ProductNotNegative(lost - (u + d), 1.0 - f);
    assert (lost - (u + d)) * (1.0 - f) == lost * (1.0 - f) - (u + d) + (u + d) * f;
  }

  /** What open cost exceeds the cap by; less than nothing while it is within. */
  ghost function Excess(a: Account, pct: real): real { OpenCost(a) as real - Equity(a) as real * (pct / 100.0) }

  /** The most a placement can exceed the cap by, when so much cash has left since it was read. */
  function ExcessBound(peak: int, cashLost: int, c: Config): real {
    peak as real * c.maxDrawdown / 100.0 * (1.0 - c.maxPct / 100.0) + cashLost as real
  }

  lemma HeadroomUsed(equity: int, openCost: int, pct: real, cost: int)
    requires cost > 0 && cost as real <= Headroom(equity, openCost, pct)
    ensures cost as real <= equity as real * (pct / 100.0) - openCost as real
  {
    assert equity as real * pct / 100.0 == equity as real * (pct / 100.0);
  }

  lemma ExcessInNumbers(peak: int, cash: int, open: int, readCash: int, readOpen: int, cost: int, c: Config)
    requires peak > 0 && peak >= cash + open && !BreakerTrips(Some(peak), readCash + readOpen, c.maxDrawdown)
    requires cost > 0 && cost as real <= Headroom(readCash + readOpen, readOpen, c.maxPct)
    requires 0.0 <= c.maxPct <= 100.0 && c.maxDrawdown >= 0.0
    ensures (open + cost) as real - (cash + open) as real * (c.maxPct / 100.0) <= ExcessBound(peak, readCash - cash, c)
  {
    ClosedBreaker(peak, readCash + readOpen, c.maxDrawdown);
    HeadroomUsed(readCash + readOpen, readOpen, c.maxPct, cost);
    hide Headroom, BreakerTrips;
    ExcessArithmetic(cash, open, readCash, readOpen, cost, c.maxPct / 100.0, peak as real * c.maxDrawdown / 100.0);
  }

  /** What a placement the exchange takes does to the account. */
  lemma PlacementMoney(w: World, a: Action, c: Config)
    requires Inv(w) && a.Place? && a.fate.Takes? && Possible(w, a, c) && Wanted(w, a.ask, c).Some?
    ensures var (a', o) := (Step(w, a, c).account, Wanted(w, a.ask, c).value);
            OpenCost(a') == OpenCost(w.account) + o.qty * o.limit && Equity(a') == Equity(w.account)
  {
    PlaceKeepsFit(w, a, c);
    hide Wanted, AllFit, ReadsSafely, RecordedLot, LeavesUnresolved, WithLot;
    CommitKeepsMoney(w.account, a.ticker, Wanted(w, a.ask, c).value);
  }

  lemma WantedPassesBreaker(w: World, ask: int, c: Config)
    requires w.pc.HasExposure? && Wanted(w, ask, c).Some?
    ensures !BreakerTrips(w.peak, w.pc.cash + w.pc.openCost, c.maxDrawdown)
  {
  }

  lemma ExcessOfOne(w: World, a: Account, cost: int, c: Config)
    requires w.pc.HasExposure? && PeakSeen(w) && 0.0 <= c.maxPct <= 100.0 && c.maxDrawdown >= 0.0
    requires !BreakerTrips(w.peak, w.pc.cash + w.pc.openCost, c.maxDrawdown)
    requires cost > 0 && cost as real <= Headroom(w.pc.cash + w.pc.openCost, w.pc.openCost, c.maxPct)
    requires OpenCost(a) == OpenCost(w.account) + cost && Equity(a) == Equity(w.account)
    ensures Excess(a, c.maxPct) <= ExcessBound(w.peak.value, w.pc.cash - w.account.cash, c)
  {
    hide Headroom, BreakerTrips, ExcessBound, OpenCost;
    ExcessInNumbers(w.peak.value, w.account.cash, OpenCost(w.account), w.pc.cash, w.pc.openCost, cost, c);
  }

  /**
   Whatever was lost or left out, once the bot has seen all of its equity the breaker bounds what a placement can
   exceed the cap by: the drawdown limit's share of the peak, less the cap's share of that, and whatever left cash
   since the evaluation read it.
   */
  lemma BreakerBoundsTheExcess(ws: seq<World>, acts: seq<Action>, c: Config, j: nat, k: nat)
    requires IsRun(ws, acts, c) && Inv(ws[0]) && j <= k < |acts| && PeakSeen(ws[j]) && Places(ws, acts, c, k)
    requires 0.0 <= c.maxPct <= 100.0 && c.maxDrawdown >= 0.0
    ensures PeakSeen(ws[k])
    ensures Excess(ws[k + 1].account, c.maxPct)
            <= ExcessBound(ws[k].peak.value, ws[k].pc.cash - ws[k].account.cash, c)
  {
    PeakStaysSeen(ws, acts, c, j, k);
    RunKeepsInv(ws, acts, c, k);
    assert Possible(ws[k], acts[k], c) && ws[k + 1] == Step(ws[k], acts[k], c);
    hide Inv, Step, Possible, Wanted, Excess, ExcessBound, OpenCost, Equity, Headroom, BreakerTrips, PeakSeen, IsRun;
    var o := Wanted(ws[k], acts[k].ask, c).value;
    WantedFits(ws[k], acts[k].ask, c);
    WantedPassesBreaker(ws[k], acts[k].ask, c);
    PlacementMoney(ws[k], acts[k], c);
    ExcessOfOne(ws[k], ws[k + 1].account, o.qty * o.limit, c);
  }

  // ---------------------------------------------------------------- a lost order breaks the cap

  /** A fifth of equity per order, with the default exposure cap and drawdown limit. */
  const FIFTH := Config(0.2, 0, 1, 1, 30.0, 25.0)

  const LOST := "KXNBAGAME-A"

  const NEXT := "KXNBAGAME-B"

  /** A bot at rest that once saw 100 cents, with these rows and nothing recorded. */
  function Unaware(cash: int, resting: map<Ticker, Order>): World {
    World(Account(cash, resting, map[]), map[], resting, resting.Keys, {}, resting.Keys, {}, Some(100), Idle)
  }

  const NO_POSITIONS := Sync({}, 0.0, 0.0, map[], map[])

  lemma ReadsNothing(cash: nat, resting: map<Ticker, Order>)
    requires cash <= 100
    ensures var w := Unaware(cash, resting);
            && Possible(w, ReadCash, FIFTH)
            && Possible(Step(w, ReadCash, FIFTH), ReadPositions(NO_POSITIONS), FIFTH)
            && Step(Step(w, ReadCash, FIFTH), ReadPositions(NO_POSITIONS), FIFTH)
               == w.(pc := HasExposure(cash, 0, resting == map[]))
  {
    var w := Step(Unaware(cash, resting), ReadCash, FIFTH);
    assert Kept(w, NO_POSITIONS) == map[] && SyncedLots(w, NO_POSITIONS) == map[];
    assert StillUnresolved(w, NO_POSITIONS) == w.unresolved && NewlyAdopted(w, NO_POSITIONS) == {};
    assert Costs(map[], map[]) == map[] && Reported(w.account, {}) == map[];
    assert SumOf(map[]) == 0;
    if resting != map[] {
      var t :| t in resting;
      assert t in w.account.resting && t !in w.lots;
    }
  }

  /** A fifth of what is seen is ordered, since the breaker stays closed at four fifths of the peak. */
  lemma FifthOf(w: World)
    requires w.pc.HasExposure? && w.pc.cash in {80, 100} && w.pc.openCost == 0 && w.peak == Some(100)
    ensures Wanted(w, 1, FIFTH) == Some(Order(w.pc.cash / 5, 1))
  {
    var cash := w.pc.cash;
    assert DrawdownPct(w.peak, cash) == (100 - cash) as real;
    assert Headroom(cash, 0, 30.0) == (cash * 3 / 10) as real && ComputeSharesToBuy(cash, 1, 0.2) == cash / 5;
    CapSharesIsLargest(cash / 5, 1, cash, cash, 0, 30.0, cash / 5);
    CapSharesIsLargest(cash / 5, 1, cash, cash, 0, 30.0, cash / 5 + 1);
  }

  /** One more action of a run. */
  lemma Then(ws: seq<World>, acts: seq<Action>, a: Action, c: Config) returns (ws': seq<World>, acts': seq<Action>)
    requires |ws| == |acts| + 1 && IsRun(ws, acts, c) && Possible(ws[|acts|], a, c)
    ensures IsRun(ws', acts', c) && acts' == acts + [a] && ws' == ws + [Step(ws[|acts|], a, c)]
  {
    hide Step, Possible;
    ws', acts' := ws + [Step(ws[|acts|], a, c)], acts + [a];
  }

  /**
   An accepted order whose reply and lookup were both lost has no lot; the next evaluation counts neither its cost
   nor the cash held back for it, passes the breaker, and places an order that leaves 36 of 100 open under a cap
   of 30.
   */
  lemma LostOrderBreaksTheCap() returns (ws: seq<World>, acts: seq<Action>)
    ensures IsRun(ws, acts, FIFTH) && |acts| == 6 && Inv(ws[0])
    ensures Places(ws, acts, FIFTH, 5) && Recorded(acts[5].answer, acts[5].looked)
    ensures OpenCost(ws[6].account) == 36 && Equity(ws[6].account) == 100 && !WithinCap(ws[6].account, 30.0)
  {
    var lost := Place(LOST, 1, 0.0, Takes, OrderProtocol.NoReply, Unanswered);
    var next := Place(NEXT, 1, 0.0, Takes, OrderProtocol.Confirmed("1", None), Unanswered);
    var (rich, poor) := (Unaware(100, map[]), Unaware(80, map[LOST := Order(20, 1)]));
    StartFits(100, map[], Some(100));
    LostOrderStep(rich.(pc := HasExposure(100, 0, true)), lost, poor);
    BrokenCap(poor.(pc := HasExposure(80, 0, false)), next);
    hide Step, Possible, Inv, WithinCap, Wanted, IsRun, Unaware, OpenCost, Equity;
    StartsRun(rich);
    ws, acts := ReadsBoth([rich], [], 100, map[]);
    ws, acts := Then(ws, acts, lost, FIFTH);
    ws, acts := ReadsBoth(ws, acts, 80, map[LOST := Order(20, 1)]);
    ws, acts := Then(ws, acts, next, FIFTH);
  }

  lemma ReadsBoth(ws: seq<World>, acts: seq<Action>, cash: nat, resting: map<Ticker, Order>)
    returns (ws': seq<World>, acts': seq<Action>)
    requires |ws| == |acts| + 1 && IsRun(ws, acts, FIFTH) && ws[|acts|] == Unaware(cash, resting) && cash <= 100
    ensures |acts'| == |acts| + 2 && |ws'| == |ws| + 2 && IsRun(ws', acts', FIFTH) && ws'[0] == ws[0]
    ensures ws'[|acts'|] == Unaware(cash, resting).(pc := HasExposure(cash, 0, resting == map[]))
  {
    ReadsNothing(cash, resting);
    hide Step, Possible, IsRun, Unaware;
    ws', acts' := Then(ws, acts, ReadCash, FIFTH);
    ws', acts' := Then(ws', acts', ReadPositions(NO_POSITIONS), FIFTH);
  }

  lemma StartsRun(w: World)
    ensures IsRun([w], [], FIFTH)
  {
  }

  lemma LostOrderStep(w: World, lost: Action, poor: World)
    requires w == Unaware(100, map[]).(pc := HasExposure(100, 0, true))
    requires lost == Place(LOST, 1, 0.0, Takes, OrderProtocol.NoReply, Unanswered)
    requires poor == Unaware(80, map[LOST := Order(20, 1)])
    ensures Possible(w, lost, FIFTH) && Step(w, lost, FIFTH) == poor
  {
    FifthOf(w);
    hide Wanted;
    assert Wanted(w, 1, FIFTH) == Some(Order(20, 1));
  }

  lemma BrokenCap(w: World, next: Action)
    requires w == Unaware(80, map[LOST := Order(20, 1)]).(pc := HasExposure(80, 0, false))
    requires next == Place(NEXT, 1, 0.0, Takes, OrderProtocol.Confirmed("1", None), Unanswered)
    ensures Possible(w, next, FIFTH) && Wanted(w, 1, FIFTH).Some?
    ensures var a := Step(w, next, FIFTH).account;
            OpenCost(a) == 36 && Equity(a) == 100 && !WithinCap(a, 30.0)
  {
    FifthOf(w);
    hide Wanted;
    assert Wanted(w, 1, FIFTH) == Some(Order(16, 1));
    var (a0, a1) := (Account(100, map[], map[]), w.account);
    assert TrueCosts(a0) == map[] && SumOf(map[]) == 0;
    assert Committed(a0, LOST, Order(20, 1)) == a1;
    CommitKeepsMoney(a0, LOST, Order(20, 1));
    CommitKeepsMoney(a1, NEXT, Order(16, 1));
  }
}
