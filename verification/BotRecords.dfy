/** What an evaluation orders and what the bot writes down of it, written out case by case. */
module BotRecords {
  import opened Wrappers
  import opened Ledger
  import opened Strategy
  import opened Exposure
  import opened ExposureCap
  import FillSync
  import OrderProtocol

  // ---------------------------------------------------------------- the breaker

  /** The mark is the largest equity seen that was not negative. */
  lemma MarkExactly(peak: Option<int>, equity: int, n: int)
    ensures Raised(peak, equity).Some? <==> peak.Some? || equity >= 0
    ensures Raised(peak, equity).Some? ==>
              (Raised(peak, equity).value >= n <==>
                 || (peak.Some? && peak.value >= n)
                 || (equity >= 0 && equity >= n && (peak.None? || equity >= peak.value)))
  {
  }

  lemma MarkNeverFalls(peak: Option<int>, equity: int)
    ensures peak.Some? ==> Raised(peak, equity).Some? && Raised(peak, equity).value >= peak.value
    ensures equity >= 0 ==> Raised(peak, equity).Some? && Raised(peak, equity).value >= equity
  {
  }

  /** The breaker trips exactly when the loss since the mark is the limit's percentage of it, or more. */
  lemma TripsExactly(peak: Option<int>, equity: int, maxDrawdown: real)
    requires maxDrawdown > 0.0
    ensures BreakerTrips(peak, equity, maxDrawdown) <==>
              && peak.Some? && peak.value > 0 && equity < peak.value
              && (peak.value - equity) as real * 100.0 >= maxDrawdown * peak.value as real
  {
    if peak.Some? && peak.value > 0 && equity < peak.value {
      var (d, p) := ((peak.value - equity) as real / peak.value as real, peak.value as real);
      assert d * p == (peak.value - equity) as real;
      CompareProducts(d * 100.0, maxDrawdown, p);
      assert (d * 100.0) * p == (d * p) * 100.0;
    }
  }

  // ---------------------------------------------------------------- the order

  /** This many contracts fit the fraction of equity at the ask, and cash and the cap at the limit. */
  predicate SizeFits(n: int, ask: int, limit: int, equity: int, cash: int, openCost: int, c: Config) {
    && equity > 0 && c.fraction > 0.0
    && n as real * ask as real <= equity as real * c.fraction
    && n * limit <= cash
    && n as real * limit as real <= Headroom(equity, openCost, c.maxPct)
  }

  lemma SizedExactly(n: int, ask: int, limit: int, equity: int, cash: int, openCost: int, c: Config)
    requires n >= 1 && ask >= 1 && limit >= 1
    ensures n <= CapShares(ComputeSharesToBuy(equity, ask, c.fraction), Some(limit), cash, equity, openCost, c.maxPct)
            <==> SizeFits(n, ask, limit, equity, cash, openCost, c)
  {
    var shares := ComputeSharesToBuy(equity, ask, c.fraction);
    if equity > 0 && c.fraction > 0.0 {
      SharesWithinFraction(equity, ask, c.fraction, n);
    } else {
      NothingToSize(equity, ask, c.fraction);
    }
    CapSharesIsLargest(shares, limit, cash, equity, openCost, c.maxPct, n);
    hide CapShares, ComputeSharesToBuy, Headroom;
  }

  /**
   An evaluation orders exactly when the breaker is closed, the ask and the limit are in the band and at least one
   contract fits; it orders the largest number that fits.
   */
  lemma OrdersExactly(w: World, ask: int, c: Config, n: int)
    requires w.pc.HasExposure? && n >= 1
    ensures var (o, equity) := (Wanted(w, ask, c), w.pc.cash + w.pc.openCost);
            var limit := if ask + c.buffer <= c.priceMax then ask + c.buffer else c.priceMax;
            (o.Some? && n <= o.value.qty) <==>
              && !BreakerTrips(w.peak, equity, c.maxDrawdown)
              && ask >= 1 && c.priceMin <= ask <= c.priceMax && c.priceMin <= limit && limit >= 1
              && SizeFits(n, ask, limit, equity, w.pc.cash, w.pc.openCost, c)
  {
    var equity := w.pc.cash + w.pc.openCost;
    var limit := ComputeLimitPrice(Some(ask), c.buffer, c.priceMax);
    if limit.Some? && limit.value >= 1 {
      SizedExactly(n, ask, limit.value, equity, w.pc.cash, w.pc.openCost, c);
    } else {
      NothingToBuy(ComputeSharesToBuy(equity, ask, c.fraction), limit, w.pc.cash, equity, w.pc.openCost, c.maxPct);
    }
    hide CapShares, ComputeSharesToBuy, SizeFits, BreakerTrips;
  }

  lemma OrderedAtLimit(w: World, ask: int, c: Config)
    requires w.pc.HasExposure? && Wanted(w, ask, c).Some?
    ensures var o := Wanted(w, ask, c).value;
            o.qty >= 1 && o.limit == if ask + c.buffer <= c.priceMax then ask + c.buffer else c.priceMax
  {
  }

  // ---------------------------------------------------------------- what is written down

  /** Contracts of a found order: those filled, else those remaining, else those asked for. */
  predicate CountOfFound(o: Order, looked: Looked, n: int) {
    && looked.Hit?
    && if looked.filled.Some? && looked.filled.value != 0 then n == looked.filled.value
       else if looked.remaining.Some? && looked.remaining.value != 0 then n == looked.remaining.value
       else n == o.qty
  }

  /** The client cannot tell from the reply whether the order exists. */
  ghost predicate Unclear(answer: OrderProtocol.Answer) {
    answer.NoReply? || (answer.HttpError? && !OrderProtocol.ReadsAsRejection(answer.code, answer.body))
  }

  /**
   After a placement: a lot on a confirmation, or on a hit after an unclear reply; else, if unclear, a row to look up.
   */
  lemma PlacementWrites(w: World, t: Ticker, o: Order, now: real, fate: Fate, answer: OrderProtocol.Answer,
                        looked: Looked)
    ensures var w' := PlaceStep(w, t, o, now, fate, answer, looked);
            && w'.sent == w.sent[t := o] && w'.adopted == w.adopted && w'.peak == w.peak && w'.pc.Idle?
            && w'.inFlight == (if fate.DecidesLater? then w.inFlight + {t} else w.inFlight)
            && w'.accepted == (if fate.Takes? then w.accepted + {t} else w.accepted)
            && (answer.Confirmed? ==> w'.lots == WithLot(w.lots, t, Lot(o.limit, o.qty, now)))
            && (Unclear(answer) && looked.Hit? ==>
                  exists n :: CountOfFound(o, looked, n) && w'.lots == WithLot(w.lots, t, Lot(o.limit, n, now)))
            && (!answer.Confirmed? && !(Unclear(answer) && looked.Hit?) ==> w'.lots == w.lots)
            && w'.unresolved == if Unclear(answer) && !looked.Hit? then w.unresolved + {t} else w.unresolved
  {
    RecordedExactly(answer);
    assert Unclear(answer) <==> !answer.Confirmed? && !IsRejection(OrderProtocol.ReadAnswer(answer));
    hide OrderProtocol.ReadsAsRejection, OrderProtocol.ReadAnswer, WithLot;
    if looked.Hit? { assert CountOfFound(o, looked, FoundLot(o, looked, now).qty); }
  }

  /**
   A sync keeps the lots the reconcile kept; any other held ticker gets one: of its own order, if that was unresolved
   and the lookup finds it, else, for an unresolved or NBA ticker, at the rounded average price, 100 without a cost.
   */
  lemma SyncWrites(w: World, x: Sync, t: Ticker)
    ensures var lots := SyncedLots(w, x);
            var kept := Reconciled(w.lots, HeldQty(Reported(w.account, x.missing)), x.now, x.grace, x.overrides);
            var found := t in w.unresolved && t in w.sent && t in x.lookups && x.lookups[t].Hit?;
            && (t in kept ==> t in lots && lots[t] == kept[t])
            && (t !in kept ==>
                  && (t in lots <==> t in w.account.held && (t in w.unresolved || "KXNBAGAME-" <= t))
                  && (t in lots ==>
                        && |lots[t]| == 1 && lots[t][0].time == x.now
                        && if found then lots[t][0].price == w.sent[t].limit
                                         && CountOfFound(w.sent[t], x.lookups[t], lots[t][0].qty)
                           else lots[t][0].qty == w.account.held[t].qty
                                && IsAdoptionPrice(lots[t][0].price, w.account.held[t], t in x.missing)))
            && (t in StillUnresolved(w, x) <==>
                  t in w.unresolved && !(t !in kept && t in w.account.held && found))
  {
  }

  predicate IsAdoptionPrice(price: int, h: Holding, missing: bool) {
    if missing || h.qty == 0 then price == 100
    else price == FillSync.Round(h.cost as real / h.qty as real)
  }
}
