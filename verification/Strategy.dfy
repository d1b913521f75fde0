/** Sizing an order: strategy.py. Money is in whole cents, fractions and percentages are exact reals. */
module Strategy {
  import opened Wrappers

  function Min(a: int, b: int): int { if a <= b then a else b }

  function Max(a: int, b: int): int { if a >= b then a else b }

  /** `compute_shares_to_buy` */
  function ComputeSharesToBuy(balance: int, ask: int, fraction: real): int {
    if balance <= 0 || ask <= 0 || fraction <= 0.0 then 0
    else Max((balance as real * fraction / ask as real).Floor, 0)
  }

  /** `compute_limit_price` */
  function ComputeLimitPrice(ask: Option<int>, buffer: int, cap: int): Option<int> {
    if ask.None? || ask.value <= 0 then None else Some(Min(ask.value + buffer, cap))
  }

  /** The limit is the ask plus the buffer, but never above the cap; without an ask there is none. */
  lemma LimitPriceExactly(ask: Option<int>, buffer: int, cap: int, n: int)
    ensures var limit := ComputeLimitPrice(ask, buffer, cap);
            && (limit.Some? <==> ask.Some? && ask.value >= 1)
            && (limit.Some? ==> (n <= limit.value <==> n <= cap && n - buffer <= ask.value))
  {
  }

  /** Room left under the exposure cap, never below zero. */
  function Headroom(equity: int, openCost: int, maxPct: real): (h: real)
    ensures h >= 0.0
  {
    var room := equity as real * maxPct / 100.0 - openCost as real;
    if room > 0.0 then room else 0.0
  }

  /** `cap_shares` */
  function CapShares(shares: int, limit: Option<int>, cash: int, equity: int, openCost: int, maxPct: real): int {
    if shares <= 0 || limit.None? || limit.value <= 0 then 0
    else
      var byCash := cash / limit.value;
      var byExposure := (Headroom(equity, openCost, maxPct) / limit.value as real).Floor;
      Max(Min(Min(shares, byCash), byExposure), 0)
  }

  lemma HeadroomExactly(equity: int, openCost: int, maxPct: real, cost: int)
    requires cost > 0
    ensures cost as real <= Headroom(equity, openCost, maxPct) <==>
              100.0 * (openCost as real + cost as real) <= equity as real * maxPct
  {
  }

  lemma FloorOfQuotient(n: int, h: real, limit: int)
    requires limit > 0
    ensures n <= (h / limit as real).Floor <==> n as real * limit as real <= h
  {
    var q := h / limit as real;
    assert q * limit as real == h;
    assert n <= q.Floor <==> n as real <= q;
    if n as real <= q {
      assert (q - n as real) * limit as real >= 0.0;
    } else {
      assert (n as real - q) * limit as real > 0.0;
    }
  }

  lemma TimesMonotone(a: int, b: int, limit: int)
    requires limit > 0 && a <= b
    ensures a * limit <= b * limit
  {
  }

  lemma FloorOfIntQuotient(n: int, cash: int, limit: int)
    requires limit > 0
    ensures n <= cash / limit <==> n * limit <= cash
  {
    var (q, r) := (cash / limit, cash % limit);
    assert cash == q * limit + r && 0 <= r < limit;
    if n <= q {
      TimesMonotone(n, q, limit);
    } else {
      TimesMonotone(q + 1, n, limit);
      assert (q + 1) * limit == q * limit + limit;
    }
  }

  /** The capped size is the largest that was asked for, is affordable, and stays under the cap. */
  lemma CapSharesIsLargest(shares: int, limit: int, cash: int, equity: int, openCost: int, maxPct: real, n: int)
    requires limit > 0 && n >= 1
    ensures n <= CapShares(shares, Some(limit), cash, equity, openCost, maxPct) <==>
              && n <= shares
              && n * limit <= cash
              && n as real * limit as real <= Headroom(equity, openCost, maxPct)
  {
    FloorOfIntQuotient(n, cash, limit);
    FloorOfQuotient(n, Headroom(equity, openCost, maxPct), limit);
  }

  /** Nothing is bought without a size, a price or money, and never less than nothing. */
  lemma NothingToBuy(shares: int, limit: Option<int>, cash: int, equity: int, openCost: int, maxPct: real)
    ensures CapShares(shares, limit, cash, equity, openCost, maxPct) >= 0
    ensures shares <= 0 || limit.None? || limit.value <= 0 ==>
              CapShares(shares, limit, cash, equity, openCost, maxPct) == 0
  {
  }

  lemma NothingToSize(balance: int, ask: int, fraction: real)
    ensures ComputeSharesToBuy(balance, ask, fraction) >= 0
    ensures balance <= 0 || ask <= 0 || fraction <= 0.0 ==> ComputeSharesToBuy(balance, ask, fraction) == 0
  {
  }

  /** The bought amount before capping is within the fraction of the bankroll at the ask. */
  lemma SharesWithinFraction(balance: int, ask: int, fraction: real, n: int)
    requires balance > 0 && ask > 0 && fraction > 0.0 && n >= 1
    ensures n <= ComputeSharesToBuy(balance, ask, fraction) <==> n as real * ask as real <= balance as real * fraction
  {
    FloorOfQuotient(n, balance as real * fraction, ask);
  }
}
