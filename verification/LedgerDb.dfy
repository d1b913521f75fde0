/** The Ledger class: its methods change the tables in place, each proved equal to its function on values. */
module LedgerTables {
  import opened Wrappers
  import opened Ledger
  import opened Settling

  class LedgerDb {
    var orders: seq<OrderRow>
    var fills: map<FillId, Fill>
    var settlements: map<nat, Settlement>

    constructor ()
      ensures State() == EMPTY_LEDGER
    {
      orders, fills, settlements := [], map[], map[];
    }

    function State(): LedgerState
      reads this
    {
      LedgerState(orders, fills, settlements)
    }

    method BeginOrder(ticker: Ticker, c: ClientId, count: int, limit: int) returns (pk: nat, created: bool)
      modifies `orders
      ensures (State(), pk, created) == Ledger.BeginOrder(old(State()), ticker, c, count, limit)
    {
      var found := FirstWithClientId(State(), c);
      if found.Some? { return found.value, false; }
      pk, created := |orders|, true;
      orders := orders + [OrderRow(ticker, c, None, count, limit, Submitting, None, None, None, None)];
    }

    /** The reply of a method that may raise: nothing when it did its work. */
    method MarkPlaced(pk: nat, oid: OrderId, status: Option<string>) returns (raised: Option<Error>)
      modifies `orders
      ensures raised == Raised(Ledger.MarkPlaced(old(State()), pk, oid, status))
      ensures State() == After(old(State()), Ledger.MarkPlaced(old(State()), pk, oid, status))
    {
      if pk >= |orders| { return Some(NoSuchOrder); }
      var row := orders[pk];
      if row.outcome !in {Submitting, Unconfirmed, Placed} { return Some(IllegalTransition); }
      if pk in settlements { return Some(AlreadySettled); }
      orders := orders[pk := row.(outcome := Placed, orderId := Some(oid), status := Coalesce(status, row.status),
                                  via := Coalesce(row.via, Some(Response)))];
      raised := None;
    }

    method SetOrderOutcome(pk: nat, outcome: Outcome) returns (raised: Option<Error>)
      modifies `orders
      ensures raised == Raised(Ledger.SetOrderOutcome(old(State()), pk, outcome))
      ensures State() == After(old(State()), Ledger.SetOrderOutcome(old(State()), pk, outcome))
    {
      if outcome in {Submitting, Placed, Adopted} { return Some(NotSettable); }
      if pk >= |orders| { return Some(NoSuchOrder); }
      if !MaySet(orders[pk].outcome, outcome) { return Some(IllegalTransition); }
      if pk in settlements { return Some(AlreadySettled); }
      orders := orders[pk := orders[pk].(outcome := outcome)];
      raised := None;
    }

    method ApplyOrderState(pk: nat, oid: Option<OrderId>, status: Option<string>, filled: Option<int>,
                           avg: Option<real>, via: Via) returns (raised: Option<Error>)
      modifies `orders
      ensures raised == Raised(Ledger.ApplyOrderState(old(State()), pk, oid, status, filled, avg, via))
      ensures State() == After(old(State()), Ledger.ApplyOrderState(old(State()), pk, oid, status, filled, avg, via))
    {
      if pk >= |orders| { return Some(NoSuchOrder); }
      if pk in settlements { return Some(AlreadySettled); }
      orders := orders[pk := AppliedRow(orders[pk], oid, status, filled, avg, via)];
      raised := None;
    }

    method AdoptOrder(ticker: Ticker, oid: Option<OrderId>, filled: int, avg: Option<real>, limit: int, token: nat)
      returns (pk: nat)
      modifies `orders
      ensures (State(), pk) == Ledger.AdoptOrder(old(State()), ticker, oid, filled, avg, limit, token)
      ensures |orders| > |old(orders)| ==>
                var n := if filled > 0 then filled else 0;
                && pk == |old(orders)|
                && orders == old(orders) + [OrderRow(ticker, if oid.Some? then AdoptedOrder(oid.value)
                                                             else AdoptedAnon(token),
                                                     oid, n, limit, Adopted, Some(n), None, avg, Some(Adopt))]
    {
      if oid.Some? {
        var found := FirstWithOrderId(State(), oid.value);
        if found.Some? { return found.value; }
      }
      var n := NonNegative(filled);
      pk := |orders|;
      orders := orders + [OrderRow(ticker, AdoptedClientId(oid, token), oid, n, limit, Adopted, Some(n), None, avg,
          Some(Adopt))];
    }

    method AttachOrderId(pk: nat, oid: OrderId) returns (attached: bool)
      modifies `orders
      ensures (State(), attached) == Ledger.AttachOrderId(old(State()), pk, oid)
    {
      if pk >= |orders| || !orders[pk].outcome.Adopted? || orders[pk].orderId.Some? || pk in settlements {
        return false;
      }
      orders := orders[pk := orders[pk].(orderId := Some(oid))];
      attached := true;
    }

    method UpsertFills(batch: seq<FillRecord>) returns (inserted: nat)
      modifies `fills
      ensures fills == UpsertAll(old(fills), batch)
      ensures inserted == |fills| - |old(fills)|
    {
      inserted := 0;
      var i := 0;
      while i < |batch|
        invariant i <= |batch|
        invariant fills == UpsertAll(old(fills), batch[..i])
        invariant inserted == |fills| - |old(fills)|
      {
        assert batch[..i + 1][..i] == batch[..i];
        var f := batch[i];
        i := i + 1;
        if !Storable(f) { continue; }
        var id := f.id.value;
        if id in fills {
          fills := fills[id := MergeFill(fills[id], Incoming(f))];
        } else {
          fills := fills[id := Incoming(f)];
          inserted := inserted + 1;
        }
      }
      assert batch[..|batch|] == batch;
    }

    /** The stored fills of an order, each once, in whatever order the query lists them. */
    method FillsForOrder(oid: Option<OrderId>) returns (ids: seq<FillId>)
      ensures forall i, j :: 0 <= i < j < |ids| ==> ids[i] != ids[j]
      ensures forall id :: id in ids <==> id in FillsFor(fills, oid)
    {
      ids := [];
      var rest := FillsFor(fills, oid).Keys;
      while rest != {}
        invariant rest <= FillsFor(fills, oid).Keys
        invariant forall i, j :: 0 <= i < j < |ids| ==> ids[i] != ids[j]
        invariant forall id :: id in ids <==> id in FillsFor(fills, oid).Keys - rest
        decreases |rest|
      {
        var id :| id in rest;
        assert id !in ids;
        ids, rest := ids + [id], rest - {id};
      }
    }

    method RecordSettlementFromFills(pk: nat, yesWon: bool) returns (pnl: Result<Option<int>, Error>)
      modifies `settlements
      ensures match RecordSettlement(old(State()), pk, yesWon)
              case Ok(r) => State() == r.0 && pnl == Ok(r.1)
              case Err(e) => State() == old(State()) && pnl == Err(e)
      ensures pnl.Ok? && pnl.value.Some? ==>
                && pk < |orders| && pk in settlements && pnl.value.value == settlements[pk].pnl
                && IsCashOfRow(settlements[pk], fills, orders[pk], yesWon)
    {
      RecordedIsCash(State(), pk, yesWon);
      hide IsCashOfRow;
      if pk >= |orders| || !IsOpen(orders[pk].outcome) { return Ok(None); }
      var row := orders[pk];
      var ids := FillsForOrder(row.orderId);
      var fs := FillsFor(fills, row.orderId);
      if ids != [] {
        assert ids[0] in fs;
        var r := AddUp(ids, fs, yesWon);
        if r.Err? { return Err(r.error); }
        settlements := settlements[pk := r.value];
        return Ok(Some(r.value.pnl));
      }
      assert fs == map[] by {
        forall id ensures id !in fs { assert id in fs <==> id in ids; }
      }
      var s := ComputedSettlement(row, yesWon);
      settlements := settlements[pk := s];
      return Ok(Some(s.pnl));
    }
  }

  /** The loop of `record_settlement_from_fills` over the listed fills. */
  method AddUp(ids: seq<FillId>, fs: map<FillId, Fill>, yesWon: bool) returns (r: Result<Settlement, Error>)
    requires forall i, j :: 0 <= i < j < |ids| ==> ids[i] != ids[j]
    requires forall id :: id in ids <==> id in fs
    ensures AllSupported(fs) <==> r.Ok?
    ensures r.Err? ==> r.error == UnsupportedSide
    ensures r.Ok? ==> r.value == FillSettlement(fs, yesWon)
  {
    AddedNone(ids, fs, yesWon);
    hide Added, Payoff, FeeOf, FillSettlement;
    var gross, fee, total := 0, 0, 0;
    var i := 0;
    while i < |ids|
      invariant i <= |ids|
      invariant forall k :: 0 <= k < i ==> Supported(fs[ids[k]])
      invariant Done(ids, i) <= fs.Keys && Added(Done(ids, i), fs, yesWon, (gross, fee, total))
    {
      assert ids[i] in ids;
      var f := fs[ids[i]];
      if !Supported(f) { return Err(UnsupportedSide); }
      AddedStep(ids, i, fs, yesWon, (gross, fee, total));
      gross := gross + Payoff(f, yesWon);
      fee := fee + FeeOf(f);
      total := total + f.count;
      i := i + 1;
    }
    assert Done(ids, i) == fs.Keys by {
      forall id | id in fs ensures id in Done(ids, i) { assert id in ids; }
    }
    AllAdded(fs, yesWon, (gross, fee, total));
    r := Ok(Settlement(yesWon, total, fee, gross - fee, KalshiFills));
  }

  function Raised(r: Result<LedgerState, Error>): Option<Error> {
    if r.Ok? then None else Some(r.error)
  }

  function After(l: LedgerState, r: Result<LedgerState, Error>): LedgerState {
    if r.Ok? then r.value else l
  }

  /** The ids listed before position i. */
  ghost function Done(ids: seq<FillId>, i: nat): set<FillId>
    requires i <= |ids|
  {
    set k | 0 <= k < i :: ids[k]
  }

  ghost predicate Added(ids: set<FillId>, fs: map<FillId, Fill>, yesWon: bool, sums: (int, int, int))
    requires ids <= fs.Keys
  {
    && sums.0 - sums.1 == SumOver(ids, NetValues(fs, yesWon))
    && sums.1 == SumOver(ids, FeeValues(fs))
    && sums.2 == SumOver(ids, CountValues(fs))
  }

  lemma AddedNone(ids: seq<FillId>, fs: map<FillId, Fill>, yesWon: bool)
    ensures Done(ids, 0) <= fs.Keys && Added(Done(ids, 0), fs, yesWon, (0, 0, 0))
  {
  }

  lemma AllAdded(fs: map<FillId, Fill>, yesWon: bool, sums: (int, int, int))
    requires Added(fs.Keys, fs, yesWon, sums)
    ensures FillSettlement(fs, yesWon) == Settlement(yesWon, sums.2, sums.1, sums.0 - sums.1, KalshiFills)
  {
    assert NetValues(fs, yesWon).Keys == FeeValues(fs).Keys == CountValues(fs).Keys == fs.Keys;
  }

  lemma AddedStep(ids: seq<FillId>, i: nat, fs: map<FillId, Fill>, yesWon: bool, sums: (int, int, int))
    requires i < |ids| && (forall a, b :: 0 <= a < b < |ids| ==> ids[a] != ids[b])
    requires ids[i] in fs && Done(ids, i) <= fs.Keys && Added(Done(ids, i), fs, yesWon, sums)
    ensures var f := fs[ids[i]];
            && Done(ids, i + 1) <= fs.Keys
            && Added(Done(ids, i + 1), fs, yesWon, (sums.0 + Payoff(f, yesWon), sums.1 + FeeOf(f), sums.2 + f.count))
  {
    DoneStep(ids, i, NetValues(fs, yesWon));
    DoneStep(ids, i, FeeValues(fs));
    DoneStep(ids, i, CountValues(fs));
  }

  lemma DoneStep(ids: seq<FillId>, i: nat, v: map<FillId, int>)
    requires i < |ids| && (forall a, b :: 0 <= a < b < |ids| ==> ids[a] != ids[b])
    requires ids[i] in v && Done(ids, i) <= v.Keys
    ensures Done(ids, i + 1) <= v.Keys
    ensures SumOver(Done(ids, i + 1), v) == SumOver(Done(ids, i), v) + v[ids[i]]
  {
    assert ids[i] in Done(ids, i + 1);
    assert Done(ids, i + 1) - {ids[i]} == Done(ids, i);
    SumRemove(Done(ids, i + 1), v, ids[i]);
  }
}
