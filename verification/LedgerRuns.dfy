/** What the tables keep over any run of the calls main.py makes. */
module LedgerRuns {
  import opened Wrappers
  import opened Ledger
  import opened Settling

  datatype LedgerAction =
    | Begin(ticker: Ticker, game: string, count: int, limit: int)
    | Place(pk: nat, oid: OrderId, status: Option<string>)      // mark_placed, or apply_order_state if that refuses
    | SetOutcome(pk: nat, outcome: Outcome)
    | Apply(pk: nat, appliedId: Option<OrderId>, status: Option<string>, filled: Option<int>, avg: Option<real>,
        via: Via)
    | AdoptNew(ticker: Ticker, adoptedId: Option<OrderId>, count: int, avg: Option<real>, limit: int, token: nat)
    | Attach(pk: nat, oid: OrderId)
    | Upsert(batch: seq<FillRecord>)
    | Settle(pk: nat, yesWon: bool)

  function OrKeep(l: LedgerState, r: Result<LedgerState, Error>): LedgerState {
    if r.Ok? then r.value else l
  }

  function PlaceReply(l: LedgerState, pk: nat, oid: OrderId, status: Option<string>): LedgerState {
    var r := MarkPlaced(l, pk, oid, status);
    if r.Ok? then r.value else OrKeep(l, ApplyOrderState(l, pk, Some(oid), status, None, None, Response))
  }

  /** A call that raises leaves the tables as they were. */
  ghost function LStep(l: LedgerState, a: LedgerAction): LedgerState {
    match a
    case Begin(ticker, game, count, limit) => BeginOrder(l, ticker, Game(game, ticker), count, limit).0
    case Place(pk, oid, status) => PlaceReply(l, pk, oid, status)
    case SetOutcome(pk, outcome) => OrKeep(l, SetOrderOutcome(l, pk, outcome))
    case Apply(pk, oid, status, filled, avg, via) => OrKeep(l, ApplyOrderState(l, pk, oid, status, filled, avg, via))
    case AdoptNew(ticker, oid, count, avg, limit, token) => AdoptOrder(l, ticker, oid, count, avg, limit, token).0
    case Attach(pk, oid) => AttachOrderId(l, pk, oid).0
    case Upsert(batch) => l.(fills := UpsertAll(l.fills, batch))
    case Settle(pk, yesWon) =>
      var r := RecordSettlement(l, pk, yesWon);
      if r.Ok? then r.value.0 else l
  }

  /**
   How main.py calls the ledger: a reply is recorded on a game's own row, an adopted row is only told
   its own order id again, and the random token of a position-only adoption is new.
   */
  ghost predicate CalledByMain(l: LedgerState, a: LedgerAction) {
    match a
    case Place(pk, _, _) => pk < |l.orders| ==> l.orders[pk].clientId.Game?
    case Apply(pk, oid, _, _, _, _) =>
      pk < |l.orders| && l.orders[pk].outcome.Adopted? ==> oid.None? || oid == l.orders[pk].orderId
    case AdoptNew(_, oid, _, _, _, token) => oid.None? ==> !HasClientId(l, AdoptedAnon(token))
    case _ => true
  }

  ghost predicate HasClientId(l: LedgerState, c: ClientId) {
    exists i :: 0 <= i < |l.orders| && l.orders[i].clientId == c
  }

  // ---------------------------------------------------------------- the order state machine

  ghost predicate WellFormed(l: LedgerState) {
    && (forall i, j :: 0 <= i < j < |l.orders| ==> l.orders[i].clientId != l.orders[j].clientId)
    && (forall i :: 0 <= i < |l.orders| ==> RowFits(l.orders[i]))
    && (forall pk :: pk in l.settlements ==> pk < |l.orders| && IsOpen(l.orders[pk].outcome))
  }

  predicate RowFits(row: OrderRow) {
    && (row.clientId.AdoptedOrder? ==> row.orderId == Some(row.clientId.order))
    && (row.clientId.Game? <==> !row.outcome.Adopted?)
  }

  function Rank(o: Outcome): nat {
    match o
    case Submitting => 0
    case Unconfirmed => 1
    case Placed => 3
    case Adopted => 3
    case _ => 2
  }

  /** How one row may change in one step. */
  predicate RowMoves(row: OrderRow, row': OrderRow) {
    && row'.ticker == row.ticker && row'.clientId == row.clientId
    && row'.count == row.count && row'.limitPrice == row.limitPrice
    && (row'.outcome == row.outcome || Rank(row'.outcome) > Rank(row.outcome))
  }

  /** Rows are never lost, settled rows never change, every outcome change raises the rank. */
  ghost predicate Moves(l: LedgerState, l': LedgerState) {
    && |l.orders| <= |l'.orders|
    && (forall i :: 0 <= i < |l.orders| ==> RowMoves(l.orders[i], l'.orders[i]))
    && (forall i :: 0 <= i < |l.orders| && i in l.settlements ==> l'.orders[i] == l.orders[i])
    && l.settlements.Keys <= l'.settlements.Keys
    && (forall i :: |l.orders| <= i < |l'.orders| ==> l'.orders[i].outcome.Submitting? || l'.orders[i].outcome.Adopted?)
  }

  lemma AppendKeepsWellFormed(l: LedgerState, row: OrderRow)
    requires WellFormed(l) && RowFits(row) && !HasClientId(l, row.clientId)
    ensures WellFormed(l.(orders := l.orders + [row]))
  {
  }

  lemma UpdateKeepsWellFormed(l: LedgerState, pk: nat, row: OrderRow)
    requires WellFormed(l) && pk < |l.orders| && RowFits(row) && row.clientId == l.orders[pk].clientId
    requires pk !in l.settlements
    ensures WellFormed(l.(orders := l.orders[pk := row]))
  {
  }

  lemma BeginKeepsWellFormed(l: LedgerState, ticker: Ticker, c: ClientId, count: int, limit: int)
    requires WellFormed(l) && c.Game?
    ensures var (l', pk, created) := BeginOrder(l, ticker, c, count, limit);
            && WellFormed(l') && Moves(l, l') && pk < |l'.orders| && l'.orders[pk].clientId == c
            && (created <==> !HasClientId(l, c))
            && (created ==> l'.orders[pk].outcome.Submitting? && pk == |l.orders|)
            && (!created ==> l' == l)
  {
    var found := FirstWithClientId(l, c);
    if found.None? {
      AppendKeepsWellFormed(l, OrderRow(ticker, c, None, count, limit, Submitting, None, None, None, None));
    }
  }

  lemma AdoptKeepsWellFormed(l: LedgerState, ticker: Ticker, oid: Option<OrderId>, count: int, avg: Option<real>,
                             limit: int, token: nat)
    requires WellFormed(l) && (oid.None? ==> !HasClientId(l, AdoptedAnon(token)))
    ensures var (l', pk) := AdoptOrder(l, ticker, oid, count, avg, limit, token);
            WellFormed(l') && Moves(l, l') && pk < |l'.orders|
  {
    var found := if oid.Some? then FirstWithOrderId(l, oid.value) else None;
    if found.None? {
      var n := NonNegative(count);
      var row := OrderRow(ticker, AdoptedClientId(oid, token), oid, n, limit, Adopted, Some(n), None, avg, Some(Adopt));
      assert !HasClientId(l, row.clientId) by {
        if oid.Some? {
          forall i | 0 <= i < |l.orders| ensures l.orders[i].clientId != row.clientId {
            assert RowFits(l.orders[i]);
          }
        }
      }
      AppendKeepsWellFormed(l, row);
    }
  }

  /** A call that rewrites one row: nothing else moves, and a settled row is refused. */
  lemma ChangesOneRow(l: LedgerState, a: LedgerAction)
    requires a.Place? || a.SetOutcome? || a.Apply? || a.Attach?
    requires LStep(l, a) != l
    ensures a.pk < |l.orders| && a.pk !in l.settlements
    ensures var l' := LStep(l, a);
            |l'.orders| == |l.orders| && l' == l.(orders := l.orders[a.pk := l'.orders[a.pk]])
    ensures RowMoves(l.orders[a.pk], LStep(l, a).orders[a.pk])
    ensures WellFormed(l) && CalledByMain(l, a) ==> RowFits(LStep(l, a).orders[a.pk])
  {
    if a.pk < |l.orders| {
      assert WellFormed(l) ==> RowFits(l.orders[a.pk]);
    }
  }

  lemma ChangeKeepsWellFormed(l: LedgerState, a: LedgerAction)
    requires WellFormed(l) && CalledByMain(l, a)
    requires a.Place? || a.SetOutcome? || a.Apply? || a.Attach?
    ensures WellFormed(LStep(l, a)) && Moves(l, LStep(l, a))
  {
    var l' := LStep(l, a);
    if l' != l {
      ChangesOneRow(l, a);
      UpdateKeepsWellFormed(l, a.pk, l'.orders[a.pk]);
    }
  }

  lemma StepKeepsWellFormed(l: LedgerState, a: LedgerAction)
    requires WellFormed(l) && CalledByMain(l, a)
    ensures WellFormed(LStep(l, a)) && Moves(l, LStep(l, a))
  {
    match a
    case Begin(ticker, game, count, limit) => BeginKeepsWellFormed(l, ticker, Game(game, ticker), count, limit);
    case AdoptNew(ticker, oid, count, avg, limit, token) =>
      AdoptKeepsWellFormed(l, ticker, oid, count, avg, limit, token);
    case Upsert(_) =>
    case Settle(_, _) =>
    case _ => ChangeKeepsWellFormed(l, a);
  }

  /** Two states applied one after the other are one: what the later one leaves out, the earlier one fills in. */
  lemma ApplyComposes(l: LedgerState, pk: nat, a: LedgerAction, b: LedgerAction)
    requires a.Apply? && b.Apply? && a.pk == b.pk == pk && pk < |l.orders| && pk !in l.settlements
    ensures LStep(LStep(l, a), b) ==
              LStep(l, Apply(pk, Coalesce(b.appliedId, a.appliedId), Coalesce(b.status, a.status),
                             Coalesce(b.filled, a.filled), Coalesce(b.avg, a.avg), b.via))
  {
    var row := l.orders[pk];
    var first := AppliedRow(row, a.appliedId, a.status, a.filled, a.avg, a.via);
    assert LStep(l, a) == l.(orders := l.orders[pk := first]);
    assert l.orders[pk := first][pk := AppliedRow(first, b.appliedId, b.status, b.filled, b.avg, b.via)]
        == l.orders[pk := AppliedRow(first, b.appliedId, b.status, b.filled, b.avg, b.via)];
  }

  /** A reply and a lookup of the same order may be recorded in either order. */
  lemma ReplyAndLookupCommute(l: LedgerState, pk: nat, oid: OrderId, status: Option<string>, looked: LedgerAction)
    requires pk < |l.orders| && pk !in l.settlements && !l.orders[pk].outcome.Adopted?
    requires looked.Apply? && looked.pk == pk && looked.appliedId == Some(oid)
    ensures var one := LStep(LStep(l, Place(pk, oid, status)), looked).orders;
            var two := LStep(LStep(l, looked), Place(pk, oid, status)).orders;
            && |one| == |two| == |l.orders| && one[pk].outcome == two[pk].outcome == Placed
            && one[pk].orderId == two[pk].orderId == Some(oid)
            && one[pk].filled == two[pk].filled && one[pk].avgFill == two[pk].avgFill
            && (status == looked.status ==> one[pk].status == two[pk].status)
            && forall i :: 0 <= i < |l.orders| && i != pk ==> one[i] == two[i] == l.orders[i]
  {
  }

  ghost function LRun(l: LedgerState, acts: seq<LedgerAction>): LedgerState
    decreases |acts|
  {
    if acts == [] then l else LRun(LStep(l, acts[0]), acts[1..])
  }

  ghost predicate AllByMain(l: LedgerState, acts: seq<LedgerAction>)
    decreases |acts|
  {
    acts == [] || (CalledByMain(l, acts[0]) && AllByMain(LStep(l, acts[0]), acts[1..]))
  }

  /**
   Over any run: client order ids stay distinct, a placed row stays placed and an adopted row adopted,
   settled rows never change, every settlement belongs to an open row.
   */
  lemma {:induction false} LedgerStateMachine(l: LedgerState, acts: seq<LedgerAction>)
    requires WellFormed(l) && AllByMain(l, acts)
    ensures var t := LRun(l, acts);
            && WellFormed(t) && |l.orders| <= |t.orders|
            && (forall i :: 0 <= i < |l.orders| ==> RowMoves(l.orders[i], t.orders[i]))
            && (forall i :: 0 <= i < |l.orders| && i in l.settlements ==>
                  t.orders[i] == l.orders[i] && i in t.settlements)
    decreases |acts|
  {
    if acts != [] {
      var next := LStep(l, acts[0]);
      StepKeepsWellFormed(l, acts[0]);
      LedgerStateMachine(next, acts[1..]);
      var t := LRun(l, acts);
      forall i | 0 <= i < |l.orders| ensures RowMoves(l.orders[i], t.orders[i]) {
        assert RowMoves(l.orders[i], next.orders[i]) && RowMoves(next.orders[i], t.orders[i]);
      }
    }
  }

  /** Placed and adopted are absorbing: nothing has a higher rank, and neither turns into the other. */
  lemma OpenIsAbsorbing(l: LedgerState, acts: seq<LedgerAction>, i: nat)
    requires WellFormed(l) && AllByMain(l, acts) && i < |l.orders| && IsOpen(l.orders[i].outcome)
    ensures i < |LRun(l, acts).orders| && LRun(l, acts).orders[i].outcome == l.orders[i].outcome
  {
    LedgerStateMachine(l, acts);
    assert RowMoves(l.orders[i], LRun(l, acts).orders[i]);
  }

  // ---------------------------------------------------------------- distinct order ids

  ghost predicate DistinctIds(l: LedgerState) {
    forall i, j :: 0 <= i < j < |l.orders| && l.orders[i].orderId.Some? ==> l.orders[i].orderId != l.orders[j].orderId
  }

  /** The row and the order id a call is about to write. */
  function Writes(a: LedgerAction): Option<(nat, OrderId)> {
    match a
    case Place(pk, oid, _) => Some((pk, oid))
    case Apply(pk, oid, _, _, _, _) => if oid.Some? then Some((pk, oid.value)) else None
    case Attach(pk, oid) => Some((pk, oid))
    case _ => None
  }

  /** The ledger does not refuse to write an order id for this call: the row is there, unsettled and free to take it. */
  predicate TakesId(l: LedgerState, a: LedgerAction) {
    && Writes(a).Some? && a.pk < |l.orders| && a.pk !in l.settlements
    && (a.Attach? ==> l.orders[a.pk].outcome.Adopted? && l.orders[a.pk].orderId.None?)
  }

  /** A call that will be taken, with an id that is on another row. */
  ghost predicate Clashes(l: LedgerState, a: LedgerAction) {
    && TakesId(l, a)
    && exists j :: 0 <= j < |l.orders| && j != Writes(a).value.0 && l.orders[j].orderId == Some(Writes(a).value.1)
  }

  lemma TakenIdIsWritten(l: LedgerState, a: LedgerAction)
    requires TakesId(l, a)
    ensures var l' := LStep(l, a);
            && |l'.orders| == |l.orders| && l'.orders[a.pk].orderId == Some(Writes(a).value.1)
            && l' == l.(orders := l.orders[a.pk := l'.orders[a.pk]])
  {
  }

  lemma RefusedIdChangesNothing(l: LedgerState, a: LedgerAction)
    requires Writes(a).Some? && !TakesId(l, a)
    ensures LStep(l, a) == l
  {
  }

  /** Order ids stay distinct exactly as long as no call writes an id that another row holds. */
  lemma DistinctIdsStepwise(l: LedgerState, a: LedgerAction)
    requires DistinctIds(l)
    ensures DistinctIds(LStep(l, a)) <==> !Clashes(l, a)
  {
    var l' := LStep(l, a);
    if TakesId(l, a) {
      var (pk, oid) := Writes(a).value;
      TakenIdIsWritten(l, a);
      if Clashes(l, a) {
        var j :| 0 <= j < |l.orders| && j != pk && l.orders[j].orderId == Some(oid);
        var (lo, hi) := if j < pk then (j, pk) else (pk, j);
        assert l'.orders[lo].orderId.Some? && l'.orders[lo].orderId == l'.orders[hi].orderId;
      }
    } else if Writes(a).Some? {
      RefusedIdChangesNothing(l, a);
    } else if a.AdoptNew? {
      var found := if a.adoptedId.Some? then FirstWithOrderId(l, a.adoptedId.value) else None;
    }
  }

  // ---------------------------------------------------------------- the guard of the settlement job

  predicate Unsettled(l: LedgerState, pk: nat) {
    pk < |l.orders| && IsOpen(l.orders[pk].outcome) && pk !in l.settlements
  }

  /** No second open row waits for settlement on the same ticker. */
  ghost predicate AloneOnTicker(l: LedgerState, pk: nat) {
    Unsettled(l, pk) && forall j: nat :: Unsettled(l, j) && l.orders[j].ticker == l.orders[pk].ticker ==> j == pk
  }
}
