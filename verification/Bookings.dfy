/**
 What the settlements were computed from: which fills each one booked, that none is booked twice, and that the
 total is the sum over exactly those fills.
 */
module Bookings {
  import opened Wrappers
  import opened Ledger
  import opened LedgerRuns
  import opened Settling

  // ---------------------------------------------------------------- settlements and the fills they booked

  /** `booked` is history: for every settled row, the fills its settlement was computed from. */
  datatype Books = Books(l: LedgerState, booked: map<nat, map<FillId, Fill>>)

  ghost function BStep(b: Books, a: LedgerAction): Books {
    var l' := LStep(b.l, a);
    if a.Settle? && RecordSettlement(b.l, a.pk, a.yesWon).Ok?
        && RecordSettlement(b.l, a.pk, a.yesWon).value.1.Some? then
      Books(l', b.booked[a.pk := FillsFor(b.l.fills, b.l.orders[a.pk].orderId)])
    else Books(l', b.booked)
  }

  ghost function BRun(b: Books, acts: seq<LedgerAction>): Books
    decreases |acts|
  {
    if acts == [] then b else BRun(BStep(b, acts[0]), acts[1..])
  }

  ghost predicate ByMainRun(b: Books, acts: seq<LedgerAction>)
    decreases |acts|
  {
    acts == [] || (CalledByMain(b.l, acts[0]) && ByMainRun(BStep(b, acts[0]), acts[1..]))
  }

  /** A booked fill belongs to the order of the row it was booked for. */
  ghost predicate OwnsBooked(b: Books, pk: nat)
    requires pk in b.booked
  {
    && pk in b.l.settlements && pk < |b.l.orders|
    && (forall id :: id in b.booked[pk] ==>
          id in b.l.fills && b.l.fills[id].orderId.Some? && b.l.fills[id].orderId == b.l.orders[pk].orderId)
    && (b.l.settlements[pk].source.KalshiFills? ==>
          b.l.settlements[pk].pnl == SumOf(NetValues(b.booked[pk], b.l.settlements[pk].yesWon)))
    && (b.l.settlements[pk].source.Computed? <==> b.booked[pk] == map[])
  }

  ghost predicate BooksFit(b: Books) {
    && WellFormed(b.l)
    && b.booked.Keys == b.l.settlements.Keys
    && forall pk :: pk in b.booked ==> OwnsBooked(b, pk)
  }

  lemma {:induction false} UpsertKeepsOrderId(fills: map<FillId, Fill>, batch: seq<FillRecord>)
    ensures fills.Keys <= UpsertAll(fills, batch).Keys
    ensures forall id :: id in fills && fills[id].orderId.Some? ==>
              UpsertAll(fills, batch)[id].orderId == fills[id].orderId
    decreases |batch|
  {
    if batch != [] { UpsertKeepsOrderId(fills, batch[..|batch| - 1]); }
  }

  lemma UpsertKeepsBooks(b: Books, batch: seq<FillRecord>)
    requires BooksFit(b)
    ensures BooksFit(BStep(b, Upsert(batch)))
  {
    UpsertKeepsOrderId(b.l.fills, batch);
    var c := BStep(b, Upsert(batch));
    assert c.l == b.l.(fills := UpsertAll(b.l.fills, batch)) && c.booked == b.booked;
    forall pk | pk in c.booked ensures OwnsBooked(c, pk) { assert OwnsBooked(b, pk); }
  }

  lemma OwnsBookedFrame(b: Books, c: Books, pk: nat)
    requires pk in b.booked && OwnsBooked(b, pk)
    requires c.l.fills == b.l.fills && pk in c.l.settlements && c.l.settlements[pk] == b.l.settlements[pk]
    requires pk in c.booked && c.booked[pk] == b.booked[pk]
    requires pk < |c.l.orders| && c.l.orders[pk] == b.l.orders[pk]
    ensures OwnsBooked(c, pk)
  {
  }

  lemma SettledRowOwns(b: Books, pk: nat, yesWon: bool)
    requires BStep(b, Settle(pk, yesWon)) != b
    ensures var c := BStep(b, Settle(pk, yesWon));
            && c.l.orders == b.l.orders && c.l.fills == b.l.fills
            && pk in c.l.settlements && pk in c.booked
            && c == Books(b.l.(settlements := b.l.settlements[pk := c.l.settlements[pk]]), b.booked[pk := c.booked[pk]])
            && OwnsBooked(c, pk)
  {
    var fs := FillsFor(b.l.fills, b.l.orders[pk].orderId);
    assert FillsFor(b.l.fills, None) == map[];
  }

  lemma SettleKeepsBooks(b: Books, pk: nat, yesWon: bool)
    requires BooksFit(b)
    ensures BooksFit(BStep(b, Settle(pk, yesWon)))
  {
    var c := BStep(b, Settle(pk, yesWon));
    if c != b {
      StepKeepsWellFormed(b.l, Settle(pk, yesWon));
      SettledRowOwns(b, pk, yesWon);
      forall k | k in c.booked && k != pk ensures OwnsBooked(c, k) {
        assert OwnsBooked(b, k);
        OwnsBookedFrame(b, c, k);
      }
    }
  }

  lemma RowsOnly(b: Books, a: LedgerAction)
    requires !a.Upsert? && !a.Settle?
    ensures var c := BStep(b, a);
            c.l.fills == b.l.fills && c.l.settlements == b.l.settlements && c.booked == b.booked
  {
  }

  lemma RowsKeepBooks(b: Books, a: LedgerAction)
    requires BooksFit(b) && CalledByMain(b.l, a) && !a.Upsert? && !a.Settle?
    ensures BooksFit(BStep(b, a))
  {
    var c := BStep(b, a);
    StepKeepsWellFormed(b.l, a);
    RowsOnly(b, a);
    forall pk | pk in c.booked ensures OwnsBooked(c, pk) {
      assert OwnsBooked(b, pk);
      OwnsBookedFrame(b, c, pk);
    }
  }

  lemma StepKeepsBooks(b: Books, a: LedgerAction)
    requires BooksFit(b) && CalledByMain(b.l, a)
    ensures BooksFit(BStep(b, a))
  {
    match a
    case Upsert(batch) => UpsertKeepsBooks(b, batch);
    case Settle(pk, yesWon) => SettleKeepsBooks(b, pk, yesWon);
    case _ => RowsKeepBooks(b, a);
  }

  lemma {:induction false} RunKeepsBooks(b: Books, acts: seq<LedgerAction>)
    requires BooksFit(b) && ByMainRun(b, acts)
    ensures BooksFit(BRun(b, acts))
    decreases |acts|
  {
    if acts != [] {
      StepKeepsBooks(b, acts[0]);
      RunKeepsBooks(BStep(b, acts[0]), acts[1..]);
    }
  }

  const NO_BOOKS := Books(EMPTY_LEDGER, map[])

  // ---------------------------------------------------------------- no fill is booked twice

  /** No fill was counted by two settlements. */
  ghost predicate BookedOnce(b: Books) {
    forall i, j, id :: i in b.booked && j in b.booked && id in b.booked[i] && id in b.booked[j] ==> i == j
  }

  /** Settling this row goes through although another row with the same order id was already settled from its fills. */
  ghost predicate DoubleBooks(l: LedgerState, pk: nat) {
    && pk < |l.orders| && IsOpen(l.orders[pk].outcome) && l.orders[pk].orderId.Some?
    && AllSupported(FillsFor(l.fills, l.orders[pk].orderId))
    && exists q: nat :: SettledFromFills(l, q) && q != pk && l.orders[q].orderId == l.orders[pk].orderId
  }

  predicate SettledFromFills(l: LedgerState, q: nat) {
    q < |l.orders| && q in l.settlements && l.settlements[q].source.KalshiFills?
  }

  ghost predicate DoubleBooking(l: LedgerState, a: LedgerAction) { a.Settle? && DoubleBooks(l, a.pk) }

  lemma QuietStepBookedOnce(b: Books, a: LedgerAction)
    requires !a.Settle?
    ensures BStep(b, a).booked == b.booked
  {
  }

  /** What the settlement of a row books, when it goes through. */
  lemma SettleBooks(b: Books, pk: nat, yesWon: bool)
    ensures var c := BStep(b, Settle(pk, yesWon));
            if pk < |b.l.orders| && IsOpen(b.l.orders[pk].outcome)
                && AllSupported(FillsFor(b.l.fills, b.l.orders[pk].orderId))
            then c.booked == b.booked[pk := FillsFor(b.l.fills, b.l.orders[pk].orderId)]
            else c.booked == b.booked
  {
  }

  lemma DoubleBooksOverlaps(b: Books, pk: nat, yesWon: bool)
    requires BooksFit(b) && DoubleBooks(b.l, pk)
    ensures !BookedOnce(BStep(b, Settle(pk, yesWon)))
  {
    var c := BStep(b, Settle(pk, yesWon));
    SettleBooks(b, pk, yesWon);
    var q: nat :| SettledFromFills(b.l, q) && q != pk && b.l.orders[q].orderId == b.l.orders[pk].orderId;
    assert OwnsBooked(b, q);
    var id :| id in b.booked[q];
    assert id in c.booked[q] && id in c.booked[pk];
  }

  /** The fills a settled row booked are not among those of another order. */
  lemma OtherRowsFills(b: Books, pk: nat, q: nat, id: FillId)
    requires BooksFit(b) && pk < |b.l.orders| && q in b.booked && q != pk && id in b.booked[q]
    requires !(SettledFromFills(b.l, q) && b.l.orders[q].orderId == b.l.orders[pk].orderId)
    ensures id !in FillsFor(b.l.fills, b.l.orders[pk].orderId)
  {
    assert OwnsBooked(b, q);
  }

  lemma SingleSettleBooksOnce(b: Books, pk: nat, yesWon: bool)
    requires BooksFit(b) && BookedOnce(b) && !DoubleBooks(b.l, pk)
    ensures BookedOnce(BStep(b, Settle(pk, yesWon)))
  {
    var c := BStep(b, Settle(pk, yesWon));
    SettleBooks(b, pk, yesWon);
    if c.booked != b.booked {
      forall q: nat, id | q in b.booked && q != pk && id in b.booked[q]
        ensures id !in FillsFor(b.l.fills, b.l.orders[pk].orderId)
      {
        assert OwnsBooked(b, q);
        OtherRowsFills(b, pk, q, id);
      }
    }
  }

  /**
   One step keeps every fill booked once, exactly unless it settles a row whose order id was settled from fills before.
   */
  lemma BookedOnceStepwise(b: Books, a: LedgerAction)
    requires BooksFit(b) && BookedOnce(b)
    ensures BookedOnce(BStep(b, a)) <==> !DoubleBooking(b.l, a)
  {
    if !a.Settle? {
      QuietStepBookedOnce(b, a);
    } else if DoubleBooks(b.l, a.pk) {
      DoubleBooksOverlaps(b, a.pk, a.yesWon);
    } else {
      SingleSettleBooksOnce(b, a.pk, a.yesWon);
    }
  }

  ghost predicate AlwaysBookedOnce(b: Books, acts: seq<LedgerAction>)
    decreases |acts|
  {
    BookedOnce(b) && (acts == [] || AlwaysBookedOnce(BStep(b, acts[0]), acts[1..]))
  }

  ghost predicate NoDoubleBooking(b: Books, acts: seq<LedgerAction>)
    decreases |acts|
  {
    acts == [] || (!DoubleBooking(b.l, acts[0]) && NoDoubleBooking(BStep(b, acts[0]), acts[1..]))
  }

  lemma {:induction false} BookedOnceOverRun(b: Books, acts: seq<LedgerAction>)
    requires BooksFit(b) && BookedOnce(b) && ByMainRun(b, acts)
    ensures AlwaysBookedOnce(b, acts) <==> NoDoubleBooking(b, acts)
    ensures NoDoubleBooking(b, acts) ==> BookedOnce(BRun(b, acts))
    decreases |acts|
  {
    if acts != [] {
      BookedOnceStepwise(b, acts[0]);
      StepKeepsBooks(b, acts[0]);
      if BookedOnce(BStep(b, acts[0])) { BookedOnceOverRun(BStep(b, acts[0]), acts[1..]); }
    }
  }

  /**
   Over any run, every fill stays booked at most once if and only if no step settles an order id for a second time.
   */
  lemma BookedOnceExactly(acts: seq<LedgerAction>)
    requires ByMainRun(NO_BOOKS, acts)
    ensures AlwaysBookedOnce(NO_BOOKS, acts) <==> NoDoubleBooking(NO_BOOKS, acts)
  {
    BookedOnceOverRun(NO_BOOKS, acts);
  }

  // ---------------------------------------------------------------- the guard that keeps it so

  /**
   What the code checks and the exchange promises: a row is settled only while it is the only open one on its
   ticker, and an order id goes to rows of the one ticker the exchange gave it for.
   */
  ghost predicate Guarded(l: LedgerState, a: LedgerAction, names: map<OrderId, Ticker>) {
    && (a.Settle? ==> AloneOnTicker(l, a.pk))
    && (a.AdoptNew? && a.adoptedId.Some? ==> a.adoptedId.value in names && names[a.adoptedId.value] == a.ticker)
    && (TakesId(l, a) ==>
          Writes(a).value.1 in names && names[Writes(a).value.1] == l.orders[a.pk].ticker)
  }

  /** An order id written to a row while a settled row holds it. The code does not look for this. */
  ghost predicate WritesBesideSettled(l: LedgerState, a: LedgerAction) {
    TakesId(l, a) && exists q :: q in l.settlements && q < |l.orders| && l.orders[q].orderId == Some(Writes(a).value.1)
  }

  ghost predicate GuardedRun(b: Books, acts: seq<LedgerAction>, names: map<OrderId, Ticker>)
    decreases |acts|
  {
    acts == [] || (CalledByMain(b.l, acts[0]) && Guarded(b.l, acts[0], names) && !WritesBesideSettled(b.l, acts[0])
                   && GuardedRun(BStep(b, acts[0]), acts[1..], names))
  }

  /** A row with an order id is open and on that id's ticker; a settled row's id is on no other row. */
  ghost predicate IdsInPlace(l: LedgerState, names: map<OrderId, Ticker>) {
    && (forall i :: 0 <= i < |l.orders| && l.orders[i].orderId.Some? ==>
          IsOpen(l.orders[i].outcome) && l.orders[i].orderId.value in names
          && names[l.orders[i].orderId.value] == l.orders[i].ticker)
    && (forall q, i ::
          q in l.settlements && q < |l.orders| && 0 <= i < |l.orders| && i != q && l.orders[q].orderId.Some? ==>
          l.orders[i].orderId != l.orders[q].orderId)
  }

  lemma WriteKeepsIdsInPlace(l: LedgerState, a: LedgerAction, names: map<OrderId, Ticker>)
    requires WellFormed(l) && IdsInPlace(l, names) && Writes(a).Some? && CalledByMain(l, a)
    requires Guarded(l, a, names) && !WritesBesideSettled(l, a)
    ensures IdsInPlace(LStep(l, a), names)
  {
    if TakesId(l, a) {
      TakenIdIsWritten(l, a);
      assert IsOpen(LStep(l, a).orders[a.pk].outcome) && LStep(l, a).orders[a.pk].ticker == l.orders[a.pk].ticker;
    } else {
      RefusedIdChangesNothing(l, a);
    }
  }

  /** A row without an order id may change its outcome; one with an id is open and stays so. */
  lemma OtherChangeKeepsIdsInPlace(l: LedgerState, a: LedgerAction, names: map<OrderId, Ticker>)
    requires WellFormed(l) && IdsInPlace(l, names) && CalledByMain(l, a)
    requires a.SetOutcome? || (a.Apply? && a.appliedId.None?)
    ensures IdsInPlace(LStep(l, a), names)
  {
    var l' := LStep(l, a);
    if l' != l {
      ChangesOneRow(l, a);
      assert l'.orders[a.pk].orderId == l.orders[a.pk].orderId;
      assert IsOpen(l.orders[a.pk].outcome) ==> IsOpen(l'.orders[a.pk].outcome);
    }
  }

  lemma NewRowKeepsIdsInPlace(l: LedgerState, a: LedgerAction, names: map<OrderId, Ticker>)
    requires WellFormed(l) && IdsInPlace(l, names) && Guarded(l, a, names) && (a.Begin? || a.AdoptNew?)
    ensures IdsInPlace(LStep(l, a), names)
  {
    if a.AdoptNew? {
      var found := if a.adoptedId.Some? then FirstWithOrderId(l, a.adoptedId.value) else None;
    }
  }

  lemma SettleKeepsIdsInPlace(l: LedgerState, pk: nat, yesWon: bool, names: map<OrderId, Ticker>)
    requires WellFormed(l) && IdsInPlace(l, names) && AloneOnTicker(l, pk)
    ensures IdsInPlace(LStep(l, Settle(pk, yesWon)), names)
    ensures !DoubleBooks(l, pk)
  {
    forall i: nat | i < |l.orders| && i != pk && l.orders[pk].orderId.Some?
      ensures l.orders[i].orderId != l.orders[pk].orderId
    {
      if l.orders[i].orderId == l.orders[pk].orderId && i !in l.settlements { assert Unsettled(l, i); }
    }
  }

  lemma BesideSettledBreaks(l: LedgerState, a: LedgerAction, names: map<OrderId, Ticker>)
    requires WritesBesideSettled(l, a)
    ensures !IdsInPlace(LStep(l, a), names)
  {
    TakenIdIsWritten(l, a);
    var q :| q in l.settlements && q < |l.orders| && l.orders[q].orderId == Some(Writes(a).value.1);
    assert q in LStep(l, a).settlements && LStep(l, a).orders[q] == l.orders[q] && q != a.pk;
  }

  /** A guarded call books nothing twice, and keeps ids in place exactly unless it writes one beside a settled row. */
  lemma IdsInPlaceStepwise(l: LedgerState, a: LedgerAction, names: map<OrderId, Ticker>)
    requires WellFormed(l) && IdsInPlace(l, names) && CalledByMain(l, a) && Guarded(l, a, names)
    ensures !DoubleBooking(l, a)
    ensures IdsInPlace(LStep(l, a), names) <==> !WritesBesideSettled(l, a)
  {
    match a
    case Begin(_, _, _, _) => NewRowKeepsIdsInPlace(l, a, names);
    case AdoptNew(_, _, _, _, _, _) => NewRowKeepsIdsInPlace(l, a, names);
    case Upsert(_) =>
    case Settle(pk, yesWon) => SettleKeepsIdsInPlace(l, pk, yesWon, names);
    case _ =>
      if Writes(a).None? {
        OtherChangeKeepsIdsInPlace(l, a, names);
      } else if WritesBesideSettled(l, a) {
        BesideSettledBreaks(l, a, names);
      } else {
        WriteKeepsIdsInPlace(l, a, names);
      }
  }

  lemma {:induction false} GuardedRunBooksOnce(b: Books, acts: seq<LedgerAction>, names: map<OrderId, Ticker>)
    requires BooksFit(b) && IdsInPlace(b.l, names) && GuardedRun(b, acts, names)
    ensures ByMainRun(b, acts) && NoDoubleBooking(b, acts)
    decreases |acts|
  {
    if acts != [] {
      IdsInPlaceStepwise(b.l, acts[0], names);
      StepKeepsBooks(b, acts[0]);
      GuardedRunBooksOnce(BStep(b, acts[0]), acts[1..], names);
    }
  }

  /**
   Over any run under these guards that writes no id beside a settled row holding it, no fill is booked twice,
   though order ids may well coincide on the way.
   */
  lemma NoFillBookedTwice(acts: seq<LedgerAction>, names: map<OrderId, Ticker>)
    requires GuardedRun(NO_BOOKS, acts, names)
    ensures BookedOnce(BRun(NO_BOOKS, acts))
  {
    GuardedRunBooksOnce(NO_BOOKS, acts, names);
    BookedOnceOverRun(NO_BOOKS, acts);
  }

  // ---------------------------------------------------------------- total PnL

  ghost function TotalFillPnl(l: LedgerState, pks: set<nat>): int
    requires forall pk :: pk in pks ==> pk in l.settlements
  {
    if pks == {} then 0
    else
      var pk :| pk in pks;
      RowPnl(l, pk) + TotalFillPnl(l, pks - {pk})
  }

  /** Exactly the booked fills of these rows, each with its own payoff minus fee. */
  ghost predicate IsNetOfBooked(b: Books, pks: set<nat>, nets: map<FillId, int>)
    requires pks <= b.booked.Keys && b.booked.Keys <= b.l.settlements.Keys
  {
    && (forall pk, id :: pk in pks && id in b.booked[pk] ==>
          id in nets && nets[id] == Net(b.booked[pk][id], b.l.settlements[pk].yesWon))
    && (forall id :: id in nets ==> exists pk :: pk in pks && id in b.booked[pk])
  }

  lemma {:induction false} TotalOverRows(b: Books, pks: set<nat>) returns (nets: map<FillId, int>)
    requires BooksFit(b) && BookedOnce(b) && pks <= b.booked.Keys
    ensures IsNetOfBooked(b, pks, nets) && TotalFillPnl(b.l, pks) == SumOf(nets)
    decreases |pks|
  {
    if pks == {} {
      nets := map[];
    } else {
      var pk := PickRow(b.l, pks);
      var rest := TotalOverRows(b, pks - {pk});
      nets := NetValues(b.booked[pk], b.l.settlements[pk].yesWon) + rest;
      AddRow(b, pks, pk, rest);
    }
  }

  function RowPnl(l: LedgerState, pk: nat): int
    requires pk in l.settlements
  {
    if l.settlements[pk].source.KalshiFills? then l.settlements[pk].pnl else 0
  }

  lemma PickRow(l: LedgerState, pks: set<nat>) returns (pk: nat)
    requires pks != {} && forall pk :: pk in pks ==> pk in l.settlements
    ensures pk in pks && TotalFillPnl(l, pks) == RowPnl(l, pk) + TotalFillPnl(l, pks - {pk})
  {
    pk :| pk in pks && TotalFillPnl(l, pks) == RowPnl(l, pk) + TotalFillPnl(l, pks - {pk});
  }

  lemma AddRow(b: Books, pks: set<nat>, pk: nat, rest: map<FillId, int>)
    requires BooksFit(b) && BookedOnce(b) && pks <= b.booked.Keys && pk in pks
    requires IsNetOfBooked(b, pks - {pk}, rest)
    ensures var nets := NetValues(b.booked[pk], b.l.settlements[pk].yesWon) + rest;
            IsNetOfBooked(b, pks, nets) && SumOf(nets) == RowPnl(b.l, pk) + SumOf(rest)
  {
    OwnFillsAreNew(b, pks, pk, rest);
    var own := NetValues(b.booked[pk], b.l.settlements[pk].yesWon);
    SumDisjoint(own, rest);
    NetsExtend(b, pks, pk, rest);
    PnlOfRow(b, pk);
  }

  /** What one settled row adds to the total. */
  lemma PnlOfRow(b: Books, pk: nat)
    requires BooksFit(b) && pk in b.booked
    ensures RowPnl(b.l, pk) == SumOf(NetValues(b.booked[pk], b.l.settlements[pk].yesWon))
  {
    assert OwnsBooked(b, pk);
    if b.booked[pk] == map[] { assert NetValues(b.booked[pk], b.l.settlements[pk].yesWon) == map[]; }
  }

  lemma RowsShareNothing(b: Books, i: nat, j: nat, id: FillId)
    requires BooksFit(b) && BookedOnce(b) && i in b.booked && j in b.booked && i != j
    ensures !(id in b.booked[i] && id in b.booked[j])
  {
    assert OwnsBooked(b, i) && OwnsBooked(b, j);
  }

  lemma OwnFillsAreNew(b: Books, pks: set<nat>, pk: nat, rest: map<FillId, int>)
    requires BooksFit(b) && BookedOnce(b) && pks <= b.booked.Keys && pk in pks
    requires IsNetOfBooked(b, pks - {pk}, rest)
    ensures forall id :: id in b.booked[pk] ==> id !in rest
  {
    forall id | id in b.booked[pk] ensures id !in rest {
      forall other | other in pks - {pk} ensures id !in b.booked[other] {
        RowsShareNothing(b, other, pk, id);
      }
    }
  }

  lemma NetsExtend(b: Books, pks: set<nat>, pk: nat, rest: map<FillId, int>)
    requires pks <= b.booked.Keys && b.booked.Keys <= b.l.settlements.Keys && pk in pks
    requires IsNetOfBooked(b, pks - {pk}, rest)
    requires forall id :: id in b.booked[pk] ==> id !in rest
    ensures IsNetOfBooked(b, pks, NetValues(b.booked[pk], b.l.settlements[pk].yesWon) + rest)
  {
    var nets := NetValues(b.booked[pk], b.l.settlements[pk].yesWon) + rest;
    forall q, id | q in pks && id in b.booked[q]
      ensures id in nets && nets[id] == Net(b.booked[q][id], b.l.settlements[q].yesWon)
    {
      if q != pk { assert q in pks - {pk}; }
    }
    forall id | id in nets ensures exists q :: q in pks && id in b.booked[q] {
      if id in rest {
        var q :| q in pks - {pk} && id in b.booked[q];
      } else {
        assert id in b.booked[pk];
      }
    }
  }

  /**
   After any run in which no order id was settled from fills twice, the fill-sourced PnL of all settlements is
   the sum, over exactly the fills that were booked, of payoff minus fee: each fill once.
   */
  lemma TotalPnlIsSumOverFills(acts: seq<LedgerAction>) returns (nets: map<FillId, int>)
    requires ByMainRun(NO_BOOKS, acts) && NoDoubleBooking(NO_BOOKS, acts)
    ensures var b := BRun(NO_BOOKS, acts);
            && b.booked.Keys == b.l.settlements.Keys
            && IsNetOfBooked(b, b.booked.Keys, nets)
            && TotalFillPnl(b.l, b.l.settlements.Keys) == SumOf(nets)
  {
    RunKeepsBooks(NO_BOOKS, acts);
    BookedOnceOverRun(NO_BOOKS, acts);
    nets := TotalOverRows(BRun(NO_BOOKS, acts), BRun(NO_BOOKS, acts).booked.Keys);
  }

  /** In particular over every such run. */
  lemma GuardedTotalIsSumOverFills(acts: seq<LedgerAction>, names: map<OrderId, Ticker>)
      returns (nets: map<FillId, int>)
    requires GuardedRun(NO_BOOKS, acts, names)
    ensures var b := BRun(NO_BOOKS, acts);
            && b.booked.Keys == b.l.settlements.Keys
            && IsNetOfBooked(b, b.booked.Keys, nets)
            && TotalFillPnl(b.l, b.l.settlements.Keys) == SumOf(nets)
  {
    GuardedRunBooksOnce(NO_BOOKS, acts, names);
    nets := TotalPnlIsSumOverFills(acts);
  }

  // ---------------------------------------------------------------- runs, one action longer

  lemma {:induction false} BRunSnoc(b: Books, acts: seq<LedgerAction>, a: LedgerAction)
    ensures BRun(b, acts + [a]) == BStep(BRun(b, acts), a)
    ensures ByMainRun(b, acts) && CalledByMain(BRun(b, acts).l, a) ==> ByMainRun(b, acts + [a])
    decreases |acts|
  {
    if acts == [] {
      assert [] + [a] == [a] && [a][1..] == [];
      assert BRun(BStep(b, a), []) == BStep(b, a);
    } else {
      assert (acts + [a])[0] == acts[0] && (acts + [a])[1..] == acts[1..] + [a];
      BRunSnoc(BStep(b, acts[0]), acts[1..], a);
    }
  }
}
