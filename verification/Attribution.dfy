/**
 How the jobs that give order ids to rows meet the order protocol: when every id ends on its own order's row,
 when two rows come to share one, and what that does to the fills that are booked.
 */
module Attribution {
  import opened Wrappers
  import opened Ledger
  import opened LedgerRuns
  import opened Settling
  import opened Bookings
  import opened OrderProtocol
  import FillSync

  // ---------------------------------------------------------------- the ledger calls of a run

  /** The ledger call a step of the protocol amounts to. */
  function CallOf(s: OState, a: OAction): Option<LedgerAction> {
    match a
    case Evaluate(ticker, game, count, limit) => Some(Begin(ticker, game, count, limit))
    case BlockedByKillSwitch => if s.pc.Begun? then Some(SetOutcome(s.pc.pk, Failed)) else None
    case Reply(answer) => if s.pc.Posted? then Some(ReplyCall(s.pc.pk, answer)) else None
    case Lookup(pk, found, via) => Some(LookupCall(pk, found, via))
    case Background(b) => Some(b)
    case _ => None
  }

  lemma CallIsStep(s: OState, a: OAction)
    requires Inv(s) && Possible(s, a)
    ensures var call := CallOf(s, a);
            && OStep(s, a).l == (if call.Some? then LStep(s.l, call.value) else s.l)
            && (call.Some? ==> CalledByMain(s.l, call.value))
  {
  }

  ghost function Trace(acts: seq<OAction>): seq<LedgerAction>
    decreases |acts|
  {
    if acts == [] then []
    else
      var (front, a) := (acts[..|acts| - 1], acts[|acts| - 1]);
      var call := CallOf(ORun(START, front), a);
      Trace(front) + if call.Some? then [call.value] else []
  }

  /** What the settlements of a run were computed from. */
  ghost function BooksOf(acts: seq<OAction>): Books { BRun(NO_BOOKS, Trace(acts)) }

  lemma TraceSnoc(front: seq<OAction>, a: OAction)
    ensures var call := CallOf(ORun(START, front), a);
            Trace(front + [a]) == if call.Some? then Trace(front) + [call.value] else Trace(front)
  {
    var more := front + [a];
    assert more[..|more| - 1] == front && more[|more| - 1] == a;
  }

  lemma BooksOfSnoc(front: seq<OAction>, a: OAction)
    ensures var call := CallOf(ORun(START, front), a);
            && BooksOf(front + [a]) == (if call.Some? then BStep(BooksOf(front), call.value) else BooksOf(front))
            && (ByMainRun(NO_BOOKS, Trace(front))
                && (call.Some? ==> CalledByMain(BooksOf(front).l, call.value)) ==>
                  ByMainRun(NO_BOOKS, Trace(front + [a])))
  {
    TraceSnoc(front, a);
    hide CallOf, BStep, BRun, ORun, Trace, ByMainRun, CalledByMain;
    var call := CallOf(ORun(START, front), a);
    if call.Some? { BRunSnoc(NO_BOOKS, Trace(front), call.value); }
  }

  /** A run of the protocol is a run of the ledger by the calls main.py makes. */
  lemma {:induction false} TraceFollows(acts: seq<OAction>)
    requires AllPossible(START, acts)
    ensures ByMainRun(NO_BOOKS, Trace(acts)) && BooksOf(acts).l == ORun(START, acts).l
    decreases |acts|
  {
    if acts != [] {
      var (front, a) := (acts[..|acts| - 1], acts[|acts| - 1]);
      assert acts == front + [a];
      LastStep(acts);
      hide LStep, BStep, OStep, Inv, Possible, CallOf, CalledByMain, ORun, AllPossible, BRun, ByMainRun, Trace, BooksOf;
      TraceFollows(front);
      CallIsStep(ORun(START, front), a);
      BooksOfSnoc(front, a);
      var call := CallOf(ORun(START, front), a);
      if call.Some? { TableStep(BooksOf(front), call.value); }
    }
  }

  lemma TableStep(b: Books, a: LedgerAction)
    ensures BStep(b, a).l == LStep(b.l, a)
  {
  }

  // ---------------------------------------------------------------- who gave a row its order id

  /** The row and the order id that a call newly gives it, by the ledger's own guards. */
  ghost function Given(l: LedgerState, b: LedgerAction): Option<(nat, OrderId)> {
    if b.AdoptNew? then
      if b.adoptedId.Some? && !FillSync.OnARow(l, b.adoptedId.value) then Some((|l.orders|, b.adoptedId.value))
      else None
    else if TakesId(l, b) && l.orders[b.pk].orderId != Some(Writes(b).value.1) then Writes(b)
    else None
  }

  function IdAt(l: LedgerState, q: nat): Option<OrderId> { if q < |l.orders| then l.orders[q].orderId else None }

  /** Nothing else moves an order id. */
  lemma GivenExactly(l: LedgerState, b: LedgerAction, q: nat)
    ensures IdAt(LStep(l, b), q) ==
              if Given(l, b).Some? && Given(l, b).value.0 == q then Some(Given(l, b).value.1) else IdAt(l, q)
  {
    if Writes(b).Some? {
      if TakesId(l, b) { TakenIdIsWritten(l, b); } else { RefusedIdChangesNothing(l, b); }
    } else if b.AdoptNew? {
      var found := if b.adoptedId.Some? then FirstWithOrderId(l, b.adoptedId.value) else None;
      assert found.Some? ==> l.orders[found.value].orderId == b.adoptedId;
    }
  }

  /** The same of a step of the protocol, and of the last step of a run. */
  ghost function GivenBy(s: OState, a: OAction): Option<(nat, OrderId)> {
    if CallOf(s, a).Some? then Given(s.l, CallOf(s, a).value) else None
  }

  ghost function GivenLast(acts: seq<OAction>): Option<(nat, OrderId)>
    requires acts != []
  {
    GivenBy(ORun(START, acts[..|acts| - 1]), acts[|acts| - 1])
  }

  lemma GivenByExactly(s: OState, a: OAction, q: nat)
    requires Inv(s) && Possible(s, a)
    ensures IdAt(OStep(s, a).l, q) ==
              if GivenBy(s, a).Some? && GivenBy(s, a).value.0 == q then Some(GivenBy(s, a).value.1) else IdAt(s.l, q)
  {
    CallIsStep(s, a);
    hide LStep, OStep, Inv, Possible, CallOf, Given, IdAt;
    if CallOf(s, a).Some? { GivenExactly(s.l, CallOf(s, a).value, q); }
  }

  /** The last action that gave row q an order id. */
  ghost function GiverOf(acts: seq<OAction>, q: nat): (j: Option<nat>)
    ensures j.Some? ==> j.value < |acts|
    decreases |acts|
  {
    if acts == [] then None
    else if GivenLast(acts).Some? && GivenLast(acts).value.0 == q then Some(|acts| - 1)
    else GiverOf(acts[..|acts| - 1], q)
  }

  /** Row q holds what that action gave it. */
  lemma {:induction false} HeldExactly(acts: seq<OAction>, q: nat)
    requires AllPossible(START, acts)
    ensures var j := GiverOf(acts, q);
            && (j.Some? ==> GivenLast(acts[..j.value + 1]).Some? && GivenLast(acts[..j.value + 1]).value.0 == q)
            && IdAt(ORun(START, acts).l, q)
               == if j.Some? then Some(GivenLast(acts[..j.value + 1]).value.1) else None
    decreases |acts|
  {
    if acts != [] {
      var (front, a) := (acts[..|acts| - 1], acts[|acts| - 1]);
      LastStep(acts);
      assert GivenLast(acts) == GivenBy(ORun(START, front), a);
      hide OStep, Inv, Possible, IdAt, GivenBy, ORun, AllPossible, GivenLast;
      HeldExactly(front, q);
      GivenByExactly(ORun(START, front), a, q);
      var j := GiverOf(acts, q);
      if j == Some(|acts| - 1) {
        assert acts[..j.value + 1] == acts;
      } else {
        assert j == GiverOf(front, q);
        if j.Some? { assert acts[..j.value + 1] == front[..j.value + 1]; }
      }
    }
  }

  /** Row q is the row of the order the exchange accepted as oid. */
  ghost predicate Owns(s: OState, q: nat, oid: OrderId) {
    q < |s.l.orders| && s.l.orders[q].clientId in s.exchange
    && s.exchange[s.l.orders[q].clientId] == Accepted(oid)
  }

  lemma OwnsStays(s: OState, a: OAction, q: nat, oid: OrderId)
    requires Inv(s) && Possible(s, a) && Owns(s, q, oid)
    ensures Owns(OStep(s, a), q, oid)
  {
    CallIsStep(s, a);
    if CallOf(s, a).Some? {
      StepKeepsWellFormed(s.l, CallOf(s, a).value);
      assert RowMoves(s.l.orders[q], OStep(s, a).l.orders[q]);
    }
  }

  /** A reply and a lookup give an order's own row its own id, and nothing else outside the jobs gives any. */
  lemma OwnIdGiven(s: OState, a: OAction)
    requires Inv(s) && Possible(s, a) && !a.Background? && GivenBy(s, a).Some?
    ensures var (q, oid) := GivenBy(s, a).value;
            Owns(s, q, oid) && ((a.Reply? && a.answer.Confirmed?) || (a.Lookup? && a.found.Some?))
  {
  }

  /** An id on a row that is not its own order's was put there by a job. */
  lemma {:induction false} ForeignIdIsAttributed(acts: seq<OAction>, q: nat, oid: OrderId)
    requires AllPossible(START, acts) && IdAt(ORun(START, acts).l, q) == Some(oid)
    requires !Owns(ORun(START, acts), q, oid)
    ensures GiverOf(acts, q).Some? && acts[GiverOf(acts, q).value].Background?
    decreases |acts|
  {
    HeldExactly(acts, q);
    var (front, a) := (acts[..|acts| - 1], acts[|acts| - 1]);
    var s := ORun(START, front);
    RunKeepsInv(front);
    hide OStep, Inv, Possible, IdAt, GivenBy, Owns;
    if Owns(s, q, oid) { OwnsStays(s, a, q, oid); }
    if GiverOf(acts, q).value == |acts| - 1 {
      assert acts[..|acts|] == acts;
      if !a.Background? {
        OwnIdGiven(s, a);
        OwnsStays(s, a, q, oid);
      }
    } else {
      var j := GiverOf(acts, q).value;
      assert acts[..j + 1] == front[..j + 1];
      HeldExactly(front, q);
      ForeignIdIsAttributed(front, q, oid);
    }
  }

  // ---------------------------------------------------------------- one order id, one order

  /** The client order id of one of the bot's own orders. */
  type Owner = c: ClientId | c.Game? witness Game("", "")

  /**
   `owners` says which order of the bot an order id belongs to; an id not in it is of a foreign order. The
   exchange gives each order its own id, and the jobs give an id only while no row holds it.
   */
  ghost predicate Fair(s: OState, a: OAction, owners: map<OrderId, Owner>) {
    match a
    case Decide(c, fate) => fate.Accepted? ==> fate.oid in owners && owners[fate.oid] == c
    case Background(b) => Given(s.l, b).Some? ==> !FillSync.OnARow(s.l, Given(s.l, b).value.1)
    case _ => true
  }

  ghost predicate FairRun(acts: seq<OAction>, owners: map<OrderId, Owner>)
    decreases |acts|
  {
    acts == [] || (FairRun(acts[..|acts| - 1], owners)
                   && Fair(ORun(START, acts[..|acts| - 1]), acts[|acts| - 1], owners))
  }

  ghost predicate KnowsOwners(s: OState, owners: map<OrderId, Owner>) {
    forall c :: c in s.exchange && s.exchange[c].Accepted? ==>
      s.exchange[c].oid in owners && owners[s.exchange[c].oid] == c
  }

  lemma {:induction false} OwnersKnown(acts: seq<OAction>, owners: map<OrderId, Owner>)
    requires FairRun(acts, owners)
    ensures KnowsOwners(ORun(START, acts), owners)
    decreases |acts|
  {
    if acts != [] {
      OwnersKnown(acts[..|acts| - 1], owners);
      OwnersStayKnown(ORun(START, acts[..|acts| - 1]), acts[|acts| - 1], owners);
    }
  }

  lemma OwnersStayKnown(s: OState, a: OAction, owners: map<OrderId, Owner>)
    requires KnowsOwners(s, owners) && Fair(s, a, owners)
    ensures KnowsOwners(OStep(s, a), owners)
  {
    var s' := OStep(s, a);
    forall c | c in s'.exchange && s'.exchange[c].Accepted?
      ensures s'.exchange[c].oid in owners && owners[s'.exchange[c].oid] == c
    {
      assert a.Decide? || (c in s.exchange && s'.exchange[c] == s.exchange[c]);
    }
  }

  /**
   A reply or a lookup about to give an order's row its id finds that id on another row, settled or not, exactly
   when a job gave it to that row, which is then not the order's own.
   */
  lemma IdBesideHolderExactly(acts: seq<OAction>, a: OAction, owners: map<OrderId, Owner>, q: nat)
    requires AllPossible(START, acts) && FairRun(acts, owners) && Possible(ORun(START, acts), a) && !a.Background?
    requires GivenBy(ORun(START, acts), a).Some?
    ensures var (s, j) := (ORun(START, acts), GiverOf(acts, q));
            var (pk, oid) := GivenBy(s, a).value;
            && Owns(s, pk, oid) && IdAt(s.l, pk) != Some(oid)
            && (IdAt(s.l, q) == Some(oid) <==>
                  j.Some? && acts[j.value].Background? && GivenLast(acts[..j.value + 1]) == Some((q, oid)))
            && (IdAt(s.l, q) == Some(oid) ==> !Owns(s, q, oid))
  {
    hide ORun, AllPossible, FairRun, Inv, Possible, Owns, IdAt, GivenBy, KnowsOwners;
    var s := ORun(START, acts);
    RunKeepsInv(acts);
    var (pk, oid) := GivenBy(s, a).value;
    GivenIsNew(s, a);
    OwnIdGiven(s, a);
    OwnersKnown(acts, owners);
    HeldExactly(acts, q);
    if IdAt(s.l, q) == Some(oid) {
      if Owns(s, q, oid) { OneOwner(s, owners, pk, q, oid); }
      ForeignIdIsAttributed(acts, q, oid);
    }
  }

  lemma OneOwner(s: OState, owners: map<OrderId, Owner>, i: nat, j: nat, oid: OrderId)
    requires Inv(s) && KnowsOwners(s, owners) && Owns(s, i, oid) && Owns(s, j, oid)
    ensures i == j
  {
    assert s.l.orders[i].clientId == owners[oid] == s.l.orders[j].clientId;
  }

  lemma GivenIsNew(s: OState, a: OAction)
    requires GivenBy(s, a).Some?
    ensures IdAt(s.l, GivenBy(s, a).value.0) != Some(GivenBy(s, a).value.1)
  {
  }

  /** What the fill sync does with one order id is one call, and it gives the id only if no row holds it. */
  lemma SyncGivesFreshIds(l: LedgerState, oid: OrderId, fs: seq<FillRecord>, adopt: bool) returns (call: LedgerAction)
    requires fs != [] && FillSync.IsNba(fs[0]) && FillSync.SyncOrder(l, oid, fs, adopt).Some?
    ensures CalledByMain(l, call) && LStep(l, call) == FillSync.SyncOrder(l, oid, fs, adopt).value
    ensures Given(l, call).Some? ==> Given(l, call).value.1 == oid && !FillSync.OnARow(l, oid)
  {
    if FirstWithOrderId(l, oid).Some? || FillSync.TotalOf(fs) <= 0 {
      call := Upsert([]);
    } else {
      var (ticker, total) := (fs[0].fill.ticker.value, FillSync.TotalOf(fs));
      var avg := FillSync.CostOf(fs) as real / total as real;
      var (pending, bare) := (FillSync.Waiting(l, ticker), FillSync.FirstBare(l, ticker, 0));
      call := if pending != [] then Apply(pending[0], Some(oid), None, Some(total), Some(avg), Via.Lookup)
              else if bare.Some? && AttachOrderId(l, bare.value, oid).1 then Attach(bare.value, oid)
              else if !adopt then Upsert([])
              else AdoptNew(ticker, Some(oid), total, Some(avg), FillSync.Round(avg), 0);
    }
  }

  // ---------------------------------------------------------------- ids on their own rows

  /** An order id of the bot's is on no row but its own order's. */
  ghost predicate RightIds(l: LedgerState, owners: map<OrderId, Owner>) {
    forall i :: 0 <= i < |l.orders| && l.orders[i].orderId.Some? && l.orders[i].orderId.value in owners ==>
      l.orders[i].clientId == owners[l.orders[i].orderId.value]
  }

  /** A job gives an order id of the bot's to a row that is not that order's. */
  ghost predicate Misattributes(s: OState, a: OAction, owners: map<OrderId, Owner>) {
    && a.Background? && Given(s.l, a.a).Some?
    && var (q, oid) := Given(s.l, a.a).value;
       oid in owners && (q < |s.l.orders| ==> s.l.orders[q].clientId != owners[oid])
  }

  /** One step keeps every id on its own order's row, exactly unless a job gives one to another. */
  lemma RightIdsStepwise(s: OState, a: OAction, owners: map<OrderId, Owner>)
    requires Inv(s) && Possible(s, a) && Fair(s, a, owners) && KnowsOwners(s, owners) && RightIds(s.l, owners)
    ensures RightIds(OStep(s, a).l, owners) <==> !Misattributes(s, a, owners)
  {
    CallIsStep(s, a);
    if CallOf(s, a).Some? {
      var (call, l') := (CallOf(s, a).value, OStep(s, a).l);
      StepKeepsWellFormed(s.l, call);
      if !Misattributes(s, a, owners) {
        RightCallKeepsRight(s, a, owners);
      } else {
        var (q, oid) := Given(s.l, call).value;
        GivenExactly(s.l, call, q);
        WrongRow(s, a, owners);
      }
    }
  }

  lemma GivenIsRight(s: OState, a: OAction, owners: map<OrderId, Owner>)
    requires Inv(s) && Possible(s, a) && KnowsOwners(s, owners) && !Misattributes(s, a, owners)
    requires GivenBy(s, a).Some? && GivenBy(s, a).value.1 in owners
    ensures var (q, oid) := GivenBy(s, a).value;
            q < |s.l.orders| && s.l.orders[q].clientId == owners[oid]
  {
    if !a.Background? { OwnIdGiven(s, a); }
  }

  lemma StepKeepsClientIds(s: OState, a: OAction)
    requires Inv(s) && Possible(s, a)
    ensures var l' := OStep(s, a).l;
            |s.l.orders| <= |l'.orders|
            && forall i :: 0 <= i < |s.l.orders| ==> l'.orders[i].clientId == s.l.orders[i].clientId
  {
    CallIsStep(s, a);
    if CallOf(s, a).Some? {
      var l' := LStep(s.l, CallOf(s, a).value);
      StepKeepsWellFormed(s.l, CallOf(s, a).value);
      forall i | 0 <= i < |s.l.orders| ensures l'.orders[i].clientId == s.l.orders[i].clientId {
        assert RowMoves(s.l.orders[i], l'.orders[i]);
      }
    }
  }

  lemma RightCallKeepsRight(s: OState, a: OAction, owners: map<OrderId, Owner>)
    requires Inv(s) && Possible(s, a) && KnowsOwners(s, owners) && RightIds(s.l, owners)
    requires !Misattributes(s, a, owners)
    ensures RightIds(OStep(s, a).l, owners)
  {
    StepKeepsClientIds(s, a);
    hide OStep, Inv, Possible, GivenBy, Misattributes, KnowsOwners;
    var l' := OStep(s, a).l;
    forall i | 0 <= i < |l'.orders| && l'.orders[i].orderId.Some? && l'.orders[i].orderId.value in owners
      ensures l'.orders[i].clientId == owners[l'.orders[i].orderId.value]
    {
      assert IdAt(l', i) == l'.orders[i].orderId;
      GivenByExactly(s, a, i);
      if GivenBy(s, a).Some? && GivenBy(s, a).value.0 == i { GivenIsRight(s, a, owners); }
    }
  }

  lemma WrongRow(s: OState, a: OAction, owners: map<OrderId, Owner>)
    requires Inv(s) && Possible(s, a) && Misattributes(s, a, owners)
    ensures !RightIds(OStep(s, a).l, owners)
  {
    var (q, oid) := Given(s.l, a.a).value;
    var l' := LStep(s.l, a.a);
    GivenExactly(s.l, a.a, q);
    StepKeepsWellFormed(s.l, a.a);
    assert IdAt(l', q) == Some(oid);
    assert q < |s.l.orders| ==> RowMoves(s.l.orders[q], l'.orders[q]);
    assert q == |s.l.orders| ==> !l'.orders[q].clientId.Game?;
  }

  ghost predicate AlwaysRight(acts: seq<OAction>, owners: map<OrderId, Owner>)
    decreases |acts|
  {
    RightIds(ORun(START, acts).l, owners) && (acts == [] || AlwaysRight(acts[..|acts| - 1], owners))
  }

  ghost predicate NeverMisattributes(acts: seq<OAction>, owners: map<OrderId, Owner>)
    decreases |acts|
  {
    acts == [] || (NeverMisattributes(acts[..|acts| - 1], owners)
                   && !Misattributes(ORun(START, acts[..|acts| - 1]), acts[|acts| - 1], owners))
  }

  /** Over any run the ids stay on their own orders' rows if and only if no job gives one to another row. */
  lemma {:induction false} RightIdsExactly(acts: seq<OAction>, owners: map<OrderId, Owner>)
    requires AllPossible(START, acts) && FairRun(acts, owners)
    ensures AlwaysRight(acts, owners) <==> NeverMisattributes(acts, owners)
    decreases |acts|
  {
    if acts != [] {
      var (front, a) := (acts[..|acts| - 1], acts[|acts| - 1]);
      LastStep(acts);
      RightIdsExactly(front, owners);
      OwnersKnown(front, owners);
      hide ORun, OStep, AllPossible, Possible, Inv, RightIds, Misattributes, KnowsOwners;
      if AlwaysRight(front, owners) {
        assert RightIds(ORun(START, front).l, owners);
        RightIdsStepwise(ORun(START, front), a, owners);
      }
    }
  }

  /** While ids are on their own rows, no two rows share one. */
  lemma RightIdsKeepDistinct(s: OState, a: OAction, owners: map<OrderId, Owner>)
    requires Inv(s) && Possible(s, a) && Fair(s, a, owners) && KnowsOwners(s, owners)
    requires RightIds(s.l, owners) && DistinctIds(s.l)
    ensures DistinctIds(OStep(s, a).l)
  {
    var l' := OStep(s, a).l;
    if GivenBy(s, a).Some? { GivenIsElsewhere(s, a, owners); }
    forall i, j | 0 <= i < j < |l'.orders| && l'.orders[i].orderId.Some?
      ensures l'.orders[i].orderId != l'.orders[j].orderId
    {
      assert l'.orders[i].orderId == IdAt(l', i) && l'.orders[j].orderId == IdAt(l', j);
      hide Inv, Possible, OStep, GivenBy, Fair, KnowsOwners, RightIds;
      GivenByExactly(s, a, i);
      GivenByExactly(s, a, j);
    }
  }

  lemma GivenIsElsewhere(s: OState, a: OAction, owners: map<OrderId, Owner>)
    requires Inv(s) && Possible(s, a) && Fair(s, a, owners) && KnowsOwners(s, owners) && RightIds(s.l, owners)
    requires GivenBy(s, a).Some?
    ensures var (pk, oid) := GivenBy(s, a).value;
            forall q: nat :: q != pk ==> IdAt(s.l, q) != Some(oid)
  {
    var (pk, oid) := GivenBy(s, a).value;
    if !a.Background? {
      OwnIdGiven(s, a);
      assert s.l.orders[pk].clientId == owners[oid];
    }
  }

  lemma {:induction false} NeverMisattributedIsDistinct(acts: seq<OAction>, owners: map<OrderId, Owner>)
    requires AllPossible(START, acts) && FairRun(acts, owners) && AlwaysRight(acts, owners)
    ensures DistinctIds(ORun(START, acts).l)
    decreases |acts|
  {
    if acts != [] {
      var (front, a) := (acts[..|acts| - 1], acts[|acts| - 1]);
      LastStep(acts);
      OwnersKnown(front, owners);
      assert RightIds(ORun(START, front).l, owners);
      hide ORun, OStep, AllPossible, Possible, Inv, RightIds, KnowsOwners, DistinctIds;
      NeverMisattributedIsDistinct(front, owners);
      RightIdsKeepDistinct(ORun(START, front), a, owners);
    }
  }

  lemma DistinctSettleBooksOnce(b: Books, a: LedgerAction)
    requires BooksFit(b) && BookedOnce(b) && DistinctIds(b.l)
    ensures BookedOnce(BStep(b, a))
  {
    BookedOnceStepwise(b, a);
  }

  /**
   Over any run of the protocol in which the jobs give no order id to another order's row, whatever is lost, late
   or looked up meanwhile: no two rows share an order id and no fill is booked twice.
   */
  lemma {:induction false} RightlyAttributedBooksOnce(acts: seq<OAction>, owners: map<OrderId, Owner>)
    requires AllPossible(START, acts) && FairRun(acts, owners) && NeverMisattributes(acts, owners)
    ensures DistinctIds(ORun(START, acts).l) && BookedOnce(BooksOf(acts))
    decreases |acts|
  {
    RightIdsExactly(acts, owners);
    NeverMisattributedIsDistinct(acts, owners);
    if acts != [] {
      var (front, a) := (acts[..|acts| - 1], acts[|acts| - 1]);
      assert acts == front + [a];
      LastStep(acts);
      hide ORun, OStep, BStep, CallOf, AllPossible, Possible, Inv, BooksOf, BooksFit;
      hide DistinctIds, BookedOnce, AlwaysRight;
      RightlyAttributedBooksOnce(front, owners);
      FitsToo(front);
      BooksOfSnoc(front, a);
      var call := CallOf(ORun(START, front), a);
      if call.Some? { DistinctSettleBooksOnce(BooksOf(front), call.value); }
    }
  }

  lemma FitsToo(acts: seq<OAction>)
    requires AllPossible(START, acts)
    ensures BooksFit(BooksOf(acts)) && BooksOf(acts).l == ORun(START, acts).l
  {
    TraceFollows(acts);
    hide ORun, AllPossible, Trace, BRun, ByMainRun, BooksFit;
    RunKeepsBooks(NO_BOOKS, Trace(acts));
  }

  /** And the total is the sum over exactly the booked fills. */
  lemma RightlyAttributedTotal(acts: seq<OAction>, owners: map<OrderId, Owner>) returns (nets: map<FillId, int>)
    requires AllPossible(START, acts) && FairRun(acts, owners) && NeverMisattributes(acts, owners)
    ensures var b := BooksOf(acts);
            && b.l == ORun(START, acts).l && b.booked.Keys == b.l.settlements.Keys
            && IsNetOfBooked(b, b.booked.Keys, nets)
            && TotalFillPnl(b.l, b.l.settlements.Keys) == SumOf(nets)
  {
    RightlyAttributedBooksOnce(acts, owners);
    FitsToo(acts);
    hide ORun, AllPossible, FairRun, NeverMisattributes, BooksOf, BookedOnce;
    nets := TotalOverRows(BooksOf(acts), BooksOf(acts).booked.Keys);
  }

  // ---------------------------------------------------------------- a fill that is booked twice

  /** The job settles only rows alone on their ticker. */
  ghost predicate SettlesAlone(s: OState, a: OAction) {
    a.Background? && a.a.Settle? ==> AloneOnTicker(s.l, a.a.pk)
  }

  ghost predicate AloneRun(acts: seq<OAction>)
    decreases |acts|
  {
    acts == [] || (AloneRun(acts[..|acts| - 1])
                   && SettlesAlone(ORun(START, acts[..|acts| - 1]), acts[|acts| - 1]))
  }

  const MARKET := "KXNBAGAME-A"

  const FIRST := Game("g1", MARKET)

  const SECOND := Game("g2", MARKET)

  const OWNERS: map<OrderId, Owner> := map["2" := SECOND]

  const FILL := FillRecord(Some("f"), Some(50), Fill(Some("2"), Some(MARKET), 1, 50, Some(Yes), Some(true), None))

  /** A run in which the exchange is truthful and the jobs make all the checks they make. */
  ghost predicate IsRealRun(acts: seq<OAction>) {
    AllPossible(START, acts) && FairRun(acts, OWNERS) && AloneRun(acts)
  }

  lemma Then(acts: seq<OAction>, a: OAction) returns (more: seq<OAction>)
    requires IsRealRun(acts)
    requires var s := ORun(START, acts); Possible(s, a) && Fair(s, a, OWNERS) && SettlesAlone(s, a)
    ensures more == acts + [a] && IsRealRun(more) && ORun(START, more) == OStep(ORun(START, acts), a)
  {
    more := acts + [a];
    assert more[..|more| - 1] == acts;
  }

  function Waits(c: ClientId): OrderRow { OrderRow(MARKET, c, None, 1, 50, Submitting, None, None, None, None) }

  /** One game's order is sent, and nothing comes back before the process stops. */
  lemma SentAndLost(acts: seq<OAction>, game: string, fate: Fate) returns (more: seq<OAction>)
    requires IsRealRun(acts) && !fate.InFlight? && (fate.Accepted? ==> fate.oid == "2" && game == "g2")
    requires var s := ORun(START, acts);
             && s.pc.Idle? && !HasClientId(s.l, Game(game, MARKET)) && Game(game, MARKET) !in s.exchange
    ensures IsRealRun(more) && |more| == |acts| + 4
    ensures var (s, t) := (ORun(START, acts), ORun(START, more));
            && t.pc.Idle? && t.l == s.l.(orders := s.l.orders + [Waits(Game(game, MARKET))])
            && t.exchange == s.exchange[Game(game, MARKET) := fate]
  {
    var s := ORun(START, acts);
    BeginNew(s.l, Game(game, MARKET));
    hide ORun, AllPossible, FairRun, AloneRun, IsRealRun;
    more := Then(acts, Evaluate(MARKET, game, 1, 50));
    more := Then(more, Post);
    more := Then(more, Decide(Game(game, MARKET), fate));
    more := Then(more, OAction.Crash);
  }

  lemma BeginNew(l: LedgerState, c: ClientId)
    requires !HasClientId(l, c)
    ensures BeginOrder(l, MARKET, c, 1, 50) == (l.(orders := l.orders + [Waits(c)]), |l.orders|, true)
  {
  }

  /** Both orders of the two games are for one market; the exchange refused the first and took the second. */
  lemma TwoWaiting() returns (acts: seq<OAction>)
    ensures IsRealRun(acts) && |acts| == 8
    ensures var s := ORun(START, acts);
            && s.pc.Idle? && s.l == LedgerState([Waits(FIRST), Waits(SECOND)], map[], map[])
            && s.exchange == map[FIRST := Refused, SECOND := Accepted("2")]
  {
    acts := SentAndLost([], "g1", Refused);
    assert ORun(START, acts).l.orders == [Waits(FIRST)];
    hide ORun, IsRealRun;
    acts := SentAndLost(acts, "g2", Accepted("2"));
    assert ORun(START, acts).l.orders == [Waits(FIRST), Waits(SECOND)];
  }

  const TOOK := Waits(FIRST).(outcome := Placed, orderId := Some("2"), filled := Some(1), avgFill := Some(50.0),
                              via := Some(Via.Lookup))

  lemma OneFill()
    ensures FillSync.IsNba(FILL) && UpsertAll(map[], [FILL]) == map["f" := FILL.fill]
    ensures FillSync.OrdersIn([FILL]) == ["2"] && FillSync.FillsUnder([FILL], "2") == [FILL]
    ensures FillSync.TotalOf([FILL]) == 1 && FillSync.AllPriced([FILL]) && FillSync.CostOf([FILL]) == 50
  {
    assert [FILL][..0] == [] && UpsertAll(map[], []) == map[];
    assert FillSync.IsNba(FILL) && FillSync.OrdersIn([]) == [] && FillSync.FillsUnder([], "2") == [];
  }

  lemma FirstWaits(l: LedgerState)
    requires l.orders == [Waits(FIRST), Waits(SECOND)]
    ensures FillSync.Waiting(l, MARKET) != [] && FillSync.Waiting(l, MARKET)[0] == 0
  {
    assert FillSync.WaitingBelow(l.orders, MARKET, 0) == [] && FillSync.WaitingBelow(l.orders, MARKET, 1) == [0];
  }

  /** The fill sync gives the fill of the second order to the row of the first, which has waited longer. */
  lemma SyncTakesTheFirst(l: LedgerState)
    requires l == LedgerState([Waits(FIRST), Waits(SECOND)], map[], map[])
    ensures FillSync.SyncFills(l, [FILL], true)
            == Some(LedgerState([TOOK, Waits(SECOND)], map["f" := FILL.fill], map[]))
  {
    var now := l.(fills := UpsertAll(l.fills, [FILL]));
    var next := LedgerState([TOOK, Waits(SECOND)], map["f" := FILL.fill], map[]);
    OneFill();
    FirstWaits(now);
    hide FillSync.Waiting, FillSync.FillsUnder, FillSync.OrdersIn, FillSync.TotalOf, FillSync.CostOf, UpsertAll;
    hide FillSync.IsNba;
    assert now.orders[0 := TOOK] == next.orders;
    assert FillSync.SyncOrder(now, "2", [FILL], true) == Some(next);
    assert ["2"][1..] == [] && FillSync.SyncOrders(next, [FILL], [], true) == Some(next);
  }

  const STORED := Background(Upsert([FILL]))

  const GIVEN := Background(Apply(0, Some("2"), None, Some(1), Some(50.0), Via.Lookup))

  const SETTLED := Background(Settle(0, true))

  const FOUND := OAction.Lookup(1, Some(Found("2", None, Some(1), None)), Via.Lookup)

  const AGAIN := Background(Settle(1, true))

  const HELD := Waits(SECOND).(outcome := Placed, orderId := Some("2"), filled := Some(1), via := Some(Via.Lookup))

  /** The exchange refused the first order and took the second; these are the rows, with the fill stored. */
  ghost predicate Rows(s: OState, first: OrderRow, second: OrderRow, settled: set<nat>) {
    && s.exchange == map[FIRST := Refused, SECOND := Accepted("2")]
    && s.l.orders == [first, second] && s.l.fills == map["f" := FILL.fill] && s.l.settlements.Keys == settled
    && forall pk :: pk in settled ==> s.l.settlements[pk].source.KalshiFills?
  }

  ghost predicate Allowed(s: OState, a: OAction) { Possible(s, a) && Fair(s, a, OWNERS) && SettlesAlone(s, a) }

  lemma Stores(s: OState)
    requires s.exchange == map[FIRST := Refused, SECOND := Accepted("2")]
    requires s.l == LedgerState([Waits(FIRST), Waits(SECOND)], map[], map[])
    ensures Allowed(s, STORED) && Rows(OStep(s, STORED), Waits(FIRST), Waits(SECOND), {})
  {
    assert [FILL][..0] == [] && UpsertAll(map[], []) == map[];
  }

  lemma Gives(s: OState)
    requires Rows(s, Waits(FIRST), Waits(SECOND), {})
    ensures Allowed(s, GIVEN) && Rows(OStep(s, GIVEN), TOOK, Waits(SECOND), {})
  {
    assert OStep(s, GIVEN).l == s.l.(orders := s.l.orders[0 := TOOK]);
  }

  lemma SettlesFirst(s: OState)
    requires Rows(s, TOOK, Waits(SECOND), {})
    ensures Allowed(s, SETTLED) && Rows(OStep(s, SETTLED), TOOK, Waits(SECOND), {0})
  {
    assert "f" in FillsFor(s.l.fills, Some("2"));
  }

  lemma Finds(s: OState)
    requires Rows(s, TOOK, Waits(SECOND), {0})
    ensures Allowed(s, FOUND) && Rows(OStep(s, FOUND), TOOK, HELD, {0})
  {
    assert OStep(s, FOUND).l == s.l.(orders := s.l.orders[1 := HELD]);
  }

  lemma SettlesAgain(s: OState)
    requires Rows(s, TOOK, HELD, {0})
    ensures Allowed(s, AGAIN) && !DistinctIds(OStep(s, AGAIN).l) && DoubleBooks(s.l, 1)
  {
    var l' := OStep(s, AGAIN).l;
    assert l'.orders == s.l.orders && l'.orders[0].orderId == Some("2") == l'.orders[1].orderId;
    assert SettledFromFills(s.l, 0);
  }

  /** The fill sync as two steps of a run. */
  lemma Synced() returns (before: seq<OAction>, acts: seq<OAction>)
    ensures |before| == 8 && acts == before + [STORED, GIVEN] && IsRealRun(acts)
    ensures FillSync.SyncFills(ORun(START, before).l, [FILL], true) == Some(ORun(START, acts).l)
    ensures Rows(ORun(START, acts), TOOK, Waits(SECOND), {})
  {
    before := TwoWaiting();
    SyncTakesTheFirst(ORun(START, before).l);
    Stores(ORun(START, before));
    hide ORun, OStep, IsRealRun, Possible, Fair, SettlesAlone, FillSync.SyncFills;
    acts := Then(before, STORED);
    Gives(ORun(START, acts));
    acts := Then(acts, GIVEN);
    assert ORun(START, acts).l == LedgerState([TOOK, Waits(SECOND)], map["f" := FILL.fill], map[]);
  }

  /**
   Two games name one market. The order of the first is refused and that of the second taken, both without a
   reply. The fill sync gives the second order's fill to the first row, which is settled, since a row that still
   waits does not count against it; a lookup then gives the second row its own id, and it is settled from the same
   fill. Every check the code makes is passed.
   */
  lemma MisattributedFillBooksTwice() returns (acts: seq<OAction>)
    ensures IsRealRun(acts) && |acts| == 13
    ensures FillSync.SyncFills(ORun(START, acts[..8]).l, [FILL], true) == Some(ORun(START, acts[..10]).l)
    ensures !NeverMisattributes(acts, OWNERS) && !DistinctIds(ORun(START, acts).l)
    ensures !BookedOnce(BooksOf(acts))
  {
    var before, synced := Synced();
    var found := SettledThenFound(synced);
    SettlesAgain(ORun(START, found));
    BookedAgain(found);
    hide ORun, OStep, Possible, Fair, SettlesAlone, Rows, NeverMisattributes, BooksOf, BookedOnce, DistinctIds;
    acts := Then(found, AGAIN);
    assert acts[..8] == before && acts[..10] == synced;
    if NeverMisattributes(acts, OWNERS) { RightlyAttributedBooksOnce(acts, OWNERS); }
  }

  lemma SettledThenFound(acts: seq<OAction>) returns (more: seq<OAction>)
    requires IsRealRun(acts) && Rows(ORun(START, acts), TOOK, Waits(SECOND), {})
    ensures more == acts + [SETTLED, FOUND] && IsRealRun(more) && Rows(ORun(START, more), TOOK, HELD, {0})
  {
    hide ORun, OStep, IsRealRun, Possible, Fair, SettlesAlone, Rows;
    SettlesFirst(ORun(START, acts));
    more := Then(acts, SETTLED);
    Finds(ORun(START, more));
    more := Then(more, FOUND);
  }

  lemma BookedAgain(acts: seq<OAction>)
    requires IsRealRun(acts) && DoubleBooks(ORun(START, acts).l, 1)
    ensures !BookedOnce(BooksOf(acts + [AGAIN]))
  {
    assert AllPossible(START, acts) && CallOf(ORun(START, acts), AGAIN) == Some(Settle(1, true));
    hide *;
    FitsToo(acts);
    BooksOfSnoc(acts, AGAIN);
    DoubleBooksOverlaps(BooksOf(acts), 1, true);
  }
}
