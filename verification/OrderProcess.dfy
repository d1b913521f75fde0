/** The order part of the pre-game job and the lookup, as main.py runs them: every path is a run of the protocol. */
module OrderProcess {
  import opened Wrappers
  import opened Ledger
  import opened LedgerRuns
  import opened LedgerTables
  import opened OrderProtocol

  datatype LookupAnswer = LookupFailed | Nothing | Hit(found: Found)

  function AsFound(answer: LookupAnswer): Option<Found> {
    if answer.Hit? then Some(answer.found) else None
  }

  /** A lookup reports an order only if the exchange accepted it. */
  ghost predicate Truthful(s: OState, c: ClientId, answer: LookupAnswer) {
    answer.Hit? ==> c in s.exchange && s.exchange[c] == Accepted(answer.found.oid)
  }

  /** The rows `orders_needing_resolution` selects. */
  predicate NeedsResolution(row: OrderRow) { row.outcome.Submitting? || row.outcome.Unconfirmed? }

  datatype JobResult = Ordered | Skipped

  /** `_resolve_order`: ask the exchange, never send. */
  method ResolveOrder(db: LedgerDb, pk: nat, via: Via, answer: LookupAnswer)
    requires pk < |db.orders|
    modifies db`orders
    ensures db.State() ==
            if answer.LookupFailed? then old(db.State())
            else RecordLookup(old(db.State()), pk, AsFound(answer), via)
  {
    match answer
    case LookupFailed =>
    case Nothing =>
      if !db.orders[pk].outcome.NotFound? {
        var _ := db.SetOrderOutcome(pk, NotFound);
      }
    case Hit(found) =>
      var _ := db.ApplyOrderState(pk, Some(found.oid), found.status, found.filled, found.avg, via);
  }

  ghost predicate IsRun(s: OState, acts: seq<OAction>, s': OState) {
    AllPossible(s, acts) && ORun(s, acts) == s'
  }

  lemma EmptyRun(s: OState)
    ensures IsRun(s, [], s)
  {
  }

  lemma RunsJoin(s: OState, a: seq<OAction>, mid: OState, b: seq<OAction>, end: OState)
    requires IsRun(s, a, mid) && IsRun(mid, b, end)
    ensures IsRun(s, a + b, end)
  {
    RunConcat(s, a, b);
  }

  lemma {:induction false} RunConcat(s: OState, a: seq<OAction>, b: seq<OAction>)
    requires AllPossible(s, a) && AllPossible(ORun(s, a), b)
    ensures AllPossible(s, a + b) && ORun(s, a + b) == ORun(ORun(s, a), b)
    decreases |b|
  {
    hide OStep, Possible;
    if b == [] {
      assert a + b == a;
    } else {
      var front := b[..|b| - 1];
      RunConcat(s, a, front);
      assert (a + b)[..|a + b| - 1] == a + front;
    }
  }

  /** One more action of the run. */
  ghost method Take(s: OState, acts: seq<OAction>, now: OState, a: OAction) returns (acts': seq<OAction>, now': OState)
    requires IsRun(s, acts, now) && Inv(now) && Possible(now, a)
    ensures IsRun(s, acts', now') && Inv(now') && now' == OStep(now, a) && acts' == acts + [a]
  {
    acts' := Snoc(s, acts, a);
    now' := OStep(now, a);
    StepKeepsInv(now, a);
  }

  lemma PostStep(s: OState)
    requires Inv(s) && s.pc.Begun?
    ensures var t := OStep(s, Post);
            && t.l == s.l && t.pc == Posted(s.pc.c, s.pc.pk) && t.posts == s.posts + [s.pc.c]
            && s.pc.c !in s.exchange && t.exchange == s.exchange[s.pc.c := InFlight]
  {
  }

  // What happens, action by action, on each path through the job.

  ghost function PostPath(c: ClientId, fate: Fate): seq<OAction> {
    [Post] + if fate.InFlight? then [] else [Decide(c, fate)]
  }

  ghost function LookupPath(pk: nat, lookup: LookupAnswer, via: Via): seq<OAction> {
    if lookup.LookupFailed? then [] else [OAction.Lookup(pk, AsFound(lookup), via)]
  }

  /** The client cannot tell whether the order exists: no usable reply, and none that reads like a rejection. */
  ghost predicate LeavesOpen(answer: Answer) {
    answer.NoReply? || (answer.HttpError? && !ReadsAsRejection(answer.code, answer.body))
  }

  ghost function ReplyPath(pk: nat, answer: Answer, lookup: LookupAnswer): seq<OAction> {
    [Reply(answer)] + if LeavesOpen(answer) then LookupPath(pk, lookup, Via.Lookup) else []
  }

  ghost function SendPath(c: ClientId, pk: nat, killed: bool, fate: Fate, answer: Answer,
                          lookup: LookupAnswer): seq<OAction>
  {
    if killed then [BlockedByKillSwitch] else PostPath(c, fate) + ReplyPath(pk, answer, lookup)
  }

  /** A row that was there before is looked up if its outcome is unknown; a new one is sent. */
  ghost function OrderPath(l: LedgerState, ticker: Ticker, game: string, count: int, limit: int, killed: bool,
                           fate: Fate, answer: Answer, lookup: LookupAnswer): seq<OAction>
  {
    var (l', pk, created) := BeginOrder(l, ticker, Game(game, ticker), count, limit);
    [Evaluate(ticker, game, count, limit)]
    + if created then SendPath(Game(game, ticker), pk, killed, fate, answer, lookup)
      else if pk < |l'.orders| && NeedsResolution(l'.orders[pk]) then LookupPath(pk, lookup, Startup) else []
  }

  /** The POST goes out and the exchange makes of it what it will. */
  ghost method PostAndDecide(s: OState, fate: Fate) returns (acts: seq<OAction>, s': OState)
    requires Inv(s) && s.pc.Begun?
    ensures IsRun(s, acts, s') && Inv(s') && s'.l == s.l && s'.pc == Posted(s.pc.c, s.pc.pk)
    ensures s'.posts == s.posts + [s.pc.c] && s'.exchange == s.exchange[s.pc.c := fate]
    ensures acts == PostPath(s.pc.c, fate)
  {
    PostStep(s);
    hide IsRun, ORun, AllPossible, Inv;
    EmptyRun(s);
    acts, s' := Take(s, [], s, Post);
    if !fate.InFlight? {
      acts, s' := Take(s, acts, s', Decide(s.pc.c, fate));
    }
  }

  /** What main.py writes down for the reply; true when it must ask the exchange. */
  method RecordAnswer(db: LedgerDb, pk: nat, answer: Answer) returns (unclear: bool)
    modifies db`orders
    ensures db.State() == RecordReply(old(db.State()), pk, answer)
    ensures unclear <==> LeavesOpen(answer)
    ensures pk < |old(db.orders)| && old(db.orders)[pk].outcome.Submitting? && pk !in db.settlements ==>
              var (row, row') := (old(db.orders)[pk], db.orders[pk]);
              && db.orders == old(db.orders)[pk := row']
              && if answer.Confirmed? then
                   row' == row.(outcome := Placed, orderId := Some(answer.oid), via := row'.via,
                                status := if answer.status.Some? then answer.status else row.status)
                 else
                   row' == row.(outcome := if LeavesOpen(answer) then Unconfirmed
                                           else if NamesLocation(answer.code, answer.body) then BlockedLocation
                                           else InsufficientFunds)
  {
    if answer.HttpError? { ReadErrorExactly(answer.code, answer.body); }
    hide ReadsAsRejection, NamesLocation, ReadError;
    if answer.Confirmed? {
      var refused := db.MarkPlaced(pk, answer.oid, answer.status);
      if refused.Some? {
        var _ := db.ApplyOrderState(pk, Some(answer.oid), answer.status, None, None, Response);
      }
      return false;
    }
    var _ := db.SetOrderOutcome(pk, ReadAnswer(answer));
    unclear := !IsRejection(ReadAnswer(answer));
  }

  /** One lookup, with its place in the run. */
  method LookUp(db: LedgerDb, ghost s: OState, pk: nat, lookup: LookupAnswer, via: Via)
    returns (ghost acts: seq<OAction>, ghost s': OState)
    requires s.l == db.State() && Inv(s) && pk < |db.orders| && db.orders[pk].clientId.Game?
    requires Truthful(s, db.orders[pk].clientId, lookup)
    modifies db`orders
    ensures IsRun(s, acts, s') && Inv(s') && s'.l == db.State() && acts == LookupPath(pk, lookup, via)
    ensures s'.posts == s.posts && s'.exchange == s.exchange && s'.pc == s.pc
    ensures s' == if lookup.LookupFailed? then s else OStep(s, OAction.Lookup(pk, AsFound(lookup), via))
  {
    hide IsRun, ORun, AllPossible, Inv;
    EmptyRun(s);
    acts, s' := [], s;
    ResolveOrder(db, pk, via, lookup);
    if !lookup.LookupFailed? {
      acts, s' := Take(s, [], s, OAction.Lookup(pk, AsFound(lookup), via));
    }
  }

  lemma ReplyStep(s: OState, answer: Answer)
    requires Inv(s) && s.pc.Posted? && Possible(s, Reply(answer))
    ensures var t := OStep(s, Reply(answer));
            && t.l == RecordReply(s.l, s.pc.pk, answer) && t.pc.Idle? && t.posts == s.posts && t.exchange == s.exchange
            && s.pc.pk < |t.l.orders| && t.l.orders[s.pc.pk].clientId == s.pc.c && s.pc.c.Game?
  {
    assert RecordReply(s.l, s.pc.pk, answer) == LStep(s.l, ReplyCall(s.pc.pk, answer));
    if OStep(s, Reply(answer)).l != s.l { ChangesOneRow(s.l, ReplyCall(s.pc.pk, answer)); }
  }

  /** From the reply on: write it down, and ask the exchange if it was unclear. */
  method RecordAndAsk(db: LedgerDb, ghost s: OState, pk: nat, answer: Answer, lookup: LookupAnswer)
    returns (ghost acts: seq<OAction>, ghost s': OState)
    requires s.l == db.State() && Inv(s) && s.pc.Posted? && s.pc.pk == pk
    requires Possible(s, Reply(answer)) && Truthful(s, s.pc.c, lookup)
    modifies db`orders
    ensures IsRun(s, acts, s') && Inv(s') && s'.l == db.State() && s'.pc.Idle? && s'.posts == s.posts
    ensures acts == ReplyPath(pk, answer, lookup)
  {
    ReplyStep(s, answer);
    hide IsRun, ORun, AllPossible, Inv, Possible, OStep;
    EmptyRun(s);
    var unclear := RecordAnswer(db, pk, answer);
    acts, s' := Take(s, [], s, Reply(answer));
    if unclear {
      ghost var mid, more := s', [];
      more, s' := LookUp(db, mid, pk, lookup, Via.Lookup);
      RunsJoin(s, acts, mid, more, s');
      acts := acts + more;
    }
  }

  /**
   From the committed row to the end of the job. `fate` is what the exchange makes of the POST while the
   client waits; `answer` is what the client gets; `lookup` is what it is told when it has to ask.
   */
  method SendOrder(db: LedgerDb, ghost s: OState, pk: nat, killed: bool, ghost fate: Fate, answer: Answer,
      lookup: LookupAnswer)
    returns (result: JobResult, ghost acts: seq<OAction>, ghost s': OState)
    requires s.l == db.State() && Inv(s) && s.pc.Begun? && s.pc.pk == pk
    requires answer.Confirmed? ==> fate == Accepted(answer.oid)
    requires lookup.Hit? ==> fate == Accepted(lookup.found.oid)
    modifies db`orders
    ensures IsRun(s, acts, s') && Inv(s') && s'.l == db.State() && s'.pc.Idle?
    ensures s'.posts == if killed then s.posts else s.posts + [s.pc.c]
    ensures acts == SendPath(s.pc.c, pk, killed, fate, answer, lookup)
    ensures result == if killed then Skipped else Ordered
  {
    hide IsRun, ORun, AllPossible;
    EmptyRun(s);
    if killed {
      var _ := db.SetOrderOutcome(pk, Failed);
      acts, s' := Take(s, [], s, BlockedByKillSwitch);
      return Skipped, acts, s';
    }
    ghost var rest, waiting;
    acts, waiting := PostAndDecide(s, fate);
    rest, s' := RecordAndAsk(db, waiting, pk, answer, lookup);
    RunsJoin(s, acts, waiting, rest, s');
    acts := acts + rest;
    result := Ordered;
  }

  /** The order part of `_pre_game_body`: a row that was there before is looked up or left, never sent again. */
  method OrderPart(db: LedgerDb, ghost s: OState, ticker: Ticker, game: string, count: int, limit: int,
                   killed: bool, ghost fate: Fate, answer: Answer, lookup: LookupAnswer)
    returns (result: JobResult, ghost acts: seq<OAction>, ghost s': OState)
    requires s.l == db.State() && Inv(s) && s.pc.Idle?
    requires answer.Confirmed? ==> fate == Accepted(answer.oid)
    requires lookup.Hit? && HasClientId(s.l, Game(game, ticker)) ==> Truthful(s, Game(game, ticker), lookup)
    requires lookup.Hit? && !HasClientId(s.l, Game(game, ticker)) ==> fate == Accepted(lookup.found.oid)
    modifies db`orders
    ensures IsRun(s, acts, s') && s'.l == db.State() && s'.pc.Idle? && Inv(s')
    ensures s'.posts ==
            if killed || HasClientId(s.l, Game(game, ticker)) then s.posts
            else s.posts + [Game(game, ticker)]
    ensures acts == OrderPath(s.l, ticker, game, count, limit, killed, fate, answer, lookup)
  {
    var c := Game(game, ticker);
    ghost var a := Evaluate(ticker, game, count, limit);
    EvaluateStep(s, ticker, game, count, limit);
    var pk, created := db.BeginOrder(ticker, c, count, limit);
    hide IsRun, ORun, AllPossible, Inv, OStep, Possible, HasClientId;
    EmptyRun(s);
    ghost var begun, rest;
    acts, begun := Take(s, [], s, a);
    rest, s' := [], begun;
    if created {
      result, rest, s' := SendOrder(db, begun, pk, killed, fate, answer, lookup);
    } else if NeedsResolution(db.orders[pk]) {
      result := Ordered;
      rest, s' := LookUp(db, begun, pk, lookup, Startup);
    } else {
      result := Skipped;
      EmptyRun(begun);
    }
    RunsJoin(s, acts, begun, rest, s');
    acts := acts + rest;
  }

  lemma EvaluateStep(s: OState, ticker: Ticker, game: string, count: int, limit: int)
    requires Inv(s) && s.pc.Idle?
    ensures var c := Game(game, ticker);
            var (l', pk, created) := BeginOrder(s.l, ticker, c, count, limit);
            var t := OStep(s, Evaluate(ticker, game, count, limit));
            && Possible(s, Evaluate(ticker, game, count, limit))
            && t.l == l' && t.pc == (if created then Begun(c, pk) else Idle) && t.posts == s.posts
                && t.exchange == s.exchange
            && pk < |l'.orders| && l'.orders[pk].clientId == c && (created <==> !HasClientId(s.l, c))
  {
    BeginKeepsWellFormed(s.l, ticker, Game(game, ticker), count, limit);
  }

  /**
   What the order part does, step by step: a row that is there already is at most looked up, while it is submitting or
   unconfirmed; a new one is blocked by a pause, or sent once, and looked up exactly when the reply leaves it open.
   */
  lemma OrderPathExactly(l: LedgerState, ticker: Ticker, game: string, count: int, limit: int, killed: bool, fate: Fate,
                         answer: Answer, lookup: LookupAnswer)
    requires WellFormed(l)
    ensures var acts := OrderPath(l, ticker, game, count, limit, killed, fate, answer, lookup);
            var begin := [Evaluate(ticker, game, count, limit)];
            var c := Game(game, ticker);
            && (forall pk: nat :: pk < |l.orders| && l.orders[pk].clientId == c ==>
                  acts == begin + if (l.orders[pk].outcome.Submitting? || l.orders[pk].outcome.Unconfirmed?)
                                     && !lookup.LookupFailed?
                                  then [OAction.Lookup(pk, AsFound(lookup), Startup)] else [])
            && (!HasClientId(l, c) ==>
                  acts == begin +
                    if killed then [BlockedByKillSwitch]
                    else [Post] + (if fate.InFlight? then [] else [Decide(c, fate)]) + [Reply(answer)]
                         + if LeavesOpen(answer) && !lookup.LookupFailed?
                           then [OAction.Lookup(|l.orders|, AsFound(lookup), Via.Lookup)] else [])
  {
    BeginKeepsWellFormed(l, ticker, Game(game, ticker), count, limit);
  }

  // ---------------------------------------------------------------- startup recovery

  /** The exchange's answers by client id; a lookup that raises has none. */
  type Answers = map<ClientId, LookupAnswer>

  predicate Answered(answers: Answers, c: ClientId) { c in answers && !answers[c].LookupFailed? }

  /** The row once the exchange has said whether the order exists, and in what state. */
  function Resolved(row: OrderRow, found: Option<Found>, via: Via): OrderRow {
    match found
    case None => row.(outcome := NotFound)
    case Some(f) =>
      row.(outcome := Placed, orderId := Some(f.oid), via := Some(via),
           status := if f.status.Some? then f.status else row.status,
           filled := if f.filled.Some? then f.filled else row.filled,
           avgFill := if f.avg.Some? then f.avg else row.avgFill)
  }

  /** The same as startup recovery leaves it: only a submitting or unconfirmed row whose lookup answered changes. */
  function Recovered(row: OrderRow, answers: Answers): OrderRow {
    if (row.outcome.Submitting? || row.outcome.Unconfirmed?) && Answered(answers, row.clientId) then
      Resolved(row, AsFound(answers[row.clientId]), Startup)
    else row
  }

  /** An answered lookup settles the question for its row and leaves every other row, and the POST log, alone. */
  lemma LookupResolves(s: OState, pk: nat, found: Option<Found>, via: Via)
    requires Inv(s) && pk < |s.l.orders| && NeedsResolution(s.l.orders[pk])
    ensures var t := OStep(s, OAction.Lookup(pk, found, via));
            && |t.l.orders| == |s.l.orders| && t.l.orders == s.l.orders[pk := t.l.orders[pk]]
            && t.l.orders[pk] == Resolved(s.l.orders[pk], found, via)
            && t.posts == s.posts && t.exchange == s.exchange && t.pc == s.pc
  {
    assert RowFits(s.l.orders[pk]);
  }

  /** What the recovery loop has done when it comes to row i. */
  predicate RecoveredBelow(orders: seq<OrderRow>, orders': seq<OrderRow>, i: nat, answers: Answers) {
    |orders'| == |orders| && forall j :: 0 <= j < i && j < |orders| ==> orders'[j] == Recovered(orders[j], answers)
  }

  /** The one thing recovery does: look up a row whose outcome is unknown and record the answer. */
  ghost predicate OnlyLooksUp(acts: seq<OAction>, orders: seq<OrderRow>, answers: Answers) {
    forall i :: 0 <= i < |acts| ==>
      && acts[i].Lookup? && acts[i].via == Startup && acts[i].pk < |orders| && NeedsResolution(orders[acts[i].pk])
      && Answered(answers, orders[acts[i].pk].clientId)
      && acts[i].found == AsFound(answers[orders[acts[i].pk].clientId])
  }

  /** Rows from position i on are as they were. */
  predicate SameFrom(orders: seq<OrderRow>, orders': seq<OrderRow>, i: nat) {
    |orders'| == |orders| && forall j :: i <= j < |orders| ==> orders'[j] == orders[j]
  }

  ghost predicate AllTruthful(s: OState, answers: Answers) {
    forall c :: c in answers ==> Truthful(s, c, answers[c])
  }

  /** One row of the recovery loop. */
  method RecoverRow(db: LedgerDb, ghost s: OState, pk: nat, answers: Answers)
    returns (ghost acts: seq<OAction>, ghost s': OState)
    requires s.l == db.State() && Inv(s) && pk < |db.orders| && AllTruthful(s, answers)
    modifies db`orders
    ensures IsRun(s, acts, s') && Inv(s') && s'.l == db.State()
    ensures s'.posts == s.posts && s'.exchange == s.exchange && |s'.l.orders| == |s.l.orders|
    ensures s'.l.orders == s.l.orders[pk := Recovered(s.l.orders[pk], answers)]
    ensures OnlyLooksUp(acts, s.l.orders, answers)
    ensures forall i :: 0 <= i < |acts| ==> acts[i].pk == pk
  {
    EmptyRun(s);
    acts, s' := [], s;
    var row := db.orders[pk];
    if NeedsResolution(row) && Answered(answers, row.clientId) {
      assert RowFits(row);
      LookupResolves(s, pk, AsFound(answers[row.clientId]), Startup);
      hide IsRun, ORun, AllPossible, Inv, OStep;
      acts, s' := LookUp(db, s, pk, answers[row.clientId], Startup);
    }
  }

  /** Where the recovery loop is: the run so far, and what is done and what is still as it was. */
  ghost predicate Recovering(s: OState, acts: seq<OAction>, now: OState, i: nat, answers: Answers) {
    && IsRun(s, acts, now) && Inv(now) && now.posts == s.posts && now.exchange == s.exchange
    && RecoveredBelow(s.l.orders, now.l.orders, i, answers) && OnlyLooksUp(acts, s.l.orders, answers)
    && SameFrom(s.l.orders, now.l.orders, i)
  }

  lemma RecoveredOneMore(s: OState, acts: seq<OAction>, now: OState, i: nat, answers: Answers, more: seq<OAction>,
      next: OState)
    requires Recovering(s, acts, now, i, answers) && i < |now.l.orders| && IsRun(now, more, next) && Inv(next)
    requires next.posts == now.posts && next.exchange == now.exchange && |next.l.orders| == |now.l.orders|
    requires next.l.orders == now.l.orders[i := Recovered(now.l.orders[i], answers)]
    requires OnlyLooksUp(more, now.l.orders, answers) && forall k :: 0 <= k < |more| ==> more[k].pk == i
    ensures Recovering(s, acts + more, next, i + 1, answers)
  {
    RunsJoin(s, acts, now, more, next);
    hide IsRun, Inv, Recovered;
  }

  /**
   The first half of `recover_orders`: a run of lookups that sends nothing, after which only rows whose lookup
   raised are still submitting or unconfirmed.
   */
  method RecoverOrders(db: LedgerDb, ghost s: OState, answers: Answers)
      returns (ghost acts: seq<OAction>, ghost s': OState)
    requires s.l == db.State() && Inv(s) && AllTruthful(s, answers)
    modifies db`orders
    ensures IsRun(s, acts, s') && Inv(s') && s'.l == db.State() && s'.posts == s.posts
    ensures RecoveredBelow(old(db.orders), db.orders, |db.orders|, answers)
    ensures forall j :: 0 <= j < |db.orders| && Answered(answers, db.orders[j].clientId) ==>
              !db.orders[j].outcome.Submitting? && !db.orders[j].outcome.Unconfirmed?
    ensures OnlyLooksUp(acts, old(db.orders), answers)
  {
    EmptyRun(s);
    acts, s' := [], s;
    var i := 0;
    while i < |db.orders|
      invariant i <= |db.orders| == |old(db.orders)|
      invariant s'.l == db.State() && Recovering(s, acts, s', i, answers)
    {
      hide Recovering, Inv, IsRun, OnlyLooksUp, AllTruthful, Recovered, RecoveredBelow;
      ghost var before, more := s', [];
      WhileRecovering(s, acts, before, i, answers);
      more, s' := RecoverRow(db, before, i, answers);
      RecoveredOneMore(s, acts, before, i, answers, more, s');
      acts := acts + more;
      i := i + 1;
    }
  }

  lemma WhileRecovering(s: OState, acts: seq<OAction>, now: OState, i: nat, answers: Answers)
    requires Recovering(s, acts, now, i, answers) && AllTruthful(s, answers)
    ensures Inv(now) && AllTruthful(now, answers) && |now.l.orders| == |s.l.orders|
  {
    hide Inv, IsRun;
  }
}
