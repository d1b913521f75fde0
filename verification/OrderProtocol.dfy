/**
 The write-ahead order protocol of main.py against an exchange whose replies may be lost, late or
 misleading: evaluations, the POST and its reply, lookups, the accounting jobs, crashes and restarts.
 */
module OrderProtocol {
  import opened Wrappers
  import opened Text
  import opened Ledger
  import opened LedgerRuns

  /** What the exchange has made of a POST; it may decide long after the client stopped waiting. */
  datatype Fate = InFlight | Accepted(oid: OrderId) | Refused

  /** What the client gets back: a usable reply, an HTTP error, or neither. */
  datatype Answer = Confirmed(oid: OrderId, status: Option<string>) | HttpError(code: int, body: string) | NoReply

  datatype Found = Found(oid: OrderId, status: Option<string>, filled: Option<int>, avg: Option<real>)

  /** Where the one evaluation holding the trade lock stands. */
  datatype Pc = Idle | Begun(c: ClientId, pk: nat) | Posted(c: ClientId, pk: nat)

  /**
   `posts`, `readAsRejected` and `blocked` are history: every POST made; the orders whose reply was
   recorded as a rejection, and those stopped by the kill switch, with no exchange state applied since.
   */
  datatype OState = OState(
    l: LedgerState,
    exchange: map<ClientId, Fate>,
    pc: Pc,
    posts: seq<ClientId>,
    readAsRejected: set<ClientId>,
    blocked: set<ClientId>)

  const START := OState(EMPTY_LEDGER, map[], Idle, [], {}, {})

  datatype OAction =
    | Evaluate(ticker: Ticker, game: string, count: int, limit: int)
    | BlockedByKillSwitch
    | Post
    | Decide(c: ClientId, fate: Fate)
    | Reply(answer: Answer)
    | Lookup(pk: nat, found: Option<Found>, via: Via)
    | Background(a: LedgerAction)
    | Crash

  // ---------------------------------------------------------------- reading a reply

  function Underscored(s: string): (r: string)
    ensures |r| == |s|
  {
    if s == "" then "" else [if s[0] == ' ' then '_' else s[0]] + Underscored(s[1..])
  }

  /** The outcome main.py records for an HTTP error, through the strings place_limit_order returns. */
  function ReadError(code: int, body: string): Outcome {
    var message := Lower(body);
    if code == 409 then Unconfirmed
    else if code == 403 && Contains(Underscored(message), "location_attestation") then BlockedLocation
    else if Contains(message, "insufficient") || Contains(message, "balance") then InsufficientFunds
    else Unconfirmed
  }

  function ReadAnswer(answer: Answer): Outcome
    requires !answer.Confirmed?
  {
    if answer.HttpError? then ReadError(answer.code, answer.body) else Unconfirmed
  }

  /** The word stands in the text from position i on, in any mix of cases. */
  predicate MentionsAt(body: string, word: string, i: nat) {
    i + |word| <= |body| && forall k :: 0 <= k < |word| ==> ReadsAs(body[i + k], word[k])
  }

  ghost predicate Mentions(body: string, word: string) { exists i: nat :: MentionsAt(body, word, i) }

  /** The same with a space standing for an underscore. */
  predicate NamesAt(body: string, word: string, i: nat) {
    && i + |word| <= |body|
    && forall k :: 0 <= k < |word| ==> if body[i + k] == ' ' then word[k] == '_' else ReadsAs(body[i + k], word[k])
  }

  ghost predicate Names(body: string, word: string) { exists i: nat :: NamesAt(body, word, i) }

  ghost predicate NamesLocation(code: int, body: string) { code == 403 && Names(body, "location_attestation") }

  /** The HTTP errors that go down as a rejection. */
  ghost predicate ReadsAsRejection(code: int, body: string) {
    code != 409 && (NamesLocation(code, body) || Mentions(body, "insufficient") || Mentions(body, "balance"))
  }

  lemma {:induction false} UnderscoredAt(s: string, i: nat)
    requires i < |s|
    ensures Underscored(s)[i] == if s[i] == ' ' then '_' else s[i]
  {
    if i > 0 { UnderscoredAt(s[1..], i - 1); }
  }

  lemma LowerOccurs(body: string, word: string, i: nat)
    ensures OccursAt(Lower(body), word, i) <==> MentionsAt(body, word, i)
  {
    if i + |word| <= |body| {
      forall k | 0 <= k < |word| ensures Lower(body)[i..][k] == word[k] <==> ReadsAs(body[i + k], word[k]) {
        LowerAt(body, i + k);
      }
      assert word <= Lower(body)[i..] <==> forall k :: 0 <= k < |word| ==> Lower(body)[i..][k] == word[k];
    }
  }

  lemma UnderscoredReads(body: string, j: nat, d: char)
    requires j < |body|
    ensures Underscored(Lower(body))[j] == d <==> if body[j] == ' ' then d == '_' else ReadsAs(body[j], d)
  {
    LowerAt(body, j);
    UnderscoredAt(Lower(body), j);
    assert ReadsAs(body[j], Lower(body)[j]);
  }

  lemma UnderscoredOccurs(body: string, word: string, i: nat)
    ensures OccursAt(Underscored(Lower(body)), word, i) <==> NamesAt(body, word, i)
  {
    var s := Underscored(Lower(body));
    if i + |word| <= |body| {
      forall k | 0 <= k < |word|
        ensures s[i..][k] == word[k] <==> if body[i + k] == ' ' then word[k] == '_' else ReadsAs(body[i + k], word[k])
      {
        UnderscoredReads(body, i + k, word[k]);
      }
      hide Underscored, Lower;
      assert word <= s[i..] <==> forall k :: 0 <= k < |word| ==> s[i..][k] == word[k];
    }
  }

  lemma ContainsWord(body: string, word: string)
    ensures Contains(Lower(body), word) <==> Mentions(body, word)
    ensures Contains(Underscored(Lower(body)), word) <==> Names(body, word)
  {
    ContainsExactly(Lower(body), word);
    ContainsExactly(Underscored(Lower(body)), word);
    forall i: nat
      ensures OccursAt(Lower(body), word, i) <==> MentionsAt(body, word, i)
      ensures OccursAt(Underscored(Lower(body)), word, i) <==> NamesAt(body, word, i)
    {
      LowerOccurs(body, word, i);
      UnderscoredOccurs(body, word, i);
    }
  }

  /** What an HTTP error is written down as: one of two rejections, or else that the outcome is unknown. */
  lemma ReadErrorExactly(code: int, body: string)
    ensures ReadError(code, body) ==
              if !ReadsAsRejection(code, body) then Unconfirmed
              else if NamesLocation(code, body) then BlockedLocation
              else InsufficientFunds
  {
    ContainsWord(body, "location_attestation");
    ContainsWord(body, "insufficient");
    ContainsWord(body, "balance");
  }

  // ---------------------------------------------------------------- steps

  function Outcomes(l: LedgerState, pk: nat, outcome: Outcome): LedgerState {
    OrKeep(l, SetOrderOutcome(l, pk, outcome))
  }

  function RecordReply(l: LedgerState, pk: nat, answer: Answer): LedgerState {
    if answer.Confirmed? then PlaceReply(l, pk, answer.oid, answer.status)
    else Outcomes(l, pk, ReadAnswer(answer))
  }

  function RecordLookup(l: LedgerState, pk: nat, found: Option<Found>, via: Via): LedgerState {
    if found.None? then Outcomes(l, pk, NotFound)
    else OrKeep(l, ApplyOrderState(l, pk, Some(found.value.oid), found.value.status, found.value.filled,
        found.value.avg, via))
  }

  /** The client id of a row, as a set to add or take away. */
  function IdOf(l: LedgerState, pk: nat): set<ClientId> {
    if pk < |l.orders| then {l.orders[pk].clientId} else {}
  }

  /**
   The exchange answers truthfully where it claims that an order exists; an error may accompany any
   fate. The jobs outside the trade lock attribute fills, adopt, attach and settle.
   */
  ghost predicate Possible(s: OState, a: OAction) {
    match a
    case Evaluate(_, _, _, _) => s.pc.Idle?
    case BlockedByKillSwitch => s.pc.Begun?
    case Post => s.pc.Begun?
    case Decide(c, fate) => c in s.exchange && s.exchange[c].InFlight? && !fate.InFlight?
    case Reply(answer) =>
      && s.pc.Posted?
      && (answer.Confirmed? ==> s.pc.c in s.exchange && s.exchange[s.pc.c] == Accepted(answer.oid))
    case Lookup(pk, found, _) =>
      && pk < |s.l.orders| && s.l.orders[pk].clientId.Game?
      && (found.Some? ==> s.l.orders[pk].clientId in s.exchange
                          && s.exchange[s.l.orders[pk].clientId] == Accepted(found.value.oid))
    case Background(b) => CalledByMain(s.l, b) && (b.Apply? || b.AdoptNew? || b.Attach? || b.Upsert? || b.Settle?)
    case Crash => true
  }

  ghost function OStep(s: OState, a: OAction): OState {
    match a
    case Evaluate(ticker, game, count, limit) =>
      var (l', pk, created) := BeginOrder(s.l, ticker, Game(game, ticker), count, limit);
      s.(l := l', pc := if created then Begun(Game(game, ticker), pk) else Idle)
    case BlockedByKillSwitch =>
      if !s.pc.Begun? then s
      else
        var l' := Outcomes(s.l, s.pc.pk, Failed);
        s.(l := l', pc := Idle, blocked := if l' == s.l then s.blocked else s.blocked + {s.pc.c})
    case Post =>
      if !s.pc.Begun? then s
      else s.(pc := Posted(s.pc.c, s.pc.pk), posts := s.posts + [s.pc.c],
              exchange := if s.pc.c in s.exchange then s.exchange else s.exchange[s.pc.c := InFlight])
    case Decide(c, fate) => s.(exchange := s.exchange[c := fate])
    case Reply(answer) =>
      if !s.pc.Posted? then s
      else
        var l' := RecordReply(s.l, s.pc.pk, answer);
        var rejected := !answer.Confirmed? && IsRejection(ReadAnswer(answer)) && l' != s.l;
        s.(l := l', pc := Idle, readAsRejected := if rejected then s.readAsRejected + {s.pc.c} else s.readAsRejected)
    case Lookup(pk, found, via) =>
      var s' := s.(l := RecordLookup(s.l, pk, found, via));
      if found.Some? && s'.l != s.l then Repaired(s', pk) else s'
    case Background(b) =>
      var s' := s.(l := LStep(s.l, b));
      if b.Apply? && s'.l != s.l then Repaired(s', b.pk) else s'
    case Crash => s.(pc := Idle)
  }

  function Repaired(s: OState, pk: nat): OState {
    s.(readAsRejected := s.readAsRejected - IdOf(s.l, pk), blocked := s.blocked - IdOf(s.l, pk))
  }

  ghost function ORun(s: OState, acts: seq<OAction>): OState
    decreases |acts|
  {
    if acts == [] then s else OStep(ORun(s, acts[..|acts| - 1]), acts[|acts| - 1])
  }

  ghost predicate AllPossible(s: OState, acts: seq<OAction>)
    decreases |acts|
  {
    acts == [] || (AllPossible(s, acts[..|acts| - 1]) && Possible(ORun(s, acts[..|acts| - 1]), acts[|acts| - 1]))
  }

  // ---------------------------------------------------------------- the invariant

  /** A game's row is in a rejection outcome exactly when its client id is in `refused`. */
  ghost predicate RowsTell(l: LedgerState, refused: set<ClientId>) {
    forall i :: 0 <= i < |l.orders| && l.orders[i].clientId.Game? ==>
      (IsRejection(l.orders[i].outcome) <==> l.orders[i].clientId in refused)
  }

  ghost predicate Distinct(cs: seq<ClientId>) { forall i, j :: 0 <= i < j < |cs| ==> cs[i] != cs[j] }

  ghost predicate HoldsRow(l: LedgerState, pk: nat, c: ClientId) {
    pk < |l.orders| && l.orders[pk].clientId == c && c.Game?
  }

  ghost predicate PostsFit(s: OState) {
    && Distinct(s.posts)
    && (forall c :: c in s.posts <==> c in s.exchange)
    && (forall c :: c in s.posts ==> c.Game? && HasClientId(s.l, c) && c !in s.blocked)
    && (forall c :: c in s.blocked ==> HasClientId(s.l, c))
    && (forall c :: c in s.readAsRejected ==> c in s.posts)
  }

  ghost predicate PcFits(s: OState) {
    match s.pc
    case Idle => true
    case Begun(c, pk) => HoldsRow(s.l, pk, c) && c !in s.posts && c !in s.blocked
    case Posted(c, pk) => HoldsRow(s.l, pk, c) && c in s.posts && c !in s.readAsRejected
  }

  ghost predicate Inv(s: OState) {
    WellFormed(s.l) && RowsTell(s.l, s.readAsRejected + s.blocked) && PostsFit(s) && PcFits(s)
  }

  /** Client ids stay with their rows. */
  ghost predicate KeepsIds(l: LedgerState, l': LedgerState) {
    |l.orders| <= |l'.orders| && forall i :: 0 <= i < |l.orders| ==> l'.orders[i].clientId == l.orders[i].clientId
  }

  lemma KeepsHasClientId(l: LedgerState, l': LedgerState)
    requires KeepsIds(l, l')
    ensures forall c :: HasClientId(l, c) ==> HasClientId(l', c)
  {
    forall c | HasClientId(l, c) ensures HasClientId(l', c) {
      var i :| 0 <= i < |l.orders| && l.orders[i].clientId == c;
      assert l'.orders[i].clientId == c;
    }
  }

  /** New tables, perhaps fewer refused ids: what the posts and the evaluation rely on stays. */
  lemma PostsStay(s: OState, s': OState)
    requires PostsFit(s) && PcFits(s) && KeepsIds(s.l, s'.l)
    requires s'.posts == s.posts && s'.exchange == s.exchange && (s'.pc == s.pc || s'.pc.Idle?)
    requires s'.readAsRejected <= s.readAsRejected && s'.blocked <= s.blocked
    ensures PostsFit(s') && PcFits(s')
  {
    KeepsHasClientId(s.l, s'.l);
  }

  lemma RowsTellUpdate(l: LedgerState, l': LedgerState, pk: nat, refused: set<ClientId>, refused': set<ClientId>)
    requires WellFormed(l) && RowsTell(l, refused)
    requires pk < |l.orders| == |l'.orders| && l'.orders == l.orders[pk := l'.orders[pk]]
    requires l'.orders[pk].clientId == l.orders[pk].clientId
    requires forall c :: c != l.orders[pk].clientId ==> (c in refused <==> c in refused')
    requires l.orders[pk].clientId.Game? ==> (IsRejection(l'.orders[pk].outcome) <==> l.orders[pk].clientId in refused')
    ensures RowsTell(l', refused')
  {
  }

  /** The call of the ledger that a reply, a lookup or the kill switch amounts to. */
  function ReplyCall(pk: nat, answer: Answer): LedgerAction {
    if answer.Confirmed? then Place(pk, answer.oid, answer.status) else SetOutcome(pk, ReadAnswer(answer))
  }

  function LookupCall(pk: nat, found: Option<Found>, via: Via): LedgerAction {
    if found.None? then SetOutcome(pk, NotFound)
    else Apply(pk, Some(found.value.oid), found.value.status, found.value.filled, found.value.avg, via)
  }

  lemma EvaluateKeepsInv(s: OState, a: OAction)
    requires Inv(s) && a.Evaluate? && Possible(s, a)
    ensures Inv(OStep(s, a))
  {
    var c := Game(a.game, a.ticker);
    BeginKeepsWellFormed(s.l, a.ticker, c, a.count, a.limit);
    var s' := OStep(s, a);
    KeepsHasClientId(s.l, s'.l);
    assert !HasClientId(s.l, c) ==> c !in s.posts && c !in s.blocked && c !in s.readAsRejected;
  }

  lemma KillKeepsInv(s: OState)
    requires Inv(s) && s.pc.Begun?
    ensures Inv(OStep(s, BlockedByKillSwitch))
  {
    var (c, pk) := (s.pc.c, s.pc.pk);
    var s' := OStep(s, BlockedByKillSwitch);
    ChangeKeepsWellFormed(s.l, SetOutcome(pk, Failed));
    if s'.l != s.l {
      ChangesOneRow(s.l, SetOutcome(pk, Failed));
      RowsTellUpdate(s.l, s'.l, pk, s.readAsRejected + s.blocked, s'.readAsRejected + s'.blocked);
    }
    KeepsHasClientId(s.l, s'.l);
  }

  lemma PostKeepsInv(s: OState)
    requires Inv(s) && s.pc.Begun?
    ensures Inv(OStep(s, Post))
  {
  }

  lemma ReplyKeepsInv(s: OState, answer: Answer)
    requires Inv(s) && s.pc.Posted?
    ensures Inv(OStep(s, Reply(answer)))
  {
    var (c, pk) := (s.pc.c, s.pc.pk);
    var s' := OStep(s, Reply(answer));
    var call := ReplyCall(pk, answer);
    assert s'.l == LStep(s.l, call);
    ChangeKeepsWellFormed(s.l, call);
    assert !IsRejection(s.l.orders[pk].outcome);
    if s'.l != s.l {
      ChangesOneRow(s.l, call);
      RowsTellUpdate(s.l, s'.l, pk, s.readAsRejected + s.blocked, s'.readAsRejected + s'.blocked);
    }
    KeepsHasClientId(s.l, s'.l);
  }

  /** A call that leaves rejections alone or repairs the one row it touches. */
  lemma QuietChangeKeepsInv(s: OState, s': OState, call: LedgerAction)
    requires Inv(s) && CalledByMain(s.l, call) && (call.SetOutcome? || call.Apply? || call.Attach?)
    requires call.SetOutcome? ==> call.outcome.NotFound?
    requires s' == (if call.Apply? && LStep(s.l, call) != s.l then Repaired(s.(l := LStep(s.l, call)), call.pk)
                    else s.(l := LStep(s.l, call)))
    ensures Inv(s')
  {
    ChangeKeepsWellFormed(s.l, call);
    if s'.l != s.l {
      ChangesOneRow(s.l, call);
      RowsTellUpdate(s.l, s'.l, call.pk, s.readAsRejected + s.blocked, s'.readAsRejected + s'.blocked);
    }
    PostsStay(s, s');
  }

  lemma TablesGrowKeepsInv(s: OState, call: LedgerAction)
    requires Inv(s) && CalledByMain(s.l, call) && (call.AdoptNew? || call.Upsert? || call.Settle?)
    ensures Inv(s.(l := LStep(s.l, call)))
  {
    StepKeepsWellFormed(s.l, call);
    PostsStay(s, s.(l := LStep(s.l, call)));
  }

  lemma StepKeepsInv(s: OState, a: OAction)
    requires Inv(s) && Possible(s, a)
    ensures Inv(OStep(s, a))
  {
    match a
    case Evaluate(_, _, _, _) => EvaluateKeepsInv(s, a);
    case BlockedByKillSwitch => KillKeepsInv(s);
    case Post => PostKeepsInv(s);
    case Decide(_, _) =>
    case Reply(answer) => ReplyKeepsInv(s, answer);
    case Lookup(pk, found, via) => QuietChangeKeepsInv(s, OStep(s, a), LookupCall(pk, found, via));
    case Background(b) =>
      if b.Apply? || b.Attach? { QuietChangeKeepsInv(s, OStep(s, a), b); } else { TablesGrowKeepsInv(s, b); }
    case Crash =>
  }

  lemma {:induction false} RunKeepsInv(acts: seq<OAction>)
    requires AllPossible(START, acts)
    ensures Inv(ORun(START, acts))
    decreases |acts|
  {
    if acts != [] {
      RunKeepsInv(acts[..|acts| - 1]);
      StepKeepsInv(ORun(START, acts[..|acts| - 1]), acts[|acts| - 1]);
    }
  }

  // ---------------------------------------------------------------- what the protocol guarantees

  /** Over any run at most one POST is made per client order id. */
  lemma AtMostOnePost(acts: seq<OAction>)
    requires AllPossible(START, acts)
    ensures Distinct(ORun(START, acts).posts)
  {
    RunKeepsInv(acts);
  }

  /** Whenever a POST is made, the row with its client id is already committed, and no POST for it went out before. */
  lemma PostIsPrecededByItsRow(acts: seq<OAction>)
    requires AllPossible(START, acts) && Possible(ORun(START, acts), Post)
    ensures var s := ORun(START, acts);
            HasClientId(s.l, s.pc.c) && s.pc.c !in s.posts
  {
    RunKeepsInv(acts);
  }

  predicate MayHoldAcceptedOrder(o: Outcome) { IsUnresolved(o) || o.Placed? }

  /**
   The row of an order the exchange accepted is submitting, unconfirmed, not_found or placed, unless the
   reply to its POST was recorded as a rejection and nothing has repaired the row since.
   */
  lemma AcceptedOrderIsNotRejected(acts: seq<OAction>, i: nat)
    requires AllPossible(START, acts)
    requires var s := ORun(START, acts);
             && i < |s.l.orders| && s.l.orders[i].clientId in s.exchange
             && s.exchange[s.l.orders[i].clientId].Accepted?
    ensures var s := ORun(START, acts);
            MayHoldAcceptedOrder(s.l.orders[i].outcome) <==> s.l.orders[i].clientId !in s.readAsRejected
  {
    RunKeepsInv(acts);
    var s := ORun(START, acts);
    assert RowFits(s.l.orders[i]);
    assert s.l.orders[i].clientId in s.posts;
  }

  /** Exactly when a reply goes down as a rejection: its text reads like one while the row is still submitting. */
  lemma RecordedAsRejection(s: OState, answer: Answer)
    requires Inv(s) && Possible(s, Reply(answer))
    ensures s.pc.c in OStep(s, Reply(answer)).readAsRejected <==>
              && answer.HttpError? && ReadsAsRejection(answer.code, answer.body)
              && s.l.orders[s.pc.pk].outcome.Submitting?
  {
    if answer.HttpError? { ReadErrorExactly(answer.code, answer.body); }
    hide ReadsAsRejection, ReadError, NamesLocation;
  }

  // ---------------------------------------------------------------- a reply that misleads

  /** Any error but 409 that mentions a balance anywhere, as a gateway's "load balancer" does, reads as a rejection. */
  lemma BalanceReadsAsRejection(code: int, body: string, i: nat)
    requires code != 409 && MentionsAt(body, "balance", i)
    ensures IsRejection(ReadAnswer(HttpError(code, body)))
    ensures code != 403 ==> ReadAnswer(HttpError(code, body)) == InsufficientFunds
  {
    ReadErrorExactly(code, body);
  }

  const FIRST_ROW := OrderRow("t", Game("g", "t"), None, 1, 50, Submitting, None, None, None, None)

  lemma FirstEvaluation()
    ensures OStep(START, Evaluate("t", "g", 1, 50))
            == START.(l := LedgerState([FIRST_ROW], map[], map[]), pc := Begun(Game("g", "t"), 0))
  {
    assert FirstWithClientId(EMPTY_LEDGER, Game("g", "t")) == None;
  }

  /** An accepted order whose reply is still on its way. */
  lemma AwaitingReply() returns (acts: seq<OAction>)
    ensures AllPossible(START, acts)
    ensures var s := ORun(START, acts);
            && s.pc == Posted(Game("g", "t"), 0) && s.exchange == map[Game("g", "t") := Accepted("1")]
            && s.l == LedgerState([FIRST_ROW], map[], map[])
  {
    FirstEvaluation();
    acts := Snoc(START, [], Evaluate("t", "g", 1, 50));
    hide ORun, AllPossible;
    acts := Snoc(START, acts, Post);
    acts := Snoc(START, acts, Decide(Game("g", "t"), Accepted("1")));
  }

  /** After any such reply to its POST, an order the exchange accepted has a row that says it was rejected. */
  lemma AcceptedOrderRecordedAsRejected(answer: Answer) returns (acts: seq<OAction>)
    requires answer.HttpError? && ReadsAsRejection(answer.code, answer.body)
    ensures AllPossible(START, acts)
    ensures AcceptedButRejected(ORun(START, acts), 0)
  {
    acts := AwaitingReply();
    ReadErrorExactly(answer.code, answer.body);
    hide ReadsAsRejection, ReadError;
    acts := Snoc(START, acts, Reply(answer));
  }

  ghost predicate AcceptedButRejected(s: OState, i: nat) {
    && i < |s.l.orders| && IsRejection(s.l.orders[i].outcome)
    && s.l.orders[i].clientId in s.exchange && s.exchange[s.l.orders[i].clientId].Accepted?
  }

  /** The guarantee fails as the code stands: a 502 from a load balancer is enough. */
  lemma GatewayErrorBreaksTheGuarantee() returns (acts: seq<OAction>)
    ensures AllPossible(START, acts) && AcceptedButRejected(ORun(START, acts), 0)
  {
    var body := "load balancer";
    assert MentionsAt(body, "balance", 5);
    acts := AcceptedOrderRecordedAsRejected(HttpError(502, body));
  }

  lemma Snoc(s: OState, acts: seq<OAction>, a: OAction) returns (more: seq<OAction>)
    requires AllPossible(s, acts) && Possible(ORun(s, acts), a)
    ensures more == acts + [a] && AllPossible(s, more) && ORun(s, more) == OStep(ORun(s, acts), a)
  {
    more := acts + [a];
    assert more[..|more| - 1] == acts;
  }

  // ---------------------------------------------------------------- the same, read off the actions of a run

  /**
   The i-th action is a reply to the POST for c whose text reads like a rejection, while the row is still submitting.
   */
  ghost predicate MisreadAt(acts: seq<OAction>, i: nat, c: ClientId)
    requires i < |acts|
  {
    var s := ORun(START, acts[..i]);
    && acts[i].Reply? && acts[i].answer.HttpError? && ReadsAsRejection(acts[i].answer.code, acts[i].answer.body)
    && s.pc.Posted? && s.pc.c == c && s.pc.pk < |s.l.orders| && s.l.orders[s.pc.pk].outcome.Submitting?
  }

  /** The i-th action applies the exchange's state to the unsettled row of c. */
  ghost predicate RepairedAt(acts: seq<OAction>, i: nat, c: ClientId)
    requires i < |acts|
  {
    var l := ORun(START, acts[..i]).l;
    match acts[i]
    case Lookup(pk, found, _) => found.Some? && pk < |l.orders| && l.orders[pk].clientId == c && pk !in l.settlements
    case Background(b) => b.Apply? && b.pk < |l.orders| && l.orders[b.pk].clientId == c && b.pk !in l.settlements
    case _ => false
  }

  /** Some reply for c was misread and nothing after it applied the exchange's state to the row. */
  ghost predicate MisreadAndLeft(acts: seq<OAction>, c: ClientId) {
    exists i :: 0 <= i < |acts| && MisreadAt(acts, i, c) && LeftSince(acts, i, c)
  }

  ghost predicate LeftSince(acts: seq<OAction>, i: nat, c: ClientId) {
    forall j :: i < j < |acts| ==> !RepairedAt(acts, j, c)
  }

  /** How one step changes who counts as rejected by a reply. */
  lemma ReadAsRejectedStepwise(s: OState, a: OAction, c: ClientId)
    requires Inv(s) && Possible(s, a)
    ensures var misread := a.Reply? && a.answer.HttpError? && ReadsAsRejection(a.answer.code, a.answer.body)
                           && s.pc.Posted? && s.pc.c == c && s.l.orders[s.pc.pk].outcome.Submitting?;
            var pk := if a.Lookup? then a.pk else if a.Background? && a.a.Apply? then a.a.pk else |s.l.orders|;
            var repaired := (a.Lookup? ==> a.found.Some?) && pk < |s.l.orders| && s.l.orders[pk].clientId == c
                            && pk !in s.l.settlements;
            c in OStep(s, a).readAsRejected <==> misread || (c in s.readAsRejected && !repaired)
  {
    if a.Reply? && a.answer.HttpError? { ReadErrorExactly(a.answer.code, a.answer.body); }
    hide ReadsAsRejection, ReadError, NamesLocation;
    if a.Lookup? || (a.Background? && a.a.Apply?) {
      RepairStepwise(s, a, c);
    }
  }

  lemma RepairStepwise(s: OState, a: OAction, c: ClientId)
    requires Inv(s) && Possible(s, a) && (a.Lookup? || (a.Background? && a.a.Apply?))
    ensures var pk := if a.Lookup? then a.pk else a.a.pk;
            var repaired := (a.Lookup? ==> a.found.Some?) && pk < |s.l.orders| && s.l.orders[pk].clientId == c
                            && pk !in s.l.settlements;
            c in OStep(s, a).readAsRejected <==> c in s.readAsRejected && !repaired
  {
    var call := if a.Lookup? then LookupCall(a.pk, a.found, a.via) else a.a;
    assert OStep(s, a).l == LStep(s.l, call);
    if OStep(s, a).l != s.l {
      ChangesOneRow(s.l, call);
    } else if call.Apply? && call.pk < |s.l.orders| && s.l.orders[call.pk].clientId == c
        && call.pk !in s.l.settlements {
      assert s.l.orders[call.pk] == LStep(s.l, call).orders[call.pk];
      assert IsOpen(s.l.orders[call.pk].outcome);
      assert c.Game? ==> c !in s.readAsRejected;
    }
  }

  /** The last step of a run. */
  lemma LastStep(acts: seq<OAction>)
    requires acts != [] && AllPossible(START, acts)
    ensures var (front, a) := (acts[..|acts| - 1], acts[|acts| - 1]);
            && AllPossible(START, front) && Possible(ORun(START, front), a) && Inv(ORun(START, front))
            && ORun(START, acts) == OStep(ORun(START, front), a)
  {
    RunKeepsInv(acts[..|acts| - 1]);
  }

  lemma LastMisread(acts: seq<OAction>, c: ClientId)
    requires acts != [] && AllPossible(START, acts)
    ensures var (n, s) := (|acts| - 1, ORun(START, acts[..|acts| - 1]));
            c in ORun(START, acts).readAsRejected <==>
              MisreadAt(acts, n, c) || (c in s.readAsRejected && !RepairedAt(acts, n, c))
  {
    LastStep(acts);
    hide ORun, AllPossible, OStep, ReadsAsRejection;
    ReadAsRejectedStepwise(ORun(START, acts[..|acts| - 1]), acts[|acts| - 1], c);
  }

  lemma {:induction false} ReadAsRejectedIsMisread(acts: seq<OAction>, c: ClientId)
    requires AllPossible(START, acts)
    ensures c in ORun(START, acts).readAsRejected <==> MisreadAndLeft(acts, c)
    decreases |acts|
  {
    if acts != [] {
      LastStep(acts);
      hide ORun, AllPossible, MisreadAndLeft, MisreadAt, RepairedAt;
      ReadAsRejectedIsMisread(acts[..|acts| - 1], c);
      LastMisread(acts, c);
      PrefixSame(acts, c);
    }
  }

  lemma AtPrefix(acts: seq<OAction>, i: nat, c: ClientId)
    requires i + 1 < |acts|
    ensures var front := acts[..|acts| - 1];
            (MisreadAt(acts, i, c) <==> MisreadAt(front, i, c)) && (RepairedAt(acts, i, c) <==> RepairedAt(front, i, c))
  {
    assert acts[..i] == acts[..|acts| - 1][..i];
  }

  lemma LeftAtPrefix(acts: seq<OAction>, i: nat, c: ClientId)
    requires i + 1 < |acts|
    ensures LeftSince(acts, i, c) <==> LeftSince(acts[..|acts| - 1], i, c) && !RepairedAt(acts, |acts| - 1, c)
  {
    hide RepairedAt;
    var (n, front) := (|acts| - 1, acts[..|acts| - 1]);
    forall j | i < j < n ensures RepairedAt(acts, j, c) <==> RepairedAt(front, j, c) { AtPrefix(acts, j, c); }
  }

  /** What happened before the last action happened in the run without it. */
  lemma PrefixSame(acts: seq<OAction>, c: ClientId)
    requires acts != []
    ensures var (n, front) := (|acts| - 1, acts[..|acts| - 1]);
            MisreadAndLeft(acts, c) <==> MisreadAt(acts, n, c) || (MisreadAndLeft(front, c) && !RepairedAt(acts, n, c))
  {
    hide MisreadAt, RepairedAt;
    var (n, front) := (|acts| - 1, acts[..|acts| - 1]);
    assert LeftSince(acts, n, c);
    if MisreadAndLeft(acts, c) {
      var i :| 0 <= i < |acts| && MisreadAt(acts, i, c) && LeftSince(acts, i, c);
      if i < n {
        AtPrefix(acts, i, c);
        LeftAtPrefix(acts, i, c);
      }
    }
    if MisreadAndLeft(front, c) {
      var i :| 0 <= i < |front| && MisreadAt(front, i, c) && LeftSince(front, i, c);
      AtPrefix(acts, i, c);
      LeftAtPrefix(acts, i, c);
    }
  }

  /**
   Over any run: the row of an order the exchange accepted is submitting, unconfirmed, not_found or placed if and
   only if no reply to its POST was misread as a rejection and then left at that.
   */
  lemma AcceptedOrderOverRun(acts: seq<OAction>, i: nat)
    requires AllPossible(START, acts)
    requires var s := ORun(START, acts);
             && i < |s.l.orders| && s.l.orders[i].clientId in s.exchange
             && s.exchange[s.l.orders[i].clientId].Accepted?
    ensures var row := ORun(START, acts).l.orders[i];
            MayHoldAcceptedOrder(row.outcome) <==> !MisreadAndLeft(acts, row.clientId)
  {
    AcceptedOrderIsNotRejected(acts, i);
    ReadAsRejectedIsMisread(acts, ORun(START, acts).l.orders[i].clientId);
  }

  // ---------------------------------------------------------------- a reply that meets its own order id

  /** Meanwhile a foreign order takes the waiting row, and the order's own fills are adopted as a second row. */
  lemma AdoptedMeanwhile() returns (acts: seq<OAction>)
    ensures AllPossible(START, acts)
    ensures var s := ORun(START, acts);
            && s.pc == Posted(Game("g", "t"), 0) && s.exchange == map[Game("g", "t") := Accepted("1")]
            && |s.l.orders| == 2 && s.l.settlements == map[]
            && s.l.orders[0].outcome.Placed? && s.l.orders[0].ticker == "t"
            && s.l.orders[1].outcome.Adopted? && s.l.orders[1].ticker == "t" && s.l.orders[1].orderId == Some("1")
  {
    acts := AwaitingReply();
    hide ORun, AllPossible;
    acts := Snoc(START, acts, Background(Apply(0, Some("2"), None, Some(1), None, Via.Lookup)));
    var s := ORun(START, acts);
    assert |s.l.orders| == 1 && s.l.orders[0].orderId == Some("2") && s.l.orders[0].outcome.Placed?;
    acts := Snoc(START, acts, Background(AdoptNew("t", Some("1"), 1, None, 50, 0)));
  }

  /**
   Order ids can coincide: while the POST is in flight a foreign order on the ticker takes the waiting row, the
   order's own fills are adopted, and then the reply arrives. Neither row is alone on its ticker, so neither is settled.
   */
  lemma RacedReplySharesAnOrderId() returns (acts: seq<OAction>)
    ensures AllPossible(START, acts) && !DistinctIds(ORun(START, acts).l)
    ensures !AloneOnTicker(ORun(START, acts).l, 0) && !AloneOnTicker(ORun(START, acts).l, 1)
  {
    acts := AdoptedMeanwhile();
    acts := Snoc(START, acts, Reply(Confirmed("1", None)));
    hide ORun, AllPossible;
    var l := ORun(START, acts).l;
    assert l.orders[0].orderId == Some("1") == l.orders[1].orderId && l.settlements == map[];
    assert Unsettled(l, 0) && Unsettled(l, 1) && l.orders[0].ticker == l.orders[1].ticker;
  }
}
