/** How old the served data is: dashboard/freshness.py and the age helpers of subscriber.py. Times are microseconds. */
module Freshness {
  import opened Wrappers
  import opened Replication
  import opened Subscriber

  const FRESH_MAX := 60 * SECOND
  const STALE_MAX := 180 * SECOND
  const HEARTBEAT_SILENT := 45 * 60 * SECOND
  const BOT_ALIVE_SILENT := 180 * SECOND
  const FUTURE_TOLERANCE := 10 * SECOND
  const SKEW_HIGH := 60 * SECOND
  const SKEW_LOW := -10 * SECOND

  datatype Level = Fresh | Stale | Broken | Waiting

  datatype BotLevel = BotOk | BotSilent | BotUnknown

  datatype Bot = Bot(level: BotLevel, age: Option<int>)

  datatype Assessment = Assessment(level: Level, age: Option<int>, bot: Bot)

  function ClassifyAge(age: int): Level {
    if age <= FRESH_MAX then Fresh else if age <= STALE_MAX then Stale else Broken
  }

  /** At least amber. */
  function AtLeastStale(level: Level): Level { if level.Fresh? then Stale else level }

  function NonNeg(n: int): int { if n > 0 then n else 0 }

  /** What makes the time stamps untrustworthy. */
  predicate Suspicious(age: int, generated: Time, advanced: Option<Time>, now: Time) {
    || age < -FUTURE_TOLERANCE
    || generated - now > FUTURE_TOLERANCE
    || (advanced.Some? && !(SKEW_LOW <= advanced.value - generated <= SKEW_HIGH))
  }

  function BotStatus(st: SyncState, generated: Time, age: int): Bot {
    if st.aliveAt.Some? then
      var lead := generated - st.aliveAt.value;
      if lead < -FUTURE_TOLERANCE then Bot(BotSilent, None)
      else
        var aliveAge := NonNeg(age) + NonNeg(lead);
        Bot(if aliveAge <= BOT_ALIVE_SILENT then BotOk else BotSilent, Some(aliveAge))
    else if st.heartbeatAt.Some? then
      var hbAge := NonNeg(age) + NonNeg(generated - st.heartbeatAt.value);
      Bot(if hbAge <= HEARTBEAT_SILENT then BotOk else BotSilent, Some(hbAge))
    else Bot(BotUnknown, None)
  }

  /** The level and the ages of `assess`. */
  function Assess(state: Option<SyncState>, now: Time): Assessment {
    if state.None? || state.value.generatedAt.None? then Assessment(Waiting, None, Bot(BotUnknown, None))
    else
      var st := state.value;
      var generated := st.generatedAt.value;
      var age := now - (if st.seqAdvancedAt.Some? then st.seqAdvancedAt.value else generated);
      var level := ClassifyAge(age);
      Assessment(if Suspicious(age, generated, st.seqAdvancedAt, now) then AtLeastStale(level) else level,
                 Some(age), BotStatus(st, generated, age))
  }

  /** `data_age_seconds` and `bot_alive_age_seconds` of the subscriber. */
  function DataAge(st: SyncState, now: Time): Option<int> {
    if st.generatedAt.None? then None
    else if st.seqAdvancedAt.Some? then Some(NonNeg(now - st.seqAdvancedAt.value))
    else Some(now - st.generatedAt.value)
  }

  function BotAliveAge(st: SyncState, now: Time): Option<int> {
    if st.aliveAt.None? || DataAge(st, now).None? then None
    else Some(DataAge(st, now).value + NonNeg(st.generatedAt.value - st.aliveAt.value))
  }

  /** Green exactly when the data advanced within the last minute and no clock looks wrong. */
  lemma GreenExactlyWhen(st: SyncState, now: Time)
    requires st.generatedAt.Some? && st.seqAdvancedAt.Some?
    ensures var (generated, advanced) := (st.generatedAt.value, st.seqAdvancedAt.value);
            Assess(Some(st), now).level.Fresh? <==>
              && -FUTURE_TOLERANCE <= now - advanced <= FRESH_MAX
              && generated <= now + FUTURE_TOLERANCE
              && SKEW_LOW <= advanced - generated <= SKEW_HIGH
  {
  }

  // ---------------------------------------------------------------- backend clocks cancel out

  function ShiftOpt(t: Option<Time>, d: int): Option<Time> { if t.Some? then Some(t.value + d) else None }

  /** The same state with every backend time stamp moved by d. */
  function Shifted(st: SyncState, d: int): SyncState {
    st.(generatedAt := ShiftOpt(st.generatedAt, d), heartbeatAt := ShiftOpt(st.heartbeatAt, d),
        aliveAt := ShiftOpt(st.aliveAt, d))
  }

  function ShiftedManifest(m: Manifest, d: int): Manifest {
    m.(generatedAt := m.generatedAt + d, heartbeatAt := ShiftOpt(m.heartbeatAt, d), aliveAt := ShiftOpt(m.aliveAt, d))
  }

  /** A backend clock that is off by any constant changes neither the data age nor anything said about the bot. */
  lemma BackendSkewCancels(st: SyncState, d: int, now: Time)
    requires st.seqAdvancedAt.Some?
    ensures Assess(Some(Shifted(st, d)), now).age == Assess(Some(st), now).age
    ensures Assess(Some(Shifted(st, d)), now).bot == Assess(Some(st), now).bot
    ensures DataAge(Shifted(st, d), now) == DataAge(st, now)
    ensures BotAliveAge(Shifted(st, d), now) == BotAliveAge(st, now)
  {
  }

  lemma WholeSecondsShift(t: Time, d: int)
    requires d % SECOND == 0
    ensures WholeSeconds(t + d) == WholeSeconds(t) + d
  {
  }

  /** Likewise from the manifest on: a pass over shifted stamps (by whole seconds) leaves the shifted state behind. */
  lemma SkewPassesThrough(at: Time, m: Manifest, prev: Option<SyncState>, d: int)
    requires d % SECOND == 0
    ensures Persisted(OkState(at, ShiftedManifest(m, d), prev)) == Shifted(Persisted(OkState(at, m, prev)), d)
  {
    WholeSecondsShift(m.generatedAt, d);
    if m.heartbeatAt.Some? { WholeSecondsShift(m.heartbeatAt.value, d); }
    if m.aliveAt.Some? { WholeSecondsShift(m.aliveAt.value, d); }
  }

  // ---------------------------------------------------------------- a frozen sequence number

  /** One step of the subscriber against whatever the bucket holds at that moment. */
  datatype Event = Event(bucket: Bucket, action: SubAction)

  /** The bucket offers no seq above n, and the file stays in place. */
  predicate NoNews(e: Event, n: nat) {
    !e.action.Wipe? && (e.bucket.latest.Holds? ==> e.bucket.latest.manifest.num <= n)
  }

  function SubRun(s: SubState, es: seq<Event>): SubState
    decreases |es|
  {
    if es == [] then s else SubRun(SStep(s, es[0].bucket, es[0].action), es[1..])
  }

  /** A state that last saw the seq n advance at time t. */
  predicate AdvancedAt(st: SyncState, n: nat, t: Time) {
    st.num == Some(n) && WholeSecondsOpt(st.seqAdvancedAt) == Some(t) && st.generatedAt.Some?
  }

  predicate Frozen(s: SubState, n: nat, t: Time) {
    && s.disk.file.Some? && s.disk.state.Some? && AdvancedAt(s.disk.state.value, n, t)
    && match s.pass
       case Resting => true
       case Got(_, m, prev, have) => prev == s.disk.state && have && m.num <= n
       case Fetching(_, m, prev, base) => prev == s.disk.state == base && m.num == n
       case Received(_, m, prev, base, _) => prev == s.disk.state == base && m.num == n
       case Saving(next, _, _) => AdvancedAt(next, n, t)
  }

  lemma PersistedAdvancedAt(st: SyncState, n: nat, t: Time)
    requires AdvancedAt(st, n, t)
    ensures AdvancedAt(Persisted(st), n, t)
  {
  }

  lemma CompareKeepsFrozen(s: SubState, bucket: Bucket, n: nat, t: Time)
    requires Frozen(s, n, t)
    ensures Frozen(SStep(s, bucket, Compare), n, t)
  {
  }

  lemma FrozenStep(s: SubState, e: Event, n: nat, t: Time)
    requires Frozen(s, n, t) && NoNews(e, n)
    ensures Frozen(SStep(s, e.bucket, e.action), n, t)
  {
    match e.action
    case Compare => CompareKeepsFrozen(s, e.bucket, n, t);
    case SaveState(_) => if s.pass.Saving? { PersistedAdvancedAt(s.pass.next, n, t); }
    case BeginPass(_, _) =>
    case Download(_) =>
    case Install =>
    case Abort(_) =>
    case Die =>
    case Wipe(_) =>
  }

  lemma {:induction false} StaysFrozen(s: SubState, es: seq<Event>, n: nat, t: Time)
    requires Frozen(s, n, t) && forall e :: e in es ==> NoNews(e, n)
    ensures Frozen(SubRun(s, es), n, t)
    decreases |es|
  {
    if es != [] {
      FrozenStep(s, es[0], n, t);
      StaysFrozen(SStep(s, es[0].bucket, es[0].action), es[1..], n, t);
    }
  }

  /**
   Over any run of passes that succeed, fail or break off, with the file in place and no seq above n, the
   stored seq_advanced_at never moves: from 180 seconds after it the dashboard says broken at every moment,
   whatever the manifests claim about their age.
   */
  lemma FrozenDataTurnsRed(s: SubState, es: seq<Event>, n: nat, t: Time, now: Time)
    requires s.pass.Resting? && s.disk.file.Some? && s.disk.state.Some?
    requires var st := s.disk.state.value;
             st == Persisted(st) && st.num == Some(n) && st.seqAdvancedAt == Some(t) && st.generatedAt.Some?
    requires forall e :: e in es ==> NoNews(e, n)
    requires now - t > STALE_MAX
    ensures var state := SubRun(s, es).disk.state;
            state.Some? && state.value.num == Some(n) && Assess(state, now).level.Broken?
  {
    StaysFrozen(s, es, n, t);
    var st := SubRun(s, es).disk.state.value;
    StoredStaysWhole(s, es);
  }

  /** What is on disk has been through a write, so its times are whole seconds. */
  lemma {:induction false} StoredStaysWhole(s: SubState, es: seq<Event>)
    requires s.disk.state.Some? ==> s.disk.state.value == Persisted(s.disk.state.value)
    ensures var state := SubRun(s, es).disk.state;
            state.Some? ==> state.value == Persisted(state.value)
    decreases |es|
  {
    if es != [] {
      StoredStaysWhole(SStep(s, es[0].bucket, es[0].action), es[1..]);
    }
  }
}
