/** The process-wide sign-in budget of dashboard/auth.py: a sliding window kept in one deque. */
module LoginBudget {
  import opened Wrappers

  const LOGIN_BUDGET := 10
  const LOGIN_WINDOW_SECONDS := 300.0

  type Stamps = seq<real>

  // ---------------------------------------------------------------- the deque

  /** How many stamps lie in the closed window from `lo` to `hi`. */
  function CountIn(s: Stamps, lo: real, hi: real): nat {
    if s == [] then 0
    else CountIn(s[..|s| - 1], lo, hi) + if lo <= s[|s| - 1] <= hi then 1 else 0
  }

  /** The length of the expired prefix that `_prune` pops. */
  function Expired(s: Stamps, now: real): (n: nat)
    ensures n <= |s|
    ensures forall i :: 0 <= i < n ==> now - s[i] > LOGIN_WINDOW_SECONDS
    ensures n < |s| ==> now - s[n] <= LOGIN_WINDOW_SECONDS
  {
    if s == [] || now - s[0] <= LOGIN_WINDOW_SECONDS then 0 else 1 + Expired(s[1..], now)
  }

  /** `deque.remove`, and nothing when the stamp is not there. */
  function Without(s: Stamps, stamp: real): (r: Stamps)
    ensures stamp !in s ==> r == s
    ensures stamp in s ==> |r| == |s| - 1
  {
    if s == [] then [] else if s[0] == stamp then s[1..] else [s[0]] + Without(s[1..], stamp)
  }

  class AttemptLog {
    var recent: Stamps

    constructor ()
      ensures recent == []
    {
      recent := [];
    }

    method Prune(now: real)
      modifies this
      ensures recent == old(recent)[Expired(old(recent), now)..]
      ensures |recent| <= |old(recent)| && recent == old(recent)[|old(recent)| - |recent|..]
      ensures forall i :: 0 <= i < |old(recent)| - |recent| ==> old(recent)[i] < now - 300.0
      ensures recent != [] ==> recent[0] >= now - 300.0
    {
      while recent != [] && now - recent[0] > LOGIN_WINDOW_SECONDS
        invariant |recent| <= |old(recent)| && recent == old(recent)[|old(recent)| - |recent|..]
        invariant Expired(old(recent), now) == |old(recent)| - |recent| + Expired(recent, now)
        decreases |recent|
      {
        recent := recent[1..];
      }
    }

    /** A slot's stamp, or None when the attempt must be rejected without checking the password. */
    method Reserve(now: real) returns (stamp: Option<real>)
      modifies this
      ensures stamp == if Accepts(Gate(now, [], old(recent)), now) then Some(now) else None
      ensures recent == Step(Gate(now, [], old(recent)), Event.Reserve(now)).recent
      ensures stamp.Some? ==> recent != [] && recent[|recent| - 1] == now == stamp.value && |recent| <= 10
      ensures stamp.None? ==> |recent| >= 10
    {
      Prune(now);
      if |recent| >= LOGIN_BUDGET { return None; }
      recent := recent + [now];
      stamp := Some(now);
    }

    method Release(stamp: real)
      modifies this
      ensures recent == Step(Gate(stamp, [], old(recent)), SignedIn(stamp)).recent
      ensures stamp !in old(recent) ==> recent == old(recent)
      ensures stamp in old(recent) ==>
                exists i :: 0 <= i < |old(recent)| && old(recent)[i] == stamp && stamp !in old(recent)[..i]
                            && recent == old(recent)[..i] + old(recent)[i + 1..]
    {
      var i := 0;
      while i < |recent| && recent[i] != stamp
        invariant i <= |recent| && recent == old(recent)
        invariant stamp !in recent[..i]
      {
        i := i + 1;
      }
      if i < |recent| {
        WithoutFirst(recent, stamp, i);
        recent := recent[..i] + recent[i + 1..];
      }
    }
  }

  lemma {:induction false} WithoutFirst(s: Stamps, stamp: real, i: nat)
    requires i < |s| && s[i] == stamp && stamp !in s[..i]
    ensures Without(s, stamp) == s[..i] + s[i + 1..]
  {
    if i > 0 {
      assert s[0] in s[..i] && forall k :: 0 <= k < i - 1 ==> s[1..][k] in s[..i];
      WithoutFirst(s[1..], stamp, i - 1);
    }
  }

  // ---------------------------------------------------------------- whole runs of concurrent sessions

  /**
   `gone` is history: the attempts whose stamps were pruned and which did not sign in since. Every attempt
   that was checked and failed, or is still being checked, is in gone + recent.
   */
  datatype Gate = Gate(clock: real, gone: Stamps, recent: Stamps)

  datatype Event =
    | Reserve(now: real)      // under the lock, on a monotonic clock
    | SignedIn(stamp: real)   // the session that holds this slot entered the right password
    | Look(now: real)         // recent_failure_count

  function Held(g: Gate): Stamps { g.gone + g.recent }

  predicate Possible(g: Gate, e: Event) {
    match e
    case Reserve(now) => now >= g.clock
    case SignedIn(stamp) => stamp in Held(g)
    case Look(now) => now >= g.clock
  }

  function Pruned(g: Gate, now: real): Gate {
    var n := Expired(g.recent, now);
    Gate(now, g.gone + g.recent[..n], g.recent[n..])
  }

  predicate Accepts(g: Gate, now: real) { |Pruned(g, now).recent| < LOGIN_BUDGET }

  function Step(g: Gate, e: Event): Gate {
    match e
    case Reserve(now) =>
      var g' := Pruned(g, now);
      if Accepts(g, now) then g'.(recent := g'.recent + [now]) else g'
    case SignedIn(stamp) =>
      if stamp in g.recent then g.(recent := Without(g.recent, stamp)) else g.(gone := Without(g.gone, stamp))
    case Look(now) => Pruned(g, now)
  }

  function Run(g: Gate, es: seq<Event>): Gate
    decreases |es|
  {
    if es == [] then g else Run(Step(g, es[0]), es[1..])
  }

  predicate AllPossible(g: Gate, es: seq<Event>)
    decreases |es|
  {
    es == [] || (Possible(g, es[0]) && AllPossible(Step(g, es[0]), es[1..]))
  }

  // ---------------------------------------------------------------- the invariant

  predicate Sorted(s: Stamps) { forall i, j :: 0 <= i < j < |s| ==> s[i] <= s[j] }

  predicate UpTo(s: Stamps, t: real) { forall i :: 0 <= i < |s| ==> s[i] <= t }

  predicate LongBefore(s: Stamps, t: real) { forall i :: 0 <= i < |s| ==> t - s[i] > LOGIN_WINDOW_SECONDS }

  /** How many stamps the closed window that starts at t holds. */
  function InWindow(s: Stamps, t: real): nat { CountIn(s, t, t + LOGIN_WINDOW_SECONDS) }

  ghost predicate WithinBudget(s: Stamps) { forall t: real :: InWindow(s, t) <= LOGIN_BUDGET }

  ghost predicate Inv(g: Gate) {
    Sorted(g.recent) && UpTo(g.recent, g.clock) && LongBefore(g.gone, g.clock) && WithinBudget(Held(g))
  }

  lemma CountOne(t: real, lo: real, hi: real)
    ensures CountIn([], lo, hi) == 0 && CountIn([t], lo, hi) == if lo <= t && t <= hi then 1 else 0
  {
    assert [t][..0] == [];
  }

  lemma {:induction false} CountConcat(a: Stamps, b: Stamps, lo: real, hi: real)
    ensures CountIn(a + b, lo, hi) == CountIn(a, lo, hi) + CountIn(b, lo, hi)
    decreases |b|
  {
    if b == [] {
      assert a + b == a;
    } else {
      assert (a + b)[..|a + b| - 1] == a + b[..|b| - 1];
      CountConcat(a, b[..|b| - 1], lo, hi);
    }
  }

  lemma {:induction false} CountBound(s: Stamps, lo: real, hi: real)
    ensures CountIn(s, lo, hi) <= |s|
    ensures (forall i :: 0 <= i < |s| ==> s[i] < lo) ==> CountIn(s, lo, hi) == 0
    ensures (forall i :: 0 <= i < |s| ==> lo <= s[i] <= hi) ==> CountIn(s, lo, hi) == |s|
  {
    if s != [] { CountBound(s[..|s| - 1], lo, hi); }
  }

  lemma {:induction false} CountWithout(s: Stamps, stamp: real, lo: real, hi: real)
    ensures CountIn(Without(s, stamp), lo, hi) <= CountIn(s, lo, hi)
    decreases |s|
  {
    if s != [] {
      assert s == [s[0]] + s[1..];
      CountConcat([s[0]], s[1..], lo, hi);
      if s[0] != stamp {
        CountWithout(s[1..], stamp, lo, hi);
        CountConcat([s[0]], Without(s[1..], stamp), lo, hi);
      }
    }
  }

  lemma {:induction false} WithoutAt(s: Stamps, stamp: real) returns (k: nat)
    requires stamp in s
    ensures k < |s| && s[k] == stamp && Without(s, stamp) == s[..k] + s[k + 1..]
    decreases |s|
  {
    if s[0] == stamp {
      k := 0;
    } else {
      var j := WithoutAt(s[1..], stamp);
      k := j + 1;
    }
  }

  /** Dropping one stamp keeps the order and every bound. */
  lemma WithoutKeepsBounds(s: Stamps, stamp: real, t: real)
    ensures Sorted(s) ==> Sorted(Without(s, stamp))
    ensures UpTo(s, t) ==> UpTo(Without(s, stamp), t)
    ensures LongBefore(s, t) ==> LongBefore(Without(s, stamp), t)
  {
    if stamp in s {
      var k := WithoutAt(s, stamp);
    }
  }

  lemma PruneKeepsInv(g: Gate, now: real)
    requires Inv(g) && now >= g.clock
    ensures Inv(Pruned(g, now)) && Held(Pruned(g, now)) == Held(g)
  {
    var n := Expired(g.recent, now);
    assert g.recent == g.recent[..n] + g.recent[n..];
    assert Held(Pruned(g, now)) == Held(g);
  }

  /** A new stamp shares a window only with stamps that are still in the deque. */
  lemma WindowWithNew(p: Gate, now: real, t: real)
    requires LongBefore(p.gone, now) && |p.recent| < LOGIN_BUDGET
    requires InWindow(Held(p), t) <= LOGIN_BUDGET
    ensures InWindow(Held(p) + [now], t) <= LOGIN_BUDGET
  {
    var hi := t + LOGIN_WINDOW_SECONDS;
    assert (Held(p) + [now])[..|Held(p)|] == Held(p);
    if t <= now <= hi {
      CountConcat(p.gone, p.recent, t, hi);
      CountBound(p.gone, t, hi);
      CountBound(p.recent, t, hi);
    }
  }

  lemma ReserveKeepsInv(g: Gate, now: real)
    requires Inv(g) && now >= g.clock && Accepts(g, now)
    ensures Inv(Step(g, Reserve(now)))
  {
    PruneKeepsInv(g, now);
    var (p, g') := (Pruned(g, now), Step(g, Reserve(now)));
    assert Held(g') == Held(p) + [now];
    forall t: real ensures InWindow(Held(g'), t) <= LOGIN_BUDGET {
      WindowWithNew(p, now, t);
    }
  }

  lemma SignedInKeepsInv(g: Gate, stamp: real)
    requires Inv(g)
    ensures Inv(Step(g, SignedIn(stamp)))
  {
    var g' := Step(g, SignedIn(stamp));
    WithoutKeepsBounds(g.recent, stamp, g.clock);
    WithoutKeepsBounds(g.gone, stamp, g.clock);
    forall t: real ensures InWindow(Held(g'), t) <= LOGIN_BUDGET {
      var hi := t + LOGIN_WINDOW_SECONDS;
      CountConcat(g.gone, g.recent, t, hi);
      CountConcat(g'.gone, g'.recent, t, hi);
      CountWithout(g.recent, stamp, t, hi);
      CountWithout(g.gone, stamp, t, hi);
      assert InWindow(Held(g), t) <= LOGIN_BUDGET;
    }
  }

  lemma StepKeepsInv(g: Gate, e: Event)
    requires Inv(g) && Possible(g, e)
    ensures Inv(Step(g, e))
  {
    match e
    case Reserve(now) => if Accepts(g, now) { ReserveKeepsInv(g, now); } else { PruneKeepsInv(g, now); }
    case SignedIn(stamp) => SignedInKeepsInv(g, stamp);
    case Look(now) => PruneKeepsInv(g, now);
  }

  lemma {:induction false} RunKeepsInv(g: Gate, es: seq<Event>)
    requires Inv(g) && AllPossible(g, es)
    ensures Inv(Run(g, es))
    decreases |es|
  {
    if es != [] {
      StepKeepsInv(g, es[0]);
      RunKeepsInv(Step(g, es[0]), es[1..]);
    }
  }

  lemma EmptyGateFits(clock: real)
    ensures Inv(Gate(clock, [], []))
  {
    assert Held(Gate(clock, [], [])) == [];
  }

  /**
   Over any run of concurrent sessions of one process: every closed window of 300 seconds holds at most 10 attempts
   that were checked and did not sign in.
   */
  lemma BudgetHoldsInEveryWindow(clock: real, es: seq<Event>, t: real)
    requires AllPossible(Gate(clock, [], []), es)
    ensures CountIn(Held(Run(Gate(clock, [], []), es)), t, t + 300.0) <= 10
  {
    EmptyGateFits(clock);
    RunKeepsInv(Gate(clock, [], []), es);
    assert InWindow(Held(Run(Gate(clock, [], []), es)), t) <= LOGIN_BUDGET;
  }

  lemma {:induction false} WithoutTakesOne(s: Stamps, stamp: real)
    ensures multiset(Without(s, stamp)) == multiset(s) - multiset{stamp}
  {
    if s != [] {
      assert s == [s[0]] + s[1..];
      if s[0] != stamp { WithoutTakesOne(s[1..], stamp); }
    }
  }

  lemma PruneHolds(g: Gate, now: real)
    ensures Held(Pruned(g, now)) == Held(g)
  {
    var n := Expired(g.recent, now);
    assert g.recent == g.recent[..n] + g.recent[n..];
  }

  lemma SignedInTakesOne(g: Gate, stamp: real)
    requires stamp in Held(g)
    ensures multiset(Held(Step(g, SignedIn(stamp)))) == multiset(Held(g)) - multiset{stamp}
  {
    var (a, b) := (g.gone, g.recent);
    WithoutTakesOne(a, stamp);
    WithoutTakesOne(b, stamp);
    hide Without;
    assert multiset(a + b) == multiset(a) + multiset(b);
    if stamp in b {
      assert multiset(a + Without(b, stamp)) == multiset(a) + multiset(Without(b, stamp));
    } else {
      assert multiset(Without(a, stamp) + b) == multiset(Without(a, stamp)) + multiset(b);
    }
  }

  /** What is held against the budget: each accepted attempt once, until it signs in. */
  lemma HeldAfter(g: Gate, e: Event)
    requires Possible(g, e)
    ensures multiset(Held(Step(g, e))) ==
              match e
              case Reserve(now) => multiset(Held(g)) + if Accepts(g, now) then multiset{now} else multiset{}
              case SignedIn(stamp) => multiset(Held(g)) - multiset{stamp}
              case Look(_) => multiset(Held(g))
  {
    match e
    case SignedIn(stamp) => SignedInTakesOne(g, stamp);
    case Reserve(now) => PruneHolds(g, now);
    case Look(now) => PruneHolds(g, now);
  }

  lemma AcceptsWhenNotFull(g: Gate, now: real)
    requires Inv(g) && now >= g.clock
    ensures Accepts(g, now) <==> CountIn(Held(g), now - LOGIN_WINDOW_SECONDS, now) < LOGIN_BUDGET
  {
    var (p, lo) := (Pruned(g, now), now - LOGIN_WINDOW_SECONDS);
    PruneKeepsInv(g, now);
    CountConcat(p.gone, p.recent, lo, now);
    CountBound(p.gone, lo, now);
    forall i | 0 <= i < |p.recent| ensures lo <= p.recent[i] <= now {
      assert p.recent[0] <= p.recent[i];
    }
    CountBound(p.recent, lo, now);
  }

  /** After any run, an attempt is turned away exactly when the window that ends now is already full. */
  lemma RejectsExactlyWhenFull(clock: real, es: seq<Event>, now: real)
    requires AllPossible(Gate(clock, [], []), es) && now >= Run(Gate(clock, [], []), es).clock
    ensures var g := Run(Gate(clock, [], []), es);
            Accepts(g, now) <==> CountIn(Held(g), now - 300.0, now) < 10
  {
    EmptyGateFits(clock);
    RunKeepsInv(Gate(clock, [], []), es);
    AcceptsWhenNotFull(Run(Gate(clock, [], []), es), now);
  }
}
