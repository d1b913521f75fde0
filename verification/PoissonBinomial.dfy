/**
 The chance of k or more (or k or fewer) wins in independent games: the dynamic programs of
 dashboard/data.py and edge_validation.py against the sum over all win/loss vectors. Probabilities are exact reals.
 */
module PoissonBinomial {

  type Vector = seq<bool>

  // ---------------------------------------------------------------- the definition

  /** A product of probabilities. */
  function Times(x: real, y: real): real { x * y }

  /** One more game: it was lost after `lost`, or won after `won`. */
  function Mix(lost: real, won: real, p: real): real { lost * (1.0 - p) + won * p }

  lemma TimesAdds(x: real, y: real, f: real)
    ensures Times(x, f) + Times(y, f) == Times(x + y, f) && Times(0.0, f) == 0.0
  {
  }

  lemma MixIsTimes(lost: real, won: real, p: real)
    ensures Mix(lost, won, p) == Times(lost, 1.0 - p) + Times(won, p)
  {
  }

  lemma MixOfNoWin(lost: real, p: real)
    ensures Mix(lost, 0.0, p) == lost * (1.0 - p)
  {
  }

  /** Two games may be played in either order. */
  lemma MixSwaps(a: real, b: real, c: real, p: real, q: real)
    ensures Mix(Mix(a, b, p), Mix(b, c, p), q) == Mix(Mix(a, b, q), Mix(b, c, q), p)
  {
    assert a * (1.0 - p) * (1.0 - q) == a * (1.0 - q) * (1.0 - p);
    assert c * p * q == c * q * p;
  }

  /** Swapping wins with losses. */
  lemma MixMirrors(a: real, b: real, p: real)
    ensures Mix(a, b, 1.0 - p) == Mix(b, a, p)
  {
  }

  function Wins(v: Vector): nat {
    if v == [] then 0 else Wins(v[..|v| - 1]) + if v[|v| - 1] then 1 else 0
  }

  /** The probability of one win/loss vector. */
  function Prob(probs: seq<real>, v: Vector): real
    requires |v| == |probs|
  {
    if v == [] then 1.0
    else
      var n := |v| - 1;
      Times(Prob(probs[..n], v[..n]), if v[n] then probs[n] else 1.0 - probs[n])
  }

  ghost predicate Sized(vs: seq<Vector>, n: nat) { forall i :: 0 <= i < |vs| ==> |vs[i]| == n }

  function Extend(vs: seq<Vector>, won: bool): (r: seq<Vector>)
    ensures |r| == |vs| && forall i :: 0 <= i < |vs| ==> r[i] == vs[i] + [won]
  {
    if vs == [] then [] else [vs[0] + [won]] + Extend(vs[1..], won)
  }

  function AllVectors(n: nat): (vs: seq<Vector>)
    ensures Sized(vs, n)
  {
    if n == 0 then [[]] else Extend(AllVectors(n - 1), false) + Extend(AllVectors(n - 1), true)
  }

  /** The total probability of the listed vectors whose number of wins is wanted. */
  function Mass(vs: seq<Vector>, probs: seq<real>, want: int -> bool): real
    requires Sized(vs, |probs|)
  {
    if vs == [] then 0.0
    else (if want(Wins(vs[0])) then Prob(probs, vs[0]) else 0.0) + Mass(vs[1..], probs, want)
  }

  function Exactly(probs: seq<real>, j: int): real { Mass(AllVectors(|probs|), probs, w => w == j) }

  function AtLeast(probs: seq<real>, k: int): real { Mass(AllVectors(|probs|), probs, w => w >= k) }

  function AtMost(probs: seq<real>, k: int): real { Mass(AllVectors(|probs|), probs, w => w <= k) }

  /** Every vector of the right length is listed, and only once. */
  lemma {:induction false} EachVectorOnce(v: Vector)
    ensures multiset(AllVectors(|v|))[v] == 1
  {
    if v != [] {
      var n := |v| - 1;
      var (front, last) := (v[..n], v[n]);
      var vs := AllVectors(n);
      assert v == front + [last];
      EachVectorOnce(front);
      ExtendCounts(vs, front, false, last);
      ExtendCounts(vs, front, true, last);
    }
  }

  lemma SnocInjective(a: Vector, x: bool, b: Vector, y: bool)
    ensures a + [x] == b + [y] <==> a == b && x == y
  {
    if a + [x] == b + [y] {
      assert (a + [x])[|a|] == (b + [y])[|b|] && (a + [x])[..|a|] == (b + [y])[..|b|];
    }
  }

  lemma HeadCounts(vs: seq<Vector>, v: Vector)
    requires vs != []
    ensures multiset(vs)[v] == multiset(vs[1..])[v] + if vs[0] == v then 1 else 0
  {
    assert vs == [vs[0]] + vs[1..];
  }

  lemma {:induction false} ExtendCounts(vs: seq<Vector>, front: Vector, won: bool, last: bool)
    ensures multiset(Extend(vs, won))[front + [last]] == if won == last then multiset(vs)[front] else 0
    decreases |vs|
  {
    if vs != [] {
      ExtendCounts(vs[1..], front, won, last);
      SnocInjective(vs[0], won, front, last);
      HeadCounts(vs, front);
      HeadCounts(Extend(vs, won), front + [last]);
      assert Extend(vs, won)[1..] == Extend(vs[1..], won);
    }
  }

  // ---------------------------------------------------------------- one game at a time

  lemma {:induction false} MassAgrees(vs: seq<Vector>, probs: seq<real>, a: int -> bool, b: int -> bool)
    requires Sized(vs, |probs|) && forall w :: 0 <= w <= |probs| ==> a(w) == b(w)
    ensures Mass(vs, probs, a) == Mass(vs, probs, b)
    decreases |vs|
  {
    if vs != [] {
      WinsBound(vs[0]);
      MassAgrees(vs[1..], probs, a, b);
    }
  }

  lemma {:induction false} WinsBound(v: Vector)
    ensures Wins(v) <= |v|
  {
    if v != [] { WinsBound(v[..|v| - 1]); }
  }

  lemma {:induction false} MassConcat(a: seq<Vector>, b: seq<Vector>, probs: seq<real>, want: int -> bool)
    requires Sized(a, |probs|) && Sized(b, |probs|)
    ensures Mass(a + b, probs, want) == Mass(a, probs, want) + Mass(b, probs, want)
    decreases |a|
  {
    if a == [] {
      assert a + b == b;
    } else {
      assert (a + b)[1..] == a[1..] + b;
      MassConcat(a[1..], b, probs, want);
    }
  }

  /** Mass is additive over disjoint sets of win counts. */
  lemma {:induction false} MassSplits(vs: seq<Vector>, probs: seq<real>, a: int -> bool, b: int -> bool,
      whole: int -> bool)
    requires Sized(vs, |probs|) && forall w :: (whole(w) <==> a(w) || b(w)) && !(a(w) && b(w))
    ensures Mass(vs, probs, whole) == Mass(vs, probs, a) + Mass(vs, probs, b)
    decreases |vs|
  {
    if vs != [] { MassSplits(vs[1..], probs, a, b, whole); }
  }

  lemma {:induction false} MassExtend(vs: seq<Vector>, probs: seq<real>, p: real, won: bool, want: int -> bool,
      before: int -> bool)
    requires Sized(vs, |probs|) && forall w :: before(w) == want(w + if won then 1 else 0)
    ensures Mass(Extend(vs, won), probs + [p], want) == Times(Mass(vs, probs, before), if won then p else 1.0 - p)
    decreases |vs|
  {
    hide Times;
    var f := if won then p else 1.0 - p;
    if vs == [] {
      TimesAdds(0.0, 0.0, f);
    } else {
      var v := vs[0] + [won];
      assert v[..|v| - 1] == vs[0] && (probs + [p])[..|v| - 1] == probs;
      assert Extend(vs, won)[1..] == Extend(vs[1..], won);
      MassExtend(vs[1..], probs, p, won, want, before);
      TimesAdds(if before(Wins(vs[0])) then Prob(probs, vs[0]) else 0.0, Mass(vs[1..], probs, before), f);
      TimesAdds(0.0, 0.0, f);
    }
  }

  /** One more game: the recurrence behind both programs. */
  lemma OneMoreGame(probs: seq<real>, p: real, j: int)
    ensures Exactly(probs + [p], j) == Mix(Exactly(probs, j), Exactly(probs, j - 1), p)
  {
    assert AllVectors(|probs + [p]|) == Extend(AllVectors(|probs|), false) + Extend(AllVectors(|probs|), true);
    hide Times, Mix, Mass, AllVectors, Extend;
    MixIsTimes(Exactly(probs, j), Exactly(probs, j - 1), p);
    var vs := AllVectors(|probs|);
    MassConcat(Extend(vs, false), Extend(vs, true), probs + [p], w => w == j);
    MassExtend(vs, probs, p, false, w => w == j, w => w == j);
    MassExtend(vs, probs, p, true, w => w == j, w => w == j - 1);
  }

  lemma NoGames(j: int)
    ensures Exactly([], j) == if j == 0 then 1.0 else 0.0
  {
    assert AllVectors(0) == [[]];
    assert Mass([[]], [], w => w == j) == (if Wins([]) == j then Prob([], []) else 0.0) + Mass([], [], w => w == j);
  }

  // ---------------------------------------------------------------- the programs

  /** `dist` holds the distribution of the number of wins in the games so far. */
  ghost predicate Holds(dist: seq<real>, probs: seq<real>) {
    forall j :: 0 <= j < |dist| ==> dist[j] == Exactly(probs, j)
  }

  /** The row after one more game, from the row before it. */
  ghost predicate Advances(before: seq<real>, p: real, after: seq<real>) {
    && |after| == |before|
    && (forall j :: 1 <= j < |before| ==> after[j] == Mix(before[j], before[j - 1], p))
    && (|before| > 0 ==> after[0] == Mix(before[0], 0.0, p))
  }

  lemma AdvancesHolds(before: seq<real>, probs: seq<real>, p: real, after: seq<real>)
    requires Holds(before, probs) && Advances(before, p, after)
    ensures Holds(after, probs + [p])
  {
    hide Mix, Exactly;
    forall j | 0 <= j < |after| ensures after[j] == Exactly(probs + [p], j) {
      OneMoreGame(probs, p, j);
      if j == 0 { NegativeWins(probs, -1); }
    }
  }

  lemma NegativeWins(probs: seq<real>, j: int)
    requires j < 0
    ensures Exactly(probs, j) == 0.0
  {
    MassAgrees(AllVectors(|probs|), probs, w => w == j, w => false);
    MassOfNone(AllVectors(|probs|), probs, w => false);
  }

  lemma {:induction false} MassOfNone(vs: seq<Vector>, probs: seq<real>, want: int -> bool)
    requires Sized(vs, |probs|) && forall w :: !want(w)
    ensures Mass(vs, probs, want) == 0.0
    decreases |vs|
  {
    if vs != [] { MassOfNone(vs[1..], probs, want); }
  }

  /** A fresh row: no games, no wins. */
  method NoGamesYet(n: nat) returns (dist: array<real>)
    ensures fresh(dist) && dist.Length == n + 1 && Holds(dist[..], [])
  {
    dist := new real[n + 1](j => if j == 0 then 1.0 else 0.0);
    forall j | 0 <= j < n + 1 ensures dist[..][j] == Exactly([], j) { NoGames(j); }
  }

  /** The inner loop of `_prob_at_least`: the row is overwritten from its end, so each step still sees old values. */
  method PlayBackward(dist: array<real>, p: real)
    requires dist.Length > 0
    modifies dist
    ensures Advances(old(dist[..]), p, dist[..])
  {
    hide Mix;
    var j := dist.Length - 1;
    while j > 0
      invariant 0 <= j < dist.Length
      invariant forall i :: 0 <= i <= j ==> dist[i] == old(dist[i])
      invariant forall i :: j < i < dist.Length ==> dist[i] == Mix(old(dist[i]), old(dist[i - 1]), p)
    {
      dist[j] := Mix(dist[j], dist[j - 1], p);
      j := j - 1;
    }
    MixOfNoWin(dist[0], p);
    dist[0] := dist[0] * (1.0 - p);
  }

  /** The array assignment of `poisson_binomial_cdf`: all right-hand sides are read first. */
  method PlayAtOnce(dist: array<real>, p: real)
    requires dist.Length > 0
    modifies dist
    ensures Advances(old(dist[..]), p, dist[..])
  {
    hide Mix;
    forall j | 1 <= j < dist.Length {
      dist[j] := Mix(dist[j], dist[j - 1], p);
    }
    MixOfNoWin(dist[0], p);
    dist[0] := dist[0] * (1.0 - p);
  }

  lemma TakeOneMore(probs: seq<real>, i: nat)
    requires i < |probs|
    ensures probs[..i + 1] == probs[..i] + [probs[i]]
  {
  }

  /** `sum(dist[lo:hi])` */
  method SumSlice(dist: array<real>, lo: nat, hi: nat, ghost probs: seq<real>) returns (sum: real)
    requires lo <= hi <= dist.Length && Holds(dist[..], probs)
    ensures sum == Mass(AllVectors(|probs|), probs, w => lo <= w < hi)
  {
    sum := 0.0;
    var i := lo;
    MassOfNone(AllVectors(|probs|), probs, w => lo <= w < lo);
    while i < hi
      invariant lo <= i <= hi
      invariant sum == Mass(AllVectors(|probs|), probs, w => lo <= w < i)
    {
      MassSplits(AllVectors(|probs|), probs, w => lo <= w < i, w => w == i, w => lo <= w < i + 1);
      assert dist[..][i] == Exactly(probs, i);
      sum := sum + dist[i];
      i := i + 1;
    }
  }

  /** `_prob_at_least` */
  method ProbAtLeast(probs: seq<real>, k: nat) returns (chance: real)
    ensures chance == AtLeast(probs, k)
  {
    var dist := NoGamesYet(|probs|);
    var i := 0;
    while i < |probs|
      invariant i <= |probs| && dist.Length == |probs| + 1 && Holds(dist[..], probs[..i])
    {
      ghost var before := dist[..];
      PlayBackward(dist, probs[i]);
      AdvancesHolds(before, probs[..i], probs[i], dist[..]);
      TakeOneMore(probs, i);
      i := i + 1;
    }
    assert probs[..i] == probs;
    var lo := if k < dist.Length then k else dist.Length;
    chance := SumSlice(dist, lo, dist.Length, probs);
    MassAgrees(AllVectors(|probs|), probs, w => lo <= w < dist.Length, w => w >= k);
  }

  /** `poisson_binomial_cdf` */
  method PoissonBinomialCdf(probs: seq<real>, k: nat) returns (chance: real)
    ensures chance == AtMost(probs, k)
  {
    var dist := NoGamesYet(|probs|);
    var i := 0;
    while i < |probs|
      invariant i <= |probs| && dist.Length == |probs| + 1 && Holds(dist[..], probs[..i])
    {
      ghost var before := dist[..];
      PlayAtOnce(dist, probs[i]);
      AdvancesHolds(before, probs[..i], probs[i], dist[..]);
      TakeOneMore(probs, i);
      i := i + 1;
    }
    assert probs[..i] == probs;
    var hi := if k + 1 < dist.Length then k + 1 else dist.Length;
    chance := SumSlice(dist, 0, hi, probs);
    MassAgrees(AllVectors(|probs|), probs, w => 0 <= w < hi, w => w <= k);
  }

  function LossProbs(winProbs: seq<real>): (r: seq<real>)
    ensures |r| == |winProbs|
  {
    seq(|winProbs|, i requires 0 <= i < |winProbs| => 1.0 - winProbs[i])
  }

  /** `band_loss_pvalue`: the chance of losing as few games as were lost is that of winning as many as were won. */
  method BandLossPValue(won: Vector, winProbs: seq<real>) returns (chance: real)
    requires |won| == |winProbs|
    ensures chance == AtLeast(winProbs, Wins(won))
  {
    WinsBound(won);
    var losses := |won| - Wins(won);
    chance := PoissonBinomialCdf(LossProbs(winProbs), losses);
    LossesMirrorWins(winProbs, losses);
  }

  // ---------------------------------------------------------------- properties of the distribution

  lemma UnitTimes(p: real)
    ensures Times(1.0, p) + Times(1.0, 1.0 - p) == 1.0
  {
  }

  lemma {:induction false} TotalIsOne(probs: seq<real>)
    ensures AtLeast(probs, 0) == 1.0
  {
    hide Times;
    var n := |probs|;
    if n == 0 {
      assert AllVectors(0) == [[]];
      assert Mass([[]], [], w => w >= 0) == Prob([], []) + Mass([], [], w => w >= 0);
    } else {
      var (front, p) := (probs[..n - 1], probs[n - 1]);
      var vs := AllVectors(n - 1);
      assert probs == front + [p];
      MassConcat(Extend(vs, false), Extend(vs, true), probs, w => w >= 0);
      MassExtend(vs, front, p, false, w => w >= 0, w => w >= 0);
      MassExtend(vs, front, p, true, w => w >= 0, w => w >= -1);
      MassAgrees(vs, front, w => w >= 0, w => w >= -1);
      TotalIsOne(front);
      UnitTimes(p);
    }
  }

  /** Moving one game to the end. */
  lemma {:induction false} MoveToEnd(a: seq<real>, p: real, b: seq<real>, j: int)
    ensures Exactly(a + [p] + b, j) == Exactly(a + b + [p], j)
    decreases |b|
  {
    hide Mix, Exactly;
    if b == [] {
      assert a + [p] + b == a + b + [p];
    } else {
      var (front, q) := (b[..|b| - 1], b[|b| - 1]);
      assert a + [p] + b == (a + [p] + front) + [q];
      assert a + b == (a + front) + [q];
      MoveToEnd(a, p, front, j);
      MoveToEnd(a, p, front, j - 1);
      OneMoreGame(a + [p] + front, q, j);
      OneMoreGame(a + front, p, j);
      OneMoreGame(a + front, p, j - 1);
      OneMoreGame(a + b, p, j);
      OneMoreGame(a + front, q, j);
      OneMoreGame(a + front, q, j - 1);
      MixSwaps(Exactly(a + front, j), Exactly(a + front, j - 1), Exactly(a + front, j - 2), p, q);
    }
  }

  /** The distribution does not depend on the order of the games. */
  lemma {:induction false} OrderDoesNotMatter(a: seq<real>, b: seq<real>, j: int)
    requires multiset(a) == multiset(b)
    ensures Exactly(a, j) == Exactly(b, j)
    decreases |b|
  {
    hide Mix, Exactly;
    if b == [] {
      assert |multiset(a)| == |a|;
    } else {
      var (front, p) := (b[..|b| - 1], b[|b| - 1]);
      assert b == front + [p];
      assert p in multiset(b);
      var i :| 0 <= i < |a| && a[i] == p;
      var (x, y) := (a[..i], a[i + 1..]);
      assert a == x + [p] + y;
      MoveToEnd(x, p, y, j);
      assert multiset(a) == multiset(x + y) + multiset{p} && multiset(b) == multiset(front) + multiset{p};
      assert multiset(x + y) == multiset(a) - multiset{p} == multiset(front);
      OrderDoesNotMatter(x + y, front, j);
      OrderDoesNotMatter(x + y, front, j - 1);
      OneMoreGame(x + y, p, j);
      OneMoreGame(front, p, j);
    }
  }

  /** j losses are n - j wins. */
  lemma {:induction false} MirrorExactly(probs: seq<real>, j: int)
    ensures Exactly(LossProbs(probs), j) == Exactly(probs, |probs| - j)
  {
    hide Mix, Exactly;
    var n := |probs|;
    if n == 0 {
      assert LossProbs(probs) == [] == probs;
      NoGames(j);
      NoGames(-j);
    } else {
      var (front, p) := (probs[..n - 1], probs[n - 1]);
      assert probs == front + [p] && LossProbs(probs) == LossProbs(front) + [1.0 - p];
      OneMoreGame(LossProbs(front), 1.0 - p, j);
      OneMoreGame(front, p, n - j);
      MirrorExactly(front, j);
      MirrorExactly(front, j - 1);
      MixMirrors(Exactly(front, n - 1 - j), Exactly(front, n - j), p);
    }
  }

  /** At most L losses is at least n - L wins. */
  lemma {:induction false} LossesMirrorWins(probs: seq<real>, losses: nat)
    requires losses <= |probs|
    ensures AtMost(LossProbs(probs), losses) == AtLeast(probs, |probs| - losses)
  {
    var (n, lost) := (|probs|, LossProbs(probs));
    var vs := AllVectors(n);
    if losses == 0 {
      MassAgrees(vs, lost, w => w <= 0, w => w == 0);
      MassAgrees(vs, probs, w => w >= n, w => w == n);
    } else {
      LossesMirrorWins(probs, losses - 1);
      MassSplits(vs, lost, w => w <= losses - 1, w => w == losses, w => w <= losses);
      MassSplits(vs, probs, w => w >= n - losses + 1, w => w == n - losses, w => w >= n - losses);
      MassAgrees(vs, probs, w => w >= n - (losses - 1), w => w >= n - losses + 1);
    }
    MirrorExactly(probs, losses);
  }
}
