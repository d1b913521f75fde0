/**
 The clock-skew estimate of kalshi/client.py from the Date header of a few replies. Times are exact reals, in seconds.
 */
module ClockSkew {
  import opened Wrappers

  const MAX_SKEW_ROUND_TRIP_SECONDS := 5.0
  const SKEW_SAMPLES := 3

  /** One request: local times before and after, and the reply's Date if it had a readable one. */
  datatype Sample = NoReply | Sample(sent: real, received: real, date: Option<int>)

  predicate Usable(s: Sample) { s.Sample? && s.date.Some? }

  function RoundTrip(s: Sample): real
    requires s.Sample?
  {
    s.received - s.sent
  }

  /** Local midpoint minus the middle of the server's second. */
  function Skew(s: Sample): real
    requires Usable(s)
  {
    (s.sent + s.received) / 2.0 - (s.date.value as real + 0.5)
  }

  datatype Error = Network | NoDate | Unreliable(best: real)

  predicate Slow(s: Sample, limit: real) { Usable(s) && RoundTrip(s) > limit }

  /** The k-th request is the first that is not merely slow. */
  predicate DecidedBy(samples: seq<Sample>, limit: real, k: nat) {
    k < |samples| && !Slow(samples[k], limit) && forall j :: 0 <= j < k ==> Slow(samples[j], limit)
  }

  /** The first request that brings no reply, no readable Date, or one within the limit. */
  lemma DecidedExactly(samples: seq<Sample>, limit: real, k: nat)
    ensures DecidedBy(samples, limit, k) <==>
              && k < |samples|
              && (samples[k].Sample? && samples[k].date.Some? ==> samples[k].received - samples[k].sent <= limit)
              && (forall j :: 0 <= j < k ==>
                    && samples[j].Sample? && samples[j].date.Some?
                    && samples[j].received - samples[j].sent > limit)
  {
  }

  /** How many requests are made at most. */
  function Attempts(samples: int): (n: nat)
    ensures n >= 1 && n >= samples && (n == 1 || n == samples)
  {
    if samples > 1 then samples else 1
  }

  /** `replies` is what the network answers, one per request. */
  method EstimateClockSkew(replies: seq<Sample>, samples: int, limit: real) returns (r: Result<real, Error>)
    requires |replies| == Attempts(samples)
    ensures r.Ok? <==> exists k: nat :: DecidedBy(replies, limit, k) && Usable(replies[k])
    ensures r.Ok? ==> exists k: nat :: DecidedBy(replies, limit, k) && Usable(replies[k]) && r.value == Skew(replies[k])
    ensures r == Err(Network) <==> exists k: nat :: DecidedBy(replies, limit, k) && replies[k].NoReply?
    ensures r == Err(NoDate) <==>
              exists k: nat :: DecidedBy(replies, limit, k) && replies[k].Sample? && !Usable(replies[k])
    ensures r.Err? && r.error.Unreliable? <==> forall k :: 0 <= k < |replies| ==> Slow(replies[k], limit)
    ensures r.Err? && r.error.Unreliable? ==>
              && (exists k: nat :: k < |replies| && r.error.best == RoundTrip(replies[k]))
              && (forall k :: 0 <= k < |replies| ==> r.error.best <= RoundTrip(replies[k]))
  {
    var best: Option<(real, real)> := None;
    var i := 0;
    while i < Attempts(samples)
      invariant i <= |replies|
      invariant forall k :: 0 <= k < i ==> Slow(replies[k], limit)
      invariant best.None? <==> i == 0
      invariant best.Some? ==> exists k: nat :: k < i && best.value == (RoundTrip(replies[k]), Skew(replies[k]))
      invariant best.Some? ==> forall k :: 0 <= k < i ==> best.value.0 <= RoundTrip(replies[k])
    {
      var reply := replies[i];
      if !reply.Sample? {
        assert DecidedBy(replies, limit, i);
        return Err(Network);
      }
      if reply.date.None? {
        assert DecidedBy(replies, limit, i);
        return Err(NoDate);
      }
      var roundTrip := reply.received - reply.sent;
      var skew := (reply.sent + reply.received) / 2.0 - (reply.date.value as real + 0.5);
      if best.None? || roundTrip < best.value.0 {
        best := Some((roundTrip, skew));
      }
      if roundTrip <= limit {
        assert DecidedBy(replies, limit, i);
        break;
      }
      i := i + 1;
    }
    if best.value.0 > limit { return Err(Unreliable(best.value.0)); }
    r := Ok(best.value.1);
  }

  // ---------------------------------------------------------------- accuracy

  /** The server wrote its Date, cut to the second, at server time `at`, while the request was under way. */
  predicate Honest(s: Sample, skew: real, at: real) {
    Usable(s) && s.sent <= at + skew <= s.received && s.date.value == at.Floor
  }

  function Abs(x: real): real { if x < 0.0 then -x else x }

  /** The estimate is off by at most half the round trip plus half a second. */
  lemma ErrorBound(s: Sample, skew: real, at: real)
    requires Honest(s, skew, at)
    ensures Abs(Skew(s) - skew) <= RoundTrip(s) / 2.0 + 0.5
  {
    assert s.date.value as real <= at < s.date.value as real + 1.0;
  }

  /** No smaller bound would do: some honest reply with this round trip is off by exactly that much. */
  lemma ErrorBoundIsReached(roundTrip: real, skew: real) returns (s: Sample)
    requires roundTrip >= 0.0
    ensures Honest(s, skew, 0.0) && RoundTrip(s) == roundTrip
    ensures Abs(Skew(s) - skew) == roundTrip / 2.0 + 0.5
  {
    s := Sample(skew - roundTrip, skew, Some(0));
  }

  /** At the default limit an estimate is never more than three seconds off. */
  method EstimateWithinThreeSeconds(replies: seq<Sample>, skew: real, ghost at: seq<real>)
      returns (r: Result<real, Error>)
    requires |replies| == 3 == |at|
    requires forall k :: 0 <= k < |replies| && Usable(replies[k]) ==> Honest(replies[k], skew, at[k])
    ensures r.Ok? ==> Abs(r.value - skew) <= 3.0
  {
    r := EstimateClockSkew(replies, SKEW_SAMPLES, MAX_SKEW_ROUND_TRIP_SECONDS);
    if r.Ok? {
      ghost var k: nat :| DecidedBy(replies, MAX_SKEW_ROUND_TRIP_SECONDS, k) && Usable(replies[k])
          && r.value == Skew(replies[k]);
      ErrorBound(replies[k], skew, at[k]);
    }
  }
}
