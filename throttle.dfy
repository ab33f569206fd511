/** The failed-attempt throttle: a log of failure timestamps, counted over a sliding
    window, that blocks further attempts once a limit is reached. */
module Throttle {
  import opened Wrappers

  /** Number of logged timestamps at or after `cutoff`. */
  function CountSince(log: seq<int>, cutoff: int): (n: nat)
    ensures n <= |log|
  {
    if log == [] then 0
    else CountSince(log[..|log| - 1], cutoff) + (if log[|log| - 1] >= cutoff then 1 else 0)
  }

  /** Whether the attempt is rejected: a positive limit, an existing log, and at least
      `limit` failures in the last `lifetime` seconds before `now`. */
  predicate Throttled(limit: int, lifetime: int, log: Option<seq<int>>, now: int)
  {
    limit > 0 && log.Some? && CountSince(log.value, now - lifetime) >= limit
  }

  /** The log after a failure at `now`: appended to, or created holding just `now`. */
  function RecordFailure(log: Option<seq<int>>, now: int): (r: seq<int>)
    ensures |r| == if log.Some? then |log.value| + 1 else 1
    ensures log.Some? ==> r[..|log.value|] == log.value
    ensures r[|r| - 1] == now
  {
    match log
    case Some(l) => l + [now]
    case None => [now]
  }

  /** Counting over a concatenation adds the two counts. */
  lemma {:induction false} CountSinceAppend(a: seq<int>, b: seq<int>, cutoff: int)
    ensures CountSince(a + b, cutoff) == CountSince(a, cutoff) + CountSince(b, cutoff)
    decreases |b|
  {
    if b == [] {
      assert a + b == a;
    } else {
      var init := b[..|b| - 1];
      assert (a + b)[..|a + b| - 1] == a + init;
      CountSinceAppend(a, init, cutoff);
    }
  }

  /** Entries expire: a later cutoff never counts more. */
  lemma {:induction false} CountSinceAntitone(log: seq<int>, c1: int, c2: int)
    requires c1 <= c2
    ensures CountSince(log, c2) <= CountSince(log, c1)
    decreases |log|
  {
    if log != [] {
      CountSinceAntitone(log[..|log| - 1], c1, c2);
    }
  }

  /** A failure recorded at `now` counts once toward every window that still covers
      `now`; a missing log behaves as an empty one. */
  lemma RecordedFailureCounts(log: Option<seq<int>>, now: int, cutoff: int)
    requires cutoff <= now
    ensures CountSince(RecordFailure(log, now), cutoff)
         == (if log.Some? then CountSince(log.value, cutoff) else 0) + 1
  {
    var r := RecordFailure(log, now);
    assert r[..|r| - 1] == if log.Some? then log.value else [];
  }

  /** With the limit at zero (or below) nothing is ever throttled. */
  lemma ThrottleDisabled(limit: int, lifetime: int, log: Option<seq<int>>, now: int)
    requires limit <= 0
    ensures !Throttled(limit, lifetime, log, now)
  {
  }

  /** Two failures at t=0 and t=100 with a limit of 2 and a 300-second window block an
      attempt at t=200 but not one at t=500, when both have expired. */
  lemma WindowExample()
    ensures Throttled(2, 300, Some([0, 100]), 200)
    ensures !Throttled(2, 300, Some([0, 100]), 500)
  {
    assert [0, 100][..1] == [0];
    assert [0][..0] == [];
  }

  /** With a limit of one, a failure recorded at `now` blocks every attempt within the
      window that follows it. */
  lemma LockoutAfterFailure(log: Option<seq<int>>, lifetime: int, now: int, later: int)
    requires now <= later <= now + lifetime
    ensures Throttled(1, lifetime, Some(RecordFailure(log, now)), later)
  {
    RecordedFailureCounts(log, now, later - lifetime);
  }
}
