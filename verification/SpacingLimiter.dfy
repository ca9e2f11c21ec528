/**
 The spacing queue that paces upstream calls, and the retry loop that waits on it before every attempt.
 Times are integer milliseconds; a release is the scheduled end of a wait.
 */
module SpacingLimiter {
  import opened Options

  function Max(a: int, b: int): int { if a >= b then a else b }

  /** The scheduled release of the n-th caller, when callers read the clock at `arrivals`. */
  function Release(arrivals: seq<int>, interval: int, n: nat): int
    requires n < |arrivals|
  {
    if n == 0 then Max(arrivals[0], 0) else Max(arrivals[n], Release(arrivals, interval, n - 1) + interval)
  }

  /** What `nextAvailableAt` holds after all arrivals. */
  function NextAvailable(arrivals: seq<int>, interval: int): int {
    if arrivals == [] then 0 else Release(arrivals, interval, |arrivals| - 1) + interval
  }

  lemma {:induction false} ReleaseOfPrefix(arrivals: seq<int>, more: seq<int>, interval: int, n: nat)
    requires n < |arrivals|
    ensures Release(arrivals + more, interval, n) == Release(arrivals, interval, n)
  {
    if n > 0 { ReleaseOfPrefix(arrivals, more, interval, n - 1); }
  }

  class TokenBucketRateLimiter {
    const intervalMs: int
    var nextAvailableAt: int
    ghost var arrivals: seq<int>

    ghost predicate Valid()
      reads this
    {
      nextAvailableAt == NextAvailable(arrivals, intervalMs)
    }

    constructor (intervalMs: int)
      ensures Valid() && arrivals == [] && this.intervalMs == intervalMs
    {
      this.intervalMs := intervalMs;
      nextAvailableAt := 0;
      arrivals := [];
    }

    /** The caller is released `waitMs` after it read `now`, at its place in the schedule. */
    method Wait(now: int) returns (waitMs: int)
      requires Valid()
      modifies this
      ensures Valid() && arrivals == old(arrivals) + [now]
      ensures waitMs >= 0 && now + waitMs == Release(arrivals, intervalMs, |old(arrivals)|)
    {
      waitMs := Max(0, nextAvailableAt - now);
      nextAvailableAt := Max(now, nextAvailableAt) + intervalMs;
      arrivals := arrivals + [now];
      if |old(arrivals)| > 0 {
        ReleaseOfPrefix(old(arrivals), [now], intervalMs, |old(arrivals)| - 1);
      }
    }
  }

  // ----- the schedule in closed form -----

  /** What caller k alone forces on the n-th release. */
  function Demand(arrivals: seq<int>, interval: int, k: nat, n: nat): int
    requires k <= n < |arrivals|
  {
    arrivals[k] + (n - k) * interval
  }

  /** The n-th release is exactly the maximum over k <= n of arrival k plus (n - k) intervals. */
  lemma {:induction false} ReleaseIsMaximum(arrivals: seq<int>, interval: int, n: nat)
    requires n < |arrivals| && arrivals[0] >= 0
    ensures forall k :: 0 <= k <= n ==> Demand(arrivals, interval, k, n) <= Release(arrivals, interval, n)
    ensures exists k :: 0 <= k <= n && Demand(arrivals, interval, k, n) == Release(arrivals, interval, n)
  {
    if n == 0 {
      assert Demand(arrivals, interval, 0, 0) == arrivals[0];
    } else {
      ReleaseIsMaximum(arrivals, interval, n - 1);
      assert Demand(arrivals, interval, n, n) == arrivals[n];
      forall k | 0 <= k < n
        ensures Demand(arrivals, interval, k, n) == Demand(arrivals, interval, k, n - 1) + interval
      {
        assert (n - k) * interval == (n - 1 - k) * interval + interval;
      }
      var j :| 0 <= j <= n - 1 && Demand(arrivals, interval, j, n - 1) == Release(arrivals, interval, n - 1);
      assert Demand(arrivals, interval, j, n) == Release(arrivals, interval, n - 1) + interval;
    }
  }

  /** First come, first served, one interval apart at least: any two releases, whoever waits. */
  lemma {:induction false} ReleasesAreSpaced(arrivals: seq<int>, interval: int, i: nat, j: nat)
    requires i <= j < |arrivals|
    ensures Release(arrivals, interval, j) >= Release(arrivals, interval, i) + (j - i) * interval
    ensures Release(arrivals, interval, j) >= arrivals[j]
    decreases j
  {
    if i < j {
      ReleasesAreSpaced(arrivals, interval, i, j - 1);
      assert (j - i) * interval == (j - 1 - i) * interval + interval;
    }
  }

  /** A schedule that keeps order and spacing and releases nobody before the arrival. */
  ghost predicate Schedule(arrivals: seq<int>, interval: int, releases: seq<int>) {
    && |releases| == |arrivals|
    && (forall i :: 0 <= i < |releases| ==> releases[i] >= arrivals[i])
    && (forall i :: 1 <= i < |releases| ==> releases[i] >= releases[i - 1] + interval)
  }

  /** No such schedule releases any caller earlier. */
  lemma {:induction false} ReleasesAreEarliest(arrivals: seq<int>, interval: int, releases: seq<int>, n: nat)
    requires Schedule(arrivals, interval, releases) && n < |arrivals| && arrivals[0] >= 0
    ensures Release(arrivals, interval, n) <= releases[n]
  {
    if n > 0 { ReleasesAreEarliest(arrivals, interval, releases, n - 1); }
  }

  // ----- retries -----

  datatype Failure = Upstream(status: Option<int>) | UserInput | Timeout | Network | Other

  predicate IsRetryable(f: Failure) {
    match f
    case Upstream(status) => status.None? || status.value >= 500
    case UserInput => false
    case Timeout => true
    case Network => true
    case Other => false
  }

  datatype Outcome<T> = Returned(value: T) | Threw(failure: Failure)

  /** The clock reading before an attempt, and how the attempt ends. */
  datatype Attempt<T> = Attempt(nowMs: int, outcome: Outcome<T>)

  function Readings<T>(attempts: seq<Attempt<T>>): seq<int> {
    seq(|attempts|, i requires 0 <= i < |attempts| => attempts[i].nowMs)
  }

  lemma ReadingsNext<T>(attempts: seq<Attempt<T>>, n: nat)
    requires n < |attempts|
    ensures Readings(attempts[..n + 1]) == Readings(attempts[..n]) + [attempts[n].nowMs]
  {}

  /** A failure that may pass: a timeout, the network, or the other side, without a status or with one of 500 or
      more. */
  predicate IsTransient(f: Failure) {
    f == Timeout || f == Network || (f.Upstream? && (f.status.Some? ==> f.status.value > 499))
  }

  /** The first delay is the base, and every delay is twice the one before. */
  lemma DelaysDouble(baseDelayMs: int, n: nat)
    ensures baseDelayMs * Pow2(0) == baseDelayMs
    ensures baseDelayMs * Pow2(n + 1) == 2 * (baseDelayMs * Pow2(n))
  {
    assert Pow2(n + 1) == 2 * Pow2(n);
  }

  function Pow2(n: nat): int { if n == 0 then 1 else 2 * Pow2(n - 1) }

  predicate TriesAgain<T>(a: Attempt<T>) { a.outcome.Threw? && IsRetryable(a.outcome.failure) }

  /**
   `fetchWithRetry`.  `attempts` is how the attempts would go; the loop makes the first `used` of them,
   waiting on the limiter before each, and answers the outcome of the last.
   */
  method FetchWithRetry<T>(limiter: TokenBucketRateLimiter, maxRetries: int, baseDelayMs: int,
          attempts: seq<Attempt<T>>)
    returns (outcome: Outcome<T>, used: nat, delays: seq<int>)
    requires limiter.Valid() && |attempts| > Max(0, maxRetries)
    modifies limiter
    ensures limiter.Valid() && 1 <= used <= Max(0, maxRetries) + 1
    ensures limiter.arrivals == old(limiter.arrivals) + Readings(attempts[..used])
    ensures outcome == attempts[used - 1].outcome
    ensures forall i :: 0 <= i < used - 1 ==> TriesAgain(attempts[i])
    ensures TriesAgain(attempts[used - 1]) ==> used == Max(0, maxRetries) + 1
    ensures |delays| == used - 1 && forall i :: 0 <= i < |delays| ==> delays[i] == baseDelayMs * Pow2(i)
    ensures forall i :: 0 <= i < used - 1 ==> attempts[i].outcome.Threw? && IsTransient(attempts[i].outcome.failure)
    ensures used <= Max(0, maxRetries) ==> outcome.Returned? || !IsTransient(outcome.failure)
  {
    var attempt := 0;
    delays := [];
    while true
      invariant limiter.Valid() && 0 <= attempt <= Max(0, maxRetries) && |delays| == attempt
      invariant limiter.arrivals == old(limiter.arrivals) + Readings(attempts[..attempt])
      invariant forall i :: 0 <= i < attempt ==> TriesAgain(attempts[i])
      invariant forall i :: 0 <= i < attempt ==> delays[i] == baseDelayMs * Pow2(i)
      decreases Max(0, maxRetries) - attempt
    {
      var _ := limiter.Wait(attempts[attempt].nowMs);
      ReadingsNext(attempts, attempt);
      outcome := attempts[attempt].outcome;
      if outcome.Returned? || attempt >= maxRetries || !IsRetryable(outcome.failure) {
        used := attempt + 1;
        return;
      }
      attempt := attempt + 1;
      delays := delays + [baseDelayMs * Pow2(attempt - 1)];
    }
  }

  // ----- concurrent searches on one limiter -----

  /** One attempt of one search: it waits, then ends well or with a failure. */
  datatype Try = Try(search: int, nowMs: int, failure: Option<Failure>)

  datatype Fetching = Fetching(arrivals: seq<int>, owners: seq<int>, finished: set<int>)

  /** `fetchWithRetry` of the search that tries; a search that has finished does not try again. */
  function TryStep(s: Fetching, maxRetries: int, t: Try): Fetching {
    if t.search in s.finished then s else
    var earlier := multiset(s.owners)[t.search];
    var ends := t.failure.None? || earlier >= maxRetries || !IsRetryable(t.failure.value);
    Fetching(s.arrivals + [t.nowMs], s.owners + [t.search], if ends then s.finished + {t.search} else s.finished)
  }

  function TryRun(maxRetries: int, tries: seq<Try>): Fetching {
    if tries == [] then Fetching([], [], {})
    else TryStep(TryRun(maxRetries, tries[..|tries| - 1]), maxRetries, tries[|tries| - 1])
  }

  /** However searches interleave, none waits more than maxRetries + 1 times. */
  lemma {:induction false} AttemptsAreBounded(maxRetries: int, tries: seq<Try>, search: int)
    ensures var s := TryRun(maxRetries, tries);
            && |s.arrivals| == |s.owners|
            && multiset(s.owners)[search] <= Max(0, maxRetries) + 1
            && (search !in s.finished ==> multiset(s.owners)[search] <= Max(0, maxRetries))
    decreases |tries|
  {
    if tries != [] {
      AttemptsAreBounded(maxRetries, tries[..|tries| - 1], search);
    }
  }

  /** However searches interleave, any two attempts start at least their distance in intervals apart. */
  lemma ConcurrentAttemptsAreSpaced(maxRetries: int, tries: seq<Try>, interval: int, i: nat, j: nat)
    requires i < j < |TryRun(maxRetries, tries).arrivals| && interval >= 0
    ensures var arrivals := TryRun(maxRetries, tries).arrivals;
            Release(arrivals, interval, j) - Release(arrivals, interval, i) >= (j - i) * interval >= interval
  {
    ReleasesAreSpaced(TryRun(maxRetries, tries).arrivals, interval, i, j);
    assert (j - i) * interval == (j - i - 1) * interval + interval;
    assert (j - i - 1) * interval >= 0;
  }
}
