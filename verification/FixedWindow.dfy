/** The OAuth endpoints' fixed-window rate limit: what its buckets allow in an arbitrary interval. */
module FixedWindow {
  import opened OAuthStore

  datatype Hit = Hit(key: Id, nowMs: int)

  /** One admission: when, when its bucket was opened, and its place in that bucket. */
  datatype Entry = Entry(time: int, start: int, place: int)

  function Run(hits: seq<Hit>, windowMs: int, max: int): Memory {
    if hits == [] then EMPTY_MEMORY
    else MemRateLimit(Run(hits[..|hits| - 1], windowMs, max), hits[|hits| - 1].key, windowMs, max,
        hits[|hits| - 1].nowMs).next
  }

  predicate LastAdmitted(hits: seq<Hit>, windowMs: int, max: int)
    requires hits != []
  {
    MemRateLimit(Run(hits[..|hits| - 1], windowMs, max), hits[|hits| - 1].key, windowMs, max,
        hits[|hits| - 1].nowMs).reply.allowed
  }

  /** The entry an admission adds: of the bucket as the hit left it. */
  function EntryOf(bucket: Bucket, nowMs: int, windowMs: int): Entry {
    Entry(nowMs, bucket.resetAt - windowMs, bucket.count - 1)
  }

  /** Every admission under `key`, with the start of the bucket that counted it. */
  function Entries(hits: seq<Hit>, windowMs: int, max: int, key: Id): seq<Entry> {
    if hits == [] then []
    else
      var before := Entries(hits[..|hits| - 1], windowMs, max, key);
      var last := hits[|hits| - 1];
      if last.key == key && LastAdmitted(hits, windowMs, max) then
        var bucket := BucketOf(Run(hits, windowMs, max), key);
        before + [EntryOf(bucket, last.nowMs, windowMs)]
      else before
  }

  function BucketOf(s: Memory, key: Id): Bucket {
    if key in s.rateLimits then s.rateLimits[key] else Bucket(0, 0)
  }

  predicate ClockNeverBack(hits: seq<Hit>) {
    forall i, j :: 0 <= i < j < |hits| ==> hits[i].nowMs <= hits[j].nowMs
  }

  /** How many admissions have their time in [lo, hi]. */
  function CountIn(es: seq<Entry>, lo: int, hi: int): nat {
    if es == [] then 0
    else CountIn(es[..|es| - 1], lo, hi) + if lo <= es[|es| - 1].time <= hi then 1 else 0
  }

  // ----- the shape of the admissions -----

  /** A place in an open bucket of at most `max`; the first place opens it. */
  predicate InBucket(e: Entry, windowMs: int, max: int) {
    e.start <= e.time < e.start + windowMs && 0 <= e.place < max && (e.place == 0 ==> e.time == e.start)
  }

  /** The next place of the same bucket, or the first of one that opens after it has ended. */
  predicate Follows(e: Entry, f: Entry, windowMs: int) {
    || (f.start == e.start && f.place == e.place + 1 && f.time >= e.time)
    || (f.place == 0 && f.start >= e.start + windowMs)
  }

  ghost predicate Bucketed(es: seq<Entry>, windowMs: int, max: int) {
    && (forall i :: 0 <= i < |es| ==> InBucket(es[i], windowMs, max))
    && (forall i :: 1 <= i < |es| ==> Follows(es[i - 1], es[i], windowMs))
  }

  /** The stored bucket is that of the last admission. */
  predicate Tracks(es: seq<Entry>, s: Memory, key: Id, windowMs: int) {
    if es == [] then key !in s.rateLimits
    else key in s.rateLimits && s.rateLimits[key] == Bucket(es[|es| - 1].place + 1, es[|es| - 1].start + windowMs)
  }

  lemma AdmissionTracks(es: seq<Entry>, s: Memory, hit: Hit, windowMs: int, max: int)
    requires windowMs >= 1 && max >= 1 && Bucketed(es, windowMs, max) && Tracks(es, s, hit.key, windowMs)
    requires es != [] ==> es[|es| - 1].time <= hit.nowMs
    ensures var step := MemRateLimit(s, hit.key, windowMs, max, hit.nowMs);
            var after := if step.reply.allowed
                         then es + [EntryOf(BucketOf(step.next, hit.key), hit.nowMs, windowMs)] else es;
            Bucketed(after, windowMs, max) && Tracks(after, step.next, hit.key, windowMs)
  {}

  lemma {:induction false} EntriesTrack(hits: seq<Hit>, windowMs: int, max: int, key: Id)
    requires windowMs >= 1 && max >= 1 && ClockNeverBack(hits)
    ensures var es := Entries(hits, windowMs, max, key);
            && Bucketed(es, windowMs, max) && Tracks(es, Run(hits, windowMs, max), key, windowMs)
            && (es != [] ==> es[|es| - 1].time <= hits[|hits| - 1].nowMs)
    decreases |hits|
  {
    if hits != [] {
      var before, last := hits[..|hits| - 1], hits[|hits| - 1];
      EntriesTrack(before, windowMs, max, key);
      if last.key == key {
        AdmissionTracks(Entries(before, windowMs, max, key), Run(before, windowMs, max), last, windowMs, max);
      }
    }
  }

  /** Later admissions share the bucket, further on, or belong to one that opened after it ended. */
  lemma {:induction false} SameBucketOrLater(es: seq<Entry>, windowMs: int, max: int, i: nat, j: nat)
    requires windowMs >= 1 && Bucketed(es, windowMs, max) && i <= j < |es|
    ensures (es[j].start == es[i].start && es[j].place == es[i].place + (j - i)) ||
        es[j].start >= es[i].start + windowMs
    ensures es[i].time <= es[j].time
    decreases j
  {
    if i < j {
      SameBucketOrLater(es, windowMs, max, i, j - 1);
      assert Follows(es[j - 1], es[j], windowMs);
    }
  }

  // ----- the bounds -----

  ghost predicate TimesSorted(es: seq<Entry>) { forall i, k :: 0 <= i < k < |es| ==> es[i].time <= es[k].time }

  lemma BucketedIsSorted(es: seq<Entry>, windowMs: int, max: int)
    requires windowMs >= 1 && Bucketed(es, windowMs, max)
    ensures TimesSorted(es)
  {
    forall i, k | 0 <= i < k < |es|
      ensures es[i].time <= es[k].time
    {
      SameBucketOrLater(es, windowMs, max, i, k);
    }
  }

  /** If n admissions fall in an interval, some admission and the (n-1)-th after it both do. */
  lemma {:induction false} CountSpans(es: seq<Entry>, lo: int, hi: int, n: nat) returns (j: int)
    requires TimesSorted(es) && 1 <= n <= CountIn(es, lo, hi)
    ensures n - 1 <= j < |es| && lo <= es[j - n + 1].time && es[j].time <= hi
    decreases |es|
  {
    var init := es[..|es| - 1];
    if lo <= es[|es| - 1].time <= hi {
      j := |es| - 1;
      if n > 1 {
        var k := CountSpans(init, lo, hi, n - 1);
        assert es[k - (n - 1) + 1].time <= es[j - n + 1].time || k == |es| - 2;
      }
    } else {
      j := CountSpans(init, lo, hi, n);
    }
  }

  /** More than 2 * max admissions in a row take longer than a window. */
  lemma TwoBucketsPerWindow(es: seq<Entry>, windowMs: int, max: int, i: nat, j: nat)
    requires windowMs >= 1 && max >= 1 && Bucketed(es, windowMs, max) && j < |es|
    ensures i + 2 * max <= j ==> es[j].time - es[i].time > windowMs
    ensures i + 2 * max - 1 <= j ==> es[j].time - es[i].time >= windowMs
  {
    if i + 2 * max - 1 <= j {
      var k := i + max - es[i].place;
      SameBucketOrLater(es, windowMs, max, i, k);
      SameBucketOrLater(es, windowMs, max, k, j);
      if k + max <= j {
        SameBucketOrLater(es, windowMs, max, k, k + max);
        SameBucketOrLater(es, windowMs, max, k + max, j);
      }
    }
  }

  /** At most `max` admissions share a bucket. */
  lemma BucketsAreBounded(hits: seq<Hit>, windowMs: int, max: int, key: Id, i: nat, j: nat)
    requires windowMs >= 1 && max >= 1 && ClockNeverBack(hits)
    requires var es := Entries(hits, windowMs, max, key); i < j < |es| && es[i].start == es[j].start
    ensures j - i < max
  {
    EntriesTrack(hits, windowMs, max, key);
    SameBucketOrLater(Entries(hits, windowMs, max, key), windowMs, max, i, j);
  }

  /** At most 2 * max admissions fall in any closed interval of length windowMs ... */
  lemma ClosedWindowBound(hits: seq<Hit>, windowMs: int, max: int, key: Id, w: int)
    requires windowMs >= 1 && max >= 1 && ClockNeverBack(hits)
    ensures CountIn(Entries(hits, windowMs, max, key), w - windowMs, w) <= 2 * max
  {
    EntriesTrack(hits, windowMs, max, key);
    ClosedBound(Entries(hits, windowMs, max, key), windowMs, max, w);
  }

  lemma ClosedBound(es: seq<Entry>, windowMs: int, max: int, w: int)
    requires windowMs >= 1 && max >= 1 && Bucketed(es, windowMs, max)
    ensures CountIn(es, w - windowMs, w) <= 2 * max
  {
    BucketedIsSorted(es, windowMs, max);
    if CountIn(es, w - windowMs, w) > 2 * max {
      var j := CountSpans(es, w - windowMs, w, 2 * max + 1);
      TwoBucketsPerWindow(es, windowMs, max, j - 2 * max, j);
    }
  }

  /** ... and at most 2 * max - 1 in any half-open one (w - windowMs, w]. */
  lemma HalfOpenWindowBound(hits: seq<Hit>, windowMs: int, max: int, key: Id, w: int)
    requires windowMs >= 1 && max >= 1 && ClockNeverBack(hits)
    ensures CountIn(Entries(hits, windowMs, max, key), w - windowMs + 1, w) <= 2 * max - 1
  {
    EntriesTrack(hits, windowMs, max, key);
    HalfOpenBound(Entries(hits, windowMs, max, key), windowMs, max, w);
  }

  lemma HalfOpenBound(es: seq<Entry>, windowMs: int, max: int, w: int)
    requires windowMs >= 1 && max >= 1 && Bucketed(es, windowMs, max)
    ensures CountIn(es, w - windowMs + 1, w) <= 2 * max - 1
  {
    BucketedIsSorted(es, windowMs, max);
    if CountIn(es, w - windowMs + 1, w) > 2 * max - 1 {
      var j := CountSpans(es, w - windowMs + 1, w, 2 * max);
      TwoBucketsPerWindow(es, windowMs, max, j - 2 * max + 1, j);
    }
  }

  // ----- the closed bound is reached -----

  /** max hits at time 0, then `extra` hits at the instant the first bucket ends. */
  function Bursts(windowMs: int, max: nat, extra: nat, key: Id): seq<Hit> {
    seq(max + extra, i => if i < max then Hit(key, 0) else Hit(key, windowMs))
  }

  function NextEntries(es: seq<Entry>, now: int, windowMs: int, max: int): seq<Entry> {
    if es == [] || es[|es| - 1].start + windowMs <= now then es + [Entry(now, now, 0)]
    else if es[|es| - 1].place + 1 < max then es + [Entry(now, es[|es| - 1].start, es[|es| - 1].place + 1)]
    else es
  }

  /** What one more hit under `key` adds to its admissions. */
  lemma EntriesStep(hits: seq<Hit>, windowMs: int, max: int, key: Id)
    requires windowMs >= 1 && max >= 1 && ClockNeverBack(hits) && hits != [] && hits[|hits| - 1].key == key
    ensures var es, now := Entries(hits[..|hits| - 1], windowMs, max, key), hits[|hits| - 1].nowMs;
            Entries(hits, windowMs, max, key) == NextEntries(es, now, windowMs, max)
  {
    EntriesTrack(hits[..|hits| - 1], windowMs, max, key);
  }

  /** The admissions of the two bursts. */
  function BurstEntries(windowMs: int, max: nat, extra: nat): seq<Entry> {
    seq(max + extra, i => if i < max then Entry(0, 0, i) else Entry(windowMs, windowMs, i - max))
  }

  /** `n` hits of the two bursts are all admitted. */
  lemma {:induction false} BurstsAreAdmitted(windowMs: int, max: nat, n: nat, key: Id)
    requires windowMs >= 1 && max >= 1 && n <= 2 * max
    ensures Entries(Bursts(windowMs, max, max, key)[..n], windowMs, max, key) == BurstEntries(windowMs, max, max)[..n]
  {
    if n > 0 {
      BurstsAreAdmitted(windowMs, max, n - 1, key);
      BurstsNext(windowMs, max, n, key);
      EntriesStep(Bursts(windowMs, max, max, key)[..n], windowMs, max, key);
      BurstEntriesNext(windowMs, max, n);
    }
  }

  lemma BurstsNext(windowMs: int, max: nat, n: nat, key: Id)
    requires windowMs >= 1 && 1 <= n <= 2 * max
    ensures var hits := Bursts(windowMs, max, max, key)[..n];
            && hits[..n - 1] == Bursts(windowMs, max, max, key)[..n - 1] && ClockNeverBack(hits)
            && hits[n - 1] == Hit(key, if n - 1 < max then 0 else windowMs)
  {}

  lemma BurstEntriesNext(windowMs: int, max: nat, n: nat)
    requires windowMs >= 1 && 1 <= n <= 2 * max
    ensures var es, now := BurstEntries(windowMs, max, max)[..n - 1], if n - 1 < max then 0 else windowMs;
            BurstEntries(windowMs, max, max)[..n] == NextEntries(es, now, windowMs, max)
  {}

  lemma {:induction false} AllCounted(es: seq<Entry>, lo: int, hi: int)
    requires forall i :: 0 <= i < |es| ==> lo <= es[i].time <= hi
    ensures CountIn(es, lo, hi) == |es|
  {
    if es != [] { AllCounted(es[..|es| - 1], lo, hi); }
  }

  /** All hits of the two bursts are admitted. */
  lemma AllBurstsAreAdmitted(windowMs: int, max: nat, key: Id)
    requires windowMs >= 1 && max >= 1
    ensures Entries(Bursts(windowMs, max, max, key), windowMs, max, key) == BurstEntries(windowMs, max, max)
  {
    BurstsAreAdmitted(windowMs, max, 2 * max, key);
    WholeBursts(windowMs, max, key);
  }

  lemma BurstsAreInWindow(windowMs: int, max: nat, key: Id)
    requires windowMs >= 1
    ensures ClockNeverBack(Bursts(windowMs, max, max, key))
    ensures var es := BurstEntries(windowMs, max, max);
            |es| == 2 * max && forall i :: 0 <= i < |es| ==> 0 <= es[i].time <= windowMs
  {}

  /** For every window and limit there is a run with 2 * max admissions in one closed window. */
  lemma ClosedBoundIsReached(windowMs: int, max: nat, key: Id)
    requires windowMs >= 1 && max >= 1
    ensures ClockNeverBack(Bursts(windowMs, max, max, key))
    ensures CountIn(Entries(Bursts(windowMs, max, max, key), windowMs, max, key), 0, windowMs) == 2 * max
  {
    AllBurstsAreAdmitted(windowMs, max, key);
    BurstsAreInWindow(windowMs, max, key);
    AllCounted(BurstEntries(windowMs, max, max), 0, windowMs);
  }

  lemma WholeBursts(windowMs: int, max: nat, key: Id)
    ensures var hits, es := Bursts(windowMs, max, max, key), BurstEntries(windowMs, max, max);
            hits[..2 * max] == hits && es[..2 * max] == es
  {}

  /** A hit is refused exactly when its bucket is still open and all its places are taken. */
  lemma RefusedIffFull(hits: seq<Hit>, windowMs: int, max: int)
    requires windowMs >= 1 && max >= 1 && ClockNeverBack(hits) && hits != []
    ensures var last := hits[|hits| - 1];
            var es := Entries(hits[..|hits| - 1], windowMs, max, last.key);
            !LastAdmitted(hits, windowMs, max) <==>
              es != [] && last.nowMs < es[|es| - 1].start + windowMs && es[|es| - 1].place == max - 1
  {
    var init, last := hits[..|hits| - 1], hits[|hits| - 1];
    EntriesTrack(init, windowMs, max, last.key);
  }
}
