/** How many calls the limiter lets through, over every trace of calls. */
module RateLimits {
  import opened RateLimiter

  function Min(a: int, b: int): int {
    if a <= b then a else b
  }

  // ----- time arithmetic -----

  lemma DivBounds(x: nat, d: nat, q: nat)
    requires d > 0
    ensures x / d == q <==> q * d <= x < (q + 1) * d
  {
    if q * d <= x < (q + 1) * d {
      QuotientUnique(x, d, q);
    }
  }

  lemma QuotientUnique(x: nat, d: nat, q: nat)
    requires d > 0 && q * d <= x < (q + 1) * d
    ensures x / d == q
  {
    var p := x / d;
    assert p * d <= x < (p + 1) * d;
    ScaleKeepsOrder(p + 1, q, d);
    ScaleKeepsOrder(q + 1, p, d);
  }

  lemma ScaleKeepsOrder(a: nat, b: nat, d: nat)
    ensures a <= b ==> a * d <= b * d
  {
    if a <= b {
      assert b * d == a * d + (b - a) * d;
    }
  }

  /** A bucket is exactly one window long. */
  lemma BucketSpan(limit: Limit, now: nat, b: nat)
    ensures Bucket(limit, now) == b <==> b * limit.Length() <= now < (b + 1) * limit.Length()
  {
    var w, q := limit.WindowSeconds(), now / SECOND;
    DivBounds(q, w, b);
    assert q * SECOND <= now < (q + 1) * SECOND;
    assert b * limit.Length() == (b * w) * SECOND && (b + 1) * limit.Length() == ((b + 1) * w) * SECOND;
    if b * w <= q {
      assert (b * w) * SECOND <= q * SECOND;
    } else {
      assert (q + 1) * SECOND <= (b * w) * SECOND;
    }
    if q < (b + 1) * w {
      assert (q + 1) * SECOND <= ((b + 1) * w) * SECOND;
    } else {
      assert ((b + 1) * w) * SECOND <= q * SECOND;
    }
  }

  /** From one second on a counter outlives two buckets; below it lives a second and the bucket lasts a minute. */
  lemma ExpiryAndLength(limit: Limit)
    requires limit.Enforced()
    ensures limit.window >= SECOND ==> limit.Expiry() >= 2 * limit.Length()
    ensures limit.window < SECOND ==> limit.Expiry() == SECOND && limit.Length() == 60 * SECOND
    ensures limit.window >= SECOND ==> limit.Length() <= limit.window < limit.Length() + SECOND
    ensures limit.window >= SECOND ==> limit.Expiry() <= 2 * limit.window < limit.Expiry() + SECOND
  {
    if limit.window >= SECOND {
      var w := limit.window / SECOND;
      assert w >= 1 && limit.window * 2 >= (2 * w) * SECOND;
      assert limit.window * 2 / SECOND >= 2 * w;
    }
  }

  // ----- the counter of a bucket is never dropped while the bucket is open -----

  ghost predicate Tracks(store: Store, s: Subject, hits: nat) {
    var key := Key(s.scope, s.id, s.bucket);
    if hits == 0 then key !in store
    else
      && key in store && store[key].count == hits
      && (store[key].expiry.None? || store[key].expiry.value >= s.bucket * s.limit.Length() + s.limit.Expiry())
  }

  ghost predicate RegularCall(c: Call, s: Subject, delay: nat) {
    c.scope == s.scope && c.id == s.id ==> c.limit == s.limit && c.now <= c.at <= c.now + delay
  }

  lemma OtherKey(c: Call, s: Subject, delay: nat)
    requires RegularCall(c, s, delay) && !s.Covers(c)
    ensures KeyOf(c) != Key(s.scope, s.id, s.bucket)
  {
    if KeyOf(c) == Key(s.scope, s.id, s.bucket) {
      KeyInjective(c.scope, c.id, Bucket(c.limit, c.now), s.scope, s.id, s.bucket);
    }
  }

  lemma OtherCall(store: Store, c: Call, s: Subject, delay: nat, hits: nat)
    requires RegularCall(c, s, delay) && !s.Covers(c) && Tracks(store, s, hits)
    ensures Tracks(AfterCall(store, c), s, hits)
  {
    OtherKey(c, s, delay);
  }

  /** A call of the bucket reaches Redis before any counter of the bucket expires. */
  lemma OwnCallTimes(c: Call, s: Subject, delay: nat)
    requires s.limit.Outlives(delay) && RegularCall(c, s, delay) && s.Covers(c)
    ensures c.at < s.bucket * s.limit.Length() + s.limit.Expiry() <= c.at + s.limit.Expiry()
  {
    BucketSpan(s.limit, c.now, s.bucket);
    assert (s.bucket + 1) * s.limit.Length() == s.bucket * s.limit.Length() + s.limit.Length();
  }

  lemma OwnCall(store: Store, c: Call, s: Subject, delay: nat, hits: nat)
    requires s.limit.Enforced() && s.limit.Outlives(delay)
    requires RegularCall(c, s, delay) && s.Covers(c) && Tracks(store, s, hits)
    ensures Tracks(AfterCall(store, c), s, if c.outcome.LostBefore? then hits else hits + 1)
  {
    OwnCallTimes(c, s, delay);
  }

  lemma {:induction false} CounterTracks(calls: seq<Call>, s: Subject, delay: nat)
    requires s.limit.Enforced() && s.limit.Outlives(delay)
    requires Regular(calls, s.scope, s.id, s.limit, delay)
    ensures Tracks(StoreAfter(calls), s, Hits(calls, s))
    decreases |calls|
  {
    var n := |calls|;
    if n > 0 {
      CounterTracks(calls[..n - 1], s, delay);
      if s.Covers(calls[n - 1]) {
        OwnCall(StoreAfter(calls[..n - 1]), calls[n - 1], s, delay, Hits(calls[..n - 1], s));
      } else {
        OtherCall(StoreAfter(calls[..n - 1]), calls[n - 1], s, delay, Hits(calls[..n - 1], s));
      }
    }
  }

  // ----- what a bucket lets through -----

  lemma LastVerdict(calls: seq<Call>, s: Subject, delay: nat)
    requires s.limit.Enforced() && s.limit.Outlives(delay)
    requires Regular(calls, s.scope, s.id, s.limit, delay) && calls != [] && s.Covers(calls[|calls| - 1])
    ensures LastAllowed(calls) <==> !calls[|calls| - 1].outcome.Done? || Hits(calls, s) <= s.limit.requests
  {
    CounterTracks(calls, s, delay);
  }

  /**
   * With `R` requests per window, a bucket that `h` calls advanced lets through all failed calls
   * and, of the others, those among its first `R`.
   */
  lemma {:induction false} BucketAccount(calls: seq<Call>, s: Subject, delay: nat)
    requires s.limit.Enforced() && s.limit.Outlives(delay)
    requires Regular(calls, s.scope, s.id, s.limit, delay)
    ensures Allowed(calls, s) <= Min(s.limit.requests, Hits(calls, s)) + Failures(calls, s)
    ensures Allowed(calls, s) + LostHits(calls, s) >= Min(s.limit.requests, Hits(calls, s)) + Failures(calls, s)
    decreases |calls|
  {
    var n := |calls|;
    if n > 0 {
      BucketAccount(calls[..n - 1], s, delay);
      if s.Covers(calls[n - 1]) {
        LastVerdict(calls, s, delay);
      }
    }
  }

  lemma {:induction false} NoFailureCounts(calls: seq<Call>, s: Subject)
    requires Failures(calls, s) == 0
    ensures Hits(calls, s) == Total(calls, s) && LostHits(calls, s) == 0
    decreases |calls|
  {
    if calls != [] {
      NoFailureCounts(calls[..|calls| - 1], s);
    }
  }

  /** Each bucket lets through at most R calls and the failed ones; without failures exactly min(R, calls). */
  lemma BucketLimit(calls: seq<Call>, s: Subject, delay: nat)
    requires s.limit.Enforced() && s.limit.Outlives(delay)
    requires Regular(calls, s.scope, s.id, s.limit, delay)
    ensures Allowed(calls, s) <= s.limit.requests + Failures(calls, s)
    ensures Failures(calls, s) == 0 ==> Allowed(calls, s) == Min(s.limit.requests, Total(calls, s))
  {
    BucketAccount(calls, s, delay);
    if Failures(calls, s) == 0 {
      NoFailureCounts(calls, s);
    }
  }

  // ----- intervals -----

  /** Calls of a subject let through whose clock sample lies in `[from, to)`. */
  function AllowedBetween(calls: seq<Call>, scope: Scope, id: string, from: nat, to: nat): nat {
    var n := |calls|;
    if n == 0 then 0
    else
      var c := calls[n - 1];
      AllowedBetween(calls[..n - 1], scope, id, from, to)
      + if c.scope == scope && c.id == id && from <= c.now < to && LastAllowed(calls) then 1 else 0
  }

  /** `n` buckets from `b` on: calls of them let through, and failed ones. */
  function AllowedIn(calls: seq<Call>, s: Subject, n: nat): nat {
    if n == 0 then 0 else AllowedIn(calls, s, n - 1) + Allowed(calls, s.(bucket := s.bucket + n - 1))
  }

  function FailuresIn(calls: seq<Call>, s: Subject, n: nat): nat {
    if n == 0 then 0 else FailuresIn(calls, s, n - 1) + Failures(calls, s.(bucket := s.bucket + n - 1))
  }

  predicate CoversOneOf(s: Subject, c: Call, n: nat) {
    c.scope == s.scope && c.id == s.id && s.bucket <= Bucket(s.limit, c.now) < s.bucket + n
  }

  lemma {:induction false} AllowedInStep(calls: seq<Call>, s: Subject, n: nat)
    requires calls != []
    ensures AllowedIn(calls, s, n) == AllowedIn(calls[..|calls| - 1], s, n)
              + if CoversOneOf(s, calls[|calls| - 1], n) && LastAllowed(calls) then 1 else 0
    decreases n
  {
    if n > 0 {
      AllowedInStep(calls, s, n - 1);
    }
  }

  lemma {:induction false} AllowedInNothing(s: Subject, n: nat)
    ensures AllowedIn([], s, n) == 0
    decreases n
  {
    if n > 0 {
      AllowedInNothing(s, n - 1);
    }
  }

  lemma {:induction false} AllowedInLimit(calls: seq<Call>, s: Subject, delay: nat, n: nat)
    requires s.limit.Enforced() && s.limit.Outlives(delay)
    requires Regular(calls, s.scope, s.id, s.limit, delay)
    ensures AllowedIn(calls, s, n) <= n * s.limit.requests + FailuresIn(calls, s, n)
    decreases n
  {
    if n > 0 {
      AllowedInLimit(calls, s, delay, n - 1);
      BucketLimit(calls, s.(bucket := s.bucket + n - 1), delay);
      assert n * s.limit.requests == (n - 1) * s.limit.requests + s.limit.requests;
    }
  }

  /** What an interval lets through is let through by the buckets its calls fall in. */
  lemma {:induction false} IntervalInBuckets(calls: seq<Call>, s: Subject, n: nat, from: nat, to: nat)
    requires forall t: nat :: from <= t < to ==> s.bucket <= Bucket(s.limit, t) < s.bucket + n
    ensures AllowedBetween(calls, s.scope, s.id, from, to) <= AllowedIn(calls, s, n)
    decreases |calls|
  {
    if calls == [] {
      AllowedInNothing(s, n);
    } else {
      IntervalInBuckets(calls[..|calls| - 1], s, n, from, to);
      AllowedInStep(calls, s, n);
    }
  }

  lemma BucketsApart(limit: Limit, from: nat, t: nat, n: nat)
    requires from <= t
    ensures Bucket(limit, from) <= Bucket(limit, t)
    ensures t < (Bucket(limit, from) + n) * limit.Length() ==> Bucket(limit, t) < Bucket(limit, from) + n
  {
    var len, b, q := limit.Length(), Bucket(limit, from), Bucket(limit, t);
    BucketSpan(limit, from, b);
    BucketSpan(limit, t, q);
    ScaleKeepsOrder(q + 1, b, len);
    ScaleKeepsOrder(b + n, q, len);
  }

  /** Every call at a time an interval of one window can hold falls in the next two or three buckets. */
  lemma WindowMeets(limit: Limit, from: nat, t: nat)
    requires limit.window >= SECOND && from <= t < from + limit.window
    ensures var b := Bucket(limit, from);
      b <= Bucket(limit, t) < b + if limit.window % SECOND <= 1 then 2 else 3
  {
    var len, b := limit.Length(), Bucket(limit, from);
    BucketSpan(limit, from, b);
    assert limit.window == len + limit.window % SECOND;
    assert (b + 1) * len == b * len + len && (b + 2) * len == b * len + 2 * len && (b + 3) * len == b * len + 3 * len;
    BucketsApart(limit, from, t, if limit.window % SECOND <= 1 then 2 else 3);
  }

  /**
   * An interval one window long lets through at most 2R calls and the failed ones of the two buckets
   * it meets, if the window is whole seconds (or one nanosecond more); otherwise it can meet three
   * buckets, and lets through at most 3R and the failed ones.
   */
  lemma IntervalLimit(calls: seq<Call>, scope: Scope, id: string, limit: Limit, delay: nat, from: nat)
    requires limit.Enforced() && limit.Outlives(delay) && Regular(calls, scope, id, limit, delay)
    ensures var s, n := Subject(scope, id, limit, Bucket(limit, from)), if limit.window % SECOND <= 1 then 2 else 3;
      AllowedBetween(calls, scope, id, from, from + limit.window) <= n * limit.requests + FailuresIn(calls, s, n)
  {
    ExpiryAndLength(limit);
    var s, n := Subject(scope, id, limit, Bucket(limit, from)), if limit.window % SECOND <= 1 then 2 else 3;
    forall t: nat | from <= t < from + limit.window ensures s.bucket <= Bucket(limit, t) < s.bucket + n {
      WindowMeets(limit, from, t);
    }
    IntervalInBuckets(calls, s, n, from, from + limit.window);
    AllowedInLimit(calls, s, delay, n);
  }
}
