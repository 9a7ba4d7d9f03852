/**
 * Exactly when the limits hold: for which windows, and up to which delay between a call's clock
 * sample and its arrival in Redis.
 */
module RateBounds {
  import opened Wrappers
  import opened RateLimiter
  import opened RateLimits

  ghost predicate AllDone(calls: seq<Call>) {
    forall k :: 0 <= k < |calls| ==> calls[k].outcome.Done?
  }

  lemma {:induction false} AllDoneNeverFails(calls: seq<Call>, s: Subject)
    requires AllDone(calls)
    ensures Failures(calls, s) == 0
    decreases |calls|
  {
    if calls != [] {
      AllDoneNeverFails(calls[..|calls| - 1], s);
    }
  }

  // ----- bursts of R calls -----

  function Repeat(c: Call, n: nat): seq<Call> {
    seq(n, _ => c)
  }

  /** The store after `n` calls at once: one counter set, everything else as before. */
  ghost predicate BurstLeft(before: Store, after: Store, key: string, n: nat, expiry: int) {
    && (n == 0 ==> after == before)
    && (n > 0 ==> key in after && after[key] == Entry(n, Some(expiry)))
    && forall k :: k != key ==> (k in after <==> k in before) && (k in before ==> after[k] == before[k])
  }

  lemma PipelineInBurst(before: Store, middle: Store, key: string, ttl: int, at: int, n: nat)
    requires ttl > 0 && !Alive(before, key, at)
    requires BurstLeft(before, middle, key, n, at + ExpirySeconds(ttl) * SECOND)
    ensures BurstLeft(before, AfterPipeline(middle, key, ttl, at, Done), key, n + 1, at + ExpirySeconds(ttl) * SECOND)
  {
    assert ExpirySeconds(ttl) >= 1;
  }

  /** Up to R calls at once on a key that is missing or expired count up and are all let through. */
  lemma {:induction false} BurstStore(calls: seq<Call>, c: Call, n: nat)
    requires c.limit.Enforced() && c.outcome.Done?
    requires !Alive(StoreAfter(calls), KeyOf(c), c.at)
    ensures BurstLeft(StoreAfter(calls), StoreAfter(calls + Repeat(c, n)), KeyOf(c), n, c.at + c.limit.Expiry())
    decreases n
  {
    if n == 0 {
      assert calls + Repeat(c, 0) == calls;
    } else {
      var middle := StoreAfter(calls + Repeat(c, n - 1));
      BurstStore(calls, c, n - 1);
      RepeatSnoc(calls, c, n);
      PipelineInBurst(StoreAfter(calls), middle, KeyOf(c), c.limit.window * 2, c.at, n - 1);
    }
  }

  lemma RepeatSnoc(calls: seq<Call>, c: Call, n: nat)
    requires n > 0
    ensures var more := calls + Repeat(c, n);
      |more| == |calls| + n && more[..|more| - 1] == calls + Repeat(c, n - 1) && more[|more| - 1] == c
  {
  }

  lemma {:induction false} BurstInBucket(calls: seq<Call>, c: Call, n: nat, s: Subject)
    requires c.limit.Enforced() && c.outcome.Done? && n <= c.limit.requests
    requires !Alive(StoreAfter(calls), KeyOf(c), c.at)
    ensures Allowed(calls + Repeat(c, n), s) == Allowed(calls, s) + if s.Covers(c) then n else 0
    decreases n
  {
    if n == 0 {
      assert calls + Repeat(c, 0) == calls;
    } else {
      BurstInBucket(calls, c, n - 1, s);
      RepeatSnoc(calls, c, n);
      BurstLast(calls, c, n);
    }
  }

  lemma {:induction false} BurstInInterval(calls: seq<Call>, c: Call, n: nat, from: nat, to: nat)
    requires c.limit.Enforced() && c.outcome.Done? && n <= c.limit.requests
    requires !Alive(StoreAfter(calls), KeyOf(c), c.at)
    ensures AllowedBetween(calls + Repeat(c, n), c.scope, c.id, from, to)
         == AllowedBetween(calls, c.scope, c.id, from, to) + if from <= c.now < to then n else 0
    decreases n
  {
    if n == 0 {
      assert calls + Repeat(c, 0) == calls;
    } else {
      BurstInInterval(calls, c, n - 1, from, to);
      RepeatSnoc(calls, c, n);
      BurstLast(calls, c, n);
    }
  }

  lemma BurstLast(calls: seq<Call>, c: Call, n: nat)
    requires c.limit.Enforced() && c.outcome.Done? && 0 < n <= c.limit.requests
    requires !Alive(StoreAfter(calls), KeyOf(c), c.at)
    ensures calls + Repeat(c, n) != [] && LastAllowed(calls + Repeat(c, n))
  {
    RepeatSnoc(calls, c, n);
    BurstStore(calls, c, n);
  }

  /** After a burst a key is dead once the burst's expiry has passed, or if the burst had another key. */
  lemma FreshAfterBurst(calls: seq<Call>, c: Call, n: nat, d: Call)
    requires c.limit.Enforced() && c.outcome.Done? && n <= c.limit.requests
    requires !Alive(StoreAfter(calls), KeyOf(c), c.at)
    requires if KeyOf(c) == KeyOf(d) then n > 0 && c.at + c.limit.Expiry() <= d.at
             else !Alive(StoreAfter(calls), KeyOf(d), d.at)
    ensures !Alive(StoreAfter(calls + Repeat(c, n)), KeyOf(d), d.at)
  {
    BurstStore(calls, c, n);
  }

  lemma OtherBucketOtherKey(c: Call, d: Call)
    requires Bucket(c.limit, c.now) != Bucket(d.limit, d.now)
    ensures KeyOf(c) != KeyOf(d)
  {
    if KeyOf(c) == KeyOf(d) {
      KeyInjective(c.scope, c.id, Bucket(c.limit, c.now), d.scope, d.id, Bucket(d.limit, d.now));
    }
  }

  // ----- runs of three bursts -----

  /** A call without failure that reaches Redis `late` after its clock sample. */
  function Plain(limit: Limit, now: nat, late: nat): Call {
    Call(Org, "", limit, now, now + late, Done)
  }

  ghost predicate IsPlain(c: Call, limit: Limit, delay: nat) {
    c.scope == Org && c.id == "" && c.limit == limit && c.outcome.Done? && c.now <= c.at <= c.now + delay
  }

  /** The burst of `d` finds no live counter of the burst of `c`. */
  ghost predicate Restarts(c: Call, d: Call) {
    c.at <= d.at && (KeyOf(c) == KeyOf(d) ==> c.at + c.limit.Expiry() <= d.at)
  }

  ghost predicate Bursts(limit: Limit, delay: nat, a: Call, b: Call, c: Call) {
    && limit.Enforced() && IsPlain(a, limit, delay) && IsPlain(b, limit, delay) && IsPlain(c, limit, delay)
    && Restarts(a, b) && Restarts(b, c) && Restarts(a, c)
  }

  /** R times each of three calls. */
  function Three(limit: Limit, a: Call, b: Call, c: Call): seq<Call>
    requires limit.Enforced()
  {
    [] + Repeat(a, limit.requests) + Repeat(b, limit.requests) + Repeat(c, limit.requests)
  }

  lemma FreshThroughout(limit: Limit, delay: nat, a: Call, b: Call, c: Call)
    requires Bursts(limit, delay, a, b, c)
    ensures var one := [] + Repeat(a, limit.requests);
      && !Alive(StoreAfter(one), KeyOf(b), b.at)
      && !Alive(StoreAfter(one + Repeat(b, limit.requests)), KeyOf(c), c.at)
  {
    var one := [] + Repeat(a, limit.requests);
    FreshAfterBurst([], a, limit.requests, b);
    FreshAfterBurst([], a, limit.requests, c);
    FreshAfterBurst(one, b, limit.requests, c);
  }

  /** Each of the three bursts is let through completely. */
  lemma ThreeInInterval(limit: Limit, delay: nat, a: Call, b: Call, c: Call, from: nat, to: nat)
    requires Bursts(limit, delay, a, b, c)
    ensures AllowedBetween(Three(limit, a, b, c), Org, "", from, to)
         == (if from <= a.now < to then limit.requests else 0) + (if from <= b.now < to then limit.requests else 0)
            + (if from <= c.now < to then limit.requests else 0)
  {
    var one := [] + Repeat(a, limit.requests);
    var two := one + Repeat(b, limit.requests);
    FreshThroughout(limit, delay, a, b, c);
    BurstInInterval([], a, limit.requests, from, to);
    BurstInInterval(one, b, limit.requests, from, to);
    BurstInInterval(two, c, limit.requests, from, to);
  }

  lemma ThreeInBucket(limit: Limit, delay: nat, a: Call, b: Call, c: Call, s: Subject)
    requires Bursts(limit, delay, a, b, c)
    ensures Allowed(Three(limit, a, b, c), s)
         == (if s.Covers(a) then limit.requests else 0) + (if s.Covers(b) then limit.requests else 0)
            + (if s.Covers(c) then limit.requests else 0)
  {
    var one := [] + Repeat(a, limit.requests);
    var two := one + Repeat(b, limit.requests);
    FreshThroughout(limit, delay, a, b, c);
    BurstInBucket([], a, limit.requests, s);
    BurstInBucket(one, b, limit.requests, s);
    BurstInBucket(two, c, limit.requests, s);
  }

  /** A run without failures: one limit, arrival in order and within `delay`. */
  ghost predicate Flawless(calls: seq<Call>, scope: Scope, id: string, limit: Limit, delay: nat) {
    Regular(calls, scope, id, limit, delay) && Ordered(calls, scope, id) && AllDone(calls)
  }

  lemma ThreeAt(limit: Limit, a: Call, b: Call, c: Call, k: nat)
    requires limit.Enforced() && k < 3 * limit.requests
    ensures var r := limit.requests;
      |Three(limit, a, b, c)| == 3 * r && Three(limit, a, b, c)[k] == if k < r then a else if k < 2 * r then b else c
  {
  }

  lemma ThreeFlawless(limit: Limit, delay: nat, a: Call, b: Call, c: Call)
    requires Bursts(limit, delay, a, b, c)
    ensures Flawless(Three(limit, a, b, c), Org, "", limit, delay)
  {
    var calls := Three(limit, a, b, c);
    forall k | 0 <= k < |calls| ensures IsPlain(calls[k], limit, delay) {
      ThreeAt(limit, a, b, c, k);
    }
    forall j, k | 0 <= j < k < |calls| ensures calls[j].at <= calls[k].at {
      ThreeAt(limit, a, b, c, j);
      ThreeAt(limit, a, b, c, k);
    }
  }

  lemma OtherBucketRestarts(c: Call, d: Call)
    requires c.at <= d.at && Bucket(c.limit, c.now) != Bucket(d.limit, d.now)
    ensures Restarts(c, d)
  {
    OtherBucketOtherKey(c, d);
  }

  /** The end of the first bucket, the start of the second and of the third. */
  lemma EdgeBuckets(limit: Limit)
    ensures var len := limit.Length();
      Bucket(limit, len - 1) == 0 && Bucket(limit, len) == 1 && Bucket(limit, 2 * len) == 2
  {
    var len := limit.Length();
    BucketSpan(limit, len - 1, 0);
    BucketSpan(limit, len, 1);
    BucketSpan(limit, 2 * len, 2);
  }

  lemma EdgeBursts(limit: Limit)
    requires limit.Enforced()
    ensures var len := limit.Length();
      Bursts(limit, 0, Plain(limit, len - 1, 0), Plain(limit, len, 0), Plain(limit, 2 * len, 0))
  {
    var len := limit.Length();
    EdgeBuckets(limit);
    OtherBucketRestarts(Plain(limit, len - 1, 0), Plain(limit, len, 0));
    OtherBucketRestarts(Plain(limit, len, 0), Plain(limit, 2 * len, 0));
    OtherBucketRestarts(Plain(limit, len - 1, 0), Plain(limit, 2 * len, 0));
  }

  /**
   * The limiter is not a sliding window: for every limit there is a run without failures or delays
   * that lets through 2R calls within two nanoseconds around a bucket boundary.
   */
  lemma TwiceTheLimitAtOnce(limit: Limit) returns (calls: seq<Call>)
    requires limit.Enforced()
    ensures Flawless(calls, Org, "", limit, 0)
    ensures var edge := limit.Length(); AllowedBetween(calls, Org, "", edge - 1, edge + 1) == 2 * limit.requests
  {
    var len := limit.Length();
    var a, b, c := Plain(limit, len - 1, 0), Plain(limit, len, 0), Plain(limit, 2 * len, 0);
    EdgeBursts(limit);
    calls := Three(limit, a, b, c);
    ThreeFlawless(limit, 0, a, b, c);
    ThreeInInterval(limit, 0, a, b, c, len - 1, len + 1);
  }

  /** With a fractional window an interval one window long can meet three buckets and let through 3R calls. */
  lemma ThriceTheLimit(limit: Limit) returns (calls: seq<Call>)
    requires limit.Enforced() && limit.window >= SECOND && limit.window % SECOND >= 2
    ensures Flawless(calls, Org, "", limit, 0)
    ensures var from := limit.Length() - 1;
      AllowedBetween(calls, Org, "", from, from + limit.window) == 3 * limit.requests
  {
    var len := limit.Length();
    var a, b, c := Plain(limit, len - 1, 0), Plain(limit, len, 0), Plain(limit, 2 * len, 0);
    EdgeBursts(limit);
    calls := Three(limit, a, b, c);
    ThreeFlawless(limit, 0, a, b, c);
    ThreeInInterval(limit, 0, a, b, c, len - 1, len - 1 + limit.window);
  }

  /**
   * Below one second the counter expires within the sixty-second bucket: a burst at once, one after a
   * second and one after two, all let through.
   */
  lemma SubSecondBreaksLimit(limit: Limit) returns (calls: seq<Call>)
    requires limit.Enforced() && limit.window < SECOND
    ensures Flawless(calls, Org, "", limit, 0)
    ensures Allowed(calls, Subject(Org, "", limit, 0)) == 3 * limit.requests
  {
    var s := Subject(Org, "", limit, 0);
    var a, b, c := Plain(limit, 0, 0), Plain(limit, SECOND, 0), Plain(limit, 2 * SECOND, 0);
    ExpiryAndLength(limit);
    BucketSpan(limit, 0, 0);
    BucketSpan(limit, SECOND, 0);
    BucketSpan(limit, 2 * SECOND, 0);
    calls := Three(limit, a, b, c);
    ThreeFlawless(limit, 0, a, b, c);
    ThreeInBucket(limit, 0, a, b, c, s);
  }

  // ----- the limit per bucket -----

  /** Without failures no bucket lets through more than the limit, whatever the order of arrival. */
  ghost predicate KeepsLimit(limit: Limit, delay: nat) {
    forall calls, s: Subject ::
      s.limit == limit && Regular(calls, s.scope, s.id, limit, delay) && Failures(calls, s) == 0
      ==> Allowed(calls, s) <= limit.requests
  }

  /** A late call of the bucket can find the counter expired. */
  lemma LateRestart(limit: Limit, delay: nat) returns (calls: seq<Call>)
    requires limit.Enforced() && !limit.Outlives(delay)
    ensures Flawless(calls, Org, "", limit, delay)
    ensures Allowed(calls, Subject(Org, "", limit, 0)) == 2 * limit.requests
  {
    var len, s := limit.Length(), Subject(Org, "", limit, 0);
    var a, b, c := Plain(limit, 0, 0), Plain(limit, len - 1, delay), Plain(limit, 2 * len, delay);
    BucketSpan(limit, 0, 0);
    EdgeBuckets(limit);
    OtherBucketRestarts(a, c);
    OtherBucketRestarts(b, c);
    calls := Three(limit, a, b, c);
    ThreeFlawless(limit, delay, a, b, c);
    ThreeInBucket(limit, delay, a, b, c, s);
  }

  /** Exactly when the limiter keeps its limit per bucket: bucket length and delay together fit the expiry. */
  lemma KeepsLimitExactly(limit: Limit, delay: nat)
    requires limit.Enforced()
    ensures KeepsLimit(limit, delay) <==> limit.Length() + delay <= limit.Expiry()
  {
    if limit.Outlives(delay) {
      forall calls, s: Subject
        | s.limit == limit && Regular(calls, s.scope, s.id, limit, delay) && Failures(calls, s) == 0
        ensures Allowed(calls, s) <= limit.requests
      {
        BucketLimit(calls, s, delay);
      }
    } else {
      var calls := LateRestart(limit, delay);
      AllDoneNeverFails(calls, Subject(Org, "", limit, 0));
    }
  }

  // ----- calls of one bucket that arrive within one expiry -----

  /** Calls of a subject by clock sample, `[from, to)`, and by arrival, `[since, until)`. */
  datatype Span = Span(scope: Scope, id: string, from: nat, to: nat, since: nat, until: nat) {
    predicate Box(now: nat, at: nat) {
      from <= now < to && since <= at < until
    }

    predicate Holds(c: Call) {
      c.scope == scope && c.id == id && Box(c.now, c.at)
    }
  }

  function Within(calls: seq<Call>, w: Span): nat {
    var n := |calls|;
    if n == 0 then 0 else Within(calls[..n - 1], w) + if w.Holds(calls[n - 1]) then 1 else 0
  }

  function AllowedWithin(calls: seq<Call>, w: Span): nat {
    var n := |calls|;
    if n == 0 then 0
    else AllowedWithin(calls[..n - 1], w) + if w.Holds(calls[n - 1]) && LastAllowed(calls) then 1 else 0
  }

  lemma {:induction false} AllowedAreWithin(calls: seq<Call>, w: Span)
    ensures AllowedWithin(calls, w) <= Within(calls, w)
    decreases |calls|
  {
    if calls != [] {
      AllowedAreWithin(calls[..|calls| - 1], w);
    }
  }

  lemma {:induction false} SomeHeld(calls: seq<Call>, w: Span)
    requires Within(calls, w) > 0
    ensures exists k :: 0 <= k < |calls| && w.Holds(calls[k])
    decreases |calls|
  {
    var n := |calls| - 1;
    if !w.Holds(calls[n]) {
      SomeHeld(calls[..n], w);
      var k :| 0 <= k < n && w.Holds(calls[..n][k]);
      assert calls[k] == calls[..n][k];
    }
  }

  /** All of the span lies in the bucket, and the span is no longer than a counter lives. */
  ghost predicate Fits(w: Span, s: Subject) {
    && w.scope == s.scope && w.id == s.id && w.until <= w.since + s.limit.Expiry()
    && forall t: nat :: w.from <= t < w.to ==> Bucket(s.limit, t) == s.bucket
  }

  /** After `n` calls of the span the counter stands at `n` at least, until the span is over. */
  ghost predicate Counts(store: Store, s: Subject, w: Span, n: nat) {
    var key := Key(s.scope, s.id, s.bucket);
    n > 0 ==> key in store && store[key].count >= n && store[key].expiry.Some?
              && store[key].expiry.value >= w.since + s.limit.Expiry()
  }

  lemma CountsOther(store: Store, c: Call, s: Subject, delay: nat, w: Span, n: nat)
    requires RegularCall(c, s, delay) && !s.Covers(c) && Counts(store, s, w, n)
    ensures Counts(AfterCall(store, c), s, w, n)
  {
    OtherKey(c, s, delay);
  }

  lemma CountsOwn(store: Store, c: Call, s: Subject, delay: nat, w: Span, n: nat)
    requires s.limit.Enforced() && RegularCall(c, s, delay) && s.Covers(c) && c.outcome.Done? && Fits(w, s)
    requires c.at < w.until && (n > 0 ==> w.since <= c.at) && Counts(store, s, w, n)
    ensures Counts(AfterCall(store, c), s, w, n + if w.Holds(c) then 1 else 0)
  {
  }

  ghost predicate ArrivedBefore(calls: seq<Call>, w: Span) {
    forall k :: 0 <= k < |calls| && calls[k].scope == w.scope && calls[k].id == w.id ==> calls[k].at < w.until
  }

  lemma {:induction false} CountsTrack(calls: seq<Call>, s: Subject, delay: nat, w: Span)
    requires s.limit.Enforced() && Flawless(calls, s.scope, s.id, s.limit, delay)
    requires Fits(w, s) && ArrivedBefore(calls, w)
    ensures Counts(StoreAfter(calls), s, w, Within(calls, w))
    decreases |calls|
  {
    if calls != [] {
      var before, c := calls[..|calls| - 1], calls[|calls| - 1];
      CountsTrack(before, s, delay, w);
      if !s.Covers(c) {
        CountsOther(StoreAfter(before), c, s, delay, w, Within(before, w));
      } else {
        if Within(before, w) > 0 {
          SomeHeld(before, w);
          var k :| 0 <= k < |before| && w.Holds(before[k]);
          assert calls[k] == before[k];
        }
        CountsOwn(StoreAfter(before), c, s, delay, w, Within(before, w));
      }
    }
  }

  /** Such calls are let through R times at most. */
  lemma {:induction false} SpanLimit(calls: seq<Call>, s: Subject, delay: nat, w: Span)
    requires s.limit.Enforced() && Flawless(calls, s.scope, s.id, s.limit, delay) && Fits(w, s)
    ensures AllowedWithin(calls, w) <= s.limit.requests
    decreases |calls|
  {
    if calls != [] {
      var n := |calls| - 1;
      SpanLimit(calls[..n], s, delay, w);
      if w.Holds(calls[n]) && LastAllowed(calls) {
        CountsTrack(calls, s, delay, w);
        AllowedAreWithin(calls, w);
      }
    }
  }

  // ----- the limit per interval -----

  /** Without failures no interval one window long lets through more than twice the limit. */
  ghost predicate KeepsTwiceTheLimit(limit: Limit, delay: nat) {
    forall calls, scope, id, from: nat, to: nat ::
      Flawless(calls, scope, id, limit, delay) && to == from + limit.window
      ==> AllowedBetween(calls, scope, id, from, to) <= 2 * limit.requests
  }

  /** An interval one window long never meets three buckets. */
  predicate MeetsTwoBuckets(limit: Limit) {
    limit.window < SECOND || limit.window % SECOND <= 1
  }

  /** The delay is too short for a third burst within one window. */
  predicate TooSoonToRestart(limit: Limit, delay: nat) {
    if limit.window == 1 then delay < 2 * limit.Expiry() else limit.window + delay < limit.Expiry() + 2
  }

  /** What both spans miss is not in the interval. */
  ghost predicate Cover(v: Span, w: Span, from: nat, to: nat, delay: nat) {
    forall now: nat, at: nat :: from <= now < to && now <= at <= now + delay ==> v.Box(now, at) || w.Box(now, at)
  }

  lemma {:induction false} CoveredCalls(
    calls: seq<Call>, limit: Limit, delay: nat, v: Span, w: Span, from: nat, to: nat)
    requires v.scope == w.scope && v.id == w.id && Regular(calls, v.scope, v.id, limit, delay)
    requires Cover(v, w, from, to, delay)
    ensures AllowedBetween(calls, v.scope, v.id, from, to) <= AllowedWithin(calls, v) + AllowedWithin(calls, w)
    decreases |calls|
  {
    if calls != [] {
      var n := |calls| - 1;
      var c := calls[n];
      CoveredCalls(calls[..n], limit, delay, v, w, from, to);
      assert c.scope == v.scope && c.id == v.id && from <= c.now < to ==> v.Box(c.now, c.at) || w.Box(c.now, c.at);
    }
  }

  lemma WindowWithinBucketAndOne(limit: Limit)
    requires limit.Enforced() && MeetsTwoBuckets(limit)
    ensures limit.window <= limit.Length() + 1
  {
    ExpiryAndLength(limit);
    assert limit.window >= SECOND ==> limit.window == limit.Length() + limit.window % SECOND;
  }

  /** Where an interval one window long is cut: at the bucket boundary, if it contains one. */
  lemma CutInterval(limit: Limit, from: nat) returns (cut: nat, later: nat)
    requires limit.Enforced() && MeetsTwoBuckets(limit) && limit.window >= 2
    ensures from < cut < from + limit.window
    ensures forall t: nat :: from <= t < cut ==> Bucket(limit, t) == Bucket(limit, from)
    ensures forall t: nat :: cut <= t < from + limit.window ==> Bucket(limit, t) == later
  {
    var len, b := limit.Length(), Bucket(limit, from);
    var edge := (b + 1) * len;
    WindowWithinBucketAndOne(limit);
    BucketSpan(limit, from, b);
    assert (b + 2) * len == edge + len;
    if edge < from + limit.window {
      cut, later := edge, b + 1;
    } else {
      cut, later := from + 1, b;
    }
    forall t: nat | from <= t < cut ensures Bucket(limit, t) == b {
      BucketSpan(limit, t, b);
    }
    forall t: nat | cut <= t < from + limit.window ensures Bucket(limit, t) == later {
      BucketSpan(limit, t, later);
    }
  }

  lemma CutSpans(limit: Limit, delay: nat, scope: Scope, id: string, from: nat) returns (v: Span, w: Span, later: nat)
    requires limit.Enforced() && MeetsTwoBuckets(limit) && TooSoonToRestart(limit, delay)
    ensures v.scope == w.scope == scope && v.id == w.id == id && Cover(v, w, from, from + limit.window, delay)
    ensures Fits(v, Subject(scope, id, limit, Bucket(limit, from))) && Fits(w, Subject(scope, id, limit, later))
  {
    var to, life := from + limit.window, limit.Expiry();
    ExpiryAndLength(limit);
    if limit.window == 1 {
      later := Bucket(limit, from);
      v := Span(scope, id, from, to, from, from + life);
      w := Span(scope, id, from, to, from + life, from + 2 * life);
    } else {
      var cut: nat;
      cut, later := CutInterval(limit, from);
      v := Span(scope, id, from, cut, from, from + life);
      w := Span(scope, id, cut, to, cut, cut + life);
    }
  }

  lemma TwiceTheLimitAtMost(
    calls: seq<Call>, scope: Scope, id: string, limit: Limit, delay: nat, from: nat, to: nat)
    requires limit.Enforced() && MeetsTwoBuckets(limit) && TooSoonToRestart(limit, delay)
    requires Flawless(calls, scope, id, limit, delay) && to == from + limit.window
    ensures AllowedBetween(calls, scope, id, from, to) <= 2 * limit.requests
  {
    var v, w, later := CutSpans(limit, delay, scope, id, from);
    CoveredCalls(calls, limit, delay, v, w, from, to);
    SpanLimit(calls, Subject(scope, id, limit, Bucket(limit, from)), delay, v);
    SpanLimit(calls, Subject(scope, id, limit, later), delay, w);
  }

  lemma LateThirdBurst(limit: Limit, delay: nat, from: nat)
    requires limit.Enforced() && MeetsTwoBuckets(limit) && limit.window >= 2 && !TooSoonToRestart(limit, delay)
    requires from + limit.window == limit.Length() + 1
    ensures Bursts(limit, delay, Plain(limit, from, 0), Plain(limit, limit.Length(), 0),
                   Plain(limit, limit.Length() - 1, delay))
  {
    var edge := limit.Length();
    var a, b, c := Plain(limit, from, 0), Plain(limit, edge, 0), Plain(limit, edge - 1, delay);
    ExpiryAndLength(limit);
    BucketSpan(limit, from, 0);
    EdgeBuckets(limit);
    OtherBucketRestarts(a, b);
    OtherBucketRestarts(b, c);
  }

  /** A call of the first bucket that comes late starts a second count of it, beside the next bucket's. */
  lemma ThriceWhenLate(limit: Limit, delay: nat) returns (calls: seq<Call>)
    requires limit.Enforced() && MeetsTwoBuckets(limit) && limit.window >= 2 && !TooSoonToRestart(limit, delay)
    ensures Flawless(calls, Org, "", limit, delay)
    ensures var edge := limit.Length();
      edge + 1 - limit.window >= 0
      && AllowedBetween(calls, Org, "", edge + 1 - limit.window, edge + 1) == 3 * limit.requests
  {
    var edge := limit.Length();
    WindowWithinBucketAndOne(limit);
    var from: nat := edge + 1 - limit.window;
    var a, b, c := Plain(limit, from, 0), Plain(limit, edge, 0), Plain(limit, edge - 1, delay);
    LateThirdBurst(limit, delay, from);
    calls := Three(limit, a, b, c);
    ThreeFlawless(limit, delay, a, b, c);
    ThreeInInterval(limit, delay, a, b, c, from, edge + 1);
  }

  /** A window of one nanosecond holds one clock sample; two late arrivals start a second and a third count. */
  lemma LateBursts(limit: Limit, delay: nat) returns (calls: seq<Call>)
    requires limit.Enforced() && limit.window == 1 && !TooSoonToRestart(limit, delay)
    ensures Flawless(calls, Org, "", limit, delay)
    ensures AllowedBetween(calls, Org, "", 0, limit.window) == 3 * limit.requests
  {
    ExpiryAndLength(limit);
    var a, b, c := Plain(limit, 0, 0), Plain(limit, 0, SECOND), Plain(limit, 0, 2 * SECOND);
    calls := Three(limit, a, b, c);
    ThreeFlawless(limit, delay, a, b, c);
    ThreeInInterval(limit, delay, a, b, c, 0, 1);
  }

  lemma ThriceBreaks(limit: Limit, delay: nat, calls: seq<Call>, from: nat, to: nat)
    requires limit.Enforced() && Flawless(calls, Org, "", limit, delay) && to == from + limit.window
    requires AllowedBetween(calls, Org, "", from, to) == 3 * limit.requests
    ensures !KeepsTwiceTheLimit(limit, delay)
  {
  }

  /** Exactly when it does: no interval meets three buckets, and no call comes so late that it starts a new count. */
  lemma KeepsTwiceTheLimitExactly(limit: Limit, delay: nat)
    requires limit.Enforced()
    ensures KeepsTwiceTheLimit(limit, delay) <==> MeetsTwoBuckets(limit) && TooSoonToRestart(limit, delay)
  {
    if !MeetsTwoBuckets(limit) {
      var calls := ThriceTheLimit(limit);
      ThriceBreaks(limit, delay, calls, limit.Length() - 1, limit.Length() - 1 + limit.window);
    } else if TooSoonToRestart(limit, delay) {
      forall calls, scope, id, from: nat, to: nat
        | Flawless(calls, scope, id, limit, delay) && to == from + limit.window
        ensures AllowedBetween(calls, scope, id, from, to) <= 2 * limit.requests
      {
        TwiceTheLimitAtMost(calls, scope, id, limit, delay, from, to);
      }
    } else if limit.window == 1 {
      var calls := LateBursts(limit, delay);
      ThriceBreaks(limit, delay, calls, 0, limit.window);
    } else {
      var calls := ThriceWhenLate(limit, delay);
      ThriceBreaks(limit, delay, calls, limit.Length() + 1 - limit.window, limit.Length() + 1);
    }
  }

  /**
   * In terms of the window alone: what holds when calls arrive at once, and that a window of at least
   * a second also bears delays of a whole bucket.
   */
  lemma WindowDecides(limit: Limit)
    requires limit.Enforced()
    ensures KeepsLimit(limit, 0) <==> limit.window >= SECOND
    ensures KeepsTwiceTheLimit(limit, 0) <==> limit.window < SECOND || limit.window % SECOND <= 1
    ensures limit.window >= SECOND ==> KeepsLimit(limit, limit.Length())
    ensures limit.window >= SECOND && limit.window % SECOND <= 1 ==> KeepsTwiceTheLimit(limit, limit.Length())
  {
    ExpiryAndLength(limit);
    KeepsLimitExactly(limit, 0);
    KeepsLimitExactly(limit, limit.Length());
    KeepsTwiceTheLimitExactly(limit, 0);
    KeepsTwiceTheLimitExactly(limit, limit.Length());
    if MeetsTwoBuckets(limit) {
      WindowWithinBucketAndOne(limit);
    }
  }
}
