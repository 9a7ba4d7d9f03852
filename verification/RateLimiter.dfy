/**
 * The fixed-window rate limiter over a Redis counter with expiry. Times and durations are in
 * nanoseconds; a call samples the gateway clock (`now`) and reaches Redis a little later (`at`).
 */
module RateLimiter {
  import opened Wrappers
  import opened Strings

  const SECOND: int := 1_000_000_000

  // ----- the counter store -----

  datatype Entry = Entry(count: nat, expiry: Option<int>)

  type Store = map<string, Entry>

  /** How the INCR + EXPIRE pipeline ends; an error may hide that one or both commands ran. */
  datatype Outcome = Done | LostBefore | LostAfterIncr | LostAfterBoth

  predicate Alive(store: Store, key: string, at: int) {
    key in store && (store[key].expiry.None? || at < store[key].expiry.value)
  }

  function Increment(store: Store, key: string, at: int): Store {
    if Alive(store, key, at) then store[key := Entry(store[key].count + 1, store[key].expiry)]
    else store[key := Entry(1, None)]
  }

  /** EXPIRE takes whole seconds, at least one. */
  function ExpirySeconds(ttl: int): int {
    if 0 < ttl < SECOND then 1 else ttl / SECOND
  }

  function Expire(store: Store, key: string, ttl: int, at: int): Store
    requires key in store
  {
    store[key := Entry(store[key].count, Some(at + ExpirySeconds(ttl) * SECOND))]
  }

  function AfterPipeline(store: Store, key: string, ttl: int, at: int, outcome: Outcome): Store {
    match outcome
    case LostBefore => store
    case LostAfterIncr => Increment(store, key, at)
    case _ => Expire(Increment(store, key, at), key, ttl, at)
  }

  /**
   * The pipeline: a live counter goes up by one, a missing or expired one starts at one, and every
   * hit that gets as far as the second command moves the expiry; other counters stay.
   */
  lemma PipelineExactly(store: Store, key: string, ttl: int, at: int, outcome: Outcome)
    ensures var after := AfterPipeline(store, key, ttl, at, outcome);
      && after - {key} == store - {key}
      && (outcome == LostBefore ==> after == store)
      && (outcome != LostBefore ==>
            var live := key in store && (store[key].expiry == None || at < store[key].expiry.value);
            && key in after
            && after[key].count == (if live then store[key].count + 1 else 1)
            && (outcome == LostAfterIncr ==> after[key].expiry == if live then store[key].expiry else None)
            && (outcome != LostAfterIncr && ttl >= SECOND ==>
                  after[key].expiry.Some? && after[key].expiry.value <= at + ttl < after[key].expiry.value + SECOND)
            && (outcome != LostAfterIncr && 0 < ttl < SECOND ==> after[key].expiry == Some(at + SECOND)))
  {
  }

  class RedisClient {
    var entries: Store

    constructor ()
      ensures entries == map[]
    {
      entries := map[];
    }

    method IncrementWithExpiry(key: string, ttl: int, at: int, outcome: Outcome) returns (r: Option<int>)
      modifies this
      ensures entries == AfterPipeline(old(entries), key, ttl, at, outcome)
      ensures r == if outcome.Done? then Some(entries[key].count) else None
    {
      if outcome.LostBefore? {
        return None;
      }
      if key in entries && (entries[key].expiry.None? || at < entries[key].expiry.value) {
        entries := entries[key := entries[key].(count := entries[key].count + 1)];
      } else {
        entries := entries[key := Entry(1, None)];
      }
      var count := entries[key].count;
      if outcome.LostAfterIncr? {
        return None;
      }
      entries := entries[key := Entry(count, Some(at + ExpirySeconds(ttl) * SECOND))];
      if outcome.Done? {
        r := Some(count);
      } else {
        r := None;
      }
    }
  }

  // ----- the limiter -----

  datatype Scope = Org | Project | ApiKey | Provider | Model {
    function Name(): string {
      match this
      case Org => "org"
      case Project => "project"
      case ApiKey => "key"
      case Provider => "provider"
      case Model => "model"
    }
  }

  datatype Limit = Limit(requests: int, window: int) {
    predicate Enforced() {
      requests > 0 && window > 0
    }

    /** The bucket length in seconds. */
    function WindowSeconds(): (s: int)
      ensures s > 0
    {
      if window / SECOND <= 0 then 60 else window / SECOND
    }

    function Length(): (n: int)
      ensures n >= SECOND
    {
      WindowSeconds() * SECOND
    }

    /** How long a counter lives after its last hit. */
    function Expiry(): int {
      ExpirySeconds(window * 2) * SECOND
    }

    /** A counter that was hit in a bucket is alive for every later call of the bucket. */
    predicate Outlives(delay: nat) {
      Length() + delay <= Expiry()
    }
  }

  datatype Call = Call(scope: Scope, id: string, limit: Limit, now: nat, at: nat, outcome: Outcome)

  datatype Verdict = Verdict(allowed: bool, remaining: int, limit: int, resetAt: int)

  function Bucket(limit: Limit, now: nat): nat {
    now / SECOND / limit.WindowSeconds()
  }

  function Key(scope: Scope, id: string, bucket: nat): string {
    "ratelimit:" + scope.Name() + ":" + id + ":" + Decimal(bucket)
  }

  function KeyOf(c: Call): string {
    Key(c.scope, c.id, Bucket(c.limit, c.now))
  }

  function AfterCall(store: Store, c: Call): Store {
    if c.limit.Enforced() then AfterPipeline(store, KeyOf(c), c.limit.window * 2, c.at, c.outcome) else store
  }

  /** The verdict for a call that leaves `after` behind. */
  function VerdictOf(c: Call, after: Store): Verdict {
    if !c.limit.Enforced() then Verdict(true, 999999, c.limit.requests, c.now + 60 * SECOND)
    else if !c.outcome.Done? || KeyOf(c) !in after then
      Verdict(true, c.limit.requests, c.limit.requests, c.now + c.limit.window)
    else
      var count := after[KeyOf(c)].count;
      var left := c.limit.requests - count;
      Verdict(count <= c.limit.requests, if left < 0 then 0 else left, c.limit.requests,
              (Bucket(c.limit, c.now) + 1) * c.limit.Length())
  }

  /** The verdict on a call whose counter stands at `count`: the next bucket starts at `resetAt`. */
  ghost predicate Counted(c: Call, count: nat, v: Verdict) {
    && (v.allowed <==> count <= c.limit.requests)
    && v.limit == c.limit.requests
    && v.remaining == (if count < c.limit.requests then c.limit.requests - count else 0)
    && v.resetAt % c.limit.Length() == 0 && v.resetAt - c.limit.Length() <= c.now < v.resetAt
  }

  /** The verdict on a call that was counted, in terms of the counter it left. */
  lemma CountedExactly(c: Call, after: Store)
    requires c.limit.requests > 0 && c.limit.window > 0 && c.outcome.Done? && KeyOf(c) in after
    ensures Counted(c, after[KeyOf(c)].count, VerdictOf(c, after))
  {
    NextBucket(c.limit, c.now);
  }

  /** The next bucket starts at a multiple of the bucket length, in at most one bucket length. */
  lemma NextBucket(limit: Limit, now: nat)
    ensures var next := (Bucket(limit, now) + 1) * limit.Length();
      next % limit.Length() == 0 && next - limit.Length() <= now < next
  {
    var w := limit.WindowSeconds();
    var q, b := now / SECOND, Bucket(limit, now);
    assert b * w <= q < (b + 1) * w by { QuotientBounds(q, w); }
    assert q * SECOND <= now < (q + 1) * SECOND;
    Scaled(b * w, q, SECOND);
    Scaled(q + 1, (b + 1) * w, SECOND);
    Reassociate(b, w);
    Reassociate(b + 1, w);
    MultipleOf(b + 1, limit.Length());
    assert (b + 1) * limit.Length() == b * limit.Length() + limit.Length();
  }

  lemma QuotientBounds(x: nat, d: nat)
    requires d > 0
    ensures x / d * d <= x < (x / d + 1) * d
  {
  }

  lemma Scaled(a: int, b: int, d: nat)
    requires a <= b
    ensures a * d <= b * d
  {
  }

  lemma Reassociate(b: nat, w: int)
    ensures b * w * SECOND == b * (w * SECOND)
  {
  }

  lemma MultipleOf(n: int, d: nat)
    requires d > 0
    ensures n * d % d == 0
  {
    var q, r := n * d / d, n * d % d;
    assert n * d == q * d + r && 0 <= r < d;
    assert (n - q) * d == n * d - q * d;
    if n - q >= 1 {
      Scaled(1, n - q, d);
    } else if n - q <= -1 {
      Scaled(n - q, -1, d);
    }
  }

  class Limiter {
    const cache: RedisClient?

    constructor (cache: RedisClient?)
      ensures this.cache == cache
    {
      this.cache := cache;
    }

    method Check(c: Call) returns (v: Verdict)
      modifies cache
      ensures cache != null ==> cache.entries == AfterCall(old(cache.entries), c) && v == VerdictOf(c, cache.entries)
      ensures c.limit.requests <= 0 || c.limit.window <= 0 ==>
        && v == Verdict(true, 999999, c.limit.requests, c.now + 60 * SECOND)
        && (cache != null ==> cache.entries == old(cache.entries))
      ensures c.limit.requests > 0 && c.limit.window > 0 && (cache == null || c.outcome != Done) ==>
        v == Verdict(true, c.limit.requests, c.limit.requests, c.now + c.limit.window)
    {
      if c.limit.requests <= 0 || c.limit.window <= 0 {
        return Verdict(true, 999999, c.limit.requests, c.now + 60 * SECOND);
      }
      if cache == null {
        return Verdict(true, c.limit.requests, c.limit.requests, c.now + c.limit.window);
      }
      var windowSeconds := c.limit.window / SECOND;
      if windowSeconds <= 0 {
        windowSeconds := 60;
      }
      var currentBucket := c.now / SECOND / windowSeconds;
      var key := Key(c.scope, c.id, currentBucket);
      var r := cache.IncrementWithExpiry(key, c.limit.window * 2, c.at, c.outcome);
      if r.None? {
        return Verdict(true, c.limit.requests, c.limit.requests, c.now + c.limit.window);
      }
      var remaining := c.limit.requests - r.value;
      if remaining < 0 {
        remaining := 0;
      }
      CountedVerdict(c, cache.entries, r.value, windowSeconds, currentBucket);
      v := Verdict(r.value <= c.limit.requests, remaining, c.limit.requests,
                   (currentBucket + 1) * (windowSeconds * SECOND));
    }
  }

  lemma CountedVerdict(c: Call, after: Store, count: nat, windowSeconds: nat, bucket: nat)
    requires c.limit.Enforced() && c.outcome.Done? && windowSeconds == c.limit.WindowSeconds()
    requires bucket == Bucket(c.limit, c.now) && KeyOf(c) in after && after[KeyOf(c)].count == count
    ensures VerdictOf(c, after)
         == Verdict(count <= c.limit.requests, if c.limit.requests < count then 0 else c.limit.requests - count,
                    c.limit.requests, (bucket + 1) * (windowSeconds * SECOND))
  {
  }

  // ----- traces of calls -----

  function StoreAfter(calls: seq<Call>): Store {
    var n := |calls|;
    if n == 0 then map[] else AfterCall(StoreAfter(calls[..n - 1]), calls[n - 1])
  }

  /** The verdict the last call of a trace receives. */
  predicate LastAllowed(calls: seq<Call>)
    requires calls != []
  {
    VerdictOf(calls[|calls| - 1], StoreAfter(calls)).allowed
  }

  /** A rate-limited subject and one of its buckets. */
  datatype Subject = Subject(scope: Scope, id: string, limit: Limit, bucket: nat) {
    predicate Covers(c: Call) {
      c.scope == scope && c.id == id && Bucket(limit, c.now) == bucket
    }
  }

  /** Calls of the bucket that advanced the counter. */
  function Hits(calls: seq<Call>, s: Subject): nat {
    var n := |calls|;
    if n == 0 then 0
    else
      Hits(calls[..n - 1], s) + if s.Covers(calls[n - 1]) && !calls[n - 1].outcome.LostBefore? then 1 else 0
  }

  /** Calls of the bucket whose error left the counter advanced. */
  function LostHits(calls: seq<Call>, s: Subject): nat {
    var n := |calls|;
    if n == 0 then 0
    else
      var c := calls[n - 1];
      LostHits(calls[..n - 1], s)
      + if s.Covers(c) && (c.outcome.LostAfterIncr? || c.outcome.LostAfterBoth?) then 1 else 0
  }

  function Failures(calls: seq<Call>, s: Subject): nat {
    var n := |calls|;
    if n == 0 then 0
    else Failures(calls[..n - 1], s) + if s.Covers(calls[n - 1]) && !calls[n - 1].outcome.Done? then 1 else 0
  }

  function Total(calls: seq<Call>, s: Subject): nat {
    var n := |calls|;
    if n == 0 then 0 else Total(calls[..n - 1], s) + if s.Covers(calls[n - 1]) then 1 else 0
  }

  /** Calls of the bucket that were let through. */
  function Allowed(calls: seq<Call>, s: Subject): nat {
    var n := |calls|;
    if n == 0 then 0
    else Allowed(calls[..n - 1], s) + if s.Covers(calls[n - 1]) && LastAllowed(calls) then 1 else 0
  }

  /** One limit per subject, and Redis sees each of its calls within `delay` of the clock sample, in any order. */
  predicate Regular(calls: seq<Call>, scope: Scope, id: string, limit: Limit, delay: nat) {
    forall k :: 0 <= k < |calls| && calls[k].scope == scope && calls[k].id == id ==>
      calls[k].limit == limit && calls[k].now <= calls[k].at <= calls[k].now + delay
  }

  /** Redis's own clock does not go back between calls of the subject. */
  predicate Ordered(calls: seq<Call>, scope: Scope, id: string) {
    forall j, k :: 0 <= j < k < |calls| && calls[j].scope == calls[k].scope == scope && calls[j].id == calls[k].id == id
      ==> calls[j].at <= calls[k].at
  }

  // ----- keys do not collide -----

  lemma NameHasNoColon(scope: Scope)
    ensures ':' !in scope.Name()
  {
  }

  lemma NameInjective(s: Scope, s': Scope)
    requires s.Name() == s'.Name()
    ensures s == s'
  {
    assert "org" != "key" && |"project"| == 7 && |"provider"| == 8 && |"model"| == 5;
  }

  lemma KeyParts(scope: Scope, id: string, b: nat)
    ensures Key(scope, id, b) == "ratelimit:" + (scope.Name() + [':'] + id) + [':'] + Decimal(b)
    ensures ':' !in Decimal(b)
  {
  }

  /** Counters of different subjects or buckets never share a key, also when ids contain colons. */
  lemma KeyInjective(scope: Scope, id: string, b: nat, scope': Scope, id': string, b': nat)
    requires Key(scope, id, b) == Key(scope', id', b')
    ensures scope == scope' && id == id' && b == b'
  {
    var rest, rest' := scope.Name() + [':'] + id, scope'.Name() + [':'] + id';
    KeyParts(scope, id, b);
    KeyParts(scope', id', b');
    SplitAtLast("ratelimit:" + rest, "ratelimit:" + rest', Decimal(b), Decimal(b'), ':');
    DecimalInjective(b, b');
    assert ("ratelimit:" + rest)[10..] == rest && ("ratelimit:" + rest')[10..] == rest';
    NameHasNoColon(scope);
    NameHasNoColon(scope');
    SplitAtFirst(scope.Name(), scope'.Name(), id, id', ':');
    NameInjective(scope, scope');
  }
}
