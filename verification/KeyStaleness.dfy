/**
 * Concurrent validations in front of a key table that changes: how long a revoked key is still
 * accepted. Every access to Redis and to the database is a step of its own.
 */
module KeyStaleness {
  import opened Wrappers
  import opened KeyStore

  /** The cache lifetime, and the longest delay between reading a row and caching it. */
  datatype Config = Config(ttl: nat, gap: nat) {
    predicate Valid() {
      ttl > 0
    }
  }

  /** Where a validation stands. */
  datatype Stage =
    | Looking(hash: string, started: int)
    | Missed(hash: string, started: int)
    | HasRow(hash: string, started: int, key: APIKey, readAt: int)
    | Judging(hash: string, started: int, key: APIKey)

  /** A key accepted at `at` by a validation that began at `started`. */
  datatype Acceptance = Acceptance(hash: string, started: int, at: int, key: APIKey)

  datatype State = State(
    now: int, table: Table, revokedAt: map<string, int>, cache: Cache, stages: map<nat, Stage>,
    accepted: seq<Acceptance>)

  datatype Event =
    | Tick(to: int)
    | Insert(hash: string, key: APIKey)
    | Revoke(id: string)
    | Start(r: nat, hash: string)
    | Hit(r: nat)
    | Miss(r: nat)
    | ReadStore(r: nat, works: bool)
    | WriteCache(r: nat, stored: bool)
    | Judge(r: nat)
    | Evict(hash: string)

  const INITIAL := State(0, map[], map[], map[], map[], [])

  predicate Enabled(c: Config, s: State, e: Event) {
    match e
    case Tick(to) => s.now <= to
    case Insert(hash, key) =>
      hash !in s.table && key.status == Active && forall h :: h in s.table ==> s.table[h].id != key.id
    case Revoke(_) => true
    case Start(r, _) => r !in s.stages
    case Hit(r) => r in s.stages && s.stages[r].Looking? && CacheGet(s.cache, s.stages[r].hash, s.now).Some?
    case Miss(r) => r in s.stages && s.stages[r].Looking?
    case ReadStore(r, _) => r in s.stages && s.stages[r].Missed?
    case WriteCache(r, _) => r in s.stages && s.stages[r].HasRow? && s.now <= s.stages[r].readAt + c.gap
    case Judge(r) => r in s.stages && s.stages[r].Judging?
    case Evict(_) => true
  }

  /** The first revocation of a key is the one that counts. */
  function NoteRevoked(s: State, id: string): map<string, int> {
    (map h | h in s.table && s.table[h].id == id :: s.now) + s.revokedAt
  }

  function Do(c: Config, s: State, e: Event): State
    requires Enabled(c, s, e)
  {
    match e
    case Tick(to) => s.(now := to)
    case Insert(hash, key) => s.(table := s.table[hash := key])
    case Revoke(id) => s.(table := WithRevoked(s.table, id), revokedAt := NoteRevoked(s, id))
    case Start(r, hash) => s.(stages := s.stages[r := Looking(hash, s.now)])
    case Hit(r) =>
      var g := s.stages[r];
      s.(stages := s.stages[r := Judging(g.hash, g.started, CacheGet(s.cache, g.hash, s.now).value)])
    case Miss(r) => s.(stages := s.stages[r := Missed(s.stages[r].hash, s.stages[r].started)])
    case ReadStore(r, works) =>
      var g := s.stages[r];
      if works && g.hash in s.table then s.(stages := s.stages[r := HasRow(g.hash, g.started, s.table[g.hash], s.now)])
      else s.(stages := s.stages - {r})
    case WriteCache(r, stored) =>
      var g := s.stages[r];
      var judging := s.(stages := s.stages[r := Judging(g.hash, g.started, g.key)]);
      if stored then judging.(cache := s.cache[g.hash := CacheEntry(g.key, s.now + c.ttl)]) else judging
    case Judge(r) =>
      var g := s.stages[r];
      var done := s.(stages := s.stages - {r});
      if ValidateKeyStatus(g.key, s.now).Accepted?
      then done.(accepted := s.accepted + [Acceptance(g.hash, g.started, s.now, g.key)])
      else done
    case Evict(hash) => s.(cache := s.cache - {hash})
  }

  /** The state after these events, if they can happen one after the other from the initial state. */
  function After(c: Config, es: seq<Event>): Option<State> {
    if es == [] then Some(INITIAL)
    else
      match After(c, es[..|es| - 1])
      case None => None
      case Some(s) => if Enabled(c, s, es[|es| - 1]) then Some(Do(c, s, es[|es| - 1])) else None
  }

  // ----- the invariant -----

  /** Copies of a key differ from its row at most in their status. */
  predicate IsCopy(s: State, hash: string, key: APIKey) {
    hash in s.table && key.SameKey(s.table[hash])
  }

  /** An active copy of a revoked key was made in time. */
  predicate Timely(s: State, hash: string, key: APIKey, time: int, slack: int) {
    hash in s.revokedAt && key.status == Active ==> time <= s.revokedAt[hash] + slack
  }

  predicate TableOk(s: State) {
    && UniqueIds(s.table)
    && forall h :: h in s.revokedAt ==> h in s.table && s.table[h].status == Revoked && s.revokedAt[h] <= s.now
  }

  predicate EntryOk(c: Config, s: State, hash: string, entry: CacheEntry) {
    && IsCopy(s, hash, entry.key)
    && entry.expiry <= s.now + c.ttl
    && Timely(s, hash, entry.key, entry.expiry, c.ttl + c.gap)
  }

  predicate StageOk(c: Config, s: State, g: Stage) {
    && g.started <= s.now
    && (g.HasRow? ==>
          IsCopy(s, g.hash, g.key) && g.started <= g.readAt <= s.now && Timely(s, g.hash, g.key, g.readAt, 0))
    && (g.Judging? ==> IsCopy(s, g.hash, g.key) && Timely(s, g.hash, g.key, g.started + 1, c.ttl + c.gap))
  }

  predicate AcceptedOk(c: Config, s: State, a: Acceptance) {
    && a.key.IsActive(a.at) && IsCopy(s, a.hash, a.key) && a.started <= a.at <= s.now
    && Timely(s, a.hash, a.key, a.started + 1, c.ttl + c.gap)
  }

  predicate Inv(c: Config, s: State) {
    && TableOk(s)
    && (forall h :: h in s.cache ==> EntryOk(c, s, h, s.cache[h]))
    && (forall r :: r in s.stages ==> StageOk(c, s, s.stages[r]))
    && (forall k :: 0 <= k < |s.accepted| ==> AcceptedOk(c, s, s.accepted[k]))
  }

  /** Time passes, rows keep their content, and a key is revoked no earlier than it was noted. */
  predicate Grows(s: State, s': State) {
    && s.now <= s'.now
    && (forall h :: h in s.table ==> h in s'.table && s.table[h].SameKey(s'.table[h]))
    && (forall h :: h in s.revokedAt ==> h in s'.revokedAt && s'.revokedAt[h] == s.revokedAt[h])
    && (forall h :: h in s'.revokedAt && h !in s.revokedAt ==> s'.revokedAt[h] >= s.now)
  }

  lemma StepGrows(c: Config, s: State, e: Event)
    requires Enabled(c, s, e)
    ensures Grows(s, Do(c, s, e))
  {
  }

  lemma StepKeepsTable(c: Config, s: State, e: Event)
    requires TableOk(s) && Enabled(c, s, e)
    ensures TableOk(Do(c, s, e))
  {
    if e.Revoke? {
      RevokeKeepsTable(c, s, e.id);
    }
  }

  lemma RevokeKeepsTable(c: Config, s: State, id: string)
    requires TableOk(s)
    ensures TableOk(Do(c, s, Revoke(id)))
  {
  }

  lemma EntryStaysOk(c: Config, s: State, s': State, hash: string, entry: CacheEntry)
    requires Grows(s, s') && EntryOk(c, s, hash, entry)
    ensures EntryOk(c, s', hash, entry)
  {
  }

  lemma StageStaysOk(c: Config, s: State, s': State, g: Stage)
    requires c.Valid() && Grows(s, s') && StageOk(c, s, g)
    ensures StageOk(c, s', g)
  {
  }

  lemma AcceptedStaysOk(c: Config, s: State, s': State, a: Acceptance)
    requires c.Valid() && Grows(s, s') && AcceptedOk(c, s, a)
    ensures AcceptedOk(c, s', a)
  {
  }

  lemma HitStageOk(c: Config, s: State, r: nat)
    requires c.Valid() && Inv(c, s) && Enabled(c, s, Hit(r))
    ensures StageOk(c, s, Do(c, s, Hit(r)).stages[r])
  {
    var g := s.stages[r];
    assert StageOk(c, s, g) && EntryOk(c, s, g.hash, s.cache[g.hash]);
  }

  lemma ReadStageOk(c: Config, s: State, e: Event)
    requires Inv(c, s) && Enabled(c, s, e) && e.ReadStore? && e.r in Do(c, s, e).stages
    ensures StageOk(c, s, Do(c, s, e).stages[e.r])
  {
    assert StageOk(c, s, s.stages[e.r]) && TableOk(s);
  }

  lemma OtherStageOk(c: Config, s: State, e: Event)
    requires c.Valid() && Inv(c, s) && Enabled(c, s, e) && (e.Start? || e.Miss? || e.WriteCache?)
    ensures StageOk(c, s, Do(c, s, e).stages[e.r])
  {
    assert e.r in s.stages ==> StageOk(c, s, s.stages[e.r]);
  }

  lemma StageChange(c: Config, s: State, e: Event, r: nat)
    requires Enabled(c, s, e) && r in Do(c, s, e).stages
    requires r !in s.stages || Do(c, s, e).stages[r] != s.stages[r]
    ensures (e.Start? || e.Hit? || e.Miss? || e.ReadStore? || e.WriteCache?) && e.r == r
  {
  }

  /** The stage a validation enters next satisfies its condition. */
  lemma NewStageOk(c: Config, s: State, e: Event, r: nat)
    requires c.Valid() && Inv(c, s) && Enabled(c, s, e) && r in Do(c, s, e).stages
    requires r !in s.stages || Do(c, s, e).stages[r] != s.stages[r]
    ensures StageOk(c, s, Do(c, s, e).stages[r])
  {
    StageChange(c, s, e, r);
    if e.Hit? {
      HitStageOk(c, s, r);
    } else if e.ReadStore? {
      ReadStageOk(c, s, e);
    } else {
      OtherStageOk(c, s, e);
    }
  }

  lemma NewEntryOk(c: Config, s: State, e: Event, hash: string)
    requires c.Valid() && Inv(c, s) && Enabled(c, s, e) && hash in Do(c, s, e).cache
    requires hash !in s.cache || Do(c, s, e).cache[hash] != s.cache[hash]
    ensures EntryOk(c, s, hash, Do(c, s, e).cache[hash])
  {
    assert StageOk(c, s, s.stages[e.r]);
  }

  lemma NewAcceptanceOk(c: Config, s: State, e: Event)
    requires c.Valid() && Inv(c, s) && Enabled(c, s, e) && |Do(c, s, e).accepted| > |s.accepted|
    ensures Do(c, s, e).accepted[..|s.accepted|] == s.accepted
    ensures |Do(c, s, e).accepted| == |s.accepted| + 1 && AcceptedOk(c, s, Do(c, s, e).accepted[|s.accepted|])
  {
    assert StageOk(c, s, s.stages[e.r]);
  }

  lemma StepKeepsInv(c: Config, s: State, e: Event)
    requires c.Valid() && Inv(c, s) && Enabled(c, s, e)
    ensures Inv(c, Do(c, s, e))
  {
    var s' := Do(c, s, e);
    StepGrows(c, s, e);
    StepKeepsTable(c, s, e);
    forall h | h in s'.cache ensures EntryOk(c, s', h, s'.cache[h]) {
      if h !in s.cache || s'.cache[h] != s.cache[h] {
        NewEntryOk(c, s, e, h);
      }
      EntryStaysOk(c, s, s', h, s'.cache[h]);
    }
    forall r | r in s'.stages ensures StageOk(c, s', s'.stages[r]) {
      if r !in s.stages || s'.stages[r] != s.stages[r] {
        NewStageOk(c, s, e, r);
      }
      StageStaysOk(c, s, s', s'.stages[r]);
    }
    AcceptancesKept(c, s, e);
    forall k | 0 <= k < |s'.accepted| ensures AcceptedOk(c, s', s'.accepted[k]) {
      if |s'.accepted| > |s.accepted| {
        NewAcceptanceOk(c, s, e);
        assert k < |s.accepted| ==> s'.accepted[k] == s.accepted[k];
      }
      AcceptedStaysOk(c, s, s', s'.accepted[k]);
    }
  }

  lemma AcceptancesKept(c: Config, s: State, e: Event)
    requires Enabled(c, s, e)
    ensures |Do(c, s, e).accepted| > |s.accepted| || Do(c, s, e).accepted == s.accepted
  {
  }

  lemma {:induction false} RunKeepsInv(c: Config, es: seq<Event>)
    requires c.Valid() && After(c, es).Some?
    ensures Inv(c, After(c, es).value)
    decreases |es|
  {
    if es != [] {
      RunKeepsInv(c, es[..|es| - 1]);
      StepKeepsInv(c, After(c, es[..|es| - 1]).value, es[|es| - 1]);
    }
  }

  /**
   * The staleness bound: in every run, a validation that begins at or after the revocation plus the
   * cache lifetime plus the longest read-to-write delay does not accept the key. What is accepted is
   * active, never past its expiry time, and carries the id, project, scopes and expiry of its row.
   */
  lemma RevocationTakesEffect(c: Config, es: seq<Event>, k: nat)
    requires c.Valid() && After(c, es).Some? && k < |After(c, es).value.accepted|
    ensures var s, a := After(c, es).value, After(c, es).value.accepted[k];
      && (a.hash in s.revokedAt ==> a.started < s.revokedAt[a.hash] + c.ttl + c.gap)
      && a.key.status == KeyStatus.Active && (a.key.expiresAt == None || a.at <= a.key.expiresAt.value)
      && a.hash in s.table && a.key.id == s.table[a.hash].id && a.key.projectId == s.table[a.hash].projectId
      && a.key.scopes == s.table[a.hash].scopes && a.key.expiresAt == s.table[a.hash].expiresAt
  {
    RunKeepsInv(c, es);
    assert AcceptedOk(c, After(c, es).value, After(c, es).value.accepted[k]);
  }

  /** A revoked row never becomes active again, and its first revocation time is kept. */
  lemma StepKeepsRevoked(c: Config, s: State, e: Event, hash: string)
    requires TableOk(s) && Enabled(c, s, e) && hash in s.revokedAt
    ensures var s' := Do(c, s, e);
      hash in s'.revokedAt && s'.revokedAt[hash] == s.revokedAt[hash]
      && hash in s'.table && s'.table[hash].status == KeyStatus.Revoked
  {
    StepGrows(c, s, e);
    StepKeepsTable(c, s, e);
  }

  /** In every continuation of a run a revoked key stays revoked, with its first revocation time. */
  lemma {:induction false} RevokedForever(c: Config, es: seq<Event>, more: seq<Event>, hash: string)
    requires c.Valid() && After(c, es).Some? && After(c, es + more).Some? && hash in After(c, es).value.revokedAt
    ensures var s, s' := After(c, es).value, After(c, es + more).value;
      hash in s'.revokedAt && s'.revokedAt[hash] == s.revokedAt[hash]
      && hash in s'.table && s'.table[hash].status == KeyStatus.Revoked
    decreases |more|
  {
    if more == [] {
      assert es + more == es;
      RunKeepsInv(c, es);
    } else {
      var n := |more| - 1;
      assert (es + more)[..|es + more| - 1] == es + more[..n] && (es + more)[|es + more| - 1] == more[n];
      RevokedForever(c, es, more[..n], hash);
      RunKeepsInv(c, es + more[..n]);
      StepKeepsRevoked(c, After(c, es + more[..n]).value, more[n], hash);
    }
  }

  // ----- the bound is exact -----

  lemma Extend(c: Config, es: seq<Event>, e: Event) returns (es': seq<Event>, s': State)
    requires After(c, es).Some? && Enabled(c, After(c, es).value, e)
    ensures es' == es + [e] && After(c, es') == Some(s') && s' == Do(c, After(c, es).value, e)
  {
    es' := es + [e];
    assert es'[..|es'| - 1] == es;
    s' := Do(c, After(c, es).value, e);
  }

  lemma Inserted(c: Config, key: APIKey) returns (es: seq<Event>, s: State)
    requires key.status == Active
    ensures After(c, es) == Some(s) && s == State(0, map["h" := key], map[], map[], map[], [])
  {
    es, s := Extend(c, [], Insert("h", key));
  }

  /** A reader picks up the active row. */
  lemma EarlyReader(c: Config, key: APIKey) returns (es: seq<Event>, s: State)
    requires c.Valid() && key.status == Active
    ensures After(c, es) == Some(s)
    ensures s == State(0, map["h" := key], map[], map[], map[0 := HasRow("h", 0, key, 0)], [])
  {
    var es0, s0 := Inserted(c, key);
    var es1, s1 := Extend(c, es0, Start(0, "h"));
    es, s := RowRead(c, es1, s1, 0);
    assert s.stages == map[0 := HasRow("h", 0, key, 0)];
  }

  /** The key is revoked, and the reader then caches what it read as late as it may. */
  lemma LateWriter(c: Config, key: APIKey) returns (es: seq<Event>, s: State)
    requires c.Valid() && key.status == Active
    ensures After(c, es) == Some(s) && s.now == c.gap && s.accepted == []
    ensures s.revokedAt == map["h" := 0] && s.cache == map["h" := CacheEntry(key, c.gap + c.ttl)] && 1 !in s.stages
  {
    es, s := EarlyReader(c, key);
    es, s := Extend(c, es, Revoke(key.id));
    assert s.revokedAt == map["h" := 0];
    es, s := Extend(c, es, Tick(c.gap));
    es, s := Extend(c, es, WriteCache(0, true));
  }

  /** A validation that begins one instant before the bound can still accept the revoked key. */
  lemma StalenessBoundIsTight(c: Config, key: APIKey) returns (es: seq<Event>)
    requires c.Valid() && key.status == Active && key.expiresAt == None
    ensures After(c, es).Some? && var s := After(c, es).value;
      |s.accepted| == 1 && s.accepted[0].hash in s.revokedAt
      && s.accepted[0].started + 1 == s.revokedAt[s.accepted[0].hash] + c.ttl + c.gap
  {
    var s;
    es, s := LateWriter(c, key);
    es, s := Extend(c, es, Tick(c.gap + c.ttl - 1));
    es, s := Extend(c, es, Start(1, "h"));
    es, s := Extend(c, es, Hit(1));
    es, s := Extend(c, es, Judge(1));
  }

  // ----- a validation that runs alone -----

  /** What the step that ends a validation answers. */
  function Answer(s: State, e: Event): Option<Verdict> {
    match e
    case ReadStore(r, works) =>
      if r in s.stages && !(works && s.stages[r].hash in s.table) then Some(Unauthorized) else None
    case Judge(r) =>
      if r in s.stages && s.stages[r].Judging? then Some(ValidateKeyStatus(s.stages[r].key, s.now)) else None
    case _ => None
  }

  /** Only time passes besides the steps of validation `r`. */
  predicate Own(e: Event, r: nat) {
    match e
    case Tick(_) => true
    case Start(q, _) => q == r
    case Hit(q) => q == r
    case Miss(q) => q == r
    case ReadStore(q, _) => q == r
    case WriteCache(q, _) => q == r
    case Judge(q) => q == r
    case _ => false
  }

  predicate OwnFrom(es: seq<Event>, n: nat, r: nat) {
    forall k :: n <= k < |es| ==> Own(es[k], r)
  }

  /** The clock of a validation that may begin in `s`: reads, write and judgement in order and in time. */
  predicate InTime(c: Config, s: State, a: Attempt) {
    s.now <= a.getAt <= a.setAt <= a.judgeAt && a.setAt <= a.getAt + c.gap
  }

  /** The state after a validation that began in `s` and ran alone. */
  function Validated(c: Config, s: State, hash: string, a: Attempt, now: int): State {
    var v := Validation(s.table, s.cache, hash, a);
    s.(now := now,
       cache := CacheAfter(s.table, s.cache, hash, a, c.ttl),
       accepted := if v.Accepted? then s.accepted + [Acceptance(hash, s.now, a.judgeAt, v.key)] else s.accepted)
  }

  lemma Looked(c: Config, es: seq<Event>, s: State, r: nat, hash: string, at: int) returns (es': seq<Event>, s': State)
    requires After(c, es) == Some(s) && r !in s.stages && s.now <= at
    ensures After(c, es') == Some(s') && es' == es + [Start(r, hash), Tick(at)]
    ensures s' == s.(now := at, stages := s.stages[r := Looking(hash, s.now)])
  {
    var fs, t := Extend(c, es, Start(r, hash));
    es', s' := Extend(c, fs, Tick(at));
  }

  /** After judging at time `at`. */
  function Judgement(s: State, r: nat, at: int): State
    requires r in s.stages && s.stages[r].Judging?
  {
    var g := s.stages[r];
    var done := s.(now := at, stages := s.stages - {r});
    if ValidateKeyStatus(g.key, at).Accepted?
    then done.(accepted := s.accepted + [Acceptance(g.hash, g.started, at, g.key)])
    else done
  }

  lemma Judged(c: Config, es: seq<Event>, s: State, r: nat, at: int) returns (es': seq<Event>, before: State, s': State)
    requires After(c, es) == Some(s) && r in s.stages && s.stages[r].Judging? && s.now <= at
    ensures es' == es + [Tick(at), Judge(r)] && After(c, es') == Some(s')
    ensures After(c, es'[..|es'| - 1]) == Some(before)
    ensures var v := ValidateKeyStatus(s.stages[r].key, at);
      && Answer(before, Judge(r)) == Some(v)
      && s' == Judgement(s, r, at)
  {
    var ticked;
    ticked, before := Extend(c, es, Tick(at));
    es', s' := Extend(c, ticked, Judge(r));
    assert es'[..|es'| - 1] == ticked;
    assert es' == es + [Tick(at), Judge(r)];
  }

  /** A validation that misses reads the row and caches it. */
  lemma RowCached(c: Config, es: seq<Event>, s: State, r: nat, at: int, stored: bool)
    returns (es': seq<Event>, s': State)
    requires After(c, es) == Some(s) && r in s.stages && s.stages[r].Looking? && s.stages[r].hash in s.table
    requires s.now <= at <= s.now + c.gap
    ensures es' == es + [Miss(r), ReadStore(r, true), Tick(at), WriteCache(r, stored)] && After(c, es') == Some(s')
    ensures var g := s.stages[r];
      s' == s.(now := at, stages := s.stages[r := Judging(g.hash, g.started, s.table[g.hash])],
               cache := if stored then s.cache[g.hash := CacheEntry(s.table[g.hash], at + c.ttl)] else s.cache)
  {
    var fs, t := RowRead(c, es, s, r);
    fs, t := Extend(c, fs, Tick(at));
    es', s' := Extend(c, fs, WriteCache(r, stored));
  }

  lemma RowRead(c: Config, es: seq<Event>, s: State, r: nat) returns (es': seq<Event>, s': State)
    requires After(c, es) == Some(s) && r in s.stages && s.stages[r].Looking? && s.stages[r].hash in s.table
    ensures es' == es + [Miss(r), ReadStore(r, true)] && After(c, es') == Some(s')
    ensures var g := s.stages[r];
      s' == s.(stages := s.stages[r := HasRow(g.hash, g.started, s.table[g.hash], s.now)])
  {
    var fs, t := Extend(c, es, Miss(r));
    es', s' := Extend(c, fs, ReadStore(r, true));
  }

  /** `es'` continues `es` by the steps of validation `r`, the last of which, in `before`, ends it as if alone. */
  ghost predicate RunsAlone(
    c: Config, es: seq<Event>, r: nat, hash: string, a: Attempt, es': seq<Event>, before: State, s': State)
    requires After(c, es).Some?
  {
    var s := After(c, es).value;
    && es < es' && OwnFrom(es', |es|, r)
    && After(c, es') == Some(s') && After(c, es'[..|es'| - 1]) == Some(before)
    && Answer(before, es'[|es'| - 1]) == Some(Validation(s.table, s.cache, hash, a))
    && s' == Validated(c, s, hash, a, s'.now)
  }

  /** The last step, when the key to be judged is the one the method judges. */
  lemma Concluded(c: Config, es: seq<Event>, s: State, r: nat, hash: string, a: Attempt,
                  fs: seq<Event>, t: State, key: APIKey)
    returns (es': seq<Event>, before: State, s': State)
    requires After(c, es) == Some(s) && r !in s.stages && After(c, fs) == Some(t) && es <= fs && OwnFrom(fs, |es|, r)
    requires Validation(s.table, s.cache, hash, a) == ValidateKeyStatus(key, a.judgeAt)
    requires t.now <= a.judgeAt
    requires t == s.(now := t.now, stages := s.stages[r := Judging(hash, s.now, key)],
                     cache := CacheAfter(s.table, s.cache, hash, a, c.ttl))
    ensures RunsAlone(c, es, r, hash, a, es', before, s')
  {
    es', before, s' := Judged(c, fs, t, r, a.judgeAt);
    JudgedAsAlone(c, s, r, hash, a, t, key);
  }

  lemma JudgedAsAlone(c: Config, s: State, r: nat, hash: string, a: Attempt, t: State, key: APIKey)
    requires r !in s.stages && Validation(s.table, s.cache, hash, a) == ValidateKeyStatus(key, a.judgeAt)
    requires t == s.(now := t.now, stages := s.stages[r := Judging(hash, s.now, key)],
                     cache := CacheAfter(s.table, s.cache, hash, a, c.ttl))
    ensures Judgement(t, r, a.judgeAt) == Validated(c, s, hash, a, a.judgeAt)
  {
    assert t.stages - {r} == s.stages;
  }

  lemma AloneByHit(c: Config, es: seq<Event>, r: nat, hash: string, a: Attempt)
    returns (es': seq<Event>, before: State, s': State)
    requires After(c, es).Some? && r !in After(c, es).value.stages && InTime(c, After(c, es).value, a)
    requires a.cacheReads && CacheGet(After(c, es).value.cache, hash, a.getAt).Some?
    ensures RunsAlone(c, es, r, hash, a, es', before, s')
  {
    var s := After(c, es).value;
    var fs, t := Looked(c, es, s, r, hash, a.getAt);
    var gs, u := Extend(c, fs, Hit(r));
    es', before, s' := Concluded(c, es, s, r, hash, a, gs, u, CacheGet(s.cache, hash, a.getAt).value);
  }

  lemma AloneByRow(c: Config, es: seq<Event>, r: nat, hash: string, a: Attempt)
    returns (es': seq<Event>, before: State, s': State)
    requires After(c, es).Some? && r !in After(c, es).value.stages && InTime(c, After(c, es).value, a)
    requires !(a.cacheReads && CacheGet(After(c, es).value.cache, hash, a.getAt).Some?)
    requires a.storeReads && hash in After(c, es).value.table
    ensures RunsAlone(c, es, r, hash, a, es', before, s')
  {
    var s := After(c, es).value;
    var fs, t := Looked(c, es, s, r, hash, a.getAt);
    var gs, u := RowCached(c, fs, t, r, a.setAt, a.cacheWrites);
    es', before, s' := Concluded(c, es, s, r, hash, a, gs, u, s.table[hash]);
  }

  lemma AloneWithoutRow(c: Config, es: seq<Event>, r: nat, hash: string, a: Attempt)
    returns (es': seq<Event>, before: State, s': State)
    requires After(c, es).Some? && r !in After(c, es).value.stages && InTime(c, After(c, es).value, a)
    requires !(a.cacheReads && CacheGet(After(c, es).value.cache, hash, a.getAt).Some?)
    requires !(a.storeReads && hash in After(c, es).value.table)
    ensures RunsAlone(c, es, r, hash, a, es', before, s')
  {
    var s := After(c, es).value;
    var fs, t := Looked(c, es, s, r, hash, a.getAt);
    fs, before := Extend(c, fs, Miss(r));
    es', s' := Extend(c, fs, ReadStore(r, a.storeReads));
    assert es'[..|es'| - 1] == fs;
    assert before.stages - {r} == s.stages;
  }

  /**
   * `Validate` running alone is a run of this model: from any state a run reaches, the steps of one
   * validation end in the cache the method leaves, accept what it accepts, and answer its verdict.
   */
  lemma LoneValidation(c: Config, es: seq<Event>, r: nat, hash: string, a: Attempt)
    returns (es': seq<Event>, before: State, s': State)
    requires After(c, es).Some? && r !in After(c, es).value.stages && InTime(c, After(c, es).value, a)
    ensures RunsAlone(c, es, r, hash, a, es', before, s')
  {
    var s := After(c, es).value;
    if a.cacheReads && CacheGet(s.cache, hash, a.getAt).Some? {
      es', before, s' := AloneByHit(c, es, r, hash, a);
    } else if a.storeReads && hash in s.table {
      es', before, s' := AloneByRow(c, es, r, hash, a);
    } else {
      es', before, s' := AloneWithoutRow(c, es, r, hash, a);
    }
  }
}
