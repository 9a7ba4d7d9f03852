/** API keys: the domain object, the table, the Redis cache in front of it and the validator. */
module KeyStore {
  import opened Wrappers

  datatype KeyStatus = Active | Revoked | Expired

  /** A stored key. The scopes and the expiry never change after creation. */
  datatype APIKey = APIKey(
    id: string, projectId: string, status: KeyStatus, scopes: seq<string>, expiresAt: Option<int>)
  {
    predicate IsExpired(now: int) {
      expiresAt.Some? && now > expiresAt.value
    }

    predicate IsActive(now: int) {
      status == Active && !IsExpired(now)
    }

    /** The same key up to its status. */
    predicate SameKey(other: APIKey) {
      this.(status := Active) == other.(status := Active)
    }
  }

  const DEFAULT_SCOPES: seq<string> := ["inference:write", "usage:read"]

  /** `NewAPIKey`: a key without scopes gets the default ones. */
  function NewAPIKey(id: string, projectId: string, scopes: seq<string>, expiresAt: Option<int>): APIKey {
    APIKey(id, projectId, Active, if scopes == [] then DEFAULT_SCOPES else scopes, expiresAt)
  }

  datatype Verdict = Accepted(key: APIKey) | KeyRevoked | KeyExpired | Unauthorized

  /** `validateKeyStatus`. */
  function ValidateKeyStatus(key: APIKey, now: int): Verdict {
    if key.status == Revoked then KeyRevoked
    else if key.IsExpired(now) then KeyExpired
    else if !key.IsActive(now) then Unauthorized
    else Accepted(key)
  }

  /** The api_keys table, by key hash. */
  type Table = map<string, APIKey>

  predicate UniqueIds(table: Table) {
    forall h, h' :: h in table && h' in table && table[h].id == table[h'].id ==> h == h'
  }

  function WithRevoked(table: Table, id: string): Table {
    map h | h in table :: if table[h].id == id then table[h].(status := Revoked) else table[h]
  }

  datatype CacheEntry = CacheEntry(key: APIKey, expiry: int)

  type Cache = map<string, CacheEntry>

  function CacheGet(cache: Cache, hash: string, now: int): Option<APIKey> {
    if hash in cache && now < cache[hash].expiry then Some(cache[hash].key) else None
  }

  /** The id is the primary key, the hash is unique and the project must exist. */
  predicate Insertable(table: Table, projects: set<string>, hash: string, key: APIKey) {
    hash !in table && (forall h :: h in table ==> table[h].id != key.id) && key.projectId in projects
  }

  class APIKeyRepo {
    var rows: Table
    /** The ids of the projects table. */
    var projects: set<string>

    constructor (projects: set<string>)
      ensures rows == map[] && this.projects == projects
    {
      rows, this.projects := map[], projects;
    }

    method Create(hash: string, key: APIKey, trouble: Trouble) returns (ok: bool)
      requires UniqueIds(rows)
      modifies this`rows
      ensures rows == if trouble != Before && Insertable(old(rows), projects, hash, key) then old(rows)[hash := key]
                      else old(rows)
      ensures ok <==> trouble == Fine && Insertable(old(rows), projects, hash, key)
      ensures ok <==> trouble == Fine && hash !in old(rows) && key.projectId in projects
                      && forall h :: h in old(rows) ==> old(rows)[h].id != key.id
      ensures UniqueIds(rows)
    {
      var insertable :=
        hash !in rows && (forall h :: h in rows ==> rows[h].id != key.id) && key.projectId in projects;
      if trouble != Before && insertable {
        rows := rows[hash := key];
      }
      ok := trouble == Fine && insertable;
    }

    method GetByHash(hash: string) returns (key: Option<APIKey>)
      ensures key == if hash in rows then Some(rows[hash]) else None
    {
      key := if hash in rows then Some(rows[hash]) else None;
    }

    method Revoke(id: string) returns (ok: bool)
      requires UniqueIds(rows)
      modifies this`rows
      ensures ok <==> exists h :: h in old(rows) && old(rows)[h].id == id
      ensures rows == WithRevoked(old(rows), id) && UniqueIds(rows)
    {
      ok := exists h :: h in rows && rows[h].id == id;
      rows := map h | h in rows :: if rows[h].id == id then rows[h].(status := Revoked) else rows[h];
    }
  }

  class KeyCache {
    var entries: Cache

    constructor ()
      ensures entries == map[]
    {
      entries := map[];
    }

    method Get(hash: string, now: int) returns (key: Option<APIKey>)
      ensures key == CacheGet(entries, hash, now)
    {
      key := if hash in entries && now < entries[hash].expiry then Some(entries[hash].key) else None;
    }

    method SetWithTTL(hash: string, key: APIKey, ttl: int, now: int)
      modifies this
      ensures entries == old(entries)[hash := CacheEntry(key, now + ttl)]
    {
      entries := entries[hash := CacheEntry(key, now + ttl)];
    }
  }

  /** The clock at each step of one validation, and whether Redis and the database answer. */
  datatype Attempt = Attempt(
    getAt: int, setAt: int, judgeAt: int, cacheReads: bool, storeReads: bool, cacheWrites: bool)

  /** What one validation that runs alone answers. */
  function Validation(table: Table, cache: Cache, hash: string, a: Attempt): Verdict {
    var cached := CacheGet(cache, hash, a.getAt);
    if a.cacheReads && cached.Some? then ValidateKeyStatus(cached.value, a.judgeAt)
    else if a.storeReads && hash in table then ValidateKeyStatus(table[hash], a.judgeAt)
    else Unauthorized
  }

  /** The cache one validation that runs alone leaves behind: only a miss that finds a row writes. */
  function CacheAfter(table: Table, cache: Cache, hash: string, a: Attempt, ttl: int): Cache {
    if a.cacheReads && CacheGet(cache, hash, a.getAt).Some? then cache
    else if a.storeReads && hash in table && a.cacheWrites then cache[hash := CacheEntry(table[hash], a.setAt + ttl)]
    else cache
  }

  /** The copy of the key that is judged: the cached one while it lives, else the stored one, if they can be read. */
  function Judged(table: Table, cache: Cache, hash: string, a: Attempt): Option<APIKey> {
    if a.cacheReads && hash in cache && a.getAt < cache[hash].expiry then Some(cache[hash].key)
    else if a.storeReads && hash in table then Some(table[hash])
    else None
  }

  /** What the validator answers, in terms of the judged copy's status and expiry time. */
  lemma ValidationExactly(table: Table, cache: Cache, hash: string, a: Attempt)
    ensures var v, k := Validation(table, cache, hash, a), Judged(table, cache, hash, a);
      && (v.Accepted? <==> k.Some? && k.value.status == Active
                           && (k.value.expiresAt == None || a.judgeAt <= k.value.expiresAt.value))
      && (v.Accepted? ==> v.key == k.value)
      && (v == KeyRevoked <==> k.Some? && k.value.status == Revoked)
      && (v == KeyExpired <==> k.Some? && k.value.status != Revoked
                               && k.value.expiresAt.Some? && a.judgeAt > k.value.expiresAt.value)
      && (v == Unauthorized <==> k == None || (k.value.status == Expired
                                 && (k.value.expiresAt == None || a.judgeAt <= k.value.expiresAt.value)))
  {
  }

  /** What it leaves in the cache: a live entry is never touched, a missed row is stored for one lifetime. */
  lemma CacheAfterExactly(table: Table, cache: Cache, hash: string, a: Attempt, ttl: int)
    ensures var c := CacheAfter(table, cache, hash, a, ttl);
      && c - {hash} == cache - {hash}
      && (a.cacheReads && hash in cache && a.getAt < cache[hash].expiry ==> c == cache)
      && (!(a.cacheReads && hash in cache && a.getAt < cache[hash].expiry)
          && a.storeReads && hash in table && a.cacheWrites
          ==> hash in c && c[hash].key == table[hash] && c[hash].expiry == a.setAt + ttl)
      && (!(a.storeReads && hash in table && a.cacheWrites) ==> c == cache)
  {
  }

  class Validator {
    const keys: APIKeyRepo
    const cache: KeyCache?
    const cacheTTL: int
    /** SHA-256 in hexadecimal. */
    const hashKey: string -> string

    constructor (keys: APIKeyRepo, cache: KeyCache?, cacheTTL: int, hashKey: string -> string)
      ensures this.keys == keys && this.cache == cache && this.hashKey == hashKey
      ensures this.cacheTTL == if cacheTTL <= 0 then 300_000_000_000 else cacheTTL
    {
      this.keys, this.cache, this.hashKey := keys, cache, hashKey;
      this.cacheTTL := if cacheTTL <= 0 then 300_000_000_000 else cacheTTL;
    }

    method Validate(plaintext: string, a: Attempt) returns (v: Verdict)
      modifies cache
      ensures plaintext == "" ==> v == Unauthorized
      ensures plaintext != "" ==>
        v == Validation(keys.rows, if cache == null then map[] else old(cache.entries), hashKey(plaintext), a)
      ensures cache != null ==>
        cache.entries == if plaintext == "" then old(cache.entries)
                         else CacheAfter(keys.rows, old(cache.entries), hashKey(plaintext), a, cacheTTL)
    {
      if plaintext == "" {
        return Unauthorized;
      }
      var hash := hashKey(plaintext);
      if cache != null && a.cacheReads {
        var cached := cache.Get(hash, a.getAt);
        if cached.Some? {
          return ValidateKeyStatus(cached.value, a.judgeAt);
        }
      }
      if !a.storeReads {
        return Unauthorized;
      }
      var key := keys.GetByHash(hash);
      if key.None? {
        return Unauthorized;
      }
      if cache != null && a.cacheWrites {
        cache.SetWithTTL(hash, key.value, cacheTTL, a.setAt);
      }
      v := ValidateKeyStatus(key.value, a.judgeAt);
    }
  }
}
