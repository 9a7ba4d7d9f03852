/**
 * The CLI authentication handlers: provisioning of a user's organization, project and key, and key
 * rotation, each as one handler running alone. Every store call can fail before or after its effect.
 */
module CliAuth {
  import opened Wrappers
  import opened Strings
  import opened KeyStore

  datatype Organization = Organization(name: string)

  datatype Project = Project(organizationId: string)

  /** A key row, and the request that inserted it. */
  datatype KeyRow = KeyRow(projectId: string, request: nat)

  datatype Tables = Tables(orgs: map<string, Organization>, projects: map<string, Project>, keys: map<string, KeyRow>)

  /** The foreign keys of the schema. */
  predicate ForeignKeys(t: Tables) {
    && (forall p :: p in t.projects ==> t.projects[p].organizationId in t.orgs)
    && (forall k :: k in t.keys ==> t.keys[k].projectId in t.projects)
  }

  function OrgId(user: string): string {
    "org_" + user
  }

  function ProjectId(user: string): string {
    "prj_" + user
  }

  function OrgName(user: string, email: string): string {
    if email == "" then "User-" + (if |user| < 8 then user else user[..8])
    else
      var at := IndexOf(email, "@");
      if at > 0 then email[..at] + "'s Org" else email
  }

  /** The organization is named after the part of the address before the first at sign, if there is one. */
  lemma OrgNameExactly(user: string, local: string, domain: string)
    requires '@' !in local
    ensures local != "" ==> OrgName(user, local + "@" + domain) == local + "'s Org"
    ensures OrgName(user, "@" + domain) == "@" + domain
    ensures local != "" ==> OrgName(user, local) == local
    ensures OrgName(user, "") == "User-" + user[..if |user| < 8 then |user| else 8]
  {
    FirstAt(local, domain);
    FirstAt("", domain);
    NoAt(local);
    assert "" + "@" + domain == "@" + domain;
    assert user[..|user|] == user;
  }

  lemma FirstAt(local: string, domain: string)
    requires '@' !in local
    ensures IndexOf(local + "@" + domain, "@") == |local| && (local + "@" + domain)[..|local|] == local
  {
    var s := local + "@" + domain;
    assert s[|local|..] == "@" + domain;
    IndexOfIsFirst(s, "@", |local|);
    assert forall i :: 0 <= i < |local| ==> s[i] == local[i] && s[i..][0] == s[i];
  }

  lemma NoAt(s: string)
    requires '@' !in s
    ensures IndexOf(s, "@") < 0
  {
    assert forall i :: 0 <= i < |s| ==> s[i..][0] == s[i];
  }

  /** Inserts respect the primary key and the foreign key. */
  function InsertOrg(t: Tables, id: string, org: Organization, trouble: Trouble): Tables {
    if trouble == Before || id in t.orgs then t else t.(orgs := t.orgs[id := org])
  }

  function InsertProject(t: Tables, id: string, p: Project, trouble: Trouble): Tables {
    if trouble == Before || id in t.projects || p.organizationId !in t.orgs then t
    else t.(projects := t.projects[id := p])
  }

  function InsertKey(t: Tables, id: string, row: KeyRow, trouble: Trouble): Tables {
    if trouble == Before || id in t.keys || row.projectId !in t.projects then t else t.(keys := t.keys[id := row])
  }

  /** The caller sees success only if the call went well and the row was not there before. */
  predicate OrgInserted(t: Tables, id: string, trouble: Trouble) {
    trouble == Fine && id !in t.orgs
  }

  predicate ProjectInserted(t: Tables, id: string, p: Project, trouble: Trouble) {
    trouble == Fine && id !in t.projects && p.organizationId in t.orgs
  }

  predicate KeyInserted(t: Tables, id: string, row: KeyRow, trouble: Trouble) {
    trouble == Fine && id !in t.keys && row.projectId in t.projects
  }

  /** The troubles of one provisioning: get, create and re-fetch of both rows, and the key insert. */
  datatype Troubles = Troubles(
    orgGet: Trouble, orgCreate: Trouble, orgFetch: Trouble,
    projectGet: Trouble, projectCreate: Trouble, projectFetch: Trouble, keyCreate: Trouble)
  {
    predicate None() {
      this == Troubles(Fine, Fine, Fine, Fine, Fine, Fine, Fine)
    }
  }

  /** Get, create, re-fetch: the tables, and whether the caller has the row. */
  function OrgEnsured(tables: Tables, user: string, email: string, t: Troubles): (Tables, bool) {
    var id := OrgId(user);
    if id in tables.orgs then (tables, t.orgGet == Fine || t.orgFetch == Fine)
    else
      var next := InsertOrg(tables, id, Organization(OrgName(user, email)), t.orgCreate);
      (next, id in next.orgs && (t.orgCreate == Fine || t.orgFetch == Fine))
  }

  function ProjectEnsured(tables: Tables, user: string, t: Troubles): (Tables, bool) {
    var id := ProjectId(user);
    if id in tables.projects then (tables, t.projectGet == Fine || t.projectFetch == Fine)
    else
      var next := InsertProject(tables, id, Project(OrgId(user)), t.projectCreate);
      (next, id in next.projects && (t.projectCreate == Fine || t.projectFetch == Fine))
  }

  function KeyIssued(tables: Tables, user: string, request: nat, keyId: string, t: Troubles): (Tables, bool) {
    var row := KeyRow(ProjectId(user), request);
    (InsertKey(tables, keyId, row, t.keyCreate), KeyInserted(tables, keyId, row, t.keyCreate))
  }

  /** One provisioning that runs alone: the tables, and whether it succeeds. */
  function Provisioned(tables: Tables, user: string, email: string, request: nat, keyId: string, t: Troubles)
    : (Tables, bool)
  {
    var org := OrgEnsured(tables, user, email, t);
    if !org.1 then org
    else
      var project := ProjectEnsured(org.0, user, t);
      if !project.1 then project else KeyIssued(project.0, user, request, keyId, t)
  }

  class CliAuthHandler {
    var tables: Tables

    constructor ()
      ensures tables == Tables(map[], map[], map[])
    {
      tables := Tables(map[], map[], map[]);
    }

    /** Steps 3 to 5 of `ServeHTTP` for a validated user: the project and organization ids. */
    method Provision(user: string, email: string, request: nat, keyId: string, t: Troubles)
      returns (r: Option<(string, string)>)
      requires ForeignKeys(tables)
      modifies this
      ensures (tables, r.Some?) == Provisioned(old(tables), user, email, request, keyId, t)
      ensures ForeignKeys(tables)
      ensures r.Some? ==> r.value == (ProjectId(user), OrgId(user))
      ensures r.Some? ==> OrgId(user) in tables.orgs && ProjectId(user) in tables.projects
      ensures r.Some? ==> keyId !in old(tables.keys) && keyId in tables.keys
      ensures tables.keys == old(tables.keys)
        || (keyId !in old(tables.keys) && (r.Some? || t.keyCreate == After)
            && tables.keys == old(tables.keys)[keyId := KeyRow(ProjectId(user), request)])
      ensures t.None() && keyId !in old(tables.keys) ==> r.Some?
      ensures tables.orgs == old(tables.orgs)
        || (OrgId(user) !in old(tables.orgs)
            && tables.orgs == old(tables.orgs)[OrgId(user) := Organization(OrgName(user, email))])
      ensures tables.projects == old(tables.projects)
        || (ProjectId(user) !in old(tables.projects)
            && tables.projects == old(tables.projects)[ProjectId(user) := Project(OrgId(user))])
    {
      var haveOrg := EnsureOrganization(user, email, t);
      if !haveOrg {
        return None;
      }
      var haveProject := EnsureProject(user, t);
      if !haveProject {
        return None;
      }
      var row := KeyRow(ProjectId(user), request);
      var stored := KeyInserted(tables, keyId, row, t.keyCreate);
      tables := InsertKey(tables, keyId, row, t.keyCreate);
      if !stored {
        return None;
      }
      return Some((ProjectId(user), OrgId(user)));
    }

    method EnsureOrganization(user: string, email: string, t: Troubles) returns (ok: bool)
      requires ForeignKeys(tables)
      modifies this
      ensures (tables, ok) == OrgEnsured(old(tables), user, email, t)
      ensures ForeignKeys(tables)
      ensures ok ==> OrgId(user) in tables.orgs
    {
      var orgId := OrgId(user);
      if t.orgGet == Fine && orgId in tables.orgs {
        return true;
      }
      var created := OrgInserted(tables, orgId, t.orgCreate);
      tables := InsertOrg(tables, orgId, Organization(OrgName(user, email)), t.orgCreate);
      return created || (t.orgFetch == Fine && orgId in tables.orgs);
    }

    method EnsureProject(user: string, t: Troubles) returns (ok: bool)
      requires ForeignKeys(tables) && OrgId(user) in tables.orgs
      modifies this
      ensures (tables, ok) == ProjectEnsured(old(tables), user, t)
      ensures ForeignKeys(tables)
      ensures ok ==> ProjectId(user) in tables.projects
    {
      var projectId := ProjectId(user);
      if t.projectGet == Fine && projectId in tables.projects {
        return true;
      }
      var created := ProjectInserted(tables, projectId, Project(OrgId(user)), t.projectCreate);
      tables := InsertProject(tables, projectId, Project(OrgId(user)), t.projectCreate);
      return created || (t.projectFetch == Fine && projectId in tables.projects);
    }
  }

  // ----- rotation -----

  /**
   * What one rotation meets: the clock when it looks at the key, whether reading and revoking work,
   * how the insert goes, and the new key's hash and id.
   */
  datatype RotationWorld = RotationWorld(
    now: int, readWorks: bool, revokeWorks: bool, create: Trouble, newHash: string, newId: string)

  /** Whether the key may be rotated. */
  predicate Rotatable(table: Table, hash: string, w: RotationWorld) {
    w.readWorks && hash in table && table[hash].IsActive(w.now)
  }

  function OldRevoked(table: Table, hash: string, w: RotationWorld): Table
    requires hash in table
  {
    if w.revokeWorks then table[hash := table[hash].(status := Revoked)] else table
  }

  function Successor(table: Table, hash: string, w: RotationWorld): APIKey
    requires hash in table
  {
    NewAPIKey(w.newId, table[hash].projectId, table[hash].scopes, None)
  }

  /** The new key gets stored. */
  predicate Stored(table: Table, projects: set<string>, hash: string, w: RotationWorld)
    requires hash in table
  {
    w.create != Before && Insertable(OldRevoked(table, hash, w), projects, w.newHash, Successor(table, hash, w))
  }

  /** One rotation that runs alone: the key table, and whether it reports success. */
  function Rotated(table: Table, projects: set<string>, hash: string, w: RotationWorld): (Table, bool) {
    if !Rotatable(table, hash, w) then (table, false)
    else if !Stored(table, projects, hash, w) then (OldRevoked(table, hash, w), false)
    else (OldRevoked(table, hash, w)[w.newHash := Successor(table, hash, w)], w.create == Fine)
  }

  /** Whether the key may be rotated, in terms of its status and expiry time. */
  predicate MayRotate(table: Table, hash: string, w: RotationWorld) {
    && w.readWorks && hash in table && table[hash].status == Active
    && (table[hash].expiresAt == None || w.now <= table[hash].expiresAt.value)
  }

  /** Whether the database takes the successor. */
  predicate TakesSuccessor(table: Table, projects: set<string>, hash: string, w: RotationWorld)
    requires hash in table
  {
    && w.create != Before && w.newHash !in table && table[hash].projectId in projects
    && forall h :: h in table ==> table[h].id != w.newId
  }

  /** The old key is revoked, unless that failed, and no other row changes. */
  ghost predicate RevokesOld(table: Table, after: Table, hash: string, w: RotationWorld)
    requires hash in table
  {
    && table.Keys <= after.Keys
    && (forall h :: h in table && h != hash ==> after[h] == table[h])
    && after[hash] == if w.revokeWorks then table[hash].(status := Revoked) else table[hash]
  }

  /**
   * What a rotation does to the table: an active key in time gets a successor without an expiry, in
   * the same project and with the same scopes; if the insert fails the old key is revoked all the
   * same; any other key is left alone.
   */
  lemma RotatedExactly(table: Table, projects: set<string>, hash: string, w: RotationWorld)
    ensures var (after, ok) := Rotated(table, projects, hash, w);
      && (!MayRotate(table, hash, w) ==> after == table && !ok)
      && (MayRotate(table, hash, w) ==>
            && RevokesOld(table, after, hash, w)
            && (ok <==> w.create == Fine && TakesSuccessor(table, projects, hash, w))
            && after.Keys == table.Keys + (if TakesSuccessor(table, projects, hash, w) then {w.newHash} else {})
            && (TakesSuccessor(table, projects, hash, w) ==>
                  var scopes := table[hash].scopes;
                  after[w.newHash] == APIKey(w.newId, table[hash].projectId, Active,
                    if scopes == [] then ["inference:write", "usage:read"] else scopes, None)))
  {
  }

  class KeyRotator {
    const keys: APIKeyRepo

    constructor (keys: APIKeyRepo)
      ensures this.keys == keys
    {
      this.keys := keys;
    }

    /** `RotateKey` for the key with this hash; an error of the revocation is ignored. */
    method RotateKey(hash: string, w: RotationWorld) returns (ok: bool)
      requires UniqueIds(keys.rows)
      modifies keys`rows
      ensures UniqueIds(keys.rows)
      ensures (keys.rows, ok) == Rotated(old(keys.rows), keys.projects, hash, w)
    {
      if !w.readWorks {
        return false;
      }
      var oldKey := keys.GetByHash(hash);
      if oldKey.None? || !oldKey.value.IsActive(w.now) {
        return false;
      }
      ghost var before := keys.rows;
      if w.revokeWorks {
        var _ := keys.Revoke(oldKey.value.id);
        assert keys.rows == before[hash := oldKey.value.(status := Revoked)];
      }
      ok := keys.Create(
        w.newHash, NewAPIKey(w.newId, oldKey.value.projectId, oldKey.value.scopes, None), w.create);
    }
  }
}
