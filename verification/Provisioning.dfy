/**
 * Concurrent first logins: any number of provisioning requests, for any users, interleave their
 * store calls. The get / create / re-fetch sequence on deterministic ids must create each
 * organization and project once and give every caller the same ids.
 */
module Provisioning {
  import opened Wrappers
  import opened CliAuth

  datatype Call = Get | Create | Fetch

  /** Where a request stands. */
  datatype Stage =
    | AtOrg(call: Call, user: string)
    | AtProject(call: Call, user: string, orgId: string)
    | AtKey(user: string, orgId: string, projectId: string)
    | Success(user: string, orgId: string, projectId: string, keyId: string)
    | Failure(user: string)

  /** `orgLog` and `projectLog` list the ids of inserted rows. */
  datatype State = State(tables: Tables, stages: map<nat, Stage>, orgLog: seq<string>, projectLog: seq<string>)

  datatype Event =
    | Login(r: nat, user: string)
    | GetOrg(r: nat, trouble: Trouble)
    | CreateOrg(r: nat, name: string, trouble: Trouble)
    | FetchOrg(r: nat, trouble: Trouble)
    | GetProject(r: nat, trouble: Trouble)
    | CreateProject(r: nat, trouble: Trouble)
    | FetchProject(r: nat, trouble: Trouble)
    | CreateKey(r: nat, keyId: string, trouble: Trouble)
  {
    predicate Smooth() {
      Login? || trouble == Fine
    }
  }

  const INITIAL := State(Tables(map[], map[], map[]), map[], [], [])

  predicate Enabled(s: State, e: Event) {
    match e
    case Login(r, _) => r !in s.stages
    case GetOrg(r, _) => r in s.stages && s.stages[r].AtOrg? && s.stages[r].call == Get
    case CreateOrg(r, _, _) => r in s.stages && s.stages[r].AtOrg? && s.stages[r].call == Create
    case FetchOrg(r, _) => r in s.stages && s.stages[r].AtOrg? && s.stages[r].call == Fetch
    case GetProject(r, _) => r in s.stages && s.stages[r].AtProject? && s.stages[r].call == Get
    case CreateProject(r, _) => r in s.stages && s.stages[r].AtProject? && s.stages[r].call == Create
    case FetchProject(r, _) => r in s.stages && s.stages[r].AtProject? && s.stages[r].call == Fetch
    case CreateKey(r, keyId, _) => r in s.stages && s.stages[r].AtKey? && keyId !in s.tables.keys
  }

  function To(s: State, r: nat, g: Stage): State {
    s.(stages := s.stages[r := g])
  }

  function Do(s: State, e: Event): State
    requires Enabled(s, e)
  {
    match e
    case Login(r, user) => To(s, r, AtOrg(Get, user))
    case GetOrg(r, trouble) =>
      var user := s.stages[r].user;
      if trouble == Fine && OrgId(user) in s.tables.orgs then To(s, r, AtProject(Get, user, OrgId(user)))
      else To(s, r, AtOrg(Create, user))
    case CreateOrg(r, name, trouble) =>
      var user := s.stages[r].user;
      var id := OrgId(user);
      var next := if OrgInserted(s.tables, id, trouble) then AtProject(Get, user, id) else AtOrg(Fetch, user);
      To(s, r, next).(
        tables := InsertOrg(s.tables, id, Organization(name), trouble),
        orgLog := if trouble != Before && id !in s.tables.orgs then s.orgLog + [id] else s.orgLog)
    case FetchOrg(r, trouble) =>
      var user := s.stages[r].user;
      if trouble == Fine && OrgId(user) in s.tables.orgs then To(s, r, AtProject(Get, user, OrgId(user)))
      else To(s, r, Failure(user))
    case GetProject(r, trouble) =>
      var g := s.stages[r];
      if trouble == Fine && ProjectId(g.user) in s.tables.projects
      then To(s, r, AtKey(g.user, g.orgId, ProjectId(g.user)))
      else To(s, r, AtProject(Create, g.user, g.orgId))
    case CreateProject(r, trouble) =>
      var g := s.stages[r];
      var id, row := ProjectId(g.user), Project(g.orgId);
      var next := if ProjectInserted(s.tables, id, row, trouble) then AtKey(g.user, g.orgId, id)
                  else AtProject(Fetch, g.user, g.orgId);
      To(s, r, next).(
        tables := InsertProject(s.tables, id, row, trouble),
        projectLog := if trouble != Before && id !in s.tables.projects && g.orgId in s.tables.orgs
                      then s.projectLog + [id] else s.projectLog)
    case FetchProject(r, trouble) =>
      var g := s.stages[r];
      if trouble == Fine && ProjectId(g.user) in s.tables.projects
      then To(s, r, AtKey(g.user, g.orgId, ProjectId(g.user)))
      else To(s, r, Failure(g.user))
    case CreateKey(r, keyId, trouble) =>
      var g := s.stages[r];
      var row := KeyRow(g.projectId, r);
      var next := if KeyInserted(s.tables, keyId, row, trouble) then Success(g.user, g.orgId, g.projectId, keyId)
                  else Failure(g.user);
      To(s, r, next).(tables := InsertKey(s.tables, keyId, row, trouble))
  }

  function After(es: seq<Event>): Option<State> {
    if es == [] then Some(INITIAL)
    else
      match After(es[..|es| - 1])
      case None => None
      case Some(s) => if Enabled(s, es[|es| - 1]) then Some(Do(s, es[|es| - 1])) else None
  }

  // ----- the invariant -----

  /** Rows are inserted once and stay. */
  ghost predicate LogsOk(s: State) {
    && (forall i, j :: 0 <= i < j < |s.orgLog| ==> s.orgLog[i] != s.orgLog[j])
    && (forall i, j :: 0 <= i < j < |s.projectLog| ==> s.projectLog[i] != s.projectLog[j])
    && (forall id :: id in s.orgLog <==> id in s.tables.orgs)
    && (forall id :: id in s.projectLog <==> id in s.tables.projects)
  }

  predicate HasOrg(s: State, user: string, orgId: string) {
    orgId == OrgId(user) && orgId in s.tables.orgs
  }

  predicate HasProject(s: State, user: string, orgId: string, projectId: string) {
    && HasOrg(s, user, orgId) && projectId == ProjectId(user)
    && projectId in s.tables.projects && s.tables.projects[projectId].organizationId == orgId
  }

  /** Projects belong to their user's organization. */
  ghost predicate ProjectsOk(s: State) {
    forall u: string :: ProjectId(u) in s.tables.projects ==> s.tables.projects[ProjectId(u)].organizationId == OrgId(u)
  }

  predicate StageOk(s: State, r: nat) {
    r in s.stages ==>
      match s.stages[r]
      case AtOrg(_, _) => true
      case AtProject(_, user, orgId) => HasOrg(s, user, orgId)
      case AtKey(user, orgId, projectId) => HasProject(s, user, orgId, projectId)
      case Success(user, orgId, projectId, keyId) =>
        HasProject(s, user, orgId, projectId) && keyId in s.tables.keys && s.tables.keys[keyId] == KeyRow(projectId, r)
      case Failure(_) => true
  }

  /** A request inserts at most one key, in its last step. */
  ghost predicate KeysOk(s: State) {
    && (forall k :: k in s.tables.keys ==>
          s.tables.keys[k].request in s.stages
          && (s.stages[s.tables.keys[k].request].Success? || s.stages[s.tables.keys[k].request].Failure?))
    && (forall k, k' ::
          k in s.tables.keys && k' in s.tables.keys && s.tables.keys[k].request == s.tables.keys[k'].request
          ==> k == k')
  }

  ghost predicate Inv(s: State) {
    ForeignKeys(s.tables) && LogsOk(s) && ProjectsOk(s) && KeysOk(s) && forall r :: StageOk(s, r)
  }

  lemma IdsInjective(u: string, v: string)
    ensures OrgId(u) == OrgId(v) ==> u == v
    ensures ProjectId(u) == ProjectId(v) ==> u == v
  {
    assert OrgId(u)[4..] == u && OrgId(v)[4..] == v && ProjectId(u)[4..] == u && ProjectId(v)[4..] == v;
  }

  predicate Grows(s: State, s': State) {
    && (forall id :: id in s.tables.orgs ==> id in s'.tables.orgs)
    && (forall id :: id in s.tables.projects ==>
          id in s'.tables.projects && s'.tables.projects[id] == s.tables.projects[id])
    && (forall id :: id in s.tables.keys ==> id in s'.tables.keys && s'.tables.keys[id] == s.tables.keys[id])
  }

  lemma StepGrows(s: State, e: Event)
    requires Enabled(s, e)
    ensures Grows(s, Do(s, e))
  {
  }

  lemma StepKeepsForeignKeys(s: State, e: Event)
    requires Inv(s) && Enabled(s, e)
    ensures ForeignKeys(Do(s, e).tables)
  {
  }

  lemma StepKeepsLogs(s: State, e: Event)
    requires LogsOk(s) && Enabled(s, e)
    ensures LogsOk(Do(s, e))
  {
  }

  lemma StepKeepsProjects(s: State, e: Event)
    requires Inv(s) && Enabled(s, e)
    ensures ProjectsOk(Do(s, e))
  {
    if e.CreateProject? {
      assert StageOk(s, e.r);
      forall u: string ensures ProjectId(u) == ProjectId(s.stages[e.r].user) ==> u == s.stages[e.r].user {
        IdsInjective(u, s.stages[e.r].user);
      }
    }
  }

  lemma StepKeepsKeys(s: State, e: Event)
    requires KeysOk(s) && Enabled(s, e)
    ensures KeysOk(Do(s, e))
  {
  }

  lemma OwnStage(s: State, e: Event)
    requires Inv(s) && Enabled(s, e)
    ensures StageOk(Do(s, e), e.r)
  {
    StepKeepsProjects(s, e);
    assert StageOk(s, e.r);
  }

  lemma OtherStage(s: State, e: Event, r: nat)
    requires StageOk(s, r) && Enabled(s, e) && r != e.r
    ensures StageOk(Do(s, e), r)
  {
    StepGrows(s, e);
    assert r in Do(s, e).stages <==> r in s.stages;
    assert r in s.stages ==> Do(s, e).stages[r] == s.stages[r];
  }

  lemma StepKeepsInv(s: State, e: Event)
    requires Inv(s) && Enabled(s, e)
    ensures Inv(Do(s, e))
  {
    StepKeepsForeignKeys(s, e);
    StepKeepsLogs(s, e);
    StepKeepsProjects(s, e);
    StepKeepsKeys(s, e);
    forall r ensures StageOk(Do(s, e), r) {
      if r == e.r {
        OwnStage(s, e);
      } else {
        assert StageOk(s, r);
        OtherStage(s, e, r);
      }
    }
  }

  lemma {:induction false} RunKeepsInv(es: seq<Event>)
    requires After(es).Some?
    ensures Inv(After(es).value)
    decreases |es|
  {
    if es != [] {
      RunKeepsInv(es[..|es| - 1]);
      StepKeepsInv(After(es[..|es| - 1]).value, es[|es| - 1]);
    }
  }

  ghost predicate OnceIn(log: seq<string>, id: string) {
    exists i :: 0 <= i < |log| && log[i] == id && forall j :: 0 <= j < |log| && j != i ==> log[j] != id
  }

  /**
   * In every interleaving, with any store failures: foreign keys hold, no row is inserted twice, and
   * every successful login returns the user's organization and project, each inserted exactly once,
   * with the project in the organization and exactly one key row of that request.
   */
  lemma LoginsAgree(es: seq<Event>, r: nat)
    requires After(es).Some? && r in After(es).value.stages && After(es).value.stages[r].Success?
    ensures var g := After(es).value.stages[r];
      Agrees(After(es).value, r, g.user, g.orgId, g.projectId, g.keyId)
  {
    RunKeepsInv(es);
    SuccessAgrees(After(es).value, r);
  }

  ghost predicate Agrees(s: State, r: nat, user: string, orgId: string, projectId: string, keyId: string) {
    && ForeignKeys(s.tables)
    && orgId == OrgId(user) && OnceIn(s.orgLog, orgId)
    && projectId == ProjectId(user) && OnceIn(s.projectLog, projectId)
    && projectId in s.tables.projects && s.tables.projects[projectId].organizationId == orgId
    && (forall k :: k in s.tables.keys && s.tables.keys[k].request == r <==> k == keyId)
    && keyId in s.tables.keys && s.tables.keys[keyId].projectId == projectId
  }

  lemma SuccessAgrees(s: State, r: nat)
    requires Inv(s) && r in s.stages && s.stages[r].Success?
    ensures var g := s.stages[r]; Agrees(s, r, g.user, g.orgId, g.projectId, g.keyId)
  {
    var g := s.stages[r];
    assert StageOk(s, r);
    assert g.orgId in s.orgLog && g.projectId in s.projectLog;
  }

  // ----- the race never surfaces as an error -----

  predicate AllSmooth(es: seq<Event>) {
    forall k :: 0 <= k < |es| ==> es[k].Smooth()
  }

  /** Without store failures a re-fetch follows a conflict only, so the row is there. */
  predicate CalmStage(s: State, r: nat) {
    r in s.stages ==>
      && !s.stages[r].Failure?
      && (s.stages[r].AtOrg? && s.stages[r].call == Fetch ==> OrgId(s.stages[r].user) in s.tables.orgs)
      && (s.stages[r].AtProject? && s.stages[r].call == Fetch ==> ProjectId(s.stages[r].user) in s.tables.projects)
  }

  lemma StepKeepsCalm(s: State, e: Event, r: nat)
    requires Inv(s) && Enabled(s, e) && e.Smooth() && CalmStage(s, r) && CalmStage(s, e.r)
    ensures CalmStage(Do(s, e), r)
  {
    StepGrows(s, e);
    assert StageOk(s, e.r);
  }

  lemma {:induction false} RunKeepsCalm(es: seq<Event>)
    requires After(es).Some? && AllSmooth(es)
    ensures forall r :: CalmStage(After(es).value, r)
    decreases |es|
  {
    if es != [] {
      RunKeepsInv(es[..|es| - 1]);
      RunKeepsCalm(es[..|es| - 1]);
      forall r ensures CalmStage(After(es).value, r) {
        StepKeepsCalm(After(es[..|es| - 1]).value, es[|es| - 1], r);
      }
    }
  }

  /** If the store itself never fails, no login fails, however the requests race. */
  lemma RacesAreHarmless(es: seq<Event>, r: nat)
    requires After(es).Some? && AllSmooth(es) && r in After(es).value.stages
    ensures !After(es).value.stages[r].Failure?
  {
    RunKeepsCalm(es);
    assert CalmStage(After(es).value, r);
  }

  // ----- a provisioning that runs alone -----

  lemma Extend(es: seq<Event>, e: Event) returns (es': seq<Event>, s': State)
    requires After(es).Some? && Enabled(After(es).value, e)
    ensures es' == es + [e] && After(es') == Some(s') && s' == Do(After(es).value, e)
  {
    es' := es + [e];
    assert es'[..|es'| - 1] == es;
    s' := Do(After(es).value, e);
  }

  /** `es'` continues `es` by steps of request `r` only. */
  predicate Continues(es: seq<Event>, es': seq<Event>, r: nat) {
    es <= es' && forall k :: |es| <= k < |es'| ==> es'[k].r == r
  }

  lemma LoneOrg(es: seq<Event>, s: State, r: nat, user: string, email: string, t: Troubles)
    returns (es': seq<Event>, s': State)
    requires After(es) == Some(s) && r in s.stages && s.stages[r] == AtOrg(Get, user)
    ensures Continues(es, es', r) && After(es') == Some(s')
    ensures var org := OrgEnsured(s.tables, user, email, t);
      s'.tables == org.0
      && s'.stages == s.stages[r := if org.1 then AtProject(Get, user, OrgId(user)) else Failure(user)]
  {
    var es1, s1 := Extend(es, GetOrg(r, t.orgGet));
    es', s' := es1, s1;
    if !(t.orgGet == Fine && OrgId(user) in s.tables.orgs) {
      es', s' := LoneOrgCreate(es1, s1, r, user, email, t);
    }
  }

  lemma LoneOrgCreate(es: seq<Event>, s: State, r: nat, user: string, email: string, t: Troubles)
    returns (es': seq<Event>, s': State)
    requires After(es) == Some(s) && r in s.stages && s.stages[r] == AtOrg(Create, user)
    requires OrgId(user) in s.tables.orgs ==> t.orgGet != Fine
    ensures Continues(es, es', r) && After(es') == Some(s')
    ensures var org := OrgEnsured(s.tables, user, email, t);
      s'.tables == org.0
      && s'.stages == s.stages[r := if org.1 then AtProject(Get, user, OrgId(user)) else Failure(user)]
  {
    var es1, s1 := Extend(es, CreateOrg(r, OrgName(user, email), t.orgCreate));
    es', s' := es1, s1;
    if !OrgInserted(s.tables, OrgId(user), t.orgCreate) {
      es', s' := Extend(es1, FetchOrg(r, t.orgFetch));
    }
  }

  lemma LoneProject(es: seq<Event>, s: State, r: nat, user: string, t: Troubles)
    returns (es': seq<Event>, s': State)
    requires After(es) == Some(s) && r in s.stages && s.stages[r] == AtProject(Get, user, OrgId(user))
    ensures Continues(es, es', r) && After(es') == Some(s')
    ensures var project := ProjectEnsured(s.tables, user, t);
      s'.tables == project.0
      && s'.stages == s.stages[r := if project.1 then AtKey(user, OrgId(user), ProjectId(user)) else Failure(user)]
  {
    var es1, s1 := Extend(es, GetProject(r, t.projectGet));
    es', s' := es1, s1;
    if !(t.projectGet == Fine && ProjectId(user) in s.tables.projects) {
      es', s' := LoneProjectCreate(es1, s1, r, user, t);
    }
  }

  lemma LoneProjectCreate(es: seq<Event>, s: State, r: nat, user: string, t: Troubles)
    returns (es': seq<Event>, s': State)
    requires After(es) == Some(s) && r in s.stages && s.stages[r] == AtProject(Create, user, OrgId(user))
    requires ProjectId(user) in s.tables.projects ==> t.projectGet != Fine
    ensures Continues(es, es', r) && After(es') == Some(s')
    ensures var project := ProjectEnsured(s.tables, user, t);
      s'.tables == project.0
      && s'.stages == s.stages[r := if project.1 then AtKey(user, OrgId(user), ProjectId(user)) else Failure(user)]
  {
    var es1, s1 := Extend(es, CreateProject(r, t.projectCreate));
    es', s' := es1, s1;
    if !ProjectInserted(s.tables, ProjectId(user), Project(OrgId(user)), t.projectCreate) {
      es', s' := Extend(es1, FetchProject(r, t.projectFetch));
    }
  }

  lemma LoneKey(es: seq<Event>, s: State, r: nat, user: string, keyId: string, t: Troubles)
    returns (es': seq<Event>, s': State)
    requires After(es) == Some(s) && r in s.stages && s.stages[r] == AtKey(user, OrgId(user), ProjectId(user))
    requires keyId !in s.tables.keys
    ensures Continues(es, es', r) && After(es') == Some(s')
    ensures var key := KeyIssued(s.tables, user, r, keyId, t);
      EndsIn(s, s', r, key.0, FinalStage(key.1, user, keyId))
  {
    es', s' := Extend(es, CreateKey(r, keyId, t.keyCreate));
  }

  lemma LoneProjectAndKey(es: seq<Event>, s: State, r: nat, user: string, keyId: string, t: Troubles)
    returns (es': seq<Event>, s': State)
    requires After(es) == Some(s) && r in s.stages && s.stages[r] == AtProject(Get, user, OrgId(user))
    requires keyId !in s.tables.keys
    ensures Continues(es, es', r) && After(es') == Some(s')
    ensures var project := ProjectEnsured(s.tables, user, t);
      var result := if project.1 then KeyIssued(project.0, user, r, keyId, t) else project;
      EndsIn(s, s', r, result.0, FinalStage(result.1, user, keyId))
  {
    var es1, s1 := LoneProject(es, s, r, user, t);
    es', s' := es1, s1;
    if ProjectEnsured(s.tables, user, t).1 {
      es', s' := LoneKey(es1, s1, r, user, keyId, t);
    }
  }

  /** Only the tables and the stage of request `r` are different. */
  predicate EndsIn(s: State, s': State, r: nat, tables: Tables, stage: Stage) {
    s'.tables == tables && s'.stages == s.stages[r := stage]
  }

  function FinalStage(ok: bool, user: string, keyId: string): Stage {
    if ok then Success(user, OrgId(user), ProjectId(user), keyId) else Failure(user)
  }

  lemma LoneFromOrg(es: seq<Event>, s: State, r: nat, user: string, email: string, keyId: string, t: Troubles)
    returns (es': seq<Event>, s': State)
    requires After(es) == Some(s) && r in s.stages && s.stages[r] == AtOrg(Get, user) && keyId !in s.tables.keys
    ensures Continues(es, es', r) && After(es') == Some(s')
    ensures var result := Provisioned(s.tables, user, email, r, keyId, t);
      EndsIn(s, s', r, result.0, FinalStage(result.1, user, keyId))
  {
    var es1, s1 := LoneOrg(es, s, r, user, email, t);
    es', s' := es1, s1;
    if OrgEnsured(s.tables, user, email, t).1 {
      es', s' := LoneProjectAndKey(es1, s1, r, user, keyId, t);
    }
  }

  /**
   * `Provision` running alone is a run of this model: from any state a run reaches, the steps of one
   * fresh request end in the tables the method leaves, and in success exactly when the method succeeds.
   */
  lemma LoneProvision(es: seq<Event>, s: State, r: nat, user: string, email: string, keyId: string, t: Troubles)
    returns (es': seq<Event>, s': State)
    requires After(es) == Some(s) && r !in s.stages && keyId !in s.tables.keys
    ensures Continues(es, es', r) && After(es') == Some(s')
    ensures var result := Provisioned(s.tables, user, email, r, keyId, t);
      EndsIn(s, s', r, result.0, FinalStage(result.1, user, keyId))
  {
    var es1, s1 := Extend(es, Login(r, user));
    es', s' := LoneFromOrg(es1, s1, r, user, email, keyId, t);
  }
}
