/**
 * Any number of daemon workers polling one task queue. Listing, claiming, executing and reporting
 * are separate steps; requests and responses can be lost and workers can crash at any point. Other
 * clients may call the claim and complete endpoints too.
 */
module TaskQueue {
  import opened Wrappers
  import opened TaskStore

  datatype Report = Report(summary: string, diff: string, failed: bool)

  /** What a worker process is doing; a process not listed is idle. */
  datatype Work = Chosen(id: string) | Holding(id: string) | Reporting(id: string, report: Report)

  /** `None` claims for a client that is not a worker. */
  datatype Claim = Claim(process: Option<nat>, id: string)

  datatype Execution = Execution(process: nat, id: string, report: Report)

  datatype State = State(
    now: int, rows: Table, work: map<nat, Work>, claims: seq<Claim>, executions: seq<Execution>)

  datatype Event =
    | Tick(to: int)
    | Enqueue(task: RemoteTask)
    | List(p: nat, projectId: string, tasks: seq<RemoteTask>)
    | SendClaim(p: nat, workerId: string, arrives: bool, answered: bool)
    | Execute(p: nat, report: Report)
    | SendReport(p: nat, arrives: bool)
    | Crash(p: nat)
    | OtherClaim(id: string, workerId: string)
    | OtherComplete(id: string, report: Report)

  const INITIAL := State(0, map[], map[], [], [])

  ghost predicate Enabled(s: State, e: Event) {
    match e
    case Tick(to) => s.now <= to
    case Enqueue(t) => t.id !in s.rows && t.status == Pending
    case List(p, projectId, tasks) => p !in s.work && tasks != [] && IsPendingList(s.rows, projectId, tasks)
    case SendClaim(p, _, _, _) => p in s.work && s.work[p].Chosen?
    case Execute(p, _) => p in s.work && s.work[p].Holding?
    case SendReport(p, _) => p in s.work && s.work[p].Reporting?
    case Crash(p) => p in s.work
    case OtherClaim(_, _) => true
    case OtherComplete(_, _) => true
  }

  ghost function Do(s: State, e: Event): State
    requires Enabled(s, e)
  {
    match e
    case Tick(to) => s.(now := to)
    case Enqueue(t) => s.(rows := s.rows[t.id := t])
    case List(p, _, tasks) => s.(work := s.work[p := Chosen(tasks[0].id)])
    case SendClaim(p, workerId, arrives, answered) =>
      var id := s.work[p].id;
      if !arrives || !IsClaimable(s.rows, id) then s.(work := s.work - {p})
      else
        s.(rows := AfterClaim(s.rows, id, workerId, s.now),
           claims := s.claims + [Claim(Some(p), id)],
           work := if answered then s.work[p := Holding(id)] else s.work - {p})
    case Execute(p, report) =>
      s.(work := s.work[p := Reporting(s.work[p].id, report)],
         executions := s.executions + [Execution(p, s.work[p].id, report)])
    case SendReport(p, arrives) =>
      var w := s.work[p];
      s.(work := s.work - {p},
         rows := if arrives
                 then AfterComplete(s.rows, w.id, w.report.summary, w.report.diff, w.report.failed, s.now)
                 else s.rows)
    case Crash(p) => s.(work := s.work - {p})
    case OtherClaim(id, workerId) =>
      if IsClaimable(s.rows, id)
      then s.(rows := AfterClaim(s.rows, id, workerId, s.now), claims := s.claims + [Claim(None, id)])
      else s
    case OtherComplete(id, r) => s.(rows := AfterComplete(s.rows, id, r.summary, r.diff, r.failed, s.now))
  }

  ghost function After(es: seq<Event>): Option<State> {
    if es == [] then Some(INITIAL)
    else
      match After(es[..|es| - 1])
      case None => None
      case Some(s) => if Enabled(s, es[|es| - 1]) then Some(Do(s, es[|es| - 1])) else None
  }

  // ----- at most one claim and one execution -----

  ghost predicate Owns(s: State, p: nat, id: string) {
    Claim(Some(p), id) in s.claims
  }

  /** Claimed once, and no longer pending. */
  ghost predicate ClaimsOk(s: State) {
    && (forall i, j :: 0 <= i < j < |s.claims| ==> s.claims[i].id != s.claims[j].id)
    && (forall i :: 0 <= i < |s.claims| ==> s.claims[i].id in s.rows && s.rows[s.claims[i].id].status != Pending)
    && (forall id :: id in s.rows ==> s.rows[id].status in {Pending, Running, Completed, Failed})
  }

  ghost predicate Executed(s: State, id: string) {
    exists k :: 0 <= k < |s.executions| && s.executions[k].id == id
  }

  /** A worker past the claim owns the task; one that holds it has not executed it, one that reports has. */
  ghost predicate WorkOk(s: State, p: nat) {
    p in s.work ==>
      && (s.work[p].Holding? ==> Owns(s, p, s.work[p].id) && !Executed(s, s.work[p].id))
      && (s.work[p].Reporting? ==>
            Owns(s, p, s.work[p].id) && Execution(p, s.work[p].id, s.work[p].report) in s.executions)
  }

  ghost predicate ExecutionsOk(s: State) {
    && (forall i, j :: 0 <= i < j < |s.executions| ==> s.executions[i].id != s.executions[j].id)
    && (forall i :: 0 <= i < |s.executions| ==> Owns(s, s.executions[i].process, s.executions[i].id))
  }

  ghost predicate Inv(s: State) {
    ClaimsOk(s) && ExecutionsOk(s) && forall p :: WorkOk(s, p)
  }

  /** Rows keep their identity and never return to pending; the histories only grow. */
  ghost predicate Grows(s: State, s': State) {
    && (forall id :: id in s.rows ==> id in s'.rows && (s.rows[id].status != Pending ==> s'.rows[id].status != Pending))
    && s.claims <= s'.claims && s.executions <= s'.executions
  }

  lemma StepGrows(s: State, e: Event)
    requires Enabled(s, e)
    ensures Grows(s, Do(s, e))
  {
  }

  lemma StepKeepsClaims(s: State, e: Event)
    requires ClaimsOk(s) && Enabled(s, e)
    ensures ClaimsOk(Do(s, e))
  {
  }

  lemma OwnerUnique(s: State, p: nat, q: nat, id: string)
    requires ClaimsOk(s) && Owns(s, p, id) && Owns(s, q, id)
    ensures p == q
  {
  }

  lemma StepKeepsExecutions(s: State, e: Event)
    requires Inv(s) && Enabled(s, e)
    ensures ExecutionsOk(Do(s, e))
  {
    StepGrows(s, e);
    var s' := Do(s, e);
    assert forall i :: 0 <= i < |s.claims| ==> s'.claims[i] == s.claims[i];
    if e.Execute? {
      assert WorkOk(s, e.p);
      assert forall i :: 0 <= i < |s.executions| ==> s.executions[i].id != s.work[e.p].id;
    }
  }

  lemma StepKeepsWork(s: State, e: Event, p: nat)
    requires Inv(s) && Enabled(s, e)
    ensures WorkOk(Do(s, e), p)
  {
    var s' := Do(s, e);
    StepGrows(s, e);
    StepKeepsClaims(s, e);
    assert WorkOk(s, p);
    assert forall c :: c in s.claims ==> c in s'.claims;
    assert forall x :: x in s.executions ==> x in s'.executions;
    if p in s'.work && s'.work[p].Holding? {
      HoldingNotExecuted(s, e, p);
    }
  }

  lemma HoldingNotExecuted(s: State, e: Event, p: nat)
    requires Inv(s) && Enabled(s, e) && p in Do(s, e).work && Do(s, e).work[p].Holding?
    ensures Owns(Do(s, e), p, Do(s, e).work[p].id) && !Executed(Do(s, e), Do(s, e).work[p].id)
  {
    var s' := Do(s, e);
    var id := s'.work[p].id;
    assert WorkOk(s, p);
    if p in s.work && s.work[p] == s'.work[p] {
      assert Claim(Some(p), id) in s'.claims;
      if e.Execute? {
        assert WorkOk(s, e.p) && e.p != p;
        if s.work[e.p].id == id {
          OwnerUnique(s, p, e.p, id);
        }
      }
    } else {
      assert s'.claims[|s.claims|] == Claim(Some(p), id);
      assert IsClaimable(s.rows, id);
      ExecutedIsClaimed(s, id);
    }
  }

  lemma ExecutedIsClaimed(s: State, id: string)
    requires ClaimsOk(s) && ExecutionsOk(s)
    ensures Executed(s, id) ==> !IsClaimable(s.rows, id)
  {
    if Executed(s, id) {
      var k :| 0 <= k < |s.executions| && s.executions[k].id == id;
      assert Owns(s, s.executions[k].process, id);
    }
  }

  lemma StepKeepsInv(s: State, e: Event)
    requires Inv(s) && Enabled(s, e)
    ensures Inv(Do(s, e))
  {
    StepKeepsClaims(s, e);
    StepKeepsExecutions(s, e);
    forall p ensures WorkOk(Do(s, e), p) {
      StepKeepsWork(s, e, p);
    }
  }

  lemma {:induction false} RunKeepsInv(es: seq<Event>)
    requires After(es).Some?
    ensures Inv(After(es).value)
    decreases |es|
  {
    if es != [] {
      RunKeepsInv(es[..|es| - 1]);
      StepKeepsInv(After(es[..|es| - 1]).value, es[|es| - 1]);
    }
  }

  /**
   * In every interleaving, with any losses, crashes and other clients: a task is claimed at most once
   * and executed at most once, by the process whose claim succeeded, and its status is one of four.
   */
  lemma AtMostOnce(es: seq<Event>)
    requires After(es).Some?
    ensures var s := After(es).value;
      && (forall i, j :: 0 <= i < j < |s.claims| ==> s.claims[i].id != s.claims[j].id)
      && (forall i, j :: 0 <= i < j < |s.executions| ==> s.executions[i].id != s.executions[j].id)
      && (forall i :: 0 <= i < |s.executions| ==> Claim(Some(s.executions[i].process), s.executions[i].id) in s.claims)
      && (forall id :: id in s.rows ==> s.rows[id].status in {Pending, Running, Completed, Failed})
  {
    RunKeepsInv(es);
    var s := After(es).value;
    forall i | 0 <= i < |s.executions| ensures Claim(Some(s.executions[i].process), s.executions[i].id) in s.claims {
      assert Owns(s, s.executions[i].process, s.executions[i].id);
    }
  }

  /**
   * Whatever happens later, a task that is not pending never is again, no row disappears, and no claim
   * or execution is forgotten.
   */
  lemma {:induction false} NeverPendingAgain(es: seq<Event>, more: seq<Event>)
    requires After(es + more).Some?
    ensures After(es).Some? && Grows(After(es).value, After(es + more).value)
    decreases |more|
  {
    if more == [] {
      assert es + more == es;
    } else {
      var before := more[..|more| - 1];
      assert (es + more)[..|es + more| - 1] == es + before;
      NeverPendingAgain(es, before);
      StepGrows(After(es + before).value, more[|more| - 1]);
    }
  }

  // ----- the claimer's name -----

  /** The parts of a task no update touches. */
  predicate SameTask(t: RemoteTask, u: RemoteTask) {
    t.id == u.id && t.projectId == u.projectId && t.prompt == u.prompt && t.createdAt == u.createdAt
  }

  predicate SameClaim(t: RemoteTask, u: RemoteTask) {
    SameTask(t, u) && t.claimedBy == u.claimedBy
  }

  lemma StepKeepsClaimer(s: State, e: Event, id: string)
    requires Enabled(s, e) && id in s.rows && s.rows[id].status != Pending
    ensures id in Do(s, e).rows && SameClaim(Do(s, e).rows[id], s.rows[id])
  {
  }

  lemma {:induction false} ClaimerStays(es: seq<Event>, more: seq<Event>, id: string)
    requires After(es).Some? && id in After(es).value.rows && After(es).value.rows[id].status != Pending
    requires After(es + more).Some?
    ensures id in After(es + more).value.rows
    ensures SameClaim(After(es + more).value.rows[id], After(es).value.rows[id])
    decreases |more|
  {
    if more == [] {
      assert es + more == es;
    } else {
      var before := more[..|more| - 1];
      assert (es + more)[..|es + more| - 1] == es + before;
      NeverPendingAgain(es, before);
      ClaimerStays(es, before, id);
      StepKeepsClaimer(After(es + before).value, more[|more| - 1], id);
    }
  }

  /**
   * A claim that arrives at a pending task sets it running under the worker's name, and the task
   * keeps that name, whatever happens later.
   */
  lemma ClaimNamesWorker(
    es: seq<Event>, p: nat, workerId: string, answered: bool, claimed: seq<Event>, more: seq<Event>, id: string)
    requires After(es).Some? && claimed == es + [SendClaim(p, workerId, true, answered)]
    requires After(claimed).Some? && After(claimed + more).Some?
    requires p in After(es).value.work && After(es).value.work[p] == Chosen(id)
    requires id in After(es).value.rows && After(es).value.rows[id].status == Pending
    ensures var s, t := After(es).value, After(claimed).value;
      && id in t.rows && t.rows[id].status == Running && t.rows[id].claimedBy == workerId
      && t.rows[id].updatedAt == s.now && SameTask(t.rows[id], s.rows[id])
    ensures id in After(claimed + more).value.rows && After(claimed + more).value.rows[id].claimedBy == workerId
  {
    assert claimed[..|claimed| - 1] == es;
    ClaimerStays(claimed, more, id);
  }

  // ----- results come from the claimer -----

  predicate FollowsWorkerLoop(es: seq<Event>) {
    forall k :: 0 <= k < |es| ==> !es[k].OtherComplete?
  }

  /** The row of a finished task shows exactly one execution's report. */
  ghost predicate ResultOk(s: State, id: string) {
    id in s.rows && s.rows[id].status in {Completed, Failed} ==>
      exists x :: x in s.executions && x.id == id
        && s.rows[id].resultSummary == x.report.summary && s.rows[id].diff == x.report.diff
        && (s.rows[id].status == Failed <==> x.report.failed)
  }

  lemma StepKeepsResult(s: State, e: Event, id: string)
    requires Inv(s) && Enabled(s, e) && !e.OtherComplete? && ResultOk(s, id)
    ensures ResultOk(Do(s, e), id)
  {
    var s' := Do(s, e);
    StepGrows(s, e);
    assert forall x :: x in s.executions ==> x in s'.executions;
    if e.SendReport? {
      var w := s.work[e.p];
      assert WorkOk(s, e.p);
      if w.id == id && e.arrives {
        assert Execution(e.p, id, w.report) in s'.executions;
      }
    }
  }

  lemma {:induction false} RunKeepsResult(es: seq<Event>, id: string)
    requires After(es).Some? && FollowsWorkerLoop(es)
    ensures ResultOk(After(es).value, id)
    decreases |es|
  {
    if es != [] {
      RunKeepsInv(es[..|es| - 1]);
      RunKeepsResult(es[..|es| - 1], id);
      StepKeepsResult(After(es[..|es| - 1]).value, es[|es| - 1], id);
    }
  }

  /**
   * If nobody but workers reports completion, a finished task was executed by its single claimer and
   * shows exactly what that process reported.
   */
  lemma FinishedTaskShowsClaimersReport(es: seq<Event>, id: string)
    requires After(es).Some? && FollowsWorkerLoop(es)
    requires id in After(es).value.rows && After(es).value.rows[id].status in {Completed, Failed}
    ensures exists x :: x in After(es).value.executions && ShowsReportOf(After(es).value, id, x)
  {
    RunKeepsInv(es);
    RunKeepsResult(es, id);
    FinishedShows(After(es).value, id);
  }

  /** `x` is the execution by the only claimer of the task, and the row shows its report. */
  ghost predicate ShowsReportOf(s: State, id: string, x: Execution)
    requires id in s.rows
  {
    && x.id == id && Claim(Some(x.process), id) in s.claims
    && (forall c :: c in s.claims && c.id == id ==> c == Claim(Some(x.process), id))
    && s.rows[id].resultSummary == x.report.summary && s.rows[id].diff == x.report.diff
    && (s.rows[id].status == Failed <==> x.report.failed)
  }

  lemma FinishedShows(s: State, id: string)
    requires Inv(s) && ResultOk(s, id) && id in s.rows && s.rows[id].status in {Completed, Failed}
    ensures exists x :: x in s.executions && ShowsReportOf(s, id, x)
  {
    var x :| x in s.executions && x.id == id
        && s.rows[id].resultSummary == x.report.summary && s.rows[id].diff == x.report.diff
        && (s.rows[id].status == Failed <==> x.report.failed);
    assert Owns(s, x.process, x.id);
    assert ShowsReportOf(s, id, x);
  }

  // ----- what stays as it is -----

  /** Under the worker loop, a task somebody holds or is about to report is running. */
  ghost predicate HeldIsRunning(s: State) {
    forall p :: p in s.work && !s.work[p].Chosen? ==> s.work[p].id in s.rows && s.rows[s.work[p].id].status == Running
  }

  lemma StepKeepsHeldRunning(s: State, e: Event)
    requires Inv(s) && HeldIsRunning(s) && Enabled(s, e) && !e.OtherComplete?
    ensures HeldIsRunning(Do(s, e))
  {
    var s' := Do(s, e);
    forall p | p in s'.work && !s'.work[p].Chosen?
      ensures s'.work[p].id in s'.rows && s'.rows[s'.work[p].id].status == Running
    {
      assert WorkOk(s, p);
      if e.SendReport? && s.work[e.p].id == s'.work[p].id {
        assert WorkOk(s, e.p);
        OwnerUnique(s, p, e.p, s'.work[p].id);
      }
    }
  }

  /** Nobody holds the task or is about to report on it. */
  ghost predicate Unheld(s: State, id: string) {
    id in s.rows && s.rows[id].status != Pending && forall p :: p in s.work && !s.work[p].Chosen? ==> s.work[p].id != id
  }

  lemma StepKeepsUnheld(s: State, e: Event, id: string)
    requires Unheld(s, id) && Enabled(s, e) && !e.OtherComplete?
    ensures Unheld(Do(s, e), id) && Do(s, e).rows[id] == s.rows[id]
  {
  }

  lemma {:induction false} LoopKeepsHeldRunning(es: seq<Event>)
    requires After(es).Some? && FollowsWorkerLoop(es)
    ensures HeldIsRunning(After(es).value)
    decreases |es|
  {
    if es != [] {
      RunKeepsInv(es[..|es| - 1]);
      LoopKeepsHeldRunning(es[..|es| - 1]);
      StepKeepsHeldRunning(After(es[..|es| - 1]).value, es[|es| - 1]);
    }
  }

  lemma {:induction false} UnheldForever(es: seq<Event>, more: seq<Event>, id: string)
    requires After(es + more).Some? && FollowsWorkerLoop(more)
    requires After(es).Some? && Unheld(After(es).value, id)
    ensures Unheld(After(es + more).value, id)
    ensures After(es + more).value.rows[id] == After(es).value.rows[id]
    decreases |more|
  {
    if more == [] {
      assert es + more == es;
    } else {
      var n := |more|;
      assert (es + more)[..|es + more| - 1] == es + more[..n - 1];
      UnheldForever(es, more[..n - 1], id);
      StepKeepsUnheld(After(es + more[..n - 1]).value, more[n - 1], id);
    }
  }

  /** A finished task never changes again as long as nobody but workers reports completion. */
  lemma FinishedIsFinal(es: seq<Event>, more: seq<Event>, id: string)
    requires After(es).Some? && FollowsWorkerLoop(es) && After(es + more).Some? && FollowsWorkerLoop(more)
    requires id in After(es).value.rows && After(es).value.rows[id].status in {Completed, Failed}
    ensures id in After(es + more).value.rows && After(es + more).value.rows[id] == After(es).value.rows[id]
  {
    LoopKeepsHeldRunning(es);
    UnheldForever(es, more, id);
  }

  /**
   * A running task whose claimer crashed, or never saw the answer to its claim, stays running
   * forever: no worker can claim it again.
   */
  lemma OrphanStaysRunning(es: seq<Event>, more: seq<Event>, id: string)
    requires After(es).Some? && After(es + more).Some? && FollowsWorkerLoop(more)
    requires Unheld(After(es).value, id) && After(es).value.rows[id].status == Running
    ensures id in After(es + more).value.rows && After(es + more).value.rows[id] == After(es).value.rows[id]
  {
    UnheldForever(es, more, id);
  }

  /**
   * The restriction to workers is needed: the completion endpoint has no guard, so after any run any
   * client's report replaces the result of any task, and a report nobody produced ends up shown.
   */
  lemma OtherCompleteOverwrites(es: seq<Event>, id: string, r: Report) returns (es': seq<Event>)
    requires After(es).Some? && id in After(es).value.rows
    ensures es' == es + [OtherComplete(id, r)] && After(es').Some?
    ensures var t := After(es').value.rows[id];
      t.resultSummary == r.summary && t.diff == r.diff && t.status == if r.failed then Failed else Completed
    ensures (forall x :: x in After(es).value.executions && x.id == id ==> x.report != r)
            ==> !ResultOk(After(es').value, id)
  {
    es' := es + [OtherComplete(id, r)];
    assert es'[..|es'| - 1] == es;
  }

  /** The task a worker goes for is an oldest pending one of its project. */
  lemma ChoosesOldest(s: State, p: nat, projectId: string, tasks: seq<RemoteTask>, id: string)
    requires Enabled(s, List(p, projectId, tasks))
    requires id in s.rows && s.rows[id].projectId == projectId && s.rows[id].status == Pending
    ensures var chosen := Do(s, List(p, projectId, tasks)).work[p].id;
      IsClaimable(s.rows, chosen) && s.rows[chosen].createdAt <= s.rows[id].createdAt
  {
    if k :| 0 <= k < |tasks| && tasks[k].id == id {
      assert tasks[0].createdAt <= tasks[k].createdAt;
    }
  }
}
