/** The remote task queue's table and its two guarded and unguarded updates. */
module TaskStore {
  import opened Wrappers

  datatype TaskStatus = Pending | Claimed | Running | Completed | Failed | Cancelled

  datatype RemoteTask = RemoteTask(
    id: string, projectId: string, prompt: string, status: TaskStatus,
    resultSummary: string, diff: string, claimedBy: string, createdAt: int, updatedAt: int)

  type Table = map<string, RemoteTask>

  function ClaimRow(t: RemoteTask, workerId: string, now: int): RemoteTask {
    t.(status := Running, claimedBy := workerId, updatedAt := now)
  }

  function CompleteRow(t: RemoteTask, summary: string, diff: string, status: TaskStatus, now: int): RemoteTask {
    t.(status := status, resultSummary := summary, diff := diff, updatedAt := now)
  }

  predicate IsClaimable(rows: Table, id: string) {
    id in rows && rows[id].status == Pending
  }

  function AfterClaim(rows: Table, id: string, workerId: string, now: int): Table {
    if IsClaimable(rows, id) then rows[id := ClaimRow(rows[id], workerId, now)] else rows
  }

  function AfterComplete(rows: Table, id: string, summary: string, diff: string, failed: bool, now: int): Table {
    if id in rows then rows[id := CompleteRow(rows[id], summary, diff, if failed then Failed else Completed, now)]
    else rows
  }

  /** A claim takes effect on a pending task only; it sets status, worker and time, nothing else. */
  lemma ClaimExactly(rows: Table, id: string, workerId: string, now: int)
    ensures var after := AfterClaim(rows, id, workerId, now);
      && after - {id} == rows - {id}
      && (id in rows && rows[id].status == Pending ==>
            var t := rows[id];
            id in after && after[id] == RemoteTask(t.id, t.projectId, t.prompt, Running, t.resultSummary, t.diff,
                                                   workerId, t.createdAt, now))
      && (!(id in rows && rows[id].status == Pending) ==> after == rows)
  {
  }

  /** A completion takes effect on any task; it sets result, status and time, nothing else. */
  lemma CompleteExactly(rows: Table, id: string, summary: string, diff: string, failed: bool, now: int)
    ensures var after := AfterComplete(rows, id, summary, diff, failed, now);
      && after - {id} == rows - {id}
      && (id !in rows ==> after == rows)
      && (id in rows ==>
            var t := rows[id];
            id in after && after[id] == RemoteTask(t.id, t.projectId, t.prompt, if failed then Failed else Completed,
                                                   summary, diff, t.claimedBy, t.createdAt, now))
  {
  }

  /** The answer to the pending query: the ten oldest pending tasks of the project, oldest first. */
  ghost predicate IsPendingList(rows: Table, projectId: string, tasks: seq<RemoteTask>) {
    && |tasks| <= 10
    && (forall k :: 0 <= k < |tasks| ==>
          && tasks[k].id in rows && rows[tasks[k].id] == tasks[k]
          && tasks[k].projectId == projectId && tasks[k].status == Pending)
    && (forall j, k :: 0 <= j < k < |tasks| ==> tasks[j].id != tasks[k].id && tasks[j].createdAt <= tasks[k].createdAt)
    && (forall id :: id in rows && rows[id].projectId == projectId && rows[id].status == Pending ==>
          (exists k :: 0 <= k < |tasks| && tasks[k].id == id)
          || (|tasks| == 10 && tasks[9].createdAt <= rows[id].createdAt))
  }

  class TaskRepo {
    var rows: Table
    /** The ids of the projects table. */
    var projects: set<string>

    constructor (projects: set<string>)
      ensures rows == map[] && this.projects == projects
    {
      rows, this.projects := map[], projects;
    }

    /** The id is the primary key and the project must exist. */
    method Create(t: RemoteTask) returns (ok: bool)
      modifies this`rows
      ensures ok <==> t.id !in old(rows) && t.projectId in projects
      ensures rows == if ok then old(rows)[t.id := t] else old(rows)
    {
      ok := t.id !in rows && t.projectId in projects;
      if ok {
        rows := rows[t.id := t];
      }
    }

    method Claim(id: string, workerId: string, now: int) returns (task: Option<RemoteTask>)
      modifies this`rows
      ensures rows == AfterClaim(old(rows), id, workerId, now)
      ensures task == if IsClaimable(old(rows), id) then Some(rows[id]) else None
    {
      if id in rows && rows[id].status == Pending {
        rows := rows[id := rows[id].(status := Running, claimedBy := workerId, updatedAt := now)];
        return Some(rows[id]);
      }
      return None;
    }

    /** No guard on the status. */
    method Complete(id: string, summary: string, diff: string, status: TaskStatus, now: int) returns (ok: bool)
      modifies this`rows
      ensures ok <==> id in old(rows)
      ensures rows == if ok then old(rows)[id := CompleteRow(old(rows)[id], summary, diff, status, now)] else old(rows)
    {
      ok := id in rows;
      if ok {
        rows := rows[id := rows[id].(status := status, resultSummary := summary, diff := diff, updatedAt := now)];
      }
    }
  }

  /** The claim and complete endpoints in front of the table. */
  class TaskHandlers {
    const store: TaskRepo

    constructor (store: TaskRepo)
      ensures this.store == store
    {
      this.store := store;
    }

    method ClaimEndpoint(id: string, workerId: string, now: int) returns (task: Option<RemoteTask>)
      modifies store`rows
      ensures store.rows
           == AfterClaim(old(store.rows), id, if workerId == "" then "switchyard-cli-worker" else workerId, now)
      ensures task == if IsClaimable(old(store.rows), id) then Some(store.rows[id]) else None
    {
      var worker := workerId;
      if worker == "" {
        worker := "switchyard-cli-worker";
      }
      task := store.Claim(id, worker, now);
    }

    method CompleteEndpoint(id: string, summary: string, diff: string, failed: bool, now: int) returns (ok: bool)
      modifies store`rows
      ensures store.rows == AfterComplete(old(store.rows), id, summary, diff, failed, now)
      ensures ok <==> id in old(store.rows)
    {
      var status := Completed;
      if failed {
        status := Failed;
      }
      ok := store.Complete(id, summary, diff, status, now);
    }
  }
}
