/**
 The service calls as they run: each one a transaction over the tables, which an error rolls back
 (src/domain/task-service.ts, src/domain/claim-service.ts).
 */
module TaskService {
  import opened Wrappers
  import opened Lifecycle
  import opened Completion
  import opened TaskTables
  import TaskRuns

  /** The tables after a call: those of the specification, or unchanged when it fails. */
  ghost predicate Follows(before: Db, after: Db, failure: Option<Error>, spec: Result<Db, Error>) {
    match spec
    case Ok(db) => failure.None? && after == db
    case Err(error) => failure == Some(error) && after == before
  }

  /** What every call keeps of the tables (see TaskRuns). */
  ghost predicate Keeps(before: Db, after: Db) { TaskRuns.Inv(before) ==> TaskRuns.Inv(after) && TaskRuns.Extends(before, after) }

  /** A call that fails or does what its specification says keeps the tables in order. */
  ghost predicate Safe(db: Db, spec: Result<Db, Error>) { Keeps(db, db) && (spec.Ok? ==> Keeps(db, spec.value)) }

  lemma DependencyKeeps(db: Db, t: TaskId, on: TaskId)
    ensures Safe(db, TaskTables.AddDependency(db, t, on))
  {
    hide TaskRuns.Inv, TaskRuns.Extends;
    TaskRuns.ExtendsReflexive(db);
    var spec := TaskTables.AddDependency(db, t, on);
    if TaskRuns.Inv(db) && spec.Ok? { TaskRuns.RowsUnchanged(db, spec.value); }
  }

  lemma TransitionKeeps(db: Db, t: TaskId, to: Status, fence: Option<Fence>)
    ensures Safe(db, Transition(db, t, to, fence))
  {
    hide TaskRuns.Inv, TaskRuns.Extends;
    TaskRuns.ExtendsReflexive(db);
    if TaskRuns.Inv(db) && Transition(db, t, to, fence).Ok? { TaskRuns.MoveKeeps(db, t, to, fence); }
  }

  lemma ClaimNextKeeps(db: Db, worker: string, lease: int, filter: Filter, now: int, later: int)
    ensures Keeps(db, db)
    ensures var spec := ClaimNext(db, worker, lease, filter, now, later); spec.Ok? ==> Keeps(db, spec.value.0)
  {
    hide TaskRuns.Inv, TaskRuns.Extends;
    TaskRuns.ExtendsReflexive(db);
    if TaskRuns.Inv(db) && ClaimNext(db, worker, lease, filter, now, later).Ok? {
      TaskRuns.ClaimNextKeeps(db, worker, lease, filter, now, later);
    }
  }

  lemma HeartbeatKeeps(db: Db, c: ClaimId, worker: string, lease: int, now: int)
    ensures Safe(db, Heartbeat(db, c, worker, lease, now))
  {
    hide TaskRuns.Inv, TaskRuns.Extends;
    TaskRuns.ExtendsReflexive(db);
    if TaskRuns.Inv(db) && Heartbeat(db, c, worker, lease, now).Ok? {
      TaskRuns.EditKeeps(db, c, db.claims[c].(heartbeatAt := now, leaseExpiresAt := now + lease));
    }
  }

  lemma CloseKeeps(db: Db, c: ClaimId, worker: string, status: ClaimStatus, now: int)
    requires !status.Active?
    ensures Safe(db, Close(db, c, worker, status, now))
  {
    hide TaskRuns.Inv, TaskRuns.Extends;
    TaskRuns.ExtendsReflexive(db);
    if TaskRuns.Inv(db) && Close(db, c, worker, status, now).Ok? {
      TaskRuns.EditKeeps(db, c, db.claims[c].(status := status));
    }
  }

  lemma ReleaseKeeps(db: Db, c: ClaimId, worker: string, requeue: bool, now: int)
    ensures Safe(db, Release(db, c, worker, requeue, now))
  {
    hide TaskRuns.Inv, TaskRuns.Extends;
    TaskRuns.ExtendsReflexive(db);
    if TaskRuns.Inv(db) && Release(db, c, worker, requeue, now).Ok? { TaskRuns.HandBackKeeps(db, c, worker, requeue, now); }
  }

  class TaskStore {
    var tasks: seq<Task>
    var claims: seq<Claim>
    var deps: set<(TaskId, TaskId)>
    var records: Records
    ghost var log: seq<Commit>

    ghost function Contents(): Db reads this { Db(tasks, claims, deps, records, log) }

    constructor ()
      ensures Contents() == EmptyDb
    {
      tasks, claims, deps, log := [], [], {}, [];
      records := Records([], [], [], [], [], []);
    }

    method AddTask(project: string, criteria: Option<Criteria>) returns (t: TaskId)
      modifies this
      ensures Contents() == TaskTables.AddTask(old(Contents()), project, criteria)
      ensures t == |old(tasks)|
      ensures Keeps(old(Contents()), Contents())
    {
      hide TaskRuns.Inv, TaskRuns.Extends;
      if TaskRuns.Inv(Contents()) { TaskRuns.NewTaskKeeps(Contents(), project, criteria); }
      t := |tasks|;
      tasks := tasks + [Task(project, Draft, 0, criteria, None, None, None)];
    }

    method AddDependency(t: TaskId, on: TaskId) returns (failure: Option<Error>)
      modifies this
      ensures Follows(old(Contents()), Contents(), failure, TaskTables.AddDependency(old(Contents()), t, on))
      ensures Keeps(old(Contents()), Contents())
    {
      hide TaskRuns.Inv, TaskRuns.Extends;
      DependencyKeeps(Contents(), t, on);
      if t == on { return Some(SelfDependency); }
      if t >= |tasks| || on >= |tasks| { return Some(TaskNotFound); }
      if (t, on) in deps { return Some(DuplicateDependency); }
      deps := deps + {(t, on)};
      failure := None;
    }

    method IncompleteDependencyCount(t: TaskId) returns (n: nat)
      requires t < |tasks|
      ensures n == |Incomplete(Contents(), t)|
    {
      var open := set d | d in deps && d.0 == t && d.1 < |tasks| && !tasks[d.1].status.Completed? :: d.1;
      n := |open|;
    }

    /** applyTransition: fence, guards and proof, then the compare-and-swap on the row that was read. */
    method ApplyTransition(t: TaskId, to: Status, fence: Option<Fence>) returns (failure: Option<Error>)
      modifies this
      ensures Follows(old(Contents()), Contents(), failure, Transition(old(Contents()), t, to, fence))
      ensures Keeps(old(Contents()), Contents())
    {
      hide TaskRuns.Inv, TaskRuns.Extends;
      TransitionKeeps(Contents(), t, to, fence);
      if fence.Some? {
        var c := fence.value.claim;
        if c >= |claims| || claims[c].worker != fence.value.worker || claims[c].task != t
           || !claims[c].status.Active? || claims[c].leaseExpiresAt <= fence.value.now {
          return Some(StaleClaim);
        }
      }
      if t >= |tasks| { return Some(TaskNotFound); }
      var task := tasks[t];
      var incomplete := IncompleteDependencyCount(t);
      var guards := Guards(Some(incomplete), None);
      if to.Completed? {
        var missing := EvaluateCompletionProof(records, t, task.project, FrozenCriteria(task), true);
        guards := guards.(proofHolds := Some(missing == []));
      }
      var refusal := Validate(task.status, to, guards);
      if refusal.Some? { return Some(Refused(refusal.value)); }
      if tasks[t].status != task.status || tasks[t].version != task.version { return Some(Conflict); }
      log := Committed(Contents(), t, to, fence, Judged(Contents(), to)).log;
      tasks := tasks[t := Patched(task, to, fence)];
      failure := None;
    }

    method LastAttempt(t: TaskId) returns (last: nat)
      ensures last == Attempts(claims, t)
    {
      last := 0;
      for c := 0 to |claims|
        invariant last == Attempts(claims[..c], t)
      {
        assert claims[..c + 1][..c] == claims[..c];
        if claims[c].task == t && claims[c].attempt > last { last := claims[c].attempt; }
      }
      assert claims[..|claims|] == claims;
    }

    /** claimNextTask: walk the queued tasks, oldest first, to the first one without an active claim. */
    method ClaimNextTask(worker: string, lease: int, filter: Filter, now: int, later: int)
      returns (failure: Option<Error>, claimed: Option<ClaimId>)
      modifies this
      ensures match ClaimNext(old(Contents()), worker, lease, filter, now, later)
              case Ok((db, id)) => failure.None? && Contents() == db && claimed == id
              case Err(error) => failure == Some(error) && Contents() == old(Contents()) && claimed.None?
      ensures Keeps(old(Contents()), Contents())
    {
      hide TaskRuns.Inv, TaskRuns.Extends;
      ClaimNextKeeps(Contents(), worker, lease, filter, now, later);
      ghost var db := Contents();
      var t := 0;
      while t < |tasks|
        invariant t <= |tasks| && Contents() == db
        invariant Oldest(db, 0, filter) == Oldest(db, t, filter)
        decreases |tasks| - t
      {
        if !Selected(Db(tasks, claims, deps, records, []), t, filter) || HasActive(claims, t) {
          t := t + 1;
          continue;
        }
        var before := claims;
        var id := |claims|;
        var last := LastAttempt(t);
        claims := claims + [Claim(t, worker, last + 1, Active, now + lease, now)];
        assert Contents() == WithClaim(db, t, worker, now, lease);
        failure := ApplyTransition(t, Running, Some(Fence(id, worker, later)));
        if failure.Some? {
          claims := before;
          return failure, None;
        }
        return None, Some(id);
      }
      return None, None;
    }

    method HeartbeatClaim(c: ClaimId, worker: string, lease: int, now: int) returns (failure: Option<Error>)
      modifies this
      ensures Follows(old(Contents()), Contents(), failure, Heartbeat(old(Contents()), c, worker, lease, now))
      ensures Keeps(old(Contents()), Contents())
    {
      hide TaskRuns.Inv, TaskRuns.Extends;
      HeartbeatKeeps(Contents(), c, worker, lease, now);
      if c >= |claims| || claims[c].worker != worker || !claims[c].status.Active? || claims[c].leaseExpiresAt <= now {
        return Some(StaleClaim);
      }
      claims := claims[c := claims[c].(heartbeatAt := now, leaseExpiresAt := now + lease)];
      failure := None;
    }

    /** closeClaim, and with status Done completeClaim: the task is not looked at. */
    method CloseClaim(c: ClaimId, worker: string, status: ClaimStatus, now: int) returns (failure: Option<Error>)
      modifies this
      ensures Follows(old(Contents()), Contents(), failure, Close(old(Contents()), c, worker, status, now))
      ensures !status.Active? ==> Keeps(old(Contents()), Contents())
    {
      hide TaskRuns.Inv, TaskRuns.Extends;
      if !status.Active? { CloseKeeps(Contents(), c, worker, status, now); }
      if c >= |claims| || claims[c].worker != worker || !claims[c].status.Active? || claims[c].leaseExpiresAt <= now {
        return Some(StaleClaim);
      }
      claims := claims[c := claims[c].(status := status)];
      failure := None;
    }

    method ReleaseClaim(c: ClaimId, worker: string, requeue: bool, now: int) returns (failure: Option<Error>)
      modifies this
      ensures Follows(old(Contents()), Contents(), failure, Release(old(Contents()), c, worker, requeue, now))
      ensures Keeps(old(Contents()), Contents())
    {
      hide TaskRuns.Inv, TaskRuns.Extends;
      ReleaseKeeps(Contents(), c, worker, requeue, now);
      var before := claims;
      failure := CloseClaim(c, worker, Released, now);
      if failure.Some? { return; }
      failure := ApplyTransition(claims[c].task, if requeue then Queued else Cancelled, None);
      if failure.Some? { claims := before; }
    }

    /** recoverExpiredClaims: the sweep reports the claims it expired. */
    method RecoverExpiredClaims(now: int) returns (recovered: seq<ClaimId>)
      modifies this
      ensures Contents() == Recover(old(Contents()), |old(claims)|, now)
      ensures forall c :: c in recovered <==> 0 <= c < |old(claims)| && Lapsed(old(Contents()), c, now)
      ensures Keeps(old(Contents()), Contents())
    {
      hide TaskRuns.Inv, TaskRuns.Extends;
      if TaskRuns.Inv(Contents()) { TaskRuns.RecoverKeeps(Contents(), |claims|, now); }
      ghost var db := Contents();
      recovered := [];
      for c := 0 to |claims|
        invariant |claims| == |db.claims| && Contents() == Recover(db, c, now)
        invariant forall k :: k in recovered <==> 0 <= k < c && Lapsed(db, k, now)
      {
        if claims[c].status.Active? && claims[c].leaseExpiresAt < now {
          claims := claims[c := claims[c].(status := Expired)];
          var t := claims[c].task;
          if t < |tasks| && tasks[t].status.Running? {
            var failure := ApplyTransition(t, Queued, None);
            assert failure.None?;
          }
          recovered := recovered + [c];
        }
      }
    }
  }
}
