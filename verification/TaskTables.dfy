/**
 The task, claim and dependency tables and what each service call does to them
 (src/domain/task-service.ts, src/domain/claim-service.ts).  Rows are never deleted, so a row's id is
 its position in the table; rows of a task are in creation order.
 */
module TaskTables {
  import opened Wrappers
  import opened Lifecycle
  import opened Completion

  type TaskId = nat
  type ClaimId = nat

  datatype Task = Task(
    project: string, status: Status, version: nat,
    criteria: Option<Criteria>,          // completionCriteriaJson, parsed
    snapshot: Option<Criteria>,          // completionCriteriaSnapshotJson, parsed
    mutationClaim: Option<ClaimId>, mutationWorker: Option<string>)

  datatype ClaimStatus = Active | Done | Released | Expired

  datatype Claim = Claim(
    task: TaskId, worker: string, attempt: nat, status: ClaimStatus, leaseExpiresAt: int, heartbeatAt: int)

  /** A committed status change; `proof` are the records on which a completion was judged.
      The log is history: it is not stored, and nothing reads it. */
  datatype Commit = Commit(
    task: TaskId, from: Status, to: Status, fence: Option<ClaimId>,
    snapshot: Option<Criteria>, proof: Option<Records>)

  datatype Db = Db(
    tasks: seq<Task>, claims: seq<Claim>, deps: set<(TaskId, TaskId)>, records: Records, log: seq<Commit>)

  const EmptyDb := Db([], [], {}, Records([], [], [], [], [], []), [])

  datatype Fence = Fence(claim: ClaimId, worker: string, now: int)

  datatype Error =
    | TaskNotFound | ClaimNotFound | StaleClaim | Refused(refusal: Refusal) | Conflict
    | SelfDependency | DuplicateDependency

  // ---------- Reading ----------

  /** The claim of this worker, still active, with an unexpired lease. */
  predicate Owns(db: Db, c: ClaimId, worker: string, now: int) {
    c < |db.claims| && db.claims[c].worker == worker && Live(db, c, now)
  }

  predicate Live(db: Db, c: ClaimId, now: int)
    requires c < |db.claims|
  {
    db.claims[c].status.Active? && db.claims[c].leaseExpiresAt > now
  }

  /** assertLiveClaim */
  predicate FencePasses(db: Db, fence: Option<Fence>, t: TaskId) {
    fence.Some? ==>
      Owns(db, fence.value.claim, fence.value.worker, fence.value.now) && db.claims[fence.value.claim].task == t
  }

  function Incomplete(db: Db, t: TaskId): set<TaskId> {
    set d | d in db.deps && d.0 == t && d.1 < |db.tasks| && !db.tasks[d.1].status.Completed? :: d.1
  }

  function FrozenCriteria(task: Task): Criteria {
    if task.snapshot.Some? then task.snapshot.value else DEFAULT_CRITERIA
  }

  ghost predicate ProofHolds(db: Db, t: TaskId)
    requires t < |db.tasks|
  {
    Proven(db.records, t, db.tasks[t].project, FrozenCriteria(db.tasks[t]), true)
  }

  ghost function GuardsOf(db: Db, t: TaskId, to: Status): Guards
    requires t < |db.tasks|
  {
    Guards(Some(|Incomplete(db, t)|), if to.Completed? then Some(ProofHolds(db, t)) else None)
  }

  // ---------- Writing ----------

  /** The row after a transition: the criteria are frozen by the first dispatch. */
  function Patched(task: Task, to: Status, fence: Option<Fence>): Task {
    task.(
      status := to,
      version := task.version + 1,
      mutationClaim := ClaimOf(fence),
      mutationWorker := if fence.Some? then Some(fence.value.worker) else None,
      snapshot :=
        if to.Queued? && task.snapshot.None?
        then Some(if task.criteria.Some? then task.criteria.value else DEFAULT_CRITERIA)
        else task.snapshot)
  }

  function ClaimOf(fence: Option<Fence>): Option<ClaimId> {
    if fence.Some? then Some(fence.value.claim) else None
  }

  function Committed(db: Db, t: TaskId, to: Status, fence: Option<Fence>, proof: Option<Records>): Db
    requires t < |db.tasks|
  {
    var task := Patched(db.tasks[t], to, fence);
    db.(tasks := db.tasks[t := task],
        log := db.log + [Commit(t, db.tasks[t].status, to, ClaimOf(fence), task.snapshot, proof)])
  }

  /** The records a transition is judged on. */
  function Judged(db: Db, to: Status): Option<Records> { if to.Completed? then Some(db.records) else None }

  /** applyTransition inside a transaction. */
  ghost function Transition(db: Db, t: TaskId, to: Status, fence: Option<Fence>): Result<Db, Error> {
    if !FencePasses(db, fence, t) then Err(StaleClaim)
    else if t >= |db.tasks| then Err(TaskNotFound)
    else
      var refusal := Validate(db.tasks[t].status, to, GuardsOf(db, t, to));
      if refusal.Some? then Err(Refused(refusal.value)) else Ok(Committed(db, t, to, fence, Judged(db, to)))
  }

  /** The row a compare-and-swap is going to expect, read at an earlier moment. */
  datatype Pending = Pending(
    task: TaskId, to: Status, fence: Option<Fence>, status: Status, version: nat, proof: Option<Records>)

  /** The read half of applyTransition: fence, guards and proof as they are now. */
  ghost function Prepare(db: Db, t: TaskId, to: Status, fence: Option<Fence>): Result<Pending, Error> {
    var checked := Transition(db, t, to, fence);
    if checked.Err? then Err(checked.error)
    else Ok(Pending(t, to, fence, db.tasks[t].status, db.tasks[t].version, Judged(db, to)))
  }

  /** The write half: an update of the row if it still has the status and version that were read. */
  function Swap(db: Db, p: Pending): Result<Db, Error> {
    if p.task >= |db.tasks| || db.tasks[p.task].status != p.status || db.tasks[p.task].version != p.version
    then Err(Conflict)
    else Ok(Committed(db, p.task, p.to, p.fence, p.proof))
  }

  function AddTask(db: Db, project: string, criteria: Option<Criteria>): Db {
    db.(tasks := db.tasks + [Task(project, Draft, 0, criteria, None, None, None)])
  }

  function AddDependency(db: Db, t: TaskId, on: TaskId): Result<Db, Error> {
    if t == on then Err(SelfDependency)
    else if t >= |db.tasks| || on >= |db.tasks| then Err(TaskNotFound)
    else if (t, on) in db.deps then Err(DuplicateDependency)
    else Ok(db.(deps := db.deps + {(t, on)}))
  }

  // ---------- Claims ----------

  /** How many claims a task has; its next attempt is one more. */
  function Attempts(claims: seq<Claim>, t: TaskId): nat {
    if claims == [] then 0
    else
      var rest, last := Attempts(claims[..|claims| - 1], t), claims[|claims| - 1];
      if last.task == t && last.attempt > rest then last.attempt else rest
  }

  predicate HasActive(claims: seq<Claim>, t: TaskId) {
    exists c | 0 <= c < |claims| :: claims[c].task == t && claims[c].status.Active?
  }

  datatype Filter = Filter(project: Option<string>, task: Option<TaskId>)

  predicate Selected(db: Db, t: TaskId, filter: Filter)
    requires t < |db.tasks|
  {
    && db.tasks[t].status.Queued?
    && (filter.project.Some? ==> db.tasks[t].project == filter.project.value)
    && (filter.task.Some? ==> t == filter.task.value)
  }

  predicate Claimable(db: Db, t: TaskId, filter: Filter)
    requires t < |db.tasks|
  {
    Selected(db, t, filter) && !HasActive(db.claims, t)
  }

  /** The oldest claimable task from position `t` on, or |tasks|. */
  function Oldest(db: Db, t: TaskId, filter: Filter): (r: TaskId)
    requires t <= |db.tasks|
    ensures t <= r <= |db.tasks|
    ensures r < |db.tasks| ==> Claimable(db, r, filter)
    ensures forall u | t <= u < r :: !Claimable(db, u, filter)
    decreases |db.tasks| - t
  {
    if t == |db.tasks| || Claimable(db, t, filter) then t else Oldest(db, t + 1, filter)
  }

  function WithClaim(db: Db, t: TaskId, worker: string, now: int, lease: int): Db {
    db.(claims := db.claims + [Claim(t, worker, Attempts(db.claims, t) + 1, Active, now + lease, now)])
  }

  /** claimNextTask: None when nothing can be claimed.  The clock is read again for the fence. */
  ghost function ClaimNext(db: Db, worker: string, lease: int, filter: Filter, now: int, later: int)
    : Result<(Db, Option<ClaimId>), Error>
  {
    var t := Oldest(db, 0, filter);
    if t == |db.tasks| then Ok((db, None))
    else
      var claimed := WithClaim(db, t, worker, now, lease);
      var moved := Transition(claimed, t, Running, Some(Fence(|db.claims|, worker, later)));
      if moved.Err? then Err(moved.error) else Ok((moved.value, Some(|db.claims|)))
  }

  function Heartbeat(db: Db, c: ClaimId, worker: string, lease: int, now: int): Result<Db, Error> {
    if !Owns(db, c, worker, now) then Err(StaleClaim)
    else Ok(db.(claims := db.claims[c := db.claims[c].(heartbeatAt := now, leaseExpiresAt := now + lease)]))
  }

  function Close(db: Db, c: ClaimId, worker: string, status: ClaimStatus, now: int): Result<Db, Error> {
    if !Owns(db, c, worker, now) then Err(StaleClaim)
    else Ok(db.(claims := db.claims[c := db.claims[c].(status := status)]))
  }

  ghost function Release(db: Db, c: ClaimId, worker: string, requeue: bool, now: int): Result<Db, Error> {
    var closed := Close(db, c, worker, Released, now);
    if closed.Err? then closed
    else Transition(closed.value, closed.value.claims[c].task, if requeue then Queued else Cancelled, None)
  }

  // ---------- Recovery ----------

  predicate Lapsed(db: Db, c: ClaimId, now: int)
    requires c < |db.claims|
  {
    db.claims[c].status.Active? && db.claims[c].leaseExpiresAt < now
  }

  /** Expire one claim and put its task back into the queue if it is still running. */
  function RecoverOne(db: Db, c: ClaimId): Db
    requires c < |db.claims|
  {
    var expired := db.(claims := db.claims[c := db.claims[c].(status := Expired)]);
    var t := db.claims[c].task;
    if t < |db.tasks| && db.tasks[t].status.Running? then Committed(expired, t, Queued, None, None) else expired
  }

  /** recoverExpiredClaims up to claim `n`. */
  function Recover(db: Db, n: nat, now: int): (r: Db)
    requires n <= |db.claims|
    ensures |r.claims| == |db.claims| && |r.tasks| == |db.tasks| && r.deps == db.deps && r.records == db.records
    ensures forall c | n <= c < |db.claims| :: r.claims[c] == db.claims[c]
  {
    if n == 0 then db
    else
      var before := Recover(db, n - 1, now);
      if Lapsed(db, n - 1, now) then RecoverOne(before, n - 1) else before
  }
}
