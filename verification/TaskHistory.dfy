/**
 What every row of the task and claim tables owes to the calls of the run that led to it
 (src/domain/task-service.ts, src/domain/claim-service.ts).
 */
module TaskHistory {
  import opened Wrappers
  import opened Lifecycle
  import opened Completion
  import opened TaskTables
  import opened TaskRuns

  // ---------- Tasks ----------

  /** What the calls that made the tasks were given, in order. */
  function Made(steps: seq<Step>): seq<(string, Option<Criteria>)> {
    if steps == [] then []
    else
      var last := steps[|steps| - 1];
      Made(steps[..|steps| - 1]) + if last.NewTask? then [(last.project, last.criteria)] else []
  }

  function CommitsOf(log: seq<Commit>, t: TaskId): seq<Commit> {
    if log == [] then []
    else CommitsOf(log[..|log| - 1], t) + if log[|log| - 1].task == t then [log[|log| - 1]] else []
  }

  function StatusAfter(commits: seq<Commit>, n: nat): Status
    requires n <= |commits|
  {
    if n == 0 then Draft else commits[n - 1].to
  }

  /** The criteria a task is held to: its own, or else the default. */
  function Demanded(criteria: Option<Criteria>): Criteria { if criteria.Some? then criteria.value else DEFAULT_CRITERIA }

  predicate WasQueued(commits: seq<Commit>, n: nat)
    requires n <= |commits|
  {
    exists i :: 0 <= i < n && commits[i].to.Queued?
  }

  function FrozenAfter(commits: seq<Commit>, n: nat, criteria: Option<Criteria>): Option<Criteria>
    requires n <= |commits|
  {
    if WasQueued(commits, n) then Some(Demanded(criteria)) else None
  }

  /** The row is what its commits have made of a new draft. */
  ghost predicate RowOk(task: Task, commits: seq<Commit>, made: (string, Option<Criteria>)) {
    && task.project == made.0 && task.criteria == made.1
    && task.version == |commits|
    && task.status == StatusAfter(commits, |commits|)
    && task.snapshot == FrozenAfter(commits, |commits|, made.1)
    && task.mutationClaim == (if commits == [] then None else commits[|commits| - 1].fence)
    && forall i | 0 <= i < |commits| ::
         commits[i].from == StatusAfter(commits, i) && commits[i].snapshot == FrozenAfter(commits, i + 1, made.1)
  }

  ghost predicate RowsOk(db: Db, made: seq<(string, Option<Criteria>)>) {
    && |db.tasks| == |made|
    && (forall i | 0 <= i < |db.log| :: db.log[i].task < |db.tasks|)
    && forall t: TaskId | t < |db.tasks| :: RowOk(db.tasks[t], CommitsOf(db.log, t), made[t])
  }

  lemma {:induction false} NoCommits(log: seq<Commit>, t: TaskId)
    requires forall i | 0 <= i < |log| :: log[i].task != t
    ensures CommitsOf(log, t) == []
  {
    if log != [] { NoCommits(log[..|log| - 1], t); }
  }

  lemma PatchedRow(task: Task, commits: seq<Commit>, made: (string, Option<Criteria>), t: TaskId, to: Status,
                   fence: Option<Fence>, proof: Option<Records>)
    requires RowOk(task, commits, made)
    ensures var row := Patched(task, to, fence);
            RowOk(row, commits + [Commit(t, task.status, to, ClaimOf(fence), row.snapshot, proof)], made)
  {
    var row := Patched(task, to, fence);
    var last := Commit(t, task.status, to, ClaimOf(fence), row.snapshot, proof);
    var more := commits + [last];
    QueuedSnoc(commits, last);
    FrozenNow(task, commits, made, to, fence, last);
    hide WasQueued, Demanded, Patched;
    forall i | 0 <= i < |commits|
      ensures more[i].from == StatusAfter(more, i) && more[i].snapshot == FrozenAfter(more, i + 1, made.1)
    {
      assert more[i] == commits[i];
    }
    assert more[|commits|] == last;
    PatchedFields(task, to, fence);
  }

  lemma PatchedFields(task: Task, to: Status, fence: Option<Fence>)
    ensures var row := Patched(task, to, fence);
            && row.project == task.project && row.criteria == task.criteria && row.status == to
            && row.version == task.version + 1 && row.mutationClaim == ClaimOf(fence)
  {
  }

  lemma FrozenNow(task: Task, commits: seq<Commit>, made: (string, Option<Criteria>), to: Status, fence: Option<Fence>, last: Commit)
    requires task.criteria == made.1 && task.snapshot == FrozenAfter(commits, |commits|, made.1) && last.to == to
    ensures Patched(task, to, fence).snapshot == FrozenAfter(commits + [last], |commits| + 1, made.1)
  {
    QueuedSnoc(commits, last);
    hide WasQueued;
  }

  lemma QueuedSnoc(commits: seq<Commit>, last: Commit)
    ensures var more := commits + [last];
            && (forall n | 0 <= n <= |commits| :: WasQueued(more, n) <==> WasQueued(commits, n))
            && (WasQueued(more, |more|) <==> WasQueued(commits, |commits|) || last.to.Queued?)
  {
    var more := commits + [last];
    assert more[|commits|] == last;
    assert forall i | 0 <= i < |commits| :: more[i] == commits[i];
  }

  lemma CommitsSnoc(log: seq<Commit>, last: Commit, t: TaskId)
    ensures CommitsOf(log + [last], t) == CommitsOf(log, t) + if last.task == t then [last] else []
  {
    assert (log + [last])[..|log|] == log;
  }

  lemma CommitKeepsRows(db: Db, t: TaskId, to: Status, fence: Option<Fence>, proof: Option<Records>,
                        made: seq<(string, Option<Criteria>)>)
    requires RowsOk(db, made) && t < |db.tasks|
    ensures RowsOk(Committed(db, t, to, fence, proof), made)
  {
    var r := Committed(db, t, to, fence, proof);
    var last := Commit(t, db.tasks[t].status, to, ClaimOf(fence), r.tasks[t].snapshot, proof);
    PatchedRow(db.tasks[t], CommitsOf(db.log, t), made[t], t, to, fence, proof);
    hide RowOk, Patched, CommitsOf;
    forall u: TaskId | u < |r.tasks| ensures RowOk(r.tasks[u], CommitsOf(r.log, u), made[u]) {
      CommitsSnoc(db.log, last, u);
      assert u != t ==> CommitsOf(db.log, u) + [] == CommitsOf(db.log, u);
    }
  }

  /** Rows depend on the tasks and the log alone. */
  lemma SameRows(db: Db, r: Db, made: seq<(string, Option<Criteria>)>)
    requires RowsOk(db, made) && r.tasks == db.tasks && r.log == db.log
    ensures RowsOk(r, made)
  {
    hide RowOk;
  }

  lemma NewRow(db: Db, project: string, criteria: Option<Criteria>, made: seq<(string, Option<Criteria>)>)
    requires RowsOk(db, made)
    ensures RowsOk(AddTask(db, project, criteria), made + [(project, criteria)])
  {
    NoCommits(db.log, |db.tasks|);
    assert !WasQueued([], 0);
  }

  lemma {:induction false} RecoverKeepsRows(db: Db, n: nat, now: int, made: seq<(string, Option<Criteria>)>)
    requires RowsOk(db, made) && n <= |db.claims|
    ensures RowsOk(Recover(db, n, now), made)
  {
    hide RowsOk, Committed;
    if n > 0 {
      RecoverKeepsRows(db, n - 1, now, made);
      if Lapsed(db, n - 1, now) { RecoverOneKeepsRows(Recover(db, n - 1, now), n - 1, made); }
    }
  }

  lemma RecoverOneKeepsRows(db: Db, c: ClaimId, made: seq<(string, Option<Criteria>)>)
    requires RowsOk(db, made) && c < |db.claims|
    ensures RowsOk(RecoverOne(db, c), made)
  {
    hide RowsOk, Committed;
    var expired := db.(claims := db.claims[c := db.claims[c].(status := ClaimStatus.Expired)]);
    SameRows(db, expired, made);
    var t := db.claims[c].task;
    if t < |db.tasks| { CommitKeepsRows(expired, t, Queued, None, None, made); }
  }

  lemma TransitionKeepsRows(db: Db, t: TaskId, to: Status, fence: Option<Fence>, made: seq<(string, Option<Criteria>)>)
    requires RowsOk(db, made) && Transition(db, t, to, fence).Ok?
    ensures RowsOk(Transition(db, t, to, fence).value, made)
  {
    hide RowsOk, Committed, Validate, GuardsOf;
    CommitKeepsRows(db, t, to, fence, Judged(db, to), made);
  }

  lemma StepKeepsRows(w: World, step: Step, made: seq<(string, Option<Criteria>)>)
    requires RowsOk(w.db, made) && Next(w, step).Some?
    ensures RowsOk(Next(w, step).value.db, made + if step.NewTask? then [(step.project, step.criteria)] else [])
  {
    var db := w.db;
    hide RowsOk, Committed, Transition, Recover;
    assert made + [] == made;
    match step
    case NewTask(project, criteria) => NewRow(db, project, criteria, made);
    case Move(t, to, fence) => TransitionKeepsRows(db, t, to, FenceAt(fence, w.clock), made);
    case FinishMove(i) =>
      var p := w.pending[i];
      CommitKeepsRows(db, p.task, p.to, p.fence, p.proof, made);
    case TakeNext(worker, lease, filter, later) =>
      var t := Oldest(db, 0, filter);
      if t < |db.tasks| {
        var claimed := WithClaim(db, t, worker, w.clock, lease);
        SameRows(db, claimed, made);
        TransitionKeepsRows(claimed, t, Running, Some(Fence(|db.claims|, worker, later)), made);
      }
    case HandBack(c, worker, requeue) =>
      var closed := Close(db, c, worker, Released, w.clock).value;
      SameRows(db, closed, made);
      TransitionKeepsRows(closed, closed.claims[c].task, if requeue then Queued else Cancelled, None, made);
    case Sweep => RecoverKeepsRows(db, |db.claims|, w.clock, made);
    case Wait(_) =>
    case NewDependency(_, _) => SameRows(db, Next(w, step).value.db, made);
    case ChangeRecords(_) => SameRows(db, Next(w, step).value.db, made);
    case BeginMove(_, _, _) =>
    case Beat(_, _, _) => SameRows(db, Next(w, step).value.db, made);
    case Finish(_, _) => SameRows(db, Next(w, step).value.db, made);
  }

  /** The state before step k of a run. */
  ghost function At(steps: seq<Step>, k: nat): World
    requires k <= |steps| && After(Start, steps).Some?
  {
    PrefixRuns(Start, steps, k);
    After(Start, steps[..k]).value
  }

  lemma {:induction false} PrefixRuns(w: World, steps: seq<Step>, k: nat)
    requires k <= |steps| && After(w, steps).Some?
    ensures After(w, steps[..k]).Some?
    decreases k
  {
    hide Next;
    if k > 0 {
      assert steps[..k][1..] == steps[1..][..k - 1];
      PrefixRuns(Next(w, steps[0]).value, steps[1..], k - 1);
    }
  }

  lemma {:induction false} AfterSnoc(w: World, steps: seq<Step>, k: nat)
    requires k < |steps| && After(w, steps).Some? && After(w, steps[..k]).Some? && After(w, steps[..k + 1]).Some?
    ensures Next(After(w, steps[..k]).value, steps[k]) == After(w, steps[..k + 1])
    decreases k
  {
    hide Next;
    if k > 0 {
      assert steps[..k][1..] == steps[1..][..k - 1] && steps[..k + 1][1..] == steps[1..][..k];
      AfterSnoc(Next(w, steps[0]).value, steps[1..], k - 1);
    } else {
      assert steps[..1][1..] == [] && steps[..0] == [];
    }
  }

  lemma NextAt(steps: seq<Step>, k: nat)
    requires k < |steps| && After(Start, steps).Some?
    ensures Next(At(steps, k), steps[k]) == Some(At(steps, k + 1))
  {
    hide Next;
    PrefixRuns(Start, steps, k);
    PrefixRuns(Start, steps, k + 1);
    AfterSnoc(Start, steps, k);
  }

  lemma AtEnd(steps: seq<Step>)
    requires After(Start, steps).Some?
    ensures At(steps, |steps|) == After(Start, steps).value
  {
    assert steps[..|steps|] == steps;
  }

  lemma {:induction false} RowsOkAt(steps: seq<Step>, k: nat)
    requires k <= |steps| && After(Start, steps).Some?
    ensures RowsOk(At(steps, k).db, Made(steps[..k]))
  {
    hide RowsOk, Next;
    if k == 0 {
      EmptyRows();
      assert steps[..0] == [];
    } else {
      RowsOkAt(steps, k - 1);
      NextAt(steps, k - 1);
      assert steps[..k][..k - 1] == steps[..k - 1];
      StepKeepsRows(At(steps, k - 1), steps[k - 1], Made(steps[..k - 1]));
    }
  }

  lemma EmptyRows()
    ensures RowsOk(EmptyDb, [])
  {
  }

  /** Main theorem: in every run, split transitions included, each task's row is what its own commits have made of
      the draft that was asked for: project and criteria are those given, the version counts the commits, the
      status is where the last one led, each commit starts where the one before it led, and the criteria are frozen
      by the first dispatch to those given, or to the default where none were given. */
  lemma RowsAreTheirHistory(steps: seq<Step>, t: TaskId)
    requires After(Start, steps).Some? && t < |After(Start, steps).value.db.tasks|
    ensures |Made(steps)| == |After(Start, steps).value.db.tasks|
    ensures var db := After(Start, steps).value.db; RowOk(db.tasks[t], CommitsOf(db.log, t), Made(steps)[t])
  {
    RowsOkAt(steps, |steps|);
    AtEnd(steps);
    assert steps[..|steps|] == steps;
    hide After;
  }

  lemma {:induction false} CommitIsAmong(log: seq<Commit>, i: nat) returns (k: nat)
    requires i < |log|
    ensures k < |CommitsOf(log, log[i].task)| && CommitsOf(log, log[i].task)[k] == log[i]
  {
    var init := log[..|log| - 1];
    if i < |init| {
      k := CommitIsAmong(init, i);
    } else {
      k := |CommitsOf(init, log[i].task)|;
    }
  }

  /** Main theorem: every completion was judged on records that satisfy the proof set under the criteria that the
      task was made with, or under the default where it was made with none. */
  lemma CompletionsMeetTheirCriteria(steps: seq<Step>, i: nat)
    requires After(Start, steps).Some? && i < |After(Start, steps).value.db.log|
    requires After(Start, steps).value.db.log[i].to.Completed?
    ensures var commit := After(Start, steps).value.db.log[i];
            && commit.task < |Made(steps)| && commit.proof.Some?
            && Proven(commit.proof.value, commit.task, Made(steps)[commit.task].0, Demanded(Made(steps)[commit.task].1), true)
  {
    RunKeepsInv(Start, steps);
    var db := After(Start, steps).value.db;
    assert Inv(db);
    hide After, Made;
    JudgedCompletion(db, i);
    RowsAreTheirHistory(steps, db.log[i].task);
    var k := CommitIsAmong(db.log, i);
    hide Inv, CommitsOf, Proven;
    QueuedBefore(db.tasks[db.log[i].task], CommitsOf(db.log, db.log[i].task), Made(steps)[db.log[i].task], k);
  }

  lemma JudgedCompletion(db: Db, i: nat)
    requires Inv(db) && i < |db.log| && db.log[i].to.Completed?
    ensures var commit := db.log[i];
            && commit.task < |db.tasks| && commit.proof.Some? && commit.snapshot.Some?
            && Proven(commit.proof.value, commit.task, db.tasks[commit.task].project, commit.snapshot.value, true)
  {
    hide Proven, Numbered, OnlyNewestActive, Frozen, Fenced;
  }

  lemma QueuedBefore(task: Task, commits: seq<Commit>, made: (string, Option<Criteria>), k: nat)
    requires RowOk(task, commits, made) && k < |commits| && commits[k].snapshot.Some?
    ensures commits[k].snapshot == Some(Demanded(made.1)) && task.project == made.0
  {
  }

  // ---------- Claims ----------

  /** All that a step can do to a claim that is there: its live owner extends or closes it, or a sweep expires it
      behind its lease. */
  ghost predicate ClaimStep(w: World, step: Step, c: ClaimId, a: Claim, b: Claim)
    requires c < |w.db.claims|
  {
    || b == a
    || (step.Beat? && step.c == c && Owns(w.db, c, step.worker, w.clock)
        && b == a.(heartbeatAt := w.clock, leaseExpiresAt := w.clock + step.lease))
    || (step.Finish? && step.c == c && Owns(w.db, c, step.worker, w.clock) && b == a.(status := ClaimStatus.Done))
    || (step.HandBack? && step.c == c && Owns(w.db, c, step.worker, w.clock) && b == a.(status := ClaimStatus.Released))
    || (step.Sweep? && a.status.Active? && a.leaseExpiresAt < w.clock && b == a.(status := ClaimStatus.Expired))
  }

  lemma {:induction false} RecoveredClaim(db: Db, n: nat, now: int, c: ClaimId)
    requires n <= |db.claims| && c < |db.claims|
    ensures Recover(db, n, now).claims[c] ==
              if c < n && Lapsed(db, c, now) then db.claims[c].(status := ClaimStatus.Expired) else db.claims[c]
  {
    if n > 0 { RecoveredClaim(db, n - 1, now, c); }
  }

  lemma StepOnClaim(w: World, step: Step, c: ClaimId)
    requires Next(w, step).Some? && c < |w.db.claims|
    ensures |w.db.claims| <= |Next(w, step).value.db.claims|
    ensures ClaimStep(w, step, c, w.db.claims[c], Next(w, step).value.db.claims[c])
  {
    hide Recover, Validate, GuardsOf;
    if step.Sweep? { RecoveredClaim(w.db, |w.db.claims|, w.clock, c); }
  }

  /** And these calls do so whenever they succeed. */
  lemma CallsDoToClaims(w: World, step: Step)
    requires Next(w, step).Some? && (step.Beat? || step.Finish? || step.HandBack?)
    ensures step.c < |w.db.claims| && Owns(w.db, step.c, step.worker, w.clock)
    ensures var a, b := w.db.claims[step.c], Next(w, step).value.db.claims;
            && |b| == |w.db.claims|
            && (step.Beat? ==> b[step.c] == a.(heartbeatAt := w.clock, leaseExpiresAt := w.clock + step.lease))
            && (step.Finish? ==> b[step.c] == a.(status := ClaimStatus.Done))
            && (step.HandBack? ==> b[step.c] == a.(status := ClaimStatus.Released))
  {
    hide Validate, GuardsOf;
  }

  /** Handing a claim back moves its task into the queue again, or cancels it. */
  lemma HandBackMoves(w: World, step: Step)
    requires WorldInv(w) && step.HandBack? && Next(w, step).Some?
    ensures step.c < |w.db.claims|
    ensures var t, r := w.db.claims[step.c].task, Next(w, step).value.db;
            && t < |w.db.tasks| && |r.tasks| == |w.db.tasks|
            && r.tasks[t].status == (if step.requeue then Queued else Cancelled)
            && (forall u | 0 <= u < |r.tasks| && u != t :: r.tasks[u] == w.db.tasks[u])
  {
    hide Validate, GuardsOf;
  }

  /** The next claim goes to the oldest queued task of the filter without an active claim, for the worker that asks,
      under the next attempt, and the task runs under it; or there is no such task. */
  lemma TakeNextTakesOldest(w: World, step: Step)
    requires WorldInv(w) && step.TakeNext? && Next(w, step).Some?
    ensures var db, r := w.db, Next(w, step).value.db;
            || (r == db && forall u: TaskId | u < |db.tasks| :: !Claimable(db, u, step.filter))
            || (|r.claims| == |db.claims| + 1
                && var claim := r.claims[|db.claims|]; var t := claim.task;
                   && t < |db.tasks| && Claimable(db, t, step.filter)
                   && (forall u: TaskId | u < t :: !Claimable(db, u, step.filter))
                   && claim == Claim(t, step.worker, CountOf(db.claims, t) + 1, Active, w.clock + step.lease, w.clock)
                   && |r.tasks| == |db.tasks| && r.tasks[t].status.Running?
                   && r.tasks[t].mutationClaim == Some(|db.claims|) && r.tasks[t].mutationWorker == Some(step.worker)
                   && (forall u | 0 <= u < |r.tasks| && u != t :: r.tasks[u] == db.tasks[u]))
  {
    hide Validate, GuardsOf, Numbered;
    var t := Oldest(w.db, 0, step.filter);
    if t < |w.db.tasks| { LastAttemptIsCount(w.db.claims, t); }
  }

  /** Step m has made the claim. */
  ghost predicate MadeAt(steps: seq<Step>, m: nat, k: nat, c: ClaimId)
    requires k <= |steps| && After(Start, steps).Some? && c < |At(steps, k).db.claims|
  {
    && m < k && steps[m].TakeNext? && |At(steps, m).db.claims| == c && steps[m].worker == At(steps, k).db.claims[c].worker
  }

  /** A closed claim was closed by a call of its worker, or by a sweep behind its lease. */
  ghost predicate ClosedIn(steps: seq<Step>, k: nat, c: ClaimId)
    requires k <= |steps| && After(Start, steps).Some? && c < |At(steps, k).db.claims|
  {
    var claim := At(steps, k).db.claims[c];
    match claim.status
    case Active => true
    case Done => exists n: nat :: n < k && steps[n] == Finish(c, claim.worker)
    case Released => exists n: nat :: n < k && steps[n].HandBack? && steps[n].c == c && steps[n].worker == claim.worker
    case Expired => exists n: nat :: n < k && steps[n].Sweep? && claim.leaseExpiresAt < At(steps, n).clock
  }

  /** The lease counts from the call that made the claim or from a heartbeat of its worker. */
  ghost predicate LeasedIn(steps: seq<Step>, k: nat, c: ClaimId)
    requires k <= |steps| && After(Start, steps).Some? && c < |At(steps, k).db.claims|
  {
    var claim := At(steps, k).db.claims[c];
    exists n: nat :: n < k && claim.heartbeatAt == At(steps, n).clock
      && (steps[n].TakeNext? || (steps[n].Beat? && steps[n].c == c)) && steps[n].worker == claim.worker
      && claim.leaseExpiresAt == claim.heartbeatAt + steps[n].lease
  }

  lemma NewClaim(w: World, step: Step)
    requires Next(w, step).Some? && |Next(w, step).value.db.claims| > |w.db.claims|
    ensures step.TakeNext? && |Next(w, step).value.db.claims| == |w.db.claims| + 1
    ensures var claim := Next(w, step).value.db.claims[|w.db.claims|];
            && claim.worker == step.worker && claim.status.Active?
            && claim.heartbeatAt == w.clock && claim.leaseExpiresAt == w.clock + step.lease
  {
    hide Recover, Validate, GuardsOf;
  }

  /** Main theorem: in every run each claim was made for its worker by one call; its lease counts from that call or
      from a heartbeat of that worker; and if it is closed, that worker has closed it so, or a sweep behind its
      lease has. */
  lemma {:induction false} ClaimsAreTheirHistory(steps: seq<Step>, k: nat, c: ClaimId) returns (m: nat)
    requires k <= |steps| && After(Start, steps).Some? && c < |At(steps, k).db.claims|
    ensures MadeAt(steps, m, k, c) && ClosedIn(steps, k, c) && LeasedIn(steps, k, c)
  {
    NoClaimsYet(steps);
    NextAt(steps, k - 1);
    var w := At(steps, k - 1);
    hide Next, At;
    if c < |w.db.claims| {
      m := ClaimsAreTheirHistory(steps, k - 1, c);
      StepOnClaim(w, steps[k - 1], c);
      ClosedLater(steps, k, c);
      LeasedLater(steps, k, c);
    } else {
      NewClaim(w, steps[k - 1]);
      m := k - 1;
      assert steps[k - 1].TakeNext?;
    }
  }

  lemma NoClaimsYet(steps: seq<Step>)
    requires After(Start, steps).Some?
    ensures At(steps, 0).db.claims == []
  {
  }

  lemma ClosedLater(steps: seq<Step>, k: nat, c: ClaimId)
    requires 0 < k <= |steps| && After(Start, steps).Some? && c < |At(steps, k - 1).db.claims| && c < |At(steps, k).db.claims|
    requires ClosedIn(steps, k - 1, c)
    requires ClaimStep(At(steps, k - 1), steps[k - 1], c, At(steps, k - 1).db.claims[c], At(steps, k).db.claims[c])
    ensures ClosedIn(steps, k, c)
  {
    hide At;
    var a, b := At(steps, k - 1).db.claims[c], At(steps, k).db.claims[c];
    if a.status.Active? {
      assert b.status.Done? ==> steps[k - 1] == Finish(c, b.worker);
    } else {
      assert b == a;
    }
  }

  lemma LeasedLater(steps: seq<Step>, k: nat, c: ClaimId)
    requires 0 < k <= |steps| && After(Start, steps).Some? && c < |At(steps, k - 1).db.claims| && c < |At(steps, k).db.claims|
    requires LeasedIn(steps, k - 1, c)
    requires ClaimStep(At(steps, k - 1), steps[k - 1], c, At(steps, k - 1).db.claims[c], At(steps, k).db.claims[c])
    ensures LeasedIn(steps, k, c)
  {
    hide At;
    var a, b := At(steps, k - 1).db.claims[c], At(steps, k).db.claims[c];
    var n: nat :| n < k - 1 && a.heartbeatAt == At(steps, n).clock
      && (steps[n].TakeNext? || (steps[n].Beat? && steps[n].c == c)) && steps[n].worker == a.worker
      && a.leaseExpiresAt == a.heartbeatAt + steps[n].lease;
    if b.heartbeatAt == a.heartbeatAt && b.leaseExpiresAt == a.leaseExpiresAt {
      assert n < k;
    } else {
      assert k - 1 < k && steps[k - 1].Beat?;
    }
  }

  // ---------- Dependencies ----------

  /** The dependencies are those that were asked for, between two tasks of the table. */
  lemma {:induction false} DependenciesAreTheirHistory(steps: seq<Step>, k: nat, d: (TaskId, TaskId))
    requires k <= |steps| && After(Start, steps).Some?
    ensures d in At(steps, k).db.deps <==> exists n: nat :: n < k && steps[n] == NewDependency(d.0, d.1)
    ensures d in At(steps, k).db.deps ==> d.0 != d.1
  {
    if k > 0 {
      DependenciesAreTheirHistory(steps, k - 1, d);
      NextAt(steps, k - 1);
      StepOnDependencies(At(steps, k - 1), steps[k - 1]);
      hide Next, At;
      if steps[k - 1] == NewDependency(d.0, d.1) { assert k - 1 < k; }
      assert d in At(steps, k).db.deps <==> d in At(steps, k - 1).db.deps || steps[k - 1] == NewDependency(d.0, d.1);
    }
  }

  lemma StepOnDependencies(w: World, step: Step)
    requires Next(w, step).Some?
    ensures Next(w, step).value.db.deps == w.db.deps + if step.NewDependency? then {(step.t, step.on)} else {}
    ensures step.NewDependency? ==> step.t != step.on
  {
    hide Validate, GuardsOf;
  }

  // ---------- When calls succeed ----------

  /** A transition succeeds if and only if its claim, if it presents one, is live and of the task; the task exists; the
      table has the edge; a dispatch finds all dependencies completed; and a completion has its proof under the
      frozen criteria. */
  lemma TransitionSucceedsExactly(db: Db, t: TaskId, to: Status, fence: Option<Fence>)
    ensures Transition(db, t, to, fence).Ok? <==>
              && t < |db.tasks| && to in Successors(db.tasks[t].status)
              && (fence.Some? ==>
                    && fence.value.claim < |db.claims|
                    && var c := db.claims[fence.value.claim];
                       c.task == t && c.worker == fence.value.worker && c.status.Active? && fence.value.now < c.leaseExpiresAt)
              && (db.tasks[t].status.Ready? && to.Queued? ==>
                    forall d | d in db.deps && d.0 == t && d.1 < |db.tasks| :: db.tasks[d.1].status.Completed?)
              && (to.Completed? ==>
                    Proven(db.records, t, db.tasks[t].project,
                           if db.tasks[t].snapshot.Some? then db.tasks[t].snapshot.value else DEFAULT_CRITERIA, true))
  {
    if t < |db.tasks| {
      ApprovedExactly(db.tasks[t].status, to, GuardsOf(db, t, to));
      NothingIncomplete(db, t);
    }
    hide Validate, Successors, Proven, Incomplete;
  }

  /** What the refusal says of a transition. */
  ghost predicate Justified(db: Db, t: TaskId, to: Status, fence: Option<Fence>, error: Error) {
    match error
    case StaleClaim =>
      fence.Some? && (fence.value.claim < |db.claims| ==>
                        var c := db.claims[fence.value.claim];
                        c.task != t || c.worker != fence.value.worker || !c.status.Active? || c.leaseExpiresAt <= fence.value.now)
    case TaskNotFound => t >= |db.tasks|
    case Refused(refusal) => t < |db.tasks| && (
      match refusal
      case IllegalTransition(a, b) => a == db.tasks[t].status && b == to && to !in Successors(a)
      case BlockedBy(n) =>
        db.tasks[t].status.Ready? && to.Queued? &&
        exists d | d in db.deps && d.0 == t && d.1 < |db.tasks| :: !db.tasks[d.1].status.Completed?
      case ProofNotSatisfied =>
        to.Completed? && !Proven(db.records, t, db.tasks[t].project,
                                 if db.tasks[t].snapshot.Some? then db.tasks[t].snapshot.value else DEFAULT_CRITERIA, true)
      case _ => false)
    case _ => false
  }

  /** A refused transition is told a reason that is true. */
  lemma RefusalsAreTrue(db: Db, t: TaskId, to: Status, fence: Option<Fence>)
    ensures Transition(db, t, to, fence).Err? ==> Justified(db, t, to, fence, Transition(db, t, to, fence).error)
  {
    if t < |db.tasks| { NothingIncomplete(db, t); }
    hide Successors, Proven, Incomplete;
  }

  lemma NothingIncomplete(db: Db, t: TaskId)
    ensures |Incomplete(db, t)| == 0 <==>
              forall d | d in db.deps && d.0 == t && d.1 < |db.tasks| :: db.tasks[d.1].status.Completed?
  {
    if |Incomplete(db, t)| == 0 {
      forall d | d in db.deps && d.0 == t && d.1 < |db.tasks| ensures db.tasks[d.1].status.Completed? {
        assert db.tasks[d.1].status.Completed? || d.1 in Incomplete(db, t);
      }
    } else {
      var u :| u in Incomplete(db, t);
      var d :| d in db.deps && d.0 == t && d.1 < |db.tasks| && !db.tasks[d.1].status.Completed? && d.1 == u;
    }
  }

  /** What can be claimed: a queued task of the filter's project and task, if it names them, without an active claim. */
  lemma ClaimableExactly(db: Db, t: TaskId, filter: Filter)
    requires t < |db.tasks|
    ensures Claimable(db, t, filter) <==>
              && db.tasks[t].status == Queued
              && (filter.project == None || filter.project == Some(db.tasks[t].project))
              && (filter.task == None || filter.task == Some(t))
              && forall c | 0 <= c < |db.claims| && db.claims[c].task == t :: db.claims[c].status != Active
  {
  }

  /** The next claim is refused only when its lease is over before the task is moved. */
  lemma TakeNextSucceedsExactly(w: World, step: Step)
    requires step.TakeNext?
    ensures Next(w, step).Some? <==>
              step.later >= w.clock
              && ((forall u: TaskId | u < |w.db.tasks| :: !Claimable(w.db, u, step.filter)) || step.later < w.clock + step.lease)
  {
    var t := Oldest(w.db, 0, step.filter);
    if t < |w.db.tasks| {
      var claimed := WithClaim(w.db, t, step.worker, w.clock, step.lease);
      TransitionSucceedsExactly(claimed, t, Running, Some(Fence(|w.db.claims|, step.worker, step.later)));
      assert Claimable(w.db, t, step.filter);
    }
    hide Transition, Proven;
  }

  /** Heartbeats, closings and new dependencies. */
  lemma CallsSucceedExactly(w: World, step: Step)
    requires step.Beat? || step.Finish? || step.NewDependency?
    ensures Next(w, step).Some? <==>
              if step.NewDependency? then
                step.t != step.on && step.t < |w.db.tasks| && step.on < |w.db.tasks| && (step.t, step.on) !in w.db.deps
              else
                && step.c < |w.db.claims|
                && var c := w.db.claims[step.c];
                   c.worker == step.worker && c.status.Active? && w.clock < c.leaseExpiresAt
  {
  }
}
