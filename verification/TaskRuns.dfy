/**
 Whole runs of the task service.  Every call is one step; applyTransition may also be split into its
 read and its compare-and-swap, with any other steps in between.  The clock never goes back.
 */
module TaskRuns {
  import opened Wrappers
  import opened Lifecycle
  import opened Completion
  import opened TaskTables

  datatype World = World(db: Db, pending: seq<Pending>, clock: int)

  datatype Step =
    | Wait(until: int)
    | NewTask(project: string, criteria: Option<Criteria>)
    | NewDependency(t: TaskId, on: TaskId)
    | ChangeRecords(records: Records)
    | Move(t: TaskId, to: Status, fence: Option<(ClaimId, string)>)
    | BeginMove(t: TaskId, to: Status, fence: Option<(ClaimId, string)>)
    | FinishMove(i: nat)
    | TakeNext(worker: string, lease: int, filter: Filter, later: int)
    | Beat(c: ClaimId, worker: string, lease: int)
    | Finish(c: ClaimId, worker: string)
    | HandBack(c: ClaimId, worker: string, requeue: bool)
    | Sweep

  function FenceAt(fence: Option<(ClaimId, string)>, now: int): Option<Fence> {
    if fence.Some? then Some(Fence(fence.value.0, fence.value.1, now)) else None
  }

  function With(w: World, r: Result<Db, Error>): Option<World> {
    if r.Ok? then Some(w.(db := r.value)) else None
  }

  /** The world after a step, or None when the call fails and is rolled back. */
  ghost function Next(w: World, step: Step): Option<World> {
    match step
    case Wait(until) => if until >= w.clock then Some(w.(clock := until)) else None
    case NewTask(project, criteria) => Some(w.(db := AddTask(w.db, project, criteria)))
    case NewDependency(t, on) => With(w, AddDependency(w.db, t, on))
    case ChangeRecords(records) => Some(w.(db := w.db.(records := records)))
    case Move(t, to, fence) => With(w, Transition(w.db, t, to, FenceAt(fence, w.clock)))
    case BeginMove(t, to, fence) =>
      var p := Prepare(w.db, t, to, FenceAt(fence, w.clock));
      if p.Ok? then Some(w.(pending := w.pending + [p.value])) else None
    case FinishMove(i) => if i < |w.pending| then With(w, Swap(w.db, w.pending[i])) else None
    case TakeNext(worker, lease, filter, later) =>
      var r := ClaimNext(w.db, worker, lease, filter, w.clock, later);
      if later >= w.clock && r.Ok? then Some(w.(db := r.value.0, clock := later)) else None
    case Beat(c, worker, lease) => With(w, Heartbeat(w.db, c, worker, lease, w.clock))
    case Finish(c, worker) => With(w, Close(w.db, c, worker, Done, w.clock))
    case HandBack(c, worker, requeue) => With(w, Release(w.db, c, worker, requeue, w.clock))
    case Sweep => Some(w.(db := Recover(w.db, |w.db.claims|, w.clock)))
  }

  // ---------- What every run keeps ----------

  ghost predicate InRange(db: Db) {
    && (forall d | d in db.deps :: d.0 < |db.tasks| && d.1 < |db.tasks|)
    && (forall c | 0 <= c < |db.claims| :: db.claims[c].task < |db.tasks|)
    && (forall i | 0 <= i < |db.log| :: db.log[i].task < |db.tasks|)
    && (forall t | 0 <= t < |db.tasks| :: !db.tasks[t].status.Suggested?)
  }

  /** The claims of a task in creation order are numbered 1, 2, 3, ... */
  ghost predicate Numbered(claims: seq<Claim>) {
    forall c: nat | c < |claims| :: claims[c].attempt == CountOf(claims[..c + 1], claims[c].task)
  }

  function CountOf(claims: seq<Claim>, t: TaskId): nat {
    if claims == [] then 0
    else CountOf(claims[..|claims| - 1], t) + if claims[|claims| - 1].task == t then 1 else 0
  }

  /** Only the newest claim of a task can be active. */
  ghost predicate OnlyNewestActive(claims: seq<Claim>) {
    forall c, d | 0 <= c < d < |claims| && claims[c].task == claims[d].task :: !claims[c].status.Active?
  }

  ghost predicate Newest(db: Db, c: ClaimId, t: TaskId) {
    c < |db.claims| && db.claims[c].task == t && db.claims[c].attempt == CountOf(db.claims, t)
  }

  /** A dispatched task has frozen criteria, and so has every task that was ever queued. */
  ghost predicate Frozen(db: Db) {
    && (forall t | 0 <= t < |db.tasks| && Launched(db.tasks[t].status) :: db.tasks[t].snapshot.Some?)
    && (forall i | 0 <= i < |db.log| && (db.log[i].to.Queued? || db.log[i].to.Completed?) ::
          db.log[i].snapshot.Some? && db.log[i].task < |db.tasks| && db.tasks[db.log[i].task].snapshot == db.log[i].snapshot)
  }

  /** Every committed change is an edge of the lifecycle; a completion was judged on records that
      satisfy the proof set under the frozen criteria. */
  ghost predicate Legal(db: Db) {
    forall i | 0 <= i < |db.log| ::
      && db.log[i].to in Successors(db.log[i].from)
      && (db.log[i].to.Completed? ==>
            && db.log[i].task < |db.tasks| && db.log[i].proof.Some? && db.log[i].snapshot.Some?
            && Proven(db.log[i].proof.value, db.log[i].task, db.tasks[db.log[i].task].project,
                      db.log[i].snapshot.value, true))
  }

  /** The attempts behind the fenced changes of a task never decrease. */
  ghost predicate Fenced(db: Db) {
    && (forall i | 0 <= i < |db.log| && db.log[i].fence.Some? ::
          db.log[i].fence.value < |db.claims| && db.claims[db.log[i].fence.value].task == db.log[i].task)
    && (forall i, j | 0 <= i < j < |db.log| && db.log[i].task == db.log[j].task
                      && db.log[i].fence.Some? && db.log[j].fence.Some? ::
          db.log[i].fence.value < |db.claims| && db.log[j].fence.value < |db.claims| &&
          db.claims[db.log[i].fence.value].attempt <= db.claims[db.log[j].fence.value].attempt)
  }

  ghost predicate Inv(db: Db) {
    && InRange(db) && Numbered(db.claims) && OnlyNewestActive(db.claims)
    && Frozen(db) && Legal(db) && Fenced(db)
  }

  /** All dependencies of a task are completed. */
  ghost predicate DepsDone(db: Db, t: TaskId) {
    forall d | d in db.deps && d.0 == t :: d.1 < |db.tasks| && db.tasks[d.1].status.Completed?
  }

  /** No task is dispatched while one of its dependencies is open. */
  ghost predicate Closed(db: Db) {
    forall t: TaskId | t < |db.tasks| && Launched(db.tasks[t].status) :: DepsDone(db, t)
  }

  /** What makes a commit sound: it is what the read half has checked, still true. */
  ghost predicate MayCommit(db: Db, t: TaskId, to: Status, fence: Option<Fence>, proof: Option<Records>) {
    && t < |db.tasks|
    && to in Successors(db.tasks[t].status)
    && (fence.Some? ==> Newest(db, fence.value.claim, t))
    && (to.Completed? ==>
          && proof.Some?
          && Proven(proof.value, t, db.tasks[t].project, FrozenCriteria(db.tasks[t]), true))
  }

  ghost predicate Launches(db: Db, t: TaskId, to: Status) {
    t < |db.tasks| && !Launched(db.tasks[t].status) && Launched(to)
  }

  // ---------- Counting attempts ----------

  lemma {:induction false} CountSame(a: seq<Claim>, b: seq<Claim>, t: TaskId)
    requires |a| == |b| && forall c | 0 <= c < |a| :: a[c].task == b[c].task
    ensures CountOf(a, t) == CountOf(b, t)
  {
    if a != [] { CountSame(a[..|a| - 1], b[..|b| - 1], t); }
  }

  lemma {:induction false} CountGrows(claims: seq<Claim>, c: nat, t: TaskId)
    requires c <= |claims|
    ensures CountOf(claims[..c], t) <= CountOf(claims, t)
  {
    if c == |claims| {
      assert claims[..c] == claims;
    } else {
      assert claims[..|claims| - 1][..c] == claims[..c];
      CountGrows(claims[..|claims| - 1], c, t);
    }
  }

  lemma PrefixNumbered(claims: seq<Claim>)
    requires Numbered(claims) && claims != []
    ensures Numbered(claims[..|claims| - 1])
  {
    var init := claims[..|claims| - 1];
    forall c: nat | c < |init| ensures init[c].attempt == CountOf(init[..c + 1], init[c].task) {
      assert init[..c + 1] == claims[..c + 1];
    }
  }

  lemma {:induction false} LastAttemptIsCount(claims: seq<Claim>, t: TaskId)
    requires Numbered(claims)
    ensures Attempts(claims, t) == CountOf(claims, t)
  {
    if claims != [] {
      var init := claims[..|claims| - 1];
      PrefixNumbered(claims);
      LastAttemptIsCount(init, t);
      assert claims[..|claims| - 1 + 1] == claims;
    }
  }

  lemma AttemptsIncrease(claims: seq<Claim>, c: nat, d: nat)
    requires Numbered(claims) && c < d < |claims| && claims[c].task == claims[d].task
    ensures claims[c].attempt < claims[d].attempt
  {
    assert claims[..d][..c + 1] == claims[..c + 1];
    CountGrows(claims[..d], c + 1, claims[c].task);
    assert claims[..d + 1][..d] == claims[..d];
  }

  ghost predicate HasAttempt(claims: seq<Claim>, t: TaskId, k: nat) {
    exists c: nat :: c < |claims| && claims[c].task == t && claims[c].attempt == k
  }

  /** The attempts of a task are exactly 1 to n. */
  lemma AttemptsAreOneToN(claims: seq<Claim>, t: TaskId, k: nat)
    requires Numbered(claims)
    ensures HasAttempt(claims, t, k) <==> 1 <= k <= CountOf(claims, t)
  {
    hide Numbered, CountOf;
    if 1 <= k <= CountOf(claims, t) { AttemptExists(claims, t, k); }
    if HasAttempt(claims, t, k) {
      var c: nat :| c < |claims| && claims[c].task == t && claims[c].attempt == k;
      AttemptInRange(claims, c);
    }
  }

  lemma AttemptInRange(claims: seq<Claim>, c: nat)
    requires Numbered(claims) && c < |claims|
    ensures 1 <= claims[c].attempt <= CountOf(claims, claims[c].task)
  {
    CountGrows(claims, c + 1, claims[c].task);
    assert claims[..c + 1][..c] == claims[..c];
  }

  lemma {:induction false} AttemptExists(claims: seq<Claim>, t: TaskId, k: nat)
    requires Numbered(claims) && 1 <= k <= CountOf(claims, t)
    ensures HasAttempt(claims, t, k)
  {
    var init, last := claims[..|claims| - 1], claims[|claims| - 1];
    PrefixNumbered(claims);
    assert claims[..|claims| - 1 + 1] == claims;
    if k <= CountOf(init, t) {
      AttemptExists(init, t, k);
      var c: nat :| c < |init| && init[c].task == t && init[c].attempt == k;
      assert claims[c].task == t && claims[c].attempt == k;
    } else {
      assert claims[|claims| - 1].task == t && claims[|claims| - 1].attempt == k;
    }
  }

  lemma ActiveIsNewest(db: Db, c: ClaimId)
    requires Numbered(db.claims) && OnlyNewestActive(db.claims)
    requires c < |db.claims| && db.claims[c].status.Active?
    ensures Newest(db, c, db.claims[c].task)
  {
    NothingAfter(db.claims, c + 1, db.claims[c].task);
  }

  lemma {:induction false} NothingAfter(claims: seq<Claim>, c: nat, t: TaskId)
    requires c <= |claims| && forall d | c <= d < |claims| :: claims[d].task != t
    ensures CountOf(claims, t) == CountOf(claims[..c], t)
  {
    if c == |claims| {
      assert claims[..c] == claims;
    } else {
      assert claims[..|claims| - 1][..c] == claims[..c];
      NothingAfter(claims[..|claims| - 1], c, t);
    }
  }

  // ---------- The building blocks keep the invariant ----------

  lemma CommitKeepsInv(db: Db, t: TaskId, to: Status, fence: Option<Fence>, proof: Option<Records>)
    requires Inv(db) && MayCommit(db, t, to, fence, proof)
    ensures Inv(Committed(db, t, to, fence, proof))
  {
    CommitKeepsFrozen(db, t, to, fence, proof);
    CommitKeepsLegal(db, t, to, fence, proof);
    CommitKeepsFenced(db, t, to, fence, proof);
    hide Frozen, Legal, Fenced;
  }

  lemma CommitKeepsFrozen(db: Db, t: TaskId, to: Status, fence: Option<Fence>, proof: Option<Records>)
    requires InRange(db) && Frozen(db) && MayCommit(db, t, to, fence, proof)
    ensures Frozen(Committed(db, t, to, fence, proof))
  {
    hide Proven;
    assert to.Completed? ==> db.tasks[t].status.ReadyToMerge?;
  }

  lemma CommitKeepsLegal(db: Db, t: TaskId, to: Status, fence: Option<Fence>, proof: Option<Records>)
    requires InRange(db) && Frozen(db) && Legal(db) && MayCommit(db, t, to, fence, proof)
    ensures Legal(Committed(db, t, to, fence, proof))
  {
    hide Proven, Successors;
    assert to.Completed? ==> db.tasks[t].status.ReadyToMerge? by { CompletedFrom(db.tasks[t].status); }
  }

  lemma CompletedFrom(from: Status)
    ensures Completed in Successors(from) ==> from.ReadyToMerge?
  {
  }

  lemma CommitKeepsFenced(db: Db, t: TaskId, to: Status, fence: Option<Fence>, proof: Option<Records>)
    requires InRange(db) && Numbered(db.claims) && Fenced(db) && MayCommit(db, t, to, fence, proof)
    ensures Fenced(Committed(db, t, to, fence, proof))
  {
    if fence.Some? {
      forall i | 0 <= i < |db.log| && db.log[i].task == t && db.log[i].fence.Some?
        ensures db.claims[db.log[i].fence.value].attempt <= db.claims[fence.value.claim].attempt
      {
        CountGrows(db.claims, db.log[i].fence.value + 1, t);
      }
    }
  }

  lemma NewClaimIsNumbered(db: Db, t: TaskId, worker: string, now: int, lease: int)
    requires Numbered(db.claims)
    ensures Numbered(WithClaim(db, t, worker, now, lease).claims)
    ensures Newest(WithClaim(db, t, worker, now, lease), |db.claims|, t)
    ensures forall u | u != t :: CountOf(WithClaim(db, t, worker, now, lease).claims, u) == CountOf(db.claims, u)
  {
    var claims := WithClaim(db, t, worker, now, lease).claims;
    LastAttemptIsCount(db.claims, t);
    assert claims[..|claims| - 1] == db.claims && claims[..|claims| - 1 + 1] == claims;
    forall c: nat | c < |claims| ensures claims[c].attempt == CountOf(claims[..c + 1], claims[c].task) {
      if c < |db.claims| { assert claims[..c + 1] == db.claims[..c + 1]; }
    }
  }

  lemma NewClaimKeepsInv(db: Db, t: TaskId, worker: string, now: int, lease: int)
    requires Inv(db) && t < |db.tasks| && !HasActive(db.claims, t)
    ensures Inv(WithClaim(db, t, worker, now, lease))
  {
    hide Numbered, CountOf, Proven;
    var r := WithClaim(db, t, worker, now, lease);
    NewClaimIsNumbered(db, t, worker, now, lease);
    assert OnlyNewestActive(r.claims);
    assert Fenced(r);
  }

  /** An edit that keeps a claim's task, worker and attempt and does not reopen it. */
  ghost predicate Edits(a: Claim, b: Claim) {
    b.task == a.task && b.worker == a.worker && b.attempt == a.attempt && (b.status.Active? ==> a.status.Active?)
  }

  lemma EditKeepsNumbers(claims: seq<Claim>, c: ClaimId, claim: Claim)
    requires Numbered(claims) && c < |claims| && Edits(claims[c], claim)
    ensures Numbered(claims[c := claim])
    ensures forall t :: CountOf(claims[c := claim], t) == CountOf(claims, t)
  {
    var edited := claims[c := claim];
    forall d: nat | d < |edited| ensures edited[d].attempt == CountOf(edited[..d + 1], edited[d].task) {
      CountSame(edited[..d + 1], claims[..d + 1], edited[d].task);
    }
    forall t ensures CountOf(edited, t) == CountOf(claims, t) { CountSame(edited, claims, t); }
  }

  lemma EditKeepsInv(db: Db, c: ClaimId, claim: Claim)
    requires Inv(db) && c < |db.claims| && Edits(db.claims[c], claim)
    ensures Inv(db.(claims := db.claims[c := claim]))
    ensures forall d: ClaimId, t :: Newest(db, d, t) ==> Newest(db.(claims := db.claims[c := claim]), d, t)
  {
    hide Proven, Numbered, CountOf;
    EditKeepsNumbers(db.claims, c, claim);
  }

  lemma TransitionCommits(db: Db, t: TaskId, to: Status, fence: Option<Fence>)
    requires Inv(db) && Transition(db, t, to, fence).Ok?
    ensures MayCommit(db, t, to, fence, Judged(db, to))
    ensures Transition(db, t, to, fence).value == Committed(db, t, to, fence, Judged(db, to))
    ensures Launches(db, t, to) ==> DepsDone(db, t)
  {
    if fence.Some? { ActiveIsNewest(db, fence.value.claim); }
    if Launches(db, t, to) {
      OneWayToLaunch(db.tasks[t].status, to, GuardsOf(db, t, to));
      assert Incomplete(db, t) == {};
      forall d | d in db.deps && d.0 == t ensures d.1 < |db.tasks| && db.tasks[d.1].status.Completed? {
        assert db.tasks[d.1].status.Completed? || d.1 in Incomplete(db, t);
      }
    }
  }

  // ---------- What later steps cannot undo ----------

  /** `r` is later than `db`: rows that changed have a higher version, completion and frozen criteria
      stay, and a claim is superseded only together with a new version of its task. */
  ghost predicate Extends(db: Db, r: Db) {
    && |r.tasks| >= |db.tasks| && |r.claims| >= |db.claims| && db.deps <= r.deps && |r.log| >= |db.log|
    && (forall t | 0 <= t < |db.tasks| ::
          && r.tasks[t].project == db.tasks[t].project
          && (r.tasks[t] == db.tasks[t] || r.tasks[t].version > db.tasks[t].version)
          && (db.tasks[t].status.Completed? ==> r.tasks[t].status.Completed?)
          && (db.tasks[t].snapshot.Some? ==> r.tasks[t].snapshot == db.tasks[t].snapshot))
    && (forall c | 0 <= c < |db.claims| :: Edits(db.claims[c], r.claims[c]))
    && (forall c: ClaimId, t: TaskId | t < |db.tasks| && Newest(db, c, t) ::
          Newest(r, c, t) || r.tasks[t].version > db.tasks[t].version)
  }

  lemma ExtendsReflexive(db: Db)
    ensures Extends(db, db)
  {
  }

  lemma ExtendsTransitive(a: Db, b: Db, c: Db)
    requires Extends(a, b) && Extends(b, c)
    ensures Extends(a, c)
  {
  }

  lemma CommitExtends(db: Db, t: TaskId, to: Status, fence: Option<Fence>, proof: Option<Records>)
    requires t < |db.tasks| && to in Successors(db.tasks[t].status)
    ensures Extends(db, Committed(db, t, to, fence, proof))
  {
  }

  lemma EditExtends(db: Db, c: ClaimId, claim: Claim)
    requires Inv(db) && c < |db.claims| && Edits(db.claims[c], claim)
    ensures Extends(db, db.(claims := db.claims[c := claim]))
  {
    EditKeepsInv(db, c, claim);
  }

  lemma ClaimNextKeeps(db: Db, worker: string, lease: int, filter: Filter, now: int, later: int)
    requires Inv(db) && ClaimNext(db, worker, lease, filter, now, later).Ok?
    ensures var r := ClaimNext(db, worker, lease, filter, now, later).value.0; Inv(r) && Extends(db, r)
  {
    hide Inv, Extends, WithClaim, Transition, Committed;
    ExtendsReflexive(db);
    var t := Oldest(db, 0, filter);
    if t < |db.tasks| {
      var claimed := WithClaim(db, t, worker, now, lease);
      var fence := Some(Fence(|db.claims|, worker, later));
      NewClaimKeepsInv(db, t, worker, now, lease);
      TransitionCommits(claimed, t, Running, fence);
      CommitKeepsInv(claimed, t, Running, fence, None);
      ClaimNextExtends(db, t, worker, now, lease, fence);
    }
  }

  lemma ClaimNextExtends(db: Db, t: TaskId, worker: string, now: int, lease: int, fence: Option<Fence>)
    requires Inv(db) && t < |db.tasks| && db.tasks[t].status.Queued?
    ensures Extends(db, Committed(WithClaim(db, t, worker, now, lease), t, Running, fence, None))
  {
    hide Proven, Numbered, CountOf;
    var r := Committed(WithClaim(db, t, worker, now, lease), t, Running, fence, None);
    NewClaimIsNumbered(db, t, worker, now, lease);
    forall c: ClaimId, u: TaskId | u < |db.tasks| && Newest(db, c, u)
      ensures Newest(r, c, u) || r.tasks[u].version > db.tasks[u].version
    {
    }
  }

  lemma {:induction false} RecoverKeeps(db: Db, n: nat, now: int)
    requires Inv(db) && n <= |db.claims|
    ensures Inv(Recover(db, n, now)) && Extends(db, Recover(db, n, now))
  {
    hide Inv, Extends, RecoverOne;
    ExtendsReflexive(db);
    if n > 0 {
      RecoverKeeps(db, n - 1, now);
      RecoverOneMore(db, Recover(db, n - 1, now), n - 1);
    }
  }

  lemma RecoverOneMore(db: Db, before: Db, c: ClaimId)
    requires Inv(before) && Extends(db, before) && c < |before.claims|
    ensures Inv(RecoverOne(before, c)) && Extends(db, RecoverOne(before, c))
  {
    RecoverOneKeeps(before, c);
    ExtendsTransitive(db, before, RecoverOne(before, c));
  }

  lemma RecoverOneKeeps(db: Db, c: ClaimId)
    requires Inv(db) && c < |db.claims|
    ensures Inv(RecoverOne(db, c)) && Extends(db, RecoverOne(db, c))
  {
    var expired := db.claims[c].(status := ClaimStatus.Expired);
    EditKeepsInv(db, c, expired);
    EditExtends(db, c, expired);
    var edited := db.(claims := db.claims[c := expired]);
    var t := db.claims[c].task;
    if db.tasks[t].status.Running? {
      CommitKeepsInv(edited, t, Queued, None, None);
      CommitExtends(edited, t, Queued, None, None);
      ExtendsTransitive(db, edited, RecoverOne(db, c));
    }
  }

  /** The row still is what the read half saw. */
  ghost predicate Fresh(db: Db, p: Pending) {
    p.task < |db.tasks| && db.tasks[p.task].status == p.status && db.tasks[p.task].version == p.version
  }

  /** A read transition that can still be committed may be committed. */
  ghost predicate Sound(db: Db, p: Pending) {
    && p.task < |db.tasks| && p.version <= db.tasks[p.task].version
    && (Fresh(db, p) ==> MayCommit(db, p.task, p.to, p.fence, p.proof))
  }

  lemma SoundStays(db: Db, r: Db, p: Pending)
    requires Sound(db, p) && Extends(db, r)
    ensures Sound(r, p)
  {
  }

  ghost predicate WorldInv(w: World) {
    Inv(w.db) && forall i | 0 <= i < |w.pending| :: Sound(w.db, w.pending[i])
  }

  lemma RowStepKeepsDb(w: World, step: Step)
    requires WorldInv(w) && Next(w, step).Some?
    requires step.Wait? || step.NewTask? || step.NewDependency? || step.ChangeRecords? || step.BeginMove?
    ensures Inv(Next(w, step).value.db) && Extends(w.db, Next(w, step).value.db)
  {
    hide Proven, Numbered, CountOf, Transition, ClaimNext, Release, Recover, Extends;
    if step.NewTask? {
      NewTaskKeeps(w.db, step.project, step.criteria);
    } else {
      RowsUnchanged(w.db, Next(w, step).value.db);
    }
  }

  lemma NewTaskKeeps(db: Db, project: string, criteria: Option<Criteria>)
    requires Inv(db)
    ensures Inv(AddTask(db, project, criteria)) && Extends(db, AddTask(db, project, criteria))
  {
    hide Proven, Numbered, CountOf;
  }

  /** Neither new edges nor new records matter to the invariant. */
  lemma RowsUnchanged(db: Db, r: Db)
    requires Inv(db) && r.tasks == db.tasks && r.claims == db.claims && r.log == db.log && db.deps <= r.deps
    requires forall d | d in r.deps :: d in db.deps || (d.0 < |db.tasks| && d.1 < |db.tasks|)
    ensures Inv(r) && Extends(db, r)
  {
    hide Proven, Numbered, CountOf;
  }

  lemma MoveKeeps(db: Db, t: TaskId, to: Status, fence: Option<Fence>)
    requires Inv(db) && Transition(db, t, to, fence).Ok?
    ensures Inv(Transition(db, t, to, fence).value) && Extends(db, Transition(db, t, to, fence).value)
  {
    TransitionCommits(db, t, to, fence);
    CommitKeepsInv(db, t, to, fence, Judged(db, to));
    CommitExtends(db, t, to, fence, Judged(db, to));
  }

  lemma SwapKeeps(db: Db, p: Pending)
    requires Inv(db) && Sound(db, p) && Swap(db, p).Ok?
    ensures Inv(Swap(db, p).value) && Extends(db, Swap(db, p).value)
  {
    CommitKeepsInv(db, p.task, p.to, p.fence, p.proof);
    CommitExtends(db, p.task, p.to, p.fence, p.proof);
  }

  lemma EditKeeps(db: Db, c: ClaimId, claim: Claim)
    requires Inv(db) && c < |db.claims| && Edits(db.claims[c], claim)
    ensures var r := db.(claims := db.claims[c := claim]); Inv(r) && Extends(db, r)
  {
    EditKeepsInv(db, c, claim);
    EditExtends(db, c, claim);
  }

  lemma StepKeepsDb(w: World, step: Step)
    requires WorldInv(w) && Next(w, step).Some?
    ensures Inv(Next(w, step).value.db) && Extends(w.db, Next(w, step).value.db)
  {
    hide Inv, Extends;
    match step {
      case Move(t, to, fence) => MoveKeeps(w.db, t, to, FenceAt(fence, w.clock));
      case FinishMove(i) => SwapKeeps(w.db, w.pending[i]);
      case TakeNext(worker, lease, filter, later) => ClaimNextKeeps(w.db, worker, lease, filter, w.clock, later);
      case Beat(c, worker, lease) =>
        EditKeeps(w.db, c, w.db.claims[c].(heartbeatAt := w.clock, leaseExpiresAt := w.clock + lease));
      case Finish(c, worker) => EditKeeps(w.db, c, w.db.claims[c].(status := Done));
      case HandBack(c, worker, requeue) => HandBackKeeps(w.db, c, worker, requeue, w.clock);
      case Sweep => RecoverKeeps(w.db, |w.db.claims|, w.clock);
      case _ => RowStepKeepsDb(w, step);
    }
  }

  lemma HandBackKeeps(db: Db, c: ClaimId, worker: string, requeue: bool, now: int)
    requires Inv(db) && Release(db, c, worker, requeue, now).Ok?
    ensures var r := Release(db, c, worker, requeue, now).value; Inv(r) && Extends(db, r)
  {
    var released := db.claims[c].(status := ClaimStatus.Released);
    var closed := db.(claims := db.claims[c := released]);
    var t, to := db.claims[c].task, if requeue then Queued else Cancelled;
    EditKeepsInv(db, c, released);
    EditExtends(db, c, released);
    TransitionCommits(closed, t, to, None);
    CommitKeepsInv(closed, t, to, None, None);
    CommitExtends(closed, t, to, None, None);
    ExtendsTransitive(db, closed, Committed(closed, t, to, None, None));
  }

  lemma StepKeepsInv(w: World, step: Step)
    requires WorldInv(w) && Next(w, step).Some?
    ensures WorldInv(Next(w, step).value) && Extends(w.db, Next(w, step).value.db)
  {
    var v := Next(w, step).value;
    StepKeepsDb(w, step);
    forall i | 0 <= i < |v.pending| ensures Sound(v.db, v.pending[i]) {
      if i < |w.pending| {
        SoundStays(w.db, v.db, w.pending[i]);
      } else {
        TransitionCommits(w.db, step.t, step.to, FenceAt(step.fence, w.clock));
      }
    }
  }

  // ---------- Whole runs ----------

  ghost function After(w: World, steps: seq<Step>): Option<World>
    decreases |steps|
  {
    if steps == [] then Some(w)
    else
      var v := Next(w, steps[0]);
      if v.None? then None else After(v.value, steps[1..])
  }

  const Start := World(EmptyDb, [], 0)

  lemma {:induction false} RunKeepsInv(w: World, steps: seq<Step>)
    requires WorldInv(w) && After(w, steps).Some?
    ensures WorldInv(After(w, steps).value) && Extends(w.db, After(w, steps).value.db)
    decreases |steps|
  {
    hide WorldInv, Extends, Next;
    ExtendsReflexive(w.db);
    if steps != [] {
      var v := Next(w, steps[0]).value;
      StepKeepsInv(w, steps[0]);
      RunKeepsInv(v, steps[1..]);
      ExtendsTransitive(w.db, v.db, After(v, steps[1..]).value.db);
    }
  }

  /** In every run from empty tables, split transitions included: every committed change is a legal
      edge; a task has at most one active claim, and that one has the task's largest attempt; attempts
      are exactly 1 to n; the attempts behind fenced changes never decrease; every completion was judged
      on the frozen criteria and the proof held; the criteria of every dispatched task are frozen. */
  lemma EveryRunIsSound(steps: seq<Step>)
    requires After(Start, steps).Some?
    ensures var db := After(Start, steps).value.db;
            && Legal(db) && Fenced(db) && Frozen(db)
            && OnlyNewestActive(db.claims)
            && (forall c: ClaimId | c < |db.claims| && db.claims[c].status.Active? :: Newest(db, c, db.claims[c].task))
            && (forall t: TaskId, k: nat :: HasAttempt(db.claims, t, k) <==> 1 <= k <= CountOf(db.claims, t))
  {
    RunKeepsInv(Start, steps);
    var db := After(Start, steps).value.db;
    forall c: ClaimId | c < |db.claims| && db.claims[c].status.Active? ensures Newest(db, c, db.claims[c].task) {
      ActiveIsNewest(db, c);
    }
    forall t: TaskId, k: nat ensures HasAttempt(db.claims, t, k) <==> 1 <= k <= CountOf(db.claims, t) {
      AttemptsAreOneToN(db.claims, t, k);
    }
  }

  /** Completion is final and frozen criteria never change, from any point of a run on. */
  lemma CompletionAndCriteriaAreFinal(steps: seq<Step>, more: seq<Step>, t: TaskId)
    requires After(Start, steps).Some? && After(After(Start, steps).value, more).Some?
    requires t < |After(Start, steps).value.db.tasks|
    ensures var before, later := After(Start, steps).value.db, After(After(Start, steps).value, more).value.db;
            && t < |later.tasks|
            && (before.tasks[t].status.Completed? ==> later.tasks[t].status.Completed?)
            && (before.tasks[t].snapshot.Some? ==> later.tasks[t].snapshot == before.tasks[t].snapshot)
  {
    RunKeepsInv(Start, steps);
    RunKeepsInv(After(Start, steps).value, more);
  }

  // ---------- Dead claims stay dead ----------

  ghost predicate Dead(db: Db, c: ClaimId, now: int) { c < |db.claims| && !Live(db, c, now) }

  lemma {:induction false} RecoverCloses(db: Db, n: nat, now: int, c: ClaimId)
    requires n <= |db.claims| && c < |db.claims|
    ensures var r := Recover(db, n, now);
            r.claims[c] == if c < n && Lapsed(db, c, now) then db.claims[c].(status := ClaimStatus.Expired) else db.claims[c]
  {
    if n > 0 { RecoverCloses(db, n - 1, now, c); }
  }

  lemma StepKeepsDead(w: World, step: Step, c: ClaimId)
    requires Dead(w.db, c, w.clock) && Next(w, step).Some?
    ensures w.clock <= Next(w, step).value.clock
    ensures Dead(Next(w, step).value.db, c, Next(w, step).value.clock)
  {
    if step.Sweep? { RecoverCloses(w.db, |w.db.claims|, w.clock, c); }
  }

  lemma {:induction false} DeadStaysDead(w: World, steps: seq<Step>, c: ClaimId)
    requires Dead(w.db, c, w.clock) && After(w, steps).Some?
    ensures Dead(After(w, steps).value.db, c, After(w, steps).value.clock)
    decreases |steps|
  {
    hide Next, Dead;
    if steps != [] {
      StepKeepsDead(w, steps[0], c);
      DeadStaysDead(Next(w, steps[0]).value, steps[1..], c);
    }
  }

  /** Once the lease of a claim has lapsed or the claim is closed, no later heartbeat, completion,
      release or fenced transition presenting it succeeds, whatever happens in between. */
  lemma DeadClaimsAreUseless(
      w: World, steps: seq<Step>, c: ClaimId, worker: string, lease: int, requeue: bool, t: TaskId, to: Status)
    requires Dead(w.db, c, w.clock) && After(w, steps).Some?
    ensures var v := After(w, steps).value;
            && Heartbeat(v.db, c, worker, lease, v.clock) == Err(StaleClaim)
            && Close(v.db, c, worker, Done, v.clock) == Err(StaleClaim)
            && Release(v.db, c, worker, requeue, v.clock) == Err(StaleClaim)
            && Transition(v.db, t, to, Some(Fence(c, worker, v.clock))) == Err(StaleClaim)
  {
    DeadStaysDead(w, steps, c);
  }

  lemma {:induction false} PendingPersists(w: World, steps: seq<Step>, i: nat)
    requires After(w, steps).Some? && i < |w.pending|
    ensures i < |After(w, steps).value.pending| && After(w, steps).value.pending[i] == w.pending[i]
    decreases |steps|
  {
    if steps != [] {
      PendingStays(w, steps[0], i);
      hide Next;
      PendingPersists(Next(w, steps[0]).value, steps[1..], i);
    }
  }

  lemma PendingStays(w: World, step: Step, i: nat)
    requires Next(w, step).Some? && i < |w.pending|
    ensures i < |Next(w, step).value.pending| && Next(w, step).value.pending[i] == w.pending[i]
  {
    hide Transition, ClaimNext, Release, Recover;
  }

  /** The one way left to a dead claim: a transition that was read while the claim was live is committed
      later if and only if its task's row is still what was read. The fence is not looked at again. */
  lemma DeadClaimCommitsIffRowIsFresh(w: World, t: TaskId, to: Status, c: ClaimId, worker: string, more: seq<Step>)
    requires Next(w, BeginMove(t, to, Some((c, worker)))).Some?
    requires After(Next(w, BeginMove(t, to, Some((c, worker)))).value, more).Some?
    ensures Live(w.db, c, w.clock)
    ensures var v := After(Next(w, BeginMove(t, to, Some((c, worker)))).value, more).value;
            && |w.pending| < |v.pending| && v.pending[|w.pending|].fence == Some(Fence(c, worker, w.clock))
            && (Next(v, FinishMove(|w.pending|)).Some? <==> Fresh(v.db, v.pending[|w.pending|]))
  {
    PendingPersists(Next(w, BeginMove(t, to, Some((c, worker)))).value, more, |w.pending|);
    hide After, ProofHolds, Incomplete;
  }

  /** It happens: read, wait until the lease is over, commit. */
  lemma LapsedClaimCanCommit(w: World, t: TaskId, to: Status, c: ClaimId, worker: string)
    requires Next(w, BeginMove(t, to, Some((c, worker)))).Some?
    ensures c < |w.db.claims|
    ensures var v := After(w, [BeginMove(t, to, Some((c, worker))), Wait(w.db.claims[c].leaseExpiresAt)]);
            && v.Some? && Dead(v.value.db, c, v.value.clock) && Next(v.value, FinishMove(|w.pending|)).Some?
  {
    ReadKeepsTables(w, t, to, c, worker);
    hide Next, Owns;
    var read, wait := BeginMove(t, to, Some((c, worker))), Wait(w.db.claims[c].leaseExpiresAt);
    var first := Next(w, read).value;
    TwoSteps(w, read, wait);
    WaitsOnly(first, w.db.claims[c].leaseExpiresAt);
    FreshCommits(first.(clock := w.db.claims[c].leaseExpiresAt), |w.pending|);
  }

  lemma WaitsOnly(w: World, until: int)
    requires until >= w.clock
    ensures Next(w, Wait(until)) == Some(w.(clock := until))
  {
  }

  lemma FreshCommits(w: World, i: nat)
    requires i < |w.pending| && Fresh(w.db, w.pending[i])
    ensures Next(w, FinishMove(i)).Some?
  {
    hide Transition, ClaimNext, Release, Recover;
  }

  lemma ReadKeepsTables(w: World, t: TaskId, to: Status, c: ClaimId, worker: string)
    requires Next(w, BeginMove(t, to, Some((c, worker)))).Some?
    ensures c < |w.db.claims| && Live(w.db, c, w.clock)
    ensures var v := Next(w, BeginMove(t, to, Some((c, worker)))).value;
            && v.db == w.db && v.clock == w.clock && |v.pending| == |w.pending| + 1
            && Fresh(v.db, v.pending[|w.pending|])
  {
    hide ProofHolds, Incomplete;
  }

  lemma TwoSteps(w: World, first: Step, second: Step)
    requires Next(w, first).Some?
    ensures After(w, [first, second]) == Next(Next(w, first).value, second)
  {
    hide Next;
    var steps := [first, second];
    assert steps[1..] == [second] && [second][1..] == [];
    var v := Next(Next(w, first).value, second);
    assert v.Some? ==> After(v.value, []) == v;
  }

  // ---------- Recovery ----------

  /** Some claim of the task has lapsed. */
  ghost predicate HasLapsed(db: Db, n: nat, t: TaskId, now: int) {
    exists c: nat :: c < n && c < |db.claims| && db.claims[c].task == t && Lapsed(db, c, now)
  }

  lemma {:induction false} RecoveredTasks(db: Db, n: nat, t: TaskId, now: int)
    requires n <= |db.claims| && t < |db.tasks|
    ensures Recover(db, n, now).tasks[t] ==
              if db.tasks[t].status.Running? && HasLapsed(db, n, t, now) then Patched(db.tasks[t], Queued, None)
              else db.tasks[t]
  {
    if n > 0 {
      RecoveredTasks(db, n - 1, t, now);
      assert HasLapsed(db, n, t, now) <==>
        HasLapsed(db, n - 1, t, now) || (db.claims[n - 1].task == t && Lapsed(db, n - 1, now));
    }
  }

  /** A sweep expires exactly the lapsed claims, requeues exactly the running tasks that had one, each
      once, and leaves every other row alone; nothing active is left with an earlier lease. */
  lemma SweepDoesExactlyThis(db: Db, now: int)
    ensures var r := Recover(db, |db.claims|, now);
            && (forall c: ClaimId | c < |db.claims| ::
                  r.claims[c] == if Lapsed(db, c, now) then db.claims[c].(status := ClaimStatus.Expired) else db.claims[c])
            && (forall c: ClaimId | c < |db.claims| && Live(db, c, now) :: Live(r, c, now))
            && (forall c: ClaimId | c < |r.claims| :: !Lapsed(r, c, now))
            && (forall t: TaskId | t < |db.tasks| ::
                  r.tasks[t] == if db.tasks[t].status.Running? && HasLapsed(db, |db.claims|, t, now)
                                then Patched(db.tasks[t], Queued, None) else db.tasks[t])
  {
    forall c: ClaimId | c < |db.claims|
      ensures Recover(db, |db.claims|, now).claims[c]
           == if Lapsed(db, c, now) then db.claims[c].(status := ClaimStatus.Expired) else db.claims[c]
    {
      RecoverCloses(db, |db.claims|, now, c);
    }
    forall t: TaskId | t < |db.tasks|
      ensures Recover(db, |db.claims|, now).tasks[t]
           == if db.tasks[t].status.Running? && HasLapsed(db, |db.claims|, t, now)
              then Patched(db.tasks[t], Queued, None) else db.tasks[t]
    {
      RecoveredTasks(db, |db.claims|, t, now);
    }
  }

  lemma {:induction false} NothingToRecover(db: Db, n: nat, now: int)
    requires n <= |db.claims| && forall c: ClaimId | c < |db.claims| :: !Lapsed(db, c, now)
    ensures Recover(db, n, now) == db
  {
    if n > 0 { NothingToRecover(db, n - 1, now); }
  }

  /** A second sweep at the same time finds nothing to do. */
  lemma SweepIsIdempotent(db: Db, now: int)
    ensures var r := Recover(db, |db.claims|, now); Recover(r, |r.claims|, now) == r
  {
    var r := Recover(db, |db.claims|, now);
    SweepDoesExactlyThis(db, now);
    NothingToRecover(r, |r.claims|, now);
  }

  /** A queued task without an active claim is claimed by name, under the next attempt number. */
  lemma ClaimableIsClaimed(db: Db, t: TaskId, worker: string, lease: int, now: int, later: int)
    requires t < |db.tasks| && Claimable(db, t, Filter(None, Some(t))) && now <= later < now + lease
    ensures var next := ClaimNext(db, worker, lease, Filter(None, Some(t)), now, later);
            && next.Ok? && next.value.1 == Some(|db.claims|)
            && next.value.0.claims == db.claims + [Claim(t, worker, Attempts(db.claims, t) + 1, Active, now + lease, now)]
            && next.value.0.tasks == db.tasks[t := Patched(db.tasks[t], Running, Some(Fence(|db.claims|, worker, later)))]
  {
    assert Oldest(db, 0, Filter(None, Some(t))) == t;
  }

  /** A task that a sweep has requeued can be claimed again at once, under the next attempt number. */
  lemma RequeuedTaskIsClaimable(db: Db, now: int, t: TaskId, worker: string, lease: int, later: int)
    requires Inv(db) && t < |db.tasks| && db.tasks[t].status.Running? && HasLapsed(db, |db.claims|, t, now)
    requires now <= later < now + lease
    ensures var r := Recover(db, |db.claims|, now);
            var next := ClaimNext(r, worker, lease, Filter(None, Some(t)), now, later);
            && next.Ok? && next.value.1 == Some(|db.claims|)
            && next.value.0.claims
               == r.claims + [Claim(t, worker, Attempts(db.claims, t) + 1, Active, now + lease, now)]
            && next.value.0.tasks[t].status.Running?
  {
    var r := Recover(db, |db.claims|, now);
    RequeuedTaskIsFree(db, now, t);
    AttemptsSame(db.claims, r.claims, t);
    ClaimableIsClaimed(r, t, worker, lease, now, later);
  }

  lemma {:induction false} AttemptsSame(a: seq<Claim>, b: seq<Claim>, t: TaskId)
    requires |a| == |b| && forall c | 0 <= c < |a| :: a[c].task == b[c].task && a[c].attempt == b[c].attempt
    ensures Attempts(a, t) == Attempts(b, t)
  {
    if a != [] { AttemptsSame(a[..|a| - 1], b[..|b| - 1], t); }
  }

  lemma RequeuedTaskIsFree(db: Db, now: int, t: TaskId)
    requires Inv(db) && t < |db.tasks| && db.tasks[t].status.Running? && HasLapsed(db, |db.claims|, t, now)
    ensures var r := Recover(db, |db.claims|, now);
            && Claimable(r, t, Filter(None, Some(t)))
            && forall c | 0 <= c < |db.claims| :: r.claims[c].task == db.claims[c].task && r.claims[c].attempt == db.claims[c].attempt
  {
    SweepDoesExactlyThis(db, now);
    var c: nat :| c < |db.claims| && db.claims[c].task == t && Lapsed(db, c, now);
    assert forall d | 0 <= d < |db.claims| && d != c && db.claims[d].task == t :: !db.claims[d].status.Active?;
  }

  // ---------- Dependencies ----------

  /** Adding an edge is harmless when the new dependency is already completed, or when the task is
      neither dispatched nor about to be by a transition that was read but not yet committed. */
  ghost predicate Harmless(w: World, step: Step) {
    step.NewDependency? && step.t < |w.db.tasks| && step.on < |w.db.tasks| ==>
      || w.db.tasks[step.on].status.Completed?
      || (&& !Launched(w.db.tasks[step.t].status)
          && forall i | 0 <= i < |w.pending| && w.pending[i].task == step.t ::
               !(Fresh(w.db, w.pending[i]) && Launched(w.pending[i].to)))
  }

  ghost predicate WorldClosed(w: World) {
    && Closed(w.db)
    && forall i | 0 <= i < |w.pending| ::
         Fresh(w.db, w.pending[i]) && Launches(w.db, w.pending[i].task, w.pending[i].to) ==> DepsDone(w.db, w.pending[i].task)
  }

  lemma DepsStayDone(db: Db, r: Db, t: TaskId)
    requires DepsDone(db, t) && Extends(db, r) && r.deps == db.deps
    ensures DepsDone(r, t)
  {
  }

  /** Between two states of a run: whoever is dispatched now was dispatched before, or has all
      its dependencies completed. */
  ghost predicate LaunchesChecked(db: Db, r: Db) {
    && r.deps == db.deps && Extends(db, r) && InRange(db)
    && forall t: TaskId | t < |r.tasks| && Launched(r.tasks[t].status) ::
         (t < |db.tasks| && Launched(db.tasks[t].status)) || DepsDone(db, t)
  }

  lemma LaunchesCheckedCloses(db: Db, r: Db)
    requires Closed(db) && LaunchesChecked(db, r)
    ensures Closed(r)
  {
    forall t: TaskId | t < |r.tasks| && Launched(r.tasks[t].status) ensures DepsDone(r, t) {
      DepsStayDone(db, r, t);
    }
  }

  lemma StepChecksLaunches(w: World, step: Step)
    requires WorldInv(w) && WorldClosed(w) && Next(w, step).Some? && !step.NewDependency?
    ensures LaunchesChecked(w.db, Next(w, step).value.db)
  {
    StepKeepsInv(w, step);
    hide Inv, Extends, DepsDone, Recover, Transition;
    if step.Move? || step.FinishMove? {
      CommitChecksLaunches(w, step);
      InvInRange(w.db);
      return;
    }
    match step {
      case TakeNext(worker, lease, filter, later) =>
        ClaimNextLaunchesNothing(w.db, worker, lease, filter, w.clock, later);
      case HandBack(c, worker, requeue) => HandBackChecksLaunches(w.db, c, worker, requeue, w.clock);
      case Sweep => SweepLaunchesNothing(w.db, w.clock);
      case _ =>
    }
    InvInRange(w.db);
  }

  lemma CommitChecksLaunches(w: World, step: Step)
    requires WorldInv(w) && WorldClosed(w) && Next(w, step).Some? && (step.Move? || step.FinishMove?)
    ensures var r := Next(w, step).value.db;
            r.deps == w.db.deps && |r.tasks| == |w.db.tasks| &&
            forall t: TaskId | t < |r.tasks| && Launched(r.tasks[t].status) ::
              Launched(w.db.tasks[t].status) || DepsDone(w.db, t)
  {
    hide Inv, Extends, DepsDone, Transition, ProofHolds, Incomplete;
    if step.Move? {
      TransitionCommits(w.db, step.t, step.to, FenceAt(step.fence, w.clock));
    } else {
      assert Fresh(w.db, w.pending[step.i]);
    }
  }

  lemma InvInRange(db: Db)
    requires Inv(db)
    ensures InRange(db)
  {
  }

  lemma ClaimNextLaunchesNothing(db: Db, worker: string, lease: int, filter: Filter, now: int, later: int)
    requires ClaimNext(db, worker, lease, filter, now, later).Ok?
    ensures var r := ClaimNext(db, worker, lease, filter, now, later).value.0;
            r.deps == db.deps && |r.tasks| == |db.tasks| &&
            forall t: TaskId | t < |db.tasks| :: Launched(r.tasks[t].status) <==> Launched(db.tasks[t].status)
  {
  }

  lemma SweepLaunchesNothing(db: Db, now: int)
    ensures var r := Recover(db, |db.claims|, now);
            forall t: TaskId | t < |db.tasks| :: Launched(r.tasks[t].status) <==> Launched(db.tasks[t].status)
  {
    forall t: TaskId | t < |db.tasks|
      ensures Launched(Recover(db, |db.claims|, now).tasks[t].status) <==> Launched(db.tasks[t].status)
    {
      RecoveredTasks(db, |db.claims|, t, now);
    }
  }

  lemma HandBackChecksLaunches(db: Db, c: ClaimId, worker: string, requeue: bool, now: int)
    requires Inv(db) && Release(db, c, worker, requeue, now).Ok?
    ensures var r := Release(db, c, worker, requeue, now).value;
            r.deps == db.deps && |r.tasks| == |db.tasks| &&
            forall t: TaskId | t < |db.tasks| && Launched(r.tasks[t].status) ::
              Launched(db.tasks[t].status) || DepsDone(db, t)
  {
    var closed := Close(db, c, worker, ClaimStatus.Released, now).value;
    EditKeepsInv(db, c, closed.claims[c]);
    TransitionCommits(closed, closed.claims[c].task, if requeue then Queued else Cancelled, None);
    hide Inv, Transition;
    assert forall t :: DepsDone(closed, t) == DepsDone(db, t);
  }

  lemma StepKeepsClosed(w: World, step: Step)
    requires WorldInv(w) && WorldClosed(w) && Next(w, step).Some? && Harmless(w, step)
    ensures WorldClosed(Next(w, step).value)
  {
    if step.NewDependency? {
      HarmlessEdgeKeepsClosed(w, step);
    } else {
      hide Inv, Extends, DepsDone, Sound, Recover, ClaimNext, Release, Heartbeat, Close;
      var v := Next(w, step).value;
      StepKeepsInv(w, step);
      StepChecksLaunches(w, step);
      LaunchesCheckedCloses(w.db, v.db);
      PendingGrows(w, step);
      hide Next, Fresh, Launches;
      forall i | 0 <= i < |v.pending| && Fresh(v.db, v.pending[i]) && Launches(v.db, v.pending[i].task, v.pending[i].to)
        ensures DepsDone(v.db, v.pending[i].task)
      {
        if i < |w.pending| { PendingDepsStayDone(w.db, v.db, w.pending[i]); }
      }
    }
  }

  /** The transitions that have been read stay, and a new one launches no task with an open dependency. */
  lemma PendingGrows(w: World, step: Step)
    requires WorldInv(w) && Next(w, step).Some?
    ensures var v := Next(w, step).value;
            && |w.pending| <= |v.pending| <= |w.pending| + 1
            && (forall i | 0 <= i < |w.pending| :: v.pending[i] == w.pending[i])
            && (|v.pending| > |w.pending| ==>
                  var p := v.pending[|w.pending|];
                  Launches(v.db, p.task, p.to) ==> DepsDone(v.db, p.task))
  {
    hide Inv, Extends, DepsDone, Sound, Recover, ClaimNext, Release, Heartbeat, Close, ProofHolds, Incomplete;
    if step.BeginMove? { TransitionCommits(w.db, step.t, step.to, FenceAt(step.fence, w.clock)); }
  }

  lemma HarmlessEdgeKeepsClosed(w: World, step: Step)
    requires WorldInv(w) && WorldClosed(w) && step.NewDependency? && Next(w, step).Some? && Harmless(w, step)
    ensures WorldClosed(Next(w, step).value)
  {
    var v := Next(w, step).value;
    NewDependencyKeepsClosedExactly(w.db, step.t, step.on);
    forall i | 0 <= i < |v.pending| && Fresh(v.db, v.pending[i]) && Launches(v.db, v.pending[i].task, v.pending[i].to)
      ensures DepsDone(v.db, v.pending[i].task)
    {
      assert Fresh(w.db, w.pending[i]) && DepsDone(w.db, w.pending[i].task);
    }
  }

  lemma PendingDepsStayDone(db: Db, r: Db, p: Pending)
    requires Sound(db, p) && Extends(db, r) && r.deps == db.deps
    requires Fresh(db, p) && Launches(db, p.task, p.to) ==> DepsDone(db, p.task)
    ensures Fresh(r, p) && Launches(r, p.task, p.to) ==> DepsDone(r, p.task)
  {
    if Fresh(r, p) && Launches(r, p.task, p.to) {
      DepsStayDone(db, r, p.task);
    }
  }

  ghost predicate AllHarmless(w: World, steps: seq<Step>)
    decreases |steps|
  {
    steps == [] ||
    (Harmless(w, steps[0]) && (Next(w, steps[0]).Some? ==> AllHarmless(Next(w, steps[0]).value, steps[1..])))
  }

  lemma {:induction false} RunKeepsClosed(w: World, steps: seq<Step>)
    requires WorldInv(w) && WorldClosed(w) && After(w, steps).Some? && AllHarmless(w, steps)
    ensures WorldClosed(After(w, steps).value)
    decreases |steps|
  {
    hide WorldInv, WorldClosed, Next, Harmless;
    if steps != [] {
      StepKeepsInv(w, steps[0]);
      StepKeepsClosed(w, steps[0]);
      RunKeepsClosed(Next(w, steps[0]).value, steps[1..]);
    }
  }

  lemma StartIsClosed()
    ensures WorldInv(Start) && WorldClosed(Start)
  {
  }

  /** A dependency path: every task depends on the next one. */
  ghost predicate Path(deps: set<(TaskId, TaskId)>, path: seq<TaskId>) {
    |path| > 0 && forall i | 0 <= i < |path| - 1 :: (path[i], path[i + 1]) in deps
  }

  lemma {:induction false} CompletedAlongPath(db: Db, path: seq<TaskId>)
    requires Closed(db) && Path(db.deps, path)
    requires path[0] < |db.tasks| && db.tasks[path[0]].status.Completed?
    ensures path[|path| - 1] < |db.tasks| && db.tasks[path[|path| - 1]].status.Completed?
  {
    if |path| > 1 {
      assert (path[0], path[1]) in db.deps;
      var rest := path[1..];
      forall i | 0 <= i < |rest| - 1 ensures (rest[i], rest[i + 1]) in db.deps {
        assert (path[i + 1], path[i + 2]) in db.deps;
      }
      CompletedAlongPath(db, rest);
    }
  }

  /** In every run whose new dependencies are harmless, the completed tasks are closed under
      transitive dependencies. */
  lemma CompletedTasksAreClosed(steps: seq<Step>, path: seq<TaskId>)
    requires After(Start, steps).Some? && AllHarmless(Start, steps)
    requires Path(After(Start, steps).value.db.deps, path)
    requires path[0] < |After(Start, steps).value.db.tasks|
    requires After(Start, steps).value.db.tasks[path[0]].status.Completed?
    ensures path[|path| - 1] < |After(Start, steps).value.db.tasks|
    ensures After(Start, steps).value.db.tasks[path[|path| - 1]].status.Completed?
  {
    hide Next, Harmless, Inv;
    StartIsClosed();
    RunKeepsClosed(Start, steps);
    CompletedAlongPath(After(Start, steps).value.db, path);
  }

  /** The condition is exact: addDependency itself looks at neither task, and it keeps the completed
      tasks closed if and only if the edge is harmless to the tables as they are. */
  lemma NewDependencyKeepsClosedExactly(db: Db, t: TaskId, on: TaskId)
    requires Closed(db) && AddDependency(db, t, on).Ok?
    ensures Closed(AddDependency(db, t, on).value) <==>
              db.tasks[on].status.Completed? || !Launched(db.tasks[t].status)
  {
    var r := AddDependency(db, t, on).value;
    assert (t, on) in r.deps;
    if db.tasks[on].status.Completed? || !Launched(db.tasks[t].status) {
      forall u: TaskId | u < |r.tasks| && Launched(r.tasks[u].status) ensures DepsDone(r, u) {
        assert DepsDone(db, u);
      }
    }
  }

  // ---------- Cycles ----------

  ghost predicate OnCycle(deps: set<(TaskId, TaskId)>, t: TaskId) {
    exists path: seq<TaskId> :: IsCycle(deps, path, t)
  }

  ghost predicate IsCycle(deps: set<(TaskId, TaskId)>, path: seq<TaskId>, t: TaskId) {
    |path| > 1 && Path(deps, path) && path[0] == t && path[|path| - 1] == t
  }

  /** The next task on a cycle is on a cycle too. */
  lemma CycleGoesOn(deps: set<(TaskId, TaskId)>, t: TaskId) returns (next: TaskId)
    requires OnCycle(deps, t)
    ensures (t, next) in deps && OnCycle(deps, next)
  {
    var path :| IsCycle(deps, path, t);
    next := path[1];
    assert (path[0], path[1]) in deps;
    var turned := path[1..] + [next];
    forall i | 0 <= i < |turned| - 1 ensures (turned[i], turned[i + 1]) in deps {
      assert (path[if i < |path| - 2 then i + 1 else 0], path[if i < |path| - 2 then i + 2 else 1]) in deps;
    }
    assert IsCycle(deps, turned, next);
  }

  lemma CompletedFromOn(db: Db, path: seq<TaskId>, i: nat, j: nat)
    requires Closed(db) && InRange(db) && Path(db.deps, path) && |path| > 1 && i < j < |path|
    requires path[i] < |db.tasks| && Launched(db.tasks[path[i]].status)
    ensures path[j] < |db.tasks| && db.tasks[path[j]].status.Completed?
    decreases j - i
  {
    assert (path[i], path[i + 1]) in db.deps;
    assert DepsDone(db, path[i]);
    if j > i + 1 { CompletedFromOn(db, path, i + 1, j); }
  }

  /** Around a cycle, one dispatched task forces every task to be completed. */
  lemma CycleAllOrNothing(db: Db, path: seq<TaskId>, t: TaskId)
    requires Closed(db) && InRange(db) && IsCycle(db.deps, path, t)
    ensures forall i | 0 <= i < |path| :: path[i] < |db.tasks|
    ensures (forall i | 0 <= i < |path| :: db.tasks[path[i]].status.Completed?)
            || (forall i | 0 <= i < |path| :: !Launched(db.tasks[path[i]].status))
  {
    var n := |path| - 1;
    forall i | 0 <= i < |path| ensures path[i] < |db.tasks| {
      if i < n { assert (path[i], path[i + 1]) in db.deps; } else { assert (path[0], path[1]) in db.deps; }
    }
    if i :| 0 <= i < |path| && Launched(db.tasks[path[i]].status) {
      if i < n { CompletedFromOn(db, path, i, n); }
      assert Launched(db.tasks[path[0]].status);
      forall j | 0 <= j < |path| ensures db.tasks[path[j]].status.Completed? {
        CompletedFromOn(db, path, 0, if j == 0 then n else j);
      }
    }
  }

  /** In every run whose new dependencies are harmless, each dependency cycle is wholly completed or
      wholly undispatched: no task on a cycle is ever worked on. */
  lemma CyclesAreAllOrNothing(steps: seq<Step>, path: seq<TaskId>, t: TaskId)
    requires After(Start, steps).Some? && AllHarmless(Start, steps)
    requires IsCycle(After(Start, steps).value.db.deps, path, t)
    ensures var db := After(Start, steps).value.db;
            && (forall i | 0 <= i < |path| :: path[i] < |db.tasks|)
            && ((forall i | 0 <= i < |path| :: db.tasks[path[i]].status.Completed?)
                || (forall i | 0 <= i < |path| :: db.tasks[path[i]].status in {Draft, Ready, Cancelled}))
  {
    hide Next, Harmless, AllHarmless, Frozen, Legal, Fenced, Numbered;
    StartIsClosed();
    RunKeepsClosed(Start, steps);
    RunKeepsInv(Start, steps);
    CycleAllOrNothing(After(Start, steps).value.db, path, t);
  }

  ghost predicate CyclesIdle(db: Db) {
    forall t: TaskId | t < |db.tasks| && OnCycle(db.deps, t) :: !Launched(db.tasks[t].status)
  }

  /** The edge is added to a task that is neither dispatched nor about to be. */
  ghost predicate Cautious(w: World, step: Step) {
    step.NewDependency? && step.t < |w.db.tasks| && step.on < |w.db.tasks| ==>
      && !Launched(w.db.tasks[step.t].status)
      && forall i | 0 <= i < |w.pending| && w.pending[i].task == step.t ::
           !(Fresh(w.db, w.pending[i]) && Launched(w.pending[i].to))
  }

  ghost predicate AllCautious(w: World, steps: seq<Step>)
    decreases |steps|
  {
    steps == [] ||
    (Cautious(w, steps[0]) && (Next(w, steps[0]).Some? ==> AllCautious(Next(w, steps[0]).value, steps[1..])))
  }

  /** A cautious edge can only close cycles through its own undispatched task. */
  lemma CautiousEdgeKeepsCyclesIdle(db: Db, t: TaskId, on: TaskId)
    requires InRange(db) && CyclesIdle(db) && AddDependency(db, t, on).Ok? && !Launched(db.tasks[t].status)
    requires var r := AddDependency(db, t, on).value; Closed(r) && InRange(r)
    ensures CyclesIdle(AddDependency(db, t, on).value)
  {
    var r := AddDependency(db, t, on).value;
    forall u: TaskId | u < |r.tasks| && OnCycle(r.deps, u) ensures !Launched(r.tasks[u].status) {
      var path :| IsCycle(r.deps, path, u);
      CycleAllOrNothing(r, path, u);
      if i :| 0 <= i < |path| - 1 && (path[i], path[i + 1]) !in db.deps {
        assert (path[i], path[i + 1]) in r.deps;
        assert path[i] == t;
      } else {
        assert IsCycle(db.deps, path, u);
      }
    }
  }

  lemma StepKeepsCyclesIdle(w: World, step: Step)
    requires WorldInv(w) && WorldClosed(w) && CyclesIdle(w.db) && Next(w, step).Some? && Cautious(w, step)
    ensures CyclesIdle(Next(w, step).value.db)
  {
    var r := Next(w, step).value.db;
    StepKeepsInv(w, step);
    if step.NewDependency? {
      StepKeepsClosed(w, step);
      CautiousEdgeKeepsCyclesIdle(w.db, step.t, step.on);
    } else {
      StepChecksLaunches(w, step);
      hide Inv, Next;
      forall t: TaskId | t < |r.tasks| && OnCycle(r.deps, t) ensures !Launched(r.tasks[t].status) {
        var next := CycleGoesOn(r.deps, t);
        assert (t, next) in w.db.deps;
        assert !Launched(w.db.tasks[next].status);
      }
    }
  }

  lemma {:induction false} RunKeepsCyclesIdle(w: World, steps: seq<Step>)
    requires WorldInv(w) && WorldClosed(w) && CyclesIdle(w.db) && After(w, steps).Some? && AllCautious(w, steps)
    ensures CyclesIdle(After(w, steps).value.db)
    decreases |steps|
  {
    if steps != [] {
      CautiousIsHarmless(w, steps[0]);
      StepKeepsInv(w, steps[0]);
      StepKeepsClosed(w, steps[0]);
      StepKeepsCyclesIdle(w, steps[0]);
      hide WorldInv, WorldClosed, CyclesIdle, Next, Cautious;
      RunKeepsCyclesIdle(Next(w, steps[0]).value, steps[1..]);
    }
  }

  lemma CautiousIsHarmless(w: World, step: Step)
    requires Cautious(w, step)
    ensures Harmless(w, step)
  {
  }

  /** From the start, in every run that adds dependencies to undispatched tasks only, a task on a
      dependency cycle never leaves draft, ready or cancelled. */
  lemma CyclesNeverRun(steps: seq<Step>, t: TaskId)
    requires After(Start, steps).Some? && AllCautious(Start, steps)
    requires var db := After(Start, steps).value.db; t < |db.tasks| && OnCycle(db.deps, t)
    ensures After(Start, steps).value.db.tasks[t].status in {Draft, Ready, Cancelled}
  {
    StartIsClosed();
    RunKeepsCyclesIdle(Start, steps);
    RunKeepsInv(Start, steps);
    hide Next, AllCautious, OnCycle, Frozen, Legal, Fenced, Numbered;
  }

  /** Caution is needed: between two completed tasks a second edge is harmless, and closes a cycle. */
  lemma CompletedTasksCanFormCycle(w: World, t: TaskId, on: TaskId)
    requires t < |w.db.tasks| && on < |w.db.tasks| && t != on && (on, t) in w.db.deps && (t, on) !in w.db.deps
    requires w.db.tasks[t].status.Completed? && w.db.tasks[on].status.Completed?
    ensures Harmless(w, NewDependency(t, on)) && Next(w, NewDependency(t, on)).Some?
    ensures OnCycle(Next(w, NewDependency(t, on)).value.db.deps, t)
  {
    var r := Next(w, NewDependency(t, on)).value.db;
    assert IsCycle(r.deps, [t, on, t], t);
  }

  // ---------- Promotion ----------

  /** evaluateTaskPromotionProof for the task's own repository. */
  ghost predicate Promotable(db: Db, t: TaskId) {
    && t < |db.tasks| && db.tasks[t].status.ReadyToMerge? && db.tasks[t].snapshot.Some?
    && Proven(db.records, t, db.tasks[t].project, db.tasks[t].snapshot.value, false)
  }

  lemma CompletableIsPromotableInState(db: Db, t: TaskId, fence: Option<Fence>)
    requires Inv(db) && Transition(db, t, Completed, fence).Ok?
    ensures Promotable(db, t)
  {
    hide Proven;
    TransitionCommits(db, t, Completed, fence);
    assert Launched(db.tasks[t].status);
    ProofSurvivesWithoutProvenance(db.records, t, db.tasks[t].project, FrozenCriteria(db.tasks[t]));
  }

  /** In every run, a task that could be completed now is promotable now. */
  lemma CompletableIsPromotable(steps: seq<Step>, t: TaskId, fence: Option<Fence>)
    requires After(Start, steps).Some?
    requires Transition(After(Start, steps).value.db, t, Completed, fence).Ok?
    ensures Promotable(After(Start, steps).value.db, t)
  {
    RunKeepsInv(Start, steps);
    CompletableIsPromotableInState(After(Start, steps).value.db, t, fence);
  }

  // ---------- Two invariants that do not hold ----------

  /** A queued task can have an active claim: asking for a decision and queueing again leaves the claim as
      it is, and until it lapses or is closed nobody can claim the task. */
  lemma QueuedTaskCanBeClaimed(db: Db, t: TaskId, c: ClaimId, filter: Filter)
    requires t < |db.tasks| && db.tasks[t].status.Running?
    requires c < |db.claims| && db.claims[c].task == t && db.claims[c].status.Active?
    ensures Transition(db, t, NeedsDecision, None).Ok?
    ensures var asked := Transition(db, t, NeedsDecision, None).value;
            && Transition(asked, t, Queued, None).Ok?
            && var queued := Transition(asked, t, Queued, None).value;
               && queued.tasks[t].status.Queued? && queued.claims == db.claims
               && HasActive(queued.claims, t) && !Claimable(queued, t, filter)
  {
    hide ProofHolds, Incomplete;
    assert HasActive(db.claims, t);
  }

  /** A running task can be without an active claim: closing a claim never looks at its task, and then no
      sweep will ever put the task back into the queue. */
  lemma RunningTaskCanBeUnclaimed(db: Db, c: ClaimId, worker: string, now: int, later: int)
    requires Inv(db) && Close(db, c, worker, Done, now).Ok? && db.tasks[db.claims[c].task].status.Running?
    ensures var t := db.claims[c].task;
            var after := Close(db, c, worker, Done, now).value;
            && after.tasks[t].status.Running? && !HasActive(after.claims, t)
            && Recover(after, |after.claims|, later).tasks[t] == after.tasks[t]
  {
    hide Frozen, Legal, Fenced;
    var t := db.claims[c].task;
    var after := Close(db, c, worker, Done, now).value;
    forall d | 0 <= d < |after.claims| && after.claims[d].task == t ensures !after.claims[d].status.Active? {
      if d != c { assert db.claims[d] == after.claims[d]; }
    }
    assert !HasLapsed(after, |after.claims|, t, later);
    RecoveredTasks(after, |after.claims|, t, later);
  }

  ghost predicate QueuedAreUnclaimed(db: Db) {
    forall t: TaskId | t < |db.tasks| && db.tasks[t].status.Queued? :: !HasActive(db.claims, t)
  }

  ghost predicate RunningAreClaimed(db: Db) {
    forall t: TaskId | t < |db.tasks| && db.tasks[t].status.Running? :: HasActive(db.claims, t)
  }

  /** A transition into the queue, whole or its write half, while the task has an active claim. */
  ghost predicate QueuesClaimed(w: World, step: Step) {
    || (step.Move? && step.to.Queued? && HasActive(w.db.claims, step.t))
    || (step.FinishMove? && step.i < |w.pending| && w.pending[step.i].to.Queued? &&
        HasActive(w.db.claims, w.pending[step.i].task))
  }

  /** A transition to running without an active claim, or the closing of a running task's claim. */
  ghost predicate RunsUnclaimed(w: World, step: Step) {
    || (step.Move? && step.to.Running? && !HasActive(w.db.claims, step.t))
    || (step.FinishMove? && step.i < |w.pending| && w.pending[step.i].to.Running? &&
        !HasActive(w.db.claims, w.pending[step.i].task))
    || (step.Finish? && step.c < |w.db.claims| && w.db.claims[step.c].task < |w.db.tasks| &&
        w.db.tasks[w.db.claims[step.c].task].status.Running?)
  }

  lemma ActiveClaimIsTheOnlyOne(db: Db, c: ClaimId, r: Claim)
    requires Inv(db) && c < |db.claims| && db.claims[c].status.Active?
    requires r.task == db.claims[c].task && !r.status.Active?
    ensures forall t :: HasActive(db.claims[c := r], t) <==> HasActive(db.claims, t) && t != r.task
  {
    hide Frozen, Legal, Fenced, Numbered;
    var claims := db.claims[c := r];
    forall t ensures HasActive(claims, t) <==> HasActive(db.claims, t) && t != r.task {
      if HasActive(claims, t) {
        var d :| 0 <= d < |claims| && claims[d].task == t && claims[d].status.Active?;
        assert d != c && db.claims[d] == claims[d];
      }
      if HasActive(db.claims, t) && t != r.task {
        var d :| 0 <= d < |db.claims| && db.claims[d].task == t && db.claims[d].status.Active?;
        assert claims[d] == db.claims[d];
      }
    }
  }

  lemma StillActive(a: seq<Claim>, b: seq<Claim>)
    requires |a| == |b| && forall c | 0 <= c < |a| :: a[c].task == b[c].task && a[c].status == b[c].status
    ensures forall t :: HasActive(a, t) <==> HasActive(b, t)
  {
    forall t ensures HasActive(a, t) <==> HasActive(b, t) {
      if HasActive(a, t) { var c :| 0 <= c < |a| && a[c].task == t && a[c].status.Active?; assert b[c].status.Active?; }
      if HasActive(b, t) { var c :| 0 <= c < |b| && b[c].task == t && b[c].status.Active?; assert a[c].status.Active?; }
    }
  }

  /** What a step that commits a status change of task t leaves of the two promises. */
  lemma CommitPromises(db: Db, t: TaskId, to: Status, fence: Option<Fence>, proof: Option<Records>)
    requires t < |db.tasks|
    ensures var r := Committed(db, t, to, fence, proof);
            && (QueuedAreUnclaimed(db) ==> (QueuedAreUnclaimed(r) <==> !(to.Queued? && HasActive(db.claims, t))))
            && (RunningAreClaimed(db) ==> (RunningAreClaimed(r) <==> !(to.Running? && !HasActive(db.claims, t))))
  {
    hide HasActive;
    var r := Committed(db, t, to, fence, proof);
    assert r.tasks[t].status == to && r.claims == db.claims;
    assert forall u | 0 <= u < |db.tasks| && u != t :: r.tasks[u] == db.tasks[u];
  }

  lemma ClaimNextPromises(db: Db, worker: string, lease: int, filter: Filter, now: int, later: int)
    requires ClaimNext(db, worker, lease, filter, now, later).Ok?
    ensures var r := ClaimNext(db, worker, lease, filter, now, later).value.0;
            && (QueuedAreUnclaimed(db) ==> QueuedAreUnclaimed(r)) && (RunningAreClaimed(db) ==> RunningAreClaimed(r))
  {
    var t := Oldest(db, 0, filter);
    if t < |db.tasks| {
      var claimed := WithClaim(db, t, worker, now, lease);
      var r := ClaimNext(db, worker, lease, filter, now, later).value.0;
      assert r.claims == claimed.claims && claimed.claims == db.claims + [claimed.claims[|db.claims|]];
      hide WithClaim, Transition, ClaimNext;
      assert claimed.claims[|db.claims|].task == t && claimed.claims[|db.claims|].status.Active?;
      assert HasActive(r.claims, t);
      forall u | u != t ensures HasActive(r.claims, u) <==> HasActive(db.claims, u) { OtherActive(db.claims, claimed.claims[|db.claims|], u); }
    }
  }

  lemma OtherActive(claims: seq<Claim>, c: Claim, u: TaskId)
    requires c.task != u
    ensures HasActive(claims + [c], u) <==> HasActive(claims, u)
  {
    if HasActive(claims, u) {
      var d :| 0 <= d < |claims| && claims[d].task == u && claims[d].status.Active?;
      assert (claims + [c])[d].status.Active?;
    }
  }

  lemma SweepPromises(db: Db, now: int)
    requires Inv(db)
    ensures var r := Recover(db, |db.claims|, now);
            && (QueuedAreUnclaimed(db) ==> QueuedAreUnclaimed(r)) && (RunningAreClaimed(db) ==> RunningAreClaimed(r))
  {
    SweepDoesExactlyThis(db, now);
    hide Recover, Inv, Patched, HasActive, HasLapsed;
    var r := Recover(db, |db.claims|, now);
    forall t: TaskId | t < |db.tasks| ensures HasActive(r.claims, t) <==> HasActive(db.claims, t) && !HasLapsed(db, |db.claims|, t, now) {
      SweptActive(db, r, t, now);
    }
    forall t: TaskId | t < |db.tasks|
      ensures r.tasks[t].status.Running? ==> db.tasks[t].status.Running? && !HasLapsed(db, |db.claims|, t, now)
      ensures r.tasks[t].status.Queued? ==> db.tasks[t].status.Queued? || HasLapsed(db, |db.claims|, t, now)
    {
      PatchedStatus(db.tasks[t]);
    }
  }

  lemma PatchedStatus(task: Task)
    ensures Patched(task, Queued, None).status.Queued?
  {
  }

  lemma SweptActive(db: Db, r: Db, t: TaskId, now: int)
    requires Inv(db) && |r.claims| == |db.claims|
    requires forall c: ClaimId | c < |db.claims| ::
               r.claims[c] == if Lapsed(db, c, now) then db.claims[c].(status := ClaimStatus.Expired) else db.claims[c]
    ensures HasActive(r.claims, t) <==> HasActive(db.claims, t) && !HasLapsed(db, |db.claims|, t, now)
  {
    hide Frozen, Legal, Fenced, Numbered;
    if HasActive(r.claims, t) {
      var c: nat :| c < |r.claims| && r.claims[c].task == t && r.claims[c].status.Active?;
      assert db.claims[c] == r.claims[c] && !Lapsed(db, c, now);
      assert forall d: nat | d < |db.claims| && d != c && db.claims[d].task == t :: !db.claims[d].status.Active?;
    } else if HasActive(db.claims, t) {
      var c: nat :| c < |db.claims| && db.claims[c].task == t && db.claims[c].status.Active?;
      ActiveHere(r.claims, c, t);
      assert Lapsed(db, c, now);
    }
  }

  lemma ActiveHere(claims: seq<Claim>, c: ClaimId, t: TaskId)
    requires c < |claims|
    ensures claims[c].task == t && claims[c].status.Active? ==> HasActive(claims, t)
  {
  }

  lemma ClosePromises(db: Db, c: ClaimId, worker: string, status: ClaimStatus, now: int)
    requires Inv(db) && !status.Active? && Close(db, c, worker, status, now).Ok?
    ensures var r := Close(db, c, worker, status, now).value;
            && c < |db.claims| && db.claims[c].task < |db.tasks| && r.tasks == db.tasks && !HasActive(r.claims, db.claims[c].task)
            && (QueuedAreUnclaimed(db) ==> QueuedAreUnclaimed(r))
            && (forall t: TaskId | t != db.claims[c].task :: HasActive(r.claims, t) <==> HasActive(db.claims, t))
            && (RunningAreClaimed(db) ==> (RunningAreClaimed(r) <==> !db.tasks[db.claims[c].task].status.Running?))
  {
    ActiveClaimIsTheOnlyOne(db, c, db.claims[c].(status := status));
    assert db.claims[c].task < |db.tasks| by { InvInRange(db); }
    hide Inv, HasActive;
  }

  lemma HandBackPromises(db: Db, c: ClaimId, worker: string, requeue: bool, now: int)
    requires Inv(db) && Release(db, c, worker, requeue, now).Ok?
    ensures var r := Release(db, c, worker, requeue, now).value;
            && (QueuedAreUnclaimed(db) ==> QueuedAreUnclaimed(r)) && (RunningAreClaimed(db) ==> RunningAreClaimed(r))
  {
    ClosePromises(db, c, worker, ClaimStatus.Released, now);
    var closed := Close(db, c, worker, ClaimStatus.Released, now).value;
    var t, to := db.claims[c].task, if requeue then Queued else Cancelled;
    assert Release(db, c, worker, requeue, now).value == Committed(closed, t, to, None, None) by {
      hide ProofHolds, Incomplete;
    }
    hide Inv, HasActive, Release;
    CommitPromises(closed, t, to, None, None);
    var r := Committed(closed, t, to, None, None);
    assert r.tasks[t].status == to && forall u | 0 <= u < |db.tasks| && u != t :: r.tasks[u] == db.tasks[u];
  }

  /** "A queued task has no active claim" is broken exactly by putting a claimed task into the queue. */
  lemma QueuedStayUnclaimedExactly(w: World, step: Step)
    requires WorldInv(w) && QueuedAreUnclaimed(w.db) && Next(w, step).Some?
    ensures QueuedAreUnclaimed(Next(w, step).value.db) <==> !QueuesClaimed(w, step)
  {
    StepPromises(w, step);
  }

  /** "A running task has an active claim" is broken exactly by moving an unclaimed task to running and by
      closing the claim of a running one. */
  lemma RunningStayClaimedExactly(w: World, step: Step)
    requires WorldInv(w) && RunningAreClaimed(w.db) && Next(w, step).Some?
    ensures RunningAreClaimed(Next(w, step).value.db) <==> !RunsUnclaimed(w, step)
  {
    StepPromises(w, step);
  }

  lemma StepPromises(w: World, step: Step)
    requires WorldInv(w) && Next(w, step).Some?
    ensures var r := Next(w, step).value.db;
            && (QueuedAreUnclaimed(w.db) ==> (QueuedAreUnclaimed(r) <==> !QueuesClaimed(w, step)))
            && (RunningAreClaimed(w.db) ==> (RunningAreClaimed(r) <==> !RunsUnclaimed(w, step)))
  {
    hide Inv, Sound, HasActive, QueuedAreUnclaimed, RunningAreClaimed, Recover, ClaimNext, Release, Transition;
    var db := w.db;
    match step {
      case Move(t, to, fence) => MovePromises(db, t, to, FenceAt(fence, w.clock));
      case FinishMove(i) =>
        var p := w.pending[i];
        CommitPromises(db, p.task, p.to, p.fence, p.proof);
      case TakeNext(worker, lease, filter, later) => ClaimNextPromises(db, worker, lease, filter, w.clock, later);
      case Beat(c, worker, lease) => BeatPromises(db, c, worker, lease, w.clock);
      case Finish(c, worker) => ClosePromises(db, c, worker, Done, w.clock);
      case HandBack(c, worker, requeue) => HandBackPromises(db, c, worker, requeue, w.clock);
      case Sweep => SweepPromises(db, w.clock);
      case _ => RowStepPromises(w, step);
    }
  }

  lemma MovePromises(db: Db, t: TaskId, to: Status, fence: Option<Fence>)
    requires Transition(db, t, to, fence).Ok?
    ensures var r := Transition(db, t, to, fence).value;
            && (QueuedAreUnclaimed(db) ==> (QueuedAreUnclaimed(r) <==> !(to.Queued? && HasActive(db.claims, t))))
            && (RunningAreClaimed(db) ==> (RunningAreClaimed(r) <==> !(to.Running? && !HasActive(db.claims, t))))
  {
    hide ProofHolds, Incomplete, HasActive, QueuedAreUnclaimed, RunningAreClaimed;
    CommitPromises(db, t, to, fence, Judged(db, to));
  }

  lemma BeatPromises(db: Db, c: ClaimId, worker: string, lease: int, now: int)
    requires Heartbeat(db, c, worker, lease, now).Ok?
    ensures var r := Heartbeat(db, c, worker, lease, now).value;
            && (QueuedAreUnclaimed(db) <==> QueuedAreUnclaimed(r)) && (RunningAreClaimed(db) <==> RunningAreClaimed(r))
  {
    StillActive(db.claims, Heartbeat(db, c, worker, lease, now).value.claims);
    hide HasActive;
  }

  lemma RowStepPromises(w: World, step: Step)
    requires Next(w, step).Some?
    requires step.Wait? || step.NewTask? || step.NewDependency? || step.ChangeRecords? || step.BeginMove?
    ensures var r := Next(w, step).value.db;
            && (QueuedAreUnclaimed(w.db) <==> QueuedAreUnclaimed(r)) && (RunningAreClaimed(w.db) <==> RunningAreClaimed(r))
  {
    hide HasActive, Transition, ClaimNext, Release, Recover;
    var r := Next(w, step).value.db;
    assert r.claims == w.db.claims && |w.db.tasks| <= |r.tasks|;
    assert forall t | 0 <= t < |w.db.tasks| :: r.tasks[t] == w.db.tasks[t];
    assert forall t | |w.db.tasks| <= t < |r.tasks| :: r.tasks[t].status.Draft?;
  }
}
