/** The task lifecycle: the transition table and its guards (src/domain/lifecycle.ts). */
module Lifecycle {
  import opened Wrappers

  datatype Status =
    | Suggested | Draft | Ready | Queued | Running | Verifying | Reviewing | Repairing
    | NeedsDecision | ReadyToMerge | Completed | Failed | Cancelled

  function Successors(from: Status): set<Status> {
    match from
    case Suggested => {Draft, Cancelled}
    case Draft => {Ready, Cancelled}
    case Ready => {Queued, Draft, Cancelled}
    case Queued => {Running, Ready, Cancelled}
    case Running => {Verifying, Queued, NeedsDecision, Failed, Cancelled}
    case Verifying => {Reviewing, Repairing, NeedsDecision, Failed, Cancelled}
    case Reviewing => {ReadyToMerge, Repairing, NeedsDecision, Failed, Cancelled}
    case Repairing => {Verifying, NeedsDecision, Failed, Cancelled}
    case NeedsDecision => {Ready, Queued, Repairing, ReadyToMerge, Failed, Cancelled}
    case ReadyToMerge => {Completed, Repairing, NeedsDecision, Cancelled}
    case Completed => {}
    case Failed => {Queued, Cancelled}
    case Cancelled => {}
  }

  datatype Refusal =
    | IllegalTransition(from: Status, to: Status)
    | DependencyCheckMissing
    | BlockedBy(incomplete: nat)
    | ProofMissing
    | ProofNotSatisfied

  /** Guard data; None where the caller supplied none. */
  datatype Guards = Guards(incompleteDependencies: Option<nat>, proofHolds: Option<bool>)

  /** validateTransition: None is approval. */
  function Validate(from: Status, to: Status, guards: Guards): Option<Refusal> {
    if to !in Successors(from) then Some(IllegalTransition(from, to))
    else if from.Ready? && to.Queued? && guards.incompleteDependencies.None? then Some(DependencyCheckMissing)
    else if from.Ready? && to.Queued? && guards.incompleteDependencies.value > 0
    then Some(BlockedBy(guards.incompleteDependencies.value))
    else if to.Completed? && guards.proofHolds.None? then Some(ProofMissing)
    else if to.Completed? && !guards.proofHolds.value then Some(ProofNotSatisfied)
    else None
  }

  /** The task has been dispatched and not handed back to planning. */
  predicate Launched(status: Status) {
    !(status.Suggested? || status.Draft? || status.Ready? || status.Cancelled?)
  }

  /** The only way to launch a task is ready -> queued with no dependency left open. */
  lemma OneWayToLaunch(from: Status, to: Status, guards: Guards)
    requires Validate(from, to, guards).None? && !Launched(from) && Launched(to)
    ensures from.Ready? && to.Queued? && guards.incompleteDependencies == Some(0)
  {
  }

  /** The terminal statuses are exactly those that cannot be left by any transition. */
  lemma TerminalStatuses(from: Status)
    ensures (forall to, guards :: Validate(from, to, guards).Some?) <==> from.Completed? || from.Cancelled?
  {
    var generous := Guards(Some(0), Some(true));
    match from {
      case Suggested => assert Validate(from, Draft, generous).None?;
      case Draft => assert Validate(from, Ready, generous).None?;
      case Ready => assert Validate(from, Queued, generous).None?;
      case Queued => assert Validate(from, Running, generous).None?;
      case Running => assert Validate(from, Verifying, generous).None?;
      case Verifying => assert Validate(from, Reviewing, generous).None?;
      case Reviewing => assert Validate(from, ReadyToMerge, generous).None?;
      case Repairing => assert Validate(from, Verifying, generous).None?;
      case NeedsDecision => assert Validate(from, Ready, generous).None?;
      case ReadyToMerge => assert Validate(from, Completed, generous).None?;
      case Completed =>
      case Failed => assert Validate(from, Queued, generous).None?;
      case Cancelled =>
    }
  }

  /** A transition is approved if and only if it is an edge of the table, dispatching waits for all dependencies, and
      completing has its proof. */
  lemma ApprovedExactly(from: Status, to: Status, guards: Guards)
    ensures Validate(from, to, guards).None? <==>
              && to in Successors(from)
              && (from.Ready? && to.Queued? ==> guards.incompleteDependencies == Some(0))
              && (to.Completed? ==> guards.proofHolds == Some(true))
  {
  }

  // ---------- Ways to completion ----------

  predicate Path(path: seq<Status>) {
    path != [] && path[0].Draft? && forall i | 0 <= i < |path| - 1 :: path[i + 1] in Successors(path[i])
  }

  /** A path that leaves a set which only one status leads out of passes that status. */
  lemma {:induction false} MustPass(path: seq<Status>, inside: set<Status>, gate: Status)
    requires Path(path) && Draft in inside && path[|path| - 1] !in inside
    requires forall s, t | s in inside && t in Successors(s) && t != gate :: t in inside
    ensures gate in path
  {
    hide Successors;
    var k := |path| - 1;
    if k > 0 {
      assert path == path[..k] + [path[k]];
      if path[k - 1] !in inside { MustPass(path[..k], inside, gate); }
    }
  }

  const ALWAYS: set<Status> := {Draft, Ready, Queued, Running, ReadyToMerge, Completed}

  const BY_REVIEW := [Draft, Ready, Queued, Running, Verifying, Reviewing, ReadyToMerge, Completed]
  const BY_DECISION := [Draft, Ready, Queued, Running, NeedsDecision, ReadyToMerge, Completed]

  /** Main theorem: the statuses that every way from a draft to completion passes are exactly these six; verification
      and review can be passed by, by a decision. */
  lemma EveryCompletionPassesExactly(status: Status)
    ensures status in ALWAYS <==> forall path: seq<Status> | Path(path) && path[|path| - 1].Completed? :: status in path
  {
    if status in ALWAYS {
      forall path: seq<Status> | Path(path) && path[|path| - 1].Completed? ensures status in path {
        assert path[0] in path && path[|path| - 1] in path;
        if status in {Ready, Queued, Running, ReadyToMerge} { Unavoidable(path, status); }
      }
    } else {
      assert Path(BY_REVIEW) && Path(BY_DECISION);
    }
  }

  lemma Unavoidable(path: seq<Status>, status: Status)
    requires Path(path) && path[|path| - 1].Completed? && status in {Ready, Queued, Running, ReadyToMerge}
    ensures status in path
  {
    var inside :=
      if status.Ready? then {Draft, Cancelled}
      else if status.Queued? then {Draft, Ready, Cancelled}
      else if status.Running? then {Draft, Ready, Queued, Cancelled}
      else {Draft, Ready, Queued, Running, Verifying, Reviewing, Repairing, NeedsDecision, Failed, Cancelled};
    MustPass(path, inside, status);
  }

  /** Whatever is not over can be cancelled. */
  lemma OpenCanBeCancelled(from: Status, guards: Guards)
    ensures Validate(from, Cancelled, guards).None? <==> !from.Completed? && !from.Cancelled?
  {
  }

  /** The next status on the main line of a task's life. */
  function Onward(from: Status): Option<Status> {
    match from
    case Suggested => Some(Draft)
    case Draft => Some(Ready)
    case Ready => Some(Queued)
    case Queued => Some(Running)
    case Running => Some(Verifying)
    case Verifying => Some(Reviewing)
    case Reviewing => Some(ReadyToMerge)
    case ReadyToMerge => Some(Completed)
    case _ => None
  }

  predicate AtWork(status: Status) { status in {Running, Verifying, Reviewing, Repairing} }

  /** The edges of the table: along the main line; back from planning and queue by one; to repair and from it to
      verification; out for a decision and back; to failure and from it into the queue; and to cancellation. */
  lemma EdgesExactly(from: Status, to: Status)
    ensures to in Successors(from) <==>
              || Onward(from) == Some(to)
              || (to, from) in {(Draft, Ready), (Ready, Queued), (Queued, Running)}
              || (to.Repairing? && from in {Verifying, Reviewing, ReadyToMerge, NeedsDecision})
              || (to.Verifying? && from.Repairing?)
              || (to.NeedsDecision? && (AtWork(from) || from.ReadyToMerge?))
              || (to in {Ready, Queued, ReadyToMerge} && from.NeedsDecision?)
              || (to.Failed? && (AtWork(from) || from.NeedsDecision?))
              || (to.Queued? && from.Failed?)
              || (to.Cancelled? && !from.Completed? && !from.Cancelled?)
  {
  }
}
