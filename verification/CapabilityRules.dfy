/**
 Which operations the state of a capability owes itself to, and what each of them asks for
 (src/capabilities/registry.ts).
 */
module CapabilityRules {
  import opened Wrappers
  import opened Capabilities

  /** A proposal that may be provisioned. */
  predicate Acceptable(p: Platform, c: Proposal) {
    && !c.highRisk && c.free
    && (c.source.kind.OpenSource? ==> c.source.license.Some? && c.source.license.value != "")
    && (forall x | x in c.permissions :: !p.excessive(x))
    && (forall k | 0 <= k < |c.preflight| :: c.preflight[k])
  }

  lemma {:induction false} NoFailedChecks(preflight: seq<bool>, from: nat)
    requires from <= |preflight|
    ensures FailedChecks(preflight, from) == [] <==> forall k | from <= k < |preflight| :: preflight[k]
    decreases |preflight| - from
  {
    if from < |preflight| { NoFailedChecks(preflight, from + 1); }
  }

  /** A proposal is accepted if and only if nothing is wrong with it. */
  lemma AcceptedExactly(p: Platform, c: Proposal)
    ensures Reasons(p, c) == [] <==> Acceptable(p, c)
  {
    NoFailedChecks(c.preflight, 0);
  }

  /** What the reason says of the proposal. */
  predicate Against(p: Platform, c: Proposal, reason: Reason) {
    match reason
    case HighRisk => c.highRisk
    case NotFree => !c.free
    case NoLicense => c.source.kind.OpenSource? && (c.source.license.None? || c.source.license.value == "")
    case ExcessivePermissions => exists x | x in c.permissions :: p.excessive(x)
    case PreflightFailed(k) => k < |c.preflight| && !c.preflight[k]
    case NoCandidate => false
  }

  lemma {:induction false} FailedChecksAre(preflight: seq<bool>, from: nat, reason: Reason)
    requires from <= |preflight|
    ensures reason in FailedChecks(preflight, from) <==> FailsAt(preflight, from, reason)
    decreases |preflight| - from
  {
    if from < |preflight| {
      FailedChecksAre(preflight, from + 1, reason);
      FailedFrom(preflight, from, reason);
      var rest := FailedChecks(preflight, from + 1);
      assert FailedChecks(preflight, from) == (if preflight[from] then [] else [PreflightFailed(from)]) + rest;
      hide FailedChecks, FailsAt;
    }
  }

  predicate FailsAt(preflight: seq<bool>, from: nat, reason: Reason) {
    reason.PreflightFailed? && from <= reason.check < |preflight| && !preflight[reason.check]
  }

  lemma FailedFrom(preflight: seq<bool>, from: nat, reason: Reason)
    requires from < |preflight|
    ensures FailsAt(preflight, from, reason) <==>
              FailsAt(preflight, from + 1, reason) || (!preflight[from] && reason == PreflightFailed(from))
  {
  }

  /** The reasons given against a proposal are exactly those that there are. */
  lemma ReasonsExactly(p: Platform, c: Proposal, reason: Reason)
    ensures reason in Reasons(p, c) <==> Against(p, c, reason)
  {
    FailedChecksAre(c.preflight, 0, reason);
  }

  // ---------- What is preferred ----------

  /** Main theorem: the capability that is reused is preferred if any is, and among such as good as it has been used with
      success most often, and then failed least often, and then stood first. */
  lemma ReuseIsBest(p: Platform, db: Db, project: string, operation: string, candidates: seq<Proposal>, i: nat, j: nat)
    requires Planned(p, db, project, operation, candidates, Reuse(i)) && Reusable(db, j, project, operation)
    ensures Reusable(db, i, project, operation)
    ensures var a, b := db.records[i], db.records[j];
            && (b.status.Preferred? ==> a.status.Preferred?)
            && (a.status.Preferred? == b.status.Preferred? ==>
                  && a.successes >= b.successes
                  && (a.successes == b.successes ==> a.failures <= b.failures && (a.failures == b.failures ==> i <= j)))
  {
  }

  /** The kinds of sources, from the one to be taken first. */
  const KINDS := [LocalTool, InternalAdapter, InstalledIntegration, FirstPartySdk, OpenSource, SmallAdapter, Bespoke]

  lemma KindsAreRanked()
    ensures |KINDS| == 7 && forall a | 0 <= a < 7 :: Rank(KINDS[a]) == a
  {
  }

  /** Main theorem: nothing is acquired while something can be reused, and what is acquired is acceptable, and of the
      first kind and the first of its kind among the acceptable candidates for the operation. */
  lemma AcquireIsFirst(p: Platform, db: Db, project: string, operation: string, candidates: seq<Proposal>, k: nat, j: nat)
    returns (a: nat, b: nat)
    requires Planned(p, db, project, operation, candidates, Acquire(k))
    requires j < |candidates| && Acceptable(p, candidates[j]) && operation in candidates[j].operations
    ensures k < |candidates| && Acceptable(p, candidates[k]) && operation in candidates[k].operations
    ensures forall i: nat :: !Reusable(db, i, project, operation)
    ensures a <= b < |KINDS| && candidates[k].source.kind == KINDS[a] && candidates[j].source.kind == KINDS[b]
    ensures a == b ==> k <= j
  {
    AcceptedExactly(p, candidates[k]);
    AcceptedExactly(p, candidates[j]);
    KindsAreRanked();
    hide Reasons, Acceptable, Reusable;
    assert Fitting(p, candidates[j], operation);
    a, b := Rank(candidates[k].source.kind), Rank(candidates[j].source.kind);
  }

  /** Main theorem: a refusal says nothing but what is against some candidate for the operation, or that there are none;
      nothing can be reused, and none of the candidates is acceptable. */
  lemma RefusalTells(p: Platform, db: Db, project: string, operation: string, candidates: seq<Proposal>, reasons: seq<Reason>)
    requires Planned(p, db, project, operation, candidates, Refused(reasons))
    ensures forall i: nat :: !Reusable(db, i, project, operation)
    ensures forall c | c in candidates && operation in c.operations :: !Acceptable(p, c)
    ensures (forall c | c in candidates :: operation !in c.operations) ==> reasons == [NoCandidate]
    ensures forall reason | reason in reasons ::
              reason.NoCandidate? || exists c | c in candidates && operation in c.operations :: Against(p, c, reason)
    ensures forall c, reason | c in candidates && operation in c.operations && Against(p, c, reason) :: reason in reasons
  {
    forall c ensures Reasons(p, c) == [] <==> Acceptable(p, c) { AcceptedExactly(p, c); }
    hide Reasons, Acceptable, Against, Reusable, InOrder;
    forall c | c in candidates && operation in c.operations ensures !Acceptable(p, c) {
      var k :| 0 <= k < |candidates| && candidates[k] == c;
      assert !Fitting(p, candidates[k], operation);
    }
    var order :| Considered(candidates, operation, order) && Within(candidates, order)
                 && reasons == if ReasonsOf(p, candidates, order) == [] then [NoCandidate] else ReasonsOf(p, candidates, order);
    forall reason ensures reason in ReasonsOf(p, candidates, order) <==>
                          exists c | c in candidates && operation in c.operations :: Against(p, c, reason)
    {
      CollectedExactly(p, candidates, operation, order, reason);
    }
    if forall c | c in candidates :: operation !in c.operations {
      if order != [] { assert order[0] in order; }
    }
  }

  lemma CollectedExactly(p: Platform, candidates: seq<Proposal>, operation: string, order: seq<nat>, reason: Reason)
    requires Considered(candidates, operation, order) && Within(candidates, order)
    ensures reason in ReasonsOf(p, candidates, order) <==>
            exists c | c in candidates && operation in c.operations :: Against(p, c, reason)
  {
    CollectedFrom(p, candidates, order, reason);
    hide Against, InOrder, ReasonsOf;
    if c :| c in candidates && operation in c.operations && Against(p, c, reason) {
      var k :| 0 <= k < |candidates| && candidates[k] == c;
      assert k in order;
    }
  }

  lemma {:induction false} CollectedFrom(p: Platform, candidates: seq<Proposal>, order: seq<nat>, reason: Reason)
    requires Within(candidates, order)
    ensures reason in ReasonsOf(p, candidates, order) <==> exists k | k in order :: k < |candidates| && Against(p, candidates[k], reason)
  {
    hide Against, Reasons;
    if order != [] {
      var init, last := order[..|order| - 1], order[|order| - 1];
      assert order == init + [last];
      CollectedFrom(p, candidates, init, reason);
      ReasonsExactly(p, candidates[last], reason);
    }
  }

  /** The review is another's than the discoverer's, and rests on a passed run of that reviewer for the record's project
      and for its present source. */
  predicate Independent(p: Platform, i: nat, r: Record, v: Review) {
    && !p.blank(v.reviewer) && !p.blank(v.evidence) && !p.blank(v.runId)
    && p.fold(v.reviewer) != p.fold(r.discoveredBy)
    && v.run.Some? && v.run.value.passed && v.run.value.runSucceeded
    && v.run.value.provider == v.reviewer && v.run.value.project == r.project
    && v.run.value.subject == p.subject(i, r.fingerprint, v.artifact.operation)
    && Whole(p, r, v.artifact)
  }

  /** The evidence is for one of the record's operations, names who validated, and lacks nothing. */
  predicate Whole(p: Platform, r: Record, a: Evidence) { a.operation in r.operations && !p.blank(a.validator) && a.complete }

  /** The record is the built-in adapter in the revision of the platform, and somebody else than the catalogue brought it. */
  predicate OwnAdapter(p: Platform, r: Record) {
    && r.adapter && r.key == "canonicalize-local-path" && p.fold(r.discoveredBy) != p.catalog
    && r.source.kind == InternalAdapter && r.source.reference == p.adapterReference && r.source.revision == Some(p.revision)
  }

  /** What a verification makes of a provisional record. */
  predicate Verifies(db: Db, i: nat, a: Record, b: Record, passed: bool, becomes: Validation) {
    && a.status.Provisional?
    && b == a.(status := b.status, validation := b.validation, artifact := Some(|db.artifacts|))
    && b.status == (if passed then Validated else Blocked) && b.validation == (if passed then becomes else Failed)
  }

  /** All ways in which a step can change a record that is there. */
  ghost predicate Changes(p: Platform, db: Db, step: Step, i: nat, a: Record, b: Record) {
    match step
    case Provision(project, c) =>
      && a.project == project && a.key == c.key && Acceptable(p, c)
      && a.status in {Degraded, Blocked, Deprecated} && a.fingerprint != p.fingerprint(c.source)
      && b == Record(project, c.key, c.operations, c.adapter, c.source, p.fingerprint(c.source), c.discoveredBy, None,
                     Provisional, PreflightPassed, a.successes, a.failures)
    case Validate(id, v) =>
      id == i && Independent(p, i, a, v) && Verifies(db, i, a, b, v.passed && v.artifact.passed, IndependentlyValidated)
    case ValidateLocally(id, e) =>
      id == i && OwnAdapter(p, a) && Whole(p, a, e) && Verifies(db, i, a, b, e.passed, CapabilityVerified)
    case Invalidate(id) => id == i && b == a.(status := Degraded, validation := Failed, artifact := None)
    case Block(id, reason) =>
      id == i && !p.blank(reason) && a.status.Provisional? && b == a.(status := Blocked, validation := Failed)
    case Report(_, _) => false
    case Use(id, success, note) =>
      && id == i && !p.blank(note) && a.status in {Validated, Preferred, Degraded}
      && b == a.(successes := a.successes + (if success then 1 else 0), failures := a.failures + (if success then 0 else 1),
                 status := b.status)
      && b.status == (if !success && b.failures >= 2 then Degraded else a.status)
    case Prefer(id) =>
      id == i && a.status.Validated? && a.successes >= 2 && a.failures == 0 && b == a.(status := Preferred)
    case Deprecate(id, note) => id == i && !p.blank(note) && b == a.(status := Deprecated)
  }

  /** How a record comes into the registry. */
  ghost predicate Arrives(p: Platform, db: Db, step: Step, b: Record) {
    && step.Provision? && Acceptable(p, step.proposal)
    && (forall j | 0 <= j < |db.records| :: db.records[j].project != step.project || db.records[j].key != step.proposal.key)
    && var c := step.proposal;
       b == Record(step.project, c.key, c.operations, c.adapter, c.source, p.fingerprint(c.source), c.discoveredBy, None,
                   Provisional, PreflightPassed, 0, 0)
  }

  /** Main theorem: every change of a record, and every new one, is one of those. */
  lemma StepOnRecord(p: Platform, db: Db, step: Step, i: nat)
    requires i < |Apply(p, db, step).records|
    ensures |db.records| <= |Apply(p, db, step).records|
    ensures if i < |db.records| then
              || Apply(p, db, step).records[i] == db.records[i]
              || Changes(p, db, step, i, db.records[i], Apply(p, db, step).records[i])
            else Arrives(p, db, step, Apply(p, db, step).records[i])
  {
    if step.Provision? { AcceptedExactly(p, step.proposal); }
    hide Reasons, Acceptable;
  }

  /** What an operation asks for. */
  ghost predicate Asked(p: Platform, db: Db, step: Step) {
    match step
    case Provision(project, c) =>
      && Acceptable(p, c)
      && forall j | 0 <= j < |db.records| && db.records[j].project == project && db.records[j].key == c.key ::
           db.records[j].status in {Degraded, Blocked, Deprecated} && db.records[j].fingerprint != p.fingerprint(c.source)
    case Validate(id, v) => id < |db.records| && db.records[id].status.Provisional? && Independent(p, id, db.records[id], v)
    case ValidateLocally(id, e) =>
      id < |db.records| && db.records[id].status.Provisional? && OwnAdapter(p, db.records[id]) && Whole(p, db.records[id], e)
    case Invalidate(id) => id < |db.records|
    case Block(id, reason) => id < |db.records| && db.records[id].status.Provisional? && !p.blank(reason)
    case Report(id, note) => id < |db.records| && db.records[id].status in {Validated, Preferred} && !p.blank(note)
    case Use(id, _, note) => id < |db.records| && db.records[id].status in {Validated, Preferred, Degraded} && !p.blank(note)
    case Prefer(id) =>
      id < |db.records| && db.records[id].status.Validated? && db.records[id].successes >= 2 && db.records[id].failures == 0
    case Deprecate(id, note) => id < |db.records| && !p.blank(note)
  }

  /** An operation succeeds if and only if it gets what it asks for. */
  lemma SucceedsExactly(p: Platform, db: Db, step: Step)
    requires Inv(db)
    ensures Try(p, db, step).Ok? <==> Asked(p, db, step)
  {
    if step.Provision? {
      AcceptedExactly(p, step.proposal);
      OneOfAKey(db);
    }
    hide Reasons, Acceptable, Inv;
  }

  predicate Holds(db: Db, project: string, key: string, i: nat) {
    i < |db.records| && db.records[i].project == project && db.records[i].key == key
  }

  /** The texts that an operation must not be given blank. */
  function Texts(step: Step): seq<string> {
    match step
    case Validate(_, v) => [v.reviewer, v.evidence, v.runId]
    case Block(_, reason) => [reason]
    case Report(_, note) => [note]
    case Use(_, _, note) => [note]
    case Deprecate(_, note) => [note]
    case _ => []
  }

  /** What the refusal says of the operation. */
  ghost predicate Justified(p: Platform, db: Db, step: Step, error: Error) {
    match error
    case NotAccepted => step.Provision? && !Acceptable(p, step.proposal)
    case AlreadyRegistered =>
      step.Provision? && exists i: nat :: Holds(db, step.project, step.proposal.key, i)
                                          && db.records[i].fingerprint == p.fingerprint(step.proposal.source)
    case StillActive =>
      step.Provision? && exists i: nat :: Holds(db, step.project, step.proposal.key, i)
                                          && db.records[i].status !in {Degraded, Blocked, Deprecated}
    case MissingEvidence => exists text :: text in Texts(step) && p.blank(text)
    case NotFound => !step.Provision? && step.id >= |db.records|
    case WrongStatus => !step.Provision? && (step.id < |db.records| ==> !Ready(db.records[step.id], step))
    case NotIndependent =>
      step.Validate? && step.id < |db.records| && p.fold(step.review.reviewer) == p.fold(db.records[step.id].discoveredBy)
    case NoPassedRun =>
      step.Validate? && step.id < |db.records| && !Backed(p, step.id, db.records[step.id], step.review)
    case NoLocalVerifier => step.ValidateLocally? && step.id < |db.records| && !OwnAdapter(p, db.records[step.id])
    case IncompleteArtifact =>
      || (step.Validate? && step.id < |db.records| && !Whole(p, db.records[step.id], step.review.artifact))
      || (step.ValidateLocally? && step.id < |db.records| && !Whole(p, db.records[step.id], step.evidence))
  }

  /** The record is in a state that the operation takes. */
  predicate Ready(r: Record, step: Step) {
    match step
    case Validate(_, _) => r.status.Provisional?
    case ValidateLocally(_, _) => r.status.Provisional?
    case Block(_, _) => r.status.Provisional?
    case Report(_, _) => r.status in {Validated, Preferred}
    case Use(_, _, _) => r.status in {Validated, Preferred, Degraded}
    case Prefer(_) => r.status.Validated? && r.successes >= 2 && r.failures == 0
    case _ => true
  }

  predicate Backed(p: Platform, i: nat, r: Record, v: Review) {
    v.run == Some(VerificationRun(true, true, v.reviewer, r.project, p.subject(i, r.fingerprint, v.artifact.operation)))
  }

  /** A refused operation is told a reason that is true, and nothing is said of an operation that gets what it asks for. */
  lemma RefusalsAreTrue(p: Platform, db: Db, step: Step)
    requires Inv(db)
    ensures Try(p, db, step).Err? ==> Justified(p, db, step, Try(p, db, step).error) && !Asked(p, db, step)
  {
    SucceedsExactly(p, db, step);
    hide Reasons, Acceptable, Inv, Asked;
    match step {
      case Provision(project, c) =>
        AcceptedExactly(p, c);
        var i := Find(db.records, project, c.key);
        assert i < |db.records| ==> Holds(db, project, c.key, i);
      case Validate(_, v) =>
        var texts := Texts(step);
        assert v.reviewer in texts && v.evidence in texts && v.runId in texts;
      case Block(_, reason) => assert reason in Texts(step);
      case Report(_, note) => assert note in Texts(step);
      case Use(_, _, note) => assert note in Texts(step);
      case Deprecate(_, note) => assert note in Texts(step);
      case ValidateLocally(_, _) =>
      case Invalidate(_) =>
      case Prefer(_) =>
    }
  }

  lemma OneOfAKey(db: Db)
    requires Inv(db)
    ensures forall i, j | 0 <= i < |db.records| && 0 <= j < |db.records| && i != j ::
              db.records[i].project != db.records[j].project || db.records[i].key != db.records[j].key
  {
  }

  /** Artifacts are filed and never changed; each is filed by a verification of its capability, under the fingerprint
      that it had, for the operation of the evidence. */
  lemma StepOnArtifacts(p: Platform, db: Db, step: Step)
    ensures var r := Apply(p, db, step);
            && db.artifacts <= r.artifacts && |r.artifacts| <= |db.artifacts| + 1
            && (|r.artifacts| > |db.artifacts| ==>
                  && (step.Validate? || step.ValidateLocally?) && step.id < |db.records|
                  && r.artifacts[|db.artifacts|] ==
                     Artifact(step.id, db.records[step.id].fingerprint,
                              if step.Validate? then step.review.artifact.operation else step.evidence.operation,
                              if step.Validate? then step.review.passed && step.review.artifact.passed else step.evidence.passed))
            && (step.Validate? || step.ValidateLocally? ==> (Try(p, db, step).Ok? <==> |r.artifacts| > |db.artifacts|))
  {
    hide Reasons;
  }

  /** What the log says of a step. */
  ghost predicate Tells(db: Db, step: Step, e: Event, r: Db) {
    match step
    case Provision(project, c) =>
      && e.capability < |r.records| && r.records[e.capability].project == project && r.records[e.capability].key == c.key
      && e.kind == Provisioned(if e.capability < |db.records| then Some(db.records[e.capability].fingerprint) else None)
    case Validate(id, v) => e == Event(id, if v.passed && v.artifact.passed then ValidationPassed else ValidationFailed)
    case ValidateLocally(id, a) => e == Event(id, if a.passed then ValidationPassed else ValidationFailed)
    case Invalidate(id) => e == Event(id, ValidationFailed)
    case Block(id, _) => e == Event(id, ValidationFailed)
    case Report(id, _) => e == Event(id, ReportedUse)
    case Use(id, success, _) => e == Event(id, Used(success))
    case Prefer(id) => e == Event(id, MadePreferred)
    case Deprecate(id, _) => e == Event(id, WasDeprecated)
  }

  /** Every operation that succeeds is logged once, and one that is refused changes nothing. */
  lemma StepOnLog(p: Platform, db: Db, step: Step)
    ensures var r := Apply(p, db, step);
            if Try(p, db, step).Ok?
            then |r.events| == |db.events| + 1 && db.events <= r.events && Tells(db, step, r.events[|db.events|], r)
            else r == db
  {
    hide Reasons;
  }

  // ---------- Runs ----------

  function At(p: Platform, steps: seq<Step>, k: nat): Db
    requires k <= |steps|
  {
    After(p, EMPTY, steps[..k])
  }

  lemma NextAt(p: Platform, steps: seq<Step>, k: nat)
    requires k < |steps|
    ensures At(p, steps, k + 1) == Apply(p, At(p, steps, k), steps[k])
  {
    assert steps[..k + 1][..k] == steps[..k];
  }

  /** The record was provisioned with these very contents. */
  predicate SameSource(a: Record, b: Record) {
    && a.project == b.project && a.key == b.key && a.operations == b.operations && a.adapter == b.adapter
    && a.source == b.source && a.fingerprint == b.fingerprint && a.discoveredBy == b.discoveredBy
  }

  /** Step n has given record i, with the source it has at k, the validation and the artifact that it has at k. */
  ghost predicate GaveValidation(p: Platform, steps: seq<Step>, n: nat, k: nat, i: nat)
    requires n < k <= |steps| && i < |At(p, steps, k).records|
  {
    var db, r := At(p, steps, n), At(p, steps, k).records[i];
    && i < |db.records| && SameSource(db.records[i], r) && db.records[i].status.Provisional?
    && r.artifact == Some(|db.artifacts|) && |db.artifacts| < |At(p, steps, k).artifacts|
    && match steps[n]
       case Validate(id, v) =>
         && id == i && r.validation.IndependentlyValidated? && v.passed && v.artifact.passed
         && Independent(p, i, r, v)
         && At(p, steps, k).artifacts[|db.artifacts|] == Artifact(i, r.fingerprint, v.artifact.operation, true)
       case ValidateLocally(id, e) =>
         && id == i && r.validation.CapabilityVerified? && e.passed && OwnAdapter(p, r) && Whole(p, r, e)
         && At(p, steps, k).artifacts[|db.artifacts|] == Artifact(i, r.fingerprint, e.operation, true)
       case _ => false
  }

  predicate Proven(v: Validation) { v.IndependentlyValidated? || v.CapabilityVerified? }

  lemma SameStill(p: Platform, r: Record, s: Record, i: nat)
    requires SameSource(r, s)
    ensures forall v :: Independent(p, i, r, v) <==> Independent(p, i, s, v)
    ensures forall e :: OwnAdapter(p, r) && Whole(p, r, e) <==> OwnAdapter(p, s) && Whole(p, s, e)
  {
  }

  /** Main theorem: in every run, a record that counts as independently validated was put there by a review by somebody
      other than its discoverer, on a passed run of a succeeded agent run of that very reviewer, for its project and
      for its present source and the operation of its artifact; one that counts as verified by the platform, by the
      built-in verifier on its own adapter. */
  lemma {:induction false} ValidatedByTheirSteps(p: Platform, steps: seq<Step>, k: nat, i: nat) returns (n: nat)
    requires k <= |steps| && i < |At(p, steps, k).records| && Proven(At(p, steps, k).records[i].validation)
    ensures n < k && GaveValidation(p, steps, n, k, i)
  {
    assert At(p, steps, 0).records == [];
    NextAt(p, steps, k - 1);
    var db, step := At(p, steps, k - 1), steps[k - 1];
    StepOnRecord(p, db, step, i);
    StepOnArtifacts(p, db, step);
    hide Apply, At, Independent, OwnAdapter, Whole, Acceptable, GaveValidation;
    assert i < |db.records|;
    var a, b := db.records[i], At(p, steps, k).records[i];
    if a.validation == b.validation && a.artifact == b.artifact && SameSource(a, b) {
      n := ValidatedByTheirSteps(p, steps, k - 1, i);
      ValidationStays(p, steps, n, k, i);
    } else {
      n := k - 1;
      ValidationGiven(p, steps, k, i);
    }
  }

  lemma ValidationStays(p: Platform, steps: seq<Step>, n: nat, k: nat, i: nat)
    requires n < k - 1 < |steps| && i < |At(p, steps, k - 1).records| && GaveValidation(p, steps, n, k - 1, i)
    requires i < |At(p, steps, k).records| && At(p, steps, k - 1).artifacts <= At(p, steps, k).artifacts
    requires var a, b := At(p, steps, k - 1).records[i], At(p, steps, k).records[i];
             a.validation == b.validation && a.artifact == b.artifact && SameSource(a, b)
    ensures GaveValidation(p, steps, n, k, i)
  {
    hide At, Independent, OwnAdapter, Whole;
    SameStill(p, At(p, steps, k - 1).records[i], At(p, steps, k).records[i], i);
  }

  lemma ValidationGiven(p: Platform, steps: seq<Step>, k: nat, i: nat)
    requires 0 < k <= |steps| && i < |At(p, steps, k - 1).records| && i < |At(p, steps, k).records|
    requires Proven(At(p, steps, k).records[i].validation)
    requires var a, b := At(p, steps, k - 1).records[i], At(p, steps, k).records[i];
             && !(a.validation == b.validation && a.artifact == b.artifact && SameSource(a, b))
             && Changes(p, At(p, steps, k - 1), steps[k - 1], i, a, b)
    requires At(p, steps, k) == Apply(p, At(p, steps, k - 1), steps[k - 1])
    ensures GaveValidation(p, steps, k - 1, k, i)
  {
    var a, b := At(p, steps, k - 1).records[i], At(p, steps, k).records[i];
    StepOnArtifacts(p, At(p, steps, k - 1), steps[k - 1]);
    hide At, Independent, OwnAdapter, Whole, Acceptable, Apply, Try;
    SameStill(p, a, b, i);
  }

  /** Step n has put record i into the status that it has at k. */
  ghost predicate GaveStatus(p: Platform, steps: seq<Step>, n: nat, k: nat, i: nat)
    requires n < k <= |steps| && i < |At(p, steps, k).records|
  {
    var db, r := At(p, steps, n), At(p, steps, k).records[i];
    match r.status
    case Provisional => steps[n].Provision? && steps[n].project == r.project && steps[n].proposal.key == r.key
    case Validated =>
      (steps[n].Validate? && steps[n].id == i && steps[n].review.passed && steps[n].review.artifact.passed)
      || (steps[n].ValidateLocally? && steps[n].id == i && steps[n].evidence.passed)
    case Preferred => steps[n] == Prefer(i) && i < |db.records| && db.records[i].successes >= 2 && db.records[i].failures == 0
    case Degraded =>
      steps[n] == Invalidate(i)
      || (steps[n].Use? && steps[n].id == i && !steps[n].success && i < |db.records| && db.records[i].failures >= 1)
    case Blocked =>
      (steps[n].Validate? && steps[n].id == i && !(steps[n].review.passed && steps[n].review.artifact.passed))
      || (steps[n].ValidateLocally? && steps[n].id == i && !steps[n].evidence.passed)
      || (steps[n].Block? && steps[n].id == i)
    case Deprecated => steps[n].Deprecate? && steps[n].id == i
    case Candidate => false
  }

  /** Main theorem: in every run each record owes its status to an operation that gives it. */
  lemma {:induction false} StatusByTheirSteps(p: Platform, steps: seq<Step>, k: nat, i: nat) returns (n: nat)
    requires k <= |steps| && i < |At(p, steps, k).records|
    ensures n < k && GaveStatus(p, steps, n, k, i)
  {
    assert At(p, steps, 0).records == [];
    NextAt(p, steps, k - 1);
    var db, step := At(p, steps, k - 1), steps[k - 1];
    StepOnRecord(p, db, step, i);
    hide Apply, At, Independent, OwnAdapter, Whole, Acceptable;
    if i < |db.records| && db.records[i].status == At(p, steps, k).records[i].status
       && db.records[i].project == At(p, steps, k).records[i].project && db.records[i].key == At(p, steps, k).records[i].key {
      n := StatusByTheirSteps(p, steps, k - 1, i);
    } else {
      n := k - 1;
    }
  }
}
