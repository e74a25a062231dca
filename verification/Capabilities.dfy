/**
 The capability lifecycle (src/capabilities/registry.ts): records, verification artifacts and the event
 log, and every operation on them. Ids are positions in the tables.
 */
module Capabilities {
  import opened Wrappers

  datatype Status = Candidate | Provisional | Validated | Preferred | Degraded | Deprecated | Blocked

  datatype Validation = NotStarted | PreflightPassed | CapabilityVerified | IndependentlyValidated | Failed

  /** Ranked: the earlier kind is tried first. */
  datatype SourceKind =
    | LocalTool | InternalAdapter | InstalledIntegration | FirstPartySdk | OpenSource | SmallAdapter | Bespoke

  datatype Source = Source(kind: SourceKind, reference: string, license: Option<string>, revision: Option<string>)

  datatype Proposal = Proposal(
    key: string, operations: seq<string>, adapter: bool, highRisk: bool, free: bool, permissions: seq<string>,
    source: Source, discoveredBy: string, preflight: seq<bool>)

  datatype Record = Record(
    project: string, key: string, operations: seq<string>, adapter: bool, source: Source, fingerprint: string,
    discoveredBy: string, artifact: Option<nat>, status: Status, validation: Validation,
    successes: nat, failures: nat)

  datatype Artifact = Artifact(capability: nat, fingerprint: string, operation: string, passed: bool)

  datatype EventKind =
    | Provisioned(formerly: Option<string>) | ValidationPassed | ValidationFailed | ReportedUse
    | Used(success: bool) | MadePreferred | WasDeprecated

  datatype Event = Event(capability: nat, kind: EventKind)

  datatype Db = Db(records: seq<Record>, artifacts: seq<Artifact>, events: seq<Event>)

  /** What the platform supplies: hashes, text functions, and the revision of the built-in adapter. */
  datatype Platform = Platform(
    fingerprint: Source -> string, subject: (nat, string, string) -> string, blank: string -> bool,
    fold: string -> string, excessive: string -> bool, revision: string, catalog: string, adapterReference: string)

  datatype Error =
    | NotAccepted | AlreadyRegistered | StillActive | MissingEvidence | NotFound | WrongStatus | NotIndependent
    | NoPassedRun | IncompleteArtifact | NoLocalVerifier

  // ---------- Assessment ----------

  datatype Reason =
    | HighRisk | NotFree | NoLicense | ExcessivePermissions | PreflightFailed(check: nat) | NoCandidate

  function FailedChecks(preflight: seq<bool>, from: nat): seq<Reason>
    requires from <= |preflight|
    decreases |preflight| - from
  {
    if from == |preflight| then []
    else (if preflight[from] then [] else [PreflightFailed(from)]) + FailedChecks(preflight, from + 1)
  }

  function Reasons(p: Platform, c: Proposal): seq<Reason> {
    (if c.highRisk then [HighRisk] else [])
    + (if c.free then [] else [NotFree])
    + (if c.source.kind.OpenSource? && (c.source.license.None? || c.source.license.value == "") then [NoLicense] else [])
    + (if exists x | x in c.permissions :: p.excessive(x) then [ExcessivePermissions] else [])
    + FailedChecks(c.preflight, 0)
  }

  // ---------- Lifecycle ----------

  predicate Withdrawn(s: Status) { s in {Degraded, Blocked, Deprecated} }

  predicate Admissible(s: Status) { s in {Validated, Preferred} }

  /** The record of a project under a key, or |records|. */
  function Find(records: seq<Record>, project: string, key: string): (i: nat)
    ensures i <= |records|
    ensures i < |records| ==> records[i].project == project && records[i].key == key
    ensures forall j | 0 <= j < i :: !(records[j].project == project && records[j].key == key)
  {
    if records == [] || (records[0].project == project && records[0].key == key) then 0
    else 1 + Find(records[1..], project, key)
  }

  function Logged(db: Db, i: nat, r: Record, kind: EventKind): Db
    requires i < |db.records|
  {
    db.(records := db.records[i := r], events := db.events + [Event(i, kind)])
  }

  function ProvisionCapability(p: Platform, db: Db, project: string, c: Proposal): Result<Db, Error> {
    if Reasons(p, c) != [] then Err(NotAccepted)
    else
      var i, now := Find(db.records, project, c.key), p.fingerprint(c.source);
      if i == |db.records| then
        Ok(db.(records := db.records + [Record(project, c.key, c.operations, c.adapter, c.source, now, c.discoveredBy,
                                               None, Provisional, PreflightPassed, 0, 0)],
               events := db.events + [Event(i, Provisioned(None))]))
      else
        var r := db.records[i];
        if r.fingerprint == now then Err(AlreadyRegistered)
        else if !Withdrawn(r.status) then Err(StillActive)
        else
          Ok(Logged(db, i,
                    r.(operations := c.operations, adapter := c.adapter, source := c.source, fingerprint := now,
                       discoveredBy := c.discoveredBy, artifact := None, status := Provisional,
                       validation := PreflightPassed),
                    Provisioned(Some(r.fingerprint))))
  }

  /** The artifact that a verifier hands in; `complete` says that none of its parts is empty. */
  datatype Evidence = Evidence(operation: string, validator: string, complete: bool, passed: bool)

  datatype VerificationRun = VerificationRun(
    passed: bool, runSucceeded: bool, provider: string, project: string, subject: string)

  datatype Review = Review(
    passed: bool, reviewer: string, evidence: string, runId: string, artifact: Evidence,
    run: Option<VerificationRun>)

  predicate Complete(p: Platform, r: Record, a: Evidence) {
    a.operation in r.operations && !p.blank(a.validator) && a.complete
  }

  function Verified(db: Db, i: nat, a: Evidence, passed: bool, becomes: Validation): Db
    requires i < |db.records|
  {
    var r := db.records[i];
    Logged(db.(artifacts := db.artifacts + [Artifact(i, r.fingerprint, a.operation, passed)]), i,
           r.(status := if passed then Validated else Blocked, validation := if passed then becomes else Failed,
              artifact := Some(|db.artifacts|)),
           if passed then ValidationPassed else ValidationFailed)
  }

  function ValidateCapability(p: Platform, db: Db, i: nat, v: Review): Result<Db, Error> {
    if p.blank(v.reviewer) || p.blank(v.evidence) || p.blank(v.runId) then Err(MissingEvidence)
    else if i >= |db.records| then Err(NotFound)
    else
      var r := db.records[i];
      if !r.status.Provisional? then Err(WrongStatus)
      else if p.fold(r.discoveredBy) == p.fold(v.reviewer) then Err(NotIndependent)
      else if v.run.None? || !v.run.value.passed || !v.run.value.runSucceeded || v.run.value.provider != v.reviewer
              || v.run.value.project != r.project
              || v.run.value.subject != p.subject(i, r.fingerprint, v.artifact.operation) then Err(NoPassedRun)
      else if !Complete(p, r, v.artifact) then Err(IncompleteArtifact)
      else Ok(Verified(db, i, v.artifact, v.passed && v.artifact.passed, IndependentlyValidated))
  }

  function ValidateDiscovered(p: Platform, db: Db, i: nat, a: Evidence): Result<Db, Error> {
    if i >= |db.records| then Err(NotFound)
    else
      var r := db.records[i];
      if !r.status.Provisional? then Err(WrongStatus)
      else if p.fold(r.discoveredBy) == p.catalog || !r.adapter || r.key != "canonicalize-local-path"
              || r.source.kind != InternalAdapter || r.source.reference != p.adapterReference
              || r.source.revision != Some(p.revision) then Err(NoLocalVerifier)
      else if !Complete(p, r, a) then Err(IncompleteArtifact)
      else Ok(Verified(db, i, a, a.passed, CapabilityVerified))
  }

  function InvalidateSource(db: Db, i: nat): Result<Db, Error> {
    if i >= |db.records| then Err(NotFound)
    else Ok(Logged(db, i, db.records[i].(status := Degraded, validation := Failed, artifact := None), ValidationFailed))
  }

  function BlockVerification(p: Platform, db: Db, i: nat, reason: string): Result<Db, Error> {
    if p.blank(reason) then Err(MissingEvidence)
    else if i >= |db.records| then Err(NotFound)
    else if !db.records[i].status.Provisional? then Err(WrongStatus)
    else Ok(Logged(db, i, db.records[i].(status := Blocked, validation := Failed), ValidationFailed))
  }

  function ReportUse(p: Platform, db: Db, i: nat, evidence: string): Result<Db, Error> {
    if p.blank(evidence) then Err(MissingEvidence)
    else if i >= |db.records| || !Admissible(db.records[i].status) then Err(WrongStatus)
    else Ok(db.(events := db.events + [Event(i, ReportedUse)]))
  }

  function RecordOutcome(p: Platform, db: Db, i: nat, success: bool, evidence: string): Result<Db, Error> {
    if p.blank(evidence) then Err(MissingEvidence)
    else if i >= |db.records| then Err(NotFound)
    else
      var r := db.records[i];
      if !Admissible(r.status) && !r.status.Degraded? then Err(WrongStatus)
      else
        var failures := r.failures + if success then 0 else 1;
        Ok(Logged(db, i,
                  r.(successes := r.successes + if success then 1 else 0, failures := failures,
                     status := if !success && failures >= 2 then Degraded else r.status),
                  Used(success)))
  }

  function PreferCapability(db: Db, i: nat): Result<Db, Error> {
    if i >= |db.records| then Err(NotFound)
    else
      var r := db.records[i];
      if !r.status.Validated? || r.successes < 2 || r.failures > 0 then Err(WrongStatus)
      else Ok(Logged(db, i, r.(status := Preferred), MadePreferred))
  }

  function DeprecateCapability(p: Platform, db: Db, i: nat, evidence: string): Result<Db, Error> {
    if p.blank(evidence) then Err(MissingEvidence)
    else if i >= |db.records| then Err(NotFound)
    else Ok(Logged(db, i, db.records[i].(status := Deprecated), WasDeprecated))
  }

  // ---------- Runs ----------

  datatype Step =
    | Provision(project: string, proposal: Proposal)
    | Validate(id: nat, review: Review)
    | ValidateLocally(id: nat, evidence: Evidence)
    | Invalidate(id: nat)
    | Block(id: nat, reason: string)
    | Report(id: nat, note: string)
    | Use(id: nat, success: bool, note: string)
    | Prefer(id: nat)
    | Deprecate(id: nat, note: string)

  function Try(p: Platform, db: Db, step: Step): Result<Db, Error> {
    match step
    case Provision(project, proposal) => ProvisionCapability(p, db, project, proposal)
    case Validate(id, review) => ValidateCapability(p, db, id, review)
    case ValidateLocally(id, evidence) => ValidateDiscovered(p, db, id, evidence)
    case Invalidate(id) => InvalidateSource(db, id)
    case Block(id, reason) => BlockVerification(p, db, id, reason)
    case Report(id, note) => ReportUse(p, db, id, note)
    case Use(id, success, note) => RecordOutcome(p, db, id, success, note)
    case Prefer(id) => PreferCapability(db, id)
    case Deprecate(id, note) => DeprecateCapability(p, db, id, note)
  }

  /** A refused operation changes nothing. */
  function Apply(p: Platform, db: Db, step: Step): Db {
    var r := Try(p, db, step);
    if r.Ok? then r.value else db
  }

  function After(p: Platform, db: Db, steps: seq<Step>): Db {
    if steps == [] then db else Apply(p, After(p, db, steps[..|steps| - 1]), steps[|steps| - 1])
  }

  const EMPTY := Db([], [], [])

  // ---------- What every run keeps ----------

  function Outcomes(events: seq<Event>, i: nat, success: bool): nat {
    if events == [] then 0
    else
      var last := events[|events| - 1];
      Outcomes(events[..|events| - 1], i, success) + if last == Event(i, Used(success)) then 1 else 0
  }

  /** artifactMatchesRecord */
  predicate ArtifactMatches(db: Db, i: nat)
    requires i < |db.records|
  {
    var r := db.records[i];
    && r.artifact.Some? && r.artifact.value < |db.artifacts|
    && var a := db.artifacts[r.artifact.value];
       a.capability == i && a.passed && a.fingerprint == r.fingerprint
  }

  predicate Sound(db: Db, i: nat)
    requires i < |db.records|
  {
    var r := db.records[i];
    && !r.status.Candidate?
    && (Admissible(r.status) ==>
          ArtifactMatches(db, i) && r.validation in {IndependentlyValidated, CapabilityVerified})
    && r.successes == Outcomes(db.events, i, true)
    && r.failures == Outcomes(db.events, i, false)
    && (r.status.Preferred? ==> r.successes >= 2 && r.failures <= 1)
  }

  ghost predicate Inv(db: Db) {
    && (forall i: nat | i < |db.records| :: Sound(db, i))
    && (forall i, j | 0 <= i < j < |db.records| ::
          db.records[i].project != db.records[j].project || db.records[i].key != db.records[j].key)
    && (forall e | e in db.events :: e.capability < |db.records|)
  }

  lemma OutcomesSnoc(events: seq<Event>, e: Event, i: nat, success: bool)
    ensures Outcomes(events + [e], i, success) ==
            Outcomes(events, i, success) + if e == Event(i, Used(success)) then 1 else 0
  {
    assert (events + [e])[..|events|] == events;
  }

  lemma {:induction false} NoOutcomes(events: seq<Event>, i: nat, success: bool)
    requires forall e | e in events :: e.capability != i
    ensures Outcomes(events, i, success) == 0
  {
    if events != [] {
      assert events[|events| - 1] in events;
      NoOutcomes(events[..|events| - 1], i, success);
    }
  }

  /** One record changes and one event about it is logged. */
  lemma LoggedKeepsInv(db: Db, more: seq<Artifact>, i: nat, r: Record, kind: EventKind)
    requires Inv(db) && i < |db.records|
    requires r.project == db.records[i].project && r.key == db.records[i].key
    requires r.successes == db.records[i].successes + if kind == Used(true) then 1 else 0
    requires r.failures == db.records[i].failures + if kind == Used(false) then 1 else 0
    requires !r.status.Candidate?
    requires r.status.Preferred? ==> r.successes >= 2 && r.failures <= 1
    requires Admissible(r.status) ==>
               && r.validation in {IndependentlyValidated, CapabilityVerified}
               && r.artifact.Some? && r.artifact.value < |db.artifacts + more|
               && var a := (db.artifacts + more)[r.artifact.value];
                  a.capability == i && a.passed && a.fingerprint == r.fingerprint
    ensures Inv(Logged(db.(artifacts := db.artifacts + more), i, r, kind))
  {
    var after := Logged(db.(artifacts := db.artifacts + more), i, r, kind);
    forall j: nat | j < |after.records| ensures Sound(after, j) {
      assert Sound(db, j);
      OutcomesSnoc(db.events, Event(i, kind), j, true);
      OutcomesSnoc(db.events, Event(i, kind), j, false);
    }
  }

  lemma ProvisionKeepsInv(p: Platform, db: Db, project: string, c: Proposal)
    requires Inv(db)
    ensures Inv(Apply(p, db, Provision(project, c)))
  {
    hide Reasons;
    var i := Find(db.records, project, c.key);
    if i < |db.records| {
      var r := db.records[i];
      assert Sound(db, i);
      assert db.artifacts + [] == db.artifacts;
      if Reasons(p, c) == [] && r.fingerprint != p.fingerprint(c.source) && Withdrawn(r.status) {
        LoggedKeepsInv(db, [], i,
                       r.(operations := c.operations, adapter := c.adapter, source := c.source,
                          fingerprint := p.fingerprint(c.source), discoveredBy := c.discoveredBy, artifact := None,
                          status := Provisional, validation := PreflightPassed),
                       Provisioned(Some(r.fingerprint)));
      }
    } else if Reasons(p, c) == [] {
      NewRecordKeepsInv(p, db, project, c);
    }
  }

  lemma NewRecordKeepsInv(p: Platform, db: Db, project: string, c: Proposal)
    requires Inv(db) && Find(db.records, project, c.key) == |db.records| && Reasons(p, c) == []
    ensures Inv(Apply(p, db, Provision(project, c)))
  {
    var after := Apply(p, db, Provision(project, c));
    var n := |db.records|;
    forall j: nat | j < |after.records| ensures Sound(after, j) {
      OutcomesSnoc(db.events, Event(n, Provisioned(None)), j, true);
      OutcomesSnoc(db.events, Event(n, Provisioned(None)), j, false);
      if j < n {
        assert Sound(db, j);
      } else {
        NoOutcomes(db.events, n, true);
        NoOutcomes(db.events, n, false);
      }
    }
  }

  lemma StepKeepsInv(p: Platform, db: Db, step: Step)
    requires Inv(db)
    ensures Inv(Apply(p, db, step))
  {
    if step.Provision? {
      ProvisionKeepsInv(p, db, step.project, step.proposal);
    } else if Try(p, db, step).Ok? {
      assert db.artifacts + [] == db.artifacts;
      assert Sound(db, step.id);
      ChangeKeepsInv(p, db, step);
    }
  }

  lemma ChangeKeepsInv(p: Platform, db: Db, step: Step)
    requires Inv(db) && !step.Provision? && Try(p, db, step).Ok?
    ensures Inv(Apply(p, db, step))
  {
    hide Inv;
    var i := step.id;
    assert db.artifacts + [] == db.artifacts;
    assert i < |db.records| && Sound(db, i) by { InvAt(db, i); }
    var r := db.records[i];
    match step
    case Validate(_, v) =>
      var passed := v.passed && v.artifact.passed;
      VerifiedKeepsInv(db, i, v.artifact, passed, IndependentlyValidated);
    case ValidateLocally(_, a) => VerifiedKeepsInv(db, i, a, a.passed, CapabilityVerified);
    case Invalidate(_) => LoggedKeepsInv(db, [], i, r.(status := Degraded, validation := Failed, artifact := None), ValidationFailed);
    case Block(_, _) => LoggedKeepsInv(db, [], i, r.(status := Blocked, validation := Failed), ValidationFailed);
    case Report(_, _) =>
      LoggedKeepsInv(db, [], i, r, ReportedUse);
      assert db.records[i := r] == db.records;
    case Use(_, success, _) =>
      var failures := r.failures + if success then 0 else 1;
      LoggedKeepsInv(db, [], i,
                     r.(successes := r.successes + if success then 1 else 0, failures := failures,
                        status := if !success && failures >= 2 then Degraded else r.status),
                     Used(success));
    case Prefer(_) => LoggedKeepsInv(db, [], i, r.(status := Preferred), MadePreferred);
    case Deprecate(_, _) => LoggedKeepsInv(db, [], i, r.(status := Deprecated), WasDeprecated);
  }

  lemma InvAt(db: Db, i: nat)
    requires Inv(db)
    ensures i < |db.records| ==> Sound(db, i)
  {
  }

  lemma VerifiedKeepsInv(db: Db, i: nat, a: Evidence, passed: bool, becomes: Validation)
    requires Inv(db) && i < |db.records| && becomes in {IndependentlyValidated, CapabilityVerified}
    ensures Inv(Verified(db, i, a, passed, becomes))
  {
    var r := db.records[i];
    assert Sound(db, i);
    LoggedKeepsInv(db, [Artifact(i, r.fingerprint, a.operation, passed)], i,
                   r.(status := if passed then Validated else Blocked, validation := if passed then becomes else Failed,
                      artifact := Some(|db.artifacts|)),
                   if passed then ValidationPassed else ValidationFailed);
  }

  lemma {:induction false} RunKeepsInv(p: Platform, db: Db, steps: seq<Step>)
    requires Inv(db)
    ensures Inv(After(p, db, steps))
  {
    if steps != [] {
      RunKeepsInv(p, db, steps[..|steps| - 1]);
      StepKeepsInv(p, After(p, db, steps[..|steps| - 1]), steps[|steps| - 1]);
    }
  }

  /** Main theorem: after every run from an empty registry, a validated or preferred capability owns a
      passed artifact for itself and its current source, the counters are the outcomes in the log, and
      preferred means at least two successes and at most one failure. */
  lemma EveryRunIsSound(p: Platform, steps: seq<Step>, i: nat)
    requires i < |After(p, EMPTY, steps).records|
    ensures var db := After(p, EMPTY, steps);
            var r := db.records[i];
            && (r.status in {Validated, Preferred} ==> ArtifactMatches(db, i))
            && r.successes == Outcomes(db.events, i, true) && r.failures == Outcomes(db.events, i, false)
            && (r.status.Preferred? ==> r.successes >= 2 && r.failures <= 1)
            && !r.status.Candidate?
  {
    RunKeepsInv(p, EMPTY, steps);
    assert Sound(After(p, EMPTY, steps), i);
  }

  // ---------- Leaving a withdrawn status ----------

  /** What one step can do to a record. */
  lemma StepOn(p: Platform, db: Db, step: Step, i: nat)
    requires i < |db.records|
    ensures var after := Apply(p, db, step);
            && i < |after.records| && |db.artifacts| <= |after.artifacts|
            && var r, s := db.records[i], after.records[i];
               && (s.fingerprint == r.fingerprint || (Withdrawn(r.status) && s.status.Provisional?))
               && (Withdrawn(r.status) ==> Withdrawn(s.status) || s.fingerprint != r.fingerprint)
               && (Admissible(s.status) ==>
                     (Admissible(r.status) && s.artifact == r.artifact) || s.artifact == Some(|db.artifacts|))
  {
    hide Reasons, Complete;
  }

  /** Step n gives the record a source with another fingerprint. */
  ghost predicate NewSourceAt(p: Platform, db: Db, steps: seq<Step>, i: nat, n: nat)
    requires i < |db.records|
  {
    && n < |steps|
    && var before, after := After(p, db, steps[..n]), After(p, db, steps[..n + 1]);
       && i < |before.records| && i < |after.records|
       && Withdrawn(before.records[i].status) && before.records[i].fingerprint == db.records[i].fingerprint
       && after.records[i].status.Provisional? && after.records[i].fingerprint != db.records[i].fingerprint
  }

  lemma {:induction false} WithdrawnUntilNewSource(p: Platform, db: Db, steps: seq<Step>, i: nat)
    requires i < |db.records| && Withdrawn(db.records[i].status)
    ensures var later := After(p, db, steps);
            && i < |later.records| && |db.artifacts| <= |later.artifacts|
            && ((Withdrawn(later.records[i].status) && later.records[i].fingerprint == db.records[i].fingerprint)
                || exists n: nat :: NewSourceAt(p, db, steps, i, n))
            && (Admissible(later.records[i].status) ==>
                  later.records[i].artifact.Some? && later.records[i].artifact.value >= |db.artifacts|)
  {
    if steps != [] {
      hide Apply;
      var k := |steps| - 1;
      var init := steps[..k];
      WithdrawnUntilNewSource(p, db, init, i);
      StepOn(p, After(p, db, init), steps[k], i);
      if n: nat :| NewSourceAt(p, db, init, i, n) {
        assert init[..n] == steps[..n] && init[..n + 1] == steps[..n + 1];
        assert NewSourceAt(p, db, steps, i, n);
      } else if After(p, db, steps).records[i].fingerprint != db.records[i].fingerprint {
        assert steps[..k + 1] == steps;
        assert NewSourceAt(p, db, steps, i, k);
      }
    }
  }

  /** Main theorem: a degraded, blocked or deprecated capability comes back to use only through a source
      with another fingerprint, and with a passed artifact that did not exist before. */
  lemma LeavingNeedsNewSource(p: Platform, db: Db, steps: seq<Step>, i: nat)
    requires Inv(db) && i < |db.records| && Withdrawn(db.records[i].status)
    requires i < |After(p, db, steps).records| && Admissible(After(p, db, steps).records[i].status)
    ensures exists n: nat :: NewSourceAt(p, db, steps, i, n)
    ensures var later := After(p, db, steps);
            ArtifactMatches(later, i) && later.records[i].artifact.value >= |db.artifacts|
  {
    WithdrawnUntilNewSource(p, db, steps, i);
    RunKeepsInv(p, db, steps);
    assert Sound(After(p, db, steps), i);
  }

  /** The fingerprint need not differ in the end: by way of a second source the first one comes back. */
  lemma FirstSourceMayComeBack(p: Platform, db: Db, i: nat, a: Proposal, b: Proposal, reason: string)
    requires i < |db.records| && Withdrawn(db.records[i].status) && !p.blank(reason)
    requires Reasons(p, a) == [] && Reasons(p, b) == [] && a.key == b.key
    requires Find(db.records, db.records[i].project, a.key) == i
    requires p.fingerprint(a.source) == db.records[i].fingerprint != p.fingerprint(b.source)
    ensures var project := db.records[i].project;
            var later := After(p, db, [Provision(project, b), Block(i, reason), Provision(project, a)]);
            && i < |later.records| && later.records[i].status.Provisional?
            && later.records[i].fingerprint == db.records[i].fingerprint
            && forall v :: ValidateCapability(p, later, i, v).Ok? && v.passed && v.artifact.passed ==>
                 var last := ValidateCapability(p, later, i, v).value;
                 last.records[i].status.Validated? && last.records[i].fingerprint == db.records[i].fingerprint
  {
    var project := db.records[i].project;
    var steps := [Provision(project, b), Block(i, reason), Provision(project, a)];
    var first := Apply(p, db, steps[0]);
    var second := Apply(p, first, steps[1]);
    ThreeSteps(p, db, steps);
    ProvisionOver(p, db, i, b);
    assert first.records[i].status.Provisional?;
    assert second.records == first.records[i := first.records[i].(status := Blocked, validation := Failed)];
    hide Reasons, Complete, Apply, After;
    FindByKey(db.records, first.records, project, a.key);
    FindByKey(db.records, second.records, project, a.key);
    ProvisionOver(p, second, i, a);
  }

  lemma ThreeSteps(p: Platform, db: Db, steps: seq<Step>)
    requires |steps| == 3
    ensures After(p, db, steps) == Apply(p, Apply(p, Apply(p, db, steps[0]), steps[1]), steps[2])
  {
    hide Apply;
    var one := steps[..2][..1];
    assert one[..0] == [] && one[0] == steps[0];
    assert After(p, db, one) == Apply(p, db, steps[0]);
  }

  lemma ProvisionOver(p: Platform, db: Db, i: nat, c: Proposal)
    requires i < |db.records| && Withdrawn(db.records[i].status) && Reasons(p, c) == []
    requires Find(db.records, db.records[i].project, c.key) == i && p.fingerprint(c.source) != db.records[i].fingerprint
    ensures var r := db.records[i];
            Apply(p, db, Provision(r.project, c)).records ==
            db.records[i := r.(operations := c.operations, adapter := c.adapter, source := c.source,
                               fingerprint := p.fingerprint(c.source), discoveredBy := c.discoveredBy,
                               artifact := None, status := Provisional, validation := PreflightPassed)]
  {
    hide Reasons, Find;
  }

  lemma {:induction false} FindByKey(a: seq<Record>, b: seq<Record>, project: string, key: string)
    requires |a| == |b| && forall i | 0 <= i < |a| :: a[i].project == b[i].project && a[i].key == b[i].key
    ensures Find(a, project, key) == Find(b, project, key)
  {
    if a != [] && !(a[0].project == project && a[0].key == key) { FindByKey(a[1..], b[1..], project, key); }
  }

  // ---------- Planning ----------

  datatype Plan = Reuse(id: nat) | Acquire(candidate: nat) | Refused(reasons: seq<Reason>)

  predicate Reusable(db: Db, i: nat, project: string, operation: string) {
    && i < |db.records|
    && db.records[i].project == project && operation in db.records[i].operations
    && Admissible(db.records[i].status)
    && db.records[i].validation in {IndependentlyValidated, CapabilityVerified} && ArtifactMatches(db, i)
  }

  /** The sort order of reusable capabilities: preferred ones, more successes, fewer failures. */
  predicate Better(a: Record, b: Record) {
    || (a.status.Preferred? && !b.status.Preferred?)
    || (a.status.Preferred? == b.status.Preferred? &&
        (a.successes > b.successes || (a.successes == b.successes && a.failures < b.failures)))
  }

  function Rank(k: SourceKind): nat {
    match k
    case LocalTool => 0
    case InternalAdapter => 1
    case InstalledIntegration => 2
    case FirstPartySdk => 3
    case OpenSource => 4
    case SmallAdapter => 5
    case Bespoke => 6
  }

  predicate Fitting(p: Platform, c: Proposal, operation: string) {
    Reasons(p, c) == [] && operation in c.operations
  }

  /** Candidate k is considered before candidate l. */
  predicate Precedes(candidates: seq<Proposal>, k: nat, l: nat) {
    k < |candidates| && l < |candidates| &&
    var a, b := Rank(candidates[k].source.kind), Rank(candidates[l].source.kind);
    a < b || (a == b && k < l)
  }

  /** All candidates for the operation, each once, in the order in which they are considered. */
  ghost predicate Considered(candidates: seq<Proposal>, operation: string, order: seq<nat>) {
    && (forall k: nat :: k in order <==> k < |candidates| && operation in candidates[k].operations)
    && InOrder(candidates, order)
  }

  predicate Within(candidates: seq<Proposal>, order: seq<nat>) { forall i | 0 <= i < |order| :: order[i] < |candidates| }

  function ReasonsOf(p: Platform, candidates: seq<Proposal>, order: seq<nat>): seq<Reason>
    requires Within(candidates, order)
  {
    if order == [] then []
    else ReasonsOf(p, candidates, order[..|order| - 1]) + Reasons(p, candidates[order[|order| - 1]])
  }

  /** What is said against all candidates, or that there are none. */
  ghost predicate RefusedFor(p: Platform, candidates: seq<Proposal>, operation: string, reasons: seq<Reason>) {
    exists order | Considered(candidates, operation, order) ::
      Within(candidates, order) &&
      reasons == if ReasonsOf(p, candidates, order) == [] then [NoCandidate] else ReasonsOf(p, candidates, order)
  }

  predicate Below(order: seq<nat>, k: nat) { forall i | 0 <= i < |order| :: order[i] < k }

  /** Puts candidate k behind those of its rank. */
  function Placed(candidates: seq<Proposal>, order: seq<nat>, k: nat): (r: seq<nat>)
    requires k < |candidates| && Below(order, k)
    ensures forall x :: x in r <==> x in order || x == k
  {
    if order == [] then [k]
    else
      var last := order[|order| - 1];
      if Rank(candidates[last].source.kind) <= Rank(candidates[k].source.kind) then order + [k]
      else
        assert order == order[..|order| - 1] + [last];
        Placed(candidates, order[..|order| - 1], k) + [last]
  }

  predicate InOrder(candidates: seq<Proposal>, order: seq<nat>) {
    forall i, j | 0 <= i < j < |order| :: Precedes(candidates, order[i], order[j])
  }

  lemma OneMoreInOrder(candidates: seq<Proposal>, order: seq<nat>, x: nat)
    requires InOrder(candidates, order) && forall i | 0 <= i < |order| :: Precedes(candidates, order[i], x)
    ensures InOrder(candidates, order + [x])
  {
  }

  lemma {:induction false} PlacedInOrder(candidates: seq<Proposal>, order: seq<nat>, k: nat)
    requires k < |candidates| && Below(order, k) && InOrder(candidates, order)
    ensures InOrder(candidates, Placed(candidates, order, k))
  {
    if order != [] {
      var init, last := order[..|order| - 1], order[|order| - 1];
      if Rank(candidates[last].source.kind) <= Rank(candidates[k].source.kind) {
        forall i | 0 <= i < |order| ensures Precedes(candidates, order[i], k) {
          assert i < |init| ==> Precedes(candidates, order[i], last);
        }
        OneMoreInOrder(candidates, order, k);
      } else {
        PlacedInOrder(candidates, init, k);
        var r := Placed(candidates, init, k);
        forall i | 0 <= i < |r| ensures Precedes(candidates, r[i], last) {
          assert r[i] in r;
          if r[i] != k {
            var j :| 0 <= j < |init| && init[j] == r[i];
            assert Precedes(candidates, order[j], order[|init|]);
          }
        }
        OneMoreInOrder(candidates, r, last);
      }
    }
  }

  /** The first of the best reusable capabilities, or else the first accepted candidate of lowest rank, or else
      the reasons. */
  ghost predicate Planned(p: Platform, db: Db, project: string, operation: string, candidates: seq<Proposal>,
          plan: Plan) {
    match plan
    case Reuse(i) =>
      && Reusable(db, i, project, operation)
      && forall j: nat | Reusable(db, j, project, operation) ::
           !Better(db.records[j], db.records[i]) && (j < i ==> Better(db.records[i], db.records[j]))
    case Acquire(k) =>
      && (forall j: nat :: !Reusable(db, j, project, operation))
      && k < |candidates| && Fitting(p, candidates[k], operation)
      && forall j: nat | j < |candidates| && Fitting(p, candidates[j], operation) ::
           Rank(candidates[k].source.kind) <= Rank(candidates[j].source.kind) &&
           (j < k ==> Rank(candidates[k].source.kind) < Rank(candidates[j].source.kind))
    case Refused(reasons) =>
      && RefusedFor(p, candidates, operation, reasons)
      && (forall j: nat :: !Reusable(db, j, project, operation))
      && (forall k: nat | k < |candidates| :: !Fitting(p, candidates[k], operation))
  }

  /** In every reachable registry the plan's own checks of validation and artifact never turn a validated or
      preferred capability away. */
  lemma StatusDecidesReuse(p: Platform, steps: seq<Step>, i: nat, project: string, operation: string)
    requires i < |After(p, EMPTY, steps).records|
    ensures var db := After(p, EMPTY, steps);
            Reusable(db, i, project, operation) <==>
            db.records[i].project == project && operation in db.records[i].operations && Admissible(db.records[i].status)
  {
    RunKeepsInv(p, EMPTY, steps);
    assert Sound(After(p, EMPTY, steps), i);
  }

  // ---------- The registry ----------

  lemma CallKeepsInv(p: Platform, db: Db, step: Step)
    ensures Inv(db) ==> Inv(Apply(p, db, step))
  {
    if Inv(db) { StepKeepsInv(p, db, step); }
  }

  class Registry {
    var records: seq<Record>
    var artifacts: seq<Artifact>
    var events: seq<Event>
    const p: Platform

    constructor (platform: Platform)
      ensures Now() == EMPTY && p == platform
    {
      p := platform;
      records, artifacts, events := [], [], [];
    }

    ghost function Now(): Db
      reads this
    {
      Db(records, artifacts, events)
    }

    /** Either the transaction is committed or nothing has changed. */
    ghost predicate Did(before: Db, r: Result<Db, Error>, error: Option<Error>)
      reads this
    {
      if error.Some? then r == Err(error.value) && Now() == before else r == Ok(Now())
    }

    method RecordEvent(i: nat, kind: EventKind)
      modifies this`events
      ensures events == old(events) + [Event(i, kind)]
    {
      events := events + [Event(i, kind)];
    }

    method Provision(project: string, c: Proposal) returns (error: Option<Error>)
      modifies this
      ensures Did(old(Now()), ProvisionCapability(p, old(Now()), project, c), error)
      ensures Inv(old(Now())) ==> Inv(Now())
    {
      hide Inv;
      CallKeepsInv(p, Now(), Step.Provision(project, c));
      hide Reasons;
      if Reasons(p, c) != [] { return Some(NotAccepted); }
      var i := Find(records, project, c.key);
      if i < |records| {
        var existing := records[i];
        var next := p.fingerprint(c.source);
        if existing.fingerprint == next { return Some(AlreadyRegistered); }
        if !Withdrawn(existing.status) { return Some(StillActive); }
        records := records[i := existing.(operations := c.operations, adapter := c.adapter, source := c.source,
                                          fingerprint := next, discoveredBy := c.discoveredBy, artifact := None,
                                          status := Provisional, validation := PreflightPassed)];
        RecordEvent(i, Provisioned(Some(existing.fingerprint)));
        return None;
      }
      records := records + [Record(project, c.key, c.operations, c.adapter, c.source, p.fingerprint(c.source),
                                   c.discoveredBy, None, Provisional, PreflightPassed, 0, 0)];
      RecordEvent(i, Provisioned(None));
      return None;
    }

    method Validate(i: nat, v: Review) returns (error: Option<Error>)
      modifies this
      ensures Did(old(Now()), ValidateCapability(p, old(Now()), i, v), error)
      ensures Inv(old(Now())) ==> Inv(Now())
    {
      hide Inv;
      CallKeepsInv(p, Now(), Step.Validate(i, v));
      if p.blank(v.reviewer) || p.blank(v.evidence) || p.blank(v.runId) { return Some(MissingEvidence); }
      if i >= |records| { return Some(NotFound); }
      var current := records[i];
      if !current.status.Provisional? { return Some(WrongStatus); }
      if p.fold(current.discoveredBy) == p.fold(v.reviewer) { return Some(NotIndependent); }
      if v.run.None? { return Some(NoPassedRun); }
      var run := v.run.value;
      if !run.passed || !run.runSucceeded || run.provider != v.reviewer || run.project != current.project
         || run.subject != p.subject(i, current.fingerprint, v.artifact.operation) { return Some(NoPassedRun); }
      if !Complete(p, current, v.artifact) { return Some(IncompleteArtifact); }
      Settle(i, v.artifact, v.passed && v.artifact.passed, IndependentlyValidated);
      return None;
    }

    /** Files the artifact and moves the record to validated or blocked. */
    method Settle(i: nat, a: Evidence, passed: bool, becomes: Validation)
      requires i < |records|
      modifies this
      ensures Now() == Verified(old(Now()), i, a, passed, becomes)
    {
      var id := |artifacts|;
      artifacts := artifacts + [Artifact(i, records[i].fingerprint, a.operation, passed)];
      records := records[i := records[i].(status := if passed then Validated else Blocked,
                                          validation := if passed then becomes else Failed, artifact := Some(id))];
      RecordEvent(i, if passed then ValidationPassed else ValidationFailed);
    }

    method ValidateLocally(i: nat, a: Evidence) returns (error: Option<Error>)
      modifies this
      ensures Did(old(Now()), ValidateDiscovered(p, old(Now()), i, a), error)
      ensures Inv(old(Now())) ==> Inv(Now())
    {
      hide Inv;
      CallKeepsInv(p, Now(), Step.ValidateLocally(i, a));
      if i >= |records| { return Some(NotFound); }
      var current := records[i];
      if !current.status.Provisional? { return Some(WrongStatus); }
      if p.fold(current.discoveredBy) == p.catalog || !current.adapter || current.key != "canonicalize-local-path"
         || current.source.kind != InternalAdapter || current.source.reference != p.adapterReference
         || current.source.revision != Some(p.revision) { return Some(NoLocalVerifier); }
      if !Complete(p, current, a) { return Some(IncompleteArtifact); }
      Settle(i, a, a.passed, CapabilityVerified);
      return None;
    }

    method Invalidate(i: nat) returns (error: Option<Error>)
      modifies this
      ensures Did(old(Now()), InvalidateSource(old(Now()), i), error)
      ensures Inv(old(Now())) ==> Inv(Now())
    {
      hide Inv;
      CallKeepsInv(p, Now(), Step.Invalidate(i));
      if i >= |records| { return Some(NotFound); }
      records := records[i := records[i].(status := Degraded, validation := Failed, artifact := None)];
      RecordEvent(i, ValidationFailed);
      return None;
    }

    method Block(i: nat, reason: string) returns (error: Option<Error>)
      modifies this
      ensures Did(old(Now()), BlockVerification(p, old(Now()), i, reason), error)
      ensures Inv(old(Now())) ==> Inv(Now())
    {
      hide Inv;
      CallKeepsInv(p, Now(), Step.Block(i, reason));
      if p.blank(reason) { return Some(MissingEvidence); }
      if i >= |records| { return Some(NotFound); }
      if !records[i].status.Provisional? { return Some(WrongStatus); }
      records := records[i := records[i].(status := Blocked, validation := Failed)];
      RecordEvent(i, ValidationFailed);
      return None;
    }

    method Report(i: nat, evidence: string) returns (error: Option<Error>)
      modifies this
      ensures Did(old(Now()), ReportUse(p, old(Now()), i, evidence), error)
      ensures Inv(old(Now())) ==> Inv(Now())
    {
      hide Inv;
      CallKeepsInv(p, Now(), Step.Report(i, evidence));
      if p.blank(evidence) { return Some(MissingEvidence); }
      if i >= |records| || !Admissible(records[i].status) { return Some(WrongStatus); }
      RecordEvent(i, ReportedUse);
      return None;
    }

    method Use(i: nat, success: bool, evidence: string) returns (error: Option<Error>)
      modifies this
      ensures Did(old(Now()), RecordOutcome(p, old(Now()), i, success, evidence), error)
      ensures Inv(old(Now())) ==> Inv(Now())
    {
      hide Inv;
      CallKeepsInv(p, Now(), Step.Use(i, success, evidence));
      if p.blank(evidence) { return Some(MissingEvidence); }
      if i >= |records| { return Some(NotFound); }
      var current := records[i];
      if !Admissible(current.status) && !current.status.Degraded? { return Some(WrongStatus); }
      var failures := current.failures + if success then 0 else 1;
      var status := if !success && failures >= 2 then Degraded else current.status;
      records := records[i := current.(successes := current.successes + if success then 1 else 0,
                                       failures := failures, status := status)];
      RecordEvent(i, Used(success));
      return None;
    }

    method Prefer(i: nat) returns (error: Option<Error>)
      modifies this
      ensures Did(old(Now()), PreferCapability(old(Now()), i), error)
      ensures Inv(old(Now())) ==> Inv(Now())
    {
      hide Inv;
      CallKeepsInv(p, Now(), Step.Prefer(i));
      if i >= |records| { return Some(NotFound); }
      var current := records[i];
      if !current.status.Validated? || current.successes < 2 || current.failures > 0 { return Some(WrongStatus); }
      records := records[i := current.(status := Preferred)];
      RecordEvent(i, MadePreferred);
      return None;
    }

    method Deprecate(i: nat, evidence: string) returns (error: Option<Error>)
      modifies this
      ensures Did(old(Now()), DeprecateCapability(p, old(Now()), i, evidence), error)
      ensures Inv(old(Now())) ==> Inv(Now())
    {
      hide Inv;
      CallKeepsInv(p, Now(), Step.Deprecate(i, evidence));
      if p.blank(evidence) { return Some(MissingEvidence); }
      if i >= |records| { return Some(NotFound); }
      records := records[i := records[i].(status := Deprecated)];
      RecordEvent(i, WasDeprecated);
      return None;
    }
  }

  /** The reasons against the candidates for an operation, lowest rank first. */
  method CollectReasons(p: Platform, candidates: seq<Proposal>, operation: string) returns (reasons: seq<Reason>)
    ensures RefusedFor(p, candidates, operation, reasons)
  {
    hide Reasons;
    var order: seq<nat> := [];
    for k := 0 to |candidates|
      invariant forall x: nat :: x in order <==> x < k && operation in candidates[x].operations
      invariant InOrder(candidates, order)
    {
      if operation in candidates[k].operations {
        assert Below(order, k) by { assert forall i | 0 <= i < |order| :: order[i] in order; }
        PlacedInOrder(candidates, order, k);
        order := Placed(candidates, order, k);
      }
    }
    reasons := [];
    assert Within(candidates, order) by { assert forall i | 0 <= i < |order| :: order[i] in order; }
    for i := 0 to |order|
      invariant Within(candidates, order)
      invariant reasons == ReasonsOf(p, candidates, order[..i])
    {
      assert order[..i + 1][..i] == order[..i] && order[i] in order;
      reasons := reasons + Reasons(p, candidates[order[i]]);
    }
    assert order[..|order|] == order;
    if reasons == [] { reasons := [NoCandidate]; }
    assert Considered(candidates, operation, order);
  }

  /** planCapabilityAcquisition: the best reusable capability, or the best candidate. */
  method PlanAcquisition(p: Platform, db: Db, project: string, operation: string, candidates: seq<Proposal>)
    returns (plan: Plan)
    ensures Planned(p, db, project, operation, candidates, plan)
  {
    var best: Option<nat> := None;
    for i := 0 to |db.records|
      invariant best.None? ==> forall j: nat | j < i :: !Reusable(db, j, project, operation)
      invariant best.Some? ==> best.value < i && Reusable(db, best.value, project, operation)
      invariant best.Some? ==> forall j: nat | j < i && Reusable(db, j, project, operation) ::
                                 !Better(db.records[j], db.records[best.value]) &&
                                 (j < best.value ==> Better(db.records[best.value], db.records[j]))
    {
      if Reusable(db, i, project, operation) {
        if best.None? || Better(db.records[i], db.records[best.value]) { best := Some(i); }
      }
    }
    if best.Some? { return Reuse(best.value); }
    var next: Option<nat> := None;
    for k := 0 to |candidates|
      invariant next.None? ==> forall j: nat | j < k :: !Fitting(p, candidates[j], operation)
      invariant next.Some? ==> next.value < k && Fitting(p, candidates[next.value], operation)
      invariant next.Some? ==> forall j: nat | j < k && Fitting(p, candidates[j], operation) ::
                                 Rank(candidates[next.value].source.kind) <= Rank(candidates[j].source.kind) &&
                                 (j < next.value ==>
                                    Rank(candidates[next.value].source.kind) < Rank(candidates[j].source.kind))
    {
      hide Reasons;
      if Fitting(p, candidates[k], operation) {
        if next.None? || Rank(candidates[k].source.kind) < Rank(candidates[next.value].source.kind) { next := Some(k); }
      }
    }
    if next.Some? { return Acquire(next.value); }
    var reasons := CollectReasons(p, candidates, operation);
    plan := Refused(reasons);
  }
}
