/**
 The proof set a task needs before it may be completed (src/domain/completion.ts), with the two
 delivery decisions it uses (src/domain/sdlc.ts).
 */
module Completion {
  import opened Wrappers

  // ---------- Criteria ----------

  datatype Trigger = BlastRadius | SharedDependency | InsufficientEvidence | HistoricalRegression | PromotionPolicy

  const BROADER_VALIDATION_TRIGGERS: seq<Trigger> :=
    [BlastRadius, SharedDependency, InsufficientEvidence, HistoricalRegression, PromotionPolicy]

  datatype ReviewLevel = NoReview | Focused | Independent

  /** The opt-in progressive contract; a valid one names its candidate head. */
  datatype Progressive = Progressive(
    riskSpecificChecks: seq<string>,
    triggers: seq<Trigger>,
    policyRequiresBroadValidation: bool,
    review: ReviewLevel,
    candidateHead: string)

  datatype Criteria = Criteria(
    minPassedVerificationRuns: nat,
    requireArtifact: bool,
    requiredDecisionCategories: seq<string>,
    progressive: Option<Progressive>)

  /** What `{}` parses to. */
  const DEFAULT_CRITERIA := Criteria(1, false, [], None)

  // ---------- Records ----------

  datatype Purpose = Implementation | Repair | Review | OtherPurpose
  datatype Severity = Info | Minor | Major | Critical
  datatype EvidenceKind = VerificationEvidence | ArtifactEvidence | OtherEvidence

  datatype AgentRun = AgentRun(
    id: string, task: nat, purpose: Purpose, succeeded: bool,
    sourceHead: Option<string>, independenceLoss: Option<string>)

  datatype VerificationRun = VerificationRun(
    id: string, task: nat, agentRun: string, passed: bool, exitCode: Option<int>,
    started: bool, ended: bool, subject: Option<string>)

  datatype Evidence = Evidence(task: nat, kind: EvidenceKind, ref: Option<string>)
  datatype Finding = Finding(task: nat, open: bool, severity: Severity)

  datatype Receipt = Receipt(
    task: nat, reviewRun: string, reviewedRun: Option<string>, sourceHead: string,
    passVerdict: bool, succeeded: bool)

  datatype Decision = Decision(task: nat, project: string, category: string, approved: bool)

  datatype Records = Records(
    runs: seq<AgentRun>, verifications: seq<VerificationRun>, evidence: seq<Evidence>,
    findings: seq<Finding>, receipts: seq<Receipt>, decisions: seq<Decision>)

  // ---------- sdlc.ts ----------

  const FOCUSED_TESTS := "focused_tests"
  const CHEAPEST_BUILD := "cheapest_compile_type_or_build"
  const CRITICAL_PATH := "critical_path_behavior"
  const RISK_SPECIFIC := "risk_specific_checks"
  const BROADER := "broader_validation"

  datatype Plan = Plan(requiredChecks: seq<string>, broaderValidationRequired: bool)

  predicate Blank(text: string) { forall c | c in text :: c in " \t\r\n" }

  function PlanProgressiveValidation(p: Progressive): Plan {
    var active := exists t | t in BROADER_VALIDATION_TRIGGERS :: t in p.triggers;
    var broad := active || p.policyRequiresBroadValidation;
    var risk := exists check | check in p.riskSpecificChecks :: !Blank(check);
    Plan(
      [FOCUSED_TESTS, CHEAPEST_BUILD, CRITICAL_PATH] +
      (if risk then [RISK_SPECIFIC] else []) + (if broad then [BROADER] else []),
      broad)
  }

  datatype Blocker = EvidenceMissing | ReviewNotPassed | BlockersRemain

  function AssessPromotion(evidencePassed: bool, review: ReviewLevel, reviewPassed: bool, blockers: nat): seq<Blocker> {
    (if !evidencePassed then [EvidenceMissing] else []) +
    (if !review.NoReview? && !reviewPassed then [ReviewNotPassed] else []) +
    (if blockers > 0 then [BlockersRemain] else [])
  }

  // ---------- Queries ----------

  /** A passed run counts when it exited 0, has both timestamps, belongs to a succeeded run of the
      same task, and is cited by evidence of that task. */
  predicate Qualifies(r: Records, task: nat, v: VerificationRun) {
    && v.task == task && v.passed && v.exitCode == Some(0) && v.started && v.ended
    && (exists run | run in r.runs :: run.id == v.agentRun && run.task == v.task && run.succeeded)
    && (exists e | e in r.evidence :: e.ref == Some(v.id) && e.kind.VerificationEvidence? && e.task == v.task)
  }

  predicate AtHead(r: Records, v: VerificationRun, head: string) {
    exists run | run in r.runs :: run.id == v.agentRun && run.task == v.task && run.succeeded && run.sourceHead == Some(head)
  }

  predicate Counts(r: Records, task: nat, c: Criteria, v: VerificationRun) {
    Qualifies(r, task, v) && (c.progressive.Some? ==> AtHead(r, v, c.progressive.value.candidateHead))
  }

  function Effective(r: Records, task: nat, c: Criteria, vs: seq<VerificationRun>): (out: seq<VerificationRun>)
    ensures forall v :: v in out <==> v in vs && Counts(r, task, c, v)
  {
    if vs == [] then []
    else
      assert vs == vs[..|vs| - 1] + [vs[|vs| - 1]];
      Effective(r, task, c, vs[..|vs| - 1]) +
      if Counts(r, task, c, vs[|vs| - 1]) then [vs[|vs| - 1]] else []
  }

  predicate Blocking(f: Finding, task: nat) {
    f.task == task && f.open && (f.severity.Critical? || f.severity.Major?)
  }

  function OpenBlockers(fs: seq<Finding>, task: nat): (n: nat)
    ensures n == 0 <==> forall f | f in fs :: !Blocking(f, task)
  {
    if fs == [] then 0
    else
      assert fs == fs[..|fs| - 1] + [fs[|fs| - 1]];
      OpenBlockers(fs[..|fs| - 1], task) + if Blocking(fs[|fs| - 1], task) then 1 else 0
  }

  function Subjects(vs: seq<VerificationRun>): set<string> {
    set v | v in vs && v.subject.Some? :: v.subject.value
  }

  predicate ImplementedBy(r: Records, task: nat, head: string, id: string) {
    exists run | run in r.runs ::
      run.id == id && run.task == task && (run.purpose.Implementation? || run.purpose.Repair?) &&
      run.succeeded && run.sourceHead == Some(head)
  }

  predicate Implemented(r: Records, task: nat, head: string) {
    exists run | run in r.runs :: ImplementedBy(r, task, head, run.id)
  }

  /** A receipt that makes `review` an independent review of a candidate run. */
  predicate Authoritative(r: Records, task: nat, head: string, review: AgentRun, receipt: Receipt) {
    && receipt.task == task && receipt.reviewRun == review.id
    && receipt.reviewedRun.Some? && ImplementedBy(r, task, head, receipt.reviewedRun.value)
    && receipt.sourceHead == head && receipt.passVerdict && receipt.succeeded
  }

  predicate ReviewCounts(r: Records, task: nat, p: Progressive, requireProvenance: bool, review: AgentRun) {
    && review.task == task && review.purpose.Review? && review.succeeded
    && review.sourceHead == Some(p.candidateHead)
    && (p.review.Independent? && requireProvenance ==>
          && review.independenceLoss.None?
          && exists receipt | receipt in r.receipts :: Authoritative(r, task, p.candidateHead, review, receipt))
  }

  predicate ReviewPassed(r: Records, task: nat, p: Progressive, requireProvenance: bool) {
    || p.review.NoReview?
    || (&& (exists review | review in r.runs :: ReviewCounts(r, task, p, requireProvenance, review))
        && (p.review.Independent? ==> Implemented(r, task, p.candidateHead)))
  }

  function Missing(checks: seq<string>, proven: set<string>): (out: seq<string>)
    ensures out == [] <==> forall check | check in checks :: check == RISK_SPECIFIC || check in proven
  {
    if checks == [] then []
    else
      assert checks == checks[..|checks| - 1] + [checks[|checks| - 1]];
      var last := checks[|checks| - 1];
      Missing(checks[..|checks| - 1], proven) +
      if last != RISK_SPECIFIC && last !in proven then [last] else []
  }

  function RiskSubject(check: string): string { "risk_specific_check:" + check }

  function MissingRisk(checks: seq<string>, proven: set<string>): (out: seq<string>)
    ensures out == [] <==> forall check | check in checks :: RiskSubject(check) in proven
  {
    if checks == [] then []
    else
      assert checks == checks[..|checks| - 1] + [checks[|checks| - 1]];
      var last := checks[|checks| - 1];
      MissingRisk(checks[..|checks| - 1], proven) + if RiskSubject(last) !in proven then [last] else []
  }

  // ---------- The proof set ----------

  datatype Failure =
    | TooFewVerifications(required: nat, found: nat)
    | MissingRiskChecks(checks: seq<string>)
    | MissingChecks(checks: seq<string>)
    | UntriggeredBroaderValidation
    | Promotion(blocker: Blocker)
    | OpenBlockerFindings(n: nat)
    | NoEvidence
    | DanglingEvidence(evidence: Evidence)
    | NoArtifact
    | NoDecision(category: string)

  predicate Linked(r: Records, task: nat, e: Evidence) {
    !e.kind.VerificationEvidence? || exists v | v in r.verifications :: e.ref == Some(v.id) && v.task == task
  }

  predicate IsArtifact(e: Evidence, task: nat) {
    e.task == task && e.kind.ArtifactEvidence? && e.ref.Some? && !Blank(e.ref.value)
  }

  predicate Approved(r: Records, task: nat, project: string, category: string) {
    exists d | d in r.decisions :: d.task == task && d.project == project && d.category == category && d.approved
  }

  ghost predicate VerificationsProven(r: Records, task: nat, c: Criteria, requireProvenance: bool) {
    var effective := Effective(r, task, c, r.verifications);
    && |effective| >= c.minPassedVerificationRuns
    && (c.progressive.None? ==> OpenBlockers(r.findings, task) == 0)
    && (c.progressive.Some? ==> ProgressiveProven(r, task, c.progressive.value, Subjects(effective), requireProvenance))
  }

  ghost predicate EvidenceProven(r: Records, task: nat, c: Criteria) {
    && (exists e | e in r.evidence :: e.task == task)
    && (forall e | e in r.evidence && e.task == task :: Linked(r, task, e))
    && (c.requireArtifact ==> exists e | e in r.evidence :: IsArtifact(e, task))
  }

  ghost predicate DecisionsProven(r: Records, task: nat, project: string, c: Criteria) {
    forall category | category in c.requiredDecisionCategories :: Approved(r, task, project, category)
  }

  /** What the proof set demands. */
  ghost predicate Proven(r: Records, task: nat, project: string, c: Criteria, requireProvenance: bool) {
    && VerificationsProven(r, task, c, requireProvenance)
    && EvidenceProven(r, task, c)
    && DecisionsProven(r, task, project, c)
  }

  ghost predicate ProgressiveProven(r: Records, task: nat, p: Progressive, proven: set<string>,
          requireProvenance: bool) {
    var plan := PlanProgressiveValidation(p);
    && (forall check | check in plan.requiredChecks :: check == RISK_SPECIFIC || check in proven)
    && (forall check | check in p.riskSpecificChecks :: RiskSubject(check) in proven)
    && (!plan.broaderValidationRequired ==> BROADER !in proven)
    && ReviewPassed(r, task, p, requireProvenance)
    && OpenBlockers(r.findings, task) == 0
  }

  function AsFailures(blockers: seq<Blocker>): (out: seq<Failure>)
    ensures |out| == |blockers|
  {
    seq(|blockers|, i requires 0 <= i < |blockers| => Promotion(blockers[i]))
  }

  /** The middle part of the evaluation, for criteria with a progressive contract. */
  method CheckProgressive(r: Records, task: nat, c: Criteria, effective: seq<VerificationRun>, requireProvenance: bool)
    returns (failures: seq<Failure>)
    requires c.progressive.Some?
    ensures |effective| >= c.minPassedVerificationRuns ==>
      (failures == [] <==> ProgressiveProven(r, task, c.progressive.value, Subjects(effective), requireProvenance))
  {
    var p := c.progressive.value;
    var plan := PlanProgressiveValidation(p);
    var proven := Subjects(effective);
    var missing, missingRisk := Missing(plan.requiredChecks, proven), MissingRisk(p.riskSpecificChecks, proven);
    failures := [];
    if missingRisk != [] { failures := failures + [MissingRiskChecks(missingRisk)]; }
    if missing != [] { failures := failures + [MissingChecks(missing)]; }
    if !plan.broaderValidationRequired && BROADER in proven {
      failures := failures + [UntriggeredBroaderValidation];
    }
    var blockers := AssessPromotion(
      |effective| >= c.minPassedVerificationRuns && missing == [] && missingRisk == [],
      p.review, ReviewPassed(r, task, p, requireProvenance), OpenBlockers(r.findings, task));
    failures := failures + AsFailures(blockers);
  }

  /** The verification and review part of the evaluation. */
  method CheckVerifications(r: Records, task: nat, c: Criteria, requireProvenance: bool)
    returns (failures: seq<Failure>)
    ensures failures == [] <==> VerificationsProven(r, task, c, requireProvenance)
  {
    failures := [];
    var effective := Effective(r, task, c, r.verifications);
    if |effective| < c.minPassedVerificationRuns {
      failures := failures + [TooFewVerifications(c.minPassedVerificationRuns, |effective|)];
    }
    var open := OpenBlockers(r.findings, task);
    if c.progressive.Some? {
      var more := CheckProgressive(r, task, c, effective, requireProvenance);
      failures := failures + more;
    } else if open > 0 {
      failures := failures + [OpenBlockerFindings(open)];
    }
  }

  /** The evidence part: some evidence, none of it dangling, and an artifact if one is required. */
  method CheckEvidence(r: Records, task: nat, c: Criteria) returns (failures: seq<Failure>)
    ensures failures == [] <==> EvidenceProven(r, task, c)
  {
    failures := [];
    var found, artifact := false, false;
    for i := 0 to |r.evidence|
      invariant found <==> exists e | e in r.evidence[..i] :: e.task == task
      invariant artifact <==> exists e | e in r.evidence[..i] :: IsArtifact(e, task)
      invariant failures == [] <==> forall e | e in r.evidence[..i] && e.task == task :: Linked(r, task, e)
    {
      var e := r.evidence[i];
      assert r.evidence[..i + 1] == r.evidence[..i] + [e];
      if e.task == task { found := true; }
      if e.task == task && !Linked(r, task, e) { failures := failures + [DanglingEvidence(e)]; }
      if IsArtifact(e, task) { artifact := true; }
    }
    assert r.evidence[..|r.evidence|] == r.evidence;
    if !found { failures := [NoEvidence] + failures; }
    if c.requireArtifact && !artifact { failures := failures + [NoArtifact]; }
  }

  method CheckDecisions(r: Records, task: nat, project: string, c: Criteria) returns (failures: seq<Failure>)
    ensures failures == [] <==> DecisionsProven(r, task, project, c)
  {
    failures := [];
    var categories := c.requiredDecisionCategories;
    for i := 0 to |categories|
      invariant failures == [] <==> forall k | k in categories[..i] :: Approved(r, task, project, k)
    {
      assert categories[..i + 1] == categories[..i] + [categories[i]];
      if !Approved(r, task, project, categories[i]) { failures := failures + [NoDecision(categories[i])]; }
    }
    assert categories[..|categories|] == categories;
  }

  /** evaluateCompletionProof: it reports no failure exactly when the proof set holds. */
  method EvaluateCompletionProof(r: Records, task: nat, project: string, c: Criteria, requireProvenance: bool)
    returns (failures: seq<Failure>)
    ensures failures == [] <==> Proven(r, task, project, c, requireProvenance)
  {
    hide VerificationsProven, EvidenceProven, DecisionsProven;
    failures := CheckVerifications(r, task, c, requireProvenance);
    var more := CheckEvidence(r, task, c);
    failures := failures + more;
    more := CheckDecisions(r, task, project, c);
    failures := failures + more;
  }

  // ---------- Properties ----------

  /** Dropping the demand for review provenance never takes a proof away. */
  lemma ProofSurvivesWithoutProvenance(r: Records, task: nat, project: string, c: Criteria)
    requires Proven(r, task, project, c, true)
    ensures Proven(r, task, project, c, false)
  {
    if c.progressive.Some? && !c.progressive.value.review.NoReview? {
      var p := c.progressive.value;
      var review :| review in r.runs && ReviewCounts(r, task, p, true, review);
      assert ReviewCounts(r, task, p, false, review);
    }
  }

  /** Exactly what provenance adds: for an independent review, a succeeded review of the candidate that
      lost no independence and has an authoritative receipt for an implementation run of that candidate. */
  lemma WhatProvenanceAdds(r: Records, task: nat, project: string, c: Criteria)
    ensures Proven(r, task, project, c, true) <==>
      && Proven(r, task, project, c, false)
      && (c.progressive.Some? && c.progressive.value.review.Independent? ==>
            exists review | review in r.runs :: ReviewCounts(r, task, c.progressive.value, true, review))
  {
    if Proven(r, task, project, c, true) {
      ProofSurvivesWithoutProvenance(r, task, project, c);
    }
    if Proven(r, task, project, c, false) && c.progressive.Some? && c.progressive.value.review.Focused? {
      var p := c.progressive.value;
      var review :| review in r.runs && ReviewCounts(r, task, p, false, review);
      assert ReviewCounts(r, task, p, true, review);
    }
  }

  /** No proof set holds for a task that lacks a qualifying run cited by its own evidence,
      or that has an open blocking finding, whatever its criteria say. */
  lemma ProofNeedsQualifyingRun(r: Records, task: nat, project: string, c: Criteria, requireProvenance: bool)
    requires c.minPassedVerificationRuns >= 1 && Proven(r, task, project, c, requireProvenance)
    ensures exists v | v in r.verifications :: Qualifies(r, task, v)
    ensures forall f | f in r.findings :: !Blocking(f, task)
  {
    var effective := Effective(r, task, c, r.verifications);
    assert effective[0] in effective;
  }
}
