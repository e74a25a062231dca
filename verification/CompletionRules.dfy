/**
 Which records bear on the proof set of a task, two record sets that are just enough, and what a progressive
 contract comes to (src/domain/completion.ts).
 */
module CompletionRules {
  import opened Wrappers
  import opened Completion

  function Only<T(!new)>(s: seq<T>, p: T -> bool): (r: seq<T>)
    ensures forall x :: x in r <==> x in s && p(x)
  {
    if s == [] then []
    else
      assert s == s[..|s| - 1] + [s[|s| - 1]];
      Only(s[..|s| - 1], p) + if p(s[|s| - 1]) then [s[|s| - 1]] else []
  }

  // ---------- What bears on the verifications ----------

  /** A verification that passed, was run to its end and belongs to the task. */
  predicate Passed(v: VerificationRun, task: nat) {
    v.task == task && v.passed && v.exitCode == Some(0) && v.started && v.ended
  }

  function PassedFor(task: nat): VerificationRun -> bool { (v: VerificationRun) => Passed(v, task) }

  function Severe(task: nat): Finding -> bool {
    (f: Finding) => f.task == task && f.open && (f.severity.Critical? || f.severity.Major?)
  }

  /** The rows that can matter: of this task, succeeded, passed, cited; open and severe findings; passing receipts. */
  function Bearing(r: Records, task: nat): Records {
    Records(
      Only(r.runs, (run: AgentRun) => run.task == task && run.succeeded),
      Only(r.verifications, PassedFor(task)),
      Only(r.evidence, (e: Evidence) => e.task == task && e.kind.VerificationEvidence? && e.ref.Some?),
      Only(r.findings, Severe(task)),
      Only(r.receipts, (x: Receipt) => x.task == task && x.passVerdict && x.succeeded),
      [])
  }

  lemma {:induction false} SameEffective(r: Records, q: Records, task: nat, c: Criteria, vs: seq<VerificationRun>,
          p: VerificationRun -> bool)
    requires forall v | v in vs :: Counts(r, task, c, v) <==> Counts(q, task, c, v)
    requires forall v | v in vs && Counts(r, task, c, v) :: p(v)
    ensures Effective(q, task, c, Only(vs, p)) == Effective(r, task, c, vs)
  {
    hide Counts;
    if vs != [] {
      var init, last := vs[..|vs| - 1], vs[|vs| - 1];
      assert vs == init + [last];
      SameEffective(r, q, task, c, init, p);
      EffectiveSnoc(r, task, c, init, last);
      EffectiveSnoc(q, task, c, Only(init, p), last);
      OnlySnoc(init, last, p);
      hide Effective, Only;
      assert Effective(q, task, c, Only(init, p)) + [] == Effective(q, task, c, Only(init, p));
      assert Only(init, p) + [] == Only(init, p);
    }
  }

  lemma EffectiveSnoc(r: Records, task: nat, c: Criteria, vs: seq<VerificationRun>, v: VerificationRun)
    ensures Effective(r, task, c, vs + [v]) == Effective(r, task, c, vs) + if Counts(r, task, c, v) then [v] else []
  {
    hide Counts;
    assert (vs + [v])[..|vs|] == vs;
  }

  lemma OnlySnoc<T(!new)>(s: seq<T>, x: T, p: T -> bool)
    ensures Only(s + [x], p) == Only(s, p) + if p(x) then [x] else []
  {
    assert (s + [x])[..|s|] == s;
  }

  lemma SameCounts(r: Records, task: nat, c: Criteria, v: VerificationRun)
    ensures Counts(r, task, c, v) <==> Counts(Bearing(r, task), task, c, v)
    ensures Counts(r, task, c, v) ==> Passed(v, task)
  {
    var q := Bearing(r, task);
    if Qualifies(r, task, v) {
      var run :| run in r.runs && run.id == v.agentRun && run.task == v.task && run.succeeded;
      assert run in q.runs;
      var e :| e in r.evidence && e.ref == Some(v.id) && e.kind.VerificationEvidence? && e.task == v.task;
      assert e in q.evidence;
    }
    if c.progressive.Some? && AtHead(r, v, c.progressive.value.candidateHead) && v.task == task {
      var run :| run in r.runs && run.id == v.agentRun && run.task == v.task && run.succeeded
                 && run.sourceHead == Some(c.progressive.value.candidateHead);
      assert run in q.runs;
    }
  }

  lemma SameImplementedBy(r: Records, task: nat, head: string, id: string)
    ensures ImplementedBy(r, task, head, id) <==> ImplementedBy(Bearing(r, task), task, head, id)
  {
    var q := Bearing(r, task);
    if ImplementedBy(r, task, head, id) {
      var run :| run in r.runs && run.id == id && run.task == task && (run.purpose.Implementation? || run.purpose.Repair?) &&
        run.succeeded && run.sourceHead == Some(head);
      assert run in q.runs;
    }
  }

  lemma SameReviewCounts(r: Records, task: nat, p: Progressive, requireProvenance: bool, review: AgentRun)
    ensures ReviewCounts(r, task, p, requireProvenance, review) <==> ReviewCounts(Bearing(r, task), task, p, requireProvenance, review)
    ensures ReviewCounts(r, task, p, requireProvenance, review) && review in r.runs ==> review in Bearing(r, task).runs
  {
    var q, head := Bearing(r, task), p.candidateHead;
    forall receipt
      ensures receipt in r.receipts && Authoritative(r, task, head, review, receipt) <==>
              receipt in q.receipts && Authoritative(q, task, head, review, receipt)
    {
      if receipt.reviewedRun.Some? { SameImplementedBy(r, task, head, receipt.reviewedRun.value); }
    }
    hide Authoritative;
    assert (exists receipt | receipt in r.receipts :: Authoritative(r, task, head, review, receipt)) <==>
           exists receipt | receipt in q.receipts :: Authoritative(q, task, head, review, receipt) by {
      if receipt :| receipt in r.receipts && Authoritative(r, task, head, review, receipt) { assert receipt in q.receipts; }
    }
  }

  lemma SameImplemented(r: Records, task: nat, head: string)
    ensures Implemented(r, task, head) <==> Implemented(Bearing(r, task), task, head)
  {
    var q := Bearing(r, task);
    if Implemented(r, task, head) {
      var run :| run in r.runs && ImplementedBy(r, task, head, run.id);
      SameImplementedBy(r, task, head, run.id);
      var one :| one in q.runs && one.id == run.id && one.task == task && (one.purpose.Implementation? || one.purpose.Repair?) &&
        one.succeeded && one.sourceHead == Some(head);
      assert ImplementedBy(q, task, head, one.id);
    }
    if Implemented(q, task, head) {
      var run :| run in q.runs && ImplementedBy(q, task, head, run.id);
      SameImplementedBy(r, task, head, run.id);
      assert run in r.runs;
    }
  }

  lemma SameReview(r: Records, task: nat, p: Progressive, requireProvenance: bool)
    ensures ReviewPassed(r, task, p, requireProvenance) <==> ReviewPassed(Bearing(r, task), task, p, requireProvenance)
  {
    var q := Bearing(r, task);
    SameImplemented(r, task, p.candidateHead);
    forall review
      ensures ReviewCounts(r, task, p, requireProvenance, review) <==> ReviewCounts(q, task, p, requireProvenance, review)
      ensures ReviewCounts(r, task, p, requireProvenance, review) && review in r.runs ==> review in q.runs
    {
      SameReviewCounts(r, task, p, requireProvenance, review);
    }
    assert forall review :: review in q.runs ==> review in r.runs;
    hide ReviewCounts, Implemented, Bearing;
  }

  lemma {:induction false} SameBlockers(fs: seq<Finding>, task: nat)
    ensures OpenBlockers(Only(fs, Severe(task)), task) == OpenBlockers(fs, task)
  {
    if fs != [] {
      var init, last := fs[..|fs| - 1], fs[|fs| - 1];
      assert fs == init + [last];
      SameBlockers(init, task);
      OnlySnoc(init, last, Severe(task));
      BlockersSnoc(init, last, task);
      BlockersSnoc(Only(init, Severe(task)), last, task);
      assert Blocking(last, task) <==> Severe(task)(last);
      hide Only, OpenBlockers;
      assert Only(init, Severe(task)) + [] == Only(init, Severe(task));
    }
  }

  lemma BlockersSnoc(fs: seq<Finding>, f: Finding, task: nat)
    ensures OpenBlockers(fs + [f], task) == OpenBlockers(fs, task) + if Blocking(f, task) then 1 else 0
  {
    assert (fs + [f])[..|fs|] == fs;
  }

  /** Main theorem: on the verifications, the review and the blockers of a task nothing bears but its own succeeded runs,
      its passed verifications, its citations, its open severe findings and its passing receipts. */
  lemma OnlyBearingRowsCount(r: Records, task: nat, c: Criteria, requireProvenance: bool)
    ensures VerificationsProven(r, task, c, requireProvenance) <==> VerificationsProven(Bearing(r, task), task, c, requireProvenance)
  {
    var q := Bearing(r, task);
    forall v ensures (Counts(r, task, c, v) <==> Counts(q, task, c, v)) && (Counts(r, task, c, v) ==> Passed(v, task)) {
      SameCounts(r, task, c, v);
    }
    hide Counts, Effective, ReviewPassed, OpenBlockers;
    SameEffective(r, q, task, c, r.verifications, PassedFor(task));
    SameBlockers(r.findings, task);
    if c.progressive.Some? { SameReview(r, task, c.progressive.value, requireProvenance); }
  }

  /** On the evidence nothing bears but the task's own evidence and verifications; on the decisions, the approved ones
      of the task in its project. */
  lemma OnlyOwnRowsCount(r: Records, task: nat, project: string, c: Criteria)
    ensures EvidenceProven(r, task, c) <==>
              EvidenceProven(r.(runs := [], evidence := Only(r.evidence, (e: Evidence) => e.task == task),
                                verifications := Only(r.verifications, (v: VerificationRun) => v.task == task)), task, c)
    ensures DecisionsProven(r, task, project, c) <==>
              DecisionsProven(r.(decisions := Only(r.decisions, (d: Decision) =>
                                   d.task == task && d.project == project && d.approved)), task, project, c)
  {
    EvidenceIsOwn(r, task, c);
    DecisionsAreOwn(r, task, project, c);
    hide EvidenceProven, DecisionsProven;
  }

  lemma EvidenceIsOwn(r: Records, task: nat, c: Criteria)
    ensures EvidenceProven(r, task, c) <==>
              EvidenceProven(r.(runs := [], evidence := Only(r.evidence, (e: Evidence) => e.task == task),
                                verifications := Only(r.verifications, (v: VerificationRun) => v.task == task)), task, c)
  {
    var q := r.(runs := [], evidence := Only(r.evidence, (e: Evidence) => e.task == task),
                verifications := Only(r.verifications, (v: VerificationRun) => v.task == task));
    forall e ensures Linked(r, task, e) <==> Linked(q, task, e) {
      if !e.kind.VerificationEvidence? {
      } else if v :| v in r.verifications && e.ref == Some(v.id) && v.task == task {
        assert v in q.verifications;
      }
    }
    hide Linked;
    if e :| e in r.evidence && e.task == task { assert e in q.evidence; }
    if e :| e in r.evidence && IsArtifact(e, task) { assert e in q.evidence; }
    assert forall e :: e in q.evidence <==> e in r.evidence && e.task == task;
  }

  lemma DecisionsAreOwn(r: Records, task: nat, project: string, c: Criteria)
    ensures DecisionsProven(r, task, project, c) <==>
              DecisionsProven(r.(decisions := Only(r.decisions, (d: Decision) =>
                                   d.task == task && d.project == project && d.approved)), task, project, c)
  {
    var q := r.(decisions := Only(r.decisions, (d: Decision) => d.task == task && d.project == project && d.approved));
    forall category ensures Approved(r, task, project, category) <==> Approved(q, task, project, category) {
      if Approved(r, task, project, category) {
        var d :| d in r.decisions && d.task == task && d.project == project && d.category == category && d.approved;
        assert d in q.decisions;
      }
    }
    hide Approved;
  }

  // ---------- What is enough ----------

  const PLAIN: Records := Records(
      [AgentRun("a", 0, OtherPurpose, true, None, None)],
      [VerificationRun("v", 0, "a", true, Some(0), true, true, None)],
      [Evidence(0, VerificationEvidence, Some("v"))],
      [Finding(0, true, Minor), Finding(0, false, Critical), Finding(1, true, Critical)],
      [], [])

  /** One passed and cited verification is enough for a task without criteria, minor and settled findings beside it. */
  lemma OneVerificationIsEnough(requireProvenance: bool)
    ensures Proven(PLAIN, 0, "p", DEFAULT_CRITERIA, requireProvenance)
  {
    var v, run, e := PLAIN.verifications[0], PLAIN.runs[0], PLAIN.evidence[0];
    assert run in PLAIN.runs && e in PLAIN.evidence && v in PLAIN.verifications;
    assert Counts(PLAIN, 0, DEFAULT_CRITERIA, v);
    assert v in Effective(PLAIN, 0, DEFAULT_CRITERIA, PLAIN.verifications);
    assert Linked(PLAIN, 0, e);
  }

  const HEAD := "h"
  const DEMANDING: Criteria := Criteria(1, true, ["scope"], Some(Progressive([], [], false, Independent, HEAD)))

  function CheckRun(id: string, subject: string): VerificationRun { VerificationRun(id, 0, "a", true, Some(0), true, true, Some(subject)) }

  const FULL: Records := Records(
      [AgentRun("a", 0, Implementation, true, Some(HEAD), None), AgentRun("b", 0, Review, true, Some(HEAD), None)],
      [CheckRun("1", FOCUSED_TESTS), CheckRun("2", CHEAPEST_BUILD), CheckRun("3", CRITICAL_PATH)],
      [Evidence(0, VerificationEvidence, Some("1")), Evidence(0, VerificationEvidence, Some("2")),
       Evidence(0, VerificationEvidence, Some("3")), Evidence(0, ArtifactEvidence, Some("file"))],
      [], [Receipt(0, "b", Some("a"), HEAD, true, true)], [Decision(0, "p", "scope", true)])

  lemma CheckCounts(i: nat)
    requires i < 3
    ensures Counts(FULL, 0, DEMANDING, FULL.verifications[i])
  {
    assert FULL.runs[0] in FULL.runs && FULL.evidence[i] in FULL.evidence;
  }

  /** The three base checks at the candidate's head, an independent review with its receipt, an artifact and the
      approved decision are enough for the demanding criteria. */
  lemma FullProofIsEnough()
    ensures Proven(FULL, 0, "p", DEMANDING, true)
  {
    ChecksAreEnough();
    ReviewIsEnough();
    EvidenceIsEnough();
    BaseChecks();
    hide Effective, ReviewPassed, EvidenceProven, DecisionsProven, Subjects, PlanProgressiveValidation, OpenBlockers;
    assert VerificationsProven(FULL, 0, DEMANDING, true) by { NoFindings(); }
  }

  lemma NoFindings()
    ensures OpenBlockers(FULL.findings, 0) == 0
  {
  }

  lemma BaseChecks()
    ensures PlanProgressiveValidation(DEMANDING.progressive.value) == Plan([FOCUSED_TESTS, CHEAPEST_BUILD, CRITICAL_PATH], false)
  {
  }

  lemma ChecksAreEnough()
    ensures var effective := Effective(FULL, 0, DEMANDING, FULL.verifications);
            && |effective| >= 1
            && (forall check | check in [FOCUSED_TESTS, CHEAPEST_BUILD, CRITICAL_PATH] :: check in Subjects(effective))
            && BROADER !in Subjects(effective)
  {
    var effective := Effective(FULL, 0, DEMANDING, FULL.verifications);
    forall i: nat | i < 3 ensures FULL.verifications[i] in effective {
      CheckCounts(i);
      assert FULL.verifications[i] in FULL.verifications;
    }
    hide Counts, Effective;
    NoBroader(effective);
    assert FULL.verifications[0] in effective && FULL.verifications[1] in effective && FULL.verifications[2] in effective;
  }

  lemma NoBroader(effective: seq<VerificationRun>)
    requires forall v | v in effective :: v in FULL.verifications
    ensures BROADER !in Subjects(effective)
  {
  }

  lemma ReviewIsEnough()
    ensures ReviewPassed(FULL, 0, DEMANDING.progressive.value, true)
  {
    var run, review, receipt := FULL.runs[0], FULL.runs[1], FULL.receipts[0];
    assert run in FULL.runs && review in FULL.runs && receipt in FULL.receipts;
    assert ImplementedBy(FULL, 0, HEAD, run.id);
    assert Authoritative(FULL, 0, HEAD, review, receipt);
    assert ReviewCounts(FULL, 0, DEMANDING.progressive.value, true, review);
  }

  lemma EvidenceIsEnough()
    ensures EvidenceProven(FULL, 0, DEMANDING) && DecisionsProven(FULL, 0, "p", DEMANDING)
  {
    forall i: nat | i < 3 ensures Linked(FULL, 0, FULL.evidence[i]) {
      assert FULL.verifications[i] in FULL.verifications;
    }
    assert FULL.evidence[3] in FULL.evidence && "file"[0] == 'f' && 'f' in "file";
    assert IsArtifact(FULL.evidence[3], 0);
    assert FULL.decisions[0] in FULL.decisions;
  }

  // ---------- What a progressive contract demands ----------

  /** A run of the task that succeeded at this head. */
  predicate RunAt(r: Records, task: nat, head: string, id: string, run: AgentRun) {
    run in r.runs && run.id == id && run.task == task && run.succeeded && run.sourceHead == Some(head)
  }

  /** There is a passed verification of this subject by a run at the head, and evidence of the task cites it. */
  ghost predicate Verified(r: Records, task: nat, head: string, subject: string) {
    exists v, run, e | v in r.verifications && RunAt(r, task, head, v.agentRun, run) && e in r.evidence ::
      && v.task == task && v.subject == Some(subject) && v.passed && v.exitCode == Some(0) && v.started && v.ended
      && e.task == task && e.kind.VerificationEvidence? && e.ref == Some(v.id)
  }

  lemma VerifiedExactly(r: Records, task: nat, c: Criteria, subject: string)
    requires c.progressive.Some?
    ensures subject in Subjects(Effective(r, task, c, r.verifications)) <==>
              Verified(r, task, c.progressive.value.candidateHead, subject)
  {
    var head, effective := c.progressive.value.candidateHead, Effective(r, task, c, r.verifications);
    hide Effective;
    if subject in Subjects(effective) {
      var v :| v in effective && v.subject == Some(subject);
      var run :| run in r.runs && run.id == v.agentRun && run.task == v.task && run.succeeded && run.sourceHead == Some(head);
      var e :| e in r.evidence && e.ref == Some(v.id) && e.kind.VerificationEvidence? && e.task == v.task;
      assert v in r.verifications && RunAt(r, task, head, v.agentRun, run);
    }
    if Verified(r, task, head, subject) {
      var v, run, e :| v in r.verifications && RunAt(r, task, head, v.agentRun, run) && e in r.evidence
                       && v.task == task && v.subject == Some(subject) && v.passed && v.exitCode == Some(0) && v.started && v.ended
                       && e.task == task && e.kind.VerificationEvidence? && e.ref == Some(v.id);
      assert Qualifies(r, task, v) && AtHead(r, v, head);
      assert v in effective;
    }
  }

  /** A review run of the task at the head. */
  predicate Reviews(r: Records, task: nat, head: string, run: AgentRun) {
    RunAt(r, task, head, run.id, run) && run.purpose.Review?
  }

  /** The run made or repaired the candidate. */
  predicate Makes(r: Records, task: nat, head: string, run: AgentRun) {
    RunAt(r, task, head, run.id, run) && (run.purpose.Implementation? || run.purpose.Repair?)
  }

  /** A review that has lost none of its independence, and a passing receipt that it was made of a run that made the
      candidate. */
  ghost predicate Reviewed(r: Records, task: nat, head: string) {
    exists review, made, receipt | Reviews(r, task, head, review) && Makes(r, task, head, made) && receipt in r.receipts ::
      && review.independenceLoss.None?
      && receipt == Receipt(task, review.id, Some(made.id), head, true, true)
  }

  lemma ReviewedExactly(r: Records, task: nat, p: Progressive)
    ensures ReviewPassed(r, task, p, true) <==>
              match p.review
              case NoReview => true
              case Focused => exists run :: Reviews(r, task, p.candidateHead, run)
              case Independent => Reviewed(r, task, p.candidateHead)
  {
    var head := p.candidateHead;
    forall id ensures ImplementedBy(r, task, head, id) <==> exists made :: Makes(r, task, head, made) && made.id == id {
      if ImplementedBy(r, task, head, id) {
        var run :| run in r.runs && run.id == id && run.task == task && (run.purpose.Implementation? || run.purpose.Repair?) &&
          run.succeeded && run.sourceHead == Some(head);
        assert Makes(r, task, head, run);
      }
    }
    hide ImplementedBy;
    if p.review.Focused? {
      FocusedExactly(r, task, p);
    } else if p.review.Independent? {
      IndependentExactly(r, task, p);
    }
  }

  lemma FocusedExactly(r: Records, task: nat, p: Progressive)
    requires p.review.Focused?
    ensures ReviewPassed(r, task, p, true) <==> exists run :: Reviews(r, task, p.candidateHead, run)
  {
    forall run ensures run in r.runs && ReviewCounts(r, task, p, true, run) <==> Reviews(r, task, p.candidateHead, run) {}
    hide ReviewCounts, Reviews;
  }

  lemma IndependentExactly(r: Records, task: nat, p: Progressive)
    requires p.review.Independent?
    requires forall id :: ImplementedBy(r, task, p.candidateHead, id) <==>
                          exists made :: Makes(r, task, p.candidateHead, made) && made.id == id
    ensures ReviewPassed(r, task, p, true) <==> Reviewed(r, task, p.candidateHead)
  {
    var head := p.candidateHead;
    hide ImplementedBy, Makes;
    if ReviewPassed(r, task, p, true) {
      var review :| review in r.runs && ReviewCounts(r, task, p, true, review);
      var receipt :| receipt in r.receipts && Authoritative(r, task, head, review, receipt);
      var made :| Makes(r, task, head, made) && made.id == receipt.reviewedRun.value;
      assert Reviews(r, task, head, review);
    }
    if Reviewed(r, task, head) {
      var review, made, receipt :| Reviews(r, task, head, review) && Makes(r, task, head, made) && receipt in r.receipts
                                   && review.independenceLoss.None? && receipt == Receipt(task, review.id, Some(made.id), head, true, true);
      assert ImplementedBy(r, task, head, made.id);
      MadeRuns(r, task, head, made);
      assert Authoritative(r, task, head, review, receipt);
      assert ReviewCounts(r, task, p, true, review);
    }
  }

  lemma MadeRuns(r: Records, task: nat, head: string, made: AgentRun)
    requires Makes(r, task, head, made)
    ensures made in r.runs
  {
  }

  /** Any trigger calls for broader validation. */
  lemma BroaderExactly(p: Progressive)
    ensures PlanProgressiveValidation(p).broaderValidationRequired <==> p.triggers != [] || p.policyRequiresBroadValidation
    ensures BROADER in PlanProgressiveValidation(p).requiredChecks <==> p.triggers != [] || p.policyRequiresBroadValidation
    ensures forall check | check in PlanProgressiveValidation(p).requiredChecks ::
              check in [FOCUSED_TESTS, CHEAPEST_BUILD, CRITICAL_PATH, RISK_SPECIFIC, BROADER]
    ensures forall check | check in [FOCUSED_TESTS, CHEAPEST_BUILD, CRITICAL_PATH] :: check in PlanProgressiveValidation(p).requiredChecks
  {
    if p.triggers != [] {
      var t := p.triggers[0];
      assert t in p.triggers;
      assert BROADER_VALIDATION_TRIGGERS[0] == BlastRadius && BROADER_VALIDATION_TRIGGERS[1] == SharedDependency
             && BROADER_VALIDATION_TRIGGERS[2] == InsufficientEvidence && BROADER_VALIDATION_TRIGGERS[3] == HistoricalRegression
             && BROADER_VALIDATION_TRIGGERS[4] == PromotionPolicy;
      assert t in BROADER_VALIDATION_TRIGGERS by {
        match t {
          case BlastRadius =>
          case SharedDependency =>
          case InsufficientEvidence =>
          case HistoricalRegression =>
          case PromotionPolicy =>
        }
      }
    }
    assert BROADER[0] != FOCUSED_TESTS[0] && BROADER[0] != CHEAPEST_BUILD[0] && BROADER[0] != RISK_SPECIFIC[0] && BROADER[0] != CRITICAL_PATH[0];
  }

  /** Main theorem: what the verifications and the review of a task under a progressive contract come to: enough
      verifications count; each base check, and each risk check of the contract, has one at the candidate's head;
      broader validation has one exactly when something calls for it; the review is there that the contract asks for;
      and no major or critical finding is open. */
  lemma ProgressiveExactly(r: Records, task: nat, c: Criteria)
    requires c.progressive.Some?
    ensures var p := c.progressive.value;
            VerificationsProven(r, task, c, true) <==>
              && |Effective(r, task, c, r.verifications)| >= c.minPassedVerificationRuns
              && (forall check | check in [FOCUSED_TESTS, CHEAPEST_BUILD, CRITICAL_PATH] :: Verified(r, task, p.candidateHead, check))
              && (forall check | check in p.riskSpecificChecks :: Verified(r, task, p.candidateHead, RiskSubject(check)))
              && (Verified(r, task, p.candidateHead, BROADER) <==> p.triggers != [] || p.policyRequiresBroadValidation)
              && (p.review.Focused? ==> exists run :: Reviews(r, task, p.candidateHead, run))
              && (p.review.Independent? ==> Reviewed(r, task, p.candidateHead))
              && (forall f | f in r.findings && f.task == task && f.open :: f.severity.Info? || f.severity.Minor?)
  {
    var p := c.progressive.value;
    forall subject ensures subject in Subjects(Effective(r, task, c, r.verifications)) <==> Verified(r, task, p.candidateHead, subject) {
      VerifiedExactly(r, task, c, subject);
    }
    ReviewedExactly(r, task, p);
    BroaderExactly(p);
    RiskIsNoSubject();
    hide Effective, Subjects, Verified, Reviewed, Reviews, ReviewPassed, PlanProgressiveValidation, RiskSubject, OpenBlockers;
  }

  lemma RiskIsNoSubject()
    ensures RISK_SPECIFIC !in [FOCUSED_TESTS, CHEAPEST_BUILD, CRITICAL_PATH, BROADER]
  {
    assert RISK_SPECIFIC[0] != FOCUSED_TESTS[0] && RISK_SPECIFIC[0] != CHEAPEST_BUILD[0] && RISK_SPECIFIC[0] != CRITICAL_PATH[0] && RISK_SPECIFIC[0] != BROADER[0];
  }

  /** What the evidence of a task has to be: some there is; all that speaks of a verification names one of the task; and
      where an artifact is asked for, one is named by more than white space. */
  lemma EvidenceExactly(r: Records, task: nat, c: Criteria)
    ensures EvidenceProven(r, task, c) <==>
              && (exists e :: e in r.evidence && e.task == task)
              && (forall e | e in r.evidence && e.task == task && e.kind.VerificationEvidence? ::
                    exists v | v in r.verifications :: v.task == task && e.ref == Some(v.id))
              && (c.requireArtifact ==> exists e, k: nat | e in r.evidence && e.ref.Some? && k < |e.ref.value| ::
                    e.task == task && e.kind.ArtifactEvidence? && e.ref.value[k] !in {' ', '\t', '\r', '\n'})
  {
    forall e: Evidence
      ensures IsArtifact(e, task) <==>
                e.task == task && e.kind.ArtifactEvidence? && e.ref.Some?
                && exists k: nat :: k < |e.ref.value| && e.ref.value[k] !in {' ', '\t', '\r', '\n'}
    {
      if e.ref.Some? { BlankExactly(e.ref.value); }
      hide Blank;
    }
    hide IsArtifact;
  }

  lemma BlankExactly(text: string)
    ensures Blank(text) <==> forall k: nat | k < |text| :: text[k] in {' ', '\t', '\r', '\n'}
  {
    if Blank(text) {
      forall k: nat | k < |text| ensures text[k] in {' ', '\t', '\r', '\n'} { assert text[k] in text; }
    }
    if forall k: nat | k < |text| :: text[k] in {' ', '\t', '\r', '\n'} {
      forall c | c in text ensures c in " \t\r\n" {
        var white := " \t\r\n";
        assert white[0] == ' ' && white[1] == '\t' && white[2] == '\r' && white[3] == '\n';
      }
    }
  }
}
