/**
 What a successful call leaves in the learning stores, and which calls a settled record owes its status to
 (src/learning/candidates.ts).
 */
module LearningOutcomes {
  import opened Wrappers
  import opened LearningRecords
  import Legacy = LegacyMigration
  import opened LegacyMerge
  import opened LearningStore
  import opened LearningRuns

  // ---------- One call ----------

  /** Only the call's project has changed. */
  ghost predicate OnlyStore(w: World, r: World, project: string) {
    r.global == w.global && r.nextId == w.nextId && forall other | other != project :: Store(r, other) == Store(w, other)
  }

  /** Record i, which was open under that id, has the status and the scope; beside its evidence, its link and its time
      nothing of it has changed, and nothing of the other records. */
  ghost predicate Settles(w: World, r: World, project: string, id: nat, i: nat, status: Status, scope: Scope, now: int) {
    var s, after := Store(w, project), Store(r, project);
    && OnlyStore(w, r, project)
    && |after| == |s| && i < |s|
    && s[i].id == id && (forall j | 0 <= j < |s| && j != i :: s[j].id != id && after[j] == s[j])
    && after[i].status == status && after[i].scope == scope && after[i].updatedAt == now
    && after[i].(status := s[i].status, scope := s[i].scope, updatedAt := s[i].updatedAt, evidence := s[i].evidence,
                 promotedTo := s[i].promotedTo) == s[i]
  }

  /** The item has joined the evidence, and nothing else. */
  predicate Joined(before: seq<string>, after: seq<string>, item: string) {
    && item in after
    && (forall e | e in before :: e in after)
    && (forall e | e in after :: e in before || e == item)
  }

  lemma AddingJoins(evidence: seq<string>, item: string)
    ensures Joined(evidence, Adding(evidence, item), item)
  {
  }

  lemma OneRecord(s: seq<Candidate>, i: nat, id: nat)
    requires Legacy.Distinct(s) && i < |s| && s[i].id == id
    ensures forall j | 0 <= j < |s| && j != i :: s[j].id != id
  {
    forall j | 0 <= j < |s| && j != i ensures s[j].id != id {
      assert i < j ==> s[i].id != s[j].id;
      assert j < i ==> s[j].id != s[i].id;
    }
  }

  lemma ChangedSettles(t: Text, w: World, project: string, i: nat, c: Candidate, now: int)
    requires Faithful(t) && Inv(t, w) && i < |Store(w, project)| && Clean(t, c)
    requires var d := Store(w, project)[i];
             c == d.(status := c.status, scope := c.scope, updatedAt := now, evidence := c.evidence, promotedTo := c.promotedTo)
    ensures Settles(w, Changed(t, w, project, i, c), project, c.id, i, c.status, c.scope, now)
    ensures i < |Store(Changed(t, w, project, i, c), project)| && Store(Changed(t, w, project, i, c), project)[i] == c
  {
    var s := Store(w, project);
    StoreAt(t, w, project);
    OneRecord(s, i, c.id);
    CleanIsSanitized(t, s[i := c]);
  }

  /** Main theorem: after a promotion to the project its open record is promoted, in the scope of the project, with
      the redacted evidence among its evidence; all else is as it was. */
  lemma PromotionPromotes(t: Text, w: World, project: string, id: nat, evidence: string, now: int) returns (i: nat)
    requires Faithful(t) && Inv(t, w) && PromoteToProject(t, w, project, id, evidence, now).Ok?
    ensures var r := PromoteToProject(t, w, project, id, evidence, now).value;
            && Settles(w, r, project, id, i, Promoted, Project, now) && Store(w, project)[i].status.Open?
            && r.pending == w.pending && Store(r, project)[i].promotedTo == Store(w, project)[i].promotedTo
            && Joined(Store(w, project)[i].evidence, Store(r, project)[i].evidence, t.redact(t.trim(evidence)))
  {
    StoreAt(t, w, project);
    i := OpenCandidate(t, w, project, id).value;
    var c, e := Store(w, project)[i], t.redact(t.trim(evidence));
    OccursOnce(t, Store(w, project), i, w.nextId);
    AddingKeeps(t, c.evidence, e);
    AddingJoins(c.evidence, e);
    ChangedSettles(t, w, project, i, c.(evidence := Adding(c.evidence, e), status := Promoted, scope := Project, updatedAt := now), now);
  }

  /** Main theorem: after a dismissal the project's open record is dismissed, in the scope it had. */
  lemma DismissalDismisses(t: Text, w: World, project: string, id: nat, evidence: string, now: int) returns (i: nat)
    requires Faithful(t) && Inv(t, w) && DismissLocal(t, w, project, id, evidence, now).Ok?
    ensures var r := DismissLocal(t, w, project, id, evidence, now).value;
            && i < |Store(w, project)| && Settles(w, r, project, id, i, Dismissed, Store(w, project)[i].scope, now)
            && Store(w, project)[i].status.Open?
            && r.pending == w.pending && Store(r, project)[i].promotedTo == Store(w, project)[i].promotedTo
            && Joined(Store(w, project)[i].evidence, Store(r, project)[i].evidence, t.redact(t.trim(evidence)))
  {
    StoreAt(t, w, project);
    i := OpenCandidate(t, w, project, id).value;
    var c, e := Store(w, project)[i], t.redact(t.trim(evidence));
    OccursOnce(t, Store(w, project), i, w.nextId);
    AddingKeeps(t, c.evidence, e);
    AddingJoins(c.evidence, e);
    ChangedSettles(t, w, project, i, c.(status := Dismissed, updatedAt := now, evidence := Adding(c.evidence, e)), now);
  }

  /** Main theorem: the second write of a promotion to all projects promotes the project's record and links it to the
      global one; the promotion is no longer under way. */
  lemma FinishLinks(t: Text, w: World, k: nat, now: int) returns (i: nat)
    requires Faithful(t) && Inv(t, w) && FinishGlobal(t, w, k, now).Ok?
    ensures k < |w.pending|
    ensures var p, r := w.pending[k], FinishGlobal(t, w, k, now).value;
            && Settles(w, r, p.project, p.candidate, i, Promoted, Project, now)
            && Store(r, p.project)[i].promotedTo == Some(p.promoted)
            && Store(r, p.project)[i].evidence == Store(w, p.project)[i].evidence
            && r.pending == w.pending[..k] + w.pending[k + 1..]
  {
    var p := w.pending[k];
    StoreAt(t, w, p.project);
    var s := Store(w, p.project);
    i := FindId(s, p.candidate);
    OccursOnce(t, s, i, w.nextId);
    ChangedSettles(t, w, p.project, i, s[i].(status := Promoted, scope := Project, promotedTo := Some(p.promoted), updatedAt := now), now);
  }

  /** The record of a lesson that is seen again. */
  predicate SeenOnceMore(t: Text, input: Capture, a: Candidate, b: Candidate, now: int) {
    && b.occurrences == a.occurrences + 1 && b.updatedAt == now
    && (if input.evidence.Some? && input.evidence.value != "" && t.redact(input.evidence.value) != ""
        then Joined(a.evidence, b.evidence, t.redact(input.evidence.value)) else b.evidence == a.evidence)
    && b.scope == (if input.scope == Some(Project) && a.scope.Undecided? then Project else a.scope)
    && b.(occurrences := a.occurrences, updatedAt := a.updatedAt, evidence := a.evidence, scope := a.scope) == a
  }

  /** The record of a new lesson. */
  predicate SeenFirst(t: Text, input: Capture, summary: string, key: Option<string>, project: string, id: nat, c: Candidate, now: int) {
    && c.id == id && c.key == key && c.project == Some(project) && c.repoPath == input.repoPath && c.source == input.source
    && c.summary == summary && c.occurrences == 1 && c.status.Open? && c.promotedTo.None? && c.createdAt == now == c.updatedAt
    && c.scope == (if input.scope.Some? then input.scope.value else Undecided)
    && c.evidence == (if input.evidence.Some? && input.evidence.value != "" then [t.redact(input.evidence.value)] else [])
  }

  predicate About(t: Text, c: Candidate, key: Option<string>, folded: string) { c.status.Open? && SameLesson(t, c, key, folded) }

  /** The capture counts on record i, the first open one of its lesson, or i is a new record behind all others. */
  ghost predicate Counts(t: Text, s: seq<Candidate>, after: seq<Candidate>, input: Capture, summary: string, key: Option<string>,
          project: string, id: nat, i: nat, now: int)
  {
    && i < |after| && (forall j | 0 <= j < |s| && j != i :: j < |after| && after[j] == s[j])
    && (forall j | 0 <= j < i :: j < |s| && !About(t, s[j], key, t.fold(summary)))
    && (if i < |s| then |after| == |s| && About(t, s[i], key, t.fold(summary)) && SeenOnceMore(t, input, s[i], after[i], now)
        else |after| == |s| + 1 && SeenFirst(t, input, summary, key, project, id, after[i], now))
  }

  lemma CaptureCountsIn(t: Text, s: seq<Candidate>, input: Capture, summary: string, key: Option<string>, project: string,
          id: nat, now: int) returns (i: nat)
    ensures Counts(t, s, AfterCapture(t, s, input, summary, key, project, id, now), input, summary, key, project, id, i, now)
  {
    var p := (c: Candidate) => c.status.Open? && SameLesson(t, c, key, t.fold(summary));
    i := First(s, p);
    forall j | 0 <= j < i ensures !About(t, s[j], key, t.fold(summary)) { assert !p(s[j]); }
    if i < |s| {
      assert p(s[i]);
      SeenAgainIs(t, s[i], input, key, t.fold(summary), now);
    }
  }

  lemma SeenAgainIs(t: Text, c: Candidate, input: Capture, key: Option<string>, folded: string, now: int)
    requires SameLesson(t, c, key, folded)
    ensures SeenOnceMore(t, input, c, SeenAgain(t, c, input, key, now), now)
  {
    if input.evidence.Some? { AddingJoins(c.evidence, t.redact(input.evidence.value)); }
  }

  /** Main theorem: a capture counts on the first open record of its lesson, or adds an open record that has been seen
      once, with the redacted summary and evidence; all other records and stores are as they were. */
  lemma CaptureCounts(t: Text, w: World, input: Capture, now: int) returns (i: nat)
    requires Faithful(t) && Inv(t, w) && DoCapture(t, w, input, now).Ok?
    ensures input.project.Some? && KeyOf(t, input.key).Ok?
    ensures var project, r := t.trim(input.project.value), DoCapture(t, w, input, now).value;
            && r.global == w.global && r.pending == w.pending && r.nextId == w.nextId + 1
            && (forall other | other != project :: Store(r, other) == Store(w, other))
            && Counts(t, Store(w, project), Store(r, project), input, t.redact(t.trim(input.summary)), KeyOf(t, input.key).value,
                      project, w.nextId, i, now)
  {
    var project, summary, key := t.trim(input.project.value), t.redact(t.trim(input.summary)), KeyOf(t, input.key).value;
    CaptureIs(t, w, input, now);
    hide Inv, Faithful, AfterCapture, Counts, DoCapture, KeyOf;
    i := CaptureCountsIn(t, Store(w, project), input, summary, key, project, w.nextId, now);
  }

  lemma CaptureIs(t: Text, w: World, input: Capture, now: int)
    requires Faithful(t) && Inv(t, w) && DoCapture(t, w, input, now).Ok?
    ensures input.project.Some? && KeyOf(t, input.key).Ok?
    ensures var project, key := t.trim(input.project.value), KeyOf(t, input.key).value;
            var after := AfterCapture(t, Store(w, project), input, t.redact(t.trim(input.summary)), key, project, w.nextId, now);
            DoCapture(t, w, input, now).value == w.(projects := w.projects[project := after], nextId := w.nextId + 1)
  {
    var project, summary, key := t.trim(input.project.value), t.redact(t.trim(input.summary)), KeyOf(t, input.key).value;
    StoreAt(t, w, project);
    RedactTwice(t, t.trim(input.summary));
    CaptureUnfolds(t, w, input, now);
    CaptureKeepsStore(t, Store(w, project), input, summary, key, project, w.nextId, now);
    hide Inv, GlobalInv, StoreInv, Faithful, Sanitized, AfterCapture, Apart, HasId, Total, Locked, DoCapture, Store;
  }

  lemma CaptureUnfolds(t: Text, w: World, input: Capture, now: int)
    requires DoCapture(t, w, input, now).Ok?
    ensures input.project.Some? && KeyOf(t, input.key).Ok?
    ensures var project, key := t.trim(input.project.value), KeyOf(t, input.key).value;
            var after := AfterCapture(t, Sanitized(t.redact, Store(w, project)), input, t.redact(t.trim(input.summary)), key,
                                      project, w.nextId, now);
            DoCapture(t, w, input, now).value ==
            w.(projects := w.projects[project := Sanitized(t.redact, after)], nextId := w.nextId + 1)
  {
    hide KeyOf, AfterCapture, Sanitized, Locked, Store;
  }

  // ---------- The global store ----------

  /** Main theorem: the first write of a promotion to all projects counts the candidate's occurrences once for each
      evidence digest, on the promoted global record that says the same, or on a new one; the projects are as they
      were, and the promotion is under way. */
  lemma PromotionReachesAll(t: Text, w: World, project: string, id: nat, summary: string, evidence: string, setting: Setting,
          now: int) returns (i: nat, k: nat)
    requires Faithful(t) && Inv(t, w) && BeginGlobal(t, w, project, id, summary, evidence, setting, now).Ok?
    ensures i < |Store(w, project)| && Store(w, project)[i].id == id && Store(w, project)[i].status.Open?
    ensures Store(w, project)[i].occurrences >= 2 && setting.allowed == Some(true)
    ensures var r := BeginGlobal(t, w, project, id, summary, evidence, setting, now).value;
            var g, after, c := w.global, r.global, Store(w, project)[i];
            var digest := t.promotionDigest(t.trim(evidence));
            && r.projects == w.projects && k < |after| && r.pending == w.pending + [Pending(project, id, after[k].id)]
            && (forall j | 0 <= j < |g| && j != k :: j < |after| && after[j] == g[j])
            && after[k].status.Promoted? && after[k].updatedAt == now && digest in after[k].evidence
            && (if k < |g| then
                  && |after| == |g| && g[k].status.Promoted? && t.fold(g[k].summary) == t.fold(t.trim(summary))
                  && (if digest in g[k].evidence then after[k].(updatedAt := g[k].updatedAt) == g[k]
                      else after[k].(updatedAt := g[k].updatedAt, evidence := g[k].evidence, occurrences := g[k].occurrences) == g[k]
                           && after[k].occurrences == g[k].occurrences + c.occurrences && after[k].evidence == g[k].evidence + [digest])
                else
                  && |after| == |g| + 1 && (forall j | 0 <= j < |g| && g[j].status.Promoted? :: t.fold(g[j].summary) != t.fold(t.trim(summary)))
                  && after[k] == Candidate(w.nextId, None, None, None, c.source, t.trim(summary), Global, c.occurrences, [digest],
                                           Promoted, None, now, now))
  {
    BeginIs(t, w, project, id, summary, evidence, setting, now);
    BeginParts(t, w, project, id, summary, evidence, setting, now);
    BeginAllowed(t, w, project, id, summary, evidence, setting, now);
    i := OpenCandidate(t, w, project, id).value;
    var same := (x: Candidate) => x.status.Promoted? && t.fold(x.summary) == t.fold(t.trim(summary));
    k := First(w.global, same);
    hide Inv, Faithful, BeginGlobal, OpenCandidate;
    assert k < |w.global| ==> same(w.global[k]);
    if k == |w.global| {
      forall j | 0 <= j < |w.global| && w.global[j].status.Promoted?
        ensures t.fold(w.global[j].summary) != t.fold(t.trim(summary)) { assert !same(w.global[j]); }
    }
  }

  lemma BeginAllowed(t: Text, w: World, project: string, id: nat, summary: string, evidence: string, setting: Setting, now: int)
    requires Inv(t, w) && BeginGlobal(t, w, project, id, summary, evidence, setting, now).Ok?
    ensures OpenCandidate(t, w, project, id).Ok? && OpenCandidate(t, w, project, id).value < |Store(w, project)|
    ensures var c := Store(w, project)[OpenCandidate(t, w, project, id).value]; c.id == id && c.status.Open?
    ensures setting.allowed == Some(true)
  {
    StoreAt(t, w, project);
    hide Inv, WithGlobal, Presentable;
  }

  /** Main theorem: a retraction leaves of its global record the id, the scope, the source and the time it was made;
      all else in the stores is as it was. */
  lemma RetractionClears(t: Text, w: World, id: nat, evidence: string, now: int) returns (i: nat)
    requires Faithful(t) && Inv(t, w) && DismissGlobal(t, w, id, evidence, now).Ok?
    ensures var r := DismissGlobal(t, w, id, evidence, now).value;
            var g, after := w.global, r.global;
            && r == w.(global := after) && |after| == |g| && i < |g| && g[i].id == id && g[i].status.Promoted?
            && (forall j | 0 <= j < |g| && j != i :: after[j] == g[j])
            && after[i] == Candidate(id, None, None, None, g[i].source, RETRACTED, g[i].scope, 0,
                                     [t.dismissalDigest(t.trim(evidence))], Dismissed, None, g[i].createdAt, now)
  {
    StoreAt(t, w, "");
    i := FindId(w.global, id);
    var c := w.global[i].(status := Dismissed, summary := RETRACTED, evidence := [t.dismissalDigest(t.trim(evidence))],
                          occurrences := 0, updatedAt := now, key := None, project := None, repoPath := None, promotedTo := None);
    RetractedIsClean(t, w.global[i], c, evidence);
    ReplaceKeepsGlobal(t, w.global, i, c, w.nextId);
  }

  lemma RetractedIsClean(t: Text, before: Candidate, c: Candidate, evidence: string)
    requires Faithful(t) && before.scope.Global?
    requires c == before.(status := Dismissed, summary := RETRACTED, evidence := [t.dismissalDigest(t.trim(evidence))],
                          occurrences := 0, updatedAt := c.updatedAt, key := None, project := None, repoPath := None, promotedTo := None)
    ensures Clean(t, c) && Visible(t, c)
  {
  }

  // ---------- When calls succeed ----------

  ghost predicate HasOpen(w: World, project: string, id: nat) {
    exists i :: 0 <= i < |Store(w, project)| && Store(w, project)[i].id == id && Store(w, project)[i].status.Open?
  }

  lemma OpenExactly(t: Text, w: World, project: string, id: nat)
    requires Inv(t, w)
    ensures OpenCandidate(t, w, project, id).Ok? <==> !Locked(w, project) && HasOpen(w, project, id)
  {
    StoreAt(t, w, project);
    var s := Store(w, project);
    hide Inv, GlobalInv, Locked;
    if i :| 0 <= i < |s| && s[i].id == id { OneRecord(s, i, id); }
  }

  /** A promotion to the project, or a dismissal, succeeds if and only if a reason is given, nobody holds the store, and
      it has an open record of that id. */
  lemma SettlingSucceedsExactly(t: Text, w: World, project: string, id: nat, evidence: string, now: int)
    requires Inv(t, w)
    ensures PromoteToProject(t, w, project, id, evidence, now).Ok? <==>
              t.redact(t.trim(evidence)) != "" && !Locked(w, project) && HasOpen(w, project, id)
    ensures DismissLocal(t, w, project, id, evidence, now).Ok? <==>
              t.redact(t.trim(evidence)) != "" && !Locked(w, project) && HasOpen(w, project, id)
  {
    OpenExactly(t, w, project, id);
    hide Inv, OpenCandidate, HasOpen;
  }

  /** A promotion to all projects gets to its first write if and only if the record is open, has recurred, the policy
      of its repository allows it, and summary and evidence name nothing that they must not. */
  lemma PromotionToAllSucceedsExactly(t: Text, w: World, project: string, id: nat, summary: string, evidence: string,
          setting: Setting, now: int)
    requires Faithful(t) && Inv(t, w)
    ensures BeginGlobal(t, w, project, id, summary, evidence, setting, now).Ok? <==>
              && !Locked(w, project) && setting.allowed == Some(true)
              && exists i | 0 <= i < |Store(w, project)| ::
                   var c := Store(w, project)[i];
                   c.id == id && c.status.Open? && c.occurrences >= 2
                   && TellsNothing(t, t.trim(summary), c, setting.identities) && TellsNothing(t, t.trim(evidence), c, setting.identities)
  {
    TellsNothingExactly(t, t.trim(summary), setting);
    TellsNothingExactly(t, t.trim(evidence), setting);
    OpenExactly(t, w, project, id);
    StoreAt(t, w, project);
    var s := Store(w, project);
    if i :| 0 <= i < |s| && s[i].id == id { OneRecord(s, i, id); }
    hide Inv, GlobalInv, Presentable, TellsNothing, WithGlobal, Faithful, Locked;
  }

  /** A text that says something, of which nothing is redacted or personal, and that does not mention the record's project,
      its repository, or any known project. */
  predicate TellsNothing(t: Text, text: string, c: Candidate, identities: seq<string>) {
    && text != "" && t.redact(text) == text && !t.personal(text)
    && (c.project.Some? ==> Silent(t, text, c.project.value))
    && (c.repoPath.Some? ==> Silent(t, text, c.repoPath.value) && Silent(t, text, t.basename(c.repoPath.value)))
    && (forall i | 0 <= i < |identities| :: Silent(t, text, identities[i]))
  }

  predicate Silent(t: Text, text: string, item: string) { item == "" || !t.mentions(text, item) }

  lemma TellsNothingExactly(t: Text, text: string, setting: Setting)
    ensures forall c: Candidate :: Presentable(t, text, c, setting) <==> TellsNothing(t, text, c, setting.identities)
  {
    forall c: Candidate ensures Presentable(t, text, c, setting) <==> TellsNothing(t, text, c, setting.identities) {
      var own := (if c.project.Some? then [c.project.value] else [])
                 + (if c.repoPath.Some? then [c.repoPath.value, t.basename(c.repoPath.value)] else []);
      var all := Forbidden(t, c, setting);
      assert all == own + setting.identities;
      assert c.project.Some? ==> own[0] == c.project.value;
      assert c.repoPath.Some? ==> own[|own| - 2] == c.repoPath.value && own[|own| - 1] == t.basename(c.repoPath.value);
      assert forall item :: item in own ==> item in all;
      assert forall i | 0 <= i < |setting.identities| :: setting.identities[i] in all;
    }
  }

  /** A capture succeeds if and only if it is for one project, says something, has a proper key or none, and nobody
      holds the store. */
  lemma CaptureSucceedsExactly(t: Text, w: World, input: Capture, now: int)
    ensures DoCapture(t, w, input, now).Ok? <==>
              && input.scope != Some(Global) && t.redact(t.trim(input.summary)) != ""
              && input.project.Some? && t.trim(input.project.value) != "" && !Locked(w, t.trim(input.project.value))
              && (input.key.Some? && input.key.value != "" ==> t.key(input.key.value).Some?)
  {
    hide AfterCapture;
  }

  /** The step is about a record of this store, and there is none under its id, or none that is open. */
  ghost predicate Unfound(w: World, step: Step) {
    match step
    case PromoteHere(project, id, _) => !Has(Store(w, project), id)
    case BeginPromotion(project, id, _, _, _) => !Has(Store(w, project), id)
    case Dismiss(project, id, _) => !Has(Store(w, project), id)
    case Retract(id, _) => !Has(w.global, id)
    case FinishPromotion(i) => i < |w.pending| ==> !Has(Store(w, w.pending[i].project), w.pending[i].candidate)
    case Crash(i) => i >= |w.pending|
    case _ => false
  }

  predicate Has(s: seq<Candidate>, id: nat) { exists i :: 0 <= i < |s| && s[i].id == id }

  predicate HasSettled(s: seq<Candidate>, id: nat) { exists i :: 0 <= i < |s| && s[i].id == id && !s[i].status.Open? }

  predicate HasRare(s: seq<Candidate>, id: nat) { exists i :: 0 <= i < |s| && s[i].id == id && s[i].occurrences < 2 }

  /** The summary or the evidence tells where the record comes from, or what is redacted or personal. */
  predicate Telling(t: Text, s: seq<Candidate>, step: Step)
    requires step.BeginPromotion?
  {
    exists i :: 0 <= i < |s| && s[i].id == step.id
                && !(TellsNothing(t, t.trim(step.summary), s[i], step.setting.identities)
                     && TellsNothing(t, t.trim(step.evidence), s[i], step.setting.identities))
  }

  /** The stores that the step locks first. */
  function Locks(t: Text, step: Step): seq<string> {
    match step
    case Migrate(project, repoPath, _, _) => if repoPath.Some? then [project, t.basename(repoPath.value)] else [project]
    case Learn(input) => if input.project.Some? then [t.trim(input.project.value)] else []
    case PromoteHere(project, _, _) => [project]
    case BeginPromotion(project, _, _, _, _) => [project]
    case Dismiss(project, _, _) => [project]
    case _ => []
  }

  /** What the refusal says of the call. */
  ghost predicate Justified(t: Text, w: World, step: Step, error: Error) {
    match error
    case GlobalCaptureForbidden => step.Learn? && step.input.scope == Some(Global)
    case EmptySummary => step.Learn? && t.redact(t.trim(step.input.summary)) == ""
    case NoProject => step.Learn? && (step.input.project.Some? ==> t.trim(step.input.project.value) == "")
    case BadKey => step.Learn? && step.input.key.Some? && step.input.key.value != "" && t.key(step.input.key.value).None?
    case NotFound => Unfound(w, step)
    case AlreadySettled =>
      if step.Retract? then exists i | 0 <= i < |w.global| :: w.global[i].id == step.id && !w.global[i].status.Promoted?
      else (step.PromoteHere? || step.BeginPromotion? || step.Dismiss?) &&
           HasSettled(Store(w, step.project), step.id)
    case NoEvidence =>
      || ((step.PromoteHere? || step.Dismiss?) && t.redact(t.trim(step.evidence)) == "")
      || (step.Retract? && t.trim(step.evidence) == "")
    case NotRecurring =>
      step.BeginPromotion? && HasRare(Store(w, step.project), step.id)
    case NoRepository => step.BeginPromotion? && step.setting.allowed.None?
    case ForbiddenByPolicy => step.BeginPromotion? && step.setting.allowed == Some(false)
    case NotSanitized =>
      step.BeginPromotion? && Telling(t, Store(w, step.project), step)
    case StoreLocked => exists project :: project in Locks(t, step) && Locked(w, project)
  }

  lemma OpenRefused(t: Text, w: World, project: string, id: nat)
    requires Inv(t, w)
    ensures var r := OpenCandidate(t, w, project, id);
            if r.Ok? then r.value < |Store(w, project)| && Store(w, project)[r.value].id == id
                          && Sanitized(t.redact, Store(w, project)) == Store(w, project)
            else match r.error
                 case StoreLocked => Locked(w, project)
                 case NotFound => !Has(Store(w, project), id)
                 case AlreadySettled => HasSettled(Store(w, project), id)
                 case _ => false
  {
    StoreAt(t, w, project);
    hide Inv, Locked;
  }

  /** A refused call is told a reason that is true. */
  lemma RefusalsAreTrue(t: Text, w: World, step: Step, now: int)
    requires Faithful(t) && Inv(t, w)
    ensures Try(t, w, step, now).Err? ==> Justified(t, w, step, Try(t, w, step, now).error)
  {
    match step {
      case Migrate(project, repoPath, _, _) =>
        var locks := Locks(t, step);
        assert project in locks && (repoPath.Some? ==> t.basename(repoPath.value) in locks);
        hide Inv, Faithful, Locked;
      case Learn(input) =>
        var locks := Locks(t, step);
        assert input.project.Some? ==> t.trim(input.project.value) in locks;
        hide Inv, Faithful, Locked, AfterCapture;
      case PromoteHere(project, id, _) => LocalRefused(t, w, step, now);
      case Dismiss(project, id, _) => LocalRefused(t, w, step, now);
      case BeginPromotion(_, _, _, _, _) => BeginRefused(t, w, step, now);
      case FinishPromotion(i) =>
        if i < |w.pending| { StoreAt(t, w, w.pending[i].project); }
        hide Inv, Faithful, Changed, Dropped, Locked;
      case Crash(_) =>
      case Retract(_, _) =>
        RetractionRefused(t, w, step, now);
    }
  }

  lemma RetractionRefused(t: Text, w: World, step: Step, now: int)
    requires Faithful(t) && Inv(t, w) && step.Retract?
    ensures Try(t, w, step, now).Err? ==> Justified(t, w, step, Try(t, w, step, now).error)
  {
    StoreAt(t, w, "");
    GlobalScopes(t, w);
    hide Inv, Faithful, Locked, Locks, TellsNothing;
  }

  lemma LocalRefused(t: Text, w: World, step: Step, now: int)
    requires Inv(t, w) && (step.PromoteHere? || step.Dismiss?)
    ensures Try(t, w, step, now).Err? ==> Justified(t, w, step, Try(t, w, step, now).error)
  {
    OpenRefused(t, w, step.project, step.id);
    assert step.project in Locks(t, step);
    hide Inv, Locked, OpenCandidate, Has, HasSettled, Locks, Changed, Sanitized;
  }

  /** What can be said of a promotion to all projects. */
  ghost predicate BeginReason(t: Text, w: World, step: Step, error: Error)
    requires step.BeginPromotion?
  {
    match error
    case StoreLocked => Locked(w, step.project)
    case NotFound => !Has(Store(w, step.project), step.id)
    case AlreadySettled => HasSettled(Store(w, step.project), step.id)
    case NotRecurring => HasRare(Store(w, step.project), step.id)
    case NoRepository => step.setting.allowed.None?
    case ForbiddenByPolicy => step.setting.allowed == Some(false)
    case NotSanitized => Telling(t, Store(w, step.project), step)
    case _ => false
  }

  lemma BeginIsJustified(t: Text, w: World, step: Step, error: Error)
    requires step.BeginPromotion? && BeginReason(t, w, step, error)
    ensures Justified(t, w, step, error)
  {
    assert step.project in Locks(t, step);
    hide Locked, Has, HasSettled, HasRare, Telling;
  }

  lemma BeginRefused(t: Text, w: World, step: Step, now: int)
    requires Inv(t, w) && step.BeginPromotion?
    ensures Try(t, w, step, now).Err? ==> Justified(t, w, step, Try(t, w, step, now).error)
  {
    hide *;
    var r := Try(t, w, step, now);
    if r.Err? {
      BeginErrors(t, w, step, now);
      BeginIsJustified(t, w, step, r.error);
    }
  }

  lemma BeginErrors(t: Text, w: World, step: Step, now: int)
    requires Inv(t, w) && step.BeginPromotion? && Try(t, w, step, now).Err?
    ensures BeginReason(t, w, step, Try(t, w, step, now).error)
  {
    OpenRefused(t, w, step.project, step.id);
    TellsNothingExactly(t, t.trim(step.summary), step.setting);
    TellsNothingExactly(t, t.trim(step.evidence), step.setting);
    hide Inv, OpenCandidate, Presentable, TellsNothing, WithGlobal, Sanitized, Locked, Has, HasSettled;
  }

  lemma GlobalScopes(t: Text, w: World)
    requires Inv(t, w)
    ensures forall i | 0 <= i < |w.global| :: w.global[i].scope.Global?
  {
  }

  lemma DistinctGlobal(t: Text, g: seq<Candidate>, n: nat)
    requires GlobalInv(t, g, n)
    ensures forall i, j | 0 <= i < j < |g| :: g[i].id != g[j].id
  {
  }

  /** A retraction succeeds if and only if a reason is given and a promoted global record has that id. */
  lemma RetractionSucceedsExactly(t: Text, w: World, id: nat, evidence: string, now: int)
    requires Inv(t, w)
    ensures DismissGlobal(t, w, id, evidence, now).Ok? <==>
              t.trim(evidence) != "" && exists i :: 0 <= i < |w.global| && w.global[i].id == id && w.global[i].status.Promoted?
  {
    StoreAt(t, w, "");
    GlobalScopes(t, w);
    hide Inv, StoreInv, Store;
    DistinctGlobal(t, w.global, w.nextId);
    RetractionUnfolds(t, w, id, evidence, now);
    hide GlobalInv, Sanitized, DismissGlobal;
    var g := w.global;
    if i :| 0 <= i < |g| && g[i].id == id {
      assert forall j | 0 <= j < i :: g[j].id != g[i].id;
      assert forall j | i < j < |g| :: g[i].id != g[j].id;
    }
  }

  lemma RetractionUnfolds(t: Text, w: World, id: nat, evidence: string, now: int)
    ensures var g := Sanitized(t.redact, w.global);
            DismissGlobal(t, w, id, evidence, now).Ok? <==>
              t.trim(evidence) != "" && FindId(g, id) < |g| && g[FindId(g, id)].scope.Global? && g[FindId(g, id)].status.Promoted?
  {
    hide Sanitized;
  }

  // ---------- Runs ----------

  /** Some project has a record of that id and status. */
  ghost predicate HasRecord(w: World, id: nat, status: Status) {
    exists p, i :: 0 <= i < |Store(w, p)| && Store(w, p)[i].id == id && Store(w, p)[i].status == status
  }

  /** The step is a call that promotes the record. */
  ghost predicate Promotes(t: Text, w: World, step: (Step, int), id: nat) {
    Try(t, w, step.0, step.1).Ok? &&
    match step.0
    case PromoteHere(_, of, _) => of == id
    case FinishPromotion(k) => k < |w.pending| && w.pending[k].candidate == id
    case _ => false
  }

  ghost predicate Dismisses(t: Text, w: World, step: (Step, int), id: nat) {
    Try(t, w, step.0, step.1).Ok? && step.0.Dismiss? && step.0.id == id
  }

  ghost predicate Owed(t: Text, w: World, step: (Step, int), c: Candidate) {
    || c.status.Open? || HasRecord(w, c.id, c.status)
    || (c.status.Promoted? && Promotes(t, w, step, c.id)) || (c.status.Dismissed? && Dismisses(t, w, step, c.id))
  }

  lemma Had(w: World, project: string, i: nat)
    requires i < |Store(w, project)|
    ensures HasRecord(w, Store(w, project)[i].id, Store(w, project)[i].status)
  {
  }

  /** The record at a place behind a step that has settled one of another place. */
  lemma SettledElsewhere(w: World, r: World, project: string, id: nat, i: nat, status: Status, scope: Scope, now: int,
          other: string, j: nat)
    requires Settles(w, r, project, id, i, status, scope, now) && j < |Store(r, other)|
    ensures (other == project && j == i && Store(r, other)[j].status == status && Store(r, other)[j].id == id)
            || HasRecord(w, Store(r, other)[j].id, Store(r, other)[j].status)
  {
    if other != project {
      assert Store(r, other) == Store(w, other);
      Had(w, other, j);
    } else if j != i {
      Had(w, other, j);
    }
  }

  lemma StepOwes(t: Text, w: World, step: (Step, int), project: string, j: nat)
    requires Faithful(t) && Inv(t, w) && j < |Store(Apply(t, w, step), project)|
    ensures Owed(t, w, step, Store(Apply(t, w, step), project)[j])
  {
    hide Inv, Faithful, Owed, Store;
    if !Try(t, w, step.0, step.1).Ok? {
      UntouchedOwes(t, w, step, project, j);
    } else {
      match step.0
      case PromoteHere(_, _, _) => SettlingOwes(t, w, step, project, j);
      case Dismiss(_, _, _) => SettlingOwes(t, w, step, project, j);
      case FinishPromotion(_) => SettlingOwes(t, w, step, project, j);
      case Learn(_) => CaptureOwes(t, w, step, project, j);
      case Migrate(_, _, _, _) => MigrationOwes(t, w, step, project, j);
      case BeginPromotion(p, id, summary, evidence, setting) =>
        BeginParts(t, w, p, id, summary, evidence, setting, step.1);
        UntouchedOwes(t, w, step, project, j);
      case Crash(_) => UntouchedOwes(t, w, step, project, j);
      case Retract(_, _) => UntouchedOwes(t, w, step, project, j);
    }
  }

  lemma UntouchedOwes(t: Text, w: World, step: (Step, int), project: string, j: nat)
    requires Apply(t, w, step).projects == w.projects && j < |Store(Apply(t, w, step), project)|
    ensures Owed(t, w, step, Store(Apply(t, w, step), project)[j])
  {
    hide Apply, HasRecord;
    assert Store(Apply(t, w, step), project) == Store(w, project);
    Had(w, project, j);
  }

  lemma SettlingOwes(t: Text, w: World, step: (Step, int), project: string, j: nat)
    requires Faithful(t) && Inv(t, w) && Try(t, w, step.0, step.1).Ok?
    requires step.0.PromoteHere? || step.0.Dismiss? || step.0.FinishPromotion?
    requires j < |Store(Apply(t, w, step), project)|
    ensures Owed(t, w, step, Store(Apply(t, w, step), project)[j])
  {
    var r, now := Apply(t, w, step), step.1;
    hide Inv, Faithful, PromoteToProject, DismissLocal, FinishGlobal, Settles, HasRecord;
    match step.0
    case PromoteHere(p, id, evidence) =>
      var i := PromotionPromotes(t, w, p, id, evidence, now);
      SettledElsewhere(w, r, p, id, i, Promoted, Project, now, project, j);
    case Dismiss(p, id, evidence) =>
      var i := DismissalDismisses(t, w, p, id, evidence, now);
      SettledElsewhere(w, r, p, id, i, Dismissed, Store(w, p)[i].scope, now, project, j);
    case FinishPromotion(k) =>
      var i := FinishLinks(t, w, k, now);
      SettledElsewhere(w, r, w.pending[k].project, w.pending[k].candidate, i, Promoted, Project, now, project, j);
  }

  lemma CaptureOwes(t: Text, w: World, step: (Step, int), project: string, j: nat)
    requires Faithful(t) && Inv(t, w) && step.0.Learn? && Try(t, w, step.0, step.1).Ok?
    requires j < |Store(Apply(t, w, step), project)|
    ensures Owed(t, w, step, Store(Apply(t, w, step), project)[j])
  {
    var input := step.0.input;
    hide Inv, Faithful, DoCapture, HasRecord, SameLesson, About, KeyOf, Joined;
    var i := CaptureCounts(t, w, input, step.1);
    var r, p := Apply(t, w, step), t.trim(input.project.value);
    if project != p {
      assert Store(r, project) == Store(w, project);
      Had(w, project, j);
    } else if j < |Store(w, p)| {
      Had(w, p, j);
    }
  }

  lemma MigrationOwes(t: Text, w: World, step: (Step, int), project: string, j: nat)
    requires Faithful(t) && Inv(t, w) && step.0.Migrate? && j < |Store(Apply(t, w, step), project)|
    ensures Owed(t, w, step, Store(Apply(t, w, step), project)[j])
  {
    var r := Apply(t, w, step);
    var c := Store(r, project)[j];
    if !Writes(t, w, step.0) {
      NothingWritten(t, w, step);
      Had(w, project, j);
    } else {
      MigrateIs(t, w, step);
      StoreAt(t, w, step.0.project);
      StoreAt(t, w, Short(t, step.0));
      var env, legacy := EnvOf(t, step.0.project, step.0.git), Store(w, Short(t, step.0));
      PartitionKeepsStore(t, env, legacy, w.nextId);
      hide Inv, Faithful, Writes, Apply, HasRecord, GlobalInv, Legacy.Merge, Legacy.Migrated, Legacy.Quarantined, Legacy.Lookup;
      assert c in Store(r, project);
      QuarantinedMembers(env, legacy);
      MergeMembers(Store(w, step.0.project), Moving(t, w, step.0), c);
      if c in Moving(t, w, step.0) {
        var i := MigratedFrom(env, legacy, c);
        Had(w, Short(t, step.0), i);
      }
      HadMember(w, project, c);
      HadMember(w, step.0.project, c);
      HadMember(w, Short(t, step.0), c);
    }
  }

  lemma HadMember(w: World, project: string, c: Candidate)
    ensures c in Store(w, project) ==> HasRecord(w, c.id, c.status)
  {
    if c in Store(w, project) {
      var i :| 0 <= i < |Store(w, project)| && Store(w, project)[i] == c;
      Had(w, project, i);
    }
  }

  /** Main theorem: in every run a project's record is promoted only behind a successful promotion of its id, and
      dismissed only behind a successful dismissal of its id, wherever migrations have moved it since. */
  lemma {:induction false} SettledByTheirCalls(t: Text, steps: Steps, k: nat, id: nat, status: Status)
    requires Faithful(t) && k <= |steps| && HasRecord(At(t, steps, k), id, status)
    ensures status.Promoted? ==> exists n: nat :: n < k && Promotes(t, At(t, steps, n), steps[n], id)
    ensures status.Dismissed? ==> exists n: nat :: n < k && Dismisses(t, At(t, steps, n), steps[n], id)
  {
    NoneAtFirst(t, steps, id, status);
    AtKeepsInv(t, steps, k - 1);
    NextAt(t, steps, k - 1);
    hide Faithful, Inv, Apply, Promotes, Dismisses, HasRecord, At;
    var p, j := WhereIs(At(t, steps, k), id, status);
    StepOwes(t, At(t, steps, k - 1), steps[k - 1], p, j);
    if HasRecord(At(t, steps, k - 1), id, status) { SettledByTheirCalls(t, steps, k - 1, id, status); }
  }

  lemma NoneAtFirst(t: Text, steps: Steps, id: nat, status: Status)
    ensures !HasRecord(At(t, steps, 0), id, status)
  {
  }

  lemma WhereIs(w: World, id: nat, status: Status) returns (p: string, i: nat)
    requires HasRecord(w, id, status)
    ensures i < |Store(w, p)| && Store(w, p)[i].id == id && Store(w, p)[i].status == status
  {
    p, i :| 0 <= i < |Store(w, p)| && Store(w, p)[i].id == id && Store(w, p)[i].status == status;
  }

  /** The global record was put there by a promotion to all projects. */
  ghost predicate Introduces(t: Text, w: World, step: (Step, int), id: nat) {
    Try(t, w, step.0, step.1).Ok? && step.0.BeginPromotion? && w.nextId == id
  }

  ghost predicate Retracts(t: Text, w: World, step: (Step, int), id: nat) {
    Try(t, w, step.0, step.1).Ok? && step.0.Retract? && step.0.id == id
  }

  lemma StepOnGlobal(t: Text, w: World, step: (Step, int), j: nat)
    requires Faithful(t) && Inv(t, w) && j < |Apply(t, w, step).global|
    ensures var r := Apply(t, w, step);
            || (j < |w.global| && r.global[j].id == w.global[j].id && r.global[j].status == w.global[j].status)
            || (j < |w.global| && r.global[j].id == w.global[j].id && r.global[j].status.Dismissed?
                && Retracts(t, w, step, r.global[j].id))
            || (r.global[j].status.Promoted? && Introduces(t, w, step, r.global[j].id))
  {
    var now := step.1;
    if Try(t, w, step.0, now).Ok? {
      if step.0.BeginPromotion? {
        var i, k := PromotionReachesAll(t, w, step.0.project, step.0.id, step.0.summary, step.0.evidence, step.0.setting, now);
        hide Inv, Faithful, BeginGlobal;
        assert j != k ==> j < |w.global|;
      } else if step.0.Retract? {
        var i := RetractionClears(t, w, step.0.id, step.0.evidence, now);
        hide Inv, Faithful, DismissGlobal;
      } else {
        SameGlobal(t, w, step);
      }
    }
  }

  lemma SameGlobal(t: Text, w: World, step: (Step, int))
    requires !step.0.BeginPromotion? && !step.0.Retract?
    ensures Apply(t, w, step).global == w.global
  {
    hide AfterCapture, Sanitized, OpenCandidate;
  }

  /** Main theorem: in every run each global record was put there by a promotion to all projects, and is dismissed only
      behind its retraction. */
  lemma {:induction false} GlobalByTheirCalls(t: Text, steps: Steps, k: nat, j: nat)
    requires Faithful(t) && k <= |steps| && j < |At(t, steps, k).global|
    ensures var c := At(t, steps, k).global[j];
            && !c.status.Open?
            && (exists n: nat :: n < k && Introduces(t, At(t, steps, n), steps[n], c.id))
            && (c.status.Dismissed? ==> exists n: nat :: n < k && Retracts(t, At(t, steps, n), steps[n], c.id))
  {
    NothingAtFirst(t, steps);
    AtKeepsInv(t, steps, k - 1);
    NextAt(t, steps, k - 1);
    hide Faithful, Inv, Apply, Introduces, Retracts, At;
    StepOnGlobal(t, At(t, steps, k - 1), steps[k - 1], j);
    if j < |At(t, steps, k - 1).global| { GlobalByTheirCalls(t, steps, k - 1, j); }
  }

  /** The step promotes a local record to all projects under this id, with this summary, which tells nothing of where it
      comes from. */
  ghost predicate Publishes(t: Text, w: World, step: (Step, int), id: nat, summary: string) {
    && Introduces(t, w, step, id) && step.0.setting.allowed == Some(true)
    && exists i :: 0 <= i < |Store(w, step.0.project)| && Store(w, step.0.project)[i].id == step.0.id
                   && Store(w, step.0.project)[i].occurrences >= 2
                   && TellsNothing(t, summary, Store(w, step.0.project)[i], step.0.setting.identities)
  }

  lemma StepPublishes(t: Text, w: World, step: (Step, int), j: nat)
    requires Faithful(t) && Inv(t, w) && j < |Apply(t, w, step).global| && Apply(t, w, step).global[j].status.Promoted?
    ensures var c := Apply(t, w, step).global[j];
            || (j < |w.global| && w.global[j].id == c.id && w.global[j].status.Promoted? && w.global[j].summary == c.summary)
            || Publishes(t, w, step, c.id, c.summary)
  {
    var now := step.1;
    if Try(t, w, step.0, now).Ok? {
      if step.0.BeginPromotion? {
        var st := step.0;
        var i, k := PromotionReachesAll(t, w, st.project, st.id, st.summary, st.evidence, st.setting, now);
        PromotionToAllSucceedsExactly(t, w, st.project, st.id, st.summary, st.evidence, st.setting, now);
        hide Inv, Faithful, BeginGlobal, TellsNothing;
        assert j != k ==> j < |w.global|;
      } else if step.0.Retract? {
        var i := RetractionClears(t, w, step.0.id, step.0.evidence, now);
        hide Inv, Faithful, DismissGlobal;
      } else {
        SameGlobal(t, w, step);
      }
    }
  }

  /** Main theorem: in every run each promoted global record was put there by a call that the policy of its project
      allowed, for a record that had recurred, and tells neither that project nor its repository nor any project known
      at that time. */
  lemma {:induction false} GlobalTellsNothing(t: Text, steps: Steps, k: nat, j: nat)
    requires Faithful(t) && k <= |steps| && j < |At(t, steps, k).global| && At(t, steps, k).global[j].status.Promoted?
    ensures var c := At(t, steps, k).global[j];
            exists n: nat :: n < k && Publishes(t, At(t, steps, n), steps[n], c.id, c.summary)
  {
    NothingAtFirst(t, steps);
    AtKeepsInv(t, steps, k - 1);
    NextAt(t, steps, k - 1);
    hide Faithful, Inv, Apply, Publishes, At;
    StepPublishes(t, At(t, steps, k - 1), steps[k - 1], j);
    if j < |At(t, steps, k - 1).global| && At(t, steps, k - 1).global[j].status.Promoted? { GlobalTellsNothing(t, steps, k - 1, j); }
  }

  lemma NothingAtFirst(t: Text, steps: Steps)
    ensures At(t, steps, 0).global == []
  {
  }
}
