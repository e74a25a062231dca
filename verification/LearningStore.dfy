/**
 The learning stores: capture, promotion to the project and to all projects, and dismissal
 (src/learning/candidates.ts). The store locks make every action on a store one step; a global promotion
 writes two stores one after the other and may crash in between.
 */
module LearningStore {
  import opened Wrappers
  import opened LearningRecords
  import Legacy = LegacyMigration
  import opened LegacyMerge

  /** The text functions of the platform: redaction, trimming, folding of summaries, keys, digests, and the
      search for personal data and for project identities. */
  datatype Text = Text(
    redact: string -> string, trim: string -> string, fold: string -> string, key: string -> Option<string>,
    promotionDigest: string -> string, dismissalDigest: string -> string,
    isPromotionDigest: string -> bool, isDismissalDigest: string -> bool,
    personal: string -> bool, mentions: (string, string) -> bool, basename: string -> string)

  const RETRACTED := "Retracted global learning."

  predicate Unsafe(t: Text, text: string) { t.redact(text) != text || t.personal(text) }

  /** What is known of redaction, digests and base names: redacting twice is redacting once, it leaves
      digests and the retraction text alone, and a base name holds no slash. */
  ghost predicate Faithful(t: Text) {
    && (forall s :: t.redact(t.redact(s)) == t.redact(s))
    && (forall s :: t.redact(t.promotionDigest(s)) == t.promotionDigest(s) && t.isPromotionDigest(t.promotionDigest(s)))
    && (forall s :: t.redact(t.dismissalDigest(s)) == t.dismissalDigest(s) && t.isDismissalDigest(t.dismissalDigest(s)))
    && !Unsafe(t, RETRACTED)
    && (forall s :: '/' !in t.basename(s))
  }

  datatype Error =
    | GlobalCaptureForbidden | EmptySummary | NoProject | BadKey | NotFound | AlreadySettled | NoEvidence
    | NotRecurring | NoRepository | ForbiddenByPolicy | NotSanitized | StoreLocked

  // ---------- Stores ----------

  /** The first record that meets the condition, or |s|. */
  function First(s: seq<Candidate>, p: Candidate -> bool): (i: nat)
    ensures i <= |s|
    ensures i < |s| ==> p(s[i])
    ensures forall j | 0 <= j < i :: !p(s[j])
  {
    if s == [] || p(s[0]) then 0 else 1 + First(s[1..], p)
  }

  predicate SameLesson(t: Text, c: Candidate, key: Option<string>, folded: string) {
    if key.Some? then c.key == key else c.key.None? && t.fold(c.summary) == folded
  }

  function Adding(evidence: seq<string>, item: string): seq<string> {
    if item in evidence then evidence else evidence + [item]
  }

  /** A promotion to all projects whose global record is written and whose project record is not yet. The
      process still holds the lock of the project's store. */
  datatype Pending = Pending(project: string, candidate: nat, promoted: nat)

  datatype World = World(projects: map<string, seq<Candidate>>, global: seq<Candidate>, pending: seq<Pending>,
          nextId: nat)

  function Store(w: World, project: string): seq<Candidate> {
    if project in w.projects then w.projects[project] else []
  }

  predicate Locked(w: World, project: string) { exists p | p in w.pending :: p.project == project }

  // ---------- Migration ----------

  /** What git and the project policy say: the repository's common directory, whether the policy binds its
      old name, and the common directory of a record's path. */
  datatype Git = Git(active: Option<string>, bound: bool, commonDir: string -> Option<string>)

  function EnvOf(t: Text, project: string, git: Git): Legacy.Env {
    Legacy.Env(project, git.active, git.bound, git.commonDir, t.redact)
  }

  function FileOf(w: World, project: string): Legacy.File {
    if project in w.projects then Legacy.Store(w.projects[project]) else Legacy.Missing
  }

  function FilesOf(w: World, short: string, project: string): Legacy.Files {
    Legacy.Files(FileOf(w, short), FileOf(w, project), Legacy.Missing, Legacy.Missing)
  }

  function WithFile(projects: map<string, seq<Candidate>>, project: string, file: Legacy.File)
    : map<string, seq<Candidate>>
  {
    if file.Store? then projects[project := file.candidates] else projects - {project}
  }

  /** There is a store under the short name of the repository. */
  predicate Looks(t: Text, w: World, project: string, repoPath: Option<string>) {
    repoPath.Some? && repoPath.value != "" && '/' in project && t.basename(repoPath.value) in w.projects
  }

  /** migrateLegacyProjectStore, cut off after some file-system calls; four complete it. */
  function DoMigrate(t: Text, w: World, project: string, repoPath: Option<string>, git: Git, calls: nat)
    : Result<World, Error>
  {
    if !Looks(t, w, project, repoPath) then Ok(w)
    else
      var short := t.basename(repoPath.value);
      if Locked(w, short) || Locked(w, project) then Err(StoreLocked)
      else
        var r := Legacy.After(EnvOf(t, project, git), FilesOf(w, short, project), calls);
        Ok(w.(projects := WithFile(WithFile(w.projects, project, r.target), short, r.legacy)))
  }

  // ---------- Capture ----------

  datatype Capture = Capture(
    source: Source, summary: string, key: Option<string>, scope: Option<Scope>, evidence: Option<string>,
    project: Option<string>, repoPath: Option<string>)

  function KeyOf(t: Text, key: Option<string>): Result<Option<string>, Error> {
    if key.None? || key.value == "" then Ok(None)
    else if t.key(key.value).None? then Err(BadKey) else Ok(t.key(key.value))
  }

  function EvidenceOf(t: Text, evidence: Option<string>): Option<string> {
    if evidence.Some? && evidence.value != "" then Some(t.redact(evidence.value)) else None
  }

  function SeenAgain(t: Text, c: Candidate, input: Capture, key: Option<string>, now: int): Candidate {
    var e := EvidenceOf(t, input.evidence);
    c.(occurrences := c.occurrences + 1, updatedAt := now,
       key := if key.Some? && c.key.None? then key else c.key,
       scope := if input.scope == Some(Project) && c.scope.Undecided? then Project else c.scope,
       evidence := if e.Some? && e.value != "" then Adding(c.evidence, e.value) else c.evidence)
  }

  function NewCandidate(t: Text, input: Capture, summary: string, key: Option<string>, project: string, id: nat,
          now: int)
    : Candidate
  {
    var e := EvidenceOf(t, input.evidence);
    Candidate(id, key, Some(project), input.repoPath, input.source, summary,
              if input.scope.Some? then input.scope.value else Undecided, 1,
              if e.Some? then [e.value] else [], Open, None, now, now)
  }

  function AfterCapture(t: Text, s: seq<Candidate>, input: Capture, summary: string, key: Option<string>,
          project: string,
                        id: nat, now: int): seq<Candidate>
  {
    var i := First(s, (c: Candidate) => c.status.Open? && SameLesson(t, c, key, t.fold(summary)));
    if i < |s| then s[i := SeenAgain(t, s[i], input, key, now)]
    else s + [NewCandidate(t, input, summary, key, project, id, now)]
  }

  /** The call is refused before anything is read. */
  predicate Refused(t: Text, input: Capture) {
    input.scope == Some(Global) || t.redact(t.trim(input.summary)) == "" || input.project.None? ||
    t.trim(input.project.value) == ""
  }

  /** captureLearning behind its migration */
  function DoCapture(t: Text, w: World, input: Capture, now: int): Result<World, Error> {
    var summary := t.redact(t.trim(input.summary));
    var key := KeyOf(t, input.key);
    if input.scope == Some(Global) then Err(GlobalCaptureForbidden)
    else if summary == "" then Err(EmptySummary)
    else if input.project.None? || t.trim(input.project.value) == "" then Err(NoProject)
    else if key.Err? then Err(BadKey)
    else
      var project := t.trim(input.project.value);
      if Locked(w, project) then Err(StoreLocked)
      else
        var s := Sanitized(t.redact, Store(w, project));
        Ok(w.(projects := w.projects[project :=
                Sanitized(t.redact, AfterCapture(t, s, input, summary, key.value, project, w.nextId, now))],
              nextId := w.nextId + 1))
  }

  // ---------- Promotion and dismissal ----------

  function FindId(s: seq<Candidate>, id: nat): (i: nat)
    ensures i <= |s|
    ensures i < |s| ==> s[i].id == id
    ensures forall j | 0 <= j < i :: s[j].id != id
  {
    First(s, (c: Candidate) => c.id == id)
  }

  /** Locks the project's store and looks the open candidate up. */
  function OpenCandidate(t: Text, w: World, project: string, id: nat): Result<nat, Error> {
    var s := Sanitized(t.redact, Store(w, project));
    var i := FindId(s, id);
    if Locked(w, project) then Err(StoreLocked)
    else if i == |s| then Err(NotFound)
    else if !s[i].status.Open? then Err(AlreadySettled)
    else Ok(i)
  }

  function Changed(t: Text, w: World, project: string, i: nat, c: Candidate): World
    requires i < |Store(w, project)|
  {
    w.(projects := w.projects[project := Sanitized(t.redact, Sanitized(t.redact, Store(w, project))[i := c])])
  }

  /** promoteLearning with the scope of the project */
  function PromoteToProject(t: Text, w: World, project: string, id: nat, evidence: string, now: int): Result<World,
          Error> {
    var found, e := OpenCandidate(t, w, project, id), t.redact(t.trim(evidence));
    if found.Err? then Err(found.error)
    else if e == "" then Err(NoEvidence)
    else
      var c := Sanitized(t.redact, Store(w, project))[found.value];
      Ok(Changed(t, w, project, found.value,
                 c.(evidence := Adding(c.evidence, e), status := Promoted, scope := Project, updatedAt := now)))
  }

  /** What surrounds a promotion to all projects: the policy, if there is a repository to look it up for, and
      the identities of the known projects. */
  datatype Setting = Setting(allowed: Option<bool>, identities: seq<string>)

  function Forbidden(t: Text, c: Candidate, setting: Setting): seq<string> {
    (if c.project.Some? then [c.project.value] else [])
    + (if c.repoPath.Some? then [c.repoPath.value, t.basename(c.repoPath.value)] else [])
    + setting.identities
  }

  /** assertSanitizedGlobalText */
  predicate Presentable(t: Text, text: string, c: Candidate, setting: Setting) {
    && text != ""
    && (forall item | item in Forbidden(t, c, setting) :: item != "" ==> !t.mentions(text, item))
    && !Unsafe(t, text)
  }

  /** The global store after the inner action. */
  function WithGlobal(t: Text, g: seq<Candidate>, c: Candidate, summary: string, digest: string, id: nat, now: int)
    : (seq<Candidate>, nat)
  {
    var i := First(g, (x: Candidate) => x.status.Promoted? && t.fold(x.summary) == t.fold(summary));
    if i < |g| then
      (g[i := if digest in g[i].evidence then g[i].(updatedAt := now)
              else g[i].(occurrences := g[i].occurrences + c.occurrences, evidence := g[i].evidence + [digest],
                         updatedAt := now)], g[i].id)
    else
      (g + [Candidate(id, None, None, None, c.source, summary, Global, c.occurrences, [digest], Promoted, None, now, now)],
       id)
  }

  /** promoteLearning with the global scope, up to the write of the global store */
  function BeginGlobal(t: Text, w: World, project: string, id: nat, summary: string, evidence: string,
          setting: Setting, now: int)
    : Result<World, Error>
  {
    var found := OpenCandidate(t, w, project, id);
    if found.Err? then Err(found.error)
    else
      var c := Sanitized(t.redact, Store(w, project))[found.value];
      if c.occurrences < 2 then Err(NotRecurring)
      else if setting.allowed.None? then Err(NoRepository)
      else if !setting.allowed.value then Err(ForbiddenByPolicy)
      else if !Presentable(t, t.trim(summary), c, setting) || !Presentable(t, t.trim(evidence), c, setting)
      then Err(NotSanitized)
      else
        var (g, promoted) := WithGlobal(t, Sanitized(t.redact, w.global), c, t.trim(summary),
                                        t.promotionDigest(t.trim(evidence)), w.nextId, now);
        Ok(w.(global := Sanitized(t.redact, g), pending := w.pending + [Pending(project, id, promoted)], nextId := w.nextId + 1))
  }

  function Dropped(pending: seq<Pending>, i: nat): seq<Pending>
    requires i < |pending|
  {
    pending[..i] + pending[i + 1..]
  }

  /** The rest of it: the write of the project's store. */
  function FinishGlobal(t: Text, w: World, i: nat, now: int): Result<World, Error> {
    if i >= |w.pending| then Err(NotFound)
    else
      var p := w.pending[i];
      var s := Sanitized(t.redact, Store(w, p.project));
      var k := FindId(s, p.candidate);
      if k == |s| then Err(NotFound)
      else
        Ok(Changed(t, w, p.project, k,
                   s[k].(status := Promoted, scope := Project, promotedTo := Some(p.promoted), updatedAt := now))
           .(pending := Dropped(w.pending, i)))
  }

  /** Both writes of a promotion to all projects, or the first alone. */
  function PromoteGlobally(t: Text, w: World, project: string, id: nat, summary: string, evidence: string,
          setting: Setting, now: int, crash: bool)
    : Result<World, Error>
  {
    var begun := BeginGlobal(t, w, project, id, summary, evidence, setting, now);
    if begun.Err? then begun
    else if crash then Ok(begun.value.(pending := Dropped(begun.value.pending, |begun.value.pending| - 1)))
    else FinishGlobal(t, begun.value, |begun.value.pending| - 1, now)
  }

  /** dismissGlobalLearning */
  function DismissGlobal(t: Text, w: World, id: nat, evidence: string, now: int): Result<World, Error> {
    var g := Sanitized(t.redact, w.global);
    var i := FindId(g, id);
    if t.trim(evidence) == "" then Err(NoEvidence)
    else if i == |g| then Err(NotFound)
    else if !g[i].scope.Global? || !g[i].status.Promoted? then Err(AlreadySettled)
    else
      Ok(w.(global := Sanitized(t.redact, g[i :=
              g[i].(status := Dismissed, summary := RETRACTED, evidence := [t.dismissalDigest(t.trim(evidence))],
                    occurrences := 0, updatedAt := now, key := None, project := None, repoPath := None,
                    promotedTo := None)])))
  }

  /** dismissLearning */
  function DismissLocal(t: Text, w: World, project: string, id: nat, evidence: string, now: int): Result<World, Error> {
    var found, e := OpenCandidate(t, w, project, id), t.redact(t.trim(evidence));
    if e == "" then Err(NoEvidence)
    else if found.Err? then Err(found.error)
    else
      var c := Sanitized(t.redact, Store(w, project))[found.value];
      Ok(Changed(t, w, project, found.value, c.(status := Dismissed, updatedAt := now, evidence := Adding(c.evidence, e))))
  }

  // ---------- Runs ----------

  /** Each call migrates first; another process may act before the call goes on. */
  datatype Step =
    | Migrate(project: string, repoPath: Option<string>, git: Git, calls: nat)
    | Learn(input: Capture)
    | PromoteHere(project: string, id: nat, evidence: string)
    | BeginPromotion(project: string, id: nat, summary: string, evidence: string, setting: Setting)
    | FinishPromotion(i: nat)
    | Crash(i: nat)
    | Retract(id: nat, evidence: string)
    | Dismiss(project: string, id: nat, evidence: string)

  function Try(t: Text, w: World, step: Step, now: int): Result<World, Error> {
    match step
    case Migrate(project, repoPath, git, calls) => DoMigrate(t, w, project, repoPath, git, calls)
    case Learn(input) => DoCapture(t, w, input, now)
    case PromoteHere(project, id, evidence) => PromoteToProject(t, w, project, id, evidence, now)
    case BeginPromotion(project, id, summary, evidence, setting) =>
      BeginGlobal(t, w, project, id, summary, evidence, setting, now)
    case FinishPromotion(i) => FinishGlobal(t, w, i, now)
    case Crash(i) => if i < |w.pending| then Ok(w.(pending := Dropped(w.pending, i))) else Err(NotFound)
    case Retract(id, evidence) => DismissGlobal(t, w, id, evidence, now)
    case Dismiss(project, id, evidence) => DismissLocal(t, w, project, id, evidence, now)
  }

  /** A refused call changes nothing. */
  function Apply(t: Text, w: World, step: (Step, int)): World {
    var r := Try(t, w, step.0, step.1);
    if r.Ok? then r.value else w
  }

  const EMPTY := World(map[], [], [], 0)

  // ---------- What every run keeps ----------

  ghost predicate Clean(t: Text, c: Candidate) {
    t.redact(c.summary) == c.summary && forall e | e in c.evidence :: t.redact(e) == e
  }

  /** The check that listing makes of a global record (visibleGlobalCandidates). */
  predicate Visible(t: Text, c: Candidate) {
    && c.scope.Global? && !c.status.Open?
    && c.project.None? && c.repoPath.None? && c.promotedTo.None? && c.key.None?
    && (c.status.Promoted? ==> |c.evidence| >= 1 && forall e | e in c.evidence :: t.isPromotionDigest(e))
    && (c.status.Dismissed? ==>
          c.summary == RETRACTED && |c.evidence| == 1 && t.isDismissalDigest(c.evidence[0]) && c.occurrences == 0)
    && !Unsafe(t, c.summary)
  }

  /** Two open records are about different lessons. */
  predicate Different(t: Text, a: Candidate, b: Candidate) {
    a.key == b.key ==> a.key.None? && t.fold(a.summary) != t.fold(b.summary)
  }

  /** The open records of a store are about different lessons. */
  predicate Apart(t: Text, s: seq<Candidate>) {
    forall i, j | 0 <= i < j < |s| && s[i].status.Open? && s[j].status.Open? :: Different(t, s[i], s[j])
  }

  ghost predicate StoreInv(t: Text, s: seq<Candidate>, n: nat) {
    && (forall i | 0 <= i < |s| :: Clean(t, s[i]) && s[i].id < n && !s[i].scope.Global? && s[i].occurrences >= 1)
    && Legacy.Distinct(s)
  }

  ghost predicate GlobalInv(t: Text, g: seq<Candidate>, n: nat) {
    && (forall i | 0 <= i < |g| ::
          Clean(t, g[i]) && g[i].id < n && Visible(t, g[i]) && (g[i].status.Promoted? ==> g[i].occurrences >= 2))
    && (forall i, j | 0 <= i < j < |g| ::
          && g[i].id != g[j].id
          && (g[i].status.Promoted? && g[j].status.Promoted? ==> t.fold(g[i].summary) != t.fold(g[j].summary)))
  }

  predicate Exists(g: seq<Candidate>, id: nat) { exists i :: 0 <= i < |g| && g[i].id == id }

  ghost predicate Inv(t: Text, w: World) {
    && GlobalInv(t, w.global, w.nextId)
    && (forall project :: StoreInv(t, Store(w, project), w.nextId))
    && (forall project, i | 0 <= i < |Store(w, project)| && Store(w, project)[i].promotedTo.Some? ::
          Exists(w.global, Store(w, project)[i].promotedTo.value))
    && (forall i | 0 <= i < |w.pending| :: Exists(w.global, w.pending[i].promoted))
  }

  ghost predicate LessonsApart(t: Text, w: World) { forall project :: Apart(t, Store(w, project)) }

  ghost predicate Strangers(a: seq<Candidate>, b: seq<Candidate>) {
    forall i, j | 0 <= i < |a| && 0 <= j < |b| :: a[i].id != b[j].id
  }

  /** No record is in the stores of two projects. */
  ghost predicate OneHome(w: World) { forall p, q {:trigger Strangers(Store(w, p), Store(w, q))} | p != q :: Strangers(Store(w, p), Store(w, q)) }

  ghost predicate Kept(t: Text, w: World, r: World) {
    Inv(t, r) && (LessonsApart(t, w) ==> LessonsApart(t, r)) && (OneHome(w) ==> OneHome(r))
  }

  lemma CleanIsSanitized(t: Text, s: seq<Candidate>)
    requires forall i | 0 <= i < |s| :: Clean(t, s[i])
    ensures Sanitized(t.redact, s) == s
  {
    forall i | 0 <= i < |s| ensures Redacted(t.redact, s[i]) == s[i] {
      assert RedactAll(t.redact, s[i].evidence) == s[i].evidence;
    }
  }

  predicate IdsFrom(r: seq<Candidate>, s: seq<Candidate>) { forall k | 0 <= k < |r| :: HasId(s, r[k].id) }

  lemma ReplaceKeepsStore(t: Text, s: seq<Candidate>, i: nat, c: Candidate, n: nat)
    requires StoreInv(t, s, n) && i < |s| && Clean(t, c) && c.id == s[i].id && !c.scope.Global? && c.occurrences >= 1
    requires c.status.Open? ==> s[i].status.Open? && c.key == s[i].key && c.summary == s[i].summary
    ensures StoreInv(t, s[i := c], n) && Sanitized(t.redact, s[i := c]) == s[i := c]
    ensures Apart(t, s) ==> Apart(t, s[i := c])
    ensures IdsFrom(s[i := c], s)
  {
    CleanIsSanitized(t, s[i := c]);
    var r := s[i := c];
    forall k | 0 <= k < |r| ensures HasId(s, r[k].id) { assert s[k].id == r[k].id; }
  }

  lemma AppendKeepsStore(t: Text, s: seq<Candidate>, c: Candidate, n: nat)
    requires StoreInv(t, s, n) && Clean(t, c) && c.id == n && !c.scope.Global? && c.occurrences >= 1
    requires forall i | 0 <= i < |s| && s[i].status.Open? :: Different(t, s[i], c)
    ensures StoreInv(t, s + [c], n + 1) && Sanitized(t.redact, s + [c]) == s + [c]
    ensures Apart(t, s) ==> Apart(t, s + [c])
    ensures forall k | 0 <= k < |s + [c]| :: (s + [c])[k].id >= n || HasId(s, (s + [c])[k].id)
  {
    CleanIsSanitized(t, s + [c]);
    var r := s + [c];
    forall k | 0 <= k < |r| ensures r[k].id >= n || HasId(s, r[k].id) { assert k < |s| ==> s[k].id == r[k].id; }
  }

  lemma StoreInvGrows(t: Text, s: seq<Candidate>, n: nat, m: nat)
    requires StoreInv(t, s, n) && n <= m
    ensures StoreInv(t, s, m)
  {
  }

  lemma AddingKeeps(t: Text, evidence: seq<string>, item: string)
    requires (forall e | e in evidence :: t.redact(e) == e) && t.redact(item) == item
    ensures forall e | e in Adding(evidence, item) :: t.redact(e) == e
  {
  }

  // ---------- Capture ----------

  /** The store after a capture: its records are about different lessons, and one more occurrence is counted. */
  lemma CaptureKeepsStore(t: Text, s: seq<Candidate>, input: Capture, summary: string, key: Option<string>,
          project: string, n: nat, now: int)
    requires Faithful(t) && StoreInv(t, s, n) && t.redact(summary) == summary && input.scope != Some(Global)
    ensures var r := AfterCapture(t, s, input, summary, key, project, n, now);
            && StoreInv(t, r, n + 1) && Sanitized(t.redact, r) == r
            && Total(r) == Total(s) + 1
            && (forall i | 0 <= i < |r| && r[i].promotedTo.Some? :: i < |s| && s[i].promotedTo == r[i].promotedTo)
            && (Apart(t, s) ==> Apart(t, r))
            && (forall i | 0 <= i < |r| :: r[i].id >= n || HasId(s, r[i].id))
  {
    var p := (c: Candidate) => c.status.Open? && SameLesson(t, c, key, t.fold(summary));
    var i := First(s, p);
    hide Apart, StoreInv, Sanitized, Different;
    if i < |s| {
      OccursOnce(t, s, i, n);
      var c := SeenAgain(t, s[i], input, key, now);
      EvidenceIsClean(t, s[i], input, key, now);
      hide Clean;
      ReplaceKeepsStore(t, s, i, c, n);
      StoreInvGrows(t, s[i := c], n, n + 1);
      TotalReplace(s, i, c);
    } else {
      var c := NewCandidate(t, input, summary, key, project, n, now);
      NewIsClean(t, input, summary, key, project, n, now);
      hide Clean;
      forall j | 0 <= j < |s| && s[j].status.Open? ensures Different(t, s[j], c) {
        assert !p(s[j]);
        OtherLesson(t, s[j], c);
      }
      AppendKeepsStore(t, s, c, n);
      assert (s + [c])[..|s|] == s;
    }
  }

  lemma OtherLesson(t: Text, a: Candidate, b: Candidate)
    requires !SameLesson(t, a, b.key, t.fold(b.summary))
    ensures Different(t, a, b)
  {
  }

  lemma NewIsClean(t: Text, input: Capture, summary: string, key: Option<string>, project: string, n: nat, now: int)
    requires Faithful(t) && t.redact(summary) == summary
    ensures Clean(t, NewCandidate(t, input, summary, key, project, n, now))
  {
  }

  lemma EvidenceIsClean(t: Text, c: Candidate, input: Capture, key: Option<string>, now: int)
    requires Faithful(t) && Clean(t, c)
    ensures Clean(t, SeenAgain(t, c, input, key, now))
  {
    var e := EvidenceOf(t, input.evidence);
    if e.Some? && e.value != "" { AddingKeeps(t, c.evidence, e.value); }
  }

  // ---------- The global store ----------

  lemma ReplaceKeepsGlobal(t: Text, g: seq<Candidate>, i: nat, c: Candidate, n: nat)
    requires GlobalInv(t, g, n) && i < |g| && Clean(t, c) && c.id == g[i].id && Visible(t, c)
    requires c.status.Promoted? ==> g[i].status.Promoted? && c.summary == g[i].summary && c.occurrences >= 2
    ensures GlobalInv(t, g[i := c], n) && Sanitized(t.redact, g[i := c]) == g[i := c]
    ensures forall id :: Exists(g, id) ==> Exists(g[i := c], id)
  {
    CleanIsSanitized(t, g[i := c]);
    forall id | Exists(g, id) ensures Exists(g[i := c], id) {
      var k :| 0 <= k < |g| && g[k].id == id;
      assert g[i := c][k].id == id;
    }
  }

  lemma AppendKeepsGlobal(t: Text, g: seq<Candidate>, c: Candidate, n: nat)
    requires GlobalInv(t, g, n) && Clean(t, c) && c.id == n && Visible(t, c) && c.status.Promoted? && c.occurrences >= 2
    requires forall i | 0 <= i < |g| && g[i].status.Promoted? :: t.fold(g[i].summary) != t.fold(c.summary)
    ensures GlobalInv(t, g + [c], n + 1) && Sanitized(t.redact, g + [c]) == g + [c]
    ensures Exists(g + [c], n) && forall id :: Exists(g, id) ==> Exists(g + [c], id)
  {
    CleanIsSanitized(t, g + [c]);
    assert (g + [c])[|g|].id == n;
    forall id | Exists(g, id) ensures Exists(g + [c], id) {
      var k :| 0 <= k < |g| && g[k].id == id;
      assert (g + [c])[k].id == id;
    }
  }

  lemma GlobalInvGrows(t: Text, g: seq<Candidate>, n: nat, m: nat)
    requires GlobalInv(t, g, n) && n <= m
    ensures GlobalInv(t, g, m) && Sanitized(t.redact, g) == g
  {
    CleanIsSanitized(t, g);
  }

  lemma WithGlobalKeeps(t: Text, g: seq<Candidate>, c: Candidate, summary: string, evidence: string, n: nat, now: int)
    requires Faithful(t) && GlobalInv(t, g, n) && c.occurrences >= 2 && !Unsafe(t, summary)
    ensures var (r, id) := WithGlobal(t, g, c, summary, t.promotionDigest(evidence), n, now);
            && GlobalInv(t, r, n + 1) && Sanitized(t.redact, r) == r
            && Exists(r, id) && forall k :: Exists(g, k) ==> Exists(r, k)
  {
    var digest := t.promotionDigest(evidence);
    var p := (x: Candidate) => x.status.Promoted? && t.fold(x.summary) == t.fold(summary);
    var i := First(g, p);
    if i < |g| {
      assert p(g[i]);
      var r := WithGlobal(t, g, c, summary, digest, n, now).0[i];
      ReplaceKeepsGlobal(t, g, i, r, n);
      GlobalInvGrows(t, g[i := r], n, n + 1);
      assert g[i := r][i].id == g[i].id;
    } else {
      var r := WithGlobal(t, g, c, summary, digest, n, now).0[i];
      forall k | 0 <= k < |g| && g[k].status.Promoted? ensures t.fold(g[k].summary) != t.fold(summary) { assert !p(g[k]); }
      AppendKeepsGlobal(t, g, r, n);
    }
  }

  // ---------- Steps ----------

  lemma StoreAt(t: Text, w: World, project: string)
    requires Inv(t, w)
    ensures StoreInv(t, Store(w, project), w.nextId) && Sanitized(t.redact, Store(w, project)) == Store(w, project)
    ensures GlobalInv(t, w.global, w.nextId) && Sanitized(t.redact, w.global) == w.global
  {
    CleanIsSanitized(t, Store(w, project));
    CleanIsSanitized(t, w.global);
  }

  lemma ProjectChanges(t: Text, w: World, project: string, s: seq<Candidate>, n: nat)
    requires Inv(t, w) && w.nextId <= n && StoreInv(t, s, n)
    requires forall i | 0 <= i < |s| && s[i].promotedTo.Some? :: Exists(w.global, s[i].promotedTo.value)
    requires forall i | 0 <= i < |s| :: s[i].id >= w.nextId || HasId(Store(w, project), s[i].id)
    requires Apart(t, Store(w, project)) ==> Apart(t, s)
    ensures Kept(t, w, w.(projects := w.projects[project := s], nextId := n))
  {
    var r := w.(projects := w.projects[project := s], nextId := n);
    GlobalInvGrows(t, w.global, w.nextId, n);
    assert forall other | other != project :: Store(r, other) == Store(w, other);
    forall other ensures StoreInv(t, Store(r, other), n) {
      if other != project { StoreInvGrows(t, Store(w, other), w.nextId, n); }
    }
    HomesStay(t, w, r, project, s);
  }

  lemma HomesStay(t: Text, w: World, r: World, project: string, s: seq<Candidate>)
    requires Inv(t, w) && Store(r, project) == s && forall other | other != project :: Store(r, other) == Store(w, other)
    requires forall i | 0 <= i < |s| :: s[i].id >= w.nextId || HasId(Store(w, project), s[i].id)
    ensures OneHome(w) ==> OneHome(r)
  {
    hide Inv;
    if OneHome(w) {
      forall q | q != project ensures Strangers(s, Store(w, q)) && Strangers(Store(w, q), s) {
        StoreAt(t, w, q);
        assert Strangers(Store(w, project), Store(w, q));
      }
    }
  }

  lemma GlobalChanges(t: Text, w: World, g: seq<Candidate>, n: nat)
    requires Inv(t, w) && w.nextId <= n && GlobalInv(t, g, n) && forall id :: Exists(w.global, id) ==> Exists(g, id)
    ensures Kept(t, w, w.(global := g, nextId := n))
  {
    var r := w.(global := g, nextId := n);
    forall project ensures StoreInv(t, Store(r, project), n) {
      assert Store(r, project) == Store(w, project);
      StoreInvGrows(t, Store(w, project), w.nextId, n);
    }
    hide StoreInv, GlobalInv, Apart;
    assert forall project :: Store(r, project) == Store(w, project);
  }

  lemma CaptureKeepsInv(t: Text, w: World, input: Capture, now: int)
    requires Faithful(t) && Inv(t, w) && DoCapture(t, w, input, now).Ok?
    ensures Kept(t, w, DoCapture(t, w, input, now).value)
    ensures var project, r := t.trim(input.project.value), DoCapture(t, w, input, now).value;
            && Total(Store(r, project)) == Total(Store(w, project)) + 1
            && forall other | other != project :: Store(r, other) == Store(w, other)
  {
    hide Inv, StoreInv, GlobalInv, AfterCapture, Faithful, KeyOf, Locked, Exists, Kept, Apart, HasId, Total, Sanitized;
    var project, summary := t.trim(input.project.value), t.redact(t.trim(input.summary));
    var s, key := Store(w, project), KeyOf(t, input.key).value;
    StoreAt(t, w, project);
    RedactTwice(t, t.trim(input.summary));
    CaptureKeepsStore(t, s, input, summary, key, project, w.nextId, now);
    var after := AfterCapture(t, s, input, summary, key, project, w.nextId, now);
    forall i | 0 <= i < |after| && after[i].promotedTo.Some? ensures Exists(w.global, after[i].promotedTo.value) {
      Referenced(t, w, project, i);
    }
    ProjectChanges(t, w, project, after, w.nextId + 1);
  }

  lemma RedactTwice(t: Text, s: string)
    requires Faithful(t)
    ensures t.redact(t.redact(s)) == t.redact(s)
  {
  }

  lemma Referenced(t: Text, w: World, project: string, i: nat)
    requires Inv(t, w) && i < |Store(w, project)| && Store(w, project)[i].promotedTo.Some?
    ensures Exists(w.global, Store(w, project)[i].promotedTo.value)
  {
  }

  /** A settled record takes the place of an open one. */
  lemma SettleKeepsInv(t: Text, w: World, project: string, i: nat, c: Candidate)
    requires Inv(t, w) && i < |Store(w, project)| && Clean(t, c) && !c.scope.Global? && !c.status.Open?
    requires c.id == Store(w, project)[i].id && c.occurrences == Store(w, project)[i].occurrences
    requires c.promotedTo.Some? ==> c.promotedTo == Store(w, project)[i].promotedTo || Exists(w.global, c.promotedTo.value)
    ensures Kept(t, w, Changed(t, w, project, i, c))
    ensures forall other :: Total(Store(Changed(t, w, project, i, c), other)) == Total(Store(w, other))
  {
    var s := Store(w, project);
    StoreAt(t, w, project);
    OccursOnce(t, s, i, w.nextId);
    ReplaceKeepsStore(t, s, i, c, w.nextId);
    TotalReplace(s, i, c);
    hide StoreInv, GlobalInv, Clean;
    var after := s[i := c];
    forall k | 0 <= k < |after| && after[k].promotedTo.Some? ensures Exists(w.global, after[k].promotedTo.value) {
      if k != i { Referenced(t, w, project, k); } else if c.promotedTo == s[i].promotedTo { Referenced(t, w, project, i); }
    }
    ProjectChanges(t, w, project, after, w.nextId);
  }

  lemma OccursOnce(t: Text, s: seq<Candidate>, i: nat, n: nat)
    requires StoreInv(t, s, n) && i < |s|
    ensures s[i].occurrences >= 1 && Clean(t, s[i]) && !s[i].scope.Global?
  {
  }

  /** Every call but the migration keeps what the stores promise, and counts captures alone. */
  lemma CallKeepsInv(t: Text, w: World, step: (Step, int))
    requires Faithful(t) && Inv(t, w) && !step.0.Migrate?
    ensures Kept(t, w, Apply(t, w, step))
    ensures forall project :: Total(Store(Apply(t, w, step), project)) == Total(Store(w, project)) + Captures(t, w, step, project)
  {
    hide Inv, Faithful, LessonsApart, OneHome;
    hide DoCapture, PromoteToProject, BeginGlobal, FinishGlobal, DismissGlobal, DismissLocal, Dropped;
    if Try(t, w, step.0, step.1).Ok? {
      match step.0
      case Learn(input) => CaptureKeepsInv(t, w, input, step.1);
      case PromoteHere(project, id, evidence) => PromoteHereKeepsInv(t, w, project, id, evidence, step.1);
      case BeginPromotion(project, id, summary, evidence, setting) =>
        BeginKeepsInv(t, w, project, id, summary, evidence, setting, step.1);
      case FinishPromotion(i) => FinishKeepsInv(t, w, i, step.1);
      case Crash(i) => DropKeepsInv(t, w, i);
      case Retract(id, evidence) => RetractKeepsInv(t, w, id, evidence, step.1);
      case Dismiss(project, id, evidence) => DismissKeepsInv(t, w, project, id, evidence, step.1);
    }
  }

  /** Whether the step is a capture that succeeds in the project. */
  function Captures(t: Text, w: World, step: (Step, int), project: string): nat {
    if step.0.Learn? && Try(t, w, step.0, step.1).Ok? && t.trim(step.0.input.project.value) == project then 1 else 0
  }

  lemma PromoteHereKeepsInv(t: Text, w: World, project: string, id: nat, evidence: string, now: int)
    requires Faithful(t) && Inv(t, w) && PromoteToProject(t, w, project, id, evidence, now).Ok?
    ensures var r := PromoteToProject(t, w, project, id, evidence, now).value;
            Kept(t, w, r) && forall other :: Total(Store(r, other)) == Total(Store(w, other))
  {
    StoreAt(t, w, project);
    var i, e := OpenCandidate(t, w, project, id).value, t.redact(t.trim(evidence));
    var c := Store(w, project)[i];
    OccursOnce(t, Store(w, project), i, w.nextId);
    AddingKeeps(t, c.evidence, e);
    SettleKeepsInv(t, w, project, i, c.(evidence := Adding(c.evidence, e), status := Promoted, scope := Project, updatedAt := now));
  }

  lemma DismissKeepsInv(t: Text, w: World, project: string, id: nat, evidence: string, now: int)
    requires Faithful(t) && Inv(t, w) && DismissLocal(t, w, project, id, evidence, now).Ok?
    ensures var r := DismissLocal(t, w, project, id, evidence, now).value;
            Kept(t, w, r) && forall other :: Total(Store(r, other)) == Total(Store(w, other))
  {
    StoreAt(t, w, project);
    var i, e := OpenCandidate(t, w, project, id).value, t.redact(t.trim(evidence));
    var c := Store(w, project)[i];
    OccursOnce(t, Store(w, project), i, w.nextId);
    AddingKeeps(t, c.evidence, e);
    SettleKeepsInv(t, w, project, i, c.(status := Dismissed, updatedAt := now, evidence := Adding(c.evidence, e)));
  }

  lemma BeginKeepsInv(t: Text, w: World, project: string, id: nat, summary: string, evidence: string,
          setting: Setting, now: int)
    requires Faithful(t) && Inv(t, w) && BeginGlobal(t, w, project, id, summary, evidence, setting, now).Ok?
    ensures var r := BeginGlobal(t, w, project, id, summary, evidence, setting, now).value;
            Kept(t, w, r) && r.projects == w.projects
  {
    BeginIs(t, w, project, id, summary, evidence, setting, now);
    BeginParts(t, w, project, id, summary, evidence, setting, now);
    StoreAt(t, w, project);
    hide Inv, StoreInv, GlobalInv, WithGlobal, Faithful, BeginGlobal, OpenCandidate, Exists;
    var c := Store(w, project)[OpenCandidate(t, w, project, id).value];
    WithGlobalKeeps(t, w.global, c, t.trim(summary), t.trim(evidence), w.nextId, now);
    var (g, promoted) := WithGlobal(t, w.global, c, t.trim(summary), t.promotionDigest(t.trim(evidence)), w.nextId, now);
    GlobalChanges(t, w, g, w.nextId + 1);
    PendingAdded(t, w.(global := g, nextId := w.nextId + 1), Pending(project, id, promoted));
  }

  lemma BeginParts(t: Text, w: World, project: string, id: nat, summary: string, evidence: string,
          setting: Setting, now: int)
    requires Inv(t, w) && BeginGlobal(t, w, project, id, summary, evidence, setting, now).Ok?
    ensures OpenCandidate(t, w, project, id).Ok? && OpenCandidate(t, w, project, id).value < |Store(w, project)|
    ensures Store(w, project)[OpenCandidate(t, w, project, id).value].occurrences >= 2 && !Unsafe(t, t.trim(summary))
    ensures var r := BeginGlobal(t, w, project, id, summary, evidence, setting, now).value;
            r == w.(global := r.global, pending := r.pending, nextId := w.nextId + 1)
  {
    StoreAt(t, w, project);
    hide Inv, WithGlobal, Locked;
  }

  lemma PendingAdded(t: Text, w: World, p: Pending)
    requires Inv(t, w) && Exists(w.global, p.promoted)
    ensures Kept(t, w, w.(pending := w.pending + [p]))
  {
    assert forall project :: Store(w.(pending := w.pending + [p]), project) == Store(w, project);
  }

  lemma DropKeepsInv(t: Text, w: World, i: nat)
    requires Inv(t, w) && i < |w.pending|
    ensures Kept(t, w, w.(pending := Dropped(w.pending, i)))
    ensures forall project :: Store(w.(pending := Dropped(w.pending, i)), project) == Store(w, project)
  {
    var r := w.(pending := Dropped(w.pending, i));
    assert forall project :: Store(r, project) == Store(w, project);
    forall k | 0 <= k < |r.pending| ensures Exists(r.global, r.pending[k].promoted) {
      assert r.pending[k] == w.pending[if k < i then k else k + 1];
    }
  }

  lemma FinishKeepsInv(t: Text, w: World, i: nat, now: int)
    requires Faithful(t) && Inv(t, w) && FinishGlobal(t, w, i, now).Ok?
    ensures var r := FinishGlobal(t, w, i, now).value;
            Kept(t, w, r) && forall other :: Total(Store(r, other)) == Total(Store(w, other))
  {
    var p := w.pending[i];
    assert Exists(w.global, p.promoted);
    StoreAt(t, w, p.project);
    var s := Store(w, p.project);
    var k := FindId(s, p.candidate);
    OccursOnce(t, s, k, w.nextId);
    var c := s[k].(status := Promoted, scope := Project, promotedTo := Some(p.promoted), updatedAt := now);
    SettleKeepsInv(t, w, p.project, k, c);
    DropKeepsInv(t, Changed(t, w, p.project, k, c), i);
  }

  lemma RetractKeepsInv(t: Text, w: World, id: nat, evidence: string, now: int)
    requires Faithful(t) && Inv(t, w) && DismissGlobal(t, w, id, evidence, now).Ok?
    ensures var r := DismissGlobal(t, w, id, evidence, now).value;
            Kept(t, w, r) && r.projects == w.projects
  {
    StoreAt(t, w, "");
    var g := w.global;
    var i := FindId(g, id);
    var c := g[i].(status := Dismissed, summary := RETRACTED, evidence := [t.dismissalDigest(t.trim(evidence))],
                   occurrences := 0, updatedAt := now, key := None, project := None, repoPath := None, promotedTo := None);
    ReplaceKeepsGlobal(t, g, i, c, w.nextId);
    GlobalChanges(t, w, g[i := c], w.nextId);
  }

  // ---------- The migration's step ----------

  /** The migration finds something to move and gets as far as the rename of the target. */
  predicate Writes(t: Text, w: World, step: Step) {
    && step.Migrate? && Looks(t, w, step.project, step.repoPath) && step.calls >= 2
    && !Locked(w, Short(t, step)) && !Locked(w, step.project)
    && Legacy.Runs(EnvOf(t, step.project, step.git), FilesOf(w, Short(t, step), step.project))
  }

  /** The name that the repository's store used to have. */
  function Short(t: Text, step: Step): string
    requires step.Migrate? && step.repoPath.Some?
  {
    t.basename(step.repoPath.value)
  }

  /** It gets to its end, too. */
  predicate Finishes(t: Text, w: World, step: Step)
    requires Writes(t, w, step)
  {
    Completes(EnvOf(t, step.project, step.git), FilesOf(w, Short(t, step), step.project), step.calls)
  }

  predicate CutOff(t: Text, w: World, step: Step) { Writes(t, w, step) && !Finishes(t, w, step) }

  /** What the migration moves. */
  function Moving(t: Text, w: World, step: Step): seq<Candidate>
    requires Writes(t, w, step)
  {
    Legacy.Migrated(EnvOf(t, step.project, step.git), Store(w, Short(t, step)))
  }

  lemma OtherName(t: Text, w: World, step: Step)
    requires Faithful(t) && Writes(t, w, step)
    ensures Short(t, step) != step.project
  {
  }

  lemma PartitionKeepsStore(t: Text, env: Legacy.Env, s: seq<Candidate>, n: nat)
    requires StoreInv(t, s, n)
    ensures StoreInv(t, Legacy.Migrated(env, s), n) && StoreInv(t, Legacy.Quarantined(env, s), n)
  {
    Legacy.MigratedDistinct(env, s);
    QuarantinedMembers(env, s);
    forall c | c in Legacy.Migrated(env, s)
      ensures Clean(t, c) && c.id < n && !c.scope.Global? && c.occurrences >= 1
    {
      var i := MigratedFrom(env, s, c);
    }
    forall c | c in Legacy.Quarantined(env, s)
      ensures Clean(t, c) && c.id < n && !c.scope.Global? && c.occurrences >= 1
    {
      assert c in s;
    }
  }

  lemma MergeKeepsStore(t: Text, existing: seq<Candidate>, migrated: seq<Candidate>, n: nat)
    requires StoreInv(t, existing, n) && StoreInv(t, migrated, n)
    ensures StoreInv(t, Legacy.Merge(existing, migrated), n)
  {
    hide Legacy.Merge;
    var r := Legacy.Merge(existing, migrated);
    Legacy.MergeDistinct(existing, migrated);
    forall c | c in r ensures Clean(t, c) && c.id < n && !c.scope.Global? && c.occurrences >= 1 {
      MergeMembers(existing, migrated, c);
    }
  }

  /** What the migration leaves in the two stores. */
  lemma MigrateIs(t: Text, w: World, step: (Step, int))
    requires Faithful(t) && Inv(t, w) && Writes(t, w, step.0)
    ensures var r, env := Apply(t, w, step), EnvOf(t, step.0.project, step.0.git);
            && r == w.(projects := r.projects)
            && Store(r, step.0.project) == Legacy.Merge(Store(w, step.0.project), Moving(t, w, step.0))
            && Store(r, Short(t, step.0)) == (if Finishes(t, w, step.0) then Legacy.Quarantined(env, Store(w, Short(t, step.0)))
                                              else Store(w, Short(t, step.0)))
            && forall other | other != step.0.project && other != Short(t, step.0) :: Store(r, other) == Store(w, other)
  {
    var short, project := Short(t, step.0), step.0.project;
    var env, fs := EnvOf(t, project, step.0.git), FilesOf(w, short, project);
    StoreAt(t, w, short);
    StoreAt(t, w, project);
    OtherName(t, w, step.0);
    MovesSafely(t, w, step.0);
    Legacy.NewTargetIs(env, fs);
    HeldIs(t, w, project);
    hide Inv, Faithful, Legacy.NewTarget, Legacy.Merge, Legacy.Quarantined, Legacy.Migrated, Legacy.After, Sanitized, StoreInv;
    hide Locked, Looks, Completes, Legacy.FromEntries, GlobalInv;
    ThreeOutcomes(env, fs, step.0.calls);
    var after := Legacy.After(env, fs, step.0.calls);
    TwoFiles(w, project, short, after.target, after.legacy);
    MigrateWrites(t, w, step);
  }

  lemma MovesSafely(t: Text, w: World, step: Step)
    requires Faithful(t) && Inv(t, w) && Writes(t, w, step)
    ensures var merged, rest := Legacy.Merge(Store(w, step.project), Moving(t, w, step)),
                                Legacy.Quarantined(EnvOf(t, step.project, step.git), Store(w, Short(t, step)));
            && StoreInv(t, merged, w.nextId) && Sanitized(t.redact, merged) == merged
            && StoreInv(t, rest, w.nextId) && Sanitized(t.redact, rest) == rest
  {
    StoreAt(t, w, Short(t, step));
    StoreAt(t, w, step.project);
    hide Inv, Faithful, Legacy.Merge, Legacy.Quarantined, Legacy.Migrated, Sanitized, StoreInv, Writes;
    PartitionKeepsStore(t, EnvOf(t, step.project, step.git), Store(w, Short(t, step)), w.nextId);
    MergeKeepsStore(t, Store(w, step.project), Moving(t, w, step), w.nextId);
    StoreIsSanitized(t, Legacy.Merge(Store(w, step.project), Moving(t, w, step)), w.nextId);
    StoreIsSanitized(t, Legacy.Quarantined(EnvOf(t, step.project, step.git), Store(w, Short(t, step))), w.nextId);
  }

  lemma MigrateWrites(t: Text, w: World, step: (Step, int))
    requires Writes(t, w, step.0)
    ensures var short, project := Short(t, step.0), step.0.project;
            var r := Legacy.After(EnvOf(t, project, step.0.git), FilesOf(w, short, project), step.0.calls);
            Apply(t, w, step) == w.(projects := WithFile(WithFile(w.projects, project, r.target), short, r.legacy))
  {
    hide Legacy.After;
  }

  lemma TwoFiles(w: World, project: string, short: string, a: Legacy.File, b: Legacy.File)
    requires short != project
    ensures var r := w.(projects := WithFile(WithFile(w.projects, project, a), short, b));
            && Store(r, project) == (if a.Store? then a.candidates else [])
            && Store(r, short) == (if b.Store? then b.candidates else [])
            && forall other | other != project && other != short :: Store(r, other) == Store(w, other)
  {
  }

  lemma StoreIsSanitized(t: Text, s: seq<Candidate>, n: nat)
    requires StoreInv(t, s, n)
    ensures Sanitized(t.redact, s) == s
  {
    CleanIsSanitized(t, s);
  }

  lemma HeldIs(t: Text, w: World, project: string)
    requires Inv(t, w)
    ensures Legacy.Held(FileOf(w, project)) == Store(w, project)
  {
    StoreAt(t, w, project);
    Legacy.FromDistinctEntries(Store(w, project));
  }

  lemma NothingWritten(t: Text, w: World, step: (Step, int))
    requires step.0.Migrate? && !Writes(t, w, step.0)
    ensures Apply(t, w, step) == w
  {
  }

  lemma Points(t: Text, w: World, project: string, c: Candidate)
    requires Inv(t, w) && c in Store(w, project)
    ensures c.promotedTo.Some? ==> Exists(w.global, c.promotedTo.value)
  {
    var i :| 0 <= i < |Store(w, project)| && Store(w, project)[i] == c;
    if c.promotedTo.Some? { Referenced(t, w, project, i); }
  }

  lemma MovedPoint(t: Text, w: World, step: Step, c: Candidate)
    requires Faithful(t) && Inv(t, w) && Writes(t, w, step)
    requires c in Legacy.Merge(Store(w, step.project), Moving(t, w, step))
          || c in Legacy.Quarantined(EnvOf(t, step.project, step.git), Store(w, Short(t, step)))
    ensures c.promotedTo.Some? ==> Exists(w.global, c.promotedTo.value)
  {
    var env, legacy := EnvOf(t, step.project, step.git), Store(w, Short(t, step));
    StoreAt(t, w, step.project);
    StoreAt(t, w, Short(t, step));
    hide Inv, Writes, Exists, Legacy.Merge, Legacy.Migrated, Legacy.Quarantined, Faithful;
    QuarantinedMembers(env, legacy);
    PartitionKeepsStore(t, env, legacy, w.nextId);
    MergeMembers(Store(w, step.project), Moving(t, w, step), c);
    if c in Moving(t, w, step) {
      var i := MigratedFrom(env, legacy, c);
      Points(t, w, Short(t, step), legacy[i]);
    } else if c in legacy {
      Points(t, w, Short(t, step), c);
    }
    if c in Store(w, step.project) { Points(t, w, step.project, c); }
  }

  lemma MigrationKeepsInv(t: Text, w: World, step: (Step, int))
    requires Faithful(t) && Inv(t, w) && step.0.Migrate?
    ensures Inv(t, Apply(t, w, step))
  {
    if Writes(t, w, step.0) {
      MigrateIs(t, w, step);
      MovesSafely(t, w, step.0);
      var r := Apply(t, w, step);
      hide Writes, Apply, Legacy.Merge, Legacy.Quarantined, Moving, StoreInv, GlobalInv, Exists, Faithful;
      forall project ensures StoreInv(t, Store(r, project), r.nextId) { StoreAt(t, w, project); }
      forall project, i | 0 <= i < |Store(r, project)| && Store(r, project)[i].promotedTo.Some?
        ensures Exists(r.global, Store(r, project)[i].promotedTo.value)
      {
        var c := Store(r, project)[i];
        if c in Store(w, project) { Points(t, w, project, c); } else { MovedPoint(t, w, step.0, c); }
      }
    } else {
      NothingWritten(t, w, step);
    }
  }

  /** Every step keeps what the stores promise, a migration wherever it is cut off. */
  lemma StepKeepsInv(t: Text, w: World, step: (Step, int))
    requires Faithful(t) && Inv(t, w)
    ensures Inv(t, Apply(t, w, step))
  {
    if step.0.Migrate? { MigrationKeepsInv(t, w, step); } else { CallKeepsInv(t, w, step); }
  }

  // ---------- Which migrations keep lessons apart ----------

  /** A record that arrives and one that stays are open and about one lesson. */
  ghost predicate Clash(t: Text, existing: seq<Candidate>, migrated: seq<Candidate>) {
    exists c, e | Arrives(existing, migrated, c) && Stays(existing, migrated, e) ::
      c.status.Open? && e.status.Open? && !Different(t, c, e)
  }

  ghost predicate Collides(t: Text, w: World, step: Step) {
    Writes(t, w, step) && Clash(t, Store(w, step.project), Moving(t, w, step))
  }

  lemma ApartOf(t: Text, s: seq<Candidate>, a: Candidate, b: Candidate)
    requires Apart(t, s) && a in s && b in s && a.id != b.id && a.status.Open? && b.status.Open?
    ensures Different(t, a, b)
  {
    var i: nat :| i < |s| && s[i] == a;
    var j: nat :| j < |s| && s[j] == b;
    assert i < j ==> Different(t, s[i], s[j]);
    assert j < i ==> Different(t, s[j], s[i]);
  }

  lemma PartitionKeepsApart(t: Text, env: Legacy.Env, s: seq<Candidate>)
    requires Legacy.Distinct(s) && Apart(t, s)
    ensures Apart(t, Legacy.Migrated(env, s)) && Apart(t, Legacy.Quarantined(env, s))
  {
    var m, q := Legacy.Migrated(env, s), Legacy.Quarantined(env, s);
    Legacy.MigratedDistinct(env, s);
    QuarantinedMembers(env, s);
    hide Legacy.Migrated, Legacy.Quarantined, Apart, Different;
    forall i, j | 0 <= i < j < |m| && m[i].status.Open? && m[j].status.Open? ensures Different(t, m[i], m[j]) {
      var k := MigratedFrom(env, s, m[i]);
      var l := MigratedFrom(env, s, m[j]);
      ApartOf(t, s, s[k], s[l]);
      SameDifference(t, s[k], s[l], m[i], m[j]);
    }
    forall i, j | 0 <= i < j < |q| && q[i].status.Open? && q[j].status.Open? ensures Different(t, q[i], q[j]) {
      assert q[i] in q && q[j] in q;
      ApartOf(t, s, q[i], q[j]);
    }
    AreApart(t, m);
    AreApart(t, q);
  }

  lemma AreApart(t: Text, s: seq<Candidate>)
    ensures (forall i, j | 0 <= i < j < |s| && s[i].status.Open? && s[j].status.Open? :: Different(t, s[i], s[j])) <==> Apart(t, s)
  {
  }

  lemma SameDifference(t: Text, a: Candidate, b: Candidate, c: Candidate, d: Candidate)
    requires a.key == c.key && b.key == d.key && a.summary == c.summary && b.summary == d.summary && Different(t, a, b)
    ensures Different(t, c, d)
  {
  }

  lemma MergeKeepsApartExactly(t: Text, existing: seq<Candidate>, migrated: seq<Candidate>)
    requires Legacy.Distinct(existing) && Legacy.Distinct(migrated) && Apart(t, existing) && Apart(t, migrated)
    ensures Apart(t, Legacy.Merge(existing, migrated)) <==> !Clash(t, existing, migrated)
  {
    var r := Legacy.Merge(existing, migrated);
    Legacy.MergeDistinct(existing, migrated);
    hide Legacy.Merge, Apart, Different, Legacy.Lookup;
    if !Clash(t, existing, migrated) {
      forall i, j | 0 <= i < j < |r| && r[i].status.Open? && r[j].status.Open? ensures Different(t, r[i], r[j]) {
        MergeMembers(existing, migrated, r[i]);
        MergeMembers(existing, migrated, r[j]);
        BothApart(t, existing, migrated, r[i], r[j]);
      }
      AreApart(t, r);
    } else {
      var c, e :| Arrives(existing, migrated, c) && Stays(existing, migrated, e)
                  && c.status.Open? && e.status.Open? && !Different(t, c, e);
      MergeMembers(existing, migrated, c);
      MergeMembers(existing, migrated, e);
      ArrivingIsNotStaying(existing, migrated, c, e);
      if Apart(t, r) { ApartOf(t, r, c, e); }
    }
  }

  lemma BothApart(t: Text, existing: seq<Candidate>, migrated: seq<Candidate>, a: Candidate, b: Candidate)
    requires Apart(t, existing) && Apart(t, migrated) && !Clash(t, existing, migrated)
    requires Stays(existing, migrated, a) || Arrives(existing, migrated, a)
    requires Stays(existing, migrated, b) || Arrives(existing, migrated, b)
    requires a.id != b.id && a.status.Open? && b.status.Open?
    ensures Different(t, a, b)
  {
    hide Legacy.Lookup, Apart;
    if a in existing && b in existing {
      ApartOf(t, existing, a, b);
    } else if a in migrated && b in migrated {
      ApartOf(t, migrated, a, b);
    }
  }

  lemma ArrivingIsNotStaying(existing: seq<Candidate>, migrated: seq<Candidate>, c: Candidate, e: Candidate)
    requires Legacy.Distinct(existing) && Legacy.Distinct(migrated)
    requires Arrives(existing, migrated, c) && Stays(existing, migrated, e)
    ensures c.id != e.id
  {
    MemberIsFound(existing, e);
    MemberIsFound(migrated, c);
  }

  /** Main theorem: a step leaves every project with one open record per lesson, unless it is a migration that
      brings an open record about the lesson of an open record that stays. */
  lemma StepKeepsLessonsApartExactly(t: Text, w: World, step: (Step, int))
    requires Faithful(t) && Inv(t, w) && LessonsApart(t, w)
    ensures LessonsApart(t, Apply(t, w, step)) <==> !Collides(t, w, step.0)
  {
    if !step.0.Migrate? {
      CallKeepsInv(t, w, step);
    } else if !Writes(t, w, step.0) {
      NothingWritten(t, w, step);
    } else {
      MigrateIs(t, w, step);
      OtherName(t, w, step.0);
      StoreAt(t, w, Short(t, step.0));
      StoreAt(t, w, step.0.project);
      var env, short, project := EnvOf(t, step.0.project, step.0.git), Short(t, step.0), step.0.project;
      var r := Apply(t, w, step);
      hide Inv, Faithful, GlobalInv, Writes, Apply, Legacy.Merge, Legacy.Quarantined, Legacy.Migrated, Apart, Clash;
      PartitionKeepsApart(t, env, Store(w, short));
      PartitionKeepsStore(t, env, Store(w, short), w.nextId);
      MergeKeepsApartExactly(t, Store(w, project), Moving(t, w, step.0));
      assert LessonsApart(t, r) ==> Apart(t, Store(r, project));
    }
  }

  // ---------- Which migrations keep each record in one store ----------

  lemma MovingIsNew(t: Text, w: World, step: Step)
    requires Faithful(t) && Inv(t, w) && OneHome(w) && Writes(t, w, step)
    ensures Legacy.Distinct(Moving(t, w, step))
    ensures forall c | c in Moving(t, w, step) :: !HasId(Store(w, step.project), c.id)
    ensures Legacy.Merge(Store(w, step.project), Moving(t, w, step)) == Store(w, step.project) + Moving(t, w, step)
    ensures Moving(t, w, step) != [] && Total(Moving(t, w, step)) >= 1
  {
    var env, legacy := EnvOf(t, step.project, step.git), Store(w, Short(t, step));
    OtherName(t, w, step);
    StoreAt(t, w, Short(t, step));
    PartitionKeepsStore(t, env, legacy, w.nextId);
    var moving := Moving(t, w, step);
    assert moving != [] && moving[|moving| - 1].occurrences >= 1;
    hide Inv, Faithful, GlobalInv, Writes, Legacy.Merge, Legacy.Migrated;
    assert Strangers(legacy, Store(w, step.project));
    forall c | c in moving ensures !HasId(Store(w, step.project), c.id) {
      var i := MigratedFrom(env, legacy, c);
    }
    MergeFresh(Store(w, step.project), moving);
  }

  /** Main theorem: a step leaves each record in one store, unless it is a migration that is cut off between
      its two writes. */
  lemma StepKeepsOneHomeExactly(t: Text, w: World, step: (Step, int))
    requires Faithful(t) && Inv(t, w) && OneHome(w)
    ensures OneHome(Apply(t, w, step)) <==> !CutOff(t, w, step.0)
  {
    if !step.0.Migrate? {
      CallKeepsInv(t, w, step);
    } else if !Writes(t, w, step.0) {
      NothingWritten(t, w, step);
    } else {
      MigrateIs(t, w, step);
      OtherName(t, w, step.0);
      MovingIsNew(t, w, step.0);
      var env, short, project := EnvOf(t, step.0.project, step.0.git), Short(t, step.0), step.0.project;
      var r := Apply(t, w, step);
      hide Inv, Faithful, Writes, Apply, Legacy.Merge, Legacy.Quarantined, Legacy.Migrated;
      MovedIds(t, w, step.0);
      var moving := Moving(t, w, step.0);
      if Finishes(t, w, step.0) {
        forall p, q | p != q ensures Strangers(Store(r, p), Store(r, q)) {
          if p == project {
            AwayFromMoved(w, short, project, moving, q, Store(r, q));
          } else if q == project {
            AwayFromMoved(w, short, project, moving, p, Store(r, p));
            Turned(Store(r, q), Store(r, p));
          } else {
            StrangersFrom(w, p, q, Store(r, p), Store(r, q));
          }
        }
      } else {
        InTwoStores(Store(w, project) + moving, moving, Store(w, short));
        assert !Strangers(Store(r, project), Store(r, short));
      }
    }
  }

  lemma Turned(a: seq<Candidate>, b: seq<Candidate>)
    requires Strangers(a, b)
    ensures Strangers(b, a)
  {
  }

  /** The two parts of the short name's store: which ids they hold, and that they share none. */
  lemma MovedIds(t: Text, w: World, step: Step)
    requires Faithful(t) && Inv(t, w) && Writes(t, w, step)
    ensures var legacy, rest := Store(w, Short(t, step)), Legacy.Quarantined(EnvOf(t, step.project, step.git), Store(w, Short(t, step)));
            IdsFrom(Moving(t, w, step), legacy) && IdsFrom(rest, legacy) && Strangers(Moving(t, w, step), rest)
  {
    var env, legacy := EnvOf(t, step.project, step.git), Store(w, Short(t, step));
    StoreAt(t, w, Short(t, step));
    QuarantinedMembers(env, legacy);
    hide Inv, Faithful, Writes, GlobalInv, Legacy.Migrated, Legacy.Quarantined, Legacy.Attributable;
    var m, q := Legacy.Migrated(env, legacy), Legacy.Quarantined(env, legacy);
    forall i | 0 <= i < |m| ensures HasId(legacy, m[i].id) {
      var k := MigratedFrom(env, legacy, m[i]);
    }
    forall j | 0 <= j < |q| ensures HasId(legacy, q[j].id) {
      assert q[j] in q;
      var l :| 0 <= l < |legacy| && legacy[l] == q[j];
    }
    forall i, j | 0 <= i < |m| && 0 <= j < |q| ensures m[i].id != q[j].id {
      var k := MigratedFrom(env, legacy, m[i]);
      assert q[j] in q;
      var l: nat :| l < |legacy| && legacy[l] == q[j];
      SameId(legacy, k, l);
    }
  }

  lemma SameId(s: seq<Candidate>, k: nat, l: nat)
    requires Legacy.Distinct(s) && k < |s| && l < |s|
    ensures s[k].id == s[l].id ==> k == l
  {
    assert k < l ==> s[k].id != s[l].id;
    assert l < k ==> s[l].id != s[k].id;
  }

  lemma StrangersFrom(w: World, p: string, q: string, a: seq<Candidate>, b: seq<Candidate>)
    requires OneHome(w) && p != q && IdsFrom(a, Store(w, p)) && IdsFrom(b, Store(w, q))
    ensures Strangers(a, b)
  {
    assert Strangers(Store(w, p), Store(w, q));
  }

  /** The new target and any other store share no id. */
  lemma AwayFromMoved(w: World, short: string, project: string, moving: seq<Candidate>, q: string, s: seq<Candidate>)
    requires OneHome(w) && short != project && q != project
    requires IdsFrom(moving, Store(w, short)) && IdsFrom(s, Store(w, q))
    requires q == short ==> Strangers(moving, s)
    ensures Strangers(Store(w, project) + moving, s)
  {
    IdsFromItself(Store(w, project));
    StrangersFrom(w, project, q, Store(w, project), s);
    if q != short { StrangersFrom(w, short, q, moving, s); }
  }

  lemma IdsFromItself(s: seq<Candidate>)
    ensures IdsFrom(s, s)
  {
  }

  lemma InTwoStores(a: seq<Candidate>, moving: seq<Candidate>, legacy: seq<Candidate>)
    requires moving != [] && IdsFrom(moving, legacy) && |moving| <= |a| && a[|a| - |moving|..] == moving
    ensures !Strangers(a, legacy)
  {
    assert HasId(legacy, moving[0].id);
    var k :| 0 <= k < |legacy| && legacy[k].id == moving[0].id;
    assert a[|a| - |moving|].id == legacy[k].id;
  }

  // ---------- Occurrences move with their records ----------

  function MovedIn(t: Text, w: World, step: Step, project: string): nat {
    if Writes(t, w, step) && step.project == project then Total(Moving(t, w, step)) else 0
  }

  function MovedOut(t: Text, w: World, step: Step, project: string): nat {
    if Writes(t, w, step) && Finishes(t, w, step) && Short(t, step) == project then Total(Moving(t, w, step)) else 0
  }

  /** A step counts its capture and moves the occurrences of the records that it moves. */
  lemma StepCounts(t: Text, w: World, step: (Step, int), project: string)
    requires Faithful(t) && Inv(t, w) && OneHome(w)
    ensures Total(Store(Apply(t, w, step), project)) + MovedOut(t, w, step.0, project) ==
            Total(Store(w, project)) + Captures(t, w, step, project) + MovedIn(t, w, step.0, project)
  {
    if !step.0.Migrate? {
      CallKeepsInv(t, w, step);
    } else if Writes(t, w, step.0) {
      MigrationCounts(t, w, step, project);
    } else {
      NothingWritten(t, w, step);
    }
  }

  lemma MigrationCounts(t: Text, w: World, step: (Step, int), project: string)
    requires Faithful(t) && Inv(t, w) && OneHome(w) && Writes(t, w, step.0)
    ensures Total(Store(Apply(t, w, step), project)) + MovedOut(t, w, step.0, project) ==
            Total(Store(w, project)) + MovedIn(t, w, step.0, project)
  {
    var target, short := step.0.project, Short(t, step.0);
    MigrateIs(t, w, step);
    OtherName(t, w, step.0);
    MovingIsNew(t, w, step.0);
    hide Inv, Faithful, Writes, OneHome, Apply, Finishes, Legacy.Merge, Legacy.Quarantined, Legacy.Migrated, Legacy.Distinct, Total;
    TotalConcat(Store(w, target), Moving(t, w, step.0));
    PartitionTotals(EnvOf(t, target, step.0.git), Store(w, short));
  }

  /** Two stores differ at most in when a record was last touched. */
  predicate Unchanged(a: seq<Candidate>, b: seq<Candidate>) {
    |a| == |b| && forall i | 0 <= i < |a| :: a[i].(updatedAt := 0) == b[i].(updatedAt := 0)
  }

  /** The global record that the last promotion begun will be linked to. */
  function LastPromoted(w: World): Option<nat> {
    if w.pending == [] then None else Some(w.pending[|w.pending| - 1].promoted)
  }

  lemma WithGlobalTwice(t: Text, g: seq<Candidate>, c: Candidate, d: Candidate, summary: string, digest: string,
                        n: nat, m: nat, now: int, later: int)
    ensures var (once, id) := WithGlobal(t, g, c, summary, digest, n, now);
            var (twice, again) := WithGlobal(t, once, d, summary, digest, m, later);
            Unchanged(once, twice) && again == id
  {
    var p := (x: Candidate) => x.status.Promoted? && t.fold(x.summary) == t.fold(summary);
    var i := First(g, p);
    var once := WithGlobal(t, g, c, summary, digest, n, now).0;
    var k := First(once, p);
    assert i < |once| && once[i].status.Promoted? && once[i].summary == (if i < |g| then g[i].summary else summary) &&
           digest in once[i].evidence;
    assert p(once[i]) by { if i < |g| { assert p(g[i]); } }
    assert forall j | 0 <= j < i :: once[j] == g[j] && !p(g[j]);
    assert k == i;
  }

  /** Main theorem: when a promotion crashes after its first write, promoting again with the same summary and
      evidence finds the same global record and counts nothing twice, however often the candidate has been
      captured since. */
  lemma RetryCountsNothingTwice(t: Text, w: World, v: World, project: string, id: nat, summary: string,
          evidence: string,
                                setting: Setting, now: int, later: int)
    requires Faithful(t) && Inv(t, w) && BeginGlobal(t, w, project, id, summary, evidence, setting, now).Ok?
    requires v.global == BeginGlobal(t, w, project, id, summary, evidence, setting, now).value.global
    requires Inv(t, v) && BeginGlobal(t, v, project, id, summary, evidence, setting, later).Ok?
    ensures var first := BeginGlobal(t, w, project, id, summary, evidence, setting, now).value;
            var retried := BeginGlobal(t, v, project, id, summary, evidence, setting, later).value;
            && Unchanged(first.global, retried.global)
            && LastPromoted(first).Some? && LastPromoted(retried) == LastPromoted(first)
  {
    BeginIs(t, w, project, id, summary, evidence, setting, now);
    BeginIs(t, v, project, id, summary, evidence, setting, later);
    hide Inv, Faithful, WithGlobal, BeginGlobal;
    var c := Store(w, project)[OpenCandidate(t, w, project, id).value];
    var d := Store(v, project)[OpenCandidate(t, v, project, id).value];
    WithGlobalTwice(t, w.global, c, d, t.trim(summary), t.promotionDigest(t.trim(evidence)), w.nextId, v.nextId, now, later);
  }

  lemma BeginIs(t: Text, w: World, project: string, id: nat, summary: string, evidence: string, setting: Setting,
          now: int)
    requires Faithful(t) && Inv(t, w) && BeginGlobal(t, w, project, id, summary, evidence, setting, now).Ok?
    ensures OpenCandidate(t, w, project, id).Ok? && OpenCandidate(t, w, project, id).value < |Store(w, project)|
    ensures var c := Store(w, project)[OpenCandidate(t, w, project, id).value];
            var r := BeginGlobal(t, w, project, id, summary, evidence, setting, now).value;
            var (g, promoted) := WithGlobal(t, w.global, c, t.trim(summary), t.promotionDigest(t.trim(evidence)), w.nextId, now);
            r.global == g && r.pending == w.pending + [Pending(project, id, promoted)]
  {
    StoreAt(t, w, project);
    hide Inv, WithGlobal, Locked;
    var c := Store(w, project)[OpenCandidate(t, w, project, id).value];
    assert !Unsafe(t, t.trim(summary)) && c.occurrences >= 2;
    WithGlobalKeeps(t, w.global, c, t.trim(summary), t.trim(evidence), w.nextId, now);
  }

  /** A new global record holds nothing to redact, and names neither the candidate's project and repository
      nor any known project. */
  lemma OnlyPresentableIsPromoted(t: Text, w: World, project: string, id: nat, summary: string, evidence: string,
          setting: Setting, now: int)
    requires Faithful(t) && Inv(t, w) && BeginGlobal(t, w, project, id, summary, evidence, setting, now).Ok?
    ensures OpenCandidate(t, w, project, id).Ok? && OpenCandidate(t, w, project, id).value < |Store(w, project)|
    ensures var before, after := w.global, BeginGlobal(t, w, project, id, summary, evidence, setting, now).value.global;
            var c := Store(w, project)[OpenCandidate(t, w, project, id).value];
            && |before| <= |after|
            && (forall i | 0 <= i < |before| :: after[i].summary == before[i].summary)
            && (forall i | |before| <= i < |after| :: Presentable(t, after[i].summary, c, setting))
  {
    BeginIs(t, w, project, id, summary, evidence, setting, now);
    var c := Store(w, project)[OpenCandidate(t, w, project, id).value];
    assert Presentable(t, t.trim(summary), c, setting) by { PromotedIsPresentable(t, w, project, id, summary, evidence, setting, now); }
    hide Inv, Faithful, BeginGlobal, Presentable, OpenCandidate;
  }

  lemma PromotedIsPresentable(t: Text, w: World, project: string, id: nat, summary: string, evidence: string,
          setting: Setting, now: int)
    requires Inv(t, w) && BeginGlobal(t, w, project, id, summary, evidence, setting, now).Ok?
    ensures OpenCandidate(t, w, project, id).Ok? && OpenCandidate(t, w, project, id).value < |Store(w, project)|
    ensures Presentable(t, t.trim(summary), Store(w, project)[OpenCandidate(t, w, project, id).value], setting)
  {
    StoreAt(t, w, project);
    hide Inv, WithGlobal, Presentable, Locked;
  }

  lemma PromoteGloballyKeepsInv(t: Text, w: World, project: string, id: nat, summary: string, evidence: string,
          setting: Setting, now: int, crash: bool)
    requires Faithful(t) && Inv(t, w)
    ensures var r := PromoteGlobally(t, w, project, id, summary, evidence, setting, now, crash); r.Ok? ==> Inv(t, r.value)
  {
    hide Inv, Faithful, BeginGlobal, FinishGlobal;
    var begun := BeginGlobal(t, w, project, id, summary, evidence, setting, now);
    StepKeepsInv(t, w, (BeginPromotion(project, id, summary, evidence, setting), now));
    if begun.Ok? {
      BeginAdds(t, w, project, id, summary, evidence, setting, now);
      var n := |begun.value.pending| - 1;
      StepKeepsInv(t, begun.value, (FinishPromotion(n), now));
      StepKeepsInv(t, begun.value, (Crash(n), now));
    }
  }

  lemma BeginAdds(t: Text, w: World, project: string, id: nat, summary: string, evidence: string, setting: Setting, now: int)
    requires BeginGlobal(t, w, project, id, summary, evidence, setting, now).Ok?
    ensures |BeginGlobal(t, w, project, id, summary, evidence, setting, now).value.pending| == |w.pending| + 1
  {
    hide WithGlobal, Presentable, OpenCandidate;
  }

  /** What a promotion to all projects answers and writes. */
  lemma PromotionIs(t: Text, w: World, project: string, id: nat, summary: string, evidence: string, setting: Setting,
          now: int, crash: bool)
    ensures var found, r := OpenCandidate(t, w, project, id),
                            PromoteGlobally(t, w, project, id, summary, evidence, setting, now, crash);
            if found.Err? then r == Err(found.error)
            else
              && found.value < |Store(w, project)|
              && var s := Sanitized(t.redact, Store(w, project)); var c := s[found.value];
              if c.occurrences < 2 then r == Err(NotRecurring)
              else if setting.allowed.None? then r == Err(NoRepository)
              else if !setting.allowed.value then r == Err(ForbiddenByPolicy)
              else if !Presentable(t, t.trim(summary), c, setting) || !Presentable(t, t.trim(evidence), c, setting)
              then r == Err(NotSanitized)
              else
                var (g, promoted) := WithGlobal(t, Sanitized(t.redact, w.global), c, t.trim(summary),
                                                t.promotionDigest(t.trim(evidence)), w.nextId, now);
                var linked := c.(status := Promoted, scope := Project, promotedTo := Some(promoted), updatedAt := now);
                r == Ok(World(if crash then w.projects
                              else w.projects[project := Sanitized(t.redact, s[found.value := linked])],
                              Sanitized(t.redact, g), w.pending, w.nextId + 1))
  {
    hide WithGlobal, Presentable, Locked, First, FindId;
    var found, s := OpenCandidate(t, w, project, id), Sanitized(t.redact, Store(w, project));
    if found.Ok? {
      var c := s[found.value];
      var (g, promoted) := WithGlobal(t, Sanitized(t.redact, w.global), c, t.trim(summary),
                                      t.promotionDigest(t.trim(evidence)), w.nextId, now);
      assert Dropped(w.pending + [Pending(project, id, promoted)], |w.pending|) == w.pending;
      hide Sanitized, Dropped;
    }
  }

  // ---------- The service ----------

  /** visibleGlobalCandidates: whether the store can be listed. */
  method CheckGlobal(t: Text, g: seq<Candidate>) returns (malformed: Option<nat>)
    ensures malformed.Some? <==> exists i :: 0 <= i < |g| && !Visible(t, g[i])
    ensures malformed.Some? ==> malformed.value < |g| && !Visible(t, g[malformed.value])
    ensures malformed.Some? ==> forall j | 0 <= j < malformed.value :: Visible(t, g[j])
  {
    for i := 0 to |g|
      invariant forall j | 0 <= j < i :: Visible(t, g[j])
    {
      if !Visible(t, g[i]) { return Some(i); }
    }
    return None;
  }

  class Stores {
    var projects: map<string, seq<Candidate>>
    var global: seq<Candidate>
    var pending: seq<Pending>
    var nextId: nat
    const t: Text

    constructor (text: Text)
      ensures Now() == EMPTY && t == text
    {
      t := text;
      projects, global, pending, nextId := map[], [], [], 0;
    }

    function Now(): World
      reads this
    {
      World(projects, global, pending, nextId)
    }

    /** Either the stores are written or nothing has changed. */
    ghost predicate Did(before: World, r: Result<World, Error>, error: Option<Error>)
      reads this
    {
      if error.Some? then r == Err(error.value) && Now() == before else r == Ok(Now())
    }

    /** The same for a call that migrates first and goes on from what the migration leaves. */
    ghost predicate DidMoved(before: World, moved: Result<World, Error>, call: World -> Result<World, Error>,
            error: Option<Error>)
      reads this
    {
      if moved.Err? then error == Some(moved.error) && Now() == before else Did(moved.value, call(moved.value), error)
    }

    /** What every call promises. */
    ghost predicate Promises(before: World)
      reads this
    {
      Faithful(t) && Inv(t, before) ==> Inv(t, Now())
    }

    method WriteStore(project: string, s: seq<Candidate>)
      modifies this`projects
      ensures projects == old(projects)[project := Sanitized(t.redact, s)]
    {
      projects := projects[project := Sanitized(t.redact, s)];
    }

    method MigrateLegacy(project: string, repoPath: Option<string>, git: Git) returns (error: Option<Error>)
      modifies this
      ensures Did(old(Now()), DoMigrate(t, old(Now()), project, repoPath, git, 4), error)
      ensures Promises(old(Now()))
    {
      hide Legacy.After, Inv, Faithful;
      ghost var w := Now();
      if Faithful(t) && Inv(t, w) { StepKeepsInv(t, w, (Migrate(project, repoPath, git, 4), 0)); }
      if !Looks(t, Now(), project, repoPath) { return None; }
      var short := t.basename(repoPath.value);
      if Locked(Now(), short) || Locked(Now(), project) { return Some(StoreLocked); }
      var files := new Legacy.LearningFiles(FileOf(Now(), short), FileOf(Now(), project));
      var ok := files.Migrate(EnvOf(t, project, git), 4);
      projects := WithFile(WithFile(projects, project, files.target), short, files.legacy);
      return None;
    }

    method CaptureLearning(input: Capture, git: Git, now: int) returns (error: Option<Error>)
      modifies this
      ensures if Refused(t, input) then Did(old(Now()), DoCapture(t, old(Now()), input, now), error)
              else DidMoved(old(Now()), DoMigrate(t, old(Now()), t.trim(input.project.value), input.repoPath, git, 4),
                            (w: World) => DoCapture(t, w, input, now), error)
      ensures Promises(old(Now()))
    {
      hide AfterCapture, DoMigrate, Inv, Faithful, Sanitized;
      if input.scope == Some(Global) { return Some(GlobalCaptureForbidden); }
      var summary := t.redact(t.trim(input.summary));
      if summary == "" { return Some(EmptySummary); }
      if input.project.None? || t.trim(input.project.value) == "" { return Some(NoProject); }
      var project := t.trim(input.project.value);
      error := MigrateLegacy(project, input.repoPath, git);
      if error.Some? { return; }
      if Faithful(t) && Inv(t, Now()) { StepKeepsInv(t, Now(), (Learn(input), now)); }
      var key := KeyOf(t, input.key);
      if key.Err? { return Some(BadKey); }
      if Locked(Now(), project) { return Some(StoreLocked); }
      CaptureInto(project, input, summary, key.value, now);
      return None;
    }

    /** Counts the capture on the open record of its lesson, or adds one. */
    method CaptureInto(project: string, input: Capture, summary: string, key: Option<string>, now: int)
      modifies this
      ensures Now() == old(Now()).(
                projects := old(projects)[project :=
                  Sanitized(t.redact, AfterCapture(t, Sanitized(t.redact, Store(old(Now()), project)), input, summary, key,
                                                   project, old(nextId), now))],
                nextId := old(nextId) + 1)
    {
      hide First, SameLesson, Sanitized, SeenAgain, NewCandidate;
      var s := Sanitized(t.redact, Store(Now(), project));
      var i := First(s, (c: Candidate) => c.status.Open? && SameLesson(t, c, key, t.fold(summary)));
      var id := nextId;
      nextId := nextId + 1;
      if i < |s| {
        WriteStore(project, s[i := SeenAgain(t, s[i], input, key, now)]);
      } else {
        WriteStore(project, s + [NewCandidate(t, input, summary, key, project, id, now)]);
      }
    }

    method PromoteHere(project: string, repoPath: Option<string>, git: Git, id: nat, evidence: string, now: int)
      returns (error: Option<Error>)
      modifies this
      ensures DidMoved(old(Now()), DoMigrate(t, old(Now()), project, repoPath, git, 4),
                       (w: World) => PromoteToProject(t, w, project, id, evidence, now), error)
      ensures Promises(old(Now()))
    {
      hide First, FindId, Locked, DoMigrate, Inv, Faithful;
      error := MigrateLegacy(project, repoPath, git);
      if error.Some? { return; }
      if Faithful(t) && Inv(t, Now()) { StepKeepsInv(t, Now(), (Step.PromoteHere(project, id, evidence), now)); }
      var found := OpenCandidate(t, Now(), project, id);
      if found.Err? { return Some(found.error); }
      var s, item := Sanitized(t.redact, Store(Now(), project)), t.redact(t.trim(evidence));
      if item == "" { return Some(NoEvidence); }
      var c := s[found.value];
      if item !in c.evidence { c := c.(evidence := c.evidence + [item]); }
      WriteStore(project, s[found.value := c.(status := Promoted, scope := Project, updatedAt := now)]);
      return None;
    }

    /** Both writes; with `crash` the process dies between them and its lock is broken later. */
    method PromoteToAll(project: string, repoPath: Option<string>, git: Git, id: nat, summary: string, evidence: string,
            setting: Setting, now: int, crash: bool)
      returns (error: Option<Error>)
      modifies this
      ensures DidMoved(old(Now()), DoMigrate(t, old(Now()), project, repoPath, git, 4),
                       (w: World) => PromoteGlobally(t, w, project, id, summary, evidence, setting, now, crash), error)
      ensures Promises(old(Now()))
    {
      hide DoMigrate, PromoteGlobally, Inv, Faithful;
      error := MigrateLegacy(project, repoPath, git);
      if error.Some? { return; }
      if Faithful(t) && Inv(t, Now()) {
        PromoteGloballyKeepsInv(t, Now(), project, id, summary, evidence, setting, now, crash);
      }
      error := WriteBoth(project, id, summary, evidence, setting, now, crash);
    }

    /** The promotion behind its migration. */
    method WriteBoth(project: string, id: nat, summary: string, evidence: string, setting: Setting, now: int, crash: bool)
      returns (error: Option<Error>)
      modifies this
      ensures Did(old(Now()), PromoteGlobally(t, old(Now()), project, id, summary, evidence, setting, now, crash), error)
    {
      hide First, Locked, WithGlobal, Presentable, Sanitized, PromoteGlobally, OpenCandidate;
      PromotionIs(t, Now(), project, id, summary, evidence, setting, now, crash);
      var found := OpenCandidate(t, Now(), project, id);
      if found.Err? { return Some(found.error); }
      var s := Sanitized(t.redact, Store(Now(), project));
      var c := s[found.value];
      if c.occurrences < 2 { return Some(NotRecurring); }
      if setting.allowed.None? { return Some(NoRepository); }
      if !setting.allowed.value { return Some(ForbiddenByPolicy); }
      if !Presentable(t, t.trim(summary), c, setting) || !Presentable(t, t.trim(evidence), c, setting) {
        return Some(NotSanitized);
      }
      var (g, promoted) := WithGlobal(t, Sanitized(t.redact, global), c, t.trim(summary), t.promotionDigest(t.trim(evidence)), nextId, now);
      global := Sanitized(t.redact, g);
      nextId := nextId + 1;
      if crash { return None; }
      WriteStore(project, s[found.value := c.(status := Promoted, scope := Project, promotedTo := Some(promoted), updatedAt := now)]);
      return None;
    }

    method DismissGlobalLearning(id: nat, evidence: string, now: int) returns (error: Option<Error>)
      modifies this
      ensures Did(old(Now()), DismissGlobal(t, old(Now()), id, evidence, now), error)
      ensures Promises(old(Now()))
    {
      hide First, Inv, Faithful;
      if Faithful(t) && Inv(t, Now()) { StepKeepsInv(t, Now(), (Retract(id, evidence), now)); }
      if t.trim(evidence) == "" { return Some(NoEvidence); }
      var g := Sanitized(t.redact, global);
      var i := FindId(g, id);
      if i == |g| { return Some(NotFound); }
      if !g[i].scope.Global? || !g[i].status.Promoted? { return Some(AlreadySettled); }
      var c := g[i].(status := Dismissed, summary := RETRACTED, evidence := [t.dismissalDigest(t.trim(evidence))],
                     occurrences := 0, updatedAt := now);
      c := c.(key := None, project := None, repoPath := None, promotedTo := None);
      global := Sanitized(t.redact, g[i := c]);
      return None;
    }

    method DismissLearning(project: string, repoPath: Option<string>, git: Git, id: nat, evidence: string, now: int)
      returns (error: Option<Error>)
      modifies this
      ensures if t.redact(t.trim(evidence)) == "" then error == Some(NoEvidence) && Now() == old(Now())
              else DidMoved(old(Now()), DoMigrate(t, old(Now()), project, repoPath, git, 4),
                            (w: World) => DismissLocal(t, w, project, id, evidence, now), error)
      ensures Promises(old(Now()))
    {
      hide First, FindId, Locked, DoMigrate, Inv, Faithful;
      var item := t.redact(t.trim(evidence));
      if item == "" { return Some(NoEvidence); }
      error := MigrateLegacy(project, repoPath, git);
      if error.Some? { return; }
      if Faithful(t) && Inv(t, Now()) { StepKeepsInv(t, Now(), (Dismiss(project, id, evidence), now)); }
      var found := OpenCandidate(t, Now(), project, id);
      if found.Err? { return Some(found.error); }
      var s := Sanitized(t.redact, Store(Now(), project));
      var c := s[found.value].(status := Dismissed, updatedAt := now);
      if item !in c.evidence { c := c.(evidence := c.evidence + [item]); }
      WriteStore(project, s[found.value := c]);
      return None;
    }
  }
}
