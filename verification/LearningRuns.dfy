/**
 What holds in every run of the calls on the learning stores (src/learning/candidates.ts). A call that migrates
 first is a migration and then its own action, with other processes' steps in between.
 */
module LearningRuns {
  import opened Wrappers
  import opened LearningRecords
  import Legacy = LegacyMigration
  import opened LegacyMerge
  import opened LearningStore

  type Steps = seq<(Step, int)>

  function After(t: Text, steps: Steps): World {
    if steps == [] then EMPTY else Apply(t, After(t, steps[..|steps| - 1]), steps[|steps| - 1])
  }

  function At(t: Text, steps: Steps, k: nat): World
    requires k <= |steps|
  {
    After(t, steps[..k])
  }

  lemma NextAt(t: Text, steps: Steps, k: nat)
    requires k < |steps|
    ensures At(t, steps, k + 1) == Apply(t, At(t, steps, k), steps[k])
  {
    assert steps[..k + 1][..k] == steps[..k];
  }

  lemma {:induction false} RunKeepsInv(t: Text, steps: Steps)
    requires Faithful(t)
    ensures Inv(t, After(t, steps))
  {
    hide Inv, Faithful, Apply;
    if steps == [] {
      EmptyInv(t);
    } else {
      RunKeepsInv(t, steps[..|steps| - 1]);
      StepKeepsInv(t, After(t, steps[..|steps| - 1]), steps[|steps| - 1]);
    }
  }

  lemma EmptyInv(t: Text)
    ensures Inv(t, EMPTY) && LessonsApart(t, EMPTY) && OneHome(EMPTY)
  {
  }

  /** Main theorem: in every run, with crashes between the two writes of a promotion and of a migration, every
      global record passes the check that listing makes, a promoted one has recurred, and no two promoted ones
      say the same. */
  lemma GlobalRecordsStayVisible(t: Text, steps: Steps, i: nat)
    requires Faithful(t) && i < |After(t, steps).global|
    ensures var g := After(t, steps).global;
            && Visible(t, g[i]) && (g[i].status.Promoted? ==> g[i].occurrences >= 2)
            && forall j | 0 <= j < i && g[j].status.Promoted? && g[i].status.Promoted? ::
                 t.fold(g[j].summary) != t.fold(g[i].summary)
  {
    RunKeepsInv(t, steps);
  }

  /** A local record that names a global one always names one that exists. */
  lemma PromotedToExists(t: Text, steps: Steps, project: string, i: nat)
    requires Faithful(t) && i < |Store(After(t, steps), project)|
    requires Store(After(t, steps), project)[i].promotedTo.Some?
    ensures Exists(After(t, steps).global, Store(After(t, steps), project)[i].promotedTo.value)
  {
    RunKeepsInv(t, steps);
    Referenced(t, After(t, steps), project, i);
  }

  // ---------- One open record per lesson ----------

  /** No migration of the run brings an open record about the lesson of an open record that stays. */
  ghost predicate Harmonious(t: Text, steps: Steps) {
    forall k | 0 <= k < |steps| :: !Collides(t, At(t, steps, k), steps[k].0)
  }

  lemma {:induction false} ApartUpTo(t: Text, steps: Steps, n: nat)
    requires Faithful(t) && n <= |steps| && forall k | 0 <= k < n :: !Collides(t, At(t, steps, k), steps[k].0)
    ensures LessonsApart(t, At(t, steps, n))
  {
    hide Faithful, LessonsApart, Collides, Inv, Apply;
    EmptyInv(t);
    if n > 0 {
      ApartUpTo(t, steps, n - 1);
      RunKeepsInv(t, steps[..n - 1]);
      NextAt(t, steps, n - 1);
      StepKeepsLessonsApartExactly(t, At(t, steps, n - 1), steps[n - 1]);
    }
  }

  /** Main theorem: the open records of each project are about different lessons all through a run if and only
      if no migration of the run collides. */
  lemma LessonsStayApartExactly(t: Text, steps: Steps)
    requires Faithful(t)
    ensures Harmonious(t, steps) <==> forall n | 0 <= n <= |steps| :: LessonsApart(t, At(t, steps, n))
  {
    hide Faithful, LessonsApart, Collides, Inv, Apply, At;
    if Harmonious(t, steps) {
      forall n | 0 <= n <= |steps| ensures LessonsApart(t, At(t, steps, n)) { ApartUpTo(t, steps, n); }
    }
    if forall n | 0 <= n <= |steps| :: LessonsApart(t, At(t, steps, n)) {
      forall k | 0 <= k < |steps| ensures !Collides(t, At(t, steps, k), steps[k].0) {
        AtKeepsInv(t, steps, k);
        NextAt(t, steps, k);
        StepKeepsLessonsApartExactly(t, At(t, steps, k), steps[k]);
        assert LessonsApart(t, At(t, steps, k + 1));
      }
    }
  }

  lemma AtKeepsInv(t: Text, steps: Steps, k: nat)
    requires Faithful(t) && k <= |steps|
    ensures Inv(t, At(t, steps, k))
  {
    RunKeepsInv(t, steps[..k]);
  }

  /** Then at most one open record of a project is about a lesson: per key, and per summary without a key. */
  lemma OneOpenRecordPerLesson(t: Text, steps: Steps, project: string, key: Option<string>, folded: string, i: nat, j: nat)
    requires Faithful(t) && Harmonious(t, steps)
    requires var s := Store(After(t, steps), project);
             && i < |s| && j < |s| && s[i].status.Open? && s[j].status.Open?
             && SameLesson(t, s[i], key, folded) && SameLesson(t, s[j], key, folded)
    ensures i == j
  {
    assert steps[..|steps|] == steps;
    ApartUpTo(t, steps, |steps|);
    var s := Store(After(t, steps), project);
    hide Faithful, After, Harmonious;
    assert Apart(t, s);
    assert i < j ==> Different(t, s[i], s[j]);
    assert j < i ==> Different(t, s[j], s[i]);
  }

  // ---------- A migration that collides ----------

  function BaseName(path: string): (r: string)
    ensures '/' !in r
  {
    if path == "" then "" else if '/' in path then BaseName(path[1..]) else path
  }

  predicate StartsWith(s: string, prefix: string) { |s| >= |prefix| && s[..|prefix|] == prefix }

  const PLAIN := Text(
      (s: string) => s, (s: string) => s, (s: string) => s, (s: string) => Some(s),
      (s: string) => "promotion:" + s, (s: string) => "dismissal:" + s,
      (s: string) => StartsWith(s, "promotion:"), (s: string) => StartsWith(s, "dismissal:"),
      (s: string) => false, (s: string, item: string) => false, (path: string) => BaseName(path))

  function Lesson(summary: string, project: string): Capture {
    Capture(Manual, summary, Some("k"), None, None, Some(project), Some("repo"))
  }

  const HERE := Git(Some("common"), false, (path: string) => Some("common"))

  /** Two stores with an open record each under the key k: that of a repository's short name, and that of its
      canonical name. */
  const TWO_LESSONS: Steps := [(Learn(Lesson("one", "repo")), 0), (Learn(Lesson("two", "org/repo")), 0)]
  const MOVE := Migrate("org/repo", Some("repo"), HERE, 4)

  lemma LearnsFirst(w: World, summary: string, project: string)
    requires project !in w.projects && w.pending == [] && summary != "" && project != ""
    ensures var c := Candidate(w.nextId, Some("k"), Some(project), Some("repo"), Manual, summary, Undecided, 1, [], Open, None, 0, 0);
            Apply(PLAIN, w, (Learn(Lesson(summary, project)), 0)) ==
            w.(projects := w.projects[project := [c]], nextId := w.nextId + 1)
  {
    var c := Candidate(w.nextId, Some("k"), Some(project), Some("repo"), Manual, summary, Undecided, 1, [], Open, None, 0, 0);
    var input := Lesson(summary, project);
    assert Redacted(PLAIN.redact, c) == c;
    assert Sanitized(PLAIN.redact, [c]) == [c];
    assert Sanitized(PLAIN.redact, Store(w, project)) == [];
    assert AfterCapture(PLAIN, [], input, summary, Some("k"), project, w.nextId, 0) == [c];
    assert PLAIN.trim(project) == project && PLAIN.redact(PLAIN.trim(summary)) == summary;
    assert !Locked(w, project);
    assert DoCapture(PLAIN, w, input, 0) == Ok(w.(projects := w.projects[project := [c]], nextId := w.nextId + 1));
  }

  lemma PlainIsFaithful()
    ensures Faithful(PLAIN)
  {
  }

  /** The second open record comes with the migration of the next call for the canonical name; from then on one
      of the two is never seen again by a capture. */
  lemma MigrationBringsSecondRecord()
    ensures Faithful(PLAIN) && Collides(PLAIN, After(PLAIN, TWO_LESSONS), MOVE)
    ensures var s := Store(After(PLAIN, TWO_LESSONS + [(MOVE, 1)]), "org/repo");
            |s| == 2 && s[0].status.Open? && s[1].status.Open? && s[0].key == Some("k") && s[1].key == Some("k")
  {
    PlainIsFaithful();
    var one := Candidate(0, Some("k"), Some("repo"), Some("repo"), Manual, "one", Undecided, 1, [], Open, None, 0, 0);
    var two := Candidate(1, Some("k"), Some("org/repo"), Some("repo"), Manual, "two", Undecided, 1, [], Open, None, 0, 0);
    var w := World(map["repo" := [one], "org/repo" := [two]], [], [], 2);
    LearnsFirst(EMPTY, "one", "repo");
    LearnsFirst(EMPTY.(projects := map["repo" := [one]], nextId := 1), "two", "org/repo");
    hide Apply, Faithful, Inv, Legacy.After;
    assert TWO_LESSONS[..1][..0] == [] && After(PLAIN, TWO_LESSONS[..1]) == Apply(PLAIN, EMPTY, TWO_LESSONS[0]);
    assert After(PLAIN, TWO_LESSONS) == w;
    RunKeepsInv(PLAIN, TWO_LESSONS);
    MovesOne(w, one, two);
    MigrateIs(PLAIN, w, (MOVE, 1));
    assert Store(w, "org/repo") == [two];
    assert Store(Apply(PLAIN, w, (MOVE, 1)), "org/repo") == [two, one.(project := Some("org/repo"))];
    assert (TWO_LESSONS + [(MOVE, 1)])[..2] == TWO_LESSONS;
  }

  lemma MovesOne(w: World, one: Candidate, two: Candidate)
    requires w == World(map["repo" := [one], "org/repo" := [two]], [], [], 2)
    requires one.repoPath == Some("repo") && one.id != two.id && one.status.Open? && two.status.Open?
    requires one.key == Some("k") && two.key == Some("k")
    ensures Writes(PLAIN, w, MOVE) && Moving(PLAIN, w, MOVE) == [one.(project := Some("org/repo"))]
    ensures Legacy.Merge([two], Moving(PLAIN, w, MOVE)) == [two, one.(project := Some("org/repo"))]
    ensures Collides(PLAIN, w, MOVE)
  {
    MigratesOne(one);
    WritesOne(w, one, two);
    hide Writes, Legacy.Migrated, Legacy.Merge;
    MergesOne(two, one.(project := Some("org/repo")));
    assert Store(w, "org/repo") == [two];
  }

  lemma MigratesOne(one: Candidate)
    requires one.repoPath == Some("repo")
    ensures Legacy.Migrated(EnvOf(PLAIN, "org/repo", HERE), [one]) == [one.(project := Some("org/repo"))]
  {
    assert [one][..0] == [];
  }

  lemma WritesOne(w: World, one: Candidate, two: Candidate)
    requires w == World(map["repo" := [one], "org/repo" := [two]], [], [], 2)
    requires Legacy.Migrated(EnvOf(PLAIN, "org/repo", HERE), [one]) == [one.(project := Some("org/repo"))]
    ensures Writes(PLAIN, w, MOVE) && Moving(PLAIN, w, MOVE) == [one.(project := Some("org/repo"))]
  {
    hide Legacy.Migrated;
    assert PLAIN.basename("repo") == "repo";
    assert "org/repo"[3] == '/';
    assert Store(w, "repo") == [one];
  }

  lemma MergesOne(two: Candidate, moved: Candidate)
    requires two.id != moved.id && two.status.Open? && moved.status.Open? && two.key == moved.key == Some("k")
    ensures Legacy.Merge([two], [moved]) == [two, moved]
    ensures Clash(PLAIN, [two], [moved])
  {
    Legacy.LookupNone([two], moved.id);
    Legacy.LookupNone([moved], two.id);
    hide Legacy.Merge, Legacy.Lookup;
    MergeFresh([two], [moved]);
    assert Arrives([two], [moved], moved) && Stays([two], [moved], two);
  }

  // ---------- Occurrences ----------

  /** No migration of the run is cut off between its two writes. */
  predicate Uncut(t: Text, steps: Steps) { forall k | 0 <= k < |steps| :: !CutOff(t, At(t, steps, k), steps[k].0) }

  lemma {:induction false} OneHomeUpTo(t: Text, steps: Steps, n: nat)
    requires Faithful(t) && n <= |steps| && forall k | 0 <= k < n :: !CutOff(t, At(t, steps, k), steps[k].0)
    ensures OneHome(At(t, steps, n))
  {
    hide Faithful, OneHome, CutOff, Inv, Apply;
    EmptyInv(t);
    if n > 0 {
      OneHomeUpTo(t, steps, n - 1);
      RunKeepsInv(t, steps[..n - 1]);
      NextAt(t, steps, n - 1);
      StepKeepsOneHomeExactly(t, At(t, steps, n - 1), steps[n - 1]);
    }
  }

  /** What the first n steps have captured in the project, moved into it and moved out of it. */
  function CapturesOf(t: Text, steps: Steps, n: nat, project: string): nat
    requires n <= |steps|
  {
    if n == 0 then 0 else CapturesOf(t, steps, n - 1, project) + Captures(t, At(t, steps, n - 1), steps[n - 1], project)
  }

  function MovedInOf(t: Text, steps: Steps, n: nat, project: string): nat
    requires n <= |steps|
  {
    if n == 0 then 0 else MovedInOf(t, steps, n - 1, project) + MovedIn(t, At(t, steps, n - 1), steps[n - 1].0, project)
  }

  function MovedOutOf(t: Text, steps: Steps, n: nat, project: string): nat
    requires n <= |steps|
  {
    if n == 0 then 0 else MovedOutOf(t, steps, n - 1, project) + MovedOut(t, At(t, steps, n - 1), steps[n - 1].0, project)
  }

  /** Main theorem: whatever is promoted, dismissed or lost in a crash of a promotion, the occurrences in a
      project's store are its successful captures, each counted once, and what came with the records that were
      migrated to it, less what went with those that were migrated away. */
  lemma {:induction false} OccurrencesAreCaptures(t: Text, steps: Steps, n: nat, project: string)
    requires Faithful(t) && n <= |steps| && forall k | 0 <= k < n :: !CutOff(t, At(t, steps, k), steps[k].0)
    ensures Total(Store(At(t, steps, n), project)) + MovedOutOf(t, steps, n, project) ==
            CapturesOf(t, steps, n, project) + MovedInOf(t, steps, n, project)
  {
    hide Faithful, OneHome, CutOff, Inv, Apply, Captures, MovedIn, MovedOut;
    if n > 0 {
      OccurrencesAreCaptures(t, steps, n - 1, project);
      OneHomeUpTo(t, steps, n - 1);
      RunKeepsInv(t, steps[..n - 1]);
      NextAt(t, steps, n - 1);
      StepCounts(t, At(t, steps, n - 1), steps[n - 1], project);
    }
  }

  // ---------- All projects together ----------

  ghost function Pick(m: map<string, seq<Candidate>>): (p: string)
    requires m != map[]
    ensures p in m
  {
    var p :| p in m;
    p
  }

  function TotalIn(m: map<string, seq<Candidate>>, p: string): nat { if p in m then Total(m[p]) else 0 }

  ghost function GrandTotal(m: map<string, seq<Candidate>>): nat
    decreases |m|
  {
    if m == map[] then 0 else TotalIn(m, Pick(m)) + GrandTotal(m - {Pick(m)})
  }

  lemma {:induction false} GrandTotalAt(m: map<string, seq<Candidate>>, p: string)
    ensures GrandTotal(m) == TotalIn(m, p) + GrandTotal(m - {p})
    decreases |m|
  {
    hide TotalIn, GrandTotal;
    if p !in m {
      Absent(m, p);
    } else {
      Unfolded(m);
      var q := Pick(m);
      if p != q {
        Without(m, p, q);
        Without(m, q, p);
        GrandTotalAt(m - {q}, p);
        GrandTotalAt(m - {p}, q);
      }
    }
  }

  lemma Absent(m: map<string, seq<Candidate>>, p: string)
    requires p !in m
    ensures m - {p} == m && TotalIn(m, p) == 0
  {
  }

  lemma Unfolded(m: map<string, seq<Candidate>>)
    requires m != map[]
    ensures GrandTotal(m) == TotalIn(m, Pick(m)) + GrandTotal(m - {Pick(m)})
  {
  }

  lemma Without(m: map<string, seq<Candidate>>, p: string, q: string)
    requires p != q && p in m
    ensures |m - {p}| < |m| && TotalIn(m - {p}, q) == TotalIn(m, q) && m - {p} - {q} == m - {q} - {p}
  {
    hide Total;
    assert (m - {p}).Keys == m.Keys - {p};
  }

  lemma {:induction false} SameTotals(m: map<string, seq<Candidate>>, n: map<string, seq<Candidate>>)
    requires forall p :: TotalIn(m, p) == TotalIn(n, p)
    ensures GrandTotal(m) == GrandTotal(n)
    decreases |m| + |n|
  {
    hide Total;
    if m != map[] {
      SameWithout(m, n, Pick(m));
    } else if n != map[] {
      assert m - {Pick(n)} == m;
      SameWithout(n, m, Pick(n));
    }
  }

  lemma {:induction false} SameWithout(m: map<string, seq<Candidate>>, n: map<string, seq<Candidate>>, q: string)
    requires q in m && forall p :: TotalIn(m, p) == TotalIn(n, p)
    ensures GrandTotal(m) == GrandTotal(n)
    decreases |m| + |n|, 0
  {
    hide Total;
    GrandTotalAt(m, q);
    GrandTotalAt(n, q);
    assert forall p :: TotalIn(m - {q}, p) == if p == q then 0 else TotalIn(m, p);
    assert forall p :: TotalIn(n - {q}, p) == if p == q then 0 else TotalIn(n, p);
    assert |m - {q}| < |m| && |n - {q}| <= |n|;
    SameTotals(m - {q}, n - {q});
  }

  /** Two states that differ in one project. */
  lemma ShiftAt(m: map<string, seq<Candidate>>, n: map<string, seq<Candidate>>, a: string)
    requires forall p | p != a :: TotalIn(m, p) == TotalIn(n, p)
    ensures GrandTotal(n) + TotalIn(m, a) == GrandTotal(m) + TotalIn(n, a)
  {
    hide Total, GrandTotal;
    GrandTotalAt(m, a);
    GrandTotalAt(n, a);
    assert forall p :: TotalIn(m - {a}, p) == if p == a then 0 else TotalIn(m, p);
    assert forall p :: TotalIn(n - {a}, p) == if p == a then 0 else TotalIn(n, p);
    SameTotals(m - {a}, n - {a});
  }

  /** Two states between which each of two projects may have lost and gained. */
  lemma ShiftTwo(m: map<string, seq<Candidate>>, n: map<string, seq<Candidate>>, a: string, b: string)
    requires a != b && forall p | p != a && p != b :: TotalIn(m, p) == TotalIn(n, p)
    ensures GrandTotal(n) + TotalIn(m, a) + TotalIn(m, b) == GrandTotal(m) + TotalIn(n, a) + TotalIn(n, b)
  {
    hide Total, GrandTotal;
    var middle := if a in n then m[a := n[a]] else m - {a};
    ShiftAt(m, middle, a);
    ShiftAt(middle, n, b);
  }

  /** The step is a capture that succeeds. */
  function Captured(t: Text, w: World, step: (Step, int)): nat {
    if step.0.Learn? && Try(t, w, step.0, step.1).Ok? then 1 else 0
  }

  /** How many occurrences a step writes into a second store and leaves in the first. */
  function Doubled(t: Text, w: World, step: Step): nat { if CutOff(t, w, step) then Total(Moving(t, w, step)) else 0 }

  /** All stores together gain what is captured, and what a migration that is cut off leaves in two stores. */
  lemma StepConserves(t: Text, w: World, step: (Step, int))
    requires Faithful(t) && Inv(t, w) && OneHome(w)
    ensures GrandTotal(Apply(t, w, step).projects) == GrandTotal(w.projects) + Captured(t, w, step) + Doubled(t, w, step.0)
    ensures CutOff(t, w, step.0) ==> Doubled(t, w, step.0) >= 1
  {
    var r := Apply(t, w, step);
    forall p ensures TotalIn(r.projects, p) + MovedOut(t, w, step.0, p) ==
                     TotalIn(w.projects, p) + Captures(t, w, step, p) + MovedIn(t, w, step.0, p)
    {
      StepCounts(t, w, step, p);
      StoreTotals(w, p);
      StoreTotals(r, p);
    }
    hide Inv, Faithful, OneHome, Apply, Total, GrandTotal, TotalIn, Try;
    if Writes(t, w, step.0) {
      OtherName(t, w, step.0);
      MovingIsNew(t, w, step.0);
      MovedWhere(t, w, step.0);
      hide Writes, Finishes, MovedIn, MovedOut;
      ShiftTwo(w.projects, r.projects, step.0.project, Short(t, step.0));
    } else {
      hide Writes, Captured, Captures;
      var p := if step.0.Learn? && step.0.input.project.Some? then t.trim(step.0.input.project.value) else "";
      CapturedWhere(t, w, step, p);
      ShiftAt(w.projects, r.projects, p);
    }
  }

  lemma MovedWhere(t: Text, w: World, step: Step)
    requires Writes(t, w, step) && Short(t, step) != step.project
    ensures var a, b := step.project, Short(t, step);
            && MovedOut(t, w, step, a) == 0 && MovedIn(t, w, step, b) == 0
            && MovedIn(t, w, step, a) == MovedOut(t, w, step, b) + Doubled(t, w, step)
            && (forall p | p != a && p != b :: MovedIn(t, w, step, p) == MovedOut(t, w, step, p) == 0)
  {
  }

  lemma CapturedWhere(t: Text, w: World, step: (Step, int), p: string)
    requires step.0.Learn? && step.0.input.project.Some? ==> p == t.trim(step.0.input.project.value)
    ensures Captures(t, w, step, p) == Captured(t, w, step)
    ensures forall q | q != p :: Captures(t, w, step, q) == 0
  {
  }

  lemma StoreTotals(w: World, p: string)
    ensures TotalIn(w.projects, p) == Total(Store(w, p))
  {
  }

  function CapturedBy(t: Text, steps: Steps, n: nat): nat
    requires n <= |steps|
  {
    if n == 0 then 0 else CapturedBy(t, steps, n - 1) + Captured(t, At(t, steps, n - 1), steps[n - 1])
  }

  lemma {:induction false} ConservedUpTo(t: Text, steps: Steps, n: nat)
    requires Faithful(t) && n <= |steps| && forall k | 0 <= k < n :: !CutOff(t, At(t, steps, k), steps[k].0)
    ensures GrandTotal(At(t, steps, n).projects) == CapturedBy(t, steps, n)
  {
    hide Faithful, OneHome, CutOff, Inv, Apply, Captured;
    if n > 0 {
      ConservedUpTo(t, steps, n - 1);
      OneHomeUpTo(t, steps, n - 1);
      RunKeepsInv(t, steps[..n - 1]);
      NextAt(t, steps, n - 1);
      StepConserves(t, At(t, steps, n - 1), steps[n - 1]);
    }
  }

  /** Main theorem: all through a run the occurrences in all project stores together are the successful captures
      if and only if no migration of the run is cut off between its two writes. */
  lemma OccurrencesAreConservedExactly(t: Text, steps: Steps)
    requires Faithful(t)
    ensures Uncut(t, steps) <==>
            forall n | 0 <= n <= |steps| :: GrandTotal(At(t, steps, n).projects) == CapturedBy(t, steps, n)
  {
    hide Faithful, CutOff, At, CapturedBy, GrandTotal;
    if Uncut(t, steps) {
      forall n | 0 <= n <= |steps| ensures GrandTotal(At(t, steps, n).projects) == CapturedBy(t, steps, n) {
        ConservedUpTo(t, steps, n);
      }
    } else {
      var k := FirstCut(t, steps);
      CutShows(t, steps, k);
    }
  }

  lemma FirstCut(t: Text, steps: Steps) returns (k: nat)
    requires !Uncut(t, steps)
    ensures k < |steps| && CutOff(t, At(t, steps, k), steps[k].0)
    ensures forall j | 0 <= j < k :: !CutOff(t, At(t, steps, j), steps[j].0)
  {
    hide CutOff, At;
    k := 0;
    while !CutOff(t, At(t, steps, k), steps[k].0)
      invariant k < |steps|
      decreases |steps| - k
      invariant forall j | 0 <= j < k :: !CutOff(t, At(t, steps, j), steps[j].0)
    {
      k := k + 1;
    }
  }

  lemma CutShows(t: Text, steps: Steps, k: nat)
    requires Faithful(t) && k < |steps| && CutOff(t, At(t, steps, k), steps[k].0)
    requires forall j | 0 <= j < k :: !CutOff(t, At(t, steps, j), steps[j].0)
    ensures GrandTotal(At(t, steps, k + 1).projects) != CapturedBy(t, steps, k + 1)
  {
    hide Faithful, OneHome, CutOff, Inv, Apply, Captured, At, GrandTotal;
    ConservedUpTo(t, steps, k);
    OneHomeUpTo(t, steps, k);
    AtKeepsInv(t, steps, k);
    NextAt(t, steps, k);
    StepConserves(t, At(t, steps, k), steps[k]);
  }
}
