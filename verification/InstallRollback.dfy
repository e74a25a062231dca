/**
 Faults at every step and the whole rollback: targets, created directories, temporary copies
 (scripts/activate-major-user-state.py). Targets may be nested in one another.
 */
module InstallRollback {
  import opened Wrappers
  import opened InstallTrees
  import opened InstallRun
  import opened InstallSweep

  // ---------- Faults and the rollback ----------

  /** Where in an entry's turn the fault strikes. */
  datatype Stage =
    | Untouched                // before its parents are made
    | Making(made: nat)        // some parents are made, none is recorded yet
    | MadeParents              // the parents are made and recorded
    | SetAside                 // the previous target has been set aside
    | Copying(partial: Tree)   // part of the source has been copied to the temporary path

  function Crash(s: State, e: Entry, i: nat, stage: Stage): State {
    if Blocked(s.fs, e.target) then s
    else
      var missing := Missing(s.fs, Parent(e.target));
      match stage
      case Untouched => s
      case Making(n) => s.(fs := s.fs + Dirs(Set(missing[..if n < |missing| then n else |missing|])))
      case MadeParents => Recorded(s, e.target)
      case SetAside => Step(s, e.(source := None), i)
      case Copying(partial) =>
        var aside := Step(s, e.(source := None), i);
        if e.source.None? then aside
        else aside.(fs := Graft(aside.fs, TempOf(e.target, i), partial), temporaries := {TempOf(e.target, i)})
  }

  function Without(fs: Tree, roots: set<Path>): Tree {
    map p | p in fs && !(exists r | r in roots :: Under(p, r)) :: fs[p]
  }

  function Rollback(s: State): Tree {
    Without(Sweep(UndoAll(s.fs, s.touched), s.created, 0), s.temporaries)
  }

  /** The extra nodes a crash leaves: parents not yet recorded, or a temporary copy. */
  function Extra(s: State, e: Entry, i: nat, stage: Stage): Tree {
    if Blocked(s.fs, e.target) then map[]
    else if stage.Making? then
      var missing := Missing(s.fs, Parent(e.target));
      Dirs(Set(missing[..if stage.made < |missing| then stage.made else |missing|]))
    else if stage.Copying? && e.source.Some? then Graft(map[], TempOf(e.target, i), stage.partial)
    else map[]
  }

  /** Those of them that the undoing of earlier targets does not take away. */
  function Left(entries: seq<Entry>, s: State, e: Entry, stage: Stage): Tree {
    var extra := Extra(s, e, |entries|, stage);
    map p | p in extra && !Shielded(entries, p) :: extra[p]
  }

  function CrashMarks(fs: Tree, init: seq<Entry>, e: Entry, stage: Stage): seq<bool>
    requires After(fs, init).Some?
  {
    if Blocked(After(fs, init).value.fs, e.target) || stage.Untouched? || stage.Making? then Marks(fs, init)
    else Marks(fs, init) + MarksOf(init, Missing(After(fs, init).value.fs, Parent(e.target)))
  }

  ghost predicate Setting(fs: Tree, init: seq<Entry>, e: Entry) {
    && Disk(fs) && NotYet(fs, 0) && Manifest(init + [e])
    && After(fs, init).Some?
  }

  /** A copy in progress holds no paths that the source does not have. */
  ghost predicate Possible(e: Entry, stage: Stage) {
    stage.Copying? && e.source.Some? ==> forall p | p in stage.partial :: p in e.source.value
  }

  lemma MakeSetting(fs: Tree, init: seq<Entry>, e: Entry)
    requires Disk(fs) && NotYet(fs, 0) && Manifest(init + [e]) && After(fs, init).Some?
    ensures Setting(fs, init, e)
  {
  }

  lemma GraftIsOver(fs: Tree, root: Path, tree: Tree)
    ensures Graft(fs, root, tree) == fs + Graft(map[], root, tree)
  {
    forall p ensures At(Graft(fs, root, tree), p) == At(fs + Graft(map[], root, tree), p) {
      AtGraft(fs, root, tree, p);
      AtGraft(map[], root, tree, p);
    }
    SameTrees(Graft(fs, root, tree), fs + Graft(map[], root, tree));
  }

  lemma TempPath(target: Path, i: nat, p: Path)
    requires target != [] && Under(p, TempOf(target, i))
    ensures !Clean(p)
  {
    assert TempOf(target, i)[|target| - 1] in p;
  }

  lemma SettingParts(fs: Tree, init: seq<Entry>, e: Entry)
    requires Setting(fs, init, e)
    ensures Disk(fs) && NotYet(fs, 0) && Manifest(init) && Clean(e.target) && After(fs, init).Some?
    ensures (e.source.Some? ==> Staged(e.source.value))
    ensures Disk(After(fs, init).value.fs) && NotYet(After(fs, init).value.fs, |init|)
    ensures Fits(After(fs, init).value.touched, init)
    ensures |Marks(fs, init)| == |After(fs, init).value.created|
    ensures Ordered(fs, After(fs, init).value.created, Marks(fs, init))
  {
    hide Disk, NotYet, After, Marks, Staged, Clean, Ordered;
    ManifestSplit(init + [e]);
    assert (init + [e])[..|init|] == init;
    AfterKeeps(fs, init);
    MarksFit(fs, init);
    MarkedOrdered(fs, init);
  }

  lemma CrashMarksFit(fs: Tree, init: seq<Entry>, e: Entry, stage: Stage)
    requires Setting(fs, init, e)
    ensures var crash := Crash(After(fs, init).value, e, |init|, stage);
            Ordered(fs, crash.created, CrashMarks(fs, init, e, stage))
  {
    hide Disk, NotYet, After, Marks, Staged, Clean, Ordered, Missing, Setting;
    SettingParts(fs, init, e);
    if !Blocked(After(fs, init).value.fs, e.target) {
      OrderedConcat(fs, init, e);
      StepTouches(After(fs, init).value, e.(source := None), |init|);
    }
  }

  lemma ExtraUnsaved(fs: Tree, init: seq<Entry>, e: Entry, stage: Stage)
    requires Setting(fs, init, e) && Possible(e, stage)
    ensures forall x | x in Extra(After(fs, init).value, e, |init|, stage) :: Unsaved(x)
  {
    SettingParts(fs, init, e);
    hide Disk, NotYet, After, Marks, Manifest, Setting, Fits, Ordered, Unsaved, TempOf, Missing, Clean, Blocked;
    var s := After(fs, init).value;
    MissingUnsaved(s.fs, e.target, map[]);
    forall x | x in Extra(s, e, |init|, stage) ensures Unsaved(x) {
      if stage.Making? {
        var missing := Missing(s.fs, Parent(e.target));
        assert x in missing;
        assert x in Dirs(Set(missing)) + Remove(map[], e.target);
      } else {
        var t := TempOf(e.target, |init|);
        AtGraft(map[], t, stage.partial, x);
        Split(x, t);
        assert Clean(x[|t|..]);
        TempUnsaved(e.target, |init|, x);
      }
    }
  }

  lemma TempUnsaved(target: Path, i: nat, p: Path)
    requires target != [] && Clean(target) && Under(p, TempOf(target, i)) && Clean(p[|TempOf(target, i)|..])
    ensures Unsaved(p)
  {
    var t := TempOf(target, i);
    Split(p, t);
    assert forall n | n in p :: n in t || n in p[|t|..];
    assert forall n | n in t :: n in target || n == t[|target| - 1];
  }

  /** A crash before the target is set aside. */
  lemma EarlyCrashUndone(fs: Tree, init: seq<Entry>, extra: Tree, p: Path)
    requires Disk(fs) && NotYet(fs, 0) && Manifest(init) && After(fs, init).Some?
    requires forall x | x in extra :: Unsaved(x)
    ensures var s := After(fs, init).value;
            && |Marks(fs, init)| == |s.created|
            && At(UndoAll(s.fs + extra, s.touched), p) ==
               if p in extra && !Shielded(init, p) then Some(extra[p])
               else if Marked(s.created, Marks(fs, init), p) then Some(Dir) else At(fs, p)
  {
    hide Disk, NotYet, After, Marks, Manifest, Unsaved, Shielded, Marked, Debris, UndoAll;
    AllUndone(fs, init, extra);
    DebrisIs(fs, init, extra, p);
  }

  lemma AbsentManifest(init: seq<Entry>, e: Entry)
    requires Manifest(init + [e])
    ensures Manifest(init + [e.(source := None)])
  {
    hide Staged, Clean;
    var e' := e.(source := None);
    ManifestSplit(init + [e]);
    assert (init + [e])[..|init|] == init;
    assert forall x | x in init + [e'] :: x in init || x == e';
  }

  lemma AbsentEntry(fs: Tree, init: seq<Entry>, e: Entry)
    requires Setting(fs, init, e) && !Blocked(After(fs, init).value.fs, e.target)
    ensures e.target != []
    ensures var e' := e.(source := None);
            && Manifest(init + [e']) && After(fs, init + [e']) == Some(Step(After(fs, init).value, e', |init|))
            && Marks(fs, init + [e']) == CrashMarks(fs, init, e, SetAside)
  {
    AbsentManifest(init, e);
    NotRoot(After(fs, init).value.fs, e.target);
    hide Disk, NotYet, Blocked, Step, Manifest, Missing;
    assert (init + [e.(source := None)])[..|init|] == init;
  }

  /** What the first loop of the rollback makes of a crash. */
  lemma CrashUndone(fs: Tree, init: seq<Entry>, e: Entry, stage: Stage, p: Path)
    requires Setting(fs, init, e) && Possible(e, stage)
    ensures var s := After(fs, init).value;
            var crash, marks := Crash(s, e, |init|, stage), CrashMarks(fs, init, e, stage);
            && |crash.created| == |marks|
            && At(UndoAll(crash.fs, crash.touched), p) ==
               if p in Left(init, s, e, stage) then Some(Left(init, s, e, stage)[p])
               else if Marked(crash.created, marks, p) then Some(Dir) else At(fs, p)
  {
    hide Disk, NotYet, After, Marks, Manifest, Unsaved, Shielded, Marked, Debris, UndoAll, Blocked, Missing, Step,
         Setting, Staged, Clean, Fits, Ordered;
    SettingParts(fs, init, e);
    var s := After(fs, init).value;
    CrashMarksFit(fs, init, e, stage);
    ExtraUnsaved(fs, init, e, stage);
    var extra := Extra(s, e, |init|, stage);
    if Blocked(s.fs, e.target) || stage.Untouched? || stage.Making? {
      assert s.fs + map[] == s.fs;
      EarlyCrashUndone(fs, init, extra, p);
    } else if stage.MadeParents? {
      ParentsUndone(fs, init, e, p);
    } else {
      TargetUndone(fs, init, e, stage, p);
    }
  }

  lemma ParentsUndone(fs: Tree, init: seq<Entry>, e: Entry, p: Path)
    requires Setting(fs, init, e) && !Blocked(After(fs, init).value.fs, e.target)
    ensures var crash := Recorded(After(fs, init).value, e.target);
            var marks := CrashMarks(fs, init, e, MadeParents);
            && |crash.created| == |marks|
            && At(UndoAll(crash.fs, crash.touched), p) ==
               if Marked(crash.created, marks, p) then Some(Dir) else At(fs, p)
  {
    hide Disk, NotYet, After, Marks, Manifest, Unsaved, Shielded, Marked, Debris, UndoAll, Blocked, Missing,
         Setting, Staged, Clean, Fits, Ordered;
    SettingParts(fs, init, e);
    var s := After(fs, init).value;
    var more := Missing(s.fs, Parent(e.target));
    MissingUnsaved(s.fs, e.target, map[]);
    assert forall x | x in Dirs(Set(more)) :: x in Dirs(Set(more)) + Remove(map[], e.target);
    EarlyCrashUndone(fs, init, Dirs(Set(more)), p);
    MarkedConcat(s.created, Marks(fs, init), more, MarksOf(init, more), p);
    MarkedIfUnshielded(init, more, p);
  }

  lemma MarkedIfUnshielded(init: seq<Entry>, paths: seq<Path>, p: Path)
    ensures Marked(paths, MarksOf(init, paths), p) <==> p in paths && !Shielded(init, p)
  {
    hide Shielded;
    if p in paths && !Shielded(init, p) { MarkedHere(init, paths, MarksOf(init, paths), p); }
  }

  lemma TargetUndone(fs: Tree, init: seq<Entry>, e: Entry, stage: Stage, p: Path)
    requires Setting(fs, init, e) && !Blocked(After(fs, init).value.fs, e.target) && Possible(e, stage)
    requires stage.SetAside? || stage.Copying?
    ensures var s := After(fs, init).value;
            var crash, marks := Crash(s, e, |init|, stage), CrashMarks(fs, init, e, stage);
            && |crash.created| == |marks|
            && At(UndoAll(crash.fs, crash.touched), p) ==
               if p in Left(init, s, e, stage) then Some(Left(init, s, e, stage)[p])
               else if Marked(crash.created, marks, p) then Some(Dir) else At(fs, p)
  {
    hide Disk, NotYet, After, Marks, Manifest, Unsaved, Shielded, Marked, Debris, UndoAll, Blocked, Missing, Step,
         Setting, Staged, Clean, Fits, Ordered, Graft, TempOf;
    SettingParts(fs, init, e);
    assert e.target != [] by { NotRoot(After(fs, init).value.fs, e.target); }
    var s, e' := After(fs, init).value, e.(source := None);
    var extra := Extra(s, e, |init|, stage);
    AbsentEntry(fs, init, e);
    ExtraUnsaved(fs, init, e, stage);
    var aside := Step(s, e', |init|);
    StepTouches(s, e', |init|);
    CrashMarksFit(fs, init, e, stage);
    EarlyCrashUndone(fs, init + [e'], extra, p);
    assert Crash(s, e, |init|, stage).fs == aside.fs + extra by {
      if stage.Copying? && e.source.Some? {
        GraftIsOver(aside.fs, TempOf(e.target, |init|), stage.partial);
      } else {
        assert aside.fs + map[] == aside.fs;
      }
    }
    if p in extra { TempNotShielded(init, s, e, stage, p); }
  }

  lemma TempNotShielded(init: seq<Entry>, s: State, e: Entry, stage: Stage, p: Path)
    requires Clean(e.target) && e.target != [] && stage.Copying? && p in Extra(s, e, |init|, stage)
    ensures Shielded(init + [e.(source := None)], p) == Shielded(init, p)
  {
    hide Shielded;
    var entries := init + [e.(source := None)];
    var t := TempOf(e.target, |init|);
    assert entries[..|init|] == init;
    ShieldedSnoc(entries, p);
    AtGraft(map[], t, stage.partial, p);
    assert Under(p, t);
    BackupLength(e.target, |init|);
    Apart(e.target, |init|);
    if Under(p, e.target) { Comparable(p, e.target, t); }
  }

  lemma {:induction false} CreatedClean(fs: Tree, entries: seq<Entry>, p: Path)
    requires Disk(fs) && NotYet(fs, 0) && Manifest(entries) && After(fs, entries).Some?
    requires p in After(fs, entries).value.created
    ensures Clean(p)
    ensures |Marks(fs, entries)| == |After(fs, entries).value.created|
    ensures !Shielded(entries, p) ==> Marked(After(fs, entries).value.created, Marks(fs, entries), p)
    decreases |entries|
  {
    hide Disk, NotYet, Missing, Step, Clean, Staged, Marked, Shielded;
    if entries != [] {
      var init, e := entries[..|entries| - 1], entries[|entries| - 1];
      MarkedSnoc(fs, entries, p);
      ShieldedSnoc(entries, p);
      ManifestSplit(entries);
      StepTouches(After(fs, init).value, e, |init|);
      if p in After(fs, init).value.created {
        CreatedClean(fs, init, p);
      } else {
        AfterKeeps(fs, init);
        MissingIs(After(fs, init).value.fs, Parent(e.target), p);
        UnderParent(e.target, p);
        CleanPrefix(e.target, p);
      }
    }
  }

  /** A parent that has to be made, outside all targets touched so far, was not there and is not recorded. */
  lemma MissingIsNew(fs: Tree, init: seq<Entry>, e: Entry, p: Path)
    requires Setting(fs, init, e) && !Shielded(init, p)
    requires p in Missing(After(fs, init).value.fs, Parent(e.target))
    ensures p !in fs && p !in After(fs, init).value.created && Clean(p)
  {
    hide Disk, NotYet, After, Marks, Manifest, Unsaved, Shielded, Marked, Missing, Clean, Fits, Ordered;
    SettingParts(fs, init, e);
    MissingIs(After(fs, init).value.fs, Parent(e.target), p);
    UnderParent(e.target, p);
    CleanPrefix(e.target, p);
    Region(fs, init, p);
    if p in After(fs, init).value.created { CreatedClean(fs, init, p); }
  }

  lemma LeftParts(init: seq<Entry>, s: State, e: Entry, stage: Stage, p: Path)
    requires p in Left(init, s, e, stage)
    ensures !Blocked(s.fs, e.target) && e.target != [] && !Shielded(init, p)
    ensures stage.Making? || (stage.Copying? && e.source.Some?)
    ensures stage.Making? ==>
              stage.made > 0 && p in Missing(s.fs, Parent(e.target)) && Left(init, s, e, stage)[p] == Dir
    ensures stage.Copying? ==> |stage.partial| > 0 && Under(p, TempOf(e.target, |init|))
  {
    hide Missing, Shielded, Anchor;
    if stage.Copying? { AtGraft(map[], TempOf(e.target, |init|), stage.partial, p); }
  }

  lemma LeftIsNew(fs: Tree, init: seq<Entry>, e: Entry, stage: Stage, p: Path)
    requires Setting(fs, init, e) && p in Left(init, After(fs, init).value, e, stage)
    ensures p !in fs && p !in Crash(After(fs, init).value, e, |init|, stage).created
  {
    SettingParts(fs, init, e);
    var s := After(fs, init).value;
    LeftParts(init, s, e, stage, p);
    hide Disk, After, Marks, Manifest, Shielded, Marked, Missing, Clean, Fits, Ordered, Setting, Blocked, TempOf, NotYet,
         Left, CrashMarks;
    if stage.Making? {
      MissingIsNew(fs, init, e, p);
    } else {
      hide Crash;
      TempPath(e.target, |init|, p);
      if p in fs { CleanOnDisk(fs, p); }
      AbsentEntry(fs, init, e);
      if p in Crash(s, e, |init|, stage).created {
        CreatedBefore(s, e, |init|, stage, p);
        if p in s.created {
          CreatedClean(fs, init, p);
        } else {
          CreatedClean(fs, init + [e.(source := None)], p);
        }
      }
    }
  }

  lemma CrashMarkedIsNew(fs: Tree, init: seq<Entry>, e: Entry, stage: Stage, p: Path)
    requires Setting(fs, init, e)
    requires var crash := Crash(After(fs, init).value, e, |init|, stage);
             |crash.created| == |CrashMarks(fs, init, e, stage)|
             && Marked(crash.created, CrashMarks(fs, init, e, stage), p)
    ensures p !in fs
  {
    SettingParts(fs, init, e);
    hide Disk, After, Marks, Manifest, Unsaved, Shielded, Marked, Missing, Clean, Fits, Ordered, Setting, Blocked,
         TempOf, NotYet, Step;
    if Blocked(After(fs, init).value.fs, e.target) || stage.Untouched? || stage.Making? {
      MarkedIsNew(fs, init, p);
    } else {
      NotRoot(After(fs, init).value.fs, e.target);
      AbsentEntry(fs, init, e);
      StepTouches(After(fs, init).value, e.(source := None), |init|);
      MarkedIsNew(fs, init + [e.(source := None)], p);
    }
  }

  lemma MakeWreck(fs: Tree, created: seq<Path>, marks: seq<bool>, left: Tree, now: Tree)
    requires Disk(fs) && Ordered(fs, created, marks)
    requires forall p | Marked(created, marks, p) :: p !in fs
    requires forall p | p in left :: p !in fs && p !in created
    requires forall p :: At(now, p) ==
               (if p in left then Some(left[p]) else if Marked(created, marks, p) then Some(Dir) else At(fs, p))
    ensures Wreck(fs, created, marks, left, now)
  {
  }

  lemma OrderedLength(fs: Tree, created: seq<Path>, marks: seq<bool>)
    requires Ordered(fs, created, marks)
    ensures |created| == |marks|
  {
  }

  lemma CrashIsWreck(fs: Tree, init: seq<Entry>, e: Entry, stage: Stage)
    requires Setting(fs, init, e) && Possible(e, stage)
    ensures var s := After(fs, init).value;
            var crash := Crash(s, e, |init|, stage);
            Wreck(fs, crash.created, CrashMarks(fs, init, e, stage), Left(init, s, e, stage),
                  UndoAll(crash.fs, crash.touched))
  {
    SettingParts(fs, init, e);
    hide After, Crash, CrashMarks, Marked, Left, UndoAll, Setting, Disk, Ordered, Possible, Wreck, At;
    var s := After(fs, init).value;
    var crash, left, marks := Crash(s, e, |init|, stage), Left(init, s, e, stage), CrashMarks(fs, init, e, stage);
    CrashMarksFit(fs, init, e, stage);
    OrderedLength(fs, crash.created, marks);
    forall p | Marked(crash.created, marks, p) ensures p !in fs { CrashMarkedIsNew(fs, init, e, stage, p); }
    forall p | p in left ensures p !in fs && p !in crash.created { LeftIsNew(fs, init, e, stage, p); }
    forall p
      ensures At(UndoAll(crash.fs, crash.touched), p) ==
              (if p in left then Some(left[p]) else if Marked(crash.created, marks, p) then Some(Dir) else At(fs, p))
    {
      CrashUndone(fs, init, e, stage, p);
    }
    MakeWreck(fs, crash.created, marks, left, UndoAll(crash.fs, crash.touched));
  }

  /** An original node survives the second loop unless it was a directory that the run had made anew, and
      then all that was below it went before. */
  ghost predicate KeptOrSwept(fs: Tree, created: seq<Path>, final: Tree, p: Path) {
    || At(final, p) == At(fs, p)
    || (p in created && At(fs, p) == Some(Dir) && forall q | Under(q, p) :: At(final, q) == None)
  }

  lemma WreckSwept(fs: Tree, created: seq<Path>, marks: seq<bool>, left: Tree, now: Tree, p: Path)
    requires Wreck(fs, created, marks, left, now)
    ensures p in fs ==> KeptOrSwept(fs, created, Sweep(now, created, 0), p)
    ensures p !in fs ==> At(Sweep(now, created, 0), p) == if Held(left, p) then At(now, p) else None
  {
    var s := Sweep(now, created, 0);
    AtSweep(now, created, 0, p);
    if p in fs {
      assert At(now, p) == At(fs, p);
      if p !in s {
        forall q | Under(q, p) ensures At(s, q) == None { SweptWithAllBelow(now, created, 0, p, q); }
      }
    } else if Held(left, p) {
      var x :| x in left && Under(x, p);
      assert At(now, x) == Some(left[x]);
      if p in now { HeldStays(now, created, 0, p, x); }
    } else {
      assert p in left ==> Held(left, p);
      if Marked(created, marks, p) && p in s {
        MarkedAreSwept(fs, created, marks, left, now, 0, p);
      }
    }
  }

  /** The directories above something left are themselves left, or were there before. */
  lemma HeldIsThere(fs: Tree, init: seq<Entry>, e: Entry, stage: Stage, p: Path)
    requires Setting(fs, init, e) && Possible(e, stage) && p !in fs
    requires Held(Left(init, After(fs, init).value, e, stage), p)
    ensures var s := After(fs, init).value;
            var crash := Crash(s, e, |init|, stage);
            (exists r | r in crash.temporaries :: Under(p, r)) || At(UndoAll(crash.fs, crash.touched), p) == Some(Dir)
  {
    SettingParts(fs, init, e);
    hide After, Crash, CrashMarks, Marked, Left, UndoAll, Setting, Disk, Ordered, Possible, Missing, Shielded, Blocked,
         TempOf, NotYet, Manifest, Fits;
    var s := After(fs, init).value;
    var x :| x in Left(init, s, e, stage) && Under(x, p);
    CrashUndone(fs, init, e, stage, p);
    LeftParts(init, s, e, stage, x);
    ShieldedBelow(init, x, p);
    if p in Left(init, s, e, stage) {
      LeftParts(init, s, e, stage, p);
      if stage.Copying? { CopyingCrash(init, s, e, stage, p); }
    } else if stage.Making? {
      MakingHeld(fs, init, e, stage, x, p);
    } else {
      CopyingHeld(fs, init, e, stage, x, p);
    }
  }

  lemma MakingHeld(fs: Tree, init: seq<Entry>, e: Entry, stage: Stage, x: Path, p: Path)
    requires Setting(fs, init, e) && stage.Making? && !Blocked(After(fs, init).value.fs, e.target)
    requires x in Left(init, After(fs, init).value, e, stage) && Under(x, p) && p !in fs && !Shielded(init, p)
    ensures var crash := Crash(After(fs, init).value, e, |init|, stage);
            && |crash.created| == |CrashMarks(fs, init, e, stage)|
            && (p in Left(init, After(fs, init).value, e, stage) ||
                Marked(crash.created, CrashMarks(fs, init, e, stage), p))
  {
    SettingParts(fs, init, e);
    hide After, Marks, Marked, Setting, Disk, Ordered, Shielded, Blocked, Manifest, NotYet, Fits, Missing;
    var s := After(fs, init).value;
    var missing := Missing(s.fs, Parent(e.target));
    LeftParts(init, s, e, stage, x);
    MissingIs(s.fs, Parent(e.target), x);
    UnderParent(e.target, x);
    CleanPrefix(e.target, p);
    Region(fs, init, p);
    if p !in s.fs {
      var n := if stage.made < |missing| then stage.made else |missing|;
      var j :| 0 <= j < n && missing[j] == x;
      MissingUpTo(s.fs, Parent(e.target), j, p);
      assert p in missing[..n];
    }
  }

  lemma MissingUpTo(fs: Tree, p: Path, j: nat, d: Path)
    requires Disk(fs) && j < |Missing(fs, p)| && Under(Missing(fs, p)[j], d) && d !in fs
    ensures d in Missing(fs, p)[..j + 1]
  {
    hide Disk, Missing;
    if d != Missing(fs, p)[j] { MissingOrdered(fs, p, j, d); }
    assert Missing(fs, p)[..j + 1] == Missing(fs, p)[..j] + [Missing(fs, p)[j]];
  }

  lemma CopyingHeld(fs: Tree, init: seq<Entry>, e: Entry, stage: Stage, x: Path, p: Path)
    requires Setting(fs, init, e) && stage.Copying? && !Blocked(After(fs, init).value.fs, e.target)
    requires x in Left(init, After(fs, init).value, e, stage) && Under(x, p) && p !in fs && !Shielded(init, p)
    ensures var crash := Crash(After(fs, init).value, e, |init|, stage);
            && |crash.created| == |CrashMarks(fs, init, e, stage)|
            && ((exists r | r in crash.temporaries :: Under(p, r)) ||
                Marked(crash.created, CrashMarks(fs, init, e, stage), p))
  {
    SettingParts(fs, init, e);
    var s := After(fs, init).value;
    LeftParts(init, s, e, stage, x);
    hide After, Marks, Marked, Setting, Disk, Ordered, Shielded, Blocked, Manifest, NotYet, Fits, TempOf, Missing, Left;
    var t := TempOf(e.target, |init|);
    CrashMarksFit(fs, init, e, stage);
    StepTouches(s, e.(source := None), |init|);
    if Under(p, t) {
      assert t in Crash(s, e, |init|, stage).temporaries;
    } else {
      if |p| >= |t| { Comparable(x, t, p); }
      Comparable(x, p, t);
      BackupBeside(e.target, |init|);
      assert Under(Parent(t), p);
      UnderParent(e.target, p);
      CleanPrefix(e.target, p);
      Region(fs, init, p);
      var more := Missing(s.fs, Parent(e.target));
      MissingIs(s.fs, Parent(e.target), p);
      MarkedConcat(s.created, Marks(fs, init), more, MarksOf(init, more), p);
      MarkedIfUnshielded(init, more, p);
    }
  }

  /** The directories that stay behind: those above a parent that was never recorded, or above a
      temporary copy that was still there when the created directories were removed. */
  predicate LeftOver(left: Tree, temporaries: set<Path>, p: Path) {
    Held(left, p) && !(exists r | r in temporaries :: Under(p, r))
  }

  function LeftNode(left: Tree, temporaries: set<Path>, p: Path): Option<Node> {
    if LeftOver(left, temporaries, p) then Some(Dir) else None
  }

  lemma AtWithout(fs: Tree, roots: set<Path>, p: Path)
    ensures At(Without(fs, roots), p) == if exists r | r in roots :: Under(p, r) then None else At(fs, p)
  {
  }

  lemma TemporariesAreNew(fs: Tree, init: seq<Entry>, e: Entry, stage: Stage, p: Path)
    requires Setting(fs, init, e) && p in fs
    ensures !(exists r | r in Crash(After(fs, init).value, e, |init|, stage).temporaries :: Under(p, r))
  {
    hide After, Setting, Disk, TempOf, Blocked;
    SettingParts(fs, init, e);
    var s := After(fs, init).value;
    NoTemporaries(fs, init);
    CleanOnDisk(fs, p);
    if !Blocked(s.fs, e.target) {
      NotRoot(s.fs, e.target);
      StepTouches(s, e.(source := None), |init|);
      if Under(p, TempOf(e.target, |init|)) { TempPath(e.target, |init|, p); }
    }
  }

  lemma {:induction false} NoTemporaries(fs: Tree, entries: seq<Entry>)
    requires After(fs, entries).Some?
    ensures After(fs, entries).value.temporaries == {}
    decreases |entries|
  {
    if entries != [] {
      hide Step, Blocked;
      NoTemporaries(fs, entries[..|entries| - 1]);
      StepTouches(After(fs, entries[..|entries| - 1]).value, entries[|entries| - 1], |entries| - 1);
    }
  }

  /** Main theorem: wherever the fault strikes, and however the targets are nested, the rollback gives
      back every original node, except that a directory which the run had to make anew goes if all below
      it goes; and beside the original only the directories named by LeftOver remain. */
  lemma RollbackRestores(fs: Tree, init: seq<Entry>, e: Entry, stage: Stage, p: Path)
    requires Setting(fs, init, e) && Possible(e, stage)
    ensures var s := After(fs, init).value;
            var crash := Crash(s, e, |init|, stage);
            && (p in fs ==> KeptOrSwept(fs, crash.created, Rollback(crash), p))
            && (p !in fs ==> At(Rollback(crash), p) == LeftNode(Left(init, s, e, stage), crash.temporaries, p))
  {
    SettingParts(fs, init, e);
    CrashIsWreck(fs, init, e, stage);
    hide After, Crash, CrashMarks, Left, UndoAll, Setting, Disk, Possible, Sweep, Wreck, Held, Without, At;
    var s := After(fs, init).value;
    var crash := Crash(s, e, |init|, stage);
    var now := UndoAll(crash.fs, crash.touched);
    WreckSwept(fs, crash.created, CrashMarks(fs, init, e, stage), Left(init, s, e, stage), now, p);
    AtWithout(Sweep(now, crash.created, 0), crash.temporaries, p);
    if p in fs {
      TemporariesAreNew(fs, init, e, stage, p);
      forall q | At(Sweep(now, crash.created, 0), q) == None ensures At(Rollback(crash), q) == None {
        AtWithout(Sweep(now, crash.created, 0), crash.temporaries, q);
      }
    } else if Held(Left(init, s, e, stage), p) {
      HeldIsThere(fs, init, e, stage, p);
    }
  }

  /** No directory of the original that the run has made anew was empty. */
  predicate NoneWasEmpty(fs: Tree, created: seq<Path>) {
    forall c | c in created && At(fs, c) == Some(Dir) :: Occupied(fs, c)
  }

  lemma WreckIsOver(fs: Tree, created: seq<Path>, marks: seq<bool>, left: Tree, now: Tree)
    requires Wreck(fs, created, marks, left, now)
    ensures now == fs + map q | q in now && q !in fs :: now[q]
  {
    hide Disk, Ordered, Marked;
    var over := fs + map q | q in now && q !in fs :: now[q];
    forall q ensures At(now, q) == At(over, q) {
      if q in fs { assert At(now, q) == At(fs, q); }
    }
    SameTrees(now, over);
  }

  lemma OriginalsStay(fs: Tree, init: seq<Entry>, e: Entry, stage: Stage, p: Path)
    requires Setting(fs, init, e) && Possible(e, stage) && p in fs
    requires NoneWasEmpty(fs, Crash(After(fs, init).value, e, |init|, stage).created)
    ensures At(Rollback(Crash(After(fs, init).value, e, |init|, stage)), p) == At(fs, p)
  {
    SettingParts(fs, init, e);
    CrashIsWreck(fs, init, e, stage);
    TemporariesAreNew(fs, init, e, stage, p);
    hide After, Crash, CrashMarks, Left, UndoAll, Setting, Disk, Possible, Sweep, Without, Marked, Ordered, Occupied, Wreck;
    var s := After(fs, init).value;
    var crash := Crash(s, e, |init|, stage);
    var now := UndoAll(crash.fs, crash.touched);
    var extra := map q | q in now && q !in fs :: now[q];
    WreckIsOver(fs, crash.created, CrashMarks(fs, init, e, stage), Left(init, s, e, stage), now);
    OriginalStays(fs, extra, crash.created, 0, p);
    AtWithout(Sweep(now, crash.created, 0), crash.temporaries, p);
  }

  /** Below every original node there is one that holds nothing. */
  lemma {:induction false} BottomBelow(fs: Tree, p: Path) returns (c: Path)
    requires p in fs
    ensures c in fs && Under(c, p) && !Occupied(fs, c)
    decreases |set q | q in fs && Under(q, p)|
  {
    if Occupied(fs, p) {
      var q :| q in fs && Under(q, p) && q != p;
      var below, here := set r | r in fs && Under(r, q), set r | r in fs && Under(r, p);
      assert p in here && p !in below;
      forall r | r in below ensures r in here { assert r[..|q|][..|p|] == r[..|p|]; }
      Smaller(below, here);
      c := BottomBelow(fs, q);
    } else {
      c := p;
    }
  }

  lemma Smaller(a: set<Path>, b: set<Path>)
    requires a <= b && a != b
    ensures |a| < |b|
  {
    assert b == a + (b - a);
  }

  /** The second loop removes an empty directory of the original which the run has made anew. */
  ghost predicate LosesEmpty(fs: Tree, created: seq<Path>, marks: seq<bool>, left: Tree)
    requires |created| == |marks|
  {
    exists c | c in created && At(fs, c) == Some(Dir) && !Occupied(fs, c) :: Cleared(created, marks, left, 0, c)
  }

  lemma WreckLosesExactly(fs: Tree, created: seq<Path>, marks: seq<bool>, left: Tree, now: Tree)
    requires Wreck(fs, created, marks, left, now)
    ensures |created| == |marks|
    ensures LosesEmpty(fs, created, marks, left) <==> exists p | p in fs :: At(Sweep(now, created, 0), p) != At(fs, p)
  {
    var s := Sweep(now, created, 0);
    if LosesEmpty(fs, created, marks, left) {
      var c :| c in created && At(fs, c) == Some(Dir) && !Occupied(fs, c) && Cleared(created, marks, left, 0, c);
      assert At(now, c) == At(fs, c);
      SweptExactly(fs, created, marks, left, now, 0, c);
      assert At(s, c) != At(fs, c);
    }
    if p :| p in fs && At(s, p) != At(fs, p) {
      WreckSwept(fs, created, marks, left, now, p);
      var c := BottomBelow(fs, p);
      WreckSwept(fs, created, marks, left, now, c);
      assert At(now, c) == At(fs, c);
      SweptExactly(fs, created, marks, left, now, 0, c);
    }
  }

  /** Main theorem: wherever the fault strikes, and however the targets are nested, the disk is what it was before
      the run if and only if no directory stays behind and no empty one that was made anew is removed. */
  lemma RestoredExactly(fs: Tree, init: seq<Entry>, e: Entry, stage: Stage)
    requires Setting(fs, init, e) && Possible(e, stage)
    ensures var s := After(fs, init).value;
            var crash, marks, left := Crash(s, e, |init|, stage), CrashMarks(fs, init, e, stage), Left(init, s, e, stage);
            && |crash.created| == |marks|
            && (Rollback(crash) == fs <==>
                  (forall p | p !in fs :: !LeftOver(left, crash.temporaries, p)) && !LosesEmpty(fs, crash.created, marks, left))
  {
    SettingParts(fs, init, e);
    CrashIsWreck(fs, init, e, stage);
    var s := After(fs, init).value;
    var crash, marks, left := Crash(s, e, |init|, stage), CrashMarks(fs, init, e, stage), Left(init, s, e, stage);
    var now := UndoAll(crash.fs, crash.touched);
    hide After, Crash, CrashMarks, Left, Setting, Disk, Possible, Rollback, LeftOver, UndoAll, Sweep, Wreck, LosesEmpty, Marks;
    WreckLosesExactly(fs, crash.created, marks, left, now);
    forall p
      ensures p in fs ==> At(Rollback(crash), p) == At(Sweep(now, crash.created, 0), p)
      ensures p !in fs ==> (At(Rollback(crash), p) == None <==> !LeftOver(left, crash.temporaries, p))
    {
      RollbackRestores(fs, init, e, stage, p);
      if p in fs { RollbackAt(fs, init, e, stage, p); }
    }
    if (forall p | p !in fs :: !LeftOver(left, crash.temporaries, p)) && !LosesEmpty(fs, crash.created, marks, left) {
      SameTrees(Rollback(crash), fs);
    } else if p :| p in fs && At(Sweep(now, crash.created, 0), p) != At(fs, p) {
      assert At(Rollback(crash), p) != At(fs, p);
    } else {
      var p :| p !in fs && LeftOver(left, crash.temporaries, p);
      assert At(Rollback(crash), p) != At(fs, p);
    }
  }

  lemma RollbackAt(fs: Tree, init: seq<Entry>, e: Entry, stage: Stage, p: Path)
    requires Setting(fs, init, e) && p in fs
    ensures var crash := Crash(After(fs, init).value, e, |init|, stage);
            At(Rollback(crash), p) == At(Sweep(UndoAll(crash.fs, crash.touched), crash.created, 0), p)
  {
    SettingParts(fs, init, e);
    TemporariesAreNew(fs, init, e, stage, p);
    hide After, Crash, Setting, Disk, Sweep, UndoAll, Without;
    var crash := Crash(After(fs, init).value, e, |init|, stage);
    AtWithout(Sweep(UndoAll(crash.fs, crash.touched), crash.created, 0), crash.temporaries, p);
  }

  /** No directory that the run has made was in the original: then none is lost. */
  lemma NewOnesLoseNothing(fs: Tree, created: seq<Path>, marks: seq<bool>, left: Tree)
    requires |created| == |marks| && forall c | c in created :: c !in fs
    ensures !LosesEmpty(fs, created, marks, left)
  {
  }

  /** With targets that are not nested, no original directory is ever made anew. */
  lemma {:induction false} FlatCreatesNew(fs: Tree, entries: seq<Entry>, p: Path)
    requires Disk(fs) && NotYet(fs, 0) && Manifest(entries) && After(fs, entries).Some? && Flat(entries)
    requires p in After(fs, entries).value.created
    ensures p !in fs
    decreases |entries|
  {
    if entries != [] {
      hide Disk, NotYet, Missing, Step, Clean, Staged, After, Blocked, Shielded, Manifest, Flat, Fits, Marked, Marks;
      var init, e := entries[..|entries| - 1], entries[|entries| - 1];
      AfterSnoc(fs, entries);
      ManifestSplit(entries);
      assert init + [e] == entries;
      FlatParts(init, e, e);
      StepTouches(After(fs, init).value, e, |init|);
      if p in After(fs, init).value.created {
        FlatCreatesNew(fs, init, p);
      } else {
        AfterKeeps(fs, init);
        MissingIs(After(fs, init).value.fs, Parent(e.target), p);
        UnderParent(e.target, p);
        CleanPrefix(e.target, p);
        FlatUnshielded(init, e, p);
        Region(fs, init, p);
      }
    }
  }

  lemma FlatParts(init: seq<Entry>, e: Entry, e': Entry)
    requires Flat(init + [e]) && e'.target == e.target
    ensures Flat(init) && Flat(init + [e'])
  {
    assert forall i | 0 <= i < |init| :: (init + [e])[i] == init[i] == (init + [e'])[i];
    assert (init + [e])[|init|] == e && (init + [e'])[|init|] == e';
  }

  lemma CreatedBefore(s: State, e: Entry, i: nat, stage: Stage, p: Path)
    requires p in Crash(s, e, i, stage).created
    ensures p in s.created ||
            (!Blocked(s.fs, e.target) && e.target != [] && p in Step(s, e.(source := None), i).created)
  {
    hide Missing, Step, Graft;
    if !Blocked(s.fs, e.target) {
      NotRoot(s.fs, e.target);
      StepTouches(s, e.(source := None), i);
    }
  }

  lemma CrashCreates(fs: Tree, init: seq<Entry>, e: Entry, stage: Stage, p: Path)
    requires Setting(fs, init, e) && Flat(init + [e])
    requires p in Crash(After(fs, init).value, e, |init|, stage).created
    ensures p !in fs
  {
    SettingParts(fs, init, e);
    hide After, Setting, Disk, NotYet, Blocked, Step, Missing, Manifest, Fits, Ordered, Crash, Flat, Marks, Clean;
    var s, e' := After(fs, init).value, e.(source := None);
    FlatParts(init, e, e');
    CreatedBefore(s, e, |init|, stage, p);
    if p in s.created {
      FlatCreatesNew(fs, init, p);
    } else {
      AbsentEntry(fs, init, e);
      FlatCreatesNew(fs, init + [e'], p);
    }
  }

  lemma FlatUnshielded(init: seq<Entry>, e: Entry, p: Path)
    requires Flat(init + [e]) && Under(e.target, p)
    ensures !Shielded(init, p)
  {
    forall x | x in init ensures !Under(p, x.target) {
      var j :| 0 <= j < |init| && init[j] == x;
      assert (init + [e])[j] == x && (init + [e])[|init|] == e;
      if Under(p, x.target) { assert Under(e.target, x.target); }
    }
  }

  /** The fault comes at one of the two moments that leave directories behind. */
  predicate LeavesDirectories(fs: Tree, now: Tree, e: Entry, stage: Stage) {
    && !Blocked(now, e.target)
    && ((stage.Making? && stage.made > 0 && Missing(now, Parent(e.target)) != []) ||
        (stage.Copying? && e.source.Some? && |stage.partial| > 0 && Parent(e.target) !in fs))
  }

  lemma MakingLeaves(fs: Tree, init: seq<Entry>, e: Entry, stage: Stage) returns (p: Path)
    requires Setting(fs, init, e) && Flat(init + [e]) && stage.Making?
    requires LeavesDirectories(fs, After(fs, init).value.fs, e, stage)
    ensures var s := After(fs, init).value;
            p !in fs && LeftOver(Left(init, s, e, stage), Crash(s, e, |init|, stage).temporaries, p)
  {
    SettingParts(fs, init, e);
    hide After, Setting, Disk, NotYet, Manifest, Fits, Ordered;
    var s := After(fs, init).value;
    var missing := Missing(s.fs, Parent(e.target));
    p := missing[0];
    assert p in missing;
    MissingIs(s.fs, Parent(e.target), p);
    UnderParent(e.target, p);
    FlatUnshielded(init, e, p);
    MissingIsNew(fs, init, e, p);
    NoTemporaries(fs, init);
    var n := if stage.made < |missing| then stage.made else |missing|;
    assert missing[..n][0] == p;
    assert p in Extra(s, e, |init|, stage);
    assert p in Left(init, s, e, stage);
  }

  lemma CopyingLeaves(fs: Tree, init: seq<Entry>, e: Entry, stage: Stage)
    requires Setting(fs, init, e) && Flat(init + [e]) && stage.Copying? && Possible(e, stage)
    requires LeavesDirectories(fs, After(fs, init).value.fs, e, stage)
    ensures var s := After(fs, init).value;
            LeftOver(Left(init, s, e, stage), Crash(s, e, |init|, stage).temporaries, Parent(e.target))
  {
    SettingParts(fs, init, e);
    hide After, Setting, Disk, NotYet, Manifest, Fits, Ordered, Shielded, TempOf, Left, Crash, Flat, Blocked, Missing,
         Marks;
    var s, t := After(fs, init).value, TempOf(e.target, |init|);
    NotRoot(s.fs, e.target);
    var r :| r in stage.partial;
    BackupBeside(e.target, |init|);
    BackupLength(e.target, |init|);
    Joined(t, r);
    NoTemporaries(fs, init);
    TempUnshielded(init, e, t + r);
    CopyingCrash(init, s, e, stage, t + r);
    assert Under(t + r, Parent(e.target));
  }

  lemma CopyingCrash(init: seq<Entry>, s: State, e: Entry, stage: Stage, x: Path)
    requires stage.Copying? && e.source.Some? && e.target != [] && !Blocked(s.fs, e.target)
    ensures Crash(s, e, |init|, stage).temporaries == {TempOf(e.target, |init|)}
    ensures var t := TempOf(e.target, |init|);
            Under(x, t) && x[|t|..] in stage.partial && !Shielded(init, x) ==> x in Left(init, s, e, stage)
  {
    hide Step, Missing, Shielded, TempOf, Blocked;
    AtGraft(map[], TempOf(e.target, |init|), stage.partial, x);
  }

  lemma StrictlyAbove(x: Path, t: Path, q: Path)
    requires Under(x, t) && Under(x, q) && |q| < |t|
    ensures Under(Parent(t), q)
  {
    Comparable(x, q, t);
  }

  lemma TempUnshielded(init: seq<Entry>, e: Entry, x: Path)
    requires Flat(init + [e]) && Manifest(init + [e]) && e.target != [] && Under(x, TempOf(e.target, |init|))
    ensures !Shielded(init, x)
  {
    var t := TempOf(e.target, |init|);
    FlatUnshielded(init, e, Parent(e.target));
    BackupBeside(e.target, |init|);
    forall y | y in init ensures !Under(x, y.target) {
      assert y in init + [e];
      if Under(x, y.target) {
        if |y.target| >= |t| {
          Comparable(x, t, y.target);
          TempPath(e.target, |init|, y.target);
        } else {
          StrictlyAbove(x, t, y.target);
        }
      }
    }
  }

  lemma NothingLeft(fs: Tree, init: seq<Entry>, e: Entry, stage: Stage, p: Path)
    requires Setting(fs, init, e) && !LeavesDirectories(fs, After(fs, init).value.fs, e, stage) && p !in fs
    ensures var s := After(fs, init).value;
            !LeftOver(Left(init, s, e, stage), Crash(s, e, |init|, stage).temporaries, p)
  {
    SettingParts(fs, init, e);
    hide After, Setting, NotYet, Manifest, Fits, Ordered, Step, Shielded, TempOf, Blocked, Left, Crash, Missing, Marks;
    var s := After(fs, init).value;
    if Held(Left(init, s, e, stage), p) {
      var x :| x in Left(init, s, e, stage) && Under(x, p);
      LeftParts(init, s, e, stage, x);
      var t := TempOf(e.target, |init|);
      CopyingCrash(init, s, e, stage, x);
      BackupBeside(e.target, |init|);
      if !Under(p, t) {
        if |p| >= |t| { Comparable(x, t, p); }
        StrictlyAbove(x, t, p);
      }
    }
  }

  /** For targets that are not nested: the rollback restores the disk exactly, unless the fault came while
      parents were being made, or while a copy was in progress below a parent that had to be made. */
  lemma FlatRollbackExactly(fs: Tree, init: seq<Entry>, e: Entry, stage: Stage)
    requires Setting(fs, init, e) && Possible(e, stage) && Flat(init + [e])
    ensures Rollback(Crash(After(fs, init).value, e, |init|, stage)) == fs <==>
            !LeavesDirectories(fs, After(fs, init).value.fs, e, stage)
  {
    SettingParts(fs, init, e);
    hide After, Setting, Disk, NotYet, Manifest, Fits, Ordered, Rollback, Crash, LeftOver, Left;
    var s := After(fs, init).value;
    var crash := Crash(s, e, |init|, stage);
    forall c | c in crash.created ensures c !in fs { CrashCreates(fs, init, e, stage, c); }
    RestoredExactly(fs, init, e, stage);
    NewOnesLoseNothing(fs, crash.created, CrashMarks(fs, init, e, stage), Left(init, s, e, stage));
    if LeavesDirectories(fs, s.fs, e, stage) {
      if stage.Making? {
        var p := MakingLeaves(fs, init, e, stage);
      } else {
        CopyingLeaves(fs, init, e, stage);
      }
    } else {
      forall p | p !in fs ensures !LeftOver(Left(init, s, e, stage), crash.temporaries, p) {
        NothingLeft(fs, init, e, stage, p);
      }
    }
  }

  lemma {:induction false} BareIsSwept(fs: Tree, created: seq<Path>, m: nat, p: Path)
    requires p in created[if m < |created| then m else |created|..]
    requires At(fs, p) == Some(Dir) && !Occupied(fs, p)
    ensures At(Sweep(fs, created, m), p) == None
    decreases |created| - m
  {
    var s := Sweep(fs, created, m + 1);
    AtSweep(fs, created, m + 1, p);
    assert !Occupied(s, p) by {
      forall q | Under(q, p) && q != p ensures q !in s { AtSweep(fs, created, m + 1, q); }
    }
    if created[m] != p {
      assert p in created[m + 1..];
      BareIsSwept(fs, created, m + 1, p);
    }
  }

  /** Nested targets: an empty directory of the original which the run had to make anew is gone after the
      rollback, when nothing else was made or left below it. */
  lemma EmptyDirectoryLost(fs: Tree, init: seq<Entry>, e: Entry, stage: Stage, p: Path)
    requires Setting(fs, init, e) && Possible(e, stage)
    requires At(fs, p) == Some(Dir) && !Occupied(fs, p)
    requires var s := After(fs, init).value;
             var crash, marks := Crash(s, e, |init|, stage), CrashMarks(fs, init, e, stage);
             && p in crash.created && |crash.created| == |marks|
             && forall q | Under(q, p) :: q !in Left(init, s, e, stage) && !Marked(crash.created, marks, q)
    ensures At(Rollback(Crash(After(fs, init).value, e, |init|, stage)), p) == None
  {
    SettingParts(fs, init, e);
    hide After, Setting, Disk, NotYet, Manifest, Fits, Ordered, Crash, Left, CrashMarks, Marked, UndoAll, Sweep, Without;
    var crash := Crash(After(fs, init).value, e, |init|, stage);
    var now := UndoAll(crash.fs, crash.touched);
    CrashUndone(fs, init, e, stage, p);
    forall q | Under(q, p) && q != p ensures q !in now { CrashUndone(fs, init, e, stage, q); }
    assert crash.created[0..] == crash.created;
    BareIsSwept(now, crash.created, 0, p);
    AtWithout(Sweep(now, crash.created, 0), crash.temporaries, p);
  }

  const OUTER: Path := [Plain("a")]
  const INNER: Path := [Plain("a"), Plain("b")]
  const BEFORE: Tree := map[[] := Dir, OUTER := Dir]
  const GOES := Entry(OUTER, None)
  const COMES := Entry(INNER, Some(map[[] := Leaf("new")]))

  lemma ExampleDisk()
    ensures Disk(BEFORE) && NotYet(BEFORE, 0) && Manifest([GOES]) && Manifest([GOES] + [COMES])
    ensures !Blocked(BEFORE, OUTER) && Missing(BEFORE, []) == [] && Parent(OUTER) == [] && Parent(INNER) == OUTER
  {
    assert Staged(COMES.source.value);
  }

  lemma ExampleAfter()
    ensures After(BEFORE, [GOES]).Some? && After(BEFORE, [GOES]).value.created == []
    ensures At(After(BEFORE, [GOES]).value.fs, OUTER) == None && At(After(BEFORE, [GOES]).value.fs, []) == Some(Dir)
  {
    ExampleDisk();
    DiskClosed(BEFORE);
    hide Disk, NotYet, Manifest, Blocked, Step, Missing, Closed, Placed, Aside;
    assert [GOES][..0] == [];
    var s := State(BEFORE, [], [], {});
    assert After(BEFORE, [GOES]) == Some(Step(s, GOES, 0)) by { assert After(BEFORE, []) == Some(s); }
    hide After;
    StepTouches(s, GOES, 0);
    assert Made(BEFORE, OUTER) == BEFORE;
    AtStep(BEFORE, OUTER, 0, None, OUTER);
    AtStep(BEFORE, OUTER, 0, None, []);
    BackupLength(OUTER, 0);
  }

  lemma ExampleMarks(q: Path)
    requires |CrashMarks(BEFORE, [GOES], COMES, MadeParents)| == 1 == |Crash(After(BEFORE, [GOES]).value, COMES, 1, MadeParents).created|
    ensures After(BEFORE, [GOES]).Some?
    ensures !Marked(Crash(After(BEFORE, [GOES]).value, COMES, 1, MadeParents).created,
                    CrashMarks(BEFORE, [GOES], COMES, MadeParents), q)
  {
  }

  /** A concrete case: an empty directory is to go, and a file is to be put below it. */
  lemma NestedTargetsLoseDirectory()
    ensures Setting(BEFORE, [GOES], COMES)
    ensures Rollback(Crash(After(BEFORE, [GOES]).value, COMES, 1, MadeParents)) != BEFORE
  {
    ExampleDisk();
    ExampleAfter();
    hide Disk, NotYet, Manifest, After, Marked, Rollback, Setting, Step;
    assert Setting(BEFORE, [GOES], COMES) by { MakeSetting(BEFORE, [GOES], COMES); }
    var s := After(BEFORE, [GOES]).value;
    SettingParts(BEFORE, [GOES], COMES);
    assert Missing(s.fs, OUTER) == [OUTER] by { assert Missing(s.fs, []) == []; }
    assert Shielded([GOES], OUTER) by { assert [GOES][0] in [GOES]; }
    var crash, marks := Crash(s, COMES, 1, MadeParents), CrashMarks(BEFORE, [GOES], COMES, MadeParents);
    CrashMarksFit(BEFORE, [GOES], COMES, MadeParents);
    forall q | Under(q, OUTER) ensures !Marked(crash.created, marks, q) { ExampleMarks(q); }
    assert !Occupied(BEFORE, OUTER);
    EmptyDirectoryLost(BEFORE, [GOES], COMES, MadeParents, OUTER);
  }
}
