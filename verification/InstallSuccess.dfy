/**
 What a successful activation leaves, path by path, and when it can be repeated
 (scripts/activate-major-user-state.py).
 */
module InstallSuccess {
  import opened Wrappers
  import opened InstallTrees
  import opened InstallRun

  // ---------- Success ----------

  /** Removing the backups of a committed run, in the order in which they were made. */
  function Commit(fs: Tree, touched: seq<Touch>): Tree {
    if touched == [] then fs
    else
      var r, touch := Commit(fs, touched[..|touched| - 1]), touched[|touched| - 1];
      if touch.backup.Some? then Remove(r, touch.backup.value) else r
  }

  /** What a manifest means, without backups: one target after the other is replaced by its source. */
  function Installed(fs: Tree, entries: seq<Entry>): Option<Tree> {
    if entries == [] then Some(fs)
    else
      var before, e := Installed(fs, entries[..|entries| - 1]), entries[|entries| - 1];
      if before.None? || Blocked(before.value, e.target) then None else Some(Overlay(before.value, e))
  }

  function Overlay(fs: Tree, e: Entry): Tree {
    Placed(Remove(Made(fs, e.target), e.target), e.target, e.source)
  }

  function Visible(fs: Tree): Tree { map p | p in fs && Clean(p) :: fs[p] }

  lemma {:induction false} VisibleParents(fs: Tree, p: Path)
    requires Clean(p)
    ensures Missing(Visible(fs), p) == Missing(fs, p) && Anchor(Visible(fs), p) == Anchor(fs, p)
    decreases |p|
  {
    if p != [] {
      assert forall n | n in Parent(p) :: n in p;
      VisibleParents(fs, Parent(p));
    }
  }

  lemma VisibleBlocked(fs: Tree, target: Path)
    requires Clean(target) && Disk(fs)
    ensures Blocked(Visible(fs), target) <==> Blocked(fs, target)
    ensures Missing(Visible(fs), Parent(target)) == Missing(fs, Parent(target))
  {
    CleanPrefix(target, Parent(target));
    VisibleParents(fs, Parent(target));
    AnchorIs(fs, Parent(target));
    CleanPrefix(Parent(target), Anchor(fs, Parent(target)));
  }

  lemma AtMade(fs: Tree, target: Path, p: Path)
    requires Disk(fs) && Clean(target)
    ensures At(Made(fs, target), p) == if p !in fs && Under(Parent(target), p) then Some(Dir) else At(fs, p)
    ensures At(Made(Visible(fs), target), p) == if Clean(p) then At(Made(fs, target), p) else None
  {
    MissingIs(fs, Parent(target), p);
    CleanPrefix(target, Parent(target));
    VisibleParents(fs, Parent(target));
    if Under(Parent(target), p) { CleanPrefix(Parent(target), p); }
  }

  lemma StepVisible(s: State, e: Entry, i: nat)
    requires Disk(s.fs) && NotYet(s.fs, i) && !Blocked(s.fs, e.target) && Clean(e.target)
    requires e.source.Some? ==> Staged(e.source.value)
    ensures Visible(Step(s, e, i).fs) == Overlay(Visible(s.fs), e)
  {
    NotRoot(s.fs, e.target);
    hide Disk, NotYet, Blocked, Missing, Made, Step, Placed;
    var g, h := Made(s.fs, e.target), Made(Visible(s.fs), e.target);
    MadeIsDisk(s.fs, e.target);
    MadeNotYet(s.fs, e.target, i);
    DiskClosed(g);
    StepTouches(s, e, i);
    forall p ensures At(Visible(Step(s, e, i).fs), p) == At(Overlay(Visible(s.fs), e), p) {
      AtStep(g, e.target, i, e.source, p);
      AtMade(s.fs, e.target, p);
      AtPlaced(Remove(h, e.target), e.target, e.source, p);
      AtRemove(h, e.target, p);
      CleanJoin(p, e.target);
      if Clean(p) && Under(p, BackupOf(e.target, i)) { BackupUnclean(e.target, i, p); }
    }
    SameTrees(Visible(Step(s, e, i).fs), Overlay(Visible(s.fs), e));
  }

  lemma BackupUnclean(target: Path, i: nat, p: Path)
    requires target != [] && Under(p, BackupOf(target, i))
    ensures !Clean(p)
  {
    assert BackupOf(target, i)[|target| - 1] in p;
  }

  lemma CleanJoin(p: Path, target: Path)
    requires Clean(target)
    ensures Under(p, target) ==> (Clean(p) <==> Clean(p[|target|..]))
  {
    if Under(p, target) {
      Split(p, target);
      assert forall n | n in p :: n in target || n in p[|target|..];
      assert forall n | n in p[|target|..] :: n in p;
    }
  }

  lemma {:induction false} RunIsInstall(fs: Tree, entries: seq<Entry>)
    requires Disk(fs) && NotYet(fs, 0) && Manifest(entries)
    ensures After(fs, entries).Some? <==> Installed(fs, entries).Some?
    ensures After(fs, entries).Some? ==> Visible(After(fs, entries).value.fs) == Installed(fs, entries).value
  {
    if entries == [] {
      assert Visible(fs) == fs;
    } else {
      hide Disk, NotYet, Step, Overlay, Blocked, Manifest, Clean, Staged, Fits, Visible;
      var init, e := entries[..|entries| - 1], entries[|entries| - 1];
      ManifestSplit(entries);
      RunIsInstall(fs, init);
      if After(fs, init).Some? {
        AfterKeeps(fs, init);
        VisibleBlocked(After(fs, init).value.fs, e.target);
        if !Blocked(After(fs, init).value.fs, e.target) {
          StepVisible(After(fs, init).value, e, |init|);
        }
      }
    }
  }

  predicate BackedUp(touched: seq<Touch>, p: Path) {
    exists t | t in touched :: t.backup.Some? && Under(p, t.backup.value)
  }

  lemma {:induction false} AtCommit(fs: Tree, touched: seq<Touch>, p: Path)
    ensures At(Commit(fs, touched), p) == if BackedUp(touched, p) then None else At(fs, p)
  {
    if touched != [] {
      assert touched == touched[..|touched| - 1] + [touched[|touched| - 1]];
      AtCommit(fs, touched[..|touched| - 1], p);
    }
  }

  /** Whatever does not belong to the disk proper lies under a backup that the commit removes. */
  lemma {:induction false} UncleanIsBackedUp(fs: Tree, entries: seq<Entry>, p: Path)
    requires Disk(fs) && NotYet(fs, 0) && Manifest(entries) && After(fs, entries).Some?
    requires p in After(fs, entries).value.fs
    ensures BackedUp(After(fs, entries).value.touched, p) <==> !Clean(p)
    decreases |entries|
  {
    AfterKeeps(fs, entries);
    hide Disk, NotYet, Fits, Clean, BackedUp, Manifest;
    if BackedUp(After(fs, entries).value.touched, p) {
      CleanNotBackedUp(After(fs, entries).value.touched, entries, p);
    }
    if entries == [] {
      CleanOnDisk(fs, p);
    } else if !Clean(p) {
      hide Blocked, Made, Step, Missing, Staged, Placed, Aside, After;
      var init, e := entries[..|entries| - 1], entries[|entries| - 1];
      AfterSnoc(fs, entries);
      ManifestSplit(entries);
      AfterKeeps(fs, init);
      UncleanStep(After(fs, init).value, e, |init|, p);
      if p in After(fs, init).value.fs { UncleanIsBackedUp(fs, init, p); }
      StepTouches(After(fs, init).value, e, |init|);
      BackedUpSnoc(After(fs, init).value.touched, TouchOf(Made(After(fs, init).value.fs, e.target), e.target, |init|), p);
    }
  }

  lemma BackedUpSnoc(touched: seq<Touch>, touch: Touch, p: Path)
    ensures BackedUp(touched + [touch], p) <==> BackedUp(touched, p) || BackedUp([touch], p)
  {
    assert [touch][0] in [touch] && (touched + [touch])[|touched|] in touched + [touch];
  }

  lemma CleanNotBackedUp(touched: seq<Touch>, entries: seq<Entry>, p: Path)
    requires Fits(touched, entries) && BackedUp(touched, p)
    ensures !Clean(p)
  {
    hide Clean;
    var t :| t in touched && t.backup.Some? && Under(p, t.backup.value);
    var k :| 0 <= k < |touched| && touched[k] == t;
    assert FitsOne(touched[k], entries[k], k);
    BackupUnclean(entries[k].target, k, p);
  }

  lemma UncleanStep(s: State, e: Entry, i: nat, p: Path)
    requires Disk(s.fs) && NotYet(s.fs, i) && !Blocked(s.fs, e.target) && Clean(e.target)
    requires e.source.Some? ==> Staged(e.source.value)
    requires p in Step(s, e, i).fs && !Clean(p)
    ensures p in s.fs || BackedUp([TouchOf(Made(s.fs, e.target), e.target, i)], p)
  {
    NotRoot(s.fs, e.target);
    hide Disk, NotYet, Blocked, Missing, Made, Step, Placed, Aside, Clean, BackupOf;
    var g := Made(s.fs, e.target);
    MadeIsDisk(s.fs, e.target);
    MadeNotYet(s.fs, e.target, i);
    DiskClosed(g);
    StepTouches(s, e, i);
    AtStep(g, e.target, i, e.source, p);
    AtMade(s.fs, e.target, p);
    CleanJoin(p, e.target);
    assert [TouchOf(g, e.target, i)][0] in [TouchOf(g, e.target, i)];
    if p !in s.fs && Under(Parent(e.target), p) {
      UnderParent(e.target, p);
      CleanPrefix(e.target, p);
    }
  }

  /** Main theorem: a run that is not stopped leaves exactly what the manifest means, and no backup. */
  lemma CommitLeavesInstalled(fs: Tree, entries: seq<Entry>)
    requires Disk(fs) && NotYet(fs, 0) && Manifest(entries) && After(fs, entries).Some?
    ensures Installed(fs, entries) == Some(Commit(After(fs, entries).value.fs, After(fs, entries).value.touched))
  {
    hide Disk, NotYet, Manifest, After, Commit, Installed, BackedUp, Clean;
    RunIsInstall(fs, entries);
    var s := After(fs, entries).value;
    forall p ensures At(Commit(s.fs, s.touched), p) == At(Visible(s.fs), p) {
      AtCommit(s.fs, s.touched, p);
      if p in s.fs { UncleanIsBackedUp(fs, entries, p); }
    }
    SameTrees(Commit(s.fs, s.touched), Visible(s.fs));
  }

  // ---------- What the manifest means, path by path ----------

  /** What an entry says about a path: its place in the source, or a directory above the target. */
  function Word(e: Entry, p: Path): Option<Option<Node>> {
    if Under(p, e.target) then Some(if e.source.Some? then At(e.source.value, p[|e.target|..]) else None)
    else if Under(Parent(e.target), p) then Some(Some(Dir))
    else None
  }

  /** The last entry that says something about the path. */
  function LastWord(entries: seq<Entry>, p: Path): Option<Option<Node>> {
    if entries == [] then None
    else if Word(entries[|entries| - 1], p).Some? then Word(entries[|entries| - 1], p)
    else LastWord(entries[..|entries| - 1], p)
  }

  predicate InTheWay(fs: Tree, target: Path, p: Path) {
    Under(Parent(target), p) && At(fs, p).Some? && At(fs, p) != Some(Dir)
  }

  lemma BlockedByLeaf(fs: Tree, target: Path)
    requires Disk(fs) && target != []
    ensures Blocked(fs, target) <==> exists p :: InTheWay(fs, target, p)
  {
    var parent := Parent(target);
    AnchorIs(fs, parent);
    var anchor := Anchor(fs, parent);
    if Blocked(fs, target) {
      assert InTheWay(fs, target, anchor);
    } else {
      forall p ensures !InTheWay(fs, target, p) {
        if Under(parent, p) && p in fs && p != anchor {
          Comparable(parent, p, anchor);
        }
      }
    }
  }

  lemma AtOverlay(fs: Tree, e: Entry, p: Path)
    requires Disk(fs) && Clean(e.target) && !Blocked(fs, e.target)
    ensures At(Overlay(fs, e), p) == if Word(e, p).Some? then Word(e, p).value else At(fs, p)
  {
    NotRoot(fs, e.target);
    BlockedByLeaf(fs, e.target);
    hide Disk, Blocked, Missing, Made, Placed;
    var g := Made(fs, e.target);
    AtMade(fs, e.target, p);
    AtPlaced(Remove(g, e.target), e.target, e.source, p);
    AtRemove(g, e.target, p);
    assert !InTheWay(fs, e.target, p);
  }

  lemma VisibleDisk(fs: Tree)
    requires Disk(fs)
    ensures Disk(Visible(fs))
  {
    forall p, q | p in Visible(fs) && Under(p, q) && p != q ensures q in Visible(fs) && fs[q] == Dir {
      CleanPrefix(p, q);
    }
  }

  lemma VisibleClean(fs: Tree)
    ensures NotYet(Visible(fs), 0)
  {
  }

  lemma InstalledIsDisk(fs: Tree, entries: seq<Entry>)
    requires Disk(fs) && NotYet(fs, 0) && Manifest(entries) && Installed(fs, entries).Some?
    ensures Disk(Installed(fs, entries).value) && NotYet(Installed(fs, entries).value, 0)
  {
    hide Disk, NotYet, Manifest, After, Installed, Visible;
    RunIsInstall(fs, entries);
    AfterKeeps(fs, entries);
    VisibleDisk(After(fs, entries).value.fs);
    VisibleClean(After(fs, entries).value.fs);
  }

  /** Main theorem: after a successful run every path is as the last entry that concerns it says, and
      as before the run where none does. */
  lemma {:induction false} LastWordDecides(fs: Tree, entries: seq<Entry>, p: Path)
    requires Disk(fs) && NotYet(fs, 0) && Manifest(entries) && Installed(fs, entries).Some?
    ensures At(Installed(fs, entries).value, p) ==
            if LastWord(entries, p).Some? then LastWord(entries, p).value else At(fs, p)
    decreases |entries|
  {
    if entries != [] {
      hide Disk, NotYet, Overlay, Blocked, Manifest, Word, Clean, Staged;
      var init, e := entries[..|entries| - 1], entries[|entries| - 1];
      ManifestSplit(entries);
      InstalledIsDisk(fs, init);
      LastWordDecides(fs, init, p);
      AtOverlay(Installed(fs, init).value, e, p);
    }
  }

  /** A file stands above a target where no earlier entry replaces it. */
  ghost predicate Obstructed(fs: Tree, entries: seq<Entry>) {
    exists j, p | 0 <= j < |entries| :: InTheWay(fs, entries[j].target, p) && LastWord(entries[..j], p).None?
  }

  ghost predicate ObstructedNext(fs: Tree, init: seq<Entry>, e: Entry) {
    exists p :: InTheWay(fs, e.target, p) && LastWord(init, p).None?
  }

  lemma InstalledSnoc(fs: Tree, entries: seq<Entry>)
    requires entries != []
    ensures var init, e := entries[..|entries| - 1], entries[|entries| - 1];
            Installed(fs, entries).Some? <==>
            Installed(fs, init).Some? && !Blocked(Installed(fs, init).value, e.target)
  {
    hide Blocked, Overlay;
  }

  /** Whether the entries can be gone through again on the disk they have left. */
  lemma {:induction false} AgainUnlessObstructed(fs: Tree, entries: seq<Entry>, g: Tree)
    requires Disk(fs) && NotYet(fs, 0) && Manifest(entries) && Installed(fs, entries).Some?
    requires Disk(g) && NotYet(g, 0)
    ensures Installed(g, entries).Some? <==> !Obstructed(g, entries)
    decreases |entries|
  {
    hide Disk, NotYet, Blocked, Manifest, Clean, Staged, Obstructed, ObstructedNext, Installed;
    if entries == [] {
      NothingObstructed(fs);
      NothingObstructed(g);
    } else {
      var init, e := entries[..|entries| - 1], entries[|entries| - 1];
      assert init + [e] == entries;
      InstalledSnoc(fs, entries);
      InstalledSnoc(g, entries);
      ManifestSplit(entries);
      AgainUnlessObstructed(fs, init, g);
      ObstructedSnoc(g, init, e);
      if Installed(g, init).Some? { BlockedAgain(fs, init, e, g); }
    }
  }

  lemma NothingObstructed(fs: Tree)
    ensures Installed(fs, []) == Some(fs) && !Obstructed(fs, [])
  {
  }

  lemma BlockedAgain(fs: Tree, init: seq<Entry>, e: Entry, g: Tree)
    requires Disk(fs) && NotYet(fs, 0) && Disk(g) && NotYet(g, 0) && Manifest(init)
    requires Installed(fs, init).Some? && Installed(g, init).Some?
    requires !Blocked(Installed(fs, init).value, e.target)
    ensures Blocked(Installed(g, init).value, e.target) <==> ObstructedNext(g, init, e)
  {
    InstalledIsDisk(fs, init);
    InstalledIsDisk(g, init);
    NotRoot(Installed(fs, init).value, e.target);
    hide Disk, NotYet, Blocked, Manifest, InTheWay, LastWord, Installed;
    BlockedByLeaf(Installed(fs, init).value, e.target);
    BlockedByLeaf(Installed(g, init).value, e.target);
    forall p ensures InTheWay(Installed(g, init).value, e.target, p) <==>
                     InTheWay(g, e.target, p) && LastWord(init, p).None?
    {
      LastWordDecides(fs, init, p);
      LastWordDecides(g, init, p);
      SameWay(fs, init, e, g, p);
    }
  }

  lemma SameWay(fs: Tree, init: seq<Entry>, e: Entry, g: Tree, p: Path)
    requires Installed(fs, init).Some? && Installed(g, init).Some?
    requires !InTheWay(Installed(fs, init).value, e.target, p)
    requires At(Installed(fs, init).value, p) == if LastWord(init, p).Some? then LastWord(init, p).value else At(fs, p)
    requires At(Installed(g, init).value, p) == if LastWord(init, p).Some? then LastWord(init, p).value else At(g, p)
    ensures InTheWay(Installed(g, init).value, e.target, p) <==> InTheWay(g, e.target, p) && LastWord(init, p).None?
  {
    hide LastWord, Installed;
  }

  lemma ObstructedSnoc(g: Tree, init: seq<Entry>, e: Entry)
    ensures Obstructed(g, init + [e]) <==> Obstructed(g, init) || ObstructedNext(g, init, e)
  {
    hide InTheWay, LastWord;
    var entries := init + [e];
    assert forall j | 0 <= j <= |init| :: entries[..j] == init[..j];
    assert init[..|init|] == init && entries[|init|] == e;
    if Obstructed(g, init) {
      var j, p :| 0 <= j < |init| && InTheWay(g, init[j].target, p) && LastWord(init[..j], p).None?;
      assert InTheWay(g, entries[j].target, p) && LastWord(entries[..j], p).None?;
    }
    if p :| InTheWay(g, e.target, p) && LastWord(init, p).None? {
      assert InTheWay(g, entries[|init|].target, p) && LastWord(entries[..|init|], p).None?;
    }
  }

  /** Main theorem: activating a second time changes nothing if and only if no file that the first run
      has left stands above a target, apart from those that an earlier entry replaces. */
  lemma AgainIsNoOpExactly(fs: Tree, entries: seq<Entry>)
    requires Disk(fs) && NotYet(fs, 0) && Manifest(entries) && Installed(fs, entries).Some?
    ensures var g := Installed(fs, entries).value;
            Installed(g, entries) == Some(g) <==> !Obstructed(g, entries)
  {
    hide Disk, NotYet, Manifest, Installed, Obstructed, LastWord;
    var g := Installed(fs, entries).value;
    InstalledIsDisk(fs, entries);
    AgainUnlessObstructed(fs, entries, g);
    if Installed(g, entries).Some? {
      forall p ensures At(Installed(g, entries).value, p) == At(g, p) {
        LastWordDecides(fs, entries, p);
        LastWordDecides(g, entries, p);
      }
      SameTrees(Installed(g, entries).value, g);
    }
  }

  /** With targets that are not nested, activating again always changes nothing. */
  lemma FlatAgainIsNoOp(fs: Tree, entries: seq<Entry>)
    requires Disk(fs) && NotYet(fs, 0) && Manifest(entries) && Flat(entries) && Installed(fs, entries).Some?
    ensures var g := Installed(fs, entries).value; Installed(g, entries) == Some(g)
  {
    hide Disk, NotYet, Manifest, Installed, LastWord;
    var g := Installed(fs, entries).value;
    AgainIsNoOpExactly(fs, entries);
    assert entries[..|entries|] == entries;
    if Obstructed(g, entries) {
      var j, p :| 0 <= j < |entries| && InTheWay(g, entries[j].target, p) && LastWord(entries[..j], p).None?;
      LastWordDecides(fs, entries, p);
      TargetsNotRoot(fs, entries, j);
      WordsAreDirs(entries, |entries|, j, p);
      assert false;
    }
  }

  lemma {:induction false} TargetsNotRoot(fs: Tree, entries: seq<Entry>, j: nat)
    requires Installed(fs, entries).Some? && j < |entries|
    ensures entries[j].target != []
    decreases |entries|
  {
    hide Overlay;
    if j < |entries| - 1 { TargetsNotRoot(fs, entries[..|entries| - 1], j); }
  }

  lemma {:induction false} WordsAreDirs(entries: seq<Entry>, n: nat, j: nat, p: Path)
    requires Flat(entries) && j < n <= |entries| && entries[j].target != [] && Under(Parent(entries[j].target), p)
    ensures LastWord(entries[..n], p) == Some(Some(Dir))
    decreases n
  {
    var init := entries[..n];
    assert init[..|init| - 1] == entries[..n - 1];
    var e := entries[n - 1];
    UnderParent(entries[j].target, p);
    assert !Under(p, e.target) by {
      if n - 1 != j { assert !Under(entries[j].target, e.target); }
    }
    if n - 1 != j && Word(e, p).None? { WordsAreDirs(entries, n - 1, j, p); }
  }

  const FILE: Tree := map[[] := Leaf("new")]
  const ABOVE: Path := [Plain("a")]
  const BELOW: Path := [Plain("a"), Plain("b")]
  const ROOT_ONLY: Tree := map[[] := Dir]
  const INSIDE_OUT := [Entry(BELOW, Some(FILE)), Entry(ABOVE, Some(FILE))]

  lemma InsideOutInstalls()
    ensures Disk(ROOT_ONLY) && NotYet(ROOT_ONLY, 0) && Manifest(INSIDE_OUT) && Installed(ROOT_ONLY, INSIDE_OUT).Some?
  {
    assert Staged(FILE);
    assert INSIDE_OUT[..1] == [Entry(BELOW, Some(FILE))] && INSIDE_OUT[..1][..0] == [];
    assert Parent(BELOW) == ABOVE && Parent(ABOVE) == [];
    assert !Blocked(ROOT_ONLY, BELOW);
    var g := Overlay(ROOT_ONLY, Entry(BELOW, Some(FILE)));
    AtOverlay(ROOT_ONLY, Entry(BELOW, Some(FILE)), []);
    assert At(g, []) == Some(Dir);
    assert !Blocked(g, ABOVE);
    assert Installed(ROOT_ONLY, INSIDE_OUT[..1]) == Some(g);
  }

  /** A concrete case: a file is put below a directory, and then a file replaces the directory. The
      second activation is refused. */
  lemma InsideOutIsRefusedAgain()
    ensures Installed(ROOT_ONLY, INSIDE_OUT).Some?
    ensures Installed(Installed(ROOT_ONLY, INSIDE_OUT).value, INSIDE_OUT) == None
  {
    InsideOutInstalls();
    hide Disk, NotYet, Manifest, Installed;
    var g := Installed(ROOT_ONLY, INSIDE_OUT).value;
    InstalledIsDisk(ROOT_ONLY, INSIDE_OUT);
    LastWordDecides(ROOT_ONLY, INSIDE_OUT, ABOVE);
    assert ABOVE[|ABOVE|..] == [];
    assert Word(INSIDE_OUT[1], ABOVE) == Some(Some(Leaf("new")));
    assert At(g, ABOVE) == Some(Leaf("new"));
    assert INSIDE_OUT[..0] == [] && Parent(BELOW) == ABOVE;
    assert InTheWay(g, INSIDE_OUT[0].target, ABOVE) && LastWord(INSIDE_OUT[..0], ABOVE).None?;
    AgainUnlessObstructed(ROOT_ONLY, INSIDE_OUT, g);
  }
}
