/**
 The run over a manifest, and undoing it in reverse: exactly the original comes back, together with
 whatever else was left about on the disk (scripts/activate-major-user-state.py).
 */
module InstallRun {
  import opened Wrappers
  import opened InstallTrees

  // ---------- The run ----------

  /** A manifest entry; without a source the target is to be absent. */
  datatype Entry = Entry(target: Path, source: Option<Tree>)

  ghost predicate Staged(source: Tree) {
    Closed(source) && [] in source && forall p | p in source :: Clean(p)
  }

  ghost predicate Manifest(entries: seq<Entry>) {
    forall e | e in entries :: Clean(e.target) && (e.source.Some? ==> Staged(e.source.value))
  }

  /** No target is above another one. */
  predicate Flat(entries: seq<Entry>) {
    forall i, j | 0 <= i < |entries| && 0 <= j < |entries| && i != j :: !Under(entries[i].target, entries[j].target)
  }

  datatype State = State(fs: Tree, touched: seq<Touch>, created: seq<Path>, temporaries: set<Path>)

  function Recorded(s: State, target: Path): State {
    s.(fs := Made(s.fs, target), created := s.created + Missing(s.fs, Parent(target)))
  }

  function Step(s: State, e: Entry, i: nat): State
    requires e.target != []
  {
    var m := Recorded(s, e.target);
    var touch := TouchOf(m.fs, e.target, i);
    m.(fs := Placed(Aside(m.fs, touch), e.target, e.source), touched := m.touched + [touch])
  }

  /** The state after all entries, unless one of them was refused. */
  function After(fs: Tree, entries: seq<Entry>): Option<State> {
    if entries == [] then Some(State(fs, [], [], {}))
    else
      var before, e := After(fs, entries[..|entries| - 1]), entries[|entries| - 1];
      if before.None? || Blocked(before.value.fs, e.target) then None
      else Some(Step(before.value, e, |entries| - 1))
  }

  lemma AfterSnoc(fs: Tree, entries: seq<Entry>)
    requires entries != [] && After(fs, entries).Some?
    ensures var init, e := entries[..|entries| - 1], entries[|entries| - 1];
            && After(fs, init).Some? && !Blocked(After(fs, init).value.fs, e.target) && e.target != []
            && After(fs, entries).value == Step(After(fs, init).value, e, |init|)
  {
    hide Step;
  }

  lemma MadeIsDisk(fs: Tree, target: Path)
    requires Disk(fs) && !Blocked(fs, target)
    ensures Disk(Made(fs, target)) && At(Made(fs, target), Parent(target)) == Some(Dir)
  {
    var parent := Parent(target);
    AnchorIs(fs, parent);
    MissingIs(fs, parent, parent);
    var g := Made(fs, target);
    forall p, q | p in g && Under(p, q) && p != q ensures q in g && g[q] == Dir {
      MissingIs(fs, parent, p);
      MissingIs(fs, parent, q);
      if p !in fs && q in fs {
        assert Under(parent, q);
        Comparable(parent, q, Anchor(fs, parent));
      }
    }
    MissingIs(fs, parent, []);
  }

  lemma MadeNotYet(fs: Tree, target: Path, i: nat)
    requires Disk(fs) && NotYet(fs, i) && Clean(target)
    ensures NotYet(Made(fs, target), i)
  {
    forall p | p in Made(fs, target) ensures NotNamed(p, i) {
      MissingIs(fs, Parent(target), p);
      if p !in fs { assert forall n | n in p :: n in target; }
    }
  }

  /** What an entry leaves at a path, in terms of the disk with its parents made. */
  lemma AtStep(g: Tree, target: Path, i: nat, source: Option<Tree>, p: Path)
    requires Closed(g) && NotYet(g, i) && target != [] && Clean(target)
    ensures At(Placed(Aside(g, TouchOf(g, target, i)), target, source), p) ==
            if Under(p, target) then (if source.Some? then At(source.value, p[|target|..]) else None)
            else if target in g && Under(p, BackupOf(target, i)) then At(g, target + p[|target|..])
            else At(g, p)
  {
    hide Move, Remove, BackupOf, NotYet, Closed, Aside, Placed;
    AtPlaced(Aside(g, TouchOf(g, target, i)), target, source, p);
    AtAside(g, target, i, p);
    if Under(p, target) {
      if target in g && Under(p, BackupOf(target, i)) {
        BackupLength(target, i);
        Apart(target, i);
        Comparable(p, target, BackupOf(target, i));
      }
      if target !in g { NothingUnder(g, target, p); }
    }
  }

  lemma ParentsStand(g: Tree, target: Path, p: Path, q: Path, root: Path)
    requires Disk(g) && target != [] && At(g, Parent(target)) == Some(Dir)
    requires root != [] && Parent(root) == Parent(target) && |root| == |target|
    requires Under(p, root) && Under(p, q) && !Under(q, root)
    ensures At(g, q) == Some(Dir) && Under(Parent(target), q)
  {
    assert |q| < |root| by { if |q| >= |root| { Comparable(p, root, q); } }
    Comparable(p, q, root);
    assert Under(Parent(root), q);
  }

  lemma PlacedIsDisk(g: Tree, target: Path, i: nat, source: Option<Tree>)
    requires Disk(g) && NotYet(g, i) && target != [] && Clean(target) && At(g, Parent(target)) == Some(Dir)
    requires source.Some? ==> Staged(source.value)
    ensures Disk(Placed(Aside(g, TouchOf(g, target, i)), target, source))
  {
    var after := Placed(Aside(g, TouchOf(g, target, i)), target, source);
    AtStep(g, target, i, source, []);
    BackupLength(target, i);
    forall p, q | p in after && Under(p, q) && p != q ensures q in after && after[q] == Dir {
      AboveStands(g, target, i, source, p, q);
    }
  }

  lemma AboveStands(g: Tree, target: Path, i: nat, source: Option<Tree>, p: Path, q: Path)
    requires Disk(g) && NotYet(g, i) && target != [] && Clean(target) && At(g, Parent(target)) == Some(Dir)
    requires source.Some? ==> Staged(source.value)
    requires At(Placed(Aside(g, TouchOf(g, target, i)), target, source), p).Some? && Under(p, q) && p != q
    ensures At(Placed(Aside(g, TouchOf(g, target, i)), target, source), q) == Some(Dir)
  {
    hide Placed, Aside, NotYet, BackupOf;
    var b := BackupOf(target, i);
    BackupLength(target, i);
    Apart(target, i);
    BackupBeside(target, i);
    AtStep(g, target, i, source, p);
    AtStep(g, target, i, source, q);
    if Under(p, target) {
      if Under(q, target) {
        Split(q, target);
        assert Under(p[|target|..], q[|target|..]);
      } else {
        ParentsStand(g, target, p, q, target);
        assert !Under(q, b);
      }
    } else if target in g && Under(p, b) {
      if Under(q, b) {
        Split(q, b);
        assert Under(target + p[|target|..], target + q[|target|..]);
      } else {
        ParentsStand(g, target, p, q, b);
        assert !Under(q, target);
      }
    } else {
      assert !Under(q, target) && !(target in g && Under(q, b));
    }
  }

  lemma BackupBeside(target: Path, i: nat)
    requires target != []
    ensures BackupOf(target, i) != [] && Parent(BackupOf(target, i)) == Parent(target)
    ensures TempOf(target, i) != [] && Parent(TempOf(target, i)) == Parent(target)
  {
  }

  lemma PlacedNotYet(g: Tree, target: Path, i: nat, source: Option<Tree>)
    requires Closed(g) && NotYet(g, i) && target != [] && Clean(target)
    requires source.Some? ==> Staged(source.value)
    ensures NotYet(Placed(Aside(g, TouchOf(g, target, i)), target, source), i + 1)
  {
    var after := Placed(Aside(g, TouchOf(g, target, i)), target, source);
    hide Placed, Aside;
    forall p | p in after ensures NotNamed(p, i + 1) {
      AtStep(g, target, i, source, p);
      var b := BackupOf(target, i);
      if Under(p, target) {
        Split(p, target);
        assert Clean(p[|target|..]);
      } else if target in g && Under(p, b) {
        BackupLength(target, i);
        assert NotNamed(target + p[|target|..], i);
        forall n | n in p ensures n.Plain? || n.entry < i + 1 {
          assert n in b || n in p[|target|..] by { Split(p, b); }
          assert n in p[|target|..] ==> n in target + p[|target|..];
          assert n in b ==> n in target || n == b[|target| - 1];
        }
      } else {
        assert NotNamed(p, i);
      }
    }
  }

  lemma StepKeeps(s: State, e: Entry, i: nat)
    requires Disk(s.fs) && NotYet(s.fs, i) && !Blocked(s.fs, e.target) && Clean(e.target)
    requires e.source.Some? ==> Staged(e.source.value)
    ensures Disk(Step(s, e, i).fs) && NotYet(Step(s, e, i).fs, i + 1)
  {
    hide Disk, NotYet, Placed, Aside, Made;
    MadeIsDisk(s.fs, e.target);
    MadeNotYet(s.fs, e.target, i);
    assert Closed(Made(s.fs, e.target)) by { DiskClosed(Made(s.fs, e.target)); }
    PlacedIsDisk(Made(s.fs, e.target), e.target, i, e.source);
    PlacedNotYet(Made(s.fs, e.target), e.target, i, e.source);
  }

  lemma DiskClosed(fs: Tree)
    requires Disk(fs)
    ensures Closed(fs)
  {
  }

  /** What the run remembers of the entries it has been through. */
  ghost predicate Fits(touched: seq<Touch>, entries: seq<Entry>) {
    && |touched| == |entries|
    && forall k | 0 <= k < |entries| :: FitsOne(touched[k], entries[k], k)
  }

  predicate FitsOne(touch: Touch, e: Entry, k: nat) {
    e.target != [] && touch.target == e.target && (touch.backup.Some? ==> touch.backup.value == BackupOf(e.target, k))
  }

  lemma FitsStep(touched: seq<Touch>, entries: seq<Entry>, g: Tree, e: Entry)
    requires Fits(touched, entries) && e.target != []
    ensures Fits(touched + [TouchOf(g, e.target, |entries|)], entries + [e])
  {
  }

  lemma ManifestSplit(entries: seq<Entry>)
    requires Manifest(entries) && entries != []
    ensures var init, e := entries[..|entries| - 1], entries[|entries| - 1];
            && Manifest(init) && Clean(e.target) && (e.source.Some? ==> Staged(e.source.value))
  {
    hide Clean, Staged;
    assert entries[|entries| - 1] in entries;
  }

  lemma {:induction false} AfterKeeps(fs: Tree, entries: seq<Entry>)
    requires Disk(fs) && NotYet(fs, 0) && Manifest(entries) && After(fs, entries).Some?
    ensures Disk(After(fs, entries).value.fs) && NotYet(After(fs, entries).value.fs, |entries|)
    ensures Fits(After(fs, entries).value.touched, entries)
  {
    if entries != [] {
      hide Disk, NotYet, Placed, Aside, Made, Missing, Fits, TouchOf, Blocked, Manifest, Clean, Staged;
      var init, e := entries[..|entries| - 1], entries[|entries| - 1];
      ManifestSplit(entries);
      AfterKeeps(fs, init);
      var before := After(fs, init).value;
      StepKeeps(before, e, |init|);
      FitsStep(before.touched, init, Made(before.fs, e.target), e);
      assert init + [e] == entries;
    }
  }

  // ---------- Undoing the run ----------

  /** The rollback's first loop. */
  function UndoAll(fs: Tree, touched: seq<Touch>): Tree
    decreases |touched|
  {
    if touched == [] then fs
    else UndoAll(Undo(fs, touched[|touched| - 1]), touched[..|touched| - 1])
  }

  /** Whatever else lies on the disk is only touched when it is under the target. */
  lemma UndoKeepsExtras(fs: Tree, extra: Tree, target: Path, i: nat, backup: Option<Path>, p: Path)
    requires target != [] && Clean(target) && backup in {None, Some(BackupOf(target, i))}
    requires forall x | x in extra :: Unsaved(x)
    ensures At(Undo(fs + extra, Touch(target, backup)), p) ==
            At(Undo(fs, Touch(target, backup)) + Remove(extra, target), p)
  {
    hide Move, Remove, BackupOf, Unsaved;
    var r, s := Remove(fs, target), Remove(fs + extra, target);
    AtRemove(fs, target, p);
    AtRemove(fs + extra, target, p);
    AtRemove(extra, target, p);
    if backup.Some? {
      var b := BackupOf(target, i);
      BackupLength(target, i);
      Apart(target, i);
      SavedPath(target, i, b);
      AtRemove(fs, target, b);
      AtRemove(fs + extra, target, b);
      assert b in r <==> b in s;
      AtRemove(r, b, p);
      AtRemove(s, b, p);
      AtMove(r, b, target, p);
      AtMove(s, b, target, p);
      if Under(p, b) { SavedPath(target, i, p); }
      if Under(p, target) {
        var q := b + p[|target|..];
        Joined(b, p[|target|..]);
        SavedPath(target, i, q);
        AtRemove(fs, target, q);
        AtRemove(fs + extra, target, q);
      }
    }
  }

  lemma SavedPath(target: Path, i: nat, p: Path)
    requires target != [] && Under(p, BackupOf(target, i))
    ensures !Unsaved(p)
  {
    assert BackupOf(target, i)[|target| - 1] in p;
  }

  /** What is on the disk besides the original when `extra` was there and everything has been undone. */
  function Debris(fs: Tree, entries: seq<Entry>, extra: Tree): Tree
    requires After(fs, entries).Some?
    decreases |entries|
  {
    if entries == [] then extra
    else
      var init, e := entries[..|entries| - 1], entries[|entries| - 1];
      Debris(fs, init,
             Dirs(Set(Missing(After(fs, init).value.fs, Parent(e.target)))) + Remove(extra, e.target))
  }

  lemma UndoStep(s: State, e: Entry, i: nat, extra: Tree)
    requires Disk(s.fs) && NotYet(s.fs, i) && !Blocked(s.fs, e.target) && Clean(e.target)
    requires e.source.Some? ==> Staged(e.source.value)
    requires forall x | x in extra :: Unsaved(x)
    ensures Undo(Step(s, e, i).fs + extra, TouchOf(Made(s.fs, e.target), e.target, i)) ==
            s.fs + (Dirs(Set(Missing(s.fs, Parent(e.target)))) + Remove(extra, e.target))
  {
    hide Disk, NotYet, Placed, Aside, Missing, Undo, Unsaved;
    var g := Made(s.fs, e.target);
    MadeIsDisk(s.fs, e.target);
    MadeNotYet(s.fs, e.target, i);
    DiskClosed(g);
    forall p ensures At(Undo(Step(s, e, i).fs + extra, TouchOf(g, e.target, i)), p) ==
                     At(g + Remove(extra, e.target), p)
    {
      UndoKeepsExtras(Step(s, e, i).fs, extra, e.target, i, TouchOf(g, e.target, i).backup, p);
      StepUndone(g, e.target, i, e.source, p);
      OverSame(Undo(Step(s, e, i).fs, TouchOf(g, e.target, i)), g, Remove(extra, e.target), p);
    }
    SameTrees(Undo(Step(s, e, i).fs + extra, TouchOf(g, e.target, i)), g + Remove(extra, e.target));
  }

  lemma OverSame(f: Tree, g: Tree, extra: Tree, p: Path)
    requires At(f, p) == At(g, p)
    ensures At(f + extra, p) == At(g + extra, p)
  {
  }

  lemma MissingUnsaved(fs: Tree, target: Path, extra: Tree)
    requires Disk(fs) && Clean(target) && forall x | x in extra :: Unsaved(x)
    ensures forall x | x in Dirs(Set(Missing(fs, Parent(target)))) + Remove(extra, target) :: Unsaved(x)
  {
    hide Disk;
    forall x | x in Missing(fs, Parent(target)) ensures Unsaved(x) {
      MissingIs(fs, Parent(target), x);
      assert forall n | n in x :: n in target;
    }
  }

  lemma UndoAllSnoc(fs: Tree, touched: seq<Touch>, touch: Touch)
    ensures UndoAll(fs, touched + [touch]) == UndoAll(Undo(fs, touch), touched)
  {
    hide Undo;
    assert (touched + [touch])[..|touched|] == touched;
  }

  lemma DebrisSnoc(fs: Tree, entries: seq<Entry>, extra: Tree)
    requires entries != [] && After(fs, entries).Some?
    ensures var init, e := entries[..|entries| - 1], entries[|entries| - 1];
            && After(fs, init).Some? && !Blocked(After(fs, init).value.fs, e.target)
            && After(fs, entries).value == Step(After(fs, init).value, e, |init|)
            && Debris(fs, entries, extra) ==
               Debris(fs, init, Dirs(Set(Missing(After(fs, init).value.fs, Parent(e.target)))) + Remove(extra, e.target))
  {
    hide Step, Blocked, Missing, Remove;
  }

  /** Undoing every entry in reverse gives back the original, and what has been left about. */
  lemma {:induction false} AllUndone(fs: Tree, entries: seq<Entry>, extra: Tree)
    requires Disk(fs) && NotYet(fs, 0) && Manifest(entries) && After(fs, entries).Some?
    requires forall x | x in extra :: Unsaved(x)
    ensures UndoAll(After(fs, entries).value.fs + extra, After(fs, entries).value.touched) ==
            fs + Debris(fs, entries, extra)
    decreases |entries|
  {
    if entries != [] {
      hide Disk, NotYet, Step, Missing, Undo, Unsaved, Manifest, Staged, Clean, Fits, Remove;
      hide After, Debris, UndoAll, Dirs, Set, Made, TouchOf;
      var init, e := entries[..|entries| - 1], entries[|entries| - 1];
      DebrisSnoc(fs, entries, extra);
      ManifestSplit(entries);
      AfterKeeps(fs, init);
      var before := After(fs, init).value;
      var more := Dirs(Set(Missing(before.fs, Parent(e.target)))) + Remove(extra, e.target);
      StepTouches(before, e, |init|);
      UndoStep(before, e, |init|, extra);
      UndoAllSnoc(Step(before, e, |init|).fs + extra, before.touched, TouchOf(Made(before.fs, e.target), e.target, |init|));
      MissingUnsaved(before.fs, e.target, extra);
      AllUndone(fs, init, more);
    }
  }

  lemma StepTouches(s: State, e: Entry, i: nat)
    requires e.target != []
    ensures Step(s, e, i).touched == s.touched + [TouchOf(Made(s.fs, e.target), e.target, i)]
    ensures Step(s, e, i).created == s.created + Missing(s.fs, Parent(e.target))
    ensures Step(s, e, i).temporaries == s.temporaries
    ensures Step(s, e, i).fs == Placed(Aside(Made(s.fs, e.target), TouchOf(Made(s.fs, e.target), e.target, i)), e.target, e.source)
  {
    hide Placed, Aside, Made, Missing, TouchOf;
  }
}
