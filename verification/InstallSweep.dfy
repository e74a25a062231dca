/**
 The directories the installer has created: where they come to stand, and what removing them in reverse
 does when targets are nested (scripts/activate-major-user-state.py).
 */
module InstallSweep {
  import opened Wrappers
  import opened InstallTrees
  import opened InstallRun

  // ---------- Which directories are left ----------

  predicate Shielded(entries: seq<Entry>, p: Path) { exists e | e in entries :: Under(p, e.target) }

  function MarksOf(entries: seq<Entry>, paths: seq<Path>): (r: seq<bool>)
    ensures |r| == |paths|
    ensures forall b | 0 <= b < |paths| :: r[b] == !Shielded(entries, paths[b])
  {
    seq(|paths|, b requires 0 <= b < |paths| => !Shielded(entries, paths[b]))
  }

  /** For every created directory, whether it came into being outside all targets touched before it. */
  function Marks(fs: Tree, entries: seq<Entry>): seq<bool>
    requires After(fs, entries).Some?
    decreases |entries|
  {
    if entries == [] then []
    else
      var init, e := entries[..|entries| - 1], entries[|entries| - 1];
      Marks(fs, init) + MarksOf(init, Missing(After(fs, init).value.fs, Parent(e.target)))
  }

  ghost predicate Marked(created: seq<Path>, marks: seq<bool>, p: Path)
    requires |created| == |marks|
  {
    exists b :: 0 <= b < |created| && marks[b] && created[b] == p
  }

  lemma MarkedConcat(c: seq<Path>, m: seq<bool>, d: seq<Path>, n: seq<bool>, p: Path)
    requires |c| == |m| && |d| == |n|
    ensures Marked(c + d, m + n, p) <==> Marked(c, m, p) || Marked(d, n, p)
  {
    if Marked(c, m, p) {
      var b :| 0 <= b < |c| && m[b] && c[b] == p;
      assert (c + d)[b] == p && (m + n)[b];
    }
    if Marked(d, n, p) {
      var b :| 0 <= b < |d| && n[b] && d[b] == p;
      assert (c + d)[|c| + b] == p && (m + n)[|c| + b];
    }
  }

  lemma {:induction false} MarksFit(fs: Tree, entries: seq<Entry>)
    requires After(fs, entries).Some?
    ensures |Marks(fs, entries)| == |After(fs, entries).value.created|
    decreases |entries|
  {
    if entries != [] {
      hide Missing, Step, Blocked;
      var init, e := entries[..|entries| - 1], entries[|entries| - 1];
      MarksFit(fs, init);
      StepTouches(After(fs, init).value, e, |init|);
    }
  }

  lemma ShieldedSnoc(entries: seq<Entry>, p: Path)
    requires entries != []
    ensures Shielded(entries, p) <==>
            Shielded(entries[..|entries| - 1], p) || Under(p, entries[|entries| - 1].target)
  {
    assert entries == entries[..|entries| - 1] + [entries[|entries| - 1]];
    assert entries[|entries| - 1] in entries;
  }

  /** One more entry: the marked directories are the earlier ones and the new ones outside all targets. */
  lemma MarkedSnoc(fs: Tree, entries: seq<Entry>, p: Path)
    requires entries != [] && After(fs, entries).Some?
    ensures var init, e := entries[..|entries| - 1], entries[|entries| - 1];
            && After(fs, init).Some? && e.target != []
            && |Marks(fs, init)| == |After(fs, init).value.created|
            && |Marks(fs, entries)| == |After(fs, entries).value.created|
            && (Marked(After(fs, entries).value.created, Marks(fs, entries), p) <==>
                || Marked(After(fs, init).value.created, Marks(fs, init), p)
                || (p in Missing(After(fs, init).value.fs, Parent(e.target)) && !Shielded(init, p)))
  {
    hide Missing, Step, Shielded;
    var init, e := entries[..|entries| - 1], entries[|entries| - 1];
    MarksFit(fs, init);
    MarksFit(fs, entries);
    StepTouches(After(fs, init).value, e, |init|);
    var more := Missing(After(fs, init).value.fs, Parent(e.target));
    MarkedConcat(After(fs, init).value.created, Marks(fs, init), more, MarksOf(init, more), p);
    if p in more && !Shielded(init, p) {
      var b :| 0 <= b < |more| && more[b] == p;
      assert MarksOf(init, more)[b];
    }
  }

  lemma {:induction false} DebrisIs(fs: Tree, entries: seq<Entry>, extra: Tree, p: Path)
    requires After(fs, entries).Some?
    ensures |Marks(fs, entries)| == |After(fs, entries).value.created|
    ensures At(Debris(fs, entries, extra), p) ==
            if p in extra && !Shielded(entries, p) then Some(extra[p])
            else if Marked(After(fs, entries).value.created, Marks(fs, entries), p) then Some(Dir) else None
    decreases |entries|
  {
    MarksFit(fs, entries);
    if entries != [] {
      hide Missing, Step, Shielded, Blocked, Marked, Debris, After, Marks;
      var init, e := entries[..|entries| - 1], entries[|entries| - 1];
      DebrisSnoc(fs, entries, extra);
      MarkedSnoc(fs, entries, p);
      ShieldedSnoc(entries, p);
      DebrisIs(fs, init, Dirs(Set(Missing(After(fs, init).value.fs, Parent(e.target)))) + Remove(extra, e.target), p);
    }
  }

  lemma {:induction false} AtUndoAll(fs: Tree, touched: seq<Touch>, entries: seq<Entry>, p: Path)
    requires Fits(touched, entries) && Unsaved(p) && !Shielded(entries, p)
    ensures At(UndoAll(fs, touched), p) == At(fs, p)
    decreases |touched|
  {
    if touched != [] {
      hide Undo, Unsaved, Shielded, BackupOf;
      var init, touch := touched[..|touched| - 1], touched[|touched| - 1];
      ShieldedSnoc(entries, p);
      assert FitsOne(touch, entries[|touched| - 1], |touched| - 1);
      AtUndo(fs, touch, |touched| - 1, p);
      AtUndoAll(Undo(fs, touch), init, entries[..|touched| - 1], p);
    }
  }

  lemma AtUndo(fs: Tree, touch: Touch, i: nat, p: Path)
    requires touch.target != [] && touch.backup in {None, Some(BackupOf(touch.target, i))}
    requires Unsaved(p) && !Under(p, touch.target)
    ensures At(Undo(fs, touch), p) == At(fs, p)
  {
    hide Move, Remove, BackupOf, Unsaved;
    AtRemove(fs, touch.target, p);
    if touch.backup.Some? {
      AtMove(Remove(fs, touch.target), touch.backup.value, touch.target, p);
      if Under(p, touch.backup.value) { SavedPath(touch.target, i, p); }
    }
  }

  /** Outside all targets touched so far the disk is the original and the marked directories. */
  lemma Region(fs: Tree, entries: seq<Entry>, p: Path)
    requires Disk(fs) && NotYet(fs, 0) && Manifest(entries) && After(fs, entries).Some?
    requires Unsaved(p) && !Shielded(entries, p)
    ensures |Marks(fs, entries)| == |After(fs, entries).value.created|
    ensures At(After(fs, entries).value.fs, p) ==
            if Marked(After(fs, entries).value.created, Marks(fs, entries), p) then Some(Dir) else At(fs, p)
  {
    hide Disk, NotYet, Manifest, After, Unsaved, Shielded, Marked, Debris, UndoAll, Fits, Marks;
    var after := After(fs, entries).value;
    AfterKeeps(fs, entries);
    AllUndone(fs, entries, map[]);
    assert after.fs + map[] == after.fs;
    AtUndoAll(after.fs, after.touched, entries, p);
    DebrisIs(fs, entries, map[], p);
  }

  lemma {:induction false} MarkedIsNew(fs: Tree, entries: seq<Entry>, p: Path)
    requires Disk(fs) && NotYet(fs, 0) && Manifest(entries) && After(fs, entries).Some?
    requires |Marks(fs, entries)| == |After(fs, entries).value.created|
    requires Marked(After(fs, entries).value.created, Marks(fs, entries), p)
    ensures p !in fs && Clean(p)
    decreases |entries|
  {
    hide Disk, NotYet, Missing, Step, Clean, Staged;
    if entries != [] {
      var init, e := entries[..|entries| - 1], entries[|entries| - 1];
      MarkedSnoc(fs, entries, p);
      ManifestSplit(entries);
      if Marked(After(fs, init).value.created, Marks(fs, init), p) {
        MarkedIsNew(fs, init, p);
      } else {
        AfterKeeps(fs, init);
        MissingIs(After(fs, init).value.fs, Parent(e.target), p);
        UnderParent(e.target, p);
        CleanPrefix(e.target, p);
        Region(fs, init, p);
      }
    }
  }

  /** A marked directory was made inside the original or inside an earlier marked one. */
  ghost predicate Ordered(fs: Tree, created: seq<Path>, marks: seq<bool>) {
    && |created| == |marks|
    && forall b, d | 0 <= b < |created| && marks[b] && Under(created[b], d) && d != created[b] && d !in fs ::
         Marked(created[..b], marks[..b], d)
  }

  lemma {:induction false} MissingOrdered(fs: Tree, p: Path, j: nat, d: Path)
    requires Disk(fs) && j < |Missing(fs, p)|
    requires Under(Missing(fs, p)[j], d) && d != Missing(fs, p)[j] && d !in fs
    ensures d in Missing(fs, p)[..j]
    decreases |p|
  {
    var up := Missing(fs, Parent(p));
    assert Missing(fs, p) == up + [p];
    if j < |up| {
      MissingOrdered(fs, Parent(p), j, d);
      assert Missing(fs, p)[..j] == up[..j];
    } else {
      assert Under(Parent(p), d);
      MissingIs(fs, Parent(p), d);
      assert Missing(fs, p)[..j] == up;
    }
  }

  lemma ShieldedBelow(entries: seq<Entry>, p: Path, q: Path)
    requires Under(p, q) && !Shielded(entries, p)
    ensures !Shielded(entries, q)
  {
    assert forall e | e in entries && Under(q, e.target) :: Under(p, e.target);
  }

  lemma NewOnesOrdered(fs: Tree, init: seq<Entry>, e: Entry, j: nat, d: Path)
    requires Disk(fs) && NotYet(fs, 0) && Manifest(init) && After(fs, init).Some? && Clean(e.target)
    requires j < |Missing(After(fs, init).value.fs, Parent(e.target))|
    requires var c := Missing(After(fs, init).value.fs, Parent(e.target))[j];
             !Shielded(init, c) && Under(c, d) && d != c && d !in fs
    ensures |Marks(fs, init)| == |After(fs, init).value.created|
    ensures var more := Missing(After(fs, init).value.fs, Parent(e.target));
            Marked(After(fs, init).value.created + more[..j], Marks(fs, init) + MarksOf(init, more)[..j], d)
  {
    hide Disk, NotYet, Manifest, After, Marks, Marked, Missing, Clean;
    MarksFit(fs, init);
    AfterKeeps(fs, init);
    var now := After(fs, init).value;
    var more := Missing(now.fs, Parent(e.target));
    var c := more[j];
    MissingIs(now.fs, Parent(e.target), c);
    UnderParent(e.target, c);
    CleanPrefix(e.target, c);
    CleanPrefix(c, d);
    ShieldedBelow(init, c, d);
    MarkedConcat(now.created, Marks(fs, init), more[..j], MarksOf(init, more)[..j], d);
    if d in now.fs {
      Region(fs, init, d);
    } else {
      MissingOrdered(now.fs, Parent(e.target), j, d);
      MarkedHere(init, more[..j], MarksOf(init, more)[..j], d);
    }
  }

  lemma MarkedHere(init: seq<Entry>, paths: seq<Path>, marks: seq<bool>, d: Path)
    requires d in paths && |marks| == |paths| && !Shielded(init, d)
    requires forall b | 0 <= b < |paths| :: marks[b] == !Shielded(init, paths[b])
    ensures Marked(paths, marks, d)
  {
    var b :| 0 <= b < |paths| && paths[b] == d;
    assert marks[b];
  }

  lemma {:induction false} MarkedOrdered(fs: Tree, entries: seq<Entry>)
    requires Disk(fs) && NotYet(fs, 0) && Manifest(entries) && After(fs, entries).Some?
    ensures Ordered(fs, After(fs, entries).value.created, Marks(fs, entries))
    decreases |entries|
  {
    if entries != [] {
      hide Disk, NotYet, Manifest, Step, Blocked, Missing, Marked, Shielded, Staged, Clean;
      var init, e := entries[..|entries| - 1], entries[|entries| - 1];
      ManifestSplit(entries);
      MarkedOrdered(fs, init);
      MarksFit(fs, entries);
      var now := After(fs, init).value;
      StepTouches(now, e, |init|);
      OrderedConcat(fs, init, e);
    }
  }

  lemma OrderedConcat(fs: Tree, init: seq<Entry>, e: Entry)
    requires Disk(fs) && NotYet(fs, 0) && Manifest(init) && After(fs, init).Some? && Clean(e.target)
    requires Ordered(fs, After(fs, init).value.created, Marks(fs, init))
    ensures var more := Missing(After(fs, init).value.fs, Parent(e.target));
            Ordered(fs, After(fs, init).value.created + more, Marks(fs, init) + MarksOf(init, more))
  {
    hide Disk, NotYet, Manifest, Missing, Marked, Shielded, Clean, After, Marks;
    var was, wasMarks := After(fs, init).value.created, Marks(fs, init);
    var more := Missing(After(fs, init).value.fs, Parent(e.target));
    var created, marks := was + more, wasMarks + MarksOf(init, more);
    forall b, d | 0 <= b < |created| && marks[b] && Under(created[b], d) && d != created[b] && d !in fs
      ensures Marked(created[..b], marks[..b], d)
    {
      if b < |was| {
        assert created[..b] == was[..b] && marks[..b] == wasMarks[..b];
      } else {
        var j := b - |was|;
        assert marks[b] == MarksOf(init, more)[j];
        NewOnesOrdered(fs, init, e, j, d);
        assert created[..b] == was + more[..j];
        assert marks[..b] == wasMarks + MarksOf(init, more)[..j];
      }
    }
  }

  // ---------- Removing the created directories ----------

  predicate Occupied(fs: Tree, p: Path) { exists q | q in fs :: Under(q, p) && q != p }

  /** parent.rmdir(), whose failure is ignored */
  function RmDir(fs: Tree, p: Path): Tree {
    if At(fs, p) == Some(Dir) && !Occupied(fs, p) then fs - {p} else fs
  }

  /** The rollback's second loop has come down to position m. */
  function Sweep(fs: Tree, created: seq<Path>, m: nat): Tree
    decreases |created| - m
  {
    if m >= |created| then fs else RmDir(Sweep(fs, created, m + 1), created[m])
  }

  lemma {:induction false} AtSweep(fs: Tree, created: seq<Path>, m: nat, p: Path)
    ensures || At(Sweep(fs, created, m), p) == At(fs, p)
            || (At(Sweep(fs, created, m), p) == None && At(fs, p) == Some(Dir) && p in created)
    decreases |created| - m
  {
    if m < |created| {
      hide Occupied;
      AtSweep(fs, created, m + 1, p);
    }
  }

  /** What leaves with a directory: all that was below it. */
  lemma {:induction false} SweptWithAllBelow(fs: Tree, created: seq<Path>, m: nat, p: Path, q: Path)
    requires p in fs && At(Sweep(fs, created, m), p) == None && Under(q, p)
    ensures At(Sweep(fs, created, m), q) == None
    decreases |created| - m
  {
    if m < |created| {
      var s := Sweep(fs, created, m + 1);
      if p !in s {
        SweptWithAllBelow(fs, created, m + 1, p, q);
      } else {
        assert !Occupied(s, p);
      }
    }
  }

  /** Something that no rmdir will touch keeps all directories above it. */
  lemma {:induction false} HeldStays(fs: Tree, created: seq<Path>, m: nat, p: Path, x: Path)
    requires p in fs && x in fs && x !in created && Under(x, p)
    ensures At(Sweep(fs, created, m), p) == At(fs, p)
    decreases |created| - m
  {
    if m < |created| {
      HeldStays(fs, created, m + 1, p, x);
      AtSweep(fs, created, m + 1, x);
      if created[m] == p {
        assert Occupied(Sweep(fs, created, m + 1), p);
      }
    }
  }

  lemma {:induction false} OriginalStays(fs: Tree, extra: Tree, created: seq<Path>, m: nat, p: Path)
    requires forall c | c in created && At(fs, c) == Some(Dir) :: Occupied(fs, c)
    requires p in fs && p !in extra
    requires forall q | q in fs :: q !in extra
    ensures At(Sweep(fs + extra, created, m), p) == At(fs, p)
    decreases |created| - m
  {
    if m < |created| {
      hide Sweep;
      SweepStep(fs + extra, created, m);
      OriginalStays(fs, extra, created, m + 1, p);
      if created[m] == p && At(fs, p) == Some(Dir) {
        var q :| q in fs && Under(q, p) && q != p;
        OriginalStays(fs, extra, created, m + 1, q);
        assert Occupied(Sweep(fs + extra, created, m + 1), p);
      }
    }
    assert m >= |created| ==> Sweep(fs + extra, created, m) == fs + extra;
  }

  lemma SweepStep(fs: Tree, created: seq<Path>, m: nat)
    requires m < |created|
    ensures Sweep(fs, created, m) == RmDir(Sweep(fs, created, m + 1), created[m])
  {
  }

  /** The disk after the first loop: the original, the marked directories, and `left`. */
  ghost predicate Wreck(fs: Tree, created: seq<Path>, marks: seq<bool>, left: Tree, now: Tree) {
    && Disk(fs) && Ordered(fs, created, marks)
    && (forall p | Marked(created, marks, p) :: p !in fs)
    && (forall p | p in left :: p !in fs && p !in created)
    && (forall p :: At(now, p) ==
          if p in left then Some(left[p]) else if Marked(created, marks, p) then Some(Dir) else At(fs, p))
  }

  predicate Held(left: Tree, p: Path) { exists x | x in left :: Under(x, p) }

  /** A marked directory with nothing to hold it is gone when the loop has passed its first mark. */
  lemma {:induction false} MarkedAreSwept(fs: Tree, created: seq<Path>, marks: seq<bool>, left: Tree, now: Tree,
          m: nat, p: Path)
    requires Wreck(fs, created, marks, left, now) && m <= |created|
    requires Marked(created, marks, p) && !Held(left, p) && p in Sweep(now, created, m)
    ensures Marked(created[..m], marks[..m], p)
    decreases |created| - m
  {
    if m == |created| {
      assert created[..m] == created && marks[..m] == marks;
    } else {
      hide Wreck, Marked, Held, Occupied;
      SweepStep(now, created, m);
      MarkedAreSwept(fs, created, marks, left, now, m + 1, p);
      MarkedSplit(created, marks, m, p);
      if !Marked(created[..m], marks[..m], p) {
        var q := WhatOccupies(fs, created, marks, left, now, m, p);
        MarkedAreSwept(fs, created, marks, left, now, m + 1, q);
        MarkedSplit(created, marks, m, q);
        ParentMarkedFirst(fs, created, marks, left, now, m, p, q);
      }
    }
  }

  lemma MarkedSplit(created: seq<Path>, marks: seq<bool>, m: nat, p: Path)
    requires |created| == |marks| && m < |created|
    ensures Marked(created[..m + 1], marks[..m + 1], p) <==>
            Marked(created[..m], marks[..m], p) || (marks[m] && created[m] == p)
  {
    if Marked(created[..m], marks[..m], p) {
      var b :| 0 <= b < m && marks[..m][b] && created[..m][b] == p;
      assert marks[..m + 1][b] && created[..m + 1][b] == p;
    }
    if marks[m] && created[m] == p { assert marks[..m + 1][m] && created[..m + 1][m] == p; }
  }

  lemma ParentMarkedFirst(fs: Tree, created: seq<Path>, marks: seq<bool>, left: Tree, now: Tree, m: nat, p: Path,
          q: Path)
    requires Wreck(fs, created, marks, left, now) && m < |created| && p !in fs
    requires Marked(created[..m], marks[..m], q) && Under(q, p) && q != p
    ensures Marked(created[..m], marks[..m], p)
  {
    var b :| 0 <= b < m && marks[..m][b] && created[..m][b] == q;
    assert Marked(created[..b], marks[..b], p);
    var a :| 0 <= a < b && marks[..b][a] && created[..b][a] == p;
    assert marks[..m][a] && created[..m][a] == p;
  }

  lemma WhatOccupies(fs: Tree, created: seq<Path>, marks: seq<bool>, left: Tree, now: Tree, m: nat,
          p: Path) returns (q: Path)
    requires Wreck(fs, created, marks, left, now) && m < |created| && created[m] == p
    requires Marked(created, marks, p) && !Held(left, p)
    requires p in RmDir(Sweep(now, created, m + 1), p)
    ensures q in Sweep(now, created, m + 1) && Under(q, p) && q != p && p !in fs
    ensures Marked(created, marks, q) && !Held(left, q)
  {
    hide Marked;
    var s := Sweep(now, created, m + 1);
    AtSweep(now, created, m + 1, p);
    assert At(now, p) == Some(Dir);
    q :| q in s && Under(q, p) && q != p;
    AtSweep(now, created, m + 1, q);
    assert q !in fs;
    assert q in now;
    assert q in left ==> Held(left, p);
    assert forall x | x in left && Under(x, q) :: Under(x, p);
  }

  /** The loop removes the directory at one of the positions from m on: nothing is left below it, and the loop has
      by then cleared away every marked directory below it. */
  ghost predicate Cleared(created: seq<Path>, marks: seq<bool>, left: Tree, m: nat, p: Path)
    requires |created| == |marks|
    decreases |created| - m
  {
    !Held(left, p) && exists j :: m <= j < |created| && ClearedAt(created, marks, left, j, p)
  }

  ghost predicate ClearedAt(created: seq<Path>, marks: seq<bool>, left: Tree, j: nat, p: Path)
    requires |created| == |marks| && j < |created|
    decreases |created| - j, 0
  {
    created[j] == p && forall q | Marked(created, marks, q) && Under(q, p) && q != p :: Cleared(created, marks, left, j + 1, q)
  }

  lemma ClearedStep(created: seq<Path>, marks: seq<bool>, left: Tree, m: nat, p: Path)
    requires |created| == |marks| && m < |created| && !Held(left, p)
    ensures Cleared(created, marks, left, m, p) <==>
            Cleared(created, marks, left, m + 1, p) || ClearedAt(created, marks, left, m, p)
  {
    hide ClearedAt;
  }

  /** A directory that holds no original is gone behind the loop's position if and only if it has been cleared. */
  lemma {:induction false} SweptExactly(fs: Tree, created: seq<Path>, marks: seq<bool>, left: Tree, now: Tree, m: nat,
          p: Path)
    requires Wreck(fs, created, marks, left, now) && m <= |created|
    requires At(now, p) == Some(Dir) && p !in left && !Occupied(fs, p)
    ensures p !in Sweep(now, created, m) <==> Cleared(created, marks, left, m, p)
    decreases |created| - m
  {
    if Held(left, p) {
      var x :| x in left && Under(x, p);
      assert At(now, x) == Some(left[x]);
      HeldStays(now, created, m, p, x);
    } else if m < |created| {
      AtSweep(now, created, m + 1, p);
      SweepStep(now, created, m);
      SweptExactly(fs, created, marks, left, now, m + 1, p);
      ClearedStep(created, marks, left, m, p);
      if created[m] == p { OccupiedExactly(fs, created, marks, left, now, m, p); }
      hide Wreck, Cleared, ClearedAt, Sweep, Occupied;
      RemovedHere(Sweep(now, created, m + 1), created[m], p);
    } else {
      assert Sweep(now, created, m) == now;
      assert !Cleared(created, marks, left, m, p);
    }
  }

  lemma RemovedHere(fs: Tree, c: Path, p: Path)
    requires p in fs ==> At(fs, p) == Some(Dir)
    ensures p !in RmDir(fs, c) <==> p !in fs || (c == p && !Occupied(fs, p))
  {
  }

  lemma OccupiedExactly(fs: Tree, created: seq<Path>, marks: seq<bool>, left: Tree, now: Tree, m: nat, p: Path)
    requires Wreck(fs, created, marks, left, now) && m < |created| && created[m] == p
    requires At(now, p) == Some(Dir) && p !in left && !Occupied(fs, p) && !Held(left, p)
    ensures Occupied(Sweep(now, created, m + 1), p) <==> !ClearedAt(created, marks, left, m, p)
    decreases |created| - m, 0
  {
    var s := Sweep(now, created, m + 1);
    forall q | Under(q, p) && q != p
      ensures q in s <==> Marked(created, marks, q) && !Cleared(created, marks, left, m + 1, q)
    {
      AtSweep(now, created, m + 1, q);
      assert q !in left;
      assert q !in fs;
      if Marked(created, marks, q) {
        assert !Occupied(fs, q);
        SweptExactly(fs, created, marks, left, now, m + 1, q);
      }
    }
  }
}
