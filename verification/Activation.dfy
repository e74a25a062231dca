/**
 Install activation with rollback (scripts/activate-major-user-state.py): the installer working in
 place, and what becomes of the disk whether it succeeds or is struck by a fault.
 */
module Activation {
  import opened Wrappers
  import opened InstallTrees
  import opened InstallRun
  import opened InstallRollback
  import opened InstallSweep
  import opened InstallSuccess

  // ---------- The installer ----------

  /** The fault strikes in the turn of an entry, or after all of them. */
  datatype Fault = Fault(entry: nat, stage: Stage)

  /** How far the run gets: all entries done, or the state at the fault. */
  datatype Progress = Going(state: State) | Struck(state: State)

  function Run(fs: Tree, entries: seq<Entry>, fault: Option<Fault>): Progress {
    if entries == [] then Going(State(fs, [], [], {}))
    else
      var init, e := entries[..|entries| - 1], entries[|entries| - 1];
      var before := Run(fs, init, fault);
      if before.Struck? then before
      else if fault.Some? && fault.value.entry == |init| then
        Struck(Crash(before.state, e, |init|, fault.value.stage))
      else if Blocked(before.state.fs, e.target) then Struck(before.state)
      else Going(Step(before.state, e, |init|))
  }

  /** The disk after activate, and whether it succeeded. */
  function Activated(fs: Tree, entries: seq<Entry>, fault: Option<Fault>): (Tree, bool) {
    var run := Run(fs, entries, fault);
    if run.Struck? || (fault.Some? && fault.value.entry == |entries|) then (Rollback(run.state), false)
    else (Commit(run.state.fs, run.state.touched), true)
  }

  lemma {:induction false} GoingIsAfter(fs: Tree, entries: seq<Entry>, fault: Option<Fault>)
    ensures Run(fs, entries, fault).Going? ==> After(fs, entries) == Some(Run(fs, entries, fault).state)
    ensures (fault.None? || fault.value.entry >= |entries|) ==>
              (Run(fs, entries, fault).Going? <==> After(fs, entries).Some?)
    decreases |entries|
  {
    hide Step, Crash, Blocked;
    if entries != [] {
      var init, e := entries[..|entries| - 1], entries[|entries| - 1];
      GoingIsAfter(fs, init, fault);
      var before := Run(fs, init, fault);
      if before.Going? && (fault.None? || fault.value.entry != |init|) && !Blocked(before.state.fs, e.target) {
        NotRoot(before.state.fs, e.target);
        assert Run(fs, entries, fault) == Going(Step(before.state, e, |init|));
        assert After(fs, entries) == Some(Step(before.state, e, |init|));
      }
    }
  }

  /** A run that is struck stands at a crash in the turn of one of its entries. */
  lemma {:induction false} StruckAtEntry(fs: Tree, entries: seq<Entry>, fault: Option<Fault>) returns (k: nat,
          stage: Stage)
    requires Run(fs, entries, fault).Struck?
    ensures k < |entries| && After(fs, entries[..k]).Some?
    ensures Run(fs, entries, fault).state == Crash(After(fs, entries[..k]).value, entries[k], k, stage)
    ensures stage == Untouched || fault == Some(Fault(k, stage))
    decreases |entries|
  {
    hide Step, Crash, Blocked;
    var n := |entries| - 1;
    var init := entries[..n];
    if Run(fs, init, fault).Struck? {
      k, stage := StruckAtEntry(fs, init, fault);
      assert init[..k] == entries[..k];
    } else {
      GoingIsAfter(fs, init, fault);
      k, stage := n, if fault.Some? && fault.value.entry == n then fault.value.stage else Untouched;
      assert Crash(After(fs, init).value, entries[n], n, Untouched) == After(fs, init).value by {
        UntouchedIsNoChange(After(fs, init).value, entries[n], n);
      }
    }
  }

  lemma UntouchedIsNoChange(s: State, e: Entry, i: nat)
    ensures Crash(s, e, i, Untouched) == s
  {
  }

  lemma TempIsNew(g: Tree, target: Path, i: nat, p: Path)
    requires target != [] && NotYet(g, i) && Under(p, TempOf(target, i))
    ensures p !in g && !Under(p, BackupOf(target, i))
  {
    assert TempOf(target, i)[|target| - 1] in p;
    assert TempOf(target, i)[|target| - 1] == p[|target| - 1] != BackupOf(target, i)[|target| - 1];
  }

  /** Copying to a temporary path and renaming is the same as putting the source in place. */
  lemma CopyAndRename(g: Tree, target: Path, i: nat, source: Tree)
    requires Closed(g) && NotYet(g, i) && target != [] && Clean(target)
    ensures var aside, t := Aside(g, TouchOf(g, target, i)), TempOf(target, i);
            Move(Graft(aside, t, source), t, target) == Graft(aside, target, source)
  {
    hide Move, Remove, Graft, BackupOf, TempOf, NotYet, Closed, Aside;
    var aside, t := Aside(g, TouchOf(g, target, i)), TempOf(target, i);
    var copied := Graft(aside, t, source);
    BackupLength(target, i);
    Apart(target, i);
    forall p ensures At(Move(copied, t, target), p) == At(Graft(aside, target, source), p) {
      AtStep(g, target, i, None, p);
      AtGraft(aside, t, source, p);
      AtGraft(aside, target, source, p);
      AtRemove(copied, t, p);
      if Under(p, target) && Under(p, t) { Comparable(p, t, target); }
      AtMove(copied, t, target, p);
      if Under(p, target) {
        var q := t + p[|target|..];
        Joined(t, p[|target|..]);
        AtGraft(aside, t, source, q);
        TempIsNew(g, target, i, q);
        if Under(q, target) { Comparable(q, t, target); }
        AtStep(g, target, i, None, q);
      } else if Under(p, t) {
        TempIsNew(g, target, i, p);
      }
    }
    SameTrees(Move(copied, t, target), Graft(aside, target, source));
  }

  /** The installer at work on the disk (activate and its local lists). */
  class Installer {
    var fs: Tree
    var touched: seq<Touch>
    var created: seq<Path>
    var temporaries: set<Path>

    constructor (disk: Tree)
      ensures Now() == State(disk, [], [], {})
    {
      fs, touched, created, temporaries := disk, [], [], {};
    }

    ghost function Now(): State
      reads this
    {
      State(fs, touched, created, temporaries)
    }

    /** Makes the parents one by one, topmost first, up to `limit` of them. */
    method MakeParents(missing: seq<Path>, limit: nat)
      modifies this`fs
      ensures fs == old(fs) + Dirs(Set(missing[..if limit < |missing| then limit else |missing|]))
    {
      var n := if limit < |missing| then limit else |missing|;
      assert fs == old(fs) + Dirs(Set(missing[..0]));
      for i := 0 to n
        invariant fs == old(fs) + Dirs(Set(missing[..i]))
      {
        fs := fs[missing[i] := Dir];
        assert Set(missing[..i + 1]) == Set(missing[..i]) + {missing[i]};
      }
    }

    /** One entry up to the point where the target is out of the way. */
    method MoveAside(target: Path, i: nat)
      requires target != []
      modifies this`fs, this`touched
      ensures fs == Aside(old(fs), TouchOf(old(fs), target, i))
      ensures touched == old(touched) + [TouchOf(old(fs), target, i)]
    {
      var backup: Option<Path> := None;
      if target in fs {
        backup := Some(BackupOf(target, i));
        fs := Move(fs, target, backup.value);
      }
      touched := touched + [Touch(target, backup)];
    }

    /** Installs one entry; a fault leaves the state of the crash. */
    method InstallEntry(e: Entry, i: nat, stage: Option<Stage>) returns (ok: bool)
      requires Disk(fs) && NotYet(fs, i) && Clean(e.target) && temporaries == {}
      modifies this
      ensures ok <==> stage.None? && !Blocked(old(fs), e.target)
      ensures ok ==> Now() == Step(old(Now()), e, i)
      ensures !ok ==> Now() == if stage.Some? then Crash(old(Now()), e, i, stage.value) else old(Now())
    {
      hide Blocked, Missing, Graft, Aside, Move, Disk, NotYet, Clean, TempOf;
      if stage == Some(Untouched) || Blocked(fs, e.target) { return false; }
      NotRoot(fs, e.target);
      var missing := Missing(fs, Parent(e.target));
      if stage.Some? && stage.value.Making? {
        MakeParents(missing, stage.value.made);
        return false;
      }
      MadeIsDisk(fs, e.target);
      MadeNotYet(fs, e.target, i);
      DiskClosed(Made(fs, e.target));
      MakeParents(missing, |missing|);
      assert missing[..|missing|] == missing;
      created := created + missing;
      if stage == Some(MadeParents) { return false; }
      ghost var g := fs;
      MoveAside(e.target, i);
      if stage == Some(SetAside) { return false; }
      if e.source.Some? {
        var temporary := TempOf(e.target, i);
        temporaries := temporaries + {temporary};
        if stage.Some? {
          fs := Graft(fs, temporary, stage.value.partial);
          return false;
        }
        CopyAndRename(g, e.target, i, e.source.value);
        fs := Graft(fs, temporary, e.source.value);
        fs := Move(fs, temporary, e.target);
        temporaries := temporaries - {temporary};
      }
      return stage.None?;
    }

    method UndoTargets()
      modifies this`fs
      ensures fs == UndoAll(old(fs), touched)
    {
      hide Move, Remove;
      var k := |touched|;
      assert touched[..k] == touched;
      while k > 0
        invariant 0 <= k <= |touched|
        invariant UndoAll(fs, touched[..k]) == UndoAll(old(fs), touched)
      {
        k := k - 1;
        assert touched[..k + 1][..k] == touched[..k];
        var touch := touched[k];
        fs := Remove(fs, touch.target);
        if touch.backup.Some? && touch.backup.value in fs {
          fs := Move(fs, touch.backup.value, touch.target);
        }
      }
    }

    method RemoveCreated()
      modifies this`fs
      ensures fs == Sweep(old(fs), created, 0)
    {
      hide RmDir;
      var m := |created|;
      while m > 0
        invariant 0 <= m <= |created|
        invariant fs == Sweep(old(fs), created, m)
      {
        m := m - 1;
        fs := RmDir(fs, created[m]);
      }
    }

    method RemoveTemporaries()
      modifies this`fs
      ensures fs == Without(old(fs), temporaries)
    {
      var todo := temporaries;
      assert Without(old(fs), {}) == old(fs);
      while todo != {}
        invariant todo <= temporaries
        invariant fs == Without(old(fs), temporaries - todo)
        decreases |todo|
      {
        hide Without, Remove;
        var temporary :| temporary in todo;
        WithoutOneMore(old(fs), temporaries - todo, temporary);
        todo := todo - {temporary};
        assert temporaries - todo == (temporaries - (todo + {temporary})) + {temporary};
        fs := Remove(fs, temporary);
      }
      assert temporaries - {} == temporaries;
    }

    /** Targets in reverse, then the created directories in reverse, then the temporary copies. */
    method RollBack()
      modifies this`fs
      ensures fs == Rollback(old(Now()))
    {
      UndoTargets();
      RemoveCreated();
      RemoveTemporaries();
    }

    /** Removes the backups of a run that has succeeded. */
    method RemoveBackups()
      modifies this`fs
      ensures fs == Commit(old(fs), touched)
    {
      assert touched[..|touched|] == touched;
      for k := 0 to |touched|
        invariant fs == Commit(old(fs), touched[..k])
      {
        assert touched[..k + 1][..k] == touched[..k];
        if touched[k].backup.Some? { fs := Remove(fs, touched[k].backup.value); }
      }
    }

    method Activate(entries: seq<Entry>, fault: Option<Fault>) returns (ok: bool)
      requires Now() == State(fs, [], [], {}) && Disk(fs) && NotYet(fs, 0) && Manifest(entries)
      modifies this
      ensures (fs, ok) == Activated(old(fs), entries, fault)
    {
      hide Disk, NotYet, Manifest, Clean, Staged, Step, Crash, Blocked, Rollback, Commit, Fits;
      ok := true;
      var i := 0;
      assert entries[..0] == [];
      while i < |entries| && ok
        invariant i <= |entries|
        invariant ok ==> Run(old(fs), entries[..i], fault) == Going(Now())
        invariant !ok ==> Run(old(fs), entries, fault) == Struck(Now())
        decreases |entries| - i, ok
      {
        GoingIsAfter(old(fs), entries[..i], fault);
        ManifestPrefix(entries, i);
        AfterKeeps(old(fs), entries[..i]);
        NoTemporaries(old(fs), entries[..i]);
        assert entries[..i + 1][..i] == entries[..i];
        ok := InstallEntry(entries[i], i, if fault.Some? && fault.value.entry == i then Some(fault.value.stage) else None);
        if ok { i := i + 1; } else { StruckStays(old(fs), entries, i + 1, fault); }
      }
      assert entries[..|entries|] == entries;
      if !ok || (fault.Some? && fault.value.entry == |entries|) {
        ok := false;
        RollBack();
      } else {
        RemoveBackups();
      }
    }
  }

  lemma WithoutOneMore(fs: Tree, roots: set<Path>, root: Path)
    ensures Without(fs, roots + {root}) == Remove(Without(fs, roots), root)
  {
  }

  lemma ManifestPrefix(entries: seq<Entry>, i: nat)
    requires Manifest(entries) && i < |entries|
    ensures Manifest(entries[..i]) && Clean(entries[i].target)
  {
    hide Staged, Clean;
    assert entries[i] in entries;
  }

  lemma {:induction false} StruckStays(fs: Tree, entries: seq<Entry>, n: nat, fault: Option<Fault>)
    requires n <= |entries| && Run(fs, entries[..n], fault).Struck?
    ensures Run(fs, entries, fault) == Run(fs, entries[..n], fault)
    decreases |entries|
  {
    hide Step, Crash, Blocked;
    if n == |entries| {
      assert entries[..n] == entries;
    } else {
      var init := entries[..|entries| - 1];
      assert init[..n] == entries[..n];
      StruckStays(fs, init, n, fault);
    }
  }

  /** The fault, if there is one, leaves nothing in the temporary copy that the source does not have. */
  ghost predicate Feasible(entries: seq<Entry>, fault: Option<Fault>) {
    fault.Some? && fault.value.entry < |entries| ==> Possible(entries[fault.value.entry], fault.value.stage)
  }

  const NO_ENTRY := Entry([], None)

  /** A fault in the turn of an entry, or after all of them. */
  ghost predicate TurnOf(entries: seq<Entry>, init: seq<Entry>, e: Entry, stage: Stage) {
    && |init| <= |entries| && init == entries[..|init|]
    && if |init| < |entries| then e == entries[|init|] else e == NO_ENTRY && stage == Untouched
  }

  lemma TurnSetting(fs: Tree, entries: seq<Entry>, init: seq<Entry>, e: Entry, stage: Stage)
    requires Disk(fs) && NotYet(fs, 0) && Manifest(entries)
    requires TurnOf(entries, init, e, stage) && After(fs, init).Some?
    ensures Setting(fs, init, e)
  {
    hide Disk, NotYet, After, Clean, Staged;
    forall x | x in init + [e] ensures Clean(x.target) && (x.source.Some? ==> Staged(x.source.value)) {
      assert x in entries || x == NO_ENTRY;
      assert Clean(NO_ENTRY.target) by { EmptyIsClean(); }
    }
  }

  lemma EmptyIsClean()
    ensures Clean([])
  {
  }

  /** Main theorem: activation either succeeds with exactly what the manifest means, or it ends with the
      rollback of a crash in the turn of some entry. */
  lemma ActivationOutcome(fs: Tree, entries: seq<Entry>, fault: Option<Fault>)
      returns (init: seq<Entry>, e: Entry, stage: Stage)
    requires Disk(fs) && NotYet(fs, 0) && Manifest(entries) && Feasible(entries, fault)
    ensures Activated(fs, entries, fault).1 ==> Installed(fs, entries) == Some(Activated(fs, entries, fault).0)
    ensures !Activated(fs, entries, fault).1 ==>
              && TurnOf(entries, init, e, stage) && Setting(fs, init, e) && Possible(e, stage)
              && Activated(fs, entries, fault).0 == Rollback(Crash(After(fs, init).value, e, |init|, stage))
  {
    hide Disk, NotYet, Manifest, Setting, Possible, Rollback, Commit, Crash, After, Run;
    init, e, stage := entries, NO_ENTRY, Untouched;
    GoingIsAfter(fs, entries, fault);
    var run := Run(fs, entries, fault);
    if run.Struck? {
      var k: nat;
      k, stage := StruckAtEntry(fs, entries, fault);
      init, e := entries[..k], entries[k];
      TurnSetting(fs, entries, init, e, stage);
      UntouchedIsPossible(e);
    } else if fault.Some? && fault.value.entry == |entries| {
      assert entries[..|entries|] == entries;
      TurnSetting(fs, entries, init, e, stage);
      UntouchedIsNoChange(run.state, e, |init|);
      UntouchedIsPossible(e);
    } else {
      CommitLeavesInstalled(fs, entries);
    }
  }

  lemma UntouchedIsPossible(e: Entry)
    ensures Possible(e, Untouched)
  {
  }

  /** No backup and no temporary copy is on the disk after a failed activation. */
  lemma NoBackupsOrTemporariesLeft(fs: Tree, entries: seq<Entry>, fault: Option<Fault>, p: Path)
    requires Disk(fs) && NotYet(fs, 0) && Manifest(entries) && Feasible(entries, fault)
    requires !Activated(fs, entries, fault).1 && p in Activated(fs, entries, fault).0
    ensures Clean(p)
  {
    var init, e, stage := ActivationOutcome(fs, entries, fault);
    SettingParts(fs, init, e);
    hide Disk, Manifest, Setting, Possible, Rollback, Commit, Crash, After, Activated, LeftOver, Left, Clean, NotYet;
    if p in fs {
      CleanOnDisk(fs, p);
    } else {
      RollbackRestores(fs, init, e, stage, p);
      LeftOverIsClean(fs, init, e, stage, p);
    }
  }

  lemma LeftOverIsClean(fs: Tree, init: seq<Entry>, e: Entry, stage: Stage, p: Path)
    requires Setting(fs, init, e)
    requires LeftOver(Left(init, After(fs, init).value, e, stage),
                      Crash(After(fs, init).value, e, |init|, stage).temporaries, p)
    ensures Clean(p)
  {
    SettingParts(fs, init, e);
    hide After, Setting, NotYet, Manifest, Fits, Ordered, Step, Shielded, TempOf, Blocked, Left, Crash, Missing, Marks,
         Clean;
    var s := After(fs, init).value;
    var x :| x in Left(init, s, e, stage) && Under(x, p);
    LeftParts(init, s, e, stage, x);
    if stage.Making? {
      MissingIs(s.fs, Parent(e.target), x);
      UnderParent(e.target, x);
    } else {
      var t := TempOf(e.target, |init|);
      CopyingCrash(init, s, e, stage, x);
      BackupBeside(e.target, |init|);
      if |p| >= |t| { Comparable(x, t, p); }
      StrictlyAbove(x, t, p);
      UnderParent(e.target, p);
    }
    CleanPrefix(e.target, p);
  }

  /** Hence, with targets that are not nested, a failed activation loses nothing, and all that it may add
      are directories. */
  lemma FlatFailureLosesNothing(fs: Tree, entries: seq<Entry>, fault: Option<Fault>, p: Path)
    requires Disk(fs) && NotYet(fs, 0) && Manifest(entries) && Feasible(entries, fault) && Flat(entries)
    requires !Activated(fs, entries, fault).1
    ensures p in fs ==> At(Activated(fs, entries, fault).0, p) == At(fs, p)
    ensures p !in fs ==> At(Activated(fs, entries, fault).0, p) in {None, Some(Dir)}
  {
    var init, e, stage := ActivationOutcome(fs, entries, fault);
    SettingParts(fs, init, e);
    hide Disk, NotYet, Manifest, Setting, Possible, Rollback, Commit, Crash, After, Activated, LeftOver, Left;
    RollbackRestores(fs, init, e, stage, p);
    var crash := Crash(After(fs, init).value, e, |init|, stage);
    forall c | c in crash.created ensures c !in fs { TurnCreatesNew(fs, entries, init, e, stage, c); }
    if p in fs { OriginalsStay(fs, init, e, stage, p); }
  }

  lemma TurnCreatesNew(fs: Tree, entries: seq<Entry>, init: seq<Entry>, e: Entry, stage: Stage, c: Path)
    requires Flat(entries) && TurnOf(entries, init, e, stage) && Setting(fs, init, e)
    requires c in Crash(After(fs, init).value, e, |init|, stage).created
    ensures c !in fs
  {
    hide Setting, After;
    SettingParts(fs, init, e);
    if |init| < |entries| {
      assert Flat(init + [e]) by {
        assert init + [e] == entries[..|init| + 1];
        assert forall i | 0 <= i <= |init| :: (init + [e])[i] == entries[i];
      }
      CrashCreates(fs, init, e, stage, c);
    } else {
      assert init == entries;
      UntouchedIsNoChange(After(fs, init).value, e, |init|);
      FlatCreatesNew(fs, init, c);
    }
  }

  /** The fault comes in the turn of an entry that is reached, at one of the two moments that leave directories. */
  ghost predicate LeavesSomething(fs: Tree, entries: seq<Entry>, fault: Option<Fault>) {
    && fault.Some? && fault.value.entry < |entries|
    && var k := fault.value.entry;
       After(fs, entries[..k]).Some?
       && LeavesDirectories(fs, After(fs, entries[..k]).value.fs, entries[k], fault.value.stage)
  }

  /** A run that is struck has come to the entry of the fault, or to one that is blocked. */
  lemma {:induction false} StruckWhere(fs: Tree, entries: seq<Entry>, fault: Option<Fault>)
    requires fault.Some? && fault.value.entry < |entries| && After(fs, entries[..fault.value.entry]).Some?
    ensures Run(fs, entries, fault) ==
            Struck(Crash(After(fs, entries[..fault.value.entry]).value, entries[fault.value.entry], fault.value.entry,
                         fault.value.stage))
    decreases |entries|
  {
    hide Step, Crash, Blocked;
    var k, init := fault.value.entry, entries[..|entries| - 1];
    if k < |init| {
      assert init[..k] == entries[..k];
      StruckWhere(fs, init, fault);
    } else {
      assert init == entries[..k];
      GoingIsAfter(fs, init, fault);
    }
  }

  lemma NestedFlat(entries: seq<Entry>, k: nat)
    requires Flat(entries) && k < |entries|
    ensures Flat(entries[..k] + [entries[k]])
  {
    assert entries[..k] + [entries[k]] == entries[..k + 1];
  }

  /** Main theorem: with targets that are not nested, a failed activation leaves the disk as it was if and only if
      the fault did not come while parents were being made, or while a copy was in progress below a parent that
      had to be made. */
  lemma FlatFailureRestoresExactly(fs: Tree, entries: seq<Entry>, fault: Option<Fault>)
    requires Disk(fs) && NotYet(fs, 0) && Manifest(entries) && Feasible(entries, fault) && Flat(entries)
    requires !Activated(fs, entries, fault).1
    ensures Activated(fs, entries, fault).0 == fs <==> !LeavesSomething(fs, entries, fault)
  {
    hide Disk, NotYet, Manifest, Setting, Possible, Rollback, Commit, Crash, After, Run, Flat, LeavesDirectories;
    var run := Run(fs, entries, fault);
    GoingIsAfter(fs, entries, fault);
    if run.Struck? {
      var k, stage := StruckAtEntry(fs, entries, fault);
      TurnSetting(fs, entries, entries[..k], entries[k], stage);
      UntouchedIsPossible(entries[k]);
      NestedFlat(entries, k);
      FlatRollbackExactly(fs, entries[..k], entries[k], stage);
      UntouchedLeavesNothing(fs, After(fs, entries[..k]).value.fs, entries[k]);
      if fault.Some? && fault.value.entry < |entries| && After(fs, entries[..fault.value.entry]).Some? {
        StruckAtFault(fs, entries, fault);
      }
    } else {
      assert entries[..|entries|] == entries;
      TurnSetting(fs, entries, entries, NO_ENTRY, Untouched);
      RestoredBehindLast(fs, entries);
      UntouchedIsNoChange(run.state, NO_ENTRY, |entries|);
      if LeavesSomething(fs, entries, fault) { StruckWhere(fs, entries, fault); }
    }
  }

  lemma UntouchedLeavesNothing(fs: Tree, now: Tree, e: Entry)
    ensures !LeavesDirectories(fs, now, e, Untouched)
  {
  }

  lemma StruckAtFault(fs: Tree, entries: seq<Entry>, fault: Option<Fault>)
    requires Disk(fs) && NotYet(fs, 0) && Manifest(entries) && Feasible(entries, fault) && Flat(entries)
    requires fault.Some? && fault.value.entry < |entries| && After(fs, entries[..fault.value.entry]).Some?
    ensures Rollback(Run(fs, entries, fault).state) == fs <==> !LeavesSomething(fs, entries, fault)
  {
    hide Disk, NotYet, Manifest, Setting, Possible, Rollback, Crash, After, Run, Flat, LeavesDirectories;
    var k, stage := fault.value.entry, fault.value.stage;
    StruckWhere(fs, entries, fault);
    TurnSetting(fs, entries, entries[..k], entries[k], stage);
    NestedFlat(entries, k);
    FlatRollbackExactly(fs, entries[..k], entries[k], stage);
  }

  /** A fault behind all entries is undone completely. */
  lemma RestoredBehindLast(fs: Tree, entries: seq<Entry>)
    requires Setting(fs, entries, NO_ENTRY) && Flat(entries)
    ensures Rollback(Crash(After(fs, entries).value, NO_ENTRY, |entries|, Untouched)) == fs
  {
    SettingParts(fs, entries, NO_ENTRY);
    var crash := Crash(After(fs, entries).value, NO_ENTRY, |entries|, Untouched);
    UntouchedIsNoChange(After(fs, entries).value, NO_ENTRY, |entries|);
    UntouchedIsPossible(NO_ENTRY);
    hide Disk, NotYet, Manifest, Setting, Possible, Rollback, Crash, After, Flat, LeftOver, Left;
    forall c | c in crash.created ensures c !in fs { FlatCreatesNew(fs, entries, c); }
    RestoredExactly(fs, entries, NO_ENTRY, Untouched);
    NewOnesLoseNothing(fs, crash.created, CrashMarks(fs, entries, NO_ENTRY, Untouched),
                       Left(entries, After(fs, entries).value, NO_ENTRY, Untouched));
    UntouchedLeavesNothing(fs, After(fs, entries).value.fs, NO_ENTRY);
    forall p | p !in fs ensures !LeftOver(Left(entries, After(fs, entries).value, NO_ENTRY, Untouched), crash.temporaries, p) {
      NothingLeft(fs, entries, NO_ENTRY, Untouched, p);
    }
  }

  // ---------- When it succeeds, and what a fault leaves ----------

  /** The parents of a target can be made if and only if whatever stands above it is a directory. */
  lemma {:induction false} BlockedExactly(fs: Tree, target: Path)
    requires Disk(fs)
    ensures Blocked(fs, target) <==> target == [] || exists q | q in fs && q != target && Under(target, q) :: fs[q] != Dir
  {
    if target != [] {
      var anchor := Anchor(fs, Parent(target));
      AnchorIs(fs, Parent(target));
      hide Anchor;
      if q :| q in fs && q != target && Under(target, q) && fs[q] != Dir {
        UnderParentOf(target, q);
        FileAbove(fs, anchor, q, Parent(target));
      }
      if At(fs, anchor) != Some(Dir) { AboveTarget(target, anchor); }
    }
  }

  lemma UnderParentOf(target: Path, q: Path)
    requires target != [] && q != target && Under(target, q)
    ensures Under(Parent(target), q)
  {
    assert Parent(target)[..|q|] == target[..|q|];
  }

  lemma AboveTarget(target: Path, q: Path)
    requires target != [] && Under(Parent(target), q)
    ensures q != target && Under(target, q)
  {
    assert target[..|q|] == Parent(target)[..|q|];
  }

  /** Nothing stands below a file. */
  lemma FileAbove(fs: Tree, anchor: Path, q: Path, parent: Path)
    requires Disk(fs) && q in fs && fs[q] != Dir && Under(parent, q) && Under(parent, anchor)
    requires anchor in fs && forall r | Under(parent, r) && Under(r, anchor) && r != anchor :: r !in fs
    ensures anchor == q
  {
    Comparable(parent, anchor, q);
  }

  /** Main theorem: an activation succeeds if and only if the manifest can be installed and no fault strikes in the turn
      of an entry or behind the last one. */
  lemma ActivationSucceedsExactly(fs: Tree, entries: seq<Entry>, fault: Option<Fault>)
    requires Disk(fs) && NotYet(fs, 0) && Manifest(entries)
    ensures Activated(fs, entries, fault).1 <==>
              Installed(fs, entries).Some? && (fault.None? || fault.value.entry > |entries|)
  {
    hide Disk, NotYet, Manifest, Run, Rollback, Commit;
    GoingIsAfter(fs, entries, fault);
    RunIsInstall(fs, entries);
    if fault.Some? && fault.value.entry < |entries| && Run(fs, entries, fault).Going? { FaultStrikes(fs, entries, fault); }
  }

  lemma {:induction false} FaultStrikes(fs: Tree, entries: seq<Entry>, fault: Option<Fault>)
    requires fault.Some? && fault.value.entry < |entries|
    ensures Run(fs, entries, fault).Struck?
    decreases |entries|
  {
    hide Step, Crash, Blocked;
    var init := entries[..|entries| - 1];
    if fault.value.entry < |init| { FaultStrikes(fs, init, fault); }
  }

  /** What a fault leaves: nothing new before the turn has begun; the first of the parents while they are made; then all
      of them, and recorded. */
  lemma FaultAmongParents(s: State, e: Entry, i: nat, stage: Stage, p: Path)
    requires !Blocked(s.fs, e.target) && (stage.Untouched? || stage.Making? || stage.MadeParents?)
    ensures var r, missing := Crash(s, e, i, stage), Missing(s.fs, Parent(e.target));
            && (stage.Untouched? ==> r == s)
            && (stage.Making? ==>
                  && r == s.(fs := r.fs)
                  && At(r.fs, p) == if p in missing[..if stage.made < |missing| then stage.made else |missing|] then Some(Dir)
                                    else At(s.fs, p))
            && (stage.MadeParents? ==>
                  && r == s.(fs := r.fs, created := s.created + missing)
                  && At(r.fs, p) == if p in missing then Some(Dir) else At(s.fs, p))
  {
    hide Missing, Blocked;
  }

  /** Then the target is out of the way and recorded with its backup. */
  lemma FaultBehindBackup(s: State, e: Entry, i: nat, p: Path)
    requires Disk(s.fs) && NotYet(s.fs, i) && Clean(e.target) && !Blocked(s.fs, e.target)
    ensures e.target != []
    ensures var r := Crash(s, e, i, SetAside);
            && r.created == s.created + Missing(s.fs, Parent(e.target)) && r.temporaries == s.temporaries
            && r.touched == s.touched + [Touch(e.target, if e.target in s.fs then Some(BackupOf(e.target, i)) else None)]
            && (Under(p, e.target) ==> At(r.fs, p) == None)
            && (e.target in s.fs && Under(p, BackupOf(e.target, i)) ==> At(r.fs, p) == At(s.fs, e.target + p[|e.target|..]))
  {
    NotRoot(s.fs, e.target);
    BackupLength(e.target, i);
    StepTouches(s, e.(source := None), i);
    AsideIsAway(s, e, i, p);
    hide Missing, Blocked, Disk, NotYet, BackupOf, Step, At;
    NewTouch(s, e, i);
  }

  lemma NewTouch(s: State, e: Entry, i: nat)
    requires Disk(s.fs) && !Blocked(s.fs, e.target) && e.target != []
    ensures Step(s, e.(source := None), i).touched ==
            s.touched + [Touch(e.target, if e.target in s.fs then Some(BackupOf(e.target, i)) else None)]
    ensures Step(s, e.(source := None), i).temporaries == s.temporaries
    ensures Crash(s, e, i, SetAside) == Step(s, e.(source := None), i)
  {
    hide BackupOf, Blocked;
    MissingIs(s.fs, Parent(e.target), e.target);
  }

  /** Then part of the source stands under the temporary path. */
  lemma FaultWhileCopying(s: State, e: Entry, i: nat, partial: Tree, p: Path)
    requires Disk(s.fs) && NotYet(s.fs, i) && Clean(e.target) && !Blocked(s.fs, e.target) && e.source.Some?
    ensures e.target != []
    ensures var r := Crash(s, e, i, Copying(partial));
            && r.created == s.created + Missing(s.fs, Parent(e.target))
            && r.temporaries == {TempOf(e.target, i)} && r.touched == Crash(s, e, i, SetAside).touched
            && At(r.fs, p) == if Under(p, TempOf(e.target, i)) then At(partial, p[|e.target|..])
                              else At(Crash(s, e, i, SetAside).fs, p)
  {
    NotRoot(s.fs, e.target);
    StepTouches(s, e.(source := None), i);
    NewTouch(s, e, i);
    TempLength(e.target, i);
    hide Missing, TempOf, Blocked, Disk, NotYet, Step, At;
    AtGraft(Step(s, e.(source := None), i).fs, TempOf(e.target, i), partial, p);
    FreshTemp(s, e, i, p);
  }

  lemma FreshTemp(s: State, e: Entry, i: nat, p: Path)
    requires Disk(s.fs) && NotYet(s.fs, i) && Clean(e.target) && !Blocked(s.fs, e.target) && e.target != []
    ensures Under(p, TempOf(e.target, i)) ==> At(Step(s, e.(source := None), i).fs, p) == None
  {
    MadeIsDisk(s.fs, e.target);
    MadeNotYet(s.fs, e.target, i);
    DiskClosed(Made(s.fs, e.target));
    hide Made, Disk, Blocked, Missing;
    if Under(p, TempOf(e.target, i)) {
      TempIsNew(Made(s.fs, e.target), e.target, i, p);
      AtAside(Made(s.fs, e.target), e.target, i, p);
    }
  }

  lemma TempLength(target: Path, i: nat)
    requires target != []
    ensures |TempOf(target, i)| == |target|
  {
  }

  lemma AsideIsAway(s: State, e: Entry, i: nat, p: Path)
    requires Disk(s.fs) && NotYet(s.fs, i) && Clean(e.target) && !Blocked(s.fs, e.target) && e.target != []
    ensures |BackupOf(e.target, i)| == |e.target|
    ensures Under(p, e.target) ==> At(Step(s, e.(source := None), i).fs, p) == None
    ensures e.target in s.fs && Under(p, BackupOf(e.target, i)) ==>
              At(Step(s, e.(source := None), i).fs, p) == At(s.fs, e.target + p[|e.target|..])
  {
    MadeIsDisk(s.fs, e.target);
    MadeNotYet(s.fs, e.target, i);
    DiskClosed(Made(s.fs, e.target));
    BackupLength(e.target, i);
    NotMade(s.fs, e.target, p);
    hide Made, Disk, NotYet, Blocked, Missing;
    AtAside(Made(s.fs, e.target), e.target, i, p);
    if e.target !in Made(s.fs, e.target) && Under(p, e.target) { NothingUnder(Made(s.fs, e.target), e.target, p); }
  }

  /** Making the parents leaves the target and what is below it alone. */
  lemma NotMade(fs: Tree, target: Path, p: Path)
    requires Disk(fs) && target != []
    ensures |p| >= |target| ==> At(Made(fs, target), target + p[|target|..]) == At(fs, target + p[|target|..])
    ensures target in Made(fs, target) <==> target in fs
  {
    MissingIs(fs, Parent(target), target);
    if |p| >= |target| { MissingIs(fs, Parent(target), target + p[|target|..]); }
  }
}
