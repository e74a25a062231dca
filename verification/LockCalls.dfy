/**
 What becomes of single calls under the lock protocol: they get inside their actions, they end behind them, and
 a lock is broken only when its holder was dead (src/learning/candidates.ts,
 scripts/acquire-major-learning-migration-lock.py).
 */
module LockCalls {
  import opened Wrappers
  import opened LockProtocol

  // ---------- Progress ----------

  function Proceeds(p: Pid, n: nat): seq<Step> { if n == 0 then [] else [Proceed(p)] + Proceeds(p, n - 1) }

  lemma {:induction false} OneMore(s: State, p: Pid, n: nat)
    requires Next(s, Proceed(p)).Some?
    ensures After(s, Proceeds(p, n + 1)) == After(Next(s, Proceed(p)).value, Proceeds(p, n))
  {
    assert Proceeds(p, n + 1)[1..] == Proceeds(p, n);
  }

  lemma WithTopTwice(s: State, p: Pid, f: Frame, g: Frame)
    requires Alive(s, p) && s.procs[p].frames != []
    ensures Alive(WithTop(s, p, f), p) && WithTop(s, p, f).procs[p].frames != []
    ensures WithTop(WithTop(s, p, f), p, g) == WithTop(s, p, g)
  {
    var fs := s.procs[p].frames;
    assert (fs[..|fs| - 1] + [f])[..|fs|- 1] == fs[..|fs| - 1];
  }

  lemma SameTop(s: State, p: Pid)
    requires Alive(s, p) && s.procs[p].frames != []
    ensures WithTop(s, p, s.procs[p].frames[|s.procs[p].frames| - 1]) == s
  {
    var fs := s.procs[p].frames;
    assert fs[..|fs| - 1] + [fs[|fs| - 1]] == fs;
  }

  lemma {:induction false} ScansOn(s: State, p: Pid, f: Frame, n: nat)
    requires Alive(s, p) && s.procs[p].frames != []
    requires f.Migrator? && n <= |f.stores| && forall st | st in f.stores :: st !in s.locks
    ensures After(WithTop(s, p, f.(mpc := Scan(n))), Proceeds(p, |f.stores| - n + 1)) == Some(WithTop(s, p, f.(mpc := Migrating)))
    decreases |f.stores| - n
  {
    var now, next := f.(mpc := Scan(n)), f.(mpc := if n < |f.stores| then Scan(n + 1) else Migrating);
    WithTopTwice(s, p, now, next);
    OneMore(WithTop(s, p, now), p, |f.stores| - n);
    if n < |f.stores| { ScansOn(s, p, f, n + 1); }
  }

  /** Main theorem: a migrator that begins to look at its stores when none of them is locked comes inside its
      action for all of them by its own next steps, one for each store and one more. */
  lemma MigratorGetsInside(s: State, p: Pid)
    requires Alive(s, p) && s.procs[p].frames != []
    requires var f := At(s, p, |s.procs[p].frames| - 1);
             f.Migrator? && f.mpc == Scan(0) && forall st | st in f.stores :: st !in s.locks
    ensures var k := |s.procs[p].frames| - 1; var f := At(s, p, k); var t := After(s, Proceeds(p, |f.stores| + 1));
            && t.Some? && Active(t.value, p, k) && At(t.value, p, k).InsideAction()
            && (forall st | st in f.stores :: At(t.value, p, k).MigratingStore(st))
            && t.value.locks == s.locks && t.value.migration == s.migration
  {
    SameTop(s, p);
    ScansOn(s, p, At(s, p, |s.procs[p].frames| - 1), 0);
  }

  /** Process p has room for a call. */
  predicate Ready(s: State, p: Pid) {
    Alive(s, p) && (s.procs[p].frames == [] || s.procs[p].frames[|s.procs[p].frames| - 1].InsideAction())
  }

  function WithCall(s: State, p: Pid, f: Frame): State
    requires Alive(s, p)
  {
    s.(procs := s.procs[p := Proc(true, s.procs[p].frames + [f])])
  }

  lemma WithCallTop(s: State, p: Pid, f: Frame, g: Frame)
    requires Alive(s, p)
    ensures WithTop(WithCall(s, p, f), p, g) == WithCall(s, p, g) && WithoutTop(WithCall(s, p, f), p) == s
  {
    var fs := s.procs[p].frames;
    assert (fs + [f])[..|fs|] == fs;
    assert s.procs[p] == Proc(true, fs);
  }

  /** Main theorem: a writer that meets no lock comes inside its store in three steps, and two more end the call
      with all files as they were. */
  lemma WriterRunsAlone(s: State, p: Pid, st: StorePath)
    requires Ready(s, p) && s.migration.None? && st !in s.locks
    ensures var call := WithCall(s, p, Writer(st, AwaitMigration(false)));
            && Next(s, Call(p, Writer(st, AwaitMigration(false)))) == Some(call)
            && After(call, Proceeds(p, 3)) == Some(WithCall(s.(locks := s.locks[st := p]), p, Writer(st, InAction)))
            && After(call, Proceeds(p, 5)) == Some(s)
  {
    var held := s.(locks := s.locks[st := p]);
    var f0, f1, f2, f3, f4 := Writer(st, AwaitMigration(false)), Writer(st, CreateLock(false)), Writer(st, Recheck),
                              Writer(st, InAction), Writer(st, Release);
    WithCallTop(s, p, f0, f1);
    WithCallTop(held, p, f1, f2);
    WithCallTop(held, p, f2, f3);
    WithCallTop(held, p, f3, f4);
    WithCallTop(s, p, f4, f4);
    assert Next(WithCall(s, p, f0), Proceed(p)) == Some(WithCall(s, p, f1));
    assert Next(WithCall(s, p, f1), Proceed(p)) == Some(WithCall(held, p, f2));
    assert Next(WithCall(held, p, f2), Proceed(p)) == Some(WithCall(held, p, f3));
    assert Next(WithCall(held, p, f3), Proceed(p)) == Some(WithCall(held, p, f4));
    assert held.locks - {st} == s.locks;
    assert Next(WithCall(held, p, f4), Proceed(p)) == Some(s);
    hide Next;
    forall n: nat ensures n > 0 ==> After(WithCall(s, p, f0), Proceeds(p, n)) == After(WithCall(s, p, f1), Proceeds(p, n - 1)) {
      if n > 0 { OneMore(WithCall(s, p, f0), p, n - 1); }
    }
    forall n: nat | n in {3, 5} ensures After(WithCall(s, p, f0), Proceeds(p, n)) == After(WithCall(held, p, f3), Proceeds(p, n - 3)) {
      OneMore(WithCall(s, p, f0), p, n - 1);
      OneMore(WithCall(s, p, f1), p, n - 2);
      OneMore(WithCall(held, p, f2), p, n - 3);
    }
    OneMore(WithCall(held, p, f3), p, 1);
    OneMore(WithCall(held, p, f4), p, 0);
  }

  /** The same for a migrator whose stores are not locked. */
  lemma MigratorRunsAlone(s: State, p: Pid, stores: seq<StorePath>, budget: Option<nat>)
    requires Ready(s, p) && s.migration.None? && budget != Some(0) && forall st | st in stores :: st !in s.locks
    ensures var call, n := WithCall(s, p, Migrator(stores, budget, CreateMigration)), |stores| + 2;
            && Next(s, Call(p, Migrator(stores, budget, CreateMigration))) == Some(call)
            && After(call, Proceeds(p, n)) == Some(WithCall(s.(migration := Some(p)), p, Migrator(stores, budget, Migrating)))
            && After(call, Proceeds(p, n + 2)) == Some(s)
  {
    var held := s.(migration := Some(p));
    var f0 := Migrator(stores, budget, CreateMigration);
    var f1, f2, f3 := f0.(mpc := Scan(0)), f0.(mpc := Migrating), f0.(mpc := ReleaseMigration);
    MigratorSteps(s, p, f0);
    ScanAlone(held, p, f0);
    hide Next, WithCall, WithTop, WithoutTop, After, Proceeds;
    OneMore(WithCall(s, p, f0), p, |stores| + 1);
    OneMore(WithCall(s, p, f0), p, |stores| + 3);
    ProceedsOn(WithCall(held, p, f1), WithCall(held, p, f2), p, |stores| + 1, 2);
    OneMore(WithCall(held, p, f2), p, 1);
    OneMore(WithCall(held, p, f3), p, 0);
    Stops(s, p);
  }

  lemma MigratorSteps(s: State, p: Pid, f: Frame)
    requires Ready(s, p) && s.migration.None? && f.Migrator? && f.mpc.CreateMigration? && f.budget != Some(0)
    ensures var held := s.(migration := Some(p));
            && Next(s, Call(p, f)) == Some(WithCall(s, p, f))
            && Next(WithCall(s, p, f), Proceed(p)) == Some(WithCall(held, p, f.(mpc := Scan(0))))
            && Next(WithCall(held, p, f.(mpc := Migrating)), Proceed(p)) == Some(WithCall(held, p, f.(mpc := ReleaseMigration)))
            && Next(WithCall(held, p, f.(mpc := ReleaseMigration)), Proceed(p)) == Some(s)
  {
    var held := s.(migration := Some(p));
    WithCallTop(s, p, f, f.(mpc := Scan(0)));
    WithCallTop(held, p, f, f.(mpc := Scan(0)));
    WithCallTop(held, p, f.(mpc := Migrating), f.(mpc := ReleaseMigration));
    WithCallTop(s, p, f.(mpc := ReleaseMigration), f);
  }

  lemma ScanAlone(s: State, p: Pid, f: Frame)
    requires Alive(s, p) && f.Migrator? && forall st | st in f.stores :: st !in s.locks
    ensures After(WithCall(s, p, f.(mpc := Scan(0))), Proceeds(p, |f.stores| + 1)) == Some(WithCall(s, p, f.(mpc := Migrating)))
  {
    var f1, f2 := f.(mpc := Scan(0)), f.(mpc := Migrating);
    ScansOn(WithCall(s, p, f1), p, f, 0);
    WithCallTop(s, p, f1, f1);
    WithCallTop(s, p, f1, f2);
  }

  lemma Stops(s: State, p: Pid)
    ensures After(s, Proceeds(p, 0)) == Some(s)
  {
  }

  lemma {:induction false} ProceedsOn(s: State, t: State, p: Pid, m: nat, n: nat)
    requires After(s, Proceeds(p, m)) == Some(t)
    ensures After(s, Proceeds(p, m + n)) == After(t, Proceeds(p, n))
    decreases m
  {
    hide Next;
    if m > 0 {
      assert Proceeds(p, m)[1..] == Proceeds(p, m - 1) && Proceeds(p, m + n)[1..] == Proceeds(p, m + n - 1);
      ProceedsOn(Next(s, Proceed(p)).value, t, p, m - 1, n);
    }
  }

  // ---------- Runs and their calls ----------

  /** The state before step k of a run. */
  function StateAt(steps: seq<Step>, k: nat): State
    requires k <= |steps| && After(Init, steps).Some?
  {
    PrefixRuns(Init, steps, k);
    After(Init, steps[..k]).value
  }

  lemma {:induction false} PrefixRuns(s: State, steps: seq<Step>, k: nat)
    requires k <= |steps| && After(s, steps).Some?
    ensures After(s, steps[..k]).Some?
    decreases k
  {
    if k > 0 {
      assert steps[..k][1..] == steps[1..][..k - 1];
      PrefixRuns(Next(s, steps[0]).value, steps[1..], k - 1);
    }
  }

  lemma StateNext(steps: seq<Step>, k: nat)
    requires k < |steps| && After(Init, steps).Some?
    ensures Next(StateAt(steps, k), steps[k]) == Some(StateAt(steps, k + 1))
  {
    PrefixRuns(Init, steps, k);
    PrefixRuns(Init, steps, k + 1);
    assert steps[..k + 1] == steps[..k] + [steps[k]];
    Extend(Init, steps[..k], steps[k]);
  }

  function Frames(steps: seq<Step>, k: nat, p: Pid): seq<Frame>
    requires k <= |steps| && After(Init, steps).Some?
  {
    var s := StateAt(steps, k);
    if p < |s.procs| then s.procs[p].frames else []
  }

  lemma FramesAre(steps: seq<Step>, k: nat)
    requires k <= |steps| && After(Init, steps).Some?
    ensures forall p: Pid :: Frames(steps, k, p) == var s := StateAt(steps, k); if p < |s.procs| then s.procs[p].frames else []
  {
  }

  /** The call that step j makes is frame i of process p in all states up to k. */
  ghost predicate Spans(steps: seq<Step>, j: nat, k: nat, p: Pid, i: nat)
    requires k <= |steps| && After(Init, steps).Some?
  {
    && j < k && steps[j].Call? && steps[j].p == p && |Frames(steps, j, p)| == i
    && forall m: nat | j < m <= k :: |Frames(steps, m, p)| > i
  }

  ghost predicate WasInside(steps: seq<Step>, j: nat, k: nat, p: Pid, i: nat)
    requires k <= |steps| && After(Init, steps).Some?
  {
    exists m: nat :: j < m <= k && i < |Frames(steps, m, p)| && Frames(steps, m, p)[i].InsideAction()
  }

  ghost predicate GaveUp(steps: seq<Step>, j: nat, k: nat, p: Pid, i: nat)
    requires k <= |steps| && After(Init, steps).Some?
  {
    exists m: nat :: j < m < k && steps[m] == GiveUp(p) && |Frames(steps, m, p)| == i + 1
  }

  /** The call is about to end, or to open its lock again after backing off. */
  predicate Ending(f: Frame) { if f.Writer? then f.wpc.Release? else f.mpc.ReleaseMigration? }

  /** Where the frame of the call comes from. */
  ghost predicate Accounted(steps: seq<Step>, k: nat, p: Pid, i: nat)
    requires k <= |steps| && After(Init, steps).Some? && i < |Frames(steps, k, p)|
  {
    exists j: nat :: Spans(steps, j, k, p, i) &&
      (Ending(Frames(steps, k, p)[i]) ==> WasInside(steps, j, k, p, i) || GaveUp(steps, j, k, p, i))
  }

  /** What one step does to a frame that stays. */
  lemma FrameStep(s: State, step: Step, p: Pid, i: nat)
    requires Next(s, step).Some? && p < |s.procs| && i < |s.procs[p].frames|
    requires i < |Next(s, step).value.procs[p].frames|
    ensures var f, g := s.procs[p].frames[i], Next(s, step).value.procs[p].frames[i];
            f.InsideAction() || Ending(f) || !Ending(g) || (step == GiveUp(p) && |s.procs[p].frames| == i + 1)
  {
    if !step.Spawn? && !step.Crash? && !step.Call? && step.p == p && |s.procs[p].frames| == i + 1 {
      TopStep(s, step, p, i);
    } else {
      hide Run;
      LowerFrame(s, step, p, i);
    }
  }

  lemma LowerFrame(s: State, step: Step, p: Pid, i: nat)
    requires Next(s, step).Some? && p < |s.procs| && i < |s.procs[p].frames|
    requires i < |Next(s, step).value.procs[p].frames|
    requires step.Spawn? || step.Crash? || step.Call? || step.p != p || |s.procs[p].frames| != i + 1
    ensures Next(s, step).value.procs[p].frames[i] == s.procs[p].frames[i]
  {
  }

  lemma TopStep(s: State, step: Step, p: Pid, i: nat)
    requires Alive(s, p) && |s.procs[p].frames| == i + 1 && !step.Spawn? && !step.Crash? && !step.Call? && step.p == p
    requires Next(s, step).Some? && i < |Next(s, step).value.procs[p].frames|
    ensures var f, g := s.procs[p].frames[i], Next(s, step).value.procs[p].frames[i];
            f.InsideAction() || Ending(f) || !Ending(g) || step == GiveUp(p)
  {
    hide OwnerOf;
  }

  lemma IdleStep(s: State, step: Step, p: Pid)
    requires Next(s, step).Some? && p < |s.procs| && (step.Spawn? || step.Crash? || step.p != p)
    ensures Next(s, step).value.procs[p].frames == s.procs[p].frames
  {
  }

  lemma RunPops(s: State, step: Step, p: Pid)
    requires Next(s, step).Some? && Alive(s, p) && s.procs[p].frames != []
    requires !step.Spawn? && !step.Crash? && !step.Call? && step.p == p
    ensures p < |Next(s, step).value.procs|
    ensures var before, after := s.procs[p].frames, Next(s, step).value.procs[p].frames;
            |after| == |before| || (|after| == |before| - 1 && (step == GiveUp(p) || Ending(before[|after|])))
  {
    hide OwnerOf;
  }

  lemma StackStep(s: State, step: Step, p: Pid)
    requires Next(s, step).Some?
    ensures p < |s.procs| ==> p < |Next(s, step).value.procs|
    ensures var before := if p < |s.procs| then s.procs[p].frames else [];
            var t := Next(s, step).value; var after := if p < |t.procs| then t.procs[p].frames else [];
            && (|after| > |before| ==> step.Call? && step.p == p && |after| == |before| + 1 && step.frame == after[|before|]
                                       && step.frame.AtStart())
            && (|after| < |before| ==> |after| == |before| - 1 && !step.Call? && !step.Spawn? && step.p == p
                                       && (step == GiveUp(p) || Ending(before[|after|])))
  {
    if p < |s.procs| && (step.Spawn? || step.Crash? || step.p != p) {
      IdleStep(s, step, p);
      NotFewer(s, step);
    } else if p < |s.procs| && !step.Call? {
      hide Run;
      RunPops(s, step, p);
    } else {
      hide Run;
      NotFewer(s, step);
    }
  }

  lemma NotFewer(s: State, step: Step)
    requires Next(s, step).Some?
    ensures |s.procs| <= |Next(s, step).value.procs| && (!step.Spawn? ==> |s.procs| == |Next(s, step).value.procs|)
  {
    hide OwnerOf;
  }

  lemma Lengthened(steps: seq<Step>, j: nat, k: nat, p: Pid, i: nat)
    requires 0 < k <= |steps| && After(Init, steps).Some? && Spans(steps, j, k - 1, p, i) && i < |Frames(steps, k, p)|
    ensures Spans(steps, j, k, p, i) && i < |Frames(steps, k - 1, p)|
    ensures WasInside(steps, j, k - 1, p, i) ==> WasInside(steps, j, k, p, i)
    ensures GaveUp(steps, j, k - 1, p, i) ==> GaveUp(steps, j, k, p, i)
    ensures Frames(steps, k - 1, p)[i].InsideAction() ==> WasInside(steps, j, k, p, i)
    ensures steps[k - 1] == GiveUp(p) && |Frames(steps, k - 1, p)| == i + 1 ==> GaveUp(steps, j, k, p, i)
  {
    hide Frames;
  }

  lemma {:induction false} AllAccounted(steps: seq<Step>, k: nat, p: Pid, i: nat)
    requires k <= |steps| && After(Init, steps).Some? && i < |Frames(steps, k, p)|
    ensures Accounted(steps, k, p, i)
  {
    if k > 0 {
      StateNext(steps, k - 1);
      var s := StateAt(steps, k - 1);
      StackStep(s, steps[k - 1], p);
      if i < |Frames(steps, k - 1, p)| {
        AllAccounted(steps, k - 1, p, i);
        FrameStep(s, steps[k - 1], p, i);
        hide Next, StateAt, Frames, Spans, WasInside, GaveUp;
        var j: nat :| Spans(steps, j, k - 1, p, i) &&
                      (Ending(Frames(steps, k - 1, p)[i]) ==> WasInside(steps, j, k - 1, p, i) || GaveUp(steps, j, k - 1, p, i));
        Lengthened(steps, j, k, p, i);
      } else {
        assert Spans(steps, k - 1, k, p, i);
      }
    }
  }

  /** Main theorem: a call that ends has been inside its action since it was made, or has given up. */
  lemma CallsEndBehindTheirAction(steps: seq<Step>, k: nat, p: Pid) returns (j: nat)
    requires k < |steps| && After(Init, steps).Some? && |Frames(steps, k + 1, p)| < |Frames(steps, k, p)|
    ensures Spans(steps, j, k, p, |Frames(steps, k, p)| - 1)
    ensures steps[k] == GiveUp(p) || WasInside(steps, j, k, p, |Frames(steps, k, p)| - 1)
                                  || GaveUp(steps, j, k, p, |Frames(steps, k, p)| - 1)
  {
    var i := |Frames(steps, k, p)| - 1;
    AllAccounted(steps, k, p, i);
    StateNext(steps, k);
    StackStep(StateAt(steps, k), steps[k], p);
    hide Next, StateAt;
    j :| Spans(steps, j, k, p, i) &&
         (Ending(Frames(steps, k, p)[i]) ==> WasInside(steps, j, k, p, i) || GaveUp(steps, j, k, p, i));
  }

  // ---------- Breaking a lock ----------

  /** The file that the running frame has decided to unlink. */
  function FileOf(fs: seq<Frame>): LockFile { if fs == [] then NoFile else Watched(fs[|fs| - 1], true) }

  lemma {:induction false} LowerFramesAreInside(steps: seq<Step>, k: nat, p: Pid, i: nat)
    requires k <= |steps| && After(Init, steps).Some? && i + 1 < |Frames(steps, k, p)|
    ensures Frames(steps, k, p)[i].InsideAction()
  {
    if k > 0 {
      StateNext(steps, k - 1);
      StackStep(StateAt(steps, k - 1), steps[k - 1], p);
      if i + 1 < |Frames(steps, k - 1, p)| { LowerFramesAreInside(steps, k - 1, p, i); }
      StaysBelow(StateAt(steps, k - 1), steps[k - 1], p, i);
    }
  }

  lemma StaysBelow(s: State, step: Step, p: Pid, i: nat)
    requires Next(s, step).Some? && p < |Next(s, step).value.procs| && i + 1 < |Next(s, step).value.procs[p].frames|
    ensures p < |s.procs| && i < |s.procs[p].frames| && Next(s, step).value.procs[p].frames[i] == s.procs[p].frames[i]
    ensures i + 1 == |s.procs[p].frames| ==> s.procs[p].frames[i].InsideAction()
  {
    StackStep(s, step, p);
    if i + 1 < |s.procs[p].frames| {
      LowerFrame(s, step, p, i);
    } else {
      hide Run;
    }
  }

  /** Lock files name processes that have been started. */
  ghost predicate Named(s: State) {
    && (forall st | st in s.locks :: s.locks[st] < |s.procs|)
    && (s.migration.Some? ==> s.migration.value < |s.procs|)
  }

  lemma NextKeepsNamed(s: State, step: Step)
    requires Named(s) && Next(s, step).Some?
    ensures Named(Next(s, step).value) && |s.procs| <= |Next(s, step).value.procs|
    ensures forall q | 0 <= q < |s.procs| && !Alive(s, q) :: !Alive(Next(s, step).value, q)
  {
  }

  lemma {:induction false} AllNamed(steps: seq<Step>, k: nat)
    requires k <= |steps| && After(Init, steps).Some?
    ensures Named(StateAt(steps, k))
  {
    if k > 0 {
      AllNamed(steps, k - 1);
      StateNext(steps, k - 1);
      NextKeepsNamed(StateAt(steps, k - 1), steps[k - 1]);
    }
  }

  lemma {:induction false} DeadStay(steps: seq<Step>, m: nat, k: nat, q: Pid)
    requires m <= k <= |steps| && After(Init, steps).Some? && q < |StateAt(steps, m).procs| && !Alive(StateAt(steps, m), q)
    ensures !Alive(StateAt(steps, k), q) && q < |StateAt(steps, k).procs|
    decreases k - m
  {
    if m < k {
      AllNamed(steps, m);
      StateNext(steps, m);
      NextKeepsNamed(StateAt(steps, m), steps[m]);
      DeadStay(steps, m + 1, k, q);
    }
  }

  /** At step m the process found the file to belong to a dead process, and it has done nothing since. */
  ghost predicate Found(steps: seq<Step>, m: nat, k: nat, p: Pid, file: LockFile)
    requires k <= |steps| && After(Init, steps).Some?
  {
    && m < k && steps[m] == SpotStale(p)
    && OwnerOf(StateAt(steps, m), file).Some? && !Alive(StateAt(steps, m), OwnerOf(StateAt(steps, m), file).value)
    && forall n: nat | m < n <= k :: Frames(steps, n, p) == Frames(steps, k, p)
  }

  function FramesOf(s: State, p: Pid): seq<Frame> { if p < |s.procs| then s.procs[p].frames else [] }

  lemma RunCondemns(s: State, step: Step, p: Pid)
    requires Next(s, step).Some? && Alive(s, p) && s.procs[p].frames != []
    requires !step.Spawn? && !step.Crash? && !step.Call? && step.p == p
    ensures var before, after := s.procs[p].frames, FramesOf(Next(s, step).value, p);
            && (|after| == |before| && FileOf(after) != NoFile ==>
                  step == SpotStale(p) && OwnerOf(s, FileOf(after)).Some? && !Alive(s, OwnerOf(s, FileOf(after)).value))
            && (|after| != |before| ==> after == before[..|before| - 1])
  {
    if step.SpotStale? {
      SpotCondemns(s, p);
    } else {
      OthersCondemnNothing(s, step, p);
    }
  }

  lemma OthersCondemnNothing(s: State, step: Step, p: Pid)
    requires Next(s, step).Some? && Alive(s, p) && s.procs[p].frames != []
    requires (step.Proceed? || step.UnlinkStale? || step.GiveUp?) && step.p == p
    ensures var before, after := s.procs[p].frames, FramesOf(Next(s, step).value, p);
            && (|after| == |before| ==> FileOf(after) == NoFile)
            && (|after| != |before| ==> after == before[..|before| - 1])
  {
    hide OwnerOf;
  }

  lemma SpotCondemns(s: State, p: Pid)
    requires Next(s, SpotStale(p)).Some? && Alive(s, p) && s.procs[p].frames != []
    ensures var after := FramesOf(Next(s, SpotStale(p)).value, p);
            && |after| == |s.procs[p].frames|
            && (FileOf(after) != NoFile ==>
                  OwnerOf(s, FileOf(after)).Some? && !Alive(s, OwnerOf(s, FileOf(after)).value))
  {
  }

  /** What a step leaves condemned was so before, and the process has not moved; or it has just been found stale. */
  lemma CondemnedStep(s: State, step: Step, p: Pid)
    requires Next(s, step).Some?
    ensures var before, after := FramesOf(s, p), FramesOf(Next(s, step).value, p);
            FileOf(after) != NoFile ==>
              || after == before
              || (before != [] && after == before[..|before| - 1])
              || (step == SpotStale(p) && OwnerOf(s, FileOf(after)).Some? && !Alive(s, OwnerOf(s, FileOf(after)).value))
  {
    if p < |s.procs| {
      if step.Spawn? || step.Crash? || step.p != p {
        IdleStep(s, step, p);
      } else if !step.Call? {
        hide Run;
        RunCondemns(s, step, p);
      }
    }
  }

  lemma FoundStill(steps: seq<Step>, m: nat, k: nat, p: Pid, file: LockFile)
    requires 0 < k <= |steps| && After(Init, steps).Some? && Found(steps, m, k - 1, p, file)
    requires Frames(steps, k, p) == Frames(steps, k - 1, p)
    ensures Found(steps, m, k, p, file)
  {
    hide Frames, StateAt;
  }

  lemma PopCondemnsNothing(steps: seq<Step>, k: nat, p: Pid)
    requires k <= |steps| && After(Init, steps).Some? && Frames(steps, k, p) != []
    ensures FileOf(Frames(steps, k, p)[..|Frames(steps, k, p)| - 1]) == NoFile
  {
    var fs := Frames(steps, k, p);
    hide Frames;
    if |fs| > 1 { LowerFramesAreInside(steps, k, p, |fs| - 2); }
  }

  lemma HowCondemned(steps: seq<Step>, k: nat, p: Pid)
    requires 0 < k <= |steps| && After(Init, steps).Some? && FileOf(Frames(steps, k, p)) != NoFile
    ensures var s, file := StateAt(steps, k - 1), FileOf(Frames(steps, k, p));
            || Frames(steps, k, p) == Frames(steps, k - 1, p)
            || (steps[k - 1] == SpotStale(p) && OwnerOf(s, file).Some? && !Alive(s, OwnerOf(s, file).value))
  {
    hide *;
    FramesAreOf(steps, k - 1, p);
    FramesAreOf(steps, k, p);
    StateNext(steps, k - 1);
    var before := Frames(steps, k - 1, p);
    CondemnedStep(StateAt(steps, k - 1), steps[k - 1], p);
    if before != [] && Frames(steps, k, p) == before[..|before| - 1] { PopCondemnsNothing(steps, k - 1, p); }
  }

  lemma FramesAreOf(steps: seq<Step>, k: nat, p: Pid)
    requires k <= |steps| && After(Init, steps).Some?
    ensures Frames(steps, k, p) == FramesOf(StateAt(steps, k), p)
  {
  }

  lemma NothingAtFirst(steps: seq<Step>, p: Pid)
    requires After(Init, steps).Some?
    ensures Frames(steps, 0, p) == []
  {
  }

  lemma {:induction false} CondemnedWasFound(steps: seq<Step>, k: nat, p: Pid) returns (m: nat)
    requires k <= |steps| && After(Init, steps).Some? && FileOf(Frames(steps, k, p)) != NoFile
    ensures Found(steps, m, k, p, FileOf(Frames(steps, k, p)))
  {
    NothingAtFirst(steps, p);
    hide Frames, StateAt, OwnerOf, Found, Next, Watched;
    HowCondemned(steps, k, p);
    if Frames(steps, k, p) == Frames(steps, k - 1, p) {
      m := CondemnedWasFound(steps, k - 1, p);
      FoundStill(steps, m, k, p, FileOf(Frames(steps, k, p)));
    } else {
      m := k - 1;
      FoundNow(steps, k, p, FileOf(Frames(steps, k, p)));
    }
  }

  lemma FoundNow(steps: seq<Step>, k: nat, p: Pid, file: LockFile)
    requires 0 < k <= |steps| && After(Init, steps).Some? && steps[k - 1] == SpotStale(p)
    requires var s := StateAt(steps, k - 1); OwnerOf(s, file).Some? && !Alive(s, OwnerOf(s, file).value)
    ensures Found(steps, k - 1, k, p, file)
  {
    hide Frames, StateAt;
  }

  /** Main theorem: a process unlinks a lock file as stale only after it has found the file's owner dead; so if the
      owner at the time of the unlink is alive, the file has changed hands in between. */
  lemma BreaksOnlyWhatWasStale(steps: seq<Step>, k: nat, p: Pid) returns (m: nat)
    requires k < |steps| && After(Init, steps).Some? && steps[k] == UnlinkStale(p)
    ensures FileOf(Frames(steps, k, p)) != NoFile && Found(steps, m, k, p, FileOf(Frames(steps, k, p)))
    ensures Raced(StateAt(steps, k), steps[k]) ==>
              OwnerOf(StateAt(steps, k), FileOf(Frames(steps, k, p))) != OwnerOf(StateAt(steps, m), FileOf(Frames(steps, k, p)))
  {
    StateNext(steps, k);
    m := CondemnedWasFound(steps, k, p);
    var file := FileOf(Frames(steps, k, p));
    AllNamed(steps, m);
    DeadStay(steps, m, k, OwnerOf(StateAt(steps, m), file).value);
  }

  // ---------- An installer's attempts ----------

  /** How often the call has tried to create the migration lock. */
  function Attempts(steps: seq<Step>, j: nat, k: nat, p: Pid, i: nat): nat
    requires k <= |steps| && After(Init, steps).Some?
  {
    if k <= j then 0
    else
      Attempts(steps, j, k - 1, p, i) +
      if steps[k - 1] == Proceed(p) && |Frames(steps, k - 1, p)| == i + 1 && Frames(steps, k - 1, p)[i].Migrator?
         && Frames(steps, k - 1, p)[i].mpc.CreateMigration? then 1 else 0
  }

  /** What is left of its attempts. */
  predicate Budgeted(f: Frame, b: nat, tried: nat) {
    && f.Migrator? && f.budget.Some?
    && (f.mpc.CreateMigration? ==> tried + f.budget.value == b)
    && (!f.mpc.CreateMigration? ==> tried + f.budget.value == b + 1 && f.budget.value > 0)
  }

  lemma BudgetStep(s: State, step: Step, p: Pid, i: nat, b: nat, tried: nat)
    requires Next(s, step).Some? && p < |s.procs| && i < |s.procs[p].frames| && i < |Next(s, step).value.procs[p].frames|
    requires Budgeted(s.procs[p].frames[i], b, tried)
    ensures var creates := step == Proceed(p) && |s.procs[p].frames| == i + 1 && s.procs[p].frames[i].mpc.CreateMigration?;
            Budgeted(Next(s, step).value.procs[p].frames[i], b, tried + if creates then 1 else 0)
  {
    if step.Spawn? || step.Crash? || step.Call? || step.p != p || |s.procs[p].frames| != i + 1 {
      LowerFrame(s, step, p, i);
    }
  }

  lemma {:induction false} AttemptsAreBudgeted(steps: seq<Step>, j: nat, k: nat, p: Pid, i: nat, b: nat)
    requires k <= |steps| && After(Init, steps).Some? && Spans(steps, j, k, p, i)
    requires steps[j].frame.Migrator? && steps[j].frame.budget == Some(b)
    ensures Budgeted(Frames(steps, k, p)[i], b, Attempts(steps, j, k, p, i))
  {
    StateNext(steps, k - 1);
    FramesAre(steps, k);
    FramesAre(steps, k - 1);
    hide Next, StateAt, Frames;
    if k == j + 1 {
      StackStep(StateAt(steps, j), steps[j], p);
    } else {
      assert Spans(steps, j, k - 1, p, i);
      AttemptsAreBudgeted(steps, j, k - 1, p, i, b);
      BudgetStep(StateAt(steps, k - 1), steps[k - 1], p, i, b, Attempts(steps, j, k - 1, p, i));
    }
  }

  /** An installer with a budget of b attempts never tries to create the lock more often. */
  lemma InstallerKeepsItsBudget(steps: seq<Step>, j: nat, k: nat, p: Pid, i: nat, b: nat)
    requires k <= |steps| && After(Init, steps).Some? && Spans(steps, j, k, p, i)
    requires steps[j].frame.Migrator? && steps[j].frame.budget == Some(b)
    ensures Attempts(steps, j, k, p, i) <= b
  {
    AttemptsAreBudgeted(steps, j, k, p, i, b);
  }
}
