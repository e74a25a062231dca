/**
 The lock files that keep learning-store writers and store migrations apart
 (src/learning/candidates.ts, scripts/acquire-major-learning-migration-lock.py).

 Any number of processes run withStoreLock and withMigrationLock, nested in any
 way, one file-system call at a time.  A process may die between any two calls
 and leaves its lock files behind.  Breaking a stale lock is two calls, as in
 the source: looking at the file, and unlinking whatever is at the path later.
 */
module LockProtocol {
  import opened Wrappers

  type Pid = nat
  type StorePath = string

  // ---------- Program counters ----------

  datatype WriterPc =
    | AwaitMigration(breaking: bool)   // waitForMigration; breaking: decided to unlink the migration lock
    | CreateLock(breaking: bool)       // open(lock, 'wx'); breaking: decided to unlink the store lock
    | Recheck                          // lock file created, migration lock not yet looked at again
    | BackOff                          // saw a migration lock: about to unlink the own lock
    | InAction
    | Release

  datatype MigratorPc =
    | CreateMigration                  // open('.migration.lock', 'wx')
    | AwaitOther(breaking: bool)       // another migration lock exists
    | Scan(next: nat)                  // stores[..next] were found without a lock in this pass
    | Sweep(next: nat, breaking: bool) // some lock exists: walk the stores and break the stale ones
    | Migrating
    | ReleaseMigration

  /** One running call.  An installer has a budget of attempts, a store migration has none. */
  datatype Frame =
    | Writer(store: StorePath, wpc: WriterPc)
    | Migrator(stores: seq<StorePath>, budget: Option<nat>, mpc: MigratorPc)
  {
    predicate HoldsStore(st: StorePath) {
      Writer? && store == st && (wpc.Recheck? || wpc.BackOff? || wpc.InAction? || wpc.Release?)
    }

    predicate HoldsMigration() {
      Migrator? && (mpc.Scan? || mpc.Sweep? || mpc.Migrating? || mpc.ReleaseMigration?)
    }

    predicate Writing(st: StorePath) { Writer? && store == st && wpc.InAction? }

    predicate MigratingStore(st: StorePath) { Migrator? && mpc.Migrating? && st in stores }

    /** The current pass has already found `st` free of locks. */
    predicate Cleared(st: StorePath) {
      Migrator? && match mpc
                   case Scan(next) => st in (if next < |stores| then stores[..next] else stores)
                   case Migrating => st in stores
                   case _ => false
    }

    predicate InsideAction() { if Writer? then wpc.InAction? else mpc.Migrating? }

    predicate AtStart() {
      if Writer? then wpc == AwaitMigration(false) else mpc == CreateMigration
    }
  }

  /** `frames` is the call stack of one process; only its last frame runs. */
  datatype Proc = Proc(alive: bool, frames: seq<Frame>)

  /** Process ids are positions in `procs`, so they are never reused. */
  datatype State = State(procs: seq<Proc>, locks: map<StorePath, Pid>, migration: Option<Pid>)

  const Init := State([], map[], None)

  predicate Alive(s: State, p: Pid) { p < |s.procs| && s.procs[p].alive }

  predicate Active(s: State, p: Pid, i: nat) { Alive(s, p) && i < |s.procs[p].frames| }

  function At(s: State, p: Pid, i: nat): Frame
    requires Active(s, p, i)
  {
    s.procs[p].frames[i]
  }

  // ---------- Steps ----------

  datatype Step =
    | Spawn
    | Crash(p: Pid)
    | Call(p: Pid, frame: Frame)   // start withStoreLock or withMigrationLock, at top level or inside an action
    | Proceed(p: Pid)              // the next file-system call of the running frame
    | SpotStale(p: Pid)            // the file belongs to a dead process: decide to unlink it
    | UnlinkStale(p: Pid)          // unlink whatever is at that path now
    | GiveUp(p: Pid)               // deadline passed, or the installer refuses

  function WithTop(s: State, p: Pid, f: Frame): State
    requires Alive(s, p) && s.procs[p].frames != []
  {
    var fs := s.procs[p].frames;
    s.(procs := s.procs[p := Proc(true, fs[..|fs| - 1] + [f])])
  }

  function WithoutTop(s: State, p: Pid): State
    requires Alive(s, p) && s.procs[p].frames != []
  {
    var fs := s.procs[p].frames;
    s.(procs := s.procs[p := Proc(true, fs[..|fs| - 1])])
  }

  function Unlock(s: State, st: StorePath): State { s.(locks := s.locks - {st}) }

  function WriterProceeds(s: State, p: Pid, f: Frame): Option<State>
    requires Alive(s, p) && s.procs[p].frames != [] && f.Writer?
  {
    match f.wpc
    case AwaitMigration(breaking) =>
      if breaking || s.migration.Some? then None
      else Some(WithTop(s, p, f.(wpc := CreateLock(false))))
    case CreateLock(breaking) =>
      if breaking then None
      else if f.store in s.locks then Some(WithTop(s, p, f.(wpc := AwaitMigration(false))))
      else Some(WithTop(s.(locks := s.locks[f.store := p]), p, f.(wpc := Recheck)))
    case Recheck =>
      Some(WithTop(s, p, f.(wpc := if s.migration.Some? then BackOff else InAction)))
    case BackOff => Some(WithTop(Unlock(s, f.store), p, f.(wpc := AwaitMigration(false))))
    case InAction => Some(WithTop(s, p, f.(wpc := Release)))
    case Release => Some(WithoutTop(Unlock(s, f.store), p))
  }

  /** Back to the create call; an installer has used up one attempt. */
  function Retry(f: Frame): Frame
    requires f.Migrator?
  {
    var left := if f.budget.Some? && f.budget.value > 0 then Some(f.budget.value - 1) else f.budget;
    f.(budget := left, mpc := CreateMigration)
  }

  function MigratorProceeds(s: State, p: Pid, f: Frame): Option<State>
    requires Alive(s, p) && s.procs[p].frames != [] && f.Migrator?
  {
    match f.mpc
    case CreateMigration =>
      if f.budget == Some(0) then None
      else if s.migration.Some? then Some(WithTop(s, p, f.(mpc := AwaitOther(false))))
      else Some(WithTop(s.(migration := Some(p)), p, f.(mpc := Scan(0))))
    case AwaitOther(breaking) =>
      if breaking || s.migration.Some? then None else Some(WithTop(s, p, Retry(f)))
    case Scan(next) =>
      if next >= |f.stores| then Some(WithTop(s, p, f.(mpc := Migrating)))
      else if f.stores[next] in s.locks then Some(WithTop(s, p, f.(mpc := Sweep(0, false))))
      else Some(WithTop(s, p, f.(mpc := Scan(next + 1))))
    case Sweep(next, breaking) =>
      if breaking then None
      else if next >= |f.stores| then Some(WithTop(s, p, f.(mpc := Scan(0))))
      else Some(WithTop(s, p, f.(mpc := Sweep(next + 1, false))))
    case Migrating => Some(WithTop(s, p, f.(mpc := ReleaseMigration)))
    case ReleaseMigration => Some(WithoutTop(s.(migration := None), p))
  }

  /** The lock file a frame may look at for staleness in its current position. */
  datatype LockFile = NoFile | MigrationFile | StoreFile(path: StorePath)

  function Watched(f: Frame, breaking: bool): LockFile {
    match f
    case Writer(store, AwaitMigration(b)) => if b == breaking then MigrationFile else NoFile
    case Writer(store, CreateLock(b)) => if b == breaking then StoreFile(store) else NoFile
    case Migrator(stores, budget, AwaitOther(b)) => if b == breaking then MigrationFile else NoFile
    case Migrator(stores, budget, Sweep(next, b)) =>
      if b == breaking && next < |stores| then StoreFile(stores[next]) else NoFile
    case _ => NoFile
  }

  function OwnerOf(s: State, file: LockFile): Option<Pid> {
    match file
    case NoFile => None
    case MigrationFile => s.migration
    case StoreFile(path) => if path in s.locks then Some(s.locks[path]) else None
  }

  function Decided(f: Frame): Frame {
    match f
    case Writer(store, AwaitMigration(_)) => f.(wpc := AwaitMigration(true))
    case Writer(store, CreateLock(_)) => f.(wpc := CreateLock(true))
    case Migrator(_, _, AwaitOther(_)) => f.(mpc := AwaitOther(true))
    case Migrator(_, _, Sweep(next, _)) => f.(mpc := Sweep(next, true))
    case _ => f
  }

  function AfterBreak(f: Frame): Frame {
    match f
    case Writer(_, _) => f.(wpc := AwaitMigration(false))
    case Migrator(_, _, Sweep(next, _)) => f.(mpc := Sweep(next + 1, false))
    case Migrator(_, _, _) => Retry(f)
  }

  function Unlink(s: State, file: LockFile): State {
    match file
    case NoFile => s
    case MigrationFile => s.(migration := None)
    case StoreFile(path) => Unlock(s, path)
  }

  predicate MayGiveUp(s: State, f: Frame) {
    match f
    case Writer(_, AwaitMigration(b)) => !b  // also the deadline test after a broken store lock
    case Writer(store, CreateLock(b)) => !b && store in s.locks
    case Migrator(_, budget, CreateMigration) => budget == Some(0)
    case Migrator(_, _, AwaitOther(b)) => !b && s.migration.Some?
    case _ => false
  }

  /** One step of the running frame `f`. */
  function Run(s: State, step: Step, f: Frame): Option<State>
    requires !step.Spawn? && !step.Crash? && !step.Call?
    requires Alive(s, step.p) && s.procs[step.p].frames != []
  {
    match step
    case Proceed(p) => if f.Writer? then WriterProceeds(s, p, f) else MigratorProceeds(s, p, f)
    case SpotStale(p) =>
      var owner := OwnerOf(s, Watched(f, false));
      if owner.Some? && !Alive(s, owner.value) then Some(WithTop(s, p, Decided(f))) else None
    case UnlinkStale(p) =>
      var file := Watched(f, true);
      if file.NoFile? then None else Some(WithTop(Unlink(s, file), p, AfterBreak(f)))
    case GiveUp(p) =>
      if MayGiveUp(s, f) then Some(WithoutTop(s, p))
      else if f.Migrator? && f.mpc.Sweep? && !f.mpc.breaking && f.mpc.next >= |f.stores|
      then Some(WithTop(s, p, f.(mpc := ReleaseMigration))) else None
  }

  /** The state after one step, or None when the step is not enabled. */
  function Next(s: State, step: Step): Option<State> {
    if step.Spawn? then Some(s.(procs := s.procs + [Proc(true, [])]))
    else if !Alive(s, step.p) then None
    else
      var p, fs := step.p, s.procs[step.p].frames;
      if step.Crash? then Some(s.(procs := s.procs[p := Proc(false, fs)]))
      else if step.Call? then
        if step.frame.AtStart() && (fs == [] || fs[|fs| - 1].InsideAction())
        then Some(s.(procs := s.procs[p := Proc(true, fs + [step.frame])])) else None
      else if fs == [] then None
      else Run(s, step, fs[|fs| - 1])
  }

  /** A stale-lock unlink that removes the file of a process that is alive. */
  predicate Raced(s: State, step: Step) {
    step.UnlinkStale? && Alive(s, step.p) && s.procs[step.p].frames != [] &&
    var fs := s.procs[step.p].frames;
    var owner := OwnerOf(s, Watched(fs[|fs| - 1], true));
    owner.Some? && Alive(s, owner.value)
  }

  // ---------- Safety ----------

  /** What the locks are for. */
  ghost predicate Exclusive(s: State) {
    forall p: Pid, i: nat, q: Pid, j: nat, st: StorePath {:trigger At(s, p, i).Writing(st), At(s, q, j).Writing(st)}
                          {:trigger At(s, p, i).Writing(st), At(s, q, j).MigratingStore(st)}
      | Active(s, p, i) && Active(s, q, j) ::
        && (At(s, p, i).Writing(st) && At(s, q, j).Writing(st) ==> p == q && i == j)
        && !(At(s, p, i).Writing(st) && At(s, q, j).MigratingStore(st))
  }

  ghost predicate OneMigrator(s: State) {
    forall p: Pid, i: nat, q: Pid, j: nat | Active(s, p, i) && Active(s, q, j) ::
      At(s, p, i).HoldsMigration() && At(s, q, j).HoldsMigration() ==> p == q && i == j
  }

  /** Every frame of a live process that believes it holds a lock file owns that file. */
  ghost predicate HoldersOwn(s: State) {
    forall p: Pid, i: nat | Active(s, p, i) ::
      && (forall st :: At(s, p, i).HoldsStore(st) ==> st in s.locks && s.locks[st] == p)
      && (At(s, p, i).HoldsMigration() ==> s.migration == Some(p))
  }

  /** Every lock file of a live process is held by one of its frames. */
  ghost predicate OwnersHold(s: State) {
    && (forall st | st in s.locks :: s.locks[st] < |s.procs|)
    && (s.migration.Some? ==> s.migration.value < |s.procs|)
    && (forall st | st in s.locks && Alive(s, s.locks[st]) ::
          exists i: nat :: Active(s, s.locks[st], i) && At(s, s.locks[st], i).HoldsStore(st))
    && (s.migration.Some? && Alive(s, s.migration.value) ==>
          exists i: nat :: Active(s, s.migration.value, i) && At(s, s.migration.value, i).HoldsMigration())
  }

  /** No two frames of one live process hold the same lock file. */
  ghost predicate HeldOnce(s: State) {
    forall p: Pid, i: nat, j: nat | Active(s, p, i) && Active(s, p, j) && i < j ::
      && (forall st :: !(At(s, p, i).HoldsStore(st) && At(s, p, j).HoldsStore(st)))
      && !(At(s, p, i).HoldsMigration() && At(s, p, j).HoldsMigration())
  }

  /** The Dekker argument: a store lock taken after a migrator cleared the store is always given back. */
  ghost predicate ClearedMeansBackingOff(s: State) {
    forall p: Pid, i: nat, q: Pid, j: nat, st: StorePath | Active(s, p, i) && Active(s, q, j) ::
      At(s, q, j).Cleared(st) && At(s, p, i).HoldsStore(st) ==>
        At(s, p, i).wpc.Recheck? || At(s, p, i).wpc.BackOff?
  }

  ghost predicate Inv(s: State) {
    HoldersOwn(s) && OwnersHold(s) && HeldOnce(s) && ClearedMeansBackingOff(s)
  }

  lemma InvImpliesExclusive(s: State)
    requires Inv(s)
    ensures Exclusive(s) && OneMigrator(s)
  {
    forall p: Pid, i: nat, q: Pid, j: nat, st: StorePath | Active(s, p, i) && Active(s, q, j) && At(s, p, i).Writing(st)
      ensures At(s, q, j).Writing(st) ==> p == q && i == j
      ensures !At(s, q, j).MigratingStore(st)
    {
      assert At(s, p, i).HoldsStore(st);
      assert At(s, q, j).Writing(st) ==> At(s, q, j).HoldsStore(st);
    }
  }

  /** What the running frame `f` of process `p` may do to its stack and to the files in one step. */
  ghost predicate Effect(s: State, t: State, p: Pid, f: Frame, g: Option<Frame>) {
    && Alive(s, p) && s.procs[p].frames != []
    && var k := |s.procs[p].frames| - 1;
    && f == At(s, p, k)
    && t == (if g.Some? then WithTop(s, p, g.value) else WithoutTop(s, p)).(locks := t.locks, migration := t.migration)
    // store lock files
    && (forall st | st in t.locks ::
          || (st in s.locks && t.locks[st] == s.locks[st])
          || (st !in s.locks && t.locks[st] == p && g.Some? && g.value.HoldsStore(st) && g.value.wpc.Recheck?))
    && (forall st | st in s.locks && st !in t.locks ::
          !Alive(s, s.locks[st]) || (f.HoldsStore(st) && !(g.Some? && g.value.HoldsStore(st))))
    && (forall st | f.HoldsStore(st) && !(g.Some? && g.value.HoldsStore(st)) :: st !in t.locks)
    && (g.Some? ==> forall st | g.value.HoldsStore(st) ::
          || (st !in s.locks && st in t.locks && t.locks[st] == p && g.value.wpc.Recheck?)
          || (f.HoldsStore(st) && t.locks == s.locks &&
              (g.value.wpc.BackOff? || (g.value.wpc.InAction? && s.migration.None?) || (!f.wpc.Recheck? && !f.wpc.BackOff?))))
    // the migration lock file
    && (t.migration != s.migration ==>
          || (s.migration.None? && t.migration == Some(p) && g.Some? && g.value.HoldsMigration() && !f.HoldsMigration())
          || (t.migration.None? && !Alive(s, s.migration.value))
          || (t.migration.None? && f.HoldsMigration() && !(g.Some? && g.value.HoldsMigration())))
    && (f.HoldsMigration() && !(g.Some? && g.value.HoldsMigration()) ==> t.migration.None?)
    && (g.Some? && g.value.HoldsMigration() && !f.HoldsMigration() ==> s.migration.None? && t.migration == Some(p))
    && (f.HoldsMigration() && g.Some? && g.value.HoldsMigration() ==> t.migration == s.migration)
    && (g.Some? ==> forall st | g.value.Cleared(st) ::
          g.value.HoldsMigration() && (f.Cleared(st) || (st !in s.locks && t.locks == s.locks)))
  }

  function TopAfter(s: State, step: Step): Option<Frame>
    requires !step.Spawn? && Alive(s, step.p) && s.procs[step.p].frames != [] && Next(s, step).Some?
  {
    var before, after := s.procs[step.p].frames, Next(s, step).value.procs[step.p].frames;
    if |after| == |before| then Some(after[|after| - 1]) else None
  }

  lemma WriterStepHasEffect(s: State, step: Step)
    requires HoldersOwn(s) && step.Proceed? && Next(s, step).Some? && s.procs[step.p].frames != []
    requires At(s, step.p, |s.procs[step.p].frames| - 1).Writer?
    ensures Effect(s, Next(s, step).value, step.p, At(s, step.p, |s.procs[step.p].frames| - 1), TopAfter(s, step))
  {
    var f := At(s, step.p, |s.procs[step.p].frames| - 1);
    assert f.HoldsStore(f.store) ==> f.store in s.locks && s.locks[f.store] == step.p;
  }

  lemma MigratorStepHasEffect(s: State, step: Step)
    requires HoldersOwn(s) && step.Proceed? && Next(s, step).Some? && s.procs[step.p].frames != []
    requires At(s, step.p, |s.procs[step.p].frames| - 1).Migrator?
    ensures Effect(s, Next(s, step).value, step.p, At(s, step.p, |s.procs[step.p].frames| - 1), TopAfter(s, step))
  {
    var f := At(s, step.p, |s.procs[step.p].frames| - 1);
    var g := TopAfter(s, step);
    forall st | g.Some? && g.value.Cleared(st)
      ensures f.Cleared(st) || (st !in s.locks && Next(s, step).value.locks == s.locks)
    {
      if f.mpc.Scan? && f.mpc.next < |f.stores| {
        assert f.stores[..|f.stores|] == f.stores;
        assert f.stores[..f.mpc.next + 1] == f.stores[..f.mpc.next] + [f.stores[f.mpc.next]];
      }
    }
  }

  lemma OtherStepHasEffect(s: State, step: Step)
    requires HoldersOwn(s) && (step.SpotStale? || step.UnlinkStale? || step.GiveUp?)
    requires Next(s, step).Some? && !Raced(s, step)
    ensures Effect(s, Next(s, step).value, step.p, At(s, step.p, |s.procs[step.p].frames| - 1), TopAfter(s, step))
  {
  }

  lemma EffectKeepsHolders(s: State, t: State, p: Pid, f: Frame, g: Option<Frame>)
    requires Inv(s) && Effect(s, t, p, f, g)
    ensures HoldersOwn(t) && HeldOnce(t)
  {
    var k := |s.procs[p].frames| - 1;
    forall q: Pid, i: nat | Active(t, q, i)
      ensures forall st :: At(t, q, i).HoldsStore(st) ==> st in t.locks && t.locks[st] == q
      ensures At(t, q, i).HoldsMigration() ==> t.migration == Some(q)
    {
      if q == p && i == k {
        assert g == Some(At(t, q, i));
      } else {
        assert Active(s, q, i) && At(s, q, i) == At(t, q, i);
        assert q == p ==> i < k;
      }
    }
    forall q: Pid, i: nat, j: nat | Active(t, q, i) && Active(t, q, j) && i < j
      ensures forall st :: !(At(t, q, i).HoldsStore(st) && At(t, q, j).HoldsStore(st))
      ensures !(At(t, q, i).HoldsMigration() && At(t, q, j).HoldsMigration())
    {
      assert Active(s, q, i) && At(s, q, i) == At(t, q, i);
      assert Active(s, q, j) && (At(s, q, j) == At(t, q, j) || (q == p && j == k && g == Some(At(t, q, j))));
    }
  }

  lemma EffectKeepsOwners(s: State, t: State, p: Pid, f: Frame, g: Option<Frame>)
    requires Inv(s) && Effect(s, t, p, f, g)
    ensures OwnersHold(t)
  {
    var k := |s.procs[p].frames| - 1;
    forall st | st in t.locks && Alive(t, t.locks[st])
      ensures exists i: nat :: Active(t, t.locks[st], i) && At(t, t.locks[st], i).HoldsStore(st)
    {
      var q := t.locks[st];
      if st in s.locks {
        var i: nat :| Active(s, q, i) && At(s, q, i).HoldsStore(st);
        assert Active(t, q, i) && At(t, q, i).HoldsStore(st);
      } else {
        assert Active(t, p, k) && At(t, p, k).HoldsStore(st);
      }
    }
    if t.migration.Some? && Alive(t, t.migration.value) {
      var q := t.migration.value;
      if s.migration.Some? {
        var i: nat :| Active(s, q, i) && At(s, q, i).HoldsMigration();
        assert Active(t, q, i) && At(t, q, i).HoldsMigration();
      } else {
        assert Active(t, p, k) && At(t, p, k).HoldsMigration();
      }
    }
  }

  lemma EffectKeepsClearedMeansBackingOff(s: State, t: State, p: Pid, f: Frame, g: Option<Frame>)
    requires Inv(s) && Effect(s, t, p, f, g)
    ensures ClearedMeansBackingOff(t)
  {
    var k := |s.procs[p].frames| - 1;
    forall q: Pid, i: nat, r: Pid, j: nat, st
      | Active(t, q, i) && Active(t, r, j) && At(t, r, j).Cleared(st) && At(t, q, i).HoldsStore(st)
      ensures At(t, q, i).wpc.Recheck? || At(t, q, i).wpc.BackOff?
    {
      assert Active(s, q, i) && Active(s, r, j);
      assert At(s, r, j) == At(t, r, j) || (r == p && j == k && g == Some(At(t, r, j)));
      assert At(s, q, i) == At(t, q, i) || (q == p && i == k && g == Some(At(t, q, i)));
      assert At(t, r, j).HoldsMigration();
    }
  }

  /** Every step that is not a raced unlink keeps the invariant. */
  lemma NextKeepsInv(s: State, step: Step)
    requires Inv(s) && Next(s, step).Some? && !Raced(s, step)
    ensures Inv(Next(s, step).value)
  {
    var t := Next(s, step).value;
    if step.Spawn? || step.Crash? || step.Call? {
      StackStepKeepsInv(s, step);
    } else {
      var f, g := At(s, step.p, |s.procs[step.p].frames| - 1), TopAfter(s, step);
      if !step.Proceed? {
        OtherStepHasEffect(s, step);
      } else if f.Writer? {
        WriterStepHasEffect(s, step);
      } else {
        MigratorStepHasEffect(s, step);
      }
      EffectKeepsHolders(s, t, step.p, f, g);
      EffectKeepsOwners(s, t, step.p, f, g);
      EffectKeepsClearedMeansBackingOff(s, t, step.p, f, g);
    }
  }

  lemma StackStepKeepsInv(s: State, step: Step)
    requires Inv(s) && Next(s, step).Some? && (step.Spawn? || step.Crash? || step.Call?)
    ensures Inv(Next(s, step).value)
  {
    var t := Next(s, step).value;
    assert forall q: Pid, i: nat | Active(t, q, i) ::
      (Active(s, q, i) && At(s, q, i) == At(t, q, i)) ||
      (!At(t, q, i).HoldsMigration() && forall st :: !At(t, q, i).HoldsStore(st) && !At(t, q, i).Cleared(st));
    StackStepKeepsOwners(s, step);
    assert HoldersOwn(t) && HeldOnce(t) && ClearedMeansBackingOff(t);
  }

  lemma StackStepKeepsOwners(s: State, step: Step)
    requires Inv(s) && Next(s, step).Some? && (step.Spawn? || step.Crash? || step.Call?)
    ensures OwnersHold(Next(s, step).value)
  {
    var t := Next(s, step).value;
    forall st | st in t.locks && Alive(t, t.locks[st])
      ensures exists i: nat :: Active(t, t.locks[st], i) && At(t, t.locks[st], i).HoldsStore(st)
    {
      var i: nat :| Active(s, t.locks[st], i) && At(s, t.locks[st], i).HoldsStore(st);
      assert Active(t, t.locks[st], i) && At(t, t.locks[st], i).HoldsStore(st);
    }
    if t.migration.Some? && Alive(t, t.migration.value) {
      var i: nat :| Active(s, t.migration.value, i) && At(s, t.migration.value, i).HoldsMigration();
      assert Active(t, t.migration.value, i) && At(t, t.migration.value, i).HoldsMigration();
    }
  }

  // ---------- Whole runs ----------

  /** The state after `steps`, or None when one of them is not enabled. */
  function After(s: State, steps: seq<Step>): Option<State>
    decreases |steps|
  {
    if steps == [] then Some(s)
    else
      var t := Next(s, steps[0]);
      if t.None? then None else After(t.value, steps[1..])
  }

  /** No stale-lock unlink of the run removes the file of a live process. */
  predicate Clean(s: State, steps: seq<Step>)
    decreases |steps|
  {
    steps == [] ||
    (!Raced(s, steps[0]) && (Next(s, steps[0]).Some? ==> Clean(Next(s, steps[0]).value, steps[1..])))
  }

  lemma {:induction false} CleanRunKeepsInv(s: State, steps: seq<Step>)
    requires Inv(s) && After(s, steps).Some? && Clean(s, steps)
    ensures Inv(After(s, steps).value)
    decreases |steps|
  {
    if steps != [] {
      NextKeepsInv(s, steps[0]);
      CleanRunKeepsInv(Next(s, steps[0]).value, steps[1..]);
    }
  }

  /** Main theorem: in every interleaving of any number of writers, migrators and installers, crashes
      included, the actions exclude each other, as long as stale unlinks hit dead owners only. */
  lemma ActionsExcludeEachOther(steps: seq<Step>)
    requires After(Init, steps).Some? && Clean(Init, steps)
    ensures Exclusive(After(Init, steps).value) && OneMigrator(After(Init, steps).value)
  {
    CleanRunKeepsInv(Init, steps);
    InvImpliesExclusive(After(Init, steps).value);
  }

  lemma RacedUnlinkOrphansAHolder(s: State, step: Step)
    requires Inv(s) && Next(s, step).Some? && Raced(s, step)
    ensures !HoldersOwn(Next(s, step).value)
  {
    var t := Next(s, step).value;
    var k := |s.procs[step.p].frames| - 1;
    var file := Watched(At(s, step.p, k), true);
    var q := OwnerOf(s, file).value;
    if file.MigrationFile? {
      var i: nat :| Active(s, q, i) && At(s, q, i).HoldsMigration();
      assert q == step.p ==> i != k;
      assert Active(t, q, i) && At(t, q, i) == At(s, q, i);
    } else {
      var i: nat :| Active(s, q, i) && At(s, q, i).HoldsStore(file.path);
      assert q == step.p ==> i != k;
      assert Active(t, q, i) && At(t, q, i) == At(s, q, i);
    }
  }

  /** The condition is exact: after a clean run, the next step leaves some live holder without its
      lock file if and only if it is a raced unlink. */
  lemma OnlyRacesTakeLocksAway(steps: seq<Step>, last: Step)
    requires After(Init, steps).Some? && Clean(Init, steps)
    requires Next(After(Init, steps).value, last).Some?
    ensures HoldersOwn(Next(After(Init, steps).value, last).value) <==> !Raced(After(Init, steps).value, last)
  {
    CleanRunKeepsInv(Init, steps);
    if Raced(After(Init, steps).value, last) {
      RacedUnlinkOrphansAHolder(After(Init, steps).value, last);
    } else {
      NextKeepsInv(After(Init, steps).value, last);
    }
  }

  lemma {:induction false} Extend(s: State, steps: seq<Step>, last: Step)
    requires After(s, steps).Some?
    ensures After(s, steps + [last]) == Next(After(s, steps).value, last)
    decreases |steps|
  {
    if steps == [] {
      assert [] + [last] == [last];
    } else {
      assert (steps + [last])[1..] == steps[1..] + [last];
      Extend(Next(s, steps[0]).value, steps[1..], last);
    }
  }

  // A run that races: process 0 dies holding a store lock, 1 and 2 both decide to break it.

  const Start := Writer("store", AwaitMigration(false))
  const Dead := Proc(false, [Writer("store", Recheck)])
  const Breaker := Proc(true, [Writer("store", CreateLock(true))])
  const Inside := Proc(true, [Writer("store", InAction)])
  const Idle := Proc(true, [])
  const Waiting := Proc(true, [Start])
  const Creating := Proc(true, [Writer("store", CreateLock(false))])
  const Holding := Proc(true, [Writer("store", Recheck)])

  lemma Extended(steps: seq<Step>, last: Step, procs: seq<Proc>, locks: map<StorePath, Pid>)
    returns (longer: seq<Step>)
    requires After(Init, steps).Some? && Next(After(Init, steps).value, last).Some?
    requires var t := Next(After(Init, steps).value, last).value;
             && |t.procs| == |procs| && t.locks == locks && t.migration == None
             && forall i | 0 <= i < |procs| ::
                  t.procs[i].alive == procs[i].alive && t.procs[i].frames == procs[i].frames
    ensures longer == steps + [last] && After(Init, longer) == Some(State(procs, locks, None))
  {
    longer := steps + [last];
    Extend(Init, steps, last);
    var t := Next(After(Init, steps).value, last).value;
    assert forall i | 0 <= i < |procs| :: t.procs[i] == procs[i];
    assert t.procs == procs;
  }

  lemma LockAbandoned() returns (steps: seq<Step>)
    ensures After(Init, steps) == Some(State([Dead, Idle, Idle], map["store" := 0], None))
  {
    steps := [];
    steps := Extended(steps, Spawn, [Idle], map[]);
    steps := Extended(steps, Spawn, [Idle, Idle], map[]);
    steps := Extended(steps, Spawn, [Idle, Idle, Idle], map[]);
    steps := Extended(steps, Call(0, Start), [Waiting, Idle, Idle], map[]);
    steps := Extended(steps, Proceed(0), [Creating, Idle, Idle], map[]);
    steps := Extended(steps, Proceed(0), [Holding, Idle, Idle], map["store" := 0]);
    steps := Extended(steps, Crash(0), [Dead, Idle, Idle], map["store" := 0]);
  }

  lemma BreakersDecided() returns (steps: seq<Step>)
    ensures After(Init, steps) == Some(State([Dead, Breaker, Breaker], map["store" := 0], None))
  {
    steps := LockAbandoned();
    steps := Extended(steps, Call(1, Start), [Dead, Waiting, Idle], map["store" := 0]);
    steps := Extended(steps, Proceed(1), [Dead, Creating, Idle], map["store" := 0]);
    steps := Extended(steps, SpotStale(1), [Dead, Breaker, Idle], map["store" := 0]);
    steps := Extended(steps, Call(2, Start), [Dead, Breaker, Waiting], map["store" := 0]);
    steps := Extended(steps, Proceed(2), [Dead, Breaker, Creating], map["store" := 0]);
    steps := Extended(steps, SpotStale(2), [Dead, Breaker, Breaker], map["store" := 0]);
  }

  lemma FasterBreakerUnlinked() returns (steps: seq<Step>)
    ensures After(Init, steps) == Some(State([Dead, Creating, Breaker], map[], None))
  {
    steps := BreakersDecided();
    steps := Extended(steps, UnlinkStale(1), [Dead, Waiting, Breaker], map[]);
    steps := Extended(steps, Proceed(1), [Dead, Creating, Breaker], map[]);
  }

  lemma FasterBreakerInside() returns (steps: seq<Step>)
    ensures After(Init, steps) == Some(State([Dead, Inside, Breaker], map["store" := 1], None))
  {
    steps := FasterBreakerUnlinked();
    steps := Extended(steps, Proceed(1), [Dead, Holding, Breaker], map["store" := 1]);
    steps := Extended(steps, Proceed(1), [Dead, Inside, Breaker], map["store" := 1]);
  }

  lemma SlowerBreakerUnlinked() returns (steps: seq<Step>)
    ensures After(Init, steps) == Some(State([Dead, Inside, Creating], map[], None))
  {
    steps := FasterBreakerInside();
    steps := Extended(steps, UnlinkStale(2), [Dead, Inside, Waiting], map[]);
    steps := Extended(steps, Proceed(2), [Dead, Inside, Creating], map[]);
  }

  /** Without the condition exclusion fails: the slower unlink removes the lock which the faster
      process has created meanwhile, and both writers end up inside the same store. */
  lemma RacedUnlinkBreaksExclusion() returns (steps: seq<Step>)
    ensures After(Init, steps).Some? && !Exclusive(After(Init, steps).value)
  {
    steps := SlowerBreakerUnlinked();
    steps := Extended(steps, Proceed(2), [Dead, Inside, Holding], map["store" := 2]);
    steps := Extended(steps, Proceed(2), [Dead, Inside, Inside], map["store" := 2]);
    var s := After(Init, steps).value;
    assert At(s, 1, 0).Writing("store") && At(s, 2, 0).Writing("store");
  }

  // Every raced unlink that orphans a process inside its action lets a second one in.

  /** Process n is new and has one call; process q is as it was; whoever else holds the two files is dead. */
  ghost predicate Scene(s: State, t: State, q: Pid, n: Pid, st: StorePath, pc: WriterPc) {
    && |t.procs| == n + 1 && q < n && n == |s.procs| && Alive(s, q)
    && t.procs[q] == s.procs[q] && t.procs[n] == Proc(true, [Writer(st, pc)])
    && (t.migration.Some? ==> !Alive(t, t.migration.value))
    && (st in t.locks ==> if Owns(pc) then t.locks[st] == n else !Alive(t, t.locks[st]))
  }

  predicate Owns(pc: WriterPc) { pc.Recheck? || pc.InAction? }

  /** Whoever holds the file is not q, and dies. */
  lemma Buried(s: State, more: seq<Step>, t: State, q: Pid, file: LockFile) returns (longer: seq<Step>, u: State)
    requires After(s, more) == Some(t) && q < |t.procs| && OwnerOf(t, file) != Some(q)
    ensures After(s, longer) == Some(u) && u.locks == t.locks && u.migration == t.migration && |u.procs| == |t.procs|
    ensures u.procs[q] == t.procs[q] && (OwnerOf(u, file).Some? ==> !Alive(u, OwnerOf(u, file).value))
    ensures forall p | 0 <= p < |t.procs| && !t.procs[p].alive :: !u.procs[p].alive
  {
    longer, u := more, t;
    var owner := OwnerOf(t, file);
    if owner.Some? && Alive(t, owner.value) {
      Extend(s, more, Crash(owner.value));
      longer, u := more + [Crash(owner.value)], Next(t, Crash(owner.value)).value;
    }
  }

  lemma SetScene(s: State, q: Pid, st: StorePath) returns (more: seq<Step>, t: State)
    requires Alive(s, q) && s.migration != Some(q) && (st in s.locks ==> s.locks[st] != q)
    requires (s.migration.Some? ==> s.migration.value < |s.procs|) && (st in s.locks ==> s.locks[st] < |s.procs|)
    ensures After(s, more) == Some(t) && Scene(s, t, q, |s.procs|, st, AwaitMigration(false))
  {
    var n, call := |s.procs|, Writer(st, AwaitMigration(false));
    assert After(s, []) == Some(s);
    var a, u := Buried(s, [], s, q, MigrationFile);
    var b, v := Buried(s, a, u, q, StoreFile(st));
    Extend(s, b, Spawn);
    var w := Next(v, Spawn).value;
    Extend(s, b + [Spawn], Call(n, call));
    more, t := b + [Spawn] + [Call(n, call)], Next(w, Call(n, call)).value;
  }

  lemma Alone(t: State, n: Pid, frame: Frame, next: Frame)
    requires n < |t.procs| && t.procs[n] == Proc(true, [frame])
    ensures WithTop(t, n, next) == t.(procs := t.procs[n := Proc(true, [next])])
  {
    assert [frame][..0] + [next] == [next];
  }

  lemma Goes(s: State, more: seq<Step>, t: State, q: Pid, n: Pid, st: StorePath, pc: WriterPc, step: Step, next: WriterPc)
    returns (longer: seq<Step>, u: State)
    requires After(s, more) == Some(t) && Scene(s, t, q, n, st, pc) && !step.Spawn? && step.p == n
    requires Next(t, step).Some? && Next(t, step).value.procs == t.procs[n := Proc(true, [Writer(st, next)])]
    requires Next(t, step).value.migration in {t.migration, None}
    requires var locks := Next(t, step).value.locks;
             st in locks ==> if Owns(next) then locks[st] == n else st in t.locks && locks[st] == t.locks[st] && !Owns(pc)
    ensures After(s, longer) == Some(u) && Next(t, step) == Some(u) && Scene(s, u, q, n, st, next)
  {
    Extend(s, more, step);
    longer, u := more + [step], Next(t, step).value;
  }

  /** The newcomer breaks the migration lock, if there is one, and comes to the store. */
  lemma PassesMigration(s: State, more: seq<Step>, t: State, q: Pid, n: Pid, st: StorePath)
    returns (longer: seq<Step>, u: State)
    requires After(s, more) == Some(t) && Scene(s, t, q, n, st, AwaitMigration(false))
    ensures After(s, longer) == Some(u) && Scene(s, u, q, n, st, CreateLock(false)) && u.migration.None? && u.locks == t.locks
  {
    longer, u := more, t;
    if t.migration.Some? {
      Alone(u, n, Writer(st, AwaitMigration(false)), Writer(st, AwaitMigration(true)));
      longer, u := Goes(s, longer, u, q, n, st, AwaitMigration(false), SpotStale(n), AwaitMigration(true));
      Alone(Unlink(u, MigrationFile), n, Writer(st, AwaitMigration(true)), Writer(st, AwaitMigration(false)));
      longer, u := Goes(s, longer, u, q, n, st, AwaitMigration(true), UnlinkStale(n), AwaitMigration(false));
    }
    Alone(u, n, Writer(st, AwaitMigration(false)), Writer(st, CreateLock(false)));
    longer, u := Goes(s, longer, u, q, n, st, AwaitMigration(false), Proceed(n), CreateLock(false));
  }

  lemma BreaksStore(s: State, more: seq<Step>, t: State, q: Pid, n: Pid, st: StorePath)
    returns (longer: seq<Step>, u: State)
    requires After(s, more) == Some(t) && Scene(s, t, q, n, st, CreateLock(false)) && t.migration.None?
    ensures After(s, longer) == Some(u) && Scene(s, u, q, n, st, CreateLock(false)) && u.migration.None? && st !in u.locks
  {
    longer, u := more, t;
    if st in t.locks {
      Alone(u, n, Writer(st, CreateLock(false)), Writer(st, CreateLock(true)));
      longer, u := Goes(s, longer, u, q, n, st, CreateLock(false), SpotStale(n), CreateLock(true));
      Alone(Unlink(u, StoreFile(st)), n, Writer(st, CreateLock(true)), Writer(st, AwaitMigration(false)));
      longer, u := Goes(s, longer, u, q, n, st, CreateLock(true), UnlinkStale(n), AwaitMigration(false));
      Alone(u, n, Writer(st, AwaitMigration(false)), Writer(st, CreateLock(false)));
      longer, u := Goes(s, longer, u, q, n, st, AwaitMigration(false), Proceed(n), CreateLock(false));
    }
  }

  /** A process without a lock file of its own keeps nobody out. */
  lemma SecondComesIn(s: State, q: Pid, st: StorePath) returns (more: seq<Step>, t: State)
    requires Alive(s, q) && s.migration != Some(q) && (st in s.locks ==> s.locks[st] != q)
    requires (s.migration.Some? ==> s.migration.value < |s.procs|) && (st in s.locks ==> s.locks[st] < |s.procs|)
    ensures After(s, more) == Some(t) && q < |t.procs| && t.procs[q] == s.procs[q]
    ensures q < |s.procs| && Active(t, |s.procs|, 0) && At(t, |s.procs|, 0).Writing(st)
  {
    var n := |s.procs|;
    more, t := SetScene(s, q, st);
    more, t := PassesMigration(s, more, t, q, n, st);
    more, t := BreaksStore(s, more, t, q, n, st);
    Alone(t.(locks := t.locks[st := n]), n, Writer(st, CreateLock(false)), Writer(st, Recheck));
    more, t := Goes(s, more, t, q, n, st, CreateLock(false), Proceed(n), Recheck);
    Alone(t, n, Writer(st, Recheck), Writer(st, InAction));
    more, t := Goes(s, more, t, q, n, st, Recheck, Proceed(n), InAction);
  }

  lemma RacedUnlinkKeeps(s: State, step: Step)
    requires Inv(s) && Next(s, step).Some? && Raced(s, step)
    ensures var t, file := Next(s, step).value, Watched(At(s, step.p, |s.procs[step.p].frames| - 1), true);
            && |t.procs| == |s.procs| && OwnerOf(t, file).None?
            && (t.migration == s.migration || file.MigrationFile?)
            && (forall st | st in t.locks :: st in s.locks && t.locks[st] == s.locks[st])
            && (forall q, i | Active(s, q, i) && At(s, q, i).InsideAction() :: Active(t, q, i) && At(t, q, i) == At(s, q, i))
  {
  }

  /** Main theorem: a raced unlink that takes away the file behind which a process is inside a store, as its
      writer or as its migrator, can be followed by steps that bring a second process into that store. */
  lemma RacedUnlinkAdmitsSecond(s: State, step: Step, q: Pid, i: nat, st: StorePath) returns (more: seq<Step>)
    requires Inv(s) && Next(s, step).Some? && Raced(s, step) && Active(s, q, i)
    requires var file := Watched(At(s, step.p, |s.procs[step.p].frames| - 1), true);
             || (file == StoreFile(st) && At(s, q, i).Writing(st) && s.migration != Some(q))
             || (file == MigrationFile && At(s, q, i).MigratingStore(st) && (st in s.locks ==> s.locks[st] != q))
    ensures After(s, [step] + more).Some? && !Exclusive(After(s, [step] + more).value)
  {
    var t := Next(s, step).value;
    RacedUnlinkKeeps(s, step);
    assert Alive(t, q) && At(t, q, i) == At(s, q, i) && (At(s, q, i).MigratingStore(st) ==> s.migration == Some(q));
    var u: State;
    more, u := SecondComesIn(t, q, st);
    assert ([step] + more)[1..] == more;
    assert At(u, q, i) == At(t, q, i) && At(u, |t.procs|, 0).Writing(st);
  }
}
