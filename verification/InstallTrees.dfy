/**
 The disk as a map from paths to nodes, and what one manifest entry does to it
 (scripts/activate-major-user-state.py).
 */
module InstallTrees {
  import opened Wrappers

  // ---------- Paths and trees ----------

  /** The names the installer makes up carry a transaction id that nothing else on the disk carries. */
  datatype Name = Plain(text: string) | Backup(text: string, entry: nat) | Temp(text: string, entry: nat)

  type Path = seq<Name>

  datatype Node = Dir | Leaf(content: string)

  type Tree = map<Path, Node>

  predicate Under(p: Path, root: Path) { root <= p }

  function At(fs: Tree, p: Path): Option<Node> { if p in fs then Some(fs[p]) else None }

  predicate Clean(p: Path) { forall n | n in p :: n.Plain? }

  /** Everything on a path above a node is a directory. */
  ghost predicate Closed(fs: Tree) {
    forall p, q | p in fs && Under(p, q) && p != q :: q in fs && fs[q] == Dir
  }

  ghost predicate Disk(fs: Tree) { Closed(fs) && At(fs, []) == Some(Dir) }

  /** remove_path */
  function Remove(fs: Tree, root: Path): Tree { map p | p in fs && !Under(p, root) :: fs[p] }

  function Sub(fs: Tree, root: Path): Tree {
    map r | r in (set p | p in fs && Under(p, root) :: p[|root|..]) && root + r in fs :: fs[root + r]
  }

  function Graft(fs: Tree, root: Path, tree: Tree): Tree {
    fs + map p | p in (set r | r in tree :: root + r) && |root| <= |p| && p[|root|..] in tree :: tree[p[|root|..]]
  }

  /** os.replace to a name that is not in use */
  function Move(fs: Tree, from: Path, to: Path): Tree { Graft(Remove(fs, from), to, Sub(fs, from)) }

  function Dirs(paths: set<Path>): Tree { map p | p in paths :: Dir }

  function Set(paths: seq<Path>): set<Path> { set p | p in paths }

  lemma Joined(root: Path, r: Path)
    ensures Under(root + r, root) && (root + r)[|root|..] == r
  {
  }

  lemma Split(p: Path, root: Path)
    requires Under(p, root)
    ensures p == root + p[|root|..]
  {
  }

  lemma AtSub(fs: Tree, root: Path, r: Path)
    ensures At(Sub(fs, root), r) == At(fs, root + r)
  {
    Joined(root, r);
  }

  lemma AtGraft(fs: Tree, root: Path, tree: Tree, p: Path)
    ensures At(Graft(fs, root, tree), p) ==
            if Under(p, root) && p[|root|..] in tree then Some(tree[p[|root|..]]) else At(fs, p)
  {
    if Under(p, root) { Split(p, root); }
    forall r | r in tree ensures Under(root + r, root) && (root + r)[|root|..] == r { Joined(root, r); }
  }

  lemma AtMove(fs: Tree, from: Path, to: Path, p: Path)
    requires Under(p, to) ==> p !in Remove(fs, from)
    ensures At(Move(fs, from, to), p) ==
            if Under(p, to) then At(fs, from + p[|to|..]) else if Under(p, from) then None else At(fs, p)
  {
    AtGraft(Remove(fs, from), to, Sub(fs, from), p);
    if Under(p, to) { AtSub(fs, from, p[|to|..]); }
  }

  lemma SameTrees(f: Tree, g: Tree)
    requires forall p :: At(f, p) == At(g, p)
    ensures f == g
  {
    forall p ensures (p in f <==> p in g) && (p in f ==> f[p] == g[p]) { assert At(f, p) == At(g, p); }
  }

  lemma Comparable(p: Path, a: Path, b: Path)
    requires Under(p, a) && Under(p, b) && |a| <= |b|
    ensures Under(b, a)
  {
    assert a == p[..|a|] && b == p[..|b|];
  }

  // ---------- One entry ----------

  function Parent(p: Path): Path { if p == [] then [] else p[..|p| - 1] }

  /** The directories that mkdir will have to make, topmost first. */
  function Missing(fs: Tree, p: Path): seq<Path>
    decreases |p|
  {
    if p in fs || p == [] then [] else Missing(fs, Parent(p)) + [p]
  }

  function Anchor(fs: Tree, p: Path): Path
    decreases |p|
  {
    if p in fs || p == [] then p else Anchor(fs, Parent(p))
  }

  /** The parents cannot be made because a file is in the way, or the target is the root itself. */
  predicate Blocked(fs: Tree, target: Path) {
    target == [] || At(fs, Anchor(fs, Parent(target))) != Some(Dir)
  }

  function Made(fs: Tree, target: Path): Tree { fs + Dirs(Set(Missing(fs, Parent(target)))) }

  function BackupOf(target: Path, i: nat): Path
    requires target != []
  {
    Parent(target) + [Backup(target[|target| - 1].text, i)]
  }

  function TempOf(target: Path, i: nat): Path
    requires target != []
  {
    Parent(target) + [Temp(target[|target| - 1].text, i)]
  }

  datatype Touch = Touch(target: Path, backup: Option<Path>)

  function TouchOf(fs: Tree, target: Path, i: nat): Touch
    requires target != []
  {
    Touch(target, if target in fs then Some(BackupOf(target, i)) else None)
  }

  function Aside(fs: Tree, touch: Touch): Tree {
    if touch.backup.Some? then Move(fs, touch.target, touch.backup.value) else fs
  }

  function Placed(fs: Tree, target: Path, source: Option<Tree>): Tree {
    if source.Some? then Graft(fs, target, source.value) else fs
  }

  /** One turn of the rollback's first loop. */
  function Undo(fs: Tree, touch: Touch): Tree {
    var r := Remove(fs, touch.target);
    if touch.backup.Some? && touch.backup.value in r then Move(r, touch.backup.value, touch.target) else r
  }

  /** No name on the path is that of a backup. */
  predicate Unsaved(p: Path) { forall n | n in p :: !n.Backup? }

  predicate NotNamed(p: Path, i: nat) { forall n | n in p :: n.Plain? || n.entry < i }

  /** No name on the disk was made up for entry i or a later one. */
  predicate NotYet(fs: Tree, i: nat) { forall p | p in fs :: NotNamed(p, i) }

  lemma {:induction false} MissingIs(fs: Tree, p: Path, q: Path)
    requires Disk(fs)
    ensures q in Missing(fs, p) <==> Under(p, q) && q !in fs
    decreases |p|
  {
    if p !in fs && p != [] {
      MissingIs(fs, Parent(p), q);
      assert Under(p, q) && q != p ==> Under(Parent(p), q);
      assert Under(Parent(p), q) ==> Under(p, q);
    } else if Under(p, q) && p != q {
      assert q in fs;
    }
  }

  lemma {:induction false} AnchorIs(fs: Tree, p: Path)
    requires Disk(fs)
    ensures Anchor(fs, p) in fs && Under(p, Anchor(fs, p))
    ensures forall q | Under(p, q) && |q| > |Anchor(fs, p)| :: q !in fs
    decreases |p|
  {
    if p !in fs && p != [] {
      AnchorIs(fs, Parent(p));
      forall q | Under(p, q) && |q| > |Anchor(fs, p)| ensures q !in fs {
        if q != p { assert Under(Parent(p), q); }
      }
    } else {
      assert At(fs, []) == Some(Dir);
    }
  }

  lemma BackupIsNew(fs: Tree, target: Path, i: nat, p: Path)
    requires target != [] && NotYet(fs, i) && Under(p, BackupOf(target, i))
    ensures p !in fs
  {
    assert BackupOf(target, i)[|target| - 1] in p;
  }

  lemma Apart(target: Path, i: nat)
    requires target != [] && Clean(target)
    ensures !Under(target, BackupOf(target, i)) && !Under(BackupOf(target, i), target)
    ensures !Under(target, TempOf(target, i)) && !Under(TempOf(target, i), target)
  {
    assert target[|target| - 1] in target;
  }

  lemma AtRemove(fs: Tree, root: Path, p: Path)
    ensures At(Remove(fs, root), p) == if Under(p, root) then None else At(fs, p)
  {
  }

  lemma AtPlaced(fs: Tree, target: Path, source: Option<Tree>, p: Path)
    ensures At(Placed(fs, target, source), p) ==
            if source.Some? && Under(p, target) && p[|target|..] in source.value
            then At(source.value, p[|target|..]) else At(fs, p)
  {
    if source.Some? { AtGraft(fs, target, source.value, p); }
  }

  lemma BackupLength(target: Path, i: nat)
    requires target != []
    ensures |BackupOf(target, i)| == |target| == |TempOf(target, i)|
  {
  }

  lemma NothingUnder(g: Tree, target: Path, p: Path)
    requires Closed(g) && target !in g && Under(p, target)
    ensures At(g, p) == None
  {
  }

  lemma AtAside(g: Tree, target: Path, i: nat, p: Path)
    requires NotYet(g, i) && target != [] && Clean(target)
    ensures At(Aside(g, TouchOf(g, target, i)), p) ==
            if target !in g then At(g, p)
            else if Under(p, BackupOf(target, i)) then At(g, target + p[|target|..])
            else if Under(p, target) then None else At(g, p)
  {
    hide At, Move, Remove, BackupOf, NotYet;
    if target in g {
      var b := BackupOf(target, i);
      BackupLength(target, i);
      if Under(p, b) {
        BackupIsNew(g, target, i, p);
        AtRemove(g, target, p);
        NotIn(g, p);
        NotIn(Remove(g, target), p);
      }
      AtMove(g, target, b, p);
    }
  }

  lemma NotIn(fs: Tree, p: Path)
    ensures At(fs, p) == None <==> p !in fs
  {
  }

  lemma AtCleared(g: Tree, target: Path, i: nat, source: Option<Tree>, p: Path)
    requires NotYet(g, i) && target != [] && Clean(target)
    ensures At(Remove(Placed(Aside(g, TouchOf(g, target, i)), target, source), target), p) ==
            if Under(p, target) then None
            else if target in g && Under(p, BackupOf(target, i)) then At(g, target + p[|target|..])
            else At(g, p)
  {
    hide At, Remove, BackupOf, NotYet, Aside, Placed;
    AtRemove(Placed(Aside(g, TouchOf(g, target, i)), target, source), target, p);
    if !Under(p, target) {
      AtPlaced(Aside(g, TouchOf(g, target, i)), target, source, p);
      AtAside(g, target, i, p);
    }
  }

  /** Undoing an entry gives back the disk as it was when its parents had been made. */
  lemma StepUndone(g: Tree, target: Path, i: nat, source: Option<Tree>, p: Path)
    requires Closed(g) && NotYet(g, i) && target != [] && Clean(target)
    ensures At(Undo(Placed(Aside(g, TouchOf(g, target, i)), target, source), TouchOf(g, target, i)), p) == At(g, p)
  {
    hide Move, Remove, BackupOf, NotYet, Closed, Aside, Placed;
    var r := Remove(Placed(Aside(g, TouchOf(g, target, i)), target, source), target);
    AtCleared(g, target, i, source, p);
    if target in g {
      var b := BackupOf(target, i);
      BackupLength(target, i);
      Apart(target, i);
      AtCleared(g, target, i, source, b);
      assert b[|target|..] == [] && target + [] == target && b in r;
      AtRemove(r, b, p);
      AtMove(r, b, target, p);
      if Under(p, target) {
        Split(p, target);
        Joined(b, p[|target|..]);
        var q := b + p[|target|..];
        assert !Under(q, target) by { if Under(q, target) { Comparable(q, target, b); } }
        AtCleared(g, target, i, source, q);
      } else if Under(p, b) {
        BackupIsNew(g, target, i, p);
      }
    } else if Under(p, target) {
      NothingUnder(g, target, p);
    }
  }

  lemma CleanPrefix(p: Path, q: Path)
    requires Clean(p) && Under(p, q)
    ensures Clean(q) && Unsaved(q)
  {
    assert forall n | n in q :: n in p;
  }

  lemma UnderParent(p: Path, q: Path)
    requires Under(Parent(p), q)
    ensures Under(p, q)
  {
  }

  lemma CleanOnDisk(fs: Tree, p: Path)
    requires NotYet(fs, 0) && p in fs
    ensures Clean(p)
  {
  }

  lemma NotRoot(fs: Tree, target: Path)
    requires !Blocked(fs, target)
    ensures target != []
  {
  }
}
