/**
 The digest of the source tree and the digest of its filtered snapshot serialise the same thing
 (src/execution/workspace-transfer.ts).
 */
module SnapshotDigest {
  import opened Wrappers
  import opened WorkspaceTree

  // ---------- The snapshot ----------

  ghost predicate AllUnique(children: seq<Entry>) {
    && Unique(children)
    && forall i | 0 <= i < |children| && children[i].node.Dir? :: AllUnique(children[i].node.children)
  }

  /** What cpSync makes of a tree: the same names, in whatever order the new directory lists them. Files
      become single-linked copies, links are copied verbatim, and other objects cannot be copied. */
  ghost predicate Copied(src: seq<Entry>, dst: seq<Entry>)
    decreases src
  {
    && Unique(dst)
    && (forall n :: Names(src, n) <==> Names(dst, n))
    && (forall i, j | 0 <= i < |src| && 0 <= j < |dst| && src[i].name == dst[j].name ::
          CopiedNode(src[i].node, dst[j].node))
  }

  ghost predicate CopiedNode(a: Node, b: Node)
    decreases a
  {
    match a
    case Dir(children) => b.Dir? && Copied(children, b.children)
    case File(mode, content, _) => b.File? && b.mode % 0x200 == mode % 0x200 && b.content == content && b.links == 1
    case Link(target) => b == Link(target)
    case Other => false
  }

  /** Equal position by position, except for what a copy does not carry over. */
  ghost predicate Same(a: seq<Entry>, b: seq<Entry>)
    decreases a
  {
    && |a| == |b|
    && forall i | 0 <= i < |a| :: a[i].name == b[i].name && SameNode(a[i].node, b[i].node)
  }

  ghost predicate SameNode(a: Node, b: Node)
    decreases a
  {
    match a
    case Dir(children) => b.Dir? && Same(children, b.children)
    case File(mode, content, _) => b.File? && b.mode % 0x200 == mode % 0x200 && b.content == content
    case Link(target) => b == Link(target)
    case Other => b.Other?
  }

  lemma SourceNames(src: seq<Entry>, dst: seq<Entry>, le: Order, n: string)
    requires Total(le) && Copied(Prune(src), dst)
    ensures Names(Prune(Arrange(src, le)), n) <==> Names(Arrange(dst, le), n)
  {
    PrunedArrangedNames(src, le, n);
    ArrangedNames(dst, le, n);
  }

  lemma ArrangedNames(children: seq<Entry>, le: Order, n: string)
    requires Total(le)
    ensures Names(Arrange(children, le), n) <==> Names(children, n)
  {
    hide Arrange;
    forall x ensures x in Arrange(children, le) <==>
                     exists e :: e in children && x == Entry(e.name, ArrangeNode(e.node, le))
    {
      ArrangeMembers(children, le, x);
    }
    if e :| e in children && e.name == n {
      assert Entry(e.name, ArrangeNode(e.node, le)) in Arrange(children, le);
    }
  }

  lemma PrunedNames(children: seq<Entry>, n: string)
    ensures Names(Prune(children), n) <==> Names(children, n) && !ExcludedName(n)
  {
    hide Prune, ExcludedName;
    forall x ensures x in Prune(children) <==>
                     exists e :: e in children && !ExcludedName(e.name) && x == Entry(e.name, PruneNode(e.node))
    {
      PruneMembers(children, x);
    }
    if !ExcludedName(n) {
      if e :| e in children && e.name == n {
        assert Entry(e.name, PruneNode(e.node)) in Prune(children);
      }
    }
  }

  lemma PrunedArrangedNames(children: seq<Entry>, le: Order, n: string)
    requires Total(le)
    ensures Names(Prune(Arrange(children, le)), n) <==> Names(Prune(children), n)
  {
    PrunedNames(Arrange(children, le), n);
    ArrangedNames(children, le, n);
    PrunedNames(children, n);
  }

  lemma FromSource(src: seq<Entry>, le: Order, i: nat) returns (k: nat)
    requires Total(le) && i < |Prune(Arrange(src, le))|
    ensures k < |src| && !ExcludedName(src[k].name)
    ensures Prune(Arrange(src, le))[i] == Entry(src[k].name, PruneNode(ArrangeNode(src[k].node, le)))
  {
    hide Prune, Arrange, ExcludedName;
    var x := Prune(Arrange(src, le))[i];
    PruneMembers(Arrange(src, le), x);
    var y :| y in Arrange(src, le) && !ExcludedName(y.name) && x == Entry(y.name, PruneNode(y.node));
    ArrangeMembers(src, le, y);
    var e :| e in src && y == Entry(e.name, ArrangeNode(e.node, le));
    k :| 0 <= k < |src| && src[k] == e;
  }

  lemma FromSnapshot(dst: seq<Entry>, le: Order, i: nat) returns (k: nat)
    requires Total(le) && i < |Arrange(dst, le)|
    ensures k < |dst| && Arrange(dst, le)[i] == Entry(dst[k].name, ArrangeNode(dst[k].node, le))
  {
    hide Arrange;
    var x := Arrange(dst, le)[i];
    ArrangeMembers(dst, le, x);
    var e :| e in dst && x == Entry(e.name, ArrangeNode(e.node, le));
    k :| 0 <= k < |dst| && dst[k] == e;
  }

  lemma CopiedFrom(src: seq<Entry>, dst: seq<Entry>, k: nat, l: nat)
    requires Copied(Prune(src), dst) && k < |src| && l < |dst|
    requires src[k].name == dst[l].name && !ExcludedName(src[k].name)
    ensures CopiedNode(PruneNode(src[k].node), dst[l].node)
  {
    hide Prune, ExcludedName, CopiedNode;
    var x := Entry(src[k].name, PruneNode(src[k].node));
    PruneMembers(src, x);
    assert x in Prune(src);
    var i :| 0 <= i < |Prune(src)| && Prune(src)[i] == x;
    assert Prune(src)[i].name == dst[l].name;
  }

  lemma NamedIn(children: seq<Entry>, n: string) returns (i: nat)
    requires Names(children, n)
    ensures i < |children| && children[i].name == n
  {
    var e :| e in children && e.name == n;
    i :| 0 <= i < |children| && children[i] == e;
  }

  /** Arranging and pruning brings no new names together. */
  lemma NoTiesKept(src: seq<Entry>, le: Order)
    requires Total(le) && NoTies(Prune(src), le)
    ensures NoTies(Prune(Arrange(src, le)), le)
  {
    hide Prune, Arrange, Total;
    var a, p := Prune(Arrange(src, le)), Prune(src);
    forall i, j | 0 <= i < j < |a| ensures !Tied(le, a[i].name, a[j].name) {
      PrunedArrangedNames(src, le, a[i].name);
      PrunedArrangedNames(src, le, a[j].name);
      assert a[i] in a && a[j] in a;
      var k := NamedIn(p, a[i].name);
      var l := NamedIn(p, a[j].name);
      assert k < l ==> !Tied(le, p[k].name, p[l].name);
      assert l < k ==> !Tied(le, p[l].name, p[k].name);
    }
  }

  lemma ApartBelow(src: seq<Entry>, le: Order, k: nat)
    requires Apart(Prune(src), le) && k < |src| && src[k].node.Dir? && !ExcludedName(src[k].name)
    ensures Apart(Prune(src[k].node.children), le)
  {
    hide Prune, ExcludedName;
    var x := Entry(src[k].name, PruneNode(src[k].node));
    PruneMembers(src, x);
    assert x in Prune(src);
    var i :| 0 <= i < |Prune(src)| && Prune(src)[i] == x;
    assert Apart(Prune(src)[i].node.children, le);
  }

  /** Sorting and pruning the source gives the sorted snapshot, entry by entry, when no two names that are
      copied tie in their directory. */
  lemma {:induction false} SourceLikeSnapshot(src: seq<Entry>, dst: seq<Entry>, le: Order)
    requires Total(le) && AllUnique(src) && Apart(Prune(src), le) && Copied(Prune(src), dst)
    ensures Same(Prune(Arrange(src, le)), Arrange(dst, le))
    decreases src
  {
    var a, b := Prune(Arrange(src, le)), Arrange(dst, le);
    ArrangeSorts(src, le);
    ArrangeSorts(dst, le);
    PruneKeepsOrder(Arrange(src, le), le);
    NoTiesKept(src, le);
    hide Total, NoTies, Prune, Arrange, Names;
    forall n ensures Names(a, n) <==> Names(b, n) { SourceNames(src, dst, le, n); }
    SameNames(a, b, le);
    forall i: nat | i < |a| ensures SameNode(a[i].node, b[i].node) {
      var k := FromSource(src, le, i);
      var l := FromSnapshot(dst, le, i);
      CopiedFrom(src, dst, k, l);
      if src[k].node.Dir? {
        ApartBelow(src, le, k);
        SourceLikeSnapshot(src[k].node.children, dst[l].node.children, le);
      }
    }
  }

  // ---------- What is hashed ----------

  /** One hash update; a file's content follows its header. */
  datatype Token = DirToken(rel: Path) | FileToken(rel: Path, mode: nat, content: string) | LinkToken(rel: Path,
          target: string)

  function TokenOf(it: Item): seq<Token> {
    match it.kind
    case IsDir => [DirToken(it.path)]
    case IsFile(mode, content, _) => [FileToken(it.path, mode % 0x200, content)]
    case IsLink(target) => [LinkToken(it.path, target)]
    case IsOther => []
  }

  function Tokens(items: seq<Item>): seq<Token> {
    if items == [] then [] else TokenOf(items[0]) + Tokens(items[1..])
  }

  lemma {:induction false} TokensConcat(a: seq<Item>, b: seq<Item>)
    ensures Tokens(a + b) == Tokens(a) + Tokens(b)
  {
    if a == [] {
      assert a + b == b;
    } else {
      assert (a + b)[1..] == a[1..] + b;
      TokensConcat(a[1..], b);
    }
  }

  ghost predicate SameKind(a: Kind, b: Kind) {
    match a
    case IsDir => b.IsDir?
    case IsFile(mode, content, _) => b.IsFile? && b.mode % 0x200 == mode % 0x200 && b.content == content
    case IsLink(target) => b == IsLink(target)
    case IsOther => b.IsOther?
  }

  /** The measure sees nothing that a copy does not carry over. */
  ghost predicate Portable(f: Item -> nat) {
    forall x: Item, y: Item :: x.path == y.path && SameKind(x.kind, y.kind) ==> f(x) == f(y)
  }

  lemma {:induction false} SameWalks(a: seq<Entry>, b: seq<Entry>, rel: Path, f: Item -> nat)
    requires Same(a, b) && Portable(f)
    ensures Tokens(Walk(a, rel)) == Tokens(Walk(b, rel))
    ensures Measure(Walk(a, rel), f) == Measure(Walk(b, rel), f)
    decreases a
  {
    if a != [] {
      SameEntryWalks(a[0], b[0], rel, f);
      SameWalks(a[1..], b[1..], rel, f);
      TokensConcat(WalkEntry(a[0], rel), Walk(a[1..], rel));
      TokensConcat(WalkEntry(b[0], rel), Walk(b[1..], rel));
      MeasureConcat(WalkEntry(a[0], rel), Walk(a[1..], rel), f);
      MeasureConcat(WalkEntry(b[0], rel), Walk(b[1..], rel), f);
    }
  }

  lemma SameEntryWalks(a: Entry, b: Entry, rel: Path, f: Item -> nat)
    requires a.name == b.name && SameNode(a.node, b.node) && Portable(f)
    ensures Tokens(WalkEntry(a, rel)) == Tokens(WalkEntry(b, rel))
    ensures Measure(WalkEntry(a, rel), f) == Measure(WalkEntry(b, rel), f)
    decreases a, 0
  {
    var x, y := Item(rel + [a.name], KindOf(a.node)), Item(rel + [b.name], KindOf(b.node));
    assert SameKind(x.kind, y.kind) && f(x) == f(y) && TokenOf(x) == TokenOf(y);
    assert [x][1..] == [] == [y][1..];
    if a.node.Dir? {
      SameWalks(a.node.children, b.node.children, rel + [a.name], f);
      TokensConcat([x], Walk(a.node.children, rel + [a.name]));
      TokensConcat([y], Walk(b.node.children, rel + [b.name]));
      MeasureConcat([x], Walk(a.node.children, rel + [a.name]), f);
      MeasureConcat([y], Walk(b.node.children, rel + [b.name]), f);
    }
  }

  // ---------- Checks ----------

  datatype TreeError =
    | TooDeep | ProtectedPath | TooManyEntries | HardLink | TooManyBytes | AbsoluteLink | EscapingLink | Unsupported

  datatype Stats = Stats(entries: nat, bytes: nat)

  function Size(it: Item): nat { if it.kind.IsFile? then |it.kind.content| else 0 }

  function One(it: Item): nat { 1 }

  function Count(b: bool): nat { if b then 1 else 0 }

  function Parts(target: string): seq<string> {
    if target == [] then [""]
    else
      var rest := Parts(target[1..]);
      if target[0] == '/' then [""] + rest else [[target[0]] + rest[0]] + rest[1..]
  }

  /** resolve(directory, target), one part after the other */
  function Climb(directory: Path, parts: seq<string>): Path
    decreases |parts|
  {
    if parts == [] then directory
    else if parts[0] == "" || parts[0] == "." then Climb(directory, parts[1..])
    else if parts[0] == ".." then Climb(if directory == [] then [] else directory[..|directory| - 1], parts[1..])
    else Climb(directory + [parts[0]], parts[1..])
  }

  predicate Absolute(target: string) { target != "" && target[0] == '/' }

  /** Whether the link's target resolves into the tree at `root`. The file system root holds only itself,
      since no path starts with two separators. */
  predicate Inside(root: Path, path: Path, target: string) {
    var resolved := Climb(root + if path == [] then [] else path[..|path| - 1], Parts(target));
    resolved == root || (root != [] && root <= resolved)
  }

  function Counted(it: Item, s: Stats): Stats { Stats(s.entries + 1, s.bytes + Size(it)) }

  /** The file part that both checks share. */
  function CheckFile(it: Item, s: Stats): Result<Stats, TreeError>
    requires it.kind.IsFile?
  {
    if it.kind.links != 1 then Err(HardLink)
    else if s.bytes + Size(it) > MAX_BYTES then Err(TooManyBytes)
    else Ok(Counted(it, s))
  }

  /** What validateWorkspaceTree does with one entry. */
  function CheckReturned(root: Path, it: Item, s: Stats): Result<Stats, TreeError> {
    if it.path != [] && ExcludedName(it.path[|it.path| - 1]) then Err(ProtectedPath)
    else if s.entries + 1 > MAX_ENTRIES then Err(TooManyEntries)
    else
      match it.kind
      case IsDir => if |it.path| > MAX_DEPTH then Err(TooDeep) else Ok(Counted(it, s))
      case IsFile(_, _, _) => CheckFile(it, s)
      case IsLink(target) =>
        if Absolute(target) then Err(AbsoluteLink)
        else if !Inside(root, it.path, target) then Err(EscapingLink) else Ok(Counted(it, s))
      case IsOther => Err(Unsupported)
  }

  /** What hashSourceWorkspaceTree does with one entry that is not excluded. */
  function CheckSource(it: Item, s: Stats): Result<Stats, TreeError> {
    if s.entries + 1 > MAX_ENTRIES then Err(TooManyEntries)
    else
      match it.kind
      case IsDir => if |it.path| > MAX_DEPTH then Err(TooDeep) else Ok(Counted(it, s))
      case IsFile(_, _, _) => CheckFile(it, s)
      case IsLink(_) => Ok(Counted(it, s))
      case IsOther => Err(Unsupported)
  }

  type Check = (Item, Stats) -> Result<Stats, TreeError>

  function Returned(root: Path): Check { (it: Item, s: Stats) => CheckReturned(root, it, s) }

  const SOURCE: Check := (it: Item, s: Stats) => CheckSource(it, s)

  function Scan(items: seq<Item>, check: Check, s: Stats): Result<Stats, TreeError> {
    if items == [] then Ok(s)
    else
      var r := check(items[0], s);
      if r.Err? then r else Scan(items[1..], check, r.value)
  }

  lemma {:induction false} ScanConcat(a: seq<Item>, b: seq<Item>, check: Check, s: Stats)
    ensures Scan(a + b, check, s) ==
            var r := Scan(a, check, s); if r.Err? then r else Scan(b, check, r.value)
  {
    if a == [] {
      assert a + b == b;
    } else {
      assert (a + b)[1..] == a[1..] + b;
      var r := check(a[0], s);
      if r.Ok? { ScanConcat(a[1..], b, check, r.value); }
    }
  }

  /** The check refuses an entry when it is bad in itself or one of the counters runs over. */
  ghost predicate Refuses(check: Check, bad: Item -> nat) {
    forall it: Item, s: Stats | s.bytes <= MAX_BYTES ::
      if bad(it) == 0 && s.entries < MAX_ENTRIES && s.bytes + Size(it) <= MAX_BYTES
      then check(it, s) == Ok(Counted(it, s)) else check(it, s).Err?
  }

  /** A scan passes if and only if no entry is bad and the totals are within the limits. */
  lemma {:induction false} ScanPassesExactly(items: seq<Item>, check: Check, bad: Item -> nat, s: Stats)
    requires Refuses(check, bad) && s.entries <= MAX_ENTRIES && s.bytes <= MAX_BYTES
    ensures Scan(items, check, s).Ok? <==>
            Measure(items, bad) == 0 && s.entries + Measure(items, One) <= MAX_ENTRIES &&
            s.bytes + Measure(items, Size) <= MAX_BYTES
    ensures Scan(items, check, s).Ok? ==>
            Scan(items, check, s).value == Stats(s.entries + Measure(items, One), s.bytes + Measure(items, Size))
  {
    if items != [] {
      var it := items[0];
      if bad(it) == 0 && s.entries < MAX_ENTRIES && s.bytes + Size(it) <= MAX_BYTES {
        ScanPassesExactly(items[1..], check, bad, Counted(it, s));
      } else {
        assert check(it, s).Err?;
      }
    }
  }

  // ---------- What makes an entry bad ----------

  function Unfit(it: Item): nat {
    Count(it.kind.IsOther? || (it.kind.IsDir? && |it.path| > MAX_DEPTH))
  }

  function HardLinked(it: Item): nat { Count(it.kind.IsFile? && it.kind.links != 1) }

  function Protected(it: Item): nat { Count(it.path != [] && ExcludedName(it.path[|it.path| - 1])) }

  predicate Unsafe(root: Path, it: Item) {
    it.kind.IsLink? && (Absolute(it.kind.target) || !Inside(root, it.path, it.kind.target))
  }

  function UnsafeLink(root: Path): Item -> nat { (it: Item) => Count(Unsafe(root, it)) }

  function BadSource(it: Item): nat { Unfit(it) + HardLinked(it) }

  function BadReturned(root: Path): Item -> nat {
    (it: Item) => Unfit(it) + HardLinked(it) + Protected(it) + Count(Unsafe(root, it))
  }

  lemma {:induction false} MeasureSum(items: seq<Item>, f: Item -> nat, g: Item -> nat, h: Item -> nat)
    requires forall it: Item :: h(it) == f(it) + g(it)
    ensures Measure(items, h) == Measure(items, f) + Measure(items, g)
  {
    if items != [] { MeasureSum(items[1..], f, g, h); }
  }

  lemma BadReturnedSum(items: seq<Item>, root: Path)
    ensures Measure(items, BadReturned(root)) ==
            Measure(items, Unfit) + Measure(items, HardLinked) + Measure(items, Protected) + Measure(items, UnsafeLink(root))
  {
    var f := (it: Item) => Unfit(it) + HardLinked(it);
    var g := (it: Item) => Unfit(it) + HardLinked(it) + Protected(it);
    MeasureSum(items, Unfit, HardLinked, f);
    MeasureSum(items, f, Protected, g);
    MeasureSum(items, g, UnsafeLink(root), BadReturned(root));
  }

  /** An item counts only when no part of its path is an excluded name. */
  function Outside(f: Item -> nat): Item -> nat { (it: Item) => if Excluded(it.path) then 0 else f(it) }

  lemma {:induction false} NothingBelowExcluded(children: seq<Entry>, rel: Path, f: Item -> nat)
    requires Excluded(rel)
    ensures Measure(Walk(children, rel), Outside(f)) == 0
    decreases children
  {
    if children != [] {
      ExcludedEntry(children[0], rel, f);
      NothingBelowExcluded(children[1..], rel, f);
      MeasureConcat(WalkEntry(children[0], rel), Walk(children[1..], rel), Outside(f));
    }
  }

  lemma ExcludedEntry(e: Entry, rel: Path, f: Item -> nat)
    requires Excluded(rel + [e.name])
    ensures Measure(WalkEntry(e, rel), Outside(f)) == 0
    decreases e, 0
  {
    var here := [Item(rel + [e.name], KindOf(e.node))];
    assert here[1..] == [];
    if e.node.Dir? {
      NothingBelowExcluded(e.node.children, rel + [e.name], f);
      MeasureConcat(here, Walk(e.node.children, rel + [e.name]), Outside(f));
    }
  }

  /** Pruning by level leaves out exactly the paths that have an excluded part. */
  lemma {:induction false} MeasurePrune(children: seq<Entry>, rel: Path, f: Item -> nat)
    requires !Excluded(rel)
    ensures Measure(Walk(Prune(children), rel), f) == Measure(Walk(children, rel), Outside(f))
    decreases children
  {
    if children != [] {
      var e := children[0];
      var e' := Entry(e.name, PruneNode(e.node));
      MeasurePrune(children[1..], rel, f);
      MeasureEntry(e, children[1..], rel, Outside(f));
      assert [e] + children[1..] == children;
      assert Excluded(rel + [e.name]) <==> ExcludedName(e.name) by {
        assert e.name in rel + [e.name];
        assert forall part | part in rel + [e.name] :: part in rel || part == e.name;
      }
      if ExcludedName(e.name) {
        ExcludedEntry(e, rel, f);
        assert Prune(children) == [] + Prune(children[1..]) == Prune(children[1..]);
      } else {
        assert Prune(children) == [e'] + Prune(children[1..]);
        MeasureEntry(e', Prune(children[1..]), rel, f);
        PruneEntry(e, rel, f);
      }
    }
  }

  lemma PruneEntry(e: Entry, rel: Path, f: Item -> nat)
    requires !Excluded(rel + [e.name])
    ensures Measure(WalkEntry(Entry(e.name, PruneNode(e.node)), rel), f) == Measure(WalkEntry(e, rel), Outside(f))
    decreases e, 0
  {
    var here := [Item(rel + [e.name], KindOf(e.node))];
    assert here[1..] == [];
    if e.node.Dir? {
      MeasurePrune(e.node.children, rel + [e.name], f);
      MeasureConcat(here, Walk(e.node.children, rel + [e.name]), Outside(f));
      MeasureConcat(here, Walk(Prune(e.node.children), rel + [e.name]), f);
    }
  }

  // ---------- The snapshot is harmless ----------

  lemma {:induction false} CopyIsFit(src: seq<Entry>, dst: seq<Entry>, rel: Path)
    requires Copied(Prune(src), dst)
    ensures Measure(Walk(dst, rel), HardLinked) == 0 && Measure(Walk(dst, rel), Protected) == 0
    decreases dst
  {
    forall k | 0 <= k < |dst| ensures Harmless(WalkEntry(dst[k], rel)) { CopiedEntryIsFit(src, dst, rel, k); }
    HarmlessWalk(dst, rel);
  }

  ghost predicate Harmless(items: seq<Item>) { Measure(items, HardLinked) == 0 && Measure(items, Protected) == 0 }

  lemma {:induction false} HarmlessWalk(children: seq<Entry>, rel: Path)
    requires forall k | 0 <= k < |children| :: Harmless(WalkEntry(children[k], rel))
    ensures Harmless(Walk(children, rel))
  {
    if children != [] {
      assert Harmless(WalkEntry(children[0], rel));
      forall k | 0 <= k < |children[1..]| ensures Harmless(WalkEntry(children[1..][k], rel)) {
        assert children[1..][k] == children[k + 1];
      }
      HarmlessWalk(children[1..], rel);
      MeasureConcat(WalkEntry(children[0], rel), Walk(children[1..], rel), HardLinked);
      MeasureConcat(WalkEntry(children[0], rel), Walk(children[1..], rel), Protected);
    }
  }

  lemma CopiedEntryIsFit(src: seq<Entry>, dst: seq<Entry>, rel: Path, k: nat)
    requires Copied(Prune(src), dst) && k < |dst|
    ensures Harmless(WalkEntry(dst[k], rel))
    decreases dst, 0
  {
    var e := dst[k];
    assert Names(dst, e.name);
    PrunedNames(src, e.name);
    assert Names(src, e.name) && !ExcludedName(e.name);
    var j :| 0 <= j < |src| && src[j].name == e.name;
    CopiedFrom(src, dst, j, k);
    var here := [Item(rel + [e.name], KindOf(e.node))];
    assert here[1..] == [];
    if e.node.Dir? {
      CopyIsFit(src[j].node.children, e.node.children, rel + [e.name]);
      MeasureConcat(here, Walk(e.node.children, rel + [e.name]), HardLinked);
      MeasureConcat(here, Walk(e.node.children, rel + [e.name]), Protected);
    }
  }

  // ---------- The two digests ----------

  function Fresh(): Stats { Stats(0, 0) }

  /** The token stream that hashWorkspaceTree feeds to the hash. */
  function HashTree(root: Path, tree: seq<Entry>, le: Order): Result<seq<Token>, TreeError> {
    var checked := Scan(Walk(tree, []), Returned(root), Fresh());
    if checked.Err? then Err(checked.error) else Ok(Tokens(Walk(Arrange(tree, le), [])))
  }

  /** The token stream that hashSourceWorkspaceTree feeds to the hash. */
  function HashSource(tree: seq<Entry>, le: Order): Result<seq<Token>, TreeError> {
    var items := Walk(Prune(Arrange(tree, le)), []);
    var checked := Scan(items, SOURCE, Fresh());
    if checked.Err? then Err(checked.error) else Ok(Tokens(items))
  }

  predicate LinksSafe(root: Path, tree: seq<Entry>) { Measure(Walk(tree, []), UnsafeLink(root)) == 0 }

  predicate NoHardLinks(tree: seq<Entry>) { Measure(Walk(tree, []), Outside(HardLinked)) == 0 }

  ghost predicate WithinLimits(tree: seq<Entry>) {
    && Measure(Walk(tree, []), Unfit) == 0
    && Measure(Walk(tree, []), One) <= MAX_ENTRIES
    && Measure(Walk(tree, []), Size) <= MAX_BYTES
  }

  lemma ChecksRefuse(root: Path)
    ensures Refuses(SOURCE, BadSource) && Refuses(Returned(root), BadReturned(root))
  {
    forall it: Item, s: Stats | s.bytes <= MAX_BYTES
      ensures if BadSource(it) == 0 && s.entries < MAX_ENTRIES && s.bytes + Size(it) <= MAX_BYTES
              then SOURCE(it, s) == Ok(Counted(it, s)) else SOURCE(it, s).Err?
    {
    }
    forall it: Item, s: Stats | s.bytes <= MAX_BYTES
      ensures if BadReturned(root)(it) == 0 && s.entries < MAX_ENTRIES && s.bytes + Size(it) <= MAX_BYTES
              then Returned(root)(it, s) == Ok(Counted(it, s)) else Returned(root)(it, s).Err?
    {
      hide Inside, Absolute;
    }
  }

  lemma HashTreePasses(root: Path, src: seq<Entry>, dst: seq<Entry>, le: Order)
    requires Copied(Prune(src), dst)
    ensures HashTree(root, dst, le).Ok? <==> WithinLimits(dst) && LinksSafe(root, dst)
  {
    hide Copied, Prune, Walk;
    ChecksRefuse(root);
    ScanPassesExactly(Walk(dst, []), Returned(root), BadReturned(root), Fresh());
    BadReturnedSum(Walk(dst, []), root);
    CopyIsFit(src, dst, []);
  }

  lemma HashSourcePasses(src: seq<Entry>, dst: seq<Entry>, le: Order)
    requires Total(le) && AllUnique(src) && Copied(Prune(src), dst)
    ensures HashSource(src, le).Ok? <==> WithinLimits(dst) && NoHardLinks(src)
  {
    hide Total, AllUnique, Copied, Prune, Walk, Same;
    var items := Walk(Prune(Arrange(src, le)), []);
    ChecksRefuse([]);
    ScanPassesExactly(items, SOURCE, BadSource, Fresh());
    MeasureSum(items, Unfit, HardLinked, BadSource);
    CarriesOver(src, dst, le, Unfit);
    CarriesOver(src, dst, le, One);
    CarriesOver(src, dst, le, Size);
    assert !Excluded([]);
    MeasurePrune(Arrange(src, le), [], HardLinked);
    MeasureArrange(src, le, [], Outside(HardLinked));
  }

  /** A snapshot measures what the filtered source measures, however either is sorted and read. */
  lemma CarriesOver(src: seq<Entry>, dst: seq<Entry>, le: Order, f: Item -> nat)
    requires AllUnique(src) && Copied(Prune(src), dst) && Portable(f)
    ensures Measure(Walk(Prune(Arrange(src, le)), []), f) == Measure(Walk(dst, []), f)
  {
    hide AllUnique, Copied, Prune, Walk, Same, Arrange, Apart, Total;
    assert !Excluded([]);
    MeasurePrune(Arrange(src, le), [], f);
    MeasureArrange(src, le, [], Outside(f));
    MeasureArrange(src, LEXICAL, [], Outside(f));
    MeasurePrune(Arrange(src, LEXICAL), [], f);
    LexicalIsTotal();
    LexicalTellsApart(Prune(src));
    SourceLikeSnapshot(src, dst, LEXICAL);
    SameWalks(Prune(Arrange(src, LEXICAL)), Arrange(dst, LEXICAL), [], f);
    MeasureArrange(dst, LEXICAL, [], f);
  }

  /** Main theorem: for every tree and every snapshot of it, the two digests fail together, but for hard
      links, which only the first sees, and unsafe links, which only the second refuses; and where both
      succeed and no two copied names of a directory tie, they serialise the same tokens. */
  lemma DigestsAgree(root: Path, src: seq<Entry>, dst: seq<Entry>, le: Order)
    requires Total(le) && AllUnique(src) && Copied(CopyAt(src, []), dst)
    ensures HashSource(src, le).Ok? && LinksSafe(root, dst) <==> HashTree(root, dst, le).Ok? && NoHardLinks(src)
    ensures HashSource(src, le).Ok? && HashTree(root, dst, le).Ok? && Apart(CopyAt(src, []), le) ==>
              HashSource(src, le).value == HashTree(root, dst, le).value
  {
    hide Total, Apart, AllUnique, Copied, Prune, Walk, Same, WithinLimits, LinksSafe, NoHardLinks;
    assert !Excluded([]);
    FilterIsPruning(src, []);
    HashSourcePasses(src, dst, le);
    HashTreePasses(root, src, dst, le);
    if Apart(Prune(src), le) {
      SourceLikeSnapshot(src, dst, le);
      assert Portable(One);
      SameWalks(Prune(Arrange(src, le)), Arrange(dst, le), [], One);
    }
  }

  // ---------- Names that compare as equal ----------

  function Twins(a: string, b: string): seq<Entry> { [Entry(a, File(0, "", 1)), Entry(b, File(0, "", 1))] }

  /** The order has to tell names apart: otherwise the digest depends on the order of readdir, and there is
      a tree with a snapshot whose digests both succeed and differ. */
  lemma TiesBreakAgreement(root: Path, le: Order, a: string, b: string)
    requires le(a, b) && le(b, a) && a != b && !ExcludedName(a) && !ExcludedName(b)
    ensures AllUnique(Twins(a, b)) && Copied(CopyAt(Twins(a, b), []), Twins(b, a))
    ensures HashSource(Twins(a, b), le).Ok? && HashTree(root, Twins(b, a), le).Ok?
    ensures HashSource(Twins(a, b), le).value != HashTree(root, Twins(b, a), le).value
  {
    TwinsArranged(le, a, b);
    TwinsArranged(le, b, a);
    TwinsPruned(a, b);
    assert !Excluded([]);
    FilterIsPruning(Twins(a, b), []);
    TwinsWalk(a, b);
    TwinsWalk(b, a);
    hide Arrange, Prune, Walk, ExcludedName, CopyAt, Scan, Copied;
    assert Copied(Twins(a, b), Twins(b, a)) by { TwinsCopied(a, b); }
    TwinsPass(root, a, b);
    TwinsPass(root, b, a);
    TwinsTokens(a, b);
    TwinsTokens(b, a);
  }

  function TwinItems(a: string, b: string): seq<Item> {
    [Item([a], IsFile(0, "", 1)), Item([b], IsFile(0, "", 1))]
  }

  lemma TwinsArranged(le: Order, a: string, b: string)
    requires le(a, b) && le(b, a)
    ensures Arrange(Twins(a, b), le) == Twins(a, b)
  {
    var t, x, y := Twins(a, b), Entry(a, File(0, "", 1)), Entry(b, File(0, "", 1));
    assert t[1..] == [y] && [y][1..] == [];
    assert ArrangeEach([y], le) == [y] && ArrangeEach(t, le) == t;
    assert t[..1] == [x] && [x][..0] == [];
    assert Sort([x], le) == [x];
    assert [x][1..] == [];
    assert Insert([x], y, le) == [x] + Insert([], y, le);
  }

  lemma TwinsPruned(a: string, b: string)
    requires !ExcludedName(a) && !ExcludedName(b)
    ensures Prune(Twins(a, b)) == Twins(a, b)
  {
    var t, y := Twins(a, b), Entry(b, File(0, "", 1));
    assert t[1..] == [y] && [y][1..] == [];
    assert Prune([y]) == [y];
  }

  lemma TwinsWalk(a: string, b: string)
    ensures Walk(Twins(a, b), []) == TwinItems(a, b)
  {
    var t, y := Twins(a, b), Entry(b, File(0, "", 1));
    assert t[1..] == [y] && [y][1..] == [];
    assert [] + [a] == [a] && [] + [b] == [b];
    assert Walk([y], []) == [Item([b], IsFile(0, "", 1))];
  }

  lemma TwinsCopied(a: string, b: string)
    requires a != b
    ensures AllUnique(Twins(a, b)) && Copied(Twins(a, b), Twins(b, a))
  {
    var s, t := Twins(a, b), Twins(b, a);
    forall n ensures Names(s, n) <==> Names(t, n) {
      assert s[0] in s && s[1] in s && t[0] in t && t[1] in t;
    }
  }

  lemma TwinsPass(root: Path, a: string, b: string)
    requires !ExcludedName(a) && !ExcludedName(b)
    ensures Scan(TwinItems(a, b), SOURCE, Fresh()).Ok? && Scan(TwinItems(a, b), Returned(root), Fresh()).Ok?
  {
    hide ExcludedName, Inside;
    var items := TwinItems(a, b);
    assert items[1..] == [items[1]] && [items[1]][1..] == [];
    assert SOURCE(items[0], Fresh()) == Ok(Stats(1, 0)) && SOURCE(items[1], Stats(1, 0)) == Ok(Stats(2, 0));
    assert Returned(root)(items[0], Fresh()) == Ok(Stats(1, 0)) && Returned(root)(items[1], Stats(1, 0)) == Ok(Stats(2, 0));
    assert Scan([items[1]], SOURCE, Stats(1, 0)) == Ok(Stats(2, 0));
    assert Scan([items[1]], Returned(root), Stats(1, 0)) == Ok(Stats(2, 0));
  }

  lemma TwinsTokens(a: string, b: string)
    ensures Tokens(TwinItems(a, b)) == [FileToken([a], 0, ""), FileToken([b], 0, "")]
  {
    var items := TwinItems(a, b);
    assert items[1..] == [items[1]] && [items[1]][1..] == [];
    assert Tokens([items[1]]) == [FileToken([b], 0, "")];
  }

  // ---------- Going on from the i-th entry of a directory ----------

  function ScanEntry(e: Entry, rel: Path, check: Check, s: Stats): Result<Stats, TreeError> {
    Scan(WalkEntry(e, rel), check, s)
  }

  lemma ScanEntryIs(e: Entry, rel: Path, check: Check, s: Stats)
    ensures ScanEntry(e, rel, check, s) ==
            var r := check(Item(rel + [e.name], KindOf(e.node)), s);
            if r.Err? || !e.node.Dir? then r else Scan(Walk(e.node.children, rel + [e.name]), check, r.value)
  {
    var here := [Item(rel + [e.name], KindOf(e.node))];
    assert here[1..] == [] && here + [] == here;
    assert WalkEntry(e, rel) == here + if e.node.Dir? then Walk(e.node.children, rel + [e.name]) else [];
    ScanConcat(here, if e.node.Dir? then Walk(e.node.children, rel + [e.name]) else [], check, s);
  }

  function EntryTokens(e: Entry, rel: Path): seq<Token> { Tokens(WalkEntry(e, rel)) }

  lemma EntryTokensAre(e: Entry, rel: Path)
    ensures EntryTokens(e, rel) ==
            TokenOf(Item(rel + [e.name], KindOf(e.node))) +
            if e.node.Dir? then Tokens(Walk(e.node.children, rel + [e.name])) else []
  {
    var here := [Item(rel + [e.name], KindOf(e.node))];
    assert here[1..] == [] && here + [] == here;
    assert WalkEntry(e, rel) == here + if e.node.Dir? then Walk(e.node.children, rel + [e.name]) else [];
    assert Tokens(here) == TokenOf(here[0]);
    TokensConcat(here, if e.node.Dir? then Walk(e.node.children, rel + [e.name]) else []);
  }

  function From(children: seq<Entry>, i: nat, rel: Path): seq<Item>
    requires i <= |children|
  {
    Walk(children[i..], rel)
  }

  lemma FromEnds(children: seq<Entry>, rel: Path)
    ensures From(children, 0, rel) == Walk(children, rel) && From(children, |children|, rel) == []
  {
    assert children[0..] == children && children[|children|..] == [];
  }

  lemma FromStep(children: seq<Entry>, i: nat, rel: Path, check: Check, s: Stats)
    requires i < |children|
    ensures var r := ScanEntry(children[i], rel, check, s);
            Scan(From(children, i, rel), check, s) ==
            if r.Err? then r else Scan(From(children, i + 1, rel), check, r.value)
    ensures Tokens(From(children, i, rel)) == EntryTokens(children[i], rel) + Tokens(From(children, i + 1, rel))
  {
    assert children[i..][1..] == children[i + 1..];
    ScanConcat(WalkEntry(children[i], rel), Walk(children[i + 1..], rel), check, s);
    TokensConcat(WalkEntry(children[i], rel), Walk(children[i + 1..], rel));
  }

  /** A sorted directory without its excluded entries, from entry i on. */
  function Filtered(sorted: seq<Entry>, i: nat, le: Order): seq<Entry>
    requires i <= |sorted|
  {
    Prune(ArrangeEach(sorted[i..], le))
  }

  function FilteredEntry(e: Entry, le: Order): Entry { Entry(e.name, PruneNode(ArrangeNode(e.node, le))) }

  lemma FilteredEnds(children: seq<Entry>, le: Order)
    ensures var sorted := Sort(children, le);
            Filtered(sorted, 0, le) == Prune(Arrange(children, le)) && Filtered(sorted, |sorted|, le) == []
  {
    SortArranges(children, le);
    var sorted := Sort(children, le);
    assert sorted[0..] == sorted && sorted[|sorted|..] == [];
  }

  lemma FilteredStep(sorted: seq<Entry>, i: nat, le: Order)
    requires i < |sorted|
    ensures Filtered(sorted, i, le) ==
            if ExcludedName(sorted[i].name) then Filtered(sorted, i + 1, le)
            else [FilteredEntry(sorted[i], le)] + Filtered(sorted, i + 1, le)
  {
    var e := sorted[i];
    var e' := Entry(e.name, ArrangeNode(e.node, le));
    var rest := ArrangeEach(sorted[i + 1..], le);
    assert sorted[i..][1..] == sorted[i + 1..];
    assert ArrangeEach(sorted[i..], le) == [e'] + rest;
    assert ([e'] + rest)[1..] == rest;
    if ExcludedName(e.name) {
      assert Prune([e'] + rest) == [] + Prune(rest) == Prune(rest);
    }
  }

  lemma WalkStep(e: Entry, rest: seq<Entry>, rel: Path, check: Check, s: Stats)
    ensures var r := ScanEntry(e, rel, check, s);
            Scan(Walk([e] + rest, rel), check, s) == if r.Err? then r else Scan(Walk(rest, rel), check, r.value)
    ensures Tokens(Walk([e] + rest, rel)) == EntryTokens(e, rel) + Tokens(Walk(rest, rel))
  {
    assert ([e] + rest)[1..] == rest;
    ScanConcat(WalkEntry(e, rel), Walk(rest, rel), check, s);
    TokensConcat(WalkEntry(e, rel), Walk(rest, rel));
  }

  lemma ArrangedStep(sorted: seq<Entry>, i: nat, le: Order)
    requires i < |sorted|
    ensures ArrangeEach(sorted[i..], le) ==
            [Entry(sorted[i].name, ArrangeNode(sorted[i].node, le))] + ArrangeEach(sorted[i + 1..], le)
  {
    assert sorted[i..][1..] == sorted[i + 1..];
  }

  /** What has been hashed and what is to come make up the whole. */
  predicate Remaining(total: seq<Token>, done: seq<Token>, rest: seq<Token>) { total == done + rest }

  lemma RemainingStep(total: seq<Token>, done: seq<Token>, next: seq<Token>, rest: seq<Token>)
    requires Remaining(total, done, next + rest)
    ensures Remaining(total, done + next, rest)
  {
    assert done + (next + rest) == (done + next) + rest;
  }

  lemma RemainingEnds(done: seq<Token>, all: seq<Token>)
    ensures Remaining(done + all, done, all)
    ensures forall total :: Remaining(total, done, []) <==> total == done
  {
    assert done + [] == done;
  }

  lemma ArrangedEnds(children: seq<Entry>, le: Order)
    ensures var sorted := Sort(children, le);
            ArrangeEach(sorted[0..], le) == Arrange(children, le) && ArrangeEach(sorted[|sorted|..], le) == []
  {
    SortArranges(children, le);
    var sorted := Sort(children, le);
    assert sorted[0..] == sorted && sorted[|sorted|..] == [];
  }

  lemma NoTokens(rel: Path)
    ensures Walk([], rel) == [] && Tokens([]) == []
  {
  }

  lemma NothingToScan(check: Check, s: Stats)
    ensures Scan([], check, s) == Ok(s)
  {
  }

  lemma InDirectory(children: seq<Entry>, e: Entry)
    requires e in children
    ensures children decreases to e
  {
    var k :| 0 <= k < |children| && children[k] == e;
  }

  lemma SortedIn(children: seq<Entry>, le: Order, i: nat)
    requires Total(le) && i < |Sort(children, le)|
    ensures children decreases to Sort(children, le)[i]
  {
    SortSorts(children, le);
    InDirectory(children, Sort(children, le)[i]);
  }

  // ---------- The visits ----------

  /** The recursive visits and the counters and hash they update. */
  class Visitor {
    var entries: nat
    var bytes: nat
    var tokens: seq<Token>

    constructor ()
      ensures Now() == Fresh() && tokens == []
    {
      entries, bytes, tokens := 0, 0, [];
    }

    ghost function Now(): Stats
      reads this
    {
      Stats(entries, bytes)
    }

    /** validateWorkspaceTree's visit of one directory. */
    method Validate(root: Path, children: seq<Entry>, rel: Path) returns (error: Option<TreeError>)
      modifies this`entries, this`bytes
      ensures Scan(Walk(children, rel), Returned(root), old(Now())) ==
              if error.Some? then Err(error.value) else Ok(Now())
      decreases children
    {
      hide Walk, From, ScanEntry, Tokens;
      error := None;
      FromEnds(children, rel);
      for i := 0 to |children|
        invariant error.None?
        invariant Scan(Walk(children, rel), Returned(root), old(Now())) ==
                  Scan(From(children, i, rel), Returned(root), Now())
      {
        FromStep(children, i, rel, Returned(root), Now());
        InDirectory(children, children[i]);
        error := ValidateEntry(root, children[i], rel);
        if error.Some? { return; }
      }
    }

    method ValidateEntry(root: Path, e: Entry, rel: Path) returns (error: Option<TreeError>)
      modifies this`entries, this`bytes
      ensures ScanEntry(e, rel, Returned(root), old(Now())) == if error.Some? then Err(error.value) else Ok(Now())
      decreases e
    {
      hide Inside, Absolute, ExcludedName, Walk, ScanEntry;
      var path := rel + [e.name];
      ScanEntryIs(e, rel, Returned(root), Now());
      assert path[|path| - 1] == e.name;
      error := None;
      if ExcludedName(e.name) { return Some(ProtectedPath); }
      entries := entries + 1;
      if entries > MAX_ENTRIES { return Some(TooManyEntries); }
      match e.node
      case Dir(below) =>
        if |path| > MAX_DEPTH { return Some(TooDeep); }
        error := Validate(root, below, path);
      case File(_, content, links) =>
        if links != 1 { return Some(HardLink); }
        bytes := bytes + |content|;
        if bytes > MAX_BYTES { return Some(TooManyBytes); }
      case Link(target) =>
        if Absolute(target) { return Some(AbsoluteLink); }
        if !Inside(root, path, target) { return Some(EscapingLink); }
      case Other => return Some(Unsupported);
    }

    /** hashWorkspaceTree's visit: entries by name, each directory before what it holds. */
    method Hash(children: seq<Entry>, rel: Path, le: Order)
      requires Total(le)
      modifies this`tokens
      ensures tokens == old(tokens) + Tokens(Walk(Arrange(children, le), rel))
      decreases children
    {
      hide Sort, Arrange, ArrangeEach, Walk, Tokens, Total, Scan, ScanEntry, EntryTokens, Remaining;
      var sorted := Sort(children, le);
      ghost var total := tokens + Tokens(Walk(Arrange(children, le), rel));
      ArrangedEnds(children, le);
      RemainingEnds(tokens, Tokens(Walk(Arrange(children, le), rel)));
      for i := 0 to |sorted|
        invariant Remaining(total, tokens, Tokens(Walk(ArrangeEach(sorted[i..], le), rel)))
      {
        ghost var e', rest := Entry(sorted[i].name, ArrangeNode(sorted[i].node, le)), ArrangeEach(sorted[i + 1..], le);
        ArrangedStep(sorted, i, le);
        WalkStep(e', rest, rel, SOURCE, Fresh());
        RemainingStep(total, tokens, EntryTokens(e', rel), Tokens(Walk(rest, rel)));
        SortedIn(children, le, i);
        HashArranged(sorted[i], rel, le);
      }
      NoTokens(rel);
      RemainingEnds(tokens, []);
    }

    method HashArranged(e: Entry, rel: Path, le: Order)
      requires Total(le)
      modifies this`tokens
      ensures tokens == old(tokens) + EntryTokens(Entry(e.name, ArrangeNode(e.node, le)), rel)
      decreases e
    {
      hide Walk, Arrange, Total, EntryTokens, Tokens;
      EntryTokensAre(Entry(e.name, ArrangeNode(e.node, le)), rel);
      tokens := tokens + TokenOf(Item(rel + [e.name], KindOf(e.node)));
      if e.node.Dir? { Hash(e.node.children, rel + [e.name], le); }
    }

    /** hashSourceWorkspaceTree's visit: checks and hashes in one pass, and skips excluded names. */
    method HashFiltered(children: seq<Entry>, rel: Path, le: Order) returns (error: Option<TreeError>)
      requires Total(le)
      modifies this
      ensures Scan(Walk(Prune(Arrange(children, le)), rel), SOURCE, old(Now())) ==
              if error.Some? then Err(error.value) else Ok(Now())
      ensures error.None? ==> tokens == old(tokens) + Tokens(Walk(Prune(Arrange(children, le)), rel))
      decreases children
    {
      hide Sort, Arrange, Total, Prune, Walk, Tokens, ExcludedName, Filtered, FilteredEntry, Scan, ScanEntry, EntryTokens,
           Remaining;
      error := None;
      var sorted := Sort(children, le);
      ghost var total := tokens + Tokens(Walk(Prune(Arrange(children, le)), rel));
      FilteredEnds(children, le);
      RemainingEnds(tokens, Tokens(Walk(Prune(Arrange(children, le)), rel)));
      for i := 0 to |sorted|
        invariant error.None?
        invariant Scan(Walk(Prune(Arrange(children, le)), rel), SOURCE, old(Now())) ==
                  Scan(Walk(Filtered(sorted, i, le), rel), SOURCE, Now())
        invariant Remaining(total, tokens, Tokens(Walk(Filtered(sorted, i, le), rel)))
      {
        FilteredStep(sorted, i, le);
        SortedIn(children, le, i);
        if ExcludedName(sorted[i].name) { continue; }
        ghost var e', rest := FilteredEntry(sorted[i], le), Filtered(sorted, i + 1, le);
        WalkStep(e', rest, rel, SOURCE, Now());
        RemainingStep(total, tokens, EntryTokens(e', rel), Tokens(Walk(rest, rel)));
        error := HashEntry(sorted[i], rel, le);
        if error.Some? { return; }
      }
      NoTokens(rel);
      NothingToScan(SOURCE, Now());
      RemainingEnds(tokens, []);
    }

    method HashEntry(e: Entry, rel: Path, le: Order) returns (error: Option<TreeError>)
      requires Total(le)
      modifies this
      ensures ScanEntry(FilteredEntry(e, le), rel, SOURCE, old(Now())) ==
              if error.Some? then Err(error.value) else Ok(Now())
      ensures error.None? ==> tokens == old(tokens) + EntryTokens(FilteredEntry(e, le), rel)
      decreases e
    {
      hide Walk, ScanEntry, Prune, Arrange, Total, EntryTokens, Tokens;
      var path := rel + [e.name];
      ScanEntryIs(FilteredEntry(e, le), rel, SOURCE, Now());
      EntryTokensAre(FilteredEntry(e, le), rel);
      error := None;
      entries := entries + 1;
      if entries > MAX_ENTRIES { return Some(TooManyEntries); }
      match e.node
      case Dir(below) =>
        tokens := tokens + [DirToken(path)];
        if |path| > MAX_DEPTH { return Some(TooDeep); }
        error := HashFiltered(below, path, le);
      case File(mode, content, links) =>
        if links != 1 { return Some(HardLink); }
        bytes := bytes + |content|;
        if bytes > MAX_BYTES { return Some(TooManyBytes); }
        tokens := tokens + [FileToken(path, mode % 0x200, content)];
      case Link(target) => tokens := tokens + [LinkToken(path, target)];
      case Other => return Some(Unsupported);
    }
  }

  /** hashWorkspaceTree, up to the hash itself */
  method HashWorkspaceTree(root: Path, tree: seq<Entry>, le: Order) returns (r: Result<seq<Token>, TreeError>)
    requires Total(le)
    ensures r == HashTree(root, tree, le)
  {
    hide Total, Scan, Walk, Arrange, Tokens;
    var visitor := new Visitor();
    var error := visitor.Validate(root, tree, []);
    if error.Some? { return Err(error.value); }
    visitor.Hash(tree, [], le);
    assert [] + Tokens(Walk(Arrange(tree, le), [])) == Tokens(Walk(Arrange(tree, le), []));
    r := Ok(visitor.tokens);
  }

  /** hashSourceWorkspaceTree, up to the hash itself */
  method HashSourceWorkspaceTree(tree: seq<Entry>, le: Order) returns (r: Result<seq<Token>, TreeError>)
    requires Total(le)
    ensures r == HashSource(tree, le)
  {
    hide Total, Scan, Walk, Arrange, Prune, Tokens;
    var visitor := new Visitor();
    var error := visitor.HashFiltered(tree, [], le);
    assert [] + Tokens(Walk(Prune(Arrange(tree, le)), [])) == Tokens(Walk(Prune(Arrange(tree, le)), []));
    r := if error.Some? then Err(error.value) else Ok(visitor.tokens);
  }
}
