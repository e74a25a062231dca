/**
 Which symbolic links the copy-back check lets through (validateWorkspaceTree in
 src/execution/workspace-transfer.ts): what a relative target amounts to, and when it stays in the tree.
 */
module SafeLinks {
  import opened Wrappers
  import opened WorkspaceTree
  import opened SnapshotDigest

  // ---------- The parts of a target ----------

  function Joined(parts: seq<string>): string
    requires parts != []
  {
    if |parts| == 1 then parts[0] else parts[0] + "/" + Joined(parts[1..])
  }

  /** Joining the parts of a target gives the target back, and no part holds a separator. */
  lemma {:induction false} PartsLoseNothing(target: string)
    ensures Parts(target) != [] && Joined(Parts(target)) == target && forall part | part in Parts(target) :: '/' !in part
  {
    if target != "" {
      var rest, parts := Parts(target[1..]), Parts(target);
      PartsLoseNothing(target[1..]);
      assert parts[1..] == if target[0] == '/' then rest else rest[1..];
      assert target == [target[0]] + target[1..];
      if target[0] != '/' && |rest| > 1 {
        assert parts[0] + "/" + Joined(rest[1..]) == [target[0]] + (rest[0] + "/" + Joined(rest[1..]));
      }
    }
  }

  // ---------- What a target amounts to ----------

  /** So many steps up, and then down along the names. */
  datatype Way = Way(ups: nat, names: seq<string>)

  /** A name and a ".." behind it cancel out; "" and "." are nothing. */
  function WayOf(parts: seq<string>): Way {
    if parts == [] then Way(0, [])
    else
      var part, rest := parts[0], WayOf(parts[1..]);
      if part == "" || part == "." then rest
      else if part == ".." then rest.(ups := rest.ups + 1)
      else if rest.ups > 0 then rest.(ups := rest.ups - 1)
      else rest.(names := [part] + rest.names)
  }

  /** The directory so many steps up; there is nothing above the file system's root. */
  function Above(directory: Path, ups: nat): Path { directory[..if ups < |directory| then |directory| - ups else 0] }

  /** From every directory a target leads where its way leads: up, and down again. */
  lemma {:induction false} ClimbIsWay(directory: Path, parts: seq<string>)
    ensures Climb(directory, parts) == Above(directory, WayOf(parts).ups) + WayOf(parts).names
    decreases |parts|
  {
    if parts == [] {
      assert directory[..|directory|] + [] == directory;
    } else {
      var part, rest := parts[0], WayOf(parts[1..]);
      if part == "" || part == "." {
        ClimbIsWay(directory, parts[1..]);
      } else if part == ".." {
        var parent := if directory == [] then [] else directory[..|directory| - 1];
        ClimbIsWay(parent, parts[1..]);
        assert Above(parent, rest.ups) == Above(directory, rest.ups + 1);
      } else {
        ClimbIsWay(directory + [part], parts[1..]);
        if rest.ups > 0 {
          assert Above(directory + [part], rest.ups) == Above(directory, rest.ups - 1);
        } else {
          assert directory + [part] + rest.names == directory + ([part] + rest.names);
        }
      }
    }
  }

  // ---------- Staying in the tree ----------

  /** The way does not lead above the tree, or it leads so many steps above its root and down again by the same names. */
  predicate Stays(root: Path, depth: nat, way: Way) {
    way.ups <= depth || root[|Above(root, way.ups - depth)|..] <= way.names
  }

  lemma StaysExactly(root: Path, inner: Path, way: Way)
    requires root != []
    ensures root <= Above(root + inner, way.ups) + way.names <==> Stays(root, |inner|, way)
  {
    var top := Above(root + inner, way.ups);
    if way.ups <= |inner| {
      assert top == root + inner[..|inner| - way.ups];
      assert (top + way.names)[..|root|] == root;
    } else {
      var up := Above(root, way.ups - |inner|);
      assert top == up;
      assert root == up + root[|up|..];
      if root[|up|..] <= way.names {
        assert (up + way.names)[..|root|] == up + way.names[..|root| - |up|];
      }
      if root <= up + way.names {
        assert (up + way.names)[|up|..|root|] == root[|up|..];
        assert way.names[..|root| - |up|] == root[|up|..];
      }
    }
  }

  /** Main theorem: the check lets a link through if and only if its target is relative and leads nowhere above the
      tree, or up above it and down again by the names of the root itself. */
  lemma LinkPassesExactly(root: Path, it: Item)
    requires root != [] && it.kind.IsLink? && it.path != []
    ensures var way := WayOf(Parts(it.kind.target));
            !Unsafe(root, it) <==> !Absolute(it.kind.target) && Stays(root, |it.path| - 1, way)
  {
    var way, inner := WayOf(Parts(it.kind.target)), it.path[..|it.path| - 1];
    ClimbIsWay(root + inner, Parts(it.kind.target));
    StaysExactly(root, inner, way);
  }

  /** A tree's links are safe if and only if each of them is. */
  lemma {:induction false} MeasureNothing(items: seq<Item>, root: Path)
    ensures Measure(items, UnsafeLink(root)) == 0 <==> forall it | it in items :: !Unsafe(root, it)
  {
    if items != [] {
      MeasureNothing(items[1..], root);
      assert forall it :: it in items <==> it == items[0] || it in items[1..];
    }
  }

  lemma {:induction false} WalkedPaths(children: seq<Entry>, rel: Path)
    ensures forall it | it in Walk(children, rel) :: |it.path| > |rel|
    decreases children
  {
    if children != [] {
      WalkedPathsOfEntry(children[0], rel);
      WalkedPaths(children[1..], rel);
    }
  }

  lemma WalkedPathsOfEntry(e: Entry, rel: Path)
    ensures forall it | it in WalkEntry(e, rel) :: |it.path| > |rel|
    decreases e, 0
  {
    if e.node.Dir? { WalkedPaths(e.node.children, rel + [e.name]); }
  }

  /** Main theorem: the links of a tree are safe if and only if each has a relative target that stays in the tree. */
  lemma LinksSafeExactly(root: Path, tree: seq<Entry>)
    requires root != []
    ensures LinksSafe(root, tree) <==>
            forall it | it in Walk(tree, []) && it.kind.IsLink? ::
              it.path != [] && !Absolute(it.kind.target) && Stays(root, |it.path| - 1, WayOf(Parts(it.kind.target)))
  {
    MeasureNothing(Walk(tree, []), root);
    WalkedPaths(tree, []);
    hide Unsafe, Absolute, Stays, WayOf, Parts, Walk;
    forall it | it in Walk(tree, [])
      ensures !Unsafe(root, it) <==>
              (it.kind.IsLink? ==> it.path != [] && !Absolute(it.kind.target) && Stays(root, |it.path| - 1, WayOf(Parts(it.kind.target))))
    {
      if it.kind.IsLink? { LinkPassesExactly(root, it); } else { OnlyLinksAreUnsafe(root, it); }
    }
  }

  lemma OnlyLinksAreUnsafe(root: Path, it: Item)
    requires !it.kind.IsLink?
    ensures !Unsafe(root, it)
  {
  }

  /** A target that only goes down always passes, and one that goes up further than the link is deep passes only by
      naming the root. */
  lemma UpAndDown(root: Path, it: Item)
    requires root != [] && it.kind.IsLink? && it.path != [] && !Absolute(it.kind.target)
    ensures ".." !in Parts(it.kind.target) ==> !Unsafe(root, it)
    ensures var way := WayOf(Parts(it.kind.target));
            !Unsafe(root, it) && way.ups >= |it.path| ==> way.names != [] && root[|root| - 1] in way.names
  {
    var way := WayOf(Parts(it.kind.target));
    LinkPassesExactly(root, it);
    if ".." !in Parts(it.kind.target) { NoUps(Parts(it.kind.target)); }
    if !Unsafe(root, it) && way.ups >= |it.path| {
      var back := root[|Above(root, way.ups - (|it.path| - 1))|..];
      assert back[|back| - 1] == way.names[|back| - 1] == root[|root| - 1];
    }
  }

  lemma {:induction false} NoUps(parts: seq<string>)
    requires ".." !in parts
    ensures WayOf(parts).ups == 0
  {
    if parts != [] { NoUps(parts[1..]); }
  }

  // ---------- What a refusal tells ----------

  /** The entries behind the counters give reason for the error. */
  ghost predicate Guilty(root: Path, items: seq<Item>, s: Stats, error: TreeError) {
    match error
    case TooManyEntries => s.entries + Measure(items, One) > MAX_ENTRIES
    case TooManyBytes => s.bytes + Measure(items, Size) > MAX_BYTES
    case ProtectedPath => exists it | it in items :: it.path != [] && ExcludedName(it.path[|it.path| - 1])
    case TooDeep => exists it | it in items :: it.kind.IsDir? && |it.path| > MAX_DEPTH
    case HardLink => exists it | it in items :: it.kind.IsFile? && it.kind.links != 1
    case AbsoluteLink => exists it | it in items :: it.kind.IsLink? && Absolute(it.kind.target)
    case EscapingLink => exists it | it in items :: it.kind.IsLink? && !Absolute(it.kind.target) && !Inside(root, it.path, it.kind.target)
    case Unsupported => exists it | it in items :: it.kind.IsOther?
  }

  lemma FirstIsGuilty(root: Path, items: seq<Item>, s: Stats)
    requires items != [] && CheckReturned(root, items[0], s).Err?
    ensures Guilty(root, items, s, CheckReturned(root, items[0], s).error)
  {
    var it := items[0];
    hide Inside, Absolute, ExcludedName;
    assert it in items;
    assert Measure(items, One) >= 1 && Measure(items, Size) >= Size(it);
  }

  lemma RestIsGuilty(root: Path, items: seq<Item>, s: Stats, error: TreeError)
    requires items != [] && Guilty(root, items[1..], Counted(items[0], s), error)
    ensures Guilty(root, items, s, error)
  {
    hide Inside, Absolute, ExcludedName;
    assert forall it | it in items[1..] :: it in items;
  }

  /** A refusal tells the truth: some entry, or the totals, give reason for it. */
  lemma {:induction false} ErrorsAreTrue(root: Path, items: seq<Item>, s: Stats)
    requires Scan(items, Returned(root), s).Err?
    ensures Guilty(root, items, s, Scan(items, Returned(root), s).error)
  {
    hide CheckReturned, Guilty;
    if CheckReturned(root, items[0], s).Err? {
      FirstIsGuilty(root, items, s);
    } else {
      CheckCounts(root, items[0], s);
      ErrorsAreTrue(root, items[1..], Counted(items[0], s));
      RestIsGuilty(root, items, s, Scan(items, Returned(root), s).error);
    }
  }

  lemma CheckCounts(root: Path, it: Item, s: Stats)
    requires CheckReturned(root, it, s).Ok?
    ensures CheckReturned(root, it, s) == Ok(Counted(it, s))
  {
    hide Inside, Absolute;
  }

  /** So does the refusal of a source, which never is about links or protected names. */
  lemma {:induction false} SourceErrorsAreTrue(root: Path, items: seq<Item>, s: Stats)
    requires Scan(items, SOURCE, s).Err?
    ensures Guilty(root, items, s, Scan(items, SOURCE, s).error)
    ensures Scan(items, SOURCE, s).error !in {ProtectedPath, AbsoluteLink, EscapingLink}
  {
    hide CheckSource, Guilty;
    if CheckSource(items[0], s).Err? {
      FirstOfSourceIsGuilty(root, items, s);
    } else {
      SourceCounts(items[0], s);
      SourceErrorsAreTrue(root, items[1..], Counted(items[0], s));
      RestIsGuilty(root, items, s, Scan(items, SOURCE, s).error);
    }
  }

  lemma FirstOfSourceIsGuilty(root: Path, items: seq<Item>, s: Stats)
    requires items != [] && CheckSource(items[0], s).Err?
    ensures Guilty(root, items, s, CheckSource(items[0], s).error)
    ensures CheckSource(items[0], s).error !in {ProtectedPath, AbsoluteLink, EscapingLink}
  {
    var it := items[0];
    hide Inside, Absolute, ExcludedName;
    assert it in items;
    assert Measure(items, One) >= 1 && Measure(items, Size) >= Size(it);
  }

  lemma SourceCounts(it: Item, s: Stats)
    requires CheckSource(it, s).Ok?
    ensures CheckSource(it, s) == Ok(Counted(it, s))
  {
  }
}
