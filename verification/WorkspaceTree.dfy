/**
 Workspace trees: walking, pruning, sorting, and what the digest and the copy-back check see of them
 (src/execution/workspace-transfer.ts).
 */
module WorkspaceTree {
  import opened Wrappers

  const MAX_ENTRIES := 100_000
  const MAX_BYTES := 2 * 1024 * 1024 * 1024
  const MAX_DEPTH := 128

  type Path = seq<string>

  /** A directory lists its entries in the order in which readdir gives them. */
  datatype Node =
    | Dir(children: seq<Entry>)
    | File(mode: nat, content: string, links: nat)
    | Link(target: string)
    | Other

  datatype Entry = Entry(name: string, node: Node)

  predicate ExcludedName(name: string) { name == ".git" || name == "node_modules" }

  /** isExcluded: some part of the relative path is an excluded name. */
  predicate Excluded(rel: Path) { exists part | part in rel :: ExcludedName(part) }

  /** The names in one directory differ. */
  predicate Unique(children: seq<Entry>) {
    forall i, j | 0 <= i < j < |children| :: children[i].name != children[j].name
  }

  ghost predicate Names(children: seq<Entry>, name: string) { exists e | e in children :: e.name == name }

  // ---------- Walks ----------

  /** What lstat tells of an entry. */
  datatype Kind = IsDir | IsFile(mode: nat, content: string, links: nat) | IsLink(target: string) | IsOther

  function KindOf(node: Node): Kind {
    match node
    case Dir(_) => IsDir
    case File(mode, content, links) => IsFile(mode, content, links)
    case Link(target) => IsLink(target)
    case Other => IsOther
  }

  datatype Item = Item(path: Path, kind: Kind)

  /** All entries below a directory, each directory before what it holds. */
  function Walk(children: seq<Entry>, rel: Path): seq<Item> {
    if children == [] then [] else WalkEntry(children[0], rel) + Walk(children[1..], rel)
  }

  function WalkEntry(e: Entry, rel: Path): seq<Item> {
    [Item(rel + [e.name], KindOf(e.node))] + if e.node.Dir? then Walk(e.node.children, rel + [e.name]) else []
  }

  /** The filtered copy: a path is left out when one of its parts is an excluded name. */
  function CopyAt(children: seq<Entry>, rel: Path): seq<Entry> {
    if children == [] then []
    else
      var e := children[0];
      (if Excluded(rel + [e.name]) then []
       else if e.node.Dir? then [Entry(e.name, Dir(CopyAt(e.node.children, rel + [e.name])))] else [e])
      + CopyAt(children[1..], rel)
  }

  /** Pruning level by level, as the direct walk of the source does. */
  function Prune(children: seq<Entry>): seq<Entry> {
    if children == [] then []
    else
      var e := children[0];
      (if ExcludedName(e.name) then []
       else if e.node.Dir? then [Entry(e.name, Dir(Prune(e.node.children)))] else [e])
      + Prune(children[1..])
  }

  /** Filtering by path components is the same as pruning every level by name. */
  lemma {:induction false} FilterIsPruning(children: seq<Entry>, rel: Path)
    requires !Excluded(rel)
    ensures CopyAt(children, rel) == Prune(children)
  {
    if children != [] {
      var e := children[0];
      assert Excluded(rel + [e.name]) <==> ExcludedName(e.name) by {
        assert e.name in rel + [e.name];
        assert forall part | part in rel + [e.name] :: part in rel || part == e.name;
      }
      if e.node.Dir? && !ExcludedName(e.name) { FilterIsPruning(e.node.children, rel + [e.name]); }
      FilterIsPruning(children[1..], rel);
    }
  }

  // ---------- Order ----------

  /** localeCompare: whether the first name does not come after the second. */
  type Order = (string, string) -> bool

  ghost predicate Total(le: Order) {
    && (forall a, b :: le(a, b) || le(b, a))
    && (forall a, b, c :: le(a, b) && le(b, c) ==> le(a, c))
  }

  /** The order takes two names for equal. A collation does so for names that differ only in how an
      accented letter is encoded. */
  predicate Tied(le: Order, a: string, b: string) { a != b && le(a, b) && le(b, a) }

  predicate NoTies(children: seq<Entry>, le: Order) {
    forall i, j | 0 <= i < j < |children| :: !Tied(le, children[i].name, children[j].name)
  }

  /** No two names in one directory tie, in the whole tree. */
  ghost predicate Apart(children: seq<Entry>, le: Order) {
    && NoTies(children, le)
    && forall i | 0 <= i < |children| && children[i].node.Dir? :: Apart(children[i].node.children, le)
  }

  /** Puts an entry behind those that do not come after it: sorting is stable. */
  function Insert(sorted: seq<Entry>, e: Entry, le: Order): seq<Entry> {
    if sorted == [] || !le(sorted[0].name, e.name) then [e] + sorted
    else [sorted[0]] + Insert(sorted[1..], e, le)
  }

  function Sort(children: seq<Entry>, le: Order): seq<Entry> {
    if children == [] then []
    else Insert(Sort(children[..|children| - 1], le), children[|children| - 1], le)
  }

  predicate SortedBy(children: seq<Entry>, le: Order) {
    forall i, j | 0 <= i < j < |children| :: le(children[i].name, children[j].name)
  }

  /** Sorts every directory of the tree. */
  function Arrange(children: seq<Entry>, le: Order): seq<Entry> { Sort(ArrangeEach(children, le), le) }

  function ArrangeEach(children: seq<Entry>, le: Order): (r: seq<Entry>)
    ensures |r| == |children|
    ensures forall i | 0 <= i < |r| :: r[i].name == children[i].name
  {
    if children == [] then []
    else
      var e := children[0];
      [Entry(e.name, if e.node.Dir? then Dir(Sort(ArrangeEach(e.node.children, le), le)) else e.node)]
      + ArrangeEach(children[1..], le)
  }

  lemma {:induction false} InsertMembers(sorted: seq<Entry>, e: Entry, le: Order)
    ensures |Insert(sorted, e, le)| == |sorted| + 1
    ensures forall x :: x in Insert(sorted, e, le) <==> x in sorted || x == e
  {
    if sorted != [] && le(sorted[0].name, e.name) {
      assert sorted == [sorted[0]] + sorted[1..];
      InsertMembers(sorted[1..], e, le);
    }
  }

  lemma {:induction false} InsertSorted(sorted: seq<Entry>, e: Entry, le: Order)
    requires Total(le) && SortedBy(sorted, le)
    ensures SortedBy(Insert(sorted, e, le), le)
  {
    InsertMembers(sorted, e, le);
    if sorted == [] || !le(sorted[0].name, e.name) {
      assert forall j | 0 <= j < |sorted| :: le(e.name, sorted[j].name);
    } else {
      InsertSorted(sorted[1..], e, le);
      InsertMembers(sorted[1..], e, le);
      var rest := Insert(sorted[1..], e, le);
      assert forall j | 0 <= j < |rest| :: rest[j] in rest;
      assert forall j | 0 <= j < |rest| :: le(sorted[0].name, rest[j].name);
    }
  }

  lemma {:induction false} InsertUnique(sorted: seq<Entry>, e: Entry, le: Order)
    requires Unique(sorted) && forall x | x in sorted :: x.name != e.name
    ensures Unique(Insert(sorted, e, le))
  {
    if sorted != [] && le(sorted[0].name, e.name) {
      InsertUnique(sorted[1..], e, le);
      InsertMembers(sorted[1..], e, le);
      var rest := Insert(sorted[1..], e, le);
      assert forall j | 0 <= j < |rest| :: rest[j] in rest;
      assert forall x | x in sorted[1..] :: x.name != sorted[0].name;
    }
  }

  /** Sorting keeps the entries and puts them in order. */
  lemma {:induction false} SortSorts(children: seq<Entry>, le: Order)
    requires Total(le)
    ensures SortedBy(Sort(children, le), le)
    ensures forall x :: x in Sort(children, le) <==> x in children
    ensures Unique(children) ==> Unique(Sort(children, le))
  {
    if children != [] {
      var init, e := children[..|children| - 1], children[|children| - 1];
      assert children == init + [e];
      SortSorts(init, le);
      InsertSorted(Sort(init, le), e, le);
      InsertMembers(Sort(init, le), e, le);
      if Unique(children) {
        assert forall x | x in init :: x.name != e.name;
        InsertUnique(Sort(init, le), e, le);
      }
    }
  }

  lemma HeadFirst(a: seq<Entry>, i: nat, le: Order)
    requires SortedBy(a, le) && i < |a|
    ensures i > 0 ==> le(a[0].name, a[i].name)
  {
  }

  lemma FirstIsNamed(a: seq<Entry>)
    ensures a != [] ==> Names(a, a[0].name)
  {
  }

  /** Entries in order with the same names, none of which tie, stand in the same places. */
  lemma {:induction false} SameNames(a: seq<Entry>, b: seq<Entry>, le: Order)
    requires NoTies(a, le) && SortedBy(a, le) && SortedBy(b, le) && Unique(a) && Unique(b)
    requires forall n :: Names(a, n) <==> Names(b, n)
    ensures |a| == |b| && forall i | 0 <= i < |a| :: a[i].name == b[i].name
  {
    FirstIsNamed(a);
    FirstIsNamed(b);
    if a != [] {
      var j :| 0 <= j < |b| && b[j].name == a[0].name;
      var k :| 0 <= k < |a| && a[k].name == b[0].name;
      HeadFirst(a, k, le);
      HeadFirst(b, j, le);
      forall n ensures Names(a[1..], n) <==> Names(b[1..], n) {
        NamesOfRest(a, n);
        NamesOfRest(b, n);
      }
      SameNames(a[1..], b[1..], le);
      forall i | 0 <= i < |a| ensures a[i].name == b[i].name {
        if i > 0 { assert a[1..][i - 1].name == b[1..][i - 1].name; }
      }
    }
  }

  lemma NamesOfRest(a: seq<Entry>, n: string)
    requires Unique(a) && a != []
    ensures Names(a[1..], n) <==> Names(a, n) && n != a[0].name
  {
    if Names(a, n) && n != a[0].name {
      var i :| 0 <= i < |a| && a[i].name == n;
      assert a[1..][i - 1].name == n;
    }
    assert forall e | e in a[1..] :: e in a;
    if Names(a[1..], n) {
      var i :| 0 <= i < |a[1..]| && a[1..][i].name == n;
      assert a[i + 1].name == n;
    }
  }

  // ---------- An order without ties ----------

  predicate Before(a: string, b: string) {
    a == "" || (b != "" && (a[0] < b[0] || (a[0] == b[0] && Before(a[1..], b[1..]))))
  }

  const LEXICAL: Order := (a: string, b: string) => Before(a, b)

  lemma {:induction false} BeforeOrders(a: string, b: string, c: string)
    ensures Before(a, b) || Before(b, a)
    ensures Before(a, b) && Before(b, c) ==> Before(a, c)
    ensures Before(a, b) && Before(b, a) ==> a == b
  {
    if a != "" && b != "" {
      BeforeOrders(a[1..], b[1..], if c != "" then c[1..] else "");
      if a[0] == b[0] && a[1..] == b[1..] { assert a == [a[0]] + a[1..] && b == [b[0]] + b[1..]; }
    }
  }

  lemma {:induction false} LexicalIsTotal()
    ensures Total(LEXICAL)
  {
    forall a: string, b: string, c: string
      ensures LEXICAL(a, b) || LEXICAL(b, a)
      ensures LEXICAL(a, b) && LEXICAL(b, c) ==> LEXICAL(a, c)
    {
      BeforeOrders(a, b, c);
    }
  }

  lemma {:induction false} LexicalTellsApart(children: seq<Entry>)
    ensures Apart(children, LEXICAL)
    decreases children
  {
    forall i, j | 0 <= i < j < |children| ensures !Tied(LEXICAL, children[i].name, children[j].name) {
      BeforeOrders(children[i].name, children[j].name, "");
    }
    forall i | 0 <= i < |children| && children[i].node.Dir? ensures Apart(children[i].node.children, LEXICAL) {
      LexicalTellsApart(children[i].node.children);
    }
  }

  // ---------- Entries of the derived trees ----------

  function PruneNode(node: Node): Node { if node.Dir? then Dir(Prune(node.children)) else node }

  function ArrangeNode(node: Node, le: Order): Node { if node.Dir? then Dir(Arrange(node.children, le)) else node }

  lemma {:induction false} PruneMembers(children: seq<Entry>, x: Entry)
    ensures x in Prune(children) <==>
            exists e :: e in children && !ExcludedName(e.name) && x == Entry(e.name, PruneNode(e.node))
  {
    if children != [] {
      PruneMembers(children[1..], x);
      assert children == [children[0]] + children[1..];
    }
  }

  lemma PrunedFrom(children: seq<Entry>, j: nat) returns (i: nat)
    requires j < |Prune(children)|
    ensures i < |children| && children[i].name == Prune(children)[j].name
  {
    hide Prune;
    var x := Prune(children)[j];
    assert x in Prune(children);
    PruneMembers(children, x);
    var e :| e in children && x == Entry(e.name, PruneNode(e.node));
    i :| 0 <= i < |children| && children[i] == e;
  }

  lemma {:induction false} PruneKeepsOrder(children: seq<Entry>, le: Order)
    ensures SortedBy(children, le) ==> SortedBy(Prune(children), le)
    ensures Unique(children) ==> Unique(Prune(children))
  {
    if children != [] {
      var rest := Prune(children[1..]);
      PruneKeepsOrder(children[1..], le);
      forall j: nat | j < |rest|
        ensures SortedBy(children, le) ==> le(children[0].name, rest[j].name)
        ensures Unique(children) ==> children[0].name != rest[j].name
      {
        hide Prune;
        var i := PrunedFrom(children[1..], j);
        assert children[i + 1].name == rest[j].name;
      }
    }
  }

  lemma {:induction false} ArrangeEachAt(children: seq<Entry>, le: Order, i: nat)
    requires i < |children|
    ensures ArrangeEach(children, le)[i] == Entry(children[i].name, ArrangeNode(children[i].node, le))
  {
    if i > 0 { ArrangeEachAt(children[1..], le, i - 1); }
  }

  lemma ArrangeEachMembers(children: seq<Entry>, le: Order, x: Entry)
    ensures x in ArrangeEach(children, le) <==> exists e :: e in children && x == Entry(e.name, ArrangeNode(e.node, le))
  {
    hide ArrangeEach, ArrangeNode;
    forall i: nat | i < |children|
      ensures ArrangeEach(children, le)[i] == Entry(children[i].name, ArrangeNode(children[i].node, le))
    {
      ArrangeEachAt(children, le, i);
    }
    if e :| e in children && x == Entry(e.name, ArrangeNode(e.node, le)) {
      var i :| 0 <= i < |children| && children[i] == e;
      assert ArrangeEach(children, le)[i] == x;
    }
  }

  lemma {:induction false} InsertArranges(sorted: seq<Entry>, e: Entry, le: Order)
    ensures ArrangeEach(Insert(sorted, e, le), le) ==
            Insert(ArrangeEach(sorted, le), Entry(e.name, ArrangeNode(e.node, le)), le)
  {
    var e' := Entry(e.name, ArrangeNode(e.node, le));
    if sorted == [] || !le(sorted[0].name, e.name) {
      assert ([e] + sorted)[1..] == sorted;
    } else {
      var rest := Insert(sorted[1..], e, le);
      InsertArranges(sorted[1..], e, le);
      assert ([sorted[0]] + rest)[1..] == rest;
      assert ArrangeEach(sorted, le)[1..] == ArrangeEach(sorted[1..], le);
    }
  }

  lemma {:induction false} ArrangeEachSnoc(init: seq<Entry>, e: Entry, le: Order)
    ensures ArrangeEach(init + [e], le) == ArrangeEach(init, le) + [Entry(e.name, ArrangeNode(e.node, le))]
  {
    if init == [] {
      assert init + [e] == [e] && [e][1..] == [];
    } else {
      assert (init + [e])[1..] == init[1..] + [e];
      ArrangeEachSnoc(init[1..], e, le);
    }
  }

  /** Sorting a directory does not look below it. */
  lemma {:induction false} SortArranges(children: seq<Entry>, le: Order)
    ensures ArrangeEach(Sort(children, le), le) == Arrange(children, le)
  {
    if children != [] {
      var init, e := children[..|children| - 1], children[|children| - 1];
      assert init + [e] == children;
      var each := ArrangeEach(children, le);
      SortArranges(init, le);
      InsertArranges(Sort(init, le), e, le);
      ArrangeEachSnoc(init, e, le);
      assert each[..|each| - 1] == ArrangeEach(init, le);
    }
  }

  lemma ArrangeSorts(children: seq<Entry>, le: Order)
    requires Total(le)
    ensures SortedBy(Arrange(children, le), le)
    ensures Unique(children) ==> Unique(Arrange(children, le))
  {
    SortSorts(ArrangeEach(children, le), le);
  }

  lemma ArrangeMembers(children: seq<Entry>, le: Order, x: Entry)
    requires Total(le)
    ensures x in Arrange(children, le) <==> exists e :: e in children && x == Entry(e.name, ArrangeNode(e.node, le))
  {
    SortSorts(ArrangeEach(children, le), le);
    ArrangeEachMembers(children, le, x);
  }

  // ---------- Measures of a walk ----------

  function Measure(items: seq<Item>, f: Item -> nat): nat {
    if items == [] then 0 else f(items[0]) + Measure(items[1..], f)
  }

  lemma {:induction false} MeasureConcat(a: seq<Item>, b: seq<Item>, f: Item -> nat)
    ensures Measure(a + b, f) == Measure(a, f) + Measure(b, f)
  {
    if a == [] {
      assert a + b == b;
    } else {
      assert (a + b)[1..] == a[1..] + b;
      MeasureConcat(a[1..], b, f);
    }
  }

  lemma MeasureEntry(e: Entry, rest: seq<Entry>, rel: Path, f: Item -> nat)
    ensures Measure(Walk([e] + rest, rel), f) == Measure(WalkEntry(e, rel), f) + Measure(Walk(rest, rel), f)
  {
    assert ([e] + rest)[1..] == rest;
    MeasureConcat(WalkEntry(e, rel), Walk(rest, rel), f);
  }

  lemma {:induction false} MeasureInsert(sorted: seq<Entry>, e: Entry, le: Order, rel: Path, f: Item -> nat)
    ensures Measure(Walk(Insert(sorted, e, le), rel), f) ==
            Measure(WalkEntry(e, rel), f) + Measure(Walk(sorted, rel), f)
  {
    MeasureEntry(e, sorted, rel, f);
    if sorted != [] && le(sorted[0].name, e.name) {
      MeasureInsert(sorted[1..], e, le, rel, f);
      MeasureEntry(sorted[0], Insert(sorted[1..], e, le), rel, f);
      MeasureEntry(sorted[0], sorted[1..], rel, f);
      assert [sorted[0]] + sorted[1..] == sorted;
    }
  }

  lemma {:induction false} MeasureSnoc(init: seq<Entry>, e: Entry, rel: Path, f: Item -> nat)
    ensures Measure(Walk(init + [e], rel), f) == Measure(Walk(init, rel), f) + Measure(WalkEntry(e, rel), f)
  {
    if init == [] {
      MeasureEntry(e, [], rel, f);
      assert init + [e] == [e] + [];
    } else {
      MeasureSnoc(init[1..], e, rel, f);
      MeasureEntry(init[0], init[1..] + [e], rel, f);
      MeasureEntry(init[0], init[1..], rel, f);
      assert init + [e] == [init[0]] + (init[1..] + [e]) && init == [init[0]] + init[1..];
    }
  }

  lemma {:induction false} MeasureSort(children: seq<Entry>, le: Order, rel: Path, f: Item -> nat)
    ensures Measure(Walk(Sort(children, le), rel), f) == Measure(Walk(children, rel), f)
  {
    if children != [] {
      var init, e := children[..|children| - 1], children[|children| - 1];
      MeasureSort(init, le, rel, f);
      MeasureInsert(Sort(init, le), e, le, rel, f);
      MeasureSnoc(init, e, rel, f);
      assert init + [e] == children;
    }
  }

  /** No measure of a tree depends on the order in which its directories are read. */
  lemma {:induction false} MeasureArrange(children: seq<Entry>, le: Order, rel: Path, f: Item -> nat)
    ensures Measure(Walk(Arrange(children, le), rel), f) == Measure(Walk(children, rel), f)
    decreases children, 1
  {
    MeasureSort(ArrangeEach(children, le), le, rel, f);
    MeasureArrangeEach(children, le, rel, f);
  }

  lemma {:induction false} MeasureArrangeEach(children: seq<Entry>, le: Order, rel: Path, f: Item -> nat)
    ensures Measure(Walk(ArrangeEach(children, le), rel), f) == Measure(Walk(children, rel), f)
    decreases children, 0
  {
    if children != [] {
      var e := children[0];
      var e' := Entry(e.name, ArrangeNode(e.node, le));
      var here := [Item(rel + [e.name], KindOf(e.node))];
      MeasureArrangeEach(children[1..], le, rel, f);
      MeasureEntry(e', ArrangeEach(children[1..], le), rel, f);
      MeasureEntry(e, children[1..], rel, f);
      assert [e] + children[1..] == children;
      if e.node.Dir? {
        MeasureArrange(e.node.children, le, rel + [e.name], f);
        MeasureConcat(here, Walk(e.node.children, rel + [e.name]), f);
        MeasureConcat(here, Walk(Arrange(e.node.children, le), rel + [e.name]), f);
      }
    }
  }
}
