/**
 When the digest of a source agrees with the digests of all its snapshots: exactly when the collation tells
 the copied names of every directory apart (src/execution/workspace-transfer.ts).
 */
module SnapshotTies {
  import opened Wrappers
  import opened WorkspaceTree
  import opened SnapshotDigest

  // ---------- A sort is stable ----------

  ghost predicate Earlier(s: seq<Entry>, a: string, b: string) {
    exists p, q :: 0 <= p < q < |s| && s[p].name == a && s[q].name == b
  }

  lemma EarlierIs(s: seq<Entry>, p: nat, q: nat)
    requires p < q < |s|
    ensures Earlier(s, s[p].name, s[q].name)
  {
  }

  lemma EarlierBehind(x: Entry, s: seq<Entry>, a: string, b: string)
    requires Earlier(s, a, b)
    ensures Earlier([x] + s, a, b)
  {
    var p, q :| 0 <= p < q < |s| && s[p].name == a && s[q].name == b;
    EarlierIs([x] + s, p + 1, q + 1);
  }

  lemma EarlierThanMember(x: Entry, s: seq<Entry>, e: Entry)
    requires e in s
    ensures Earlier([x] + s, x.name, e.name)
  {
    var q :| 0 <= q < |s| && s[q] == e;
    EarlierIs([x] + s, 0, q + 1);
  }

  lemma NotBoth(s: seq<Entry>, a: string, b: string)
    requires Unique(s) && Earlier(s, a, b)
    ensures !Earlier(s, b, a)
  {
    var p, q :| 0 <= p < q < |s| && s[p].name == a && s[q].name == b;
    forall k, l | 0 <= k < l < |s| ensures !(s[k].name == b && s[l].name == a) {
      OnePlace(s, k, q);
      OnePlace(s, l, p);
    }
  }

  lemma OnePlace(s: seq<Entry>, i: nat, j: nat)
    requires Unique(s) && i < |s| && j < |s|
    ensures s[i].name == s[j].name ==> i == j
  {
    assert i < j ==> s[i].name != s[j].name;
    assert j < i ==> s[j].name != s[i].name;
  }

  lemma {:induction false} InsertKeepsEarlier(sorted: seq<Entry>, e: Entry, le: Order, p: nat, q: nat)
    requires p < q < |sorted|
    ensures Earlier(Insert(sorted, e, le), sorted[p].name, sorted[q].name)
  {
    if sorted == [] || !le(sorted[0].name, e.name) {
      EarlierIs([e] + sorted, p + 1, q + 1);
    } else {
      var rest := Insert(sorted[1..], e, le);
      if p == 0 {
        InsertMembers(sorted[1..], e, le);
        assert sorted[1..][q - 1] == sorted[q];
        EarlierThanMember(sorted[0], rest, sorted[q]);
      } else {
        InsertKeepsEarlier(sorted[1..], e, le, p - 1, q - 1);
        EarlierBehind(sorted[0], rest, sorted[p].name, sorted[q].name);
      }
    }
  }

  lemma {:induction false} InsertGoesBehind(sorted: seq<Entry>, e: Entry, le: Order, k: nat)
    requires Total(le) && SortedBy(sorted, le) && k < |sorted| && le(sorted[k].name, e.name)
    ensures Earlier(Insert(sorted, e, le), sorted[k].name, e.name)
  {
    assert le(sorted[0].name, sorted[k].name);
    var rest := Insert(sorted[1..], e, le);
    if k == 0 {
      InsertMembers(sorted[1..], e, le);
      EarlierThanMember(sorted[0], rest, e);
    } else {
      InsertGoesBehind(sorted[1..], e, le, k - 1);
      EarlierBehind(sorted[0], rest, sorted[k].name, e.name);
    }
  }

  /** What comes first and does not belong behind stays first. */
  lemma {:induction false} SortIsStable(children: seq<Entry>, le: Order, i: nat, j: nat)
    requires Total(le) && i < j < |children| && le(children[i].name, children[j].name)
    ensures Earlier(Sort(children, le), children[i].name, children[j].name)
  {
    var n := |children| - 1;
    if j < n {
      SortIsStable(children[..n], le, i, j);
      LaterInsert(Sort(children[..n], le), children[n], le, children[i].name, children[j].name);
    } else {
      LastInsert(children[..n], children[n], le, i);
    }
  }

  lemma LaterInsert(sorted: seq<Entry>, e: Entry, le: Order, a: string, b: string)
    requires Earlier(sorted, a, b)
    ensures Earlier(Insert(sorted, e, le), a, b)
  {
    var p: nat, q: nat :| p < q < |sorted| && sorted[p].name == a && sorted[q].name == b;
    InsertKeepsEarlier(sorted, e, le, p, q);
  }

  lemma LastInsert(init: seq<Entry>, e: Entry, le: Order, i: nat)
    requires Total(le) && i < |init| && le(init[i].name, e.name)
    ensures Earlier(Insert(Sort(init, le), e, le), init[i].name, e.name)
  {
    SortSorts(init, le);
    hide Sort, Insert;
    assert init[i] in init;
    var k: nat :| k < |Sort(init, le)| && Sort(init, le)[k] == init[i];
    InsertGoesBehind(Sort(init, le), e, le, k);
  }

  lemma ArrangeIsStable(children: seq<Entry>, le: Order, i: nat, j: nat)
    requires Total(le) && i < j < |children| && le(children[i].name, children[j].name)
    ensures Earlier(Arrange(children, le), children[i].name, children[j].name)
  {
    SortIsStable(ArrangeEach(children, le), le, i, j);
  }

  lemma {:induction false} PruneKeepsEarlier(s: seq<Entry>, p: nat, q: nat)
    requires p < q < |s| && !ExcludedName(s[p].name) && !ExcludedName(s[q].name)
    ensures Earlier(Prune(s), s[p].name, s[q].name)
  {
    var rest := Prune(s[1..]);
    if p == 0 {
      var x := Entry(s[q].name, PruneNode(s[q].node));
      assert s[1..][q - 1] == s[q];
      PruneMembers(s[1..], x);
      assert x in rest;
      EarlierThanMember(Entry(s[0].name, PruneNode(s[0].node)), rest, x);
    } else {
      PruneKeepsEarlier(s[1..], p - 1, q - 1);
      if !ExcludedName(s[0].name) {
        EarlierBehind(Entry(s[0].name, PruneNode(s[0].node)), rest, s[p].name, s[q].name);
      } else {
        assert Prune(s) == [] + rest == rest;
      }
    }
  }

  // ---------- The snapshot that lists every directory backwards ----------

  function MirrorNode(node: Node): Node {
    match node
    case Dir(children) => Dir(Mirror(children))
    case File(mode, content, _) => File(mode, content, 1)
    case _ => node
  }

  function Mirror(children: seq<Entry>): (r: seq<Entry>)
    ensures |r| == |children|
  {
    if children == [] then [] else Mirror(children[1..]) + [Entry(children[0].name, MirrorNode(children[0].node))]
  }

  lemma {:induction false} MirrorAt(children: seq<Entry>, i: nat)
    requires i < |children|
    ensures Mirror(children)[|children| - 1 - i] == Entry(children[i].name, MirrorNode(children[i].node))
  {
    if i > 0 { MirrorAt(children[1..], i - 1); }
  }

  /** Names differ within each directory and everything can be copied. */
  ghost predicate Sound(children: seq<Entry>) {
    && Unique(children)
    && forall i | 0 <= i < |children| :: !children[i].node.Other? &&
         (children[i].node.Dir? ==> Sound(children[i].node.children))
  }

  lemma {:induction false} MirrorIsCopy(p: seq<Entry>)
    requires Sound(p)
    ensures Copied(p, Mirror(p)) && Sound(Mirror(p))
    decreases p
  {
    var m := Mirror(p);
    var n := |p|;
    forall k | 0 <= k < n
      ensures m[k] == Entry(p[n - 1 - k].name, MirrorNode(p[n - 1 - k].node))
      ensures CopiedNode(p[n - 1 - k].node, m[k].node)
      ensures !m[k].node.Other? && (m[k].node.Dir? ==> Sound(m[k].node.children))
    {
      MirrorAt(p, n - 1 - k);
      if p[n - 1 - k].node.Dir? { MirrorIsCopy(p[n - 1 - k].node.children); }
    }
    forall i, j | 0 <= i < j < n ensures m[i].name != m[j].name { assert p[n - 1 - j].name != p[n - 1 - i].name; }
    forall name ensures Names(p, name) <==> Names(m, name) { MirrorNames(p, name); }
    forall i, k | 0 <= i < n && 0 <= k < n && p[i].name == m[k].name ensures i == n - 1 - k {
      OnePlace(p, i, n - 1 - k);
    }
  }

  lemma MirrorNames(p: seq<Entry>, name: string)
    ensures Names(p, name) <==> Names(Mirror(p), name)
  {
    var m := Mirror(p);
    if Names(p, name) {
      var i := NamedIn(p, name);
      MirrorAt(p, i);
      assert m[|p| - 1 - i] in m;
    }
    if Names(m, name) {
      var k := NamedIn(m, name);
      MirrorAt(p, |p| - 1 - k);
      assert p[|p| - 1 - k] in p;
    }
  }

  lemma MirrorTurnsAround(p: seq<Entry>, i: nat, j: nat)
    requires i < j < |p|
    ensures Mirror(p)[|p| - 1 - j].name == p[j].name && Mirror(p)[|p| - 1 - i].name == p[i].name
  {
    MirrorAt(p, i);
    MirrorAt(p, j);
  }

  // ---------- Soundness of the derived trees ----------

  lemma {:induction false} CopiedIsSound(src: seq<Entry>, dst: seq<Entry>)
    requires AllUnique(src) && Copied(Prune(src), dst)
    ensures Sound(Prune(src))
    decreases src
  {
    PruneKeepsOrder(src, LEXICAL);
    var p := Prune(src);
    forall i | 0 <= i < |p| ensures !p[i].node.Other? && (p[i].node.Dir? ==> Sound(p[i].node.children)) {
      hide Prune, ExcludedName;
      assert p[i] in p && Names(dst, p[i].name);
      var j := NamedIn(dst, p[i].name);
      assert CopiedNode(p[i].node, dst[j].node);
      PruneMembers(src, p[i]);
      var e :| e in src && !ExcludedName(e.name) && p[i] == Entry(e.name, PruneNode(e.node));
      var k :| 0 <= k < |src| && src[k] == e;
      if e.node.Dir? { CopiedIsSound(src[k].node.children, dst[j].node.children); }
    }
  }

  lemma {:induction false} ArrangedSourceIsSound(src: seq<Entry>, le: Order)
    requires Total(le) && AllUnique(src) && Sound(Prune(src))
    ensures Sound(Prune(Arrange(src, le)))
    decreases src
  {
    ArrangeSorts(src, le);
    PruneKeepsOrder(Arrange(src, le), le);
    var a := Prune(Arrange(src, le));
    forall i: nat | i < |a| ensures !a[i].node.Other? && (a[i].node.Dir? ==> Sound(a[i].node.children)) {
      hide Prune, Arrange, ExcludedName, Total;
      var k := FromSource(src, le, i);
      SoundBelow(src, k);
      if src[k].node.Dir? { ArrangedSourceIsSound(src[k].node.children, le); }
    }
  }

  lemma SoundBelow(src: seq<Entry>, k: nat)
    requires Sound(Prune(src)) && k < |src| && !ExcludedName(src[k].name)
    ensures !src[k].node.Other? && (src[k].node.Dir? ==> Sound(Prune(src[k].node.children)))
  {
    hide Prune, ExcludedName;
    var x := Entry(src[k].name, PruneNode(src[k].node));
    PruneMembers(src, x);
    assert x in Prune(src);
    var i :| 0 <= i < |Prune(src)| && Prune(src)[i] == x;
    assert !Prune(src)[i].node.Other?;
  }

  lemma {:induction false} ArrangedIsSound(tree: seq<Entry>, le: Order)
    requires Total(le) && Sound(tree)
    ensures Sound(Arrange(tree, le))
    decreases tree
  {
    ArrangeSorts(tree, le);
    var a := Arrange(tree, le);
    forall i: nat | i < |a| ensures !a[i].node.Other? && (a[i].node.Dir? ==> Sound(a[i].node.children)) {
      hide Arrange, Total;
      var k := FromSnapshot(tree, le, i);
      if tree[k].node.Dir? { ArrangedIsSound(tree[k].node.children, le); }
    }
  }

  // ---------- Tokens determine the tree ----------

  predicate UnderPath(t: Token, path: Path) { |t.rel| >= |path| && t.rel[..|path|] == path }

  /** Every token of a walk names an entry of the directory. */
  lemma {:induction false} TokenPaths(children: seq<Entry>, rel: Path, t: Token)
    requires t in Tokens(Walk(children, rel))
    ensures |t.rel| > |rel| && t.rel[..|rel|] == rel && Names(children, t.rel[|rel|])
    decreases children
  {
    var e, rest := children[0], children[1..];
    TokensConcat(WalkEntry(e, rel), Walk(rest, rel));
    if t in Tokens(Walk(rest, rel)) {
      TokenPaths(rest, rel, t);
      var i := NamedIn(rest, t.rel[|rel|]);
      assert children[i + 1] in children;
    } else {
      EntryTokenPaths(e, rel, t);
      assert e in children;
    }
  }

  lemma EntryTokenPaths(e: Entry, rel: Path, t: Token)
    requires t in EntryTokens(e, rel)
    ensures |t.rel| > |rel| && t.rel[..|rel| + 1] == rel + [e.name] && t.rel[..|rel|] == rel && t.rel[|rel|] == e.name
    decreases e, 0
  {
    var path := rel + [e.name];
    EntryTokensAre(e, rel);
    if t in TokenOf(Item(path, KindOf(e.node))) {
      assert t.rel == path;
    } else {
      TokenPaths(e.node.children, path, t);
    }
    assert t.rel[..|path|][..|rel|] == path[..|rel|] == rel;
    assert t.rel[|rel|] == t.rel[..|path|][|rel|];
  }

  lemma SplitAt(a: seq<Token>, b: seq<Token>, c: seq<Token>, d: seq<Token>, path: Path)
    requires a + b == c + d
    requires forall t | t in a + c :: UnderPath(t, path)
    requires forall t | t in b + d :: !UnderPath(t, path)
    ensures a == c && b == d
  {
    hide UnderPath;
    CutAt(a, b, path);
    CutAt(c, d, path);
    var s := a + b;
    assert |a| < |s| ==> (UnderPath(s[|a|], path) <==> |a| < |c|);
    assert |c| < |s| ==> (UnderPath(s[|c|], path) <==> |c| < |a|);
    assert a == s[..|a|] && c == s[..|c|] && b == s[|a|..] && d == s[|c|..];
  }

  lemma CutAt(a: seq<Token>, b: seq<Token>, path: Path)
    requires (forall t | t in a :: UnderPath(t, path)) && (forall t | t in b :: !UnderPath(t, path))
    ensures forall i | 0 <= i < |a + b| :: UnderPath((a + b)[i], path) <==> i < |a|
  {
    hide UnderPath;
    forall i | 0 <= i < |a + b| ensures UnderPath((a + b)[i], path) <==> i < |a| {
      assert if i < |a| then (a + b)[i] in a else (a + b)[i] in b;
    }
  }

  /** Two trees with the same token stream are the same, up to what no token tells. */
  lemma {:induction false} TokensDetermine(x: seq<Entry>, y: seq<Entry>, rel: Path)
    requires Sound(x) && Sound(y) && Tokens(Walk(x, rel)) == Tokens(Walk(y, rel))
    ensures Same(x, y)
    decreases x
  {
    if x == [] || y == [] {
      NoTokensNoEntries(x, rel);
      NoTokensNoEntries(y, rel);
    } else {
      HeadsAgree(x, y, rel);
      SoundTail(x);
      SoundTail(y);
      if x[0].node.Dir? { TokensDetermine(x[0].node.children, y[0].node.children, rel + [x[0].name]); }
      TokensDetermine(x[1..], y[1..], rel);
      assert forall i | 0 < i < |x| :: x[i] == x[1..][i - 1] && y[i] == y[1..][i - 1];
    }
  }

  lemma SoundTail(x: seq<Entry>)
    requires Sound(x) && x != []
    ensures Sound(x[1..])
  {
  }

  lemma NoTokensNoEntries(x: seq<Entry>, rel: Path)
    requires Sound(x)
    ensures x == [] <==> Tokens(Walk(x, rel)) == []
  {
    if x != [] {
      TokensConcat(WalkEntry(x[0], rel), Walk(x[1..], rel));
      EntryTokensAre(x[0], rel);
      assert !x[0].node.Other?;
    }
  }

  /** The first entries agree, and so do the streams of what is below them and of what follows. */
  lemma HeadsAgree(x: seq<Entry>, y: seq<Entry>, rel: Path)
    requires Sound(x) && Sound(y) && x != [] && y != [] && Tokens(Walk(x, rel)) == Tokens(Walk(y, rel))
    ensures x[0].name == y[0].name && SameKind(KindOf(x[0].node), KindOf(y[0].node))
    ensures Tokens(Walk(x[1..], rel)) == Tokens(Walk(y[1..], rel))
    ensures x[0].node.Dir? ==>
              Tokens(Walk(x[0].node.children, rel + [x[0].name])) == Tokens(Walk(y[0].node.children, rel + [x[0].name]))
  {
    var a, b := Unfolded(x, rel);
    var c, d := Unfolded(y, rel);
    SameHead(x[0], y[0], rel, Tokens(Walk(x, rel)), a + b, c + d);
    SplitAt(a, b, c, d, rel + [x[0].name]);
  }

  lemma SameHead(e: Entry, f: Entry, rel: Path, s: seq<Token>, p: seq<Token>, q: seq<Token>)
    requires !e.node.Other? && !f.node.Other?
    requires s == TokenOf(Item(rel + [e.name], KindOf(e.node))) + p
    requires s == TokenOf(Item(rel + [f.name], KindOf(f.node))) + q
    ensures e.name == f.name && SameKind(KindOf(e.node), KindOf(f.node)) && p == q
  {
    assert s[0].rel == rel + [e.name] && s[0].rel == rel + [f.name];
    assert s[0].rel[|rel|] == e.name;
    assert p == s[1..] && q == s[1..];
  }

  /** A stream is the first entry's token, what is below the entry, and what follows it. */
  lemma Unfolded(x: seq<Entry>, rel: Path) returns (below: seq<Token>, after: seq<Token>)
    requires Sound(x) && x != []
    ensures Tokens(Walk(x, rel)) == TokenOf(Item(rel + [x[0].name], KindOf(x[0].node))) + (below + after)
    ensures below == if x[0].node.Dir? then Tokens(Walk(x[0].node.children, rel + [x[0].name])) else []
    ensures after == Tokens(Walk(x[1..], rel))
    ensures forall t | t in below :: UnderPath(t, rel + [x[0].name])
    ensures forall t | t in after :: !UnderPath(t, rel + [x[0].name])
  {
    var path := rel + [x[0].name];
    below := if x[0].node.Dir? then Tokens(Walk(x[0].node.children, path)) else [];
    after := Tokens(Walk(x[1..], rel));
    hide Walk, Tokens, TokenOf, UnderPath, Sound;
    Stream(x, rel);
    forall t | t in below ensures UnderPath(t, path) { BelowPath(x[0], rel, t); }
    forall t | t in after ensures !UnderPath(t, path) { AfterPath(x, rel, t); }
  }

  lemma Stream(x: seq<Entry>, rel: Path)
    requires x != []
    ensures var below := if x[0].node.Dir? then Tokens(Walk(x[0].node.children, rel + [x[0].name])) else [];
            Tokens(Walk(x, rel)) ==
            TokenOf(Item(rel + [x[0].name], KindOf(x[0].node))) + (below + Tokens(Walk(x[1..], rel)))
  {
    hide Tokens, TokenOf;
    TokensConcat(WalkEntry(x[0], rel), Walk(x[1..], rel));
    EntryTokensAre(x[0], rel);
  }

  lemma BelowPath(e: Entry, rel: Path, t: Token)
    requires e.node.Dir? && t in Tokens(Walk(e.node.children, rel + [e.name]))
    ensures UnderPath(t, rel + [e.name])
  {
    TokenPaths(e.node.children, rel + [e.name], t);
  }

  lemma AfterPath(x: seq<Entry>, rel: Path, t: Token)
    requires Sound(x) && x != [] && t in Tokens(Walk(x[1..], rel))
    ensures !UnderPath(t, rel + [x[0].name])
  {
    TokenPaths(x[1..], rel, t);
    var i := NamedIn(x[1..], t.rel[|rel|]);
    assert x[0].name != x[i + 1].name;
    OtherPath(t, rel, x[0].name);
  }

  lemma OtherPath(t: Token, rel: Path, name: string)
    requires |t.rel| > |rel| && t.rel[|rel|] != name
    ensures !UnderPath(t, rel + [name])
  {
    var path := rel + [name];
    assert t.rel[..|path|][|rel|] == t.rel[|rel|] && path[|rel|] == name;
  }

  // ---------- Ties show ----------

  /** If the snapshot that lists everything backwards is arranged like the source, nothing ties. */
  lemma {:induction false} MirrorShowsTies(src: seq<Entry>, le: Order)
    requires Total(le) && AllUnique(src) && Sound(Prune(src))
    requires Same(Prune(Arrange(src, le)), Arrange(Mirror(Prune(src)), le))
    ensures Apart(Prune(src), le)
    decreases src
  {
    var p := Prune(src);
    forall k, l | 0 <= k < l < |p| ensures !Tied(le, p[k].name, p[l].name) { MirrorShowsTie(src, le, k, l); }
    forall k: nat | k < |p| && p[k].node.Dir? ensures Apart(p[k].node.children, le) {
      var m, i := MirrorBelow(src, le, k);
      SoundBelow(src, m);
      MirrorShowsTies(src[m].node.children, le);
    }
  }

  lemma InSource(src: seq<Entry>, k: nat) returns (m: nat)
    requires k < |Prune(src)|
    ensures m < |src| && !ExcludedName(src[m].name) && Prune(src)[k] == Entry(src[m].name, PruneNode(src[m].node))
  {
    hide Prune, ExcludedName;
    var x := Prune(src)[k];
    PruneMembers(src, x);
    var e :| e in src && !ExcludedName(e.name) && x == Entry(e.name, PruneNode(e.node));
    m :| 0 <= m < |src| && src[m] == e;
  }

  lemma MirrorShowsTie(src: seq<Entry>, le: Order, k: nat, l: nat)
    requires Total(le) && AllUnique(src) && k < l < |Prune(src)|
    requires Same(Prune(Arrange(src, le)), Arrange(Mirror(Prune(src)), le))
    ensures !Tied(le, Prune(src)[k].name, Prune(src)[l].name)
  {
    var p := Prune(src);
    var a, b := p[k].name, p[l].name;
    if Tied(le, a, b) {
      var i := InSource(src, k);
      var j := InSource(src, l);
      SourceOrder(src, le, k, l, i, j);
      MirrorOrder(p, le, k, l);
      CarryEarlier(Prune(Arrange(src, le)), Arrange(Mirror(p), le), a, b);
      ArrangeSorts(Mirror(p), le);
      MirrorUnique(src);
      NotBoth(Arrange(Mirror(p), le), a, b);
    }
  }

  lemma MirrorUnique(src: seq<Entry>)
    requires AllUnique(src)
    ensures Unique(Mirror(Prune(src)))
  {
    PruneKeepsOrder(src, LEXICAL);
    var p := Prune(src);
    forall i, j | 0 <= i < j < |p| ensures Mirror(p)[i].name != Mirror(p)[j].name {
      MirrorTurnsAround(p, |p| - 1 - j, |p| - 1 - i);
    }
  }

  lemma SourceOrder(src: seq<Entry>, le: Order, k: nat, l: nat, i: nat, j: nat)
    requires Total(le) && AllUnique(src) && k < l < |Prune(src)| && i < |src| && j < |src|
    requires src[i].name == Prune(src)[k].name && src[j].name == Prune(src)[l].name
    requires !ExcludedName(src[i].name) && !ExcludedName(src[j].name) && le(src[i].name, src[j].name)
    ensures Earlier(Prune(Arrange(src, le)), src[i].name, src[j].name)
  {
    hide Prune, Arrange, ExcludedName, Total;
    var a, b := src[i].name, src[j].name;
    PruneKeepsOrder(src, LEXICAL);
    EarlierIs(Prune(src), k, l);
    if j <= i {
      OnePlace(Prune(src), k, l);
      assert j < i;
      PruneKeepsEarlier(src, j, i);
      NotBoth(Prune(src), a, b);
      assert false;
    }
    ArrangeIsStable(src, le, i, j);
    var x: nat, y: nat :| x < y < |Arrange(src, le)| && Arrange(src, le)[x].name == a && Arrange(src, le)[y].name == b;
    PruneKeepsEarlier(Arrange(src, le), x, y);
  }

  lemma MirrorOrder(p: seq<Entry>, le: Order, k: nat, l: nat)
    requires Total(le) && k < l < |p| && le(p[l].name, p[k].name)
    ensures Earlier(Arrange(Mirror(p), le), p[l].name, p[k].name)
  {
    hide *;
    var m := Mirror(p);
    MirrorTurnsAround(p, k, l);
    var i: nat, j: nat := |p| - 1 - l, |p| - 1 - k;
    StableAt(m, le, i, j, p[l].name, p[k].name);
  }

  lemma StableAt(m: seq<Entry>, le: Order, i: nat, j: nat, a: string, b: string)
    requires Total(le) && i < j < |m| && m[i].name == a && m[j].name == b && le(a, b)
    ensures Earlier(Arrange(m, le), a, b)
  {
    hide Arrange, Earlier, Total;
    ArrangeIsStable(m, le, i, j);
  }

  lemma CarryEarlier(a: seq<Entry>, b: seq<Entry>, x: string, y: string)
    requires Same(a, b) && Earlier(a, x, y)
    ensures Earlier(b, x, y)
  {
    var p: nat, q: nat :| p < q < |a| && a[p].name == x && a[q].name == y;
    EarlierIs(b, p, q);
  }

  /** The k-th copied directory: where it is in the source, and that it too is arranged like its mirror. */
  lemma MirrorBelow(src: seq<Entry>, le: Order, k: nat) returns (m: nat, i: nat)
    requires Total(le) && AllUnique(src) && k < |Prune(src)| && Prune(src)[k].node.Dir?
    requires Same(Prune(Arrange(src, le)), Arrange(Mirror(Prune(src)), le))
    ensures m < |src| && !ExcludedName(src[m].name) && src[m].node.Dir?
    ensures Prune(src)[k].node.children == Prune(src[m].node.children)
    ensures var c := src[m].node.children; Same(Prune(Arrange(c, le)), Arrange(Mirror(Prune(c)), le))
  {
    m := InSource(src, k);
    hide Prune, Arrange, Mirror, ExcludedName, Total, Unique, AllUnique, Same, MirrorNode;
    var a, b := Prune(Arrange(src, le)), Arrange(Mirror(Prune(src)), le);
    MirrorUnique(src);
    ArrangeSorts(Mirror(Prune(src)), le);
    i := AmongSource(src, le, m);
    var j := AmongMirror(src, le, k);
    SameAt(a, b, i, j);
  }

  lemma AmongSource(src: seq<Entry>, le: Order, m: nat) returns (i: nat)
    requires Total(le) && m < |src| && !ExcludedName(src[m].name) && src[m].node.Dir?
    ensures i < |Prune(Arrange(src, le))| && Prune(Arrange(src, le))[i].name == src[m].name
    ensures Prune(Arrange(src, le))[i].node == Dir(Prune(Arrange(src[m].node.children, le)))
  {
    hide Prune, Arrange, ExcludedName, Total;
    var y := Entry(src[m].name, ArrangeNode(src[m].node, le));
    ArrangeMembers(src, le, y);
    var x := Entry(src[m].name, PruneNode(y.node));
    PruneMembers(Arrange(src, le), x);
    assert src[m] in src && y in Arrange(src, le) && x in Prune(Arrange(src, le));
    i :| 0 <= i < |Prune(Arrange(src, le))| && Prune(Arrange(src, le))[i] == x;
  }

  lemma AmongMirror(src: seq<Entry>, le: Order, k: nat) returns (j: nat)
    requires Total(le) && k < |Prune(src)| && Prune(src)[k].node.Dir?
    ensures j < |Arrange(Mirror(Prune(src)), le)| && Arrange(Mirror(Prune(src)), le)[j].name == Prune(src)[k].name
    ensures Arrange(Mirror(Prune(src)), le)[j].node == Dir(Arrange(Mirror(Prune(src)[k].node.children), le))
  {
    MirrorAt(Prune(src), k);
    hide Prune, Arrange, Mirror, Total;
    var p := Mirror(Prune(src));
    var z := p[|Prune(src)| - 1 - k];
    var x := Entry(z.name, ArrangeNode(z.node, le));
    ArrangeMembers(p, le, x);
    assert z in p && x in Arrange(p, le);
    j :| 0 <= j < |Arrange(p, le)| && Arrange(p, le)[j] == x;
  }

  lemma SameAt(a: seq<Entry>, b: seq<Entry>, i: nat, j: nat)
    requires Same(a, b) && Unique(b) && i < |a| && j < |b| && a[i].name == b[j].name
    requires a[i].node.Dir? && b[j].node.Dir?
    ensures Same(a[i].node.children, b[j].node.children)
  {
    OnePlace(b, i, j);
  }

  // ---------- Agreement ----------

  /** Main theorem: for every source and every snapshot of it whose digests succeed, all snapshots of that
      source serialise like it if and only if no two copied names of a directory tie in the collation. */
  lemma SnapshotsAgreeExactly(root: Path, src: seq<Entry>, one: seq<Entry>, le: Order)
    requires Total(le) && AllUnique(src) && Copied(CopyAt(src, []), one)
    requires HashSource(src, le).Ok? && HashTree(root, one, le).Ok?
    ensures Apart(CopyAt(src, []), le) <==>
            forall dst | Copied(CopyAt(src, []), dst) :: HashTree(root, dst, le) == HashSource(src, le)
  {
    assert !Excluded([]);
    FilterIsPruning(src, []);
    hide Total, AllUnique, Copied, Prune, Walk, Same, Apart, HashSource, HashTree, CopyAt, Excluded;
    forall dst | Copied(Prune(src), dst) ensures HashTree(root, dst, le).Ok? { AllPass(root, src, one, dst, le); }
    if Apart(Prune(src), le) {
      forall dst | Copied(Prune(src), dst) ensures HashTree(root, dst, le) == HashSource(src, le) {
        DigestsAgree(root, src, dst, le);
      }
    } else {
      CopiedIsSound(src, one);
      MirrorIsCopy(Prune(src));
      var dst := Mirror(Prune(src));
      if HashTree(root, dst, le) == HashSource(src, le) {
        SameStreams(root, src, dst, le);
        ArrangedSourceIsSound(src, le);
        ArrangedIsSound(dst, le);
        TokensDetermine(Prune(Arrange(src, le)), Arrange(dst, le), []);
        MirrorShowsTies(src, le);
      }
    }
  }

  lemma SameStreams(root: Path, src: seq<Entry>, dst: seq<Entry>, le: Order)
    requires HashSource(src, le).Ok? && HashTree(root, dst, le) == HashSource(src, le)
    ensures Tokens(Walk(Prune(Arrange(src, le)), [])) == Tokens(Walk(Arrange(dst, le), []))
  {
    hide Walk, Prune, Arrange, Tokens, Scan;
  }

  /** When one snapshot passes, all do. */
  lemma AllPass(root: Path, src: seq<Entry>, one: seq<Entry>, dst: seq<Entry>, le: Order)
    requires Total(le) && AllUnique(src) && Copied(Prune(src), one) && Copied(Prune(src), dst)
    requires HashSource(src, le).Ok? && HashTree(root, one, le).Ok?
    ensures HashTree(root, dst, le).Ok?
  {
    hide Total, AllUnique, Copied, Prune, Walk, HashSource, HashTree;
    HashSourcePasses(src, dst, le);
    HashTreePasses(root, src, one, le);
    HashTreePasses(root, src, dst, le);
    assert Portable(UnsafeLink(root));
    CarriesOver(src, one, le, UnsafeLink(root));
    CarriesOver(src, dst, le, UnsafeLink(root));
  }
}
