/**
 What the knowledge base takes in and what it answers, said of the facts themselves (src/knowledge/semantics.ts,
 src/knowledge/workflow.ts).
 */
module KnowledgeRules {
  import opened Wrappers
  import opened Knowledge

  // ---------- Whom an identity names ----------

  /** The fact's entity goes by this identity: it is its id or one of the aliases, however it is written. */
  predicate Called(t: Text, f: Fact, identity: string) {
    exists name | name in [f.entityId] + f.aliases :: t.norm(name) == t.norm(identity)
  }

  lemma CalledIs(t: Text, f: Fact, identity: string)
    ensures Called(t, f, identity) <==> Names(t, f, t.norm(identity))
  {
    var names := [f.entityId] + f.aliases;
    assert f.entityId in names && forall alias | alias in f.aliases :: alias in names;
    assert forall name | name in names :: name == f.entityId || name in f.aliases;
  }

  /** Some fact's entity goes by the identity, and all that do are this one. */
  predicate NamesOnly(t: Text, facts: seq<Fact>, identity: string, entity: string) {
    && (exists f | f in facts :: Called(t, f, identity))
    && (forall f | f in facts && Called(t, f, identity) :: f.entityId == entity)
  }

  /** Main theorem: an identity resolves to an entity if and only if it names that entity and no other. */
  lemma ResolvesExactly(t: Text, facts: seq<Fact>, identity: string, entity: string)
    ensures Resolve(t, facts, identity) == Some(entity) <==> NamesOnly(t, facts, identity, entity)
  {
    var matches := Matching(t, facts, t.norm(identity));
    forall f ensures f in matches <==> f in facts && Called(t, f, identity) { CalledIs(t, f, identity); }
    hide Called, Names;
    if NamesOnly(t, facts, identity, entity) {
      var f :| f in facts && Called(t, f, identity);
      assert f in matches && matches[0] in matches;
    }
    if Resolve(t, facts, identity) == Some(entity) {
      assert matches[0] in matches;
      forall f | f in facts && Called(t, f, identity) ensures f.entityId == entity { assert f in matches; }
    }
  }

  // ---------- When claims contradict each other ----------

  predicate Lasts(t: Text, f: Fact) { Below(Time(t, f.validFrom), Time(t, f.validUntil)) }

  function Start(t: Text, a: Fact, b: Fact): int {
    var from, until := Time(t, a.validFrom), Time(t, b.validFrom);
    var x, y := Time(t, a.validUntil), Time(t, b.validUntil);
    if from.Some? && until.Some? then (if from.value > until.value then from.value else until.value)
    else if from.Some? then from.value else if until.Some? then until.value
    else if x.Some? && y.Some? then (if x.value < y.value then x.value else y.value) - 1
    else if x.Some? then x.value - 1 else if y.Some? then y.value - 1 else 0
  }

  /** Claims whose validity is not empty overlap if and only if there is an instant at which both hold. */
  lemma OverlapIsCommonInstant(t: Text, a: Fact, b: Fact)
    requires Lasts(t, a) && Lasts(t, b)
    ensures Overlap(t, a, b) <==> exists at :: Holds(t, a, at) && Holds(t, b, at)
  {
    if Overlap(t, a, b) { assert Holds(t, a, Start(t, a, b)) && Holds(t, b, Start(t, a, b)); }
  }

  predicate SameTopic(t: Text, a: Fact, b: Fact) { a.entityId == b.entityId && t.norm(a.property) == t.norm(b.property) }

  predicate Repeats(t: Text, a: Fact, b: Fact) { SameTopic(t, a, b) && t.norm(a.value) == t.norm(b.value) }

  predicate Contradicts(t: Text, a: Fact, b: Fact) {
    SameTopic(t, a, b) && t.norm(a.value) != t.norm(b.value) && Overlap(t, a, b)
  }

  // ---------- What is taken in ----------

  /** The identity of the record names its own entity alone among the facts known, and is not empty. */
  predicate Established(t: Text, known: seq<Fact>, f: Fact) {
    f.entityId != "" && forall g | g in known && Called(t, g, f.entityId) :: g.entityId == f.entityId
  }

  predicate Provenanced(t: Text, r: Record) {
    !t.blank(r.sourceLocator) && !t.blank(r.retrievalId) && !t.blank(r.fact.observedAt)
  }

  predicate ContradictsAny(t: Text, known: seq<Fact>, f: Fact) { exists g | g in known :: Contradicts(t, f, g) }

  predicate RepeatsAny(t: Text, known: seq<Fact>, f: Fact) { exists g | g in known :: Repeats(t, f, g) }

  predicate Acceptable(t: Text, known: seq<Fact>, r: Record) {
    && Established(t, known, r.fact) && Provenanced(t, r) && r.notable
    && !ContradictsAny(t, known, r.fact) && !RepeatsAny(t, known, r.fact)
  }

  /** A claim about the same entity is known. */
  predicate RelatesToAny(known: seq<Fact>, f: Fact) { exists g | g in known :: g.entityId == f.entityId }

  /** The facts known after the acceptable records have been taken in. */
  function Known(t: Text, existing: seq<Fact>, records: seq<Record>): seq<Fact> {
    if records == [] then existing
    else
      var before, last := Known(t, existing, records[..|records| - 1]), records[|records| - 1];
      if Acceptable(t, before, last) then before + [last.fact] else before
  }

  /** What the receipt says of a record. */
  ghost predicate Judged(t: Text, known: seq<Fact>, r: Record, item: Item) {
    && item.id == r.fact.id
    && (item.verdict.Accepted? <==> Acceptable(t, known, r))
    && (item.verdict.Unresolved? <==>
          !Established(t, known, r.fact) || (Provenanced(t, r) && r.notable && ContradictsAny(t, known, r.fact)))
    && (item.reason.UnestablishedEntity? <==> !Established(t, known, r.fact))
    && (item.reason.MissingProvenance? <==> Established(t, known, r.fact) && !Provenanced(t, r))
    && (item.reason.NotNotable? <==> Established(t, known, r.fact) && Provenanced(t, r) && !r.notable)
    && (item.reason.OverlappingContradiction? <==>
          Established(t, known, r.fact) && Provenanced(t, r) && r.notable && ContradictsAny(t, known, r.fact))
    && (item.reason.DuplicateClaim? <==>
          Established(t, known, r.fact) && Provenanced(t, r) && r.notable && !ContradictsAny(t, known, r.fact)
          && RepeatsAny(t, known, r.fact))
    && (item.reason.RelatedMeaning? <==> Acceptable(t, known, r) && RelatesToAny(known, r.fact))
    && (item.reason.DistinctMeaning? <==> Acceptable(t, known, r) && !RelatesToAny(known, r.fact))
  }

  lemma CalledItself(t: Text, f: Fact)
    ensures Called(t, f, f.entityId)
  {
    assert f.entityId in [f.entityId] + f.aliases;
  }

  lemma EstablishedExactly(t: Text, known: seq<Fact>, f: Fact)
    ensures var r := Resolve(t, known + [f], f.entityId);
            && (r == Some(f.entityId) && f.entityId != "" <==> Established(t, known, f))
            && (r == None || r == Some(f.entityId))
  {
    ResolvesExactly(t, known + [f], f.entityId, f.entityId);
    CalledItself(t, f);
    assert f in known + [f];
    ResolvesToItself(t, known + [f], f);
  }

  lemma BearsExactly(t: Text, known: seq<Fact>, f: Fact)
    ensures Bears(t, f, known, Contradictory) <==> ContradictsAny(t, known, f)
    ensures Bears(t, f, known, Duplicate) <==> RepeatsAny(t, known, f)
    ensures !ContradictsAny(t, known, f) && !RepeatsAny(t, known, f) ==> (Bears(t, f, known, Related) <==> RelatesToAny(known, f))
  {
    forall g | g in known
      ensures g.entityId == f.entityId && Classify(t, f, g).Contradictory? <==> Contradicts(t, f, g)
      ensures g.entityId == f.entityId && Classify(t, f, g).Duplicate? <==> Repeats(t, f, g)
      ensures g.entityId == f.entityId && Classify(t, f, g).Related? <==>
                g.entityId == f.entityId && !Contradicts(t, f, g) && !Repeats(t, f, g)
    {
    }
    hide Classify, Contradicts, Repeats;
  }

  lemma JudgedRight(t: Text, known: seq<Fact>, r: Record)
    ensures Judged(t, known, r, Judge(t, known, r).0)
    ensures Acceptable(t, known, r) ==> Judge(t, known, r).1 == r.fact
  {
    EstablishedExactly(t, known, r.fact);
    BearsExactly(t, known, r.fact);
    hide Resolve, Established, ContradictsAny, RepeatsAny, RelatesToAny, Bears, Provenanced;
    var canonical := Resolve(t, known + [r.fact], r.fact.entityId);
    assert canonical.Some? ==> r.fact.(entityId := canonical.value) == r.fact;
    ProvenancedIs(t, r);
  }

  lemma ProvenancedIs(t: Text, r: Record)
    ensures Provenanced(t, r) <==> !(t.blank(r.sourceLocator) || t.blank(r.retrievalId) || t.blank(r.fact.observedAt))
  {
  }

  lemma {:induction false} SeenIsKnown(t: Text, existing: seq<Fact>, records: seq<Record>)
    ensures Seen(t, existing, records) == Known(t, existing, records)
  {
    if records != [] {
      SeenIsKnown(t, existing, records[..|records| - 1]);
      OneMoreTakenIn(t, existing, records);
    }
  }

  /** Main theorem: an ingest takes in exactly the records whose identity names their own entity alone, whose source,
      retrieval and time of observation are given, which are notable, and which neither contradict nor repeat what
      is known by then; it keeps them as they came, and says of every other one what stood against it. */
  lemma {:induction false} TakenInExactly(t: Text, existing: seq<Fact>, records: seq<Record>, k: nat)
    requires k < |records|
    ensures Seen(t, existing, records) == Known(t, existing, records)
    ensures Judged(t, Known(t, existing, records[..k]), records[k], Items(t, existing, records)[k])
    decreases |records|
  {
    hide Judged, Known, Seen, Items;
    var n := |records| - 1;
    SeenIsKnown(t, existing, records);
    SeenIsKnown(t, existing, records[..n]);
    OneMoreTakenIn(t, existing, records);
    if k < n {
      assert records[..n][..k] == records[..k] && records[..n][k] == records[k];
      TakenInExactly(t, existing, records[..n], k);
    }
  }

  lemma OneMoreTakenIn(t: Text, existing: seq<Fact>, records: seq<Record>)
    requires records != [] && Seen(t, existing, records[..|records| - 1]) == Known(t, existing, records[..|records| - 1])
    ensures var n := |records| - 1;
            && Seen(t, existing, records) == Known(t, existing, records)
            && Judged(t, Known(t, existing, records[..n]), records[n], Items(t, existing, records)[n])
            && (forall k | 0 <= k < n :: Items(t, existing, records)[k] == Items(t, existing, records[..n])[k])
  {
    var n := |records| - 1;
    var known := Known(t, existing, records[..n]);
    JudgedRight(t, known, records[n]);
    hide Judged, Judge, Acceptable;
    AcceptedIs(t, known, records[n], Judge(t, known, records[n]).0);
  }

  lemma AcceptedIs(t: Text, known: seq<Fact>, r: Record, item: Item)
    requires Judged(t, known, r, item)
    ensures item.verdict.Accepted? <==> Acceptable(t, known, r)
  {
    hide Acceptable;
  }

  // ---------- What is answered ----------

  /** The fact is about the entity and the property. */
  predicate OnTopic(t: Text, all: seq<Fact>, f: Fact, entity: string, property: string) {
    f in all && f.entityId == entity && NamesOnly(t, all, entity, entity) && t.norm(f.property) == t.norm(property)
  }

  ghost predicate Replaces(t: Text, all: seq<Fact>, f: Fact, entity: string, property: string, at: int) {
    f.id != "" && exists g | OnTopic(t, all, g, entity, property) ::
      g.supersedes == Some(f.id) && Time(t, g.validFrom).Some? && Time(t, g.validFrom).value <= at
  }

  /** What the question is about at its instant: valid, and not replaced by a dated successor on the same topic. */
  ghost predicate Counts(t: Text, all: seq<Fact>, q: Query, entity: string, f: Fact) {
    && OnTopic(t, all, f, entity, q.property)
    && Time(t, Some(q.at)).Some?
    && Holds(t, f, Time(t, Some(q.at)).value)
    && !Replaces(t, all, f, entity, q.property, Time(t, Some(q.at)).value)
  }

  /** The index may see the fact, which lies in an index that may hold it, and in one no lower than the asking one. */
  predicate MaySee(f: Fact, index: string) {
    0 <= Place(f.sensitivity, LEVELS) <= Place(Some(index), LEVELS) <= Place(f.indexSensitivity, LEVELS)
  }

  /** From the least to the most restricted. */
  const LEVELS := ["public", "internal", "confidential", "secret"]

  /** The place in the list, or -1. */
  function Place(level: Option<string>, levels: seq<string>): int {
    if levels == [] then -1
    else if level == Some(levels[0]) then 0
    else
      var rest := Place(level, levels[1..]);
      if rest < 0 then -1 else rest + 1
  }

  lemma PlaceIsRank(level: Option<string>)
    ensures Place(level, LEVELS) == Rank(level)
  {
    var three, two, one := LEVELS[1..], LEVELS[2..], LEVELS[3..];
    assert three[1..] == two && two[1..] == one && one[1..] == [];
    assert Place(level, one) == if level == Some("secret") then 0 else -1;
    assert Place(level, two) == if level == Some("confidential") then 0 else if level == Some("secret") then 1 else -1;
  }

  lemma CountsExactly(t: Text, all: seq<Fact>, q: Query, entity: string, f: Fact)
    ensures f in FactsValidAt(t, Scoped(t, all, all, entity, q.property), q.at) <==> Counts(t, all, q, entity, f)
  {
    var scoped := Scoped(t, all, all, entity, q.property);
    forall g ensures g in scoped <==> OnTopic(t, all, g, entity, q.property) { InTopic(t, all, g, entity, q.property); }
    hide Resolve, Called, Holds, NamesOnly, Scoped, OnTopic;
    var instant := Time(t, Some(q.at));
    if instant.Some? {
      assert Superseded(t, scoped, f.id, instant.value) <==> Replaces(t, all, f, entity, q.property, instant.value);
    }
  }

  lemma InTopic(t: Text, all: seq<Fact>, g: Fact, entity: string, property: string)
    ensures g in Scoped(t, all, all, entity, property) <==> OnTopic(t, all, g, entity, property)
  {
    hide Called, NamesOnly;
    if g in all {
      ResolvesExactly(t, all, g.entityId, entity);
      ResolvesToItself(t, all, g);
      hide Resolve;
      CalledItself(t, g);
      if NamesOnly(t, all, g.entityId, entity) { assert g.entityId == entity; }
    }
  }

  lemma MaySeeExactly(f: Fact, index: string)
    ensures !Mismatched(f, index) <==> MaySee(f, index)
  {
    PlaceIsRank(f.sensitivity);
    PlaceIsRank(Some(index));
    PlaceIsRank(f.indexSensitivity);
    hide Place, Rank;
  }

  /** What the answer says of the facts that count. */
  ghost predicate Tells(t: Text, q: Query, counts: Fact -> bool, a: Answer) {
    && (a.NoFact? <==> forall f :: !counts(f))
    && (a.SensitivityMismatch? <==> exists f :: counts(f) && !MaySee(f, q.indexSensitivity))
    && (a.OverlappingConflict? <==>
          && (forall f | counts(f) :: MaySee(f, q.indexSensitivity))
          && exists f, g :: counts(f) && counts(g) && t.norm(f.value) != t.norm(g.value))
    && (a.Historical? ==> !q.current) && (a.Current? ==> q.current)
    && (a.OverlappingConflict? ==> forall f :: f in a.facts <==> counts(f))
    && (a.Historical? ==> forall f :: f in a.facts <==> counts(f))
    && (a.Current? ==> counts(a.fact) && forall f | counts(f) :: Observed(t, f) <= Observed(t, a.fact))
  }

  function Among(valid: seq<Fact>): Fact -> bool { (f: Fact) => f in valid }

  lemma TellsOfValid(t: Text, q: Query, valid: seq<Fact>, a: Answer)
    requires a == if valid == [] then NoFact
                  else if exists f | f in valid :: Mismatched(f, q.indexSensitivity) then SensitivityMismatch
                  else if !Agree(t, valid) then OverlappingConflict(valid)
                  else if !q.current then Historical(valid)
                  else Current(Latest(t, valid))
    ensures Tells(t, q, Among(valid), a)
  {
    forall f ensures !Mismatched(f, q.indexSensitivity) <==> MaySee(f, q.indexSensitivity) { MaySeeExactly(f, q.indexSensitivity); }
    hide Mismatched, MaySee, Observed, Latest;
    assert valid != [] ==> Among(valid)(valid[0]);
    assert forall f :: Among(valid)(f) <==> f in valid;
  }

  lemma TellsTheSame(t: Text, q: Query, p: Fact -> bool, r: Fact -> bool, a: Answer)
    requires Tells(t, q, p, a) && forall f :: p(f) == r(f)
    ensures Tells(t, q, r, a)
  {
    hide MaySee, Observed;
  }

  /** The identity of the question names no entity, or several. */
  ghost predicate Nameless(t: Text, facts: seq<Fact>, q: Query) {
    !exists e: string :: e != "" && NamesOnly(t, facts, q.entityId, e)
  }

  /** A query answers that the entity is not resolved if and only if its identity does not name one entity alone. */
  lemma UnresolvedExactly(t: Text, facts: seq<Fact>, q: Query)
    ensures Ask(t, facts, q).UnresolvedEntity? <==> Nameless(t, facts, q)
  {
    var canonical := Resolve(t, facts, q.entityId);
    if canonical.Some? { ResolvesExactly(t, facts, q.entityId, canonical.value); }
    AskUnresolved(t, facts, q);
    hide Resolve, NamesOnly, Ask;
    if !Nameless(t, facts, q) {
      var e: string :| e != "" && NamesOnly(t, facts, q.entityId, e);
      ResolvesExactly(t, facts, q.entityId, e);
    }
  }

  lemma AskUnresolved(t: Text, facts: seq<Fact>, q: Query)
    ensures Ask(t, facts, q).UnresolvedEntity? <==>
              Resolve(t, facts, q.entityId).None? || Resolve(t, facts, q.entityId).value == ""
  {
    hide Resolve, FactsValidAt, Scoped, Agree, Mismatched;
  }

  /** Main theorem: what a query answers otherwise, for every store, consistent or not: `counts` are the facts that
      count for it. */
  lemma AnswersExactly(t: Text, facts: seq<Fact>, q: Query, e: string, counts: Fact -> bool)
    requires NamesOnly(t, facts, q.entityId, e) && e != ""
    requires forall f :: counts(f) == Counts(t, facts, q, e, f)
    ensures Tells(t, q, counts, Ask(t, facts, q))
  {
    ResolvesExactly(t, facts, q.entityId, e);
    hide Resolve, NamesOnly, Counts, Tells, Ask;
    AnswerTells(t, facts, q, e, counts);
  }

  lemma AnswerTells(t: Text, facts: seq<Fact>, q: Query, e: string, counts: Fact -> bool)
    requires Resolve(t, facts, q.entityId) == Some(e) && e != ""
    requires forall f :: counts(f) == Counts(t, facts, q, e, f)
    ensures Tells(t, q, counts, Ask(t, facts, q))
  {
    var valid := FactsValidAt(t, Scoped(t, facts, facts, e, q.property), q.at);
    forall f ensures Among(valid)(f) == counts(f) { CountsExactly(t, facts, q, e, f); }
    hide FactsValidAt, Scoped, Counts, Tells, Resolve;
    TellsOfValid(t, q, valid, Ask(t, facts, q));
    TellsTheSame(t, q, Among(valid), counts, Ask(t, facts, q));
  }

  // ---------- The order of the answers ----------

  /** The facts that are kept, in the order of the store. */
  function Keep(facts: seq<Fact>, p: Fact -> bool): seq<Fact> {
    if facts == [] then []
    else
      var last := facts[|facts| - 1];
      Keep(facts[..|facts| - 1], p) + if p(last) then [last] else []
  }

  lemma {:induction false} KeepTwice(facts: seq<Fact>, p: Fact -> bool, q: Fact -> bool, r: Fact -> bool)
    requires forall f | f in facts :: r(f) <==> p(f) && q(f)
    ensures Keep(Keep(facts, p), q) == Keep(facts, r)
  {
    if facts != [] {
      var n := |facts| - 1;
      assert facts[n] in facts && forall f | f in facts[..n] :: f in facts;
      KeepTwice(facts[..n], p, q, r);
      KeepSnoc(Keep(facts[..n], p), facts[n], q);
      assert Keep(facts[..n], p) + [] == Keep(facts[..n], p);
    }
  }

  lemma KeepSnoc(facts: seq<Fact>, f: Fact, p: Fact -> bool)
    ensures Keep(facts + [f], p) == Keep(facts, p) + if p(f) then [f] else []
  {
    assert (facts + [f])[..|facts|] == facts;
  }

  lemma {:induction false} ScopedIsKeep(t: Text, all: seq<Fact>, facts: seq<Fact>, entity: string, property: string, p: Fact -> bool)
    requires forall f | f in facts :: p(f) <==> Resolve(t, all, f.entityId) == Some(entity) && t.norm(f.property) == t.norm(property)
    ensures Scoped(t, all, facts, entity, property) == Keep(facts, p)
  {
    hide Resolve;
    if facts != [] {
      var n := |facts| - 1;
      assert facts[n] in facts && forall f | f in facts[..n] :: f in facts;
      ScopedIsKeep(t, all, facts[..n], entity, property, p);
    }
  }

  lemma {:induction false} ValidIsKeep(t: Text, all: seq<Fact>, facts: seq<Fact>, at: int, p: Fact -> bool)
    requires forall f | f in facts :: p(f) <==> Holds(t, f, at) && !Superseded(t, all, f.id, at)
    ensures ValidAt(t, all, facts, at) == Keep(facts, p)
  {
    hide Holds, Superseded;
    if facts != [] {
      var n := |facts| - 1;
      assert facts[n] in facts && forall f | f in facts[..n] :: f in facts;
      ValidIsKeep(t, all, facts[..n], at, p);
    }
  }

  lemma {:induction false} KeepNothing(facts: seq<Fact>, p: Fact -> bool)
    requires forall f | f in facts :: !p(f)
    ensures Keep(facts, p) == []
  {
    if facts != [] {
      assert facts[|facts| - 1] in facts;
      KeepNothing(facts[..|facts| - 1], p);
    }
  }

  lemma ValidFactsAreKept(t: Text, all: seq<Fact>, q: Query, e: string, counts: Fact -> bool)
    requires forall f :: counts(f) == Counts(t, all, q, e, f)
    ensures FactsValidAt(t, Scoped(t, all, all, e, q.property), q.at) == Keep(all, counts)
  {
    var scoped := Scoped(t, all, all, e, q.property);
    forall f ensures counts(f) <==> f in FactsValidAt(t, scoped, q.at) { CountsExactly(t, all, q, e, f); }
    var instant := Time(t, Some(q.at));
    hide Resolve, Counts, Holds, Superseded;
    if instant.None? {
      KeepNothing(all, counts);
    } else {
      var topic := (f: Fact) => Resolve(t, all, f.entityId) == Some(e) && t.norm(f.property) == t.norm(q.property);
      var valid := (f: Fact) => Holds(t, f, instant.value) && !Superseded(t, scoped, f.id, instant.value);
      ScopedIsKeep(t, all, all, e, q.property, topic);
      ValidIsKeep(t, scoped, scoped, instant.value, valid);
      KeepTwice(all, topic, valid, counts);
    }
  }

  /** Row i: the rows before it were observed earlier, those behind it no later. */
  predicate LastSeenAt(t: Text, rows: seq<Fact>, i: int)
    requires 0 <= i < |rows|
  {
    && (forall j | 0 <= j < i :: Observed(t, rows[j]) < Observed(t, rows[i]))
    && (forall j | i < j < |rows| :: Observed(t, rows[j]) <= Observed(t, rows[i]))
  }

  lemma {:induction false} LatestIsFirst(t: Text, rows: seq<Fact>) returns (i: nat)
    requires rows != []
    ensures i < |rows| && rows[i] == Latest(t, rows) && LastSeenAt(t, rows, i)
  {
    hide Observed;
    i := 0;
    if |rows| > 1 {
      var n := |rows| - 1;
      i := LatestIsFirst(t, rows[..n]);
      assert forall j | 0 <= j < n :: rows[..n][j] == rows[j];
      if Observed(t, rows[n]) > Observed(t, rows[i]) { i := n; }
    }
  }

  lemma AskLists(t: Text, facts: seq<Fact>, q: Query, e: string)
    requires Resolve(t, facts, q.entityId) == Some(e) && e != ""
    ensures var a, valid := Ask(t, facts, q), FactsValidAt(t, Scoped(t, facts, facts, e, q.property), q.at);
            && (a.OverlappingConflict? || a.Historical? ==> a.facts == valid)
            && (a.Current? ==> valid != [] && a.fact == Latest(t, valid))
  {
    hide Resolve, FactsValidAt, Scoped, Mismatched, Agree, Latest;
  }

  /** Main theorem: conflicting and historical facts are listed once each in the order of the store, and a current answer
      is the first of those observed last. */
  lemma AnswersInOrder(t: Text, facts: seq<Fact>, q: Query, e: string, counts: Fact -> bool)
    requires NamesOnly(t, facts, q.entityId, e) && e != ""
    requires forall f :: counts(f) == Counts(t, facts, q, e, f)
    ensures var a := Ask(t, facts, q);
            && (a.OverlappingConflict? || a.Historical? ==> a.facts == Keep(facts, counts))
            && (a.Current? ==> exists i | 0 <= i < |Keep(facts, counts)| ::
                  Keep(facts, counts)[i] == a.fact && LastSeenAt(t, Keep(facts, counts), i))
  {
    ResolvesExactly(t, facts, q.entityId, e);
    ValidFactsAreKept(t, facts, q, e, counts);
    hide *;
    AskLists(t, facts, q, e);
    var valid := FactsValidAt(t, Scoped(t, facts, facts, e, q.property), q.at);
    if valid != [] { var i := LatestIsFirst(t, valid); }
  }
}
