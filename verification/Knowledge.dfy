/**
 The temporal knowledge base: claim relationships and time-qualified queries
 (src/knowledge/semantics.ts) and the ingest loop that guards the store (src/knowledge/workflow.ts).
 */
module Knowledge {
  import opened Wrappers

  /** The text functions of the platform: normalisation, date parsing, and the test for blank text. */
  datatype Text = Text(norm: string -> string, parse: string -> Option<int>, blank: string -> bool)

  datatype Fact = Fact(
    id: string, entityId: string, property: string, value: string, observedAt: string,
    validFrom: Option<string>, validUntil: Option<string>, supersedes: Option<string>,
    aliases: seq<string>, sensitivity: Option<string>, indexSensitivity: Option<string>)

  datatype Relationship = Duplicate | Related | Contradictory | Distinct

  // ---------- Identity and relationship ----------

  function Time(t: Text, value: Option<string>): Option<int> {
    if value.None? || value.value == "" then None else t.parse(value.value)
  }

  predicate Names(t: Text, f: Fact, needle: string) {
    t.norm(f.entityId) == needle || exists alias | alias in f.aliases :: t.norm(alias) == needle
  }

  function Matching(t: Text, facts: seq<Fact>, needle: string): (r: seq<Fact>)
    ensures forall f :: f in r <==> f in facts && Names(t, f, needle)
  {
    if facts == [] then []
    else
      assert facts == facts[..|facts| - 1] + [facts[|facts| - 1]];
      Matching(t, facts[..|facts| - 1], needle) +
      if Names(t, facts[|facts| - 1], needle) then [facts[|facts| - 1]] else []
  }

  /** The one entity that all matching facts belong to. */
  function Resolve(t: Text, facts: seq<Fact>, identity: string): Option<string> {
    var matches := Matching(t, facts, t.norm(identity));
    if matches != [] && forall f | f in matches :: f.entityId == matches[0].entityId
    then Some(matches[0].entityId) else None
  }

  /** An absent bound is infinite. */
  predicate Below(from: Option<int>, until: Option<int>) {
    from.None? || until.None? || from.value < until.value
  }

  predicate Overlap(t: Text, a: Fact, b: Fact) {
    Below(Time(t, a.validFrom), Time(t, b.validUntil)) && Below(Time(t, b.validFrom), Time(t, a.validUntil))
  }

  function Classify(t: Text, a: Fact, b: Fact): Relationship {
    if a.entityId != b.entityId then Distinct
    else if t.norm(a.property) != t.norm(b.property) then Related
    else if t.norm(a.value) == t.norm(b.value) then Duplicate
    else if Overlap(t, a, b) then Contradictory else Related
  }

  ghost predicate Consistent(t: Text, facts: seq<Fact>) {
    forall a, b | a in facts && b in facts :: !Classify(t, a, b).Contradictory?
  }

  /** A fact always answers to its own entity, so resolving it finds that entity or nothing. */
  lemma ResolvesToItself(t: Text, facts: seq<Fact>, f: Fact)
    requires f in facts
    ensures Resolve(t, facts, f.entityId) in {None, Some(f.entityId)}
  {
    assert f in Matching(t, facts, t.norm(f.entityId));
  }

  // ---------- Ingest ----------

  datatype Record = Record(fact: Fact, sourceLocator: string, retrievalId: string, notable: bool)

  datatype Reason =
    | UnestablishedEntity | MissingProvenance | NotNotable | OverlappingContradiction | DuplicateClaim
    | RelatedMeaning | DistinctMeaning

  datatype Verdict = Accepted | Rejected | Unresolved

  datatype Item = Item(id: string, verdict: Verdict, reason: Reason)

  datatype Receipt = Receipt(accepted: seq<Item>, rejected: seq<Item>, unresolved: seq<Item>, truncated: nat)

  predicate Bears(t: Text, f: Fact, facts: seq<Fact>, r: Relationship) {
    exists g | g in facts :: g.entityId == f.entityId && Classify(t, f, g) == r
  }

  /** What is to be done with one record, given the facts seen so far; an accepted record is stored
      under its canonical entity. */
  function Judge(t: Text, seen: seq<Fact>, record: Record): (Item, Fact) {
    var canonical := Resolve(t, seen + [record.fact], record.fact.entityId);
    var fact := if canonical.Some? then record.fact.(entityId := canonical.value) else record.fact;
    var id := record.fact.id;
    if canonical.None? || canonical.value == "" then (Item(id, Unresolved, UnestablishedEntity), fact)
    else if t.blank(record.sourceLocator) || t.blank(record.retrievalId) || t.blank(record.fact.observedAt)
    then (Item(id, Rejected, MissingProvenance), fact)
    else if !record.notable then (Item(id, Rejected, NotNotable), fact)
    else if Bears(t, fact, seen, Contradictory) then (Item(id, Unresolved, OverlappingContradiction), fact)
    else if Bears(t, fact, seen, Duplicate) then (Item(id, Rejected, DuplicateClaim), fact)
    else if Bears(t, fact, seen, Related) then (Item(id, Accepted, RelatedMeaning), fact)
    else (Item(id, Accepted, DistinctMeaning), fact)
  }

  /** The facts known after the records have been worked off in order. */
  function Seen(t: Text, existing: seq<Fact>, records: seq<Record>): seq<Fact> {
    if records == [] then existing
    else
      var before := Seen(t, existing, records[..|records| - 1]);
      var (item, fact) := Judge(t, before, records[|records| - 1]);
      if item.verdict.Accepted? then before + [fact] else before
  }

  function Items(t: Text, existing: seq<Fact>, records: seq<Record>): (r: seq<Item>)
    ensures |r| == |records|
  {
    if records == [] then []
    else
      var init, last := records[..|records| - 1], records[|records| - 1];
      Items(t, existing, init) + [Judge(t, Seen(t, existing, init), last).0]
  }

  function Only(items: seq<Item>, v: Verdict): seq<Item> {
    if items == [] then []
    else
      Only(items[..|items| - 1], v) + if items[|items| - 1].verdict == v then [items[|items| - 1]] else []
  }

  lemma SeenStep(t: Text, existing: seq<Fact>, records: seq<Record>, i: nat)
    requires i < |records|
    ensures var (item, fact) := Judge(t, Seen(t, existing, records[..i]), records[i]);
            && Items(t, existing, records[..i + 1]) == Items(t, existing, records[..i]) + [item]
            && Seen(t, existing, records[..i + 1]) ==
               Seen(t, existing, records[..i]) + if item.verdict.Accepted? then [fact] else []
  {
    hide Judge;
    assert records[..i + 1][..i] == records[..i];
  }

  lemma OnlyStep(items: seq<Item>, item: Item, v: Verdict)
    ensures Only(items + [item], v) == Only(items, v) + if item.verdict == v then [item] else []
  {
    assert (items + [item])[..|items|] == items;
  }

  function Summary(items: seq<Item>, truncated: nat): Receipt {
    Receipt(Only(items, Accepted), Only(items, Rejected), Only(items, Unresolved), truncated)
  }

  lemma NothingYet(t: Text, existing: seq<Fact>)
    ensures Seen(t, existing, []) == existing && Summary(Items(t, existing, []), 0) == Receipt([], [], [], 0)
  {
  }

  lemma SummaryStep(items: seq<Item>, item: Item)
    ensures var r := Summary(items, 0);
            Summary(items + [item], 0) ==
            match item.verdict
            case Accepted => r.(accepted := r.accepted + [item])
            case Rejected => r.(rejected := r.rejected + [item])
            case Unresolved => r.(unresolved := r.unresolved + [item])
  {
    hide Only;
    OnlyStep(items, item, Accepted);
    OnlyStep(items, item, Rejected);
    OnlyStep(items, item, Unresolved);
    assert Only(items, Accepted) + [] == Only(items, Accepted);
    assert Only(items, Rejected) + [] == Only(items, Rejected);
    assert Only(items, Unresolved) + [] == Only(items, Unresolved);
  }

  /** ingestKnowledge; `captured` are the facts handed to the store's own boundary. */
  method Ingest(t: Text, records: seq<Record>, existing: seq<Fact>, limit: int)
    returns (receipt: Receipt, captured: seq<Fact>)
    ensures var n := if limit < 0 then 0 else if limit < |records| then limit else |records|;
            && existing + captured == Seen(t, existing, records[..n])
            && receipt == Summary(Items(t, existing, records[..n]), 0).(truncated := |records| - n)
            && |captured| == |receipt.accepted|
  {
    hide Judge, Summary, Items, Seen;
    var bound := if limit < 0 then 0 else limit;
    var slice := if bound < |records| then records[..bound] else records;
    assert records[..|records|] == records;
    receipt := Receipt([], [], [], 0);
    captured := [];
    NothingYet(t, existing);
    assert slice[..0] == [] && existing + captured == existing;
    for i := 0 to |slice|
      invariant existing + captured == Seen(t, existing, slice[..i])
      invariant receipt == Summary(Items(t, existing, slice[..i]), 0)
      invariant |captured| == |receipt.accepted|
    {
      var (item, fact) := Judge(t, existing + captured, slice[i]);
      SeenStep(t, existing, slice, i);
      SummaryStep(Items(t, existing, slice[..i]), item);
      match item.verdict
      case Unresolved => receipt := receipt.(unresolved := receipt.unresolved + [item]);
      case Rejected => receipt := receipt.(rejected := receipt.rejected + [item]);
      case Accepted =>
        assert existing + (captured + [fact]) == existing + captured + [fact];
        captured := captured + [fact];
        receipt := receipt.(accepted := receipt.accepted + [item]);
    }
    assert slice[..|slice|] == slice;
    receipt := receipt.(truncated := if |records| > bound then |records| - bound else 0);
  }

  lemma ClassifySymmetric(t: Text, a: Fact, b: Fact)
    ensures Classify(t, a, b) == Classify(t, b, a)
  {
  }

  lemma AcceptedKeepsConsistent(t: Text, seen: seq<Fact>, record: Record)
    requires Consistent(t, seen) && Judge(t, seen, record).0.verdict.Accepted?
    ensures Consistent(t, seen + [Judge(t, seen, record).1])
  {
    var fact := Judge(t, seen, record).1;
    forall g | g in seen ensures !Classify(t, fact, g).Contradictory? && !Classify(t, g, fact).Contradictory? {
      ClassifySymmetric(t, fact, g);
      assert g.entityId == fact.entityId && Classify(t, fact, g).Contradictory? ==> Bears(t, fact, seen, Contradictory);
    }
  }

  /** Whatever is offered, the store stays free of overlapping contradictions. */
  lemma {:induction false} IngestKeepsConsistent(t: Text, existing: seq<Fact>, records: seq<Record>)
    requires Consistent(t, existing)
    ensures Consistent(t, Seen(t, existing, records))
  {
    if records != [] {
      var init, last := records[..|records| - 1], records[|records| - 1];
      IngestKeepsConsistent(t, existing, init);
      if Judge(t, Seen(t, existing, init), last).0.verdict.Accepted? {
        AcceptedKeepsConsistent(t, Seen(t, existing, init), last);
      }
    }
  }

  /** No two facts of the store say the same about the same thing. */
  ghost predicate DuplicateFree(t: Text, facts: seq<Fact>) {
    forall i, j | 0 <= i < j < |facts| :: !Classify(t, facts[i], facts[j]).Duplicate?
  }

  lemma AcceptedIsNoDuplicate(t: Text, seen: seq<Fact>, record: Record)
    requires DuplicateFree(t, seen) && Judge(t, seen, record).0.verdict.Accepted?
    ensures DuplicateFree(t, seen + [Judge(t, seen, record).1])
  {
    var fact := Judge(t, seen, record).1;
    forall g | g in seen ensures !Classify(t, g, fact).Duplicate? {
      hide Judge;
      ClassifySymmetric(t, fact, g);
      NotBorne(t, seen, record, g);
    }
    hide Judge, Classify;
    var after := seen + [fact];
    forall i, j | 0 <= i < j < |after| ensures !Classify(t, after[i], after[j]).Duplicate? {
      if j == |seen| { assert after[i] in seen; }
    }
  }

  lemma NotBorne(t: Text, seen: seq<Fact>, record: Record, g: Fact)
    requires Judge(t, seen, record).0.verdict.Accepted? && g in seen
    ensures !Classify(t, Judge(t, seen, record).1, g).Duplicate?
  {
    hide Resolve, Classify;
    var fact := Judge(t, seen, record).1;
    assert g.entityId == fact.entityId && Classify(t, fact, g).Duplicate? ==> Bears(t, fact, seen, Duplicate);
    assert g.entityId != fact.entityId ==> !Classify(t, fact, g).Duplicate? by { OtherEntity(t, fact, g); }
  }

  lemma OtherEntity(t: Text, a: Fact, b: Fact)
    ensures a.entityId != b.entityId ==> Classify(t, a, b).Distinct?
  {
  }

  /** Nor does an ingest ever store the same claim twice. */
  lemma {:induction false} IngestKeepsDuplicateFree(t: Text, existing: seq<Fact>, records: seq<Record>)
    requires DuplicateFree(t, existing)
    ensures DuplicateFree(t, Seen(t, existing, records))
  {
    if records != [] {
      hide Judge, DuplicateFree;
      var init, last := records[..|records| - 1], records[|records| - 1];
      IngestKeepsDuplicateFree(t, existing, init);
      if Judge(t, Seen(t, existing, init), last).0.verdict.Accepted? {
        AcceptedIsNoDuplicate(t, Seen(t, existing, init), last);
      }
    }
  }

  /** Alias resolution never moves a record to another entity: it is stored as it came, or not at all. */
  lemma AcceptedKeepsItsEntity(t: Text, seen: seq<Fact>, record: Record)
    requires Judge(t, seen, record).0.verdict.Accepted?
    ensures Judge(t, seen, record).1 == record.fact
  {
    ResolvesToItself(t, seen + [record.fact], record.fact);
  }

  /** Every worked-off record is reported exactly once. */
  lemma {:induction false} EveryRecordReportedOnce(items: seq<Item>)
    ensures |Only(items, Accepted)| + |Only(items, Rejected)| + |Only(items, Unresolved)| == |items|
  {
    if items != [] { EveryRecordReportedOnce(items[..|items| - 1]); }
  }

  // ---------- Queries ----------

  /** Facts that a dated successor has replaced by `at`. */
  predicate Superseded(t: Text, facts: seq<Fact>, id: string, at: int) {
    exists f | f in facts ::
      f.supersedes == Some(id) && id != "" && Time(t, f.validFrom).Some? && Time(t, f.validFrom).value <= at
  }

  predicate Holds(t: Text, f: Fact, at: int) {
    var from, until := Time(t, f.validFrom), Time(t, f.validUntil);
    (from.None? || from.value <= at) && (until.None? || at < until.value)
  }

  /** factsValidAt for a parsed instant. */
  function ValidAt(t: Text, all: seq<Fact>, facts: seq<Fact>, at: int): (r: seq<Fact>)
    ensures forall f :: f in r <==> f in facts && Holds(t, f, at) && !Superseded(t, all, f.id, at)
  {
    if facts == [] then []
    else
      assert facts == facts[..|facts| - 1] + [facts[|facts| - 1]];
      var last := facts[|facts| - 1];
      ValidAt(t, all, facts[..|facts| - 1], at) +
      if Holds(t, last, at) && !Superseded(t, all, last.id, at) then [last] else []
  }

  function FactsValidAt(t: Text, facts: seq<Fact>, at: string): seq<Fact> {
    var instant := Time(t, Some(at));
    if instant.None? then [] else ValidAt(t, facts, facts, instant.value)
  }

  function Observed(t: Text, f: Fact): int {
    var o := Time(t, Some(f.observedAt));
    if o.Some? then o.value else 0
  }

  /** The first of the most recently observed rows. */
  function Latest(t: Text, rows: seq<Fact>): (r: Fact)
    requires rows != []
    ensures r in rows
    ensures forall f | f in rows :: Observed(t, f) <= Observed(t, r)
  {
    if |rows| == 1 then rows[0]
    else
      assert rows == rows[..|rows| - 1] + [rows[|rows| - 1]];
      var latest, row := Latest(t, rows[..|rows| - 1]), rows[|rows| - 1];
      if Observed(t, row) > Observed(t, latest) then row else latest
  }

  predicate Agree(t: Text, rows: seq<Fact>) {
    forall a, b | a in rows && b in rows :: t.norm(a.value) == t.norm(b.value)
  }

  function Rank(level: Option<string>): int {
    if level == Some("public") then 0 else if level == Some("internal") then 1
    else if level == Some("confidential") then 2 else if level == Some("secret") then 3 else -1
  }

  predicate Compatible(source: Option<string>, index: Option<string>) {
    Rank(source) >= 0 && Rank(index) >= Rank(source)
  }

  predicate Mismatched(f: Fact, index: string) {
    !Compatible(f.sensitivity, f.indexSensitivity) || !Compatible(f.sensitivity, Some(index))
    || !Compatible(Some(index), f.indexSensitivity)
  }

  datatype Query = Query(entityId: string, property: string, at: string, indexSensitivity: string, current: bool)

  datatype Answer =
    | Current(fact: Fact)
    | Historical(facts: seq<Fact>)
    | NoFact
    | UnresolvedEntity
    | SensitivityMismatch
    | OverlappingConflict(facts: seq<Fact>)

  function Scoped(t: Text, all: seq<Fact>, facts: seq<Fact>, entity: string, property: string): (r: seq<Fact>)
    ensures forall f :: f in r <==>
              f in facts && Resolve(t, all, f.entityId) == Some(entity) && t.norm(f.property) == t.norm(property)
  {
    if facts == [] then []
    else
      assert facts == facts[..|facts| - 1] + [facts[|facts| - 1]];
      var last := facts[|facts| - 1];
      Scoped(t, all, facts[..|facts| - 1], entity, property) +
      if Resolve(t, all, last.entityId) == Some(entity) && t.norm(last.property) == t.norm(property) then [last] else []
  }

  /** queryTemporalFacts */
  function Ask(t: Text, facts: seq<Fact>, q: Query): Answer {
    var canonical := Resolve(t, facts, q.entityId);
    if canonical.None? || canonical.value == "" then UnresolvedEntity
    else
      var valid := FactsValidAt(t, Scoped(t, facts, facts, canonical.value, q.property), q.at);
      if valid == [] then NoFact
      else if exists f | f in valid :: Mismatched(f, q.indexSensitivity) then SensitivityMismatch
      else if !Agree(t, valid) then OverlappingConflict(valid)
      else if !q.current then Historical(valid)
      else Current(Latest(t, valid))
  }

  lemma ValidTogetherOverlap(t: Text, a: Fact, b: Fact, at: int)
    requires Holds(t, a, at) && Holds(t, b, at)
    ensures Overlap(t, a, b)
  {
  }

  /** Facts of one entity and property that hold at the same time agree, in a consistent store. */
  lemma ConsistentFactsAgree(t: Text, facts: seq<Fact>, a: Fact, b: Fact, at: int)
    requires Consistent(t, facts) && a in facts && b in facts
    requires a.entityId == b.entityId && t.norm(a.property) == t.norm(b.property)
    requires Holds(t, a, at) && Holds(t, b, at)
    ensures t.norm(a.value) == t.norm(b.value)
  {
    ValidTogetherOverlap(t, a, b, at);
    assert !Classify(t, a, b).Contradictory?;
  }

  lemma ConsistentStoreHasNoConflict(t: Text, facts: seq<Fact>, q: Query)
    requires Consistent(t, facts)
    ensures !Ask(t, facts, q).OverlappingConflict?
  {
    var canonical := Resolve(t, facts, q.entityId);
    if canonical.Some? {
      var scoped := Scoped(t, facts, facts, canonical.value, q.property);
      var valid := FactsValidAt(t, scoped, q.at);
      forall a, b | a in valid && b in valid ensures t.norm(a.value) == t.norm(b.value) {
        ResolvesToItself(t, facts, a);
        ResolvesToItself(t, facts, b);
        ConsistentFactsAgree(t, facts, a, b, Time(t, Some(q.at)).value);
      }
    }
  }

  /** Main theorem: whatever has been offered to a consistent store, no query at any instant runs into
      an overlapping conflict. */
  lemma NoConflictAfterIngest(t: Text, existing: seq<Fact>, records: seq<Record>, q: Query)
    requires Consistent(t, existing)
    ensures !Ask(t, Seen(t, existing, records), q).OverlappingConflict?
  {
    IngestKeepsConsistent(t, existing, records);
    ConsistentStoreHasNoConflict(t, Seen(t, existing, records), q);
  }

  lemma InScope(t: Text, facts: seq<Fact>, entity: string, q: Query, f: Fact)
    requires f in FactsValidAt(t, Scoped(t, facts, facts, entity, q.property), q.at)
    ensures f in facts && Resolve(t, facts, f.entityId) == Some(entity) && t.norm(f.property) == t.norm(q.property)
  {
    hide Resolve;
  }

  /** Even in an inconsistent store a current answer is never a choice between claims: every fact of
      that entity and property which is valid then says the same, and none was observed later. */
  lemma CurrentAnswerIsUnanimous(t: Text, facts: seq<Fact>, q: Query, f: Fact)
    requires Ask(t, facts, q).Current? && f in facts
    requires f.entityId == Ask(t, facts, q).fact.entityId && t.norm(f.property) == t.norm(q.property)
    requires f in FactsValidAt(t, Scoped(t, facts, facts, f.entityId, q.property), q.at)
    ensures t.norm(f.value) == t.norm(Ask(t, facts, q).fact.value)
    ensures Observed(t, f) <= Observed(t, Ask(t, facts, q).fact)
  {
    hide Resolve, Mismatched, Scoped, FactsValidAt, Observed;
    var canonical := Resolve(t, facts, q.entityId).value;
    var valid := FactsValidAt(t, Scoped(t, facts, facts, canonical, q.property), q.at);
    var answer := Ask(t, facts, q).fact;
    assert answer in valid;
    assert answer.entityId == canonical by {
      InScope(t, facts, canonical, q, answer);
      ResolvesToItself(t, facts, answer);
    }
  }

  /** The facts that an answer discloses. */
  function Disclosed(a: Answer): seq<Fact> {
    match a
    case Current(fact) => [fact]
    case Historical(facts) => facts
    case OverlappingConflict(facts) => facts
    case _ => []
  }

  /** Nothing is disclosed whose sensitivity lies above the index that asks, or above its own index. */
  lemma DisclosureRespectsSensitivity(t: Text, facts: seq<Fact>, q: Query, f: Fact)
    requires f in Disclosed(Ask(t, facts, q))
    ensures 0 <= Rank(f.sensitivity) <= Rank(Some(q.indexSensitivity)) <= Rank(f.indexSensitivity)
    ensures f in facts && t.norm(f.property) == t.norm(q.property)
  {
    hide Resolve, Scoped, FactsValidAt, Agree, Rank;
    var canonical := Resolve(t, facts, q.entityId).value;
    var valid := FactsValidAt(t, Scoped(t, facts, facts, canonical, q.property), q.at);
    assert f in valid && !Mismatched(f, q.indexSensitivity);
    InScope(t, facts, canonical, q, f);
  }

  // ---------- The current view ----------

  /** The grouping key of currentCanonicalFacts: one string. */
  function Key(t: Text, f: Fact): string { f.entityId + "\0" + t.norm(f.property) }

  function Rows(t: Text, facts: seq<Fact>, key: string): (r: seq<Fact>)
    ensures forall f :: f in r <==> f in facts && Key(t, f) == key
  {
    if facts == [] then []
    else
      assert facts == facts[..|facts| - 1] + [facts[|facts| - 1]];
      Rows(t, facts[..|facts| - 1], key) +
      if Key(t, facts[|facts| - 1]) == key then [facts[|facts| - 1]] else []
  }

  lemma NoRows(t: Text, facts: seq<Fact>, key: string)
    requires forall f | f in facts :: Key(t, f) != key
    ensures Rows(t, facts, key) == []
  {
    var rows := Rows(t, facts, key);
    assert forall i | 0 <= i < |rows| :: rows[i] in rows;
  }

  lemma RowsStep(t: Text, facts: seq<Fact>, f: Fact, key: string)
    ensures Rows(t, facts + [f], key) == Rows(t, facts, key) + if Key(t, f) == key then [f] else []
  {
    assert (facts + [f])[..|facts|] == facts;
  }

  datatype Group = Group(key: string, rows: seq<Fact>)

  ghost predicate Grouped(t: Text, groups: seq<Group>, facts: seq<Fact>) {
    && (forall i, j | 0 <= i < j < |groups| :: groups[i].key != groups[j].key)
    && (forall i | 0 <= i < |groups| :: groups[i].rows != [] && groups[i].rows == Rows(t, facts, groups[i].key))
    && (forall f | f in facts :: exists i :: 0 <= i < |groups| && groups[i].key == Key(t, f))
  }

  /** The keys of the facts, each where it comes up first. */
  function Firsts(t: Text, facts: seq<Fact>): seq<string> {
    if facts == [] then []
    else
      var before, key := Firsts(t, facts[..|facts| - 1]), Key(t, facts[|facts| - 1]);
      if key in before then before else before + [key]
  }

  lemma FirstsSnoc(t: Text, facts: seq<Fact>, f: Fact)
    ensures Firsts(t, facts + [f]) ==
            if Key(t, f) in Firsts(t, facts) then Firsts(t, facts) else Firsts(t, facts) + [Key(t, f)]
  {
    assert (facts + [f])[..|facts|] == facts;
  }

  function KeysOf(groups: seq<Group>): (r: seq<string>)
    ensures |r| == |groups| && forall i | 0 <= i < |r| :: r[i] == groups[i].key
  {
    seq(|groups|, i requires 0 <= i < |groups| => groups[i].key)
  }

  function KeysIn(t: Text, view: seq<Fact>): (r: seq<string>)
    ensures |r| == |view| && forall i | 0 <= i < |r| :: r[i] == Key(t, view[i])
  {
    seq(|view|, i requires 0 <= i < |view| => Key(t, view[i]))
  }

  /** Some of the keys, in the same order. */
  predicate InTurn(part: seq<string>, all: seq<string>) {
    part == [] ||
    (all != [] &&
     (InTurn(part, all[..|all| - 1])
      || (part[|part| - 1] == all[|all| - 1] && InTurn(part[..|part| - 1], all[..|all| - 1]))))
  }

  lemma InTurnMore(part: seq<string>, all: seq<string>, key: string)
    requires InTurn(part, all)
    ensures InTurn(part, all + [key]) && InTurn(part + [key], all + [key])
  {
    assert (all + [key])[..|all|] == all && (part + [key])[..|part|] == part;
  }

  /** byKey.set(key, [...(byKey.get(key) ?? []), fact]) */
  method AddToGroup(t: Text, groups: seq<Group>, ghost before: seq<Fact>, fact: Fact) returns (r: seq<Group>)
    requires Grouped(t, groups, before) && KeysOf(groups) == Firsts(t, before)
    ensures Grouped(t, r, before + [fact]) && KeysOf(r) == Firsts(t, before + [fact])
  {
    hide Rows, Key, Firsts, KeysOf;
    var key, at := Key(t, fact), 0;
    while at < |groups| && groups[at].key != key
      invariant at <= |groups| && forall i | 0 <= i < at :: groups[i].key != key
    {
      at := at + 1;
    }
    if at < |groups| {
      r := groups[at := Group(key, groups[at].rows + [fact])];
    } else {
      r := groups + [Group(key, [fact])];
      forall f | f in before ensures Key(t, f) != key {
        var i :| 0 <= i < |groups| && groups[i].key == Key(t, f);
      }
      NoRows(t, before, key);
    }
    Regrouped(t, groups, before, fact, at, r);
    KeysRegrouped(t, groups, before, fact, at, r);
  }

  lemma KeysRegrouped(t: Text, groups: seq<Group>, before: seq<Fact>, fact: Fact, at: nat, r: seq<Group>)
    requires KeysOf(groups) == Firsts(t, before) && at < |r| && r[at].key == Key(t, fact)
    requires (at < |groups| && r == groups[at := r[at]] && groups[at].key == r[at].key)
             || (at == |groups| && r == groups + [r[at]] && forall i | 0 <= i < at :: groups[i].key != r[at].key)
    ensures KeysOf(r) == Firsts(t, before + [fact])
  {
    FirstsSnoc(t, before, fact);
    assert at < |groups| ==> KeysOf(groups)[at] == r[at].key;
    hide Key, Firsts;
  }

  lemma Regrouped(t: Text, groups: seq<Group>, before: seq<Fact>, fact: Fact, at: nat, r: seq<Group>)
    requires Grouped(t, groups, before) && at < |r|
    requires r[at].key == Key(t, fact) && r[at].rows == Rows(t, before, Key(t, fact)) + [fact]
    requires (at < |groups| && r == groups[at := r[at]] && groups[at].key == r[at].key)
             || (at == |groups| && r == groups + [r[at]] && forall i | 0 <= i < at :: groups[i].key != r[at].key)
    ensures Grouped(t, r, before + [fact])
  {
    hide Rows, Key;
    forall i | 0 <= i < |r| ensures r[i].rows != [] && r[i].rows == Rows(t, before + [fact], r[i].key) {
      RowsStep(t, before, fact, r[i].key);
    }
    forall f | f in before + [fact] ensures exists i :: 0 <= i < |r| && r[i].key == Key(t, f) {
      if f in before {
        var i :| 0 <= i < |groups| && groups[i].key == Key(t, f);
        assert r[i].key == Key(t, f);
      } else {
        assert r[at].key == Key(t, f);
      }
    }
  }

  /** What currentCanonicalFacts returns: for every key whose valid facts agree, the latest of them. */
  ghost predicate Canonical(t: Text, valid: seq<Fact>, view: seq<Fact>) {
    && (forall i | 0 <= i < |view| ::
          && view[i] in valid
          && Agree(t, Rows(t, valid, Key(t, view[i])))
          && view[i] == Latest(t, Rows(t, valid, Key(t, view[i]))))
    && (forall i, j | 0 <= i < j < |view| :: Key(t, view[i]) != Key(t, view[j]))
    && (forall f | f in valid && Agree(t, Rows(t, valid, Key(t, f))) :: Shown(t, view, Key(t, f)))
  }

  ghost predicate Shown(t: Text, view: seq<Fact>, key: string) {
    exists i :: 0 <= i < |view| && Key(t, view[i]) == key
  }

  /** byKey: the valid facts in groups of equal keys. */
  method GroupByKey(t: Text, valid: seq<Fact>) returns (groups: seq<Group>)
    ensures Grouped(t, groups, valid) && KeysOf(groups) == Firsts(t, valid)
  {
    groups := [];
    for i := 0 to |valid|
      invariant Grouped(t, groups, valid[..i]) && KeysOf(groups) == Firsts(t, valid[..i])
    {
      groups := AddToGroup(t, groups, valid[..i], valid[i]);
      assert valid[..i + 1] == valid[..i] + [valid[i]];
    }
    assert valid[..|valid|] == valid;
  }

  /** What holds of the view when the groups before `n` have been folded into it. */
  ghost predicate Folded(t: Text, groups: seq<Group>, n: nat, view: seq<Fact>)
    requires n <= |groups|
  {
    && (forall k | 0 <= k < |view| :: Picked(t, groups, n, view[k]))
    && (forall k, l | 0 <= k < l < |view| :: Key(t, view[k]) != Key(t, view[l]))
    && (forall g | 0 <= g < n && Agree(t, groups[g].rows) :: Shown(t, view, groups[g].key))
  }

  ghost predicate Picked(t: Text, groups: seq<Group>, n: nat, f: Fact)
    requires n <= |groups|
  {
    exists g :: 0 <= g < n && groups[g].rows != [] && groups[g].key == Key(t, f) &&
      Agree(t, groups[g].rows) && f == Latest(t, groups[g].rows)
  }

  lemma PickedStays(t: Text, groups: seq<Group>, n: nat, f: Fact)
    requires n < |groups| && Picked(t, groups, n, f)
    ensures Picked(t, groups, n + 1, f)
    ensures (forall i | 0 <= i < n :: groups[i].key != groups[n].key) ==> Key(t, f) != groups[n].key
  {
    hide Agree, Latest, Key;
    var g :| 0 <= g < n && groups[g].rows != [] && groups[g].key == Key(t, f) &&
      Agree(t, groups[g].rows) && f == Latest(t, groups[g].rows);
  }

  lemma ShownStays(t: Text, view: seq<Fact>, f: Fact, key: string)
    requires Shown(t, view, key) || key == Key(t, f)
    ensures Shown(t, view + [f], key)
  {
    hide Key;
    assert (view + [f])[|view|] == f;
    if Shown(t, view, key) {
      var k :| 0 <= k < |view| && Key(t, view[k]) == key;
      assert (view + [f])[k] == view[k];
    }
  }

  lemma FoldStep(t: Text, groups: seq<Group>, valid: seq<Fact>, n: nat, view: seq<Fact>)
    requires Grouped(t, groups, valid) && n < |groups| && Folded(t, groups, n, view)
    ensures groups[n].rows != []
    ensures Folded(t, groups, n + 1,
                   if Agree(t, groups[n].rows) then view + [Latest(t, groups[n].rows)] else view)
  {
    hide Agree, Latest, Rows, Key, Grouped, Shown, Picked;
    LatestHasKey(t, groups, valid, n);
    forall k | 0 <= k < |view|
      ensures Picked(t, groups, n + 1, view[k]) && Key(t, view[k]) != groups[n].key
    {
      PickedStays(t, groups, n, view[k]);
    }
    if Agree(t, groups[n].rows) {
      var latest := Latest(t, groups[n].rows);
      assert Picked(t, groups, n + 1, latest) by { PickLatest(t, groups, n); }
      forall g | 0 <= g < n + 1 && Agree(t, groups[g].rows) ensures Shown(t, view + [latest], groups[g].key) {
        ShownStays(t, view, latest, groups[g].key);
      }
    }
  }

  lemma PickLatest(t: Text, groups: seq<Group>, n: nat)
    requires n < |groups| && groups[n].rows != [] && Agree(t, groups[n].rows)
    requires Key(t, Latest(t, groups[n].rows)) == groups[n].key
    ensures Picked(t, groups, n + 1, Latest(t, groups[n].rows))
  {
  }

  lemma LatestHasKey(t: Text, groups: seq<Group>, valid: seq<Fact>, n: nat)
    requires Grouped(t, groups, valid) && n < |groups|
    ensures groups[n].rows != []
    ensures Latest(t, groups[n].rows) in valid && Key(t, Latest(t, groups[n].rows)) == groups[n].key
    ensures forall i | 0 <= i < n :: groups[i].key != groups[n].key
  {
  }

  lemma FoldedIsCanonical(t: Text, groups: seq<Group>, valid: seq<Fact>, view: seq<Fact>)
    requires Grouped(t, groups, valid) && Folded(t, groups, |groups|, view)
    ensures Canonical(t, valid, view)
  {
    hide Agree, Latest, Rows;
    forall i | 0 <= i < |view|
      ensures view[i] in valid && Agree(t, Rows(t, valid, Key(t, view[i])))
      ensures view[i] == Latest(t, Rows(t, valid, Key(t, view[i])))
    {
      assert Picked(t, groups, |groups|, view[i]);
      var g :| 0 <= g < |groups| && groups[g].rows != [] && groups[g].key == Key(t, view[i]) &&
        Agree(t, groups[g].rows) && view[i] == Latest(t, groups[g].rows);
      LatestHasKey(t, groups, valid, g);
    }
    forall f | f in valid && Agree(t, Rows(t, valid, Key(t, f))) ensures Shown(t, view, Key(t, f)) {
      var g :| 0 <= g < |groups| && groups[g].key == Key(t, f);
      assert Agree(t, groups[g].rows);
    }
  }

  method CurrentCanonicalFacts(t: Text, facts: seq<Fact>, observedAt: string) returns (view: seq<Fact>)
    ensures Canonical(t, FactsValidAt(t, facts, observedAt), view)
    ensures InTurn(KeysIn(t, view), Firsts(t, FactsValidAt(t, facts, observedAt)))
  {
    hide Agree, Latest, Rows, Grouped, Folded, Canonical, Firsts, Key;
    var valid := FactsValidAt(t, facts, observedAt);
    var groups := GroupByKey(t, valid);
    view := [];
    NothingFolded(t, groups);
    for i := 0 to |groups|
      invariant Folded(t, groups, i, view)
      invariant InTurn(KeysIn(t, view), KeysOf(groups[..i]))
    {
      FoldStep(t, groups, valid, i, view);
      LatestHasKey(t, groups, valid, i);
      InTurnMore(KeysIn(t, view), KeysOf(groups[..i]), groups[i].key);
      assert KeysOf(groups[..i + 1]) == KeysOf(groups[..i]) + [groups[i].key];
      if Agree(t, groups[i].rows) {
        assert KeysIn(t, view + [Latest(t, groups[i].rows)]) == KeysIn(t, view) + [groups[i].key];
        view := view + [Latest(t, groups[i].rows)];
      }
    }
    assert groups[..|groups|] == groups;
    FoldedIsCanonical(t, groups, valid, view);
  }

  lemma NothingFolded(t: Text, groups: seq<Group>)
    ensures Folded(t, groups, 0, [])
  {
  }

  // ---------- When the current view is complete ----------

  predicate SameClaim(t: Text, a: Fact, b: Fact) {
    a.entityId == b.entityId && t.norm(a.property) == t.norm(b.property)
  }

  /** Two valid facts about different things whose grouping keys are the same string. */
  predicate Collides(t: Text, valid: seq<Fact>) {
    exists a, b | a in valid && b in valid :: Key(t, a) == Key(t, b) && !SameClaim(t, a, b)
  }

  ghost predicate AnsweredOnce(t: Text, view: seq<Fact>, f: Fact) {
    exists i :: 0 <= i < |view| && SameClaim(t, view[i], f) &&
      forall j | 0 <= j < |view| && SameClaim(t, view[j], f) :: j == i
  }

  /** Main theorem: in a consistent store the current view has exactly one fact for every entity and
      property with a valid fact if and only if no two of those pairs are written as the same key. */
  lemma CompleteExactlyWithoutCollisions(t: Text, facts: seq<Fact>, at: string, view: seq<Fact>)
    requires Consistent(t, facts) && Canonical(t, FactsValidAt(t, facts, at), view)
    ensures (forall f | f in FactsValidAt(t, facts, at) :: AnsweredOnce(t, view, f))
            <==> !Collides(t, FactsValidAt(t, facts, at))
  {
    hide Consistent, Canonical, FactsValidAt, AnsweredOnce, SameClaim, Rows, Agree, Latest, Key;
    var valid := FactsValidAt(t, facts, at);
    if !Collides(t, valid) {
      forall f | f in valid ensures AnsweredOnce(t, view, f) {
        RowsAgree(t, facts, at, f);
        ShownOnce(t, valid, view, f);
      }
    } else {
      var a, b :| a in valid && b in valid && Key(t, a) == Key(t, b) && !SameClaim(t, a, b);
      OneOfTwoHidden(t, valid, view, a, b);
    }
  }

  lemma OneOfTwoHidden(t: Text, valid: seq<Fact>, view: seq<Fact>, a: Fact, b: Fact)
    requires Canonical(t, valid, view) && Key(t, a) == Key(t, b) && !SameClaim(t, a, b)
    ensures !AnsweredOnce(t, view, a) || !AnsweredOnce(t, view, b)
  {
    hide Rows, Agree, Latest, Key;
    if AnsweredOnce(t, view, a) && AnsweredOnce(t, view, b) {
      var i :| 0 <= i < |view| && SameClaim(t, view[i], a);
      var j :| 0 <= j < |view| && SameClaim(t, view[j], b);
      SameClaimSameKey(t, view[i], a);
      SameClaimSameKey(t, view[j], b);
      assert false;
    }
  }

  lemma SameClaimSameKey(t: Text, a: Fact, b: Fact)
    requires SameClaim(t, a, b)
    ensures Key(t, a) == Key(t, b)
  {
  }

  lemma RowsAgree(t: Text, facts: seq<Fact>, at: string, f: Fact)
    requires Consistent(t, facts) && !Collides(t, FactsValidAt(t, facts, at)) && f in FactsValidAt(t, facts, at)
    ensures Agree(t, Rows(t, FactsValidAt(t, facts, at), Key(t, f)))
  {
    hide Key, Consistent;
    var valid := FactsValidAt(t, facts, at);
    forall a, b | a in Rows(t, valid, Key(t, f)) && b in Rows(t, valid, Key(t, f))
      ensures t.norm(a.value) == t.norm(b.value)
    {
      assert SameClaim(t, a, b);
      ConsistentFactsAgree(t, facts, a, b, Time(t, Some(at)).value);
    }
  }

  lemma ShownOnce(t: Text, valid: seq<Fact>, view: seq<Fact>, f: Fact)
    requires Canonical(t, valid, view) && !Collides(t, valid)
    requires f in valid && Agree(t, Rows(t, valid, Key(t, f)))
    ensures AnsweredOnce(t, view, f)
  {
    hide Rows, Agree, Latest, Key;
    assert Shown(t, view, Key(t, f));
    var i :| 0 <= i < |view| && Key(t, view[i]) == Key(t, f);
    assert SameClaim(t, view[i], f);
    forall j | 0 <= j < |view| && SameClaim(t, view[j], f) ensures j == i {
      SameClaimSameKey(t, view[j], f);
      assert !(i < j) && !(j < i);
    }
  }

  /** Entity ids without a NUL keep the keys apart, whatever the properties are. */
  lemma {:induction false} KeysApart(t: Text, a: Fact, b: Fact)
    requires '\0' !in a.entityId && '\0' !in b.entityId && Key(t, a) == Key(t, b)
    ensures SameClaim(t, a, b)
  {
    SplitAtNul(a.entityId, t.norm(a.property), b.entityId, t.norm(b.property));
  }

  lemma {:induction false} SplitAtNul(x: string, y: string, u: string, v: string)
    requires '\0' !in x && '\0' !in u && x + "\0" + y == u + "\0" + v
    ensures x == u && y == v
  {
    var s := x + "\0" + y;
    assert s[|x|] == '\0' && s[|u|] == '\0';
    assert forall i | 0 <= i < |u| :: s[i] == u[i];
    assert forall i | 0 <= i < |x| :: s[i] == x[i];
    assert x == s[..|x|] && u == s[..|u|];
    assert y == s[|x| + 1..] && v == s[|u| + 1..];
  }

  const PLAIN := Text((s: string) => s, (s: string) => Some(0), (s: string) => s == "")

  function Clash(entity: string, property: string, value: string): Fact {
    Fact(value, entity, property, value, "now", None, None, None, [], None, None)
  }

  /** A NUL in an entity id can hide facts: two valid facts about different entities, no contradiction
      between them, and an empty current view. */
  lemma NulHidesFacts(view: seq<Fact>)
    requires Canonical(PLAIN, FactsValidAt(PLAIN, [Clash("a", "b\0c", "x"), Clash("a\0b", "c", "y")], "now"), view)
    ensures Consistent(PLAIN, [Clash("a", "b\0c", "x"), Clash("a\0b", "c", "y")])
    ensures |FactsValidAt(PLAIN, [Clash("a", "b\0c", "x"), Clash("a\0b", "c", "y")], "now")| == 2 && view == []
  {
    hide FactsValidAt, Canonical, Key, Consistent;
    var a, b := Clash("a", "b\0c", "x"), Clash("a\0b", "c", "y");
    BothValid(a, b);
    assert |a.entityId| == 1 && |b.entityId| == 3;
    TwoEntities(a, b);
    assert Key(PLAIN, a) == Key(PLAIN, b) by { SameKey(); }
    NoneShown([a, b], a, b, view);
  }

  lemma SameKey()
    ensures Key(PLAIN, Clash("a", "b\0c", "x")) == Key(PLAIN, Clash("a\0b", "c", "y"))
  {
    assert Key(PLAIN, Clash("a", "b\0c", "x")) == "a\0b\0c" == Key(PLAIN, Clash("a\0b", "c", "y"));
  }

  lemma BothValid(a: Fact, b: Fact)
    requires a.validFrom == a.validUntil == a.supersedes == None == b.validFrom == b.validUntil == b.supersedes
    ensures FactsValidAt(PLAIN, [a, b], "now") == [a, b]
  {
    hide Time;
    var facts := [a, b];
    assert Time(PLAIN, None) == None && Time(PLAIN, Some("now")) == Some(0) by { TimePlain(); }
    assert Holds(PLAIN, a, 0) && Holds(PLAIN, b, 0);
    assert !Superseded(PLAIN, facts, a.id, 0) && !Superseded(PLAIN, facts, b.id, 0);
    assert facts[..1] == [a] && [a][..0] == [];
    assert ValidAt(PLAIN, facts, [a], 0) == [a];
  }

  lemma TimePlain()
    ensures Time(PLAIN, None) == None && Time(PLAIN, Some("now")) == Some(0)
  {
  }

  lemma TwoEntities(a: Fact, b: Fact)
    requires a.entityId != b.entityId
    ensures Consistent(PLAIN, [a, b])
  {
  }

  lemma ShownAgrees(t: Text, valid: seq<Fact>, view: seq<Fact>)
    requires Canonical(t, valid, view) && view != []
    ensures view[0] in valid && Agree(t, Rows(t, valid, Key(t, view[0])))
  {
  }

  lemma NoneShown(valid: seq<Fact>, a: Fact, b: Fact, view: seq<Fact>)
    requires valid == [a, b] && Key(PLAIN, a) == Key(PLAIN, b) && a.value != b.value
    requires Canonical(PLAIN, valid, view)
    ensures view == []
  {
    hide Canonical, Latest, Key, Rows;
    assert a in valid && b in valid;
    assert a in Rows(PLAIN, valid, Key(PLAIN, a)) && b in Rows(PLAIN, valid, Key(PLAIN, a));
    assert PLAIN.norm(a.value) != PLAIN.norm(b.value);
    assert !Agree(PLAIN, Rows(PLAIN, valid, Key(PLAIN, a)));
    if view != [] {
      ShownAgrees(PLAIN, valid, view);
      assert false;
    }
  }
}
