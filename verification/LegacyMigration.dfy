/**
 Moving a repository's learning candidates from the store of its old short name to the store of its
 canonical name (migrateLegacyProjectStore in src/learning/candidates.ts).  The process may die
 between any two file-system calls.
 */
module LegacyMigration {
  import opened Wrappers
  import opened LearningRecords

  datatype File = Missing | Corrupt | Store(candidates: Candidates)

  /** The two stores and the temporary files that writeStore renames over them. */
  datatype Files = Files(legacy: File, target: File, legacyTemp: File, targetTemp: File)

  /** What the process learns from git, the project policy and the redactor. */
  datatype Env = Env(
    project: string,
    activeCommon: Option<string>,
    policyBound: bool,
    commonDir: string -> Option<string>,
    redact: string -> string)

  // ---------- The pieces of one migration ----------

  /** The candidate belongs to the repository that is being migrated. */
  predicate Attributable(env: Env, c: Candidate) {
    var common := if c.repoPath.Some? then env.commonDir(c.repoPath.value) else None;
    common == env.activeCommon || (common.None? && env.policyBound)
  }

  function Migrated(env: Env, cs: Candidates): Candidates {
    if cs == [] then []
    else
      var rest := Migrated(env, cs[..|cs| - 1]);
      var c := cs[|cs| - 1];
      if Attributable(env, c) then rest + [c.(project := Some(env.project))] else rest
  }

  function Quarantined(env: Env, cs: Candidates): Candidates {
    if cs == [] then []
    else
      var rest := Quarantined(env, cs[..|cs| - 1]);
      if Attributable(env, cs[|cs| - 1]) then rest else rest + [cs[|cs| - 1]]
  }

  function Ids(cs: Candidates): set<nat> { set c | c in cs :: c.id }

  function StoreIds(f: File): set<nat> { if f.Store? then Ids(f.candidates) else {} }

  predicate Distinct(cs: Candidates) {
    forall i, j | 0 <= i < j < |cs| :: cs[i].id != cs[j].id
  }

  /** Where `id` is in `cs`, or |cs|. */
  function Find(cs: Candidates, id: nat): (k: nat)
    ensures k <= |cs|
    ensures k < |cs| ==> cs[k].id == id
    ensures k == |cs| <==> id !in Ids(cs)
    ensures forall i | 0 <= i < k :: cs[i].id != id
  {
    if cs == [] then 0
    else if cs[0].id == id then 0
    else
      assert Ids(cs) == {cs[0].id} + Ids(cs[1..]) by {
        forall c | c in cs ensures c == cs[0] || c in cs[1..] {}
      }
      Find(cs[1..], id) + 1
  }

  /** Map.set on the values of an insertion-ordered map. */
  function Put(cs: Candidates, c: Candidate): Candidates {
    var k := Find(cs, c.id);
    if k < |cs| then cs[k := c] else cs + [c]
  }

  function FromEntries(cs: Candidates): Candidates {
    if cs == [] then [] else Put(FromEntries(cs[..|cs| - 1]), cs[|cs| - 1])
  }

  predicate Beats(c: Candidate, prior: Candidate) {
    c.occurrences > prior.occurrences || c.updatedAt > prior.updatedAt
  }

  function MergeOne(cs: Candidates, c: Candidate): Candidates {
    var k := Find(cs, c.id);
    if k == |cs| || Beats(c, cs[k]) then Put(cs, c) else cs
  }

  function Merge(existing: Candidates, migrated: Candidates): Candidates {
    if migrated == [] then existing
    else MergeOne(Merge(existing, migrated[..|migrated| - 1]), migrated[|migrated| - 1])
  }

  // ---------- One run, cut off after some file-system calls ----------

  predicate Runs(env: Env, fs: Files) {
    && fs.legacy.Store? && env.activeCommon.Some? && !fs.target.Corrupt?
    && Migrated(env, fs.legacy.candidates) != []
  }

  function NewTarget(env: Env, fs: Files): File
    requires Runs(env, fs)
  {
    var existing := if fs.target.Store? then fs.target.candidates else [];
    Store(Sanitized(env.redact, Merge(FromEntries(existing), Migrated(env, fs.legacy.candidates))))
  }

  function NewLegacy(env: Env, fs: Files): File
    requires Runs(env, fs)
  {
    var rest := Quarantined(env, fs.legacy.candidates);
    if rest == [] then Missing else Store(Sanitized(env.redact, rest))
  }

  /** The files after the first `calls` file-system calls of a run; four complete it. */
  function After(env: Env, fs: Files, calls: nat): Files {
    if !Runs(env, fs) || calls == 0 then fs
    else if calls == 1 then fs.(targetTemp := NewTarget(env, fs))
    else
      var renamed := fs.(target := NewTarget(env, fs), targetTemp := Missing);
      if calls == 2 then renamed
      else if calls == 3 && NewLegacy(env, fs).Store? then renamed.(legacyTemp := NewLegacy(env, fs))
      else if calls == 3 then renamed.(legacy := Missing)
      else if NewLegacy(env, fs).Store? then renamed.(legacy := NewLegacy(env, fs), legacyTemp := Missing)
      else renamed.(legacy := Missing)
  }

  class LearningFiles {
    var legacy: File
    var target: File
    var legacyTemp: File
    var targetTemp: File

    function Contents(): Files reads this { Files(legacy, target, legacyTemp, targetTemp) }

    constructor (legacy: File, target: File)
      ensures Contents() == Files(legacy, target, Missing, Missing)
    {
      this.legacy, this.target, this.legacyTemp, this.targetTemp := legacy, target, Missing, Missing;
    }

    /** Split the legacy store as the first loop of the source does. */
    method Partition(env: Env, cs: Candidates) returns (migrated: Candidates, quarantined: Candidates)
      ensures migrated == Migrated(env, cs) && quarantined == Quarantined(env, cs)
    {
      migrated, quarantined := [], [];
      for i := 0 to |cs|
        invariant migrated == Migrated(env, cs[..i]) && quarantined == Quarantined(env, cs[..i])
      {
        assert cs[..i + 1][..i] == cs[..i];
        if Attributable(env, cs[i]) {
          migrated := migrated + [cs[i].(project := Some(env.project))];
        } else {
          quarantined := quarantined + [cs[i]];
        }
      }
      assert cs[..|cs|] == cs;
    }

    /** Build the merged map as the second loop of the source does. */
    method MergeInto(existing: Candidates, migrated: Candidates) returns (merged: Candidates)
      ensures merged == Merge(FromEntries(existing), migrated)
    {
      merged := [];
      for i := 0 to |existing|
        invariant merged == FromEntries(existing[..i])
      {
        assert existing[..i + 1][..i] == existing[..i];
        merged := Put(merged, existing[i]);
      }
      assert existing[..|existing|] == existing;
      for i := 0 to |migrated|
        invariant merged == Merge(FromEntries(existing), migrated[..i])
      {
        assert migrated[..i + 1][..i] == migrated[..i];
        merged := MergeOne(merged, migrated[i]);
      }
      assert migrated[..|migrated|] == migrated;
    }

    /** One run inside the migration lock; the process dies after `calls` file-system calls.
        An unreadable store throws before anything is written. */
    method Migrate(env: Env, calls: nat) returns (ok: bool)
      modifies this
      ensures Contents() == After(env, old(Contents()), calls)
      ensures !ok ==> Contents() == old(Contents())
      ensures ok <== !old(legacy).Corrupt? && !old(target).Corrupt?
    {
      if legacy.Missing? { return true; }
      if legacy.Corrupt? { return false; }
      if env.activeCommon.None? || legacy.candidates == [] { return true; }
      var migrated, quarantined := Partition(env, legacy.candidates);
      if migrated == [] { return true; }
      if target.Corrupt? { return false; }
      var merged := MergeInto(if target.Store? then target.candidates else [], migrated);
      ok := true;
      if calls == 0 { return; }
      targetTemp := Store(Sanitized(env.redact, merged));
      if calls == 1 { return; }
      target, targetTemp := targetTemp, Missing;
      if calls == 2 { return; }
      if quarantined != [] {
        legacyTemp := Store(Sanitized(env.redact, quarantined));
        if calls == 3 { return; }
        legacy, legacyTemp := legacyTemp, Missing;
      } else {
        legacy := Missing;
      }
    }
  }

  // ---------- No candidate is lost ----------

  lemma IdsOfConcat(a: Candidates, b: Candidates)
    ensures Ids(a + b) == Ids(a) + Ids(b)
  {
    forall c | c in a + b ensures c in a || c in b {}
    forall c | c in a || c in b ensures c in a + b {}
  }

  lemma PutIds(cs: Candidates, c: Candidate)
    ensures Ids(Put(cs, c)) == Ids(cs) + {c.id}
  {
    var k, r := Find(cs, c.id), Put(cs, c);
    if k < |cs| {
      forall x | x in cs ensures x.id in Ids(r) {
        var i :| 0 <= i < |cs| && cs[i] == x;
        assert r[i] in r && r[i].id == x.id;
      }
      assert cs[k] in cs && r[k] == c && c in r;
    } else {
      IdsOfConcat(cs, [c]);
    }
  }

  lemma {:induction false} FromEntriesIds(cs: Candidates)
    ensures Ids(FromEntries(cs)) == Ids(cs)
  {
    if cs != [] {
      var init, last := cs[..|cs| - 1], cs[|cs| - 1];
      FromEntriesIds(init);
      PutIds(FromEntries(init), last);
      assert cs == init + [last];
      IdsOfConcat(init, [last]);
    }
  }

  lemma MergeOneIds(cs: Candidates, c: Candidate)
    ensures Ids(MergeOne(cs, c)) == Ids(cs) + {c.id}
  {
    hide Ids, Put;
    PutIds(cs, c);
  }

  lemma {:induction false} MergeIds(existing: Candidates, migrated: Candidates)
    ensures Ids(Merge(existing, migrated)) == Ids(existing) + Ids(migrated)
  {
    if migrated != [] {
      var init, last := migrated[..|migrated| - 1], migrated[|migrated| - 1];
      MergeIds(existing, init);
      MergeOneIds(Merge(existing, init), last);
      assert migrated == init + [last];
      IdsOfConcat(init, [last]);
      assert Ids([last]) == {last.id};
    } else {
      assert Ids(migrated) == {};
    }
  }

  lemma {:induction false} PartitionIds(env: Env, cs: Candidates)
    ensures Ids(Migrated(env, cs)) + Ids(Quarantined(env, cs)) == Ids(cs)
  {
    if cs != [] {
      var init, last := cs[..|cs| - 1], cs[|cs| - 1];
      PartitionIds(env, init);
      assert cs == init + [last];
      IdsOfConcat(init, [last]);
      IdsOfConcat(Migrated(env, init), [last.(project := Some(env.project))]);
      IdsOfConcat(Quarantined(env, init), [last]);
    }
  }

  lemma SanitizedIds(env: Env, cs: Candidates)
    ensures Ids(Sanitized(env.redact, cs)) == Ids(cs)
  {
    var r := Sanitized(env.redact, cs);
    forall c | c in cs ensures c.id in Ids(r) {
      var i :| 0 <= i < |cs| && cs[i] == c;
      assert r[i] in r;
    }
  }

  lemma NewStoreIds(env: Env, fs: Files)
    requires Runs(env, fs)
    ensures StoreIds(NewTarget(env, fs)) == StoreIds(fs.target) + Ids(Migrated(env, fs.legacy.candidates))
    ensures StoreIds(NewLegacy(env, fs)) == Ids(Quarantined(env, fs.legacy.candidates))
  {
    var existing := if fs.target.Store? then fs.target.candidates else [];
    var migrated := Migrated(env, fs.legacy.candidates);
    FromEntriesIds(existing);
    MergeIds(FromEntries(existing), migrated);
    SanitizedIds(env, Merge(FromEntries(existing), migrated));
    SanitizedIds(env, Quarantined(env, fs.legacy.candidates));
  }

  lemma RenamesFollowEachOther(env: Env, fs: Files, calls: nat)
    requires Runs(env, fs) && calls > 1
    ensures After(env, fs, calls).target == NewTarget(env, fs)
    ensures After(env, fs, calls).legacy in {fs.legacy, NewLegacy(env, fs)}
  {
  }

  /** At every crash point the two stores together hold exactly the candidates they held before. */
  lemma EveryCrashPointKeepsAllIds(env: Env, fs: Files, calls: nat)
    ensures StoreIds(After(env, fs, calls).legacy) + StoreIds(After(env, fs, calls).target)
         == StoreIds(fs.legacy) + StoreIds(fs.target)
  {
    if Runs(env, fs) && calls > 1 {
      NewStoreIds(env, fs);
      PartitionIds(env, fs.legacy.candidates);
      var migrated, quarantined := Ids(Migrated(env, fs.legacy.candidates)), Ids(Quarantined(env, fs.legacy.candidates));
      RenamesFollowEachOther(env, fs, calls);
      assert StoreIds(fs.legacy) == migrated + quarantined;
    }
  }

  // ---------- Which record survives ----------

  function Lookup(cs: Candidates, id: nat): Option<Candidate> {
    var k := Find(cs, id);
    if k < |cs| then Some(cs[k]) else None
  }

  lemma PutLookup(cs: Candidates, c: Candidate, id: nat)
    ensures Lookup(Put(cs, c), id) == if id == c.id then Some(c) else Lookup(cs, id)
  {
    var k, r := Find(cs, c.id), Put(cs, c);
    PutIds(cs, c);
    if k < |cs| {
      assert r[k] == c && forall i | 0 <= i < |cs| :: r[i].id == cs[i].id;
      FindIsFirst(r, id);
      FindIsFirst(cs, id);
    } else {
      assert forall i | 0 <= i < |cs| :: r[i] == cs[i];
      FindIsFirst(r, id);
      FindIsFirst(cs, id);
    }
  }

  lemma FindIsFirst(cs: Candidates, id: nat)
    ensures forall k: nat | k < |cs| && cs[k].id == id && (forall i | 0 <= i < k :: cs[i].id != id) :: Find(cs, id) == k
  {
    forall k: nat | k < |cs| && cs[k].id == id && (forall i | 0 <= i < k :: cs[i].id != id)
      ensures Find(cs, id) == k
    {
      assert cs[k] in cs;
    }
  }

  lemma SnocLookup(init: Candidates, last: Candidate, id: nat)
    ensures Lookup(init + [last], id) ==
              if Lookup(init, id).Some? then Lookup(init, id) else if last.id == id then Some(last) else None
  {
    var cs := init + [last];
    IdsOfConcat(init, [last]);
    assert forall i | 0 <= i < |init| :: cs[i] == init[i];
    FindIsFirst(cs, id);
  }

  lemma LookupNone(cs: Candidates, id: nat)
    ensures Lookup(cs, id).None? <==> forall i | 0 <= i < |cs| :: cs[i].id != id
  {
    if i :| 0 <= i < |cs| && cs[i].id == id { assert cs[i] in cs; }
  }

  /** The merge keeps the existing record exactly when the migrated one of the same id does not beat it. */
  lemma {:induction false} MergedRecord(existing: Candidates, migrated: Candidates, id: nat)
    requires Distinct(migrated)
    ensures var prior, c := Lookup(existing, id), Lookup(migrated, id);
            Lookup(Merge(existing, migrated), id) ==
              if c.Some? && (prior.None? || Beats(c.value, prior.value)) then c else prior
  {
    if migrated != [] {
      var init, last := migrated[..|migrated| - 1], migrated[|migrated| - 1];
      MergedRecord(existing, init, id);
      assert migrated == init + [last];
      SnocLookup(init, last, id);
      LookupNone(init, id);
      MergeOneLookup(Merge(existing, init), last, id);
    }
  }

  lemma MergeOneLookup(cs: Candidates, c: Candidate, id: nat)
    ensures var prior := Lookup(cs, id);
            Lookup(MergeOne(cs, c), id) ==
              if id == c.id && (prior.None? || Beats(c, prior.value)) then Some(c) else prior
  {
    PutLookup(cs, c, id);
  }

  // ---------- Running again after a crash ----------

  /** `later` holds every record of `earlier`, possibly captured again since. */
  ghost predicate Grown(earlier: Candidates, later: Candidates) {
    forall c | c in earlier ::
      && Lookup(later, c.id).Some?
      && Lookup(later, c.id).value.occurrences >= c.occurrences
      && Lookup(later, c.id).value.updatedAt >= c.updatedAt
  }

  lemma {:induction false} FromDistinctEntries(cs: Candidates)
    requires Distinct(cs)
    ensures FromEntries(cs) == cs
  {
    if cs != [] {
      var init, last := cs[..|cs| - 1], cs[|cs| - 1];
      FromDistinctEntries(init);
      LookupNone(init, last.id);
      assert cs == init + [last];
    }
  }

  lemma {:induction false} MergeOfBeaten(existing: Candidates, migrated: Candidates)
    requires forall c | c in migrated :: Lookup(existing, c.id).Some? && !Beats(c, Lookup(existing, c.id).value)
    ensures Merge(existing, migrated) == existing
  {
    if migrated != [] {
      var init, last := migrated[..|migrated| - 1], migrated[|migrated| - 1];
      assert migrated == init + [last];
      MergeOfBeaten(existing, init);
      assert last in migrated;
    }
  }

  lemma {:induction false} MigratedDistinct(env: Env, cs: Candidates)
    requires Distinct(cs)
    ensures Distinct(Migrated(env, cs))
    ensures forall c | c in Migrated(env, cs) :: c.id in Ids(cs)
  {
    if cs != [] {
      var init, last := cs[..|cs| - 1], cs[|cs| - 1];
      MigratedDistinct(env, init);
      assert cs == init + [last];
      IdsOfConcat(init, [last]);
      LookupNone(init, last.id);
      forall c | c in Migrated(env, init) ensures c.id != last.id {}
    }
  }

  lemma LookupOfMember(cs: Candidates, c: Candidate)
    requires Distinct(cs) && c in cs
    ensures Lookup(cs, c.id) == Some(c)
  {
    var i :| 0 <= i < |cs| && cs[i] == c;
    FindIsFirst(cs, c.id);
  }

  lemma SanitizedLookup(env: Env, cs: Candidates, id: nat)
    ensures var r, c := Lookup(Sanitized(env.redact, cs), id), Lookup(cs, id);
            r == if c.Some? then Some(Redacted(env.redact, c.value)) else None
  {
    var r := Sanitized(env.redact, cs);
    LookupNone(cs, id);
    LookupNone(r, id);
    FindIsFirst(r, id);
  }

  lemma InConcat(init: Candidates, last: Candidate)
    ensures forall c :: c in init + [last] <==> c in init || c == last
  {
  }

  /** What a merge leaves under an id was there or has been migrated. */
  lemma {:induction false} MergedFrom(existing: Candidates, migrated: Candidates, id: nat)
    ensures var r := Lookup(Merge(existing, migrated), id);
            r == Lookup(existing, id) || (r.Some? && r.value in migrated && r.value.id == id)
  {
    if migrated != [] {
      var init, last := migrated[..|migrated| - 1], migrated[|migrated| - 1];
      MergedFrom(existing, init, id);
      assert migrated == init + [last];
      InConcat(init, last);
      MergeOneLookup(Merge(existing, init), last, id);
    }
  }

  /** The record kept under an id is at least as large as any that no migrated record beats. */
  lemma {:induction false} UnbeatenStays(existing: Candidates, migrated: Candidates, x: Candidate)
    requires x in migrated || Lookup(existing, x.id) == Some(x)
    requires forall d | d in migrated && d.id == x.id :: !Beats(d, x)
    ensures var r := Lookup(Merge(existing, migrated), x.id);
            r.Some? && r.value.occurrences >= x.occurrences && r.value.updatedAt >= x.updatedAt
  {
    if migrated != [] {
      var init, last := migrated[..|migrated| - 1], migrated[|migrated| - 1];
      assert migrated == init + [last];
      InConcat(init, last);
      if x in init || Lookup(existing, x.id) == Some(x) { UnbeatenStays(existing, init, x); }
      MergeOneLookup(Merge(existing, init), last, x.id);
    }
  }

  /** A record that some migrated record beats does not come back unless it has been migrated itself. */
  lemma {:induction false} BeatenGoes(existing: Candidates, migrated: Candidates, c: Candidate)
    requires c in migrated && Lookup(existing, c.id).Some? && Beats(c, Lookup(existing, c.id).value)
    ensures Lookup(Merge(existing, migrated), c.id).Some?
    ensures Lookup(Merge(existing, migrated), c.id).value in migrated
  {
    var init, last := migrated[..|migrated| - 1], migrated[|migrated| - 1];
    assert migrated == init + [last];
    InConcat(init, last);
    MergeOneLookup(Merge(existing, init), last, c.id);
    MergedFrom(existing, init, c.id);
    if c in init { BeatenGoes(existing, init, c); }
  }

  /** Under every migrated id some record, the target's or a migrated one, is beaten by no migrated record. */
  ghost predicate Topped(existing: Candidates, migrated: Candidates) {
    forall c | c in migrated :: exists x | Tops(existing, migrated, x) :: x.id == c.id
  }

  ghost predicate Tops(existing: Candidates, migrated: Candidates, x: Candidate) {
    && (x in migrated || Lookup(existing, x.id) == Some(x))
    && forall d | d in migrated && d.id == x.id :: !Beats(d, x)
  }

  ghost predicate Unbeaten(merged: Candidates, migrated: Candidates) {
    forall c | c in migrated :: Lookup(merged, c.id).Some? && !Beats(c, Lookup(merged, c.id).value)
  }

  lemma LookupId(cs: Candidates, id: nat)
    ensures Lookup(cs, id).Some? ==> Lookup(cs, id).value.id == id && Lookup(cs, id).value in cs
  {
  }

  /** The condition on the two stores says that no migrated record beats what the merge keeps of its id. */
  lemma ToppedIsUnbeaten(existing: Candidates, migrated: Candidates)
    ensures Topped(existing, migrated) <==> Unbeaten(Merge(existing, migrated), migrated)
  {
    hide Lookup, Merge;
    if Topped(existing, migrated) {
      forall c | c in migrated
        ensures Lookup(Merge(existing, migrated), c.id).Some? && !Beats(c, Lookup(Merge(existing, migrated), c.id).value)
      {
        var x :| Tops(existing, migrated, x) && x.id == c.id;
        UnbeatenStays(existing, migrated, x);
      }
    }
    if Unbeaten(Merge(existing, migrated), migrated) {
      forall c | c in migrated ensures exists x | Tops(existing, migrated, x) :: x.id == c.id {
        MergedFrom(existing, migrated, c.id);
        LookupId(Merge(existing, migrated), c.id);
        assert Tops(existing, migrated, Lookup(Merge(existing, migrated), c.id).value);
      }
    }
  }

  lemma {:induction false} MergeDistinct(existing: Candidates, migrated: Candidates)
    requires Distinct(existing)
    ensures Distinct(Merge(existing, migrated))
  {
    if migrated != [] {
      MergeDistinct(existing, migrated[..|migrated| - 1]);
      PutDistinct(Merge(existing, migrated[..|migrated| - 1]), migrated[|migrated| - 1]);
    }
  }

  lemma PutDistinct(cs: Candidates, c: Candidate)
    requires Distinct(cs)
    ensures Distinct(Put(cs, c))
  {
    LookupNone(cs, c.id);
  }

  lemma {:induction false} FromEntriesDistinct(cs: Candidates)
    ensures Distinct(FromEntries(cs))
  {
    if cs != [] {
      FromEntriesDistinct(cs[..|cs| - 1]);
      PutDistinct(FromEntries(cs[..|cs| - 1]), cs[|cs| - 1]);
    }
  }

  function Held(f: File): Candidates { if f.Store? then FromEntries(f.candidates) else [] }

  /** The process died after it had renamed the target and before it replaced the legacy store; since then
      the target has gone on growing. */
  ghost predicate GrownSinceCrash(env: Env, fs: Files, crashed: Files)
    requires Runs(env, fs)
  {
    && crashed.legacy == fs.legacy
    && crashed.target.Store? && Distinct(crashed.target.candidates)
    && Grown(NewTarget(env, fs).candidates, crashed.target.candidates)
  }

  lemma NewTargetIs(env: Env, fs: Files)
    requires Runs(env, fs)
    ensures NewTarget(env, fs) == Store(Sanitized(env.redact, Merge(Held(fs.target), Migrated(env, fs.legacy.candidates))))
  {
  }

  lemma RerunIs(env: Env, fs: Files, crashed: Files)
    requires Runs(env, fs) && GrownSinceCrash(env, fs, crashed)
    ensures After(env, crashed, 4).legacy == NewLegacy(env, fs)
    ensures After(env, crashed, 4).target ==
              Store(Sanitized(env.redact, Merge(crashed.target.candidates, Migrated(env, fs.legacy.candidates))))
  {
    FromDistinctEntries(crashed.target.candidates);
    CompletedRun(env, crashed);
  }

  /** When no migrated record beats what the merged target holds of its id, none beats it after it has grown. */
  lemma GrownStaysUnbeaten(env: Env, fs: Files, crashed: Files)
    requires Runs(env, fs) && GrownSinceCrash(env, fs, crashed)
    requires Unbeaten(Merge(Held(fs.target), Migrated(env, fs.legacy.candidates)), Migrated(env, fs.legacy.candidates))
    ensures Merge(crashed.target.candidates, Migrated(env, fs.legacy.candidates)) == crashed.target.candidates
  {
    NewTargetIs(env, fs);
    hide NewTarget, Merge, Migrated, FromEntries, Lookup, Distinct;
    var migrated, grown := Migrated(env, fs.legacy.candidates), crashed.target.candidates;
    var merged := Merge(Held(fs.target), migrated);
    forall c | c in migrated ensures Lookup(grown, c.id).Some? && !Beats(c, Lookup(grown, c.id).value) {
      SanitizedLookup(env, merged, c.id);
      LookupId(Sanitized(env.redact, merged), c.id);
    }
    MergeOfBeaten(grown, migrated);
  }

  /** Some number is above every count and time of the records. */
  lemma {:induction false} Above(cs: Candidates, low: int) returns (n: nat)
    ensures n >= low && forall c | c in cs :: c.occurrences < n && c.updatedAt < n
  {
    if cs == [] {
      n := if low < 0 then 0 else low;
    } else {
      var m := Above(cs[1..], low);
      n := m + cs[0].occurrences + (if cs[0].updatedAt < 0 then 0 else cs[0].updatedAt) + 1;
      assert cs == [cs[0]] + cs[1..];
    }
  }

  /** Growth of `r` in the respect in which `c` does not beat it, and like no migrated record. */
  lemma GrowthThatLoses(migrated: Candidates, c: Candidate, r: Candidate) returns (g: Candidate)
    requires Beats(c, r)
    ensures g.id == r.id && g.occurrences >= r.occurrences && g.updatedAt >= r.updatedAt && Beats(c, g)
    ensures forall d | d in migrated :: d.occurrences != g.occurrences || d.updatedAt != g.updatedAt
  {
    if c.occurrences > r.occurrences {
      var n := Above(migrated, r.updatedAt);
      g := r.(updatedAt := n);
    } else {
      var n := Above(migrated, r.occurrences);
      g := r.(occurrences := n);
    }
  }

  lemma GrownWith(cs: Candidates, g: Candidate) returns (grown: Candidates)
    requires Distinct(cs) && Lookup(cs, g.id).Some?
    requires Lookup(cs, g.id).value.occurrences <= g.occurrences && Lookup(cs, g.id).value.updatedAt <= g.updatedAt
    ensures Distinct(grown) && Grown(cs, grown) && Lookup(grown, g.id) == Some(g)
  {
    grown := Put(cs, g);
    PutDistinct(cs, g);
    forall c | c in cs
      ensures Lookup(grown, c.id).Some? && Lookup(grown, c.id).value.occurrences >= c.occurrences
              && Lookup(grown, c.id).value.updatedAt >= c.updatedAt
    {
      PutLookup(cs, g, c.id);
      LookupOfMember(cs, c);
    }
    PutLookup(cs, g, g.id);
  }

  /** When some migrated record beats what the merged target holds of its id, a growth is lost. */
  lemma SomeGrowthIsLost(env: Env, fs: Files) returns (crashed: Files)
    requires Runs(env, fs)
    requires !Unbeaten(Merge(Held(fs.target), Migrated(env, fs.legacy.candidates)), Migrated(env, fs.legacy.candidates))
    ensures GrownSinceCrash(env, fs, crashed)
    ensures After(env, crashed, 4).target != Store(Sanitized(env.redact, crashed.target.candidates))
  {
    NewTargetIs(env, fs);
    var migrated, merged := Migrated(env, fs.legacy.candidates), Merge(Held(fs.target), Migrated(env, fs.legacy.candidates));
    FromEntriesDistinct(if fs.target.Store? then fs.target.candidates else []);
    MergeDistinct(Held(fs.target), migrated);
    MergeIds(Held(fs.target), migrated);
    hide Runs, NewTarget, Merge, Migrated, Held, After, Distinct, Grown, Lookup;
    var c :| c in migrated && !(Lookup(merged, c.id).Some? && !Beats(c, Lookup(merged, c.id).value));
    IdIsMerged(merged, migrated, c);
    var sanitized := Sanitized(env.redact, merged);
    SanitizedLookup(env, merged, c.id);
    LookupId(sanitized, c.id);
    SanitizedDistinct(env, merged);
    var g := GrowthThatLoses(migrated, c, Lookup(sanitized, c.id).value);
    var grown := GrownWith(sanitized, g);
    crashed := fs.(target := Store(grown));
    RerunIs(env, fs, crashed);
    BeatenGoes(grown, migrated, c);
    SanitizedLookup(env, Merge(grown, migrated), c.id);
    SanitizedLookup(env, grown, c.id);
  }

  lemma IdIsMerged(merged: Candidates, migrated: Candidates, c: Candidate)
    requires Ids(migrated) <= Ids(merged) && c in migrated
    ensures Lookup(merged, c.id).Some?
  {
  }

  lemma SanitizedDistinct(env: Env, cs: Candidates)
    requires Distinct(cs)
    ensures Distinct(Sanitized(env.redact, cs))
  {
  }

  /** Main theorem: a run that finds the legacy store again after a crash keeps every target record as it has
      grown, whatever has grown, if and only if under every migrated id some record is the largest in both
      respects that the merge compares. */
  lemma RerunKeepsGrowthExactly(env: Env, fs: Files)
    requires Runs(env, fs)
    ensures Topped(Held(fs.target), Migrated(env, fs.legacy.candidates)) <==>
            forall crashed | GrownSinceCrash(env, fs, crashed) ::
              After(env, crashed, 4).target == Store(Sanitized(env.redact, crashed.target.candidates))
  {
    var existing, migrated := Held(fs.target), Migrated(env, fs.legacy.candidates);
    hide Runs, Topped, Unbeaten, Held, Migrated, After, Merge, Distinct, Grown;
    ToppedIsUnbeaten(existing, migrated);
    if Unbeaten(Merge(existing, migrated), migrated) {
      forall crashed | GrownSinceCrash(env, fs, crashed)
        ensures crashed.target.Store?
        ensures After(env, crashed, 4).target == Store(Sanitized(env.redact, crashed.target.candidates))
      {
        GrownStaysUnbeaten(env, fs, crashed);
        RerunIs(env, fs, crashed);
      }
    } else {
      var crashed := SomeGrowthIsLost(env, fs);
    }
  }

  /** Distinct ids in the legacy store are enough. */
  lemma DistinctIdsAreTopped(env: Env, fs: Files)
    requires Runs(env, fs) && Distinct(fs.legacy.candidates)
    ensures Topped(Held(fs.target), Migrated(env, fs.legacy.candidates))
  {
    var migrated := Migrated(env, fs.legacy.candidates);
    MigratedDistinct(env, fs.legacy.candidates);
    hide Migrated, Held, Lookup;
    var existing := Held(fs.target);
    forall c | c in migrated
      ensures Lookup(Merge(existing, migrated), c.id).Some? && !Beats(c, Lookup(Merge(existing, migrated), c.id).value)
    {
      LookupOfMember(migrated, c);
      MergedRecord(existing, migrated, c.id);
    }
    ToppedIsUnbeaten(existing, migrated);
  }

  lemma CompletedRun(env: Env, fs: Files)
    requires Runs(env, fs)
    ensures After(env, fs, 4).target == NewTarget(env, fs)
    ensures After(env, fs, 4).legacy == NewLegacy(env, fs)
  {
  }

  lemma MergeTwo(existing: Candidates, a: Candidate, b: Candidate)
    ensures Merge(existing, [a, b]) == MergeOne(MergeOne(existing, a), b)
  {
    assert [a, b][..1] == [a] && [a][..0] == [];
    assert Merge(existing, [a]) == MergeOne(existing, a);
  }

  lemma MigratedTwo(env: Env, a: Candidate, b: Candidate)
    requires Attributable(env, a) && Attributable(env, b)
    ensures Migrated(env, [a, b]) == [a.(project := Some(env.project)), b.(project := Some(env.project))]
  {
    assert [a, b][..1] == [a] && [a][..0] == [];
    assert Migrated(env, [a]) == [a.(project := Some(env.project))];
  }

  /** A run that loses growth: two legacy records share an id, and each beats the other in one respect. The
      migration is cut off behind its first rename, the target record is captured once more, and the rerun
      puts back what was there before that capture. */
  lemma SharedIdsLoseGrowth(env: Env, often: Candidate, late: Candidate, now: int)
    requires env.activeCommon.Some? && Attributable(env, often) && Attributable(env, late)
    requires often.id == late.id && often.occurrences > late.occurrences + 1 && now >= late.updatedAt > often.updatedAt
    ensures var fs := Files(Store([often, late]), Missing, Missing, Missing);
            var crashed := After(env, fs, 2);
            var kept := Redacted(env.redact, late.(project := Some(env.project)));
            var captured := kept.(occurrences := kept.occurrences + 1, updatedAt := now);
            && Runs(env, fs) && crashed.legacy == fs.legacy && crashed.target == Store([kept])
            && GrownSinceCrash(env, fs, crashed.(target := Store([captured])))
            && After(env, crashed.(target := Store([captured])), 4).target == Store([kept])
  {
    hide Attributable, Merge, Runs, FromEntries, Grown, Redacted;
    var fs := Files(Store([often, late]), Missing, Missing, Missing);
    var kept := Redacted(env.redact, late.(project := Some(env.project)));
    var captured := kept.(occurrences := kept.occurrences + 1, updatedAt := now);
    FirstOfTwoRuns(env, fs, often, late);
    KeptCounts(env, late);
    GrownOnce(kept, captured);
    LastOfTwo(env, [captured], often, late);
    hide After, Migrated, NewTarget;
    var crashed := After(env, fs, 2).(target := Store([captured]));
    MigratedTwo(env, often, late);
    RerunIs(env, fs, crashed);
  }

  lemma KeptCounts(env: Env, late: Candidate)
    ensures var kept := Redacted(env.redact, late.(project := Some(env.project)));
            kept.id == late.id && kept.occurrences == late.occurrences && kept.updatedAt == late.updatedAt
  {
  }

  lemma GrownOnce(kept: Candidate, captured: Candidate)
    requires kept.id == captured.id && captured.occurrences >= kept.occurrences && captured.updatedAt >= kept.updatedAt
    ensures Grown([kept], [captured]) && Distinct([captured])
  {
    PutOnly(captured, kept);
  }

  lemma FirstOfTwoRuns(env: Env, fs: Files, often: Candidate, late: Candidate)
    requires env.activeCommon.Some? && Attributable(env, often) && Attributable(env, late)
    requires fs == Files(Store([often, late]), Missing, Missing, Missing)
    requires often.id == late.id && Beats(late, often)
    ensures Runs(env, fs) && NewTarget(env, fs) == Store([Redacted(env.redact, late.(project := Some(env.project)))])
    ensures After(env, fs, 2) == fs.(target := NewTarget(env, fs), targetTemp := Missing)
  {
    hide Attributable, Merge, Redacted;
    MigratedTwo(env, often, late);
    LastOfTwo(env, [], often, late);
    CutOff(env, fs);
  }

  lemma LastOfTwo(env: Env, existing: Candidates, often: Candidate, late: Candidate)
    requires existing == [] || (|existing| == 1 && existing[0].id == late.id && Beats(often, existing[0]))
    requires often.id == late.id && Beats(late, often)
    ensures Sanitized(env.redact, Merge(existing, [often.(project := Some(env.project)), late.(project := Some(env.project))]))
         == [Redacted(env.redact, late.(project := Some(env.project)))]
  {
    hide Merge, Redacted;
    LastOfTwoStays(existing, often.(project := Some(env.project)), late.(project := Some(env.project)));
  }

  lemma LastOfTwoStays(existing: Candidates, a: Candidate, b: Candidate)
    requires existing == [] || (|existing| == 1 && existing[0].id == b.id && Beats(a, existing[0]))
    requires a.id == b.id && Beats(b, a)
    ensures Merge(existing, [a, b]) == [b]
  {
    hide Merge, MergeOne;
    MergeTwo(existing, a, b);
    PutOnly(a, b);
    if existing != [] { OneOver(existing, a); }
  }

  lemma OneOver(existing: Candidates, a: Candidate)
    requires |existing| == 1 && existing[0].id == a.id && Beats(a, existing[0])
    ensures MergeOne(existing, a) == [a]
  {
    hide MergeOne;
    assert existing == [existing[0]];
    PutOnly(existing[0], a);
  }

  lemma CutOff(env: Env, fs: Files)
    requires Runs(env, fs)
    ensures After(env, fs, 2) == fs.(target := NewTarget(env, fs), targetTemp := Missing)
  {
  }

  lemma PutOnly(prior: Candidate, c: Candidate)
    requires prior.id == c.id
    ensures MergeOne([], prior) == [prior] && MergeOne([prior], c) == (if Beats(c, prior) then [c] else [prior])
    ensures Lookup([prior], c.id) == Some(prior)
  {
    assert Ids([prior]) == {prior.id} && Ids([]) == {} by { assert prior in [prior]; }
  }

  lemma {:induction false} NothingLeftToMigrate(env: Env, cs: Candidates)
    ensures Migrated(env, Quarantined(env, cs)) == []
    ensures Migrated(env, Sanitized(env.redact, Quarantined(env, cs))) == []
  {
    if cs != [] {
      NothingLeftToMigrate(env, cs[..|cs| - 1]);
      var rest, last := Quarantined(env, cs[..|cs| - 1]), cs[|cs| - 1];
      if !Attributable(env, last) {
        assert (rest + [last])[..|rest|] == rest;
        var r := Sanitized(env.redact, rest + [last]);
        assert r[..|rest|] == Sanitized(env.redact, rest);
      }
    }
  }

  /** A completed migration has nothing left to do. */
  lemma SecondRunChangesNothing(env: Env, fs: Files, calls: nat)
    ensures After(env, After(env, fs, 4), calls) == After(env, fs, 4)
  {
    if Runs(env, fs) {
      NothingLeftToMigrate(env, fs.legacy.candidates);
    }
  }
}
