/**
 What a migration does to the two stores, record by record, when the ids of each store are distinct
 (migrateLegacyProjectStore in src/learning/candidates.ts).
 */
module LegacyMerge {
  import opened Wrappers
  import opened LearningRecords
  import opened LegacyMigration

  predicate HasId(cs: Candidates, id: nat) { exists i :: 0 <= i < |cs| && cs[i].id == id }

  /** The migrated record is new to the target or takes the place of the target's record of its id. */
  predicate Arrives(existing: Candidates, migrated: Candidates, c: Candidate) {
    c in migrated && (Lookup(existing, c.id).None? || Beats(c, Lookup(existing, c.id).value))
  }

  /** The target's record is not replaced. */
  predicate Stays(existing: Candidates, migrated: Candidates, e: Candidate) {
    e in existing && (Lookup(migrated, e.id).None? || !Beats(Lookup(migrated, e.id).value, e))
  }

  lemma MemberIsFound(cs: Candidates, x: Candidate)
    requires Distinct(cs)
    ensures x in cs <==> Lookup(cs, x.id) == Some(x)
  {
    LookupId(cs, x.id);
    if x in cs { LookupOfMember(cs, x); }
  }

  /** The merged target holds what stays and what arrives. */
  lemma MergeMembers(existing: Candidates, migrated: Candidates, x: Candidate)
    requires Distinct(existing) && Distinct(migrated)
    ensures Distinct(Merge(existing, migrated))
    ensures x in Merge(existing, migrated) <==> Stays(existing, migrated, x) || Arrives(existing, migrated, x)
  {
    hide Merge, Lookup;
    MergeDistinct(existing, migrated);
    MergedRecord(existing, migrated, x.id);
    MemberIsFound(Merge(existing, migrated), x);
    MemberIsFound(existing, x);
    MemberIsFound(migrated, x);
  }

  /** Records with new ids are added behind the others. */
  lemma {:induction false} MergeFresh(existing: Candidates, migrated: Candidates)
    requires Distinct(migrated) && forall c | c in migrated :: !HasId(existing, c.id)
    ensures Merge(existing, migrated) == existing + migrated
  {
    if migrated != [] {
      var init, last := migrated[..|migrated| - 1], migrated[|migrated| - 1];
      assert migrated == init + [last];
      InConcat(init, last);
      MergeFresh(existing, init);
      assert !HasId(existing, last.id);
      LookupNone(existing + init, last.id);
      assert existing + init + [last] == existing + migrated;
    } else {
      assert existing + migrated == existing;
    }
  }

  lemma {:induction false} MigratedMembers(env: Env, cs: Candidates, x: Candidate)
    ensures x in Migrated(env, cs) <==>
            exists c | c in cs :: Attributable(env, c) && x == c.(project := Some(env.project))
  {
    if cs != [] {
      var init, last := cs[..|cs| - 1], cs[|cs| - 1];
      assert cs == init + [last];
      InConcat(init, last);
      MigratedMembers(env, init, x);
    }
  }

  lemma MigratedFrom(env: Env, cs: Candidates, x: Candidate) returns (i: nat)
    requires x in Migrated(env, cs)
    ensures i < |cs| && Attributable(env, cs[i]) && x == cs[i].(project := Some(env.project))
  {
    MigratedMembers(env, cs, x);
    var c :| c in cs && Attributable(env, c) && x == c.(project := Some(env.project));
    i :| 0 <= i < |cs| && cs[i] == c;
  }

  lemma {:induction false} QuarantinedMembers(env: Env, cs: Candidates)
    ensures forall x :: x in Quarantined(env, cs) <==> x in cs && !Attributable(env, x)
    ensures Distinct(cs) ==> Distinct(Quarantined(env, cs))
  {
    if cs != [] {
      var init, last := cs[..|cs| - 1], cs[|cs| - 1];
      assert cs == init + [last];
      InConcat(init, last);
      QuarantinedMembers(env, init);
      var rest := Quarantined(env, init);
      forall k | 0 <= k < |rest| ensures Distinct(cs) ==> rest[k].id != last.id {
        assert rest[k] in init;
        var i :| 0 <= i < |init| && init[i] == rest[k];
        assert cs[i] == rest[k] && cs[|init|] == last;
      }
    }
  }

  lemma {:induction false} PartitionTotals(env: Env, cs: Candidates)
    ensures Total(Migrated(env, cs)) + Total(Quarantined(env, cs)) == Total(cs)
  {
    if cs != [] {
      var last := cs[|cs| - 1];
      PartitionTotals(env, cs[..|cs| - 1]);
      TotalConcat(Migrated(env, cs[..|cs| - 1]), [last.(project := Some(env.project))]);
      TotalConcat(Quarantined(env, cs[..|cs| - 1]), [last]);
      assert [last][..0] == [] && Total([last]) == last.occurrences;
      assert [last.(project := Some(env.project))][..0] == [];
    }
  }

  /** The run reaches the end of the migration. */
  predicate Completes(env: Env, fs: Files, calls: nat)
    requires Runs(env, fs)
  {
    calls >= 4 || (calls == 3 && NewLegacy(env, fs).Missing?)
  }

  /** Wherever a run is cut off, the two stores are untouched, or the target alone is new, or both are. */
  lemma ThreeOutcomes(env: Env, fs: Files, calls: nat)
    ensures var r := After(env, fs, calls);
            && r.target == (if Runs(env, fs) && calls >= 2 then NewTarget(env, fs) else fs.target)
            && r.legacy == (if Runs(env, fs) && Completes(env, fs, calls) then NewLegacy(env, fs) else fs.legacy)
  {
    hide NewTarget;
  }

  function Records(f: File): Candidates { if f.Store? then f.candidates else [] }

  /** Without a repository nothing is touched, and what a completed run leaves under the old name are the records of other
      repositories, as they were; no file, if there are none. */
  lemma OnlyOwnRecordsMove(env: Env, fs: Files, calls: nat)
    ensures env.activeCommon.None? ==> After(env, fs, calls) == fs
    ensures Runs(env, fs) && Completes(env, fs, calls) ==>
              var after := After(env, fs, calls).legacy;
              && (after.Store? || after.Missing?)
              && (after.Missing? <==> forall c | c in fs.legacy.candidates :: Attributable(env, c))
              && forall x :: x in Records(after) <==>
                exists c | c in fs.legacy.candidates :: !Attributable(env, c) && x == Redacted(env.redact, c)
  {
    if Runs(env, fs) && Completes(env, fs, calls) {
      ThreeOutcomes(env, fs, calls);
      QuarantinedMembers(env, fs.legacy.candidates);
      var rest := Quarantined(env, fs.legacy.candidates);
      assert rest != [] ==> rest[0] in rest;
      hide Quarantined, After, NewTarget, Attributable;
      forall x ensures x in Sanitized(env.redact, Quarantined(env, fs.legacy.candidates)) <==>
                       exists c | c in Quarantined(env, fs.legacy.candidates) :: x == Redacted(env.redact, c)
      {
        SanitizedMembers(env.redact, Quarantined(env, fs.legacy.candidates), x);
      }
    }
  }

  lemma SanitizedMembers(redact: string -> string, s: Candidates, x: Candidate)
    ensures x in Sanitized(redact, s) <==> exists c | c in s :: x == Redacted(redact, c)
  {
    if c :| c in s && x == Redacted(redact, c) {
      var i :| 0 <= i < |s| && s[i] == c;
      assert Sanitized(redact, s)[i] == x;
    }
  }

  /** Whose a record is: its own repository's, when that is known, and otherwise the active one's if the policy binds the
      old name to it.  Two repositories that no policy binds never both lay claim to a record. */
  lemma EachRecordHasOneHome(env: Env, other: Env, c: Candidate)
    requires env.activeCommon.Some? && other.activeCommon.Some? && env.activeCommon != other.activeCommon
    requires env.commonDir == other.commonDir
    ensures var home := if c.repoPath.Some? then env.commonDir(c.repoPath.value) else None;
            && (home.Some? ==> (Attributable(env, c) <==> home == env.activeCommon))
            && (home.None? ==> (Attributable(env, c) <==> env.policyBound))
    ensures !env.policyBound || !other.policyBound ==> !(Attributable(env, c) && Attributable(other, c))
  {
  }
}
