/**
 The records of the learning stores, and what writing a store does to them (src/learning/candidates.ts).
 */
module LearningRecords {
  import opened Wrappers

  datatype Source = UserCorrection | RecurringFailure | SuccessfulProcedure | Manual

  datatype Scope = Undecided | Project | Global

  datatype Status = Open | Promoted | Dismissed

  datatype Candidate = Candidate(
    id: nat, key: Option<string>, project: Option<string>, repoPath: Option<string>, source: Source,
    summary: string, scope: Scope, occurrences: nat, evidence: seq<string>, status: Status,
    promotedTo: Option<nat>, createdAt: int, updatedAt: int)

  type Candidates = seq<Candidate>

  function Redacted(redact: string -> string, c: Candidate): Candidate {
    c.(summary := redact(c.summary), evidence := RedactAll(redact, c.evidence))
  }

  function RedactAll(redact: string -> string, items: seq<string>): (r: seq<string>)
    ensures |r| == |items|
    ensures forall i | 0 <= i < |r| :: r[i] == redact(items[i])
  {
    seq(|items|, i requires 0 <= i < |items| => redact(items[i]))
  }

  /** readStore with redaction, and what writeStore writes */
  function Sanitized(redact: string -> string, s: Candidates): (r: Candidates)
    ensures |r| == |s|
    ensures forall i | 0 <= i < |r| :: r[i] == Redacted(redact, s[i])
  {
    seq(|s|, i requires 0 <= i < |s| => Redacted(redact, s[i]))
  }

  /** How often the lessons of a store have been seen. */
  function Total(s: seq<Candidate>): nat {
    if s == [] then 0 else Total(s[..|s| - 1]) + s[|s| - 1].occurrences
  }

  lemma {:induction false} TotalReplace(s: seq<Candidate>, i: nat, c: Candidate)
    requires i < |s|
    ensures Total(s[i := c]) + s[i].occurrences == Total(s) + c.occurrences
  {
    var k := |s| - 1;
    if i < k {
      assert s[i := c][..k] == s[..k][i := c];
      TotalReplace(s[..k], i, c);
    } else {
      assert s[i := c][..k] == s[..k];
    }
  }

  lemma {:induction false} TotalConcat(a: Candidates, b: Candidates)
    ensures Total(a + b) == Total(a) + Total(b)
  {
    if b == [] {
      assert a + b == a;
    } else {
      assert (a + b)[..|a + b| - 1] == a + b[..|b| - 1];
      TotalConcat(a, b[..|b| - 1]);
    }
  }
}
