/**
 The file format of the fallback queue of learning steps, and what an append leaves in a file
 (src/learning/queue.ts).
 */
module QueueLines {

  const MAX_ATTEMPTS := 5

  /** A queued step; `tag` tells the enqueue calls apart. */
  datatype Step = Step(tag: nat, attempts: nat)

  /** Torn: a line that does not parse. */
  datatype Line = Torn | Entry(step: Step)

  datatype Outcome = Applied | Failed | OutOfTime

  function Tried(step: Step, outcome: Outcome): Step {
    if outcome.Failed? then step.(attempts := step.attempts + 1) else step
  }

  predicate GoesToDeadLetter(step: Step, outcome: Outcome) {
    !outcome.Applied? && Tried(step, outcome).attempts >= MAX_ATTEMPTS
  }

  predicate GoesBack(step: Step, outcome: Outcome) {
    !outcome.Applied? && Tried(step, outcome).attempts < MAX_ATTEMPTS
  }

  // ---------- Appending ----------

  /** A file's lines, and whether the last of them ends in a newline. */
  datatype Text = Text(lines: seq<Line>, ended: bool)

  const EMPTY := Text([], true)

  /** How much of a line gets into the file: all of it, all but its newline, a piece, or nothing. */
  datatype Part = Whole | Bare | Piece | Nothing

  /** The next write is glued to the last line. */
  predicate Glues(t: Text) { !t.ended && t.lines != [] }

  /** One write of a line.  Neither a piece of a step nor two of them on one line parse: the braces of the
      first are still open, or a string of it is, or a second value follows the first. */
  function Append(t: Text, line: Line, part: Part): Text {
    if part.Nothing? then t
    else if Glues(t) then Text(t.lines[|t.lines| - 1 := Torn], part.Whole?)
    else Text(t.lines + [if part.Piece? then Torn else line], part.Whole?)
  }

  /** The step comes to stand on a line of its own. */
  predicate Lands(t: Text, part: Part) { !Glues(t) && (part.Whole? || part.Bare?) }

  // ---------- Counting ----------

  /** How many lines carry a step of a kind. */
  function Count(lines: seq<Line>, kind: Step -> bool): nat {
    if lines == [] then 0 else Count(lines[..|lines| - 1], kind) + Of(lines[|lines| - 1], kind)
  }

  function Of(line: Line, kind: Step -> bool): nat { if line.Entry? && kind(line.step) then 1 else 0 }

  function If(b: bool): nat { if b then 1 else 0 }

  lemma {:induction false} CountConcat(a: seq<Line>, b: seq<Line>, kind: Step -> bool)
    ensures Count(a + b, kind) == Count(a, kind) + Count(b, kind)
  {
    if b == [] {
      assert a + b == a;
    } else {
      assert (a + b)[..|a + b| - 1] == a + b[..|b| - 1];
      CountConcat(a, b[..|b| - 1], kind);
    }
  }

  lemma CountSnoc(a: seq<Line>, line: Line, kind: Step -> bool)
    ensures Count(a + [line], kind) == Count(a, kind) + Of(line, kind)
  {
    assert (a + [line])[..|a|] == a;
  }

  lemma CountFrom(lines: seq<Line>, k: nat, kind: Step -> bool)
    requires k < |lines|
    ensures Count(lines[k..], kind) == Of(lines[k], kind) + Count(lines[k + 1..], kind)
  {
    assert lines[k..] == [lines[k]] + lines[k + 1..];
    CountConcat([lines[k]], lines[k + 1..], kind);
    assert [lines[k]][..0] == [];
  }

  lemma {:induction false} CountMember(lines: seq<Line>, kind: Step -> bool)
    ensures Count(lines, kind) > 0 <==> exists i :: 0 <= i < |lines| && lines[i].Entry? && kind(lines[i].step)
  {
    if lines != [] {
      var k := |lines| - 1;
      CountMember(lines[..k], kind);
      if i :| 0 <= i < |lines| && lines[i].Entry? && kind(lines[i].step) {
        if i < k { assert lines[..k][i] == lines[i]; }
      }
      if Count(lines[..k], kind) > 0 {
        var i :| 0 <= i < k && lines[..k][i].Entry? && kind(lines[..k][i].step);
        assert lines[i] == lines[..k][i];
      }
    }
  }

  /** What an append does to the lines from `from` on: its step is added if it lands, and the line it is
      glued to is lost. */
  lemma AppendCounts(t: Text, step: Step, part: Part, from: nat, kind: Step -> bool)
    requires from <= |t.lines|
    ensures from <= |Append(t, Entry(step), part).lines|
    ensures Count(Append(t, Entry(step), part).lines[from..], kind)
            + (if Glues(t) && !part.Nothing? && from < |t.lines| then Of(t.lines[|t.lines| - 1], kind) else 0)
            == Count(t.lines[from..], kind) + If(Lands(t, part) && kind(step))
  {
    hide Count;
    if Glues(t) {
      hide Of;
      if !part.Nothing? && from < |t.lines| { TearingLast(t.lines, from, kind); }
      AppendGlued(t, Entry(step), part, from);
    } else if !part.Nothing? {
      AddingLast(t.lines, if part.Piece? then Torn else Entry(step), from, kind);
    }
  }

  lemma AppendGlued(t: Text, line: Line, part: Part, from: nat)
    requires Glues(t) && from <= |t.lines|
    ensures from == |t.lines| ==> Append(t, line, part).lines[from..] == t.lines[from..]
    ensures !part.Nothing? ==> Append(t, line, part).lines == t.lines[|t.lines| - 1 := Torn]
  {
  }

  lemma TearingLast(lines: seq<Line>, from: nat, kind: Step -> bool)
    requires from < |lines|
    ensures var k := |lines| - 1;
            Count(lines[k := Torn][from..], kind) + Of(lines[k], kind) == Count(lines[from..], kind)
  {
    var k := |lines| - 1;
    assert lines[from..] == lines[from..k] + [lines[k]];
    assert lines[k := Torn][from..] == lines[from..k] + [Torn];
    CountSnoc(lines[from..k], lines[k], kind);
    CountSnoc(lines[from..k], Torn, kind);
  }

  lemma AddingLast(lines: seq<Line>, line: Line, from: nat, kind: Step -> bool)
    requires from <= |lines|
    ensures Count((lines + [line])[from..], kind) == Count(lines[from..], kind) + Of(line, kind)
  {
    assert (lines + [line])[from..] == lines[from..] + [line];
    CountSnoc(lines[from..], line, kind);
  }

  /** Later contents of a file: longer, and a line can only have been torn. */
  predicate Grown(a: seq<Line>, b: seq<Line>) {
    |a| <= |b| && forall i | 0 <= i < |a| :: b[i] == a[i] || b[i].Torn?
  }

  lemma AppendGrows(t: Text, line: Line, part: Part)
    ensures Grown(t.lines, Append(t, line, part).lines)
  {
  }

  lemma GrownTwice(a: seq<Line>, b: seq<Line>, c: seq<Line>)
    requires Grown(a, b) && Grown(b, c)
    ensures Grown(a, c)
  {
  }
}
