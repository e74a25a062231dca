/** One drain of the fallback queue on its own, without crashes (src/learning/queue.ts). */
module QueueDrain {
  import opened Wrappers
  import opened QueueLines

  datatype Source = Queue | Orphan(name: string)

  /** `applied` records the steps in the order in which they were applied. */
  datatype Files = Files(queue: Option<Text>, orphans: map<string, Text>, dead: Text, applied: seq<Step>)

  datatype Result = Result(replayed: nat, requeued: nat, deadLettered: nat)

  /** What happens to a step when it is reached: by position of its source and of its line. */
  type Attempts = (nat, nat) -> Outcome

  /** A line that parses, by its place in the listing, and what became of it. */
  datatype Try = Try(source: nat, line: nat, step: Step, outcome: Outcome)

  predicate Exists(fs: Files, source: Source) {
    match source
    case Queue => fs.queue.Some?
    case Orphan(name) => name in fs.orphans
  }

  function TextOf(fs: Files, source: Source): Text
    requires Exists(fs, source)
  {
    match source
    case Queue => fs.queue.value
    case Orphan(name) => fs.orphans[name]
  }

  function Without(fs: Files, source: Source): Files {
    match source
    case Queue => fs.(queue := None)
    case Orphan(name) => fs.(orphans := fs.orphans - {name})
  }

  /** The parseable lines of a file in order, each with its outcome. */
  function Tries(lines: seq<Line>, source: nat, attempts: Attempts): seq<Try> {
    if lines == [] then []
    else
      var k := |lines| - 1;
      var rest := Tries(lines[..k], source, attempts);
      if lines[k].Torn? then rest else rest + [Try(source, k, lines[k].step, attempts(source, k))]
  }

  function AppliedSteps(tries: seq<Try>): seq<Step> {
    if tries == [] then []
    else
      var k := |tries| - 1;
      AppliedSteps(tries[..k]) + if tries[k].outcome.Applied? then [tries[k].step] else []
  }

  predicate PutBack(t: Try) { GoesBack(t.step, t.outcome) }

  function Requeued(tries: seq<Try>): seq<Line> {
    if tries == [] then []
    else
      var k := |tries| - 1;
      Requeued(tries[..k]) + if PutBack(tries[k]) then [Entry(Tried(tries[k].step, tries[k].outcome))] else []
  }

  function DeadLettered(tries: seq<Try>): seq<Line> {
    if tries == [] then []
    else
      var k := |tries| - 1;
      DeadLettered(tries[..k]) +
      if GoesToDeadLetter(tries[k].step, tries[k].outcome) then [Entry(Tried(tries[k].step, tries[k].outcome))] else []
  }

  function AppendAll(t: Text, lines: seq<Line>): Text {
    if lines == [] then t else Append(AppendAll(t, lines[..|lines| - 1]), lines[|lines| - 1], Whole)
  }

  /** The queue file is made when something is put back. */
  function Requeue(queue: Option<Text>, lines: seq<Line>): Option<Text> {
    if lines == [] then queue else Some(AppendAll(if queue.Some? then queue.value else EMPTY, lines))
  }

  lemma {:induction false} AppendInSteps(t: Text, a: seq<Line>, b: seq<Line>)
    ensures AppendAll(AppendAll(t, a), b) == AppendAll(t, a + b)
  {
    if b == [] {
      assert a + b == a;
    } else {
      assert (a + b)[..|a + b| - 1] == a + b[..|b| - 1];
      AppendInSteps(t, a, b[..|b| - 1]);
    }
  }

  lemma RequeueInSteps(queue: Option<Text>, a: seq<Line>, b: seq<Line>)
    ensures Requeue(Requeue(queue, a), b) == Requeue(queue, a + b)
  {
    hide AppendAll;
    AppendInSteps(if queue.Some? then queue.value else EMPTY, a, b);
    assert a + [] == a && [] + b == b;
  }

  /** The files after one claimed source has been worked off. */
  function AfterTries(fs: Files, tries: seq<Try>): Files {
    fs.(applied := fs.applied + AppliedSteps(tries),
        dead := AppendAll(fs.dead, DeadLettered(tries)),
        queue := Requeue(fs.queue, Requeued(tries)))
  }

  function Counted(tries: seq<Try>): Result {
    Result(|AppliedSteps(tries)|, |Requeued(tries)|, |DeadLettered(tries)|)
  }

  lemma SingleTry(fs: Files, t: Try)
    ensures AppliedSteps([t]) == (if t.outcome.Applied? then [t.step] else [])
    ensures Requeued([t]) == (if PutBack(t) then [Entry(Tried(t.step, t.outcome))] else [])
    ensures DeadLettered([t]) == (if GoesToDeadLetter(t.step, t.outcome) then [Entry(Tried(t.step, t.outcome))] else [])
    ensures AfterTries(fs, [t]) ==
              if t.outcome.Applied? then fs.(applied := fs.applied + [t.step])
              else if GoesToDeadLetter(t.step, t.outcome)
              then fs.(dead := Append(fs.dead, Entry(Tried(t.step, t.outcome)), Whole))
              else fs.(queue := Requeue(fs.queue, [Entry(Tried(t.step, t.outcome))]))
  {
    assert [t][..0] == [];
    var line := Entry(Tried(t.step, t.outcome));
    assert [line][..0] == [] && AppendAll(fs.dead, [line]) == Append(fs.dead, line, Whole);
    assert fs.applied + [] == fs.applied;
  }

  lemma OneMoreTry(fs: Files, tries: seq<Try>, last: Try)
    ensures AfterTries(fs, tries + [last]) == AfterTries(AfterTries(fs, tries), [last])
    ensures var r, one := Counted(tries), Counted([last]);
            Counted(tries + [last]) == Result(r.replayed + one.replayed, r.requeued + one.requeued, r.deadLettered + one.deadLettered)
  {
    assert (tries + [last])[..|tries|] == tries;
    SingleTry(fs, last);
    hide AppendAll, Requeue;
    RequeueInSteps(fs.queue, Requeued(tries), Requeued([last]));
    AppendInSteps(fs.dead, DeadLettered(tries), DeadLettered([last]));
    assert fs.applied + AppliedSteps(tries) + AppliedSteps([last]) == fs.applied + (AppliedSteps(tries) + AppliedSteps([last]));
  }

  function AfterSource(fs: Files, source: Source, k: nat, attempts: Attempts): Files {
    if Exists(fs, source) then AfterTries(Without(fs, source), Tries(TextOf(fs, source).lines, k, attempts)) else fs
  }

  function AfterDrain(fs: Files, sources: seq<Source>, attempts: Attempts): Files {
    if sources == [] then fs
    else
      var k := |sources| - 1;
      AfterSource(AfterDrain(fs, sources[..k], attempts), sources[k], k, attempts)
  }

  /** What the drain tries, in order. */
  function DrainTries(fs: Files, sources: seq<Source>, attempts: Attempts): seq<Try> {
    if sources == [] then []
    else
      var k := |sources| - 1;
      var before := AfterDrain(fs, sources[..k], attempts);
      DrainTries(fs, sources[..k], attempts)
      + if Exists(before, sources[k]) then Tries(TextOf(before, sources[k]).lines, k, attempts) else []
  }

  class LearningQueue {
    var queue: Option<Text>
    var orphans: map<string, Text>
    var dead: Text
    var applied: seq<Step>

    function Contents(): Files reads this { Files(queue, orphans, dead, applied) }

    constructor ()
      ensures Contents() == Files(None, map[], EMPTY, [])
    {
      queue, orphans, dead, applied := None, map[], EMPTY, [];
    }

    method Enqueue(step: Step)
      modifies this
      ensures Contents() == old(Contents()).(queue := Requeue(old(queue), [Entry(step)]))
    {
      queue := Requeue(queue, [Entry(step)]);
    }

    /** Claim a source by renaming it. */
    method Claim(source: Source) returns (text: Option<Text>)
      modifies this
      ensures Contents() == Without(old(Contents()), source)
      ensures text == if old(Exists(Contents(), source)) then Some(old(TextOf(Contents(), source))) else None
    {
      match source
      case Queue =>
        text := queue;
        queue := None;
      case Orphan(name) =>
        text := if name in orphans then Some(orphans[name]) else None;
        orphans := orphans - {name};
    }

    /** One parseable line of a claimed file. */
    method Settle(t: Try, start: Result) returns (r: Result)
      modifies this
      ensures Contents() == AfterTries(old(Contents()), [t])
      ensures var one := Counted([t]);
              r == Result(start.replayed + one.replayed, start.requeued + one.requeued, start.deadLettered + one.deadLettered)
    {
      SingleTry(Contents(), t);
      var step := t.step;
      if t.outcome.Applied? {
        applied := applied + [step];
        return start.(replayed := start.replayed + 1);
      }
      if t.outcome.Failed? { step := step.(attempts := step.attempts + 1); }
      if step.attempts >= MAX_ATTEMPTS {
        dead := Append(dead, Entry(step), Whole);
        r := start.(deadLettered := start.deadLettered + 1);
      } else {
        queue := Requeue(queue, [Entry(step)]);
        r := start.(requeued := start.requeued + 1);
      }
    }

    /** Work off one claimed file. */
    method WorkOff(lines: seq<Line>, source: nat, attempts: Attempts, ghost earlier: seq<Try>, start: Result)
      returns (r: Result)
      requires start == Counted(earlier)
      modifies this
      ensures Contents() == AfterTries(old(Contents()), Tries(lines, source, attempts))
      ensures r == Counted(earlier + Tries(lines, source, attempts))
    {
      hide AfterTries, Counted;
      r := start;
      assert lines[..0] == [] && earlier + [] == earlier;
      NoTries(Contents());
      for k := 0 to |lines|
        invariant Contents() == AfterTries(old(Contents()), Tries(lines[..k], source, attempts))
        invariant r == Counted(earlier + Tries(lines[..k], source, attempts))
      {
        assert lines[..k + 1][..k] == lines[..k];
        if lines[k].Torn? { continue; }
        var t := Try(source, k, lines[k].step, attempts(source, k));
        OneMoreTry(old(Contents()), Tries(lines[..k], source, attempts), t);
        OneMoreTry(old(Contents()), earlier + Tries(lines[..k], source, attempts), t);
        assert earlier + Tries(lines[..k], source, attempts) + [t] == earlier + (Tries(lines[..k], source, attempts) + [t]);
        r := Settle(t, r);
      }
      assert lines[..|lines|] == lines;
    }

    /** drainLearningQueue, for the sources found in the learning directory. */
    method Drain(sources: seq<Source>, attempts: Attempts) returns (r: Result)
      modifies this
      ensures Contents() == AfterDrain(old(Contents()), sources, attempts)
      ensures r == Counted(DrainTries(old(Contents()), sources, attempts))
    {
      r := Result(0, 0, 0);
      assert sources[..0] == [];
      for i := 0 to |sources|
        invariant Contents() == AfterDrain(old(Contents()), sources[..i], attempts)
        invariant r == Counted(DrainTries(old(Contents()), sources[..i], attempts))
      {
        hide AfterTries, Counted;
        assert sources[..i + 1][..i] == sources[..i];
        ghost var earlier := DrainTries(old(Contents()), sources[..i], attempts);
        assert earlier + [] == earlier;
        var text := Claim(sources[i]);
        if text.None? {
          assert Contents() == Without(Contents(), sources[i]);
          continue;
        }
        r := WorkOff(text.value.lines, i, attempts, earlier, r);
      }
      assert sources[..|sources|] == sources;
    }
  }

  lemma NoTries(fs: Files)
    ensures AfterTries(fs, []) == fs
  {
    assert fs.applied + [] == fs.applied;
  }

  // ---------- Which lines a drain tries ----------

  /** Every try is replayed, requeued or dead-lettered, and only one of these. */
  lemma {:induction false} EveryTryCountedOnce(tries: seq<Try>)
    ensures var r := Counted(tries); r.replayed + r.requeued + r.deadLettered == |tries|
  {
    if tries != [] { EveryTryCountedOnce(tries[..|tries| - 1]); }
  }

  /** A line is tried if and only if it parses. */
  lemma {:induction false} TriedExactly(lines: seq<Line>, source: nat, attempts: Attempts, k: nat)
    ensures (exists t | t in Tries(lines, source, attempts) :: t.line == k) <==> k < |lines| && lines[k].Entry?
  {
    if lines != [] {
      var n := |lines| - 1;
      var rest := Tries(lines[..n], source, attempts);
      TriedExactly(lines[..n], source, attempts, k);
      if lines[n].Entry? {
        var last := Try(source, n, lines[n].step, attempts(source, n));
        assert last in rest + [last];
        assert forall t :: t in rest + [last] <==> t in rest || t == last;
      }
    }
  }

  lemma {:induction false} TriesConcat(a: seq<Line>, b: seq<Line>, source: nat, attempts: Attempts)
    ensures Tries(a, source, attempts) <= Tries(a + b, source, attempts)
    ensures |Tries(a + b, source, attempts)| == |Tries(a, source, attempts)| + |Tries(b, source, attempts)|
  {
    if b == [] {
      assert a + b == a;
    } else {
      assert (a + b)[..|a + b| - 1] == a + b[..|b| - 1];
      TriesConcat(a, b[..|b| - 1], source, attempts);
    }
  }

  predicate AllEntries(lines: seq<Line>) { forall i | 0 <= i < |lines| :: lines[i].Entry? }

  lemma {:induction false} TriesOfEntries(lines: seq<Line>, source: nat, attempts: Attempts)
    requires AllEntries(lines)
    ensures |Tries(lines, source, attempts)| == |lines|
  {
    if lines != [] { TriesOfEntries(lines[..|lines| - 1], source, attempts); }
  }

  /** What several appends make of a file: the first may be glued to its last line. */
  lemma {:induction false} AppendAllIs(t: Text, lines: seq<Line>)
    requires lines != []
    ensures AppendAll(t, lines).ended
    ensures AppendAll(t, lines).lines == if Glues(t) then t.lines[|t.lines| - 1 := Torn] + lines[1..] else t.lines + lines
  {
    var init, last := lines[..|lines| - 1], lines[|lines| - 1];
    if init == [] {
      assert lines == [last] && AppendAll(t, init) == t;
    } else {
      AppendAllIs(t, init);
      assert lines[1..] == init[1..] + [last] && lines == init + [last];
    }
  }

  /** The new lines of the queue file are tried with the old ones, unless there is one and it was glued to a
      line that did not parse. */
  lemma PutBackIsTriedExactly(t: Text, back: seq<Line>, source: nat, attempts: Attempts)
    requires AllEntries(back)
    ensures Tries(AppendAll(t, back).lines, source, attempts) == Tries(t.lines, source, attempts) <==>
              back == [] || (|back| == 1 && Glues(t) && t.lines[|t.lines| - 1].Torn?)
  {
    if back != [] {
      AppendAllIs(t, back);
      hide AppendAll, Tries;
      var k := |t.lines| - 1;
      if !Glues(t) {
        TriesConcat(t.lines, back, source, attempts);
        TriesOfEntries(back, source, attempts);
      } else if t.lines[k].Torn? {
        assert t.lines[k := Torn] == t.lines;
        TriesConcat(t.lines, back[1..], source, attempts);
        TriesOfEntries(back[1..], source, attempts);
        assert |back| == 1 ==> t.lines + back[1..] == t.lines;
      } else {
        var after := t.lines[k := Torn] + back[1..];
        assert after[k] == Torn;
        TriedExactly(t.lines, source, attempts, k);
        TriedExactly(after, source, attempts, k);
      }
    }
  }

  lemma {:induction false} RequeuedAreEntries(tries: seq<Try>)
    ensures AllEntries(Requeued(tries))
    ensures Requeued(tries) == [] <==> forall i | 0 <= i < |tries| :: !PutBack(tries[i])
  {
    if tries != [] {
      var k := |tries| - 1;
      RequeuedAreEntries(tries[..k]);
      assert (forall i | 0 <= i < |tries| :: !PutBack(tries[i])) <==>
        !PutBack(tries[k]) && forall i | 0 <= i < k :: !PutBack(tries[..k][i]);
    }
  }

  /** What reading the directory gives: existing files, each once. */
  predicate Listing(fs: Files, sources: seq<Source>) {
    && (forall i, j | 0 <= i < j < |sources| :: sources[i] != sources[j])
    && (forall source | source in sources :: Exists(fs, source))
  }

  lemma ListingPrefix(fs: Files, init: seq<Source>, last: Source)
    requires Listing(fs, init + [last])
    ensures Listing(fs, init) && last !in init && Exists(fs, last)
  {
    hide Exists;
    var sources := init + [last];
    assert forall i | 0 <= i < |init| :: sources[i] == init[i];
    assert forall source | source in init :: source in sources;
    assert sources[|init|] == last;
    assert last in sources;
  }

  /** The parseable lines of the listed files as they are when the drain begins, each once and in order. */
  function Listed(fs: Files, sources: seq<Source>, attempts: Attempts): seq<Try>
    requires Listing(fs, sources)
  {
    if sources == [] then []
    else
      var k := |sources| - 1;
      assert sources == sources[..k] + [sources[k]];
      ListingPrefix(fs, sources[..k], sources[k]);
      Listed(fs, sources[..k], attempts) + Tries(TextOf(fs, sources[k]).lines, k, attempts)
  }

  /** Orphans that are still to come are as they were, and the queue file has what was put back. */
  lemma {:induction false} BeforeSource(fs: Files, sources: seq<Source>, attempts: Attempts)
    requires Listing(fs, sources)
    ensures var before := AfterDrain(fs, sources, attempts);
            && (forall name | name in fs.orphans && Orphan(name) !in sources ::
                  name in before.orphans && before.orphans[name] == fs.orphans[name])
            && (Queue !in sources ==>
                  && before.queue == Requeue(fs.queue, Requeued(DrainTries(fs, sources, attempts)))
                  && DrainTries(fs, sources, attempts) == Listed(fs, sources, attempts))
  {
    if sources != [] {
      var k := |sources| - 1;
      assert sources == sources[..k] + [sources[k]];
      ListingPrefix(fs, sources[..k], sources[k]);
      BeforeSource(fs, sources[..k], attempts);
      if sources[k].Orphan? {
        assert sources[k] in sources;
        OrphanTried(fs, sources, attempts);
      } else {
        assert Queue in sources;
      }
    }
  }

  lemma OrphanTried(fs: Files, sources: seq<Source>, attempts: Attempts)
    requires Listing(fs, sources) && sources != [] && sources[|sources| - 1].Orphan?
    requires var name, before := sources[|sources| - 1].name, AfterDrain(fs, sources[..|sources| - 1], attempts);
             name in fs.orphans && name in before.orphans && before.orphans[name] == fs.orphans[name]
    ensures var k := |sources| - 1;
            var before, after := AfterDrain(fs, sources[..k], attempts), AfterDrain(fs, sources, attempts);
            var tries := Tries(TextOf(fs, sources[k]).lines, k, attempts);
            && after.orphans == before.orphans - {sources[k].name}
            && after.queue == Requeue(before.queue, Requeued(tries))
            && DrainTries(fs, sources, attempts) == DrainTries(fs, sources[..k], attempts) + tries
            && (before.queue == Requeue(fs.queue, Requeued(DrainTries(fs, sources[..k], attempts))) ==>
                  after.queue == Requeue(fs.queue, Requeued(DrainTries(fs, sources, attempts))))
  {
    var k := |sources| - 1;
    var tries := Tries(TextOf(fs, sources[k]).lines, k, attempts);
    RequeueInSteps(fs.queue, Requeued(DrainTries(fs, sources[..k], attempts)), Requeued(tries));
    RequeuedConcat(DrainTries(fs, sources[..k], attempts), tries);
  }

  lemma {:induction false} RequeuedConcat(a: seq<Try>, b: seq<Try>)
    ensures Requeued(a + b) == Requeued(a) + Requeued(b)
  {
    if b == [] {
      assert a + b == a;
    } else {
      assert (a + b)[..|a + b| - 1] == a + b[..|b| - 1];
      RequeuedConcat(a, b[..|b| - 1]);
    }
  }

  /** Where the queue file stands in the listing, or |sources|. */
  function QueueAt(sources: seq<Source>): (k: nat)
    ensures k <= |sources|
    ensures k < |sources| ==> sources[k].Queue?
    ensures forall i | 0 <= i < k :: !sources[i].Queue?
  {
    if sources == [] || sources[0].Queue? then 0 else 1 + QueueAt(sources[1..])
  }

  lemma ListedUpTo(fs: Files, sources: seq<Source>, n: nat)
    requires Listing(fs, sources) && n <= |sources|
    ensures Listing(fs, sources[..n])
  {
    assert forall source | source in sources[..n] :: source in sources;
  }

  /** What is put back before the queue file is claimed. */
  function BackBefore(fs: Files, sources: seq<Source>, attempts: Attempts): seq<Line>
    requires Listing(fs, sources)
  {
    ListedUpTo(fs, sources, QueueAt(sources));
    Requeued(Listed(fs, sources[..QueueAt(sources)], attempts))
  }

  /** The lines tried in the last source. */
  lemma LastTries(fs: Files, sources: seq<Source>, attempts: Attempts)
    requires Listing(fs, sources) && sources != []
    ensures Exists(fs, sources[|sources| - 1])
    ensures sources[|sources| - 1].Queue? ==>
              Requeue(fs.queue, Requeued(DrainTries(fs, sources[..|sources| - 1], attempts))).Some?
    ensures var k := |sources| - 1;
            DrainTries(fs, sources, attempts) == DrainTries(fs, sources[..k], attempts) +
              (if sources[k].Orphan? then Tries(TextOf(fs, sources[k]).lines, k, attempts)
               else Tries(Requeue(fs.queue, Requeued(DrainTries(fs, sources[..k], attempts))).value.lines, k, attempts))
  {
    var k := |sources| - 1;
    assert sources == sources[..k] + [sources[k]];
    ListingPrefix(fs, sources[..k], sources[k]);
    BeforeSource(fs, sources[..k], attempts);
  }

  lemma {:induction false} QueueAtPrefix(sources: seq<Source>, n: nat)
    requires n <= |sources|
    ensures QueueAt(sources[..n]) == if QueueAt(sources) < n then QueueAt(sources) else n
  {
    if n > 0 && !sources[0].Queue? {
      assert sources[..n][1..] == sources[1..][..n - 1];
      QueueAtPrefix(sources[1..], n - 1);
    }
  }

  lemma OnceWithout(fs: Files, sources: seq<Source>, attempts: Attempts)
    requires Listing(fs, sources) && QueueAt(sources) == |sources|
    ensures DrainTries(fs, sources, attempts) == Listed(fs, sources, attempts)
  {
    BeforeSource(fs, sources, attempts);
  }

  /** What was listed before the queue file is the same; then come its lines, with what was put back or without. */
  lemma AtQueue(fs: Files, sources: seq<Source>, attempts: Attempts)
    requires Listing(fs, sources) && sources != [] && QueueAt(sources) == |sources| - 1
    ensures fs.queue.Some? && AllEntries(BackBefore(fs, sources, attempts)) && Listing(fs, sources[..|sources| - 1])
    ensures var k, before := |sources| - 1, Listed(fs, sources[..|sources| - 1], attempts);
            && DrainTries(fs, sources, attempts)
               == before + Tries(AppendAll(fs.queue.value, BackBefore(fs, sources, attempts)).lines, k, attempts)
            && Listed(fs, sources, attempts) == before + Tries(fs.queue.value.lines, k, attempts)
  {
    var k := |sources| - 1;
    LastTries(fs, sources, attempts);
    assert sources == sources[..k] + [sources[k]];
    ListingPrefix(fs, sources[..k], sources[k]);
    QueueAtPrefix(sources, k);
    OnceWithout(fs, sources[..k], attempts);
    RequeuedAreEntries(Listed(fs, sources[..k], attempts));
    RequeuedLines(fs.queue.value, BackBefore(fs, sources, attempts));
    hide AppendAll, DrainTries, Tries, Requeued, Listing, QueueAt, Requeue;
  }

  lemma OnceAtQueue(fs: Files, sources: seq<Source>, attempts: Attempts)
    requires Listing(fs, sources) && sources != [] && QueueAt(sources) == |sources| - 1
    ensures fs.queue.Some?
    ensures DrainTries(fs, sources, attempts) == Listed(fs, sources, attempts) <==> Untouched(fs.queue.value, BackBefore(fs, sources, attempts))
  {
    AtQueue(fs, sources, attempts);
    var k, t, back := |sources| - 1, fs.queue.value, BackBefore(fs, sources, attempts);
    hide AppendAll, DrainTries, Tries, Listed, Listing, QueueAt, BackBefore;
    PutBackIsTriedExactly(t, back, k, attempts);
    SamePrefix(Listed(fs, sources[..k], attempts), Tries(AppendAll(t, back).lines, k, attempts), Tries(t.lines, k, attempts));
  }

  lemma RequeuedLines(t: Text, back: seq<Line>)
    ensures Requeue(Some(t), back) == Some(AppendAll(t, back))
  {
  }

  lemma SamePrefix(a: seq<Try>, b: seq<Try>, c: seq<Try>)
    ensures a + b == a + c <==> b == c
  {
    assert (a + b)[|a|..] == b && (a + c)[|a|..] == c;
  }

  lemma SameSuffix(a: seq<Try>, b: seq<Try>, c: seq<Try>)
    ensures a + c == b + c <==> a == b
  {
    if a + c == b + c {
      assert |a + c| == |b + c|;
      assert (a + c)[..|a|] == a && (b + c)[..|b|] == b;
    }
  }

  /** The lines put back do not show when the file is read: there are none, or one that was glued to a piece of a
      line. */
  predicate Untouched(t: Text, back: seq<Line>) {
    back == [] || (|back| == 1 && Glues(t) && t.lines[|t.lines| - 1].Torn?)
  }

  /** Main theorem: a drain tries exactly the lines that were in the listed files when it began, each once and in
      order, if and only if nothing of a source listed before the queue file goes back to it, or one line alone
      does and is lost behind a piece of a line. */
  lemma {:induction false} OncePerDrainExactly(fs: Files, sources: seq<Source>, attempts: Attempts)
    requires Listing(fs, sources)
    ensures QueueAt(sources) < |sources| ==> fs.queue.Some?
    ensures DrainTries(fs, sources, attempts) == Listed(fs, sources, attempts) <==>
              (QueueAt(sources) < |sources| ==> Untouched(fs.queue.value, BackBefore(fs, sources, attempts)))
  {
    var k := |sources| - 1;
    if QueueAt(sources) == |sources| {
      OnceWithout(fs, sources, attempts);
    } else if QueueAt(sources) == k {
      OnceAtQueue(fs, sources, attempts);
    } else {
      assert sources == sources[..k] + [sources[k]];
      ListingPrefix(fs, sources[..k], sources[k]);
      OncePerDrainExactly(fs, sources[..k], attempts);
      QueueAtPrefix(sources, k);
      assert sources[..k][..QueueAt(sources)] == sources[..QueueAt(sources)];
      LastTries(fs, sources, attempts);
      assert sources[QueueAt(sources)] != sources[k];
      SameSuffix(DrainTries(fs, sources[..k], attempts), Listed(fs, sources[..k], attempts), Tries(TextOf(fs, sources[k]).lines, k, attempts));
    }
  }

  /** On a queue file that ends in a newline: if and only if no line of a source listed before it goes back. */
  lemma OncePerDrainIfEnded(fs: Files, sources: seq<Source>, attempts: Attempts)
    requires Listing(fs, sources) && (fs.queue.Some? ==> fs.queue.value.ended)
    ensures Listing(fs, sources[..QueueAt(sources)])
    ensures DrainTries(fs, sources, attempts) == Listed(fs, sources, attempts) <==>
              (QueueAt(sources) < |sources| ==>
                 var before := Listed(fs, sources[..QueueAt(sources)], attempts);
                 forall i | 0 <= i < |before| :: !PutBack(before[i]))
  {
    ListedUpTo(fs, sources, QueueAt(sources));
    OncePerDrainExactly(fs, sources, attempts);
    RequeuedAreEntries(Listed(fs, sources[..QueueAt(sources)], attempts));
    assert BackBefore(fs, sources, attempts) == Requeued(Listed(fs, sources[..QueueAt(sources)], attempts));
    hide AppendAll, DrainTries, Tries, Requeued, Listed, Listing, QueueAt, BackBefore, PutBack;
  }
}
