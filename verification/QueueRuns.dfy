/**
 What runs of the fallback queue come to when nothing goes wrong, and what one drain does when the others
 pause (src/learning/queue.ts).
 */
module QueueRuns {
  import opened Wrappers
  import opened QueueLines
  import opened QueueProtocol
  import Drain = QueueDrain

  // ---------- Calm runs ----------

  predicate StillQueued(s: State, k: nat) { k < |s.nodes| && s.nodes[k].name.Queued? }

  /** Writes get in whole, and into a file that is still the queue file, or the dead-letter file. */
  predicate Calm(s: State, a: Action) {
    match a
    case Write(w, part) => part.Whole? && w < |s.writers| && StillQueued(s, s.writers[w].node)
    case Finish(p, part) =>
      && part.Whole? && p < |s.drainers| && s.drainers[p].put.Some?
      && (s.drainers[p].put.value.node.Some? ==> StillQueued(s, s.drainers[p].put.value.node.value))
    case _ => true
  }

  predicate CalmRun(s: State, actions: seq<Action>)
    decreases |actions|
  {
    actions == [] || (Enabled(s, actions[0]) && Calm(s, actions[0]) && CalmRun(Next(s, actions[0]), actions[1..]))
  }

  /** Every file ends in a newline, and what a drain has read is all there is in the file that it works on. */
  ghost predicate Quiet(s: State) {
    && !Glues(s.dead) && (forall k | 0 <= k < |s.nodes| :: !Glues(s.nodes[k].text))
    && (forall p | 0 <= p < |s.drainers| :: AllRead(s.nodes, s.drainers[p]))
  }

  predicate AllRead(nodes: seq<Node>, d: Drainer) {
    d.working.Some? && d.read.Some? && d.working.value < |nodes| ==> nodes[d.working.value].text.lines == d.read.value
  }

  lemma QuietLosesNothing(s: State, a: Action)
    requires WellFormed(s) && Quiet(s) && Enabled(s, a) && Calm(s, a)
    ensures !Losing(s, a)
  {
    if a.Write? || a.Finish? { TargetIs(s, a); }
    if a.Unlink? {
      Own(s, a.p);
      assert AllRead(s.nodes, s.drainers[a.p]);
      assert s.nodes[Working(s, a.p)].text.lines[s.nodes[Working(s, a.p)].done..] == [];
    }
  }

  /** What a calm step leaves of the files: none is left without a newline, and only the queue file changes. */
  ghost predicate Settled(s: State, t: State) {
    && !Glues(t.dead) && |t.nodes| >= |s.nodes| && (forall k | 0 <= k < |t.nodes| :: !Glues(t.nodes[k].text))
    && (forall k | 0 <= k < |s.nodes| && !s.nodes[k].name.Queued? :: t.nodes[k].text == s.nodes[k].text)
  }

  lemma WroteSettled(s: State, target: Option<nat>, step: Step)
    requires Quiet(s) && (target.Some? ==> StillQueued(s, target.value))
    ensures Settled(s, Wrote(s, target, step, Whole))
  {
  }

  lemma CalmSettles(s: State, a: Action)
    requires WellFormed(s) && Quiet(s) && Enabled(s, a) && Calm(s, a)
    ensures Settled(s, Next(s, a))
  {
    if a.Write? {
      WroteSettled(s, Some(s.writers[a.w].node), Step(a.w, 0));
      hide WellFormed, Quiet, Wrote;
    } else if a.Finish? {
      var put := s.drainers[a.p].put.value;
      WroteSettled(s, put.node, put.step);
      hide WellFormed, Quiet, Wrote;
    } else {
      hide WellFormed;
    }
  }

  /** A drain goes on with what it has read, or has just read what is there. */
  ghost predicate ReadsOn(s: State, t: State, q: Pid) {
    q < |t.drainers| ==>
      || t.drainers[q].read.None? || AllRead(t.nodes, t.drainers[q])
      || (q < |s.drainers| && t.drainers[q].working == s.drainers[q].working && t.drainers[q].read == s.drainers[q].read)
  }

  lemma WroteDrainers(s: State, target: Option<nat>, step: Step, part: Part)
    ensures Wrote(s, target, step, part).drainers == s.drainers
  {
  }

  lemma TryReading(s: State, a: Action, q: Pid)
    requires Enabled(s, a) && a.Try?
    ensures ReadsOn(s, Next(s, a), q)
  {
    hide GoesToDeadLetter, Append, Tried, AllRead;
  }

  lemma EndReading(s: State, a: Action, q: Pid)
    requires Enabled(s, a) && (a.Abort? || a.Crash? || a.Unlink? || a.List? || a.Spawn? || a.Open?)
    ensures ReadsOn(s, Next(s, a), q)
  {
    hide AllRead;
  }

  lemma ReadingStays(s: State, a: Action, q: Pid)
    requires WellFormed(s) && Enabled(s, a)
    ensures ReadsOn(s, Next(s, a), q)
  {
    if q < |s.drainers| { Own(s, q); }
    if a.Try? { TryReading(s, a, q); }
    if a.Abort? || a.Crash? || a.Unlink? || a.List? || a.Spawn? || a.Open? { EndReading(s, a, q); }
    if a.Finish? || a.Write? { WroteDrainers(s, Target(s, a), Putting(s, a), a.part); }
    hide Tries, Dropped, Unlinked, Found, Wrote, WellFormed, GoesToDeadLetter, Append, Tried;
  }

  lemma CalmKeepsQuiet(s: State, a: Action)
    requires WellFormed(s) && Quiet(s) && Enabled(s, a) && Calm(s, a)
    ensures Quiet(Next(s, a))
  {
    var t := Next(s, a);
    CalmSettles(s, a);
    forall p | 0 <= p < |t.drainers| ensures AllRead(t.nodes, t.drainers[p]) {
      ReadingStays(s, a, p);
      if p < |s.drainers| {
        Own(s, p);
        assert AllRead(s.nodes, s.drainers[p]);
      }
      hide Next, Enabled, Calm, WellFormed;
    }
    hide Next, Enabled, Calm, WellFormed;
  }

  /** A calm run has no losing step, and without an abort or a crash no doubling one. */
  lemma {:induction false} CalmRunsAreSafe(s: State, actions: seq<Action>)
    requires WellFormed(s) && Quiet(s) && CalmRun(s, actions)
    ensures Safe(s, actions)
    ensures (forall a | a in actions :: !a.Abort? && !a.Crash?) ==> Careful(s, actions)
    decreases |actions|
  {
    if actions != [] {
      NextKeepsWellFormed(s, actions[0]);
      QuietLosesNothing(s, actions[0]);
      CalmKeepsQuiet(s, actions[0]);
      assert forall a | a in actions[1..] :: a in actions;
      hide Quiet, WellFormed, Next, Enabled, Losing;
      CalmRunsAreSafe(Next(s, actions[0]), actions[1..]);
    }
  }

  lemma InitIsQuiet()
    ensures Quiet(Init) && WellFormed(Init)
  {
  }

  /** Main theorem: however many drains, enqueue calls, aborts and crashes interleave, when every write gets in whole and
      before its file is claimed, every step whose enqueue call has returned is still somewhere; and without aborts and
      crashes it is there, applied or dead-lettered exactly once. */
  lemma CalmRunsLoseNothing(actions: seq<Action>)
    requires CalmRun(Init, actions)
    ensures After(Init, actions).Some?
    ensures var t := After(Init, actions).value;
            forall w: nat | w < |t.writers| && t.writers[w].call.Returned? :: Somewhere(t, w)
    ensures (forall a | a in actions :: !a.Abort? && !a.Crash?) ==> Exact(After(Init, actions).value)
  {
    InitIsQuiet();
    CalmRunsAreSafe(Init, actions);
    NothingIsLost(actions);
    ExactlyOnceExactly(actions);
    hide CalmRun, Safe, Careful, After, Exact;
  }

  // ---------- One drain while the others pause ----------

  function Steps(lines: seq<Line>): seq<Step> {
    if lines == [] then []
    else
      var last := lines[|lines| - 1];
      Steps(lines[..|lines| - 1]) + if last.Entry? then [last.step] else []
  }

  /** The files as one drain on its own sees them. */
  function View(s: State): Drain.Files {
    Drain.Files(if s.queue.Some? && s.queue.value < |s.nodes| then Some(s.nodes[s.queue.value].text) else None,
                map[], s.dead, Steps(s.applied))
  }

  /** Drain p has come to line n of what it read from file k. */
  ghost predicate Stands(s: State, p: Pid, k: nat, read: seq<Line>, n: nat) {
    && WellFormed(s) && Works(s, p) && s.drainers[p].working == Some(k) && s.drainers[p].read == Some(read)
    && s.drainers[p].put.None? && s.nodes[k].done == n
  }

  /** What drain p does about one line when every write gets in whole. */
  function Turn(p: Pid, line: Line, outcome: Outcome): seq<Action> {
    if line.Torn? || outcome.Applied? then [QueueProtocol.Try(p, outcome)] else [QueueProtocol.Try(p, outcome), Finish(p, Whole)]
  }

  lemma AppliedOneMore(lines: seq<Line>, step: Step)
    ensures Steps(lines + [Entry(step)]) == Steps(lines) + [step]
  {
    assert (lines + [Entry(step)])[..|lines|] == lines;
  }

  lemma AloneInOneStep(s: State, p: Pid, k: nat, read: seq<Line>, n: nat, source: nat, outcome: Outcome)
    requires Stands(s, p, k, read, n) && n < |read| && (read[n].Torn? || outcome.Applied?)
    ensures var a := QueueProtocol.Try(p, outcome);
            && Enabled(s, a) && Stands(Next(s, a), p, k, read, n + 1) && Next(s, a).queue == s.queue
            && View(Next(s, a)) == if read[n].Torn? then View(s) else Drain.AfterTries(View(s), [Drain.Try(source, n, read[n].step, outcome)])
  {
    var a := QueueProtocol.Try(p, outcome);
    NextKeepsWellFormed(s, a);
    Own(s, p);
    QueueIsNotWorkedOn(s, k, p);
    if read[n].Entry? {
      Drain.SingleTry(View(s), Drain.Try(source, n, read[n].step, outcome));
      AppliedOneMore(s.applied, read[n].step);
    }
    hide WellFormed;
  }

  lemma QueueIsNotWorkedOn(s: State, k: nat, p: Pid)
    requires WellFormed(s) && k < |s.nodes| && s.nodes[k].name == Draining(p)
    ensures s.queue != Some(k) && (s.queue.Some? ==> s.queue.value < |s.nodes|)
  {
  }

  /** The line has been tried, and the file is open that its step is to be appended to. */
  lemma AloneTries(s: State, p: Pid, k: nat, read: seq<Line>, n: nat, outcome: Outcome)
    requires Stands(s, p, k, read, n) && n < |read| && read[n].Entry? && !outcome.Applied?
    ensures var a, step := QueueProtocol.Try(p, outcome), Tried(read[n].step, outcome);
            && Enabled(s, a) && WellFormed(Next(s, a))
            && (if GoesToDeadLetter(read[n].step, outcome)
                then Next(s, a) == s.(drainers := s.drainers[p := s.drainers[p].(put := Some(Put(None, step, outcome.Failed?)))])
                else Next(s, a) == Found(s).(drainers := s.drainers[p := s.drainers[p].(put := Some(Put(Found(s).queue, step, outcome.Failed?)))]))
  {
    NextKeepsWellFormed(s, QueueProtocol.Try(p, outcome));
  }

  /** The append of drain p gets in whole: its file is the dead-letter file or the queue file. */
  lemma AloneFinishes(s: State, p: Pid, k: nat, read: seq<Line>, n: nat, put: Put)
    requires WellFormed(s) && Works(s, p) && s.drainers[p].working == Some(k) && s.drainers[p].read == Some(read)
    requires s.drainers[p].put == Some(put) && s.nodes[k].done == n && put.node in {None, s.queue}
    ensures var t := Next(s, Finish(p, Whole));
            && Stands(t, p, k, read, n + 1) && t.applied == s.applied
            && View(t) == if put.node.None? then View(s).(dead := Append(s.dead, Entry(put.step), Whole))
                          else View(s).(queue := Some(Append(s.nodes[put.node.value].text, Entry(put.step), Whole)))
  {
    Own(s, p);
    QueueIsNotWorkedOn(s, k, p);
    NextKeepsWellFormed(s, Finish(p, Whole));
    hide WellFormed, Append;
  }

  lemma AloneAppends(s: State, p: Pid, k: nat, read: seq<Line>, n: nat, source: nat, outcome: Outcome)
    requires Stands(s, p, k, read, n) && n < |read| && read[n].Entry? && !outcome.Applied?
    ensures var a := QueueProtocol.Try(p, outcome);
            && Enabled(s, a) && Enabled(Next(s, a), Finish(p, Whole))
            && var t := Next(Next(s, a), Finish(p, Whole));
               && Stands(t, p, k, read, n + 1)
               && View(t) == Drain.AfterTries(View(s), [Drain.Try(source, n, read[n].step, outcome)])
  {
    AloneOpens(s, p, k, read, n, outcome);
    var m := Next(s, QueueProtocol.Try(p, outcome));
    AloneFinishes(m, p, k, read, n, m.drainers[p].put.value);
    Drain.SingleTry(View(s), Drain.Try(source, n, read[n].step, outcome));
    PutBackAlone(View(s).queue, Tried(read[n].step, outcome));
    hide *;
  }

  lemma AloneOpens(s: State, p: Pid, k: nat, read: seq<Line>, n: nat, outcome: Outcome)
    requires Stands(s, p, k, read, n) && n < |read| && read[n].Entry? && !outcome.Applied?
    ensures var a := QueueProtocol.Try(p, outcome);
            && Enabled(s, a) && Enabled(Next(s, a), Finish(p, Whole))
            && var m := Next(s, a);
               && WellFormed(m) && Works(m, p) && m.drainers[p].working == Some(k) && m.drainers[p].read == Some(read)
               && m.drainers[p].put.Some? && m.nodes[k].done == n
               && m.drainers[p].put.value.step == Tried(read[n].step, outcome)
               && var put := m.drainers[p].put.value.node;
                  && put == (if GoesToDeadLetter(read[n].step, outcome) then None else m.queue)
                  && m.dead == s.dead && View(m).(queue := View(s).queue) == View(s)
                  && (put.None? ==> GoesToDeadLetter(read[n].step, outcome) && View(m) == View(s))
                  && (put.Some? ==>
                        && put.value < |m.nodes|
                        && m.nodes[put.value].text == if View(s).queue.Some? then View(s).queue.value else EMPTY)
  {
    AloneTries(s, p, k, read, n, outcome);
    QueueIsFound(s, p, k);
    hide WellFormed, Next, Tried, GoesToDeadLetter, Found;
  }

  lemma QueueIsFound(s: State, p: Pid, k: nat)
    requires WellFormed(s) && Works(s, p) && s.drainers[p].working == Some(k)
    ensures var t := Found(s);
            && t == s.(queue := t.queue, nodes := t.nodes) && |t.nodes| >= |s.nodes| && t.nodes[k] == s.nodes[k]
            && t.queue.Some? && t.queue.value < |t.nodes|
            && t.nodes[t.queue.value].text == if View(s).queue.Some? then View(s).queue.value else EMPTY
  {
    FoundIs(s);
    Own(s, p);
  }

  lemma PutBackAlone(queue: Option<Text>, step: Step)
    ensures Drain.Requeue(queue, [Entry(step)]) == Some(Append(if queue.Some? then queue.value else EMPTY, Entry(step), Whole))
  {
    var line, t := Entry(step), if queue.Some? then queue.value else EMPTY;
    assert [line][..|[line]| - 1] == [] && Drain.AppendAll(t, []) == t;
    assert Drain.AppendAll(t, [line]) == Append(t, line, Whole);
  }

  /** Drain p's turns over the first n lines of what it has read. */
  function Turns(p: Pid, read: seq<Line>, n: nat, source: nat, attempts: Drain.Attempts): seq<Action>
    requires n <= |read|
  {
    if n == 0 then [] else Turns(p, read, n - 1, source, attempts) + Turn(p, read[n - 1], attempts(source, n - 1))
  }

  lemma AloneTurns(s: State, p: Pid, k: nat, read: seq<Line>, n: nat, source: nat, outcome: Outcome)
    requires Stands(s, p, k, read, n) && n < |read|
    ensures var r := After(s, Turn(p, read[n], outcome));
            && r.Some? && Stands(r.value, p, k, read, n + 1)
            && View(r.value) == if read[n].Torn? then View(s) else Drain.AfterTries(View(s), [Drain.Try(source, n, read[n].step, outcome)])
  {
    var a := QueueProtocol.Try(p, outcome);
    if read[n].Torn? || outcome.Applied? {
      AloneInOneStep(s, p, k, read, n, source, outcome);
      OneStep(s, a);
    } else {
      AloneAppends(s, p, k, read, n, source, outcome);
      TwoSteps(s, a, Finish(p, Whole));
    }
    hide WellFormed, Next, View, Drain.AfterTries, Stands;
  }

  lemma OneStep(s: State, a: Action)
    requires Enabled(s, a)
    ensures After(s, [a]) == Some(Next(s, a))
  {
    assert [a][1..] == [];
  }

  lemma TwoSteps(s: State, a: Action, b: Action)
    requires Enabled(s, a) && Enabled(Next(s, a), b)
    ensures After(s, [a, b]) == Some(Next(Next(s, a), b))
  {
    assert [a, b][1..] == [b];
    OneStep(Next(s, a), b);
  }

  lemma NoTurns(s: State, p: Pid, read: seq<Line>, source: nat, attempts: Drain.Attempts)
    ensures After(s, Turns(p, read, 0, source, attempts)) == Some(s)
    ensures Drain.AfterTries(View(s), Drain.Tries(read[..0], source, attempts)) == View(s)
  {
    Drain.NoTries(View(s));
    hide Drain.AfterTries, View;
    assert read[..0] == [];
  }

  lemma {:induction false} AloneUpTo(s: State, p: Pid, k: nat, read: seq<Line>, n: nat, source: nat, attempts: Drain.Attempts)
    requires Stands(s, p, k, read, 0) && n <= |read|
    ensures var r := After(s, Turns(p, read, n, source, attempts));
            && r.Some? && Stands(r.value, p, k, read, n)
            && View(r.value) == Drain.AfterTries(View(s), Drain.Tries(read[..n], source, attempts))
  {
    hide *;
    if n == 0 {
      NoTurns(s, p, read, source, attempts);
    } else {
      AloneUpTo(s, p, k, read, n - 1, source, attempts);
      AloneOneMore(s, p, k, read, n - 1, source, attempts);
    }
  }

  lemma AloneOneMore(s: State, p: Pid, k: nat, read: seq<Line>, m: nat, source: nat, attempts: Drain.Attempts)
    requires m < |read| && After(s, Turns(p, read, m, source, attempts)).Some?
    requires Stands(After(s, Turns(p, read, m, source, attempts)).value, p, k, read, m)
    requires View(After(s, Turns(p, read, m, source, attempts)).value) == Drain.AfterTries(View(s), Drain.Tries(read[..m], source, attempts))
    ensures var r := After(s, Turns(p, read, m + 1, source, attempts));
            && r.Some? && Stands(r.value, p, k, read, m + 1)
            && View(r.value) == Drain.AfterTries(View(s), Drain.Tries(read[..m + 1], source, attempts))
  {
    hide *;
    var t := After(s, Turns(p, read, m, source, attempts)).value;
    AloneTurns(t, p, k, read, m, source, attempts(source, m));
    AfterBoth(s, Turns(p, read, m, source, attempts), Turn(p, read[m], attempts(source, m)));
    TurnsSnoc(p, read, m, source, attempts);
    if read[m].Entry? {
      Drain.OneMoreTry(View(s), Drain.Tries(read[..m], source, attempts), Drain.Try(source, m, read[m].step, attempts(source, m)));
    }
  }

  lemma TurnsSnoc(p: Pid, read: seq<Line>, m: nat, source: nat, attempts: Drain.Attempts)
    requires m < |read|
    ensures Turns(p, read, m + 1, source, attempts) == Turns(p, read, m, source, attempts) + Turn(p, read[m], attempts(source, m))
    ensures Drain.Tries(read[..m + 1], source, attempts) ==
            if read[m].Torn? then Drain.Tries(read[..m], source, attempts)
            else Drain.Tries(read[..m], source, attempts) + [Drain.Try(source, m, read[m].step, attempts(source, m))]
  {
    assert read[..m + 1][..m] == read[..m];
  }

  lemma AloneReads(s: State, p: Pid, k: nat)
    requires WellFormed(s) && Alive(s, p) && s.drainers[p].working == Some(k) && k < |s.nodes| && s.drainers[p].read.None? && !s.drainers[p].stuck
    ensures Enabled(s, Read(p)) && Stands(Next(s, Read(p)), p, k, s.nodes[k].text.lines, 0) && View(Next(s, Read(p))) == View(s)
  {
    Own(s, p);
    NextKeepsWellFormed(s, Read(p));
    hide WellFormed;
  }

  lemma AloneUnlinks(s: State, p: Pid, k: nat, read: seq<Line>)
    requires Stands(s, p, k, read, |read|)
    ensures Enabled(s, Unlink(p))
    ensures var t := Next(s, Unlink(p)); t.nodes[k].name.Gone? && t.drainers[p].working.None? && View(t) == View(s)
  {
    Own(s, p);
    QueueIsNotWorkedOn(s, k, p);
    hide WellFormed;
  }

  /** The file that a source of a listing names, if it still has that name. */
  function FileOf(s: State, source: Source): Option<nat> {
    match source
    case Queue => s.queue
    case Orphan(k, owner) => if k < |s.nodes| && s.nodes[k].name == Draining(owner) then Some(k) else None
  }

  /** Drain p has come to a source of its listing. */
  ghost predicate ComesTo(s: State, p: Pid, from: Source) {
    && WellFormed(s) && Alive(s, p) && s.drainers[p].working.None? && !s.drainers[p].stuck
    && s.drainers[p].sources != [] && s.drainers[p].sources[0] == from
  }

  lemma AloneClaims(s: State, p: Pid, from: Source, k: nat)
    requires ComesTo(s, p, from) && FileOf(s, from) == Some(k)
    ensures Enabled(s, Claim(p))
    ensures var t := Next(s, Claim(p));
            && WellFormed(t) && Alive(t, p) && k < |s.nodes| && k < |t.nodes|
            && t.drainers[p].working == Some(k) && t.drainers[p].read.None? && !t.drainers[p].stuck
            && t.nodes[k].text == s.nodes[k].text
            && View(t) == if from.Queue? then Drain.Without(View(s), Drain.Queue) else View(s)
  {
    Own(s, p);
    NextKeepsWellFormed(s, Claim(p));
    if from.Orphan? { QueueIsNotWorkedOn(s, k, from.owner); }
  }

  /** From the renaming of a file to its removal. */
  function WorkOff(p: Pid, read: seq<Line>, source: nat, attempts: Drain.Attempts): seq<Action> {
    [Claim(p), Read(p)] + Turns(p, read, |read|, source, attempts) + [Unlink(p)]
  }

  /** Main theorem: while the others pause, a drain that has come to a file of its listing works it off from the first
      line to the last and removes it, and leaves the files as the drain on its own does. */
  lemma DrainOnItsOwn(s: State, p: Pid, from: Source, k: nat, source: nat, attempts: Drain.Attempts)
    requires ComesTo(s, p, from) && FileOf(s, from) == Some(k)
    ensures k < |s.nodes|
    ensures var lines := s.nodes[k].text.lines;
            var r := After(s, WorkOff(p, lines, source, attempts));
            && r.Some? && k < |r.value.nodes| && r.value.nodes[k].name.Gone?
            && View(r.value) == Drain.AfterTries(if from.Queue? then Drain.Without(View(s), Drain.Queue) else View(s),
                                                 Drain.Tries(lines, source, attempts))
  {
    AloneClaims(s, p, from, k);
    var claimed, lines := Next(s, Claim(p)), s.nodes[k].text.lines;
    AloneReads(claimed, p, k);
    var before := Next(claimed, Read(p));
    TwoSteps(s, Claim(p), Read(p));
    AloneUpTo(before, p, k, lines, |lines|, source, attempts);
    assert lines[..|lines|] == lines;
    var turns := Turns(p, lines, |lines|, source, attempts);
    var done := After(before, turns).value;
    AloneUnlinks(done, p, k, lines);
    OneStep(done, Unlink(p));
    AfterBoth(s, [Claim(p), Read(p)], turns);
    AfterBoth(s, [Claim(p), Read(p)] + turns, [Unlink(p)]);
    hide Stands, Enabled, Next, After, Drain.AfterTries, WellFormed, ComesTo;
  }

  /** A file that another drain has claimed in the meantime is passed over. */
  lemma PassesOver(s: State, p: Pid, from: Source)
    requires ComesTo(s, p, from) && FileOf(s, from).None?
    ensures Enabled(s, Claim(p))
    ensures var d := s.drainers[p]; Next(s, Claim(p)) == s.(drainers := s.drainers[p := d.(sources := d.sources[1..])])
  {
  }
}
