/**
 Any number of concurrent drains of the fallback queue, interleaved with enqueue calls, writes that are cut
 short, and crashes (src/learning/queue.ts).  An append opens the queue file and then writes to what it has
 opened, wherever that file has been renamed to since.
 */
module QueueProtocol {
  import opened Wrappers
  import opened QueueLines

  type Pid = nat

  /** What a file is called: queue.jsonl, `queue.<owner>.<uuid>.draining`, or nothing any more. */
  datatype Name = Queued | Draining(owner: Pid) | Gone

  /** A file; lines[..done] have been disposed of by the live drain that works on it. */
  datatype Node = Node(text: Text, name: Name, done: nat)

  /** What a listing shows; the draining file of a dead process has one name as long as that process owns it. */
  datatype Source = Queue | Orphan(node: nat, owner: Pid)

  /** An append of a drain that has opened its file: the queue file it found, or the dead-letter file. */
  datatype Put = Put(node: Option<nat>, step: Step, failed: bool)

  /** One process that drains. `sources` is what its listing still has to claim, `read` the lines it has read
      from the file it works on; it is stuck when an append has failed. */
  datatype Drainer = Drainer(
    alive: bool, sources: seq<Source>, working: Option<nat>, read: Option<seq<Line>>, put: Option<Put>, stuck: bool)

  datatype Call = Opened | Returned | CutShort

  /** An enqueue call: the file it has opened, and how it went; `failures` is history, how often replays of its
      step have failed and put it back. The call's number is the tag of its step. */
  datatype Writer = Writer(node: nat, call: Call, failures: nat)

  /** `applied`: the lines whose steps were applied. */
  datatype State = State(
    queue: Option<nat>, nodes: seq<Node>, dead: Text, applied: seq<Line>, drainers: seq<Drainer>, writers: seq<Writer>)

  const Init := State(None, [], EMPTY, [], [], [])

  datatype Action =
    | Open                          // an enqueue call opens the queue file
    | Write(w: nat, part: Part)     // and writes to it
    | Spawn
    | List(p: Pid, sources: seq<Source>)
    | Claim(p: Pid)                 // rename the next source, or skip it when it is gone
    | Read(p: Pid)
    | Try(p: Pid, outcome: Outcome) // the next line that was read; a step that is not applied opens a file
    | Finish(p: Pid, part: Part)    // the write to that file
    | Unlink(p: Pid)
    | Abort(p: Pid)                 // the drain throws; its process lives on
    | Crash(p: Pid)

  predicate Alive(s: State, p: Pid) { p < |s.drainers| && s.drainers[p].alive }

  predicate Listable(s: State, source: Source) {
    match source
    case Queue => s.queue.Some?
    case Orphan(k, owner) => k < |s.nodes| && s.nodes[k].name == Draining(owner) && owner < |s.drainers| && !Alive(s, owner)
  }

  /** The queue file, made if there is none. */
  function Found(s: State): State {
    if s.queue.Some? then s else s.(queue := Some(|s.nodes|), nodes := s.nodes + [Node(EMPTY, Queued, 0)])
  }

  function Working(s: State, p: Pid): nat
    requires p < |s.drainers| && s.drainers[p].working.Some?
  {
    s.drainers[p].working.value
  }

  /** Drain p has read the file it works on and goes on. */
  predicate Works(s: State, p: Pid) {
    && Alive(s, p) && s.drainers[p].working.Some? && Working(s, p) < |s.nodes|
    && s.drainers[p].read.Some? && !s.drainers[p].stuck
  }

  function Stepped(s: State, k: nat): State
    requires k < |s.nodes|
  {
    s.(nodes := s.nodes[k := s.nodes[k].(done := s.nodes[k].done + 1)])
  }

  function Wrote(s: State, target: Option<nat>, step: Step, part: Part): State {
    match target
    case None => s.(dead := Append(s.dead, Entry(step), part))
    case Some(k) =>
      if k < |s.nodes| then s.(nodes := s.nodes[k := s.nodes[k].(text := Append(s.nodes[k].text, Entry(step), part))]) else s
  }

  function Written(s: State, w: nat, part: Part): State
    requires w < |s.writers|
  {
    var t := Wrote(s, Some(s.writers[w].node), Step(w, 0), part);
    t.(writers := s.writers[w := s.writers[w].(call := if part.Whole? then Returned else CutShort)])
  }

  function Claimed(s: State, p: Pid): State
    requires Alive(s, p) && s.drainers[p].sources != []
  {
    var d := s.drainers[p];
    var rest := d.(sources := d.sources[1..]);
    match d.sources[0]
    case Queue =>
      if s.queue.None? || s.queue.value >= |s.nodes| then s.(drainers := s.drainers[p := rest])
      else Renamed(s, p, s.queue.value, rest).(queue := None)
    case Orphan(k, owner) =>
      if k < |s.nodes| && s.nodes[k].name == Draining(owner) then Renamed(s, p, k, rest)
      else s.(drainers := s.drainers[p := rest])
  }

  function Renamed(s: State, p: Pid, k: nat, rest: Drainer): State
    requires p < |s.drainers| && k < |s.nodes|
  {
    s.(nodes := s.nodes[k := s.nodes[k].(name := Draining(p))], drainers := s.drainers[p := rest.(working := Some(k))])
  }

  function Tries(s: State, p: Pid, outcome: Outcome): State
    requires Works(s, p) && s.nodes[Working(s, p)].done < |s.drainers[p].read.value|
  {
    var k := Working(s, p);
    var line := s.drainers[p].read.value[s.nodes[k].done];
    if line.Torn? then Stepped(s, k)
    else if outcome.Applied? then Stepped(s, k).(applied := s.applied + [line])
    else
      var step, failed := Tried(line.step, outcome), outcome.Failed?;
      if GoesToDeadLetter(line.step, outcome)
      then s.(drainers := s.drainers[p := s.drainers[p].(put := Some(Put(None, step, failed)))])
      else
        var t := Found(s);
        t.(drainers := s.drainers[p := s.drainers[p].(put := Some(Put(t.queue, step, failed)))])
  }

  function Finished(s: State, p: Pid, part: Part): State
    requires Works(s, p) && s.drainers[p].put.Some?
  {
    var put := s.drainers[p].put.value;
    var t := Wrote(s, put.node, put.step, part);
    if part.Whole? then
      Stepped(t, Working(s, p)).(drainers := s.drainers[p := s.drainers[p].(put := None)],
                                 writers := FailureCounted(s, p))
    else t.(drainers := s.drainers[p := s.drainers[p].(put := None, stuck := true)])
  }

  function FailureCounted(s: State, p: Pid): seq<Writer>
    requires Works(s, p) && s.drainers[p].put.Some?
  {
    var tag, n := s.drainers[p].put.value.step.tag, If(s.drainers[p].put.value.failed);
    if tag < |s.writers| then s.writers[tag := s.writers[tag].(failures := s.writers[tag].failures + n)] else s.writers
  }

  /** The drain of p ends early: what it had claimed is found again, and replayed, from the start. */
  function Dropped(s: State, p: Pid): State
    requires Alive(s, p)
  {
    var d := s.drainers[p];
    var t := s.(drainers := s.drainers[p := Drainer(true, [], None, None, None, false)]);
    if d.working.Some? && Working(s, p) < |s.nodes|
    then t.(nodes := s.nodes[Working(s, p) := s.nodes[Working(s, p)].(done := 0)]) else t
  }

  function Unlinked(s: State, p: Pid): State
    requires Works(s, p)
  {
    s.(nodes := s.nodes[Working(s, p) := s.nodes[Working(s, p)].(name := Gone, done := 0)],
       drainers := s.drainers[p := s.drainers[p].(working := None, read := None)])
  }

  predicate Enabled(s: State, a: Action) {
    match a
    case Open => true
    case Write(w, _) => w < |s.writers| && s.writers[w].call.Opened?
    case Spawn => true
    case List(p, sources) =>
      && Alive(s, p) && s.drainers[p].sources == [] && s.drainers[p].working.None?
      && forall i | 0 <= i < |sources| :: Listable(s, sources[i])
    case Claim(p) => Alive(s, p) && s.drainers[p].working.None? && s.drainers[p].sources != []
    case Read(p) => Alive(s, p) && s.drainers[p].working.Some? && Working(s, p) < |s.nodes| && s.drainers[p].read.None?
    case Try(p, _) => Works(s, p) && s.drainers[p].put.None? && s.nodes[Working(s, p)].done < |s.drainers[p].read.value|
    case Finish(p, _) => Works(s, p) && s.drainers[p].put.Some?
    case Unlink(p) => Works(s, p) && s.drainers[p].put.None? && s.nodes[Working(s, p)].done >= |s.drainers[p].read.value|
    case Abort(p) => Alive(s, p)
    case Crash(p) => Alive(s, p)
  }

  function Next(s: State, a: Action): State
    requires Enabled(s, a)
  {
    match a
    case Open => var t := Found(s); t.(writers := s.writers + [Writer(t.queue.value, Opened, 0)])
    case Write(w, part) => Written(s, w, part)
    case Spawn => s.(drainers := s.drainers + [Drainer(true, [], None, None, None, false)])
    case List(p, sources) => s.(drainers := s.drainers[p := s.drainers[p].(sources := sources)])
    case Claim(p) => Claimed(s, p)
    case Read(p) => s.(drainers := s.drainers[p := s.drainers[p].(read := Some(s.nodes[Working(s, p)].text.lines))])
    case Try(p, outcome) => Tries(s, p, outcome)
    case Finish(p, part) => Finished(s, p, part)
    case Unlink(p) => Unlinked(s, p)
    case Abort(p) => Dropped(s, p)
    case Crash(p) => var t := Dropped(s, p); t.(drainers := t.drainers[p := t.drainers[p].(alive := false)])
  }

  // ---------- Well-formed states ----------

  /** A drain that works owns its file, what it read is what is there or was torn since, and what it is about
      to append is the line it has come to. */
  ghost predicate WorkerOk(nodes: seq<Node>, p: Pid, d: Drainer) {
    && (d.working.None? ==> d.read.None? && d.put.None?)
    && (d.working.Some? ==>
          && d.alive && d.working.value < |nodes|
          && nodes[d.working.value].name == Draining(p)
          && (d.read.None? ==> nodes[d.working.value].done == 0)
          && (d.read.Some? ==> ReadOk(nodes[d.working.value], d.read.value)))
    && (d.put.Some? ==>
          && d.read.Some? && nodes[d.working.value].done < |d.read.value|
          && PutOk(d.put.value, d.read.value[nodes[d.working.value].done])
          && (d.put.value.node.Some? ==>
                d.put.value.node.value < |nodes| && nodes[d.put.value.node.value].name != Draining(p)))
  }

  predicate ReadOk(node: Node, read: seq<Line>) { Grown(read, node.text.lines) && node.done <= |read| }

  predicate PutOk(put: Put, line: Line) {
    && line.Entry? && put.step.tag == line.step.tag
    && put.step.attempts == line.step.attempts + If(put.failed)
    && (put.node.None? <==> put.step.attempts >= MAX_ATTEMPTS)
  }

  ghost predicate NodeOk(s: State, k: nat)
    requires k < |s.nodes|
  {
    && s.nodes[k].done <= |s.nodes[k].text.lines|
    && (s.nodes[k].name.Draining? ==> s.nodes[k].name.owner < |s.drainers|)
    && (s.nodes[k].done > 0 ==> s.nodes[k].name.Draining? && s.drainers[s.nodes[k].name.owner].working == Some(k))
  }

  /** What a drain listed as orphaned stays orphaned. */
  predicate SourceOk(s: State, source: Source) { source.Orphan? ==> source.owner < |s.drainers| && !Alive(s, source.owner) }

  ghost predicate WellFormed(s: State) {
    && (s.queue.Some? ==> s.queue.value < |s.nodes| && s.nodes[s.queue.value].name.Queued?)
    && (forall p | 0 <= p < |s.drainers| :: WorkerOk(s.nodes, p, s.drainers[p]))
    && (forall k | 0 <= k < |s.nodes| :: NodeOk(s, k))
    && (forall p, i | 0 <= p < |s.drainers| && 0 <= i < |s.drainers[p].sources| :: SourceOk(s, s.drainers[p].sources[i]))
    && (forall w | 0 <= w < |s.writers| :: s.writers[w].node < |s.nodes|)
  }

  /** A step of process p: what it leaves alone. */
  ghost predicate Minds(s: State, t: State, p: Pid) {
    && |t.drainers| >= |s.drainers| && |t.nodes| >= |s.nodes|
    && (forall q | 0 <= q < |s.drainers| && q != p :: t.drainers[q] == s.drainers[q])
    && (forall q | 0 <= q < |s.drainers| && !s.drainers[q].alive :: !t.drainers[q].alive)
    && (forall k | 0 <= k < |s.nodes| :: Mindful(s, s.nodes[k], t.nodes[k], p))
  }

  ghost predicate Mindful(s: State, a: Node, b: Node, p: Pid) {
    && (b.name == a.name || ((b.name.Gone? || b.name == Draining(p)) && !(a.name.Draining? && Alive(s, a.name.owner) && a.name.owner != p)))
    && Grown(a.text.lines, b.text.lines)
    && (a.name != Draining(p) ==> b.done == a.done)
  }

  lemma OtherWorkers(s: State, t: State, p: Pid, q: Pid)
    requires WellFormed(s) && Minds(s, t, p) && q < |s.drainers| && q != p
    ensures WorkerOk(t.nodes, q, t.drainers[q])
  {
    var d := s.drainers[q];
    assert WorkerOk(s.nodes, q, d);
    if d.working.Some? {
      assert Mindful(s, s.nodes[d.working.value], t.nodes[d.working.value], p);
      if d.read.Some? { GrownTwice(d.read.value, s.nodes[d.working.value].text.lines, t.nodes[d.working.value].text.lines); }
    }
    if d.put.Some? && d.put.value.node.Some? {
      assert Mindful(s, s.nodes[d.put.value.node.value], t.nodes[d.put.value.node.value], p);
    }
  }

  lemma OtherSources(s: State, t: State, p: Pid, q: Pid, i: nat)
    requires WellFormed(s) && Minds(s, t, p) && q < |s.drainers| && i < |t.drainers[q].sources|
    requires t.drainers[q].sources[i] in s.drainers[q].sources
    ensures SourceOk(t, t.drainers[q].sources[i])
  {
    var source := t.drainers[q].sources[i];
    var j :| 0 <= j < |s.drainers[q].sources| && s.drainers[q].sources[j] == source;
    assert SourceOk(s, s.drainers[q].sources[j]);
  }

  /** What is left to show for a step of process p that minds the others. */
  lemma StepKeepsWellFormed(s: State, t: State, p: Pid)
    requires WellFormed(s) && Minds(s, t, p)
    requires t.queue.Some? ==> t.queue.value < |t.nodes| && t.nodes[t.queue.value].name.Queued?
    requires p < |t.drainers| ==> WorkerOk(t.nodes, p, t.drainers[p])
    requires forall q | |s.drainers| <= q < |t.drainers| :: t.drainers[q] == Drainer(true, [], None, None, None, false)
    requires forall k | 0 <= k < |t.nodes| :: NodeOk(t, k)
    requires p < |s.drainers| ==> forall i | 0 <= i < |t.drainers[p].sources| ::
               t.drainers[p].sources[i] in s.drainers[p].sources || Listable(s, t.drainers[p].sources[i])
    requires forall w | 0 <= w < |t.writers| :: t.writers[w].node < |t.nodes|
    ensures WellFormed(t)
  {
    forall q | 0 <= q < |t.drainers| ensures WorkerOk(t.nodes, q, t.drainers[q]) {
      if q < |s.drainers| && q != p { OtherWorkers(s, t, p, q); }
    }
    hide WorkerOk, NodeOk;
    forall q, i | 0 <= q < |t.drainers| && 0 <= i < |t.drainers[q].sources| ensures SourceOk(t, t.drainers[q].sources[i]) {
      if q < |s.drainers| && t.drainers[q].sources[i] in s.drainers[q].sources {
        OtherSources(s, t, p, q, i);
      } else {
        assert q == p ==> Listable(s, t.drainers[q].sources[i]);
      }
    }
  }

  lemma Own(s: State, p: Pid)
    requires WellFormed(s) && p < |s.drainers|
    ensures WorkerOk(s.nodes, p, s.drainers[p])
    ensures s.drainers[p].working.Some? ==> NodeOk(s, Working(s, p))
  {
  }

  lemma FoundIs(s: State)
    requires WellFormed(s)
    ensures WellFormed(Found(s)) && Found(s).queue.Some? && Found(s).queue.value < |Found(s).nodes|
    ensures Found(s).nodes[Found(s).queue.value].name.Queued?
    ensures Minds(s, Found(s), |s.drainers|) && Found(s) == s.(queue := Found(s).queue, nodes := Found(s).nodes)
    ensures forall k | 0 <= k < |s.nodes| :: Found(s).nodes[k] == s.nodes[k]
  {
    var t := Found(s);
    forall k | 0 <= k < |t.nodes| ensures NodeOk(t, k) { assert k < |s.nodes| ==> NodeOk(s, k); }
    StepKeepsWellFormed(s, t, |s.drainers|);
  }

  lemma WroteMinds(s: State, target: Option<nat>, step: Step, part: Part, p: Pid)
    ensures Minds(s, Wrote(s, target, step, part), p)
  {
    if target.Some? && target.value < |s.nodes| { AppendGrows(s.nodes[target.value].text, Entry(step), part); }
  }

  lemma WroteKeepsWellFormed(s: State, target: Option<nat>, step: Step, part: Part)
    requires WellFormed(s)
    ensures WellFormed(Wrote(s, target, step, part))
  {
    var t := Wrote(s, target, step, part);
    WroteMinds(s, target, step, part, |s.drainers|);
    forall k | 0 <= k < |t.nodes| ensures NodeOk(t, k) {
      assert NodeOk(s, k) && Mindful(s, s.nodes[k], t.nodes[k], |s.drainers|);
    }
    StepKeepsWellFormed(s, t, |s.drainers|);
  }

  /** The file of no live drain is renamed. */
  lemma RenamedKeeps(s: State, p: Pid, k: nat, rest: Drainer)
    requires WellFormed(s) && Alive(s, p) && s.drainers[p].working.None? && k < |s.nodes| && s.queue != Some(k)
    requires rest == s.drainers[p].(sources := rest.sources) && forall x | x in rest.sources :: x in s.drainers[p].sources
    requires s.nodes[k].name.Queued? || (s.nodes[k].name.Draining? && !Alive(s, s.nodes[k].name.owner))
    ensures WellFormed(Renamed(s, p, k, rest))
  {
    var t := Renamed(s, p, k, rest);
    Own(s, p);
    assert NodeOk(s, k);
    if s.nodes[k].name.Draining? { Own(s, s.nodes[k].name.owner); }
    assert s.nodes[k].done == 0;
    forall l | 0 <= l < |t.nodes| ensures NodeOk(t, l) { assert NodeOk(s, l); }
    StepKeepsWellFormed(s, t, p);
  }

  lemma SkipKeeps(s: State, p: Pid, rest: Drainer)
    requires WellFormed(s) && Alive(s, p)
    requires rest == s.drainers[p].(sources := rest.sources) && forall x | x in rest.sources :: x in s.drainers[p].sources
    ensures WellFormed(s.(drainers := s.drainers[p := rest]))
  {
    var t := s.(drainers := s.drainers[p := rest]);
    Own(s, p);
    forall l | 0 <= l < |t.nodes| ensures NodeOk(t, l) { assert NodeOk(s, l); }
    StepKeepsWellFormed(s, t, p);
  }

  lemma WithoutQueue(s: State)
    requires WellFormed(s)
    ensures WellFormed(s.(queue := None))
  {
    var t := s.(queue := None);
    SameDrains(s, t);
  }

  lemma SameDrains(s: State, t: State)
    requires WellFormed(s) && t.nodes == s.nodes && t.drainers == s.drainers && t.writers == s.writers
    requires t.queue == s.queue || t.queue == None
    ensures WellFormed(t)
  {
    forall k | 0 <= k < |t.nodes| ensures NodeOk(t, k) { assert NodeOk(s, k); }
    forall p, i | 0 <= p < |t.drainers| && 0 <= i < |t.drainers[p].sources| ensures SourceOk(t, t.drainers[p].sources[i]) {
      assert SourceOk(s, s.drainers[p].sources[i]);
    }
  }

  lemma ClaimKeepsWellFormed(s: State, p: Pid)
    requires WellFormed(s) && Enabled(s, Claim(p))
    ensures WellFormed(Next(s, Claim(p)))
  {
    var t, source := Next(s, Claim(p)), s.drainers[p].sources[0];
    var rest := s.drainers[p].(sources := s.drainers[p].sources[1..]);
    assert SourceOk(s, source);
    assert s.queue.Some? ==> s.queue.value < |s.nodes| && s.nodes[s.queue.value].name.Queued?;
    hide WellFormed, Renamed;
    if source.Queue? && s.queue.Some? {
      WithoutQueue(s);
      RenamedKeeps(s.(queue := None), p, s.queue.value, rest);
      assert t == Renamed(s.(queue := None), p, s.queue.value, rest) by { RenamedWithoutQueue(s, p, rest); }
    } else if source.Orphan? && source.node < |s.nodes| && s.nodes[source.node].name == Draining(source.owner) {
      RenamedKeeps(s, p, source.node, rest);
    } else {
      SkipKeeps(s, p, rest);
    }
  }

  lemma RenamedWithoutQueue(s: State, p: Pid, rest: Drainer)
    requires p < |s.drainers| && s.queue.Some? && s.queue.value < |s.nodes|
    ensures Renamed(s, p, s.queue.value, rest).(queue := None) == Renamed(s.(queue := None), p, s.queue.value, rest)
  {
  }

  lemma ReadKeepsWellFormed(s: State, p: Pid)
    requires WellFormed(s) && Enabled(s, Read(p))
    ensures WellFormed(Next(s, Read(p)))
  {
    var t := Next(s, Read(p));
    Own(s, p);
    forall k | 0 <= k < |t.nodes| ensures NodeOk(t, k) { assert NodeOk(s, k); }
    StepKeepsWellFormed(s, t, p);
  }

  lemma SteppedKeeps(s: State, p: Pid)
    requires WellFormed(s) && Works(s, p) && s.nodes[Working(s, p)].done < |s.drainers[p].read.value|
    ensures var t := Stepped(s, Working(s, p)).(drainers := s.drainers[p := s.drainers[p].(put := None)]);
            WellFormed(t)
  {
    var t := Stepped(s, Working(s, p)).(drainers := s.drainers[p := s.drainers[p].(put := None)]);
    Own(s, p);
    forall k | 0 <= k < |t.nodes| ensures NodeOk(t, k) { assert NodeOk(s, k); }
    StepKeepsWellFormed(s, t, p);
  }

  lemma PutKeeps(s: State, p: Pid, put: Put)
    requires WellFormed(s) && Works(s, p) && s.nodes[Working(s, p)].done < |s.drainers[p].read.value|
    requires PutOk(put, s.drainers[p].read.value[s.nodes[Working(s, p)].done])
    requires put.node.Some? ==> put.node.value < |s.nodes| && s.nodes[put.node.value].name.Queued?
    ensures WellFormed(s.(drainers := s.drainers[p := s.drainers[p].(put := Some(put))]))
  {
    var t := s.(drainers := s.drainers[p := s.drainers[p].(put := Some(put))]);
    Own(s, p);
    forall k | 0 <= k < |t.nodes| ensures NodeOk(t, k) { assert NodeOk(s, k); }
    StepKeepsWellFormed(s, t, p);
  }

  lemma TryKeepsWellFormed(s: State, a: Action)
    requires WellFormed(s) && a.Try? && Enabled(s, a)
    ensures WellFormed(Next(s, a))
  {
    FoundIs(s);
    hide WellFormed, Found;
    var line := s.drainers[a.p].read.value[s.nodes[Working(s, a.p)].done];
    if line.Torn? || a.outcome.Applied? {
      SteppedKeeps(s, a.p);
      SameTables(Stepped(s, Working(s, a.p)).(drainers := s.drainers[a.p := s.drainers[a.p].(put := None)]), Next(s, a));
    } else if GoesToDeadLetter(line.step, a.outcome) {
      PutKeeps(s, a.p, Put(None, Tried(line.step, a.outcome), a.outcome.Failed?));
    } else {
      PutKeeps(Found(s), a.p, Put(Found(s).queue, Tried(line.step, a.outcome), a.outcome.Failed?));
    }
  }

  /** Being well-formed does not depend on what was applied and dead-lettered. */
  lemma SameTables(s: State, t: State)
    requires WellFormed(s) && t.queue == s.queue && t.nodes == s.nodes && t.drainers == s.drainers
    requires |t.writers| == |s.writers| && forall w | 0 <= w < |t.writers| :: t.writers[w].node == s.writers[w].node
    ensures WellFormed(t)
  {
    forall k | 0 <= k < |t.nodes| ensures NodeOk(t, k) { assert NodeOk(s, k); }
    forall p, i | 0 <= p < |t.drainers| && 0 <= i < |t.drainers[p].sources| ensures SourceOk(t, t.drainers[p].sources[i]) {
      assert SourceOk(s, s.drainers[p].sources[i]);
    }
  }

  lemma StuckKeeps(s: State, p: Pid)
    requires WellFormed(s) && Works(s, p)
    ensures WellFormed(s.(drainers := s.drainers[p := s.drainers[p].(put := None, stuck := true)]))
  {
    var t := s.(drainers := s.drainers[p := s.drainers[p].(put := None, stuck := true)]);
    Own(s, p);
    forall k | 0 <= k < |t.nodes| ensures NodeOk(t, k) { assert NodeOk(s, k); }
    StepKeepsWellFormed(s, t, p);
  }

  lemma FinishKeepsWellFormed(s: State, a: Action)
    requires WellFormed(s) && a.Finish? && Enabled(s, a)
    ensures WellFormed(Next(s, a))
  {
    var put := s.drainers[a.p].put.value;
    var u := Wrote(s, put.node, put.step, a.part);
    Own(s, a.p);
    WroteKeepsWellFormed(s, put.node, put.step, a.part);
    assert u.drainers == s.drainers && u.writers == s.writers && Works(u, a.p);
    assert u.nodes[Working(s, a.p)].done == s.nodes[Working(s, a.p)].done;
    hide WellFormed, Wrote;
    if a.part.Whole? {
      SteppedKeeps(u, a.p);
      SameTables(Stepped(u, Working(s, a.p)).(drainers := s.drainers[a.p := s.drainers[a.p].(put := None)]), Next(s, a));
    } else {
      StuckKeeps(u, a.p);
    }
  }

  lemma UnlinkKeepsWellFormed(s: State, p: Pid)
    requires WellFormed(s) && Enabled(s, Unlink(p))
    ensures WellFormed(Next(s, Unlink(p)))
  {
    var t := Next(s, Unlink(p));
    Own(s, p);
    forall k | 0 <= k < |t.nodes| ensures NodeOk(t, k) { assert NodeOk(s, k); }
    StepKeepsWellFormed(s, t, p);
  }

  lemma DroppedKeeps(s: State, p: Pid)
    requires WellFormed(s) && Alive(s, p)
    ensures WellFormed(Dropped(s, p))
  {
    var t := Dropped(s, p);
    Own(s, p);
    forall k | 0 <= k < |t.nodes| ensures NodeOk(t, k) { assert NodeOk(s, k); }
    StepKeepsWellFormed(s, t, p);
  }

  /** A process that has dropped its work dies. */
  lemma DiesKeeps(s: State, p: Pid)
    requires WellFormed(s) && Alive(s, p) && s.drainers[p].working.None?
    ensures WellFormed(s.(drainers := s.drainers[p := s.drainers[p].(alive := false)]))
  {
    var t := s.(drainers := s.drainers[p := s.drainers[p].(alive := false)]);
    Own(s, p);
    forall k | 0 <= k < |t.nodes| ensures NodeOk(t, k) { assert NodeOk(s, k); }
    StepKeepsWellFormed(s, t, p);
  }

  lemma EnqueueKeepsWellFormed(s: State, a: Action)
    requires WellFormed(s) && (a.Open? || a.Write?) && Enabled(s, a)
    ensures WellFormed(Next(s, a))
  {
    if a.Open? {
      FoundIs(s);
      MoreWriters(Found(s), Next(s, a));
    } else {
      var target := Some(s.writers[a.w].node);
      WroteKeepsWellFormed(s, target, Step(a.w, 0), a.part);
      assert Wrote(s, target, Step(a.w, 0), a.part).writers == s.writers;
      MoreWriters(Wrote(s, target, Step(a.w, 0), a.part), Next(s, a));
    }
  }

  lemma ListKeepsWellFormed(s: State, a: Action)
    requires WellFormed(s) && a.List? && Enabled(s, a)
    ensures WellFormed(Next(s, a))
  {
    var t := Next(s, a);
    Own(s, a.p);
    forall k | 0 <= k < |t.nodes| ensures NodeOk(t, k) { assert NodeOk(s, k); }
    StepKeepsWellFormed(s, t, a.p);
  }

  lemma SpawnKeepsWellFormed(s: State)
    requires WellFormed(s)
    ensures WellFormed(Next(s, Spawn))
  {
    var t := Next(s, Spawn);
    forall k | 0 <= k < |t.nodes| ensures NodeOk(t, k) { assert NodeOk(s, k); }
    StepKeepsWellFormed(s, t, |s.drainers|);
  }

  lemma MoreWriters(s: State, t: State)
    requires WellFormed(s) && t == s.(writers := t.writers)
    requires forall w | 0 <= w < |t.writers| :: t.writers[w].node < |t.nodes|
    ensures WellFormed(t)
  {
    forall k | 0 <= k < |t.nodes| ensures NodeOk(t, k) { assert NodeOk(s, k); }
    forall p, i | 0 <= p < |t.drainers| && 0 <= i < |t.drainers[p].sources| ensures SourceOk(t, t.drainers[p].sources[i]) {
      assert SourceOk(s, s.drainers[p].sources[i]);
    }
  }

  lemma NextKeepsWellFormed(s: State, a: Action)
    requires WellFormed(s) && Enabled(s, a)
    ensures WellFormed(Next(s, a))
  {
    hide WellFormed;
    match a
    case Open => EnqueueKeepsWellFormed(s, a);
    case Write(_, _) => EnqueueKeepsWellFormed(s, a);
    case Spawn => SpawnKeepsWellFormed(s);
    case List(_, _) => ListKeepsWellFormed(s, a);
    case Claim(p) => ClaimKeepsWellFormed(s, p);
    case Read(p) => ReadKeepsWellFormed(s, p);
    case Try(_, _) => TryKeepsWellFormed(s, a);
    case Finish(_, _) => FinishKeepsWellFormed(s, a);
    case Unlink(p) => UnlinkKeepsWellFormed(s, p);
    case Abort(p) => DroppedKeeps(s, p);
    case Crash(p) => DroppedKeeps(s, p); DiesKeeps(Dropped(s, p), p);
  }

  // ---------- Counting steps ----------

  /** The lines of a file that have not been disposed of. */
  function Left(n: Node, kind: Step -> bool): nat {
    if n.name.Gone? || n.done > |n.text.lines| then 0 else Count(n.text.lines[n.done..], kind)
  }

  function AllLeft(nodes: seq<Node>, kind: Step -> bool): nat {
    if nodes == [] then 0 else AllLeft(nodes[..|nodes| - 1], kind) + Left(nodes[|nodes| - 1], kind)
  }

  /** All copies of steps of a kind, wherever they are. */
  function Copies(s: State, kind: Step -> bool): nat {
    Count(s.applied, kind) + Count(s.dead.lines, kind) + AllLeft(s.nodes, kind)
  }

  function Tagged(tag: nat): Step -> bool { (step: Step) => step.tag == tag }

  function Is(step: Step): Step -> bool { (other: Step) => other == step }

  lemma {:induction false} AllLeftUpdate(nodes: seq<Node>, i: nat, n: Node, kind: Step -> bool)
    requires i < |nodes|
    ensures AllLeft(nodes[i := n], kind) + Left(nodes[i], kind) == AllLeft(nodes, kind) + Left(n, kind)
  {
    hide Left;
    var k := |nodes| - 1;
    if i == k {
      assert nodes[i := n][..k] == nodes[..k];
    } else {
      assert nodes[i := n][..k] == nodes[..k][i := n];
      AllLeftUpdate(nodes[..k], i, n, kind);
    }
  }

  lemma AllLeftSnoc(nodes: seq<Node>, n: Node, kind: Step -> bool)
    ensures AllLeft(nodes + [n], kind) == AllLeft(nodes, kind) + Left(n, kind)
  {
    assert (nodes + [n])[..|nodes|] == nodes;
  }

  lemma {:induction false} AllLeftAtLeast(nodes: seq<Node>, i: nat, kind: Step -> bool)
    requires i < |nodes|
    ensures AllLeft(nodes, kind) >= Left(nodes[i], kind)
  {
    if i < |nodes| - 1 { AllLeftAtLeast(nodes[..|nodes| - 1], i, kind); }
  }

  // ---------- What a write does ----------

  function TextAt(s: State, target: Option<nat>): Text
    requires target.Some? ==> target.value < |s.nodes|
  {
    if target.Some? then s.nodes[target.value].text else s.dead
  }

  predicate Linked(s: State, target: Option<nat>)
    requires target.Some? ==> target.value < |s.nodes|
  {
    target.Some? ==> !s.nodes[target.value].name.Gone?
  }

  function DoneAt(s: State, target: Option<nat>): nat
    requires target.Some? ==> target.value < |s.nodes|
  {
    if target.Some? then s.nodes[target.value].done else 0
  }

  /** The step comes to stand on a line of its own in a file that still has a name. */
  predicate Reaches(s: State, target: Option<nat>, part: Part)
    requires target.Some? ==> target.value < |s.nodes|
  {
    Linked(s, target) && Lands(TextAt(s, target), part)
  }

  /** The write is glued to a line that is still to be dealt with. */
  predicate Glued(s: State, target: Option<nat>, part: Part)
    requires target.Some? ==> target.value < |s.nodes|
  {
    Linked(s, target) && Glues(TextAt(s, target)) && !part.Nothing? && DoneAt(s, target) < |TextAt(s, target).lines|
  }

  function LastLine(s: State, target: Option<nat>): Line
    requires target.Some? ==> target.value < |s.nodes|
  {
    var lines := TextAt(s, target).lines;
    if lines == [] then Torn else lines[|lines| - 1]
  }

  function TornBy(s: State, target: Option<nat>, part: Part, kind: Step -> bool): nat
    requires target.Some? ==> target.value < |s.nodes|
  {
    if Glued(s, target, part) then Of(LastLine(s, target), kind) else 0
  }

  lemma WroteCopies(s: State, target: Option<nat>, step: Step, part: Part, kind: Step -> bool)
    requires target.Some? ==> target.value < |s.nodes| && DoneAt(s, target) <= |TextAt(s, target).lines|
    ensures Copies(Wrote(s, target, step, part), kind) + TornBy(s, target, part, kind) ==
            Copies(s, kind) + If(Reaches(s, target, part) && kind(step))
  {
    var t := Wrote(s, target, step, part);
    AppendCounts(TextAt(s, target), step, part, DoneAt(s, target), kind);
    hide Append, Count, Of;
    if target.None? {
      assert t.dead.lines[0..] == t.dead.lines && s.dead.lines[0..] == s.dead.lines;
    } else {
      AllLeftUpdate(s.nodes, target.value, t.nodes[target.value], kind);
    }
  }

  lemma SteppedCopies(s: State, k: nat, kind: Step -> bool)
    requires k < |s.nodes| && !s.nodes[k].name.Gone? && s.nodes[k].done < |s.nodes[k].text.lines|
    ensures Copies(Stepped(s, k), kind) + Of(s.nodes[k].text.lines[s.nodes[k].done], kind) == Copies(s, kind)
  {
    hide Count, Of;
    AllLeftUpdate(s.nodes, k, Stepped(s, k).nodes[k], kind);
    CountFrom(s.nodes[k].text.lines, s.nodes[k].done, kind);
  }

  // ---------- What a step loses and gains ----------

  /** The line that drain p has come to, as it is in the file now. */
  function OnDisk(s: State, p: Pid): Line
    requires Works(s, p)
  {
    var n := s.nodes[Working(s, p)];
    if n.done < |n.text.lines| then n.text.lines[n.done] else Torn
  }

  function InMemory(s: State, p: Pid): Line
    requires Works(s, p)
  {
    var n, read := s.nodes[Working(s, p)], s.drainers[p].read.value;
    if n.done < |read| then read[n.done] else Torn
  }

  /** Where the action writes. */
  function Target(s: State, a: Action): Option<nat>
    requires (a.Write? || a.Finish?) && Enabled(s, a)
  {
    if a.Write? then Some(s.writers[a.w].node) else s.drainers[a.p].put.value.node
  }

  /** The step it writes. */
  function Putting(s: State, a: Action): Step
    requires (a.Write? || a.Finish?) && Enabled(s, a)
  {
    if a.Write? then Step(a.w, 0) else s.drainers[a.p].put.value.step
  }

  lemma TargetIs(s: State, a: Action)
    requires WellFormed(s) && (a.Write? || a.Finish?) && Enabled(s, a)
    ensures var target := Target(s, a); target.Some? ==> target.value < |s.nodes| && DoneAt(s, target) <= |TextAt(s, target).lines|
  {
    if a.Finish? { Own(s, a.p); }
    var target := Target(s, a);
    if target.Some? { assert NodeOk(s, target.value); }
  }

  lemma WorkIs(s: State, p: Pid)
    requires WellFormed(s) && Works(s, p)
    ensures var n, read := s.nodes[Working(s, p)], s.drainers[p].read.value;
            && n.name == Draining(p) && n.done <= |read| <= |n.text.lines|
            && (OnDisk(s, p).Torn? || OnDisk(s, p) == InMemory(s, p) || n.done >= |read|)
    ensures s.drainers[p].put.Some? ==> s.nodes[Working(s, p)].done < |s.drainers[p].read.value|
                                        && PutOk(s.drainers[p].put.value, InMemory(s, p))
                                        && s.drainers[p].put.value.node != s.drainers[p].working
  {
    Own(s, p);
  }

  function Before(s: State, p: Pid, kind: Step -> bool): nat
    requires p < |s.drainers|
  {
    if s.drainers[p].working.Some? && Working(s, p) < |s.nodes| && s.nodes[Working(s, p)].done <= |s.nodes[Working(s, p)].text.lines|
    then Count(s.nodes[Working(s, p)].text.lines[..s.nodes[Working(s, p)].done], kind) else 0
  }

  function Lost(s: State, a: Action, kind: Step -> bool): nat
    requires WellFormed(s) && Enabled(s, a)
  {
    match a
    case Write(_, part) => TargetIs(s, a); TornBy(s, Target(s, a), part, kind)
    case Finish(p, part) =>
      TargetIs(s, a);
      TornBy(s, Target(s, a), part, kind) + if part.Whole? then Of(OnDisk(s, p), kind) else 0
    case Try(p, outcome) => if outcome.Applied? then Of(OnDisk(s, p), kind) else 0
    case Unlink(p) => Left(s.nodes[Working(s, p)], kind)
    case _ => 0
  }

  function Gained(s: State, a: Action, kind: Step -> bool): nat
    requires WellFormed(s) && Enabled(s, a)
  {
    match a
    case Write(_, part) => TargetIs(s, a); If(Reaches(s, Target(s, a), part) && kind(Putting(s, a)))
    case Finish(_, part) => TargetIs(s, a); If(Reaches(s, Target(s, a), part) && kind(Putting(s, a)))
    case Try(p, outcome) => if outcome.Applied? then Of(InMemory(s, p), kind) else 0
    case Abort(p) => Before(s, p, kind)
    case Crash(p) => Before(s, p, kind)
    case _ => 0
  }

  lemma FoundCopies(s: State, kind: Step -> bool)
    ensures Copies(Found(s), kind) == Copies(s, kind)
  {
    if s.queue.None? { AllLeftSnoc(s.nodes, Node(EMPTY, Queued, 0), kind); }
  }

  lemma ClaimCopies(s: State, p: Pid, kind: Step -> bool)
    requires WellFormed(s) && Enabled(s, Claim(p))
    ensures Copies(Next(s, Claim(p)), kind) == Copies(s, kind)
  {
    var source := s.drainers[p].sources[0];
    var k := if source.Queue? then if s.queue.Some? then s.queue.value else 0 else source.node;
    if k < |s.nodes| { AllLeftUpdate(s.nodes, k, s.nodes[k].(name := Draining(p)), kind); }
  }

  lemma TryCopies(s: State, a: Action, kind: Step -> bool)
    requires WellFormed(s) && a.Try? && Enabled(s, a)
    ensures Copies(Next(s, a), kind) + Lost(s, a, kind) == Copies(s, kind) + Gained(s, a, kind)
  {
    WorkIs(s, a.p);
    FoundCopies(s, kind);
    var k := Working(s, a.p);
    var line := s.drainers[a.p].read.value[s.nodes[k].done];
    hide WellFormed, Count, AllLeft, Left;
    if line.Torn? {
      SteppedCopies(s, k, kind);
    } else if a.outcome.Applied? {
      SteppedCopies(s, k, kind);
      CountSnoc(s.applied, line, kind);
    }
  }

  lemma FinishCopies(s: State, a: Action, kind: Step -> bool)
    requires WellFormed(s) && a.Finish? && Enabled(s, a)
    ensures Copies(Next(s, a), kind) + Lost(s, a, kind) == Copies(s, kind) + Gained(s, a, kind)
  {
    TargetIs(s, a);
    WorkIs(s, a.p);
    var k, t := Working(s, a.p), Wrote(s, Target(s, a), Putting(s, a), a.part);
    WroteCopies(s, Target(s, a), Putting(s, a), a.part, kind);
    assert t.nodes[k] == s.nodes[k];
    hide WellFormed, Count, AllLeft, Left, Wrote, TornBy, Reaches;
    if a.part.Whole? { SteppedCopies(t, k, kind); }
  }

  lemma DropCopies(s: State, p: Pid, kind: Step -> bool)
    requires WellFormed(s) && Alive(s, p)
    ensures Copies(Dropped(s, p), kind) == Copies(s, kind) + Before(s, p, kind)
  {
    Own(s, p);
    if s.drainers[p].working.Some? {
      var n := s.nodes[Working(s, p)];
      AllLeftUpdate(s.nodes, Working(s, p), n.(done := 0), kind);
      assert n.text.lines[0..] == n.text.lines[..n.done] + n.text.lines[n.done..];
      CountConcat(n.text.lines[..n.done], n.text.lines[n.done..], kind);
    }
  }

  /** The balance of every step. */
  lemma StepBalances(s: State, a: Action, kind: Step -> bool)
    requires WellFormed(s) && Enabled(s, a)
    ensures Copies(Next(s, a), kind) + Lost(s, a, kind) == Copies(s, kind) + Gained(s, a, kind)
  {
    match a
    case Open => FoundCopies(s, kind);
    case Write(w, part) =>
      TargetIs(s, a);
      WroteCopies(s, Target(s, a), Putting(s, a), part, kind);
    case Spawn =>
    case List(_, _) =>
    case Claim(p) => ClaimCopies(s, p, kind);
    case Read(_) =>
    case Try(_, _) => TryCopies(s, a, kind);
    case Finish(_, _) => FinishCopies(s, a, kind);
    case Unlink(p) =>
      AllLeftUpdate(s.nodes, Working(s, p), Next(s, a).nodes[Working(s, p)], kind);
    case Abort(p) => DropCopies(s, p, kind);
    case Crash(p) => DropCopies(s, p, kind);
  }

  // ---------- Nothing is lost ----------

  /** Whether the action is the write with which the enqueue call of that number returns. */
  function Completes(a: Action, tag: nat): nat { If(a == Write(tag, Whole)) }

  /** Some step has fewer copies behind the action than before it, with the one that the action completes. */
  ghost predicate Loses(s: State, a: Action)
    requires Enabled(s, a)
  {
    exists tag: nat :: Copies(Next(s, a), Tagged(tag)) < Copies(s, Tagged(tag)) + Completes(a, tag)
  }

  predicate HasEntry(lines: seq<Line>) { exists i :: 0 <= i < |lines| && lines[i].Entry? }

  /** A whole line is written behind a line without its newline or into a file that was unlinked; or a write is
      glued to a step without its newline that is still to be dealt with; or a file is unlinked into which a
      step was written after it was read. */
  predicate Losing(s: State, a: Action)
    requires WellFormed(s) && Enabled(s, a)
  {
    match a
    case Write(_, part) =>
      TargetIs(s, a);
      (part.Whole? && !Reaches(s, Target(s, a), part)) || (Glued(s, Target(s, a), part) && LastLine(s, Target(s, a)).Entry?)
    case Finish(p, part) =>
      TargetIs(s, a);
      (part.Whole? && OnDisk(s, p).Entry? && !Reaches(s, Target(s, a), part))
      || (Glued(s, Target(s, a), part) && LastLine(s, Target(s, a)).Entry?)
    case Unlink(p) =>
      var n := s.nodes[Working(s, p)];
      n.done <= |n.text.lines| && HasEntry(n.text.lines[n.done..])
    case _ => false
  }

  lemma LosesIs(s: State, a: Action)
    requires WellFormed(s) && Enabled(s, a)
    ensures Loses(s, a) <==> exists tag: nat :: Gained(s, a, Tagged(tag)) < Lost(s, a, Tagged(tag)) + Completes(a, tag)
  {
    hide Copies, Next, Lost, Gained, Completes, WellFormed;
    if Loses(s, a) {
      var tag: nat :| Copies(Next(s, a), Tagged(tag)) < Copies(s, Tagged(tag)) + Completes(a, tag);
      StepBalances(s, a, Tagged(tag));
    }
    if tag: nat :| Gained(s, a, Tagged(tag)) < Lost(s, a, Tagged(tag)) + Completes(a, tag) {
      StepBalances(s, a, Tagged(tag));
    }
  }

  /** A write loses nothing if it reaches a line of its own. */
  lemma ReachesTearsNothing(s: State, target: Option<nat>, part: Part, kind: Step -> bool)
    requires target.Some? ==> target.value < |s.nodes|
    ensures Reaches(s, target, part) ==> TornBy(s, target, part, kind) == 0
    ensures TornBy(s, target, part, kind) > 0 <==>
              Glued(s, target, part) && LastLine(s, target).Entry? && kind(LastLine(s, target).step)
  {
  }

  lemma WriteLosesExactly(s: State, a: Action)
    requires WellFormed(s) && a.Write? && Enabled(s, a)
    ensures Losing(s, a) <==> exists tag: nat :: Gained(s, a, Tagged(tag)) < Lost(s, a, Tagged(tag)) + Completes(a, tag)
  {
    TargetIs(s, a);
    var target := Target(s, a);
    forall tag: nat ensures
      Gained(s, a, Tagged(tag)) < Lost(s, a, Tagged(tag)) + Completes(a, tag) <==>
        (Glued(s, target, a.part) && LastLine(s, target).Entry? && LastLine(s, target).step.tag == tag)
        || (a.part.Whole? && tag == a.w && !Reaches(s, target, a.part))
    {
      ReachesTearsNothing(s, target, a.part, Tagged(tag));
    }
    hide Gained, Lost, Completes, Glued, Reaches, WellFormed;
    Exhibit(s, a, if Glued(s, target, a.part) && LastLine(s, target).Entry? then LastLine(s, target).step.tag else a.w);
  }

  lemma Exhibit(s: State, a: Action, tag: nat)
    requires WellFormed(s) && Enabled(s, a)
    ensures Gained(s, a, Tagged(tag)) < Lost(s, a, Tagged(tag)) + Completes(a, tag) ==>
            exists tag: nat :: Gained(s, a, Tagged(tag)) < Lost(s, a, Tagged(tag)) + Completes(a, tag)
  {
  }

  lemma FinishLosesExactly(s: State, a: Action)
    requires WellFormed(s) && a.Finish? && Enabled(s, a)
    ensures Losing(s, a) <==> exists tag: nat :: Gained(s, a, Tagged(tag)) < Lost(s, a, Tagged(tag)) + Completes(a, tag)
  {
    TargetIs(s, a);
    WorkIs(s, a.p);
    var target, line := Target(s, a), OnDisk(s, a.p);
    assert line.Entry? ==> line.step.tag == Putting(s, a).tag;
    forall tag: nat ensures
      Gained(s, a, Tagged(tag)) < Lost(s, a, Tagged(tag)) + Completes(a, tag) <==>
        (Glued(s, target, a.part) && LastLine(s, target).Entry? && LastLine(s, target).step.tag == tag)
        || (a.part.Whole? && line.Entry? && line.step.tag == tag && !Reaches(s, target, a.part))
    {
      ReachesTearsNothing(s, target, a.part, Tagged(tag));
    }
    hide Gained, Lost, Completes, Glued, Reaches, WellFormed;
    Exhibit(s, a, if Glued(s, target, a.part) && LastLine(s, target).Entry? then LastLine(s, target).step.tag
                  else if line.Entry? then line.step.tag else 0);
  }

  lemma UnlinkLosesExactly(s: State, a: Action)
    requires WellFormed(s) && a.Unlink? && Enabled(s, a)
    ensures Losing(s, a) <==> exists tag: nat :: Gained(s, a, Tagged(tag)) < Lost(s, a, Tagged(tag)) + Completes(a, tag)
  {
    WorkIs(s, a.p);
    var n := s.nodes[Working(s, a.p)];
    var late := n.text.lines[n.done..];
    forall tag: nat ensures Gained(s, a, Tagged(tag)) < Lost(s, a, Tagged(tag)) + Completes(a, tag) <==> Count(late, Tagged(tag)) > 0 {}
    hide Gained, Lost, Completes, WellFormed;
    if HasEntry(late) {
      var i :| 0 <= i < |late| && late[i].Entry?;
      CountMember(late, Tagged(late[i].step.tag));
      Exhibit(s, a, late[i].step.tag);
    }
    if tag: nat :| Count(late, Tagged(tag)) > 0 { CountMember(late, Tagged(tag)); }
  }

  lemma TryLosesNothing(s: State, a: Action)
    requires WellFormed(s) && a.Try? && Enabled(s, a)
    ensures forall kind :: Lost(s, a, kind) <= Gained(s, a, kind)
  {
    WorkIs(s, a.p);
  }

  /** Main theorem: which steps lose a copy of an enqueued step. */
  lemma StepLosesExactly(s: State, a: Action)
    requires WellFormed(s) && Enabled(s, a)
    ensures Loses(s, a) <==> Losing(s, a)
  {
    LosesIs(s, a);
    if a.Write? {
      WriteLosesExactly(s, a);
    } else if a.Finish? {
      FinishLosesExactly(s, a);
    } else if a.Unlink? {
      UnlinkLosesExactly(s, a);
    } else if a.Try? {
      TryLosesNothing(s, a);
    }
  }

  // ---------- Whole runs ----------

  function After(s: State, actions: seq<Action>): Option<State>
    decreases |actions|
  {
    if actions == [] then Some(s) else if !Enabled(s, actions[0]) then None else After(Next(s, actions[0]), actions[1..])
  }

  /** No step of the run is of the losing kinds. */
  predicate Safe(s: State, actions: seq<Action>)
    requires WellFormed(s)
    decreases |actions|
  {
    actions == [] ||
    (Enabled(s, actions[0]) && !Losing(s, actions[0]) && (NextKeepsWellFormed(s, actions[0]); Safe(Next(s, actions[0]), actions[1..])))
  }

  /** At no step of the run is a copy lost. */
  ghost predicate KeepsAll(s: State, actions: seq<Action>)
    decreases |actions|
  {
    actions == [] || (Enabled(s, actions[0]) && !Loses(s, actions[0]) && KeepsAll(Next(s, actions[0]), actions[1..]))
  }

  lemma {:induction false} SafeRunsKeepAll(s: State, actions: seq<Action>)
    requires WellFormed(s)
    ensures Safe(s, actions) <==> KeepsAll(s, actions)
    decreases |actions|
  {
    if actions != [] && Enabled(s, actions[0]) {
      NextKeepsWellFormed(s, actions[0]);
      StepLosesExactly(s, actions[0]);
      SafeRunsKeepAll(Next(s, actions[0]), actions[1..]);
    }
  }

  /** Every step whose enqueue call has returned has a copy. */
  ghost predicate AllKept(s: State) {
    forall w: nat | w < |s.writers| && s.writers[w].call.Returned? :: Copies(s, Tagged(w)) > 0
  }

  lemma CallsReturn(s: State, a: Action, w: nat)
    requires Enabled(s, a) && w < |Next(s, a).writers| && Next(s, a).writers[w].call.Returned?
    ensures (w < |s.writers| && s.writers[w].call.Returned?) || a == Write(w, Whole)
  {
  }

  lemma NextKeepsAll(s: State, a: Action)
    requires AllKept(s) && Enabled(s, a) && !Loses(s, a)
    ensures AllKept(Next(s, a))
  {
    hide Copies, Next, Enabled;
    var t := Next(s, a);
    forall w: nat | w < |t.writers| && t.writers[w].call.Returned? ensures Copies(t, Tagged(w)) > 0 {
      CallsReturn(s, a, w);
      assert Copies(t, Tagged(w)) >= Copies(s, Tagged(w)) + Completes(a, w);
    }
  }

  lemma {:induction false} RunKeepsAll(s: State, actions: seq<Action>)
    requires AllKept(s) && KeepsAll(s, actions)
    ensures After(s, actions).Some? && AllKept(After(s, actions).value)
    decreases |actions|
  {
    if actions != [] {
      NextKeepsAll(s, actions[0]);
      RunKeepsAll(Next(s, actions[0]), actions[1..]);
    }
  }

  /** A copy of the step is in the queue or a draining file, in the dead-letter file, or was applied. */
  ghost predicate Somewhere(s: State, tag: nat) {
    || Holds(s.applied, tag) || Holds(s.dead.lines, tag)
    || exists k | 0 <= k < |s.nodes| :: !s.nodes[k].name.Gone? && Holds(s.nodes[k].text.lines, tag)
  }

  predicate Holds(lines: seq<Line>, tag: nat) { exists i :: 0 <= i < |lines| && lines[i].Entry? && lines[i].step.tag == tag }

  lemma {:induction false} AllLeftMember(nodes: seq<Node>, kind: Step -> bool) returns (i: nat)
    requires AllLeft(nodes, kind) > 0
    ensures i < |nodes| && Left(nodes[i], kind) > 0
  {
    var k := |nodes| - 1;
    if Left(nodes[k], kind) > 0 {
      i := k;
    } else {
      i := AllLeftMember(nodes[..k], kind);
    }
  }

  lemma KeptIsSomewhere(s: State, tag: nat)
    requires Copies(s, Tagged(tag)) > 0
    ensures Somewhere(s, tag)
  {
    CountMember(s.applied, Tagged(tag));
    CountMember(s.dead.lines, Tagged(tag));
    if AllLeft(s.nodes, Tagged(tag)) > 0 {
      var k := AllLeftMember(s.nodes, Tagged(tag));
      var n := s.nodes[k];
      CountMember(n.text.lines[n.done..], Tagged(tag));
      var i :| 0 <= i < |n.text.lines[n.done..]| && n.text.lines[n.done..][i].Entry? && n.text.lines[n.done..][i].step.tag == tag;
      assert n.text.lines[n.done + i].step.tag == tag;
      assert Holds(n.text.lines, tag);
    }
  }

  lemma InitIsWellFormed()
    ensures WellFormed(Init)
  {
  }

  /** Main theorem: however drains, aborts, crashes and cut writes interleave, no step of a returned enqueue call
      is lost in a run without losing steps; and a run in which no copy is lost has none. */
  lemma NothingIsLost(actions: seq<Action>)
    ensures WellFormed(Init) && (Safe(Init, actions) <==> KeepsAll(Init, actions))
    ensures Safe(Init, actions) ==> After(Init, actions).Some?
    ensures Safe(Init, actions) ==>
              var t := After(Init, actions).value;
              forall w: nat | w < |t.writers| && t.writers[w].call.Returned? :: Somewhere(t, w)
  {
    InitIsWellFormed();
    SafeRunsKeepAll(Init, actions);
    hide Safe;
    if KeepsAll(Init, actions) {
      RunKeepsAll(Init, actions);
      var t := After(Init, actions).value;
      hide After, KeepsAll;
      forall w: nat | w < |t.writers| && t.writers[w].call.Returned? ensures Somewhere(t, w) {
        KeptIsSomewhere(t, w);
      }
    }
  }

  // ---------- Exactly once ----------

  predicate Expected(s: State, step: Step) {
    step.tag < |s.writers| && s.writers[step.tag].call.Returned? && step.attempts == s.writers[step.tag].failures
  }

  /** The only copies are one of each step whose enqueue call has returned, and it carries the number of its
      failures. */
  ghost predicate Exact(s: State) {
    && (forall step :: Copies(s, Is(step)) == If(Expected(s, step)))
    && (forall w | 0 <= w < |s.writers| ::
          s.writers[w].failures <= MAX_ATTEMPTS && (!s.writers[w].call.Returned? ==> s.writers[w].failures == 0))
  }

  /** A line without its newline is not a step. */
  predicate TidyText(t: Text) { Glues(t) ==> t.lines[|t.lines| - 1].Torn? }

  ghost predicate Tidy(s: State) {
    TidyText(s.dead) && forall k | 0 <= k < |s.nodes| && !s.nodes[k].name.Gone? :: TidyText(s.nodes[k].text)
  }

  /** What a drain has read is what is there. */
  ghost predicate Agree(s: State) {
    forall p | 0 <= p < |s.drainers| :: AgreeAt(s.nodes, s.drainers[p])
  }

  predicate AgreeAt(nodes: seq<Node>, d: Drainer) {
    d.working.Some? && d.read.Some? && d.working.value < |nodes| ==>
      var lines := nodes[d.working.value].text.lines;
      forall i | 0 <= i < |d.read.value| && i < |lines| :: lines[i] == d.read.value[i]
  }

  /** Only steps that failed MAX_ATTEMPTS times are given up; all others may still be tried. */
  ghost predicate Bounded(s: State) {
    && (forall k | 0 <= k < |s.nodes| :: Retryable(s.nodes[k].text.lines))
    && (forall p | 0 <= p < |s.drainers| && s.drainers[p].read.Some? :: Retryable(s.drainers[p].read.value))
    && (forall i | 0 <= i < |s.dead.lines| && s.dead.lines[i].Entry? :: s.dead.lines[i].step.attempts == MAX_ATTEMPTS)
  }

  predicate Retryable(lines: seq<Line>) { forall i | 0 <= i < |lines| && lines[i].Entry? :: lines[i].step.attempts < MAX_ATTEMPTS }

  ghost predicate Orderly(s: State) { WellFormed(s) && Bounded(s) && Tidy(s) && Agree(s) && Exact(s) }

  /** Leaves a second copy: all of a line but its newline gets into a file, and the append fails; or a drain ends
      with a step behind it in the file that it had claimed. */
  predicate Doubling(s: State, a: Action)
    requires WellFormed(s) && Enabled(s, a)
  {
    match a
    case Write(_, part) => TargetIs(s, a); part.Bare? && Reaches(s, Target(s, a), part)
    case Finish(_, part) => TargetIs(s, a); part.Bare? && Reaches(s, Target(s, a), part)
    case Abort(p) => Behind(s, p)
    case Crash(p) => Behind(s, p)
    case _ => false
  }

  /** The drain has disposed of a step of the file that it works on. */
  predicate Behind(s: State, p: Pid)
    requires p < |s.drainers|
  {
    && s.drainers[p].working.Some? && Working(s, p) < |s.nodes|
    && s.nodes[Working(s, p)].done <= |s.nodes[Working(s, p)].text.lines|
    && HasEntry(s.nodes[Working(s, p)].text.lines[..s.nodes[Working(s, p)].done])
  }

  // What is kept by every step

  lemma AppendRetryable(t: Text, step: Step, part: Part)
    requires Retryable(t.lines) && step.attempts < MAX_ATTEMPTS
    ensures Retryable(Append(t, Entry(step), part).lines)
  {
  }

  lemma WroteKeepsBounded(s: State, target: Option<nat>, step: Step, part: Part)
    requires Bounded(s) && (target.None? ==> step.attempts == MAX_ATTEMPTS) && (target.Some? ==> step.attempts < MAX_ATTEMPTS)
    ensures Bounded(Wrote(s, target, step, part))
  {
    if target.Some? && target.value < |s.nodes| { AppendRetryable(s.nodes[target.value].text, step, part); }
  }

  lemma PutIsBounded(s: State, p: Pid)
    requires WellFormed(s) && Bounded(s) && Works(s, p) && s.drainers[p].put.Some?
    ensures var put := s.drainers[p].put.value;
            && (put.node.None? ==> put.step.attempts == MAX_ATTEMPTS)
            && (put.node.Some? ==> put.step.attempts < MAX_ATTEMPTS)
  {
    WorkIs(s, p);
  }

  lemma SameTexts(s: State, t: State)
    requires Bounded(s) && t.dead == s.dead && |s.nodes| <= |t.nodes|
    requires forall k | 0 <= k < |s.nodes| :: t.nodes[k].text == s.nodes[k].text
    requires forall k | |s.nodes| <= k < |t.nodes| :: t.nodes[k].text == EMPTY
    requires forall p | 0 <= p < |t.drainers| && t.drainers[p].read.Some? ::
               (p < |s.drainers| && t.drainers[p].read == s.drainers[p].read)
               || exists k :: 0 <= k < |s.nodes| && t.drainers[p].read.value == s.nodes[k].text.lines
    ensures Bounded(t)
  {
  }

  lemma FinishKeepsBounded(s: State, a: Action)
    requires WellFormed(s) && Bounded(s) && a.Finish? && Enabled(s, a)
    ensures Bounded(Next(s, a))
  {
    PutIsBounded(s, a.p);
    hide WellFormed, Bounded;
    var put := s.drainers[a.p].put.value;
    var u := Wrote(s, put.node, put.step, a.part);
    WroteKeepsBounded(s, put.node, put.step, a.part);
    SameTexts(u, Next(s, a));
  }

  lemma WriteKeepsBounded(s: State, a: Action)
    requires WellFormed(s) && Bounded(s) && a.Write? && Enabled(s, a)
    ensures Bounded(Next(s, a))
  {
    hide WellFormed, Bounded;
    WroteKeepsBounded(s, Some(s.writers[a.w].node), Step(a.w, 0), a.part);
    SameTexts(Wrote(s, Some(s.writers[a.w].node), Step(a.w, 0), a.part), Next(s, a));
  }

  lemma OthersKeepBounded(s: State, a: Action)
    requires WellFormed(s) && Bounded(s) && !a.Write? && !a.Finish? && Enabled(s, a)
    ensures Bounded(Next(s, a))
  {
    hide WellFormed, Bounded;
    SameTexts(s, Next(s, a));
  }

  lemma NextKeepsBounded(s: State, a: Action)
    requires WellFormed(s) && Bounded(s) && Enabled(s, a)
    ensures Bounded(Next(s, a))
  {
    hide WellFormed, Bounded, Next;
    if a.Write? { WriteKeepsBounded(s, a); } else if a.Finish? { FinishKeepsBounded(s, a); } else { OthersKeepBounded(s, a); }
  }

  // What an orderly state is left with

  /** In a tidy state a write that is glued to something tears nothing. */
  lemma TidyTearsNothing(s: State, a: Action, kind: Step -> bool)
    requires WellFormed(s) && Tidy(s) && (a.Write? || a.Finish?) && Enabled(s, a)
    ensures var target := Target(s, a);
            && (target.Some? ==> target.value < |s.nodes|)
            && TornBy(s, target, a.part, kind) == 0
            && (Linked(s, target) ==> TidyText(TextAt(s, target)))
  {
    TargetIs(s, a);
  }

  lemma AgreedLine(s: State, p: Pid)
    requires WellFormed(s) && Agree(s) && Works(s, p)
    ensures OnDisk(s, p) == InMemory(s, p) || s.nodes[Working(s, p)].done >= |s.drainers[p].read.value|
  {
    WorkIs(s, p);
    assert AgreeAt(s.nodes, s.drainers[p]);
  }

  lemma LinesOf(lines: seq<Line>, kind: Step -> bool)
    requires !HasEntry(lines)
    ensures Count(lines, kind) == 0
  {
    CountMember(lines, kind);
  }

  /** A step that neither loses nor doubles keeps every count where it is expected. */
  lemma CountsStay(s: State, a: Action, step: Step)
    requires Orderly(s) && Enabled(s, a) && !Losing(s, a) && !Doubling(s, a)
    ensures Copies(Next(s, a), Is(step)) == If(Expected(Next(s, a), step))
  {
    StepBalances(s, a, Is(step));
    assert Copies(s, Is(step)) == If(Expected(s, step));
    hide Copies, Exact, Bounded;
    if a.Write? {
      FailuresAre(s, a.w);
      WriteCounts(s, a, step);
    } else if a.Finish? {
      FinishCounts(s, a, step);
    } else if a.Unlink? {
      WorkIs(s, a.p);
      LinesOf(s.nodes[Working(s, a.p)].text.lines[s.nodes[Working(s, a.p)].done..], Is(step));
    } else if a.Abort? || a.Crash? {
      EndCounts(s, a.p, step);
    } else if a.Try? {
      AgreedLine(s, a.p);
    }
  }

  lemma WriteCounts(s: State, a: Action, step: Step)
    requires WellFormed(s) && Tidy(s) && a.Write? && Enabled(s, a) && !Losing(s, a) && !Doubling(s, a)
    requires s.writers[a.w].failures == 0
    ensures If(Expected(s, step)) + Gained(s, a, Is(step)) == If(Expected(Next(s, a), step)) + Lost(s, a, Is(step))
  {
    TidyTearsNothing(s, a, Is(step));
    hide WellFormed, Tidy;
    assert Next(s, a).writers == s.writers[a.w := s.writers[a.w].(call := if a.part.Whole? then Returned else CutShort)];
  }

  lemma FailuresAre(s: State, w: nat)
    requires Exact(s) && w < |s.writers|
    ensures s.writers[w].failures <= MAX_ATTEMPTS && (!s.writers[w].call.Returned? ==> s.writers[w].failures == 0)
  {
  }

  lemma EndCounts(s: State, p: Pid, step: Step)
    requires WellFormed(s) && p < |s.drainers| && !Behind(s, p)
    ensures Before(s, p, Is(step)) == 0
  {
    if s.drainers[p].working.Some? {
      var n := s.nodes[Working(s, p)];
      Own(s, p);
      LinesOf(n.text.lines[..n.done], Is(step));
    }
  }

  /** The line a drain has come to is expected where it stands. */
  lemma CurrentIsExpected(s: State, p: Pid)
    requires Orderly(s) && Works(s, p) && s.drainers[p].put.Some?
    ensures OnDisk(s, p) == InMemory(s, p) && OnDisk(s, p).Entry? && Expected(s, OnDisk(s, p).step)
    ensures OnDisk(s, p).step.attempts < MAX_ATTEMPTS
  {
    WorkIs(s, p);
    AgreedLine(s, p);
    var k := Working(s, p);
    var n, current := s.nodes[k], OnDisk(s, p).step;
    assert Retryable(s.drainers[p].read.value);
    CountFrom(n.text.lines, n.done, Is(current));
    AllLeftAtLeast(s.nodes, k, Is(current));
    assert Copies(s, Is(current)) >= 1;
  }

  lemma FinishCounts(s: State, a: Action, step: Step)
    requires Orderly(s) && a.Finish? && Enabled(s, a) && !Losing(s, a) && !Doubling(s, a)
    ensures If(Expected(s, step)) + Gained(s, a, Is(step)) == If(Expected(Next(s, a), step)) + Lost(s, a, Is(step))
  {
    WorkIs(s, a.p);
    CurrentIsExpected(s, a.p);
    TidyTearsNothing(s, a, Is(step));
    hide WellFormed, Tidy, Agree, Exact, Bounded;
    assert Next(s, a).writers == if a.part.Whole? then FailureCounted(s, a.p) else s.writers;
  }

  lemma FailuresStay(s: State, a: Action)
    requires Orderly(s) && Enabled(s, a)
    ensures var t := Next(s, a);
            forall w | 0 <= w < |t.writers| ::
              t.writers[w].failures <= MAX_ATTEMPTS && (!t.writers[w].call.Returned? ==> t.writers[w].failures == 0)
  {
    if a.Finish? {
      WorkIs(s, a.p);
      CurrentIsExpected(s, a.p);
      hide WellFormed, Tidy, Agree, Bounded;
    } else {
      hide WellFormed, Tidy, Agree, Bounded;
    }
  }

  lemma AppendTidy(t: Text, step: Step, part: Part)
    requires TidyText(t) && !(part.Bare? && Lands(t, part))
    ensures TidyText(Append(t, Entry(step), part)) && Continues(t.lines, Append(t, Entry(step), part).lines)
  {
  }

  /** A write adds to what is there. */
  lemma WriteAdds(s: State, a: Action)
    requires WellFormed(s) && Tidy(s) && (a.Write? || a.Finish?) && Enabled(s, a) && !Doubling(s, a)
    ensures var t := Next(s, a);
            && |t.nodes| == |s.nodes|
            && TidyText(t.dead)
            && (forall k | 0 <= k < |s.nodes| :: t.nodes[k].name == s.nodes[k].name)
            && (forall k | 0 <= k < |s.nodes| && !s.nodes[k].name.Gone? ::
                  TidyText(t.nodes[k].text) && Continues(s.nodes[k].text.lines, t.nodes[k].text.lines))
  {
    TidyTearsNothing(s, a, Is(Step(0, 0)));
    var target, step := Target(s, a), Putting(s, a);
    if Linked(s, target) { AppendTidy(TextAt(s, target), step, a.part); }
    hide WellFormed, Append, TidyText;
    assert forall k | 0 <= k < |s.nodes| && !s.nodes[k].name.Gone? :: TidyText(s.nodes[k].text);
    assert TidyText(s.dead);
  }

  predicate Continues(a: seq<Line>, b: seq<Line>) { |a| <= |b| && forall i | 0 <= i < |a| :: b[i] == a[i] }

  lemma WriteKeepsTidy(s: State, a: Action)
    requires Orderly(s) && (a.Write? || a.Finish?) && Enabled(s, a) && !Doubling(s, a)
    ensures Tidy(Next(s, a)) && Agree(Next(s, a))
  {
    WriteAdds(s, a);
    var t := Next(s, a);
    hide Bounded, Exact, TidyText;
    forall p | 0 <= p < |t.drainers| ensures AgreeAt(t.nodes, t.drainers[p]) {
      assert AgreeAt(s.nodes, s.drainers[p]);
      Own(s, p);
      SameReads(s, a, p);
    }
  }

  lemma SameReads(s: State, a: Action, p: Pid)
    requires (a.Write? || a.Finish?) && Enabled(s, a) && p < |Next(s, a).drainers|
    ensures p < |s.drainers|
    ensures Next(s, a).drainers[p].working == s.drainers[p].working && Next(s, a).drainers[p].read == s.drainers[p].read
  {
  }

  lemma OthersKeepTidy(s: State, a: Action)
    requires Orderly(s) && !a.Write? && !a.Finish? && Enabled(s, a)
    ensures Tidy(Next(s, a)) && Agree(Next(s, a))
  {
    var t := Next(s, a);
    hide Bounded, Exact, Copies;
    forall k | 0 <= k < |t.nodes| && !t.nodes[k].name.Gone? ensures TidyText(t.nodes[k].text) {
      if k < |s.nodes| { assert t.nodes[k].text == s.nodes[k].text && (t.nodes[k].name != s.nodes[k].name ==> !s.nodes[k].name.Gone?) by { SameText(s, a, k); } }
      else { assert t.nodes[k].text == EMPTY; }
    }
    forall p | 0 <= p < |t.drainers| ensures AgreeAt(t.nodes, t.drainers[p]) {
      if p < |s.drainers| { AgreeStays(s, a, p); }
    }
  }

  lemma SameText(s: State, a: Action, k: nat)
    requires WellFormed(s) && !a.Write? && !a.Finish? && Enabled(s, a) && k < |s.nodes|
    ensures k < |Next(s, a).nodes| && Next(s, a).nodes[k].text == s.nodes[k].text
    ensures s.nodes[k].name.Gone? ==> Next(s, a).nodes[k].name.Gone?
  {
  }

  lemma AgreeStays(s: State, a: Action, p: Pid)
    requires WellFormed(s) && Agree(s) && !a.Write? && !a.Finish? && Enabled(s, a) && p < |s.drainers|
    ensures p < |Next(s, a).drainers| && AgreeAt(Next(s, a).nodes, Next(s, a).drainers[p])
  {
    assert AgreeAt(s.nodes, s.drainers[p]);
    Own(s, p);
    hide Agree;
    var t := Next(s, a);
    if s.drainers[p].working.Some? { SameText(s, a, Working(s, p)); }
    hide WellFormed, WorkerOk, NodeOk;
    ReadsFrom(s, a, p);
  }

  lemma ReadsFrom(s: State, a: Action, p: Pid)
    requires !a.Write? && !a.Finish? && Enabled(s, a) && p < |s.drainers|
    ensures p < |Next(s, a).drainers|
    ensures var d, e := s.drainers[p], Next(s, a).drainers[p];
            || (e.working == d.working && e.read == d.read)
            || (e.working.Some? && e.read == d.read && d.working.None?)
            || e.working.None?
            || (e.working == d.working && a == Read(p) && e.read == Some(s.nodes[d.working.value].text.lines))
  {
  }

  lemma KeepsOrderly(s: State, a: Action)
    requires Orderly(s) && Enabled(s, a) && !Losing(s, a) && !Doubling(s, a)
    ensures Orderly(Next(s, a))
  {
    NextKeepsWellFormed(s, a);
    NextKeepsBounded(s, a);
    FailuresStay(s, a);
    forall step ensures Copies(Next(s, a), Is(step)) == If(Expected(Next(s, a), step)) { CountsStay(s, a, step); }
    if a.Write? || a.Finish? { WriteKeepsTidy(s, a); } else { OthersKeepTidy(s, a); }
  }

  lemma LosingBreaksExact(s: State, a: Action)
    requires Orderly(s) && Enabled(s, a) && Losing(s, a)
    ensures !Exact(Next(s, a))
  {
    if a.Write? {
      WriteBreaks(s, a);
    } else if a.Finish? {
      FinishBreaks(s, a);
    } else {
      UnlinkBreaks(s, a);
    }
  }

  lemma CountedWrong(s: State, step: Step)
    requires Copies(s, Is(step)) != If(Expected(s, step))
    ensures !Exact(s)
  {
  }

  lemma ExactAt(s: State, step: Step)
    requires Exact(s)
    ensures Copies(s, Is(step)) == If(Expected(s, step))
  {
  }

  lemma WriteBreaks(s: State, a: Action)
    requires Orderly(s) && a.Write? && Enabled(s, a) && (Losing(s, a) || Doubling(s, a))
    ensures !Exact(Next(s, a))
  {
    var step := Step(a.w, 0);
    StepBalances(s, a, Is(step));
    TidyTearsNothing(s, a, Is(step));
    TidyTearsNothing(s, a, (x: Step) => true);
    FailuresAre(s, a.w);
    ExactAt(s, step);
    hide WellFormed, Exact, Tidy, Bounded, Agree, Copies;
    CountedWrong(Next(s, a), step);
  }

  lemma FinishBreaks(s: State, a: Action)
    requires Orderly(s) && a.Finish? && Enabled(s, a) && (Losing(s, a) || Doubling(s, a))
    ensures !Exact(Next(s, a))
  {
    var step := Putting(s, a);
    WorkIs(s, a.p);
    CurrentIsExpected(s, a.p);
    StepBalances(s, a, Is(step));
    TidyTearsNothing(s, a, Is(step));
    TidyTearsNothing(s, a, (x: Step) => true);
    ExactAt(s, step);
    hide WellFormed, Exact, Tidy, Bounded, Agree, Copies;
    assert Next(s, a).writers == if a.part.Whole? then FailureCounted(s, a.p) else s.writers;
    CountedWrong(Next(s, a), step);
  }

  lemma FirstEntry(lines: seq<Line>) returns (step: Step)
    requires HasEntry(lines)
    ensures Count(lines, Is(step)) > 0
  {
    var i :| 0 <= i < |lines| && lines[i].Entry?;
    step := lines[i].step;
    CountMember(lines, Is(step));
  }

  lemma UnlinkBreaks(s: State, a: Action)
    requires Orderly(s) && a.Unlink? && Enabled(s, a) && Losing(s, a)
    ensures !Exact(Next(s, a))
  {
    WorkIs(s, a.p);
    var n := s.nodes[Working(s, a.p)];
    var step := FirstEntry(n.text.lines[n.done..]);
    StepBalances(s, a, Is(step));
    ExactAt(s, step);
    hide WellFormed, Exact, Tidy, Bounded, Agree, Copies;
    CountedWrong(Next(s, a), step);
  }

  lemma EndBreaks(s: State, a: Action)
    requires Orderly(s) && (a.Abort? || a.Crash?) && Enabled(s, a) && Behind(s, a.p)
    ensures !Exact(Next(s, a))
  {
    var n := s.nodes[Working(s, a.p)];
    var step := FirstEntry(n.text.lines[..n.done]);
    StepBalances(s, a, Is(step));
    ExactAt(s, step);
    hide WellFormed, Exact, Tidy, Bounded, Agree, Copies;
    CountedWrong(Next(s, a), step);
  }

  /** Main theorem: where every returned enqueue call has its step exactly once, a step keeps it so if and only if
      it neither loses nor doubles one. */
  lemma StepStaysExactExactly(s: State, a: Action)
    requires Orderly(s) && Enabled(s, a)
    ensures Exact(Next(s, a)) <==> !Losing(s, a) && !Doubling(s, a)
    ensures Exact(Next(s, a)) ==> Orderly(Next(s, a))
  {
    if !Losing(s, a) && !Doubling(s, a) {
      KeepsOrderly(s, a);
    } else if Losing(s, a) {
      LosingBreaksExact(s, a);
    } else if a.Write? {
      WriteBreaks(s, a);
    } else if a.Finish? {
      FinishBreaks(s, a);
    } else {
      EndBreaks(s, a);
    }
  }

  /** In particular a drain may die or throw at any time but when it has disposed of a step of the file that it
      works on. */
  lemma EndingKeepsExactExactly(s: State, p: Pid)
    requires Orderly(s) && Alive(s, p)
    ensures Exact(Next(s, Crash(p))) <==> !Behind(s, p)
    ensures Exact(Next(s, Abort(p))) <==> !Behind(s, p)
  {
    StepStaysExactExactly(s, Crash(p));
    StepStaysExactExactly(s, Abort(p));
  }

  predicate Careful(s: State, actions: seq<Action>)
    requires WellFormed(s)
    decreases |actions|
  {
    actions == [] ||
    (Enabled(s, actions[0]) && !Losing(s, actions[0]) && !Doubling(s, actions[0])
     && (NextKeepsWellFormed(s, actions[0]); Careful(Next(s, actions[0]), actions[1..])))
  }

  ghost predicate StaysExact(s: State, actions: seq<Action>)
    decreases |actions|
  {
    actions == [] || (Enabled(s, actions[0]) && Exact(Next(s, actions[0])) && StaysExact(Next(s, actions[0]), actions[1..]))
  }

  lemma {:induction false} CarefulRunsStayExact(s: State, actions: seq<Action>)
    requires Orderly(s)
    ensures Careful(s, actions) <==> StaysExact(s, actions)
    ensures Careful(s, actions) ==> After(s, actions).Some? && Orderly(After(s, actions).value)
    decreases |actions|
  {
    hide Exact, Bounded, Tidy, Agree, Losing, Doubling, Next, Enabled;
    if actions != [] && Enabled(s, actions[0]) {
      NextKeepsWellFormed(s, actions[0]);
      StepStaysExactExactly(s, actions[0]);
      if Orderly(Next(s, actions[0])) { CarefulRunsStayExact(Next(s, actions[0]), actions[1..]); }
    }
  }

  lemma InitIsOrderly()
    ensures Orderly(Init)
  {
  }

  /** All through a run every returned enqueue call has its step exactly once, waiting, applied or dead-lettered
      after five failures, if and only if no step of the run loses or doubles. */
  lemma ExactlyOnceExactly(actions: seq<Action>)
    ensures WellFormed(Init) && (Careful(Init, actions) <==> StaysExact(Init, actions))
    ensures Careful(Init, actions) ==> After(Init, actions).Some? && Exact(After(Init, actions).value)
                                       && Bounded(After(Init, actions).value)
  {
    InitIsOrderly();
    CarefulRunsStayExact(Init, actions);
  }

  // ---------- Runs that lose, and one that doubles ----------

  lemma Unfold(s: State, actions: seq<Action>, t: State)
    requires actions != [] && Leads(s, actions[0], t)
    ensures After(s, actions) == After(t, actions[1..])
  {
  }

  predicate Leads(s: State, a: Action, t: State) { Enabled(s, a) && Next(s, a) == t }

  lemma {:induction false} AfterBoth(s: State, a: seq<Action>, b: seq<Action>)
    requires After(s, a).Some?
    ensures After(s, a + b) == After(After(s, a).value, b)
    decreases |a|
  {
    if a == [] {
      assert a + b == b;
    } else {
      assert (a + b)[1..] == a[1..] + b;
      AfterBoth(Next(s, a[0]), a[1..], b);
    }
  }

  lemma Singles<T>(a: T, b: T, c: T)
    ensures [a][0 := b] == [b] && [a, c][0 := b] == [b, c] && [c, a][1 := b] == [c, b]
    ensures [] + [a] == [a] && [a] + [b] == [a, b] && [a][1..] == []
  {
  }

  const IDLE := Drainer(true, [], None, None, None, false)
  const LINE := Entry(Step(0, 0))
  const FULL := Text([LINE], true)

  const OPENED := State(Some(0), [Node(EMPTY, Queued, 0)], EMPTY, [], [], [Writer(0, Opened, 0)])

  lemma Opens()
    ensures Leads(Init, Open, OPENED)
  {
  }

  /** A call dies while it writes; the next call returns, and its step is on the dead call's line. */
  lemma GluedStepIsLost()
    ensures var t := After(Init, [Open, Write(0, Piece), Open, Write(1, Whole)]);
            t.Some? && t.value.writers[1].call.Returned? && !Somewhere(t.value, 1)
  {
    var actions := [Open, Write(0, Piece), Open, Write(1, Whole)];
    var cut, done := Writer(0, CutShort, 0), Writer(0, Returned, 0);
    var s2 := OPENED.(nodes := [Node(Text([Torn], false), Queued, 0)], writers := [cut]);
    var s3 := s2.(writers := [cut, Writer(0, Opened, 0)]);
    var s4 := s2.(nodes := [Node(Text([Torn], true), Queued, 0)], writers := [cut, done]);
    Opens();
    WritesAlone(OPENED, s2, Piece, Text([Torn], false));
    assert Leads(s2, Open, s3);
    WritesAlone(s3, s4, Whole, Text([Torn], true));
    hide After, Leads;
    Unfold(Init, actions, OPENED);
    Unfold(OPENED, actions[1..], s2);
    Unfold(s2, actions[2..], s3);
    Unfold(s3, actions[3..], s4);
    assert After(s4, actions[4..]) == Some(s4) by { Ends(s4); }
  }

  lemma Ends(s: State)
    ensures After(s, []) == Some(s)
  {
  }

  /** The last call writes to the one file there is. */
  lemma WritesAlone(s: State, t: State, part: Part, text: Text)
    requires |s.nodes| == 1 && |s.writers| > 0 && s.writers[|s.writers| - 1] == Writer(0, Opened, 0)
    requires text == Append(s.nodes[0].text, Entry(Step(|s.writers| - 1, 0)), part)
    requires t == s.(nodes := [s.nodes[0].(text := text)], writers := t.writers)
    requires t.writers == s.writers[|s.writers| - 1 := Writer(0, if part.Whole? then Returned else CutShort, 0)]
    ensures Leads(s, Write(|s.writers| - 1, part), t)
  {
    Singles(s.nodes[0], t.nodes[0], s.nodes[0]);
    assert s.nodes == [s.nodes[0]];
  }

  // One call, two drains; the first has read the call's step.

  const QUEUED := OPENED.(nodes := [Node(FULL, Queued, 0)], writers := [Writer(0, Returned, 0)])
  const ONE_DRAIN := QUEUED.(drainers := [IDLE])
  const TWO_DRAINS := QUEUED.(drainers := [IDLE, IDLE])
  const LISTED := QUEUED.(drainers := [IDLE.(sources := [Queue]), IDLE])
  const CLAIMED := QUEUED.(queue := None, nodes := [Node(FULL, Draining(0), 0)], drainers := [IDLE.(working := Some(0)), IDLE])
  const READER := IDLE.(working := Some(0), read := Some([LINE]))
  const READING := CLAIMED.(drainers := [READER, IDLE])

  const TO_READING := [Open, Write(0, Whole), Spawn, Spawn, List(0, [Queue]), Claim(0), Read(0)]

  lemma Lists(s: State, t: State, p: Pid)
    requires Alive(s, p) && s.drainers[p] == IDLE && s.queue.Some?
    requires t == s.(drainers := s.drainers[p := IDLE.(sources := [Queue])])
    ensures Leads(s, List(p, [Queue]), t)
  {
  }

  lemma Claims(s: State, t: State, p: Pid)
    requires Alive(s, p) && s.drainers[p] == IDLE.(sources := [Queue]) && s.queue.Some? && s.queue.value < |s.nodes|
    requires var k := s.queue.value;
             t == s.(queue := None, nodes := s.nodes[k := s.nodes[k].(name := Draining(p))],
                     drainers := s.drainers[p := IDLE.(working := Some(k))])
    ensures Leads(s, Claim(p), t)
  {
    Singles(Queue, Queue, Queue);
  }

  lemma Reads(s: State, t: State, p: Pid, k: nat)
    requires Alive(s, p) && s.drainers[p] == IDLE.(working := Some(k)) && k < |s.nodes|
    requires t == s.(drainers := s.drainers[p := IDLE.(working := Some(k), read := Some(s.nodes[k].text.lines))])
    ensures Leads(s, Read(p), t)
  {
  }

  lemma ReadingIsReached()
    ensures After(Init, TO_READING) == Some(READING)
  {
    var actions := TO_READING;
    Opens();
    assert Append(EMPTY, LINE, Whole) == FULL;
    Singles(Writer(0, Opened, 0), Writer(0, Returned, 0), Writer(0, Opened, 0));
    WritesAlone(OPENED, QUEUED, Whole, FULL);
    assert Leads(QUEUED, Spawn, ONE_DRAIN) && Leads(ONE_DRAIN, Spawn, TWO_DRAINS);
    hide After, Leads;
    Singles(IDLE, IDLE.(sources := [Queue]), IDLE);
    Singles(IDLE.(sources := [Queue]), IDLE.(working := Some(0)), IDLE);
    Singles(IDLE.(working := Some(0)), READER, IDLE);
    Singles(Node(FULL, Queued, 0), Node(FULL, Draining(0), 0), Node(FULL, Queued, 0));
    Lists(TWO_DRAINS, LISTED, 0);
    Claims(LISTED, CLAIMED, 0);
    Reads(CLAIMED, READING, 0, 0);
    Unfold(Init, actions, OPENED);
    Unfold(OPENED, actions[1..], QUEUED);
    Unfold(QUEUED, actions[2..], ONE_DRAIN);
    Unfold(ONE_DRAIN, actions[3..], TWO_DRAINS);
    Unfold(TWO_DRAINS, actions[4..], LISTED);
    Unfold(LISTED, actions[5..], CLAIMED);
    Unfold(CLAIMED, actions[6..], READING);
    Ends(READING);
  }

  const APPLIED := READING.(nodes := [Node(FULL, Draining(0), 1)], applied := [LINE])
  const DEAD := APPLIED.(nodes := [Node(FULL, Draining(0), 0)], drainers := [IDLE.(alive := false), IDLE])

  /** A process that dies between applying a step and unlinking its file leaves it to be applied again. */
  lemma CrashReplaysAppliedStep()
    ensures var t := After(Init, TO_READING + [Try(0, Applied), Crash(0)]);
            t.Some? && !Exact(t.value)
  {
    var actions := [Try(0, Applied), Crash(0)];
    ReadingIsReached();
    AppliesAndDies();
    hide After, Leads;
    AfterBoth(Init, TO_READING, actions);
    Unfold(READING, actions, APPLIED);
    Unfold(APPLIED, actions[1..], DEAD);
    Ends(DEAD);
    CountedTwice(DEAD, LINE.step);
  }

  lemma AppliesAndDies()
    ensures Leads(READING, Try(0, Applied), APPLIED) && Leads(APPLIED, Crash(0), DEAD)
  {
    Singles(Node(FULL, Draining(0), 0), Node(FULL, Draining(0), 1), OWN);
    Singles(Node(FULL, Draining(0), 1), Node(FULL, Draining(0), 0), OWN);
    Singles(READER, IDLE.(alive := false), IDLE);
    Singles(READER, IDLE, IDLE);
    Singles(IDLE, IDLE.(alive := false), IDLE);
    Singles(LINE, LINE, LINE);
    assert Leads(READING, Try(0, Applied), APPLIED);
    assert Leads(APPLIED, Crash(0), DEAD);
  }

  lemma CountedTwice(s: State, step: Step)
    requires s.applied == [Entry(step)] && s.nodes == [Node(Text([Entry(step)], true), Draining(0), 0)]
    ensures !Exact(s)
  {
    var line := Entry(step);
    CountSnoc([], line, Is(step));
    assert [] + [line] == [line] && [line][0..] == [line];
    AllLeftAtLeast(s.nodes, 0, Is(step));
    assert Copies(s, Is(step)) >= 2;
  }

  const OWN := Node(FULL, Draining(0), 0)
  const PUTTER := READER.(put := Some(Put(Some(1), Step(0, 1), true)))
  const PUTTING := READING.(queue := Some(1), nodes := [OWN, Node(EMPTY, Queued, 0)], drainers := [PUTTER, IDLE])
  const LISTED_TOO := PUTTING.(drainers := [PUTTER, IDLE.(sources := [Queue])])
  const TAKEN := PUTTING.(queue := None, nodes := [OWN, Node(EMPTY, Draining(1), 0)], drainers := [PUTTER, IDLE.(working := Some(1))])
  const READ_TOO := TAKEN.(drainers := [PUTTER, IDLE.(working := Some(1), read := Some([]))])
  const REMOVED := TAKEN.(nodes := [OWN, Node(EMPTY, Gone, 0)], drainers := [PUTTER, IDLE])
  const LATE := Node(Text([Entry(Step(0, 1))], true), Gone, 0)
  const PUT_LATE := REMOVED.(nodes := [OWN.(done := 1), LATE], drainers := [READER, IDLE], writers := [Writer(0, Returned, 1)])
  const LOST := PUT_LATE.(nodes := [OWN.(name := Gone), LATE], drainers := [IDLE, IDLE])

  const FIRST_LOSES := [Try(0, Failed), List(1, [Queue]), Claim(1), Read(1), Unlink(1), Finish(0, Whole), Unlink(0)]

  lemma SecondDrainUnlinks()
    ensures Leads(READING, Try(0, Failed), PUTTING) && Leads(PUTTING, List(1, [Queue]), LISTED_TOO)
    ensures Leads(LISTED_TOO, Claim(1), TAKEN) && Leads(TAKEN, Read(1), READ_TOO)
  {
    Singles(READER, PUTTER, IDLE);
    Singles(OWN, Node(EMPTY, Queued, 0), OWN);
    TriesToPutBack();
    Singles(IDLE, IDLE.(sources := [Queue]), PUTTER);
    Lists(PUTTING, LISTED_TOO, 1);
    Singles(IDLE.(sources := [Queue]), IDLE.(working := Some(1)), PUTTER);
    Singles(Node(EMPTY, Queued, 0), Node(EMPTY, Draining(1), 0), OWN);
    Claims(LISTED_TOO, TAKEN, 1);
    Singles(IDLE.(working := Some(1)), IDLE.(working := Some(1), read := Some([])), PUTTER);
    Reads(TAKEN, READ_TOO, 1, 1);
  }

  lemma TriesToPutBack()
    ensures Leads(READING, Try(0, Failed), PUTTING)
  {
    Singles(READER, PUTTER, IDLE);
    Singles(OWN, Node(EMPTY, Queued, 0), OWN);
    assert Works(READING, 0);
    assert Found(READING) == READING.(queue := Some(1), nodes := [OWN, Node(EMPTY, Queued, 0)]);
  }

  lemma FirstDrainPutsLate()
    ensures Leads(READ_TOO, Unlink(1), REMOVED) && Leads(REMOVED, Finish(0, Whole), PUT_LATE)
    ensures Leads(PUT_LATE, Unlink(0), LOST)
  {
    Singles(Node(EMPTY, Draining(1), 0), Node(EMPTY, Gone, 0), OWN);
    Singles(IDLE.(working := Some(1), read := Some([])), IDLE, PUTTER);
    assert Leads(READ_TOO, Unlink(1), REMOVED);
    Singles(Node(EMPTY, Gone, 0), LATE, OWN);
    Singles(OWN, OWN.(done := 1), LATE);
    Singles(PUTTER, READER, IDLE);
    Singles(Writer(0, Returned, 0), Writer(0, Returned, 1), Writer(0, Returned, 0));
    assert Append(EMPTY, Entry(Step(0, 1)), Whole) == LATE.text;
    assert Leads(REMOVED, Finish(0, Whole), PUT_LATE);
    Singles(OWN.(done := 1), OWN.(name := Gone), LATE);
    Singles(READER, IDLE, IDLE);
    assert Leads(PUT_LATE, Unlink(0), LOST);
  }

  /** Two drains lose a step between them: the second renames, reads and unlinks the queue file that the first has
      opened and not yet written to. */
  lemma LatePutIsLost()
    ensures var t := After(Init, TO_READING + FIRST_LOSES);
            t.Some? && |t.value.writers| == 1 && t.value.writers[0].call.Returned? && !Somewhere(t.value, 0)
  {
    var actions := FIRST_LOSES;
    ReadingIsReached();
    SecondDrainUnlinks();
    FirstDrainPutsLate();
    hide After, Leads;
    AfterBoth(Init, TO_READING, actions);
    assert forall k | 0 <= k < 7 :: actions[k..][1..] == actions[k + 1..];
    assert actions[0..] == actions && actions[7..] == [];
    Unfold(READING, actions, PUTTING);
    Unfold(PUTTING, actions[1..], LISTED_TOO);
    Unfold(LISTED_TOO, actions[2..], TAKEN);
    Unfold(TAKEN, actions[3..], READ_TOO);
    Unfold(READ_TOO, actions[4..], REMOVED);
    Unfold(REMOVED, actions[5..], PUT_LATE);
    Unfold(PUT_LATE, actions[6..], LOST);
    Ends(LOST);
  }
}
