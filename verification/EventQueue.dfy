/**
 The asynchronous event queue (class EventQueue in src/execution/lima-backend.ts).

 The k-th call of next() hands out the k-th promise; an answer is what that promise resolves to.
 */
module EventQueue {

  datatype Answer<+T> = Pending | Value(value: T) | Done

  datatype Queue<T> = Queue(values: seq<T>, waiters: seq<nat>, closed: bool, answers: seq<Answer<T>>)

  datatype Op<T> = Push(value: T) | Next | Close

  /** What the language cannot tell from an empty buffer: `undefined` used as a value. */
  type Absence<!T> = T -> bool

  function DoPush<T>(q: Queue<T>, value: T): Queue<T> {
    if q.closed then q
    else if q.waiters != [] && q.waiters[0] < |q.answers| then
      q.(waiters := q.waiters[1..], answers := q.answers[q.waiters[0] := Value(value)])
    else q.(values := q.values + [value])
  }

  function Dismiss<T>(answers: seq<Answer<T>>, waiters: seq<nat>): (r: seq<Answer<T>>)
    ensures |r| == |answers|
    decreases |waiters|
  {
    if waiters == [] then answers
    else Dismiss(if waiters[0] < |answers| then answers[waiters[0] := Done] else answers, waiters[1..])
  }

  function DoClose<T>(q: Queue<T>): Queue<T> {
    if q.closed then q else q.(closed := true, waiters := [], answers := Dismiss(q.answers, q.waiters))
  }

  function DoNext<T>(q: Queue<T>, absent: Absence<T>): Queue<T> {
    var rest := if q.values == [] then [] else q.values[1..];
    if q.values != [] && !absent(q.values[0]) then
      q.(values := rest, answers := q.answers + [Value(q.values[0])])
    else if q.closed then q.(values := rest, answers := q.answers + [Done])
    else q.(values := rest, waiters := q.waiters + [|q.answers|], answers := q.answers + [Pending])
  }

  function Do<T>(q: Queue<T>, op: Op<T>, absent: Absence<T>): Queue<T> {
    match op
    case Push(value) => DoPush(q, value)
    case Next => DoNext(q, absent)
    case Close => DoClose(q)
  }

  function Run<T>(ops: seq<Op<T>>, absent: Absence<T>): Queue<T> {
    if ops == [] then Queue([], [], false, []) else Do(Run(ops[..|ops| - 1], absent), ops[|ops| - 1], absent)
  }

  // ---------- What the callers see ----------

  predicate Closed<T>(ops: seq<Op<T>>) { exists i :: 0 <= i < |ops| && ops[i].Close? }

  /** The values pushed before the queue is closed. */
  function Pushed<T>(ops: seq<Op<T>>): seq<T> {
    if ops == [] then []
    else
      var init, op := ops[..|ops| - 1], ops[|ops| - 1];
      if op.Push? && !Closed(init) then Pushed(init) + [op.value] else Pushed(init)
  }

  function Nexts<T>(ops: seq<Op<T>>): nat {
    if ops == [] then 0 else Nexts(ops[..|ops| - 1]) + if ops[|ops| - 1].Next? then 1 else 0
  }

  /** What the k-th next must come to. */
  function Owed<T>(pushed: seq<T>, closed: bool, k: nat): Answer<T> {
    if k < |pushed| then Value(pushed[k]) else if closed then Done else Pending
  }

  /** The queue after the values `pushed` and n calls of next. */
  ghost predicate Keeps<T>(q: Queue<T>, pushed: seq<T>, closed: bool, n: nat) {
    && q.closed == closed && |q.answers| == n
    && (forall k: nat | k < n :: q.answers[k] == Owed(pushed, closed, k))
    && q.values == (if n < |pushed| then pushed[n..] else [])
    && |q.waiters| == (if closed || n <= |pushed| then 0 else n - |pushed|)
    && (forall i | 0 <= i < |q.waiters| :: q.waiters[i] == |pushed| + i)
  }

  lemma {:induction false} DismissAll<T>(answers: seq<Answer<T>>, waiters: seq<nat>, from: nat)
    requires from + |waiters| <= |answers| && forall i | 0 <= i < |waiters| :: waiters[i] == from + i
    ensures forall k | 0 <= k < |answers| ::
              Dismiss(answers, waiters)[k] == if from <= k < from + |waiters| then Done else answers[k]
    decreases |waiters|
  {
    if waiters != [] { DismissAll(answers[waiters[0] := Done], waiters[1..], from + 1); }
  }

  lemma PushKeeps<T>(q: Queue<T>, pushed: seq<T>, closed: bool, n: nat, value: T)
    requires Keeps(q, pushed, closed, n)
    ensures Keeps(DoPush(q, value), if closed then pushed else pushed + [value], closed, n)
  {
  }

  /** The next call of next() takes an absent value off the buffer and throws it away. */
  predicate Loses<T>(q: Queue<T>, absent: Absence<T>) { q.values != [] && absent(q.values[0]) }

  lemma NextKeeps<T>(q: Queue<T>, pushed: seq<T>, closed: bool, n: nat, absent: Absence<T>)
    requires Keeps(q, pushed, closed, n)
    ensures !Loses(q, absent) ==> Keeps(DoNext(q, absent), pushed, closed, n + 1)
    ensures Loses(q, absent) ==> n < |pushed| && |DoNext(q, absent).answers| == n + 1 &&
                                 DoNext(q, absent).answers[n] != Owed(pushed, closed, n)
  {
    if n < |pushed| {
      assert q.values[0] == pushed[n];
      assert q.values[1..] == pushed[n + 1..];
    }
  }

  lemma CloseKeeps<T>(q: Queue<T>, pushed: seq<T>, closed: bool, n: nat)
    requires Keeps(q, pushed, closed, n)
    ensures Keeps(DoClose(q), pushed, true, n)
  {
    if !closed && q.waiters != [] { DismissAll(q.answers, q.waiters, |pushed|); }
  }

  /** No call of next() in the run throws a value away. */
  ghost predicate Lossless<T>(ops: seq<Op<T>>, absent: Absence<T>) {
    forall n | 0 <= n < |ops| && ops[n].Next? :: !Loses(Run(ops[..n], absent), absent)
  }

  lemma LosslessPrefix<T>(ops: seq<Op<T>>, n: nat, absent: Absence<T>)
    requires Lossless(ops, absent) && n <= |ops|
    ensures Lossless(ops[..n], absent)
  {
    forall k | 0 <= k < n && ops[..n][k].Next? ensures !Loses(Run(ops[..n][..k], absent), absent) {
      assert ops[..n][..k] == ops[..k] && ops[k].Next?;
    }
  }

  lemma {:induction false} RunKeeps<T>(ops: seq<Op<T>>, absent: Absence<T>)
    requires Lossless(ops, absent)
    ensures Keeps(Run(ops, absent), Pushed(ops), Closed(ops), Nexts(ops))
  {
    if ops != [] {
      var init, op := ops[..|ops| - 1], ops[|ops| - 1];
      assert ops == init + [op];
      LosslessPrefix(ops, |ops| - 1, absent);
      RunKeeps(init, absent);
      var q := Run(init, absent);
      match op
      case Push(value) => PushKeeps(q, Pushed(init), Closed(init), Nexts(init), value);
      case Next =>
        assert !Loses(q, absent);
        NextKeeps(q, Pushed(init), Closed(init), Nexts(init), absent);
      case Close => CloseKeeps(q, Pushed(init), Closed(init), Nexts(init));
    }
  }

  /** Every next has come to what it is owed, and the queue does not hold both values and waiting calls. */
  ghost predicate AsOwed<T>(ops: seq<Op<T>>, absent: Absence<T>) {
    var q := Run(ops, absent);
    && |q.answers| == Nexts(ops)
    && (forall k: nat | k < Nexts(ops) :: q.answers[k] == Owed(Pushed(ops), Closed(ops), k))
    && (q.values == [] || q.waiters == [])
  }

  /** Main theorem: for every interleaving, at every moment the k-th next has been answered with the k-th
      value pushed before the close, with done if the queue was closed first, and waits otherwise, if and
      only if no next() has thrown an absent value away. */
  lemma KthNextGetsKthValueExactly<T>(ops: seq<Op<T>>, absent: Absence<T>)
    ensures (forall n | 0 <= n <= |ops| :: AsOwed(ops[..n], absent)) <==> Lossless(ops, absent)
  {
    if Lossless(ops, absent) {
      forall n: nat | n <= |ops| ensures AsOwed(ops[..n], absent) {
        LosslessPrefix(ops, n, absent);
        RunKeeps(ops[..n], absent);
      }
    } else {
      var n := FirstLoss(ops, absent);
      LossShows(ops[..n], absent);
      assert ops[..n + 1] == ops[..n] + [Next];
      assert !AsOwed(ops[..n + 1], absent);
    }
  }

  lemma {:induction false} FirstLoss<T>(ops: seq<Op<T>>, absent: Absence<T>) returns (n: nat)
    requires !Lossless(ops, absent)
    ensures n < |ops| && ops[n].Next? && Loses(Run(ops[..n], absent), absent) && Lossless(ops[..n], absent)
  {
    var init := ops[..|ops| - 1];
    if Lossless(init, absent) {
      n := |ops| - 1;
      forall k | 0 <= k < n && ops[k].Next? ensures !Loses(Run(ops[..k], absent), absent) {
        assert init[..k] == ops[..k] && init[k].Next?;
      }
    } else {
      n := FirstLoss(init, absent);
      assert init[..n] == ops[..n];
    }
  }

  lemma LossShows<T>(ops: seq<Op<T>>, absent: Absence<T>)
    requires Lossless(ops, absent) && Loses(Run(ops, absent), absent)
    ensures !AsOwed(ops + [Next], absent)
  {
    RunKeeps(ops, absent);
    assert (ops + [Next])[..|ops|] == ops;
    NextKeeps(Run(ops, absent), Pushed(ops), Closed(ops), Nexts(ops), absent);
    SameClosed(ops);
  }

  lemma SameClosed<T>(ops: seq<Op<T>>)
    ensures Closed(ops + [Next]) <==> Closed(ops)
  {
    if Closed(ops) {
      var i :| 0 <= i < |ops| && ops[i].Close?;
      assert (ops + [Next])[i].Close?;
    }
  }

  /** The waiting calls, in order, are those without an answer that have been put aside. */
  ghost predicate WaitersWait<T>(q: Queue<T>) {
    && (forall i | 0 <= i < |q.waiters| :: q.waiters[i] < |q.answers| && q.answers[q.waiters[i]].Pending?)
    && (forall i, j | 0 <= i < j < |q.waiters| :: q.waiters[i] < q.waiters[j])
  }

  lemma {:induction false} DismissKeepsAnswers<T>(answers: seq<Answer<T>>, waiters: seq<nat>, k: nat)
    requires k < |answers| && k !in waiters
    ensures Dismiss(answers, waiters)[k] == answers[k]
    decreases |waiters|
  {
    if waiters != [] {
      assert waiters[0] in waiters && forall w | w in waiters[1..] :: w in waiters;
      DismissKeepsAnswers(if waiters[0] < |answers| then answers[waiters[0] := Done] else answers, waiters[1..], k);
    }
  }

  lemma {:induction false} RunWaits<T>(ops: seq<Op<T>>, absent: Absence<T>)
    ensures WaitersWait(Run(ops, absent)) && |Run(ops, absent).answers| == Nexts(ops)
  {
    if ops != [] {
      var init := ops[..|ops| - 1];
      RunWaits(init, absent);
      DoWaits(Run(init, absent), ops[|ops| - 1], absent);
    }
  }

  lemma DoWaits<T>(q: Queue<T>, op: Op<T>, absent: Absence<T>)
    requires WaitersWait(q)
    ensures WaitersWait(Do(q, op, absent))
    ensures |Do(q, op, absent).answers| == |q.answers| + if op.Next? then 1 else 0
    ensures forall k | 0 <= k < |q.answers| && !q.answers[k].Pending? :: Do(q, op, absent).answers[k] == q.answers[k]
  {
    if op.Close? {
      forall k | 0 <= k < |q.answers| && !q.answers[k].Pending? ensures Do(q, op, absent).answers[k] == q.answers[k] {
        if !q.closed { DismissKeepsAnswers(q.answers, q.waiters, k); }
      }
    }
  }

  /** In every run, absent values or not, an answer that has been given is never taken back. */
  lemma AnswersStay<T>(ops: seq<Op<T>>, op: Op<T>, absent: Absence<T>, k: nat)
    requires k < Nexts(ops)
    ensures var before, after := Run(ops, absent).answers, Run(ops + [op], absent).answers;
            k < |before| && k < |after| && (before[k] != Pending ==> after[k] == before[k])
  {
    assert (ops + [op])[..|ops|] == ops;
    RunWaits(ops, absent);
    DoWaits(Run(ops, absent), op, absent);
  }

  /** A buffered `undefined` is lost, and the next() that should have had it waits on. */
  lemma AbsentValueIsLost<T>(v: T, absent: Absence<T>)
    requires absent(v)
    ensures Pushed([Push(v), Next]) == [v] && Nexts([Push(v), Next]) == 1
    ensures Run([Push(v), Next], absent) == Queue([], [0], false, [Pending])
  {
    var ops := [Push(v), Next];
    assert ops[..1] == [Push(v)] && [Push(v)][..0] == [];
    assert Run([Push(v)], absent) == Queue([v], [], false, []);
    assert Pushed([Push(v)]) == [] + [v] && Pushed(ops) == Pushed([Push(v)]);
    assert Nexts([Push(v)]) == 0;
    assert [v][1..] == [] && [] + [0] == [0];
  }

  // ---------- The class ----------

  class Channel<T> {
    var values: seq<T>
    var waiters: seq<nat>
    var closed: bool
    var answers: seq<Answer<T>>
    const absent: Absence<T>

    constructor (absence: Absence<T>)
      ensures Now() == Queue([], [], false, []) && absent == absence
    {
      values, waiters, closed, answers, absent := [], [], false, [], absence;
    }

    ghost function Now(): Queue<T>
      reads this
    {
      Queue(values, waiters, closed, answers)
    }

    ghost predicate Valid()
      reads this
    {
      forall w | w in waiters :: w < |answers|
    }

    method Push(value: T)
      requires Valid()
      modifies this
      ensures Valid() && Now() == DoPush(old(Now()), value)
    {
      if closed { return; }
      if waiters != [] {
        var waiter := waiters[0];
        assert waiter in waiters;
        assert forall w | w in waiters[1..] :: w in waiters;
        waiters := waiters[1..];
        answers := answers[waiter := Value(value)];
      } else {
        values := values + [value];
      }
    }

    method Close()
      requires Valid()
      modifies this
      ensures Valid() && Now() == DoClose(old(Now()))
    {
      if closed { return; }
      closed := true;
      var all := waiters;
      waiters := [];
      for i := 0 to |all|
        invariant closed && waiters == [] && values == old(values) && |answers| == |old(answers)|
        invariant Dismiss(answers, all[i..]) == Dismiss(old(answers), all)
      {
        assert all[i] in all && all[i..][1..] == all[i + 1..];
        answers := answers[all[i] := Done];
      }
    }

    /** Hands out the next promise. */
    method Next() returns (k: nat)
      requires Valid()
      modifies this
      ensures Valid() && Now() == DoNext(old(Now()), absent) && k == |old(answers)|
    {
      k := |answers|;
      if values != [] {
        var value := values[0];
        values := values[1..];
        if !absent(value) {
          answers := answers + [Value(value)];
          return;
        }
      }
      if closed {
        answers := answers + [Done];
        return;
      }
      answers := answers + [Pending];
      waiters := waiters + [k];
    }
  }
}
