/**
 The append-only run event log with keyed idempotence (appendRunEvent in src/domain/run-service.ts).
 */
module RunEvents {
  import opened Wrappers

  /** One call of appendRunEvent. The payload arrives redacted and rendered; the text of its type and of
      the payload stands for the hash of both. */
  datatype Delivery = Delivery(run: nat, kind: string, payload: string, key: Option<string>)

  datatype Row = Row(run: nat, number: nat, kind: string, key: Option<string>, payload: string)

  datatype Appended = Appended(row: Row, duplicate: bool)

  datatype Error = ConflictingEvent

  predicate Keyed(row: Row, d: Delivery) { d.key.Some? && row.run == d.run && row.key == d.key }

  /** The row that the key already names, or |rows|. */
  function Existing(rows: seq<Row>, d: Delivery): (i: nat)
    ensures i <= |rows|
    ensures i < |rows| ==> Keyed(rows[i], d)
    ensures forall j | 0 <= j < i :: !Keyed(rows[j], d)
  {
    if rows == [] || Keyed(rows[0], d) then 0 else 1 + Existing(rows[1..], d)
  }

  /** The highest number of the run, or 0. */
  function LastNumber(rows: seq<Row>, run: nat): nat {
    if rows == [] then 0
    else
      var last, before := rows[|rows| - 1], LastNumber(rows[..|rows| - 1], run);
      if last.run == run && last.number > before then last.number else before
  }

  function NewRow(rows: seq<Row>, d: Delivery): Row {
    Row(d.run, LastNumber(rows, d.run) + 1, d.kind, d.key, d.payload)
  }

  function Append(rows: seq<Row>, d: Delivery): Result<(seq<Row>, Appended), Error> {
    var i := Existing(rows, d);
    if i == |rows| then Ok((rows + [NewRow(rows, d)], Appended(NewRow(rows, d), false)))
    else if rows[i].kind == d.kind && rows[i].payload == d.payload then Ok((rows, Appended(rows[i], true)))
    else Err(ConflictingEvent)
  }

  /** The log after a sequence of deliveries; a rejected one leaves it alone. */
  function Log(ds: seq<Delivery>): seq<Row> {
    if ds == [] then []
    else
      var before := Log(ds[..|ds| - 1]);
      var r := Append(before, ds[|ds| - 1]);
      if r.Ok? then r.value.0 else before
  }

  // ---------- First occurrences ----------

  predicate SameKey(a: Delivery, b: Delivery) { a.key.Some? && a.run == b.run && a.key == b.key }

  predicate Repeated(earlier: seq<Delivery>, d: Delivery) { exists i :: 0 <= i < |earlier| && SameKey(earlier[i], d) }

  /** The deliveries of a run that are not under a key already used. */
  function Firsts(ds: seq<Delivery>, run: nat): seq<Delivery> {
    if ds == [] then []
    else
      var init, d := ds[..|ds| - 1], ds[|ds| - 1];
      Firsts(init, run) + if d.run == run && !Repeated(init, d) then [d] else []
  }

  function Numbered(ds: seq<Delivery>): (r: seq<Row>)
    ensures |r| == |ds|
    ensures forall i | 0 <= i < |r| :: r[i] == Row(ds[i].run, i + 1, ds[i].kind, ds[i].key, ds[i].payload)
  {
    seq(|ds|, i requires 0 <= i < |ds| => Row(ds[i].run, i + 1, ds[i].kind, ds[i].key, ds[i].payload))
  }

  function OfRun(rows: seq<Row>, run: nat): seq<Row> {
    if rows == [] then []
    else OfRun(rows[..|rows| - 1], run) + if rows[|rows| - 1].run == run then [rows[|rows| - 1]] else []
  }

  lemma OfRunSnoc(rows: seq<Row>, row: Row, run: nat)
    ensures OfRun(rows + [row], run) == OfRun(rows, run) + if row.run == run then [row] else []
  {
    assert (rows + [row])[..|rows|] == rows;
  }

  lemma {:induction false} LastNumberIsCount(rows: seq<Row>, run: nat)
    requires forall i | 0 <= i < |OfRun(rows, run)| :: OfRun(rows, run)[i].number == i + 1
    ensures LastNumber(rows, run) == |OfRun(rows, run)|
  {
    if rows != [] {
      var init, last := rows[..|rows| - 1], rows[|rows| - 1];
      assert forall i | 0 <= i < |OfRun(init, run)| :: OfRun(init, run)[i] == OfRun(rows, run)[i];
      LastNumberIsCount(init, run);
      if last.run == run { assert OfRun(rows, run)[|OfRun(init, run)|] == last; }
    }
  }

  ghost predicate FirstUse(ds: seq<Delivery>, d: Delivery, j: int) {
    0 <= j < |ds| && SameKey(ds[j], d) && forall i | 0 <= i < j :: !SameKey(ds[i], d)
  }

  predicate SameContent(row: Row, d: Delivery) { row.kind == d.kind && row.payload == d.payload }

  lemma ExistingSnoc(rows: seq<Row>, row: Row, d: Delivery)
    ensures Existing(rows + [row], d) ==
            if Existing(rows, d) < |rows| then Existing(rows, d) else if Keyed(row, d) then |rows| else |rows| + 1
  {
    var i, k := Existing(rows, d), Existing(rows + [row], d);
    assert forall j | 0 <= j < |rows| :: (rows + [row])[j] == rows[j];
    assert (rows + [row])[|rows|] == row;
  }

  /** The row of a key carries the content of the delivery that first used it. */
  ghost predicate HoldsFirst(rows: seq<Row>, ds: seq<Delivery>, d: Delivery) {
    exists j :: FirstUse(ds, d, j) && Existing(rows, d) < |rows| && SameContent(rows[Existing(rows, d)], ds[j])
  }

  ghost predicate Agrees(rows: seq<Row>, ds: seq<Delivery>, d: Delivery) {
    if Repeated(ds, d) then HoldsFirst(rows, ds, d) else Existing(rows, d) == |rows|
  }

  /** The log holds a row under a key exactly when a delivery has used the key. */
  lemma {:induction false} KeysInLog(ds: seq<Delivery>, d: Delivery)
    ensures Agrees(Log(ds), ds, d)
  {
    if ds != [] {
      hide Agrees, Existing;
      var init, last := ds[..|ds| - 1], ds[|ds| - 1];
      assert init + [last] == ds;
      KeysInLog(init, d);
      KeysInLog(init, last);
      AgreesStep(init, last, Log(init), d);
    }
  }

  lemma AgreesStep(init: seq<Delivery>, last: Delivery, rows: seq<Row>, d: Delivery)
    requires Agrees(rows, init, d) && Agrees(rows, init, last)
    ensures Agrees(if Append(rows, last).Ok? then Append(rows, last).value.0 else rows, init + [last], d)
  {
    ExistingSnoc(rows, NewRow(rows, last), d);
    hide Existing, LastNumber, HoldsFirst;
    var ds := init + [last];
    if Repeated(init, d) {
      StillHolds(init, last, rows, d);
    } else if SameKey(last, d) {
      FirstHolds(init, last, rows, d);
    } else {
      assert forall i | 0 <= i < |init| :: ds[i] == init[i];
      assert !Repeated(ds, d);
    }
  }

  lemma FirstHolds(init: seq<Delivery>, last: Delivery, rows: seq<Row>, d: Delivery)
    requires !Repeated(init, d) && SameKey(last, d) && Existing(rows, d) == |rows| && Agrees(rows, init, last)
    ensures Append(rows, last) == Ok((rows + [NewRow(rows, last)], Appended(NewRow(rows, last), false)))
    ensures Repeated(init + [last], d) && HoldsFirst(rows + [NewRow(rows, last)], init + [last], d)
  {
    ExistingSnoc(rows, NewRow(rows, last), d);
    hide LastNumber, Existing;
    var ds := init + [last];
    assert !Repeated(init, last) by {
      assert forall i | 0 <= i < |init| :: SameKey(init[i], last) ==> SameKey(init[i], d);
    }
    assert forall i | 0 <= i < |init| :: ds[i] == init[i];
    assert FirstUse(ds, d, |init|);
  }

  lemma StillHolds(init: seq<Delivery>, last: Delivery, rows: seq<Row>, d: Delivery)
    requires HoldsFirst(rows, init, d)
    ensures Repeated(init + [last], d)
    ensures HoldsFirst(rows, init + [last], d) && HoldsFirst(rows + [NewRow(rows, last)], init + [last], d)
  {
    var ds := init + [last];
    ExistingSnoc(rows, NewRow(rows, last), d);
    var j :| FirstUse(init, d, j) && SameContent(rows[Existing(rows, d)], init[j]);
    assert ds[j] == init[j];
    assert FirstUse(ds, d, j);
  }

  lemma AppendIs(ds: seq<Delivery>, d: Delivery)
    ensures var rows := Log(ds);
            if Repeated(ds, d) then Append(rows, d).Ok? ==> Append(rows, d).value.0 == rows
            else Append(rows, d) == Ok((rows + [NewRow(rows, d)], Appended(NewRow(rows, d), false)))
  {
    KeysInLog(ds, d);
  }

  /** Main theorem: the log of a run is the first occurrences of its deliveries, in order, numbered from 1
      without gaps, whatever has been delivered again in between. */
  lemma {:induction false} LogIsFirstOccurrences(ds: seq<Delivery>, run: nat)
    ensures OfRun(Log(ds), run) == Numbered(Firsts(ds, run))
  {
    if ds != [] {
      var init, d := ds[..|ds| - 1], ds[|ds| - 1];
      var rows := Log(init);
      LogIsFirstOccurrences(init, run);
      AppendIs(init, d);
      OfRunSnoc(rows, NewRow(rows, d), run);
      if d.run == run && !Repeated(init, d) {
        LastNumberIsCount(rows, run);
        assert Numbered(Firsts(init, run) + [d]) == Numbered(Firsts(init, run)) + [NewRow(rows, d)];
      }
    }
  }

  /** The log only ever grows at its end. */
  lemma LogOnlyGrows(ds: seq<Delivery>, d: Delivery)
    ensures Log(ds) <= Log(ds + [d])
  {
    assert (ds + [d])[..|ds|] == ds;
  }

  /** A delivery is refused if and only if its key was first used with other content, and it is reported as
      a duplicate if and only if it was first used with the same content. */
  lemma RefusedExactly(ds: seq<Delivery>, d: Delivery)
    ensures Append(Log(ds), d).Err? <==>
            exists j :: FirstUse(ds, d, j) && !(ds[j].kind == d.kind && ds[j].payload == d.payload)
    ensures Append(Log(ds), d).Ok? ==>
              (Append(Log(ds), d).value.1.duplicate <==> exists j :: FirstUse(ds, d, j))
  {
    KeysInLog(ds, d);
    hide Log;
    if Repeated(ds, d) {
      var rows := Log(ds);
      var j :| FirstUse(ds, d, j) && SameContent(rows[Existing(rows, d)], ds[j]);
      assert forall k :: FirstUse(ds, d, k) ==> k == j;
    } else {
      assert forall j :: !FirstUse(ds, d, j);
    }
  }

  // ---------- The service call ----------

  class EventLog {
    var rows: seq<Row>

    constructor ()
      ensures rows == []
    {
      rows := [];
    }

    /** One transaction. */
    method AppendRunEvent(d: Delivery) returns (r: Result<Appended, Error>)
      modifies this
      ensures match Append(old(rows), d)
              case Ok((after, appended)) => r == Ok(appended) && rows == after
              case Err(e) => r == Err(e) && rows == old(rows)
    {
      hide Existing, LastNumber;
      if d.key.Some? {
        var i := Existing(rows, d);
        if i < |rows| {
          if rows[i].payload == d.payload && rows[i].kind == d.kind { return Ok(Appended(rows[i], true)); }
          return Err(ConflictingEvent);
        }
      }
      NoKeyNoRow(rows, d);
      var row := Row(d.run, LastNumber(rows, d.run) + 1, d.kind, d.key, d.payload);
      rows := rows + [row];
      r := Ok(Appended(row, false));
    }
  }

  lemma NoKeyNoRow(rows: seq<Row>, d: Delivery)
    ensures d.key.None? ==> Existing(rows, d) == |rows|
  {
  }
}
