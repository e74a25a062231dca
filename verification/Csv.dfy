/**
 The telemetry CSV printer (src/observability/shaper.ts) against the grammar of section 2 of RFC 4180,
 with LF as the line break.
 */
module Csv {
  import opened Wrappers

  datatype Value = Null | Text(text: string) | Number(digits: string)

  /** Characters that the spreadsheet guard skips: white space, control and format characters. */
  type Skipped = char -> bool

  const FORMULA := ['=', '+', '-', '@']

  function Visible(s: string, skipped: Skipped): string {
    if s != "" && skipped(s[0]) then Visible(s[1..], skipped) else s
  }

  predicate Formula(s: string, skipped: Skipped) {
    var visible := Visible(s, skipped);
    visible != "" && visible[0] in FORMULA
  }

  /** safeCsvString */
  function Neutral(s: string, skipped: Skipped): string { if Formula(s, skipped) then "'" + s else s }

  /** What a cell is to hold. */
  function Content(v: Value, skipped: Skipped): string {
    match v
    case Null => ""
    case Text(text) => Neutral(text, skipped)
    case Number(digits) => digits
  }

  predicate Special(c: char) { c == '"' || c == ',' || c == '\n' || c == '\r' }

  predicate Plain(s: string) { forall c | c in s :: !Special(c) }

  /** replaceAll('"', '""') */
  function Doubled(s: string): string {
    if s == "" then "" else (if s[0] == '"' then "\"\"" else [s[0]]) + Doubled(s[1..])
  }

  /** csvCell, once the content is known */
  function Cell(content: string): string { if Plain(content) then content else "\"" + Doubled(content) + "\"" }

  function Join(parts: seq<string>, separator: string): string {
    if parts == [] then "" else if |parts| == 1 then parts[0] else parts[0] + separator + Join(parts[1..], separator)
  }

  function Line(contents: seq<string>): string { Join(Cells(contents), ",") }

  function Cells(contents: seq<string>): (r: seq<string>)
    ensures |r| == |contents|
    ensures forall i | 0 <= i < |r| :: r[i] == Cell(contents[i])
  {
    seq(|contents|, i requires 0 <= i < |contents| => Cell(contents[i]))
  }

  function Contents(row: seq<Value>, skipped: Skipped): (r: seq<string>)
    ensures |r| == |row|
    ensures forall i | 0 <= i < |r| :: r[i] == Content(row[i], skipped)
  {
    seq(|row|, i requires 0 <= i < |row| => Content(row[i], skipped))
  }

  function Records(rows: seq<seq<Value>>, skipped: Skipped): (r: seq<seq<string>>)
    ensures |r| == |rows|
    ensures forall i | 0 <= i < |r| :: r[i] == Contents(rows[i], skipped)
  {
    seq(|rows|, i requires 0 <= i < |rows| => Contents(rows[i], skipped))
  }

  function Lines(records: seq<seq<string>>): (r: seq<string>)
    ensures |r| == |records|
    ensures forall i | 0 <= i < |r| :: r[i] == Line(records[i])
  {
    seq(|records|, i requires 0 <= i < |records| => Line(records[i]))
  }

  /** shaperTelemetryCsv and shaperCommandCentreCsv for their headings: the headings are not quoted. */
  function Print(headings: seq<string>, rows: seq<seq<Value>>, skipped: Skipped): string {
    Join([Join(headings, ",")] + Lines(Records(rows, skipped)), "\n") + "\n"
  }

  const RUN_COLUMNS := [
    "record_type", "day", "run_id", "project", "task_id", "task_status", "task_family", "run_purpose", "worker",
    "provider", "provider_account", "model"]

  const COST_COLUMNS := [
    "billing_mode", "started_at", "ended_at", "duration_seconds", "input_tokens", "output_tokens", "total_tokens",
    "estimated_cost", "cost_currency", "cache_reuse_status", "retry_count", "concurrency"]

  const OUTCOME_COLUMNS := [
    "queue_wait_seconds", "result_status", "failure_reason", "approval_state", "human_intervention_state",
    "ci_test_outcome", "quality_score", "skills_invoked", "gbrain_reads", "gbrain_writes", "event_count"]

  const TELEMETRY := RUN_COLUMNS + COST_COLUMNS + OUTCOME_COLUMNS

  const COMMAND_CENTRE := ["metric", "status", "count", "latest_at"]

  // ---------- Section 2 of RFC 4180 ----------

  /** non-escaped = *TEXTDATA */
  function ParsePlain(s: string): (string, string) {
    if s == "" || Special(s[0]) then ("", s)
    else
      var (field, rest) := ParsePlain(s[1..]);
      ([s[0]] + field, rest)
  }

  /** The rest of escaped = DQUOTE *(TEXTDATA / COMMA / CR / LF / 2DQUOTE) DQUOTE */
  function ParseQuoted(s: string): Option<(string, string)> {
    if s == "" then None
    else if s[0] == '"' then
      if |s| > 1 && s[1] == '"' then
        var r := ParseQuoted(s[2..]);
        if r.None? then None else Some(("\"" + r.value.0, r.value.1))
      else Some(("", s[1..]))
    else
      var r := ParseQuoted(s[1..]);
      if r.None? then None else Some(([s[0]] + r.value.0, r.value.1))
  }

  function ParseField(s: string): Option<(string, string)> {
    if s != "" && s[0] == '"' then ParseQuoted(s[1..]) else Some(ParsePlain(s))
  }

  lemma {:induction false} PlainShrinks(s: string)
    ensures |ParsePlain(s).1| <= |s|
  {
    if s != "" && !Special(s[0]) { PlainShrinks(s[1..]); }
  }

  lemma {:induction false} QuotedShrinks(s: string)
    ensures ParseQuoted(s).Some? ==> |ParseQuoted(s).value.1| < |s|
  {
    if s == "" {
    } else if s[0] == '"' {
      if |s| > 1 && s[1] == '"' { QuotedShrinks(s[2..]); }
    } else {
      QuotedShrinks(s[1..]);
    }
  }

  lemma FieldShrinks(s: string)
    ensures ParseField(s).Some? ==> |ParseField(s).value.1| <= |s|
  {
    PlainShrinks(s);
    if s != "" { QuotedShrinks(s[1..]); }
  }

  /** record = field *(COMMA field), up to a line break or the end */
  function ParseRecord(s: string): (r: Option<(seq<string>, string)>)
    ensures r.Some? && s != "" ==> |r.value.1| < |s|
    decreases |s|
  {
    FieldShrinks(s);
    var field := ParseField(s);
    if field.None? then None
    else
      var (text, rest) := field.value;
      if rest == "" then Some(([text], ""))
      else if rest[0] == '\n' then Some(([text], rest[1..]))
      else if rest[0] == ',' then
        var more := ParseRecord(rest[1..]);
        if more.None? then None else Some(([text] + more.value.0, more.value.1))
      else None
  }

  /** file = record *(LF record) [LF] */
  function Parse(s: string): Option<seq<seq<string>>>
    decreases |s|
  {
    if s == "" then Some([])
    else
      var first := ParseRecord(s);
      if first.None? then None
      else
        var more := Parse(first.value.1);
        if more.None? then None else Some([first.value.0] + more.value)
  }

  // ---------- Printing and parsing ----------

  predicate EndsField(rest: string) { rest == "" || rest[0] == ',' || rest[0] == '\n' }

  lemma {:induction false} PlainParses(s: string, rest: string)
    requires Plain(s) && EndsField(rest)
    ensures ParsePlain(s + rest) == (s, rest)
  {
    if s == "" {
      assert s + rest == rest;
    } else {
      assert (s + rest)[1..] == s[1..] + rest && s[0] in s;
      PlainParses(s[1..], rest);
      assert [s[0]] + s[1..] == s;
    }
  }

  lemma {:induction false} QuotedParses(s: string, rest: string)
    requires rest == "" || rest[0] != '"'
    ensures ParseQuoted(Doubled(s) + "\"" + rest) == Some((s, rest))
  {
    if s == "" {
      var t := "\"" + rest;
      assert Doubled(s) + "\"" + rest == t && t[1..] == rest;
      assert |t| > 1 ==> t[1] == rest[0];
    } else {
      var tail := Doubled(s[1..]) + "\"" + rest;
      var head := if s[0] == '"' then "\"\"" else [s[0]];
      assert Doubled(s) + "\"" + rest == head + tail;
      QuotedParses(s[1..], rest);
      assert (head + tail)[|head|..] == tail;
      assert [s[0]] + s[1..] == s;
    }
  }

  lemma FieldParses(content: string, rest: string)
    requires EndsField(rest)
    ensures ParseField(Cell(content) + rest) == Some((content, rest))
  {
    if Plain(content) {
      PlainParses(content, rest);
      assert content != "" ==> content[0] in content;
      assert Cell(content) + rest == content + rest;
      assert content == "" ==> content + rest == rest;
    } else {
      QuotedParses(content, rest);
      var s := Cell(content) + rest;
      assert s == "\"" + (Doubled(content) + "\"" + rest);
      assert s[1..] == Doubled(content) + "\"" + rest;
    }
  }

  lemma {:induction false} RecordParses(contents: seq<string>, rest: string)
    requires contents != []
    ensures ParseRecord(Line(contents) + "\n" + rest) == Some((contents, rest))
    decreases |contents|
  {
    var end := "\n" + rest;
    assert end[1..] == rest;
    var cells := Cells(contents);
    if |contents| == 1 {
      FieldParses(contents[0], end);
      assert Line(contents) + "\n" + rest == Cell(contents[0]) + end;
      assert [contents[0]] == contents;
    } else {
      assert cells[1..] == Cells(contents[1..]);
      var next := Line(contents[1..]) + "\n" + rest;
      var after := "," + next;
      assert after[1..] == next;
      assert Line(contents) + "\n" + rest == Cell(contents[0]) + after;
      FieldParses(contents[0], after);
      RecordParses(contents[1..], rest);
      assert [contents[0]] + contents[1..] == contents;
    }
  }

  /** The lines as they stand in the file, each with its line break. */
  function Broken(records: seq<seq<string>>): string {
    if records == [] then "" else Line(records[0]) + "\n" + Broken(records[1..])
  }

  lemma {:induction false} JoinedIsBroken(records: seq<seq<string>>)
    requires records != []
    ensures Join(Lines(records), "\n") + "\n" == Broken(records)
  {
    if |records| == 1 {
      assert Broken(records[1..]) == "";
      assert Line(records[0]) + "\n" + "" == Line(records[0]) + "\n";
    } else {
      assert Lines(records)[1..] == Lines(records[1..]);
      JoinedIsBroken(records[1..]);
      assert Line(records[0]) + "\n" + Join(Lines(records[1..]), "\n") + "\n" ==
             Line(records[0]) + "\n" + (Join(Lines(records[1..]), "\n") + "\n");
    }
  }

  lemma {:induction false} BrokenParses(records: seq<seq<string>>)
    requires forall i | 0 <= i < |records| :: records[i] != []
    ensures Parse(Broken(records)) == Some(records)
  {
    if records != [] {
      RecordParses(records[0], Broken(records[1..]));
      BrokenParses(records[1..]);
      assert [records[0]] + records[1..] == records;
    }
  }

  /** Main theorem: for all strings in all columns, the printed file parses to the headings and exactly the
      contents of the cells, row by row and column by column. */
  lemma PrintParses(headings: seq<string>, rows: seq<seq<Value>>, skipped: Skipped)
    requires headings != [] && forall i | 0 <= i < |headings| :: Plain(headings[i])
    requires forall i | 0 <= i < |rows| :: |rows[i]| == |headings|
    ensures Parse(Print(headings, rows, skipped)) == Some([headings] + Records(rows, skipped))
  {
    var records := [headings] + Records(rows, skipped);
    assert Cells(headings) == headings;
    assert Lines(records) == [Join(headings, ",")] + Lines(Records(rows, skipped));
    JoinedIsBroken(records);
    forall i | 0 <= i < |records| ensures records[i] != [] {
      if i > 0 { assert |records[i]| == |rows[i - 1]|; }
    }
    BrokenParses(records);
  }

  lemma RunColumnsPlain()
    ensures |RUN_COLUMNS| == 12 && forall i | 0 <= i < |RUN_COLUMNS| :: Plain(RUN_COLUMNS[i])
  {
  }

  lemma CostColumnsPlain()
    ensures |COST_COLUMNS| == 12 && forall i | 0 <= i < |COST_COLUMNS| :: Plain(COST_COLUMNS[i])
  {
  }

  lemma OutcomeColumnsPlain()
    ensures |OUTCOME_COLUMNS| == 11 && forall i | 0 <= i < |OUTCOME_COLUMNS| :: Plain(OUTCOME_COLUMNS[i])
  {
  }

  /** The two files that the shaper prints. */
  lemma TelemetryParses(rows: seq<seq<Value>>, skipped: Skipped)
    requires forall i | 0 <= i < |rows| :: |rows[i]| == |TELEMETRY|
    ensures |TELEMETRY| == 35 && Parse(Print(TELEMETRY, rows, skipped)) == Some([TELEMETRY] + Records(rows, skipped))
  {
    hide Plain;
    RunColumnsPlain();
    CostColumnsPlain();
    OutcomeColumnsPlain();
    PrintParses(TELEMETRY, rows, skipped);
  }

  lemma CommandCentreParses(rows: seq<seq<Value>>, skipped: Skipped)
    requires forall i | 0 <= i < |rows| :: |rows[i]| == 4
    ensures Parse(Print(COMMAND_CENTRE, rows, skipped)) == Some([COMMAND_CENTRE] + Records(rows, skipped))
  {
    PrintParses(COMMAND_CENTRE, rows, skipped);
  }

  // ---------- The spreadsheet guard ----------

  /** No text cell starts, behind what a spreadsheet skips, with a formula character. */
  lemma NeverFormula(s: string, skipped: Skipped)
    requires !skipped('\'')
    ensures !Formula(Neutral(s, skipped), skipped)
  {
    assert ("'" + s)[0] == '\'';
  }

  /** The guard loses the text exactly between a formula and the same formula behind an apostrophe. */
  lemma NeutralCollidesExactly(a: string, b: string, skipped: Skipped)
    requires !skipped('\'')
    ensures Neutral(a, skipped) == Neutral(b, skipped) <==>
            a == b || (Formula(a, skipped) && b == "'" + a) || (Formula(b, skipped) && a == "'" + b)
  {
    NeverFormula(a, skipped);
    NeverFormula(b, skipped);
    assert ("'" + a)[1..] == a && ("'" + b)[1..] == b;
  }

  /** Behind what a spreadsheet skips, the text starts like a formula. */
  predicate Dangerous(s: string, skipped: Skipped) {
    exists i :: 0 <= i < |s| && !skipped(s[i]) && s[i] in "=+-@" && forall j | 0 <= j < i :: skipped(s[j])
  }

  lemma {:induction false} FormulaExactly(s: string, skipped: Skipped)
    ensures Formula(s, skipped) <==> Dangerous(s, skipped)
  {
    if s != "" && skipped(s[0]) {
      FormulaExactly(s[1..], skipped);
      if i :| 0 <= i < |s[1..]| && !skipped(s[1..][i]) && s[1..][i] in "=+-@" && forall j | 0 <= j < i :: skipped(s[1..][j]) {
        assert s[i + 1] == s[1..][i];
        assert forall j | 0 < j < i + 1 :: s[j] == s[1..][j - 1];
        assert Dangerous(s, skipped);
      }
      if i :| 0 <= i < |s| && !skipped(s[i]) && s[i] in "=+-@" && forall j | 0 <= j < i :: skipped(s[j]) {
        assert s[1..][i - 1] == s[i];
        assert forall j | 0 <= j < i - 1 :: s[1..][j] == s[j + 1];
        assert Dangerous(s[1..], skipped);
      }
    } else if s != "" {
      assert s[0] in "=+-@" <==> s[0] in FORMULA;
    }
  }

  /** What a reader of the file finds for a value: the value itself, but with an apostrophe in front of a dangerous text. */
  predicate Shows(cell: string, v: Value, skipped: Skipped) {
    match v
    case Null => cell == ""
    case Number(digits) => cell == digits
    case Text(text) => !Dangerous(cell, skipped) && cell == if Dangerous(text, skipped) then "'" + text else text
  }

  /** Main theorem: a reader of the file that follows the grammar finds the headings, and behind them one record for
      each row that shows each of its values, none of whose texts a spreadsheet takes for a formula. */
  lemma FileShowsRows(headings: seq<string>, rows: seq<seq<Value>>, skipped: Skipped)
    requires headings != [] && forall i | 0 <= i < |headings| :: Plain(headings[i])
    requires forall i | 0 <= i < |rows| :: |rows[i]| == |headings|
    requires !skipped('\'')
    ensures var parsed := Parse(Print(headings, rows, skipped));
            && parsed.Some? && |parsed.value| == |rows| + 1 && parsed.value[0] == headings
            && forall i | 0 <= i < |rows| ::
                 && |parsed.value[i + 1]| == |rows[i]|
                 && forall j | 0 <= j < |rows[i]| :: Shows(parsed.value[i + 1][j], rows[i][j], skipped)
  {
    PrintParses(headings, rows, skipped);
    var records := Records(rows, skipped);
    forall i, j | 0 <= i < |rows| && 0 <= j < |rows[i]| ensures Shows(records[i][j], rows[i][j], skipped) {
      ContentShows(rows[i][j], skipped);
    }
    hide Print, Parse, Shows;
  }

  lemma ContentShows(v: Value, skipped: Skipped)
    requires !skipped('\'')
    ensures Shows(Content(v, skipped), v, skipped)
  {
    if v.Text? {
      NeverFormula(v.text, skipped);
      FormulaExactly(v.text, skipped);
      FormulaExactly(Neutral(v.text, skipped), skipped);
    }
  }
}
