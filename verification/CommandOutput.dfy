/**
 Line framing and the bounded tail of a child's output (run in src/execution/lima-backend.ts), at the
 level of characters.
 */
module CommandOutput {

  const TAIL := 200_000

  /** text.split('\n') */
  function Split(text: string): (r: seq<string>)
    ensures r != []
  {
    if text == "" then [""]
    else
      var rest := Split(text[1..]);
      if text[0] == '\n' then [""] + rest else [[text[0]] + rest[0]] + rest[1..]
  }

  function Last(lines: seq<string>): string
    requires lines != []
  {
    lines[|lines| - 1]
  }

  function Init(lines: seq<string>): seq<string>
    requires lines != []
  {
    lines[..|lines| - 1]
  }

  /** text.slice(-200_000) when it is longer than that */
  function Tail(text: string): string { if |text| > TAIL then text[|text| - TAIL..] else text }

  function Concat(chunks: seq<string>): string {
    if chunks == [] then "" else Concat(chunks[..|chunks| - 1]) + chunks[|chunks| - 1]
  }

  /** Joining the lines with newlines gives the text back, and no line holds a newline. */
  function Join(lines: seq<string>): string
    requires lines != []
  {
    if |lines| == 1 then lines[0] else lines[0] + "\n" + Join(lines[1..])
  }

  lemma {:induction false} SplitLosesNothing(text: string)
    ensures Join(Split(text)) == text && forall line | line in Split(text) :: '\n' !in line
  {
    if text != "" {
      var rest := Split(text[1..]);
      SplitLosesNothing(text[1..]);
      if text[0] == '\n' {
        assert ([""] + rest)[1..] == rest;
        assert "\n" + text[1..] == text;
      } else {
        var lines := [[text[0]] + rest[0]] + rest[1..];
        assert lines[1..] == rest[1..];
        assert [text[0]] + Join(rest) == text;
        if |rest| > 1 {
          assert [text[0]] + (rest[0] + "\n" + Join(rest[1..])) == ([text[0]] + rest[0]) + "\n" + Join(rest[1..]);
        }
        assert forall line | line in rest[1..] :: line in rest;
      }
    }
  }

  /** A character in front of a text that has been split. */
  function Before(c: char, lines: seq<string>): (r: seq<string>)
    requires lines != []
    ensures r != []
  {
    if c == '\n' then [""] + lines else [[c] + lines[0]] + lines[1..]
  }

  lemma SplitBefore(c: char, text: string)
    ensures Split([c] + text) == Before(c, Split(text))
  {
    assert ([c] + text)[1..] == text;
  }

  lemma BeforeMore(c: char, lines: seq<string>, more: seq<string>)
    requires lines != [] && more != []
    ensures Before(c, Init(lines) + more) == Init(Before(c, lines)) + (if |lines| == 1 && c != '\n' then Before(c, more) else more)
  {
    if c == '\n' {
      assert Init([""] + lines) == [""] + Init(lines);
    } else if |lines| == 1 {
      assert Init(lines) + more == more;
    } else {
      assert (Init(lines) + more)[1..] == Init(lines)[1..] + more;
      assert Init(Before(c, lines)) == [[c] + lines[0]] + Init(lines)[1..];
    }
  }

  lemma LastBefore(c: char, lines: seq<string>)
    requires lines != []
    ensures Last(Before(c, lines)) == if |lines| == 1 && c != '\n' then [c] + Last(lines) else Last(lines)
  {
  }

  /** Cutting the text in two: only the line around the cut is put together again. */
  lemma {:induction false} SplitAcross(a: string, b: string)
    ensures Split(a + b) == Init(Split(a)) + Split(Last(Split(a)) + b)
  {
    if a == "" {
      assert a + b == b && "" + b == b && [] + Split(b) == Split(b);
    } else {
      var c, rest := a[0], Split(a[1..]);
      SplitAcross(a[1..], b);
      SplitBefore(c, a[1..] + b);
      SplitBefore(c, a[1..]);
      assert [c] + (a[1..] + b) == a + b && [c] + a[1..] == a;
      hide Split, Before, Init;
      LastBefore(c, rest);
      BeforeMore(c, rest, Split(Last(rest) + b));
      if |rest| == 1 && c != '\n' {
        SplitBefore(c, Last(rest) + b);
        assert [c] + (Last(rest) + b) == ([c] + Last(rest)) + b;
      }
    }
  }

  lemma ConcatSnoc(chunks: seq<string>, text: string)
    ensures Concat(chunks + [text]) == Concat(chunks) + text
  {
    assert (chunks + [text])[..|chunks|] == chunks;
  }

  /** Cutting off the front early changes nothing about the tail. */
  lemma TailAcross(a: string, b: string)
    ensures Tail(Tail(a) + b) == Tail(a + b)
  {
    if |a| > TAIL {
      var t := Tail(a);
      assert forall i | 0 <= i < |t| :: t[i] == a[|a| - TAIL + i];
      assert Tail(t + b) == Tail(a + b);
    }
  }

  /** What a listener has been told when the stream is closed: the last line only if it is not empty. */
  function Told(text: string): seq<string> {
    var lines := Split(text);
    if Last(lines) == "" then Init(lines) else lines
  }

  /** The tail is the end of the text, as much of it as is allowed. */
  lemma TailIsTheEnd(text: string) returns (front: string)
    ensures text == front + Tail(text) && |Tail(text)| == if |text| < TAIL then |text| else TAIL
  {
    front := text[..|text| - |Tail(text)|];
  }

  /** The lines with a newline behind each. */
  function Ended(lines: seq<string>): string {
    if lines == [] then "" else lines[0] + "\n" + Ended(lines[1..])
  }

  lemma {:induction false} JoinIsEnded(lines: seq<string>)
    requires lines != []
    ensures Join(lines) == Ended(Init(lines)) + Last(lines) && Ended(lines) == Join(lines) + "\n"
  {
    if |lines| > 1 {
      JoinIsEnded(lines[1..]);
      assert Init(lines)[1..] == Init(lines[1..]);
      var a, b := lines[0] + "\n", Ended(Init(lines[1..]));
      assert a + (b + Last(lines)) == (a + b) + Last(lines);
      assert a + (Join(lines[1..]) + "\n") == (a + Join(lines[1..])) + "\n";
    }
  }

  /** A listener is told the whole text, line by line, whether or not the last line is ended by a newline. */
  lemma ToldIsWhole(text: string)
    ensures Ended(Told(text)) == if text == "" || text[|text| - 1] == '\n' then text else text + "\n"
    ensures forall line | line in Told(text) :: '\n' !in line
  {
    var lines := Split(text);
    SplitLosesNothing(text);
    JoinIsEnded(lines);
    assert Last(lines) in lines;
    assert forall line | line in Init(lines) :: line in lines;
    if Last(lines) == "" {
      if Init(lines) != [] { EndedByNewline(Init(lines)); }
    } else {
      assert text[|text| - 1] == Last(lines)[|Last(lines)| - 1];
    }
  }

  lemma {:induction false} EndedByNewline(lines: seq<string>)
    requires lines != []
    ensures Ended(lines) != "" && Ended(lines)[|Ended(lines)| - 1] == '\n'
  {
    if |lines| > 1 { EndedByNewline(lines[1..]); }
  }

  lemma LinesAgain(lines: seq<string>)
    requires lines != []
    ensures Init(lines) + [Last(lines)] == lines
  {
  }

  /** The data handlers of one child process. */
  class Output {
    var pending: string
    var stdout: string
    var stderr: string
    var told: seq<string>
    const listening: bool
    /** All chunks that have come so far. */
    ghost var chunks: seq<string>
    ghost var errors: seq<string>

    constructor (listens: bool)
      ensures Valid() && told == [] && chunks == [] && errors == [] && listening == listens
    {
      pending, stdout, stderr, told, chunks, errors, listening := "", "", "", [], [], [], listens;
      new;
      assert Init(Split("")) == [];
    }

    ghost predicate Valid()
      reads this
    {
      && stdout == Tail(Concat(chunks)) && stderr == Tail(Concat(errors))
      && (listening ==> told == Init(Split(Concat(chunks))) && pending == Last(Split(Concat(chunks))))
      && (!listening ==> told == [] && pending == "")
    }

    method OnStdout(text: string)
      requires Valid()
      modifies this
      ensures Valid() && chunks == old(chunks) + [text] && errors == old(errors)
    {
      hide Split, Concat;
      ConcatSnoc(chunks, text);
      TailAcross(Concat(chunks), text);
      SplitAcross(Concat(chunks), text);
      chunks := chunks + [text];
      stdout := Tail(stdout + text);
      if !listening { return; }
      TellLines(text);
    }

    /** Splits what is pending, keeps the last piece, and passes on the lines before it. */
    method TellLines(text: string)
      modifies this`pending, this`told
      ensures pending == Last(Split(old(pending) + text))
      ensures told == old(told) + Init(Split(old(pending) + text))
    {
      hide Split;
      var lines := Split(pending + text);
      pending := lines[|lines| - 1];
      lines := lines[..|lines| - 1];
      for i := 0 to |lines|
        invariant told == old(told) + lines[..i] && pending == Last(Split(old(pending) + text))
      {
        told := told + [lines[i]];
      }
      assert lines[..|lines|] == lines;
    }

    method OnStderr(text: string)
      requires Valid()
      modifies this
      ensures Valid() && errors == old(errors) + [text] && chunks == old(chunks) && told == old(told)
    {
      hide Split, Concat;
      ConcatSnoc(errors, text);
      TailAcross(Concat(errors), text);
      errors := errors + [text];
      stderr := Tail(stderr + text);
    }

    /** Main result: however the output was cut into chunks, the listener has been told the lines of the
        whole, and the last 200,000 characters of the whole are kept. */
    method OnClose()
      requires Valid()
      modifies this`told
      ensures told == if listening then Told(Concat(chunks)) else []
      ensures stdout == Tail(Concat(chunks)) && stderr == Tail(Concat(errors))
    {
      hide Split, Concat;
      LinesAgain(Split(Concat(chunks)));
      if pending != "" && listening { told := told + [pending]; }
    }
  }

  method Feed(chunks: seq<string>) returns (lines: seq<string>, tail: string)
    ensures lines == Told(Concat(chunks)) && tail == Tail(Concat(chunks))
  {
    var output := new Output(true);
    for i := 0 to |chunks|
      invariant output.Valid() && output.chunks == chunks[..i] && fresh(output)
    {
      output.OnStdout(chunks[i]);
    }
    assert chunks[..|chunks|] == chunks;
    output.OnClose();
    lines, tail := output.told, output.stdout;
  }
}
