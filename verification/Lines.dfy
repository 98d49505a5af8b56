/** Python's bytes.splitlines, on which both ledgers are read. */
module Lines {
  import opened CanonicalJson

  /** Length of the first line with its terminator: a line feed, a carriage return, or both. */
  function FirstLine(raw: string): (n: nat)
    requires raw != ""
    ensures 0 < n <= |raw|
  {
    if raw[0] == '\n' then 1
    else if raw[0] == '\r' then (if |raw| > 1 && raw[1] == '\n' then 2 else 1)
    else if |raw| == 1 then 1
    else 1 + FirstLine(raw[1..])
  }

  /** splitlines(keepends=True). */
  function Split(raw: string): seq<string> {
    if raw == "" then [] else [raw[..FirstLine(raw)]] + Split(raw[FirstLine(raw)..])
  }

  /** A line without its terminator, as splitlines() yields it. */
  function Chomp(line: string): string {
    var n := |line|;
    if n > 0 && line[n - 1] == '\n' then
      if n > 1 && line[n - 2] == '\r' then line[..n - 2] else line[..n - 1]
    else if n > 0 && line[n - 1] == '\r' then line[..n - 1]
    else line
  }

  function Concat(lines: seq<string>): string {
    if lines == [] then "" else Concat(lines[..|lines| - 1]) + lines[|lines| - 1]
  }

  predicate EndsLine(raw: string) {
    raw == "" || raw[|raw| - 1] == '\n'
  }

  lemma {:induction false} ConcatPrepend(line: string, lines: seq<string>)
    ensures Concat([line] + lines) == line + Concat(lines)
  {
    if lines == [] {
      assert Concat([line]) == Concat([]) + line;
    } else {
      var n := |lines|;
      ConcatPrepend(line, lines[..n - 1]);
      assert ([line] + lines)[..n] == [line] + lines[..n - 1];
    }
  }

  /** Splitting loses nothing. */
  lemma {:induction false} ConcatOfSplit(raw: string)
    ensures Concat(Split(raw)) == raw
    decreases |raw|
  {
    if raw != "" {
      var n := FirstLine(raw);
      ConcatOfSplit(raw[n..]);
      ConcatPrepend(raw[..n], Split(raw[n..]));
      assert raw == raw[..n] + raw[n..];
    }
  }

  lemma {:induction false} FirstLinePrintable(text: string, end: string)
    requires Printable(text) && (end == "\n" || end == "\r\n")
    ensures FirstLine(text + end) == |text + end|
  {
    if text != "" {
      assert (text + end)[1..] == text[1..] + end;
      FirstLinePrintable(text[1..], end);
    } else {
      assert text + end == end;
    }
  }

  lemma {:induction false} FirstLineOfMore(raw: string, more: string)
    requires raw != "" && EndsLine(raw)
    ensures FirstLine(raw + more) == FirstLine(raw)
  {
    if raw[0] != '\n' && raw[0] != '\r' {
      assert |raw| > 1;
      assert (raw + more)[1..] == raw[1..] + more;
      FirstLineOfMore(raw[1..], more);
    }
  }

  /** Appending a terminated record to a terminated file adds exactly one line. */
  lemma {:induction false} SplitAppend(raw: string, text: string, end: string)
    requires EndsLine(raw) && Printable(text) && (end == "\n" || end == "\r\n")
    ensures Split(raw + (text + end)) == Split(raw) + [text + end]
    decreases |raw|
  {
    var line := text + end;
    if raw == "" {
      FirstLinePrintable(text, end);
      assert raw + line == line;
      assert line[..|line|] == line && line[|line|..] == "";
    } else {
      var n := FirstLine(raw);
      FirstLineOfMore(raw, line);
      assert (raw + line)[..n] == raw[..n];
      assert (raw + line)[n..] == raw[n..] + line;
      SplitAppend(raw[n..], text, end);
    }
  }

  lemma {:induction false} ChompAppended(text: string, end: string)
    requires Printable(text) && (end == "\n" || end == "\r\n")
    ensures Chomp(text + end) == text
  {
    assert (text + end)[..|text|] == text;
  }

  lemma {:induction false} FirstLineEnds(raw: string)
    requires raw != "" && EndsLine(raw)
    ensures raw[FirstLine(raw) - 1] == '\n' || raw[FirstLine(raw) - 1] == '\r'
  {
    if raw[0] != '\n' && raw[0] != '\r' && |raw| > 1 {
      FirstLineEnds(raw[1..]);
    }
  }

  /** Every line of a terminated file carries its terminator. */
  lemma {:induction false} LinesEnd(raw: string, k: nat)
    requires EndsLine(raw) && k < |Split(raw)|
    ensures Split(raw)[k] != ""
    ensures var line := Split(raw)[k]; line[|line| - 1] == '\n' || line[|line| - 1] == '\r'
    decreases |raw|
  {
    FirstLineEnds(raw);
    if k > 0 {
      LinesEnd(raw[FirstLine(raw)..], k - 1);
    }
  }

  lemma {:induction false} FrontAndEnd(line: string, end: char)
    requires line != "" && line[|line| - 1] == end
    ensures line == line[..|line| - 1] + [end]
  {
  }
}
