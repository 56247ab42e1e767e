/**
  Line splitting as `bytes.splitlines(keepends=True)` does it: a line ends at LF, CR or CRLF,
  and the last line may be unterminated.
 */
module Lines {
  import opened Prelude

  /** A line together with its terminator is never empty. */
  type Line = line: Bytes | line != [] witness [0]

  const LF: byte := 10
  const CR: byte := 13

  /** Length of the first line of a nonempty text, its terminator included. */
  function LineLength(data: Bytes): (n: nat)
    requires data != []
    ensures 1 <= n <= |data|
  {
    if data[0] == LF then 1
    else if data[0] == CR then if |data| > 1 && data[1] == LF then 2 else 1
    else if |data| == 1 then 1
    else 1 + LineLength(data[1..])
  }

  function SplitLines(data: Bytes): (lines: seq<Line>) {
    if data == [] then []
    else
      var n := LineLength(data);
      [data[..n]] + SplitLines(data[n..])
  }

  predicate Terminated(line: Line) {
    line[|line| - 1] == LF || line[|line| - 1] == CR
  }

  predicate Plain(text: Bytes) {
    LF !in text && CR !in text
  }

  lemma {:induction false} PlainLineLength(text: Bytes, rest: Bytes)
    requires Plain(text)
    ensures LineLength(text + [LF] + rest) == |text| + 1
  {
    if text != [] {
      assert (text + [LF] + rest)[1..] == text[1..] + [LF] + rest;
      PlainLineLength(text[1..], rest);
    }
  }

  /** A newline-free text followed by LF is exactly one line, whatever follows. */
  lemma SplitPlainLine(text: Bytes, rest: Bytes)
    requires Plain(text)
    ensures SplitLines(text + [LF] + rest) == [text + [LF]] + SplitLines(rest)
  {
    var data := text + [LF] + rest;
    PlainLineLength(text, rest);
    assert data[..|text| + 1] == text + [LF];
    assert data[|text| + 1..] == rest;
  }

  /** An unterminated newline-free text is one line. */
  lemma {:induction false} SplitPlainTail(text: Bytes)
    requires Plain(text) && text != []
    ensures LineLength(text) == |text|
    ensures SplitLines(text) == [text]
  {
    if |text| > 1 {
      SplitPlainTail(text[1..]);
    }
    assert text[..|text|] == text;
    assert SplitLines(text[|text|..]) == [];
  }

  lemma {:induction false} FirstLineTerminated(data: Bytes)
    requires data != [] && LineLength(data) < |data|
    ensures Terminated(data[..LineLength(data)])
  {
    if data[0] != LF && data[0] != CR {
      FirstLineTerminated(data[1..]);
      assert data[..LineLength(data)] == [data[0]] + data[1..][..LineLength(data[1..])];
    }
  }
}
