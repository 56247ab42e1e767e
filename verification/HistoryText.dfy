/**
  The two ways the engagement history is cut into lines. Loading cuts the decoded text, which also breaks at
  the vertical tab, the form feed, the information separators, U+0085, U+2028 and U+2029; appending cuts the
  bytes, at LF, CR and CRLF only. On UTF-8 the two agree exactly when no wide break occurs.
 */
module HistoryText {
  import opened Prelude
  import opened Lines

  /** Length of a break that only the text splitter knows, at the head of the data. */
  function WideLength(data: Bytes): (n: nat)
    ensures n <= |data|
  {
    if data == [] then 0
    else if data[0] == 0x0b || data[0] == 0x0c || data[0] == 0x1c || data[0] == 0x1d || data[0] == 0x1e then 1
    else if |data| >= 2 && data[0] == 0xc2 && data[1] == 0x85 then 2
    else if |data| >= 3 && data[0] == 0xe2 && data[1] == 0x80 && (data[2] == 0xa8 || data[2] == 0xa9) then 3
    else 0
  }

  function BreakLength(data: Bytes): (n: nat)
    ensures n <= |data|
  {
    if data == [] then 0
    else if data[0] == LF then 1
    else if data[0] == CR then if |data| > 1 && data[1] == LF then 2 else 1
    else WideLength(data)
  }

  function TextLineLength(data: Bytes): (n: nat)
    requires data != []
    ensures 1 <= n <= |data|
  {
    if BreakLength(data) > 0 then BreakLength(data)
    else if |data| == 1 then 1
    else 1 + TextLineLength(data[1..])
  }

  /** `text.splitlines(keepends=True)`. */
  function SplitText(data: Bytes): (lines: seq<Line>) {
    if data == [] then []
    else
      var n := TextLineLength(data);
      [data[..n]] + SplitText(data[n..])
  }

  /** No wide break starts anywhere. */
  predicate Narrow(data: Bytes) {
    forall i | 0 <= i < |data| :: WideLength(data[i..]) == 0
  }

  lemma NarrowSuffix(data: Bytes, n: nat)
    requires Narrow(data) && n <= |data|
    ensures Narrow(data[n..])
  {
    forall i | 0 <= i < |data| - n
      ensures WideLength(data[n..][i..]) == 0
    {
      assert data[n..][i..] == data[n + i..];
    }
  }

  lemma {:induction false} SameLineLength(data: Bytes)
    requires data != [] && Narrow(data)
    ensures TextLineLength(data) == LineLength(data)
  {
    assert data[0..] == data;
    if data[0] != LF && data[0] != CR && |data| > 1 {
      NarrowSuffix(data, 1);
      SameLineLength(data[1..]);
    }
  }

  /** Without wide breaks both splitters cut alike. */
  lemma {:induction false} SameLines(data: Bytes)
    requires Narrow(data)
    ensures SplitText(data) == SplitLines(data)
  {
    if data != [] {
      SameLineLength(data);
      NarrowSuffix(data, LineLength(data));
      SameLines(data[LineLength(data)..]);
    }
  }

  predicate EndsLine(data: Bytes) {
    data == [] || data[|data| - 1] == LF || data[|data| - 1] == CR
  }

  lemma WideBeforeBreak(a: Bytes)
    requires a != []
    ensures WideLength(a + [LF]) == WideLength(a)
  {
    var all := a + [LF];
    assert all[0] == a[0] && (|a| > 1 ==> all[1] == a[1]) && (|a| > 2 ==> all[2] == a[2]);
  }

  lemma {:induction false} LineLengthOfLonger(a: Bytes, b: Bytes)
    requires a != [] && EndsLine(a) && (b != [] ==> b[0] != LF)
    ensures TextLineLength(a + b) == TextLineLength(a)
  {
    assert (a + b)[1..] == a[1..] + b;
    if BreakLength(a) == 0 {
      assert BreakLength(a + b) == 0;
      LineLengthOfLonger(a[1..], b);
    }
  }

  lemma {:induction false} RestEndsLine(a: Bytes, n: nat)
    requires EndsLine(a) && n <= |a|
    ensures EndsLine(a[n..])
  {
  }

  lemma SplitHead(data: Bytes, n: nat, rest: Bytes)
    requires data != [] && n == TextLineLength(data) && rest == data[n..]
    ensures SplitText(data) == [data[..n]] + SplitText(rest)
  {
  }

  lemma HeadOfConcat(a: Bytes, b: Bytes, n: nat)
    requires n <= |a|
    ensures (a + b)[..n] == a[..n] && (a + b)[n..] == a[n..] + b
  {
  }

  lemma SplitNothing(data: Bytes)
    requires data == []
    ensures SplitText(data) == []
  {
  }

  /** Text after a line end is split on its own. */
  lemma {:induction false} SplitConcat(a: Bytes, b: Bytes)
    requires EndsLine(a) && (b != [] ==> b[0] != LF)
    ensures SplitText(a + b) == SplitText(a) + SplitText(b)
  {
    hide SplitText, TextLineLength, EndsLine;
    if a == [] {
      assert a + b == b;
      SplitNothing(a);
    } else {
      var n := TextLineLength(a);
      LineLengthOfLonger(a, b);
      RestEndsLine(a, n);
      HeadOfConcat(a, b, n);
      SplitHead(a + b, n, a[n..] + b);
      SplitHead(a, n, a[n..]);
      SplitConcat(a[n..], b);
      LinesAssociate(a[..n], SplitText(a[n..]), SplitText(b));
    }
  }

  lemma LinesAssociate(first: Line, lines: seq<Line>, more: seq<Line>)
    ensures ([first] + lines) + more == [first] + (lines + more)
  {
  }

  lemma {:induction false} LineLengthOfPrefix(data: Bytes, m: nat)
    requires data != [] && TextLineLength(data) <= m <= |data|
    ensures TextLineLength(data[..m]) == TextLineLength(data)
  {
    if BreakLength(data) == 0 && |data| > 1 && m > 1 {
      assert data[..m][1..] == data[1..][..m - 1];
      assert BreakLength(data[..m]) == 0;
      LineLengthOfPrefix(data[1..], m - 1);
    }
  }

  function LastLine(data: Bytes): Line
    requires data != []
  {
    LinesNotEmpty(data);
    SplitText(data)[|SplitText(data)| - 1]
  }

  lemma LinesNotEmpty(data: Bytes)
    requires data != []
    ensures SplitText(data) != []
  {
  }

  lemma OnlyLine(data: Bytes)
    requires data != [] && TextLineLength(data) == |data|
    ensures SplitText(data) == [data] && LastLine(data) == data
  {
    assert data[..|data|] == data && SplitText(data[|data|..]) == [];
  }

  lemma LastOfRest(data: Bytes)
    requires data != [] && TextLineLength(data) < |data|
    ensures var n := TextLineLength(data);
            SplitText(data) == [data[..n]] + SplitText(data[n..]) && LastLine(data) == LastLine(data[n..])
  {
    LinesNotEmpty(data[TextLineLength(data)..]);
  }

  /** Cutting the last line off leaves the other lines. */
  lemma {:induction false} CutLastLine(data: Bytes)
    requires data != []
    ensures |LastLine(data)| <= |data|
    ensures var cut := |data| - |LastLine(data)|;
            && data[cut..] == LastLine(data)
            && SplitText(data[..cut]) == SplitText(data)[..|SplitText(data)| - 1]
  {
    var n := TextLineLength(data);
    var rest := data[n..];
    if n == |data| {
      OnlyLine(data);
    } else {
      hide TextLineLength, LastLine;
      LastOfRest(data);
      CutLastLine(rest);
      var cut := |data| - |LastLine(data)|;
      LineLengthOfPrefix(data, cut);
      assert data[..cut][..n] == data[..n] && data[..cut][n..] == rest[..cut - n];
      assert data[cut..] == rest[cut - n..];
      LinesNotEmpty(rest);
      assert ([data[..n]] + SplitText(rest))[..|SplitText(rest)|] ==
             [data[..n]] + SplitText(rest)[..|SplitText(rest)| - 1];
    }
  }

  lemma EndsLineConcat(a: Bytes, b: Bytes)
    requires a != [] && EndsLine(a) && EndsLine(b)
    ensures EndsLine(a + b)
  {
  }

  lemma {:induction false} ByteLineOfLonger(a: Bytes, b: Bytes)
    requires a != [] && EndsLine(a) && (b != [] ==> b[0] != LF)
    ensures LineLength(a + b) == LineLength(a)
  {
    assert (a + b)[1..] == a[1..] + b;
    if a[0] != LF && a[0] != CR {
      ByteLineOfLonger(a[1..], b);
    }
  }

  /** A text without LF and CR, after a line end, is the last line of the bytes, whatever other breaks it holds. */
  lemma {:induction false} TailIsLastLine(before: Bytes, tail: Bytes)
    requires EndsLine(before) && tail != [] && Plain(tail)
    ensures SplitLines(before + tail) != [] && SplitLines(before + tail)[|SplitLines(before + tail)| - 1] == tail
    ensures !Terminated(tail)
  {
    assert tail[0] in tail && tail[|tail| - 1] in tail;
    if before == [] {
      assert before + tail == tail;
      SplitPlainTail(tail);
    } else {
      hide SplitLines, LineLength, Plain, EndsLine;
      var n := LineLength(before);
      ByteLineOfLonger(before, tail);
      RestEndsLine(before, n);
      HeadOfConcat(before, tail, n);
      TailIsLastLine(before[n..], tail);
      ByteHead(before + tail, n, before[n..] + tail);
    }
  }

  lemma ByteHead(data: Bytes, n: nat, rest: Bytes)
    requires data != [] && n == LineLength(data) && rest == data[n..]
    ensures SplitLines(data) == [data[..n]] + SplitLines(rest)
  {
  }

  /** Nor does any piece of it end with LF or CR when it is cut as text. */
  lemma {:induction false} PiecesUnterminated(tail: Bytes, i: nat)
    requires Plain(tail) && i < |SplitText(tail)|
    ensures !Terminated(SplitText(tail)[i])
  {
    var n := TextLineLength(tail);
    if i == 0 {
      assert tail[n - 1] in tail;
      assert tail[..n][n - 1] == tail[n - 1];
    } else {
      assert forall x | x in tail[n..] :: x in tail;
      PiecesUnterminated(tail[n..], i - 1);
    }
  }
}
