/**
  Loading and appending to the engagement history as functions of the file's bytes. The JSON codec and its
  validator are parameters; `Lawful` says what is used of them.
 */
module HistoryFile {
  import opened Prelude
  import opened Lines
  import opened HistoryText
  import opened HistoryRows

  /**
    `decode` is parsing and validating one line of decoded text, as loading does; `sniff` is parsing and validating
    the bytes of the last line, as appending does, where a byte order mark or UTF-16 is understood that `decode`
    refuses; `blank` says that a line strips to nothing, and `utf8` that the bytes decode.
   */
  datatype Codec = Codec(
    encode: Row -> Bytes, decode: Bytes -> Option<Row>, sniff: Bytes -> Option<Row>, blank: Bytes -> bool,
    utf8: Bytes -> bool)

  /** A row is written as one JSON object: no proper prefix of it parses, and trailing newlines do not matter. Bytes
      that parse as text also parse as bytes. */
  ghost predicate Lawful(c: Codec) {
    && (forall r: Row :: c.encode(r) != [] && Plain(c.encode(r)) && c.utf8(c.encode(r)))
    && (forall r: Row :: c.decode(c.encode(r)) == Some(r) && !c.blank(c.encode(r)))
    && (forall r: Row, k: nat | 0 < k < |c.encode(r)| ::
          c.decode(c.encode(r)[..k]) == None && !c.blank(c.encode(r)[..k]))
    && (forall r: Row :: WideFreeEnd(c.encode(r)))
    && c.blank([])
    && (forall b: Bytes :: (c.decode(b).Some? ==> c.sniff(b).Some?) && (c.sniff(b).Some? ==> !c.blank(b)))
    && (forall b: Bytes :: c.decode(b + [LF]) == c.decode(b) && c.blank(b + [LF]) == c.blank(b))
    && (forall b: Bytes :: c.utf8(b + [LF]) == c.utf8(b))
    && (forall a: Bytes, b: Bytes | EndsLine(a) :: c.utf8(a + b) == (c.utf8(a) && c.utf8(b)))
  }

  /** The last byte belongs to no wide break (it is the closing brace). */
  predicate WideFreeEnd(data: Bytes) {
    data != [] && data[|data| - 1] == 0x7d
  }

  datatype Failure = HistoryCorruption

  /** The rows of the lines, in order, on top of those already gathered. */
  function Gather(c: Codec, lines: seq<Line>, rows: seq<Row>, strict: bool, recoverTail: bool)
    : Result<seq<Row>, Failure>
  {
    if lines == [] then Ok(rows)
    else if c.blank(lines[0]) then Gather(c, lines[1..], rows, strict, recoverTail)
    else
      match c.decode(lines[0])
      case Some(row) => Gather(c, lines[1..], Put(rows, row), strict, recoverTail)
      case None =>
        var isTail := |lines| == 1 && !Terminated(lines[0]);
        if !(isTail && recoverTail) && strict then Err(HistoryCorruption)
        else Gather(c, lines[1..], rows, strict, recoverTail)
  }

  /** `load` of an existing file. */
  function LoadData(c: Codec, data: Bytes, strict: bool, recoverTail: bool): Result<seq<Row>, Failure> {
    if !c.utf8(data) then Err(HistoryCorruption)
    else
      match Gather(c, SplitText(data), [], strict, recoverTail)
      case Err(e) => Err(e)
      case Ok(rows) => Ok(Sort(rows))
  }

  function Load(c: Codec, file: Option<Bytes>): Result<seq<Row>, Failure> {
    match file
    case None => Ok([])
    case Some(data) => LoadData(c, data, true, true)
  }

  /** The last line of the bytes if it is unterminated; nothing otherwise. */
  function Tail(data: Bytes): (tail: Bytes)
    ensures |tail| <= |data|
  {
    var lines := SplitLines(data);
    LastLineFits(data);
    if lines == [] || Terminated(lines[|lines| - 1]) then [] else lines[|lines| - 1]
  }

  function Head(data: Bytes): Bytes {
    data[..|data| - |Tail(data)|]
  }

  lemma {:induction false} LastLineFits(data: Bytes)
    ensures SplitLines(data) != [] ==> |SplitLines(data)[|SplitLines(data)| - 1]| <= |data|
  {
    if data != [] { LastLineFits(data[LineLength(data)..]); }
  }

  /** What an append keeps of the old bytes, and the tail it sets aside. */
  datatype Plan = Plan(kept: Bytes, aside: Option<Bytes>)

  /** A tail is completed when it is a row and cut off otherwise. */
  function PlanOf(c: Codec, data: Bytes): Plan {
    if Tail(data) == [] then Plan(data, None)
    else if c.sniff(Tail(data)).Some? then Plan(data + [LF], None)
    else Plan(Head(data), Some(Tail(data)))
  }

  function Extended(c: Codec, data: Bytes, row: Row): Bytes {
    PlanOf(c, data).kept + (c.encode(row) + [LF])
  }

  lemma {:induction false} GatherConcat(c: Codec, a: seq<Line>, b: seq<Line>, rows: seq<Row>, strict: bool,
                                        recoverTail: bool)
    requires a != [] ==> Terminated(a[|a| - 1])
    ensures Gather(c, a + b, rows, strict, recoverTail) ==
            match Gather(c, a, rows, strict, recoverTail)
            case Err(e) => Err(e)
            case Ok(gathered) => Gather(c, b, gathered, strict, recoverTail)
  {
    if a == [] {
      assert a + b == b;
    } else {
      assert (a + b)[1..] == a[1..] + b;
      var next := match c.decode(a[0]) case Some(row) => Put(rows, row) case None => rows;
      GatherConcat(c, a[1..], b, if c.blank(a[0]) then rows else next, strict, recoverTail);
    }
  }

  /** A single line that may be the tail. */
  lemma GatherOne(c: Codec, line: Line, rows: seq<Row>)
    ensures Gather(c, [line], rows, true, true) ==
            if c.blank(line) then Ok(rows)
            else
              match c.decode(line)
              case Some(row) => Ok(Put(rows, row))
              case None => if Terminated(line) then Err(HistoryCorruption) else Ok(rows)
  {
    assert [line][1..] == [];
  }

  lemma {:induction false} GatherDistinct(c: Codec, lines: seq<Line>, rows: seq<Row>, strict: bool, recoverTail: bool)
    requires DistinctKeys(rows)
    ensures Gather(c, lines, rows, strict, recoverTail).Ok? ==>
              DistinctKeys(Gather(c, lines, rows, strict, recoverTail).value)
  {
    if lines != [] {
      var next := match c.decode(lines[0]) case Some(row) => Put(rows, row) case None => rows;
      if c.decode(lines[0]).Some? { PutKeys(rows, c.decode(lines[0]).value); }
      GatherDistinct(c, lines[1..], if c.blank(lines[0]) then rows else next, strict, recoverTail);
    }
  }

  /** Loading returns the rows strictly increasing by key. */
  lemma LoadSorted(c: Codec, file: Option<Bytes>)
    requires Load(c, file).Ok?
    ensures Sorted(Load(c, file).value)
  {
    if file.Some? { LoadDataSorted(c, file.value, true, true); }
  }

  lemma LoadDataSorted(c: Codec, data: Bytes, strict: bool, recoverTail: bool)
    ensures LoadData(c, data, strict, recoverTail).Ok? ==> Sorted(LoadData(c, data, strict, recoverTail).value)
  {
    GatherDistinct(c, SplitText(data), [], strict, recoverTail);
    var gathered := Gather(c, SplitText(data), [], strict, recoverTail);
    if gathered.Ok? { SortSorted(gathered.value); }
  }

  /** Text ending a line splits into lines that are all terminated, so nothing in it is a tail. */
  lemma LastTerminated(data: Bytes)
    requires data != [] && EndsLine(data)
    ensures SplitText(data) != [] && Terminated(SplitText(data)[|SplitText(data)| - 1])
  {
    LinesNotEmpty(data);
    CutLastLine(data);
  }

  lemma NarrowHead(data: Bytes)
    requires data != []
    ensures Narrow(data) <==> WideLength(data) == 0 && Narrow(data[1..])
  {
    assert data[0..] == data;
    forall i | 1 <= i < |data|
      ensures data[i..] == data[1..][i - 1..]
    {
    }
    if WideLength(data) == 0 && Narrow(data[1..]) {
      forall i | 0 <= i < |data|
        ensures WideLength(data[i..]) == 0
      {
        if i > 0 { assert WideLength(data[1..][i - 1..]) == 0; }
      }
    }
    if Narrow(data) { NarrowSuffix(data, 1); }
  }

  lemma {:induction false} NarrowBreak(data: Bytes)
    ensures Narrow(data + [LF]) <==> Narrow(data)
  {
    if data == [] {
      assert [][..] + [LF] == [LF];
    } else {
      assert (data + [LF])[1..] == data[1..] + [LF];
      NarrowHead(data);
      NarrowHead(data + [LF]);
      NarrowBreak(data[1..]);
    }
  }

  /** A single unterminated line has no break in it. */
  lemma {:induction false} UnterminatedIsPlain(line: Bytes)
    requires line != [] && LineLength(line) == |line| && !Terminated(line)
    ensures Plain(line)
  {
    if |line| > 1 { UnterminatedIsPlain(line[1..]); }
  }

  lemma Associates(a: Bytes, b: Bytes, d: Bytes)
    ensures (a + b) + d == a + (b + d)
  {
  }

  lemma TerminatedLines(before: Bytes)
    requires EndsLine(before)
    ensures SplitText(before) != [] ==> Terminated(SplitText(before)[|SplitText(before)| - 1])
  {
    if before != [] { LastTerminated(before); }
  }

  lemma NewlineLaws(c: Codec, b: Bytes)
    requires Lawful(c)
    ensures c.decode(b + [LF]) == c.decode(b) && c.blank(b + [LF]) == c.blank(b) && c.utf8(b + [LF]) == c.utf8(b)
  {
  }

  lemma PlainLine(text: Bytes)
    requires Plain(text) && Narrow(text)
    ensures SplitText(text + [LF]) == [text + [LF]]
  {
    NarrowBreak(text);
    SameLines(text + [LF]);
    assert text + [LF] == text + [LF] + [];
    SplitPlainLine(text, []);
  }

  /** A wide break inside an encoded row cuts it short. */
  lemma {:induction false} FragmentShort(text: Bytes)
    requires Plain(text) && WideFreeEnd(text) && !Narrow(text)
    ensures 0 < TextLineLength(text + [LF]) < |text|
  {
    NarrowHead(text);
    assert (text + [LF])[1..] == text[1..] + [LF];
    if WideLength(text) == 0 {
      assert WideLength(text + [LF]) == 0;
      assert |text| > 1;
      FragmentShort(text[1..]);
    }
  }

  /** What the new line adds to the rows gathered so far. */
  lemma NewLine(c: Codec, row: Row, rows: seq<Row>)
    requires Lawful(c)
    ensures Gather(c, SplitText(c.encode(row) + [LF]), rows, true, true) ==
            if Narrow(c.encode(row)) then Ok(Put(rows, row)) else Err(HistoryCorruption)
  {
    var text := c.encode(row);
    if Narrow(text) {
      PlainLine(text);
      assert c.decode(text + [LF]) == Some(row) && !c.blank(text + [LF]);
    } else {
      FragmentShort(text);
      var n := TextLineLength(text + [LF]);
      assert (text + [LF])[..n] == text[..n];
      assert c.decode(text[..n]) == None && !c.blank(text[..n]);
      LinesNotEmpty((text + [LF])[n..]);
    }
  }

  lemma LineLaws(c: Codec, row: Row)
    requires Lawful(c)
    ensures c.encode(row) != [] && c.encode(row)[0] != LF && c.utf8(c.encode(row) + [LF])
  {
    assert c.encode(row)[0] in c.encode(row);
  }

  lemma FollowLaws(c: Codec, a: Bytes, b: Bytes)
    requires Lawful(c) && EndsLine(a)
    ensures c.utf8(a + b) == (c.utf8(a) && c.utf8(b))
  {
  }

  lemma SortOneMore(rows: seq<Row>, row: Row)
    requires !HasKey(rows, row.key)
    ensures Sort(Put(rows, row)) == Insert(Sort(rows), row)
  {
    assert (rows + [row])[..|rows|] == rows;
  }
}
