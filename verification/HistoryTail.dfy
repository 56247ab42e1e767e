/**
  The unterminated last line of the history: how loading reads it, what an append does to it, and what loading
  gives after the append.
 */
module HistoryTail {
  import opened Prelude
  import opened Lines
  import opened HistoryText
  import opened HistoryRows
  import opened HistoryFile

  /** Every line but the last is blank or a row, so loading does not stop before the last. */
  predicate Tolerated(c: Codec, lines: seq<Line>) {
    forall i | 0 <= i < |lines| - 1 :: c.blank(lines[i]) || c.decode(lines[i]).Some?
  }

  predicate RowFree(c: Codec, lines: seq<Line>) {
    forall i | 0 <= i < |lines| :: c.blank(lines[i]) || c.decode(lines[i]).None?
  }

  lemma {:induction false} GatherTail(c: Codec, lines: seq<Line>, rows: seq<Row>)
    requires forall i | 0 <= i < |lines| :: !Terminated(lines[i])
    ensures Gather(c, lines, rows, true, true).Ok? <==> Tolerated(c, lines)
    ensures Tolerated(c, lines) && RowFree(c, lines) ==> Gather(c, lines, rows, true, true) == Ok(rows)
  {
    if lines != [] {
      var rest := lines[1..];
      var next := match c.decode(lines[0]) case Some(row) => Put(rows, row) case None => rows;
      GatherTail(c, rest, if c.blank(lines[0]) then rows else next);
      TailShift(c, lines);
      hide Tolerated, RowFree, Put;
    }
  }

  lemma TailShift(c: Codec, lines: seq<Line>)
    requires lines != []
    ensures Tolerated(c, lines) <==>
            (|lines| == 1 || c.blank(lines[0]) || c.decode(lines[0]).Some?) && Tolerated(c, lines[1..])
    ensures RowFree(c, lines) <==> (c.blank(lines[0]) || c.decode(lines[0]).None?) && RowFree(c, lines[1..])
  {
    var rest := lines[1..];
    if Tolerated(c, lines) {
      forall i | 0 <= i < |rest| - 1
        ensures c.blank(rest[i]) || c.decode(rest[i]).Some?
      {
        assert rest[i] == lines[i + 1];
      }
    }
    if RowFree(c, lines) {
      forall i | 0 <= i < |rest|
        ensures c.blank(rest[i]) || c.decode(rest[i]).None?
      {
        assert rest[i] == lines[i + 1];
      }
    }
    assert forall i | 1 <= i < |lines| :: lines[i] == rest[i - 1];
  }

  /** Every line is blank or a row, so loading does not even need the last to be unterminated. */
  predicate AllRead(c: Codec, lines: seq<Line>) {
    forall i | 0 <= i < |lines| :: c.blank(lines[i]) || c.decode(lines[i]).Some?
  }

  /** A tail that an append completes is blanks and rows for loading too. */
  predicate TailAgrees(c: Codec, data: Bytes) {
    c.sniff(Tail(data)).Some? ==> AllRead(c, SplitText(Tail(data)))
  }

  /** An append leaves what the tail gives to loading: it completes rows only, and sets aside what holds none. */
  predicate TailStays(c: Codec, data: Bytes) {
    if c.sniff(Tail(data)).Some? then AllRead(c, SplitText(Tail(data))) else RowFree(c, SplitText(Tail(data)))
  }

  lemma AllReadShift(c: Codec, lines: seq<Line>)
    requires lines != []
    ensures AllRead(c, lines) <==> (c.blank(lines[0]) || c.decode(lines[0]).Some?) && AllRead(c, lines[1..])
  {
    var rest := lines[1..];
    assert forall i | 1 <= i < |lines| :: lines[i] == rest[i - 1];
    if AllRead(c, lines) {
      forall i | 0 <= i < |rest|
        ensures c.blank(rest[i]) || c.decode(rest[i]).Some?
      {
        assert rest[i] == lines[i + 1];
      }
    }
  }

  /** The newline ends the last piece, or is a line of its own after a wide break. */
  lemma {:induction false} LineLengthCompleted(tail: Bytes)
    requires tail != [] && Plain(tail)
    ensures var n, m := TextLineLength(tail), TextLineLength(tail + [LF]); m == n || (n == |tail| && m == n + 1)
  {
    var all := tail + [LF];
    assert tail[0] in tail && all[0] == tail[0];
    WideBeforeBreak(tail);
    assert all[1..] == tail[1..] + [LF];
    if WideLength(tail) == 0 {
      if |tail| == 1 {
        assert all[1..] == [LF];
      } else {
        assert forall x | x in tail[1..] :: x in tail;
        LineLengthCompleted(tail[1..]);
      }
    }
  }

  lemma CompletedPieces(tail: Bytes)
    requires tail != [] && Plain(tail)
    ensures var n := TextLineLength(tail);
            if TextLineLength(tail + [LF]) == n then
              SplitText(tail + [LF]) == [tail[..n]] + SplitText(tail[n..] + [LF])
            else
              n == |tail| && SplitText(tail + [LF]) == [tail + [LF]]
  {
    var n, all := TextLineLength(tail), tail + [LF];
    LineLengthCompleted(tail);
    if TextLineLength(all) == n {
      HeadOfConcat(tail, [LF], n);
      SplitHead(all, n, tail[n..] + [LF]);
    } else {
      OnlyLine(all);
    }
    hide TextLineLength, SplitText;
  }

  lemma SplitNewline()
    ensures SplitText([LF]) == [[LF]]
  {
    OnlyLine([LF]);
  }

  /** A tail with a newline put after it loads as before if all its pieces are read, and not at all otherwise. */
  lemma {:induction false} GatherCompleted(c: Codec, tail: Bytes, rows: seq<Row>)
    requires Lawful(c) && Plain(tail)
    ensures Gather(c, SplitText(tail + [LF]), rows, true, true) ==
            if AllRead(c, SplitText(tail)) then Gather(c, SplitText(tail), rows, true, true) else Err(HistoryCorruption)
  {
    if tail == [] {
      SplitNewline();
      assert [] + [LF] == [LF] && SplitText(tail) == [];
      NewlineLaws(c, []);
      BlankNothing(c);
      GatherOne(c, [LF], rows);
      hide Lawful;
    } else {
      var n := TextLineLength(tail);
      var first, rest := tail[..n], tail[n..];
      SplitHead(tail, n, rest);
      CompletedPieces(tail);
      hide Lawful, SplitText, TextLineLength, Put;
      var pieces := SplitText(tail);
      assert pieces[0] == first && pieces[1..] == SplitText(rest);
      AllReadShift(c, pieces);
      if TextLineLength(tail + [LF]) == n {
        assert forall x | x in rest :: x in tail;
        var next := match c.decode(first) case Some(row) => Put(rows, row) case None => rows;
        GatherCompleted(c, rest, if c.blank(first) then rows else next);
        LinesNotEmpty(rest + [LF]);
        FirstGathered(c, first, SplitText(rest + [LF]), rows);
        FirstGathered(c, first, SplitText(rest), rows);
        hide AllRead, Gather;
      } else {
        NewlineLaws(c, tail);
        assert rest == [];
        SplitNothing(rest);
        GatherOne(c, tail, rows);
        GatherOne(c, tail + [LF], rows);
        assert first == tail && pieces == [tail];
        hide Gather;
      }
    }
  }

  lemma BlankNothing(c: Codec)
    requires Lawful(c)
    ensures c.blank([])
  {
  }

  /** The first line of several. */
  lemma FirstGathered(c: Codec, first: Line, lines: seq<Line>, rows: seq<Row>)
    ensures c.blank(first) ==> Gather(c, [first] + lines, rows, true, true) == Gather(c, lines, rows, true, true)
    ensures !c.blank(first) && c.decode(first).Some? ==>
              Gather(c, [first] + lines, rows, true, true) ==
              Gather(c, lines, Put(rows, c.decode(first).value), true, true)
    ensures !c.blank(first) && c.decode(first).None? && lines != [] ==>
              Gather(c, [first] + lines, rows, true, true) == Err(HistoryCorruption)
  {
    assert ([first] + lines)[1..] == lines;
  }

  lemma CutJoins(data: Bytes, n: nat, cut: nat)
    requires n <= cut <= |data|
    ensures data[..cut] == data[..n] + data[n..][..cut - n] && data[cut..] == data[n..][cut - n..]
  {
  }

  /** The last line, what precedes it, and how it ends. */
  ghost predicate LastIs(data: Bytes, last: Line) {
    && |last| <= |data| && data[|data| - |last|..] == last && EndsLine(data[..|data| - |last|])
    && (EndsLine(data) <==> Terminated(last)) && (!Terminated(last) ==> Plain(last))
  }

  lemma OneByteLine(data: Bytes)
    requires data != [] && LineLength(data) == |data|
    ensures SplitLines(data) == [data] && LastIs(data, data)
  {
    assert data[..|data|] == data && SplitLines(data[|data|..]) == [];
    if !Terminated(data) { UnterminatedIsPlain(data); }
    hide LineLength, SplitLines, Plain;
  }

  lemma LastIsLonger(data: Bytes, n: nat, last: Line)
    requires 0 < n < |data| && Terminated(data[..n]) && LastIs(data[n..], last)
    ensures LastIs(data, last)
  {
    hide Plain;
    var cut := |data| - |last|;
    CutJoins(data, n, cut);
    EndsLineConcat(data[..n], data[n..][..cut - n]);
  }

  /** What precedes the tail ends a line, and the tail has no LF or CR in it. */
  lemma {:induction false} ByteTail(data: Bytes)
    requires data != []
    ensures var lines := SplitLines(data); lines != [] && LastIs(data, lines[|lines| - 1])
  {
    hide LastIs, Terminated, LineLength, SplitLines;
    var n := LineLength(data);
    if n == |data| {
      OneByteLine(data);
    } else {
      ByteTail(data[n..]);
      FirstLineTerminated(data);
      ByteHead(data, n, data[n..]);
      var lines := SplitLines(data[n..]);
      LastIsLonger(data, n, lines[|lines| - 1]);
    }
  }

  lemma SplitNoLines(data: Bytes)
    requires data == []
    ensures SplitLines(data) == [] && Plain(data)
  {
  }

  lemma HeadAndTail(data: Bytes)
    ensures data == Head(data) + Tail(data) && EndsLine(Head(data)) && Plain(Tail(data))
    ensures Tail(data) == [] <==> EndsLine(data)
  {
    hide SplitLines, Plain;
    SplitNoLines([]);
    if data != [] { ByteTail(data); }
  }

  lemma PlainStart(tail: Bytes)
    requires Plain(tail) && tail != []
    ensures tail[0] != LF
  {
    assert tail[0] in tail;
  }

  /**
    What an append keeps of a loadable history ends a line, and reads exactly when every piece of a completed tail
    does. Then it reads as the history itself if the tail stays, and otherwise as the history before the tail.
   */
  lemma KeptReadsSame(c: Codec, data: Bytes)
    requires Lawful(c) && Load(c, Some(data)).Ok?
    ensures var kept := PlanOf(c, data).kept;
            var before, after := Gather(c, SplitText(data), [], true, true), Gather(c, SplitText(kept), [], true, true);
            && EndsLine(kept) && c.utf8(kept) && before.Ok? && Gather(c, SplitText(Head(data)), [], true, true).Ok?
            && after == (if !TailAgrees(c, data) then Err(HistoryCorruption)
                         else if TailStays(c, data) then before
                         else Gather(c, SplitText(Head(data)), [], true, true))
            && (!TailStays(c, data) && TailAgrees(c, data) ==> kept == Head(data))
  {
    var head, tail := Head(data), Tail(data);
    HeadAndTail(data);
    assert c.utf8(data);
    hide Lawful, SplitText, Gather, Plain, EndsLine, Tail, Head, AllRead, RowFree, Load;
    if tail == [] {
      assert data == head;
      NoPieces(c, tail);
    } else {
      PlainStart(tail);
      FollowLaws(c, head, tail);
      TerminatedLines(head);
      SplitConcat(head, tail);
      GatherConcat(c, SplitText(head), SplitText(tail), [], true, true);
      var rows := Gather(c, SplitText(head), [], true, true).value;
      if c.sniff(tail).Some? {
        CompletedReads(c, head, tail, rows);
        Associates(head, tail, [LF]);
        NewlineLaws(c, data);
        NewlineEnds(data);
      } else {
        UnterminatedPieces(tail);
        GatherTail(c, SplitText(tail), rows);
      }
    }
  }

  lemma NoPieces(c: Codec, tail: Bytes)
    requires tail == []
    ensures AllRead(c, SplitText(tail)) && RowFree(c, SplitText(tail))
  {
  }

  lemma CompletedReads(c: Codec, head: Bytes, tail: Bytes, rows: seq<Row>)
    requires Lawful(c) && EndsLine(head) && Plain(tail) && tail != []
    requires Gather(c, SplitText(head), [], true, true) == Ok(rows)
    ensures Gather(c, SplitText(head + (tail + [LF])), [], true, true) ==
            if AllRead(c, SplitText(tail)) then Gather(c, SplitText(tail), rows, true, true)
            else Err(HistoryCorruption)
  {
    hide Lawful, SplitText, Gather, Plain, EndsLine, AllRead;
    PlainStart(tail);
    TerminatedLines(head);
    SplitConcat(head, tail + [LF]);
    GatherConcat(c, SplitText(head), SplitText(tail + [LF]), [], true, true);
    GatherCompleted(c, tail, rows);
  }

  lemma NewlineEnds(data: Bytes)
    ensures EndsLine(data + [LF])
  {
  }

  lemma UnterminatedPieces(tail: Bytes)
    requires Plain(tail)
    ensures forall i | 0 <= i < |SplitText(tail)| :: !Terminated(SplitText(tail)[i])
  {
    forall i | 0 <= i < |SplitText(tail)|
      ensures !Terminated(SplitText(tail)[i])
    {
      PiecesUnterminated(tail, i);
    }
  }

  /** Some line is a row of this key. */
  predicate Carries(c: Codec, lines: seq<Line>, key: Key) {
    exists i | 0 <= i < |lines| :: !c.blank(lines[i]) && c.decode(lines[i]).Some? && c.decode(lines[i]).value.key == key
  }

  lemma CarriesShift(c: Codec, lines: seq<Line>, key: Key)
    requires lines != []
    ensures Carries(c, lines, key) <==>
            (!c.blank(lines[0]) && c.decode(lines[0]).Some? && c.decode(lines[0]).value.key == key)
            || Carries(c, lines[1..], key)
  {
    var rest := lines[1..];
    assert forall i | 1 <= i < |lines| :: lines[i] == rest[i - 1];
    if Carries(c, rest, key) {
      var i :| 0 <= i < |rest| && !c.blank(rest[i]) && c.decode(rest[i]).Some? && c.decode(rest[i]).value.key == key;
      assert lines[i + 1] == rest[i];
    }
  }

  lemma PutHasKey(rows: seq<Row>, row: Row, key: Key)
    ensures HasKey(Put(rows, row), key) <==> HasKey(rows, key) || key == row.key
  {
    var after := Put(rows, row);
    if HasKey(rows, key) {
      var i :| 0 <= i < |rows| && rows[i].key == key;
      assert after[i].key == key;
    }
    if key == row.key && !HasKey(rows, key) { assert after[|rows|] == row; }
  }

  lemma {:induction false} GatherKeys(c: Codec, lines: seq<Line>, rows: seq<Row>, key: Key)
    requires Gather(c, lines, rows, true, true).Ok?
    ensures HasKey(Gather(c, lines, rows, true, true).value, key) <==> HasKey(rows, key) || Carries(c, lines, key)
  {
    if lines != [] {
      var next := match c.decode(lines[0]) case Some(row) => Put(rows, row) case None => rows;
      GatherKeys(c, lines[1..], if c.blank(lines[0]) then rows else next, key);
      CarriesShift(c, lines, key);
      if c.decode(lines[0]).Some? { PutHasKey(rows, c.decode(lines[0]).value, key); }
      hide Carries, Put, HasKey;
    }
  }

  /** Setting the tail aside loses a key that loading returned exactly when a piece of the tail is a row of a key
      that the history before it does not have. */
  lemma TailKeys(c: Codec, before: Bytes, tail: Bytes, key: Key)
    requires Lawful(c) && EndsLine(before) && tail != [] && Plain(tail)
    requires Load(c, Some(before)).Ok? && Load(c, Some(before + tail)).Ok?
    ensures HasKey(Load(c, Some(before + tail)).value, key) <==>
            HasKey(Load(c, Some(before)).value, key) || Carries(c, SplitText(tail), key)
  {
    assert tail[0] in tail;
    hide Lawful, SplitText, Gather, Plain, Sort, Carries, HasKey;
    TerminatedLines(before);
    SplitConcat(before, tail);
    GatherConcat(c, SplitText(before), SplitText(tail), [], true, true);
    var rows := Gather(c, SplitText(before), [], true, true).value;
    GatherKeys(c, SplitText(tail), rows, key);
    SortKeys(rows, key);
    SortKeys(Gather(c, SplitText(tail), rows, true, true).value, key);
  }

  /**
    A torn tail that is no row, after a loadable history: the file still loads exactly when the tail is whole
    characters and every piece of it but the last, as text is cut, is blank or a row. If no piece is a row,
    it loads as the history before the tail.
   */
  lemma TornTailLoads(c: Codec, before: Bytes, tail: Bytes)
    requires Lawful(c) && EndsLine(before) && Load(c, Some(before)).Ok?
    requires tail != [] && Plain(tail) && c.sniff(tail).None?
    ensures PlanOf(c, before + tail) == Plan(before, Some(tail))
    ensures Load(c, Some(before + tail)).Ok? <==> c.utf8(tail) && Tolerated(c, SplitText(tail))
    ensures Load(c, Some(before + tail)).Ok? && RowFree(c, SplitText(tail)) ==>
              Load(c, Some(before + tail)) == Load(c, Some(before))
  {
    assert tail[0] in tail;
    forall i | 0 <= i < |SplitText(tail)|
      ensures !Terminated(SplitText(tail)[i])
    {
      PiecesUnterminated(tail, i);
    }
    hide Lawful, SplitText, SplitLines, Gather, Plain, PlanOf, Sort, Tolerated, RowFree;
    FollowLaws(c, before, tail);
    TailIsLastLine(before, tail);
    assert (before + tail)[..|before|] == before;
    TerminatedLines(before);
    SplitConcat(before, tail);
    GatherConcat(c, SplitText(before), SplitText(tail), [], true, true);
    GatherTail(c, SplitText(tail), Gather(c, SplitText(before), [], true, true).value);
  }

  /** No key is new in what is kept. */
  lemma KeptHasNoKey(c: Codec, data: Bytes, key: Key)
    requires Lawful(c) && Load(c, Some(data)).Ok? && !HasKey(Load(c, Some(data)).value, key) && TailAgrees(c, data)
    ensures var kept := Gather(c, SplitText(PlanOf(c, data).kept), [], true, true);
            kept.Ok? && !HasKey(kept.value, key)
  {
    var head, tail := Head(data), Tail(data);
    HeadAndTail(data);
    SortKeys(Gather(c, SplitText(data), [], true, true).value, key);
    KeptReadsSame(c, data);
    if !TailStays(c, data) {
      assert tail != [];
      PlainStart(tail);
      hide Lawful, SplitText, Gather, Plain, EndsLine, Tail, Head, Load, TailAgrees, TailStays, Carries, HasKey;
      TerminatedLines(head);
      SplitConcat(head, tail);
      GatherConcat(c, SplitText(head), SplitText(tail), [], true, true);
      GatherKeys(c, SplitText(tail), Gather(c, SplitText(head), [], true, true).value, key);
    }
  }

  /** What is kept loads as the history, or as the part before its tail. */
  lemma KeptLoads(c: Codec, data: Bytes)
    requires Lawful(c) && Load(c, Some(data)).Ok? && TailAgrees(c, data)
    ensures var rows := Gather(c, SplitText(PlanOf(c, data).kept), [], true, true);
            rows.Ok? && Load(c, Some(if TailStays(c, data) then data else Head(data))) == Ok(Sort(rows.value))
  {
    hide Lawful, SplitText, Gather, PlanOf, TailAgrees, TailStays, Tail, Head, EndsLine;
    KeptReadsSame(c, data);
  }

  lemma ExtendedEnds(c: Codec, data: Bytes, row: Row)
    ensures Tail(Extended(c, data, row)) == []
  {
    var kept := PlanOf(c, data).kept;
    NewlineEnds(kept + c.encode(row));
    Associates(kept, c.encode(row), [LF]);
    HeadAndTail(Extended(c, data, row));
    hide PlanOf, Tail, Head;
  }

  /** The rows of what was kept, and the new one. */
  lemma GatherNewLine(c: Codec, kept: Bytes, row: Row)
    requires Lawful(c) && EndsLine(kept)
    ensures var rows, line := Gather(c, SplitText(kept), [], true, true), c.encode(row) + [LF];
            Gather(c, SplitText(kept + line), [], true, true) ==
            if rows.Ok? && Narrow(c.encode(row)) then Ok(Put(rows.value, row)) else Err(HistoryCorruption)
  {
    hide *;
    var line := c.encode(row) + [LF];
    LineLaws(c, row);
    assert line[0] == c.encode(row)[0];
    SplitConcat(kept, line);
    TerminatedLines(kept);
    GatherConcat(c, SplitText(kept), SplitText(line), [], true, true);
    var rows := Gather(c, SplitText(kept), [], true, true);
    match rows
    case Ok(gathered) => NewLine(c, row, gathered);
    case Err(HistoryCorruption) =>
  }

  /** Loading a new line after what was kept. */
  lemma LoadNewLine(c: Codec, kept: Bytes, row: Row)
    requires Lawful(c) && EndsLine(kept) && c.utf8(kept)
    requires var rows := Gather(c, SplitText(kept), [], true, true); rows.Ok? ==> !HasKey(rows.value, row.key)
    ensures var rows := Gather(c, SplitText(kept), [], true, true);
            Load(c, Some(kept + (c.encode(row) + [LF]))) ==
            if rows.Ok? && Narrow(c.encode(row)) then Ok(Insert(Sort(rows.value), row)) else Err(HistoryCorruption)
  {
    LineLaws(c, row);
    hide Lawful, SplitText, Narrow, Gather, HasKey, EndsLine, Sort, Insert, Put;
    FollowLaws(c, kept, c.encode(row) + [LF]);
    GatherNewLine(c, kept, row);
    var rows := Gather(c, SplitText(kept), [], true, true);
    if rows.Ok? { SortOneMore(rows.value, row); }
  }

  /**
    Loading after an append of a new key. It succeeds exactly when the encoded row contains no wide break and every
    piece of a completed tail is read, and then gives the rows that were kept and the new one, in key order. Those
    kept are all the rows loaded before if the tail stays, and otherwise the rows before the tail.
   */
  lemma AppendThenLoad(c: Codec, data: Bytes, row: Row)
    requires Lawful(c) && Load(c, Some(data)).Ok? && !HasKey(Load(c, Some(data)).value, row.key)
    ensures var kept := if TailStays(c, data) then data else Head(data);
            && (Narrow(c.encode(row)) && TailAgrees(c, data) ==> Load(c, Some(kept)).Ok?)
            && Load(c, Some(Extended(c, data, row))) ==
               if Narrow(c.encode(row)) && TailAgrees(c, data) then Ok(Insert(Load(c, Some(kept)).value, row))
               else Err(HistoryCorruption)
    ensures Tail(Extended(c, data, row)) == []
  {
    ExtendedEnds(c, data, row);
    hide Lawful, SplitText, Narrow, Gather, PlanOf, HasKey, TailAgrees, TailStays, Tail, Head, EndsLine, Load;
    KeptReadsSame(c, data);
    if TailAgrees(c, data) {
      KeptLoads(c, data);
      KeptHasNoKey(c, data, row.key);
    }
    LoadNewLine(c, PlanOf(c, data).kept, row);
  }
}
