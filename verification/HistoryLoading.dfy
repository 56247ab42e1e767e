/** What loading a history gives: when it fails, and which row of a repeated key is kept. */
module HistoryLoading {
  import opened Prelude
  import opened Lines
  import opened HistoryText
  import opened HistoryRows
  import opened HistoryFile
  import opened HistoryTail

  /** A line that is neither blank nor a row. */
  predicate Bad(c: Codec, line: Line) {
    !c.blank(line) && c.decode(line).None?
  }

  /** Only the last line, and only without its newline, is forgiven. */
  predicate Forgiven(lines: seq<Line>, i: nat, recoverTail: bool)
    requires i < |lines|
  {
    recoverTail && i == |lines| - 1 && !Terminated(lines[i])
  }

  predicate Spoiled(c: Codec, lines: seq<Line>, recoverTail: bool) {
    exists i | 0 <= i < |lines| :: Bad(c, lines[i]) && !Forgiven(lines, i, recoverTail)
  }

  lemma SpoiledShift(c: Codec, lines: seq<Line>, recoverTail: bool)
    requires lines != []
    ensures Spoiled(c, lines, recoverTail) <==>
            (Bad(c, lines[0]) && !Forgiven(lines, 0, recoverTail)) || Spoiled(c, lines[1..], recoverTail)
  {
    var rest := lines[1..];
    assert forall i | 1 <= i < |lines| :: lines[i] == rest[i - 1];
    assert forall i | 1 <= i < |lines| :: Forgiven(lines, i, recoverTail) == Forgiven(rest, i - 1, recoverTail);
    if Spoiled(c, rest, recoverTail) {
      var i :| 0 <= i < |rest| && Bad(c, rest[i]) && !Forgiven(rest, i, recoverTail);
      assert lines[i + 1] == rest[i] && !Forgiven(lines, i + 1, recoverTail);
    }
    if Spoiled(c, lines, recoverTail) && !(Bad(c, lines[0]) && !Forgiven(lines, 0, recoverTail)) {
      var i :| 0 <= i < |lines| && Bad(c, lines[i]) && !Forgiven(lines, i, recoverTail);
      assert i > 0 && rest[i - 1] == lines[i] && !Forgiven(rest, i - 1, recoverTail);
    }
  }

  lemma {:induction false} GatherFailsIff(c: Codec, lines: seq<Line>, rows: seq<Row>, strict: bool, recoverTail: bool)
    ensures Gather(c, lines, rows, strict, recoverTail).Err? <==> strict && Spoiled(c, lines, recoverTail)
  {
    if lines != [] {
      var next := match c.decode(lines[0]) case Some(row) => Put(rows, row) case None => rows;
      GatherFailsIff(c, lines[1..], if c.blank(lines[0]) then rows else next, strict, recoverTail);
      SpoiledShift(c, lines, recoverTail);
      hide Spoiled, Put;
    }
  }

  /** The line is this row. */
  predicate Reads(c: Codec, line: Line, row: Row) {
    !c.blank(line) && c.decode(line) == Some(row)
  }

  /** The row stands in the file, and no later line has its key. */
  predicate LastOf(c: Codec, lines: seq<Line>, row: Row) {
    exists i | 0 <= i < |lines| :: Reads(c, lines[i], row) && !Carries(c, lines[i + 1..], row.key)
  }

  lemma LastOfShift(c: Codec, lines: seq<Line>, row: Row)
    requires lines != []
    ensures LastOf(c, lines, row) <==>
            (Reads(c, lines[0], row) && !Carries(c, lines[1..], row.key)) || LastOf(c, lines[1..], row)
  {
    hide Carries, Reads;
    var rest := lines[1..];
    forall i | 0 <= i < |rest|
      ensures lines[i + 1] == rest[i] && lines[i + 2..] == rest[i + 1..]
    {
    }
    if LastOf(c, rest, row) {
      var i :| 0 <= i < |rest| && Reads(c, rest[i], row) && !Carries(c, rest[i + 1..], row.key);
      assert Reads(c, lines[i + 1], row) && !Carries(c, lines[(i + 1) + 1..], row.key);
    }
    if LastOf(c, lines, row) && !(Reads(c, lines[0], row) && !Carries(c, lines[1..], row.key)) {
      var i :| 0 <= i < |lines| && Reads(c, lines[i], row) && !Carries(c, lines[i + 1..], row.key);
      assert i > 0 && Reads(c, rest[i - 1], row) && !Carries(c, rest[(i - 1) + 1..], row.key);
    }
  }

  lemma PutElements(rows: seq<Row>, row: Row, r: Row)
    ensures r in Put(rows, row) <==> r == row || (r in rows && r.key != row.key)
  {
    var after := Put(rows, row);
    if HasKey(rows, row.key) {
      var i :| 0 <= i < |rows| && rows[i].key == row.key;
      assert after[i] == row;
      assert |after| == |rows|;
      assert forall j | 0 <= j < |rows| :: after[j] == if rows[j].key == row.key then row else rows[j];
      if r in rows && r.key != row.key {
        var j :| 0 <= j < |rows| && rows[j] == r;
        assert after[j] == r;
      }
    } else {
      assert after == rows + [row];
    }
  }

  lemma {:induction false} GatheredIff(c: Codec, lines: seq<Line>, rows: seq<Row>, strict: bool, recoverTail: bool,
                                       r: Row)
    requires Gather(c, lines, rows, strict, recoverTail).Ok?
    ensures r in Gather(c, lines, rows, strict, recoverTail).value <==>
            (r in rows && !Carries(c, lines, r.key)) || LastOf(c, lines, r)
  {
    if lines != [] {
      var next := match c.decode(lines[0]) case Some(row) => Put(rows, row) case None => rows;
      GatheredIff(c, lines[1..], if c.blank(lines[0]) then rows else next, strict, recoverTail, r);
      CarriesShift(c, lines, r.key);
      LastOfShift(c, lines, r);
      if c.decode(lines[0]).Some? { PutElements(rows, c.decode(lines[0]).value, r); }
      hide Carries, LastOf, Put;
    }
  }

  /**
    Loading fails exactly for text that does not decode, or, when strict, for a line that is neither blank nor a row
    and is not the forgiven tail. Otherwise a row is loaded exactly when it is the last of its key in the file.
   */
  lemma LoadMeans(c: Codec, data: Bytes, strict: bool, recoverTail: bool)
    ensures var lines, loaded := SplitText(data), LoadData(c, data, strict, recoverTail);
            && (loaded.Err? <==> !c.utf8(data) || (strict && Spoiled(c, lines, recoverTail)))
            && (loaded.Ok? ==> forall r :: r in loaded.value <==> LastOf(c, lines, r))
  {
    hide Spoiled, LastOf, Gather, SplitText, Sort;
    var lines := SplitText(data);
    GatherFailsIff(c, lines, [], strict, recoverTail);
    if c.utf8(data) && Gather(c, lines, [], strict, recoverTail).Ok? {
      var rows := Gather(c, lines, [], strict, recoverTail).value;
      SortElements(rows);
      forall r
        ensures r in Sort(rows) <==> LastOf(c, lines, r)
      {
        GatheredIff(c, lines, [], strict, recoverTail, r);
        assert r in Sort(rows) <==> r in multiset(Sort(rows));
      }
    }
  }
}
