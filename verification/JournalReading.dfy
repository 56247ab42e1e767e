/** What the bytes of a journal have to be to be read as valid or as torn; anything else is corrupt. */
module JournalReading {
  import opened Prelude
  import opened Lines
  import opened JournalRecords
  import opened JournalGrammar
  import opened JournalBytes

  predicate Ended(line: Line) {
    line[|line| - 1] == LF
  }

  /** The lines are newline-ended and decode to these records. */
  predicate LinesAre(c: Codec, lines: seq<Line>, rs: seq<Record>) {
    |lines| == |rs| && forall i | 0 <= i < |lines| :: LineIs(c, lines[i], rs[i])
  }

  predicate LineIs(c: Codec, line: Line, r: Record) {
    Ended(line) && c.decode(line[..|line| - 1]) == Some(r)
  }

  /** All lines are complete, and the records are a chained history in the grammar. */
  ghost predicate ReadsValid(c: Codec, lines: seq<Line>, done: seq<Record>, rs: seq<Record>) {
    LinesAre(c, lines, rs) && Chained(done + rs) && |done + rs| <= MAX_RECORDS && InGrammar(done + rs)
  }

  /** The last line is cut short, and the records before it are chained. */
  ghost predicate ReadsTorn(c: Codec, lines: seq<Line>, done: seq<Record>, rs: seq<Record>) {
    && lines != [] && !Ended(lines[|lines| - 1]) && LinesAre(c, lines[..|lines| - 1], rs)
    && Chained(done + rs) && |done + rs| <= MAX_RECORDS
  }

  lemma LinesShift(c: Codec, lines: seq<Line>, r: Record, rs: seq<Record>)
    requires lines != []
    ensures LinesAre(c, lines, [r] + rs) <==> LineIs(c, lines[0], r) && LinesAre(c, lines[1..], rs)
  {
    hide LineIs;
    var all, rest := [r] + rs, lines[1..];
    assert forall i | 1 <= i < |lines| :: lines[i] == rest[i - 1];
    assert forall i | 1 <= i < |all| :: all[i] == rs[i - 1];
    if LinesAre(c, lines, all) {
      forall i | 0 <= i < |rest| ensures LineIs(c, rest[i], rs[i]) { assert LineIs(c, lines[i + 1], all[i + 1]); }
    }
  }

  lemma StepChained(done: seq<Record>, r: Record, rs: seq<Record>)
    ensures (done + [r]) + rs == done + ([r] + rs)
    ensures Chained(done + ([r] + rs)) ==> Follows(done, r)
  {
    var all := done + ([r] + rs);
    assert all[..|done|] == done && all[|done|] == r;
    if Chained(all) { assert Follows(all[..|done|], all[|done|]); }
  }

  /** What `done` is extended by when the lines are read. */
  lemma {:induction false} ReadsOn(c: Codec, lines: seq<Line>, done: seq<Record>)
    requires Chained(done) && |done| <= MAX_RECORDS
    ensures var i := InspectLines(c, lines, done);
            && (i.integrity == Valid ==> exists rs :: i.records == done + rs && ReadsValid(c, lines, done, rs))
            && (i.integrity == TornTail ==> exists rs :: i.records == done + rs && ReadsTorn(c, lines, done, rs))
            && (i.integrity == Corrupt ==> i.records == []) && i.integrity != Absent
    decreases |lines|
  {
    var nothing: seq<Record> := [];
    if lines == [] {
      assert done + nothing == done && ReadsValid(c, lines, done, nothing) == InGrammar(done);
    } else if !Ended(lines[0]) {
      if |lines| == 1 { assert done + nothing == done && ReadsTorn(c, lines, done, nothing); }
    } else {
      var decoded := c.decode(lines[0][..|lines[0]| - 1]);
      if decoded.Some? && Follows(done, decoded.value) && |done| < MAX_RECORDS {
        hide Follows, InGrammar, LinesAre;
        ChainedExtend(done, decoded.value);
        ReadsOn(c, lines[1..], done + [decoded.value]);
        ReadsMore(c, lines, done, decoded.value);
      }
    }
  }

  lemma ReadsMore(c: Codec, lines: seq<Line>, done: seq<Record>, r: Record)
    requires lines != [] && LineIs(c, lines[0], r)
    ensures forall rs :: ReadsValid(c, lines[1..], done + [r], rs) ==>
              done + [r] + rs == done + ([r] + rs) && ReadsValid(c, lines, done, [r] + rs)
    ensures forall rs :: ReadsTorn(c, lines[1..], done + [r], rs) ==>
              done + [r] + rs == done + ([r] + rs) && ReadsTorn(c, lines, done, [r] + rs)
  {
    hide LinesAre, LineIs, InGrammar, Chained;
    forall rs: seq<Record>
      ensures ReadsValid(c, lines[1..], done + [r], rs) ==>
                done + [r] + rs == done + ([r] + rs) && ReadsValid(c, lines, done, [r] + rs)
    {
      LinesShift(c, lines, r, rs);
      StepChained(done, r, rs);
    }
    forall rs: seq<Record>
      ensures ReadsTorn(c, lines[1..], done + [r], rs) ==>
                done + [r] + rs == done + ([r] + rs) && ReadsTorn(c, lines, done, [r] + rs)
    {
      StepChained(done, r, rs);
      if ReadsTorn(c, lines[1..], done + [r], rs) {
        LinesShift(c, lines[..|lines| - 1], r, rs);
        assert lines[..|lines| - 1][1..] == lines[1..][..|lines| - 2];
      }
    }
  }

  /** Lines of that kind are read so. */
  lemma {:induction false} ReadBack(c: Codec, lines: seq<Line>, done: seq<Record>, rs: seq<Record>)
    requires Chained(done) && |done| <= MAX_RECORDS
    ensures ReadsValid(c, lines, done, rs) ==> InspectLines(c, lines, done) == Inspection(Valid, done + rs)
    ensures ReadsTorn(c, lines, done, rs) ==> InspectLines(c, lines, done) == Inspection(TornTail, done + rs)
    decreases |lines|
  {
    if lines == [] || rs == [] {
      assert rs == [] ==> done + rs == done;
    } else {
      var r, rest := rs[0], rs[1..];
      assert rs == [r] + rest;
      StepChained(done, r, rest);
      ChainedExtend(done, r);
      LinesShift(c, lines, r, rest);
      if |lines| > 1 {
        assert lines[..|lines| - 1][1..] == lines[1..][..|lines| - 2];
        LinesShift(c, lines[..|lines| - 1], r, rest);
      }
      hide Follows, InGrammar, LinesAre, Chained;
      if Follows(done, r) && |done| < MAX_RECORDS { ReadBack(c, lines[1..], done + [r], rest); }
    }
  }

  /**
    A file is read as VALID with these records exactly when all its lines are complete and decode to them and they
    are a chained history in the grammar, and as a torn tail exactly when only its last line is incomplete and the
    ones before it decode to chained records. Any other file but the empty one is CORRUPT.
   */
  lemma InspectIff(c: Codec, data: Bytes, rs: seq<Record>)
    requires data != []
    ensures Inspect(c, data) == Inspection(Valid, rs) <==> ReadsValid(c, SplitLines(data), [], rs)
    ensures Inspect(c, data) == Inspection(TornTail, rs) <==> ReadsTorn(c, SplitLines(data), [], rs)
    ensures Inspect(c, data).integrity in {Valid, TornTail} || Inspect(c, data) == Inspection(Corrupt, [])
  {
    hide ReadsValid, ReadsTorn, InspectLines, SplitLines;
    ReadsOn(c, SplitLines(data), []);
    ReadBack(c, SplitLines(data), [], rs);
    assert [] + rs == rs;
    forall more: seq<Record> ensures [] + more == more {
    }
  }
}
