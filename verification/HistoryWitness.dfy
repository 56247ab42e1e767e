/** Inputs at which the engagement history fails, with a codec that meets every law assumed of one. */
module HistoryWitness {
  import opened Prelude
  import opened Lines
  import opened HistoryText
  import opened HistoryRows
  import opened HistoryFile
  import opened HistoryTail
  import opened HistoryStore
  import HistoryCodec

  const PLAIN_ROW := Row(Key("", ""), "")
  const WIDE_ROW := Row(Key("", ""), "\U{2028}")

  lemma WideRowBytes()
    ensures HistoryCodec.Encode(WIDE_ROW) == [0x7b, 0x62, 0x62, 0x61, 0x62, 0xe2, 0x80, 0xa8, 0x7d]
  {
  }

  lemma WideRowNotNarrow()
    ensures !Narrow(HistoryCodec.Encode(WIDE_ROW))
  {
    hide HistoryCodec.Encode;
    WideRowBytes();
    var enc := HistoryCodec.Encode(WIDE_ROW);
    assert enc[5..] == [0xe2, 0x80, 0xa8, 0x7d];
    assert WideLength(enc[5..]) == 3;
  }

  lemma AppendToNothing(c: Codec, row: Row)
    requires Lawful(c)
    ensures var (after, report) := AppendSpec(c, Disk([None], None), row, Synced);
            && report.returned == Some(true) && Visible(after) == Some(Extended(c, [], row))
            && Load(c, Visible(after)) == if Narrow(c.encode(row)) then Ok([row]) else Err(HistoryCorruption)
  {
    EmptyLoads(c);
    assert !HasKey([], row.key);
    hide Lawful, Narrow, TailAgrees, Extended, LoadData, PlanOf;
    AppendThenLoad(c, [], row);
  }

  /** A row holding U+2028 is appended to an empty history, which then does not load. */
  lemma WideRowUnloadable()
    ensures var c, d := HistoryCodec.TheCodec(), Disk([None], None);
            var (after, report) := AppendSpec(c, d, WIDE_ROW, Synced);
            Lawful(c) && report.returned == Some(true) && Load(c, Visible(after)).Err?
  {
    hide HistoryCodec.Encode, Lawful, AppendSpec, Load, Narrow;
    var c := HistoryCodec.TheCodec();
    HistoryCodec.CodecIsLawful();
    WideRowNotNarrow();
    AppendToNothing(c, WIDE_ROW);
  }

  lemma NotARow(data: Bytes)
    requires data != [] && data[|data| - 1] != 0x7d && data[|data| - 1] != LF
    ensures HistoryCodec.Decode(data) == None && HistoryCodec.Sniff(data) == None
  {
    assert HistoryCodec.Stripped(data) == data;
    if |data| > 3 { assert HistoryCodec.Stripped(data[3..]) == data[3..]; }
  }

  /** A tail cut inside a character blocks every append. */
  lemma CutCharacterRefused(row: Row)
    ensures var c, d := HistoryCodec.TheCodec(), Disk([Some([0x7b, 0xe2])], None);
            var (after, report) := AppendSpec(c, d, row, Synced);
            Lawful(c) && report.returned == None && after.images == d.images && after.recovery == Some([0x7b, 0xe2])
  {
    var c := HistoryCodec.TheCodec();
    var tail: Bytes := [0x7b, 0xe2];
    HistoryCodec.CodecIsLawful();
    EmptyLoads(c);
    NotARow(tail);
    assert tail[1..] == [0xe2];
    assert [] + tail == tail;
    hide Lawful;
    TornTail(c, [], tail, row, Disk([Some(tail)], None));
  }

  lemma WidePieces(first: Bytes, rest: Bytes)
    requires |first| <= 1 && Plain(first) && (first != [] ==> first[0] < 0x80 && WideLength(first) == 0)
    requires rest != []
    ensures var tail := first + [0xe2, 0x80, 0xa8] + rest;
            SplitText(tail) == [first + [0xe2, 0x80, 0xa8]] + SplitText(rest)
  {
    var tail := first + [0xe2, 0x80, 0xa8] + rest;
    if first == [] {
      assert TextLineLength(tail) == 3;
      assert tail[..3] == first + [0xe2, 0x80, 0xa8] && tail[3..] == rest;
    } else {
      assert tail[1..] == [0xe2, 0x80, 0xa8] + rest;
      assert first[0] in first;
      assert BreakLength(tail) == 0 && TextLineLength(tail[1..]) == 3;
      assert tail[..4] == first + [0xe2, 0x80, 0xa8] && tail[4..] == rest;
    }
  }

  lemma BrokenTailPieces(tail: Bytes)
    requires tail == [0x7b, 0xe2, 0x80, 0xa8, 0x7b]
    ensures SplitText(tail) == [[0x7b, 0xe2, 0x80, 0xa8], [0x7b]]
  {
    assert tail == [0x7b] + [0xe2, 0x80, 0xa8] + [0x7b];
    assert [0x7b] + [0xe2, 0x80, 0xa8] == [0x7b, 0xe2, 0x80, 0xa8];
    hide SplitText;
    WidePieces([0x7b], [0x7b]);
    OnlyLine([0x7b]);
  }

  lemma BrokenTailDecodes(tail: Bytes)
    requires tail == [0x7b, 0xe2, 0x80, 0xa8, 0x7b]
    ensures HistoryCodec.Utf8(tail)
  {
    assert tail[1..] == [0xe2, 0x80, 0xa8, 0x7b] && tail[1..][3..] == [0x7b] && [0x7b][1..] == [];
  }

  lemma BrokenTailFacts(tail: Bytes, first: Bytes)
    requires tail == [0x7b, 0xe2, 0x80, 0xa8, 0x7b] && first == [0x7b, 0xe2, 0x80, 0xa8]
    ensures Plain(tail) && HistoryCodec.Utf8(tail) && HistoryCodec.Sniff(tail) == None
    ensures SplitText(tail) == [first, [0x7b]]
    ensures HistoryCodec.Decode(first) == None && !HistoryCodec.Blank(first)
  {
    HistoryCodec.NotBlankStart(first);
    hide HistoryCodec.Decode, HistoryCodec.Sniff, HistoryCodec.Blank, HistoryCodec.Utf8, SplitText;
    NotARow(tail);
    NotARow(first);
    BrokenTailPieces(tail);
    BrokenTailDecodes(tail);
  }

  /** So does a tail of whole characters with a break inside it, since its first piece is no row. */
  lemma BrokenTailRefused(row: Row)
    ensures var tail: Bytes := [0x7b, 0xe2, 0x80, 0xa8, 0x7b];
            var c, d := HistoryCodec.TheCodec(), Disk([Some(tail)], None);
            var (after, report) := AppendSpec(c, d, row, Synced);
            Lawful(c) && c.utf8(tail) && report.returned == None && after.images == d.images
  {
    var c := HistoryCodec.TheCodec();
    var tail: Bytes := [0x7b, 0xe2, 0x80, 0xa8, 0x7b];
    hide Lawful, HistoryCodec.Decode, HistoryCodec.Sniff, HistoryCodec.Blank, HistoryCodec.Utf8, SplitText, Plain,
      Load, AppendSpec, PlanOf;
    HistoryCodec.CodecIsLawful();
    EmptyLoads(c);
    BrokenTailFacts(tail, [0x7b, 0xe2, 0x80, 0xa8]);
    assert [] + tail == tail;
    assert !Tolerated(c, SplitText(tail)) by {
      assert SplitText(tail)[0] == [0x7b, 0xe2, 0x80, 0xa8];
    }
    TornTail(c, [], tail, row, Disk([Some(tail)], None));
  }

  const OTHER_ROW := Row(Key("\0", ""), "")

  lemma AsciiNarrow(data: Bytes)
    requires forall i | 0 <= i < |data| :: 0x20 <= data[i] < 0x80
    ensures Narrow(data) && Plain(data)
  {
    forall i | 0 <= i < |data|
      ensures WideLength(data[i..]) == 0
    {
      assert data[i..][0] == data[i];
    }
  }

  lemma RowBytes()
    ensures HistoryCodec.Encode(PLAIN_ROW) == [0x7b, 0x62, 0x62, 0x62, 0x7d]
    ensures HistoryCodec.Encode(OTHER_ROW) == [0x7b, 0x61, 0x62, 0x62, 0x62, 0x62, 0x7d]
  {
  }

  lemma BreakThenRow(enc: Bytes)
    requires enc == [0x7b, 0x62, 0x62, 0x62, 0x7d]
    ensures var tail := [0xe2, 0x80, 0xa8] + enc;
            Plain(tail) && HistoryCodec.Sniff(tail) == None && SplitText(tail) == [[0xe2, 0x80, 0xa8], enc]
  {
    var tail := [0xe2, 0x80, 0xa8] + enc;
    AsciiNarrow(enc);
    hide HistoryCodec.Decode, HistoryCodec.Sniff, SplitText, Narrow, SplitLines;
    NotAStart(tail);
    BreakFirst(enc);
    SameLines(enc);
    SplitPlainTail(enc);
  }

  lemma BreakFirst(rest: Bytes)
    requires rest != []
    ensures SplitText([0xe2, 0x80, 0xa8] + rest) == [[0xe2, 0x80, 0xa8]] + SplitText(rest)
  {
    hide SplitText;
    assert [0xe2, 0x80, 0xa8] + rest == [] + [0xe2, 0x80, 0xa8] + rest;
    assert [] + [0xe2, 0x80, 0xa8] == [0xe2, 0x80, 0xa8];
    WidePieces([], rest);
  }

  lemma NotAStart(data: Bytes)
    requires data != [] && data[0] == 0xe2
    ensures HistoryCodec.Sniff(data) == None
  {
    HistoryCodec.DecodedStart(data);
    assert |data| >= 3 ==> data[..3][0] == 0xe2;
    hide HistoryCodec.Decode;
  }

  lemma BreakIsBlank(tail: Bytes, enc: Bytes)
    requires enc == HistoryCodec.Encode(PLAIN_ROW) && tail == [0xe2, 0x80, 0xa8] + enc
    ensures HistoryCodec.Utf8(tail) && HistoryCodec.Blank([0xe2, 0x80, 0xa8])
  {
    HistoryCodec.EncodedUtf8(PLAIN_ROW);
    var wide: Bytes := [0xe2, 0x80, 0xa8];
    assert tail[0] == 0xe2 && tail[1] == 0x80 && tail[2] == 0xa8 && tail[3..] == enc && wide[3..] == [];
    hide HistoryCodec.Encode;
  }

  lemma RowAfterBreak(c: Codec, enc: Bytes, tail: Bytes)
    requires c == HistoryCodec.TheCodec() && enc == HistoryCodec.Encode(PLAIN_ROW)
    requires tail == [0xe2, 0x80, 0xa8] + enc && SplitText(tail) == [[0xe2, 0x80, 0xa8], enc]
    ensures Load(c, Some(tail)) == Ok([PLAIN_ROW])
  {
    BreakIsBlank(tail, enc);
    HistoryCodec.EncodedIsPlain(PLAIN_ROW);
    HistoryCodec.DecodeEncoded(PLAIN_ROW);
    var wide: Bytes := [0xe2, 0x80, 0xa8];
    hide HistoryCodec.Encode, HistoryCodec.Decode, HistoryCodec.Sniff, HistoryCodec.Blank, HistoryCodec.Utf8, SplitText;
    GatherOne(c, enc, []);
    assert [wide, enc][1..] == [enc];
    assert Gather(c, [wide, enc], [], true, true) == Gather(c, [enc], [], true, true);
    SortOneMore([], PLAIN_ROW);
    assert Put([], PLAIN_ROW) == [PLAIN_ROW];
  }

  lemma RowTailFacts(c: Codec, tail: Bytes)
    requires c == HistoryCodec.TheCodec() && tail == [0xe2, 0x80, 0xa8] + HistoryCodec.Encode(PLAIN_ROW)
    ensures tail != [] && Plain(tail) && c.sniff(tail).None? && Load(c, Some(tail)) == Ok([PLAIN_ROW])
  {
    var enc := HistoryCodec.Encode(PLAIN_ROW);
    RowBytes();
    BreakThenRow(enc);
    RowAfterBreak(c, enc, tail);
    hide HistoryCodec.Encode, HistoryCodec.Sniff, Plain, Load;
  }

  lemma OtherRowFacts(c: Codec)
    requires c == HistoryCodec.TheCodec()
    ensures Lawful(c) && !HasKey([PLAIN_ROW], OTHER_ROW.key)
    ensures Load(c, Some([] + (c.encode(OTHER_ROW) + [LF]))) == Ok([OTHER_ROW])
  {
    OtherRowNarrow();
    assert c.encode(OTHER_ROW) == HistoryCodec.Encode(OTHER_ROW);
    hide *;
    HistoryCodec.CodecIsLawful();
    EmptyLoads(c);
    DistinctRows();
    FirstRowLoads(c, OTHER_ROW);
  }

  lemma OtherRowNarrow()
    ensures Narrow(HistoryCodec.Encode(OTHER_ROW))
  {
    RowBytes();
    AsciiNarrow(HistoryCodec.Encode(OTHER_ROW));
  }

  lemma DistinctRows()
    ensures !HasKey([PLAIN_ROW], OTHER_ROW.key)
  {
  }

  lemma SetAside(c: Codec, tail: Bytes, loaded: Row, row: Row)
    requires Lawful(c) && tail != [] && Plain(tail) && c.sniff(tail).None? && Load(c, Some(tail)) == Ok([loaded])
    requires !HasKey([loaded], row.key) && Load(c, Some([] + (c.encode(row) + [LF]))) == Ok([row])
    ensures var d := Disk([Some(tail)], None);
            var (after, report) := AppendSpec(c, d, row, Synced);
            && Load(c, Visible(d)) == Ok([loaded])
            && report.returned == Some(true) && Load(c, Visible(after)) == Ok([row])
  {
    EmptyLoads(c);
    assert [] + tail == tail;
    hide Lawful, Plain, Load, HasKey, AppendSpec, Tolerated, SplitText;
    TornTail(c, [], tail, row, Disk([Some(tail)], None));
  }

  /** A tail that is a break and then a row loads as that row, and the next append sets the row aside. */
  lemma RowSetAside()
    ensures var tail: Bytes := [0xe2, 0x80, 0xa8] + HistoryCodec.Encode(PLAIN_ROW);
            var c, d := HistoryCodec.TheCodec(), Disk([Some(tail)], None);
            var (after, report) := AppendSpec(c, d, OTHER_ROW, Synced);
            && Lawful(c) && Load(c, Visible(d)) == Ok([PLAIN_ROW])
            && report.returned == Some(true) && Load(c, Visible(after)) == Ok([OTHER_ROW])
  {
    hide *;
    var c := HistoryCodec.TheCodec();
    var tail: Bytes := [0xe2, 0x80, 0xa8] + HistoryCodec.Encode(PLAIN_ROW);
    RowTailFacts(c, tail);
    OtherRowFacts(c);
    SetAside(c, tail, PLAIN_ROW, OTHER_ROW);
  }

  lemma MarkedBytes(marked: Bytes)
    requires marked == HistoryCodec.MARK + HistoryCodec.Encode(PLAIN_ROW)
    ensures marked == [0xef, 0xbb, 0xbf, 0x7b, 0x62, 0x62, 0x62, 0x7d]
  {
    RowBytes();
  }

  lemma MarkedNarrow(marked: Bytes)
    requires marked == [0xef, 0xbb, 0xbf, 0x7b, 0x62, 0x62, 0x62, 0x7d]
    ensures Narrow(marked) && Plain(marked)
  {
    hide Narrow, WideLength;
    AsciiNarrow(marked[3..]);
    NoBreakHere(marked[2..]);
    NoBreakHere(marked[1..]);
    NoBreakHere(marked);
    assert marked[2..][1..] == marked[3..] && marked[1..][1..] == marked[2..];
    NarrowHead(marked[2..]);
    NarrowHead(marked[1..]);
    NarrowHead(marked);
  }

  lemma NoBreakHere(data: Bytes)
    requires data != [] && data[0] in {0xef, 0xbb, 0xbf}
    ensures WideLength(data) == 0
  {
  }

  lemma MarkedNoText(marked: Bytes)
    requires marked != [] && marked[0] == 0xef
    ensures HistoryCodec.Decode(marked) == None && !HistoryCodec.Blank(marked)
  {
    HistoryCodec.DecodedStart(marked);
    HistoryCodec.NotBlankStart(marked);
    hide HistoryCodec.Decode, HistoryCodec.Blank;
  }

  lemma MarkedTail(c: Codec, marked: Bytes)
    requires c == HistoryCodec.TheCodec() && marked == HistoryCodec.MARK + HistoryCodec.Encode(PLAIN_ROW)
    ensures marked != [] && Plain(marked) && Narrow(marked) && c.utf8(marked) && c.sniff(marked) == Some(PLAIN_ROW)
    ensures c.decode(marked) == None && !c.blank(marked)
  {
    MarkedBytes(marked);
    MarkedNarrow(marked);
    MarkedNoText(marked);
    HistoryCodec.DecodeEncoded(PLAIN_ROW);
    HistoryCodec.EncodedUtf8(PLAIN_ROW);
    assert marked[..3] == HistoryCodec.MARK && marked[3..] == HistoryCodec.Encode(PLAIN_ROW);
    hide HistoryCodec.Encode, HistoryCodec.Decode, HistoryCodec.Blank, Plain, Narrow;
  }

  lemma LoneTail(c: Codec, tail: Bytes, row: Row)
    requires Lawful(c) && tail != [] && Plain(tail) && Narrow(tail) && c.utf8(tail)
    requires c.sniff(tail).Some? && c.decode(tail).None? && !c.blank(tail)
    ensures var d := Disk([Some(tail)], None);
            var (after, report) := AppendSpec(c, d, row, Synced);
            Load(c, Visible(d)) == Ok([]) && report.returned == Some(true) && Load(c, Visible(after)).Err?
  {
    SameLines(tail);
    SplitPlainTail(tail);
    assert tail[|tail| - 1] in tail;
    GatherOne(c, tail, []);
    assert !HasKey([], row.key);
    assert !TailAgrees(c, tail);
    hide Lawful, Plain, Narrow, TailAgrees, Gather, SplitText, PlanOf, HasKey;
    AppendThenLoad(c, tail, row);
  }

  /** A last line with a byte order mark is a row for appending only: it is completed, and nothing loads again. */
  lemma MarkedTailSpoils()
    ensures var c := HistoryCodec.TheCodec();
            var d := Disk([Some(HistoryCodec.MARK + HistoryCodec.Encode(PLAIN_ROW))], None);
            var (after, report) := AppendSpec(c, d, OTHER_ROW, Synced);
            && Lawful(c) && Load(c, Visible(d)) == Ok([])
            && report.returned == Some(true) && Load(c, Visible(after)).Err?
  {
    hide *;
    var c := HistoryCodec.TheCodec();
    var marked := HistoryCodec.MARK + HistoryCodec.Encode(PLAIN_ROW);
    MarkedTail(c, marked);
    OtherRowFacts(c);
    LoneTail(c, marked, OTHER_ROW);
  }

  lemma FirstRowLoads(c: Codec, row: Row)
    requires Lawful(c) && Narrow(c.encode(row))
    ensures Load(c, Some([] + (c.encode(row) + [LF]))) == Ok([row])
  {
    EmptyLoads(c);
    assert !HasKey([], row.key);
    hide Lawful, Narrow, TailAgrees, Load, HasKey;
    AppendThenLoad(c, [], row);
  }
}
