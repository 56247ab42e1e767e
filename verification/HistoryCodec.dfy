/** A codec for history rows that has every property the history's theorems assume of one. */
module HistoryCodec {
  import opened Prelude
  import opened Lines
  import opened HistoryText
  import opened HistoryRows
  import opened HistoryFile
  import T = TokenCodec

  predicate Continues(data: Bytes, i: nat) {
    i < |data| && 0x80 <= data[i] < 0xc0
  }

  /** Length of the UTF-8 sequence at the head of the data; none if it is malformed or cut short. */
  function SequenceLength(data: Bytes): (n: nat)
    requires data != []
    ensures n <= |data|
  {
    var b := data[0];
    if b < 0x80 then 1
    else if 0xc2 <= b < 0xe0 && Continues(data, 1) then 2
    else if 0xe0 <= b < 0xf0 && Continues(data, 1) && Continues(data, 2)
            && (b == 0xe0 ==> data[1] >= 0xa0) && (b == 0xed ==> data[1] < 0xa0) then 3
    else if 0xf0 <= b < 0xf5 && Continues(data, 1) && Continues(data, 2) && Continues(data, 3)
            && (b == 0xf0 ==> data[1] >= 0x90) && (b == 0xf4 ==> data[1] < 0x90) then 4
    else 0
  }

  predicate Utf8(data: Bytes) {
    data == [] || (SequenceLength(data) > 0 && Utf8(data[SequenceLength(data)..]))
  }

  lemma LengthBeforeBreak(a: Bytes, b: Bytes)
    requires a != [] && (EndsLine(a) || b == [LF])
    ensures SequenceLength(a + b) == SequenceLength(a)
  {
    var all := a + b;
    assert all[0] == a[0];
    assert |a| > 1 ==> all[1] == a[1];
    assert |a| > 2 ==> all[2] == a[2];
    assert |a| > 3 ==> all[3] == a[3];
    assert b != [] ==> all[|a|] == b[0];
  }

  /** After a line break, text is decoded on its own. */
  lemma {:induction false} Utf8Concat(a: Bytes, b: Bytes)
    requires EndsLine(a)
    ensures Utf8(a + b) == (Utf8(a) && Utf8(b))
  {
    if a == [] {
      assert a + b == b;
    } else {
      LengthBeforeBreak(a, b);
      var n := SequenceLength(a);
      if n > 0 {
        assert (a + b)[n..] == a[n..] + b;
        RestEndsLine(a, n);
        Utf8Concat(a[n..], b);
      }
    }
  }

  lemma {:induction false} Utf8Newline(a: Bytes)
    ensures Utf8(a + [LF]) == Utf8(a)
  {
    if a == [] {
      assert [LF][1..] == [] && a + [LF] == [LF];
    } else {
      LengthBeforeBreak(a, [LF]);
      var n := SequenceLength(a);
      if n > 0 {
        assert (a + [LF])[n..] == a[n..] + [LF];
        Utf8Newline(a[n..]);
      }
    }
  }

  /** Strips to nothing: white space and breaks only. */
  predicate Blank(data: Bytes) {
    data == []
    || ((data[0] == 0x20 || data[0] == 0x09 || data[0] == LF || data[0] == CR || data[0] == 0x1f) && Blank(data[1..]))
    || (WideLength(data) > 0 && Blank(data[WideLength(data)..]))
  }

  lemma {:induction false} BlankNewline(a: Bytes)
    ensures Blank(a + [LF]) == Blank(a)
  {
    var all := a + [LF];
    if a == [] {
      assert all == [LF] && all[1..] == [];
    } else {
      assert all[1..] == a[1..] + [LF];
      BlankNewline(a[1..]);
      WideBeforeBreak(a);
      var n := WideLength(a);
      if n > 0 {
        assert all[n..] == a[n..] + [LF];
        BlankNewline(a[n..]);
      }
    }
  }

  function RowTokens(r: Row): T.Tokens {
    T.Text(r.key.fetchedAt, T.Text(r.key.digest, T.Text(r.rest, [])))
  }

  function Inner(r: Row): Bytes {
    T.Written(RowTokens(r), [])
  }

  /** A row between braces; U+2028 stands in it as it does in JSON that is not escaped to ASCII. */
  function Encode(r: Row): Bytes {
    [0x7b] + Inner(r) + [0x7d]
  }

  lemma EncodeInjective(r: Row, s: Row)
    requires Encode(r) == Encode(s)
    ensures r == s
  {
    var end: Bytes := [0x7d];
    T.WrittenBytes(RowTokens(r), end);
    T.WrittenBytes(RowTokens(s), end);
    assert Encode(r)[1..] == Inner(r) + end && Encode(s)[1..] == Inner(s) + end;
    T.WrittenInjective(RowTokens(r), RowTokens(s), end);
    T.TextInjective(r.key.fetchedAt, T.Text(r.key.digest, T.Text(r.rest, [])),
                    s.key.fetchedAt, T.Text(s.key.digest, T.Text(s.rest, [])));
    T.TextInjective(r.key.digest, T.Text(r.rest, []), s.key.digest, T.Text(s.rest, []));
    T.TextInjective(r.rest, [], s.rest, []);
  }

  /** Without its trailing newlines. */
  function Stripped(data: Bytes): Bytes {
    if data != [] && data[|data| - 1] == LF then Stripped(data[..|data| - 1]) else data
  }

  ghost function Read(data: Bytes): Option<Row> {
    if exists r :: Encode(r) == data then
      var r :| Encode(r) == data;
      Some(r)
    else None
  }

  /** Reads what `Encode` writes, trailing newlines aside, and nothing else. */
  ghost function Decode(data: Bytes): Option<Row> {
    Read(Stripped(data))
  }

  const MARK: Bytes := [0xef, 0xbb, 0xbf]

  /** Reads the same after a byte order mark too. */
  ghost function Sniff(data: Bytes): Option<Row> {
    if |data| >= 3 && data[..3] == MARK then Decode(data[3..]) else Decode(data)
  }

  lemma {:induction false} StrippedHead(data: Bytes)
    ensures |Stripped(data)| <= |data| && Stripped(data) == data[..|Stripped(data)|]
  {
    if data != [] { StrippedHead(data[..|data| - 1]); }
  }

  lemma DecodedStart(data: Bytes)
    ensures Decode(data).Some? ==> data != [] && data[0] == 0x7b
  {
    StrippedHead(data);
    if Decode(data).Some? {
      assert Stripped(data)[0] == 0x7b;
    }
  }

  lemma NotBlankStart(data: Bytes)
    requires data != [] && (data[0] == 0x7b || data[0] == 0xef)
    ensures !Blank(data)
  {
  }

  lemma SniffMore(data: Bytes)
    ensures Decode(data).Some? ==> Sniff(data).Some?
    ensures Sniff(data).Some? ==> !Blank(data)
  {
    hide Decode, Blank;
    DecodedStart(data);
    if Sniff(data).Some? {
      assert |data| >= 3 && data[..3] == MARK ==> data[..3][0] == 0xef;
      NotBlankStart(data);
    }
  }

  lemma DecodeNewline(data: Bytes)
    ensures Decode(data + [LF]) == Decode(data)
  {
    assert (data + [LF])[..|data|] == data;
    assert Stripped(data + [LF]) == Stripped(data);
  }

  lemma DecodeEncoded(r: Row)
    ensures Decode(Encode(r)) == Some(r)
  {
    assert Stripped(Encode(r)) == Encode(r);
    var s :| Encode(s) == Encode(r) && Decode(Encode(r)) == Some(s);
    EncodeInjective(r, s);
  }

  /** The closing brace is the only one, so nothing shorter is an encoding. */
  lemma NoPrefixDecodes(r: Row, k: nat)
    requires 0 < k < |Encode(r)|
    ensures Decode(Encode(r)[..k]) == None && !Blank(Encode(r)[..k])
  {
    T.WrittenBytes(RowTokens(r), []);
    var cut := Encode(r)[..k];
    EncodedIsPlain(r);
    assert cut[k - 1] in Encode(r);
    assert Stripped(cut) == cut;
    assert cut[0] == 0x7b;
    if s :| Encode(s) == cut {
      NoBraceBefore(r, k - 1);
    }
  }

  lemma NoBraceBefore(r: Row, i: nat)
    requires i < |Encode(r)| - 1
    ensures Encode(r)[i] != 0x7d
  {
    T.WrittenBytes(RowTokens(r), []);
    if i > 0 { assert T.TokenByte(Inner(r)[i - 1]); }
  }

  lemma EncodedIsPlain(r: Row)
    ensures Plain(Encode(r)) && !Blank(Encode(r)) && WideFreeEnd(Encode(r))
  {
    T.WrittenBytes(RowTokens(r), []);
    T.TokensArePlain(Inner(r));
  }

  lemma {:induction false} NumberUtf8(n: nat, rest: Bytes)
    requires Utf8(rest)
    ensures Utf8(T.Number(n, rest))
  {
    if n == 0 {
      assert ([0x62] + rest)[1..] == rest;
    } else {
      NumberUtf8(n - 1, rest);
      assert ([0x61] + T.Number(n - 1, rest))[1..] == T.Number(n - 1, rest);
    }
  }

  lemma {:induction false} WrittenUtf8(tokens: T.Tokens, rest: Bytes)
    requires Utf8(rest)
    ensures Utf8(T.Written(tokens, rest))
  {
    if tokens != [] {
      var after := T.Written(tokens[1..], rest);
      WrittenUtf8(tokens[1..], rest);
      if tokens[0] == T.WIDE {
        assert (T.WIDE_BYTES + after)[3..] == after;
      } else {
        NumberUtf8(tokens[0], after);
      }
    }
  }

  lemma EncodedUtf8(r: Row)
    ensures Utf8(Encode(r))
  {
    var end: Bytes := [0x7d];
    assert Utf8(end) by { assert end[1..] == []; }
    T.WrittenBytes(RowTokens(r), end);
    WrittenUtf8(RowTokens(r), end);
    assert Encode(r) == [0x7b] + T.Written(RowTokens(r), end);
    assert Encode(r)[1..] == T.Written(RowTokens(r), end);
  }

  ghost function TheCodec(): Codec {
    Codec(r => Encode(r), data => Decode(data), data => Sniff(data), data => Blank(data), data => Utf8(data))
  }

  /** The laws assumed of the history's codec can be met. */
  lemma CodecIsLawful()
    ensures Lawful(TheCodec())
  {
    var c := TheCodec();
    forall r: Row
      ensures c.encode(r) != [] && Plain(c.encode(r)) && c.utf8(c.encode(r)) && c.decode(c.encode(r)) == Some(r)
      ensures !c.blank(c.encode(r)) && WideFreeEnd(c.encode(r))
    {
      EncodedIsPlain(r);
      EncodedUtf8(r);
      DecodeEncoded(r);
    }
    forall r: Row, k: nat | 0 < k < |c.encode(r)|
      ensures c.decode(c.encode(r)[..k]) == None && !c.blank(c.encode(r)[..k])
    {
      NoPrefixDecodes(r, k);
    }
    forall b: Bytes
      ensures c.decode(b + [LF]) == c.decode(b) && c.blank(b + [LF]) == c.blank(b) && c.utf8(b + [LF]) == c.utf8(b)
    {
      DecodeNewline(b);
      BlankNewline(b);
      Utf8Newline(b);
    }
    forall b: Bytes
      ensures (c.decode(b).Some? ==> c.sniff(b).Some?) && (c.sniff(b).Some? ==> !c.blank(b))
    {
      SniffMore(b);
    }
    forall a: Bytes, b: Bytes | EndsLine(a)
      ensures c.utf8(a + b) == (c.utf8(a) && c.utf8(b))
    {
      Utf8Concat(a, b);
    }
  }
}
