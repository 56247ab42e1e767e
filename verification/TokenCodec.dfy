/**
  A way to write lists of numbers as bytes, from which the codecs are built that show the laws assumed of the
  journal and of the history can be met. A number is written in unary, the code point U+2028 as itself.
 */
module TokenCodec {
  import opened Prelude
  import opened Lines

  type Tokens = seq<nat>

  const WIDE: nat := 0x2028
  const WIDE_BYTES: Bytes := [0xe2, 0x80, 0xa8]

  /** The bytes of one number, followed by the given ones. */
  function Number(n: nat, rest: Bytes): (bytes: Bytes)
    ensures |bytes| > |rest|
  {
    if n == 0 then [0x62] + rest else [0x61] + Number(n - 1, rest)
  }

  function Token(n: nat, rest: Bytes): (bytes: Bytes)
    ensures |bytes| > |rest|
  {
    if n == WIDE then WIDE_BYTES + rest else Number(n, rest)
  }

  function Written(tokens: Tokens, rest: Bytes): (bytes: Bytes)
    ensures |bytes| >= |rest|
  {
    if tokens == [] then rest else Token(tokens[0], Written(tokens[1..], rest))
  }

  lemma {:induction false} NumberInjective(n: nat, x: Bytes, m: nat, y: Bytes)
    requires Number(n, x) == Number(m, y)
    ensures n == m && x == y
  {
    var a, b := Number(n, x), Number(m, y);
    FirstOfNumber(n, x);
    FirstOfNumber(m, y);
    if n == 0 && m == 0 {
      assert a[1..] == x && b[1..] == y;
    } else if n > 0 && m > 0 {
      assert a[1..] == Number(n - 1, x) && b[1..] == Number(m - 1, y);
      NumberInjective(n - 1, x, m - 1, y);
    }
  }

  lemma FirstOfNumber(n: nat, x: Bytes)
    ensures Number(n, x)[0] == if n == 0 then 0x62 else 0x61
  {
  }

  lemma TokenInjective(n: nat, x: Bytes, m: nat, y: Bytes)
    requires Token(n, x) == Token(m, y)
    ensures n == m && x == y
  {
    FirstOfNumber(n, x);
    FirstOfNumber(m, y);
    if n == WIDE && m == WIDE {
      assert (WIDE_BYTES + x)[3..] == x && (WIDE_BYTES + y)[3..] == y;
    } else if n != WIDE && m != WIDE {
      NumberInjective(n, x, m, y);
    }
  }

  /** Tokens before the same end are told apart; the end is a byte no token starts with. */
  lemma {:induction false} WrittenInjective(a: Tokens, b: Tokens, end: Bytes)
    requires end == [] || (end[0] != 0x61 && end[0] != 0x62 && end[0] != 0xe2)
    requires Written(a, end) == Written(b, end)
    ensures a == b
  {
    if a != [] { FirstOfNumber(a[0], Written(a[1..], end)); }
    if b != [] { FirstOfNumber(b[0], Written(b[1..], end)); }
    if a != [] && b != [] {
      TokenInjective(a[0], Written(a[1..], end), b[0], Written(b[1..], end));
      WrittenInjective(a[1..], b[1..], end);
    }
  }

  /** Only these bytes occur in written tokens. */
  predicate TokenByte(x: byte) {
    x == 0x61 || x == 0x62 || x == 0xe2 || x == 0x80 || x == 0xa8
  }

  predicate TokenBytesOnly(bytes: Bytes) {
    forall i | 0 <= i < |bytes| :: TokenByte(bytes[i])
  }

  lemma {:induction false} NumberBytes(n: nat, rest: Bytes)
    ensures TokenBytesOnly(Number(n, [])) && Number(n, rest) == Number(n, []) + rest
  {
    if n > 0 { NumberBytes(n - 1, rest); }
  }

  lemma Associates(a: Bytes, b: Bytes, end: Bytes)
    ensures (a + b) + end == a + (b + end)
  {
  }

  lemma BytesJoin(a: Bytes, b: Bytes)
    requires TokenBytesOnly(a) && TokenBytesOnly(b)
    ensures TokenBytesOnly(a + b)
  {
  }

  lemma TokenBytes(n: nat, rest: Bytes, end: Bytes)
    requires TokenBytesOnly(rest)
    ensures TokenBytesOnly(Token(n, rest)) && Token(n, rest + end) == Token(n, rest) + end
  {
    assert TokenBytesOnly(WIDE_BYTES);
    hide Number, TokenBytesOnly;
    if n != WIDE {
      NumberBytes(n, rest);
      NumberBytes(n, rest + end);
    }
    var bytes := if n == WIDE then WIDE_BYTES else Number(n, []);
    BytesJoin(bytes, rest);
    Associates(bytes, rest, end);
  }

  lemma WrittenFirst(tokens: Tokens, end: Bytes)
    requires tokens != []
    ensures Written(tokens, end) == Token(tokens[0], Written(tokens[1..], end))
  {
  }

  lemma WrittenNothing(end: Bytes)
    ensures Written([], end) == end && TokenBytesOnly([])
  {
  }

  lemma {:induction false} WrittenBytes(tokens: Tokens, end: Bytes)
    ensures TokenBytesOnly(Written(tokens, []))
    ensures Written(tokens, end) == Written(tokens, []) + end
  {
    if tokens != [] {
      hide Written, TokenBytesOnly;
      WrittenBytes(tokens[1..], end);
      var rest := Written(tokens[1..], []);
      WrittenFirst(tokens, []);
      WrittenFirst(tokens, end);
      TokenBytes(tokens[0], rest, end);
    } else {
      WrittenNothing(end);
      WrittenNothing([]);
    }
  }

  lemma TokensArePlain(bytes: Bytes)
    requires TokenBytesOnly(bytes)
    ensures Plain(bytes)
  {
  }

  // Prefix-free lists for texts and optional values

  function Chars(text: string, rest: Tokens): Tokens {
    if text == [] then rest else [text[0] as nat] + Chars(text[1..], rest)
  }

  function Text(text: string, rest: Tokens): Tokens {
    [|text|] + Chars(text, rest)
  }

  lemma {:induction false} CharsInjective(s: string, x: Tokens, t: string, y: Tokens)
    requires |s| == |t| && Chars(s, x) == Chars(t, y)
    ensures s == t && x == y
  {
    if s != [] {
      var a, b := Chars(s, x), Chars(t, y);
      assert a[0] == b[0] && a[1..] == Chars(s[1..], x) && b[1..] == Chars(t[1..], y);
      CharsInjective(s[1..], x, t[1..], y);
      assert s == [s[0]] + s[1..] && t == [t[0]] + t[1..];
    }
  }

  lemma TextInjective(s: string, x: Tokens, t: string, y: Tokens)
    requires Text(s, x) == Text(t, y)
    ensures s == t && x == y
  {
    var a, b := Text(s, x), Text(t, y);
    assert a[0] == b[0] && a[1..] == Chars(s, x) && b[1..] == Chars(t, y);
    CharsInjective(s, x, t, y);
  }

  lemma HeadInjective(n: nat, x: Tokens, m: nat, y: Tokens)
    requires [n] + x == [m] + y
    ensures n == m && x == y
  {
    assert ([n] + x)[0] == n && ([n] + x)[1..] == x;
    assert ([m] + y)[0] == m && ([m] + y)[1..] == y;
  }
}
