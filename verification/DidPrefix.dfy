/** Every Ed25519 did:key starts with the same twelve characters and has 56 of them. */
module DidPrefix {
  import opened Prelude
  import opened Base58
  import opened DidKey

  function Power(radix: Radix, n: nat): (p: nat)
    ensures p > 0
  {
    if n == 0 then 1 else radix.Times(Power(radix, n - 1))
  }

  lemma {:induction false} NumberBelow(radix: Radix, digits: Digits)
    requires Bounded(radix, digits)
    ensures ToNumber(radix, digits) < Power(radix, |digits|)
  {
    if digits != [] { NumberBelow(radix, digits[..|digits| - 1]); }
  }

  lemma TimesPower(radix: Radix, a: nat, p: nat)
    ensures radix.Times(a * p) == a * radix.Times(p)
  {
  }

  lemma {:induction false} NumberConcat(radix: Radix, a: Digits, b: Digits)
    ensures ToNumber(radix, a + b) == ToNumber(radix, a) * Power(radix, |b|) + ToNumber(radix, b)
  {
    if b == [] {
      assert a + b == a;
    } else {
      var front := b[..|b| - 1];
      assert (a + b)[..|a + b| - 1] == a + front;
      NumberConcat(radix, a, front);
      Distributes(radix, ToNumber(radix, a), Power(radix, |front|), ToNumber(radix, front));
    }
  }

  lemma Distributes(radix: Radix, a: nat, p: nat, b: nat)
    ensures radix.Times(a * p + b) == a * radix.Times(p) + radix.Times(b)
  {
    TimesPower(radix, a, p);
  }

  /** A number between two multiples of a power begins with the digits of the lower one. */
  lemma {:induction false} LeadingDigits(n: nat, k: nat, top: nat)
    requires top > 0 && top * Power(R58, k) <= n < (top + 1) * Power(R58, k)
    ensures var digits := ToDigits(R58, n);
            |digits| == |ToDigits(R58, top)| + k && digits[..|ToDigits(R58, top)|] == ToDigits(R58, top)
  {
    if k == 0 {
      assert n == top;
    } else {
      var p := Power(R58, k - 1);
      TimesPower(R58, top, p);
      TimesPower(R58, top + 1, p);
      assert n > 0 && top * p <= n / 58 < (top + 1) * p;
      LeadingDigits(n / 58, k - 1, top);
      assert R58.Quotient(n) == n / 58;
    }
  }

  lemma {:induction false} PowerAdds(radix: Radix, m: nat, n: nat)
    ensures Power(radix, m + n) == Power(radix, m) * Power(radix, n)
  {
    if n > 0 {
      PowerAdds(radix, m, n - 1);
      TimesPower(radix, Power(radix, m), Power(radix, n - 1));
    }
  }

  /** 256 to the power of 32, and 58 to the power of 44. */
  const KEY_RANGE: nat := 115792089237316195423570985008687907853269984665640564039457584007913129639936
  const TEXT_RANGE: nat := 389790918707373377135528568990913592653094657612049369038476873218241589149696

  lemma KeyRange()
    ensures Power(R256, 32) == KEY_RANGE
  {
    assert Power(R256, 1) == 256 && Power(R256, 2) == 65536 && Power(R256, 4) == 4294967296;
    PowerAdds(R256, 4, 4);
    PowerAdds(R256, 8, 8);
    PowerAdds(R256, 16, 16);
  }

  lemma TextRange()
    ensures Power(R58, 44) == TEXT_RANGE
  {
    HalfTextRange();
    PowerAdds(R58, 22, 22);
    hide Power;
  }

  lemma HalfTextRange()
    ensures Power(R58, 22) == 624332378391008467754527498760580235264
  {
    assert Power(R58, 1) == 58 && Power(R58, 2) == 3364 && Power(R58, 3) == 195112;
    PowerAdds(R58, 3, 2);
    PowerAdds(R58, 5, 5);
    PowerAdds(R58, 10, 1);
    PowerAdds(R58, 11, 11);
  }

  lemma FirstLetters()
    ensures ToDigits(R58, 18023) == [5, 20, 43]
  {
    hide ALPHABET;
    LastDigit(0, 5);
    LastDigit(5, 20);
    LastDigit(310, 43);
    assert ToDigits(R58, 0) == [];
  }

  lemma LastDigit(n: nat, digit: nat)
    requires digit < 58 && 58 * n + digit > 0
    ensures ToDigits(R58, 58 * n + digit) == ToDigits(R58, n) + [digit]
  {
    hide ALPHABET;
    DivideLast(R58, n, digit);
  }

  lemma NumeralAt(i: nat)
    requires i < 9
    ensures ALPHABET[i] as int == '1' as int + i
  {
    assert ALPHABET[i] == NUMERALS[i];
  }

  lemma UpperCaseAt(i: nat)
    requires i < 24
    ensures ALPHABET[9 + i] as int ==
            if i < 8 then 'A' as int + i else if i < 13 then 'J' as int + i - 8 else 'P' as int + i - 13
  {
    assert ALPHABET[9 + i] == UPPER_CASE[i];
  }

  lemma LowerCaseAt(i: nat)
    requires i < 25
    ensures ALPHABET[33 + i] as int == if i < 11 then 'a' as int + i else 'm' as int + i - 11
  {
    assert ALPHABET[33 + i] == LOWER_CASE[i];
  }

  /** The number of the two prefix bytes and a key. */
  lemma PrefixedNumber(key: Bytes)
    requires |key| == 32
    ensures var n := ToNumber(R256, Values([0xed, 0x01] + key));
            18023 * TEXT_RANGE <= n < 18024 * TEXT_RANGE
  {
    var head: Digits := [0xed, 0x01];
    assert Values([0xed, 0x01] + key) == head + Values(key);
    NumberConcat(R256, head, Values(key));
    NumberBelow(R256, Values(key));
    assert head[..1] == [0xed] && head[..1][..0] == [];
    assert ToNumber(R256, [0xed]) == 0xed && ToNumber(R256, head) == 60673;
    KeyRange();
  }

  /** The DID of a key is `did:key:z6Mk` and 44 more letters. */
  lemma DidStarts(key: Bytes)
    requires |key| == 32
    ensures DidOf(key).Ok?
    ensures var did := DidOf(key).value; |did| == 56 && did[..12] == "did:key:z6Mk"
  {
    var raw: Bytes := [0xed, 0x01] + key;
    var n := ToNumber(R256, Values(raw));
    PrefixedNumber(key);
    TextRange();
    LeadingDigits(n, 44, 18023);
    FirstLetters();
    assert Values(raw)[0] == 0xed;
    assert LeadingZeros(Values(raw)) == 0;
    var digits := ToDigits(R58, n);
    assert Zeros(0) + digits == digits;
    assert MULTICODEC_ED25519 + key == raw;
    var text := Encoding(raw);
    LettersStart(digits, text);
    var did := DidOf(key).value;
    assert did == DID_PREFIX + text;
    DidJoins(text);
  }

  lemma LettersStart(digits: Digits, text: string)
    requires Bounded(R58, digits) && text == Letters(digits) && |digits| >= 3 && digits[..3] == [5, 20, 43]
    ensures text[0] == '6' && text[1] == 'M' && text[2] == 'k'
  {
    NumeralAt(5);
    UpperCaseAt(11);
    LowerCaseAt(10);
    hide ALPHABET;
    assert digits[0] == digits[..3][0] && digits[1] == digits[..3][1] && digits[2] == digits[..3][2];
  }

  lemma DidJoins(text: string)
    requires |text| >= 3 && text[0] == '6' && text[1] == 'M' && text[2] == 'k'
    ensures (DID_PREFIX + text)[..12] == "did:key:z6Mk" && |DID_PREFIX| == 9
  {
    var did := DID_PREFIX + text;
    assert did[..9] == "did:key:z" && did[9] == '6' && did[10] == 'M' && did[11] == 'k';
    assert did[..12] == did[..9] + [did[9], did[10], did[11]];
  }

  /** A DID that is accepted has that form, so no other kind of key is ever taken for an Ed25519 one. */
  lemma AcceptedStarts(did: string)
    requires KeyOf(did).Ok?
    ensures |did| == 56 && did[..12] == "did:key:z6Mk"
  {
    DidOfKey(did);
    DidStarts(KeyOf(did).value);
    hide Encoding, Decoding;
  }

  predicate IsLetter(c: char) {
    ('1' <= c <= '9') || ('A' <= c <= 'Z' && c != 'I' && c != 'O') || ('a' <= c <= 'z' && c != 'l')
  }

  lemma EveryLetter(i: nat)
    requires i < 58
    ensures IsLetter(ALPHABET[i])
  {
    hide ALPHABET;
    if i < 9 { NumeralAt(i); } else if i < 33 { UpperCaseAt(i - 9); } else { LowerCaseAt(i - 33); }
  }

  lemma LetterFound(c: char) returns (i: nat)
    requires IsLetter(c)
    ensures i < 58 && ALPHABET[i] == c
  {
    hide ALPHABET;
    var n := c as int;
    if c <= '9' {
      i := n - '1' as int;
      NumeralAt(i);
    } else if c <= 'Z' {
      i := 9 + (if c < 'I' then n - 'A' as int else if c < 'O' then 8 + n - 'J' as int else 13 + n - 'P' as int);
      UpperCaseAt(i - 9);
    } else {
      i := 33 + (if c < 'l' then n - 'a' as int else 11 + n - 'm' as int);
      LowerCaseAt(i - 33);
    }
  }

  /** The letters are the digits and the Latin letters without 0, O, I and l. */
  lemma LettersOfAlphabet(c: char)
    ensures IndexOf(c) < 58 <==> IsLetter(c)
  {
    hide ALPHABET, IsLetter;
    if IndexOf(c) < 58 { EveryLetter(IndexOf(c)); }
    if IsLetter(c) { var i := LetterFound(c); }
  }
}
