/**
  Base58 (sections 3 and 4 of draft-msporny-base58-03) and Ed25519 did:key strings. Both codecs go
  through a number; the digit strings of a number in base 58 and in base 256 are unique, so the codecs are
  mutual inverses, leading zeros included.
 */
module Base58 {
  import opened Prelude

  const NUMERALS: string := "123456789"
  const UPPER_CASE: string := "ABCDEFGHJKLMNPQRSTUVWXYZ"
  const LOWER_CASE: string := "abcdefghijkmnopqrstuvwxyz"

  /** The Base58 alphabet, in three pieces so that its characters stay within the solver's reach. */
  const ALPHABET: string := NUMERALS + UPPER_CASE + LOWER_CASE

  /** Position in the alphabet; 58 for a character outside it. */
  function IndexFrom(c: char, from: nat): (i: nat)
    requires from <= 58
    ensures from <= i <= 58
    ensures i < 58 ==> ALPHABET[i] == c
    ensures forall j | from <= j < i :: ALPHABET[j] != c
    decreases 58 - from
  {
    if from == 58 then 58 else if ALPHABET[from] == c then from else IndexFrom(c, from + 1)
  }

  function IndexOf(c: char): (i: nat)
    ensures i <= 58 && (i < 58 ==> ALPHABET[i] == c)
  {
    IndexFrom(c, 0)
  }

  predicate InAlphabet(s: string) {
    forall i | 0 <= i < |s| :: IndexOf(s[i]) < 58
  }

  lemma NumeralsIncrease(i: nat)
    requires i < 8
    ensures NUMERALS[i] < NUMERALS[i + 1]
  {
  }

  lemma UpperCaseIncreases(i: nat)
    requires i < 23
    ensures UPPER_CASE[i] < UPPER_CASE[i + 1]
  {
  }

  lemma LowerCaseIncreases(i: nat)
    requires i < 24
    ensures LOWER_CASE[i] < LOWER_CASE[i + 1]
  {
  }

  lemma AlphabetIncreases(i: nat)
    requires i < 57
    ensures ALPHABET[i] < ALPHABET[i + 1]
  {
    if i < 8 {
      NumeralsIncrease(i);
    } else if 8 < i < 32 {
      UpperCaseIncreases(i - 9);
    } else if 32 < i {
      LowerCaseIncreases(i - 33);
    }
  }

  lemma {:induction false} AlphabetOrdered(i: nat, j: nat)
    requires i < j < 58
    ensures ALPHABET[i] < ALPHABET[j]
  {
    hide ALPHABET;
    AlphabetIncreases(j - 1);
    if i + 1 < j {
      AlphabetOrdered(i, j - 1);
    }
  }

  /** No character occurs twice in the alphabet, so the index of a letter is its digit. */
  lemma IndexOfLetter(digit: nat)
    requires digit < 58
    ensures IndexOf(ALPHABET[digit]) == digit
  {
    var found := IndexOf(ALPHABET[digit]);
    if found < digit {
      AlphabetOrdered(found, digit);
    }
  }

  /** The two radices in play, kept concrete so that the arithmetic stays linear. */
  datatype Radix = R58 | R256 {
    function Size(): nat {
      if this == R58 then 58 else 256
    }

    function Times(n: nat): nat {
      if this == R58 then n * 58 else n * 256
    }

    function Quotient(n: nat): (q: nat)
      ensures n > 0 ==> q < n
    {
      if this == R58 then n / 58 else n / 256
    }

    function Remainder(n: nat): (r: nat)
      ensures r < Size()
      ensures n == Times(Quotient(n)) + r
    {
      if this == R58 then n % 58 else n % 256
    }
  }

  type Digits = seq<nat>

  /** Most significant digit first. */
  function ToNumber(radix: Radix, digits: Digits): nat {
    if digits == [] then 0 else radix.Times(ToNumber(radix, digits[..|digits| - 1])) + digits[|digits| - 1]
  }

  predicate Bounded(radix: Radix, digits: Digits) {
    forall i | 0 <= i < |digits| :: digits[i] < radix.Size()
  }

  predicate Canonical(radix: Radix, digits: Digits) {
    Bounded(radix, digits) && (digits != [] ==> digits[0] != 0)
  }

  function ToDigits(radix: Radix, n: nat): (digits: Digits)
    ensures Canonical(radix, digits)
    ensures digits == [] <==> n == 0
  {
    if n == 0 then [] else ToDigits(radix, radix.Quotient(n)) + [radix.Remainder(n)]
  }

  lemma {:induction false} NumberOfDigits(radix: Radix, n: nat)
    ensures ToNumber(radix, ToDigits(radix, n)) == n
  {
    if n > 0 {
      NumberOfDigits(radix, radix.Quotient(n));
      var front := ToDigits(radix, radix.Quotient(n));
      assert (front + [radix.Remainder(n)])[..|front|] == front;
    }
  }

  lemma {:induction false} CanonicalPositive(radix: Radix, digits: Digits)
    requires Canonical(radix, digits) && digits != []
    ensures ToNumber(radix, digits) > 0
  {
    if |digits| > 1 { CanonicalPositive(radix, digits[..|digits| - 1]); }
  }

  lemma DivideLast(radix: Radix, q: nat, r: nat)
    requires r < radix.Size()
    ensures radix.Quotient(radix.Times(q) + r) == q && radix.Remainder(radix.Times(q) + r) == r
  {
  }

  lemma {:induction false} DigitsOfNumber(radix: Radix, digits: Digits)
    requires Canonical(radix, digits)
    ensures ToDigits(radix, ToNumber(radix, digits)) == digits
  {
    if digits != [] {
      CanonicalPositive(radix, digits);
      var front, last := digits[..|digits| - 1], digits[|digits| - 1];
      DigitsOfNumber(radix, front);
      DivideLast(radix, ToNumber(radix, front), last);
      assert digits == front + [last];
    }
  }

  function Zeros(n: nat): Digits {
    seq(n, _ => 0)
  }

  function LeadingZeros(digits: Digits): (n: nat)
    ensures n <= |digits|
    ensures digits[..n] == Zeros(n)
    ensures n < |digits| ==> digits[n] != 0
  {
    if digits == [] || digits[0] != 0 then 0
    else
      var n := LeadingZeros(digits[1..]);
      assert digits[..n + 1] == [0] + digits[1..][..n];
      n + 1
  }

  lemma {:induction false} ZerosAdd(radix: Radix, n: nat, digits: Digits)
    ensures ToNumber(radix, Zeros(n) + digits) == ToNumber(radix, digits)
  {
    var all := Zeros(n) + digits;
    if digits == [] {
      if n > 0 {
        assert all[..|all| - 1] == Zeros(n - 1) + [];
        ZerosAdd(radix, n - 1, []);
      }
    } else {
      assert all[..|all| - 1] == Zeros(n) + digits[..|digits| - 1];
      ZerosAdd(radix, n, digits[..|digits| - 1]);
    }
  }

  lemma {:induction false} ZerosLead(n: nat, digits: Digits)
    requires digits == [] || digits[0] != 0
    ensures LeadingZeros(Zeros(n) + digits) == n
  {
    var all := Zeros(n) + digits;
    if n > 0 {
      assert all[1..] == Zeros(n - 1) + digits;
      ZerosLead(n - 1, digits);
    }
  }

  /** Re-expresses digits in another radix, keeping the leading zeros one for one. */
  function Convert(from: Radix, to: Radix, digits: Digits): (r: Digits)
    ensures Bounded(to, r)
  {
    Zeros(LeadingZeros(digits)) + ToDigits(to, ToNumber(from, digits))
  }

  /** Converting there and back changes nothing. */
  lemma ConvertBack(from: Radix, to: Radix, digits: Digits)
    requires Bounded(from, digits)
    ensures Convert(to, from, Convert(from, to, digits)) == digits
  {
    var n := LeadingZeros(digits);
    var rest := digits[n..];
    var number := ToNumber(from, digits);
    var middle := ToDigits(to, number);
    assert digits == Zeros(n) + rest;
    ZerosAdd(from, n, rest);
    ZerosAdd(to, n, middle);
    ZerosLead(n, middle);
    NumberOfDigits(to, number);
    DigitsOfNumber(from, rest);
  }

  function Values(raw: Bytes): (digits: Digits)
    ensures |digits| == |raw| && Bounded(R256, digits)
  {
    seq(|raw|, i requires 0 <= i < |raw| => raw[i] as nat)
  }

  function BytesOf(digits: Digits): (raw: Bytes)
    requires Bounded(R256, digits)
    ensures Values(raw) == digits
  {
    seq(|digits|, i requires 0 <= i < |digits| => digits[i] as byte)
  }

  function Letters(digits: Digits): (text: string)
    requires Bounded(R58, digits)
    ensures |text| == |digits|
  {
    seq(|digits|, i requires 0 <= i < |digits| => ALPHABET[digits[i]])
  }

  function Indices(text: string): (digits: Digits)
    requires InAlphabet(text)
    ensures |digits| == |text| && Bounded(R58, digits)
  {
    seq(|text|, i requires 0 <= i < |text| => IndexOf(text[i]))
  }

  /** The Base58 text of a byte string. */
  function Encoding(raw: Bytes): string {
    Letters(Convert(R256, R58, Values(raw)))
  }

  /** The byte string of a Base58 text; nothing when a character is outside the alphabet. */
  function Decoding(text: string): Option<Bytes> {
    if InAlphabet(text) then Some(BytesOf(Convert(R58, R256, Indices(text)))) else None
  }

  lemma IndicesOfLetters(digits: Digits)
    requires Bounded(R58, digits)
    ensures InAlphabet(Letters(digits)) && Indices(Letters(digits)) == digits
  {
    hide ALPHABET, IndexOf;
    forall i | 0 <= i < |digits|
      ensures IndexOf(Letters(digits)[i]) == digits[i]
    {
      IndexOfLetter(digits[i]);
    }
  }

  /** Decoding undoes encoding, for every byte string, leading zero bytes included. */
  lemma DecodingOfEncoding(raw: Bytes)
    ensures Decoding(Encoding(raw)) == Some(raw)
  {
    hide ALPHABET, IndexOf, Convert;
    var digits := Convert(R256, R58, Values(raw));
    IndicesOfLetters(digits);
    ConvertBack(R256, R58, Values(raw));
    assert BytesOf(Values(raw)) == raw;
  }

  /** Encoding undoes decoding, so a byte string has exactly one Base58 text. */
  lemma EncodingOfDecoding(text: string)
    requires Decoding(text).Some?
    ensures Encoding(Decoding(text).value) == text
  {
    hide ALPHABET, Convert;
    ConvertBack(R58, R256, Indices(text));
    assert Letters(Indices(text)) == text;
  }
}
