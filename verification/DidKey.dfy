/**
  The two Base58 decoders, the encoder, and Ed25519 did:key strings. The loops are proved against
  `Base58.Encoding` and `Base58.Decoding`; the DID functions inherit the round trip.
 */
module DidKey {
  import opened Prelude
  import opened Base58

  datatype DidError = KeyLength | UnsupportedDid | NotInAlphabet | NotEd25519

  const DID_PREFIX: string := "did:key:z"
  const MULTICODEC_ED25519: Bytes := [0xed, 0x01]

  function BitLength(n: nat): nat {
    if n == 0 then 0 else 1 + BitLength(n / 2)
  }

  /** `n.to_bytes(width, "big")`, which raises when n needs more bytes. */
  function ToBytes(n: nat, width: nat): Option<Digits> {
    if width == 0 then
      if n == 0 then Some([]) else None
    else
      match ToBytes(n / 256, width - 1)
      case None => None
      case Some(front) => Some(front + [n % 256])
  }

  lemma BitLengthByNibble(n: nat)
    requires n >= 8
    ensures BitLength(n) == 4 + BitLength(n / 16)
  {
    var n2 := n / 2;
    var n4 := n2 / 2;
    var n8 := n4 / 2;
    assert n8 / 2 == n / 16;
    assert BitLength(n4) == 2 + BitLength(n8 / 2);
  }

  lemma BitLengthOfByte(n: nat)
    requires 0 < n < 256
    ensures 1 <= BitLength(n) <= 8
  {
    if n >= 8 {
      BitLengthByNibble(n);
    }
    var m := if n >= 8 then n / 16 else n;
    assert m < 16;
    assert m / 2 < 8 && m / 2 / 2 < 4 && m / 2 / 2 / 2 < 2;
    assert BitLength(m / 2 / 2) <= 2;
  }

  lemma BitLengthByByte(n: nat)
    requires n >= 256
    ensures BitLength(n) == 8 + BitLength(n / 256)
  {
    BitLengthByNibble(n);
    BitLengthByNibble(n / 16);
    assert n / 16 / 16 == n / 256;
  }

  /** The width taken from the bit length fits exactly: no overflow and no leading zero byte. */
  lemma {:induction false} BytesFit(n: nat)
    ensures ToBytes(n, (BitLength(n) + 7) / 8) == Some(ToDigits(R256, n))
  {
    if 0 < n < 256 {
      BitLengthOfByte(n);
      assert n / 256 == 0;
      assert ToBytes(n, 1) == Some([] + [n]);
      assert ToDigits(R256, 0) == [];
    } else if n >= 256 {
      BitLengthByByte(n);
      BytesFit(n / 256);
      assert R256.Quotient(n) == n / 256 && R256.Remainder(n) == n % 256;
    }
  }

  function Repeat(c: char, n: nat): string {
    seq(n, _ => c)
  }

  function Letter(digit: nat): char
    requires digit < 58
  {
    ALPHABET[digit]
  }

  /** Base58 of a byte string, as the encoder's division loop builds it. */
  method Encode(raw: Bytes) returns (text: string)
    ensures text == Encoding(raw)
  {
    hide ALPHABET, Letters;
    var leading := LeadingZeros(Values(raw));
    var number := ToNumber(R256, Values(raw));
    ghost var whole := number;
    var out := "";
    NoLetters();
    while number > 0
      invariant Letters(ToDigits(R58, whole)) == Letters(ToDigits(R58, number)) + out
    {
      LettersOfQuotient(number);
      var remainder := number % 58;
      out := [Letter(remainder)] + out;
      number := number / 58;
    }
    text := Repeat('1', leading) + out;
    LettersOfZeros(leading, ToDigits(R58, whole));
  }

  lemma NoLetters()
    ensures Letters(ToDigits(R58, 0)) == ""
  {
  }

  lemma LettersOfQuotient(n: nat)
    requires n > 0
    ensures Letters(ToDigits(R58, n)) == Letters(ToDigits(R58, n / 58)) + [Letter(n % 58)]
  {
    hide ALPHABET;
    assert R58.Quotient(n) == n / 58 && R58.Remainder(n) == n % 58;
  }

  lemma LettersOfZeros(n: nat, digits: Digits)
    requires Bounded(R58, digits)
    ensures Letters(Zeros(n) + digits) == Repeat('1', n) + Letters(digits)
  {
    assert ALPHABET[0] == '1';
  }

  /** Number of leading '1' characters. */
  function LeadingOnes(text: string): (n: nat)
    ensures n <= |text|
  {
    if text == [] || text[0] != '1' then 0 else 1 + LeadingOnes(text[1..])
  }

  lemma {:induction false} OnesAreZeros(text: string)
    requires InAlphabet(text)
    ensures LeadingOnes(text) == LeadingZeros(Indices(text))
  {
    if text != [] {
      assert Indices(text)[1..] == Indices(text[1..]);
      OnesAreZeros(text[1..]);
      OneIsZero(text[0]);
    }
  }

  lemma OneIsZero(c: char)
    ensures IndexOf(c) == 0 <==> c == '1'
  {
    assert ALPHABET[0] == '1';
  }

  /** The number of a text and its bytes, shared by both decoders. */
  function Payload(text: string, number: nat): Bytes {
    BytesOf(Zeros(LeadingOnes(text)) + ToDigits(R256, number))
  }

  lemma PayloadIsDecoding(text: string)
    requires InAlphabet(text)
    ensures Decoding(text) == Some(Payload(text, ToNumber(R58, Indices(text))))
  {
    OnesAreZeros(text);
  }

  lemma NoIndices()
    ensures InAlphabet("") && ToNumber(R58, Indices("")) == 0
  {
  }

  lemma IndicesExtend(text: string, i: nat)
    requires InAlphabet(text) && i < |text|
    ensures InAlphabet(text[..i]) && InAlphabet(text[..i + 1])
    ensures ToNumber(R58, Indices(text[..i + 1])) == ToNumber(R58, Indices(text[..i])) * 58 + IndexOf(text[i])
  {
    hide ALPHABET, IndexOf;
    assert Indices(text[..i + 1])[..i] == Indices(text[..i]);
  }

  /** `_b58decode`: the index of a character outside the alphabet raises. */
  method Decode(text: string) returns (r: Result<Bytes, DidError>)
    ensures r == match Decoding(text) case Some(raw) => Ok(raw) case None => Err(NotInAlphabet)
  {
    hide ALPHABET, IndexOf, Convert, ToNumber, ToBytes;
    NoIndices();
    var number := 0;
    for i := 0 to |text|
      invariant InAlphabet(text[..i])
      invariant number == ToNumber(R58, Indices(text[..i]))
    {
      var index := IndexOf(text[i]);
      if index == 58 { return Err(NotInAlphabet); }
      number := number * 58 + index;
      assert text[..i + 1] == text[..i] + [text[i]];
      assert text[..i + 1][..i] == text[..i];
      IndicesExtend(text[..i + 1], i);
      assert text[..i + 1][..i + 1] == text[..i + 1];
    }
    assert text[..|text|] == text;
    BytesFit(number);
    var body := ToBytes(number, (BitLength(number) + 7) / 8).value;
    r := Ok(BytesOf(Zeros(LeadingOnes(text)) + body));
    PayloadIsDecoding(text);
  }

  /** The accumulating loop of the second decoder, over characters already checked. */
  method Accumulate(text: string) returns (number: nat)
    requires InAlphabet(text)
    ensures number == ToNumber(R58, Indices(text))
  {
    hide ALPHABET, IndexOf, ToNumber;
    NoIndices();
    number := 0;
    for i := 0 to |text|
      invariant InAlphabet(text[..i])
      invariant number == ToNumber(R58, Indices(text[..i]))
    {
      number := number * 58 + IndexOf(text[i]);
      IndicesExtend(text, i);
    }
    assert text[..|text|] == text;
  }

  /** `_decode_base58btc`: every character is checked before the number is computed. */
  method DecodeMultibase(value: string) returns (r: Option<Bytes>)
    ensures r == if value != [] && value[0] == 'z' then Decoding(value[1..]) else None
  {
    hide ALPHABET, IndexOf, Convert, ToNumber, ToBytes;
    if value == [] || value[0] != 'z' { return None; }
    var text := value[1..];
    if exists i | 0 <= i < |text| :: IndexOf(text[i]) == 58 { return None; }
    var number := Accumulate(text);
    BytesFit(number);
    var decoded := ToBytes(number, (BitLength(number) + 7) / 8).value;
    r := Some(BytesOf(Zeros(LeadingOnes(text)) + decoded));
    PayloadIsDecoding(text);
  }

  predicate HasPrefix(text: string, prefix: string) {
    |prefix| <= |text| && text[..|prefix|] == prefix
  }

  predicate IsEd25519(decoded: Bytes) {
    |decoded| == 34 && decoded[..2] == MULTICODEC_ED25519
  }

  function DidOf(key: Bytes): Result<string, DidError> {
    if |key| != 32 then Err(KeyLength) else Ok(DID_PREFIX + Encoding(MULTICODEC_ED25519 + key))
  }

  function KeyOf(did: string): Result<Bytes, DidError> {
    if !HasPrefix(did, DID_PREFIX) then Err(UnsupportedDid)
    else
      match Decoding(did[|DID_PREFIX|..])
      case None => Err(NotInAlphabet)
      case Some(decoded) => if IsEd25519(decoded) then Ok(decoded[2..]) else Err(NotEd25519)
  }

  method DidFromPublicKey(key: Bytes) returns (r: Result<string, DidError>)
    ensures r == DidOf(key)
  {
    if |key| != 32 { return Err(KeyLength); }
    var encoded := Encode(MULTICODEC_ED25519 + key);
    r := Ok(DID_PREFIX + encoded);
  }

  method PublicKeyFromDid(did: string) returns (r: Result<Bytes, DidError>)
    ensures r == KeyOf(did)
  {
    if !HasPrefix(did, DID_PREFIX) { return Err(UnsupportedDid); }
    var decoded := Decode(did[|DID_PREFIX|..]);
    if decoded.Err? { return Err(decoded.error); }
    var prefix := if |decoded.value| >= 2 then decoded.value[..2] else decoded.value;
    if prefix != MULTICODEC_ED25519 || |decoded.value| != 34 { return Err(NotEd25519); }
    r := Ok(decoded.value[2..]);
  }

  /** `_did_ed25519_key`, the second reader, agrees with the first on every string. */
  method DidEd25519Key(value: string) returns (r: Option<Bytes>)
    ensures r == match KeyOf(value) case Ok(key) => Some(key) case Err(_) => None
  {
    if !HasPrefix(value, DID_PREFIX) { return None; }
    assert DID_PREFIX == "did:key:" + "z";
    assert value[8] == DID_PREFIX[8];
    var rest := value[|"did:key:"|..];
    assert rest[0] == 'z' && rest[1..] == value[|DID_PREFIX|..];
    var decoded := DecodeMultibase(rest);
    if decoded.None? || |decoded.value| != 34 || decoded.value[..2] != MULTICODEC_ED25519 { return None; }
    r := Some(decoded.value[2..]);
  }

  /** A key is read back from its DID. */
  lemma KeyOfDid(key: Bytes)
    requires |key| == 32
    ensures DidOf(key).Ok? && KeyOf(DidOf(key).value) == Ok(key)
  {
    hide Encoding, Decoding;
    var raw := MULTICODEC_ED25519 + key;
    DecodingOfEncoding(raw);
    assert (DID_PREFIX + Encoding(raw))[|DID_PREFIX|..] == Encoding(raw);
    assert raw[..2] == MULTICODEC_ED25519 && raw[2..] == key;
  }

  /** A DID that is accepted is the one its key encodes to: the strings are canonical. */
  lemma DidOfKey(did: string)
    requires KeyOf(did).Ok?
    ensures DidOf(KeyOf(did).value) == Ok(did)
  {
    hide Encoding, Decoding;
    var text := did[|DID_PREFIX|..];
    EncodingOfDecoding(text);
    var decoded := Decoding(text).value;
    assert decoded == MULTICODEC_ED25519 + decoded[2..];
    assert did == DID_PREFIX + text;
  }
}
