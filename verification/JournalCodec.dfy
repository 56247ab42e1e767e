/** A codec for journal records that has every property the journal's theorems assume of one. */
module JournalCodec {
  import opened Prelude
  import opened Lines
  import opened JournalRecords
  import opened JournalBytes
  import T = TokenCodec

  /** A field that holds no digest: which alternative it is, a number and a text. */
  datatype Field = Field(tag: nat, number: int, text: string)

  function FieldTokens(f: Field, rest: T.Tokens): T.Tokens {
    [f.tag]
    + ([if f.number < 0 then 1 else 0] + ([if f.number < 0 then -f.number else f.number] + T.Text(f.text, rest)))
  }

  function FieldsTokens(fields: seq<Field>, rest: T.Tokens): T.Tokens {
    if fields == [] then rest else FieldTokens(fields[0], FieldsTokens(fields[1..], rest))
  }

  function SchemaField(x: Schema): Field {
    match x case JournalV1 => Field(0, 0, "") case OtherSchema(t) => Field(1, 0, t)
  }

  function PolicyField(x: PredicatePolicy): Field {
    match x
    case PredicatesV1 => Field(0, 0, "")
    case PredicatesV2 => Field(1, 0, "")
    case OtherPolicy(t) => Field(2, 0, t)
  }

  function SourceSetField(x: SourceSet): Field {
    match x case FixedSourceSet => Field(0, 0, "") case OtherSourceSet(t) => Field(1, 0, t)
  }

  function StampField(x: Stamp): Field {
    match x case FixedStamp => Field(0, 0, "") case OtherStamp(t) => Field(1, 0, t)
  }

  function TypeField(x: RecordType): Field {
    match x
    case PlanPrepared => Field(0, 0, "")
    case PermitConsumed => Field(1, 0, "")
    case AttemptIntent => Field(2, 0, "")
    case SourceIntent => Field(3, 0, "")
    case RequestBoundary => Field(4, 0, "")
    case SourceResult => Field(5, 0, "")
    case EvidenceCommit => Field(6, 0, "")
    case Finalize => Field(7, 0, "")
    case UnknownType(t) => Field(8, 0, t)
  }

  function StateField(x: AttemptState): Field {
    match x
    case Prepared => Field(0, 0, "")
    case IntentDurableAttempt => Field(1, 0, "")
    case InProgress => Field(2, 0, "")
    case Interrupted => Field(3, 0, "")
    case AttemptOutcomeUnknown => Field(4, 0, "")
    case ResultsComplete => Field(5, 0, "")
    case EvidenceCommitted => Field(6, 0, "")
    case Finalized => Field(7, 0, "")
    case Abandoned => Field(8, 0, "")
    case ReconciliationRequired => Field(9, 0, "")
  }

  function SourceField(x: Option<SourceId>): Field {
    match x
    case None => Field(0, 0, "")
    case Some(Llms) => Field(1, 0, "")
    case Some(OpenApi) => Field(2, 0, "")
    case Some(AgentManifest) => Field(3, 0, "")
    case Some(Config) => Field(4, 0, "")
    case Some(OtherSource(t)) => Field(5, 0, t)
  }

  function SourceStateField(x: Option<SourceState>): Field {
    match x
    case None => Field(0, 0, "")
    case Some(NotAttempted) => Field(1, 0, "")
    case Some(IntentDurable) => Field(2, 0, "")
    case Some(RequestMayHaveStarted) => Field(3, 0, "")
    case Some(ResultDurable) => Field(4, 0, "")
    case Some(OutcomeUnknown) => Field(5, 0, "")
    case Some(FailedConfirmed) => Field(6, 0, "")
  }

  function OrdinalField(x: Option<int>): Field {
    match x case None => Field(0, 0, "") case Some(n) => Field(1, n, "")
  }

  function FieldsOfBody(b: Body): seq<Field> {
    [SchemaField(b.schema), PolicyField(b.predicatePolicy), SourceSetField(b.sourceSetId), Field(0, b.generation, ""),
     Field(0, b.sequence, ""), TypeField(b.recordType), StateField(b.attemptState), SourceField(b.sourceId),
     OrdinalField(b.sourceOrdinal), SourceStateField(b.sourceState), StampField(b.createdAt),
     Field(if b.reconciliationRequired then 1 else 0, 0, "")]
  }

  function DigestTokens(d: Digest, rest: T.Tokens): T.Tokens
    decreases d
  {
    match d
    case Zero => [0] + rest
    case OfBody(body) => [1] + BodyTokens(body, rest)
    case OfAttempt(planId) => [2] + DigestTokens(planId, rest)
    case Named(constant) => [3] + ([constant] + rest)
    case NotHex(text) => [4] + T.Text(text, rest)
  }

  function OptionTokens(d: Option<Digest>, rest: T.Tokens): T.Tokens
    decreases d
  {
    match d
    case None => [0] + rest
    case Some(digest) => [1] + DigestTokens(digest, rest)
  }

  function BodyTokens(b: Body, rest: T.Tokens): T.Tokens
    decreases b
  {
    DigestTokens(b.journalId, DigestTokens(b.planId, DigestTokens(b.attemptId, DigestTokens(b.sourceOrderHash,
      DigestTokens(b.previousHash, OptionTokens(b.resultId, OptionTokens(b.evidenceId,
        FieldsTokens(FieldsOfBody(b), rest))))))))
  }

  lemma FieldInjective(f: Field, x: T.Tokens, g: Field, y: T.Tokens)
    requires FieldTokens(f, x) == FieldTokens(g, y)
    ensures f == g && x == y
  {
    var p, q := T.Text(f.text, x), T.Text(g.text, y);
    var m, n := if f.number < 0 then -f.number else f.number, if g.number < 0 then -g.number else g.number;
    var s, t := if f.number < 0 then 1 else 0, if g.number < 0 then 1 else 0;
    T.HeadInjective(f.tag, [s] + ([m] + p), g.tag, [t] + ([n] + q));
    T.HeadInjective(s, [m] + p, t, [n] + q);
    T.HeadInjective(m, p, n, q);
    T.TextInjective(f.text, x, g.text, y);
  }

  lemma {:induction false} FieldsInjective(a: seq<Field>, x: T.Tokens, b: seq<Field>, y: T.Tokens)
    requires |a| == |b| && FieldsTokens(a, x) == FieldsTokens(b, y)
    ensures a == b && x == y
  {
    if a != [] {
      FieldInjective(a[0], FieldsTokens(a[1..], x), b[0], FieldsTokens(b[1..], y));
      FieldsInjective(a[1..], x, b[1..], y);
      assert a == [a[0]] + a[1..] && b == [b[0]] + b[1..];
    }
  }

  lemma SameTexts(b: Body, c: Body)
    requires FieldsOfBody(b) == FieldsOfBody(c)
    ensures b.schema == c.schema && b.predicatePolicy == c.predicatePolicy && b.sourceSetId == c.sourceSetId
    ensures b.generation == c.generation && b.sequence == c.sequence && b.createdAt == c.createdAt
    ensures b.sourceOrdinal == c.sourceOrdinal && b.reconciliationRequired == c.reconciliationRequired
  {
    var f, g := FieldsOfBody(b), FieldsOfBody(c);
    assert f[0] == g[0] && f[1] == g[1] && f[2] == g[2] && f[3] == g[3] && f[4] == g[4];
    assert f[8] == g[8] && f[10] == g[10] && f[11] == g[11];
  }

  lemma SameKinds(b: Body, c: Body)
    requires FieldsOfBody(b) == FieldsOfBody(c)
    ensures b.recordType == c.recordType && b.attemptState == c.attemptState
    ensures b.sourceId == c.sourceId && b.sourceState == c.sourceState
  {
    var f, g := FieldsOfBody(b), FieldsOfBody(c);
    assert f[5] == g[5] && f[6] == g[6] && f[7] == g[7] && f[9] == g[9];
  }

  lemma {:induction false} DigestInjective(d: Digest, x: T.Tokens, e: Digest, y: T.Tokens)
    requires DigestTokens(d, x) == DigestTokens(e, y)
    ensures d == e && x == y
    decreases d
  {
    assert DigestTokens(d, x)[0] == DigestTokens(e, y)[0];
    match d
    case Zero => T.HeadInjective(0, x, 0, y);
    case OfBody(body) =>
      T.HeadInjective(1, BodyTokens(body, x), 1, BodyTokens(e.body, y));
      BodyInjective(body, x, e.body, y);
    case OfAttempt(planId) =>
      T.HeadInjective(2, DigestTokens(planId, x), 2, DigestTokens(e.planId, y));
      DigestInjective(planId, x, e.planId, y);
    case Named(constant) =>
      T.HeadInjective(3, [constant] + x, 3, [e.constant] + y);
      T.HeadInjective(constant, x, e.constant, y);
    case NotHex(text) =>
      T.HeadInjective(4, T.Text(text, x), 4, T.Text(e.text, y));
      T.TextInjective(text, x, e.text, y);
  }

  lemma {:induction false} OptionInjective(d: Option<Digest>, x: T.Tokens, e: Option<Digest>, y: T.Tokens)
    requires OptionTokens(d, x) == OptionTokens(e, y)
    ensures d == e && x == y
    decreases d
  {
    assert OptionTokens(d, x)[0] == OptionTokens(e, y)[0];
    match d
    case None => T.HeadInjective(0, x, 0, y);
    case Some(digest) =>
      T.HeadInjective(1, DigestTokens(digest, x), 1, DigestTokens(e.value, y));
      DigestInjective(digest, x, e.value, y);
  }

  lemma {:induction false} BodyInjective(b: Body, x: T.Tokens, c: Body, y: T.Tokens)
    requires BodyTokens(b, x) == BodyTokens(c, y)
    ensures b == c && x == y
    decreases b
  {
    hide DigestTokens, OptionTokens, FieldsTokens, FieldsOfBody;
    var b7, c7 := FieldsTokens(FieldsOfBody(b), x), FieldsTokens(FieldsOfBody(c), y);
    var b6, c6 := OptionTokens(b.evidenceId, b7), OptionTokens(c.evidenceId, c7);
    var b5, c5 := OptionTokens(b.resultId, b6), OptionTokens(c.resultId, c6);
    var b4, c4 := DigestTokens(b.previousHash, b5), DigestTokens(c.previousHash, c5);
    var b3, c3 := DigestTokens(b.sourceOrderHash, b4), DigestTokens(c.sourceOrderHash, c4);
    var b2, c2 := DigestTokens(b.attemptId, b3), DigestTokens(c.attemptId, c3);
    DigestInjective(b.journalId, DigestTokens(b.planId, b2), c.journalId, DigestTokens(c.planId, c2));
    DigestInjective(b.planId, b2, c.planId, c2);
    DigestInjective(b.attemptId, b3, c.attemptId, c3);
    DigestInjective(b.sourceOrderHash, b4, c.sourceOrderHash, c4);
    DigestInjective(b.previousHash, b5, c.previousHash, c5);
    OptionInjective(b.resultId, b6, c.resultId, c6);
    OptionInjective(b.evidenceId, b7, c.evidenceId, c7);
    SameLength(b, c);
    FieldsInjective(FieldsOfBody(b), x, FieldsOfBody(c), y);
    SameTexts(b, c);
    SameKinds(b, c);
  }

  lemma SameLength(b: Body, c: Body)
    ensures |FieldsOfBody(b)| == |FieldsOfBody(c)|
  {
  }

  function RecordTokens(r: Record): T.Tokens {
    BodyTokens(r.body, DigestTokens(r.recordHash, []))
  }

  function Encode(r: Record): Bytes {
    T.Written(RecordTokens(r), [])
  }

  lemma EncodeInjective(r: Record, s: Record)
    requires Encode(r) == Encode(s)
    ensures r == s
  {
    T.WrittenInjective(RecordTokens(r), RecordTokens(s), []);
    BodyInjective(r.body, DigestTokens(r.recordHash, []), s.body, DigestTokens(s.recordHash, []));
    DigestInjective(r.recordHash, [], s.recordHash, []);
  }

  /** Reads what `Encode` writes, and nothing else. */
  ghost function Decode(bytes: Bytes): Option<Record> {
    if exists r :: Encode(r) == bytes then
      var r :| Encode(r) == bytes;
      Some(r)
    else None
  }

  ghost function TheCodec(): Codec {
    Codec(r => Encode(r), bytes => Decode(bytes))
  }

  /** The laws assumed of the journal's codec can be met. */
  lemma CodecIsLawful()
    ensures Lawful(TheCodec())
  {
    hide RecordTokens;
    forall r: Record
      ensures Plain(Encode(r)) && Decode(Encode(r)) == Some(r)
    {
      T.WrittenBytes(RecordTokens(r), []);
      T.TokensArePlain(Encode(r));
      var s :| Encode(s) == Encode(r) && Decode(Encode(r)) == Some(s);
      EncodeInjective(r, s);
    }
  }
}
