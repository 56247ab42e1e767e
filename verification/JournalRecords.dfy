/**
  Records of the durable observation journal: their fields, the identity hash, and the
  per-record validation that ties a record to its predecessor.
 */
module JournalRecords {
  import opened Prelude

  /**
    SHA-256 identities as terms, so equal digests have equal preimages. `NotHex` stands for a
    string that is not 64 lower-case hexadecimal characters.
   */
  datatype Digest =
    | Zero
    | OfBody(body: Body)
    | OfAttempt(planId: Digest)
    | Named(constant: nat)
    | NotHex(text: string)

  datatype RecordType =
    | PlanPrepared
    | PermitConsumed
    | AttemptIntent
    | SourceIntent
    | RequestBoundary
    | SourceResult
    | EvidenceCommit
    | Finalize
    | UnknownType(name: string)

  datatype AttemptState =
    | Prepared
    | IntentDurableAttempt
    | InProgress
    | Interrupted
    | AttemptOutcomeUnknown
    | ResultsComplete
    | EvidenceCommitted
    | Finalized
    | Abandoned
    | ReconciliationRequired

  datatype SourceState =
    | NotAttempted
    | IntentDurable
    | RequestMayHaveStarted
    | ResultDurable
    | OutcomeUnknown
    | FailedConfirmed

  /** The fixed strings of a record, and room for any other text in their place. */
  datatype Schema = JournalV1 | OtherSchema(text: string)
  datatype PredicatePolicy = PredicatesV1 | PredicatesV2 | OtherPolicy(text: string)
  datatype SourceSet = FixedSourceSet | OtherSourceSet(text: string)
  datatype SourceId = Llms | OpenApi | AgentManifest | Config | OtherSource(text: string)
  datatype Stamp = FixedStamp | OtherStamp(text: string)

  datatype Body = Body(
    schema: Schema,
    journalId: Digest,
    planId: Digest,
    attemptId: Digest,
    predicatePolicy: PredicatePolicy,
    sourceSetId: SourceSet,
    sourceOrderHash: Digest,
    generation: int,
    sequence: int,
    previousHash: Digest,
    recordType: RecordType,
    attemptState: AttemptState,
    sourceId: Option<SourceId>,
    sourceOrdinal: Option<int>,
    sourceState: Option<SourceState>,
    resultId: Option<Digest>,
    evidenceId: Option<Digest>,
    createdAt: Stamp,
    reconciliationRequired: bool)

  datatype Record = Record(body: Body, recordHash: Digest)

  const JOURNAL_ID := Named(0)
  const SOURCE_ORDER_HASH := Named(1)
  const PLAN_ID := Named(2)
  const ATTEMPT_ID := OfAttempt(PLAN_ID)

  const SOURCES: seq<SourceId> := [Llms, OpenApi, AgentManifest, Config]

  predicate IsHex(d: Digest) {
    !d.NotHex?
  }

  function HashOf(body: Body): Digest {
    OfBody(body)
  }

  predicate StateAllowed(t: RecordType, s: AttemptState) {
    match t
    case PlanPrepared => s == Prepared
    case PermitConsumed => s == Prepared
    case AttemptIntent => s == IntentDurableAttempt
    case SourceIntent => s == InProgress
    case RequestBoundary => s == InProgress
    case SourceResult => s == InProgress || s == ResultsComplete
    case EvidenceCommit => s == EvidenceCommitted
    case Finalize => s == Finalized
    case UnknownType(_) => false
  }

  predicate IsSourceType(t: RecordType) {
    t == SourceIntent || t == RequestBoundary || t == SourceResult
  }

  predicate SourceBindingValid(b: Body) {
    match b.sourceId
    case None => b.sourceOrdinal == None && b.sourceState == None
    case Some(id) =>
      && b.sourceOrdinal.Some?
      && 0 <= b.sourceOrdinal.value < |SOURCES|
      && id == SOURCES[b.sourceOrdinal.value]
  }

  /** The checks one record must pass given what precedes it; `None` where nothing does. */
  predicate RecordValid(r: Record, previous: Digest, sequence: nat, planId: Option<Digest>, attemptId: Option<Digest>) {
    var b := r.body;
    && b.schema == JournalV1 && b.journalId == JOURNAL_ID
    && IsHex(b.planId) && IsHex(b.attemptId) && IsHex(b.sourceOrderHash) && IsHex(r.recordHash)
    && b.predicatePolicy == PredicatesV2
    && b.sourceSetId == FixedSourceSet && b.sourceOrderHash == SOURCE_ORDER_HASH
    && b.sequence == sequence
    && b.generation == 0
    && b.previousHash == previous
    && (planId.Some? ==> b.planId == planId.value)
    && (attemptId.Some? ==> b.attemptId == attemptId.value)
    && r.recordHash == HashOf(b)
    && StateAllowed(b.recordType, b.attemptState)
    && SourceBindingValid(b)
    && (IsSourceType(b.recordType) <==> b.sourceId.Some?)
    && (b.recordType == SourceResult <==> b.resultId.Some?)
    && (b.recordType == EvidenceCommit <==> b.evidenceId.Some?)
    && (b.resultId.Some? ==> IsHex(b.resultId.value))
    && (b.evidenceId.Some? ==> IsHex(b.evidenceId.value))
  }

  function HeadHash(rs: seq<Record>): Digest {
    if rs == [] then Zero else rs[|rs| - 1].recordHash
  }

  function PlanOf(rs: seq<Record>): Option<Digest> {
    if rs == [] then None else Some(rs[0].body.planId)
  }

  function AttemptOf(rs: seq<Record>): Option<Digest> {
    if rs == [] then None else Some(rs[0].body.attemptId)
  }

  /** Whether `r` may follow the already validated `rs`. */
  predicate Follows(rs: seq<Record>, r: Record) {
    RecordValid(r, HeadHash(rs), |rs|, PlanOf(rs), AttemptOf(rs))
  }

  /** Every record of the chain follows the ones before it. */
  ghost predicate Chained(rs: seq<Record>) {
    forall i {:trigger rs[..i]} | 0 <= i < |rs| :: Follows(rs[..i], rs[i])
  }

  lemma ChainedExtend(rs: seq<Record>, r: Record)
    ensures Chained(rs + [r]) <==> Chained(rs) && Follows(rs, r)
  {
    var all := rs + [r];
    assert forall i | 0 <= i < |rs| :: all[..i] == rs[..i] && all[i] == rs[i];
    assert all[..|rs|] == rs && all[|rs|] == r;
    if Chained(rs) && Follows(rs, r) {
      forall i | 0 <= i < |all| ensures Follows(all[..i], all[i]) {
        if i < |rs| { assert Follows(rs[..i], rs[i]); }
      }
    }
    if Chained(all) {
      forall i | 0 <= i < |rs| ensures Follows(rs[..i], rs[i]) { assert Follows(all[..i], all[i]); }
    }
  }

  lemma ChainedPrefix(rs: seq<Record>, k: nat)
    requires Chained(rs) && k <= |rs|
    ensures Chained(rs[..k])
  {
    forall i | 0 <= i < k ensures Follows(rs[..k][..i], rs[..k][i]) {
      assert rs[..k][..i] == rs[..i];
    }
  }

  /** The hash chain pins the whole journal: equal head hashes mean equal journals. */
  lemma {:induction false} HeadDeterminesJournal(a: seq<Record>, b: seq<Record>)
    requires Chained(a) && Chained(b)
    requires HeadHash(a) == HeadHash(b)
    ensures a == b
    decreases |a|
  {
    if a != [] { HeadIsRecordHash(a); }
    if b != [] { HeadIsRecordHash(b); }
    if a != [] && b != [] {
      var i, j := |a| - 1, |b| - 1;
      assert Follows(a[..i], a[i]) && Follows(b[..j], b[j]);
      assert a[i] == b[j];
      assert HeadHash(a[..i]) == HeadHash(b[..j]);
      ChainedPrefix(a, i);
      ChainedPrefix(b, j);
      HeadDeterminesJournal(a[..i], b[..j]);
      assert a == a[..i] + [a[i]] && b == b[..j] + [b[j]];
    }
  }

  lemma HeadIsRecordHash(rs: seq<Record>)
    requires Chained(rs) && rs != []
    ensures HeadHash(rs).OfBody?
  {
    assert Follows(rs[..|rs| - 1], rs[|rs| - 1]);
  }
}
