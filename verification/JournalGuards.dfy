/**
  The journal's record operations: what each one checks before it appends, and the record it appends.
  On journals written through these operations the checks and the grammar agree exactly.
 */
module JournalGuards {
  import opened Prelude
  import opened JournalRecords
  import opened JournalGrammar

  datatype Op =
    | Prepare
    | ConsumePermit
    | RecordIntent
    | RecordSourceIntent(k: nat)
    | RecordBoundary(k: nat)
    | RecordResult(k: nat, id: Digest)
    | CommitEvidence(id: Digest)
    | FinalizeAttempt

  datatype JournalError =
    | JournalAlreadyExists
    | DuplicatePermitConsumption
    | PermitConsumptionOrderInvalid
    | DuplicateAttemptIntent
    | AttemptIntentRequired
    | SourceInvalid
    | SourceOrderOrPriorOutcomeInvalid
    | DuplicateSourceIntent
    | SourceIntentRequired
    | DuplicateSourceResult
    | DuplicateEvidenceCommit
    | FourDurableResultsRequired
    | EvidenceCommitRequired
    | AttemptTerminal
    | SealedAttemptRequired
    | SealedResultRequired
    | SealedEvidenceRequired
    | JournalReconciliationRequired
    | DurabilityReconciliationRequired
    | DuplicateWriter
    | JournalTooLarge
    | JournalLimitReached
    | CandidateInvalid
    | ShortWrite
    | LocalPersistenceFailed
    | DirectoryFsyncDurabilityUnknown

  predicate OfSource(b: Body, k: nat) {
    k < |SOURCES| && b.sourceId == Some(SOURCES[k])
  }

  predicate HasType(rs: seq<Record>, n: nat, t: RecordType)
    requires n <= |rs|
  {
    n > 0 && (rs[n - 1].body.recordType == t || HasType(rs, n - 1, t))
  }

  predicate HasSourceState(rs: seq<Record>, n: nat, k: nat, states: set<SourceState>)
    requires n <= |rs|
  {
    n > 0 && (
      || (OfSource(rs[n - 1].body, k) && rs[n - 1].body.sourceState.Some? && rs[n - 1].body.sourceState.value in states)
      || HasSourceState(rs, n - 1, k, states))
  }

  /** The state of the last record naming source `k`. */
  function LastSourceState(rs: seq<Record>, n: nat, k: nat): Option<SourceState>
    requires n <= |rs|
  {
    if n == 0 then None
    else if OfSource(rs[n - 1].body, k) then rs[n - 1].body.sourceState
    else LastSourceState(rs, n - 1, k)
  }

  function DurableSources(rs: seq<Record>, n: nat): set<Option<SourceId>>
    requires n <= |rs|
  {
    if n == 0 then {}
    else if rs[n - 1].body.sourceState == Some(ResultDurable) then
      DurableSources(rs, n - 1) + {rs[n - 1].body.sourceId}
    else DurableSources(rs, n - 1)
  }

  function Guard(rs: seq<Record>, op: Op): Option<JournalError> {
    var n := |rs|;
    match op
    case Prepare => if rs != [] then Some(JournalAlreadyExists) else None
    case ConsumePermit =>
      if HasType(rs, n, PermitConsumed) then Some(DuplicatePermitConsumption)
      else if HasType(rs, n, AttemptIntent) then Some(PermitConsumptionOrderInvalid)
      else None
    case RecordIntent =>
      if HasType(rs, n, AttemptIntent) then Some(DuplicateAttemptIntent) else None
    case RecordSourceIntent(k) =>
      if !HasType(rs, n, AttemptIntent) then Some(AttemptIntentRequired)
      else if k >= |SOURCES| then Some(SourceInvalid)
      else if k != |DurableSources(rs, n)| then Some(SourceOrderOrPriorOutcomeInvalid)
      else if HasSourceState(rs, n, k, {IntentDurable, RequestMayHaveStarted, ResultDurable, FailedConfirmed}) then
        Some(DuplicateSourceIntent)
      else None
    case RecordBoundary(k) =>
      if k >= |SOURCES| then Some(SourceInvalid)
      else if LastSourceState(rs, n, k) != Some(IntentDurable) then Some(SourceIntentRequired)
      else None
    case RecordResult(k, _) =>
      if k >= |SOURCES| then Some(SourceInvalid)
      else if !HasSourceState(rs, n, k, {IntentDurable, RequestMayHaveStarted}) then Some(SourceIntentRequired)
      else if HasSourceState(rs, n, k, {ResultDurable}) then Some(DuplicateSourceResult)
      else None
    case CommitEvidence(_) =>
      if HasType(rs, n, EvidenceCommit) then Some(DuplicateEvidenceCommit)
      else if |DurableSources(rs, n)| != 4 then Some(FourDurableResultsRequired)
      else None
    case FinalizeAttempt =>
      if rs != [] && rs[n - 1].body.attemptState == Finalized then Some(AttemptTerminal)
      else if rs == [] || rs[n - 1].body.attemptState != EvidenceCommitted then Some(EvidenceCommitRequired)
      else None
  }

  predicate OpInRange(op: Op) {
    match op
    case RecordSourceIntent(k) => k < |SOURCES|
    case RecordBoundary(k) => k < |SOURCES|
    case RecordResult(k, id) => k < |SOURCES| && IsHex(id)
    case CommitEvidence(id) => IsHex(id)
    case _ => true
  }

  function TypeOf(op: Op): RecordType {
    match op
    case Prepare => PlanPrepared
    case ConsumePermit => PermitConsumed
    case RecordIntent => AttemptIntent
    case RecordSourceIntent(_) => SourceIntent
    case RecordBoundary(_) => RequestBoundary
    case RecordResult(_, _) => SourceResult
    case CommitEvidence(_) => EvidenceCommit
    case FinalizeAttempt => Finalize
  }

  /** The attempt state the operation claims, computed from the records it read. */
  function StateOf(rs: seq<Record>, op: Op): AttemptState
    requires OpInRange(op)
  {
    match op
    case Prepare => Prepared
    case ConsumePermit => Prepared
    case RecordIntent => IntentDurableAttempt
    case RecordSourceIntent(_) => InProgress
    case RecordBoundary(_) => InProgress
    case RecordResult(k, _) =>
      if |DurableSources(rs, |rs|) + {Some(SOURCES[k])}| == 4 then ResultsComplete else InProgress
    case CommitEvidence(_) => EvidenceCommitted
    case FinalizeAttempt => Finalized
  }

  function SourceOf(op: Op): Option<nat> {
    match op
    case RecordSourceIntent(k) => Some(k)
    case RecordBoundary(k) => Some(k)
    case RecordResult(k, _) => Some(k)
    case _ => None
  }

  function SourceStateOf(op: Op): Option<SourceState> {
    match op
    case RecordSourceIntent(_) => Some(IntentDurable)
    case RecordBoundary(_) => Some(RequestMayHaveStarted)
    case RecordResult(_, _) => Some(ResultDurable)
    case _ => None
  }

  /** The fields an operation hands to `append`. */
  datatype Fields = Fields(
    recordType: RecordType,
    attemptState: AttemptState,
    source: Option<nat>,
    sourceState: Option<SourceState>,
    resultId: Option<Digest>,
    evidenceId: Option<Digest>)

  function FieldsOf(rs: seq<Record>, op: Op): Fields
    requires OpInRange(op)
  {
    Fields(
      TypeOf(op), StateOf(rs, op), SourceOf(op), SourceStateOf(op),
      if op.RecordResult? then Some(op.id) else None,
      if op.CommitEvidence? then Some(op.id) else None)
  }

  /** The record `append` builds from its fields and the records it finds. */
  function MakeRecord(rs: seq<Record>, f: Fields): Record
    requires f.source.Some? ==> f.source.value < |SOURCES|
  {
    var body := Body(
      JournalV1, JOURNAL_ID, PLAN_ID, ATTEMPT_ID, PredicatesV2, FixedSourceSet, SOURCE_ORDER_HASH, 0,
      |rs|, HeadHash(rs), f.recordType, f.attemptState,
      if f.source.Some? then Some(SOURCES[f.source.value]) else None,
      if f.source.Some? then Some(f.source.value) else None,
      f.sourceState, f.resultId, f.evidenceId, FixedStamp, false);
    Record(body, HashOf(body))
  }

  function NewRecord(rs: seq<Record>, op: Op): Record
    requires OpInRange(op)
  {
    MakeRecord(rs, FieldsOf(rs, op))
  }

  /** What the operations write beyond what record validation demands. */
  predicate ApiShaped(b: Body) {
    && b.planId == PLAN_ID && b.attemptId == ATTEMPT_ID
    && b.sourceState == SourceStateFor(b.recordType)
    && (IsSourceType(b.recordType) <==> b.sourceId.Some?)
    && SourceBindingValid(b)
    && StateAllowed(b.recordType, b.attemptState)
  }

  function SourceStateFor(t: RecordType): Option<SourceState> {
    match t
    case SourceIntent => Some(IntentDurable)
    case RequestBoundary => Some(RequestMayHaveStarted)
    case SourceResult => Some(ResultDurable)
    case _ => None
  }

  ghost predicate AllShaped(rs: seq<Record>) {
    forall i | 0 <= i < |rs| :: ApiShaped(rs[i].body)
  }

  /** A journal the operations can have written. */
  ghost predicate ApiJournal(rs: seq<Record>) {
    Chained(rs) && InGrammar(rs) && AllShaped(rs)
  }

  function Done(s: Stage): nat {
    match s
    case Ready(k) => k
    case Intended(k) => k
    case Requested(k) => k
    case Committed => 4
    case Closed => 4
    case _ => 0
  }

  predicate Started(s: Stage) {
    s.Ready? || s.Intended? || s.Requested? || s.Committed? || s.Closed?
  }

  /** What the stage says about source `k`. */
  function SourceStateAt(s: Stage, k: nat): Option<SourceState> {
    if k < Done(s) then Some(ResultDurable)
    else if s == Intended(k) then Some(IntentDurable)
    else if s == Requested(k) then Some(RequestMayHaveStarted)
    else None
  }

  function SourceSet(d: nat): set<Option<SourceId>>
    requires d <= |SOURCES|
  {
    if d == 0 then {} else SourceSet(d - 1) + {Some(SOURCES[d - 1])}
  }

  lemma SourceSetSize(d: nat)
    requires d <= |SOURCES|
    ensures |SourceSet(d)| == d
  {
    assert SourceSet(1) == {Some(SOURCES[0])};
    assert SourceSet(2) == {Some(SOURCES[0]), Some(SOURCES[1])};
    assert SourceSet(3) == {Some(SOURCES[0]), Some(SOURCES[1]), Some(SOURCES[2])};
    assert SourceSet(4) == {Some(SOURCES[0]), Some(SOURCES[1]), Some(SOURCES[2]), Some(SOURCES[3])};
  }

  /** An API record names source `k` exactly when it is a source record with that ordinal. */
  lemma OfSourceByOrdinal(b: Body, k: nat)
    requires ApiShaped(b) && k < 4
    ensures OfSource(b, k) <==> IsSourceType(b.recordType) && b.sourceOrdinal == Some(k)
  {
  }

  lemma {:induction false} TypeFacts(rs: seq<Record>, n: nat)
    requires n <= |rs| && StageAt(rs, n) != Broken
    ensures var s := StageAt(rs, n);
            && (HasType(rs, n, AttemptIntent) <==> Started(s))
            && (s == Empty || s == Planned ==> !HasType(rs, n, PermitConsumed))
            && (s == Permitted ==> HasType(rs, n, PermitConsumed))
            && (HasType(rs, n, EvidenceCommit) <==> s == Committed || s == Closed)
  {
    if n > 0 { TypeFacts(rs, n - 1); }
  }

  /** What one accepted record does to the progress of source `k`. */
  lemma StageStep(s: Stage, b: Body, k: nat)
    requires ApiShaped(b) && InRange(s) && NextStage(s, b) != Broken && k < 4
    ensures var here := IsSourceType(b.recordType) && b.sourceOrdinal == Some(k);
            && SourceStateAt(NextStage(s, b), k) == (if here then SourceStateFor(b.recordType) else SourceStateAt(s, k))
            && (here && SourceStateAt(s, k) == None ==> b.recordType == SourceIntent)
            && (here && k < Done(s) ==> false)
            && (b.recordType == SourceResult ==>
                b.sourceOrdinal == Some(Done(s)) && Done(NextStage(s, b)) == Done(s) + 1)
            && (b.recordType != SourceResult ==> Done(NextStage(s, b)) == Done(s))
  {
  }

  /** The same, for the last of the first n records of a journal. */
  lemma StageProgress(rs: seq<Record>, n: nat, k: nat)
    requires AllShaped(rs) && 0 < n <= |rs| && k < 4 && StageAt(rs, n) != Broken
    ensures var before, after, b := StageAt(rs, n - 1), StageAt(rs, n), rs[n - 1].body;
            var here := OfSource(b, k);
            && before != Broken && InRange(before)
            && SourceStateAt(after, k) == (if here then SourceStateFor(b.recordType) else SourceStateAt(before, k))
            && (here ==> b.sourceState == SourceStateFor(b.recordType) && b.sourceState.Some?)
            && (here && SourceStateAt(before, k) == None ==> b.recordType == SourceIntent)
            && (here ==> k >= Done(before))
            && Done(after) == Done(before) + (if b.recordType == SourceResult then 1 else 0)
            && (b.recordType == SourceResult ==>
                b.sourceOrdinal == Some(Done(before)) && b.sourceId == Some(SOURCES[Done(before)]))
  {
    assert ApiShaped(rs[n - 1].body);
    LongestAt(rs, n - 1);
    hide ApiShaped, NextStage, SourceStateAt, Done;
    StepOfShaped(StageAt(rs, n - 1), rs[n - 1].body, k);
  }

  lemma StepOfShaped(s: Stage, b: Body, k: nat)
    requires ApiShaped(b) && InRange(s) && NextStage(s, b) != Broken && k < 4
    ensures var here := OfSource(b, k);
            && SourceStateAt(NextStage(s, b), k) == (if here then SourceStateFor(b.recordType) else SourceStateAt(s, k))
            && (here ==> b.sourceState == SourceStateFor(b.recordType) && b.sourceState.Some?)
            && (here && SourceStateAt(s, k) == None ==> b.recordType == SourceIntent)
            && (here ==> k >= Done(s))
            && Done(NextStage(s, b)) == Done(s) + (if b.recordType == SourceResult then 1 else 0)
            && (b.recordType == SourceResult ==>
                  Done(s) < 4 && b.sourceOrdinal == Some(Done(s)) && b.sourceId == Some(SOURCES[Done(s)]))
  {
    StageStep(s, b, k);
    OfSourceByOrdinal(b, k);
  }

  lemma {:induction false} LastSourceFact(rs: seq<Record>, n: nat, k: nat)
    requires AllShaped(rs) && n <= |rs| && k < 4 && StageAt(rs, n) != Broken
    ensures LastSourceState(rs, n, k) == SourceStateAt(StageAt(rs, n), k)
  {
    if n == 0 {
      assert StageAt(rs, n) == Empty;
    } else {
      hide StageAt, SourceStateAt, OfSource, AllShaped;
      StageProgress(rs, n, k);
      LastSourceFact(rs, n - 1, k);
    }
  }

  lemma {:induction false} ResultSeen(rs: seq<Record>, n: nat, k: nat)
    requires AllShaped(rs) && n <= |rs| && k < 4 && StageAt(rs, n) != Broken
    ensures HasSourceState(rs, n, k, {ResultDurable}) <==> k < Done(StageAt(rs, n))
  {
    IsDone(StageAt(rs, n), k);
    SeenByState(rs, n, k);
  }

  lemma IsDone(s: Stage, k: nat)
    ensures k < Done(s) <==> SourceStateAt(s, k) == Some(ResultDurable)
  {
  }

  lemma HasSourceStep(rs: seq<Record>, n: nat, k: nat, states: set<SourceState>)
    requires 0 < n <= |rs|
    ensures HasSourceState(rs, n, k, states) <==>
            || HasSourceState(rs, n - 1, k, states)
            || (&& OfSource(rs[n - 1].body, k) && rs[n - 1].body.sourceState.Some?
                && rs[n - 1].body.sourceState.value in states)
  {
    hide OfSource;
  }

  lemma {:induction false} SeenByState(rs: seq<Record>, n: nat, k: nat)
    requires AllShaped(rs) && n <= |rs| && k < 4 && StageAt(rs, n) != Broken
    ensures HasSourceState(rs, n, k, {ResultDurable}) <==> SourceStateAt(StageAt(rs, n), k) == Some(ResultDurable)
  {
    if n == 0 {
      assert StageAt(rs, n) == Empty;
    } else {
      hide StageAt, SourceStateAt, OfSource, AllShaped, Done, HasSourceState;
      HasSourceStep(rs, n, k, {ResultDurable});
      StageProgress(rs, n, k);
      IsDone(StageAt(rs, n - 1), k);
      SeenByState(rs, n - 1, k);
    }
  }

  lemma {:induction false} IntentSeen(rs: seq<Record>, n: nat, k: nat, states: set<SourceState>)
    requires AllShaped(rs) && n <= |rs| && k < 4 && StageAt(rs, n) != Broken
    requires IntentDurable in states
    ensures HasSourceState(rs, n, k, states) <==> SourceStateAt(StageAt(rs, n), k) != None
  {
    if n == 0 {
      assert StageAt(rs, n) == Empty;
    } else {
      hide StageAt, SourceStateAt, OfSource, AllShaped, Done, HasSourceState;
      HasSourceStep(rs, n, k, states);
      StageProgress(rs, n, k);
      IntentSeen(rs, n - 1, k, states);
    }
  }

  lemma {:induction false} DurableFacts(rs: seq<Record>, n: nat)
    requires AllShaped(rs) && n <= |rs|
    requires StageAt(rs, n) != Broken
    ensures InRange(StageAt(rs, n))
    ensures DurableSources(rs, n) == SourceSet(Done(StageAt(rs, n)))
  {
    LongestAt(rs, n);
    if n == 0 {
      assert StageAt(rs, n) == Empty;
    } else {
      assert ApiShaped(rs[n - 1].body);
      hide StageAt, SourceStateAt, OfSource, AllShaped, Done;
      StageProgress(rs, n, 0);
      DurableFacts(rs, n - 1);
    }
  }

  lemma LastStateFacts(rs: seq<Record>)
    requires AllShaped(rs) && InGrammar(rs)
    ensures var last := rs[|rs| - 1].body.attemptState;
            && (last == Finalized <==> StageOf(rs) == Closed)
            && (last == EvidenceCommitted <==> StageOf(rs) == Committed)
            && last != Abandoned
  {
  }

  /** The stage from which an operation may append. */
  predicate StageAdmits(s: Stage, op: Op) {
    match op
    case Prepare => s == Empty
    case ConsumePermit => s == Planned
    case RecordIntent => s == Planned || s == Permitted
    case RecordSourceIntent(k) => k < 4 && s == Ready(k)
    case RecordBoundary(k) => s == Intended(k)
    case RecordResult(k, _) => s == Intended(k) || s == Requested(k)
    case CommitEvidence(_) => s == Ready(4)
    case FinalizeAttempt => s == Committed
  }

  lemma PlainGuardByStage(rs: seq<Record>, op: Op)
    requires InGrammar(rs) && AllShaped(rs) && SourceOf(op) == None
    ensures Guard(rs, op) == None <==> StageAdmits(StageOf(rs), op)
  {
    TypeFacts(rs, |rs|);
    DurableFacts(rs, |rs|);
    SourceSetSize(Done(StageOf(rs)));
    LastStateFacts(rs);
    assert StageOf(rs) != Empty by { NeverEmptyAgain(rs); }
  }

  lemma NeverEmptyAgain(rs: seq<Record>)
    requires rs != []
    ensures StageOf(rs) != Empty
  {
    var s := StageAt(rs, |rs| - 1);
    assert StageOf(rs) == NextStage(s, rs[|rs| - 1].body);
  }

  /** The number of durable results, by stage. */
  lemma DurableCount(rs: seq<Record>)
    requires InGrammar(rs) && AllShaped(rs)
    ensures |DurableSources(rs, |rs|)| == Done(StageOf(rs))
  {
    DurableFacts(rs, |rs|);
    SourceSetSize(Done(StageOf(rs)));
  }

  lemma SourceIntentGuardByStage(rs: seq<Record>, k: nat)
    requires InGrammar(rs) && AllShaped(rs)
    ensures Guard(rs, RecordSourceIntent(k)) == None <==> StageAdmits(StageOf(rs), RecordSourceIntent(k))
  {
    assert StageAt(rs, |rs|) == StageOf(rs) != Broken;
    hide StageOf, StageAt, HasType, DurableSources, HasSourceState, AllShaped, InGrammar;
    TypeFacts(rs, |rs|);
    DurableCount(rs);
    if k < 4 {
      IntentSeen(rs, |rs|, k, {IntentDurable, RequestMayHaveStarted, ResultDurable, FailedConfirmed});
    }
  }

  lemma RequestGuardsByStage(rs: seq<Record>, k: nat, id: Digest)
    requires InGrammar(rs) && AllShaped(rs)
    ensures Guard(rs, RecordBoundary(k)) == None <==> StageAdmits(StageOf(rs), RecordBoundary(k))
    ensures Guard(rs, RecordResult(k, id)) == None <==> StageAdmits(StageOf(rs), RecordResult(k, id))
  {
    LongestAt(rs, |rs|);
    if k < 4 {
      LastSourceFact(rs, |rs|, k);
      ResultSeen(rs, |rs|, k);
      IntentSeen(rs, |rs|, k, {IntentDurable, RequestMayHaveStarted});
    }
  }

  /** Every guard, read off the stage. */
  lemma GuardByStage(rs: seq<Record>, op: Op)
    requires InGrammar(rs) && AllShaped(rs)
    ensures Guard(rs, op) == None <==> StageAdmits(StageOf(rs), op)
  {
    match op
    case RecordSourceIntent(k) => SourceIntentGuardByStage(rs, k);
    case RecordBoundary(k) => RequestGuardsByStage(rs, k, Zero);
    case RecordResult(k, id) => RequestGuardsByStage(rs, k, id);
    case _ => PlainGuardByStage(rs, op);
  }

  lemma ResultStateByStage(rs: seq<Record>, k: nat, id: Digest)
    requires InGrammar(rs) && AllShaped(rs) && IsHex(id)
    requires StageAdmits(StageOf(rs), RecordResult(k, id)) && k < 4
    ensures StateOf(rs, RecordResult(k, id)) == ResultStateFor(k)
  {
    DurableFacts(rs, |rs|);
    AddedSource(k, k);
  }

  function StageAfter(s: Stage, op: Op): Stage {
    match op
    case Prepare => Planned
    case ConsumePermit => Permitted
    case RecordIntent => Ready(0)
    case RecordSourceIntent(k) => Intended(k)
    case RecordBoundary(k) => Requested(k)
    case RecordResult(k, _) => Ready(k + 1)
    case CommitEvidence(_) => Committed
    case FinalizeAttempt => Closed
  }

  /** The record an operation writes moves the grammar exactly where the operation means to. */
  lemma StageWithNewRecord(rs: seq<Record>, op: Op)
    requires rs == [] || (InGrammar(rs) && AllShaped(rs))
    requires OpInRange(op)
    ensures StageAdmits(StageOf(rs), op) ==> StageOf(rs + [NewRecord(rs, op)]) == StageAfter(StageOf(rs), op)
    ensures !StageAdmits(StageOf(rs), op) ==> StageOf(rs + [NewRecord(rs, op)]) == Broken
  {
    StageExtend(rs, NewRecord(rs, op));
    if rs != [] {
      LongestAt(rs, |rs|);
      NeverEmptyAgain(rs);
      if op.RecordResult? && StageAdmits(StageOf(rs), op) { ResultStateByStage(rs, op.k, op.id); }
    }
  }

  /**
    The checks an operation makes before appending admit exactly the one-record extensions the grammar
    accepts, so the validation of the candidate inside `append` never fails for the token holder.
   */
  lemma GuardMatchesGrammar(rs: seq<Record>, op: Op)
    requires InGrammar(rs) && AllShaped(rs)
    requires op.RecordResult? || op.CommitEvidence? ==> IsHex(op.id)
    ensures Guard(rs, op) == None <==> OpInRange(op) && InGrammar(rs + [NewRecord(rs, op)])
  {
    GuardByStage(rs, op);
    LongestAt(rs, |rs|);
    if OpInRange(op) { StageWithNewRecord(rs, op); }
    if op.Prepare? { NeverEmptyAgain(rs); }
  }

  lemma AddedSource(d: nat, k: nat)
    requires k <= d < 4
    ensures |SourceSet(d) + {Some(SOURCES[k])}| == if k == d then d + 1 else d
  {
    SourceSetSize(d);
    SourceSetSize(d + 1);
    if k < d { SourceSetMember(d, k); assert SourceSet(d) + {Some(SOURCES[k])} == SourceSet(d); }
  }

  lemma {:induction false} SourceSetMember(d: nat, k: nat)
    requires k < d <= 4
    ensures Some(SOURCES[k]) in SourceSet(d)
  {
    if k < d - 1 { SourceSetMember(d - 1, k); }
  }

  /** An admitted operation extends an API journal to an API journal. */
  lemma AdmittedExtends(rs: seq<Record>, op: Op)
    requires rs == [] || ApiJournal(rs)
    requires OpInRange(op) && Guard(rs, op) == None && (rs == [] ==> op == Prepare)
    ensures ApiJournal(rs + [NewRecord(rs, op)])
  {
    var r := NewRecord(rs, op);
    if rs != [] { GuardByStage(rs, op); }
    StageWithNewRecord(rs, op);
    NewRecordFollows(rs, op);
    ChainedExtend(rs, r);
  }

  lemma NewRecordFollows(rs: seq<Record>, op: Op)
    requires rs != [] ==> ApiShaped(rs[0].body) && Follows(rs[..|rs| - 1], rs[|rs| - 1])
    requires OpInRange(op)
    ensures Follows(rs, NewRecord(rs, op)) && ApiShaped(NewRecord(rs, op).body)
  {
  }

  // What a record says of the operation that wrote it, field by field

  predicate NamesSource(b: Body, k: nat) {
    k < 4 && b.sourceId == Some(SOURCES[k]) && b.sourceOrdinal == Some(k)
  }

  predicate NamesNoSource(b: Body) {
    b.sourceId == None && b.sourceOrdinal == None && b.sourceState == None
  }

  predicate Says(b: Body, op: Op) {
    && b.resultId == (if op.RecordResult? then Some(op.id) else None)
    && b.evidenceId == (if op.CommitEvidence? then Some(op.id) else None)
    && b.createdAt == FixedStamp && !b.reconciliationRequired
    && match op
       case Prepare => b.recordType == PlanPrepared && b.attemptState == Prepared && NamesNoSource(b)
       case ConsumePermit => b.recordType == PermitConsumed && b.attemptState == Prepared && NamesNoSource(b)
       case RecordIntent => b.recordType == AttemptIntent && b.attemptState == IntentDurableAttempt && NamesNoSource(b)
       case RecordSourceIntent(k) =>
         && b.recordType == SourceIntent && b.attemptState == InProgress
         && NamesSource(b, k) && b.sourceState == Some(IntentDurable)
       case RecordBoundary(k) =>
         && b.recordType == RequestBoundary && b.attemptState == InProgress
         && NamesSource(b, k) && b.sourceState == Some(RequestMayHaveStarted)
       case RecordResult(k, _) =>
         && b.recordType == SourceResult && b.attemptState == (if k == 3 then ResultsComplete else InProgress)
         && NamesSource(b, k) && b.sourceState == Some(ResultDurable)
       case CommitEvidence(_) =>
         b.recordType == EvidenceCommit && b.attemptState == EvidenceCommitted && NamesNoSource(b)
       case FinalizeAttempt => b.recordType == Finalize && b.attemptState == Finalized && NamesNoSource(b)
  }

  /** The record an admitted operation builds names its type, its source and its state, and carries its identifier. */
  lemma NewRecordSays(rs: seq<Record>, op: Op)
    requires rs == [] || (InGrammar(rs) && AllShaped(rs))
    requires OpInRange(op) && StageAdmits(StageOf(rs), op)
    ensures Says(NewRecord(rs, op).body, op)
  {
    if op.RecordResult? {
      NothingReadEmpty(rs);
      ResultStateByStage(rs, op.k, op.id);
    }
    hide StageOf, InGrammar, AllShaped, DurableSources;
  }

  lemma NothingReadEmpty(rs: seq<Record>)
    ensures rs == [] ==> StageOf(rs) == Empty
  {
  }

  /** The journal grew by records of these operations, in this order, and perhaps not by all of them. */
  ghost predicate Steps(before: seq<Record>, after: seq<Record>, ops: seq<Op>) {
    && before <= after && |after| - |before| <= |ops|
    && forall i | 0 <= i < |after| - |before| :: Says(after[|before| + i].body, ops[i])
  }

  lemma StepsNone(rs: seq<Record>, ops: seq<Op>)
    ensures Steps(rs, rs, ops)
  {
  }

  lemma StepsAt(rs: seq<Record>, ops: seq<Op>, i: nat)
    requires Steps([], rs, ops) && i < |rs|
    ensures i < |ops| && Says(rs[i].body, ops[i])
  {
    var none: seq<Record> := [];
    assert rs[|none| + i] == rs[i];
    hide Says;
  }

  lemma StepsJoin(a: seq<Record>, b: seq<Record>, c: seq<Record>, x: seq<Op>, y: seq<Op>)
    requires Steps(a, b, x) && Steps(b, c, y) && |b| == |a| + |x|
    ensures Steps(a, c, x + y)
  {
    hide Says;
    forall i | 0 <= i < |c| - |a|
      ensures Says(c[|a| + i].body, (x + y)[i])
    {
      if i < |x| {
        assert c[|a| + i] == b[|a| + i];
      } else {
        assert Says(c[|b| + (i - |x|)].body, y[i - |x|]);
      }
    }
  }

  lemma StepsShorter(a: seq<Record>, b: seq<Record>, x: seq<Op>, y: seq<Op>)
    requires Steps(a, b, x)
    ensures Steps(a, b, x + y)
  {
    hide Says;
  }

  // Why a guard refuses

  /** Some record of this type stands in the journal. */
  predicate Holds(rs: seq<Record>, t: RecordType) {
    exists i | 0 <= i < |rs| :: rs[i].body.recordType == t
  }

  lemma {:induction false} HoldsType(rs: seq<Record>, n: nat, t: RecordType)
    requires n <= |rs|
    ensures HasType(rs, n, t) <==> exists i | 0 <= i < n :: rs[i].body.recordType == t
  {
    if n > 0 { HoldsType(rs, n - 1, t); }
  }

  /** The error of each operation in the stages it is not meant for. */
  function Refusal(rs: seq<Record>, op: Op): JournalError {
    var s := StageOf(rs);
    match op
    case Prepare => JournalAlreadyExists
    case ConsumePermit =>
      if Holds(rs, PermitConsumed) then DuplicatePermitConsumption else PermitConsumptionOrderInvalid
    case RecordIntent => DuplicateAttemptIntent
    case RecordSourceIntent(k) =>
      if s == Planned || s == Permitted then AttemptIntentRequired
      else if k >= 4 then SourceInvalid
      else if k == Done(s) then DuplicateSourceIntent
      else SourceOrderOrPriorOutcomeInvalid
    case RecordBoundary(k) => if k >= 4 then SourceInvalid else SourceIntentRequired
    case RecordResult(k, _) =>
      if k >= 4 then SourceInvalid else if k < Done(s) then DuplicateSourceResult else SourceIntentRequired
    case CommitEvidence(_) =>
      if s == Committed || s == Closed then DuplicateEvidenceCommit else FourDurableResultsRequired
    case FinalizeAttempt => if s == Closed then AttemptTerminal else EvidenceCommitRequired
  }

  lemma PlainRefusals(rs: seq<Record>, op: Op)
    requires InGrammar(rs) && AllShaped(rs) && SourceOf(op) == None && Guard(rs, op).Some?
    ensures Guard(rs, op) == Some(Refusal(rs, op))
  {
    TypeFacts(rs, |rs|);
    DurableCount(rs);
    LastStateFacts(rs);
    HoldsType(rs, |rs|, PermitConsumed);
    assert StageAt(rs, |rs|) == StageOf(rs);
    hide StageOf, StageAt, HasType, DurableSources, AllShaped;
  }

  lemma RequestRefusals(rs: seq<Record>, op: Op)
    requires InGrammar(rs) && AllShaped(rs) && SourceOf(op).Some? && Guard(rs, op).Some?
    ensures Guard(rs, op) == Some(Refusal(rs, op))
  {
    var k := SourceOf(op).value;
    TypeFacts(rs, |rs|);
    DurableCount(rs);
    LongestAt(rs, |rs|);
    assert StageAt(rs, |rs|) == StageOf(rs);
    NeverEmptyAgain(rs);
    if k < 4 {
      ResultSeen(rs, |rs|, k);
      IntentSeen(rs, |rs|, k, {IntentDurable, RequestMayHaveStarted});
    }
    hide StageOf, StageAt, HasType, DurableSources, HasSourceState, LastSourceState, AllShaped;
  }

  /** A refused operation is told the one reason its stage gives. */
  lemma GuardRefusal(rs: seq<Record>, op: Op)
    requires InGrammar(rs) && AllShaped(rs) && !StageAdmits(StageOf(rs), op)
    ensures Guard(rs, op) == Some(Refusal(rs, op))
  {
    GuardByStage(rs, op);
    hide Guard, Refusal, StageAdmits, StageOf;
    if SourceOf(op).Some? { RequestRefusals(rs, op); } else { PlainRefusals(rs, op); }
  }
}
