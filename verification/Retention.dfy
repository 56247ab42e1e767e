/**
  The reobservation ceremony: sealed records issued by one authority, from the historical evidence through
  migration, plan and review to an attempt whose records supersede each other. A token is an opaque index into
  the authority's registry; identifiers are symbolic digests of what they cover, so they are injective. A call
  first resolves its token and then, in a second critical section, does its work on the record it found.
 */
module Retention {
  import opened Prelude

  datatype Policy = V1 | V2

  /** The four fixed sources by their position. */
  const SOURCES: nat := 4

  datatype SourceState = NotAttempted | SourceCompleted | SourceFailed | SourceInterrupted

  datatype Status = Started | Partial | AttemptCompleted | AttemptFailed | AttemptInterrupted

  datatype Id =
    | EvidenceId
    | MigrationId(evidence: Id)
    | PlanId(migration: Id)
    | ReviewId(plan: Id)
    | AttemptId(plan: Id)
    | RecordId(attempt: Id, generation: nat, previous: Option<Id>, status: Status, states: seq<SourceState>)
    | StatesId(states: seq<SourceState>)

  datatype Kind = EvidenceKind | MigrationKind | PlanKind | ReviewKind | AttemptKind

  datatype Attempt = Attempt(
    attemptId: Id, planId: Id, generation: nat, status: Status, states: seq<SourceState>, previous: Option<Id>,
    recordId: Id, reconciliation: bool, result: Option<Id>)

  datatype Record =
    | Evidence(id: Id, policy: Policy, previous: Option<Id>)
    | Migration(id: Id, evidence: Id)
    | Plan(id: Id, migration: Id)
    | Review(id: Id, plan: Id)
    | AttemptRecord(attempt: Attempt)

  function KindOf(r: Record): Kind {
    match r
    case Evidence(_, _, _) => EvidenceKind
    case Migration(_, _) => MigrationKind
    case Plan(_, _) => PlanKind
    case Review(_, _) => ReviewKind
    case AttemptRecord(_) => AttemptKind
  }

  datatype Token = Token(kind: Kind, index: nat)

  datatype Refusal =
    | SealedRecordRequired | CrossAuthorityRecord | MigrationSameRevision | MigrationAlreadyRecorded
    | PlanAlreadyPrepared | ReviewAlreadyRecorded | DuplicateAttempt | SourceNotInFixedSet | SourceStateInvalid
    | RecordSuperseded | AttemptTerminal | SourceAlreadyAttempted | CurrentResultRequired | ProjectionInvalid

  /** The registries as one growing list, the sets of what is already done, and the active attempt records. */
  datatype State = State(
    records: seq<Record>, migrated: set<Id>, planned: set<Id>, reviewed: set<Id>, attempted: set<Id>,
    active: map<Id, Id>)

  const EMPTY: State := State([], {}, {}, {}, {}, map[])

  function Resolve(s: State, t: Token, kind: Kind): Result<Record, Refusal> {
    if t.kind != kind then Err(SealedRecordRequired)
    else if t.index >= |s.records| || KindOf(s.records[t.index]) != kind then Err(CrossAuthorityRecord)
    else Ok(s.records[t.index])
  }

  function Issue(s: State, r: Record): (State, Result<Token, Refusal>) {
    (s.(records := s.records + [r]), Ok(Token(KindOf(r), |s.records|)))
  }

  function HistoricalSpec(s: State): (State, Result<Token, Refusal>) {
    Issue(s, Evidence(EvidenceId, V1, None))
  }

  function MigrateOn(s: State, r: Record, to: Policy): (State, Result<Token, Refusal>)
    requires r.Evidence?
  {
    if to == r.policy then (s, Err(MigrationSameRevision))
    else if r.id in s.migrated then (s, Err(MigrationAlreadyRecorded))
    else Issue(s.(migrated := s.migrated + {r.id}), Migration(MigrationId(r.id), r.id))
  }

  function MigrateSpec(s: State, t: Token, to: Policy): (State, Result<Token, Refusal>) {
    match Resolve(s, t, EvidenceKind)
    case Err(e) => (s, Err(e))
    case Ok(r) => MigrateOn(s, r, to)
  }

  function PrepareOn(s: State, r: Record): (State, Result<Token, Refusal>)
    requires r.Migration?
  {
    if r.id in s.planned then (s, Err(PlanAlreadyPrepared))
    else Issue(s.(planned := s.planned + {r.id}), Plan(PlanId(r.id), r.id))
  }

  function PrepareSpec(s: State, t: Token): (State, Result<Token, Refusal>) {
    match Resolve(s, t, MigrationKind)
    case Err(e) => (s, Err(e))
    case Ok(r) => PrepareOn(s, r)
  }

  function ReviewOn(s: State, r: Record): (State, Result<Token, Refusal>)
    requires r.Plan?
  {
    if r.id in s.reviewed then (s, Err(ReviewAlreadyRecorded))
    else Issue(s.(reviewed := s.reviewed + {r.id}), Review(ReviewId(r.id), r.id))
  }

  function ReviewSpec(s: State, t: Token): (State, Result<Token, Refusal>) {
    match Resolve(s, t, PlanKind)
    case Err(e) => (s, Err(e))
    case Ok(r) => ReviewOn(s, r)
  }

  const FRESH_STATES: seq<SourceState> := [NotAttempted, NotAttempted, NotAttempted, NotAttempted]

  function FirstAttempt(plan: Id): Attempt {
    var attempt := AttemptId(plan);
    Attempt(
      attempt, plan, 0, Started, FRESH_STATES, None, RecordId(attempt, 0, None, Started, FRESH_STATES), false, None)
  }

  function BeginOn(s: State, r: Record): (State, Result<Token, Refusal>)
    requires r.Review?
  {
    if r.plan in s.attempted then (s, Err(DuplicateAttempt))
    else
      var a := FirstAttempt(r.plan);
      Issue(s.(attempted := s.attempted + {r.plan}, active := s.active[a.attemptId := a.recordId]), AttemptRecord(a))
  }

  function BeginSpec(s: State, t: Token): (State, Result<Token, Refusal>) {
    match Resolve(s, t, ReviewKind)
    case Err(e) => (s, Err(e))
    case Ok(r) => BeginOn(s, r)
  }

  predicate AllCompleted(states: seq<SourceState>) {
    forall i | 0 <= i < |states| :: states[i] == SourceCompleted
  }

  predicate Terminal(status: Status) {
    status in {AttemptCompleted, AttemptFailed, AttemptInterrupted}
  }

  /** The record that follows when source i ends in the given state. */
  function NextAttempt(a: Attempt, i: nat, state: SourceState): Attempt
    requires i < |a.states|
  {
    var states := a.states[i := state];
    var status :=
      if state == SourceFailed then AttemptFailed
      else if state == SourceInterrupted then AttemptInterrupted
      else if AllCompleted(states) then AttemptCompleted else Partial;
    Attempt(
      a.attemptId, a.planId, a.generation + 1, status, states, Some(a.recordId),
      RecordId(a.attemptId, a.generation + 1, Some(a.recordId), status, states),
      state in {SourceFailed, SourceInterrupted}, None)
  }

  function RecordSourceOn(s: State, r: Record, source: nat, state: SourceState): (State, Result<Token, Refusal>)
    requires r.AttemptRecord?
  {
    var a := r.attempt;
    if source >= SOURCES || source >= |a.states| then (s, Err(SourceNotInFixedSet))
    else if state == NotAttempted then (s, Err(SourceStateInvalid))
    else if a.attemptId !in s.active || s.active[a.attemptId] != a.recordId then (s, Err(RecordSuperseded))
    else if Terminal(a.status) then (s, Err(AttemptTerminal))
    else if a.states[source] != NotAttempted then (s, Err(SourceAlreadyAttempted))
    else
      var next := NextAttempt(a, source, state);
      Issue(s.(active := s.active[next.attemptId := next.recordId]), AttemptRecord(next))
  }

  function RecordSourceSpec(s: State, t: Token, source: nat, state: SourceState): (State, Result<Token, Refusal>) {
    match Resolve(s, t, AttemptKind)
    case Err(e) => (s, Err(e))
    case Ok(r) => RecordSourceOn(s, r, source, state)
  }

  /** The decision on the two records, however they were resolved. */
  function CommitOn(a: Record, r: Record): Result<Id, Refusal>
    requires a.AttemptRecord? && r.Evidence?
  {
    if a.attempt.status != AttemptCompleted || r.policy != V2 || r.previous != Some(EvidenceId) then
      Err(CurrentResultRequired)
    else Ok(r.id)
  }

  function CommitSpec(s: State, attempt: Token, evidence: Token): Result<Id, Refusal> {
    match Resolve(s, attempt, AttemptKind)
    case Err(e) => Err(e)
    case Ok(a) =>
      match Resolve(s, evidence, EvidenceKind)
      case Err(e) => Err(e)
      case Ok(r) => CommitOn(a, r)
  }

  // Projection

  datatype Semantic =
    | SemanticGap | ReevaluationProhibited | ExecutionPending | ReviewRecorded | OfStatus(status: Status)

  datatype Reobservation = Required | PlanPrepared | HumanReviewRecorded | AttemptRecorded

  datatype Time = HistoricalTime | EventTime

  datatype AttemptFields = AttemptFields(attemptId: Id, planId: Id, generation: nat, states: Id)

  /** The fields of a projection that depend on the record; the others are constants. */
  datatype Projection = Projection(
    kind: Kind, recordId: Id, previous: Option<Id>, policy: Policy, at: Time, superseded: bool, complete: bool,
    semantic: Semantic, reobservation: Reobservation, fromPolicy: Option<Policy>, attempt: Option<AttemptFields>,
    reconciliation: bool, result: Option<Id>, generation: nat)

  function ProjectionOf(s: State, r: Record): Projection {
    match r
    case Evidence(id, policy, previous) =>
      Projection(EvidenceKind, id, previous, policy, HistoricalTime, true, false, SemanticGap, Required, None, None,
                 false, None, 0)
    case Migration(id, evidence) =>
      Projection(MigrationKind, id, Some(evidence), V2, EventTime, true, false, ReevaluationProhibited, Required,
                 Some(V1), None, false, None, 0)
    case Plan(id, migration) =>
      Projection(PlanKind, id, Some(migration), V2, EventTime, false, false, ExecutionPending, PlanPrepared, None,
                 None, false, None, 0)
    case Review(id, plan) =>
      Projection(ReviewKind, id, Some(plan), V2, EventTime, false, false, ReviewRecorded, HumanReviewRecorded, None,
                 None, false, None, 0)
    case AttemptRecord(a) =>
      Projection(AttemptKind, a.recordId, a.previous, V2, EventTime,
                 a.attemptId !in s.active || s.active[a.attemptId] != a.recordId,
                 a.status == AttemptCompleted, OfStatus(a.status), AttemptRecorded, None,
                 Some(AttemptFields(a.attemptId, a.planId, a.generation, StatesId(a.states))),
                 a.reconciliation, a.result, a.generation)
  }

  datatype Error =
    | GenerationInvalid | MigrationBindingInvalid | MigrationFieldsProhibited | AttemptBindingInvalid
    | AttemptFieldsProhibited | StateContradiction | PreviousContradiction | TimeContradiction | AttemptContradiction

  function ExpectedState(kind: Kind): (Policy, bool, bool, Semantic, Reobservation)
    requires kind != AttemptKind
  {
    match kind
    case EvidenceKind => (V1, true, false, SemanticGap, Required)
    case MigrationKind => (V2, true, false, ReevaluationProhibited, Required)
    case PlanKind => (V2, false, false, ExecutionPending, PlanPrepared)
    case ReviewKind => (V2, false, false, ReviewRecorded, HumanReviewRecorded)
  }

  predicate AttemptConsistent(p: Projection)
    requires p.kind == AttemptKind
  {
    && p.policy == V2 && p.reobservation == AttemptRecorded && p.semantic.OfStatus? && p.attempt.Some?
    && var generation := p.attempt.value.generation;
    && p.generation == generation
    && (p.complete <==> p.semantic.status == AttemptCompleted)
    && (p.previous.None? <==> generation == 0)
    && (p.semantic.status == Started <==> generation == 0)
    && (p.reconciliation <==> p.semantic.status in {AttemptFailed, AttemptInterrupted})
    && p.at == EventTime && p.result.None?
  }

  function ErrorIf(failed: bool, error: Error): seq<Error> {
    if failed then [error] else []
  }

  function BindingErrors(p: Projection): seq<Error> {
    ErrorIf(p.generation > 4, GenerationInvalid)
    + (if p.kind == MigrationKind then ErrorIf(p.fromPolicy != Some(V1), MigrationBindingInvalid)
       else ErrorIf(p.fromPolicy != None, MigrationFieldsProhibited))
    + (if p.kind == AttemptKind then ErrorIf(p.attempt.None? || p.attempt.value.generation > 4, AttemptBindingInvalid)
       else ErrorIf(p.attempt != None || p.reconciliation, AttemptFieldsProhibited))
  }

  function StateErrors(p: Projection): seq<Error> {
    if p.kind == AttemptKind then ErrorIf(!AttemptConsistent(p), AttemptContradiction)
    else
      ErrorIf((p.policy, p.superseded, p.complete, p.semantic, p.reobservation) != ExpectedState(p.kind)
              || p.generation != 0,
              StateContradiction)
      + ErrorIf((p.kind == EvidenceKind) != p.previous.None?, PreviousContradiction)
      + ErrorIf(p.at != (if p.kind == EvidenceKind then HistoricalTime else EventTime), TimeContradiction)
  }

  /** `validate_projection` on those fields: the errors it collects. */
  function ValidateProjection(p: Projection): seq<Error> {
    BindingErrors(p) + StateErrors(p)
  }

  /** What a projection has to be, kind by kind. */
  predicate Acceptable(p: Projection) {
    && p.generation <= 4 && p.fromPolicy == (if p.kind == MigrationKind then Some(V1) else None)
    && (if p.kind == AttemptKind then AttemptConsistent(p)
        else
          && p.attempt.None? && !p.reconciliation && p.generation == 0
          && p.previous.Some? == (p.kind != EvidenceKind)
          && p.at == (if p.kind == EvidenceKind then HistoricalTime else EventTime)
          && p.policy == (if p.kind == EvidenceKind then V1 else V2)
          && p.superseded == (p.kind in {EvidenceKind, MigrationKind}) && !p.complete
          && match p.kind
             case EvidenceKind => p.semantic == SemanticGap && p.reobservation == Required
             case MigrationKind => p.semantic == ReevaluationProhibited && p.reobservation == Required
             case PlanKind => p.semantic == ExecutionPending && p.reobservation == PlanPrepared
             case ReviewKind => p.semantic == ReviewRecorded && p.reobservation == HumanReviewRecorded)
  }

  /** The validator finds nothing exactly in such a projection. */
  lemma NoErrorsIff(p: Projection)
    ensures ValidateProjection(p) == [] <==> Acceptable(p)
  {
  }

  function ProjectSpec(s: State, t: Token): Result<Projection, Refusal> {
    match Resolve(s, t, t.kind)
    case Err(e) => Err(e)
    case Ok(r) =>
      var p := ProjectionOf(s, r);
      if ValidateProjection(p) != [] then Err(ProjectionInvalid) else Ok(p)
  }

  // Calls made one after another

  datatype Call =
    | Historical
    | Migrate(token: Token, to: Policy)
    | Prepare(token: Token)
    | HumanReview(token: Token)
    | Begin(token: Token)
    | RecordSource(token: Token, source: nat, state: SourceState)

  function Apply(s: State, call: Call): (State, Result<Token, Refusal>) {
    match call
    case Historical => HistoricalSpec(s)
    case Migrate(t, to) => MigrateSpec(s, t, to)
    case Prepare(t) => PrepareSpec(s, t)
    case HumanReview(t) => ReviewSpec(s, t)
    case Begin(t) => BeginSpec(s, t)
    case RecordSource(t, source, state) => RecordSourceSpec(s, t, source, state)
  }

  function Run(s: State, calls: seq<Call>): State
    decreases |calls|
  {
    if calls == [] then s else Run(Apply(s, calls[0]).0, calls[1..])
  }
}
