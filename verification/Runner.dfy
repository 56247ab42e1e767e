/** The one-shot runner: one permit, one attempt, each source requested at most once. */
module Runner {
  import opened Prelude
  import opened JournalRecords
  import opened JournalGrammar
  import JournalBytes
  import opened JournalGuards
  import opened JournalAppend
  import opened JournalStore

  datatype RunnerError =
    | ProjectionUnavailable
    | ExistingAttemptBlocksExecution
    | SealedPermitRequired
    | PermitAlreadyConsumed
    | JournalPrepareBlocked
    | ReconciliationNeeded
    | SourceOutcomeUnknown
    | SealedObserverResultRequired
    | ObserverResultInvalid
    | SemanticOrTransportGap

  /** What the observer returns for a source; `id` is the hash of its minimized result. */
  datatype Observation =
    | Raised
    | Unsealed
    | Malformed
    | Observed(id: Digest, complete: bool)

  datatype Execution = Execution(evidenceId: Digest, sourceCount: nat)

  // What a run writes

  const START: seq<Op> := [Prepare, ConsumePermit, RecordIntent]

  function ResultId(observation: Observation): Digest {
    if observation.Observed? then observation.id else Zero
  }

  function SourceOps(k: nat, observation: Observation): (ops: seq<Op>)
    ensures |ops| == 3
  {
    [RecordSourceIntent(k), RecordBoundary(k), RecordResult(k, ResultId(observation))]
  }

  function EndOps(evidenceId: Digest): seq<Op> {
    [CommitEvidence(evidenceId), FinalizeAttempt]
  }

  /** The operations up to source k, in the fixed order. */
  function OpsBefore(k: nat, observations: nat -> Observation): (ops: seq<Op>)
    ensures |ops| == 3 + 3 * k
  {
    if k == 0 then START else OpsBefore(k - 1, observations) + SourceOps(k - 1, observations(k - 1))
  }

  /** The seventeen operations of a whole run: each result carries the identifier its observation had. */
  function Script(observations: nat -> Observation, evidenceId: Digest): seq<Op> {
    OpsBefore(4, observations) + EndOps(evidenceId)
  }

  predicate Complete(observation: Observation) {
    observation.Observed? && observation.complete
  }

  /** The system serves the whole run. */
  ghost predicate AllSmooth(ios: nat -> Io) {
    forall n :: Smooth(ios(n))
  }

  class FixtureRunner {
    const store: Store
    var permits: map<nat, bool>
    var nextPermit: nat
    var calls: seq<nat>

    ghost predicate Valid()
      reads this`permits, this`nextPermit, store
    {
      store.Valid() && forall p | p in permits :: p < nextPermit
    }

    constructor (store: Store)
      requires store.Valid()
      ensures Valid() && this.store == store && calls == [] && permits == map[]
    {
      this.store := store;
      permits, nextPermit, calls := map[], 0, [];
    }

    /** No journal yet, nothing in doubt, and the permit not spent. */
    ghost predicate Fresh(permit: nat)
      reads this`permits, store`records, store`temp, store`durabilityUnknown
    {
      && store.records == [] && store.temp == None && !store.durabilityUnknown
      && permit in permits && !permits[permit]
    }

    method IssuePermit() returns (permit: nat)
      requires Valid()
      modifies this`permits, this`nextPermit
      ensures Valid() && permit !in old(permits) && permits == old(permits)[permit := false]
    {
      permit := nextPermit;
      permits := permits[permit := false];
      nextPermit := nextPermit + 1;
    }

    /** Prepares the attempt and spends the permit, unless there is a journal already. */
    method SpendPermit(permit: nat, io: Io) returns (token: Result<nat, RunnerError>)
      requires Valid()
      modifies this`permits, store
      ensures Valid()
      ensures old(store.records) != [] || permit !in old(permits) || old(permits)[permit] ==>
                token.Err? && store.records == old(store.records) && permits == old(permits)
      ensures token.Ok? ==>
                && token.value in store.attempts && permits == old(permits)[permit := true]
                && StageOf(store.records) == Planned && |store.records| == 1
                && old(store.records) == [] && store.records == Grow([], [Prepare])
      ensures token.Err? ==> permits == old(permits)
      ensures old(store.records) == [] ==> Steps([], store.records, [Prepare])
      ensures old(Fresh(permit)) && Smooth(io) && Room(store.codec, [], [Prepare]) ==> token.Ok?
      ensures token.Ok? ==> store.temp == None && !store.durabilityUnknown
      ensures token.Err? ==>
                if old(store.records) != [] then
                  token.error in {ProjectionUnavailable, ExistingAttemptBlocksExecution}
                else if permit !in old(permits) then token.error == SealedPermitRequired
                else if old(permits)[permit] then token.error == PermitAlreadyConsumed
                else token.error == JournalPrepareBlocked
    {
      hide Store.Valid, NewRecord, StageOf, Fits, Room, Grow, Steps;
      StepsNone([], [Prepare]);
      One(store.codec, [], Prepare);
      assert [] + [NewRecord([], Prepare)] == [NewRecord([], Prepare)];
      NothingReadEmpty(store.records);
      var existing := store.InspectJournal();
      if existing.Err? { return Err(ProjectionUnavailable); }
      if existing.value.durableStateFound { return Err(ExistingAttemptBlocksExecution); }
      if permit !in permits { return Err(SealedPermitRequired); }
      if permits[permit] { return Err(PermitAlreadyConsumed); }
      var attempt := store.PrepareAttempt(io);
      if attempt.Err? { return Err(JournalPrepareBlocked); }
      permits := permits[permit := true];
      return Ok(attempt.value);
    }

    /** Everything before the first source: a fresh permit, no journal, and three durable records. */
    method Begin(permit: nat, ios: nat -> Io) returns (token: Result<nat, RunnerError>)
      requires Valid()
      modifies this`permits, store
      ensures Valid()
      ensures old(store.records) != [] ==> token.Err? && store.records == old(store.records)
      ensures permit !in old(permits) || old(permits)[permit] ==>
                token.Err? && store.records == old(store.records) && permits == old(permits)
      ensures token.Ok? ==>
                && token.value in store.attempts && permit in permits && permits[permit]
                && StageOf(store.records) == Ready(0) && |store.records| == 3
                && store.temp == None && !store.durabilityUnknown
                && old(store.records) == [] && store.records == Grow([], START)
      ensures permits == old(permits) || permits == old(permits)[permit := true]
      ensures old(store.records) == [] ==> Steps([], store.records, START)
      ensures old(Fresh(permit)) && AllSmooth(ios) && Room(store.codec, [], START) ==> token.Ok?
    {
      hide Store.Valid, NewRecord, StageOf, Fits, Room, Grow, Steps, Refusal;
      Both(store.codec, [], [Prepare], [ConsumePermit, RecordIntent]);
      var attempt := SpendPermit(permit, ios(0));
      if old(store.records) == [] { StepsShorter([], store.records, [Prepare], [ConsumePermit, RecordIntent]); }
      assert [Prepare] + [ConsumePermit, RecordIntent] == START;
      if attempt.Err? { return attempt; }
      ghost var prepared := store.records;
      Both(store.codec, prepared, [ConsumePermit], [RecordIntent]);
      One(store.codec, prepared, ConsumePermit);
      var done := store.Perform(attempt.value, ConsumePermit, ios(1));
      ghost var consumed := store.records;
      StepsShorter(prepared, consumed, [ConsumePermit], [RecordIntent]);
      assert [ConsumePermit] + [RecordIntent] == [ConsumePermit, RecordIntent];
      StepsJoin([], prepared, consumed, [Prepare], [ConsumePermit, RecordIntent]);
      if done.Err? { return Err(ReconciliationNeeded); }
      One(store.codec, consumed, RecordIntent);
      done := store.Perform(attempt.value, RecordIntent, ios(2));
      StepsJoin(prepared, consumed, store.records, [ConsumePermit], [RecordIntent]);
      StepsJoin([], prepared, store.records, [Prepare], [ConsumePermit, RecordIntent]);
      if done.Err? { return Err(ReconciliationNeeded); }
      return Ok(attempt.value);
    }

    /** Evidence and finalization, once four results are durable. */
    method Finish(token: nat, evidenceId: Digest, ios: nat -> Io) returns (error: Option<RunnerError>)
      requires Valid() && token in store.attempts && IsHex(evidenceId)
      modifies store`journal, store`durable, store`temp, store`durabilityUnknown, store`records,
               store`evidence, store`nextToken
      ensures Valid()
      ensures error == None ==>
                && StageOf(store.records) == Closed && |store.records| == |old(store.records)| + 2
                && store.durable == store.journal
      ensures error.Some? ==> error == Some(ReconciliationNeeded)
      ensures Steps(old(store.records), store.records, EndOps(evidenceId))
      ensures StageOf(old(store.records)) == Ready(4) && old(store.temp) == None && !old(store.durabilityUnknown)
              && Room(store.codec, old(store.records), EndOps(evidenceId)) && AllSmooth(ios)
              ==> error == None
    {
      hide Store.Valid, NewRecord, StageOf, Fits, Room, Grow, Steps, Refusal;
      ghost var before := store.records;
      Both(store.codec, before, [CommitEvidence(evidenceId)], [FinalizeAttempt]);
      One(store.codec, before, CommitEvidence(evidenceId));
      var sealed := store.IssueEvidence(evidenceId);
      var done := store.Perform(token, CommitEvidence(store.evidence[sealed.value]), ios(15));
      ghost var committed := store.records;
      StepsShorter(old(store.records), committed, [CommitEvidence(evidenceId)], [FinalizeAttempt]);
      assert [CommitEvidence(evidenceId)] + [FinalizeAttempt] == EndOps(evidenceId);
      if done.Err? { return Some(ReconciliationNeeded); }
      One(store.codec, committed, FinalizeAttempt);
      done := store.Perform(token, FinalizeAttempt, ios(16));
      StepsJoin(old(store.records), committed, store.records, [CommitEvidence(evidenceId)], [FinalizeAttempt]);
      return if done.Err? then Some(ReconciliationNeeded) else None;
    }

    /**
      Runs the whole attempt. Whatever the observer and the system do, the calls made are a prefix of the fixed
      source order, and an existing journal or a spent permit blocks everything.
     */
    method Execute(permit: nat, observations: nat -> Observation, evidenceId: Digest, ios: nat -> Io)
      returns (r: Result<Execution, RunnerError>)
      requires Valid() && IsHex(evidenceId)
      requires forall k :: observations(k).Observed? ==> IsHex(observations(k).id)
      modifies this`permits, this`calls, store
      ensures Valid()
      ensures exists n: nat | n <= 4 :: calls == old(calls) + FirstSources(n)
      ensures old(store.records) != [] ==> r.Err? && calls == old(calls) && store.records == old(store.records)
      ensures permit !in old(permits) || old(permits)[permit] ==>
                r.Err? && calls == old(calls) && store.records == old(store.records)
      ensures r.Ok? ==>
                && calls == old(calls) + FirstSources(4)
                && StageOf(store.records) == Closed && |store.records| == 17 && store.durable == store.journal
                && permit in permits && permits[permit]
                && r.value == Execution(evidenceId, 4)
                && forall k | 0 <= k < 4 :: Complete(observations(k))
      ensures permits == old(permits) || permits == old(permits)[permit := true]
      ensures calls != old(calls) ==> permit in permits && permits[permit]
      ensures old(store.records) == [] ==> Steps([], store.records, Script(observations, evidenceId))
      ensures AllInRange(Script(observations, evidenceId))
      ensures old(Fresh(permit)) && AllSmooth(ios) && Room(store.codec, [], Script(observations, evidenceId)) ==>
                && (r.Ok? <==> forall k | 0 <= k < 4 :: Complete(observations(k)))
                && (r.Err? ==> exists k | 0 <= k < 4 ::
                      && (forall j | 0 <= j < k :: Complete(observations(j))) && Explains(observations(k), r.error)
                      && calls == old(calls) + FirstSources(k + 1))
    {
      hide Store.Valid, StageOf, Steps, Room, Grow, Script, AllSmooth, HasBoundary, OpsBefore, SourceOps, EndOps,
        OpsFrom, AllInRange;
      RoomInParts(store.codec, 0, observations, evidenceId);
      assert calls == old(calls) + FirstSources(0);
      var begun := Begin(permit, ios);
      if begun.Err? {
        OpsStart(observations);
        if old(store.records) == [] { StartOfScript(store.records, 0, observations, evidenceId); }
        return Err(begun.error);
      }
      OpsStart(observations);
      for k := 0 to 4
        invariant Valid() && begun.value in store.attempts
        invariant permits == old(permits)[permit := true]
        invariant StageOf(store.records) == Ready(k) && |store.records| == 3 + 3 * k
        invariant store.temp == None && !store.durabilityUnknown
        invariant calls == old(calls) + FirstSources(k)
        invariant forall j | 0 <= j < k :: Complete(observations(j))
        invariant Steps([], store.records, OpsBefore(k, observations))
        invariant AllInRange(OpsBefore(k, observations)) && store.records == Grow([], OpsBefore(k, observations))
      {
        RoomInParts(store.codec, k, observations, evidenceId);
        ghost var before := store.records;
        var error := RunSource(begun.value, k, observations(k), ios);
        assert calls == old(calls) + FirstSources(k) || calls == old(calls) + FirstSources(k + 1);
        OpsNext(k, observations);
        StepsJoin([], before, store.records, OpsBefore(k, observations), SourceOps(k, observations(k)));
        if error.Some? {
          StartOfScript(store.records, k + 1, observations, evidenceId);
          return Err(error.value);
        }
      }
      RoomInParts(store.codec, 4, observations, evidenceId);
      ghost var before := store.records;
      var error := Finish(begun.value, evidenceId, ios);
      StepsJoin([], before, store.records, OpsBefore(4, observations), EndOps(evidenceId));
      WholeScript(observations, evidenceId);
      return if error.Some? then Err(error.value) else Ok(Execution(evidenceId, 4));
    }

    /** One turn of the loop over the sources: intent, boundary, call, result. */
    method RunSource(token: nat, k: nat, observation: Observation, ios: nat -> Io) returns (error: Option<RunnerError>)
      requires Valid() && token in store.attempts && k < 4
      requires StageOf(store.records) == Ready(k)
      requires observation.Observed? ==> IsHex(observation.id)
      modifies this`calls, store`journal, store`durable, store`temp, store`durabilityUnknown, store`records,
               store`results, store`nextToken
      ensures Valid()
      ensures calls == old(calls) || calls == old(calls) + [k]
      ensures calls != old(calls) ==> HasBoundary(store.records, k)
      ensures error == None ==>
                && calls == old(calls) + [k]
                && observation.Observed? && observation.complete
                && StageOf(store.records) == Ready(k + 1) && |store.records| == |old(store.records)| + 3
                && store.durable == store.journal && store.temp == None && !store.durabilityUnknown
                && store.records == Grow(old(store.records), SourceOps(k, observation))
      ensures Steps(old(store.records), store.records, SourceOps(k, observation))
      ensures error == Some(ReconciliationNeeded) <==> calls == old(calls)
      ensures calls != old(calls) && !observation.Observed? ==> error.Some? && Explains(observation, error.value)
      ensures calls != old(calls) && observation.Observed? ==>
                || error == Some(SourceOutcomeUnknown)
                || (&& |store.records| == |old(store.records)| + 3 && store.durable == store.journal
                    && (error == None <==> observation.complete)
                    && (error.Some? ==> error == Some(SemanticOrTransportGap)))
      ensures old(store.temp) == None && !old(store.durabilityUnknown)
              && Room(store.codec, old(store.records), SourceOps(k, observation)) && AllSmooth(ios)
              ==>
                && calls == old(calls) + [k]
                && (error == None <==> observation.Observed? && observation.complete)
                && (error.Some? ==> Explains(observation, error.value))
    {
      hide Store.Valid, NewRecord, StageOf, Fits, HasBoundary, Steps, Room, Grow, Refusal;
      ghost var before := store.records;
      Both(store.codec, before, [RecordSourceIntent(k), RecordBoundary(k)], [RecordResult(k, ResultId(observation))]);
      assert [RecordSourceIntent(k), RecordBoundary(k)] + [RecordResult(k, ResultId(observation))] ==
             SourceOps(k, observation);
      var announced := Announce(token, k, ios);
      AnnouncedIsStart(before, store.records, k, observation);
      if !announced { return Some(ReconciliationNeeded); }
      BoundaryJustWritten(store.records, k);
      ghost var requested := store.records;
      calls := calls + [k];
      match observation
      case Raised => return Some(SourceOutcomeUnknown);
      case Unsealed => return Some(SealedObserverResultRequired);
      case Malformed => return Some(ObserverResultInvalid);
      case Observed(id, complete) =>
        var sealed := SealResult(token, k, id, ios(3 * k + 5));
        BoundaryStays(requested, store.records, k);
        ResultIsEnd(before, requested, store.records, k, observation);
        if !sealed { return Some(SourceOutcomeUnknown); }
        return if complete then None else Some(SemanticOrTransportGap);
    }

    /** The result of a source, sealed and recorded. */
    method SealResult(token: nat, k: nat, id: Digest, io: Io) returns (recorded: bool)
      requires Valid() && token in store.attempts && k < 4 && IsHex(id)
      requires StageOf(store.records) == Requested(k)
      modifies store`journal, store`durable, store`temp, store`durabilityUnknown, store`records,
               store`results, store`nextToken
      ensures Valid()
      ensures Steps(old(store.records), store.records, [RecordResult(k, id)])
      ensures old(store.records) <= store.records
      ensures recorded ==>
                && StageOf(store.records) == Ready(k + 1) && |store.records| == |old(store.records)| + 1
                && store.durable == store.journal && store.temp == None && !store.durabilityUnknown
                && store.records == Grow(old(store.records), [RecordResult(k, id)])
      ensures old(store.temp) == None && !old(store.durabilityUnknown)
              && Room(store.codec, old(store.records), [RecordResult(k, id)]) && Smooth(io)
              ==> recorded
    {
      hide Store.Valid, NewRecord, StageOf, Fits, Room, Grow, Refusal, Says;
      One(store.codec, store.records, RecordResult(k, id));
      var sealed := store.IssueResult(id);
      var done := store.Perform(token, RecordResult(k, store.results[sealed.value]), io);
      return done.Ok?;
    }

    /** Intent and boundary of a source, both durable before anything is requested. */
    method Announce(token: nat, k: nat, ios: nat -> Io) returns (announced: bool)
      requires Valid() && token in store.attempts && k < 4
      requires StageOf(store.records) == Ready(k)
      modifies store`journal, store`durable, store`temp, store`durabilityUnknown, store`records
      ensures Valid()
      ensures Steps(old(store.records), store.records, [RecordSourceIntent(k), RecordBoundary(k)])
      ensures announced ==>
                && StageOf(store.records) == Requested(k) && |store.records| == |old(store.records)| + 2
                && store.durable == store.journal && store.temp == None && !store.durabilityUnknown
                && store.records == Grow(old(store.records), [RecordSourceIntent(k), RecordBoundary(k)])
      ensures old(store.temp) == None && !old(store.durabilityUnknown)
              && Room(store.codec, old(store.records), [RecordSourceIntent(k), RecordBoundary(k)]) && AllSmooth(ios)
              ==> announced
    {
      hide Store.Valid, NewRecord, StageOf, Fits, Steps, Room, Grow, Refusal;
      ghost var before := store.records;
      Both(store.codec, before, [RecordSourceIntent(k)], [RecordBoundary(k)]);
      One(store.codec, before, RecordSourceIntent(k));
      var done := store.Perform(token, RecordSourceIntent(k), ios(3 * k + 3));
      ghost var intended := store.records;
      StepsShorter(before, intended, [RecordSourceIntent(k)], [RecordBoundary(k)]);
      assert [RecordSourceIntent(k)] + [RecordBoundary(k)] == [RecordSourceIntent(k), RecordBoundary(k)];
      if done.Err? { return false; }
      One(store.codec, intended, RecordBoundary(k));
      done := store.Perform(token, RecordBoundary(k), ios(3 * k + 4));
      StepsJoin(before, intended, store.records, [RecordSourceIntent(k)], [RecordBoundary(k)]);
      return done.Ok?;
    }
  }

  /** The error that an observation deserves when the system does its part. */
  predicate Explains(observation: Observation, error: RunnerError) {
    match observation
    case Raised => error == SourceOutcomeUnknown
    case Unsealed => error == SealedObserverResultRequired
    case Malformed => error == ObserverResultInvalid
    case Observed(_, complete) => !complete && error == SemanticOrTransportGap
  }

  lemma AnnouncedIsStart(a: seq<Record>, b: seq<Record>, k: nat, observation: Observation)
    requires Steps(a, b, [RecordSourceIntent(k), RecordBoundary(k)])
    ensures Steps(a, b, SourceOps(k, observation))
  {
    hide Steps;
    var ops := SourceOps(k, observation);
    StepsShorter(a, b, [RecordSourceIntent(k), RecordBoundary(k)], ops[2..]);
    assert [RecordSourceIntent(k), RecordBoundary(k)] + ops[2..] == ops;
  }

  lemma ResultIsEnd(a: seq<Record>, b: seq<Record>, c: seq<Record>, k: nat, observation: Observation)
    requires Steps(a, b, [RecordSourceIntent(k), RecordBoundary(k)]) && |b| == |a| + 2
    requires observation.Observed? && Steps(b, c, [RecordResult(k, observation.id)])
    ensures Steps(a, c, SourceOps(k, observation))
  {
    hide Steps;
    StepsJoin(a, b, c, [RecordSourceIntent(k), RecordBoundary(k)], [RecordResult(k, observation.id)]);
    assert [RecordSourceIntent(k), RecordBoundary(k)] + [RecordResult(k, observation.id)] == SourceOps(k, observation);
  }

  lemma {:induction false} StartOfScript(rs: seq<Record>, k: nat, observations: nat -> Observation, evidenceId: Digest)
    requires k <= 4 && Steps([], rs, OpsBefore(k, observations))
    ensures Steps([], rs, Script(observations, evidenceId))
    decreases 4 - k
  {
    hide Steps;
    if k == 4 {
      StepsShorter([], rs, OpsBefore(4, observations), EndOps(evidenceId));
    } else {
      StepsShorter([], rs, OpsBefore(k, observations), SourceOps(k, observations(k)));
      StartOfScript(rs, k + 1, observations, evidenceId);
    }
  }

  lemma OpsStart(observations: nat -> Observation)
    ensures OpsBefore(0, observations) == START
  {
  }

  lemma OpsNext(k: nat, observations: nat -> Observation)
    ensures OpsBefore(k + 1, observations) == OpsBefore(k, observations) + SourceOps(k, observations(k))
  {
  }

  /**
    What a finished run leaves in the journal: for each source in the fixed order its intent, its boundary and a
    result with the identifier of what was observed, then the evidence, then the finalization.
   */
  lemma WholeRunSays(rs: seq<Record>, observations: nat -> Observation, evidenceId: Digest)
    requires Steps([], rs, Script(observations, evidenceId)) && |rs| == 17
    ensures forall k: nat | k < 4 :: SourceTold(rs, k, ResultId(observations(k)))
    ensures rs[15].body.recordType == EvidenceCommit && rs[15].body.evidenceId == Some(evidenceId)
    ensures rs[16].body.recordType == RecordType.Finalize
  {
    var ops := Script(observations, evidenceId);
    assert ops[15] == CommitEvidence(evidenceId) && ops[16] == FinalizeAttempt;
    hide Steps, Script;
    StepsAt(rs, ops, 15);
    StepsAt(rs, ops, 16);
    hide Says;
    forall k: nat | k < 4
      ensures SourceTold(rs, k, ResultId(observations(k)))
    {
      ScriptAt(k, observations, evidenceId);
      StepsAt(rs, ops, 3 + 3 * k);
      StepsAt(rs, ops, 4 + 3 * k);
      StepsAt(rs, ops, 5 + 3 * k);
      SaysSource(rs, k, ResultId(observations(k)));
    }
  }

  /** The three records of a source, in a journal that began with the permit record. */
  predicate SourceTold(rs: seq<Record>, k: nat, resultId: Digest)
    requires |rs| >= 6 + 3 * k
  {
    var intent, boundary, result := rs[3 + 3 * k].body, rs[4 + 3 * k].body, rs[5 + 3 * k].body;
    && intent.recordType == SourceIntent && intent.sourceOrdinal == Some(k)
    && boundary.recordType == RequestBoundary && boundary.sourceOrdinal == Some(k)
    && result.recordType == SourceResult && result.sourceOrdinal == Some(k) && result.resultId == Some(resultId)
  }

  lemma SaysSource(rs: seq<Record>, k: nat, id: Digest)
    requires |rs| >= 6 + 3 * k
    requires Says(rs[3 + 3 * k].body, RecordSourceIntent(k)) && Says(rs[4 + 3 * k].body, RecordBoundary(k))
    requires Says(rs[5 + 3 * k].body, RecordResult(k, id))
    ensures SourceTold(rs, k, id)
  {
  }

  lemma {:induction false} OpsGrow(k: nat, n: nat, observations: nat -> Observation)
    requires k <= n
    ensures OpsBefore(k, observations) <= OpsBefore(n, observations)
  {
    if k < n { OpsGrow(k, n - 1, observations); }
  }

  lemma ScriptAt(k: nat, observations: nat -> Observation, evidenceId: Digest)
    requires k < 4
    ensures var ops := Script(observations, evidenceId);
            && |ops| == 17 && ops[3 + 3 * k] == RecordSourceIntent(k) && ops[4 + 3 * k] == RecordBoundary(k)
            && ops[5 + 3 * k] == RecordResult(k, ResultId(observations(k)))
  {
    OpsNext(k, observations);
    OpsGrow(k + 1, 4, observations);
    var upTo := OpsBefore(k + 1, observations);
    var all := OpsBefore(4, observations);
    hide OpsBefore;
    assert upTo[3 + 3 * k] == RecordSourceIntent(k) && upTo[4 + 3 * k] == RecordBoundary(k);
    assert upTo[5 + 3 * k] == RecordResult(k, ResultId(observations(k)));
    assert all[3 + 3 * k] == upTo[3 + 3 * k] && all[4 + 3 * k] == upTo[4 + 3 * k] && all[5 + 3 * k] == upTo[5 + 3 * k];
  }

  /** The operations from source k on. */
  function OpsFrom(k: nat, observations: nat -> Observation, evidenceId: Digest): seq<Op>
    requires k <= 4
    decreases 4 - k
  {
    if k == 4 then EndOps(evidenceId) else SourceOps(k, observations(k)) + OpsFrom(k + 1, observations, evidenceId)
  }

  lemma {:induction false} ScriptCut(k: nat, observations: nat -> Observation, evidenceId: Digest)
    requires k <= 4
    ensures Script(observations, evidenceId) ==
            OpsBefore(k, observations) + OpsFrom(k, observations, evidenceId)
    decreases 4 - k
  {
    hide OpsBefore, SourceOps, EndOps;
    if k < 4 {
      hide Script;
      ScriptCut(k + 1, observations, evidenceId);
      OpsNext(k, observations);
      OpsAssociate(OpsBefore(k, observations), SourceOps(k, observations(k)), OpsFrom(k + 1, observations, evidenceId));
    }
  }

  lemma OpsAssociate(a: seq<Op>, b: seq<Op>, c: seq<Op>)
    ensures (a + b) + c == a + (b + c)
  {
  }

  lemma {:induction false} OpsBeforeInRange(k: nat, observations: nat -> Observation)
    requires k <= 4 && forall j :: observations(j).Observed? ==> IsHex(observations(j).id)
    ensures AllInRange(OpsBefore(k, observations))
  {
    if k > 0 { OpsBeforeInRange(k - 1, observations); }
  }

  lemma {:induction false} OpsFromInRange(k: nat, observations: nat -> Observation, evidenceId: Digest)
    requires k <= 4 && IsHex(evidenceId)
    requires forall j :: observations(j).Observed? ==> IsHex(observations(j).id)
    ensures AllInRange(OpsFrom(k, observations, evidenceId))
    decreases 4 - k
  {
    if k < 4 { OpsFromInRange(k + 1, observations, evidenceId); }
  }

  /** Room for the whole script is room for the operations before source k, for its own and for the rest. */
  lemma RoomInParts(c: JournalBytes.Codec, k: nat, observations: nat -> Observation, evidenceId: Digest)
    requires k <= 4 && IsHex(evidenceId)
    requires forall j :: observations(j).Observed? ==> IsHex(observations(j).id)
    ensures AllInRange(OpsBefore(k, observations)) && AllInRange(Script(observations, evidenceId))
    ensures AllInRange(EndOps(evidenceId)) && AllInRange(START)
    ensures k < 4 ==>
              && AllInRange(SourceOps(k, observations(k))) && AllInRange(OpsBefore(k + 1, observations))
              && Grow([], OpsBefore(k + 1, observations)) ==
                 Grow(Grow([], OpsBefore(k, observations)), SourceOps(k, observations(k)))
    ensures Room(c, [], Script(observations, evidenceId)) ==>
              && Room(c, [], OpsBefore(k, observations))
              && (if k < 4 then Room(c, Grow([], OpsBefore(k, observations)), SourceOps(k, observations(k)))
                  else Room(c, Grow([], OpsBefore(k, observations)), EndOps(evidenceId)))
  {
    OpsBeforeInRange(k, observations);
    OpsFromInRange(k, observations, evidenceId);
    assert AllInRange(START) && AllInRange(EndOps(evidenceId));
    ScriptCut(k, observations, evidenceId);
    hide Room, Grow, Script, OpsBefore, SourceOps, EndOps;
    Both(c, [], OpsBefore(k, observations), OpsFrom(k, observations, evidenceId));
    if k < 4 {
      OpsBeforeInRange(k + 1, observations);
      OpsFromInRange(k + 1, observations, evidenceId);
      OpsNext(k, observations);
      SourceInRange(k, observations(k));
      Both(c, [], OpsBefore(k, observations), SourceOps(k, observations(k)));
      Both(c, Grow([], OpsBefore(k, observations)), SourceOps(k, observations(k)),
           OpsFrom(k + 1, observations, evidenceId));
    }
  }

  lemma SourceInRange(k: nat, observation: Observation)
    requires k < 4 && (observation.Observed? ==> IsHex(observation.id))
    ensures AllInRange(SourceOps(k, observation))
  {
  }

  lemma WholeScript(observations: nat -> Observation, evidenceId: Digest)
    ensures Script(observations, evidenceId) == OpsBefore(4, observations) + EndOps(evidenceId)
  {
  }

  function FirstSources(n: nat): seq<nat> {
    if n == 0 then [] else FirstSources(n - 1) + [n - 1]
  }

  lemma BoundaryJustWritten(rs: seq<Record>, k: nat)
    requires StageOf(rs) == Requested(k)
    ensures HasBoundary(rs, k)
  {
    var last := rs[|rs| - 1];
    assert StageOf(rs) == NextStage(StageAt(rs, |rs| - 1), last.body);
    assert last.body.recordType == RequestBoundary && last.body.sourceOrdinal == Some(k);
  }

  lemma BoundaryStays(before: seq<Record>, after: seq<Record>, k: nat)
    requires HasBoundary(before, k) && before <= after
    ensures HasBoundary(after, k)
  {
    var i :|
      0 <= i < |before| && before[i].body.recordType == RequestBoundary && before[i].body.sourceOrdinal == Some(k);
    assert after[i] == before[i];
  }
}
