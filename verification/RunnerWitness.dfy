/** A run of the protocol that gets to the end, and a codec under which there is room for it. */
module RunnerWitness {
  import opened Prelude
  import opened Lines
  import opened JournalRecords
  import opened JournalGrammar
  import opened JournalBytes
  import opened JournalGuards
  import opened JournalAppend
  import JournalStore
  import opened RunnerProtocol
  import JournalCodec
  import Runner

  // One actor alone, between two operations

  /** The actor is at rest, holds no lock, and the journal is what its operations wrote. */
  ghost predicate Calm(c: Codec, w: World, a: nat, x: Actor, rs: seq<Record>) {
    && w.actors == map[a := x] && x.phase == AtRest && w.lock == None && w.disk.temp == None && w.unknown == {}
    && w.records == rs && Written(c, rs) && Data(w.disk.journal) == FileOf(c, rs)
  }

  const SMOOTH: Io := Proceed(MAX_BYTES)

  lemma {:induction false} RunJoin(c: Codec, w: World, x: seq<Event>, y: seq<Event>)
    ensures Run(c, w, x + y) == Run(c, Run(c, w, x), y)
    decreases |x|
  {
    hide Apply;
    if x == [] {
      assert x + y == y;
    } else {
      assert (x + y)[1..] == x[1..] + y;
      RunJoin(c, Apply(c, w, x[0]), x[1..], y);
    }
  }

  lemma RunOne(c: Codec, w: World, e: Event)
    ensures Run(c, w, [e]) == Apply(c, w, e)
  {
    hide Apply;
    assert [e][1..] == [];
  }

  /** Whether the operation's step leads from the first world to the second. */
  predicate Goes(c: Codec, w: World, a: nat, id: Digest, w2: World) {
    a in w.actors && StepActor(c, w, a, w.actors[a], SMOOTH, id) == w2
  }

  lemma GuardPasses(c: Codec, w: World, a: nat, x: Actor, rs: seq<Record>, op: Op, id: Digest)
    requires Lawful(c) && Calm(c, w, a, x, rs) && OpAt(x.pc, id) == Some(op) && OpInRange(op)
    requires StageAdmits(StageOf(rs), op)
    ensures Goes(c, w, a, id, SetActor(w, a, x.(phase := Guarded(FieldsOf(rs, op)))))
  {
    hide ReadFile, Guard, FieldsOf, StageAdmits, StageOf, Written, FileOf, Lawful, NewRecord, Refusal;
    var i := Inspection(if rs == [] then Absent else Valid, rs);
    ReadsWritten(c, rs);
    assert w.actors[a] == x && ReadFile(c, Data(w.disk.journal)) == Ok(i);
    if op == Prepare {
      EmptyForPrepare(rs, op);
      ReadyForPrepare(c, w, a, x, i, id);
    } else {
      JournalStore.PerformFacts(c, rs, op);
      FilledFor(c, rs, op);
      ReadyFor(c, w, a, x, i, op, id);
    }
  }

  lemma EmptyForPrepare(rs: seq<Record>, op: Op)
    requires op == Prepare && StageAdmits(StageOf(rs), op)
    ensures rs == []
  {
    if rs != [] { NeverEmptyAgain(rs); }
  }

  lemma FilledFor(c: Codec, rs: seq<Record>, op: Op)
    requires Written(c, rs) && op != Prepare && StageAdmits(StageOf(rs), op)
    ensures rs != [] && rs[|rs| - 1].body.attemptId == ATTEMPT_ID
  {
    NothingReadEmpty(rs);
    if rs != [] { assert ApiShaped(rs[|rs| - 1].body); }
    hide InGrammar, StageOf, Chained;
  }

  lemma ReadyForPrepare(c: Codec, w: World, a: nat, x: Actor, i: Inspection, id: Digest)
    requires a in w.actors && w.actors[a] == x && x.phase == AtRest && OpAt(x.pc, id) == Some(Prepare)
    requires ReadFile(c, Data(w.disk.journal)) == Ok(i) && i.integrity == Absent && w.unknown == {}
    ensures Goes(c, w, a, id, SetActor(w, a, x.(phase := Guarded(FieldsOf(i.records, Prepare)))))
  {
    hide ReadFile, Guard, FieldsOf;
  }

  lemma ReadyFor(c: Codec, w: World, a: nat, x: Actor, i: Inspection, op: Op, id: Digest)
    requires a in w.actors && w.actors[a] == x && x.phase == AtRest && OpAt(x.pc, id) == Some(op)
    requires op != Prepare && OpInRange(op) && ReadFile(c, Data(w.disk.journal)) == Ok(i) && i.integrity == Valid
    requires i.records != [] && i.records[|i.records| - 1].body.attemptId == ATTEMPT_ID && Guard(i.records, op) == None
    ensures Goes(c, w, a, id, SetActor(w, a, x.(phase := Guarded(FieldsOf(i.records, op)))))
  {
    hide ReadFile, Guard, FieldsOf;
  }

  lemma LockTaken(c: Codec, w: World, a: nat, x: Actor, f: Fields, id: Digest)
    requires w.actors == map[a := x] && x.phase == Guarded(f) && w.lock == None && w.unknown == {}
    ensures Goes(c, w, a, id, SetActor(w.(lock := Some(a)), a, x.(phase := Locked(f))))
  {
  }

  lemma FileOpened(c: Codec, w: World, a: nat, x: Actor, rs: seq<Record>, op: Op, id: Digest)
    requires Lawful(c) && Written(c, rs) && OpInRange(op) && StageAdmits(StageOf(rs), op)
    requires Fits(c, rs + [NewRecord(rs, op)]) && Data(w.disk.journal) == FileOf(c, rs)
    requires w.actors == map[a := x] && x.phase == Locked(FieldsOf(rs, op)) && w.disk.temp == None
    ensures var encoded := EncodeAll(c, rs + [NewRecord(rs, op)]);
            Goes(c, w, a, id,
                 SetActor(w.(disk := w.disk.(temp := Some(File([], false)))), a,
                          x.(phase := Writing(FieldsOf(rs, op), encoded))))
  {
    hide Candidate, Lawful, Written, StageAdmits, StageOf, FieldsOf, NewRecord, FileOf, Fits, EncodeAll, MakeRecord;
    CandidateOutcome(c, rs, rs, op);
    JournalStore.ClosedAdmitsNothing(op);
    FieldsInRange(rs, op);
  }

  lemma FieldsInRange(rs: seq<Record>, op: Op)
    requires OpInRange(op)
    ensures FieldsOf(rs, op).source.Some? ==> FieldsOf(rs, op).source.value < |SOURCES|
    ensures MakeRecord(rs, FieldsOf(rs, op)) == NewRecord(rs, op)
  {
  }

  lemma BytesWritten(c: Codec, w: World, a: nat, x: Actor, f: Fields, encoded: Bytes, id: Digest)
    requires w.actors == map[a := x] && x.phase == Writing(f, encoded) && 0 < |encoded| <= MAX_BYTES
    requires w.disk.temp == Some(File([], false))
    ensures Goes(c, w, a, id, w.(disk := w.disk.(temp := Some(File(encoded, false)))))
  {
    assert encoded[..|encoded|] == encoded;
  }

  lemma FileSynced(c: Codec, w: World, a: nat, x: Actor, f: Fields, encoded: Bytes, id: Digest)
    requires w.actors == map[a := x] && x.phase == Writing(f, encoded)
    requires w.disk.temp == Some(File(encoded, false))
    ensures Goes(c, w, a, id,
                 SetActor(w.(disk := w.disk.(temp := Some(File(encoded, true)))), a, x.(phase := Synced(f, encoded))))
  {
  }

  lemma FileRenamed(c: Codec, w: World, a: nat, x: Actor, f: Fields, encoded: Bytes, id: Digest)
    requires w.actors == map[a := x] && x.phase == Synced(f, encoded) && w.disk.temp == Some(File(encoded, true))
    requires f.source.Some? ==> f.source.value < |SOURCES|
    ensures Goes(c, w, a, id,
                 SetActor(w.(disk := w.disk.(journal := w.disk.temp, temp := None),
                             records := w.records + [MakeRecord(w.records, f)]), a, x.(phase := Renamed)))
  {
    hide MakeRecord;
  }

  lemma DirectorySynced(c: Codec, w: World, a: nat, x: Actor, id: Digest)
    requires w.actors == map[a := x] && x.phase == Renamed
    ensures Goes(c, w, a, id,
                 SetActor(w.(disk := w.disk.(durable := w.disk.journal), durableRecords := w.records), a,
                          x.(phase := Confirmed)))
  {
  }

  lemma Returned(c: Codec, w: World, a: nat, x: Actor, id: Digest)
    requires w.actors == map[a := x] && x.phase == Confirmed
    ensures exists w2 :: && Goes(c, w, a, id, w2)
              && w2.actors == map[a := x.(pc := NextPc(x.pc), phase := AtRest)] && w2.lock == None
              && w2.disk == w.disk.(temp := None) && w2.unknown == w.unknown && w2.requests == w.requests
              && w2.records == w.records && w2.durableRecords == w.durableRecords
  {
    var w2 := StepReturn(w, a, x, SMOOTH);
    assert Goes(c, w, a, id, w2);
    assert w2.actors == map[a := x.(pc := NextPc(x.pc), phase := AtRest)];
    hide NextPc;
  }

  lemma GoesRuns(c: Codec, w: World, a: nat, id: Digest, w2: World)
    requires Goes(c, w, a, id, w2)
    ensures Run(c, w, [Step(a, SMOOTH, id)]) == w2
  {
    RunOne(c, w, Step(a, SMOOTH, id));
    hide StepActor;
  }

  /** One more step after those taken. */
  lemma Then(c: Codec, w: World, events: seq<Event>, w1: World, a: nat, id: Digest, w2: World)
    requires Run(c, w, events) == w1 && Goes(c, w1, a, id, w2)
    ensures Run(c, w, events + [Step(a, SMOOTH, id)]) == w2
  {
    GoesRuns(c, w1, a, id, w2);
    RunJoin(c, w, events, [Step(a, SMOOTH, id)]);
    hide Run, Goes;
  }

  /** An admitted operation with room for its record is performed. */
  lemma Performs(c: Codec, w: World, a: nat, x: Actor, rs: seq<Record>, op: Op, id: Digest)
    returns (events: seq<Event>, w2: World)
    requires Lawful(c) && Calm(c, w, a, x, rs) && OpAt(x.pc, id) == Some(op) && OpInRange(op)
    requires StageAdmits(StageOf(rs), op) && Fits(c, rs + [NewRecord(rs, op)])
    ensures Run(c, w, events) == w2
    ensures Calm(c, w2, a, x.(pc := NextPc(x.pc)), rs + [NewRecord(rs, op)]) && w2.requests == w.requests
    ensures w2.durableRecords == w2.records && StageOf(w2.records) == StageAfter(StageOf(rs), op)
  {
    hide Run, Goes, StageAdmits, StageOf, StageAfter, FieldsOf, NewRecord, MakeRecord, EncodeAll, Fits, Lawful, Written,
      OpAt, NextPc, OpInRange, FileOf;
    var f, next := FieldsOf(rs, op), rs + [NewRecord(rs, op)];
    var encoded := EncodeAll(c, next);
    NextWritten(c, rs, op);
    EncodeNonEmpty(c, next);
    FieldsInRange(rs, op);
    var open;
    events, open := Opens(c, w, a, x, rs, op, id);
    var more: seq<Event>;
    more, w2 := Publishes(c, open, a, x, f, encoded, id);
    RunJoin(c, w, events, more);
    events := events + more;
    ReadBackWritten(c, next);
  }

  /** From the guard to the open temporary file. */
  lemma Opens(c: Codec, w: World, a: nat, x: Actor, rs: seq<Record>, op: Op, id: Digest)
    returns (events: seq<Event>, open: World)
    requires Lawful(c) && Calm(c, w, a, x, rs) && OpAt(x.pc, id) == Some(op) && OpInRange(op)
    requires StageAdmits(StageOf(rs), op) && Fits(c, rs + [NewRecord(rs, op)])
    ensures Run(c, w, events) == open
    ensures var encoded := EncodeAll(c, rs + [NewRecord(rs, op)]);
            && open.actors == map[a := x.(phase := Writing(FieldsOf(rs, op), encoded))]
            && open.disk == w.disk.(temp := Some(File([], false))) && open.unknown == {} && open.requests == w.requests
            && open.records == rs
  {
    hide Run, Goes, StageAdmits, StageOf, StageAfter, FieldsOf, NewRecord, MakeRecord, EncodeAll, Fits, Lawful, Written,
      OpAt, NextPc, OpInRange, FileOf;
    var f, encoded := FieldsOf(rs, op), EncodeAll(c, rs + [NewRecord(rs, op)]);
    var guarded := SetActor(w, a, x.(phase := Guarded(f)));
    GuardPasses(c, w, a, x, rs, op, id);
    GoesRuns(c, w, a, id, guarded);
    events := [Step(a, SMOOTH, id)];
    var locked := SetActor(guarded.(lock := Some(a)), a, x.(phase := Locked(f)));
    LockTaken(c, guarded, a, x.(phase := Guarded(f)), f, id);
    Then(c, w, events, guarded, a, id, locked);
    events := events + [Step(a, SMOOTH, id)];
    open := SetActor(
      locked.(disk := locked.disk.(temp := Some(File([], false)))), a, x.(phase := Writing(f, encoded)));
    FileOpened(c, locked, a, x.(phase := Locked(f)), rs, op, id);
    Then(c, w, events, locked, a, id, open);
    events := events + [Step(a, SMOOTH, id)];
  }

  lemma ReadBackWritten(c: Codec, rs: seq<Record>)
    ensures rs != [] ==> FileOf(c, rs) == Some(EncodeAll(c, rs))
  {
  }

  lemma NextWritten(c: Codec, rs: seq<Record>, op: Op)
    requires Lawful(c) && Written(c, rs) && OpInRange(op) && StageAdmits(StageOf(rs), op)
    requires Fits(c, rs + [NewRecord(rs, op)])
    ensures Written(c, rs + [NewRecord(rs, op)]) && |EncodeAll(c, rs + [NewRecord(rs, op)])| <= MAX_BYTES
    ensures StageOf(rs + [NewRecord(rs, op)]) == StageAfter(StageOf(rs), op)
  {
    ExtensionReads(c, rs, op);
    StageWithNewRecord(rs, op);
    hide NewRecord, StageOf, ApiJournal, StageAdmits, StageAfter;
  }

  /** From the open temporary file to the return of the operation. */
  lemma Publishes(c: Codec, w: World, a: nat, x: Actor, f: Fields, encoded: Bytes, id: Digest)
    returns (events: seq<Event>, w2: World)
    requires w.actors == map[a := x.(phase := Writing(f, encoded))] && 0 < |encoded| <= MAX_BYTES
    requires w.disk.temp == Some(File([], false)) && w.unknown == {}
    requires f.source.Some? ==> f.source.value < |SOURCES|
    ensures Run(c, w, events) == w2
    ensures w2.actors == map[a := x.(pc := NextPc(x.pc), phase := AtRest)] && w2.lock == None && w2.disk.temp == None
    ensures w2.unknown == {} && w2.requests == w.requests
    ensures w2.records == w.records + [MakeRecord(w.records, f)] && w2.durableRecords == w2.records
    ensures Data(w2.disk.journal) == Some(encoded)
  {
    hide Run, Goes, MakeRecord, NextPc;
    var written := w.(disk := w.disk.(temp := Some(File(encoded, false))));
    BytesWritten(c, w, a, x.(phase := Writing(f, encoded)), f, encoded, id);
    GoesRuns(c, w, a, id, written);
    events := [Step(a, SMOOTH, id)];
    var synced := SetActor(written.(disk := written.disk.(temp := Some(File(encoded, true)))), a,
                           x.(phase := Synced(f, encoded)));
    FileSynced(c, written, a, x.(phase := Writing(f, encoded)), f, encoded, id);
    Then(c, w, events, written, a, id, synced);
    events := events + [Step(a, SMOOTH, id)];
    var renamed := SetActor(
      synced.(disk := synced.disk.(journal := synced.disk.temp, temp := None),
              records := synced.records + [MakeRecord(synced.records, f)]), a, x.(phase := Renamed));
    FileRenamed(c, synced, a, x.(phase := Synced(f, encoded)), f, encoded, id);
    Then(c, w, events, synced, a, id, renamed);
    events := events + [Step(a, SMOOTH, id)];
    var confirmed := SetActor(
      renamed.(disk := renamed.disk.(durable := renamed.disk.journal), durableRecords := renamed.records), a,
      x.(phase := Confirmed));
    DirectorySynced(c, renamed, a, x.(phase := Renamed), id);
    Then(c, w, events, renamed, a, id, confirmed);
    events := events + [Step(a, SMOOTH, id)];
    Returned(c, confirmed, a, x.(phase := Confirmed), id);
    w2 :| Goes(c, confirmed, a, id, w2)
          && w2.actors == map[a := x.(pc := NextPc(x.pc), phase := AtRest)] && w2.lock == None
          && w2.disk == confirmed.disk.(temp := None) && w2.unknown == confirmed.unknown
          && w2.requests == confirmed.requests && w2.records == confirmed.records
          && w2.durableRecords == confirmed.durableRecords;
    Then(c, w, events, confirmed, a, id, w2);
    events := events + [Step(a, SMOOTH, id)];
  }

  /** The calm world a run has led to. */
  ghost predicate Led(c: Codec, events: seq<Event>, w: World, pc: Pc, rs: seq<Record>, s: Stage, requests: seq<nat>) {
    && Run(c, INITIAL, events) == w && Calm(c, w, 0, Actor(0, 0, pc, AtRest), rs)
    && StageOf(rs) == s && w.requests == requests && w.durableRecords == w.records
  }

  lemma OneMore(c: Codec, events: seq<Event>, w: World, pc: Pc, rs: seq<Record>, s: Stage, requests: seq<nat>, op: Op,
                id: Digest)
    returns (longer: seq<Event>, w2: World)
    requires Lawful(c) && Led(c, events, w, pc, rs, s, requests) && OpAt(pc, id) == Some(op) && OpInRange(op)
    requires StageAdmits(s, op) && Fits(c, rs + [NewRecord(rs, op)])
    ensures Led(c, longer, w2, NextPc(pc), rs + [NewRecord(rs, op)], StageAfter(s, op), requests)
  {
    hide Run, Calm, OpAt, NextPc, StageAdmits, StageAfter, StageOf, NewRecord, Fits, Lawful;
    var more;
    more, w2 := Performs(c, w, 0, Actor(0, 0, pc, AtRest), rs, op, id);
    longer := events + more;
    RunJoin(c, INITIAL, events, more);
    RecordsAre(c, w2, Actor(0, 0, NextPc(pc), AtRest), rs + [NewRecord(rs, op)]);
  }

  lemma RecordsAre(c: Codec, w: World, x: Actor, rs: seq<Record>)
    requires Calm(c, w, 0, x, rs)
    ensures w.records == rs
  {
  }

  /** The call of the observer. */
  lemma Observes(c: Codec, events: seq<Event>, w: World, k: nat, rs: seq<Record>, s: Stage, requests: seq<nat>)
    returns (longer: seq<Event>, w2: World)
    requires Led(c, events, w, Observing(k), rs, s, requests)
    ensures Led(c, longer, w2, Recording(k), rs, s, requests + [k])
  {
    w2 := StepObserve(w, 0, Actor(0, 0, Observing(k), AtRest), SMOOTH);
    longer := events + [Step(0, SMOOTH, Zero)];
    assert Goes(c, w, 0, Zero, w2);
    assert w2.actors == map[0 := Actor(0, 0, Recording(k), AtRest)];
    hide Run, Goes, StageOf, Written, FileOf, StepObserve;
    Then(c, INITIAL, events, w, 0, Zero, w2);
  }

  lemma Starts(c: Codec) returns (events: seq<Event>, w: World)
    ensures Led(c, events, w, Preparing, [], Empty, [])
  {
    var w1 := Apply(c, INITIAL, IssuePermit(0, 0));
    var w2 := Apply(c, w1, Call(0, 0, 0));
    w := Apply(c, w2, Step(0, SMOOTH, Zero));
    events := [IssuePermit(0, 0)] + ([Call(0, 0, 0)] + [Step(0, SMOOTH, Zero)]);
    assert w.actors == map[0 := Actor(0, 0, Preparing, AtRest)];
    NothingReadEmpty([]);
    RunOne(c, INITIAL, IssuePermit(0, 0));
    RunOne(c, w1, Call(0, 0, 0));
    RunOne(c, w2, Step(0, SMOOTH, Zero));
    hide Run, Apply, StageOf;
    RunJoin(c, w1, [Call(0, 0, 0)], [Step(0, SMOOTH, Zero)]);
    RunJoin(c, INITIAL, [IssuePermit(0, 0)], [Call(0, 0, 0)] + [Step(0, SMOOTH, Zero)]);
  }

  /** The first three operations. */
  lemma Begins(c: Codec) returns (events: seq<Event>, w: World)
    requires Lawful(c) && JournalStore.AllInRange(Runner.START) && JournalStore.Room(c, [], Runner.START)
    ensures Led(c, events, w, SourceIntending(0), JournalStore.Grow([], Runner.START), Ready(0), [])
  {
    hide Led, NewRecord, Fits, Lawful;
    events, w := Starts(c);
    var r1 := [] + [NewRecord([], Prepare)];
    var r2 := r1 + [NewRecord(r1, ConsumePermit)];
    var r3 := r2 + [NewRecord(r2, RecordIntent)];
    assert Runner.START[1..] == [ConsumePermit, RecordIntent] && Runner.START[1..][1..] == [RecordIntent];
    JournalStore.One(c, r2, RecordIntent);
    events, w := OneMore(c, events, w, Preparing, [], Empty, [], Prepare, Zero);
    events, w := OneMore(c, events, w, ConsumingPermit, r1, Planned, [], ConsumePermit, Zero);
    events, w := OneMore(c, events, w, Intending, r2, Permitted, [], RecordIntent, Zero);
  }

  /** One source: intent, boundary, the call, result. */
  lemma Takes(c: Codec, events: seq<Event>, w: World, k: nat, rs: seq<Record>, requests: seq<nat>,
              observation: Runner.Observation)
    returns (longer: seq<Event>, w2: World)
    requires Lawful(c) && k < 4 && JournalStore.AllInRange(Runner.SourceOps(k, observation))
    requires JournalStore.Room(c, rs, Runner.SourceOps(k, observation))
    requires Led(c, events, w, SourceIntending(k), rs, Ready(k), requests)
    ensures Led(c, longer, w2, if k < 3 then SourceIntending(k + 1) else Committing,
                JournalStore.Grow(rs, Runner.SourceOps(k, observation)), Ready(k + 1), requests + [k])
  {
    hide Led, NewRecord, Fits, Lawful;
    var ops, id := Runner.SourceOps(k, observation), Runner.ResultId(observation);
    assert OpInRange(ops[2]);
    var r1 := rs + [NewRecord(rs, RecordSourceIntent(k))];
    var r2 := r1 + [NewRecord(r1, RecordBoundary(k))];
    assert ops[1..] == [RecordBoundary(k), RecordResult(k, id)] && ops[1..][1..] == [RecordResult(k, id)];
    JournalStore.One(c, r2, RecordResult(k, id));
    longer, w2 := OneMore(c, events, w, SourceIntending(k), rs, Ready(k), requests, RecordSourceIntent(k), Zero);
    longer, w2 := OneMore(c, longer, w2, Bounding(k), r1, Intended(k), requests, RecordBoundary(k), Zero);
    longer, w2 := Observes(c, longer, w2, k, r2, Requested(k), requests);
    longer, w2 := OneMore(c, longer, w2, Recording(k), r2, Requested(k), requests + [k], RecordResult(k, id), id);
  }

  lemma Ends(c: Codec, events: seq<Event>, w: World, rs: seq<Record>, requests: seq<nat>, evidenceId: Digest)
    returns (longer: seq<Event>, w2: World)
    requires Lawful(c) && JournalStore.AllInRange(Runner.EndOps(evidenceId))
    requires JournalStore.Room(c, rs, Runner.EndOps(evidenceId))
    requires Led(c, events, w, Committing, rs, Ready(4), requests)
    ensures Led(c, longer, w2, Finished, JournalStore.Grow(rs, Runner.EndOps(evidenceId)), Closed, requests)
  {
    hide Led, NewRecord, Fits, Lawful;
    var ops := Runner.EndOps(evidenceId);
    assert OpInRange(ops[0]) && ops[1..] == [FinalizeAttempt];
    var r1 := rs + [NewRecord(rs, CommitEvidence(evidenceId))];
    JournalStore.One(c, r1, FinalizeAttempt);
    longer, w2 := OneMore(c, events, w, Committing, rs, Ready(4), requests, CommitEvidence(evidenceId), evidenceId);
    longer, w2 := OneMore(c, longer, w2, Finalizing, r1, Committed, requests, FinalizeAttempt, Zero);
  }

  /**
    The protocol can do its work: whatever is observed, with room for the journal some run calls the four sources
    and ends with the whole script durable.
   */
  lemma SomeRunSucceeds(c: Codec, observations: nat -> Runner.Observation, evidenceId: Digest)
    returns (events: seq<Event>)
    requires Lawful(c) && IsHex(evidenceId)
    requires forall k :: observations(k).Observed? ==> IsHex(observations(k).id)
    requires JournalStore.AllInRange(Runner.Script(observations, evidenceId))
    requires JournalStore.Room(c, [], Runner.Script(observations, evidenceId))
    ensures var w := Run(c, INITIAL, events);
            && w.requests == [0, 1, 2, 3] && StageOf(w.records) == Closed && w.durableRecords == w.records
            && w.records == JournalStore.Grow([], Runner.Script(observations, evidenceId))
  {
    hide Lawful, Led, JournalStore.Room, JournalStore.Grow, JournalStore.AllInRange, Runner.Script, Runner.OpsBefore,
      Runner.SourceOps, Runner.EndOps;
    Runner.RoomInParts(c, 0, observations, evidenceId);
    Runner.OpsStart(observations);
    var rs, w, requests := JournalStore.Grow([], Runner.START), INITIAL, [];
    events, w := Begins(c);
    for k := 0 to 4
      invariant JournalStore.AllInRange(Runner.OpsBefore(k, observations))
      invariant rs == JournalStore.Grow([], Runner.OpsBefore(k, observations))
      invariant requests == Runner.FirstSources(k)
      invariant Led(c, events, w, if k < 4 then SourceIntending(k) else Committing, rs, Ready(k), requests)
    {
      Runner.RoomInParts(c, k, observations, evidenceId);
      events, w := Takes(c, events, w, k, rs, requests, observations(k));
      rs, requests := JournalStore.Grow(rs, Runner.SourceOps(k, observations(k))), requests + [k];
    }
    Runner.RoomInParts(c, 4, observations, evidenceId);
    events, w := Ends(c, events, w, rs, requests, evidenceId);
    ScriptGrown(c, observations, evidenceId);
    AtTheEnd(c, events, w, JournalStore.Grow(rs, Runner.EndOps(evidenceId)), requests);
  }

  lemma ScriptGrown(c: Codec, observations: nat -> Runner.Observation, evidenceId: Digest)
    requires IsHex(evidenceId) && forall k :: observations(k).Observed? ==> IsHex(observations(k).id)
    ensures JournalStore.AllInRange(Runner.Script(observations, evidenceId))
    ensures JournalStore.AllInRange(Runner.OpsBefore(4, observations))
    ensures JournalStore.AllInRange(Runner.EndOps(evidenceId))
    ensures JournalStore.Grow([], Runner.Script(observations, evidenceId)) ==
            JournalStore.Grow(JournalStore.Grow([], Runner.OpsBefore(4, observations)), Runner.EndOps(evidenceId))
    ensures Runner.FirstSources(4) == [0, 1, 2, 3]
  {
    assert Runner.FirstSources(1) == [0] && Runner.FirstSources(2) == [0, 1] && Runner.FirstSources(3) == [0, 1, 2];
    Runner.RoomInParts(c, 4, observations, evidenceId);
    Runner.WholeScript(observations, evidenceId);
    hide Runner.Script, Runner.OpsBefore, Runner.EndOps, JournalStore.Grow;
    JournalStore.Both(c, [], Runner.OpsBefore(4, observations), Runner.EndOps(evidenceId));
  }

  lemma AtTheEnd(c: Codec, events: seq<Event>, w: World, rs: seq<Record>, requests: seq<nat>)
    requires Led(c, events, w, Finished, rs, Closed, requests)
    ensures var w2 := Run(c, INITIAL, events);
            w2.requests == requests && w2.records == rs && StageOf(rs) == Closed && w2.durableRecords == w2.records
  {
    hide Run;
  }

  // Room can be found

  function IndexIn(journal: seq<Record>, r: Record): (i: nat)
    ensures i <= |journal|
    ensures i < |journal| <==> r in journal
    ensures i < |journal| ==> journal[i] == r
  {
    if journal == [] then 0 else if journal[0] == r then 0 else 1 + IndexIn(journal[1..], r)
  }

  /** The records of one journal are written as their place in it, any other record as the plain codec does. */
  function ShortEncode(journal: seq<Record>, r: Record): Bytes {
    if r in journal then seq(IndexIn(journal, r) + 1, _ => 0x63) else [0x64] + JournalCodec.Encode(r)
  }

  ghost function ShortDecode(journal: seq<Record>, bytes: Bytes): Option<Record> {
    if bytes == [] then None
    else if bytes[0] == 0x64 then JournalCodec.Decode(bytes[1..])
    else if |bytes| <= |journal| then Some(journal[|bytes| - 1])
    else None
  }

  ghost function ShortCodec(journal: seq<Record>): Codec {
    Codec(r => ShortEncode(journal, r), bytes => ShortDecode(journal, bytes))
  }

  lemma ShortIsLawful(journal: seq<Record>)
    ensures Lawful(ShortCodec(journal))
  {
    var base := JournalCodec.TheCodec();
    JournalCodec.CodecIsLawful();
    forall r: Record
      ensures Plain(ShortEncode(journal, r)) && ShortDecode(journal, ShortEncode(journal, r)) == Some(r)
    {
      assert Plain(base.encode(r)) && base.decode(base.encode(r)) == Some(r);
      assert base.encode(r) == JournalCodec.Encode(r);
      assert ([0x64] + JournalCodec.Encode(r))[1..] == JournalCodec.Encode(r);
      hide JournalCodec.Encode, JournalCodec.Decode;
    }
  }

  lemma ShortOne(journal: seq<Record>, r: Record)
    requires r in journal
    ensures |ShortCodec(journal).encode(r)| <= |journal|
  {
    assert ShortCodec(journal).encode(r) == ShortEncode(journal, r);
    hide ShortCodec;
  }

  lemma EncodeFirst(c: Codec, rs: seq<Record>)
    requires rs != []
    ensures |EncodeAll(c, rs)| == |c.encode(rs[0])| + 1 + |EncodeAll(c, rs[1..])|
  {
  }

  lemma OneMoreTimes(n: nat, m: nat)
    ensures (n + 1) * m == n * m + m
  {
  }

  lemma {:induction false} ShortEnough(journal: seq<Record>, rs: seq<Record>)
    requires forall r | r in rs :: r in journal
    ensures |EncodeAll(ShortCodec(journal), rs)| <= |rs| * (|journal| + 1)
  {
    hide ShortCodec;
    if rs != [] {
      hide EncodeAll;
      assert forall r | r in rs[1..] :: r in rs;
      ShortEnough(journal, rs[1..]);
      assert rs[0] in rs;
      ShortOne(journal, rs[0]);
      EncodeFirst(ShortCodec(journal), rs);
      OneMoreTimes(|rs| - 1, |journal| + 1);
    }
  }

  lemma {:induction false} RoomWithin(journal: seq<Record>, rs: seq<Record>, ops: seq<Op>)
    requires JournalStore.AllInRange(ops) && JournalStore.Grow(rs, ops) == journal && |journal| <= 17
    ensures rs <= journal && |rs| + |ops| == |journal|
    ensures JournalStore.Room(ShortCodec(journal), rs, ops)
    decreases |ops|
  {
    hide NewRecord, ShortCodec;
    if ops != [] {
      var next := rs + [NewRecord(rs, ops[0])];
      RoomWithin(journal, next, ops[1..]);
      assert forall r | r in next :: r in journal;
      ShortEnough(journal, next);
      assert |next| * (|journal| + 1) <= 17 * 18;
    }
  }

  /** For any observations there is a codec that leaves room for their run. */
  lemma RoomCanBeFound(observations: nat -> Runner.Observation, evidenceId: Digest) returns (c: Codec)
    requires IsHex(evidenceId) && forall k :: observations(k).Observed? ==> IsHex(observations(k).id)
    ensures JournalStore.AllInRange(Runner.Script(observations, evidenceId))
    ensures Lawful(c) && JournalStore.Room(c, [], Runner.Script(observations, evidenceId))
  {
    var script := Runner.Script(observations, evidenceId);
    Runner.RoomInParts(JournalCodec.TheCodec(), 0, observations, evidenceId);
    assert |script| == 17;
    hide Runner.Script, JournalStore.Room, JournalStore.AllInRange;
    var journal := JournalStore.Grow([], script);
    GrowLength([], script);
    c := ShortCodec(journal);
    ShortIsLawful(journal);
    RoomWithin(journal, [], script);
  }

  lemma {:induction false} GrowLength(rs: seq<Record>, ops: seq<Op>)
    requires JournalStore.AllInRange(ops)
    ensures |JournalStore.Grow(rs, ops)| == |rs| + |ops|
    decreases |ops|
  {
    hide NewRecord;
    if ops != [] { GrowLength(rs + [NewRecord(rs, ops[0])], ops[1..]); }
  }
}
