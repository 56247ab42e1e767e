/**
  The journal store of one process: its files, its sealed tokens, and its operations with every
  system-call failure. Interleaving with other processes and crashes are the subject of RunnerProtocol.
 */
module JournalStore {
  import opened Prelude
  import opened JournalRecords
  import opened JournalGrammar
  import opened JournalBytes
  import opened JournalGuards
  import opened JournalAppend
  import opened JournalProjection

  /** How the operating system treats one `append`; `writes` lists what successive writes accept. */
  datatype Io = Io(
    lockBusy: bool,
    openFails: bool,
    writes: seq<nat>,
    fsyncFails: bool,
    replaceFails: bool,
    directorySyncFails: bool,
    statFails: bool)

  /** The candidate gets written: the first write accepts any journal whole. */
  predicate Writable(io: Io) {
    !io.openFails && !io.fsyncFails && io.writes != [] && io.writes[0] >= MAX_BYTES
  }

  /** No call fails. */
  predicate Smooth(io: Io) {
    Writable(io) && !io.lockBusy && !io.replaceFails && !io.directorySyncFails && !io.statFails
  }

  /** Only the last fsync, of the directory, fails. */
  predicate SyncFails(io: Io) {
    Writable(io) && !io.lockBusy && !io.replaceFails && io.directorySyncFails
  }

  class Store {
    const codec: Codec
    var journal: Option<Bytes>
    var durable: Option<Bytes>
    var temp: Option<Bytes>
    var durabilityUnknown: bool
    var attempts: set<nat>
    var results: map<nat, Digest>
    var evidence: map<nat, Digest>
    var nextToken: nat
    ghost var records: seq<Record>

    /** The visible file holds exactly `records`; a token exists only while it does. */
    ghost predicate Valid()
      reads this`journal, this`durabilityUnknown, this`attempts, this`results, this`evidence, this`nextToken,
            this`records
    {
      && Lawful(codec)
      && Written(codec, records) && journal == FileOf(codec, records)
      && (attempts != {} ==> records != [])
      && (durabilityUnknown ==> records != [])
      && (forall t | t in attempts :: t < nextToken)
      && (forall t | t in results :: IsHex(results[t]))
      && (forall t | t in evidence :: IsHex(evidence[t]))
    }

    constructor (codec: Codec)
      requires Lawful(codec)
      ensures Valid() && records == [] && attempts == {} && !durabilityUnknown && temp == None
      ensures durable == None && this.codec == codec
    {
      this.codec := codec;
      journal, durable, temp := None, None, None;
      durabilityUnknown, attempts, results, evidence, nextToken := false, {}, map[], map[], 0;
      records := [];
    }

    /** Writes `encoded` to the temporary file in as many pieces as the system accepts. */
    method WriteTemporary(encoded: Bytes, io: Io) returns (error: Option<JournalError>)
      requires temp == None
      modifies this`temp
      ensures error == None ==> temp == Some(encoded)
      ensures error.Some? ==> error.value == LocalPersistenceFailed || error.value == ShortWrite
      ensures |encoded| <= MAX_BYTES && Writable(io) ==> error == None
      ensures error == None <==> !io.openFails && Accepts(|encoded|, io.writes) && !io.fsyncFails
    {
      if io.openFails { return Some(LocalPersistenceFailed); }
      temp := Some([]);
      var offset, i := 0, 0;
      while offset < |encoded|
        invariant 0 <= offset <= |encoded| && 0 <= i <= |io.writes|
        invariant temp == Some(encoded[..offset])
        invariant i == 0 ==> offset == 0
        invariant |encoded| <= MAX_BYTES && Writable(io) ==> i == 0 || offset == |encoded|
        invariant Accepts(|encoded| - offset, io.writes[i..]) == Accepts(|encoded|, io.writes)
        decreases |io.writes| - i
      {
        assert i < |io.writes| ==> io.writes[i..][1..] == io.writes[i + 1..];
        if i == |io.writes| { return Some(LocalPersistenceFailed); }
        var count := io.writes[i];
        if count == 0 { return Some(ShortWrite); }
        var upTo := if offset + count < |encoded| then offset + count else |encoded|;
        temp := Some(encoded[..upTo]);
        offset, i := upTo, i + 1;
      }
      assert encoded[..|encoded|] == encoded;
      return if io.fsyncFails then Some(LocalPersistenceFailed) else None;
    }

    /** Builds and checks the candidate against the file as it is now. */
    method BuildCandidate(ghost op: Op, f: Fields) returns (candidate: Result<Bytes, JournalError>, record: Record)
      requires Valid() && OpInRange(op) && f == FieldsOf(records, op)
      ensures candidate.Ok? ==> Publishable(codec, records, op, candidate.value)
      ensures record == NewRecord(records, op)
      ensures candidate == Err(CandidateInvalid) ==> !StageAdmits(StageOf(records), op)
      ensures candidate.Err? ==> candidate.error != DirectoryFsyncDurabilityUnknown
      ensures StageAdmits(StageOf(records), op) && Fits(codec, records + [NewRecord(records, op)]) ==> candidate.Ok?
    {
      CandidateFacts(codec, records, op);
      assert Lawful(codec) && journal == FileOf(codec, records);
      hide Valid, Written, StageOf, ApiJournal, FieldsOf, Candidate, ReadRecords, MakeRecord, Publishable,
        StageAdmits, Fits;
      candidate := Candidate(codec, journal, f);
      record := MakeRecord(ReadRecords(codec, journal), f);
    }

    /** Replaces the journal by the candidate and makes the replacement durable. */
    method Publish(ghost op: Op, encoded: Bytes, io: Io) returns (error: Option<JournalError>)
      requires Valid() && Publishable(codec, records, op, encoded) && temp == None && !durabilityUnknown
      modifies this`journal, this`durable, this`temp, this`durabilityUnknown, this`records
      ensures Valid() && temp == None
      ensures error == None ==>
                records == old(records) + [NewRecord(old(records), op)] && durable == journal && !durabilityUnknown
      ensures error == Some(DirectoryFsyncDurabilityUnknown) ==>
                && durabilityUnknown && records == old(records) + [NewRecord(old(records), op)]
                && (durable == old(durable) || durable == journal)
      ensures error.Some? && error.value != DirectoryFsyncDurabilityUnknown ==>
                && records == old(records) && journal == old(journal) && durable == old(durable) && !durabilityUnknown
                && error.value != CandidateInvalid
      ensures Smooth(io) ==> error == None
      ensures SyncFails(io) ==> error == Some(DirectoryFsyncDurabilityUnknown)
      ensures Steps(old(records), records, [op])
    {
      hide Written, StageOf, ApiJournal, NewRecord, Chained, Steps, Says, StageAdmits, Fits, OpInRange;
      StepsByAdmitted(codec, records, op);
      StepsNone(records, [op]);
      var failure := WriteTemporary(encoded, io);
      if failure.Some? { temp := None; return failure; }
      if io.replaceFails { temp := None; return Some(LocalPersistenceFailed); }
      journal, temp := temp, None;
      records := records + [NewRecord(records, op)];
      WrittenExtension(codec, records);
      if io.directorySyncFails { durabilityUnknown := true; return Some(DirectoryFsyncDurabilityUnknown); }
      durable := journal;
      if io.statFails { durabilityUnknown := true; return Some(DirectoryFsyncDurabilityUnknown); }
      return None;
    }

    /** Publishes one more record, all or nothing, and reports whether it is known to be durable. */
    method Append(ghost op: Op, f: Fields, io: Io) returns (r: Result<Record, JournalError>)
      requires Valid() && OpInRange(op) && f == FieldsOf(records, op)
      modifies this`journal, this`durable, this`temp, this`durabilityUnknown, this`records
      ensures Valid()
      ensures r.Ok? ==>
                && r.value == NewRecord(old(records), op) && records == old(records) + [r.value]
                && StageAdmits(StageOf(old(records)), op)
                && durable == journal && temp == None && durabilityUnknown == old(durabilityUnknown) == false
      ensures r == Err(DirectoryFsyncDurabilityUnknown) ==>
                && durabilityUnknown && records == old(records) + [NewRecord(old(records), op)]
                && (durable == old(durable) || durable == journal)
      ensures r.Err? && r.error != DirectoryFsyncDurabilityUnknown ==>
                && records == old(records) && journal == old(journal) && durable == old(durable)
                && durabilityUnknown == old(durabilityUnknown)
      ensures r == Err(CandidateInvalid) ==> !StageAdmits(StageOf(old(records)), op)
      ensures !old(durabilityUnknown) && old(temp) == None && Smooth(io)
              && StageAdmits(StageOf(old(records)), op) && Fits(codec, old(records) + [NewRecord(old(records), op)])
              ==> r.Ok?
      ensures !old(durabilityUnknown) && old(temp) == None && SyncFails(io)
              && StageAdmits(StageOf(old(records)), op) && Fits(codec, old(records) + [NewRecord(old(records), op)])
              ==> r == Err(DirectoryFsyncDurabilityUnknown)
      ensures Steps(old(records), records, [op])
      ensures old(durabilityUnknown) ==> r == Err(DurabilityReconciliationRequired)
      ensures !old(durabilityUnknown) && io.lockBusy ==> r == Err(DuplicateWriter)
    {
      StepsNone(records, [op]);
      hide Valid, Written, StageOf, ApiJournal, StageAdmits, Fits, Steps;
      if durabilityUnknown { return Err(DurabilityReconciliationRequired); }
      if io.lockBusy { return Err(DuplicateWriter); }
      var candidate, record := BuildCandidate(op, f);
      var stale := temp != None;
      temp := None;
      if candidate.Err? { return Err(candidate.error); }
      if stale { return Err(LocalPersistenceFailed); }
      var failure := Publish(op, candidate.value, io);
      return if failure.Some? then Err(failure.value) else Ok(record);
    }

    /** Opens the attempt; its token exists only if the first record is durable. */
    method PrepareAttempt(io: Io) returns (r: Result<nat, JournalError>)
      requires Valid()
      modifies this
      ensures Valid()
      ensures r.Ok? ==>
                && old(records) == [] && records == [NewRecord([], Prepare)] && StageOf(records) == Planned
                && attempts == old(attempts) + {r.value} && r.value !in old(attempts)
                && durable == journal && temp == None && !durabilityUnknown
      ensures r.Err? ==> attempts == old(attempts)
      ensures old(records) != [] ==> r.Err? && records == old(records) && durabilityUnknown == old(durabilityUnknown)
      ensures r.Err? && r.error != DirectoryFsyncDurabilityUnknown ==> records == old(records)
      ensures old(records) == [] && old(temp) == None && Smooth(io) && Fits(codec, [NewRecord([], Prepare)]) ==> r.Ok?
      ensures results == old(results) && evidence == old(evidence)
      ensures Steps(old(records), records, [Prepare])
    {
      hide ReadFile, Written, Fits, NewRecord, StageOf, StageAdmits, FieldsOf, FileOf, Steps, Says;
      StepsNone(records, [Prepare]);
      PrepareFacts(codec, records);
      if durabilityUnknown { return Err(DurabilityReconciliationRequired); }
      var reading := ReadFile(codec, journal);
      if reading.value.integrity != Absent { return Err(JournalAlreadyExists); }
      var appended := Append(Prepare, FieldsOf(reading.value.records, Prepare), io);
      if appended.Err? { return Err(appended.error); }
      r := Ok(nextToken);
      attempts := attempts + {nextToken};
      nextToken := nextToken + 1;
    }

    /**
      One guarded operation of the token holder: the checks on the records read, then the append. The
      candidate validation inside the append never rejects what the checks let through.
     */
    method Perform(token: nat, op: Op, io: Io) returns (r: Result<Record, JournalError>)
      requires Valid() && op != Prepare
      requires op.RecordResult? || op.CommitEvidence? ==> IsHex(op.id)
      modifies this`journal, this`durable, this`temp, this`durabilityUnknown, this`records
      ensures Valid()
      ensures r.Ok? ==>
                && token in attempts && OpInRange(op) && StageAdmits(StageOf(old(records)), op)
                && r.value == NewRecord(old(records), op) && records == old(records) + [r.value]
                && StageOf(records) == StageAfter(StageOf(old(records)), op)
                && durable == journal && temp == None && !durabilityUnknown
      ensures r.Err? && r.error != DirectoryFsyncDurabilityUnknown ==> records == old(records)
      ensures r == Err(DirectoryFsyncDurabilityUnknown) ==>
                durabilityUnknown && OpInRange(op) && records == old(records) + [NewRecord(old(records), op)]
      ensures r != Err(CandidateInvalid)
      ensures token in attempts && !old(durabilityUnknown) && old(temp) == None && Smooth(io) && OpInRange(op)
              && StageAdmits(StageOf(old(records)), op) && Fits(codec, old(records) + [NewRecord(old(records), op)])
              ==> r.Ok?
      ensures token in attempts && !old(durabilityUnknown) && old(temp) == None && SyncFails(io) && OpInRange(op)
              && StageAdmits(StageOf(old(records)), op) && Fits(codec, old(records) + [NewRecord(old(records), op)])
              ==> r == Err(DirectoryFsyncDurabilityUnknown)
      ensures Steps(old(records), records, [op])
      ensures token in attempts && !StageAdmits(StageOf(old(records)), op) ==> r == Err(Refusal(old(records), op))
      ensures token in attempts && StageAdmits(StageOf(old(records)), op) && old(durabilityUnknown) ==>
                r == Err(DurabilityReconciliationRequired)
      ensures token in attempts && StageAdmits(StageOf(old(records)), op) && !old(durabilityUnknown) && io.lockBusy ==>
                r == Err(DuplicateWriter)
    {
      StepsNone(records, [op]);
      PerformFacts(codec, records, op);
      var reading := ReadFile(codec, journal);
      hide ReadFile, Written, Fits, NewRecord, ApiJournal, StageOf, StageAdmits, Guard, Steps, Refusal;
      var resolved := token in attempts;
      var guardFirst := op.RecordResult? || op.CommitEvidence? || op.FinalizeAttempt?;
      if !guardFirst && !resolved { return Err(SealedAttemptRequired); }
      if reading.value.integrity != JournalBytes.Valid { return Err(JournalReconciliationRequired); }
      var rejected := Guard(reading.value.records, op);
      if rejected.Some? {
        r := Err(rejected.value);
        GuardErrorsAreLocal(reading.value.records, op);
        return;
      }
      if !resolved { return Err(SealedAttemptRequired); }
      r := Append(op, FieldsOf(reading.value.records, op), io);
    }

    /** Seals a minimized result; the same for evidence below. */
    method IssueResult(id: Digest) returns (r: Result<nat, JournalError>)
      requires Valid()
      modifies this`results, this`nextToken
      ensures Valid()
      ensures r.Ok? <==> IsHex(id)
      ensures r.Ok? ==> r.value !in old(results) || old(nextToken) <= r.value
      ensures r.Ok? ==> results == old(results)[r.value := id]
      ensures r.Err? ==> results == old(results)
    {
      if !IsHex(id) { return Err(SealedResultRequired); }
      r := Ok(nextToken);
      results := results[nextToken := id];
      nextToken := nextToken + 1;
    }

    method IssueEvidence(id: Digest) returns (r: Result<nat, JournalError>)
      requires Valid()
      modifies this`evidence, this`nextToken
      ensures Valid()
      ensures r.Ok? <==> IsHex(id)
      ensures r.Ok? ==> evidence == old(evidence)[r.value := id]
      ensures r.Err? ==> evidence == old(evidence)
    {
      if !IsHex(id) { return Err(SealedEvidenceRequired); }
      r := Ok(nextToken);
      evidence := evidence[nextToken := id];
      nextToken := nextToken + 1;
    }

    /** The recovery projection of the journal on disk. */
    method InspectJournal() returns (r: Result<Projection, set<ProjectionError>>)
      requires Valid()
      ensures r.Err? <==> durabilityUnknown && StageOf(records) == Closed
      ensures r.Err? ==> r.error == {FinalizationContradiction}
      ensures r.Ok? ==> (r.value.durableStateFound <==> records != []) && r.value.recordCount == |records|
      ensures r.Ok? ==> (r.value.finalized <==> StageOf(records) == Closed)
      ensures r.Ok? ==> Tells(r.value, InspectionOf(records), durabilityUnknown, StageOf(records))
    {
      hide ReadFile, Written, StageOf, Errors, Project, Lawful, Tells;
      InspectionFacts(codec, records, durabilityUnknown);
      var reading := ReadFile(codec, journal);
      var projection := Project(reading.value, durabilityUnknown);
      var errors := Errors(projection);
      return if errors != {} then Err(errors) else Ok(projection);
    }
  }

  ghost predicate Publishable(c: Codec, rs: seq<Record>, op: Op, encoded: Bytes) {
    && OpInRange(op) && StageAdmits(StageOf(rs), op)
    && var extended := rs + [NewRecord(rs, op)];
       ApiJournal(extended) && Fits(c, extended) && |encoded| <= MAX_BYTES && encoded == EncodeAll(c, extended)
  }

  /** What `prepare` reads, and what its first record is. */
  lemma PrepareFacts(c: Codec, rs: seq<Record>)
    requires Lawful(c) && Written(c, rs)
    ensures var reading := ReadFile(c, FileOf(c, rs));
            reading.Ok? && reading.value.records == rs && (reading.value.integrity == Absent <==> rs == [])
    ensures StageAdmits(StageOf([]), Prepare) && [] + [NewRecord([], Prepare)] == [NewRecord([], Prepare)]
    ensures StageOf([NewRecord([], Prepare)]) == Planned
  {
    ReadsWritten(c, rs);
    StageWithNewRecord([], Prepare);
    assert [] + [NewRecord([], Prepare)] == [NewRecord([], Prepare)];
  }

  /** The candidate for an operation on a written journal, and the record in it. */
  lemma CandidateFacts(c: Codec, rs: seq<Record>, op: Op)
    requires Lawful(c) && Written(c, rs) && OpInRange(op)
    ensures var candidate := Candidate(c, FileOf(c, rs), FieldsOf(rs, op));
            && (candidate.Ok? ==> Publishable(c, rs, op, candidate.value))
            && (candidate == Err(CandidateInvalid) ==> !StageAdmits(StageOf(rs), op))
            && (candidate.Err? ==> candidate.error != DirectoryFsyncDurabilityUnknown)
            && (StageAdmits(StageOf(rs), op) && Fits(c, rs + [NewRecord(rs, op)]) ==> candidate.Ok?)
    ensures MakeRecord(ReadRecords(c, FileOf(c, rs)), FieldsOf(rs, op)) == NewRecord(rs, op)
  {
    CandidateOutcome(c, rs, rs, op);
    ReadsWritten(c, rs);
    ClosedAdmitsNothing(op);
    hide Written, StageOf, ApiJournal, FieldsOf, Candidate, StageAdmits, MakeRecord, FileOf;
  }

  lemma GuardErrorsAreLocal(rs: seq<Record>, op: Op)
    ensures Guard(rs, op) != Some(CandidateInvalid) && Guard(rs, op) != Some(DirectoryFsyncDurabilityUnknown)
  {
  }

  /** The records read from a file; a written journal is never too large to read. */
  function ReadRecords(c: Codec, file: Option<Bytes>): seq<Record> {
    match ReadFile(c, file)
    case Ok(i) => i.records
    case Err(_) => []
  }

  lemma ClosedAdmitsNothing(op: Op)
    ensures !StageAdmits(Closed, op)
  {
  }

  lemma WrittenExtension(c: Codec, rs: seq<Record>)
    requires rs != [] && ApiJournal(rs) && Fits(c, rs)
    ensures Written(c, rs)
  {
  }

  /** What the projection of a written journal shows, and the one error it can have. */
  lemma InspectionFacts(c: Codec, rs: seq<Record>, durabilityUnknown: bool)
    requires Lawful(c) && Written(c, rs) && (durabilityUnknown ==> rs != [])
    ensures var reading := ReadFile(c, FileOf(c, rs));
            && reading.Ok?
            && var p := Project(reading.value, durabilityUnknown);
            && Errors(p) == (if durabilityUnknown && StageOf(rs) == Closed then {FinalizationContradiction} else {})
            && Tells(p, InspectionOf(rs), durabilityUnknown, StageOf(rs))
            && (p.durableStateFound <==> rs != []) && p.recordCount == |rs| && (p.finalized <==> StageOf(rs) == Closed)
  {
    ReadsWritten(c, rs);
    hide ReadFile, FileOf, StageOf, Errors, Lawful, Project;
    ProjectionErrors(InspectionOf(rs), durabilityUnknown);
    ProjectionTells(InspectionOf(rs), durabilityUnknown);
  }

  function InspectionOf(rs: seq<Record>): Inspection {
    Inspection(if rs == [] then Absent else JournalBytes.Valid, rs)
  }

  // A whole list of operations, each on the journal the ones before it left

  predicate AllInRange(ops: seq<Op>) {
    forall i | 0 <= i < |ops| :: OpInRange(ops[i])
  }

  function Grow(rs: seq<Record>, ops: seq<Op>): seq<Record>
    requires AllInRange(ops)
    decreases |ops|
  {
    if ops == [] then rs else Grow(rs + [NewRecord(rs, ops[0])], ops[1..])
  }

  /** Each of the journals that they leave is small enough. */
  ghost predicate Room(c: Codec, rs: seq<Record>, ops: seq<Op>)
    requires AllInRange(ops)
    decreases |ops|
  {
    ops == [] || (var next := rs + [NewRecord(rs, ops[0])]; Fits(c, next) && Room(c, next, ops[1..]))
  }

  lemma One(c: Codec, rs: seq<Record>, op: Op)
    requires OpInRange(op)
    ensures Grow(rs, [op]) == rs + [NewRecord(rs, op)]
    ensures Room(c, rs, [op]) <==> Fits(c, rs + [NewRecord(rs, op)])
  {
    hide NewRecord, Fits;
    assert [op][1..] == [];
  }

  lemma {:induction false} Both(c: Codec, rs: seq<Record>, x: seq<Op>, y: seq<Op>)
    requires AllInRange(x) && AllInRange(y)
    ensures AllInRange(x + y)
    ensures Grow(rs, x + y) == Grow(Grow(rs, x), y)
    ensures Room(c, rs, x + y) <==> Room(c, rs, x) && Room(c, Grow(rs, x), y)
    decreases |x|
  {
    hide NewRecord, Fits;
    if x == [] {
      assert x + y == y;
    } else {
      assert (x + y)[0] == x[0] && (x + y)[1..] == x[1..] + y;
      Both(c, rs + [NewRecord(rs, x[0])], x[1..], y);
    }
  }

  lemma StepsByAdmitted(c: Codec, rs: seq<Record>, op: Op)
    requires Written(c, rs) && OpInRange(op) && StageAdmits(StageOf(rs), op)
    ensures Steps(rs, rs + [NewRecord(rs, op)], [op])
  {
    NewRecordSays(rs, op);
    hide Says, NewRecord, StageOf;
  }

  /** What the operations of a token holder read, and what their guards say of it. */
  lemma PerformFacts(c: Codec, rs: seq<Record>, op: Op)
    requires Lawful(c) && Written(c, rs) && op != Prepare
    requires op.RecordResult? || op.CommitEvidence? ==> IsHex(op.id)
    ensures ReadFile(c, FileOf(c, rs)) == Ok(Inspection(if rs == [] then Absent else JournalBytes.Valid, rs))
    ensures rs != [] ==>
              && (Guard(rs, op) == None <==> StageAdmits(StageOf(rs), op))
              && (Guard(rs, op) == None ==> OpInRange(op))
              && (OpInRange(op) && StageAdmits(StageOf(rs), op) ==>
                  StageOf(rs + [NewRecord(rs, op)]) == StageAfter(StageOf(rs), op))
              && (!StageAdmits(StageOf(rs), op) ==> Guard(rs, op) == Some(Refusal(rs, op)))
  {
    ReadsWritten(c, rs);
    if rs != [] {
      hide ReadFile, Guard, StageAdmits, NewRecord, StageAfter, Refusal, StageOf, Fits;
      GuardByStage(rs, op);
      GuardMatchesGrammar(rs, op);
      if OpInRange(op) { StageWithNewRecord(rs, op); }
      if !StageAdmits(StageOf(rs), op) { GuardRefusal(rs, op); }
    }
  }
}
