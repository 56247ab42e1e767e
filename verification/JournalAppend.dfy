/** Reading the journal file and building the candidate that `append` is about to publish. */
module JournalAppend {
  import opened Prelude
  import opened Lines
  import opened JournalRecords
  import opened JournalGrammar
  import opened JournalBytes
  import opened JournalGuards

  function ReadFile(c: Codec, file: Option<Bytes>): Result<Inspection, JournalError> {
    match file
    case None => Ok(Inspection(Absent, []))
    case Some(data) =>
      if |data| > MAX_BYTES then Err(JournalTooLarge)
      else if data == [] then Ok(CORRUPT)
      else Ok(Inspect(c, data))
  }

  /** The bytes of the extended journal, or why there is none. */
  function Candidate(c: Codec, file: Option<Bytes>, f: Fields): Result<Bytes, JournalError>
    requires f.source.Some? ==> f.source.value < |SOURCES|
  {
    match ReadFile(c, file)
    case Err(e) => Err(e)
    case Ok(i) =>
      if i.integrity != Absent && i.integrity != Valid then Err(JournalReconciliationRequired)
      else if i.records != [] && i.records[|i.records| - 1].body.attemptState in {Finalized, Abandoned} then
        Err(AttemptTerminal)
      else
        var extended := i.records + [MakeRecord(i.records, f)];
        var encoded := EncodeAll(c, extended);
        if |encoded| > MAX_BYTES then Err(JournalLimitReached)
        else if Inspect(c, encoded) != Inspection(Valid, extended) then Err(CandidateInvalid)
        else Ok(encoded)
  }

  /** The file that holds exactly the records `rs`; no records, no file. */
  function FileOf(c: Codec, rs: seq<Record>): Option<Bytes> {
    if rs == [] then None else Some(EncodeAll(c, rs))
  }

  ghost predicate Fits(c: Codec, rs: seq<Record>) {
    |EncodeAll(c, rs)| <= MAX_BYTES
  }

  /** A journal as the operations leave it, or none yet. */
  ghost predicate Written(c: Codec, rs: seq<Record>) {
    rs == [] || (ApiJournal(rs) && Fits(c, rs))
  }

  lemma ReadsWritten(c: Codec, rs: seq<Record>)
    requires Lawful(c) && Written(c, rs)
    ensures ReadFile(c, FileOf(c, rs)) == Ok(Inspection(if rs == [] then Absent else Valid, rs))
  {
    if rs != [] {
      WrittenReadsBack(c, rs);
      EncodeNonEmpty(c, rs);
    }
  }

  /** A VALID reading is nothing but a chained history in the grammar. */
  lemma ValidReading(c: Codec, data: Bytes)
    requires Inspect(c, data).integrity == Valid
    ensures InGrammar(Inspect(c, data).records) && Chained(Inspect(c, data).records)
  {
    ValidIsChained(c, SplitLines(data), []);
  }

  /** The extension by an operation's record reads back as VALID exactly when the stage admits it. */
  lemma ExtensionReads(c: Codec, rs: seq<Record>, op: Op)
    requires Lawful(c) && Written(c, rs) && OpInRange(op)
    ensures var extended := rs + [NewRecord(rs, op)];
            && (Inspect(c, EncodeAll(c, extended)) == Inspection(Valid, extended) <==> StageAdmits(StageOf(rs), op))
            && (StageAdmits(StageOf(rs), op) ==> ApiJournal(extended))
  {
    var extended := rs + [NewRecord(rs, op)];
    StageWithNewRecord(rs, op);
    if StageAdmits(StageOf(rs), op) {
      if rs != [] { GuardByStage(rs, op); }
      AdmittedExtends(rs, op);
      WrittenReadsBack(c, extended);
    } else if Inspect(c, EncodeAll(c, extended)) == Inspection(Valid, extended) {
      ValidReading(c, EncodeAll(c, extended));
      assert false;
    }
  }

  lemma ClosedIsTerminal(rs: seq<Record>)
    requires rs == [] || ApiJournal(rs)
    ensures rs != [] && rs[|rs| - 1].body.attemptState in {Finalized, Abandoned} <==> StageOf(rs) == Closed
  {
    if rs != [] { LastStateFacts(rs); }
  }

  lemma SameFields(at: seq<Record>, rs: seq<Record>, op: Op)
    requires OpInRange(op) && (at == rs || op == Prepare)
    ensures FieldsOf(at, op) == FieldsOf(rs, op)
  {
  }

  /**
    On a written journal `append` publishes the one-record extension when the operation's stage admits
    it and it fits; otherwise it reports the terminal attempt, the limit, or an invalid candidate.
   */
  lemma CandidateOutcome(c: Codec, rs: seq<Record>, at: seq<Record>, op: Op)
    requires Lawful(c) && Written(c, rs) && OpInRange(op)
    requires at == rs || op == Prepare
    ensures var extended := rs + [NewRecord(rs, op)];
            && Candidate(c, FileOf(c, rs), FieldsOf(at, op)) ==
               (if StageOf(rs) == Closed then Err(AttemptTerminal)
                else if !Fits(c, extended) then Err(JournalLimitReached)
                else if StageAdmits(StageOf(rs), op) then Ok(EncodeAll(c, extended))
                else Err(CandidateInvalid))
            && (StageAdmits(StageOf(rs), op) ==> ApiJournal(extended))
  {
    ReadsWritten(c, rs);
    SameFields(at, rs, op);
    ClosedIsTerminal(rs);
    ExtensionReads(c, rs, op);
  }
}
