/** A finalized journal, how its durability comes to be unknown, and what inspection then does. */
module JournalWitness {
  import opened Prelude
  import opened JournalRecords
  import opened JournalGrammar
  import opened JournalBytes
  import opened JournalGuards
  import opened JournalAppend
  import opened JournalProjection
  import opened JournalStore

  lemma Grown(rs: seq<Record>, op: Op) returns (longer: seq<Record>)
    requires rs == [] || ApiJournal(rs)
    requires OpInRange(op) && StageAdmits(StageOf(rs), op)
    ensures longer == rs + [NewRecord(rs, op)] && ApiJournal(longer) && StageOf(longer) == StageAfter(StageOf(rs), op)
  {
    longer := rs + [NewRecord(rs, op)];
    if rs != [] {
      GuardByStage(rs, op);
      NeverEmptyAgain(rs);
    }
    StageWithNewRecord(rs, op);
    hide StageOf, ApiJournal, NewRecord;
    AdmittedExtends(rs, op);
  }

  /** The operations without the optional records lead to evidence committed. */
  lemma CommittedJournal() returns (rs: seq<Record>)
    ensures ApiJournal(rs) && StageOf(rs) == Committed
  {
    hide NewRecord, ApiJournal;
    rs := Grown([], Prepare);
    rs := Grown(rs, RecordIntent);
    for k := 0 to 4
      invariant ApiJournal(rs) && StageOf(rs) == Ready(k)
    {
      rs := Grown(rs, RecordSourceIntent(k));
      rs := Grown(rs, RecordResult(k, Named(7)));
    }
    rs := Grown(rs, CommitEvidence(Named(8)));
  }

  /** A finalized journal of unknown durability is read as it is, and its projection is rejected. */
  lemma FinalizedUnknownRejected() returns (rs: seq<Record>)
    ensures ApiJournal(rs) && StageOf(rs) == Closed
    ensures Errors(Project(Inspection(Valid, rs), true)) == {FinalizationContradiction}
    ensures Errors(Project(Inspection(Valid, rs), false)) == {}
  {
    rs := CommittedJournal();
    rs := Grown(rs, FinalizeAttempt);
    hide StageOf, ApiJournal, Errors, Project;
    ProjectionErrors(Inspection(Valid, rs), true);
    ProjectionErrors(Inspection(Valid, rs), false);
  }

  /** The last record is written, the fsync of the directory fails, and the journal can no longer be inspected. */
  method FinalizeUnderFailingSync(store: Store, token: nat, io: Io)
    returns (finalized: Result<Record, JournalError>, inspected: Result<Projection, set<ProjectionError>>)
    requires store.Valid() && token in store.attempts && !store.durabilityUnknown && store.temp == None
    requires StageOf(store.records) == Committed && SyncFails(io)
    requires Fits(store.codec, store.records + [NewRecord(store.records, FinalizeAttempt)])
    modifies store
    ensures store.Valid() && StageOf(store.records) == Closed && store.durabilityUnknown
    ensures finalized == Err(DirectoryFsyncDurabilityUnknown) && inspected == Err({FinalizationContradiction})
  {
    ghost var before := store.records;
    assert before == [] || ApiJournal(before);
    StageWithNewRecord(before, FinalizeAttempt);
    hide StageOf, NewRecord, Fits;
    finalized := store.Perform(token, FinalizeAttempt, io);
    inspected := store.InspectJournal();
  }
}
