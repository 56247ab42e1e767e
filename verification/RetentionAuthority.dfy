/** The authority as it runs: registries, the sets of what is done, and the active attempt records. */
module RetentionAuthority {
  import opened Prelude
  import opened Retention
  import opened RetentionSafety

  class Authority {
    var records: seq<Record>
    var migrated: set<Id>
    var planned: set<Id>
    var reviewed: set<Id>
    var attempted: set<Id>
    var active: map<Id, Id>

    ghost function Abstract(): State
      reads this
    {
      State(records, migrated, planned, reviewed, attempted, active)
    }

    /** The attempt records are one linked chain, and only the last is active. */
    ghost predicate Valid()
      reads this
    {
      Inv(Abstract())
    }

    constructor ()
      ensures Valid() && Abstract() == EMPTY
    {
      records, migrated, planned, reviewed, attempted, active := [], {}, {}, {}, {}, map[];
    }

    method ResolveToken(t: Token, kind: Kind) returns (r: Result<Record, Refusal>)
      ensures r == Resolve(Abstract(), t, kind)
    {
      if t.kind != kind { return Err(SealedRecordRequired); }
      if t.index >= |records| || KindOf(records[t.index]) != kind { return Err(CrossAuthorityRecord); }
      r := Ok(records[t.index]);
    }

    method IssueToken(r: Record) returns (token: Token)
      modifies this`records
      ensures (Abstract(), Ok(token)) == Issue(old(Abstract()), r)
    {
      token := Token(KindOf(r), |records|);
      records := records + [r];
    }

    method Historical() returns (token: Token)
      requires Valid()
      modifies this`records
      ensures Valid()
      ensures (Abstract(), Ok(token)) == HistoricalSpec(old(Abstract()))
    {
      IssueKeeps(Abstract(), Evidence(EvidenceId, V1, None));
      hide Inv;
      token := IssueToken(Evidence(EvidenceId, V1, None));
    }

    method Migrate(t: Token, to: Policy) returns (r: Result<Token, Refusal>)
      requires Valid()
      modifies this
      ensures Valid()
      ensures (Abstract(), r) == MigrateSpec(old(Abstract()), t, to)
      ensures MigrateTells(old(Abstract()), Abstract(), t, to, r)
    {
      hide Inv, MigrateTells;
      MigrateMeans(Abstract(), t, to);
      MigrateKeeps(Abstract(), t, to);
      var resolved := ResolveToken(t, EvidenceKind);
      if resolved.Err? { return Err(resolved.error); }
      var record := resolved.value;
      if to == record.policy { return Err(MigrationSameRevision); }
      if record.id in migrated { return Err(MigrationAlreadyRecorded); }
      migrated := migrated + {record.id};
      var token := IssueToken(Migration(MigrationId(record.id), record.id));
      r := Ok(token);
    }

    method Prepare(t: Token) returns (r: Result<Token, Refusal>)
      requires Valid()
      modifies this
      ensures Valid()
      ensures (Abstract(), r) == PrepareSpec(old(Abstract()), t)
      ensures PrepareTells(old(Abstract()), Abstract(), t, r)
    {
      hide Inv, PrepareTells;
      PrepareMeans(Abstract(), t);
      PrepareKeeps(Abstract(), t);
      var resolved := ResolveToken(t, MigrationKind);
      if resolved.Err? { return Err(resolved.error); }
      var record := resolved.value;
      if record.id in planned { return Err(PlanAlreadyPrepared); }
      planned := planned + {record.id};
      var token := IssueToken(Plan(PlanId(record.id), record.id));
      r := Ok(token);
    }

    method HumanReview(t: Token) returns (r: Result<Token, Refusal>)
      requires Valid()
      modifies this
      ensures Valid()
      ensures (Abstract(), r) == ReviewSpec(old(Abstract()), t)
      ensures ReviewTells(old(Abstract()), Abstract(), t, r)
    {
      hide Inv, ReviewTells;
      ReviewMeans(Abstract(), t);
      ReviewKeeps(Abstract(), t);
      var resolved := ResolveToken(t, PlanKind);
      if resolved.Err? { return Err(resolved.error); }
      var record := resolved.value;
      if record.id in reviewed { return Err(ReviewAlreadyRecorded); }
      reviewed := reviewed + {record.id};
      var token := IssueToken(Review(ReviewId(record.id), record.id));
      r := Ok(token);
    }

    method Begin(t: Token) returns (r: Result<Token, Refusal>)
      requires Valid()
      modifies this
      ensures Valid()
      ensures (Abstract(), r) == BeginSpec(old(Abstract()), t)
      ensures BeginTells(old(Abstract()), Abstract(), t, r)
    {
      hide Inv, BeginTells;
      BeginMeans(Abstract(), t);
      BeginKeeps(Abstract(), t);
      var resolved := ResolveToken(t, ReviewKind);
      if resolved.Err? { return Err(resolved.error); }
      var plan := resolved.value.plan;
      if plan in attempted { return Err(DuplicateAttempt); }
      attempted := attempted + {plan};
      var a := FirstAttempt(plan);
      active := active[a.attemptId := a.recordId];
      var token := IssueToken(AttemptRecord(a));
      r := Ok(token);
    }

    method RecordSource(t: Token, source: nat, state: SourceState) returns (r: Result<Token, Refusal>)
      requires Valid()
      modifies this
      ensures Valid()
      ensures (Abstract(), r) == RecordSourceSpec(old(Abstract()), t, source, state)
      ensures RecordTells(old(Abstract()), Abstract(), t, source, state, r)
    {
      hide Inv, RecordTells;
      RecordMeans(Abstract(), t, source, state);
      RecordSourceKeeps(Abstract(), t, source, state);
      var resolved := ResolveToken(t, AttemptKind);
      if resolved.Err? { return Err(resolved.error); }
      var a := resolved.value.attempt;
      if source >= SOURCES || source >= |a.states| { return Err(SourceNotInFixedSet); }
      if state == NotAttempted { return Err(SourceStateInvalid); }
      if a.attemptId !in active || active[a.attemptId] != a.recordId { return Err(RecordSuperseded); }
      if Terminal(a.status) { return Err(AttemptTerminal); }
      if a.states[source] != NotAttempted { return Err(SourceAlreadyAttempted); }
      var states := a.states[source := state];
      var terminal := state in {SourceFailed, SourceInterrupted};
      var status := if state == SourceFailed then AttemptFailed
                    else if state == SourceInterrupted then AttemptInterrupted
                    else if AllCompleted(states) then AttemptCompleted else Partial;
      var generation := a.generation + 1;
      var recordId := RecordId(a.attemptId, generation, Some(a.recordId), status, states);
      active := active[a.attemptId := recordId];
      var token := IssueToken(AttemptRecord(
        Attempt(a.attemptId, a.planId, generation, status, states, Some(a.recordId), recordId, terminal, None)));
      r := Ok(token);
    }

    method CommitResult(attempt: Token, evidence: Token) returns (r: Result<Id, Refusal>)
      ensures r == CommitSpec(Abstract(), attempt, evidence)
      ensures Valid() ==> r.Err?
    {
      if Valid() { CommitRefused(Abstract(), attempt, evidence); }
      hide Inv;
      var a := ResolveToken(attempt, AttemptKind);
      if a.Err? { return Err(a.error); }
      var e := ResolveToken(evidence, EvidenceKind);
      if e.Err? { return Err(e.error); }
      if a.value.attempt.status != AttemptCompleted || e.value.policy != V2 || e.value.previous != Some(EvidenceId) {
        return Err(CurrentResultRequired);
      }
      r := Ok(e.value.id);
    }

    method Project(t: Token) returns (r: Result<Projection, Refusal>)
      ensures r == ProjectSpec(Abstract(), t)
      ensures Valid() && t.index < |records| && t.kind == KindOf(records[t.index]) ==>
                r == Ok(ProjectionOf(Abstract(), records[t.index]))
      ensures r.Ok? ==> t.index < |records| && Shows(Abstract(), records[t.index], r.value) && Acceptable(r.value)
    {
      if t.index < |records| {
        ProjectionShows(Abstract(), records[t.index]);
        NoErrorsIff(ProjectionOf(Abstract(), records[t.index]));
      }
      hide Shows, Acceptable;
      if Valid() && t.index < |records| && t.kind == KindOf(records[t.index]) { TokenProjects(Abstract(), t.index); }
      hide Inv;
      var resolved := ResolveToken(t, t.kind);
      if resolved.Err? { return Err(resolved.error); }
      var p := ProjectionOf(State(records, migrated, planned, reviewed, attempted, active), resolved.value);
      var errors := Validate(p);
      r := if errors != [] then Err(ProjectionInvalid) else Ok(p);
    }
  }

  /** The validator accumulates its errors one check after another. */
  method Validate(p: Projection) returns (errors: seq<Error>)
    ensures errors == ValidateProjection(p)
    ensures errors == [] <==> Acceptable(p)
  {
    NoErrorsIff(p);
    hide AttemptConsistent, ExpectedState, Acceptable;
    errors := ErrorIf(p.generation > 4, GenerationInvalid);
    if p.kind == MigrationKind {
      errors := errors + ErrorIf(p.fromPolicy != Some(V1), MigrationBindingInvalid);
    } else {
      errors := errors + ErrorIf(p.fromPolicy != None, MigrationFieldsProhibited);
    }
    if p.kind == AttemptKind {
      errors := errors + ErrorIf(p.attempt.None? || p.attempt.value.generation > 4, AttemptBindingInvalid);
      errors := errors + ErrorIf(!AttemptConsistent(p), AttemptContradiction);
    } else {
      errors := errors + ErrorIf(p.attempt != None || p.reconciliation, AttemptFieldsProhibited);
      var state := (p.policy, p.superseded, p.complete, p.semantic, p.reobservation);
      var contradiction := ErrorIf(state != ExpectedState(p.kind) || p.generation != 0, StateContradiction);
      var previous := ErrorIf((p.kind == EvidenceKind) != p.previous.None?, PreviousContradiction);
      var time := ErrorIf(p.at != (if p.kind == EvidenceKind then HistoricalTime else EventTime), TimeContradiction);
      errors := errors + (contradiction + previous + time);
    }
  }
}
