/** The attempt's records are one chain, every issued token projects, and no result can be committed. */
module RetentionSafety {
  import opened Prelude
  import opened Retention

  /** The attempt records in the order they were issued. */
  function Chain(records: seq<Record>): seq<Attempt> {
    if records == [] then []
    else
      var front := Chain(records[..|records| - 1]);
      match records[|records| - 1]
      case AttemptRecord(a) => front + [a]
      case _ => front
  }

  function Attempted(states: seq<SourceState>): (n: nat)
    ensures n <= |states|
  {
    if states == [] then 0
    else Attempted(states[..|states| - 1]) + if states[|states| - 1] == NotAttempted then 0 else 1
  }

  const PLAN: Id := PlanId(MigrationId(EvidenceId))

  predicate First(a: Attempt) {
    a == FirstAttempt(PLAN)
  }

  /** One record follows another: one more source attempted, and the record it supersedes was not terminal. */
  predicate Follows(a: Attempt, b: Attempt) {
    !Terminal(a.status)
    && exists i, state | 0 <= i < |a.states| && state != NotAttempted ::
         a.states[i] == NotAttempted && b == NextAttempt(a, i, state)
  }

  /** The records are linked one to the next, without a fork. */
  predicate Linked(chain: seq<Attempt>) {
    && (chain != [] ==> First(chain[0]))
    && forall k | 0 < k < |chain| :: Follows(chain[k - 1], chain[k])
  }

  /** What each record says of itself. */
  predicate Consistent(a: Attempt) {
    && |a.states| == SOURCES && a.generation == Attempted(a.states)
    && a.attemptId == AttemptId(PLAN) && a.planId == PLAN
    && (a.status == Started <==> a.generation == 0)
    && (a.previous.None? <==> a.generation == 0)
    && (a.reconciliation <==> a.status in {AttemptFailed, AttemptInterrupted})
    && a.result == None
  }

  lemma {:induction false} AttemptedOneMore(states: seq<SourceState>, i: nat, state: SourceState)
    requires i < |states| && states[i] == NotAttempted && state != NotAttempted
    ensures Attempted(states[i := state]) == Attempted(states) + 1
  {
    var last := |states| - 1;
    var after := states[i := state];
    if i < last {
      assert after[..last] == states[..last][i := state];
      AttemptedOneMore(states[..last], i, state);
    } else {
      assert after[..last] == states[..last];
    }
  }

  lemma FirstConsistent()
    ensures Consistent(FirstAttempt(PLAN))
  {
    assert Attempted(FRESH_STATES) == 0 by {
      assert FRESH_STATES[..3] == [NotAttempted, NotAttempted, NotAttempted];
      assert FRESH_STATES[..3][..2] == [NotAttempted, NotAttempted];
      assert [NotAttempted, NotAttempted][..1] == [NotAttempted];
      assert [NotAttempted][..0] == [];
    }
  }

  lemma NextConsistent(a: Attempt, b: Attempt)
    requires Consistent(a) && Follows(a, b)
    ensures Consistent(b) && b.generation == a.generation + 1 && b.previous == Some(a.recordId)
  {
    var i, state :|
      0 <= i < |a.states| && state != NotAttempted && a.states[i] == NotAttempted && b == NextAttempt(a, i, state);
    AttemptedOneMore(a.states, i, state);
  }

  /** Along a linked chain the k-th record has generation k, which is the number of attempted sources. */
  lemma {:induction false} LinkedFacts(chain: seq<Attempt>, k: nat)
    requires Linked(chain) && k < |chain|
    ensures Consistent(chain[k]) && chain[k].generation == k && k <= 4
    ensures k > 0 ==> chain[k].previous == Some(chain[k - 1].recordId)
  {
    if k == 0 {
      FirstConsistent();
    } else {
      LinkedFacts(chain, k - 1);
      NextConsistent(chain[k - 1], chain[k]);
    }
  }

  /** Records other than attempts say where they come from. */
  predicate WellBorn(r: Record) {
    match r
    case Evidence(id, policy, previous) => id == EvidenceId && policy == V1 && previous == None
    case Migration(id, evidence) => id == MigrationId(EvidenceId) && evidence == EvidenceId
    case Plan(id, migration) => id == PLAN && migration == MigrationId(EvidenceId)
    case Review(id, plan) => plan == PLAN
    case AttemptRecord(a) => true
  }

  ghost predicate Inv(s: State) {
    var chain := Chain(s.records);
    && Linked(chain)
    && (forall r | r in s.records :: WellBorn(r))
    && s.active == (if chain == [] then map[] else map[AttemptId(PLAN) := chain[|chain| - 1].recordId])
    && (chain != [] <==> PLAN in s.attempted)
  }

  lemma ChainOfLonger(records: seq<Record>, r: Record)
    ensures Chain(records + [r]) == if r.AttemptRecord? then Chain(records) + [r.attempt] else Chain(records)
  {
    assert (records + [r])[..|records|] == records;
  }

  /** Every registered attempt is a link of the chain. */
  lemma {:induction false} InChain(records: seq<Record>, i: nat) returns (k: nat)
    requires i < |records| && records[i].AttemptRecord?
    ensures k < |Chain(records)| && Chain(records)[k] == records[i].attempt
  {
    var last := |records| - 1;
    if i == last {
      k := |Chain(records)| - 1;
    } else {
      k := InChain(records[..last], i);
    }
  }

  lemma IssueKeeps(s: State, r: Record)
    requires Inv(s) && WellBorn(r) && !r.AttemptRecord?
    ensures Inv(s.(records := s.records + [r]))
  {
    ChainOfLonger(s.records, r);
  }

  lemma NoChainYet(s: State)
    requires Inv(s) && PLAN !in s.attempted
    ensures Chain(s.records) == [] && s.active == map[]
  {
  }

  lemma BeginKeeps(s: State, t: Token)
    requires Inv(s)
    ensures Inv(BeginSpec(s, t).0)
  {
    hide Chain;
    var resolved := Resolve(s, t, ReviewKind);
    if resolved.Ok? && resolved.value.plan !in s.attempted {
      assert WellBorn(resolved.value);
      NoChainYet(s);
      ChainOfLonger(s.records, AttemptRecord(FirstAttempt(PLAN)));
    }
  }

  /** A registered attempt whose record identifier is the active one is the last link. */
  lemma ActiveRecord(s: State, i: nat)
    requires Inv(s) && i < |s.records| && s.records[i].AttemptRecord?
    ensures var a, chain := s.records[i].attempt, Chain(s.records);
            && chain != [] && Consistent(a) && s.active == map[AttemptId(PLAN) := chain[|chain| - 1].recordId]
            && (chain[|chain| - 1].recordId == a.recordId <==> a == chain[|chain| - 1])
  {
    var chain := Chain(s.records);
    var k := InChain(s.records, i);
    LinkedFacts(chain, k);
    hide Linked, Consistent;
    if chain[|chain| - 1].recordId == chain[k].recordId { ActiveIsLast(chain, k); }
  }

  lemma LinkedExtend(chain: seq<Attempt>, next: Attempt)
    requires Linked(chain) && chain != [] && Follows(chain[|chain| - 1], next)
    ensures Linked(chain + [next])
  {
    hide Follows;
  }

  lemma RecordSourceKeeps(s: State, t: Token, source: nat, state: SourceState)
    requires Inv(s)
    ensures Inv(RecordSourceSpec(s, t, source, state).0)
  {
    hide Chain, Linked, NextAttempt;
    var resolved := Resolve(s, t, AttemptKind);
    if resolved.Ok? && RecordSourceSpec(s, t, source, state).1.Ok? {
      var a, chain := resolved.value.attempt, Chain(s.records);
      var next := NextAttempt(a, source, state);
      ActiveRecord(s, t.index);
      assert Follows(a, next);
      LinkedExtend(chain, next);
      ChainOfLonger(s.records, AttemptRecord(next));
      NextKeepsId(a, source, state);
    }
  }

  lemma NextKeepsId(a: Attempt, source: nat, state: SourceState)
    requires source < |a.states|
    ensures NextAttempt(a, source, state).attemptId == a.attemptId
  {
  }

  /** Only the last link carries the active record identifier. */
  lemma ActiveIsLast(chain: seq<Attempt>, k: nat)
    requires Linked(chain) && k < |chain| && chain[k].recordId == chain[|chain| - 1].recordId
    ensures k == |chain| - 1
  {
    RecordIdOf(chain, k);
    RecordIdOf(chain, |chain| - 1);
    LinkedFacts(chain, k);
    LinkedFacts(chain, |chain| - 1);
  }

  lemma RecordIdOf(chain: seq<Attempt>, k: nat)
    requires Linked(chain) && k < |chain|
    ensures chain[k].recordId.RecordId? && chain[k].recordId.generation == chain[k].generation
  {
    if k > 0 {
      assert Follows(chain[k - 1], chain[k]);
    }
  }

  lemma SetsIrrelevant(s: State, migrated: set<Id>, planned: set<Id>, reviewed: set<Id>)
    requires Inv(s)
    ensures Inv(s.(migrated := migrated, planned := planned, reviewed := reviewed))
  {
  }

  lemma MigrateKeeps(s: State, t: Token, to: Policy)
    requires Inv(s)
    ensures Inv(MigrateSpec(s, t, to).0)
  {
    hide Chain, Linked;
    if MigrateSpec(s, t, to).1.Ok? {
      assert WellBorn(s.records[t.index]);
      hide Inv;
      SetsIrrelevant(s, s.migrated + {EvidenceId}, s.planned, s.reviewed);
      IssueKeeps(s.(migrated := s.migrated + {EvidenceId}), Migration(MigrationId(EvidenceId), EvidenceId));
    }
  }

  lemma PrepareKeeps(s: State, t: Token)
    requires Inv(s)
    ensures Inv(PrepareSpec(s, t).0)
  {
    hide Chain, Linked;
    if PrepareSpec(s, t).1.Ok? {
      assert WellBorn(s.records[t.index]);
      hide Inv;
      SetsIrrelevant(s, s.migrated, s.planned + {MigrationId(EvidenceId)}, s.reviewed);
      IssueKeeps(s.(planned := s.planned + {MigrationId(EvidenceId)}), Plan(PLAN, MigrationId(EvidenceId)));
    }
  }

  lemma ReviewKeeps(s: State, t: Token)
    requires Inv(s)
    ensures Inv(ReviewSpec(s, t).0)
  {
    hide Chain, Linked;
    if ReviewSpec(s, t).1.Ok? {
      assert WellBorn(s.records[t.index]);
      hide Inv;
      SetsIrrelevant(s, s.migrated, s.planned, s.reviewed + {PLAN});
      IssueKeeps(s.(reviewed := s.reviewed + {PLAN}), Review(ReviewId(PLAN), PLAN));
    }
  }

  lemma StepKeeps(s: State, call: Call)
    requires Inv(s)
    ensures Inv(Apply(s, call).0)
  {
    hide Inv, MigrateSpec, PrepareSpec, ReviewSpec, BeginSpec, RecordSourceSpec;
    match call
    case Historical => IssueKeeps(s, Evidence(EvidenceId, V1, None));
    case Migrate(t, to) => MigrateKeeps(s, t, to);
    case Prepare(t) => PrepareKeeps(s, t);
    case HumanReview(t) => ReviewKeeps(s, t);
    case Begin(t) => BeginKeeps(s, t);
    case RecordSource(t, source, state) => RecordSourceKeeps(s, t, source, state);
  }

  lemma {:induction false} RunKeeps(s: State, calls: seq<Call>)
    requires Inv(s)
    ensures Inv(Run(s, calls))
    decreases |calls|
  {
    if calls != [] {
      StepKeeps(s, calls[0]);
      RunKeeps(Apply(s, calls[0]).0, calls[1..]);
    }
  }

  /** After any calls, the attempt records are one chain: at most five, the k-th with generation k and k sources
      attempted, each naming the one before it, and only the last one active. */
  lemma OneChain(calls: seq<Call>)
    ensures var s := Run(EMPTY, calls);
            var chain := Chain(s.records);
            && |chain| <= 5
            && (forall k | 0 <= k < |chain| :: chain[k].generation == k && Attempted(chain[k].states) == k)
            && (forall k | 0 < k < |chain| :: chain[k].previous == Some(chain[k - 1].recordId))
            && (forall k | 0 <= k < |chain| - 1 :: !Terminal(chain[k].status))
            && s.active == (if chain == [] then map[] else map[AttemptId(PLAN) := chain[|chain| - 1].recordId])
  {
    RunKeeps(EMPTY, calls);
    var chain := Chain(Run(EMPTY, calls).records);
    if |chain| > 5 { LinkedFacts(chain, 5); }
    forall k | 0 <= k < |chain|
      ensures chain[k].generation == k && Attempted(chain[k].states) == k
    {
      LinkedFacts(chain, k);
    }
    forall k | 0 < k < |chain|
      ensures chain[k].previous == Some(chain[k - 1].recordId)
    {
      LinkedFacts(chain, k);
    }
    forall k | 0 <= k < |chain| - 1
      ensures !Terminal(chain[k].status)
    {
      assert Follows(chain[k], chain[k + 1]);
    }
  }

  /** The validator accepts a consistent attempt record, superseded or not. */
  lemma AttemptProjects(s: State, a: Attempt)
    requires Consistent(a)
    ensures ValidateProjection(ProjectionOf(s, AttemptRecord(a))) == []
  {
    hide Attempted;
    assert |a.states| == 4;
    assert AttemptConsistent(ProjectionOf(s, AttemptRecord(a)));
  }

  /** And every other record that was properly issued. */
  lemma OtherProjects(s: State, r: Record)
    requires WellBorn(r) && !r.AttemptRecord?
    ensures ValidateProjection(ProjectionOf(s, r)) == []
  {
  }

  lemma TokenProjects(s: State, i: nat)
    requires Inv(s) && i < |s.records|
    ensures var r := s.records[i];
            var p := ProjectSpec(s, Token(KindOf(r), i));
            && p == Ok(ProjectionOf(s, r))
            && (r.AttemptRecord? ==>
                  && (!p.value.superseded <==>
                      Chain(s.records) != [] && r.attempt == Chain(s.records)[|Chain(s.records)| - 1])
                  && p.value.generation == Attempted(r.attempt.states))
  {
    var r := s.records[i];
    assert WellBorn(r);
    if r.AttemptRecord? {
      ActiveRecord(s, i);
      AttemptProjects(s, r.attempt);
    } else {
      OtherProjects(s, r);
    }
    hide Chain, Linked, Attempted, ValidateProjection, WellBorn;
  }

  /** Every token ever issued projects, superseded attempt records included; an attempt's projection says
      superseded exactly when it is not the last of the chain, and its generation counts the attempted sources. */
  lemma EveryTokenProjects(calls: seq<Call>, i: nat)
    requires i < |Run(EMPTY, calls).records|
    ensures var s := Run(EMPTY, calls);
            var r := s.records[i];
            var p := ProjectSpec(s, Token(KindOf(r), i));
            && p == Ok(ProjectionOf(s, r))
            && (r.AttemptRecord? ==>
                  && (!p.value.superseded <==>
                      Chain(s.records) != [] && r.attempt == Chain(s.records)[|Chain(s.records)| - 1])
                  && p.value.generation == Attempted(r.attempt.states))
  {
    RunKeeps(EMPTY, calls);
    hide Inv, Chain, ProjectSpec, ProjectionOf, Attempted, Run;
    TokenProjects(Run(EMPTY, calls), i);
  }

  /** No result is ever committed, whatever attempt and evidence are presented. */
  lemma CommitNeverSucceeds(calls: seq<Call>, attempt: Token, evidence: Token)
    ensures CommitSpec(Run(EMPTY, calls), attempt, evidence).Err?
  {
    RunKeeps(EMPTY, calls);
    CommitRefused(Run(EMPTY, calls), attempt, evidence);
  }

  lemma CommitRefused(s: State, attempt: Token, evidence: Token)
    requires Inv(s)
    ensures CommitSpec(s, attempt, evidence).Err?
  {
    if Resolve(s, evidence, EvidenceKind).Ok? {
      assert WellBorn(Resolve(s, evidence, EvidenceKind).value);
    }
  }

  lemma CallOnlyAdds(s: State, call: Call)
    ensures s.records <= Apply(s, call).0.records
  {
  }

  /** A token resolved before other calls ran resolves to the same record after them. */
  lemma {:induction false} ResolveStable(s: State, calls: seq<Call>, t: Token, kind: Kind)
    requires Resolve(s, t, kind).Ok?
    ensures Resolve(Run(s, calls), t, kind) == Resolve(s, t, kind)
    decreases |calls|
  {
    hide Apply;
    if calls != [] {
      CallOnlyAdds(s, calls[0]);
      ResolveStable(Apply(s, calls[0]).0, calls[1..], t, kind);
    }
  }

  // What each call answers, in the records' own fields

  /** The token names a record of this kind. */
  predicate Names(s: State, t: Token, kind: Kind) {
    t.kind == kind && t.index < |s.records| && KindOf(s.records[t.index]) == kind
  }

  /** The call issued this record under a new token, and changed nothing else of the registry. */
  predicate Issues(s: State, s2: State, r: Result<Token, Refusal>, record: Record) {
    r == Ok(Token(KindOf(record), |s.records|)) && s2.records == s.records + [record]
  }

  /** A token that names nothing of the kind, in the words of its failure. */
  predicate Unresolved(t: Token, kind: Kind, r: Result<Token, Refusal>) {
    r == Err(if t.kind != kind then SealedRecordRequired else CrossAuthorityRecord)
  }

  predicate MigrateTells(s: State, s2: State, t: Token, to: Policy, r: Result<Token, Refusal>) {
    if !Names(s, t, EvidenceKind) then Unresolved(t, EvidenceKind, r) && s2 == s
    else
      var evidence := s.records[t.index];
      if to == evidence.policy then r == Err(MigrationSameRevision) && s2 == s
      else if evidence.id in s.migrated then r == Err(MigrationAlreadyRecorded) && s2 == s
      else
        && Issues(s, s2, r, Migration(MigrationId(evidence.id), evidence.id))
        && evidence.id in s2.migrated && s2 == s.(records := s2.records, migrated := s.migrated + {evidence.id})
  }

  predicate BeginTells(s: State, s2: State, t: Token, r: Result<Token, Refusal>) {
    if !Names(s, t, ReviewKind) then Unresolved(t, ReviewKind, r) && s2 == s
    else
      var plan := s.records[t.index].plan;
      if plan in s.attempted then r == Err(DuplicateAttempt) && s2 == s
      else
        && s2.attempted == s.attempted + {plan} && |s2.records| == |s.records| + 1
        && var record := s2.records[|s.records|];
           && record.AttemptRecord? && Issues(s, s2, r, record)
           && var a := record.attempt;
              && a.planId == plan && a.generation == 0 && a.status == Started && a.previous == None
              && |a.states| == 4 && (forall i | 0 <= i < 4 :: a.states[i] == NotAttempted)
              && !a.reconciliation && a.result == None
              && s2.active == s.active[a.attemptId := a.recordId]
  }

  /** Why a source cannot be recorded on this record, in the order in which it is asked. */
  predicate SourceRefused(s: State, a: Attempt, source: nat, state: SourceState, error: Refusal) {
    match error
    case SourceNotInFixedSet => source >= 4
    case SourceStateInvalid => source < 4 && state == NotAttempted
    case RecordSuperseded =>
      source < 4 && state != NotAttempted && (a.attemptId !in s.active || s.active[a.attemptId] != a.recordId)
    case AttemptTerminal =>
      && source < 4 && state != NotAttempted && a.attemptId in s.active && s.active[a.attemptId] == a.recordId
      && a.status in {AttemptCompleted, AttemptFailed, AttemptInterrupted}
    case SourceAlreadyAttempted =>
      && source < |a.states| && state != NotAttempted && a.attemptId in s.active && s.active[a.attemptId] == a.recordId
      && a.status !in {AttemptCompleted, AttemptFailed, AttemptInterrupted} && a.states[source] != NotAttempted
    case _ => false
  }

  /** The record after a source ended: that source's state, the status it makes, and the record it supersedes. */
  predicate RecordsEnd(a: Attempt, b: Attempt, source: nat, state: SourceState)
    requires source < |a.states|
  {
    && |b.states| == |a.states| && b.states[source] == state
    && (forall i | 0 <= i < |a.states| && i != source :: b.states[i] == a.states[i])
    && (b.status == AttemptFailed <==> state == SourceFailed)
    && (b.status == AttemptInterrupted <==> state == SourceInterrupted)
    && (b.status == AttemptCompleted <==>
          state == SourceCompleted && forall i | 0 <= i < |a.states| && i != source :: a.states[i] == SourceCompleted)
    && b.status != Started
    && (b.reconciliation <==> state == SourceFailed || state == SourceInterrupted)
    && b.generation == a.generation + 1 && b.previous == Some(a.recordId)
    && b.attemptId == a.attemptId && b.planId == a.planId && b.result == None
  }

  predicate RecordTells(s: State, s2: State, t: Token, source: nat, state: SourceState, r: Result<Token, Refusal>) {
    if !Names(s, t, AttemptKind) then Unresolved(t, AttemptKind, r) && s2 == s
    else
      var a := s.records[t.index].attempt;
      if r.Err? then s2 == s && SourceRefused(s, a, source, state, r.error)
      else
        && source < |a.states| && |s2.records| == |s.records| + 1
        && (forall error :: !SourceRefused(s, a, source, state, error))
        && var record := s2.records[|s.records|];
           && record.AttemptRecord? && Issues(s, s2, r, record) && RecordsEnd(a, record.attempt, source, state)
           && s2 == s.(records := s2.records, active := s.active[a.attemptId := record.attempt.recordId])
  }

  lemma MigrateMeans(s: State, t: Token, to: Policy)
    ensures MigrateTells(s, MigrateSpec(s, t, to).0, t, to, MigrateSpec(s, t, to).1)
  {
  }

  lemma BeginMeans(s: State, t: Token)
    ensures BeginTells(s, BeginSpec(s, t).0, t, BeginSpec(s, t).1)
  {
  }

  lemma NextRecordsEnd(a: Attempt, source: nat, state: SourceState)
    requires source < |a.states| && state != NotAttempted
    ensures RecordsEnd(a, NextAttempt(a, source, state), source, state)
  {
    var states := a.states[source := state];
    assert forall i | 0 <= i < |a.states| && i != source :: states[i] == a.states[i];
    if AllCompleted(states) { assert states[source] == SourceCompleted; }
  }

  /** A refusal names its reason; an acceptance has none. */
  lemma RefusedFor(s: State, r: Record, source: nat, state: SourceState)
    requires r.AttemptRecord? && |r.attempt.states| == 4
    ensures var (s2, answer) := RecordSourceOn(s, r, source, state);
            if answer.Err? then s2 == s && SourceRefused(s, r.attempt, source, state, answer.error)
            else
              source < 4 && state != NotAttempted && forall error :: !SourceRefused(s, r.attempt, source, state, error)
  {
    hide NextAttempt;
  }

  lemma RecordedOn(s: State, r: Record, source: nat, state: SourceState)
    requires r.AttemptRecord? && |r.attempt.states| == 4 && RecordSourceOn(s, r, source, state).1.Ok?
    requires source < 4
    ensures var (s2, answer) := RecordSourceOn(s, r, source, state);
            var next := AttemptRecord(NextAttempt(r.attempt, source, state));
            && s2.records == s.records + [next] && Issues(s, s2, answer, next)
            && s2 == s.(records := s2.records, active := s.active[r.attempt.attemptId := next.attempt.recordId])
  {
    NextKeepsId(r.attempt, source, state);
    hide NextAttempt;
  }

  lemma AttemptHasFour(s: State, t: Token)
    requires Inv(s) && Names(s, t, AttemptKind)
    ensures s.records[t.index].AttemptRecord? && |s.records[t.index].attempt.states| == 4
  {
    var k := InChain(s.records, t.index);
    LinkedFacts(Chain(s.records), k);
    hide Chain, Linked;
  }

  lemma RecordMeans(s: State, t: Token, source: nat, state: SourceState)
    requires Inv(s)
    ensures RecordTells(s, RecordSourceSpec(s, t, source, state).0, t, source, state,
                        RecordSourceSpec(s, t, source, state).1)
  {
    hide Inv, NextAttempt, RecordsEnd, RecordSourceOn, SourceRefused, Issues;
    if Names(s, t, AttemptKind) {
      AttemptHasFour(s, t);
      var r := s.records[t.index];
      RefusedFor(s, r, source, state);
      if RecordSourceOn(s, r, source, state).1.Ok? {
        RecordedOn(s, r, source, state);
        NextRecordsEnd(r.attempt, source, state);
      }
    }
  }

  predicate PrepareTells(s: State, s2: State, t: Token, r: Result<Token, Refusal>) {
    if !Names(s, t, MigrationKind) then Unresolved(t, MigrationKind, r) && s2 == s
    else
      var migration := s.records[t.index].id;
      if migration in s.planned then r == Err(PlanAlreadyPrepared) && s2 == s
      else
        && Issues(s, s2, r, Plan(PlanId(migration), migration))
        && s2 == s.(records := s2.records, planned := s.planned + {migration})
  }

  predicate ReviewTells(s: State, s2: State, t: Token, r: Result<Token, Refusal>) {
    if !Names(s, t, PlanKind) then Unresolved(t, PlanKind, r) && s2 == s
    else
      var plan := s.records[t.index].id;
      if plan in s.reviewed then r == Err(ReviewAlreadyRecorded) && s2 == s
      else
        && Issues(s, s2, r, Review(ReviewId(plan), plan))
        && s2 == s.(records := s2.records, reviewed := s.reviewed + {plan})
  }

  lemma PrepareMeans(s: State, t: Token)
    ensures PrepareTells(s, PrepareSpec(s, t).0, t, PrepareSpec(s, t).1)
  {
  }

  lemma ReviewMeans(s: State, t: Token)
    ensures ReviewTells(s, ReviewSpec(s, t).0, t, ReviewSpec(s, t).1)
  {
  }

  /** A projection shows its record: the identifiers, and for an attempt its generation, its end and its sources. */
  predicate Shows(s: State, r: Record, p: Projection) {
    && p.kind == KindOf(r)
    && match r
       case Evidence(id, _, previous) => p.recordId == id && p.previous == previous
       case Migration(id, evidence) => p.recordId == id && p.previous == Some(evidence)
       case Plan(id, migration) => p.recordId == id && p.previous == Some(migration)
       case Review(id, plan) => p.recordId == id && p.previous == Some(plan)
       case AttemptRecord(a) =>
         && p.recordId == a.recordId && p.previous == a.previous && p.semantic == OfStatus(a.status)
         && (p.complete <==> a.status == AttemptCompleted) && p.generation == a.generation
         && (p.superseded <==> !(a.attemptId in s.active && s.active[a.attemptId] == a.recordId))
         && p.attempt == Some(AttemptFields(a.attemptId, a.planId, a.generation, StatesId(a.states)))
         && p.reconciliation == a.reconciliation && p.result == a.result
  }

  lemma ProjectionShows(s: State, r: Record)
    ensures Shows(s, r, ProjectionOf(s, r))
  {
  }
}
