/** The public recovery projection of a journal and the validator it must satisfy. */
module JournalProjection {
  import opened Prelude
  import opened JournalRecords
  import opened JournalGrammar
  import opened JournalBytes
  import opened JournalGuards

  datatype Durability = NotFound | Confirmed | Unknown

  datatype SourceView = SourceView(id: SourceId, ordinal: int, state: SourceState)

  datatype Projection = Projection(
    durableStateFound: bool,
    integrity: Integrity,
    durability: Durability,
    attemptState: AttemptState,
    recordCount: int,
    lastSequence: Option<int>,
    attemptGeneration: Option<int>,
    predicatePolicy: PredicatePolicy,
    sourceSetId: SourceSet,
    sourceOrderHash: Digest,
    sources: seq<SourceView>,
    evidenceCommitted: bool,
    finalized: bool,
    reconciliationRequired: bool,
    executionBlocked: bool,
    automaticResumeAllowed: bool,
    automaticRetryAllowed: bool,
    newHumanReviewRequired: bool,
    newPlanRequired: bool,
    manualInvestigationRequired: bool,
    retryCount: int,
    rawContentRetained: bool,
    liveActionEnabled: bool,
    readyToAct: bool,
    authorizedToAct: bool)

  datatype ProjectionError =
    | ClosedSourcesRequired
    | SourceOrderInvalid
    | CountInvalid
    | EmptyStateContradiction
    | AbsentDurabilityContradiction
    | CorruptStateContradiction
    | DurableStateContradiction
    | DurabilityStateContradiction
    | AuthorityProhibited
    | ExecutionMustRemainBlocked
    | PolicyInvalid
    | SourceSetInvalid
    | CorruptionBoundaryInvalid
    | DurabilityUnknownBoundaryInvalid
    | UnknownOutcomeBoundaryInvalid
    | FinalizationContradiction
    | EvidenceCommitContradiction
    | UnfinishedReconciliationRequired

  function When(condition: bool, error: ProjectionError): set<ProjectionError> {
    if condition then {error} else {}
  }

  predicate AllDurable(sources: seq<SourceView>) {
    forall view | view in sources :: view.state == ResultDurable
  }

  predicate AnyUnknown(sources: seq<SourceView>) {
    exists view | view in sources :: view.state == OutcomeUnknown
  }

  function CountErrors(p: Projection): set<ProjectionError> {
    if p.recordCount == 0 then
      When(p.lastSequence != None || p.attemptGeneration != None, EmptyStateContradiction)
      + (if p.integrity == Absent then
           When(p.durableStateFound || p.durability != NotFound, AbsentDurabilityContradiction)
         else When(!p.durableStateFound || p.durability == NotFound, CorruptStateContradiction))
    else if p.lastSequence != Some(p.recordCount - 1) || p.attemptGeneration != Some(0) || !p.durableStateFound then
      {DurableStateContradiction}
    else When(p.durability == NotFound, DurabilityStateContradiction)
  }

  /** Every error the validator reports. */
  function Errors(p: Projection): set<ProjectionError> {
    When(|p.sources| != 4, ClosedSourcesRequired)
    + When(
        |p.sources| == 4 && exists i | 0 <= i < 4 :: p.sources[i].id != SOURCES[i] || p.sources[i].ordinal != i,
        SourceOrderInvalid)
    + When(!(0 <= p.recordCount <= MAX_RECORDS), CountInvalid)
    + CountErrors(p)
    + When(p.automaticResumeAllowed || p.automaticRetryAllowed || p.rawContentRetained || p.liveActionEnabled
           || p.readyToAct || p.authorizedToAct, AuthorityProhibited)
    + When(!p.executionBlocked, ExecutionMustRemainBlocked)
    + When(p.retryCount != 0 || p.predicatePolicy != PredicatesV2, PolicyInvalid)
    + When(p.sourceSetId != FixedSourceSet || p.sourceOrderHash != SOURCE_ORDER_HASH, SourceSetInvalid)
    + When((p.integrity == Corrupt || p.integrity == TornTail)
           && !(p.manualInvestigationRequired && p.reconciliationRequired && p.executionBlocked),
           CorruptionBoundaryInvalid)
    + When(p.durability == Unknown
           && !(p.reconciliationRequired && p.manualInvestigationRequired && p.executionBlocked),
           DurabilityUnknownBoundaryInvalid)
    + When(AnyUnknown(p.sources)
           && !(p.reconciliationRequired && !p.automaticRetryAllowed && p.newHumanReviewRequired && p.newPlanRequired),
           UnknownOutcomeBoundaryInvalid)
    + When(p.finalized
           && !(p.evidenceCommitted && p.executionBlocked && p.attemptState == Finalized && AllDurable(p.sources)),
           FinalizationContradiction)
    + When(p.evidenceCommitted && !AllDurable(p.sources), EvidenceCommitContradiction)
    + When(p.attemptState != Finalized && !p.reconciliationRequired, UnfinishedReconciliationRequired)
  }

  /** How one source is shown: an open source counts as an unknown outcome. */
  function ShownState(rs: seq<Record>, k: nat): SourceState {
    match LastSourceState(rs, |rs|, k)
    case None => NotAttempted
    case Some(s) => if s == IntentDurable || s == RequestMayHaveStarted then OutcomeUnknown else s
  }

  function ShownSources(rs: seq<Record>): seq<SourceView> {
    [SourceView(SOURCES[0], 0, ShownState(rs, 0)), SourceView(SOURCES[1], 1, ShownState(rs, 1)),
     SourceView(SOURCES[2], 2, ShownState(rs, 2)), SourceView(SOURCES[3], 3, ShownState(rs, 3))]
  }

  function Project(i: Inspection, durabilityUnknown: bool): Projection {
    var rs := i.records;
    var sources := ShownSources(rs);
    var unknown := AnyUnknown(sources);
    var corrupt := i.integrity == Corrupt || i.integrity == TornTail;
    var final := rs != [] && rs[|rs| - 1].body.attemptState == Finalized;
    var newReview := durabilityUnknown || corrupt || unknown || i.integrity == Absent;
    Projection(
      i.integrity != Absent,
      i.integrity,
      if durabilityUnknown then Unknown else if i.integrity == Absent then NotFound else Confirmed,
      if durabilityUnknown || corrupt || unknown || rs == [] then ReconciliationRequired
      else rs[|rs| - 1].body.attemptState,
      |rs|,
      if rs == [] then None else Some(rs[|rs| - 1].body.sequence),
      if rs == [] then None else Some(0),
      PredicatesV2, FixedSourceSet, SOURCE_ORDER_HASH,
      sources,
      HasType(rs, |rs|, EvidenceCommit),
      final,
      newReview || (rs != [] && !final),
      true, false, false,
      newReview, newReview, durabilityUnknown || corrupt,
      0, false, false, false, false)
  }

  /** What the bytes on disk of an API-written journal, possibly cut short, can be read as. */
  ghost predicate ApiReading(i: Inspection) {
    match i.integrity
    case Absent => i.records == []
    case Valid => ApiJournal(i.records)
    case TornTail => i.records == [] || (ApiJournal(i.records) && StageOf(i.records) != Closed)
    case Corrupt => i.records == []
  }

  lemma EmptyShown()
    ensures forall k :: 0 <= k < 4 ==> ShownState([], k) == NotAttempted
  {
  }

  /** How source k is shown, by stage. */
  lemma ShownAt(rs: seq<Record>, k: nat)
    requires AllShaped(rs) && InGrammar(rs) && k < 4
    ensures ShownState(rs, k) == ResultDurable <==> k < Done(StageOf(rs))
    ensures ShownState(rs, k) == OutcomeUnknown <==> StageOf(rs) == Intended(k) || StageOf(rs) == Requested(k)
  {
    LongestAt(rs, |rs|);
    LastSourceFact(rs, |rs|, k);
    hide StageOf, LastSourceState, AllShaped;
  }

  /** The projected sources by stage. */
  lemma ShownByStage(rs: seq<Record>)
    requires AllShaped(rs) && InGrammar(rs)
    ensures AllDurable(ShownSources(rs)) <==> Done(StageOf(rs)) == 4
    ensures AnyUnknown(ShownSources(rs)) <==> StageOf(rs).Intended? || StageOf(rs).Requested?
  {
    LongestAt(rs, |rs|);
    ShownAt(rs, 0);
    ShownAt(rs, 1);
    ShownAt(rs, 2);
    ShownAt(rs, 3);
    var s := StageOf(rs);
    var views := ShownSources(rs);
    DoneAtMostFour(s);
    hide StageOf, ShownState, AllShaped, InGrammar, Done;
    assert views[0] in views && views[1] in views && views[2] in views && views[3] in views;
  }

  lemma DoneAtMostFour(s: Stage)
    requires InRange(s)
    ensures Done(s) <= 4 && (s.Intended? ==> s.ordinal < 4) && (s.Requested? ==> s.ordinal < 4)
  {
  }

  lemma LastSequence(rs: seq<Record>)
    requires Chained(rs) && rs != []
    ensures rs[|rs| - 1].body.sequence == |rs| - 1
  {
    assert Follows(rs[..|rs| - 1], rs[|rs| - 1]);
  }

  lemma EmptyViews()
    ensures !AnyUnknown(ShownSources([])) && !AllDurable(ShownSources([]))
  {
    EmptyShown();
    var views := ShownSources([]);
    assert views[0] in views;
  }

  lemma OrderedSources(rs: seq<Record>)
    ensures var sources := ShownSources(rs);
            |sources| == 4 && forall i | 0 <= i < 4 :: sources[i].id == SOURCES[i] && sources[i].ordinal == i
  {
    hide ShownState;
  }

  lemma EmptyErrors(i: Inspection, durabilityUnknown: bool)
    requires i.records == [] && i.integrity != Valid
    requires durabilityUnknown ==> i.integrity != Absent
    ensures Errors(Project(i, durabilityUnknown)) == {}
  {
    OrderedSources([]);
    EmptyViews();
    hide ShownSources, AnyUnknown, AllDurable;
  }

  lemma StageErrors(i: Inspection, durabilityUnknown: bool, s: Stage)
    requires var rs := i.records;
             && 0 < |rs| <= 17
             && rs[|rs| - 1].body.sequence == |rs| - 1
             && (HasType(rs, |rs|, EvidenceCommit) <==> s == Committed || s == Closed)
             && (rs[|rs| - 1].body.attemptState == Finalized <==> s == Closed)
             && (AllDurable(ShownSources(rs)) <==> Done(s) == 4)
             && (AnyUnknown(ShownSources(rs)) <==> s.Intended? || s.Requested?)
    requires InRange(s) && (i.integrity == Valid || (i.integrity == TornTail && s != Closed))
    ensures Errors(Project(i, durabilityUnknown)) ==
            if durabilityUnknown && s == Closed then {FinalizationContradiction} else {}
  {
    OrderedSources(i.records);
    hide ShownSources, AnyUnknown, AllDurable, HasType;
  }

  /**
    The projection `inspect` builds passes the validator for every reading of an API-written journal,
    except that a finalized attempt whose durability is unknown is reported as a finalization contradiction.
   */
  lemma ProjectionErrors(i: Inspection, durabilityUnknown: bool)
    requires ApiReading(i)
    requires durabilityUnknown ==> i.integrity != Absent
    ensures Errors(Project(i, durabilityUnknown)) ==
            if durabilityUnknown && StageOf(i.records) == Closed then {FinalizationContradiction} else {}
  {
    hide Errors, Project, ShownSources, AnyUnknown, AllDurable, StateAllowed;
    var rs := i.records;
    if rs == [] {
      EmptyErrors(i, durabilityUnknown);
    } else {
      ShownByStage(rs);
      TypeFacts(rs, |rs|);
      LastStateFacts(rs);
      AtMostSeventeen(rs);
      LastSequence(rs);
      StageErrors(i, durabilityUnknown, StageOf(rs));
    }
  }

  /** An API-written journal cut at any byte still projects without error. */
  lemma CutJournalProjects(c: Codec, rs: seq<Record>, n: nat)
    requires Lawful(c) && ApiJournal(rs) && n <= |EncodeAll(c, rs)|
    ensures Errors(Project(Inspect(c, EncodeAll(c, rs)[..n]), false)) == {}
  {
    hide Errors, Project;
    var k := CompleteWithin(c, rs, n);
    CutJournalReads(c, rs, n);
    ChainedPrefix(rs, k);
    StagePrefix(rs, k);
    var i := Inspect(c, EncodeAll(c, rs)[..n]);
    if i.integrity == TornTail { CutNotClosed(c, rs, n); }
    if i.integrity == Valid { assert EncodeAll(c, rs[..k]) != []; }
    ProjectionErrors(i, false);
  }

  lemma CutNotClosed(c: Codec, rs: seq<Record>, n: nat)
    requires Lawful(c) && StageOf(rs) != Broken && n <= |EncodeAll(c, rs)|
    requires var k := CompleteWithin(c, rs, n); EncodeAll(c, rs)[..n] != EncodeAll(c, rs[..k])
    ensures StageOf(rs[..CompleteWithin(c, rs, n)]) != Closed
  {
    var k := CompleteWithin(c, rs, n);
    if k == |rs| {
      assert rs[..k] == rs;
      WholeFits(c, rs, n);
      assert false;
    }
    StageAtAgrees(rs, rs[..k], k);
    if StageAt(rs, k) == Closed {
      assert StageAt(rs, k + 1) == Broken;
      BrokenStays(rs, k + 1, |rs|);
    }
  }

  lemma {:induction false} WholeFits(c: Codec, rs: seq<Record>, n: nat)
    requires CompleteWithin(c, rs, n) == |rs|
    ensures n >= |EncodeAll(c, rs)|
  {
    if rs != [] { WholeFits(c, rs[1..], n - |c.encode(rs[0])| - 1); }
  }

  // What the projection shows

  /** The state of the last record, by stage. */
  function StateAtStage(s: Stage): AttemptState {
    match s
    case Planned => Prepared
    case Permitted => Prepared
    case Ready(k) => if k == 0 then IntentDurableAttempt else if k == 4 then ResultsComplete else InProgress
    case Intended(_) => InProgress
    case Requested(_) => InProgress
    case Committed => EvidenceCommitted
    case Closed => Finalized
    case _ => ReconciliationRequired
  }

  /** A durable result is shown as such, a source that was opened as an unknown outcome, any other as untouched. */
  predicate TellsSources(views: seq<SourceView>, s: Stage) {
    && |views| == 4
    && forall k | 0 <= k < 4 ::
         views[k] == SourceView(
           SOURCES[k], k,
           if k < Done(s) then ResultDurable
           else if s == Intended(k) || s == Requested(k) then OutcomeUnknown
           else NotAttempted)
  }

  /** A projection tells the reading, the durability and the stage, and asks for people exactly where it is in doubt. */
  predicate Tells(p: Projection, i: Inspection, durabilityUnknown: bool, s: Stage) {
    var doubt := durabilityUnknown || i.integrity == Corrupt || i.integrity == TornTail;
    var open := s.Intended? || s.Requested?;
    && p.integrity == i.integrity && (p.durableStateFound <==> i.integrity != Absent)
    && p.durability ==
       (if durabilityUnknown then Unknown else if i.integrity == Absent then NotFound else Confirmed)
    && p.recordCount == |i.records|
    && p.lastSequence == (if i.records == [] then None else Some(|i.records| - 1))
    && p.attemptGeneration == (if i.records == [] then None else Some(0))
    && TellsSources(p.sources, s)
    && (p.evidenceCommitted <==> s == Committed || s == Closed) && (p.finalized <==> s == Closed)
    && p.attemptState == (if doubt || open then ReconciliationRequired else StateAtStage(s))
    && (p.reconciliationRequired <==> doubt || s != Closed)
    && (p.newHumanReviewRequired <==> doubt || open || i.integrity == Absent)
    && (p.newPlanRequired <==> p.newHumanReviewRequired) && (p.manualInvestigationRequired <==> doubt)
    && p.executionBlocked && !p.automaticResumeAllowed && !p.automaticRetryAllowed && p.retryCount == 0
    && !p.readyToAct && !p.authorizedToAct && !p.liveActionEnabled && !p.rawContentRetained
  }

  lemma LastStateByStage(rs: seq<Record>)
    requires AllShaped(rs) && InGrammar(rs)
    ensures rs[|rs| - 1].body.attemptState == StateAtStage(StageOf(rs))
  {
    var before, b := StageAt(rs, |rs| - 1), rs[|rs| - 1].body;
    assert StageOf(rs) == NextStage(before, b) && ApiShaped(b);
    LongestAt(rs, |rs| - 1);
    StateAfter(before, b);
    hide StageAt, AllShaped, NextStage, StateAtStage, ApiShaped;
  }

  lemma StateAfter(s: Stage, b: Body)
    requires StateAllowed(b.recordType, b.attemptState) && NextStage(s, b) != Broken && InRange(s)
    ensures b.attemptState == StateAtStage(NextStage(s, b))
  {
  }

  lemma SourcesTold(rs: seq<Record>, s: Stage)
    requires rs == [] || (AllShaped(rs) && InGrammar(rs))
    requires s == StageOf(rs)
    ensures TellsSources(ShownSources(rs), s)
  {
    if rs == [] {
      EmptyShown();
    } else {
      LongestAt(rs, |rs|);
      forall k: nat | k < 4
        ensures ShownState(rs, k) == if k < Done(s) then ResultDurable
                                     else if s == Intended(k) || s == Requested(k) then OutcomeUnknown
                                     else NotAttempted
      {
        LastSourceFact(rs, |rs|, k);
      }
      hide ShownState, StageOf, AllShaped, InGrammar;
    }
  }

  /** Field by field, what `inspect` shows of every reading of an API-written journal. */
  lemma ProjectionTells(i: Inspection, durabilityUnknown: bool)
    requires ApiReading(i)
    ensures Tells(Project(i, durabilityUnknown), i, durabilityUnknown, StageOf(i.records))
  {
    var rs := i.records;
    assert i.integrity == Valid ==> rs != [];
    hide StageOf, ShownSources, AnyUnknown, TellsSources, HasType, StateAtStage, Done, AllShaped, InGrammar, Chained;
    SourcesTold(rs, StageOf(rs));
    if rs == [] {
      NothingTold();
    } else {
      WholeStage(rs);
      ShownByStage(rs);
      TypeFacts(rs, |rs|);
      LastStateFacts(rs);
      LastStateByStage(rs);
      LastSequence(rs);
    }
    FieldsTell(i, durabilityUnknown, StageOf(rs));
  }

  lemma NothingTold()
    ensures StageOf([]) == Empty && !AnyUnknown(ShownSources([])) && !HasType([], 0, EvidenceCommit)
    ensures StateAtStage(Empty) == ReconciliationRequired
  {
    EmptyViews();
  }

  lemma WholeStage(rs: seq<Record>)
    requires InGrammar(rs)
    ensures StageAt(rs, |rs|) == StageOf(rs) && StageOf(rs) != Broken && StageOf(rs) != Empty
  {
    NeverEmptyAgain(rs);
  }

  /** The same, from what is known of the records. */
  lemma FieldsTell(i: Inspection, durabilityUnknown: bool, s: Stage)
    requires (i.integrity == Absent ==> i.records == []) && (i.integrity == Valid ==> i.records != [])
    requires if i.records == [] then s == Empty && StateAtStage(s) == ReconciliationRequired
             else i.records[|i.records| - 1].body.attemptState == StateAtStage(s)
                  && i.records[|i.records| - 1].body.sequence == |i.records| - 1
                  && (StateAtStage(s) == Finalized <==> s == Closed)
    requires TellsSources(ShownSources(i.records), s)
    requires HasType(i.records, |i.records|, EvidenceCommit) <==> s == Committed || s == Closed
    requires AnyUnknown(ShownSources(i.records)) <==> s.Intended? || s.Requested?
    ensures Tells(Project(i, durabilityUnknown), i, durabilityUnknown, s)
  {
    hide ShownSources, AnyUnknown, TellsSources, HasType, StateAtStage, Done;
  }

  // What the validator accepts

  /** A projection without contradiction: nothing is allowed to act, doubt asks for people, and an end is an end. */
  predicate Sound(p: Projection) {
    && |p.sources| == 4 && (forall i | 0 <= i < 4 :: p.sources[i].id == SOURCES[i] && p.sources[i].ordinal == i)
    && 0 <= p.recordCount <= 256
    && (if p.recordCount == 0 then
          && p.lastSequence == None && p.attemptGeneration == None
          && (p.durableStateFound <==> p.integrity != Absent) && (p.durability == NotFound <==> p.integrity == Absent)
        else
          && p.lastSequence == Some(p.recordCount - 1) && p.attemptGeneration == Some(0)
          && p.durableStateFound && p.durability != NotFound)
    && !p.automaticResumeAllowed && !p.automaticRetryAllowed && !p.rawContentRetained && !p.liveActionEnabled
    && !p.readyToAct && !p.authorizedToAct && p.executionBlocked && p.retryCount == 0
    && p.predicatePolicy == PredicatesV2 && p.sourceSetId == FixedSourceSet && p.sourceOrderHash == SOURCE_ORDER_HASH
    && (p.integrity == Corrupt || p.integrity == TornTail || p.durability == Unknown ==>
          p.manualInvestigationRequired && p.reconciliationRequired)
    && ((exists i | 0 <= i < 4 :: p.sources[i].state == OutcomeUnknown) ==>
          p.reconciliationRequired && p.newHumanReviewRequired && p.newPlanRequired)
    && (p.evidenceCommitted ==> forall i | 0 <= i < 4 :: p.sources[i].state == ResultDurable)
    && (p.finalized ==> p.evidenceCommitted && p.attemptState == Finalized)
    && (p.attemptState != Finalized ==> p.reconciliationRequired)
  }

  lemma ViewsByIndex(sources: seq<SourceView>)
    requires |sources| == 4
    ensures AllDurable(sources) <==> forall i | 0 <= i < 4 :: sources[i].state == ResultDurable
    ensures AnyUnknown(sources) <==> exists i | 0 <= i < 4 :: sources[i].state == OutcomeUnknown
  {
    assert forall i | 0 <= i < 4 :: sources[i] in sources;
  }

  lemma CountsSound(p: Projection)
    ensures CountErrors(p) == {} <==>
            if p.recordCount == 0 then
              && p.lastSequence == None && p.attemptGeneration == None
              && (p.durableStateFound <==> p.integrity != Absent)
              && (p.durability == NotFound <==> p.integrity == Absent)
            else
              && p.lastSequence == Some(p.recordCount - 1) && p.attemptGeneration == Some(0)
              && p.durableStateFound && p.durability != NotFound
  {
  }

  /** The validator reports nothing exactly for such a projection. */
  lemma NoErrorsIff(p: Projection)
    ensures Errors(p) == {} <==> Sound(p)
  {
    CountsSound(p);
    if |p.sources| == 4 { ViewsByIndex(p.sources); }
    hide CountErrors, AllDurable, AnyUnknown;
  }
}
