/** What a log that reaches completion looks like, event by event. */
module CollaborationRuns {
  import opened Prelude
  import opened Collaboration

  const ORDER: seq<Kind> := [
    Discover, ApproveClaim, RecordClaim, ApproveHandoff, RecordHandoff, RecordAck, ApproveCompletion, RecordCompletion]

  const PHASES: seq<Phase> := [
    Discovered, ClaimApproved, Claimed, HandoffApproved, HandedOff, Acknowledged, CompletionApproved, Completed]

  /** An identified human approved exactly this kind of event on exactly this subject. */
  predicate ApprovedExactly(c: Context, e: Event) {
    && e.approval.Some?
    && !c.blank(e.approval.value.reviewer) && !c.blank(e.approval.value.approvedAt)
    && e.approval.value.purpose == e.kind && e.approval.value.subject == OfSubject(e.subject)
  }

  /** A verified signature covers exactly this case, kind, key and subject. */
  predicate SignedExactly(c: Context, e: Event) {
    && e.key.Some? && e.key.value != ""
    && e.evidence.Some? && c.verify(e.evidence.value)
    && e.evidence.value.payload == Payload(e.caseId, e.kind, e.key.value, OfSubject(e.subject))
  }

  predicate KeyUnused(events: seq<Event>, i: nat)
    requires i < |events|
  {
    forall j | 0 <= j < i :: events[j].key != events[i].key
  }

  /** Event i of a run that went straight through the phases. */
  predicate InOrder(c: Context, caseId: string, events: seq<Event>, i: nat)
    requires i < |events| && i < 8
  {
    var e := events[i];
    && e.kind == ORDER[i] && e.schema == c.schema && e.caseId == caseId && ProvenanceOk(c, e.provenance)
    && e.sequence == i + 1
    && e.previous == (if i == 0 then None else Some(OfEvent(events[i - 1])))
    && (i > 0 ==> e.subject.task == Some(OfSubject(events[0].subject)))
    && (i in {1, 3, 6} ==> ApprovedExactly(c, e))
    && (i in {2, 4, 5, 7} ==> SignedExactly(c, e) && KeyUnused(events, i))
  }

  predicate StraightRun(c: Context, caseId: string, events: seq<Event>, n: nat) {
    n <= 8 && |events| == n && forall i | 0 <= i < n :: InOrder(c, caseId, events, i)
  }

  predicate Carried(events: seq<Event>, key: string) {
    exists j | 0 <= j < |events| :: events[j].key == Some(key)
  }

  lemma CarriedByLonger(front: seq<Event>, e: Event, key: string)
    ensures Carried(front + [e], key) <==> Carried(front, key) || e.key == Some(key)
  {
    var all := front + [e];
    assert all[|front|] == e;
    if j :| 0 <= j < |front| && front[j].key == Some(key) {
      assert all[j].key == Some(key);
    }
  }

  lemma {:induction false} InKeys(events: seq<Event>, key: string)
    ensures key in Keys(events) <==> key != "" && Carried(events, key)
  {
    if events != [] {
      var front, e := events[..|events| - 1], events[|events| - 1];
      assert events == front + [e];
      InKeys(front, key);
      CarriedByLonger(front, e, key);
      hide Carried;
    }
  }

  lemma ApprovalMeansExactly(c: Context, e: Event)
    ensures CheckApproval(c, e) == None <==> ApprovedExactly(c, e)
  {
  }

  lemma UnusedMeansNotCarried(events: seq<Event>, e: Event)
    requires e.key.Some?
    ensures KeyUnused(events + [e], |events|) <==> !Carried(events, e.key.value)
  {
    var all := events + [e];
    assert all[|events|] == e && forall j | 0 <= j < |events| :: all[j] == events[j];
  }

  lemma EvidenceMeansExactly(c: Context, events: seq<Event>, e: Event)
    ensures CheckEvidence(c, Keys(events), e) == None <==> SignedExactly(c, e) && KeyUnused(events + [e], |events|)
  {
    if e.key.Some? {
      InKeys(events, e.key.value);
      UnusedMeansNotCarried(events, e);
    }
    hide Keys, KeyUnused, Carried;
  }

  /** A phase of the straight path is reached from the one before it, by the event in between. */
  lemma OnlyFromBefore(phase: Option<Phase>, k: Kind, n: nat)
    requires n < 8
    ensures NextPhase(phase, k) == Ok(PHASES[n]) <==>
            k == ORDER[n] && phase == if n == 0 then None else Some(PHASES[n - 1])
  {
  }

  /** The last event of a log is accepted into phase n exactly when it is in order after a straight run. */
  lemma LastInOrder(c: Context, caseId: string, front: seq<Event>, e: Event, n: nat)
    requires n < 8 && |front| == n && Replay(c, caseId, front).Ok?
    requires Replay(c, caseId, front).value.phase == if n == 0 then None else Some(PHASES[n - 1])
    ensures var after := Apply(c, Replay(c, caseId, front).value, e);
            after.Ok? && after.value.phase == Some(PHASES[n]) <==> InOrder(c, caseId, front + [e], n)
  {
    var s := Replay(c, caseId, front).value;
    var all := front + [e];
    StateOfLog(c, caseId, front);
    ApprovalMeansExactly(c, e);
    EvidenceMeansExactly(c, front, e);
    OnlyFromBefore(s.phase, e.kind, n);
    assert all[n] == e && (n > 0 ==> all[n - 1] == front[n - 1] && all[0] == front[0]);
    ApprovalAndSigned(n);
    hide Replay, ProvenanceOk, CheckApproval, CheckEvidence, ApprovedExactly, SignedExactly, KeyUnused, NextPhase;
  }

  lemma ApprovalAndSigned(n: nat)
    requires n < 8
    ensures IsApproval(ORDER[n]) <==> n in {1, 3, 6}
    ensures IsSigned(ORDER[n]) <==> n in {2, 4, 5, 7}
    ensures ORDER[n] == Discover <==> n == 0
    ensures !ORDER[n].UnknownKind?
  {
  }

  lemma AppliedFrom(c: Context, s: State, e: Event, n: nat)
    requires n < 8
    ensures var after := Apply(c, s, e);
            after.Ok? && after.value.phase == Some(PHASES[n]) ==>
              s.phase == if n == 0 then None else Some(PHASES[n - 1])
  {
    OnlyFromBefore(s.phase, e.kind, n);
    hide ProvenanceOk, CheckApproval, CheckEvidence, NextPhase;
  }

  lemma ReplayFront(c: Context, caseId: string, front: seq<Event>, e: Event)
    ensures Replay(c, caseId, front + [e]) ==
            match Replay(c, caseId, front)
            case Err(refusal) => Err(refusal)
            case Ok(state) => Apply(c, state, e)
  {
    assert (front + [e])[..|front|] == front;
    hide Apply;
  }

  /** Only the empty log is in no phase. */
  lemma NoPhaseIff(c: Context, caseId: string, events: seq<Event>)
    ensures Replay(c, caseId, events).Ok? && Replay(c, caseId, events).value.phase == None <==> events == []
  {
    if Replay(c, caseId, events).Ok? { StateOfLog(c, caseId, events); }
  }

  lemma StraightLength(c: Context, caseId: string, events: seq<Event>, n: nat)
    ensures StraightRun(c, caseId, events, n) ==> |events| == n
    ensures StraightRun(c, caseId, events, 0) <==> events == []
  {
    hide InOrder;
  }

  /** A log is in a phase of the straight path exactly when it is a straight run of that length. */
  lemma {:induction false} PhaseIffStraight(c: Context, caseId: string, events: seq<Event>, n: nat)
    requires n < 8
    ensures Replay(c, caseId, events).Ok? && Replay(c, caseId, events).value.phase == Some(PHASES[n]) <==>
            StraightRun(c, caseId, events, n + 1)
  {
    if events == [] {
      NoPhaseIff(c, caseId, events);
      StraightLength(c, caseId, events, n + 1);
    } else {
      hide Apply, InOrder, StraightRun, Replay;
      var front, e := events[..|events| - 1], events[|events| - 1];
      assert events == front + [e];
      ReplayFront(c, caseId, front, e);
      PrefixStraight(c, caseId, front, e, n);
      StraightLength(c, caseId, front, n);
      if n == 0 { NoPhaseIff(c, caseId, front); } else { PhaseIffStraight(c, caseId, front, n - 1); }
      if Replay(c, caseId, front).Ok? { AppliedFrom(c, Replay(c, caseId, front).value, e, n); }
      if StraightRun(c, caseId, front, n) { LastInOrder(c, caseId, front, e, n); }
    }
  }

  lemma PrefixStraight(c: Context, caseId: string, front: seq<Event>, e: Event, n: nat)
    requires n < 8
    ensures StraightRun(c, caseId, front + [e], n + 1) <==>
            StraightRun(c, caseId, front, n) && InOrder(c, caseId, front + [e], n)
  {
    var all := front + [e];
    if |front| == n {
      forall i | 0 <= i < n
        ensures InOrder(c, caseId, all, i) <==> InOrder(c, caseId, front, i)
      {
        assert forall j | 0 <= j <= i :: all[j] == front[j];
      }
    }
  }

  /** A log reaches completion exactly when it is the eight events in order: one task, three approvals bound to
      their own event and subject, and four signed events whose keys no earlier event carried. */
  lemma CompletedIff(c: Context, caseId: string, events: seq<Event>)
    ensures Replay(c, caseId, events).Ok? && Replay(c, caseId, events).value.phase == Some(Completed) <==>
            StraightRun(c, caseId, events, 8)
  {
    PhaseIffStraight(c, caseId, events, 7);
  }

  // Recovery, and every accepted log

  /** A recovery event in its place: of this case, next in the chain, and bound to the discovered task. */
  predicate RecoveryInOrder(c: Context, caseId: string, events: seq<Event>, i: nat)
    requires 0 < i < |events|
  {
    var e := events[i];
    && e.kind == RequireRecovery && e.schema == c.schema && e.caseId == caseId && ProvenanceOk(c, e.provenance)
    && e.sequence == i + 1 && e.previous == Some(OfEvent(events[i - 1]))
    && e.subject.task == Some(OfSubject(events[0].subject))
  }

  /** A straight run of n events, begun and not completed, and then recovery events only. */
  predicate RecoveredRun(c: Context, caseId: string, events: seq<Event>, n: nat) {
    && 1 <= n <= 7 && n < |events| && StraightRun(c, caseId, events[..n], n)
    && forall i | n <= i < |events| :: RecoveryInOrder(c, caseId, events, i)
  }

  /** An event is accepted into recovery exactly when it is in order and the case has begun and is not completed. */
  lemma AppliedToRecovery(c: Context, caseId: string, front: seq<Event>, e: Event)
    requires front != [] && Replay(c, caseId, front).Ok?
    ensures var s := Replay(c, caseId, front).value;
            var after := Apply(c, s, e);
            after.Ok? && after.value.phase == Some(RecoveryRequired) <==>
            s.phase != Some(Completed) && RecoveryInOrder(c, caseId, front + [e], |front|)
  {
    StateOfLog(c, caseId, front);
    IntoRecovery(Replay(c, caseId, front).value.phase, e.kind);
    var all := front + [e];
    assert all[|front|] == e && all[|front| - 1] == front[|front| - 1] && all[0] == front[0];
    hide Replay, ProvenanceOk, CheckApproval, CheckEvidence, NextPhase, Keys;
  }

  lemma IntoRecovery(phase: Option<Phase>, k: Kind)
    requires phase != None
    ensures NextPhase(phase, k) == Ok(RecoveryRequired) <==> k == RequireRecovery && phase != Some(Completed)
    ensures k == RequireRecovery ==> !IsApproval(k) && !IsSigned(k) && !k.UnknownKind? && k != Discover
  {
  }

  lemma RecoveredFront(c: Context, caseId: string, front: seq<Event>, e: Event, n: nat)
    ensures RecoveredRun(c, caseId, front + [e], n) <==>
            && front != [] && RecoveryInOrder(c, caseId, front + [e], |front|)
            && (RecoveredRun(c, caseId, front, n)
                || (1 <= n <= 7 && n == |front| && StraightRun(c, caseId, front, n)))
  {
    var all := front + [e];
    if n <= |front| {
      assert all[..n] == front[..n];
      if n == |front| { assert front[..n] == front; }
      forall i | n <= i < |front| && i > 0
        ensures RecoveryInOrder(c, caseId, all, i) <==> RecoveryInOrder(c, caseId, front, i)
      {
        assert all[i] == front[i] && all[i - 1] == front[i - 1] && all[0] == front[0];
      }
    }
    hide StraightRun, RecoveryInOrder;
  }

  lemma SomeStraightPhase(phase: Phase) returns (n: nat)
    ensures n < 8
    ensures phase != RecoveryRequired ==> PHASES[n] == phase && (phase != Completed ==> n < 7)
  {
    n := match phase
      case Discovered => 0
      case ClaimApproved => 1
      case Claimed => 2
      case HandoffApproved => 3
      case HandedOff => 4
      case Acknowledged => 5
      case CompletionApproved => 6
      case _ => 7;
  }

  lemma PhasesStraight(n: nat)
    requires n < 8
    ensures PHASES[n] != RecoveryRequired && (PHASES[n] == Completed <==> n == 7)
  {
  }

  /** A log is in recovery exactly when it is a straight run that was begun and not completed, and then recoveries. */
  lemma {:induction false} RecoveryIff(c: Context, caseId: string, events: seq<Event>)
    ensures Replay(c, caseId, events).Ok? && Replay(c, caseId, events).value.phase == Some(RecoveryRequired) <==>
            exists n :: RecoveredRun(c, caseId, events, n)
  {
    if events == [] {
      NoPhaseIff(c, caseId, events);
    } else {
      hide Apply, Replay, StraightRun, RecoveredRun, RecoveryInOrder;
      var front, e := events[..|events| - 1], events[|events| - 1];
      assert events == front + [e];
      ReplayFront(c, caseId, front, e);
      RecoveryIff(c, caseId, front);
      if Replay(c, caseId, front).Ok? && front != [] {
        AppliedToRecovery(c, caseId, front, e);
        FromAccepted(c, caseId, front, e);
      } else if front == [] {
        NoPhaseIff(c, caseId, front);
        FirstIsNoRecovery(c, Replay(c, caseId, front).value, e);
      }
      if n :| RecoveredRun(c, caseId, events, n) { ToAccepted(c, caseId, front, e, n); }
    }
  }

  lemma FirstIsNoRecovery(c: Context, s: State, e: Event)
    requires s.phase == None
    ensures !(Apply(c, s, e).Ok? && Apply(c, s, e).value.phase == Some(RecoveryRequired))
  {
    hide ProvenanceOk, CheckApproval, CheckEvidence;
  }

  /** From the accepted front to the run it is. */
  lemma FromAccepted(c: Context, caseId: string, front: seq<Event>, e: Event)
    requires front != [] && Replay(c, caseId, front).Ok? && RecoveryInOrder(c, caseId, front + [e], |front|) ==>
               (Replay(c, caseId, front).value.phase == Some(RecoveryRequired) ==>
                  exists n :: RecoveredRun(c, caseId, front, n))
    requires front != [] && Replay(c, caseId, front).Ok?
    ensures RecoveryInOrder(c, caseId, front + [e], |front|)
            && Replay(c, caseId, front).value.phase != Some(Completed)
            ==>
              exists n :: RecoveredRun(c, caseId, front + [e], n)
  {
    hide Apply, Replay, StraightRun, RecoveredRun, RecoveryInOrder;
    NoPhaseIff(c, caseId, front);
    var phase := Replay(c, caseId, front).value.phase;
    if RecoveryInOrder(c, caseId, front + [e], |front|) && phase != Some(Completed) {
      if phase == Some(RecoveryRequired) {
        var n :| RecoveredRun(c, caseId, front, n);
        RecoveredFront(c, caseId, front, e, n);
      } else {
        var n := SomeStraightPhase(phase.value);
        PhaseIffStraight(c, caseId, front, n);
        StraightLength(c, caseId, front, n + 1);
        RecoveredFront(c, caseId, front, e, n + 1);
      }
    }
  }

  /** From the run back to what its front is. */
  lemma ToAccepted(c: Context, caseId: string, front: seq<Event>, e: Event, n: nat)
    requires RecoveredRun(c, caseId, front + [e], n)
    requires (exists m :: RecoveredRun(c, caseId, front, m)) ==>
               Replay(c, caseId, front).Ok? && Replay(c, caseId, front).value.phase == Some(RecoveryRequired)
    ensures front != [] && RecoveryInOrder(c, caseId, front + [e], |front|)
    ensures Replay(c, caseId, front).Ok? && Replay(c, caseId, front).value.phase != Some(Completed)
  {
    hide Apply, Replay, StraightRun, RecoveredRun, RecoveryInOrder;
    RecoveredFront(c, caseId, front, e, n);
    if !RecoveredRun(c, caseId, front, n) {
      PhasesStraight(n - 1);
      PhaseIffStraight(c, caseId, front, n - 1);
    }
  }

  /**
    Which logs are accepted: the straight path up to some event, each in order, or such a run, begun and not
    completed, followed by recovery events.
   */
  lemma AcceptedIff(c: Context, caseId: string, events: seq<Event>)
    ensures Replay(c, caseId, events).Ok? <==>
            StraightRun(c, caseId, events, |events|) || exists n :: RecoveredRun(c, caseId, events, n)
  {
    RecoveryIff(c, caseId, events);
    NoPhaseIff(c, caseId, events);
    StraightLength(c, caseId, events, 0);
    StraightAtMost(c, caseId, events);
    hide Replay, StraightRun, RecoveredRun;
    if events != [] {
      var n := |events| - 1;
      if n < 8 { PhaseIffStraight(c, caseId, events, n); }
      if Replay(c, caseId, events).Ok? && Replay(c, caseId, events).value.phase != Some(RecoveryRequired) {
        var m := SomeStraightPhase(Replay(c, caseId, events).value.phase.value);
        PhaseIffStraight(c, caseId, events, m);
        StraightLength(c, caseId, events, m + 1);
      }
    }
  }

  lemma StraightAtMost(c: Context, caseId: string, events: seq<Event>)
    ensures StraightRun(c, caseId, events, |events|) ==> |events| <= 8
  {
  }

  /** What is wrong with a refused event. */
  predicate Explains(c: Context, s: State, e: Event, refusal: Refusal) {
    match refusal
    case BadProvenance => !ProvenanceOk(c, e.provenance)
    case SchemaOrCase => e.schema != c.schema || e.caseId != s.caseId
    case OutOfOrder => e.sequence != s.next || e.previous != s.head
    case UnknownEvent => e.kind.UnknownKind?
    case ApprovalMissing => e.kind in {ApproveClaim, ApproveHandoff, ApproveCompletion} && e.approval == None
    case ApprovalUnidentified =>
      e.approval.Some? && (c.blank(e.approval.value.reviewer) || c.blank(e.approval.value.approvedAt))
    case ApprovalUnbound =>
      e.approval.Some? && (e.approval.value.purpose != e.kind || e.approval.value.subject != OfSubject(e.subject))
    case KeyNotFresh => e.key.None? || e.key.value == "" || e.key.value in s.seen
    case EvidenceMissing =>
      e.kind in {RecordClaim, RecordHandoff, RecordAck, RecordCompletion} && e.evidence == None
    case EvidenceUnbound =>
      e.key.Some? && e.evidence.Some?
      && e.evidence.value.payload != Payload(e.caseId, e.kind, e.key.value, OfSubject(e.subject))
    case SignatureInvalid => e.evidence.Some? && !c.verify(e.evidence.value)
    case RecoveryNotValid => e.kind == RequireRecovery && s.phase in {None, Some(Completed)}
    case TransitionNotAllowed =>
      e.kind != RequireRecovery && forall n | 0 <= n < 8 && e.kind == ORDER[n] ::
        s.phase != if n == 0 then None else Some(PHASES[n - 1])
    case TaskUnbound => e.kind != Discover && (s.task == None || e.subject.task != s.task)
  }

  lemma NotAllowed(phase: Option<Phase>, k: Kind)
    requires NextPhase(phase, k) == Err(TransitionNotAllowed)
    ensures k != RequireRecovery
    ensures forall n | 0 <= n < 8 && k == ORDER[n] :: phase != if n == 0 then None else Some(PHASES[n - 1])
  {
    forall n: nat | n < 8 && k == ORDER[n]
      ensures phase != if n == 0 then None else Some(PHASES[n - 1])
    {
      OnlyFromBefore(phase, k, n);
    }
  }

  lemma NextPhaseErrors(phase: Option<Phase>, k: Kind)
    requires NextPhase(phase, k).Err?
    ensures NextPhase(phase, k).error in {RecoveryNotValid, TransitionNotAllowed}
    ensures NextPhase(phase, k) == Err(RecoveryNotValid) ==> k == RequireRecovery && phase in {None, Some(Completed)}
  {
  }

  /** Every refusal names something that is wrong with the event. */
  lemma RefusalExplains(c: Context, s: State, e: Event)
    requires Apply(c, s, e).Err?
    ensures Explains(c, s, e, Apply(c, s, e).error)
  {
    if NextPhase(s.phase, e.kind).Err? {
      NextPhaseErrors(s.phase, e.kind);
      if NextPhase(s.phase, e.kind) == Err(TransitionNotAllowed) { NotAllowed(s.phase, e.kind); }
    }
    hide NextPhase, ProvenanceOk, ORDER, PHASES;
  }
}
