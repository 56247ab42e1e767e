/**
  The collaboration log: each accepted event extends a hash chain, and the phase, the task and the idempotency
  keys are what the chain makes them. Digests are symbolic, so they are injective; a text that is no digest of
  anything is a value of its own. Signature verification is an arbitrary predicate.
 */
module Collaboration {
  import opened Prelude

  datatype Digest = OfEvent(event: Event) | OfSubject(subject: Subject) | Text(text: string)

  datatype Kind =
    | Discover | ApproveClaim | RecordClaim | ApproveHandoff | RecordHandoff | RecordAck | ApproveCompletion
    | RecordCompletion | RequireRecovery | UnknownKind(name: string)

  /** What is acted on; every subject after the first names the task. */
  datatype Subject = Subject(task: Option<Digest>, rest: string)

  datatype TrustClass = Confirmed | OfficialDraft | Community | Inference | UnknownClass(name: string)

  datatype Provenance = Provenance(sourceId: string, locator: string, observedAt: string, content: string,
                                   class_: TrustClass)

  datatype Approval = Approval(reviewer: string, approvedAt: string, purpose: Kind, subject: Digest)

  datatype Payload = Payload(caseId: string, kind: Kind, key: string, subject: Digest) | OtherPayload(json: string)

  datatype Evidence = Evidence(signer: string, payload: Payload, signature: string)

  datatype Event = Event(
    caseId: string, sequence: int, kind: Kind, occurredAt: string, subject: Subject, provenance: Provenance,
    previous: Option<Digest>, approval: Option<Approval>, evidence: Option<Evidence>, key: Option<string>,
    schema: string)

  datatype Phase =
    | Discovered | ClaimApproved | Claimed | HandoffApproved | HandedOff | Acknowledged | CompletionApproved
    | Completed | RecoveryRequired

  datatype State = State(
    caseId: string, phase: Option<Phase>, head: Option<Digest>, next: int, task: Option<Digest>, seen: seq<string>)

  datatype Refusal =
    | BadProvenance | SchemaOrCase | OutOfOrder | UnknownEvent | ApprovalMissing | ApprovalUnidentified
    | ApprovalUnbound | KeyNotFresh | EvidenceMissing | EvidenceUnbound | SignatureInvalid | RecoveryNotValid
    | TransitionNotAllowed | TaskUnbound

  /** The schema name, the signature check and the test for a text that strips to nothing. */
  datatype Context = Context(schema: string, verify: Evidence -> bool, blank: string -> bool)

  predicate IsApproval(k: Kind) {
    k in {ApproveClaim, ApproveHandoff, ApproveCompletion}
  }

  predicate IsSigned(k: Kind) {
    k in {RecordClaim, RecordHandoff, RecordAck, RecordCompletion}
  }

  /** The transition table. */
  function Transition(phase: Option<Phase>, k: Kind): Option<Phase> {
    match (phase, k)
    case (None, Discover) => Some(Discovered)
    case (Some(Discovered), ApproveClaim) => Some(ClaimApproved)
    case (Some(ClaimApproved), RecordClaim) => Some(Claimed)
    case (Some(Claimed), ApproveHandoff) => Some(HandoffApproved)
    case (Some(HandoffApproved), RecordHandoff) => Some(HandedOff)
    case (Some(HandedOff), RecordAck) => Some(Acknowledged)
    case (Some(Acknowledged), ApproveCompletion) => Some(CompletionApproved)
    case (Some(CompletionApproved), RecordCompletion) => Some(Completed)
    case _ => None
  }

  predicate LowerHex(text: string) {
    |text| == 64 && forall i | 0 <= i < 64 :: '0' <= text[i] <= '9' || 'a' <= text[i] <= 'f'
  }

  predicate ProvenanceOk(c: Context, p: Provenance) {
    && !p.class_.UnknownClass? && LowerHex(p.content)
    && !c.blank(p.sourceId) && !c.blank(p.locator) && !c.blank(p.observedAt)
  }

  /** The exact payload a signer must have signed. */
  function EvidencePayload(caseId: string, k: Kind, subject: Subject, key: string): Payload {
    Payload(caseId, k, key, OfSubject(subject))
  }

  function CheckApproval(c: Context, e: Event): Option<Refusal> {
    match e.approval
    case None => Some(ApprovalMissing)
    case Some(a) =>
      if c.blank(a.reviewer) || c.blank(a.approvedAt) then Some(ApprovalUnidentified)
      else if a.purpose != e.kind || a.subject != OfSubject(e.subject) then Some(ApprovalUnbound)
      else None
  }

  function CheckEvidence(c: Context, seen: seq<string>, e: Event): Option<Refusal> {
    if e.key.None? || e.key.value == "" || e.key.value in seen then Some(KeyNotFresh)
    else
      match e.evidence
      case None => Some(EvidenceMissing)
      case Some(evidence) =>
        if evidence.payload != EvidencePayload(e.caseId, e.kind, e.subject, e.key.value) then Some(EvidenceUnbound)
        else if !c.verify(evidence) then Some(SignatureInvalid)
        else None
  }

  function NextPhase(phase: Option<Phase>, k: Kind): Result<Phase, Refusal> {
    if k == RequireRecovery then
      if phase == None || phase == Some(Completed) then Err(RecoveryNotValid) else Ok(RecoveryRequired)
    else
      match Transition(phase, k)
      case None => Err(TransitionNotAllowed)
      case Some(next) => Ok(next)
  }

  function KeysOf(e: Event): seq<string> {
    if e.key.Some? && e.key.value != "" then [e.key.value] else []
  }

  /** Validates and reduces one event; a refusal leaves the state as it was. */
  function Apply(c: Context, s: State, e: Event): Result<State, Refusal> {
    if !ProvenanceOk(c, e.provenance) then Err(BadProvenance)
    else if e.schema != c.schema || e.caseId != s.caseId then Err(SchemaOrCase)
    else if e.sequence != s.next || e.previous != s.head then Err(OutOfOrder)
    else if e.kind.UnknownKind? then Err(UnknownEvent)
    else if IsApproval(e.kind) && CheckApproval(c, e).Some? then Err(CheckApproval(c, e).value)
    else if IsSigned(e.kind) && CheckEvidence(c, s.seen, e).Some? then Err(CheckEvidence(c, s.seen, e).value)
    else
      match NextPhase(s.phase, e.kind)
      case Err(refusal) => Err(refusal)
      case Ok(phase) =>
        if e.kind != Discover && (s.task == None || e.subject.task != s.task) then Err(TaskUnbound)
        else
          var task := if e.kind == Discover then Some(OfSubject(e.subject)) else s.task;
          Ok(State(s.caseId, Some(phase), Some(OfEvent(e)), s.next + 1, task, s.seen + KeysOf(e)))
  }

  function Initial(caseId: string): State {
    State(caseId, None, None, 1, None, [])
  }

  function Replay(c: Context, caseId: string, events: seq<Event>): Result<State, Refusal> {
    if events == [] then Ok(Initial(caseId))
    else
      match Replay(c, caseId, events[..|events| - 1])
      case Err(refusal) => Err(refusal)
      case Ok(state) => Apply(c, state, events[|events| - 1])
  }

  // Laws

  function Keys(events: seq<Event>): seq<string> {
    if events == [] then [] else Keys(events[..|events| - 1]) + KeysOf(events[|events| - 1])
  }

  /** What acceptance of the last event says. */
  lemma LastAccepted(c: Context, caseId: string, events: seq<Event>)
    requires Replay(c, caseId, events).Ok? && events != []
    ensures var front, e := events[..|events| - 1], events[|events| - 1];
            && Replay(c, caseId, front).Ok?
            && var s, after := Replay(c, caseId, front).value, Replay(c, caseId, events).value;
            && e.sequence == s.next && e.previous == s.head && s.caseId == after.caseId
            && NextPhase(s.phase, e.kind) == Ok(after.phase.value) && after.phase.Some?
            && after == State(s.caseId, after.phase, Some(OfEvent(e)), s.next + 1,
                              if e.kind == Discover then Some(OfSubject(e.subject)) else s.task, s.seen + KeysOf(e))
            && (e.kind != Discover ==> s.task.Some?)
  {
    hide ProvenanceOk, CheckApproval, CheckEvidence, NextPhase;
  }

  lemma FirstIsDiscover(phase: Option<Phase>, k: Kind)
    requires NextPhase(phase, k).Ok?
    ensures phase == None <==> k == Discover
  {
  }

  /** What the fields of an accepted log's state are, read off the log itself. */
  lemma {:induction false} StateOfLog(c: Context, caseId: string, events: seq<Event>)
    requires Replay(c, caseId, events).Ok?
    ensures var s := Replay(c, caseId, events).value;
            && s.caseId == caseId && s.next == |events| + 1 && s.seen == Keys(events)
            && s.head == (if events == [] then None else Some(OfEvent(events[|events| - 1])))
            && (s.phase == None <==> events == [])
            && s.task == (if events == [] then None else Some(OfSubject(events[0].subject)))
  {
    if events != [] {
      LastAccepted(c, caseId, events);
      var front := events[..|events| - 1];
      StateOfLog(c, caseId, front);
      FirstIsDiscover(Replay(c, caseId, front).value.phase, events[|events| - 1].kind);
      hide Replay, Apply, NextPhase;
    }
  }

  /** Two accepted logs with the same head digest are the same log. */
  lemma {:induction false} HeadDeterminesLog(c: Context, caseId: string, a: seq<Event>, b: seq<Event>)
    requires Replay(c, caseId, a).Ok? && Replay(c, caseId, b).Ok?
    requires Replay(c, caseId, a).value.head == Replay(c, caseId, b).value.head
    ensures a == b
  {
    hide Replay, Apply, NextPhase, Keys;
    StateOfLog(c, caseId, a);
    StateOfLog(c, caseId, b);
    if a != [] {
      LastAccepted(c, caseId, a);
      LastAccepted(c, caseId, b);
      var x, y := a[..|a| - 1], b[..|b| - 1];
      HeadDeterminesLog(c, caseId, x, y);
      assert a == x + [a[|a| - 1]] && b == y + [b[|b| - 1]];
    }
  }

  lemma FromRecovery(phase: Option<Phase>, k: Kind)
    requires phase == Some(RecoveryRequired) && NextPhase(phase, k).Ok?
    ensures k == RequireRecovery && NextPhase(phase, k) == Ok(RecoveryRequired)
  {
  }

  /** Once recovery is required it stays required, and only further recovery events are accepted. */
  lemma {:induction false} RecoveryAbsorbs(c: Context, caseId: string, events: seq<Event>, n: nat)
    requires n <= |events| && Replay(c, caseId, events).Ok? && Replay(c, caseId, events[..n]).Ok?
    requires Replay(c, caseId, events[..n]).value.phase == Some(RecoveryRequired)
    ensures Replay(c, caseId, events).value.phase == Some(RecoveryRequired)
    ensures forall i | n <= i < |events| :: events[i].kind == RequireRecovery
  {
    hide Replay, Apply, NextPhase;
    if n < |events| {
      LastAccepted(c, caseId, events);
      var front := events[..|events| - 1];
      assert front[..n] == events[..n];
      RecoveryAbsorbs(c, caseId, front, n);
      FromRecovery(Replay(c, caseId, front).value.phase, events[|events| - 1].kind);
    } else {
      assert events[..n] == events;
    }
  }

  lemma FromCompletion(k: Kind)
    ensures NextPhase(Some(Completed), k).Err?
  {
  }

  /** Nothing follows completion. */
  lemma CompletionEnds(c: Context, caseId: string, events: seq<Event>, e: Event)
    requires Replay(c, caseId, events).Ok? && Replay(c, caseId, events).value.phase == Some(Completed)
    ensures Replay(c, caseId, events + [e]).Err?
  {
    hide Replay, Apply, NextPhase;
    assert (events + [e])[..|events|] == events;
    FromCompletion(e.kind);
    if Replay(c, caseId, events + [e]).Ok? { LastAccepted(c, caseId, events + [e]); }
  }
}
