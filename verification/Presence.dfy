/**
  The presence writer: one compare-and-set note holding the room sequence last published, and the local state
  the writer decides from. Runs are sequential; a write may fail, be lost after it was applied, or be cut by
  the death of the process, and a preview may be executed long after it was made, any number of times. The
  note is changed by this writer only. Times are microseconds.
 */
module Presence {
  import opened Prelude

  const MINIMUM_LIVE_WRITE: int := 3600 * 1_000_000

  datatype Note = Absent | Number(value: nat) | Foreign(text: string)

  datatype Status =
    | NeverObserved | Live | Unknown | DisabledState | SpecChanged | ConflictState | ReadbackMismatch | Reapproval

  datatype NoteState = NoteAbsent | NoteExpected | NoteUnexpected

  datatype Config = Config(operatorEnabled: bool, liveWriteEnabled: bool, specApproved: bool, minimumUpdate: int)

  /** The persisted state. */
  datatype State = State(
    status: Status, lastObserved: Option<nat>, published: Option<nat>, lastSuccess: Option<int>,
    lastAttempt: Option<int>, known: bool, writes: nat, ready: bool)

  const BLANK: State := State(NeverObserved, None, None, None, None, false, 0, false)

  datatype Condition = IfAbsent | If(value: nat)

  datatype Request = Request(value: nat, condition: Condition)

  /** What an approval binds: the exact request, the sequence observed and the note state expected. */
  datatype Preview = Preview(request: Request, observed: nat, expected: NoteState)

  function Load(file: Option<State>): State {
    match file case Some(state) => state case None => BLANK
  }

  function ClassifyNote(note: Note, published: Option<nat>): NoteState {
    if note == Absent then NoteAbsent
    else if published.Some? && note == Number(published.value) then NoteExpected
    else NoteUnexpected
  }

  function Observed(c: Config, state: State, reading: Option<nat>): Option<State> {
    if !c.operatorEnabled then Some(state.(status := DisabledState, ready := false))
    else if reading.None? then None
    else
      var latest, previous := reading.value, state.lastObserved;
      var status :=
        if previous.None? then Unknown
        else if latest < previous.value || (state.published.Some? && latest < state.published.value) then ConflictState
        else if latest > previous.value then Live else Unknown;
      Some(state.(lastObserved := reading, status := status, ready := false))
  }

  /** What the reads of a preview found: nothing where a read failed. */
  datatype Findings = Findings(discovered: bool, contractOk: bool, serverChanged: bool, latest: Option<nat>,
                               note: Option<Note>)

  datatype PreviewResult =
    | ReadFailed | SpecificationChanged | Conflicted | ReapprovalRequired | NoSequenceAdvance | TooSoon
    | Ready(preview: Preview)

  function RequestFor(latest: nat, noteState: NoteState, published: Option<nat>): Option<Request> {
    if noteState == NoteAbsent then Some(Request(latest, IfAbsent))
    else if noteState == NoteExpected && published.Some? then Some(Request(latest, If(published.value)))
    else None
  }

  /** The state to save, if any, and the answer. */
  function Previewed(c: Config, state: State, findings: Findings, now: int): (Option<State>, PreviewResult) {
    if !findings.discovered then (None, ReadFailed)
    else if !findings.contractOk || findings.serverChanged then
      (Some(state.(status := SpecChanged, ready := false)), SpecificationChanged)
    else if findings.latest.None? then (None, ReadFailed)
    else
      var latest, previous, published := findings.latest.value, state.lastObserved, state.published;
      var seen := state.(lastObserved := Some(latest), ready := false);
      var movement := if previous.Some? && latest > previous.value then Live else Unknown;
      if previous.Some? && latest < previous.value then (Some(seen.(status := ConflictState)), Conflicted)
      else if findings.note.None? then (None, ReadFailed)
      else
        var noteState := ClassifyNote(findings.note.value, published);
        if findings.note.value == Absent && state.known then (Some(seen.(status := Reapproval)), ReapprovalRequired)
        else if noteState == NoteUnexpected then (Some(seen.(status := ConflictState)), Conflicted)
        else if published.Some? && latest <= published.value then (Some(seen.(status := Unknown)), NoSequenceAdvance)
        else if state.lastSuccess.Some? && now - state.lastSuccess.value < c.minimumUpdate then
          (Some(seen.(status := movement)), TooSoon)
        else
          match RequestFor(latest, noteState, published)
          case None => (None, ReadFailed)
          case Some(request) =>
            (Some(seen.(status := movement, ready := true)), Ready(Preview(request, latest, noteState)))
  }

  // Writing

  predicate ConditionHolds(note: Note, condition: Condition) {
    match condition
    case IfAbsent => note == Absent
    case If(value) => note == Number(value)
  }

  /** How a write request ends: answered by the compare-and-set rule, answered with an error status, or
      raising (a process death counts as raising). In the last two cases the write may have been applied. */
  datatype Delivery = Answered | HttpError(applied: bool, tooMany: bool) | Raised(applied: bool)

  function NoteAfter(note: Note, request: Request, delivery: Delivery): Note {
    var reached :=
      delivery == Answered || (delivery.HttpError? && delivery.applied) || (delivery.Raised? && delivery.applied);
    if reached && ConditionHolds(note, request.condition) then Number(request.value) else note
  }

  datatype Outcome =
    | LiveWriteDisabled | ReadRaised | Stopped | Success | HttpFailed | RateLimited | Mismatch | CasConflict
    | WriterRaised

  predicate FrequencyHealthy(state: State, now: int) {
    state.lastAttempt.None? || now - state.lastAttempt.value >= MINIMUM_LIVE_WRITE
  }

  predicate Gates(c: Config, state: State, p: Preview, approved: bool, contractCurrent: bool, now: int) {
    && c.operatorEnabled && c.liveWriteEnabled && c.specApproved && contractCurrent
    && FrequencyHealthy(state, now)
    && p.expected in {NoteAbsent, NoteExpected}
    && state.status !in {ConflictState, ReadbackMismatch, Reapproval, SpecChanged}
    && state.lastObserved == Some(p.observed)
    && approved
  }

  /** The state after the write was answered, raised or was refused. */
  function Concluded(state: State, p: Preview, now: int, note: Note, delivery: Delivery): (State, Outcome) {
    match delivery
    case Raised(_) => (state, WriterRaised)
    case HttpError(_, tooMany) =>
      (state.(status := DisabledState, ready := false), if tooMany then RateLimited else HttpFailed)
    case Answered =>
      if !ConditionHolds(note, p.request.condition) then (state.(status := ConflictState, ready := false), CasConflict)
      else if NoteAfter(note, p.request, delivery) != Number(p.request.value) then
        (state.(status := ReadbackMismatch, ready := false), Mismatch)
      else
        (state.(status := Live, published := Some(p.observed), lastSuccess := Some(now), known := true,
                writes := state.writes + 1, ready := false), Success)
  }

  // Whole runs

  /** The state file and the note, with what happened so far: previews issued, attempts stamped, values the
      note took and sequences recorded as published. */
  datatype World = World(
    file: Option<State>, note: Note, issued: set<Preview>, attempts: seq<int>, values: seq<nat>, successes: seq<nat>)

  function Initial(note: Note): World {
    World(None, note, {}, [], [], [])
  }

  datatype Event =
    | Observe(c: Config, reading: Option<nat>)
    | MakePreview(c: Config, findings: Findings, now: int)
    | Execute(c: Config, p: Preview, approved: bool, contractCurrent: bool, now: int, readable: bool,
              delivery: Delivery)

  function ObserveSpec(w: World, c: Config, reading: Option<nat>): World {
    match Observed(c, Load(w.file), reading)
    case None => w
    case Some(state) => w.(file := Some(state))
  }

  function PreviewSpec(w: World, c: Config, findings: Findings, now: int): World {
    var (saved, result) := Previewed(c, Load(w.file), findings, now);
    var issued := if result.Ready? then w.issued + {result.preview} else w.issued;
    match saved
    case None => w.(issued := issued)
    case Some(state) => w.(file := Some(state), issued := issued)
  }

  /** The stamp is saved, the writer called, and the conclusion saved. */
  function Attempt(w: World, p: Preview, now: int, delivery: Delivery): (World, Outcome) {
    var (final, outcome) := Concluded(Load(w.file).(lastAttempt := Some(now)), p, now, w.note, delivery);
    var note := NoteAfter(w.note, p.request, delivery);
    (World(
       Some(final), note, w.issued, w.attempts + [now],
       if note != w.note then w.values + [p.request.value] else w.values,
       if outcome == Success then w.successes + [p.observed] else w.successes),
     outcome)
  }

  function ExecuteSpec(w: World, c: Config, p: Preview, approved: bool, contractCurrent: bool, now: int,
                       readable: bool, delivery: Delivery): (World, Outcome)
  {
    var state := Load(w.file);
    if !Gates(c, state, p, approved, contractCurrent, now) then
      (if FrequencyHealthy(state, now) then w else w.(file := Some(state.(status := DisabledState, ready := false))),
       LiveWriteDisabled)
    else if !readable then (w, ReadRaised)
    else if ClassifyNote(w.note, state.published) != p.expected then
      (w.(file := Some(state.(status := ConflictState, ready := false))), Stopped)
    else Attempt(w, p, now, delivery)
  }

  /** A preview read sees the note itself; only a preview that was issued can be executed. */
  predicate Enabled(w: World, e: Event) {
    match e
    case Observe(_, _) => true
    case MakePreview(_, findings, _) => findings.note.Some? ==> findings.note.value == w.note
    case Execute(_, p, _, _, _, _, _) => p in w.issued
  }

  function Apply(w: World, e: Event): World {
    if !Enabled(w, e) then w
    else
      match e
      case Observe(c, reading) => ObserveSpec(w, c, reading)
      case MakePreview(c, findings, now) => PreviewSpec(w, c, findings, now)
      case Execute(c, p, approved, contractCurrent, now, readable, delivery) =>
        ExecuteSpec(w, c, p, approved, contractCurrent, now, readable, delivery).0
  }

  function Run(w: World, events: seq<Event>): World
    decreases |events|
  {
    if events == [] then w else Run(Apply(w, events[0]), events[1..])
  }
}
