/** What every run of the presence writer keeps, and the laws that follow for the note and the attempts. */
module PresenceSafety {
  import opened Prelude
  import opened Presence

  predicate Rising(values: seq<nat>) {
    forall i, j | 0 <= i < j < |values| :: values[i] < values[j]
  }

  predicate Spaced(attempts: seq<int>) {
    forall i, j | 0 <= i < j < |attempts| :: attempts[j] - attempts[i] >= MINIMUM_LIVE_WRITE
  }

  function Last<T>(xs: seq<T>): Option<T> {
    if xs == [] then None else Some(xs[|xs| - 1])
  }

  /** A request names the sequence that was observed, and never asks to lower the note. */
  predicate WellMade(p: Preview) {
    && p.request.value == p.observed
    && p.expected == (if p.request.condition.IfAbsent? then NoteAbsent else NoteExpected)
    && (p.request.condition.If? ==> p.request.condition.value < p.observed)
  }

  /** The note, the values it took and the successes recorded. */
  predicate Faithful(note: Note, values: seq<nat>, successes: seq<nat>, published: Option<nat>) {
    && Rising(values) && (values != [] ==> note == Number(values[|values| - 1]))
    && Rising(successes) && published == Last(successes)
    && (forall i | 0 <= i < |successes| :: successes[i] in values)
    && (published.Some? ==> note.Number? && published.value <= note.value)
  }

  ghost predicate Inv(w: World) {
    var state := Load(w.file);
    && (forall p | p in w.issued :: WellMade(p))
    && Spaced(w.attempts) && state.lastAttempt == Last(w.attempts)
    && Faithful(w.note, w.values, w.successes, state.published)
    && state.writes == |w.successes|
    && (state.known ==> state.published.Some?)
  }

  lemma ObserveKeeps(w: World, c: Config, reading: Option<nat>)
    requires Inv(w)
    ensures Inv(ObserveSpec(w, c, reading))
  {
  }

  lemma PreviewKeeps(w: World, c: Config, findings: Findings, now: int)
    requires Inv(w) && (findings.note.Some? ==> findings.note.value == w.note)
    ensures Inv(PreviewSpec(w, c, findings, now))
  {
    PreviewedOk(c, Load(w.file), findings, now);
    var (saved, result) := Previewed(c, Load(w.file), findings, now);
    var w2 := PreviewSpec(w, c, findings, now);
    hide Previewed, WellMade, Spaced, Faithful;
    assert w2.issued == if result.Ready? then w.issued + {result.preview} else w.issued;
    assert w2.file == if saved.Some? then saved else w.file;
  }

  /** A preview changes what was observed and the status only, and a ready one is well made. */
  lemma PreviewedOk(c: Config, state: State, findings: Findings, now: int)
    ensures var (saved, result) := Previewed(c, state, findings, now);
            && (result.Ready? ==> WellMade(result.preview))
            && (saved.Some? ==>
                  && saved.value.lastAttempt == state.lastAttempt && saved.value.published == state.published
                  && saved.value.writes == state.writes && saved.value.known == state.known)
  {
  }

  lemma RisingExtend(values: seq<nat>, value: nat)
    requires Rising(values) && (values != [] ==> values[|values| - 1] < value)
    ensures Rising(values + [value])
  {
  }

  lemma SpacedExtend(attempts: seq<int>, now: int)
    requires Spaced(attempts)
    requires attempts != [] ==> now - attempts[|attempts| - 1] >= MINIMUM_LIVE_WRITE
    ensures Spaced(attempts + [now])
  {
  }

  /** A delivered write raises the note; a write that is not delivered leaves it. */
  lemma WriteRaises(note: Note, p: Preview, delivery: Delivery)
    requires WellMade(p)
    ensures var after := NoteAfter(note, p.request, delivery);
            after != note ==>
              after == Number(p.observed) && !note.Foreign? && (note.Number? ==> note.value < p.observed)
    ensures delivery == Answered && ConditionHolds(note, p.request.condition) ==>
              NoteAfter(note, p.request, delivery) == Number(p.observed) && note != Number(p.observed)
  {
  }

  lemma ConclusionOf(state: State, p: Preview, now: int, note: Note, delivery: Delivery)
    requires WellMade(p)
    ensures var (final, outcome) := Concluded(state, p, now, note, delivery);
            && final.lastAttempt == state.lastAttempt
            && (outcome == Success <==> delivery == Answered && ConditionHolds(note, p.request.condition))
            && final.published == (if outcome == Success then Some(p.observed) else state.published)
            && final.writes == state.writes + (if outcome == Success then 1 else 0)
            && final.known == (state.known || outcome == Success)
  {
  }

  lemma WriteKeepsFaithful(note: Note, values: seq<nat>, successes: seq<nat>, published: Option<nat>, p: Preview,
                           delivery: Delivery)
    requires Faithful(note, values, successes, published) && WellMade(p)
    requires ClassifyNote(note, published) == p.expected
    ensures var after := NoteAfter(note, p.request, delivery);
            var success := delivery == Answered && ConditionHolds(note, p.request.condition);
            Faithful(after, if after != note then values + [p.observed] else values,
                     if success then successes + [p.observed] else successes,
                     if success then Some(p.observed) else published)
  {
    WriteRaises(note, p, delivery);
    var after := NoteAfter(note, p.request, delivery);
    if after != note {
      RisingExtend(values, p.observed);
    }
    if delivery == Answered && ConditionHolds(note, p.request.condition) {
      RisingExtend(successes, p.observed);
    }
  }

  /** The fields of the world after an attempt. */
  lemma AttemptFields(w: World, p: Preview, now: int, delivery: Delivery)
    requires WellMade(p)
    ensures var w2, after := Attempt(w, p, now, delivery).0, NoteAfter(w.note, p.request, delivery);
            var success := delivery == Answered && ConditionHolds(w.note, p.request.condition);
            && w2.issued == w.issued && w2.attempts == w.attempts + [now] && w2.note == after
            && w2.values == (if after != w.note then w.values + [p.observed] else w.values)
            && w2.successes == (if success then w.successes + [p.observed] else w.successes)
            && Load(w2.file).lastAttempt == Some(now)
            && Load(w2.file).published == (if success then Some(p.observed) else Load(w.file).published)
            && Load(w2.file).writes == Load(w.file).writes + (if success then 1 else 0)
            && Load(w2.file).known == (Load(w.file).known || success)
  {
    ConclusionOf(Load(w.file).(lastAttempt := Some(now)), p, now, w.note, delivery);
    hide Concluded, NoteAfter, ConditionHolds;
  }

  lemma AttemptKeeps(w: World, p: Preview, now: int, delivery: Delivery)
    requires Inv(w) && WellMade(p) && FrequencyHealthy(Load(w.file), now)
    requires ClassifyNote(w.note, Load(w.file).published) == p.expected
    ensures Inv(Attempt(w, p, now, delivery).0)
  {
    hide Spaced, NoteAfter, Attempt, ConditionHolds, Faithful, ClassifyNote, WellMade, Load;
    SpacedExtend(w.attempts, now);
    WriteKeepsFaithful(w.note, w.values, w.successes, Load(w.file).published, p, delivery);
    AttemptFields(w, p, now, delivery);
  }

  lemma ExecuteKeeps(w: World, c: Config, p: Preview, approved: bool, contractCurrent: bool, now: int,
                     readable: bool, delivery: Delivery)
    requires Inv(w) && p in w.issued
    ensures Inv(ExecuteSpec(w, c, p, approved, contractCurrent, now, readable, delivery).0)
  {
    hide Attempt, Faithful, Spaced, WellMade;
    if FrequencyHealthy(Load(w.file), now) && ClassifyNote(w.note, Load(w.file).published) == p.expected {
      AttemptKeeps(w, p, now, delivery);
    }
  }

  lemma StepKeeps(w: World, e: Event)
    requires Inv(w)
    ensures Inv(Apply(w, e))
  {
    hide Inv, ObserveSpec, PreviewSpec, ExecuteSpec;
    if Enabled(w, e) {
      match e
      case Observe(c, reading) => ObserveKeeps(w, c, reading);
      case MakePreview(c, findings, now) => PreviewKeeps(w, c, findings, now);
      case Execute(c, p, approved, contractCurrent, now, readable, delivery) =>
        ExecuteKeeps(w, c, p, approved, contractCurrent, now, readable, delivery);
    }
  }

  lemma {:induction false} RunKeeps(w: World, events: seq<Event>)
    requires Inv(w)
    ensures Inv(Run(w, events))
    decreases |events|
  {
    if events != [] {
      StepKeeps(w, events[0]);
      RunKeeps(Apply(w, events[0]), events[1..]);
    }
  }

  ghost predicate Reachable(w: World) {
    exists note, events :: w == Run(Initial(note), events)
  }

  lemma ReachableKeeps(w: World)
    requires Reachable(w)
    ensures Inv(w)
  {
    var note, events :| w == Run(Initial(note), events);
    RunKeeps(Initial(note), events);
  }

  /** Attempts are an hour apart by the clock readings themselves, whatever the clock did. */
  lemma AttemptsAnHourApart(w: World)
    requires Reachable(w)
    ensures Spaced(w.attempts)
  {
    ReachableKeeps(w);
  }

  /** A success publishes a strictly larger sequence than the last recorded one, replayed previews included,
      and the note then holds exactly that sequence. */
  lemma SuccessAdvances(w: World, c: Config, p: Preview, approved: bool, contractCurrent: bool, now: int,
                        readable: bool, delivery: Delivery)
    requires Reachable(w) && p in w.issued
    requires ExecuteSpec(w, c, p, approved, contractCurrent, now, readable, delivery).1 == Success
    ensures var w2 := ExecuteSpec(w, c, p, approved, contractCurrent, now, readable, delivery).0;
            && Load(w2.file).published == Some(p.observed) && w2.note == Number(p.observed)
            && (Load(w.file).published.Some? ==> Load(w.file).published.value < p.observed)
            && (w.note.Number? ==> w.note.value < p.observed)
  {
    ReachableKeeps(w);
    ExecutedAdvances(w, c, p, approved, contractCurrent, now, readable, delivery);
  }

  lemma ExecutedAdvances(w: World, c: Config, p: Preview, approved: bool, contractCurrent: bool, now: int,
                         readable: bool, delivery: Delivery)
    requires Inv(w) && p in w.issued
    ensures var (w2, outcome) := ExecuteSpec(w, c, p, approved, contractCurrent, now, readable, delivery);
            outcome == Success ==>
              && Load(w2.file).published == Some(p.observed) && w2.note == Number(p.observed)
              && (Load(w.file).published.Some? ==> Load(w.file).published.value < p.observed)
              && (w.note.Number? ==> w.note.value < p.observed)
  {
    hide Gates;
    ConclusionOf(Load(w.file).(lastAttempt := Some(now)), p, now, w.note, delivery);
    WriteRaises(w.note, p, delivery);
  }

  /** Over any run the note only moves to larger numbers, and a foreign value is never overwritten. */
  lemma NoteNeverFalls(w: World, e: Event)
    requires Reachable(w)
    ensures Apply(w, e).note == w.note
            || (Apply(w, e).note.Number? && !w.note.Foreign?
                && (w.note.Number? ==> w.note.value < Apply(w, e).note.value))
  {
    ReachableKeeps(w);
    if e.Execute? && e.p in w.issued {
      hide Gates, Concluded;
      WriteRaises(w.note, e.p, e.delivery);
    }
  }

  /** The note holds something other than what was last recorded as published: a lost write, or a value the
      writer did not put there. */
  predicate Diverged(w: World) {
    w.note != Absent && (Load(w.file).published.None? || w.note != Number(Load(w.file).published.value))
  }

  lemma DivergedStep(w: World, e: Event)
    requires Diverged(w) && forall p | p in w.issued :: WellMade(p)
    ensures var w2 := Apply(w, e);
            Diverged(w2) && w2.note == w.note && w2.attempts == w.attempts && w2.successes == w.successes
  {
    if e.Execute? {
      hide Gates, Concluded;
    }
  }

  /** From then on the writer is never called again, whatever previews are made, approved or replayed. */
  lemma {:induction false} DivergedForever(w: World, events: seq<Event>)
    requires Inv(w) && Diverged(w)
    ensures var w2 := Run(w, events);
            Diverged(w2) && w2.note == w.note && w2.attempts == w.attempts && w2.successes == w.successes
    decreases |events|
  {
    if events != [] {
      DivergedStep(w, events[0]);
      StepKeeps(w, events[0]);
      DivergedForever(Apply(w, events[0]), events[1..]);
    }
  }

  function AtLeast(x: int, bound: Option<int>, gap: int): int {
    if bound.Some? && x < bound.value + gap then bound.value + gap else x
  }

  function Above(x: nat, bound: Option<nat>): nat {
    if bound.Some? && x <= bound.value then bound.value + 1 else x
  }

  /** A preview and its approved execution, late enough and with a sequence large enough. */
  function NextWrite(w: World, delivery: Delivery): seq<Event> {
    var state := Load(w.file);
    var c := Config(true, true, true, MINIMUM_LIVE_WRITE);
    var now := AtLeast(AtLeast(0, state.lastSuccess, MINIMUM_LIVE_WRITE), state.lastAttempt, MINIMUM_LIVE_WRITE);
    var latest := Above(Above(0, state.lastObserved), state.published);
    var noteState := ClassifyNote(w.note, state.published);
    var condition := if noteState == NoteAbsent || state.published.None? then IfAbsent else If(state.published.value);
    var request := Request(latest, condition);
    [MakePreview(c, Findings(true, true, false, Some(latest), Some(w.note)), now),
     Execute(c, Preview(request, latest, noteState), true, true, now, true, delivery)]
  }

  /** While the note is what was recorded, a preview made late enough with a larger sequence is ready. */
  lemma NextPreviewReady(w: World, delivery: Delivery)
    requires Inv(w) && !Diverged(w)
    ensures var events, state := NextWrite(w, delivery), Load(w.file);
            var w1 := Apply(w, events[0]);
            && events[1].p in w1.issued && w1.note == w.note && w1.attempts == w.attempts && w1.successes == w.successes
            && w1.file.Some? && Load(w1.file).lastObserved == Some(events[1].p.observed)
            && Load(w1.file).published == state.published && Load(w1.file).lastAttempt == state.lastAttempt
            && Load(w1.file).status in {Live, Unknown}
            && ClassifyNote(w.note, state.published) == events[1].p.expected
            && events[1].p.expected in {NoteAbsent, NoteExpected}
            && ConditionHolds(w.note, events[1].p.request.condition)
            && events[1].p.request.value == events[1].p.observed
  {
    hide Spaced, Rising;
  }

  /** Its execution calls the writer; answered, it succeeds. */
  lemma NextWriteAttempts(w: World, delivery: Delivery)
    requires Inv(w) && !Diverged(w)
    ensures var w2 := Run(w, NextWrite(w, delivery));
            && |w2.attempts| == |w.attempts| + 1
            && (delivery == Answered ==> |w2.successes| == |w.successes| + 1)
            && w2.note == NoteAfter(w.note, NextWrite(w, delivery)[1].p.request, delivery)
            && (delivery != Answered ==>
                w2.successes == w.successes && Load(w2.file).published == Load(w.file).published)
  {
    var events := NextWrite(w, delivery);
    NextPreviewReady(w, delivery);
    var w1 := Apply(w, events[0]);
    var w2 := Apply(w1, events[1]);
    assert Run(w, events) == w2 by {
      assert events[1..][1..] == [] && events[1..][0] == events[1];
      assert Run(w2, []) == w2;
      assert Run(w1, events[1..]) == Run(w2, []);
    }
    hide NextWrite, Run, Inv, Diverged;
  }

  /**
    The writer has stopped for good exactly when the note has diverged: then no run adds an attempt, and
    otherwise some run adds a success.
   */
  lemma StoppedIffDiverged(w: World)
    requires Reachable(w)
    ensures (forall events :: Run(w, events).attempts == w.attempts) <==> Diverged(w)
    ensures !Diverged(w) ==> exists events :: |Run(w, events).successes| == |w.successes| + 1
  {
    ReachableKeeps(w);
    if Diverged(w) {
      forall events
        ensures Run(w, events).attempts == w.attempts
      {
        DivergedForever(w, events);
      }
    } else {
      NextWriteAttempts(w, Answered);
      assert |Run(w, NextWrite(w, Answered)).attempts| != |w.attempts|;
    }
  }

  /** Such worlds are reached: the first write is applied, and its answer lost. */
  lemma LostAnswerWitness()
    ensures var w := Initial(Absent);
            Diverged(Run(w, NextWrite(w, Raised(true))))
  {
    var w := Initial(Absent);
    NextWriteAttempts(w, Raised(true));
    NextPreviewReady(w, Raised(true));
  }

  /** A write that was applied but whose answer was lost leaves the note diverged. */
  lemma LostWriteDiverges(w: World, c: Config, p: Preview, approved: bool, contractCurrent: bool, now: int,
                          readable: bool, delivery: Delivery)
    requires Reachable(w) && p in w.issued
    requires ExecuteSpec(w, c, p, approved, contractCurrent, now, readable, delivery).0.note != w.note
    ensures var (w2, outcome) := ExecuteSpec(w, c, p, approved, contractCurrent, now, readable, delivery);
            Diverged(w2) <==> outcome != Success
  {
    ReachableKeeps(w);
    hide Gates;
    WriteRaises(w.note, p, delivery);
    ConclusionOf(Load(w.file).(lastAttempt := Some(now)), p, now, w.note, delivery);
  }

  // What each operation answers and leaves, in the state's own fields

  /** Only what was observed, the status and the readiness may differ. */
  predicate SameRecord(s: State, t: State) {
    && t.published == s.published && t.lastSuccess == s.lastSuccess && t.lastAttempt == s.lastAttempt
    && t.known == s.known && t.writes == s.writes
  }

  predicate ObserveTells(s: State, t: State, c: Config, reading: Option<nat>) {
    && SameRecord(s, t)
    && (if !c.operatorEnabled then t.status == DisabledState && t.lastObserved == s.lastObserved && !t.ready
        else if reading == None then t == s
        else
          && t.lastObserved == reading && !t.ready
          && (t.status == ConflictState <==>
                s.lastObserved.Some? && (reading.value < s.lastObserved.value
                                         || (s.published.Some? && reading.value < s.published.value)))
          && (t.status == Live <==>
                s.lastObserved.Some? && reading.value > s.lastObserved.value
                && (s.published.Some? ==> reading.value >= s.published.value))
          && t.status in {ConflictState, Live, Unknown})
  }

  lemma ObservedTells(w: World, c: Config, reading: Option<nat>)
    ensures var w2 := ObserveSpec(w, c, reading);
            ObserveTells(Load(w.file), Load(w2.file), c, reading) && w2.note == w.note && w2.attempts == w.attempts
  {
  }

  /** The note is absent, or holds what was last published. */
  predicate OnRecord(note: Note, s: State) {
    note == Absent || (s.published.Some? && note == Number(s.published.value))
  }

  /** Everything a preview needs. */
  predicate Previewable(s: State, c: Config, f: Findings, now: int) {
    && f.discovered && f.contractOk && !f.serverChanged && f.latest.Some? && f.note.Some?
    && (s.lastObserved.Some? ==> s.lastObserved.value <= f.latest.value)
    && OnRecord(f.note.value, s) && !(f.note.value == Absent && s.known)
    && (s.published.Some? ==> s.published.value < f.latest.value)
    && (s.lastSuccess.Some? ==> s.lastSuccess.value + c.minimumUpdate <= now)
  }

  /** The specification was read, and it is the approved one. */
  predicate SpecRead(f: Findings) {
    f.discovered && f.contractOk && !f.serverChanged
  }

  predicate Regressed(s: State, f: Findings) {
    s.lastObserved.Some? && f.latest.Some? && f.latest.value < s.lastObserved.value
  }

  /** Both readings were made, and the sequence did not go back. */
  predicate AllRead(s: State, f: Findings) {
    SpecRead(f) && f.latest.Some? && !Regressed(s, f) && f.note.Some?
  }

  predicate NotAdvanced(s: State, f: Findings) {
    s.published.Some? && f.latest.Some? && f.latest.value <= s.published.value
  }

  /** Each answer is given exactly for its reason; a ready preview asks for what was observed. */
  predicate PreviewAnswers(s: State, c: Config, f: Findings, now: int, result: PreviewResult) {
    && (result.Ready? <==> Previewable(s, c, f, now))
    && (result.SpecificationChanged? <==> f.discovered && !SpecRead(f))
    && (result.Conflicted? <==>
          || (SpecRead(f) && Regressed(s, f))
          || (AllRead(s, f) && !OnRecord(f.note.value, s)))
    && (result.ReapprovalRequired? <==> AllRead(s, f) && f.note.value == Absent && s.known)
    && (result.NoSequenceAdvance? <==>
          AllRead(s, f) && OnRecord(f.note.value, s) && !(f.note.value == Absent && s.known) && NotAdvanced(s, f))
    && (result.TooSoon? <==>
          && AllRead(s, f) && OnRecord(f.note.value, s) && !(f.note.value == Absent && s.known) && !NotAdvanced(s, f)
          && s.lastSuccess.Some? && now < s.lastSuccess.value + c.minimumUpdate)
    && (result.Ready? ==>
          && result.preview.observed == f.latest.value && result.preview.request.value == f.latest.value
          && (if f.note.value == Absent then
                result.preview.request.condition == IfAbsent && result.preview.expected == NoteAbsent
              else
                s.published.Some? && result.preview.request.condition == If(s.published.value)
                && result.preview.expected == NoteExpected))
  }

  /** The status that each answer leaves. */
  predicate PreviewLeaves(s: State, t: State, f: Findings, result: PreviewResult) {
    && SameRecord(s, t)
    && match result
       case ReadFailed => t == s
       case SpecificationChanged => t.status == SpecChanged && t.lastObserved == s.lastObserved && !t.ready
       case Conflicted => t.status == ConflictState && t.lastObserved == f.latest && !t.ready
       case ReapprovalRequired => t.status == Reapproval && t.lastObserved == f.latest && !t.ready
       case NoSequenceAdvance => t.status == Unknown && t.lastObserved == f.latest && !t.ready
       case TooSoon => t.status in {Live, Unknown} && t.lastObserved == f.latest && !t.ready
       case Ready(_) => t.status in {Live, Unknown} && t.lastObserved == f.latest && t.ready
  }

  lemma PreviewedTells(w: World, c: Config, f: Findings, now: int)
    ensures var (saved, result) := Previewed(c, Load(w.file), f, now);
            var w2 := PreviewSpec(w, c, f, now);
            && PreviewAnswers(Load(w.file), c, f, now, result)
            && PreviewLeaves(Load(w.file), Load(w2.file), f, result)
            && w2.note == w.note && w2.attempts == w.attempts
  {
    AnswersOfPreview(Load(w.file), c, f, now);
    LeavesOfPreview(Load(w.file), c, f, now);
    hide Previewed, PreviewAnswers, PreviewLeaves;
    var (saved, result) := Previewed(c, Load(w.file), f, now);
  }

  lemma AnswersOfPreview(s: State, c: Config, f: Findings, now: int)
    ensures PreviewAnswers(s, c, f, now, Previewed(c, s, f, now).1)
  {
  }

  lemma LeavesOfPreview(s: State, c: Config, f: Findings, now: int)
    ensures var (saved, result) := Previewed(c, s, f, now);
            PreviewLeaves(s, if saved.Some? then saved.value else s, f, result)
  {
  }

  /** Every switch is on, a human approved, and the state is the one the preview was made for. */
  predicate MayWrite(s: State, c: Config, p: Preview, approved: bool, contractCurrent: bool, now: int) {
    && approved && c.operatorEnabled && c.liveWriteEnabled && c.specApproved && contractCurrent
    && (s.lastAttempt.Some? ==> s.lastAttempt.value + MINIMUM_LIVE_WRITE <= now)
    && p.expected != NoteUnexpected && s.lastObserved == Some(p.observed)
    && s.status != ConflictState && s.status != ReadbackMismatch && s.status != Reapproval && s.status != SpecChanged
  }

  predicate AsExpected(note: Note, s: State, p: Preview) {
    if p.expected == NoteAbsent then note == Absent else s.published.Some? && note == Number(s.published.value)
  }

  /** The request's condition holds of the note. */
  predicate Admits(note: Note, p: Preview) {
    note == (if p.request.condition.IfAbsent? then Absent else Number(p.request.condition.value))
  }

  /** Nothing is written and nothing attempted. */
  predicate Untouched(w: World, w2: World) {
    w2.note == w.note && w2.attempts == w.attempts && w2.values == w.values && w2.successes == w.successes
  }

  predicate ExecuteTells(w: World, w2: World, outcome: Outcome, c: Config, p: Preview, approved: bool,
                         contractCurrent: bool, now: int, readable: bool, delivery: Delivery)
  {
    var s, t := Load(w.file), Load(w2.file);
    if !MayWrite(s, c, p, approved, contractCurrent, now) then
      outcome == LiveWriteDisabled && Untouched(w, w2) && SameRecord(s, t) && t.lastObserved == s.lastObserved
    else if !readable then outcome == ReadRaised && w2 == w
    else if !AsExpected(w.note, s, p) then
      outcome == Stopped && Untouched(w, w2) && SameRecord(s, t) && t.status == ConflictState && !t.ready
    else
      && w2.attempts == w.attempts + [now] && t.lastAttempt == Some(now)
      && (outcome == Success <==> delivery == Answered && Admits(w.note, p))
      && (outcome == CasConflict <==> delivery == Answered && !Admits(w.note, p))
      && (outcome == RateLimited <==> delivery.HttpError? && delivery.tooMany)
      && (outcome == HttpFailed <==> delivery.HttpError? && !delivery.tooMany)
      && (outcome == WriterRaised <==> delivery.Raised?)
      && w2.note == (if Admits(w.note, p) && (delivery.Answered? || delivery.applied) then Number(p.request.value)
                     else w.note)
      && (if outcome == Success then
            t.status == Live && t.published == Some(p.observed) && t.lastSuccess == Some(now) && t.known
            && t.writes == s.writes + 1 && !t.ready
          else
            && t.published == s.published && t.lastSuccess == s.lastSuccess
            && t.known == s.known && t.writes == s.writes
            && (outcome == CasConflict ==> t.status == ConflictState && !t.ready)
            && (outcome == RateLimited || outcome == HttpFailed ==> t.status == DisabledState && !t.ready)
            && (outcome == WriterRaised ==> t.status == s.status))
  }

  lemma GatesTell(s: State, c: Config, p: Preview, approved: bool, contractCurrent: bool, now: int)
    ensures Gates(c, s, p, approved, contractCurrent, now) <==> MayWrite(s, c, p, approved, contractCurrent, now)
  {
  }

  lemma ExecutedTells(w: World, c: Config, p: Preview, approved: bool, contractCurrent: bool, now: int, readable: bool,
                      delivery: Delivery)
    ensures var (w2, outcome) := ExecuteSpec(w, c, p, approved, contractCurrent, now, readable, delivery);
            ExecuteTells(w, w2, outcome, c, p, approved, contractCurrent, now, readable, delivery)
  {
    GatesTell(Load(w.file), c, p, approved, contractCurrent, now);
    assert MayWrite(Load(w.file), c, p, approved, contractCurrent, now) ==> p.expected != NoteUnexpected;
    hide Gates, MayWrite;
  }
}
