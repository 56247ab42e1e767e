/** The presence operations as they run, step by step, against the state file and the note. */
module PresenceAdapter {
  import opened Prelude
  import opened Presence
  import opened PresenceSafety

  class Adapter {
    var file: Option<State>
    var note: Note
    ghost var issued: set<Preview>
    ghost var attempts: seq<int>
    ghost var values: seq<nat>
    ghost var successes: seq<nat>

    ghost function Abstract(): World
      reads this
    {
      World(file, note, issued, attempts, values, successes)
    }

    /** What the runs keep: attempts an hour apart, rising successes, each of them a value the note took. */
    ghost predicate Valid()
      reads this
    {
      Inv(Abstract())
    }

    constructor (initial: Note)
      ensures Valid() && Abstract() == Initial(initial)
    {
      file, note := None, initial;
      issued, attempts, values, successes := {}, [], [], [];
    }

    method Observe(c: Config, reading: Option<nat>)
      requires Valid()
      modifies this`file
      ensures Valid()
      ensures Abstract() == ObserveSpec(old(Abstract()), c, reading)
      ensures ObserveTells(old(Load(file)), Load(file), c, reading)
    {
      hide Inv, ObserveTells;
      ObserveKeeps(Abstract(), c, reading);
      ObservedTells(Abstract(), c, reading);
      var state := Load(file);
      if !c.operatorEnabled {
        file := Some(state.(status := DisabledState, ready := false));
        return;
      }
      if reading.None? { return; }
      var latest, previous := reading.value, state.lastObserved;
      state := state.(lastObserved := Some(latest));
      var status;
      if previous.None? {
        status := Unknown;
      } else if latest < previous.value || (state.published.Some? && latest < state.published.value) {
        status := ConflictState;
      } else {
        status := if latest > previous.value then Live else Unknown;
      }
      file := Some(state.(status := status, ready := false));
    }

    /** The invariant stays when the note that was read is the note, as it is while the writer is alone. */
    method PreviewFirstWrite(c: Config, findings: Findings, now: int) returns (result: PreviewResult)
      requires Valid()
      modifies this`file, this`issued
      ensures findings.note == None || findings.note == Some(note) ==> Valid()
      ensures result.Ready? ==> result.preview in issued
      ensures Abstract() == PreviewSpec(old(Abstract()), c, findings, now)
      ensures result == Previewed(c, Load(old(file)), findings, now).1
      ensures PreviewAnswers(old(Load(file)), c, findings, now, result)
      ensures PreviewLeaves(old(Load(file)), Load(file), findings, result)
    {
      hide Inv, ClassifyNote, RequestFor, PreviewAnswers, PreviewLeaves;
      PreviewedTells(Abstract(), c, findings, now);
      if findings.note == None || findings.note == Some(note) { PreviewKeeps(Abstract(), c, findings, now); }
      var state := Load(file);
      if !findings.discovered { return ReadFailed; }
      if !findings.contractOk || findings.serverChanged {
        file := Some(state.(status := SpecChanged, ready := false));
        return SpecificationChanged;
      }
      if findings.latest.None? { return ReadFailed; }
      var latest, previous := findings.latest.value, state.lastObserved;
      state := state.(lastObserved := Some(latest));
      if previous.Some? && latest < previous.value {
        file := Some(state.(status := ConflictState, ready := false));
        return Conflicted;
      }
      if findings.note.None? { return ReadFailed; }
      var noteState := ClassifyNote(findings.note.value, state.published);
      if findings.note.value == Absent && state.known {
        file := Some(state.(status := Reapproval, ready := false));
        return ReapprovalRequired;
      }
      if noteState == NoteUnexpected {
        file := Some(state.(status := ConflictState, ready := false));
        return Conflicted;
      }
      if state.published.Some? && latest <= state.published.value {
        file := Some(state.(status := Unknown, ready := false));
        return NoSequenceAdvance;
      }
      var movement := if previous.Some? && latest > previous.value then Live else Unknown;
      if state.lastSuccess.Some? && now - state.lastSuccess.value < c.minimumUpdate {
        file := Some(state.(status := movement, ready := false));
        return TooSoon;
      }
      var request := RequestFor(latest, noteState, state.published);
      if request.None? { return ReadFailed; }
      var preview := Preview(request.value, latest, noteState);
      file := Some(state.(status := movement, ready := true));
      issued := issued + {preview};
      result := Ready(preview);
    }

    /** The request itself: applied or refused by the note's compare-and-set rule. */
    method CallWriter(p: Preview, delivery: Delivery) returns (refused: bool)
      modifies this`note, this`values
      ensures note == NoteAfter(old(note), p.request, delivery)
      ensures values == if note != old(note) then old(values) + [p.request.value] else old(values)
      ensures refused <==> !ConditionHolds(old(note), p.request.condition)
    {
      refused := !ConditionHolds(note, p.request.condition);
      var applied := match delivery
        case Answered => true
        case HttpError(applied, _) => applied
        case Raised(applied) => applied;
      if applied && !refused {
        if note != Number(p.request.value) { values := values + [p.request.value]; }
        note := Number(p.request.value);
      }
    }

    method Execute(c: Config, p: Preview, approved: bool, contractCurrent: bool, now: int, readable: bool,
                   delivery: Delivery)
      returns (outcome: Outcome)
      requires Valid() && p in issued
      modifies this
      ensures Valid()
      ensures (Abstract(), outcome) ==
              ExecuteSpec(old(Abstract()), c, p, approved, contractCurrent, now, readable, delivery)
      ensures outcome == Success ==>
                && note == Number(p.observed) && Load(file).published == Some(p.observed)
                && (old(Load(file)).published.Some? ==> old(Load(file)).published.value < p.observed)
      ensures note != old(note) || attempts != old(attempts) ==>
                && approved && c.operatorEnabled && c.liveWriteEnabled && c.specApproved && contractCurrent
                && old(Load(file)).lastObserved == Some(p.observed)
                && old(Load(file)).status !in {ConflictState, ReadbackMismatch, Reapproval, SpecChanged}
      ensures ExecuteTells(
                old(Abstract()), Abstract(), outcome, c, p, approved, contractCurrent, now, readable, delivery)
    {
      hide Inv, Attempt, Gates, ClassifyNote, ExecuteSpec;
      ghost var before := Abstract();
      ExecutedTells(before, c, p, approved, contractCurrent, now, readable, delivery);
      ExecuteKeeps(before, c, p, approved, contractCurrent, now, readable, delivery);
      ExecutedAdvances(before, c, p, approved, contractCurrent, now, readable, delivery);
      outcome := Decide(c, p, approved, contractCurrent, now, readable, delivery);
    }

    /** The gates, the note's reading, and the write. */
    method Decide(c: Config, p: Preview, approved: bool, contractCurrent: bool, now: int, readable: bool,
                  delivery: Delivery)
      returns (outcome: Outcome)
      modifies this
      ensures (Abstract(), outcome) ==
              ExecuteSpec(old(Abstract()), c, p, approved, contractCurrent, now, readable, delivery)
    {
      hide Attempt, Gates, ClassifyNote;
      var state := Load(file);
      if !Gates(c, state, p, approved, contractCurrent, now) {
        if !FrequencyHealthy(state, now) {
          file := Some(state.(status := DisabledState, ready := false));
        }
        return LiveWriteDisabled;
      }
      if !readable { return ReadRaised; }
      if ClassifyNote(note, state.published) != p.expected {
        file := Some(state.(status := ConflictState, ready := false));
        return Stopped;
      }
      outcome := WriteAndConclude(p, now, delivery);
    }

    /** The stamp is saved, the writer called, the note read back, and the conclusion saved. */
    method WriteAndConclude(p: Preview, now: int, delivery: Delivery) returns (outcome: Outcome)
      modifies this
      ensures (Abstract(), outcome) == Attempt(old(Abstract()), p, now, delivery)
    {
      var state := Load(file).(lastAttempt := Some(now));
      file := Some(state);
      attempts := attempts + [now];
      var refused := CallWriter(p, delivery);
      match delivery {
        case Raised(_) => outcome := WriterRaised;
        case HttpError(_, tooMany) =>
          state := state.(status := DisabledState, ready := false);
          outcome := if tooMany then RateLimited else HttpFailed;
        case Answered =>
          if refused {
            state := state.(status := ConflictState, ready := false);
            outcome := CasConflict;
          } else if note != Number(p.request.value) {
            state := state.(status := ReadbackMismatch, ready := false);
            outcome := Mismatch;
          } else {
            state := state.(status := Live, published := Some(p.observed), lastSuccess := Some(now), known := true,
                            writes := state.writes + 1, ready := false);
            successes := successes + [p.observed];
            outcome := Success;
          }
      }
      file := Some(state);
    }
  }
}
