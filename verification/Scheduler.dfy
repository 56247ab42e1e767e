/** The scheduler's operations as they run: load, decide, write, call the collector, write again. */
module Scheduler {
  import opened Prelude
  import opened SchedulerPolicy
  import opened SchedulerLog
  import opened SchedulerRuns
  import opened SchedulerSafety

  ghost predicate WithinBudget(calls: seq<int>, t: int) {
    CountIn(calls, t - DAILY_WINDOW, t) <= MAX_REQUESTS_PER_DAY
  }

  class SchedulerFile {
    var states: seq<State>
    var calls: seq<int>
    ghost var logs: seq<Log>

    /** Contents a power loss may leave, oldest first; a reader sees the last. */
    ghost predicate Shaped()
      reads this
    {
      states != [] && |logs| == |states|
    }

    /** Each of them is faithful to a legal history, and the calls made are durable attempts. */
    ghost predicate Valid()
      reads this
    {
      Shaped() && Inv(Abstract())
    }

    ghost function Abstract(): World
      requires Shaped()
      reads this
    {
      World(
        seq(|states|, i requires 0 <= i < |states| reads this requires Shaped() => Image(states[i], logs[i])), calls)
    }

    constructor (minutes: Minutes)
      ensures Valid() && Abstract() == Initial(minutes)
    {
      states, calls, logs := [DISABLED_STATE.(intervalMinutes := minutes)], [], [[]];
      new;
      InitialHolds(minutes);
      assert Abstract() == Initial(minutes);
    }

    /** Replaces the file by a state valid now, as far as the system lets the write get. */
    method WriteFile(state: State, ghost log: Log, now: int, write: Write) returns (written: bool)
      requires Shaped()
      modifies this`states, this`logs
      ensures Shaped()
      ensures Abstract() == WriteState(old(Abstract()), Image(state, log), now, write)
      ensures written <==> Wrote(Image(state, log), now, write)
      ensures written ==> states == [state]
    {
      if !ValidState(state, now) { return false; }
      match write
      case Unwritten => return false;
      case Replaced =>
        states, logs := states + [state], logs + [log];
        return false;
      case Synced =>
        states, logs := [state], [log];
        return true;
    }

    method RunOnce(now: int, first: Write, called: bool, result: Collected, second: Write) returns (answer: Answer)
      requires Valid()
      modifies this
      ensures Valid()
      ensures Abstract() == RunOnceSpec(old(Abstract()), now, first, called, result, second)
      ensures forall t :: WithinBudget(calls, t)
      ensures Spaced(calls) && forall x | x in calls :: x in Attempts(logs[0])
      ensures RunTells(old(Abstract()), Abstract(), now, first, called, result, second)
      ensures AnswerTells(old(states[|states| - 1]), answer, now, first, called, result, second)
    {
      hide RunTells, AnswerTells, AnswerOf;
      answer := Act(now, first, called, result, second);
      RunOnceTells(old(Abstract()), now, first, called, result, second);
      RunOnceAnswers(old(Abstract()), now, first, called, result, second);
      assert Visible(old(Abstract())).state == old(states[|states| - 1]);
      RunOnceKeeps(old(Abstract()), now, first, called, result, second);
      assert Abstract().images[0].log == logs[0];
      hide Inv;
      forall t
        ensures WithinBudget(calls, t)
      {
        InvBudget(Abstract(), t);
      }
      InvBudget(Abstract(), 0);
    }

    /** The run itself: recover an interrupted one, or evaluate, stamp, collect and record. */
    method Act(now: int, first: Write, called: bool, result: Collected, second: Write) returns (answer: Answer)
      requires Shaped()
      modifies this
      ensures Shaped()
      ensures Abstract() == RunOnceSpec(old(Abstract()), now, first, called, result, second)
      ensures answer == AnswerOf(old(Abstract()), now, first, called, result, second)
    {
      hide ValidState, Evaluate, RecordFailure, Stamps, Recent;
      var state := states[|states| - 1];
      ghost var log := logs[|logs| - 1];
      ghost var image := Image(state, log);
      assert Visible(Abstract()) == image;
      if !ValidState(state, now) { return StateInvalid; }
      if state.running {
        state := RecordFailure(state, WorkerCrashed);
        var recovered := WriteFile(state, log + [FailedRun(WorkerCrashed)], now, first);
        return if recovered then RecoveredInterruptedRun else NoAnswer;
      }
      var decision := Evaluate(state, now);
      if decision != SchedulerReady { return Refused(decision); }
      var attempts := Recent(state.attempts, now - DAILY_WINDOW);
      log := log + [Attempted(Stamp(now), state.intervalMinutes * MINUTE)];
      state := state.(lastAttempt := Some(Stamp(now)), attempts := Stamps(attempts) + [Stamp(now)], running := true);
      assert Image(state, log) == Started(image, now);
      var written := WriteFile(state, log, now, first);
      if !written || !called { return NoAnswer; }
      calls := calls + [Stamp(now)];
      if result.Success? {
        state := state.(circuit := Ready, enabled := true, lastSuccess := Some(Stamp(now)), failures := 0,
                        lastError := None, running := false);
        log := log + [Succeeded];
        answer := CollectionSucceeded;
      } else {
        var error := if result.Raised? then WorkerCrashed
                     else if result.error.Some? then result.error.value
                     else ValidationFailed;
        state := RecordFailure(state, error);
        log := log + [FailedRun(error)];
        answer := CollectionFailed(error);
      }
      assert Image(state, log) == Done(Started(image, now), now, result);
      written := WriteFile(state, log, now, second);
      if !written { answer := NoAnswer; }
    }

    method EnableScheduled(now: int, write: Write) returns (accepted: bool)
      requires Valid()
      modifies this`states, this`logs
      ensures Valid()
      ensures Abstract() == EnableSpec(old(Abstract()), now, write)
      ensures var s := old(states[|states| - 1]);
              && (accepted <==> ValidState(s, now) && write == Synced && s.circuit == ReadyDisabled
                                && !s.enabled && !s.running && s.failures == 0)
              && var notBefore := Stamp(now + NORMAL_INTERVAL);
                 (accepted ==> states == [s.(enabled := true, circuit := Ready, notBefore := Some(notBefore))])
    {
      EnableSpecKeeps(Abstract(), now, write);
      var state := states[|states| - 1];
      ghost var log := logs[|logs| - 1];
      assert Visible(Abstract()) == Image(state, log);
      if !ValidState(state, now) { return false; }
      if state.circuit != ReadyDisabled || state.enabled || state.running || state.failures != 0 { return false; }
      var notBefore := Stamp(now + NORMAL_INTERVAL);
      accepted := WriteFile(
        state.(enabled := true, circuit := Ready, notBefore := Some(notBefore)),
        log + [Enabled(notBefore)], now, write);
    }

    method DisableScheduled(now: int, write: Write) returns (accepted: bool)
      requires Valid()
      modifies this`states, this`logs
      ensures Valid()
      ensures Abstract() == DisableSpec(old(Abstract()), now, write)
      ensures var s := old(states[|states| - 1]);
              && (accepted <==> ValidState(s, now) && write == Synced && s.circuit == Ready && s.enabled && !s.running)
              && (accepted ==> states == [s.(enabled := false, circuit := ReadyDisabled)])
    {
      DisableSpecKeeps(Abstract(), now, write);
      var state := states[|states| - 1];
      ghost var log := logs[|logs| - 1];
      assert Visible(Abstract()) == Image(state, log);
      if !ValidState(state, now) { return false; }
      if state.circuit != Ready || !state.enabled || state.running { return false; }
      accepted := WriteFile(state.(enabled := false, circuit := ReadyDisabled), log + [Disabled], now, write);
    }

    method ApproveReset(now: int, write: Write) returns (accepted: bool)
      requires Valid()
      modifies this`states, this`logs
      ensures Valid()
      ensures Abstract() == ResetSpec(old(Abstract()), now, write)
      ensures var s := old(states[|states| - 1]);
              && (accepted <==> ValidState(s, now) && write == Synced && s.circuit == CircuitOpen)
              && (accepted ==>
                    states == [s.(enabled := false, circuit := ReadyDisabled, failures := 0, running := false)])
    {
      ResetSpecKeeps(Abstract(), now, write);
      var state := states[|states| - 1];
      ghost var log := logs[|logs| - 1];
      assert Visible(Abstract()) == Image(state, log);
      if !ValidState(state, now) { return false; }
      if state.circuit != CircuitOpen { return false; }
      accepted := WriteFile(
        state.(enabled := false, circuit := ReadyDisabled, failures := 0, running := false),
        log + [ResetApproved], now, write);
    }
  }
}
