/** Every reachable scheduler state is faithful to a legal history, whatever the clock and the crashes. */
module SchedulerSafety {
  import opened Prelude
  import opened SchedulerPolicy
  import opened SchedulerLog
  import opened SchedulerRuns

  /** A whole-second time does not fall between a clock reading and its stamp. */
  lemma WholeBelow(a: int, now: int)
    requires Whole(a)
    ensures a <= now ==> a <= Stamp(now)
    ensures a <= now - DAILY_WINDOW ==> a + DAILY_WINDOW <= Stamp(now)
  {
  }

  lemma WholeInterval(a: int, minutes: int, now: int)
    requires Whole(a) && a + minutes * MINUTE <= now
    ensures a + minutes * MINUTE <= Stamp(now)
  {
    assert a + minutes * MINUTE == a + (minutes * 60) * SECOND;
    assert Whole(a + (minutes * 60) * SECOND);
  }

  lemma {:induction false} StampsOfWhole(times: seq<int>)
    requires forall i | 0 <= i < |times| :: Whole(times[i])
    ensures Stamps(times) == times
  {
    if times != [] { StampsOfWhole(times[1..]); }
  }

  /** An interrupted or failed run is recorded by a state that the writer accepts. */
  lemma FailedKeeps(image: Image, now: int, error: FailureClass)
    requires Faithful(image) && ValidState(image.state, now) && image.state.running
    ensures Faithful(Failed(image, error)) && ValidState(Failed(image, error).state, now)
  {
    hide Legal, MayAttempt, Window, Increasing;
    var e := FailedRun(error);
    LegalExtend(image.log, e);
    ExtendCounters(image.log, e);
    RunningBelowThreshold(image.log);
  }

  lemma RunningBelowThreshold(log: Log)
    requires Legal(log) && InProgress(log)
    ensures Trailing(log) < FAILURE_THRESHOLD && IsEnabled(log)
  {
  }

  lemma SucceededKeeps(image: Image, now: int)
    requires Faithful(image) && ValidState(image.state, now) && image.state.running
    requires image.state.lastAttempt == Some(Stamp(now))
    ensures Faithful(Done(image, now, Success)) && ValidState(Done(image, now, Success).state, now)
  {
    hide Legal, MayAttempt, Increasing;
    LegalExtend(image.log, Succeeded);
    ExtendCounters(image.log, Succeeded);
    RunningBelowThreshold(image.log);
  }

  /** The recent attempts are a suffix of the history, and everything before it is a day old. */
  lemma RecentOfHistory(s: State, past: seq<int>, now: int) returns (from: nat)
    requires Window(s.attempts, s.lastAttempt, past) && Increasing(s.attempts)
    requires past != [] ==> past[|past| - 1] <= now
    ensures from <= |past| && Recent(s.attempts, now - DAILY_WINDOW) == past[from..]
    ensures |past| - from <= |s.attempts|
    ensures forall i | 0 <= i < from :: past[i] + DAILY_WINDOW <= Stamp(now)
  {
    hide Whole, Stamp;
    var k := RecentIsSuffix(s.attempts, now - DAILY_WINDOW);
    var dropped := |past| - |s.attempts|;
    from := dropped + k;
    forall i | 0 <= i < from ensures past[i] + DAILY_WINDOW <= Stamp(now) {
      WholeBelow(past[i], now);
      if i >= dropped {
        assert past[i] == s.attempts[i - dropped];
      } else {
        WholeBelow(past[|past| - 1], now);
      }
    }
  }

  lemma StartMayAttempt(image: Image, now: int, from: nat)
    requires Faithful(image) && ValidState(image.state, now) && !image.state.running
    requires Evaluate(image.state, now) == SchedulerReady
    requires var past := Attempts(image.log);
             && from <= |past| && |past| - from == |Recent(image.state.attempts, now - DAILY_WINDOW)|
             && forall i | 0 <= i < from :: past[i] + DAILY_WINDOW <= Stamp(now)
    ensures MayAttempt(image.log, Stamp(now), image.state.intervalMinutes * MINUTE)
  {
    hide Legal, Increasing, Recent, Whole, Stamp;
    var s := image.state;
    var past := Attempts(image.log);
    if past != [] { WholeInterval(past[|past| - 1], s.intervalMinutes, now); }
    WholeBelow(s.notBefore.value, now);
    EnabledBelowThreshold(image.log);
  }

  lemma {:induction false} EnabledBelowThreshold(log: Log)
    requires Legal(log) && IsEnabled(log)
    ensures Trailing(log) < FAILURE_THRESHOLD
  {
    if log != [] {
      var before := log[..|log| - 1];
      if IsEnabled(before) { EnabledBelowThreshold(before); }
    }
  }

  lemma StartedLog(s: State, log: Log, stamp: int, interval: int, attempts: seq<int>)
    requires Legal(log) && Counters(s, log) && MayAttempt(log, stamp, interval)
    ensures var e := Attempted(stamp, interval);
            && Legal(log + [e]) && Attempts(log + [e]) == Attempts(log) + [stamp] && Spaced(Attempts(log) + [stamp])
            && Counters(s.(lastAttempt := Some(stamp), attempts := attempts, running := true), log + [e])
  {
    var e := Attempted(stamp, interval);
    LegalExtend(log, e);
    ExtendCounters(log, e);
    AttemptsSpaced(log + [e]);
    hide Legal, MayAttempt;
  }

  lemma StartedValid(s: State, now: int, attempts: seq<int>)
    requires ValidState(s, now) && Increasing(attempts) && |attempts| <= MAX_REQUESTS_PER_DAY
    requires attempts != [] && attempts[|attempts| - 1] == Stamp(now)
    requires s.lastSuccess.Some? ==> s.lastSuccess.value <= Stamp(now)
    ensures ValidState(s.(lastAttempt := Some(Stamp(now)), attempts := attempts, running := true), now)
  {
    forall i | 0 <= i < |attempts| ensures attempts[i] <= now + SECOND {
      assert i < |attempts| - 1 ==> attempts[i] < attempts[|attempts| - 1];
    }
  }

  lemma AllBelow(past: seq<int>, stamp: int)
    requires Spaced(past + [stamp])
    ensures forall x | x in past :: x < stamp
  {
    var all := past + [stamp];
    forall x | x in past ensures x < stamp {
      var i :| 0 <= i < |past| && past[i] == x;
      assert all[i] == x && all[|past|] == stamp;
    }
  }

  /** What the eligibility check says of the stored state. */
  lemma EligibleFacts(image: Image, now: int)
    requires Faithful(image) && ValidState(image.state, now) && Evaluate(image.state, now) == SchedulerReady
    ensures var s, past := image.state, Attempts(image.log);
            && Window(s.attempts, s.lastAttempt, past) && Increasing(s.attempts)
            && (past != [] ==> past[|past| - 1] <= now)
            && |Recent(s.attempts, now - DAILY_WINDOW)| < MAX_REQUESTS_PER_DAY
            && (forall i | 0 <= i < |past| :: Whole(past[i]))
  {
    hide Legal, Counters, Whole, Attempts;
  }

  /** The attempt about to be recorded is one the history allows, and its window is the recent past. */
  lemma ReadyToStart(image: Image, now: int) returns (from: nat)
    requires Faithful(image) && ValidState(image.state, now) && !image.state.running
    requires Evaluate(image.state, now) == SchedulerReady
    ensures var s, past := image.state, Attempts(image.log);
            && from <= |past| && |past| - from < MAX_REQUESTS_PER_DAY
            && Stamps(Recent(s.attempts, now - DAILY_WINDOW)) == past[from..]
            && (forall i | 0 <= i < from :: past[i] + DAILY_WINDOW <= Stamp(now))
            && MayAttempt(image.log, Stamp(now), s.intervalMinutes * MINUTE)
  {
    hide MayAttempt, Evaluate, Recent, Stamp, Whole, Increasing, ValidState, Faithful, Window, Attempts, Stamps;
    EligibleFacts(image, now);
    from := RecentOfHistory(image.state, Attempts(image.log), now);
    StartMayAttempt(image, now, from);
    StampsOfWhole(Attempts(image.log)[from..]);
  }

  lemma StartedKeeps(image: Image, now: int)
    requires Faithful(image) && ValidState(image.state, now) && !image.state.running
    requires Evaluate(image.state, now) == SchedulerReady
    ensures Faithful(Started(image, now)) && ValidState(Started(image, now).state, now)
    ensures Started(image, now).state.running && Started(image, now).state.lastAttempt == Some(Stamp(now))
    ensures forall x | x in Attempts(image.log) :: x < Stamp(now)
  {
    hide MayAttempt, Evaluate, Recent, Whole, Stamp, Increasing, Window, Legal, Counters, ValidState, Attempts, Spaced;
    var s := image.state;
    var past := Attempts(image.log);
    var from := ReadyToStart(image, now);
    StartedLog(s, image.log, Stamp(now), s.intervalMinutes * MINUTE, past[from..] + [Stamp(now)]);
    AllBelow(past, Stamp(now));
    StartedWindow(s, past, from, now);
    SuccessStaysBefore(image, now);
    StartedValid(s, now, past[from..] + [Stamp(now)]);
  }

  lemma SuccessStaysBefore(image: Image, now: int)
    requires Faithful(image) && ValidState(image.state, now)
    requires forall x | x in Attempts(image.log) :: x < Stamp(now)
    ensures image.state.lastSuccess.Some? ==> image.state.lastSuccess.value <= Stamp(now)
  {
    hide Legal, Stamp, Counters;
    var past := Attempts(image.log);
    if past != [] { assert past[|past| - 1] in past; }
  }

  lemma StartedWindow(s: State, past: seq<int>, from: nat, now: int)
    requires Window(s.attempts, s.lastAttempt, past) && from <= |past|
    requires |past| - from < MAX_REQUESTS_PER_DAY
    requires forall i | 0 <= i < from :: past[i] + DAILY_WINDOW <= Stamp(now)
    requires Spaced(past + [Stamp(now)])
    ensures var all := past + [Stamp(now)];
            var attempts := past[from..] + [Stamp(now)];
            && Window(attempts, Some(Stamp(now)), all)
            && Increasing(attempts)
  {
    var all := past + [Stamp(now)];
    var attempts := past[from..] + [Stamp(now)];
    assert attempts == all[from..];
    forall i, j | 0 <= i < j < |attempts| ensures attempts[i] < attempts[j] {
      assert attempts[i] == all[from + i] && attempts[j] == all[from + j];
    }
  }

  lemma DoneKeeps(image: Image, now: int, result: Collected)
    requires Faithful(image) && ValidState(image.state, now) && image.state.running
    requires image.state.lastAttempt == Some(Stamp(now))
    ensures Faithful(Done(image, now, result)) && ValidState(Done(image, now, result).state, now)
  {
    match result
    case Success => SucceededKeeps(image, now);
    case Failure(error) => FailedKeeps(image, now, if error.Some? then error.value else ValidationFailed);
    case Raised => FailedKeeps(image, now, WorkerCrashed);
  }

  /** Enabling, disabling and resetting write states that the writer accepts. */
  lemma EnableKeeps(image: Image, now: int)
    requires Faithful(image) && ValidState(image.state, now)
    requires image.state.circuit == ReadyDisabled && !image.state.running
    ensures var nb := Stamp(now + NORMAL_INTERVAL);
            var next := Image(image.state.(enabled := true, circuit := Ready, notBefore := Some(nb)),
                              image.log + [Enabled(nb)]);
            Faithful(next) && ValidState(next.state, now)
  {
    hide Legal, MayAttempt, Increasing;
    var e := Enabled(Stamp(now + NORMAL_INTERVAL));
    LegalExtend(image.log, e);
    ExtendCounters(image.log, e);
  }

  lemma DisableKeeps(image: Image, now: int)
    requires Faithful(image) && ValidState(image.state, now) && image.state.circuit == Ready && !image.state.running
    ensures var next := Image(image.state.(enabled := false, circuit := ReadyDisabled), image.log + [Disabled]);
            Faithful(next) && ValidState(next.state, now)
  {
    hide Legal, MayAttempt, Increasing;
    LegalExtend(image.log, Disabled);
    ExtendCounters(image.log, Disabled);
  }

  lemma ResetKeeps(image: Image, now: int)
    requires Faithful(image) && ValidState(image.state, now) && image.state.circuit == CircuitOpen
    ensures var s := image.state.(enabled := false, circuit := ReadyDisabled, failures := 0, running := false);
            var next := Image(s, image.log + [ResetApproved]);
            Faithful(next) && ValidState(next.state, now)
  {
    hide Legal, MayAttempt, Increasing;
    LegalExtend(image.log, ResetApproved);
    ExtendCounters(image.log, ResetApproved);
  }

  lemma {:induction false} AttemptsCarry(before: Log, after: Log, x: int)
    requires before <= after && x in Attempts(before)
    ensures x in Attempts(after)
    decreases |after|
  {
    if before != after {
      assert before <= after[..|after| - 1];
      AttemptsCarry(before, after[..|after| - 1], x);
    }
  }

  lemma WriteKeeps(w: World, image: Image, now: int, write: Write)
    requires Inv(w) && Faithful(image) && Visible(w).log <= image.log
    ensures Inv(WriteState(w, image, now, write))
    ensures Wrote(image, now, write) ==> WriteState(w, image, now, write).images == [image]
  {
    hide Faithful, ValidState, Increasing;
    var w2 := WriteState(w, image, now, write);
    assert w.images[0].log <= Visible(w).log <= image.log;
    forall i | 0 <= i < |w2.calls| ensures w2.calls[i] in Attempts(w2.images[0].log) {
      AttemptsCarry(w.images[0].log, w2.images[0].log, w.calls[i]);
    }
  }

  lemma CallKeeps(w: World, stamp: int)
    requires Inv(w) && stamp in Attempts(w.images[0].log)
    requires forall i | 0 <= i < |w.calls| :: w.calls[i] < stamp
    ensures Inv(w.(calls := w.calls + [stamp]))
  {
    hide Faithful;
  }

  lemma StartedExtends(image: Image, now: int)
    ensures image.log <= Started(image, now).log
    ensures Stamp(now) in Attempts(Started(image, now).log)
  {
    LegalExtend(image.log, Attempted(Stamp(now), image.state.intervalMinutes * MINUTE));
  }

  lemma VisibleFaithful(w: World)
    requires Inv(w)
    ensures Faithful(Visible(w))
  {
  }

  lemma DoneExtends(image: Image, now: int, result: Collected)
    ensures image.log <= Done(image, now, result).log
  {
  }

  /** No call made so far has the stamp of an attempt that extends the log. */
  lemma CallsBefore(w: World, now: int)
    requires Inv(w) && forall x | x in Attempts(Visible(w).log) :: x < Stamp(now)
    ensures forall i | 0 <= i < |w.calls| :: w.calls[i] < Stamp(now)
  {
    hide Faithful, Increasing, Attempts, Stamp;
    forall i | 0 <= i < |w.calls|
      ensures w.calls[i] < Stamp(now)
    {
      AttemptsCarry(w.images[0].log, Visible(w).log, w.calls[i]);
    }
  }

  lemma SyncedOnly(w: World, image: Image, now: int, write: Write)
    requires Wrote(image, now, write)
    ensures WriteState(w, image, now, write) == w.(images := [image])
  {
  }

  /** The collector is called once its attempt is durable, and its outcome is written. */
  lemma CollectKeeps(w: World, started: Image, now: int, result: Collected, second: Write)
    requires Inv(w) && w.images == [started] && ValidState(started.state, now) && started.state.running
    requires started.state.lastAttempt == Some(Stamp(now)) && Stamp(now) in Attempts(started.log)
    requires forall i | 0 <= i < |w.calls| :: w.calls[i] < Stamp(now)
    ensures Inv(WriteState(w.(calls := w.calls + [Stamp(now)]), Done(started, now, result), now, second))
  {
    hide Inv, Faithful, ValidState, Attempts, Done, WriteState, Stamp;
    VisibleFaithful(w);
    CallKeeps(w, Stamp(now));
    DoneKeeps(started, now, result);
    DoneExtends(started, now, result);
    WriteKeeps(w.(calls := w.calls + [Stamp(now)]), Done(started, now, result), now, second);
  }

  /** A started image that the file may hold, with a stamp later than every call made. */
  ghost predicate MayStart(w: World, started: Image, now: int) {
    && w.images != [] && Faithful(started) && ValidState(started.state, now) && Visible(w).log <= started.log
    && started.state.running && started.state.lastAttempt == Some(Stamp(now)) && Stamp(now) in Attempts(started.log)
    && forall i | 0 <= i < |w.calls| :: w.calls[i] < Stamp(now)
  }

  lemma AttemptKeeps(w: World, started: Image, now: int, first: Write, called: bool, result: Collected, second: Write)
    requires Inv(w) && MayStart(w, started, now)
    ensures Inv(AttemptSpec(w, started, now, first, called, result, second))
  {
    hide Inv, Faithful, ValidState, Attempts, Done, WriteState, Stamp, Wrote;
    WriteKeeps(w, started, now, first);
    if Wrote(started, now, first) && called {
      SyncedOnly(w, started, now, first);
      CollectKeeps(w.(images := [started]), started, now, result, second);
    }
  }

  lemma StartedMayStart(w: World, now: int)
    requires Inv(w) && ValidState(Visible(w).state, now) && !Visible(w).state.running
    requires Evaluate(Visible(w).state, now) == SchedulerReady
    ensures MayStart(w, Started(Visible(w), now), now)
  {
    assert w.images != [];
    hide Inv, Faithful, ValidState, Evaluate, Started, Attempts, Stamp;
    VisibleFaithful(w);
    StartedKeeps(Visible(w), now);
    StartedExtends(Visible(w), now);
    CallsBefore(w, now);
  }

  lemma FailedExtends(image: Image, error: FailureClass)
    ensures image.log <= Failed(image, error).log
  {
  }

  lemma RunOnceKeeps(w: World, now: int, first: Write, called: bool, result: Collected, second: Write)
    requires Inv(w)
    ensures Inv(RunOnceSpec(w, now, first, called, result, second))
  {
    assert w.images != [];
    hide Inv, Faithful, ValidState, Evaluate, Started, WriteState, Failed, AttemptSpec, MayStart;
    var image := Visible(w);
    if ValidState(image.state, now) {
      VisibleFaithful(w);
      if image.state.running {
        FailedKeeps(image, now, WorkerCrashed);
        FailedExtends(image, WorkerCrashed);
        WriteKeeps(w, Failed(image, WorkerCrashed), now, first);
      } else if Evaluate(image.state, now) == SchedulerReady {
        StartedMayStart(w, now);
        AttemptKeeps(w, Started(image, now), now, first, called, result, second);
      }
    }
  }

  lemma EnableSpecKeeps(w: World, now: int, write: Write)
    requires Inv(w)
    ensures Inv(EnableSpec(w, now, write))
  {
    assert w.images != [];
    hide Inv, Faithful, ValidState, WriteState, Stamp;
    var image := Visible(w);
    VisibleFaithful(w);
    if EnableSpec(w, now, write) != w {
      EnableKeeps(image, now);
      var nb := Stamp(now + NORMAL_INTERVAL);
      WriteKeeps(w, Image(image.state.(enabled := true, circuit := Ready, notBefore := Some(nb)),
                          image.log + [Enabled(nb)]), now, write);
    }
  }

  lemma DisableSpecKeeps(w: World, now: int, write: Write)
    requires Inv(w)
    ensures Inv(DisableSpec(w, now, write))
  {
    assert w.images != [];
    hide Inv, Faithful, ValidState, WriteState;
    var image := Visible(w);
    VisibleFaithful(w);
    if DisableSpec(w, now, write) != w {
      DisableKeeps(image, now);
      WriteKeeps(w, Image(image.state.(enabled := false, circuit := ReadyDisabled), image.log + [Disabled]), now,
                 write);
    }
  }

  lemma ResetSpecKeeps(w: World, now: int, write: Write)
    requires Inv(w)
    ensures Inv(ResetSpec(w, now, write))
  {
    assert w.images != [];
    hide Inv, Faithful, ValidState, WriteState;
    var image := Visible(w);
    VisibleFaithful(w);
    if ResetSpec(w, now, write) != w {
      ResetKeeps(image, now);
      var s := image.state.(enabled := false, circuit := ReadyDisabled, failures := 0, running := false);
      WriteKeeps(w, Image(s, image.log + [ResetApproved]), now, write);
    }
  }

  lemma StepKeeps(w: World, e: Event)
    requires Inv(w)
    ensures Inv(Apply(w, e))
  {
    assert w.images != [];
    hide Inv, RunOnceSpec, EnableSpec, DisableSpec, ResetSpec;
    match e
    case RunOnce(now, first, called, result, second) => RunOnceKeeps(w, now, first, called, result, second);
    case EnableScheduled(now, write) => EnableSpecKeeps(w, now, write);
    case DisableScheduled(now, write) => DisableSpecKeeps(w, now, write);
    case ApproveReset(now, write) => ResetSpecKeeps(w, now, write);
    case PowerLoss(kept) => PowerLossKeeps(w, kept);
  }

  lemma PowerLossKeeps(w: World, kept: nat)
    requires Inv(w)
    ensures Inv(Apply(w, PowerLoss(kept)))
  {
    hide Faithful, Increasing;
    if kept < |w.images| {
      forall i | 0 <= i < |w.calls| ensures w.calls[i] in Attempts(w.images[kept].log) {
        AttemptsCarry(w.images[0].log, w.images[kept].log, w.calls[i]);
      }
    }
  }

  lemma {:induction false} RunKeeps(w: World, events: seq<Event>)
    requires Inv(w)
    ensures Inv(Run(w, events))
    decreases |events|
  {
    assert w.images != [];
    hide Inv, Apply;
    if events != [] {
      StepKeeps(w, events[0]);
      RunKeeps(Apply(w, events[0]), events[1..]);
    }
  }

  lemma InitialHolds(k: Minutes)
    ensures Inv(Initial(k))
  {
  }

  lemma Reachable(k: Minutes, events: seq<Event>)
    ensures Inv(Run(Initial(k), events))
  {
    hide Inv, Run;
    InitialHolds(k);
    RunKeeps(Initial(k), events);
  }

  /** Increasing picks from a spaced list keep their distance in the list. */
  lemma {:induction false} PickedIndices(picks: seq<int>, past: seq<int>, i: nat, j: nat) returns (a: nat, b: nat)
    requires Increasing(picks) && Spaced(past) && i <= j < |picks|
    requires forall k | 0 <= k < |picks| :: picks[k] in past
    ensures a < |past| && b < |past| && past[a] == picks[i] && past[b] == picks[j]
    ensures a + (j - i) <= b
  {
    if i == j {
      a :| 0 <= a < |past| && past[a] == picks[i];
      b := a;
    } else {
      var mid: nat;
      a, mid := PickedIndices(picks, past, i, j - 1);
      b :| 0 <= b < |past| && past[b] == picks[j];
      assert picks[j - 1] < picks[j];
      SpacedOrder(past, b, mid);
    }
  }

  lemma SpacedOrder(past: seq<int>, b: nat, mid: nat)
    requires Spaced(past) && b < |past| && mid < |past|
    ensures b <= mid ==> past[b] <= past[mid]
  {
  }

  lemma PickedWindow(picks: seq<int>, past: seq<int>)
    requires Increasing(picks) && Spaced(past) && Budgeted(past)
    requires forall k | 0 <= k < |picks| :: picks[k] in past
    ensures Spaced(picks) && Budgeted(picks)
  {
    forall i, j | 0 <= i < j < |picks|
      ensures picks[i] + 30 * MINUTE <= picks[j]
      ensures i + MAX_REQUESTS_PER_DAY <= j ==> picks[i] + DAILY_WINDOW <= picks[j]
    {
      var a, b := PickedIndices(picks, past, i, j);
    }
  }

  lemma InvBudget(w: World, t: int)
    requires Inv(w)
    ensures CountIn(Attempts(Visible(w).log), t - DAILY_WINDOW, t) <= MAX_REQUESTS_PER_DAY
    ensures CountIn(w.calls, t - DAILY_WINDOW, t) <= MAX_REQUESTS_PER_DAY
    ensures Spaced(Attempts(Visible(w).log)) && Spaced(w.calls)
    ensures forall x | x in w.calls :: x in Attempts(w.images[0].log)
  {
    assert Faithful(Visible(w)) && Faithful(w.images[0]);
    DailyBudget(Visible(w).log, t);
    AttemptsSpaced(Visible(w).log);
    hide Faithful;
    AttemptsSpaced(w.images[0].log);
    PickedWindow(w.calls, Attempts(w.images[0].log));
    CountWindow(w.calls, t);
  }

  /**
    Over every run, with clock readings in any order and crashes and power losses anywhere: whatever the
    file holds, its unbounded history has at most 24 attempts in any 24 hours, keeps them half an hour apart,
    and every collector call is one of its durable attempts, no two calls sharing one.
   */
  lemma BudgetOverRuns(k: Minutes, events: seq<Event>, t: int)
    ensures var w := Run(Initial(k), events);
            && CountIn(Attempts(Visible(w).log), t - DAILY_WINDOW, t) <= MAX_REQUESTS_PER_DAY
            && CountIn(w.calls, t - DAILY_WINDOW, t) <= MAX_REQUESTS_PER_DAY
            && Spaced(Attempts(Visible(w).log)) && Spaced(w.calls)
            && (forall x | x in w.calls :: x in Attempts(w.images[0].log))
  {
    hide Inv, Run;
    Reachable(k, events);
    InvBudget(Run(Initial(k), events), t);
  }

  // The configured interval

  ghost predicate IntervalKept(image: Image, k: int) {
    && image.state.intervalMinutes == k
    && forall i | 0 <= i < |image.log| && image.log[i].Attempted? :: image.log[i].interval == k * MINUTE
  }

  lemma StepKeepsInterval(w: World, e: Event, k: int)
    requires w.images != [] && forall i | 0 <= i < |w.images| :: IntervalKept(w.images[i], k)
    ensures forall i | 0 <= i < |Apply(w, e).images| :: IntervalKept(Apply(w, e).images[i], k)
  {
    var image := Visible(w);
    assert IntervalKept(image, k);
    if e.RunOnce? {
      StartedInterval(image, e.now, k);
      FailedInterval(image, WorkerCrashed, k);
      DoneInterval(Started(image, e.now), e.now, e.result, k);
    }
    hide ValidState, Evaluate, Started, Done, Failed;
  }

  lemma StartedInterval(image: Image, now: int, k: int)
    requires IntervalKept(image, k)
    ensures IntervalKept(Started(image, now), k)
  {
  }

  lemma FailedInterval(image: Image, error: FailureClass, k: int)
    requires IntervalKept(image, k)
    ensures IntervalKept(Failed(image, error), k)
  {
  }

  lemma DoneInterval(image: Image, now: int, result: Collected, k: int)
    requires IntervalKept(image, k)
    ensures IntervalKept(Done(image, now, result), k)
  {
  }

  lemma {:induction false} RunKeepsInterval(w: World, events: seq<Event>, k: int)
    requires w.images != [] && forall i | 0 <= i < |w.images| :: IntervalKept(w.images[i], k)
    ensures forall i | 0 <= i < |Run(w, events).images| :: IntervalKept(Run(w, events).images[i], k)
    decreases |events|
  {
    hide Apply, IntervalKept;
    if events != [] {
      StepKeepsInterval(w, events[0], k);
      RunKeepsInterval(Apply(w, events[0]), events[1..], k);
    }
  }

  ghost predicate Apart(times: seq<int>, gap: int) {
    forall i, j | 0 <= i < j < |times| :: times[i] + gap <= times[j]
  }

  lemma {:induction false} AttemptsApart(log: Log, gap: int)
    requires Legal(log) && 0 <= gap
    requires forall i | 0 <= i < |log| && log[i].Attempted? :: log[i].interval == gap
    ensures Apart(Attempts(log), gap)
  {
    if log != [] {
      AttemptsApart(log[..|log| - 1], gap);
    }
  }

  lemma PickedApart(picks: seq<int>, past: seq<int>, gap: int)
    requires Increasing(picks) && Spaced(past) && Apart(past, gap)
    requires forall k | 0 <= k < |picks| :: picks[k] in past
    ensures Apart(picks, gap)
  {
    hide Spaced;
    forall i, j | 0 <= i < j < |picks|
      ensures picks[i] + gap <= picks[j]
    {
      var a, b := PickedIndices(picks, past, i, j);
    }
  }

  /** Over every run, whatever the file holds, attempts and collector calls are the configured interval apart. */
  lemma ConfiguredIntervalOverRuns(k: Minutes, events: seq<Event>)
    ensures var w := Run(Initial(k), events);
            && (forall i | 0 <= i < |w.images| ::
                  w.images[i].state.intervalMinutes == k && Apart(Attempts(w.images[i].log), k * MINUTE))
            && Apart(w.calls, k * MINUTE)
  {
    hide Faithful, Run, Spaced, Apart, Attempts, IntervalKept, Increasing;
    Reachable(k, events);
    ProvisionedInterval(k);
    RunKeepsInterval(Initial(k), events, k);
    var w := Run(Initial(k), events);
    forall i | 0 <= i < |w.images|
      ensures w.images[i].state.intervalMinutes == k && Apart(Attempts(w.images[i].log), k * MINUTE)
    {
      ImageApart(w.images[i], k);
    }
    ImageApart(w.images[0], k);
    PickedApart(w.calls, Attempts(w.images[0].log), k * MINUTE);
  }

  lemma ProvisionedInterval(k: Minutes)
    ensures IntervalKept(Initial(k).images[0], k)
  {
  }

  lemma ImageApart(image: Image, k: Minutes)
    requires Faithful(image) && IntervalKept(image, k)
    ensures image.state.intervalMinutes == k && Apart(Attempts(image.log), k * MINUTE) && Spaced(Attempts(image.log))
  {
    hide Window, Counters, Legal, Apart, Spaced;
    AttemptsSpaced(image.log);
    AttemptsApart(image.log, k * MINUTE);
  }

  /** The persisted counters are the history's own, and the circuit is open exactly at the threshold. */
  lemma StateTellsHistory(k: Minutes, events: seq<Event>)
    ensures var image := Visible(Run(Initial(k), events));
            && image.state.failures == Trailing(image.log)
            && (image.state.circuit == CircuitOpen <==> Trailing(image.log) >= FAILURE_THRESHOLD)
            && image.state.enabled == IsEnabled(image.log)
            && (image.state.running ==> image.state.enabled)
            && image.state.notBefore == LatestNotBefore(image.log)
  {
    Reachable(k, events);
    assert Faithful(Visible(Run(Initial(k), events)));
    hide Window, Legal;
  }

  /**
    Over every run, an attempt recorded after two failures in a row has an approved reset and a later
    enabling between them, and no attempt is stamped before the not-before time then in force.
   */
  lemma CircuitBreakerOverRuns(k: Minutes, events: seq<Event>, i: nat, j: nat)
    requires var log := Visible(Run(Initial(k), events)).log; i <= j < |log| && log[j].Attempted?
    ensures var log := Visible(Run(Initial(k), events)).log;
            && (LatestNotBefore(log[..j]).Some? ==> LatestNotBefore(log[..j]).value <= log[j].stamp)
            && (Trailing(log[..i]) >= FAILURE_THRESHOLD ==>
                  exists r, e | i <= r < e < j :: log[r] == ResetApproved && log[e].Enabled?)
  {
    Reachable(k, events);
    var image := Visible(Run(Initial(k), events));
    assert Faithful(image);
    hide Window, Counters, Legal;
    NeverBefore(image.log, j);
    if Trailing(image.log[..i]) >= FAILURE_THRESHOLD {
      var r, e := CircuitBreaker(image.log, i, j);
    }
  }

  /** In every reachable state, whatever an operation decides to write passes its own validation. */
  lemma NoWriteRejected(k: Minutes, events: seq<Event>, now: int, result: Collected)
    ensures var image := Visible(Run(Initial(k), events));
            var s := image.state;
            ValidState(s, now) ==>
              && (s.running ==> ValidState(Failed(image, WorkerCrashed).state, now))
              && (!s.running && Evaluate(s, now) == SchedulerReady ==>
                    && ValidState(Started(image, now).state, now)
                    && ValidState(Done(Started(image, now), now, result).state, now))
              && (s.circuit == ReadyDisabled ==>
                    ValidState(s.(enabled := true, circuit := Ready, notBefore := Some(Stamp(now + NORMAL_INTERVAL))),
                               now))
              && (s.circuit == Ready && !s.running ==> ValidState(s.(enabled := false, circuit := ReadyDisabled), now))
              && (s.circuit == CircuitOpen ==>
                    ValidState(s.(enabled := false, circuit := ReadyDisabled, failures := 0, running := false), now))
  {
    Reachable(k, events);
    var image := Visible(Run(Initial(k), events));
    var s := image.state;
    assert Faithful(image) && s.running ==> s.enabled;
    if ValidState(s, now) {
      hide Faithful, ValidState, Done, Failed, Started, Evaluate;
      if s.running { FailedKeeps(image, now, WorkerCrashed); }
      if !s.running && Evaluate(s, now) == SchedulerReady {
        StartedKeeps(image, now);
        DoneKeeps(Started(image, now), now, result);
      }
      if s.circuit == ReadyDisabled { NotRunningWhenDisabled(image); EnableKeeps(image, now); }
      if s.circuit == Ready && !s.running { DisableKeeps(image, now); }
      if s.circuit == CircuitOpen { ResetKeeps(image, now); }
    }
  }

  lemma NotRunningWhenDisabled(image: Image)
    requires Faithful(image) && image.state.circuit == ReadyDisabled
    ensures !image.state.running
  {
    hide Window, Legal;
  }

  /** The collector is called only once the attempt is the file's one durable content. */
  lemma CallsFollowDurableAttempt(w: World, e: Event)
    requires w.images != []
    ensures Apply(w, e).calls != w.calls ==>
              && e.RunOnce? && e.called && e.first == Synced
              && Evaluate(Visible(w).state, e.now) == SchedulerReady
              && WriteState(w, Started(Visible(w), e.now), e.now, e.first).images == [Started(Visible(w), e.now)]
              && Apply(w, e).calls == w.calls + [Stamp(e.now)]
  {
    hide ValidState, Evaluate, Started, Done;
  }

  /**
    `validate_state` alone admits an interrupted run in a disabled state. Recovery then re-enables the
    scheduler exactly when no failure had been counted, and that write goes through exactly when a not-before
    time is present. Reachable states exclude this, since there a run in progress means enabled.
   */
  lemma RecoveryReenables(s: State, now: int)
    requires ValidState(s, now) && s.running && !s.enabled
    ensures RecordFailure(s, WorkerCrashed).enabled <==> s.failures == 0
    ensures ValidState(RecordFailure(s, WorkerCrashed), now) <==> s.failures != 0 || s.notBefore.Some?
  {
    hide Increasing;
  }

  lemma RecoveryReenablesWitness()
    ensures exists s: State :: ValidState(s, 0) && s.running && !s.enabled
              && RecordFailure(s, WorkerCrashed).enabled && ValidState(RecordFailure(s, WorkerCrashed), 0)
  {
    var s := DISABLED_STATE.(running := true, notBefore := Some(0));
    assert ValidState(s, 0) && RecordFailure(s, WorkerCrashed).enabled;
  }

  // What each run leaves, in the state's own fields

  /** The failure class a collector's answer stands for. */
  predicate FailsWith(result: Collected, error: FailureClass) {
    match result
    case Success => false
    case Failure(reported) => error == (if reported.Some? then reported.value else ValidationFailed)
    case Raised => error == WorkerCrashed
  }

  lemma FailedTells(image: Image, error: FailureClass)
    requires 0 <= image.state.failures
    ensures RecordsFailure(image.state, Failed(image, error).state, error)
    ensures Failed(image, error).log == image.log + [FailedRun(error)]
  {
  }

  /** The collector's answer as it is recorded: a success or one failure of its class, in the state and in the log. */
  lemma DoneTells(image: Image, now: int, result: Collected)
    requires 0 <= image.state.failures
    ensures var after := Done(image, now, result);
            && (result.Success? ==>
                  RecordsSuccess(image.state, after.state, now) && after.log == image.log + [Succeeded])
            && (forall error | FailsWith(result, error) ::
                  RecordsFailure(image.state, after.state, error) && after.log == image.log + [FailedRun(error)])
  {
  }

  lemma StartedTells(image: Image, now: int)
    requires Faithful(image) && ValidState(image.state, now)
    ensures RecordsAttempt(image.state, Started(image, now).state, now)
  {
    var s := image.state;
    var cutoff := now - DAILY_WINDOW;
    assert forall x | x in s.attempts :: Whole(x) by {
      var past := Attempts(image.log);
      assert s.attempts == past[|past| - |s.attempts|..];
    }
    hide Faithful, ValidState;
    RecentElements(s.attempts, cutoff);
    StampsOfWhole(Recent(s.attempts, cutoff));
  }

  /** The recovery of an interrupted run: one more failure, no call. */
  ghost predicate Recovers(before: Image, after: Image) {
    RecordsFailure(before.state, after.state, WorkerCrashed) && after.log == before.log + [FailedRun(WorkerCrashed)]
  }

  /** An attempt and its answer: the stamp first, then the success or the failure that was reported. */
  ghost predicate Concludes(before: Image, mid: State, after: Image, now: int, result: Collected) {
    var log := before.log + [Attempted(Stamp(now), before.state.intervalMinutes * MINUTE)];
    && RecordsAttempt(before.state, mid, now)
    && (result.Success? ==> RecordsSuccess(mid, after.state, now) && after.log == log + [Succeeded])
    && (forall error | FailsWith(result, error) ::
          RecordsFailure(mid, after.state, error) && after.log == log + [FailedRun(error)])
  }

  /** What a run leaves: nothing, a recovery, or a call of the collector and its answer, as far as its writes get. */
  ghost predicate RunTells(w: World, w2: World, now: int, first: Write, called: bool, result: Collected, second: Write)
    requires w.images != [] && w2.images != []
  {
    var before := Visible(w);
    if !ValidState(before.state, now) then w2 == w
    else if before.state.running then
      w2.calls == w.calls && (first == Synced ==> w2.images == [Visible(w2)] && Recovers(before, Visible(w2)))
    else if !Eligible(before.state, now) then w2 == w
    else
      && w2.calls == (if first == Synced && called then w.calls + [Stamp(now)] else w.calls)
      && (first == Synced && called && second == Synced ==>
            w2.images == [Visible(w2)] && exists mid :: Concludes(before, mid, Visible(w2), now, result))
  }

  /** The refusal names the first reason there is. */
  predicate Explains(s: State, now: int, outcome: Outcome) {
    match outcome
    case SchedulerCircuitOpen => s.circuit == CircuitOpen
    case SchedulerDisabled => !s.enabled && s.circuit == ReadyDisabled
    case SchedulerNotBefore => s.enabled && Waiting(s, now)
    case SchedulerMinInterval => s.enabled && !Waiting(s, now) && TooSoon(s, now)
    case SchedulerDailyBudgetExceeded => s.enabled && !Waiting(s, now) && !TooSoon(s, now) && Spent(s, now)
    case SchedulerReady => false
  }

  /** The answer of a run, in the state's own fields: success is answered exactly when it was reported and stored. */
  ghost predicate AnswerTells(s: State, answer: Answer, now: int, first: Write, called: bool, result: Collected,
                              second: Write)
  {
    var collected := ValidState(s, now) && !s.running && Eligible(s, now)
                     && first == Synced && called && second == Synced;
    && (answer == StateInvalid <==> !ValidState(s, now))
    && (answer == RecoveredInterruptedRun <==> ValidState(s, now) && s.running && first == Synced)
    && (answer.Refused? <==> ValidState(s, now) && !s.running && !Eligible(s, now))
    && (answer.Refused? ==> Explains(s, now, answer.outcome))
    && (answer == CollectionSucceeded <==> collected && result.Success?)
    && (answer.CollectionFailed? <==> collected && !result.Success?)
    && (answer.CollectionFailed? ==> FailsWith(result, answer.error))
  }

  /** What decides an answer, once the writes that a run attempts are known to be valid. */
  lemma AnswerFrom(w: World, now: int, first: Write, called: bool, result: Collected, second: Write)
    requires w.images != []
    requires var image, started := Visible(w), Started(Visible(w), now);
             ValidState(image.state, now) ==>
               if image.state.running then ValidState(Failed(image, WorkerCrashed).state, now)
               else
                 && (Evaluate(image.state, now) == SchedulerReady <==> Eligible(image.state, now))
                 && (!Eligible(image.state, now) ==> Explains(image.state, now, Evaluate(image.state, now)))
                 && (Eligible(image.state, now) ==>
                       ValidState(started.state, now) && ValidState(Done(started, now, result).state, now))
    ensures AnswerTells(Visible(w).state, AnswerOf(w, now, first, called, result, second), now, first, called, result,
                        second)
  {
    hide ValidState, Evaluate, Eligible, Done, Failed, Started, Explains;
  }

  lemma ExplainedBy(s: State, now: int)
    requires ValidState(s, now)
    ensures Evaluate(s, now) == SchedulerReady <==> Eligible(s, now)
    ensures !Eligible(s, now) ==> Explains(s, now, Evaluate(s, now))
  {
    EvaluateTells(s, now);
    hide ValidState, Evaluate, Eligible, Waiting, TooSoon, Spent;
  }

  /** The writes a run attempts are valid. */
  lemma WritesValid(w: World, now: int, result: Collected)
    requires Inv(w) && ValidState(Visible(w).state, now)
    ensures var image, started := Visible(w), Started(Visible(w), now);
            if image.state.running then
              ValidState(Failed(image, WorkerCrashed).state, now) && Recovers(image, Failed(image, WorkerCrashed))
            else Eligible(image.state, now) ==>
              && ValidState(started.state, now) && ValidState(Done(started, now, result).state, now)
              && Concludes(image, started.state, Done(started, now, result), now, result)
  {
    assert w.images != [];
    hide Inv, ValidState, Evaluate, Eligible, Faithful, Done, Failed, Started, Concludes, Recovers;
    VisibleFaithful(w);
    ExplainedBy(Visible(w).state, now);
    if Visible(w).state.running {
      RecoveryTells(Visible(w), now);
    } else if Eligible(Visible(w).state, now) {
      StartConcludes(Visible(w), now, result);
    }
  }

  lemma RunOnceAnswers(w: World, now: int, first: Write, called: bool, result: Collected, second: Write)
    requires Inv(w)
    ensures AnswerTells(Visible(w).state, AnswerOf(w, now, first, called, result, second), now, first, called, result,
                        second)
  {
    assert w.images != [];
    hide Inv, ValidState, Evaluate, Eligible, Done, Failed, Started, Explains, Concludes, Recovers, AnswerTells,
      AnswerOf;
    if ValidState(Visible(w).state, now) {
      ExplainedBy(Visible(w).state, now);
      WritesValid(w, now, result);
    }
    AnswerFrom(w, now, first, called, result, second);
  }

  lemma StartConcludes(image: Image, now: int, result: Collected)
    requires Faithful(image) && ValidState(image.state, now) && !image.state.running
    requires Evaluate(image.state, now) == SchedulerReady
    ensures Concludes(image, Started(image, now).state, Done(Started(image, now), now, result), now, result)
    ensures ValidState(Started(image, now).state, now) && ValidState(Done(Started(image, now), now, result).state, now)
  {
    StartedKeeps(image, now);
    StartedTells(image, now);
    DoneKeeps(Started(image, now), now, result);
    assert 0 <= Started(image, now).state.failures by { hide Recent, Stamps; }
    DoneTells(Started(image, now), now, result);
    assert Started(image, now).log == image.log + [Attempted(Stamp(now), image.state.intervalMinutes * MINUTE)];
    hide *;
  }

  lemma RecoveryCase(w: World, now: int, first: Write, called: bool, result: Collected, second: Write)
    requires w.images != [] && ValidState(Visible(w).state, now) && Visible(w).state.running
    requires ValidState(Failed(Visible(w), WorkerCrashed).state, now)
    requires Recovers(Visible(w), Failed(Visible(w), WorkerCrashed))
    ensures RunTells(w, RunOnceSpec(w, now, first, called, result, second), now, first, called, result, second)
  {
    hide ValidState, Failed, Recovers, Concludes, Eligible;
  }

  lemma AttemptCase(w: World, now: int, first: Write, called: bool, result: Collected, second: Write)
    requires w.images != [] && ValidState(Visible(w).state, now) && !Visible(w).state.running
    requires Eligible(Visible(w).state, now) && Evaluate(Visible(w).state, now) == SchedulerReady
    requires var started := Started(Visible(w), now);
             && ValidState(started.state, now) && ValidState(Done(started, now, result).state, now)
             && Concludes(Visible(w), started.state, Done(started, now, result), now, result)
    ensures RunTells(w, RunOnceSpec(w, now, first, called, result, second), now, first, called, result, second)
  {
    hide ValidState, Started, Done, Recovers, Concludes, Eligible, Evaluate, AttemptSpec;
    var started := Started(Visible(w), now);
    AttemptTells(w, started, now, first, called, result, second);
    if first == Synced && called && second == Synced {
      var w2 := AttemptSpec(w, started, now, first, called, result, second);
      assert Visible(w2) == Done(started, now, result);
    }
  }

  /** Every run, from a file in any reachable state, leaves just that. */
  lemma RunOnceTells(w: World, now: int, first: Write, called: bool, result: Collected, second: Write)
    requires Inv(w)
    ensures RunTells(w, RunOnceSpec(w, now, first, called, result, second), now, first, called, result, second)
  {
    assert w.images != [];
    hide Inv, ValidState, Evaluate, Eligible, Done, Failed, Started, Concludes, Recovers;
    var image := Visible(w);
    if ValidState(image.state, now) {
      hide RunTells, RunOnceSpec;
      ExplainedBy(image.state, now);
      WritesValid(w, now, result);
      if image.state.running {
        RecoveryCase(w, now, first, called, result, second);
      } else if Eligible(image.state, now) {
        AttemptCase(w, now, first, called, result, second);
      } else {
        RefusedCase(w, now, first, called, result, second);
      }
    }
  }

  lemma RefusedCase(w: World, now: int, first: Write, called: bool, result: Collected, second: Write)
    requires w.images != [] && ValidState(Visible(w).state, now) && !Visible(w).state.running
    requires !Eligible(Visible(w).state, now) && Evaluate(Visible(w).state, now) != SchedulerReady
    ensures RunTells(w, RunOnceSpec(w, now, first, called, result, second), now, first, called, result, second)
  {
    hide ValidState, Evaluate, Eligible, AttemptSpec;
  }

  /** The writes of an attempt, one after the other. */
  lemma AttemptTells(w: World, started: Image, now: int, first: Write, called: bool, result: Collected, second: Write)
    requires w.images != [] && ValidState(started.state, now) && ValidState(Done(started, now, result).state, now)
    ensures var w2 := AttemptSpec(w, started, now, first, called, result, second);
            && w2.calls == (if first == Synced && called then w.calls + [Stamp(now)] else w.calls)
            && (first == Synced && called && second == Synced ==> w2.images == [Done(started, now, result)])
  {
    hide ValidState, Done, Stamp;
  }

  lemma RecoveryTells(image: Image, now: int)
    requires Faithful(image) && ValidState(image.state, now) && image.state.running
    ensures Recovers(image, Failed(image, WorkerCrashed)) && ValidState(Failed(image, WorkerCrashed).state, now)
  {
    FailedKeeps(image, now, WorkerCrashed);
    FailedTells(image, WorkerCrashed);
    hide Failed, RecordsFailure;
  }

  // Two failing answers open the circuit

  /** Every content the file may have counts at least this many failures. */
  ghost predicate AtLeastFailures(w: World, n: int) {
    w.images != [] && forall i | 0 <= i < |w.images| :: w.images[i].state.failures >= n
  }

  /** The event neither calls the collector with success nor resets. */
  predicate KeepsFailures(w: World, e: Event)
    requires w.images != []
  {
    !e.ApproveReset? && (e.RunOnce? && e.result.Success? ==> Apply(w, e).calls == w.calls)
  }

  /** No event of the run does. */
  predicate NoSuccess(w: World, events: seq<Event>)
    requires w.images != []
    decreases |events|
  {
    events == [] || (KeepsFailures(w, events[0]) && NoSuccess(Apply(w, events[0]), events[1..]))
  }

  /** What a run can leave in the file. */
  lemma RunImages(w: World, e: Event)
    requires w.images != [] && e.RunOnce?
    ensures var started := Started(Visible(w), e.now);
            forall image | image in Apply(w, e).images ::
              || image in w.images || image == Failed(Visible(w), WorkerCrashed) || image == started
              || (image == Done(started, e.now, e.result) && Apply(w, e).calls != w.calls)
  {
    hide ValidState, Evaluate, Done, Failed, Started;
  }

  lemma FailingStep(w: World, e: Event, n: int)
    requires Inv(w) && AtLeastFailures(w, n) && KeepsFailures(w, e)
    ensures AtLeastFailures(Apply(w, e), n)
  {
    hide Inv, Faithful, ValidState, Evaluate, Done, Failed, Started;
    VisibleFaithful(w);
    assert Visible(w).state.failures >= n && forall image | image in w.images :: image.state.failures >= n;
    if e.RunOnce? {
      FailuresGrow(Visible(w), e.now, e.result);
      RunImages(w, e);
      hide Apply;
      forall i | 0 <= i < |Apply(w, e).images|
        ensures Apply(w, e).images[i].state.failures >= n
      {
        assert Apply(w, e).images[i] in Apply(w, e).images;
      }
    }
  }

  lemma FailuresGrow(image: Image, now: int, result: Collected)
    requires Faithful(image)
    ensures Started(image, now).state.failures == image.state.failures
    ensures Failed(image, WorkerCrashed).state.failures >= image.state.failures
    ensures !result.Success? ==> Done(Started(image, now), now, result).state.failures >= image.state.failures
  {
    hide Recent, Stamps, Legal, Window;
  }

  lemma {:induction false} FailingRun(w: World, events: seq<Event>, n: int)
    requires Inv(w) && AtLeastFailures(w, n) && NoSuccess(w, events)
    ensures AtLeastFailures(Run(w, events), n) && Inv(Run(w, events))
    decreases |events|
  {
    assert w.images != [];
    hide Inv, Apply, AtLeastFailures, KeepsFailures;
    if events != [] {
      StepKeeps(w, events[0]);
      FailingStep(w, events[0], n);
      FailingRun(Apply(w, events[0]), events[1..], n);
    }
  }

  /** The collector was called, answered with a failure, and the answer is durable. */
  predicate FailingCall(w: World, e: Event)
    requires w.images != []
  {
    && e.RunOnce? && !e.result.Success? && e.first == Synced && e.called && e.second == Synced
    && Apply(w, e).calls != w.calls
  }

  lemma FailingCallCounts(w: World, e: Event, n: int)
    requires Inv(w) && FailingCall(w, e) && AtLeastFailures(w, n) && n <= 1
    ensures AtLeastFailures(Apply(w, e), n + 1)
  {
    assert Visible(w).state.failures >= n;
    hide Inv, RunOnceSpec, ValidState, Eligible;
    RunOnceTells(w, e.now, e.first, e.called, e.result, e.second);
    var mid :| Concludes(Visible(w), mid, Visible(Apply(w, e)), e.now, e.result);
    SomeFailure(e.result);
  }

  lemma SomeFailure(result: Collected)
    requires !result.Success?
    ensures exists error :: FailsWith(result, error)
  {
    match result
    case Failure(reported) => assert FailsWith(result, if reported.Some? then reported.value else ValidationFailed);
    case Raised => assert FailsWith(result, WorkerCrashed);
  }

  /**
    Two calls whose failures were reported, with no success reported and no reset between them, whatever else
    happened: the circuit is open in every content the file may have, and until a reset the collector is not called
    again.
   */
  lemma TwoFailuresOpen(k: Minutes, before: seq<Event>, e1: Event, between: seq<Event>, e2: Event, later: seq<Event>)
    requires FailingCall(Run(Initial(k), before), e1)
    requires NoSuccess(Apply(Run(Initial(k), before), e1), between)
    requires FailingCall(Run(Apply(Run(Initial(k), before), e1), between), e2)
    requires forall e | e in later :: !e.ApproveReset?
    ensures var w := Apply(Run(Apply(Run(Initial(k), before), e1), between), e2);
            && (forall i | 0 <= i < |w.images| ::
                  w.images[i].state.circuit == CircuitOpen && !w.images[i].state.enabled)
            && Run(w, later).calls == w.calls
  {
    var w0 := Run(Initial(k), before);
    Reachable(k, before);
    assert AtLeastFailures(w0, 0) by { assert forall i | 0 <= i < |w0.images| :: Faithful(w0.images[i]); }
    hide Inv, Run, Apply, AtLeastFailures, FailingCall, NoSuccess;
    FailingCallCounts(w0, e1, 0);
    StepKeeps(w0, e1);
    var w1 := Run(Apply(w0, e1), between);
    FailingRun(Apply(w0, e1), between, 1);
    FailingCallCounts(w1, e2, 1);
    StepKeeps(w1, e2);
    var w := Apply(w1, e2);
    CountsOpen(w);
    OpenStaysShut(w, later);
  }

  ghost predicate AllOpen(w: World) {
    w.images != [] && forall i | 0 <= i < |w.images| :: w.images[i].state.circuit == CircuitOpen
  }

  lemma CountsOpen(w: World)
    requires Inv(w) && AtLeastFailures(w, 2)
    ensures AllOpen(w) && forall i | 0 <= i < |w.images| :: !w.images[i].state.enabled
  {
    forall i | 0 <= i < |w.images|
      ensures w.images[i].state.circuit == CircuitOpen && !w.images[i].state.enabled
    {
      assert Faithful(w.images[i]);
    }
  }

  lemma OpenStep(w: World, e: Event)
    requires Inv(w) && AllOpen(w) && !e.ApproveReset?
    ensures AllOpen(Apply(w, e)) && Apply(w, e).calls == w.calls
  {
    var image := Visible(w);
    assert Faithful(image) && image.state.circuit == CircuitOpen && !image.state.running;
    hide ValidState, Faithful, Done, Failed, Started;
  }

  /** An open circuit stays open and calls nothing until a reset is approved. */
  lemma {:induction false} OpenStaysShut(w: World, events: seq<Event>)
    requires Inv(w) && AllOpen(w) && forall e | e in events :: !e.ApproveReset?
    ensures AllOpen(Run(w, events)) && Run(w, events).calls == w.calls
    decreases |events|
  {
    assert w.images != [];
    hide Inv, Apply, AllOpen;
    if events != [] {
      StepKeeps(w, events[0]);
      OpenStep(w, events[0]);
      assert forall e | e in events[1..] :: e in events;
      OpenStaysShut(Apply(w, events[0]), events[1..]);
    }
  }
}
