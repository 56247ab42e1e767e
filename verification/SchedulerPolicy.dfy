/** The persisted scheduler state, its validation, and the decision whether a run may start. */
module SchedulerPolicy {
  import opened Prelude

  /** All times are microseconds; stamps are truncated to whole seconds. */
  const SECOND := 1_000_000
  const MINUTE := 60 * SECOND
  const HOUR := 60 * MINUTE
  const DAILY_WINDOW := 24 * HOUR
  const MAX_REQUESTS_PER_DAY := 24
  const FAILURE_THRESHOLD := 2
  const NORMAL_INTERVAL := 60 * MINUTE

  datatype Circuit = ReadyDisabled | Ready | Degraded | CircuitOpen

  datatype FailureClass =
    | HttpOpenTimeout | HttpOpenFailed | HttpBodyTimeout | HttpBodyFailed
    | TotalDeadlineExceeded | ValidationFailed | HistoryLockTimeout
    | WorkerProtocolError | WorkerCrashed | WorkerStartupFailed
    | WorkerCleanupFailed | WorkerCleanupUnverified
    | CollectorResultInvalid | CollectorResultNotDurable | CollectorPreviewFailed

  datatype State = State(
    enabled: bool,
    circuit: Circuit,
    intervalMinutes: int,
    lastAttempt: Option<int>,
    lastSuccess: Option<int>,
    failures: int,
    lastError: Option<FailureClass>,
    attempts: seq<int>,
    running: bool,
    notBefore: Option<int>)

  const DISABLED_STATE := State(false, ReadyDisabled, 60, None, None, 0, None, [], false, None)

  predicate Whole(t: int) {
    t % SECOND == 0
  }

  function Stamp(t: int): (s: int)
    ensures s <= t < s + SECOND && Whole(s)
  {
    t - t % SECOND
  }

  predicate Increasing(xs: seq<int>) {
    forall i, j | 0 <= i < j < |xs| :: xs[i] < xs[j]
  }

  predicate StampOk(stamp: Option<int>, now: int) {
    stamp.Some? ==> stamp.value <= now + SECOND
  }

  predicate CircuitOk(s: State) {
    match s.circuit
    case ReadyDisabled => !s.enabled && s.failures == 0
    case Ready => s.enabled && s.failures == 0
    case Degraded => s.enabled && s.failures == 1 && s.lastError.Some?
    case CircuitOpen => !s.enabled && s.failures == FAILURE_THRESHOLD && s.lastError.Some?
  }

  predicate ValidState(s: State, now: int) {
    && 30 <= s.intervalMinutes <= 1440
    && 0 <= s.failures <= FAILURE_THRESHOLD
    && |s.attempts| <= MAX_REQUESTS_PER_DAY
    && StampOk(s.lastAttempt, now) && StampOk(s.lastSuccess, now)
    && (s.notBefore.Some? ==> Whole(s.notBefore.value) && s.notBefore.value <= now + DAILY_WINDOW)
    && (forall i | 0 <= i < |s.attempts| :: s.attempts[i] <= now + SECOND)
    && Increasing(s.attempts)
    && CircuitOk(s)
    && (s.lastSuccess.Some? ==> s.lastAttempt.Some? && s.lastSuccess.value <= s.lastAttempt.value)
    && (s.lastAttempt.Some? && s.lastAttempt.value > now - DAILY_WINDOW ==> s.attempts != [])
    && (s.attempts != [] ==> s.lastAttempt == Some(s.attempts[|s.attempts| - 1]))
    && (s.enabled ==> s.notBefore.Some?)
  }

  /** A state acceptable now is acceptable at any later time. */
  lemma ValidLater(s: State, now: int, later: int)
    requires ValidState(s, now) && now <= later
    ensures ValidState(s, later)
  {
  }

  function Recent(attempts: seq<int>, cutoff: int): (r: seq<int>)
    ensures |r| <= |attempts|
  {
    if attempts == [] then []
    else if attempts[0] > cutoff then [attempts[0]] + Recent(attempts[1..], cutoff)
    else Recent(attempts[1..], cutoff)
  }

  /** On a sorted list the filter only drops a prefix. */
  lemma {:induction false} RecentIsSuffix(attempts: seq<int>, cutoff: int) returns (k: nat)
    requires Increasing(attempts)
    ensures k <= |attempts| && Recent(attempts, cutoff) == attempts[k..]
    ensures forall i | 0 <= i < k :: attempts[i] <= cutoff
    ensures forall i | k <= i < |attempts| :: attempts[i] > cutoff
  {
    if attempts == [] {
      k := 0;
    } else {
      var rest := attempts[1..];
      assert forall i | 0 <= i < |rest| :: rest[i] == attempts[i + 1];
      var j := RecentIsSuffix(rest, cutoff);
      if attempts[0] > cutoff {
        k := 0;
        assert rest != [] ==> attempts[0] < rest[0];
        assert attempts == [attempts[0]] + rest;
      } else {
        k := j + 1;
        assert attempts[k..] == rest[j..];
        forall i | 0 <= i < k ensures attempts[i] <= cutoff { assert i > 0 ==> attempts[i] == rest[i - 1]; }
        forall i | k <= i < |attempts| ensures attempts[i] > cutoff { assert attempts[i] == rest[i - 1]; }
      }
    }
  }

  datatype Outcome =
    | SchedulerCircuitOpen
    | SchedulerDisabled
    | SchedulerNotBefore
    | SchedulerMinInterval
    | SchedulerDailyBudgetExceeded
    | SchedulerReady

  function Max(a: int, b: int): int {
    if a < b then b else a
  }

  function NextSpacing(s: State, now: int): int {
    if s.lastAttempt.None? then now else s.lastAttempt.value + Max(30, s.intervalMinutes) * MINUTE
  }

  function NotBeforeOf(s: State, now: int): int {
    if s.notBefore.None? then now else s.notBefore.value
  }

  function NextBudget(s: State, now: int): int {
    var recent := Recent(s.attempts, now - DAILY_WINDOW);
    if |recent| < MAX_REQUESTS_PER_DAY then now else recent[0] + DAILY_WINDOW
  }

  function NextEligible(s: State, now: int): int {
    Max(Max(now, NotBeforeOf(s, now)), Max(NextSpacing(s, now), NextBudget(s, now)))
  }

  function Evaluate(s: State, now: int): Outcome {
    if s.circuit == CircuitOpen then SchedulerCircuitOpen
    else if !s.enabled then SchedulerDisabled
    else if now < NotBeforeOf(s, now) then SchedulerNotBefore
    else if now < NextSpacing(s, now) then SchedulerMinInterval
    else if |Recent(s.attempts, now - DAILY_WINDOW)| >= MAX_REQUESTS_PER_DAY then SchedulerDailyBudgetExceeded
    else SchedulerReady
  }

  /**
    The reported next eligible time is exact: for an enabled state left alone, a run is allowed at a
    later time exactly when that time has been reached.
   */
  lemma NextEligibleIsExact(s: State, now: int, later: int)
    requires ValidState(s, now) && s.enabled && now <= later
    ensures Evaluate(s, later) == SchedulerReady <==> NextEligible(s, now) <= later
  {
    BudgetIsExact(s, now, later);
    hide Recent, NextBudget, ValidState;
    ValidMeans(s, now);
  }

  lemma ValidMeans(s: State, now: int)
    requires ValidState(s, now)
    ensures 30 <= s.intervalMinutes && (s.enabled ==> s.circuit != CircuitOpen)
  {
  }

  /** A full list stays full exactly when its oldest member is recent. */
  lemma RecentIsFull(attempts: seq<int>, cutoff: int)
    requires Increasing(attempts) && |attempts| <= MAX_REQUESTS_PER_DAY
    ensures |Recent(attempts, cutoff)| >= MAX_REQUESTS_PER_DAY <==>
            |attempts| == MAX_REQUESTS_PER_DAY && cutoff < attempts[0]
    ensures |Recent(attempts, cutoff)| >= MAX_REQUESTS_PER_DAY ==> Recent(attempts, cutoff) == attempts
  {
    hide Recent;
    var k := RecentIsSuffix(attempts, cutoff);
    if k == 0 { assert attempts[0..] == attempts; }
  }

  lemma BudgetIsExact(s: State, now: int, later: int)
    requires ValidState(s, now) && now <= later
    ensures NextBudget(s, now) <= later <==> |Recent(s.attempts, later - DAILY_WINDOW)| < MAX_REQUESTS_PER_DAY
  {
    hide Recent;
    RecentIsFull(s.attempts, now - DAILY_WINDOW);
    RecentIsFull(s.attempts, later - DAILY_WINDOW);
  }

  // The decision in the state's own fields

  predicate Waiting(s: State, now: int) {
    s.notBefore.Some? && now < s.notBefore.value
  }

  predicate TooSoon(s: State, now: int) {
    s.lastAttempt.Some? && now < s.lastAttempt.value + s.intervalMinutes * MINUTE
  }

  predicate Spent(s: State, now: int) {
    |s.attempts| == MAX_REQUESTS_PER_DAY && now - DAILY_WINDOW < s.attempts[0]
  }

  /** A run may start: enabled, not open, under budget, and late enough after the last attempt and the not-before
      time. */
  predicate Eligible(s: State, now: int) {
    s.enabled && s.circuit != CircuitOpen && !Waiting(s, now) && !TooSoon(s, now) && !Spent(s, now)
  }

  /** Each outcome is the first of its reasons. */
  lemma EvaluateTells(s: State, now: int)
    requires ValidState(s, now)
    ensures Evaluate(s, now) == SchedulerReady <==> Eligible(s, now)
    ensures Evaluate(s, now) == SchedulerCircuitOpen <==> s.circuit == CircuitOpen
    ensures Evaluate(s, now) == SchedulerDisabled <==> !s.enabled && s.circuit == ReadyDisabled
    ensures Evaluate(s, now) == SchedulerNotBefore <==> s.enabled && Waiting(s, now)
    ensures Evaluate(s, now) == SchedulerMinInterval <==> s.enabled && !Waiting(s, now) && TooSoon(s, now)
    ensures Evaluate(s, now) == SchedulerDailyBudgetExceeded <==>
              s.enabled && !Waiting(s, now) && !TooSoon(s, now) && Spent(s, now)
  {
    hide Recent, Increasing, Waiting, TooSoon;
    RecentIsFull(s.attempts, now - DAILY_WINDOW);
    WaitingIff(s, now);
    hide ValidState;
    ValidMeansCircuit(s, now);
  }

  lemma WaitingIff(s: State, now: int)
    requires ValidState(s, now)
    ensures now < NotBeforeOf(s, now) <==> Waiting(s, now)
    ensures now < NextSpacing(s, now) <==> TooSoon(s, now)
  {
    hide Increasing;
  }

  lemma ValidMeansCircuit(s: State, now: int)
    requires ValidState(s, now)
    ensures if s.enabled then s.circuit in {Ready, Degraded} else s.circuit in {ReadyDisabled, CircuitOpen}
  {
    hide Increasing;
  }

  // What a run records

  /** One failure more of this class, counted up to the threshold, which opens the circuit; nothing else changes. */
  predicate RecordsFailure(s: State, t: State, error: FailureClass) {
    && t.failures == (if s.failures >= 1 then 2 else s.failures + 1) && t.lastError == Some(error) && !t.running
    && (if t.failures >= 2 then t.circuit == CircuitOpen && !t.enabled else t.circuit == Degraded && t.enabled)
    && t.lastSuccess == s.lastSuccess && t.lastAttempt == s.lastAttempt && t.attempts == s.attempts
    && t.notBefore == s.notBefore && t.intervalMinutes == s.intervalMinutes
  }

  /** A success now closes the circuit and clears the failures. */
  predicate RecordsSuccess(s: State, t: State, now: int) {
    && t.circuit == Ready && t.enabled && t.failures == 0 && t.lastError == None && !t.running
    && t.lastSuccess == Some(Stamp(now)) && t.lastAttempt == s.lastAttempt && t.attempts == s.attempts
    && t.notBefore == s.notBefore && t.intervalMinutes == s.intervalMinutes
  }

  /** An attempt now: stamped, in progress, and listed with those of the last day. */
  ghost predicate RecordsAttempt(s: State, t: State, now: int) {
    && t.lastAttempt == Some(Stamp(now)) && t.running
    && t.attempts != [] && t.attempts[|t.attempts| - 1] == Stamp(now)
    && (forall x :: x in t.attempts[..|t.attempts| - 1] <==> x in s.attempts && now - DAILY_WINDOW < x)
    && t.enabled == s.enabled && t.circuit == s.circuit && t.failures == s.failures && t.lastError == s.lastError
    && t.lastSuccess == s.lastSuccess && t.notBefore == s.notBefore && t.intervalMinutes == s.intervalMinutes
  }

  lemma {:induction false} RecentElements(attempts: seq<int>, cutoff: int)
    ensures forall x :: x in Recent(attempts, cutoff) <==> x in attempts && cutoff < x
  {
    if attempts != [] { RecentElements(attempts[1..], cutoff); }
  }
}
