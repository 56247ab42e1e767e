/**
  The unbounded history behind the scheduler's pruned state: which histories the scheduler can produce,
  and the bounds every one of them meets.
 */
module SchedulerLog {
  import opened Prelude
  import opened SchedulerPolicy

  datatype Entry =
    | Attempted(stamp: int, interval: int)
    | Succeeded
    | FailedRun(error: FailureClass)
    | Enabled(notBefore: int)
    | Disabled
    | ResetApproved

  type Log = seq<Entry>

  /** Stamps of all recorded attempts, oldest first. */
  function Attempts(log: Log): seq<int> {
    if log == [] then []
    else
      var rest := Attempts(log[..|log| - 1]);
      var last := log[|log| - 1];
      if last.Attempted? then rest + [last.stamp] else rest
  }

  /** Failed or interrupted runs since the last success or approved reset. */
  function Trailing(log: Log): nat {
    if log == [] then 0
    else
      match log[|log| - 1]
      case FailedRun(_) => Trailing(log[..|log| - 1]) + 1
      case Succeeded => 0
      case ResetApproved => 0
      case _ => Trailing(log[..|log| - 1])
  }

  /** Whether the latest enabling has not been revoked by a disable, a reset or an opened circuit. */
  function IsEnabled(log: Log): bool {
    if log == [] then false
    else
      match log[|log| - 1]
      case Enabled(_) => true
      case Disabled => false
      case ResetApproved => false
      case FailedRun(_) => IsEnabled(log[..|log| - 1]) && Trailing(log) < FAILURE_THRESHOLD
      case _ => IsEnabled(log[..|log| - 1])
  }

  function LatestNotBefore(log: Log): Option<int> {
    if log == [] then None
    else if log[|log| - 1].Enabled? then Some(log[|log| - 1].notBefore)
    else LatestNotBefore(log[..|log| - 1])
  }

  predicate InProgress(log: Log) {
    log != [] && log[|log| - 1].Attempted?
  }

  /** An attempt may be recorded after `log`. */
  predicate MayAttempt(log: Log, stamp: int, interval: int) {
    var past := Attempts(log);
    var n := |past|;
    && IsEnabled(log) && Trailing(log) < FAILURE_THRESHOLD && !InProgress(log)
    && 30 * MINUTE <= interval
    && (LatestNotBefore(log).Some? ==> LatestNotBefore(log).value <= stamp)
    && (n > 0 ==> past[n - 1] + interval <= stamp)
    && (n >= MAX_REQUESTS_PER_DAY ==> past[n - MAX_REQUESTS_PER_DAY] <= stamp - DAILY_WINDOW)
  }

  predicate MayFollow(log: Log, e: Entry) {
    match e
    case Attempted(stamp, interval) => MayAttempt(log, stamp, interval)
    case Succeeded => InProgress(log)
    case FailedRun(_) => InProgress(log)
    case Enabled(_) => !IsEnabled(log) && Trailing(log) == 0
    case Disabled => IsEnabled(log) && Trailing(log) == 0 && !InProgress(log)
    case ResetApproved => Trailing(log) >= FAILURE_THRESHOLD
  }

  /** Every entry was allowed by the entries before it. */
  predicate Legal(log: Log) {
    log == [] || (Legal(log[..|log| - 1]) && MayFollow(log[..|log| - 1], log[|log| - 1]))
  }

  lemma LegalExtend(log: Log, e: Entry)
    ensures Legal(log + [e]) <==> Legal(log) && MayFollow(log, e)
    ensures Attempts(log + [e]) == if e.Attempted? then Attempts(log) + [e.stamp] else Attempts(log)
    ensures LatestNotBefore(log + [e]) == if e.Enabled? then Some(e.notBefore) else LatestNotBefore(log)
    ensures InProgress(log + [e]) == e.Attempted?
  {
    assert (log + [e])[..|log|] == log;
  }

  lemma ExtendCounters(log: Log, e: Entry)
    ensures Trailing(log + [e]) ==
            if e.FailedRun? then Trailing(log) + 1
            else if e.Succeeded? || e.ResetApproved? then 0
            else Trailing(log)
    ensures IsEnabled(log + [e]) ==
            if e.Enabled? then true
            else if e.Disabled? || e.ResetApproved? then false
            else if e.FailedRun? then IsEnabled(log) && Trailing(log) + 1 < FAILURE_THRESHOLD
            else IsEnabled(log)
  {
    assert (log + [e])[..|log|] == log;
  }

  lemma {:induction false} LegalPrefix(log: Log, k: nat)
    requires Legal(log) && k <= |log|
    ensures Legal(log[..k])
  {
    if k < |log| {
      LegalPrefix(log[..|log| - 1], k);
      assert log[..|log| - 1][..k] == log[..k];
    } else {
      assert log[..k] == log;
    }
  }

  ghost predicate Spaced(past: seq<int>) {
    forall i, j | 0 <= i < j < |past| :: past[i] + 30 * MINUTE <= past[j]
  }

  ghost predicate Budgeted(past: seq<int>) {
    forall i, j | 0 <= i && i + MAX_REQUESTS_PER_DAY <= j < |past| :: past[i] + DAILY_WINDOW <= past[j]
  }

  /** Attempts are at least half an hour apart, and any 25 of them span at least a day. */
  lemma {:induction false} AttemptsSpaced(log: Log)
    requires Legal(log)
    ensures Spaced(Attempts(log)) && Budgeted(Attempts(log))
  {
    if log != [] {
      var before, last := log[..|log| - 1], log[|log| - 1];
      AttemptsSpaced(before);
      if last.Attempted? { SpacedExtend(Attempts(before), last.stamp); }
      hide Spaced, Budgeted;
    }
  }

  lemma SpacedExtend(past: seq<int>, stamp: int)
    requires Spaced(past) && Budgeted(past)
    requires past != [] ==> past[|past| - 1] + 30 * MINUTE <= stamp
    requires |past| >= MAX_REQUESTS_PER_DAY ==> past[|past| - MAX_REQUESTS_PER_DAY] <= stamp - DAILY_WINDOW
    ensures Spaced(past + [stamp]) && Budgeted(past + [stamp])
  {
    forall i | 0 <= i <= |past| - MAX_REQUESTS_PER_DAY
      ensures past[i] <= past[|past| - MAX_REQUESTS_PER_DAY]
    {
    }
  }

  /** Each attempt also keeps the interval configured when it was recorded. */
  lemma ConfiguredInterval(log: Log, i: nat)
    requires Legal(log) && i < |log| && log[i].Attempted?
    ensures var past := Attempts(log[..i]);
            past != [] ==> past[|past| - 1] + log[i].interval <= log[i].stamp
    ensures log[i].interval >= 30 * MINUTE
  {
    LegalPrefix(log, i + 1);
    assert log[..i + 1][..i] == log[..i];
  }

  function CountIn(past: seq<int>, lo: int, hi: int): nat {
    if past == [] then 0
    else (if lo < past[|past| - 1] <= hi then 1 else 0) + CountIn(past[..|past| - 1], lo, hi)
  }

  lemma {:induction false} CountRecent(past: seq<int>, lo: int, hi: int, from: nat)
    requires from <= |past| && forall i | 0 <= i < from :: past[i] <= lo
    ensures CountIn(past, lo, hi) <= |past| - from
  {
    if |past| > from { CountRecent(past[..|past| - 1], lo, hi, from); }
    else if past != [] { CountRecent(past[..|past| - 1], lo, hi, from - 1); }
  }

  lemma {:induction false} CountWindow(past: seq<int>, t: int)
    requires Spaced(past) && Budgeted(past)
    ensures CountIn(past, t - DAILY_WINDOW, t) <= MAX_REQUESTS_PER_DAY
  {
    if past != [] {
      var n := |past|;
      if past[n - 1] > t {
        CountWindow(past[..n - 1], t);
      } else {
        var from := if n > MAX_REQUESTS_PER_DAY then n - MAX_REQUESTS_PER_DAY else 0;
        if n > MAX_REQUESTS_PER_DAY {
          forall i | 0 <= i < from ensures past[i] <= t - DAILY_WINDOW {
            assert past[i] + DAILY_WINDOW <= past[n - 1];
          }
        }
        CountRecent(past, t - DAILY_WINDOW, t, from);
      }
    }
  }

  /** At most 24 recorded attempts lie in any window (t - 24 h, t], at any t. */
  lemma DailyBudget(log: Log, t: int)
    requires Legal(log)
    ensures CountIn(Attempts(log), t - DAILY_WINDOW, t) <= MAX_REQUESTS_PER_DAY
  {
    AttemptsSpaced(log);
    CountWindow(Attempts(log), t);
  }

  /** No attempt is stamped before the not-before time in force when it was recorded. */
  lemma NeverBefore(log: Log, i: nat)
    requires Legal(log) && i < |log| && log[i].Attempted?
    ensures LatestNotBefore(log[..i]).Some? ==> LatestNotBefore(log[..i]).value <= log[i].stamp
    ensures IsEnabled(log[..i]) && Trailing(log[..i]) < FAILURE_THRESHOLD
  {
    LegalPrefix(log, i + 1);
    assert log[..i + 1][..i] == log[..i];
  }

  /** Once two runs in a row have failed, only an approved reset clears the count. */
  lemma {:induction false} TrailingNeedsReset(log: Log, i: nat, j: nat) returns (r: nat)
    requires Legal(log) && i <= j <= |log|
    requires Trailing(log[..i]) >= FAILURE_THRESHOLD && Trailing(log[..j]) < FAILURE_THRESHOLD
    ensures i <= r < j && log[r] == ResetApproved
  {
    LegalPrefix(log, j);
    assert log[..j][..j - 1] == log[..j - 1];
    if Trailing(log[..j - 1]) < FAILURE_THRESHOLD {
      r := TrailingNeedsReset(log, i, j - 1);
    } else {
      r := j - 1;
      LegalPrefix(log, j - 1);
      ThresholdStopsRuns(log[..j - 1]);
    }
  }

  /** With the threshold reached no run is in progress, so none can still succeed. */
  lemma {:induction false} ThresholdStopsRuns(log: Log)
    requires Legal(log) && Trailing(log) >= FAILURE_THRESHOLD
    ensures !InProgress(log) && !IsEnabled(log) && Trailing(log) == FAILURE_THRESHOLD
  {
    var before := log[..|log| - 1];
    if Trailing(before) >= FAILURE_THRESHOLD { ThresholdStopsRuns(before); }
  }

  lemma {:induction false} EnabledNeedsEnabling(log: Log, i: nat, j: nat) returns (e: nat)
    requires i <= j <= |log| && !IsEnabled(log[..i]) && IsEnabled(log[..j])
    ensures i <= e < j && log[e].Enabled?
  {
    assert log[..j][..j - 1] == log[..j - 1];
    if log[j - 1].Enabled? {
      e := j - 1;
    } else {
      e := EnabledNeedsEnabling(log, i, j - 1);
    }
  }

  /**
    After two consecutive failed or interrupted runs there is no further attempt without an approved
    reset and, after it, an enabling. Disabling and enabling alone never clear the count.
   */
  lemma CircuitBreaker(log: Log, i: nat, j: nat) returns (r: nat, e: nat)
    requires Legal(log) && i <= j < |log| && log[j].Attempted?
    requires Trailing(log[..i]) >= FAILURE_THRESHOLD
    ensures i <= r < e < j && log[r] == ResetApproved && log[e].Enabled?
  {
    NeverBefore(log, j);
    r := TrailingNeedsReset(log, i, j);
    assert log[..r + 1][..r] == log[..r];
    assert !IsEnabled(log[..r + 1]);
    e := EnabledNeedsEnabling(log, r + 1, j);
  }
}
