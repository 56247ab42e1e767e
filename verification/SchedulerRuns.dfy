/**
  The scheduler's operations on its state file, with every place a process can die or a power loss can
  strike. `images` are the contents the file may have after a power loss: the first is the one known to be
  durable, the last the one a reader sees. Each image carries the full history that led to it; the
  program never looks at that history.
 */
module SchedulerRuns {
  import opened Prelude
  import opened SchedulerPolicy
  import opened SchedulerLog

  datatype Image = Image(state: State, log: Log)

  datatype World = World(images: seq<Image>, calls: seq<int>)

  /** What the collector reports; `Raised` is an exception. */
  datatype Collected = Success | Failure(error: Option<FailureClass>) | Raised

  /** How far a write of the state file gets. */
  datatype Write = Unwritten | Replaced | Synced

  datatype Event =
    | RunOnce(now: int, first: Write, called: bool, result: Collected, second: Write)
    | EnableScheduled(now: int, write: Write)
    | DisableScheduled(now: int, write: Write)
    | ApproveReset(now: int, write: Write)
    | PowerLoss(kept: nat)

  /** The interval an operator may configure. */
  type Minutes = k: int | 30 <= k <= 1440 witness 60

  /** The provisioned file, with its configured interval. */
  function Initial(k: Minutes): World {
    World([Image(DISABLED_STATE.(intervalMinutes := k), [])], [])
  }

  function Visible(w: World): Image
    requires w.images != []
  {
    w.images[|w.images| - 1]
  }

  /** `write_state`: nothing is written unless the new state is valid now. */
  function WriteState(w: World, image: Image, now: int, write: Write): World {
    if !ValidState(image.state, now) || write == Unwritten then w
    else if write == Replaced then w.(images := w.images + [image])
    else w.(images := [image])
  }

  /** Whether the writer got past the write. */
  predicate Wrote(image: Image, now: int, write: Write) {
    ValidState(image.state, now) && write == Synced
  }

  function RecordFailure(s: State, error: FailureClass): State {
    var failures := if s.failures + 1 < FAILURE_THRESHOLD then s.failures + 1 else FAILURE_THRESHOLD;
    s.(failures := failures,
       lastError := Some(error),
       running := false,
       enabled := failures < FAILURE_THRESHOLD,
       circuit := if failures < FAILURE_THRESHOLD then Degraded else CircuitOpen)
  }

  function Failed(image: Image, error: FailureClass): Image {
    Image(RecordFailure(image.state, error), image.log + [FailedRun(error)])
  }

  function Started(image: Image, now: int): Image {
    var s := image.state;
    var recent := Recent(s.attempts, now - DAILY_WINDOW);
    Image(
      s.(lastAttempt := Some(Stamp(now)), attempts := Stamps(recent) + [Stamp(now)], running := true),
      image.log + [Attempted(Stamp(now), s.intervalMinutes * MINUTE)])
  }

  function Stamps(times: seq<int>): (r: seq<int>)
    ensures |r| == |times|
  {
    if times == [] then [] else [Stamp(times[0])] + Stamps(times[1..])
  }

  function Done(image: Image, now: int, result: Collected): Image {
    match result
    case Success =>
      Image(
        image.state.(circuit := Ready, enabled := true, lastSuccess := Some(Stamp(now)), failures := 0,
                     lastError := None, running := false),
        image.log + [Succeeded])
    case Failure(error) => Failed(image, if error.Some? then error.value else ValidationFailed)
    case Raised => Failed(image, WorkerCrashed)
  }

  /** The attempt is written, then the collector called, then its outcome written. */
  function AttemptSpec(w: World, started: Image, now: int, first: Write, called: bool, result: Collected,
                       second: Write): (w2: World)
    ensures w.images != [] ==> w2.images != []
  {
    var w1 := WriteState(w, started, now, first);
    if !Wrote(started, now, first) || !called then w1
    else WriteState(w1.(calls := w1.calls + [Stamp(now)]), Done(started, now, result), now, second)
  }

  function RunOnceSpec(w: World, now: int, first: Write, called: bool, result: Collected, second: Write): (w2: World)
    requires w.images != []
    ensures w2.images != []
  {
    var image := Visible(w);
    if !ValidState(image.state, now) then w
    else if image.state.running then WriteState(w, Failed(image, WorkerCrashed), now, first)
    else if Evaluate(image.state, now) != SchedulerReady then w
    else AttemptSpec(w, Started(image, now), now, first, called, result, second)
  }

  /** What a run reports; nothing when a write raised or the process died. */
  datatype Answer =
    | StateInvalid
    | RecoveredInterruptedRun
    | Refused(outcome: Outcome)
    | CollectionSucceeded
    | CollectionFailed(error: FailureClass)
    | NoAnswer

  function AnswerTo(result: Collected): Answer {
    match result
    case Success => CollectionSucceeded
    case Failure(error) => CollectionFailed(if error.Some? then error.value else ValidationFailed)
    case Raised => CollectionFailed(WorkerCrashed)
  }

  function AnswerOf(w: World, now: int, first: Write, called: bool, result: Collected, second: Write): Answer
    requires w.images != []
  {
    var image := Visible(w);
    if !ValidState(image.state, now) then StateInvalid
    else if image.state.running then
      if Wrote(Failed(image, WorkerCrashed), now, first) then RecoveredInterruptedRun else NoAnswer
    else if Evaluate(image.state, now) != SchedulerReady then Refused(Evaluate(image.state, now))
    else if Wrote(Started(image, now), now, first) && called
            && Wrote(Done(Started(image, now), now, result), now, second) then AnswerTo(result)
    else NoAnswer
  }

  function EnableSpec(w: World, now: int, write: Write): World
    requires w.images != []
  {
    var image := Visible(w);
    var s := image.state;
    if !ValidState(s, now) || s.circuit != ReadyDisabled || s.enabled || s.running || s.failures != 0 then w
    else
      var notBefore := Stamp(now + NORMAL_INTERVAL);
      WriteState(
        w,
        Image(s.(enabled := true, circuit := Ready, notBefore := Some(notBefore)), image.log + [Enabled(notBefore)]),
        now, write)
  }

  function DisableSpec(w: World, now: int, write: Write): World
    requires w.images != []
  {
    var image := Visible(w);
    var s := image.state;
    if !ValidState(s, now) || s.circuit != Ready || !s.enabled || s.running then w
    else WriteState(w, Image(s.(enabled := false, circuit := ReadyDisabled), image.log + [Disabled]), now, write)
  }

  function ResetSpec(w: World, now: int, write: Write): World
    requires w.images != []
  {
    var image := Visible(w);
    var s := image.state;
    if !ValidState(s, now) || s.circuit != CircuitOpen then w
    else
      WriteState(
        w,
        Image(s.(enabled := false, circuit := ReadyDisabled, failures := 0, running := false),
              image.log + [ResetApproved]),
        now, write)
  }

  function Apply(w: World, e: Event): (w2: World)
    requires w.images != []
    ensures w2.images != []
  {
    match e
    case RunOnce(now, first, called, result, second) => RunOnceSpec(w, now, first, called, result, second)
    case EnableScheduled(now, write) => EnableSpec(w, now, write)
    case DisableScheduled(now, write) => DisableSpec(w, now, write)
    case ApproveReset(now, write) => ResetSpec(w, now, write)
    case PowerLoss(kept) => if kept < |w.images| then w.(images := [w.images[kept]]) else w
  }

  function Run(w: World, events: seq<Event>): (w2: World)
    requires w.images != []
    ensures w2.images != []
    decreases |events|
  {
    if events == [] then w else Run(Apply(w, events[0]), events[1..])
  }

  /** The pruned attempt list against the full history. */
  ghost predicate Window(attempts: seq<int>, lastAttempt: Option<int>, past: seq<int>) {
    && |attempts| <= |past| && |attempts| <= MAX_REQUESTS_PER_DAY
    && attempts == past[|past| - |attempts|..]
    && (if past == [] then lastAttempt == None
        else attempts != [] && lastAttempt == Some(past[|past| - 1]))
    && (forall i | 0 <= i < |past| - |attempts| :: past[i] + DAILY_WINDOW <= past[|past| - 1])
    && (forall i | 0 <= i < |past| :: Whole(past[i]))
  }

  ghost predicate Counters(s: State, log: Log) {
    && s.failures == Trailing(log) && s.failures <= FAILURE_THRESHOLD
    && s.enabled == IsEnabled(log)
    && s.running == InProgress(log)
    && s.notBefore == LatestNotBefore(log)
    && (s.running ==> s.enabled)
    && (s.enabled ==> s.notBefore.Some?)
    && CircuitOk(s)
  }

  /** A stored state is exactly what its legal history says, whatever the clock did. */
  ghost predicate Faithful(image: Image) {
    var s := image.state;
    && Legal(image.log)
    && Window(s.attempts, s.lastAttempt, Attempts(image.log))
    && Counters(s, image.log)
    && 30 <= s.intervalMinutes <= 1440
    && (s.notBefore.Some? ==> Whole(s.notBefore.value))
    && (s.lastSuccess.Some? ==> s.lastAttempt.Some? && s.lastSuccess.value <= s.lastAttempt.value)
  }

  ghost predicate Inv(w: World) {
    && w.images != []
    && (forall i | 0 <= i < |w.images| :: Faithful(w.images[i]))
    && (forall i | 0 <= i < |w.images| :: w.images[0].log <= w.images[i].log)
    && Increasing(w.calls)
    && (forall i | 0 <= i < |w.calls| :: w.calls[i] in Attempts(w.images[0].log))
  }
}
