/**
  The one-shot observation runner over the durable journal as a state machine. Any number of threads
  in any number of processes call `execute`; steps interleave freely; every system call may fail;
  processes die and the machine loses power between any two steps.

  A file is its bytes and whether they were fsynced. `journal` is what a reader sees, `durable` what
  the directory on disk names, and a power loss leaves either one, cut anywhere if it was not
  fsynced. `records` and `durableRecords` keep, for the statements below, what was written into them.
 */
module RunnerProtocol {
  import opened Prelude
  import opened JournalRecords
  import opened JournalBytes
  import opened JournalGuards
  import opened JournalAppend

  datatype File = File(data: Bytes, synced: bool)

  datatype Disk = Disk(journal: Option<File>, durable: Option<File>, temp: Option<File>)

  /** Where an `execute` call stands; the numbered ones are inside the loop over the sources. */
  datatype Pc =
    | Inspecting
    | Preparing
    | ConsumingPermit
    | Intending
    | SourceIntending(k: nat)
    | Bounding(k: nat)
    | Observing(k: nat)
    | Recording(k: nat)
    | Committing
    | Finalizing
    | Finished
    | Failed

  /** Progress through the current journal operation. */
  datatype Phase =
    | AtRest
    | Guarded(f: Fields)
    | Locked(f: Fields)
    | Writing(f: Fields, encoded: Bytes)
    | Synced(f: Fields, encoded: Bytes)
    | Renamed
    | Confirmed

  datatype Actor = Actor(pid: nat, permit: nat, pc: Pc, phase: Phase)

  datatype Permit = Permit(pid: nat, consumed: bool)

  datatype World = World(
    disk: Disk,
    records: seq<Record>,
    durableRecords: seq<Record>,
    lock: Option<nat>,
    unknown: set<nat>,
    permits: map<nat, Permit>,
    actors: map<nat, Actor>,
    issued: nat,
    requests: seq<nat>)

  /**
    What the environment contributes to a step: `n` bytes written, the next system call or the observer
    failing, the lock held by someone else, or a source whose result is durable but incomplete.
   */
  datatype Io = Proceed(n: nat) | Fail | Busy | Gap

  datatype Event =
    | IssuePermit(permit: nat, pid: nat)
    | Call(actor: nat, pid: nat, permit: nat)
    | Step(a: nat, io: Io, id: Digest)
    | KillProcess(pid: nat)
    | PowerLoss(keepNew: bool, cut: nat)

  const INITIAL := World(Disk(None, None, None), [], [], None, {}, map[], map[], 0, [])

  function Data(file: Option<File>): Option<Bytes> {
    if file.None? then None else Some(file.value.data)
  }

  /** The journal operation an actor is performing, `id` being the result or evidence it names. */
  function OpAt(pc: Pc, id: Digest): Option<Op> {
    match pc
    case Preparing => Some(Prepare)
    case ConsumingPermit => Some(ConsumePermit)
    case Intending => Some(RecordIntent)
    case SourceIntending(k) => Some(RecordSourceIntent(k))
    case Bounding(k) => Some(RecordBoundary(k))
    case Recording(k) => Some(RecordResult(k, id))
    case Committing => Some(CommitEvidence(id))
    case Finalizing => Some(FinalizeAttempt)
    case _ => None
  }

  function NextPc(pc: Pc): Pc {
    match pc
    case Preparing => ConsumingPermit
    case ConsumingPermit => Intending
    case Intending => SourceIntending(0)
    case SourceIntending(k) => Bounding(k)
    case Bounding(k) => Observing(k)
    case Observing(k) => Recording(k)
    case Recording(k) => if k < 3 then SourceIntending(k + 1) else Committing
    case Committing => Finalizing
    case Finalizing => Finished
    case _ => Failed
  }

  function SetActor(w: World, a: nat, x: Actor): World {
    w.(actors := w.actors[a := x])
  }

  /** The call raises: its candidate file is unlinked and its lock released if it held it. */
  function Abort(w: World, a: nat, x: Actor): World {
    var stopped := SetActor(w, a, x.(pc := Failed, phase := AtRest));
    if w.lock == Some(a) then stopped.(lock := None, disk := w.disk.(temp := None)) else stopped
  }

  function StepInspect(c: Codec, w: World, a: nat, x: Actor): World {
    var reading := ReadFile(c, Data(w.disk.journal));
    if reading.Err? || reading.value.integrity != Absent then Abort(w, a, x)
    else if x.permit !in w.permits || w.permits[x.permit].pid != x.pid || w.permits[x.permit].consumed then
      Abort(w, a, x)
    else SetActor(w, a, x.(pc := Preparing))
  }

  function StepObserve(w: World, a: nat, x: Actor, io: Io): World
    requires x.pc.Observing?
  {
    var asked := w.(requests := w.requests + [x.pc.k]);
    if io == Fail then Abort(asked, a, x) else SetActor(asked, a, x.(pc := NextPc(x.pc)))
  }

  /** Reads the journal and runs the operation's own checks. */
  function StepGuard(c: Codec, w: World, a: nat, x: Actor, op: Op): World {
    var reading := ReadFile(c, Data(w.disk.journal));
    if reading.Err? || !OpInRange(op) then Abort(w, a, x)
    else
      var i := reading.value;
      if op == Prepare then
        if x.pid in w.unknown || i.integrity != Absent then Abort(w, a, x)
        else SetActor(w, a, x.(phase := Guarded(FieldsOf(i.records, op))))
      else if
        || i.integrity != Valid || i.records == []
        || i.records[|i.records| - 1].body.attemptId != ATTEMPT_ID
        || Guard(i.records, op) != None
      then Abort(w, a, x)
      else SetActor(w, a, x.(phase := Guarded(FieldsOf(i.records, op))))
  }

  function StepLock(w: World, a: nat, x: Actor, io: Io): World
    requires x.phase.Guarded?
  {
    if x.pid in w.unknown || io == Busy || w.lock != None then Abort(w, a, x)
    else SetActor(w.(lock := Some(a)), a, x.(phase := Locked(x.phase.f)))
  }

  /** Builds the candidate and opens the temporary file exclusively. */
  function StepOpen(c: Codec, w: World, a: nat, x: Actor, io: Io): World
    requires x.phase.Locked? && (x.phase.f.source.Some? ==> x.phase.f.source.value < |SOURCES|)
  {
    var candidate := Candidate(c, Data(w.disk.journal), x.phase.f);
    if candidate.Err? || w.disk.temp != None || io == Fail then Abort(w, a, x)
    else
      SetActor(
        w.(disk := w.disk.(temp := Some(File([], false)))),
        a, x.(phase := Writing(x.phase.f, candidate.value)))
  }

  /** Writes some of the missing bytes, or fsyncs once none is missing. */
  function StepWrite(w: World, a: nat, x: Actor, io: Io): World
    requires x.phase.Writing?
  {
    if io.Fail? || w.disk.temp == None then Abort(w, a, x)
    else
      var have := |w.disk.temp.value.data|;
      var encoded := x.phase.encoded;
      if have < |encoded| then
        if !io.Proceed? || io.n == 0 then Abort(w, a, x)
        else
          var upTo := if have + io.n < |encoded| then have + io.n else |encoded|;
          w.(disk := w.disk.(temp := Some(File(encoded[..upTo], false))))
      else
        SetActor(
          w.(disk := w.disk.(temp := Some(w.disk.temp.value.(synced := true)))),
          a, x.(phase := Synced(x.phase.f, encoded)))
  }

  function StepRename(w: World, a: nat, x: Actor, io: Io): World
    requires x.phase.Synced? && (x.phase.f.source.Some? ==> x.phase.f.source.value < |SOURCES|)
  {
    if io.Fail? || w.disk.temp == None then Abort(w, a, x)
    else
      SetActor(
        w.(disk := w.disk.(journal := w.disk.temp, temp := None),
           records := w.records + [MakeRecord(w.records, x.phase.f)]),
        a, x.(phase := Renamed))
  }

  function StepDirectorySync(w: World, a: nat, x: Actor, io: Io): World {
    if io.Fail? then Abort(w.(unknown := w.unknown + {x.pid}), a, x)
    else
      SetActor(
        w.(disk := w.disk.(durable := w.disk.journal), durableRecords := w.records),
        a, x.(phase := Confirmed))
  }

  /** The operation returns; `prepare` issues its token and the permit is spent. */
  function StepReturn(w: World, a: nat, x: Actor, io: Io): World {
    if io.Fail? then Abort(w.(unknown := w.unknown + {x.pid}), a, x)
    else
      var pc := if x.pc.Recording? && io == Gap then Failed else NextPc(x.pc);
      var released := SetActor(w.(lock := None, disk := w.disk.(temp := None)), a, x.(pc := pc, phase := AtRest));
      if x.pc != Preparing then released
      else released.(issued := w.issued + 1, permits := w.permits[x.permit := Permit(x.pid, true)])
  }

  function StepActor(c: Codec, w: World, a: nat, x: Actor, io: Io, id: Digest): World {
    match x.phase
    case AtRest =>
      if x.pc == Inspecting then StepInspect(c, w, a, x)
      else if x.pc.Observing? then StepObserve(w, a, x, io)
      else if OpAt(x.pc, id).Some? then StepGuard(c, w, a, x, OpAt(x.pc, id).value)
      else w
    case Guarded(_) => StepLock(w, a, x, io)
    case Locked(f) => if f.source.Some? && f.source.value >= |SOURCES| then w else StepOpen(c, w, a, x, io)
    case Writing(_, _) => StepWrite(w, a, x, io)
    case Synced(f, _) => if f.source.Some? && f.source.value >= |SOURCES| then w else StepRename(w, a, x, io)
    case Renamed => StepDirectorySync(w, a, x, io)
    case Confirmed => StepReturn(w, a, x, io)
  }

  function Kill(w: World, pid: nat): World {
    w.(actors := map a | a in w.actors && w.actors[a].pid != pid :: w.actors[a],
       lock := if w.lock.Some? && w.lock.value in w.actors && w.actors[w.lock.value].pid == pid then None else w.lock,
       unknown := w.unknown - {pid},
       permits := map p | p in w.permits && w.permits[p].pid != pid :: w.permits[p])
  }

  function Survivor(file: Option<File>, cut: nat): Option<File> {
    if file.None? then None
    else if file.value.synced || cut >= |file.value.data| then Some(File(file.value.data, true))
    else Some(File(file.value.data[..cut], true))
  }

  function LosePower(w: World, keepNew: bool, cut: nat): World {
    var kept := Survivor(if keepNew then w.disk.journal else w.disk.durable, cut);
    var records := if keepNew then w.records else w.durableRecords;
    World(Disk(kept, kept, None), records, records, None, {}, map[], map[], w.issued, w.requests)
  }

  function Apply(c: Codec, w: World, e: Event): World {
    match e
    case IssuePermit(permit, pid) =>
      if permit in w.permits then w else w.(permits := w.permits[permit := Permit(pid, false)])
    case Call(actor, pid, permit) =>
      if actor in w.actors then w else SetActor(w, actor, Actor(pid, permit, Inspecting, AtRest))
    case Step(a, io, id) =>
      if a in w.actors then StepActor(c, w, a, w.actors[a], io, id) else w
    case KillProcess(pid) => Kill(w, pid)
    case PowerLoss(keepNew, cut) => LosePower(w, keepNew, cut)
  }

  function Run(c: Codec, w: World, events: seq<Event>): World
    decreases |events|
  {
    if events == [] then w else Run(c, Apply(c, w, events[0]), events[1..])
  }
}
