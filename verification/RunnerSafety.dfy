/** What every reachable state of the runner protocol satisfies, and what follows over whole runs. */
module RunnerSafety {
  import opened Prelude
  import opened JournalRecords
  import opened JournalGrammar
  import opened JournalBytes
  import opened JournalGuards
  import opened JournalAppend
  import opened RunnerProtocol

  /** The stage of the journal in which an actor holding the token starts its current step. */
  function Before(pc: Pc): Stage {
    match pc
    case Preparing => Empty
    case ConsumingPermit => Planned
    case Intending => Permitted
    case SourceIntending(k) => Ready(k)
    case Bounding(k) => Intended(k)
    case Observing(k) => Requested(k)
    case Recording(k) => Requested(k)
    case Committing => Ready(4)
    case Finalizing => Committed
    case Finished => Closed
    case _ => Broken
  }

  /** How often the observer has been called by then. */
  function Calls(pc: Pc): nat {
    match pc
    case SourceIntending(k) => k
    case Bounding(k) => k
    case Observing(k) => k
    case Recording(k) => k + 1
    case Committing => 4
    case Finalizing => 4
    case Finished => 4
    case _ => 0
  }

  predicate PcInRange(pc: Pc) {
    match pc
    case SourceIntending(k) => k < 4
    case Bounding(k) => k < 4
    case Observing(k) => k < 4
    case Recording(k) => k < 4
    case _ => true
  }

  /** The actor holds the attempt token, or has just published the record that will earn it. */
  predicate IsOwner(x: Actor) {
    match x.pc
    case Inspecting => false
    case Failed => false
    case Finished => false
    case Preparing => x.phase == Renamed || x.phase == Confirmed
    case _ => true
  }

  predicate InCriticalSection(x: Actor) {
    !x.phase.AtRest? && !x.phase.Guarded?
  }

  function IdIn(f: Fields): Digest {
    if f.resultId.Some? then f.resultId.value else if f.evidenceId.Some? then f.evidenceId.value else Zero
  }

  /** The fields an actor carries are those of its operation on the journal as it is. */
  predicate FieldsFit(pc: Pc, rs: seq<Record>, f: Fields) {
    && OpAt(pc, IdIn(f)).Some?
    && var op := OpAt(pc, IdIn(f)).value;
       OpInRange(op) && f == FieldsOf(rs, op)
  }

  ghost predicate FileHolds(c: Codec, file: Option<File>, rs: seq<Record>) {
    && Written(c, rs)
    && Data(file) == FileOf(c, rs)
    && (file.Some? ==> file.value.synced)
  }

  predicate IsExtension(c: Codec, rs: seq<Record>, f: Fields, encoded: Bytes) {
    && (f.source.Some? ==> f.source.value < |SOURCES|)
    && |encoded| <= MAX_BYTES
    && encoded == EncodeAll(c, rs + [MakeRecord(rs, f)])
  }

  /** The phase agrees with the journal's records and the temporary file. */
  ghost predicate PhaseOk(c: Codec, temp: Option<File>, rs: seq<Record>, x: Actor) {
    && (x.phase != AtRest ==> OpAt(x.pc, Zero).Some?)
    && match x.phase
       case AtRest => true
       case Guarded(f) => FieldsFit(x.pc, rs, f)
       case Locked(f) => FieldsFit(x.pc, rs, f)
       case Writing(f, encoded) =>
         && FieldsFit(x.pc, rs, f) && IsExtension(c, rs, f, encoded) && StageOf(rs) == Before(x.pc)
         && temp.Some? && !temp.value.synced && temp.value.data <= encoded
       case Synced(f, encoded) =>
         && FieldsFit(x.pc, rs, f) && IsExtension(c, rs, f, encoded) && StageOf(rs) == Before(x.pc)
         && temp == Some(File(encoded, true))
       case Renamed => true
       case Confirmed => true
  }

  /** The journal stands where the owner left it, and it has made exactly the calls it should. */
  predicate OwnerOk(rs: seq<Record>, durable: seq<Record>, issued: nat, calls: nat, x: Actor) {
    && PcInRange(x.pc)
    && calls == Calls(x.pc)
    && issued == (if x.pc == Preparing then 0 else 1)
    && match x.phase
       case Renamed => StageOf(rs) == Before(NextPc(x.pc)) && StageOf(durable) == Before(x.pc)
       case Confirmed => durable == rs && StageOf(rs) == Before(NextPc(x.pc))
       case _ => durable == rs && StageOf(rs) == Before(x.pc)
  }

  ghost predicate ActorOk(c: Codec, w: World, x: Actor) {
    && PhaseOk(c, w.disk.temp, w.records, x)
    && (IsOwner(x) ==> OwnerOk(w.records, w.durableRecords, w.issued, |w.requests|, x))
  }

  ghost predicate RequestsOk(w: World) {
    && |w.requests| <= 4
    && (forall i | 0 <= i < |w.requests| :: w.requests[i] == i && HasBoundary(w.durableRecords, i))
    && w.issued <= 1
    && (w.issued == 1 ==> w.durableRecords != [])
  }

  ghost predicate DiskOk(c: Codec, w: World) {
    && FileHolds(c, w.disk.journal, w.records)
    && FileHolds(c, w.disk.durable, w.durableRecords)
    && w.durableRecords <= w.records
  }

  ghost predicate Exclusive(w: World) {
    && (forall a | a in w.actors && InCriticalSection(w.actors[a]) :: w.lock == Some(a))
    && (forall a, b | a in w.actors && b in w.actors && IsOwner(w.actors[a]) && IsOwner(w.actors[b]) :: a == b)
  }

  ghost predicate Inv(c: Codec, w: World) {
    && DiskOk(c, w)
    && RequestsOk(w)
    && Exclusive(w)
    && (forall a | a in w.actors :: ActorOk(c, w, w.actors[a]))
  }

  /** Actors that are neither owners nor in the critical section do not care what others do. */
  lemma Quiet(c: Codec, w: World, w2: World, x: Actor)
    requires ActorOk(c, w, x) && !IsOwner(x) && !InCriticalSection(x)
    ensures ActorOk(c, w2, x)
  {
    if x.phase.Guarded? {
      assert x.pc == Preparing;
      SameFields(w.records, w2.records, Prepare);
    }
  }

  ghost predicate OthersOk(c: Codec, w: World, a: nat) {
    forall b | b in w.actors && b != a :: ActorOk(c, w, w.actors[b])
  }

  ghost predicate OthersNotCritical(w: World, a: nat) {
    forall b | b in w.actors && b != a :: !InCriticalSection(w.actors[b])
  }

  ghost predicate OthersNotOwners(w: World, a: nat) {
    forall b | b in w.actors && b != a :: !IsOwner(w.actors[b])
  }

  ghost predicate SameOthers(w: World, w2: World, a: nat) {
    && a in w2.actors
    && forall b | b in w2.actors && b != a :: b in w.actors && w2.actors[b] == w.actors[b]
  }

  /** A step that leaves the files alone only has to answer for its own actor. */
  lemma LocalStep(c: Codec, w: World, w2: World, a: nat)
    requires DiskOk(c, w) && RequestsOk(w) && OthersOk(c, w, a) && SameOthers(w, w2, a)
    requires w2.disk.(temp := w.disk.temp) == w.disk && w2.records == w.records && w2.durableRecords == w.durableRecords
    requires w2.issued == w.issued && w2.requests == w.requests
    requires w2.disk.temp == w.disk.temp || OthersNotCritical(w, a)
    requires ActorOk(c, w2, w2.actors[a]) && Exclusive(w2)
    ensures Inv(c, w2)
  {
    forall b | b in w2.actors && b != a ensures ActorOk(c, w2, w2.actors[b]) {
      assert ActorOk(c, w, w.actors[b]);
      if w2.disk.temp != w.disk.temp { TempIrrelevant(c, w, w2, w.actors[b]); }
    }
    hide FileHolds, HasBoundary, PhaseOk, OwnerOk;
  }

  lemma TempIrrelevant(c: Codec, w: World, w2: World, x: Actor)
    requires ActorOk(c, w, x) && !InCriticalSection(x)
    requires w2.records == w.records && w2.durableRecords == w.durableRecords
    requires w2.issued == w.issued && w2.requests == w.requests
    ensures ActorOk(c, w2, x)
  {
    hide OwnerOk, FieldsFit;
  }

  /** A step of the only owner, or taken while there is none, may change what owners look at. */
  lemma OwnerStep(c: Codec, w: World, w2: World, a: nat)
    requires OthersOk(c, w, a) && SameOthers(w, w2, a) && OthersNotCritical(w, a) && OthersNotOwners(w, a)
    requires DiskOk(c, w2) && RequestsOk(w2) && Exclusive(w2) && ActorOk(c, w2, w2.actors[a])
    ensures Inv(c, w2)
  {
    forall b | b in w2.actors && b != a ensures ActorOk(c, w2, w2.actors[b]) {
      Quiet(c, w, w2, w.actors[b]);
    }
    hide FileHolds, HasBoundary, PhaseOk, OwnerOk;
  }

  /** A failing call disturbs nobody. */
  lemma AbortKeeps(c: Codec, w: World, a: nat, x: Actor)
    requires DiskOk(c, w) && RequestsOk(w) && Exclusive(w) && OthersOk(c, w, a) && a in w.actors
    ensures Inv(c, Abort(w, a, x))
  {
    hide FileHolds, HasBoundary, OwnerOk;
    LocalStep(c, w, Abort(w, a, x), a);
  }

  ghost predicate At(c: Codec, w: World, a: nat, x: Actor) {
    Lawful(c) && Inv(c, w) && a in w.actors && w.actors[a] == x
  }

  lemma Unpack(c: Codec, w: World, a: nat, x: Actor)
    requires At(c, w, a, x)
    ensures Lawful(c) && DiskOk(c, w) && RequestsOk(w) && Exclusive(w) && OthersOk(c, w, a) && ActorOk(c, w, x)
    ensures Written(c, w.records) && Data(w.disk.journal) == FileOf(c, w.records)
    ensures Inv(c, w) && Inv(c, Abort(w, a, x))
  {
    AbortKeeps(c, w, a, x);
    hide RequestsOk, Exclusive, ActorOk, Written;
  }

  /** One actor moves on; it owns the token or holds the lock afterwards only with right. */
  lemma ExclusiveMove(w: World, w2: World, a: nat, y: Actor)
    requires Exclusive(w) && a in w.actors && w2.actors == w.actors[a := y]
    requires IsOwner(y) ==> IsOwner(w.actors[a]) || OthersNotOwners(w, a)
    requires InCriticalSection(y) ==> w2.lock == Some(a)
    requires w2.lock == w.lock || OthersNotCritical(w, a)
    ensures Exclusive(w2) && SameOthers(w, w2, a)
  {
    hide IsOwner, InCriticalSection;
  }

  lemma StepInspectKeeps(c: Codec, w: World, a: nat, x: Actor)
    requires At(c, w, a, x) && x.pc == Inspecting && x.phase == AtRest
    ensures Inv(c, StepInspect(c, w, a, x))
  {
    hide FileHolds, HasBoundary, OwnerOk, ReadFile;
    AbortKeeps(c, w, a, x);
    var w2 := StepInspect(c, w, a, x);
    if w2.actors[a].pc == Preparing { LocalStep(c, w, w2, a); }
  }

  lemma RequestedHasBoundary(rs: seq<Record>, k: nat)
    requires StageOf(rs) == Requested(k)
    ensures HasBoundary(rs, k)
  {
    var last := rs[|rs| - 1];
    assert StageOf(rs) == NextStage(StageAt(rs, |rs| - 1), last.body);
    assert last.body.recordType == RequestBoundary && last.body.sourceOrdinal == Some(k);
  }

  /** Whoever is about to call the observer finds the boundary of that source durable, and no earlier call. */
  lemma ObserverReady(c: Codec, w: World, a: nat, x: Actor)
    requires At(c, w, a, x) && x.pc.Observing?
    ensures HasBoundary(w.durableRecords, x.pc.k) && x.pc.k == |w.requests| < 4
  {
    hide FileHolds;
    assert ActorOk(c, w, x);
    assert x.phase == AtRest;
    RequestedHasBoundary(w.durableRecords, x.pc.k);
  }

  lemma OwnerAlone(c: Codec, w: World, a: nat, x: Actor)
    requires At(c, w, a, x) && IsOwner(x)
    ensures OthersNotOwners(w, a)
  {
  }

  lemma CriticalAlone(c: Codec, w: World, a: nat, x: Actor)
    requires At(c, w, a, x) && InCriticalSection(x)
    ensures OthersNotCritical(w, a) && w.lock == Some(a)
  {
  }

  lemma AskedOk(w: World, k: nat)
    requires RequestsOk(w) && HasBoundary(w.durableRecords, k) && k == |w.requests| < 4
    ensures RequestsOk(w.(requests := w.requests + [k]))
  {
    hide HasBoundary;
  }

  lemma AtRestOk(c: Codec, temp: Option<File>, rs: seq<Record>, x: Actor)
    requires x.phase == AtRest
    ensures PhaseOk(c, temp, rs, x)
  {
  }

  /** A call by one actor is no concern of actors that do not hold the token. */
  lemma OthersAsked(c: Codec, w: World, a: nat, k: nat)
    requires Inv(c, w) && OthersNotOwners(w, a)
    ensures OthersOk(c, w.(requests := w.requests + [k]), a)
  {
    hide FileHolds, HasBoundary, PhaseOk, StageOf, RequestsOk, OwnerOk, Exclusive;
    forall b | b in w.actors && b != a
      ensures ActorOk(c, w.(requests := w.requests + [k]), w.actors[b])
    {
      assert ActorOk(c, w, w.actors[b]);
    }
  }

  lemma ObservedOk(w: World, k: nat, x: Actor)
    requires x.pc == Observing(k) && k < 4 && OwnerOk(w.records, w.durableRecords, w.issued, k, x) && x.phase == AtRest
    ensures var y := x.(pc := NextPc(x.pc));
            OwnerOk(w.records, w.durableRecords, w.issued, k + 1, y) && IsOwner(x) && !InCriticalSection(y)
  {
    hide StageOf;
  }

  lemma StepObserveKeeps(c: Codec, w: World, a: nat, x: Actor, io: Io)
    requires At(c, w, a, x) && x.pc.Observing? && x.phase == AtRest
    ensures Inv(c, StepObserve(w, a, x, io))
  {
    ObserverReady(c, w, a, x);
    OwnerAlone(c, w, a, x);
    Unpack(c, w, a, x);
    AskedOk(w, x.pc.k);
    var asked := w.(requests := w.requests + [x.pc.k]);
    OthersAsked(c, w, a, x.pc.k);
    assert a in w.actors && w.actors[a] == x && asked.disk == w.disk;
    hide At, Inv, HasBoundary, PhaseOk, OwnerOk, RequestsOk, OthersOk, OthersNotOwners, IsOwner, NextPc, FileHolds;
    ExclusiveMove(w, asked, a, x);
    AbortKeeps(c, asked, a, x);
    if io != Fail {
      var w2, y := StepObserve(w, a, x, io), x.(pc := NextPc(x.pc));
      ObservedOk(w, x.pc.k, x);
      AtRestOk(c, w.disk.temp, w.records, y);
      ExclusiveMove(asked, w2, a, y);
      LocalStep(c, asked, w2, a);
    }
  }

  lemma GuardedOk(c: Codec, temp: Option<File>, rs: seq<Record>, x: Actor, op: Op, id: Digest)
    requires OpAt(x.pc, id) == Some(op) && OpInRange(op) && x.phase == Guarded(FieldsOf(rs, op))
    ensures PhaseOk(c, temp, rs, x)
  {
    assert OpAt(x.pc, IdIn(FieldsOf(rs, op))) == Some(op);
  }

  /** An operation starts on the records as they are. */
  lemma StartedOk(c: Codec, w: World, a: nat, x: Actor, op: Op, id: Digest)
    requires At(c, w, a, x) && x.phase == AtRest && OpAt(x.pc, id) == Some(op) && OpInRange(op)
    ensures Inv(c, SetActor(w, a, x.(phase := Guarded(FieldsOf(w.records, op)))))
  {
    var y := x.(phase := Guarded(FieldsOf(w.records, op)));
    var w2 := SetActor(w, a, y);
    Unpack(c, w, a, x);
    GuardedOk(c, w.disk.temp, w.records, y, op, id);
    assert IsOwner(y) == IsOwner(x) && !InCriticalSection(y) && w.actors[a] == x;
    hide At, Inv, DiskOk, RequestsOk, OthersOk, PhaseOk, StageOf, FieldsOf, IsOwner;
    ExclusiveMove(w, w2, a, y);
    LocalStep(c, w, w2, a);
  }

  lemma StepGuardKeeps(c: Codec, w: World, a: nat, x: Actor, id: Digest)
    requires At(c, w, a, x) && x.phase == AtRest && OpAt(x.pc, id).Some?
    ensures Inv(c, StepGuard(c, w, a, x, OpAt(x.pc, id).value))
  {
    var op := OpAt(x.pc, id).value;
    Unpack(c, w, a, x);
    ReadsWritten(c, w.records);
    if OpInRange(op) { StartedOk(c, w, a, x, op, id); }
    hide At, Inv, Guard, ReadFile, Written, FieldsOf, FileOf, OpAt, OpInRange, Abort, SetActor, DiskOk, RequestsOk,
      Exclusive, OthersOk, ActorOk, Lawful, Data;
  }

  lemma StepLockKeeps(c: Codec, w: World, a: nat, x: Actor, io: Io)
    requires At(c, w, a, x) && x.phase.Guarded?
    ensures Inv(c, StepLock(w, a, x, io))
  {
    hide FileHolds, HasBoundary, FieldsFit;
    assert ActorOk(c, w, x);
    AbortKeeps(c, w, a, x);
    var w2 := StepLock(w, a, x, io);
    if w2.actors[a].phase.Locked? { LocalStep(c, w, w2, a); }
  }

  /** A candidate is only ever built on the stage its operation expects. */
  lemma OpenedOk(c: Codec, w: World, x: Actor, encoded: Bytes)
    requires Lawful(c) && DiskOk(c, w) && ActorOk(c, w, x) && x.phase.Locked?
    requires x.phase.f.source.Some? ==> x.phase.f.source.value < |SOURCES|
    requires Candidate(c, Data(w.disk.journal), x.phase.f) == Ok(encoded)
    ensures IsExtension(c, w.records, x.phase.f, encoded) && StageOf(w.records) == Before(x.pc)
  {
    hide Written, Candidate, ApiJournal, StageOf, FileOf, HasBoundary;
    var op := OpAt(x.pc, IdIn(x.phase.f)).value;
    CandidateOutcome(c, w.records, w.records, op);
  }

  lemma WritingOk(c: Codec, w: World, w2: World, x: Actor, encoded: Bytes)
    requires ActorOk(c, w, x) && x.phase.Locked?
    requires w2.disk.temp == Some(File([], false)) && w2.records == w.records && w2.durableRecords == w.durableRecords
    requires w2.issued == w.issued && w2.requests == w.requests
    requires IsExtension(c, w.records, x.phase.f, encoded) && StageOf(w.records) == Before(x.pc)
    ensures var y := x.(phase := Writing(x.phase.f, encoded));
            ActorOk(c, w2, y) && IsOwner(y) == IsOwner(x) && InCriticalSection(x) && InCriticalSection(y)
  {
    hide FieldsFit, IsExtension, StageOf;
  }

  lemma StepOpenKeeps(c: Codec, w: World, a: nat, x: Actor, io: Io)
    requires At(c, w, a, x) && x.phase.Locked?
    requires x.phase.f.source.Some? ==> x.phase.f.source.value < |SOURCES|
    ensures Inv(c, StepOpen(c, w, a, x, io))
  {
    Unpack(c, w, a, x);
    CriticalAlone(c, w, a, x);
    var w2 := StepOpen(c, w, a, x, io);
    var candidate := Candidate(c, Data(w.disk.journal), x.phase.f);
    assert w.actors[a] == x && a in w.actors;
    if candidate.Ok? && w.disk.temp == None && io != Fail {
      var y := x.(phase := Writing(x.phase.f, candidate.value));
      OpenedOk(c, w, x, candidate.value);
      WritingOk(c, w, w2, x, candidate.value);
      hide At, Inv, Candidate, DiskOk, RequestsOk, OthersOk, ActorOk, IsOwner, InCriticalSection, IsExtension, StageOf;
      ExclusiveMove(w, w2, a, y);
      LocalStep(c, w, w2, a);
    }
  }

  /** Writing on, or syncing a complete temporary file, keeps the writer's phase in step with the file. */
  lemma WrittenOn(c: Codec, w: World, a: nat, x: Actor, io: Io)
    requires PhaseOk(c, w.disk.temp, w.records, x) && x.phase.Writing? && a in w.actors && w.actors[a] == x
    ensures var w2 := StepWrite(w, a, x, io);
            w2 == Abort(w, a, x)
            || (&& w2.disk.(temp := w.disk.temp) == w.disk && w2.(disk := w.disk, actors := w.actors) == w
                && SameOthers(w, w2, a) && w2.actors[a].(phase := x.phase) == x && InCriticalSection(w2.actors[a])
                && (IsOwner(w2.actors[a]) <==> IsOwner(x)) && PhaseOk(c, w2.disk.temp, w2.records, w2.actors[a])
                && !w2.actors[a].phase.Renamed? && !w2.actors[a].phase.Confirmed?)
  {
    hide FieldsFit, IsExtension, StageOf;
    var have := w.disk.temp.value.data;
    assert |have| == |x.phase.encoded| ==> have == x.phase.encoded;
  }

  lemma StepWriteKeeps(c: Codec, w: World, a: nat, x: Actor, io: Io)
    requires At(c, w, a, x) && x.phase.Writing?
    ensures Inv(c, StepWrite(w, a, x, io))
  {
    hide FileHolds, HasBoundary, FieldsFit, IsExtension, StepWrite, StageOf;
    assert ActorOk(c, w, x);
    WrittenOn(c, w, a, x, io);
    AbortKeeps(c, w, a, x);
    CriticalAlone(c, w, a, x);
    var w2 := StepWrite(w, a, x, io);
    if w2 != Abort(w, a, x) {
      LocalStep(c, w, w2, a);
    }
  }

  /** What the rename publishes is the journal extended by the operation's record. */
  lemma RenamedHolds(c: Codec, rs: seq<Record>, f: Fields, encoded: Bytes, pc: Pc)
    requires Lawful(c) && Written(c, rs) && FieldsFit(pc, rs, f) && IsExtension(c, rs, f, encoded)
    requires StageOf(rs) == Before(pc) && PcInRange(pc)
    ensures var extended := rs + [MakeRecord(rs, f)];
            && Written(c, extended) && FileOf(c, extended) == Some(encoded)
            && StageOf(extended) == Before(NextPc(pc))
  {
    var op := OpAt(pc, IdIn(f)).value;
    OpBefore(pc, IdIn(f));
    hide InGrammar, Chained, AllShaped, StageOf, StateOf, MakeRecord, FieldsOf, Before, NextPc, OpAt, StageAdmits,
      StageAfter, Lawful;
    ExtensionReads(c, rs, op);
    WrittenStage(c, rs, op);
  }

  /** The program counter runs along the stages of the journal. */
  lemma OpBefore(pc: Pc, id: Digest)
    requires PcInRange(pc) && OpAt(pc, id).Some?
    ensures var op := OpAt(pc, id).value;
            StageAdmits(Before(pc), op) && StageAfter(Before(pc), op) == Before(NextPc(pc))
  {
  }

  lemma WrittenStage(c: Codec, rs: seq<Record>, op: Op)
    requires Written(c, rs) && OpInRange(op) && StageAdmits(StageOf(rs), op)
    ensures StageOf(rs + [NewRecord(rs, op)]) == StageAfter(StageOf(rs), op)
  {
    hide Chained, AllShaped, StageOf, NewRecord;
    StageWithNewRecord(rs, op);
  }

  lemma NoOwnerYet(c: Codec, w: World, a: nat)
    requires Inv(c, w) && w.records == [] && OthersNotCritical(w, a)
    ensures OthersNotOwners(w, a)
  {
    hide FileHolds, HasBoundary, PhaseOk;
    forall b | b in w.actors && b != a ensures !IsOwner(w.actors[b]) {
      assert ActorOk(c, w, w.actors[b]);
    }
  }

  lemma RenamedDisk(c: Codec, w: World, w2: World)
    requires DiskOk(c, w)
    requires w2.disk.durable == w.disk.durable && w2.durableRecords == w.durableRecords
    requires FileHolds(c, w2.disk.journal, w2.records) && w.records <= w2.records
    ensures DiskOk(c, w2)
  {
    hide FileHolds;
  }

  lemma RenameReady(c: Codec, w: World, x: Actor)
    requires ActorOk(c, w, x) && x.phase.Synced?
    requires x.phase.f.source.Some? ==> x.phase.f.source.value < |SOURCES|
    ensures var f, encoded := x.phase.f, x.phase.encoded;
            && FieldsFit(x.pc, w.records, f) && IsExtension(c, w.records, f, encoded)
            && StageOf(w.records) == Before(x.pc) && w.disk.temp == Some(File(encoded, true))
            && (x.pc == Preparing || IsOwner(x)) && PcInRange(x.pc)
  {
    PreparerOrOwner(x);
    hide FieldsFit, IsExtension, StageOf;
  }

  /** The journal after the rename, and what is durable. */
  lemma RenamedFiles(c: Codec, w: World, w2: World, x: Actor)
    requires Lawful(c) && DiskOk(c, w) && ActorOk(c, w, x) && x.phase.Synced?
    requires x.phase.f.source.Some? ==> x.phase.f.source.value < |SOURCES|
    requires w2.disk == w.disk.(journal := w.disk.temp, temp := None) && w2.durableRecords == w.durableRecords
    requires w2.records == w.records + [MakeRecord(w.records, x.phase.f)]
    ensures DiskOk(c, w2) && w.durableRecords <= w.records && (x.pc == Preparing || IsOwner(x)) && PcInRange(x.pc)
    ensures StageOf(w.records) == Before(x.pc) && StageOf(w2.records) == Before(NextPc(x.pc))
  {
    RenameReady(c, w, x);
    hide ActorOk, MakeRecord, StageOf, Before, NextPc, FieldsFit, IsExtension, Written, FileOf;
    RenamedHolds(c, w.records, x.phase.f, x.phase.encoded, x.pc);
    RenamedDisk(c, w, w2);
  }

  lemma RenamerAlone(c: Codec, w: World, a: nat, x: Actor)
    requires At(c, w, a, x) && InCriticalSection(x)
    requires (x.pc == Preparing && StageOf(w.records) == Empty) || IsOwner(x)
    ensures OthersNotCritical(w, a) && OthersNotOwners(w, a) && w.lock == Some(a)
  {
    CriticalAlone(c, w, a, x);
    hide StageOf, IsOwner, InCriticalSection;
    if IsOwner(x) {
      OwnerAlone(c, w, a, x);
    } else {
      EmptyStage(w.records);
      NoOwnerYet(c, w, a);
    }
  }

  lemma SameRequests(w: World, w2: World)
    requires RequestsOk(w) && w2.requests == w.requests && w2.issued == w.issued
    requires w2.durableRecords == w.durableRecords
    ensures RequestsOk(w2)
  {
    hide HasBoundary;
  }

  lemma RenamedKeeps(c: Codec, w: World, w2: World, a: nat, x: Actor)
    requires At(c, w, a, x) && x.phase.Synced?
    requires x.phase.f.source.Some? ==> x.phase.f.source.value < |SOURCES|
    requires w2.disk == w.disk.(journal := w.disk.temp, temp := None)
    requires w2.records == w.records + [MakeRecord(w.records, x.phase.f)]
    requires w2 == w.(disk := w2.disk, records := w2.records, actors := w.actors[a := x.(phase := Renamed)])
    ensures Inv(c, w2)
  {
    var y := x.(phase := Renamed);
    assert a in w.actors && w.actors[a] == x && InCriticalSection(x) && InCriticalSection(y);
    assert IsOwner(x) ==> IsOwner(y);
    hide Inv, At, InCriticalSection, IsOwner, MakeRecord, StageOf, DiskOk, RequestsOk, ActorOk, OthersOk, Exclusive,
      Written, Lawful;
    Unpack(c, w, a, x);
    RenamedFiles(c, w, w2, x);
    RenamedActor(c, w, w2, x);
    RenamerAlone(c, w, a, x);
    SameRequests(w, w2);
    ExclusiveMove(w, w2, a, y);
    OwnerStep(c, w, w2, a);
  }

  lemma StepRenameKeeps(c: Codec, w: World, a: nat, x: Actor, io: Io)
    requires At(c, w, a, x) && x.phase.Synced?
    requires x.phase.f.source.Some? ==> x.phase.f.source.value < |SOURCES|
    ensures Inv(c, StepRename(w, a, x, io))
  {
    hide Inv, At, MakeRecord, Abort;
    Unpack(c, w, a, x);
    if !io.Fail? && w.disk.temp != None { RenamedKeeps(c, w, StepRename(w, a, x, io), a, x); }
  }

  lemma RenamedActor(c: Codec, w: World, w2: World, x: Actor)
    requires ActorOk(c, w, x) && RequestsOk(w) && w.durableRecords <= w.records
    requires x.phase.Synced? && (x.pc == Preparing || IsOwner(x)) && PcInRange(x.pc)
    requires StageOf(w.records) == Before(x.pc) && StageOf(w2.records) == Before(NextPc(x.pc))
    requires w2.durableRecords == w.durableRecords && w2.issued == w.issued && w2.requests == w.requests
    ensures ActorOk(c, w2, x.(phase := Renamed))
  {
    if x.pc == Preparing { EmptyStage(w.records); }
    RenamedOwner(w, w2, x);
    hide RequestsOk, StageOf, OwnerOk, FieldsFit, IsExtension;
  }

  lemma PreparerOrOwner(x: Actor)
    requires OpAt(x.pc, Zero).Some?
    ensures x.pc == Preparing || IsOwner(x)
  {
  }

  lemma RenamedOwner(w: World, w2: World, x: Actor)
    requires StageOf(w.records) == Before(x.pc) && StageOf(w2.records) == Before(NextPc(x.pc))
    requires w2.durableRecords == w.durableRecords && w2.issued == w.issued && w2.requests == w.requests
    requires PcInRange(x.pc) && x.phase.Synced?
    requires if x.pc == Preparing then w.records == [] && w.durableRecords <= w.records && RequestsOk(w)
             else OwnerOk(w.records, w.durableRecords, w.issued, |w.requests|, x)
    ensures OwnerOk(w2.records, w2.durableRecords, w2.issued, |w2.requests|, x.(phase := Renamed))
  {
    if x.pc == Preparing {
      assert w.durableRecords == [];
      RequestsNeedJournal(w);
    }
  }

  lemma RequestsNeedJournal(w: World)
    requires RequestsOk(w)
    ensures w.requests != [] ==> w.durableRecords != []
  {
    if w.requests != [] {
      assert w.requests[0] == 0;
      assert HasBoundary(w.durableRecords, 0);
    }
  }

  lemma EmptyStage(rs: seq<Record>)
    requires StageOf(rs) == Empty
    ensures rs == []
  {
    if rs != [] { NeverEmptyAgain(rs); }
  }

  lemma BoundariesCarry(w: World, w2: World)
    requires RequestsOk(w) && w.durableRecords <= w2.durableRecords
    requires w2.requests == w.requests && w2.issued == w.issued
    ensures RequestsOk(w2)
  {
    forall i | 0 <= i < |w2.requests| ensures w2.requests[i] == i && HasBoundary(w2.durableRecords, i) {
      assert w.requests[i] == i && HasBoundary(w.durableRecords, i);
      var j :| 0 <= j < |w.durableRecords| && w.durableRecords[j].body.recordType == RequestBoundary
        && w.durableRecords[j].body.sourceOrdinal == Some(i);
      assert w2.durableRecords[j] == w.durableRecords[j];
    }
  }

  lemma ConfirmedDisk(c: Codec, w: World, w2: World)
    requires DiskOk(c, w)
    requires w2.disk.journal == w2.disk.durable == w.disk.journal && w2.records == w2.durableRecords == w.records
    ensures DiskOk(c, w2)
  {
    hide FileHolds;
  }

  lemma StepDirectorySyncKeeps(c: Codec, w: World, a: nat, x: Actor, io: Io)
    requires At(c, w, a, x) && x.phase == Renamed
    ensures Inv(c, StepDirectorySync(w, a, x, io))
  {
    hide HasBoundary, FileHolds, PhaseOk, StageOf;
    assert ActorOk(c, w, x);
    CriticalAlone(c, w, a, x);
    UnknownKeeps(c, w, a, x);
    var w2 := StepDirectorySync(w, a, x, io);
    if w2.actors[a].phase == Confirmed {
      RenamedIsOwner(c, w.disk.temp, w.records, x);
      OwnerAlone(c, w, a, x);
      ConfirmedDisk(c, w, w2);
      BoundariesCarry(w, w2);
      ConfirmedOk(c, w2.disk.temp, w2.records, x.(phase := Confirmed));
      hide DiskOk, RequestsOk;
      OwnerStep(c, w, w2, a);
    }
  }

  lemma UnknownKeeps(c: Codec, w: World, a: nat, x: Actor)
    requires At(c, w, a, x)
    ensures Inv(c, Abort(w.(unknown := w.unknown + {x.pid}), a, x))
  {
    hide HasBoundary, FileHolds, PhaseOk, OwnerOk;
    var w2 := w.(unknown := w.unknown + {x.pid});
    forall b | b in w2.actors && b != a ensures ActorOk(c, w2, w2.actors[b]) {
      assert ActorOk(c, w, w.actors[b]);
    }
    AbortKeeps(c, w2, a, x);
  }

  lemma RenamedIsOwner(c: Codec, temp: Option<File>, rs: seq<Record>, x: Actor)
    requires PhaseOk(c, temp, rs, x) && (x.phase == Renamed || x.phase == Confirmed)
    ensures IsOwner(x) && OpAt(x.pc, Zero).Some?
  {
  }

  lemma ConfirmedOk(c: Codec, temp: Option<File>, rs: seq<Record>, x: Actor)
    requires x.phase == Confirmed && OpAt(x.pc, Zero).Some?
    ensures PhaseOk(c, temp, rs, x)
  {
  }

  lemma ReturnedOwner(rs: seq<Record>, durable: seq<Record>, issued: nat, calls: nat, x: Actor, y: Actor)
    requires OwnerOk(rs, durable, issued, calls, x) && x.phase == Confirmed && OpAt(x.pc, Zero).Some?
    requires y.phase == AtRest && y.pc == NextPc(x.pc)
    ensures OwnerOk(rs, durable, if x.pc == Preparing then issued + 1 else issued, calls, y)
  {
  }

  lemma ReturnedRequests(w: World, w2: World, x: Actor)
    requires RequestsOk(w) && OwnerOk(w.records, w.durableRecords, w.issued, |w.requests|, x) && x.phase == Confirmed
    requires w2.durableRecords == w.durableRecords && w2.requests == w.requests
    requires w2.issued == (if x.pc == Preparing then w.issued + 1 else w.issued)
    requires OpAt(x.pc, Zero).Some?
    ensures RequestsOk(w2)
  {
    hide HasBoundary;
  }

  lemma ReturnedKeeps(c: Codec, w: World, w2: World, a: nat, x: Actor, y: Actor)
    requires At(c, w, a, x) && x.phase == Confirmed && y.phase == AtRest && (y.pc == NextPc(x.pc) || y.pc == Failed)
    requires w2.actors == w.actors[a := y] && w2.lock == None && w2.disk == w.disk.(temp := None)
    requires w2.records == w.records && w2.durableRecords == w.durableRecords && w2.requests == w.requests
    requires w2.issued == if x.pc == Preparing then w.issued + 1 else w.issued
    ensures Inv(c, w2)
  {
    hide At, Inv, OwnerOk, StageOf, PhaseOk, FileHolds, HasBoundary, RequestsOk, Exclusive, OthersOk;
    Unpack(c, w, a, x);
    CriticalAlone(c, w, a, x);
    RenamedIsOwner(c, w.disk.temp, w.records, x);
    OwnerAlone(c, w, a, x);
    ReturnedRequests(w, w2, x);
    AtRestOk(c, w2.disk.temp, w2.records, y);
    if y.pc == NextPc(x.pc) { ReturnedOwner(w.records, w.durableRecords, w.issued, |w.requests|, x, y); }
    AtHome(c, w, a, x);
    assert ActorOk(c, w2, y) && DiskOk(c, w2);
    hide ActorOk, DiskOk, IsOwner, NextPc;
    ExclusiveMove(w, w2, a, y);
    OwnerStep(c, w, w2, a);
  }

  lemma AtHome(c: Codec, w: World, a: nat, x: Actor)
    requires At(c, w, a, x)
    ensures a in w.actors && w.actors[a] == x
  {
  }

  lemma StepReturnKeeps(c: Codec, w: World, a: nat, x: Actor, io: Io)
    requires At(c, w, a, x) && x.phase == Confirmed
    ensures Inv(c, StepReturn(w, a, x, io))
  {
    hide At, Inv, NextPc;
    AtHome(c, w, a, x);
    UnknownKeeps(c, w, a, x);
    if !io.Fail? {
      var w2 := StepReturn(w, a, x, io);
      ReturnedKeeps(c, w, w2, a, x, w2.actors[a]);
    }
  }

  lemma StepActorKeeps(c: Codec, w: World, a: nat, x: Actor, io: Io, id: Digest)
    requires At(c, w, a, x)
    ensures Inv(c, StepActor(c, w, a, x, io, id))
  {
    hide Inv, StepInspect, StepObserve, StepGuard, StepLock, StepOpen, StepWrite, StepRename, StepDirectorySync,
      StepReturn;
    assert Inv(c, w) by { AtMeansInv(c, w, a, x); }
    match x.phase
    case AtRest =>
      if x.pc == Inspecting { StepInspectKeeps(c, w, a, x); }
      else if x.pc.Observing? { StepObserveKeeps(c, w, a, x, io); }
      else if OpAt(x.pc, id).Some? { StepGuardKeeps(c, w, a, x, id); }
    case Guarded(_) => StepLockKeeps(c, w, a, x, io);
    case Locked(f) => if f.source.Some? ==> f.source.value < |SOURCES| { StepOpenKeeps(c, w, a, x, io); }
    case Writing(_, _) => StepWriteKeeps(c, w, a, x, io);
    case Synced(f, _) => if f.source.Some? ==> f.source.value < |SOURCES| { StepRenameKeeps(c, w, a, x, io); }
    case Renamed => StepDirectorySyncKeeps(c, w, a, x, io);
    case Confirmed => StepReturnKeeps(c, w, a, x, io);
  }

  lemma AtMeansInv(c: Codec, w: World, a: nat, x: Actor)
    requires At(c, w, a, x)
    ensures Inv(c, w)
  {
    hide Inv;
  }

  lemma KillKeeps(c: Codec, w: World, pid: nat)
    requires Inv(c, w)
    ensures Inv(c, Kill(w, pid))
  {
    hide HasBoundary, FileHolds, PhaseOk, OwnerOk;
    var w2 := Kill(w, pid);
    forall a | a in w2.actors ensures ActorOk(c, w2, w2.actors[a]) {
      assert ActorOk(c, w, w.actors[a]);
    }
  }

  lemma SurvivorHolds(c: Codec, file: Option<File>, rs: seq<Record>, cut: nat)
    requires FileHolds(c, file, rs)
    ensures FileHolds(c, Survivor(file, cut), rs)
  {
    hide Written;
  }

  lemma LosePowerKeeps(c: Codec, w: World, keepNew: bool, cut: nat)
    requires Inv(c, w)
    ensures Inv(c, LosePower(w, keepNew, cut))
  {
    hide HasBoundary, FileHolds, PhaseOk, OwnerOk;
    SurvivorHolds(c, w.disk.journal, w.records, cut);
    SurvivorHolds(c, w.disk.durable, w.durableRecords, cut);
    BoundariesCarry(w, LosePower(w, keepNew, cut));
  }

  lemma CallKeeps(c: Codec, w: World, a: nat, x: Actor)
    requires Inv(c, w) && a !in w.actors && x.pc == Inspecting && x.phase == AtRest
    ensures Inv(c, SetActor(w, a, x))
  {
    hide HasBoundary, FileHolds, OwnerOk;
    var w2 := SetActor(w, a, x);
    forall b | b in w2.actors ensures ActorOk(c, w2, w2.actors[b]) {
      if b != a { assert ActorOk(c, w, w.actors[b]); }
    }
  }

  lemma IssueKeeps(c: Codec, w: World, permits: map<nat, Permit>)
    requires Inv(c, w)
    ensures Inv(c, w.(permits := permits))
  {
    hide HasBoundary, FileHolds, PhaseOk, OwnerOk;
    forall b | b in w.actors ensures ActorOk(c, w.(permits := permits), w.actors[b]) {
      assert ActorOk(c, w, w.actors[b]);
    }
  }

  /** Every step of every actor, every crash and every power loss keeps the invariant. */
  lemma StepKeeps(c: Codec, w: World, e: Event)
    requires Lawful(c) && Inv(c, w)
    ensures Inv(c, Apply(c, w, e))
  {
    hide Inv, StepActor, Kill, LosePower;
    match e
    case IssuePermit(permit, pid) => IssueKeeps(c, w, w.permits[permit := Permit(pid, false)]);
    case Call(a, pid, permit) => if a !in w.actors { CallKeeps(c, w, a, Actor(pid, permit, Inspecting, AtRest)); }
    case Step(a, io, id) => if a in w.actors { StepActorKeeps(c, w, a, w.actors[a], io, id); }
    case KillProcess(pid) => KillKeeps(c, w, pid);
    case PowerLoss(keepNew, cut) => LosePowerKeeps(c, w, keepNew, cut);
  }

  lemma {:induction false} RunKeeps(c: Codec, w: World, events: seq<Event>)
    requires Lawful(c) && Inv(c, w)
    ensures Inv(c, Run(c, w, events))
    decreases |events|
  {
    hide Inv, Apply;
    if events != [] {
      StepKeeps(c, w, events[0]);
      RunKeeps(c, Apply(c, w, events[0]), events[1..]);
    }
  }

  lemma InitialInv(c: Codec)
    ensures Inv(c, INITIAL)
  {
  }
}
