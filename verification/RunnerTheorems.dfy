/** The guarantees of the journal and its runner over every run. */
module RunnerTheorems {
  import opened Prelude
  import opened JournalRecords
  import opened JournalGrammar
  import opened JournalBytes
  import opened JournalGuards
  import opened JournalAppend
  import opened RunnerProtocol
  import opened RunnerSafety

  lemma Reachable(c: Codec, events: seq<Event>)
    requires Lawful(c)
    ensures Inv(c, Run(c, INITIAL, events))
  {
    InitialInv(c);
    RunKeeps(c, INITIAL, events);
  }

  /** The records a reader finds in a file, whatever its state. */
  function RecordsIn(c: Codec, file: Option<File>): seq<Record> {
    match ReadFile(c, Data(file))
    case Ok(i) => i.records
    case Err(_) => []
  }

  /**
    Over any interleaving of calls, processes, crashes and power losses, the observer has been called
    for sources 0, 1, 2, ... in this order, at most once each, and at most one attempt token was ever issued;
    the durable file still holds a REQUEST_BOUNDARY for every call made.
   */
  lemma ObserverAtMostOnce(c: Codec, events: seq<Event>)
    requires Lawful(c)
    ensures var w := Run(c, INITIAL, events);
            && |w.requests| <= 4
            && (forall i | 0 <= i < |w.requests| :: w.requests[i] == i && HasBoundary(RecordsIn(c, w.disk.durable), i))
            && w.issued <= 1
  {
    hide Written, HasBoundary, ReadFile;
    Reachable(c, events);
    ReadsWritten(c, Run(c, INITIAL, events).durableRecords);
  }

  /** Only an actor about to observe calls, and it asks for the source it is at. */
  lemma StepRequests(c: Codec, w: World, a: nat, x: Actor, io: Io, id: Digest)
    ensures var w2 := StepActor(c, w, a, x, io, id);
            w2.requests != w.requests ==>
              x.phase == AtRest && x.pc.Observing? && w2.requests == w.requests + [x.pc.k]
  {
    hide ReadFile, Candidate, Guard, FieldsOf, MakeRecord;
  }

  lemma EventRequests(c: Codec, w: World, e: Event)
    ensures var w2 := Apply(c, w, e);
            w2.requests != w.requests ==>
              && e.Step? && e.a in w.actors && w.actors[e.a].phase == AtRest && w.actors[e.a].pc.Observing?
              && w2.requests == w.requests + [w.actors[e.a].pc.k]
  {
    hide StepActor;
    if e.Step? && e.a in w.actors { StepRequests(c, w, e.a, w.actors[e.a], e.io, e.id); }
  }

  /** At the moment of a call, the boundary of exactly the next source is already durable. */
  lemma CallsFollowDurableBoundary(c: Codec, events: seq<Event>, e: Event)
    requires Lawful(c)
    ensures var w := Run(c, INITIAL, events);
            var w2 := Apply(c, w, e);
            w2.requests != w.requests ==>
              && w2.requests == w.requests + [|w.requests|]
              && HasBoundary(RecordsIn(c, w.disk.durable), |w.requests|)
  {
    hide Written, HasBoundary, ReadFile, Apply, Run;
    Reachable(c, events);
    var w := Run(c, INITIAL, events);
    EventRequests(c, w, e);
    if Apply(c, w, e).requests != w.requests {
      ReadsWritten(c, w.durableRecords);
      ObserverReady(c, w, e.a, w.actors[e.a]);
    }
  }

  /** Whatever happens, a reader finds no journal or a complete valid one, never a torn or corrupt file. */
  lemma NeverTorn(c: Codec, events: seq<Event>)
    requires Lawful(c)
    ensures var w := Run(c, INITIAL, events);
            ReadFile(c, Data(w.disk.journal)) ==
            Ok(Inspection(if w.records == [] then Absent else Valid, w.records))
  {
    Reachable(c, events);
    ReadsWritten(c, Run(c, INITIAL, events).records);
  }

  /** What one step of an actor does to the written records. */
  lemma StepRecords(c: Codec, w: World, a: nat, x: Actor, io: Io, id: Digest)
    ensures var w2 := StepActor(c, w, a, x, io, id);
            w2.records == w.records || (exists r :: w2.records == w.records + [r])
  {
    hide ReadFile, Candidate, Guard, FieldsOf, MakeRecord;
    if x.phase.Renamed? || x.phase.Confirmed? {
      hide StepInspect, StepObserve, StepGuard, StepLock, StepOpen, StepWrite, StepRename;
    } else if x.phase.Writing? || x.phase.Synced? {
      hide StepInspect, StepObserve, StepGuard, StepLock, StepOpen, StepDirectorySync, StepReturn;
    } else {
      hide StepWrite, StepRename, StepDirectorySync, StepReturn;
    }
  }

  /**
    One step leaves the journal as it was or extends it by one record; a power loss leaves it as it was
    or as the directory on disk last had it. Either way it reads as a valid journal.
   */
  lemma OldOrNew(c: Codec, events: seq<Event>, e: Event)
    requires Lawful(c)
    ensures var w := Run(c, INITIAL, events);
            var w2 := Apply(c, w, e);
            var before, after := RecordsIn(c, w.disk.journal), RecordsIn(c, w2.disk.journal);
            && Data(w2.disk.journal) == FileOf(c, after) && Written(c, after)
            && (!e.PowerLoss? ==> after == before || (exists r :: after == before + [r]))
            && (e.PowerLoss? ==> after == before || after == RecordsIn(c, w.disk.durable))
  {
    hide Written, FileOf, HasBoundary, StepActor, ReadFile;
    Reachable(c, events);
    var w := Run(c, INITIAL, events);
    var w2 := Apply(c, w, e);
    StepKeeps(c, w, e);
    ReadsWritten(c, w.records);
    ReadsWritten(c, w.durableRecords);
    ReadsWritten(c, w2.records);
    if e.Step? && e.a in w.actors { StepRecords(c, w, e.a, w.actors[e.a], e.io, e.id); }
  }

  ghost predicate NoOwner(w: World) {
    forall a | a in w.actors :: !IsOwner(w.actors[a])
  }

  ghost predicate Unmoved(w: World, w2: World) {
    && NoOwner(w2)
    && w2.records == w.records && w2.durableRecords == w.durableRecords
    && w2.issued == w.issued && w2.requests == w.requests
  }

  /** An actor without the token cannot get far enough to change anything. */
  lemma OwnerlessActor(c: Codec, w: World, a: nat, x: Actor)
    requires At(c, w, a, x) && w.records != [] && !IsOwner(x)
    ensures !x.phase.Synced? && x.phase != Renamed && x.phase != Confirmed && !x.pc.Observing?
  {
    hide FileHolds, HasBoundary, FieldsFit, IsExtension, RequestsOk;
    assert ActorOk(c, w, x);
    NeverEmptyAgain(w.records);
  }

  lemma InspectKeepsOthers(c: Codec, w: World, a: nat, x: Actor)
    requires a in w.actors
    ensures SameOthers(w, StepInspect(c, w, a, x), a)
  {
    hide ReadFile;
  }

  lemma GuardKeepsOthers(c: Codec, w: World, a: nat, x: Actor, op: Op)
    requires a in w.actors
    ensures SameOthers(w, StepGuard(c, w, a, x, op), a)
  {
    hide ReadFile, Guard, FieldsOf;
  }

  lemma WritingStepsKeepOthers(c: Codec, w: World, a: nat, x: Actor, io: Io)
    requires a in w.actors
    ensures x.phase.Guarded? ==> SameOthers(w, StepLock(w, a, x, io), a)
    ensures x.phase.Locked? && (x.phase.f.source.Some? ==> x.phase.f.source.value < |SOURCES|) ==>
              SameOthers(w, StepOpen(c, w, a, x, io), a)
    ensures x.phase.Writing? ==> SameOthers(w, StepWrite(w, a, x, io), a)
  {
    hide Candidate;
  }

  lemma OwnerlessStep(c: Codec, w: World, a: nat, x: Actor, io: Io, id: Digest)
    requires a in w.actors && w.actors[a] == x && NoOwner(w)
    requires !x.phase.Synced? && x.phase != Renamed && x.phase != Confirmed && !x.pc.Observing?
    ensures Unmoved(w, StepActor(c, w, a, x, io, id))
  {
    OwnerlessActorStep(c, w, a, x, io, id);
    InspectKeepsOthers(c, w, a, x);
    if OpAt(x.pc, id).Some? { GuardKeepsOthers(c, w, a, x, OpAt(x.pc, id).value); }
    WritingStepsKeepOthers(c, w, a, x, io);
    hide StepInspect, StepGuard, StepLock, StepOpen, StepWrite;
  }

  lemma OwnerlessActorStep(c: Codec, w: World, a: nat, x: Actor, io: Io, id: Digest)
    requires a in w.actors && w.actors[a] == x && !IsOwner(x)
    requires !x.phase.Synced? && x.phase != Renamed && x.phase != Confirmed && !x.pc.Observing?
    ensures var w2 := StepActor(c, w, a, x, io, id);
            && w2.records == w.records && w2.durableRecords == w.durableRecords
            && w2.issued == w.issued && w2.requests == w.requests
            && a in w2.actors && !IsOwner(w2.actors[a])
  {
    hide StepInspect, StepGuard, StepLock, StepOpen, StepWrite, StepRename, StepDirectorySync, StepReturn, StepObserve,
      IsOwner;
    if x.phase == AtRest { OwnerlessRest(c, w, a, x, id); } else { OwnerlessWriter(c, w, a, x, io); }
  }

  ghost predicate LeavesJournal(w: World, w2: World, a: nat) {
    && w2.records == w.records && w2.durableRecords == w.durableRecords
    && w2.issued == w.issued && w2.requests == w.requests
    && a in w2.actors && !IsOwner(w2.actors[a])
  }

  lemma OwnerlessRest(c: Codec, w: World, a: nat, x: Actor, id: Digest)
    requires a in w.actors && w.actors[a] == x && !IsOwner(x) && x.phase == AtRest
    ensures x.pc == Inspecting ==> LeavesJournal(w, StepInspect(c, w, a, x), a)
    ensures OpAt(x.pc, id).Some? ==> LeavesJournal(w, StepGuard(c, w, a, x, OpAt(x.pc, id).value), a)
  {
    hide ReadFile, Guard, FieldsOf, OpInRange;
  }

  lemma OwnerlessWriter(c: Codec, w: World, a: nat, x: Actor, io: Io)
    requires a in w.actors && w.actors[a] == x && !IsOwner(x)
    ensures x.phase.Guarded? ==> LeavesJournal(w, StepLock(w, a, x, io), a)
    ensures x.phase.Locked? && (x.phase.f.source.Some? ==> x.phase.f.source.value < |SOURCES|) ==>
              LeavesJournal(w, StepOpen(c, w, a, x, io), a)
    ensures x.phase.Writing? ==> LeavesJournal(w, StepWrite(w, a, x, io), a)
  {
    hide Candidate;
  }

  lemma OwnerlessCrash(w: World, pid: nat)
    requires NoOwner(w)
    ensures Unmoved(w, Kill(w, pid))
  {
  }

  /** With a journal present and nobody holding the token, no step writes to it or creates a token. */
  lemma FrozenStep(c: Codec, w: World, e: Event)
    requires Lawful(c) && Inv(c, w) && w.records != [] && NoOwner(w)
    requires e.PowerLoss? ==> w.durableRecords == w.records
    ensures Inv(c, Apply(c, w, e)) && Unmoved(w, Apply(c, w, e))
  {
    hide Inv, StepActor, Kill;
    StepKeeps(c, w, e);
    match e
    case Step(a, io, id) =>
      if a in w.actors {
        OwnerlessActor(c, w, a, w.actors[a]);
        OwnerlessStep(c, w, a, w.actors[a], io, id);
      }
    case KillProcess(pid) => OwnerlessCrash(w, pid);
    case _ =>
  }

  /**
    Once the token is gone, by a crash of its process or a failed call, a surviving journal never grows
    again and the observer is never called again; once it is also durable, not even a power loss changes this.
   */
  lemma {:induction false} FrozenForever(c: Codec, w: World, events: seq<Event>)
    requires Lawful(c) && Inv(c, w) && w.records != [] && NoOwner(w)
    requires w.durableRecords == w.records || (forall e | e in events :: !e.PowerLoss?)
    ensures var w2 := Run(c, w, events);
            && Data(w2.disk.journal) == Data(w.disk.journal)
            && w2.requests == w.requests && w2.issued == w.issued
    decreases |events|
  {
    if events == [] {
    } else {
      assert events[0] in events;
      FrozenStep(c, w, events[0]);
      var w1 := Apply(c, w, events[0]);
      assert forall e | e in events[1..] :: e in events;
      SameJournal(c, w, w1);
      hide Inv, Apply;
      FrozenForever(c, w1, events[1..]);
    }
  }

  lemma SameJournal(c: Codec, w: World, w1: World)
    requires Inv(c, w) && Inv(c, w1) && w1.records == w.records
    ensures Data(w1.disk.journal) == Data(w.disk.journal)
  {
    hide Written, RequestsOk, ActorOk;
  }

  /** After a power loss that leaves a journal behind, no later run of any kind changes it. */
  lemma RestartFreezes(c: Codec, events: seq<Event>, keepNew: bool, cut: nat, later: seq<Event>)
    requires Lawful(c)
    ensures var w := Apply(c, Run(c, INITIAL, events), PowerLoss(keepNew, cut));
            var w2 := Run(c, w, later);
            w.disk.journal.Some? ==>
              Data(w2.disk.journal) == Data(w.disk.journal) && w2.requests == w.requests && w2.issued == w.issued
  {
    Reachable(c, events);
    var w := Apply(c, Run(c, INITIAL, events), PowerLoss(keepNew, cut));
    StepKeeps(c, Run(c, INITIAL, events), PowerLoss(keepNew, cut));
    if w.disk.journal.Some? {
      JournalMeansRecords(c, w);
      hide Inv, Run;
      FrozenForever(c, w, later);
    }
  }

  lemma JournalMeansRecords(c: Codec, w: World)
    requires Inv(c, w) && w.disk.journal.Some?
    ensures w.records != []
  {
    hide Written, RequestsOk, ActorOk;
  }
}
