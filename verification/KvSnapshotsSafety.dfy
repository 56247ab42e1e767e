/** What interruption cannot break, what recovery restores, and when recovery fails. */
module KvSnapshotsSafety {
  import opened Prelude
  import opened KvSnapshots

  /** Generations present before are present after, with the same content. */
  predicate Preserves(before: map<string, Generation>, after: map<string, Generation>) {
    forall name | name in before :: name in after && after[name] == before[name]
  }

  lemma SnapshotFilesComplete(id: string, at: string)
    ensures VerdictOf(SnapshotFiles(id, at)) == Complete(id, at)
  {
    CompleteIff(SnapshotFiles(id, at), id, at);
    forall f | f in SNAPSHOT_FILES
      ensures Holds(SnapshotFiles(id, at), f, id, at)
    {
    }
  }

  /** Recovery of a published output touches neither the link nor any generation. */
  lemma RecoverKeepsPublished(fs: Fs, order: seq<string>)
    requires Published(fs)
    ensures var (after, result) := RecoverSpec(fs, order);
            result == Found(fs.output.name) && after == fs.(temporaries := after.temporaries)
  {
  }

  /** An interrupted write leaves a published output on a complete generation, the old one or the new one, and
      no generation that existed is changed. */
  lemma WriteKeepsPublished(fs: Fs, order: seq<string>, id: string, at: string, mtime: int, fault: Fault)
    requires Published(fs)
    ensures var (after, done) := WriteSpec(fs, order, id, at, mtime, fault);
            && Published(after) && Preserves(fs.generations, after.generations)
            && (after.output == fs.output || (after.output == Link(id) && id !in fs.generations))
            && (done ==> after.output == Link(id) && VerdictOf(after.generations[id].content) == Complete(id, at))
  {
    hide VerdictOf;
    RecoverKeepsPublished(fs, order);
    SnapshotFilesComplete(id, at);
  }

  /** Without a fault, and with a new identifier, a write publishes exactly its own snapshot. */
  lemma WriteCompletes(fs: Fs, order: seq<string>, id: string, at: string, mtime: int)
    requires Published(fs) && id !in fs.generations
    ensures var (after, done) := WriteSpec(fs, order, id, at, mtime, NoFault);
            && done && after.output == Link(id)
            && after.generations == fs.generations[id := Generation(SnapshotFiles(id, at), mtime)]
  {
    RecoverKeepsPublished(fs, order);
  }

  /** The first candidate whose failure recovery does not survive comes before any complete one. */
  predicate ScanBlocked(generations: map<string, Generation>, order: seq<string>) {
    exists i | 0 <= i < |order| ::
      && order[i] in generations && VerdictOf(generations[order[i]].content) == Escapes
      && forall j | 0 <= j < i :: !IsComplete(generations, order[j])
  }

  predicate AnyComplete(generations: map<string, Generation>, order: seq<string>) {
    exists i | 0 <= i < |order| :: IsComplete(generations, order[i])
  }

  lemma {:induction false} ScanFinds(generations: map<string, Generation>, order: seq<string>)
    ensures Scan(generations, order) == Raised <==> ScanBlocked(generations, order)
    ensures !ScanBlocked(generations, order) ==>
              (Scan(generations, order).Found? <==> AnyComplete(generations, order))
    ensures Scan(generations, order).Found? ==>
              && Scan(generations, order).name in order && IsComplete(generations, Scan(generations, order).name)
              && exists i | 0 <= i < |order| :: order[i] == Scan(generations, order).name
                                                && forall j | 0 <= j < i :: !IsComplete(generations, order[j])
    ensures !Scan(generations, order).FoundDirectory?
  {
    hide VerdictOf;
    if order != [] {
      var rest := order[1..];
      ScanFinds(generations, rest);
      if order[0] !in generations || VerdictOf(generations[order[0]].content) == Refused {
        ScanShift(generations, order);
      }
    }
  }

  lemma ScanShift(generations: map<string, Generation>, order: seq<string>)
    requires order != []
    requires order[0] !in generations || VerdictOf(generations[order[0]].content) == Refused
    ensures ScanBlocked(generations, order) <==> ScanBlocked(generations, order[1..])
    ensures AnyComplete(generations, order) <==> AnyComplete(generations, order[1..])
  {
  }

  /** A scan that finds nothing met only refused candidates. */
  lemma {:induction false} NothingIff(generations: map<string, Generation>, order: seq<string>)
    ensures Scan(generations, order) == Nothing <==>
            forall name | name in order && name in generations :: VerdictOf(generations[name].content) == Refused
  {
    hide VerdictOf;
    if order != [] {
      NothingIff(generations, order[1..]);
    }
  }

  /** What recovery must go through before it reaches a complete generation, in the order it looks. */
  predicate RecoveryBlocked(fs: Fs, order: seq<string>) {
    match fs.output
    case RealDirectory(content) => !VerdictOf(content).Complete?
    case Missing => fs.made && ScanBlocked(fs.generations, order)
    case Link(name) =>
      if name in fs.generations && VerdictOf(fs.generations[name].content) != Refused then
        VerdictOf(fs.generations[name].content) == Escapes
      else fs.made && ScanBlocked(fs.generations, order)
  }

  predicate HasComplete(generations: map<string, Generation>) {
    exists name | name in generations :: IsComplete(generations, name)
  }

  /** The newest complete generation. */
  predicate Newest(generations: map<string, Generation>, name: string) {
    && IsComplete(generations, name)
    && forall other | other in generations && IsComplete(generations, other) ::
         generations[other].mtime <= generations[name].mtime
  }

  lemma ScanIsNewest(fs: Fs, order: seq<string>)
    requires NewestFirst(fs.generations, order) && Scan(fs.generations, order).Found?
    ensures Newest(fs.generations, Scan(fs.generations, order).name)
  {
    hide VerdictOf, Scan, IsComplete;
    var name := Scan(fs.generations, order).name;
    ScanFinds(fs.generations, order);
    var i :| 0 <= i < |order| && order[i] == name && forall j | 0 <= j < i :: !IsComplete(fs.generations, order[j]);
    forall other | other in fs.generations && IsComplete(fs.generations, other)
      ensures fs.generations[other].mtime <= fs.generations[name].mtime
    {
      assert other in order;
      var k :| 0 <= k < |order| && order[k] == other;
    }
  }

  /** Recovery fails exactly when it meets, before any complete generation, one whose validation raises what
      recovery does not catch (`EscapesIff`). Otherwise it leaves a published output whenever a complete
      generation exists. */
  lemma RecoveryRestoresIff(fs: Fs, order: seq<string>)
    requires NewestFirst(fs.generations, order) && (fs.generations != map[] ==> fs.made)
    ensures var (after, result) := RecoverSpec(fs, order);
            && (result == Raised <==> RecoveryBlocked(fs, order))
            && after.generations == fs.generations
            && (result.Found? ==> Published(after) && after.output == Link(result.name))
            && (!fs.output.RealDirectory? && result != Raised ==> (Published(after) <==> HasComplete(fs.generations)))
            && (!fs.output.RealDirectory? && result != Raised && !Published(fs) && HasComplete(fs.generations) ==>
                  Newest(fs.generations, after.output.name))
  {
    ScanFinds(fs.generations, order);
    hide VerdictOf, Newest, ScanBlocked;
    if Scan(fs.generations, order).Found? {
      ScanIsNewest(fs, order);
    }
    assert AnyComplete(fs.generations, order) <==> HasComplete(fs.generations);
    if !fs.made {
      assert fs.generations == map[];
    }
  }

  /** Once it has succeeded, recovering again changes nothing and answers the same. */
  lemma RecoveryIdempotent(fs: Fs, order: seq<string>, again: seq<string>)
    requires NewestFirst(fs.generations, order) && NewestFirst(fs.generations, again)
    requires RecoverSpec(fs, order).1 != Raised
    requires fs.generations != map[] ==> fs.made
    ensures var (after, result) := RecoverSpec(fs, order);
            RecoverSpec(after, again) == (after, result)
  {
    hide VerdictOf, Scan, NewestFirst, Newest, RecoveryBlocked, HasComplete, ScanBlocked, AnyComplete;
    ScanFinds(fs.generations, order);
    var (after, result) := RecoverSpec(fs, order);
    RecoveryRestoresIff(fs, order);
    if result.Found? {
      RecoverKeepsPublished(after, again);
    } else if result == Nothing {
      SameCandidates(after, order, again);
    }
  }

  lemma SameCandidates(fs: Fs, order: seq<string>, again: seq<string>)
    requires NewestFirst(fs.generations, order) && NewestFirst(fs.generations, again)
    ensures Scan(fs.generations, order) == Nothing ==> Scan(fs.generations, again) == Nothing
  {
    NothingIff(fs.generations, order);
    NothingIff(fs.generations, again);
  }

  /** The ways a generation makes its validation raise what recovery does not catch. */
  lemma EscapesIff(d: Directory)
    ensures VerdictOf(d) == Escapes <==>
            || (exists k | 0 <= k < 4 ::
                  && SNAPSHOT_FILES[k] in d && d[SNAPSHOT_FILES[k]] == Unreadable
                  && forall i | 0 <= i < k :: SNAPSHOT_FILES[i] in d && d[SNAPSHOT_FILES[i]] != NotJson)
            || ((forall i | 0 <= i < 4 ::
                   SNAPSHOT_FILES[i] in d && d[SNAPSHOT_FILES[i]] != NotJson && d[SNAPSHOT_FILES[i]] != Unreadable)
                && exists i | 0 <= i < 4 :: Incomparable(d[SNAPSHOT_FILES[i]]))
  {
    assert forall i | 0 <= i < 4 :: SNAPSHOT_FILES[i] in SNAPSHOT_FILES by {
      forall i | 0 <= i < 4 ensures SNAPSHOT_FILES[i] in SNAPSHOT_FILES {}
    }
    FirstProblem(d, 4);
  }

  lemma {:induction false} FirstProblem(d: Directory, n: nat)
    requires n <= 4
    ensures ReadProblem(d, n) == Some(Escapes) <==>
            exists k | 0 <= k < n ::
              && SNAPSHOT_FILES[k] in d && d[SNAPSHOT_FILES[k]] == Unreadable
              && forall i | 0 <= i < k :: SNAPSHOT_FILES[i] in d && d[SNAPSHOT_FILES[i]] != NotJson
  {
    if n > 0 { FirstProblem(d, n - 1); }
  }

  /** An older complete generation behind a newer one whose status file reads as the given payload. */
  function Hidden(bad: Payload): Fs {
    Fs(Missing, true,
       map["old" := Generation(SnapshotFiles("old", "then"), 1),
           "new" := Generation(SnapshotFiles("new", "now")[StatusFile := bad], 2)],
       map[], 0)
  }

  /** A newer generation whose status file is a JSON list, or has a list for its identifier, hides a complete
      older one: recovery raises. */
  lemma RecoveryCanFail(bad: Payload)
    requires Incomparable(bad)
    ensures var fs := Hidden(bad);
            && NewestFirst(fs.generations, ["new", "old"]) && HasComplete(fs.generations) && fs.output == Missing
            && RecoverSpec(fs, ["new", "old"]).1 == Raised
  {
    var fs := Hidden(bad);
    SnapshotFilesComplete("old", "then");
    assert IsComplete(fs.generations, "old");
    var content := SnapshotFiles("new", "now")[StatusFile := bad];
    assert SNAPSHOT_FILES[0] == StatusFile && content[SNAPSHOT_FILES[0]] == bad;
    assert ReadProblem(content, 4) == None;
    EscapesIff(content);
  }

  /** Both inputs are of that kind: a list in the place of the file, and a list in the place of its identifier. */
  lemma RecoveryCanFailTwice()
    ensures RecoverSpec(Hidden(NotObject), ["new", "old"]).1 == Raised
    ensures RecoverSpec(Hidden(Object(Unhashable, Value("now"))), ["new", "old"]).1 == Raised
  {
    RecoveryCanFail(NotObject);
    RecoveryCanFail(Object(Unhashable, Value("now")));
  }

  // Whole runs

  /** What every run of writes and recoveries keeps, wherever it is interrupted. */
  predicate Healthy(fs: Fs) {
    && (forall name | name in fs.generations :: IsComplete(fs.generations, name))
    && (fs.generations != map[] ==> fs.made)
    && (fs.output == Missing || (fs.output.Link? && fs.output.name in fs.generations))
  }

  lemma RecoverKeepsHealthy(fs: Fs, order: seq<string>)
    requires Healthy(fs) && NewestFirst(fs.generations, order)
    ensures var (after, result) := RecoverSpec(fs, order);
            && Healthy(after) && result != Raised && after.generations == fs.generations
            && (fs.output != Missing ==> after.output == fs.output)
            && (fs.generations != map[] ==> Published(after))
  {
    ScanFinds(fs.generations, order);
    RecoveryRestoresIff(fs, order);
    hide VerdictOf, Scan, Newest;
    if fs.generations != map[] {
      var name :| name in fs.generations;
      assert HasComplete(fs.generations);
    }
  }

  lemma PromoteKeepsHealthy(fs: Fs, id: string, at: string, mtime: int, fault: Fault)
    requires Healthy(fs) && fs.made
    ensures var (after, done) := PromoteSpec(fs, id, at, mtime, fault);
            && Healthy(after) && Preserves(fs.generations, after.generations)
            && (after.output == fs.output || after.output == Link(id))
  {
    hide VerdictOf, SnapshotFiles;
    SnapshotFilesComplete(id, at);
  }

  lemma PublishKeepsHealthy(fs: Fs, id: string, at: string, mtime: int, fault: Fault)
    requires Healthy(fs) && fs.made
    ensures var (after, done) := PublishSpec(fs, id, at, mtime, fault);
            && Healthy(after) && Preserves(fs.generations, after.generations)
            && (after.output == fs.output || after.output == Link(id))
  {
    hide IsComplete, PromoteSpec, SnapshotFiles, FirstFiles;
    PromoteKeepsHealthy(fs, id, at, mtime, fault);
  }

  lemma StepKeepsHealthy(fs: Fs, e: Event)
    requires Healthy(fs)
    ensures var after := Apply(fs, e);
            Healthy(after) && Preserves(fs.generations, after.generations) && (Published(fs) ==> Published(after))
  {
    if NewestFirst(fs.generations, e.order) {
      hide VerdictOf, NewestFirst, RecoverSpec, PublishSpec;
      RecoverKeepsHealthy(fs, e.order);
      if e.Write? {
        var recovered := RecoverSpec(fs, e.order).0;
        PublishKeepsHealthy(
          recovered.(made := true, temporaries := recovered.temporaries - {e.id}), e.id, e.at, e.mtime, e.fault);
      }
    }
  }

  /** Over any run of writes and recoveries, interrupted anywhere: completed generations never change, an output
      once published stays published, and recovery then finds a generation whenever one was ever completed. */
  lemma {:induction false} RunKeepsPublished(fs: Fs, events: seq<Event>)
    requires Healthy(fs)
    ensures var after := Run(fs, events);
            Healthy(after) && Preserves(fs.generations, after.generations) && (Published(fs) ==> Published(after))
    decreases |events|
  {
    hide Healthy, Apply, Published;
    if events != [] {
      StepKeepsHealthy(fs, events[0]);
      RunKeepsPublished(Apply(fs, events[0]), events[1..]);
    }
  }

  lemma RecoveryAfterAnyRun(events: seq<Event>, order: seq<string>)
    requires NewestFirst(Run(EMPTY, events).generations, order)
    ensures var fs := Run(EMPTY, events);
            RecoverSpec(fs, order).1 != Raised
            && (fs.generations != map[] ==> Published(RecoverSpec(fs, order).0))
  {
    RunKeepsPublished(EMPTY, events);
    RecoverKeepsHealthy(Run(EMPTY, events), order);
  }

  // Publication, whatever was published before

  /** The write gets as far as renaming its directory into place. */
  predicate Promotes(fault: Fault) {
    fault == NoFault || fault.step in {Promoted, PointerCreated, BeforeSwap, Swapped}
  }

  /** The write gets as far as swapping the link. */
  predicate Swaps(fault: Fault) {
    fault == NoFault || fault.step == Swapped
  }

  /** The temporary directory stays: its creation is not guarded, and a process that dies cleans nothing up. */
  predicate Litters(fault: Fault) {
    && fault.At?
    && (fault.step == TemporaryCreated
        || (fault.dies && (fault.step.Writing? || fault.step in {BeforeValidation, Validated, BeforePromotion})))
  }

  /** What a write leaves after its recovery, from any state: generations, link, temporary directory and answer. */
  lemma WriteTells(fs: Fs, order: seq<string>, id: string, at: string, mtime: int, fault: Fault)
    ensures var (recovered, result) := RecoverSpec(fs, order);
            var (after, done) := WriteSpec(fs, order, id, at, mtime, fault);
            var isNew := id !in fs.generations;
            if result == Raised || recovered.output.RealDirectory? then after == recovered && !done
            else
              && (done <==> fault == NoFault && isNew)
              && after.output == (if isNew && Swaps(fault) then Link(id) else recovered.output)
              && after.generations ==
                 (if isNew && Promotes(fault) then fs.generations[id := Generation(SnapshotFiles(id, at), mtime)]
                  else fs.generations)
              && (id in after.temporaries <==> Litters(fault))
              && after.temporaries - {id} == recovered.temporaries - {id}
  {
    RecoverKeepsGenerations(fs, order);
    hide RecoverSpec, SnapshotFiles, FirstFiles;
  }

  lemma RecoverKeepsGenerations(fs: Fs, order: seq<string>)
    ensures RecoverSpec(fs, order).0.generations == fs.generations
  {
    hide VerdictOf, Scan;
  }

  /** An answer of success is a publication, whatever the output was before. */
  lemma DonePublishes(fs: Fs, order: seq<string>, id: string, at: string, mtime: int, fault: Fault)
    ensures var (after, done) := WriteSpec(fs, order, id, at, mtime, fault);
            done ==>
              && after.output == Link(id) && Published(after) && id !in fs.generations
              && after.generations == fs.generations[id := Generation(SnapshotFiles(id, at), mtime)]
              && VerdictOf(after.generations[id].content) == Complete(id, at)
  {
    WriteTells(fs, order, id, at, mtime, fault);
    SnapshotFilesComplete(id, at);
    hide VerdictOf, SnapshotFiles, WriteSpec, RecoverSpec;
  }

  /** After any runs, the first one included, an undisturbed write of a new snapshot is published. */
  lemma HealthyWriteCompletes(fs: Fs, order: seq<string>, id: string, at: string, mtime: int)
    requires Healthy(fs) && NewestFirst(fs.generations, order) && id !in fs.generations
    ensures var (after, done) := WriteSpec(fs, order, id, at, mtime, NoFault);
            && done && after.output == Link(id)
            && after.generations == fs.generations[id := Generation(SnapshotFiles(id, at), mtime)]
  {
    RecoverKeepsHealthy(fs, order);
    WriteTells(fs, order, id, at, mtime, NoFault);
    hide VerdictOf, SnapshotFiles, WriteSpec, RecoverSpec, NewestFirst;
  }

  /** Over any run from an empty directory. */
  lemma WriteAfterAnyRun(events: seq<Event>, order: seq<string>, id: string, at: string, mtime: int)
    requires NewestFirst(Run(EMPTY, events).generations, order) && id !in Run(EMPTY, events).generations
    ensures var (after, done) := WriteSpec(Run(EMPTY, events), order, id, at, mtime, NoFault);
            done && after.output == Link(id) && Published(after)
  {
    RunKeepsPublished(EMPTY, events);
    HealthyWriteCompletes(Run(EMPTY, events), order, id, at, mtime);
    DonePublishes(Run(EMPTY, events), order, id, at, mtime, NoFault);
    hide VerdictOf, SnapshotFiles, WriteSpec, NewestFirst;
  }
}
