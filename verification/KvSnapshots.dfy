/**
  Snapshot publication: generations are directories, the output is a symbolic link to one of them, and a
  write builds a temporary directory, promotes it and swaps the link. A write can be interrupted at each of
  its fault points, by an exception or by the death of the process.
 */
module KvSnapshots {
  import opened Prelude

  datatype File = StatusFile | NamespacesFile | ChangesFile | PresenceFile

  const SNAPSHOT_FILES: seq<File> := [StatusFile, NamespacesFile, ChangesFile, PresenceFile]

  /**
    An identifying field of a snapshot file: missing or null, a value that can be put into a set (known by what
    it equals), or a list or object, which cannot.
   */
  datatype Identity = Blank | Value(text: string) | Unhashable

  /**
    What one file yields. `NotJson` is a decoding error of the JSON reader; `Unreadable` any other failure of
    reading or parsing, such as bytes that are not UTF-8 or an integer that is too long; `NotObject` is JSON
    that is not an object.
   */
  datatype Payload = Object(id: Identity, at: Identity) | NotJson | Unreadable | NotObject

  type Directory = map<File, Payload>

  /** `Refused` is an error that recovery catches, `Escapes` one that it does not. */
  datatype Verdict = Complete(id: string, at: string) | Refused | Escapes

  /** The first failure among the first k files. */
  function ReadProblem(d: Directory, k: nat): (problem: Option<Verdict>)
    requires k <= 4
    ensures problem.None? <==> forall i | 0 <= i < k ::
              SNAPSHOT_FILES[i] in d && d[SNAPSHOT_FILES[i]] != NotJson && d[SNAPSHOT_FILES[i]] != Unreadable
    ensures problem.Some? ==> problem.value in {Refused, Escapes}
  {
    if k == 0 then None
    else
      match ReadProblem(d, k - 1)
      case Some(problem) => Some(problem)
      case None =>
        var file := SNAPSHOT_FILES[k - 1];
        if file !in d || d[file] == NotJson then Some(Refused)
        else if d[file] == Unreadable then Some(Escapes)
        else None
  }

  predicate Holds(d: Directory, file: File, id: string, at: string) {
    file in d && d[file] == Object(Value(id), Value(at))
  }

  /** Comparing the identities of the files fails on this one: it has no fields, or one that cannot be compared. */
  predicate Incomparable(p: Payload) {
    p == NotObject || (p.Object? && (p.id == Unhashable || p.at == Unhashable))
  }

  /** `_validate_generation`. */
  function VerdictOf(d: Directory): Verdict {
    match ReadProblem(d, 4)
    case Some(problem) => problem
    case None =>
      if exists f | f in SNAPSHOT_FILES :: f in d && Incomparable(d[f]) then Escapes
      else
        match d[SNAPSHOT_FILES[0]]
        case Object(Value(id), Value(at)) =>
          if forall f | f in SNAPSHOT_FILES :: Holds(d, f, id, at) then Complete(id, at) else Refused
        case _ => Refused
  }

  /** A generation is complete exactly when all four files carry one and the same identity. */
  lemma CompleteIff(d: Directory, id: string, at: string)
    ensures VerdictOf(d) == Complete(id, at) <==> forall f | f in SNAPSHOT_FILES :: Holds(d, f, id, at)
  {
    if forall f | f in SNAPSHOT_FILES :: Holds(d, f, id, at) {
      forall i | 0 <= i < 4
        ensures Holds(d, SNAPSHOT_FILES[i], id, at)
      {
        assert SNAPSHOT_FILES[i] in SNAPSHOT_FILES;
      }
      assert ReadProblem(d, 4) == None;
      assert Holds(d, SNAPSHOT_FILES[0], id, at);
    }
  }

  datatype Generation = Generation(content: Directory, mtime: int)

  datatype Output = Missing | Link(name: string) | RealDirectory(content: Directory)

  datatype Fs = Fs(output: Output, made: bool, generations: map<string, Generation>,
                   temporaries: map<string, Directory>, strays: nat)

  const EMPTY: Fs := Fs(Missing, false, map[], map[], 0)

  predicate IsComplete(generations: map<string, Generation>, name: string) {
    name in generations && VerdictOf(generations[name].content).Complete?
  }

  /** The output resolves to a complete generation. */
  predicate Published(fs: Fs) {
    fs.output.Link? && IsComplete(fs.generations, fs.output.name)
  }

  /** The generation names as the recovery scan visits them: newest first. */
  ghost predicate NewestFirst(generations: map<string, Generation>, order: seq<string>) {
    && (forall name :: name in order <==> name in generations)
    && (forall i, j | 0 <= i < j < |order| :: order[i] != order[j])
    && (forall i, j | 0 <= i < j < |order| ::
          order[i] in generations && order[j] in generations
          && generations[order[i]].mtime >= generations[order[j]].mtime)
  }

  datatype Recovery = Found(name: string) | FoundDirectory | Nothing | Raised

  /** The first candidate that is complete; one that fails in an uncaught way ends the scan. */
  function Scan(generations: map<string, Generation>, order: seq<string>): Recovery {
    if order == [] then Nothing
    else if order[0] !in generations then Scan(generations, order[1..])
    else
      match VerdictOf(generations[order[0]].content)
      case Complete(_, _) => Found(order[0])
      case Refused => Scan(generations, order[1..])
      case Escapes => Raised
  }

  function ScanAndPoint(fs: Fs, order: seq<string>): (Fs, Recovery) {
    if !fs.made then (fs, Nothing)
    else
      var scan := Scan(fs.generations, order);
      (if scan.Found? then fs.(output := Link(scan.name)) else fs, scan)
  }

  function RecoverSpec(fs: Fs, order: seq<string>): (Fs, Recovery) {
    var swept := if fs.made then fs.(temporaries := map[]) else fs;
    match swept.output
    case RealDirectory(content) =>
      if VerdictOf(content).Complete? then (swept, FoundDirectory) else (swept, Raised)
    case Missing => ScanAndPoint(swept, order)
    case Link(name) =>
      if name !in swept.generations || VerdictOf(swept.generations[name].content) == Refused then
        ScanAndPoint(swept.(output := Missing), order)
      else if VerdictOf(swept.generations[name].content) == Escapes then (swept, Raised)
      else (swept, Found(name))
  }

  // Publication

  datatype Step =
    | BeforeTemporaryCreate | TemporaryCreated | Writing(files: nat) | BeforeValidation | Validated
    | BeforePromotion | Promoted | PointerCreated | BeforeSwap | Swapped

  /** Where a write stops, and whether its cleanup still runs. */
  datatype Fault = NoFault | At(step: Step, dies: bool)

  function SnapshotFiles(id: string, at: string): Directory {
    map f | f in SNAPSHOT_FILES :: Object(Value(id), Value(at))
  }

  function FirstFiles(id: string, at: string, n: nat): Directory {
    map i | 0 <= i < 4 && i < n :: SNAPSHOT_FILES[i] := Object(Value(id), Value(at))
  }

  /** The temporary directory after an interruption inside the guarded part. */
  function LeaveTemporary(fs: Fs, id: string, content: Directory, dies: bool): Fs {
    if dies then fs.(temporaries := fs.temporaries[id := content]) else fs
  }

  /** Promotion and the pointer swap; promotion fails when the final name is taken. */
  function PromoteSpec(fs: Fs, id: string, at: string, mtime: int, fault: Fault): (Fs, bool) {
    var promoted := fs.(generations := fs.generations[id := Generation(SnapshotFiles(id, at), mtime)]);
    if id in fs.generations then (fs, false)
    else if fault == NoFault then (promoted.(output := Link(id)), true)
    else if fault.step == Promoted then (promoted, false)
    else if fault.step == PointerCreated || fault.step == BeforeSwap then
      (if fault.dies then promoted.(strays := fs.strays + 1) else promoted, false)
    else (promoted.(output := Link(id)), false)
  }

  /** Publication from a state whose temporary directory for this snapshot is gone. */
  function PublishSpec(fs: Fs, id: string, at: string, mtime: int, fault: Fault): (Fs, bool) {
    match fault
    case At(BeforeTemporaryCreate, _) => (fs, false)
    case At(TemporaryCreated, _) => (fs.(temporaries := fs.temporaries[id := map[]]), false)
    case At(Writing(n), dies) => (LeaveTemporary(fs, id, FirstFiles(id, at, n), dies), false)
    case At(BeforeValidation, dies) => (LeaveTemporary(fs, id, SnapshotFiles(id, at), dies), false)
    case At(Validated, dies) => (LeaveTemporary(fs, id, SnapshotFiles(id, at), dies), false)
    case At(BeforePromotion, dies) => (LeaveTemporary(fs, id, SnapshotFiles(id, at), dies), false)
    case _ => PromoteSpec(fs, id, at, mtime, fault)
  }

  /** `_write_snapshots`: recover, refuse a real output directory, publish. */
  function WriteSpec(fs: Fs, order: seq<string>, id: string, at: string, mtime: int, fault: Fault): (Fs, bool) {
    var (recovered, result) := RecoverSpec(fs, order);
    if result == Raised || recovered.output.RealDirectory? then (recovered, false)
    else PublishSpec(recovered.(made := true, temporaries := recovered.temporaries - {id}), id, at, mtime, fault)
  }

  datatype Event =
    | Recover(order: seq<string>)
    | Write(order: seq<string>, id: string, at: string, mtime: int, fault: Fault)

  ghost function Apply(fs: Fs, e: Event): Fs {
    if !NewestFirst(fs.generations, e.order) then fs
    else
      match e
      case Recover(order) => RecoverSpec(fs, order).0
      case Write(order, id, at, mtime, fault) => WriteSpec(fs, order, id, at, mtime, fault).0
  }

  ghost function Run(fs: Fs, events: seq<Event>): Fs
    decreases |events|
  {
    if events == [] then fs else Run(Apply(fs, events[0]), events[1..])
  }
}
