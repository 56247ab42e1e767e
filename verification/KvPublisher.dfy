/** Publication and recovery as they run on the file system, equal to the specifications of `KvSnapshots`. */
module KvPublisher {
  import opened Prelude
  import opened KvSnapshots
  import opened KvSnapshotsSafety

  /** `_validate_generation`: read every file in order, then compare the identities. */
  method ValidateGeneration(d: Directory) returns (verdict: Verdict)
    ensures verdict == VerdictOf(d)
  {
    var payloads: seq<Payload> := [];
    for k := 0 to 4
      invariant ReadProblem(d, k) == None
      invariant |payloads| == k && forall i | 0 <= i < k :: payloads[i] == d[SNAPSHOT_FILES[i]]
    {
      var file := SNAPSHOT_FILES[k];
      if file !in d || d[file] == NotJson {
        ProblemStays(d, k + 1, 4);
        return Refused;
      }
      if d[file] == Unreadable {
        ProblemStays(d, k + 1, 4);
        return Escapes;
      }
      payloads := payloads + [d[file]];
    }
    if exists i | 0 <= i < 4 :: payloads[i] == NotObject || payloads[i].id == Unhashable {
      InList(d);
      return Escapes;
    }
    var ids := set i | 0 <= i < 4 :: payloads[i].id;
    if exists i | 0 <= i < 4 :: payloads[i].at == Unhashable {
      InList(d);
      return Escapes;
    }
    var times := set i | 0 <= i < 4 :: payloads[i].at;
    Uniform(d, payloads, ids, times);
    if |ids| != 1 || Blank in ids || |times| != 1 || Blank in times { return Refused; }
    verdict := Complete(payloads[0].id.text, payloads[0].at.text);
  }

  lemma {:induction false} ProblemStays(d: Directory, k: nat, n: nat)
    requires k <= n <= 4 && ReadProblem(d, k).Some?
    ensures ReadProblem(d, n) == ReadProblem(d, k)
  {
    if k < n { ProblemStays(d, k, n - 1); }
  }

  lemma InList(d: Directory)
    ensures forall i | 0 <= i < 4 :: SNAPSHOT_FILES[i] in SNAPSHOT_FILES
    ensures forall f | f in SNAPSHOT_FILES :: exists i | 0 <= i < 4 :: SNAPSHOT_FILES[i] == f
  {
    forall i | 0 <= i < 4 ensures SNAPSHOT_FILES[i] in SNAPSHOT_FILES {
    }
  }

  /** One identity and one time, both present, is what completeness means for four objects. */
  lemma Uniform(d: Directory, payloads: seq<Payload>, ids: set<Identity>, times: set<Identity>)
    requires |payloads| == 4 && ReadProblem(d, 4) == None
    requires forall i | 0 <= i < 4 :: payloads[i] == d[SNAPSHOT_FILES[i]] && payloads[i].Object?
    requires forall i | 0 <= i < 4 :: payloads[i].id != Unhashable && payloads[i].at != Unhashable
    requires ids == set i | 0 <= i < 4 :: payloads[i].id
    requires times == set i | 0 <= i < 4 :: payloads[i].at
    ensures |ids| != 1 || Blank in ids || |times| != 1 || Blank in times ==> VerdictOf(d) == Refused
    ensures |ids| == 1 && Blank !in ids && |times| == 1 && Blank !in times ==>
              payloads[0].id.Value? && payloads[0].at.Value?
              && VerdictOf(d) == Complete(payloads[0].id.text, payloads[0].at.text)
  {
    InList(d);
    OneElement(ids, payloads[0].id);
    OneElement(times, payloads[0].at);
    if |ids| == 1 && Blank !in ids && |times| == 1 && Blank !in times {
      assert payloads[0].id in ids && payloads[0].at in times;
      var id, at := payloads[0].id.text, payloads[0].at.text;
      forall i | 0 <= i < 4
        ensures Holds(d, SNAPSHOT_FILES[i], id, at)
      {
        assert payloads[i].id in ids && payloads[i].at in times;
      }
      CompleteIff(d, id, at);
    }
  }

  lemma OneElement<T>(s: set<T>, x: T)
    requires x in s
    ensures |s| == 1 <==> forall y | y in s :: y == x
  {
    if forall y | y in s :: y == x {
      assert s == {x};
    } else {
      var y :| y in s && y != x;
      assert {x, y} <= s;
      assert |s - {x, y}| + 2 == |s|;
    }
  }

  class Publisher {
    var output: Output
    var made: bool
    var generations: map<string, Generation>
    var temporaries: map<string, Directory>
    var strays: nat

    ghost function Abstract(): Fs
      reads this
    {
      Fs(output, made, generations, temporaries, strays)
    }

    /** Every generation is complete, and the output is missing or links to one of them. */
    ghost predicate Valid()
      reads this
    {
      Healthy(Abstract())
    }

    constructor ()
      ensures Valid() && Abstract() == EMPTY
    {
      output, made, generations, temporaries, strays := Missing, false, map[], map[], 0;
    }

    /** Creates the pointer beside the output and swaps it in; the pointer is removed unless the process dies. */
    method AtomicPointer(target: string, fault: Fault) returns (raised: bool)
      modifies this`output, this`strays
      ensures var interrupted := fault.At? && (fault.step == PointerCreated || fault.step == BeforeSwap);
              && output == (if interrupted then old(output) else Link(target))
              && strays == old(strays) + (if interrupted && fault.dies then 1 else 0)
              && (raised <==> interrupted || (fault.At? && fault.step == Swapped))
    {
      strays := strays + 1;
      if fault.At? && (fault.step == PointerCreated || fault.step == BeforeSwap) {
        if !fault.dies { strays := strays - 1; }
        return true;
      }
      output := Link(target);
      strays := strays - 1;
      raised := fault.At? && fault.step == Swapped;
    }

    method ScanCandidates(order: seq<string>) returns (result: Recovery)
      modifies this`output, this`strays
      ensures result == Scan(generations, order)
      ensures output == if result.Found? then Link(result.name) else old(output)
      ensures strays == old(strays)
    {
      var i := 0;
      while i < |order|
        invariant 0 <= i <= |order|
        invariant Scan(generations, order[i..]) == Scan(generations, order)
        invariant output == old(output) && strays == old(strays)
      {
        var candidate := order[i];
        if candidate in generations {
          var verdict := ValidateGeneration(generations[candidate].content);
          if verdict == Escapes { return Raised; }
          if verdict.Complete? {
            var _ := AtomicPointer(candidate, NoFault);
            return Found(candidate);
          }
        }
        i := i + 1;
      }
      result := Nothing;
    }

    /** `_recover_snapshot_output`; the order is the listing of the generations sorted by modification time. */
    method RecoverOutput(order: seq<string>) returns (result: Recovery)
      modifies this
      ensures (Abstract(), result) == RecoverSpec(old(Abstract()), order)
      ensures old(Published(Abstract())) ==> result == Found(old(output).name) && output == old(output)
      ensures old(Valid()) && NewestFirst(old(generations), order) ==>
                Valid() && result != Raised && (generations != map[] ==> Published(Abstract()))
    {
      ghost var before := Abstract();
      if Published(before) { RecoverKeepsPublished(before, order); }
      if Healthy(before) && NewestFirst(generations, order) { RecoverKeepsHealthy(before, order); }
      hide Healthy, Published, NewestFirst;
      if made { temporaries := map[]; }
      if output.Link? {
        var name := output.name;
        if name in generations {
          var verdict := ValidateGeneration(generations[name].content);
          if verdict.Complete? { return Found(name); }
          if verdict == Escapes { return Raised; }
        }
        output := Missing;
      } else if output.RealDirectory? {
        var verdict := ValidateGeneration(output.content);
        return if verdict.Complete? then FoundDirectory else Raised;
      }
      if !made { return Nothing; }
      result := ScanCandidates(order);
    }

    /** Writes the snapshot's files into its temporary directory, as many as the fault allows. */
    method WriteFiles(id: string, at: string, limit: nat)
      requires id in temporaries && temporaries[id] == map[]
      modifies this`temporaries
      ensures temporaries == old(temporaries)[id := FirstFiles(id, at, limit)]
    {
      hide FirstFiles;
      NoFiles(id, at);
      var n := 0;
      while n < 4 && n < limit
        invariant 0 <= n <= 4 && n <= limit
        invariant id in temporaries && temporaries[id] == FirstFiles(id, at, n)
        invariant temporaries == old(temporaries)[id := temporaries[id]]
      {
        NextFile(id, at, n);
        temporaries := temporaries[id := temporaries[id][SNAPSHOT_FILES[n] := Object(Value(id), Value(at))]];
        n := n + 1;
      }
      NoMoreFiles(id, at, n, limit);
    }

    /** Whether the fault strikes at this point. */
    static predicate Strikes(fault: Fault, step: Step) {
      fault.At? && fault.step == step
    }

    /** Promotion and the pointer swap, from a validated temporary directory. */
    method Promote(id: string, at: string, mtime: int, fault: Fault) returns (done: bool)
      requires id in temporaries && temporaries[id] == SnapshotFiles(id, at)
      requires fault.At? ==> fault.step in {Step.Promoted, PointerCreated, BeforeSwap, Swapped}
      modifies this
      ensures temporaries == old(temporaries) || temporaries == old(temporaries) - {id}
      ensures id in temporaries ==> id in generations && generations == old(generations)
      ensures (Abstract().(temporaries := map[]), done) ==
              PromoteSpec(old(Abstract()).(temporaries := map[]), id, at, mtime, fault)
    {
      if id in generations { return false; }
      generations := generations[id := Generation(temporaries[id], mtime)];
      temporaries := temporaries - {id};
      if Strikes(fault, Promoted) { return false; }
      var raised := AtomicPointer(id, fault);
      done := !raised;
    }

    /** The guarded part: files, validation, promotion, pointer swap; `died` when the process ended in it. */
    method Guarded(id: string, at: string, mtime: int, fault: Fault) returns (done: bool, died: bool)
      requires id in temporaries && temporaries[id] == map[]
      requires !Strikes(fault, BeforeTemporaryCreate) && !Strikes(fault, TemporaryCreated)
      modifies this
      ensures var start := old(Abstract()).(temporaries := old(temporaries) - {id});
              var after := if died then Abstract() else Abstract().(temporaries := temporaries - {id});
              (after, done) == PublishSpec(start, id, at, mtime, fault)
    {
      hide SnapshotFiles, FirstFiles, PromoteSpec;
      ghost var others := temporaries - {id};
      FilesAll(id, at);
      if fault.At? && fault.step.Writing? {
        WriteFiles(id, at, fault.step.files);
        assert temporaries - {id} == others && temporaries == others[id := FirstFiles(id, at, fault.step.files)];
        return false, fault.dies;
      }
      WriteFiles(id, at, 4);
      assert temporaries - {id} == others && temporaries == others[id := SnapshotFiles(id, at)];
      done, died := ValidateAndPromote(id, at, mtime, fault);
    }

    /** The rest of it, once the files are there. */
    method ValidateAndPromote(id: string, at: string, mtime: int, fault: Fault) returns (done: bool, died: bool)
      requires id in temporaries && temporaries[id] == SnapshotFiles(id, at)
      requires !Strikes(fault, BeforeTemporaryCreate) && !Strikes(fault, TemporaryCreated)
      requires fault.At? ==> !fault.step.Writing?
      modifies this
      ensures var start := old(Abstract()).(temporaries := old(temporaries) - {id});
              var after := if died then Abstract() else Abstract().(temporaries := temporaries - {id});
              (after, done) == PublishSpec(start, id, at, mtime, fault)
    {
      hide VerdictOf, SnapshotFiles, PromoteSpec;
      ghost var others := temporaries - {id};
      SnapshotFilesComplete(id, at);
      if Strikes(fault, BeforeValidation) {
        assert temporaries == others[id := SnapshotFiles(id, at)];
        return false, fault.dies;
      }
      var verdict := ValidateGeneration(temporaries[id]);
      if Strikes(fault, Validated) || Strikes(fault, BeforePromotion) {
        assert temporaries == others[id := SnapshotFiles(id, at)];
        return false, fault.dies;
      }
      ghost var before := Abstract();
      done := Promote(id, at, mtime, fault);
      died := false;
      PromoteIgnoresTemporaries(before, others, id, at, mtime, fault);
      assert temporaries - {id} == others;
    }

    method WriteSnapshots(order: seq<string>, id: string, at: string, mtime: int, fault: Fault) returns (done: bool)
      modifies this
      ensures (Abstract(), done) == WriteSpec(old(Abstract()), order, id, at, mtime, fault)
      ensures old(Published(Abstract())) ==>
                && Published(Abstract()) && Preserves(old(generations), generations)
                && (output == old(output) || (output == Link(id) && id !in old(generations)))
                && (done ==> output == Link(id))
      ensures old(Valid()) && NewestFirst(old(generations), order) ==>
                Valid() && Preserves(old(generations), generations)
      ensures done ==>
                && output == Link(id) && Published(Abstract()) && id !in old(generations)
                && generations == old(generations)[id := Generation(SnapshotFiles(id, at), mtime)]
      ensures old(Valid()) && NewestFirst(old(generations), order) && id !in old(generations) && fault == NoFault ==>
                done
    {
      hide SnapshotFiles, WriteSpec, Healthy, Published, NewestFirst, Preserves;
      KeepsWhenWritten(Abstract(), order, id, at, mtime, fault);
      done := RecoverAndPublish(order, id, at, mtime, fault);
    }

    method RecoverAndPublish(order: seq<string>, id: string, at: string, mtime: int, fault: Fault)
      returns (done: bool)
      modifies this
      ensures (Abstract(), done) == WriteSpec(old(Abstract()), order, id, at, mtime, fault)
    {
      hide RecoverSpec, Healthy, Published, NewestFirst;
      var recovery := RecoverOutput(order);
      if recovery == Raised || output.RealDirectory? { return false; }
      made := true;
      temporaries := temporaries - {id};
      ghost var others := temporaries;
      if Strikes(fault, BeforeTemporaryCreate) { return false; }
      temporaries := temporaries[id := map[]];
      if Strikes(fault, TemporaryCreated) { return false; }
      assert temporaries - {id} == others;
      var died;
      done, died := Guarded(id, at, mtime, fault);
      if !died { temporaries := temporaries - {id}; }
    }
  }

  lemma KeepsWhenWritten(fs: Fs, order: seq<string>, id: string, at: string, mtime: int, fault: Fault)
    ensures var (after, done) := WriteSpec(fs, order, id, at, mtime, fault);
            && (Published(fs) ==>
                  && Published(after) && Preserves(fs.generations, after.generations)
                  && (after.output == fs.output || (after.output == Link(id) && id !in fs.generations))
                  && (done ==> after.output == Link(id)))
            && (Healthy(fs) && NewestFirst(fs.generations, order) ==>
                  Healthy(after) && Preserves(fs.generations, after.generations))
            && (done ==>
                  && after.output == Link(id) && Published(after) && id !in fs.generations
                  && after.generations == fs.generations[id := Generation(SnapshotFiles(id, at), mtime)])
            && (Healthy(fs) && NewestFirst(fs.generations, order) && id !in fs.generations && fault == NoFault ==> done)
  {
    DonePublishes(fs, order, id, at, mtime, fault);
    if Healthy(fs) && NewestFirst(fs.generations, order) && id !in fs.generations {
      HealthyWriteCompletes(fs, order, id, at, mtime);
    }
    if Published(fs) { WriteKeepsPublished(fs, order, id, at, mtime, fault); }
    if Healthy(fs) { StepKeepsHealthy(fs, Write(order, id, at, mtime, fault)); }
    hide Published, Preserves, NewestFirst, Healthy, WriteSpec, SnapshotFiles;
  }

  lemma PromoteIgnoresTemporaries(fs: Fs, temporaries: map<string, Directory>, id: string, at: string, mtime: int,
                                  fault: Fault)
    ensures var (after, done) := PromoteSpec(fs.(temporaries := map[]), id, at, mtime, fault);
            PromoteSpec(fs.(temporaries := temporaries), id, at, mtime, fault) ==
            (after.(temporaries := temporaries), done)
  {
  }

  lemma NoFiles(id: string, at: string)
    ensures FirstFiles(id, at, 0) == map[]
  {
  }

  lemma NextFile(id: string, at: string, n: nat)
    requires n < 4
    ensures FirstFiles(id, at, n + 1) == FirstFiles(id, at, n)[SNAPSHOT_FILES[n] := Object(Value(id), Value(at))]
  {
  }

  lemma NoMoreFiles(id: string, at: string, n: nat, limit: nat)
    requires n <= 4 && n <= limit && (n == 4 || n == limit)
    ensures FirstFiles(id, at, n) == FirstFiles(id, at, limit)
  {
  }

  lemma FilesAll(id: string, at: string)
    ensures FirstFiles(id, at, 4) == SnapshotFiles(id, at)
  {
    var all := FirstFiles(id, at, 4);
    forall f | f in SNAPSHOT_FILES
      ensures f in all
    {
      var i :| 0 <= i < 4 && SNAPSHOT_FILES[i] == f;
    }
    assert all.Keys == SnapshotFiles(id, at).Keys;
  }
}
