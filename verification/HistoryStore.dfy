/** Appending to the history file: what a crash can leave, what a transaction reports, and what stays. */
module HistoryStore {
  import opened Prelude
  import opened Lines
  import opened HistoryText
  import opened HistoryRows
  import opened HistoryFile
  import opened HistoryTail
  import opened HistoryLoading

  /** The contents a power loss may leave, oldest first; a reader sees the last. No content is no file. */
  datatype Disk = Disk(images: seq<Option<Bytes>>, recovery: Option<Bytes>)

  /** How far an append gets. */
  datatype Reach = BeforeAside | BeforeReplace | Renamed | Synced

  datatype Transaction = PreCommit | Deduped | Committed | Durable

  /** The transaction state, whether durability is in doubt, and the result unless an error was raised. */
  datatype Report = Report(state: Transaction, warning: bool, returned: Option<bool>)

  function Visible(d: Disk): Option<Bytes>
    requires d.images != []
  {
    d.images[|d.images| - 1]
  }

  function BytesOf(file: Option<Bytes>): Bytes {
    match file case None => [] case Some(data) => data
  }

  function AppendSpec(c: Codec, d: Disk, row: Row, reach: Reach): (r: (Disk, Report))
    requires d.images != []
    ensures r.0.images != []
  {
    var data := BytesOf(Visible(d));
    if reach == BeforeAside then (d, Report(PreCommit, false, None))
    else
      var aside := PlanOf(c, data).aside;
      var d1 := if aside.Some? then d.(recovery := aside) else d;
      match Load(c, Visible(d))
      case Err(_) => (d1, Report(PreCommit, false, None))
      case Ok(rows) =>
        var after := Some(Extended(c, data, row));
        if HasKey(rows, row.key) then (d1, Report(Deduped, false, Some(false)))
        else if reach == BeforeReplace then (d1, Report(PreCommit, false, None))
        else if reach == Renamed then
          (d1.(images := d.images + [after]), Report(Committed, true, Some(true)))
        else (d1.(images := [after]), Report(Durable, false, Some(true)))
  }

  /** A candidate that cannot be written whole is never renamed. */
  function Reached(c: Codec, d: Disk, row: Row, reach: Reach, pieces: seq<nat>): Reach
    requires d.images != []
  {
    if (reach == Renamed || reach == Synced) && !Accepts(|Extended(c, BytesOf(Visible(d)), row)|, pieces) then
      BeforeReplace
    else reach
  }

  /**
    What an append answers and leaves. It answers true exactly when the history loads, the key is new and the new
    file took its place, and false exactly when the key was there; a tail that is no row is set aside in any case.
   */
  predicate AppendTells(c: Codec, d: Disk, after: Disk, row: Row, reach: Reach, report: Report)
    requires d.images != []
  {
    var loaded, data := Load(c, Visible(d)), BytesOf(Visible(d));
    var isNew := loaded.Ok? && !HasKey(loaded.value, row.key);
    && (report.returned == Some(true) <==> isNew && (reach == Renamed || reach == Synced))
    && (report.returned == Some(false) <==> reach != BeforeAside && loaded.Ok? && !isNew)
    && (report.state == Durable <==> isNew && reach == Synced)
    && (report.state == Committed <==> isNew && reach == Renamed)
    && (report.state == Deduped <==> report.returned == Some(false))
    && (report.warning <==> report.state == Committed)
    && after.images == (if report.returned != Some(true) then d.images
                        else if reach == Synced then [Some(Extended(c, data, row))]
                        else d.images + [Some(Extended(c, data, row))])
    && after.recovery == (if reach != BeforeAside && Tail(data) != [] && c.sniff(Tail(data)).None? then Some(Tail(data))
                          else d.recovery)
  }

  lemma AppendMeans(c: Codec, d: Disk, row: Row, reach: Reach)
    requires d.images != []
    ensures AppendTells(c, d, AppendSpec(c, d, row, reach).0, row, reach, AppendSpec(c, d, row, reach).1)
  {
    hide Load, Extended, HasKey, Tail, Head;
  }

  datatype Event = Append(row: Row, reach: Reach) | PowerLoss(kept: nat)

  function Apply(c: Codec, d: Disk, e: Event): (after: Disk)
    requires d.images != []
    ensures after.images != []
  {
    match e
    case Append(row, reach) => AppendSpec(c, d, row, reach).0
    case PowerLoss(kept) => if kept < |d.images| then d.(images := [d.images[kept]]) else d
  }

  function Run(c: Codec, d: Disk, events: seq<Event>): (after: Disk)
    requires d.images != []
    ensures after.images != []
    decreases |events|
  {
    if events == [] then d else Run(c, Apply(c, d, events[0]), events[1..])
  }

  /**
    Appending to a file with a torn tail: the tail is set aside, and a new row is written after the history
    before it exactly when that file still loads and does not have the key.
   */
  lemma TornTail(c: Codec, before: Bytes, tail: Bytes, row: Row, d: Disk)
    requires Lawful(c) && EndsLine(before) && Load(c, Some(before)).Ok?
    requires tail != [] && Plain(tail) && c.sniff(tail).None? && d.images == [Some(before + tail)]
    ensures var loaded := Load(c, Some(before + tail));
            var (after, report) := AppendSpec(c, d, row, Synced);
            && (loaded.Ok? <==> c.utf8(tail) && Tolerated(c, SplitText(tail)))
            && after.recovery == Some(tail)
            && (report.returned == Some(true) <==> loaded.Ok? && !HasKey(loaded.value, row.key))
            && (report.returned.None? <==> loaded.Err?)
            && after.images == (if report.returned == Some(true) then [Some(before + (c.encode(row) + [LF]))]
                                else d.images)
  {
    hide Lawful, SplitText, SplitLines, Plain, PlanOf, Load, HasKey, EndsLine, Tolerated;
    TornTailLoads(c, before, tail);
  }

  /** A file that does not load is never replaced again, however often and with whatever rows one appends. */
  lemma {:induction false} RefusedForever(c: Codec, d: Disk, events: seq<Event>)
    requires |d.images| == 1 && Load(c, d.images[0]).Err?
    ensures Run(c, d, events).images == d.images
    decreases |events|
  {
    hide Load, PlanOf, Extended;
    if events != [] {
      assert Apply(c, d, events[0]).images == d.images;
      RefusedForever(c, Apply(c, d, events[0]), events[1..]);
    }
  }

  /** Whatever happens, every content the disk may hold is one it could hold before, or the complete new file. */
  lemma OldOrNew(c: Codec, d: Disk, row: Row, reach: Reach)
    requires d.images != []
    ensures var (after, report) := AppendSpec(c, d, row, reach);
            var added := Some(Extended(c, BytesOf(Visible(d)), row));
            && (forall image | image in after.images :: image in d.images || image == added)
            && (report.state == Durable ==> after.images == [added])
            && (report.state == Committed ==> Visible(after) == added)
            && (report.state in {PreCommit, Deduped} ==> after.images == d.images)
            && (report.returned == Some(false) ==> HasKey(Load(c, Visible(d)).value, row.key))
  {
    hide PlanOf, Extended, Load;
  }

  /** A history that can be loaded, and whose tail an append does not take away from loading. */
  ghost predicate Readable(c: Codec, file: Option<Bytes>) {
    Load(c, file).Ok? && (file.Some? ==> TailStays(c, file.value))
  }

  lemma EmptyLoads(c: Codec)
    requires Lawful(c)
    ensures Load(c, Some([])) == Ok([]) && TailStays(c, [])
  {
    NewlineLaws(c, []);
    assert EndsLine([LF]) && c.utf8([] + [LF]) == c.utf8([]);
    var r := Row(Key("", ""), "");
    assert c.utf8([] + c.encode(r)) == (c.utf8([]) && c.utf8(c.encode(r)));
    assert [] + c.encode(r) == c.encode(r);
  }

  /** One append to a readable content: readable again, with the new row added and none lost. */
  lemma ExtendedReadable(c: Codec, file: Option<Bytes>, row: Row)
    requires Lawful(c) && Readable(c, file) && Narrow(c.encode(row)) && !HasKey(Load(c, file).value, row.key)
    ensures var added := Some(Extended(c, BytesOf(file), row));
            && Readable(c, added) && Load(c, added) == Ok(Insert(Load(c, file).value, row))
            && (forall k :: HasKey(Load(c, added).value, k) <==> HasKey(Load(c, file).value, k) || k == row.key)
            && (forall r :: r in Load(c, added).value <==> r in Load(c, file).value || r == row)
  {
    EmptyLoads(c);
    EmptyTailStays(c, Extended(c, BytesOf(file), row));
    hide Lawful, Narrow, Extended, Load, HasKey, TailStays, Tail;
    AppendThenLoad(c, BytesOf(file), row);
    InsertKeys(Load(c, file).value, row);
    InsertRows(Load(c, file).value, row);
  }

  lemma EmptyTailStays(c: Codec, data: Bytes)
    ensures Tail(data) == [] ==> TailAgrees(c, data) && TailStays(c, data)
  {
    hide Tail;
  }

  lemma InsertRows(rows: seq<Row>, row: Row)
    ensures forall r :: r in Insert(rows, row) <==> r in rows || r == row
  {
    InsertElements(rows, row);
    hide Insert;
    forall r
      ensures r in Insert(rows, row) <==> r in rows || r == row
    {
      assert r in Insert(rows, row) <==> r in multiset(Insert(rows, row));
    }
  }

  lemma InsertKeys(rows: seq<Row>, row: Row)
    ensures forall k :: HasKey(Insert(rows, row), k) <==> HasKey(rows, k) || k == row.key
  {
    InsertElements(rows, row);
    forall k
      ensures HasKey(Insert(rows, row), k) <==> HasKey(rows, k) || k == row.key
    {
      assert multiset(rows + [row]) == multiset(rows) + multiset{row};
      SameElementsSameKeys(Insert(rows, row), rows + [row], k);
      if HasKey(rows, k) {
        var i :| 0 <= i < |rows| && rows[i].key == k;
        assert (rows + [row])[i].key == k;
      }
      assert (rows + [row])[|rows|] == row;
    }
  }

  ghost predicate Sound(c: Codec, d: Disk) {
    d.images != [] && forall image | image in d.images :: Readable(c, image)
  }

  ghost predicate HoldsKey(c: Codec, d: Disk, key: Key) {
    forall image | image in d.images :: Load(c, image).Ok? && HasKey(Load(c, image).value, key)
  }

  /** Whatever a crash leaves, this row is loaded. */
  ghost predicate HoldsRow(c: Codec, d: Disk, row: Row) {
    forall image | image in d.images :: Load(c, image).Ok? && row in Load(c, image).value
  }

  /** The rows written by an event have no wide break in them. */
  predicate NarrowEvent(c: Codec, e: Event) {
    e.Append? ==> Narrow(c.encode(e.row))
  }

  /** An append that reaches the disk adds its row and keeps every other, in each image it leaves. */
  lemma StepKeeps(c: Codec, d: Disk, e: Event, key: Key, row: Row)
    requires Lawful(c) && Sound(c, d) && NarrowEvent(c, e)
    ensures Sound(c, Apply(c, d, e))
    ensures HoldsKey(c, d, key) ==> HoldsKey(c, Apply(c, d, e), key)
    ensures HoldsRow(c, d, row) ==> HoldsRow(c, Apply(c, d, e), row)
    ensures IsDurable(c, d, e) ==> HoldsRow(c, Apply(c, d, e), e.row)
  {
    hide Lawful, Narrow, Extended, Load, PlanOf, HasKey;
    if e.Append? {
      assert Readable(c, Visible(d));
      if !HasKey(Load(c, Visible(d)).value, e.row.key) {
        ExtendedReadable(c, Visible(d), e.row);
      }
    }
  }

  /** An append that reports durability. */
  ghost predicate IsDurable(c: Codec, d: Disk, e: Event)
    requires d.images != []
  {
    e.Append? && AppendSpec(c, d, e.row, e.reach).1.state == Durable
  }

  lemma AppendKeeps(c: Codec, d: Disk, row: Row, reach: Reach)
    requires Lawful(c) && Sound(c, d) && Narrow(c.encode(row))
    ensures var (after, report) := AppendSpec(c, d, row, reach);
            && Sound(c, after)
            && (forall key :: HoldsKey(c, d, key) ==> HoldsKey(c, after, key))
            && (forall other :: HoldsRow(c, d, other) ==> HoldsRow(c, after, other))
            && (report.state == Durable ==> HoldsRow(c, after, row))
  {
    assert d.images != [];
    hide Lawful, Sound, HoldsKey, HoldsRow, Narrow, AppendSpec;
    var after := AppendSpec(c, d, row, reach).0;
    StepKeeps(c, d, Append(row, reach), row.key, row);
    forall key | HoldsKey(c, d, key)
      ensures HoldsKey(c, after, key)
    {
      StepKeeps(c, d, Append(row, reach), key, row);
    }
    forall other | HoldsRow(c, d, other)
      ensures HoldsRow(c, after, other)
    {
      StepKeeps(c, d, Append(row, reach), row.key, other);
    }
  }

  /** From any readable start, through appends that fail, crash or repeat and through power losses: the history
      stays loadable, and no row or key that every crash leaves is lost. */
  lemma {:induction false} RunKeeps(c: Codec, d: Disk, events: seq<Event>, key: Key, row: Row)
    requires Lawful(c) && Sound(c, d) && forall i | 0 <= i < |events| :: NarrowEvent(c, events[i])
    ensures Sound(c, Run(c, d, events))
    ensures HoldsKey(c, d, key) ==> HoldsKey(c, Run(c, d, events), key)
    ensures HoldsRow(c, d, row) ==> HoldsRow(c, Run(c, d, events), row)
    decreases |events|
  {
    assert d.images != [];
    hide Lawful, Sound, HoldsKey, HoldsRow, NarrowEvent, Apply;
    if events != [] {
      StepKeeps(c, d, events[0], key, row);
      RunKeeps(c, Apply(c, d, events[0]), events[1..], key, row);
    }
  }

  /** Over every such run, the row of an append that reported durability is in every later load. */
  lemma {:induction false} DurableRowStays(c: Codec, d: Disk, events: seq<Event>, i: nat)
    requires Lawful(c) && Sound(c, d) && forall j | 0 <= j < |events| :: NarrowEvent(c, events[j])
    requires i < |events| && IsDurable(c, Run(c, d, events[..i]), events[i])
    ensures HoldsRow(c, Run(c, d, events), events[i].row)
    decreases i
  {
    assert d.images != [];
    var next, rest := Apply(c, d, events[0]), events[1..];
    if i == 0 {
      assert events[..0] == [];
      StepKeeps(c, d, events[0], events[0].row.key, events[0].row);
      hide Lawful, Sound, HoldsRow, NarrowEvent, Apply;
      RunKeeps(c, next, rest, events[0].row.key, events[0].row);
    } else {
      StepKeeps(c, d, events[0], Key("", ""), Row(Key("", ""), ""));
      hide Lawful, Sound, HoldsRow, NarrowEvent, Apply, IsDurable;
      assert events[..i][1..] == rest[..i - 1] && events[..i][0] == events[0];
      DurableRowStays(c, next, rest, i - 1);
    }
  }

  /** The loading loop: fill the dictionary line by line, then sort its rows. */
  method LoadRows(c: Codec, data: Bytes, strict: bool, recoverTail: bool) returns (r: Result<seq<Row>, Failure>)
    ensures r == LoadData(c, data, strict, recoverTail)
    ensures r.Err? <==> !c.utf8(data) || (strict && Spoiled(c, SplitText(data), recoverTail))
    ensures r.Ok? ==> Sorted(r.value) && forall row :: row in r.value <==> LastOf(c, SplitText(data), row)
  {
    hide Spoiled, LastOf, Sorted;
    LoadMeans(c, data, strict, recoverTail);
    LoadDataSorted(c, data, strict, recoverTail);
    if !c.utf8(data) { return Err(HistoryCorruption); }
    var lines := SplitText(data);
    var rows: seq<Row> := [];
    var i := 0;
    while i < |lines|
      invariant 0 <= i <= |lines|
      invariant Gather(c, lines[i..], rows, strict, recoverTail) == Gather(c, lines, [], strict, recoverTail)
    {
      var line := lines[i];
      assert lines[i..][1..] == lines[i + 1..];
      i := i + 1;
      if c.blank(line) { continue; }
      var row := c.decode(line);
      if row.None? {
        var isTail := i == |lines| && !Terminated(line);
        if isTail && recoverTail { continue; }
        if strict { return Err(HistoryCorruption); }
        continue;
      }
      rows := Put(rows, row.value);
    }
    r := Ok(Sort(rows));
  }

  class History {
    const c: Codec
    var images: seq<Option<Bytes>>
    var recovery: Option<Bytes>
    var candidate: Option<Bytes>
    var transaction: Transaction
    var warning: bool

    ghost predicate Valid()
      reads this
    {
      images != [] && candidate == None
    }

    ghost function Abstract(): Disk
      reads this
    {
      Disk(images, recovery)
    }

    constructor (codec: Codec)
      ensures Valid() && Abstract() == Disk([None], None) && c == codec
    {
      c, images, recovery, candidate, transaction, warning := codec, [None], None, None, PreCommit, false;
    }

    /** Writes the payload in as many pieces as the system accepts; a write of nothing is an error. */
    method WriteCandidate(payload: Bytes, pieces: seq<nat>) returns (written: bool)
      requires candidate == None
      modifies this`candidate
      ensures written ==> candidate == Some(payload)
      ensures !written ==> candidate.Some? && candidate.value <= payload
      ensures written <==> Accepts(|payload|, pieces)
    {
      candidate := Some([]);
      var offset, i := 0, 0;
      while offset < |payload|
        invariant 0 <= offset <= |payload| && 0 <= i <= |pieces|
        invariant candidate == Some(payload[..offset])
        invariant Accepts(|payload| - offset, pieces[i..]) == Accepts(|payload|, pieces)
        decreases |pieces| - i
      {
        if i == |pieces| || pieces[i] == 0 { return false; }
        assert pieces[i..][1..] == pieces[i + 1..];
        offset := if offset + pieces[i] < |payload| then offset + pieces[i] else |payload|;
        candidate := Some(payload[..offset]);
        i := i + 1;
      }
      assert payload[..|payload|] == payload;
      written := true;
    }

    /** `append`, once the lock is held. The candidate takes the history's place only when it is complete. */
    method Append(row: Row, reach: Reach, pieces: seq<nat>) returns (returned: Option<bool>)
      requires Valid()
      modifies this
      ensures Valid()
      ensures (Abstract(), Report(transaction, warning, returned)) ==
              AppendSpec(c, old(Abstract()), row, Reached(c, old(Abstract()), row, reach, pieces))
      ensures AppendTells(c, old(Abstract()), Abstract(), row, Reached(c, old(Abstract()), row, reach, pieces),
                          Report(transaction, warning, returned))
      ensures Lawful(c) && Sound(c, old(Abstract())) && Narrow(c.encode(row)) ==>
                && Sound(c, Abstract())
                && (forall key :: HoldsKey(c, old(Abstract()), key) ==> HoldsKey(c, Abstract(), key))
                && (forall other :: HoldsRow(c, old(Abstract()), other) ==> HoldsRow(c, Abstract(), other))
                && (transaction == Durable ==> HoldsRow(c, Abstract(), row))
    {
      hide Lawful, Sound, HoldsKey, HoldsRow, Narrow, AppendSpec, AppendTells, Reached;
      ghost var before := Abstract();
      returned := Transact(row, reach, pieces);
      AppendMeans(c, before, row, Reached(c, before, row, reach, pieces));
      if Lawful(c) && Sound(c, before) && Narrow(c.encode(row)) {
        AppendKeeps(c, before, row, Reached(c, before, row, reach, pieces));
      }
    }

    method Transact(row: Row, reach: Reach, pieces: seq<nat>) returns (returned: Option<bool>)
      requires Valid()
      modifies this
      ensures Valid()
      ensures (Abstract(), Report(transaction, warning, returned)) ==
              AppendSpec(c, old(Abstract()), row, Reached(c, old(Abstract()), row, reach, pieces))
    {
      hide PlanOf, LoadData, Lawful, Accepts;
      transaction, warning := PreCommit, false;
      if reach == BeforeAside { return None; }
      var file := images[|images| - 1];
      var data := BytesOf(file);
      var plan := PlanOf(c, data);
      if plan.aside.Some? { recovery := plan.aside; }
      var rows: seq<Row> := [];
      if file.Some? {
        var loaded := LoadRows(c, file.value, true, true);
        if loaded.Err? { return None; }
        rows := loaded.value;
      }
      if exists i | 0 <= i < |rows| :: rows[i].key == row.key {
        transaction := Deduped;
        return Some(false);
      }
      if reach == BeforeReplace { return None; }
      var replaced := Replace(plan.kept + (c.encode(row) + [LF]), reach, pieces);
      return if replaced then Some(true) else None;
    }

    /** Writes the candidate, renames it over the history and makes the name durable, as far as the system lets it. */
    method Replace(payload: Bytes, reach: Reach, pieces: seq<nat>) returns (complete: bool)
      requires Valid() && reach in {Renamed, Synced} && transaction == PreCommit && !warning
      modifies this`images, this`candidate, this`transaction, this`warning
      ensures Valid()
      ensures !complete ==> images == old(images) && transaction == PreCommit && !warning
      ensures complete && reach == Renamed ==>
                images == old(images) + [Some(payload)] && transaction == Committed && warning
      ensures complete && reach == Synced ==> images == [Some(payload)] && transaction == Durable && !warning
      ensures complete <==> Accepts(|payload|, pieces)
    {
      complete := WriteCandidate(payload, pieces);
      if !complete {
        candidate := None;
        return;
      }
      images, transaction := images + [candidate], Committed;
      candidate := None;
      if reach == Synced {
        images, transaction := [images[|images| - 1]], Durable;
      } else {
        warning := true;
      }
    }
  }
}
