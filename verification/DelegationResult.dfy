/** The sealed result of a resolution: its counts, the validator that runs on it, and why it always passes. */
module DelegationResult {
  import opened Prelude
  import opened Delegation

  const MAX_RECORDS := 128

  datatype Problem = InputType | InputLimit | ArtifactSchema

  datatype Resolution = NotEstablished | Established(state: State)

  datatype Projection = Projection(
    resolution: Resolution, recordCount: nat, validSignatureCount: nat, currentCount: nat, supersededCount: nat,
    expiredCount: nat, forgedCount: nat, conflictCount: nat, records: seq<Entry>, errors: seq<Problem>,
    rootIdentityVerified: bool, delegationSignatureValid: bool)

  function Count(entries: seq<Entry>, state: State): (n: nat)
    ensures n <= |entries|
  {
    if entries == [] then 0
    else
      var last := |entries| - 1;
      Count(entries[..last], state) + if entries[last].state == state then 1 else 0
  }

  function CountSigned(entries: seq<Entry>): (n: nat)
    ensures n <= |entries|
  {
    if entries == [] then 0
    else
      var last := |entries| - 1;
      CountSigned(entries[..last]) + if entries[last].signatureValid then 1 else 0
  }

  function ResolutionOf(entries: seq<Entry>): Resolution {
    if Count(entries, Conflict) > 0 then Established(Conflict)
    else if Count(entries, Current) > 0 then Established(Current)
    else if Count(entries, Expired) > 0 then Established(Expired)
    else if Count(entries, Forged) > 0 then Established(Forged)
    else if entries != [] then Established(RootUnverified)
    else NotEstablished
  }

  function Summary(entries: seq<Entry>): Projection {
    Projection(
      ResolutionOf(entries), |entries|, CountSigned(entries), Count(entries, Current), Count(entries, Superseded),
      Count(entries, Expired), Count(entries, Forged), Count(entries, Conflict), entries, [],
      exists i | 0 <= i < |entries| :: entries[i].rootVerified && entries[i].signatureValid,
      exists i | 0 <= i < |entries| :: entries[i].signatureValid)
  }

  function Stopped(problem: Problem): Projection {
    Summary([]).(errors := [problem])
  }

  // Validation

  datatype Refusal = ResultSchema | CountMismatch | SupersessionEvidence

  /** The conditional part of the result schema for one record. */
  predicate EntryInSchema(e: Entry) {
    && (e.rank.Some? ==> 1 <= e.rank.value <= MAX_RECORDS)
    && (e.state in {Forged, Expired, Conflict, RootUnverified} ==> e.rank.None? && e.supersededBy.None?)
    && (e.state == Forged ==> !e.signatureValid)
    && (e.state in {Current, Superseded} ==> e.signatureValid && e.rootVerified && e.rank.Some?)
    && (e.state == Superseded ==> e.supersededBy.Some?)
  }

  predicate InSchema(p: Projection) {
    && |p.records| <= MAX_RECORDS && |p.errors| <= 1
    && p.resolution != Established(Superseded)
    && p.recordCount <= MAX_RECORDS && p.validSignatureCount <= MAX_RECORDS && p.currentCount <= MAX_RECORDS
    && p.supersededCount <= MAX_RECORDS && p.expiredCount <= MAX_RECORDS && p.forgedCount <= MAX_RECORDS
    && p.conflictCount <= MAX_RECORDS
    && forall i | 0 <= i < |p.records| :: EntryInSchema(p.records[i])
  }

  predicate CountsMatch(p: Projection) {
    && p.recordCount == |p.records|
    && p.validSignatureCount == CountSigned(p.records)
    && p.currentCount == Count(p.records, Current)
    && p.supersededCount == Count(p.records, Superseded)
    && p.expiredCount == Count(p.records, Expired)
    && p.forgedCount == Count(p.records, Forged)
    && p.conflictCount == Count(p.records, Conflict)
  }

  /** The entry a dictionary keyed by identifier would hold: the last one. */
  function Lookup(entries: seq<Entry>, id: Record): (e: Option<Entry>)
    ensures e.Some? ==> e.value in entries && e.value.id == id
    ensures e.None? ==> forall i | 0 <= i < |entries| :: entries[i].id != id
  {
    if entries == [] then None
    else
      var last := |entries| - 1;
      if entries[last].id == id then Some(entries[last]) else Lookup(entries[..last], id)
  }

  predicate SuccessionHolds(entries: seq<Entry>, e: Entry) {
    if e.state != Superseded then e.supersededBy.None?
    else
      && e.supersededBy.Some?
      && var target := Lookup(entries, e.supersededBy.value);
      && target.Some? && target.value.state == Current
      && target.value.agentId == e.agentId && target.value.rootId == e.rootId
      && target.value.rank.Some? && e.rank.Some? && target.value.rank.value > e.rank.value
  }

  /** `validate_delegation_projection`: the first refusal, if any. */
  function Validate(p: Projection): Option<Refusal> {
    if !InSchema(p) then Some(ResultSchema)
    else if !CountsMatch(p) then Some(CountMismatch)
    else if exists i | 0 <= i < |p.records| :: !SuccessionHolds(p.records, p.records[i]) then Some(SupersessionEvidence)
    else None
  }

  // What a resolution computes

  datatype Item = Malformed | WellFormed(record: Record)

  datatype Inputs = WrongType | TooLarge | Unreadable | Readable(items: seq<Item>, context: Context)

  function Entries(c: Context, records: seq<Record>): (entries: seq<Entry>)
    ensures |entries| == |records|
  {
    seq(|records|, i requires 0 <= i < |records| => EntryOf(c, records, records[i]))
  }

  /** A record is well formed only when it does not delegate to its own root. */
  predicate Acceptable(item: Item) {
    item.WellFormed? && item.record.body.root != item.record.body.agent
  }

  function RecordsOf(items: seq<Item>): (records: seq<Record>)
    requires forall i | 0 <= i < |items| :: Acceptable(items[i])
    ensures |records| == |items|
  {
    seq(|items|, i requires 0 <= i < |items| && Acceptable(items[i]) => items[i].record)
  }

  function Resolved(inputs: Inputs): Projection {
    match inputs
    case WrongType => Stopped(InputType)
    case TooLarge => Stopped(InputLimit)
    case Unreadable => Stopped(ArtifactSchema)
    case Readable(items, c) =>
      if |items| > MAX_RECORDS || exists i | 0 <= i < |items| :: !Acceptable(items[i]) then Stopped(ArtifactSchema)
      else Summary(Entries(c, Distinct(RecordsOf(items))))
  }

  // The sealed result passes its own validator

  lemma {:induction false} DistinctFewer(records: seq<Record>)
    ensures |Distinct(records)| <= |records|
  {
    if records != [] { DistinctFewer(records[..|records| - 1]); }
  }

  lemma {:induction false} NoncesFewer(g: set<Record>, ns: set<nat>)
    requires ns <= Nonces(g)
    ensures |ns| <= |g|
    decreases g
  {
    if g == {} {
      assert ns == {};
    } else {
      var r :| r in g;
      var rest := g - {r};
      assert ns - {r.body.nonce} <= Nonces(rest) by {
        forall n | n in ns && n != r.body.nonce ensures n in Nonces(rest) {
          assert n in Nonces(g);
        }
      }
      NoncesFewer(rest, ns - {r.body.nonce});
      Smaller(ns, ns - {r.body.nonce} + {r.body.nonce});
    }
  }

  lemma {:induction false} ElementsFewer(records: seq<Record>)
    ensures |Elements(records)| <= |records|
  {
    if records == [] {
      assert Elements(records) == {};
    } else {
      var last := |records| - 1;
      ElementsFewer(records[..last]);
      assert Elements(records) == Elements(records[..last]) + {records[last]};
    }
  }

  lemma RankInRange(c: Context, records: seq<Record>, r: Record)
    requires r in records && RankOf(c, Elements(records), r).Some?
    ensures 1 <= RankOf(c, Elements(records), r).value <= |records|
  {
    var g := Group(c, Elements(records), r.body.agent);
    assert r in g;
    var ns := UpTo(Nonces(g), r.body.nonce);
    assert r.body.nonce in Nonces(g);
    UpToGrows(Nonces(g), r.body.nonce, r.body.nonce);
    NoncesFewer(g, ns);
    Smaller(g, Elements(records));
    ElementsFewer(records);
  }

  lemma EntriesInSchema(c: Context, records: seq<Record>, r: Record)
    requires r in records && |records| <= MAX_RECORDS
    ensures EntryInSchema(EntryOf(c, records, r))
  {
    hide Highest, TopsAgree, RootsAgree;
    if RankOf(c, Elements(records), r).Some? {
      RankInRange(c, records, r);
    }
    if StateOf(c, Elements(records), r) == Superseded {
      SuccessorIsCurrent(c, records, r);
    }
  }

  lemma EntriesSucceed(c: Context, records: seq<Record>, r: Record)
    requires r in records
    ensures SuccessionHolds(Entries(c, records), EntryOf(c, records, r))
  {
    hide Highest, TopsAgree, RootsAgree;
    var entries := Entries(c, records);
    if StateOf(c, Elements(records), r) == Superseded {
      SuccessorIsCurrent(c, records, r);
      var q := SuccessorOf(c, records, r).value;
      var i :| 0 <= i < |records| && records[i] == q;
      assert entries[i].id == q;
      var target := Lookup(entries, q);
      assert forall k | 0 <= k < |entries| :: entries[k] == EntryOf(c, records, entries[k].id);
    }
  }

  /** For every input, malformed ones included, the sealed result passes the validator. */
  lemma SealedResultIsValid(inputs: Inputs)
    ensures Validate(Resolved(inputs)) == None
  {
    hide EntryInSchema, SuccessionHolds, EntryOf;
    var p := Resolved(inputs);
    if inputs.Readable? && p.errors == [] {
      var records := Distinct(RecordsOf(inputs.items));
      DistinctFewer(RecordsOf(inputs.items));
      forall i | 0 <= i < |p.records|
        ensures EntryInSchema(p.records[i]) && SuccessionHolds(p.records, p.records[i])
      {
        EntriesInSchema(inputs.context, records, records[i]);
        EntriesSucceed(inputs.context, records, records[i]);
      }
    }
  }

  // Input order and duplicates do not matter

  function IdsIn(entries: seq<Entry>, state: State): set<Record> {
    set e | e in entries && e.state == state :: e.id
  }

  function IdsSigned(entries: seq<Entry>): set<Record> {
    set e | e in entries && e.signatureValid :: e.id
  }

  predicate DistinctIds(entries: seq<Entry>) {
    forall i, j | 0 <= i < j < |entries| :: entries[i].id != entries[j].id
  }

  lemma IdsOfLonger(front: seq<Entry>, e: Entry, state: State)
    ensures IdsIn(front + [e], state) == IdsIn(front, state) + if e.state == state then {e.id} else {}
    ensures IdsSigned(front + [e]) == IdsSigned(front) + if e.signatureValid then {e.id} else {}
  {
    var entries := front + [e];
    assert forall x :: x in entries <==> x in front || x == e;
  }

  lemma NewId(front: seq<Entry>, e: Entry, state: State)
    requires DistinctIds(front + [e])
    ensures e.id !in IdsIn(front, state) && e.id !in IdsSigned(front)
  {
    forall x | x in front
      ensures x.id != e.id
    {
      var i :| 0 <= i < |front| && front[i] == x;
      assert (front + [e])[i] == x && (front + [e])[|front|] == e;
    }
  }

  lemma {:induction false} CountIsCardinality(entries: seq<Entry>, state: State)
    requires DistinctIds(entries)
    ensures Count(entries, state) == |IdsIn(entries, state)|
    ensures CountSigned(entries) == |IdsSigned(entries)|
  {
    hide IdsIn, IdsSigned;
    if entries == [] {
      NoIds(entries, state);
    } else {
      var front, e := entries[..|entries| - 1], entries[|entries| - 1];
      assert entries == front + [e];
      CountIsCardinality(front, state);
      NewId(front, e, state);
      IdsOfLonger(front, e, state);
    }
  }

  lemma NoIds(entries: seq<Entry>, state: State)
    requires entries == []
    ensures IdsIn(entries, state) == {} && IdsSigned(entries) == {}
  {
  }

  function RecordsIn(c: Context, rs: set<Record>, state: State): set<Record> {
    set r | r in rs && StateOf(c, rs, r) == state
  }

  function SignedRecords(c: Context, rs: set<Record>): set<Record> {
    set r | r in rs && c.verify(r)
  }

  lemma CountsOfRecords(c: Context, records: seq<Record>, state: State)
    requires forall i, j | 0 <= i < j < |records| :: records[i] != records[j]
    ensures Count(Entries(c, records), state) == |RecordsIn(c, Elements(records), state)|
    ensures CountSigned(Entries(c, records)) == |SignedRecords(c, Elements(records))|
  {
    hide StateOf, RankOf, SuccessorOf;
    var entries, rs := Entries(c, records), Elements(records);
    forall r | r in rs
      ensures EntryOf(c, records, r) in entries
    {
      var i :| 0 <= i < |records| && records[i] == r;
      assert entries[i] == EntryOf(c, records, r);
    }
    CountIsCardinality(entries, state);
    assert IdsIn(entries, state) == RecordsIn(c, rs, state) by {
      forall r | r in RecordsIn(c, rs, state) ensures r in IdsIn(entries, state) {
        assert EntryOf(c, records, r).id == r;
      }
    }
    assert IdsSigned(entries) == SignedRecords(c, rs) by {
      forall r | r in SignedRecords(c, rs) ensures r in IdsSigned(entries) {
        assert EntryOf(c, records, r).id == r;
      }
    }
  }

  /** Neither input order nor exact duplicates change any record's state or rank, or the body of its
      successor. */
  lemma OrderKeepsEntries(c: Context, a: seq<Record>, b: seq<Record>, r: Record)
    requires Elements(a) == Elements(b) && r in a
    ensures var p, q := EntryOf(c, Distinct(a), r), EntryOf(c, Distinct(b), r);
            && p == q.(supersededBy := p.supersededBy)
            && p.supersededBy.Some? == q.supersededBy.Some?
            && (p.supersededBy.Some? ==> p.supersededBy.value.body == q.supersededBy.value.body)
  {
    if StateOf(c, Elements(a), r) == Superseded {
      assert r in Elements(Distinct(a)) && r in Elements(Distinct(b));
      SuccessorIsCurrent(c, Distinct(a), r);
      SuccessorIsCurrent(c, Distinct(b), r);
    }
  }

  /** The successor itself can differ: of two signatures of one body, the first in input order is named. */
  lemma SuccessorFollowsOrder() returns (c: Context, a: seq<Record>, b: seq<Record>, r: Record)
    ensures Elements(a) == Elements(b) && r in a
    ensures SuccessorOf(c, a, r).Some? && SuccessorOf(c, b, r).Some? && SuccessorOf(c, a, r) != SuccessorOf(c, b, r)
  {
    c := Context(0, {"root"}, _ => true);
    var low, high := Body("root", "agent", "*", 1, 1), Body("root", "agent", "*", 1, 2);
    var x, y := Record(high, "x"), Record(high, "y");
    r := Record(low, "z");
    a, b := [x, y, r], [y, x, r];
    var g := Group(c, Elements(a), "agent");
    assert Elements(a) == {x, y, r} && Elements(b) == {x, y, r};
    assert g == {x, y, r};
    assert Highest(g, x) && Highest(g, y) && !Highest(g, r);
  }

  /** Every input order of the records, duplicates included, names the same successor for r. */
  ghost predicate SuccessorOrderFree(c: Context, rs: set<Record>, r: Record) {
    forall a, b | Elements(a) == rs && Elements(b) == rs ::
      SuccessorOf(c, Distinct(a), r) == SuccessorOf(c, Distinct(b), r)
  }

  /** One record alone has the highest nonce of its group. */
  predicate SoleHighest(g: set<Record>) {
    exists p | p in g :: Highest(g, p) && forall q | q in g && Highest(g, q) :: q == p
  }

  lemma {:induction false} Listed(rs: set<Record>) returns (a: seq<Record>)
    ensures Elements(a) == rs
  {
    if rs == {} {
      a := [];
    } else {
      var r :| r in rs;
      var rest := Listed(rs - {r});
      a := [r] + rest;
      assert forall q :: q in a <==> q == r || q in rest;
      assert forall q :: q in rest <==> q in Elements(rest);
    }
  }

  lemma {:induction false} DistinctKeepsFirst(a: seq<Record>)
    requires a != []
    ensures Distinct(a) != [] && Distinct(a)[0] == a[0]
  {
    if |a| > 1 {
      DistinctKeepsFirst(a[..|a| - 1]);
    } else {
      assert Distinct(a[..0]) == [];
    }
  }

  /** An order that starts with a highest record names that record. */
  lemma NamesFirst(c: Context, rs: set<Record>, r: Record, p: Record) returns (a: seq<Record>)
    requires r in rs && StateOf(c, rs, r) == Superseded && Highest(Group(c, rs, r.body.agent), p)
    ensures Elements(a) == rs && SuccessorOf(c, Distinct(a), r) == Some(p)
  {
    var rest := Listed(rs);
    a := [p] + rest;
    assert p in rs;
    assert Elements(a) == rs;
    DistinctKeepsFirst(a);
  }

  /** With one highest record there is nothing to choose. */
  lemma SoleIsNamed(c: Context, rs: set<Record>, r: Record, p: Record, a: seq<Record>)
    requires r in rs && StateOf(c, rs, r) == Superseded && Elements(a) == rs
    requires var g := Group(c, rs, r.body.agent);
             p in g && Highest(g, p) && forall q | q in g && Highest(g, q) :: q == p
    ensures SuccessorOf(c, Distinct(a), r) == Some(p)
  {
    var g := Group(c, rs, r.body.agent);
    assert p in Elements(Distinct(a));
    hide StateOf, Group;
    var named := FirstHighest(g, Distinct(a));
    assert named.Some? && Highest(g, named.value);
  }

  lemma SupersededIff(c: Context, rs: set<Record>, r: Record)
    ensures var g := Group(c, rs, r.body.agent);
            StateOf(c, rs, r) == Superseded <==> Classify(c, r) == Current && Settled(g) && !Highest(g, r)
  {
  }

  /**
    The successor of a record does not depend on the input order exactly when the record is no valid one, its group
    is in conflict, it has the highest nonce itself, or one record alone has it.
   */
  lemma SuccessorOrderFreeIff(c: Context, rs: set<Record>, r: Record)
    requires r in rs
    ensures SuccessorOrderFree(c, rs, r) <==>
            var g := Group(c, rs, r.body.agent);
            Classify(c, r) != Current || !Settled(g) || Highest(g, r) || SoleHighest(g)
  {
    SupersededIff(c, rs, r);
    var g := Group(c, rs, r.body.agent);
    if StateOf(c, rs, r) == Superseded {
      assert r in g;
      hide StateOf, Group, Distinct, SuccessorOf, Highest;
      if SoleHighest(g) {
        var p :| p in g && Highest(g, p) && forall q | q in g && Highest(g, q) :: q == p;
        forall a, b | Elements(a) == rs && Elements(b) == rs
          ensures SuccessorOf(c, Distinct(a), r) == SuccessorOf(c, Distinct(b), r)
        {
          SoleIsNamed(c, rs, r, p, a);
          SoleIsNamed(c, rs, r, p, b);
        }
      } else {
        TwoHighest(c, rs, r, g);
      }
    } else {
      NoSuccessor(c, rs, r);
    }
  }

  lemma NoSuccessor(c: Context, rs: set<Record>, r: Record)
    requires StateOf(c, rs, r) != Superseded
    ensures forall a | Elements(a) == rs :: SuccessorOf(c, Distinct(a), r) == None
  {
    hide StateOf;
  }

  lemma TwoHighest(c: Context, rs: set<Record>, r: Record, g: set<Record>)
    requires r in rs && StateOf(c, rs, r) == Superseded && g == Group(c, rs, r.body.agent) && g != {}
    requires !SoleHighest(g)
    ensures !SuccessorOrderFree(c, rs, r)
  {
    hide StateOf, Group, Distinct, SuccessorOf;
    var p := HighestExists(g);
    var q :| q in g && Highest(g, q) && q != p;
    var a := NamesFirst(c, rs, r, p);
    var b := NamesFirst(c, rs, r, q);
  }

  /** Nor do they change any count or the overall resolution. */
  lemma OrderKeepsSummary(c: Context, a: seq<Record>, b: seq<Record>)
    requires Elements(a) == Elements(b)
    ensures var p, q := Summary(Entries(c, Distinct(a))), Summary(Entries(c, Distinct(b)));
            p == q.(records := p.records)
  {
    hide StateOf, RankOf, SuccessorOf, RecordsIn, SignedRecords;
    var x, y := Distinct(a), Distinct(b);
    var entries, others := Entries(c, x), Entries(c, y);
    forall state: State
      ensures Count(entries, state) == Count(others, state) && CountSigned(entries) == CountSigned(others)
    {
      CountsOfRecords(c, x, state);
      CountsOfRecords(c, y, state);
    }
    SameElementsSameLength(x, y);
    AnyEntry(c, x, y);
    AnyEntry(c, y, x);
  }

  lemma {:induction false} SameElementsSameLength(x: seq<Record>, y: seq<Record>)
    requires Elements(x) == Elements(y)
    requires forall i, j | 0 <= i < j < |x| :: x[i] != x[j]
    requires forall i, j | 0 <= i < j < |y| :: y[i] != y[j]
    ensures |x| == |y|
  {
    LengthIsCardinality(x);
    LengthIsCardinality(y);
  }

  lemma {:induction false} LengthIsCardinality(x: seq<Record>)
    requires forall i, j | 0 <= i < j < |x| :: x[i] != x[j]
    ensures |Elements(x)| == |x|
  {
    if x == [] {
      assert Elements(x) == {};
    } else {
      var front, last := x[..|x| - 1], x[|x| - 1];
      LengthIsCardinality(front);
      assert last !in Elements(front);
      assert Elements(x) == Elements(front) + {last};
    }
  }

  lemma AnyEntry(c: Context, x: seq<Record>, y: seq<Record>)
    requires Elements(x) == Elements(y)
    ensures Summary(Entries(c, x)).rootIdentityVerified ==> Summary(Entries(c, y)).rootIdentityVerified
    ensures Summary(Entries(c, x)).delegationSignatureValid ==> Summary(Entries(c, y)).delegationSignatureValid
  {
    hide StateOf, RankOf, SuccessorOf, Count, CountSigned;
    var entries, others := Entries(c, x), Entries(c, y);
    forall i | 0 <= i < |entries|
      ensures exists j :: 0 <= j < |others| && others[j].rootVerified == entries[i].rootVerified
                          && others[j].signatureValid == entries[i].signatureValid
    {
      assert x[i] in Elements(y);
      var j :| 0 <= j < |y| && y[j] == x[i];
      assert others[j] == EntryOf(c, y, x[i]);
    }
  }
}
