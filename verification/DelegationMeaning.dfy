/** What a resolution says about the delegations themselves, without the notions it is computed with. */
module DelegationMeaning {
  import opened Prelude
  import opened Delegation
  import opened DelegationResult

  /** Signed, under an approved root, and not yet run out. */
  predicate ValidNow(c: Context, r: Record) {
    c.verify(r) && r.body.root in c.roots && c.now < r.body.expires
  }

  predicate Rivals(c: Context, rs: set<Record>, p: Record, agent: string) {
    p in rs && p.body.agent == agent && ValidNow(c, p)
  }

  /** No valid record of the agent has a larger nonce. */
  predicate Unbeaten(c: Context, rs: set<Record>, p: Record) {
    forall q | q in rs && Rivals(c, rs, q, p.body.agent) :: q.body.nonce <= p.body.nonce
  }

  /** Valid records of the agent name two roots, or two bodies share the largest nonce. */
  predicate Contested(c: Context, rs: set<Record>, agent: string) {
    exists p, q | p in rs && q in rs ::
      && Rivals(c, rs, p, agent) && Rivals(c, rs, q, agent)
      && (p.body.root != q.body.root || (Unbeaten(c, rs, p) && Unbeaten(c, rs, q) && p.body != q.body))
  }

  lemma GroupMeans(c: Context, rs: set<Record>, agent: string)
    ensures forall p :: p in Group(c, rs, agent) <==> Rivals(c, rs, p, agent)
  {
  }

  lemma HighestMeans(c: Context, rs: set<Record>, agent: string, p: Record)
    requires Rivals(c, rs, p, agent)
    ensures Highest(Group(c, rs, agent), p) <==> Unbeaten(c, rs, p)
  {
    GroupMeans(c, rs, agent);
    hide Group;
  }

  lemma SettledMeans(c: Context, rs: set<Record>, agent: string)
    ensures Settled(Group(c, rs, agent)) <==> !Contested(c, rs, agent)
  {
    GroupMeans(c, rs, agent);
    forall p | Rivals(c, rs, p, agent)
      ensures Highest(Group(c, rs, agent), p) <==> Unbeaten(c, rs, p)
    {
      HighestMeans(c, rs, agent, p);
    }
    hide Group, Highest, Unbeaten;
  }

  /** The state of one record, by its own signature, root and expiry and by the valid records of its agent. */
  ghost predicate StateMeans(c: Context, rs: set<Record>, r: Record, state: State) {
    match state
    case Forged => !c.verify(r)
    case RootUnverified => c.verify(r) && r.body.root !in c.roots
    case Expired => c.verify(r) && r.body.root in c.roots && r.body.expires <= c.now
    case Conflict => ValidNow(c, r) && Contested(c, rs, r.body.agent)
    case Current => ValidNow(c, r) && !Contested(c, rs, r.body.agent) && Unbeaten(c, rs, r)
    case Superseded => ValidNow(c, r) && !Contested(c, rs, r.body.agent) && !Unbeaten(c, rs, r)
  }

  lemma StateOfMeans(c: Context, rs: set<Record>, r: Record, state: State)
    requires r in rs
    ensures StateOf(c, rs, r) == state <==> StateMeans(c, rs, r, state)
  {
    SettledMeans(c, rs, r.body.agent);
    if Classify(c, r) == Current { HighestMeans(c, rs, r.body.agent, r); }
    hide Group, Highest, Settled, Contested, Unbeaten;
  }

  /** The nonces of the agent's valid records up to this record's own. */
  function NoncesUpTo(c: Context, rs: set<Record>, r: Record): set<nat> {
    set q | q in rs && Rivals(c, rs, q, r.body.agent) && q.body.nonce <= r.body.nonce :: q.body.nonce
  }

  /** Valid records of an agent without contest are ranked, by how many nonces there are up to their own. */
  ghost predicate RankMeans(c: Context, rs: set<Record>, r: Record, rank: Option<nat>) {
    rank == if ValidNow(c, r) && !Contested(c, rs, r.body.agent) then Some(|NoncesUpTo(c, rs, r)|) else None
  }

  lemma RankOfMeans(c: Context, rs: set<Record>, r: Record)
    requires r in rs
    ensures RankMeans(c, rs, r, RankOf(c, rs, r))
  {
    SettledMeans(c, rs, r.body.agent);
    GroupMeans(c, rs, r.body.agent);
    hide Group, Settled, Contested;
    assert NoncesUpTo(c, rs, r) == UpTo(Nonces(Group(c, rs, r.body.agent)), r.body.nonce);
  }

  // The resolution of a whole note

  ghost predicate SomeIn(c: Context, rs: set<Record>, state: State) {
    exists r | r in rs :: StateMeans(c, rs, r, state)
  }

  /** A conflict anywhere decides; otherwise a current, an expired, a forged record, in this order. */
  ghost predicate ResolutionMeans(c: Context, rs: set<Record>, resolution: Resolution) {
    match resolution
    case NotEstablished => rs == {}
    case Established(state) =>
      match state
      case Conflict => SomeIn(c, rs, Conflict)
      case Current => !SomeIn(c, rs, Conflict) && SomeIn(c, rs, Current)
      case Expired => !(exists r | r in rs :: ValidNow(c, r)) && SomeIn(c, rs, Expired)
      case Forged =>
        !(exists r | r in rs :: c.verify(r) && r.body.root in c.roots) && exists r | r in rs :: !c.verify(r)
      case RootUnverified => rs != {} && forall r | r in rs :: c.verify(r) && r.body.root !in c.roots
      case Superseded => false
  }

  lemma {:induction false} CountPositive(entries: seq<Entry>, state: State)
    ensures Count(entries, state) > 0 <==> exists i | 0 <= i < |entries| :: entries[i].state == state
  {
    if entries != [] {
      var last := |entries| - 1;
      CountPositive(entries[..last], state);
      if i :| 0 <= i < |entries| && entries[i].state == state {
        if i < last { assert entries[..last][i].state == state; }
      }
    }
  }

  lemma CountMeans(c: Context, records: seq<Record>, state: State)
    ensures Count(Entries(c, records), state) > 0 <==> SomeIn(c, Elements(records), state)
  {
    var entries, rs := Entries(c, records), Elements(records);
    CountPositive(entries, state);
    forall r | r in rs
      ensures StateOf(c, rs, r) == state <==> StateMeans(c, rs, r, state)
    {
      StateOfMeans(c, rs, r, state);
    }
    hide StateOf, StateMeans, RankOf, SuccessorOf;
    assert forall i | 0 <= i < |entries| :: entries[i].state == StateOf(c, rs, records[i]) && records[i] in rs;
    if r :| r in rs && StateMeans(c, rs, r, state) {
      var i :| 0 <= i < |records| && records[i] == r;
      assert entries[i].state == state;
    }
  }

  /** A superseded record leaves a current one. */
  lemma SomeCurrent(c: Context, rs: set<Record>, r: Record)
    requires r in rs && ValidNow(c, r) && !SomeIn(c, rs, Conflict)
    ensures SomeIn(c, rs, Current)
  {
    var g := Group(c, rs, r.body.agent);
    GroupMeans(c, rs, r.body.agent);
    assert r in g;
    var p := HighestExists(g);
    HighestMeans(c, rs, r.body.agent, p);
    assert !StateMeans(c, rs, r, Conflict);
    assert StateMeans(c, rs, p, Current);
  }

  lemma ResolutionOfMeans(c: Context, records: seq<Record>)
    ensures ResolutionMeans(c, Elements(records), ResolutionOf(Entries(c, records)))
  {
    var rs := Elements(records);
    CountMeans(c, records, Conflict);
    CountMeans(c, records, Current);
    CountMeans(c, records, Expired);
    CountMeans(c, records, Forged);
    assert records != [] ==> records[0] in rs;
    if !SomeIn(c, rs, Conflict) && !SomeIn(c, rs, Current) {
      forall r | r in rs
        ensures !ValidNow(c, r)
      {
        if ValidNow(c, r) { SomeCurrent(c, rs, r); }
      }
    }
    if !SomeIn(c, rs, Expired) {
      assert forall r | r in rs && !ValidNow(c, r) && c.verify(r) :: !StateMeans(c, rs, r, Expired);
    }
    assert forall r | r in rs && !c.verify(r) :: StateMeans(c, rs, r, Forged);
    assert forall r | r in rs && StateMeans(c, rs, r, Forged) :: !c.verify(r);
    hide StateMeans, Entries, Count;
  }

  /** The whole answer: why a note is refused, or what each of its records and all of them together are. */
  ghost predicate Answers(inputs: Inputs, p: Projection) {
    match inputs
    case WrongType => p.errors == [InputType] && p.records == [] && p.resolution == NotEstablished
    case TooLarge => p.errors == [InputLimit] && p.records == [] && p.resolution == NotEstablished
    case Unreadable => p.errors == [ArtifactSchema] && p.records == [] && p.resolution == NotEstablished
    case Readable(items, c) =>
      if |items| > 128 || exists i | 0 <= i < |items| :: !Acceptable(items[i]) then
        p.errors == [ArtifactSchema] && p.records == [] && p.resolution == NotEstablished
      else
        var rs := Elements(RecordsOf(items));
        && p.errors == [] && ResolutionMeans(c, rs, p.resolution) && p.recordCount == |p.records|
        && RecordsMean(c, rs, p.records)
        && (p.rootIdentityVerified <==> exists r | r in rs :: c.verify(r) && r.body.root in c.roots)
        && (p.delegationSignatureValid <==> exists r | r in rs :: c.verify(r))
  }

  /** Every record is listed, and each entry says what its record is. */
  ghost predicate RecordsMean(c: Context, rs: set<Record>, entries: seq<Entry>) {
    && (forall r | r in rs :: exists i | 0 <= i < |entries| :: entries[i].id == r)
    && (forall i | 0 <= i < |entries| :: EntryMeans(c, rs, entries[i]))
  }

  ghost predicate EntryMeans(c: Context, rs: set<Record>, e: Entry) {
    && e.id in rs && StateMeans(c, rs, e.id, e.state)
    && (e.signatureValid <==> c.verify(e.id)) && (e.rootVerified <==> e.id.body.root in c.roots)
    && e.agentId == e.id.body.agent && e.rootId == e.id.body.root && RankMeans(c, rs, e.id, e.rank)
  }

  lemma EntriesMean(c: Context, records: seq<Record>)
    ensures RecordsMean(c, Elements(records), Entries(c, records))
  {
    var entries, rs := Entries(c, records), Elements(records);
    forall r | r in rs
      ensures exists i | 0 <= i < |entries| :: entries[i].id == r
    {
      var i :| 0 <= i < |records| && records[i] == r;
      assert entries[i].id == r;
    }
    forall i | 0 <= i < |entries|
      ensures EntryMeans(c, rs, entries[i])
    {
      StateOfMeans(c, rs, records[i], entries[i].state);
      RankOfMeans(c, rs, records[i]);
    }
    hide StateOf, StateMeans, RankOf, RankMeans, SuccessorOf, EntryMeans;
  }

  lemma ResolvedAnswers(inputs: Inputs)
    ensures Answers(inputs, Resolved(inputs))
  {
    match inputs
    case Readable(items, c) =>
      if |items| <= 128 && forall i | 0 <= i < |items| :: Acceptable(items[i]) {
        NoteAnswers(c, RecordsOf(items), Resolved(inputs));
      }
    case _ =>
  }

  lemma NoteAnswers(c: Context, records: seq<Record>, p: Projection)
    requires p == Summary(Entries(c, Distinct(records)))
    ensures var rs := Elements(records);
            && p.errors == [] && ResolutionMeans(c, rs, p.resolution) && p.recordCount == |p.records|
            && RecordsMean(c, rs, p.records)
            && (p.rootIdentityVerified <==> exists r | r in rs :: c.verify(r) && r.body.root in c.roots)
            && (p.delegationSignatureValid <==> exists r | r in rs :: c.verify(r))
  {
    hide *;
    var entries := Entries(c, Distinct(records));
    SummaryFields(entries);
    ResolutionOfMeans(c, Distinct(records));
    EntriesMean(c, Distinct(records));
    FlagsMean(c, Elements(records), entries);
  }

  lemma SummaryFields(entries: seq<Entry>)
    ensures var p := Summary(entries);
            && p.errors == [] && p.resolution == ResolutionOf(entries) && p.records == entries
            && p.recordCount == |entries|
            && p.rootIdentityVerified == RootVerified(entries) && p.delegationSignatureValid == Signed(entries)
  {
    hide ResolutionOf;
  }

  predicate RootVerified(entries: seq<Entry>) {
    exists i | 0 <= i < |entries| :: entries[i].rootVerified && entries[i].signatureValid
  }

  predicate Signed(entries: seq<Entry>) {
    exists i | 0 <= i < |entries| :: entries[i].signatureValid
  }

  lemma FlagsMean(c: Context, rs: set<Record>, entries: seq<Entry>)
    requires RecordsMean(c, rs, entries)
    ensures Signed(entries) <==> exists r | r in rs :: c.verify(r)
    ensures RootVerified(entries) <==> exists r | r in rs :: c.verify(r) && r.body.root in c.roots
  {
    hide StateMeans, RankMeans;
    assert forall i | 0 <= i < |entries| :: EntryMeans(c, rs, entries[i]);
  }
}
