/**
  Signature-first delegation resolution: what each record's state, rank and successor are, as functions of
  the set of records, and the laws those functions obey. Hashes are injective, so a record stands for its
  own identifier and a DID for its own digest. Signature verification is an arbitrary predicate; one body
  may carry many valid signatures.
 */
module Delegation {
  import opened Prelude

  datatype Body = Body(root: string, agent: string, scope: string, expires: nat, nonce: nat)

  datatype Record = Record(body: Body, signature: string)

  datatype State = Current | Superseded | Expired | Forged | RootUnverified | Conflict

  datatype Context = Context(now: nat, roots: set<string>, verify: Record -> bool)

  datatype Entry = Entry(
    id: Record, agentId: string, rootId: string, state: State,
    rootVerified: bool, signatureValid: bool, rank: Option<nat>, supersededBy: Option<Record>)

  /** A record's state on its own, before it meets the others. */
  function Classify(c: Context, r: Record): State {
    if !c.verify(r) then Forged
    else if r.body.root !in c.roots then RootUnverified
    else if r.body.expires <= c.now then Expired
    else Current
  }

  /** The records that compete with each other for one agent. */
  function Group(c: Context, rs: set<Record>, agent: string): set<Record> {
    set r | r in rs && r.body.agent == agent && Classify(c, r) == Current
  }

  predicate Highest(g: set<Record>, r: Record) {
    r in g && forall q | q in g :: q.body.nonce <= r.body.nonce
  }

  predicate RootsAgree(g: set<Record>) {
    forall p, q | p in g && q in g :: p.body.root == q.body.root
  }

  predicate TopsAgree(g: set<Record>) {
    forall p, q | p in g && q in g && Highest(g, p) && Highest(g, q) :: p.body == q.body
  }

  predicate Settled(g: set<Record>) {
    RootsAgree(g) && TopsAgree(g)
  }

  function Nonces(g: set<Record>): set<nat> {
    set r | r in g :: r.body.nonce
  }

  function UpTo(ns: set<nat>, bound: nat): set<nat> {
    set n | n in ns && n <= bound
  }

  function StateOf(c: Context, rs: set<Record>, r: Record): State {
    var own := Classify(c, r);
    var g := Group(c, rs, r.body.agent);
    if own != Current then own
    else if !Settled(g) then Conflict
    else if Highest(g, r) then Current
    else Superseded
  }

  /** Position of the record's nonce among the distinct nonces of its group, counted from one. */
  function RankOf(c: Context, rs: set<Record>, r: Record): Option<nat> {
    var g := Group(c, rs, r.body.agent);
    if Classify(c, r) == Current && Settled(g) then Some(|UpTo(Nonces(g), r.body.nonce)|) else None
  }

  /** The first record in input order that has the group's highest nonce. */
  function FirstHighest(g: set<Record>, records: seq<Record>): (r: Option<Record>)
    ensures r.Some? ==> r.value in records && Highest(g, r.value)
    ensures r.None? ==> forall q | q in records :: !Highest(g, q)
  {
    if records == [] then None
    else if Highest(g, records[0]) then Some(records[0])
    else FirstHighest(g, records[1..])
  }

  function Elements(records: seq<Record>): set<Record> {
    set r | r in records
  }

  function SuccessorOf(c: Context, records: seq<Record>, r: Record): Option<Record> {
    if StateOf(c, Elements(records), r) == Superseded then
      FirstHighest(Group(c, Elements(records), r.body.agent), records)
    else None
  }

  function EntryOf(c: Context, records: seq<Record>, r: Record): Entry {
    var rs := Elements(records);
    Entry(r, r.body.agent, r.body.root, StateOf(c, rs, r),
          r.body.root in c.roots, c.verify(r), RankOf(c, rs, r), SuccessorOf(c, records, r))
  }

  /** Distinct records in the order of their first occurrence. */
  function Distinct(records: seq<Record>): (r: seq<Record>)
    ensures Elements(r) == Elements(records)
    ensures forall i, j | 0 <= i < j < |r| :: r[i] != r[j]
  {
    if records == [] then []
    else
      var last := |records| - 1;
      var front := Distinct(records[..last]);
      assert Elements(records) == Elements(records[..last]) + {records[last]};
      if records[last] in front then front else front + [records[last]]
  }

  /** The state of a record is independent of forged, expired and unapproved-root records. */
  lemma OutsidersDoNotInterfere(c: Context, rs: set<Record>, extra: set<Record>, r: Record)
    requires forall q | q in extra :: Classify(c, q) != Current
    ensures StateOf(c, rs + extra, r) == StateOf(c, rs, r)
    ensures RankOf(c, rs + extra, r) == RankOf(c, rs, r)
  {
    assert Group(c, rs + extra, r.body.agent) == Group(c, rs, r.body.agent);
  }

  lemma {:induction false} FirstHighestSkips(g: set<Record>, before: seq<Record>, q: Record, after: seq<Record>)
    requires !Highest(g, q)
    ensures FirstHighest(g, before + [q] + after) == FirstHighest(g, before + after)
  {
    var all := before + [q] + after;
    if before == [] {
      assert all[1..] == after && [] + after == after;
    } else {
      assert all[1..] == before[1..] + [q] + after;
      assert (before + after)[1..] == before[1..] + after;
      FirstHighestSkips(g, before[1..], q, after);
    }
  }

  /** Inserting an outsider anywhere leaves every other record's whole entry as it was, successor included. */
  lemma OutsiderLeavesEntries(c: Context, before: seq<Record>, q: Record, after: seq<Record>, r: Record)
    requires Classify(c, q) != Current
    ensures EntryOf(c, before + [q] + after, r) == EntryOf(c, before + after, r)
  {
    var rs := Elements(before + after);
    var g := Group(c, rs, r.body.agent);
    assert Elements(before + [q] + after) == rs + {q};
    OutsidersDoNotInterfere(c, rs, {q}, r);
    assert Group(c, rs + {q}, r.body.agent) == g;
    FirstHighestSkips(g, before, q, after);
  }

  /** A nonempty group has a highest record. */
  lemma {:induction false} HighestExists(g: set<Record>) returns (top: Record)
    requires g != {}
    ensures Highest(g, top)
  {
    var r :| r in g;
    var rest := g - {r};
    if rest == {} {
      assert g == {r};
      top := r;
    } else {
      var best := HighestExists(rest);
      assert forall q | q in g :: q == r || q in rest;
      top := if best.body.nonce < r.body.nonce then r else best;
    }
  }

  /** The current records of an agent are one delegation: same root, scope, expiry and nonce, and no valid
      record of that agent has a larger nonce. */
  lemma CurrentAgree(c: Context, rs: set<Record>, p: Record, q: Record)
    requires p in rs && q in rs && p.body.agent == q.body.agent
    requires StateOf(c, rs, p) == Current
    ensures StateOf(c, rs, q) == Current ==> p.body == q.body
    ensures Classify(c, q) == Current ==> q.body.root == p.body.root && q.body.nonce <= p.body.nonce
    ensures StateOf(c, rs, q) != Conflict
  {
    assert p in Group(c, rs, p.body.agent);
    if Classify(c, q) == Current {
      assert q in Group(c, rs, p.body.agent);
    }
  }

  /** An agent ends with a current record exactly when it has valid records and they do not disagree on the
      root or on the body of the highest nonce. */
  lemma HasCurrentIff(c: Context, rs: set<Record>, agent: string)
    ensures (exists r :: r in rs && r.body.agent == agent && StateOf(c, rs, r) == Current)
            <==> Group(c, rs, agent) != {} && Settled(Group(c, rs, agent))
  {
    var g := Group(c, rs, agent);
    if r :| r in rs && r.body.agent == agent && StateOf(c, rs, r) == Current {
      assert r in g;
    }
    if g != {} && Settled(g) {
      var top := HighestExists(g);
      assert top in rs && top.body.agent == agent && StateOf(c, rs, top) == Current;
    }
  }

  lemma UpToGrows(ns: set<nat>, low: nat, high: nat)
    requires low in ns && high in ns
    ensures low < high ==> |UpTo(ns, low)| < |UpTo(ns, high)|
    ensures 1 <= |UpTo(ns, low)| <= |ns|
  {
    if low < high {
      Smaller(UpTo(ns, low) + {high}, UpTo(ns, high));
    }
    Smaller({low}, UpTo(ns, low));
    Smaller(UpTo(ns, low), ns);
  }

  lemma {:induction false} Smaller<T>(a: set<T>, b: set<T>)
    requires a <= b
    ensures |a| <= |b|
  {
    if a != {} {
      var x :| x in a;
      Smaller(a - {x}, b - {x});
    }
  }

  /** The successor of a superseded record is current, has the same agent and root, and ranks strictly higher. */
  lemma SuccessorIsCurrent(c: Context, records: seq<Record>, r: Record)
    requires r in records && StateOf(c, Elements(records), r) == Superseded
    ensures SuccessorOf(c, records, r).Some?
    ensures var q := SuccessorOf(c, records, r).value;
            && q in records && StateOf(c, Elements(records), q) == Current
            && q.body.agent == r.body.agent && q.body.root == r.body.root
            && q.body.nonce > r.body.nonce
            && RankOf(c, Elements(records), q).Some? && RankOf(c, Elements(records), r).Some?
            && RankOf(c, Elements(records), q).value > RankOf(c, Elements(records), r).value
  {
    var rs := Elements(records);
    var g := Group(c, rs, r.body.agent);
    assert r in g;
    var top := HighestExists(g);
    assert top in records;
    var q := FirstHighest(g, records).value;
    assert q in g && r.body.nonce < q.body.nonce;
    assert r.body.nonce in Nonces(g) && q.body.nonce in Nonces(g);
    UpToGrows(Nonces(g), r.body.nonce, q.body.nonce);
  }
}
