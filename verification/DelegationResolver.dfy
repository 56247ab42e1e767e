/** The resolver itself: classify every distinct record, then settle each agent's group in place. */
module DelegationResolver {
  import opened Prelude
  import opened Delegation
  import opened DelegationResult
  import opened DelegationMeaning

  /** A record as first parsed, before its group is settled. */
  function Fresh(c: Context, r: Record): Entry {
    Entry(r, r.body.agent, r.body.root, Classify(c, r), r.body.root in c.roots, c.verify(r), None, None)
  }

  lemma {:induction false} MaxExists(ns: set<nat>)
    requires ns != {}
    ensures exists m :: m in ns && forall n | n in ns :: n <= m
  {
    var x :| x in ns;
    var rest := ns - {x};
    if rest == {} {
      assert ns == {x};
    } else {
      MaxExists(rest);
      var m :| m in rest && forall n | n in rest :: n <= m;
      var top := if m < x then x else m;
      assert forall n | n in ns :: n == x || n in rest;
      assert top in ns && forall n | n in ns :: n <= top;
    }
  }

  function Sorted(ns: set<nat>): (ordered: seq<nat>)
    ensures forall i, j | 0 <= i < j < |ordered| :: ordered[i] < ordered[j]
    ensures forall n :: n in ordered <==> n in ns
  {
    if ns == {} then []
    else
      MaxExists(ns);
      var m :| m in ns && forall n | n in ns :: n <= m;
      Sorted(ns - {m}) + [m]
  }

  lemma LeastAlone(ordered: seq<nat>, ns: set<nat>)
    requires forall k, l | 0 <= k < l < |ordered| :: ordered[k] < ordered[l]
    requires forall n :: n in ordered <==> n in ns
    requires ordered != []
    ensures |UpTo(ns, ordered[0])| == 1
  {
    forall n | n in UpTo(ns, ordered[0])
      ensures n == ordered[0]
    {
      var k :| 0 <= k < |ordered| && ordered[k] == n;
    }
    assert ordered[0] in ordered;
    assert UpTo(ns, ordered[0]) == {ordered[0]};
  }

  /** Position in the sorted list is the number of members up to that value. */
  lemma {:induction false} PositionCounts(ordered: seq<nat>, ns: set<nat>, i: nat)
    requires forall k, l | 0 <= k < l < |ordered| :: ordered[k] < ordered[l]
    requires forall n :: n in ordered <==> n in ns
    requires i < |ordered|
    ensures |UpTo(ns, ordered[i])| == i + 1
  {
    if i == 0 {
      LeastAlone(ordered, ns);
    } else {
      hide UpTo;
      PositionCounts(ordered, ns, i - 1);
      UpToNext(ordered, ns, i);
    }
  }

  lemma UpToNext(ordered: seq<nat>, ns: set<nat>, i: nat)
    requires forall k, l | 0 <= k < l < |ordered| :: ordered[k] < ordered[l]
    requires forall n :: n in ordered <==> n in ns
    requires 0 < i < |ordered|
    ensures UpTo(ns, ordered[i]) == UpTo(ns, ordered[i - 1]) + {ordered[i]}
    ensures ordered[i] !in UpTo(ns, ordered[i - 1])
  {
    forall n | n in UpTo(ns, ordered[i])
      ensures n in UpTo(ns, ordered[i - 1]) + {ordered[i]}
    {
      var k :| 0 <= k < |ordered| && ordered[k] == n;
      assert k <= i;
    }
  }

  lemma MoreThanOne<T>(s: set<T>)
    ensures |s| > 1 <==> exists x, y | x in s && y in s :: x != y
  {
    if |s| > 1 {
      var x :| x in s;
      assert |s - {x}| > 0;
      var y :| y in s - {x};
      assert x in s && y in s && x != y;
    } else if x, y :| x in s && y in s && x != y {
      Smaller({x, y}, s);
    }
  }

  /** The group an index list stands for. */
  predicate Lists(c: Context, records: seq<Record>, agent: string, group: seq<nat>) {
    && (forall k | 0 <= k < |group| :: group[k] < |records|)
    && (forall i | 0 <= i < |records| ::
          i in group <==> records[i].body.agent == agent && Classify(c, records[i]) == Current)
    && (forall k, l | 0 <= k < l < |group| :: group[k] < group[l])
  }

  function Members(records: seq<Record>, group: seq<nat>): set<Record>
    requires forall k | 0 <= k < |group| :: group[k] < |records|
  {
    set k | 0 <= k < |group| :: records[group[k]]
  }

  lemma MembersAreGroup(c: Context, records: seq<Record>, agent: string, group: seq<nat>)
    requires Lists(c, records, agent, group)
    ensures Members(records, group) == Group(c, Elements(records), agent)
  {
    forall r | r in Group(c, Elements(records), agent)
      ensures r in Members(records, group)
    {
      var i :| 0 <= i < |records| && records[i] == r;
      assert i in group;
    }
  }

  function Roots(g: set<Record>): set<string> {
    set r | r in g :: r.body.root
  }

  function TopBodies(g: set<Record>): set<Body> {
    set r | r in g && Highest(g, r) :: r.body
  }

  lemma RootsDiffer(g: set<Record>)
    ensures |Roots(g)| > 1 <==> !RootsAgree(g)
  {
    MoreThanOne(Roots(g));
    if !RootsAgree(g) {
      var p, q :| p in g && q in g && p.body.root != q.body.root;
      assert p.body.root in Roots(g) && q.body.root in Roots(g);
    }
  }

  lemma BodiesDiffer(g: set<Record>)
    ensures |TopBodies(g)| > 1 <==> !TopsAgree(g)
  {
    MoreThanOne(TopBodies(g));
    if !TopsAgree(g) {
      var p, q :| p in g && q in g && Highest(g, p) && Highest(g, q) && p.body != q.body;
      assert p.body in TopBodies(g) && q.body in TopBodies(g);
    }
  }

  /** The entries with every group member replaced by its outcome, up to position k of the group. */
  predicate Progress(before: seq<Entry>, after: seq<Entry>, group: seq<nat>, k: nat, out: seq<Entry>) {
    && k <= |group| && |out| == |before| == |after|
    && forall i | 0 <= i < |before| :: out[i] == if i in group[..k] then after[i] else before[i]
  }

  lemma ProgressStep(before: seq<Entry>, after: seq<Entry>, group: seq<nat>, k: nat, out: seq<Entry>)
    requires Progress(before, after, group, k, out) && k < |group| && group[k] < |before|
    ensures Progress(before, after, group, k + 1, out[group[k] := after[group[k]]])
  {
    assert group[..k + 1] == group[..k] + [group[k]];
  }

  lemma NotYet(group: seq<nat>, k: nat)
    requires k < |group|
    requires forall a, b | 0 <= a < b < |group| :: group[a] < group[b]
    ensures group[k] !in group[..k]
  {
  }

  /** The indices of a group whose nonce is the given one, in order. */
  function WithNonce(parsed: seq<Entry>, group: seq<nat>, nonce: nat): (top: seq<nat>)
    requires forall k | 0 <= k < |group| :: group[k] < |parsed|
    ensures forall k | 0 <= k < |top| :: top[k] < |parsed|
  {
    if group == [] then []
    else
      var rest := WithNonce(parsed, group[1..], nonce);
      if parsed[group[0]].id.body.nonce == nonce then [group[0]] + rest else rest
  }

  lemma {:induction false} WithNonceMembers(parsed: seq<Entry>, group: seq<nat>, nonce: nat)
    requires forall k | 0 <= k < |group| :: group[k] < |parsed|
    ensures forall i :: i in WithNonce(parsed, group, nonce) <==> i in group && parsed[i].id.body.nonce == nonce
  {
    if group != [] {
      WithNonceMembers(parsed, group[1..], nonce);
      assert group == [group[0]] + group[1..];
    }
  }

  lemma {:induction false} WithNonceFirst(parsed: seq<Entry>, group: seq<nat>, nonce: nat) returns (k: nat)
    requires forall k | 0 <= k < |group| :: group[k] < |parsed|
    requires WithNonce(parsed, group, nonce) != []
    ensures k < |group| && group[k] == WithNonce(parsed, group, nonce)[0]
    ensures parsed[group[k]].id.body.nonce == nonce
    ensures forall l | 0 <= l < k :: parsed[group[l]].id.body.nonce != nonce
  {
    if parsed[group[0]].id.body.nonce == nonce {
      k := 0;
    } else {
      var rest := WithNonceFirst(parsed, group[1..], nonce);
      k := rest + 1;
    }
  }

  lemma {:induction false} FirstHighestAt(g: set<Record>, records: seq<Record>, i: nat)
    requires i < |records| && Highest(g, records[i])
    requires forall j | 0 <= j < i :: !Highest(g, records[j])
    ensures FirstHighest(g, records) == Some(records[i])
  {
    if i > 0 {
      FirstHighestAt(g, records[1..], i - 1);
    }
  }

  predicate Indexes(parsed: seq<Entry>, group: seq<nat>) {
    && (forall k | 0 <= k < |group| :: group[k] < |parsed|)
    && forall a, b | 0 <= a < b < |group| :: group[a] < group[b]
  }

  method MarkConflict(parsed: seq<Entry>, group: seq<nat>) returns (out: seq<Entry>)
    requires Indexes(parsed, group)
    ensures |out| == |parsed|
    ensures forall i | 0 <= i < |parsed| ::
              out[i] == if i in group then parsed[i].(state := Conflict, rank := None) else parsed[i]
  {
    out := parsed;
    ghost var after := seq(|parsed|, i requires 0 <= i < |parsed| => parsed[i].(state := Conflict, rank := None));
    for k := 0 to |group|
      invariant Progress(parsed, after, group, k, out)
    {
      NotYet(group, k);
      ProgressStep(parsed, after, group, k, out);
      out := out[group[k] := out[group[k]].(state := Conflict, rank := None)];
    }
    assert group[..|group|] == group;
  }

  /** Ranks by position in the sorted list of distinct nonces. */
  method RankGroup(parsed: seq<Entry>, group: seq<nat>, ordered: seq<nat>, ghost nonces: set<nat>)
    returns (out: seq<Entry>)
    requires Indexes(parsed, group)
    requires forall a, b | 0 <= a < b < |ordered| :: ordered[a] < ordered[b]
    requires forall n :: n in ordered <==> n in nonces
    requires forall k | 0 <= k < |group| :: parsed[group[k]].id.body.nonce in nonces
    ensures |out| == |parsed|
    ensures forall i | 0 <= i < |parsed| ::
              out[i] ==
                if i in group then parsed[i].(rank := Some(|UpTo(nonces, parsed[i].id.body.nonce)|)) else parsed[i]
  {
    hide UpTo;
    var ranks := map i | 0 <= i < |ordered| :: ordered[i] := i + 1;
    out := parsed;
    ghost var after := seq(|parsed|, i requires 0 <= i < |parsed| =>
      parsed[i].(rank := Some(|UpTo(nonces, parsed[i].id.body.nonce)|)));
    for k := 0 to |group|
      invariant Progress(parsed, after, group, k, out)
    {
      NotYet(group, k);
      ProgressStep(parsed, after, group, k, out);
      var nonce := parsed[group[k]].id.body.nonce;
      assert nonce in ordered;
      ghost var position :| 0 <= position < |ordered| && ordered[position] == nonce;
      PositionCounts(ordered, nonces, position);
      out := out[group[k] := out[group[k]].(rank := Some(ranks[nonce]))];
    }
    assert group[..|group|] == group;
  }

  method SupersedeBelow(parsed: seq<Entry>, group: seq<nat>, highest: nat, winner: Record) returns (out: seq<Entry>)
    requires Indexes(parsed, group)
    ensures |out| == |parsed|
    ensures forall i | 0 <= i < |parsed| ::
              out[i] == if i in group && parsed[i].id.body.nonce < highest
                        then parsed[i].(state := Superseded, supersededBy := Some(winner)) else parsed[i]
  {
    out := parsed;
    ghost var after := seq(|parsed|, i requires 0 <= i < |parsed| =>
      if parsed[i].id.body.nonce < highest then parsed[i].(state := Superseded, supersededBy := Some(winner))
      else parsed[i]);
    for k := 0 to |group|
      invariant Progress(parsed, after, group, k, out)
    {
      NotYet(group, k);
      ProgressStep(parsed, after, group, k, out);
      if parsed[group[k]].id.body.nonce < highest {
        out := out[group[k] := out[group[k]].(state := Superseded, supersededBy := Some(winner))];
      } else {
        assert out[group[k] := after[group[k]]] == out;
      }
    }
    assert group[..|group|] == group;
  }

  lemma ConflictEntry(c: Context, records: seq<Record>, r: Record)
    requires r in records && Classify(c, r) == Current
    requires !Settled(Group(c, Elements(records), r.body.agent))
    ensures EntryOf(c, records, r) == Fresh(c, r).(state := Conflict, rank := None)
  {
  }

  /** Largest nonce of the group. */
  predicate IsTop(g: set<Record>, highest: nat) {
    (exists r | r in g :: r.body.nonce == highest) && forall r | r in g :: r.body.nonce <= highest
  }

  lemma SettledEntry(c: Context, records: seq<Record>, r: Record, winner: Record)
    requires r in records && Classify(c, r) == Current
    requires Settled(Group(c, Elements(records), r.body.agent))
    requires FirstHighest(Group(c, Elements(records), r.body.agent), records) == Some(winner)
    ensures var g := Group(c, Elements(records), r.body.agent);
            var ranked := Fresh(c, r).(rank := Some(|UpTo(Nonces(g), r.body.nonce)|));
            EntryOf(c, records, r) == if r.body.nonce < winner.body.nonce
                                      then ranked.(state := Superseded, supersededBy := Some(winner)) else ranked
  {
    var g := Group(c, Elements(records), r.body.agent);
    assert r in g && Highest(g, winner);
  }

  lemma HighestAreTop(g: set<Record>, highest: nat)
    requires IsTop(g, highest)
    ensures forall r :: Highest(g, r) <==> r in g && r.body.nonce == highest
  {
    var top :| top in g && top.body.nonce == highest;
    assert Highest(g, top);
  }

  lemma LastIsTop(g: set<Record>, ordered: seq<nat>)
    requires g != {}
    requires forall a, b | 0 <= a < b < |ordered| :: ordered[a] < ordered[b]
    requires forall n :: n in ordered <==> n in Nonces(g)
    ensures ordered != [] && IsTop(g, ordered[|ordered| - 1])
  {
    var r :| r in g;
    assert r.body.nonce in Nonces(g);
    forall q | q in g
      ensures q.body.nonce <= ordered[|ordered| - 1]
    {
      assert q.body.nonce in Nonces(g);
    }
    assert ordered[|ordered| - 1] in Nonces(g);
  }

  /** The first group member with the highest nonce is the first record with it. */
  lemma WinnerIsFirst(c: Context, records: seq<Record>, agent: string, group: seq<nat>, highest: nat, k: nat)
    requires Lists(c, records, agent, group) && k < |group|
    requires IsTop(Group(c, Elements(records), agent), highest)
    requires records[group[k]].body.nonce == highest
    requires forall l | 0 <= l < k :: records[group[l]].body.nonce != highest
    ensures FirstHighest(Group(c, Elements(records), agent), records) == Some(records[group[k]])
  {
    var g := Group(c, Elements(records), agent);
    HighestAreTop(g, highest);
    assert group[k] in group;
    forall j | 0 <= j < group[k]
      ensures !Highest(g, records[j])
    {
      if Highest(g, records[j]) {
        assert j in group;
        var l :| 0 <= l < |group| && group[l] == j;
      }
    }
    FirstHighestAt(g, records, group[k]);
  }

  lemma TopIdentities(parsed: seq<Entry>, group: seq<nat>, records: seq<Record>, g: set<Record>, highest: nat)
    requires |parsed| == |records|
    requires forall i | 0 <= i < |records| :: parsed[i].id == records[i]
    requires forall k | 0 <= k < |group| :: group[k] < |parsed|
    requires g == Members(records, group) && IsTop(g, highest)
    ensures WithNonce(parsed, group, highest) != []
    ensures BodiesAt(parsed, WithNonce(parsed, group, highest)) == TopBodies(g)
  {
    var top := WithNonce(parsed, group, highest);
    HighestAreTop(g, highest);
    WithNonceMembers(parsed, group, highest);
    hide Highest, WithNonce, Members, IsTop;
    assert IsTop(g, highest);
    forall r | r in g && Highest(g, r)
      ensures exists k :: 0 <= k < |top| && parsed[top[k]].id == r
    {
      var i := IndexOfMember(records, group, r);
      assert i in top;
    }
    forall k | 0 <= k < |top|
      ensures parsed[top[k]].id in g && Highest(g, parsed[top[k]].id)
    {
      assert top[k] in top;
      MemberAt(records, group, top[k]);
    }
    var best := TopExists(g, highest);
  }

  function BodiesAt(parsed: seq<Entry>, top: seq<nat>): set<Body>
    requires forall k | 0 <= k < |top| :: top[k] < |parsed|
  {
    set k | 0 <= k < |top| :: parsed[top[k]].id.body
  }

  lemma IndexOfMember(records: seq<Record>, group: seq<nat>, r: Record) returns (i: nat)
    requires forall k | 0 <= k < |group| :: group[k] < |records|
    requires r in Members(records, group)
    ensures i in group && i < |records| && records[i] == r
  {
    var k :| 0 <= k < |group| && records[group[k]] == r;
    i := group[k];
  }

  lemma MemberAt(records: seq<Record>, group: seq<nat>, i: nat)
    requires forall k | 0 <= k < |group| :: group[k] < |records|
    requires i in group
    ensures i < |records| && records[i] in Members(records, group)
  {
    var k :| 0 <= k < |group| && group[k] == i;
  }

  lemma TopExists(g: set<Record>, highest: nat) returns (best: Record)
    requires IsTop(g, highest)
    ensures best in g && Highest(g, best)
  {
    best :| best in g && best.body.nonce == highest;
  }

  lemma TopOfGroup(parsed: seq<Entry>, group: seq<nat>, c: Context, records: seq<Record>, agent: string, highest: nat)
    requires |parsed| == |records| && Lists(c, records, agent, group)
    requires forall i | 0 <= i < |records| :: parsed[i].id == records[i]
    requires IsTop(Group(c, Elements(records), agent), highest)
    ensures var g, top := Group(c, Elements(records), agent), WithNonce(parsed, group, highest);
            && top != []
            && BodiesAt(parsed, top) == TopBodies(g)
            && FirstHighest(g, records) == Some(parsed[top[0]].id)
            && parsed[top[0]].id.body.nonce == highest
  {
    hide Classify, IsTop, FirstHighest, TopBodies, WithNonce;
    var g, top := Group(c, Elements(records), agent), WithNonce(parsed, group, highest);
    MembersAreGroup(c, records, agent, group);
    TopIdentities(parsed, group, records, g, highest);
    var k := WithNonceFirst(parsed, group, highest);
    WinnerIsFirst(c, records, agent, group, highest, k);
  }

  lemma AllConflict(parsed: seq<Entry>, out: seq<Entry>, group: seq<nat>, c: Context, records: seq<Record>,
                    agent: string)
    requires |parsed| == |records| && group != [] && Lists(c, records, agent, group)
    requires forall i | 0 <= i < |records| :: parsed[i].id == records[i]
    requires forall k | 0 <= k < |group| :: parsed[group[k]] == Fresh(c, records[group[k]])
    requires !Settled(Group(c, Elements(records), agent))
    requires |out| == |parsed|
    requires forall i | 0 <= i < |parsed| && i in group :: out[i] == parsed[i].(state := Conflict, rank := None)
    ensures forall i | 0 <= i < |parsed| && i in group :: out[i] == EntryOf(c, records, records[i])
  {
    hide Settled, Classify, EntryOf;
    forall i | 0 <= i < |parsed| && i in group
      ensures out[i] == EntryOf(c, records, records[i])
    {
      ConflictEntry(c, records, records[i]);
    }
  }

  lemma AllSettled(parsed: seq<Entry>, out: seq<Entry>, group: seq<nat>, c: Context, records: seq<Record>,
                   agent: string, winner: Record)
    requires |parsed| == |records| && group != [] && Lists(c, records, agent, group)
    requires forall i | 0 <= i < |records| :: parsed[i].id == records[i]
    requires forall k | 0 <= k < |group| :: parsed[group[k]] == Fresh(c, records[group[k]])
    requires Settled(Group(c, Elements(records), agent))
    requires FirstHighest(Group(c, Elements(records), agent), records) == Some(winner)
    requires |out| == |parsed|
    requires forall i | 0 <= i < |parsed| && i in group ::
               var nonces := Nonces(Group(c, Elements(records), agent));
               var ranked := parsed[i].(rank := Some(|UpTo(nonces, records[i].body.nonce)|));
               out[i] == if records[i].body.nonce < winner.body.nonce
                         then ranked.(state := Superseded, supersededBy := Some(winner)) else ranked
    ensures forall i | 0 <= i < |parsed| && i in group :: out[i] == EntryOf(c, records, records[i])
  {
    hide Settled, Classify, EntryOf, FirstHighest, UpTo, Group;
    forall i | 0 <= i < |parsed| && i in group
      ensures out[i] == EntryOf(c, records, records[i])
    {
      SettledEntry(c, records, records[i], winner);
    }
  }

  function NoncesAt(parsed: seq<Entry>, group: seq<nat>): set<nat>
    requires forall k | 0 <= k < |group| :: group[k] < |parsed|
  {
    set k | 0 <= k < |group| :: parsed[group[k]].id.body.nonce
  }

  lemma NoncesOfGroup(parsed: seq<Entry>, group: seq<nat>, records: seq<Record>, g: set<Record>)
    requires |parsed| == |records|
    requires forall i | 0 <= i < |records| :: parsed[i].id == records[i]
    requires forall k | 0 <= k < |group| :: group[k] < |parsed|
    requires g == Members(records, group) && group != []
    ensures NoncesAt(parsed, group) == Nonces(g) && g != {}
    ensures forall k | 0 <= k < |group| :: parsed[group[k]].id.body.nonce in Nonces(g)
  {
    hide Members;
    forall k | 0 <= k < |group|
      ensures parsed[group[k]].id in g
    {
      assert group[k] in group;
      MemberAt(records, group, group[k]);
    }
    forall r | r in g
      ensures exists k :: 0 <= k < |group| && parsed[group[k]].id == r
    {
      var i := IndexOfMember(records, group, r);
    }
    assert parsed[group[0]].id in g;
    NonceOfMember(g);
  }

  lemma NonceOfMember(g: set<Record>)
    ensures forall r | r in g :: r.body.nonce in Nonces(g)
  {
  }

  /** One agent's group once its roots agree: ranks, then a conflict between bodies or supersession. */
  method SettleRooted(parsed: seq<Entry>, group: seq<nat>, ghost c: Context, ghost records: seq<Record>,
                      ghost agent: string)
    returns (out: seq<Entry>)
    requires |parsed| == |records| && group != [] && Lists(c, records, agent, group)
    requires forall i | 0 <= i < |records| :: parsed[i].id == records[i]
    requires forall k | 0 <= k < |group| :: parsed[group[k]] == Fresh(c, records[group[k]])
    requires RootsAgree(Group(c, Elements(records), agent))
    ensures |out| == |parsed|
    ensures forall i | 0 <= i < |parsed| ::
              out[i] == if i in group then EntryOf(c, records, records[i]) else parsed[i]
  {
    hide EntryOf, RootsAgree, TopsAgree, UpTo, FirstHighest, WithNonce, IsTop, TopBodies, Group, Classify;
    hide NoncesAt, Nonces, Members, Sorted, BodiesAt, Elements, SuccessorOf, RankOf, StateOf;
    ghost var g := Group(c, Elements(records), agent);
    MembersAreGroup(c, records, agent, group);
    BodiesDiffer(g);
    NoncesOfGroup(parsed, group, records, g);
    var nonces := NoncesAt(parsed, group);
    var ordered := Sorted(nonces);
    var ranked := RankGroup(parsed, group, ordered, nonces);
    LastIsTop(g, ordered);
    var highest := ordered[|ordered| - 1];
    TopOfGroup(ranked, group, c, records, agent, highest);
    var top := WithNonce(ranked, group, highest);
    var identities := BodiesAt(ranked, top);
    if |identities| > 1 {
      out := MarkConflict(ranked, group);
      AllConflict(parsed, out, group, c, records, agent);
    } else {
      var winner := ranked[top[0]].id;
      out := SupersedeBelow(ranked, group, highest, winner);
      AllSettled(parsed, out, group, c, records, agent, winner);
    }
  }

  /** The body of the loop over agents. */
  method Settle(parsed: seq<Entry>, group: seq<nat>, ghost c: Context, ghost records: seq<Record>, ghost agent: string)
    returns (out: seq<Entry>)
    requires |parsed| == |records| && group != [] && Lists(c, records, agent, group)
    requires forall i | 0 <= i < |records| :: parsed[i].id == records[i]
    requires forall k | 0 <= k < |group| :: parsed[group[k]] == Fresh(c, records[group[k]])
    ensures |out| == |parsed|
    ensures forall i | 0 <= i < |parsed| ::
              out[i] == if i in group then EntryOf(c, records, records[i]) else parsed[i]
  {
    hide Classify, EntryOf, Highest, RootsAgree, TopsAgree, UpTo, FirstHighest;
    ghost var g := Group(c, Elements(records), agent);
    MembersAreGroup(c, records, agent, group);
    RootsDiffer(g);
    var roots := set k | 0 <= k < |group| :: parsed[group[k]].rootId;
    assert roots == Roots(g);
    if |roots| > 1 {
      out := MarkConflict(parsed, group);
      AllConflict(parsed, out, group, c, records, agent);
    } else {
      out := SettleRooted(parsed, group, c, records, agent);
    }
  }

  lemma OutsiderIsFinal(c: Context, records: seq<Record>, r: Record)
    requires Classify(c, r) != Current
    ensures Fresh(c, r) == EntryOf(c, records, r)
  {
  }

  /** Indices below n of the valid records of an agent, in order. */
  function Select(parsed: seq<Entry>, agent: string, n: nat): (group: seq<nat>)
    requires n <= |parsed|
    ensures forall k | 0 <= k < |group| :: group[k] < n
    ensures forall k, l | 0 <= k < l < |group| :: group[k] < group[l]
    ensures forall i | 0 <= i < n :: i in group <==> parsed[i].agentId == agent && parsed[i].state == Current
  {
    if n == 0 then []
    else
      var front := Select(parsed, agent, n - 1);
      if parsed[n - 1].agentId == agent && parsed[n - 1].state == Current then front + [n - 1] else front
  }

  /** The entries parsed from records are fresh entries of the distinct ones. */
  predicate Parsed(c: Context, records: seq<Record>, parsed: seq<Entry>) {
    |parsed| == |Distinct(records)| && forall i | 0 <= i < |parsed| :: parsed[i] == Fresh(c, Distinct(records)[i])
  }

  lemma ParsedNext(c: Context, records: seq<Record>, parsed: seq<Entry>, r: Record)
    requires Parsed(c, records, parsed)
    ensures Parsed(c, records + [r], if r in Distinct(records) then parsed else parsed + [Fresh(c, r)])
    ensures forall q :: q in Distinct(records + [r]) <==> q in Distinct(records) || q == r
  {
    assert (records + [r])[..|records|] == records;
    hide Fresh;
  }

  /** Classifies one record as the loop does: three tests, each overriding the default. */
  method ParseOne(r: Record, c: Context) returns (e: Entry)
    ensures e == Fresh(c, r)
  {
    var rootOk := r.body.root in c.roots;
    var signatureOk := c.verify(r);
    var state := Forged;
    if signatureOk && !rootOk {
      state := RootUnverified;
    } else if signatureOk && r.body.expires <= c.now {
      state := Expired;
    } else if signatureOk && rootOk {
      state := Current;
    }
    e := Entry(r, r.body.agent, r.body.root, state, rootOk, signatureOk, None, None);
  }

  /** The first loop: refuse a malformed record, skip an exact duplicate, classify the rest. */
  method Parse(items: seq<Item>, c: Context) returns (ok: bool, parsed: seq<Entry>)
    ensures ok <==> forall i | 0 <= i < |items| :: Acceptable(items[i])
    ensures ok ==> Parsed(c, RecordsOf(items), parsed)
  {
    hide Distinct, Parsed, Fresh;
    parsed := [];
    var seen: set<Record> := {};
    NothingParsed(c);
    for n := 0 to |items|
      invariant forall i | 0 <= i < n :: Acceptable(items[i])
      invariant forall r :: r in seen <==> r in Distinct(RecordsOf(items[..n]))
      invariant Parsed(c, RecordsOf(items[..n]), parsed)
    {
      if !Acceptable(items[n]) { return false, []; }
      var r := items[n].record;
      RecordsOfNext(items, n);
      ParsedNext(c, RecordsOf(items[..n]), parsed, r);
      if r !in seen {
        seen := seen + {r};
        var entry := ParseOne(r, c);
        parsed := parsed + [entry];
      }
    }
    assert items[..|items|] == items;
    ok := true;
  }

  lemma NothingParsed(c: Context)
    ensures Parsed(c, [], []) && Distinct([]) == []
  {
  }

  lemma RecordsOfNext(items: seq<Item>, n: nat)
    requires n < |items| && forall i | 0 <= i <= n :: Acceptable(items[i])
    ensures RecordsOf(items[..n + 1]) == RecordsOf(items[..n]) + [items[n].record]
  {
  }

  predicate HasValid(initial: seq<Entry>, agent: string) {
    exists i | 0 <= i < |initial| :: initial[i].state == Current && initial[i].agentId == agent
  }

  function ValidAgents(initial: seq<Entry>): (agents: set<string>)
    ensures forall agent :: agent in agents <==> HasValid(initial, agent)
  {
    set i | 0 <= i < |initial| && initial[i].state == Current :: initial[i].agentId
  }

  lemma OthersAreFinal(initial: seq<Entry>, c: Context, records: seq<Record>)
    requires |initial| == |records|
    requires forall i | 0 <= i < |initial| :: initial[i] == Fresh(c, records[i])
    ensures forall i | 0 <= i < |initial| && !HasValid(initial, records[i].body.agent) ::
              initial[i] == EntryOf(c, records, records[i])
  {
    hide EntryOf;
    forall i | 0 <= i < |initial| && !HasValid(initial, records[i].body.agent)
      ensures initial[i] == EntryOf(c, records, records[i])
    {
      assert initial[i].state != Current;
      OutsiderIsFinal(c, records, records[i]);
    }
  }

  /** The second loop: settle the agents with valid records, in any order. */
  method SettleAgents(initial: seq<Entry>, ghost c: Context, ghost records: seq<Record>) returns (parsed: seq<Entry>)
    requires |initial| == |records|
    requires forall i | 0 <= i < |initial| :: initial[i] == Fresh(c, records[i])
    ensures parsed == Entries(c, records)
  {
    hide EntryOf, Classify, HasValid, ValidAgents;
    parsed := initial;
    var pending := ValidAgents(initial);
    OthersAreFinal(initial, c, records);
    while pending != {}
      invariant |parsed| == |records|
      invariant forall i | 0 <= i < |parsed| ::
                  parsed[i] == if records[i].body.agent in pending then initial[i] else EntryOf(c, records, records[i])
      invariant forall agent | agent in pending :: HasValid(initial, agent)
    {
      var agent :| agent in pending;
      var group := Select(initial, agent, |initial|);
      parsed := SettleNext(initial, parsed, group, c, records, agent);
      pending := pending - {agent};
    }
  }

  method SettleNext(initial: seq<Entry>, parsed: seq<Entry>, group: seq<nat>,
                    ghost c: Context, ghost records: seq<Record>, ghost agent: string)
    returns (out: seq<Entry>)
    requires |initial| == |parsed| == |records|
    requires forall i | 0 <= i < |initial| :: initial[i] == Fresh(c, records[i])
    requires group == Select(initial, agent, |initial|)
    requires HasValid(initial, agent)
    requires forall i | 0 <= i < |parsed| && records[i].body.agent == agent :: parsed[i] == initial[i]
    requires forall i | 0 <= i < |parsed| ::
               parsed[i] == initial[i] || parsed[i] == EntryOf(c, records, records[i])
    ensures |out| == |parsed|
    ensures forall i | 0 <= i < |parsed| ::
              out[i] == if records[i].body.agent == agent then EntryOf(c, records, records[i]) else parsed[i]
  {
    hide EntryOf, Classify;
    assert Lists(c, records, agent, group);
    forall i | 0 <= i < |parsed|
      ensures parsed[i].id == records[i]
    {
      EntryId(c, records, records[i]);
    }
    out := Settle(parsed, group, c, records, agent);
    forall i | 0 <= i < |parsed| && records[i].body.agent == agent && i !in group
      ensures out[i] == EntryOf(c, records, records[i])
    {
      OutsiderIsFinal(c, records, records[i]);
    }
  }

  lemma EntryId(c: Context, records: seq<Record>, r: Record)
    ensures EntryOf(c, records, r).id == r
  {
  }

  /** The whole resolution equals its specification, whatever order the agents are settled in. */
  method Resolve(inputs: Inputs) returns (p: Projection)
    ensures p == Resolved(inputs) && Answers(inputs, p)
  {
    hide Answers;
    ResolvedAnswers(inputs);
    match inputs
    case WrongType => p := Stopped(InputType);
    case TooLarge => p := Stopped(InputLimit);
    case Unreadable => p := Stopped(ArtifactSchema);
    case Readable(items, c) =>
      if |items| > MAX_RECORDS { return Stopped(ArtifactSchema); }
      var ok, initial := Parse(items, c);
      if !ok { return Stopped(ArtifactSchema); }
      var parsed := SettleAgents(initial, c, Distinct(RecordsOf(items)));
      p := Summary(parsed);
  }
}
