/**
  The observatory's note rows as a function of the whole poll history. `RowOf` recomputes a row from every
  successful poll of its namespace; `Step` is what one more poll does to it; `StepIsRecomputation` says that
  the two agree, so the incremental table never drifts from its history.
 */
module KvHistory {
  import opened Prelude

  datatype Existence = Observed | Unchanged | Changed | Disappeared | Reappeared

  datatype Row = Row(
    firstSeen: string, lastObserved: string, lastChanged: string, digest: string, previous: Option<string>,
    count: nat, state: Existence)

  /** One successful poll of a namespace: the digest of every listed key. */
  datatype Poll = Poll(at: string, hashes: map<string, string>)

  /** A key as one poll saw it. */
  datatype Sighting = Sighting(at: string, digest: string)

  function Sightings(polls: seq<Poll>, key: string): seq<Sighting> {
    if polls == [] then []
    else
      var last := polls[|polls| - 1];
      var front := Sightings(polls[..|polls| - 1], key);
      if key in last.hashes then front + [Sighting(last.at, last.hashes[key])] else front
  }

  /** Number of polls since the key was first seen, that poll included. */
  function SinceFirst(polls: seq<Poll>, key: string): (n: nat)
    ensures n <= |polls|
  {
    if polls == [] then 0
    else
      var front := SinceFirst(polls[..|polls| - 1], key);
      if front > 0 then front + 1 else if key in polls[|polls| - 1].hashes then 1 else 0
  }

  /** The count is what its name says: it starts at the first poll that listed the key. */
  lemma {:induction false} SinceFirstCounts(polls: seq<Poll>, key: string)
    ensures var n := SinceFirst(polls, key);
            if n == 0 then forall i | 0 <= i < |polls| :: key !in polls[i].hashes
            else key in polls[|polls| - n].hashes && forall i | 0 <= i < |polls| - n :: key !in polls[i].hashes
  {
    if polls != [] { SinceFirstCounts(polls[..|polls| - 1], key); }
  }

  /** Where the last run of equal digests starts: the sighting that was the last change. */
  function RunStart(s: seq<Sighting>): (c: nat)
    requires s != []
    ensures c < |s|
    ensures forall i | c <= i < |s| :: s[i].digest == s[c].digest
    ensures c > 0 ==> s[c - 1].digest != s[c].digest
  {
    if |s| == 1 then 0
    else
      var front := RunStart(s[..|s| - 1]);
      if s[|s| - 2].digest == s[|s| - 1].digest then front else |s| - 1
  }

  predicate SeenIn(poll: Poll, key: string) {
    key in poll.hashes
  }

  /** The existence state as the last two polls and the first sighting determine it. */
  function ExistenceOf(polls: seq<Poll>, key: string): Existence
    requires polls != []
  {
    var last := |polls| - 1;
    if !SeenIn(polls[last], key) then Disappeared
    else if SinceFirst(polls, key) == 1 then Observed
    else if last == 0 || !SeenIn(polls[last - 1], key) then Reappeared
    else if polls[last - 1].hashes[key] != polls[last].hashes[key] then Changed
    else Unchanged
  }

  /** The row of a key, recomputed from the whole history of its namespace. */
  function RowOf(polls: seq<Poll>, key: string): Option<Row> {
    var s := Sightings(polls, key);
    if s == [] || polls == [] then None
    else
      var change := RunStart(s);
      Some(Row(
        s[0].at, polls[|polls| - 1].at, s[change].at, s[|s| - 1].digest,
        if change == 0 then None else Some(s[change - 1].digest),
        SinceFirst(polls, key), ExistenceOf(polls, key)))
  }

  /** What one successful poll does to a row. */
  function Step(row: Option<Row>, poll: Poll, key: string): Option<Row> {
    if key in poll.hashes then
      var digest := poll.hashes[key];
      match row
      case None => Some(Row(poll.at, poll.at, poll.at, digest, None, 1, Observed))
      case Some(r) =>
        var changed := r.digest != digest;
        Some(Row(
          r.firstSeen, poll.at, if changed then poll.at else r.lastChanged, digest,
          if changed then Some(r.digest) else r.previous, r.count + 1,
          if r.state == Disappeared then Reappeared else if changed then Changed else Unchanged))
    else
      match row
      case None => None
      case Some(r) => Some(r.(lastObserved := poll.at, count := r.count + 1, state := Disappeared))
  }

  /** The key has sightings exactly when some poll listed it. */
  lemma {:induction false} SightingsExist(polls: seq<Poll>, key: string)
    ensures Sightings(polls, key) != [] <==> SinceFirst(polls, key) > 0
  {
    if polls != [] { SightingsExist(polls[..|polls| - 1], key); }
  }

  /** The last sighting is the last poll's when the last poll listed the key. */
  lemma LastSighting(polls: seq<Poll>, key: string)
    requires polls != [] && key in polls[|polls| - 1].hashes
    ensures Sightings(polls, key) != []
    ensures Sightings(polls, key)[|Sightings(polls, key)| - 1].digest == polls[|polls| - 1].hashes[key]
  {
  }

  lemma LongerHistory(polls: seq<Poll>, poll: Poll, key: string)
    ensures Sightings(polls + [poll], key) ==
            if key in poll.hashes then Sightings(polls, key) + [Sighting(poll.at, poll.hashes[key])]
            else Sightings(polls, key)
    ensures SinceFirst(polls + [poll], key) ==
            if SinceFirst(polls, key) > 0 then SinceFirst(polls, key) + 1 else if key in poll.hashes then 1 else 0
  {
    assert (polls + [poll])[..|polls|] == polls;
  }

  lemma LongerRun(s: seq<Sighting>, next: Sighting)
    ensures RunStart(s + [next]) ==
            if s == [] || s[|s| - 1].digest != next.digest then |s| else RunStart(s)
  {
    assert (s + [next])[..|s|] == s;
  }

  /** The existence state after one more poll, from the state before it. */
  lemma LongerExistence(polls: seq<Poll>, poll: Poll, key: string)
    requires polls != [] && SinceFirst(polls, key) > 0
    ensures var before := ExistenceOf(polls, key);
            ExistenceOf(polls + [poll], key) ==
            if key !in poll.hashes then Disappeared
            else if before == Disappeared then Reappeared
            else if polls[|polls| - 1].hashes[key] != poll.hashes[key] then Changed
            else Unchanged
    ensures ExistenceOf(polls, key) != Disappeared ==> key in polls[|polls| - 1].hashes
  {
    hide SinceFirst, Sightings;
    LongerHistory(polls, poll, key);
    var longer := polls + [poll];
    assert longer[|polls|] == poll && longer[|polls| - 1] == polls[|polls| - 1];
  }

  /** One poll on the row recomputed so far gives the row recomputed from the longer history. */
  lemma StepIsRecomputation(polls: seq<Poll>, poll: Poll, key: string)
    ensures RowOf(polls + [poll], key) == Step(RowOf(polls, key), poll, key)
  {
    hide Sightings, SinceFirst, RunStart;
    SightingsExist(polls, key);
    LongerHistory(polls, poll, key);
    var s := Sightings(polls, key);
    if s == [] {
      if key in poll.hashes {
        FirstExistence(polls, poll, key);
        LongerRun(s, Sighting(poll.at, poll.hashes[key]));
      }
    } else {
      EmptyHasNoSightings(polls, key);
      LongerExistence(polls, poll, key);
      if key in poll.hashes {
        LongerRun(s, Sighting(poll.at, poll.hashes[key]));
        if ExistenceOf(polls, key) != Disappeared { LastSighting(polls, key); }
      }
      hide ExistenceOf;
    }
  }

  lemma EmptyHasNoSightings(polls: seq<Poll>, key: string)
    ensures polls == [] ==> Sightings(polls, key) == []
  {
  }

  lemma FirstExistence(polls: seq<Poll>, poll: Poll, key: string)
    requires SinceFirst(polls, key) == 0 && key in poll.hashes
    ensures ExistenceOf(polls + [poll], key) == Observed
  {
    hide SinceFirst, Sightings;
    LongerHistory(polls, poll, key);
  }

  /** Keys visible after a poll are exactly the keys it listed. */
  lemma VisibleIsListed(polls: seq<Poll>, key: string)
    requires polls != []
    ensures key in polls[|polls| - 1].hashes <==>
            RowOf(polls, key).Some? && RowOf(polls, key).value.state != Disappeared
  {
    SightingsExist(polls, key);
  }

  /** A disappearance keeps the digest, the previous digest and the time of the last change. */
  lemma DisappearanceKeepsValue(polls: seq<Poll>, poll: Poll, key: string)
    requires RowOf(polls, key).Some? && key !in poll.hashes
    ensures var before, after := RowOf(polls, key).value, RowOf(polls + [poll], key);
            && after.Some?
            && after.value == before.(lastObserved := poll.at, count := before.count + 1, state := Disappeared)
  {
    StepIsRecomputation(polls, poll, key);
  }
}
