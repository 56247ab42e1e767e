/** The observatory's table, updated poll by poll, always equal to a recomputation from the whole history. */
module KvStore {
  import opened Prelude
  import opened KvHistory

  datatype PollStatus = PollSuccess | PollFailed(status: string)

  /** A row of the polls table. */
  datatype PollRow = PollRow(namespace: string, at: string, status: PollStatus, keyCount: Option<nat>)

  /** A successful poll together with its namespace. */
  datatype Recorded = Recorded(namespace: string, poll: Poll)

  type Table = map<(string, string), Row>

  function RowAt(rows: Table, namespace: string, key: string): Option<Row> {
    if (namespace, key) in rows then Some(rows[(namespace, key)]) else None
  }

  function PollsOf(history: seq<Recorded>, namespace: string): seq<Poll> {
    if history == [] then []
    else
      var front := PollsOf(history[..|history| - 1], namespace);
      var last := history[|history| - 1];
      if last.namespace == namespace then front + [last.poll] else front
  }

  /** Every row is its key's history, and there are no other rows. */
  ghost predicate Recomputed(rows: Table, history: seq<Recorded>) {
    forall namespace, key :: RowAt(rows, namespace, key) == RowOf(PollsOf(history, namespace), key)
  }

  /** The success rows of the polls table, with their key counts. */
  ghost predicate Counted(polls: seq<PollRow>, history: seq<Recorded>) {
    if polls == [] then history == []
    else
      var last := polls[|polls| - 1];
      if last.status.PollSuccess? then
        && history != []
        && var h := history[|history| - 1];
        && h.namespace == last.namespace && h.poll.at == last.at && last.keyCount == Some(|h.poll.hashes|)
        && Counted(polls[..|polls| - 1], history[..|history| - 1])
      else
        last.keyCount == None && Counted(polls[..|polls| - 1], history)
  }

  lemma PollsOfLonger(history: seq<Recorded>, h: Recorded, namespace: string)
    ensures PollsOf(history + [h], namespace) ==
            if h.namespace == namespace then PollsOf(history, namespace) + [h.poll] else PollsOf(history, namespace)
  {
    assert (history + [h])[..|history|] == history;
  }

  /** Stepping every row of one namespace keeps the table recomputed. */
  lemma StepTable(rows: Table, after: Table, history: seq<Recorded>, h: Recorded)
    requires Recomputed(rows, history)
    requires forall namespace, key :: RowAt(after, namespace, key) ==
               if namespace == h.namespace then Step(RowAt(rows, namespace, key), h.poll, key)
               else RowAt(rows, namespace, key)
    ensures Recomputed(after, history + [h])
  {
    hide RowOf, Step, RowAt;
    forall namespace, key
      ensures RowAt(after, namespace, key) == RowOf(PollsOf(history + [h], namespace), key)
    {
      PollsOfLonger(history, h, namespace);
      StepIsRecomputation(PollsOf(history, namespace), h.poll, key);
      assert RowAt(rows, namespace, key) == RowOf(PollsOf(history, namespace), key);
    }
  }

  function VisibleKeys(rows: Table, namespace: string): set<string> {
    set k | k in rows.Keys && k.0 == namespace && rows[k].state != Disappeared :: k.1
  }

  /** The visible keys of a namespace are exactly those its last successful poll listed. */
  lemma VisibleIsLastListing(rows: Table, history: seq<Recorded>, namespace: string)
    requires Recomputed(rows, history)
    ensures var polls := PollsOf(history, namespace);
            VisibleKeys(rows, namespace) == if polls == [] then {} else polls[|polls| - 1].hashes.Keys
  {
    hide RowOf;
    var polls := PollsOf(history, namespace);
    forall key
      ensures key in VisibleKeys(rows, namespace) <==> polls != [] && key in polls[|polls| - 1].hashes
    {
      assert RowAt(rows, namespace, key) == RowOf(polls, key);
      if polls == [] {
        NoRow(key);
      } else {
        VisibleIsListed(polls, key);
      }
      assert key in VisibleKeys(rows, namespace) <==>
             (namespace, key) in rows && rows[(namespace, key)].state != Disappeared;
    }
  }

  lemma NoRow(key: string)
    ensures RowOf([], key) == None
  {
  }

  class Store {
    var rows: Table
    var polls: seq<PollRow>
    ghost var history: seq<Recorded>

    ghost predicate Valid()
      reads this
    {
      Recomputed(rows, history) && Counted(polls, history)
    }

    constructor ()
      ensures Valid() && history == [] && polls == [] && rows == map[]
    {
      rows, polls, history := map[], [], [];
      new;
      assert forall key :: RowOf([], key) == None by { forall key ensures RowOf([], key) == None { NoRow(key); } }
    }

    /** One successful poll, in one transaction: it commits wholly or not at all. */
    method Observe(namespace: string, hashes: map<string, string>, at: string, commits: bool)
      requires Valid()
      modifies this
      ensures Valid()
      ensures history == if commits then old(history) + [Recorded(namespace, Poll(at, hashes))] else old(history)
      ensures polls ==
              if commits then old(polls) + [PollRow(namespace, at, PollSuccess, Some(|hashes|))] else old(polls)
      ensures !commits ==> rows == old(rows)
    {
      ghost var poll := Poll(at, hashes);
      var table := UpdateRows(rows, namespace, hashes, at);
      if !commits { return; }
      StepTable(rows, table, history, Recorded(namespace, poll));
      rows := table;
      polls := polls + [PollRow(namespace, at, PollSuccess, Some(|hashes|))];
      history := history + [Recorded(namespace, poll)];
      assert polls[..|polls| - 1] == old(polls) && history[..|history| - 1] == old(history);
    }

    /** A failed poll is recorded and changes no note row. */
    method FailedPoll(namespace: string, at: string, status: string)
      requires Valid()
      modifies this`polls
      ensures Valid()
      ensures polls == old(polls) + [PollRow(namespace, at, PollFailed(status), None)]
    {
      polls := polls + [PollRow(namespace, at, PollFailed(status), None)];
      assert polls[..|polls| - 1] == old(polls);
    }
  }

  /** The rows of one namespace by key, as the transaction first selects them. */
  function CurrentRows(rows: Table, namespace: string): (current: map<string, Row>)
    ensures forall key :: key in current <==> (namespace, key) in rows
    ensures forall key | key in current :: current[key] == rows[(namespace, key)]
  {
    map k | k in rows.Keys && k.0 == namespace :: k.1 := rows[k]
  }

  /** Inserts or updates every listed key, popping it from the rows that were current. */
  method UpdateListed(rows: Table, namespace: string, hashes: map<string, string>, at: string)
    returns (table: Table, current: map<string, Row>)
    ensures forall n, key :: RowAt(table, n, key) ==
              if n == namespace && key in hashes then Step(RowAt(rows, n, key), Poll(at, hashes), key)
              else RowAt(rows, n, key)
    ensures forall key :: key in current <==> (namespace, key) in rows && key !in hashes
    ensures forall key | key in current :: current[key] == rows[(namespace, key)]
  {
    current := CurrentRows(rows, namespace);
    table := rows;
    var listed := hashes.Keys;
    ghost var poll := Poll(at, hashes);
    while listed != {}
      invariant listed <= hashes.Keys
      invariant forall key :: key in current <==> (namespace, key) in rows && (key in listed || key !in hashes)
      invariant forall key | key in current :: current[key] == rows[(namespace, key)]
      invariant forall n, key :: RowAt(table, n, key) ==
                  if n == namespace && key in hashes && key !in listed then Step(RowAt(rows, n, key), poll, key)
                  else RowAt(rows, n, key)
    {
      var key :| key in listed;
      listed := listed - {key};
      var digest := hashes[key];
      var row;
      if key !in current {
        row := Row(at, at, at, digest, None, 1, Observed);
      } else {
        var was := current[key];
        current := current - {key};
        var changed := was.digest != digest;
        var reappeared := was.state == Disappeared;
        row := Row(
          was.firstSeen, at, if changed then at else was.lastChanged, digest,
          if changed then Some(was.digest) else was.previous, was.count + 1,
          if reappeared then Reappeared else if changed then Changed else Unchanged);
      }
      assert Some(row) == Step(RowAt(rows, namespace, key), poll, key);
      table := Put(table, namespace, key, row);
    }
  }

  /** One row written, all others kept. */
  function Put(table: Table, namespace: string, key: string, row: Row): (after: Table)
    ensures forall n, k :: RowAt(after, n, k) ==
              if n == namespace && k == key then Some(row) else RowAt(table, n, k)
  {
    table[(namespace, key) := row]
  }

  /** Marks the keys that the poll did not list. */
  method MarkMissing(start: Table, namespace: string, missing: map<string, Row>, at: string) returns (table: Table)
    ensures forall n, key :: RowAt(table, n, key) ==
              if n == namespace && key in missing then
                Some(missing[key].(lastObserved := at, count := missing[key].count + 1, state := Disappeared))
              else RowAt(start, n, key)
  {
    table := start;
    var current := missing;
    while current != map[]
      invariant forall key | key in current :: key in missing && current[key] == missing[key]
      invariant forall n, key :: RowAt(table, n, key) ==
                  if n == namespace && key in missing && key !in current then
                    Some(missing[key].(lastObserved := at, count := missing[key].count + 1, state := Disappeared))
                  else RowAt(start, n, key)
      decreases |current|
    {
      var key :| key in current;
      var was := current[key];
      current := current - {key};
      table := Put(table, namespace, key, was.(lastObserved := at, count := was.count + 1, state := Disappeared));
    }
  }

  /** The note statements of the transaction: every row of the namespace takes one step. */
  method UpdateRows(rows: Table, namespace: string, hashes: map<string, string>, at: string) returns (table: Table)
    ensures forall n, key :: RowAt(table, n, key) ==
              if n == namespace then Step(RowAt(rows, n, key), Poll(at, hashes), key) else RowAt(rows, n, key)
  {
    var listed, current := UpdateListed(rows, namespace, hashes, at);
    table := MarkMissing(listed, namespace, current, at);
  }
}
