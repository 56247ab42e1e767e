/** Engagement samples, their keys, and the sorted list that loading returns. */
module HistoryRows {
  datatype Key = Key(fetchedAt: string, digest: string)

  datatype Row = Row(key: Key, rest: string)

  /** Lexicographic order by character. */
  predicate StringLess(a: string, b: string) {
    b != [] && (a == [] || a[0] < b[0] || (a[0] == b[0] && StringLess(a[1..], b[1..])))
  }

  predicate KeyLess(a: Key, b: Key) {
    StringLess(a.fetchedAt, b.fetchedAt) || (a.fetchedAt == b.fetchedAt && StringLess(a.digest, b.digest))
  }

  lemma {:induction false} StringOrder(a: string, b: string, c: string)
    ensures StringLess(a, b) || a == b || StringLess(b, a)
    ensures !StringLess(a, a)
    ensures StringLess(a, b) && StringLess(b, c) ==> StringLess(a, c)
    decreases |a| + |b| + |c|
  {
    if a != [] {
      StringOrder(a[1..], if b != [] then b[1..] else [], if c != [] then c[1..] else []);
    }
  }

  lemma KeyOrder(a: Key, b: Key, c: Key)
    ensures KeyLess(a, b) || a == b || KeyLess(b, a)
    ensures !KeyLess(a, a)
    ensures KeyLess(a, b) && KeyLess(b, c) ==> KeyLess(a, c)
  {
    StringOrder(a.fetchedAt, b.fetchedAt, c.fetchedAt);
    StringOrder(a.digest, b.digest, c.digest);
  }

  predicate Sorted(rows: seq<Row>) {
    forall i, j | 0 <= i < j < |rows| :: KeyLess(rows[i].key, rows[j].key)
  }

  predicate HasKey(rows: seq<Row>, key: Key) {
    exists i | 0 <= i < |rows| :: rows[i].key == key
  }

  predicate DistinctKeys(rows: seq<Row>) {
    forall i, j | 0 <= i < j < |rows| :: rows[i].key != rows[j].key
  }

  /** Assignment into the dictionary: the last row of a key wins, at the key's first position. */
  function Put(rows: seq<Row>, row: Row): seq<Row> {
    if HasKey(rows, row.key) then
      seq(|rows|, i requires 0 <= i < |rows| => if rows[i].key == row.key then row else rows[i])
    else rows + [row]
  }

  lemma PutKeys(rows: seq<Row>, row: Row)
    requires DistinctKeys(rows)
    ensures DistinctKeys(Put(rows, row))
    ensures forall k :: HasKey(Put(rows, row), k) <==> HasKey(rows, k) || k == row.key
  {
    var after := Put(rows, row);
    forall k
      ensures HasKey(after, k) <==> HasKey(rows, k) || k == row.key
    {
      if HasKey(rows, k) {
        var i :| 0 <= i < |rows| && rows[i].key == k;
        assert after[i].key == k;
      }
      if k == row.key && !HasKey(rows, k) {
        assert after[|rows|].key == k;
      }
    }
  }

  /** A row placed before the first row with a larger key. */
  function Insert(rows: seq<Row>, row: Row): seq<Row> {
    if rows == [] then [row]
    else if KeyLess(row.key, rows[0].key) then [row] + rows
    else [rows[0]] + Insert(rows[1..], row)
  }

  function Sort(rows: seq<Row>): seq<Row> {
    if rows == [] then [] else Insert(Sort(rows[..|rows| - 1]), rows[|rows| - 1])
  }

  lemma {:induction false} InsertElements(rows: seq<Row>, row: Row)
    ensures multiset(Insert(rows, row)) == multiset(rows) + multiset{row}
  {
    if rows != [] && !KeyLess(row.key, rows[0].key) {
      InsertElements(rows[1..], row);
      assert rows == [rows[0]] + rows[1..];
    }
  }

  lemma {:induction false} SortElements(rows: seq<Row>)
    ensures multiset(Sort(rows)) == multiset(rows)
  {
    if rows != [] {
      var front := rows[..|rows| - 1];
      SortElements(front);
      InsertElements(Sort(front), rows[|rows| - 1]);
      assert rows == front + [rows[|rows| - 1]];
    }
  }

  lemma SameElementsSameKeys(a: seq<Row>, b: seq<Row>, k: Key)
    requires multiset(a) == multiset(b)
    ensures HasKey(a, k) <==> HasKey(b, k)
  {
    forall r
      ensures r in a <==> r in b
    {
      assert r in multiset(a) <==> r in multiset(b);
    }
    if HasKey(a, k) {
      var i :| 0 <= i < |a| && a[i].key == k;
      assert a[i] in b;
    }
    if HasKey(b, k) {
      var i :| 0 <= i < |b| && b[i].key == k;
      assert b[i] in a;
    }
  }

  /** Sorting keeps the keys. */
  lemma SortKeys(rows: seq<Row>, k: Key)
    ensures HasKey(Sort(rows), k) <==> HasKey(rows, k)
  {
    SortElements(rows);
    SameElementsSameKeys(Sort(rows), rows, k);
  }

  predicate AllAbove(key: Key, rows: seq<Row>) {
    forall j | 0 <= j < |rows| :: KeyLess(key, rows[j].key)
  }

  lemma FrontSorted(first: Row, rest: seq<Row>)
    ensures Sorted([first] + rest) <==> AllAbove(first.key, rest) && Sorted(rest)
  {
    var all := [first] + rest;
    assert all[1..] == rest;
    if Sorted(all) {
      forall j | 0 <= j < |rest|
        ensures KeyLess(first.key, rest[j].key)
      {
        assert all[0] == first && all[j + 1] == rest[j];
      }
      forall i, j | 0 <= i < j < |rest|
        ensures KeyLess(rest[i].key, rest[j].key)
      {
        assert all[i + 1] == rest[i] && all[j + 1] == rest[j];
      }
    }
  }

  lemma AboveTransitive(a: Key, b: Key, rows: seq<Row>)
    requires KeyLess(a, b) && AllAbove(b, rows)
    ensures AllAbove(a, rows)
  {
    hide KeyLess;
    forall j | 0 <= j < |rows|
      ensures KeyLess(a, rows[j].key)
    {
      KeyOrder(a, b, rows[j].key);
    }
  }

  lemma {:induction false} AboveInsert(key: Key, rows: seq<Row>, row: Row)
    requires AllAbove(key, rows) && KeyLess(key, row.key)
    ensures AllAbove(key, Insert(rows, row))
  {
    hide KeyLess;
    if rows != [] && !KeyLess(row.key, rows[0].key) {
      AboveInsert(key, rows[1..], row);
    }
  }

  lemma {:induction false} InsertSorted(rows: seq<Row>, row: Row)
    requires Sorted(rows) && !HasKey(rows, row.key)
    ensures Sorted(Insert(rows, row))
  {
    if rows == [] {
      assert Insert(rows, row) == [row];
    } else {
      var first, rest := rows[0], rows[1..];
      assert first.key != row.key && !HasKey(rest, row.key);
      assert rows == [first] + rest;
      hide Sorted, HasKey, KeyLess, AllAbove;
      FrontSorted(first, rest);
      FrontSorted(row, rows);
      FrontSorted(first, Insert(rest, row));
      KeyOrder(row.key, first.key, row.key);
      if KeyLess(row.key, first.key) {
        AboveTransitive(row.key, first.key, rest);
        AboveFront(row.key, first, rest);
      } else {
        InsertSorted(rest, row);
        AboveInsert(first.key, rest, row);
      }
    }
  }

  lemma AboveFront(key: Key, first: Row, rest: seq<Row>)
    requires KeyLess(key, first.key) && AllAbove(key, rest)
    ensures AllAbove(key, [first] + rest)
  {
    hide KeyLess;
  }

  /** Rows with distinct keys come out strictly increasing. */
  lemma {:induction false} SortSorted(rows: seq<Row>)
    requires DistinctKeys(rows)
    ensures Sorted(Sort(rows))
  {
    if rows != [] {
      var front, last := rows[..|rows| - 1], rows[|rows| - 1];
      SortSorted(front);
      SortKeys(front, last.key);
      assert !HasKey(front, last.key);
      InsertSorted(Sort(front), last);
    }
  }
}
