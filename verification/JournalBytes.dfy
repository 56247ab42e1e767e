/**
  From journal bytes to records and back: the inspection of a file that may be absent, complete,
  torn or corrupt, and what it returns for the bytes the journal itself writes.
 */
module JournalBytes {
  import opened Prelude
  import opened Lines
  import opened JournalRecords
  import opened JournalGrammar

  /** JSON encoding of a record and the decoder, which may accept other spellings too. */
  datatype Codec = Codec(encode: Record -> Bytes, decode: Bytes -> Option<Record>)

  ghost predicate Lawful(c: Codec) {
    forall r: Record :: Plain(c.encode(r)) && c.decode(c.encode(r)) == Some(r)
  }

  datatype Integrity = Absent | Valid | TornTail | Corrupt

  datatype Inspection = Inspection(integrity: Integrity, records: seq<Record>)

  const MAX_RECORDS := 256
  const MAX_BYTES := 2 * 1024 * 1024

  const CORRUPT := Inspection(Corrupt, [])

  /** Classifies the remaining lines after `done` has been accepted. */
  function InspectLines(c: Codec, lines: seq<Line>, done: seq<Record>): Inspection
  {
    if lines == [] then if InGrammar(done) then Inspection(Valid, done) else CORRUPT
    else
      var line := lines[0];
      if line[|line| - 1] != LF then if |lines| == 1 then Inspection(TornTail, done) else CORRUPT
      else
        match c.decode(line[..|line| - 1])
        case None => CORRUPT
        case Some(r) =>
          if Follows(done, r) && |done| < MAX_RECORDS then InspectLines(c, lines[1..], done + [r])
          else CORRUPT
  }

  function Inspect(c: Codec, data: Bytes): Inspection {
    if data == [] then Inspection(Absent, []) else InspectLines(c, SplitLines(data), [])
  }

  method InspectBytes(c: Codec, data: Bytes) returns (result: Inspection)
    ensures result == Inspect(c, data)
  {
    hide RecordValid, InGrammar, SplitLines;
    if data == [] { return Inspection(Absent, []); }
    var chunks := SplitLines(data);
    var records: seq<Record> := [];
    var previous := Zero;
    var planId: Option<Digest>, attemptId: Option<Digest> := None, None;
    for index := 0 to |chunks|
      invariant previous == HeadHash(records) && planId == PlanOf(records) && attemptId == AttemptOf(records)
      invariant |records| == index
      invariant InspectLines(c, chunks[index..], records) == Inspect(c, data)
    {
      var chunk := chunks[index];
      assert chunks[index..][0] == chunk && chunks[index..][1..] == chunks[index + 1..];
      if chunk[|chunk| - 1] != LF {
        if index == |chunks| - 1 { return Inspection(TornTail, records); }
        return CORRUPT;
      }
      var decoded := c.decode(chunk[..|chunk| - 1]);
      if decoded == None { return CORRUPT; }
      var record := decoded.value;
      if !RecordValid(record, previous, index, planId, attemptId) { return CORRUPT; }
      planId := if planId == None then Some(record.body.planId) else planId;
      attemptId := if attemptId == None then Some(record.body.attemptId) else attemptId;
      previous := record.recordHash;
      records := records + [record];
      if |records| > MAX_RECORDS { return CORRUPT; }
    }
    var ok := HistoryValid(records);
    return if ok then Inspection(Valid, records) else CORRUPT;
  }

  /** Whatever is read as VALID is a chained history in the grammar. */
  lemma {:induction false} ValidIsChained(c: Codec, lines: seq<Line>, done: seq<Record>)
    requires Chained(done)
    ensures var i := InspectLines(c, lines, done);
            && Chained(i.records)
            && (i.integrity == Valid ==> InGrammar(i.records))
            && i.integrity != Absent
    decreases |lines|
  {
    if lines != [] {
      var line := lines[0];
      if line[|line| - 1] == LF {
        var decoded := c.decode(line[..|line| - 1]);
        if decoded.Some? && Follows(done, decoded.value) {
          ChainedExtend(done, decoded.value);
          ValidIsChained(c, lines[1..], done + [decoded.value]);
        }
      }
    }
  }

  function EncodeAll(c: Codec, rs: seq<Record>): Bytes {
    if rs == [] then [] else c.encode(rs[0]) + [LF] + EncodeAll(c, rs[1..])
  }

  /** Reading back encoded records, possibly cut inside the next line. */
  lemma {:induction false} InspectEncoded(c: Codec, done: seq<Record>, rs: seq<Record>, tail: Bytes)
    requires Lawful(c) && Plain(tail)
    requires Chained(done + rs) && |done + rs| <= MAX_RECORDS
    ensures InspectLines(c, SplitLines(EncodeAll(c, rs) + tail), done) ==
            if tail != [] then Inspection(TornTail, done + rs)
            else if InGrammar(done + rs) then Inspection(Valid, done + rs)
            else CORRUPT
    decreases |rs|
  {
    if rs == [] {
      assert done + rs == done && EncodeAll(c, rs) + tail == tail;
      if tail != [] { SplitPlainTail(tail); }
    } else {
      hide Follows, Chained, InGrammar, EncodeAll, SplitLines, Lawful, Plain;
      FirstEncodedLine(c, rs, tail);
      NextFollows(done, rs);
      InspectEncoded(c, done + [rs[0]], rs[1..], tail);
    }
  }

  lemma NextFollows(done: seq<Record>, rs: seq<Record>)
    requires Chained(done + rs) && rs != []
    ensures Follows(done, rs[0]) && done + [rs[0]] + rs[1..] == done + rs
  {
    assert (done + rs)[..|done|] == done && (done + rs)[|done|] == rs[0];
  }

  lemma FirstEncodedLine(c: Codec, rs: seq<Record>, tail: Bytes)
    requires Lawful(c) && rs != []
    ensures var lines := SplitLines(EncodeAll(c, rs) + tail);
            && lines != [] && lines[1..] == SplitLines(EncodeAll(c, rs[1..]) + tail)
            && lines[0][|lines[0]| - 1] == LF && c.decode(lines[0][..|lines[0]| - 1]) == Some(rs[0])
  {
    var line := c.encode(rs[0]);
    var rest := EncodeAll(c, rs[1..]) + tail;
    assert EncodeAll(c, rs) + tail == line + [LF] + rest;
    SplitPlainLine(line, rest);
    assert (line + [LF])[..|line|] == line;
  }

  lemma EncodeNonEmpty(c: Codec, rs: seq<Record>)
    requires rs != []
    ensures EncodeAll(c, rs) != []
  {
  }

  /** A written journal reads back as itself. */
  lemma WrittenReadsBack(c: Codec, rs: seq<Record>)
    requires Lawful(c) && Chained(rs) && InGrammar(rs)
    ensures Inspect(c, EncodeAll(c, rs)) == Inspection(Valid, rs)
  {
    AtMostSeventeen(rs);
    assert [] + rs == rs && EncodeAll(c, rs) + [] == EncodeAll(c, rs);
    InspectEncoded(c, [], rs, []);
  }

  /** How many of the records lie completely within the first `n` bytes. */
  function CompleteWithin(c: Codec, rs: seq<Record>, n: nat): (k: nat)
    ensures k <= |rs|
  {
    if rs == [] || n < |c.encode(rs[0])| + 1 then 0
    else 1 + CompleteWithin(c, rs[1..], n - |c.encode(rs[0])| - 1)
  }

  lemma {:induction false} PrefixSplits(c: Codec, rs: seq<Record>, n: nat) returns (tail: Bytes)
    requires Lawful(c) && n <= |EncodeAll(c, rs)|
    ensures Plain(tail)
    ensures EncodeAll(c, rs)[..n] == EncodeAll(c, rs[..CompleteWithin(c, rs, n)]) + tail
  {
    if rs == [] {
      tail := [];
    } else {
      var line := c.encode(rs[0]);
      var k := CompleteWithin(c, rs, n);
      if n < |line| + 1 {
        tail := line[..n];
        assert EncodeAll(c, rs)[..n] == tail;
      } else {
        tail := PrefixSplits(c, rs[1..], n - |line| - 1);
        assert rs[..k][1..] == rs[1..][..k - 1];
        assert EncodeAll(c, rs)[..n] == line + [LF] + EncodeAll(c, rs[1..])[..n - |line| - 1];
      }
    }
  }

  /**
    A journal cut at any byte is never CORRUPT: it reads as ABSENT, VALID or TORN_TAIL, with exactly the
    records whose lines survived whole.
   */
  lemma CutJournalReads(c: Codec, rs: seq<Record>, n: nat)
    requires Lawful(c) && Chained(rs) && InGrammar(rs)
    requires n <= |EncodeAll(c, rs)|
    ensures var k := CompleteWithin(c, rs, n);
            Inspect(c, EncodeAll(c, rs)[..n]) ==
            if n == 0 then Inspection(Absent, [])
            else if EncodeAll(c, rs)[..n] == EncodeAll(c, rs[..k]) then Inspection(Valid, rs[..k])
            else Inspection(TornTail, rs[..k])
  {
    var k := CompleteWithin(c, rs, n);
    var tail := PrefixSplits(c, rs, n);
    AtMostSeventeen(rs);
    ChainedPrefix(rs, k);
    StagePrefix(rs, k);
    assert [] + rs[..k] == rs[..k];
    InspectEncoded(c, [], rs[..k], tail);
  }
}
