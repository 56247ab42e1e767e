/**
  The order in which a journal's records may appear. `HistoryValid` is the index-advancing
  scan; `StageOf` is the automaton it implements.
 */
module JournalGrammar {
  import opened Prelude
  import opened JournalRecords

  /** How far an attempt has come. `Ready(k)` has k durable results and no open source. */
  datatype Stage =
    | Empty
    | Planned
    | Permitted
    | Ready(done: nat)
    | Intended(ordinal: nat)
    | Requested(ordinal: nat)
    | Committed
    | Closed
    | Broken

  function NextStage(s: Stage, b: Body): Stage {
    match s
    case Empty => if b.recordType == PlanPrepared then Planned else Broken
    case Planned =>
      if b.recordType == PermitConsumed then Permitted
      else if b.recordType == AttemptIntent then Ready(0)
      else Broken
    case Permitted => if b.recordType == AttemptIntent then Ready(0) else Broken
    case Ready(k) =>
      if k < 4 then
        if b.recordType == SourceIntent && b.sourceOrdinal == Some(k) then Intended(k) else Broken
      else if b.recordType == EvidenceCommit then Committed
      else Broken
    case Intended(k) =>
      if b.recordType == RequestBoundary && b.sourceOrdinal == Some(k) then Requested(k)
      else if ResultFits(b, k) then Ready(k + 1)
      else Broken
    case Requested(k) => if ResultFits(b, k) then Ready(k + 1) else Broken
    case Committed => if b.recordType == Finalize then Closed else Broken
    case Closed => Broken
    case Broken => Broken
  }

  predicate ResultFits(b: Body, k: nat) {
    && b.recordType == SourceResult
    && b.sourceOrdinal == Some(k)
    && b.attemptState == ResultStateFor(k)
  }

  function ResultStateFor(k: nat): AttemptState {
    if k == 3 then ResultsComplete else InProgress
  }

  /** The stage after the first `n` records. */
  function StageAt(rs: seq<Record>, n: nat): Stage
    requires n <= |rs|
  {
    if n == 0 then Empty else NextStage(StageAt(rs, n - 1), rs[n - 1].body)
  }

  function StageOf(rs: seq<Record>): Stage {
    StageAt(rs, |rs|)
  }

  /** A nonempty record list is in the grammar. */
  predicate InGrammar(rs: seq<Record>) {
    rs != [] && StageOf(rs) != Broken
  }

  lemma {:induction false} StageAtAgrees(a: seq<Record>, b: seq<Record>, n: nat)
    requires n <= |a| && n <= |b| && a[..n] == b[..n]
    ensures StageAt(a, n) == StageAt(b, n)
  {
    if n > 0 {
      assert a[n - 1] == a[..n][n - 1] == b[n - 1];
      assert a[..n - 1] == a[..n][..n - 1] == b[..n - 1];
      StageAtAgrees(a, b, n - 1);
    }
  }

  lemma StageExtend(rs: seq<Record>, r: Record)
    ensures StageOf(rs + [r]) == NextStage(StageOf(rs), r.body)
  {
    StageAtAgrees(rs + [r], rs, |rs|);
  }

  lemma {:induction false} BrokenStays(rs: seq<Record>, i: nat, n: nat)
    requires i <= n <= |rs| && StageAt(rs, i) == Broken
    ensures StageAt(rs, n) == Broken
  {
    if i < n { BrokenStays(rs, i, n - 1); }
  }

  /** The grammar is prefix-closed. */
  lemma StagePrefix(rs: seq<Record>, k: nat)
    requires k <= |rs| && StageOf(rs) != Broken
    ensures StageOf(rs[..k]) != Broken
  {
    StageAtAgrees(rs, rs[..k], k);
    if StageAt(rs, k) == Broken { BrokenStays(rs, k, |rs|); }
  }

  /** Source `k` has a REQUEST_BOUNDARY record. */
  ghost predicate HasBoundary(rs: seq<Record>, k: nat) {
    exists i | 0 <= i < |rs| :: rs[i].body.recordType == RequestBoundary && rs[i].body.sourceOrdinal == Some(k)
  }

  function LongestTo(s: Stage): nat {
    match s
    case Empty => 0
    case Planned => 1
    case Permitted => 2
    case Ready(k) => 3 + 3 * k
    case Intended(k) => 4 + 3 * k
    case Requested(k) => 5 + 3 * k
    case Committed => 16
    case Closed => 17
    case Broken => 0
  }

  predicate InRange(s: Stage) {
    (s.Ready? ==> s.done <= 4) && (s.Intended? ==> s.ordinal < 4) && (s.Requested? ==> s.ordinal < 4)
  }

  /** No history in the grammar exceeds seventeen records. */
  lemma AtMostSeventeen(rs: seq<Record>)
    requires StageOf(rs) != Broken
    ensures InRange(StageOf(rs))
    ensures |rs| <= LongestTo(StageOf(rs)) <= 17
  {
    LongestAt(rs, |rs|);
  }

  lemma {:induction false} LongestAt(rs: seq<Record>, n: nat)
    requires n <= |rs| && StageAt(rs, n) != Broken
    ensures InRange(StageAt(rs, n))
    ensures n <= LongestTo(StageAt(rs, n))
  {
    if n > 0 { LongestAt(rs, n - 1); }
  }

  /** What one turn of the per-source loop decides. */
  datatype Verdict = Accept | Reject | Continue(index: nat)

  /** The scan, statement by statement, accepts exactly the grammar. */
  method HistoryValid(rs: seq<Record>) returns (ok: bool)
    ensures ok <==> InGrammar(rs)
  {
    if |rs| == 0 || rs[0].body.recordType != PlanPrepared {
      if rs != [] { BrokenStays(rs, 1, |rs|); }
      return false;
    }
    var index := 1;
    assert StageAt(rs, index) == Planned;
    if index < |rs| && rs[index].body.recordType == PermitConsumed {
      index := index + 1;
      assert StageAt(rs, index) == Permitted;
    }
    if index == |rs| { return true; }
    if rs[index].body.recordType != AttemptIntent { BrokenStays(rs, index + 1, |rs|); return false; }
    index := index + 1;
    assert StageAt(rs, index) == Ready(0);
    for ordinal := 0 to 4
      invariant 0 < index <= |rs|
      invariant StageAt(rs, index) == Ready(ordinal)
    {
      var verdict := ScanSource(rs, index, ordinal);
      if verdict == Accept { return true; }
      if verdict == Reject { return false; }
      index := verdict.index;
    }
    ok := ScanEnd(rs, index);
  }

  /** A record that does not fit decides. */
  lemma Rejected(rs: seq<Record>, i: nat)
    requires i < |rs| && NextStage(StageAt(rs, i), rs[i].body) == Broken
    ensures !InGrammar(rs)
  {
    BrokenStays(rs, i + 1, |rs|);
  }

  lemma StageNext(rs: seq<Record>, i: nat)
    requires i < |rs|
    ensures StageAt(rs, i + 1) == NextStage(StageAt(rs, i), rs[i].body)
  {
    hide NextStage;
  }

  method ScanSource(rs: seq<Record>, start: nat, ordinal: nat) returns (verdict: Verdict)
    requires 0 < start <= |rs| && ordinal < 4
    requires StageAt(rs, start) == Ready(ordinal)
    ensures verdict == Accept ==> InGrammar(rs)
    ensures verdict == Reject ==> !InGrammar(rs)
    ensures verdict.Continue? ==>
              start < verdict.index <= |rs| && StageAt(rs, verdict.index) == Ready(ordinal + 1)
  {
    hide StageAt;
    var index := start;
    if index == |rs| { return Accept; }
    StageNext(rs, index);
    if rs[index].body.recordType != SourceIntent || rs[index].body.sourceOrdinal != Some(ordinal) {
      Rejected(rs, index);
      return Reject;
    }
    index := index + 1;
    if index == |rs| { return Accept; }
    StageNext(rs, index);
    if rs[index].body.recordType == RequestBoundary {
      if rs[index].body.sourceOrdinal != Some(ordinal) { Rejected(rs, index); return Reject; }
      index := index + 1;
      if index == |rs| { return Accept; }
      StageNext(rs, index);
    }
    if rs[index].body.recordType != SourceResult || rs[index].body.sourceOrdinal != Some(ordinal) {
      Rejected(rs, index);
      return Reject;
    }
    var expectedState := if ordinal == 3 then ResultsComplete else InProgress;
    if rs[index].body.attemptState != expectedState { Rejected(rs, index); return Reject; }
    return Continue(index + 1);
  }

  method ScanEnd(rs: seq<Record>, start: nat) returns (ok: bool)
    requires 0 < start <= |rs| && StageAt(rs, start) == Ready(4)
    ensures ok <==> InGrammar(rs)
  {
    var index := start;
    if index == |rs| { return true; }
    if rs[index].body.recordType != EvidenceCommit { BrokenStays(rs, index + 1, |rs|); return false; }
    index := index + 1;
    assert StageAt(rs, index) == Committed;
    if index == |rs| { return true; }
    assert index + 1 < |rs| ==> StageAt(rs, index + 1) == Closed || StageAt(rs, index + 1) == Broken;
    ok := index + 1 == |rs| && rs[index].body.recordType == Finalize;
    if index + 1 < |rs| { BrokenStays(rs, index + 2, |rs|); }
  }
}
