/**
  Calls from many threads at once. A call resolves its token in one critical section and does its work in a
  second one; between the two any number of other calls may enter and finish. A call whose token does not resolve
  is answered at once.
 */
module RetentionThreads {
  import opened Prelude
  import opened Retention
  import opened RetentionSafety

  /** A call between its two critical sections, with the record its token resolved to. */
  datatype Waiting = Waiting(call: Call, record: Record)

  datatype Answered = Answered(call: Call, answer: Result<Token, Refusal>)

  /** The authority, the threads that hold a resolved record, and the calls answered, in the order of their answers. */
  datatype World = World(state: State, waiting: map<nat, Waiting>, answered: seq<Answered>) {
    predicate WellTyped() {
      forall t | t in waiting :: !waiting[t].call.Historical? && KindOf(waiting[t].record) == KindFor(waiting[t].call)
    }
  }

  datatype Move = Enter(thread: nat, call: Call) | Finish(thread: nat)

  const INITIAL: World := World(EMPTY, map[], [])

  function KindFor(call: Call): Kind
    requires !call.Historical?
  {
    match call
    case Migrate(_, _) => EvidenceKind
    case Prepare(_) => MigrationKind
    case HumanReview(_) => PlanKind
    case Begin(_) => ReviewKind
    case RecordSource(_, _, _) => AttemptKind
  }

  /** The second critical section: the token is not looked at again. */
  function Locked(s: State, call: Call, r: Record): (State, Result<Token, Refusal>)
    requires !call.Historical? && KindOf(r) == KindFor(call)
  {
    match call
    case Migrate(_, to) => MigrateOn(s, r, to)
    case Prepare(_) => PrepareOn(s, r)
    case HumanReview(_) => ReviewOn(s, r)
    case Begin(_) => BeginOn(s, r)
    case RecordSource(_, source, state) => RecordSourceOn(s, r, source, state)
  }

  function Answer(w: World, call: Call, done: (State, Result<Token, Refusal>)): World {
    w.(state := done.0, answered := w.answered + [Answered(call, done.1)])
  }

  function Step(w: World, m: Move): (next: World)
    requires w.WellTyped()
    ensures next.WellTyped()
  {
    match m
    case Enter(thread, call) =>
      if thread in w.waiting then w
      else if call.Historical? then Answer(w, call, HistoricalSpec(w.state))
      else (
        match Resolve(w.state, call.token, KindFor(call))
        case Err(e) => Answer(w, call, (w.state, Err(e)))
        case Ok(r) => w.(waiting := w.waiting[thread := Waiting(call, r)])
      )
    case Finish(thread) =>
      if thread !in w.waiting then w
      else
        var waiting := w.waiting[thread];
        Answer(w.(waiting := w.waiting - {thread}), waiting.call, Locked(w.state, waiting.call, waiting.record))
  }

  function Interleave(w: World, moves: seq<Move>): World
    requires w.WellTyped()
    decreases |moves|
  {
    if moves == [] then w else Interleave(Step(w, moves[0]), moves[1..])
  }

  function Calls(answered: seq<Answered>): (calls: seq<Call>)
    ensures |calls| == |answered|
  {
    seq(|answered|, i requires 0 <= i < |answered| => answered[i].call)
  }

  /** The answers are those of the same calls made one after another, and a waiting call's token still resolves to
      the record it holds. */
  ghost predicate Sequential(w: World) {
    && w.WellTyped()
    && w.state == Run(EMPTY, Calls(w.answered))
    && (forall i | 0 <= i < |w.answered| :: AnswerAt(w.answered, i))
    && forall t | t in w.waiting ::
         Resolve(w.state, w.waiting[t].call.token, KindFor(w.waiting[t].call)) == Ok(w.waiting[t].record)
  }

  predicate AnswerAt(answered: seq<Answered>, i: nat)
    requires i < |answered|
  {
    answered[i].answer == Apply(Run(EMPTY, Calls(answered[..i])), answered[i].call).1
  }

  lemma {:induction false} RunOneMore(s: State, calls: seq<Call>, call: Call)
    ensures Run(s, calls + [call]) == Apply(Run(s, calls), call).0
    decreases |calls|
  {
    hide Apply;
    if calls == [] {
      assert ([] + [call])[1..] == [];
      assert Run(Apply(s, call).0, []) == Apply(s, call).0;
    } else {
      assert (calls + [call])[1..] == calls[1..] + [call];
      RunOneMore(Apply(s, calls[0]).0, calls[1..], call);
    }
  }

  /** An answer that is the call's own, made now, keeps the answers those of sequential calls. */
  lemma AnswerKeeps(w: World, call: Call)
    requires Sequential(w)
    ensures Sequential(Answer(w, call, Apply(w.state, call)))
  {
    hide Apply, Run, Resolve;
    var next := Answer(w, call, Apply(w.state, call));
    assert Calls(next.answered) == Calls(w.answered) + [call];
    RunOneMore(EMPTY, Calls(w.answered), call);
    forall i | 0 <= i < |next.answered|
      ensures AnswerAt(next.answered, i)
    {
      if i < |w.answered| {
        assert AnswerAt(w.answered, i);
        assert next.answered[..i] == w.answered[..i];
      } else {
        assert next.answered[..i] == w.answered;
      }
    }
    forall t | t in w.waiting
      ensures Resolve(next.state, w.waiting[t].call.token, KindFor(w.waiting[t].call)) == Ok(w.waiting[t].record)
    {
      StillResolves(w.state, call, w.waiting[t].call.token, KindFor(w.waiting[t].call));
    }
  }

  lemma StillResolves(s: State, call: Call, t: Token, kind: Kind)
    requires Resolve(s, t, kind).Ok?
    ensures Resolve(Apply(s, call).0, t, kind) == Resolve(s, t, kind)
  {
    CallOnlyAdds(s, call);
    hide Apply;
  }

  lemma LockedIsCall(s: State, call: Call, r: Record)
    requires !call.Historical? && Resolve(s, call.token, KindFor(call)) == Ok(r)
    ensures Locked(s, call, r) == Apply(s, call)
  {
  }

  lemma UnresolvedIsCall(s: State, call: Call)
    requires !call.Historical? && Resolve(s, call.token, KindFor(call)).Err?
    ensures Apply(s, call) == (s, Err(Resolve(s, call.token, KindFor(call)).error))
  {
  }

  lemma MoveKeeps(w: World, m: Move)
    requires Sequential(w)
    ensures Sequential(Step(w, m))
  {
    hide Run, Resolve, Locked, AnswerAt;
    match m
    case Enter(thread, call) =>
      if thread !in w.waiting {
        if call.Historical? {
          AnswerKeeps(w, call);
        } else if Resolve(w.state, call.token, KindFor(call)).Err? {
          UnresolvedIsCall(w.state, call);
          AnswerKeeps(w, call);
        }
      }
    case Finish(thread) =>
      if thread in w.waiting {
        var waiting := w.waiting[thread];
        LockedIsCall(w.state, waiting.call, waiting.record);
        AnswerKeeps(w.(waiting := w.waiting - {thread}), waiting.call);
      }
  }

  lemma {:induction false} MovesKeep(w: World, moves: seq<Move>)
    requires Sequential(w)
    ensures Sequential(Interleave(w, moves))
    decreases |moves|
  {
    hide Step, Run, Resolve, AnswerAt;
    if moves != [] {
      MoveKeeps(w, moves[0]);
      MovesKeep(Step(w, moves[0]), moves[1..]);
    }
  }

  /**
    However the calls of many threads interleave, the authority and every answer are those of the same calls made
    one after another, in the order in which they were answered.
   */
  lemma InterleavingIsSequential(moves: seq<Move>)
    ensures var w := Interleave(INITIAL, moves);
            && w.state == Run(EMPTY, Calls(w.answered))
            && forall i | 0 <= i < |w.answered| ::
                 w.answered[i].answer == Apply(Run(EMPTY, Calls(w.answered[..i])), w.answered[i].call).1
  {
    MovesKeep(INITIAL, moves);
    hide Run, Apply;
    var w := Interleave(INITIAL, moves);
    forall i | 0 <= i < |w.answered|
      ensures w.answered[i].answer == Apply(Run(EMPTY, Calls(w.answered[..i])), w.answered[i].call).1
    {
      assert AnswerAt(w.answered, i);
    }
  }

  /** So no interleaving forks the attempt: at most five records, one for each generation, only the last active. */
  lemma OneChainForThreads(moves: seq<Move>)
    ensures var s := Interleave(INITIAL, moves).state;
            var chain := Chain(s.records);
            && |chain| <= 5
            && (forall k | 0 <= k < |chain| :: chain[k].generation == k && Attempted(chain[k].states) == k)
            && (forall k | 0 < k < |chain| :: chain[k].previous == Some(chain[k - 1].recordId))
            && s.active == (if chain == [] then map[] else map[AttemptId(PLAN) := chain[|chain| - 1].recordId])
  {
    hide Run, Apply, Chain, Attempted, Interleave;
    InterleavingIsSequential(moves);
    OneChain(Calls(Interleave(INITIAL, moves).answered));
  }

  /** Nor does any leave a token that does not project: a token issued to whatever thread projects, and an attempt
      shows as superseded exactly when it is not the last of the chain. */
  lemma EveryTokenProjectsForThreads(moves: seq<Move>, i: nat)
    requires i < |Interleave(INITIAL, moves).state.records|
    ensures var s := Interleave(INITIAL, moves).state;
            var r := s.records[i];
            var p := ProjectSpec(s, Token(KindOf(r), i));
            && p == Ok(ProjectionOf(s, r))
            && (r.AttemptRecord? ==>
                  && (!p.value.superseded <==>
                      Chain(s.records) != [] && r.attempt == Chain(s.records)[|Chain(s.records)| - 1])
                  && p.value.generation == Attempted(r.attempt.states))
  {
    hide Run, Apply, Chain, Attempted, Interleave, ProjectSpec, ProjectionOf;
    InterleavingIsSequential(moves);
    EveryTokenProjects(Calls(Interleave(INITIAL, moves).answered), i);
  }

  /** And none lets a result be committed, even when other calls run between the resolutions of the two tokens. */
  lemma CommitNeverSucceedsForThreads(moves: seq<Move>, later: seq<Move>, attempt: Token, evidence: Token)
    ensures var a := Resolve(Interleave(INITIAL, moves).state, attempt, AttemptKind);
            var e := Resolve(Interleave(INITIAL, moves + later).state, evidence, EvidenceKind);
            a.Ok? && e.Ok? ==> CommitOn(a.value, e.value) == Err(CurrentResultRequired)
  {
    InterleavingIsSequential(moves + later);
    var s := Interleave(INITIAL, moves + later).state;
    RunKeeps(EMPTY, Calls(Interleave(INITIAL, moves + later).answered));
    hide Interleave, Run, Apply;
    if Resolve(s, evidence, EvidenceKind).Ok? {
      assert WellBorn(Resolve(s, evidence, EvidenceKind).value);
    }
  }
}
