/** executionOutcomes: replaying a journal to accept or reject it, and counting its outcomes. */
module JournalChecker {
  import opened Options
  import opened Journal

  datatype OperationEntry = OperationEntry(op: Operation, outcome: Option<Outcome>)
  datatype AttemptEntry = AttemptEntry(op: Operation, tool: string, outcome: Option<Outcome>)

  datatype Checker = Checker(operations: map<string, OperationEntry>, attempts: map<string, AttemptEntry>,
                             work: set<Work>, traces: set<string>, ended: bool)

  /** The keys of the outcome counts. A state is the outcome, or None for an unfinished one. */
  datatype Tally =
    | OperationTally(kind: Kind, state: Option<Outcome>)
    | AttemptTally(state: Option<Outcome>)
    | NotDispatched

  /** One record of the replay loop; None is a rejection. */
  function Step(planned: set<Work>, s: Checker, index: nat, b: Body): Option<Checker> {
    if s.ended || (b.RunStarted? <==> index != 0) then None else
    match b
    case RunStarted => Some(s)
    case OperationStarted(op) =>
      if op.id == "" || op.id in s.operations then None else
      var next := s.(operations := s.operations[op.id := OperationEntry(op, None)]);
      if op.kind == Setup then Some(next) else
      var w := Work(op.kind, op.item);
      if w !in planned || w in s.work then None else Some(next.(work := s.work + {w}))
    case OperationFinished(op, elapsed, outcome) =>
      if !OpenEntry(s, op) || !ValidElapsed(elapsed) || !ValidOutcome(outcome) then None
      else if outcome == Reused && op.kind != Import then None
      else Some(s.(operations := s.operations[op.id := OperationEntry(op, Some(outcome))]))
    case AttemptStarted(op, attempt, tool) =>
      if !OpenEntry(s, op) || attempt == "" || attempt in s.attempts then None
      else Some(s.(attempts := s.attempts[attempt := AttemptEntry(op, tool, None)]))
    case AttemptFinished(op, attempt, tool, elapsed, outcome) =>
      if attempt !in s.attempts || s.attempts[attempt] != AttemptEntry(op, tool, None) then None
      else if !ValidElapsed(elapsed) || !ValidOutcome(outcome) || outcome == Reused then None
      else Some(s.(attempts := s.attempts[attempt := AttemptEntry(op, tool, Some(outcome))]))
    case RetryScheduled(op, delay) =>
      if !OpenEntry(s, op) || delay <= 0 then None else Some(s)
    case TraceSaved(id, item, hash) =>
      if id !in s.operations || s.operations[id].outcome != Some(Completed) || s.operations[id].op.kind != Recall
         || s.operations[id].op.item != item || item in s.traces || hash == "" then None
      else Some(s.(traces := s.traces + {item}))
    case RunFinished(outcome) =>
      if !ValidOutcome(outcome) || outcome == Reused then None else Some(s.(ended := true))
    case UnknownBody => None
  }

  predicate OpenEntry(s: Checker, op: Operation) {
    op.id in s.operations && s.operations[op.id] == OperationEntry(op, None)
  }

  // ----- What the checker's maps mean

  ghost predicate TracksOperations(past: seq<Body>, operations: map<string, OperationEntry>) {
    && (forall id :: id in operations <==> Started(past, id))
    && (forall id :: id in operations ==>
          && operations[id].op.id == id && OperationStarted(operations[id].op) in past
          && match operations[id].outcome
             case None => !Finished(past, id)
             case Some(o) => FinishedAs(past, operations[id].op, o))
  }

  ghost predicate TracksAttempts(past: seq<Body>, attempts: map<string, AttemptEntry>) {
    && (forall a :: a in attempts <==> AttemptBegun(past, a))
    && (forall a :: a in attempts ==>
          && a != "" && AttemptStarted(attempts[a].op, a, attempts[a].tool) in past
          && match attempts[a].outcome
             case None => !AttemptEnded(past, a)
             case Some(o) => AttemptEndedAs(past, a, o))
  }

  ghost predicate Tracks(past: seq<Body>, s: Checker) {
    && TracksOperations(past, s.operations)
    && TracksAttempts(past, s.attempts)
    && (forall w :: w in s.work <==> w.kind != Setup && WorkStarted(past, w))
    && (forall item :: item in s.traces <==> Traced(past, item))
    && (s.ended <==> Ended(past))
  }

  lemma {:induction false} OpenEntryExact(plan: Plan, past: seq<Body>, s: Checker, op: Operation)
    requires LegalHistory(plan, past) && Tracks(past, s)
    ensures OpenEntry(s, op) <==> Open(past, op)
  {
    if Open(past, op) {
      assert Started(past, op.id);
      SameStart(plan, past, op, s.operations[op.id].op);
      if s.operations[op.id].outcome.Some? {
        assert FinishedAs(past, op, s.operations[op.id].outcome.value);
        assert Finished(past, op.id);
      }
    }
  }

  lemma {:induction false} FinishIsUnique(plan: Plan, past: seq<Body>, op: Operation, a: Outcome, b: Outcome)
    requires LegalHistory(plan, past) && FinishedAs(past, op, a) && FinishedAs(past, op, b)
    ensures a == b
  {
    var x :| x in past && x.OperationFinished? && x.op == op && x.outcome == a;
    var y :| y in past && y.OperationFinished? && y.op == op && y.outcome == b;
    var i: nat :| i < |past| && past[i] == x;
    var j: nat :| j < |past| && past[j] == y;
    if i < j {
      Earlier(past, i, j);
      LegalAt(plan, past, j);
    } else if j < i {
      Earlier(past, j, i);
      LegalAt(plan, past, i);
    }
  }

  lemma {:induction false} AttemptEndsDiffer(plan: Plan, past: seq<Body>, i: nat, j: nat)
    requires LegalHistory(plan, past) && i < j < |past| && past[i].AttemptFinished? && past[j].AttemptFinished?
    ensures past[i].attempt != past[j].attempt
  {
    Earlier(past, i, j);
    LegalAt(plan, past, j);
  }

  lemma {:induction false} AttemptEndIsUnique(plan: Plan, past: seq<Body>, attempt: string, a: Outcome, b: Outcome)
    requires LegalHistory(plan, past) && AttemptEndedAs(past, attempt, a) && AttemptEndedAs(past, attempt, b)
    ensures a == b
  {
    hide LegalHistory;
    var x :| x in past && x.AttemptFinished? && x.attempt == attempt && x.outcome == a;
    var y :| y in past && y.AttemptFinished? && y.attempt == attempt && y.outcome == b;
    var i: nat :| i < |past| && past[i] == x;
    var j: nat :| j < |past| && past[j] == y;
    if i < j {
      AttemptEndsDiffer(plan, past, i, j);
    } else if j < i {
      AttemptEndsDiffer(plan, past, j, i);
    }
  }

  lemma {:induction false} FinishedOpWasStarted(plan: Plan, past: seq<Body>, b: Body)
    requires LegalHistory(plan, past) && b in past && b.OperationFinished?
    ensures OperationStarted(b.op) in past
  {
    var i: nat :| i < |past| && past[i] == b;
    LegalAt(plan, past, i);
  }

  lemma {:induction false} EntryOutcomeExact(plan: Plan, past: seq<Body>, s: Checker, op: Operation, o: Outcome)
    requires LegalHistory(plan, past) && Tracks(past, s)
    ensures FinishedAs(past, op, o) <==>
              op.id in s.operations && s.operations[op.id] == OperationEntry(op, Some(o))
  {
    if FinishedAs(past, op, o) {
      var b :| b in past && b.OperationFinished? && b.op == op && b.outcome == o;
      FinishedOpWasStarted(plan, past, b);
      assert Started(past, op.id) && Finished(past, op.id);
      SameStart(plan, past, op, s.operations[op.id].op);
      FinishIsUnique(plan, past, op, o, s.operations[op.id].outcome.value);
    }
  }

  /** The step rejects exactly what is not legal next. */
  lemma {:induction false} StepAcceptsLegal(plan: Plan, past: seq<Body>, s: Checker, b: Body)
    requires LegalHistory(plan, past) && Tracks(past, s)
    ensures Step(PlannedWork(plan), s, |past|, b).Some? <==> Legal(plan, past, b)
  {
    match b
    case OperationFinished(op, _, _) => OpenEntryExact(plan, past, s, op);
    case AttemptStarted(op, _, _) => OpenEntryExact(plan, past, s, op);
    case RetryScheduled(op, _) => OpenEntryExact(plan, past, s, op);
    case AttemptFinished(op, attempt, tool, _, _) =>
      if AttemptStarted(op, attempt, tool) in past {
        assert AttemptBegun(past, attempt);
        SameAttempt(plan, past, AttemptStarted(op, attempt, tool),
            AttemptStarted(s.attempts[attempt].op, attempt, s.attempts[attempt].tool));
      }
    case TraceSaved(id, item, _) =>
      if id in s.operations {
        EntryOutcomeExact(plan, past, s, s.operations[id].op, Completed);
      }
      forall op: Operation | op.id == id
        ensures FinishedAs(past, op, Completed) <==>
                  id in s.operations && s.operations[id] == OperationEntry(op, Some(Completed))
      {
        EntryOutcomeExact(plan, past, s, op, Completed);
      }
    case _ =>
  }

  // What one more body changes in each view of the past.

  lemma {:induction false} PushStarted(past: seq<Body>, b: Body, id: string)
    ensures Started(past + [b], id) <==> Started(past, id) || (b.OperationStarted? && b.op.id == id)
  {
    assert b in past + [b];
    assert forall x :: x in past ==> x in past + [b];
  }

  lemma {:induction false} PushFinished(past: seq<Body>, b: Body, id: string)
    ensures Finished(past + [b], id) <==> Finished(past, id) || (b.OperationFinished? && b.op.id == id)
  {
    assert b in past + [b];
    assert forall x :: x in past ==> x in past + [b];
  }

  lemma {:induction false} PushFinishedAs(past: seq<Body>, b: Body, op: Operation, o: Outcome)
    ensures FinishedAs(past + [b], op, o) <==>
              FinishedAs(past, op, o) || (b.OperationFinished? && b.op == op && b.outcome == o)
  {
    assert b in past + [b];
    assert forall x :: x in past ==> x in past + [b];
  }

  lemma {:induction false} PushAttempt(past: seq<Body>, b: Body, a: string)
    ensures AttemptBegun(past + [b], a) <==> AttemptBegun(past, a) || (b.AttemptStarted? && b.attempt == a)
    ensures AttemptEnded(past + [b], a) <==> AttemptEnded(past, a) || (b.AttemptFinished? && b.attempt == a)
  {
    assert b in past + [b];
    assert forall x :: x in past ==> x in past + [b];
  }

  lemma {:induction false} PushAttemptEndedAs(past: seq<Body>, b: Body, a: string, o: Outcome)
    ensures AttemptEndedAs(past + [b], a, o) <==>
              AttemptEndedAs(past, a, o) || (b.AttemptFinished? && b.attempt == a && b.outcome == o)
  {
    assert b in past + [b];
    assert forall x :: x in past ==> x in past + [b];
  }

  lemma {:induction false} PushOthers(past: seq<Body>, b: Body)
    ensures forall w :: WorkStarted(past + [b], w) <==>
              WorkStarted(past, w) || (b.OperationStarted? && Work(b.op.kind, b.op.item) == w)
    ensures forall item :: Traced(past + [b], item) <==> Traced(past, item) || (b.TraceSaved? && b.item == item)
    ensures Ended(past + [b]) <==> Ended(past) || b.RunFinished?
  {
    assert b in past + [b];
    assert forall x :: x in past ==> x in past + [b];
  }

  /** Whatever finished had started. */
  ghost predicate FinishesFollowStarts(past: seq<Body>) {
    && (forall b :: b in past && b.OperationFinished? ==> OperationStarted(b.op) in past)
    && (forall b :: b in past && b.AttemptFinished? ==> AttemptStarted(b.op, b.attempt, b.tool) in past)
  }

  lemma {:induction false} LegalFinishesFollowStarts(plan: Plan, past: seq<Body>)
    requires LegalHistory(plan, past)
    ensures FinishesFollowStarts(past)
  {
    forall b | b in past && (b.OperationFinished? || b.AttemptFinished?)
      ensures b.OperationFinished? ==> OperationStarted(b.op) in past
      ensures b.AttemptFinished? ==> AttemptStarted(b.op, b.attempt, b.tool) in past
    {
      var i: nat :| i < |past| && past[i] == b;
      LegalAt(plan, past, i);
    }
  }

  /** The step keeps the maps in agreement with the records read so far. */
  lemma {:induction false} StepTracks(planned: set<Work>, past: seq<Body>, s: Checker, b: Body)
    requires FinishesFollowStarts(past) && Tracks(past, s)
    requires Step(planned, s, |past|, b).Some?
    ensures Tracks(past + [b], Step(planned, s, |past|, b).value)
  {
    var t := Step(planned, s, |past|, b).value;
    StepTracksOperations(past, s.operations, t.operations, b);
    StepTracksAttempts(past, s.attempts, t.attempts, b);
    PushOthers(past, b);
  }

  lemma {:induction false} StepTracksOperations(past: seq<Body>, s: map<string, OperationEntry>,
                                                t: map<string, OperationEntry>, b: Body)
    requires FinishesFollowStarts(past) && TracksOperations(past, s)
    requires b.OperationStarted? ==> b.op.id !in s && t == s[b.op.id := OperationEntry(b.op, None)]
    requires b.OperationFinished? ==>
               OperationStarted(b.op) in past && t == s[b.op.id := OperationEntry(b.op, Some(b.outcome))]
    requires !b.OperationStarted? && !b.OperationFinished? ==> t == s
    ensures TracksOperations(past + [b], t)
  {
    forall id
      ensures id in t <==> Started(past + [b], id)
    {
      PushStarted(past, b, id);
    }
    forall id | id in t
      ensures match t[id].outcome case None => !Finished(past + [b], id) case Some(o) => FinishedAs(past + [b],
              t[id].op, o)
    {
      PushFinished(past, b, id);
      if t[id].outcome.Some? {
        PushFinishedAs(past, b, t[id].op, t[id].outcome.value);
      }
    }
  }

  lemma {:induction false} StepTracksAttempts(past: seq<Body>, s: map<string, AttemptEntry>,
                                              t: map<string, AttemptEntry>, b: Body)
    requires FinishesFollowStarts(past) && TracksAttempts(past, s)
    requires b.AttemptStarted? ==>
               b.attempt != "" && b.attempt !in s && t == s[b.attempt := AttemptEntry(b.op, b.tool, None)]
    requires b.AttemptFinished? ==>
               b.attempt in s && s[b.attempt] == AttemptEntry(b.op, b.tool, None)
               && t == s[b.attempt := AttemptEntry(b.op, b.tool, Some(b.outcome))]
    requires !b.AttemptStarted? && !b.AttemptFinished? ==> t == s
    ensures TracksAttempts(past + [b], t)
  {
    forall a
      ensures a in t <==> AttemptBegun(past + [b], a)
    {
      PushAttempt(past, b, a);
    }
    forall a | a in t
      ensures match t[a].outcome case None => !AttemptEnded(past + [b], a) case Some(o) => AttemptEndedAs(past + [b], a,
              o)
    {
      PushAttempt(past, b, a);
      if t[a].outcome.Some? {
        PushAttemptEndedAs(past, b, a, t[a].outcome.value);
      }
    }
  }

  // ----- Counting outcomes

  function OperationKey(e: OperationEntry): Tally {
    OperationTally(e.op.kind, e.outcome)
  }

  function AttemptKey(e: AttemptEntry): Tally {
    AttemptTally(e.outcome)
  }

  function OperationIds(past: seq<Body>): set<string> {
    set b | b in past && b.OperationStarted? :: b.op.id
  }

  function AttemptIds(past: seq<Body>): set<string> {
    set b | b in past && b.AttemptStarted? :: b.attempt
  }

  ghost predicate OperationInState(past: seq<Body>, id: string, kind: Kind, state: Option<Outcome>) {
    exists op: Operation :: OperationStarted(op) in past && op.id == id && op.kind == kind
      && match state case None => !Finished(past, id) case Some(o) => FinishedAs(past, op, o)
  }

  ghost predicate AttemptInState(past: seq<Body>, attempt: string, state: Option<Outcome>) {
    && AttemptBegun(past, attempt)
    && match state case None => !AttemptEnded(past, attempt) case Some(o) => AttemptEndedAs(past, attempt, o)
  }

  /** How often a key must be counted: the operations, attempts or work in that state. */
  ghost function Expected(plan: Plan, past: seq<Body>, key: Tally): nat {
    match key
    case OperationTally(kind, state) => |set id | id in OperationIds(past) && OperationInState(past, id, kind, state)|
    case AttemptTally(state) => |set a | a in AttemptIds(past) && AttemptInState(past, a, state)|
    case NotDispatched => |set w | w in PlannedWork(plan) && !WorkStarted(past, w)|
  }

  /** The outcome counts of a journal. */
  ghost predicate IsTally(plan: Plan, past: seq<Body>, counts: multiset<Tally>) {
    forall key :: counts[key] == Expected(plan, past, key)
  }

  predicate OperationComplete(s: Checker, e: OperationEntry) {
    (e.outcome == Some(Completed) || e.outcome == Some(Reused)) && (e.op.kind == Recall ==> e.op.item in s.traces)
  }

  function OperationsOf(s: Checker, ids: set<string>, key: Tally): set<string> {
    set id | id in ids && id in s.operations && OperationKey(s.operations[id]) == key
  }

  function AttemptsOf(s: Checker, ids: set<string>, key: Tally): set<string> {
    set a | a in ids && a in s.attempts && AttemptKey(s.attempts[a]) == key
  }

  lemma {:induction false} OperationsOfPush(s: Checker, ids: set<string>, id: string, key: Tally)
    requires id in s.operations && id !in ids
    ensures |OperationsOf(s, ids + {id}, key)| == |OperationsOf(s, ids, key)| + if OperationKey(s.operations[id]) == key
            then 1 else 0
  {
    var was := OperationsOf(s, ids, key);
    assert OperationsOf(s, ids + {id}, key) == if OperationKey(s.operations[id]) == key then was + {id} else was;
  }

  lemma {:induction false} AttemptsOfPush(s: Checker, ids: set<string>, a: string, key: Tally)
    requires a in s.attempts && a !in ids
    ensures |AttemptsOf(s, ids + {a}, key)| == |AttemptsOf(s, ids, key)| + if AttemptKey(s.attempts[a]) == key then 1
            else 0
  {
    var was := AttemptsOf(s, ids, key);
    assert AttemptsOf(s, ids + {a}, key) == if AttemptKey(s.attempts[a]) == key then was + {a} else was;
  }

  lemma {:induction false} NothingOf(s: Checker, key: Tally)
    ensures OperationsOf(s, {}, key) == {} && AttemptsOf(s, {}, key) == {}
  {
  }

  method TallyOperations(s: Checker, complete: bool) returns (r: Option<multiset<Tally>>)
    ensures r.Some? <==> (complete ==> forall id :: id in s.operations ==> OperationComplete(s, s.operations[id]))
    ensures r.Some? ==> CountsOperations(s, r.value)
    ensures r.Some? ==> |r.value| == |s.operations|
  {
    hide OperationsOf, AttemptsOf, OperationKey, AttemptKey;
    var counts := multiset{};
    var todo := s.operations.Keys;
    assert s.operations.Keys - todo == {};
    forall key
      ensures |OperationsOf(s, s.operations.Keys - todo, key)| == 0
    {
      NothingOf(s, key);
    }
    while todo != {}
      invariant todo <= s.operations.Keys
      invariant complete ==> forall id :: id in s.operations.Keys - todo ==> OperationComplete(s, s.operations[id])
      invariant forall key :: counts[key] == |OperationsOf(s, s.operations.Keys - todo, key)|
      invariant |counts| == |s.operations| - |todo|
    {
      var id :| id in todo;
      var e := s.operations[id];
      if complete && !OperationComplete(s, e) {
        return None;
      }
      ghost var before := s.operations.Keys - todo;
      todo := todo - {id};
      counts := counts + multiset{OperationKey(e)};
      assert s.operations.Keys - todo == before + {id};
      forall key
        ensures counts[key] == |OperationsOf(s, s.operations.Keys - todo, key)|
      {
        OperationsOfPush(s, before, id, key);
      }
    }
    assert s.operations.Keys - {} == s.operations.Keys;
    return Some(counts);
  }

  method TallyAttempts(s: Checker, complete: bool) returns (r: Option<multiset<Tally>>)
    ensures r.Some? <==> (complete ==> forall a :: a in s.attempts ==> s.attempts[a].outcome.Some?)
    ensures r.Some? ==> CountsAttempts(s, r.value)
    ensures r.Some? ==> |r.value| == |s.attempts|
  {
    hide OperationsOf, AttemptsOf, OperationKey, AttemptKey;
    var counts := multiset{};
    var todo := s.attempts.Keys;
    assert s.attempts.Keys - todo == {};
    forall key
      ensures |AttemptsOf(s, s.attempts.Keys - todo, key)| == 0
    {
      NothingOf(s, key);
    }
    while todo != {}
      invariant todo <= s.attempts.Keys
      invariant complete ==> forall a :: a in s.attempts.Keys - todo ==> s.attempts[a].outcome.Some?
      invariant forall key :: counts[key] == |AttemptsOf(s, s.attempts.Keys - todo, key)|
      invariant |counts| == |s.attempts| - |todo|
    {
      var a :| a in todo;
      var e := s.attempts[a];
      if complete && e.outcome.None? {
        return None;
      }
      ghost var before := s.attempts.Keys - todo;
      todo := todo - {a};
      counts := counts + multiset{AttemptKey(e)};
      assert s.attempts.Keys - todo == before + {a};
      forall key
        ensures counts[key] == |AttemptsOf(s, s.attempts.Keys - todo, key)|
      {
        AttemptsOfPush(s, before, a, key);
      }
    }
    assert s.attempts.Keys - {} == s.attempts.Keys;
    return Some(counts);
  }

  method CountUndispatched(planned: set<Work>, work: set<Work>, complete: bool) returns (r: Option<nat>)
    ensures r.Some? <==> (complete ==> planned <= work)
    ensures r.Some? ==> r.value == |planned - work|
  {
    var count := 0;
    var todo := planned;
    while todo != {}
      invariant todo <= planned
      invariant complete ==> planned - todo <= work
      invariant count == |planned - todo - work|
    {
      var w :| w in todo;
      ghost var before := planned - todo - work;
      todo := todo - {w};
      assert planned - todo - work == if w in work then before else before + {w};
      if w !in work {
        count := count + 1;
        if complete {
          return None;
        }
      }
    }
    assert planned - {} - work == planned - work;
    return Some(count);
  }

  // ----- From the maps to the counts and the completeness of a history

  lemma {:induction false} OperationStateExact(plan: Plan, past: seq<Body>, s: Checker, id: string, kind: Kind,
                                               state: Option<Outcome>)
    requires LegalHistory(plan, past) && Tracks(past, s)
    ensures OperationInState(past, id, kind, state) <==>
              id in s.operations && OperationKey(s.operations[id]) == OperationTally(kind, state)
  {
    if OperationInState(past, id, kind, state) {
      var op: Operation :| OperationStarted(op) in past && op.id == id && op.kind == kind
        && match state case None => !Finished(past, id) case Some(o) => FinishedAs(past, op, o);
      assert Started(past, id);
      SameStart(plan, past, op, s.operations[id].op);
      if s.operations[id].outcome.Some? {
        EntryOutcomeExact(plan, past, s, op, s.operations[id].outcome.value);
        assert Finished(past, id);
      }
      if state.Some? {
        EntryOutcomeExact(plan, past, s, op, state.value);
      }
    }
  }

  lemma {:induction false} AttemptStateExact(plan: Plan, past: seq<Body>, s: Checker, a: string, state: Option<Outcome>)
    requires LegalHistory(plan, past) && Tracks(past, s)
    ensures AttemptInState(past, a, state) <==> a in s.attempts && AttemptKey(s.attempts[a]) == AttemptTally(state)
  {
    if a in s.attempts && s.attempts[a].outcome.Some? {
      var o := s.attempts[a].outcome.value;
      assert AttemptEndedAs(past, a, o) && AttemptEnded(past, a);
      if state.Some? && AttemptEndedAs(past, a, state.value) {
        AttemptEndIsUnique(plan, past, a, o, state.value);
      }
    } else if state.Some? && AttemptEndedAs(past, a, state.value) {
      assert AttemptEnded(past, a);
    }
  }

  lemma {:induction false} OperationsExpected(plan: Plan, past: seq<Body>, s: Checker, kind: Kind,
                                              state: Option<Outcome>)
    requires LegalHistory(plan, past) && Tracks(past, s)
    ensures OperationsOf(s, s.operations.Keys, OperationTally(kind, state))
         == (set id | id in OperationIds(past) && OperationInState(past, id, kind, state))
  {
    forall id
      ensures id in s.operations && OperationKey(s.operations[id]) == OperationTally(kind, state)
         <==> id in OperationIds(past) && OperationInState(past, id, kind, state)
    {
      OperationStateExact(plan, past, s, id, kind, state);
    }
  }

  lemma {:induction false} AttemptsExpected(plan: Plan, past: seq<Body>, s: Checker, state: Option<Outcome>)
    requires LegalHistory(plan, past) && Tracks(past, s)
    ensures AttemptsOf(s, s.attempts.Keys, AttemptTally(state))
         == (set a | a in AttemptIds(past) && AttemptInState(past, a, state))
  {
    forall a
      ensures a in s.attempts && AttemptKey(s.attempts[a]) == AttemptTally(state)
         <==> a in AttemptIds(past) && AttemptInState(past, a, state)
    {
      AttemptStateExact(plan, past, s, a, state);
    }
  }

  ghost predicate CountsOperations(s: Checker, counts: multiset<Tally>) {
    forall key :: counts[key] == |OperationsOf(s, s.operations.Keys, key)|
  }

  ghost predicate CountsAttempts(s: Checker, counts: multiset<Tally>) {
    forall key :: counts[key] == |AttemptsOf(s, s.attempts.Keys, key)|
  }

  lemma {:induction false} CountsOnlyTheirKeys(s: Checker, operations: multiset<Tally>, attempts: multiset<Tally>)
    requires CountsOperations(s, operations) && CountsAttempts(s, attempts)
    ensures forall key: Tally :: !key.OperationTally? ==> operations[key] == 0
    ensures forall key: Tally :: !key.AttemptTally? ==> attempts[key] == 0
  {
    forall key: Tally | !key.OperationTally?
      ensures operations[key] == 0
    {
      assert OperationsOf(s, s.operations.Keys, key) == {};
    }
    forall key: Tally | !key.AttemptTally?
      ensures attempts[key] == 0
    {
      assert AttemptsOf(s, s.attempts.Keys, key) == {};
    }
  }

  lemma {:induction false} TallyIsExpected(plan: Plan, past: seq<Body>, s: Checker, operations: multiset<Tally>,
                                           attempts: multiset<Tally>, undispatched: nat)
    requires LegalHistory(plan, past) && Tracks(past, s)
    requires CountsOperations(s, operations) && CountsAttempts(s, attempts)
    requires undispatched == |PlannedWork(plan) - s.work|
    ensures IsTally(plan, past, (operations + attempts)[NotDispatched := undispatched])
    ensures (operations + attempts)[NotDispatched] == 0
  {
    hide LegalHistory, Tracks, OperationsOf, AttemptsOf;
    var counts := (operations + attempts)[NotDispatched := undispatched];
    CountsOnlyTheirKeys(s, operations, attempts);
    UndispatchedExact(plan, past, s);
    forall key
      ensures counts[key] == Expected(plan, past, key)
    {
      match key
      case OperationTally(kind, state) => OperationsExpected(plan, past, s, kind, state);
      case AttemptTally(state) => AttemptsExpected(plan, past, s, state);
      case NotDispatched =>
    }
  }

  lemma {:induction false} UndispatchedExact(plan: Plan, past: seq<Body>, s: Checker)
    requires Tracks(past, s)
    ensures PlannedWork(plan) - s.work == set w | w in PlannedWork(plan) && !WorkStarted(past, w)
    ensures PlannedWork(plan) <= s.work <==> forall w :: w in PlannedWork(plan) ==> WorkStarted(past, w)
    ensures s.ended <==> Ended(past)
  {
  }

  lemma {:induction false} OperationsCompleteExact(plan: Plan, past: seq<Body>, s: Checker)
    requires LegalHistory(plan, past) && Tracks(past, s)
    ensures (forall id :: id in s.operations ==> OperationComplete(s, s.operations[id])) <==>
              forall op :: OperationStarted(op) in past ==>
                && (FinishedAs(past, op, Completed) || FinishedAs(past, op, Reused))
                && (op.kind == Recall ==> Traced(past, op.item))
  {
    forall op | OperationStarted(op) in past
      ensures op.id in s.operations && s.operations[op.id].op == op
    {
      assert Started(past, op.id);
      SameStart(plan, past, op, s.operations[op.id].op);
    }
    forall op, o | OperationStarted(op) in past
      ensures FinishedAs(past, op, o) <==> s.operations[op.id].outcome == Some(o)
    {
      EntryOutcomeExact(plan, past, s, op, o);
    }
  }

  lemma {:induction false} AttemptsCompleteExact(past: seq<Body>, s: Checker)
    requires Tracks(past, s)
    ensures (forall a :: a in s.attempts ==> s.attempts[a].outcome.Some?) <==>
              forall b :: b in past && b.AttemptStarted? ==> AttemptEnded(past, b.attempt)
  {
    forall b | b in past && b.AttemptStarted?
      ensures b.attempt in s.attempts && (s.attempts[b.attempt].outcome.Some? <==> AttemptEnded(past, b.attempt))
    {
      assert AttemptBegun(past, b.attempt);
    }
  }

  lemma {:induction false} TrackedIds(past: seq<Body>, s: Checker)
    requires Tracks(past, s)
    ensures |s.operations| == |OperationIds(past)| && |s.attempts| == |AttemptIds(past)|
  {
    assert s.operations.Keys == OperationIds(past);
    assert s.attempts.Keys == AttemptIds(past);
  }

  lemma {:induction false} RepeatedName(ids: seq<string>, i: nat)
    requires i < |ids| && (ids[i] == "" || ids[i] in ids[..i])
    ensures !DistinctNames(ids)
  {
    if ids[i] in ids[..i] {
      var j :| 0 <= j < i && ids[..i][j] == ids[i];
      assert ids[j] == ids[i];
    }
  }

  method CollectPlanned(kind: Kind, ids: seq<string>, planned: set<Work>) returns (r: Option<set<Work>>)
    requires forall w :: w in planned ==> w.kind != kind
    ensures r.Some? <==> DistinctNames(ids)
    ensures r.Some? ==> r.value == planned + WorkOf(kind, ids)
  {
    var all := planned;
    for i := 0 to |ids|
      invariant DistinctNames(ids[..i])
      invariant all == planned + WorkOf(kind, ids[..i])
    {
      if ids[i] == "" || Work(kind, ids[i]) in all {
        RepeatedName(ids, i);
        return None;
      }
      assert ids[..i + 1] == ids[..i] + [ids[i]];
      all := all + {Work(kind, ids[i])};
    }
    assert ids[..|ids|] == ids;
    return Some(all);
  }

  /** The planned work, when the plan names each item once and none of them is empty. */
  method CollectPlan(plan: Plan) returns (r: Option<set<Work>>)
    ensures r.Some? <==> ValidPlan(plan)
    ensures r.Some? ==> r.value == PlannedWork(plan)
  {
    var imports := CollectPlanned(Import, plan.imports, {});
    if imports.None? {
      return None;
    }
    r := CollectPlanned(Recall, plan.cases, imports.value);
  }

  lemma {:induction false} RejectedIsIllegal(plan: Plan, bodies: seq<Body>, i: nat)
    requires i < |bodies| && !Legal(plan, bodies[..i], bodies[i])
    ensures !LegalHistory(plan, bodies)
  {
  }

  const NewChecker := Checker(map[], map[], {}, {}, false)

  lemma {:induction false} NewCheckerTracksNothing()
    ensures Tracks([], NewChecker)
  {
  }

  lemma {:induction false} NothingIsLegal(plan: Plan)
    ensures LegalHistory(plan, [])
  {
  }

  /** The replay loop. */
  method Replay(plan: Plan, planned: set<Work>, records: seq<Record>, complete: bool) returns (r: Option<Checker>)
    requires planned == PlannedWork(plan)
    ensures r.Some? <==>
              && (forall k :: 0 <= k < |records| ==> Stamped(plan, k, records[k]))
              && LegalHistory(plan, Bodies(records))
              && (complete ==> forall b :: b in Bodies(records) && b.RunFinished? ==> b.outcome == Completed)
    ensures r.Some? ==> Tracks(Bodies(records), r.value)
  {
    hide Legal, LegalHistory, Tracks, Step, PlannedWork;
    var s := NewChecker;
    ghost var bodies := Bodies(records);
    NewCheckerTracksNothing();
    NothingIsLegal(plan);
    for i := 0 to |records|
      invariant forall k :: 0 <= k < i ==> Stamped(plan, k, records[k])
      invariant LegalHistory(plan, bodies[..i])
      invariant Tracks(bodies[..i], s)
      invariant complete ==> forall b :: b in bodies[..i] && b.RunFinished? ==> b.outcome == Completed
    {
      ghost var past := bodies[..i];
      var b := records[i].body;
      if !Stamped(plan, i, records[i]) {
        return None;
      }
      var next := Step(planned, s, i, b);
      StepAcceptsLegal(plan, past, s, b);
      if next.None? {
        RejectedIsIllegal(plan, bodies, i);
        return None;
      }
      if complete && b.RunFinished? && b.outcome != Completed {
        assert bodies[i] in bodies;
        return None;
      }
      LegalFinishesFollowStarts(plan, past);
      StepTracks(planned, past, s, b);
      LegalPush(plan, past, b);
      s := next.value;
      assert bodies[..i + 1] == past + [b];
    }
    assert bodies[..|records|] == bodies;
    return Some(s);
  }

  /** Accepts exactly the journals that are legal (and complete, when asked), and counts their outcomes. */
  method ExecutionOutcomes(plan: Plan, records: seq<Record>, complete: bool) returns (r: Option<multiset<Tally>>)
    ensures r.Some? <==> Accepts(plan, records, complete)
    ensures r.Some? ==> IsTally(plan, Bodies(records), r.value)
    ensures r.Some? ==> |r.value| == |OperationIds(Bodies(records))| + |AttemptIds(Bodies(records))|
                                     + |set w | w in PlannedWork(plan) && !WorkStarted(Bodies(records), w)|
  {
    hide Legal, Tracks, OperationComplete, IsTally, CountsOperations, CountsAttempts, Started, Finished, FinishedAs;
    hide WorkStarted, Traced, AttemptEnded, LegalHistory;
    var planned := CollectPlan(plan);
    if planned.None? {
      return None;
    }
    var replayed := Replay(plan, planned.value, records, complete);
    if replayed.None? {
      return None;
    }
    var s := replayed.value;
    OperationsCompleteExact(plan, Bodies(records), s);
    AttemptsCompleteExact(Bodies(records), s);
    UndispatchedExact(plan, Bodies(records), s);
    var operations := TallyOperations(s, complete);
    if operations.None? {
      return None;
    }
    var attempts := TallyAttempts(s, complete);
    if attempts.None? {
      return None;
    }
    var undispatched := CountUndispatched(planned.value, s.work, complete);
    if undispatched.None? || (complete && !s.ended) {
      return None;
    }
    TallyIsExpected(plan, Bodies(records), s, operations.value, attempts.value, undispatched.value);
    TrackedIds(Bodies(records), s);
    r := Some((operations.value + attempts.value)[NotDispatched := undispatched.value]);
  }
}
