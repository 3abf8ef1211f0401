/** What an accepted journal says about the run that wrote it. */
module JournalMeaning {
  import opened Options
  import opened Journal
  import opened JournalChecker

  predicate StartsWork(b: Body, w: Work) {
    b.OperationStarted? && Work(b.op.kind, b.op.item) == w
  }

  predicate FinishesOperation(b: Body, op: Operation) {
    b.OperationFinished? && b.op.id == op.id
  }

  predicate FinishesAttempt(b: Body, attempt: string) {
    b.AttemptFinished? && b.attempt == attempt
  }

  predicate TracesItem(b: Body, item: string) {
    b.TraceSaved? && b.item == item
  }

  lemma {:induction false} FinishOnce(plan: Plan, bodies: seq<Body>, i: nat, j: nat)
    requires LegalHistory(plan, bodies) && i < j < |bodies|
    requires bodies[i].OperationFinished? && bodies[j].OperationFinished?
    ensures bodies[i].op.id != bodies[j].op.id
  {
    Earlier(bodies, i, j);
    LegalAt(plan, bodies, j);
  }

  lemma {:induction false} AttemptFinishOnce(plan: Plan, bodies: seq<Body>, i: nat, j: nat)
    requires LegalHistory(plan, bodies) && i < j < |bodies|
    requires bodies[i].AttemptFinished? && bodies[j].AttemptFinished?
    ensures bodies[i].attempt != bodies[j].attempt
  {
    Earlier(bodies, i, j);
    LegalAt(plan, bodies, j);
  }

  lemma {:induction false} TraceOnce(plan: Plan, bodies: seq<Body>, i: nat, j: nat)
    requires LegalHistory(plan, bodies) && i < j < |bodies|
    requires bodies[i].TraceSaved? && bodies[j].TraceSaved?
    ensures bodies[i].item != bodies[j].item
  {
    Earlier(bodies, i, j);
    LegalAt(plan, bodies, j);
  }

  /** Every finish lies after its start. */
  lemma {:induction false} FinishAfterStart(plan: Plan, bodies: seq<Body>, i: nat, j: nat)
    requires LegalHistory(plan, bodies) && i < |bodies| && j < |bodies|
    requires bodies[i].OperationStarted? && FinishesOperation(bodies[j], bodies[i].op)
    ensures i < j && bodies[j].op == bodies[i].op
  {
    hide LegalHistory;
    LegalAt(plan, bodies, j);
    var k: nat :| k < j && bodies[..j][k] == OperationStarted(bodies[j].op);
    if i < k {
      LaterStartDiffers(plan, bodies, i, k);
    } else if k < i {
      LaterStartDiffers(plan, bodies, k, i);
    }
  }

  lemma {:induction false} OnlyImportsAreReused(plan: Plan, bodies: seq<Body>, j: nat)
    requires LegalHistory(plan, bodies) && j < |bodies| && bodies[j].OperationFinished?
    ensures bodies[j].outcome == Reused ==> bodies[j].op.kind == Import
  {
    LegalAt(plan, bodies, j);
  }

  lemma {:induction false} TraceFollowsFinish(plan: Plan, bodies: seq<Body>, t: nat)
    requires LegalHistory(plan, bodies) && t < |bodies| && bodies[t].TraceSaved?
    ensures exists f :: 0 <= f < t && bodies[f].OperationFinished? && bodies[f].outcome == Completed
              && bodies[f].op.id == bodies[t].operationId
              && Work(bodies[f].op.kind, bodies[f].op.item) == Work(Recall, bodies[t].item)
  {
    LegalAt(plan, bodies, t);
    var op: Operation :| op.id == bodies[t].operationId && op.kind == Recall && op.item == bodies[t].item
                         && FinishedAs(bodies[..t], op, Completed);
    var e :| e in bodies[..t] && e.OperationFinished? && e.op == op && e.outcome == Completed;
    var f: nat :| f < t && bodies[..t][f] == e;
    assert bodies[f] == e;
  }

  lemma {:induction false} EndsAndBegins(plan: Plan, bodies: seq<Body>, i: nat)
    requires LegalHistory(plan, bodies) && i < |bodies|
    ensures bodies[i].RunStarted? <==> i == 0
    ensures bodies[i].RunFinished? ==> i == |bodies| - 1
  {
    LegalAt(plan, bodies, i);
    if i < |bodies| - 1 {
      LegalAt(plan, bodies, |bodies| - 1);
      Earlier(bodies, i, |bodies| - 1);
    }
  }

  lemma {:induction false} NewIds(plan: Plan, past: seq<Body>, b: Body)
    requires Legal(plan, past, b)
    ensures b.OperationStarted? ==> b.op.id !in OperationIds(past)
    ensures b.AttemptStarted? ==> b.attempt !in AttemptIds(past)
  {
  }

  lemma {:induction false} StartedOnce(plan: Plan, bodies: seq<Body>, w: Work, i: nat)
    requires LegalHistory(plan, bodies) && i < |bodies| && StartsWork(bodies[i], w) && w.kind != Setup
    ensures forall k: nat :: k < |bodies| && StartsWork(bodies[k], w) ==> k == i
  {
    hide LegalHistory;
    forall k: nat | k < |bodies| && StartsWork(bodies[k], w)
      ensures k == i
    {
      if k < i {
        LaterStartDiffers(plan, bodies, k, i);
      } else if i < k {
        LaterStartDiffers(plan, bodies, i, k);
      }
    }
  }

  lemma {:induction false} FinishedOnce(plan: Plan, bodies: seq<Body>, op: Operation, j: nat)
    requires LegalHistory(plan, bodies) && j < |bodies| && FinishesOperation(bodies[j], op)
    ensures forall k: nat :: k < |bodies| && FinishesOperation(bodies[k], op) ==> k == j
  {
    hide LegalHistory;
    forall k: nat | k < |bodies| && FinishesOperation(bodies[k], op)
      ensures k == j
    {
      if k < j {
        FinishOnce(plan, bodies, k, j);
      } else if j < k {
        FinishOnce(plan, bodies, j, k);
      }
    }
  }

  lemma {:induction false} StartAndFinish(plan: Plan, bodies: seq<Body>, w: Work) returns (i: nat, j: nat)
    requires LegalHistory(plan, bodies) && CompleteHistory(plan, bodies) && w in PlannedWork(plan)
    ensures i < j < |bodies| && w.kind != Setup && StartsWork(bodies[i], w)
    ensures bodies[j].OperationFinished? && bodies[j].op == bodies[i].op
    ensures bodies[j].outcome == Completed || (bodies[j].outcome == Reused && w.kind == Import)
  {
    hide Legal, LegalHistory;
    assert WorkStarted(bodies, w);
    var s :| s in bodies && s.OperationStarted? && Work(s.op.kind, s.op.item) == w;
    i :| 0 <= i < |bodies| && bodies[i] == s;
    assert OperationStarted(s.op) in bodies;
    var o := if FinishedAs(bodies, s.op, Completed) then Completed else Reused;
    assert FinishedAs(bodies, s.op, o);
    var f :| f in bodies && f.OperationFinished? && f.op == s.op && f.outcome == o;
    j :| 0 <= j < |bodies| && bodies[j] == f;
    FinishAfterStart(plan, bodies, i, j);
    OnlyImportsAreReused(plan, bodies, j);
  }

  /** Every planned import and every planned recall was started exactly once and finished exactly once, completed or
      (imports only) reused. */
  lemma {:induction false} PlannedWorkDoneOnce(plan: Plan, records: seq<Record>, w: Work)
    requires Accepts(plan, records, true)
    requires (w.kind == Import && w.item in plan.imports) || (w.kind == Recall && w.item in plan.cases)
    ensures exists i, j :: 0 <= i < j < |records| && StartsWork(records[i].body, w)
              && records[j].body.OperationFinished? && records[j].body.op == records[i].body.op
              && (records[j].body.outcome == Completed || (records[j].body.outcome == Reused && w.kind == Import))
              && (forall k :: 0 <= k < |records| && StartsWork(records[k].body, w) ==> k == i)
              && (forall k :: 0 <= k < |records| && FinishesOperation(records[k].body, records[i].body.op) ==> k == j)
  {
    hide LegalHistory, CompleteHistory;
    var bodies := Bodies(records);
    var i, j := StartAndFinish(plan, bodies, w);
    StartedOnce(plan, bodies, w, i);
    FinishedOnce(plan, bodies, bodies[i].op, j);
    assert forall k :: 0 <= k < |records| ==> records[k].body == bodies[k];
    assert StartsWork(records[i].body, w) && records[j].body.op == records[i].body.op;
  }

  /** Every attempt started inside its open operation and, in a complete journal, finished exactly once. */
  lemma {:induction false} AttemptInsideOperation(plan: Plan, records: seq<Record>, complete: bool, i: nat)
    requires Accepts(plan, records, complete) && i < |records| && records[i].body.AttemptStarted?
    ensures exists s :: 0 <= s < i && records[s].body == OperationStarted(records[i].body.op)
    ensures forall f :: 0 <= f < |records| && FinishesOperation(records[f].body, records[i].body.op) ==> i < f
    ensures complete ==> exists f :: i < f < |records| && FinishesAttempt(records[f].body, records[i].body.attempt)
    ensures forall f, g :: 0 <= f < g < |records| && FinishesAttempt(records[f].body, records[i].body.attempt)
              ==> !FinishesAttempt(records[g].body, records[i].body.attempt)
  {
    var bodies := Bodies(records);
    LegalAt(plan, bodies, i);
    var s: nat :| s < i && bodies[..i][s] == OperationStarted(bodies[i].op);
    assert records[s].body == OperationStarted(records[i].body.op);
    forall f: nat | f < |records| && FinishesOperation(records[f].body, records[i].body.op)
      ensures i < f
    {
      if f < i {
        Earlier(bodies, f, i);
      }
    }
    if complete {
      assert bodies[i] in bodies;
      AttemptEndsAfterItBegan(plan, bodies, i);
    }
    forall f: nat, g: nat | f < g < |records| && FinishesAttempt(records[f].body, records[i].body.attempt)
      ensures !FinishesAttempt(records[g].body, records[i].body.attempt)
    {
      if FinishesAttempt(records[g].body, records[i].body.attempt) {
        AttemptFinishOnce(plan, bodies, f, g);
      }
    }
  }

  lemma {:induction false} AttemptEndsAfterItBegan(plan: Plan, bodies: seq<Body>, i: nat)
    requires LegalHistory(plan, bodies) && i < |bodies| && bodies[i].AttemptStarted?
    requires AttemptEnded(bodies, bodies[i].attempt)
    ensures exists f :: i < f < |bodies| && FinishesAttempt(bodies[f], bodies[i].attempt)
  {
    var b :| b in bodies && b.AttemptFinished? && b.attempt == bodies[i].attempt;
    var f: nat :| f < |bodies| && bodies[f] == b;
    LegalAt(plan, bodies, f);
    var k: nat :| k < f && bodies[..f][k] == AttemptStarted(b.op, b.attempt, b.tool);
    if i < k {
      LaterAttemptDiffers(plan, bodies, i, k);
    } else if k < i {
      LaterAttemptDiffers(plan, bodies, k, i);
    }
    assert FinishesAttempt(bodies[f], bodies[i].attempt);
  }

  /** Every planned recall has exactly one trace, saved after the recall finished as completed. */
  lemma {:induction false} RecallTracedOnce(plan: Plan, records: seq<Record>, item: string)
    requires Accepts(plan, records, true) && item in plan.cases
    ensures exists f, t :: 0 <= f < t < |records| && TracesItem(records[t].body, item)
              && records[f].body.OperationFinished? && records[f].body.outcome == Completed
              && Work(records[f].body.op.kind, records[f].body.op.item) == Work(Recall, item)
              && records[f].body.op.id == records[t].body.operationId
              && forall k :: 0 <= k < |records| && TracesItem(records[k].body, item) ==> k == t
  {
    hide Legal, LegalHistory;
    var bodies := Bodies(records);
    assert Work(Recall, item) in PlannedWork(plan);
    var s :| s in bodies && s.OperationStarted? && Work(s.op.kind, s.op.item) == Work(Recall, item);
    assert OperationStarted(s.op) in bodies;
    var b :| b in bodies && b.TraceSaved? && b.item == item;
    var t: nat :| t < |bodies| && bodies[t] == b;
    TraceFollowsFinish(plan, bodies, t);
    forall k: nat | k < |records| && TracesItem(records[k].body, item)
      ensures k == t
    {
      if k < t {
        TraceOnce(plan, bodies, k, t);
      } else if t < k {
        TraceOnce(plan, bodies, t, k);
      }
    }
    assert TracesItem(records[t].body, item);
  }

  /** The run's own end is the single last record, with outcome completed; its start is the single first one. */
  lemma {:induction false} RunEndsOnce(plan: Plan, records: seq<Record>)
    requires Accepts(plan, records, true)
    ensures |records| > 1 && records[|records| - 1].body == RunFinished(Completed)
    ensures forall i :: 0 <= i < |records| ==> (records[i].body.RunFinished? <==> i == |records| - 1)
    ensures forall i :: 0 <= i < |records| ==> (records[i].body.RunStarted? <==> i == 0)
  {
    var bodies := Bodies(records);
    hide Legal, LegalHistory;
    var b :| b in bodies && b.RunFinished?;
    var e: nat :| e < |bodies| && bodies[e] == b;
    EndsAndBegins(plan, bodies, e);
    EndsAndBegins(plan, bodies, 0);
    forall i: nat | i < |bodies|
      ensures bodies[i].RunStarted? <==> i == 0
      ensures bodies[i].RunFinished? ==> i == e
    {
      EndsAndBegins(plan, bodies, i);
    }
  }

  // ----- What may be written next, and when a journal is complete

  lemma {:induction false} AcceptsNext(plan: Plan, records: seq<Record>, r: Record)
    requires Accepts(plan, records, false)
    ensures Accepts(plan, records + [r], false) <==> Stamped(plan, |records|, r) && Legal(plan, Bodies(records), r.body)
  {
    hide Legal, LegalHistory, Stamped;
    BodiesOfPush(records, r);
    LegalPush(plan, Bodies(records), r.body);
    var all := records + [r];
    assert forall i :: 0 <= i < |records| ==> all[i] == records[i];
    assert all[|records|] == r;
  }

  /** After an accepted journal that has begun and not ended, the start of an operation is accepted next exactly when
      its id is new and it is a setup, a planned import not started yet, or a planned recall not started yet. */
  lemma {:induction false} NextStartAccepted(plan: Plan, records: seq<Record>, op: Operation)
    requires Accepts(plan, records, false) && records != []
    requires forall k :: 0 <= k < |records| ==> !records[k].body.RunFinished?
    ensures Accepts(plan, records + [Record(|records| + 1, plan.captureId, plan.runId, true,
                                            OperationStarted(op))], false)
            <==> && op.id != ""
                 && (forall k :: 0 <= k < |records| && records[k].body.OperationStarted? ==>
                       records[k].body.op.id != op.id)
                 && (op.kind == Setup || (op.kind == Import && op.item in plan.imports)
                     || (op.kind == Recall && op.item in plan.cases))
                 && (op.kind != Setup ==> forall k :: 0 <= k < |records| ==>
                       !StartsWork(records[k].body, Work(op.kind, op.item)))
  {
    var past := Bodies(records);
    AcceptsNext(plan, records, Record(|records| + 1, plan.captureId, plan.runId, true, OperationStarted(op)));
    assert forall b :: b in past <==> exists k :: 0 <= k < |records| && records[k].body == b;
  }

  predicate FinishesWell(b: Body, op: Operation) {
    b.OperationFinished? && b.op == op && (b.outcome == Completed || b.outcome == Reused)
  }

  /** Every operation finished well, every recall was traced, every attempt ended, every planned import and recall was
      started, and the run ended as completed. */
  ghost predicate NothingLeft(plan: Plan, records: seq<Record>) {
    && (forall i :: 0 <= i < |records| && records[i].body.OperationStarted? ==>
          && (exists k :: 0 <= k < |records| && FinishesWell(records[k].body, records[i].body.op))
          && (records[i].body.op.kind == Recall ==>
                exists k :: 0 <= k < |records| && TracesItem(records[k].body, records[i].body.op.item)))
    && (forall i :: 0 <= i < |records| && records[i].body.AttemptStarted? ==>
          exists k :: 0 <= k < |records| && FinishesAttempt(records[k].body, records[i].body.attempt))
    && (forall item :: item in plan.imports ==>
          exists k :: 0 <= k < |records| && StartsWork(records[k].body, Work(Import, item)))
    && (forall item :: item in plan.cases ==>
          exists k :: 0 <= k < |records| && StartsWork(records[k].body, Work(Recall, item)))
    && records != [] && records[|records| - 1].body == RunFinished(Completed)
  }

  /** What the prefix predicates say about the records they were read from. */
  lemma {:induction false} OnRecords(records: seq<Record>)
    ensures forall b :: b in Bodies(records) <==> exists k :: 0 <= k < |records| && records[k].body == b
    ensures forall op :: FinishedAs(Bodies(records), op, Completed) || FinishedAs(Bodies(records), op, Reused)
              <==> exists k :: 0 <= k < |records| && FinishesWell(records[k].body, op)
    ensures forall item :: Traced(Bodies(records), item) <==>
              exists k :: 0 <= k < |records| && TracesItem(records[k].body, item)
    ensures forall a :: AttemptEnded(Bodies(records), a) <==>
              exists k :: 0 <= k < |records| && FinishesAttempt(records[k].body, a)
    ensures forall w :: WorkStarted(Bodies(records), w) <==>
              exists k :: 0 <= k < |records| && StartsWork(records[k].body, w)
  {
    var bodies := Bodies(records);
    assert forall k :: 0 <= k < |records| ==> records[k].body in bodies;
  }

  /** A journal is accepted as complete exactly when it is accepted and nothing is left to do in it. */
  lemma {:induction false} CompleteExactly(plan: Plan, records: seq<Record>)
    ensures Accepts(plan, records, true) <==> Accepts(plan, records, false) && NothingLeft(plan, records)
  {
    hide Legal, LegalHistory, FinishedAs, Traced, AttemptEnded, WorkStarted, StartsWork, FinishesWell;
    var bodies := Bodies(records);
    OnRecords(records);
    if Accepts(plan, records, true) {
      RunEndsOnce(plan, records);
      assert forall item :: item in plan.imports ==> Work(Import, item) in PlannedWork(plan);
      assert forall item :: item in plan.cases ==> Work(Recall, item) in PlannedWork(plan);
      assert forall i :: 0 <= i < |records| && records[i].body.OperationStarted? ==>
               OperationStarted(records[i].body.op) in bodies;
    } else if Accepts(plan, records, false) && NothingLeft(plan, records) {
      assert bodies[|records| - 1] in bodies;
      forall b | b in bodies && b.RunFinished?
        ensures b.outcome == Completed
      {
        var e: nat :| e < |bodies| && bodies[e] == b;
        EndsAndBegins(plan, bodies, e);
      }
    }
  }

  // ----- The counts

  function CountStarts(bodies: seq<Body>): nat {
    if bodies == [] then 0
    else CountStarts(bodies[..|bodies| - 1]) + if bodies[|bodies| - 1].OperationStarted? then 1 else 0
  }

  function CountAttempts(bodies: seq<Body>): nat {
    if bodies == [] then 0
    else CountAttempts(bodies[..|bodies| - 1]) + if bodies[|bodies| - 1].AttemptStarted? then 1 else 0
  }

  lemma {:induction false} StartsHaveDistinctIds(plan: Plan, bodies: seq<Body>)
    requires LegalHistory(plan, bodies)
    ensures |OperationIds(bodies)| == CountStarts(bodies) && |AttemptIds(bodies)| == CountAttempts(bodies)
  {
    hide Legal, LegalHistory, OperationIds, AttemptIds;
    if bodies == [] {
      NoIds();
    } else {
      var past, b := bodies[..|bodies| - 1], bodies[|bodies| - 1];
      assert bodies == past + [b];
      LegalPush(plan, past, b);
      StartsHaveDistinctIds(plan, past);
      IdsPush(past, b);
      NewIds(plan, past, b);
    }
  }

  lemma {:induction false} NoIds()
    ensures OperationIds([]) == {} && AttemptIds([]) == {}
  {
  }

  lemma {:induction false} IdsPush(past: seq<Body>, b: Body)
    ensures OperationIds(past + [b]) == OperationIds(past) + if b.OperationStarted? then {b.op.id} else {}
    ensures AttemptIds(past + [b]) == AttemptIds(past) + if b.AttemptStarted? then {b.attempt} else {}
  {
    assert forall x :: x in past + [b] <==> x in past || x == b;
  }

  lemma {:induction false} SameMultiplicities<T>(a: multiset<T>, b: multiset<T>)
    requires forall x :: a[x] == b[x]
    ensures a == b
  {
  }

  /** There is one tally per journal: the counts are a function of the records. */
  lemma {:induction false} TallyIsUnique(plan: Plan, past: seq<Body>, a: multiset<Tally>, b: multiset<Tally>)
    requires IsTally(plan, past, a) && IsTally(plan, past, b)
    ensures a == b
  {
    SameMultiplicities(a, b);
  }

  /** Ending the run does not change the counts. */
  lemma {:induction false} TallyIgnoresTheEnd(plan: Plan, past: seq<Body>, outcome: Outcome, counts: multiset<Tally>)
    requires IsTally(plan, past, counts)
    ensures IsTally(plan, past + [RunFinished(outcome)], counts)
  {
    var b := RunFinished(outcome);
    assert forall x :: x in past + [b] <==> x in past || x == b;
    assert OperationIds(past + [b]) == OperationIds(past);
    assert AttemptIds(past + [b]) == AttemptIds(past);
    PushOthers(past, b);
    forall key
      ensures Expected(plan, past + [b], key) == Expected(plan, past, key)
    {
      match key
      case OperationTally(kind, state) => OperationStateIgnoresTheEnd(past, b, kind, state);
      case AttemptTally(state) => AttemptStateIgnoresTheEnd(past, b, state);
      case NotDispatched =>
        assert (set w | w in PlannedWork(plan) && !WorkStarted(past + [b], w))
            == (set w | w in PlannedWork(plan) && !WorkStarted(past, w));
    }
  }

  lemma {:induction false} OperationStateIgnoresTheEnd(past: seq<Body>, b: Body, kind: Kind, state: Option<Outcome>)
    requires b.RunFinished?
    ensures (set id | id in OperationIds(past + [b]) && OperationInState(past + [b], id, kind, state))
         == (set id | id in OperationIds(past) && OperationInState(past, id, kind, state))
  {
    assert forall x :: x in past + [b] <==> x in past || x == b;
    forall id
      ensures OperationInState(past + [b], id, kind, state) <==> OperationInState(past, id, kind, state)
    {
      PushFinished(past, b, id);
      forall op, o
        ensures FinishedAs(past + [b], op, o) <==> FinishedAs(past, op, o)
      {
        PushFinishedAs(past, b, op, o);
      }
      assert forall op: Operation :: OperationStarted(op) in past + [b] <==> OperationStarted(op) in past;
    }
  }

  lemma {:induction false} AttemptStateIgnoresTheEnd(past: seq<Body>, b: Body, state: Option<Outcome>)
    requires b.RunFinished?
    ensures (set a | a in AttemptIds(past + [b]) && AttemptInState(past + [b], a, state))
         == (set a | a in AttemptIds(past) && AttemptInState(past, a, state))
  {
    assert forall x :: x in past + [b] <==> x in past || x == b;
    forall a
      ensures AttemptInState(past + [b], a, state) <==> AttemptInState(past, a, state)
    {
      PushAttempt(past, b, a);
      forall o
        ensures AttemptEndedAs(past + [b], a, o) <==> AttemptEndedAs(past, a, o)
      {
        PushAttemptEndedAs(past, b, a, o);
      }
    }
  }
}
