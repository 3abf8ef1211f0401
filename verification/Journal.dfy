/** The records of an execution journal, and what a journal must look like to be accepted. */
module Journal {
  import D = Distinct

  /** NoKind stands for every kind the harness does not use; planned work is never of that kind. */
  datatype Kind = Setup | Import | Recall | NoKind
  datatype Phase = SetupPhase | FirstQuery | SubsequentQuery
  datatype Outcome = Completed | Failed | Cancelled | Reused | UnknownOutcome
  datatype Elapsed = NotMeasured | Milliseconds(value: real) | NotFinite

  datatype Operation = Operation(id: string, kind: Kind, item: string, phase: Phase)

  datatype Body =
    | RunStarted
    | OperationStarted(op: Operation)
    | OperationFinished(op: Operation, elapsed: Elapsed, outcome: Outcome)
    | AttemptStarted(op: Operation, attempt: string, tool: string)
    | AttemptFinished(op: Operation, attempt: string, tool: string, elapsed: Elapsed, outcome: Outcome)
    | RetryScheduled(op: Operation, delay: int)
    | TraceSaved(operationId: string, item: string, hash: string)
    | RunFinished(outcome: Outcome)
    | UnknownBody

  datatype Record = Record(sequence: int, captureId: string, runId: string, timed: bool, body: Body)

  datatype Work = Work(kind: Kind, item: string)

  datatype Plan = Plan(captureId: string, runId: string, imports: seq<string>, cases: seq<string>)

  predicate ValidElapsed(e: Elapsed) {
    e.Milliseconds? && e.value >= 0.0
  }

  predicate ValidOutcome(o: Outcome) {
    o != UnknownOutcome
  }

  // ----- The plan

  predicate DistinctNames(ids: seq<string>) {
    D.NoRepeats(ids) && "" !in ids
  }

  predicate ValidPlan(plan: Plan) {
    DistinctNames(plan.imports) && DistinctNames(plan.cases)
  }

  function WorkOf(kind: Kind, ids: seq<string>): set<Work> {
    set id | id in ids :: Work(kind, id)
  }

  /** The planned imports and the planned recalls, and nothing else. */
  function PlannedWork(plan: Plan): (work: set<Work>)
    ensures forall w :: w in work <==>
              (w.kind == Import && w.item in plan.imports) || (w.kind == Recall && w.item in plan.cases)
  {
    WorkOf(Import, plan.imports) + WorkOf(Recall, plan.cases)
  }

  // ----- What has happened in a journal prefix

  ghost predicate Started(past: seq<Body>, id: string) {
    exists b :: b in past && b.OperationStarted? && b.op.id == id
  }

  ghost predicate WorkStarted(past: seq<Body>, w: Work) {
    exists b :: b in past && b.OperationStarted? && Work(b.op.kind, b.op.item) == w
  }

  ghost predicate Finished(past: seq<Body>, id: string) {
    exists b :: b in past && b.OperationFinished? && b.op.id == id
  }

  ghost predicate FinishedAs(past: seq<Body>, op: Operation, outcome: Outcome) {
    exists b :: b in past && b.OperationFinished? && b.op == op && b.outcome == outcome
  }

  ghost predicate AttemptBegun(past: seq<Body>, attempt: string) {
    exists b :: b in past && b.AttemptStarted? && b.attempt == attempt
  }

  ghost predicate AttemptEnded(past: seq<Body>, attempt: string) {
    exists b :: b in past && b.AttemptFinished? && b.attempt == attempt
  }

  ghost predicate AttemptEndedAs(past: seq<Body>, attempt: string, outcome: Outcome) {
    exists b :: b in past && b.AttemptFinished? && b.attempt == attempt && b.outcome == outcome
  }

  ghost predicate Traced(past: seq<Body>, item: string) {
    exists b :: b in past && b.TraceSaved? && b.item == item
  }

  ghost predicate Ended(past: seq<Body>) {
    exists b :: b in past && b.RunFinished?
  }

  ghost predicate Open(past: seq<Body>, op: Operation) {
    OperationStarted(op) in past && !Finished(past, op.id)
  }

  /** Whether a body may be the next one after a prefix. */
  ghost predicate Legal(plan: Plan, past: seq<Body>, b: Body) {
    && !Ended(past)
    && (b.RunStarted? <==> past == [])
    && match b
       case RunStarted => true
       case OperationStarted(op) =>
         && op.id != "" && !Started(past, op.id)
         && (op.kind != Setup ==>
               Work(op.kind, op.item) in PlannedWork(plan) && !WorkStarted(past, Work(op.kind, op.item)))
       case OperationFinished(op, elapsed, outcome) =>
         Open(past, op) && ValidElapsed(elapsed) && ValidOutcome(outcome) && (outcome == Reused ==> op.kind == Import)
       case AttemptStarted(op, attempt, tool) =>
         Open(past, op) && attempt != "" && !AttemptBegun(past, attempt)
       case AttemptFinished(op, attempt, tool, elapsed, outcome) =>
         && AttemptStarted(op, attempt, tool) in past && !AttemptEnded(past, attempt)
         && ValidElapsed(elapsed) && ValidOutcome(outcome) && outcome != Reused
       case RetryScheduled(op, delay) => Open(past, op) && delay > 0
       case TraceSaved(id, item, hash) =>
         && (exists op: Operation ::
           op.id == id && op.kind == Recall && op.item == item && FinishedAs(past, op, Completed))
         && !Traced(past, item) && hash != ""
       case RunFinished(outcome) => ValidOutcome(outcome) && outcome != Reused
       case UnknownBody => false
  }

  ghost predicate LegalHistory(plan: Plan, bodies: seq<Body>) {
    forall i :: 0 <= i < |bodies| ==> Legal(plan, bodies[..i], bodies[i])
  }

  /** Nothing is left unfinished, undispatched, failed or untraced, and the run said it completed. */
  ghost predicate CompleteHistory(plan: Plan, bodies: seq<Body>) {
    && (forall op :: OperationStarted(op) in bodies ==>
          && (FinishedAs(bodies, op, Completed) || FinishedAs(bodies, op, Reused))
          && (op.kind == Recall ==> Traced(bodies, op.item)))
    && (forall b :: b in bodies && b.AttemptStarted? ==> AttemptEnded(bodies, b.attempt))
    && (forall w :: w in PlannedWork(plan) ==> WorkStarted(bodies, w))
    && Ended(bodies) && (forall b :: b in bodies && b.RunFinished? ==> b.outcome == Completed)
  }

  predicate Stamped(plan: Plan, index: nat, r: Record) {
    r.sequence == index + 1 && r.captureId == plan.captureId && r.runId == plan.runId && r.timed
  }

  function Bodies(records: seq<Record>): (bodies: seq<Body>)
    ensures |bodies| == |records|
    ensures forall i :: 0 <= i < |records| ==> bodies[i] == records[i].body
  {
    seq(|records|, i requires 0 <= i < |records| => records[i].body)
  }

  /** What executionOutcomes accepts, stated on the records alone. */
  ghost predicate Accepts(plan: Plan, records: seq<Record>, complete: bool) {
    && ValidPlan(plan)
    && (forall i :: 0 <= i < |records| ==> Stamped(plan, i, records[i]))
    && LegalHistory(plan, Bodies(records))
    && (complete ==> CompleteHistory(plan, Bodies(records)))
  }

  lemma {:induction false} BodiesOfPush(records: seq<Record>, r: Record)
    ensures Bodies(records + [r]) == Bodies(records) + [r.body]
  {
  }

  lemma {:induction false} LegalPush(plan: Plan, past: seq<Body>, b: Body)
    ensures LegalHistory(plan, past + [b]) <==> LegalHistory(plan, past) && Legal(plan, past, b)
  {
    var all := past + [b];
    assert forall i :: 0 <= i < |past| ==> all[..i] == past[..i] && all[i] == past[i];
    assert all[..|past|] == past && all[|past|] == b;
    if LegalHistory(plan, all) {
      assert forall i :: 0 <= i < |past| ==> Legal(plan, all[..i], all[i]);
    }
  }

  /** Every prefix of a legal history is legal. */
  lemma {:induction false} LegalPrefix(plan: Plan, bodies: seq<Body>, k: nat)
    requires k <= |bodies| && LegalHistory(plan, bodies)
    ensures LegalHistory(plan, bodies[..k])
  {
    forall i | 0 <= i < k
      ensures Legal(plan, bodies[..k][..i], bodies[..k][i])
    {
      assert bodies[..k][..i] == bodies[..i];
    }
  }

  /** Partial acceptance is closed under journal prefixes. */
  lemma {:induction false} AcceptancePrefix(plan: Plan, records: seq<Record>, complete: bool, k: nat)
    requires k <= |records| && Accepts(plan, records, complete)
    ensures Accepts(plan, records[..k], false)
  {
    LegalPrefix(plan, Bodies(records), k);
    assert Bodies(records[..k]) == Bodies(records)[..k];
  }

  // ----- Uniqueness in a legal history

  lemma {:induction false} LegalAt(plan: Plan, bodies: seq<Body>, i: nat)
    requires LegalHistory(plan, bodies) && i < |bodies|
    ensures Legal(plan, bodies[..i], bodies[i])
  {
  }

  /** An earlier body is in the later prefix. */
  lemma {:induction false} Earlier(bodies: seq<Body>, i: nat, j: nat)
    requires i < j <= |bodies|
    ensures bodies[i] in bodies[..j]
  {
    assert bodies[..j][i] == bodies[i];
  }

  /** An operation is started at most once. */
  lemma {:induction false} LaterStartDiffers(plan: Plan, bodies: seq<Body>, i: nat, j: nat)
    requires LegalHistory(plan, bodies) && i < j < |bodies|
    requires bodies[i].OperationStarted? && bodies[j].OperationStarted?
    ensures bodies[i].op.id != bodies[j].op.id
    ensures bodies[j].op.kind != Setup ==>
              Work(bodies[i].op.kind, bodies[i].op.item) != Work(bodies[j].op.kind, bodies[j].op.item)
  {
    Earlier(bodies, i, j);
    LegalAt(plan, bodies, j);
  }

  lemma {:induction false} LaterAttemptDiffers(plan: Plan, bodies: seq<Body>, i: nat, j: nat)
    requires LegalHistory(plan, bodies) && i < j < |bodies|
    requires bodies[i].AttemptStarted? && bodies[j].AttemptStarted?
    ensures bodies[i].attempt != bodies[j].attempt
  {
    Earlier(bodies, i, j);
    LegalAt(plan, bodies, j);
  }

  lemma {:induction false} SameStart(plan: Plan, bodies: seq<Body>, a: Operation, b: Operation)
    requires LegalHistory(plan, bodies)
    requires OperationStarted(a) in bodies && OperationStarted(b) in bodies && a.id == b.id
    ensures a == b
  {
    var i: nat :| i < |bodies| && bodies[i] == OperationStarted(a);
    var j: nat :| j < |bodies| && bodies[j] == OperationStarted(b);
    if i < j {
      LaterStartDiffers(plan, bodies, i, j);
    } else if j < i {
      LaterStartDiffers(plan, bodies, j, i);
    }
  }

  lemma {:induction false} SameAttempt(plan: Plan, bodies: seq<Body>, a: Body, b: Body)
    requires LegalHistory(plan, bodies) && a in bodies && b in bodies
    requires a.AttemptStarted? && b.AttemptStarted? && a.attempt == b.attempt
    ensures a == b
  {
    var i: nat :| i < |bodies| && bodies[i] == a;
    var j: nat :| j < |bodies| && bodies[j] == b;
    if i < j {
      LaterAttemptDiffers(plan, bodies, i, j);
    } else if j < i {
      LaterAttemptDiffers(plan, bodies, j, i);
    }
  }
}
