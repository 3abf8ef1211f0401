/** Concurrent workers over one journal: every interleaving leaves a journal the checker accepts. */
module JournalRuns {
  import opened Journal
  import opened JournalChecker
  import opened JournalWriter

  datatype Place =
    | Idle              // nothing done yet
    | IdTaken           // operation id allocated, start not appended
    | Running           // start appended
    | AttemptIdTaken    // attempt id allocated, its start not appended
    | InAttempt         // attempt start appended
    | OperationDone     // finish appended
    | TraceWritten      // trace line in the trace file, not yet in the journal
    | Done
    | Stopped           // gave up because the journal had failed

  /** One operation and where the worker running it stands. */
  datatype Task = Task(kind: Kind, item: string, place: Place, op: Operation, number: nat,
                       tries: nat, attemptNumber: nat, tool: string, outcome: Outcome)

  datatype System = System(journal: State, tasks: seq<Task>, ended: bool)

  /** The choices of one step: which atomic action of its code a worker takes, and what the outside world answers.
      One operation may make several calls, each with its own retries, so how often it retries and after what delay is
      left open. */
  datatype Action =
    | TakeId
    | AppendStart(disk: Disk)
    | TakeAttemptId(tool: string)
    | AppendAttemptStart(disk: Disk)
    | AppendAttemptFinish(elapsed: real, outcome: Outcome, disk: Disk)
    | AppendRetry(delay: int, disk: Disk)
    | AppendFinish(elapsed: real, outcome: Outcome, disk: Disk)
    | WriteTrace(written: bool)
    | AppendTrace(hash: string, disk: Disk)

  predicate PlainOutcome(o: Outcome) {
    o == Completed || o == Failed || o == Cancelled
  }

  predicate Enabled(t: Task, a: Action) {
    match a
    case TakeId => t.place == Idle
    case AppendStart(_) => t.place == IdTaken
    case TakeAttemptId(_) => t.place == Running
    case AppendAttemptStart(_) => t.place == AttemptIdTaken
    case AppendAttemptFinish(elapsed, outcome, _) => t.place == InAttempt && elapsed >= 0.0 && PlainOutcome(outcome)
    case AppendRetry(delay, _) => t.place == Running && delay > 0
    case AppendFinish(elapsed, outcome, _) =>
      t.place == Running && elapsed >= 0.0
          && (PlainOutcome(outcome) || (outcome == Reused && t.kind == Import && t.tries == 0))
    case WriteTrace(_) => t.place == OperationDone && t.kind == Recall && t.outcome == Completed
    case AppendTrace(hash, _) => t.place == TraceWritten && hash != ""
  }

  /** The record an append action puts in the journal. */
  function BodyOf(plan: Plan, t: Task, a: Action): Body
    requires !a.TakeId? && !a.TakeAttemptId? && !a.WriteTrace?
  {
    match a
    case AppendStart(_) => OperationStarted(t.op)
    case AppendAttemptStart(_) => AttemptStarted(t.op, AttemptId(plan, t.attemptNumber), t.tool)
    case AppendAttemptFinish(elapsed, outcome, _) =>
      AttemptFinished(t.op, AttemptId(plan, t.attemptNumber), t.tool, Milliseconds(elapsed), outcome)
    case AppendRetry(delay, _) => RetryScheduled(t.op, delay)
    case AppendFinish(elapsed, outcome, _) => OperationFinished(t.op, Milliseconds(elapsed), outcome)
    case AppendTrace(hash, _) => TraceSaved(t.op.id, t.item, hash)
  }

  function JournalAfter(plan: Plan, s: State, t: Task, a: Action): State {
    match a
    case TakeId => OperationAllocated(s, t.kind)
    case TakeAttemptId(_) => AttemptAllocated(s)
    case WriteTrace(written) => s.(failed := s.failed || !written)
    case _ => Appended(plan, s, BodyOf(plan, t, a), a.disk)
  }

  function TaskAfter(plan: Plan, s: State, t: Task, a: Action): Task {
    match a
    case TakeId =>
      t.(place := IdTaken, number := s.nextId + 1,
         op := Operation(OperationId(plan, s.nextId + 1), t.kind, t.item, PhaseFor(s, t.kind)))
    case AppendStart(disk) => t.(place := if s.failed || disk != Written then Stopped else Running)
    case TakeAttemptId(tool) =>
      t.(place := AttemptIdTaken, attemptNumber := s.nextId + 1, tool := tool, tries := t.tries + 1)
    case AppendAttemptStart(disk) => t.(place := if s.failed || disk != Written then Running else InAttempt)
    case AppendAttemptFinish(_, _, _) => t.(place := Running)
    case AppendRetry(_, _) => t
    case AppendFinish(_, outcome, disk) =>
      t.(place := if s.failed || disk != Written then Stopped else OperationDone, outcome := outcome)
    case WriteTrace(written) => t.(place := if s.failed || !written then Stopped else TraceWritten)
    case AppendTrace(_, _) => t.(place := Done)
  }

  predicate Quiet(t: Task) {
    t.place == Idle || t.place == OperationDone || t.place == Done || t.place == Stopped
  }

  function StepOf(plan: Plan, x: System, i: nat, a: Action): System
    requires i < |x.tasks|
  {
    var t := x.tasks[i];
    System(JournalAfter(plan, x.journal, t, a), x.tasks[i := TaskAfter(plan, x.journal, t, a)], false)
  }

  /** One worker takes one action, or the run is ended once no worker is in the middle of anything. */
  ghost predicate Next(plan: Plan, x: System, y: System) {
    || (exists i, a :: 0 <= i < |x.tasks| && !x.ended && Enabled(x.tasks[i], a)
          && y == StepOf(plan, x, i, a))
    || (exists o, disk :: !x.ended && PlainOutcome(o) && (forall i :: 0 <= i < |x.tasks| ==> Quiet(x.tasks[i]))
          && y == System(Appended(plan, x.journal, RunFinished(o), disk), x.tasks, true))
  }

  /** The journal is open, and every planned item belongs to at most one worker. */
  ghost predicate Initial(plan: Plan, x: System) {
    && x.journal == Appended(plan, State(0, 0, 0, false, []), RunStarted, Written) && !x.ended
    && (forall i :: 0 <= i < |x.tasks| ==>
          && x.tasks[i].place == Idle && x.tasks[i].tries == 0
          && (x.tasks[i].kind == Setup || (x.tasks[i].kind == Import && x.tasks[i].item in plan.imports)
              || (x.tasks[i].kind == Recall && x.tasks[i].item in plan.cases)))
    && (forall i, j :: 0 <= i < j < |x.tasks| ==>
          x.tasks[i].kind == Setup || Work(x.tasks[i].kind, x.tasks[i].item) != Work(x.tasks[j].kind, x.tasks[j].item))
  }

  ghost predicate Run(plan: Plan, run: seq<System>) {
    && run != [] && Initial(plan, run[0])
    && forall k :: 0 <= k < |run| - 1 ==> Next(plan, run[k], run[k + 1])
  }

  // ----- The invariant

  predicate HasOperation(t: Task) {
    t.place != Idle
  }

  predicate HasAttempt(t: Task) {
    t.place == AttemptIdTaken || t.place == InAttempt
  }

  /** A worker's view of the journal is right. */
  ghost predicate Consistent(plan: Plan, past: seq<Body>, nextId: nat, t: Task) {
    && (t.kind == Setup || Work(t.kind, t.item) in PlannedWork(plan))
    && (HasOperation(t) ==>
        t.number <= nextId && t.op.id == OperationId(plan, t.number) && t.op.kind == t.kind && t.op.item == t.item)
    && (t.place == Idle || t.place == IdTaken ==> t.kind == Setup || !WorkStarted(past, Work(t.kind, t.item)))
    && (t.place == IdTaken ==> !Started(past, t.op.id))
    && (t.place == Running || HasAttempt(t) ==> Open(past, t.op))
    && (HasAttempt(t) ==> t.attemptNumber <= nextId)
    && (t.place == AttemptIdTaken ==> !AttemptBegun(past, AttemptId(plan, t.attemptNumber)))
    && (t.place == InAttempt ==>
          && AttemptStarted(t.op, AttemptId(plan, t.attemptNumber), t.tool) in past
          && !AttemptEnded(past, AttemptId(plan, t.attemptNumber)))
    && (t.place == OperationDone || t.place == TraceWritten ==> FinishedAs(past, t.op, t.outcome))
    && (t.place == TraceWritten ==> t.kind == Recall && t.outcome == Completed)
    && (t.kind == Recall && t.place != Done && t.place != Stopped ==> !Traced(past, t.item))
  }

  ghost predicate Apart(s: Task, t: Task) {
    && (s.kind == Setup || Work(s.kind, s.item) != Work(t.kind, t.item))
    && (HasOperation(s) && HasOperation(t) ==> s.number != t.number)
    && (HasAttempt(s) && HasAttempt(t) ==> s.attemptNumber != t.attemptNumber)
  }

  ghost predicate IdsBelow(plan: Plan, past: seq<Body>, nextId: nat) {
    && (forall n: nat :: Started(past, OperationId(plan, n)) ==> n <= nextId)
    && (forall n: nat :: AttemptBegun(past, AttemptId(plan, n)) ==> n <= nextId)
  }

  ghost predicate TasksAgree(plan: Plan, past: seq<Body>, nextId: nat, tasks: seq<Task>) {
    && (forall i :: 0 <= i < |tasks| ==> Consistent(plan, past, nextId, tasks[i]))
    && (forall i, j :: 0 <= i < |tasks| && 0 <= j < |tasks| && i != j ==> Apart(tasks[i], tasks[j]))
    && IdsBelow(plan, past, nextId)
  }

  ghost predicate Inv(plan: Plan, x: System) {
    var past := Bodies(x.journal.records);
    && Numbered(plan, x.journal)
    && LegalHistory(plan, past) && past != []
    && (!x.journal.failed ==>
          && (Ended(past) ==> x.ended)
          && (!x.ended ==> TasksAgree(plan, past, x.journal.nextId, x.tasks)))
  }

  predicate IsAppend(a: Action) {
    !a.TakeId? && !a.TakeAttemptId? && !a.WriteTrace?
  }

  /** What a worker appends is legal at that moment. */
  lemma {:induction false} AppendIsLegal(plan: Plan, past: seq<Body>, nextId: nat, t: Task, a: Action)
    requires Consistent(plan, past, nextId, t) && Enabled(t, a) && IsAppend(a)
    requires past != [] && !Ended(past)
    ensures Legal(plan, past, BodyOf(plan, t, a))
  {
    if a.AppendStart? {
      assert t.op.id[|plan.captureId|] == ':';
    }
    if a.AppendAttemptStart? {
      assert AttemptId(plan, t.attemptNumber)[|plan.captureId|] == ':';
    }
  }

  lemma {:induction false} EndsImplyBeginnings(past: seq<Body>, id: string, attempt: string)
    requires FinishesFollowStarts(past)
    ensures Finished(past, id) ==> Started(past, id)
    ensures AttemptEnded(past, attempt) ==> AttemptBegun(past, attempt)
  {
  }

  /** The worker that appended still has the right view. */
  lemma {:induction false} OwnViewKept(plan: Plan, s: State, past: seq<Body>, t: Task, a: Action)
    requires Consistent(plan, past, s.nextId, t) && Enabled(t, a) && IsAppend(a)
    requires FinishesFollowStarts(past) && !s.failed && a.disk == Written
    ensures Consistent(plan, past + [BodyOf(plan, t, a)], s.nextId, TaskAfter(plan, s, t, a))
  {
    var b := BodyOf(plan, t, a);
    assert b in past + [b];
    assert forall x :: x in past ==> x in past + [b];
    EndsImplyBeginnings(past, t.op.id, AttemptId(plan, t.attemptNumber));
    PushOthers(past, b);
    PushFinished(past, b, t.op.id);
    PushFinishedAs(past, b, t.op, TaskAfter(plan, s, t, a).outcome);
    PushAttempt(past, b, AttemptId(plan, t.attemptNumber));
  }

  /** A worker keeps its view when another worker appends. */
  lemma {:induction false} OtherViewKept(plan: Plan, past: seq<Body>, nextId: nat, s: Task, a: Action, t: Task)
    requires Consistent(plan, past, nextId, s) && Enabled(s, a) && IsAppend(a)
    requires Consistent(plan, past, nextId, t) && Apart(s, t) && Apart(t, s)
    ensures Consistent(plan, past + [BodyOf(plan, s, a)], nextId, t)
  {
    var b := BodyOf(plan, s, a);
    assert forall x :: x in past ==> x in past + [b];
    PushOthers(past, b);
    if HasOperation(t) {
      if s.op.id == t.op.id {
        OperationIdsDiffer(plan, s.number, t.number);
      }
      PushStarted(past, b, t.op.id);
      PushFinished(past, b, t.op.id);
      PushFinishedAs(past, b, t.op, t.outcome);
    }
    if HasAttempt(t) {
      if HasAttempt(s) && AttemptId(plan, s.attemptNumber) == AttemptId(plan, t.attemptNumber) {
        AttemptIdsDiffer(plan, s.attemptNumber, t.attemptNumber);
      }
      PushAttempt(past, b, AttemptId(plan, t.attemptNumber));
    }
  }

  lemma {:induction false} IdsStayBelow(plan: Plan, past: seq<Body>, nextId: nat, t: Task, a: Action)
    requires Consistent(plan, past, nextId, t) && Enabled(t, a) && IsAppend(a) && IdsBelow(plan, past, nextId)
    ensures IdsBelow(plan, past + [BodyOf(plan, t, a)], nextId)
  {
    var b := BodyOf(plan, t, a);
    forall n: nat | Started(past + [b], OperationId(plan, n))
      ensures n <= nextId
    {
      PushStarted(past, b, OperationId(plan, n));
      if b.OperationStarted? && t.op.id == OperationId(plan, n) {
        OperationIdsDiffer(plan, t.number, n);
      }
    }
    forall n: nat | AttemptBegun(past + [b], AttemptId(plan, n))
      ensures n <= nextId
    {
      PushAttempt(past, b, AttemptId(plan, n));
      if b.AttemptStarted? && b.attempt == AttemptId(plan, n) {
        AttemptIdsDiffer(plan, t.attemptNumber, n);
      }
    }
  }

  /** Appending keeps all workers in agreement with the journal. */
  lemma {:induction false} AppendKeepsAgreement(plan: Plan, s: State, past: seq<Body>, tasks: seq<Task>, i: nat,
                                                a: Action)
    requires TasksAgree(plan, past, s.nextId, tasks) && FinishesFollowStarts(past)
    requires i < |tasks| && Enabled(tasks[i], a) && IsAppend(a) && !s.failed && a.disk == Written
    ensures TasksAgree(plan, past + [BodyOf(plan, tasks[i], a)], s.nextId, tasks[i := TaskAfter(plan, s, tasks[i], a)])
  {
    hide Consistent;
    var b, t := BodyOf(plan, tasks[i], a), TaskAfter(plan, s, tasks[i], a);
    OwnViewKept(plan, s, past, tasks[i], a);
    IdsStayBelow(plan, past, s.nextId, tasks[i], a);
    forall j | 0 <= j < |tasks| && j != i
      ensures Consistent(plan, past + [b], s.nextId, tasks[j])
    {
      OtherViewKept(plan, past, s.nextId, tasks[i], a, tasks[j]);
    }
    forall j | 0 <= j < |tasks| && j != i
      ensures Apart(t, tasks[j]) && Apart(tasks[j], t)
    {
    }
  }

  /** Taking an id gives the worker one nobody holds and nobody has used. */
  lemma {:induction false} TakeKeepsAgreement(plan: Plan, s: State, past: seq<Body>, tasks: seq<Task>, i: nat,
                                              a: Action)
    requires TasksAgree(plan, past, s.nextId, tasks) && i < |tasks| && Enabled(tasks[i], a)
    requires a.TakeId? || a.TakeAttemptId?
    ensures TasksAgree(plan, past, s.nextId + 1, tasks[i := TaskAfter(plan, s, tasks[i], a)])
  {
    var t := TaskAfter(plan, s, tasks[i], a);
    assert Consistent(plan, past, s.nextId, tasks[i]);
    assert Consistent(plan, past, s.nextId + 1, t);
    forall j | 0 <= j < |tasks| && j != i
      ensures Consistent(plan, past, s.nextId + 1, tasks[j]) && Apart(t, tasks[j]) && Apart(tasks[j], t)
    {
      assert Apart(tasks[i], tasks[j]) && Apart(tasks[j], tasks[i]) && Consistent(plan, past, s.nextId, tasks[j]);
    }
  }

  lemma {:induction false} TraceKeepsAgreement(plan: Plan, s: State, past: seq<Body>, tasks: seq<Task>, i: nat)
    requires TasksAgree(plan, past, s.nextId, tasks) && i < |tasks| && Enabled(tasks[i], WriteTrace(true)) && !s.failed
    ensures TasksAgree(plan, past, s.nextId, tasks[i := TaskAfter(plan, s, tasks[i], WriteTrace(true))])
  {
    var t := TaskAfter(plan, s, tasks[i], WriteTrace(true));
    assert Consistent(plan, past, s.nextId, tasks[i]);
    assert Consistent(plan, past, s.nextId, t);
    forall j | 0 <= j < |tasks| && j != i
      ensures Apart(t, tasks[j]) && Apart(tasks[j], t)
    {
      assert Apart(tasks[i], tasks[j]) && Apart(tasks[j], tasks[i]);
    }
  }

  lemma {:induction false} InitKeeps(plan: Plan, x: System)
    requires Initial(plan, x)
    ensures Inv(plan, x)
  {
    var past := Bodies(x.journal.records);
    assert past == [RunStarted];
    assert Legal(plan, [], RunStarted);
    assert past[..0] == [];
  }

  lemma {:induction false} WorkerStepKeeps(plan: Plan, x: System, i: nat, a: Action)
    requires Inv(plan, x) && !x.ended && i < |x.tasks| && Enabled(x.tasks[i], a)
    ensures Inv(plan, StepOf(plan, x, i, a))
  {
    hide Legal, LegalHistory, Consistent, Apart, IdsBelow;
    var s, past := x.journal, Bodies(x.journal.records);
    if IsAppend(a) {
      var b := BodyOf(plan, x.tasks[i], a);
      AppendKeepsNumbering(plan, s, b, a.disk);
      if !s.failed {
        AppendIsLegal(plan, past, s.nextId, x.tasks[i], a);
        LegalPush(plan, past, b);
        LegalFinishesFollowStarts(plan, past);
        BodiesOfPush(s.records, Record(s.sequence + 1, plan.captureId, plan.runId, true, b));
        if a.disk == Written {
          PushOthers(past, b);
          AppendKeepsAgreement(plan, s, past, x.tasks, i, a);
        }
      }
    } else if !s.failed {
      if a.WriteTrace? {
        if a.written {
          TraceKeepsAgreement(plan, s, past, x.tasks, i);
        }
      } else {
        TakeKeepsAgreement(plan, s, past, x.tasks, i, a);
      }
    }
  }

  lemma {:induction false} EndingIsLegal(plan: Plan, past: seq<Body>, o: Outcome)
    requires past != [] && !Ended(past) && PlainOutcome(o)
    ensures Legal(plan, past, RunFinished(o))
  {
  }

  lemma {:induction false} NextKeeps(plan: Plan, x: System, y: System)
    requires Inv(plan, x) && Next(plan, x, y)
    ensures Inv(plan, y)
  {
    hide Legal, LegalHistory, TasksAgree, Enabled, StepOf;
    if i, a :| 0 <= i < |x.tasks| && !x.ended && Enabled(x.tasks[i], a) && y == StepOf(plan, x, i, a) {
      WorkerStepKeeps(plan, x, i, a);
    } else {
      var o, disk :| !x.ended && PlainOutcome(o)
                   && y == System(Appended(plan, x.journal, RunFinished(o), disk), x.tasks, true);
      var s, past := x.journal, Bodies(x.journal.records);
      AppendKeepsNumbering(plan, s, RunFinished(o), disk);
      if !s.failed {
        EndingIsLegal(plan, past, o);
        LegalPush(plan, past, RunFinished(o));
        BodiesOfPush(s.records, Record(s.sequence + 1, plan.captureId, plan.runId, true, RunFinished(o)));
      }
    }
  }

  lemma {:induction false} RunKeeps(plan: Plan, run: seq<System>, k: nat)
    requires Run(plan, run) && k < |run|
    ensures Inv(plan, run[k])
  {
    if k == 0 {
      InitKeeps(plan, run[0]);
    } else {
      RunKeeps(plan, run, k - 1);
      NextKeeps(plan, run[k - 1], run[k]);
    }
  }

  /** Whatever the interleaving and wherever an append fails, the journal is numbered 1..k and accepted. */
  lemma {:induction false} EveryRunIsAccepted(plan: Plan, run: seq<System>, k: nat)
    requires ValidPlan(plan) && Run(plan, run) && k < |run|
    ensures forall i :: 0 <= i < |run[k].journal.records| ==> run[k].journal.records[i].sequence == i + 1
    ensures Accepts(plan, run[k].journal.records, false)
  {
    RunKeeps(plan, run, k);
  }

  // ----- A run in which everything went well is complete

  /** A worker that has appended the start of its operation. */
  predicate HasStarted(t: Task) {
    t.place != Idle && t.place != IdTaken && t.place != Stopped
  }

  /** Every operation in the journal belongs to a worker. */
  ghost predicate OperationsOwned(past: seq<Body>, tasks: seq<Task>) {
    forall op :: OperationStarted(op) in past ==>
          exists i :: 0 <= i < |tasks| && HasStarted(tasks[i]) && tasks[i].op == op
  }

  ghost predicate InThatAttempt(plan: Plan, t: Task, attempt: string) {
    t.place == InAttempt && AttemptId(plan, t.attemptNumber) == attempt
  }

  /** Every attempt in the journal has ended, or a worker is in it. */
  ghost predicate AttemptsOwned(plan: Plan, past: seq<Body>, tasks: seq<Task>) {
    forall b :: b in past && b.AttemptStarted? ==>
      AttemptEnded(past, b.attempt) || exists i :: 0 <= i < |tasks| && InThatAttempt(plan, tasks[i], b.attempt)
  }

  /** No worker has stopped, and one that is done has a completed and traced recall. */
  ghost predicate DoneIsTraced(past: seq<Body>, tasks: seq<Task>) {
    forall i :: 0 <= i < |tasks| ==>
      && tasks[i].place != Stopped
      && (tasks[i].place == Done ==> FinishedAs(past, tasks[i].op, Completed) && Traced(past, tasks[i].item))
  }

  ghost predicate Owned(plan: Plan, past: seq<Body>, tasks: seq<Task>) {
    OperationsOwned(past, tasks) && AttemptsOwned(plan, past, tasks) && DoneIsTraced(past, tasks)
  }

  lemma {:induction false} Longer(past: seq<Body>, b: Body)
    ensures forall x :: x in past + [b] <==> x in past || x == b
    ensures forall a :: AttemptEnded(past, a) ==> AttemptEnded(past + [b], a)
    ensures forall op, o :: FinishedAs(past, op, o) ==> FinishedAs(past + [b], op, o)
    ensures forall item :: Traced(past, item) ==> Traced(past + [b], item)
  {
    assert forall x :: x in past ==> x in past + [b];
  }

  lemma {:induction false} AppendKeepsOperations(plan: Plan, s: State, past: seq<Body>, tasks: seq<Task>, i: nat,
                                                 a: Action)
    requires OperationsOwned(past, tasks) && i < |tasks| && Enabled(tasks[i], a) && IsAppend(a)
    requires !s.failed && a.disk == Written
    ensures OperationsOwned(past + [BodyOf(plan, tasks[i], a)], tasks[i := TaskAfter(plan, s, tasks[i], a)])
  {
    var t, b := TaskAfter(plan, s, tasks[i], a), BodyOf(plan, tasks[i], a);
    var after := tasks[i := t];
    Longer(past, b);
    forall op | OperationStarted(op) in past + [b]
      ensures exists j :: 0 <= j < |after| && HasStarted(after[j]) && after[j].op == op
    {
      if OperationStarted(op) in past {
        var j :| 0 <= j < |tasks| && HasStarted(tasks[j]) && tasks[j].op == op;
        assert HasStarted(after[j]) && after[j].op == op;
      } else {
        assert HasStarted(after[i]) && after[i].op == op;
      }
    }
  }

  lemma {:induction false} AppendKeepsAttempts(plan: Plan, s: State, past: seq<Body>, tasks: seq<Task>, i: nat,
                                               a: Action)
    requires AttemptsOwned(plan, past, tasks) && i < |tasks| && Enabled(tasks[i], a) && IsAppend(a)
    requires !s.failed && a.disk == Written
    ensures AttemptsOwned(plan, past + [BodyOf(plan, tasks[i], a)], tasks[i := TaskAfter(plan, s, tasks[i], a)])
  {
    hide AttemptEnded;
    var t, b := TaskAfter(plan, s, tasks[i], a), BodyOf(plan, tasks[i], a);
    var after, now := tasks[i := t], past + [b];
    Longer(past, b);
    forall x | x in now && x.AttemptStarted?
      ensures AttemptEnded(now, x.attempt) || exists j :: 0 <= j < |after| && InThatAttempt(plan, after[j], x.attempt)
    {
      if x == b {
        assert InThatAttempt(plan, after[i], x.attempt);
      } else if !AttemptEnded(past, x.attempt) {
        var j :| 0 <= j < |tasks| && InThatAttempt(plan, tasks[j], x.attempt);
        if j == i {
          EndsIt(past, b, x.attempt);
        } else {
          assert InThatAttempt(plan, after[j], x.attempt);
        }
      }
    }
  }

  lemma {:induction false} AppendKeepsDone(plan: Plan, s: State, past: seq<Body>, tasks: seq<Task>, i: nat, a: Action)
    requires DoneIsTraced(past, tasks) && i < |tasks| && Enabled(tasks[i], a) && IsAppend(a)
    requires Consistent(plan, past, s.nextId, tasks[i]) && !s.failed && a.disk == Written
    ensures DoneIsTraced(past + [BodyOf(plan, tasks[i], a)], tasks[i := TaskAfter(plan, s, tasks[i], a)])
  {
    hide FinishedAs, Traced;
    Longer(past, BodyOf(plan, tasks[i], a));
    if a.AppendTrace? {
      TracesIt(past, BodyOf(plan, tasks[i], a), tasks[i].item);
    }
  }

  lemma {:induction false} AppendKeepsOwners(plan: Plan, s: State, past: seq<Body>, tasks: seq<Task>, i: nat, a: Action)
    requires TasksAgree(plan, past, s.nextId, tasks) && Owned(plan, past, tasks)
    requires i < |tasks| && Enabled(tasks[i], a) && IsAppend(a) && !s.failed && a.disk == Written
    ensures Owned(plan, past + [BodyOf(plan, tasks[i], a)], tasks[i := TaskAfter(plan, s, tasks[i], a)])
  {
    hide Apart, IdsBelow, Consistent, OperationsOwned, AttemptsOwned, DoneIsTraced, BodyOf, TaskAfter, Enabled;
    AppendKeepsOperations(plan, s, past, tasks, i, a);
    AppendKeepsAttempts(plan, s, past, tasks, i, a);
    AppendKeepsDone(plan, s, past, tasks, i, a);
  }

  lemma {:induction false} EndsIt(past: seq<Body>, b: Body, attempt: string)
    requires b.AttemptFinished? && b.attempt == attempt
    ensures AttemptEnded(past + [b], attempt)
  {
    assert b in past + [b];
  }

  lemma {:induction false} TracesIt(past: seq<Body>, b: Body, item: string)
    requires b.TraceSaved? && b.item == item
    ensures Traced(past + [b], item)
  {
    assert b in past + [b];
  }

  lemma {:induction false} OtherStepKeepsOwners(plan: Plan, s: State, past: seq<Body>, tasks: seq<Task>, i: nat,
                                                a: Action)
    requires Owned(plan, past, tasks) && i < |tasks| && Enabled(tasks[i], a) && !s.failed
    requires !IsAppend(a) && (a.WriteTrace? ==> a.written)
    ensures Owned(plan, past, tasks[i := TaskAfter(plan, s, tasks[i], a)])
  {
    hide AttemptEnded, FinishedAs, Traced;
    var after := tasks[i := TaskAfter(plan, s, tasks[i], a)];
    forall op | OperationStarted(op) in past
      ensures exists j :: 0 <= j < |after| && HasStarted(after[j]) && after[j].op == op
    {
      var j :| 0 <= j < |tasks| && HasStarted(tasks[j]) && tasks[j].op == op;
      assert HasStarted(after[j]) && after[j].op == op;
    }
    forall x | x in past && x.AttemptStarted? && !AttemptEnded(past, x.attempt)
      ensures exists j :: 0 <= j < |after| && InThatAttempt(plan, after[j], x.attempt)
    {
      var j :| 0 <= j < |tasks| && InThatAttempt(plan, tasks[j], x.attempt);
      assert InThatAttempt(plan, after[j], x.attempt);
    }
  }

  ghost predicate OwnedWhileGood(plan: Plan, x: System) {
    !x.journal.failed && !x.ended ==> Owned(plan, Bodies(x.journal.records), x.tasks)
  }

  lemma {:induction false} NextKeepsOwners(plan: Plan, x: System, y: System)
    requires Inv(plan, x) && OwnedWhileGood(plan, x) && Next(plan, x, y)
    ensures OwnedWhileGood(plan, y)
  {
    hide Legal, LegalHistory, TasksAgree, Owned, Enabled, TaskAfter, BodyOf;
    if !y.journal.failed && !y.ended {
      var i, a :| 0 <= i < |x.tasks| && !x.ended && Enabled(x.tasks[i], a) && y == StepOf(plan, x, i, a);
      var s, past := x.journal, Bodies(x.journal.records);
      if IsAppend(a) {
        var b := BodyOf(plan, x.tasks[i], a);
        BodiesOfPush(s.records, Record(s.sequence + 1, plan.captureId, plan.runId, true, b));
        AppendKeepsOwners(plan, s, past, x.tasks, i, a);
      } else {
        OtherStepKeepsOwners(plan, s, past, x.tasks, i, a);
      }
    }
  }

  lemma {:induction false} RunKeepsOwners(plan: Plan, run: seq<System>, k: nat)
    requires Run(plan, run) && k < |run|
    ensures OwnedWhileGood(plan, run[k])
  {
    hide Inv, Next;
    if k == 0 {
      assert Bodies(run[0].journal.records) == [RunStarted];
    } else {
      RunKeepsOwners(plan, run, k - 1);
      RunKeeps(plan, run, k - 1);
      NextKeepsOwners(plan, run[k - 1], run[k]);
    }
  }

  /** The worker has completed its operation, traced it if it is a recall, or reused a durable import. */
  predicate WentWell(t: Task) {
    || (t.kind == Recall && t.place == Done)
    || (t.kind != Recall && t.place == OperationDone && (t.outcome == Completed || t.outcome == Reused))
  }

  /** Some worker has the planned item. */
  ghost predicate AllTaken(plan: Plan, tasks: seq<Task>) {
    && (forall item :: item in plan.imports ==>
        exists i :: 0 <= i < |tasks| && tasks[i].kind == Import && tasks[i].item == item)
    && (forall item :: item in plan.cases ==>
        exists i :: 0 <= i < |tasks| && tasks[i].kind == Recall && tasks[i].item == item)
  }

  lemma {:induction false} DoneWorkIsStarted(plan: Plan, past: seq<Body>, nextId: nat, t: Task)
    requires Consistent(plan, past, nextId, t) && WentWell(t) && FinishesFollowStarts(past)
    requires t.place == Done ==> FinishedAs(past, t.op, Completed) && Traced(past, t.item)
    ensures FinishedAs(past, t.op, Completed) || FinishedAs(past, t.op, Reused)
    ensures t.op.kind == t.kind && WorkStarted(past, Work(t.kind, t.item))
    ensures t.kind == Recall ==> Traced(past, t.item)
  {
  }

  lemma {:induction false} QuietIsComplete(plan: Plan, past: seq<Body>, nextId: nat, tasks: seq<Task>)
    requires TasksAgree(plan, past, nextId, tasks) && Owned(plan, past, tasks) && FinishesFollowStarts(past)
    requires AllTaken(plan, tasks) && forall i :: 0 <= i < |tasks| ==> WentWell(tasks[i])
    ensures forall op :: OperationStarted(op) in past ==>
              && (FinishedAs(past, op, Completed) || FinishedAs(past, op, Reused))
              && (op.kind == Recall ==> Traced(past, op.item))
    ensures forall b :: b in past && b.AttemptStarted? ==> AttemptEnded(past, b.attempt)
    ensures forall w :: w in PlannedWork(plan) ==> WorkStarted(past, w)
  {
    hide FinishedAs, Traced, AttemptEnded, WorkStarted, FinishesFollowStarts, IdsBelow, PlannedWork, WentWell;
    forall i | 0 <= i < |tasks|
      ensures FinishedAs(past, tasks[i].op, Completed) || FinishedAs(past, tasks[i].op, Reused)
      ensures tasks[i].op.kind == tasks[i].kind && WorkStarted(past, Work(tasks[i].kind, tasks[i].item))
      ensures tasks[i].kind == Recall ==> Traced(past, tasks[i].item)
      ensures tasks[i].place != InAttempt && tasks[i].op.item == tasks[i].item
    {
      DoneWorkIsStarted(plan, past, nextId, tasks[i]);
      NotInAttempt(plan, past, nextId, tasks[i]);
    }
  }

  lemma {:induction false} NotInAttempt(plan: Plan, past: seq<Body>, nextId: nat, t: Task)
    requires Consistent(plan, past, nextId, t) && WentWell(t)
    ensures t.place != InAttempt && t.op.item == t.item
  {
  }

  /** Whatever the interleaving, a run in which every planned item was taken, every worker did well,
      no append failed and the end says completed leaves a journal that is accepted as complete. */
  lemma {:induction false} GoodRunIsComplete(plan: Plan, run: seq<System>)
    requires ValidPlan(plan) && Run(plan, run)
    requires var last := run[|run| - 1];
             && last.ended && !last.journal.failed && AllTaken(plan, last.tasks)
             && (forall i :: 0 <= i < |last.tasks| ==> WentWell(last.tasks[i]))
             && last.journal.records != []
             && last.journal.records[|last.journal.records| - 1].body == RunFinished(Completed)
    ensures Accepts(plan, run[|run| - 1].journal.records, true)
  {
    hide Legal, LegalHistory, TasksAgree, Owned, AllTaken, WentWell, CompleteHistory;
    var k := |run| - 1;
    RunKeeps(plan, run, k);
    assert k > 0;
    RunKeeps(plan, run, k - 1);
    RunKeepsOwners(plan, run, k - 1);
    var x, y := run[k - 1], run[k];
    assert Next(plan, x, y);
    var o, disk :| !x.ended && PlainOutcome(o)
                   && y == System(Appended(plan, x.journal, RunFinished(o), disk), x.tasks, true);
    var past := Bodies(x.journal.records);
    BodiesOfPush(x.journal.records, Record(x.journal.sequence + 1, plan.captureId, plan.runId, true, RunFinished(o)));
    LegalFinishesFollowStarts(plan, past);
    QuietIsComplete(plan, past, x.journal.nextId, x.tasks);
    EndCompletes(plan, past);
  }

  lemma {:induction false} EndCompletes(plan: Plan, past: seq<Body>)
    requires !Ended(past)
    requires forall op :: OperationStarted(op) in past ==>
               && (FinishedAs(past, op, Completed) || FinishedAs(past, op, Reused))
               && (op.kind == Recall ==> Traced(past, op.item))
    requires forall b :: b in past && b.AttemptStarted? ==> AttemptEnded(past, b.attempt)
    requires forall w :: w in PlannedWork(plan) ==> WorkStarted(past, w)
    ensures CompleteHistory(plan, past + [RunFinished(Completed)])
  {
    hide FinishedAs, Traced, AttemptEnded, PlannedWork;
    Longer(past, RunFinished(Completed));
    PushOthers(past, RunFinished(Completed));
  }
}
