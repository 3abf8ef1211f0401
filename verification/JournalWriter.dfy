/** executionJournal: the writer shared by concurrent workers, and the runs its locked steps can interleave to. */
module JournalWriter {
  import opened Text
  import opened Journal
  import opened JournalChecker
  import opened JournalMeaning

  /** What the file system does with one appended line. Any failure stops the journal for good. */
  datatype Disk = Written | NotWritten | WrittenNotSynced

  datatype State = State(sequence: nat, nextId: nat, queries: nat, failed: bool, records: seq<Record>)

  function OperationId(plan: Plan, n: nat): string {
    plan.captureId + ":" + Numeral(n, 10)
  }

  function AttemptId(plan: Plan, n: nat): string {
    plan.captureId + ":attempt:" + Numeral(n, 10)
  }

  lemma {:induction false} OperationIdsDiffer(plan: Plan, m: nat, n: nat)
    requires OperationId(plan, m) == OperationId(plan, n)
    ensures m == n
  {
    var c := plan.captureId + ":";
    assert (c + Numeral(m, 10))[|c|..] == Numeral(m, 10) && (c + Numeral(n, 10))[|c|..] == Numeral(n, 10);
    NumeralInjective(m, n, 10);
  }

  lemma {:induction false} AttemptIdsDiffer(plan: Plan, m: nat, n: nat)
    requires AttemptId(plan, m) == AttemptId(plan, n)
    ensures m == n
  {
    var c := plan.captureId + ":attempt:";
    assert (c + Numeral(m, 10))[|c|..] == Numeral(m, 10) && (c + Numeral(n, 10))[|c|..] == Numeral(n, 10);
    NumeralInjective(m, n, 10);
  }

  /** The two kinds of ids never meet: an attempt id has a letter where an operation id has a digit. */
  lemma {:induction false} KindsOfIdsDiffer(plan: Plan, m: nat, n: nat)
    ensures OperationId(plan, m) != AttemptId(plan, n)
  {
    NumeralIsDecimal(m);
    var i := |plan.captureId| + 1;
    assert OperationId(plan, m)[i] == Numeral(m, 10)[0] && AttemptId(plan, n)[i] == 'a';
  }

  /** The ids that the first n numbers can have been given out as. */
  ghost predicate IdUpTo(plan: Plan, n: nat, id: string) {
    exists k: nat :: k <= n && (id == OperationId(plan, k) || id == AttemptId(plan, k))
  }

  lemma {:induction false} NextIdIsNew(plan: Plan, n: nat)
    ensures !IdUpTo(plan, n, OperationId(plan, n + 1)) && !IdUpTo(plan, n, AttemptId(plan, n + 1))
  {
    forall k: nat | k <= n
      ensures OperationId(plan, n + 1) != OperationId(plan, k) && OperationId(plan, n + 1) != AttemptId(plan, k)
      ensures AttemptId(plan, n + 1) != OperationId(plan, k) && AttemptId(plan, n + 1) != AttemptId(plan, k)
    {
      KindsOfIdsDiffer(plan, n + 1, k);
      KindsOfIdsDiffer(plan, k, n + 1);
      if OperationId(plan, n + 1) == OperationId(plan, k) {
        OperationIdsDiffer(plan, n + 1, k);
      }
      if AttemptId(plan, n + 1) == AttemptId(plan, k) {
        AttemptIdsDiffer(plan, n + 1, k);
      }
    }
  }

  lemma {:induction false} IdsGrow(plan: Plan, n: nat, id: string)
    requires IdUpTo(plan, n, id)
    ensures IdUpTo(plan, n + 1, id)
  {
    var k: nat :| k <= n && (id == OperationId(plan, k) || id == AttemptId(plan, k));
    assert k <= n + 1;
  }

  /** One locked append. */
  function Appended(plan: Plan, s: State, b: Body, disk: Disk): State {
    if s.failed then s else
    var records := s.records + [Record(s.sequence + 1, plan.captureId, plan.runId, true, b)];
    State(s.sequence + 1, s.nextId, s.queries, disk != Written, if disk == NotWritten then s.records else records)
  }

  function PhaseFor(s: State, kind: Kind): Phase {
    if kind != Recall then SetupPhase else if s.queries == 0 then FirstQuery else SubsequentQuery
  }

  /** One locked allocation of an operation id and phase. */
  function OperationAllocated(s: State, kind: Kind): State {
    s.(nextId := s.nextId + 1, queries := s.queries + if kind == Recall then 1 else 0)
  }

  function AttemptAllocated(s: State): State {
    s.(nextId := s.nextId + 1)
  }

  /** The numbering every journal keeps, whatever the disk does. */
  ghost predicate Numbered(plan: Plan, s: State) {
    && (forall i :: 0 <= i < |s.records| ==> Stamped(plan, i, s.records[i]))
    && (!s.failed ==> s.sequence == |s.records|)
  }

  lemma {:induction false} AppendKeepsNumbering(plan: Plan, s: State, b: Body, disk: Disk)
    requires Numbered(plan, s)
    ensures Numbered(plan, Appended(plan, s, b, disk))
  {
  }

  /** What the capture check demands of a sealed journal and its recorded counts. */
  ghost predicate CaptureAccepted(plan: Plan, records: seq<Record>, counts: multiset<Tally>) {
    Accepts(plan, records, true) && IsTally(plan, Bodies(records), counts)
  }

  /** The journal part of validateExecutionCapture. */
  method ValidateCapture(plan: Plan, records: seq<Record>, counts: multiset<Tally>) returns (ok: bool)
    ensures ok <==> CaptureAccepted(plan, records, counts)
  {
    hide IsTally, LegalHistory, CompleteHistory;
    var recount := ExecutionOutcomes(plan, records, true);
    ok := recount.Some? && recount.value == counts;
    if recount.Some? && IsTally(plan, Bodies(records), counts) {
      TallyIsUnique(plan, Bodies(records), recount.value, counts);
    }
  }

  class ExecutionJournal {
    const plan: Plan
    var sequence: nat
    var nextID: nat
    var queryCount: nat
    var failure: bool
    var file: seq<Record>
    var outcomes: multiset<Tally>
    ghost var issued: set<string>         // every operation and attempt id handed out
    ghost var operations: seq<Operation>  // every operation allocated, in order

    ghost function View(): State
      reads this
    {
      State(sequence, nextID, queryCount, failure, file)
    }

    ghost predicate Valid()
      reads this
    {
      && Numbered(plan, View()) && (forall id :: id in issued ==> IdUpTo(plan, nextID, id))
      && (queryCount == 0 <==> forall o :: o in operations ==> o.kind != Recall)
    }

    constructor (plan: Plan)
      ensures this.plan == plan && Valid() && issued == {} && operations == []
      ensures View() == Appended(plan, State(0, 0, 0, false, []), RunStarted, Written)
    {
      this.plan := plan;
      sequence, nextID, queryCount, failure, outcomes, issued, operations := 1, 0, 0, false, multiset{}, {}, [];
      file := [Record(1, plan.captureId, plan.runId, true, RunStarted)];
    }

    method Append(b: Body, disk: Disk) returns (ok: bool)
      requires Valid()
      modifies this`sequence, this`failure, this`file
      ensures Valid() && View() == Appended(plan, old(View()), b, disk)
      ensures ok <==> !failure
    {
      if failure {
        return false;
      }
      sequence := sequence + 1;
      if disk != NotWritten {
        file := file + [Record(sequence, plan.captureId, plan.runId, true, b)];
      }
      failure := disk != Written;
      ok := !failure;
    }

    lemma {:induction false} NewIdIsValid()
      requires Valid()
      ensures OperationId(plan, nextID + 1) !in issued && AttemptId(plan, nextID + 1) !in issued
      ensures forall id :: id in issued ==> IdUpTo(plan, nextID + 1, id)
    {
      NextIdIsNew(plan, nextID);
      forall id | id in issued
        ensures IdUpTo(plan, nextID + 1, id)
      {
        IdsGrow(plan, nextID, id);
      }
    }

    /** The new operation has an id that no operation and no attempt was ever given; it is the first query exactly if it
        is the first recall, and a setup phase exactly if it is no recall. */
    method AllocateOperation(kind: Kind, item: string) returns (op: Operation)
      requires Valid()
      modifies this`nextID, this`queryCount, this`issued, this`operations
      ensures operations == old(operations) + [op] && op.kind == kind && op.item == item
      ensures op.phase == FirstQuery <==> kind == Recall && forall o :: o in old(operations) ==> o.kind != Recall
      ensures op.phase == SetupPhase <==> kind != Recall
      ensures op.id !in old(issued) && issued == old(issued) + {op.id}
      ensures Valid() && View() == OperationAllocated(old(View()), kind)
      ensures op == Operation(OperationId(plan, nextID), kind, item, PhaseFor(old(View()), kind))
    {
      NewIdIsValid();
      nextID := nextID + 1;
      issued := issued + {OperationId(plan, nextID)};
      var phase := SetupPhase;
      if kind == Recall {
        phase := SubsequentQuery;
        if queryCount == 0 {
          phase := FirstQuery;
        }
        queryCount := queryCount + 1;
      }
      op := Operation(OperationId(plan, nextID), kind, item, phase);
      operations := operations + [op];
    }

    /** The new attempt has an id that no operation and no attempt was ever given. */
    method AllocateAttempt() returns (attempt: string)
      requires Valid()
      modifies this`nextID, this`issued
      ensures attempt !in old(issued) && issued == old(issued) + {attempt}
      ensures Valid() && View() == AttemptAllocated(old(View()))
      ensures attempt == AttemptId(plan, nextID)
    {
      NewIdIsValid();
      nextID := nextID + 1;
      issued := issued + {AttemptId(plan, nextID)};
      attempt := AttemptId(plan, nextID);
    }

    /** A run sealed as completed is one the later capture check accepts, with the counts recorded here. */
    method Finish(runFailed: bool, failedAs: Outcome, disk: Disk, closed: bool, sealed: bool) returns (completed: bool)
      requires Valid() && (failedAs == Failed || failedAs == Cancelled)
      modifies this`sequence, this`failure, this`file, this`outcomes
      ensures Valid()
      ensures completed ==> CaptureAccepted(plan, file, outcomes)
      ensures completed ==>
                file == old(file) + [Record(|old(file)| + 1, plan.captureId, plan.runId, true, RunFinished(Completed))]
      ensures completed <==>
                && !runFailed && !old(failure) && disk == Written && closed && sealed
                && Accepts(plan,
                  old(file) + [Record(|old(file)| + 1, plan.captureId, plan.runId, true, RunFinished(Completed))], true)
      ensures exists o ::
              (o == Completed || o == failedAs) && View() == Appended(plan, old(View()), RunFinished(o), disk)
    {
      hide Accepts, IsTally, LegalHistory;
      var partial := ExecutionOutcomes(plan, file, false);
      outcomes := if partial.Some? then partial.value else multiset{};
      var cause := runFailed || partial.None?;
      ghost var terminal := Record(|file| + 1, plan.captureId, plan.runId, true, RunFinished(Completed));
      if Accepts(plan, file + [terminal], true) {
        AcceptancePrefix(plan, file + [terminal], true, |file|);
        assert (file + [terminal])[..|file|] == file;
      }
      if !cause {
        var whole :=
            ExecutionOutcomes(plan,
                file + [Record(|file| + 1, plan.captureId, plan.runId, true, RunFinished(Completed))], true);
        cause := whole.None?;
      }
      if partial.Some? {
        BodiesOfPush(file, terminal);
        TallyIgnoresTheEnd(plan, Bodies(file), Completed, partial.value);
      }
      var outcome := if cause then failedAs else Completed;
      var ok := Append(RunFinished(outcome), disk);
      completed := !cause && ok && closed && sealed;
    }
  }
}
