/** The concurrent corpus import: a feeder, workers and a collector in any interleaving. */
module ImportRuns {
  import opened Text
  import opened KnowledgeMapping
  import opened CorpusImport
  import D = Distinct

  /** One job on the queue: a single item of a file, or all items of a case. */
  datatype Job = Job(items: seq<Item>, skipped: bool)
  datatype Plan = Plan(jobs: seq<Job>, keep: set<string>, server: Item -> string)

  datatype Worker = Idle | Busy(job: nat, next: nat) | Holding(job: nat, ok: bool) | Gone

  /** A remember call: which worker imported which item of which job. */
  datatype Import = Import(worker: nat, job: nat, index: nat)

  datatype State = State(fed: nat, closed: bool, workers: seq<Worker>, log: seq<Import>, received: seq<nat>,
                         merged: Mapping,
                         failed: bool, broken: bool, cancelled: bool)

  datatype Action =
    | Feed(w: nat)
    | ImportOne(w: nat, ok: bool)
    | GroupDone(w: nat)
    | Receive(w: nat)
    | Drop(w: nat)
    | Leave(w: nat)
    | Close
    | StopFeeding
    | Break
    | Cancel

  predicate At(s: State, w: nat, worker: Worker) {
    w < |s.workers| && s.workers[w] == worker
  }

  function Placed(s: State, w: nat, worker: Worker): State
    requires w < |s.workers|
  {
    s.(workers := s.workers[w := worker])
  }

  ghost predicate MergesJob(p: Plan, j: nat, dst: Mapping, out: Mapping)
    requires j < |p.jobs|
  {
    if p.jobs[j].skipped then out == dst
    else IsMerge(dst, Kept(OneEach(Refs(p.server, p.jobs[j].items)), p.keep), out)
  }

  ghost predicate Next(p: Plan, s: State, a: Action, t: State) {
    match a
    case Feed(w) =>
      && At(s, w, Idle) && !s.closed && s.fed < |p.jobs|
      && t == Placed(s, w, if p.jobs[s.fed].skipped then Holding(s.fed, true) else Busy(s.fed, 0)).(fed := s.fed + 1)
    case ImportOne(w, ok) =>
      && w < |s.workers| && s.workers[w].Busy? && s.workers[w].job < |p.jobs|
      && var j, k := s.workers[w].job, s.workers[w].next;
      && k < |p.jobs[j].items|
      && t == Placed(s, w, if ok then Busy(j, k + 1) else Holding(j, false)).(log := s.log + [Import(w, j, k)])
    case GroupDone(w) =>
      && w < |s.workers| && s.workers[w].Busy? && s.workers[w].job < |p.jobs|
      && s.workers[w].next == |p.jobs[s.workers[w].job].items|
      && t == Placed(s, w, Holding(s.workers[w].job, true))
    case Receive(w) =>
      && w < |s.workers| && s.workers[w].Holding? && s.workers[w].job < |p.jobs|
      && var j, ok := s.workers[w].job, s.workers[w].ok;
         if ok then MergesJob(p, j, s.merged, t.merged)
             && t == Placed(s, w, Idle).(received := s.received + [j], merged := t.merged)
         else t == Placed(s, w, Idle).(failed := true)
    case Drop(w) => w < |s.workers| && s.workers[w].Holding? && s.cancelled && t == Placed(s, w, Gone)
    case Leave(w) => At(s, w, Idle) && s.closed && t == Placed(s, w, Gone)
    case Close => !s.closed && s.fed == |p.jobs| && t == s.(closed := true)
    case StopFeeding => !s.closed && (s.failed || s.broken || s.cancelled) && t == s.(closed := true)
    case Break => !s.closed && t == s.(closed := true, broken := true)
    case Cancel => t == s.(cancelled := true)
  }

  function Start(workers: nat): State {
    State(0, false, seq(workers, _ => Idle), [], [], NewMapping, false, false, false)
  }

  // ----- The invariant of a run that can still end without an error

  predicate Healthy(s: State) {
    && !s.failed && !s.broken && !s.cancelled
    && forall w :: 0 <= w < |s.workers| && s.workers[w].Holding? ==> s.workers[w].ok
  }

  predicate Holds(worker: Worker, j: nat) {
    (worker.Busy? || worker.Holding?) && worker.job == j
  }

  function JobLog(log: seq<Import>, j: nat): seq<Import> {
    if log == [] then [] else JobLog(log[..|log| - 1], j) + if log[|log| - 1].job == j then [log[|log| - 1]] else []
  }

  /** The first k items of a job, in order, all by one worker. */
  function Part(w: nat, j: nat, k: nat): seq<Import> {
    if k == 0 then [] else Part(w, j, k - 1) + [Import(w, j, k - 1)]
  }

  function JobSize(p: Plan, j: nat): nat
    requires j < |p.jobs|
  {
    if p.jobs[j].skipped then 0 else |p.jobs[j].items|
  }

  ghost predicate ImportedOnce(p: Plan, s: State, j: nat)
    requires j < |p.jobs|
  {
    exists w: nat :: w < |s.workers| && JobLog(s.log, j) == Part(w, j, JobSize(p, j))
  }

  ghost predicate WorkerOk(p: Plan, s: State, w: nat)
    requires w < |s.workers|
  {
    match s.workers[w]
    case Busy(j, k) => j < s.fed && j < |p.jobs| && !p.jobs[j].skipped && k <= |p.jobs[j].items|
        && JobLog(s.log, j) == Part(w, j, k)
    case Holding(j, _) => j < s.fed && j < |p.jobs| && JobLog(s.log, j) == Part(w, j, JobSize(p, j))
    case Gone => s.closed
    case Idle => true
  }

  ghost predicate WorkersOk(p: Plan, s: State) {
    forall w: nat :: w < |s.workers| ==> WorkerOk(p, s, w)
  }

  /** Every fed job is in exactly one place: with one worker, or received once. */
  ghost predicate OnePlace(p: Plan, s: State) {
    && D.NoRepeats(s.received)
    && (forall j :: j in s.received ==> j < s.fed)
    && (forall v: nat, w: nat, j: nat ::
      v < |s.workers| && w < |s.workers| && Holds(s.workers[v], j) && Holds(s.workers[w], j) ==> v == w)
    && (forall w: nat :: w < |s.workers| && (s.workers[w].Busy? || s.workers[w].Holding?) ==>
        s.workers[w].job !in s.received)
    && (forall j: nat :: j < s.fed ==> j in s.received || exists w: nat :: w < |s.workers| && Holds(s.workers[w], j))
  }

  function ItemsOf(p: Plan, order: seq<nat>): seq<Item> {
    if order == [] then [] else
    var last := order[|order| - 1];
    ItemsOf(p, order[..|order| - 1]) + if last < |p.jobs| && !p.jobs[last].skipped then p.jobs[last].items else []
  }

  ghost predicate Good(p: Plan, s: State) {
    && s.fed <= |p.jobs| && (s.closed ==> s.fed == |p.jobs|)
    && WorkersOk(p, s) && OnePlace(p, s)
    && (forall j :: j in s.received ==> j < |p.jobs| && ImportedOnce(p, s, j))
    && (forall j: nat :: s.fed <= j ==> JobLog(s.log, j) == [])
    && s.merged == OneEach(KeptRefs(Refs(p.server, ItemsOf(p, s.received)), p.keep))
  }

  ghost predicate Inv(p: Plan, s: State) {
    Healthy(s) ==> Good(p, s)
  }

  lemma {:induction false} StartIsGood(p: Plan, workers: nat)
    ensures Good(p, Start(workers))
  {
    EmptyRefs(p.server, p.keep);
  }

  lemma {:induction false} HealthIsLost(p: Plan, s: State, a: Action, t: State)
    requires Next(p, s, a, t) && Healthy(t)
    ensures Healthy(s)
  {
    hide IsMerge, Refs, OneEach, Kept;
    forall w | 0 <= w < |s.workers| && s.workers[w].Holding?
      ensures s.workers[w].ok
    {
      assert t.workers[w] == s.workers[w] || w == a.w;
    }
  }

  lemma {:induction false} PushLog(log: seq<Import>, x: Import)
    ensures forall j :: JobLog(log + [x], j) == if x.job == j then JobLog(log, j) + [x] else JobLog(log, j)
  {
    assert (log + [x])[..|log|] == log;
  }

  // ----- Steps that only move a worker

  /** A worker takes, keeps or gives up a job it alone holds; the log does not change. */
  lemma {:induction false} FeedKeeps(p: Plan, s: State, a: Action, t: State)
    requires Good(p, s) && a.Feed? && Next(p, s, a, t)
    ensures Good(p, t)
  {
    hide Refs, OneEach, KeptRefs, JobLog, D.NoRepeats, ItemsOf;
    assert JobLog(s.log, s.fed) == [] == Part(a.w, s.fed, 0);
    FeedPlaces(p, s, a, t);
    forall j | j in t.received
      ensures ImportedOnce(p, t, j)
    {
      assert ImportedOnce(p, s, j);
    }
    forall w: nat | w < |t.workers|
      ensures WorkerOk(p, t, w)
    {
      assert WorkerOk(p, s, w);
    }
  }

  lemma {:induction false} FeedPlaces(p: Plan, s: State, a: Action, t: State)
    requires OnePlace(p, s) && WorkersOk(p, s) && a.Feed? && Next(p, s, a, t)
    ensures OnePlace(p, t)
  {
    hide JobLog, D.NoRepeats, Part;
    forall v: nat | v < |s.workers| && (s.workers[v].Busy? || s.workers[v].Holding?)
      ensures s.workers[v].job < s.fed && v != a.w && t.workers[v] == s.workers[v]
    {
      assert WorkerOk(p, s, v);
    }
    forall j: nat | j < t.fed
      ensures j in t.received || exists w: nat :: w < |t.workers| && Holds(t.workers[w], j)
    {
      if j < s.fed {
        if j !in s.received {
          var w: nat :| w < |s.workers| && Holds(s.workers[w], j);
          assert Holds(t.workers[w], j);
        }
      } else {
        assert Holds(t.workers[a.w], j);
      }
    }
  }

  lemma {:induction false} ImportKeeps(p: Plan, s: State, a: Action, t: State)
    requires Good(p, s) && a.ImportOne? && a.ok && Next(p, s, a, t)
    ensures Good(p, t)
  {
    hide Refs, OneEach, KeptRefs, JobLog, D.NoRepeats, ItemsOf;
    var j, k := s.workers[a.w].job, s.workers[a.w].next;
    assert WorkerOk(p, s, a.w);
    PushLog(s.log, Import(a.w, j, k));
    SameHolders(p, s, t, a.w, j);
    forall i | i in t.received
      ensures ImportedOnce(p, t, i)
    {
      assert ImportedOnce(p, s, i) && i != j;
    }
    forall w: nat | w < |t.workers|
      ensures WorkerOk(p, t, w)
    {
      assert WorkerOk(p, s, w);
      assert w != a.w ==> !Holds(s.workers[w], j) by { assert Holds(s.workers[a.w], j); }
    }
  }

  /** The worker keeps the same job. */
  lemma {:induction false} SameHolders(p: Plan, s: State, t: State, w: nat, j: nat)
    requires OnePlace(p, s) && w < |s.workers| && Holds(s.workers[w], j) && |t.workers| == |s.workers|
    requires t.workers == s.workers[w := t.workers[w]] && Holds(t.workers[w], j) && t.received == s.received
             && t.fed == s.fed
    ensures OnePlace(p, t)
  {
    hide D.NoRepeats;
    forall i: nat, v: nat | v < |s.workers|
      ensures Holds(t.workers[v], i) <==> Holds(s.workers[v], i)
    {
    }
    forall i: nat | i < t.fed && i !in t.received
      ensures exists v: nat :: v < |t.workers| && Holds(t.workers[v], i)
    {
      var v: nat :| v < |s.workers| && Holds(s.workers[v], i);
      assert Holds(t.workers[v], i);
    }
  }

  lemma {:induction false} DoneKeeps(p: Plan, s: State, a: Action, t: State)
    requires Good(p, s) && a.GroupDone? && Next(p, s, a, t)
    ensures Good(p, t)
  {
    hide Refs, OneEach, KeptRefs, JobLog, D.NoRepeats, ItemsOf;
    assert WorkerOk(p, s, a.w);
    SameHolders(p, s, t, a.w, s.workers[a.w].job);
    forall i | i in t.received
      ensures ImportedOnce(p, t, i)
    {
      assert ImportedOnce(p, s, i);
    }
    forall w: nat | w < |t.workers|
      ensures WorkerOk(p, t, w)
    {
      assert WorkerOk(p, s, w);
    }
  }

  lemma {:induction false} ReceivePlaces(p: Plan, s: State, a: Action, t: State)
    requires OnePlace(p, s) && WorkersOk(p, s) && a.Receive? && a.w < |s.workers| && s.workers[a.w].Holding?
    requires |t.workers| == |s.workers| && t.workers == s.workers[a.w := Idle] && t.fed == s.fed
    requires t.received == s.received + [s.workers[a.w].job]
    ensures OnePlace(p, t)
  {
    hide JobLog, Part;
    var j := s.workers[a.w].job;
    assert WorkerOk(p, s, a.w);
    assert Holds(s.workers[a.w], j);
    forall v: nat | v < |t.workers| && (t.workers[v].Busy? || t.workers[v].Holding?)
      ensures v != a.w && t.workers[v] == s.workers[v] && t.workers[v].job != j
    {
      assert Holds(s.workers[v], t.workers[v].job);
    }
    forall i: nat | i < t.fed && i !in t.received
      ensures exists v: nat :: v < |t.workers| && Holds(t.workers[v], i)
    {
      assert i !in s.received && i != j;
      var v: nat :| v < |s.workers| && Holds(s.workers[v], i);
      assert Holds(t.workers[v], i);
    }
  }

  lemma {:induction false} ReceiveKeeps(p: Plan, s: State, a: Action, t: State)
    requires Good(p, s) && a.Receive? && Next(p, s, a, t) && s.workers[a.w].ok
    requires SeparateJobs(p)
    ensures Good(p, t)
  {
    hide Refs, OneEach, KeptRefs, JobLog, ItemsOf, IsMerge, Kept, DistinctSources;
    var j := s.workers[a.w].job;
    assert WorkerOk(p, s, a.w);
    ReceivePlaces(p, s, a, t);
    hide D.NoRepeats;
    assert (s.received + [j])[..|s.received|] == s.received;
    ReceiveMerges(p, s.received, j, s.merged, t.merged);
    forall i | i in t.received
      ensures i < |p.jobs| && ImportedOnce(p, t, i)
    {
      if i != j {
        assert ImportedOnce(p, s, i);
      }
    }
    forall w: nat | w < |t.workers|
      ensures WorkerOk(p, t, w)
    {
      assert WorkerOk(p, s, w);
    }
  }

  lemma {:induction false} ReceiveMerges(p: Plan, received: seq<nat>, j: nat, dst: Mapping, out: Mapping)
    requires j < |p.jobs| && MergesJob(p, j, dst, out) && DistinctSources(ItemsOf(p, received + [j]))
    requires dst == OneEach(KeptRefs(Refs(p.server, ItemsOf(p, received)), p.keep))
    ensures out == OneEach(KeptRefs(Refs(p.server, ItemsOf(p, received + [j])), p.keep))
  {
    hide Refs, OneEach, KeptRefs, IsMerge, Kept, DistinctSources;
    assert (received + [j])[..|received|] == received;
    if p.jobs[j].skipped {
      assert ItemsOf(p, received) + [] == ItemsOf(p, received);
    } else {
      MergeNext(p.server, ItemsOf(p, received), p.jobs[j].items, p.keep, dst, out);
    }
  }

  lemma {:induction false} LeaveKeeps(p: Plan, s: State, a: Action, t: State)
    requires Good(p, s) && (a.Leave? || a.Close?) && Next(p, s, a, t)
    ensures Good(p, t)
  {
    hide Refs, OneEach, KeptRefs, JobLog, D.NoRepeats, ItemsOf;
    forall i | i in t.received
      ensures ImportedOnce(p, t, i)
    {
      assert ImportedOnce(p, s, i);
    }
    forall w: nat | w < |t.workers|
      ensures WorkerOk(p, t, w)
    {
      assert WorkerOk(p, s, w);
    }
    forall j: nat | j < t.fed && j !in t.received
      ensures exists w: nat :: w < |t.workers| && Holds(t.workers[w], j)
    {
      var w: nat :| w < |s.workers| && Holds(s.workers[w], j);
      assert Holds(t.workers[w], j);
    }
  }

  ghost predicate SeparateJobs(p: Plan) {
    forall order: seq<nat> :: D.NoRepeats(order) ==> DistinctSources(ItemsOf(p, order))
  }

  lemma {:induction false} StepKeeps(p: Plan, s: State, a: Action, t: State)
    requires Inv(p, s) && Next(p, s, a, t) && SeparateJobs(p)
    ensures Inv(p, t)
  {
    hide Good, Next, SeparateJobs;
    if Healthy(t) {
      HealthIsLost(p, s, a, t);
      HealthyStep(p, s, a, t);
    }
  }

  lemma {:induction false} HealthyImport(p: Plan, s: State, a: Action, t: State)
    requires a.ImportOne? && Next(p, s, a, t) && Healthy(t)
    ensures a.ok
  {
    assert t.workers[a.w].Holding? ==> t.workers[a.w].ok;
  }

  lemma {:induction false} HealthyStep(p: Plan, s: State, a: Action, t: State)
    requires Good(p, s) && Healthy(s) && Healthy(t) && Next(p, s, a, t) && SeparateJobs(p)
    ensures Good(p, t)
  {
    hide Good, D.NoRepeats, MergesJob, DistinctSources;
    match a
    case Feed(_) => FeedKeeps(p, s, a, t);
    case ImportOne(_, _) =>
      HealthyImport(p, s, a, t);
      ImportKeeps(p, s, a, t);
    case GroupDone(_) => DoneKeeps(p, s, a, t);
    case Receive(_) => ReceiveKeeps(p, s, a, t);
    case Leave(_) => LeaveKeeps(p, s, a, t);
    case Close => LeaveKeeps(p, s, a, t);
    case _ =>
  }

  // ----- Plans with distinct sources

  ghost predicate JobsApart(p: Plan, i: nat, j: nat)
    requires i < |p.jobs| && j < |p.jobs|
  {
    !p.jobs[i].skipped && !p.jobs[j].skipped ==>
      forall x, y :: x in p.jobs[i].items && y in p.jobs[j].items ==> Trim(x.source) != Trim(y.source)
  }

  ghost predicate DistinctPlan(p: Plan) {
    && (forall j: nat :: j < |p.jobs| && !p.jobs[j].skipped ==> DistinctSources(p.jobs[j].items))
    && (forall i: nat, j: nat :: i < |p.jobs| && j < |p.jobs| && i != j ==> JobsApart(p, i, j))
  }

  predicate Takes(p: Plan, j: nat, x: Item) {
    j < |p.jobs| && !p.jobs[j].skipped && x in p.jobs[j].items
  }

  lemma {:induction false} ItemsFromJobs(p: Plan, order: seq<nat>, x: Item)
    ensures x in ItemsOf(p, order) <==> exists j :: j in order && Takes(p, j, x)
  {
    if order != [] {
      var init, last := order[..|order| - 1], order[|order| - 1];
      ItemsFromJobs(p, init, x);
      assert order == init + [last];
      if Takes(p, last, x) {
        assert last in order;
      }
    }
  }

  lemma {:induction false} DistinctConcat(a: seq<Item>, b: seq<Item>)
    requires DistinctSources(a) && DistinctSources(b)
    requires forall x, y :: x in a && y in b ==> Trim(x.source) != Trim(y.source)
    ensures DistinctSources(a + b)
  {
    hide Trim;
  }

  lemma {:induction false} PlanIsSeparate(p: Plan, order: seq<nat>)
    requires DistinctPlan(p) && D.NoRepeats(order)
    ensures DistinctSources(ItemsOf(p, order))
  {
    hide Trim, DistinctSources;
    if order == [] {
      NoSources();
    } else {
      var n := |order| - 1;
      var init, last := order[..n], order[n];
      assert order[..n + 1] == order;
      D.NoRepeatsPush(order, n);
      PlanIsSeparate(p, init);
      var more := if last < |p.jobs| && !p.jobs[last].skipped then p.jobs[last].items else [];
      forall x, y | x in ItemsOf(p, init) && y in more
        ensures Trim(x.source) != Trim(y.source)
      {
        ItemsFromJobs(p, init, x);
        var j :| j in init && Takes(p, j, x);
        assert j != last && JobsApart(p, j, last);
      }
      if more == [] {
        assert ItemsOf(p, init) + [] == ItemsOf(p, init);
      } else {
        DistinctConcat(ItemsOf(p, init), more);
      }
    }
  }

  lemma {:induction false} NoSources()
    ensures DistinctSources([])
  {
  }

  lemma {:induction false} PlanSeparates(p: Plan)
    requires DistinctPlan(p)
    ensures SeparateJobs(p)
  {
    hide DistinctPlan, DistinctSources;
    forall order: seq<nat> | D.NoRepeats(order)
      ensures DistinctSources(ItemsOf(p, order))
    {
      PlanIsSeparate(p, order);
    }
  }

  // ----- Whole runs

  ghost predicate Run(p: Plan, states: seq<State>, actions: seq<Action>) {
    |states| == |actions| + 1 && forall i :: 0 <= i < |actions| ==> Next(p, states[i], actions[i], states[i + 1])
  }

  lemma {:induction false} RunKeeps(p: Plan, states: seq<State>, actions: seq<Action>, i: nat)
    requires Run(p, states, actions) && Inv(p, states[0]) && SeparateJobs(p) && i < |states|
    ensures Inv(p, states[i])
  {
    hide Inv, Next, SeparateJobs;
    if i > 0 {
      RunKeeps(p, states, actions, i - 1);
      StepKeeps(p, states[i - 1], actions[i - 1], states[i]);
    }
  }

  lemma {:induction false} WorkersStay(p: Plan, states: seq<State>, actions: seq<Action>, i: nat)
    requires Run(p, states, actions) && i < |states|
    ensures |states[i].workers| == |states[0].workers|
  {
    hide MergesJob;
    if i > 0 {
      WorkersStay(p, states, actions, i - 1);
      assert Next(p, states[i - 1], actions[i - 1], states[i]);
    }
  }

  /** Every worker has left and the import reports no error. */
  predicate EndedWell(s: State) {
    !s.failed && !s.broken && !s.cancelled && forall w :: 0 <= w < |s.workers| ==> s.workers[w].Gone?
  }

  function Upto(n: nat): (r: seq<nat>)
    ensures |r| == n && forall i :: 0 <= i < n ==> r[i] == i
    ensures forall j: nat :: j in r <==> j < n
    ensures D.NoRepeats(r)
  {
    if n == 0 then [] else Upto(n - 1) + [n - 1]
  }

  /** An import that reports no error has received every job once, has imported the items of each unskipped job
      exactly once and in order on one worker, and has merged what the jobs in queue order would have merged. */
  lemma {:induction false} NoErrorMeansImported(p: Plan, workers: nat, states: seq<State>, actions: seq<Action>)
    requires Run(p, states, actions) && states[0] == Start(workers) && workers > 0 && DistinctPlan(p)
    requires EndedWell(states[|actions|])
    ensures var s := states[|actions|];
            && D.OnePerTarget(D.Members(Upto(|p.jobs|)), s.received) && |s.received| == |p.jobs|
            && (forall j: nat :: j < |p.jobs| ==> ImportedOnce(p, s, j))
            && s.merged == OneEach(KeptRefs(Refs(p.server, ItemsOf(p, Upto(|p.jobs|))), p.keep))
  {
    hide Refs, OneEach, KeptRefs, JobLog, ItemsOf, DistinctPlan, ImportedOnce, WorkerOk, SeparateJobs, Next;
    var s := states[|actions|];
    StartIsGood(p, workers);
    PlanSeparates(p);
    RunKeeps(p, states, actions, |actions|);
    WorkersStay(p, states, actions, |actions|);
    AllClosed(p, s);
    assert D.Members(s.received) == D.Members(Upto(|p.jobs|));
    D.NoRepeatsSize(s.received);
    D.NoRepeatsSize(Upto(|p.jobs|));
    SameItems(p, s.received, Upto(|p.jobs|));
    PlanIsSeparate(p, s.received);
    PlanIsSeparate(p, Upto(|p.jobs|));
    RefsIgnoreOrder(p.server, ItemsOf(p, s.received), ItemsOf(p, Upto(|p.jobs|)));
  }

  lemma {:induction false} AllClosed(p: Plan, s: State)
    requires Good(p, s) && EndedWell(s) && |s.workers| > 0
    ensures s.fed == |p.jobs| && forall j: nat :: j < |p.jobs| ==> j in s.received
  {
    hide D.NoRepeats, JobLog;
    assert WorkerOk(p, s, 0);
    forall j: nat | j < s.fed
      ensures j in s.received
    {
      assert forall w: nat :: w < |s.workers| ==> !Holds(s.workers[w], j);
    }
  }

  lemma {:induction false} SameItems(p: Plan, a: seq<nat>, b: seq<nat>)
    requires forall j :: j in a <==> j in b
    ensures D.Members(ItemsOf(p, a)) == D.Members(ItemsOf(p, b))
  {
    hide Takes;
    forall x
      ensures x in ItemsOf(p, a) <==> x in ItemsOf(p, b)
    {
      ItemsFromJobs(p, a, x);
      ItemsFromJobs(p, b, x);
    }
  }

  // ----- A corpus file: one job per item, some skipped

  predicate Skips(skip: set<string>, item: Item) {
    skip != {} && Trim(item.source) in skip
  }

  function FileJobs(corpus: seq<Item>, skip: set<string>): (jobs: seq<Job>)
    ensures |jobs| == |corpus| && forall i :: 0 <= i < |corpus| ==> jobs[i] == Job([corpus[i]], Skips(skip, corpus[i]))
  {
    seq(|corpus|, i requires 0 <= i < |corpus| => Job([corpus[i]], Skips(skip, corpus[i])))
  }

  function Unskipped(corpus: seq<Item>, skip: set<string>): seq<Item> {
    if corpus == [] then [] else
    var last := corpus[|corpus| - 1];
    Unskipped(corpus[..|corpus| - 1], skip) + if Skips(skip, last) then [] else [last]
  }

  lemma {:induction false} UnskippedMembers(corpus: seq<Item>, skip: set<string>, x: Item)
    ensures x in Unskipped(corpus, skip) <==> x in corpus && !Skips(skip, x)
  {
    if corpus != [] {
      UnskippedMembers(corpus[..|corpus| - 1], skip, x);
      assert corpus == corpus[..|corpus| - 1] + [corpus[|corpus| - 1]];
    }
  }

  lemma {:induction false} UnskippedDistinct(corpus: seq<Item>, skip: set<string>)
    requires DistinctSources(corpus)
    ensures DistinctSources(Unskipped(corpus, skip))
  {
    hide Trim;
    if corpus != [] {
      var n := |corpus| - 1;
      SourcesPrefix(corpus, n);
      UnskippedDistinct(corpus[..n], skip);
      forall x | x in Unskipped(corpus[..n], skip)
        ensures Trim(x.source) != Trim(corpus[n].source)
      {
        UnskippedMembers(corpus[..n], skip, x);
        var i :| 0 <= i < n && corpus[i] == x;
      }
    }
  }

  /** How many lines of the file are done before the first error: skipped, or imported by an accepted reply. */
  function LinesDone(corpus: seq<Item>, replies: seq<Reply>, skip: set<string>): (k: nat)
    requires |replies| == |corpus|
    ensures k <= |corpus| && (forall i :: 0 <= i < k ==> Skips(skip, corpus[i]) || Accepted(replies[i]))
    ensures k < |corpus| ==> !Skips(skip, corpus[k]) && !Accepted(replies[k])
  {
    if corpus == [] || (!Skips(skip, corpus[0]) && !Accepted(replies[0])) then 0
    else 1 + LinesDone(corpus[1..], replies[1..], skip)
  }

  /** importCorpusFileSequential: line by line up to the first error. */
  method ImportFileSequential(ghost server: Item -> string, corpus: seq<Item>, replies: seq<Reply>, keep: set<string>,
                              skip: set<string>)
    returns (ok: bool, mapping: Mapping, count: nat)
    requires DistinctSources(corpus) && Answers(server, corpus, replies)
    ensures ok <==> LinesDone(corpus, replies, skip) == |corpus|
    ensures count == LinesDone(corpus, replies, skip)
    ensures mapping == OneEach(KeptRefs(Refs(server, Unskipped(corpus[..count], skip)), keep))
  {
    hide WellFormed, Restrict, KeptRefs, Refs, DistinctSources, Skips, Accepted, LinesDone;
    var m := new KnowledgeMap();
    EmptyRefs(server, keep);
    count := 0;
    for i := 0 to |corpus|
      invariant m.Value() == OneEach(KeptRefs(Refs(server, Unskipped(corpus[..i], skip)), keep))
      invariant WellFormed(m.Value()) && count == i <= LinesDone(corpus, replies, skip)
    {
      assert corpus[..i + 1][..i] == corpus[..i];
      if !Skips(skip, corpus[i]) {
        var one;
        ok, one := ImportItem(corpus[i], replies[i]);
        if !ok {
          return false, Mapping(m.bySource, m.byType), count;
        }
        OneAnswer(server, corpus[i], replies[i]);
        ghost var value := m.Value();
        m.Merge(one, keep);
        SourcesPrefix(corpus, i + 1);
        UnskippedDistinct(corpus[..i + 1], skip);
        MergeNext(server, Unskipped(corpus[..i], skip), [corpus[i]], keep, value, m.Value());
        MergedIsWellFormed(value, Kept(one, keep), m.Value());
      } else {
        assert Unskipped(corpus[..i], skip) + [] == Unskipped(corpus[..i], skip);
      }
      count := count + 1;
    }
    ok, mapping := true, Mapping(m.bySource, m.byType);
  }

  lemma {:induction false} FilePlanIsDistinct(p: Plan, corpus: seq<Item>, skip: set<string>)
    requires p.jobs == FileJobs(corpus, skip) && DistinctSources(corpus)
    ensures DistinctPlan(p)
  {
    hide Trim, Skips;
  }

  /** In every schedule without an error the concurrent file import gives the sequential mapping and count. */
  lemma {:induction false} FileImportIsSequential(p: Plan, corpus: seq<Item>, skip: set<string>, workers: nat,
                                                  states: seq<State>, actions: seq<Action>)
    requires p.jobs == FileJobs(corpus, skip) && DistinctSources(corpus)
    requires Run(p, states, actions) && states[0] == Start(workers) && workers > 0 && EndedWell(states[|actions|])
    ensures states[|actions|].merged == OneEach(KeptRefs(Refs(p.server, Unskipped(corpus, skip)), p.keep))
    ensures |states[|actions|].received| == |corpus|
  {
    hide Refs, OneEach, KeptRefs, Run, DistinctSources, EndedWell, ImportedOnce;
    FilePlanIsDistinct(p, corpus, skip);
    NoErrorMeansImported(p, workers, states, actions);
    var order := Upto(|p.jobs|);
    PlanIsSeparate(p, order);
    UnskippedDistinct(corpus, skip);
    forall x
      ensures x in ItemsOf(p, order) <==> x in Unskipped(corpus, skip)
    {
      FileItems(p, corpus, skip, x);
    }
    RefsIgnoreOrder(p.server, ItemsOf(p, order), Unskipped(corpus, skip));
  }

  lemma {:induction false} FileItems(p: Plan, corpus: seq<Item>, skip: set<string>, x: Item)
    requires p.jobs == FileJobs(corpus, skip)
    ensures x in ItemsOf(p, Upto(|p.jobs|)) <==> x in Unskipped(corpus, skip)
  {
    hide Skips;
    ItemsFromJobs(p, Upto(|p.jobs|), x);
    UnskippedMembers(corpus, skip, x);
    if x in corpus && !Skips(skip, x) {
      var i: nat :| i < |corpus| && corpus[i] == x;
      assert Takes(p, i, x);
    }
  }

  // ----- A corpus in memory: one job per group

  function GroupJobs(groups: seq<seq<Item>>): (jobs: seq<Job>)
    ensures |jobs| == |groups| && forall i :: 0 <= i < |groups| ==> jobs[i] == Job(groups[i], false)
  {
    seq(|groups|, i requires 0 <= i < |groups| => Job(groups[i], false))
  }

  lemma {:induction false} WithKeyMembers(items: seq<Item>, key: string, x: Item)
    ensures x in WithKey(items, key) <==> x in items && GroupKey(x) == key
  {
    hide GroupKey;
    if items != [] {
      WithKeyMembers(items[..|items| - 1], key, x);
      assert items == items[..|items| - 1] + [items[|items| - 1]];
    }
  }

  lemma {:induction false} WithKeyDistinct(items: seq<Item>, key: string)
    requires DistinctSources(items)
    ensures DistinctSources(WithKey(items, key))
  {
    hide Trim, GroupKey;
    if items != [] {
      var n := |items| - 1;
      SourcesPrefix(items, n);
      WithKeyDistinct(items[..n], key);
      forall x | x in WithKey(items[..n], key)
        ensures Trim(x.source) != Trim(items[n].source)
      {
        WithKeyMembers(items[..n], key, x);
        var i :| 0 <= i < n && items[i] == x;
      }
    }
  }

  lemma {:induction false} DifferentItems(items: seq<Item>, x: Item, y: Item)
    requires DistinctSources(items) && x in items && y in items && x != y
    ensures Trim(x.source) != Trim(y.source)
  {
    hide Trim;
    var i :| 0 <= i < |items| && items[i] == x;
    var j :| 0 <= j < |items| && items[j] == y;
  }

  lemma {:induction false} GroupPlanIsDistinct(p: Plan, corpus: seq<Item>, keys: seq<string>, groups: seq<seq<Item>>)
    requires p.jobs == GroupJobs(groups) && GroupsBy(corpus, keys, groups) && DistinctSources(corpus)
    ensures DistinctPlan(p)
  {
    hide Trim, GroupKey, DistinctSources;
    forall j: nat | j < |p.jobs|
      ensures DistinctSources(p.jobs[j].items)
    {
      WithKeyDistinct(corpus, keys[j]);
    }
    forall i: nat, j: nat, x, y | i < |p.jobs| && j < |p.jobs| && i != j && x in p.jobs[i].items && y in p.jobs[j].items
      ensures Trim(x.source) != Trim(y.source)
    {
      WithKeyMembers(corpus, keys[i], x);
      WithKeyMembers(corpus, keys[j], y);
      DifferentItems(corpus, x, y);
    }
  }

  /** The items of a key were imported as job j, each once, in corpus order, on one worker. */
  ghost predicate GroupImported(s: State, corpus: seq<Item>, key: string, j: nat) {
    exists w: nat :: w < |s.workers| && JobLog(s.log, j) == Part(w, j, |WithKey(corpus, key)|)
  }

  /** In every schedule without an error the grouped import gives the sequential mapping, and the items
      of each group were imported once, in corpus order, on one worker. */
  lemma {:induction false} GroupedImportIsSequential(p: Plan, corpus: seq<Item>, keys: seq<string>,
                                                     groups: seq<seq<Item>>, workers: nat,
                                  states: seq<State>, actions: seq<Action>)
    requires p.jobs == GroupJobs(groups) && GroupsBy(corpus, keys, groups) && DistinctSources(corpus)
    requires |keys| == |groups| && Run(p, states, actions) && states[0] == Start(workers) && workers > 0
             && EndedWell(states[|actions|])
    ensures states[|actions|].merged == OneEach(KeptRefs(Refs(p.server, corpus), p.keep))
    ensures forall j: nat :: j < |groups| ==> GroupImported(states[|actions|], corpus, keys[j], j)
  {
    hide Refs, OneEach, KeptRefs, Run, DistinctSources, EndedWell, GroupKey, JobLog, ImportedOnce, GroupsBy, Part;
    hide WithKey, GroupImported;
    GroupPlanIsDistinct(p, corpus, keys, groups);
    NoErrorMeansImported(p, workers, states, actions);
    WorkersStayed(p, workers, states, actions);
    var order := Upto(|p.jobs|);
    PlanIsSeparate(p, order);
    forall x
      ensures x in ItemsOf(p, order) <==> x in corpus
    {
      GroupItems(p, corpus, keys, groups, x);
    }
    RefsIgnoreOrder(p.server, ItemsOf(p, order), corpus);
    GroupsImportedOnce(p, corpus, keys, groups, states[|actions|]);
  }

  lemma {:induction false} GroupsImportedOnce(p: Plan, corpus: seq<Item>, keys: seq<string>, groups: seq<seq<Item>>,
                                              s: State)
    requires p.jobs == GroupJobs(groups) && GroupsBy(corpus, keys, groups)
    requires forall j: nat :: j < |p.jobs| ==> ImportedOnce(p, s, j)
    ensures forall j: nat :: j < |groups| ==> GroupImported(s, corpus, keys[j], j)
  {
    hide JobLog, WithKey, GroupKey, D.NoRepeats;
    forall j: nat | j < |groups|
      ensures GroupImported(s, corpus, keys[j], j)
    {
      assert ImportedOnce(p, s, j) && JobSize(p, j) == |WithKey(corpus, keys[j])|;
    }
  }

  lemma {:induction false} WorkersStayed(p: Plan, workers: nat, states: seq<State>, actions: seq<Action>)
    requires Run(p, states, actions) && states[0] == Start(workers)
    ensures |states| == |actions| + 1 && |states[|actions|].workers| == workers
  {
    WorkersStay(p, states, actions, |actions|);
  }

  lemma {:induction false} GroupItems(p: Plan, corpus: seq<Item>, keys: seq<string>, groups: seq<seq<Item>>, x: Item)
    requires p.jobs == GroupJobs(groups) && GroupsBy(corpus, keys, groups)
    ensures x in ItemsOf(p, Upto(|p.jobs|)) <==> x in corpus
  {
    hide GroupKey;
    ItemsFromJobs(p, Upto(|p.jobs|), x);
    if x in ItemsOf(p, Upto(|p.jobs|)) {
      var j: nat :| j < |p.jobs| && Takes(p, j, x);
      WithKeyMembers(corpus, keys[j], x);
    }
    if x in corpus {
      var j: nat :| j < |keys| && keys[j] == GroupKey(x);
      WithKeyMembers(corpus, keys[j], x);
      assert Takes(p, j, x);
    }
  }
}
