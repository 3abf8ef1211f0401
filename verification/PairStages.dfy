/** One paired-run stage: attempt directories, racing Begin commands, and owners that may die at any step. */
module PairStages {
  import opened Options

  datatype Stage = Validate | Capacity | Import | Drain | Capture | Score

  /** A process identity; the boot id and start tick in it keep it from ever being alive again. */
  type Process = nat

  datatype Intent = Intent(config: nat, process: Process)

  /** What pairArtifactHashes sees: every file of the attempt but the receipt. */
  datatype Artifacts = Artifacts(intent: Option<Intent>, failed: bool, interrupted: bool, native: Option<Process>,
                                 files: map<string, string>)
  datatype Receipt = Receipt(intent: Intent, artifacts: Artifacts)
  datatype Attempt = Attempt(artifacts: Artifacts, receipt: Option<Receipt>)

  /** How far a Begin command has come; each phase is one more check passed. */
  datatype Phase =
    | Listed | Named | Unreceipted | Unfailed | OwnerGone | NativeGone | Ready | Made
    | Returned(attempt: nat, reused: bool, first: bool)
    | Refused

  datatype Begin = Begin(config: nat, owner: Process, previous: nat, process: Process, phase: Phase)

  datatype State = State(stage: Stage, dirs: map<nat, Attempt>, dead: set<Process>, begins: map<nat, Begin>)

  datatype Action =
    | List(b: nat, config: nat, owner: Process)
    | ReadIntent(b: nat)
    | CheckReceipt(b: nat, valid: bool)
    | CheckFailure(b: nat)
    | CheckOwner(b: nat)
    | CheckNative(b: nat)
    | Complete(b: nat, valid: bool)
    | MarkInterrupted(b: nat)
    | Make(b: nat)
    | WriteIntent(b: nat)
    | Abandon(b: nat)
    | Finish(n: nat, config: nat, valid: bool)
    | Fail(n: nat)
    | Launch(n: nat, native: Process)
    | Write(n: nat, files: map<string, string>)
    | Die(p: Process)

  const Nothing := Artifacts(None, false, false, None, map[])

  /** Capture and score are completed by a later Begin, never attempted again. */
  predicate Restartable(stage: Stage) {
    stage != Capture && stage != Score
  }

  /** The highest attempt number, 0 if there is none. */
  ghost function Highest(keys: set<nat>): (n: nat)
    ensures forall k :: k in keys ==> k <= n
    ensures n == 0 || n in keys
  {
    if keys == {} then 0 else
    var k :| k in keys;
    var rest := Highest(keys - {k});
    assert keys == (keys - {k}) + {k};
    if k > rest then k else rest
  }

  // ----- The steps

  /** VerifyPairStage, given whether the outputs are valid. */
  predicate Verifies(config: nat, a: Attempt) {
    a.receipt.Some? && a.receipt.value.intent.config == config && a.receipt.value.artifacts == a.artifacts
  }

  predicate OwnedAndLive(s: State, n: nat) {
    n in s.dirs && s.dirs[n].artifacts.intent.Some? && s.dirs[n].artifacts.intent.value.process !in s.dead
  }

  predicate InPhase(s: State, b: nat, phase: Phase) {
    b in s.begins && s.begins[b].phase == phase
  }

  predicate Enabled(s: State, a: Action) {
    match a
    case List(b, _, owner) => b !in s.begins && owner !in s.dead
    case ReadIntent(b) => InPhase(s, b, Listed) && s.begins[b].previous in s.dirs
    case CheckReceipt(b, _) => InPhase(s, b, Named) && s.begins[b].previous in s.dirs
    case CheckFailure(b) => InPhase(s, b, Unreceipted) && s.begins[b].previous in s.dirs
    case CheckOwner(b) => InPhase(s, b, Unfailed)
    case CheckNative(b) => InPhase(s, b, OwnerGone) && s.begins[b].previous in s.dirs
    case Complete(b, _) => InPhase(s, b, NativeGone) && !Restartable(s.stage) && s.begins[b].previous in s.dirs
    case MarkInterrupted(b) => InPhase(s, b, NativeGone) && Restartable(s.stage) && s.begins[b].previous in s.dirs
    case Make(b) => InPhase(s, b, Ready) || (InPhase(s, b, Listed) && s.begins[b].previous == 0)
    case WriteIntent(b) => InPhase(s, b, Made) && s.begins[b].previous + 1 in s.dirs
    case Abandon(b) => b in s.begins && !s.begins[b].phase.Returned?
    case Finish(n, _, _) => OwnedAndLive(s, n)
    case Fail(n) => OwnedAndLive(s, n)
    case Launch(n, _) => OwnedAndLive(s, n)
    case Write(n, _) => n in s.dirs
    case Die(_) => true
  }

  function Moved(s: State, b: nat, phase: Phase): State
    requires b in s.begins
  {
    s.(begins := s.begins[b := s.begins[b].(phase := phase)])
  }

  function Put(s: State, n: nat, a: Attempt): State {
    s.(dirs := s.dirs[n := a])
  }

  /** FinishPairStage: the attempt afterwards, and whether it is now proven complete. */
  function Finished(config: nat, valid: bool, a: Attempt): (bool, Attempt) {
    var x := a.artifacts;
    if x.intent.None? || x.intent.value.config != config then (false, a)
    else if a.receipt.Some? then (valid && Verifies(config, a), a)
    else if x.failed || !valid then (false, a)
    else (true, a.(receipt := Some(Receipt(x.intent.value, x))))
  }

  ghost function Apply(s: State, a: Action): State
    requires Enabled(s, a)
  {
    match a
    case List(b, config, owner) => s.(begins := s.begins[b := Begin(config, owner, Highest(s.dirs.Keys), 0, Listed)])
    case ReadIntent(b) =>
      var begin, intent := s.begins[b], s.dirs[s.begins[b].previous].artifacts.intent;
      if intent.None? || intent.value.config != begin.config then Moved(s, b, Refused)
      else s.(begins := s.begins[b := begin.(process := intent.value.process, phase := Named)])
    case CheckReceipt(b, valid) =>
      var begin := s.begins[b];
      var attempt := s.dirs[begin.previous];
      if attempt.receipt.None? then Moved(s, b, Unreceipted)
      else if valid && Verifies(begin.config, attempt) then Moved(s, b, Returned(begin.previous, true, false))
      else Moved(s, b, Refused)
    case CheckFailure(b) => Moved(s, b, if s.dirs[s.begins[b].previous].artifacts.failed then Refused else Unfailed)
    case CheckOwner(b) => Moved(s, b, if s.begins[b].process in s.dead then OwnerGone else Refused)
    case CheckNative(b) =>
      var native := s.dirs[s.begins[b].previous].artifacts.native;
      Moved(s, b, if native.Some? && native.value !in s.dead then Refused else NativeGone)
    case Complete(b, valid) =>
      var begin := s.begins[b];
      var (done, attempt) := Finished(begin.config, valid, s.dirs[begin.previous]);
      Moved(Put(s, begin.previous, attempt), b, if done then Returned(begin.previous, true, false) else Refused)
    case MarkInterrupted(b) =>
      var attempt := s.dirs[s.begins[b].previous];
      Moved(Put(s, s.begins[b].previous, attempt.(artifacts := attempt.artifacts.(interrupted := true))), b, Ready)
    case Make(b) =>
      var n := s.begins[b].previous + 1;
      if n in s.dirs then Moved(s, b, Refused) else Moved(Put(s, n, Attempt(Nothing, None)), b, Made)
    case WriteIntent(b) =>
      var begin, n := s.begins[b], s.begins[b].previous + 1;
      var attempt := s.dirs[n];
      Moved(Put(s, n, attempt.(artifacts := attempt.artifacts.(intent := Some(Intent(begin.config, begin.owner))))), b,
            Returned(n, false, begin.previous == 0))
    case Abandon(b) => Moved(s, b, Refused)
    case Finish(n, config, valid) => Put(s, n, Finished(config, valid, s.dirs[n]).1)
    case Fail(n) => Put(s, n, s.dirs[n].(artifacts := s.dirs[n].artifacts.(failed := true)))
    case Launch(n, native) => Put(s, n, s.dirs[n].(artifacts := s.dirs[n].artifacts.(native := Some(native))))
    case Write(n, files) => Put(s, n, s.dirs[n].(artifacts := s.dirs[n].artifacts.(files := files)))
    case Die(p) => s.(dead := s.dead + {p})
  }

  function Start(stage: Stage): State {
    State(stage, map[], {}, map[])
  }

  // ----- Slipping between the checks

  /** The action records an outcome for an attempt that has none of that kind yet. */
  predicate Settles(s: State, a: Action)
    requires Enabled(s, a)
  {
    match a
    case Finish(n, config, valid) => s.dirs[n].receipt.None? && Finished(config, valid, s.dirs[n]).0
    case Fail(n) => !s.dirs[n].artifacts.failed
    case _ => false
  }

  /** A Begin of this restartable stage has already looked for the outcome the action records, and not yet at
      the owner. */
  predicate Overtakes(s: State, b: nat, a: Action) {
    && b in s.begins && Restartable(s.stage)
    && ((a.Finish? && s.begins[b].previous == a.n
      && (s.begins[b].phase == Unreceipted || s.begins[b].phase == Unfailed))
        || (a.Fail? && s.begins[b].previous == a.n && s.begins[b].phase == Unfailed))
  }

  /** No owner records an outcome between the looks of a Begin. */
  ghost predicate Orderly(s: State, a: Action)
    requires Enabled(s, a)
  {
    Settles(s, a) ==> forall b :: b in s.begins ==> !Overtakes(s, b, a)
  }

  // ----- The invariant

  ghost predicate Numbered(dirs: map<nat, Attempt>) {
    forall k :: k in dirs <==> 1 <= k <= |dirs|
  }

  /** An attempt that was followed by another: proven stopped, with neither outcome. */
  predicate Passed(dead: set<Process>, a: Attempt) {
    && a.artifacts.intent.Some? && a.artifacts.intent.value.process in dead
    && (a.artifacts.native.Some? ==> a.artifacts.native.value in dead)
    && a.receipt.None? && !a.artifacts.failed && a.artifacts.interrupted
  }

  ghost predicate EarlierPassed(s: State) {
    forall k :: k in s.dirs && k < |s.dirs| ==> Passed(s.dead, s.dirs[k])
  }

  predicate AttemptOk(stage: Stage, dead: set<Process>, a: Attempt) {
    && (a.artifacts.intent.None? ==> a == Attempt(Nothing.(files := a.artifacts.files), None))
    && (a.artifacts.interrupted ==>
        Restartable(stage) && a.artifacts.intent.Some? && a.artifacts.intent.value.process in dead
                                    && a.receipt.None? && !a.artifacts.failed)
    && (a.receipt.Some? ==> !a.receipt.value.artifacts.failed)
  }

  /** What the checks passed so far still say about the previous attempt. */
  predicate Looked(stage: Stage, dead: set<Process>, a: Attempt, b: Begin) {
    && a.artifacts.intent == Some(Intent(b.config, b.process))
    && (Restartable(stage) && !b.phase.Named? ==> a.receipt.None?)
    && (Restartable(stage) && !b.phase.Named? && !b.phase.Unreceipted? ==> !a.artifacts.failed)
    && (b.phase.OwnerGone? || b.phase.NativeGone? || b.phase.Ready? ==> b.process in dead)
    && (b.phase.NativeGone? || b.phase.Ready? ==> a.artifacts.native.Some? ==> a.artifacts.native.value in dead)
    && (b.phase.Ready? ==> a.artifacts.interrupted)
  }

  predicate Looking(phase: Phase) {
    phase.Named? || phase.Unreceipted? || phase.Unfailed? || phase.OwnerGone? || phase.NativeGone? || phase.Ready?
  }

  predicate BeginOk(s: State, b: Begin) {
    && b.previous <= |s.dirs|
    && (Looking(b.phase) ==> b.previous in s.dirs && Looked(s.stage, s.dead, s.dirs[b.previous], b))
    && (b.phase.Made? ==> b.previous + 1 in s.dirs && s.dirs[b.previous + 1].artifacts.intent.None?)
    && (b.phase.Returned? ==> b.phase.attempt in s.dirs && s.dirs[b.phase.attempt].artifacts.intent.Some?)
    && (b.phase.Returned? && b.phase.reused ==> s.dirs[b.phase.attempt].receipt.Some?)
  }

  ghost predicate BeginsOk(s: State) {
    forall b :: b in s.begins ==> BeginOk(s, s.begins[b])
  }

  /** At most one Begin has made the newest directory. */
  ghost predicate OneMaker(s: State) {
    forall b, c :: b in s.begins && c in s.begins && s.begins[b].phase.Made? && s.begins[c].phase.Made? ==> b == c
  }

  ghost predicate Inv(s: State) {
    && Numbered(s.dirs) && EarlierPassed(s) && BeginsOk(s) && OneMaker(s)
    && (forall k :: k in s.dirs ==> AttemptOk(s.stage, s.dead, s.dirs[k]))
    && (!Restartable(s.stage) ==> |s.dirs| <= 1)
  }

  // ----- Preservation

  lemma {:induction false} StartIsSound(stage: Stage)
    ensures Inv(Start(stage))
  {
  }

  /** Only the newest attempt can have a live owner. */
  lemma {:induction false} LiveIsNewest(s: State, n: nat)
    requires Inv(s) && OwnedAndLive(s, n)
    ensures n == |s.dirs|
  {
  }

  lemma {:induction false} HighestIsCount(dirs: map<nat, Attempt>)
    requires Numbered(dirs)
    ensures Highest(dirs.Keys) == |dirs|
  {
    var n := Highest(dirs.Keys);
    if dirs == map[] {
      assert |dirs| == 0;
    } else {
      assert |dirs| in dirs;
    }
  }

  /** A Begin moves and nothing else changes. */
  lemma {:induction false} MoveKeeps(s: State, t: State, b: nat)
    requires Inv(s) && b in t.begins && t == s.(begins := s.begins[b := t.begins[b]])
    requires BeginOk(t, t.begins[b]) && !t.begins[b].phase.Made?
    ensures Inv(t)
  {
    hide Looked, AttemptOk, Passed;
    forall c | c in t.begins
      ensures BeginOk(t, t.begins[c])
    {
      if c != b {
        assert BeginOk(s, s.begins[c]);
      }
    }
  }

  /** The Begin that an inspecting step leaves is sound in the state it was in. */
  lemma {:induction false} LookedAt(s: State, a: Action)
    requires a.ReadIntent? || a.CheckReceipt? || a.CheckFailure? || a.CheckOwner? || a.CheckNative? || a.Abandon?
    requires Enabled(s, a) && BeginOk(s, s.begins[a.b])
    ensures a.b in Apply(s, a).begins && BeginOk(s, Apply(s, a).begins[a.b]) && !Apply(s, a).begins[a.b].phase.Made?
    ensures Apply(s, a) == s.(begins := s.begins[a.b := Apply(s, a).begins[a.b]])
  {
  }

  lemma {:induction false} LookKeeps(s: State, a: Action)
    requires Inv(s) && Enabled(s, a)
    requires a.List? || a.ReadIntent? || a.CheckReceipt? || a.CheckFailure? || a.CheckOwner? || a.CheckNative?
             || a.Abandon?
    ensures Inv(Apply(s, a))
  {
    hide Looked, AttemptOk, Passed, OneMaker, EarlierPassed, Verifies;
    if a.List? {
      HighestIsCount(s.dirs);
      MoveKeeps(s, Apply(s, a), a.b);
    } else {
      assert BeginOk(s, s.begins[a.b]);
      LookedAt(s, a);
      SameDirs(s, Apply(s, a), a.b);
      MoveKeeps(s, Apply(s, a), a.b);
    }
  }

  lemma {:induction false} SameDirs(s: State, t: State, b: nat)
    requires t == s.(begins := t.begins) && b in t.begins && BeginOk(s, t.begins[b])
    ensures BeginOk(t, t.begins[b])
  {
  }

  /** The newest attempt changes, in a way every Begin and the attempt itself allow. */
  lemma {:induction false} PutKeeps(s: State, n: nat, x: Attempt)
    requires Inv(s) && n in s.dirs && n == |s.dirs| && AttemptOk(s.stage, s.dead, x)
    requires x.artifacts.intent == s.dirs[n].artifacts.intent
    requires s.dirs[n].receipt.Some? ==> x.receipt.Some?
    requires forall b :: b in s.begins && Looking(s.begins[b].phase) && s.begins[b].previous == n ==>
               Looked(s.stage, s.dead, x, s.begins[b])
    ensures Inv(Put(s, n, x))
  {
    hide Looked, AttemptOk, Passed, Looking;
    var t := Put(s, n, x);
    assert t.dirs.Keys == s.dirs.Keys;
    KeysCount(s.dirs, t.dirs);
    forall b | b in t.begins
      ensures BeginOk(t, t.begins[b])
    {
      assert BeginOk(s, s.begins[b]);
    }
  }

  lemma {:induction false} KeysCount(a: map<nat, Attempt>, b: map<nat, Attempt>)
    requires a.Keys == b.Keys
    ensures |a| == |b|
  {
    assert |a| == |a.Keys| && |b| == |b.Keys|;
  }

  lemma {:induction false} OutcomeKeeps(s: State, a: Action)
    requires Inv(s) && Enabled(s, a) && (a.Finish? || a.Fail? || a.Launch?) && Orderly(s, a)
    ensures Inv(Apply(s, a))
  {
    LiveIsNewest(s, a.n);
    var x := Apply(s, a).dirs[a.n];
    assert AttemptOk(s.stage, s.dead, s.dirs[a.n]);
    forall b | b in s.begins && Looking(s.begins[b].phase) && s.begins[b].previous == a.n
      ensures Looked(s.stage, s.dead, x, s.begins[b])
    {
      assert BeginOk(s, s.begins[b]);
      assert Settles(s, a) ==> !Overtakes(s, b, a);
    }
    PutKeeps(s, a.n, x);
  }

  lemma {:induction false} WriteKeeps(s: State, a: Action)
    requires Inv(s) && Enabled(s, a) && a.Write?
    ensures Inv(Apply(s, a))
  {
    var t := Apply(s, a);
    assert t.dirs.Keys == s.dirs.Keys;
    KeysCount(s.dirs, t.dirs);
    assert AttemptOk(s.stage, s.dead, s.dirs[a.n]);
    forall b | b in t.begins
      ensures BeginOk(t, t.begins[b])
    {
      assert BeginOk(s, s.begins[b]);
    }
  }

  lemma {:induction false} DieKeeps(s: State, a: Action)
    requires Inv(s) && a.Die?
    ensures Inv(Apply(s, a))
  {
    var t := Apply(s, a);
    forall b | b in t.begins
      ensures BeginOk(t, t.begins[b])
    {
      assert BeginOk(s, s.begins[b]);
    }
    forall k | k in t.dirs
      ensures AttemptOk(t.stage, t.dead, t.dirs[k])
    {
      assert AttemptOk(s.stage, s.dead, s.dirs[k]);
    }
  }

  lemma {:induction false} MarkKeeps(s: State, a: Action)
    requires Inv(s) && Enabled(s, a) && a.MarkInterrupted?
    ensures Inv(Apply(s, a))
  {
    var begin := s.begins[a.b];
    var n := begin.previous;
    assert BeginOk(s, begin);
    var x := s.dirs[n].(artifacts := s.dirs[n].artifacts.(interrupted := true));
    if n == |s.dirs| {
      forall b | b in s.begins && Looking(s.begins[b].phase) && s.begins[b].previous == n
        ensures Looked(s.stage, s.dead, x, s.begins[b])
      {
        assert BeginOk(s, s.begins[b]);
      }
      PutKeeps(s, n, x);
    } else {
      assert Passed(s.dead, s.dirs[n]);
      assert Put(s, n, x) == s;
    }
    MoveKeeps(Put(s, n, x), Apply(s, a), a.b);
  }

  lemma {:induction false} CompleteKeeps(s: State, a: Action)
    requires Inv(s) && Enabled(s, a) && a.Complete?
    ensures Inv(Apply(s, a))
  {
    var begin := s.begins[a.b];
    var n := begin.previous;
    assert BeginOk(s, begin);
    assert AttemptOk(s.stage, s.dead, s.dirs[n]);
    var x := Finished(begin.config, a.valid, s.dirs[n]).1;
    forall b | b in s.begins && Looking(s.begins[b].phase) && s.begins[b].previous == n
      ensures Looked(s.stage, s.dead, x, s.begins[b])
    {
      assert BeginOk(s, s.begins[b]);
    }
    PutKeeps(s, n, x);
    MoveKeeps(Put(s, n, x), Apply(s, a), a.b);
  }

  lemma {:induction false} MakerIsNewest(s: State, b: nat)
    requires Inv(s) && InPhase(s, b, Made)
    ensures s.begins[b].previous + 1 == |s.dirs| && s.dirs[|s.dirs|].artifacts.intent.None?
  {
    assert BeginOk(s, s.begins[b]);
  }

  lemma {:induction false} NoOtherMaker(s: State, b: nat)
    requires Inv(s) && b in s.begins && s.begins[b].previous == |s.dirs|
    requires |s.dirs| == 0 || s.begins[b].phase.Ready?
    ensures forall c :: c in s.begins ==> !s.begins[c].phase.Made?
  {
    hide AttemptOk, EarlierPassed, OneMaker;
    assert BeginOk(s, s.begins[b]);
    forall c | c in s.begins
      ensures !s.begins[c].phase.Made?
    {
      assert BeginOk(s, s.begins[c]);
      if s.begins[c].phase.Made? {
        MakerIsNewest(s, c);
      }
    }
  }

  lemma {:induction false} NewestIsPassed(s: State, b: nat)
    requires Inv(s) && InPhase(s, b, Ready) && s.begins[b].previous > 0
    ensures Restartable(s.stage) && s.begins[b].previous in s.dirs && Passed(s.dead, s.dirs[s.begins[b].previous])
  {
    hide EarlierPassed, OneMaker;
    assert BeginOk(s, s.begins[b]);
    assert AttemptOk(s.stage, s.dead, s.dirs[s.begins[b].previous]);
  }

  lemma {:induction false} OneMore(dirs: map<nat, Attempt>, n: nat, a: Attempt)
    requires Numbered(dirs) && n == |dirs| + 1
    ensures |dirs[n := a]| == n && Numbered(dirs[n := a])
  {
    var more := dirs[n := a];
    assert n !in dirs.Keys && more.Keys == dirs.Keys + {n};
    assert |more.Keys| == |dirs.Keys| + 1;
    assert |more| == |more.Keys| && |dirs| == |dirs.Keys|;
  }

  /** A new directory: everything before it is passed. */
  lemma {:induction false} MakeKeeps(s: State, a: Action)
    requires Inv(s) && Enabled(s, a) && a.Make?
    ensures Inv(Apply(s, a))
  {
    hide Looked, AttemptOk, Passed, EarlierPassed, OneMaker, Numbered;
    var begin := s.begins[a.b];
    var n := begin.previous + 1;
    var t := Apply(s, a);
    assert BeginOk(s, begin);
    if n in s.dirs {
      MoveKeeps(s, t, a.b);
    } else {
      NextIsNewest(s, begin);
      OneMore(s.dirs, n, Attempt(Nothing, None));
      NoOtherMaker(s, a.b);
      if begin.previous > 0 {
        NewestIsPassed(s, a.b);
      }
      MadeBegins(s, t, a.b, n);
      MadeAttempts(s, t, n);
      MadeOnce(s, t, a.b);
    }
  }

  lemma {:induction false} NextIsNewest(s: State, b: Begin)
    requires Numbered(s.dirs) && BeginOk(s, b) && b.previous + 1 !in s.dirs
    ensures b.previous == |s.dirs|
  {
  }

  lemma {:induction false} MadeOnce(s: State, t: State, b: nat)
    requires b in s.begins && t.begins == s.begins[b := s.begins[b].(phase := Made)]
    requires forall c :: c in s.begins ==> !s.begins[c].phase.Made?
    ensures OneMaker(t)
  {
  }

  lemma {:induction false} MadeAttempts(s: State, t: State, n: nat)
    requires Inv(s) && n == |s.dirs| + 1 && |t.dirs| == n && t.dirs == s.dirs[n := Attempt(Nothing, None)]
             && t.dead == s.dead && t.stage == s.stage
    requires n > 1 ==> n - 1 in s.dirs && Passed(s.dead, s.dirs[n - 1])
    ensures EarlierPassed(t) && forall k :: k in t.dirs ==> AttemptOk(t.stage, t.dead, t.dirs[k])
  {
    hide Passed, BeginsOk, OneMaker;
    forall k | k in t.dirs && k < n
      ensures Passed(t.dead, t.dirs[k])
    {
      assert k in s.dirs;
    }
  }

  lemma {:induction false} MadeBegins(s: State, t: State, b: nat, n: nat)
    requires Inv(s) && b in s.begins && n == s.begins[b].previous + 1 && n !in s.dirs && |t.dirs| == n
    requires t == Moved(Put(s, n, Attempt(Nothing, None)), b, Made)
    ensures BeginsOk(t)
  {
    hide Looked, AttemptOk, Passed;
    forall c | c in t.begins
      ensures BeginOk(t, t.begins[c])
    {
      assert BeginOk(s, s.begins[c]);
    }
  }

  lemma {:induction false} IntentKeeps(s: State, a: Action)
    requires Inv(s) && Enabled(s, a) && a.WriteIntent?
    ensures Inv(Apply(s, a))
  {
    var t, n := Apply(s, a), s.begins[a.b].previous + 1;
    assert BeginOk(s, s.begins[a.b]);
    assert t.dirs.Keys == s.dirs.Keys;
    KeysCount(s.dirs, t.dirs);
    MakerIsNewest(s, a.b);
    assert AttemptOk(s.stage, s.dead, s.dirs[n]);
    forall c | c in t.begins
      ensures BeginOk(t, t.begins[c])
    {
      assert BeginOk(s, s.begins[c]);
    }
  }

  /** Every orderly step keeps the invariant. */
  lemma {:induction false} StepKeeps(s: State, a: Action)
    requires Inv(s) && Enabled(s, a) && Orderly(s, a)
    ensures Inv(Apply(s, a))
  {
    hide Inv, Enabled, Apply, Orderly;
    match a
    case Complete(_, _) => CompleteKeeps(s, a);
    case MarkInterrupted(_) => MarkKeeps(s, a);
    case Make(_) => MakeKeeps(s, a);
    case WriteIntent(_) => IntentKeeps(s, a);
    case Write(_, _) => WriteKeeps(s, a);
    case Die(_) => DieKeeps(s, a);
    case Finish(_, _, _) => OutcomeKeeps(s, a);
    case Fail(_) => OutcomeKeeps(s, a);
    case Launch(_, _) => OutcomeKeeps(s, a);
    case _ => LookKeeps(s, a);
  }

  // ----- Runs

  ghost predicate Run(states: seq<State>, actions: seq<Action>) {
    && |states| == |actions| + 1
    && forall i :: 0 <= i < |actions| ==>
        Enabled(states[i], actions[i]) && states[i + 1] == Apply(states[i], actions[i])
  }

  ghost predicate OrderlyRun(states: seq<State>, actions: seq<Action>) {
    Run(states, actions) && forall i :: 0 <= i < |actions| ==> Orderly(states[i], actions[i])
  }

  lemma {:induction false} RunKeeps(states: seq<State>, actions: seq<Action>, i: nat)
    requires OrderlyRun(states, actions) && Inv(states[0]) && i < |states|
    ensures Inv(states[i])
  {
    hide Inv, Apply, Enabled, Orderly;
    if i > 0 {
      RunKeeps(states, actions, i - 1);
      StepKeeps(states[i - 1], actions[i - 1]);
    }
  }

  ghost predicate Safe(s: State) {
    && Numbered(s.dirs)
    && (forall j, k :: j in s.dirs && k in s.dirs && j < k ==> !OwnedAndLive(s, j))
    && (forall j, k :: j in s.dirs && k in s.dirs && j < k ==>
          && !s.dirs[j].artifacts.failed && s.dirs[j].receipt.None?
          && (s.dirs[j].artifacts.native.Some? ==> s.dirs[j].artifacts.native.value in s.dead))
    && (!Restartable(s.stage) ==> |s.dirs| <= 1)
  }

  /** In every orderly run: attempts are numbered 1..n, only the newest can be live, no failed or completed attempt
      is followed by another, no recorded native process of an older attempt runs, capture and score have
      one attempt. */
  lemma {:induction false} EveryOrderlyRunIsSafe(stage: Stage, states: seq<State>, actions: seq<Action>, i: nat)
    requires OrderlyRun(states, actions) && states[0] == Start(stage) && i < |states|
    ensures Safe(states[i])
  {
    StartIsSound(stage);
    RunKeeps(states, actions, i);
    InvIsSafe(states[i]);
  }

  lemma {:induction false} InvIsSafe(s: State)
    requires Inv(s)
    ensures Safe(s)
  {
    forall j, k | j in s.dirs && k in s.dirs && j < k
      ensures Passed(s.dead, s.dirs[j])
    {
    }
  }

  // ----- An outcome is final

  ghost predicate Unchanged(s: State, n: nat, outcome: Attempt) {
    && n in s.dirs && n == |s.dirs| && s.dirs[n].artifacts.intent == outcome.artifacts.intent
    && (outcome.receipt.Some? ==> s.dirs[n].receipt == outcome.receipt)
    && (outcome.artifacts.failed ==> s.dirs[n].artifacts.failed)
  }

  /** A Begin that listed the directory after the outcome can only have come this far. */
  predicate LateBegin(n: nat, outcome: Attempt, b: Begin) {
    && b.previous == n
    && match b.phase
       case Listed => true
       case Named => true
       case Refused => true
       case Unreceipted => outcome.receipt.None?
       case Returned(k, reused, _) => k == n && reused && outcome.receipt.Some? && !outcome.artifacts.failed
       case _ => false
  }

  ghost predicate LateBegins(before: set<nat>, s: State, n: nat, outcome: Attempt) {
    forall b :: b in s.begins && b !in before ==> LateBegin(n, outcome, s.begins[b])
  }

  lemma {:induction false} OutcomeStaysStep(s: State, a: Action, n: nat, outcome: Attempt)
    requires Inv(s) && Enabled(s, a) && Orderly(s, a)
    requires Unchanged(s, n, outcome) && outcome.artifacts.intent.Some?
             && (outcome.receipt.Some? || outcome.artifacts.failed)
    ensures Unchanged(Apply(s, a), n, outcome)
  {
    hide EarlierPassed, OneMaker, AttemptOk, Looked;
    if a.Make? {
      if s.begins[a.b].phase.Ready? && s.begins[a.b].previous > 0 {
        NewestIsPassed(s, a.b);
      }
    } else {
      if a.WriteIntent? {
        MakerIsNewest(s, a.b);
      }
      SameCount(s, a);
    }
  }

  lemma {:induction false} SameCount(s: State, a: Action)
    requires Enabled(s, a) && !a.Make?
    ensures |Apply(s, a).dirs| == |s.dirs| && Apply(s, a).dirs.Keys == s.dirs.Keys
  {
    assert Apply(s, a).dirs.Keys == s.dirs.Keys;
    KeysCount(s.dirs, Apply(s, a).dirs);
  }

  lemma {:induction false} CountIsHighest(s: State)
    requires Inv(s)
    ensures Highest(s.dirs.Keys) == |s.dirs|
  {
    HighestIsCount(s.dirs);
  }

  lemma {:induction false} ReceiptsPrecedeFailures(s: State, n: nat)
    requires Inv(s) && n in s.dirs
    ensures s.dirs[n].receipt.Some? ==> !s.dirs[n].receipt.value.artifacts.failed
  {
    assert AttemptOk(s.stage, s.dead, s.dirs[n]);
  }

  lemma {:induction false} LateBeginStep(s: State, a: Action, before: set<nat>, n: nat, outcome: Attempt)
    requires Inv(s) && Enabled(s, a) && before <= s.begins.Keys
    requires Unchanged(s, n, outcome) && LateBegins(before, s, n, outcome)
             && (outcome.receipt.Some? || outcome.artifacts.failed)
    ensures LateBegins(before, Apply(s, a), n, outcome) && before <= Apply(s, a).begins.Keys
  {
    hide Inv, AttemptOk;
    CountIsHighest(s);
    ReceiptsPrecedeFailures(s, n);
    var t := Apply(s, a);
    forall b | b in t.begins && b !in before
      ensures LateBegin(n, outcome, t.begins[b])
    {
      if b in s.begins {
        assert LateBegin(n, outcome, s.begins[b]);
      }
    }
  }

  /** A receipt or a failure is the end of a stage: no attempt follows it, and a later Begin returns nothing
      but the completed attempt, and never a failed one. */
  lemma {:induction false} OutcomeIsFinal(stage: Stage, states: seq<State>, actions: seq<Action>, i: nat, j: nat)
    requires OrderlyRun(states, actions) && states[0] == Start(stage) && i <= j < |states|
    requires |states[i].dirs| in states[i].dirs
    requires var outcome := states[i].dirs[|states[i].dirs|]; outcome.receipt.Some? || outcome.artifacts.failed
    ensures var n := |states[i].dirs|;
            && Unchanged(states[j], n, states[i].dirs[n])
            && states[i].begins.Keys <= states[j].begins.Keys
            && LateBegins(states[i].begins.Keys, states[j], n, states[i].dirs[n])
    decreases j - i
  {
    hide Inv, Apply, Enabled, Orderly, Unchanged, LateBegin;
    var n := |states[i].dirs|;
    StartIsSound(stage);
    RunKeeps(states, actions, i);
    if i == j {
      OutcomeStands(states[i], n);
    } else {
      OutcomeIsFinal(stage, states, actions, i, j - 1);
      RunKeeps(states, actions, j - 1);
      OutcomeStands(states[i], n);
      OutcomeStaysStep(states[j - 1], actions[j - 1], n, states[i].dirs[n]);
      LateBeginStep(states[j - 1], actions[j - 1], states[i].begins.Keys, n, states[i].dirs[n]);
    }
  }

  lemma {:induction false} OutcomeStands(s: State, n: nat)
    requires Inv(s) && n in s.dirs && n == |s.dirs| && (s.dirs[n].receipt.Some? || s.dirs[n].artifacts.failed)
    ensures Unchanged(s, n, s.dirs[n]) && s.dirs[n].artifacts.intent.Some?
  {
    assert AttemptOk(s.stage, s.dead, s.dirs[n]);
  }

  /** While its artifacts are unchanged and its outputs valid, a completed attempt is what a new Begin returns. */
  lemma {:induction false} UnchangedReceiptIsReused(s: State, b: nat, owner: Process)
    returns (states: seq<State>, actions: seq<Action>)
    requires Inv(s) && |s.dirs| in s.dirs && b !in s.begins && owner !in s.dead
    requires var attempt := s.dirs[|s.dirs|];
             attempt.receipt.Some? && attempt.receipt.value.artifacts == attempt.artifacts
             && Some(attempt.receipt.value.intent) == attempt.artifacts.intent
    ensures Run(states, actions) && states[0] == s && |actions| == 3
    ensures actions ==
            [List(b, s.dirs[|s.dirs|].receipt.value.intent.config, owner), ReadIntent(b), CheckReceipt(b, true)]
    ensures InPhase(states[3], b, Returned(|s.dirs|, true, false)) && states[3].dirs == s.dirs
  {
    hide EarlierPassed, OneMaker, BeginsOk;
    var config := s.dirs[|s.dirs|].receipt.value.intent.config;
    HighestIsCount(s.dirs);
    var s1 := Apply(s, List(b, config, owner));
    var s2 := Apply(s1, ReadIntent(b));
    var s3 := Apply(s2, CheckReceipt(b, true));
    states, actions := [s, s1, s2, s3], [List(b, config, owner), ReadIntent(b), CheckReceipt(b, true)];
  }

  // ----- One disorderly outcome is enough to lose it

  ghost predicate Leads(s: State, actions: seq<Action>, t: State)
    decreases |actions|
  {
    if actions == [] then s == t else Enabled(s, actions[0]) && Leads(Apply(s, actions[0]), actions[1..], t)
  }

  lemma {:induction false} LeadsPush(s: State, actions: seq<Action>, t: State, a: Action)
    requires Leads(s, actions, t) && Enabled(t, a)
    ensures Leads(s, actions + [a], Apply(t, a))
    decreases |actions|
  {
    hide Enabled, Apply;
    if actions != [] {
      assert (actions + [a])[1..] == actions[1..] + [a];
      LeadsPush(Apply(s, actions[0]), actions[1..], t, a);
    } else {
      assert ([] + [a])[1..] == [];
      assert Leads(Apply(t, a), [], Apply(t, a));
    }
  }

  lemma {:induction false} NoSteps(s: State)
    ensures Leads(s, [], s)
  {
  }

  lemma {:induction false} LeadsJoin(s: State, xs: seq<Action>, t: State, ys: seq<Action>, u: State)
    requires Leads(s, xs, t) && Leads(t, ys, u)
    ensures Leads(s, xs + ys, u)
    decreases |xs|
  {
    hide Enabled, Apply;
    if xs == [] {
      assert xs + ys == ys;
    } else {
      assert (xs + ys)[1..] == xs[1..] + ys;
      LeadsJoin(Apply(s, xs[0]), xs[1..], t, ys, u);
    }
  }

  /** The Begin after it has seen the owner gone, the outcome notwithstanding. */
  ghost predicate Missed(s: State, b: nat, n: nat, phase: Phase) {
    && InPhase(s, b, phase) && s.begins[b].previous == n && n in s.dirs && n + 1 !in s.dirs && Restartable(s.stage)
    && (s.dirs[n].receipt.Some? || s.dirs[n].artifacts.failed)
  }

  /** From a state the invariant allows, an outcome that overtakes a Begin leads, by orderly steps alone,
      to a state where the finished or failed attempt is followed by another. */
  lemma {:induction false} OvertakingBreaks(s: State, a: Action, b: nat) returns (actions: seq<Action>, t: State)
    requires Inv(s) && Enabled(s, a) && Settles(s, a) && Overtakes(s, b, a)
    ensures Leads(Apply(s, a), actions, t) && !Safe(t)
    ensures forall i :: 0 <= i < |actions| ==> !actions[i].Finish? && !actions[i].Fail?
  {
    hide EarlierPassed, OneMaker, AttemptOk, Leads, Safe;
    var n := s.begins[b].previous;
    assert BeginOk(s, s.begins[b]);
    LiveIsNewest(s, n);
    var s1 := Apply(s, a);
    actions := [];
    t := s1;
    assert Leads(s1, actions, t) by { NoSteps(s1); }
    if s.begins[b].phase.Unreceipted? {
      assert !t.dirs[n].artifacts.failed;
      LeadsPush(s1, actions, t, CheckFailure(b));
      actions, t := actions + [CheckFailure(b)], Apply(t, CheckFailure(b));
    }
    assert Missed(t, b, n, Unfailed);
    var more, u := MissedToNative(t, b, n);
    LeadsJoin(s1, actions, t, more, u);
    actions, t := actions + more, u;
    var last, v := MissedToMade(t, b, n);
    LeadsJoin(s1, actions, t, last, v);
    actions, t := actions + last, v;
    FollowedIsUnsafe(t, n);
  }

  lemma {:induction false} MissedToNative(s: State, b: nat, n: nat) returns (actions: seq<Action>, t: State)
    requires Missed(s, b, n, Unfailed)
    ensures Leads(s, actions, t) && Missed(t, b, n, NativeGone)
    ensures forall i :: 0 <= i < |actions| ==> !actions[i].Finish? && !actions[i].Fail?
  {
    hide Leads;
    NoSteps(s);
    var owner := s.begins[b].process;
    LeadsPush(s, [], s, Die(owner));
    actions, t := [] + [Die(owner)], Apply(s, Die(owner));
    LeadsPush(s, actions, t, CheckOwner(b));
    actions, t := actions + [CheckOwner(b)], Apply(t, CheckOwner(b));
    var native := s.dirs[n].artifacts.native;
    if native.Some? {
      LeadsPush(s, actions, t, Die(native.value));
      actions, t := actions + [Die(native.value)], Apply(t, Die(native.value));
    }
    LeadsPush(s, actions, t, CheckNative(b));
    actions, t := actions + [CheckNative(b)], Apply(t, CheckNative(b));
  }

  lemma {:induction false} MissedToMade(s: State, b: nat, n: nat) returns (actions: seq<Action>, t: State)
    requires Missed(s, b, n, NativeGone)
    ensures Leads(s, actions, t) && n in t.dirs && n + 1 in t.dirs
            && (t.dirs[n].receipt.Some? || t.dirs[n].artifacts.failed)
    ensures forall i :: 0 <= i < |actions| ==> !actions[i].Finish? && !actions[i].Fail?
  {
    hide Leads;
    NoSteps(s);
    LeadsPush(s, [], s, MarkInterrupted(b));
    actions, t := [] + [MarkInterrupted(b)], Apply(s, MarkInterrupted(b));
    LeadsPush(s, actions, t, Make(b));
    actions, t := actions + [Make(b)], Apply(t, Make(b));
  }

  lemma {:induction false} FollowedIsUnsafe(s: State, n: nat)
    requires n in s.dirs && n + 1 in s.dirs && (s.dirs[n].receipt.Some? || s.dirs[n].artifacts.failed)
    ensures !Safe(s)
  {
  }

  /** Steps none of which overtakes a Begin. */
  ghost predicate OrderlySteps(s: State, actions: seq<Action>, t: State)
    decreases |actions|
  {
    if actions == [] then s == t
    else Enabled(s, actions[0]) && Orderly(s, actions[0]) && OrderlySteps(Apply(s, actions[0]), actions[1..], t)
  }

  lemma {:induction false} OrderlyStepsKeep(s: State, actions: seq<Action>, t: State)
    requires Inv(s) && OrderlySteps(s, actions, t)
    ensures Inv(t)
    decreases |actions|
  {
    hide Inv, Enabled, Apply, Orderly;
    if actions != [] {
      StepKeeps(s, actions[0]);
      OrderlyStepsKeep(Apply(s, actions[0]), actions[1..], t);
    }
  }

  lemma {:induction false} StepsWithoutOutcomeAreOrderly(s: State, actions: seq<Action>, t: State)
    requires Leads(s, actions, t) && forall i :: 0 <= i < |actions| ==> !actions[i].Finish? && !actions[i].Fail?
    ensures OrderlySteps(s, actions, t)
    decreases |actions|
  {
    hide Enabled, Apply;
    if actions != [] {
      StepsWithoutOutcomeAreOrderly(Apply(s, actions[0]), actions[1..], t);
    }
  }

  /** Whatever an orderly run goes on to is safe. */
  ghost predicate StaysSafe(s: State) {
    forall actions, t :: OrderlySteps(s, actions, t) ==> Safe(t)
  }

  /** A step is orderly exactly when every orderly run after it is safe. */
  lemma {:induction false} SafeExactlyWhenOrderly(s: State, a: Action)
    requires Inv(s) && Enabled(s, a)
    ensures Orderly(s, a) <==> StaysSafe(Apply(s, a))
  {
    hide Inv, Enabled, Apply, Overtakes, Settles, Safe, Leads, OrderlySteps;
    if Orderly(s, a) {
      StepKeeps(s, a);
      forall actions, t | OrderlySteps(Apply(s, a), actions, t)
        ensures Safe(t)
      {
        OrderlyStepsKeep(Apply(s, a), actions, t);
        InvIsSafe(t);
      }
    } else {
      var b :| b in s.begins && Overtakes(s, b, a);
      var actions, t := OvertakingBreaks(s, a, b);
      StepsWithoutOutcomeAreOrderly(Apply(s, a), actions, t);
    }
  }

  /** Attempt 1 belongs to process 1; a second Begin, by process 2, has found neither a receipt nor a failure. */
  const FirstBegin := [List(0, 7, 1), Make(0), WriteIntent(0)]
  const SecondLooks := [List(1, 7, 2), ReadIntent(1), CheckReceipt(1, false), CheckFailure(1)]
  const RaceToLook := FirstBegin + SecondLooks

  lemma {:induction false} RaceIsReached(stage: Stage) returns (s: State)
    requires Restartable(stage)
    ensures Leads(Start(stage), RaceToLook, s) && Inv(s) && s.stage == stage
    ensures InPhase(s, 1, Unfailed) && s.begins[1].previous == 1 && 1 in s.dirs
    ensures s.dirs[1] == Attempt(Nothing.(intent := Some(Intent(7, 1))), None) && OwnedAndLive(s, 1)
  {
    hide Inv, Leads;
    StartIsSound(stage);
    var first := RaceToMade(stage);
    var second := RaceToRead(first);
    LeadsJoin(Start(stage), FirstBegin, first, SecondLooks, second);
    StepsWithoutOutcomeAreOrderly(Start(stage), RaceToLook, second);
    OrderlyStepsKeep(Start(stage), RaceToLook, second);
    s := second;
  }

  lemma {:induction false} RaceToMade(stage: Stage) returns (s: State)
    ensures Leads(Start(stage), FirstBegin, s)
    ensures s == State(stage, map[1 := Attempt(Nothing.(intent := Some(Intent(7, 1))), None)], {},
                       map[0 := Begin(7, 1, 0, 0, Returned(1, false, true))])
  {
    hide Leads;
    var s0 := Start(stage);
    NoSteps(s0);
    LeadsPush(s0, [], s0, List(0, 7, 1));
    var s1 := Apply(s0, List(0, 7, 1));
    LeadsPush(s0, [] + [List(0, 7, 1)], s1, Make(0));
    var s2 := Apply(s1, Make(0));
    LeadsPush(s0, [] + [List(0, 7, 1)] + [Make(0)], s2, WriteIntent(0));
    s := Apply(s2, WriteIntent(0));
    assert [] + [List(0, 7, 1)] + [Make(0)] + [WriteIntent(0)] == FirstBegin;
  }

  lemma {:induction false} RaceToRead(s: State) returns (t: State)
    requires s.dirs == map[1 := Attempt(Nothing.(intent := Some(Intent(7, 1))), None)] && s.dead == {} && 1 !in s.begins
    ensures Leads(s, SecondLooks, t)
    ensures t == s.(begins := s.begins[1 := Begin(7, 2, 1, 1, Unfailed)])
  {
    hide Leads;
    NoSteps(s);
    LeadsPush(s, [], s, List(1, 7, 2));
    var s1 := Apply(s, List(1, 7, 2));
    assert 1 in s.dirs.Keys && Highest(s.dirs.Keys) == 1;
    LeadsPush(s, [] + [List(1, 7, 2)], s1, ReadIntent(1));
    var s2 := Apply(s1, ReadIntent(1));
    LeadsPush(s, [] + [List(1, 7, 2)] + [ReadIntent(1)], s2, CheckReceipt(1, false));
    var s3 := Apply(s2, CheckReceipt(1, false));
    LeadsPush(s, [] + [List(1, 7, 2)] + [ReadIntent(1)] + [CheckReceipt(1, false)], s3, CheckFailure(1));
    t := Apply(s3, CheckFailure(1));
    assert [] + [List(1, 7, 2)] + [ReadIntent(1)] + [CheckReceipt(1, false)] + [CheckFailure(1)]
           == SecondLooks;
  }

  /** It does happen: from the start of any restartable stage, process 1 finishes (or fails) attempt 1 after the second
      Begin has looked, and a second attempt is made beside the finished (or failed) one. */
  lemma {:induction false} OvertakingHappens(stage: Stage, outcome: Action) returns (actions: seq<Action>, t: State)
    requires Restartable(stage) && (outcome == Finish(1, 7, true) || outcome == Fail(1))
    ensures Leads(Start(stage), actions, t) && RaceToLook + [outcome] <= actions
    ensures forall i :: |RaceToLook| < i < |actions| ==> !actions[i].Finish? && !actions[i].Fail?
    ensures !Safe(t)
  {
    hide Inv, Leads, Safe;
    var s := RaceIsReached(stage);
    LeadsPush(Start(stage), RaceToLook, s, outcome);
    var rest;
    rest, t := OvertakingBreaks(s, outcome, 1);
    LeadsJoin(Start(stage), RaceToLook + [outcome], Apply(s, outcome), rest, t);
    actions := RaceToLook + [outcome] + rest;
  }
}
