/** The commands of a paired-run stage as they run alone, and the names of attempt directories. */
module PairReceipts {
  import opened Options
  import opened Text
  import opened PairStages

  // ----- Directory names

  const Prefix := "attempt-"

  function Padded(s: string): (p: string)
    ensures |p| == if |s| < 4 then 4 else |s|
    decreases 4 - |s|
  {
    if |s| >= 4 then s else Padded("0" + s)
  }

  function DirName(n: nat): string {
    Prefix + Padded(Numeral(n, 10))
  }

  lemma {:induction false} LeadingZero(s: string)
    ensures NumeralValue("0" + s, 10) == NumeralValue(s, 10)
  {
    if s == "" {
      assert "0" == "" + ['0'];
      NumeralValueOfPush("", '0', 10);
    } else {
      var init, last := s[..|s| - 1], s[|s| - 1];
      assert "0" + s == ("0" + init) + [last];
      NumeralValueOfPush("0" + init, last, 10);
      LeadingZero(init);
    }
  }

  lemma {:induction false} PaddedValue(s: string)
    ensures NumeralValue(Padded(s), 10) == NumeralValue(s, 10)
    ensures Decimal(s) ==> Decimal(Padded(s))
    decreases 4 - |s|
  {
    if |s| < 4 {
      LeadingZero(s);
      PaddedValue("0" + s);
    }
  }

  /** An attempt number is read back from its directory name. */
  lemma {:induction false} NameParses(n: nat)
    requires n <= MaxInt
    ensures Prefix <= DirName(n) && Atoi(DirName(n)[|Prefix|..]) == Some(n)
  {
    var digits := Padded(Numeral(n, 10));
    assert DirName(n)[|Prefix|..] == digits;
    NumeralIsDecimal(n);
    PaddedValue(Numeral(n, 10));
    NumeralRoundTrip(n, 10);
    assert '0' <= digits[0] <= '9';
  }

  // ----- Which name comes last

  lemma {:induction false} BeforeByLast(s: string, t: string, a: char, b: char)
    requires |s| == |t|
    ensures TextBefore(s + [a], t + [b]) <==> TextBefore(s, t) || (s == t && a < b)
  {
    if s == "" {
      assert s + [a] == [a] && t + [b] == [b];
    } else {
      assert (s + [a])[1..] == s[1..] + [a] && (t + [b])[1..] == t[1..] + [b];
      assert s == [s[0]] + s[1..] && t == [t[0]] + t[1..];
      BeforeByLast(s[1..], t[1..], a, b);
    }
  }

  lemma {:induction false} DigitValue(c: char)
    requires '0' <= c <= '9'
    ensures CharDigit(c) == (c - '0') as int && 0 <= CharDigit(c) < 10
  {
  }

  /** The last digit splits off: equal or ordered numbers have equal or ordered parts. */
  lemma {:induction false} SplitLast(s: string) returns (init: string, last: char)
    requires s != "" && Decimal(s)
    ensures s == init + [last] && |init| == |s| - 1 && Decimal(init) && '0' <= last <= '9'
    ensures NumeralValue(s, 10) == 10 * NumeralValue(init, 10) + (last - '0') as int
  {
    init, last := s[..|s| - 1], s[|s| - 1];
    NumeralValueOfPush(init, last, 10);
    DigitValue(last);
  }

  lemma {:induction false} NoDigits()
    ensures NumeralValue("", 10) == 0
  {
  }

  /** Numerals of the same width are ordered like their values. */
  lemma {:induction false} WidthOrder(s: string, t: string)
    requires |s| == |t| && Decimal(s) && Decimal(t) && NumeralValue(s, 10) < NumeralValue(t, 10)
    ensures TextBefore(s, t)
    decreases |s|
  {
    hide NumeralValue, Decimal, TextBefore;
    if s == "" {
      NoDigits();
    } else {
      var si, sl := SplitLast(s);
      var ti, tl := SplitLast(t);
      BeforeByLast(si, ti, sl, tl);
      if NumeralValue(si, 10) < NumeralValue(ti, 10) {
        WidthOrder(si, ti);
      } else {
        SameWidthSameValue(si, ti);
      }
    }
  }

  lemma {:induction false} SameWidthSameValue(s: string, t: string)
    requires |s| == |t| && Decimal(s) && Decimal(t) && NumeralValue(s, 10) == NumeralValue(t, 10)
    ensures s == t
    decreases |s|
  {
    hide NumeralValue, Decimal;
    if s != "" {
      var si, sl := SplitLast(s);
      var ti, tl := SplitLast(t);
      SameWidthSameValue(si, ti);
    }
  }

  lemma {:induction false} BeforePrefixed(p: string, s: string, t: string)
    ensures TextBefore(p + s, p + t) <==> TextBefore(s, t)
  {
    if p == "" {
      assert p + s == s && p + t == t;
    } else {
      assert (p + s)[1..] == p[1..] + s && (p + t)[1..] == p[1..] + t;
      BeforePrefixed(p[1..], s, t);
    }
  }

  lemma {:induction false} BeforeExtended(s: string, t: string, u: string)
    requires TextBefore(s, t) && |s| == |t|
    ensures TextBefore(s + u, t)
  {
    if s != "" && s[0] == t[0] {
      assert (s + u)[1..] == s[1..] + u;
      BeforeExtended(s[1..], t[1..], u);
    }
  }

  lemma {:induction false} FourDigits(n: nat)
    requires n <= 9999
    ensures |Padded(Numeral(n, 10))| == 4
  {
    if n >= 1000 {
      assert |Numeral(n, 10)| == 1 + |Numeral(n / 10, 10)|;
      assert |Numeral(n / 10, 10)| == 1 + |Numeral(n / 100, 10)| by { assert n / 10 / 10 == n / 100; }
      assert |Numeral(n / 100, 10)| == 1 + |Numeral(n / 1000, 10)| by { assert n / 100 / 10 == n / 1000; }
    } else {
      UpToThree(n);
    }
  }

  lemma {:induction false} UpToThree(n: nat)
    requires n < 1000
    ensures |Numeral(n, 10)| <= 3
  {
    if n >= 10 {
      assert |Numeral(n, 10)| == 1 + |Numeral(n / 10, 10)|;
    }
  }

  lemma {:induction false} AtLeastFour(n: nat)
    requires n >= 1000
    ensures |Numeral(n, 10)| >= 4
  {
    assert |Numeral(n, 10)| == 1 + |Numeral(n / 10, 10)|;
    assert |Numeral(n / 10, 10)| == 1 + |Numeral(n / 10 / 10, 10)|;
    assert |Numeral(n / 10 / 10, 10)| == 1 + |Numeral(n / 10 / 10 / 10, 10)|;
  }

  lemma {:induction false} NamesInOrder(m: nat, n: nat)
    requires m < n <= 9999
    ensures TextBefore(DirName(m), DirName(n))
  {
    FourDigits(m);
    FourDigits(n);
    NumeralIsDecimal(m);
    NumeralIsDecimal(n);
    PaddedValue(Numeral(m, 10));
    PaddedValue(Numeral(n, 10));
    NumeralRoundTrip(m, 10);
    NumeralRoundTrip(n, 10);
    WidthOrder(Padded(Numeral(m, 10)), Padded(Numeral(n, 10)));
    BeforePrefixed(Prefix, Padded(Numeral(m, 10)), Padded(Numeral(n, 10)));
  }

  /** From the ten thousandth attempt on the wider name sorts before a shorter one. */
  lemma {:induction false} WideNameSortsEarly(n: nat)
    requires 10000 <= n < 99990
    ensures TextBefore(DirName(n), DirName(9999))
  {
    var head, tail := Numeral(n / 10, 10), [DigitChar(n % 10)];
    FourDigits(n / 10);
    FourDigits(9999);
    AtLeastFour(n / 10);
    NumeralIsDecimal(n / 10);
    NumeralIsDecimal(9999);
    NumeralRoundTrip(n / 10, 10);
    NumeralRoundTrip(9999, 10);
    PaddedValue(Numeral(9999, 10));
    PaddedValue(head);
    WidthOrder(head, Padded(Numeral(9999, 10)));
    BeforeExtended(head, Padded(Numeral(9999, 10)), tail);
    BeforePrefixed(Prefix, head + tail, Padded(Numeral(9999, 10)));
    assert Padded(Numeral(n, 10)) == head + tail;
  }

  /** A directory listing is sorted by name; this one holds the attempts 1..n. */
  ghost predicate ListsAttempts(names: seq<string>, n: nat) {
    && SortedTexts(names) && n > 0
    && (forall k: nat :: 1 <= k <= n ==> DirName(k) in names)
    && (forall name :: name in names ==> exists k: nat :: 1 <= k <= n && name == DirName(k))
  }

  /** latestPairStage takes the last name: the newest attempt exactly up to attempt 9999 (until names of 99990
      and more). */
  lemma {:induction false} LastNameIsNewest(names: seq<string>, n: nat)
    requires ListsAttempts(names, n) && n < 99990
    ensures names != [] && (names[|names| - 1] == DirName(n) <==> n <= 9999)
  {
    hide TextBefore, DirName;
    assert DirName(n) in names;
    var last := names[|names| - 1];
    var i :| 0 <= i < |names| && names[i] == DirName(n);
    assert last in names;
    var k: nat :| 1 <= k <= n && last == DirName(k);
    if n <= 9999 {
      if k < n {
        NamesInOrder(k, n);
      }
    } else {
      WideNameSortsEarly(n);
      var j :| 0 <= j < |names| && names[j] == DirName(9999);
      TextBeforeIsAsymmetric(DirName(n), DirName(9999));
    }
  }

  // ----- Scanning the stage directory

  datatype Entry = Entry(name: string, isDir: bool)

  function AttemptNumber(e: Entry): Option<int> {
    if !e.isDir || !(Prefix <= e.name) then None else Atoi(e.name[|Prefix|..])
  }

  predicate IsAttempt(e: Entry) {
    AttemptNumber(e).Some? && AttemptNumber(e).value >= 1
  }

  ghost predicate Lists(entries: seq<Entry>, dirs: map<nat, Attempt>) {
    && (forall n :: n in dirs ==> 1 <= n <= MaxInt && Entry(DirName(n), true) in entries)
    && (forall e :: e in entries ==> exists n :: n in dirs && e == Entry(DirName(n), true))
  }

  /** The highest attempt number in a directory of attempts only. */
  method ScanAttempts(entries: seq<Entry>) returns (ok: bool, previous: nat)
    ensures ok <==> forall e :: e in entries ==> IsAttempt(e)
    ensures ok ==> forall e :: e in entries ==> AttemptNumber(e).value <= previous
    ensures ok && previous > 0 ==> exists e :: e in entries && AttemptNumber(e) == Some(previous)
    ensures ok && previous == 0 ==> entries == []
  {
    previous := 0;
    for i := 0 to |entries|
      invariant forall k :: 0 <= k < i ==> IsAttempt(entries[k]) && AttemptNumber(entries[k]).value <= previous
      invariant previous > 0 ==> exists k :: 0 <= k < i && AttemptNumber(entries[k]) == Some(previous)
      invariant previous == 0 ==> i == 0
    {
      if !IsAttempt(entries[i]) {
        assert entries[i] in entries;
        return false, 0;
      }
      var n := AttemptNumber(entries[i]).value;
      if n > previous {
        previous := n;
      }
    }
    ok := true;
  }

  lemma {:induction false} ScanFindsHighest(entries: seq<Entry>, dirs: map<nat, Attempt>, previous: nat)
    requires Lists(entries, dirs)
    requires (forall e :: e in entries ==> IsAttempt(e)) ==>
               && (forall e :: e in entries ==> AttemptNumber(e).value <= previous)
               && (previous > 0 ==> exists e :: e in entries && AttemptNumber(e) == Some(previous))
               && (previous == 0 ==> entries == [])
    ensures forall e :: e in entries ==> IsAttempt(e)
    ensures previous == Highest(dirs.Keys) && forall n :: n in dirs ==> n > 0
  {
    hide DirName, Atoi;
    forall n | n in dirs
      ensures AttemptNumber(Entry(DirName(n), true)) == Some(n)
    {
      NameParses(n);
    }
    assert forall e :: e in entries ==> IsAttempt(e);
    var top := Highest(dirs.Keys);
    if top > 0 {
      assert Entry(DirName(top), true) in entries;
    }
    if previous > 0 {
      var e :| e in entries && AttemptNumber(e) == Some(previous);
      var n :| n in dirs && e == Entry(DirName(n), true);
    }
  }

  // ----- Where a Begin stands

  ghost predicate At(t: State, stage: Stage, dead: set<Process>, dirs: map<nat, Attempt>, b: nat, begin: Begin) {
    t.stage == stage && t.dead == dead && t.dirs == dirs && b in t.begins && t.begins[b] == begin
  }

  lemma {:induction false} IntentStep(t: State, b: nat, begin: Begin)
    requires At(t, t.stage, t.dead, t.dirs, b, begin) && begin.phase == Listed && begin.previous in t.dirs
    ensures Enabled(t, ReadIntent(b))
    ensures var intent := t.dirs[begin.previous].artifacts.intent;
            At(Apply(t, ReadIntent(b)), t.stage, t.dead, t.dirs, b,
               if intent.None? || intent.value.config != begin.config then begin.(phase := Refused)
               else begin.(process := intent.value.process, phase := Named))
  {
  }

  lemma {:induction false} ReceiptStep(t: State, b: nat, begin: Begin, valid: bool)
    requires At(t, t.stage, t.dead, t.dirs, b, begin) && begin.phase == Named && begin.previous in t.dirs
    ensures Enabled(t, CheckReceipt(b, valid))
    ensures var attempt := t.dirs[begin.previous];
            At(Apply(t, CheckReceipt(b, valid)), t.stage, t.dead, t.dirs, b,
               begin.(phase := if attempt.receipt.None? then Unreceipted
                               else if valid
                                   && Verifies(begin.config, attempt) then Returned(begin.previous, true, false)
                                     else Refused))
  {
  }

  lemma {:induction false} FailureStep(t: State, b: nat, begin: Begin)
    requires At(t, t.stage, t.dead, t.dirs, b, begin) && begin.phase == Unreceipted && begin.previous in t.dirs
    ensures Enabled(t, CheckFailure(b))
    ensures At(Apply(t, CheckFailure(b)), t.stage, t.dead, t.dirs, b,
               begin.(phase := if t.dirs[begin.previous].artifacts.failed then Refused else Unfailed))
  {
  }

  lemma {:induction false} OwnerStep(t: State, b: nat, begin: Begin)
    requires At(t, t.stage, t.dead, t.dirs, b, begin) && begin.phase == Unfailed
    ensures Enabled(t, CheckOwner(b))
    ensures At(Apply(t, CheckOwner(b)), t.stage, t.dead, t.dirs, b,
               begin.(phase := if begin.process in t.dead then OwnerGone else Refused))
  {
  }

  lemma {:induction false} NativeStep(t: State, b: nat, begin: Begin)
    requires At(t, t.stage, t.dead, t.dirs, b, begin) && begin.phase == OwnerGone && begin.previous in t.dirs
    ensures Enabled(t, CheckNative(b))
    ensures var native := t.dirs[begin.previous].artifacts.native;
            At(Apply(t, CheckNative(b)), t.stage, t.dead, t.dirs, b,
               begin.(phase := if native.Some? && native.value !in t.dead then Refused else NativeGone))
  {
  }

  lemma {:induction false} CompleteStep(t: State, b: nat, begin: Begin, valid: bool)
    requires At(t, t.stage, t.dead, t.dirs, b, begin) && begin.phase == NativeGone && begin.previous in t.dirs
             && !Restartable(t.stage)
    ensures Enabled(t, Complete(b, valid))
    ensures var (done, attempt) := Finished(begin.config, valid, t.dirs[begin.previous]);
            At(Apply(t, Complete(b, valid)), t.stage, t.dead, t.dirs[begin.previous := attempt], b,
               begin.(phase := if done then Returned(begin.previous, true, false) else Refused))
  {
  }

  lemma {:induction false} MarkStep(t: State, b: nat, begin: Begin)
    requires At(t, t.stage, t.dead, t.dirs, b, begin) && begin.phase == NativeGone && begin.previous in t.dirs
             && Restartable(t.stage)
    ensures Enabled(t, MarkInterrupted(b))
    ensures var attempt := t.dirs[begin.previous];
            At(Apply(t, MarkInterrupted(b)), t.stage, t.dead,
               t.dirs[begin.previous := attempt.(artifacts := attempt.artifacts.(interrupted := true))], b,
                   begin.(phase := Ready))
  {
  }

  // ----- What an outcome means for later commands

  /** PairFailure: an attempt with an intent is marked failed. */
  function MarkedFailed(a: Attempt): (bool, Attempt) {
    if a.artifacts.intent.None? then (false, a) else (true, a.(artifacts := a.artifacts.(failed := true)))
  }

  /** A receipt written by Finish verifies exactly while configuration and artifacts are those it was written for. */
  lemma {:induction false} FinishThenVerify(config: nat, valid: bool, a: Attempt, later: nat, b: Attempt)
    requires a.receipt.None? && Finished(config, valid, a).0 && b.receipt == Finished(config, valid, a).1.receipt
    ensures Verifies(later, b) <==> later == config && b.artifacts == a.artifacts
  {
  }

  /** Finish succeeds exactly on valid outputs of a proven attempt, or of one of this configuration with
      neither outcome, and leaves a receipt that verifies; finishing again, with any configuration and any answer
      about the outputs, changes nothing and succeeds for exactly that configuration and valid outputs. A refused
      Finish changes nothing. */
  lemma {:induction false} FinishIsOnce(config: nat, valid: bool, a: Attempt, later: nat, stillValid: bool)
    ensures var (ok, b) := Finished(config, valid, a);
            && (ok <==> valid && (Proven(a, config)
                                  || (a.receipt.None? && !a.artifacts.failed && a.artifacts.intent.Some?
                                      && a.artifacts.intent.value.config == config)))
            && (ok ==> && Proven(b, config) && Verifies(config, b) && b.artifacts == a.artifacts
                       && Finished(later, stillValid, b) == (later == config && stillValid, b))
            && (!ok ==> b == a)
  {
  }

  /** After a failure no Finish ever succeeds or writes a receipt, and the receipt there may have been no
      longer verifies. */
  lemma {:induction false} FailureIsFinal(a: Attempt, config: nat, valid: bool)
    requires a.receipt.Some? ==> !a.receipt.value.artifacts.failed
    requires MarkedFailed(a).0
    ensures var b := MarkedFailed(a).1;
            && b.artifacts.failed && b.receipt == a.receipt && b.artifacts.intent == a.artifacts.intent
            && Finished(config, valid, b) == (false, b) && !Verifies(config, b)
            && MarkedFailed(b) == (true, b)
  {
  }

  // ----- What a Begin does with the newest attempt

  /** The attempt belongs to this configuration and has a receipt over exactly its artifacts. */
  predicate Proven(a: Attempt, config: nat) {
    && a.artifacts.intent.Some? && a.artifacts.intent.value.config == config
    && a.receipt.Some? && a.receipt.value.intent.config == config && a.receipt.value.artifacts == a.artifacts
  }

  /** The attempt belongs to this configuration, has no outcome, and its processes are gone. */
  predicate Stopped(a: Attempt, config: nat, dead: set<Process>) {
    && a.artifacts.intent.Some? && a.artifacts.intent.value.config == config
    && a.receipt.None? && !a.artifacts.failed && a.artifacts.intent.value.process in dead
    && (a.artifacts.native.Some? ==> a.artifacts.native.value in dead)
  }

  /** A proven attempt with valid outputs is reused. A stopped one is marked interrupted and followed by
      a new attempt, or in capture and score finished if its outputs are valid. Anything else is refused and
      changes nothing. */
  predicate BeginsOn(before: map<nat, Attempt>, n: nat, config: nat, owner: Process, valid: bool, stage: Stage,
                     dead: set<Process>, result: Phase, after: map<nat, Attempt>)
    requires n in before
  {
    var a := before[n];
    if Proven(a, config) && valid then result == Returned(n, true, false) && after == before
    else if Stopped(a, config, dead) && stage != Capture && stage != Score then
      && result == Returned(n + 1, false, false)
      && after == before[n := a.(artifacts := a.artifacts.(interrupted := true))]
                        [n + 1 := Attempt(Artifacts(Some(Intent(config, owner)), false, false, None, map[]), None)]
    else if Stopped(a, config, dead) && valid then
      && result == Returned(n, true, false)
      && after == before[n := a.(receipt := Some(Receipt(a.artifacts.intent.value, a.artifacts)))]
    else result == Refused && after == before
  }

  lemma {:induction false} ProvenExactly(a: Attempt, config: nat)
    ensures Proven(a, config) <==>
              a.artifacts.intent.Some? && a.artifacts.intent.value.config == config && Verifies(config, a)
  {
  }

  lemma {:induction false} StoppedFinishes(a: Attempt, config: nat, dead: set<Process>, valid: bool)
    requires Stopped(a, config, dead)
    ensures Finished(config, valid, a) ==
            (valid, if valid then a.(receipt := Some(Receipt(a.artifacts.intent.value, a.artifacts))) else a)
  {
  }

  lemma {:induction false} OnlyHighest(dirs: map<nat, Attempt>)
    ensures forall n :: n in dirs && (forall k :: k in dirs ==> k <= n) ==> n == Highest(dirs.Keys)
    ensures dirs == map[] ==> Highest(dirs.Keys) == 0
  {
    var top := Highest(dirs.Keys);
    assert top == 0 || top in dirs.Keys;
  }

  // ----- The commands

  class StageStore {
    const stage: Stage
    var dirs: map<nat, Attempt>
    const dead: set<Process>
    ghost var begins: map<nat, Begin>

    constructor (s: State)
      ensures Snapshot() == s
    {
      stage, dirs, dead, begins := s.stage, s.dirs, s.dead, s.begins;
    }

    ghost function Snapshot(): State
      reads this
    {
      State(stage, dirs, dead, begins)
    }

    /** VerifyPairStage. */
    method Verify(n: nat, config: nat, valid: bool) returns (ok: bool)
      requires n in dirs
      ensures ok <==> valid && Verifies(config, dirs[n])
    {
      var attempt := dirs[n];
      if attempt.receipt.None? || attempt.receipt.value.intent.config != config
          || attempt.receipt.value.artifacts != attempt.artifacts {
        return false;
      }
      return valid;
    }

    /** FinishPairStage: a receipt is written once, for an attempt with valid outputs and no failure. */
    method Finish(n: nat, config: nat, valid: bool) returns (ok: bool)
      requires n in dirs
      modifies this`dirs
      ensures dirs == old(dirs)[n := Finished(config, valid, old(dirs)[n]).1]
      ensures ok == Finished(config, valid, old(dirs)[n]).0
    {
      var x := dirs[n].artifacts;
      ok := false;
      if x.intent.Some? && x.intent.value.config == config {
        if dirs[n].receipt.Some? {
          ok := Verify(n, config, valid);
        } else if !x.failed && valid {
          ok := true;
          dirs := dirs[n := dirs[n].(receipt := Some(Receipt(x.intent.value, x)))];
        }
      }
    }

    /** PairFailure. */
    method Fail(n: nat) returns (ok: bool)
      requires n in dirs
      modifies this`dirs
      ensures dirs == old(dirs)[n := MarkedFailed(old(dirs)[n]).1]
      ensures ok == MarkedFailed(old(dirs)[n]).0
    {
      ok := dirs[n].artifacts.intent.Some?;
      if ok {
        dirs := dirs[n := dirs[n].(artifacts := dirs[n].artifacts.(failed := true))];
      }
    }

    /** The attempt was marked interrupted and a new one is to follow, or the Begin is over. */
    ghost predicate Inspected(before: map<nat, Attempt>, n: nat, config: nat, owner: Process, valid: bool,
                              result: Phase)
      requires n in before
      reads this
    {
      var a := before[n];
      if result == Ready then
        && Stopped(a, config, dead) && stage != Capture && stage != Score
        && dirs == before[n := a.(artifacts := a.artifacts.(interrupted := true))]
      else
        && !(Stopped(a, config, dead) && stage != Capture && stage != Score)
        && BeginsOn(before, n, config, owner, valid, stage, dead, result, dirs)
    }

    /** BeginPairStage run alone: what it returns and leaves behind, by what it finds; and it is one run of the steps,
        from listing the directory to its result. */
    method Begin(entries: seq<Entry>, config: nat, owner: Process, valid: bool, ghost b: nat)
      returns (result: Phase, ghost actions: seq<Action>)
      requires (forall e :: e in entries ==> IsAttempt(e)) ==> Lists(entries, dirs)
      requires b !in begins && owner !in dead
      modifies this`dirs, this`begins
      ensures (exists e :: e in entries && !IsAttempt(e)) ==> result == Refused && dirs == old(dirs)
      ensures (forall e :: e in entries ==> IsAttempt(e)) && old(dirs) == map[] ==>
                && result == Returned(1, false, true)
                && dirs == map[1 := Attempt(Artifacts(Some(Intent(config, owner)), false, false, None, map[]), None)]
      ensures (forall e :: e in entries ==> IsAttempt(e)) ==>
                forall n :: n in old(dirs) && (forall k :: k in old(dirs) ==> k <= n) ==>
                  BeginsOn(old(dirs), n, config, owner, valid, stage, dead, result, dirs)
      ensures Leads(old(Snapshot()), actions, Snapshot())
      ensures InPhase(Snapshot(), b, result) && (result.Returned? || result.Refused?)
      ensures forall i :: 0 <= i < |actions| ==> !actions[i].Finish? && !actions[i].Fail? && !actions[i].Die?
    {
      hide Leads, Lists, IsAttempt, BeginsOn;
      ghost var s := Snapshot();
      var ok, previous := ScanAttempts(entries);
      NoSteps(s);
      LeadsPush(s, [], s, List(b, config, owner));
      ghost var t := Apply(s, List(b, config, owner));
      actions := [] + [List(b, config, owner)];
      if !ok {
        LeadsPush(s, actions, t, Abandon(b));
        actions, t := actions + [Abandon(b)], Apply(t, Abandon(b));
        begins := t.begins;
        return Refused, actions;
      }
      ScanFindsHighest(entries, dirs, previous);
      OnlyHighest(dirs);
      ghost var more;
      result, more := BeginListed(config, owner, valid, b, previous, t);
      LeadsJoin(s, actions, t, more, Snapshot());
      actions := actions + more;
    }

    /** What follows the listing: the checks of the newest attempt, if there is one, then a new attempt. */
    method BeginListed(config: nat, owner: Process, valid: bool, ghost b: nat, previous: nat, ghost s: State)
      returns (result: Phase, ghost actions: seq<Action>)
      requires s.stage == stage && s.dead == dead && s.dirs == dirs && previous == Highest(dirs.Keys)
      requires b in s.begins && s.begins[b] == PairStages.Begin(config, owner, previous, 0, Listed)
      modifies this`dirs, this`begins
      ensures Leads(s, actions, Snapshot())
      ensures InPhase(Snapshot(), b, result) && (result.Returned? || result.Refused?)
      ensures previous == 0 ==>
                && result == Returned(1, false, true)
                && dirs == old(dirs)[1 :=
                     Attempt(Artifacts(Some(Intent(config, owner)), false, false, None, map[]), None)]
      ensures previous > 0 ==> BeginsOn(old(dirs), previous, config, owner, valid, stage, dead, result, dirs)
      ensures forall i :: 0 <= i < |actions| ==> !actions[i].Finish? && !actions[i].Fail? && !actions[i].Die?
    {
      hide Leads;
      NoSteps(s);
      ghost var t := s;
      actions := [];
      if previous > 0 {
        ghost var u;
        result, actions, u := Inspect(config, valid, b, previous, s);
        if result != Ready {
          begins := u.begins;
          return;
        }
        t := u;
      }
      ghost var last, v;
      result, last, v := MakeAttempt(config, owner, b, previous, t);
      LeadsJoin(s, actions, t, last, v);
      actions := actions + last;
      begins := v.begins;
    }

    /** The checks of the newest attempt: it is returned, refused, or marked interrupted. */
    method Inspect(config: nat, valid: bool, ghost b: nat, previous: nat, ghost s: State)
      returns (result: Phase, ghost actions: seq<Action>, ghost t: State)
      requires s.stage == stage && s.dead == dead && s.dirs == dirs && previous in dirs
      requires InPhase(s, b, Listed) && s.begins[b].previous == previous && s.begins[b].config == config
      modifies this`dirs
      ensures Leads(s, actions, t) && t.stage == stage && t.dead == dead && t.dirs == dirs
              && dirs.Keys == old(dirs).Keys
      ensures InPhase(t, b, result) && t.begins[b].previous == previous
      ensures t.begins[b].config == s.begins[b].config && t.begins[b].owner == s.begins[b].owner
      ensures result.Returned? || result.Refused? || result == Ready
      ensures Inspected(old(dirs), previous, config, s.begins[b].owner, valid, result)
      ensures forall i :: 0 <= i < |actions| ==> !actions[i].Finish? && !actions[i].Fail? && !actions[i].Die?
    {
      hide Leads, Finished, Verifies, Enabled, Apply;
      ghost var begin := s.begins[b];
      ghost var s1;
      NoSteps(s);
      IntentStep(s, b, begin);
      LeadsPush(s, [], s, ReadIntent(b));
      actions, t := [] + [ReadIntent(b)], Apply(s, ReadIntent(b));
      var attempt := dirs[previous];
      var intent := attempt.artifacts.intent;
      if intent.None? || intent.value.config != config {
        return Refused, actions, t;
      }
      begin := begin.(process := intent.value.process, phase := Named);
      ReceiptStep(t, b, begin, valid);
      LeadsPush(s, actions, t, CheckReceipt(b, valid));
      actions, t := actions + [CheckReceipt(b, valid)], Apply(t, CheckReceipt(b, valid));
      ProvenExactly(attempt, config);
      if attempt.receipt.Some? {
        var same := Verify(previous, config, valid);
        return if same then Returned(previous, true, false) else Refused, actions, t;
      }
      begin := begin.(phase := Unreceipted);
      FailureStep(t, b, begin);
      LeadsPush(s, actions, t, CheckFailure(b));
      actions, t := actions + [CheckFailure(b)], Apply(t, CheckFailure(b));
      if attempt.artifacts.failed {
        return Refused, actions, t;
      }
      s1 := t;
      ghost var more;
      result, more, t := TakeOver(config, valid, b, previous, t);
      LeadsJoin(s, actions, s1, more, t);
      actions := actions + more;
    }

    /** The newest attempt has no outcome: unless one of its processes may live, it is
        completed or marked interrupted. */
    method TakeOver(config: nat, valid: bool, ghost b: nat, previous: nat, ghost s: State)
      returns (result: Phase, ghost actions: seq<Action>, ghost t: State)
      requires s.stage == stage && s.dead == dead && s.dirs == dirs && previous in dirs
      requires InPhase(s, b, Unfailed) && s.begins[b].previous == previous && s.begins[b].config == config
      requires dirs[previous].receipt.None? && !dirs[previous].artifacts.failed
      requires dirs[previous].artifacts.intent == Some(Intent(config, s.begins[b].process))
      modifies this`dirs
      ensures Leads(s, actions, t) && t.stage == stage && t.dead == dead && t.dirs == dirs
              && dirs.Keys == old(dirs).Keys
      ensures InPhase(t, b, result) && t.begins[b].previous == previous
      ensures t.begins[b].config == s.begins[b].config && t.begins[b].owner == s.begins[b].owner
      ensures result.Returned? || result.Refused? || result == Ready
      ensures Inspected(old(dirs), previous, config, s.begins[b].owner, valid, result)
      ensures forall i :: 0 <= i < |actions| ==> !actions[i].Finish? && !actions[i].Fail? && !actions[i].Die?
    {
      hide Leads, Finished, Verifies, Enabled, Apply;
      ghost var begin := s.begins[b];
      var attempt := dirs[previous];
      var intent := attempt.artifacts.intent;
      ghost var before := dirs;
      assert before[previous := attempt] == before;
      NoSteps(s);
      OwnerStep(s, b, begin);
      LeadsPush(s, [], s, CheckOwner(b));
      actions, t := [] + [CheckOwner(b)], Apply(s, CheckOwner(b));
      if intent.value.process !in dead {
        return Refused, actions, t;
      }
      begin := begin.(phase := OwnerGone);
      NativeStep(t, b, begin);
      LeadsPush(s, actions, t, CheckNative(b));
      actions, t := actions + [CheckNative(b)], Apply(t, CheckNative(b));
      var native := attempt.artifacts.native;
      if native.Some? && native.value !in dead {
        return Refused, actions, t;
      }
      begin := begin.(phase := NativeGone);
      if stage == Capture || stage == Score {
        CompleteStep(t, b, begin, valid);
        StoppedFinishes(attempt, config, dead, valid);
        LeadsPush(s, actions, t, Complete(b, valid));
        actions, t := actions + [Complete(b, valid)], Apply(t, Complete(b, valid));
        var done := Finish(previous, config, valid);
        return if done then Returned(previous, true, false) else Refused, actions, t;
      }
      MarkStep(t, b, begin);
      LeadsPush(s, actions, t, MarkInterrupted(b));
      actions, t := actions + [MarkInterrupted(b)], Apply(t, MarkInterrupted(b));
      dirs := dirs[previous := attempt.(artifacts := attempt.artifacts.(interrupted := true))];
      result := Ready;
    }

    /** os.Mkdir of the next directory, then its intent. */
    method MakeAttempt(config: nat, owner: Process, ghost b: nat, previous: nat, ghost s: State)
      returns (result: Phase, ghost actions: seq<Action>, ghost t: State)
      requires s.stage == stage && s.dead == dead && s.dirs == dirs && b in s.begins
      requires InPhase(s, b, Ready) || (InPhase(s, b, Listed) && previous == 0)
      requires s.begins[b].previous == previous && s.begins[b].config == config && s.begins[b].owner == owner
      modifies this`dirs
      ensures Leads(s, actions, t) && t.stage == stage && t.dead == dead && t.dirs == dirs
      ensures InPhase(t, b, result) && (result.Returned? || result.Refused?)
      ensures previous + 1 in old(dirs) ==> result == Refused && dirs == old(dirs)
      ensures previous + 1 !in old(dirs) ==>
                && result == Returned(previous + 1, false, previous == 0)
                && dirs == old(dirs)[previous + 1 :=
                     Attempt(Artifacts(Some(Intent(config, owner)), false, false, None, map[]), None)]
      ensures forall i :: 0 <= i < |actions| ==> !actions[i].Finish? && !actions[i].Fail? && !actions[i].Die?
    {
      hide Leads;
      NoSteps(s);
      LeadsPush(s, [], s, Make(b));
      actions, t := [] + [Make(b)], Apply(s, Make(b));
      var n := previous + 1;
      if n in dirs {
        return Refused, actions, t;
      }
      dirs := dirs[n := Attempt(Nothing, None)];
      LeadsPush(s, actions, t, WriteIntent(b));
      actions, t := actions + [WriteIntent(b)], Apply(t, WriteIntent(b));
      dirs := dirs[n := Attempt(Nothing.(intent := Some(Intent(config, owner))), None)];
      result := Returned(n, false, previous == 0);
    }
  }
}
