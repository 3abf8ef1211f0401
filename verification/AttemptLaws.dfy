/** Laws of the attempt measurement: its bounds, its independence of order, and its splitting by window. */
module AttemptLaws {
  import opened Text
  import opened Sums
  import opened AttemptMeasurement
  import D = Distinct

  // ----- Covered time, attempt time and overlap

  function DepthSum(ivs: seq<Interval>, lo: int, hi: int): int
    decreases if lo < hi then hi - lo else 0
  {
    if lo >= hi then 0 else DepthSum(ivs, lo, hi - 1) + Depth(ivs, hi - 1)
  }

  ghost predicate Within(ivs: seq<Interval>, lo: int, hi: int) {
    lo <= hi && forall i :: 0 <= i < |ivs| ==> lo <= ivs[i].from <= ivs[i].to <= hi
  }

  lemma {:induction false} DepthSumPush(ivs: seq<Interval>, iv: Interval, lo: int, hi: int)
    requires lo <= iv.from <= iv.to && lo <= hi
    ensures DepthSum(ivs + [iv], lo, hi) == DepthSum(ivs, lo, hi)
              + if hi <= iv.from then 0 else (if hi < iv.to then hi else iv.to) - iv.from
    decreases hi - lo
  {
    if lo < hi {
      DepthSumPush(ivs, iv, lo, hi - 1);
      SumOfPush(ivs, iv, Covers(hi - 1));
    }
  }

  /** The attempt time is the depth summed over all instants. */
  lemma {:induction false} AttemptTimeIsDepthSum(ivs: seq<Interval>, lo: int, hi: int)
    requires Within(ivs, lo, hi)
    ensures SumOf(ivs, LengthOf) == DepthSum(ivs, lo, hi)
  {
    if ivs == [] {
      NoDepth(lo, hi);
    } else {
      var init, last := ivs[..|ivs| - 1], ivs[|ivs| - 1];
      assert ivs == init + [last];
      AttemptTimeIsDepthSum(init, lo, hi);
      DepthSumPush(init, last, lo, hi);
      SumOfPush(init, last, LengthOf);
    }
  }

  lemma {:induction false} NoDepth(lo: int, hi: int)
    ensures DepthSum([], lo, hi) == 0
    decreases if lo < hi then hi - lo else 0
  {
    if lo < hi {
      NoDepth(lo, hi - 1);
    }
  }

  function CoveredIn(ivs: seq<Interval>, lo: int, hi: int): set<int> {
    set t | t in Union(ivs) && lo <= t < hi
  }

  lemma {:induction false} OneMore(m: int, n: int)
    ensures m * (n + 1) == m * n + m
  {
  }

  lemma {:induction false} DepthSumBounds(ivs: seq<Interval>, lo: int, hi: int, m: int)
    requires lo <= hi && forall t :: Depth(ivs, t) <= m
    ensures |CoveredIn(ivs, lo, hi)| <= DepthSum(ivs, lo, hi) <= m * |CoveredIn(ivs, lo, hi)|
    decreases hi - lo
  {
    hide Union, InSome, Depth;
    if lo < hi {
      DepthSumBounds(ivs, lo, hi - 1, m);
      DepthBounds(ivs, hi - 1);
      var smaller := CoveredIn(ivs, lo, hi - 1);
      if hi - 1 in Union(ivs) {
        assert CoveredIn(ivs, lo, hi) == smaller + {hi - 1};
        OneMore(m, |smaller|);
      } else {
        assert CoveredIn(ivs, lo, hi) == smaller;
      }
    } else {
      assert CoveredIn(ivs, lo, hi) == {};
    }
  }

  lemma {:induction false} BoundsWithin(ivs: seq<Interval>, lo: int, hi: int, m: int)
    requires Within(ivs, lo, hi) && forall t :: Depth(ivs, t) <= m
    ensures |Union(ivs)| <= hi - lo
    ensures |Union(ivs)| <= SumOf(ivs, LengthOf) <= m * |Union(ivs)|
  {
    hide Depth, DepthSum, SumOf;
    AttemptTimeIsDepthSum(ivs, lo, hi);
    DepthSumBounds(ivs, lo, hi, m);
    assert CoveredIn(ivs, lo, hi) == Union(ivs);
    assert Union(ivs) <= Ticks(lo, hi);
    D.SubsetSize(Union(ivs), Ticks(lo, hi));
  }

  lemma {:induction false} SpanEnds(ivs: seq<Interval>, span: int) returns (lo: int, hi: int)
    requires Proper(ivs) && IsSpan(ivs, span)
    ensures Within(ivs, lo, hi) && hi - lo == span
  {
    if ivs == [] {
      lo, hi := 0, 0;
    } else {
      var i, j :| 0 <= i < |ivs| && 0 <= j < |ivs| && span == ivs[j].to - ivs[i].from
        && forall k :: 0 <= k < |ivs| ==> ivs[i].from <= ivs[k].from && ivs[k].to <= ivs[j].to;
      lo, hi := ivs[i].from, ivs[j].to;
      assert ivs[i].from <= ivs[i].to <= ivs[j].to;
    }
  }

  /** covered <= span and covered <= attempt time <= maximum overlap * covered. */
  lemma {:induction false} MeasuredBounds(attempts: seq<Attempt>, r: Measurement)
    requires Measures(attempts, r) && r.available
    ensures 0 <= r.covered <= r.span
    ensures r.covered <= r.attemptTime <= r.maximumOverlap * r.covered
  {
    hide Depth, SumOf, Union, LengthOf, IsSpan, Within, Proper;
    var ivs := IntervalsOf(attempts);
    var lo, hi := SpanEnds(ivs, r.span);
    BoundsWithin(ivs, lo, hi, r.maximumOverlap);
  }

  // ----- Sums over intervals as sums over receipts

  function OnInterval(f: Interval -> int): Attempt -> int {
    (a: Attempt) => if ValidInterval(a) then f(Interval(a.admitted.tick, a.reconciled.tick)) else 0
  }

  lemma {:induction false} IntervalSum(attempts: seq<Attempt>, f: Interval -> int)
    requires IntervalsAvailable(attempts)
    ensures SumOf(IntervalsOf(attempts), f) == SumOf(attempts, OnInterval(f))
  {
    if attempts != [] {
      IntervalSum(attempts[1..], f);
      assert IntervalsOf(attempts)[1..] == IntervalsOf(attempts[1..]);
    }
  }

  lemma {:induction false} SameMembers<T>(a: seq<T>, b: seq<T>)
    requires multiset(a) == multiset(b)
    ensures |a| == |b| && forall x :: x in a <==> x in b
  {
    assert |a| == |multiset(a)| && |b| == |multiset(b)|;
    assert forall x :: (x in a <==> x in multiset(a)) && (x in b <==> x in multiset(b));
  }

  lemma {:induction false} MaximumDepthIsUnique(a: seq<Interval>, b: seq<Interval>, m: int, n: int)
    requires IsMaximumDepth(a, m) && IsMaximumDepth(b, n)
    requires forall t :: Depth(a, t) == Depth(b, t)
    ensures m == n
  {
    var t :| Depth(a, t) == m;
    var u :| Depth(b, u) == n;
    assert Depth(b, t) <= n && Depth(a, u) <= m;
  }

  lemma {:induction false} SpanEndsOf(ivs: seq<Interval>, span: int) returns (i: nat, j: nat)
    requires IsSpan(ivs, span) && ivs != []
    ensures i < |ivs| && j < |ivs| && span == ivs[j].to - ivs[i].from
    ensures forall k :: 0 <= k < |ivs| ==> ivs[i].from <= ivs[k].from && ivs[k].to <= ivs[j].to
  {
    i, j :| 0 <= i < |ivs| && 0 <= j < |ivs| && span == ivs[j].to - ivs[i].from
      && forall k :: 0 <= k < |ivs| ==> ivs[i].from <= ivs[k].from && ivs[k].to <= ivs[j].to;
  }

  lemma {:induction false} WithinEnds(a: seq<Interval>, from: int, to: int, iv: Interval)
    requires (forall k :: 0 <= k < |a| ==> from <= a[k].from && a[k].to <= to) && iv in a
    ensures from <= iv.from && iv.to <= to
  {
  }

  lemma {:induction false} SpanIsUnique(a: seq<Interval>, b: seq<Interval>, m: int, n: int)
    requires IsSpan(a, m) && IsSpan(b, n) && |a| == |b| && forall iv :: iv in a <==> iv in b
    ensures m == n
  {
    hide IsSpan;
    if a == [] {
      NoSpanIsZero(a, m);
      NoSpanIsZero(b, n);
    } else {
      var i, j := SpanEndsOf(a, m);
      var p, q := SpanEndsOf(b, n);
      WithinEnds(a, a[i].from, a[j].to, b[p]);
      WithinEnds(a, a[i].from, a[j].to, b[q]);
      WithinEnds(b, b[p].from, b[q].to, a[i]);
      WithinEnds(b, b[p].from, b[q].to, a[j]);
    }
  }

  lemma {:induction false} NoSpanIsZero(a: seq<Interval>, m: int)
    requires a == [] && IsSpan(a, m)
    ensures m == 0
  {
  }

  /** Every measured number is the same whatever the order of the receipts and the fall of sort ties. */
  lemma {:induction false} OrderDoesNotMatter(a: seq<Attempt>, b: seq<Attempt>, r: Measurement, s: Measurement)
    requires multiset(a) == multiset(b) && Measures(a, r) && Measures(b, s)
    ensures r == s
  {
    CountsDoNotDependOnOrder(a, b, r, s);
    SameMembers(a, b);
    assert IntervalsAvailable(a) <==> IntervalsAvailable(b) by {
      AvailableByMembers(a);
      AvailableByMembers(b);
    }
    if r.available {
      IntervalsDoNotDependOnOrder(a, b, r, s);
    }
  }

  lemma {:induction false} CountsDoNotDependOnOrder(a: seq<Attempt>, b: seq<Attempt>, r: Measurement, s: Measurement)
    requires multiset(a) == multiset(b) && Measures(a, r) && Measures(b, s)
    ensures r.unfinished == s.unfinished && r.invalid == s.invalid && r.known == s.known && r.unknown == s.unknown
    ensures r.partial == s.partial && r.input == s.input && r.output == s.output && r.total == s.total
    ensures r.outcomes == s.outcomes
  {
    hide MeasuresIntervals;
    SumOfPermutation(a, b, UnfinishedOf);
    SumOfPermutation(a, b, InvalidOf);
    SumOfPermutation(a, b, KnownOf);
    SumOfPermutation(a, b, UnknownOf);
    SumOfPermutation(a, b, PartialOf);
    SumOfPermutation(a, b, InputOf);
    SumOfPermutation(a, b, OutputOf);
    SumOfPermutation(a, b, TotalOf);
    forall o
      ensures r.outcomes[o] == s.outcomes[o]
    {
      SumOfPermutation(a, b, OutcomeIs(o));
    }
  }

  lemma {:induction false} AvailableByMembers(a: seq<Attempt>)
    ensures IntervalsAvailable(a) <==> forall x :: x in a ==> x.terminal && ValidInterval(x)
  {
  }

  lemma {:induction false} IntervalsDoNotDependOnOrder(a: seq<Attempt>, b: seq<Attempt>, r: Measurement, s: Measurement)
    requires multiset(a) == multiset(b) && IntervalsAvailable(a) && IntervalsAvailable(b)
    requires MeasuresIntervals(IntervalsOf(a), r) && MeasuresIntervals(IntervalsOf(b), s)
    ensures r.maximumOverlap == s.maximumOverlap && r.covered == s.covered && r.attemptTime == s.attemptTime
            && r.span == s.span
  {
    hide IsMaximumDepth, IsSpan, Union, Depth;
    var x, y := IntervalsOf(a), IntervalsOf(b);
    forall t
      ensures Depth(x, t) == Depth(y, t)
    {
      SameDepth(a, b, t);
    }
    assert Union(x) == Union(y) by {
      forall t
        ensures t in Union(x) <==> t in Union(y)
      {
        SameDepth(a, b, t);
        DepthBounds(x, t);
        DepthBounds(y, t);
      }
    }
    MaximumDepthIsUnique(x, y, r.maximumOverlap, s.maximumOverlap);
    IntervalSum(a, LengthOf);
    IntervalSum(b, LengthOf);
    SumOfPermutation(a, b, OnInterval(LengthOf));
    SameMembers(a, b);
    IntervalMembers(a);
    IntervalMembers(b);
    SpanIsUnique(x, y, r.span, s.span);
  }

  lemma {:induction false} SameDepth(a: seq<Attempt>, b: seq<Attempt>, t: int)
    requires multiset(a) == multiset(b) && IntervalsAvailable(a) && IntervalsAvailable(b)
    ensures Depth(IntervalsOf(a), t) == Depth(IntervalsOf(b), t)
  {
    IntervalSum(a, Covers(t));
    IntervalSum(b, Covers(t));
    SumOfPermutation(a, b, OnInterval(Covers(t)));
  }

  lemma {:induction false} IntervalMembers(a: seq<Attempt>)
    requires IntervalsAvailable(a)
    ensures forall iv :: iv in IntervalsOf(a) <==>
              exists x :: x in a && ValidInterval(x) && iv == Interval(x.admitted.tick, x.reconciled.tick)
  {
    var ivs := IntervalsOf(a);
    forall x | x in a
      ensures ValidInterval(x) && Interval(x.admitted.tick, x.reconciled.tick) in ivs
    {
      var i :| 0 <= i < |a| && a[i] == x;
      assert ivs[i] in ivs;
    }
  }

  // ----- Windows

  function OfWindow(attempts: seq<Attempt>, w: string): seq<Attempt> {
    if attempts == [] then [] else
    OfWindow(attempts[..|attempts| - 1], w) + if attempts[|attempts| - 1].window == w then [attempts[|attempts| - 1]]
        else []
  }

  function WindowsOf(attempts: seq<Attempt>): set<string> {
    set a | a in attempts :: a.window
  }

  ghost predicate IsSplit(attempts: seq<Attempt>, windows: map<string, seq<Attempt>>) {
    && windows.Keys == WindowsOf(attempts)
    && (forall w :: w in windows ==> windows[w] == OfWindow(attempts, w))
  }

  lemma {:induction false} NothingSplit()
    ensures IsSplit([], map[])
  {
  }

  lemma {:induction false} OfWindowPush(attempts: seq<Attempt>, a: Attempt, w: string)
    ensures OfWindow(attempts + [a], w) == OfWindow(attempts, w) + if a.window == w then [a] else []
  {
    assert (attempts + [a])[..|attempts|] == attempts;
  }

  lemma {:induction false} SplitPush(past: seq<Attempt>, windows: map<string, seq<Attempt>>, a: Attempt)
    requires IsSplit(past, windows)
    ensures IsSplit(past + [a], windows[a.window := (if a.window in windows then windows[a.window] else []) + [a]])
  {
    hide OfWindow;
    var next := past + [a];
    assert WindowsOf(next) == WindowsOf(past) + {a.window};
    forall w
      ensures OfWindow(next, w) == OfWindow(past, w) + if a.window == w then [a] else []
      ensures w !in windows ==> OfWindow(past, w) == []
    {
      OfWindowPush(past, a, w);
      if w !in windows {
        EmptyWindow(past, w);
      }
    }
  }

  /** The window grouping loop of readPairReport. */
  method SplitByWindow(attempts: seq<Attempt>) returns (windows: map<string, seq<Attempt>>)
    ensures IsSplit(attempts, windows)
  {
    hide IsSplit;
    windows := map[];
    NothingSplit();
    for i := 0 to |attempts|
      invariant IsSplit(attempts[..i], windows)
    {
      var a := attempts[i];
      SplitPush(attempts[..i], windows, a);
      assert attempts[..i + 1] == attempts[..i] + [a];
      windows := windows[a.window := (if a.window in windows then windows[a.window] else []) + [a]];
    }
    assert attempts[..|attempts|] == attempts;
  }

  lemma {:induction false} EmptyWindow(attempts: seq<Attempt>, w: string)
    requires forall a :: a in attempts ==> a.window != w
    ensures OfWindow(attempts, w) == []
  {
    if attempts != [] {
      EmptyWindow(attempts[..|attempts| - 1], w);
    }
  }

  function WindowSum(attempts: seq<Attempt>, f: Attempt -> int): string -> int {
    (w: string) => SumOf(OfWindow(attempts, w), f)
  }

  function OneWindow(a: Attempt, f: Attempt -> int): string -> int {
    (w: string) => if w == a.window then f(a) else 0
  }

  lemma {:induction false} WindowSumPush(attempts: seq<Attempt>, a: Attempt, w: string, f: Attempt -> int)
    ensures WindowSum(attempts + [a], f)(w) == WindowSum(attempts, f)(w) + OneWindow(a, f)(w)
  {
    assert (attempts + [a])[..|attempts|] == attempts;
    if w == a.window {
      SumOfPush(OfWindow(attempts, w), a, f);
    } else {
      assert OfWindow(attempts + [a], w) == OfWindow(attempts, w);
    }
  }

  /** Every count and token total is conserved: the windows' sums add up to the whole's. */
  lemma {:induction false} WindowsConserve(attempts: seq<Attempt>, windows: seq<string>, f: Attempt -> int)
    requires D.NoRepeats(windows) && forall a :: a in attempts ==> a.window in windows
    ensures SumOf(windows, WindowSum(attempts, f)) == SumOf(attempts, f)
  {
    if attempts == [] {
      SumOfZero(windows, WindowSum(attempts, f));
    } else {
      var init, last := attempts[..|attempts| - 1], attempts[|attempts| - 1];
      assert attempts == init + [last];
      WindowsConserve(init, windows, f);
      SumOfPush(init, last, f);
      var extra := OneWindow(last, f);
      forall i | 0 <= i < |windows|
        ensures WindowSum(attempts, f)(windows[i]) == WindowSum(init, f)(windows[i]) + extra(windows[i])
      {
        WindowSumPush(init, last, windows[i], f);
      }
      SumOfAdd(windows, WindowSum(init, f), extra, WindowSum(attempts, f));
      OnlyOneWindow(windows, last.window, extra);
    }
  }

  lemma {:induction false} OnlyOneWindow(windows: seq<string>, w: string, f: string -> int)
    requires D.NoRepeats(windows) && w in windows && forall v :: v != w ==> f(v) == 0
    ensures SumOf(windows, f) == f(w)
  {
    if windows[0] == w {
      SumOfZero(windows[1..], f);
    } else {
      OnlyOneWindow(windows[1..], w, f);
    }
  }

  lemma {:induction false} WindowMembers(attempts: seq<Attempt>, w: string)
    ensures forall a :: a in OfWindow(attempts, w) <==> a in attempts && a.window == w
  {
    if attempts != [] {
      WindowMembers(attempts[..|attempts| - 1], w);
      assert attempts == attempts[..|attempts| - 1] + [attempts[|attempts| - 1]];
    }
  }

  /** A window measures without error whenever the whole does. */
  lemma {:induction false} WindowReceiptsValid(attempts: seq<Attempt>, w: string)
    requires ValidReceipts(attempts)
    ensures ValidReceipts(OfWindow(attempts, w))
    ensures KeysOf(OfWindow(attempts, w)) <= KeysOf(attempts)
  {
    if attempts != [] {
      var init, last := attempts[..|attempts| - 1], attempts[|attempts| - 1];
      assert attempts == init + [last];
      ReceiptsPush(init, last);
      WindowReceiptsValid(init, w);
      ReceiptsPush(OfWindow(init, w), last);
    }
  }

  /** The whole is interval-available exactly when every window is. */
  lemma {:induction false} WindowsAvailable(attempts: seq<Attempt>)
    ensures IntervalsAvailable(attempts) <==>
              forall a :: a in attempts ==> IntervalsAvailable(OfWindow(attempts, a.window))
  {
    AvailableByMembers(attempts);
    forall w
      ensures IntervalsAvailable(OfWindow(attempts, w)) <==>
                forall a :: a in attempts && a.window == w ==> a.terminal && ValidInterval(a)
    {
      AvailableByMembers(OfWindow(attempts, w));
      WindowMembers(attempts, w);
    }
  }

  lemma {:induction false} DepthOfWindows(attempts: seq<Attempt>, windows: seq<string>, t: int)
    requires D.NoRepeats(windows) && IntervalsAvailable(attempts)
    requires forall a :: a in attempts ==> a.window in windows
    ensures forall w :: IntervalsAvailable(OfWindow(attempts, w))
    ensures forall w :: Depth(IntervalsOf(OfWindow(attempts, w)), t) == WindowSum(attempts, OnInterval(Covers(t)))(w)
    ensures Depth(IntervalsOf(attempts), t) == SumOf(windows, WindowSum(attempts, OnInterval(Covers(t))))
  {
    forall w
      ensures IntervalsAvailable(OfWindow(attempts, w))
    {
      WindowMembers(attempts, w);
      AvailableByMembers(OfWindow(attempts, w));
      AvailableByMembers(attempts);
    }
    forall w
      ensures Depth(IntervalsOf(OfWindow(attempts, w)), t) == WindowSum(attempts, OnInterval(Covers(t)))(w)
    {
      IntervalSum(OfWindow(attempts, w), Covers(t));
    }
    IntervalSum(attempts, Covers(t));
    WindowsConserve(attempts, windows, OnInterval(Covers(t)));
  }

  /** Largest window overlap <= whole overlap <= sum of the window overlaps. */
  lemma {:induction false} WindowOverlapBounds(attempts: seq<Attempt>, windows: seq<string>, whole: int,
                                               overlap: string -> int)
    requires D.NoRepeats(windows) && IntervalsAvailable(attempts)
    requires forall a :: a in attempts ==> a.window in windows
    requires forall w :: w in windows ==> IntervalsAvailable(OfWindow(attempts, w))
    requires IsMaximumDepth(IntervalsOf(attempts), whole)
    requires forall w :: w in windows ==> IsMaximumDepth(IntervalsOf(OfWindow(attempts, w)), overlap(w))
    ensures forall w :: w in windows ==> overlap(w) <= whole
    ensures whole <= SumOf(windows, overlap)
  {
    forall w | w in windows
      ensures overlap(w) <= whole
    {
      var t :| Depth(IntervalsOf(OfWindow(attempts, w)), t) == overlap(w);
      DepthOfWindows(attempts, windows, t);
      var i :| 0 <= i < |windows| && windows[i] == w;
      forall v
        ensures WindowSum(attempts, OnInterval(Covers(t)))(v) >= 0
      {
        DepthBounds(IntervalsOf(OfWindow(attempts, v)), t);
      }
      SumOfNonNegative(windows, WindowSum(attempts, OnInterval(Covers(t))), i);
      assert Depth(IntervalsOf(attempts), t) <= whole;
    }
    var t :| Depth(IntervalsOf(attempts), t) == whole;
    DepthOfWindows(attempts, windows, t);
    forall i | 0 <= i < |windows|
      ensures WindowSum(attempts, OnInterval(Covers(t)))(windows[i]) <= overlap(windows[i])
    {
      assert IsMaximumDepth(IntervalsOf(OfWindow(attempts, windows[i])), overlap(windows[i]));
      assert Depth(IntervalsOf(OfWindow(attempts, windows[i])), t) <= overlap(windows[i]);
    }
    SumOfMonotone(windows, WindowSum(attempts, OnInterval(Covers(t))), overlap);
  }

  // ----- What is counted, and which receipts are the same

  lemma {:induction false} UnfinishedCount(attempts: seq<Attempt>)
    ensures SumOf(attempts, UnfinishedOf) == |set i | 0 <= i < |attempts| && !attempts[i].terminal|
  {
    SumCounts(attempts, UnfinishedOf, set i | 0 <= i < |attempts| && !attempts[i].terminal);
  }

  lemma {:induction false} InvalidCount(attempts: seq<Attempt>)
    ensures SumOf(attempts, InvalidOf) ==
            |set i | 0 <= i < |attempts| && attempts[i].terminal
                     && (attempts[i].admitted.Zero? || attempts[i].reconciled.Zero?
                         || attempts[i].reconciled.tick < attempts[i].admitted.tick)|
  {
    SumCounts(attempts, InvalidOf,
              set i | 0 <= i < |attempts| && attempts[i].terminal
                      && (attempts[i].admitted.Zero? || attempts[i].reconciled.Zero?
                          || attempts[i].reconciled.tick < attempts[i].admitted.tick));
  }

  lemma {:induction false} UnknownCount(attempts: seq<Attempt>)
    ensures SumOf(attempts, UnknownOf) ==
            |set i | 0 <= i < |attempts| && attempts[i].terminal && !attempts[i].usageAvailable|
  {
    SumCounts(attempts, UnknownOf, set i | 0 <= i < |attempts| && attempts[i].terminal && !attempts[i].usageAvailable);
  }

  lemma {:induction false} PartialCount(attempts: seq<Attempt>)
    ensures SumOf(attempts, PartialOf) ==
            |set i | 0 <= i < |attempts| && attempts[i].terminal && attempts[i].usageAvailable
                     && (attempts[i].input == 0 || attempts[i].output == 0)|
  {
    SumCounts(attempts, PartialOf,
              set i | 0 <= i < |attempts| && attempts[i].terminal && attempts[i].usageAvailable
                      && (attempts[i].input == 0 || attempts[i].output == 0));
  }

  lemma {:induction false} KnownCount(attempts: seq<Attempt>)
    requires ValidReceipts(attempts)
    ensures SumOf(attempts, KnownOf) ==
            |set i | 0 <= i < |attempts| && attempts[i].terminal && attempts[i].usageAvailable
                     && attempts[i].input != 0 && attempts[i].output != 0|
  {
    SumCounts(attempts, KnownOf,
              set i | 0 <= i < |attempts| && attempts[i].terminal && attempts[i].usageAvailable
                      && attempts[i].input != 0 && attempts[i].output != 0);
  }

  lemma {:induction false} OutcomeCount(attempts: seq<Attempt>, outcome: string)
    ensures SumOf(attempts, OutcomeIs(outcome)) == |set i | 0 <= i < |attempts| && attempts[i].outcome == outcome|
  {
    SumCounts(attempts, OutcomeIs(outcome), set i | 0 <= i < |attempts| && attempts[i].outcome == outcome);
  }

  lemma {:induction false} TotalsExactly(attempts: seq<Attempt>)
    ensures SumOf(attempts, InputOf) == SumOf(attempts, (a: Attempt) => a.input)
    ensures SumOf(attempts, OutputOf) == SumOf(attempts, (a: Attempt) => a.output)
    ensures SumOf(attempts, TotalOf) == SumOf(attempts, (a: Attempt) => a.total)
  {
    if attempts != [] {
      TotalsExactly(attempts[1..]);
    }
  }

  /** Each count is the number of receipts of its kind; intervals are available when none is unfinished or invalid. */
  lemma {:induction false} CountsExactly(attempts: seq<Attempt>, r: Measurement)
    requires ValidReceipts(attempts) && Measures(attempts, r)
    ensures r.unfinished == |set i | 0 <= i < |attempts| && !attempts[i].terminal|
    ensures r.unknown == |set i | 0 <= i < |attempts| && attempts[i].terminal && !attempts[i].usageAvailable|
    ensures r.partial == |set i | 0 <= i < |attempts| && attempts[i].terminal && attempts[i].usageAvailable
                                  && (attempts[i].input == 0 || attempts[i].output == 0)|
    ensures r.known == |set i | 0 <= i < |attempts| && attempts[i].terminal && attempts[i].usageAvailable
                                && attempts[i].input != 0 && attempts[i].output != 0|
    ensures r.invalid == |set i | 0 <= i < |attempts| && attempts[i].terminal
                                  && (attempts[i].admitted.Zero? || attempts[i].reconciled.Zero?
                                      || attempts[i].reconciled.tick < attempts[i].admitted.tick)|
    ensures r.input == SumOf(attempts, (a: Attempt) => a.input) && r.output == SumOf(attempts, (a: Attempt) => a.output)
    ensures r.total == SumOf(attempts, (a: Attempt) => a.total)
    ensures forall o :: r.outcomes[o] == |set i | 0 <= i < |attempts| && attempts[i].outcome == o|
    ensures r.available <==> r.unfinished == 0 && r.invalid == 0
  {
    hide SumOf, MeasuresIntervals, ValidReceipts, IntervalsAvailable, OutcomeIs;
    UnfinishedCount(attempts);
    InvalidCount(attempts);
    UnknownCount(attempts);
    PartialCount(attempts);
    KnownCount(attempts);
    TotalsExactly(attempts);
    AvailableExact(attempts);
    forall o
      ensures r.outcomes[o] == |set i | 0 <= i < |attempts| && attempts[i].outcome == o|
    {
      OutcomeCount(attempts, o);
    }
  }

  predicate PlainText(s: string) {
    '/' !in s
  }

  lemma {:induction false} LastSlash(a: string, x: string, b: string, y: string)
    requires PlainText(x) && PlainText(y) && a + "/" + x == b + "/" + y
    ensures a == b && x == y
  {
    var s, t := a + "/" + x, b + "/" + y;
    assert s[|a|] == '/' && t[|b|] == '/';
    assert forall i :: |a| < i < |s| ==> s[i] == x[i - |a| - 1];
    assert forall i :: |b| < i < |t| ==> t[i] == y[i - |b| - 1];
    assert |a| == |b|;
    assert a == s[..|a|] && b == t[..|a|] && x == s[|a| + 1..] && y == t[|b| + 1..];
  }

  lemma {:induction false} DecimalIsPlain(n: int)
    ensures PlainText(AttemptMeasurement.Decimal(n))
  {
    NumeralIsDecimal(if n < 0 then -n else n);
  }

  lemma {:induction false} SignShows(n: int)
    ensures AttemptMeasurement.Decimal(n) != "" && (AttemptMeasurement.Decimal(n)[0] == '-' <==> n < 0)
  {
    NumeralIsDecimal(if n < 0 then -n else n);
  }

  lemma {:induction false} DecimalInjective(m: int, n: int)
    requires AttemptMeasurement.Decimal(m) == AttemptMeasurement.Decimal(n)
    ensures m == n
  {
    SignShows(m);
    SignShows(n);
    NumeralIsDecimal(if m < 0 then -m else m);
    NumeralIsDecimal(if n < 0 then -n else n);
    if m < 0 && n < 0 {
      assert Numeral(-m, 10) == AttemptMeasurement.Decimal(m)[1..]
             && Numeral(-n, 10) == AttemptMeasurement.Decimal(n)[1..];
      NumeralInjective(-m, -n, 10);
    } else if m >= 0 && n >= 0 {
      NumeralInjective(m, n, 10);
    }
  }

  /** For identities without a slash, two receipts have the same key exactly when they are of the same attempt. */
  lemma {:induction false} KeysIdentify(a: Attempt, b: Attempt)
    requires PlainText(a.team) && PlainText(a.space) && PlainText(a.operation) && PlainText(a.assessment)
    requires PlainText(b.team) && PlainText(b.space) && PlainText(b.operation) && PlainText(b.assessment)
    ensures Key(a) == Key(b) <==>
              && a.team == b.team && a.space == b.space && a.generation == b.generation
              && a.operation == b.operation && a.assessment == b.assessment && a.number == b.number
  {
    if Key(a) == Key(b) {
      var g, h := AttemptMeasurement.Decimal(a.generation), AttemptMeasurement.Decimal(b.generation);
      var k, l := AttemptMeasurement.Decimal(a.number), AttemptMeasurement.Decimal(b.number);
      DecimalIsPlain(a.generation);
      DecimalIsPlain(b.generation);
      DecimalIsPlain(a.number);
      DecimalIsPlain(b.number);
      var (a2, b2) := (a.team + "/" + a.space, b.team + "/" + b.space);
      var (a3, b3) := (a2 + "/" + g, b2 + "/" + h);
      var (a4, b4) := (a3 + "/" + a.operation, b3 + "/" + b.operation);
      var (a5, b5) := (a4 + "/" + a.assessment, b4 + "/" + b.assessment);
      LastSlash(a5, k, b5, l);
      LastSlash(a4, a.assessment, b4, b.assessment);
      LastSlash(a3, a.operation, b3, b.operation);
      LastSlash(a2, g, b2, h);
      LastSlash(a.team, a.space, b.team, b.space);
      DecimalInjective(a.generation, b.generation);
      DecimalInjective(a.number, b.number);
    }
  }
}
