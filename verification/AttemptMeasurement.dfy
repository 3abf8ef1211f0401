/** MeasurePairAttempts: usage counts and a sweep line over admission-to-reconciliation intervals. Time is
    an integer. */
module AttemptMeasurement {
  import opened Text
  import opened Sums

  datatype Time = Zero | At(tick: int)

  datatype Attempt = Attempt(team: string, space: string, generation: int, window: string, operation: string,
                             assessment: string, number: int, admitted: Time, reconciled: Time, terminal: bool,
                             usageAvailable: bool, input: int, output: int, total: int, outcome: string)

  datatype Measurement = Measurement(attempts: int, unfinished: int, known: int, unknown: int, partial: int,
                                     input: int, output: int, total: int, outcomes: multiset<string>,
                                     available: bool, invalid: int,
                                     maximumOverlap: int, covered: int, attemptTime: int, span: int)

  datatype Interval = Interval(from: int, to: int)
  datatype Event = Event(at: int, delta: int)

  // ----- Receipts

  function Decimal(n: int): string {
    if n < 0 then "-" + Numeral(-n, 10) else Numeral(n, 10)
  }

  function Key(a: Attempt): string {
    a.team + "/" + a.space + "/" + Decimal(a.generation) + "/" + a.operation + "/" + a.assessment + "/"
        + Decimal(a.number)
  }

  predicate ValidReceipt(a: Attempt) {
    && a.team != "" && a.space != "" && a.generation >= 1 && a.operation != "" && a.assessment != "" && a.number >= 1
    && a.input >= 0 && a.output >= 0 && a.total >= 0
    && (a.usageAvailable <==> a.input > 0 || a.output > 0 || a.total > 0)
  }

  ghost predicate ValidReceipts(attempts: seq<Attempt>) {
    && (forall i :: 0 <= i < |attempts| ==> ValidReceipt(attempts[i]))
    && (forall i, j :: 0 <= i < j < |attempts| ==> Key(attempts[i]) != Key(attempts[j]))
  }

  predicate ValidInterval(a: Attempt) {
    a.admitted.At? && a.reconciled.At? && a.admitted.tick <= a.reconciled.tick
  }

  function Bit(b: bool): int {
    if b then 1 else 0
  }

  function UnfinishedOf(a: Attempt): int { Bit(!a.terminal) }
  function UnknownOf(a: Attempt): int { Bit(a.terminal && !a.usageAvailable) }
  function PartialOf(a: Attempt): int { Bit(a.terminal && a.usageAvailable && (a.input == 0 || a.output == 0)) }
  function KnownOf(a: Attempt): int { Bit(a.terminal && a.input > 0 && a.output > 0) }
  function InvalidOf(a: Attempt): int { Bit(a.terminal && !ValidInterval(a)) }
  function InputOf(a: Attempt): int { a.input }
  function OutputOf(a: Attempt): int { a.output }
  function TotalOf(a: Attempt): int { a.total }
  function OutcomeIs(outcome: string): Attempt -> int { (a: Attempt) => Bit(a.outcome == outcome) }

  ghost predicate IntervalsAvailable(attempts: seq<Attempt>) {
    forall i :: 0 <= i < |attempts| ==> attempts[i].terminal && ValidInterval(attempts[i])
  }

  // ----- Intervals

  function IntervalsOf(attempts: seq<Attempt>): (ivs: seq<Interval>)
    requires IntervalsAvailable(attempts)
    ensures |ivs| == |attempts| && Proper(ivs)
    ensures forall i :: 0 <= i < |ivs| ==> ivs[i] == Interval(attempts[i].admitted.tick, attempts[i].reconciled.tick)
  {
    seq(|attempts|, i requires 0 <= i < |attempts| => Interval(attempts[i].admitted.tick, attempts[i].reconciled.tick))
  }

  predicate Proper(ivs: seq<Interval>) {
    forall i :: 0 <= i < |ivs| ==> ivs[i].from <= ivs[i].to
  }

  function Covers(t: int): Interval -> int {
    (iv: Interval) => Bit(iv.from <= t < iv.to)
  }

  /** How many of the half-open intervals contain the instant. */
  function Depth(ivs: seq<Interval>, t: int): int {
    SumOf(ivs, Covers(t))
  }

  ghost predicate IsMaximumDepth(ivs: seq<Interval>, m: int) {
    (forall t :: Depth(ivs, t) <= m) && (exists t :: Depth(ivs, t) == m)
  }

  /** The unit ticks of [from, to). */
  function Ticks(from: int, to: int): (ticks: set<int>)
    ensures forall t :: t in ticks <==> from <= t < to
    ensures |ticks| == if from <= to then to - from else 0
    decreases if from < to then to - from else 0
  {
    if from >= to then {} else Ticks(from, to - 1) + {to - 1}
  }

  predicate InSome(ivs: seq<Interval>, t: int) {
    exists i :: 0 <= i < |ivs| && ivs[i].from <= t < ivs[i].to
  }

  /** The union of the intervals, as the set of unit ticks [t, t + 1) inside some interval. */
  function Union(ivs: seq<Interval>): (ticks: set<int>)
    ensures forall t :: t in ticks <==> InSome(ivs, t)
  {
    if ivs == [] then {} else
    var init, last := ivs[..|ivs| - 1], ivs[|ivs| - 1];
    assert ivs == init + [last];
    assert forall t :: InSome(ivs, t) <==> InSome(init, t) || last.from <= t < last.to by {
      assert forall i :: 0 <= i < |init| ==> ivs[i] == init[i];
    }
    Union(init) + Ticks(last.from, last.to)
  }

  function LengthOf(iv: Interval): int {
    iv.to - iv.from
  }

  /** From the earliest start to the latest end. */
  ghost predicate IsSpan(ivs: seq<Interval>, span: int) {
    if ivs == [] then span == 0 else
    exists i, j :: 0 <= i < |ivs| && 0 <= j < |ivs| && span == ivs[j].to - ivs[i].from
      && forall k :: 0 <= k < |ivs| ==> ivs[i].from <= ivs[k].from && ivs[k].to <= ivs[j].to
  }

  /** What the measurement of well-formed receipts must be. */
  ghost predicate Measures(attempts: seq<Attempt>, r: Measurement) {
    && r.attempts == |attempts|
    && r.unfinished == SumOf(attempts, UnfinishedOf) && r.invalid == SumOf(attempts, InvalidOf)
    && r.known == SumOf(attempts, KnownOf) && r.unknown == SumOf(attempts, UnknownOf)
      && r.partial == SumOf(attempts, PartialOf)
    && r.input == SumOf(attempts, InputOf) && r.output == SumOf(attempts, OutputOf)
      && r.total == SumOf(attempts, TotalOf)
    && (forall o :: r.outcomes[o] == SumOf(attempts, OutcomeIs(o)))
    && (r.available <==> IntervalsAvailable(attempts))
    && if r.available then MeasuresIntervals(IntervalsOf(attempts), r)
       else r.maximumOverlap == 0 && r.covered == 0 && r.attemptTime == 0 && r.span == 0
  }

  ghost predicate MeasuresIntervals(ivs: seq<Interval>, r: Measurement) {
    && IsMaximumDepth(ivs, r.maximumOverlap)
    && r.covered == |Union(ivs)|
    && r.attemptTime == SumOf(ivs, LengthOf)
    && IsSpan(ivs, r.span)
  }

  // ----- Events of a set of intervals

  function EventsOf(ivs: seq<Interval>): seq<Event> {
    if ivs == [] then [] else EventsOf(ivs[..|ivs| - 1]) + [Event(ivs[|ivs| - 1].from, 1), Event(ivs[|ivs| - 1].to, -1)]
  }

  function DeltaUpTo(t: int): Event -> int {
    (e: Event) => if e.at <= t then e.delta else 0
  }

  function Active(events: seq<Event>, t: int): int {
    SumOf(events, DeltaUpTo(t))
  }

  /** Starts up to an instant minus ends up to it are the intervals open there. */
  lemma {:induction false} ActiveIsDepth(ivs: seq<Interval>, t: int)
    requires Proper(ivs)
    ensures Active(EventsOf(ivs), t) == Depth(ivs, t)
  {
    if ivs != [] {
      var init, last := ivs[..|ivs| - 1], ivs[|ivs| - 1];
      assert ivs == init + [last];
      ActiveIsDepth(init, t);
      SumOfPush(init, last, Covers(t));
      SumOfPush(EventsOf(init), Event(last.from, 1), DeltaUpTo(t));
      SumOfPush(EventsOf(init) + [Event(last.from, 1)], Event(last.to, -1), DeltaUpTo(t));
      assert EventsOf(ivs) == EventsOf(init) + [Event(last.from, 1)] + [Event(last.to, -1)];
    }
  }

  predicate Ordered(events: seq<Event>) {
    forall i, j :: 0 <= i <= j < |events| ==> events[i].at <= events[j].at
  }

  function DeltaOf(e: Event): int { e.delta }

  /** Between two events the number of open intervals is the sum of the events before. */
  lemma {:induction false} ActiveOfPrefix(events: seq<Event>, i: nat, t: int)
    requires i <= |events|
    requires forall k :: 0 <= k < i ==> events[k].at <= t
    requires forall k :: i <= k < |events| ==> t < events[k].at
    ensures Active(events, t) == SumOf(events[..i], DeltaOf)
  {
    assert events == events[..i] + events[i..];
    SumOfConcat(events[..i], events[i..], DeltaUpTo(t));
    SumOfZero(events[i..], DeltaUpTo(t));
    SumOfMonotone(events[..i], DeltaUpTo(t), DeltaOf);
    SumOfMonotone(events[..i], DeltaOf, DeltaUpTo(t));
  }

  // ----- Counting covered ticks

  lemma {:induction false} DepthBounds(ivs: seq<Interval>, t: int)
    ensures Depth(ivs, t) >= 0
    ensures Depth(ivs, t) > 0 <==> t in Union(ivs)
  {
    if t in Union(ivs) {
      var i :| 0 <= i < |ivs| && ivs[i].from <= t < ivs[i].to;
      SumOfNonNegative(ivs, Covers(t), i);
    } else {
      SumOfZero(ivs, Covers(t));
    }
  }

  function CoveredBefore(ivs: seq<Interval>, t: int): set<int> {
    set u | u in Union(ivs) && u < t
  }

  /** Sweeping one gap between events. */
  lemma {:induction false} SweepGap(ivs: seq<Interval>, from: int, to: int, active: int)
    requires from <= to && forall t :: from <= t < to ==> Depth(ivs, t) == active
    ensures |CoveredBefore(ivs, to)| == |CoveredBefore(ivs, from)| + if active > 0 then to - from else 0
  {
    hide Depth, Union, InSome;
    forall t
      ensures t in Union(ivs) <==> Depth(ivs, t) > 0
    {
      DepthBounds(ivs, t);
    }
    if active > 0 {
      assert CoveredBefore(ivs, to) == CoveredBefore(ivs, from) + Ticks(from, to);
    } else {
      assert CoveredBefore(ivs, to) == CoveredBefore(ivs, from);
    }
  }

  // ----- The sweep

  lemma {:induction false} InsertKeepsOrder(events: seq<Event>, i: nat, e: Event)
    requires Ordered(events) && i <= |events|
    requires i > 0 ==> events[i - 1].at <= e.at
    requires i < |events| ==> e.at <= events[i].at
    ensures Ordered(events[..i] + [e] + events[i..])
    ensures multiset(events[..i] + [e] + events[i..]) == multiset(events) + multiset{e}
  {
    assert events == events[..i] + events[i..];
  }

  method InsertEvent(events: seq<Event>, e: Event) returns (r: seq<Event>)
    requires Ordered(events)
    ensures Ordered(r) && multiset(r) == multiset(events) + multiset{e}
  {
    var i := |events|;
    while i > 0 && e.at < events[i - 1].at
      invariant 0 <= i <= |events|
      invariant i < |events| ==> e.at < events[i].at
    {
      i := i - 1;
    }
    InsertKeepsOrder(events, i, e);
    r := events[..i] + [e] + events[i..];
  }

  /** sort.Slice by time. Callers know only that the result is some ordering: ties may fall either way. */
  method SortEvents(events: seq<Event>) returns (sorted: seq<Event>)
    ensures Ordered(sorted) && multiset(sorted) == multiset(events)
  {
    sorted := [];
    for i := 0 to |events|
      invariant Ordered(sorted) && multiset(sorted) == multiset(events[..i])
    {
      sorted := InsertEvent(sorted, events[i]);
      assert events[..i + 1] == events[..i] + [events[i]];
    }
    assert events[..|events|] == events;
  }

  lemma {:induction false} DepthFromSortedEvents(ivs: seq<Interval>, events: seq<Event>, t: int)
    requires Proper(ivs) && multiset(events) == multiset(EventsOf(ivs))
    ensures Active(events, t) == Depth(ivs, t)
  {
    SumOfPermutation(events, EventsOf(ivs), DeltaUpTo(t));
    ActiveIsDepth(ivs, t);
  }

  /** Everything up to the last instant swept is accounted for. */
  ghost predicate SweptTo(ivs: seq<Interval>, t: int, active: int, maximum: int, covered: int) {
    && active == Depth(ivs, t)
    && (forall u :: u <= t ==> Depth(ivs, u) <= maximum)
    && (exists u :: Depth(ivs, u) == maximum)
    && covered == |CoveredBefore(ivs, t)|
  }

  /** The depth is the running sum from the last event consumed until the next one. */
  lemma {:induction false} DepthInGap(ivs: seq<Interval>, events: seq<Event>, i: nat, t: int)
    requires Proper(ivs) && multiset(events) == multiset(EventsOf(ivs)) && Ordered(events) && i <= |events|
    requires i > 0 ==> events[i - 1].at <= t
    requires i < |events| ==> t < events[i].at
    ensures Depth(ivs, t) == SumOf(events[..i], DeltaOf)
  {
    DepthFromSortedEvents(ivs, events, t);
    ActiveOfPrefix(events, i, t);
  }

  lemma {:induction false} SweepGroup(ivs: seq<Interval>, events: seq<Event>, i: nat, j: nat, active: int, maximum: int,
                                      covered: int)
    requires Proper(ivs) && multiset(events) == multiset(EventsOf(ivs)) && Ordered(events)
    requires 0 < i < j <= |events| && events[i - 1].at < events[i].at == events[j - 1].at
    requires j < |events| ==> events[j - 1].at < events[j].at
    requires SweptTo(ivs, events[i - 1].at, active, maximum, covered)
    ensures var now := SumOf(events[..j], DeltaOf);
            SweptTo(ivs, events[i].at, now, if maximum < now then now else maximum,
                    covered + if active > 0 then events[i].at - events[i - 1].at else 0)
  {
    hide Depth, Union, CoveredBefore, Proper;
    var from, to := events[i - 1].at, events[i].at;
    DepthInGap(ivs, events, i, from);
    forall t | from <= t < to
      ensures Depth(ivs, t) == active
    {
      DepthInGap(ivs, events, i, t);
    }
    SweepGap(ivs, from, to, active);
    DepthInGap(ivs, events, j, to);
  }

  lemma {:induction false} SweepFirstGroup(ivs: seq<Interval>, events: seq<Event>, j: nat)
    requires Proper(ivs) && multiset(events) == multiset(EventsOf(ivs)) && Ordered(events)
    requires 0 < j <= |events| && events[0].at == events[j - 1].at
    requires j < |events| ==> events[j - 1].at < events[j].at
    ensures var now := SumOf(events[..j], DeltaOf);
            SweptTo(ivs, events[0].at, now, if 0 < now then now else 0, 0)
  {
    hide Depth, Union, Proper;
    var start := events[0].at;
    forall t | t < start
      ensures Depth(ivs, t) == 0
    {
      DepthInGap(ivs, events, 0, t);
      assert events[..0] == [];
    }
    DepthInGap(ivs, events, j, start);
    forall t | t < start
      ensures t !in Union(ivs)
    {
      DepthBounds(ivs, t);
    }
    assert CoveredBefore(ivs, start) == {};
    assert Depth(ivs, start - 1) == 0;
  }

  lemma {:induction false} SweepEnds(ivs: seq<Interval>, events: seq<Event>, active: int, maximum: int, covered: int)
    requires Proper(ivs) && multiset(events) == multiset(EventsOf(ivs)) && Ordered(events) && events != []
    requires SweptTo(ivs, events[|events| - 1].at, active, maximum, covered)
    ensures IsMaximumDepth(ivs, maximum) && covered == |Union(ivs)|
  {
    var last := events[|events| - 1].at;
    DepthInGap(ivs, events, |events|, last);
    forall t | last <= t
      ensures Depth(ivs, t) == active
    {
      DepthInGap(ivs, events, |events|, t);
    }
    ActivePastEverything(ivs, last);
    forall t | last <= t
      ensures t !in Union(ivs)
    {
      DepthBounds(ivs, t);
    }
    assert CoveredBefore(ivs, last) == Union(ivs);
  }

  lemma {:induction false} FarOut(ivs: seq<Interval>, t: int) returns (u: int)
    ensures u >= t && forall i :: 0 <= i < |ivs| ==> ivs[i].to <= u
  {
    u := t;
    if ivs != [] {
      u := FarOut(ivs[..|ivs| - 1], t);
      if u < ivs[|ivs| - 1].to {
        u := ivs[|ivs| - 1].to;
      }
    }
  }

  /** If the depth is constant from an instant on, it is zero there. */
  lemma {:induction false} ActivePastEverything(ivs: seq<Interval>, t: int)
    requires forall u :: t <= u ==> Depth(ivs, u) == Depth(ivs, t)
    ensures Depth(ivs, t) == 0
  {
    var u := FarOut(ivs, t);
    SumOfZero(ivs, Covers(u));
    assert Depth(ivs, u) == Depth(ivs, t);
  }

  /** The sweep over any time order of the events. */
  method Sweep(ghost ivs: seq<Interval>, events: seq<Event>) returns (maximum: int, covered: int, span: int)
    requires Proper(ivs) && multiset(events) == multiset(EventsOf(ivs)) && Ordered(events)
    ensures IsMaximumDepth(ivs, maximum) && covered == |Union(ivs)|
    ensures span == if events == [] then 0 else events[|events| - 1].at - events[0].at
  {
    hide IsMaximumDepth, Union, SweptTo, Proper;
    maximum, covered, span := 0, 0, 0;
    var active := 0;
    var i := 0;
    while i < |events|
      invariant 0 <= i <= |events|
      invariant 0 < i < |events| ==> events[i - 1].at < events[i].at
      invariant i == 0 ==> active == 0 && maximum == 0 && covered == 0
      invariant i > 0 ==> SweptTo(ivs, events[i - 1].at, active, maximum, covered)
      invariant active == SumOf(events[..i], DeltaOf)
    {
      var start, at, delta := i, events[i].at, 0;
      if i > 0 && active > 0 {
        covered := covered + (at - events[i - 1].at);
      }
      while i < |events| && events[i].at == at
        invariant start <= i <= |events|
        invariant i > start ==> events[i - 1].at == at
        invariant i == start ==> i < |events| && events[i].at == at
        invariant active + delta == SumOf(events[..i], DeltaOf)
      {
        assert events[..i + 1] == events[..i] + [events[i]];
        SumOfPush(events[..i], events[i], DeltaOf);
        delta := delta + events[i].delta;
        i := i + 1;
      }
      if start == 0 {
        SweepFirstGroup(ivs, events, i);
      } else {
        SweepGroup(ivs, events, start, i, active, maximum, covered - if active > 0 then at - events[start - 1].at
            else 0);
      }
      active := active + delta;
      maximum := if maximum < active then active else maximum;
    }
    if |events| > 0 {
      SweepEnds(ivs, events, active, maximum, covered);
      span := events[|events| - 1].at - events[0].at;
    } else {
      NoEventsNoIntervals(ivs);
    }
  }

  lemma {:induction false} NoEventsNoIntervals(ivs: seq<Interval>)
    requires multiset(EventsOf(ivs)) == multiset{}
    ensures ivs == [] && IsMaximumDepth(ivs, 0) && |Union(ivs)| == 0
  {
    assert |EventsOf(ivs)| == |multiset(EventsOf(ivs))|;
    assert Depth([], 0) == 0;
  }

  // ----- The whole measurement

  lemma {:induction false} EventsComeFromIntervals(ivs: seq<Interval>)
    ensures forall e :: e in EventsOf(ivs) <==>
              exists i :: 0 <= i < |ivs| && (e == Event(ivs[i].from, 1) || e == Event(ivs[i].to, -1))
  {
    if ivs != [] {
      var init, last := ivs[..|ivs| - 1], ivs[|ivs| - 1];
      EventsComeFromIntervals(init);
      assert forall i :: 0 <= i < |init| ==> ivs[i] == init[i];
      assert ivs[|ivs| - 1] == last;
    }
  }

  lemma {:induction false} SameEvents(ivs: seq<Interval>, events: seq<Event>, e: Event)
    requires multiset(events) == multiset(EventsOf(ivs))
    ensures e in events <==> e in EventsOf(ivs)
  {
    hide EventsOf;
    assert e in events <==> e in multiset(events);
    assert e in EventsOf(ivs) <==> e in multiset(EventsOf(ivs));
  }

  lemma {:induction false} OriginOf(ivs: seq<Interval>, events: seq<Event>, e: Event) returns (i: nat)
    requires multiset(events) == multiset(EventsOf(ivs)) && e in events
    ensures i < |ivs| && (e == Event(ivs[i].from, 1) || e == Event(ivs[i].to, -1))
  {
    SameEvents(ivs, events, e);
    EventsComeFromIntervals(ivs);
    i :| 0 <= i < |ivs| && (e == Event(ivs[i].from, 1) || e == Event(ivs[i].to, -1));
  }

  lemma {:induction false} EndsAreEvents(ivs: seq<Interval>, events: seq<Event>, i: nat)
    requires multiset(events) == multiset(EventsOf(ivs)) && i < |ivs|
    ensures Event(ivs[i].from, 1) in events && Event(ivs[i].to, -1) in events
  {
    SameEvents(ivs, events, Event(ivs[i].from, 1));
    SameEvents(ivs, events, Event(ivs[i].to, -1));
    EventsComeFromIntervals(ivs);
  }

  lemma {:induction false} SpanBetween(ivs: seq<Interval>, i: nat, j: nat, first: int, last: int)
    requires i < |ivs| && j < |ivs| && ivs[i].from == first && ivs[j].to == last
    requires forall k :: 0 <= k < |ivs| ==> first <= ivs[k].from && ivs[k].to <= last
    ensures IsSpan(ivs, last - first)
  {
  }

  lemma {:induction false} SpanOfEvents(ivs: seq<Interval>, events: seq<Event>)
    requires Proper(ivs) && Ordered(events) && multiset(events) == multiset(EventsOf(ivs))
    ensures IsSpan(ivs, if events == [] then 0 else events[|events| - 1].at - events[0].at)
  {
    hide EventsOf, IsSpan;
    if ivs == [] {
      if events != [] {
        var none := OriginOf(ivs, events, events[0]);
      }
      NoSpan();
    } else {
      EndsAreEvents(ivs, events, 0);
      var first, last := events[0], events[|events| - 1];
      var i := OriginOf(ivs, events, first);
      var j := OriginOf(ivs, events, last);
      forall k: nat | k < |ivs|
        ensures first.at <= ivs[k].from && ivs[k].to <= last.at
      {
        EndsAreEvents(ivs, events, k);
      }
      EndsAreEvents(ivs, events, i);
      EndsAreEvents(ivs, events, j);
      SpanBetween(ivs, i, j, first.at, last.at);
    }
  }

  lemma {:induction false} NoSpan()
    ensures IsSpan([], 0)
  {
  }

  const NoMeasurement :=
    Measurement(0, 0, 0, 0, 0, 0, 0, 0, multiset{}, true, 0, 0, 0, 0, 0)

  /** The counters after one more receipt. */
  function Counted(r: Measurement, a: Attempt): Measurement {
    var usage :=
        r.(outcomes := r.outcomes + multiset{a.outcome}, input := r.input + a.input, output := r.output + a.output,
                    total := r.total + a.total);
    if !a.terminal then usage.(unfinished := usage.unfinished + 1) else
    var classified :=
      if !a.usageAvailable then usage.(unknown := usage.unknown + 1)
      else if a.input == 0 || a.output == 0 then usage.(partial := usage.partial + 1)
      else usage.(known := usage.known + 1);
    if !ValidInterval(a) then classified.(invalid := classified.invalid + 1)
    else classified.(attemptTime := classified.attemptTime + (a.reconciled.tick - a.admitted.tick))
  }

  ghost predicate CountsMatch(past: seq<Attempt>, r: Measurement) {
    && r.unfinished == SumOf(past, UnfinishedOf) && r.invalid == SumOf(past, InvalidOf)
    && r.known == SumOf(past, KnownOf) && r.unknown == SumOf(past, UnknownOf) && r.partial == SumOf(past, PartialOf)
    && r.input == SumOf(past, InputOf) && r.output == SumOf(past, OutputOf) && r.total == SumOf(past, TotalOf)
    && (forall o :: r.outcomes[o] == SumOf(past, OutcomeIs(o)))
  }

  lemma {:induction false} CountedMatches(past: seq<Attempt>, r: Measurement, a: Attempt)
    requires CountsMatch(past, r) && ValidReceipt(a)
    ensures CountsMatch(past + [a], Counted(r, a))
  {
    SumOfPush(past, a, UnfinishedOf);
    SumOfPush(past, a, InvalidOf);
    SumOfPush(past, a, KnownOf);
    SumOfPush(past, a, UnknownOf);
    SumOfPush(past, a, PartialOf);
    SumOfPush(past, a, InputOf);
    SumOfPush(past, a, OutputOf);
    SumOfPush(past, a, TotalOf);
    forall o
      ensures Counted(r, a).outcomes[o] == SumOf(past + [a], OutcomeIs(o))
    {
      SumOfPush(past, a, OutcomeIs(o));
    }
  }

  /** Nothing unfinished and nothing invalid means every interval is available. */
  lemma {:induction false} AvailableExact(attempts: seq<Attempt>)
    ensures SumOf(attempts, UnfinishedOf) >= 0 && SumOf(attempts, InvalidOf) >= 0
    ensures IntervalsAvailable(attempts) <==> SumOf(attempts, UnfinishedOf) == 0 && SumOf(attempts, InvalidOf) == 0
  {
    if attempts != [] {
      SumOfNonNegative(attempts, UnfinishedOf, 0);
      SumOfNonNegative(attempts, InvalidOf, 0);
    }
    if IntervalsAvailable(attempts) {
      SumOfZero(attempts, UnfinishedOf);
      SumOfZero(attempts, InvalidOf);
    } else {
      var i :| 0 <= i < |attempts| && !(attempts[i].terminal && ValidInterval(attempts[i]));
      SumOfNonNegative(attempts, UnfinishedOf, i);
      SumOfNonNegative(attempts, InvalidOf, i);
    }
  }

  lemma {:induction false} IntervalsPush(past: seq<Attempt>, a: Attempt)
    requires IntervalsAvailable(past) && a.terminal && ValidInterval(a)
    ensures IntervalsAvailable(past + [a])
    ensures EventsOf(IntervalsOf(past + [a]))
         == EventsOf(IntervalsOf(past)) + [Event(a.admitted.tick, 1), Event(a.reconciled.tick, -1)]
    ensures SumOf(IntervalsOf(past + [a]), LengthOf) ==
            SumOf(IntervalsOf(past), LengthOf) + (a.reconciled.tick - a.admitted.tick)
  {
    var ivs, iv := IntervalsOf(past), Interval(a.admitted.tick, a.reconciled.tick);
    assert IntervalsOf(past + [a]) == ivs + [iv];
    assert (ivs + [iv])[..|ivs + [iv]| - 1] == ivs;
    SumOfPush(ivs, iv, LengthOf);
  }

  ghost predicate EventsMatch(past: seq<Attempt>, r: Measurement, events: seq<Event>) {
    IntervalsAvailable(past) ==>
      events == EventsOf(IntervalsOf(past)) && r.attemptTime == SumOf(IntervalsOf(past), LengthOf)
  }

  lemma {:induction false} CountedEventsMatch(past: seq<Attempt>, r: Measurement, events: seq<Event>, a: Attempt)
    requires EventsMatch(past, r, events)
    ensures EventsMatch(past + [a], Counted(r, a),
                        if a.terminal && ValidInterval(a)
                        then events + [Event(a.admitted.tick, 1), Event(a.reconciled.tick, -1)] else events)
  {
    if IntervalsAvailable(past + [a]) {
      assert (past + [a])[|past|] == a;
      assert forall i :: 0 <= i < |past| ==> (past + [a])[i] == past[i];
      IntervalsPush(past, a);
    }
  }

  function KeysOf(attempts: seq<Attempt>): set<string> {
    set a | a in attempts :: Key(a)
  }

  lemma {:induction false} ReceiptsPush(past: seq<Attempt>, a: Attempt)
    ensures ValidReceipts(past + [a]) <==> ValidReceipts(past) && ValidReceipt(a) && Key(a) !in KeysOf(past)
    ensures KeysOf(past + [a]) == KeysOf(past) + {Key(a)}
  {
    var all := past + [a];
    assert all[|past|] == a && forall i :: 0 <= i < |past| ==> all[i] == past[i];
    if ValidReceipts(past) && ValidReceipt(a) && Key(a) !in KeysOf(past) {
      assert forall i :: 0 <= i < |past| ==> past[i] in past;
    }
    if ValidReceipts(all) {
      forall i | 0 <= i < |past|
        ensures ValidReceipt(past[i]) && Key(past[i]) != Key(a)
      {
        assert all[i] == past[i];
      }
    }
  }

  lemma {:induction false} ReceiptsPrefix(attempts: seq<Attempt>, k: nat)
    requires k <= |attempts| && ValidReceipts(attempts)
    ensures ValidReceipts(attempts[..k])
  {
  }

  method MeasurePairAttempts(attempts: seq<Attempt>) returns (r: Measurement, ok: bool)
    ensures ok <==> ValidReceipts(attempts)
    ensures ok ==> Measures(attempts, r)
  {
    hide Counted, ValidReceipt, ValidReceipts, EventsMatch, CountsMatch, KeysOf, Key;
    r, ok := NoMeasurement.(attempts := |attempts|), true;
    var seen: set<string> := {};
    var events: seq<Event> := [];
    NothingMeasured(r);
    for i := 0 to |attempts|
      invariant ValidReceipts(attempts[..i]) && ok && r.attempts == |attempts| && r.available
      invariant r.maximumOverlap == 0 && r.covered == 0 && r.span == 0
      invariant seen == KeysOf(attempts[..i])
      invariant CountsMatch(attempts[..i], r) && EventsMatch(attempts[..i], r, events)
    {
      var a := attempts[i];
      ReceiptsPush(attempts[..i], a);
      assert attempts[..i + 1] == attempts[..i] + [a];
      if ValidReceipts(attempts) {
        ReceiptsPrefix(attempts, i + 1);
      }
      if !ValidReceipt(a) || Key(a) in seen {
        return r, false;
      }
      CountedMatches(attempts[..i], r, a);
      CountedEventsMatch(attempts[..i], r, events, a);
      CountedKeeps(r, a);
      seen := seen + {Key(a)};
      r := Counted(r, a);
      if a.terminal && ValidInterval(a) {
        events := events + [Event(a.admitted.tick, 1), Event(a.reconciled.tick, -1)];
      }
    }
    assert attempts[..|attempts|] == attempts;
    r := MeasureIntervals(attempts, r, events);
  }

  lemma {:induction false} CountedKeeps(r: Measurement, a: Attempt)
    ensures var c := Counted(r, a);
            c.attempts == r.attempts && c.available == r.available && c.maximumOverlap == r.maximumOverlap
            && c.covered == r.covered && c.span == r.span
  {
  }

  lemma {:induction false} NothingMeasured(r: Measurement)
    requires r == NoMeasurement.(attempts := r.attempts)
    ensures CountsMatch([], r) && EventsMatch([], r, []) && ValidReceipts([]) && KeysOf([]) == {}
  {
  }

  method MeasureIntervals(ghost attempts: seq<Attempt>, counted: Measurement, events: seq<Event>)
    returns (r: Measurement)
    requires CountsMatch(attempts, counted) && EventsMatch(attempts, counted, events)
    requires counted.attempts == |attempts| && counted.available
    requires counted.maximumOverlap == 0 && counted.covered == 0 && counted.span == 0
    ensures Measures(attempts, r)
  {
    r := counted;
    AvailableExact(attempts);
    if r.invalid > 0 || r.unfinished > 0 {
      return r.(available := false, attemptTime := 0);
    }
    ghost var ivs := IntervalsOf(attempts);
    var sorted := SortEvents(events);
    var maximum, covered, span := Sweep(ivs, sorted);
    SpanOfEvents(ivs, sorted);
    r := r.(maximumOverlap := maximum, covered := covered, span := span);
  }
}
