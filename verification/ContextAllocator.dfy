/** The greedy allocator of optional assessor context against two token budgets. Token counting is a parameter. */
module ContextAllocator {
  import opened Options
  import opened Text

  datatype PredicateOption = PredicateOption(key: string, version: int)
  datatype Candidate = Candidate(evidenceId: string, content: string)
  datatype Group = Group(evidenceId: string, candidates: seq<Candidate>)

  datatype Tokens = Tokens(input: int, context: int)

  /** The parts of a request the allocator edits, and the truncation flag it counts with. */
  datatype Payload = Payload(predicates: seq<PredicateOption>, groups: seq<Group>, truncated: bool)

  type Counter = Payload -> Option<Tokens>

  // ----- Limits

  const DefaultMaxInputTokens := 200000
  const DefaultMaxOutputTokens := 65536
  const DefaultMaxCandidateContextTokens := 50000
  const MaxProviderTurns := 3
  const RepairSafetyTokens := 4096

  datatype Limits = Limits(maxInput: int, maxOutput: int, maxContext: int)

  function Normalized(l: Limits): (r: Limits)
    ensures r.maxInput == if l.maxInput > 0 then l.maxInput else 200000
    ensures r.maxOutput == if l.maxOutput > 0 then l.maxOutput else 65536
    ensures r.maxContext == if l.maxContext > 0 then l.maxContext else 50000
  {
    Limits(if l.maxInput <= 0 then DefaultMaxInputTokens else l.maxInput,
           if l.maxOutput <= 0 then DefaultMaxOutputTokens else l.maxOutput,
           if l.maxContext <= 0 then DefaultMaxCandidateContextTokens else l.maxContext)
  }

  function Headroom(limits: Limits): int {
    (MaxProviderTurns - 1) * (Normalized(limits).maxOutput + RepairSafetyTokens)
  }

  function ConversationInputLimit(limits: Limits): int {
    if Headroom(limits) >= Normalized(limits).maxInput then 0 else Normalized(limits).maxInput - Headroom(limits)
  }

  /** The input of each turn: every repair appends one response and one correction instruction. */
  function TurnInput(first: int, repairs: seq<int>, turn: nat): int
    requires turn <= |repairs|
  {
    if turn == 0 then first else TurnInput(first, repairs, turn - 1) + repairs[turn - 1]
  }

  ghost predicate BoundedRepairs(limits: Limits, repairs: seq<int>) {
    |repairs| == MaxProviderTurns - 1
    && forall i :: 0 <= i < |repairs| ==> 0 <= repairs[i] <= Normalized(limits).maxOutput + RepairSafetyTokens
  }

  /** Every turn of every conversation that starts with the given input stays within the input budget. */
  ghost predicate EveryTurnFits(limits: Limits, first: int) {
    forall repairs, turn :: BoundedRepairs(limits, repairs) && 0 <= turn < MaxProviderTurns ==>
      TurnInput(first, repairs, turn) <= Normalized(limits).maxInput
  }

  /** An admitted conversation stays within the input budget on every turn, exactly when the admitted request
      has at least one token or the repair headroom itself fits the budget. */
  lemma {:induction false} AdmittedConversationFits(limits: Limits, first: nat)
    requires first <= ConversationInputLimit(limits)
    ensures EveryTurnFits(limits, first) <==> first > 0 || Headroom(limits) <= Normalized(limits).maxInput
  {
    var step := Normalized(limits).maxOutput + RepairSafetyTokens;
    forall repairs, turn: nat | BoundedRepairs(limits, repairs) && turn < MaxProviderTurns
      ensures TurnInput(first, repairs, turn) <= first + turn * step
    {
      if turn > 0 {
        assert TurnInput(first, repairs, 1) == first + repairs[0];
      }
    }
    var worst := [step, step];
    assert BoundedRepairs(limits, worst);
    assert TurnInput(first, worst, 1) == first + step;
    assert TurnInput(first, worst, 2) == first + 2 * step;
  }

  /** A request of at least one token is admitted exactly when its whole conversation fits. */
  lemma {:induction false} AdmittedExactly(limits: Limits, first: int)
    requires first > 0
    ensures first <= ConversationInputLimit(limits) <==> EveryTurnFits(limits, first)
  {
    var step := Normalized(limits).maxOutput + RepairSafetyTokens;
    if first <= ConversationInputLimit(limits) {
      AdmittedConversationFits(limits, first);
    } else {
      var worst := [step, step];
      assert BoundedRepairs(limits, worst);
      assert TurnInput(first, worst, 1) == first + step;
      assert TurnInput(first, worst, 2) == first + 2 * step;
    }
  }

  /** A budget too small for the headroom admits an empty request that can outgrow it. */
  lemma {:induction false} EmptyRequestCanOverflow()
    ensures var limits := Limits(1, 1, 1);
            0 <= ConversationInputLimit(limits) && BoundedRepairs(limits, [4097, 4097])
            && TurnInput(0, [4097, 4097], 2) > Normalized(limits).maxInput
  {
    assert TurnInput(0, [4097, 4097], 1) == 4097;
  }

  // ----- Selections from a list

  function PickTo<T>(list: seq<T>, chosen: set<nat>, k: nat): seq<T>
    requires k <= |list|
  {
    if k == 0 then []
    else if k - 1 in chosen then PickTo(list, chosen, k - 1) + [list[k - 1]]
    else PickTo(list, chosen, k - 1)
  }

  /** The chosen elements, in list order. */
  function Pick<T>(list: seq<T>, chosen: set<nat>): seq<T> {
    PickTo(list, chosen, |list|)
  }

  function Keeps<T(==)>(part: seq<T>, whole: seq<T>): bool {
    if part == [] then true
    else if whole == [] then false
    else (part[|part| - 1] == whole[|whole| - 1] && Keeps(part[..|part| - 1], whole[..|whole| - 1]))
         || Keeps(part, whole[..|whole| - 1])
  }

  lemma {:induction false} KeepsItself<T>(s: seq<T>)
    ensures Keeps(s, s)
  {
    if s != [] {
      KeepsItself(s[..|s| - 1]);
    }
  }

  lemma {:induction false} KeepsPrefixed<T>(m: seq<T>, part: seq<T>, whole: seq<T>)
    requires Keeps(part, whole)
    ensures Keeps(m + part, m + whole)
  {
    if whole == [] {
      KeepsItself(m);
      assert m + part == m && m + whole == m;
    } else {
      assert (m + whole)[..|m + whole| - 1] == m + whole[..|whole| - 1];
      if part == [] {
        KeepsPrefixed(m, part, whole[..|whole| - 1]);
      } else {
        assert (m + part)[..|m + part| - 1] == m + part[..|part| - 1];
        if part[|part| - 1] == whole[|whole| - 1] && Keeps(part[..|part| - 1], whole[..|whole| - 1]) {
          KeepsPrefixed(m, part[..|part| - 1], whole[..|whole| - 1]);
        } else {
          KeepsPrefixed(m, part, whole[..|whole| - 1]);
        }
      }
    }
  }

  lemma {:induction false} KeepsPush<T>(part: seq<T>, whole: seq<T>, x: T)
    requires Keeps(part, whole)
    ensures Keeps(part + [x], whole + [x]) && Keeps(part, whole + [x])
  {
    assert (part + [x])[..|part|] == part && (whole + [x])[..|whole|] == whole;
  }

  lemma {:induction false} PickToKeeps<T>(list: seq<T>, a: set<nat>, b: set<nat>, k: nat)
    requires k <= |list| && a <= b
    ensures Keeps(PickTo(list, a, k), PickTo(list, b, k))
  {
    if k > 0 {
      PickToKeeps(list, a, b, k - 1);
      KeepsPush(PickTo(list, a, k - 1), PickTo(list, b, k - 1), list[k - 1]);
    }
  }

  lemma {:induction false} PickToSame<T>(list: seq<T>, a: set<nat>, b: set<nat>, k: nat)
    requires k <= |list| && forall i :: 0 <= i < k ==> (i in a <==> i in b)
    ensures PickTo(list, a, k) == PickTo(list, b, k)
  {
    if k > 0 {
      PickToSame(list, a, b, k - 1);
    }
  }

  lemma {:induction false} PickToStops<T>(list: seq<T>, a: set<nat>, j: nat, k: nat)
    requires j <= k <= |list| && forall i :: i in a ==> i < j
    ensures PickTo(list, a, k) == PickTo(list, a, j)
  {
    if j < k {
      PickToStops(list, a, j, k - 1);
    }
  }

  /** Choosing a later element appends it. */
  lemma {:induction false} PickAppends<T>(list: seq<T>, a: set<nat>, i: nat)
    requires i < |list| && forall j :: j in a ==> j < i
    ensures Pick(list, a + {i}) == Pick(list, a) + [list[i]]
  {
    PickToStops(list, a, i, |list|);
    PickToStops(list, a + {i}, i + 1, |list|);
    PickToSame(list, a, a + {i}, i);
  }

  lemma {:induction false} PickToSize<T>(list: seq<T>, a: set<nat>, k: nat)
    requires k <= |list| && forall i :: i in a ==> i < k
    ensures |PickTo(list, a, k)| == |a|
  {
    if k == 0 {
      assert a == {};
    } else {
      PickToSize(list, a - {k - 1}, k - 1);
      PickToSame(list, a, a - {k - 1}, k - 1);
    }
  }

  // ----- What is offered, and what a selection from it sends

  datatype Selection = Selection(p: set<nat>, c: seq<set<nat>>)
  datatype Item = PredicateItem(i: nat) | CandidateItem(g: nat, i: nat)

  datatype Offer = Offer(mandatory: seq<PredicateOption>, optional: seq<PredicateOption>, groups: seq<Group>,
                         truncated: bool, count: Counter, limits: Limits)

  predicate InRange(offer: Offer, x: Item) {
    match x
    case PredicateItem(i) => i < |offer.optional|
    case CandidateItem(g, i) => g < |offer.groups| && i < |offer.groups[g].candidates|
  }

  predicate Has(sel: Selection, x: Item) {
    match x
    case PredicateItem(i) => i in sel.p
    case CandidateItem(g, i) => g < |sel.c| && i in sel.c[g]
  }

  function Add(sel: Selection, x: Item): Selection
    requires x.CandidateItem? ==> x.g < |sel.c|
  {
    match x
    case PredicateItem(i) => sel.(p := sel.p + {i})
    case CandidateItem(g, i) => sel.(c := sel.c[g := sel.c[g] + {i}])
  }

  ghost predicate ValidSelection(offer: Offer, sel: Selection) {
    |sel.c| == |offer.groups| && forall x: Item :: Has(sel, x) ==> InRange(offer, x)
  }

  /** The request payload of a selection: everything mandatory, every group, and the chosen options in order. */
  function Build(offer: Offer, sel: Selection): Payload
    requires |sel.c| == |offer.groups|
  {
    Payload(offer.mandatory + Pick(offer.optional, sel.p),
            seq(|offer.groups|, g requires 0 <= g < |offer.groups| =>
              Group(offer.groups[g].evidenceId, Pick(offer.groups[g].candidates, sel.c[g]))),
            offer.truncated)
  }

  predicate SubPayload(a: Payload, b: Payload) {
    && Keeps(a.predicates, b.predicates) && a.truncated == b.truncated && |a.groups| == |b.groups|
    && forall g :: 0 <= g < |a.groups| ==>
         a.groups[g].evidenceId == b.groups[g].evidenceId && Keeps(a.groups[g].candidates, b.groups[g].candidates)
  }

  ghost predicate Monotone(count: Counter) {
    forall a, b :: SubPayload(a, b) && count(a).Some? && count(b).Some? ==>
      count(a).value.input <= count(b).value.input && count(a).value.context <= count(b).value.context
  }

  predicate Fits(offer: Offer, payload: Payload) {
    var t := offer.count(payload);
    t.Some? && t.value.context <= Normalized(offer.limits).maxContext
        && t.value.input <= ConversationInputLimit(offer.limits)
  }

  ghost predicate SubSelection(a: Selection, b: Selection) {
    |a.c| == |b.c| && a.p <= b.p && forall g :: 0 <= g < |a.c| ==> a.c[g] <= b.c[g]
  }

  ghost predicate Refused(offer: Offer, sel: Selection, x: Item)
    requires |sel.c| == |offer.groups| && (x.CandidateItem? ==> x.g < |sel.c|)
  {
    offer.count(Build(offer, Add(sel, x))).Some? && !Fits(offer, Build(offer, Add(sel, x)))
  }

  /** The item was tried beside a part of the selection, was counted, and did not fit. */
  ghost predicate Rejected(offer: Offer, sel: Selection, x: Item)
    requires |sel.c| == |offer.groups| && (x.CandidateItem? ==> x.g < |sel.c|)
  {
    exists earlier :: SubSelection(earlier, sel) && Refused(offer, earlier, x)
  }

  lemma {:induction false} BiggerSelection(offer: Offer, a: Selection, b: Selection)
    requires |a.c| == |offer.groups| && SubSelection(a, b)
    ensures SubPayload(Build(offer, a), Build(offer, b))
  {
    PickToKeeps(offer.optional, a.p, b.p, |offer.optional|);
    KeepsPrefixed(offer.mandatory, Pick(offer.optional, a.p), Pick(offer.optional, b.p));
    forall g | 0 <= g < |a.c|
      ensures Keeps(Build(offer, a).groups[g].candidates, Build(offer, b).groups[g].candidates)
    {
      PickToKeeps(offer.groups[g].candidates, a.c[g], b.c[g], |offer.groups[g].candidates|);
    }
  }

  /** For a monotone count, a rejected item does not fit beside the selection as it stands now. */
  lemma {:induction false} RejectedDoesNotFit(offer: Offer, sel: Selection, x: Item)
    requires |sel.c| == |offer.groups| && (x.CandidateItem? ==> x.g < |sel.c|)
    requires Rejected(offer, sel, x) && Monotone(offer.count)
    ensures !Fits(offer, Build(offer, Add(sel, x)))
  {
    var earlier :| SubSelection(earlier, sel) && Refused(offer, earlier, x);
    BiggerSelection(offer, Add(earlier, x), Add(sel, x));
  }

  lemma {:induction false} RejectionStays(offer: Offer, sel: Selection, x: Item, y: Item)
    requires |sel.c| == |offer.groups| && (x.CandidateItem? ==> x.g < |sel.c|) && (y.CandidateItem? ==> y.g < |sel.c|)
    requires Rejected(offer, sel, x)
    ensures Rejected(offer, Add(sel, y), x)
  {
    var earlier :| SubSelection(earlier, sel) && Refused(offer, earlier, x);
    assert SubSelection(earlier, Add(sel, y));
  }

  // ----- Progress of the greedy rounds

  /** How far the rounds have come: predicates tried, and candidates tried in each group. */
  datatype Progress = Progress(p: nat, c: seq<nat>)

  predicate Tried(done: Progress, x: Item) {
    match x
    case PredicateItem(i) => i < done.p
    case CandidateItem(g, i) => g < |done.c| && i < done.c[g]
  }

  /** Only tried items are kept, and every tried item that is not kept was rejected. */
  ghost predicate Greedy(offer: Offer, sel: Selection, done: Progress) {
    && ValidSelection(offer, sel) && |done.c| == |offer.groups|
    && (forall x: Item :: Has(sel, x) ==> Tried(done, x))
    && (forall x: Item :: Tried(done, x) && !Has(sel, x) ==> Rejected(offer, sel, x))
  }

  function Next(done: Progress, x: Item): Progress
    requires x.CandidateItem? ==> x.g < |done.c|
  {
    match x
    case PredicateItem(i) => done.(p := i + 1)
    case CandidateItem(g, i) => done.(c := done.c[g := i + 1])
  }

  predicate IsNext(done: Progress, x: Item) {
    match x
    case PredicateItem(i) => i == done.p
    case CandidateItem(g, i) => g < |done.c| && i == done.c[g]
  }

  lemma {:induction false} KeepingStaysGreedy(offer: Offer, sel: Selection, done: Progress, x: Item)
    requires Greedy(offer, sel, done) && InRange(offer, x) && IsNext(done, x)
    ensures Greedy(offer, Add(sel, x), Next(done, x))
  {
    var sel', done' := Add(sel, x), Next(done, x);
    forall y: Item
      ensures Has(sel', y) <==> Has(sel, y) || y == x
      ensures Tried(done', y) <==> Tried(done, y) || y == x
    {
    }
    forall y: Item | Tried(done', y) && !Has(sel', y)
      ensures Rejected(offer, sel', y)
    {
      RejectionStays(offer, sel, y, x);
    }
  }

  lemma {:induction false} RefusingStaysGreedy(offer: Offer, sel: Selection, done: Progress, x: Item)
    requires Greedy(offer, sel, done) && InRange(offer, x) && IsNext(done, x) && Refused(offer, sel, x)
    ensures Greedy(offer, sel, Next(done, x))
  {
    assert SubSelection(sel, sel);
    assert Rejected(offer, sel, x);
    forall y: Item
      ensures Tried(Next(done, x), y) <==> Tried(done, y) || y == x
    {
    }
  }

  /** Adding the next item of a list appends it to what the list has kept. */
  lemma {:induction false} BuildAdds(offer: Offer, sel: Selection, done: Progress, x: Item)
    requires Greedy(offer, sel, done) && InRange(offer, x) && IsNext(done, x)
    ensures Build(offer, Add(sel, x)).truncated == Build(offer, sel).truncated
    ensures x.PredicateItem? ==>
              && Build(offer, Add(sel, x)).predicates == Build(offer, sel).predicates + [offer.optional[x.i]]
              && Build(offer, Add(sel, x)).groups == Build(offer, sel).groups
    ensures x.CandidateItem? ==>
              && Build(offer, Add(sel, x)).predicates == Build(offer, sel).predicates
              && Build(offer, Add(sel, x)).groups
                 == Build(offer, sel).groups[x.g := Group(offer.groups[x.g].evidenceId,
                      Build(offer, sel).groups[x.g].candidates + [offer.groups[x.g].candidates[x.i]])]
  {
    match x
    case PredicateItem(i) =>
      assert forall j :: j in sel.p ==> Has(sel, PredicateItem(j));
      PickAppends(offer.optional, sel.p, i);
    case CandidateItem(g, i) =>
      assert forall j :: j in sel.c[g] ==> Has(sel, CandidateItem(g, j));
      PickAppends(offer.groups[g].candidates, sel.c[g], i);
  }

  // ----- Which items are kept, item by item

  /** The round-robin order: round by round, the predicate first, then one candidate of each group in turn. */
  predicate Precedes(x: Item, y: Item) {
    x.i < y.i || (x.i == y.i && y.CandidateItem? && (x.PredicateItem? || x.g < y.g))
  }

  /** The part of a selection that was decided before an item. */
  function Before(sel: Selection, x: Item): (b: Selection)
    ensures |b.c| == |sel.c|
    ensures forall y: Item :: Has(b, y) <==> Has(sel, y) && Precedes(y, x)
  {
    Selection(set i | i in sel.p && Precedes(PredicateItem(i), x),
              seq(|sel.c|, g requires 0 <= g < |sel.c| => set i | i in sel.c[g] && Precedes(CandidateItem(g, i), x)))
  }

  /** The item was counted beside what was kept before it, and is kept exactly if that fits both budgets. */
  ghost predicate Decided(offer: Offer, sel: Selection, x: Item)
    requires |sel.c| == |offer.groups| && (x.CandidateItem? ==> x.g < |sel.c|)
  {
    var trial := Build(offer, Add(Before(sel, x), x));
    offer.count(trial).Some? && (Has(sel, x) <==> Fits(offer, trial))
  }

  ghost predicate Settled(offer: Offer, sel: Selection, done: Progress) {
    && |sel.c| == |offer.groups| == |done.c| && (forall x: Item :: Has(sel, x) ==> InRange(offer, x) && Tried(done, x))
    && forall x: Item :: InRange(offer, x) && Tried(done, x) ==> Decided(offer, sel, x)
  }

  /** What was tried is what comes before the item. */
  ghost predicate InOrder(offer: Offer, done: Progress, x: Item) {
    forall y: Item :: InRange(offer, y) ==> (Tried(done, y) <==> Precedes(y, x))
  }

  /** The count failed on the first item that could not be decided. */
  ghost predicate StoppedAt(offer: Offer, sel: Selection, x: Item)
    requires |sel.c| == |offer.groups|
  {
    && InRange(offer, x) && (forall y: Item :: Has(sel, y) ==> InRange(offer, y) && Precedes(y, x))
    && (forall y: Item :: InRange(offer, y) && Precedes(y, x) ==> Decided(offer, sel, y))
    && offer.count(Build(offer, Add(sel, x))).None?
  }

  lemma {:induction false} SameSelection(a: Selection, b: Selection)
    requires |a.c| == |b.c| && forall y: Item :: Has(a, y) <==> Has(b, y)
    ensures a == b
  {
    forall i
      ensures i in a.p <==> i in b.p
    {
      assert Has(a, PredicateItem(i)) <==> Has(b, PredicateItem(i));
    }
    forall g | 0 <= g < |a.c|
      ensures a.c[g] == b.c[g]
    {
      forall i
        ensures i in a.c[g] <==> i in b.c[g]
      {
        assert Has(a, CandidateItem(g, i)) <==> Has(b, CandidateItem(g, i));
      }
    }
  }

  lemma {:induction false} AddHas(sel: Selection, x: Item)
    requires x.CandidateItem? ==> x.g < |sel.c|
    ensures |Add(sel, x).c| == |sel.c| && forall y: Item :: Has(Add(sel, x), y) <==> Has(sel, y) || y == x
  {
  }

  /** An item that comes after everything tried is decided by what is kept now, and decides nothing tried. */
  lemma {:induction false} DecidingNext(offer: Offer, sel: Selection, done: Progress, x: Item)
    requires Settled(offer, sel, done) && InRange(offer, x) && IsNext(done, x) && InOrder(offer, done, x)
    ensures Before(sel, x) == sel && Before(Add(sel, x), x) == sel
    ensures Fits(offer, Build(offer, Add(sel, x))) ==> Settled(offer, Add(sel, x), Next(done, x))
    ensures Refused(offer, sel, x) ==> Settled(offer, sel, Next(done, x))
  {
    hide Build, Before, Add;
    AddHas(sel, x);
    SameSelection(Before(sel, x), sel);
    SameSelection(Before(Add(sel, x), x), sel);
    forall y: Item
      ensures Tried(Next(done, x), y) <==> Tried(done, y) || y == x
    {
    }
    forall y: Item | InRange(offer, y) && Tried(done, y)
      ensures Before(Add(sel, x), y) == Before(sel, y)
    {
      SameSelection(Before(Add(sel, x), y), Before(sel, y));
    }
  }

  /** In the greedy order there comes an item that cannot be counted. */
  ghost predicate CountStops(offer: Offer) {
    exists s: Selection, x: Item :: |s.c| == |offer.groups| && StoppedAt(offer, s, x)
  }

  function ListOf(x: Item): nat {
    if x.PredicateItem? then 0 else x.g + 1
  }

  /** What is kept before an item is a matter of the offer alone. */
  lemma {:induction false} SameBefore(offer: Offer, a: Selection, b: Selection, x: Item)
    requires |a.c| == |b.c| == |offer.groups|
    requires forall y: Item :: (Has(a, y) || Has(b, y)) && Precedes(y, x) ==> InRange(offer, y)
    requires forall y: Item :: InRange(offer, y) && Precedes(y, x) ==> Decided(offer, a, y) && Decided(offer, b, y)
    ensures Before(a, x) == Before(b, x)
    decreases x.i, ListOf(x)
  {
    hide Build, Fits, Before, Add;
    forall y: Item | InRange(offer, y) && Precedes(y, x)
      ensures Has(a, y) <==> Has(b, y)
    {
      SameBefore(offer, a, b, y);
    }
    SameSelection(Before(a, x), Before(b, x));
  }

  /** If every item can be decided, the count never stops. */
  lemma {:induction false} DecidedNeverStops(offer: Offer, sel: Selection)
    requires ValidSelection(offer, sel) && forall x: Item :: InRange(offer, x) ==> Decided(offer, sel, x)
    ensures !CountStops(offer)
  {
    hide Build, Fits, Before, Add;
    if s: Selection, x: Item :| |s.c| == |offer.groups| && StoppedAt(offer, s, x) {
      SameBefore(offer, s, sel, x);
      SameSelection(Before(s, x), s);
    }
  }

  lemma {:induction false} StoppedIsValid(offer: Offer, sel: Selection)
    requires |sel.c| == |offer.groups| && exists x: Item :: StoppedAt(offer, sel, x)
    ensures CountStops(offer) && exists s: Selection :: ValidSelection(offer, s) && offer.count(Build(offer, s)).None?
  {
    hide Build, Fits, Before, Add;
    var x: Item :| StoppedAt(offer, sel, x);
    AddHas(sel, x);
    assert ValidSelection(offer, Add(sel, x));
  }

  lemma {:induction false} StopsAtNext(offer: Offer, sel: Selection, done: Progress, x: Item)
    requires Greedy(offer, sel, done) && Settled(offer, sel, done) && InRange(offer, x) && IsNext(done, x)
    requires InOrder(offer, done, x)
    requires offer.count(Build(offer, Add(sel, x))).None?
    ensures StoppedAt(offer, sel, x)
  {
  }

  // ----- The order of the candidate groups

  const EvidencePrefix := "evidence:"

  function EvidenceIndex(id: string): Option<int> {
    if !(EvidencePrefix <= id) then None else
    var n := Atoi(id[|EvidencePrefix|..]);
    if n.Some? && n.value >= 0 then n else None
  }

  /** The comparison that sorts candidate groups by submitted evidence index. */
  predicate GroupBefore(a: Group, b: Group) {
    var l, r := EvidenceIndex(a.evidenceId), EvidenceIndex(b.evidenceId);
    if l.Some? && r.Some? && l.value != r.value then l.value < r.value
    else if l.Some? != r.Some? then l.Some?
    else TextBefore(a.evidenceId, b.evidenceId)
  }

  /** A stable sort: a group only moves ahead of groups it is before. */
  method SortGroups(groups: seq<Group>) returns (sorted: seq<Group>)
    ensures GroupsOrdered(sorted) && multiset(sorted) == multiset(groups)
  {
    sorted := [];
    for n := 0 to |groups|
      invariant GroupsOrdered(sorted) && multiset(sorted) == multiset(groups[..n])
    {
      sorted := InsertGroup(sorted, groups[n]);
      assert groups[..n + 1] == groups[..n] + [groups[n]];
    }
    assert groups[..|groups|] == groups;
  }

  lemma {:induction false} GroupBeforeIsAsymmetric(a: Group, b: Group)
    requires GroupBefore(a, b)
    ensures !GroupBefore(b, a)
  {
    if TextBefore(a.evidenceId, b.evidenceId) {
      TextBeforeIsAsymmetric(a.evidenceId, b.evidenceId);
    }
  }

  ghost predicate GroupsOrdered(groups: seq<Group>) {
    forall i :: 0 <= i < |groups| - 1 ==> !GroupBefore(groups[i + 1], groups[i])
  }

  lemma {:induction false} InsertKeepsGroups(groups: seq<Group>, i: nat, x: Group)
    requires GroupsOrdered(groups) && i <= |groups|
    requires i > 0 ==> !GroupBefore(x, groups[i - 1])
    requires i < |groups| ==> !GroupBefore(groups[i], x)
    ensures GroupsOrdered(groups[..i] + [x] + groups[i..])
  {
    hide GroupBefore;
    var r := groups[..i] + [x] + groups[i..];
    forall k | 0 <= k < |r| - 1
      ensures !GroupBefore(r[k + 1], r[k])
    {
      if k + 1 < i {
        assert r[k] == groups[k] && r[k + 1] == groups[k + 1];
      } else if k > i {
        assert r[k] == groups[k - 1] && r[k + 1] == groups[(k - 1) + 1];
      }
    }
  }

  lemma {:induction false} InsertKeepsMembers(groups: seq<Group>, i: nat, x: Group)
    requires i <= |groups|
    ensures multiset(groups[..i] + [x] + groups[i..]) == multiset(groups) + multiset{x}
  {
    assert groups == groups[..i] + groups[i..];
  }

  method InsertGroup(groups: seq<Group>, x: Group) returns (r: seq<Group>)
    requires GroupsOrdered(groups)
    ensures GroupsOrdered(r) && multiset(r) == multiset(groups) + multiset{x}
  {
    hide GroupBefore, GroupsOrdered;
    var i := |groups|;
    while i > 0 && GroupBefore(x, groups[i - 1])
      invariant 0 <= i <= |groups|
      invariant i < |groups| ==> GroupBefore(x, groups[i])
    {
      i := i - 1;
    }
    if i < |groups| {
      GroupBeforeIsAsymmetric(x, groups[i]);
    }
    InsertKeepsGroups(groups, i, x);
    InsertKeepsMembers(groups, i, x);
    r := groups[..i] + [x] + groups[i..];
  }

  // ----- The allocator

  function Total(s: seq<int>): int {
    if s == [] then 0 else Total(s[..|s| - 1]) + s[|s| - 1]
  }

  lemma {:induction false} TotalUpdate(s: seq<int>, i: nat, v: int)
    requires i < |s|
    ensures Total(s[i := v]) == Total(s) - s[i] + v
  {
    var t := s[i := v];
    if i < |s| - 1 {
      TotalUpdate(s[..|s| - 1], i, v);
      assert t[..|t| - 1] == s[..|s| - 1][i := v];
    } else {
      assert t[..|t| - 1] == s[..|s| - 1];
    }
  }

  function Sizes(c: seq<set<nat>>): (r: seq<int>)
    ensures |r| == |c|
  {
    seq(|c|, g requires 0 <= g < |c| => |c[g]|)
  }

  function Offered(groups: seq<Group>): (r: seq<int>)
    ensures |r| == |groups|
  {
    seq(|groups|, g requires 0 <= g < |groups| => |groups[g].candidates|)
  }

  function WithKeys(options: seq<PredicateOption>, keys: set<string>, inside: bool): seq<PredicateOption> {
    if options == [] then []
    else if (Trim(options[|options| - 1].key) in keys) == inside
    then WithKeys(options[..|options| - 1], keys, inside) + [options[|options| - 1]]
    else WithKeys(options[..|options| - 1], keys, inside)
  }

  function MandatoryKeys(required: seq<string>): set<string> {
    set k | k in required && Trim(k) != "" :: Trim(k)
  }

  datatype Allocation = Allocated | ContextTooLarge | InputTooLarge | CountFailed

  ghost predicate OmittedCounts(offer: Offer, sel: Selection, done: Progress, predicates: int, candidates: int) {
    predicates == done.p - |sel.p| && candidates == Total(done.c) - Total(Sizes(sel.c))
  }

  function Least(a: nat, b: nat): nat {
    if a < b then a else b
  }

  function Nothing(offer: Offer): (sel: Selection)
    ensures |sel.c| == |offer.groups|
  {
    Selection({}, seq(|offer.groups|, g requires 0 <= g < |offer.groups| => {}))
  }

  /** Predicates tried up to p; candidates up to r, and one more in the groups before g. */
  function UpTo(offer: Offer, p: nat, g: nat, r: nat): (done: Progress)
    ensures |done.c| == |offer.groups|
  {
    Progress(Least(p, |offer.optional|),
             seq(|offer.groups|, k requires 0 <= k < |offer.groups| =>
               Least(if k < g then r + 1 else r, |offer.groups[k].candidates|)))
  }

  function Everything(offer: Offer): (done: Progress)
    ensures |done.c| == |offer.groups|
  {
    Progress(|offer.optional|, seq(|offer.groups|, k requires 0 <= k < |offer.groups| => |offer.groups[k].candidates|))
  }

  lemma {:induction false} NextPredicate(offer: Offer, round: nat)
    ensures UpTo(offer, round + 1, 0, round) ==
            if round < |offer.optional| then Next(UpTo(offer, round, 0, round), PredicateItem(round))
                else UpTo(offer, round, 0, round)
  {
  }

  lemma {:induction false} NextCandidate(offer: Offer, g: nat, round: nat)
    requires g < |offer.groups|
    ensures UpTo(offer, round + 1, g + 1, round) ==
            if round < |offer.groups[g].candidates| then Next(UpTo(offer, round + 1, g, round), CandidateItem(g, round))
            else UpTo(offer, round + 1, g, round)
  {
  }

  lemma {:induction false} PredicateInOrder(offer: Offer, round: nat)
    requires round < |offer.optional|
    ensures InOrder(offer, UpTo(offer, round, 0, round), PredicateItem(round))
  {
  }

  lemma {:induction false} CandidateInOrder(offer: Offer, g: nat, round: nat)
    requires g < |offer.groups| && round < |offer.groups[g].candidates|
    ensures InOrder(offer, UpTo(offer, round + 1, g, round), CandidateItem(g, round))
  {
  }

  lemma {:induction false} RoundOver(offer: Offer, round: nat)
    ensures UpTo(offer, round + 1, |offer.groups|, round) == UpTo(offer, round + 1, 0, round + 1)
  {
  }

  lemma {:induction false} AllTried(offer: Offer, rounds: nat)
    requires |offer.optional| <= rounds && forall k :: 0 <= k < |offer.groups| ==>
               |offer.groups[k].candidates| <= rounds
    ensures UpTo(offer, rounds, 0, rounds) == Everything(offer)
  {
  }

  lemma {:induction false} NothingBuilt(offer: Offer)
    ensures Build(offer, Nothing(offer)) ==
            Payload(offer.mandatory,
                    seq(|offer.groups|, g requires 0 <= g < |offer.groups| => Group(offer.groups[g].evidenceId, [])),
                    offer.truncated)
  {
    PickToStops(offer.optional, {}, 0, |offer.optional|);
    forall g | 0 <= g < |offer.groups|
      ensures Pick(offer.groups[g].candidates, {}) == []
    {
      PickToStops(offer.groups[g].candidates, {}, 0, |offer.groups[g].candidates|);
    }
  }

  lemma {:induction false} TotalOfZeros(s: seq<int>)
    requires forall i :: 0 <= i < |s| ==> s[i] == 0
    ensures Total(s) == 0
  {
    if s != [] {
      TotalOfZeros(s[..|s| - 1]);
    }
  }

  lemma {:induction false} NothingIsGreedy(offer: Offer)
    ensures Greedy(offer, Nothing(offer), UpTo(offer, 0, 0, 0)) && Settled(offer, Nothing(offer), UpTo(offer, 0, 0, 0))
    ensures OmittedCounts(offer, Nothing(offer), UpTo(offer, 0, 0, 0), 0, 0)
  {
    TotalOfZeros(UpTo(offer, 0, 0, 0).c);
    TotalOfZeros(Sizes(Nothing(offer).c));
  }

  /** A selection that fits both budgets, and beside which no omitted item was found to fit. */
  ghost predicate AllocationOf(offer: Offer, sel: Selection)
    requires |sel.c| == |offer.groups|
  {
    && ValidSelection(offer, sel) && Fits(offer, Build(offer, sel))
    && (forall x: Item :: InRange(offer, x) && !Has(sel, x) ==> Rejected(offer, sel, x))
    && (forall x: Item :: InRange(offer, x) ==> Decided(offer, sel, x))
  }

  lemma {:induction false} GreedyAtEnd(offer: Offer, sel: Selection)
    requires |sel.c| == |offer.groups| && Greedy(offer, sel, Everything(offer)) && Fits(offer, Build(offer, sel))
    requires Settled(offer, sel, Everything(offer))
    ensures AllocationOf(offer, sel)
    ensures forall p, c :: OmittedCounts(offer, sel, Everything(offer), p, c) ==>
              p == |offer.optional| - |sel.p| && c == Total(Offered(offer.groups)) - Total(Sizes(sel.c))
  {
    assert Everything(offer).c == Offered(offer.groups);
    forall x: Item | InRange(offer, x)
      ensures Tried(Everything(offer), x)
    {
    }
  }

  /** The offer alone determines which items are kept: each one exactly if it fits beside those kept before it. */
  lemma {:induction false} AllocationIsUnique(offer: Offer, a: Selection, b: Selection)
    requires |a.c| == |b.c| == |offer.groups| && AllocationOf(offer, a) && AllocationOf(offer, b)
    ensures a == b
  {
    hide Build, Fits, Before, Add, Rejected;
    forall y: Item | InRange(offer, y)
      ensures Has(a, y) <==> Has(b, y)
    {
      SameBefore(offer, a, b, y);
    }
    SameSelection(a, b);
  }

  /** For any monotone token count the allocation is maximal: no omitted item fits beside what was kept. */
  lemma {:induction false} AllocationIsMaximal(offer: Offer, sel: Selection, x: Item)
    requires |sel.c| == |offer.groups| && AllocationOf(offer, sel) && Monotone(offer.count)
    requires InRange(offer, x) && !Has(sel, x)
    ensures !Fits(offer, Build(offer, Add(sel, x)))
  {
    RejectedDoesNotFit(offer, sel, x);
  }

  /** Kept and omitted add up to offered, for the predicates and for every candidate group. */
  lemma {:induction false} KeptPlusOmitted(offer: Offer, sel: Selection)
    requires |sel.c| == |offer.groups| && ValidSelection(offer, sel)
    ensures |Build(offer, sel).predicates| == |offer.mandatory| + |sel.p|
    ensures Offered(Build(offer, sel).groups) == Sizes(sel.c)
  {
    assert forall i :: i in sel.p ==> Has(sel, PredicateItem(i));
    PickToSize(offer.optional, sel.p, |offer.optional|);
    forall g | 0 <= g < |offer.groups|
      ensures |Build(offer, sel).groups[g].candidates| == |sel.c[g]|
    {
      assert forall i :: i in sel.c[g] ==> Has(sel, CandidateItem(g, i));
      PickToSize(offer.groups[g].candidates, sel.c[g], |offer.groups[g].candidates|);
    }
  }

  lemma {:induction false} WithKeysSplits(options: seq<PredicateOption>, keys: set<string>)
    ensures multiset(WithKeys(options, keys, true)) + multiset(WithKeys(options, keys, false)) == multiset(options)
    ensures forall o :: o in WithKeys(options, keys, true) ==> Trim(o.key) in keys
    ensures forall o :: o in WithKeys(options, keys, false) ==> Trim(o.key) !in keys
  {
    hide Trim;
    if options != [] {
      var init, last := options[..|options| - 1], options[|options| - 1];
      WithKeysSplits(init, keys);
      assert options == init + [last];
      var kept := Trim(last.key) in keys;
      assert WithKeys(options, keys, kept) == WithKeys(init, keys, kept) + [last];
      assert WithKeys(options, keys, !kept) == WithKeys(init, keys, !kept);
    }
  }

  method SplitPredicates(options: seq<PredicateOption>, keys: set<string>)
    returns (mandatory: seq<PredicateOption>, optional: seq<PredicateOption>)
    ensures mandatory == WithKeys(options, keys, true) && optional == WithKeys(options, keys, false)
  {
    mandatory, optional := [], [];
    for i := 0 to |options|
      invariant mandatory == WithKeys(options[..i], keys, true) && optional == WithKeys(options[..i], keys, false)
    {
      assert options[..i + 1][..i] == options[..i];
      if Trim(options[i].key) in keys {
        mandatory := mandatory + [options[i]];
      } else {
        optional := optional + [options[i]];
      }
    }
    assert options[..|options|] == options;
  }

  lemma {:induction false} NotCounted(offer: Offer)
    requires offer.count(Build(offer, Nothing(offer))).None?
    ensures !Fits(offer, Build(offer, Nothing(offer)))
  {
  }

  class AssessmentRequest {
    var predicateOptions: seq<PredicateOption>
    var groups: seq<Group>
    var omittedCandidates: int
    var omittedPredicates: int
    var truncated: bool
    var inputTokens: int
    var contextTokens: int

    function Current(): Payload
      reads this
    {
      Payload(predicateOptions, groups, truncated)
    }

    ghost predicate Holds(offer: Offer, sel: Selection, done: Progress, tokens: Tokens)
      reads this
    {
      && |sel.c| == |done.c| == |offer.groups| && Greedy(offer, sel, done) && Settled(offer, sel, done)
      && Current() == Build(offer, sel) && Fits(offer, Build(offer, sel))
        && offer.count(Build(offer, sel)) == Some(tokens)
      && OmittedCounts(offer, sel, done, omittedPredicates, omittedCandidates)
    }

    method TryPredicate(offer: Offer, i: nat, tokens: Tokens, ghost sel: Selection, ghost done: Progress)
      returns (r: Option<Tokens>, ghost next: Selection)
      requires Holds(offer, sel, done, tokens) && i < |offer.optional| && i == done.p
      requires InOrder(offer, done, PredicateItem(i))
      modifies this`predicateOptions, this`omittedPredicates
      ensures r.Some? ==> Holds(offer, next, Next(done, PredicateItem(i)), r.value)
      ensures r.None? ==> next == sel && StoppedAt(offer, sel, PredicateItem(i))
    {
      hide Greedy, Build, Fits, Settled, StoppedAt;
      ghost var x := PredicateItem(i);
      DecidingNext(offer, sel, done, x);
      BuildAdds(offer, sel, done, x);
      predicateOptions := predicateOptions + [offer.optional[i]];
      var t := offer.count(Current());
      assert Current() == Build(offer, Add(sel, x));
      if t.None? {
        StopsAtNext(offer, sel, done, x);
        return None, sel;
      }
      if t.value.context <= Normalized(offer.limits).maxContext
          && t.value.input <= ConversationInputLimit(offer.limits) {
        KeepingStaysGreedy(offer, sel, done, x);
        KeptOnce(offer, sel, done, x);
        FitsExact(offer, Current(), t.value);
        r, next := t, Add(sel, x);
      } else {
        predicateOptions := predicateOptions[..|predicateOptions| - 1];
        omittedPredicates := omittedPredicates + 1;
        FitsExact(offer, Build(offer, Add(sel, x)), t.value);
        RefusingStaysGreedy(offer, sel, done, x);
        r, next := Some(tokens), sel;
      }
    }

    method TryCandidate(offer: Offer, g: nat, i: nat, tokens: Tokens, ghost sel: Selection, ghost done: Progress)
      returns (r: Option<Tokens>, ghost next: Selection)
      requires Holds(offer, sel, done, tokens) && g < |offer.groups| && g < |done.c| && i < |offer.groups[g].candidates|
               && i == done.c[g]
      requires InOrder(offer, done, CandidateItem(g, i))
      modifies this`groups, this`omittedCandidates
      ensures r.Some? ==> Holds(offer, next, Next(done, CandidateItem(g, i)), r.value)
      ensures r.None? ==> next == sel && StoppedAt(offer, sel, CandidateItem(g, i))
    {
      hide Greedy, Build, Fits, Settled, StoppedAt;
      ghost var x := CandidateItem(g, i);
      DecidingNext(offer, sel, done, x);
      ghost var before := groups;
      BuildAdds(offer, sel, done, x);
      BuildShape(offer, sel);
      TotalUpdate(done.c, g, i + 1);
      var kept := groups[g].candidates;
      groups := groups[g := groups[g].(candidates := kept + [offer.groups[g].candidates[i]])];
      var t := offer.count(Current());
      assert Current() == Build(offer, Add(sel, x));
      if t.None? {
        StopsAtNext(offer, sel, done, x);
        return None, sel;
      }
      if t.value.context <= Normalized(offer.limits).maxContext
          && t.value.input <= ConversationInputLimit(offer.limits) {
        KeepingStaysGreedy(offer, sel, done, x);
        KeptOnce(offer, sel, done, x);
        FitsExact(offer, Current(), t.value);
        r, next := t, Add(sel, x);
      } else {
        var candidates := groups[g].candidates;
        groups := groups[g := groups[g].(candidates := candidates[..|candidates| - 1])];
        assert groups == before;
        omittedCandidates := omittedCandidates + 1;
        FitsExact(offer, Build(offer, Add(sel, x)), t.value);
        RefusingStaysGreedy(offer, sel, done, x);
        r, next := Some(tokens), sel;
      }
    }

    /** One round of the round-robin: the next predicate, then the next candidate of every group that has one. */
    method Round(offer: Offer, round: nat, tokens: Tokens, ghost sel: Selection)
      returns (r: Option<Tokens>, ghost next: Selection)
      requires Holds(offer, sel, UpTo(offer, round, 0, round), tokens)
      modifies this`predicateOptions, this`omittedPredicates, this`groups, this`omittedCandidates
      ensures r.Some? ==> Holds(offer, next, UpTo(offer, round + 1, 0, round + 1), r.value)
      ensures r.None? ==> |next.c| == |offer.groups| && exists x: Item :: StoppedAt(offer, next, x)
    {
      hide Greedy, Build, Fits, OmittedCounts, Settled, StoppedAt;
      r, next := Some(tokens), sel;
      if round < |offer.optional| {
        PredicateInOrder(offer, round);
        r, next := TryPredicate(offer, round, tokens, sel, UpTo(offer, round, 0, round));
        if r.None? {
          assert StoppedAt(offer, next, PredicateItem(round));
          return;
        }
      }
      NextPredicate(offer, round);
      for g := 0 to |offer.groups|
        invariant r.Some? && Holds(offer, next, UpTo(offer, round + 1, g, round), r.value)
      {
        NextCandidate(offer, g, round);
        if round < |offer.groups[g].candidates| {
          CandidateInOrder(offer, g, round);
          r, next := TryCandidate(offer, g, round, r.value, next, UpTo(offer, round + 1, g, round));
          if r.None? {
            assert StoppedAt(offer, next, CandidateItem(g, round));
            return;
          }
        }
      }
      RoundOver(offer, round);
    }

    /** All rounds, from nothing tried to everything tried. */
    method Rounds(offer: Offer, tokens: Tokens) returns (r: Option<Tokens>, ghost sel: Selection)
      requires Holds(offer, Nothing(offer), UpTo(offer, 0, 0, 0), tokens)
      modifies this`predicateOptions, this`omittedPredicates, this`groups, this`omittedCandidates
      ensures r.Some? ==> Holds(offer, sel, Everything(offer), r.value)
      ensures r.None? ==> |sel.c| == |offer.groups| && exists x: Item :: StoppedAt(offer, sel, x)
    {
      hide Greedy, Build, Fits, OmittedCounts, Settled, StoppedAt;
      var maxRounds := |offer.optional|;
      for g := 0 to |offer.groups|
        invariant |offer.optional| <= maxRounds && forall k :: 0 <= k < g ==> |offer.groups[k].candidates| <= maxRounds
      {
        if |offer.groups[g].candidates| > maxRounds {
          maxRounds := |offer.groups[g].candidates|;
        }
      }
      r, sel := Some(tokens), Nothing(offer);
      for round := 0 to maxRounds
        invariant r.Some? && Holds(offer, sel, UpTo(offer, round, 0, round), r.value)
      {
        r, sel := Round(offer, round, r.value, sel);
        if r.None? {
          return;
        }
      }
      AllTried(offer, maxRounds);
    }

    /** Keeps everything mandatory and every group, and adds optional items greedily while both budgets hold. */
    method Allocate(required: seq<string>, limits: Limits, count: Counter)
      returns (result: Allocation, ghost offer: Offer, ghost sel: Selection)
      modifies this
      ensures offer.mandatory == WithKeys(old(predicateOptions), MandatoryKeys(required), true)
      ensures offer.optional == WithKeys(old(predicateOptions), MandatoryKeys(required), false)
      ensures GroupsOrdered(offer.groups) && multiset(offer.groups) == multiset(old(groups))
      ensures offer.truncated == old(truncated) && offer.count == count && offer.limits == limits
      ensures |sel.c| == |offer.groups|
      ensures result == Allocated <==> Fits(offer, Build(offer, Nothing(offer))) && result != CountFailed
      ensures result == ContextTooLarge <==>
                var t := count(Build(offer, Nothing(offer))); t.Some? && t.value.context > Normalized(limits).maxContext
      ensures result == InputTooLarge <==>
                var t := count(Build(offer, Nothing(offer)));
                t.Some? && t.value.context <= Normalized(limits).maxContext
                    && t.value.input > ConversationInputLimit(limits)
      ensures result == CountFailed <==>
                || count(Build(offer, Nothing(offer))).None?
                || (Fits(offer, Build(offer, Nothing(offer)))
                    && CountStops(offer))
      ensures (forall s :: ValidSelection(offer, s) ==> count(Build(offer, s)).Some?) ==>
                (result == Allocated <==> Fits(offer, Build(offer, Nothing(offer))))
      ensures result == Allocated ==> AllocationOf(offer, sel)
      ensures result == Allocated ==>
                && predicateOptions == Build(offer, sel).predicates && groups == Build(offer, sel).groups
                && Some(Tokens(inputTokens, contextTokens)) == count(Build(offer, sel))
                && omittedPredicates == |offer.optional| - |sel.p|
                && omittedCandidates == Total(Offered(offer.groups)) - Total(Sizes(sel.c))
                && truncated == (old(truncated) || omittedPredicates > 0 || omittedCandidates > 0)
    {
      hide Greedy, Build, OmittedCounts, Fits, Settled, StoppedAt, Decided;
      omittedCandidates, omittedPredicates := 0, 0;
      var mandatory, optional := SplitPredicates(predicateOptions, MandatoryKeys(required));
      var sorted := SortGroups(groups);
      var plan := Offer(mandatory, optional, sorted, truncated, count, limits);
      offer, sel := plan, Nothing(plan);
      predicateOptions := mandatory;
      groups := seq(|sorted|, g requires 0 <= g < |sorted| => Group(sorted[g].evidenceId, []));
      NothingBuilt(plan);
      assert Current() == Build(plan, Nothing(plan));
      var t := count(Current());
      if t.None? {
        NotCounted(plan);
        return CountFailed, plan, Nothing(plan);
      }
      inputTokens, contextTokens := t.value.input, t.value.context;
      FitsExact(plan, Current(), t.value);
      if t.value.context > Normalized(limits).maxContext {
        return ContextTooLarge, plan, Nothing(plan);
      }
      if t.value.input > ConversationInputLimit(limits) {
        return InputTooLarge, plan, Nothing(plan);
      }
      NothingIsGreedy(plan);
      var final: Option<Tokens>;
      final, sel := Rounds(plan, t.value);
      if final.None? {
        StoppedIsValid(plan, sel);
        return CountFailed, plan, Nothing(plan);
      }
      GreedyAtEnd(plan, sel);
      DecidedNeverStops(plan, sel);
      truncated := truncated || omittedCandidates > 0 || omittedPredicates > 0;
      inputTokens, contextTokens := final.value.input, final.value.context;
      result := Allocated;
    }
  }

  lemma {:induction false} FitsExact(offer: Offer, p: Payload, t: Tokens)
    requires offer.count(p) == Some(t)
    ensures Fits(offer, p) <==>
              t.context <= Normalized(offer.limits).maxContext && t.input <= ConversationInputLimit(offer.limits)
  {
  }

  lemma {:induction false} BuildShape(offer: Offer, sel: Selection)
    requires |sel.c| == |offer.groups|
    ensures |Build(offer, sel).groups| == |offer.groups| && Build(offer, sel).truncated == offer.truncated
    ensures forall g :: 0 <= g < |offer.groups| ==> Build(offer, sel).groups[g].evidenceId == offer.groups[g].evidenceId
  {
  }

  /** Keeping an item that was next adds one to the sizes and leaves the omitted counts alone. */
  lemma {:induction false} KeptOnce(offer: Offer, sel: Selection, done: Progress, x: Item)
    requires Greedy(offer, sel, done) && IsNext(done, x) && InRange(offer, x)
    ensures forall p, c :: OmittedCounts(offer, sel, done, p, c) ==>
              OmittedCounts(offer, Add(sel, x), Next(done, x), p, c)
    ensures Build(offer, Add(sel, x)).truncated == offer.truncated
  {
    assert !Has(sel, x);
    if x.CandidateItem? {
      assert Sizes(Add(sel, x).c) == Sizes(sel.c)[x.g := |sel.c[x.g]| + 1];
      TotalUpdate(Sizes(sel.c), x.g, |sel.c[x.g]| + 1);
      TotalUpdate(done.c, x.g, x.i + 1);
    }
  }

  // ----- Startup validation of the limits

  /** The optional context of the smallest production request: none at all. */
  const MinimumPayload := Payload([], [], false)

  /** The count taken on one request stands for all: the minimum request is the one without optional context. */
  method ValidateLimits(limits: Limits, count: Counter) returns (ok: bool)
    ensures count(MinimumPayload).Some? && count(MinimumPayload).value.input > 0 ==>
              (ok <==> count(MinimumPayload).value.context <= Normalized(limits).maxContext
                       && EveryTurnFits(limits, count(MinimumPayload).value.input))
    ensures ok <==> var t := count(MinimumPayload);
                    t.Some? && t.value.context <= Normalized(limits).maxContext
                        && t.value.input <= ConversationInputLimit(limits)
  {
    var t := count(MinimumPayload);
    if t.None? || t.value.context > Normalized(limits).maxContext {
      return false;
    }
    ok := !(ConversationInputLimit(limits) < t.value.input);
    if t.value.input > 0 {
      AdmittedExactly(limits, t.value.input);
    }
  }

  /** Limits accepted at startup let the allocator admit the minimum request, and rejected ones do not. */
  method AdmitMinimumRequest(limits: Limits, count: Counter, required: seq<string>)
    returns (accepted: bool, result: Allocation)
    ensures accepted <==> result == Allocated
  {
    accepted := ValidateLimits(limits, count);
    var request := new AssessmentRequest;
    request.predicateOptions, request.groups, request.truncated := [], [], false;
    ghost var offer, sel;
    result, offer, sel := request.Allocate(required, limits, count);
    assert |offer.groups| == |multiset(offer.groups)|;
    NothingBuilt(offer);
    assert Build(offer, Nothing(offer)) == MinimumPayload;
    assert forall x: Item :: !InRange(offer, x);
  }

  /** A predicate is mandatory exactly when its key is one a submitted relationship names. */
  lemma {:induction false} MandatoryExactly(options: seq<PredicateOption>, required: seq<string>, o: PredicateOption)
    ensures o in WithKeys(options, MandatoryKeys(required), true) <==>
              o in options && Trim(o.key) != "" && exists k :: k in required && Trim(k) == Trim(o.key)
  {
    hide Trim;
    var keys := MandatoryKeys(required);
    WithKeysSplits(options, keys);
    assert o in options <==> o in multiset(options);
    assert o in WithKeys(options, keys, true) <==> o in multiset(WithKeys(options, keys, true));
    assert o in WithKeys(options, keys, false) <==> o in multiset(WithKeys(options, keys, false));
  }

  /** The index in an evidence id is the number after its prefix, so that item 10 comes after item 2. */
  lemma {:induction false} NumberedEvidence(n: nat)
    requires n <= MaxInt
    ensures EvidenceIndex("evidence:" + Numeral(n, 10)) == Some(n)
  {
    var digits := Numeral(n, 10);
    assert ("evidence:" + digits)[|EvidencePrefix|..] == digits;
    NumeralIsDecimal(n);
    NumeralRoundTrip(n, 10);
    assert '0' <= digits[0] <= '9';
  }
}
