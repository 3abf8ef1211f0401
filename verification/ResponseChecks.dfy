/** The validators of a resolved assessor response; each accepts exactly what its predicate says. */
module ResponseChecks {
  import opened Options
  import opened Text
  import opened Boundaries
  import opened EvidenceConflicts
  import opened Assessment
  import D = Distinct

  // ----- Shared helpers

  function WordEnd(s: string): (n: nat)
    ensures n <= |s| && (s != "" && !IsSpace(s[0]) ==> n > 0)
  {
    if s == "" || IsSpace(s[0]) then 0 else 1 + WordEnd(s[1..])
  }

  /** The words of a text joined by single spaces. */
  function Squeezed(s: string): string
    decreases |s|
  {
    if s == "" then ""
    else if IsSpace(s[0]) then Squeezed(s[1..])
    else
      var n := WordEnd(s);
      var rest := Squeezed(s[n..]);
      s[..n] + if rest == "" then "" else " " + rest
  }

  /** semanticExactSpanQuote: the span exists, and a given quote equals it up to white space. */
  predicate ExactQuote(content: string, start: int, end: int, quote: string) {
    var exact := EvidenceSpan(content, start, end);
    exact.Some? && (Trim(quote) == "" || Trim(quote) == exact.value || Squeezed(exact.value) == Squeezed(Trim(quote)))
  }

  predicate BoundedRequired(s: string, max: int) {
    Trim(s) != "" && |s| <= max
  }

  predicate KindAllowed(kind: string, allowed: seq<string>) {
    exists k :: k in allowed && Trim(k) == kind
  }

  predicate HiddenControl(c: char) {
    || '\U{200b}' <= c <= '\U{200f}' || c == '\U{2060}' || '\U{202a}' <= c <= '\U{202e}'
      || '\U{2066}' <= c <= '\U{2069}'
    || ((c < ' ' || '\U{007f}' <= c <= '\U{009f}') && c != '\n' && c != '\r' && c != '\t')
  }

  // ----- Security results

  predicate MatchesKind(rules: Rules, kind: string, quote: string) {
    Trim(kind) == "hidden_control_markup" ==> rules.hasActiveMarkup(quote) || exists c :: c in quote && HiddenControl(c)
  }

  predicate SignalClean(rules: Rules, content: string, s: Signal) {
    && Trim(s.kind) in SecurityKinds
    && var quote := EvidenceSpan(content, s.start, s.end);
       quote.Some? && MatchesKind(rules, s.kind, quote.value)
  }

  datatype SignalKey = SignalKey(kind: string, start: int, end: int)

  function SignalKeys(s: seq<Signal>): (r: seq<SignalKey>)
    ensures |r| == |s| && forall i :: 0 <= i < |s| ==> r[i] == SignalKey(s[i].kind, s[i].start, s[i].end)
  {
    seq(|s|, i requires 0 <= i < |s| => SignalKey(s[i].kind, s[i].start, s[i].end))
  }

  predicate SignalsClean(rules: Rules, content: string, s: seq<Signal>) {
    |s| <= MaxSignals && (forall i :: 0 <= i < |s| ==> SignalClean(rules, content, s[i])) && D.NoRepeats(SignalKeys(s))
  }

  method CheckSignals(rules: Rules, content: string, s: seq<Signal>) returns (ok: bool)
    ensures ok <==> SignalsClean(rules, content, s)
  {
    hide SignalClean, D.NoRepeats, D.Members;
    ok := |s| <= MaxSignals;
    var seen: set<SignalKey> := {};
    D.NoneYet(SignalKeys(s));
    for i := 0 to |s|
      invariant ok <==>
                  |s| <= MaxSignals && (forall k :: 0 <= k < i ==> SignalClean(rules, content, s[k]))
                      && D.NoRepeats(SignalKeys(s)[..i])
      invariant seen == D.Members(SignalKeys(s)[..i])
    {
      D.NoRepeatsPush(SignalKeys(s), i);
      var key := SignalKey(s[i].kind, s[i].start, s[i].end);
      if !SignalClean(rules, content, s[i]) || key in seen {
        ok := false;
      }
      seen := seen + {key};
    }
    assert SignalKeys(s)[..|s|] == SignalKeys(s);
  }

  /** One result: a rejection cites at least one distinct real signal, a pass cites none. */
  predicate SecurityClean(rules: Rules, m: map<string, Evidence>, r: SecurityResult) {
    && r.evidenceId != "" && r.evidenceId in m
    && (r.decision == "pass" || r.decision == "reject")
    && SignalsClean(rules, m[r.evidenceId].content, r.signals)
    && (r.decision == "reject" <==> r.signals != [])
  }

  function SecurityIds(s: seq<SecurityResult>): (r: seq<string>)
    ensures |r| == |s| && forall i :: 0 <= i < |s| ==> r[i] == s[i].evidenceId
  {
    seq(|s|, i requires 0 <= i < |s| => s[i].evidenceId)
  }

  predicate AllSecurityClean(rules: Rules, m: map<string, Evidence>, results: seq<SecurityResult>) {
    (forall i :: 0 <= i < |results| ==> SecurityClean(rules, m, results[i]))
        && D.OnePerTarget(m.Keys, SecurityIds(results))
  }

  method CheckSecurity(rules: Rules, m: map<string, Evidence>, results: seq<SecurityResult>) returns (ok: bool)
    ensures ok <==> AllSecurityClean(rules, m, results)
  {
    hide SignalsClean, D.NoRepeats, D.Members;
    ok := true;
    var seen: set<string> := {};
    var ids := SecurityIds(results);
    D.NoneYet(ids);
    for i := 0 to |results|
      invariant ok <==> (forall k :: 0 <= k < i ==> SecurityClean(rules, m, results[k])) && D.NoRepeats(ids[..i])
      invariant ok ==> seen == D.Members(ids[..i])
    {
      D.NoRepeatsPush(ids, i);
      var r := results[i];
      if r.evidenceId == "" || r.evidenceId !in m {
        ok := false;
        continue;
      }
      if r.evidenceId in seen {
        ok := false;
      }
      seen := seen + {r.evidenceId};
      var signals := CheckSignals(rules, m[r.evidenceId].content, r.signals);
      if (r.decision != "pass" && r.decision != "reject") || !signals
         || (r.decision == "pass" && r.signals != []) || (r.decision == "reject" && r.signals == []) {
        ok := false;
      }
    }
    assert ids[..|ids|] == ids;
    if ok {
      D.NoRepeatsSize(ids);
    }
    ok := ok && |results| == |m| && seen == m.Keys;
  }

  // ----- Equivalence results

  function TrimmedGroupIds(s: seq<EquivalenceGroup>): (r: seq<string>)
    ensures |r| == |s| && forall i :: 0 <= i < |s| ==> r[i] == Trim(s[i].evidenceId)
  {
    seq(|s|, i requires 0 <= i < |s| => Trim(s[i].evidenceId))
  }

  function TrimmedCandidateIds(s: seq<Evidence>): (r: seq<string>)
    ensures |r| == |s| && forall i :: 0 <= i < |s| ==> r[i] == Trim(s[i].id)
  {
    seq(|s|, i requires 0 <= i < |s| => Trim(s[i].id))
  }

  function TrimmedResultIds(s: seq<EquivalenceResult>): (r: seq<string>)
    ensures |r| == |s| && forall i :: 0 <= i < |s| ==> r[i] == Trim(s[i].evidenceId)
  {
    seq(|s|, i requires 0 <= i < |s| => Trim(s[i].evidenceId))
  }

  const MaxEquivalenceCandidates := 10

  predicate CandidatesClean(s: seq<Evidence>) {
    && |s| <= MaxEquivalenceCandidates
    && (forall i :: 0 <= i < |s| ==> BoundedRequired(Trim(s[i].id), MaxRef) && Trim(s[i].content) != "")
    && D.NoRepeats(TrimmedCandidateIds(s))
  }

  predicate GroupsClean(groups: seq<EquivalenceGroup>) {
    && (forall i :: 0 <= i < |groups| ==> Trim(groups[i].evidenceId) != "" && CandidatesClean(groups[i].candidates))
    && D.NoRepeats(TrimmedGroupIds(groups))
  }

  /** A choice within its group: something new, or one of the offered candidates. */
  predicate ChoiceClean(g: EquivalenceGroup, r: EquivalenceResult) {
    || (r.action == "new" && r.candidateId.None?)
    || (r.action == "reuse" && r.candidateId.Some? && Trim(r.candidateId.value) != ""
        && exists c :: c in g.candidates && c.id == Trim(r.candidateId.value))
  }

  predicate Chosen(groups: seq<EquivalenceGroup>, r: EquivalenceResult) {
    exists g :: g in groups && Trim(g.evidenceId) == Trim(r.evidenceId) && ChoiceClean(g, r)
  }

  predicate EquivalenceClean(groups: seq<EquivalenceGroup>, results: seq<EquivalenceResult>) {
    && GroupsClean(groups)
    && (forall i :: 0 <= i < |results| ==> Chosen(groups, results[i]))
    && D.OnePerTarget(D.Members(TrimmedGroupIds(groups)), TrimmedResultIds(results))
  }

  method CheckCandidates(s: seq<Evidence>) returns (ok: bool)
    ensures ok <==> CandidatesClean(s)
  {
    hide D.NoRepeats, D.Members, Trim;
    ok := true;
    var seen: set<string> := {};
    var ids := TrimmedCandidateIds(s);
    D.NoneYet(ids);
    for i := 0 to |s|
      invariant ok <==>
                  && (forall k :: 0 <= k < i ==> BoundedRequired(Trim(s[k].id), MaxRef) && Trim(s[k].content) != "")
                  && D.NoRepeats(ids[..i])
      invariant seen == D.Members(ids[..i])
    {
      D.NoRepeatsPush(ids, i);
      TrimIdempotent(s[i].id);
      var id := Trim(s[i].id);
      if id == "" || |id| > MaxRef || Trim(s[i].content) == "" || id in seen {
        ok := false;
      }
      seen := seen + {id};
    }
    assert ids[..|s|] == ids;
    ok := ok && |s| <= MaxEquivalenceCandidates;
  }

  /** The groups by trimmed id. */
  method CollectGroups(groups: seq<EquivalenceGroup>) returns (ok: bool, m: map<string, EquivalenceGroup>)
    ensures ok <==> GroupsClean(groups)
    ensures ok ==> m.Keys == D.Members(TrimmedGroupIds(groups))
    ensures ok ==> forall id :: id in m ==> m[id] in groups && Trim(m[id].evidenceId) == id
  {
    hide CandidatesClean, D.NoRepeats, D.Members, Trim;
    ok, m := true, map[];
    var ids := TrimmedGroupIds(groups);
    D.NoneYet(ids);
    for i := 0 to |groups|
      invariant ok <==>
                  && (forall k :: 0 <= k < i ==>
                      Trim(groups[k].evidenceId) != "" && CandidatesClean(groups[k].candidates))
                  && D.NoRepeats(ids[..i])
      invariant ok ==> m.Keys == D.Members(ids[..i])
      invariant ok ==> forall id :: id in m ==> m[id] in groups && Trim(m[id].evidenceId) == id
    {
      D.NoRepeatsPush(ids, i);
      var id := Trim(groups[i].evidenceId);
      if id == "" || id in m {
        ok := false;
        continue;
      }
      var candidates := CheckCandidates(groups[i].candidates);
      if !candidates {
        ok := false;
      }
      m := m[id := groups[i]];
    }
    assert ids[..|groups|] == ids;
  }

  method CheckChoice(g: EquivalenceGroup, r: EquivalenceResult) returns (ok: bool)
    ensures ok <==> ChoiceClean(g, r)
  {
    if r.action == "new" {
      return r.candidateId.None?;
    }
    if r.action != "reuse" || r.candidateId.None? || Trim(r.candidateId.value) == "" {
      return false;
    }
    for i := 0 to |g.candidates|
      invariant forall k :: 0 <= k < i ==> g.candidates[k].id != Trim(r.candidateId.value)
    {
      if g.candidates[i].id == Trim(r.candidateId.value) {
        return true;
      }
    }
    return false;
  }

  lemma {:induction false} OneGroupPerId(groups: seq<EquivalenceGroup>, g: EquivalenceGroup, h: EquivalenceGroup)
    requires D.NoRepeats(TrimmedGroupIds(groups)) && g in groups && h in groups
             && Trim(g.evidenceId) == Trim(h.evidenceId)
    ensures g == h
  {
    var i :| 0 <= i < |groups| && groups[i] == g;
    var j :| 0 <= j < |groups| && groups[j] == h;
    assert TrimmedGroupIds(groups)[i] == TrimmedGroupIds(groups)[j];
  }

  lemma {:induction false} ChosenExact(groups: seq<EquivalenceGroup>, g: EquivalenceGroup, r: EquivalenceResult)
    requires GroupsClean(groups) && g in groups && Trim(g.evidenceId) == Trim(r.evidenceId)
    ensures Chosen(groups, r) <==> ChoiceClean(g, r)
  {
    hide ChoiceClean, CandidatesClean;
    if Chosen(groups, r) {
      var h :| h in groups && Trim(h.evidenceId) == Trim(r.evidenceId) && ChoiceClean(h, r);
      OneGroupPerId(groups, g, h);
    }
  }

  lemma {:induction false} ChosenNamesGroup(groups: seq<EquivalenceGroup>, r: EquivalenceResult)
    requires Chosen(groups, r)
    ensures Trim(r.evidenceId) in D.Members(TrimmedGroupIds(groups))
  {
    var g :| g in groups && Trim(g.evidenceId) == Trim(r.evidenceId) && ChoiceClean(g, r);
    var i :| 0 <= i < |groups| && groups[i] == g;
    assert TrimmedGroupIds(groups)[i] == Trim(r.evidenceId);
  }

  /** Accepts exactly one allowlisted choice per group. */
  method CheckEquivalence(groups: seq<EquivalenceGroup>, results: seq<EquivalenceResult>) returns (ok: bool)
    ensures ok <==> EquivalenceClean(groups, results)
  {
    hide GroupsClean, Chosen, ChoiceClean, D.NoRepeats, D.Members, Trim;
    var clean, m := CollectGroups(groups);
    ok := clean;
    var seen: set<string> := {};
    var ids := TrimmedResultIds(results);
    D.NoneYet(ids);
    for i := 0 to |results|
      invariant ok <==> clean && (forall k :: 0 <= k < i ==> Chosen(groups, results[k])) && D.NoRepeats(ids[..i])
      invariant seen == D.Members(ids[..i])
    {
      D.NoRepeatsPush(ids, i);
      var id := ids[i];
      if id in seen {
        ok := false;
      }
      seen := seen + {id};
      if id !in m {
        if clean && Chosen(groups, results[i]) {
          ChosenNamesGroup(groups, results[i]);
        }
        ok := false;
        continue;
      }
      var choice := CheckChoice(m[id], results[i]);
      if clean {
        ChosenExact(groups, m[id], results[i]);
      }
      if !choice {
        ok := false;
      }
    }
    assert ids[..|ids|] == ids;
    if ok {
      D.NoRepeatsSize(ids);
    }
    ok := ok && |results| == |m| && seen == m.Keys;
  }

  // ----- Entity results

  predicate Uses(t: RelationshipTarget, ref: string) {
    t.subjectRef == ref || t.objectRef == Some(ref)
  }

  function AnswersTo(results: seq<RelationshipResult>, ref: string): seq<RelationshipResult> {
    if results == [] then []
    else AnswersTo(results[..|results| - 1], ref) + if results[|results| - 1].ref == ref then [results[|results| - 1]]
        else []
  }

  function FirstKnownId(targets: seq<EntityTarget>, ref: string): string {
    if targets == [] then "" else if targets[0].ref == ref then targets[0].knownId else FirstKnownId(targets[1..], ref)
  }

  /** The relationship has exactly one result, and it is not supported. */
  predicate OnlyUnsupported(results: seq<RelationshipResult>, ref: string) {
    |AnswersTo(results, ref)| == 1 && AnswersTo(results, ref)[0].disposition == "not_supported"
  }

  /** Reuse of a pinned entity needs no grounding if relationships use it and none of them is supported. */
  predicate UngroundedReuse(c: Option<Contract>, results: seq<RelationshipResult>, r: EntityResult) {
    && c.Some? && r.groundingRef.None? && r.action == "reuse" && r.candidateId.Some?
    && FirstKnownId(c.value.entities, r.ref) != "" && Trim(r.candidateId.value) == FirstKnownId(c.value.entities, r.ref)
    && (exists t :: t in c.value.relationships && Uses(t, r.ref))
    && (forall t :: t in c.value.relationships && Uses(t, r.ref) ==> OnlyUnsupported(results, t.ref))
  }

  /** The results of one relationship, unless one of them is supported. */
  method CountUnsupported(results: seq<RelationshipResult>, ref: string) returns (ok: bool, matches: nat)
    ensures ok && matches == 1 <==> OnlyUnsupported(results, ref)
  {
    matches := 0;
    for i := 0 to |results|
      invariant matches == |AnswersTo(results[..i], ref)|
      invariant forall a :: a in AnswersTo(results[..i], ref) ==> a.disposition == "not_supported"
    {
      assert results[..i + 1][..i] == results[..i];
      if results[i].ref == ref {
        matches := matches + 1;
        if results[i].disposition != "not_supported" {
          AnswersGrow(results, i + 1, ref);
          return false, matches;
        }
      }
    }
    assert results[..|results|] == results;
    return true, matches;
  }

  lemma {:induction false} AnswersGrow(results: seq<RelationshipResult>, i: nat, ref: string)
    requires i <= |results|
    ensures AnswersTo(results[..i], ref) <= AnswersTo(results, ref)
    decreases |results|
  {
    if i < |results| {
      var init := results[..|results| - 1];
      AnswersGrow(init, i, ref);
      assert init[..i] == results[..i];
    } else {
      assert results[..i] == results;
    }
  }

  method AllowsUngroundedReuse(c: Option<Contract>, results: seq<RelationshipResult>, r: EntityResult)
    returns (ok: bool)
    ensures ok <==> UngroundedReuse(c, results, r)
  {
    hide OnlyUnsupported;
    if c.None? || r.groundingRef.Some? || r.action != "reuse" || r.candidateId.None? {
      return false;
    }
    var known := FirstKnownId(c.value.entities, r.ref);
    if known == "" || Trim(r.candidateId.value) != known {
      return false;
    }
    var dependent := false;
    var targets := c.value.relationships;
    for i := 0 to |targets|
      invariant dependent <==> exists k :: 0 <= k < i && Uses(targets[k], r.ref)
      invariant forall k :: 0 <= k < i && Uses(targets[k], r.ref) ==> OnlyUnsupported(results, targets[k].ref)
    {
      if Uses(targets[i], r.ref) {
        dependent := true;
        var unsupported, matches := CountUnsupported(results, targets[i].ref);
        if !unsupported || matches != 1 {
          assert targets[i] in targets && !OnlyUnsupported(results, targets[i].ref);
          return false;
        }
      }
    }
    return dependent;
  }

  function MatchingCandidates(candidates: seq<EntityCandidate>, kind: string): seq<EntityCandidate> {
    if candidates == [] then [] else
    (if candidates[0].kind == kind then [candidates[0]] else []) + MatchingCandidates(candidates[1..], kind)
  }

  function KnownIdOf(c: Option<Contract>, ref: string): string {
    var t := EntityTargetOf(EntityTargets(c), ref);
    if t.Some? then t.value.knownId else ""
  }

  /** Reuse names the only candidate of that kind, or the pinned one; nothing is created beside a candidate. */
  predicate ActionClean(req: Request, r: EntityResult) {
    var group := GroupBySpan(req.entityGroups, Span(r.evidenceId, r.start, r.end));
    var matching := if group.None? then [] else MatchingCandidates(group.value.candidates, r.kind);
    match r.action
    case "reuse" =>
      && r.candidateId.Some? && r.candidateId.value != ""
      && group.Some? && !group.value.truncated
      && (exists c :: c in matching && c.id == r.candidateId.value)
      && (|matching| == 1 || KnownIdOf(req.contract, r.ref) == r.candidateId.value)
    case "create" => r.candidateId.None? && (group.Some? ==> !group.value.truncated && matching == [])
    case "ambiguous" => r.candidateId.None?
    case _ => false
  }

  predicate EntityClean(req: Request, m: map<string, Evidence>, relationships: seq<RelationshipResult>,
                        r: EntityResult) {
    && r.ref != "" && |r.ref| <= MaxRef
    && if r.groundingRef.None? then
         && (r.action == "ambiguous" || UngroundedReuse(req.contract, relationships, r))
         && (r.candidateId.Some? ==> r.action == "reuse")
       else
         && r.evidenceId in m && ExactQuote(m[r.evidenceId].content, r.start, r.end, r.surface)
         && Trim(r.kind) in EntityKinds && ActionClean(req, r)
  }

  function LogicalKey(rules: Rules, t: EntityTarget, r: EntityResult): string {
    if r.candidateId.Some? && Trim(r.candidateId.value) != "" then "candidate\0" + Trim(r.candidateId.value)
    else rules.lower(Squeezed(Trim(t.name))) + "\0" + Trim(t.kind)
  }

  function LogicalKeyOf(rules: Rules, c: Option<Contract>, r: EntityResult): Option<string> {
    var t := EntityTargetOf(EntityTargets(c), r.ref);
    if t.None? then None else Some(LogicalKey(rules, t.value, r))
  }

  function EntitySpan(r: EntityResult): Span {
    Span(r.evidenceId, r.start, r.end)
  }

  /** Two grounded results may share a span only as the same logical entity. */
  predicate SpansShared(rules: Rules, c: Option<Contract>, a: EntityResult, b: EntityResult) {
    a.groundingRef.Some? && b.groundingRef.Some? && EntitySpan(a) == EntitySpan(b) ==>
      LogicalKeyOf(rules, c, a).Some? && LogicalKeyOf(rules, c, a) == LogicalKeyOf(rules, c, b)
  }

  predicate AllSpansShared(rules: Rules, c: Option<Contract>, s: seq<EntityResult>) {
    forall i, j :: 0 <= i < j < |s| ==> SpansShared(rules, c, s[i], s[j])
  }

  function EntityRefs(s: seq<EntityResult>): (r: seq<string>)
    ensures |r| == |s| && forall i :: 0 <= i < |s| ==> r[i] == s[i].ref
  {
    seq(|s|, i requires 0 <= i < |s| => s[i].ref)
  }

  predicate AllEntitiesClean(rules: Rules, req: Request, m: map<string, Evidence>,
                             relationships: seq<RelationshipResult>,
                             results: seq<EntityResult>) {
    && (forall i :: 0 <= i < |results| ==> EntityClean(req, m, relationships, results[i]))
    && D.NoRepeats(EntityRefs(results)) && AllSpansShared(rules, req.contract, results)
  }

  function GroundedSpans(s: seq<EntityResult>): set<Span> {
    set r | r in s && r.groundingRef.Some? :: EntitySpan(r)
  }

  /** The grounded spans seen so far, each with the logical key of the results there. */
  ghost predicate SpansSeen(rules: Rules, c: Option<Contract>, s: seq<EntityResult>,
                            logical: map<Span, Option<string>>) {
    && logical.Keys == GroundedSpans(s)
    && (forall r :: r in s && r.groundingRef.Some? ==>
        EntitySpan(r) in logical && logical[EntitySpan(r)] == LogicalKeyOf(rules, c, r))
  }

  lemma {:induction false} NewSpan(rules: Rules, c: Option<Contract>, s: seq<EntityResult>,
                                   logical: map<Span, Option<string>>, r: EntityResult)
    requires SpansSeen(rules, c, s, logical) && AllSpansShared(rules, c, s) && r.groundingRef.Some?
             && EntitySpan(r) !in logical
    ensures AllSpansShared(rules, c, s + [r])
            && SpansSeen(rules, c, s + [r], logical[EntitySpan(r) := LogicalKeyOf(rules, c, r)])
  {
    hide LogicalKeyOf, EntitySpan;
    assert forall x :: x in s && x.groundingRef.Some? ==> EntitySpan(x) != EntitySpan(r);
    assert GroundedSpans(s + [r]) == GroundedSpans(s) + {EntitySpan(r)};
  }

  lemma {:induction false} SeenSpan(rules: Rules, c: Option<Contract>, s: seq<EntityResult>,
                                    logical: map<Span, Option<string>>, r: EntityResult)
    requires SpansSeen(rules, c, s, logical) && AllSpansShared(rules, c, s) && r.groundingRef.Some?
             && EntitySpan(r) in logical
    ensures AllSpansShared(rules, c, s + [r]) <==>
              logical[EntitySpan(r)].Some? && logical[EntitySpan(r)] == LogicalKeyOf(rules, c, r)
    ensures AllSpansShared(rules, c, s + [r]) ==> SpansSeen(rules, c, s + [r], logical)
  {
    hide LogicalKeyOf, EntitySpan;
    var x :| x in s && x.groundingRef.Some? && EntitySpan(x) == EntitySpan(r);
    var k :| 0 <= k < |s| && s[k] == x;
    var t := s + [r];
    assert t[k] == x && t[|s|] == r;
    if AllSpansShared(rules, c, t) {
      assert SpansShared(rules, c, t[k], t[|s|]);
      assert GroundedSpans(t) == GroundedSpans(s) + {EntitySpan(r)};
    }
  }

  lemma {:induction false} SpansSkip(rules: Rules, c: Option<Contract>, s: seq<EntityResult>,
                                     logical: map<Span, Option<string>>, r: EntityResult)
    requires r.groundingRef.None?
    ensures AllSpansShared(rules, c, s + [r]) <==> AllSpansShared(rules, c, s)
    ensures SpansSeen(rules, c, s, logical) ==> SpansSeen(rules, c, s + [r], logical)
  {
    hide LogicalKeyOf, EntitySpan;
    assert GroundedSpans(s + [r]) == GroundedSpans(s);
    var t := s + [r];
    assert forall k :: 0 <= k < |s| ==> t[k] == s[k];
    if AllSpansShared(rules, c, t) {
      assert forall i, j :: 0 <= i < j < |s| ==> SpansShared(rules, c, t[i], t[j]);
    }
  }

  lemma {:induction false} SharedPrefix(rules: Rules, c: Option<Contract>, s: seq<EntityResult>, i: nat)
    requires i < |s| && AllSpansShared(rules, c, s[..i + 1])
    ensures AllSpansShared(rules, c, s[..i])
  {
    hide SpansShared;
    assert forall j :: 0 <= j < i ==> s[..i][j] == s[..i + 1][j];
  }

  function Surfaced(m: map<string, Evidence>, r: EntityResult): EntityResult {
    if r.groundingRef.None? || r.evidenceId !in m
        || !ExactQuote(m[r.evidenceId].content, r.start, r.end, r.surface) then r
    else r.(surface := EvidenceSpan(m[r.evidenceId].content, r.start, r.end).value)
  }

  function AllSurfaced(m: map<string, Evidence>, s: seq<EntityResult>): (r: seq<EntityResult>)
    ensures |r| == |s| && forall i :: 0 <= i < |s| ==> r[i] == Surfaced(m, s[i])
  {
    seq(|s|, i requires 0 <= i < |s| => Surfaced(m, s[i]))
  }

  method CheckEntity(req: Request, m: map<string, Evidence>, relationships: seq<RelationshipResult>, r: EntityResult)
    returns (ok: bool)
    ensures ok <==> EntityClean(req, m, relationships, r)
  {
    hide ExactQuote, ActionClean, UngroundedReuse;
    ok := r.ref != "" && |r.ref| <= MaxRef;
    if r.groundingRef.None? {
      var allowed := AllowsUngroundedReuse(req.contract, relationships, r);
      ok := ok && (r.action == "ambiguous" || allowed) && (r.candidateId.None? || r.action == "reuse");
    } else if r.evidenceId !in m {
      ok := false;
    } else {
      ok := ok && ExactQuote(m[r.evidenceId].content, r.start, r.end, r.surface) && Trim(r.kind) in EntityKinds
          && ActionClean(req, r);
    }
  }

  /** Checks the entity results and writes the exact surface into each grounded one. */
  method CheckEntities(rules: Rules, req: Request, m: map<string, Evidence>, relationships: seq<RelationshipResult>,
                       results: seq<EntityResult>) returns (ok: bool, out: seq<EntityResult>)
    ensures ok <==> AllEntitiesClean(rules, req, m, relationships, results)
    ensures ok ==> out == AllSurfaced(m, results)
  {
    hide EntityClean, AllSpansShared, SpansSeen, Surfaced, LogicalKeyOf, D.NoRepeats, D.Members;
    ok, out := true, [];
    var seen: set<string> := {};
    var logical: map<Span, Option<string>> := map[];
    var refs := EntityRefs(results);
    NoSpans(rules, req.contract);
    D.NoneYet(refs);
    for i := 0 to |results|
      invariant |out| == i && forall k :: 0 <= k < i ==> out[k] == Surfaced(m, results[k])
      invariant ok <==>
                  && (forall k :: 0 <= k < i ==> EntityClean(req, m, relationships, results[k]))
                  && D.NoRepeats(refs[..i]) && AllSpansShared(rules, req.contract, results[..i])
      invariant seen == D.Members(refs[..i])
      invariant ok ==> SpansSeen(rules, req.contract, results[..i], logical)
    {
      var r := results[i];
      D.NoRepeatsPush(refs, i);
      assert results[..i + 1] == results[..i] + [r];
      SpansStep(rules, req.contract, results, logical, i);
      if refs[i] in seen {
        ok := false;
      }
      seen := seen + {refs[i]};
      var clean := CheckEntity(req, m, relationships, r);
      if !clean {
        ok := false;
      }
      if r.groundingRef.Some? {
        var key := LogicalKeyOf(rules, req.contract, r);
        if EntitySpan(r) in logical {
          if logical[EntitySpan(r)].None? || logical[EntitySpan(r)] != key {
            ok := false;
          }
        } else {
          logical := logical[EntitySpan(r) := key];
        }
      }
      out := out + [Surfaced(m, r)];
    }
    assert refs[..|refs|] == refs && results[..|results|] == results;
  }

  lemma {:induction false} NoSpans(rules: Rules, c: Option<Contract>)
    ensures AllSpansShared(rules, c, []) && SpansSeen(rules, c, [], map[])
  {
  }

  lemma {:induction false} SpansStep(rules: Rules, c: Option<Contract>, s: seq<EntityResult>,
                                     logical: map<Span, Option<string>>, i: nat)
    requires i < |s|
    ensures AllSpansShared(rules, c, s[..i + 1]) ==> AllSpansShared(rules, c, s[..i])
    ensures var r := s[i];
            AllSpansShared(rules, c, s[..i]) && SpansSeen(rules, c, s[..i], logical) ==>
              if r.groundingRef.None? then AllSpansShared(rules, c, s[..i + 1])
                  && SpansSeen(rules, c, s[..i + 1], logical)
              else if EntitySpan(r) !in logical then
                AllSpansShared(rules, c, s[..i + 1])
                    && SpansSeen(rules, c, s[..i + 1], logical[EntitySpan(r) := LogicalKeyOf(rules, c, r)])
              else
                && (AllSpansShared(rules, c, s[..i + 1]) <==>
                    logical[EntitySpan(r)].Some? && logical[EntitySpan(r)] == LogicalKeyOf(rules, c, r))
                && (AllSpansShared(rules, c, s[..i + 1]) ==> SpansSeen(rules, c, s[..i + 1], logical))
  {
    hide AllSpansShared, SpansSeen, LogicalKeyOf;
    assert s[..i + 1] == s[..i] + [s[i]];
    if AllSpansShared(rules, c, s[..i + 1]) {
      SharedPrefix(rules, c, s, i);
    }
    if AllSpansShared(rules, c, s[..i]) && SpansSeen(rules, c, s[..i], logical) {
      if s[i].groundingRef.None? {
        SpansSkip(rules, c, s[..i], logical, s[i]);
      } else {
        if EntitySpan(s[i]) in logical {
          SeenSpan(rules, c, s[..i], logical, s[i]);
        } else {
          NewSpan(rules, c, s[..i], logical, s[i]);
        }
      }
    }
  }
}
