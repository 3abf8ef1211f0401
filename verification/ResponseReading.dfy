/** An accepted response says what the assessor's answer said: every result stands at its place, with its fields trimmed
    and every reference turned into the offset it names. */
module ResponseReading {
  import opened Options
  import opened Text
  import opened Boundaries
  import opened EvidenceConflicts
  import opened Assessment
  import opened ResponseChecks
  import R = RelationshipChecks
  import D = Distinct
  import opened ResponseContract
  import opened AcceptedResponse

  // ----- Ranges

  /** The range keeps its evidence and its two references, and lies exactly between the places they name there. */
  predicate ReadsRange(m: map<string, Evidence>, given: Range, r: Range) {
    && r.evidenceId == Trim(given.evidenceId) && r.startRef == Trim(given.startRef) && r.endRef == Trim(given.endRef)
    && r.evidenceId in m && 0 <= r.start < r.end
    && BoundaryOffset(m[r.evidenceId], r.startRef) == Some(r.start)
    && BoundaryOffset(m[r.evidenceId], r.endRef) == Some(r.end)
  }

  lemma {:induction false} ResolvedRangeReads(m: map<string, Evidence>, given: Range)
    requires ResolvedRange(m, NormalRange(given)).0
    ensures ReadsRange(m, given, ResolvedRange(m, NormalRange(given)).1)
  {
    hide Trim;
    TrimIdempotent(given.evidenceId);
    TrimIdempotent(given.startRef);
    TrimIdempotent(given.endRef);
  }

  // ----- Splits

  /** A blank time is absent, a timestamp is rewritten, anything else stays as it came. */
  predicate ReadsTime(rules: Rules, given: Option<string>, t: Option<string>) {
    if given.None? || Trim(given.value) == "" then t.None?
    else if rules.parseTime(Trim(given.value)).Some? then
      t == Some(rules.formatTime(rules.parseTime(Trim(given.value)).value))
    else t == given
  }

  predicate ReadsText(given: Option<string>, t: Option<string>) {
    t.Some? == given.Some? && (given.Some? ==> t.value == Trim(given.value))
  }

  predicate ReadsValue(given: Option<Value>, v: Option<Value>) {
    && v.Some? == given.Some?
    && (given.Some? ==>
          && v.value.valueType == Trim(given.value.valueType) && v.value.canonical == Trim(given.value.canonical)
          && ReadsText(given.value.display, v.value.display) && ReadsText(given.value.unit, v.value.unit))
  }

  predicate ReadsRegistration(given: Option<Registration>, r: Option<Registration>) {
    && r.Some? == given.Some?
    && (given.Some? ==>
          && r.value.key == Trim(given.value.key) && r.value.kind == Trim(given.value.kind)
          && r.value.cardinality == Trim(given.value.cardinality))
  }

  predicate ReadsSupports(m: map<string, Evidence>, given: seq<Range>, supports: seq<Range>, evidence: seq<Span>) {
    |supports| == |evidence| == |given|
    && forall k :: 0 <= k < |given| ==>
         && ReadsRange(m, given[k], supports[k])
         && evidence[k] == Span(supports[k].evidenceId, supports[k].start, supports[k].end)
  }

  predicate ReadsFields(rules: Rules, given: Split, s: Split) {
    && s.index == given.index && s.version == given.version
    && s.subjectRef == Trim(given.subjectRef) && s.status == Trim(given.status) && s.polarity == Trim(given.polarity)
    && ReadsText(given.key, s.key) && ReadsText(given.objectRef, s.objectRef)
    && ReadsRegistration(given.registration, s.registration) && ReadsValue(given.objectValue, s.objectValue)
    && ReadsTime(rules, given.validFrom, s.validFrom) && ReadsTime(rules, given.validTo, s.validTo)
  }

  /** Every range of the split lies where its own references point, the phrase is the text there, and the evidence is
      the list of the supports. */
  predicate ReadsRanges(m: map<string, Evidence>, given: Split, s: Split) {
    && ReadsRange(m, given.predicateRange, s.predicateRange)
    && s.predicateRange.end <= |m[s.predicateRange.evidenceId].content|
    && s.phrase == m[s.predicateRange.evidenceId].content[s.predicateRange.start..s.predicateRange.end]
    && s.valueRange.Some? == given.valueRange.Some?
    && (given.valueRange.Some? ==> ReadsRange(m, given.valueRange.value, s.valueRange.value))
    && ReadsSupports(m, given.supports, s.supports, s.evidence)
  }

  lemma {:induction false} SupportsRead(m: map<string, Evidence>, given: seq<Range>)
    requires RangesResolve(m, NormalRanges(given))
    ensures ReadsSupports(m, given, ResolvedRanges(m, NormalRanges(given)), SupportSpans(m, NormalRanges(given)))
  {
    hide ResolvedRange, ReadsRange;
    SpansOfSupports(m, NormalRanges(given));
    forall k | 0 <= k < |given|
      ensures ReadsRange(m, given[k], ResolvedRanges(m, NormalRanges(given))[k])
    {
      ResolvedRangeReads(m, given[k]);
    }
  }

  lemma {:induction false} ResolvedSplitReads(rules: Rules, m: map<string, Evidence>, given: Split)
    requires ResolvedSplit(m, NormalSplit(rules, given)).0
    requires TextOf(m, ResolvedRange(m, NormalRange(given.predicateRange)).1) != ""
    ensures ReadsFields(rules, given, ResolvedSplit(m, NormalSplit(rules, given)).1)
    ensures ReadsRanges(m, given, ResolvedSplit(m, NormalSplit(rules, given)).1)
  {
    hide ResolvedRange, RangesResolve, SupportSpans, ResolvedRanges, Trim;
    ResolvedRangeReads(m, given.predicateRange);
    SupportsRead(m, given.supports);
    if given.valueRange.Some? {
      ResolvedRangeReads(m, given.valueRange.value);
    }
  }

  /** Every relationship result and every split of it, at its place in the answer. */
  lemma {:induction false} SplitsReadTheAnswer(rules: Rules, tokens: Answer -> Option<int>, req: Request,
                                               citable: map<string, Citable>,
                                               raw: Answer, n: Answer, r: Answer, out: Answer, i: nat)
    requires AcceptedAs(rules, tokens, req, citable, raw, n, r, out)
    requires out.relationships.Some? && i < |out.relationships.value|
    ensures raw.relationships.Some? && |raw.relationships.value| == |out.relationships.value|
    ensures var given, result := raw.relationships.value[i], out.relationships.value[i];
            && result.ref == Trim(given.ref) && result.disposition == Trim(given.disposition)
            && ReadsText(given.reason, result.reason) && |result.splits| == |given.splits|
            && forall j :: 0 <= j < |result.splits| ==>
                 && ReadsFields(rules, given.splits[j], result.splits[j])
                 && ReadsRanges(AllEvidence(req), given.splits[j], result.splits[j])
  {
    hide AcceptedAs, AllEvidence, Trim, ResolvedSplit, NormalSplit, ReadsFields, ReadsRanges, WithinShape;
    hide EachSecurityNormal, EachEquivalenceNormal, EachEntityNormal, EachSecurityResolved, EachEntityResolved;
    RelationshipParts(rules, tokens, req, citable, raw, n, r, out);
    var m, given, result := AllEvidence(req), raw.relationships.value[i], out.relationships.value[i];
    assert result == ResolvedRelationship(m, n.relationships.value[i]).1;
    assert n.relationships.value[i] == NormalRelationship(rules, given);
    forall j | 0 <= j < |result.splits|
      ensures ReadsFields(rules, given.splits[j], result.splits[j]) && ReadsRanges(m, given.splits[j], result.splits[j])
    {
      assert ResolvedSplit(m, NormalSplit(rules, given.splits[j])).0;
      PhraseIsText(rules, req, m, n.relationships.value[i].splits[j], Items(out.entities), j);
      NormalPredicateRange(rules, given.splits[j]);
      ResolvedSplitReads(rules, m, given.splits[j]);
    }
  }

  lemma {:induction false} RelationshipParts(rules: Rules, tokens: Answer -> Option<int>, req: Request,
                                             citable: map<string, Citable>, raw: Answer, n: Answer, r: Answer,
                                             out: Answer)
    requires AcceptedAs(rules, tokens, req, citable, raw, n, r, out)
    ensures raw.relationships.Some? && n.relationships.Some? && out.relationships.Some? && out.entities.Some?
    ensures EachRelationshipNormal(rules, raw.relationships.value, n.relationships.value)
    ensures EachRelationshipResolved(AllEvidence(req), n.relationships.value, out.relationships.value)
    ensures RelationshipsResolve(AllEvidence(req), n.relationships.value)
    ensures R.AllRelationshipsClean(rules, req.predicates, AllEvidence(req), out.entities.value,
            out.relationships.value)
  {
    hide AllSecurityClean, EquivalenceClean, AllEntitiesClean, R.AllRelationshipsClean, R.AllMet, R.ContractKept;
    hide EachRelationshipNormal, EachRelationshipResolved, RelationshipsResolve, AllSurfaced, AllEvidence;
    hide AcceptedConflicts;
    hide EachSecurityNormal, EachEquivalenceNormal, EachEntityNormal, EachSecurityResolved, EachEntityResolved;
    hide SecurityResolves, EntitiesResolve, Trim;
  }

  lemma {:induction false} NormalPredicateRange(rules: Rules, s: Split)
    ensures NormalSplit(rules, s).predicateRange == NormalRange(s.predicateRange)
  {
  }

  lemma {:induction false} PhraseIsText(rules: Rules, req: Request, m: map<string, Evidence>, s: Split,
                                        entities: seq<EntityResult>, j: nat)
    requires ResolvedSplit(m, s).0
    requires R.SplitClean(rules, req.predicates, m, entities, j, ResolvedSplit(m, s).1)
    ensures TextOf(m, ResolvedRange(m, s.predicateRange).1) != ""
  {
    hide ResolvedRange, RangesResolve, SupportSpans, ResolvedRanges, TextOf;
    hide R.ObjectKind, R.PredicateClean, R.EvidenceClean, R.ValidityClean;
  }

  /** A range resolves exactly when its evidence and both references are known there, the first before the second. */
  lemma {:induction false} RangeResolvesExactly(m: map<string, Evidence>, given: Range)
    ensures ResolvedRange(m, NormalRange(given)).0 <==>
              && Trim(given.evidenceId) in m
              && var e := m[Trim(given.evidenceId)];
                 && BoundaryOffset(e, given.startRef).Some? && BoundaryOffset(e, given.endRef).Some?
                 && BoundaryOffset(e, given.startRef).value < BoundaryOffset(e, given.endRef).value
  {
    hide Trim;
    TrimIdempotent(given.evidenceId);
    TrimIdempotent(given.startRef);
    TrimIdempotent(given.endRef);
  }

  // ----- Entities

  predicate ReadsEntity(given: EntityResult, e: EntityResult) {
    && e.ref == Trim(given.ref) && e.action == Trim(given.action) && ReadsText(given.candidateId, e.candidateId)
    && ReadsText(given.groundingRef, e.groundingRef) && ReadsText(given.anchorRef, e.anchorRef)
  }

  /** An anchored grounding is used with its anchor, which comes first and offers the reused candidate; any
      other without. */
  predicate UsesAnchor(m: map<string, Evidence>, t: EntityTarget, g: Grounding, e: EntityResult) {
    if g.anchorRef == "" then e.anchorRef.None? || e.anchorRef.value == ""
    else
      && e.anchorRef == Some(g.anchorRef) && e.action == "reuse" && e.candidateId.Some?
      && exists a ::
           && a in t.anchors && a.ref == Trim(g.anchorRef)
           && AnchorPrecedes(m, a, g) && e.candidateId.value in a.candidates
  }

  predicate LiesAt(e: EntityResult, evidenceId: string, start: int, end: int) {
    e.evidenceId == evidenceId && e.start == start && e.end == end
  }

  /** The result lies on the submitted grounding it names, or without a submission on the group it names. */
  ghost predicate LiesOnGrounding(req: Request, m: map<string, Evidence>, e: EntityResult)
    requires e.groundingRef.Some?
  {
    if exists t :: t in EntityTargets(req.contract) && t.ref == e.ref then
      exists t, g ::
          t in EntityTargets(req.contract) && t.ref == e.ref && g in t.groundings && g.ref == e.groundingRef.value
          && LiesAt(e, g.evidenceId, g.start, g.end) && UsesAnchor(m, t, g, e)
    else
      && (e.anchorRef.None? || e.anchorRef.value == "")
      && exists g ::
           g in req.entityGroups && g.groundingRef == e.groundingRef.value && LiesAt(e, g.evidenceId, g.start, g.end)
  }

  /** The kind is that of the chosen candidate in the group of the grounding, else the submitted one, else the
      given one. */
  ghost predicate HasKind(req: Request, given: EntityResult, e: EntityResult) {
    || (e.groundingRef.Some? && exists g, c :: g in req.entityGroups && g.groundingRef == e.groundingRef.value
                                               && c in g.candidates && Some(c.id) == e.candidateId && e.kind == c.kind)
    || (exists t :: t in EntityTargets(req.contract) && t.ref == e.ref && e.kind == t.kind)
    || ((forall t :: t in EntityTargets(req.contract) ==> t.ref != e.ref) && e.kind == given.kind)
  }

  lemma {:induction false} CandidateKindIs(candidates: seq<EntityCandidate>, id: string, otherwise: string)
    ensures CandidateKind(candidates, id, otherwise) == otherwise
         || exists c :: c in candidates && c.id == id && c.kind == CandidateKind(candidates, id, otherwise)
  {
    if candidates != [] && candidates[0].id != id {
      CandidateKindIs(candidates[1..], id, otherwise);
    }
  }

  lemma {:induction false} ResolvedEntityFields(req: Request, m: map<string, Evidence>, given: EntityResult)
    requires ResolvedEntity(req, m, NormalEntity(given)).0
    ensures ReadsEntity(given, ResolvedEntity(req, m, NormalEntity(given)).1)
  {
    hide Trim, AnchorPrecedes, AnchorKept, GroupByRef, EntityTargetOf, GroundingByRef, CandidateKind;
    if given.groundingRef.Some? {
      TrimIdempotent(given.groundingRef.value);
    }
  }

  lemma {:induction false} ResolvedEntityKind(req: Request, m: map<string, Evidence>, given: EntityResult)
    requires ResolvedEntity(req, m, NormalEntity(given)).0
    ensures HasKind(req, given, ResolvedEntity(req, m, NormalEntity(given)).1)
  {
    hide Trim, AnchorPrecedes, AnchorKept, GroupByRef, EntityTargetOf, GroundingByRef, CandidateKind;
    if given.groundingRef.Some? {
      TrimIdempotent(given.groundingRef.value);
      var group := GroupByRef(req.entityGroups, Trim(given.groundingRef.value));
      if group.Some? && given.candidateId.Some? {
        var t := EntityTargetOf(EntityTargets(req.contract), Trim(given.ref));
        CandidateKindIs(group.value.candidates, Trim(given.candidateId.value),
                        if t.Some? then t.value.kind else given.kind);
      }
    }
  }

  lemma {:induction false} AnchorIsUsed(m: map<string, Evidence>, t: EntityTarget, g: Grounding, r: EntityResult,
                                        e: EntityResult)
    requires AnchorKept(m, t, g, r) && e.action == r.action && e.candidateId == r.candidateId
             && e.anchorRef == r.anchorRef
    requires r.anchorRef.Some? ==> Trim(r.anchorRef.value) == r.anchorRef.value
    ensures UsesAnchor(m, t, g, e)
  {
    hide Trim, AnchorPrecedes;
  }

  lemma {:induction false} ResolvedEntityPlace(req: Request, m: map<string, Evidence>, given: EntityResult)
    requires ResolvedEntity(req, m, NormalEntity(given)).0 && given.groundingRef.Some?
    ensures var e := ResolvedEntity(req, m, NormalEntity(given)).1; e.groundingRef.Some? && LiesOnGrounding(req, m, e)
  {
    hide Trim, AnchorPrecedes, AnchorKept, GroupByRef, EntityTargetOf, GroundingByRef, CandidateKind, UsesAnchor;
    var r, e := NormalEntity(given), ResolvedEntity(req, m, NormalEntity(given)).1;
    TrimIdempotent(given.groundingRef.value);
    if given.anchorRef.Some? {
      TrimIdempotent(given.anchorRef.value);
    }
    var t := EntityTargetOf(EntityTargets(req.contract), r.ref);
    if t.Some? {
      var g := GroundingByRef(t.value.groundings, r.groundingRef.value);
      AnchorIsUsed(m, t.value, g.value, r, e);
      assert LiesAt(e, g.value.evidenceId, g.value.start, g.value.end);
    } else {
      var group := GroupByRef(req.entityGroups, r.groundingRef.value);
      assert LiesAt(e, group.value.evidenceId, group.value.start, group.value.end);
    }
  }

  lemma {:induction false} ResolvedEntityReads(req: Request, m: map<string, Evidence>, given: EntityResult)
    requires ResolvedEntity(req, m, NormalEntity(given)).0
    ensures var e := ResolvedEntity(req, m, NormalEntity(given)).1;
            && ReadsEntity(given, e) && HasKind(req, given, e)
            && (e.groundingRef.Some? ==> LiesOnGrounding(req, m, e))
  {
    hide ResolvedEntity, NormalEntity, HasKind, LiesOnGrounding;
    ResolvedEntityFields(req, m, given);
    ResolvedEntityKind(req, m, given);
    if given.groundingRef.Some? {
      ResolvedEntityPlace(req, m, given);
    }
  }

  lemma {:induction false} EntityParts(rules: Rules, tokens: Answer -> Option<int>, req: Request,
                                       citable: map<string, Citable>, raw: Answer, n: Answer, r: Answer, out: Answer)
    requires AcceptedAs(rules, tokens, req, citable, raw, n, r, out)
    ensures raw.entities.Some? && n.entities.Some? && r.entities.Some? && out.entities.Some?
    ensures EachEntityNormal(raw.entities.value, n.entities.value)
    ensures EachEntityResolved(req, AllEvidence(req), n.entities.value, r.entities.value)
    ensures EntitiesResolve(req, AllEvidence(req), n.entities.value)
    ensures out.entities.value == AllSurfaced(AllEvidence(req), r.entities.value)
  {
    hide AllSecurityClean, EquivalenceClean, AllEntitiesClean, R.AllRelationshipsClean, R.AllMet, R.ContractKept;
    hide EachRelationshipNormal, EachRelationshipResolved, RelationshipsResolve, AllSurfaced, AllEvidence;
    hide AcceptedConflicts;
    hide EachSecurityNormal, EachEquivalenceNormal, EachEntityNormal, EachSecurityResolved, EachEntityResolved;
    hide SecurityResolves, EntitiesResolve, Trim;
  }

  /** Every entity result, at its place in the answer, on the grounding it names. */
  lemma {:induction false} EntitiesReadTheAnswer(rules: Rules, tokens: Answer -> Option<int>, req: Request,
                                                 citable: map<string, Citable>,
                                                 raw: Answer, n: Answer, r: Answer, out: Answer, i: nat)
    requires AcceptedAs(rules, tokens, req, citable, raw, n, r, out)
    requires out.entities.Some? && i < |out.entities.value|
    ensures raw.entities.Some? && |raw.entities.value| == |out.entities.value|
    ensures var given, e := raw.entities.value[i], out.entities.value[i];
            && ReadsEntity(given, e) && HasKind(req, given, e)
            && (e.groundingRef.Some? ==> LiesOnGrounding(req, AllEvidence(req), e))
  {
    hide AcceptedAs, AllEvidence, Trim, ResolvedEntity, NormalEntity, ExactQuote;
    EntityParts(rules, tokens, req, citable, raw, n, r, out);
    var m, given, e := AllEvidence(req), raw.entities.value[i], out.entities.value[i];
    assert n.entities.value[i] == NormalEntity(given);
    assert r.entities.value[i] == ResolvedEntity(req, m, n.entities.value[i]).1;
    ResolvedEntityReads(req, m, given);
    SurfaceAside(req, m, given, r.entities.value[i], e);
  }

  lemma {:induction false} SurfaceAside(req: Request, m: map<string, Evidence>, given: EntityResult, e: EntityResult,
                                        f: EntityResult)
    requires f == e.(surface := f.surface) && ReadsEntity(given, e) && HasKind(req, given, e)
    requires e.groundingRef.Some? ==> LiesOnGrounding(req, m, e)
    ensures ReadsEntity(given, f) && HasKind(req, given, f)
    ensures f.groundingRef.Some? ==> LiesOnGrounding(req, m, f)
  {
    hide Trim, AnchorPrecedes;
    if f.groundingRef.Some? {
      if t, g :| t in EntityTargets(req.contract) && t.ref == e.ref
                 && g in t.groundings && g.ref == e.groundingRef.value
                 && LiesAt(e, g.evidenceId, g.start, g.end) && UsesAnchor(m, t, g, e) {
        assert LiesAt(f, g.evidenceId, g.start, g.end) && UsesAnchor(m, t, g, f);
      }
      if g :| g in req.entityGroups && g.groundingRef == e.groundingRef.value
              && LiesAt(e, g.evidenceId, g.start, g.end) {
        assert LiesAt(f, g.evidenceId, g.start, g.end);
      }
    }
  }

  // ----- Security signals

  /** A signal lies in the submitted evidence of its result, between the places its references name. */
  predicate LiesBetween(m: map<string, Evidence>, id: string, s: Signal) {
    && id in m && s.evidenceId == id && 0 <= s.start < s.end
    && BoundaryOffset(m[id], s.startRef) == Some(s.start) && BoundaryOffset(m[id], s.endRef) == Some(s.end)
  }

  predicate SameSignal(given: Signal, s: Signal) {
    s.kind == given.kind && s.startRef == given.startRef && s.endRef == given.endRef
  }

  /** Signals of its own are kept in order and trimmed; without any, the result takes those of the older flat list. */
  ghost predicate ReadsSignals(legacy: seq<Signal>, id: string, given: seq<Signal>, signals: seq<Signal>) {
    && (given != [] ==>
          |signals| == |given| && forall k :: 0 <= k < |given| ==>
            && signals[k].kind == Trim(given[k].kind)
            && signals[k].startRef == Trim(given[k].startRef) && signals[k].endRef == Trim(given[k].endRef))
    && (given == [] ==>
          && (forall s :: s in signals ==> exists x :: x in legacy && Trim(x.evidenceId) == id && SameSignal(x, s))
          && (forall x :: x in legacy && Trim(x.evidenceId) == id ==> exists s :: s in signals && SameSignal(x, s)))
  }

  lemma {:induction false} SignalsForMembers(legacy: seq<Signal>, id: string)
    ensures forall x :: x in SignalsFor(legacy, id) <==> x in legacy && Trim(x.evidenceId) == id
  {
    hide Trim;
    if legacy != [] {
      SignalsForMembers(legacy[1..], id);
      assert forall x :: x in legacy <==> x == legacy[0] || x in legacy[1..];
    }
  }

  lemma {:induction false} ResolvedSecurityReads(rules: Rules, legacy: seq<Signal>, m: map<string, Evidence>,
                                                 given: SecurityResult)
    requires ResolvedSecurity(m, NormalSecurity(legacy, given)).0
    requires SecurityClean(rules, m, ResolvedSecurity(m, NormalSecurity(legacy, given)).1)
    ensures var result := ResolvedSecurity(m, NormalSecurity(legacy, given)).1;
            && result.evidenceId == Trim(given.evidenceId) && result.decision == Trim(given.decision)
            && ReadsSignals(legacy, result.evidenceId, given.signals, result.signals)
            && forall k :: 0 <= k < |result.signals| ==> LiesBetween(m, result.evidenceId, result.signals[k])
  {
    hide Trim, SignalsClean;
    var id, normal := Trim(given.evidenceId), NormalSecurity(legacy, given);
    var result := ResolvedSecurity(m, normal).1;
    assert forall k :: 0 <= k < |normal.signals| ==> SameSignal(normal.signals[k], result.signals[k]);
    forall k | 0 <= k < |result.signals|
      ensures LiesBetween(m, id, result.signals[k])
    {
      assert ResolvedSignal(m, id, normal.signals[k]).0;
    }
    if given.signals == [] {
      SignalsForMembers(legacy, id);
      forall x | x in legacy && Trim(x.evidenceId) == id
        ensures exists s :: s in result.signals && SameSignal(x, s)
      {
        var k :| 0 <= k < |normal.signals| && normal.signals[k] == x;
        assert result.signals[k] in result.signals;
      }
      forall s | s in result.signals
        ensures exists x :: x in legacy && Trim(x.evidenceId) == id && SameSignal(x, s)
      {
        var k :| 0 <= k < |result.signals| && result.signals[k] == s;
        assert normal.signals[k] in legacy;
      }
    }
  }

  lemma {:induction false} SecurityParts(rules: Rules, tokens: Answer -> Option<int>, req: Request,
                                         citable: map<string, Citable>, raw: Answer, n: Answer, r: Answer, out: Answer)
    requires AcceptedAs(rules, tokens, req, citable, raw, n, r, out)
    ensures n.security.Some? && out.security.Some? && SecurityInput(raw).Some?
    ensures EachSecurityNormal(raw.legacySignals, SecurityInput(raw).value, n.security.value)
    ensures EachSecurityResolved(Submitted(req), n.security.value, out.security.value)
    ensures SecurityResolves(Submitted(req), n.security.value)
    ensures forall i :: 0 <= i < |out.security.value| ==> SecurityClean(rules, Submitted(req), out.security.value[i])
  {
    hide EquivalenceClean, AllEntitiesClean, R.AllRelationshipsClean, R.AllMet, R.ContractKept;
    hide EachRelationshipNormal, EachRelationshipResolved, RelationshipsResolve, AllSurfaced, AllEvidence;
    hide AcceptedConflicts;
    hide EachSecurityNormal, EachEquivalenceNormal, EachEntityNormal, EachSecurityResolved, EachEntityResolved;
    hide SecurityResolves, EntitiesResolve, Trim, SecurityClean, D.OnePerTarget, SecurityInput;
  }

  /** Every security result, at its place in the answer: the newer list, or the older one when the newer is empty. */
  lemma {:induction false} SignalsReadTheAnswer(rules: Rules, tokens: Answer -> Option<int>, req: Request,
                                                citable: map<string, Citable>,
                                                raw: Answer, n: Answer, r: Answer, out: Answer, i: nat)
    requires AcceptedAs(rules, tokens, req, citable, raw, n, r, out)
    requires out.security.Some? && i < |out.security.value|
    ensures var given := if (raw.security.None? || raw.security.value == []) && raw.legacySecurity.Some?
                         then raw.legacySecurity else raw.security;
            && given.Some? && |given.value| == |out.security.value|
            && var result := out.security.value[i];
            && result.evidenceId == Trim(given.value[i].evidenceId) && result.decision == Trim(given.value[i].decision)
            && ReadsSignals(raw.legacySignals, result.evidenceId, given.value[i].signals, result.signals)
            && forall k :: 0 <= k < |result.signals| ==>
                 LiesBetween(EvidenceById(req.sources.submitted), result.evidenceId, result.signals[k])
  {
    hide AcceptedAs, Trim, ResolvedSecurity, NormalSecurity, ReadsSignals, LiesBetween, SecurityClean;
    SecurityParts(rules, tokens, req, citable, raw, n, r, out);
    var m, given := Submitted(req), SecurityInput(raw).value[i];
    assert n.security.value[i] == NormalSecurity(raw.legacySignals, given);
    assert ResolvedSecurity(m, n.security.value[i]).0;
    ResolvedSecurityReads(rules, raw.legacySignals, m, given);
  }

  // ----- Equivalence choices

  /** Every equivalence result, at its place in the answer. */
  lemma {:induction false} ChoicesReadTheAnswer(rules: Rules, tokens: Answer -> Option<int>, req: Request,
                                                citable: map<string, Citable>,
                                                raw: Answer, n: Answer, r: Answer, out: Answer, i: nat)
    requires AcceptedAs(rules, tokens, req, citable, raw, n, r, out)
    requires out.equivalence.Some? && i < |out.equivalence.value|
    ensures raw.equivalence.Some? && |raw.equivalence.value| == |out.equivalence.value|
    ensures var given, result := raw.equivalence.value[i], out.equivalence.value[i];
            && result.evidenceId == Trim(given.evidenceId) && result.action == Trim(given.action)
            && ReadsText(given.candidateId, result.candidateId)
  {
    hide AllSecurityClean, EquivalenceClean, AllEntitiesClean, R.AllRelationshipsClean, R.AllMet, R.ContractKept;
    hide EachRelationshipNormal, EachRelationshipResolved, RelationshipsResolve, AllSurfaced, AllEvidence;
    hide AcceptedConflicts;
    hide EachSecurityNormal, EachEntityNormal, EachSecurityResolved, EachEntityResolved, SecurityResolves;
    hide EntitiesResolve, Trim;
  }
}
