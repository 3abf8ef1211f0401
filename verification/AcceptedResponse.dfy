/** What an accepted assessor response guarantees about the submission it answers. */
module AcceptedResponse {
  import opened Options
  import opened Text
  import opened Boundaries
  import opened EvidenceConflicts
  import opened Assessment
  import opened ResponseChecks
  import opened RelationshipChecks
  import opened ResponseContract
  import D = Distinct

  lemma {:induction false} AcceptedParts(rules: Rules, tokens: Answer -> Option<int>, req: Request,
                                         citable: map<string, Citable>,
                      raw: Answer, n: Answer, r: Answer, out: Answer)
    requires AcceptedAs(rules, tokens, req, citable, raw, n, r, out)
    ensures Clean(rules, req, r) && Resolves(req, n) && ResolvedAnswer(req, n, r)
    ensures out.security.Some? && out.equivalence.Some? && out.entities.Some? && out.relationships.Some?
    ensures out.security == r.security && out.equivalence == r.equivalence && out.relationships == r.relationships
    ensures r.entities.Some? && out.entities == Some(AllSurfaced(AllEvidence(req), r.entities.value))
    ensures n.relationships.Some? && out.conflicts.Some?
  {
    hide Clean, Resolves, NormalAnswer, AllSurfaced, AcceptedConflicts;
  }

  lemma {:induction false} SurfacedRefs(m: map<string, Evidence>, s: seq<EntityResult>)
    ensures EntityRefs(AllSurfaced(m, s)) == EntityRefs(s)
  {
    hide ExactQuote;
  }

  /** Entities, relationships, security and equivalence: one result per target, nothing missing and nothing extra. */
  lemma {:induction false} EachTargetAnsweredOnce(rules: Rules, tokens: Answer -> Option<int>, req: Request,
                                                  citable: map<string, Citable>,
                               raw: Answer, n: Answer, r: Answer, out: Answer)
    requires AcceptedAs(rules, tokens, req, citable, raw, n, r, out) && req.contract.Some?
    ensures out.security.Some? && out.equivalence.Some? && out.entities.Some? && out.relationships.Some?
    ensures D.OnePerTarget(EntityTargetRefs(req.contract.value.entities), EntityRefs(out.entities.value))
    ensures D.OnePerTarget(RelationshipTargetRefs(req.contract.value.relationships),
            RelationshipRefs(out.relationships.value))
    ensures D.OnePerTarget(Submitted(req).Keys, SecurityIds(out.security.value))
    ensures D.OnePerTarget(D.Members(TrimmedGroupIds(req.sources.groups)), TrimmedResultIds(out.equivalence.value))
    ensures forall s :: s in out.security.value ==>
              (s.decision == "reject" <==> s.signals != []) && (s.decision == "pass" <==> s.signals == [])
  {
    hide AcceptedAs, EntityClean, RelationshipClean, SignalsClean, EntityKept, RelationshipKept, GroupsClean, Chosen;
    hide AllSpansShared;
    hide D.NoRepeats, D.Members, AllEvidence, Resolves, ResolvedAnswer, GroupsKnown, EntityTargetRefs;
    hide RelationshipTargetRefs, Submitted, AllSurfaced;
    AcceptedParts(rules, tokens, req, citable, raw, n, r, out);
    SurfacedRefs(AllEvidence(req), r.entities.value);
  }

  // ----- Stored relationships

  /** The entity result stands on a grounding that was submitted for it. */
  ghost predicate GroundedAsSubmitted(c: Contract, e: EntityResult) {
    && Grounded(e)
    && exists t, g :: t in c.entities && t.ref == e.ref && g in t.groundings && g.ref == Trim(e.groundingRef.value)
                      && (t.knownId != "" ==>
                          e.action == "reuse" && e.candidateId.Some? && Trim(e.candidateId.value) == t.knownId)
  }

  /** A range selects text of its evidence, within one support of the split. */
  ghost predicate InsideSupport(m: map<string, Evidence>, s: Split, range: Range) {
    && range.evidenceId in m && 0 <= range.start < range.end <= |m[range.evidenceId].content|
    && Covered(range, s.supports)
  }

  ghost predicate SupportInside(t: RelationshipTarget, m: map<string, Evidence>, r: Range) {
    Allowed(t, r) && r.evidenceId in m && 0 <= r.start < r.end <= |m[r.evidenceId].content|
  }

  ghost predicate CleanSupports(t: RelationshipTarget, m: map<string, Evidence>, supports: seq<Range>) {
    && 1 <= |supports| <= MaxSpans && D.NoRepeats(SupportKeys(supports))
    && (forall i :: 0 <= i < |supports| ==> SupportInside(t, m, supports[i]))
    && (exists i :: 0 <= i < |supports| && supports[i].evidenceId in t.evidenceIds)
  }

  /** What was submitted is unchanged in the split. */
  ghost predicate EndpointsKept(t: RelationshipTarget, j: nat, s: Split) {
    && s.index == j && s.subjectRef == t.subjectRef && s.polarity == t.polarity && s.validFrom == t.validFrom
      && s.validTo == t.validTo
    && s.objectRef == t.objectRef && (t.objectRef.Some? ==> s.objectValue.None?)
      && (t.objectRef.None? ==> s.objectValue == t.objectValue)
    && s.objectRef.Some? != s.objectValue.Some?
  }

  ghost predicate RefersTo(s: Split, ref: string) {
    s.subjectRef == ref || s.objectRef == Some(ref)
  }

  /** Every entity the split refers to has one result, and it is grounded as submitted. */
  ghost predicate EndpointsGrounded(c: Contract, entities: seq<EntityResult>, s: Split) {
    forall ref :: RefersTo(s, ref) ==>
      exists k :: 0 <= k < |entities| && entities[k].ref == ref && GroundedAsSubmitted(c, entities[k])
  }

  ghost predicate CleanSplit(c: Contract, t: RelationshipTarget, m: map<string, Evidence>, entities: seq<EntityResult>,
                             j: nat, s: Split) {
    && EndpointsKept(t, j, s) && EndpointsGrounded(c, entities, s) && CleanSupports(t, m, s.supports)
    && InsideSupport(m, s, s.predicateRange) && Allowed(t, s.predicateRange)
    && s.phrase == m[s.predicateRange.evidenceId].content[s.predicateRange.start..s.predicateRange.end]
    && Trim(s.phrase) != "" && |s.phrase| <= MaxPredicate
    && (s.valueRange.Some? <==> t.objectValue.Some?)
    && (s.valueRange.Some? ==> InsideSupport(m, s, s.valueRange.value) && Allowed(t, s.valueRange.value))
    && (t.knownKey != "" ==> s.status == "resolved" && s.key.Some? && Trim(s.key.value) == t.knownKey)
  }

  lemma {:induction false} SpansOfSupports(m: map<string, Evidence>, supports: seq<Range>)
    requires RangesResolve(m, supports)
    ensures SupportSpans(m, supports) == SupportKeys(ResolvedRanges(m, supports))
  {
    hide ResolvedRange;
    if supports != [] {
      var k := |supports| - 1;
      SpansOfSupports(m, supports[..k]);
      assert ResolvedRanges(m, supports) == ResolvedRanges(m, supports[..k]) + [ResolvedRange(m, supports[k]).1];
    }
  }

  lemma {:induction false} ResolvedRangeInside(m: map<string, Evidence>, raw: Range)
    requires ResolvedRange(m, raw).0
    ensures var r := ResolvedRange(m, raw).1; r.evidenceId in m && 0 <= r.start < r.end
  {
  }

  lemma {:induction false} CoveredInside(m: map<string, Evidence>, t: RelationshipTarget, s: Split, range: Range)
    requires CleanSupports(t, m, s.supports) && Covered(range, s.supports) && 0 <= range.start < range.end
    ensures InsideSupport(m, s, range)
  {
    hide D.NoRepeats;
    var i :| 0 <= i < |s.supports| && Covers(s.supports[i], range);
    assert SupportInside(t, m, s.supports[i]);
  }

  lemma {:induction false} SupportsAreClean(t: RelationshipTarget, m: map<string, Evidence>, raw: seq<Range>)
    requires RangesResolve(m, raw) && EvidenceClean(m, SupportSpans(m, raw)) && SupportsKept(t, ResolvedRanges(m, raw))
    ensures CleanSupports(t, m, ResolvedRanges(m, raw))
  {
    hide D.NoRepeats, RangesResolve, Allowed, SupportSpans;
    SpansOfSupports(m, raw);
    var supports := ResolvedRanges(m, raw);
    forall i | 0 <= i < |supports|
      ensures SupportInside(t, m, supports[i])
    {
      assert SpanInside(m, SupportKeys(supports)[i]);
    }
  }

  lemma {:induction false} GroundingIsSubmitted(c: Contract, relationships: seq<RelationshipResult>,
                                                entities: seq<EntityResult>, ref: string)
    requires forall i :: 0 <= i < |entities| ==> EntityKept(c, relationships, entities[i])
    requires EntityResultOf(entities, ref).Some? && Grounded(EntityResultOf(entities, ref).value)
    ensures exists k :: 0 <= k < |entities| && entities[k].ref == ref && GroundedAsSubmitted(c, entities[k])
  {
    hide UngroundedReuse, Trim;
    var e := EntityResultOf(entities, ref).value;
    var k :| 0 <= k < |entities| && entities[k] == e;
    assert EntityKept(c, relationships, entities[k]);
    var t := EntityTargetOf(c.entities, ref).value;
    var g := GroundingByRef(t.groundings, e.groundingRef.value).value;
    assert GroundedAsSubmitted(c, e);
  }

  lemma {:induction false} ObjectIsKnown(t: RelationshipTarget, entities: seq<EntityResult>, s: Split)
    requires ObjectKind(entities, s).Some? && ObjectKept(t, s)
    ensures s.objectRef.Some? != s.objectValue.Some?
    ensures s.objectRef.Some? ==> EntityResultOf(entities, s.objectRef.value).Some?
  {
  }

  lemma {:induction false} EndpointsAreGrounded(rules: Rules, options: seq<PredicateOption>, c: Contract,
                                                t: RelationshipTarget,
                             relationships: seq<RelationshipResult>, entities: seq<EntityResult>,
                             m: map<string, Evidence>, j: nat, s: Split)
    requires forall i :: 0 <= i < |entities| ==> EntityKept(c, relationships, entities[i])
    requires SplitClean(rules, options, m, entities, j, s) && SplitKept(t, s)
    ensures EndpointsGrounded(c, entities, s) && EndpointsKept(t, j, s)
  {
    hide EntityKept, GroundedAsSubmitted, PredicateClean, EvidenceClean, ValidityClean, BoundedRequired, Grounded;
    hide Covered, SupportsKept, Allowed, ObjectKind;
    ObjectIsKnown(t, entities, s);
    GroundingIsSubmitted(c, relationships, entities, s.subjectRef);
    if s.objectRef.Some? {
      GroundingIsSubmitted(c, relationships, entities, s.objectRef.value);
    }
  }

  lemma {:induction false} SplitIsClean(rules: Rules, options: seq<PredicateOption>, c: Contract, t: RelationshipTarget,
                     relationships: seq<RelationshipResult>, entities: seq<EntityResult>,
                     m: map<string, Evidence>, j: nat, raw: Split)
    requires forall i :: 0 <= i < |entities| ==> EntityKept(c, relationships, entities[i])
    requires ResolvedSplit(m, raw).0
    requires SplitClean(rules, options, m, entities, j, ResolvedSplit(m, raw).1)
             && SplitKept(t, ResolvedSplit(m, raw).1)
    ensures CleanSplit(c, t, m, entities, j, ResolvedSplit(m, raw).1)
  {
    hide EntityKept, PredicateClean, ObjectKind, ValidityClean, Grounded, EndpointsGrounded, EndpointsKept;
    hide EvidenceClean, SupportsKept;
    hide RangesResolve, SupportSpans, ResolvedRanges, Covered, Allowed, ResolvedRange, CleanSupports, Trim, ObjectKept;
    var s := ResolvedSplit(m, raw).1;
    EndpointsAreGrounded(rules, options, c, t, relationships, entities, m, j, s);
    SupportsAreClean(t, m, raw.supports);
    ResolvedRangeInside(m, raw.predicateRange);
    CoveredInside(m, t, s, s.predicateRange);
    if s.valueRange.Some? {
      ResolvedRangeInside(m, raw.valueRange.value);
      CoveredInside(m, t, s, s.valueRange.value);
    }
  }

  ghost predicate CleanRelationship(c: Contract, m: map<string, Evidence>, entities: seq<EntityResult>,
                                    result: RelationshipResult) {
    exists t :: t in c.relationships && t.ref == result.ref && CleanFor(c, t, m, entities, result)
  }

  ghost predicate CleanFor(c: Contract, t: RelationshipTarget, m: map<string, Evidence>, entities: seq<EntityResult>,
                           result: RelationshipResult) {
    && !t.knownUnavailable && 1 <= |result.splits| <= MaxSplits && (t.maxSplits > 0 ==> |result.splits| <= t.maxSplits)
    && forall j :: 0 <= j < |result.splits| ==> CleanSplit(c, t, m, entities, j, result.splits[j])
  }

  lemma {:induction false} RelationshipIsClean(rules: Rules, options: seq<PredicateOption>, c: Contract,
                                               relationships: seq<RelationshipResult>,
                            entities: seq<EntityResult>, m: map<string, Evidence>, raw: RelationshipResult)
    requires forall i :: 0 <= i < |entities| ==> EntityKept(c, relationships, entities[i])
    requires ResolvedRelationship(m, raw).0
    requires var result := ResolvedRelationship(m, raw).1;
             RelationshipClean(rules, options, m, entities, result) && RelationshipKept(c, result)
                 && result.disposition == "stored"
    ensures CleanRelationship(c, m, entities, ResolvedRelationship(m, raw).1)
  {
    hide EntityKept, ResolvedSplit, SplitClean, SplitKept, CleanSplit;
    var result := ResolvedRelationship(m, raw).1;
    var t := RelationshipTargetOf(c.relationships, result.ref).value;
    forall j | 0 <= j < |result.splits|
      ensures CleanSplit(c, t, m, entities, j, result.splits[j])
    {
      SplitIsClean(rules, options, c, t, relationships, entities, m, j, raw.splits[j]);
    }
    assert CleanFor(c, t, m, entities, result);
  }

  /** Every stored relationship of an accepted response keeps its target, uses only entities grounded as submitted,
      has distinct allowlisted supports including a submitted one, and quotes its predicate and value inside
      a support. */
  lemma {:induction false} StoredRelationshipsAreClean(rules: Rules, tokens: Answer -> Option<int>, req: Request,
                                                       citable: map<string, Citable>,
                                    raw: Answer, n: Answer, r: Answer, out: Answer, i: nat)
    requires AcceptedAs(rules, tokens, req, citable, raw, n, r, out) && req.contract.Some?
    requires out.entities.Some? && out.relationships.Some? && i < |out.relationships.value|
    ensures var result := out.relationships.value[i];
            || (result.disposition == "stored"
              && CleanRelationship(req.contract.value, AllEvidence(req), out.entities.value, result))
            || (result.disposition == "not_supported" && result.splits == [])
  {
    hide AcceptedAs, EntityClean, SplitClean, EntityKept, RelationshipKept, CleanRelationship, AllSurfaced, AllEvidence;
    hide AllSecurityClean, EquivalenceClean, AllEntitiesClean, D.NoRepeats, ResolvedRelationship, SecurityResolves;
    hide EntitiesResolve, GroupsKnown;
    hide EachSecurityResolved, EachEntityResolved, D.Members, Submitted;
    AcceptedParts(rules, tokens, req, citable, raw, n, r, out);
    var result := out.relationships.value[i];
    assert RelationshipClean(rules, req.predicates, AllEvidence(req), out.entities.value, result);
    if result.disposition == "stored" {
      RelationshipIsClean(rules, req.predicates, req.contract.value, out.relationships.value, out.entities.value,
                          AllEvidence(req), n.relationships.value[i]);
    }
  }

  // ----- Ungrounded entities

  lemma {:induction false} OneResultPerRef(entities: seq<EntityResult>, j: nat, k: nat)
    requires D.NoRepeats(EntityRefs(entities)) && j < |entities| && k < |entities| && entities[j].ref == entities[k].ref
    ensures j == k
  {
    var refs := EntityRefs(entities);
    assert refs[j] == refs[k];
  }

  /** An entity without a grounding carries no claim: every relationship that uses it is not supported. */
  lemma {:induction false} UngroundedEntityCarriesNothing(rules: Rules, tokens: Answer -> Option<int>, req: Request,
                                                          citable: map<string, Citable>,
                                       raw: Answer, n: Answer, r: Answer, out: Answer, k: nat, i: nat, j: nat)
    requires AcceptedAs(rules, tokens, req, citable, raw, n, r, out) && req.contract.Some?
    requires out.entities.Some? && out.relationships.Some? && k < |out.entities.value| && i < |out.relationships.value|
    requires j < |out.relationships.value[i].splits|
    requires !Grounded(out.entities.value[k])
    ensures !RefersTo(out.relationships.value[i].splits[j], out.entities.value[k].ref)
  {
    hide AcceptedAs, Clean, AllSurfaced, AllEvidence, Grounded, CleanSupports, InsideSupport, Allowed, EndpointsKept;
    hide RefersTo, Trim;
    var entities, s := out.entities.value, out.relationships.value[i].splits[j];
    StoredRelationshipsAreClean(rules, tokens, req, citable, raw, n, r, out, i);
    EachTargetAnsweredOnce(rules, tokens, req, citable, raw, n, r, out);
    if RefersTo(s, entities[k].ref) {
      var x :| 0 <= x < |entities| && entities[x].ref == entities[k].ref
          && GroundedAsSubmitted(req.contract.value, entities[x]);
      OneResultPerRef(entities, x, k);
    }
  }

  // ----- What an entity result and a split stand on

  predicate IsPinned(c: Option<Contract>, ref: string, id: string) {
    c.Some? && exists t :: t in c.value.entities && t.ref == ref && t.knownId == id
  }

  /** The candidate was offered for the span of the result, and is the only one of its kind there or the pinned one. */
  ghost predicate ReusesOffered(req: Request, e: EntityResult) {
    exists g, c :: g in req.entityGroups && OffersFor(g, e) && IsTheChoice(req, g, c, e)
  }

  ghost predicate IsTheChoice(req: Request, g: EntityGroup, c: EntityCandidate, e: EntityResult) {
    && c in g.candidates && c.kind == e.kind && Some(c.id) == e.candidateId
    && (IsPinned(req.contract, e.ref, c.id) || forall d :: d in g.candidates && d.kind == e.kind ==> d == c)
  }

  /** No candidate of its kind was offered for the span of the result, and none was left out. */
  ghost predicate NothingToReuse(req: Request, e: EntityResult) {
    || (forall g :: g in req.entityGroups ==> Span(g.evidenceId, g.start, g.end) != EntitySpan(e))
    || (exists g :: g in req.entityGroups && OffersFor(g, e) && NoneOfKind(g, e.kind))
  }

  predicate NoneOfKind(g: EntityGroup, kind: string) {
    forall d :: d in g.candidates ==> d.kind != kind
  }

  /** The group holds every candidate for the span of the result. */
  predicate OffersFor(g: EntityGroup, e: EntityResult) {
    !g.truncated && Span(g.evidenceId, g.start, g.end) == EntitySpan(e)
  }

  /** A grounded result quotes its evidence, reuses only what was offered and creates nothing beside an
      offered candidate. */
  ghost predicate Justified(req: Request, m: map<string, Evidence>, e: EntityResult) {
    && e.evidenceId in m && 0 <= e.start < e.end <= |m[e.evidenceId].content|
    && e.surface == m[e.evidenceId].content[e.start..e.end]
    && (e.action == "reuse" || e.action == "create" || e.action == "ambiguous")
    && (e.action == "reuse" ==> ReusesOffered(req, e))
    && (e.action != "reuse" ==> e.candidateId.None?)
    && (e.action == "create" ==> NothingToReuse(req, e))
  }

  /** Without a grounding a result is ambiguous, or reuses the pinned entity. */
  ghost predicate Ungrounded(req: Request, e: EntityResult) {
    || e.action == "ambiguous"
    || (e.action == "reuse" && e.candidateId.Some? && IsPinned(req.contract, e.ref, Trim(e.candidateId.value)))
  }

  lemma {:induction false} MatchingMembers(candidates: seq<EntityCandidate>, kind: string)
    ensures forall d :: d in MatchingCandidates(candidates, kind) <==> d in candidates && d.kind == kind
  {
    if candidates != [] {
      MatchingMembers(candidates[1..], kind);
      assert forall d :: d in candidates <==> d == candidates[0] || d in candidates[1..];
    }
  }

  lemma {:induction false} CleanActionIsJustified(req: Request, r: EntityResult)
    requires ActionClean(req, r)
    ensures r.action == "reuse" || r.action == "create" || r.action == "ambiguous"
    ensures r.action == "reuse" ==> ReusesOffered(req, r)
    ensures r.action != "reuse" ==> r.candidateId.None?
    ensures r.action == "create" ==> NothingToReuse(req, r)
  {
    var group := GroupBySpan(req.entityGroups, EntitySpan(r));
    if group.Some? {
      var g := group.value;
      var matching := MatchingCandidates(g.candidates, r.kind);
      MatchingMembers(g.candidates, r.kind);
      if r.action == "reuse" {
        var c :| c in matching && c.id == r.candidateId.value;
        if |matching| == 1 {
          assert forall d :: d in matching ==> d == matching[0];
        } else {
          PinnedById(req.contract, r.ref);
        }
        assert OffersFor(g, r) && IsTheChoice(req, g, c, r);
      }
    }
  }

  lemma {:induction false} PinnedById(c: Option<Contract>, ref: string)
    requires KnownIdOf(c, ref) != ""
    ensures IsPinned(c, ref, KnownIdOf(c, ref))
  {
  }

  /** Every entity result of an accepted response is justified by its evidence and the offered candidates; without a
      grounding it is ambiguous, or the reuse of a pinned entity. */
  lemma {:induction false} EntitiesAreJustified(rules: Rules, tokens: Answer -> Option<int>, req: Request,
                                                citable: map<string, Citable>,
                                                raw: Answer, n: Answer, r: Answer, out: Answer, i: nat)
    requires AcceptedAs(rules, tokens, req, citable, raw, n, r, out)
    requires out.entities.Some? && i < |out.entities.value|
    ensures var e := out.entities.value[i];
            && (e.groundingRef.Some? ==> Justified(req, AllEvidence(req), e))
            && (e.groundingRef.None? ==> Ungrounded(req, e))
  {
    hide AcceptedAs, AllEvidence, Trim, AllSecurityClean, EquivalenceClean, AllRelationshipsClean, AllMet;
    hide ContractKept, AllSpansShared, D.NoRepeats;
    hide ActionClean, ReusesOffered, NothingToReuse, Resolves, ResolvedAnswer, GroupsKnown, Squeezed;
    AcceptedParts(rules, tokens, req, citable, raw, n, r, out);
    var e := r.entities.value[i];
    assert EntityClean(req, AllEvidence(req), Items(r.relationships), e);
    assert out.entities.value[i] == Surfaced(AllEvidence(req), e);
    if e.groundingRef.Some? {
      CleanActionIsJustified(req, e);
      SameButForSurface(req, e, out.entities.value[i]);
    } else if e.action != "ambiguous" {
      FirstPin(req.contract.value.entities, e.ref);
    }
  }

  lemma {:induction false} FirstPin(targets: seq<EntityTarget>, ref: string)
    requires FirstKnownId(targets, ref) != ""
    ensures exists t :: t in targets && t.ref == ref && t.knownId == FirstKnownId(targets, ref)
  {
    if targets[0].ref != ref {
      FirstPin(targets[1..], ref);
    }
  }

  lemma {:induction false} SameButForSurface(req: Request, e: EntityResult, f: EntityResult)
    requires f == e.(surface := f.surface)
    ensures ReusesOffered(req, e) ==> ReusesOffered(req, f)
    ensures NothingToReuse(req, e) ==> NothingToReuse(req, f)
  {
    assert forall g :: OffersFor(g, e) == OffersFor(g, f);
    if ReusesOffered(req, e) {
      var g, c :| g in req.entityGroups && OffersFor(g, e) && IsTheChoice(req, g, c, e);
      assert OffersFor(g, f) && IsTheChoice(req, g, c, f);
    }
  }

  /** The kind at one end of a split is the kind of an entity result or the type of a value. */
  ghost predicate ObjectHasKind(entities: seq<EntityResult>, s: Split, kind: string) {
    || (s.objectRef.Some? && exists k ::
      0 <= k < |entities| && entities[k].ref == s.objectRef.value && entities[k].kind == kind)
    || (s.objectValue.Some? && s.objectValue.value.valueType == kind)
  }

  ghost predicate SubjectHasKind(entities: seq<EntityResult>, s: Split, kind: string) {
    exists k :: 0 <= k < |entities| && entities[k].ref == s.subjectRef && entities[k].kind == kind
  }

  /** A resolved predicate is an offered version that allows the kinds at both ends; otherwise a registration
      is proposed. */
  ghost predicate PredicateFits(options: seq<PredicateOption>, entities: seq<EntityResult>, s: Split) {
    || (s.status == "resolved" && s.registration.None?
        && exists o, a, b :: o in options && s.key == Some(o.key) && s.version == Some(o.version)
                             && SubjectHasKind(entities, s, a) && KindAllowed(a, o.subjectKinds)
                             && ObjectHasKind(entities, s, b) && KindAllowed(b, o.objectKinds))
    || (s.status == "registration_required" && s.key.None? && s.version.None? && s.registration.Some?)
  }

  ghost predicate TimesInOrder(rules: Rules, s: Split) {
    s.validFrom.Some? && s.validTo.Some? ==>
      exists from, to ::
          rules.parseTime(s.validFrom.value) == Some(from) && rules.parseTime(s.validTo.value) == Some(to) && from <= to
  }

  lemma {:induction false} CleanSplitFits(rules: Rules, options: seq<PredicateOption>, m: map<string, Evidence>,
                                          entities: seq<EntityResult>, j: nat, s: Split)
    requires SplitClean(rules, options, m, entities, j, s)
    ensures PredicateFits(options, entities, s) && TimesInOrder(rules, s)
  {
    hide EvidenceClean, BoundedRequired, Grounded, Trim, KindAllowed;
    var subject, kind := EntityResultOf(entities, s.subjectRef).value, ObjectKind(entities, s).value;
    assert SubjectHasKind(entities, s, subject.kind);
    assert ObjectHasKind(entities, s, kind);
  }

  /** Every split of an accepted response uses an offered predicate that fits both its ends, or proposes one. */
  lemma {:induction false} SplitsFit(rules: Rules, tokens: Answer -> Option<int>, req: Request,
                                     citable: map<string, Citable>,
                                     raw: Answer, n: Answer, r: Answer, out: Answer, i: nat, j: nat)
    requires AcceptedAs(rules, tokens, req, citable, raw, n, r, out) && out.entities.Some? && out.relationships.Some?
    requires i < |out.relationships.value| && j < |out.relationships.value[i].splits|
    ensures PredicateFits(req.predicates, out.entities.value, out.relationships.value[i].splits[j])
    ensures TimesInOrder(rules, out.relationships.value[i].splits[j])
  {
    hide AcceptedAs, AllEvidence, AllSecurityClean, EquivalenceClean, AllEntitiesClean, AllMet, ContractKept;
    hide D.NoRepeats, SplitClean;
    hide Resolves, ResolvedAnswer, GroupsKnown, AllSurfaced, PredicateFits, TimesInOrder, DispositionClean;
    AcceptedParts(rules, tokens, req, citable, raw, n, r, out);
    var result := out.relationships.value[i];
    assert RelationshipClean(rules, req.predicates, AllEvidence(req), out.entities.value, result);
    CleanSplitFits(rules, req.predicates, AllEvidence(req), out.entities.value, j, result.splits[j]);
  }
}
