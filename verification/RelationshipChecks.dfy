/** The validators of relationship results, alone and against the submission contract. */
module RelationshipChecks {
  import opened Options
  import opened Text
  import opened Boundaries
  import opened Assessment
  import opened ResponseChecks
  import D = Distinct

  // ----- Relationship results

  predicate Grounded(r: EntityResult) {
    r.action != "ambiguous" && r.groundingRef.Some? && Trim(r.groundingRef.value) != ""
  }

  /** The kind of a split's object, when it has exactly one well-formed object. */
  function ObjectKind(entities: seq<EntityResult>, s: Split): Option<string> {
    var hasRef := s.objectRef.Some? && s.objectRef.value != "";
    if hasRef == s.objectValue.Some? then None
    else if hasRef then
      var e := EntityResultOf(entities, s.objectRef.value);
      if e.None? then None else Some(e.value.kind)
    else
      var v := s.objectValue.value;
      if Trim(v.valueType) !in ValueTypes || !BoundedRequired(v.canonical, MaxValue)
         || (v.display.Some? && |v.display.value| > MaxValue) || (v.unit.Some? && |v.unit.value| > MaxRef) then None
      else Some(v.valueType)
  }

  /** A resolved predicate fits its endpoint kinds; otherwise a complete registration is proposed. */
  predicate PredicateClean(options: seq<PredicateOption>, s: Split, subjectKind: string, objectKind: string) {
    match s.status
    case "resolved" =>
      && s.key.Some? && s.key.value != "" && s.version.Some? && s.version.value >= 1 && s.registration.None?
      && var option := OptionOf(options, s.key.value, s.version.value);
         option.Some? && KindAllowed(subjectKind, option.value.subjectKinds)
             && KindAllowed(objectKind, option.value.objectKinds)
    case "registration_required" =>
      && s.key.None? && s.version.None? && s.registration.Some?
      && BoundedRequired(s.registration.value.key, MaxRef)
      && Trim(s.registration.value.kind) in RelationshipKinds && Trim(s.registration.value.cardinality) in Cardinalities
    case _ => false
  }

  predicate SpanInside(m: map<string, Evidence>, s: Span) {
    s.evidenceId in m && EvidenceSpan(m[s.evidenceId].content, s.start, s.end).Some?
  }

  predicate EvidenceClean(m: map<string, Evidence>, spans: seq<Span>) {
    && 1 <= |spans| <= MaxSpans && (forall i :: 0 <= i < |spans| ==> SpanInside(m, spans[i])) && D.NoRepeats(spans)
  }

  predicate ValidityClean(rules: Rules, s: Split) {
    && (s.validFrom.Some? ==> rules.parseTime(s.validFrom.value).Some?)
    && (s.validTo.Some? ==> rules.parseTime(s.validTo.value).Some?)
    && (s.validFrom.Some? && s.validTo.Some? ==>
          rules.parseTime(s.validFrom.value).value <= rules.parseTime(s.validTo.value).value)
  }

  predicate SplitClean(rules: Rules, options: seq<PredicateOption>, m: map<string, Evidence>,
                       entities: seq<EntityResult>, j: nat, s: Split) {
    var subject, objectKind := EntityResultOf(entities, s.subjectRef), ObjectKind(entities, s);
    && s.index == j
    && subject.Some? && Grounded(subject.value)
    && BoundedRequired(s.phrase, MaxPredicate)
    && objectKind.Some?
    && (s.objectRef.Some? && EntityResultOf(entities, s.objectRef.value).Some? ==>
        Grounded(EntityResultOf(entities, s.objectRef.value).value))
    && Trim(s.polarity) in ["+", "-"]
    && PredicateClean(options, s, subject.value.kind, objectKind.value)
    && EvidenceClean(m, s.evidence)
    && ValidityClean(rules, s)
  }

  predicate DispositionClean(r: RelationshipResult) {
    || (r.disposition == "stored" && r.reason.None? && 1 <= |r.splits| <= MaxSplits)
    || (r.disposition == "not_supported" && r.reason == Some("not_supported_by_evidence") && r.splits == [])
  }

  predicate RelationshipClean(rules: Rules, options: seq<PredicateOption>, m: map<string, Evidence>,
                              entities: seq<EntityResult>,
                              r: RelationshipResult) {
    && r.ref != "" && |r.ref| <= MaxRef && DispositionClean(r)
    && forall j :: 0 <= j < |r.splits| ==> SplitClean(rules, options, m, entities, j, r.splits[j])
  }

  function RelationshipRefs(s: seq<RelationshipResult>): (r: seq<string>)
    ensures |r| == |s| && forall i :: 0 <= i < |s| ==> r[i] == s[i].ref
  {
    seq(|s|, i requires 0 <= i < |s| => s[i].ref)
  }

  predicate AllRelationshipsClean(rules: Rules, options: seq<PredicateOption>, m: map<string, Evidence>,
                                  entities: seq<EntityResult>,
                                  results: seq<RelationshipResult>) {
    && (forall i :: 0 <= i < |results| ==> RelationshipClean(rules, options, m, entities, results[i]))
    && D.NoRepeats(RelationshipRefs(results))
  }

  method CheckEvidence(m: map<string, Evidence>, spans: seq<Span>) returns (ok: bool)
    ensures ok <==> EvidenceClean(m, spans)
  {
    hide D.NoRepeats, D.Members, SpanInside;
    if |spans| == 0 || |spans| > MaxSpans {
      return false;
    }
    ok := true;
    var seen: set<Span> := {};
    D.NoneYet(spans);
    for i := 0 to |spans|
      invariant ok <==> (forall k :: 0 <= k < i ==> SpanInside(m, spans[k])) && D.NoRepeats(spans[..i])
      invariant ok ==> seen == D.Members(spans[..i])
    {
      D.NoRepeatsPush(spans, i);
      if !SpanInside(m, spans[i]) || spans[i] in seen {
        ok := false;
      }
      seen := seen + {spans[i]};
    }
    assert spans[..|spans|] == spans;
  }

  method CheckSplit(rules: Rules, options: seq<PredicateOption>, m: map<string, Evidence>, entities: seq<EntityResult>,
                    j: nat, s: Split)
    returns (ok: bool)
    ensures ok <==> SplitClean(rules, options, m, entities, j, s)
  {
    hide PredicateClean, ObjectKind, ValidityClean, EvidenceClean, BoundedRequired, Trim;
    ok := s.index == j;
    var subject := EntityResultOf(entities, s.subjectRef);
    if subject.None? || !Grounded(subject.value) {
      ok := false;
    }
    if !BoundedRequired(s.phrase, MaxPredicate) {
      ok := false;
    }
    var objectKind := ObjectKind(entities, s);
    if s.objectRef.Some? {
      var e := EntityResultOf(entities, s.objectRef.value);
      if e.Some? && !Grounded(e.value) {
        ok := false;
      }
    }
    if Trim(s.polarity) !in ["+", "-"] || objectKind.None? {
      ok := false;
    }
    if subject.Some? && objectKind.Some? && !PredicateClean(options, s, subject.value.kind, objectKind.value) {
      ok := false;
    }
    var evidence := CheckEvidence(m, s.evidence);
    if !evidence || !ValidityClean(rules, s) {
      ok := false;
    }
  }

  method CheckRelationships(rules: Rules, options: seq<PredicateOption>, m: map<string, Evidence>,
                            entities: seq<EntityResult>,
                            results: seq<RelationshipResult>) returns (ok: bool)
    ensures ok <==> AllRelationshipsClean(rules, options, m, entities, results)
  {
    hide D.NoRepeats, D.Members, SplitClean;
    ok := true;
    var seen: set<string> := {};
    var refs := RelationshipRefs(results);
    D.NoneYet(refs);
    for i := 0 to |results|
      invariant ok <==>
                  (forall k :: 0 <= k < i ==> RelationshipClean(rules, options, m, entities, results[k]))
                      && D.NoRepeats(refs[..i])
      invariant seen == D.Members(refs[..i])
    {
      D.NoRepeatsPush(refs, i);
      var r := results[i];
      var before := ok;
      ok := ok && r.ref != "" && |r.ref| <= MaxRef && refs[i] !in seen && DispositionClean(r);
      seen := seen + {refs[i]};
      ghost var plain := ok;
      for j := 0 to |r.splits|
        invariant ok <==> plain && forall k :: 0 <= k < j ==> SplitClean(rules, options, m, entities, k, r.splits[k])
      {
        var split := CheckSplit(rules, options, m, entities, j, r.splits[j]);
        ok := ok && split;
      }
    }
    assert refs[..|refs|] == refs;
  }

  // ----- Relationships the server requires

  predicate CitesEvidence(supports: seq<Range>, id: string) {
    exists i :: 0 <= i < |supports| && supports[i].evidenceId == id
  }

  /** The split uses submitted evidence of the requirement, or one of its exact spans when it lists no evidence. */
  predicate SplitMeets(q: Requirement, s: Split) {
    || (q.evidenceIds == [] && exists x :: x in q.spans && x in s.evidence)
    || exists id :: id in q.evidenceIds && CitesEvidence(s.supports, id)
  }

  predicate Meets(q: Requirement, results: seq<RelationshipResult>) {
    var r := RelationshipResultOf(results, q.ref);
    && r.Some?
    && (r.value.disposition != "not_supported" ==>
          !q.knownUnavailable && forall j :: 0 <= j < |r.value.splits| ==> SplitMeets(q, r.value.splits[j]))
  }

  predicate AllMet(required: seq<Requirement>, results: seq<RelationshipResult>) {
    forall i :: 0 <= i < |required| ==> Meets(required[i], results)
  }

  method FindSupport(supports: seq<Range>, id: string) returns (found: bool)
    ensures found <==> CitesEvidence(supports, id)
  {
    for i := 0 to |supports|
      invariant forall k :: 0 <= k < i ==> supports[k].evidenceId != id
    {
      if supports[i].evidenceId == id {
        return true;
      }
    }
    return false;
  }

  method FindSpan(q: Requirement, s: Split) returns (found: bool)
    ensures found <==> exists x :: x in q.spans && x in s.evidence
  {
    for i := 0 to |q.spans|
      invariant forall k :: 0 <= k < i ==> q.spans[k] !in s.evidence
    {
      if q.spans[i] in s.evidence {
        return true;
      }
    }
    return false;
  }

  /** Submitted evidence is looked for first, so a match on known evidence alone means there is none. */
  method CheckRequiredSplit(q: Requirement, s: Split) returns (ok: bool)
    ensures ok <==> SplitMeets(q, s)
  {
    hide CitesEvidence;
    var matches, submitted := false, false;
    if q.evidenceIds == [] {
      var found := FindSpan(q, s);
      matches, submitted := found, found;
    }
    ghost var spans := submitted;
    var expected := q.evidenceIds + q.knownEvidenceIds;
    for i := 0 to |expected|
      invariant matches == submitted == spans
      invariant forall k :: 0 <= k < i ==> !CitesEvidence(s.supports, expected[k])
    {
      var found := FindSupport(s.supports, expected[i]);
      if found {
        matches := true;
        if expected[i] in q.evidenceIds {
          submitted := true;
        }
      }
      if matches {
        break;
      }
    }
    ok := matches && submitted;
    forall id | id in q.evidenceIds && CitesEvidence(s.supports, id)
      ensures ok
    {
      var k :| 0 <= k < |q.evidenceIds| && q.evidenceIds[k] == id;
      assert expected[k] == id;
    }
  }

  /** ValidateSemanticAssessmentRequiredRelationshipRefs. */
  method CheckRequired(required: seq<Requirement>, results: seq<RelationshipResult>) returns (ok: bool)
    ensures ok <==> AllMet(required, results)
  {
    hide SplitMeets;
    ok := true;
    for i := 0 to |required|
      invariant ok <==> forall k :: 0 <= k < i ==> Meets(required[k], results)
    {
      var q := required[i];
      var r := RelationshipResultOf(results, q.ref);
      if r.None? {
        ok := false;
        continue;
      }
      if r.value.disposition == "not_supported" {
        continue;
      }
      if q.knownUnavailable {
        ok := false;
        continue;
      }
      ghost var before := ok;
      for j := 0 to |r.value.splits|
        invariant ok <==> before && forall k :: 0 <= k < j ==> SplitMeets(q, r.value.splits[k])
      {
        var meets := CheckRequiredSplit(q, r.value.splits[j]);
        ok := ok && meets;
      }
    }
  }

  // ----- Against the submission contract

  function EntityTargetRefs(s: seq<EntityTarget>): set<string> {
    set t | t in s :: t.ref
  }

  function RelationshipTargetRefs(s: seq<RelationshipTarget>): set<string> {
    set t | t in s :: t.ref
  }

  predicate EntityKept(c: Contract, relationships: seq<RelationshipResult>, r: EntityResult) {
    var t := EntityTargetOf(c.entities, r.ref);
    && t.Some?
    && (t.value.knownId != "" ==>
        r.action == "reuse" && r.candidateId.Some? && Trim(r.candidateId.value) == t.value.knownId)
    && if r.groundingRef.None? then
         && (r.action == "ambiguous" || UngroundedReuse(Some(c), relationships, r))
         && (r.candidateId.Some? ==> r.action == "reuse")
       else GroundingByRef(t.value.groundings, r.groundingRef.value).Some?
  }

  predicate ObjectKept(t: RelationshipTarget, s: Split) {
    if t.objectRef.Some? then s.objectValue.None? && s.objectRef == t.objectRef
    else s.objectRef.None? && s.objectValue == t.objectValue
  }

  predicate Covers(support: Range, r: Range) {
    r.evidenceId == support.evidenceId && support.start <= r.start && r.end <= support.end
  }

  predicate Covered(r: Range, supports: seq<Range>) {
    exists i :: 0 <= i < |supports| && Covers(supports[i], r)
  }

  predicate Allowed(t: RelationshipTarget, r: Range) {
    r.evidenceId in t.evidenceIds || r.evidenceId in t.knownEvidenceIds
  }

  function SupportKeys(s: seq<Range>): (r: seq<Span>)
    ensures |r| == |s| && forall i :: 0 <= i < |s| ==> r[i] == SpanOf(s[i])
  {
    seq(|s|, i requires 0 <= i < |s| => SpanOf(s[i]))
  }

  /** Distinct allowlisted supports, one of them submitted. */
  predicate SupportsKept(t: RelationshipTarget, supports: seq<Range>) {
    && (forall i :: 0 <= i < |supports| ==> Allowed(t, supports[i]))
    && (exists i :: 0 <= i < |supports| && supports[i].evidenceId in t.evidenceIds)
    && D.NoRepeats(SupportKeys(supports))
  }

  /** The split keeps what was submitted and cites only what the target allows. */
  predicate SplitKept(t: RelationshipTarget, s: Split) {
    && (t.knownKey != "" ==> s.status == "resolved" && s.key.Some? && Trim(s.key.value) == t.knownKey)
    && s.subjectRef == t.subjectRef && s.polarity == t.polarity
    && s.validFrom == t.validFrom && s.validTo == t.validTo
    && ObjectKept(t, s)
    && Allowed(t, s.predicateRange) && (s.valueRange.Some? ==> Allowed(t, s.valueRange.value))
    && (t.objectValue.Some? <==> s.valueRange.Some?)
    && SupportsKept(t, s.supports)
    && Covered(s.predicateRange, s.supports) && (s.valueRange.Some? ==> Covered(s.valueRange.value, s.supports))
  }

  predicate RelationshipKept(c: Contract, r: RelationshipResult) {
    var t := RelationshipTargetOf(c.relationships, r.ref);
    && t.Some?
    && (r.disposition != "not_supported" ==>
          && !t.value.knownUnavailable
          && (t.value.maxSplits > 0 ==> |r.splits| <= t.value.maxSplits)
          && forall j :: 0 <= j < |r.splits| ==> SplitKept(t.value, r.splits[j]))
  }

  predicate ContractKept(c: Contract, entities: seq<EntityResult>, relationships: seq<RelationshipResult>) {
    && (forall i :: 0 <= i < |entities| ==> EntityKept(c, relationships, entities[i]))
    && D.Members(EntityRefs(entities)) == EntityTargetRefs(c.entities)
    && (forall i :: 0 <= i < |relationships| ==> RelationshipKept(c, relationships[i]))
    && D.Members(RelationshipRefs(relationships)) == RelationshipTargetRefs(c.relationships)
  }

  method RangeCovered(r: Range, supports: seq<Range>) returns (ok: bool)
    ensures ok <==> Covered(r, supports)
  {
    for i := 0 to |supports|
      invariant forall k :: 0 <= k < i ==> !Covers(supports[k], r)
    {
      if Covers(supports[i], r) {
        return true;
      }
    }
    return false;
  }

  method CheckSupports(t: RelationshipTarget, supports: seq<Range>) returns (ok: bool)
    ensures ok <==> SupportsKept(t, supports)
  {
    hide D.NoRepeats, D.Members, Allowed;
    var allowed, submitted := true, false;
    var seen: set<Span> := {};
    var keys := SupportKeys(supports);
    D.NoneYet(keys);
    for i := 0 to |supports|
      invariant allowed <==> (forall k :: 0 <= k < i ==> Allowed(t, supports[k])) && D.NoRepeats(keys[..i])
      invariant submitted <==> exists k :: 0 <= k < i && supports[k].evidenceId in t.evidenceIds
      invariant seen == D.Members(keys[..i])
    {
      D.NoRepeatsPush(keys, i);
      if !Allowed(t, supports[i]) {
        allowed := false;
      }
      if supports[i].evidenceId in t.evidenceIds {
        submitted := true;
      }
      if keys[i] in seen {
        allowed := false;
      }
      seen := seen + {keys[i]};
    }
    assert keys[..|keys|] == keys;
    ok := allowed && submitted;
  }

  method CheckKeptSplit(t: RelationshipTarget, s: Split) returns (ok: bool)
    ensures ok <==> SplitKept(t, s)
  {
    hide Covered, SupportsKept, Allowed, Trim, ObjectKept;
    ok := true;
    if t.knownKey != "" && (s.status != "resolved" || s.key.None? || Trim(s.key.value) != t.knownKey) {
      ok := false;
    }
    if s.subjectRef != t.subjectRef || s.polarity != t.polarity || s.validFrom != t.validFrom
        || s.validTo != t.validTo {
      ok := false;
    }
    if !ObjectKept(t, s) || !Allowed(t, s.predicateRange) || (s.valueRange.Some? && !Allowed(t, s.valueRange.value)) {
      ok := false;
    }
    if t.objectValue.None? != s.valueRange.None? {
      ok := false;
    }
    var supports := CheckSupports(t, s.supports);
    var predicateCovered := RangeCovered(s.predicateRange, s.supports);
    ok := ok && supports && predicateCovered;
    if s.valueRange.Some? {
      var valueCovered := RangeCovered(s.valueRange.value, s.supports);
      ok := ok && valueCovered;
    }
  }

  method CheckKeptEntities(c: Contract, entities: seq<EntityResult>, relationships: seq<RelationshipResult>)
    returns (ok: bool)
    ensures ok <==>
              && (forall i :: 0 <= i < |entities| ==> EntityKept(c, relationships, entities[i]))
              && D.Members(EntityRefs(entities)) == EntityTargetRefs(c.entities)
  {
    hide UngroundedReuse, D.Members, Trim, D.NoRepeats;
    ok := true;
    var answered: set<string> := {};
    var refs := EntityRefs(entities);
    D.NoneYet(refs);
    for i := 0 to |entities|
      invariant ok <==> forall k :: 0 <= k < i ==> EntityKept(c, relationships, entities[k])
      invariant ok ==> answered == D.Members(refs[..i])
    {
      D.NoRepeatsPush(refs, i);
      var r := entities[i];
      var target := EntityTargetOf(c.entities, r.ref);
      if target.None? {
        ok := false;
        continue;
      }
      answered := answered + {r.ref};
      if target.value.knownId != ""
          && (r.action != "reuse" || r.candidateId.None? || Trim(r.candidateId.value) != target.value.knownId) {
        ok := false;
      }
      if r.groundingRef.None? {
        var allowed := AllowsUngroundedReuse(Some(c), relationships, r);
        if (r.action != "ambiguous" && !allowed) || (r.candidateId.Some? && r.action != "reuse") {
          ok := false;
        }
      } else if GroundingByRef(target.value.groundings, r.groundingRef.value).None? {
        ok := false;
      }
    }
    assert refs[..|refs|] == refs;
    if ok {
      AnswersAreTargets(c, entities, relationships);
    }
    ok := ok && EntityTargetRefs(c.entities) <= answered;
  }

  lemma {:induction false} AnswersAreTargets(c: Contract, entities: seq<EntityResult>,
                                             relationships: seq<RelationshipResult>)
    requires forall k :: 0 <= k < |entities| ==> EntityKept(c, relationships, entities[k])
    ensures D.Members(EntityRefs(entities)) <= EntityTargetRefs(c.entities)
  {
    hide UngroundedReuse;
  }

  lemma {:induction false} ResultsAreTargets(c: Contract, relationships: seq<RelationshipResult>)
    requires forall k :: 0 <= k < |relationships| ==> RelationshipKept(c, relationships[k])
    ensures D.Members(RelationshipRefs(relationships)) <= RelationshipTargetRefs(c.relationships)
  {
    hide SplitKept;
  }

  method CheckKeptRelationships(c: Contract, relationships: seq<RelationshipResult>) returns (ok: bool)
    ensures ok <==>
              && (forall i :: 0 <= i < |relationships| ==> RelationshipKept(c, relationships[i]))
              && D.Members(RelationshipRefs(relationships)) == RelationshipTargetRefs(c.relationships)
  {
    hide D.Members, D.NoRepeats, SplitKept;
    ok := true;
    var seen: set<string> := {};
    var refs := RelationshipRefs(relationships);
    D.NoneYet(refs);
    for i := 0 to |relationships|
      invariant ok <==> forall k :: 0 <= k < i ==> RelationshipKept(c, relationships[k])
      invariant ok ==> seen == D.Members(refs[..i])
    {
      D.NoRepeatsPush(refs, i);
      var r := relationships[i];
      var target := RelationshipTargetOf(c.relationships, r.ref);
      if target.None? {
        ok := false;
        continue;
      }
      seen := seen + {r.ref};
      if r.disposition == "not_supported" {
        continue;
      }
      if target.value.knownUnavailable {
        ok := false;
        continue;
      }
      if target.value.maxSplits > 0 && |r.splits| > target.value.maxSplits {
        ok := false;
      }
      ghost var plain := ok;
      for j := 0 to |r.splits|
        invariant ok <==> plain && forall k :: 0 <= k < j ==> SplitKept(target.value, r.splits[k])
      {
        var kept := CheckKeptSplit(target.value, r.splits[j]);
        ok := ok && kept;
      }
    }
    assert refs[..|refs|] == refs;
    if ok {
      ResultsAreTargets(c, relationships);
    }
    ok := ok && RelationshipTargetRefs(c.relationships) <= seen;
  }
}
