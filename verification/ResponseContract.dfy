/** Preparing an assessor response: what it accepts, and what an accepted response guarantees. */
module ResponseContract {
  import opened Options
  import opened Text
  import opened Boundaries
  import opened EvidenceConflicts
  import opened Assessment
  import opened ResponseChecks
  import opened RelationshipChecks

  datatype Answer = Answer(requestId: string, security: Option<seq<SecurityResult>>,
                           legacySecurity: Option<seq<SecurityResult>>,
                           legacySignals: seq<Signal>, equivalence: Option<seq<EquivalenceResult>>,
                           conflicts: Option<seq<ConflictResult>>, entities: Option<seq<EntityResult>>,
                           relationships: Option<seq<RelationshipResult>>)

  function Items<T>(o: Option<seq<T>>): seq<T> {
    if o.Some? then o.value else []
  }

  // ----- The answer after trimming

  ghost predicate EachSecurityNormal(legacy: seq<Signal>, from: seq<SecurityResult>, to: seq<SecurityResult>) {
    |to| == |from| && forall i :: 0 <= i < |from| ==> to[i] == NormalSecurity(legacy, from[i])
  }

  ghost predicate EachEquivalenceNormal(from: seq<EquivalenceResult>, to: seq<EquivalenceResult>) {
    |to| == |from| && forall i :: 0 <= i < |from| ==> to[i] == NormalEquivalence(from[i])
  }

  ghost predicate EachEntityNormal(from: seq<EntityResult>, to: seq<EntityResult>) {
    |to| == |from| && forall i :: 0 <= i < |from| ==> to[i] == NormalEntity(from[i])
  }

  ghost predicate EachRelationshipNormal(rules: Rules, from: seq<RelationshipResult>, to: seq<RelationshipResult>) {
    |to| == |from| && forall i :: 0 <= i < |from| ==> to[i] == NormalRelationship(rules, from[i])
  }

  /** The security results, or the older list when there are none. */
  function SecurityInput(a: Answer): Option<seq<SecurityResult>> {
    if Items(a.security) == [] && a.legacySecurity.Some? then a.legacySecurity else a.security
  }

  ghost predicate NormalAnswer(rules: Rules, a: Answer, n: Answer) {
    && n.requestId == Trim(a.requestId)
    && n.security.Some? == SecurityInput(a).Some?
      && EachSecurityNormal(a.legacySignals, Items(SecurityInput(a)), Items(n.security))
    && n.legacySecurity == None && n.legacySignals == []
    && n.equivalence.Some? == a.equivalence.Some? && EachEquivalenceNormal(Items(a.equivalence), Items(n.equivalence))
    && n.conflicts == a.conflicts
    && n.entities.Some? == a.entities.Some? && EachEntityNormal(Items(a.entities), Items(n.entities))
    && n.relationships.Some? == a.relationships.Some?
      && EachRelationshipNormal(rules, Items(a.relationships), Items(n.relationships))
  }

  // ----- The answer after resolving its references

  ghost predicate EachSecurityResolved(m: map<string, Evidence>, from: seq<SecurityResult>, to: seq<SecurityResult>) {
    |to| == |from| && forall i :: 0 <= i < |from| ==> to[i] == ResolvedSecurity(m, from[i]).1
  }

  ghost predicate EachEntityResolved(req: Request, m: map<string, Evidence>, from: seq<EntityResult>,
                                     to: seq<EntityResult>) {
    |to| == |from| && forall i :: 0 <= i < |from| ==> to[i] == ResolvedEntity(req, m, from[i]).1
  }

  ghost predicate EachRelationshipResolved(m: map<string, Evidence>, from: seq<RelationshipResult>,
                                           to: seq<RelationshipResult>) {
    |to| == |from| && forall i :: 0 <= i < |from| ==> to[i] == ResolvedRelationship(m, from[i]).1
  }

  ghost predicate SecurityResolves(m: map<string, Evidence>, s: seq<SecurityResult>) {
    forall i :: 0 <= i < |s| ==> ResolvedSecurity(m, s[i]).0
  }

  ghost predicate EntitiesResolve(req: Request, m: map<string, Evidence>, s: seq<EntityResult>) {
    forall i :: 0 <= i < |s| ==> ResolvedEntity(req, m, s[i]).0
  }

  ghost predicate RelationshipsResolve(m: map<string, Evidence>, s: seq<RelationshipResult>) {
    forall i :: 0 <= i < |s| ==> ResolvedRelationship(m, s[i]).0
  }

  function Submitted(req: Request): map<string, Evidence> {
    EvidenceById(req.sources.submitted)
  }

  ghost predicate ResolvedAnswer(req: Request, n: Answer, r: Answer) {
    && r.requestId == n.requestId && r.legacySecurity == n.legacySecurity && r.legacySignals == n.legacySignals
    && r.equivalence == n.equivalence
    && r.security.Some? == n.security.Some?
      && EachSecurityResolved(Submitted(req), Items(n.security), Items(r.security))
    && r.entities.Some? == n.entities.Some?
      && EachEntityResolved(req, AllEvidence(req), Items(n.entities), Items(r.entities))
    && r.relationships.Some? == n.relationships.Some?
      && EachRelationshipResolved(AllEvidence(req), Items(n.relationships), Items(r.relationships))
  }

  ghost predicate Resolves(req: Request, n: Answer) {
    && SecurityResolves(Submitted(req), Items(n.security))
    && EntitiesResolve(req, AllEvidence(req), Items(n.entities))
    && RelationshipsResolve(AllEvidence(req), Items(n.relationships))
  }

  // ----- Acceptance

  predicate WithinShape(rules: Rules, req: Request, n: Answer) {
    && n.requestId != "" && |n.requestId| <= MaxRef && n.requestId == req.requestId
    && n.security.Some? && |n.security.value| <= rules.maxEvidence
    && n.equivalence.Some? && |n.equivalence.value| <= rules.maxEvidence
    && n.entities.Some? && |n.entities.value| <= rules.maxEntities
    && n.relationships.Some? && |n.relationships.value| <= rules.maxRelationships
  }

  predicate GroupsKnown(req: Request) {
    forall i :: 0 <= i < |req.sources.groups| ==> Trim(req.sources.groups[i].evidenceId) in Submitted(req)
  }

  /** The checks of a resolved answer; its entity surfaces do not matter to them. */
  ghost predicate Clean(rules: Rules, req: Request, r: Answer) {
    && AllSecurityClean(rules, Submitted(req), Items(r.security))
    && GroupsKnown(req) && EquivalenceClean(req.sources.groups, Items(r.equivalence))
    && AllEntitiesClean(rules, req, AllEvidence(req), Items(r.relationships), Items(r.entities))
    && var entities := AllSurfaced(AllEvidence(req), Items(r.entities));
    && AllRelationshipsClean(rules, req.predicates, AllEvidence(req), entities, Items(r.relationships))
    && AllMet(req.required, Items(r.relationships))
    && (req.contract.Some? ==> ContractKept(req.contract.value, entities, Items(r.relationships)))
  }

  ghost predicate Final(req: Request, r: Answer, out: Answer) {
    && out == r.(conflicts := out.conflicts, entities := out.entities)
    && out.entities == if r.entities.None? then None else Some(AllSurfaced(AllEvidence(req), r.entities.value))
  }

  /** The prepared answer `out` of a raw answer, given the citable evidence. */
  ghost predicate AcceptedAs(rules: Rules, tokens: Answer -> Option<int>, req: Request, citable: map<string, Citable>,
                             raw: Answer, n: Answer, r: Answer, out: Answer) {
    && NormalAnswer(rules, raw, n) && WithinShape(rules, req, n)
    && Resolves(req, n) && ResolvedAnswer(req, n, r) && Clean(rules, req, r)
    && Final(req, r, out) && n.conflicts.Some? && out.conflicts.Some?
    && AcceptedConflicts(citable, Reused(Items(r.equivalence)), n.conflicts.value, out.conflicts.value)
    && tokens(out).Some? && tokens(out).value <= rules.maxOutputTokens
  }

  lemma {:induction false} ConflictsResolveOnce(citable: map<string, Citable>, reused: set<string>,
                                                results: seq<ConflictResult>,
                             a: seq<ConflictResult>, b: seq<ConflictResult>)
    requires AcceptedConflicts(citable, reused, results, a) && AcceptedConflicts(citable, reused, results, b)
    ensures a == b
  {
    forall i | 0 <= i < |results|
      ensures a[i] == b[i]
    {
      CleanResultExact(citable, reused, results[i].positions, a[i].positions);
      CleanResultExact(citable, reused, results[i].positions, b[i].positions);
      ResolutionIsUnique(citable, results[i].positions, a[i].positions, b[i].positions);
    }
  }

  /** A resolved answer has one prepared form. */
  lemma {:induction false} OneOutcome(rules: Rules, tokens: Answer -> Option<int>, req: Request,
                                      citable: map<string, Citable>,
                   raw: Answer, n: Answer, r: Answer, out: Answer)
    requires Final(req, r, out) && n.conflicts.Some? && out.conflicts.Some?
    requires AcceptedConflicts(citable, Reused(Items(r.equivalence)), n.conflicts.value, out.conflicts.value)
    ensures forall other :: AcceptedAs(rules, tokens, req, citable, raw, n, r, other) ==> other == out
  {
    hide NormalAnswer, ResolvedAnswer, Resolves, Clean, AcceptedConflicts, WithinShape, AllSurfaced, AllEvidence;
    hide Reused;
    forall other | AcceptedAs(rules, tokens, req, citable, raw, n, r, other)
      ensures other == out
    {
      ConflictsResolveOnce(citable, Reused(Items(r.equivalence)), n.conflicts.value, out.conflicts.value,
          other.conflicts.value);
    }
  }

  class AssessmentResponse {
    var requestId: string
    var security: Option<seq<SecurityResult>>
    var legacySecurity: Option<seq<SecurityResult>>
    var legacySignals: seq<Signal>
    var equivalence: Option<seq<EquivalenceResult>>
    var conflicts: Option<seq<ConflictResult>>
    var entities: Option<seq<EntityResult>>
    var relationships: Option<seq<RelationshipResult>>

    function Contents(): Answer
      reads this
    {
      Answer(requestId, security, legacySecurity, legacySignals, equivalence, conflicts, entities, relationships)
    }

    constructor (a: Answer)
      ensures Contents() == a
    {
      requestId, security, legacySecurity, legacySignals := a.requestId, a.security, a.legacySecurity, a.legacySignals;
      equivalence, conflicts, entities, relationships := a.equivalence, a.conflicts, a.entities, a.relationships;
    }

    method NormalizeSecurity()
      modifies this`security, this`legacySecurity, this`legacySignals
      ensures security.Some? == SecurityInput(old(Contents())).Some?
      ensures EachSecurityNormal(old(legacySignals), Items(SecurityInput(old(Contents()))), Items(security))
      ensures legacySecurity == None && legacySignals == []
    {
      hide NormalSecurity;
      if Items(security) == [] && legacySecurity.Some? {
        security := legacySecurity;
      }
      ghost var start := security;
      var n := |Items(security)|;
      for i := 0 to n
        invariant security.Some? == start.Some? && legacySignals == old(legacySignals)
                  && |Items(security)| == n == |Items(start)|
        invariant forall k :: 0 <= k < i ==> Items(security)[k] == NormalSecurity(legacySignals, Items(start)[k])
        invariant forall k :: i <= k < n ==> Items(security)[k] == Items(start)[k]
      {
        security := Some(security.value[i := NormalSecurity(legacySignals, security.value[i])]);
      }
      legacySecurity, legacySignals := None, [];
    }

    method NormalizeEquivalence()
      modifies this`equivalence
      ensures equivalence.Some? == old(equivalence).Some?
              && EachEquivalenceNormal(Items(old(equivalence)), Items(equivalence))
    {
      hide NormalEquivalence;
      var n := |Items(equivalence)|;
      for i := 0 to n
        invariant equivalence.Some? == old(equivalence).Some? && |Items(equivalence)| == n
        invariant forall k :: 0 <= k < i ==> Items(equivalence)[k] == NormalEquivalence(Items(old(equivalence))[k])
        invariant forall k :: i <= k < n ==> Items(equivalence)[k] == Items(old(equivalence))[k]
      {
        equivalence := Some(equivalence.value[i := NormalEquivalence(equivalence.value[i])]);
      }
    }

    method NormalizeEntities()
      modifies this`entities
      ensures entities.Some? == old(entities).Some? && EachEntityNormal(Items(old(entities)), Items(entities))
    {
      hide NormalEntity;
      var n := |Items(entities)|;
      for i := 0 to n
        invariant entities.Some? == old(entities).Some? && |Items(entities)| == n
        invariant forall k :: 0 <= k < i ==> Items(entities)[k] == NormalEntity(Items(old(entities))[k])
        invariant forall k :: i <= k < n ==> Items(entities)[k] == Items(old(entities))[k]
      {
        entities := Some(entities.value[i := NormalEntity(entities.value[i])]);
      }
    }

    method NormalizeRelationships(rules: Rules)
      modifies this`relationships
      ensures relationships.Some? == old(relationships).Some?
      ensures EachRelationshipNormal(rules, Items(old(relationships)), Items(relationships))
    {
      hide NormalRelationship;
      var n := |Items(relationships)|;
      for i := 0 to n
        invariant relationships.Some? == old(relationships).Some? && |Items(relationships)| == n
        invariant forall k :: 0 <= k < i ==>
                    Items(relationships)[k] == NormalRelationship(rules, Items(old(relationships))[k])
        invariant forall k :: i <= k < n ==> Items(relationships)[k] == Items(old(relationships))[k]
      {
        relationships := Some(relationships.value[i := NormalRelationship(rules, relationships.value[i])]);
      }
    }

    method Normalize(rules: Rules)
      modifies this
      ensures NormalAnswer(rules, old(Contents()), Contents())
    {
      hide EachSecurityNormal, EachEquivalenceNormal, EachEntityNormal, EachRelationshipNormal;
      requestId := Trim(requestId);
      NormalizeSecurity();
      NormalizeEquivalence();
      NormalizeEntities();
      NormalizeRelationships(rules);
    }

    method ResolveSecurity(m: map<string, Evidence>) returns (ok: bool)
      modifies this`security
      ensures security.Some? == old(security).Some? && EachSecurityResolved(m, Items(old(security)), Items(security))
      ensures ok <==> SecurityResolves(m, Items(old(security)))
    {
      hide ResolvedSecurity;
      ok := true;
      var n := |Items(security)|;
      for i := 0 to n
        invariant security.Some? == old(security).Some? && |Items(security)| == n
        invariant forall k :: 0 <= k < i ==> Items(security)[k] == ResolvedSecurity(m, Items(old(security))[k]).1
        invariant forall k :: i <= k < n ==> Items(security)[k] == Items(old(security))[k]
        invariant ok <==> forall k :: 0 <= k < i ==> ResolvedSecurity(m, Items(old(security))[k]).0
      {
        var (resolves, result) := ResolvedSecurity(m, security.value[i]);
        security := Some(security.value[i := result]);
        ok := ok && resolves;
      }
    }

    method ResolveEntities(req: Request) returns (ok: bool)
      modifies this`entities
      ensures entities.Some? == old(entities).Some?
              && EachEntityResolved(req, AllEvidence(req), Items(old(entities)), Items(entities))
      ensures ok <==> EntitiesResolve(req, AllEvidence(req), Items(old(entities)))
    {
      hide ResolvedEntity;
      ok := true;
      var m, n := AllEvidence(req), |Items(entities)|;
      for i := 0 to n
        invariant entities.Some? == old(entities).Some? && |Items(entities)| == n
        invariant forall k :: 0 <= k < i ==> Items(entities)[k] == ResolvedEntity(req, m, Items(old(entities))[k]).1
        invariant forall k :: i <= k < n ==> Items(entities)[k] == Items(old(entities))[k]
        invariant ok <==> forall k :: 0 <= k < i ==> ResolvedEntity(req, m, Items(old(entities))[k]).0
      {
        var (resolves, result) := ResolvedEntity(req, m, entities.value[i]);
        entities := Some(entities.value[i := result]);
        ok := ok && resolves;
      }
    }

    method ResolveRelationships(m: map<string, Evidence>) returns (ok: bool)
      modifies this`relationships
      ensures relationships.Some? == old(relationships).Some?
      ensures EachRelationshipResolved(m, Items(old(relationships)), Items(relationships))
      ensures ok <==> RelationshipsResolve(m, Items(old(relationships)))
    {
      hide ResolvedRelationship;
      ok := true;
      var n := |Items(relationships)|;
      for i := 0 to n
        invariant relationships.Some? == old(relationships).Some? && |Items(relationships)| == n
        invariant forall k :: 0 <= k < i ==>
                    Items(relationships)[k] == ResolvedRelationship(m, Items(old(relationships))[k]).1
        invariant forall k :: i <= k < n ==> Items(relationships)[k] == Items(old(relationships))[k]
        invariant ok <==> forall k :: 0 <= k < i ==> ResolvedRelationship(m, Items(old(relationships))[k]).0
      {
        var (resolves, result) := ResolvedRelationship(m, relationships.value[i]);
        relationships := Some(relationships.value[i := result]);
        ok := ok && resolves;
      }
    }

    method Resolve(req: Request) returns (ok: bool)
      modifies this`entities, this`relationships, this`security
      ensures ResolvedAnswer(req, old(Contents()), Contents()) && conflicts == old(conflicts)
      ensures ok <==> Resolves(req, old(Contents()))
    {
      hide EachSecurityResolved, EachEntityResolved, EachRelationshipResolved, SecurityResolves, EntitiesResolve;
      hide RelationshipsResolve, AllEvidence;
      var entitiesOk := ResolveEntities(req);
      var relationshipsOk := ResolveRelationships(AllEvidence(req));
      var securityOk := ResolveSecurity(Submitted(req));
      ok := entitiesOk && relationshipsOk && securityOk;
    }

    /** Every check of the resolved response; accepts exactly the clean ones. */
    method Check(rules: Rules, req: Request) returns (ok: bool)
      modifies this`entities
      ensures ok <==> Clean(rules, req, old(Contents()))
      ensures ok ==> Final(req, old(Contents()), Contents())
    {
      hide AllSecurityClean, EquivalenceClean, AllEntitiesClean, AllRelationshipsClean, AllMet, AllSurfaced;
      hide AllEvidence, EvidenceById, Trim;
      var m := AllEvidence(req);
      var s := CheckSecurity(rules, Submitted(req), Items(security));
      var known := GroupsKnown(req);
      var q := CheckEquivalence(req.sources.groups, Items(equivalence));
      var e, surfaced := CheckEntities(rules, req, m, Items(relationships), Items(entities));
      var r := CheckRelationships(rules, req.predicates, m, surfaced, Items(relationships));
      var required := CheckRequired(req.required, Items(relationships));
      ok := s && known && q && e && r && required;
      if req.contract.Some? {
        var keptEntities := CheckKeptEntities(req.contract.value, surfaced, Items(relationships));
        var keptRelationships := CheckKeptRelationships(req.contract.value, Items(relationships));
        ok := ok && keptEntities && keptRelationships;
      }
      if entities.Some? {
        entities := Some(surfaced);
      }
    }

    /** PrepareSemanticAssessmentResponse: accepts exactly the responses that have a prepared form, and prepares them
        in place. */
    method Prepare(rules: Rules, tokens: Answer -> Option<int>, req: Request)
      returns (ok: bool, ghost citable: map<string, Citable>, ghost n: Answer, ghost r: Answer)
      modifies this
      ensures IsCitable(req.sources, citable)
      ensures ok ==> AcceptedAs(rules, tokens, req, citable, old(Contents()), n, r, Contents())
      ensures !ok ==> forall out :: !AcceptedAs(rules, tokens, req, citable, old(Contents()), n, r, out)
      ensures NormalAnswer(rules, old(Contents()), n) && ResolvedAnswer(req, n, r)
    {
      hide NormalAnswer, ResolvedAnswer, Resolves, Clean, IsCitable, AcceptedConflicts, WithinShape;
      Normalize(rules);
      n := Contents();
      var shape := WithinShape(rules, req, Contents());
      var resolves := Resolve(req);
      r := Contents();
      var founded, cited, c := ResolveConflictResults(req.sources, rules.candidateRefs, Items(equivalence), conflicts);
      citable := c;
      var clean := Check(rules, req);
      if founded {
        conflicts := Some(cited);
      }
      var out := Contents();
      var count := tokens(out);
      ok := shape && resolves && founded && clean && count.Some? && count.value <= rules.maxOutputTokens;
      if shape && resolves && founded && clean {
        OneOutcome(rules, tokens, req, citable, old(Contents()), n, r, out);
      }
    }
  }
}
