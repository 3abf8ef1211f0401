/** The assessor's request and response, and how a response is trimmed and its references are resolved. */
module Assessment {
  import opened Options
  import opened Text
  import opened Boundaries
  import opened EvidenceConflicts

  // ----- The request

  datatype EntityCandidate = EntityCandidate(id: string, kind: string)
  datatype EntityGroup = EntityGroup(groundingRef: string, evidenceId: string, surface: string, start: int, end: int,
                                     truncated: bool, candidates: seq<EntityCandidate>)
  datatype PredicateOption = PredicateOption(key: string, version: int, subjectKinds: seq<string>,
                                             objectKinds: seq<string>)

  datatype Grounding = Grounding(ref: string, evidenceId: string, surface: string, anchorRef: string, start: int,
                                 end: int)
  datatype Anchor = Anchor(ref: string, evidenceId: string, start: int, end: int, candidates: seq<string>)
  datatype EntityTarget = EntityTarget(ref: string, name: string, kind: string, knownId: string,
                                       groundings: seq<Grounding>, anchors: seq<Anchor>)
  datatype RelationshipTarget = RelationshipTarget(ref: string, knownKey: string, evidenceIds: seq<string>,
                                                   knownEvidenceIds: seq<string>,
                                                   knownUnavailable: bool, subjectRef: string,
                                                       objectRef: Option<string>,
                                                   objectValue: Option<Value>, polarity: string,
                                                   validFrom: Option<string>, validTo: Option<string>, maxSplits: int)
  datatype Contract = Contract(entities: seq<EntityTarget>, relationships: seq<RelationshipTarget>)

  /** A relationship the server itself requires, with evidence of its own. */
  datatype Requirement = Requirement(ref: string, evidenceIds: seq<string>, knownEvidenceIds: seq<string>,
                                     knownUnavailable: bool,
                                     spans: seq<Span>)

  datatype Request = Request(requestId: string, sources: Sources, entityGroups: seq<EntityGroup>,
                             predicates: seq<PredicateOption>, required: seq<Requirement>, contract: Option<Contract>)

  /** Calls into the standard library and the configured bounds. */
  datatype Rules = Rules(parseTime: string -> Option<int>, formatTime: int -> string, lower: string -> string,
                         hasActiveMarkup: string -> bool, candidateRefs: string -> map<string, nat>,
                         maxEvidence: int, maxEntities: int, maxRelationships: int, maxOutputTokens: int)

  const EntityKinds := ["person", "organization", "project", "product", "place", "document", "concept", "other"]
  const ValueTypes := ["string", "number", "boolean", "date", "date_time"]
  const RelationshipKinds := ["state", "event"]
  const Cardinalities := ["one", "many"]
  const SecurityKinds :=
      ["role_control_spoofing", "instruction_override", "prompt_secret_extraction", "tool_exfiltration",
                          "obfuscated_instruction", "hidden_control_markup"]

  const MaxSplits := 50
  const MaxSpans := 20
  const MaxSignals := 64
  const MaxRef := 128
  const MaxPredicate := 256
  const MaxValue := 4096

  // ----- The response

  datatype Range = Range(evidenceId: string, startRef: string, endRef: string, start: int, end: int)
  datatype Span = Span(evidenceId: string, start: int, end: int)
  datatype Value = Value(valueType: string, canonical: string, display: Option<string>, unit: Option<string>)
  datatype Registration = Registration(key: string, kind: string, cardinality: string)

  datatype Split = Split(index: int, subjectRef: string, phrase: string, predicateRange: Range, status: string,
                         key: Option<string>,
                         version: Option<int>, registration: Option<Registration>, objectRef: Option<string>,
                         objectValue: Option<Value>, valueRange: Option<Range>, polarity: string, supports: seq<Range>,
                         evidence: seq<Span>, validFrom: Option<string>, validTo: Option<string>)
  datatype RelationshipResult = RelationshipResult(ref: string, disposition: string, reason: Option<string>,
                                                   splits: seq<Split>)

  datatype EntityResult = EntityResult(ref: string, groundingRef: Option<string>, anchorRef: Option<string>,
                                       action: string,
                                       candidateId: Option<string>, kind: string, surface: string,
                                       evidenceId: string, start: int, end: int)

  datatype Signal = Signal(evidenceId: string, kind: string, startRef: string, endRef: string, start: int, end: int)
  datatype SecurityResult = SecurityResult(evidenceId: string, decision: string, signals: seq<Signal>)

  // ----- Lookups: a Go map filled in order keeps the last entry of a key

  function EvidenceById(items: seq<Evidence>): map<string, Evidence> {
    if items == [] then map[] else
    var last := items[|items| - 1];
    EvidenceById(items[..|items| - 1])[Trim(last.id) := last]
  }

  /** Submitted and known evidence; a known item wins over a submitted one of the same id. */
  function AllEvidence(req: Request): map<string, Evidence> {
    EvidenceById(req.sources.submitted) + EvidenceById(req.sources.known)
  }

  function EntityTargets(c: Option<Contract>): seq<EntityTarget> {
    if c.None? then [] else c.value.entities
  }

  function EntityTargetOf(targets: seq<EntityTarget>, ref: string): (t: Option<EntityTarget>)
    ensures t.Some? ==> t.value in targets && t.value.ref == ref
    ensures t.None? ==> forall x :: x in targets ==> x.ref != ref
  {
    if targets == [] then None
    else if targets[|targets| - 1].ref == ref then Some(targets[|targets| - 1])
    else EntityTargetOf(targets[..|targets| - 1], ref)
  }

  function RelationshipTargetOf(targets: seq<RelationshipTarget>, ref: string): (t: Option<RelationshipTarget>)
    ensures t.Some? ==> t.value in targets && t.value.ref == ref
    ensures t.None? ==> forall x :: x in targets ==> x.ref != ref
  {
    if targets == [] then None
    else if targets[|targets| - 1].ref == ref then Some(targets[|targets| - 1])
    else RelationshipTargetOf(targets[..|targets| - 1], ref)
  }

  function EntityResultOf(results: seq<EntityResult>, ref: string): (t: Option<EntityResult>)
    ensures t.Some? ==> t.value in results && t.value.ref == ref
    ensures t.None? ==> forall x :: x in results ==> x.ref != ref
  {
    if results == [] then None
    else if results[|results| - 1].ref == ref then Some(results[|results| - 1])
    else EntityResultOf(results[..|results| - 1], ref)
  }

  function RelationshipResultOf(results: seq<RelationshipResult>, ref: string): (t: Option<RelationshipResult>)
    ensures t.Some? ==> t.value in results && t.value.ref == ref
    ensures t.None? ==> forall x :: x in results ==> x.ref != ref
  {
    if results == [] then None
    else if results[|results| - 1].ref == ref then Some(results[|results| - 1])
    else RelationshipResultOf(results[..|results| - 1], ref)
  }

  function GroupByRef(groups: seq<EntityGroup>, ref: string): (g: Option<EntityGroup>)
    ensures g.Some? ==> g.value in groups && g.value.groundingRef == ref
    ensures g.None? ==> forall x :: x in groups ==> x.groundingRef != ref
  {
    if groups == [] then None
    else if groups[|groups| - 1].groundingRef == ref then Some(groups[|groups| - 1])
    else GroupByRef(groups[..|groups| - 1], ref)
  }

  function GroupBySpan(groups: seq<EntityGroup>, span: Span): (g: Option<EntityGroup>)
    ensures g.Some? ==> g.value in groups && Span(g.value.evidenceId, g.value.start, g.value.end) == span
    ensures g.None? ==> forall x :: x in groups ==> Span(x.evidenceId, x.start, x.end) != span
  {
    if groups == [] then None
    else
      var last := groups[|groups| - 1];
      if Span(last.evidenceId, last.start, last.end) == span then Some(last)
          else GroupBySpan(groups[..|groups| - 1], span)
  }

  function OptionOf(options: seq<PredicateOption>, key: string, version: int): (o: Option<PredicateOption>)
    ensures o.Some? ==> o.value in options && o.value.key == key && o.value.version == version
    ensures o.None? ==> forall x :: x in options ==> x.key != key || x.version != version
  {
    if options == [] then None
    else
      var last := options[|options| - 1];
      if last.key == key && last.version == version then Some(last)
          else OptionOf(options[..|options| - 1], key, version)
  }

  /** The evidence of that id, from the right. */
  predicate LastOf(items: seq<Evidence>, id: string, e: Evidence) {
    exists i :: 0 <= i < |items| && items[i] == e && Trim(e.id) == id
                && forall k :: i < k < |items| ==> Trim(items[k].id) != id
  }

  /** A lookup by id gives the last item of that id. */
  lemma {:induction false} LastEvidenceById(items: seq<Evidence>, id: string)
    ensures id in EvidenceById(items) <==> exists i :: 0 <= i < |items| && Trim(items[i].id) == id
    ensures id in EvidenceById(items) ==> LastOf(items, id, EvidenceById(items)[id])
  {
    hide Trim;
    if items != [] {
      var init := items[..|items| - 1];
      LastEvidenceById(init, id);
      assert forall i :: 0 <= i < |init| ==> init[i] == items[i];
    }
  }

  /** The ids are those of submitted and known evidence, and known evidence hides submitted evidence of its id. */
  lemma {:induction false} KnownEvidenceWins(req: Request, id: string)
    ensures id in AllEvidence(req) <==>
              exists e :: (e in req.sources.submitted || e in req.sources.known) && Trim(e.id) == id
    ensures id in AllEvidence(req) ==>
              if exists e :: e in req.sources.known && Trim(e.id) == id
              then LastOf(req.sources.known, id, AllEvidence(req)[id])
              else LastOf(req.sources.submitted, id, AllEvidence(req)[id])
  {
    hide Trim, LastOf;
    LastEvidenceById(req.sources.submitted, id);
    LastEvidenceById(req.sources.known, id);
  }

  // ----- Lookups that take the first match

  function GroundingByRef(groundings: seq<Grounding>, ref: string): (g: Option<Grounding>)
    ensures g.Some? ==> g.value in groundings && g.value.ref == Trim(ref)
    ensures g.None? ==> forall x :: x in groundings ==> x.ref != Trim(ref)
  {
    if groundings == [] then None
    else if groundings[0].ref == Trim(ref) then Some(groundings[0])
    else GroundingByRef(groundings[1..], ref)
  }

  function AnchorByRef(anchors: seq<Anchor>, ref: string): (a: Option<Anchor>)
    ensures a.Some? ==> a.value in anchors && a.value.ref == Trim(ref)
    ensures a.None? ==> forall x :: x in anchors ==> x.ref != Trim(ref)
  {
    if anchors == [] then None
    else if anchors[0].ref == Trim(ref) then Some(anchors[0])
    else AnchorByRef(anchors[1..], ref)
  }

  function CandidateKind(candidates: seq<EntityCandidate>, id: string, otherwise: string): string {
    if candidates == [] then otherwise
    else if candidates[0].id == id then candidates[0].kind
    else CandidateKind(candidates[1..], id, otherwise)
  }

  // ----- Span keys

  function SpanKey(s: Span): string
    requires s.start >= 0 && s.end >= 0
  {
    s.evidenceId + ":" + Numeral(s.start, 10) + ":" + Numeral(s.end, 10)
  }

  lemma {:induction false} SameTail(a: string, x: string, b: string, y: string)
    requires a + ":" + x == b + ":" + y
    requires (forall i :: 0 <= i < |x| ==> IsDigit(x[i])) && forall i :: 0 <= i < |y| ==> IsDigit(y[i])
    ensures a == b && x == y
  {
    var s, t := a + ":" + x, b + ":" + y;
    assert s[|a|] == ':' && t[|b|] == ':';
    assert forall i :: |a| < i < |s| ==> s[i] == x[i - |a| - 1];
    assert forall i :: |b| < i < |t| ==> t[i] == y[i - |b| - 1];
    assert |a| == |b|;
    assert a == s[..|a|] && b == t[..|a|] && x == s[|a| + 1..] && y == t[|a| + 1..];
  }

  /** The formatted key names one span only, whatever the evidence id contains. */
  lemma {:induction false} SpanKeyIsUnambiguous(s: Span, t: Span)
    requires s.start >= 0 && s.end >= 0 && t.start >= 0 && t.end >= 0 && SpanKey(s) == SpanKey(t)
    ensures s == t
  {
    SameTail(s.evidenceId + ":" + Numeral(s.start, 10), Numeral(s.end, 10), t.evidenceId + ":" + Numeral(t.start, 10),
        Numeral(t.end, 10));
    SameTail(s.evidenceId, Numeral(s.start, 10), t.evidenceId, Numeral(t.start, 10));
    NumeralInjective(s.start, t.start, 10);
    NumeralInjective(s.end, t.end, 10);
  }

  // ----- Trimming

  function TrimOption(o: Option<string>): Option<string> {
    if o.None? then None else Some(Trim(o.value))
  }

  /** normalizeAssessmentTime: blank is absent, a timestamp is rewritten, anything else stays as it came. */
  function NormalTime(rules: Rules, o: Option<string>): Option<string> {
    if o.None? || Trim(o.value) == "" then None else
    var parsed := rules.parseTime(Trim(o.value));
    if parsed.None? then o else Some(rules.formatTime(parsed.value))
  }

  function NormalRange(r: Range): Range {
    r.(evidenceId := Trim(r.evidenceId), startRef := Trim(r.startRef), endRef := Trim(r.endRef))
  }

  function NormalRanges(s: seq<Range>): (r: seq<Range>)
    ensures |r| == |s| && forall i :: 0 <= i < |s| ==> r[i] == NormalRange(s[i])
  {
    seq(|s|, i requires 0 <= i < |s| => NormalRange(s[i]))
  }

  function NormalSplit(rules: Rules, s: Split): Split {
    s.(subjectRef := Trim(s.subjectRef),
       predicateRange := NormalRange(s.predicateRange),
       status := Trim(s.status),
       polarity := Trim(s.polarity),
       key := TrimOption(s.key),
       registration := if s.registration.None? then None
                       else Some(Registration(Trim(s.registration.value.key), Trim(s.registration.value.kind),
                           Trim(s.registration.value.cardinality))),
       objectRef := TrimOption(s.objectRef),
       valueRange := if s.valueRange.None? then None else Some(NormalRange(s.valueRange.value)),
       supports := NormalRanges(s.supports),
       objectValue := if s.objectValue.None? then None
                      else Some(Value(Trim(s.objectValue.value.valueType), Trim(s.objectValue.value.canonical),
                                      TrimOption(s.objectValue.value.display), TrimOption(s.objectValue.value.unit))),
       validFrom := NormalTime(rules, s.validFrom),
       validTo := NormalTime(rules, s.validTo))
  }

  function NormalSplits(rules: Rules, s: seq<Split>): (r: seq<Split>)
    ensures |r| == |s| && forall i :: 0 <= i < |s| ==> r[i] == NormalSplit(rules, s[i])
  {
    seq(|s|, i requires 0 <= i < |s| => NormalSplit(rules, s[i]))
  }

  function NormalRelationship(rules: Rules, r: RelationshipResult): RelationshipResult {
    RelationshipResult(Trim(r.ref), Trim(r.disposition), TrimOption(r.reason), NormalSplits(rules, r.splits))
  }

  function NormalEntity(r: EntityResult): EntityResult {
    r.(ref := Trim(r.ref), groundingRef := TrimOption(r.groundingRef), anchorRef := TrimOption(r.anchorRef),
       action := Trim(r.action), candidateId := TrimOption(r.candidateId))
  }

  function NormalSignal(id: string, s: Signal): Signal {
    Signal(Trim(if Trim(s.evidenceId) == "" then id else s.evidenceId), Trim(s.kind), Trim(s.startRef), Trim(s.endRef),
        s.start, s.end)
  }

  function NormalSignals(id: string, s: seq<Signal>): (r: seq<Signal>)
    ensures |r| == |s| && forall i :: 0 <= i < |s| ==> r[i] == NormalSignal(id, s[i])
  {
    seq(|s|, i requires 0 <= i < |s| => NormalSignal(id, s[i]))
  }

  function SignalsFor(legacy: seq<Signal>, id: string): seq<Signal> {
    if legacy == [] then []
        else (if Trim(legacy[0].evidenceId) == id then [legacy[0]] else []) + SignalsFor(legacy[1..], id)
  }

  /** A result without signals of its own takes those of the older flat list. */
  function NormalSecurity(legacy: seq<Signal>, r: SecurityResult): SecurityResult {
    var id := Trim(r.evidenceId);
    SecurityResult(id, Trim(r.decision), if r.signals == [] then SignalsFor(legacy, id)
        else NormalSignals(id, r.signals))
  }

  function NormalEquivalence(r: EquivalenceResult): EquivalenceResult {
    EquivalenceResult(Trim(r.evidenceId), Trim(r.action), TrimOption(r.candidateId))
  }

  // ----- Resolving references

  function NoAnchor(r: EntityResult): bool {
    r.anchorRef.None? || Trim(r.anchorRef.value) == ""
  }

  predicate AnchorPrecedes(m: map<string, Evidence>, a: Anchor, g: Grounding) {
    && a.evidenceId in m && g.evidenceId in m
    && (m[a.evidenceId].index < m[g.evidenceId].index
        || (m[a.evidenceId].index == m[g.evidenceId].index && a.end <= g.start))
  }

  /** An anchored mention reuses a candidate of the anchor it copies, and that anchor comes first. */
  predicate AnchorKept(m: map<string, Evidence>, t: EntityTarget, g: Grounding, r: EntityResult) {
    if g.anchorRef == "" then NoAnchor(r) else
    var a := AnchorByRef(t.anchors, g.anchorRef);
    && r.anchorRef.Some? && Trim(r.anchorRef.value) == g.anchorRef
    && a.Some? && AnchorPrecedes(m, a.value, g)
    && r.action == "reuse" && r.candidateId.Some? && r.candidateId.value in a.value.candidates
  }

  function WithCandidateKind(r: EntityResult, g: Option<EntityGroup>): EntityResult {
    if r.candidateId.None? || g.None? then r
        else r.(kind := CandidateKind(g.value.candidates, r.candidateId.value, r.kind))
  }

  /** The entity result with the span of its grounding, and whether the grounding is allowed. */
  function ResolvedEntity(req: Request, m: map<string, Evidence>, r: EntityResult): (bool, EntityResult) {
    var t := EntityTargetOf(EntityTargets(req.contract), r.ref);
    var named := if t.Some? then r.(kind := t.value.kind, surface := t.value.name) else r;
    if r.groundingRef.None? then (NoAnchor(r), named) else
    var selected := Trim(r.groundingRef.value);
    var chosen := named.(groundingRef := Some(selected));
    var group := GroupByRef(req.entityGroups, selected);
    if t.Some? then
      var g := GroundingByRef(t.value.groundings, selected);
      if g.None? then (false, chosen) else
      var placed :=
          chosen.(surface := g.value.surface, evidenceId := g.value.evidenceId, start := g.value.start,
              end := g.value.end);
      (AnchorKept(m, t.value, g.value, r), WithCandidateKind(placed, group))
    else if group.None? then (false, chosen)
    else
      var placed :=
          chosen.(surface := group.value.surface, evidenceId := group.value.evidenceId, start := group.value.start,
              end := group.value.end);
      (NoAnchor(r), WithCandidateKind(placed, group))
  }

  /** A range with its offsets, when its evidence is known and its references are in order. */
  function ResolvedRange(m: map<string, Evidence>, range: Range): (bool, Range) {
    var r := NormalRange(range);
    if r.evidenceId !in m then (false, r) else
    var offsets := ResolveRange(m[r.evidenceId], r.startRef, r.endRef);
    if offsets.None? then (false, r) else (true, r.(start := offsets.value.0, end := offsets.value.1))
  }

  function SpanOf(r: Range): Span {
    Span(r.evidenceId, r.start, r.end)
  }

  function TextOf(m: map<string, Evidence>, r: Range): string {
    if r.evidenceId !in m then "" else
    var text := EvidenceSpan(m[r.evidenceId].content, r.start, r.end);
    if text.None? then "" else text.value
  }

  function ResolvedRanges(m: map<string, Evidence>, s: seq<Range>): (r: seq<Range>)
    ensures |r| == |s| && forall i :: 0 <= i < |s| ==> r[i] == ResolvedRange(m, s[i]).1
  {
    seq(|s|, i requires 0 <= i < |s| => ResolvedRange(m, s[i]).1)
  }

  predicate RangesResolve(m: map<string, Evidence>, s: seq<Range>) {
    forall i :: 0 <= i < |s| ==> ResolvedRange(m, s[i]).0
  }

  /** The spans of the supports that resolve. */
  function SupportSpans(m: map<string, Evidence>, s: seq<Range>): seq<Span> {
    if s == [] then [] else
    var (ok, r) := ResolvedRange(m, s[|s| - 1]);
    SupportSpans(m, s[..|s| - 1]) + if ok then [SpanOf(r)] else []
  }

  function ResolvedSplit(m: map<string, Evidence>, s: Split): (bool, Split) {
    var (predicateOk, range) := ResolvedRange(m, s.predicateRange);
    var value := if s.valueRange.None? then (true, None)
                 else var (ok, v) := ResolvedRange(m, s.valueRange.value); (ok, Some(v));
    (predicateOk && value.0 && RangesResolve(m, s.supports),
     s.(predicateRange := range,
        phrase := if predicateOk then TextOf(m, range) else s.phrase,
        valueRange := value.1,
        supports := ResolvedRanges(m, s.supports),
        evidence := SupportSpans(m, s.supports)))
  }

  function ResolvedSplits(m: map<string, Evidence>, s: seq<Split>): (r: seq<Split>)
    ensures |r| == |s| && forall i :: 0 <= i < |s| ==> r[i] == ResolvedSplit(m, s[i]).1
  {
    seq(|s|, i requires 0 <= i < |s| => ResolvedSplit(m, s[i]).1)
  }

  predicate SplitsResolve(m: map<string, Evidence>, s: seq<Split>) {
    forall i :: 0 <= i < |s| ==> ResolvedSplit(m, s[i]).0
  }

  function ResolvedRelationship(m: map<string, Evidence>, r: RelationshipResult): (bool, RelationshipResult) {
    (SplitsResolve(m, r.splits), r.(splits := ResolvedSplits(m, r.splits)))
  }

  /** A signal of known evidence must resolve; one of unknown evidence is reported elsewhere. */
  function ResolvedSignal(m: map<string, Evidence>, id: string, s: Signal): (bool, Signal) {
    var owned := s.(evidenceId := id);
    if id !in m then (true, owned) else
    var offsets := ResolveRange(m[id], s.startRef, s.endRef);
    if offsets.None? then (false, owned) else (true, owned.(start := offsets.value.0, end := offsets.value.1))
  }

  function ResolvedSignals(m: map<string, Evidence>, id: string, s: seq<Signal>): (r: seq<Signal>)
    ensures |r| == |s| && forall i :: 0 <= i < |s| ==> r[i] == ResolvedSignal(m, id, s[i]).1
  {
    seq(|s|, i requires 0 <= i < |s| => ResolvedSignal(m, id, s[i]).1)
  }

  function ResolvedSecurity(m: map<string, Evidence>, r: SecurityResult): (bool, SecurityResult) {
    (forall i :: 0 <= i < |r.signals| ==> ResolvedSignal(m, r.evidenceId, r.signals[i]).0,
     r.(signals := ResolvedSignals(m, r.evidenceId, r.signals)))
  }
}
