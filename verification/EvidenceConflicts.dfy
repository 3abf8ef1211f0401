/** Cited evidence conflicts: which evidence may be cited, and which conflict results are accepted. */
module EvidenceConflicts {
  import opened Distinct
  import opened Options
  import opened Text
  import opened Boundaries

  datatype Position = Position(evidenceId: string, startRef: string, endRef: string, start: int, end: int)
  datatype ConflictResult = ConflictResult(positions: seq<Position>)

  datatype EquivalenceGroup = EquivalenceGroup(evidenceId: string, candidates: seq<Evidence>)
  datatype EquivalenceResult = EquivalenceResult(evidenceId: string, action: string, candidateId: Option<string>)

  datatype Sources = Sources(submitted: seq<Evidence>, known: seq<Evidence>, groups: seq<EquivalenceGroup>)

  datatype Citable = Citable(evidence: Evidence, submitted: bool, known: bool, candidateFor: seq<string>)

  const MaxResults := 20
  const MaxPositions := 10
  const MaxQuoteRunes := 4000

  // ----- Citable evidence

  function Ids(evidence: seq<Evidence>): set<string> {
    set e | e in evidence :: e.id
  }

  predicate Offers(g: EquivalenceGroup, id: string) {
    exists e :: e in g.candidates && e.id == id
  }

  /** The submitted items that a piece of evidence was offered to as an equivalence candidate. */
  function CandidateOf(groups: seq<EquivalenceGroup>, id: string): set<string> {
    set g | g in groups && Offers(g, id) :: g.evidenceId
  }

  ghost predicate CitableAs(s: Sources, id: string, c: Citable) {
    && c.evidence.id == id
    && (c.submitted <==> id in Ids(s.submitted))
    && (c.known <==> id in Ids(s.known) && id !in Ids(s.submitted))
    && (c.submitted ==> c.evidence in s.submitted)
    && (c.known ==> c.evidence in s.known)
    && (!c.submitted && !c.known ==>
          && (exists g, e :: g in s.groups && e in g.candidates && e.id == id && e.content == c.evidence.content)
          && (set x | x in c.candidateFor) == CandidateOf(s.groups, id))
  }

  ghost predicate IsCitable(s: Sources, m: map<string, Citable>) {
    && (forall id :: id in m <==> id in Ids(s.submitted) || id in Ids(s.known) || CandidateOf(s.groups, id) != {})
    && forall id :: id in m ==> CitableAs(s, id, m[id])
  }

  method CiteSubmitted(s: Sources) returns (m: map<string, Citable>)
    ensures m.Keys == Ids(s.submitted)
    ensures forall id :: id in m ==>
              m[id].evidence.id == id && m[id].submitted && !m[id].known && m[id].evidence in s.submitted
  {
    m := map[];
    for i := 0 to |s.submitted|
      invariant m.Keys == Ids(s.submitted[..i])
      invariant forall id :: id in m ==>
                  m[id].evidence.id == id && m[id].submitted && !m[id].known && m[id].evidence in s.submitted
    {
      assert s.submitted[..i + 1] == s.submitted[..i] + [s.submitted[i]];
      m := m[s.submitted[i].id := Citable(s.submitted[i], true, false, [])];
    }
    assert s.submitted[..|s.submitted|] == s.submitted;
  }

  method CiteKnown(s: Sources, submitted: map<string, Citable>) returns (m: map<string, Citable>)
    ensures m.Keys == submitted.Keys + Ids(s.known)
    ensures forall id :: id in submitted ==> m[id] == submitted[id]
    ensures forall id :: id in m && id !in submitted ==>
              m[id].evidence.id == id && !m[id].submitted && m[id].known && m[id].evidence in s.known
  {
    m := submitted;
    for i := 0 to |s.known|
      invariant m.Keys == submitted.Keys + Ids(s.known[..i])
      invariant forall id :: id in submitted ==> m[id] == submitted[id]
      invariant forall id :: id in m && id !in submitted ==>
                  m[id].evidence.id == id && !m[id].submitted && m[id].known && m[id].evidence in s.known
    {
      assert s.known[..i + 1] == s.known[..i] + [s.known[i]];
      if s.known[i].id !in m {
        m := m[s.known[i].id := Citable(s.known[i], false, true, [])];
      }
    }
    assert s.known[..|s.known|] == s.known;
  }

  /** A candidate keeps its own boundary references, or gets those of its content. */
  function Referenced(e: Evidence, boundaryRefs: string -> map<string, nat>): (r: Evidence)
    ensures r.id == e.id && r.content == e.content && (r == e || r.refs == boundaryRefs(e.content))
  {
    if |e.refs| > 0 then e else e.(refs := boundaryRefs(e.content))
  }

  ghost predicate FirstCited(s: Sources, before: map<string, Citable>, id: string, c: Citable) {
    && c.evidence.id == id && !c.submitted && !c.known && id !in before
    && (exists g, e :: g in s.groups && e in g.candidates && e.id == id && e.content == c.evidence.content)
    && c.candidateFor != [] && forall x :: x in c.candidateFor ==> x in CandidateOf(s.groups, id)
  }

  ghost predicate CiteProgress(s: Sources, before: map<string, Citable>, m: map<string, Citable>) {
    && (forall id :: id in before ==> id in m && m[id] == before[id])
    && (forall id :: id in m && id !in before ==> FirstCited(s, before, id, m[id]))
  }

  lemma {:induction false} FirstCite(s: Sources, before: map<string, Citable>, m: map<string, Citable>,
                                     g: EquivalenceGroup, e: Evidence, cited: Evidence)
    requires CiteProgress(s, before, m) && g in s.groups && e in g.candidates && e.id !in m
    requires cited.id == e.id && cited.content == e.content
    ensures CiteProgress(s, before, m[e.id := Citable(cited, false, false, [g.evidenceId])])
  {
    assert Offers(g, e.id) && g.evidenceId in CandidateOf(s.groups, e.id);
    assert e.id !in before;
  }

  method CiteOne(s: Sources, before: map<string, Citable>, m: map<string, Citable>, g: EquivalenceGroup, e: Evidence,
                 boundaryRefs: string -> map<string, nat>) returns (r: map<string, Citable>)
    requires CiteProgress(s, before, m) && g in s.groups && e in g.candidates
    ensures CiteProgress(s, before, r) && r.Keys == m.Keys + {e.id}
  {
    hide *;
    r := m;
    if e.id !in m {
      var cited := Referenced(e, boundaryRefs);
      FirstCite(s, before, m, g, e, cited);
      r := m[e.id := Citable(cited, false, false, [g.evidenceId])];
    }
  }

  lemma {:induction false} IdsPush(evidence: seq<Evidence>, e: Evidence)
    ensures Ids(evidence + [e]) == Ids(evidence) + {e.id}
  {
  }

  method CiteGroup(s: Sources, before: map<string, Citable>, start: map<string, Citable>, g: EquivalenceGroup,
                   boundaryRefs: string -> map<string, nat>) returns (m: map<string, Citable>)
    requires CiteProgress(s, before, start) && g in s.groups
    ensures CiteProgress(s, before, m) && m.Keys == start.Keys + Ids(g.candidates)
  {
    hide CiteProgress;
    m := start;
    for i := 0 to |g.candidates|
      invariant CiteProgress(s, before, m) && m.Keys == start.Keys + Ids(g.candidates[..i])
    {
      assert g.candidates[..i + 1] == g.candidates[..i] + [g.candidates[i]];
      IdsPush(g.candidates[..i], g.candidates[i]);
      m := CiteOne(s, before, m, g, g.candidates[i], boundaryRefs);
    }
    assert g.candidates[..|g.candidates|] == g.candidates;
  }

  function AllCandidateIds(groups: seq<EquivalenceGroup>): set<string> {
    if groups == [] then {} else AllCandidateIds(groups[..|groups| - 1]) + Ids(groups[|groups| - 1].candidates)
  }

  lemma {:induction false} AllCandidateIdsExact(groups: seq<EquivalenceGroup>, id: string)
    ensures id in AllCandidateIds(groups) <==> CandidateOf(groups, id) != {}
  {
    if groups != [] {
      var init, last := groups[..|groups| - 1], groups[|groups| - 1];
      AllCandidateIdsExact(init, id);
      assert groups == init + [last];
      assert CandidateOf(groups, id) == CandidateOf(init, id) + if Offers(last, id) then {last.evidenceId} else {};
      assert Offers(last, id) <==> id in Ids(last.candidates);
    }
  }

  /** Adds every candidate not citable otherwise, for the first group that offers it. */
  method CiteCandidates(s: Sources, before: map<string, Citable>, boundaryRefs: string -> map<string, nat>)
    returns (m: map<string, Citable>)
    ensures CiteProgress(s, before, m) && m.Keys == before.Keys + AllCandidateIds(s.groups)
  {
    hide FirstCited;
    m := before;
    for k := 0 to |s.groups|
      invariant CiteProgress(s, before, m) && m.Keys == before.Keys + AllCandidateIds(s.groups[..k])
    {
      assert s.groups[..k + 1][..k] == s.groups[..k];
      m := CiteGroup(s, before, m, s.groups[k], boundaryRefs);
    }
    assert s.groups[..|s.groups|] == s.groups;
  }

  /** The candidates recorded for a citable item so far: some of its groups, and all of the first k. */
  ghost predicate Associated(s: Sources, k: nat, m: map<string, Citable>)
    requires k <= |s.groups|
  {
    forall id :: id in m && !m[id].submitted && !m[id].known ==>
      CandidateOf(s.groups[..k], id) <= (set x | x in m[id].candidateFor) <= CandidateOf(s.groups, id)
  }

  ghost predicate SameButAssociations(a: map<string, Citable>, b: map<string, Citable>) {
    a.Keys == b.Keys && forall id :: id in a ==> a[id].(candidateFor := b[id].candidateFor) == b[id]
  }

  /** The second pass: every group that offers a candidate is recorded for it. */
  method AssociateGroup(s: Sources, k: nat, start: map<string, Citable>) returns (m: map<string, Citable>)
    requires k < |s.groups| && Associated(s, k, start) && Ids(s.groups[k].candidates) <= start.Keys
    ensures Associated(s, k + 1, m) && SameButAssociations(start, m)
  {
    var g := s.groups[k];
    m := start;
    for i := 0 to |g.candidates|
      invariant SameButAssociations(start, m) && Associated(s, k, m)
      invariant forall j :: 0 <= j < i ==> RecordedFor(m, g.candidates[j].id, g.evidenceId)
    {
      var id := g.candidates[i].id;
      assert id in Ids(g.candidates);
      if !m[id].submitted && !m[id].known && g.evidenceId !in m[id].candidateFor {
        assert Offers(g, id) && g.evidenceId in CandidateOf(s.groups, id);
        m := m[id := m[id].(candidateFor := m[id].candidateFor + [g.evidenceId])];
      }
    }
    GroupRecorded(s, k, m);
  }

  ghost predicate RecordedFor(m: map<string, Citable>, id: string, group: string) {
    id in m && (m[id].submitted || m[id].known || group in m[id].candidateFor)
  }

  lemma {:induction false} GroupRecorded(s: Sources, k: nat, m: map<string, Citable>)
    requires k < |s.groups| && Associated(s, k, m)
    requires forall j :: 0 <= j < |s.groups[k].candidates| ==>
               RecordedFor(m, s.groups[k].candidates[j].id, s.groups[k].evidenceId)
    ensures Associated(s, k + 1, m)
  {
    var g := s.groups[k];
    forall id | id in m && !m[id].submitted && !m[id].known
      ensures CandidateOf(s.groups[..k + 1], id) <= set x | x in m[id].candidateFor
    {
      assert s.groups[..k + 1] == s.groups[..k] + [g];
      assert CandidateOf(s.groups[..k + 1], id) == CandidateOf(s.groups[..k], id) + if Offers(g, id) then {g.evidenceId}
             else {};
      if Offers(g, id) {
        var e :| e in g.candidates && e.id == id;
        var j :| 0 <= j < |g.candidates| && g.candidates[j] == e;
        assert RecordedFor(m, g.candidates[j].id, g.evidenceId);
      }
    }
  }

  /** Exactly the submitted, known and candidate evidence is citable, each in its role. */
  method CitableEvidence(s: Sources, boundaryRefs: string -> map<string, nat>) returns (m: map<string, Citable>)
    ensures IsCitable(s, m)
  {
    var submitted := CiteSubmitted(s);
    var before := CiteKnown(s, submitted);
    var first := CiteCandidates(s, before, boundaryRefs);
    m := first;
    NothingAssociated(s, before, first);
    for k := 0 to |s.groups|
      invariant Associated(s, k, m) && SameButAssociations(first, m)
    {
      forall id | id in Ids(s.groups[k].candidates)
        ensures id in m
      {
        var e :| e in s.groups[k].candidates && e.id == id;
        assert Offers(s.groups[k], id) && s.groups[k].evidenceId in CandidateOf(s.groups, id);
        AllCandidateIdsExact(s.groups, id);
      }
      m := AssociateGroup(s, k, m);
    }
    CitableInRole(s, submitted, before, first, m);
  }

  lemma {:induction false} NothingAssociated(s: Sources, before: map<string, Citable>, m: map<string, Citable>)
    requires CiteProgress(s, before, m) && forall id :: id in before ==> before[id].submitted || before[id].known
    ensures Associated(s, 0, m)
  {
    assert s.groups[..0] == [];
  }

  lemma {:induction false} CitableInRole(s: Sources, submitted: map<string, Citable>, before: map<string, Citable>,
                      first: map<string, Citable>, m: map<string, Citable>)
    requires submitted.Keys == Ids(s.submitted)
    requires forall id :: id in submitted ==>
                && submitted[id].evidence.id == id && submitted[id].submitted
                && !submitted[id].known && submitted[id].evidence in s.submitted
    requires before.Keys == submitted.Keys + Ids(s.known)
    requires forall id :: id in submitted ==> before[id] == submitted[id]
    requires forall id :: id in before && id !in submitted ==>
                before[id].evidence.id == id && !before[id].submitted && before[id].known
                    && before[id].evidence in s.known
    requires CiteProgress(s, before, first) && first.Keys == before.Keys + AllCandidateIds(s.groups)
    requires Associated(s, |s.groups|, m) && SameButAssociations(first, m)
    ensures IsCitable(s, m)
  {
    assert s.groups[..|s.groups|] == s.groups;
    forall id
      ensures id in m <==> id in Ids(s.submitted) || id in Ids(s.known) || CandidateOf(s.groups, id) != {}
    {
      AllCandidateIdsExact(s.groups, id);
    }
    forall id | id in m
      ensures CitableAs(s, id, m[id])
    {
      assert first[id].(candidateFor := m[id].candidateFor) == m[id];
      if id in before {
        assert first[id] == before[id];
      } else {
        assert FirstCited(s, before, id, first[id]);
      }
    }
  }

  // ----- Accepting conflict results

  /** The position with its offsets, when it copies its references exactly and they select a bounded quote. */
  function Resolved(citable: map<string, Citable>, p: Position): Option<Position> {
    if p.evidenceId != Trim(p.evidenceId) || p.startRef != Trim(p.startRef) || p.endRef != Trim(p.endRef) then None
    else if p.evidenceId !in citable then None else
    var evidence := citable[p.evidenceId].evidence;
    var range := ResolveRange(evidence, p.startRef, p.endRef);
    if range.None? then None else
    var quote := EvidenceSpan(evidence.content, range.value.0, range.value.1);
    if quote.None? || |quote.value| > MaxQuoteRunes then None
    else Some(p.(start := range.value.0, end := range.value.1))
  }

  function PositionKey(p: Position): string
    requires p.start >= 0 && p.end >= 0
  {
    p.evidenceId + ":" + Numeral(p.start, 10) + ":" + Numeral(p.end, 10)
  }

  ghost predicate Placed(p: Position) {
    0 <= p.start < p.end
  }

  ghost predicate ResolvedAs(citable: map<string, Citable>, positions: seq<Position>, out: seq<Position>) {
    |out| == |positions| && forall i :: 0 <= i < |out| ==> Resolved(citable, positions[i]) == Some(out[i])
  }

  function PositionKeyOf(p: Position): string {
    if p.start >= 0 && p.end >= 0 then PositionKey(p) else ""
  }

  function KeysOf(out: seq<Position>): (keys: seq<string>)
    ensures |keys| == |out|
  {
    seq(|out|, i requires 0 <= i < |out| => PositionKeyOf(out[i]))
  }

  /** The submitted items cited among some positions. */
  function SubmittedCited(citable: map<string, Citable>, out: seq<Position>): set<string> {
    set p | p in out && p.evidenceId in citable && citable[p.evidenceId].submitted :: p.evidenceId
  }

  predicate CandidateOnly(citable: map<string, Citable>, p: Position) {
    p.evidenceId in citable && !citable[p.evidenceId].submitted && !citable[p.evidenceId].known
  }

  predicate AssociatedWith(citable: map<string, Citable>, cited: set<string>, p: Position) {
    CandidateOnly(citable, p) && citable[p.evidenceId].candidateFor != [] ==>
      exists x :: x in citable[p.evidenceId].candidateFor && x in cited
  }

  predicate NotChosen(citable: map<string, Citable>, reused: set<string>, cited: set<string>, p: Position) {
    CandidateOnly(citable, p) ==> forall x :: x in cited ==> PairKey(x, p.evidenceId) !in reused
  }

  function PairKey(submitted: string, candidate: string): string {
    submitted + "\0" + candidate
  }

  /** One conflict result, with its positions resolved to out. */
  ghost predicate CleanResult(citable: map<string, Citable>, reused: set<string>, positions: seq<Position>,
                              out: seq<Position>) {
    && 2 <= |positions| <= MaxPositions
    && ResolvedAs(citable, positions, out)
    && (forall i, j :: 0 <= i < j < |out| ==> PositionKeyOf(out[i]) != PositionKeyOf(out[j]))
    && var cited := SubmittedCited(citable, out);
    && cited != {}
    && forall p :: p in out ==> AssociatedWith(citable, cited, p) && NotChosen(citable, reused, cited, p)
  }

  lemma {:induction false} ResolvedIsPlaced(citable: map<string, Citable>, p: Position, out: Position)
    requires Resolved(citable, p) == Some(out)
    ensures Placed(out) && 0 <= out.start < out.end && out.evidenceId == p.evidenceId && out.evidenceId in citable
    ensures out.end <= |citable[out.evidenceId].evidence.content| && out.end - out.start <= MaxQuoteRunes
  {
  }

  function Reused(results: seq<EquivalenceResult>): set<string> {
    set r | r in results && r.action == "reuse" && r.candidateId.Some? ::
        PairKey(r.evidenceId, Trim(r.candidateId.value))
  }

  function Join(parts: seq<string>): string {
    if parts == [] then "" else if |parts| == 1 then parts[0] else parts[0] + "|" + Join(parts[1..])
  }

  ghost predicate IsCaseKey(keys: seq<string>, key: string) {
    exists sorted :: SortedTexts(sorted) && multiset(sorted) == multiset(keys) && key == Join(sorted)
  }

  lemma {:induction false} CaseKeyIsUnique(a: seq<string>, b: seq<string>, x: string, y: string)
    requires multiset(a) == multiset(b) && IsCaseKey(a, x) && IsCaseKey(b, y)
    ensures x == y
  {
    var p :| SortedTexts(p) && multiset(p) == multiset(a) && x == Join(p);
    var q :| SortedTexts(q) && multiset(q) == multiset(b) && y == Join(q);
    SortedIsUnique(p, q);
  }

  /** Resolves the positions of one result in place. */
  method ResolvePositions(citable: map<string, Citable>, positions: seq<Position>)
    returns (ok: bool, out: seq<Position>, parts: seq<string>, cited: set<string>)
    ensures ok ==> ResolvedAs(citable, positions, out) && cited == SubmittedCited(citable, out)
    ensures ok ==> (forall i :: 0 <= i < |out| ==> Placed(out[i])) && parts == KeysOf(out) && NoRepeats(parts)
    ensures !ok ==> forall o :: ResolvedAs(citable, positions, o) ==> !NoRepeats(KeysOf(o))
    ensures |out| == |positions|
  {
    hide *;
    ok, parts, cited := true, [], {};
    out := positions;
    var seen: set<string> := {};
    NothingResolved(citable, positions, out);
    for i := 0 to |positions|
      invariant |out| == |positions| && out[i..] == positions[i..]
      invariant ok ==> ResolvedAs(citable, positions[..i], out[..i]) && cited == SubmittedCited(citable, out[..i])
      invariant ok ==> (forall k :: 0 <= k < i ==> Placed(out[k])) && parts == KeysOf(out[..i]) && NoRepeats(parts)
      invariant ok ==> seen == set k | k in parts
      invariant !ok ==> forall o :: ResolvedAs(citable, positions, o) ==> !NoRepeats(KeysOf(o))
    {
      var r := Resolved(citable, positions[i]);
      if r.None? {
        Unresolved(citable, positions, i);
        ok := false;
      } else {
        ResolvedIsPlaced(citable, positions[i], r.value);
        var key := PositionKey(r.value);
        if key in seen && ok {
          RepeatFound(citable, positions, out[..i], i, key);
          ok := false;
        }
        ghost var before := out;
        out := out[i := r.value];
        assert out[..i] == before[..i] && out[i + 1..] == before[i..][1..] == positions[i + 1..];
        if ok {
          PositionPushed(citable, positions, out, i, parts);
        }
        seen := seen + {key};
        parts := parts + [key];
        if citable[r.value.evidenceId].submitted {
          cited := cited + {r.value.evidenceId};
        }
      }
    }
    assert out[..|positions|] == out && positions[..|positions|] == positions;
  }

  lemma {:induction false} NothingResolved(citable: map<string, Citable>, positions: seq<Position>, out: seq<Position>)
    requires |out| == |positions|
    ensures ResolvedAs(citable, positions[..0], out[..0]) && SubmittedCited(citable, out[..0]) == {}
    ensures KeysOf(out[..0]) == [] && NoRepeats<string>([])
  {
  }

  lemma {:induction false} Unresolved(citable: map<string, Citable>, positions: seq<Position>, i: nat)
    requires i < |positions| && Resolved(citable, positions[i]).None?
    ensures forall o :: !ResolvedAs(citable, positions, o)
  {
  }

  lemma {:induction false} RepeatFound(citable: map<string, Citable>, positions: seq<Position>, out: seq<Position>,
                                       i: nat, key: string)
    requires i < |positions| && |out| == i && ResolvedAs(citable, positions[..i], out)
    requires forall k :: 0 <= k < i ==> Placed(out[k])
    requires key in KeysOf(out) && Resolved(citable, positions[i]).Some?
             && Placed(Resolved(citable, positions[i]).value)
    requires key == PositionKey(Resolved(citable, positions[i]).value)
    ensures forall o :: ResolvedAs(citable, positions, o) ==> !NoRepeats(KeysOf(o))
  {
    var j :| 0 <= j < i && KeysOf(out)[j] == key;
    forall o | ResolvedAs(citable, positions, o)
      ensures !NoRepeats(KeysOf(o))
    {
      assert Resolved(citable, positions[..i][j]) == Some(out[j]);
      assert o[j] == out[j] && KeysOf(o)[j] == KeysOf(o)[i];
    }
  }

  lemma {:induction false} PositionPushed(citable: map<string, Citable>, positions: seq<Position>, out: seq<Position>,
                                          i: nat, parts: seq<string>)
    requires i < |positions| == |out| && ResolvedAs(citable, positions[..i], out[..i])
    requires Resolved(citable, positions[i]) == Some(out[i]) && out[i].evidenceId in citable
    requires forall k :: 0 <= k <= i ==> Placed(out[k])
    requires parts == KeysOf(out[..i]) && NoRepeats(parts) && PositionKey(out[i]) !in parts
    ensures ResolvedAs(citable, positions[..i + 1], out[..i + 1])
    ensures parts + [PositionKey(out[i])] == KeysOf(out[..i + 1]) && NoRepeats(parts + [PositionKey(out[i])])
    ensures SubmittedCited(citable, out[..i + 1]) ==
            SubmittedCited(citable, out[..i]) + if citable[out[i].evidenceId].submitted then {out[i].evidenceId} else {}
  {
    assert out[..i + 1] == out[..i] + [out[i]];
    assert positions[..i + 1] == positions[..i] + [positions[i]];
  }

  lemma {:induction false} ResolutionIsUnique(citable: map<string, Citable>, positions: seq<Position>, a: seq<Position>,
                                              b: seq<Position>)
    requires ResolvedAs(citable, positions, a) && ResolvedAs(citable, positions, b)
    ensures a == b
  {
    forall i | 0 <= i < |a|
      ensures a[i] == b[i]
    {
      assert Resolved(citable, positions[i]) == Some(a[i]) == Some(b[i]);
    }
  }

  ghost predicate DistinctKeys(out: seq<Position>) {
    NoRepeats(KeysOf(out))
  }

  lemma {:induction false} DistinctKeysExact(out: seq<Position>)
    ensures DistinctKeys(out) <==> forall i, j :: 0 <= i < j < |out| ==> PositionKeyOf(out[i]) != PositionKeyOf(out[j])
  {
    assert forall i :: 0 <= i < |out| ==> KeysOf(out)[i] == PositionKeyOf(out[i]);
    if DistinctKeys(out) {
      forall i, j | 0 <= i < j < |out|
        ensures PositionKeyOf(out[i]) != PositionKeyOf(out[j])
      {
        assert KeysOf(out)[i] != KeysOf(out)[j];
      }
    }
  }

  ghost predicate CleanCitations(citable: map<string, Citable>, reused: set<string>, out: seq<Position>) {
    var cited := SubmittedCited(citable, out);
    cited != {} && forall p :: p in out ==> AssociatedWith(citable, cited, p) && NotChosen(citable, reused, cited, p)
  }

  /** The two passes over the positions that relate candidates to the submitted citations. */
  method CheckCitations(citable: map<string, Citable>, reused: set<string>, positions: seq<Position>,
                        cited: set<string>) returns (ok: bool)
    ensures ok <==> cited != {} && forall p :: p in positions ==>
              AssociatedWith(citable, cited, p) && NotChosen(citable, reused, cited, p)
  {
    ok := cited != {};
    for i := 0 to |positions|
      invariant ok <==> cited != {} && forall k :: 0 <= k < i ==> AssociatedWith(citable, cited, positions[k])
    {
      if !AssociatedWith(citable, cited, positions[i]) {
        ok := false;
      }
    }
    for i := 0 to |positions|
      invariant ok <==>
                  && cited != {} && (forall k :: 0 <= k < |positions| ==> AssociatedWith(citable, cited, positions[k]))
                  && (forall k :: 0 <= k < i ==> NotChosen(citable, reused, cited, positions[k]))
    {
      if !NotChosen(citable, reused, cited, positions[i]) {
        ok := false;
      }
    }
  }

  lemma {:induction false} CleanResultExact(citable: map<string, Citable>, reused: set<string>,
                                            positions: seq<Position>, out: seq<Position>)
    ensures CleanResult(citable, reused, positions, out) <==>
              && 2 <= |positions| <= MaxPositions && ResolvedAs(citable, positions, out)
              && DistinctKeys(out) && CleanCitations(citable, reused, out)
  {
    DistinctKeysExact(out);
  }

  method CheckResult(citable: map<string, Citable>, reused: set<string>, result: ConflictResult)
    returns (ok: bool, out: ConflictResult, key: string)
    ensures ok ==>
              CleanResult(citable, reused, result.positions, out.positions) && IsCaseKey(KeysOf(out.positions), key)
    ensures !ok ==> forall o :: !CleanResult(citable, reused, result.positions, o)
  {
    hide CleanResult, CleanCitations, DistinctKeys, ResolvedAs, KeysOf, SubmittedCited, AssociatedWith, NotChosen;
    var positions := result.positions;
    var resolved, placed, parts, cited := ResolvePositions(citable, positions);
    var clean := CheckCitations(citable, reused, placed, cited);
    var sorted := SortTexts(parts);
    key := Join(sorted);
    out := ConflictResult(placed);
    ok := resolved && clean && 2 <= |positions| <= MaxPositions;
    if resolved {
      DistinctFromParts(placed, parts);
      CitationsExact(citable, reused, placed, cited, clean);
    }
    forall o
      ensures CleanResult(citable, reused, positions, o) <==> ok && o == placed
    {
      CleanResultExact(citable, reused, positions, o);
      if resolved && ResolvedAs(citable, positions, o) {
        ResolutionIsUnique(citable, positions, placed, o);
      }
      if !resolved {
        NotDistinctFromKeys(o);
      }
    }
  }

  lemma {:induction false} NotDistinctFromKeys(o: seq<Position>)
    ensures DistinctKeys(o) <==> NoRepeats(KeysOf(o))
  {
  }

  lemma {:induction false} DistinctFromParts(out: seq<Position>, parts: seq<string>)
    requires NoRepeats(parts) && parts == KeysOf(out)
    ensures DistinctKeys(out)
  {
  }

  lemma {:induction false} CitationsExact(citable: map<string, Citable>, reused: set<string>, out: seq<Position>,
                                          cited: set<string>, clean: bool)
    requires cited == SubmittedCited(citable, out)
    requires clean <==> cited != {} && forall p :: p in out ==>
               AssociatedWith(citable, cited, p) && NotChosen(citable, reused, cited, p)
    ensures clean <==> CleanCitations(citable, reused, out)
  {
  }

  ghost predicate SeparateCases(out: seq<ConflictResult>) {
    forall i, j, x, y ::
        0 <= i < j < |out| && IsCaseKey(KeysOf(out[i].positions), x) && IsCaseKey(KeysOf(out[j].positions), y) ==>
              x != y
  }

  ghost predicate AcceptedConflicts(citable: map<string, Citable>, reused: set<string>, results: seq<ConflictResult>,
                                    out: seq<ConflictResult>) {
    && |results| <= MaxResults && |out| == |results|
    && (forall i :: 0 <= i < |out| ==> CleanResult(citable, reused, results[i].positions, out[i].positions))
    && SeparateCases(out)
  }

  /** Accepts exactly the clean conflict results, and writes the resolved offsets into their positions. */
  method ResolveConflictResults(s: Sources, boundaryRefs: string -> map<string, nat>,
                                equivalences: seq<EquivalenceResult>,
                                results: Option<seq<ConflictResult>>)
    returns (ok: bool, out: seq<ConflictResult>, ghost citable: map<string, Citable>)
    ensures IsCitable(s, citable)
    ensures ok ==> results.Some? && AcceptedConflicts(citable, Reused(equivalences), results.value, out)
    ensures !ok ==> results.None? || forall o :: !AcceptedConflicts(citable, Reused(equivalences), results.value, o)
  {
    hide IsCitable, CleanResult, IsCaseKey, SeparateCases;
    var m := CitableEvidence(s, boundaryRefs);
    citable := m;
    ok, out := true, [];
    if results.None? || |results.value| > MaxResults {
      return false, [], m;
    }
    var all := results.value;
    var reused := Reused(equivalences);
    var seen: set<string> := {};
    ghost var keys: seq<string> := [];
    NoCases();
    for i := 0 to |all|
      invariant |out| == i
      invariant ok ==>
                  |keys| == i && (forall k :: 0 <= k < i ==> CleanResult(m, reused, all[k].positions, out[k].positions))
      invariant ok ==> CaseKeysAre(out, keys) && SeparateCases(out) && seen == set k | k in keys
      invariant !ok ==> forall o :: !AcceptedConflicts(m, reused, all, o)
    {
      var clean, resolved, key := CheckResult(m, reused, all[i]);
      if !clean {
        ok := false;
      } else if key in seen {
        if ok {
          DuplicateCase(m, reused, all, out, keys, i, resolved, key);
        }
        ok := false;
      } else if ok {
        NewCase(out, keys, resolved, key);
        keys := keys + [key];
      }
      seen := seen + {key};
      out := out + [resolved];
    }
  }

  ghost predicate CaseKeysAre(out: seq<ConflictResult>, keys: seq<string>) {
    |keys| == |out| && forall i :: 0 <= i < |out| ==> IsCaseKey(KeysOf(out[i].positions), keys[i])
  }

  lemma {:induction false} NoCases()
    ensures SeparateCases([]) && CaseKeysAre([], [])
  {
  }

  lemma {:induction false} NewCase(out: seq<ConflictResult>, keys: seq<string>, r: ConflictResult, key: string)
    requires CaseKeysAre(out, keys) && SeparateCases(out) && IsCaseKey(KeysOf(r.positions), key) && key !in keys
    ensures CaseKeysAre(out + [r], keys + [key]) && SeparateCases(out + [r])
  {
    hide IsCaseKey, KeysOf;
    var all := out + [r];
    forall i, j, x, y | 0 <= i < j < |all| && IsCaseKey(KeysOf(all[i].positions), x)
        && IsCaseKey(KeysOf(all[j].positions), y)
      ensures x != y
    {
      if j == |out| {
        CaseKeyIsUnique(KeysOf(out[i].positions), KeysOf(out[i].positions), x, keys[i]);
        CaseKeyIsUnique(KeysOf(r.positions), KeysOf(r.positions), y, key);
      }
    }
  }

  lemma {:induction false} DuplicateCase(citable: map<string, Citable>, reused: set<string>, all: seq<ConflictResult>,
                                         out: seq<ConflictResult>,
                      keys: seq<string>, i: nat, r: ConflictResult, key: string)
    requires i < |all| && |out| == i && CaseKeysAre(out, keys) && key in keys && IsCaseKey(KeysOf(r.positions), key)
    requires forall k :: 0 <= k < i ==> CleanResult(citable, reused, all[k].positions, out[k].positions)
    requires CleanResult(citable, reused, all[i].positions, r.positions)
    ensures forall o :: !AcceptedConflicts(citable, reused, all, o)
  {
    var j :| 0 <= j < i && keys[j] == key;
    forall o: seq<ConflictResult> | |o| == |all| && forall k :: 0 <= k < |o| ==>
          CleanResult(citable, reused, all[k].positions, o[k].positions)
      ensures !SeparateCases(o)
    {
      ResolutionIsUnique(citable, all[j].positions, out[j].positions, o[j].positions);
      ResolutionIsUnique(citable, all[i].positions, r.positions, o[i].positions);
      assert IsCaseKey(KeysOf(o[j].positions), key) && IsCaseKey(KeysOf(o[i].positions), key);
    }
  }

  // ----- What acceptance means

  datatype Place = Place(evidenceId: string, start: int, end: int)

  function PlaceOf(p: Position): Place {
    Place(p.evidenceId, p.start, p.end)
  }

  function PlacesOf(out: seq<Position>): set<Place> {
    set p | p in out :: PlaceOf(p)
  }

  /** The assessor chose the candidate as the duplicate of the submitted item. */
  ghost predicate ChosenAsDuplicate(equivalences: seq<EquivalenceResult>, submitted: string, candidate: string) {
    exists r :: r in equivalences && r.action == "reuse" && r.evidenceId == submitted
      && r.candidateId.Some? && Trim(r.candidateId.value) == candidate
  }

  /** Every accepted result cites at least two different in-range places, one of them on submitted evidence;
      a candidate is cited beside an item it was offered to, and is the chosen duplicate of none cited. */
  lemma {:induction false} AcceptedResultIsFounded(s: Sources, citable: map<string, Citable>,
                                                   equivalences: seq<EquivalenceResult>,
                                results: seq<ConflictResult>, out: seq<ConflictResult>, i: nat)
    requires IsCitable(s, citable) && AcceptedConflicts(citable, Reused(equivalences), results, out) && i < |out|
    ensures var ps := out[i].positions;
            && 2 <= |ps| <= MaxPositions && |PlacesOf(ps)| == |ps|
            && (forall p :: p in ps ==>
                p.evidenceId in citable && 0 <= p.start < p.end <= |citable[p.evidenceId].evidence.content|)
            && (exists p :: p in ps && p.evidenceId in Ids(s.submitted))
            && (forall p :: p in ps && p.evidenceId !in Ids(s.submitted) && p.evidenceId !in Ids(s.known) ==>
                  (exists q ::
                      q in ps && q.evidenceId in Ids(s.submitted)
                          && q.evidenceId in CandidateOf(s.groups, p.evidenceId))
                  && forall q :: q in ps && q.evidenceId in Ids(s.submitted) ==>
                      !ChosenAsDuplicate(equivalences, q.evidenceId, p.evidenceId))
  {
    hide IsCaseKey, CleanResult, IsCitable, CleanCitations, DistinctKeys, ChosenAsDuplicate, Ids, CandidateOf;
    var ps := out[i].positions;
    var reused := Reused(equivalences);
    CleanResultExact(citable, reused, results[i].positions, ps);
    forall k | 0 <= k < |ps|
      ensures Placed(ps[k]) && ps[k].evidenceId in citable && ps[k].end <= |citable[ps[k].evidenceId].evidence.content|
    {
      ResolvedIsPlaced(citable, results[i].positions[k], ps[k]);
    }
    DistinctPlaces(ps);
    SubmittedIsCited(s, citable, reused, ps);
    forall p | p in ps && p.evidenceId !in Ids(s.submitted) && p.evidenceId !in Ids(s.known)
      ensures exists q ::
              q in ps && q.evidenceId in Ids(s.submitted) && q.evidenceId in CandidateOf(s.groups, p.evidenceId)
      ensures forall q :: q in ps && q.evidenceId in Ids(s.submitted) ==>
                !ChosenAsDuplicate(equivalences, q.evidenceId, p.evidenceId)
    {
      var q := CandidateBeside(s, citable, reused, ps, p);
      forall q | q in ps && q.evidenceId in Ids(s.submitted)
        ensures !ChosenAsDuplicate(equivalences, q.evidenceId, p.evidenceId)
      {
        NotTheDuplicate(s, citable, equivalences, ps, p, q);
      }
    }
  }

  lemma {:induction false} RolesOf(s: Sources, citable: map<string, Citable>, p: Position)
    requires IsCitable(s, citable) && p.evidenceId in citable
    ensures citable[p.evidenceId].submitted <==> p.evidenceId in Ids(s.submitted)
    ensures CandidateOnly(citable, p) <==> p.evidenceId !in Ids(s.submitted) && p.evidenceId !in Ids(s.known)
    ensures CandidateOnly(citable, p) ==>
              (set x | x in citable[p.evidenceId].candidateFor) == CandidateOf(s.groups, p.evidenceId)
  {
    hide Ids, CandidateOf;
    assert CitableAs(s, p.evidenceId, citable[p.evidenceId]);
  }

  lemma {:induction false} SubmittedIsCited(s: Sources, citable: map<string, Citable>, reused: set<string>,
                                            ps: seq<Position>)
    requires IsCitable(s, citable) && CleanCitations(citable, reused, ps)
    ensures exists p :: p in ps && p.evidenceId in Ids(s.submitted)
  {
    hide Ids, CandidateOf, IsCitable, AssociatedWith, NotChosen;
    var id :| id in SubmittedCited(citable, ps);
    var p :| p in ps && p.evidenceId == id && p.evidenceId in citable && citable[id].submitted;
    RolesOf(s, citable, p);
  }

  lemma {:induction false} CandidateBeside(s: Sources, citable: map<string, Citable>, reused: set<string>,
                                           ps: seq<Position>, p: Position)
    returns (q: Position)
    requires IsCitable(s, citable) && CleanCitations(citable, reused, ps) && p in ps && p.evidenceId in citable
    requires p.evidenceId !in Ids(s.submitted) && p.evidenceId !in Ids(s.known)
    ensures q in ps && q.evidenceId in Ids(s.submitted) && q.evidenceId in CandidateOf(s.groups, p.evidenceId)
  {
    hide Ids, CandidateOf, IsCitable, NotChosen;
    RolesOf(s, citable, p);
    CandidateHasGroup(s, citable, p.evidenceId);
    var cited := SubmittedCited(citable, ps);
    assert AssociatedWith(citable, cited, p);
    var x :| x in citable[p.evidenceId].candidateFor && x in cited;
    assert x in set y | y in citable[p.evidenceId].candidateFor;
    q :| q in ps && q.evidenceId == x && q.evidenceId in citable && citable[x].submitted;
    RolesOf(s, citable, q);
  }

  lemma {:induction false} NotTheDuplicate(s: Sources, citable: map<string, Citable>,
                                           equivalences: seq<EquivalenceResult>,
                                           ps: seq<Position>, p: Position, q: Position)
    requires IsCitable(s, citable) && CleanCitations(citable, Reused(equivalences), ps) && p in ps && q in ps
    requires p.evidenceId in citable && q.evidenceId in citable
    requires p.evidenceId !in Ids(s.submitted) && p.evidenceId !in Ids(s.known) && q.evidenceId in Ids(s.submitted)
    ensures !ChosenAsDuplicate(equivalences, q.evidenceId, p.evidenceId)
  {
    hide Ids, CandidateOf, IsCitable, AssociatedWith;
    RolesOf(s, citable, p);
    RolesOf(s, citable, q);
    var cited := SubmittedCited(citable, ps);
    assert q.evidenceId in cited;
    assert NotChosen(citable, Reused(equivalences), cited, p);
  }

  lemma {:induction false} CandidateHasGroup(s: Sources, citable: map<string, Citable>, id: string)
    requires IsCitable(s, citable) && id in citable && !citable[id].submitted && !citable[id].known
    ensures citable[id].candidateFor != []
  {
    assert CitableAs(s, id, citable[id]);
    var g, e :| g in s.groups && e in g.candidates && e.id == id && e.content == citable[id].evidence.content;
    assert Offers(g, id) && g.evidenceId in CandidateOf(s.groups, id);
    assert g.evidenceId in set x | x in citable[id].candidateFor;
  }

  lemma {:induction false} DistinctPlaces(out: seq<Position>)
    requires DistinctKeys(out) && forall i :: 0 <= i < |out| ==> Placed(out[i])
    ensures |PlacesOf(out)| == |out|
  {
    hide DistinctKeys;
    var places := seq(|out|, i requires 0 <= i < |out| => PlaceOf(out[i]));
    DistinctKeysExact(out);
    forall i, j | 0 <= i < j < |places|
      ensures places[i] != places[j]
    {
      assert PositionKeyOf(out[i]) != PositionKeyOf(out[j]);
    }
    NoRepeatsSize(places);
    forall x
      ensures x in Members(places) <==> x in PlacesOf(out)
    {
      if p :| p in out && PlaceOf(p) == x {
        var i :| 0 <= i < |out| && out[i] == p;
        assert places[i] == x;
      }
    }
    assert Members(places) == PlacesOf(out);
  }

  /** A position is accepted exactly when it copies its evidence id and references, the evidence is citable, both
      references are known there in order, and they select a quote of bounded length; it keeps all it copied. */
  lemma {:induction false} ResolvedExactly(citable: map<string, Citable>, p: Position)
    ensures Resolved(citable, p).Some? <==>
              && p.evidenceId == Trim(p.evidenceId) && p.startRef == Trim(p.startRef) && p.endRef == Trim(p.endRef)
              && p.evidenceId in citable
              && var e := citable[p.evidenceId].evidence;
                 var start, end := BoundaryOffset(e, p.startRef), BoundaryOffset(e, p.endRef);
                 && start.Some? && end.Some? && start.value < end.value <= |e.content|
                 && end.value - start.value <= MaxQuoteRunes
    ensures Resolved(citable, p).Some? ==>
              var e, out := citable[p.evidenceId].evidence, Resolved(citable, p).value;
              && out.evidenceId == p.evidenceId && out.startRef == p.startRef && out.endRef == p.endRef
              && BoundaryOffset(e, p.startRef) == Some(out.start) && BoundaryOffset(e, p.endRef) == Some(out.end)
  {
    hide Trim;
  }

  /** Every position of an accepted result lies where the references it was given point. */
  lemma {:induction false} PositionsReadTheAnswer(citable: map<string, Citable>, reused: set<string>,
                                                  results: seq<ConflictResult>, out: seq<ConflictResult>, i: nat)
    requires AcceptedConflicts(citable, reused, results, out) && i < |out|
    ensures |results| == |out| && |results[i].positions| == |out[i].positions|
    ensures forall k :: 0 <= k < |out[i].positions| ==>
              var given, p := results[i].positions[k], out[i].positions[k];
              && p.evidenceId == given.evidenceId && p.startRef == given.startRef && p.endRef == given.endRef
              && p.evidenceId in citable
              && BoundaryOffset(citable[p.evidenceId].evidence, p.startRef) == Some(p.start)
              && BoundaryOffset(citable[p.evidenceId].evidence, p.endRef) == Some(p.end)
  {
    hide Resolved, SeparateCases, SubmittedCited;
    forall k | 0 <= k < |out[i].positions|
      ensures Resolved(citable, results[i].positions[k]) == Some(out[i].positions[k])
    {
    }
    forall k | 0 <= k < |out[i].positions|
      ensures var given, p := results[i].positions[k], out[i].positions[k];
              && p.evidenceId == given.evidenceId && p.startRef == given.startRef && p.endRef == given.endRef
              && p.evidenceId in citable
              && BoundaryOffset(citable[p.evidenceId].evidence, p.startRef) == Some(p.start)
              && BoundaryOffset(citable[p.evidenceId].evidence, p.endRef) == Some(p.end)
    {
      ResolvedExactly(citable, results[i].positions[k]);
    }
  }

  /** No two accepted results cite the same set of places. */
  lemma {:induction false} AcceptedCasesDiffer(citable: map<string, Citable>, reused: set<string>,
                                               results: seq<ConflictResult>,
                            out: seq<ConflictResult>, i: nat, j: nat)
    requires AcceptedConflicts(citable, reused, results, out) && i < j < |out|
    ensures PlacesOf(out[i].positions) != PlacesOf(out[j].positions)
  {
    hide IsCaseKey;
    var a, b := out[i].positions, out[j].positions;
    CleanResultExact(citable, reused, results[i].positions, a);
    CleanResultExact(citable, reused, results[j].positions, b);
    var x := SomeCaseKey(KeysOf(a));
    var y := SomeCaseKey(KeysOf(b));
    if PlacesOf(a) == PlacesOf(b) {
      SamePlacesSameKeys(a, b);
      CaseKeyIsUnique(KeysOf(a), KeysOf(b), x, y);
    }
  }

  lemma {:induction false} SomeSorted(keys: seq<string>) returns (sorted: seq<string>)
    ensures SortedTexts(sorted) && multiset(sorted) == multiset(keys)
  {
    sorted := [];
    if keys != [] {
      var rest := SomeSorted(keys[..|keys| - 1]);
      assert keys == keys[..|keys| - 1] + [keys[|keys| - 1]];
      sorted := SortedInsertion(rest, keys[|keys| - 1]);
    }
  }

  lemma {:induction false} SortedInsertion(s: seq<string>, x: string) returns (r: seq<string>)
    requires SortedTexts(s)
    ensures SortedTexts(r) && multiset(r) == multiset(s) + multiset{x}
  {
    var i := |s|;
    while i > 0 && TextBefore(x, s[i - 1])
      invariant 0 <= i <= |s|
      invariant forall k :: i <= k < |s| ==> TextBefore(x, s[k])
    {
      i := i - 1;
    }
    InsertKeepsSorted(s, i, x);
    r := s[..i] + [x] + s[i..];
    assert s == s[..i] + s[i..];
  }

  lemma {:induction false} SomeCaseKey(keys: seq<string>) returns (key: string)
    ensures IsCaseKey(keys, key)
  {
    var sorted := SomeSorted(keys);
    key := Join(sorted);
  }

  lemma {:induction false} SamePlacesSameKeys(a: seq<Position>, b: seq<Position>)
    requires DistinctKeys(a) && DistinctKeys(b) && PlacesOf(a) == PlacesOf(b)
    ensures multiset(KeysOf(a)) == multiset(KeysOf(b))
  {
    forall k
      ensures multiset(KeysOf(a))[k] == multiset(KeysOf(b))[k]
    {
      if k in KeysOf(a) {
        SameKeyMembers(a, b, k);
      }
      if k in KeysOf(b) {
        SameKeyMembers(b, a, k);
      }
      CountOfDistinct(KeysOf(a), k);
      CountOfDistinct(KeysOf(b), k);
    }
  }

  lemma {:induction false} SameKeyMembers(a: seq<Position>, b: seq<Position>, k: string)
    requires PlacesOf(a) == PlacesOf(b) && k in KeysOf(a)
    ensures k in KeysOf(b)
  {
    var i :| 0 <= i < |a| && KeysOf(a)[i] == k;
    assert a[i] in a && PlaceOf(a[i]) in PlacesOf(b);
    var p :| p in b && PlaceOf(p) == PlaceOf(a[i]);
    var j :| 0 <= j < |b| && b[j] == p;
    assert KeysOf(b)[j] == k;
  }

  lemma {:induction false} CountOfDistinct(s: seq<string>, k: string)
    requires NoRepeats(s)
    ensures multiset(s)[k] == if k in s then 1 else 0
  {
    if s != [] {
      var init, last := s[..|s| - 1], s[|s| - 1];
      assert s == init + [last];
      CountOfDistinct(init, k);
    }
  }
}
