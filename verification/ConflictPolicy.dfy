/** Deterministic outcomes of a conflict review: the last-write winner and the supporter majority. */
module ConflictPolicy {
  import opened Options
  import opened Text
  import opened Sums

  // ----- The last-write winner

  datatype Support = Support(authority: string, acceptedAt: int)
  datatype Position = Position(id: string, supports: seq<Support>)
  datatype Winner = Winner(id: string, authority: string, acceptedAt: int)

  /** conflictAuthorityRank; `lower` is strings.ToLower. */
  function AuthorityRank(lower: string -> string, authority: string): (int, string) {
    var a := lower(Trim(authority));
    if a == "authoritative" then (0, "authoritative")
    else if a == "primary" then (1, "primary")
    else if a == "secondary" then (2, "secondary")
    else if a == "inferred" || a == "derived" then (3, "inferred")
    else (4, "unknown")
  }

  function RankOf(authority: string): int {
    match authority
    case "authoritative" => 0
    case "primary" => 1
    case "secondary" => 2
    case "inferred" => 3
    case _ => 4
  }

  /** The canonical authority names rank as themselves. */
  ghost predicate LowerKeepsNames(lower: string -> string) {
    forall a :: a in ["authoritative", "primary", "secondary", "inferred", "unknown"] ==> lower(a) == a
  }

  lemma {:induction false} CanonicalRank(lower: string -> string, authority: string)
    requires LowerKeepsNames(lower)
    ensures var (rank, name) := AuthorityRank(lower, authority);
            name != "" && rank == RankOf(name) && AuthorityRank(lower, name) == (rank, name)
  {
    var name := AuthorityRank(lower, authority).1;
    assert name in ["authoritative", "primary", "secondary", "inferred", "unknown"];
    TrimIdentity(name);
  }

  /** A position and one of its supports, as they compete. */
  function Entrant(lower: string -> string, p: Position, s: Support): Winner {
    Winner(Trim(p.id), AuthorityRank(lower, s.authority).1, s.acceptedAt)
  }

  /** The entrants of one position: none without an id. */
  function EntrantsOf(lower: string -> string, p: Position): set<Winner> {
    if Trim(p.id) == "" then {} else set s | s in p.supports :: Entrant(lower, p, s)
  }

  function Entrants(lower: string -> string, positions: seq<Position>): set<Winner> {
    if positions == [] then {}
    else Entrants(lower, positions[..|positions| - 1]) + EntrantsOf(lower, positions[|positions| - 1])
  }

  /** Authority first, then the later acceptance, then the smaller position id. */
  predicate Beats(a: Winner, b: Winner) {
    || RankOf(a.authority) < RankOf(b.authority)
    || (RankOf(a.authority) == RankOf(b.authority)
        && (a.acceptedAt > b.acceptedAt || (a.acceptedAt == b.acceptedAt && TextBefore(a.id, b.id))))
  }

  lemma {:induction false} BeatsIsTransitive(a: Winner, b: Winner, c: Winner)
    requires !Beats(b, a) && !Beats(c, b)
    ensures !Beats(c, a)
  {
    if Beats(c, a) && RankOf(c.authority) == RankOf(a.authority) && c.acceptedAt == a.acceptedAt {
      if c.id == b.id {
      } else if TextBefore(b.id, c.id) {
        TextBeforeIsTransitive(b.id, c.id, a.id);
      } else {
        TextBeforeIsTotal(b.id, c.id);
      }
    }
  }

  lemma {:induction false} BeatsIsTotal(a: Winner, b: Winner)
    requires !Beats(a, b) && !Beats(b, a)
    ensures a.id == b.id && a.acceptedAt == b.acceptedAt && RankOf(a.authority) == RankOf(b.authority)
  {
    if a.id != b.id {
      TextBeforeIsTotal(a.id, b.id);
    }
  }

  lemma {:induction false} BeatsIsAsymmetric(a: Winner, b: Winner)
    requires Beats(a, b)
    ensures !Beats(b, a)
  {
    if a.id != b.id && TextBefore(a.id, b.id) {
      TextBeforeIsAsymmetric(a.id, b.id);
    }
    if a.id == b.id && TextBefore(a.id, b.id) {
      TextBeforeIsAsymmetric(a.id, b.id);
    }
  }

  predicate CanonicalName(a: string) {
    a in ["authoritative", "primary", "secondary", "inferred", "unknown"]
  }

  lemma {:induction false} SameRankSameName(a: string, b: string)
    requires CanonicalName(a) && CanonicalName(b) && RankOf(a) == RankOf(b)
    ensures a == b
  {
  }

  ghost predicate Tops(entrants: set<Winner>, w: Winner) {
    w in entrants && forall v :: v in entrants ==> !Beats(v, w)
  }

  /** The lexicographic best over all pairs of a named position and one of its supports. */
  ghost predicate IsBest(lower: string -> string, positions: seq<Position>, w: Winner) {
    Tops(Entrants(lower, positions), w)
  }

  /** A newcomer of the same position takes over exactly when it beats the best so far. */
  lemma {:induction false} TopsPush(entrants: set<Winner>, w: Winner, x: Winner)
    requires Tops(entrants, w)
    ensures Beats(x, w) ==> Tops(entrants + {x}, x)
    ensures !Beats(x, w) ==> Tops(entrants + {x}, w)
  {
    hide Beats;
    if Beats(x, w) {
      BeatsIsAsymmetric(x, w);
      BeatsIsAsymmetricSelf(x);
      forall v | v in entrants
        ensures !Beats(v, x)
      {
        BeatsIsTransitive(x, w, v);
      }
    }
  }

  lemma {:induction false} BeatsIsAsymmetricSelf(x: Winner)
    ensures !Beats(x, x)
  {
    if TextBefore(x.id, x.id) {
      TextBeforeIsAsymmetric(x.id, x.id);
    }
  }

  lemma {:induction false} FirstTops(x: Winner)
    ensures Tops({x}, x)
  {
    BeatsIsAsymmetricSelf(x);
  }

  function Seen(lower: string -> string, p: Position, i: nat): set<Winner>
    requires i <= |p.supports|
  {
    set s | s in p.supports[..i] :: Entrant(lower, p, s)
  }

  lemma {:induction false} SeenPush(lower: string -> string, p: Position, i: nat)
    requires i < |p.supports|
    ensures Seen(lower, p, i + 1) == Seen(lower, p, i) + {Entrant(lower, p, p.supports[i])}
  {
    hide Entrant;
    assert p.supports[..i + 1] == p.supports[..i] + [p.supports[i]];
  }

  /** The best support of one position: the strongest authority, then the latest acceptance. */
  method BestSupport(lower: string -> string, p: Position) returns (found: bool, w: Winner)
    requires LowerKeepsNames(lower)
    ensures found <==> p.supports != []
    ensures found ==> Tops(Seen(lower, p, |p.supports|), w)
  {
    hide AuthorityRank, Tops, Seen, LowerKeepsNames, Trim;
    var bestRank, bestAuthority, bestAcceptedAt := 0, "", 0;
    for i := 0 to |p.supports|
      invariant bestAuthority == "" <==> i == 0
      invariant i > 0 ==> bestRank == RankOf(bestAuthority)
      invariant i > 0 ==> Tops(Seen(lower, p, i), Winner(Trim(p.id), bestAuthority, bestAcceptedAt))
    {
      var s := p.supports[i];
      var (rank, authority) := AuthorityRank(lower, s.authority);
      CanonicalRank(lower, s.authority);
      SeenPush(lower, p, i);
      IdBeatsNotItself(Trim(p.id));
      if i == 0 {
        NothingSeen(lower, p);
        FirstTops(Entrant(lower, p, s));
        assert {} + {Entrant(lower, p, s)} == {Entrant(lower, p, s)};
      } else {
        TopsPush(Seen(lower, p, i), Winner(Trim(p.id), bestAuthority, bestAcceptedAt), Entrant(lower, p, s));
      }
      if bestAuthority == "" || rank < bestRank || (rank == bestRank && s.acceptedAt > bestAcceptedAt) {
        bestRank, bestAuthority, bestAcceptedAt := rank, authority, s.acceptedAt;
      }
    }
    found := bestAuthority != "";
    w := Winner(Trim(p.id), bestAuthority, bestAcceptedAt);
  }

  lemma {:induction false} NothingSeen(lower: string -> string, p: Position)
    ensures Seen(lower, p, 0) == {}
  {
  }

  lemma {:induction false} AllSeen(lower: string -> string, p: Position)
    ensures Trim(p.id) != "" ==> EntrantsOf(lower, p) == Seen(lower, p, |p.supports|)
    ensures p.supports == [] || Trim(p.id) == "" ==> EntrantsOf(lower, p) == {}
  {
    hide Entrant, Trim;
    assert p.supports[..|p.supports|] == p.supports;
  }

  lemma {:induction false} IdBeatsNotItself(id: string)
    ensures !TextBefore(id, id)
  {
    if TextBefore(id, id) {
      TextBeforeIsAsymmetric(id, id);
    }
  }

  ghost predicate Ranked(s: seq<Winner>) {
    forall i, j :: 0 <= i < j < |s| ==> !Beats(s[j], s[i])
  }

  method InsertCandidate(s: seq<Winner>, x: Winner) returns (r: seq<Winner>)
    requires Ranked(s)
    ensures Ranked(r) && multiset(r) == multiset(s) + multiset{x}
  {
    hide Beats;
    var k := |s|;
    while k > 0 && Beats(x, s[k - 1])
      invariant 0 <= k <= |s| && forall j :: k <= j < |s| ==> Beats(x, s[j])
    {
      k := k - 1;
    }
    InsertKeepsRank(s, k, x);
    assert s == s[..k] + s[k..];
    r := s[..k] + [x] + s[k..];
  }

  lemma {:induction false} InsertKeepsRank(s: seq<Winner>, k: nat, x: Winner)
    requires Ranked(s) && k <= |s| && (k > 0 ==> !Beats(x, s[k - 1])) && forall j :: k <= j < |s| ==> Beats(x, s[j])
    ensures Ranked(s[..k] + [x] + s[k..])
  {
    hide Beats;
    forall j | k <= j < |s|
      ensures !Beats(s[j], x)
    {
      BeatsIsAsymmetric(x, s[j]);
    }
    forall j | 0 <= j < k
      ensures !Beats(x, s[j])
    {
      if j < k - 1 {
        BeatsIsTransitive(s[j], s[k - 1], x);
      }
    }
  }

  /** sort.Slice over the candidates. */
  method SortCandidates(s: seq<Winner>) returns (r: seq<Winner>)
    ensures multiset(r) == multiset(s) && Ranked(r)
  {
    hide Ranked;
    r := [];
    NoneRanked();
    for i := 0 to |s|
      invariant multiset(r) == multiset(s[..i]) && Ranked(r)
    {
      assert s[..i + 1] == s[..i] + [s[i]];
      r := InsertCandidate(r, s[i]);
    }
    assert s[..|s|] == s;
  }

  lemma {:induction false} NoneRanked()
    ensures Ranked([])
  {
  }

  /** The candidates so far: entrants, one of which nothing so far beats for each entrant. */
  ghost predicate Covers(entrants: set<Winner>, candidates: seq<Winner>) {
    && (forall w :: w in candidates ==> w in entrants)
    && (forall v :: v in entrants ==> exists w :: w in candidates && !Beats(v, w))
  }

  lemma {:induction false} CoversPush(entrants: set<Winner>, candidates: seq<Winner>, more: set<Winner>, w: Winner)
    requires Covers(entrants, candidates) && Tops(more, w)
    ensures Covers(entrants + more, candidates + [w])
  {
    hide Beats;
    var all := candidates + [w];
    assert forall x :: x in all <==> x in candidates || x == w;
    forall v | v in entrants + more
      ensures exists x :: x in all && !Beats(v, x)
    {
      if v in more {
        assert w in all && !Beats(v, w);
      } else {
        var x :| x in candidates && !Beats(v, x);
        assert x in all;
      }
    }
  }

  /** SelectConflictLastWriteWinner: a winner exactly when some named position has a support, and it is the best
      of all. */
  method SelectLastWriteWinner(lower: string -> string, positions: seq<Position>) returns (r: Option<Winner>)
    requires LowerKeepsNames(lower)
    ensures r.Some? <==> Entrants(lower, positions) != {}
    ensures r.Some? ==> IsBest(lower, positions, r.value)
  {
    hide Covers, EntrantsOf, Seen, Tops, Trim, LowerKeepsNames;
    var candidates: seq<Winner> := [];
    NothingCovered();
    for i := 0 to |positions|
      invariant Covers(Entrants(lower, positions[..i]), candidates)
    {
      var p := positions[i];
      assert positions[..i + 1][..i] == positions[..i];
      AllSeen(lower, p);
      ghost var so := Entrants(lower, positions[..i]);
      assert so + {} == so;
      if Trim(p.id) != "" {
        var found, w := BestSupport(lower, p);
        if found {
          CoversPush(so, candidates, EntrantsOf(lower, p), w);
          candidates := candidates + [w];
        }
      }
    }
    assert positions[..|positions|] == positions;
    CoversSome(Entrants(lower, positions), candidates);
    if candidates == [] {
      return None;
    }
    var sorted := SortCandidates(candidates);
    FirstIsBest(Entrants(lower, positions), candidates, sorted);
    r := Some(sorted[0]);
  }

  lemma {:induction false} NothingCovered()
    ensures Covers({}, [])
  {
  }

  lemma {:induction false} CoversSome(entrants: set<Winner>, candidates: seq<Winner>)
    requires Covers(entrants, candidates)
    ensures candidates == [] <==> entrants == {}
  {
    hide Beats;
    if candidates != [] {
      assert candidates[0] in entrants;
    }
  }

  lemma {:induction false} FirstIsBest(entrants: set<Winner>, candidates: seq<Winner>, sorted: seq<Winner>)
    requires Covers(entrants, candidates) && candidates != [] && multiset(sorted) == multiset(candidates)
             && Ranked(sorted)
    ensures sorted != [] && Tops(entrants, sorted[0])
  {
    hide Beats;
    assert candidates[0] in multiset(sorted);
    assert sorted[0] in multiset(candidates);
    forall v | v in entrants
      ensures !Beats(v, sorted[0])
    {
      var w :| w in candidates && !Beats(v, w);
      assert w in multiset(sorted);
      var i :| 0 <= i < |sorted| && sorted[i] == w;
      if i > 0 {
        BeatsIsTransitive(sorted[0], w, v);
      }
    }
  }

  lemma {:induction false} EntrantsMembers(lower: string -> string, positions: seq<Position>, w: Winner)
    ensures w in Entrants(lower, positions) <==> exists p :: p in positions && w in EntrantsOf(lower, p)
  {
    hide EntrantsOf;
    if positions != [] {
      var init, last := positions[..|positions| - 1], positions[|positions| - 1];
      EntrantsMembers(lower, init, w);
      assert positions == init + [last];
    }
  }

  lemma {:induction false} EntrantIsCanonical(lower: string -> string, positions: seq<Position>, w: Winner)
    requires w in Entrants(lower, positions)
    ensures CanonicalName(w.authority)
  {
    EntrantsMembers(lower, positions, w);
    var p :| p in positions && w in EntrantsOf(lower, p);
  }

  /** Two lists with the same positions, in another order and with their supports in another order. */
  ghost predicate Reordered(a: seq<Position>, b: seq<Position>) {
    Matched(a, b) && Matched(b, a)
  }

  ghost predicate Matched(a: seq<Position>, b: seq<Position>) {
    forall p :: p in a ==> exists q :: q in b && SameSupports(p, q)
  }

  predicate SameSupports(p: Position, q: Position) {
    p.id == q.id && multiset(p.supports) == multiset(q.supports)
  }

  lemma {:induction false} SameEntrants(lower: string -> string, p: Position, q: Position)
    requires SameSupports(p, q)
    ensures EntrantsOf(lower, p) == EntrantsOf(lower, q)
  {
    hide Trim, AuthorityRank;
    forall s
      ensures s in p.supports <==> s in q.supports
    {
      assert s in p.supports <==> s in multiset(p.supports);
      assert s in q.supports <==> s in multiset(q.supports);
    }
    assert forall s :: Entrant(lower, p, s) == Entrant(lower, q, s);
  }

  lemma {:induction false} MatchedEntrants(lower: string -> string, a: seq<Position>, b: seq<Position>, x: Winner)
    requires Matched(a, b) && x in Entrants(lower, a)
    ensures x in Entrants(lower, b)
  {
    hide EntrantsOf, SameSupports, Entrants;
    EntrantsMembers(lower, a, x);
    EntrantsMembers(lower, b, x);
    var p :| p in a && x in EntrantsOf(lower, p);
    var q :| q in b && SameSupports(p, q);
    SameEntrants(lower, p, q);
  }

  /** There is one best, and neither the order of positions nor that of their supports matters. */
  lemma {:induction false} ReorderingKeepsWinner(lower: string -> string, a: seq<Position>, b: seq<Position>, v: Winner,
                                                 w: Winner)
    requires Reordered(a, b) && IsBest(lower, a, v) && IsBest(lower, b, w)
    ensures v == w
  {
    hide Entrants, Beats, Matched;
    MatchedEntrants(lower, a, b, v);
    MatchedEntrants(lower, b, a, w);
    BeatsIsTotal(v, w);
    EntrantIsCanonical(lower, a, v);
    EntrantIsCanonical(lower, b, w);
    SameRankSameName(v.authority, w.authority);
  }

  /** How a support ranks, by the text of its authority. */
  predicate Ranks(lower: string -> string, s: Support, rank: int) {
    var a := lower(Trim(s.authority));
    if a == "authoritative" then rank == 0
    else if a == "primary" then rank == 1
    else if a == "secondary" then rank == 2
    else if a == "inferred" || a == "derived" then rank == 3
    else rank == 4
  }

  predicate Names(rank: int, name: string) {
    || (rank == 0 && name == "authoritative") || (rank == 1 && name == "primary") || (rank == 2 && name == "secondary")
    || (rank == 3 && name == "inferred") || (rank == 4 && name == "unknown")
  }

  lemma {:induction false} RankExactly(lower: string -> string, s: Support, rank: int)
    ensures Ranks(lower, s, rank) <==> rank == RankOf(AuthorityRank(lower, s.authority).1)
    ensures Ranks(lower, s, rank) ==> Names(rank, AuthorityRank(lower, s.authority).1)
  {
    hide Trim;
  }

  /** The winner is a named position with one of its supports, and no named position has a better support: one of a
      smaller rank, or of the same rank accepted later, or accepted then as well under a smaller position id. */
  lemma {:induction false} WinnerIsTheBestPair(lower: string -> string, positions: seq<Position>, w: Winner)
    requires IsBest(lower, positions, w)
    ensures exists p, s, rank ::
              && p in positions && s in p.supports && Ranks(lower, s, rank)
              && w.id == Trim(p.id) != "" && w.acceptedAt == s.acceptedAt && Names(rank, w.authority)
              && forall q, t, other ::
                   q in positions && t in q.supports && Trim(q.id) != "" && Ranks(lower, t, other) ==>
                   && rank <= other && (rank == other ==> t.acceptedAt <= s.acceptedAt)
                   && (rank == other && t.acceptedAt == s.acceptedAt ==> !TextBefore(Trim(q.id), w.id))
  {
    hide Trim, TextBefore, AuthorityRank, Entrants, Ranks, Names, RankOf;
    EntrantsMembers(lower, positions, w);
    var p :| p in positions && w in EntrantsOf(lower, p);
    var s :| s in p.supports && w == Entrant(lower, p, s);
    var rank := RankOf(w.authority);
    RankExactly(lower, s, rank);
    forall q, t, other | q in positions && t in q.supports && Trim(q.id) != "" && Ranks(lower, t, other)
      ensures rank <= other && (rank == other ==> t.acceptedAt <= s.acceptedAt)
      ensures rank == other && t.acceptedAt == s.acceptedAt ==> !TextBefore(Trim(q.id), w.id)
    {
      var v := Entrant(lower, q, t);
      EntrantsMembers(lower, positions, v);
      RankExactly(lower, t, other);
      assert v in EntrantsOf(lower, q);
      assert !Beats(v, w);
    }
  }

  // ----- The supporter majority

  datatype Record = Record(id: string, supporters: int, effectiveAt: Option<int>, basis: string)

  datatype Outcome = Resolve | Overdue | Noop
  datatype Reason = FewerThanTwo | MajoritySupport | NoDeterministicWinner | NotDue
  datatype Evaluation = Evaluation(outcome: Outcome, reason: Reason, preferred: string, effectiveAt: Option<int>,
                                   basis: string, total: int)

  function NormalRecord(r: Record): Record {
    r.(id := Trim(r.id), basis := Trim(r.basis), supporters := if r.supporters < 0 then 0 else r.supporters)
  }

  /** The positions that have an id, normalised. */
  function Named(records: seq<Record>): seq<Record> {
    if records == [] then []
    else Named(records[..|records| - 1]) + if Trim(records[|records| - 1].id) == "" then []
        else [NormalRecord(records[|records| - 1])]
  }

  function Total(named: seq<Record>): int {
    SumOf(named, (r: Record) => r.supporters)
  }

  predicate Majority(named: seq<Record>, r: Record) {
    r in named && r.supporters > Total(named) - r.supporters
  }

  /** What the review decides, said without an order of the positions. */
  ghost predicate IsEvaluation(now: int, due: int, records: seq<Record>, e: Evaluation) {
    var named := Named(records);
    var total := Total(named);
    if |named| < 2 then e == Evaluation(Noop, FewerThanTwo, "", None, "", 0)
    else if now < due then e == Evaluation(Noop, NotDue, "", None, "", total)
    else if exists r :: Majority(named, r) then
      exists r :: Majority(named, r) && e == Evaluation(Resolve, MajoritySupport, r.id, r.effectiveAt, r.basis, total)
    else e == Evaluation(Overdue, NoDeterministicWinner, "", None, "", total)
  }

  lemma {:induction false} NamedIsNormal(records: seq<Record>)
    ensures forall r :: r in Named(records) ==> r.supporters >= 0 && r.id != ""
  {
    hide Trim;
    if records != [] {
      NamedIsNormal(records[..|records| - 1]);
    }
  }

  lemma {:induction false} AllNonNegative(s: seq<Record>)
    requires forall r :: r in s ==> r.supporters >= 0
    ensures Total(s) >= 0
  {
    if s != [] {
      AllNonNegative(s[1..]);
    }
  }

  lemma {:induction false} OneOfTotal(named: seq<Record>, i: nat)
    requires i < |named| && forall r :: r in named ==> r.supporters >= 0
    ensures named[i].supporters <= Total(named)
  {
    if i == 0 {
      AllNonNegative(named[1..]);
    } else {
      OneOfTotal(named[1..], i - 1);
    }
  }

  lemma {:induction false} TwoOfTotal(named: seq<Record>, i: nat, j: nat)
    requires i < j < |named| && forall r :: r in named ==> r.supporters >= 0
    ensures named[i].supporters + named[j].supporters <= Total(named)
  {
    if i == 0 {
      OneOfTotal(named[1..], j - 1);
    } else {
      TwoOfTotal(named[1..], i - 1, j - 1);
    }
  }

  /** At most one position has a strict majority, wherever it stands. */
  lemma {:induction false} MajorityIsUnique(named: seq<Record>, a: Record, b: Record)
    requires forall r :: r in named ==> r.supporters >= 0
    requires Majority(named, a) && Majority(named, b)
    ensures a == b
  {
    hide Total;
    var i :| 0 <= i < |named| && named[i] == a;
    var j :| 0 <= j < |named| && named[j] == b;
    if i < j {
      TwoOfTotal(named, i, j);
    } else if j < i {
      TwoOfTotal(named, j, i);
    }
  }

  lemma {:induction false} EvaluationIsUnique(now: int, due: int, records: seq<Record>, a: Evaluation, b: Evaluation)
    requires IsEvaluation(now, due, records, a) && IsEvaluation(now, due, records, b)
    ensures a == b
  {
    hide Total, Majority;
    var named := Named(records);
    NamedIsNormal(records);
    forall r, q | Majority(named, r) && Majority(named, q)
      ensures r == q
    {
      MajorityIsUnique(named, r, q);
    }
  }

  lemma {:induction false} NamedCount(records: seq<Record>, x: Record)
    ensures multiset(Named(records))[x] ==
            SumOf(records, (r: Record) => if Trim(r.id) != "" && NormalRecord(r) == x then 1 else 0)
  {
    hide Trim, NormalRecord;
    if records != [] {
      var n := |records| - 1;
      assert records == records[..n] + [records[n]];
      NamedCount(records[..n], x);
      SumOfPush(records[..n], records[n], (r: Record) => if Trim(r.id) != "" && NormalRecord(r) == x then 1 else 0);
    }
  }

  /** Reordering the positions changes nothing. */
  lemma {:induction false} OrderDoesNotDecide(now: int, due: int, a: seq<Record>, b: seq<Record>, x: Evaluation,
                                              y: Evaluation)
    requires multiset(a) == multiset(b) && IsEvaluation(now, due, a, x) && IsEvaluation(now, due, b, y)
    ensures x == y
  {
    forall r
      ensures multiset(Named(a))[r] == multiset(Named(b))[r]
    {
      NamedCount(a, r);
      NamedCount(b, r);
      SumOfPermutation(a, b, (q: Record) => if Trim(q.id) != "" && NormalRecord(q) == r then 1 else 0);
    }
    SumOfPermutation(Named(a), Named(b), (r: Record) => r.supporters);
    SameEvaluation(now, due, a, b, y);
    EvaluationIsUnique(now, due, a, x, y);
  }

  lemma {:induction false} SameEvaluation(now: int, due: int, a: seq<Record>, b: seq<Record>, y: Evaluation)
    requires multiset(Named(a)) == multiset(Named(b)) && Total(Named(a)) == Total(Named(b))
             && IsEvaluation(now, due, b, y)
    ensures IsEvaluation(now, due, a, y)
  {
    hide Total;
    assert |Named(a)| == |multiset(Named(a))| == |multiset(Named(b))| == |Named(b)|;
    forall r
      ensures Majority(Named(a), r) <==> Majority(Named(b), r)
    {
      assert r in Named(a) <==> r in multiset(Named(a));
      assert r in Named(b) <==> r in multiset(Named(b));
    }
  }

  predicate RecordBefore(a: Record, b: Record) {
    a.supporters > b.supporters || (a.supporters == b.supporters && TextBefore(a.id, b.id))
  }

  ghost predicate BySupport(s: seq<Record>) {
    forall i, j :: 0 <= i < j < |s| ==> s[i].supporters >= s[j].supporters
  }

  lemma {:induction false} InsertKeepsSupport(s: seq<Record>, x: Record, k: nat)
    requires BySupport(s) && k <= |s|
    requires k > 0 ==> s[k - 1].supporters >= x.supporters
    requires forall j :: k <= j < |s| ==> x.supporters >= s[j].supporters
    ensures BySupport(s[..k] + [x] + s[k..])
  {
  }


  method InsertRecord(s: seq<Record>, x: Record) returns (r: seq<Record>)
    requires BySupport(s)
    ensures BySupport(r) && multiset(r) == multiset(s) + multiset{x}
  {
    hide TextBefore, BySupport;
    var k := |s|;
    while k > 0 && RecordBefore(x, s[k - 1])
      invariant 0 <= k <= |s| && forall j :: k <= j < |s| ==> x.supporters >= s[j].supporters
    {
      k := k - 1;
    }
    InsertKeepsSupport(s, x, k);
    assert s == s[..k] + s[k..];
    r := s[..k] + [x] + s[k..];
  }

  /** sort.SliceStable over the positions; only the first, the most supported, is used. */
  method SortRecords(s: seq<Record>) returns (r: seq<Record>)
    ensures multiset(r) == multiset(s) && BySupport(r)
  {
    r := [];
    for i := 0 to |s|
      invariant multiset(r) == multiset(s[..i]) && BySupport(r)
    {
      assert s[..i + 1] == s[..i] + [s[i]];
      r := InsertRecord(r, s[i]);
    }
    assert s[..|s|] == s;
  }

  method NormalizePositions(records: seq<Record>) returns (out: seq<Record>)
    ensures out == Named(records)
  {
    hide Trim;
    out := [];
    for i := 0 to |records|
      invariant out == Named(records[..i])
    {
      assert records[..i + 1][..i] == records[..i];
      if Trim(records[i].id) == "" {
        continue;
      }
      out := out + [NormalRecord(records[i])];
    }
    assert records[..|records|] == records;
  }

  /** EvaluateRelationshipConflict: resolves exactly when due, with two named positions and a strict majority. */
  method Evaluate(now: int, due: int, records: seq<Record>) returns (e: Evaluation)
    ensures IsEvaluation(now, due, records, e)
    ensures e.outcome == Resolve <==>
              now >= due && |Named(records)| >= 2 && exists r :: Majority(Named(records), r)
  {
    hide Named;
    var positions := NormalizePositions(records);
    NamedIsNormal(records);
    if |positions| < 2 {
      return Evaluation(Noop, FewerThanTwo, "", None, "", 0);
    }
    var total := 0;
    for i := 0 to |positions|
      invariant total == Total(positions[..i])
    {
      assert positions[..i + 1] == positions[..i] + [positions[i]];
      SumOfPush(positions[..i], positions[i], (r: Record) => r.supporters);
      total := total + positions[i].supporters;
    }
    assert positions[..|positions|] == positions;
    if total <= 0 {
      NoMajority(positions);
      if now < due {
        return Evaluation(Noop, NotDue, "", None, "", total);
      }
      return Evaluation(Overdue, NoDeterministicWinner, "", None, "", total);
    }
    var sorted := SortRecords(positions);
    var top := sorted[0];
    TopDecides(positions, sorted);
    if now >= due {
      if top.supporters > total - top.supporters {
        return Evaluation(Resolve, MajoritySupport, top.id, top.effectiveAt, top.basis, total);
      }
      return Evaluation(Overdue, NoDeterministicWinner, "", None, "", total);
    }
    e := Evaluation(Noop, NotDue, "", None, "", total);
  }

  lemma {:induction false} NoMajority(named: seq<Record>)
    requires Total(named) <= 0 && forall r :: r in named ==> r.supporters >= 0
    ensures forall r :: !Majority(named, r)
  {
    hide Total;
    forall r | r in named
      ensures !Majority(named, r)
    {
      var i :| 0 <= i < |named| && named[i] == r;
      OneOfTotal(named, i);
    }
  }

  /** The most supported position has the majority if any position has. */
  lemma {:induction false} TopDecides(named: seq<Record>, sorted: seq<Record>)
    requires multiset(sorted) == multiset(named) && named != []
    requires BySupport(sorted)
    ensures sorted != [] && sorted[0] in named
    ensures (exists r :: Majority(named, r)) <==> Majority(named, sorted[0])
  {
    hide Total;
    assert named[0] in multiset(sorted);
    assert sorted[0] in multiset(named);
    if exists r :: Majority(named, r) {
      var r :| Majority(named, r);
      assert r in multiset(sorted);
      var i :| 0 <= i < |sorted| && sorted[i] == r;
    }
  }

  /** Every position with an id stands for itself, trimmed and with a count of at least zero,
      as often as it was given. */
  lemma {:induction false} NamedExactly(records: seq<Record>, x: Record)
    ensures multiset(Named(records))[x] ==
            |set i | 0 <= i < |records| && Trim(records[i].id) != ""
                     && x == Record(Trim(records[i].id), if records[i].supporters > 0 then records[i].supporters else 0,
                                    records[i].effectiveAt, Trim(records[i].basis))|
  {
    hide Trim;
    NamedCount(records, x);
    SumCounts(records, (r: Record) => if Trim(r.id) != "" && NormalRecord(r) == x then 1 else 0,
              set i | 0 <= i < |records| && Trim(records[i].id) != ""
                      && x == Record(Trim(records[i].id),
                                     if records[i].supporters > 0 then records[i].supporters else 0,
                                     records[i].effectiveAt, Trim(records[i].basis)));
  }

  /** A strict majority is a position with more supporters than all the others together, wherever it stands. */
  lemma {:induction false} MajorityOutweighsOthers(named: seq<Record>, i: nat)
    requires i < |named|
    ensures Majority(named, named[i]) <==> named[i].supporters > Total(named[..i] + named[i + 1..])
    ensures Total(named[..i] + named[i + 1..]) == Total(named) - named[i].supporters && Total([]) == 0
  {
    var supporters := (r: Record) => r.supporters;
    assert named == named[..i] + ([named[i]] + named[i + 1..]);
    SumOfConcat(named[..i], [named[i]] + named[i + 1..], supporters);
    SumOfConcat([named[i]], named[i + 1..], supporters);
    SumOfConcat(named[..i], named[i + 1..], supporters);
  }
}
