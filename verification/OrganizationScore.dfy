/** Scoring how a result organizes sources into items, against the judged equivalence of the sources. */
module OrganizationScore {
  import D = Distinct

  datatype Source = Source(id: string, key: string, facts: seq<string>)
  datatype Item = Item(id: string, sources: seq<string>)
  datatype Score = Score(repeated: int, falseConsolidations: nat, distinctFacts: nat, retainedFacts: nat,
                         originalSources: nat, retainedSources: nat)

  // ----- The judgment

  function SourceIds(s: seq<Source>): (r: seq<string>)
    ensures |r| == |s| && forall i :: 0 <= i < |s| ==> r[i] == s[i].id
  {
    seq(|s|, i requires 0 <= i < |s| => s[i].id)
  }

  predicate JudgmentOk(s: seq<Source>) {
    && s != [] && D.NoRepeats(SourceIds(s))
    && forall i :: 0 <= i < |s| ==> s[i].id != "" && s[i].key != "" && s[i].facts != [] && "" !in s[i].facts
  }

  function ById(s: seq<Source>): map<string, Source> {
    if s == [] then map[] else ById(s[..|s| - 1])[s[|s| - 1].id := s[|s| - 1]]
  }

  function FactsOf(s: seq<Source>): set<string> {
    if s == [] then {} else FactsOf(s[..|s| - 1]) + D.Members(s[|s| - 1].facts)
  }

  lemma {:induction false} ByIdHolds(s: seq<Source>)
    ensures ById(s).Keys == D.Members(SourceIds(s))
    ensures D.NoRepeats(SourceIds(s)) ==> forall x :: x in s ==> x.id in ById(s) && ById(s)[x.id] == x
    ensures forall id :: id in ById(s) ==> ById(s)[id] in s && ById(s)[id].id == id
  {
    if s != [] {
      var n := |s| - 1;
      ByIdHolds(s[..n]);
      assert SourceIds(s)[..n] == SourceIds(s[..n]);
      assert SourceIds(s)[..n + 1] == SourceIds(s);
      D.NoRepeatsPush(SourceIds(s), n);
      assert s == s[..n] + [s[n]];
    }
  }

  // ----- One item and the whole result

  function Meanings(known: map<string, Source>, ids: seq<string>): set<string> {
    set id | id in ids && id in known :: known[id].key
  }

  function FactsFrom(known: map<string, Source>, ids: seq<string>): set<string> {
    set id, f | id in ids && id in known && f in known[id].facts :: f
  }

  predicate ItemOk(known: map<string, Source>, item: Item) {
    item.id != "" && item.sources != [] && forall id :: id in item.sources ==> id in known
  }

  function ItemIds(items: seq<Item>): (r: seq<string>)
    ensures |r| == |items| && forall i :: 0 <= i < |items| ==> r[i] == items[i].id
  {
    seq(|items|, i requires 0 <= i < |items| => items[i].id)
  }

  predicate ResultOk(known: map<string, Source>, items: seq<Item>) {
    (forall i :: 0 <= i < |items| ==> ItemOk(known, items[i])) && D.NoRepeats(ItemIds(items))
  }

  /** The meanings of the items, counted item by item. */
  function MeaningSlots(known: map<string, Source>, items: seq<Item>): nat {
    if items == [] then 0 else MeaningSlots(known, items[..|items| - 1]) + |Meanings(known, items[|items| - 1].sources)|
  }

  function MeaningsSeen(known: map<string, Source>, items: seq<Item>): set<string> {
    if items == [] then {} else MeaningsSeen(known, items[..|items| - 1]) + Meanings(known, items[|items| - 1].sources)
  }

  function Mixed(known: map<string, Source>, items: seq<Item>): nat {
    if items == [] then 0
    else Mixed(known, items[..|items| - 1]) + if |Meanings(known, items[|items| - 1].sources)| > 1 then 1 else 0
  }

  function Retained(items: seq<Item>): set<string> {
    if items == [] then {} else Retained(items[..|items| - 1]) + D.Members(items[|items| - 1].sources)
  }

  function RetainedFacts(known: map<string, Source>, items: seq<Item>): set<string> {
    if items == [] then {}
        else RetainedFacts(known, items[..|items| - 1]) + FactsFrom(known, items[|items| - 1].sources)
  }

  lemma {:induction false} SlotsCoverSeen(known: map<string, Source>, items: seq<Item>)
    ensures |MeaningsSeen(known, items)| <= MeaningSlots(known, items)
  {
    hide Meanings;
    if items != [] {
      var init, last := items[..|items| - 1], Meanings(known, items[|items| - 1].sources);
      SlotsCoverSeen(known, init);
      UnionSize(MeaningsSeen(known, init), last);
    }
  }

  lemma {:induction false} UnionSize<T>(a: set<T>, b: set<T>)
    ensures |a + b| + |a * b| == |a| + |b|
  {
  }

  /** The score in closed form: repeats are the meanings per item summed, less the distinct meanings. */
  function ScoreOf(known: map<string, Source>, facts: set<string>, items: seq<Item>): Score {
    Score(MeaningSlots(known, items) - |MeaningsSeen(known, items)|, Mixed(known, items), |facts|,
        |RetainedFacts(known, items)|,
          |known|, |Retained(items)|)
  }

  method ReadJudgment(sources: seq<Source>) returns (ok: bool, known: map<string, Source>, facts: set<string>)
    ensures ok <==> JudgmentOk(sources)
    ensures ok ==> known == ById(sources) && facts == FactsOf(sources)
  {
    hide D.NoRepeats, D.Members;
    known, facts := map[], {};
    var ids := SourceIds(sources);
    D.NoneYet(ids);
    for n := 0 to |sources|
      invariant known == ById(sources[..n]) && facts == FactsOf(sources[..n])
      invariant forall i :: 0 <= i < n ==>
                  sources[i].id != "" && sources[i].key != "" && sources[i].facts != [] && "" !in sources[i].facts
      invariant D.NoRepeats(ids[..n]) && known.Keys == D.Members(ids[..n])
    {
      var source := sources[n];
      assert sources[..n + 1][..n] == sources[..n];
      D.NoRepeatsPush(ids, n);
      if source.id == "" || source.key == "" || source.facts == [] || source.id in known {
        D.NoRepeatsPrefix(ids, n + 1);
        return false, known, facts;
      }
      known := known[source.id := source];
      for k := 0 to |source.facts|
        invariant forall j :: 0 <= j < k ==> source.facts[j] != ""
        invariant facts == FactsOf(sources[..n]) + D.Members(source.facts[..k])
      {
        if source.facts[k] == "" {
          return false, known, facts;
        }
        MembersPush(source.facts, k);
        facts := facts + {source.facts[k]};
      }
      assert source.facts[..|source.facts|] == source.facts;
    }
    assert sources[..|sources|] == sources && ids[..|ids|] == ids;
    ok := known != map[];
    if sources != [] {
      assert sources[|sources| - 1].id in known;
    }
  }

  lemma {:induction false} MembersPush<T>(s: seq<T>, k: nat)
    requires k < |s|
    ensures D.Members(s[..k + 1]) == D.Members(s[..k]) + {s[k]}
    ensures D.Members(s[..0]) == {}
  {
    assert s[..k + 1] == s[..k] + [s[k]];
  }

  /** One item: its meanings, and what it adds to the sources and facts retained. */
  method ReadItem(known: map<string, Source>, item: Item, sourcesBefore: set<string>, factsBefore: set<string>)
    returns (ok: bool, meanings: set<string>, sources: set<string>, facts: set<string>)
    ensures ok <==> forall id :: id in item.sources ==> id in known
    ensures ok ==> meanings == Meanings(known, item.sources)
    ensures ok ==>
              sources == sourcesBefore + D.Members(item.sources)
                  && facts == factsBefore + FactsFrom(known, item.sources)
  {
    meanings, sources, facts := {}, sourcesBefore, factsBefore;
    for i := 0 to |item.sources|
      invariant forall k :: 0 <= k < i ==> item.sources[k] in known
      invariant meanings == Meanings(known, item.sources[..i])
      invariant sources == sourcesBefore + D.Members(item.sources[..i])
      invariant facts == factsBefore + FactsFrom(known, item.sources[..i])
    {
      var id := item.sources[i];
      if id !in known {
        assert id in item.sources;
        return false, meanings, sources, facts;
      }
      ReadOne(known, item.sources, i);
      sources := sources + {id};
      meanings := meanings + {known[id].key};
      facts := facts + D.Members(known[id].facts);
    }
    assert item.sources[..|item.sources|] == item.sources;
    ok := true;
  }

  lemma {:induction false} ReadOne(known: map<string, Source>, ids: seq<string>, i: nat)
    requires i < |ids| && ids[i] in known
    ensures Meanings(known, ids[..i + 1]) == Meanings(known, ids[..i]) + {known[ids[i]].key}
    ensures FactsFrom(known, ids[..i + 1]) == FactsFrom(known, ids[..i]) + D.Members(known[ids[i]].facts)
    ensures D.Members(ids[..i + 1]) == D.Members(ids[..i]) + {ids[i]}
  {
    assert ids[..i + 1] == ids[..i] + [ids[i]];
  }

  function Overlap(a: set<string>, b: set<string>): nat {
    |a * b|
  }

  lemma {:induction false} OverlapPush(done: set<string>, seen: set<string>, x: string)
    requires x !in done
    ensures Overlap(done + {x}, seen) == Overlap(done, seen) + if x in seen then 1 else 0
  {
    assert (done + {x}) * seen == done * seen + if x in seen then {x} else {};
  }

  lemma {:induction false} NoOverlap(seen: set<string>)
    ensures Overlap({}, seen) == 0
  {
  }

  /** The inner loop over the meanings of an item, in no particular order. */
  method CountRepeats(meanings: set<string>, seenBefore: set<string>, before: nat)
    returns (repeated: nat, seen: set<string>)
    ensures repeated == before + Overlap(meanings, seenBefore) && seen == seenBefore + meanings
  {
    hide Overlap;
    repeated, seen := before, seenBefore;
    var left := meanings;
    ghost var done: set<string> := {};
    NoOverlap(seenBefore);
    while left != {}
      invariant done + left == meanings && done !! left
      invariant seen == seenBefore + done
      invariant repeated == before + Overlap(done, seenBefore)
      decreases |left|
    {
      var meaning :| meaning in left;
      OverlapPush(done, seenBefore, meaning);
      if meaning in seen {
        repeated := repeated + 1;
      }
      seen := seen + {meaning};
      left, done := left - {meaning}, done + {meaning};
    }
    assert done == meanings;
  }

  lemma {:induction false} NothingScored(known: map<string, Source>, items: seq<Item>)
    ensures MeaningsSeen(known, items[..0]) == {} && MeaningSlots(known, items[..0]) == 0
            && Mixed(known, items[..0]) == 0
    ensures Retained(items[..0]) == {} && RetainedFacts(known, items[..0]) == {}
  {
  }

  lemma {:induction false} ScoreStep(known: map<string, Source>, items: seq<Item>, n: nat)
    requires n < |items|
    ensures MeaningsSeen(known, items[..n + 1]) == MeaningsSeen(known, items[..n]) + Meanings(known, items[n].sources)
    ensures MeaningSlots(known, items[..n + 1]) == MeaningSlots(known, items[..n]) + |Meanings(known, items[n].sources)|
    ensures Mixed(known, items[..n + 1]) == Mixed(known, items[..n]) + if |Meanings(known, items[n].sources)| > 1 then 1
            else 0
    ensures Retained(items[..n + 1]) == Retained(items[..n]) + D.Members(items[n].sources)
    ensures RetainedFacts(known, items[..n + 1]) ==
            RetainedFacts(known, items[..n]) + FactsFrom(known, items[n].sources)
  {
    hide Meanings, FactsFrom, D.Members;
    assert items[..n + 1][..n] == items[..n];
  }

  lemma {:induction false} ItemOkExactly(known: map<string, Source>, item: Item)
    ensures ItemOk(known, item) <==> item.id != "" && item.sources != [] && forall id :: id in item.sources ==>
              id in known
  {
  }

  /** ScoreOrganization: fails exactly on a malformed judgment or result, else gives the closed form. */
  method ScoreOrganization(sources: seq<Source>, items: seq<Item>) returns (ok: bool, score: Score)
    ensures ok <==> JudgmentOk(sources) && ResultOk(ById(sources), items)
    ensures ok ==> score == ScoreOf(ById(sources), FactsOf(sources), items)
  {
    hide D.NoRepeats, D.Members, Meanings, FactsFrom, JudgmentOk, MeaningsSeen, MeaningSlots, Mixed, Retained;
    hide RetainedFacts, ById, FactsOf, ItemOk;
    var judged, known, facts := ReadJudgment(sources);
    score := Score(0, 0, 0, 0, 0, 0);
    if !judged {
      return false, score;
    }
    var seenItems: set<string>, seenMeanings: set<string>, retained: set<string>, retainedFacts: set<string> := {}, {},
        {}, {};
    var repeated: nat, mixed: nat := 0, 0;
    var ids := ItemIds(items);
    D.NoneYet(ids);
    NothingScored(known, items);
    for n := 0 to |items|
      invariant forall i :: 0 <= i < n ==> ItemOk(known, items[i])
      invariant D.NoRepeats(ids[..n]) && seenItems == D.Members(ids[..n])
      invariant seenMeanings == MeaningsSeen(known, items[..n])
                && repeated + |seenMeanings| == MeaningSlots(known, items[..n])
      invariant mixed == Mixed(known, items[..n])
      invariant retained == Retained(items[..n]) && retainedFacts == RetainedFacts(known, items[..n])
    {
      var item := items[n];
      ScoreStep(known, items, n);
      ItemOkExactly(known, item);
      D.NoRepeatsPush(ids, n);
      if item.id == "" || item.id in seenItems || item.sources == [] {
        D.NoRepeatsPrefix(ids, n + 1);
        return false, score;
      }
      seenItems := seenItems + {item.id};
      var readOk, meanings, sourcesNow, factsNow := ReadItem(known, item, retained, retainedFacts);
      if !readOk {
        return false, score;
      }
      retained, retainedFacts := sourcesNow, factsNow;
      if |meanings| > 1 {
        mixed := mixed + 1;
      }
      UnionSize(seenMeanings, meanings);
      assert Overlap(meanings, seenMeanings) == |seenMeanings * meanings| by {
        assert meanings * seenMeanings == seenMeanings * meanings;
      }
      repeated, seenMeanings := CountRepeats(meanings, seenMeanings, repeated);
    }
    assert items[..|items|] == items && ids[..|ids|] == ids;
    ok, score := true, Score(repeated, mixed, |facts|, |retainedFacts|, |known|, |retained|);
  }

  // ----- What a perfect score means

  function ClassOf(sources: seq<Source>, key: string): set<string> {
    set s | s in sources && s.key == key :: s.id
  }

  ghost predicate IsClass(sources: seq<Source>, item: Item) {
    exists key :: D.Members(item.sources) == ClassOf(sources, key)
  }

  ghost predicate EachKept(sources: seq<Source>, items: seq<Item>) {
    forall s :: s in sources ==> exists i :: 0 <= i < |items| && s.id in items[i].sources
  }

  ghost predicate OneMeaningEach(known: map<string, Source>, items: seq<Item>) {
    forall i :: 0 <= i < |items| ==> |Meanings(known, items[i].sources)| <= 1
  }

  /** The items, as sets of sources, are the equivalence classes, each once. */
  ghost predicate PartitionByKey(sources: seq<Source>, items: seq<Item>) {
    && (forall i :: 0 <= i < |items| ==> IsClass(sources, items[i]))
    && (forall i, j :: 0 <= i < j < |items| ==> D.Members(items[i].sources) !! D.Members(items[j].sources))
    && EachKept(sources, items)
  }

  ghost predicate Apart(known: map<string, Source>, items: seq<Item>) {
    forall i, j :: 0 <= i < j < |items| ==> Meanings(known, items[i].sources) !! Meanings(known, items[j].sources)
  }

  lemma {:induction false} SeenApart(known: map<string, Source>, items: seq<Item>, keys: set<string>)
    ensures MeaningsSeen(known, items) !! keys <==> forall i :: 0 <= i < |items| ==>
              Meanings(known, items[i].sources) !! keys
  {
    hide Meanings;
    if items != [] {
      SeenApart(known, items[..|items| - 1], keys);
    }
  }

  lemma {:induction false} ApartPush(known: map<string, Source>, items: seq<Item>, n: nat)
    requires |items| == n + 1
    ensures Apart(known, items) <==>
              Apart(known, items[..n]) && MeaningsSeen(known, items[..n]) !! Meanings(known, items[n].sources)
  {
    hide Meanings, MeaningsSeen;
    SeenApart(known, items[..n], Meanings(known, items[n].sources));
    assert forall i :: 0 <= i < n ==> items[..n][i] == items[i];
  }

  lemma {:induction false} NoRepeatsExactly(known: map<string, Source>, items: seq<Item>)
    ensures MeaningSlots(known, items) == |MeaningsSeen(known, items)| <==> Apart(known, items)
  {
    hide Meanings, Apart;
    if items == [] {
      assert Apart(known, []) by { ApartNone(known); }
    } else {
      var n := |items| - 1;
      NoRepeatsExactly(known, items[..n]);
      SlotsCoverSeen(known, items[..n]);
      UnionSize(MeaningsSeen(known, items[..n]), Meanings(known, items[n].sources));
      EmptyMeet(MeaningsSeen(known, items[..n]), Meanings(known, items[n].sources));
      ApartPush(known, items, n);
    }
  }

  lemma {:induction false} ApartNone(known: map<string, Source>)
    ensures Apart(known, [])
  {
  }

  lemma {:induction false} EmptyMeet<T>(a: set<T>, b: set<T>)
    ensures |a * b| == 0 <==> a !! b
  {
    if a !! b {
      assert a * b == {};
    } else {
      var x :| x in a && x in b;
      assert x in a * b;
    }
  }

  lemma {:induction false} NoneMixedExactly(known: map<string, Source>, items: seq<Item>)
    ensures Mixed(known, items) == 0 <==> OneMeaningEach(known, items)
  {
    hide Meanings;
    if items != [] {
      NoneMixedExactly(known, items[..|items| - 1]);
    }
  }

  lemma {:induction false} RetainedMembers(items: seq<Item>, id: string)
    ensures id in Retained(items) <==> exists i :: 0 <= i < |items| && id in items[i].sources
  {
    if items != [] {
      RetainedMembers(items[..|items| - 1], id);
    }
  }

  ghost predicate Perfect(score: Score) {
    score.repeated == 0 && score.falseConsolidations == 0 && score.retainedSources == score.originalSources
  }

  lemma {:induction false} KnownKeys(sources: seq<Source>, x: Source)
    requires JudgmentOk(sources) && x in sources
    ensures x.id in ById(sources) && ById(sources)[x.id] == x
  {
    ByIdHolds(sources);
  }

  lemma {:induction false} AllRetainedExactly(sources: seq<Source>, items: seq<Item>)
    requires JudgmentOk(sources) && ResultOk(ById(sources), items)
    ensures |Retained(items)| == |ById(sources)| <==> EachKept(sources, items)
  {
    hide Retained, ById, D.NoRepeats, D.Members;
    var known := ById(sources);
    RetainedIsKnown(known, items);
    D.SubsetSize(Retained(items), known.Keys);
    assert |known| == |known.Keys|;
    KeptIsRetained(sources, items);
  }

  lemma {:induction false} RetainedIsKnown(known: map<string, Source>, items: seq<Item>)
    requires ResultOk(known, items)
    ensures Retained(items) <= known.Keys
  {
    hide Retained, D.NoRepeats;
    forall id | id in Retained(items)
      ensures id in known
    {
      RetainedMembers(items, id);
      var i :| 0 <= i < |items| && id in items[i].sources;
      assert ItemOk(known, items[i]);
    }
  }

  lemma {:induction false} KeptIsRetained(sources: seq<Source>, items: seq<Item>)
    requires JudgmentOk(sources) && Retained(items) <= ById(sources).Keys
    ensures EachKept(sources, items) <==> Retained(items) == ById(sources).Keys
  {
    hide Retained, ById, D.NoRepeats, JudgmentOk;
    var known := ById(sources);
    if EachKept(sources, items) {
      forall id | id in known
        ensures id in Retained(items)
      {
        KnownSource(sources, id);
        RetainedMembers(items, id);
      }
    }
    if Retained(items) == known.Keys {
      forall s | s in sources
        ensures exists i :: 0 <= i < |items| && s.id in items[i].sources
      {
        KnownKeys(sources, s);
        RetainedMembers(items, s.id);
      }
    }
  }

  lemma {:induction false} KnownSource(sources: seq<Source>, id: string)
    requires id in ById(sources)
    ensures ById(sources)[id] in sources && ById(sources)[id].id == id
  {
    ByIdHolds(sources);
  }

  /** Repeats, false consolidations and losses are all absent exactly when the items partition the sources by
      equivalence key. */
  lemma {:induction false} PerfectExactly(sources: seq<Source>, items: seq<Item>)
    requires JudgmentOk(sources) && ResultOk(ById(sources), items)
    ensures Perfect(ScoreOf(ById(sources), FactsOf(sources), items)) <==> PartitionByKey(sources, items)
  {
    hide JudgmentOk, ResultOk, PartitionByKey, Meanings;
    var known := ById(sources);
    SlotsCoverSeen(known, items);
    NoRepeatsExactly(known, items);
    NoneMixedExactly(known, items);
    AllRetainedExactly(sources, items);
    if Perfect(ScoreOf(known, FactsOf(sources), items)) {
      PerfectIsPartition(sources, items);
    }
    if PartitionByKey(sources, items) {
      PartitionIsPerfect(sources, items);
    }
  }

  lemma {:induction false} OneMeaning(known: map<string, Source>, ids: seq<string>, a: string, b: string)
    requires |Meanings(known, ids)| <= 1 && a in ids && b in ids && a in known && b in known
    ensures known[a].key == known[b].key
  {
    var m := Meanings(known, ids);
    assert known[a].key in m && known[b].key in m;
    if known[a].key != known[b].key {
      D.SubsetSize({known[a].key, known[b].key}, m);
    }
  }

  lemma {:induction false} PerfectIsPartition(sources: seq<Source>, items: seq<Item>)
    requires JudgmentOk(sources) && ResultOk(ById(sources), items)
    requires var known := ById(sources);
             Apart(known, items) && OneMeaningEach(known, items) && EachKept(sources, items)
    ensures PartitionByKey(sources, items)
  {
    hide JudgmentOk, IsClass, EachKept, Meanings, ById;
    var known := ById(sources);
    forall i | 0 <= i < |items|
      ensures IsClass(sources, items[i])
    {
      assert ItemOk(known, items[i]);
      ItemIsClass(sources, items, i);
    }
    forall i, j | 0 <= i < j < |items|
      ensures D.Members(items[i].sources) !! D.Members(items[j].sources)
    {
      assert ItemOk(known, items[i]);
      NoSharedSource(known, items[i], items[j]);
    }
  }

  lemma {:induction false} NoSharedSource(known: map<string, Source>, a: Item, b: Item)
    requires ItemOk(known, a) && Meanings(known, a.sources) !! Meanings(known, b.sources)
    ensures D.Members(a.sources) !! D.Members(b.sources)
  {
    forall id | id in a.sources
      ensures id !in b.sources
    {
      assert known[id].key in Meanings(known, a.sources);
    }
  }

  lemma {:induction false} ItemIsClass(sources: seq<Source>, items: seq<Item>, i: nat)
    requires JudgmentOk(sources) && i < |items| && ItemOk(ById(sources), items[i])
    requires var known := ById(sources);
             Apart(known, items) && |Meanings(known, items[i].sources)| <= 1 && EachKept(sources, items)
    ensures IsClass(sources, items[i])
  {
    hide JudgmentOk, Meanings, ClassOf, ById, D.NoRepeats;
    var known := ById(sources);
    var key := known[items[i].sources[0]].key;
    forall id | id in items[i].sources
      ensures id in ClassOf(sources, key)
    {
      OneMeaning(known, items[i].sources, id, items[i].sources[0]);
      InOwnClass(sources, id);
    }
    forall id | id in ClassOf(sources, key)
      ensures id in items[i].sources
    {
      var s := OfClass(sources, key, id);
      var j :| 0 <= j < |items| && id in items[j].sources;
      KeyIsMeaning(known, items[j].sources, id);
      KeyIsMeaning(known, items[i].sources, items[i].sources[0]);
      SharedKeySameItem(known, items, i, j, key);
    }
    assert D.Members(items[i].sources) == ClassOf(sources, key);
  }

  lemma {:induction false} InOwnClass(sources: seq<Source>, id: string)
    requires id in ById(sources)
    ensures id in ClassOf(sources, ById(sources)[id].key)
  {
    ByIdHolds(sources);
    assert ById(sources)[id] in sources;
  }

  lemma {:induction false} OfClass(sources: seq<Source>, key: string, id: string) returns (s: Source)
    requires JudgmentOk(sources) && id in ClassOf(sources, key)
    ensures s in sources && s.id == id && s.key == key && id in ById(sources) && ById(sources)[id] == s
  {
    s :| s in sources && s.id == id && s.key == key;
    KnownKeys(sources, s);
  }

  lemma {:induction false} KeyIsMeaning(known: map<string, Source>, ids: seq<string>, id: string)
    requires id in ids && id in known
    ensures known[id].key in Meanings(known, ids)
  {
  }

  lemma {:induction false} SharedKeySameItem(known: map<string, Source>, items: seq<Item>, i: nat, j: nat, key: string)
    requires Apart(known, items) && i < |items| && j < |items|
    requires key in Meanings(known, items[i].sources) && key in Meanings(known, items[j].sources)
    ensures i == j
  {
    hide Meanings;
  }

  lemma {:induction false} ClassKeys(sources: seq<Source>, item: Item) returns (key: string)
    requires JudgmentOk(sources) && IsClass(sources, item)
    ensures D.Members(item.sources) == ClassOf(sources, key) && Meanings(ById(sources), item.sources) <= {key}
  {
    hide Meanings, ById, ClassOf, JudgmentOk;
    key :| D.Members(item.sources) == ClassOf(sources, key);
    ClassMeaning(sources, item.sources, key);
  }

  lemma {:induction false} DisjointItems(sources: seq<Source>, a: Item, b: Item)
    requires JudgmentOk(sources) && IsClass(sources, a) && IsClass(sources, b)
    requires D.Members(a.sources) !! D.Members(b.sources) && a.sources != []
    ensures Meanings(ById(sources), a.sources) !! Meanings(ById(sources), b.sources)
  {
    hide Meanings, ById, ClassOf, JudgmentOk, IsClass;
    var x := ClassKeys(sources, a);
    var y := ClassKeys(sources, b);
    assert a.sources[0] in D.Members(a.sources);
    assert x != y;
  }

  lemma {:induction false} PartitionIsPerfect(sources: seq<Source>, items: seq<Item>)
    requires JudgmentOk(sources) && ResultOk(ById(sources), items) && PartitionByKey(sources, items)
    ensures var known := ById(sources); Apart(known, items) && OneMeaningEach(known, items) && EachKept(sources, items)
  {
    hide JudgmentOk, Meanings, ById, IsClass, EachKept, D.NoRepeats, D.Members;
    var known := ById(sources);
    forall i | 0 <= i < |items|
      ensures |Meanings(known, items[i].sources)| <= 1
    {
      var key := ClassKeys(sources, items[i]);
      D.SubsetSize(Meanings(known, items[i].sources), {key});
    }
    forall i, j | 0 <= i < j < |items|
      ensures Meanings(known, items[i].sources) !! Meanings(known, items[j].sources)
    {
      assert ItemOk(known, items[i]);
      DisjointItems(sources, items[i], items[j]);
    }
  }

  lemma {:induction false} ClassMeaning(sources: seq<Source>, ids: seq<string>, key: string)
    requires JudgmentOk(sources) && D.Members(ids) == ClassOf(sources, key)
    ensures Meanings(ById(sources), ids) <= {key}
  {
    var known := ById(sources);
    forall id | id in ids && id in known
      ensures known[id].key == key
    {
      assert id in D.Members(ids);
      var s :| s in sources && s.key == key && s.id == id;
      KnownKeys(sources, s);
    }
  }

  // ----- The unorganized result

  function Unorganized(sources: seq<Source>): (items: seq<Item>)
    ensures |items| == |sources| && forall i :: 0 <= i < |sources| ==> items[i] == Item(sources[i].id, [sources[i].id])
  {
    seq(|sources|, i requires 0 <= i < |sources| => Item(sources[i].id, [sources[i].id]))
  }

  method UnorganizedItems(sources: seq<Source>) returns (items: seq<Item>)
    ensures items == Unorganized(sources)
  {
    items := [];
    for i := 0 to |sources|
      invariant |items| == i && forall k :: 0 <= k < i ==> items[k] == Item(sources[k].id, [sources[k].id])
    {
      items := items + [Item(sources[i].id, [sources[i].id])];
    }
  }

  function Keys(sources: seq<Source>): set<string> {
    set s | s in sources :: s.key
  }

  lemma {:induction false} UnorganizedPush(sources: seq<Source>, n: nat)
    requires |sources| == n + 1
    ensures Unorganized(sources)[..n] == Unorganized(sources[..n])
            && Unorganized(sources)[n] == Item(sources[n].id, [sources[n].id])
    ensures Keys(sources) == Keys(sources[..n]) + {sources[n].key}
    ensures D.Members(SourceIds(sources)) == D.Members(SourceIds(sources[..n])) + {sources[n].id}
  {
    assert sources == sources[..n] + [sources[n]];
    assert SourceIds(sources) == SourceIds(sources[..n]) + [sources[n].id];
  }

  lemma {:induction false} OneMeaningOf(known: map<string, Source>, id: string)
    requires id in known
    ensures Meanings(known, [id]) == {known[id].key}
  {
  }

  lemma {:induction false} OneSlotEach(known: map<string, Source>, sources: seq<Source>)
    requires forall s :: s in sources ==> s.id in known && known[s.id] == s
    ensures var items := Unorganized(sources);
            MeaningSlots(known, items) == |sources| && MeaningsSeen(known, items) == Keys(sources)
                && Mixed(known, items) == 0
    ensures Retained(Unorganized(sources)) == D.Members(SourceIds(sources))
  {
    hide Meanings, MeaningSlots, MeaningsSeen, Mixed, Retained, RetainedFacts, FactsFrom, Keys, D.Members;
    var items := Unorganized(sources);
    if sources == [] {
      NothingScored(known, items);
      assert items[..0] == items;
      NoKeys();
    } else {
      var n := |sources| - 1;
      UnorganizedPush(sources, n);
      OneSlotEach(known, sources[..n]);
      assert items[..n + 1] == items;
      ScoreStep(known, items, n);
      OneMeaningOf(known, sources[n].id);
      OneMember(sources[n].id);
    }
  }

  lemma {:induction false} NoKeys()
    ensures Keys([]) == {} && D.Members(SourceIds([])) == {}
  {
  }

  lemma {:induction false} OneMember(id: string)
    ensures D.Members([id]) == {id}
  {
  }

  /** Leaving everything unorganized repeats each source beyond the first of its key, and loses and confuses nothing. */
  lemma {:induction false} UnorganizedScore(sources: seq<Source>)
    requires JudgmentOk(sources)
    ensures ResultOk(ById(sources), Unorganized(sources))
    ensures var score := ScoreOf(ById(sources), FactsOf(sources), Unorganized(sources));
            && score.repeated == |sources| - |Keys(sources)|
            && score.falseConsolidations == 0 && score.retainedSources == score.originalSources == |sources|
  {
    hide D.NoRepeats, D.Members, Meanings, MeaningSlots, MeaningsSeen, Mixed, Retained, RetainedFacts, FactsOf, ById;
    hide Keys;
    var known, items := ById(sources), Unorganized(sources);
    ByIdHolds(sources);
    assert ItemIds(items) == SourceIds(sources);
    OneSlotEach(known, sources);
    D.NoRepeatsSize(SourceIds(sources));
    assert |known| == |known.Keys|;
  }

  // ----- The score in terms of the sources

  /** Item i uses the source. */
  predicate Uses(items: seq<Item>, i: int, s: Source) {
    0 <= i < |items| && s.id in items[i].sources
  }

  ghost predicate UsedBySome(items: seq<Item>, s: Source) {
    exists i :: Uses(items, i, s)
  }

  /** Item i uses two sources of different keys. */
  predicate MixesKeys(sources: seq<Source>, items: seq<Item>, i: int) {
    exists s, t :: s in sources && t in sources && Uses(items, i, s) && Uses(items, i, t) && s.key != t.key
  }

  lemma {:induction false} ItemMeanings(sources: seq<Source>, ids: seq<string>)
    requires JudgmentOk(sources)
    ensures forall k :: k in Meanings(ById(sources), ids) <==> exists s :: s in sources && s.id in ids && s.key == k
    ensures forall f :: f in FactsFrom(ById(sources), ids) <==> exists s :: s in sources && s.id in ids && f in s.facts
  {
    hide D.NoRepeats, ById;
    ByIdHolds(sources);
  }

  lemma {:induction false} SeenByItem(known: map<string, Source>, items: seq<Item>)
    ensures forall k :: k in MeaningsSeen(known, items) <==>
              exists i :: 0 <= i < |items| && k in Meanings(known, items[i].sources)
    ensures forall f :: f in RetainedFacts(known, items) <==>
              exists i :: 0 <= i < |items| && f in FactsFrom(known, items[i].sources)
    ensures forall id :: id in Retained(items) <==> exists i :: 0 <= i < |items| && id in items[i].sources
  {
    hide Meanings, FactsFrom;
    if items != [] {
      var init := items[..|items| - 1];
      SeenByItem(known, init);
      assert forall i :: 0 <= i < |init| ==> init[i] == items[i];
    }
  }

  function Pairs(known: map<string, Source>, items: seq<Item>): set<(int, string)> {
    set i, k | 0 <= i < |items| && k in Meanings(known, items[i].sources) :: (i, k)
  }

  lemma {:induction false} PairsPush(known: map<string, Source>, items: seq<Item>, n: nat)
    requires |items| == n + 1
    ensures Pairs(known, items) == Pairs(known, items[..n]) + (set k | k in Meanings(known, items[n].sources) :: (n, k))
    ensures Pairs(known, items[..n]) !! (set k | k in Meanings(known, items[n].sources) :: (n, k))
  {
    hide Meanings;
    var init, added := items[..n], set k | k in Meanings(known, items[n].sources) :: (n, k);
    forall i: int, k: string
      ensures (i, k) in Pairs(known, items) <==> (i, k) in Pairs(known, init) || (i, k) in added
    {
      if 0 <= i < n {
        assert items[i] == init[i];
      }
    }
  }

  lemma {:induction false} SlotsArePairs(known: map<string, Source>, items: seq<Item>)
    ensures MeaningSlots(known, items) == |Pairs(known, items)|
  {
    hide Meanings;
    if items == [] {
      assert forall x :: x !in Pairs(known, items);
    } else {
      hide Pairs;
      var n := |items| - 1;
      SlotsArePairs(known, items[..n]);
      PairsPush(known, items, n);
      PairedSize(Meanings(known, items[n].sources), n);
    }
  }

  function MixedAt(known: map<string, Source>, items: seq<Item>): set<int> {
    set i | 0 <= i < |items| && |Meanings(known, items[i].sources)| > 1
  }

  lemma {:induction false} MixedPush(known: map<string, Source>, items: seq<Item>, n: nat)
    requires |items| == n + 1
    ensures MixedAt(known, items) ==
            MixedAt(known, items[..n]) + if |Meanings(known, items[n].sources)| > 1 then {n} else {}
    ensures n !in MixedAt(known, items[..n])
  {
    hide Meanings;
    var init := items[..n];
    forall i: int
      ensures i in MixedAt(known, items) <==>
                i in MixedAt(known, init) || (i == n && |Meanings(known, items[n].sources)| > 1)
    {
      if 0 <= i < n {
        assert items[i] == init[i];
      }
    }
  }

  lemma {:induction false} MixedCount(known: map<string, Source>, items: seq<Item>)
    ensures Mixed(known, items) == |MixedAt(known, items)|
  {
    hide Meanings;
    if items == [] {
      assert forall i :: i !in MixedAt(known, items);
    } else {
      hide MixedAt;
      MixedCount(known, items[..|items| - 1]);
      MixedPush(known, items, |items| - 1);
    }
  }

  lemma {:induction false} PairedSize(keys: set<string>, n: int)
    ensures |set k | k in keys :: (n, k)| == |keys|
  {
    var pairs := set k | k in keys :: (n, k);
    if keys == {} {
      assert forall x :: x !in pairs;
    } else {
      var k :| k in keys;
      PairedSize(keys - {k}, n);
      assert pairs == (set x | x in keys - {k} :: (n, x)) + {(n, k)};
    }
  }

  lemma {:induction false} MoreThanOne(s: set<string>)
    ensures |s| > 1 <==> exists x, y :: x in s && y in s && x != y
  {
    if |s| > 1 {
      var x :| x in s;
      assert |s - {x}| > 0;
      var y :| y in s - {x};
    } else if x, y :| x in s && y in s && x != y {
      assert {x, y} <= s;
      D.SubsetSize({x, y}, s);
    }
  }

  lemma {:induction false} FactsExactly(sources: seq<Source>)
    ensures forall f :: f in FactsOf(sources) <==> exists s :: s in sources && f in s.facts
  {
    if sources != [] {
      FactsExactly(sources[..|sources| - 1]);
      assert sources == sources[..|sources| - 1] + [sources[|sources| - 1]];
    }
  }

  lemma {:induction false} RepeatsExactly(sources: seq<Source>, items: seq<Item>)
    requires JudgmentOk(sources)
    ensures MeaningSlots(ById(sources), items) ==
            |set i, s | 0 <= i < |items| && s in sources && Uses(items, i, s) :: (i, s.key)|
    ensures |MeaningsSeen(ById(sources), items)| == |set s | s in sources && UsedBySome(items, s) :: s.key|
  {
    hide JudgmentOk, ById, Meanings, MeaningsSeen, MeaningSlots, FactsFrom, RetainedFacts, Retained;
    var known := ById(sources);
    SlotsArePairs(known, items);
    SeenByItem(known, items);
    forall i | 0 <= i < |items|
      ensures forall k :: k in Meanings(known, items[i].sources) <==>
                exists s :: s in sources && Uses(items, i, s) && s.key == k
    {
      ItemMeanings(sources, items[i].sources);
    }
    assert Pairs(known, items) == set i, s | 0 <= i < |items| && s in sources && Uses(items, i, s) :: (i, s.key);
    assert MeaningsSeen(known, items) == set s | s in sources && UsedBySome(items, s) :: s.key;
  }

  lemma {:induction false} MixedExactly(sources: seq<Source>, items: seq<Item>)
    requires JudgmentOk(sources)
    ensures Mixed(ById(sources), items) == |set i | 0 <= i < |items| && MixesKeys(sources, items, i)|
  {
    hide JudgmentOk, ById, Meanings, Mixed, FactsFrom;
    var known := ById(sources);
    MixedCount(known, items);
    forall i | 0 <= i < |items|
      ensures |Meanings(known, items[i].sources)| > 1 <==> MixesKeys(sources, items, i)
    {
      ItemMixes(sources, items, i);
    }
    assert MixedAt(known, items) == set i | 0 <= i < |items| && MixesKeys(sources, items, i);
  }

  lemma {:induction false} ItemMixes(sources: seq<Source>, items: seq<Item>, i: nat)
    requires JudgmentOk(sources) && i < |items|
    ensures |Meanings(ById(sources), items[i].sources)| > 1 <==> MixesKeys(sources, items, i)
  {
    hide JudgmentOk, ById, Meanings, FactsFrom;
    var keys := Meanings(ById(sources), items[i].sources);
    ItemMeanings(sources, items[i].sources);
    MoreThanOne(keys);
    if k, l :| k in keys && l in keys && k != l {
      var s :| s in sources && s.id in items[i].sources && s.key == k;
      var t :| t in sources && t.id in items[i].sources && t.key == l;
      assert Uses(items, i, s) && Uses(items, i, t);
    }
    if s, t :| s in sources && t in sources && Uses(items, i, s) && Uses(items, i, t) && s.key != t.key {
      assert s.key in keys && t.key in keys;
    }
  }

  lemma {:induction false} RetainedFactsExactly(sources: seq<Source>, items: seq<Item>)
    requires JudgmentOk(sources)
    ensures RetainedFacts(ById(sources), items) == set s, f | s in sources && UsedBySome(items, s) && f in s.facts :: f
  {
    hide JudgmentOk, ById, Meanings, MeaningsSeen, FactsFrom, RetainedFacts, Retained;
    var known := ById(sources);
    SeenByItem(known, items);
    forall i | 0 <= i < |items|
      ensures forall f :: f in FactsFrom(known, items[i].sources) <==>
                exists s :: s in sources && Uses(items, i, s) && f in s.facts
    {
      ItemMeanings(sources, items[i].sources);
    }
  }

  /** The score in terms of the judged sources: an item mixes if it uses two sources of different keys; the repeats are
      the pairs of an item and a key it uses, less the keys used at all. */
  lemma {:induction false} ScoreExactly(sources: seq<Source>, items: seq<Item>)
    requires JudgmentOk(sources) && ResultOk(ById(sources), items)
    ensures var score := ScoreOf(ById(sources), FactsOf(sources), items);
            && score.repeated == |set i, s | 0 <= i < |items| && s in sources && Uses(items, i, s) :: (i, s.key)|
                                 - |set s | s in sources && UsedBySome(items, s) :: s.key|
            && score.falseConsolidations == |set i | 0 <= i < |items| && MixesKeys(sources, items, i)|
            && score.distinctFacts == |set s, f | s in sources && f in s.facts :: f|
            && score.retainedFacts == |set s, f | s in sources && UsedBySome(items, s) && f in s.facts :: f|
            && score.originalSources == |sources|
            && score.retainedSources == |set s | s in sources && UsedBySome(items, s) :: s.id|
  {
    hide D.NoRepeats, ById, Meanings, FactsFrom, MeaningsSeen, RetainedFacts, Retained, MeaningSlots, Mixed, FactsOf;
    hide ResultOk, MixesKeys, Uses, UsedBySome;
    RepeatsExactly(sources, items);
    MixedExactly(sources, items);
    RetainedFactsExactly(sources, items);
    RetainedExactly(sources, items);
    FactsExactly(sources);
    assert FactsOf(sources) == set s, f | s in sources && f in s.facts :: f;
    ByIdHolds(sources);
    D.NoRepeatsSize(SourceIds(sources));
  }

  lemma {:induction false} RetainedExactly(sources: seq<Source>, items: seq<Item>)
    requires JudgmentOk(sources) && ResultOk(ById(sources), items)
    ensures Retained(items) == set s | s in sources && UsedBySome(items, s) :: s.id
  {
    hide D.NoRepeats, ById, Retained;
    ByIdHolds(sources);
    SeenByItem(ById(sources), items);
    forall id | id in Retained(items)
      ensures exists s :: s in sources && UsedBySome(items, s) && s.id == id
    {
      var i :| 0 <= i < |items| && id in items[i].sources;
      var s := ById(sources)[id];
      assert Uses(items, i, s);
    }
    forall s | s in sources && UsedBySome(items, s)
      ensures s.id in Retained(items)
    {
      var i :| Uses(items, i, s);
    }
  }
}
