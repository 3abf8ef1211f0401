/** Source documents mapped to stored references, merged in place; Go's random map order does not matter. */
module KnowledgeMapping {
  import opened Text
  import D = Distinct

  datatype Ref = Ref(kind: string, id: string, source: string)

  datatype Mapping = Mapping(bySource: map<string, Ref>, byType: map<string, map<string, seq<Ref>>>)

  const NewMapping := Mapping(map[], map[])

  function Lookup(m: Mapping, source: string, kind: string): seq<Ref> {
    if source in m.byType && kind in m.byType[source] then m.byType[source][kind] else []
  }

  /** hasMappedRef. */
  predicate HasRef(refs: seq<Ref>, want: Ref) {
    exists r :: r in refs && Trim(r.kind) == Trim(want.kind) && Trim(r.id) == Trim(want.id)
  }

  predicate Clean(r: Ref) {
    && Trim(r.kind) == r.kind != "" && Trim(r.id) == r.id != "" && Trim(r.source) == r.source != ""
  }

  ghost predicate ListOk(source: string, kind: string, refs: seq<Ref>) {
    D.NoRepeats(refs) && forall r :: r in refs ==> Clean(r) && r.source == source && r.kind == kind
  }

  /** What every mapping built by addSourceMapping satisfies. */
  ghost predicate WellFormed(m: Mapping) {
    && m.bySource.Keys == m.byType.Keys
    && (forall k :: k in m.bySource ==>
        Clean(m.bySource[k]) && m.bySource[k].source == k && m.bySource[k] in Lookup(m, k, m.bySource[k].kind))
    && (forall k, t :: k in m.byType && t in m.byType[k] ==> m.byType[k][t] != [])
    && (forall k, t :: ListOk(k, t, Lookup(m, k, t)))
  }

  function ListIn(lists: map<string, seq<Ref>>, kind: string): seq<Ref> {
    if kind in lists then lists[kind] else []
  }

  lemma {:induction false} SameLists(x: map<string, seq<Ref>>, y: map<string, seq<Ref>>)
    requires (forall t :: t in x ==> x[t] != []) && (forall t :: t in y ==> y[t] != [])
    requires forall t :: ListIn(x, t) == ListIn(y, t)
    ensures x == y
  {
    forall t
      ensures t in x <==> t in y
      ensures t in x ==> x[t] == y[t]
    {
      assert ListIn(x, t) == ListIn(y, t);
    }
    assert x.Keys == y.Keys;
  }

  lemma {:induction false} KeyFacts(m: Mapping)
    requires WellFormed(m)
    ensures m.bySource.Keys == m.byType.Keys
    ensures forall k, t :: k in m.byType && t in m.byType[k] ==> m.byType[k][t] != []
  {
  }

  /** A well-formed mapping is determined by its defaults and its lists. */
  lemma {:induction false} SameLookups(a: Mapping, b: Mapping)
    requires WellFormed(a) && WellFormed(b) && a.bySource == b.bySource
    requires forall k, t :: Lookup(a, k, t) == Lookup(b, k, t)
    ensures a == b
  {
    hide WellFormed, ListOk;
    KeyFacts(a);
    KeyFacts(b);
    forall k | k in a.byType
      ensures a.byType[k] == b.byType[k]
    {
      assert k in b.byType.Keys;
      forall t
        ensures ListIn(a.byType[k], t) == ListIn(b.byType[k], t)
      {
        assert Lookup(a, k, t) == Lookup(b, k, t);
      }
      SameLists(a.byType[k], b.byType[k]);
    }
  }

  /** The references of a second list that the first lacks, in order, at its end. */
  function AppendNew(refs: seq<Ref>, more: seq<Ref>): seq<Ref> {
    if more == [] then refs else
    var init, last := AppendNew(refs, more[..|more| - 1]), more[|more| - 1];
    if last in init then init else init + [last]
  }

  function DefaultOf(src: Mapping, k: string, t: string): seq<Ref> {
    if k in src.bySource && src.bySource[k].kind == t then [src.bySource[k]] else []
  }

  /** One list of a merge: the destination's, the source's default if new, the source's others if new. */
  function MergedList(dst: Mapping, src: Mapping, k: string, t: string): seq<Ref> {
    AppendNew(AppendNew(Lookup(dst, k, t), DefaultOf(src, k, t)), Lookup(src, k, t))
  }

  ghost predicate IsMerge(dst: Mapping, src: Mapping, out: Mapping) {
    && WellFormed(out) && out.bySource == dst.bySource + src.bySource
    && forall k, t :: Lookup(out, k, t) == MergedList(dst, src, k, t)
  }

  lemma {:induction false} MergeIsUnique(dst: Mapping, src: Mapping, a: Mapping, b: Mapping)
    requires IsMerge(dst, src, a) && IsMerge(dst, src, b)
    ensures a == b
  {
    hide MergedList, WellFormed;
    forall k, t
      ensures Lookup(a, k, t) == Lookup(b, k, t)
    {
    }
    SameLookups(a, b);
  }

  function Restrict<T>(m: map<string, T>, keys: set<string>): map<string, T> {
    map k | k in m && k in keys :: m[k]
  }

  function Kept(src: Mapping, keep: set<string>): Mapping {
    if keep == {} then src else Mapping(Restrict(src.bySource, keep), Restrict(src.byType, keep))
  }

  /** addSourceMapping of a trimmed complete reference. */
  function Added(m: Mapping, r: Ref, preferred: bool): Mapping {
    var byKind := if r.source in m.byType then m.byType[r.source] else map[];
    var refs := if r.kind in byKind then byKind[r.kind] else [];
    var more := if HasRef(refs, r) then refs else refs + [r];
    Mapping(
      if preferred || r.source !in m.bySource || m.bySource[r.source].id == "" then m.bySource[r.source := r]
          else m.bySource,
      m.byType[r.source := byKind[r.kind := more]])
  }

  function Trimmed(r: Ref): Ref {
    Ref(Trim(r.kind), Trim(r.id), Trim(r.source))
  }

  predicate Complete(r: Ref) {
    Trim(r.kind) != "" && Trim(r.id) != "" && Trim(r.source) != ""
  }

  lemma {:induction false} TrimmedIsClean(r: Ref)
    requires Complete(r)
    ensures Clean(Trimmed(r))
  {
    TrimIdempotent(r.kind);
    TrimIdempotent(r.id);
    TrimIdempotent(r.source);
  }

  lemma {:induction false} HasRefIsMember(source: string, kind: string, refs: seq<Ref>, r: Ref)
    requires ListOk(source, kind, refs) && Clean(r) && r.source == source && r.kind == kind
    ensures HasRef(refs, r) <==> r in refs
  {
  }

  lemma {:induction false} NoRepeatsAppend(refs: seq<Ref>, r: Ref)
    requires D.NoRepeats(refs) && r !in refs
    ensures D.NoRepeats(refs + [r])
  {
  }

  function More(m: Mapping, r: Ref): seq<Ref> {
    AppendNew(Lookup(m, r.source, r.kind), [r])
  }

  lemma {:induction false} AppendOne(refs: seq<Ref>, r: Ref)
    ensures AppendNew(refs, [r]) == if r in refs then refs else refs + [r]
  {
    assert [r][..0] == [];
    assert AppendNew(refs, []) == refs;
  }

  lemma {:induction false} ListOkAt(m: Mapping, k: string, t: string)
    requires WellFormed(m)
    ensures ListOk(k, t, Lookup(m, k, t))
  {
  }

  lemma {:induction false} ListOkPush(k: string, t: string, refs: seq<Ref>, r: Ref)
    requires ListOk(k, t, refs) && Clean(r) && r.source == k && r.kind == t && r !in refs
    ensures ListOk(k, t, refs + [r])
  {
    hide Clean;
    NoRepeatsAppend(refs, r);
    hide D.NoRepeats;
  }

  lemma {:induction false} MoreExact(m: Mapping, r: Ref)
    requires WellFormed(m) && Clean(r)
    ensures var refs := Lookup(m, r.source, r.kind); More(m, r) == if HasRef(refs, r) then refs else refs + [r]
    ensures ListOk(r.source, r.kind, More(m, r)) && r in More(m, r)
    ensures forall x :: x in Lookup(m, r.source, r.kind) ==> x in More(m, r)
  {
    hide WellFormed, Lookup, ListOk, HasRef, Clean, D.NoRepeats;
    var refs := Lookup(m, r.source, r.kind);
    ListOkAt(m, r.source, r.kind);
    HasRefIsMember(r.source, r.kind, refs, r);
    AppendOne(refs, r);
    if r !in refs {
      ListOkPush(r.source, r.kind, refs, r);
    }
  }

  lemma {:induction false} AddedLookup(m: Mapping, r: Ref, preferred: bool)
    requires WellFormed(m) && Clean(r)
    ensures forall k, t :: Lookup(Added(m, r, preferred), k, t) == if k == r.source && t == r.kind then More(m, r)
            else Lookup(m, k, t)
  {
    hide WellFormed, Clean, More, HasRef, Added, Lookup;
    MoreExact(m, r);
    AddedAt(m, r, preferred);
  }

  lemma {:induction false} AddedAt(m: Mapping, r: Ref, preferred: bool)
    ensures forall k, t :: Lookup(Added(m, r, preferred), k, t) ==
                             if k == r.source && t == r.kind
                             then (if HasRef(Lookup(m, k, t), r) then Lookup(m, k, t) else Lookup(m, k, t) + [r])
                             else Lookup(m, k, t)
  {
    hide HasRef;
  }

  /** Adding one clean reference to a well-formed mapping. */
  lemma {:induction false} AddedExact(m: Mapping, r: Ref, preferred: bool)
    requires WellFormed(m) && Clean(r)
    ensures var out := Added(m, r, preferred);
            && WellFormed(out)
            && out.bySource == (if preferred || r.source !in m.bySource then m.bySource[r.source := r] else m.bySource)
            && forall k, t :: Lookup(out, k, t) == if k == r.source && t == r.kind then More(m, r) else Lookup(m, k, t)
  {
    AddedLookup(m, r, preferred);
    AddedWellFormed(m, r, preferred);
    if r.source in m.bySource {
      DefaultHasId(m, r.source);
    }
    AddedSources(m, r, preferred);
    hide WellFormed, Clean, HasRef, Added, Lookup, More;
  }

  lemma {:induction false} DefaultHasId(m: Mapping, k: string)
    requires WellFormed(m) && k in m.bySource
    ensures m.bySource[k].id != ""
  {
  }

  lemma {:induction false} AddedSources(m: Mapping, r: Ref, preferred: bool)
    requires r.source in m.bySource ==> m.bySource[r.source].id != ""
    ensures Added(m, r, preferred).bySource ==
            (if preferred || r.source !in m.bySource then m.bySource[r.source := r] else m.bySource)
  {
    hide HasRef;
  }

  lemma {:induction false} AddedWellFormed(m: Mapping, r: Ref, preferred: bool)
    requires WellFormed(m) && Clean(r)
    ensures WellFormed(Added(m, r, preferred))
  {
    hide Clean, HasRef, D.NoRepeats, ListOk, More, Lookup, Added;
    var out := Added(m, r, preferred);
    AddedLookup(m, r, preferred);
    MoreExact(m, r);
    AddedKeys(m, r, preferred);
    forall k, t
      ensures ListOk(k, t, Lookup(out, k, t))
    {
      ListOkAt(m, k, t);
    }
    forall k | k in out.bySource
      ensures Clean(out.bySource[k]) && out.bySource[k].source == k
              && out.bySource[k] in Lookup(out, k, out.bySource[k].kind)
    {
      AddedDefault(m, r, preferred, k);
    }
    AddedNoEmpty(m, r, preferred);
  }

  lemma {:induction false} AddedDefault(m: Mapping, r: Ref, preferred: bool, k: string)
    requires k in Added(m, r, preferred).bySource
    ensures (k == r.source && Added(m, r, preferred).bySource[k] == r)
            || (k in m.bySource && Added(m, r, preferred).bySource[k] == m.bySource[k])
  {
    hide HasRef;
  }

  lemma {:induction false} AddedNoEmpty(m: Mapping, r: Ref, preferred: bool)
    requires forall k, t :: k in m.byType && t in m.byType[k] ==> m.byType[k][t] != []
    ensures var out := Added(m, r, preferred);
            forall k, t :: k in out.byType && t in out.byType[k] ==> out.byType[k][t] != []
  {
  }

  lemma {:induction false} AddedKeys(m: Mapping, r: Ref, preferred: bool)
    requires m.bySource.Keys == m.byType.Keys
    ensures Added(m, r, preferred).bySource.Keys == Added(m, r, preferred).byType.Keys
  {
  }

  // ----- Merging in place

  ghost predicate DefaultsDone(dst: Mapping, src: Mapping, done: set<string>, cur: Mapping) {
    && WellFormed(cur) && cur.bySource == dst.bySource + Restrict(src.bySource, done)
    && forall k, t :: Lookup(cur, k, t) == if k in done then AppendNew(Lookup(dst, k, t), DefaultOf(src, k, t))
      else Lookup(dst, k, t)
  }

  ghost predicate OneListDone(start: Mapping, k0: string, t0: string, refs: seq<Ref>, cur: Mapping) {
    && WellFormed(cur) && cur.bySource == start.bySource
    && forall k, t :: Lookup(cur, k, t) == if k == k0 && t == t0 then AppendNew(Lookup(start, k, t), refs)
      else Lookup(start, k, t)
  }

  ghost predicate OneKeyDone(start: Mapping, src: Mapping, k0: string, kinds: set<string>, cur: Mapping) {
    && WellFormed(cur) && cur.bySource == start.bySource
    && forall k, t ::
      Lookup(cur, k, t) == if k == k0 && t in kinds then AppendNew(Lookup(start, k, t), Lookup(src, k, t))
          else Lookup(start, k, t)
  }

  ghost predicate ListsDone(start: Mapping, src: Mapping, done: set<string>, cur: Mapping) {
    && WellFormed(cur) && cur.bySource == start.bySource
    && forall k, t :: Lookup(cur, k, t) == if k in done then AppendNew(Lookup(start, k, t), Lookup(src, k, t))
      else Lookup(start, k, t)
  }

  lemma {:induction false} SourceFacts(src: Mapping)
    requires WellFormed(src)
    ensures src.bySource.Keys == src.byType.Keys
    ensures forall k :: k in src.bySource ==> Clean(src.bySource[k]) && src.bySource[k].source == k
    ensures forall k, t, r :: r in Lookup(src, k, t) ==> Clean(r) && r.source == k && r.kind == t
  {
    hide Clean;
    forall k, t
      ensures ListOk(k, t, Lookup(src, k, t))
    {
    }
  }

  lemma {:induction false} TrimmedClean(r: Ref)
    requires Clean(r)
    ensures Complete(r) && Trimmed(r) == r
  {
  }

  lemma {:induction false} RestrictPush<T>(a: map<string, T>, m: map<string, T>, done: set<string>, k: string)
    requires k in m
    ensures a + Restrict(m, done + {k}) == (a + Restrict(m, done))[k := m[k]]
  {
  }

  lemma {:induction false} DefaultOfKey(src: Mapping, k: string, t: string)
    requires k in src.bySource
    ensures DefaultOf(src, k, t) == if t == src.bySource[k].kind then [src.bySource[k]] else []
  {
  }

  lemma {:induction false} DefaultStep(dst: Mapping, src: Mapping, done: set<string>, cur: Mapping, k: string)
    requires WellFormed(src) && DefaultsDone(dst, src, done, cur) && k in src.bySource && k !in done
    ensures DefaultsDone(dst, src, done + {k}, Added(cur, src.bySource[k], true))
  {
    hide WellFormed, Clean, HasRef, Added, Lookup, AppendNew, DefaultOf, Restrict;
    SourceFacts(src);
    var r := src.bySource[k];
    AddedExact(cur, r, true);
    RestrictPush(dst.bySource, src.bySource, done, k);
    var next := Added(cur, r, true);
    forall j, t
      ensures Lookup(next, j, t) == if j in done + {k} then AppendNew(Lookup(dst, j, t), DefaultOf(src, j, t))
              else Lookup(dst, j, t)
    {
      if j == k {
        DefaultOfKey(src, k, t);
        NothingAppended(Lookup(dst, k, t));
        assert Lookup(cur, k, t) == Lookup(dst, k, t);
      }
    }
  }

  lemma {:induction false} NothingAppended(refs: seq<Ref>)
    ensures AppendNew(refs, []) == refs
  {
  }

  lemma {:induction false} AppendNext(refs: seq<Ref>, more: seq<Ref>, i: nat)
    requires i < |more|
    ensures AppendNew(refs, more[..i + 1]) ==
            var init := AppendNew(refs, more[..i]); if more[i] in init then init else init + [more[i]]
  {
    assert more[..i + 1][..i] == more[..i];
  }

  lemma {:induction false} ListStep(start: Mapping, k: string, t: string, refs: seq<Ref>, i: nat, cur: Mapping)
    requires i < |refs| && OneListDone(start, k, t, refs[..i], cur) && k in start.bySource
    requires Clean(refs[i]) && refs[i].source == k && refs[i].kind == t
    ensures OneListDone(start, k, t, refs[..i + 1], Added(cur, refs[i], false))
  {
    hide WellFormed, Clean, HasRef, Added, Lookup, AppendNew;
    AddedExact(cur, refs[i], false);
    AppendOne(Lookup(cur, k, t), refs[i]);
    AppendNext(Lookup(start, k, t), refs, i);
  }

  lemma {:induction false} KeyStep(start: Mapping, src: Mapping, k: string, kinds: set<string>, t: string, cur: Mapping,
                                   next: Mapping)
    requires OneKeyDone(start, src, k, kinds, cur) && t !in kinds && OneListDone(cur, k, t, Lookup(src, k, t), next)
    ensures OneKeyDone(start, src, k, kinds + {t}, next)
  {
    hide WellFormed, Lookup, AppendNew;
  }

  lemma {:induction false} ListsStep(start: Mapping, src: Mapping, done: set<string>, k: string, cur: Mapping,
                                     next: Mapping)
    requires ListsDone(start, src, done, cur) && k !in done && k in src.byType
             && OneKeyDone(cur, src, k, src.byType[k].Keys, next)
    ensures ListsDone(start, src, done + {k}, next)
  {
    hide WellFormed, AppendNew;
    forall t | t !in src.byType[k]
      ensures AppendNew(Lookup(start, k, t), Lookup(src, k, t)) == Lookup(start, k, t)
    {
      NothingAppended(Lookup(start, k, t));
    }
  }

  lemma {:induction false} MergeDone(dst: Mapping, src: Mapping, keys: set<string>, middle: Mapping, out: Mapping,
                                     kept: Mapping)
    requires WellFormed(src) && DefaultsDone(dst, src, keys, middle) && ListsDone(middle, src, keys, out)
    requires kept == Mapping(Restrict(src.bySource, keys), Restrict(src.byType, keys))
    ensures IsMerge(dst, kept, out)
  {
    hide WellFormed;
    forall k, t
      ensures Lookup(out, k, t) == MergedList(dst, kept, k, t)
    {
      if k !in keys {
        NothingAppended(Lookup(dst, k, t));
      } else {
        assert Lookup(kept, k, t) == Lookup(src, k, t) && DefaultOf(kept, k, t) == DefaultOf(src, k, t);
      }
    }
  }

  class KnowledgeMap {
    var bySource: map<string, Ref>
    var byType: map<string, map<string, seq<Ref>>>

    ghost function Value(): Mapping
      reads this
    {
      Mapping(bySource, byType)
    }

    constructor ()
      ensures Value() == NewMapping && WellFormed(Value())
    {
      bySource, byType := map[], map[];
    }

    /** addSourceMapping. */
    method AddSourceMapping(given: Ref, preferred: bool)
      modifies this
      ensures Value() == if Complete(given) then Added(old(Value()), Trimmed(given), preferred) else old(Value())
    {
      var source, kind, id := Trim(given.source), Trim(given.kind), Trim(given.id);
      if source == "" || kind == "" || id == "" {
        return;
      }
      var r := Ref(kind, id, source);
      var byKind := if source in byType then byType[source] else map[];
      var refs := if kind in byKind then byKind[kind] else [];
      if !HasRef(refs, r) {
        refs := refs + [r];
      }
      byType := byType[source := byKind[kind := refs]];
      if preferred || source !in bySource || bySource[source].id == "" {
        bySource := bySource[source := r];
      }
    }

    /** The first loop of a merge: every chosen default, in no particular order. */
    method AddDefaults(src: Mapping, keys: set<string>)
      requires WellFormed(Value()) && WellFormed(src) && keys <= src.bySource.Keys
      modifies this
      ensures DefaultsDone(old(Value()), src, keys, Value())
    {
      hide WellFormed, Clean, HasRef, Added, Lookup, DefaultsDone;
      NoDefaults(Value(), src);
      var left := keys;
      assert keys - left == {};
      while left != {}
        invariant left <= keys && DefaultsDone(old(Value()), src, keys - left, Value())
        decreases |left|
      {
        var k :| k in left;
        DefaultStep(old(Value()), src, keys - left, Value(), k);
        SourceFacts(src);
        TrimmedClean(src.bySource[k]);
        AddSourceMapping(src.bySource[k], true);
        assert (keys - left) + {k} == keys - (left - {k});
        left := left - {k};
      }
      assert keys - left == keys;
    }

    method AddList(k: string, t: string, refs: seq<Ref>)
      requires WellFormed(Value()) && k in bySource && forall r :: r in refs ==>
                 Clean(r) && r.source == k && r.kind == t
      modifies this
      ensures OneListDone(old(Value()), k, t, refs, Value())
    {
      hide WellFormed, Clean, HasRef, Added, Lookup, AppendNew;
      NoRefs(Value(), k, t);
      assert refs[..0] == [];
      for i := 0 to |refs|
        invariant OneListDone(old(Value()), k, t, refs[..i], Value())
      {
        var r := refs[i];
        if r.source == "" {
          r := r.(source := k);
        }
        if r.kind == "" {
          r := r.(kind := t);
        }
        ListStep(old(Value()), k, t, refs, i, Value());
        TrimmedClean(r);
        AddSourceMapping(r, false);
      }
      assert refs[..|refs|] == refs;
    }

    method AddKinds(src: Mapping, k: string)
      requires WellFormed(Value()) && WellFormed(src) && k in bySource && k in src.byType
      modifies this
      ensures OneKeyDone(old(Value()), src, k, src.byType[k].Keys, Value())
    {
      hide WellFormed, Clean, Lookup, AppendNew;
      var byKind := src.byType[k];
      var left := byKind.Keys;
      while left != {}
        invariant left <= byKind.Keys && OneKeyDone(old(Value()), src, k, byKind.Keys - left, Value())
        decreases |left|
      {
        var t :| t in left;
        ghost var before := Value();
        SourceFacts(src);
        ListAt(src, k, t);
        AddList(k, t, byKind[t]);
        KeyStep(old(Value()), src, k, byKind.Keys - left, t, before, Value());
        assert (byKind.Keys - left) + {t} == byKind.Keys - (left - {t});
        left := left - {t};
      }
      assert byKind.Keys - left == byKind.Keys;
    }

    /** The second loop: every chosen list, source by source. */
    method AddLists(src: Mapping, keys: set<string>)
      requires WellFormed(Value()) && WellFormed(src) && keys <= src.byType.Keys && keys <= bySource.Keys
      modifies this
      ensures ListsDone(old(Value()), src, keys, Value())
    {
      hide WellFormed, Lookup, AppendNew;
      var left := keys;
      while left != {}
        invariant left <= keys && ListsDone(old(Value()), src, keys - left, Value())
        decreases |left|
      {
        var k :| k in left;
        ghost var before := Value();
        AddKinds(src, k);
        ListsStep(old(Value()), src, keys - left, k, before, Value());
        assert (keys - left) + {k} == keys - (left - {k});
        left := left - {k};
      }
      assert keys - left == keys;
    }

    /** mergeFilteredKnowledgeMapping; nothing to keep means everything, as in mergeKnowledgeMapping. */
    method Merge(src: Mapping, keep: set<string>)
      requires WellFormed(Value()) && WellFormed(src)
      modifies this
      ensures IsMerge(old(Value()), Kept(src, keep), Value())
    {
      hide WellFormed, Lookup, AppendNew, IsMerge, DefaultsDone, ListsDone, Kept, Restrict, Clean;
      SourceFacts(src);
      var keys := if keep == {} then src.bySource.Keys else src.bySource.Keys * keep;
      AddDefaults(src, keys);
      ghost var middle := Value();
      DefaultsFacts(old(Value()), src, keys, middle);
      AddLists(src, keys);
      KeptIsRestricted(src, keep);
      MergeDone(old(Value()), src, keys, middle, Value(), Kept(src, keep));
    }
  }

  lemma {:induction false} NoDefaults(m: Mapping, src: Mapping)
    requires WellFormed(m)
    ensures DefaultsDone(m, src, {}, m)
  {
    hide WellFormed;
    var none: map<string, Ref> := Restrict(src.bySource, {});
    assert m.bySource + none == m.bySource;
  }

  lemma {:induction false} KeptIsRestricted(src: Mapping, keep: set<string>)
    requires src.bySource.Keys == src.byType.Keys
    ensures var keys := if keep == {} then src.bySource.Keys else src.bySource.Keys * keep;
            Kept(src, keep) == Mapping(Restrict(src.bySource, keys), Restrict(src.byType, keys))
  {
    var keys := if keep == {} then src.bySource.Keys else src.bySource.Keys * keep;
    assert Kept(src, keep).bySource == Restrict(src.bySource, keys);
    assert Kept(src, keep).byType == Restrict(src.byType, keys);
  }

  lemma {:induction false} NoRefs(m: Mapping, k: string, t: string)
    requires WellFormed(m)
    ensures OneListDone(m, k, t, [], m)
  {
    hide WellFormed;
  }

  lemma {:induction false} ListAt(src: Mapping, k: string, t: string)
    requires k in src.byType && t in src.byType[k]
    ensures Lookup(src, k, t) == src.byType[k][t]
  {
  }

  lemma {:induction false} DefaultsFacts(dst: Mapping, src: Mapping, keys: set<string>, middle: Mapping)
    requires DefaultsDone(dst, src, keys, middle) && keys <= src.bySource.Keys
    ensures WellFormed(middle) && keys <= middle.bySource.Keys
  {
    hide WellFormed, Lookup;
  }

  // ----- Comparing reference lists

  function RefKey(r: Ref): string {
    Trim(r.kind) + "\0" + Trim(r.id)
  }

  function RefKeys(refs: seq<Ref>): (keys: seq<string>)
    ensures |keys| == |refs| && forall i :: 0 <= i < |refs| ==> keys[i] == RefKey(refs[i])
  {
    seq(|refs|, i requires 0 <= i < |refs| => RefKey(refs[i]))
  }

  /** sameRefSet: the lists hold the same keys, each as often. */
  method SameRefSet(a: seq<Ref>, b: seq<Ref>) returns (same: bool)
    ensures same <==> multiset(RefKeys(a)) == multiset(RefKeys(b))
  {
    hide RefKey;
    var x, y := RefKeys(a), RefKeys(b);
    assert |x| == |multiset(x)| && |y| == |multiset(y)|;
    if |a| != |b| {
      return false;
    }
    var remaining := multiset{};
    for i := 0 to |a|
      invariant remaining == multiset(x[..i])
    {
      assert x[..i + 1] == x[..i] + [x[i]];
      remaining := remaining + multiset{RefKey(a[i])};
    }
    assert x[..|x|] == x;
    for i := 0 to |b|
      invariant remaining + multiset(y[..i]) == multiset(x)
    {
      assert y[..i + 1] == y[..i] + [y[i]];
      assert y == y[..i + 1] + y[i + 1..];
      if RefKey(b[i]) !in remaining {
        assert multiset(y[..i + 1])[y[i]] > multiset(x)[y[i]];
        return false;
      }
      remaining := remaining - multiset{RefKey(b[i])};
    }
    assert y[..|y|] == y;
    assert |remaining| == 0;
    same := true;
  }

  // ----- Mappings with one reference per source

  function OneEach(refs: map<string, Ref>): Mapping {
    Mapping(refs, map k | k in refs :: map[refs[k].kind := [refs[k]]])
  }

  ghost predicate CleanRefs(refs: map<string, Ref>) {
    forall k :: k in refs ==> Clean(refs[k]) && refs[k].source == k
  }

  lemma {:induction false} OneEachLookup(refs: map<string, Ref>, k: string, t: string)
    ensures Lookup(OneEach(refs), k, t) == (if k in refs && refs[k].kind == t then [refs[k]] else [])
    ensures Lookup(OneEach(refs), k, t) == DefaultOf(OneEach(refs), k, t)
  {
  }

  lemma {:induction false} OneEachIsWellFormed(refs: map<string, Ref>)
    requires CleanRefs(refs)
    ensures WellFormed(OneEach(refs))
  {
    hide Clean;
    var m := OneEach(refs);
    forall k, t
      ensures ListOk(k, t, Lookup(m, k, t))
    {
      OneEachLookup(refs, k, t);
    }
    assert m.bySource.Keys == m.byType.Keys;
  }

  function KeptRefs(refs: map<string, Ref>, keep: set<string>): map<string, Ref> {
    if keep == {} then refs else Restrict(refs, keep)
  }

  lemma {:induction false} KeptOneEach(refs: map<string, Ref>, keep: set<string>)
    ensures Kept(OneEach(refs), keep) == OneEach(KeptRefs(refs, keep))
  {
    if keep != {} {
      assert Kept(OneEach(refs), keep).byType == OneEach(KeptRefs(refs, keep)).byType;
    }
  }

  lemma {:induction false} MergedOneEach(a: map<string, Ref>, b: map<string, Ref>, k: string, t: string)
    requires a.Keys !! b.Keys
    ensures MergedList(OneEach(a), OneEach(b), k, t) == Lookup(OneEach(a + b), k, t)
  {
    OneEachLookup(a, k, t);
    OneEachLookup(b, k, t);
    OneEachLookup(a + b, k, t);
    hide OneEach, Lookup, DefaultOf;
    NothingAppended([]);
    NothingAppended(Lookup(OneEach(a), k, t));
    if k in b {
      assert k !in a && (a + b)[k] == b[k];
      AppendOne([], b[k]);
      assert [] + [b[k]] == [b[k]];
      AppendOne([b[k]], b[k]);
    } else {
      assert k in a ==> (a + b)[k] == a[k];
    }
  }

  /** Merging references of new sources adds just them. */
  lemma {:induction false} MergeOneEach(a: map<string, Ref>, b: map<string, Ref>, keep: set<string>, out: Mapping)
    requires CleanRefs(a) && CleanRefs(b) && a.Keys !! b.Keys && IsMerge(OneEach(a), Kept(OneEach(b), keep), out)
    ensures out == OneEach(a + KeptRefs(b, keep))
  {
    hide WellFormed, MergedList, Lookup, OneEach;
    KeptOneEach(b, keep);
    var c := KeptRefs(b, keep);
    OneEachIsWellFormed(a + c);
    forall k, t
      ensures Lookup(OneEach(a + c), k, t) == MergedList(OneEach(a), OneEach(c), k, t)
    {
      MergedOneEach(a, c, k, t);
    }
    OneEachDefaults(a + c);
    OneEachDefaults(a);
    OneEachDefaults(c);
    MergeIsUnique(OneEach(a), OneEach(c), out, OneEach(a + c));
  }

  lemma {:induction false} OneEachDefaults(refs: map<string, Ref>)
    ensures OneEach(refs).bySource == refs
  {
  }

  /** Appending keeps the first list in front and adds each new reference of the second once. */
  lemma {:induction false} AppendNewExactly(refs: seq<Ref>, more: seq<Ref>)
    ensures refs <= AppendNew(refs, more)
    ensures forall r :: r in AppendNew(refs, more) <==> r in refs || r in more
    ensures D.NoRepeats(refs) ==> D.NoRepeats(AppendNew(refs, more))
  {
    hide D.NoRepeats;
    if more != [] {
      var init, last := more[..|more| - 1], more[|more| - 1];
      AppendNewExactly(refs, init);
      assert more == init + [last];
      if last !in AppendNew(refs, init) && D.NoRepeats(refs) {
        NoRepeatsAppend(AppendNew(refs, init), last);
      }
    }
  }
}
