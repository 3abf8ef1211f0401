/** Importing a corpus: item by item, group by group, and the sequential forms. */
module CorpusImport {
  import opened Options
  import opened Text
  import opened KnowledgeMapping
  import D = Distinct

  datatype Item = Item(source: string, caseId: Option<string>, content: string)

  // ----- One item

  /** The reference an item contributes when the server stores it under an evidence id. */
  function ItemRef(server: Item -> string, item: Item): Ref {
    Trimmed(Ref("fragment", server(item), item.source))
  }

  predicate Contributes(server: Item -> string, item: Item) {
    Complete(Ref("fragment", server(item), item.source))
  }

  /** The references of a sequence of items, by source. */
  function Refs(server: Item -> string, items: seq<Item>): map<string, Ref> {
    if items == [] then map[] else
    var rest, last := Refs(server, items[..|items| - 1]), items[|items| - 1];
    if Contributes(server, last) then rest[Trim(last.source) := ItemRef(server, last)] else rest
  }

  ghost predicate DistinctSources(items: seq<Item>) {
    forall i, j :: 0 <= i < j < |items| ==> Trim(items[i].source) != Trim(items[j].source)
  }

  lemma {:induction false} RefsAreClean(server: Item -> string, items: seq<Item>)
    ensures CleanRefs(Refs(server, items))
  {
    hide Clean, Contributes, ItemRef;
    if items != [] {
      RefsAreClean(server, items[..|items| - 1]);
      if Contributes(server, items[|items| - 1]) {
        ItemRefIsClean(server, items[|items| - 1]);
      }
    }
  }

  lemma {:induction false} ItemRefIsClean(server: Item -> string, item: Item)
    requires Contributes(server, item)
    ensures Clean(ItemRef(server, item)) && ItemRef(server, item).source == Trim(item.source)
  {
    TrimmedIsClean(Ref("fragment", server(item), item.source));
  }

  lemma {:induction false} RefsFromItems(server: Item -> string, items: seq<Item>, k: string)
    ensures k in Refs(server, items) ==>
              exists i :: 0 <= i < |items| && Contributes(server, items[i]) && Trim(items[i].source) == k
                  && Refs(server, items)[k] == ItemRef(server, items[i])
    ensures DistinctSources(items) ==>
              forall i :: 0 <= i < |items| && Contributes(server, items[i]) && Trim(items[i].source) == k ==>
              k in Refs(server, items) && Refs(server, items)[k] == ItemRef(server, items[i])
  {
    hide Contributes, ItemRef, Trim;
    if items != [] {
      var n := |items| - 1;
      var init := items[..n];
      RefsFromItems(server, init, k);
      assert forall i :: 0 <= i < n ==> init[i] == items[i];
      if DistinctSources(items) {
        assert DistinctSources(init);
        assert forall i :: 0 <= i < n ==> Trim(items[i].source) != Trim(items[n].source);
      }
    }
  }

  /** With distinct sources the order of the items does not matter. */
  lemma {:induction false} RefsIgnoreOrder(server: Item -> string, a: seq<Item>, b: seq<Item>)
    requires DistinctSources(a) && DistinctSources(b) && D.Members(a) == D.Members(b)
    ensures Refs(server, a) == Refs(server, b)
  {
    hide Contributes, ItemRef, Trim, DistinctSources;
    forall k
      ensures k in Refs(server, a) ==> k in Refs(server, b) && Refs(server, b)[k] == Refs(server, a)[k]
      ensures k in Refs(server, b) ==> k in Refs(server, a)
    {
      RefsFromItems(server, a, k);
      RefsFromItems(server, b, k);
      if k in Refs(server, a) {
        var i :| 0 <= i < |a| && Contributes(server, a[i]) && Trim(a[i].source) == k
            && Refs(server, a)[k] == ItemRef(server, a[i]);
        assert a[i] in D.Members(b);
        var j :| 0 <= j < |b| && b[j] == a[i];
      }
      if k in Refs(server, b) {
        var i :| 0 <= i < |b| && Contributes(server, b[i]) && Trim(b[i].source) == k
            && Refs(server, b)[k] == ItemRef(server, b[i]);
        assert b[i] in D.Members(a);
        var j :| 0 <= j < |a| && a[j] == b[i];
      }
    }
    assert Refs(server, a).Keys == Refs(server, b).Keys;
  }

  lemma {:induction false} RefsConcat(server: Item -> string, a: seq<Item>, b: seq<Item>)
    ensures Refs(server, a + b) == Refs(server, a) + Refs(server, b)
  {
    hide Contributes, ItemRef;
    if b == [] {
      assert a + b == a;
    } else {
      assert (a + b)[..|a + b| - 1] == a + b[..|b| - 1];
      RefsConcat(server, a, b[..|b| - 1]);
    }
  }

  lemma {:induction false} SourcesApart(a: seq<Item>, b: seq<Item>, i: nat, j: nat)
    requires DistinctSources(a + b) && i < |a| && j < |b|
    ensures Trim(a[i].source) != Trim(b[j].source)
  {
    hide Trim;
    assert (a + b)[i] == a[i] && (a + b)[|a| + j] == b[j];
  }

  lemma {:induction false} DisjointRefs(server: Item -> string, a: seq<Item>, b: seq<Item>)
    requires DistinctSources(a + b)
    ensures Refs(server, a).Keys !! Refs(server, b).Keys
  {
    hide Contributes, ItemRef, Trim, DistinctSources, Refs;
    forall i: nat, j: nat | i < |a| && j < |b|
      ensures Trim(a[i].source) != Trim(b[j].source)
    {
      SourcesApart(a, b, i, j);
    }
    forall k | k in Refs(server, a)
      ensures k !in Refs(server, b)
    {
      RefsFromItems(server, a, k);
      RefsFromItems(server, b, k);
    }
  }

  /** What a remember call answers: its submission, how the processing ended, and the evidence id. */
  datatype Reply = Refused | Reply(submissionId: string, state: string, evidenceId: string)

  /** A reply without an error: a completed submission with an evidence id. */
  predicate Accepted(reply: Reply) {
    reply.Reply? && reply.submissionId != "" && reply.state == "completed" && reply.evidenceId != ""
  }

  /** The evidence ids in the replies are the server's. */
  ghost predicate Answers(server: Item -> string, items: seq<Item>, replies: seq<Reply>) {
    |replies| == |items| && forall i :: 0 <= i < |items| && Accepted(replies[i]) ==>
          replies[i].evidenceId == server(items[i])
  }

  /** The items that were imported before the first reply with an error; all of them if there is none. */
  function Imported(replies: seq<Reply>): (k: nat)
    ensures k <= |replies| && (forall i :: 0 <= i < k ==> Accepted(replies[i]))
    ensures k < |replies| ==> !Accepted(replies[k])
  {
    if replies == [] || !Accepted(replies[0]) then 0 else 1 + Imported(replies[1..])
  }

  /** importCorpusItem, given the reply to its remember call. */
  method ImportItem(item: Item, reply: Reply) returns (ok: bool, mapping: Mapping)
    ensures ok <==> Accepted(reply)
    ensures ok ==> mapping == OneEach(Refs(_ => reply.evidenceId, [item])) && WellFormed(mapping)
    ensures !ok ==> mapping == NewMapping
  {
    var m := new KnowledgeMap();
    if reply.Refused? || reply.submissionId == "" {
      return false, Mapping(m.bySource, m.byType);
    }
    if reply.state != "completed" || reply.evidenceId == "" {
      return false, Mapping(m.bySource, m.byType);
    }
    var ref := Ref("fragment", reply.evidenceId, item.source);
    m.AddSourceMapping(ref, true);
    ok, mapping := true, Mapping(m.bySource, m.byType);
    ghost var server := (_: Item) => reply.evidenceId;
    assert [item][..0] == [];
    RefsAreClean(server, [item]);
    OneEachIsWellFormed(Refs(server, [item]));
    if Complete(ref) {
      AddedToNew(Trimmed(ref));
      assert Refs(server, [item]) == map[Trim(item.source) := Trimmed(ref)];
    } else {
      assert Refs(server, [item]) == map[];
      OneEachOfNone();
    }
  }

  lemma {:induction false} OneAnswer(server: Item -> string, item: Item, reply: Reply)
    requires Accepted(reply) && reply.evidenceId == server(item)
    ensures Refs(_ => reply.evidenceId, [item]) == Refs(server, [item])
  {
    assert [item][..0] == [];
  }

  lemma {:induction false} OneEachOfNone()
    ensures OneEach(map[]) == NewMapping
  {
  }

  lemma {:induction false} AddedToNew(r: Ref)
    ensures Added(NewMapping, r, true) == OneEach(map[r.source := r])
  {
    var refs: seq<Ref> := [];
    assert !HasRef(refs, r) && refs + [r] == [r];
    assert Added(NewMapping, r, true).byType == map[r.source := map[r.kind := [r]]];
    assert OneEach(map[r.source := r]).byType == map[r.source := map[r.kind := [r]]];
  }

  /** importCorpusGroup: the items in order, each merged before the next, up to the first error. */
  method ImportGroup(ghost server: Item -> string, items: seq<Item>, replies: seq<Reply>, keep: set<string>)
    returns (ok: bool, mapping: Mapping)
    requires DistinctSources(items) && Answers(server, items, replies)
    ensures ok <==> Imported(replies) == |items|
    ensures mapping == OneEach(KeptRefs(Refs(server, items[..Imported(replies)]), keep))
  {
    hide WellFormed, Restrict, KeptRefs, Refs, DistinctSources, Accepted, Imported;
    var m := new KnowledgeMap();
    EmptyRefs(server, keep);
    for i := 0 to |items|
      invariant m.Value() == OneEach(KeptRefs(Refs(server, items[..i]), keep))
      invariant WellFormed(m.Value()) && i <= Imported(replies)
    {
      ghost var before := Refs(server, items[..i]);
      var one;
      ok, one := ImportItem(items[i], replies[i]);
      if !ok {
        return false, Mapping(m.bySource, m.byType);
      }
      OneAnswer(server, items[i], replies[i]);
      ghost var value := m.Value();
      m.Merge(one, keep);
      assert items[..i + 1] == items[..i] + [items[i]];
      SourcesPrefix(items, i + 1);
      MergeNext(server, items[..i], [items[i]], keep, value, m.Value());
      MergedIsWellFormed(value, Kept(one, keep), m.Value());
    }
    assert items[..|items|] == items;
    ok, mapping := true, Mapping(m.bySource, m.byType);
  }

  lemma {:induction false} EmptyRefs(server: Item -> string, keep: set<string>)
    ensures OneEach(KeptRefs(Refs(server, []), keep)) == NewMapping
  {
    assert KeptRefs(Refs(server, []), keep) == map[];
    OneEachOfNone();
  }

  lemma {:induction false} MergedIsWellFormed(dst: Mapping, src: Mapping, out: Mapping)
    requires IsMerge(dst, src, out)
    ensures WellFormed(out)
  {
  }

  lemma {:induction false} SourcesPrefix(items: seq<Item>, i: nat)
    requires i <= |items| && DistinctSources(items)
    ensures DistinctSources(items[..i])
  {
    assert forall k :: 0 <= k < i ==> items[..i][k] == items[k];
  }

  lemma {:induction false} KeptConcat(a: map<string, Ref>, b: map<string, Ref>, keep: set<string>)
    ensures KeptRefs(a + b, keep) == KeptRefs(a, keep) + KeptRefs(b, keep)
    ensures KeptRefs(a, keep).Keys <= a.Keys
    ensures CleanRefs(a) ==> CleanRefs(KeptRefs(a, keep))
  {
  }

  /** Merging the mapping of further items with new sources. */
  lemma {:induction false} MergeNext(server: Item -> string, a: seq<Item>, b: seq<Item>, keep: set<string>,
                                     dst: Mapping, out: Mapping)
    requires DistinctSources(a + b) && dst == OneEach(KeptRefs(Refs(server, a), keep))
    requires IsMerge(dst, Kept(OneEach(Refs(server, b)), keep), out)
    ensures out == OneEach(KeptRefs(Refs(server, a + b), keep))
  {
    hide IsMerge, OneEach, KeptRefs, Refs, DistinctSources, CleanRefs, Kept;
    RefsAreClean(server, a);
    RefsAreClean(server, b);
    DisjointRefs(server, a, b);
    RefsConcat(server, a, b);
    KeptConcat(Refs(server, a), Refs(server, b), keep);
    MergeOneEach(KeptRefs(Refs(server, a), keep), Refs(server, b), keep, out);
  }

  // ----- Groups

  /** corpusImportGroupKey. */
  function GroupKey(item: Item): string {
    if item.caseId.Some? && Trim(item.caseId.value) != "" then "case:" + Trim(item.caseId.value)
    else if Trim(item.source) == "" then "item:" + item.content
    else "item:" + Trim(item.source)
  }

  function WithKey(items: seq<Item>, key: string): seq<Item> {
    if items == [] then []
    else WithKey(items[..|items| - 1], key) + if GroupKey(items[|items| - 1]) == key then [items[|items| - 1]] else []
  }

  ghost predicate GroupsBy(corpus: seq<Item>, keys: seq<string>, groups: seq<seq<Item>>) {
    && |groups| == |keys| && D.NoRepeats(keys)
    && (forall i :: 0 <= i < |groups| ==> groups[i] == WithKey(corpus, keys[i]))
    && (forall x :: x in corpus ==> GroupKey(x) in keys)
  }

  /** Each key has one group: the items of that key in corpus order. */
  method ImportGroups(corpus: seq<Item>) returns (groups: seq<seq<Item>>, keys: seq<string>)
    ensures GroupsBy(corpus, keys, groups)
  {
    hide GroupKey, GroupsBy, WithKey;
    groups, keys := [], [];
    NoGroups(corpus);
    var index: map<string, nat> := map[];
    for n := 0 to |corpus|
      invariant GroupsBy(corpus[..n], keys, groups)
      invariant index.Keys == D.Members(keys) && forall k :: k in index ==> index[k] < |keys| && keys[index[k]] == k
    {
      var item := corpus[n];
      var key := GroupKey(item);
      assert corpus[..n + 1] == corpus[..n] + [item];
      GroupKeysOf(corpus[..n], keys, groups);
      if key !in index {
        NewKey(corpus[..n], keys, key);
        NewGroup(corpus[..n], keys, groups, key);
        index := index[key := |groups|];
        groups := groups + [[]];
        keys := keys + [key];
      }
      var i := index[key];
      GroupGrows(corpus[..n], keys, groups, item, i);
      groups := groups[i := groups[i] + [item]];
    }
    assert corpus[..|corpus|] == corpus;
  }

  lemma {:induction false} NoGroups(corpus: seq<Item>)
    ensures GroupsBy(corpus[..0], [], [])
  {
  }

  lemma {:induction false} GroupKeysOf(items: seq<Item>, keys: seq<string>, groups: seq<seq<Item>>)
    requires GroupsBy(items, keys, groups)
    ensures |groups| == |keys| && forall x :: x in items ==> GroupKey(x) in keys
  {
  }

  lemma {:induction false} NewGroup(items: seq<Item>, keys: seq<string>, groups: seq<seq<Item>>, key: string)
    requires GroupsBy(items, keys, groups) && key !in keys && WithKey(items, key) == []
    ensures GroupsBy(items, keys + [key], groups + [[]]) && D.Members(keys + [key]) == D.Members(keys) + {key}
  {
    hide WithKey, GroupKey;
  }

  lemma {:induction false} GroupGrows(items: seq<Item>, keys: seq<string>, groups: seq<seq<Item>>, item: Item, i: nat)
    requires GroupsBy(items, keys, groups) && i < |keys| && keys[i] == GroupKey(item)
    ensures GroupsBy(items + [item], keys, groups[i := groups[i] + [item]])
  {
    hide WithKey, GroupKey;
    PushKey(items, item);
  }

  lemma {:induction false} PushKey(items: seq<Item>, x: Item)
    ensures forall k :: WithKey(items + [x], k) == if GroupKey(x) == k then WithKey(items, k) + [x]
            else WithKey(items, k)
  {
    assert (items + [x])[..|items|] == items;
  }

  lemma {:induction false} NewKey(items: seq<Item>, keys: seq<string>, key: string)
    requires forall x :: x in items ==> GroupKey(x) in keys
    requires key !in keys
    ensures WithKey(items, key) == []
  {
    if items != [] {
      assert items[|items| - 1] in items;
      NewKey(items[..|items| - 1], keys, key);
    }
  }

  /** Items of one case are in the same group. */
  lemma {:induction false} SameCaseSameKey(a: Item, b: Item)
    requires a.caseId.Some? && b.caseId.Some? && Trim(a.caseId.value) == Trim(b.caseId.value) != ""
    ensures GroupKey(a) == GroupKey(b)
  {
  }

  function Flatten(groups: seq<seq<Item>>): seq<Item> {
    if groups == [] then [] else Flatten(groups[..|groups| - 1]) + groups[|groups| - 1]
  }

  function WithKeys(items: seq<Item>, keys: seq<string>): seq<seq<Item>> {
    seq(|keys|, i requires 0 <= i < |keys| => WithKey(items, keys[i]))
  }

  lemma {:induction false} LastGroup(items: seq<Item>, keys: seq<string>)
    requires keys != []
    ensures var n := |keys| - 1;
            Flatten(WithKeys(items, keys)) == Flatten(WithKeys(items, keys[..n])) + WithKey(items, keys[n])
  {
    var n := |keys| - 1;
    assert WithKeys(items, keys)[..n] == WithKeys(items, keys[..n]);
  }

  lemma {:induction false} OneMore(items: seq<Item>, x: Item, keys: seq<string>)
    requires D.NoRepeats(keys)
    ensures multiset(Flatten(WithKeys(items + [x], keys))) ==
            multiset(Flatten(WithKeys(items, keys))) + if GroupKey(x) in keys then multiset{x} else multiset{}
  {
    if keys != [] {
      hide GroupKey, WithKey, WithKeys, Flatten;
      var n := |keys| - 1;
      assert keys[..n + 1] == keys;
      D.NoRepeatsPush(keys, n);
      OneMore(items, x, keys[..n]);
      PushKey(items, x);
      LastGroup(items, keys);
      LastGroup(items + [x], keys);
    }
  }

  lemma {:induction false} NoItems(keys: seq<string>)
    ensures Flatten(WithKeys([], keys)) == []
  {
    if keys != [] {
      NoItems(keys[..|keys| - 1]);
      assert WithKeys([], keys)[..|keys| - 1] == WithKeys([], keys[..|keys| - 1]);
    }
  }

  lemma {:induction false} GroupsHoldEach(items: seq<Item>, keys: seq<string>)
    requires D.NoRepeats(keys) && forall x :: x in items ==> GroupKey(x) in keys
    ensures multiset(Flatten(WithKeys(items, keys))) == multiset(items)
  {
    if items == [] {
      NoItems(keys);
    } else {
      var n := |items| - 1;
      assert items == items[..n] + [items[n]];
      GroupsHoldEach(items[..n], keys);
      OneMore(items[..n], items[n], keys);
    }
  }

  /** The groups hold every item of the corpus exactly as often as the corpus does. */
  lemma {:induction false} GroupsPartition(corpus: seq<Item>, keys: seq<string>, groups: seq<seq<Item>>)
    requires GroupsBy(corpus, keys, groups)
    ensures multiset(Flatten(groups)) == multiset(corpus)
  {
    assert groups == WithKeys(corpus, keys);
    GroupsHoldEach(corpus, keys);
  }

  // ----- Retries of one call

  datatype Answer = Stored | Transient | Permanent

  const MaxToolCallAttempts := 6

  /** Attempt j + 1 fails for now, and the next one follows. */
  predicate Retried(answers: nat -> Answer, recorded: nat -> bool, cancelled: nat -> bool, j: nat) {
    answers(j) == Transient && recorded(j) && !cancelled(j)
  }

  /** The answer to attempt k + 1 is stored, and every earlier one was retried. */
  predicate StoredAt(answers: nat -> Answer, recorded: nat -> bool, cancelled: nat -> bool, k: nat) {
    answers(k) == Stored && forall j: nat :: j < k ==> Retried(answers, recorded, cancelled, j)
  }

  /** callToolWithRetry against the answers it would get, whether the record of a retry can be written, and whether
      the context ends during the wait after it: stored exactly if some answer within six attempts is, after transient
      ones only, each with a recorded and undisturbed retry. */
  method CallWithRetry(answers: nat -> Answer, recorded: nat -> bool, cancelled: nat -> bool)
    returns (ok: bool, attempts: nat)
    ensures 1 <= attempts <= MaxToolCallAttempts
    ensures ok <==> exists k: nat :: k < MaxToolCallAttempts && StoredAt(answers, recorded, cancelled, k)
    ensures forall j: nat :: j < attempts - 1 ==> Retried(answers, recorded, cancelled, j)
    ensures attempts == MaxToolCallAttempts || !Retried(answers, recorded, cancelled, attempts - 1)
  {
    for attempt := 1 to MaxToolCallAttempts + 1
      invariant attempt <= MaxToolCallAttempts
      invariant forall j: nat :: j < attempt - 1 ==> Retried(answers, recorded, cancelled, j)
      invariant forall j: nat :: j < attempt - 1 ==> answers(j) == Transient
    {
      attempts := attempt;
      var answer := answers(attempt - 1);
      if answer == Stored {
        assert StoredAt(answers, recorded, cancelled, attempt - 1);
        return true, attempts;
      }
      forall k: nat | k < MaxToolCallAttempts && StoredAt(answers, recorded, cancelled, k)
        ensures attempt <= k && Retried(answers, recorded, cancelled, attempt - 1)
      {
      }
      if answer != Transient || attempt == MaxToolCallAttempts {
        return false, attempts;
      }
      if !recorded(attempt - 1) || cancelled(attempt - 1) {
        return false, attempts;
      }
    }
    assert false;
  }

  // ----- What an item contributes, and which items belong together

  /** An item contributes its evidence under its trimmed source exactly when both the source and the id
      are not blank. */
  lemma {:induction false} ContributionExactly(server: Item -> string, item: Item)
    ensures Contributes(server, item) <==> Trim(server(item)) != "" && Trim(item.source) != ""
    ensures ItemRef(server, item) == Ref("fragment", Trim(server(item)), Trim(item.source))
  {
    hide TrimLeft, TrimRight;
    assert Trim("fragment") == "fragment" by { TrimIdentity("fragment"); }
  }

  predicate HasCase(item: Item) {
    item.caseId.Some? && Trim(item.caseId.value) != ""
  }

  /** Items with a case go by their case, and never with others; items without go by their source, or content. */
  lemma {:induction false} SameGroupExactly(a: Item, b: Item)
    ensures HasCase(a) && HasCase(b) ==> (GroupKey(a) == GroupKey(b) <==> Trim(a.caseId.value) == Trim(b.caseId.value))
    ensures HasCase(a) != HasCase(b) ==> GroupKey(a) != GroupKey(b)
    ensures !HasCase(a) && !HasCase(b) ==>
              (GroupKey(a) == GroupKey(b) <==>
                 (if Trim(a.source) == "" then a.content else Trim(a.source)) ==
                 (if Trim(b.source) == "" then b.content else Trim(b.source)))
  {
    hide Trim;
    assert GroupKey(a)[0] == (if HasCase(a) then 'c' else 'i') && GroupKey(b)[0] == (if HasCase(b) then 'c' else 'i');
    assert GroupKey(a)[5..] ==
           (if HasCase(a) then Trim(a.caseId.value) else if Trim(a.source) == "" then a.content else Trim(a.source));
    assert GroupKey(b)[5..] ==
           (if HasCase(b) then Trim(b.caseId.value) else if Trim(b.source) == "" then b.content else Trim(b.source));
  }
}
