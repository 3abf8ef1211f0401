/** Request-local boundary markers around every code point of an evidence text. A text is a sequence of code points. */
module Boundaries {
  import opened Options
  import opened Text

  datatype Evidence = Evidence(id: string, index: int, content: string, prefix: string, text: string,
                               refs: map<string, nat>)

  const OpenMark := '\U{27E6}'
  const CloseMark := '\U{27E7}'
  const DigestLength := 8

  // ----- The marker prefix

  /** The first four digest bytes of a salted content, in hexadecimal. */
  type Digest = s: string | |s| == DigestLength && forall i :: 0 <= i < |s| ==> IsDigit(s[i]) witness "00000000"

  predicate Occurs(content: string, part: string, i: nat) {
    i + |part| <= |content| && content[i..i + |part|] == part
  }

  predicate Contains(content: string, part: string) {
    exists i :: 0 <= i <= |content| && Occurs(content, part, i)
  }

  function PrefixFor(digest: nat -> Digest, salt: nat): string {
    "b" + digest(salt) + "_"
  }

  /** What must not occur in the content for the salt to be good. */
  function OpeningFor(digest: nat -> Digest, salt: nat): (opening: string)
    ensures |opening| > 0
  {
    [OpenMark] + PrefixFor(digest, salt)
  }

  ghost predicate DistinctDigests(digest: nat -> Digest, n: nat) {
    forall i: nat, j: nat :: i < j < n ==> digest(i) != digest(j)
  }

  ghost function FirstPlace(content: string, part: string): nat
    requires Contains(content, part)
    ensures Occurs(content, part, FirstPlace(content, part))
  {
    var i :| 0 <= i <= |content| && Occurs(content, part, i);
    i
  }

  ghost function Places(content: string, digest: nat -> Digest, n: nat): set<nat>
    requires forall s: nat :: s < n ==> Contains(content, OpeningFor(digest, s))
  {
    if n == 0 then {} else Places(content, digest, n - 1) + {FirstPlace(content, OpeningFor(digest, n - 1))}
  }

  lemma {:induction false} PlaceInside(content: string, part: string, place: nat)
    requires Occurs(content, part, place) && |part| > 0
    ensures place < |content|
  {
  }

  lemma {:induction false} OnePrefixPerPlace(content: string, digest: nat -> Digest, s: nat, t: nat, place: nat)
    requires digest(s) != digest(t) && Occurs(content, OpeningFor(digest, t), place)
    ensures !Occurs(content, OpeningFor(digest, s), place)
  {
    var a, b := OpeningFor(digest, s), OpeningFor(digest, t);
    assert a[2..2 + DigestLength] == digest(s) && b[2..2 + DigestLength] == digest(t);
  }

  lemma {:induction false} PlacesAreDistinct(content: string, digest: nat -> Digest, n: nat)
    requires forall s: nat :: s < n ==> Contains(content, OpeningFor(digest, s))
    requires DistinctDigests(digest, n)
    ensures |Places(content, digest, n)| == n
    ensures forall p :: p in Places(content, digest, n) ==>
              p < |content| && exists s: nat :: s < n && Occurs(content, OpeningFor(digest, s), p)
  {
    hide Occurs, OpeningFor, Contains;
    if n > 0 {
      PlacesAreDistinct(content, digest, n - 1);
      var place := FirstPlace(content, OpeningFor(digest, n - 1));
      forall s: nat | s < n - 1
        ensures !Occurs(content, OpeningFor(digest, s), place)
      {
        OnePrefixPerPlace(content, digest, s, n - 1, place);
      }
      PlaceInside(content, OpeningFor(digest, n - 1), place);
    }
  }

  lemma {:induction false} BoundedSetSize(s: set<nat>, n: nat)
    requires forall x :: x in s ==> x < n
    ensures |s| <= n
  {
    if n == 0 {
      assert s == {};
    } else {
      BoundedSetSize(s - {n - 1}, n - 1);
    }
  }

  /** Distinct prefixes occur at distinct places, so a content cannot contain more of them than it has code points. */
  lemma {:induction false} PrefixesFound(content: string, digest: nat -> Digest, n: nat)
    requires forall s: nat :: s < n ==> Contains(content, OpeningFor(digest, s))
    requires DistinctDigests(digest, |content| + 1)
    ensures n <= |content|
  {
    var k := if n <= |content| then n else |content| + 1;
    PlacesAreDistinct(content, digest, k);
    BoundedSetSize(Places(content, digest, k), |content|);
  }

  /** The salt search stops at the first fresh prefix, within |content| + 1 salts. */
  method BoundaryPrefix(content: string, digest: nat -> Digest) returns (prefix: string, ghost salts: nat)
    requires DistinctDigests(digest, |content| + 1)
    ensures salts <= |content| && prefix == PrefixFor(digest, salts)
    ensures !Contains(content, [OpenMark] + prefix)
    ensures forall s: nat :: s < salts ==> Contains(content, OpeningFor(digest, s))
  {
    var salt := 0;
    while Contains(content, OpeningFor(digest, salt))
      invariant forall s: nat :: s < salt ==> Contains(content, OpeningFor(digest, s))
      decreases |content| - salt
    {
      PrefixesFound(content, digest, salt + 1);
      salt := salt + 1;
    }
    PrefixesFound(content, digest, salt);
    prefix, salts := PrefixFor(digest, salt), salt;
  }

  // ----- Markers and references

  function Ref(prefix: string, offset: nat): string {
    prefix + Numeral(offset, 36)
  }

  function Marker(prefix: string, offset: nat): string {
    [OpenMark] + Ref(prefix, offset) + [CloseMark]
  }

  /** The annotated text up to and including the marker of an offset. */
  function AnnotatedTo(content: string, prefix: string, k: nat): string
    requires k <= |content|
  {
    if k == 0 then Marker(prefix, 0) else AnnotatedTo(content, prefix, k - 1) + [content[k - 1]] + Marker(prefix, k)
  }

  ghost predicate RefsTo(prefix: string, refs: map<string, nat>, n: nat) {
    && (forall k: nat :: k < n ==> Ref(prefix, k) in refs && refs[Ref(prefix, k)] == k)
    && (forall r :: r in refs ==> refs[r] < n && r == Ref(prefix, refs[r]))
  }

  predicate PlainPrefix(prefix: string) {
    |prefix| > 0 && prefix[0] == 'b' && forall i :: 0 <= i < |prefix| ==> IsDigit(prefix[i]) || prefix[i] == '_'
  }

  ghost predicate Prepared(e: Evidence) {
    && PlainPrefix(e.prefix)
    && e.text == AnnotatedTo(e.content, e.prefix, |e.content|)
    && RefsTo(e.prefix, e.refs, |e.content| + 1)
  }

  lemma {:induction false} RefsDiffer(prefix: string, a: nat, b: nat)
    requires Ref(prefix, a) == Ref(prefix, b)
    ensures a == b
  {
    assert Ref(prefix, a)[|prefix|..] == Numeral(a, 36) && Ref(prefix, b)[|prefix|..] == Numeral(b, 36);
    NumeralInjective(a, b, 36);
  }

  method PrepareEvidence(id: string, position: int, content: string, digest: nat -> Digest) returns (e: Evidence)
    requires DistinctDigests(digest, |content| + 1)
    ensures Prepared(e) && e.id == id && e.index == position && e.content == content
    ensures !Contains(content, [OpenMark] + e.prefix)
  {
    var prefix, _ := BoundaryPrefix(content, digest);
    var refs: map<string, nat>, text := map[], "";
    for index := 0 to |content| + 1
      invariant RefsTo(prefix, refs, index)
      invariant text == if index == 0 then "" else
                        AnnotatedTo(content, prefix, index - 1) + if index <= |content| then [content[index - 1]]
                            else ""
    {
      var ref := Ref(prefix, index);
      RefsPush(prefix, refs, index);
      refs := refs[ref := index];
      text := text + [OpenMark] + ref + [CloseMark];
      if index > 0 {
        assert text == AnnotatedTo(content, prefix, index - 1) + [content[index - 1]] + Marker(prefix, index);
      }
      if index < |content| {
        text := text + [content[index]];
      }
    }
    e := Evidence(id, position, content, prefix, text, refs);
  }

  lemma {:induction false} RefsPush(prefix: string, refs: map<string, nat>, n: nat)
    requires RefsTo(prefix, refs, n)
    ensures RefsTo(prefix, refs[Ref(prefix, n) := n], n + 1)
  {
    forall k: nat | k < n
      ensures Ref(prefix, k) != Ref(prefix, n)
    {
      if Ref(prefix, k) == Ref(prefix, n) {
        RefsDiffer(prefix, k, n);
      }
    }
  }

  /** semanticAssessmentBoundaryOffset. */
  function BoundaryOffset(e: Evidence, ref: string): Option<nat> {
    if Trim(ref) in e.refs then Some(e.refs[Trim(ref)]) else None
  }

  /** SemanticAssessmentBoundaryRef, for evidence with a prefix. */
  function BoundaryRef(e: Evidence, offset: int): Option<string> {
    if offset < 0 then None else
    var ref := Ref(e.prefix, offset);
    if ref in e.refs && e.refs[ref] == offset then Some(ref) else None
  }

  lemma {:induction false} RefIsTrimmed(prefix: string, k: nat)
    requires PlainPrefix(prefix)
    ensures Trim(Ref(prefix, k)) == Ref(prefix, k)
  {
    TrimIdentity(Ref(prefix, k));
  }

  /** References exist exactly for the offsets 0..n, and the two lookups are inverse to each other. */
  lemma {:induction false} RefsAndOffsetsAreInverse(e: Evidence, offset: int, ref: string)
    requires Prepared(e)
    ensures BoundaryRef(e, offset).Some? <==> 0 <= offset <= |e.content|
    ensures BoundaryRef(e, offset).Some? ==> BoundaryOffset(e, BoundaryRef(e, offset).value) == Some(offset)
    ensures BoundaryOffset(e, ref).Some? ==> BoundaryRef(e, BoundaryOffset(e, ref).value) == Some(Trim(ref))
  {
    if 0 <= offset {
      RefIsTrimmed(e.prefix, offset);
    }
  }

  // ----- Spans

  /** SemanticEvidenceSpan. */
  function EvidenceSpan(content: string, start: int, end: int): Option<string> {
    if start < 0 || end <= start || end > |content| then None else Some(content[start..end])
  }

  /** The offsets a pair of references resolves to, start before end. */
  function ResolveRange(e: Evidence, startRef: string, endRef: string): Option<(nat, nat)> {
    var start, end := BoundaryOffset(e, startRef), BoundaryOffset(e, endRef);
    if start.None? || end.None? || end.value <= start.value then None else Some((start.value, end.value))
  }

  function AfterClose(text: string): (rest: string)
    ensures |rest| <= |text| && (text != "" ==> |rest| < |text|)
  {
    if text == "" then "" else if text[0] == CloseMark then text[1..] else AfterClose(text[1..])
  }

  /** Reading annotated text: whatever starts like a marker is skipped to its closing bracket. */
  function Erase(text: string, prefix: string): string
    decreases |text|
  {
    if text == "" then ""
    else if [OpenMark] + prefix <= text then Erase(AfterClose(text), prefix)
    else [text[0]] + Erase(text[1..], prefix)
  }

  lemma {:induction false} SkipToClose(s: string, rest: string)
    requires forall i :: 0 <= i < |s| ==> s[i] != CloseMark
    ensures AfterClose(s + [CloseMark] + rest) == rest
  {
    var text := s + [CloseMark] + rest;
    if s == "" {
      assert text[1..] == rest;
    } else {
      assert text[1..] == s[1..] + [CloseMark] + rest;
      SkipToClose(s[1..], rest);
    }
  }

  lemma {:induction false} EraseMarker(prefix: string, k: nat, rest: string)
    requires PlainPrefix(prefix)
    ensures Erase(Marker(prefix, k) + rest, prefix) == Erase(rest, prefix)
  {
    var text := Marker(prefix, k) + rest;
    SkipToClose([OpenMark] + Ref(prefix, k), rest);
    assert text == [OpenMark] + Ref(prefix, k) + [CloseMark] + rest;
    assert text[..|prefix| + 1] == [OpenMark] + prefix;
  }

  lemma {:induction false} EraseCharacter(prefix: string, c: char, rest: string)
    requires PlainPrefix(prefix) && (rest == "" || rest[0] == OpenMark)
    ensures Erase([c] + rest, prefix) == [c] + Erase(rest, prefix)
  {
    var text, start := [c] + rest, [OpenMark] + prefix;
    assert text[1..] == rest;
    assert start[1] == 'b';
  }

  /** The annotated text strictly between two markers. */
  function Between(content: string, prefix: string, start: nat, end: nat): string
    requires start < end <= |content|
    decreases end - start
  {
    if start + 1 == end then [content[start]]
    else [content[start]] + Marker(prefix, start + 1) + Between(content, prefix, start + 1, end)
  }

  lemma {:induction false} BetweenStep(content: string, prefix: string, start: nat, end: nat, tail: string)
    requires start < end <= |content|
    ensures Between(content, prefix, start, end) + tail == [content[start]] +
              if start + 1 == end then tail
              else Marker(prefix, start + 1) + (Between(content, prefix, start + 1, end) + tail)
  {
    hide Marker;
  }

  /** Erasing what lies between two markers leaves the content between their offsets. */
  lemma {:induction false} EraseBetween(content: string, prefix: string, start: nat, end: nat, tail: string)
    requires PlainPrefix(prefix) && start < end <= |content| && (tail == "" || tail[0] == OpenMark)
    ensures Erase(Between(content, prefix, start, end) + tail, prefix) == content[start..end] + Erase(tail, prefix)
    decreases end - start
  {
    hide Erase, PlainPrefix, Ref, Between;
    BetweenStep(content, prefix, start, end, tail);
    if start + 1 == end {
      EraseCharacter(prefix, content[start], tail);
      assert [content[start]] == content[start..end];
    } else {
      var rest := Between(content, prefix, start + 1, end) + tail;
      EraseBetween(content, prefix, start + 1, end, tail);
      EraseMarker(prefix, start + 1, rest);
      EraseCharacter(prefix, content[start], Marker(prefix, start + 1) + rest);
      assert [content[start]] + content[start + 1..end] == content[start..end];
    }
  }

  lemma {:induction false} AnnotatedSplits(content: string, prefix: string, start: nat, end: nat)
    requires start < end <= |content|
    ensures AnnotatedTo(content, prefix, end) ==
            AnnotatedTo(content, prefix, start) + Between(content, prefix, start, end) + Marker(prefix, end)
    decreases end - start
  {
    if start + 1 < end {
      AnnotatedSplits(content, prefix, start + 1, end);
      var a, b := AnnotatedTo(content, prefix, start), Between(content, prefix, start + 1, end);
      assert a + [content[start]] + Marker(prefix, start + 1) + b
          == a + ([content[start]] + Marker(prefix, start + 1) + b);
    }
  }

  lemma {:induction false} AnnotatedGrows(content: string, prefix: string, j: nat, k: nat)
    requires j <= k <= |content|
    ensures AnnotatedTo(content, prefix, j) <= AnnotatedTo(content, prefix, k)
    decreases k - j
  {
    if j < k {
      AnnotatedGrows(content, prefix, j, k - 1);
    }
  }

  /** Where the marker of an offset ends in the annotated text. */
  function MarkerEnd(e: Evidence, offset: nat): nat
    requires offset <= |e.content|
  {
    |AnnotatedTo(e.content, e.prefix, offset)|
  }

  /** Two references select, in the annotated text with markers erased, exactly the evidence span of their offsets. */
  lemma {:induction false} ErasedSelectionIsSpan(e: Evidence, startRef: string, endRef: string)
    requires Prepared(e) && ResolveRange(e, startRef, endRef).Some?
    ensures var (start, end) := ResolveRange(e, startRef, endRef).value;
            && start < end <= |e.content|
            && var from, to := MarkerEnd(e, start), MarkerEnd(e, end) - |Marker(e.prefix, end)|;
            && |Marker(e.prefix, start)| <= from <= to <= MarkerEnd(e, end) <= |e.text|
            && e.text[from - |Marker(e.prefix, start)|..from] == Marker(e.prefix, start)
            && e.text[to..MarkerEnd(e, end)] == Marker(e.prefix, end)
            && EvidenceSpan(e.content, start, end) == Some(Erase(e.text[from..to], e.prefix))
  {
    var (start, end) := ResolveRange(e, startRef, endRef).value;
    hide ResolveRange, Erase, Marker, AnnotatedTo, Between;
    SelectionPlaces(e, start, end);
    EraseBetween(e.content, e.prefix, start, end, "");
    EraseNothing(e.prefix);
    assert Between(e.content, e.prefix, start, end) + "" == Between(e.content, e.prefix, start, end);
    assert e.content[start..end] + "" == e.content[start..end];
  }

  lemma {:induction false} SelectionPlaces(e: Evidence, start: nat, end: nat)
    requires start < end <= |e.content| && e.text == AnnotatedTo(e.content, e.prefix, |e.content|)
    ensures var from, to := MarkerEnd(e, start), MarkerEnd(e, end) - |Marker(e.prefix, end)|;
            && |Marker(e.prefix, start)| <= from <= to <= MarkerEnd(e, end) <= |e.text|
            && e.text[from - |Marker(e.prefix, start)|..from] == Marker(e.prefix, start)
            && e.text[to..MarkerEnd(e, end)] == Marker(e.prefix, end)
            && e.text[from..to] == Between(e.content, e.prefix, start, end)
  {
    hide Marker, Between;
    AnnotatedSplits(e.content, e.prefix, start, end);
    AnnotatedGrows(e.content, e.prefix, end, |e.content|);
    AnnotatedEndsWithMarker(e.content, e.prefix, start);
    var first, whole := AnnotatedTo(e.content, e.prefix, start), AnnotatedTo(e.content, e.prefix, end);
    var between, last := Between(e.content, e.prefix, start, end), Marker(e.prefix, end);
    assert whole == e.text[..|whole|];
    assert first == e.text[..|first|];
    assert e.text[|first|..|first| + |between|] == between;
    assert e.text[|first| + |between|..|whole|] == last;
    assert e.text[|first| - |Marker(e.prefix, start)|..|first|] == first[|first| - |Marker(e.prefix, start)|..];
  }

  lemma {:induction false} AnnotatedEndsWithMarker(content: string, prefix: string, k: nat)
    requires k <= |content|
    ensures var a, m := AnnotatedTo(content, prefix, k), Marker(prefix, k);
            |m| <= |a| && a[|a| - |m|..] == m
  {
  }

  /** Erasing every marker gives the content back. */
  lemma {:induction false} ErasedTextIsContent(e: Evidence)
    requires Prepared(e)
    ensures Erase(e.text, e.prefix) == e.content
  {
    hide Erase;
    var n := |e.content|;
    var last := Marker(e.prefix, n);
    assert last + "" == last;
    EraseMarker(e.prefix, n, "");
    if n > 0 {
      AnnotatedSplits(e.content, e.prefix, 0, n);
      var rest := Between(e.content, e.prefix, 0, n) + last;
      assert e.text == Marker(e.prefix, 0) + rest;
      EraseMarker(e.prefix, 0, rest);
      EraseBetween(e.content, e.prefix, 0, n, last);
      assert e.content[0..n] + "" == e.content;
    }
    EraseNothing(e.prefix);
  }

  lemma {:induction false} EraseNothing(prefix: string)
    ensures Erase("", prefix) == ""
  {
  }
}
