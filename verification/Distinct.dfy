/** Sequences without repeats, sequences that name each member of a set exactly once, and sizes of sets. */
module Distinct {

  predicate NoRepeats<T(==)>(s: seq<T>) {
    forall i, j :: 0 <= i < j < |s| ==> s[i] != s[j]
  }

  function Members<T(==)>(s: seq<T>): set<T> {
    set x | x in s
  }

  /** Every target is named exactly once, and nothing else is. */
  predicate OnePerTarget<T(==)>(targets: set<T>, refs: seq<T>) {
    NoRepeats(refs) && Members(refs) == targets
  }

  lemma {:induction false} NoRepeatsPush<T>(s: seq<T>, i: nat)
    requires i < |s|
    ensures NoRepeats(s[..i + 1]) <==> NoRepeats(s[..i]) && s[i] !in Members(s[..i])
    ensures Members(s[..i + 1]) == Members(s[..i]) + {s[i]}
  {
    assert s[..i + 1] == s[..i] + [s[i]];
    if NoRepeats(s[..i + 1]) {
      forall k | 0 <= k < i
        ensures s[k] != s[i]
      {
        assert s[..i + 1][k] == s[k];
      }
    }
  }

  lemma {:induction false} NoneYet<T>(s: seq<T>)
    ensures NoRepeats(s[..0]) && Members(s[..0]) == {}
  {
  }

  lemma {:induction false} NoRepeatsPrefix<T>(s: seq<T>, i: nat)
    requires i <= |s|
    ensures NoRepeats(s) ==> NoRepeats(s[..i])
  {
    assert forall j :: 0 <= j < i ==> s[..i][j] == s[j];
  }

  lemma {:induction false} NoRepeatsSize<T>(s: seq<T>)
    requires NoRepeats(s)
    ensures |Members(s)| == |s|
  {
    if s != [] {
      var n := |s| - 1;
      assert s[..n + 1] == s;
      NoRepeatsPush(s, n);
      NoRepeatsSize(s[..n]);
    }
  }

  lemma {:induction false} SubsetSize<T>(a: set<T>, b: set<T>)
    requires a <= b
    ensures |a| == |b| <==> a == b
    ensures |a| <= |b|
  {
    assert b == a + (b - a);
    if |a| == |b| {
      assert |b - a| == 0;
    }
  }
}
