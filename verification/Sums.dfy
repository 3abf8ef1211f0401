/** Sums of a function over a sequence, in any order. */
module Sums {

  function SumOf<T>(s: seq<T>, f: T -> int): int {
    if s == [] then 0 else f(s[0]) + SumOf(s[1..], f)
  }

  lemma {:induction false} SumOfConcat<T>(s: seq<T>, t: seq<T>, f: T -> int)
    ensures SumOf(s + t, f) == SumOf(s, f) + SumOf(t, f)
  {
    if s == [] {
      assert s + t == t;
    } else {
      assert (s + t)[1..] == s[1..] + t;
      SumOfConcat(s[1..], t, f);
    }
  }

  lemma {:induction false} SumOfPush<T>(s: seq<T>, x: T, f: T -> int)
    ensures SumOf(s + [x], f) == SumOf(s, f) + f(x)
  {
    SumOfConcat(s, [x], f);
  }

  lemma {:induction false} Cancel<T>(a: multiset<T>, b: multiset<T>, c: multiset<T>)
    requires a + c == b + c
    ensures a == b
  {
    assert forall x :: a[x] == (a + c)[x] - c[x] && b[x] == (b + c)[x] - c[x];
  }

  /** A sum does not depend on the order. */
  lemma {:induction false} SumOfPermutation<T>(s: seq<T>, t: seq<T>, f: T -> int)
    requires multiset(s) == multiset(t)
    ensures SumOf(s, f) == SumOf(t, f)
  {
    if s == [] {
      assert |multiset(t)| == 0;
    } else {
      assert s == [s[0]] + s[1..];
      assert s[0] in multiset(t);
      var i :| 0 <= i < |t| && t[i] == s[0];
      assert t == t[..i] + ([s[0]] + t[i + 1..]);
      SumOfConcat(t[..i], [s[0]] + t[i + 1..], f);
      SumOfConcat([s[0]], t[i + 1..], f);
      SumOfConcat(t[..i], t[i + 1..], f);
      var rest := t[..i] + t[i + 1..];
      assert multiset(t) == multiset(t[..i]) + (multiset([s[0]]) + multiset(t[i + 1..])) ==
             multiset(rest) + multiset([s[0]]);
      assert multiset(s) == multiset([s[0]]) + multiset(s[1..]);
      Cancel(multiset(rest), multiset(s[1..]), multiset([s[0]]));
      SumOfPermutation(s[1..], rest, f);
    }
  }

  lemma {:induction false} SumOfMonotone<T>(s: seq<T>, f: T -> int, g: T -> int)
    requires forall i :: 0 <= i < |s| ==> f(s[i]) <= g(s[i])
    ensures SumOf(s, f) <= SumOf(s, g)
  {
    if s != [] {
      SumOfMonotone(s[1..], f, g);
    }
  }

  lemma {:induction false} SumOfAdd<T>(s: seq<T>, f: T -> int, g: T -> int, h: T -> int)
    requires forall i :: 0 <= i < |s| ==> h(s[i]) == f(s[i]) + g(s[i])
    ensures SumOf(s, h) == SumOf(s, f) + SumOf(s, g)
  {
    if s != [] {
      SumOfAdd(s[1..], f, g, h);
    }
  }

  lemma {:induction false} SumOfNonNegative<T>(s: seq<T>, f: T -> int, i: nat)
    requires forall k :: 0 <= k < |s| ==> f(s[k]) >= 0
    requires i < |s|
    ensures SumOf(s, f) >= f(s[i]) >= 0
  {
    if i > 0 {
      SumOfNonNegative(s[1..], f, i - 1);
    } else if |s| > 1 {
      SumOfNonNegative(s[1..], f, 0);
    }
  }

  lemma {:induction false} SumOfZero<T>(s: seq<T>, f: T -> int)
    requires forall i :: 0 <= i < |s| ==> f(s[i]) == 0
    ensures SumOf(s, f) == 0
  {
    if s != [] {
      SumOfZero(s[1..], f);
    }
  }

  /** Summing ones and zeros counts the places of the ones. */
  lemma {:induction false} SumCounts<T>(s: seq<T>, f: T -> int, places: set<int>)
    requires forall i :: i in places ==> 0 <= i < |s|
    requires forall i :: 0 <= i < |s| ==> f(s[i]) == if i in places then 1 else 0
    ensures SumOf(s, f) == |places|
  {
    if s == [] {
      assert forall i :: i !in places;
    } else {
      var init, last := s[..|s| - 1], s[|s| - 1];
      assert s == init + [last];
      assert forall i :: 0 <= i < |init| ==> init[i] == s[i];
      SumCounts(init, f, places - {|s| - 1});
      SumOfPush(init, last, f);
    }
  }
}
