/** Numerals and white space as the Go standard library renders and trims them. */
module Text {
  import opened Options

  predicate IsDigit(c: char) {
    '0' <= c <= '9' || 'a' <= c <= 'z'
  }

  /** The digit characters of strconv.FormatInt, for bases up to 36. */
  function DigitChar(d: nat): (c: char)
    requires d < 36
    ensures IsDigit(c)
  {
    if d < 10 then '0' + d as char else 'a' + (d - 10) as char
  }

  function CharDigit(c: char): int {
    if '0' <= c <= '9' then (c - '0') as int else (c as int) - ('a' as int) + 10
  }

  lemma {:induction false} DivisionStep(n: nat, base: nat, q: nat, r: nat)
    requires 2 <= base <= n && q == n / base && r == n % base
    ensures q * base + r == n && q < n && r < base
  {
  }

  /** strconv.FormatInt(n, base) for a non-negative n. */
  function Numeral(n: nat, base: nat): (s: string)
    requires 2 <= base <= 36
    ensures |s| > 0
    ensures forall i :: 0 <= i < |s| ==> IsDigit(s[i])
  {
    if n < base then [DigitChar(n)] else
    DivisionStep(n, base, n / base, n % base);
    Numeral(n / base, base) + [DigitChar(n % base)]
  }

  function NumeralValue(s: string, base: int): int {
    if s == "" then 0 else NumeralValue(s[..|s| - 1], base) * base + CharDigit(s[|s| - 1])
  }

  lemma {:induction false} DigitRoundTrip(d: nat)
    requires d < 36
    ensures CharDigit(DigitChar(d)) == d
  {
  }

  lemma {:induction false} NumeralValueOfPush(s: string, c: char, base: int)
    ensures NumeralValue(s + [c], base) == NumeralValue(s, base) * base + CharDigit(c)
  {
    assert (s + [c])[..|s + [c]| - 1] == s;
  }

  /** Reading a numeral back gives the number, so distinct numbers have distinct numerals. */
  lemma {:induction false} NumeralRoundTrip(n: nat, base: nat)
    requires 2 <= base <= 36
    ensures NumeralValue(Numeral(n, base), base) == n
  {
    if n < base {
      DigitRoundTrip(n);
      assert [DigitChar(n)] == "" + [DigitChar(n)];
    } else {
      var q, r := n / base, n % base;
      DivisionStep(n, base, q, r);
      DigitRoundTrip(r);
      NumeralRoundTrip(q, base);
      NumeralValueOfPush(Numeral(q, base), DigitChar(r), base);
    }
  }

  lemma {:induction false} NumeralInjective(m: nat, n: nat, base: nat)
    requires 2 <= base <= 36
    requires Numeral(m, base) == Numeral(n, base)
    ensures m == n
  {
    NumeralRoundTrip(m, base);
    NumeralRoundTrip(n, base);
  }

  predicate Decimal(s: string) {
    forall i :: 0 <= i < |s| ==> '0' <= s[i] <= '9'
  }

  lemma {:induction false} NumeralIsDecimal(n: nat)
    ensures Decimal(Numeral(n, 10))
  {
    if n >= 10 {
      NumeralIsDecimal(n / 10);
    }
  }

  const MaxInt := 0x7fff_ffff_ffff_ffff

  /** strconv.Atoi. */
  function Atoi(s: string): Option<int> {
    var digits := if s != "" && (s[0] == '+' || s[0] == '-') then s[1..] else s;
    if digits == "" || !Decimal(digits) then None else
    var value := NumeralValue(digits, 10);
    if s[0] == '-' then (if value > MaxInt + 1 then None else Some(-value))
    else if value > MaxInt then None else Some(value)
  }

  /** unicode.IsSpace. */
  predicate IsSpace(c: char) {
    || '\t' <= c <= '\r' || c == ' ' || c == '\U{0085}' || c == '\U{00A0}' || c == '\U{1680}'
    || '\U{2000}' <= c <= '\U{200a}' || c == '\U{2028}' || c == '\U{2029}' || c == '\U{202f}'
    || c == '\U{205f}' || c == '\U{3000}'
  }

  function TrimLeft(s: string): string {
    if s != "" && IsSpace(s[0]) then TrimLeft(s[1..]) else s
  }

  function TrimRight(s: string): string {
    if s != "" && IsSpace(s[|s| - 1]) then TrimRight(s[..|s| - 1]) else s
  }

  /** strings.TrimSpace. */
  function Trim(s: string): string {
    TrimRight(TrimLeft(s))
  }

  lemma {:induction false} TrimIdentity(s: string)
    requires s == "" || (!IsSpace(s[0]) && !IsSpace(s[|s| - 1]))
    ensures Trim(s) == s
  {
  }

  lemma {:induction false} TrimLeftEnds(s: string)
    ensures TrimLeft(s) == "" || !IsSpace(TrimLeft(s)[0])
  {
    if s != "" && IsSpace(s[0]) {
      TrimLeftEnds(s[1..]);
    }
  }

  lemma {:induction false} TrimRightEnds(s: string)
    requires s == "" || !IsSpace(s[0])
    ensures var t := TrimRight(s); t == "" || (t[0] == s[0] && !IsSpace(t[0]) && !IsSpace(t[|t| - 1]))
  {
    if s != "" && IsSpace(s[|s| - 1]) {
      TrimRightEnds(s[..|s| - 1]);
    }
  }

  /** Trimming twice is trimming once. */
  lemma {:induction false} TrimIdempotent(s: string)
    ensures Trim(Trim(s)) == Trim(s)
  {
    TrimLeftEnds(s);
    TrimRightEnds(TrimLeft(s));
    TrimIdentity(Trim(s));
  }

  /** Byte-wise order of strings, as Go compares and sort.Strings sorts them. */
  predicate TextBefore(a: string, b: string) {
    if b == "" then false else if a == "" then true
    else a[0] < b[0] || (a[0] == b[0] && TextBefore(a[1..], b[1..]))
  }

  lemma {:induction false} TextBeforeIsAsymmetric(a: string, b: string)
    requires TextBefore(a, b)
    ensures !TextBefore(b, a)
  {
    if a != "" && a[0] == b[0] {
      TextBeforeIsAsymmetric(a[1..], b[1..]);
    }
  }

  lemma {:induction false} TextBeforeIsTotal(a: string, b: string)
    requires a != b
    ensures TextBefore(a, b) || TextBefore(b, a)
  {
    if a != "" && b != "" && a[0] == b[0] {
      assert a == [a[0]] + a[1..] && b == [b[0]] + b[1..];
      TextBeforeIsTotal(a[1..], b[1..]);
    }
  }

  lemma {:induction false} TextBeforeIsTransitive(a: string, b: string, c: string)
    requires TextBefore(a, b) && TextBefore(b, c)
    ensures TextBefore(a, c)
  {
    if a != "" && a[0] == b[0] == c[0] {
      TextBeforeIsTransitive(a[1..], b[1..], c[1..]);
    }
  }

  ghost predicate SortedTexts(s: seq<string>) {
    forall i, j :: 0 <= i < j < |s| ==> !TextBefore(s[j], s[i])
  }

  method InsertText(s: seq<string>, x: string) returns (r: seq<string>)
    requires SortedTexts(s)
    ensures SortedTexts(r) && multiset(r) == multiset(s) + multiset{x}
  {
    var i := |s|;
    while i > 0 && TextBefore(x, s[i - 1])
      invariant 0 <= i <= |s|
      invariant forall k :: i <= k < |s| ==> TextBefore(x, s[k])
    {
      i := i - 1;
    }
    r := s[..i] + [x] + s[i..];
    InsertKeepsSorted(s, i, x);
    assert s == s[..i] + s[i..];
  }

  lemma {:induction false} InsertKeepsSorted(s: seq<string>, i: nat, x: string)
    requires SortedTexts(s) && i <= |s|
    requires i > 0 ==> !TextBefore(x, s[i - 1])
    requires forall k :: i <= k < |s| ==> TextBefore(x, s[k])
    ensures SortedTexts(s[..i] + [x] + s[i..])
  {
    forall k | 0 <= k < i
      ensures !TextBefore(x, s[k])
    {
      if TextBefore(x, s[k]) && s[k] != s[i - 1] {
        TextBeforeIsTotal(s[k], s[i - 1]);
        TextBeforeIsTransitive(x, s[k], s[i - 1]);
      }
    }
    forall k | i <= k < |s|
      ensures !TextBefore(s[k], x)
    {
      TextBeforeIsAsymmetric(x, s[k]);
    }
  }

  /** sort.Strings. */
  method SortTexts(s: seq<string>) returns (r: seq<string>)
    ensures SortedTexts(r) && multiset(r) == multiset(s)
  {
    r := [];
    for i := 0 to |s|
      invariant SortedTexts(r) && multiset(r) == multiset(s[..i])
    {
      r := InsertText(r, s[i]);
      assert s[..i + 1] == s[..i] + [s[i]];
    }
    assert s[..|s|] == s;
  }

  lemma {:induction false} FirstIsUnique(a: seq<string>, b: seq<string>)
    requires SortedTexts(a) && SortedTexts(b) && multiset(a) == multiset(b) && a != [] && b != []
    ensures a[0] == b[0]
  {
    assert a[0] in multiset(b) && b[0] in multiset(a);
    var i :| 0 <= i < |b| && b[i] == a[0];
    var j :| 0 <= j < |a| && a[j] == b[0];
    if a[0] != b[0] {
      TextBeforeIsTotal(a[0], b[0]);
    }
  }

  /** The sorted order of a multiset of strings is unique. */
  lemma {:induction false} SortedIsUnique(a: seq<string>, b: seq<string>)
    requires SortedTexts(a) && SortedTexts(b) && multiset(a) == multiset(b)
    ensures a == b
  {
    hide TextBefore;
    assert |a| == |multiset(a)| == |multiset(b)| == |b|;
    if a != [] {
      FirstIsUnique(a, b);
      assert a == [a[0]] + a[1..] && b == [b[0]] + b[1..];
      assert multiset(a[1..]) == multiset(a) - multiset{a[0]};
      assert multiset(b[1..]) == multiset(b) - multiset{b[0]};
      SortedIsUnique(a[1..], b[1..]);
    }
  }
}
