/** Vocabulary shared by every module: optional values, 64-bit counters,
    text trimming, decimal rendering, and the sequence lemmas that carry local
    checks (adjacent pairs, set cardinalities, filters) to whole-list facts. */
module Basics {

  datatype Option<+T> = None | Some(value: T)

  const U64_MAX: int := 0xFFFF_FFFF_FFFF_FFFF

  type u64 = x: int | 0 <= x <= 0xFFFF_FFFF_FFFF_FFFF

  function CheckedAdd(a: u64, b: u64): Option<u64> {
    if a + b <= U64_MAX then Some(a + b) else None
  }

  function CheckedMul(a: u64, b: u64): Option<u64> {
    if a * b <= U64_MAX then Some(a * b) else None
  }

  // ---------------------------------------------------------------- text

  /** The Unicode White_Space property, which Rust's str::trim uses. */
  predicate IsWhitespace(c: char) {
    || '\t' <= c <= '\r' || c == ' ' || c == '\U{0085}' || c == '\U{00A0}' || c == '\U{1680}'
    || '\U{2000}' <= c <= '\U{200A}' || c == '\U{2028}' || c == '\U{2029}' || c == '\U{202F}'
    || c == '\U{205F}' || c == '\U{3000}'
  }

  function TrimStart(s: string): string {
    if s != [] && IsWhitespace(s[0]) then TrimStart(s[1..]) else s
  }

  function TrimEnd(s: string): string {
    if s != [] && IsWhitespace(s[|s| - 1]) then TrimEnd(s[..|s| - 1]) else s
  }

  function Trim(s: string): string {
    TrimEnd(TrimStart(s))
  }

  /** s.trim().is_empty(), see BlankMeansTrimsToNothing. */
  predicate IsBlank(s: string) {
    forall i :: 0 <= i < |s| ==> IsWhitespace(s[i])
  }

  lemma {:induction false} TrimStartStops(s: string)
    ensures TrimStart(s) == "" <==> IsBlank(s)
    ensures TrimStart(s) != "" ==> !IsWhitespace(TrimStart(s)[0])
  {
    if s != [] && IsWhitespace(s[0]) {
      TrimStartStops(s[1..]);
      assert IsBlank(s) <==> IsBlank(s[1..]) by {
        assert forall i :: 1 <= i < |s| ==> s[i] == s[1..][i - 1];
      }
    }
  }

  lemma {:induction false} TrimEndKeepsHead(s: string)
    requires s != "" && !IsWhitespace(s[0])
    ensures TrimEnd(s) != ""
  {
    if IsWhitespace(s[|s| - 1]) {
      TrimEndKeepsHead(s[..|s| - 1]);
    }
  }

  lemma BlankMeansTrimsToNothing(s: string)
    ensures Trim(s) == "" <==> IsBlank(s)
  {
    TrimStartStops(s);
    if TrimStart(s) != "" {
      TrimEndKeepsHead(TrimStart(s));
    }
  }

  /** What is left of s between a and b, when only whitespace was taken. */
  ghost predicate IsCore(core: string, s: string, a: nat, b: nat) {
    && a <= b <= |s| && core == s[a..b]
    && (forall i :: 0 <= i < a || b <= i < |s| ==> IsWhitespace(s[i]))
    && (core != "" ==> !IsWhitespace(core[0]) && !IsWhitespace(core[|core| - 1]))
  }

  lemma {:induction false} TrimStartReads(s: string) returns (a: nat)
    ensures a <= |s| && TrimStart(s) == s[a..] && (forall i :: 0 <= i < a ==> IsWhitespace(s[i]))
  {
    a := 0;
    if s != [] && IsWhitespace(s[0]) {
      var rest := TrimStartReads(s[1..]);
      a := rest + 1;
      assert s[1..][rest..] == s[a..];
      assert forall i :: 1 <= i < a ==> s[i] == s[1..][i - 1];
    }
  }

  lemma {:induction false} TrimEndReads(s: string) returns (b: nat)
    ensures b <= |s| && TrimEnd(s) == s[..b] && (forall i :: b <= i < |s| ==> IsWhitespace(s[i]))
    ensures b > 0 ==> !IsWhitespace(s[b - 1])
  {
    b := |s|;
    if s != [] && IsWhitespace(s[|s| - 1]) {
      var front := s[..|s| - 1];
      b := TrimEndReads(front);
      assert front[..b] == s[..b];
    }
  }

  /** Trimming takes whitespace from both ends and all of it. */
  lemma TrimReads(s: string)
    ensures exists a: nat, b: nat :: IsCore(Trim(s), s, a, b)
  {
    var a := TrimStartReads(s);
    var rest := s[a..];
    TrimStartStops(s);
    var n := TrimEndReads(rest);
    assert rest[..n] == s[a..a + n];
    forall i | a + n <= i < |s| ensures IsWhitespace(s[i]) {
      assert s[i] == rest[i - a];
    }
    assert IsCore(Trim(s), s, a, a + n);
  }

  predicate Present(s: Option<string>) {
    s.Some? && !IsBlank(s.value)
  }

  function Digit(d: nat): char
    requires d < 10
  {
    ('0' as int + d) as char
  }

  /** Rust's Display for unsigned integers. */
  function Decimal(n: nat): (s: string)
    ensures s != [] && forall i :: 0 <= i < |s| ==> '0' <= s[i] <= '9'
  {
    if n < 10 then [Digit(n)] else Decimal(n / 10) + [Digit(n % 10)]
  }

  lemma {:induction false} DecimalIsInjective(m: nat, n: nat)
    requires Decimal(m) == Decimal(n)
    ensures m == n
    decreases m
  {
    var s, t := Decimal(m), Decimal(n);
    assert s[|s| - 1] == Digit(m % 10) && t[|t| - 1] == Digit(n % 10);
    if m >= 10 && n >= 10 {
      assert s[..|s| - 1] == Decimal(m / 10) && t[..|t| - 1] == Decimal(n / 10);
      DecimalIsInjective(m / 10, n / 10);
    }
  }

  /** The number that a string of digits denotes. */
  function Denoted(s: string): nat
    requires forall i :: 0 <= i < |s| ==> '0' <= s[i] <= '9'
  {
    if s == "" then 0 else 10 * Denoted(s[..|s| - 1]) + (s[|s| - 1] as int - '0' as int)
  }

  lemma {:induction false} DecimalDenotes(n: nat)
    ensures Denoted(Decimal(n)) == n && (|Decimal(n)| > 1 ==> Decimal(n)[0] != '0')
  {
    var s := Decimal(n);
    if n >= 10 {
      DecimalDenotes(n / 10);
      assert s[..|s| - 1] == Decimal(n / 10);
    } else {
      assert s[..0] == "";
    }
  }

  // ----------------------------------------------------------- sequences

  function Elements<T(==)>(s: seq<T>): set<T> {
    set x | x in s
  }

  lemma EmptyElements<T>(s: seq<T>)
    ensures Elements(s) == {} <==> s == []
  {
    if s != [] {
      assert s[0] in Elements(s);
    }
  }

  predicate Distinct<T(==)>(s: seq<T>) {
    forall i, j :: 0 <= i < j < |s| ==> s[i] != s[j]
  }

  /** Collecting a list into a set and comparing sizes is exactly a test for
      pairwise distinctness. */
  lemma {:induction false} FullCardinalityIffDistinct<T>(s: seq<T>)
    ensures |Elements(s)| <= |s|
    ensures |Elements(s)| == |s| <==> Distinct(s)
  {
    if s != [] {
      var front, last := s[..|s| - 1], s[|s| - 1];
      FullCardinalityIffDistinct(front);
      assert s == front + [last];
      assert Elements(s) == Elements(front) + {last};
      if last in front {
        assert Elements(s) == Elements(front);
        var i :| 0 <= i < |front| && front[i] == last;
        assert s[i] == s[|s| - 1];
      } else if Distinct(front) {
        assert Distinct(s);
      } else {
        var i, j :| 0 <= i < j < |front| && front[i] == front[j];
        assert s[i] == s[j];
      }
    }
  }

  lemma SameSizeSubsetIsEqual<T>(a: set<T>, b: set<T>)
    requires a <= b && |a| == |b|
    ensures a == b
  {
    assert |b - a| == |b| - |a|;
    assert b == a + (b - a);
  }

  function Map<T, U>(f: T -> U, s: seq<T>): (r: seq<U>)
    ensures |r| == |s| && forall i :: 0 <= i < |s| ==> r[i] == f(s[i])
  {
    seq(|s|, i requires 0 <= i < |s| => f(s[i]))
  }

  function Filter<T>(p: T -> bool, s: seq<T>): (r: seq<T>)
    ensures forall x :: x in r ==> x in s && p(x)
    ensures forall x :: x in s && p(x) ==> x in r
  {
    if s == [] then [] else (if p(s[0]) then [s[0]] else []) + Filter(p, s[1..])
  }

  lemma {:induction false} FilterAppend<T>(p: T -> bool, a: seq<T>, b: seq<T>)
    ensures Filter(p, a + b) == Filter(p, a) + Filter(p, b)
  {
    if a == [] {
      assert a + b == b;
    } else {
      assert (a + b)[1..] == a[1..] + b;
      FilterAppend(p, a[1..], b);
    }
  }

  lemma {:induction false} FilterNone<T>(p: T -> bool, s: seq<T>)
    requires forall x :: x in s ==> !p(x)
    ensures Filter(p, s) == []
  {
    if s != [] {
      FilterNone(p, s[1..]);
    }
  }

  lemma {:induction false} FilterAll<T>(p: T -> bool, s: seq<T>)
    requires forall x :: x in s ==> p(x)
    ensures Filter(p, s) == s
  {
    if s != [] {
      FilterAll(p, s[1..]);
    }
  }

  lemma {:induction false} FilterHasOne<T>(p: T -> bool, s: seq<T>, k: nat)
    requires k < |s| && p(s[k])
    requires forall i :: 0 <= i < |s| && i != k ==> !p(s[i])
    ensures Filter(p, s) == [s[k]]
  {
    assert s == s[..k] + [s[k]] + s[k + 1..];
    FilterAppend(p, s[..k] + [s[k]], s[k + 1..]);
    FilterAppend(p, s[..k], [s[k]]);
    FilterNone(p, s[..k]);
    FilterNone(p, s[k + 1..]);
  }

  lemma {:induction false} SoleFilterIndex<T>(p: T -> bool, s: seq<T>) returns (k: nat)
    requires |Filter(p, s)| == 1
    ensures k < |s| && Filter(p, s) == [s[k]] && forall i :: 0 <= i < |s| ==> (p(s[i]) <==> i == k)
  {
    k := FirstIndex(p, s);
    assert Filter(p, s)[0] in Filter(p, s);
    assert s == s[..k] + [s[k]] + s[k + 1..];
    FilterAppend(p, s[..k] + [s[k]], s[k + 1..]);
    FilterAppend(p, s[..k], [s[k]]);
    FilterNone(p, s[..k]);
    FilterAll(p, [s[k]]);
    forall i | k < i < |s| ensures !p(s[i]) {
      assert s[k + 1..][i - k - 1] == s[i] && s[i] in s[k + 1..];
    }
  }

  /** A relation that holds between every earlier and later element survives
      filtering. */
  lemma {:induction false} FilterKeepsOrder<T>(p: T -> bool, s: seq<T>, before: (T, T) -> bool)
    requires forall i, j :: 0 <= i < j < |s| ==> before(s[i], s[j])
    ensures forall i, j :: 0 <= i < j < |Filter(p, s)| ==> before(Filter(p, s)[i], Filter(p, s)[j])
  {
    if s != [] {
      FilterKeepsOrder(p, s[1..], before);
      var rest := Filter(p, s[1..]);
      forall x | x in rest ensures before(s[0], x) {
        var k :| 0 <= k < |s[1..]| && s[1..][k] == x;
        assert s[k + 1] == x;
      }
      if p(s[0]) {
        assert Filter(p, s) == [s[0]] + rest;
        forall i, j | 0 <= i < j < |Filter(p, s)|
          ensures before(Filter(p, s)[i], Filter(p, s)[j])
        {
          assert Filter(p, s)[j] == rest[j - 1];
          assert rest[j - 1] in rest;
        }
      }
    }
  }

  /** Index of the first element satisfying p, or |s|. */
  function FirstIndex<T>(p: T -> bool, s: seq<T>): (k: nat)
    ensures k <= |s|
    ensures k < |s| ==> p(s[k])
    ensures forall i :: 0 <= i < k ==> !p(s[i])
  {
    if s == [] || p(s[0]) then 0 else 1 + FirstIndex(p, s[1..])
  }

  /** One past the index of the last element satisfying p, or 0. */
  function AfterLast<T>(p: T -> bool, s: seq<T>): (k: nat)
    ensures k <= |s|
    ensures k > 0 ==> p(s[k - 1])
    ensures forall i :: k <= i < |s| ==> !p(s[i])
  {
    if s == [] then 0 else if p(s[|s| - 1]) then |s| else AfterLast(p, s[..|s| - 1])
  }

  // ------------------------------------------------- permuted lists

  function SumBy<T>(f: T -> nat, s: seq<T>): nat {
    if s == [] then 0 else f(s[0]) + SumBy(f, s[1..])
  }

  lemma {:induction false} SumByAppend<T>(f: T -> nat, a: seq<T>, b: seq<T>)
    ensures SumBy(f, a + b) == SumBy(f, a) + SumBy(f, b)
  {
    if a == [] {
      assert a + b == b;
    } else {
      assert (a + b)[1..] == a[1..] + b;
      SumByAppend(f, a[1..], b);
    }
  }

  /** A permutation of a non-empty list still holds its head; removing that
      head leaves a permutation of the tail. */
  lemma HeadElsewhere<T>(a: seq<T>, b: seq<T>) returns (k: nat)
    requires a != [] && multiset(a) == multiset(b)
    ensures k < |b| && b[k] == a[0]
    ensures b == b[..k] + [a[0]] + b[k + 1..]
    ensures multiset(a[1..]) == multiset(b[..k] + b[k + 1..])
  {
    assert a[0] in multiset(b);
    k :| 0 <= k < |b| && b[k] == a[0];
    assert a == [a[0]] + a[1..];
    assert b == b[..k] + [b[k]] + b[k + 1..];
    assert multiset(a) == multiset{a[0]} + multiset(a[1..]);
    assert multiset(b) == multiset(b[..k]) + multiset{a[0]} + multiset(b[k + 1..]);
    assert multiset(a[1..]) == multiset(a) - multiset{a[0]};
    assert multiset(b[..k] + b[k + 1..]) == multiset(b) - multiset{a[0]};
  }

  lemma {:induction false} SumByPermutation<T>(f: T -> nat, a: seq<T>, b: seq<T>)
    requires multiset(a) == multiset(b)
    ensures SumBy(f, a) == SumBy(f, b)
  {
    assert |multiset(a)| == |a| && |multiset(b)| == |b|;
    if a != [] {
      var k := HeadElsewhere(a, b);
      SumByPermutation(f, a[1..], b[..k] + b[k + 1..]);
      SumByAppend(f, b[..k], b[k + 1..]);
      SumByAppend(f, b[..k] + [a[0]], b[k + 1..]);
      SumByAppend(f, b[..k], [a[0]]);
    }
  }

  lemma {:induction false} MapAppend<T, U>(f: T -> U, a: seq<T>, b: seq<T>)
    ensures Map(f, a + b) == Map(f, a) + Map(f, b)
  {
  }

  lemma {:induction false} MapPermutation<T, U>(f: T -> U, a: seq<T>, b: seq<T>)
    requires multiset(a) == multiset(b)
    ensures multiset(Map(f, a)) == multiset(Map(f, b))
  {
    assert |multiset(a)| == |a| && |multiset(b)| == |b|;
    if a != [] {
      var k := HeadElsewhere(a, b);
      MapPermutation(f, a[1..], b[..k] + b[k + 1..]);
      MapAppend(f, b[..k], b[k + 1..]);
      assert Map(f, a) == [f(a[0])] + Map(f, a[1..]);
      assert Map(f, b) == Map(f, b[..k]) + [f(a[0])] + Map(f, b[k + 1..]);
    }
  }

  lemma {:induction false} FilterPermutation<T>(p: T -> bool, a: seq<T>, b: seq<T>)
    requires multiset(a) == multiset(b)
    ensures multiset(Filter(p, a)) == multiset(Filter(p, b))
  {
    assert |multiset(a)| == |a| && |multiset(b)| == |b|;
    if a != [] {
      var k := HeadElsewhere(a, b);
      FilterPermutation(p, a[1..], b[..k] + b[k + 1..]);
      FilterAppend(p, b[..k], b[k + 1..]);
      FilterAppend(p, b[..k] + [a[0]], b[k + 1..]);
      FilterAppend(p, b[..k], [a[0]]);
    }
  }

  /** Permuted lists have the same length and the same members. */
  lemma PermutationMembers<T>(a: seq<T>, b: seq<T>)
    requires multiset(a) == multiset(b)
    ensures |a| == |b|
    ensures forall x :: x in a <==> x in b
  {
    assert |multiset(a)| == |a| && |multiset(b)| == |b|;
    forall x ensures x in a <==> x in b {
      assert x in a <==> x in multiset(a);
      assert x in b <==> x in multiset(b);
    }
  }

  /** Collecting optional results into one: all of them, or nothing. */
  function Values<T(==)>(options: seq<Option<T>>): Option<seq<T>> {
    if forall x :: x in options ==> x.Some?
    then Some(seq(|options|, i requires 0 <= i < |options| && options[i].Some? => options[i].value))
    else None
  }

  lemma {:induction false} ValuesPermutation<T>(a: seq<Option<T>>, b: seq<Option<T>>)
    requires multiset(a) == multiset(b) && Values(a).Some?
    ensures Values(b).Some? && multiset(Values(a).value) == multiset(Values(b).value)
    decreases |a|
  {
    PermutationMembers(a, b);
    if a != [] {
      var k := HeadElsewhere(a, b);
      var rest := b[..k] + b[k + 1..];
      ValuesPermutation(a[1..], rest);
      var va, vb, vr := Values(a).value, Values(b).value, Values(rest).value;
      assert va == [a[0].value] + Values(a[1..]).value;
      assert vb == vr[..k] + [a[0].value] + vr[k..];
      assert vr == vr[..k] + vr[k..];
    }
  }
}
