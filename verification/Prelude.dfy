/**
 Shared vocabulary: results, options, machine-integer ranges and sums over sequences.
 */
module Prelude {
  datatype Option<+T> = None | Some(value: T)

  datatype Result<+T, +E> = Ok(value: T) | Err(error: E)

  const U16_MAX: int := 0xFFFF
  const U32_MAX: int := 0xFFFF_FFFF
  const U64_MAX: int := 0xFFFF_FFFF_FFFF_FFFF
  const I64_MAX: int := 0x7FFF_FFFF_FFFF_FFFF
  const U128_MAX: int := 0xFFFF_FFFF_FFFF_FFFF_FFFF_FFFF_FFFF_FFFF

  type U16 = n: int | 0 <= n <= U16_MAX witness 0
  type U32 = n: int | 0 <= n <= U32_MAX witness 0
  type U64 = n: int | 0 <= n <= U64_MAX witness 0

  /** Addition on 32-bit counters that stops at the maximum. */
  function SaturatingIncrement(n: nat): U32 {
    if n < U32_MAX then n + 1 else U32_MAX
  }

  /** The Unicode White_Space property. */
  predicate IsWhitespace(c: char) {
    || '\U{9}' <= c <= '\U{D}'
    || '\U{2000}' <= c <= '\U{200A}'
    || c in {'\U{20}', '\U{85}', '\U{A0}', '\U{1680}', '\U{2028}', '\U{2029}', '\U{202F}', '\U{205F}', '\U{3000}'}
  }

  /** Something is left after trimming. */
  predicate NonBlank(s: string) {
    exists i :: 0 <= i < |s| && !IsWhitespace(s[i])
  }

  /** The text form of a SHA-256 digest, in either case. */
  predicate IsSha256Hex(s: string) {
    |s| == 64 && forall i :: 0 <= i < |s| ==> '0' <= s[i] <= '9' || 'a' <= s[i] <= 'f' || 'A' <= s[i] <= 'F'
  }

  /** The sum of a sequence of integers. */
  function Sum(ws: seq<int>): int {
    if ws == [] then 0 else Sum(ws[..|ws| - 1]) + ws[|ws| - 1]
  }

  lemma {:induction false} SumAppend(ws: seq<int>, x: int)
    ensures Sum(ws + [x]) == Sum(ws) + x
  {
    assert (ws + [x])[..|ws|] == ws;
  }

  lemma {:induction false} SumUpdate(ws: seq<int>, i: nat, x: int)
    requires i < |ws|
    ensures Sum(ws[i := x]) == Sum(ws) - ws[i] + x
  {
    var last := |ws| - 1;
    if i == last {
      assert ws[i := x][..last] == ws[..last];
    } else {
      SumUpdate(ws[..last], i, x);
      assert ws[i := x][..last] == ws[..last][i := x];
    }
  }

  lemma {:induction false} SumMonotone(vs: seq<int>, ws: seq<int>)
    requires |vs| == |ws|
    requires forall i :: 0 <= i < |vs| ==> vs[i] <= ws[i]
    ensures Sum(vs) <= Sum(ws)
  {
    if vs != [] {
      SumMonotone(vs[..|vs| - 1], ws[..|ws| - 1]);
    }
  }

  /** The sum of a sequence of reals, used for quota percentages. */
  function SumReal(ws: seq<real>): real {
    if ws == [] then 0.0 else SumReal(ws[..|ws| - 1]) + ws[|ws| - 1]
  }

  lemma {:induction false} SumRealAppend(ws: seq<real>, x: real)
    ensures SumReal(ws + [x]) == SumReal(ws) + x
  {
    assert (ws + [x])[..|ws|] == ws;
  }

  lemma {:induction false} SumRealMonotone(vs: seq<real>, ws: seq<real>)
    requires |vs| == |ws|
    requires forall i :: 0 <= i < |vs| ==> vs[i] <= ws[i]
    ensures SumReal(vs) <= SumReal(ws)
  {
    if vs != [] {
      SumRealMonotone(vs[..|vs| - 1], ws[..|ws| - 1]);
    }
  }

  /** A set of naturals below n has at most n elements. */
  lemma {:induction false} BoundedSetSize(s: set<nat>, n: nat)
    requires forall x :: x in s ==> x < n
    ensures |s| <= n
  {
    if n == 0 {
      assert s == {};
    } else {
      BoundedSetSize(s - {n - 1}, n - 1);
    }
  }

  lemma {:induction false} SubsetSize(a: set<nat>, b: set<nat>)
    requires a <= b
    ensures |a| <= |b|
  {
    if a != {} {
      var x :| x in a;
      SubsetSize(a - {x}, b - {x});
    }
  }

  /** Pigeonhole: a sequence over the naturals below n that is longer than n repeats an element. */
  lemma {:induction false} Pigeonhole(p: seq<nat>, n: nat)
    requires |p| > n
    requires forall i :: 0 <= i < |p| ==> p[i] < n
    ensures exists i, j :: 0 <= i < j < |p| && p[i] == p[j]
  {
    if forall i, j :: 0 <= i < j < |p| ==> p[i] != p[j] {
      DistinctSize(p);
      var elements := Elements(p);
      BoundedSetSize(elements, n);
    }
  }

  function Elements<T>(p: seq<T>): set<T> {
    set x | x in p
  }

  lemma {:induction false} DistinctSize<T>(p: seq<T>)
    requires forall i, j :: 0 <= i < j < |p| ==> p[i] != p[j]
    ensures |Elements(p)| == |p|
  {
    if p != [] {
      var q := p[..|p| - 1];
      DistinctSize(q);
      var last := p[|p| - 1];
      assert p == q + [last];
      assert Elements(p) == Elements(q) + {last};
      assert last !in q;
    }
  }
}
