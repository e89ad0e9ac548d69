/** Small value-level helpers shared by the store and the pages: an optional
    value, JavaScript's `Math.round` of a ratio, ASCII lower-casing, substring
    search, and the `find` / `filter` / `slice` operations on arrays. */
module Basics {

  datatype Option<+T> = None | Some(value: T)

  function Min(a: int, b: int): int
  {
    if a <= b then a else b
  }

  /** `Math.round(p / q)` for a positive `q`: the nearest integer, with a
      half rounded up (towards positive infinity), as JavaScript does. */
  function RoundRatio(p: int, q: int): (r: int)
    requires q > 0
    ensures 2 * r * q - q <= 2 * p < 2 * r * q + q
  {
    var r := (2 * p + q) / (2 * q);
    assert 2 * p + q == 2 * q * r + (2 * p + q) % (2 * q);
    r
  }

  /** Cancelling a positive factor from a strict inequality. */
  lemma CancelPositiveFactor(x: int, y: int, q: int)
    requires q > 0 && x * q < y * q
    ensures x < y
  {
  }

  /** The two bounds of `RoundRatio` pin its result down. */
  lemma RoundRatioUnique(p: int, q: int, r: int)
    requires q > 0
    requires 2 * r * q - q <= 2 * p < 2 * r * q + q
    ensures RoundRatio(p, q) == r
  {
    var s := RoundRatio(p, q);
    assert (2 * r - 1) * q < (2 * s + 1) * q;
    CancelPositiveFactor(2 * r - 1, 2 * s + 1, q);
    assert (2 * s - 1) * q < (2 * r + 1) * q;
    CancelPositiveFactor(2 * s - 1, 2 * r + 1, q);
  }

  /** The rounding is exact on whole multiples. */
  lemma RoundRatioOfMultiple(a: int, n: int)
    requires n > 0
    ensures RoundRatio(a * n, n) == a
  {
    assert 2 * a * n - n <= 2 * (a * n) < 2 * a * n + n;
    RoundRatioUnique(a * n, n, a);
  }

  // ---------------------------------------------------------------------
  // Text: `toLowerCase` (on ASCII letters) and `includes`

  function LowerChar(c: char): (d: char)
    ensures !('A' <= d <= 'Z')
    ensures !('A' <= c <= 'Z') ==> d == c
    ensures 'A' <= c <= 'Z' ==> 'a' <= d <= 'z' && d as int - c as int == 'a' as int - 'A' as int
  {
    if 'A' <= c <= 'Z' then (c as int - 'A' as int + 'a' as int) as char else c
  }

  function Lower(s: string): (r: string)
    ensures |r| == |s|
    ensures forall i :: 0 <= i < |s| ==> r[i] == LowerChar(s[i])
  {
    if s == [] then [] else [LowerChar(s[0])] + Lower(s[1..])
  }

  /** Lower-casing twice is lower-casing once. */
  lemma LowerIdempotent(s: string)
    ensures Lower(Lower(s)) == Lower(s)
  {
    assert forall i :: 0 <= i < |s| ==> Lower(Lower(s))[i] == Lower(s)[i];
  }

  /** `hay.includes(needle)`: `needle` occurs at some offset of `hay`. */
  predicate Contains(hay: string, needle: string)
  {
    needle <= hay || (|hay| > 0 && Contains(hay[1..], needle))
  }

  /** `needle` starts at offset `k` of `hay`. */
  predicate OccursAt(hay: string, needle: string, k: nat)
  {
    k + |needle| <= |hay| && hay[k..k + |needle|] == needle
  }

  /** `Contains` holds exactly when `needle` starts at some offset of `hay`. */
  lemma {:induction false} ContainsIffOccurs(hay: string, needle: string)
    ensures Contains(hay, needle) <==> exists k: nat :: OccursAt(hay, needle, k)
  {
    if needle <= hay {
      assert OccursAt(hay, needle, 0);
    } else if |hay| > 0 {
      ContainsIffOccurs(hay[1..], needle);
      if Contains(hay[1..], needle) {
        var k: nat :| OccursAt(hay[1..], needle, k);
        assert hay[k + 1..k + 1 + |needle|] == hay[1..][k..k + |needle|];
        assert OccursAt(hay, needle, k + 1);
      } else {
        forall k: nat
          ensures !OccursAt(hay, needle, k)
        {
          if k > 0 && k + |needle| <= |hay| {
            var tail, here := hay[1..][k - 1..k - 1 + |needle|], hay[k..k + |needle|];
            forall j | 0 <= j < |here|
              ensures tail[j] == here[j]
            {
              assert hay[1..][k - 1 + j] == hay[k + j];
            }
            assert tail == here;
            assert OccursAt(hay, needle, k) == OccursAt(hay[1..], needle, k - 1);
          } else if k == 0 {
            assert OccursAt(hay, needle, 0) == (needle <= hay);
          }
        }
      }
    } else {
      assert |needle| > 0;
    }
  }

  /** The case-insensitive match every search box uses: `field.toLowerCase().includes(term.toLowerCase())`. */
  predicate MatchesTerm(field: string, term: string)
  {
    Contains(Lower(field), Lower(term))
  }

  /** The empty search term matches every field. */
  lemma EmptyTermMatches(field: string)
    ensures MatchesTerm(field, "")
  {
  }

  /** Lower-casing the term first does not change what it matches. */
  lemma MatchesTermIgnoresTermCase(field: string, term: string)
    ensures MatchesTerm(field, Lower(term)) == MatchesTerm(field, term)
  {
    LowerIdempotent(term);
  }

  // ---------------------------------------------------------------------
  // Arrays: `find`, `filter`, `slice(0, n)`

  /** `a` occurs in `b` in the same order, possibly with gaps. */
  predicate IsSubsequence<T(==)>(a: seq<T>, b: seq<T>)
  {
    if a == [] then true
    else if b == [] then false
    else (a[0] == b[0] && IsSubsequence(a[1..], b[1..])) || IsSubsequence(a, b[1..])
  }

  /** The position of the first element satisfying `p`, or `|s|` if none does. */
  function FirstIndex<T>(s: seq<T>, p: T -> bool): (k: nat)
    ensures k <= |s|
    ensures k < |s| ==> p(s[k])
    ensures forall j :: 0 <= j < k ==> !p(s[j])
  {
    if s == [] then 0
    else if p(s[0]) then 0
    else 1 + FirstIndex(s[1..], p)
  }

  /** `s.find(p)`: the first element satisfying `p`, if any. */
  function Find<T>(s: seq<T>, p: T -> bool): (r: Option<T>)
    ensures r.None? <==> forall i :: 0 <= i < |s| ==> !p(s[i])
    ensures r.Some? ==> p(r.value) && r.value in s
    ensures r.Some? ==> FirstIndex(s, p) < |s| && r.value == s[FirstIndex(s, p)]
  {
    var k := FirstIndex(s, p);
    if k < |s| then Some(s[k]) else None
  }

  /** One step of `Filter`: if `rest` keeps every element of `s[1..]` that
      passes as often as it occurs, so does `rest` with `s[0]` put in front
      when `s[0]` passes. */
  lemma FilterStepCounts<T>(s: seq<T>, keep: T -> bool, rest: seq<T>)
    requires s != []
    requires forall i :: 0 <= i < |rest| ==> rest[i] in s[1..]
    requires forall i :: 0 <= i < |s[1..]| ==>
      multiset(rest)[s[1..][i]] == if keep(s[1..][i]) then multiset(s[1..])[s[1..][i]] else 0
    ensures var r := if keep(s[0]) then [s[0]] + rest else rest;
      forall i :: 0 <= i < |s| ==> multiset(r)[s[i]] == if keep(s[i]) then multiset(s)[s[i]] else 0
  {
    var r := if keep(s[0]) then [s[0]] + rest else rest;
    assert s == [s[0]] + s[1..];
    assert multiset(s) == multiset{s[0]} + multiset(s[1..]);
    assert multiset(r) == (if keep(s[0]) then multiset{s[0]} else multiset{}) + multiset(rest);
    forall i | 0 <= i < |s|
      ensures multiset(r)[s[i]] == if keep(s[i]) then multiset(s)[s[i]] else 0
    {
      if s[i] in s[1..] {
        var j :| 0 <= j < |s[1..]| && s[1..][j] == s[i];
      } else {
        assert s[i] !in rest;
        assert multiset(s[1..])[s[i]] == 0;
      }
    }
  }

  /** `s.filter(keep)`: the elements satisfying `keep`, in their order
      (`FilterCounts` adds: each as often as it occurs in `s`). */
  function Filter<T(==)>(s: seq<T>, keep: T -> bool): (r: seq<T>)
    ensures |r| <= |s|
    ensures forall i :: 0 <= i < |r| ==> r[i] in s && keep(r[i])
    ensures forall i :: 0 <= i < |s| && keep(s[i]) ==> s[i] in r
    ensures IsSubsequence(r, s)
    ensures (forall i :: 0 <= i < |s| ==> keep(s[i])) ==> r == s
  {
    if s == [] then []
    else
      var rest := Filter(s[1..], keep);
      assert s == [s[0]] + s[1..];
      if keep(s[0]) then [s[0]] + rest else rest
  }

  /** `Filter` keeps each passing element as often as it occurs in `s`, and
      no failing one. */
  lemma {:induction false} FilterCounts<T>(s: seq<T>, keep: T -> bool)
    ensures forall i :: 0 <= i < |s| ==>
      multiset(Filter(s, keep))[s[i]] == if keep(s[i]) then multiset(s)[s[i]] else 0
  {
    if s != [] {
      FilterCounts(s[1..], keep);
      FilterStepCounts(s, keep, Filter(s[1..], keep));
    }
  }

  /** Filtering with two tests that agree on every element gives one result. */
  lemma {:induction false} FilterCongruent<T>(s: seq<T>, p: T -> bool, q: T -> bool)
    requires forall i :: 0 <= i < |s| ==> p(s[i]) == q(s[i])
    ensures Filter(s, p) == Filter(s, q)
  {
    if s != [] {
      FilterCongruent(s[1..], p, q);
    }
  }

  /** `s.slice(0, n)` for a non-negative `n`. */
  function Take<T>(s: seq<T>, n: nat): (r: seq<T>)
    ensures |r| == Min(n, |s|)
    ensures forall i :: 0 <= i < |r| ==> r[i] == s[i]
  {
    if n <= |s| then s[..n] else s
  }
}
