/** Sequence operations with Python's meaning: slicing with possibly negative
    bounds, first occurrence, and the first-seen order of distinct elements
    (the insertion order of a `dict` or `Counter`). */
module Seqs {

  function Min(a: int, b: int): int { if a <= b then a else b }

  function Max(a: int, b: int): int { if a <= b then b else a }

  /** How Python normalises a slice bound against a length `n`: a negative
      bound counts from the end, and the result is clamped to `0..n`. */
  function ClampIndex(i: int, n: nat): (k: nat)
    ensures k <= n
    ensures 0 <= i <= n ==> k == i
  {
    if i < 0 then (if i + n < 0 then 0 else i + n)
    else if i > n then n
    else i
  }

  /** `s[start:stop]`: from `start` (clamped to the length) up to `stop`,
      where a negative `stop` counts from the end; empty when the stop falls
      at or before the start. */
  function Slice<T>(s: seq<T>, start: int, stop: int): (r: seq<T>)
    ensures 0 <= start <= stop ==> r == s[Min(start, |s|)..Min(stop, |s|)]
    ensures 0 <= stop <= start ==> r == []
    ensures 0 <= start && stop < 0 ==> r == s[Min(start, |s|)..Max(Min(start, |s|), |s| + stop)]
    ensures |r| <= |s|
  {
    var a := ClampIndex(start, |s|);
    var b := ClampIndex(stop, |s|);
    if a < b then s[a..b] else []
  }

  /** `s[:n]`. */
  function Take<T>(s: seq<T>, n: int): (r: seq<T>)
    ensures 0 <= n ==> r == s[..Min(n, |s|)]
    ensures n < 0 ==> r == s[..Max(0, |s| + n)]
    ensures |r| == (if 0 <= n then Min(n, |s|) else Max(0, |s| + n)) && r == s[..|r|]
  {
    Slice(s, 0, n)
  }

  predicate NoDup<T(==)>(s: seq<T>) {
    forall i, j :: 0 <= i < j < |s| ==> s[i] != s[j]
  }

  /** `[0, 1, ..., n - 1]`. */
  function Range(n: nat): (r: seq<nat>)
    ensures |r| == n
    ensures forall i :: 0 <= i < n ==> r[i] == i
  {
    seq(n, i => i)
  }

  /** The elements of `s` at the positions `idx`, in that order. */
  function Gather<T>(s: seq<T>, idx: seq<nat>): (r: seq<T>)
    requires forall i :: 0 <= i < |idx| ==> idx[i] < |s|
  {
    seq(|idx|, k requires 0 <= k < |idx| => s[idx[k]])
  }

  /** `[f(x) for x in xs]`. */
  function Map<A, B>(f: A -> B, xs: seq<A>): (r: seq<B>)
    ensures |r| == |xs|
    ensures forall i :: 0 <= i < |xs| ==> r[i] == f(xs[i])
  {
    seq(|xs|, i requires 0 <= i < |xs| => f(xs[i]))
  }

  /** Mapping one more element appends its image. */
  lemma MapAppend<A, B>(f: A -> B, xs: seq<A>, i: nat)
    requires i < |xs|
    ensures Map(f, xs[..i + 1]) == Map(f, xs[..i]) + [f(xs[i])]
  {
  }

  /** Position of the first occurrence of `x`. */
  function FirstIndex<T(==)>(s: seq<T>, x: T): (k: nat)
    requires x in s
    ensures k < |s| && s[k] == x
    ensures forall j :: 0 <= j < k ==> s[j] != x
  {
    if s[0] == x then 0 else 1 + FirstIndex(s[1..], x)
  }

  /** Extending a sequence does not move the first occurrence of an element
      it already had. */
  lemma {:induction false} FirstIndexPrefix<T>(s: seq<T>, n: nat, x: T)
    requires n <= |s| && x in s[..n]
    ensures x in s && FirstIndex(s, x) == FirstIndex(s[..n], x)
  {
    var k := FirstIndex(s[..n], x);
    assert s[k] == x;
    assert forall j :: 0 <= j < k ==> s[j] == s[..n][j];
  }

  /** The distinct elements of `s` in order of first occurrence: the key order
      of `collections.Counter(s)`. */
  function Distinct<T(==)>(s: seq<T>): (d: seq<T>)
    ensures forall i :: 0 <= i < |d| ==> d[i] in s
    ensures forall i :: 0 <= i < |s| ==> s[i] in d
    ensures NoDup(d)
    ensures forall i, j :: 0 <= i < j < |d| ==> FirstIndex(s, d[i]) < FirstIndex(s, d[j])
    decreases |s|
  {
    if |s| == 0 then []
    else
      var p, x := s[..|s| - 1], s[|s| - 1];
      var d := Distinct(p);
      assert s == p + [x];
      DistinctKeepsFirst(p, x, d);
      if x in d then d
      else
        DistinctNew(p, x, d);
        d + [x]
  }

  /** The elements already collected keep their first occurrences when one
      more element arrives. */
  lemma DistinctKeepsFirst<T>(p: seq<T>, x: T, d: seq<T>)
    requires forall i :: 0 <= i < |d| ==> d[i] in p
    ensures forall i :: 0 <= i < |d| ==>
      d[i] in p + [x] && FirstIndex(p + [x], d[i]) == FirstIndex(p, d[i]) < |p|
  {
    var s := p + [x];
    assert s[..|p|] == p;
    forall i | 0 <= i < |d|
      ensures d[i] in s && FirstIndex(s, d[i]) == FirstIndex(p, d[i]) < |p|
    {
      FirstIndexPrefix(s, |p|, d[i]);
    }
  }

  /** A new element goes at the end and is first seen last. */
  lemma DistinctNew<T>(p: seq<T>, x: T, d: seq<T>)
    requires x !in d && NoDup(d)
    requires forall i :: 0 <= i < |p| ==> p[i] in d
    ensures NoDup(d + [x])
    ensures x in p + [x] && FirstIndex(p + [x], x) == |p|
  {
    var s, e := p + [x], d + [x];
    assert forall i :: 0 <= i < |d| ==> e[i] == d[i];
    assert forall j :: 0 <= j < |p| ==> s[j] == p[j] && s[j] != x;
    assert s[|p|] == x;
  }
}
