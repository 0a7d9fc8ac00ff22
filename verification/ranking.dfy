/** `sorted(items, key=..., reverse=True)`: Python's sort is stable, and with
    `reverse=True` it still keeps equal keys in their original order. The
    result is described by the order in which it lists the original
    positions; any stable sort produces the same order
    (`StableDescendingUnique`), so the model builds it by insertion. */
module Ranking {
  import opened Seqs

  /** Position `a` is listed before position `b`: a higher key first, and on
      equal keys the earlier position first. */
  predicate Before(keys: seq<real>, a: nat, b: nat)
    requires a < |keys| && b < |keys|
  {
    keys[a] > keys[b] || (keys[a] == keys[b] && a < b)
  }

  predicate InRange(keys: seq<real>, order: seq<nat>) {
    forall i :: 0 <= i < |order| ==> order[i] < |keys|
  }

  /** Every listed position comes before every later one. */
  predicate Ranked(keys: seq<real>, order: seq<nat>) {
    InRange(keys, order) &&
    forall i, j :: 0 <= i < j < |order| ==> Before(keys, order[i], order[j])
  }

  /** `order` is what a stable descending sort of `keys` lists: every
      position exactly once, in `Before` order. */
  predicate IsStableDescending(keys: seq<real>, order: seq<nat>) {
    |order| == |keys| && Ranked(keys, order) &&
    forall m :: 0 <= m < |keys| ==> m in order
  }

  /** Insertion of one more position into a ranked list. */
  function Insert(keys: seq<real>, order: seq<nat>, m: nat): (r: seq<nat>)
    requires Ranked(keys, order) && m < |keys| && m !in order
    ensures |r| == |order| + 1
    ensures forall x :: x in r <==> x in order || x == m
    ensures Ranked(keys, r)
    decreases |order|
  {
    if |order| == 0 then [m]
    else if Before(keys, m, order[0]) then
      var r := [m] + order;
      assert forall j :: 0 < j < |r| ==> r[j] == order[j - 1];
      r
    else
      var rest := Insert(keys, order[1..], m);
      assert forall j :: 0 <= j < |rest| ==> rest[j] in rest;
      assert forall j :: 0 <= j < |rest| ==> rest[j] in order[1..] || rest[j] == m;
      assert forall x :: x in order[1..] ==> x in order;
      var r := [order[0]] + rest;
      assert forall j :: 0 < j < |r| ==> r[j] == rest[j - 1];
      assert forall x :: x in order <==> x == order[0] || x in order[1..];
      r
  }

  /** The positions `0 .. n - 1`, ranked. */
  function SortPrefix(keys: seq<real>, n: nat): (r: seq<nat>)
    requires n <= |keys|
    ensures |r| == n
    ensures forall x :: x in r <==> 0 <= x < n
    ensures Ranked(keys, r)
  {
    if n == 0 then []
    else
      var prev := SortPrefix(keys, n - 1);
      var r := Insert(keys, prev, n - 1);
      assert forall x :: x in r <==> x in prev || x == n - 1;
      r
  }

  /** The order of a stable descending sort: keys never increase along it,
      and equal keys keep their original order. */
  function RankOrder(keys: seq<real>): (order: seq<nat>)
    ensures IsStableDescending(keys, order)
    ensures forall i, j :: 0 <= i < j < |order| ==> keys[order[i]] >= keys[order[j]]
    ensures forall i, j :: 0 <= i < j < |order| && keys[order[i]] == keys[order[j]] ==> order[i] < order[j]
  {
    SortPrefix(keys, |keys|)
  }

  /** There is only one stable descending order, so the insertion used here
      lists the same positions as the source's sort. */
  lemma StableDescendingUnique(keys: seq<real>, o1: seq<nat>, o2: seq<nat>)
    requires IsStableDescending(keys, o1) && IsStableDescending(keys, o2)
    ensures o1 == o2
  {
    forall k | 0 <= k < |o1|
      ensures o1[k] == o2[k]
    {
      SamePrefix(keys, o1, o2, k);
    }
  }

  lemma {:induction false} SamePrefix(keys: seq<real>, o1: seq<nat>, o2: seq<nat>, k: nat)
    requires IsStableDescending(keys, o1) && IsStableDescending(keys, o2)
    requires k < |o1|
    ensures forall i :: 0 <= i <= k ==> o1[i] == o2[i]
    decreases k
  {
    if k > 0 {
      SamePrefix(keys, o1, o2, k - 1);
    }
    var a, b := o1[k], o2[k];
    assert a < |keys| && b < |keys|;
    assert a in o2 && b in o1;
    var p :| 0 <= p < |o2| && o2[p] == a;
    var q :| 0 <= q < |o1| && o1[q] == b;
    assert p >= k by {
      assert forall i :: 0 <= i < k ==> o2[i] == o1[i] && o1[i] != a;
    }
    assert q >= k by {
      assert forall i :: 0 <= i < k ==> o1[i] == o2[i] && o2[i] != b;
    }
    assert forall j :: k < j < |o2| ==> Before(keys, b, o2[j]);
    assert forall j :: k < j < |o1| ==> Before(keys, a, o1[j]);
  }

  /** Listing `s` in a ranked order that covers every position is a
      permutation of `s`. */
  lemma RankOrderPermutes<T>(s: seq<T>, keys: seq<real>)
    requires |s| == |keys|
    ensures multiset(Gather(s, RankOrder(keys))) == multiset(s)
  {
    SortPrefixPermutes(s, keys, |keys|);
    assert s[..|s|] == s;
  }

  lemma {:induction false} SortPrefixPermutes<T>(s: seq<T>, keys: seq<real>, n: nat)
    requires |s| == |keys| && n <= |keys|
    ensures multiset(Gather(s, SortPrefix(keys, n))) == multiset(s[..n])
    decreases n
  {
    if n > 0 {
      var prev := SortPrefix(keys, n - 1);
      assert n - 1 !in prev;
      assert SortPrefix(keys, n) == Insert(keys, prev, n - 1);
      SortPrefixPermutes(s, keys, n - 1);
      InsertPermutes(s, keys, prev, n - 1);
      assert s[..n] == s[..n - 1] + [s[n - 1]];
      assert multiset(s[..n]) == multiset(s[..n - 1]) + multiset{s[n - 1]};
    }
  }

  lemma {:induction false} InsertPermutes<T>(s: seq<T>, keys: seq<real>, order: seq<nat>, m: nat)
    requires |s| == |keys|
    requires Ranked(keys, order) && m < |keys| && m !in order
    ensures multiset(Gather(s, Insert(keys, order, m))) == multiset(Gather(s, order)) + multiset{s[m]}
    decreases |order|
  {
    if |order| == 0 {
      assert Gather(s, [m]) == [s[m]];
    } else if Before(keys, m, order[0]) {
      GatherCons(s, m, order);
    } else {
      var rest := Insert(keys, order[1..], m);
      InsertPermutes(s, keys, order[1..], m);
      GatherCons(s, order[0], rest);
      GatherCons(s, order[0], order[1..]);
      assert [order[0]] + order[1..] == order;
    }
  }

  lemma GatherCons<T>(s: seq<T>, a: nat, order: seq<nat>)
    requires a < |s| && forall i :: 0 <= i < |order| ==> order[i] < |s|
    ensures Gather(s, [a] + order) == [s[a]] + Gather(s, order)
  {
  }
}
