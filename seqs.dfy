/** The list primitives the in-memory store is built from: `Array.prototype.filter`
    and `Array.prototype.find`, over Dafny sequences, with the facts about them that
    the store and the scheduling engine rely on. */
module Seqs {
  import opened Wrappers

  /** The elements of `s` satisfying `p`, in their original order. */
  function Filter<T>(s: seq<T>, p: T -> bool): (r: seq<T>)
    ensures |r| <= |s|
    ensures forall i :: 0 <= i < |r| ==> p(r[i])
    ensures forall i :: 0 <= i < |r| ==> r[i] in s
  {
    if s == [] then []
    else if p(s[0]) then [s[0]] + Filter(s[1..], p)
    else Filter(s[1..], p)
  }

  /** The index of the first element of `s` satisfying `p`, if there is one. */
  function FirstIndex<T>(s: seq<T>, p: T -> bool): (r: Option<nat>)
    ensures r.Some? ==> r.value < |s| && p(s[r.value])
    ensures r.Some? ==> forall j :: 0 <= j < r.value ==> !p(s[j])
    ensures r.None? ==> forall i :: 0 <= i < |s| ==> !p(s[i])
  {
    if s == [] then None
    else if p(s[0]) then Some(0)
    else match FirstIndex(s[1..], p)
      case None => None
      case Some(i) => Some(i + 1)
  }

  /** The first element of `s` satisfying `p` (`find`), or None (`undefined`). */
  function First<T>(s: seq<T>, p: T -> bool): (r: Option<T>)
    ensures r.Some? ==> exists i :: 0 <= i < |s| && s[i] == r.value && p(s[i]) &&
                                     forall j :: 0 <= j < i ==> !p(s[j])
    ensures r.None? <==> forall i :: 0 <= i < |s| ==> !p(s[i])
  {
    match FirstIndex(s, p)
    case None => None
    case Some(i) => Some(s[i])
  }

  /** `r` spells out the elements of `s` at the positions `pos`, and the positions
      strictly increase: `r` keeps the order its elements have in `s`. */
  ghost predicate Picks<T>(s: seq<T>, pos: seq<nat>, r: seq<T>) {
    && |pos| == |r|
    && (forall k :: 0 <= k < |pos| ==> pos[k] < |s| && r[k] == s[pos[k]])
    && (forall k, l :: 0 <= k < l < |pos| ==> pos[k] < pos[l])
  }

  /** The positions from `i` on whose elements pass `p`, in increasing order; the
      elements at those positions are exactly what `Filter` keeps of `s[i..]`. */
  function PositionsFrom<T>(s: seq<T>, p: T -> bool, i: nat): (pos: seq<nat>)
    requires i <= |s|
    decreases |s| - i
    ensures forall k :: 0 <= k < |pos| ==> i <= pos[k]
    ensures forall j :: i <= j < |s| ==> (j in pos <==> p(s[j]))
    ensures Picks(s, pos, Filter(s[i..], p))
  {
    if i == |s| then []
    else
      var rest := PositionsFrom(s, p, i + 1);
      assert s[i..][1..] == s[i + 1..];
      if p(s[i]) then
        PicksCons(s, i, rest, Filter(s[i + 1..], p));
        [i] + rest
      else rest
  }

  /** An earlier position may be put in front of a picking. */
  lemma PicksCons<T>(s: seq<T>, i: nat, pos: seq<nat>, r: seq<T>)
    requires i < |s| && Picks(s, pos, r)
    requires forall k :: 0 <= k < |pos| ==> i < pos[k]
    ensures Picks(s, [i] + pos, [s[i]] + r)
  {
  }

  /** The positions of `s` whose elements `Filter` keeps. */
  function Positions<T>(s: seq<T>, p: T -> bool): (pos: seq<nat>)
    ensures forall j :: 0 <= j < |s| ==> (j in pos <==> p(s[j]))
    ensures Picks(s, pos, Filter(s, p))
  {
    assert s[0..] == s;
    PositionsFrom(s, p, 0)
  }

  /** The negation of a test. */
  function Not<T>(p: T -> bool): T -> bool {
    x => !p(x)
  }

  /** The test "the key differs from `k`". */
  function KeyIsNot<T, K(==)>(key: T -> K, k: K): T -> bool {
    x => key(x) != k
  }

  /** No two elements of `s` share a key. */
  ghost predicate Injective<T, K>(s: seq<T>, key: T -> K) {
    forall i, j :: 0 <= i < j < |s| ==> key(s[i]) != key(s[j])
  }

  lemma {:induction false} FilterMembership<T>(s: seq<T>, p: T -> bool, x: T)
    ensures x in Filter(s, p) <==> x in s && p(x)
  {
    if s != [] {
      FilterMembership(s[1..], p, x);
      assert s == [s[0]] + s[1..];
    }
  }

  /** Filtering a concatenation filters each part, in order. */
  lemma {:induction false} FilterConcat<T>(a: seq<T>, b: seq<T>, p: T -> bool)
    ensures Filter(a + b, p) == Filter(a, p) + Filter(b, p)
  {
    if a != [] {
      assert (a + b)[1..] == a[1..] + b;
      FilterConcat(a[1..], b, p);
    } else {
      assert a + b == b;
    }
  }

  lemma {:induction false} FilterIdempotent<T>(s: seq<T>, p: T -> bool)
    ensures Filter(Filter(s, p), p) == Filter(s, p)
  {
    if s != [] {
      FilterIdempotent(s[1..], p);
      if p(s[0]) {
        assert ([s[0]] + Filter(s[1..], p))[1..] == Filter(s[1..], p);
      }
    }
  }

  /** Every element satisfies exactly one of `p` and its negation. */
  lemma {:induction false} FilterPartitionLength<T>(s: seq<T>, p: T -> bool)
    ensures |Filter(s, p)| + |Filter(s, Not(p))| == |s|
  {
    if s != [] {
      FilterPartitionLength(s[1..], p);
    }
  }

  lemma {:induction false} FilterKeepsAll<T>(s: seq<T>, p: T -> bool)
    requires forall i :: 0 <= i < |s| ==> p(s[i])
    ensures Filter(s, p) == s
  {
    if s != [] {
      FilterKeepsAll(s[1..], p);
      assert s == [s[0]] + s[1..];
    }
  }

  lemma {:induction false} FilterKeepsNone<T>(s: seq<T>, p: T -> bool)
    requires forall i :: 0 <= i < |s| ==> !p(s[i])
    ensures Filter(s, p) == []
  {
    if s != [] {
      FilterKeepsNone(s[1..], p);
    }
  }

  /** Two tests that agree on every element of `s` select the same elements. */
  lemma {:induction false} FilterCongruent<T>(s: seq<T>, p: T -> bool, q: T -> bool)
    requires forall i :: 0 <= i < |s| ==> p(s[i]) == q(s[i])
    ensures Filter(s, p) == Filter(s, q)
  {
    if s != [] {
      FilterCongruent(s[1..], p, q);
    }
  }

  /** Two tests that agree on every element of `s` find the same element: the
      contract of `First` determines its result. */
  lemma FirstCongruent<T>(s: seq<T>, p: T -> bool, q: T -> bool)
    requires forall i :: 0 <= i < |s| ==> p(s[i]) == q(s[i])
    ensures First(s, p) == First(s, q)
  {
  }

  /** Filtering keeps keys distinct: it only drops elements. */
  lemma {:induction false} FilterInjective<T, K>(s: seq<T>, p: T -> bool, key: T -> K)
    requires Injective(s, key)
    ensures Injective(Filter(s, p), key)
  {
    if s != [] {
      FilterInjective(s[1..], p, key);
      if p(s[0]) {
        var r := Filter(s, p);
        forall j | 0 < j < |r| ensures key(r[0]) != key(r[j]) {
          assert r[j] in Filter(s[1..], p);
          FilterMembership(s[1..], p, r[j]);
          var k :| 0 <= k < |s[1..]| && s[1..][k] == r[j];
          assert s[k + 1] == r[j];
        }
      }
    }
  }

  /** When exactly one element has key `k`, dropping the elements with key `k`
      shortens the sequence by one. */
  lemma {:induction false} FilterDropsOne<T, K>(s: seq<T>, key: T -> K, k: K, i: nat)
    requires Injective(s, key)
    requires i < |s| && key(s[i]) == k
    ensures |Filter(s, KeyIsNot(key, k))| == |s| - 1
  {
    if i == 0 {
      FilterKeepsAll(s[1..], KeyIsNot(key, k));
    } else {
      FilterDropsOne(s[1..], key, k, i - 1);
    }
  }
}
