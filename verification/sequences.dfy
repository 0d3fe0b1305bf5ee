/** Generic sequence algorithms the stores and the UI use: stable sorting by a
    numeric key (the store's `sort({field: ±1})`), order-preserving filtering
    (`Array.prototype.filter`) and distinctness. */
module Sequences {

  /** Keys never decrease from left to right. */
  predicate SortedBy<T>(s: seq<T>, key: T -> int) {
    forall i, j :: 0 <= i < j < |s| ==> key(s[i]) <= key(s[j])
  }

  /** No element occurs twice. */
  predicate Distinct<T(==)>(s: seq<T>) {
    forall i, j :: 0 <= i < j < |s| ==> s[i] != s[j]
  }

  /** `a` is `b` with some elements dropped and the rest kept in order. */
  predicate SubsequenceOf<T(==)>(a: seq<T>, b: seq<T>)
    decreases |b|
  {
    if |a| == 0 then true
    else if |b| == 0 then false
    else (a[0] == b[0] && SubsequenceOf(a[1..], b[1..])) || SubsequenceOf(a, b[1..])
  }

  // ---------------------------------------------------------------------------
  // Sorting
  // ---------------------------------------------------------------------------

  /** Inserts `x` in front of the first element whose key is not smaller. */
  function Insert<T(==)>(x: T, s: seq<T>, key: T -> int): (r: seq<T>)
    ensures multiset(r) == multiset(s) + multiset{x}
    ensures forall y :: y in r ==> y == x || y in s
    ensures SortedBy(s, key) ==> SortedBy(r, key)
  {
    if |s| == 0 then [x]
    else if key(x) <= key(s[0]) then [x] + s
    else
      var t := Insert(x, s[1..], key);
      assert s == [s[0]] + s[1..];
      var r := [s[0]] + t;
      assert SortedBy(s, key) ==> SortedBy(r, key) by {
        if SortedBy(s, key) {
          forall i, j | 0 <= i < j < |r|
            ensures key(r[i]) <= key(r[j])
          {
            assert r[j] == t[j - 1];
            if i == 0 {
              assert r[j] in t;
              if r[j] != x {
                var k :| 0 <= k < |s[1..]| && s[1..][k] == r[j];
                assert s[k + 1] == r[j];
              }
            } else {
              assert r[i] == t[i - 1];
            }
          }
        }
      }
      r
  }

  /** Insertion sort: a permutation of `s` with non-decreasing keys. */
  function Sort<T(==)>(s: seq<T>, key: T -> int): (r: seq<T>)
    ensures multiset(r) == multiset(s)
    ensures SortedBy(r, key)
  {
    if |s| == 0 then []
    else
      assert s == [s[0]] + s[1..];
      Insert(s[0], Sort(s[1..], key), key)
  }

  // ---------------------------------------------------------------------------
  // Distinctness survives permutation
  // ---------------------------------------------------------------------------

  lemma {:induction false} DistinctCountAtMostOne<T>(s: seq<T>, x: T)
    requires Distinct(s)
    ensures multiset(s)[x] <= 1
  {
    if |s| > 0 {
      var rest := s[1..];
      assert s == [s[0]] + rest;
      assert Distinct(rest) by {
        forall i, j | 0 <= i < j < |rest|
          ensures rest[i] != rest[j]
        {
          assert rest[i] == s[i + 1] && rest[j] == s[j + 1];
        }
      }
      DistinctCountAtMostOne(rest, x);
      if s[0] == x {
        forall k | 0 <= k < |rest|
          ensures rest[k] != x
        {
          assert rest[k] == s[k + 1];
        }
        assert x !in rest;
      }
    }
  }

  lemma RepeatedCountAtLeastTwo<T>(s: seq<T>, i: nat, j: nat)
    requires i < j < |s| && s[i] == s[j]
    ensures multiset(s)[s[i]] >= 2
  {
    var x := s[i];
    assert s == s[..j] + s[j..];
    assert s[..j][i] == x;
    assert s[j..][0] == x;
    assert multiset(s[..j])[x] >= 1;
    assert multiset(s[j..])[x] >= 1;
  }

  /** A permutation of a list without repetitions has no repetitions. */
  lemma DistinctPermutation<T>(a: seq<T>, b: seq<T>)
    requires multiset(a) == multiset(b)
    requires Distinct(a)
    ensures Distinct(b)
  {
    forall i, j | 0 <= i < j < |b|
      ensures b[i] != b[j]
    {
      if b[i] == b[j] {
        RepeatedCountAtLeastTwo(b, i, j);
        DistinctCountAtMostOne(a, b[i]);
        assert false;
      }
    }
  }

  // ---------------------------------------------------------------------------
  // Filtering
  // ---------------------------------------------------------------------------

  /** `s.filter(p)`: the elements satisfying `p`, in their original order and
      with their original multiplicities. */
  function Filter<T(==,!new)>(s: seq<T>, p: T -> bool): (r: seq<T>)
    ensures SubsequenceOf(r, s)
    ensures forall x :: multiset(r)[x] == (if p(x) then multiset(s)[x] else 0)
    ensures forall x :: x in r <==> x in s && p(x)
  {
    if |s| == 0 then []
    else
      var t := Filter(s[1..], p);
      assert s == [s[0]] + s[1..];
      if p(s[0]) then
        var r := [s[0]] + t;
        assert r[0] == s[0] && r[1..] == t;
        r
      else t
  }

  // ---------------------------------------------------------------------------
  // Scanning a store keyed by numeric ids
  // ---------------------------------------------------------------------------

  /** Different keys hold different values. */
  predicate Injective<T(==)>(m: map<nat, T>) {
    forall k1, k2 :: k1 in m && k2 in m && m[k1] == m[k2] ==> k1 == k2
  }

  /** The values stored under keys below `n` that satisfy `keep`, in key
      order, each once. */
  function SelectBelow<T(==,!new)>(m: map<nat, T>, n: nat, keep: T -> bool): (r: seq<T>)
    requires Injective(m)
    ensures Distinct(r)
    ensures forall x :: x in r <==> exists k :: k < n && k in m && m[k] == x && keep(x)
  {
    if n == 0 then []
    else
      var prev := SelectBelow(m, n - 1, keep);
      if n - 1 in m && keep(m[n - 1]) then
        var x := m[n - 1];
        assert x !in prev;
        prev + [x]
      else prev
  }

  /** The values of `m` that satisfy `keep`, each once, ordered by `key`. */
  function SelectSorted<T(==,!new)>(m: map<nat, T>, bound: nat, keep: T -> bool, key: T -> int): (r: seq<T>)
    requires Injective(m)
    requires forall k :: k in m ==> k < bound
    ensures Distinct(r)
    ensures SortedBy(r, key)
    ensures forall x :: x in r <==> x in m.Values && keep(x)
  {
    var found := SelectBelow(m, bound, keep);
    var r := Sort(found, key);
    DistinctPermutation(found, r);
    assert forall x :: x in r <==> x in found by {
      forall x
        ensures x in r <==> x in found
      {
        assert x in r <==> multiset(r)[x] > 0;
        assert x in found <==> multiset(found)[x] > 0;
      }
    }
    r
  }
}
