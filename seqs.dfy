/** `Array.prototype.filter` and `findIndex`, and the facts about them that the model relies on. */
module Seqs {
  import opened Wrappers

  /** `s.filter(keep)`: the elements of `s` that satisfy `keep`, in their original order. */
  function Filter<T>(s: seq<T>, keep: T -> bool): (r: seq<T>)
    ensures |r| <= |s|
    ensures forall x :: x in r ==> x in s && keep(x)
    ensures forall x :: x in s && keep(x) ==> x in r
  {
    if s == [] then [] else (if keep(s[0]) then [s[0]] else []) + Filter(s[1..], keep)
  }

  /** Filtering distributes over concatenation, so relative order is kept. */
  lemma {:induction false} FilterAppend<T>(a: seq<T>, b: seq<T>, keep: T -> bool)
    ensures Filter(a + b, keep) == Filter(a, keep) + Filter(b, keep)
    decreases |a|
  {
    if a == [] {
      assert a + b == b;
    } else {
      assert (a + b)[1..] == a[1..] + b;
      FilterAppend(a[1..], b, keep);
    }
  }

  /** Filtering a list that grew by one element at the end. */
  lemma FilterSnoc<T>(s: seq<T>, x: T, keep: T -> bool)
    ensures Filter(s + [x], keep) == Filter(s, keep) + (if keep(x) then [x] else [])
  {
    FilterAppend(s, [x], keep);
    assert [x][1..] == [];
  }

  /** A list all of whose elements pass the test is its own filtering. */
  lemma {:induction false} FilterAllKept<T>(s: seq<T>, keep: T -> bool)
    requires forall i :: 0 <= i < |s| ==> keep(s[i])
    ensures Filter(s, keep) == s
    decreases |s|
  {
    if s != [] {
      FilterAllKept(s[1..], keep);
      assert [s[0]] + s[1..] == s;
    }
  }

  /** `s.findIndex(p)` from position `from`, as an option: the first index whose element satisfies `p`. */
  function FindIndex<T>(s: seq<T>, p: T -> bool, from: nat := 0): (r: Option<nat>)
    requires from <= |s|
    decreases |s| - from
    ensures r.None? <==> forall i :: from <= i < |s| ==> !p(s[i])
    ensures r.Some? ==>
      && from <= r.value < |s| && p(s[r.value])
      && forall i :: from <= i < r.value ==> !p(s[i])
  {
    if from == |s| then None
    else if p(s[from]) then Some(from)
    else FindIndex(s, p, from + 1)
  }

  predicate Distinct<T(==)>(s: seq<T>) {
    forall i, j :: 0 <= i < j < |s| ==> s[i] != s[j]
  }

  /** Filtering keeps a list free of duplicates. */
  lemma {:induction false} FilterDistinct<T>(s: seq<T>, keep: T -> bool)
    requires Distinct(s)
    ensures Distinct(Filter(s, keep))
    decreases |s|
  {
    if s != [] {
      FilterDistinct(s[1..], keep);
      var rest := Filter(s[1..], keep);
      assert s[0] !in s[1..] by {
        forall k | 0 <= k < |s[1..]| ensures s[1..][k] != s[0] {
          assert s[1..][k] == s[k + 1];
        }
      }
      assert s[0] !in rest;
    }
  }

  /** `s.indexOf(x)` for an element that occurs: the place of its first occurrence. */
  function FirstIndex<T(==)>(s: seq<T>, x: T): (i: nat)
    requires x in s
    ensures i < |s| && s[i] == x
    ensures forall k :: 0 <= k < i ==> s[k] != x
  {
    if s[0] == x then 0 else 1 + FirstIndex(s[1..], x)
  }

  /** Past a different head, the first occurrence is one place further than in the tail. */
  lemma FirstIndexPastHead<T>(s: seq<T>, x: T)
    requires x in s && s[0] != x
    ensures x in s[1..] && FirstIndex(s, x) == 1 + FirstIndex(s[1..], x)
  {
  }

  /** Filtering keeps the order of first occurrences of the elements it keeps. */
  lemma {:induction false} FilterKeepsFirstOrder<T>(s: seq<T>, keep: T -> bool, y: T, z: T)
    requires y in Filter(s, keep) && z in Filter(s, keep)
    requires FirstIndex(Filter(s, keep), y) < FirstIndex(Filter(s, keep), z)
    ensures FirstIndex(s, y) < FirstIndex(s, z)
    decreases |s|
  {
    var f, tail := Filter(s, keep), Filter(s[1..], keep);
    if s[0] != y && s[0] != z {
      if keep(s[0]) {
        assert f == [s[0]] + tail;
        assert f[1..] == tail;
        FirstIndexPastHead(f, y);
        FirstIndexPastHead(f, z);
      } else {
        assert f == tail;
      }
      FilterKeepsFirstOrder(s[1..], keep, y, z);
      FirstIndexPastHead(s, y);
      FirstIndexPastHead(s, z);
    }
  }
}
