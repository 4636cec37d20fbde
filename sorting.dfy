/** `sort.Ints`, the library sort the provider calls on the instance ids, and the facts about
    multisets the ordering proofs use. The library's algorithm is not part of this model: the
    sort is specified by an insertion sort, and `SortedPermutationUnique` shows that every
    algorithm that sorts a permutation of its input returns the same sequence. */
module Sorting {

  predicate SortedInts(s: seq<int>)
  {
    forall i, j :: 0 <= i < j < |s| ==> s[i] <= s[j]
  }

  function Insert(x: int, s: seq<int>): seq<int>
    decreases |s|
  {
    if s == [] || x <= s[0] then [x] + s else [s[0]] + Insert(x, s[1..])
  }

  /** The ids in non-decreasing order. */
  function SortInts(s: seq<int>): (sorted: seq<int>)
    ensures multiset(sorted) == multiset(s)
    decreases |s|
  {
    if s == [] then []
    else
      InsertPermutation(s[0], SortInts(s[1..]));
      assert s == [s[0]] + s[1..];
      Insert(s[0], SortInts(s[1..]))
  }

  lemma {:induction false} InsertPermutation(x: int, s: seq<int>)
    ensures multiset(Insert(x, s)) == multiset{x} + multiset(s)
    decreases |s|
  {
    if s != [] && s[0] < x {
      InsertPermutation(x, s[1..]);
      assert s == [s[0]] + s[1..];
      assert Insert(x, s) == [s[0]] + Insert(x, s[1..]);
    }
  }

  lemma {:induction false} InsertCorrect(x: int, s: seq<int>)
    requires SortedInts(s)
    ensures SortedInts(Insert(x, s))
    ensures multiset(Insert(x, s)) == multiset{x} + multiset(s)
    decreases |s|
  {
    InsertPermutation(x, s);
    if s != [] && s[0] < x {
      var t := Insert(x, s[1..]);
      InsertCorrect(x, s[1..]);
      assert multiset(t) == multiset{x} + multiset(s[1..]);
      forall i | 0 <= i < |t|
        ensures s[0] <= t[i]
      {
        assert t[i] in multiset(t);
        if t[i] != x {
          assert t[i] in multiset(s[1..]);
        }
      }
      assert Insert(x, s) == [s[0]] + t;
    }
  }

  /** The sorted sequence is ordered and holds the same ids, each as often as the input. */
  lemma {:induction false} SortIntsCorrect(s: seq<int>)
    ensures SortedInts(SortInts(s))
    ensures multiset(SortInts(s)) == multiset(s)
    decreases |s|
  {
    if s != [] {
      SortIntsCorrect(s[1..]);
      InsertCorrect(s[0], SortInts(s[1..]));
      assert s == [s[0]] + s[1..];
    }
  }

  /** There is only one sorted arrangement of a multiset of integers. */
  lemma {:induction false} SortedPermutationUnique(a: seq<int>, b: seq<int>)
    requires SortedInts(a) && SortedInts(b)
    requires multiset(a) == multiset(b)
    ensures a == b
    decreases |a|
  {
    assert |a| == |multiset(a)| == |multiset(b)| == |b|;
    if a != [] {
      assert a[0] in multiset(b) && b[0] in multiset(a);
      assert a[0] == b[0];
      assert a == [a[0]] + a[1..] && b == [b[0]] + b[1..];
      assert multiset(a) == multiset{a[0]} + multiset(a[1..]);
      assert multiset(b) == multiset{b[0]} + multiset(b[1..]);
      assert multiset(a[1..]) == multiset(a) - multiset{a[0]};
      assert multiset(b[1..]) == multiset(b) - multiset{b[0]};
      SortedPermutationUnique(a[1..], b[1..]);
    }
  }

  /** Any sort that returns a sorted permutation of the ids returns `SortInts`' result. */
  lemma SortIntsIsTheSort(s: seq<int>, sorted: seq<int>)
    requires SortedInts(sorted) && multiset(sorted) == multiset(s)
    ensures sorted == SortInts(s)
  {
    SortIntsCorrect(s);
    SortedPermutationUnique(sorted, SortInts(s));
  }

  // ---------------------------------------------------------------------------
  // Counting occurrences

  /** A value at two positions occurs at least twice. */
  lemma TwoPositionsCount<T>(s: seq<T>, p: int, q: int)
    requires 0 <= p < q < |s| && s[p] == s[q]
    ensures multiset(s)[s[p]] >= 2
  {
    assert s == s[..q] + [s[q]] + s[q + 1..];
    assert s[p] in multiset(s[..q]);
  }

  /** A value that occurs at least twice sits at two positions. */
  lemma {:induction false} CountTwoPositions<T>(s: seq<T>, v: T)
    requires multiset(s)[v] >= 2
    ensures exists p, q :: 0 <= p < q < |s| && s[p] == v && s[q] == v
    decreases |s|
  {
    var n := |s| - 1;
    assert s == s[..n] + [s[n]];
    if s[n] == v {
      assert v in multiset(s[..n]);
      var p :| 0 <= p < n && s[..n][p] == v;
      assert s[p] == v && s[n] == v;
    } else {
      CountTwoPositions(s[..n], v);
      var p, q :| 0 <= p < q < n && s[..n][p] == v && s[..n][q] == v;
      assert s[p] == v && s[q] == v;
    }
  }
}
