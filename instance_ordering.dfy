/** How the provider turns the platform's unordered instance listing into a list ordered by
    instance id (`flattenInstances`), and which custom variables it writes back per position
    in that list (`flattenInstancesCustomVariables`). The position is the `instance_index`
    users write in `instance_custom_variables`. */
module InstanceOrdering {
  import opened Values
  import opened CustomVariables
  import opened Sorting

  /** The fields of an SDK instance the ordering and the custom variables look at. */
  datatype Instance = Instance(id: int, instanceLabel: string, customVariables: CustomVariables)

  /** One element of `instance_custom_variables`. */
  datatype InstanceCustomVariables = InstanceCustomVariables(instanceIndex: int, customVariables: map<string, string>)

  function Ids(instances: seq<Instance>): seq<int>
  {
    seq(|instances|, i requires 0 <= i < |instances| => instances[i].id)
  }

  predicate DistinctIds(instances: seq<Instance>)
  {
    forall i, j :: 0 <= i < j < |instances| ==> instances[i].id != instances[j].id
  }

  /** No later instance of the listing has the id of the one at `p`. */
  predicate IsLastWithId(listing: seq<Instance>, p: int)
  {
    0 <= p < |listing| && forall q :: p < q < |listing| ==> listing[q].id != listing[p].id
  }

  /** `instanceMap[v.InstanceID] = v` over the listing: an instance overwrites an earlier one
      with the same id. */
  function IndexById(listing: seq<Instance>): map<int, Instance>
    decreases |listing|
  {
    if listing == [] then map[]
    else
      var last := listing[|listing| - 1];
      IndexById(listing[..|listing| - 1])[last.id := last]
  }

  /** The index holds every id of the listing, and for each id the last instance carrying it. */
  lemma {:induction false} IndexByIdHoldsLast(listing: seq<Instance>)
    ensures forall p :: 0 <= p < |listing| ==> listing[p].id in IndexById(listing)
    ensures forall k :: k in IndexById(listing) ==>
      exists p :: IsLastWithId(listing, p) && listing[p].id == k && IndexById(listing)[k] == listing[p]
    decreases |listing|
  {
    if listing != [] {
      var n := |listing| - 1;
      var init := listing[..n];
      IndexByIdHoldsLast(init);
      forall k | k in IndexById(listing)
        ensures exists p :: IsLastWithId(listing, p) && listing[p].id == k && IndexById(listing)[k] == listing[p]
      {
        if k == listing[n].id {
          assert IsLastWithId(listing, n);
        } else {
          var p :| IsLastWithId(init, p) && init[p].id == k && IndexById(init)[k] == init[p];
          assert IsLastWithId(listing, p);
        }
      }
    }
  }

  /** With distinct ids, the index maps each instance's id to that instance. */
  lemma IndexByIdOfDistinct(listing: seq<Instance>, p: int)
    requires DistinctIds(listing) && 0 <= p < |listing|
    ensures listing[p].id in IndexById(listing) && IndexById(listing)[listing[p].id] == listing[p]
  {
    IndexByIdHoldsLast(listing);
    var k := listing[p].id;
    var p' :| IsLastWithId(listing, p') && listing[p'].id == k && IndexById(listing)[k] == listing[p'];
    if p' != p {
      assert false;
    }
  }

  /** The instances stored under `keys`, in the order of `keys`. */
  function Lookup(index: map<int, Instance>, keys: seq<int>): seq<Instance>
    requires forall i :: 0 <= i < |keys| ==> keys[i] in index
  {
    seq(|keys|, i requires 0 <= i < |keys| => index[keys[i]])
  }

  lemma LookupConcat(index: map<int, Instance>, a: seq<int>, b: seq<int>)
    requires forall i :: 0 <= i < |a| ==> a[i] in index
    requires forall i :: 0 <= i < |b| ==> b[i] in index
    ensures forall i :: 0 <= i < |a + b| ==> (a + b)[i] in index
    ensures Lookup(index, a + b) == Lookup(index, a) + Lookup(index, b)
  {
  }

  lemma RemoveAt<T>(s: seq<T>, j: int)
    requires 0 <= j < |s|
    ensures s == s[..j] + [s[j]] + s[j + 1..]
    ensures multiset(s[..j] + s[j + 1..]) == multiset(s) - multiset{s[j]}
  {
    assert s == s[..j] + [s[j]] + s[j + 1..];
    assert multiset(s) == multiset(s[..j]) + multiset{s[j]} + multiset(s[j + 1..]);
  }

  lemma PermutationKeysIndexed(index: map<int, Instance>, a: seq<int>, b: seq<int>)
    requires forall i :: 0 <= i < |a| ==> a[i] in index
    requires multiset(a) == multiset(b)
    ensures forall i :: 0 <= i < |b| ==> b[i] in index
  {
    forall i | 0 <= i < |b|
      ensures b[i] in index
    {
      assert b[i] in multiset(a);
    }
  }

  /** Looking up a key sequence is looking up one of its keys and the keys around it. */
  lemma LookupSplit(index: map<int, Instance>, b: seq<int>, j: int)
    requires forall i :: 0 <= i < |b| ==> b[i] in index
    requires 0 <= j < |b|
    ensures multiset(Lookup(index, b)) == multiset{index[b[j]]} + multiset(Lookup(index, b[..j] + b[j + 1..]))
  {
    var front, back := b[..j], b[j + 1..];
    assert b == front + [b[j]] + back;
    LookupConcat(index, front, [b[j]]);
    LookupConcat(index, front + [b[j]], back);
    LookupConcat(index, front, back);
    assert Lookup(index, b) == Lookup(index, front) + [index[b[j]]] + Lookup(index, back);
  }

  /** Looking up two arrangements of the same keys gives two arrangements of the same instances. */
  lemma {:induction false} LookupPermutation(index: map<int, Instance>, a: seq<int>, b: seq<int>)
    requires forall i :: 0 <= i < |a| ==> a[i] in index
    requires multiset(a) == multiset(b)
    ensures forall i :: 0 <= i < |b| ==> b[i] in index
    ensures multiset(Lookup(index, a)) == multiset(Lookup(index, b))
    decreases |a|
  {
    PermutationKeysIndexed(index, a, b);
    if a != [] {
      var j := IndexOfKey(a[0], b, a);
      var a', b' := a[..0] + a[1..], b[..j] + b[j + 1..];
      RemoveAt(a, 0);
      RemoveAt(b, j);
      assert multiset(a') == multiset(b');
      LookupPermutation(index, a', b');
      LookupSplit(index, a, 0);
      LookupSplit(index, b, j);
    }
  }

  /** A key of one arrangement occurs somewhere in the other. */
  lemma IndexOfKey(x: int, b: seq<int>, a: seq<int>) returns (j: int)
    requires multiset(a) == multiset(b) && x in a
    ensures 0 <= j < |b| && b[j] == x
  {
    assert x in multiset(b);
    j :| 0 <= j < |b| && b[j] == x;
  }

  lemma SortedKeysAreIndexed(listing: seq<Instance>)
    ensures |SortInts(Ids(listing))| == |listing|
    ensures forall i :: 0 <= i < |listing| ==> SortInts(Ids(listing))[i] in IndexById(listing)
    ensures forall k :: k in IndexById(listing) ==> IndexById(listing)[k] in listing
    ensures forall i :: 0 <= i < |listing| ==> IndexById(listing)[SortInts(Ids(listing))[i]] in listing
    ensures forall k :: k in IndexById(listing) ==> IndexById(listing)[k].id == k
  {
    SortIntsCorrect(Ids(listing));
    IndexByIdHoldsLast(listing);
    var keys := SortInts(Ids(listing));
    assert |keys| == |multiset(keys)| == |multiset(Ids(listing))| == |listing|;
    forall i | 0 <= i < |keys|
      ensures keys[i] in IndexById(listing)
    {
      assert keys[i] in multiset(Ids(listing));
    }
  }

  /** The listing ordered by instance id: each id of the sorted key list replaced by the
      instance the index keeps for it. */
  function SortedInstances(listing: seq<Instance>): (instances: seq<Instance>)
    ensures |instances| == |listing|
    ensures forall i :: 0 <= i < |instances| ==> instances[i] in listing
  {
    SortedKeysAreIndexed(listing);
    Lookup(IndexById(listing), SortInts(Ids(listing)))
  }

  /** The two loops and the sort of `flattenInstances` (the `json.Marshal` of the result is
      not modelled). `listing` is the order in which Go's `range` visits the SDK's map. */
  method SortInstancesById(listing: seq<Instance>) returns (instances: seq<Instance>)
    ensures instances == SortedInstances(listing)
  {
    var instanceMap: map<int, Instance> := map[];
    var keys: seq<int> := [];
    for i := 0 to |listing|
      invariant instanceMap == IndexById(listing[..i])
      invariant keys == Ids(listing[..i])
    {
      var v := listing[i];
      assert listing[..i + 1][..i] == listing[..i];
      instanceMap := instanceMap[v.id := v];
      keys := keys + [v.id];
    }
    assert listing[..|listing|] == listing;
    keys := SortInts(keys);
    SortedKeysAreIndexed(listing);
    instances := [];
    for j := 0 to |keys|
      invariant instances == Lookup(instanceMap, keys[..j])
    {
      instances := instances + [instanceMap[keys[j]]];
    }
    assert keys[..|keys|] == keys;
  }

  // ---------------------------------------------------------------------------
  // Properties of the ordering

  /** One instance per listed instance, in non-decreasing id order, carrying the listing's ids
      with their multiplicities. */
  lemma SortedInstancesOrder(listing: seq<Instance>)
    ensures |SortedInstances(listing)| == |listing|
    ensures SortedInts(Ids(SortedInstances(listing)))
    ensures multiset(Ids(SortedInstances(listing))) == multiset(Ids(listing))
  {
    SortedKeysAreIndexed(listing);
    SortIntsCorrect(Ids(listing));
    var keys := SortInts(Ids(listing));
    forall i | 0 <= i < |listing|
      ensures Ids(SortedInstances(listing))[i] == keys[i]
    {
      assert SortedInstances(listing)[i] == IndexById(listing)[keys[i]];
    }
    assert Ids(SortedInstances(listing)) == keys;
  }

  /** Each position holds the last instance of the listing with that position's id. */
  lemma SortedInstancesPickLast(listing: seq<Instance>, i: int)
    requires 0 <= i < |listing|
    ensures exists p :: IsLastWithId(listing, p) && SortedInstances(listing)[i] == listing[p]
  {
    SortedKeysAreIndexed(listing);
    IndexByIdHoldsLast(listing);
    var k := SortInts(Ids(listing))[i];
    var p :| IsLastWithId(listing, p) && listing[p].id == k && IndexById(listing)[k] == listing[p];
    assert SortedInstances(listing)[i] == listing[p];
  }

  /** With distinct ids the ordered list is a permutation of the listing. */
  lemma SortedInstancesPermutation(listing: seq<Instance>)
    requires DistinctIds(listing)
    ensures multiset(SortedInstances(listing)) == multiset(listing)
  {
    var index := IndexById(listing);
    SortedKeysAreIndexed(listing);
    SortIntsCorrect(Ids(listing));
    LookupPermutation(index, SortInts(Ids(listing)), Ids(listing));
    forall p | 0 <= p < |listing|
      ensures Lookup(index, Ids(listing))[p] == listing[p]
    {
      IndexByIdOfDistinct(listing, p);
    }
    assert Lookup(index, Ids(listing)) == listing;
  }

  /** When two instances share an id, the last one of them takes both their places. */
  lemma SharedIdRepeatsLast(listing: seq<Instance>, p: int, q: int)
    requires 0 <= p < q < |listing| && listing[p].id == listing[q].id
    requires IsLastWithId(listing, q)
    ensures multiset(SortedInstances(listing))[listing[q]] >= 2
  {
    var r := SortedInstances(listing);
    var k := listing[q].id;
    SortedInstancesOrder(listing);
    TwoPositionsCount(Ids(listing), p, q);
    assert multiset(Ids(r))[k] >= 2;
    CountTwoPositions(Ids(r), k);
    var i, j :| 0 <= i < j < |r| && Ids(r)[i] == k && Ids(r)[j] == k;
    forall x | x in [i, j]
      ensures r[x] == listing[q]
    {
      SortedInstancesPickLast(listing, x);
      var p' :| IsLastWithId(listing, p') && r[x] == listing[p'];
      if p' != q {
        assert false;
      }
    }
    TwoPositionsCount(r, i, j);
  }

  /** Two positions of a rearrangement that share an id come from two positions of the
      original that share it. */
  lemma SharedIdWitness(a: seq<Instance>, b: seq<Instance>, i: int, j: int)
    requires multiset(a) == multiset(b)
    requires 0 <= i < j < |b| && b[i].id == b[j].id
    ensures !DistinctIds(a)
  {
    if b[i] == b[j] {
      TwoPositionsCount(b, i, j);
      CountTwoPositions(a, b[i]);
      var p, q :| 0 <= p < q < |a| && a[p] == b[i] && a[q] == b[i];
      assert a[p].id == a[q].id;
    } else {
      assert b[i] in multiset(a) && b[j] in multiset(a);
      var p :| 0 <= p < |a| && a[p] == b[i];
      var q :| 0 <= q < |a| && a[q] == b[j];
      if p < q {
        assert a[p].id == a[q].id;
      } else {
        assert a[q].id == a[p].id;
      }
    }
  }

  /** Distinct ids stay distinct under any rearrangement. */
  lemma DistinctIdsPermutation(a: seq<Instance>, b: seq<Instance>)
    requires DistinctIds(a) && multiset(a) == multiset(b)
    ensures DistinctIds(b)
  {
    forall i, j | 0 <= i < j < |b|
      ensures b[i].id != b[j].id
    {
      if b[i].id == b[j].id {
        SharedIdWitness(a, b, i, j);
        assert false;
      }
    }
  }

  predicate StrictlyOrdered(a: seq<Instance>)
  {
    forall i, j :: 0 <= i < j < |a| ==> a[i].id < a[j].id
  }

  lemma SameFirst(a: seq<Instance>, b: seq<Instance>)
    requires StrictlyOrdered(a) && StrictlyOrdered(b)
    requires multiset(a) == multiset(b) && a != []
    ensures b != [] && a[0] == b[0]
  {
    assert a[0] in multiset(b);
    assert b != [];
    assert b[0] in multiset(a);
    var j :| 0 <= j < |b| && b[j] == a[0];
    var i :| 0 <= i < |a| && a[i] == b[0];
    assert a[0].id <= a[i].id;
    assert b[0].id <= b[j].id;
    if j != 0 {
      assert false;
    }
  }

  /** Two lists in strictly increasing id order holding the same instances are equal. */
  lemma {:induction false} StrictlyOrderedUnique(a: seq<Instance>, b: seq<Instance>)
    requires StrictlyOrdered(a) && StrictlyOrdered(b)
    requires multiset(a) == multiset(b)
    ensures a == b
    decreases |a|
  {
    assert |a| == |multiset(a)| == |multiset(b)| == |b|;
    if a != [] {
      SameFirst(a, b);
      assert a == [a[0]] + a[1..] && b == [b[0]] + b[1..];
      assert multiset(a[1..]) == multiset(a) - multiset{a[0]};
      assert multiset(b[1..]) == multiset(b) - multiset{b[0]};
      StrictlyOrderedUnique(a[1..], b[1..]);
    }
  }

  /** With distinct ids the ordered list is strictly increasing in id. */
  lemma SortedInstancesStrict(listing: seq<Instance>)
    requires DistinctIds(listing)
    ensures DistinctIds(SortedInstances(listing))
    ensures StrictlyOrdered(SortedInstances(listing))
  {
    var r := SortedInstances(listing);
    SortedInstancesOrder(listing);
    SortedInstancesPermutation(listing);
    DistinctIdsPermutation(listing, r);
    forall i, j | 0 <= i < j < |r|
      ensures r[i].id < r[j].id
    {
      assert Ids(r)[i] <= Ids(r)[j];
    }
  }

  /** With distinct ids, the order in which Go's `range` visits the map does not matter. */
  lemma IterationOrderIrrelevant(listing: seq<Instance>, other: seq<Instance>)
    requires DistinctIds(listing) && multiset(listing) == multiset(other)
    ensures SortedInstances(listing) == SortedInstances(other)
  {
    DistinctIdsPermutation(listing, other);
    SortedInstancesPermutation(listing);
    SortedInstancesPermutation(other);
    SortedInstancesStrict(listing);
    SortedInstancesStrict(other);
    assert |listing| == |multiset(listing)| == |multiset(other)| == |other|;
    StrictlyOrderedUnique(SortedInstances(listing), SortedInstances(other));
  }
}
