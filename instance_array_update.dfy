/** The preparation of the edit in the instance-array Update: the planned interfaces are
    meant to be copied into the matching interface operations, then the planned instance
    array into the operation object. The interface loop as written updates copies of the
    operations and has no effect; the model keeps that version and a corrected one. Besides,
    `expandInstanceArray` never sets the planned interfaces, so on the Update path the loop
    runs no iteration at all, and the corrected loop would change nothing there either. */
module InstanceArrayUpdate {
  import opened Values
  import opened InstanceArrayCodecs

  /** The intended effect of the interface loop of the instance-array Update on one
      operation: every planned interface with its id is copied in, in order. */
  function ApplyMatching(intfs: seq<InstanceArrayInterface>, op: InterfaceOperation): (r: InterfaceOperation)
    ensures r.interfaceId == op.interfaceId && r.interfaceLabel == op.interfaceLabel
    decreases |intfs|
  {
    if intfs == [] then op
    else
      var n := |intfs| - 1;
      var before := ApplyMatching(intfs[..n], op);
      if intfs[n].interfaceId == before.interfaceId then CopyInterfaceToOperation(intfs[n], before) else before
  }

  /** The operation list with every operation updated from the planned interfaces. */
  function UpdatedInterfaceOperations(intfs: seq<InstanceArrayInterface>, ops: seq<InterfaceOperation>): (r: seq<InterfaceOperation>)
    ensures |r| == |ops|
    ensures forall b :: 0 <= b < |ops| ==> r[b] == ApplyMatching(intfs, ops[b])
    decreases |ops|
  {
    if ops == [] then []
    else
      var n := |ops| - 1;
      UpdatedInterfaceOperations(intfs, ops[..n]) + [ApplyMatching(intfs, ops[n])]
  }

  /** The interface at `a` is the last planned interface with id `id`. */
  predicate LastMatch(intfs: seq<InstanceArrayInterface>, a: int, id: int)
  {
    0 <= a < |intfs| && intfs[a].interfaceId == id && forall c :: a < c < |intfs| ==> intfs[c].interfaceId != id
  }

  /** An operation takes the LAGG indexes, index and network id of the last planned
      interface with its id, and stays as it is when no planned interface has its id. */
  lemma {:induction false} ApplyMatchingTakesLast(intfs: seq<InstanceArrayInterface>, op: InterfaceOperation)
    ensures (forall a :: 0 <= a < |intfs| ==> intfs[a].interfaceId != op.interfaceId) ==> ApplyMatching(intfs, op) == op
    ensures forall a :: LastMatch(intfs, a, op.interfaceId) ==> ApplyMatching(intfs, op) == CopyInterfaceToOperation(intfs[a], op)
    decreases |intfs|
  {
    if intfs != [] {
      var n := |intfs| - 1;
      var init := intfs[..n];
      ApplyMatchingTakesLast(init, op);
      assert forall a :: 0 <= a < n ==> init[a] == intfs[a];
      forall a | LastMatch(intfs, a, op.interfaceId)
        ensures ApplyMatching(intfs, op) == CopyInterfaceToOperation(intfs[a], op)
      {
        if a < n {
          assert forall c :: a < c < n ==> init[c].interfaceId != op.interfaceId;
        }
      }
    }
  }

  /** The interface loop as the corrected code runs it: the outer loop over the planned
      interfaces, the inner one over the operation list, updating the list's elements. */
  method UpdateInterfaceOperations(intfs: seq<InstanceArrayInterface>, ops: seq<InterfaceOperation>)
      returns (result: seq<InterfaceOperation>)
    ensures result == UpdatedInterfaceOperations(intfs, ops)
  {
    result := ops;
    for a := 0 to |intfs|
      invariant |result| == |ops|
      invariant forall b :: 0 <= b < |ops| ==> result[b] == ApplyMatching(intfs[..a], ops[b])
    {
      assert intfs[..a + 1][..a] == intfs[..a];
      for b := 0 to |result|
        invariant |result| == |ops|
        invariant forall c :: 0 <= c < b ==> result[c] == ApplyMatching(intfs[..a + 1], ops[c])
        invariant forall c :: b <= c < |ops| ==> result[c] == ApplyMatching(intfs[..a], ops[c])
      {
        if result[b].interfaceId == intfs[a].interfaceId {
          result := result[b := CopyInterfaceToOperation(intfs[a], result[b])];
        }
      }
    }
    assert intfs[..|intfs|] == intfs;
  }

  /** The interface loop as written (instance_array.go, Update): `range` hands out a copy of
      each operation, and the copy is what `copyInstanceArrayInterfaceToOperation` updates,
      so the operation list is left as it was. */
  method UpdateInterfaceOperationsAsWritten(intfs: seq<InstanceArrayInterface>, ops: seq<InterfaceOperation>)
      returns (result: seq<InterfaceOperation>)
    ensures result == ops
  {
    result := ops;
    for a := 0 to |intfs|
      invariant result == ops
    {
      for b := 0 to |result|
        invariant result == ops
      {
        var opIntf := result[b];
        if opIntf.interfaceId == intfs[a].interfaceId {
          opIntf := CopyInterfaceToOperation(intfs[a], opIntf);
        }
      }
    }
  }

  /** An interface whose index was changed in the configuration: the corrected loop carries
      the change into the operation, while the loop as written returns the list unchanged. */
  lemma InterfaceEditLostAsWritten()
    ensures var intf := InstanceArrayInterface(7, [], 1, 30, "", "");
      var op := InterfaceOperation(7, [], 0, 30, "eth");
      UpdatedInterfaceOperations([intf], [op]) == [InterfaceOperation(7, [], 1, 30, "eth")] &&
      UpdatedInterfaceOperations([intf], [op]) != [op]
  {
    var intf := InstanceArrayInterface(7, [], 1, 30, "", "");
    var op := InterfaceOperation(7, [], 0, 30, "eth");
    assert [intf][..0] == [];
    assert UpdatedInterfaceOperations([intf], [op])[0] == InterfaceOperation(7, [], 1, 30, "eth");
  }

  /** The preparation of the edit in the instance-array Update as written: the interface
      loop leaves the operation's interface list as it was, then the planned instance array
      is copied in. */
  method PrepareEdit(ia: InstanceArray, op: InstanceArrayOperation)
    modifies op
    ensures op.State() == CopiedState(ia, old(op.State()))
  {
    op.interfaces := UpdateInterfaceOperationsAsWritten(ia.interfaces, op.interfaces);
    op.CopyInstanceArrayToOperation(ia);
  }

  /** The same preparation with the interface loop corrected to update the operation's own
      interface list. */
  method PrepareEditCorrected(ia: InstanceArray, op: InstanceArrayOperation)
    modifies op
    ensures op.State() == CopiedState(ia, old(op.State()).(interfaces := UpdatedInterfaceOperations(ia.interfaces, old(op.interfaces))))
  {
    op.interfaces := UpdateInterfaceOperations(ia.interfaces, op.interfaces);
    op.CopyInstanceArrayToOperation(ia);
  }

  /** `expandInstanceArray` never fills the planned interfaces, so the loop runs no iteration
      and even the corrected version leaves every operation as it is. */
  lemma {:induction false} NoPlannedInterfacesNoChange(ops: seq<InterfaceOperation>)
    ensures UpdatedInterfaceOperations([], ops) == ops
  {
    var r := UpdatedInterfaceOperations([], ops);
    forall b | 0 <= b < |ops|
      ensures r[b] == ops[b]
    {
      assert r[b] == ApplyMatching([], ops[b]);
    }
  }
}
