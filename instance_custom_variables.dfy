/** The per-instance custom variables of an instance array. Reading produces one
    `instance_custom_variables` entry per instance that has custom variables, keyed by the
    instance's position in the id-ordered list (`flattenInstancesCustomVariables`). Updating
    sends each entry's map to the instance at that position and an empty map to every
    instance whose label no entry reached (`updateInstancesCustomVariables`). The SDK's
    `InstanceEdit` calls are recorded as a list of edits; which call fails, if any, is a
    parameter. */
module CustomVariableSync {
  import opened Values
  import opened CustomVariables
  import opened InstanceOrdering

  /** Every instance's custom variables are an array or a map of strings. */
  predicate WellTypedInstances(instances: seq<Instance>)
  {
    forall inst :: inst in instances ==> WellTyped(inst.customVariables)
  }

  // ---------------------------------------------------------------------------
  // Reading: flattenInstancesCustomVariables

  /** The entries read for instances in this order: one for each position whose custom
      variables are not empty, in increasing position, holding that instance's variables. */
  function CustomVariableEntries(instances: seq<Instance>): (entries: seq<InstanceCustomVariables>)
    requires WellTypedInstances(instances)
    ensures |entries| <= |instances|
    ensures forall k :: 0 <= k < |entries| ==> 0 <= entries[k].instanceIndex < |instances|
    ensures forall k :: 0 <= k < |entries| ==>
      entries[k].customVariables == StateOf(instances[entries[k].instanceIndex].customVariables)
    ensures forall k :: 0 <= k < |entries| ==> |entries[k].customVariables| > 0
    ensures forall k, l :: 0 <= k < l < |entries| ==> entries[k].instanceIndex < entries[l].instanceIndex
    decreases |instances|
  {
    if instances == [] then []
    else
      var n := |instances| - 1;
      var init := instances[..n];
      assert forall k :: 0 <= k < n ==> init[k] == instances[k];
      assert WellTypedInstances(init) by {
        forall inst | inst in init
          ensures WellTyped(inst.customVariables)
        {
          assert inst in instances;
        }
      }
      var before := CustomVariableEntries(init);
      var cv := StateOf(instances[n].customVariables);
      if |cv| > 0 then
        var entries := before + [InstanceCustomVariables(n, cv)];
        assert forall k :: 0 <= k < |before| ==> entries[k] == before[k];
        entries
      else before
  }

  /** The listing's instances ordered by id are as well typed as the listing. */
  lemma SortedInstancesWellTyped(listing: seq<Instance>)
    requires WellTypedInstances(listing)
    ensures WellTypedInstances(SortedInstances(listing))
  {
    forall inst | inst in SortedInstances(listing)
      ensures WellTyped(inst.customVariables)
    {
      var i :| 0 <= i < |SortedInstances(listing)| && SortedInstances(listing)[i] == inst;
    }
  }

  /** `flattenInstancesCustomVariables`: order the instances by id, then emit an entry for
      each instance whose custom variables, read as a string map, are not empty. */
  method FlattenInstancesCustomVariables(listing: seq<Instance>) returns (customVars: seq<InstanceCustomVariables>)
    requires WellTypedInstances(listing)
    ensures customVars == CustomVariableEntries(SortedInstances(listing))
  {
    var instances := SortInstancesById(listing);
    SortedInstancesWellTyped(listing);
    customVars := [];
    for index := 0 to |instances|
      invariant WellTypedInstances(instances[..index])
      invariant customVars == CustomVariableEntries(instances[..index])
    {
      assert instances[..index + 1][..index] == instances[..index];
      assert instances[..index + 1][index] == instances[index];
      var cv := FlattenCustomVariables(instances[index].customVariables);
      if |cv| > 0 {
        customVars := customVars + [InstanceCustomVariables(index, cv)];
      }
    }
    assert instances[..|instances|] == instances;
  }

  /** The map of the last entry naming position `p`, if any entry names it. */
  function LastTarget(cvList: seq<InstanceCustomVariables>, p: int): Option<map<string, string>>
    decreases |cvList|
  {
    if cvList == [] then None
    else
      var n := |cvList| - 1;
      if cvList[n].instanceIndex == p then Some(cvList[n].customVariables)
      else LastTarget(cvList[..n], p)
  }

  lemma LastTargetSnoc(cvList: seq<InstanceCustomVariables>, e: InstanceCustomVariables, p: int)
    ensures LastTarget(cvList + [e], p) ==
      if e.instanceIndex == p then Some(e.customVariables) else LastTarget(cvList, p)
  {
    assert (cvList + [e])[..|cvList|] == cvList;
  }

  /** An entry names a position exactly when that instance has custom variables, and then
      it carries them. */
  lemma {:induction false} EntriesOfPosition(instances: seq<Instance>, p: int)
    requires WellTypedInstances(instances) && 0 <= p < |instances|
    ensures LastTarget(CustomVariableEntries(instances), p) ==
      (if |StateOf(instances[p].customVariables)| > 0 then Some(StateOf(instances[p].customVariables)) else None)
    decreases |instances|
  {
    var n := |instances| - 1;
    var init := instances[..n];
    var before := CustomVariableEntries(init);
    var cv := StateOf(instances[n].customVariables);
    if |cv| > 0 {
      LastTargetSnoc(before, InstanceCustomVariables(n, cv), p);
    }
    if p == n {
      NoEntryBeyond(init, n);
    } else {
      assert init[p] == instances[p];
      EntriesOfPosition(init, p);
    }
  }

  /** No entry read from the first `n` instances names position `n` or later. */
  lemma NoEntryBeyond(instances: seq<Instance>, p: int)
    requires WellTypedInstances(instances) && p >= |instances|
    ensures LastTarget(CustomVariableEntries(instances), p) == None
  {
    LastTargetAbsent(CustomVariableEntries(instances), p);
  }

  /** When no entry names `p`, neither does the last one. */
  lemma {:induction false} LastTargetAbsent(cvList: seq<InstanceCustomVariables>, p: int)
    requires forall k :: 0 <= k < |cvList| ==> cvList[k].instanceIndex != p
    ensures LastTarget(cvList, p) == None
    decreases |cvList|
  {
    if cvList != [] {
      var n := |cvList| - 1;
      assert forall k :: 0 <= k < n ==> cvList[..n][k] == cvList[k];
      LastTargetAbsent(cvList[..n], p);
    }
  }

  // ---------------------------------------------------------------------------
  // Updating: updateInstancesCustomVariables

  /** One `InstanceEdit` call: the instance it edits and the custom variables it sends. */
  datatype InstanceEdit = InstanceEdit(instanceId: int, customVariables: map<string, string>)

  /** Entries never name a negative position (indexing the Go slice with one panics). */
  predicate NonNegativeIndices(cvList: seq<InstanceCustomVariables>)
  {
    forall k :: 0 <= k < |cvList| ==> cvList[k].instanceIndex >= 0
  }

  /** The edits of the targeting loop: for each entry in turn whose position is within the
      instance count, the instance at that position receives that entry's map. */
  function TargetEdits(instances: seq<Instance>, cvList: seq<InstanceCustomVariables>): (edits: seq<InstanceEdit>)
    requires NonNegativeIndices(cvList)
    ensures |edits| <= |cvList|
    decreases |cvList|
  {
    if cvList == [] then []
    else
      var n := |cvList| - 1;
      var e := cvList[n];
      TargetEdits(instances, cvList[..n]) +
        (if e.instanceIndex < |instances| then [InstanceEdit(instances[e.instanceIndex].id, e.customVariables)] else [])
  }

  /** `currentCVLabelList` after the targeting loop: the label of every targeted instance,
      mapped to its id. */
  function TargetedLabels(instances: seq<Instance>, cvList: seq<InstanceCustomVariables>): map<string, int>
    requires NonNegativeIndices(cvList)
    decreases |cvList|
  {
    if cvList == [] then map[]
    else
      var n := |cvList| - 1;
      var e := cvList[n];
      var labels := TargetedLabels(instances, cvList[..n]);
      if e.instanceIndex < |instances| then
        labels[instances[e.instanceIndex].instanceLabel := instances[e.instanceIndex].id]
      else labels
  }

  /** The entry targets an in-range instance carrying `instanceLabel`. */
  predicate TargetsLabel(instances: seq<Instance>, e: InstanceCustomVariables, instanceLabel: string)
  {
    0 <= e.instanceIndex < |instances| && instances[e.instanceIndex].instanceLabel == instanceLabel
  }

  /** The edits of the reset loop: every instance, in `range` order, whose label was not
      targeted receives an empty map. */
  function ResetEdits(order: seq<Instance>, labels: map<string, int>): (edits: seq<InstanceEdit>)
    ensures |edits| <= |order|
    ensures forall k :: 0 <= k < |edits| ==> edits[k].customVariables == map[]
    decreases |order|
  {
    if order == [] then []
    else
      var n := |order| - 1;
      ResetEdits(order[..n], labels) +
        (if order[n].instanceLabel !in labels then [InstanceEdit(order[n].id, map[])] else [])
  }

  /** Every edit the update would issue if none failed: `listing` is the order of the first
      `range` over the fetched map, `resetOrder` that of the second. */
  function PlannedEdits(listing: seq<Instance>, resetOrder: seq<Instance>, cvList: seq<InstanceCustomVariables>): seq<InstanceEdit>
    requires NonNegativeIndices(cvList)
  {
    var instances := SortedInstances(listing);
    TargetEdits(instances, cvList) + ResetEdits(resetOrder, TargetedLabels(instances, cvList))
  }

  /** What the update did: the edits it issued and whether it finished without error. */
  datatype Outcome = Outcome(edits: seq<InstanceEdit>, ok: bool)

  /** Issuing the planned edits in order when call number `failAt` (counting from 0) fails:
      the failing call is the last one issued and the update reports an error. */
  function Issue(planned: seq<InstanceEdit>, failAt: Option<nat>): (r: Outcome)
    ensures r.edits <= planned
    ensures r.ok <==> failAt.None? || failAt.value >= |planned|
    ensures r.ok ==> r.edits == planned
    ensures !r.ok ==> |r.edits| == failAt.value + 1
  {
    if failAt.Some? && failAt.value < |planned| then Outcome(planned[..failAt.value + 1], false)
    else Outcome(planned, true)
  }

  /** The issued edits stop with the failing call. */
  lemma IssueStopsAtFailure(planned: seq<InstanceEdit>, edits: seq<InstanceEdit>, failAt: Option<nat>)
    requires edits <= planned && edits != [] && failAt == Some(|edits| - 1)
    ensures Issue(planned, failAt) == Outcome(edits, false)
  {
    assert planned[..|edits|] == edits;
  }

  /** The targeting loop's edits for a prefix of the entries start its edits for all. */
  lemma {:induction false} TargetEditsPrefix(instances: seq<Instance>, cvList: seq<InstanceCustomVariables>, i: int)
    requires NonNegativeIndices(cvList) && 0 <= i <= |cvList|
    ensures TargetEdits(instances, cvList[..i]) <= TargetEdits(instances, cvList)
    decreases |cvList|
  {
    if i < |cvList| {
      var n := |cvList| - 1;
      assert cvList[..n][..i] == cvList[..i];
      TargetEditsPrefix(instances, cvList[..n], i);
    } else {
      assert cvList[..i] == cvList;
    }
  }

  /** The reset loop's edits for a prefix of the instances start its edits for all. */
  lemma {:induction false} ResetEditsPrefix(order: seq<Instance>, labels: map<string, int>, j: int)
    requires 0 <= j <= |order|
    ensures ResetEdits(order[..j], labels) <= ResetEdits(order, labels)
    decreases |order|
  {
    if j < |order| {
      var n := |order| - 1;
      assert order[..n][..j] == order[..j];
      ResetEditsPrefix(order[..n], labels, j);
    } else {
      assert order[..j] == order;
    }
  }

  /** The targeting loop of `updateInstancesCustomVariables` over the id-ordered
      `instances`, stopping at the first failed edit; `failed` says whether one failed. */
  method EditTargets(instances: seq<Instance>, cvList: seq<InstanceCustomVariables>, failAt: Option<nat>)
      returns (edits: seq<InstanceEdit>, currentLabels: map<string, int>, failed: bool)
    requires NonNegativeIndices(cvList)
    ensures failed ==> edits != [] && edits <= TargetEdits(instances, cvList) && failAt == Some(|edits| - 1)
    ensures !failed ==> edits == TargetEdits(instances, cvList) && (failAt.None? || failAt.value >= |edits|)
    ensures !failed ==> currentLabels == TargetedLabels(instances, cvList)
  {
    currentLabels := map[];
    edits := [];
    for i := 0 to |cvList|
      invariant edits == TargetEdits(instances, cvList[..i])
      invariant currentLabels == TargetedLabels(instances, cvList[..i])
      invariant failAt.None? || failAt.value >= |edits|
    {
      assert cvList[..i + 1][..i] == cvList[..i];
      var icv := cvList[i];
      if icv.instanceIndex < |instances| {
        var instance := instances[icv.instanceIndex];
        currentLabels := currentLabels[instance.instanceLabel := instance.id];
        edits := edits + [InstanceEdit(instance.id, icv.customVariables)];
        if failAt == Some(|edits| - 1) {
          TargetEditsPrefix(instances, cvList, i + 1);
          return edits, currentLabels, true;
        }
      }
    }
    assert cvList[..|cvList|] == cvList;
    failed := false;
  }

  /** The reset loop of `updateInstancesCustomVariables`, after `issued` earlier calls,
      stopping at the first failed edit. */
  method ResetUntargeted(order: seq<Instance>, currentLabels: map<string, int>, issued: nat, failAt: Option<nat>)
      returns (edits: seq<InstanceEdit>, failed: bool)
    requires failAt.None? || failAt.value >= issued
    ensures failed ==> edits != [] && edits <= ResetEdits(order, currentLabels) && failAt == Some(issued + |edits| - 1)
    ensures !failed ==> edits == ResetEdits(order, currentLabels) && (failAt.None? || failAt.value >= issued + |edits|)
  {
    edits := [];
    for j := 0 to |order|
      invariant edits == ResetEdits(order[..j], currentLabels)
      invariant failAt.None? || failAt.value >= issued + |edits|
    {
      assert order[..j + 1][..j] == order[..j];
      var instance := order[j];
      if instance.instanceLabel !in currentLabels {
        edits := edits + [InstanceEdit(instance.id, map[])];
        if failAt == Some(issued + |edits| - 1) {
          ResetEditsPrefix(order, currentLabels, j + 1);
          return edits, true;
        }
      }
    }
    assert order[..|order|] == order;
    failed := false;
  }

  /** `updateInstancesCustomVariables`. `fetched` is the result of `InstanceArrayInstances`
      (its order is that of the first `range`), `resetOrder` the order of the second `range`
      over the same map, and `failAt` the number of the `InstanceEdit` call that fails. */
  method UpdateInstancesCustomVariables(cvList: seq<InstanceCustomVariables>, fetched: Option<seq<Instance>>,
                                        resetOrder: seq<Instance>, failAt: Option<nat>)
      returns (edits: seq<InstanceEdit>, ok: bool)
    requires NonNegativeIndices(cvList)
    requires fetched.Some? ==> multiset(resetOrder) == multiset(fetched.value)
    ensures fetched.None? ==> edits == [] && !ok
    ensures fetched.Some? ==> Outcome(edits, ok) == Issue(PlannedEdits(fetched.value, resetOrder, cvList), failAt)
  {
    if fetched.None? {
      return [], false;
    }
    var instanceList := fetched.value;
    var instances := SortInstancesById(instanceList);
    var targets, currentLabels, failed := EditTargets(instances, cvList, failAt);
    ghost var planned := PlannedEdits(instanceList, resetOrder, cvList);
    if failed {
      IssueStopsAtFailure(planned, targets, failAt);
      return targets, false;
    }
    var resets;
    resets, failed := ResetUntargeted(resetOrder, currentLabels, |targets|, failAt);
    edits := targets + resets;
    if failed {
      IssueStopsAtFailure(planned, edits, failAt);
      return edits, false;
    }
    ok := true;
  }

  // ---------------------------------------------------------------------------
  // What the update leaves on each instance

  /** The custom variables of the last edit sent to instance `id`, if any was sent. */
  function LastEditFor(edits: seq<InstanceEdit>, id: int): Option<map<string, string>>
    decreases |edits|
  {
    if edits == [] then None
    else
      var n := |edits| - 1;
      if edits[n].instanceId == id then Some(edits[n].customVariables)
      else LastEditFor(edits[..n], id)
  }

  /** The last edit of a concatenation is the last of its second part, if there is one. */
  lemma {:induction false} LastEditForConcat(a: seq<InstanceEdit>, b: seq<InstanceEdit>, id: int)
    ensures LastEditFor(a + b, id) == if LastEditFor(b, id).Some? then LastEditFor(b, id) else LastEditFor(a, id)
    decreases |b|
  {
    if b == [] {
      assert a + b == a;
    } else {
      var n := |b| - 1;
      assert (a + b)[..|a + b| - 1] == a + b[..n];
      LastEditForConcat(a, b[..n], id);
    }
  }

  /** With distinct ids, the last targeting edit an instance receives is the map of the last
      entry naming its position; entries naming positions at or beyond the instance count
      send nothing. */
  lemma {:induction false} TargetEditsLast(instances: seq<Instance>, cvList: seq<InstanceCustomVariables>, p: int)
    requires NonNegativeIndices(cvList) && DistinctIds(instances) && 0 <= p < |instances|
    ensures LastEditFor(TargetEdits(instances, cvList), instances[p].id) == LastTarget(cvList, p)
    decreases |cvList|
  {
    if cvList != [] {
      var n := |cvList| - 1;
      var e := cvList[n];
      TargetEditsLast(instances, cvList[..n], p);
      var step := if e.instanceIndex < |instances| then [InstanceEdit(instances[e.instanceIndex].id, e.customVariables)] else [];
      LastEditForConcat(TargetEdits(instances, cvList[..n]), step, instances[p].id);
      if e.instanceIndex < |instances| && e.instanceIndex != p {
        assert instances[e.instanceIndex].id != instances[p].id;
      }
    }
  }

  /** A label is targeted exactly when some entry names an in-range instance carrying it. */
  lemma {:induction false} TargetedLabelsAreTargets(instances: seq<Instance>, cvList: seq<InstanceCustomVariables>, instanceLabel: string)
    requires NonNegativeIndices(cvList)
    ensures instanceLabel in TargetedLabels(instances, cvList) <==>
      exists k :: 0 <= k < |cvList| && TargetsLabel(instances, cvList[k], instanceLabel)
    decreases |cvList|
  {
    if cvList != [] {
      var n := |cvList| - 1;
      TargetedLabelsAreTargets(instances, cvList[..n], instanceLabel);
      if exists k :: 0 <= k < n && TargetsLabel(instances, cvList[..n][k], instanceLabel) {
        var k :| 0 <= k < n && TargetsLabel(instances, cvList[..n][k], instanceLabel);
        assert cvList[..n][k] == cvList[k];
      }
      if exists k :: 0 <= k < |cvList| && TargetsLabel(instances, cvList[k], instanceLabel) {
        var k :| 0 <= k < |cvList| && TargetsLabel(instances, cvList[k], instanceLabel);
        if k < n {
          assert cvList[..n][k] == cvList[k];
        }
      }
    }
  }

  /** A position named by an entry has its label targeted. */
  lemma {:induction false} TargetedPositionLabel(instances: seq<Instance>, cvList: seq<InstanceCustomVariables>, p: int)
    requires NonNegativeIndices(cvList) && 0 <= p < |instances| && LastTarget(cvList, p).Some?
    ensures instances[p].instanceLabel in TargetedLabels(instances, cvList)
    decreases |cvList|
  {
    var n := |cvList| - 1;
    if cvList[n].instanceIndex != p {
      TargetedPositionLabel(instances, cvList[..n], p);
    }
  }

  /** The reset loop sends an empty map to `id` exactly when an instance of the order has
      that id and an untargeted label, and sends nothing to it otherwise. */
  lemma {:induction false} ResetEditsLast(order: seq<Instance>, labels: map<string, int>, id: int)
    ensures LastEditFor(ResetEdits(order, labels), id) ==
      if exists j :: 0 <= j < |order| && order[j].id == id && order[j].instanceLabel !in labels
      then Some(map[]) else None
    decreases |order|
  {
    if order != [] {
      var n := |order| - 1;
      var step := if order[n].instanceLabel !in labels then [InstanceEdit(order[n].id, map[])] else [];
      ResetEditsLast(order[..n], labels, id);
      LastEditForConcat(ResetEdits(order[..n], labels), step, id);
      if exists j :: 0 <= j < n && order[..n][j].id == id && order[..n][j].instanceLabel !in labels {
        var j :| 0 <= j < n && order[..n][j].id == id && order[..n][j].instanceLabel !in labels;
        assert order[j] == order[..n][j];
      }
      if exists j :: 0 <= j < |order| && order[j].id == id && order[j].instanceLabel !in labels {
        var j :| 0 <= j < |order| && order[j].id == id && order[j].instanceLabel !in labels;
        if j < n {
          assert order[..n][j] == order[j];
        }
      }
    }
  }

  /** In a listing with distinct ids, an instance is the only one carrying its id. */
  lemma SameIdSameInstance(listing: seq<Instance>, x: Instance, y: Instance)
    requires DistinctIds(listing) && x in listing && y in listing && x.id == y.id
    ensures x == y
  {
    var i :| 0 <= i < |listing| && listing[i] == x;
    var j :| 0 <= j < |listing| && listing[j] == y;
    if i != j {
      assert false;
    }
  }

  /** The custom variables each instance ends up with when no edit fails and the ids are
      distinct: the map of the last entry naming its position; otherwise an empty map, unless
      another instance carrying its label was targeted, in which case it is not edited at all. */
  lemma UpdateFinalState(listing: seq<Instance>, resetOrder: seq<Instance>, cvList: seq<InstanceCustomVariables>, p: int)
    requires NonNegativeIndices(cvList) && DistinctIds(listing) && multiset(resetOrder) == multiset(listing)
    requires 0 <= p < |listing|
    ensures LastEditFor(PlannedEdits(listing, resetOrder, cvList), SortedInstances(listing)[p].id) ==
      if LastTarget(cvList, p).Some? then LastTarget(cvList, p)
      else if SortedInstances(listing)[p].instanceLabel in TargetedLabels(SortedInstances(listing), cvList) then None
      else Some(map[])
  {
    var instances := SortedInstances(listing);
    var labels := TargetedLabels(instances, cvList);
    var target := instances[p];
    SortedInstancesStrict(listing);
    TargetEditsLast(instances, cvList, p);
    ResetEditsLast(resetOrder, labels, target.id);
    LastEditForConcat(TargetEdits(instances, cvList), ResetEdits(resetOrder, labels), target.id);
    if LastTarget(cvList, p).Some? {
      TargetedPositionLabel(instances, cvList, p);
    }
    if exists j :: 0 <= j < |resetOrder| && resetOrder[j].id == target.id && resetOrder[j].instanceLabel !in labels {
      var j :| 0 <= j < |resetOrder| && resetOrder[j].id == target.id && resetOrder[j].instanceLabel !in labels;
      assert resetOrder[j] in multiset(listing);
      SameIdSameInstance(listing, resetOrder[j], target);
    }
    if target.instanceLabel !in labels {
      assert target in multiset(resetOrder);
      var j :| 0 <= j < |resetOrder| && resetOrder[j] == target;
    }
  }

  /** Labels are distinct across the listing. */
  predicate DistinctLabels(instances: seq<Instance>)
  {
    forall i, j :: 0 <= i < j < |instances| ==> instances[i].instanceLabel != instances[j].instanceLabel
  }

  /** Writing back exactly what was read leaves every instance with the custom variables it
      had, when ids and labels are distinct and no edit fails. */
  lemma ReadThenUpdateRestores(listing: seq<Instance>, resetOrder: seq<Instance>, p: int)
    requires WellTypedInstances(listing) && DistinctIds(listing) && DistinctLabels(listing)
    requires multiset(resetOrder) == multiset(listing) && 0 <= p < |listing|
    ensures
      var instances := SortedInstances(listing);
      var cvList := CustomVariableEntries(instances);
      NonNegativeIndices(cvList) &&
      LastEditFor(PlannedEdits(listing, resetOrder, cvList), instances[p].id) == Some(StateOf(instances[p].customVariables))
  {
    var instances := SortedInstances(listing);
    SortedInstancesWellTyped(listing);
    var cvList := CustomVariableEntries(instances);
    var state := StateOf(instances[p].customVariables);
    EntriesOfPosition(instances, p);
    UpdateFinalState(listing, resetOrder, cvList, p);
    if |state| == 0 {
      assert state == map[];
      if instances[p].instanceLabel in TargetedLabels(instances, cvList) {
        TargetedLabelsAreTargets(instances, cvList, instances[p].instanceLabel);
        var k :| 0 <= k < |cvList| && TargetsLabel(instances, cvList[k], instances[p].instanceLabel);
        var q := cvList[k].instanceIndex;
        SortedInstancesStrict(listing);
        DistinctLabelsOrdered(listing, p, q);
        assert false;
      }
    }
  }

  /** Two positions of the id-ordered list carrying the same label are one position. */
  lemma DistinctLabelsOrdered(listing: seq<Instance>, p: int, q: int)
    requires DistinctIds(listing) && DistinctLabels(listing)
    requires 0 <= p < |listing| && 0 <= q < |listing|
    requires SortedInstances(listing)[p].instanceLabel == SortedInstances(listing)[q].instanceLabel
    ensures p == q
  {
    var instances := SortedInstances(listing);
    SortedInstancesStrict(listing);
    var x, y := instances[p], instances[q];
    var i :| 0 <= i < |listing| && listing[i] == x;
    var j :| 0 <= j < |listing| && listing[j] == y;
    if i != j {
      assert false;
    }
    assert x == y;
    if p != q {
      assert false;
    }
  }
}
