# Metal Cloud Terraform provider: instance arrays and the infrastructure deployer

This Dafny project models the self-contained logic of two resources of the Metal Cloud
Terraform provider. Where the provider hands work to the vendor SDK or to the Terraform
plugin framework, the model takes that work as a parameter or records it in a log.

- **Instance ordering and custom variables** (`instance_ordering.dfy`,
  `instance_custom_variables.dfy`, `sorting.dfy`, `custom_variables.dfy`):
  - The platform returns an instance array's instances as an unordered map. The provider lists them by ascending instance id.
  - Each position in that list is the `instance_index` users write in `instance_custom_variables`.
  - Reading emits one entry per instance whose custom variables are non-empty.
  - Updating edits the instance at each in-range index. It then resets to an empty map every instance whose label was not targeted.
  - The first failed edit stops the update.
- **Set identity keys** (`set_keys.dfy`, `crc32.dfy`, `text.dfy`):
  - Elements of the `interface` set are told apart by a CRC-32 (IEEE) hash of a canonical string (`interfaceResourceHash`).
  - In that string every field is lower-cased and followed by a dash.
- **Codecs and operation copies** (`instance_array_codecs.dfy`, `instance_array_update.dfy`):
  - The firewall-rule and interface records are converted to and from string-keyed maps.
  - An update copies planned values into the platform's operation object field by field (a class updated in place).
  - An update also has a loop meant to match planned interfaces to the operation's interfaces. As written it changes nothing (see Findings).
  - The `firewall_rule` set is hashed by the framework's `schema.HashResource`. The provider's own `firewallRuleResourceHash` is commented out of the schema and never called. `SetKeys.FirewallRuleResourceHash` models it anyway, as a function the provider defines but does not use.
- **Infrastructure deployer** (`infrastructure_deployer.dfy`):
  - The `infrastructure_id` validator.
  - The diff hook that raises `edited`.
  - Read, Create, Update and Delete, as methods of a class holding the resource's attributes and a log of the calls that change the platform. Each method is proved equal to a pure specification function, and the properties are lemmas about those functions.
  - The status classification used while waiting for a deploy.

Modelling conventions:

- **Dynamic values.** Go's `interface{}` values are the `Values.Value` datatype. A custom-variable value is either the array form or a map (`CustomVariables.CustomVariables`).
- **Map iteration order.** Go's map iteration order is unspecified. A `range` over a map is therefore a sequence given as a parameter. A second `range` over the same map is a second sequence with the same multiset of elements.
- **Platform answers.** Answers and failures of the platform are parameters:
  - `fetched` is the answer of a `Get`;
  - `failAt` is the number of the first edit that fails;
  - `deployFails` and `deleteFails` say whether those calls fail;
  - `polls` is the sequence of statuses seen while waiting.
- **Library functions:**
  - `strconv.Itoa`, `strconv.Atoi` (64-bit) and `strconv.FormatBool` are modelled in `Text`;
  - `strings.ToLower` is modelled for ASCII letters;
  - `sort.Ints` is an insertion sort, proved to be the only sorted permutation;
  - `crc32.ChecksumIEEE` works bit by bit on the UTF-8 bytes of the string, with the reflected polynomial `0xEDB88320`, and is checked against the standard check value for the one input "123456789". For all inputs the model proves only that the register runs as a stream over the bytes.

Where the Go code and a plain reading of its intent disagree, the model follows the code. The
one such place is listed under Findings.

## Model

| member | source | states |
|---|---|---|
| Sorting.SortInts | metalcloud/resource_metalcloud_instance_array.go:604 | the sorted ids are the same ids, each as often as in the input |
| Sorting.SortIntsCorrect | metalcloud/resource_metalcloud_instance_array.go:604 | `sort.Ints` leaves the ids in non-decreasing order and is a permutation of them |
| Sorting.SortedPermutationUnique | metalcloud/resource_metalcloud_instance_array.go:604 | two sorted permutations of the same multiset are equal, so the order does not depend on how the sort is done |
| Sorting.SortIntsIsTheSort | metalcloud/resource_metalcloud_instance_array.go:654 | any sorted permutation of the keys is exactly the modelled `sort.Ints` result |
| InstanceOrdering.IndexByIdHoldsLast | metalcloud/resource_metalcloud_instance_array.go:305-308 | after filling `instanceMap` every listed id is a key, and each key holds the last instance listed with that id |
| InstanceOrdering.IndexByIdOfDistinct | metalcloud/resource_metalcloud_instance_array.go:305-308 | with distinct ids, `instanceMap[id]` is the instance with that id |
| InstanceOrdering.LookupPermutation | metalcloud/resource_metalcloud_instance_array.go:310-314 | looking up a permutation of the keys yields a permutation of the looked-up instances |
| InstanceOrdering.SortedKeysAreIndexed | metalcloud/resource_metalcloud_instance_array.go:310-314 | every sorted key is in `instanceMap`, and every looked-up instance comes from the listing and carries its key as id |
| InstanceOrdering.SortedInstances | metalcloud/resource_metalcloud_instance_array.go:305-314 | the ordered list is as long as the listing and contains only listed instances |
| InstanceOrdering.SortInstancesById | metalcloud/resource_metalcloud_instance_array.go:305-314 | the two loops around `sort.Ints` produce exactly `SortedInstances` of the listing |
| InstanceOrdering.SortedInstancesOrder | metalcloud/resource_metalcloud_instance_array.go:305-314 | the result has the listing's length, its ids are non-decreasing and are a permutation of the listed ids |
| InstanceOrdering.SortedInstancesPickLast | metalcloud/resource_metalcloud_instance_array.go:305-314 | each output element is the last listed instance with its id |
| InstanceOrdering.SortedInstancesPermutation | metalcloud/resource_metalcloud_instance_array.go:305-314 | with distinct ids, every instance appears exactly once (a permutation of the listing) |
| InstanceOrdering.SharedIdRepeatsLast | metalcloud/resource_metalcloud_instance_array.go:305-314 | when two listed instances share an id, the last of them appears at least twice in the output |
| InstanceOrdering.SharedIdWitness | metalcloud/resource_metalcloud_instance_array.go:305-314 | a repeated id in one iteration order is a repeated id in every order |
| InstanceOrdering.DistinctIdsPermutation | metalcloud/resource_metalcloud_instance_array.go:305-314 | distinct ids stay distinct in any other iteration order of the same map |
| InstanceOrdering.StrictlyOrderedUnique | metalcloud/resource_metalcloud_instance_array.go:310-314 | two lists with strictly increasing ids and the same elements are equal |
| InstanceOrdering.SortedInstancesStrict | metalcloud/resource_metalcloud_instance_array.go:305-314 | with distinct ids the output ids are strictly increasing |
| InstanceOrdering.IterationOrderIrrelevant | metalcloud/resource_metalcloud_instance_array.go:305-314 | with distinct ids, the map's iteration order does not change the ordered list |
| CustomVariables.StringValues | metalcloud/resource_metalcloud_instance_array.go:466-472 | the copied map has the same keys, and each value is the string held under that key |
| CustomVariables.StateOf | metalcloud/resource_metalcloud_instance_array.go:463-473 | the array form reads as the empty map; a map reads with the same keys and the same string values |
| CustomVariables.Expand | metalcloud/resource_metalcloud_instance_array.go:522-530 | the planned string map becomes a map of string values |
| CustomVariables.CopyStringValues | metalcloud/resource_metalcloud_instance_array.go:469-471 | the `range` loop, visiting keys in any order, builds exactly `StringValues` |
| CustomVariables.FlattenCustomVariables | metalcloud/resource_metalcloud_instance_array.go:463-473 | the type switch returns exactly `StateOf` of the value |
| CustomVariables.StateOfExpand | metalcloud/resource_metalcloud_instance_array.go:522-530 | a planned map that is sent and read back is unchanged |
| CustomVariables.ExpandStateOf | metalcloud/resource_metalcloud_instance_array.go:463-473 | reading and sending back turns the array form into an empty map and leaves a map unchanged |
| CustomVariableSync.CustomVariableEntries | metalcloud/resource_metalcloud_instance_array.go:610-629 | there is at most one entry per instance; each entry has an in-range index and the instance's custom variables, which are non-empty; the indices strictly increase |
| CustomVariableSync.SortedInstancesWellTyped | metalcloud/resource_metalcloud_instance_array.go:593-608 | ordering keeps every instance's custom variables string-valued |
| CustomVariableSync.FlattenInstancesCustomVariables | metalcloud/resource_metalcloud_instance_array.go:593-632 | the method builds exactly the entries of the id-ordered instances |
| CustomVariableSync.EntriesOfPosition | metalcloud/resource_metalcloud_instance_array.go:612-629 | position p has an entry if and only if its custom variables are non-empty, and the entry then holds them |
| CustomVariableSync.NoEntryBeyond | metalcloud/resource_metalcloud_instance_array.go:612-629 | no entry names a position at or past the instance count |
| CustomVariableSync.LastTargetAbsent | metalcloud/resource_metalcloud_instance_array.go:662-679 | a position that no entry names receives no targeted map |
| CustomVariableSync.TargetEdits | metalcloud/resource_metalcloud_instance_array.go:662-679 | at most one edit is planned per entry |
| CustomVariableSync.ResetEdits | metalcloud/resource_metalcloud_instance_array.go:681-689 | at most one reset is planned per instance, and every reset sends the empty map |
| CustomVariableSync.Issue | metalcloud/resource_metalcloud_instance_array.go:674-687 | the sent edits are a prefix of the plan; the update succeeds exactly when no planned edit fails; on a failure the edits stop right after the failing one |
| CustomVariableSync.EditTargets | metalcloud/resource_metalcloud_instance_array.go:662-679 | the loop sends the planned targeted edits (a prefix up to the failing one) and records the targeted labels |
| CustomVariableSync.ResetUntargeted | metalcloud/resource_metalcloud_instance_array.go:681-689 | the loop sends the planned resets, in the map's iteration order, up to the failing one |
| CustomVariableSync.UpdateInstancesCustomVariables | metalcloud/resource_metalcloud_instance_array.go:636-691 | a failed listing sends nothing and fails; otherwise the edits and the result are those of issuing the planned edits with the first failure aborting |
| CustomVariableSync.TargetEditsLast | metalcloud/resource_metalcloud_instance_array.go:662-679 | with distinct ids, the last targeted edit an instance receives is the map of the last entry naming its position |
| CustomVariableSync.TargetedLabelsAreTargets | metalcloud/resource_metalcloud_instance_array.go:660-672 | a label is recorded if and only if some in-range entry names an instance with that label |
| CustomVariableSync.TargetedPositionLabel | metalcloud/resource_metalcloud_instance_array.go:670-672 | the label of every targeted position is recorded |
| CustomVariableSync.ResetEditsLast | metalcloud/resource_metalcloud_instance_array.go:681-689 | an instance is reset to the empty map if and only if it is listed with an unrecorded label |
| CustomVariableSync.SameIdSameInstance | metalcloud/resource_metalcloud_instance_array.go:649-652 | with distinct ids, two listed instances with the same id are the same instance |
| CustomVariableSync.UpdateFinalState | metalcloud/resource_metalcloud_instance_array.go:662-689 | after an update the instance at position p holds the last map targeting p; otherwise it is untouched if its label was targeted, and otherwise it holds the empty map |
| CustomVariableSync.ReadThenUpdateRestores | metalcloud/resource_metalcloud_instance_array.go:593-689 | with distinct ids and labels, writing back the entries just read leaves every instance with the custom variables it had |
| CustomVariableSync.DistinctLabelsOrdered | metalcloud/resource_metalcloud_instance_array.go:656-658 | with distinct ids and labels, two positions with the same label are the same position |
| InstanceArrayCodecs.FlattenFirewallRule | metalcloud/resource_metalcloud_instance_array.go:535-550 | the map has exactly the ten rule keys, each holding a value of the right type |
| InstanceArrayCodecs.ExpandFlattenFirewallRule | metalcloud/resource_metalcloud_instance_array.go:535-567 | expanding a flattened rule gives back the rule, all ten fields |
| InstanceArrayCodecs.ExpandFirewallRule | metalcloud/resource_metalcloud_instance_array.go:552-567 | each of the ten rule keys reads back from the expanded rule with the value the map held |
| InstanceArrayCodecs.ExpandInstanceArrayInterface | metalcloud/resource_metalcloud_instance_array.go:579-591 | id, index and network id come from the map, a missing id becomes 0, and the LAGG indexes, label and service status stay empty |
| InstanceArrayCodecs.FlattenExpandFirewallRule | metalcloud/resource_metalcloud_instance_array.go:535-567 | flattening an expanded map gives back the map restricted to the ten rule keys |
| InstanceArrayCodecs.FlattenFirewallRuleInjective | metalcloud/resource_metalcloud_instance_array.go:535-550 | different rules flatten to different maps |
| InstanceArrayCodecs.FlattenInstanceArrayInterface | metalcloud/resource_metalcloud_instance_array.go:569-577 | the map holds exactly the interface id, index and network id, as integers |
| InstanceArrayCodecs.ExpandFlattenInterface | metalcloud/resource_metalcloud_instance_array.go:569-591 | expanding a flattened interface keeps its id, index and network id and clears the other fields |
| InstanceArrayCodecs.FlattenExpandInterface | metalcloud/resource_metalcloud_instance_array.go:569-591 | flattening an expanded map keeps index and network id, and a missing interface id becomes 0 |
| InstanceArrayCodecs.CopyInterfaceToOperation | metalcloud/resource_metalcloud_instance_array.go:713-717 | the LAGG indexes, index and network id come from the interface; the operation's id and label are kept |
| InstanceArrayCodecs.CopyInterfaceLastWins | metalcloud/resource_metalcloud_instance_array.go:713-717 | copying twice is the same as copying the second interface alone |
| InstanceArrayCodecs.CopiedStateIdempotent | metalcloud/resource_metalcloud_instance_array.go:693-711 | copying twice equals copying once; the processor core count, subdomain and interfaces are never written |
| InstanceArrayCodecs.CopiedStateDependsOnlyOnUncopied | metalcloud/resource_metalcloud_instance_array.go:693-711 | two operations become equal after the copy if and only if they agree on the three modelled fields the copy does not write |
| InstanceArrayCodecs.InstanceArrayOperation.CopyInstanceArrayToOperation | metalcloud/resource_metalcloud_instance_array.go:693-711 | the object's new state is the old one with the sixteen copied fields taken from the instance array |
| InstanceArrayUpdate.ApplyMatching | metalcloud/resource_metalcloud_instance_array.go:341-347 | matching never changes an operation's interface id or label |
| InstanceArrayUpdate.UpdatedInterfaceOperations | metalcloud/resource_metalcloud_instance_array.go:341-347 | the list keeps its length, and each operation is updated from the planned interfaces independently |
| InstanceArrayUpdate.ApplyMatchingTakesLast | metalcloud/resource_metalcloud_instance_array.go:341-347 | an operation that no planned interface matches is unchanged; otherwise it takes the fields of the last matching interface |
| InstanceArrayUpdate.UpdateInterfaceOperations | metalcloud/resource_metalcloud_instance_array.go:341-347 | the nested loops, writing through to the list, compute `UpdatedInterfaceOperations` |
| InstanceArrayUpdate.UpdateInterfaceOperationsAsWritten | metalcloud/resource_metalcloud_instance_array.go:341-347 | the loops as written, which update a per-iteration copy, leave the operations unchanged |
| InstanceArrayUpdate.InterfaceEditLostAsWritten | metalcloud/resource_metalcloud_instance_array.go:341-347 | a concrete interface whose planned index is lost by the loop as written but kept by the intended one |
| InstanceArrayUpdate.PrepareEdit | metalcloud/resource_metalcloud_instance_array.go:341-350 | as written: the operation sent to the edit keeps its interface operations unchanged and takes the copied instance-array fields |
| InstanceArrayUpdate.PrepareEditCorrected | metalcloud/resource_metalcloud_instance_array.go:341-350 | as intended: the interface operations are first updated from the matching planned interfaces, then the instance-array fields are copied |
| InstanceArrayUpdate.NoPlannedInterfacesNoChange | metalcloud/resource_metalcloud_instance_array.go:341-347 | with no planned interfaces, which is what `expandInstanceArray` (lines 488-533) always produces, even the intended loop leaves the operations unchanged |
| Text.Lower | metalcloud/resource_metalcloud_instance_array.go:398-401 | the result has the same length, every ASCII capital becomes the letter 32 code points above it (its lower-case form), and every other character is unchanged |
| Text.Itoa | metalcloud/resource_metalcloud_instance_array.go:394-395 | the result is non-empty, starts with a minus sign if and only if the number is negative, and is otherwise all digits |
| Text.FormatBool | metalcloud/resource_metalcloud_instance_array.go:423 | the result is "true" exactly for true and "false" exactly for false |
| Text.LowerConcat | metalcloud/resource_metalcloud_instance_array.go:398-401 | lower-casing distributes over concatenation |
| Text.LowerIdempotent | metalcloud/resource_metalcloud_instance_array.go:398-401 | lower-casing twice is lower-casing once |
| Text.NatToDecimal | metalcloud/resource_metalcloud_instance_array.go:394-395 | decimal digits of a natural number are a non-empty digit string |
| Text.Atoi | metalcloud/resource_metalcloud_infrastructure_deployer.go:180-183 | a parsed id is always a 64-bit integer |
| Text.DigitsValueOfDecimal | metalcloud/resource_metalcloud_instance_array.go:394-395 | the digits of n have value n |
| Text.DecimalValueOfItoa | metalcloud/resource_metalcloud_infrastructure_deployer.go:180-186 | parsing the decimal form of any integer gives it back |
| Text.AtoiOfItoa | metalcloud/resource_metalcloud_infrastructure_deployer.go:180-186 | `Atoi(Itoa(n)) == n` for every 64-bit n |
| Text.ItoaInjective | metalcloud/resource_metalcloud_instance_array.go:394-395 | different integers have different decimal forms |
| Text.LowerOfItoa | metalcloud/resource_metalcloud_instance_array.go:400-401 | lower-casing leaves a decimal form unchanged |
| Crc32.Hash | metalcloud/resource_metalcloud_instance_array.go:439-444 | the hash of any string is a non-negative value below 2^32 (a range bound only; the checksum is tied to the standard on one input, by `CheckValue`) |
| Crc32.UpdateConcat | metalcloud/resource_metalcloud_instance_array.go:440 | feeding two runs of bytes one after the other is feeding their concatenation |
| Crc32.HashSnoc | metalcloud/resource_metalcloud_instance_array.go:439-444 | the hash of a string extended by one character continues the string's register with that character's UTF-8 bytes |
| Crc32.HashOfEmpty | metalcloud/resource_metalcloud_instance_array.go:439-444 | the hash of the empty string is 0 |
| Crc32.CheckValue | metalcloud/resource_metalcloud_instance_array.go:439-444 | the hash of "123456789" is the standard CRC-32 check value 0xCBF43926; this is one concrete input evaluated byte by byte, not a proof for all inputs |
| Crc32.AsciiEncoding | metalcloud/resource_metalcloud_instance_array.go:440 | an ASCII string is encoded one byte per character |
| SetKeys.JoinFieldsConcat | metalcloud/resource_metalcloud_instance_array.go:425-434 | the buffer written for a concatenation of field lists is the concatenation of the buffers |
| SetKeys.JoinFieldsIgnoresCase | metalcloud/resource_metalcloud_instance_array.go:425-434 | field lists that are equal up to letter case write the same buffer |
| SetKeys.JoinFieldsOneDiffers | metalcloud/resource_metalcloud_instance_array.go:425-434 | lists that differ in one field write the same buffer if and only if that field is equal up to case |
| SetKeys.InterfaceToString | metalcloud/resource_metalcloud_instance_array.go:387-404 | the key is the lower-cased network label, the decimal index and the decimal network id, each followed by a dash |
| SetKeys.InterfaceResourceHash | metalcloud/resource_metalcloud_instance_array.go:406-408 | an interface hash is a non-negative value below 2^32 |
| SetKeys.InterfaceKeyShape | metalcloud/resource_metalcloud_instance_array.go:394-403 | the key is the lower-case network label, the decimal index and the decimal network id, each followed by a dash |
| SetKeys.InterfaceKeyInjective | metalcloud/resource_metalcloud_instance_array.go:394-403 | for non-negative index and network id, two keys are equal if and only if the labels agree up to case and the numbers are equal |
| SetKeys.InterfaceHashIgnoresCase | metalcloud/resource_metalcloud_instance_array.go:387-408 | interfaces that differ only in the case of the network label hash alike |
| SetKeys.NegativeIndexCollision | metalcloud/resource_metalcloud_instance_array.go:394-401 | a negative index can make two different interfaces share a key |
| SetKeys.RuleFields | metalcloud/resource_metalcloud_instance_array.go:413-434 | a rule has ten key fields; their order and spelling are stated by `FirewallRuleKeyShape` |
| SetKeys.FirewallRuleKeyShape | metalcloud/resource_metalcloud_instance_array.go:413-436 | the rule key is the seven text fields lower-cased, then the start and end ports in decimal and `enabled` as `true`/`false`, in the order the buffer is written, each followed by a dash |
| SetKeys.FirewallRuleResourceHash | metalcloud/resource_metalcloud_instance_array.go:410-437 | a firewall-rule hash is a non-negative value below 2^32; no schema uses this function (line 119 is commented out, and line 482 hashes with `schema.HashResource`) |
| SetKeys.FlattenedRuleHash | metalcloud/resource_metalcloud_instance_array.go:410-437 | hashing a flattened rule is hashing that rule's key |
| SetKeys.FirewallRuleKeyIgnoresCase | metalcloud/resource_metalcloud_instance_array.go:425-434 | rules whose text fields agree up to case have the same key |
| SetKeys.FirewallRuleKeyDescription | metalcloud/resource_metalcloud_instance_array.go:425 | changing only the description changes the key if and only if it changes beyond letter case |
| SetKeys.FirewallRuleKeyPortStart | metalcloud/resource_metalcloud_instance_array.go:421-432 | changing only the start port changes the key if and only if the port differs |
| SetKeys.FirewallRuleKeyPortEnd | metalcloud/resource_metalcloud_instance_array.go:422-433 | changing only the end port changes the key if and only if the port differs |
| SetKeys.FirewallRuleKeyEnabled | metalcloud/resource_metalcloud_instance_array.go:423-434 | enabling or disabling a rule changes its key |
| InfrastructureDeployer.ValidateInfrastructureId | metalcloud/resource_metalcloud_infrastructure_deployer.go:31-37 | never a warning; an error if and only if the value is 0, with the "is required" message |
| InfrastructureDeployer.RequiredMessageNamesKey | metalcloud/resource_metalcloud_infrastructure_deployer.go:34 | the error message starts with the quoted key |
| InfrastructureDeployer.Classify | metalcloud/resource_metalcloud_infrastructure_deployer.go:296-314 | the target (or a failed fetch while waiting for `deleted`) is reached; `not_started`/`ongoing` are pending; a failed fetch otherwise fails; any other status is unexpected |
| InfrastructureDeployer.WaitDoneIff | metalcloud/resource_metalcloud_infrastructure_deployer.go:296-324 | the wait succeeds if and only if some poll reaches the target and every earlier poll is pending |
| InfrastructureDeployer.WaitForState | metalcloud/resource_metalcloud_infrastructure_deployer.go:322-324 | the poll loop ends with exactly the outcome `WaitResult` gives for the polls |
| InfrastructureDeployer.Deployer.Read | metalcloud/resource_metalcloud_infrastructure_deployer.go:139-171 | a failed fetch is an error; otherwise the service status is stored, and the custom variables are stored as `StateOf` (array form gives the empty map) |
| InfrastructureDeployer.Deployer.WaitForInfrastructureFinished | metalcloud/resource_metalcloud_infrastructure_deployer.go:292-331 | a failed wait is an error; a successful one reads back, except when waiting for `deleted` |
| InfrastructureDeployer.Deployer.CustomizeDiff | metalcloud/resource_metalcloud_infrastructure_deployer.go:110-117 | `edited` is set when `prevent_deploy` is false and left alone otherwise |
| InfrastructureDeployer.Deployer.PushCustomVariables | metalcloud/resource_metalcloud_infrastructure_deployer.go:229-253 | when pushed, one edit with the planned custom variables is logged |
| InfrastructureDeployer.Deployer.Update | metalcloud/resource_metalcloud_infrastructure_deployer.go:175-227 | the new state and diagnostics are exactly `UpdateSpec` of the old state |
| InfrastructureDeployer.Deployer.Create | metalcloud/resource_metalcloud_infrastructure_deployer.go:119-135 | a failed fetch is an error; otherwise the id is set to the fetched identifier and Update follows |
| InfrastructureDeployer.Deployer.Delete | metalcloud/resource_metalcloud_infrastructure_deployer.go:255-289 | the new state and diagnostics are exactly `DeleteSpec` of the old state |
| InfrastructureDeployer.ReadSpecOutcome | metalcloud/resource_metalcloud_infrastructure_deployer.go:139-171 | Read succeeds if and only if the fetch does; a failed fetch changes nothing; a successful one changes only the service status and the custom variables |
| InfrastructureDeployer.WaitSpecOutcome | metalcloud/resource_metalcloud_infrastructure_deployer.go:292-331 | the wait's own error occurs if and only if the polls do not reach the target; waiting for `deleted` leaves the state alone; otherwise only the read-back changes it |
| InfrastructureDeployer.UpdateSpec | metalcloud/resource_metalcloud_infrastructure_deployer.go:175-186 | an id that does not parse is an error and leaves the state unchanged |
| InfrastructureDeployer.CreateSpec | metalcloud/resource_metalcloud_infrastructure_deployer.go:119-135 | an infrastructure that is not found is an error and leaves the state unchanged; a found 64-bit identifier never leads to an invalid-id error |
| InfrastructureDeployer.DeleteSpec | metalcloud/resource_metalcloud_infrastructure_deployer.go:255-289 | Delete changes only the id and the call log; the id is either cleared or kept; an id that does not parse is an error with the state unchanged |
| InfrastructureDeployer.PreparedDeploys | metalcloud/resource_metalcloud_infrastructure_deployer.go:190-200 | the steps before the read-back issue one deploy if `edited && !prevent_deploy` and none otherwise |
| InfrastructureDeployer.UpdateDeploysIff | metalcloud/resource_metalcloud_infrastructure_deployer.go:190-200 | Update deploys exactly once if the id parses and `edited && !prevent_deploy`, and never otherwise |
| InfrastructureDeployer.UpdateEditedFlag | metalcloud/resource_metalcloud_infrastructure_deployer.go:196-198 | a deploy clears `edited`; otherwise it is kept; the configured flags and options never change |
| InfrastructureDeployer.UpdateResetsId | metalcloud/resource_metalcloud_infrastructure_deployer.go:180-188 | after Update the id parses to `infrastructure_id`; an unparsable id leaves the whole state unchanged |
| InfrastructureDeployer.SecondUpdateDoesNotDeploy | metalcloud/resource_metalcloud_infrastructure_deployer.go:196-198 | a second Update with no diff in between issues no deploy |
| InfrastructureDeployer.DiffRearmsDeploy | metalcloud/resource_metalcloud_infrastructure_deployer.go:110-117 | with deploys allowed, a diff between two Updates makes the second one deploy |
| InfrastructureDeployer.UpdateDeployFailureWarns | metalcloud/resource_metalcloud_infrastructure_deployer.go:202-213 | a failed deploy yields the warning naming the infrastructure, unless the read-back fails |
| InfrastructureDeployer.UpdateAwaitsFinished | metalcloud/resource_metalcloud_infrastructure_deployer.go:216-218 | with `await_deploy_finished`, a successful deploy is followed by waiting for `finished`, and the result is that wait's |
| InfrastructureDeployer.UpdateErrorCauses | metalcloud/resource_metalcloud_infrastructure_deployer.go:175-227 | Update never returns a deploy or delete error, and warns only for a failed deploy |
| InfrastructureDeployer.DeleteDeletesFirst | metalcloud/resource_metalcloud_infrastructure_deployer.go:259-268 | with a parsable id the first call is the delete of that id |
| InfrastructureDeployer.DeleteDeploysIff | metalcloud/resource_metalcloud_infrastructure_deployer.go:266-277 | Delete deploys exactly when the delete call succeeded, `prevent_deploy` is false and the status is `active` |
| InfrastructureDeployer.DeleteClearsId | metalcloud/resource_metalcloud_infrastructure_deployer.go:278-288 | success clears the id; every failure is an error and keeps it; nothing else is read back |
| InfrastructureDeployer.WaitForDeletedIgnoresRead | metalcloud/resource_metalcloud_infrastructure_deployer.go:307-328 | waiting for `deleted` does not depend on a read-back, and a failed fetch counts as done |

## Left out

- **Platform calls.** The vendor SDK's calls are not modelled as behaviour:
  - their answers and failures are parameters;
  - the calls that change the platform are logged (instance edits, infrastructure edit, deploy, delete);
  - the `InstanceArrayEdit` call, `InstanceArrayGet` and the instance-array Create/Read/Delete handlers are not part of this model beyond the edit preparation.
- **`json.Marshal` of the ordered instances.** Only the order is modelled.
- **Terraform framework machinery:**
  - schema declarations, `schema.NewSet`, `ResourceData` bookkeeping and diagnostics detail strings;
  - errors from `d.Set`;
  - the `d.HasChange(...) || d.Get("id") == nil` condition in `updateInfrastructureCustomVariables` is the `push` parameter.
- **The wait.** The timeout, delays and `log.Printf` of `WaitForState` are not modelled; running out of polls stands for the timeout.
- **Panics:**
  - type-assertion panics on malformed maps;
  - the panic on a negative `instance_index` (the model requires non-negative indices);
  - the nil dereference when the infrastructure fetch in `updateInfrastructureCustomVariables` fails;
  - none of these is modelled.
- **Text handling:**
  - `hash` feeds Go's raw bytes of a string to the CRC; the model encodes a string of Unicode scalar values as UTF-8, so a Go string holding invalid UTF-8 cannot be represented (Terraform strings are valid UTF-8);
  - Unicode case mapping beyond ASCII in `strings.ToLower`;
  - Go's escaping in `%q` for keys with quotes, backslashes or control characters.
- **Not part of this model.** `validateLabel` and `validateMaxOne` are referenced but their source is not part of this model.
- **InstanceArrayCodecs.InstanceArrayOperation.CopyInstanceArrayToOperation:** the field writes are split into two helper methods to keep each proof small. The order of writes inside them is not observable and is not modelled.
- **CustomVariableSync.UpdateInstancesCustomVariables:** the per-call error values are not kept. Only whether the update stopped, and after which edit, is modelled.
- **InfrastructureDeployer.Deployer.Update:** the diagnostics keep the cause of an error and the warning summary, not Go's error text or the warning detail.
- **InfrastructureDeployer.Deployer.PushCustomVariables:** the infrastructure fetch and the failure of the edit are not modelled. A failed edit is dropped by the source. A failed fetch is followed by a nil dereference, which panics (see Panics); the model does not capture that panic.

## Findings

| source | as written | input that shows it | evidently intended | confidence | as-written member | corrected member |
|---|---|---|---|---|---|---|
| metalcloud/resource_metalcloud_instance_array.go:341-347 | `copyInstanceArrayInterfaceToOperation(intf, &opIntf)` writes to the loop variable, a per-iteration copy, so the operation's interface list sent to `InstanceArrayEdit` is never changed. On the Update path the loop does not even run: `expandInstanceArray` (lines 488-533) never sets the planned interfaces. `PrepareEdit` models the edit as written; `PrepareEditCorrected` models the intended one | planned interface id 7, index 1, network 30 against operation interface id 7, index 0, network 30: the edit still carries index 0 (the Update path cannot produce this input today, since its planned interfaces are always empty) | each operation interface takes the LAGG indexes, index and network id of the planned interface with the same id | not executed | InstanceArrayUpdate.UpdateInterfaceOperationsAsWritten | InstanceArrayUpdate.UpdateInterfaceOperations |
