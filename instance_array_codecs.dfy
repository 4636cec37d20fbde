/** Conversions between the SDK's instance-array records and the string-keyed maps the
    Terraform schema stores (`flattenFirewallRule`/`expandFirewallRule`,
    `flattenInstanceArrayInterface`/`expandInstanceArrayInterface`), and the copies of
    planned values into the platform's operation objects before an edit
    (`copyInstanceArrayToOperation`, `copyInstanceArrayInterfaceToOperation`). */
module InstanceArrayCodecs {
  import opened Values
  import opened CustomVariables

  // ---------------------------------------------------------------------------
  // Firewall rules

  /** `mc.FirewallRule`. */
  datatype FirewallRule = FirewallRule(
    description: string,
    portRangeStart: int,
    portRangeEnd: int,
    sourceIPAddressRangeStart: string,
    sourceIPAddressRangeEnd: string,
    destinationIPAddressRangeStart: string,
    destinationIPAddressRangeEnd: string,
    protocol: string,
    ipAddressType: string,
    enabled: bool)

  const DESCRIPTION := "firewall_rule_description"
  const PORT_RANGE_START := "firewall_rule_port_range_start"
  const PORT_RANGE_END := "firewall_rule_port_range_end"
  const SOURCE_RANGE_START := "firewall_rule_source_ip_address_range_start"
  const SOURCE_RANGE_END := "firewall_rule_source_ip_address_range_end"
  const DESTINATION_RANGE_START := "firewall_rule_destination_ip_address_range_start"
  const DESTINATION_RANGE_END := "firewall_rule_destination_ip_address_range_end"
  const PROTOCOL := "firewall_rule_protocol"
  const IP_ADDRESS_TYPE := "firewall_rule_ip_address_type"
  const ENABLED := "firewall_rule_enabled"

  /** The keys of a `firewall_rule` block. */
  const FIREWALL_RULE_KEYS: set<string> := {
    DESCRIPTION, PORT_RANGE_START, PORT_RANGE_END, SOURCE_RANGE_START, SOURCE_RANGE_END,
    DESTINATION_RANGE_START, DESTINATION_RANGE_END, PROTOCOL, IP_ADDRESS_TYPE, ENABLED}

  /** A map whose type assertions in `expandFirewallRule` (and `firewallRuleResourceHash`)
      all succeed: every rule key is present with the schema's type. */
  predicate IsFirewallRuleMap(m: map<string, Value>)
  {
    HasStr(m, DESCRIPTION) && HasInt(m, PORT_RANGE_START) && HasInt(m, PORT_RANGE_END) &&
    HasStr(m, SOURCE_RANGE_START) && HasStr(m, SOURCE_RANGE_END) &&
    HasStr(m, DESTINATION_RANGE_START) && HasStr(m, DESTINATION_RANGE_END) &&
    HasStr(m, PROTOCOL) && HasStr(m, IP_ADDRESS_TYPE) && HasBool(m, ENABLED)
  }

  /** `flattenFirewallRule`: the ten rule fields under their schema keys. */
  function FlattenFirewallRule(fw: FirewallRule): (m: map<string, Value>)
    ensures m.Keys == FIREWALL_RULE_KEYS
    ensures IsFirewallRuleMap(m)
  {
    map[
      DESCRIPTION := Str(fw.description),
      PORT_RANGE_START := Int(fw.portRangeStart),
      PORT_RANGE_END := Int(fw.portRangeEnd),
      SOURCE_RANGE_START := Str(fw.sourceIPAddressRangeStart),
      SOURCE_RANGE_END := Str(fw.sourceIPAddressRangeEnd),
      DESTINATION_RANGE_START := Str(fw.destinationIPAddressRangeStart),
      DESTINATION_RANGE_END := Str(fw.destinationIPAddressRangeEnd),
      PROTOCOL := Str(fw.protocol),
      IP_ADDRESS_TYPE := Str(fw.ipAddressType),
      ENABLED := Bool(fw.enabled)]
  }

  /** `expandFirewallRule`: reads the ten rule fields back; other keys are ignored. */
  function ExpandFirewallRule(m: map<string, Value>): (fw: FirewallRule)
    requires IsFirewallRuleMap(m)
    ensures forall k :: k in FIREWALL_RULE_KEYS ==> FlattenFirewallRule(fw)[k] == m[k]
  {
    FirewallRule(
      m[DESCRIPTION].s,
      m[PORT_RANGE_START].i,
      m[PORT_RANGE_END].i,
      m[SOURCE_RANGE_START].s,
      m[SOURCE_RANGE_END].s,
      m[DESTINATION_RANGE_START].s,
      m[DESTINATION_RANGE_END].s,
      m[PROTOCOL].s,
      m[IP_ADDRESS_TYPE].s,
      m[ENABLED].b)
  }

  /** Expanding a flattened rule gives the rule back, all ten fields. */
  lemma ExpandFlattenFirewallRule(fw: FirewallRule)
    ensures ExpandFirewallRule(FlattenFirewallRule(fw)) == fw
  {
  }

  /** Flattening an expanded map gives back its rule keys with their values. */
  lemma FlattenExpandFirewallRule(m: map<string, Value>)
    requires IsFirewallRuleMap(m)
    ensures FlattenFirewallRule(ExpandFirewallRule(m)) == map k | k in m && k in FIREWALL_RULE_KEYS :: m[k]
  {
    var back := FlattenFirewallRule(ExpandFirewallRule(m));
    var kept := map k | k in m && k in FIREWALL_RULE_KEYS :: m[k];
    assert back.Keys == kept.Keys;
    forall k | k in back
      ensures back[k] == kept[k]
    {
    }
  }

  /** Two rules that flatten to the same map are the same rule. */
  lemma FlattenFirewallRuleInjective(a: FirewallRule, b: FirewallRule)
    requires FlattenFirewallRule(a) == FlattenFirewallRule(b)
    ensures a == b
  {
    ExpandFlattenFirewallRule(a);
    ExpandFlattenFirewallRule(b);
  }

  // ---------------------------------------------------------------------------
  // Interfaces

  /** The fields of `mc.InstanceArrayInterface` the provider reads or writes; `interfaceLabel` and
      `serviceStatus` stand for the ones it never maps. */
  datatype InstanceArrayInterface = InstanceArrayInterface(
    interfaceId: int,
    laggIndexes: seq<Value>,
    interfaceIndex: int,
    networkId: int,
    interfaceLabel: string,
    serviceStatus: string)

  const INTERFACE_ID := "instance_array_interface_id"
  const INTERFACE_INDEX := "interface_index"
  const NETWORK_ID := "network_id"

  /** A map `expandInstanceArrayInterface` accepts: index and network id are integers, and
      the interface id, if present, is one too. */
  predicate IsInterfaceMap(m: map<string, Value>)
  {
    (INTERFACE_ID in m ==> m[INTERFACE_ID].Int?) && HasInt(m, INTERFACE_INDEX) && HasInt(m, NETWORK_ID)
  }

  /** `flattenInstanceArrayInterface`: the interface id, index and network id. */
  function FlattenInstanceArrayInterface(i: InstanceArrayInterface): (m: map<string, Value>)
    ensures m.Keys == {INTERFACE_ID, INTERFACE_INDEX, NETWORK_ID}
    ensures IsInterfaceMap(m)
  {
    map[INTERFACE_ID := Int(i.interfaceId), INTERFACE_INDEX := Int(i.interfaceIndex), NETWORK_ID := Int(i.networkId)]
  }

  /** `expandInstanceArrayInterface`: a missing interface id leaves Go's zero value; every
      field the map does not hold is zero. */
  function ExpandInstanceArrayInterface(m: map<string, Value>): (i: InstanceArrayInterface)
    requires IsInterfaceMap(m)
    ensures INTERFACE_ID in m ==> Int(i.interfaceId) == m[INTERFACE_ID]
    ensures INTERFACE_ID !in m ==> i.interfaceId == 0
    ensures Int(i.interfaceIndex) == m[INTERFACE_INDEX] && Int(i.networkId) == m[NETWORK_ID]
    ensures i.laggIndexes == [] && i.interfaceLabel == "" && i.serviceStatus == ""
  {
    InstanceArrayInterface(
      if INTERFACE_ID in m then m[INTERFACE_ID].i else 0,
      [],
      m[INTERFACE_INDEX].i,
      m[NETWORK_ID].i,
      "",
      "")
  }

  /** The round trip keeps the id, the index and the network id and clears the rest. */
  lemma ExpandFlattenInterface(i: InstanceArrayInterface)
    ensures ExpandInstanceArrayInterface(FlattenInstanceArrayInterface(i)) ==
      i.(laggIndexes := [], interfaceLabel := "", serviceStatus := "")
  {
  }

  /** Flattening an expanded map gives back its three keys, the id defaulting to 0. */
  lemma FlattenExpandInterface(m: map<string, Value>)
    requires IsInterfaceMap(m)
    ensures FlattenInstanceArrayInterface(ExpandInstanceArrayInterface(m)) ==
      map[INTERFACE_ID := if INTERFACE_ID in m then m[INTERFACE_ID] else Int(0),
          INTERFACE_INDEX := m[INTERFACE_INDEX], NETWORK_ID := m[NETWORK_ID]]
  {
  }

  /** The part of `mc.InstanceArrayInterfaceOperation` the provider touches; `interfaceLabel`
      stands for the fields it leaves alone. */
  datatype InterfaceOperation = InterfaceOperation(
    interfaceId: int,
    laggIndexes: seq<Value>,
    interfaceIndex: int,
    networkId: int,
    interfaceLabel: string)

  /** `copyInstanceArrayInterfaceToOperation`, applied to the operation value its pointer
      designates: LAGG indexes, index and network id come from the interface. */
  function CopyInterfaceToOperation(i: InstanceArrayInterface, io: InterfaceOperation): (r: InterfaceOperation)
    ensures r.laggIndexes == i.laggIndexes && r.interfaceIndex == i.interfaceIndex && r.networkId == i.networkId
    ensures r.interfaceId == io.interfaceId && r.interfaceLabel == io.interfaceLabel
  {
    io.(laggIndexes := i.laggIndexes, interfaceIndex := i.interfaceIndex, networkId := i.networkId)
  }

  /** Copying the same interface twice changes nothing more, and a later copy overrides an
      earlier one entirely. */
  lemma CopyInterfaceLastWins(i: InstanceArrayInterface, j: InstanceArrayInterface, io: InterfaceOperation)
    ensures CopyInterfaceToOperation(i, CopyInterfaceToOperation(j, io)) == CopyInterfaceToOperation(i, io)
  {
  }

  // ---------------------------------------------------------------------------
  // The instance-array operation

  /** The fields of `mc.InstanceArray` that `copyInstanceArrayToOperation` reads, and the
      core count it does not. */
  datatype InstanceArray = InstanceArray(
    instanceArrayId: int,
    instanceArrayLabel: string,
    bootMethod: string,
    instanceCount: int,
    ramGbytes: int,
    processorCount: int,
    processorCoreMhz: int,
    processorCoreCount: int,
    diskCount: int,
    diskSizeMbytes: int,
    diskTypes: seq<string>,
    clusterId: int,
    firewallManaged: bool,
    firewallRules: seq<FirewallRule>,
    volumeTemplateId: int,
    additionalWanIpv4Json: string,
    customVariables: CustomVariables,
    interfaces: seq<InstanceArrayInterface>)

  /** A snapshot of a selection of the operation object's fields: the sixteen the copy
      writes and three that it leaves alone; the object has further fields, which the
      model does not carry. */
  datatype OperationState = OperationState(
    instanceArrayId: int,
    instanceArrayLabel: string,
    bootMethod: string,
    instanceCount: int,
    ramGbytes: int,
    processorCount: int,
    processorCoreMhz: int,
    processorCoreCount: int,
    diskCount: int,
    diskSizeMbytes: int,
    diskTypes: seq<string>,
    clusterId: int,
    firewallManaged: bool,
    firewallRules: seq<FirewallRule>,
    volumeTemplateId: int,
    additionalWanIpv4Json: string,
    customVariables: CustomVariables,
    subdomain: string,
    interfaces: seq<InterfaceOperation>)

  /** The operation state after copying the instance array's sixteen fields into `s`. */
  function CopiedState(ia: InstanceArray, s: OperationState): OperationState
  {
    OperationState(ia.instanceArrayId, ia.instanceArrayLabel, ia.bootMethod, ia.instanceCount, ia.ramGbytes,
      ia.processorCount, ia.processorCoreMhz, s.processorCoreCount, ia.diskCount, ia.diskSizeMbytes,
      ia.diskTypes, ia.clusterId, ia.firewallManaged, ia.firewallRules, ia.volumeTemplateId,
      ia.additionalWanIpv4Json, ia.customVariables, s.subdomain, s.interfaces)
  }

  /** Copying twice is copying once, and the copy keeps the core count, the subdomain and
      the interface operations of the operation it overwrites. */
  lemma CopiedStateIdempotent(ia: InstanceArray, s: OperationState)
    ensures CopiedState(ia, CopiedState(ia, s)) == CopiedState(ia, s)
    ensures CopiedState(ia, s).processorCoreCount == s.processorCoreCount
    ensures CopiedState(ia, s).subdomain == s.subdomain && CopiedState(ia, s).interfaces == s.interfaces
  {
  }

  /** Two operations end up equal after the copy exactly when they agreed on the three
      modelled fields the copy leaves alone. */
  lemma CopiedStateDependsOnlyOnUncopied(ia: InstanceArray, s: OperationState, t: OperationState)
    ensures CopiedState(ia, s) == CopiedState(ia, t) <==>
      s.processorCoreCount == t.processorCoreCount && s.subdomain == t.subdomain && s.interfaces == t.interfaces
  {
    if s.processorCoreCount == t.processorCoreCount && s.subdomain == t.subdomain && s.interfaces == t.interfaces {
      assert CopiedState(ia, s) == CopiedState(ia, t);
    }
  }

  /** `mc.InstanceArrayOperation`, updated in place through its pointer. */
  class InstanceArrayOperation {
    var instanceArrayId: int
    var instanceArrayLabel: string
    var bootMethod: string
    var instanceCount: int
    var ramGbytes: int
    var processorCount: int
    var processorCoreMhz: int
    var processorCoreCount: int
    var diskCount: int
    var diskSizeMbytes: int
    var diskTypes: seq<string>
    var clusterId: int
    var firewallManaged: bool
    var firewallRules: seq<FirewallRule>
    var volumeTemplateId: int
    var additionalWanIpv4Json: string
    var customVariables: CustomVariables
    var subdomain: string
    var interfaces: seq<InterfaceOperation>

    constructor (s: OperationState)
      ensures State() == s
    {
      instanceArrayId := s.instanceArrayId;
      instanceArrayLabel := s.instanceArrayLabel;
      bootMethod := s.bootMethod;
      instanceCount := s.instanceCount;
      ramGbytes := s.ramGbytes;
      processorCount := s.processorCount;
      processorCoreMhz := s.processorCoreMhz;
      processorCoreCount := s.processorCoreCount;
      diskCount := s.diskCount;
      diskSizeMbytes := s.diskSizeMbytes;
      diskTypes := s.diskTypes;
      clusterId := s.clusterId;
      firewallManaged := s.firewallManaged;
      firewallRules := s.firewallRules;
      volumeTemplateId := s.volumeTemplateId;
      additionalWanIpv4Json := s.additionalWanIpv4Json;
      customVariables := s.customVariables;
      subdomain := s.subdomain;
      interfaces := s.interfaces;
    }

    function State(): OperationState
      reads this
    {
      OperationState(instanceArrayId, instanceArrayLabel, bootMethod, instanceCount, ramGbytes,
        processorCount, processorCoreMhz, processorCoreCount, diskCount, diskSizeMbytes, diskTypes,
        clusterId, firewallManaged, firewallRules, volumeTemplateId, additionalWanIpv4Json,
        customVariables, subdomain, interfaces)
    }

    /** The first seven copied fields: id, label, boot method and compute sizing. */
    method CopyIdentityAndCompute(ia: InstanceArray)
      modifies this
      ensures instanceArrayId == ia.instanceArrayId && instanceArrayLabel == ia.instanceArrayLabel
      ensures bootMethod == ia.bootMethod && instanceCount == ia.instanceCount
      ensures ramGbytes == ia.ramGbytes && processorCount == ia.processorCount
      ensures processorCoreMhz == ia.processorCoreMhz
      ensures unchanged(`processorCoreCount, `diskCount, `diskSizeMbytes, `diskTypes, `clusterId, `firewallManaged,
        `firewallRules, `volumeTemplateId, `additionalWanIpv4Json, `customVariables, `subdomain, `interfaces)
    {
      instanceArrayId := ia.instanceArrayId;
      instanceArrayLabel := ia.instanceArrayLabel;
      bootMethod := ia.bootMethod;
      instanceCount := ia.instanceCount;
      ramGbytes := ia.ramGbytes;
      processorCount := ia.processorCount;
      processorCoreMhz := ia.processorCoreMhz;
    }

    /** The other nine copied fields: drives, cluster, firewall, template, WAN and custom variables. */
    method CopyStorageAndSettings(ia: InstanceArray)
      modifies this
      ensures diskCount == ia.diskCount && diskSizeMbytes == ia.diskSizeMbytes
      ensures diskTypes == ia.diskTypes && clusterId == ia.clusterId
      ensures firewallManaged == ia.firewallManaged && firewallRules == ia.firewallRules
      ensures volumeTemplateId == ia.volumeTemplateId
      ensures additionalWanIpv4Json == ia.additionalWanIpv4Json
      ensures customVariables == ia.customVariables
      ensures unchanged(`instanceArrayId, `instanceArrayLabel, `bootMethod, `instanceCount, `ramGbytes, `processorCount,
        `processorCoreMhz, `processorCoreCount, `subdomain, `interfaces)
    {
      diskCount := ia.diskCount;
      diskSizeMbytes := ia.diskSizeMbytes;
      diskTypes := ia.diskTypes;
      clusterId := ia.clusterId;
      firewallManaged := ia.firewallManaged;
      firewallRules := ia.firewallRules;
      volumeTemplateId := ia.volumeTemplateId;
      additionalWanIpv4Json := ia.additionalWanIpv4Json;
      customVariables := ia.customVariables;
    }

    /** `copyInstanceArrayToOperation`: sixteen fields are set from the instance array;
        the core count, the subdomain and the interface operations are left alone. */
    method CopyInstanceArrayToOperation(ia: InstanceArray)
      modifies this
      ensures State() == CopiedState(ia, old(State()))
    {
      CopyIdentityAndCompute(ia);
      CopyStorageAndSettings(ia);
    }
  }
}
