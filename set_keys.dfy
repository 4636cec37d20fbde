/** The identity of the elements of the `interface` set, and the provider's unused hash for
    firewall rules. Terraform tells two elements of a set apart by an integer hash. For
    `interface` the provider computes it from a canonical string in which every field is
    lower-cased and followed by a dash (`interfaceToString`), hashed with CRC-32 (`hash`).
    The `firewall_rule` set is hashed by Terraform's own `schema.HashResource`; the provider
    also defines `firewallRuleResourceHash` in the same style, but no schema refers to it, so
    `FirewallRuleResourceHash` below models a function the provider never calls. The writes
    into the `bytes.Buffer` are modelled as string concatenation. */
module SetKeys {
  import opened Values
  import opened Text
  import opened Crc32
  import opened InstanceArrayCodecs

  /** One field of a key: the lower-cased text followed by a dash. */
  function Field(s: string): string
  {
    Lower(s) + "-"
  }

  /** The fields of `parts`, in order, written one after the other into the buffer. */
  function JoinFields(parts: seq<string>): string
    decreases |parts|
  {
    if parts == [] then "" else JoinFields(parts[..|parts| - 1]) + Field(parts[|parts| - 1])
  }

  lemma {:induction false} JoinFieldsConcat(a: seq<string>, b: seq<string>)
    ensures JoinFields(a + b) == JoinFields(a) + JoinFields(b)
    decreases |b|
  {
    if b == [] {
      assert a + b == a;
    } else {
      var n := |b| - 1;
      assert (a + b)[..|a + b| - 1] == a + b[..n];
      JoinFieldsConcat(a, b[..n]);
    }
  }

  /** Fields that are equal up to letter case give the same key. */
  lemma {:induction false} JoinFieldsIgnoresCase(ps: seq<string>, qs: seq<string>)
    requires |ps| == |qs| && forall j :: 0 <= j < |ps| ==> Lower(ps[j]) == Lower(qs[j])
    ensures JoinFields(ps) == JoinFields(qs)
    decreases |ps|
  {
    if ps != [] {
      var n := |ps| - 1;
      JoinFieldsIgnoresCase(ps[..n], qs[..n]);
    }
  }

  /** When two field lists differ at most at position `i`, their keys are equal exactly when
      the two fields at `i` are equal up to letter case. */
  lemma JoinFieldsOneDiffers(ps: seq<string>, qs: seq<string>, i: int)
    requires |ps| == |qs| && 0 <= i < |ps|
    requires forall j :: 0 <= j < |ps| && j != i ==> ps[j] == qs[j]
    ensures JoinFields(ps) == JoinFields(qs) <==> Lower(ps[i]) == Lower(qs[i])
  {
    var front, back := ps[..i], ps[i + 1..];
    assert qs[..i] == front && qs[i + 1..] == back;
    assert ps == front + [ps[i]] + back;
    assert qs == front + [qs[i]] + back;
    JoinFieldsConcat(front + [ps[i]], back);
    JoinFieldsConcat(front, [ps[i]]);
    JoinFieldsConcat(front + [qs[i]], back);
    JoinFieldsConcat(front, [qs[i]]);
    assert JoinFields([ps[i]]) == Field(ps[i]) && JoinFields([qs[i]]) == Field(qs[i]) by {
      assert [ps[i]][..0] == [] && [qs[i]][..0] == [];
    }
    var x, y := Field(ps[i]), Field(qs[i]);
    var p, b := JoinFields(front), JoinFields(back);
    if p + x + b == p + y + b {
      assert x == (p + x + b)[|p|..|p| + |x|];
      assert |x| == |y|;
      assert y == (p + y + b)[|p|..|p| + |y|];
      assert Lower(ps[i]) == x[..|x| - 1] && Lower(qs[i]) == y[..|y| - 1];
    }
  }

  // ---------------------------------------------------------------------------
  // Interfaces

  const NETWORK_LABEL := "network_label"

  /** A map whose type assertions in `interfaceToString` succeed. */
  predicate IsHashedInterfaceMap(m: map<string, Value>)
  {
    HasInt(m, INTERFACE_INDEX) && HasInt(m, NETWORK_ID) && HasStr(m, NETWORK_LABEL)
  }

  /** The key of an interface: its network label, interface index and network id. */
  function InterfaceKey(networkLabel: string, interfaceIndex: int, networkId: int): string
  {
    JoinFields([networkLabel, Itoa(interfaceIndex), Itoa(networkId)])
  }

  /** `interfaceToString`: the lower-cased network label, the interface index and the network
      id, each followed by a dash. */
  function InterfaceToString(m: map<string, Value>): (key: string)
    requires IsHashedInterfaceMap(m)
    ensures key == Lower(m[NETWORK_LABEL].s) + "-" + Itoa(m[INTERFACE_INDEX].i) + "-" + Itoa(m[NETWORK_ID].i) + "-"
  {
    InterfaceKeyShape(m[NETWORK_LABEL].s, m[INTERFACE_INDEX].i, m[NETWORK_ID].i);
    InterfaceKey(m[NETWORK_LABEL].s, m[INTERFACE_INDEX].i, m[NETWORK_ID].i)
  }

  /** `interfaceResourceHash`. */
  function InterfaceResourceHash(m: map<string, Value>): (h: int)
    requires IsHashedInterfaceMap(m)
    ensures 0 <= h < 0x1_0000_0000
  {
    Hash(InterfaceToString(m))
  }

  /** The key spelled out: lower-cased label, index and network id, each followed by a dash. */
  lemma InterfaceKeyShape(networkLabel: string, interfaceIndex: int, networkId: int)
    ensures InterfaceKey(networkLabel, interfaceIndex, networkId) ==
      Lower(networkLabel) + "-" + Itoa(interfaceIndex) + "-" + Itoa(networkId) + "-"
  {
    var parts := [networkLabel, Itoa(interfaceIndex), Itoa(networkId)];
    var key := Lower(networkLabel) + "-";
    assert JoinFields(parts[..1]) == key by {
      assert parts[..1] == [networkLabel];
      JoinFieldsSingle(networkLabel);
    }
    JoinFieldsPrefix(parts, 1, key);
    key := key + Lower(Itoa(interfaceIndex)) + "-";
    JoinFieldsPrefix(parts, 2, key);
    key := key + Lower(Itoa(networkId)) + "-";
    assert parts[..3] == parts;
    LowerOfItoa(interfaceIndex);
    LowerOfItoa(networkId);
  }

  /** For non-negative indexes and network ids, two interfaces get the same key exactly when
      their labels are equal up to letter case and their index and network id are equal. */
  lemma InterfaceKeyInjective(l1: string, i1: int, n1: int, l2: string, i2: int, n2: int)
    requires i1 >= 0 && n1 >= 0 && i2 >= 0 && n2 >= 0
    ensures InterfaceKey(l1, i1, n1) == InterfaceKey(l2, i2, n2) <==>
      Lower(l1) == Lower(l2) && i1 == i2 && n1 == n2
  {
    InterfaceKeyShape(l1, i1, n1);
    InterfaceKeyShape(l2, i2, n2);
    if InterfaceKey(l1, i1, n1) == InterfaceKey(l2, i2, n2) {
      var k1 := Lower(l1) + "-" + Itoa(i1) + "-" + Itoa(n1);
      var k2 := Lower(l2) + "-" + Itoa(i2) + "-" + Itoa(n2);
      assert k1 == (k1 + "-")[..|k1|];
      assert k2 == (k2 + "-")[..|k2|];
      ItoaOfNatIsDigits(i1);
      ItoaOfNatIsDigits(n1);
      ItoaOfNatIsDigits(i2);
      ItoaOfNatIsDigits(n2);
      SplitBeforeDigits(Lower(l1) + "-" + Itoa(i1), Itoa(n1), Lower(l2) + "-" + Itoa(i2), Itoa(n2));
      SplitBeforeDigits(Lower(l1), Itoa(i1), Lower(l2), Itoa(i2));
      ItoaInjective(i1, i2);
      ItoaInjective(n1, n2);
    }
  }

  /** Two interfaces whose labels differ only in letter case hash alike. */
  lemma InterfaceHashIgnoresCase(m1: map<string, Value>, m2: map<string, Value>)
    requires IsHashedInterfaceMap(m1) && IsHashedInterfaceMap(m2)
    requires Lower(m1[NETWORK_LABEL].s) == Lower(m2[NETWORK_LABEL].s)
    requires m1[INTERFACE_INDEX] == m2[INTERFACE_INDEX] && m1[NETWORK_ID] == m2[NETWORK_ID]
    ensures InterfaceToString(m1) == InterfaceToString(m2)
    ensures InterfaceResourceHash(m1) == InterfaceResourceHash(m2)
  {
    JoinFieldsIgnoresCase([m1[NETWORK_LABEL].s, Itoa(m1[INTERFACE_INDEX].i), Itoa(m1[NETWORK_ID].i)],
                          [m2[NETWORK_LABEL].s, Itoa(m2[INTERFACE_INDEX].i), Itoa(m2[NETWORK_ID].i)]);
  }

  /** With a negative index the key is ambiguous: a label ending in a dash and a positive
      index spell the same key as the label without the dash and the negative index. */
  lemma NegativeIndexCollision()
    ensures InterfaceKey("a", -1, 5) == InterfaceKey("a-", 1, 5)
    ensures Lower("a") != Lower("a-")
  {
    assert Itoa(5) == "5";
    assert InterfaceKey("a", -1, 5) == "a--1-5-" by {
      InterfaceKeyShape("a", -1, 5);
      assert Lower("a") == "a" by {
        assert LowerChar('a') == 'a';
      }
      assert Itoa(-1) == "-1" by {
        assert NatToDecimal(1) == "1";
      }
    }
    assert InterfaceKey("a-", 1, 5) == "a--1-5-" by {
      InterfaceKeyShape("a-", 1, 5);
      assert Lower("a-") == "a-" by {
        assert LowerChar('a') == 'a' && LowerChar('-') == '-';
      }
      assert Itoa(1) == "1";
    }
    assert |Lower("a")| == 1 && |Lower("a-")| == 2;
  }

  // ---------------------------------------------------------------------------
  // Firewall rules

  /** The ten fields of a rule in the order `firewallRuleResourceHash` writes them. */
  function RuleFields(fw: FirewallRule): (parts: seq<string>)
    ensures |parts| == 10
  {
    [fw.description, fw.sourceIPAddressRangeStart, fw.sourceIPAddressRangeEnd,
     fw.destinationIPAddressRangeStart, fw.destinationIPAddressRangeEnd, fw.protocol,
     fw.ipAddressType, Itoa(fw.portRangeStart), Itoa(fw.portRangeEnd), FormatBool(fw.enabled)]
  }

  /** The key of a rule. */
  function FirewallRuleKey(fw: FirewallRule): string
  {
    JoinFields(RuleFields(fw))
  }

  /** A single field makes up the whole buffer. */
  lemma JoinFieldsSingle(p: string)
    ensures JoinFields([p]) == Lower(p) + "-"
  {
    assert [p][..0] == [];
  }

  /** Each field of a list is appended to the buffer of the fields before it. */
  lemma JoinFieldsPrefix(parts: seq<string>, k: int, written: string)
    requires 0 <= k < |parts| && JoinFields(parts[..k]) == written
    ensures JoinFields(parts[..k + 1]) == written + Lower(parts[k]) + "-"
  {
    assert parts[..k + 1][..k] == parts[..k];
  }

  /** A buffer of ten fields spelled out. */
  lemma JoinTenFields(p: seq<string>)
    requires |p| == 10
    ensures JoinFields(p) ==
      Lower(p[0]) + "-" + Lower(p[1]) + "-" + Lower(p[2]) + "-" + Lower(p[3]) + "-" +
      Lower(p[4]) + "-" + Lower(p[5]) + "-" + Lower(p[6]) + "-" + Lower(p[7]) + "-" +
      Lower(p[8]) + "-" + Lower(p[9]) + "-"
  {
    var key := Lower(p[0]) + "-";
    assert JoinFields(p[..1]) == key by {
      assert p[..1] == [p[0]];
      JoinFieldsSingle(p[0]);
    }
    JoinFieldsPrefix(p, 1, key);
    key := key + Lower(p[1]) + "-";
    JoinFieldsPrefix(p, 2, key);
    key := key + Lower(p[2]) + "-";
    JoinFieldsPrefix(p, 3, key);
    key := key + Lower(p[3]) + "-";
    JoinFieldsPrefix(p, 4, key);
    key := key + Lower(p[4]) + "-";
    JoinFieldsPrefix(p, 5, key);
    key := key + Lower(p[5]) + "-";
    JoinFieldsPrefix(p, 6, key);
    key := key + Lower(p[6]) + "-";
    JoinFieldsPrefix(p, 7, key);
    key := key + Lower(p[7]) + "-";
    JoinFieldsPrefix(p, 8, key);
    key := key + Lower(p[8]) + "-";
    JoinFieldsPrefix(p, 9, key);
    key := key + Lower(p[9]) + "-";
    assert p[..10] == p;
  }

  /** The rule key spelled out: the seven text fields lower-cased, then the two ports in
      decimal and `enabled` as `true`/`false`, in the order the buffer is written, each
      followed by a dash. */
  lemma FirewallRuleKeyShape(fw: FirewallRule)
    ensures FirewallRuleKey(fw) ==
      Lower(fw.description) + "-" + Lower(fw.sourceIPAddressRangeStart) + "-" +
      Lower(fw.sourceIPAddressRangeEnd) + "-" + Lower(fw.destinationIPAddressRangeStart) + "-" +
      Lower(fw.destinationIPAddressRangeEnd) + "-" + Lower(fw.protocol) + "-" +
      Lower(fw.ipAddressType) + "-" + Itoa(fw.portRangeStart) + "-" + Itoa(fw.portRangeEnd) + "-" +
      FormatBool(fw.enabled) + "-"
  {
    JoinTenFields(RuleFields(fw));
    LowerOfItoa(fw.portRangeStart);
    LowerOfItoa(fw.portRangeEnd);
    LowerOfFormatBool(fw.enabled);
  }

  /** `firewallRuleResourceHash`: the hash of the key of the rule the map holds. No schema
      of the provider uses it; `firewall_rule` is hashed by `schema.HashResource`. */
  function FirewallRuleResourceHash(m: map<string, Value>): (h: int)
    requires IsFirewallRuleMap(m)
    ensures 0 <= h < 0x1_0000_0000
  {
    Hash(FirewallRuleKey(ExpandFirewallRule(m)))
  }

  /** A rule's flattened map hashes to the hash of the rule's key. */
  lemma FlattenedRuleHash(fw: FirewallRule)
    ensures FirewallRuleResourceHash(FlattenFirewallRule(fw)) == Hash(FirewallRuleKey(fw))
  {
    ExpandFlattenFirewallRule(fw);
  }

  /** Rules whose text fields are equal up to letter case and whose ports and flag are
      equal have the same key, and so the same hash. */
  lemma FirewallRuleKeyIgnoresCase(a: FirewallRule, b: FirewallRule)
    requires Lower(a.description) == Lower(b.description)
    requires Lower(a.sourceIPAddressRangeStart) == Lower(b.sourceIPAddressRangeStart)
    requires Lower(a.sourceIPAddressRangeEnd) == Lower(b.sourceIPAddressRangeEnd)
    requires Lower(a.destinationIPAddressRangeStart) == Lower(b.destinationIPAddressRangeStart)
    requires Lower(a.destinationIPAddressRangeEnd) == Lower(b.destinationIPAddressRangeEnd)
    requires Lower(a.protocol) == Lower(b.protocol) && Lower(a.ipAddressType) == Lower(b.ipAddressType)
    requires a.portRangeStart == b.portRangeStart && a.portRangeEnd == b.portRangeEnd && a.enabled == b.enabled
    ensures FirewallRuleKey(a) == FirewallRuleKey(b)
    ensures Hash(FirewallRuleKey(a)) == Hash(FirewallRuleKey(b))
  {
    JoinFieldsIgnoresCase(RuleFields(a), RuleFields(b));
  }

  /** Changing only the description keeps the key exactly when the new description equals
      the old one up to letter case. */
  lemma FirewallRuleKeyDescription(fw: FirewallRule, d: string)
    ensures FirewallRuleKey(fw.(description := d)) == FirewallRuleKey(fw) <==> Lower(d) == Lower(fw.description)
  {
    JoinFieldsOneDiffers(RuleFields(fw.(description := d)), RuleFields(fw), 0);
  }

  /** Changing only the start port keeps the key exactly when the port is unchanged. */
  lemma FirewallRuleKeyPortStart(fw: FirewallRule, p: int)
    ensures FirewallRuleKey(fw.(portRangeStart := p)) == FirewallRuleKey(fw) <==> p == fw.portRangeStart
  {
    JoinFieldsOneDiffers(RuleFields(fw.(portRangeStart := p)), RuleFields(fw), 7);
    LowerOfItoa(p);
    LowerOfItoa(fw.portRangeStart);
    if Itoa(p) == Itoa(fw.portRangeStart) {
      ItoaInjective(p, fw.portRangeStart);
    }
  }

  /** Changing only the end port keeps the key exactly when the port is unchanged. */
  lemma FirewallRuleKeyPortEnd(fw: FirewallRule, p: int)
    ensures FirewallRuleKey(fw.(portRangeEnd := p)) == FirewallRuleKey(fw) <==> p == fw.portRangeEnd
  {
    JoinFieldsOneDiffers(RuleFields(fw.(portRangeEnd := p)), RuleFields(fw), 8);
    LowerOfItoa(p);
    LowerOfItoa(fw.portRangeEnd);
    if Itoa(p) == Itoa(fw.portRangeEnd) {
      ItoaInjective(p, fw.portRangeEnd);
    }
  }

  /** An enabled rule and the same rule disabled have different keys. */
  lemma FirewallRuleKeyEnabled(fw: FirewallRule)
    ensures FirewallRuleKey(fw.(enabled := !fw.enabled)) != FirewallRuleKey(fw)
  {
    JoinFieldsOneDiffers(RuleFields(fw.(enabled := !fw.enabled)), RuleFields(fw), 9);
    assert Lower("true") == "true" && Lower("false") == "false";
  }
}
