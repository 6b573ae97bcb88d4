/**
 * The fixed address-to-port table every datapath installs once the switch
 * has started (dp_install_default_tables): twelve depth-32 routes for the
 * addresses 20.1.k.1, k = 1..12.
 */
module DefaultTables {
  import opened Opt
  import opened Bytes
  import opened Lpm

  /** The IPv4(a, b, c, d) macro: the address a.b.c.d as a host-order 32-bit value. */
  function IPv4(a: byte, b: byte, c: byte, d: byte): u32
  {
    a * 0x100_0000 + b * 0x1_0000 + c * 0x100 + d
  }

  /** The k-th default address, 20.1.(k+1).1. */
  function DefaultAddress(k: nat): u32
    requires k < 12
  {
    IPv4(20, 1, k + 1, 1)
  }

  /** The output ports, in the order the rules are installed: 20.1.(k+1).1 goes to DefaultPorts[k]. */
  const DefaultPorts: seq<nat> := [9, 8, 6, 7, 2, 3, 0, 1, 4, 5, 10, 11]

  /** The rules, in installation order. */
  function DefaultRules(): (rules: seq<(u32, nat)>)
    ensures |rules| == 12
    ensures forall k :: 0 <= k < 12 ==> rules[k] == (DefaultAddress(k), DefaultPorts[k])
  {
    seq(12, k requires 0 <= k < 12 => (DefaultAddress(k), DefaultPorts[k]))
  }

  /** The addresses are pairwise distinct. */
  lemma DefaultAddressesDistinct()
    ensures forall i, j :: 0 <= i < j < 12 ==> DefaultRules()[i].0 != DefaultRules()[j].0
  {
  }

  /** The destination ports are 0..11, each exactly once. */
  lemma DefaultPortsPermutation()
    ensures forall k :: 0 <= k < 12 ==> DefaultPorts[k] < 12
    ensures forall i, j :: 0 <= i < j < 12 ==> DefaultPorts[i] != DefaultPorts[j]
    ensures forall p :: 0 <= p < 12 ==> p in DefaultPorts
  {
    forall p | 0 <= p < 12 ensures p in DefaultPorts {
      assert p == 0 || p == 1 || p == 2 || p == 3 || p == 4 || p == 5 || p == 6 || p == 7 || p == 8 || p == 9 || p == 10 || p == 11;
    }
  }

  /**
   * dp_install_default_tables (voq_swq): adds the twelve rules in order with
   * the datapath's add_ipv4_rule and reports success whatever each add
   * returned.
   */
  method InstallDefaultTables(t: LpmTable) returns (status: int)
    requires t.Valid()
    modifies t
    ensures t.Valid() && status == 0
    ensures t.routes == AddAll(old(t.routes), t.capacity, DefaultRules())
  {
    var rules := DefaultRules();
    var k := 0;
    while k < |rules|
      invariant k <= |rules| && t.Valid()
      invariant t.routes == AddAll(old(t.routes), t.capacity, rules[..k])
    {
      var _ := t.Add(rules[k].0, rules[k].1);
      AddAllSnoc(old(t.routes), t.capacity, rules[..k], rules[k].0, rules[k].1);
      assert rules[..k + 1] == rules[..k] + [rules[k]];
      k := k + 1;
    }
    assert rules[..k] == rules;
    status := 0;
  }

  /** The table after the twelve default adds. */
  function DefaultTable(routes: map<u32, nat>, capacity: nat): (r: map<u32, nat>)
  {
    AddAll(routes, capacity, DefaultRules())
  }

  /**
   * Into an empty table with room for twelve rules, the install leaves
   * exactly the twelve routes 20.1.(k+1).1 to DefaultPorts[k].
   */
  lemma DefaultTableInstalled(capacity: nat)
    requires 12 <= capacity
    ensures var r := DefaultTable(map[], capacity);
            && |r| == 12
            && (forall k :: 0 <= k < 12 ==> Lookup(r, DefaultAddress(k)) == Some(DefaultPorts[k]))
            && (forall ip :: ip in r ==> exists k :: 0 <= k < 12 && ip == DefaultAddress(k))
  {
    DefaultAddressesDistinct();
    AddAllFits(map[], capacity, DefaultRules());
    var r := AddAll(map[], capacity, DefaultRules());
    forall ip | ip in r ensures exists k :: 0 <= k < 12 && ip == DefaultAddress(k) {
      var i :| 0 <= i < 12 && DefaultRules()[i].0 == ip;
    }
  }
}
