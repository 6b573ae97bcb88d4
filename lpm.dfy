/**
 * The longest-prefix-match tables of the three datapaths. Every rule the
 * switch installs has depth 32, so a table behaves as an exact-match map
 * from an IPv4 address to a next hop, bounded by the number of rules the
 * table was created with.
 */
module Lpm {
  import opened Opt
  import opened Bytes

  /** The lookup of a depth-32-only table: the next hop stored for ip, if any. */
  function Lookup(routes: map<u32, nat>, ip: u32): (r: Option<nat>)
    ensures r.Some? <==> ip in routes
    ensures r.Some? ==> r.value == routes[ip]
  {
    if ip in routes then Some(routes[ip]) else None
  }

  /** Whether adding (ip, hop) succeeds: re-adding a rule replaces its hop; a new rule needs room. */
  predicate Fits(routes: map<u32, nat>, capacity: nat, ip: u32)
  {
    ip in routes || |routes| < capacity
  }

  /** The table after a sequence of adds of (ip, hop) pairs, each failing add changing nothing. */
  function AddAll(routes: map<u32, nat>, capacity: nat, rules: seq<(u32, nat)>): (r: map<u32, nat>)
    ensures routes.Keys <= r.Keys
    decreases |rules|
  {
    if rules == [] then routes
    else
      var next := if Fits(routes, capacity, rules[0].0) then routes[rules[0].0 := rules[0].1] else routes;
      AddAll(next, capacity, rules[1..])
  }

  /** One add on the left of a fold is the fold of the longer list. */
  lemma AddAllSnoc(routes: map<u32, nat>, capacity: nat, rules: seq<(u32, nat)>, ip: u32, hop: nat)
    ensures var m := AddAll(routes, capacity, rules);
            AddAll(routes, capacity, rules + [(ip, hop)]) == if Fits(m, capacity, ip) then m[ip := hop] else m
    decreases |rules|
  {
    if rules != [] {
      assert (rules + [(ip, hop)])[1..] == rules[1..] + [(ip, hop)];
      var next := if Fits(routes, capacity, rules[0].0) then routes[rules[0].0 := rules[0].1] else routes;
      AddAllSnoc(next, capacity, rules[1..], ip, hop);
    }
  }

  /** With distinct fresh addresses and room for all of them, every rule is installed and nothing else changes. */
  lemma {:induction false} AddAllFits(routes: map<u32, nat>, capacity: nat, rules: seq<(u32, nat)>)
    requires |routes| + |rules| <= capacity
    requires forall i :: 0 <= i < |rules| ==> rules[i].0 !in routes
    requires forall i, j :: 0 <= i < j < |rules| ==> rules[i].0 != rules[j].0
    ensures var r := AddAll(routes, capacity, rules);
            && |r| == |routes| + |rules|
            && (forall ip :: ip in r <==> ip in routes || exists i :: 0 <= i < |rules| && rules[i].0 == ip)
            && (forall ip :: ip in routes ==> r[ip] == routes[ip])
            && (forall i :: 0 <= i < |rules| ==> r[rules[i].0] == rules[i].1)
    decreases |rules|
  {
    if rules != [] {
      var next := routes[rules[0].0 := rules[0].1];
      assert |next| == |routes| + 1;
      forall i | 0 <= i < |rules| - 1 ensures rules[1..][i].0 !in next {
        assert rules[1..][i] == rules[i + 1];
      }
      AddAllFits(next, capacity, rules[1..]);
      var r := AddAll(routes, capacity, rules);
      forall ip ensures ip in r <==> ip in routes || exists i :: 0 <= i < |rules| && rules[i].0 == ip {
        if exists i :: 0 <= i < |rules| - 1 && rules[1..][i].0 == ip {
          var i :| 0 <= i < |rules| - 1 && rules[1..][i].0 == ip;
          assert rules[i + 1].0 == ip;
        }
        if exists i :: 0 <= i < |rules| && rules[i].0 == ip {
          var i :| 0 <= i < |rules| && rules[i].0 == ip;
          if i > 0 {
            assert rules[1..][i - 1].0 == ip;
          }
        }
      }
      forall i | 0 <= i < |rules| ensures r[rules[i].0] == rules[i].1 {
        if i > 0 {
          assert rules[1..][i - 1] == rules[i];
        }
      }
    }
  }

  /** A fold of adds grows a table by at most one rule per add. */
  lemma {:induction false} AddAllSize(routes: map<u32, nat>, capacity: nat, rules: seq<(u32, nat)>)
    ensures |AddAll(routes, capacity, rules)| <= |routes| + |rules|
    decreases |rules|
  {
    if rules != [] {
      var next := if Fits(routes, capacity, rules[0].0) then routes[rules[0].0 := rules[0].1] else routes;
      AddAllSize(next, capacity, rules[1..]);
    }
  }

  /** A table created with a fixed number of rules; only depth-32 rules are ever added. */
  class LpmTable {
    var routes: map<u32, nat>
    const capacity: nat

    predicate Valid()
      reads this
    {
      |routes| <= capacity
    }

    /** rte_lpm_create / rte_table_lpm create: an empty table. */
    constructor (n: nat)
      ensures Valid() && routes == map[] && capacity == n
    {
      routes := map[];
      capacity := n;
    }

    /** A depth-32 add: fails without change when the table is full and ip is new. */
    method Add(ip: u32, hop: nat) returns (ok: bool)
      requires Valid()
      modifies this
      ensures Valid()
      ensures ok <==> Fits(old(routes), capacity, ip)
      ensures routes == if ok then old(routes)[ip := hop] else old(routes)
    {
      ok := Fits(routes, capacity, ip);
      if ok {
        routes := routes[ip := hop];
      }
    }
  }
}
