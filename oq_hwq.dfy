/**
 * The configuration side of the oq_hwq datapath: dp_init's lcore
 * placement, RX queue lists and TX queue numbering, dp_configure's
 * per-socket LPM tables, and add_ipv4_rule with the default table
 * install. The per-lcore forwarding state lives in OqTx.
 */
module OqHwq {
  import opened Opt
  import opened Bytes
  import opened VoqSwqDefs
  import opened Lpm
  import opened DefaultTables
  import opened HwqLcores
  import Daqswitch

  /** NB_SOCKETS: the size of the per-socket table array. */
  const NbSockets: nat := 8
  /** DP_OQ_HWQ_LPM_MAX_RULES. */
  const LpmMaxRules: nat := 1024
  /** RTE_TEST_RX_DESC_DEFAULT and RTE_TEST_TX_DESC_DEFAULT. */
  const RxDescDefault: u16 := 2048
  const TxDescDefault: u16 := 4096
  /** What rte_lpm_add returns when a table has no room for a new rule (-ENOSPC). */
  const LpmNoSpace: int := -28

  /** The port sizing dp_init applies: one RX queue, one TX queue per enabled lcore, no flow director. */
  function OqSizing(nbLcores: u16): Daqswitch.Sizing
  {
    Daqswitch.Sizing(1, RxDescDefault, nbLcores, TxDescDefault, None)
  }

  /** The socket whose table an lcore uses: its own with NUMA on, socket 0 otherwise. */
  function SocketOf(w: Worker, numaOn: bool): nat
  {
    if numaOn then w.socket else 0
  }

  predicate SocketsInRange(enabled: seq<Worker>)
  {
    forall i :: 0 <= i < |enabled| ==> enabled[i].socket < NbSockets
  }

  /** Whether one of the first k enabled lcores uses socket s's table. */
  predicate Wanted(enabled: seq<Worker>, numaOn: bool, k: nat, s: nat)
  {
    exists i :: 0 <= i < k && i < |enabled| && SocketOf(enabled[i], numaOn) == s
  }

  /** The tables once the first k lcores are visited: a missing wanted table is created empty unless its creation fails. */
  function WithTables(tables: seq<Option<map<u32, nat>>>, enabled: seq<Worker>, numaOn: bool, failing: set<nat>, k: nat)
    : (r: seq<Option<map<u32, nat>>>)
    ensures |r| == |tables|
  {
    seq(|tables|, s requires 0 <= s < |tables| =>
      if tables[s].None? && s !in failing && Wanted(enabled, numaOn, k, s) then Some(map[]) else tables[s])
  }

  /** Each of the first k lcores is bound to its socket's table. */
  ghost predicate Bound(lookupOf: map<nat, nat>, enabled: seq<Worker>, numaOn: bool, k: nat)
    requires k <= |enabled|
  {
    forall i :: 0 <= i < k ==> enabled[i].id in lookupOf && lookupOf[enabled[i].id] == SocketOf(enabled[i], numaOn)
  }

  /** No binding of an lcore other than the first k changed. */
  ghost predicate KeptOthers(before: map<nat, nat>, after: map<nat, nat>, enabled: seq<Worker>, k: nat)
  {
    forall l :: !EnabledUpTo(enabled, k, l) ==> (l in after <==> l in before) && (l in before ==> after[l] == before[l])
  }

  /** Visiting the lcores twice creates nothing the first visit did not. */
  lemma WithTablesTwice(tables: seq<Option<map<u32, nat>>>, enabled: seq<Worker>, numaOn: bool, failing: set<nat>, k: nat)
    ensures WithTables(WithTables(tables, enabled, numaOn, failing, k), enabled, numaOn, failing, k)
            == WithTables(tables, enabled, numaOn, failing, k)
  {
  }

  /** Visiting lcore i creates its socket's table if missing and possible. */
  lemma WithTablesStep(tables: seq<Option<map<u32, nat>>>, enabled: seq<Worker>, numaOn: bool, failing: set<nat>, i: nat)
    requires |tables| == NbSockets && SocketsInRange(enabled) && i < |enabled|
    ensures var cur := WithTables(tables, enabled, numaOn, failing, i);
            var s := SocketOf(enabled[i], numaOn);
            WithTables(tables, enabled, numaOn, failing, i + 1) == if cur[s].None? && s !in failing then cur[s := Some(map[])] else cur
  {
    var s := SocketOf(enabled[i], numaOn);
    forall t | 0 <= t < NbSockets
      ensures Wanted(enabled, numaOn, i + 1, t) <==> Wanted(enabled, numaOn, i, t) || t == s
    {
      if t == s {
        assert SocketOf(enabled[i], numaOn) == t;
      }
    }
  }

  /** Created tables start empty, so they stay within the rule limit. */
  lemma WithTablesValid(tables: seq<Option<map<u32, nat>>>, enabled: seq<Worker>, numaOn: bool, failing: set<nat>, k: nat)
    requires |tables| == NbSockets && forall s :: 0 <= s < NbSockets && tables[s].Some? ==> |tables[s].value| <= LpmMaxRules
    ensures var r := WithTables(tables, enabled, numaOn, failing, k);
            forall s :: 0 <= s < NbSockets && r[s].Some? ==> |r[s].value| <= LpmMaxRules
  {
  }

  /** Binding lcore i keeps the earlier bindings, lcore ids being distinct. */
  lemma BindStep(before: map<nat, nat>, binds: map<nat, nat>, enabled: seq<Worker>, numaOn: bool, i: nat)
    requires IdsIncreasing(enabled) && i < |enabled|
    requires Bound(binds, enabled, numaOn, i) && KeptOthers(before, binds, enabled, i)
    ensures var after := binds[enabled[i].id := SocketOf(enabled[i], numaOn)];
            Bound(after, enabled, numaOn, i + 1) && KeptOthers(before, after, enabled, i + 1)
  {
    forall l ensures EnabledUpTo(enabled, i + 1, l) <==> EnabledUpTo(enabled, i, l) || l == enabled[i].id {
      if l == enabled[i].id {
        assert enabled[i].id == l;
      }
    }
  }

  /** Every lcore of the first k gets a table unless its socket's creation fails. */
  lemma {:induction false} TablesPresent(tables: seq<Option<map<u32, nat>>>, enabled: seq<Worker>, numaOn: bool, failing: set<nat>, k: nat, i: nat)
    requires |tables| == NbSockets && SocketsInRange(enabled) && i < k <= |enabled|
    requires SocketOf(enabled[i], numaOn) !in failing
    ensures WithTables(tables, enabled, numaOn, failing, k)[SocketOf(enabled[i], numaOn)].Some?
  {
    assert Wanted(enabled, numaOn, k, SocketOf(enabled[i], numaOn));
  }

  /** The first socket table from s on that is full and lacks ip: the socket at which add_ipv4_rule stops. */
  function FirstFull(tables: seq<Option<map<u32, nat>>>, ip: u32, s: nat): (r: Option<nat>)
    ensures r.Some? ==> s <= r.value < |tables| && tables[r.value].Some? && !Fits(tables[r.value].value, LpmMaxRules, ip)
    ensures forall t :: s <= t < |tables| && (r.None? || t < r.value) && tables[t].Some? ==> Fits(tables[t].value, LpmMaxRules, ip)
    decreases |tables| - s
  {
    if s >= |tables| then None
    else if tables[s].Some? && !Fits(tables[s].value, LpmMaxRules, ip) then Some(s)
    else FirstFull(tables, ip, s + 1)
  }

  /** The tables with (ip, hop) added to every existing table below socket stop. */
  function AddedBefore(tables: seq<Option<map<u32, nat>>>, ip: u32, hop: nat, stop: nat): (r: seq<Option<map<u32, nat>>>)
    ensures |r| == |tables|
  {
    seq(|tables|, s requires 0 <= s < |tables| =>
      if s < stop && tables[s].Some? then Some(tables[s].value[ip := hop]) else tables[s])
  }

  /** Every existing table has room for n more rules. */
  ghost predicate RoomFor(tables: seq<Option<map<u32, nat>>>, n: nat)
  {
    forall s :: 0 <= s < |tables| && tables[s].Some? ==> |tables[s].value| + n <= LpmMaxRules
  }

  /** Every table that existed holds the first k rules added in order. */
  ghost predicate Installed(t0: seq<Option<map<u32, nat>>>, tables: seq<Option<map<u32, nat>>>, rules: seq<(u32, nat)>, k: nat)
    requires k <= |rules| && |tables| == |t0|
  {
    forall s :: 0 <= s < |t0| && t0[s].Some? ==> tables[s] == Some(AddAll(t0[s].value, LpmMaxRules, rules[..k]))
  }

  /** With room for every rule, the next add finds no full table and extends every fold by one rule. */
  lemma InstallStep(t0: seq<Option<map<u32, nat>>>, tables: seq<Option<map<u32, nat>>>, rules: seq<(u32, nat)>, k: nat)
    requires |t0| == |tables| && k < |rules| && RoomFor(t0, |rules|) && Installed(t0, tables, rules, k)
    requires forall s :: 0 <= s < |t0| ==> (tables[s].Some? <==> t0[s].Some?)
    ensures FirstFull(tables, rules[k].0, 0) == None
    ensures Installed(t0, AddedBefore(tables, rules[k].0, rules[k].1, |tables|), rules, k + 1)
  {
    var ip := rules[k].0;
    forall s | 0 <= s < |t0| && t0[s].Some? ensures Fits(tables[s].value, LpmMaxRules, ip) {
      AddAllSize(t0[s].value, LpmMaxRules, rules[..k]);
    }
    assert FirstFull(tables, ip, 0) == None;
    assert rules[..k + 1] == rules[..k] + [rules[k]];
    forall s | 0 <= s < |t0| && t0[s].Some?
      ensures AddedBefore(tables, ip, rules[k].1, |tables|)[s] == Some(AddAll(t0[s].value, LpmMaxRules, rules[..k + 1]))
    {
      AddAllSnoc(t0[s].value, LpmMaxRules, rules[..k], ip, rules[k].1);
    }
  }

  /** After the twelve default adds with room for them, a table that started empty routes exactly the default addresses. */
  lemma DefaultRoutes(t0: seq<Option<map<u32, nat>>>, tables: seq<Option<map<u32, nat>>>)
    requires |t0| == |tables| && RoomFor(t0, 12) && Installed(t0, tables, DefaultRules(), 12)
    ensures forall s, k :: 0 <= s < |t0| && t0[s] == Some(map[]) && 0 <= k < 12 ==>
              Lookup(tables[s].value, DefaultAddress(k)) == Some(DefaultPorts[k])
  {
    assert DefaultRules()[..12] == DefaultRules();
    DefaultTableInstalled(LpmMaxRules);
  }

  /** Lcore i (in RTE_LCORE_FOREACH order) transmits on every port p < n through TX queue i. */
  ghost predicate TxNumbered(txQueueId: map<(nat, nat), nat>, enabled: seq<Worker>, n: nat)
  {
    forall i, p :: 0 <= i < |enabled| && 0 <= p < n ==> (enabled[i].id, p) in txQueueId && txQueueId[(enabled[i].id, p)] == i
  }

  /**
   * dp_init's TX queue loop: on every port, each enabled lcore in turn
   * takes the next queue id, so lcore i owns queue i and no two lcores
   * share a queue of a port.
   */
  method NumberTxQueues(enabled: seq<Worker>, nbPorts: nat) returns (ids: map<(nat, nat), nat>)
    requires IdsIncreasing(enabled)
    ensures TxNumbered(ids, enabled, nbPorts)
    ensures forall key :: key in ids ==> key.1 < nbPorts && ids[key] < |enabled|
  {
    ids := map[];
    var p := 0;
    while p < nbPorts
      invariant p <= nbPorts && TxNumbered(ids, enabled, p)
      invariant forall key :: key in ids ==> key.1 < p && ids[key] < |enabled|
    {
      var queueid := 0;
      while queueid < |enabled|
        invariant queueid <= |enabled| && TxNumbered(ids, enabled, p)
        invariant forall i :: 0 <= i < queueid ==> (enabled[i].id, p) in ids && ids[(enabled[i].id, p)] == i
        invariant forall key :: key in ids ==> key.1 <= p && ids[key] < |enabled|
      {
        ids := ids[(enabled[queueid].id, p) := queueid];
        queueid := queueid + 1;
      }
      p := p + 1;
    }
  }

  /**
   * dp_configure's lcore loop on the tables and the lcore bindings: each
   * enabled lcore in turn creates its socket's table when missing (unless
   * that creation fails) and is bound to that socket.
   */
  method BindLcores(tables: seq<Option<map<u32, nat>>>, binds: map<nat, nat>, enabled: seq<Worker>, numaOn: bool, failing: set<nat>)
    returns (ts: seq<Option<map<u32, nat>>>, bs: map<nat, nat>)
    requires |tables| == NbSockets && SocketsInRange(enabled) && IdsIncreasing(enabled)
    ensures ts == WithTables(tables, enabled, numaOn, failing, |enabled|)
    ensures Bound(bs, enabled, numaOn, |enabled|) && KeptOthers(binds, bs, enabled, |enabled|)
  {
    ts, bs := tables, binds;
    var i := 0;
    while i < |enabled|
      invariant i <= |enabled| && |ts| == NbSockets
      invariant ts == WithTables(tables, enabled, numaOn, failing, i)
      invariant Bound(bs, enabled, numaOn, i) && KeptOthers(binds, bs, enabled, i)
    {
      WithTablesStep(tables, enabled, numaOn, failing, i);
      BindStep(binds, bs, enabled, numaOn, i);
      var s := SocketOf(enabled[i], numaOn);
      if ts[s].None? && s !in failing {
        ts := ts[s := Some(map[])];
      }
      bs := bs[enabled[i].id := s];
      i := i + 1;
    }
  }

  /**
   * add_ipv4_rule's socket loop: the route goes into every existing table
   * in socket order until one has no room, whose error is returned.
   */
  method AddToTables(tables: seq<Option<map<u32, nat>>>, ip: u32, hop: nat) returns (ret: int, ts: seq<Option<map<u32, nat>>>)
    requires |tables| == NbSockets
    ensures var stop := FirstFull(tables, ip, 0);
            && (ret == 0 <==> stop.None?) && (stop.Some? ==> ret == LpmNoSpace)
            && ts == AddedBefore(tables, ip, hop, if stop.Some? then stop.value else NbSockets)
  {
    ret := 0;
    ts := tables;
    var s := 0;
    while s < NbSockets
      invariant s <= NbSockets && |ts| == NbSockets
      invariant FirstFull(tables, ip, 0) == FirstFull(tables, ip, s)
      invariant ts == AddedBefore(tables, ip, hop, s)
    {
      if ts[s].None? {
        s := s + 1;
        continue;
      }
      if !Fits(ts[s].value, LpmMaxRules, ip) {
        ret := LpmNoSpace;
        break;
      }
      ts := ts[s := Some(ts[s].value[ip := hop])];
      s := s + 1;
    }
  }

  /**
   * add_ipv4_rule's table part for each rule in turn, whatever each add
   * returned: with room for all the rules, every existing table ends up
   * holding them added in order.
   */
  method AddRules(tables: seq<Option<map<u32, nat>>>, rules: seq<(u32, nat)>) returns (ts: seq<Option<map<u32, nat>>>)
    requires |tables| == NbSockets && forall s :: 0 <= s < NbSockets && tables[s].Some? ==> |tables[s].value| <= LpmMaxRules
    ensures |ts| == NbSockets && forall s :: 0 <= s < NbSockets && ts[s].Some? ==> |ts[s].value| <= LpmMaxRules
    ensures forall s :: 0 <= s < NbSockets ==> (ts[s].Some? <==> tables[s].Some?)
    ensures RoomFor(tables, |rules|) ==> Installed(tables, ts, rules, |rules|)
  {
    ts := tables;
    var k := 0;
    while k < |rules|
      invariant k <= |rules| && |ts| == NbSockets
      invariant forall s :: 0 <= s < NbSockets && ts[s].Some? ==> |ts[s].value| <= LpmMaxRules
      invariant forall s :: 0 <= s < NbSockets ==> (ts[s].Some? <==> tables[s].Some?)
      invariant RoomFor(tables, |rules|) ==> Installed(tables, ts, rules, k)
    {
      if RoomFor(tables, |rules|) {
        InstallStep(tables, ts, rules, k);
      }
      var _, next := AddToTables(ts, rules[k].0, rules[k].1);
      TablesStayBounded(ts, rules[k].0, rules[k].1);
      ts := next;
      k := k + 1;
    }
  }

  /** An add that stops at the first full table keeps every table within the rule limit and every slot as present as it was. */
  lemma TablesStayBounded(tables: seq<Option<map<u32, nat>>>, ip: u32, hop: nat)
    requires |tables| == NbSockets && forall s :: 0 <= s < NbSockets && tables[s].Some? ==> |tables[s].value| <= LpmMaxRules
    ensures var stop := FirstFull(tables, ip, 0);
            var r := AddedBefore(tables, ip, hop, if stop.Some? then stop.value else NbSockets);
            && (forall s :: 0 <= s < NbSockets && r[s].Some? ==> |r[s].value| <= LpmMaxRules)
            && (forall s :: 0 <= s < NbSockets ==> (r[s].Some? <==> tables[s].Some?))
  {
  }

  /**
   * The datapath's static state: lcore_params (port p, queue 0, lcore
   * lcoreOf[p]), each lcore's RX queue list and TX queue ids, the
   * per-socket tables (None for a NULL entry), the socket whose table
   * each lcore looks up, and the route counter.
   */
  class OqDatapath {
    var lcoreOf: seq<nat>
    var rxQueues: map<nat, seq<nat>>
    var txQueueId: map<(nat, nat), nat>
    var tables: seq<Option<map<u32, nat>>>
    var lookupOf: map<nat, nat>
    var nbIpRoutes: nat

    /** One slot per socket, and no table holds more rules than it was created with. */
    ghost predicate Valid()
      reads this
    {
      |tables| == NbSockets && forall s :: 0 <= s < NbSockets && tables[s].Some? ==> |tables[s].value| <= LpmMaxRules
    }

    /** The zeroed statics. */
    constructor ()
      ensures Valid() && lcoreOf == [] && rxQueues == map[] && txQueueId == map[]
      ensures tables == seq(NbSockets, s => None) && lookupOf == map[] && nbIpRoutes == 0
    {
      lcoreOf := [];
      rxQueues := map[];
      txQueueId := map[];
      tables := seq(NbSockets, s => None);
      lookupOf := map[];
      nbIpRoutes := 0;
    }

    /**
     * dp_init: places one lcore per port (configure_lcore_params over the
     * workers, the enabled lcores but the master), builds the RX queue
     * lists and fails when an lcore would get more than 16 of them;
     * otherwise it numbers the TX queues of every port by lcore, every
     * enabled lcore owning one, and returns the port sizing it applies.
     */
    method Init(enabled: seq<Worker>, master: nat, sockets: seq<nat>)
      returns (ok: bool, sizing: Daqswitch.Sizing, chosen: seq<nat>, ghost relaxedAt: nat)
      requires lcoreOf == [] && rxQueues == map[] && txQueueId == map[]
      requires 0 < |Workers(enabled, master)| && |enabled| <= MaxLcores && IdsIncreasing(enabled)
      modifies this
      ensures tables == old(tables) && lookupOf == old(lookupOf) && nbIpRoutes == old(nbIpRoutes)
      ensures Placed(Workers(enabled, master), sockets, chosen, relaxedAt) && lcoreOf == Ids(Workers(enabled, master), chosen)
      ensures ok <==> forall p :: 0 <= p < |sockets| ==> Room(lcoreOf, p)
      ensures ok ==> ListsAre(rxQueues, lcoreOf, |sockets|)
      ensures ok ==> sizing == OqSizing(|enabled|) && TxNumbered(txQueueId, enabled, |sockets|)
      ensures ok ==> forall key :: key in txQueueId ==> txQueueId[key] < sizing.nbTxq
      ensures !ok ==> txQueueId == map[]
    {
      ok, chosen, lcoreOf, rxQueues, relaxedAt := PlaceLcores(Workers(enabled, master), sockets);
      sizing := OqSizing(|enabled|);
      if !ok {
        return;
      }
      txQueueId := NumberTxQueues(enabled, |sockets|);
    }

    /** One lcore loop of dp_configure: bind every enabled lcore to its socket's table, creating the table first when missing. */
    method ConfigurePass(enabled: seq<Worker>, numaOn: bool, failing: set<nat>)
      requires Valid() && SocketsInRange(enabled) && IdsIncreasing(enabled)
      modifies this
      ensures Valid() && tables == WithTables(old(tables), enabled, numaOn, failing, |enabled|)
      ensures Bound(lookupOf, enabled, numaOn, |enabled|) && KeptOthers(old(lookupOf), lookupOf, enabled, |enabled|)
      ensures lcoreOf == old(lcoreOf) && rxQueues == old(rxQueues) && txQueueId == old(txQueueId) && nbIpRoutes == old(nbIpRoutes)
    {
      WithTablesValid(tables, enabled, numaOn, failing, |enabled|);
      tables, lookupOf := BindLcores(tables, lookupOf, enabled, numaOn, failing);
    }

    /**
     * dp_configure: for every port, the lcore loop above, so with at
     * least one port every enabled lcore is bound to its socket's table,
     * which exists unless its creation failed; it always reports success.
     */
    method Configure(enabled: seq<Worker>, nbPorts: nat, numaOn: bool, failing: set<nat>) returns (status: int)
      requires Valid() && SocketsInRange(enabled) && IdsIncreasing(enabled)
      modifies this
      ensures Valid() && status == 0
      ensures lcoreOf == old(lcoreOf) && rxQueues == old(rxQueues) && txQueueId == old(txQueueId) && nbIpRoutes == old(nbIpRoutes)
      ensures nbPorts == 0 ==> tables == old(tables) && lookupOf == old(lookupOf)
      ensures nbPorts > 0 ==>
                && tables == WithTables(old(tables), enabled, numaOn, failing, |enabled|)
                && Bound(lookupOf, enabled, numaOn, |enabled|) && KeptOthers(old(lookupOf), lookupOf, enabled, |enabled|)
                && forall i :: 0 <= i < |enabled| && SocketOf(enabled[i], numaOn) !in failing ==>
                     tables[lookupOf[enabled[i].id]].Some?
    {
      var p := 0;
      while p < nbPorts
        invariant p <= nbPorts && Valid()
        invariant lcoreOf == old(lcoreOf) && rxQueues == old(rxQueues) && txQueueId == old(txQueueId) && nbIpRoutes == old(nbIpRoutes)
        invariant p == 0 ==> tables == old(tables) && lookupOf == old(lookupOf)
        invariant p > 0 ==> tables == WithTables(old(tables), enabled, numaOn, failing, |enabled|)
                            && Bound(lookupOf, enabled, numaOn, |enabled|) && KeptOthers(old(lookupOf), lookupOf, enabled, |enabled|)
      {
        ConfigurePass(enabled, numaOn, failing);
        WithTablesTwice(old(tables), enabled, numaOn, failing, |enabled|);
        p := p + 1;
      }
      if nbPorts > 0 {
        forall i | 0 <= i < |enabled| && SocketOf(enabled[i], numaOn) !in failing
          ensures tables[lookupOf[enabled[i].id]].Some?
        {
          TablesPresent(old(tables), enabled, numaOn, failing, |enabled|, i);
        }
      }
      status := 0;
    }

    /**
     * add_ipv4_rule: adds the depth-32 route to every existing socket
     * table in socket order, stopping at the first table that has no
     * room (whose error it returns, the later tables going without the
     * route); the route counter goes up whatever happened.
     */
    method AddIpv4Rule(ip: u32, portOut: byte) returns (ret: int)
      requires Valid()
      modifies this
      ensures Valid() && nbIpRoutes == old(nbIpRoutes) + 1
      ensures lcoreOf == old(lcoreOf) && rxQueues == old(rxQueues) && txQueueId == old(txQueueId) && lookupOf == old(lookupOf)
      ensures var stop := FirstFull(old(tables), ip, 0);
              && (ret == 0 <==> stop.None?) && (stop.Some? ==> ret == LpmNoSpace)
              && tables == AddedBefore(old(tables), ip, portOut, if stop.Some? then stop.value else NbSockets)
      ensures ret == 0 ==> forall s :: 0 <= s < NbSockets && tables[s].Some? ==> Lookup(tables[s].value, ip) == Some(portOut as nat)
      ensures forall s :: 0 <= s < NbSockets ==> (tables[s].Some? <==> old(tables)[s].Some?)
    {
      ret, tables := AddToTables(tables, ip, portOut);
      nbIpRoutes := nbIpRoutes + 1;
    }

    /**
     * dp_install_default_tables: the twelve default rules through
     * add_ipv4_rule, reporting success whatever each add returned. When
     * every existing table has room for twelve more rules, each holds the
     * default routes added in order; an empty one then routes exactly the
     * twelve default addresses.
     */
    method InstallDefaultTables() returns (status: int)
      requires Valid()
      modifies this
      ensures Valid() && status == 0 && nbIpRoutes == old(nbIpRoutes) + 12
      ensures lcoreOf == old(lcoreOf) && rxQueues == old(rxQueues) && txQueueId == old(txQueueId) && lookupOf == old(lookupOf)
      ensures forall s :: 0 <= s < NbSockets ==> (tables[s].Some? <==> old(tables)[s].Some?)
      ensures RoomFor(old(tables), 12) ==> Installed(old(tables), tables, DefaultRules(), 12)
      ensures RoomFor(old(tables), 12) ==> forall s, k :: 0 <= s < NbSockets && old(tables)[s] == Some(map[]) && 0 <= k < 12 ==>
                Lookup(tables[s].value, DefaultAddress(k)) == Some(DefaultPorts[k])
    {
      DefaultPortsPermutation();
      tables := AddRules(tables, DefaultRules());
      nbIpRoutes := nbIpRoutes + 12;
      if RoomFor(old(tables), 12) {
        DefaultRoutes(old(tables), tables);
      }
      status := 0;
    }
  }
}
