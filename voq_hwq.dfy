/**
 * The voq_hwq datapath. Every port is served by one TX queue of one
 * worker lcore, and every TX queue owns one RX queue number, polled on
 * every port, into which the NICs' flow director steers the traffic bound
 * for that TX queue's port: the virtual output queues live in the NICs.
 * Modelled: dp_init's lcore placement and TX queue lists, the RX queue
 * numbering of dp_configure, get_rxqueues_id, the flow-director
 * add_ipv4_rule and one pass of the main loop.
 */
module VoqHwq {
  import opened Opt
  import opened Bytes
  import opened VoqSwqDefs
  import opened Rings
  import opened DataLcores
  import opened HwqLcores
  import opened DefaultTables
  import Daqswitch

  const MaxPktBurst: nat := 32
  /** RTE_TEST_RX_DESC_DEFAULT and RTE_TEST_TX_DESC_DEFAULT. */
  const RxDescDefault: u16 := 4096
  const TxDescDefault: u16 := 4096
  /** DP_RX_POLL_INTERVAL, in microseconds. */
  const RxPollInterval: nat := 50
  const UsPerS: nat := 1_000_000
  /** get_rxqueues_id's -1, returned through a uint16_t. */
  const NoRxQueue: u16 := 0xffff

  /** The TSC cycles of one whole microsecond, rounded up. */
  function CyclesPerUs(hz: nat): (c: nat)
    ensures hz <= c * UsPerS
    ensures c == 0 || (c - 1) * UsPerS < hz
  {
    (hz + UsPerS - 1) / UsPerS
  }

  /** poll_tsc: the poll interval in TSC cycles, 50 rounded-up microseconds. */
  function PollTsc(hz: nat): (r: nat)
    ensures r == CyclesPerUs(hz) * RxPollInterval
  {
    CyclesPerUs(hz) * RxPollInterval
  }

  /** The port sizing of dp_init: one RX queue per port, one TX queue, and destination-address-only flow director matching. */
  function VoqSizing(nbPorts: nat): Daqswitch.Sizing
    requires nbPorts <= MaxPorts
  {
    Daqswitch.Sizing(nbPorts, RxDescDefault, 1, TxDescDefault, Some(Daqswitch.FdirMasks(1, 0xffff_ffff, 0, 0, 0)))
  }

  /** lcore_tx_queue: the port and queue it transmits on, the RX queue it polls and the ports it polls it on. */
  datatype TxQueue = TxQueue(portId: nat, queueId: nat, rxQueueId: byte, rxPorts: seq<nat>)

  /** An lcore's TX queue list: empty until the first append (the static table starts zeroed). */
  function QueuesOf(lists: map<nat, seq<TxQueue>>, l: nat): seq<TxQueue>
  {
    if l in lists then lists[l] else []
  }

  /** What configure_lcore_tx_queues writes for each of an lcore's ports: queue 0, RX side still zero. */
  function Unconfigured(ports: seq<nat>): (r: seq<TxQueue>)
    ensures |r| == |ports|
  {
    seq(|ports|, q requires 0 <= q < |ports| => TxQueue(ports[q], 0, 0, []))
  }

  /** The TX queue lists for the port lists. */
  function FromLists(lists: map<nat, seq<nat>>): map<nat, seq<TxQueue>>
  {
    map l | l in lists :: Unconfigured(lists[l])
  }

  /** The ports 0..n-1: the rx_port_ids of every TX queue. */
  function AllPorts(n: nat): (r: seq<nat>)
    ensures |r| == n && forall p :: 0 <= p < n ==> r[p] == p
  {
    seq(n, p => p)
  }

  /** The number of TX queues of the first i enabled lcores: the first RX queue number of lcore i. */
  function QueuesBefore(lists: map<nat, seq<TxQueue>>, enabled: seq<Worker>, i: nat): nat
    requires i <= |enabled|
  {
    if i == 0 then 0 else QueuesBefore(lists, enabled, i - 1) + |QueuesOf(lists, enabled[i - 1].id)|
  }

  /** r is an lcore's queues qs once dp_configure has visited it: consecutive RX queue numbers from base (stored in 8 bits), polled on every port. */
  predicate Numbered(r: seq<TxQueue>, qs: seq<TxQueue>, base: nat, n: nat)
  {
    && |r| == |qs|
    && forall q :: 0 <= q < |qs| ==> r[q] == TxQueue(qs[q].portId, qs[q].queueId, (base + q) % 0x100, AllPorts(n))
  }

  /** r is lists with the first i enabled lcores' queues numbered in lcore order, and no other list changed. */
  ghost predicate NumberedUpTo(r: map<nat, seq<TxQueue>>, lists: map<nat, seq<TxQueue>>, enabled: seq<Worker>, n: nat, i: nat)
    requires i <= |enabled|
  {
    && (forall k :: 0 <= k < i ==>
          Numbered(QueuesOf(r, enabled[k].id), QueuesOf(lists, enabled[k].id), QueuesBefore(lists, enabled, k), n))
    && (forall l :: !EnabledUpTo(enabled, i, l) ==> QueuesOf(r, l) == QueuesOf(lists, l))
  }

  /** Numbering lcore i's queues, and changing no other list, extends the numbering to the first i + 1 lcores. */
  lemma {:induction false} NumberStep(r: map<nat, seq<TxQueue>>, r2: map<nat, seq<TxQueue>>, lists: map<nat, seq<TxQueue>>, enabled: seq<Worker>, n: nat, i: nat)
    requires IdsIncreasing(enabled) && i < |enabled| && NumberedUpTo(r, lists, enabled, n, i)
    requires Numbered(QueuesOf(r2, enabled[i].id), QueuesOf(r, enabled[i].id), QueuesBefore(lists, enabled, i), n)
    requires forall l :: l != enabled[i].id ==> QueuesOf(r2, l) == QueuesOf(r, l)
    ensures NumberedUpTo(r2, lists, enabled, n, i + 1)
  {
    NumberStepVisited(r, r2, lists, enabled, n, i);
    NumberStepOthers(r, r2, lists, enabled, i);
  }

  /** NumberStep for the first i + 1 lcores: lcore i is numbered now, and the earlier ones keep their numbering. */
  lemma {:induction false} NumberStepVisited(r: map<nat, seq<TxQueue>>, r2: map<nat, seq<TxQueue>>, lists: map<nat, seq<TxQueue>>, enabled: seq<Worker>, n: nat, i: nat)
    requires IdsIncreasing(enabled) && i < |enabled| && NumberedUpTo(r, lists, enabled, n, i)
    requires Numbered(QueuesOf(r2, enabled[i].id), QueuesOf(r, enabled[i].id), QueuesBefore(lists, enabled, i), n)
    requires forall l :: l != enabled[i].id ==> QueuesOf(r2, l) == QueuesOf(r, l)
    ensures forall k :: 0 <= k < i + 1 ==>
              Numbered(QueuesOf(r2, enabled[k].id), QueuesOf(lists, enabled[k].id), QueuesBefore(lists, enabled, k), n)
  {
    var l := enabled[i].id;
    assert QueuesOf(r, l) == QueuesOf(lists, l) by {
      EnabledUpToStep(enabled, i);
    }
    forall k | 0 <= k < i + 1
      ensures Numbered(QueuesOf(r2, enabled[k].id), QueuesOf(lists, enabled[k].id), QueuesBefore(lists, enabled, k), n)
    {
      if k < i {
        assert enabled[k].id < l;
        assert QueuesOf(r2, enabled[k].id) == QueuesOf(r, enabled[k].id);
      }
    }
  }

  /** NumberStep for the lcores not yet visited: their lists are still the original ones. */
  lemma {:induction false} NumberStepOthers(r: map<nat, seq<TxQueue>>, r2: map<nat, seq<TxQueue>>, lists: map<nat, seq<TxQueue>>, enabled: seq<Worker>, i: nat)
    requires IdsIncreasing(enabled) && i < |enabled|
    requires forall l :: !EnabledUpTo(enabled, i, l) ==> QueuesOf(r, l) == QueuesOf(lists, l)
    requires forall l :: l != enabled[i].id ==> QueuesOf(r2, l) == QueuesOf(r, l)
    ensures forall l :: !EnabledUpTo(enabled, i + 1, l) ==> QueuesOf(r2, l) == QueuesOf(lists, l)
  {
    EnabledUpToStep(enabled, i);
  }

  /** The innermost loop of dp_configure: rx_port_ids gets every port in order. */
  method RxPortIds(n: nat) returns (ids: seq<nat>)
    ensures ids == AllPorts(n)
  {
    ids := [];
    var p := 0;
    while p < n
      invariant p <= n && ids == AllPorts(p)
    {
      ids := ids + [p];
      p := p + 1;
    }
  }

  /** The queue loop of dp_configure for one lcore: each queue takes the next RX queue number from base. */
  method NumberQueues(qs: seq<TxQueue>, base: nat, n: nat) returns (r: seq<TxQueue>)
    ensures Numbered(r, qs, base, n)
  {
    r := qs;
    var rxqueueid := base;
    var q := 0;
    while q < |qs|
      invariant q <= |qs| && |r| == |qs| && rxqueueid == base + q
      invariant forall k :: 0 <= k < q ==> r[k] == TxQueue(qs[k].portId, qs[k].queueId, (base + k) % 0x100, AllPorts(n))
      invariant forall k :: q <= k < |qs| ==> r[k] == qs[k]
    {
      var ports := RxPortIds(n);
      r := r[q := TxQueue(r[q].portId, r[q].queueId, rxqueueid % 0x100, ports)];
      rxqueueid := rxqueueid + 1;
      q := q + 1;
    }
  }

  /**
   * dp_configure's lcore loop: lcores with no TX queue are skipped, and the
   * RX queue counter runs on across the lcores in id order.
   */
  method NumberRxQueues(lists: map<nat, seq<TxQueue>>, enabled: seq<Worker>, n: nat) returns (r: map<nat, seq<TxQueue>>)
    requires IdsIncreasing(enabled)
    ensures NumberedUpTo(r, lists, enabled, n, |enabled|)
  {
    r := lists;
    var rxqueueid := 0;
    var i := 0;
    assert NumberedUpTo(r, lists, enabled, n, 0);
    while i < |enabled|
      invariant i <= |enabled| && rxqueueid == QueuesBefore(lists, enabled, i)
      invariant NumberedUpTo(r, lists, enabled, n, i)
    {
      r := NumberLcore(r, lists, enabled, n, i, rxqueueid);
      assert QueuesBefore(lists, enabled, i + 1) == rxqueueid + |QueuesOf(lists, enabled[i].id)|;
      rxqueueid := rxqueueid + |QueuesOf(lists, enabled[i].id)|;
      i := i + 1;
    }
  }

  /** One visit of the lcore loop: lcore i's queues, if it has any, are numbered from rxqueueid. */
  method NumberLcore(r: map<nat, seq<TxQueue>>, lists: map<nat, seq<TxQueue>>, enabled: seq<Worker>, n: nat, i: nat, rxqueueid: nat)
    returns (r2: map<nat, seq<TxQueue>>)
    requires IdsIncreasing(enabled) && i < |enabled| && rxqueueid == QueuesBefore(lists, enabled, i)
    requires NumberedUpTo(r, lists, enabled, n, i)
    ensures NumberedUpTo(r2, lists, enabled, n, i + 1)
  {
    var l := enabled[i].id;
    var qs := QueuesOf(r, l);
    r2 := r;
    if |qs| > 0 {
      var numbered := NumberQueues(qs, rxqueueid, n);
      r2 := r[l := numbered];
    }
    NumberStep(r, r2, lists, enabled, n, i);
  }

  /** Lcore i is among the first i + 1 exactly when it is among the first i or is lcore i; ids increasing, it is not among the first i. */
  lemma {:induction false} EnabledUpToStep(enabled: seq<Worker>, i: nat)
    requires IdsIncreasing(enabled) && i < |enabled|
    ensures forall l :: EnabledUpTo(enabled, i + 1, l) <==> EnabledUpTo(enabled, i, l) || l == enabled[i].id
    ensures !EnabledUpTo(enabled, i, enabled[i].id)
  {
    forall l ensures EnabledUpTo(enabled, i + 1, l) <==> EnabledUpTo(enabled, i, l) || l == enabled[i].id {
      if l == enabled[i].id {
        assert enabled[i].id == l;
      }
    }
  }

  // The port lists of configure_lcore_tx_queues partition the ports.

  /** The list lengths of the first k enabled lcores, over the ports 0..n-1. */
  function SumLists(lcores: seq<nat>, n: nat, enabled: seq<Worker>, k: nat): nat
    requires n <= |lcores| && k <= |enabled|
  {
    if k == 0 then 0 else SumLists(lcores, n, enabled, k - 1) + |PortsUpTo(lcores, n, enabled[k - 1].id)|
  }

  /** How many of the first k enabled lcores have id x. */
  function CountIds(enabled: seq<Worker>, k: nat, x: nat): nat
    requires k <= |enabled|
  {
    if k == 0 then 0 else CountIds(enabled, k - 1, x) + (if enabled[k - 1].id == x then 1 else 0)
  }

  lemma {:induction false} SumListsNone(lcores: seq<nat>, enabled: seq<Worker>, k: nat)
    requires k <= |enabled|
    ensures SumLists(lcores, 0, enabled, k) == 0
  {
    if k > 0 {
      SumListsNone(lcores, enabled, k - 1);
    }
  }

  /** Port n adds one entry to the list of each lcore with its lcore's id. */
  lemma {:induction false} SumListsStep(lcores: seq<nat>, n: nat, enabled: seq<Worker>, k: nat)
    requires n < |lcores| && k <= |enabled|
    ensures SumLists(lcores, n + 1, enabled, k) == SumLists(lcores, n, enabled, k) + CountIds(enabled, k, lcores[n])
  {
    if k > 0 {
      SumListsStep(lcores, n, enabled, k - 1);
      var l := enabled[k - 1].id;
      assert |PortsUpTo(lcores, n + 1, l)| == |PortsUpTo(lcores, n, l)| + (if lcores[n] == l then 1 else 0);
    }
  }

  /** With increasing ids, an id occurs at most once. */
  lemma {:induction false} CountIdsOnce(enabled: seq<Worker>, k: nat, x: nat)
    requires IdsIncreasing(enabled) && k <= |enabled|
    ensures CountIds(enabled, k, x) == if EnabledUpTo(enabled, k, x) then 1 else 0
  {
    if k > 0 {
      CountIdsOnce(enabled, k - 1, x);
      if enabled[k - 1].id == x {
        assert EnabledUpTo(enabled, k, x);
        forall i | 0 <= i < k - 1 ensures enabled[i].id != x {
          assert enabled[i].id < enabled[k - 1].id;
        }
        assert !EnabledUpTo(enabled, k - 1, x);
      } else {
        assert EnabledUpTo(enabled, k, x) <==> EnabledUpTo(enabled, k - 1, x) by {
          if EnabledUpTo(enabled, k, x) {
            var i :| 0 <= i < k && i < |enabled| && enabled[i].id == x;
            assert i < k - 1;
          }
        }
      }
    }
  }

  /**
   * When every port's lcore is enabled, the lcores' lists hold n entries
   * together: each port is on exactly one list.
   */
  lemma {:induction false} SumListsTotal(lcores: seq<nat>, n: nat, enabled: seq<Worker>)
    requires n <= |lcores| && IdsIncreasing(enabled)
    requires forall p :: 0 <= p < n ==> EnabledUpTo(enabled, |enabled|, lcores[p])
    ensures SumLists(lcores, n, enabled, |enabled|) == n
  {
    if n == 0 {
      SumListsNone(lcores, enabled, |enabled|);
    } else {
      SumListsTotal(lcores, n - 1, enabled);
      SumListsStep(lcores, n - 1, enabled, |enabled|);
      CountIdsOnce(enabled, |enabled|, lcores[n - 1]);
    }
  }

  /** The list lengths grow with the lcores counted. */
  lemma {:induction false} SumListsGrows(lcores: seq<nat>, n: nat, enabled: seq<Worker>, j: nat, k: nat)
    requires n <= |lcores| && j < k <= |enabled|
    ensures SumLists(lcores, n, enabled, j) + |PortsUpTo(lcores, n, enabled[j].id)| <= SumLists(lcores, n, enabled, k)
    decreases k - j
  {
    assert SumLists(lcores, n, enabled, j + 1) == SumLists(lcores, n, enabled, j) + |PortsUpTo(lcores, n, enabled[j].id)|;
    if j + 1 < k {
      SumListsGrows(lcores, n, enabled, j + 1, k);
    }
  }

  /** Every entry of an lcore's list is a port below k whose parameter names that lcore. */
  lemma {:induction false} PortsUpToMember(lcores: seq<nat>, k: nat, l: nat, j: nat)
    requires k <= |lcores| && j < |PortsUpTo(lcores, k, l)|
    ensures PortsUpTo(lcores, k, l)[j] < k && lcores[PortsUpTo(lcores, k, l)[j]] == l
  {
    if j < |PortsUpTo(lcores, k - 1, l)| {
      PortsUpToMember(lcores, k - 1, l, j);
    }
  }

  /** A list over fewer ports is a prefix of the list over more. */
  lemma {:induction false} PortsUpToPrefix(lcores: seq<nat>, j: nat, k: nat, l: nat)
    requires j <= k <= |lcores|
    ensures |PortsUpTo(lcores, j, l)| <= |PortsUpTo(lcores, k, l)|
    ensures PortsUpTo(lcores, k, l)[..|PortsUpTo(lcores, j, l)|] == PortsUpTo(lcores, j, l)
    decreases k - j
  {
    if j < k {
      PortsUpToPrefix(lcores, j, k - 1, l);
    }
  }

  /** Port p sits in its lcore's list at the index that counts the earlier ports of that lcore, and nowhere before it. */
  lemma {:induction false} PortPosition(lcores: seq<nat>, n: nat, p: nat)
    requires p < n <= |lcores|
    ensures var l := lcores[p];
            var q := |PortsUpTo(lcores, p, l)|;
            && q < |PortsUpTo(lcores, n, l)| && PortsUpTo(lcores, n, l)[q] == p
            && forall k :: 0 <= k < q ==> PortsUpTo(lcores, n, l)[k] < p
  {
    var l := lcores[p];
    PortsUpToSnoc(lcores, p);
    PortsUpToPrefix(lcores, p + 1, n, l);
    forall k | 0 <= k < |PortsUpTo(lcores, p, l)| ensures PortsUpTo(lcores, n, l)[k] < p {
      PortsUpToMember(lcores, p, l, k);
    }
  }

  // The RX queue of a port after dp_init and dp_configure.

  /**
   * dp_init then dp_configure: lcore i's list holds TX queues for its
   * ports in port order, with the RX queue numbers that follow those of
   * the lcores before it.
   */
  ghost predicate Configured(lists: map<nat, seq<TxQueue>>, lcores: seq<nat>, enabled: seq<Worker>)
  {
    forall i :: 0 <= i < |enabled| ==> ConfiguredLcore(lists, lcores, enabled, i)
  }

  /** The part of Configured about enabled lcore i. */
  ghost predicate ConfiguredLcore(lists: map<nat, seq<TxQueue>>, lcores: seq<nat>, enabled: seq<Worker>, i: nat)
    requires i < |enabled|
  {
    Numbered(QueuesOf(lists, enabled[i].id), Unconfigured(PortsUpTo(lcores, |lcores|, enabled[i].id)), SumLists(lcores, |lcores|, enabled, i), |lcores|)
  }

  /** What dp_init leaves and dp_configure numbers is Configured. */
  lemma {:induction false} ConfiguredAfterInit(l0: map<nat, seq<TxQueue>>, r: map<nat, seq<TxQueue>>, lcores: seq<nat>, enabled: seq<Worker>)
    requires forall l :: QueuesOf(l0, l) == Unconfigured(PortsUpTo(lcores, |lcores|, l))
    requires NumberedUpTo(r, l0, enabled, |lcores|, |enabled|)
    ensures Configured(r, lcores, enabled)
  {
    forall l ensures |QueuesOf(l0, l)| == |PortsUpTo(lcores, |lcores|, l)| {
      assert QueuesOf(l0, l) == Unconfigured(PortsUpTo(lcores, |lcores|, l));
    }
    forall i | 0 <= i < |enabled| ensures ConfiguredLcore(r, lcores, enabled, i) {
      QueuesBeforeIsSum(l0, lcores, enabled, i);
    }
  }

  lemma {:induction false} QueuesBeforeIsSum(l0: map<nat, seq<TxQueue>>, lcores: seq<nat>, enabled: seq<Worker>, i: nat)
    requires i <= |enabled| && forall l :: |QueuesOf(l0, l)| == |PortsUpTo(lcores, |lcores|, l)|
    ensures QueuesBefore(l0, enabled, i) == SumLists(lcores, |lcores|, enabled, i)
  {
    if i > 0 {
      QueuesBeforeIsSum(l0, lcores, enabled, i - 1);
    }
  }

  /** Whether every port's lcore is an enabled lcore, with ids increasing and at most RTE_MAX_ETHPORTS ports. */
  predicate Covered(lcores: seq<nat>, enabled: seq<Worker>)
  {
    IdsIncreasing(enabled) && |lcores| <= MaxPorts && forall p :: 0 <= p < |lcores| ==> EnabledUpTo(enabled, |enabled|, lcores[p])
  }

  /** The RX queue number of port p, whose lcore is enabled[i]: the queues before its lcore's, then its place in that lcore's list. */
  function RxQueueOf(lcores: seq<nat>, enabled: seq<Worker>, i: nat, p: nat): nat
    requires i < |enabled| && p < |lcores|
  {
    SumLists(lcores, |lcores|, enabled, i) + |PortsUpTo(lcores, p, lcores[p])|
  }

  /** Port p's RX queue number is below the port count, the number of RX queues dp_init gives every port. */
  lemma {:induction false} RxQueueBelow(lcores: seq<nat>, enabled: seq<Worker>, p: nat, i: nat)
    requires Covered(lcores, enabled)
    requires p < |lcores| && i < |enabled| && enabled[i].id == lcores[p]
    ensures RxQueueOf(lcores, enabled, i, p) < |lcores|
  {
    var n := |lcores|;
    SumListsTotal(lcores, n, enabled);
    PortPosition(lcores, n, p);
    SumListsGrows(lcores, n, enabled, i, |enabled|);
  }

  /** Two ports never get the same RX queue number. */
  lemma {:induction false} RxQueuesDistinct(lcores: seq<nat>, enabled: seq<Worker>, p1: nat, i1: nat, p2: nat, i2: nat)
    requires Covered(lcores, enabled)
    requires p1 < |lcores| && i1 < |enabled| && enabled[i1].id == lcores[p1]
    requires p2 < |lcores| && i2 < |enabled| && enabled[i2].id == lcores[p2]
    ensures p1 != p2 ==> RxQueueOf(lcores, enabled, i1, p1) != RxQueueOf(lcores, enabled, i2, p2)
  {
    var n := |lcores|;
    PortPosition(lcores, n, p1);
    PortPosition(lcores, n, p2);
    if i1 < i2 {
      SumListsGrows(lcores, n, enabled, i1, i2);
    } else if i2 < i1 {
      SumListsGrows(lcores, n, enabled, i2, i1);
    } else {
      assert lcores[p1] == lcores[p2];
      assert PortsUpTo(lcores, n, lcores[p1])[|PortsUpTo(lcores, p1, lcores[p1])|] == p1;
      assert PortsUpTo(lcores, n, lcores[p2])[|PortsUpTo(lcores, p2, lcores[p2])|] == p2;
    }
  }

  /** The first queue from q on that transmits on port. */
  function FindIn(qs: seq<TxQueue>, port: nat, q: nat): (r: Option<nat>)
    ensures r.Some? ==> q <= r.value < |qs| && qs[r.value].portId == port
    ensures forall k :: q <= k < |qs| && (r.None? || k < r.value) ==> qs[k].portId != port
    decreases |qs| - q
  {
    if q >= |qs| then None
    else if qs[q].portId == port then Some(q)
    else FindIn(qs, port, q + 1)
  }

  /** get_rxqueues_id from lcore i on: the RX queue of the first TX queue for port, lcores in id order. */
  function FindRx(lists: map<nat, seq<TxQueue>>, enabled: seq<Worker>, port: nat, i: nat): u16
    decreases |enabled| - i
  {
    if i >= |enabled| then NoRxQueue
    else
      var qs := QueuesOf(lists, enabled[i].id);
      var f := FindIn(qs, port, 0);
      if f.Some? then qs[f.value].rxQueueId else FindRx(lists, enabled, port, i + 1)
  }

  /** Queue q of the configured lcore i: its port is entry q of the lcore's port list, its RX queue the q-th from the lcore's base. */
  lemma {:induction false} ConfiguredQueue(lists: map<nat, seq<TxQueue>>, lcores: seq<nat>, enabled: seq<Worker>, i: nat, q: nat)
    requires Configured(lists, lcores, enabled) && i < |enabled|
    ensures |QueuesOf(lists, enabled[i].id)| == |PortsUpTo(lcores, |lcores|, enabled[i].id)|
    ensures q < |QueuesOf(lists, enabled[i].id)| ==>
              QueuesOf(lists, enabled[i].id)[q]
              == TxQueue(PortsUpTo(lcores, |lcores|, enabled[i].id)[q], 0, (SumLists(lcores, |lcores|, enabled, i) + q) % 0x100, AllPorts(|lcores|))
  {
    assert ConfiguredLcore(lists, lcores, enabled, i);
  }

  /** An lcore other than port's has no TX queue for it. */
  lemma {:induction false} NotOnOtherLcore(lists: map<nat, seq<TxQueue>>, lcores: seq<nat>, enabled: seq<Worker>, port: nat, k: nat)
    requires Configured(lists, lcores, enabled) && k < |enabled|
    requires port >= |lcores| || enabled[k].id != lcores[port]
    ensures FindIn(QueuesOf(lists, enabled[k].id), port, 0) == None
  {
    var qs := QueuesOf(lists, enabled[k].id);
    var f := FindIn(qs, port, 0);
    if f.Some? {
      ConfiguredQueue(lists, lcores, enabled, k, f.value);
      PortsUpToMember(lcores, |lcores|, enabled[k].id, f.value);
      assert false;
    }
  }

  /** Scanning past lcores that have no TX queue for port. */
  lemma {:induction false} FindRxSkips(lists: map<nat, seq<TxQueue>>, enabled: seq<Worker>, port: nat, k: nat, i: nat)
    requires k <= i <= |enabled|
    requires forall j :: k <= j < i ==> FindIn(QueuesOf(lists, enabled[j].id), port, 0) == None
    ensures FindRx(lists, enabled, port, k) == FindRx(lists, enabled, port, i)
    decreases i - k
  {
    if k < i {
      FindRxSkips(lists, enabled, port, k + 1, i);
    }
  }

  /** Port p's lcore finds p at the queue that counts p's earlier ports. */
  lemma {:induction false} FoundAtPosition(lists: map<nat, seq<TxQueue>>, lcores: seq<nat>, enabled: seq<Worker>, p: nat, i: nat)
    requires Configured(lists, lcores, enabled)
    requires p < |lcores| && i < |enabled| && enabled[i].id == lcores[p]
    ensures FindIn(QueuesOf(lists, enabled[i].id), p, 0) == Some(|PortsUpTo(lcores, p, lcores[p])|)
  {
    var qs := QueuesOf(lists, enabled[i].id);
    var q := |PortsUpTo(lcores, p, lcores[p])|;
    PortPosition(lcores, |lcores|, p);
    ConfiguredQueue(lists, lcores, enabled, i, q);
    assert qs[q].portId == p;
    forall k | 0 <= k < q ensures qs[k].portId != p {
      ConfiguredQueue(lists, lcores, enabled, i, k);
    }
  }

  /**
   * Once configured, get_rxqueues_id(p) is port p's RX queue number for
   * every port.
   */
  lemma {:induction false} RxQueueFound(lists: map<nat, seq<TxQueue>>, lcores: seq<nat>, enabled: seq<Worker>, p: nat, i: nat)
    requires Configured(lists, lcores, enabled) && Covered(lcores, enabled)
    requires p < |lcores| && i < |enabled| && enabled[i].id == lcores[p]
    ensures FindRx(lists, enabled, p, 0) as nat == RxQueueOf(lcores, enabled, i, p)
  {
    var qs := QueuesOf(lists, enabled[i].id);
    var q := |PortsUpTo(lcores, p, lcores[p])|;
    assert FindRx(lists, enabled, p, 0) == FindRx(lists, enabled, p, i) by {
      forall j | 0 <= j < i ensures FindIn(QueuesOf(lists, enabled[j].id), p, 0) == None {
        assert enabled[j].id < enabled[i].id;
        NotOnOtherLcore(lists, lcores, enabled, p, j);
      }
      FindRxSkips(lists, enabled, p, 0, i);
    }
    assert q < |qs| && FindRx(lists, enabled, p, i) == qs[q].rxQueueId by {
      FoundAtPosition(lists, lcores, enabled, p, i);
    }
    var v := SumLists(lcores, |lcores|, enabled, i) + q;
    assert v < 0x100 by {
      RxQueueBelow(lcores, enabled, p, i);
    }
    assert qs[q].rxQueueId as nat == v % 0x100 by {
      ConfiguredQueue(lists, lcores, enabled, i, q);
    }
  }

  /** Once configured, get_rxqueues_id returns -1 (0xffff) for a port number beyond the ports. */
  lemma {:induction false} RxQueueMissing(lists: map<nat, seq<TxQueue>>, lcores: seq<nat>, enabled: seq<Worker>, p: nat)
    requires Configured(lists, lcores, enabled) && p >= |lcores|
    ensures FindRx(lists, enabled, p, 0) == NoRxQueue
  {
    forall j | 0 <= j < |enabled| ensures FindIn(QueuesOf(lists, enabled[j].id), p, 0) == None {
      NotOnOtherLcore(lists, lcores, enabled, p, j);
    }
    FindRxSkips(lists, enabled, p, 0, |enabled|);
  }


  /** The lcores configure_lcore_params picks are enabled ones. */
  lemma {:induction false} PlacedCovered(enabled: seq<Worker>, master: nat, chosen: seq<nat>)
    requires IdsIncreasing(enabled) && |chosen| <= MaxPorts
    requires forall p :: 0 <= p < |chosen| ==> chosen[p] < |Workers(enabled, master)|
    ensures Covered(Ids(Workers(enabled, master), chosen), enabled)
  {
    var ws := Workers(enabled, master);
    var lcores := Ids(ws, chosen);
    forall p | 0 <= p < |lcores| ensures EnabledUpTo(enabled, |enabled|, lcores[p]) {
      var w := ws[chosen[p]];
      assert w in ws;
      var i :| 0 <= i < |enabled| && enabled[i] == w;
      assert enabled[i].id == lcores[p];
    }
  }

  /**
   * After dp_init and dp_configure, get_rxqueues_id gives every port an RX
   * queue number below the port count, different ports different numbers,
   * and -1 (0xffff) to a port number beyond the ports.
   */
  lemma {:induction false} RxQueuesAfterConfigure(l0: map<nat, seq<TxQueue>>, r: map<nat, seq<TxQueue>>, lcores: seq<nat>, enabled: seq<Worker>, p1: nat, p2: nat)
    requires forall l :: QueuesOf(l0, l) == Unconfigured(PortsUpTo(lcores, |lcores|, l))
    requires NumberedUpTo(r, l0, enabled, |lcores|, |enabled|) && Covered(lcores, enabled)
    ensures p1 < |lcores| ==> FindRx(r, enabled, p1, 0) as nat < |lcores|
    ensures p1 < |lcores| && p2 < |lcores| && p1 != p2 ==> FindRx(r, enabled, p1, 0) != FindRx(r, enabled, p2, 0)
    ensures p1 >= |lcores| ==> FindRx(r, enabled, p1, 0) == NoRxQueue
  {
    ConfiguredAfterInit(l0, r, lcores, enabled);
    if p1 < |lcores| {
      assert EnabledUpTo(enabled, |enabled|, lcores[p1]);
      var i1 :| 0 <= i1 < |enabled| && enabled[i1].id == lcores[p1];
      RxQueueFound(r, lcores, enabled, p1, i1);
      RxQueueBelow(lcores, enabled, p1, i1);
      if p2 < |lcores| {
        assert EnabledUpTo(enabled, |enabled|, lcores[p2]);
        var i2 :| 0 <= i2 < |enabled| && enabled[i2].id == lcores[p2];
        RxQueueFound(r, lcores, enabled, p2, i2);
        RxQueuesDistinct(lcores, enabled, p1, i1, p2, i2);
      }
    } else {
      RxQueueMissing(r, lcores, enabled, p1);
    }
  }

  /** rte_cpu_to_be_32 on a little-endian CPU: the value whose stored bytes are x's, most significant first. */
  function CpuToBe32(x: u32): (r: u32)
    ensures Le32Bytes(r) == Reversed4(Le32Bytes(x))
  {
    var b := Le32Bytes(x);
    Le32RoundTrip(Reversed4(b), 0);
    Le32(Reversed4(b))
  }

  function Reversed4(b: seq<byte>): (r: seq<byte>)
    requires |b| == 4
    ensures |r| == 4
  {
    [b[3], b[2], b[1], b[0]]
  }

  /** Converting twice gives the value back. */
  lemma {:induction false} CpuToBe32Twice(x: u32)
    ensures CpuToBe32(CpuToBe32(x)) == x
  {
    var b := Le32Bytes(x);
    Le32RoundTrip(b, x);
    assert Reversed4(Reversed4(b)) == b;
    Le32RoundTrip(Le32Bytes(CpuToBe32(CpuToBe32(x))), x);
  }

  /** A perfect filter as added by rte_eth_dev_fdir_add_perfect_filter: port, soft id, destination address, RX queue. */
  datatype Filter = Filter(port: nat, softId: nat, dstIp: u32, queue: u16)

  /** The filters that the adds on ports 0..k-1 installed, codes being what each add returned. */
  function FiltersAdded(codes: seq<int>, softId: nat, addr: u32, queue: u16, k: nat): (r: seq<Filter>)
    requires k <= |codes|
    ensures |r| <= k
    ensures forall f :: f in r ==> f.port < k && codes[f.port] >= 0 && f == Filter(f.port, softId, addr, queue)
    ensures forall p :: 0 <= p < k && codes[p] >= 0 ==> Filter(p, softId, addr, queue) in r
  {
    if k == 0 then []
    else FiltersAdded(codes, softId, addr, queue, k - 1) + (if codes[k - 1] >= 0 then [Filter(k - 1, softId, addr, queue)] else [])
  }

  /** The port loop of add_ipv4_rule: one add per port, returning the last port's code (0 when there are no ports) and the filters accepted. */
  method AddFilters(codes: seq<int>, softId: nat, addr: u32, queue: u16) returns (ret: int, added: seq<Filter>)
    ensures ret == if |codes| == 0 then 0 else codes[|codes| - 1]
    ensures added == FiltersAdded(codes, softId, addr, queue, |codes|)
  {
    ret := 0;
    added := [];
    var p := 0;
    while p < |codes|
      invariant p <= |codes| && ret == if p == 0 then 0 else codes[p - 1]
      invariant added == FiltersAdded(codes, softId, addr, queue, p)
    {
      ret := codes[p];
      if ret >= 0 {
        added := added + [Filter(p, softId, addr, queue)];
      }
      p := p + 1;
    }
  }

  /** The filters that adding rules[..k] installs, rule j with soft id base + j; codes[j] are the NICs' answers to rule j's adds. */
  function RulesFilters(lists: map<nat, seq<TxQueue>>, enabled: seq<Worker>, rules: seq<(u32, byte)>, codes: seq<seq<int>>, base: nat, k: nat): seq<Filter>
    requires k <= |rules| && k <= |codes|
  {
    if k == 0 then []
    else
      RulesFilters(lists, enabled, rules, codes, base, k - 1)
      + FiltersAdded(codes[k - 1], base + k - 1, CpuToBe32(rules[k - 1].0), FindRx(lists, enabled, rules[k - 1].1, 0), |codes[k - 1]|)
  }

  /** The filters of rules before j stay installed as later rules are added. */
  lemma {:induction false} RulesFiltersKept(lists: map<nat, seq<TxQueue>>, enabled: seq<Worker>, rules: seq<(u32, byte)>, codes: seq<seq<int>>, base: nat, j: nat, k: nat)
    requires j <= k <= |rules| && k <= |codes|
    ensures forall f :: f in RulesFilters(lists, enabled, rules, codes, base, j) ==> f in RulesFilters(lists, enabled, rules, codes, base, k)
    decreases k - j
  {
    if j < k {
      RulesFiltersKept(lists, enabled, rules, codes, base, j, k - 1);
    }
  }

  /** An accepted add of rule k on port p leaves its filter among the installed ones. */
  lemma {:induction false} RuleFilterIn(lists: map<nat, seq<TxQueue>>, enabled: seq<Worker>, rules: seq<(u32, byte)>, codes: seq<seq<int>>, base: nat, k: nat, p: nat)
    requires |codes| == |rules| && k < |rules| && p < |codes[k]| && codes[k][p] >= 0
    ensures Filter(p, base + k, CpuToBe32(rules[k].0), FindRx(lists, enabled, rules[k].1, 0)) in RulesFilters(lists, enabled, rules, codes, base, |rules|)
  {
    var f := Filter(p, base + k, CpuToBe32(rules[k].0), FindRx(lists, enabled, rules[k].1, 0));
    assert f in FiltersAdded(codes[k], base + k, CpuToBe32(rules[k].0), FindRx(lists, enabled, rules[k].1, 0), |codes[k]|);
    assert f in RulesFilters(lists, enabled, rules, codes, base, k + 1);
    RulesFiltersKept(lists, enabled, rules, codes, base, k + 1, |rules|);
  }

  /** The default rules with their output ports as the uint8_t add_ipv4_rule takes. */
  function DefaultRuleList(): (r: seq<(u32, byte)>)
    ensures |r| == 12 && forall k :: 0 <= k < 12 ==> r[k].0 == DefaultRules()[k].0 && r[k].1 as nat == DefaultRules()[k].1
  {
    DefaultPortsPermutation();
    seq(12, k requires 0 <= k < 12 => (DefaultAddress(k), DefaultPorts[k] as byte))
  }

  /**
   * When the datapath is configured over n ports and every add succeeds,
   * each port holds, for each default address, a filter steering it to the
   * RX queue of the TX queue of the rule's output port.
   */
  lemma {:induction false} DefaultFiltersSteer(l0: map<nat, seq<TxQueue>>, r: map<nat, seq<TxQueue>>, lcores: seq<nat>, enabled: seq<Worker>,
                                             codes: seq<seq<int>>, base: nat, k: nat, p: nat)
    requires forall l :: QueuesOf(l0, l) == Unconfigured(PortsUpTo(lcores, |lcores|, l))
    requires NumberedUpTo(r, l0, enabled, |lcores|, |enabled|) && Covered(lcores, enabled)
    requires |codes| == 12 && forall j, q :: 0 <= j < 12 && 0 <= q < |codes[j]| ==> codes[j][q] >= 0
    requires k < 12 && p < |codes[k]|
    ensures var queue := FindRx(r, enabled, DefaultPorts[k], 0);
            && Filter(p, base + k, CpuToBe32(DefaultAddress(k)), queue) in RulesFilters(r, enabled, DefaultRuleList(), codes, base, 12)
            && (DefaultPorts[k] < |lcores| ==> queue as nat < |lcores|)
  {
    RuleFilterIn(r, enabled, DefaultRuleList(), codes, base, k, p);
    if DefaultPorts[k] < |lcores| {
      RxQueuesAfterConfigure(l0, r, lcores, enabled, DefaultPorts[k], DefaultPorts[k]);
    }
  }


  /** get_rxqueues_id: the lcore scan and the queue scan, returning at the first TX queue for port. */
  method GetRxQueuesId(lists: map<nat, seq<TxQueue>>, enabled: seq<Worker>, port: nat) returns (r: u16)
    ensures r == FindRx(lists, enabled, port, 0)
  {
    var i := 0;
    while i < |enabled|
      invariant i <= |enabled| && FindRx(lists, enabled, port, 0) == FindRx(lists, enabled, port, i)
    {
      var qs := QueuesOf(lists, enabled[i].id);
      var q := 0;
      while q < |qs|
        invariant q <= |qs| && FindIn(qs, port, 0) == FindIn(qs, port, q)
      {
        if qs[q].portId == port {
          return qs[q].rxQueueId;
        }
        q := q + 1;
      }
      i := i + 1;
    }
    r := NoRxQueue;
  }

  /** add_ipv4_rule without its counter: the RX queue of portOut, then one filter add per port with soft id softId. */
  method AddRule(lists: map<nat, seq<TxQueue>>, enabled: seq<Worker>, ip: u32, portOut: byte, codes: seq<int>, softId: nat)
    returns (ret: int, added: seq<Filter>)
    ensures ret == if |codes| == 0 then 0 else codes[|codes| - 1]
    ensures added == FiltersAdded(codes, softId, CpuToBe32(ip), FindRx(lists, enabled, portOut, 0), |codes|)
  {
    var queue := GetRxQueuesId(lists, enabled, portOut);
    ret, added := AddFilters(codes, softId, CpuToBe32(ip), queue);
  }

  /** The rule loop of dp_install_default_tables: add_ipv4_rule for each rule in order, rule k with soft id base + k. */
  method AddRules(lists: map<nat, seq<TxQueue>>, enabled: seq<Worker>, rules: seq<(u32, byte)>, codes: seq<seq<int>>, base: nat) returns (added: seq<Filter>)
    requires |codes| == |rules|
    ensures added == RulesFilters(lists, enabled, rules, codes, base, |rules|)
  {
    added := [];
    var k := 0;
    while k < |rules|
      invariant k <= |rules| && added == RulesFilters(lists, enabled, rules, codes, base, k)
    {
      var _, more := AddRule(lists, enabled, rules[k].0, rules[k].1, codes[k], base + k);
      assert RulesFilters(lists, enabled, rules, codes, base, k + 1) == added + more;
      added := added + more;
      k := k + 1;
    }
  }


  /**
   * The datapath's static state: lcore_params (port p on lcore
   * lcoreOf[p]), each lcore's TX queue list, the filters the NICs
   * accepted, and the route counter.
   */
  class VoqDatapath {
    var lcoreOf: seq<nat>
    var txLists: map<nat, seq<TxQueue>>
    var filterAdds: seq<Filter>
    var nbIpRoutes: nat

    /** The zeroed statics. */
    constructor ()
      ensures lcoreOf == [] && txLists == map[] && filterAdds == [] && nbIpRoutes == 0
    {
      lcoreOf := [];
      txLists := map[];
      filterAdds := [];
      nbIpRoutes := 0;
    }

    /**
     * dp_init: places one lcore per port, appends (port, queue 0) to the
     * TX queue list of the port's lcore, failing when that lcore already
     * has 16, and returns the port sizing it applies.
     */
    method Init(enabled: seq<Worker>, master: nat, sockets: seq<nat>)
      returns (ok: bool, sizing: Daqswitch.Sizing, chosen: seq<nat>, ghost relaxedAt: nat)
      requires lcoreOf == [] && txLists == map[]
      requires 0 < |Workers(enabled, master)| && |sockets| <= MaxPorts
      modifies this
      ensures filterAdds == old(filterAdds) && nbIpRoutes == old(nbIpRoutes)
      ensures Placed(Workers(enabled, master), sockets, chosen, relaxedAt) && lcoreOf == Ids(Workers(enabled, master), chosen)
      ensures ok <==> forall p :: 0 <= p < |sockets| ==> Room(lcoreOf, p)
      ensures ok ==> sizing == VoqSizing(|sockets|)
      ensures ok ==> forall l :: QueuesOf(txLists, l) == Unconfigured(PortsUpTo(lcoreOf, |lcoreOf|, l))
    {
      var lists;
      ok, chosen, lcoreOf, lists, relaxedAt := PlaceLcores(Workers(enabled, master), sockets);
      txLists := FromLists(lists);
      sizing := VoqSizing(|sockets|);
      if ok {
        forall l ensures QueuesOf(txLists, l) == Unconfigured(ListOf(lists, l)) {
        }
      }
    }

    /**
     * dp_configure: numbers the TX queues' RX queues consecutively in
     * lcore order and has each poll its RX queue on every port; it always
     * reports success.
     */
    method Configure(enabled: seq<Worker>, nbPorts: nat) returns (status: int)
      requires IdsIncreasing(enabled)
      modifies this
      ensures status == 0 && lcoreOf == old(lcoreOf) && filterAdds == old(filterAdds) && nbIpRoutes == old(nbIpRoutes)
      ensures NumberedUpTo(txLists, old(txLists), enabled, nbPorts, |enabled|)
    {
      txLists := NumberRxQueues(txLists, enabled, nbPorts);
      status := 0;
    }

    /**
     * add_ipv4_rule: one perfect filter per port for the address in
     * network order, with soft id nb_ip_routes and the RX queue of the
     * out-port's TX queue; codes are what the NICs return. It returns the
     * last port's code and bumps the counter whatever happened.
     */
    method AddIpv4Rule(enabled: seq<Worker>, nbPorts: nat, ip: u32, portOut: byte, codes: seq<int>) returns (ret: int)
      requires |codes| == nbPorts
      modifies this
      ensures nbIpRoutes == old(nbIpRoutes) + 1 && lcoreOf == old(lcoreOf) && txLists == old(txLists)
      ensures ret == if nbPorts == 0 then 0 else codes[nbPorts - 1]
      ensures filterAdds == old(filterAdds) + FiltersAdded(codes, old(nbIpRoutes), CpuToBe32(ip), FindRx(txLists, enabled, portOut, 0), nbPorts)
    {
      var added;
      ret, added := AddRule(txLists, enabled, ip, portOut, codes, nbIpRoutes);
      filterAdds := filterAdds + added;
      nbIpRoutes := nbIpRoutes + 1;
    }

    /**
     * dp_install_default_tables: add_ipv4_rule for the twelve default
     * rules in order; what each add returns is ignored.
     */
    method InstallDefaultTables(enabled: seq<Worker>, nbPorts: nat, codes: seq<seq<int>>) returns (status: int)
      requires |codes| == 12 && forall k :: 0 <= k < 12 ==> |codes[k]| == nbPorts
      modifies this
      ensures status == 0 && nbIpRoutes == old(nbIpRoutes) + 12 && lcoreOf == old(lcoreOf) && txLists == old(txLists)
      ensures filterAdds == old(filterAdds) + RulesFilters(txLists, enabled, DefaultRuleList(), codes, old(nbIpRoutes), 12)
    {
      var added := AddRules(txLists, enabled, DefaultRuleList(), codes, nbIpRoutes);
      filterAdds := filterAdds + added;
      nbIpRoutes := nbIpRoutes + 12;
      status := 0;
    }
  }

  // One pass of the main loop of a worker lcore.

  /** Whether TX queue i's poll interval has elapsed: strictly more than pollTsc cycles since its stamp, in uint64 arithmetic. */
  function Polled(prev: u64, now: u64, pollTsc: nat): bool
  {
    Sub64(now, prev) > pollTsc
  }

  /** Whether one of the first j bursts was full. */
  predicate HasFull(bursts: seq<seq<Mbuf>>, j: nat)
  {
    exists k :: 0 <= k < j && k < |bursts| && |bursts[k]| == MaxPktBurst
  }

  /** A queue's stamp after the pass: kept when not polled; otherwise now, or 0 after a full burst so that it is polled again at once. */
  function Stamp(prev: u64, now: u64, pollTsc: nat, bursts: seq<seq<Mbuf>>): u64
  {
    if !Polled(prev, now, pollTsc) then prev else if HasFull(bursts, |bursts|) then 0 else now
  }

  /** What the NICs take for one polled TX queue: its first j bursts, in order, on its port and queue. */
  function SentBursts(port: nat, queue: nat, bursts: seq<seq<Mbuf>>, j: nat): seq<Sent>
    requires j <= |bursts|
  {
    if j == 0 then [] else SentBursts(port, queue, bursts, j - 1) + SentAll(port, queue, bursts[j - 1])
  }

  /** What the first k TX queues forward in one pass; rx[i][j] is what polling port j for queue i returns. */
  function Forwarded(queues: seq<TxQueue>, prev: seq<u64>, now: seq<u64>, pollTsc: nat, rx: seq<seq<seq<Mbuf>>>, k: nat): seq<Sent>
    requires k <= |queues| && k <= |prev| && k <= |now| && k <= |rx|
  {
    if k == 0 then []
    else
      var i := k - 1;
      Forwarded(queues, prev, now, pollTsc, rx, i)
      + (if Polled(prev[i], now[i], pollTsc) then SentBursts(queues[i].portId, queues[i].queueId, rx[i], |rx[i]|) else [])
  }

  /** SentBursts counts every packet of every burst. */
  lemma {:induction false} SentBurstsSize(port: nat, queue: nat, bursts: seq<seq<Mbuf>>, j: nat)
    requires j <= |bursts|
    ensures |SentBursts(port, queue, bursts, j)| == Total(bursts, j)
    ensures forall s :: s in SentBursts(port, queue, bursts, j) ==> s.port == port && s.queue == queue
  {
    if j > 0 {
      SentBurstsSize(port, queue, bursts, j - 1);
    }
  }

  /** The packets of the first j bursts. */
  function Total(bursts: seq<seq<Mbuf>>, j: nat): nat
    requires j <= |bursts|
  {
    if j == 0 then 0 else Total(bursts, j - 1) + |bursts[j - 1]|
  }

  /** A worker lcore's TX queues and the poll stamps main_loop keeps for them (prev_tsc, zeroed on entry). */
  class VoqLcore {
    const queues: seq<TxQueue>
    const prevTsc: array<u64>

    ghost predicate Valid()
      reads this
    {
      prevTsc.Length == MaxQueuesPerLcore && |queues| <= MaxQueuesPerLcore
    }

    constructor (qs: seq<TxQueue>)
      requires |qs| <= MaxQueuesPerLcore
      ensures Valid() && queues == qs && fresh(prevTsc) && prevTsc[..] == seq(MaxQueuesPerLcore, i => 0)
    {
      queues := qs;
      prevTsc := new u64[MaxQueuesPerLcore](i => 0);
    }

    /**
     * One pass over the TX queues: a queue whose poll interval has elapsed
     * is stamped with now and polls its RX queue on each of its ports; a
     * full burst zeroes the stamp, and every received burst is handed to
     * the TX queue until the NIC has taken all of it.
     */
    method Pass(wire: Wire, now: seq<u64>, pollTsc: nat, rx: seq<seq<seq<Mbuf>>>)
      requires Valid() && |now| == |queues| && |rx| == |queues|
      requires forall i :: 0 <= i < |queues| ==> |rx[i]| == |queues[i].rxPorts|
      requires forall i, j :: 0 <= i < |rx| && 0 <= j < |rx[i]| ==> |rx[i][j]| <= MaxPktBurst
      modifies prevTsc, wire
      ensures Valid()
      ensures wire.log == old(wire.log) + Forwarded(queues, old(prevTsc[..]), now, pollTsc, rx, |queues|)
      ensures forall i :: 0 <= i < |queues| ==> prevTsc[i] == Stamp(old(prevTsc[i]), now[i], pollTsc, rx[i])
      ensures forall i :: |queues| <= i < MaxQueuesPerLcore ==> prevTsc[i] == old(prevTsc[i])
    {
      ghost var prev := prevTsc[..];
      var i := 0;
      while i < |queues|
        invariant i <= |queues|
        invariant wire.log == old(wire.log) + Forwarded(queues, prev, now, pollTsc, rx, i)
        invariant forall k :: 0 <= k < MaxQueuesPerLcore ==>
                    prevTsc[k] == if k < i then Stamp(prev[k], now[k], pollTsc, rx[k]) else prev[k]
      {
        PollQueue(wire, now[i], pollTsc, i, rx[i]);
        i := i + 1;
      }
    }

    /** The body of the pass for TX queue i. */
    method PollQueue(wire: Wire, now: u64, pollTsc: nat, i: nat, bursts: seq<seq<Mbuf>>)
      requires Valid() && i < |queues| && |bursts| == |queues[i].rxPorts|
      requires forall j :: 0 <= j < |bursts| ==> |bursts[j]| <= MaxPktBurst
      modifies prevTsc, wire
      ensures prevTsc[..] == old(prevTsc[..])[i := Stamp(old(prevTsc[i]), now, pollTsc, bursts)]
      ensures wire.log == old(wire.log)
                          + (if Polled(old(prevTsc[i]), now, pollTsc) then SentBursts(queues[i].portId, queues[i].queueId, bursts, |bursts|) else [])
    {
      var cur := queues[i];
      var diff := Sub64(now, prevTsc[i]);
      if diff > pollTsc {
        prevTsc[i] := now;
        var j := 0;
        while j < |cur.rxPorts|
          invariant j <= |cur.rxPorts|
          invariant prevTsc[..] == old(prevTsc[..])[i := if HasFull(bursts, j) then 0 else now]
          invariant wire.log == old(wire.log) + SentBursts(cur.portId, cur.queueId, bursts, j)
        {
          var pkts := bursts[j];
          if |pkts| > 0 {
            if |pkts| == MaxPktBurst {
              prevTsc[i] := 0;
            }
            wire.TransmitAll(cur.portId, cur.queueId, pkts);
          }
          assert HasFull(bursts, j + 1) <==> HasFull(bursts, j) || |bursts[j]| == MaxPktBurst;
          j := j + 1;
        }
      }
    }
  }
}
