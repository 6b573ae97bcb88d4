/**
 * Constants and record layouts of the voq_swq datapath: lcore roles, the
 * per-lcore RX and TX port lists, and the 64 data-flow slots of each port.
 */
module VoqSwqDefs {
  import opened Bytes

  /** RTE_MAX_ETHPORTS and RTE_MAX_LCORE of the default DPDK build configuration. */
  const MaxPorts: nat := 32
  const MaxLcores: nat := 128

  const LcoreIdDefault: nat := 0
  const LcorePortMax: nat := 16

  const TxqIdDefault: nat := 0
  const TxqIdReq: nat := 1
  const TxqIdData: nat := 2
  const RxqMax: nat := MaxPorts + 1
  const TxqMax: nat := 3
  const RxqIdDefault: nat := 0
  const RxqIdDataMin: nat := 1
  const MaxPktBurstRx: nat := 32
  const MaxPktBurstTx: nat := 32
  const MaxDataFlows: nat := 64
  const ForwardingRulesMax: nat := 1024

  /** The low bits of a flow-director soft id select the data-flow slot (the ring). */
  const FdirOutQueueMask: nat := 0x3f
  const FdirOutQueueMaskSize: nat := 6

  datatype LcoreType = Unused | Default | DataRx | DataTx

  /** One data RX queue of a port and the output port its packets are meant for. */
  datatype RxQueue = RxQueue(queueId: u16, outPortId: nat)

  /** A port polled by an RX lcore; nb_queues is the length of queues. */
  datatype RxPortConf = RxPortConf(portId: nat, queues: seq<RxQueue>)

  /**
   * A port served by a TX lcore: bit k of the 64-bit active_flows mask enables
   * polling of ring k. The mask is kept as the set of positions of its 1 bits.
   */
  datatype TxPortConf = TxPortConf(portId: nat, activeFlows: set<nat>)

  /**
   * An lcore's parameters. The source keeps the RX and TX port lists in a
   * union; here both lists exist and only the one matching the role is used.
   */
  datatype Lcore = Lcore(id: nat, socket: nat, ltype: LcoreType,
                         rxPorts: seq<RxPortConf>, txPorts: seq<TxPortConf>)

  /** nb_ports of an lcore: the length of the list its role uses. */
  function NbPorts(l: Lcore): nat
  {
    if l.ltype == DataRx then |l.rxPorts| else |l.txPorts|
  }

  /** One data-flow slot of a port. */
  datatype DataFlow = DataFlow(active: bool, reqFlow: bool, destIp: u32, sinkId: u32)

  const InactiveFlow := DataFlow(false, false, 0, 0)

  /** The slot number carried by a flow-director soft id: id & 0x3f. */
  function SlotOfId(id: u16): (s: nat)
    ensures s < MaxDataFlows
  {
    id % (FdirOutQueueMask + 1)
  }

  /** The 16-bit soft id slot | (counter << 6), truncated to 16 bits as the uint16_t it is stored in. */
  function SoftId(slot: nat, counter: u16): u16
    requires slot < MaxDataFlows
  {
    (slot + counter * 64) % 0x1_0000
  }

  /**
   * The slot mask is 2^6 - 1 and there are 2^6 slots, so a soft id keeps its slot
   * in the low bits whatever the counter: id & 0x3f == slot.
   */
  lemma SlotSurvivesCounter(slot: nat, counter: u16)
    requires slot < MaxDataFlows
    ensures FdirOutQueueMask + 1 == MaxDataFlows == Pow2(FdirOutQueueMaskSize)
    ensures SlotOfId(SoftId(slot, counter)) == slot
  {
  }

  function Pow2(n: nat): nat { if n == 0 then 1 else 2 * Pow2(n - 1) }
}
