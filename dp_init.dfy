/**
 * Building the data pipelines' descriptors (init_data_rx_pipeline and
 * init_data_tx_pipeline): an RX data pipeline reads one RX queue of every
 * switch port and writes the data rings of one output port; a TX data
 * pipeline reads those rings and writes the matching TX queues of that port.
 * Every failed step is an RTE_VERIFY; the proofs show that no registration
 * can fail, so only a missing ring stops the build.
 */
module DpInit {
  import opened Opt
  import opened Bytes
  import opened VoqSwqDefs
  import opened Rings
  import opened Pipeline
  import opened PipelineData

  /** DAQSWITCH_MAX_QUEUES_PER_PORT. */
  const MaxQueuesPerPort: nat := 64

  /** dp.rings[port][q] is not NULL. */
  predicate HasRing(rings: RingMap, port: nat, q: nat)
  {
    (port, q) in rings
  }

  /** dp.rings[port][q] exists for every data queue q from dataMin on. */
  predicate RingsPresent(rings: RingMap, port: nat, dataMin: nat)
  {
    forall q :: dataMin <= q < MaxQueuesPerPort ==> HasRing(rings, port, q)
  }

  /** The number of data queues of a port: those from dataMin to 63. */
  function DataQueues(dataMin: nat): (n: nat)
    ensures n <= MaxQueuesPerPort && (dataMin <= MaxQueuesPerPort ==> dataMin + n == MaxQueuesPerPort)
  {
    if dataMin < MaxQueuesPerPort then MaxQueuesPerPort - dataMin else 0
  }

  /**
   * init_data_rx_pipeline: an RX_DATA descriptor with one ring-less input
   * per switch port, all on in_queue, and one output per data queue q of
   * out_port, backed by ring (out_port, q). dataMin stands for
   * DP_PORT_TXQ_ID_DATA_MIN. It fails exactly when a ring is missing.
   */
  method InitDataRxPipeline(pp: Pipeline, lcore: nat, outPort: byte, inQueue: u16, nbPorts: nat, rings: RingMap, dataMin: u16)
    returns (ok: bool)
    requires pp.Valid() && nbPorts <= MaxPorts
    modifies pp
    ensures pp.Valid()
    ensures ok <==> RingsPresent(rings, outPort as nat, dataMin)
    ensures ok ==>
              && pp.kind == KindRxData && pp.lcoreId == lcore && pp.built == old(pp.built)
              && pp.nbQIn == nbPorts && pp.nbQOut == DataQueues(dataMin)
              && (forall i :: 0 <= i < nbPorts ==>
                    pp.qIn[i].portId == i && pp.qIn[i].queueId == inQueue && pp.qIn[i].ring.None? && !pp.qIn[i].enabled)
              && (forall k :: 0 <= k < pp.nbQOut ==>
                    pp.qOut[k].portId == outPort && pp.qOut[k].queueId == dataMin + k
                    && pp.qOut[k].ring == Some((outPort as nat, dataMin + k)))
              && InRules(pp.kind, pp.qIn, pp.nbQIn) && OutRules(pp.kind, pp.qOut, pp.nbQOut)
  {
    var okInit := pp.Init(lcore, 2);
    assert okInit;
    var i := 0;
    while i < nbPorts
      invariant i <= nbPorts && pp.Valid() && pp.kind == KindRxData && pp.lcoreId == lcore && pp.built == old(pp.built)
      invariant pp.nbQIn == i && pp.nbQOut == 0
      invariant forall j :: 0 <= j < i ==>
                  pp.qIn[j].portId == j && pp.qIn[j].queueId == inQueue && pp.qIn[j].ring.None? && !pp.qIn[j].enabled
    {
      var okIn := pp.InitPortIn(i as byte, inQueue, None);
      assert okIn;
      i := i + 1;
    }
    ok := AddRxOutputs(pp, outPort, rings, dataMin);
    if ok {
      assert InRules(pp.kind, pp.qIn, pp.nbQIn);
    }
  }

  /** The output loop of init_data_rx_pipeline. */
  method AddRxOutputs(pp: Pipeline, outPort: byte, rings: RingMap, dataMin: u16) returns (ok: bool)
    requires pp.Valid() && pp.kind == KindRxData && pp.nbQOut == 0
    modifies pp
    ensures pp.Valid()
    ensures ok <==> RingsPresent(rings, outPort as nat, dataMin)
    ensures pp.kind == old(pp.kind) && pp.lcoreId == old(pp.lcoreId) && pp.built == old(pp.built)
    ensures pp.qIn == old(pp.qIn) && pp.nbQIn == old(pp.nbQIn)
    ensures ok ==>
              && pp.nbQOut == DataQueues(dataMin)
              && (forall k :: 0 <= k < pp.nbQOut ==>
                    pp.qOut[k].portId == outPort && pp.qOut[k].queueId == dataMin + k
                    && pp.qOut[k].ring == Some((outPort as nat, dataMin + k)))
              && OutRules(pp.kind, pp.qOut, pp.nbQOut)
  {
    var port: nat := outPort as nat;
    var q: nat := dataMin;
    while q < MaxQueuesPerPort
      invariant dataMin <= q && (q > dataMin ==> q <= MaxQueuesPerPort) && pp.Valid()
      invariant pp.kind == old(pp.kind) && pp.lcoreId == old(pp.lcoreId) && pp.built == old(pp.built)
      invariant pp.qIn == old(pp.qIn) && pp.nbQIn == old(pp.nbQIn)
      invariant pp.nbQOut == q - dataMin
      invariant forall k :: 0 <= k < pp.nbQOut ==>
                  pp.qOut[k].portId == outPort && pp.qOut[k].queueId == dataMin + k
                  && pp.qOut[k].ring == Some((outPort as nat, dataMin + k))
      invariant forall q': nat :: dataMin <= q' < q ==> HasRing(rings, port, q')
    {
      if !HasRing(rings, port, q) {
        return false;
      }
      var okOut := pp.InitPortOut(outPort, q, Some((outPort as nat, q)));
      assert okOut;
      q := q + 1;
    }
    ok := true;
  }

  /**
   * init_data_tx_pipeline: a TX_DATA descriptor whose k-th input reads ring
   * (out_port, q) and whose k-th output is TX queue q of out_port, for each
   * data queue q. It fails exactly when a ring is missing; otherwise it
   * passes the output-count check of the TX configure, and each input's
   * ring is the ring of the queue it is wired to.
   */
  method InitDataTxPipeline(pp: Pipeline, lcore: nat, outPort: byte, rings: RingMap, dataMin: u16) returns (ok: bool)
    requires pp.Valid()
    modifies pp
    ensures pp.Valid()
    ensures ok <==> RingsPresent(rings, outPort as nat, dataMin)
    ensures ok ==>
              && pp.kind == KindTxData && pp.lcoreId == lcore && pp.built == old(pp.built)
              && pp.nbQIn == DataQueues(dataMin) && TxOutCount(pp.nbQIn, pp.nbQOut).Some?
              && (forall k :: 0 <= k < pp.nbQIn ==>
                    && pp.qIn[k].portId == outPort && pp.qIn[k].queueId == dataMin + k && !pp.qIn[k].enabled
                    && pp.qOut[k].portId == outPort && pp.qOut[k].queueId == dataMin + k && pp.qOut[k].ring.None?
                    && pp.qIn[k].ring == Some((pp.qOut[k].portId as nat, pp.qOut[k].queueId as nat)))
              && InRules(pp.kind, pp.qIn, pp.nbQIn) && OutRules(pp.kind, pp.qOut, pp.nbQOut)
  {
    var okInit := pp.Init(lcore, 3);
    assert okInit;
    var port: nat := outPort as nat;
    var q: nat := dataMin;
    while q < MaxQueuesPerPort
      invariant dataMin <= q && (q > dataMin ==> q <= MaxQueuesPerPort) && pp.Valid()
      invariant pp.kind == KindTxData && pp.lcoreId == lcore && pp.built == old(pp.built)
      invariant pp.nbQIn == q - dataMin && pp.nbQOut == q - dataMin
      invariant forall k :: 0 <= k < pp.nbQIn ==>
                  && pp.qIn[k].portId == outPort && pp.qIn[k].queueId == dataMin + k && !pp.qIn[k].enabled
                  && pp.qOut[k].portId == outPort && pp.qOut[k].queueId == dataMin + k && pp.qOut[k].ring.None?
                  && pp.qIn[k].ring == Some((outPort as nat, dataMin + k))
      invariant forall q': nat :: dataMin <= q' < q ==> HasRing(rings, port, q')
    {
      if !HasRing(rings, port, q) {
        return false;
      }
      var okIn := pp.InitPortIn(outPort, q, Some((outPort as nat, q)));
      assert okIn;
      var okOut := pp.InitPortOut(outPort, q, None);
      assert okOut;
      q := q + 1;
    }
    ok := true;
  }

  /**
   * With the rings init_rings creates as written (slots 0..62) no data
   * pipeline of a port can be built, whatever the first data queue; with
   * one ring per slot (0..63) every port's can.
   */
  lemma DataPipelinesNeedRing63(nbPorts: nat, port: nat, dataMin: nat)
    requires port < nbPorts && dataMin < MaxQueuesPerPort
    ensures !RingsPresent(CreatedAsWritten(nbPorts), port, dataMin)
    ensures RingsPresent(Created(nbPorts), port, dataMin)
  {
    assert !HasRing(CreatedAsWritten(nbPorts), port, 63);
  }
}
