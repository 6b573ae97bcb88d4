/**
 * Configuring pipeline descriptors (pipeline_default_configure,
 * pipeline_rx_data_configure, pipeline_tx_data_configure), the registry of
 * RX data pipelines that find_data_pipeline searches, pipeline_add_data_flow,
 * and the action handler of the RX data pipeline. The engine is abstract: it
 * numbers the inputs and the outputs it creates 0, 1, 2, ... in creation
 * order, and its own calls succeed. A failed RTE_VERIFY is a false result.
 */
module PipelineData {
  import opened Opt
  import opened Bytes
  import opened Masks
  import opened Pipeline
  import opened FlowDetect

  /** rx_data_pipelines[DAQSWITCH_MAX_PORTS]. */
  const RegistryMax: nat := 32

  // ---------------------------------------------------------------------
  // Engine numbering

  /** Inputs 0..n-1 after the engine created them: numbered in order, enabled too when enable holds. */
  function NumberIn(qIn: seq<InQueue>, n: nat, enable: bool): (r: seq<InQueue>)
    requires n <= |qIn|
    ensures |r| == |qIn| && Numbered(r, n)
    ensures forall i :: 0 <= i < |qIn| ==>
              && r[i].portId == qIn[i].portId && r[i].queueId == qIn[i].queueId && r[i].ring == qIn[i].ring
              && r[i].enabled == (if i < n && enable then true else qIn[i].enabled)
    ensures forall i :: n <= i < |qIn| ==> r[i] == qIn[i]
  {
    seq(|qIn|, i requires 0 <= i < |qIn| =>
      if i < n then qIn[i].(rteId := i, enabled := enable || qIn[i].enabled) else qIn[i])
  }

  /** Outputs 0..n-1 after the engine created them. */
  function NumberOut(qOut: seq<OutQueue>, n: nat): (r: seq<OutQueue>)
    requires n <= |qOut|
    ensures |r| == |qOut|
    ensures forall i :: 0 <= i < |qOut| ==>
              && r[i].portId == qOut[i].portId && r[i].queueId == qOut[i].queueId && r[i].ring == qOut[i].ring
              && r[i].dip == qOut[i].dip && r[i].eventId == qOut[i].eventId
              && r[i].rteId == (if i < n then i else qOut[i].rteId)
  {
    seq(|qOut|, i requires 0 <= i < |qOut| => if i < n then qOut[i].(rteId := i) else qOut[i])
  }

  /** The engine creates the first n inputs: the loop of every configure. */
  method CreateInputs(pp: Pipeline, n: nat, enable: bool)
    requires pp.Valid() && n <= pp.nbQIn
    modifies pp
    ensures pp.Valid() && pp.qIn == NumberIn(old(pp.qIn), n, enable)
    ensures pp.kind == old(pp.kind) && pp.nbQIn == old(pp.nbQIn) && pp.qOut == old(pp.qOut) && pp.nbQOut == old(pp.nbQOut)
    ensures pp.rules == old(pp.rules) && pp.requests == old(pp.requests) && pp.built == old(pp.built) && pp.lcoreId == old(pp.lcoreId)
  {
    ghost var q0 := pp.qIn;
    var i := 0;
    while i < n
      invariant i <= n && pp.Valid() && |pp.qIn| == |q0|
      invariant forall j :: 0 <= j < |q0| ==> pp.qIn[j] == if j < i then q0[j].(rteId := j, enabled := enable || q0[j].enabled) else q0[j]
      invariant pp.kind == old(pp.kind) && pp.nbQIn == old(pp.nbQIn) && pp.qOut == old(pp.qOut) && pp.nbQOut == old(pp.nbQOut)
      invariant pp.rules == old(pp.rules) && pp.requests == old(pp.requests) && pp.built == old(pp.built) && pp.lcoreId == old(pp.lcoreId)
    {
      pp.qIn := pp.qIn[i := pp.qIn[i].(rteId := i, enabled := enable || pp.qIn[i].enabled)];
      i := i + 1;
    }
    assert pp.qIn == NumberIn(q0, n, enable);
  }

  /** The engine creates the first n outputs. */
  method CreateOutputs(pp: Pipeline, n: nat)
    requires pp.Valid() && n <= pp.nbQOut
    modifies pp
    ensures pp.Valid() && pp.qOut == NumberOut(old(pp.qOut), n)
    ensures pp.kind == old(pp.kind) && pp.nbQIn == old(pp.nbQIn) && pp.qIn == old(pp.qIn) && pp.nbQOut == old(pp.nbQOut)
    ensures pp.rules == old(pp.rules) && pp.requests == old(pp.requests) && pp.built == old(pp.built) && pp.lcoreId == old(pp.lcoreId)
  {
    ghost var q0 := pp.qOut;
    var i := 0;
    while i < n
      invariant i <= n && pp.Valid() && |pp.qOut| == |q0|
      invariant forall j :: 0 <= j < |q0| ==> pp.qOut[j] == if j < i then q0[j].(rteId := j) else q0[j]
      invariant pp.kind == old(pp.kind) && pp.nbQIn == old(pp.nbQIn) && pp.qIn == old(pp.qIn) && pp.nbQOut == old(pp.nbQOut)
      invariant pp.rules == old(pp.rules) && pp.requests == old(pp.requests) && pp.built == old(pp.built) && pp.lcoreId == old(pp.lcoreId)
    {
      pp.qOut := pp.qOut[i := pp.qOut[i].(rteId := i)];
      i := i + 1;
    }
    assert pp.qOut == NumberOut(q0, n);
  }

  // ---------------------------------------------------------------------
  // The default pipeline

  /**
   * pipeline_default_configure: builds the engine over the registered
   * queues and connects every input to the LPM table, enabling none.
   */
  method ConfigureDefault(pp: Pipeline) returns (ok: bool)
    requires pp.Valid()
    modifies pp
    ensures pp.Valid()
    ensures ok <==> old(pp.kind) == KindDefault
    ensures ok ==> && pp.built && pp.qIn == NumberIn(old(pp.qIn), old(pp.nbQIn), false)
                   && pp.qOut == NumberOut(old(pp.qOut), old(pp.nbQOut))
                   && pp.kind == old(pp.kind) && pp.nbQIn == old(pp.nbQIn) && pp.nbQOut == old(pp.nbQOut)
                   && pp.rules == old(pp.rules) && pp.requests == old(pp.requests)
    ensures !ok ==> unchanged(pp)
  {
    if pp.kind != KindDefault {
      return false;
    }
    CreateInputs(pp, pp.nbQIn, false);
    CreateOutputs(pp, pp.nbQOut);
    pp.built := true;
    ok := true;
  }

  /** The default pipeline enables none of its inputs: the flags stay as registered. */
  lemma DefaultEnablesNone(qIn: seq<InQueue>, n: nat)
    requires n <= |qIn| && forall i :: 0 <= i < n ==> !qIn[i].enabled
    ensures forall i :: 0 <= i < n ==> !NumberIn(qIn, n, false)[i].enabled
  {
  }

  // ---------------------------------------------------------------------
  // RX data pipelines and their registry

  class Registry {
    /** rx_data_pipelines[0 .. nb_rx_data_pipelines - 1]. */
    var pipelines: seq<Pipeline>

    /** Every registered descriptor is well formed, and each is registered once. */
    predicate Valid()
      reads this, pipelines
    {
      && |pipelines| <= RegistryMax
      && (forall i :: 0 <= i < |pipelines| ==> pipelines[i].Valid())
      && (forall i, j :: 0 <= i < j < |pipelines| ==> pipelines[i] != pipelines[j])
    }

    constructor ()
      ensures Valid() && pipelines == []
    {
      pipelines := [];
    }

    /**
     * find_data_pipeline: the first registered pipeline whose first output
     * is on port; q_out[0] is read whatever nb_q_out is.
     */
    method FindDataPipeline(port: nat) returns (r: Option<Pipeline>)
      requires Valid()
      ensures r.None? <==> FirstOnPort(Outs(pipelines), port).None?
      ensures r.Some? ==> r.value == pipelines[FirstOnPort(Outs(pipelines), port).value]
    {
      ghost var outs := Outs(pipelines);
      var i := 0;
      while i < |pipelines|
        invariant i <= |pipelines| && FirstOnPort(outs[..i], port).None?
      {
        assert outs[..i + 1][..i] == outs[..i];
        if pipelines[i].qOut[0].portId as nat == port {
          FirstOnPortPrefix(outs, i, port);
          return Some(pipelines[i]);
        }
        i := i + 1;
      }
      assert outs[..i] == outs;
      return None;
    }
  }

  /** The output tables of the registered pipelines, in registry order. */
  function Outs(ps: seq<Pipeline>): (r: seq<seq<OutQueue>>)
    reads ps
    ensures |r| == |ps| && forall i :: 0 <= i < |ps| ==> r[i] == ps[i].qOut
  {
    seq(|ps|, i reads ps requires 0 <= i < |ps| => ps[i].qOut)
  }

  /** The index of the first output table whose first entry is on port. */
  function FirstOnPort(outs: seq<seq<OutQueue>>, port: nat): (r: Option<nat>)
    requires forall i :: 0 <= i < |outs| ==> |outs[i]| > 0
    ensures r.Some? ==> r.value < |outs| && outs[r.value][0].portId as nat == port
                        && forall j :: 0 <= j < r.value ==> outs[j][0].portId as nat != port
    ensures r.None? ==> forall j :: 0 <= j < |outs| ==> outs[j][0].portId as nat != port
  {
    if |outs| == 0 then None
    else
      var n := |outs| - 1;
      match FirstOnPort(outs[..n], port)
      case Some(k) => Some(k)
      case None => if outs[n][0].portId as nat == port then Some(n) else None
  }

  lemma FirstOnPortPrefix(outs: seq<seq<OutQueue>>, i: nat, port: nat)
    requires forall j :: 0 <= j < |outs| ==> |outs[j]| > 0
    requires i < |outs| && FirstOnPort(outs[..i], port).None? && outs[i][0].portId as nat == port
    ensures FirstOnPort(outs, port) == Some(i)
  {
    assert forall j :: 0 <= j < i ==> outs[..i][j] == outs[j];
  }

  /**
   * pipeline_rx_data_configure: requires the RX_DATA kind and a ring on every
   * output; creates the engine, enables every input and flags it enabled,
   * and appends the descriptor to the registry (without a capacity check,
   * so the registry must have room; each descriptor is configured once).
   */
  method ConfigureRxData(pp: Pipeline, reg: Registry) returns (ok: bool)
    requires pp.Valid() && reg.Valid() && |reg.pipelines| < RegistryMax && pp !in reg.pipelines
    modifies pp, reg
    ensures pp.Valid() && reg.Valid()
    ensures ok <==> old(pp.kind) == KindRxData && forall i :: 0 <= i < old(pp.nbQOut) ==> old(pp.qOut)[i].ring.Some?
    ensures ok ==> && pp.built && pp.qIn == NumberIn(old(pp.qIn), old(pp.nbQIn), true)
                   && pp.qOut == NumberOut(old(pp.qOut), old(pp.nbQOut))
                   && pp.kind == old(pp.kind) && pp.nbQIn == old(pp.nbQIn) && pp.nbQOut == old(pp.nbQOut)
                   && reg.pipelines == old(reg.pipelines) + [pp]
    ensures !ok ==> unchanged(pp) && unchanged(reg)
  {
    if pp.kind != KindRxData {
      return false;
    }
    var i := 0;
    while i < pp.nbQOut
      invariant i <= pp.nbQOut && forall j :: 0 <= j < i ==> pp.qOut[j].ring.Some?
    {
      if pp.qOut[i].ring.None? {
        return false;
      }
      i := i + 1;
    }
    CreateInputs(pp, pp.nbQIn, true);
    CreateOutputs(pp, pp.nbQOut);
    pp.built := true;
    reg.pipelines := reg.pipelines + [pp];
    ok := true;
  }

  /** After an RX data configure every input in use is enabled. */
  lemma RxDataEnablesAll(qIn: seq<InQueue>, n: nat)
    requires n <= |qIn|
    ensures forall i :: 0 <= i < n ==> NumberIn(qIn, n, true)[i].enabled
  {
  }

  /** The output the RX data pipeline sends a packet to: fdir.id & 0xf. */
  function OutputOfFdirId(id: u16): (o: nat)
    ensures o <= QueueFromFdirIdMask
  {
    ((id as bv16) & 0xf) as nat
  }

  /** An id below 16 selects the output it names. */
  lemma OutputOfSmallId(id: u16)
    requires id <= QueueFromFdirIdMask
    ensures OutputOfFdirId(id) == id
  {
  }

  /**
   * rx_action_handler of the RX data pipeline: each packet's metadata gets
   * the output its fdir id selects, and the mask marks all n packets
   * (LowMaskBits: bit j is set exactly when j < n).
   */
  method RxDataActionHandler(ids: seq<u16>) returns (outs: seq<nat>, mask: bv64)
    requires 1 <= |ids| <= 64
    ensures |outs| == |ids| && forall i :: 0 <= i < |ids| ==> outs[i] == OutputOfFdirId(ids[i]) && outs[i] < 16
    ensures mask == LowMask(|ids| as bv64)
  {
    outs := FillOutputs(ids);
    mask := LowMask(|ids| as bv64);
  }

  /** The metadata loop of the RX data action handler. */
  method FillOutputs(ids: seq<u16>) returns (outs: seq<nat>)
    ensures |outs| == |ids| && forall i :: 0 <= i < |ids| ==> outs[i] == OutputOfFdirId(ids[i])
  {
    outs := [];
    var i := 0;
    while i < |ids|
      invariant i <= |ids| && |outs| == i && forall k :: 0 <= k < i ==> outs[k] == OutputOfFdirId(ids[k])
    {
      outs := outs + [OutputOfFdirId(ids[i])];
      i := i + 1;
    }
  }

  // ---------------------------------------------------------------------
  // TX data pipelines

  /** The RTE_VERIFY of pipeline_tx_data_configure as written: an assignment, so it fails only when there are no inputs. */
  function TxOutCountAsWritten(nIn: nat, nOut: nat): Option<nat>
  {
    if nIn == 0 then None else Some(nIn)
  }

  /** The check as intended: as many outputs as inputs. */
  function TxOutCount(nIn: nat, nOut: nat): (r: Option<nat>)
    ensures r.Some? ==> r.value == nIn == nOut
  {
    if nIn == nOut then Some(nOut) else None
  }

  /**
   * As written, a TX pipeline with two rings and one registered output
   * passes the check and gets a second output from a slot never registered,
   * and one with no inputs panics; the intended check refuses the first and
   * accepts the second.
   */
  lemma TxOutCountAsWrittenDiffers()
    ensures TxOutCountAsWritten(2, 1) == Some(2) && TxOutCount(2, 1).None?
    ensures TxOutCountAsWritten(0, 0).None? && TxOutCount(0, 0) == Some(0)
  {
  }

  /** One connection of a TX data pipeline: a ring feeds the TX queue (port, queue). */
  datatype Link = Link(ring: RingId, port: byte, queue: u16)

  /**
   * pipeline_tx_data_configure with the count check as intended: requires
   * the TX_DATA kind, a ring on every input and as many outputs as inputs;
   * input i then feeds stub table i whose default entry sends to output i,
   * and every input is enabled.
   */
  method ConfigureTxData(pp: Pipeline) returns (ok: bool, links: seq<Link>)
    requires pp.Valid()
    modifies pp
    ensures pp.Valid()
    ensures ok <==> && old(pp.kind) == KindTxData && (forall i :: 0 <= i < old(pp.nbQIn) ==> old(pp.qIn)[i].ring.Some?)
                    && TxOutCount(old(pp.nbQIn), old(pp.nbQOut)).Some?
    ensures ok ==> && pp.built && pp.qIn == NumberIn(old(pp.qIn), old(pp.nbQIn), true)
                   && pp.qOut == NumberOut(old(pp.qOut), old(pp.nbQOut))
                   && pp.kind == old(pp.kind) && pp.nbQIn == old(pp.nbQIn) && pp.nbQOut == old(pp.nbQOut)
                   && |links| == pp.nbQIn
                   && forall i :: 0 <= i < |links| ==>
                        links[i] == Link(old(pp.qIn)[i].ring.value, old(pp.qOut)[i].portId, old(pp.qOut)[i].queueId)
    ensures !ok ==> unchanged(pp)
  {
    if pp.kind != KindTxData {
      return false, [];
    }
    var i := 0;
    while i < pp.nbQIn
      invariant i <= pp.nbQIn && forall j :: 0 <= j < i ==> pp.qIn[j].ring.Some?
    {
      if pp.qIn[i].ring.None? {
        return false, [];
      }
      i := i + 1;
    }
    if TxOutCount(pp.nbQIn, pp.nbQOut).None? {
      return false, [];
    }
    links := [];
    i := 0;
    while i < pp.nbQIn
      invariant i <= pp.nbQIn && |links| == i
      invariant forall j :: 0 <= j < i ==> links[j] == Link(pp.qIn[j].ring.value, pp.qOut[j].portId, pp.qOut[j].queueId)
    {
      links := links + [Link(pp.qIn[i].ring.value, pp.qOut[i].portId, pp.qOut[i].queueId)];
      i := i + 1;
    }
    CreateInputs(pp, pp.nbQIn, true);
    CreateOutputs(pp, pp.nbQOut);
    pp.built := true;
    ok := true;
  }

  /**
   * The TX wiring is one-to-one onto the registered outputs: under the TX
   * append rules every link leaves on the pipeline's one port, and distinct
   * inputs use distinct outputs.
   */
  lemma TxLinksOnePort(qIn: seq<InQueue>, qOut: seq<OutQueue>, n: nat, links: seq<Link>)
    requires n <= |qIn| && n <= |qOut| && InRules(KindTxData, qIn, n) && OutRules(KindTxData, qOut, n)
    requires |links| == n && forall i :: 0 <= i < n ==> links[i] == Link(qIn[i].ring.value, qOut[i].portId, qOut[i].queueId)
    ensures forall i :: 0 <= i < n ==> links[i].port == qOut[0].portId && links[i].ring == qIn[i].ring.value
  {
  }

  // ---------------------------------------------------------------------
  // Adding a data flow

  /** A flow-director filter request: on NIC nic, frames matching filter get soft id fdirId and go to RX queue queue. */
  datatype FdirInstall = FdirInstall(nic: nat, filter: Filter, fdirId: u16, queue: u16)

  /**
   * pipeline_add_data_flow: the RX pipeline's input (in_port, in_queue) and
   * the TX pipeline's input (out_port, out_queue) are enabled, in that order
   * and without undoing the first when the second fails; the filter then
   * carries the internal id of the RX pipeline's output to (out_port,
   * out_queue), cut to the 16 bits of a soft id. nicAccepts is the NIC's answer.
   */
  method AddDataFlow(inP: Pipeline, inPort: byte, inQueue: u16, outP: Pipeline, outPort: byte, outQueue: u16,
                     flow: Filter, nicAccepts: bool) returns (r: Option<FdirInstall>)
    requires inP.Valid() && inP.built && Numbered(inP.qIn, inP.nbQIn)
    requires outP.Valid() && outP.built && Numbered(outP.qIn, outP.nbQIn)
    modifies inP, outP
    ensures inP.Valid() && outP.Valid()
    ensures old(inP.kind) != KindRxData || old(outP.kind) != KindTxData ==> r.None? && unchanged(inP) && unchanged(outP)
    ensures old(inP.kind) == KindRxData && old(outP.kind) == KindTxData ==>
              var e1 := EnableIn(old(inP.qIn), old(inP.nbQIn), inPort as nat, inQueue as nat);
              var e2 := EnableIn(old(outP.qIn), old(outP.nbQIn), outPort as nat, outQueue as nat);
              var o := FindOut(old(inP.qOut), old(inP.nbQOut), outPort as nat, outQueue as nat);
              && inP.qIn == (if e1.Some? then e1.value else old(inP.qIn))
              && outP.qIn == (if e1.Some? && e2.Some? then e2.value else old(outP.qIn))
              && (r.Some? <==> e1.Some? && e2.Some? && o.Some? && nicAccepts)
              && (r.Some? ==> r.value == FdirInstall(inPort as nat, flow, old(inP.qOut)[o.value].rteId % 0x1_0000, inQueue))
    ensures inP.qOut == old(inP.qOut) && outP.qOut == old(outP.qOut)
  {
    if inP.kind != KindRxData || outP.kind != KindTxData {
      return None;
    }
    var ok := inP.EnablePortIn(inPort as nat, inQueue as nat);
    if !ok {
      return None;
    }
    ok := outP.EnablePortIn(outPort as nat, outQueue as nat);
    if !ok {
      return None;
    }
    var id := inP.InternalPortOutId(outPort as nat, outQueue as nat);
    if id.None? || !nicAccepts {
      return None;
    }
    r := Some(FdirInstall(inPort as nat, flow, id.value % 0x1_0000, inQueue));
  }
}
