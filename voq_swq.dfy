/**
 * The voq_swq datapath parameters (struct dp_params) as an object, and the
 * operations of the default lcore that update them in place: the flow
 * detection of table_action_handler_hit. Each method is proved against the
 * functions of FlowDetect.
 */
module VoqSwq {
  import opened Opt
  import opened Bytes
  import opened FlowKey
  import opened VoqSwqDefs
  import opened FlowDetect
  import opened LcoreAssign
  import Daqswitch

  /** How one direction of a trigger ended. */
  datatype SideOutcome = Done(slot: nat) | Full | Stop

  class Datapath {
    /** dp.lcores[0 .. nb_lcores). */
    var lcores: seq<Lcore>
    /** dp.flows[port][slot]. */
    var flows: seq<seq<DataFlow>>
    /** The default lcore's per-NIC filter counters, fdir_id[port]. */
    var fdirId: seq<u16>
    /** Every flow-director filter requested from the NICs, oldest first. */
    var filters: seq<FdirRequest>

    function State(): DpState
      reads this
    {
      DpState(lcores, flows, fdirId, filters)
    }

    // ---------------------------------------------------------------------
    // Lcore setup (init_lcores and its helpers)

    /**
     * get_next_lcore: find the table index of id, then scan circularly from
     * the entry after it, on the socket first and, after one restart, on any.
     */
    method GetNextLcore(id: nat, t: LcoreType, socket: nat) returns (r: Pick)
      ensures r == NextLcore(lcores, id, t, socket)
    {
      var found := FindIndex(id);
      if found.None? {
        return Abort;
      }
      var from := found.value;
      var numaOk := true;
      while true
        invariant IndexOfId(lcores, id) == Some(from)
        invariant !numaOk ==> Scan(lcores, from, t, socket, true, 0).None?
        decreases if numaOk then 1 else 0
      {
        var d := ScanPass(from, t, socket, numaOk);
        if d.Some? {
          return Picked(Circ(|lcores|, from, d.value));
        }
        if !numaOk {
          return NoRoom;
        }
        numaOk := false;
      }
    }

    /** The search for the table index of lcore id. */
    method FindIndex(id: nat) returns (r: Option<nat>)
      ensures r == IndexOfId(lcores, id)
    {
      var i := 0;
      while i < |lcores| && lcores[i].id != id
        invariant 0 <= i <= |lcores|
        invariant forall i' :: 0 <= i' < i ==> lcores[i'].id != id
      {
        i := i + 1;
      }
      if i == |lcores| {
        return None;
      }
      IndexOfIdFirst(lcores, id, i);
      r := Some(i);
    }

    /** One pass of get_next_lcore's scan: the distance after from of the first fitting entry. */
    method ScanPass(from: nat, t: LcoreType, socket: nat, numaOk: bool) returns (r: Option<nat>)
      requires from < |lcores|
      ensures r == Scan(lcores, from, t, socket, numaOk, 0)
    {
      var n := |lcores|;
      var d := 0;
      while d < n
        invariant 0 <= d <= n
        invariant Scan(lcores, from, t, socket, numaOk, 0) == Scan(lcores, from, t, socket, numaOk, d)
      {
        var x := (from + d + 1) % n;
        if lcores[x].ltype == t && NbPorts(lcores[x]) < LcorePortMax && (!numaOk || lcores[x].socket == socket) {
          return Some(d);
        }
        d := d + 1;
      }
      r := None;
    }

    /** init_lcore_default: entry 0 must exist and be unused; it becomes the default lcore. */
    method InitLcoreDefault() returns (ok: bool)
      modifies this
      ensures ok <==> WithDefault(old(lcores)).Some?
      ensures ok ==> lcores == WithDefault(old(lcores)).value
      ensures !ok ==> lcores == old(lcores)
      ensures flows == old(flows) && fdirId == old(fdirId) && filters == old(filters)
    {
      if |lcores| < 1 || lcores[LcoreIdDefault].ltype != Unused {
        return false;
      }
      lcores := lcores[LcoreIdDefault := lcores[LcoreIdDefault].(ltype := Default)];
      ok := true;
    }

    /**
     * dp_init without the rings (DataLcores.InitRings): init_lcores, whose
     * every failure is an RTE_VERIFY that stops the switch (ok false), then
     * the per-port sizing applied through the setters; when it returns, it
     * returns DP_SUCCESS.
     */
    method DpInit(workers: seq<(nat, nat)>, portSocket: seq<nat>) returns (ok: bool, sizing: Daqswitch.Sizing)
      requires |portSocket| <= MaxPorts && lcores == []
      modifies this
      ensures ok <==> LcoreAssign.InitLcores(workers, portSocket).Some?
      ensures ok ==> lcores == LcoreAssign.InitLcores(workers, portSocket).value && sizing == VoqSwqSizing(|portSocket|)
      ensures flows == old(flows) && fdirId == old(fdirId) && filters == old(filters)
    {
      ok := InitLcores(workers, portSocket);
      sizing := VoqSwqSizing(|portSocket|);
    }

    /** The queue list of an RX port entry: queue q reads RX queue 1+q and feeds output port q. */
    method RxQueues(nbPorts: nat) returns (queues: seq<RxQueue>)
      requires nbPorts <= MaxPorts
      ensures RxPortConf(0, queues) == RxEntry(0, nbPorts)
    {
      queues := [];
      var q := 0;
      while q < nbPorts
        invariant 0 <= q <= nbPorts && |queues| == q
        invariant forall q' :: 0 <= q' < q ==> queues[q'] == RxQueue(RxqIdDataMin + q', q')
      {
        queues := queues + [RxQueue(RxqIdDataMin + q, q)];
        q := q + 1;
      }
    }

    /**
     * init_lcores_data_rx (t = DataRx) and init_lcores_data_tx (t = DataTx):
     * give each port in turn to the next lcore of role t with room, starting
     * after the default lcore; false is the RTE_VERIFY on a failed search.
     */
    method InitLcoresData(t: LcoreType, portSocket: seq<nat>) returns (ok: bool)
      requires |portSocket| <= MaxPorts && |lcores| >= 1
      modifies this
      ensures var spec := AssignFrom(old(lcores), t, old(lcores)[LcoreIdDefault].id, portSocket, 0);
              && (ok <==> spec.Some?)
              && (ok ==> lcores == spec.value)
      ensures flows == old(flows) && fdirId == old(fdirId) && filters == old(filters)
    {
      var n := |portSocket|;
      var prevId := lcores[LcoreIdDefault].id;
      ghost var spec := AssignFrom(lcores, t, prevId, portSocket, 0);
      var port := 0;
      while port < n
        invariant 0 <= port <= n
        invariant flows == old(flows) && fdirId == old(fdirId) && filters == old(filters)
        invariant spec == AssignFrom(lcores, t, prevId, portSocket, port)
      {
        var pick := GetNextLcore(prevId, t, portSocket[port]);
        if !pick.Picked? {
          return false;
        }
        var x := pick.index;
        var l := lcores[x];
        if t == DataRx {
          var queues := RxQueues(n);
          lcores := lcores[x := l.(rxPorts := l.rxPorts + [RxPortConf(port, queues)])];
        } else {
          lcores := lcores[x := l.(txPorts := l.txPorts + [TxPortConf(port, {})])];
        }
        prevId := l.id;
        port := port + 1;
      }
      ok := true;
    }

    /**
     * init_lcores for the worker lcores (id, NUMA socket) in enumeration order
     * and the NUMA socket of every port; false is a failed RTE_VERIFY.
     */
    method InitLcores(workers: seq<(nat, nat)>, portSocket: seq<nat>) returns (ok: bool)
      requires |portSocket| <= MaxPorts && lcores == []
      modifies this
      ensures ok <==> LcoreAssign.InitLcores(workers, portSocket).Some?
      ensures ok ==> lcores == LcoreAssign.InitLcores(workers, portSocket).value
      ensures flows == old(flows) && fdirId == old(fdirId) && filters == old(filters)
    {
      RegisterWorkers(workers);
      ok := InitLcoreDefault();
      if !ok {
        return;
      }
      var free := CountFree();
      if free < 2 {
        return false;
      }
      AssignRoles();
      ok := InitLcoresData(DataRx, portSocket);
      if !ok {
        return;
      }
      ok := InitLcoresData(DataTx, portSocket);
    }

    /** The registration loop of init_lcores: each worker once, in order, unused and with no ports. */
    method RegisterWorkers(workers: seq<(nat, nat)>)
      requires lcores == []
      modifies this
      ensures lcores == Registered(workers)
      ensures flows == old(flows) && fdirId == old(fdirId) && filters == old(filters)
    {
      var w := 0;
      while w < |workers|
        invariant 0 <= w <= |workers| && |lcores| == w
        invariant forall i :: 0 <= i < w ==> lcores[i] == FreshLcore(workers[i].0, workers[i].1)
        invariant flows == old(flows) && fdirId == old(fdirId) && filters == old(filters)
      {
        lcores := lcores + [FreshLcore(workers[w].0, workers[w].1)];
        w := w + 1;
      }
    }

    /** The counting loop of init_lcores: the number of unused entries. */
    method CountFree() returns (free: nat)
      ensures free == CountUnused(lcores)
    {
      free := 0;
      var i := 0;
      while i < |lcores|
        invariant 0 <= i <= |lcores| && free == CountUnused(lcores[..i])
      {
        assert lcores[..i + 1][..i] == lcores[..i];
        if lcores[i].ltype == Unused {
          free := free + 1;
        }
        i := i + 1;
      }
      assert lcores[..i] == lcores;
    }

    /** The role loop of init_lcores: unused entries become DATA_RX, DATA_TX, DATA_RX, ... */
    method AssignRoles()
      modifies this
      ensures lcores == Alternate(old(lcores), 0)
      ensures flows == old(flows) && fdirId == old(fdirId) && filters == old(filters)
    {
      var i := 0;
      while i < |lcores|
        invariant |lcores| == |old(lcores)|
        invariant Alternate(lcores, i) == Alternate(old(lcores), 0)
        invariant flows == old(flows) && fdirId == old(fdirId) && filters == old(filters)
        decreases |lcores| - i
      {
        if lcores[i].ltype != Unused {
          i := i + 1;
          continue;
        }
        lcores := lcores[i := SetRole(lcores[i], DataRx)];
        i := i + 1;
        if i < |lcores| {
          lcores := lcores[i := SetRole(lcores[i], DataTx)];
          i := i + 1;
        }
      }
    }

    /** get_lcore_params: the entry dp_main_loop dispatches on for lcore id. */
    method GetLcoreParams(id: nat) returns (i: nat)
      requires |lcores| <= MaxLcores
      ensures i == LcoreParams(lcores, id)
    {
      var table := Padded(lcores);
      i := 0;
      while i < MaxLcores - 1 && table[i].id != id
        invariant 0 <= i < MaxLcores
        invariant forall i' :: 0 <= i' < i ==> table[i'].id != id
      {
        i := i + 1;
      }
      if table[i].id == id {
        IndexOfIdFirst(table, id, i);
      }
    }

    /** The entry the handler's TX-entry scan settles on: the last one for port among DATA_TX lcores. */
    method FindTxConf(port: nat) returns (r: Option<(nat, nat)>)
      ensures r == TxConfOf(lcores, port)
    {
      r := None;
      var li := 0;
      while li < |lcores|
        invariant 0 <= li <= |lcores|
        invariant r == TxConfOf(lcores[..li], port)
      {
        assert lcores[..li + 1][..li] == lcores[..li];
        if lcores[li].ltype == DataTx {
          var txPorts := lcores[li].txPorts;
          var j := 0;
          ghost var before := r;
          while j < |txPorts|
            invariant 0 <= j <= |txPorts|
            invariant r == match LastTxEntry(txPorts[..j], port)
                           case Some(e) => Some((li, e))
                           case None => before
          {
            assert txPorts[..j + 1][..j] == txPorts[..j];
            if txPorts[j].portId == port {
              r := Some((li, j));
            }
            j := j + 1;
          }
          assert txPorts[..j] == txPorts;
        }
        li := li + 1;
      }
      assert lcores[..li] == lcores;
    }

    /** The lowest slot of port holding an active flow for (ip, sink). */
    method FindFlowSlot(port: nat, ip: u32, sink: u32) returns (r: Option<nat>)
      requires Shaped(State()) && port < MaxPorts
      ensures r == FindFlow(flows[port], ip, sink)
    {
      var fl := flows[port];
      var k := 0;
      while k < MaxDataFlows
        invariant 0 <= k <= MaxDataFlows
        invariant forall k' :: 0 <= k' < k ==> !Holds(fl[k'], ip, sink)
      {
        if fl[k].active && fl[k].destIp == ip && fl[k].sinkId == sink {
          FindFlowUnique(fl, ip, sink, k);
          return Some(k);
        }
        k := k + 1;
      }
      r := None;
    }

    /** The lowest inactive slot of port. */
    method FindFreeSlot(port: nat) returns (r: Option<nat>)
      requires Shaped(State()) && port < MaxPorts
      ensures r == FreeSlot(flows[port])
    {
      var fl := flows[port];
      var k := 0;
      while k < MaxDataFlows
        invariant 0 <= k <= MaxDataFlows
        invariant forall k' :: 0 <= k' < k ==> fl[k'].active
      {
        if !fl[k].active {
          FreeSlotUnique(fl, k);
          return Some(k);
        }
        k := k + 1;
      }
      r := None;
    }

    /**
     * One direction of a trigger: find or claim a slot of port for (ip, sink)
     * and request filter f on NIC nic with the slot's soft id.
     */
    method HandleSide(port: nat, ip: u32, sink: u32, req: bool, nic: nat, f: Filter) returns (res: SideOutcome)
      requires Shaped(State()) && port < MaxPorts && nic < MaxPorts
      modifies this
      ensures var spec := Side(old(State()), port, ip, sink, req, nic, f);
              && (res.Stop? <==> spec.Fatal?)
              && (res.Full? <==> spec.NoFreeSlot?)
              && (res.Full? ==> State() == old(State()))
              && (res.Done? ==> spec.Claimed? && res.slot == spec.slot && State() == spec.st)
    {
      var conf := FindTxConf(port);
      if conf.None? {
        return Stop;
      }
      var (li, j) := conf.value;
      var slot: nat;
      var found := FindFlowSlot(port, ip, sink);
      if found.Some? {
        slot := found.value;
      } else {
        var free := FindFreeSlot(port);
        if free.None? {
          return Full;
        }
        slot := free.value;
        flows := flows[port := flows[port][slot := DataFlow(true, req, ip, sink)]];
        var l := lcores[li];
        var c := l.txPorts[j];
        lcores := lcores[li := l.(txPorts := l.txPorts[j := c.(activeFlows := c.activeFlows + {slot})])];
      }
      fdirId := fdirId[nic := Inc16(fdirId[nic])];
      filters := filters + [FdirRequest(nic, f, SoftId(slot, fdirId[nic]), port + RxqIdDataMin)];
      res := Done(slot);
    }

    /** table_action_handler_hit for one packet; ok is false when an RTE_VERIFY fails. */
    method HandleHit(pkt: HitPacket, portSrc: u16) returns (ok: bool, portSrc': u16)
      requires Shaped(State()) && ValidPacket(pkt)
      modifies this
      ensures ok <==> HitStep(old(State()), portSrc, pkt).Some?
      ensures ok ==> (State(), portSrc') == HitStep(old(State()), portSrc, pkt).value
    {
      var k := pkt.key;
      ok, portSrc' := true, portSrc;
      if k.typeId == FragmentRequestTypeId && k.sport != portSrc {
        var r1 := HandleSide(pkt.port, k.sip, k.eventId, false, pkt.egress, IngressFilter(k));
        if r1.Stop? {
          return false, portSrc;
        } else if r1.Done? {
          portSrc' := k.dport;
          var r2 := HandleSide(pkt.egress, k.dip, 0xffff_ffff, true, pkt.port, EgressFilter(k));
          if r2.Stop? {
            return false, portSrc';
          } else if r2.Done? {
            portSrc' := k.sport;
          }
        }
      }
    }

    /**
     * table_action_handler_hit: the packets of the burst whose mask bit is set,
     * lowest index first, with filter.port_src zeroed on entry. On success the
     * new state is HitHandler's, and every filter stays routed to a polled ring.
     */
    method TableActionHandlerHit(pkts: seq<HitPacket>, mask: set<nat>) returns (ok: bool)
      requires Shaped(State()) && forall i :: 0 <= i < |pkts| ==> ValidPacket(pkts[i])
      modifies this
      ensures ok <==> HitHandler(old(State()), pkts, mask).Some?
      ensures ok ==> State() == HitHandler(old(State()), pkts, mask).value
      ensures ok && Routed(old(State())) ==> Routed(State())
    {
      ghost var st0 := State();
      var portSrc: u16 := 0;
      var i := 0;
      SelectedValid(pkts, mask, 0);
      while i < |pkts|
        invariant 0 <= i <= |pkts|
        invariant Shaped(State())
        invariant AllValid(Selected(pkts[..i], mask))
        invariant HitAll(st0, 0, Selected(pkts[..i], mask)) == Some((State(), portSrc))
      {
        SelectedStep(pkts, mask, i);
        SelectedValid(pkts, mask, i + 1);
        if i in mask {
          HitAllSnoc(st0, 0, Selected(pkts[..i], mask), pkts[i]);
          ok, portSrc := HandleHit(pkts[i], portSrc);
          if !ok {
            assert HitAll(st0, 0, Selected(pkts[..i + 1], mask)).None?;
            HitAllStopped(st0, pkts, mask, i + 1);
            return false;
          }
        }
        i := i + 1;
      }
      assert pkts[..i] == pkts;
      ok := true;
      if Routed(st0) {
        HitAllKeepsRouted(st0, 0, Selected(pkts, mask));
      }
    }
  }

  /**
   * The port sizing of dp_init: the default RX queue and one data RX queue
   * per output port, the default, request and data TX queues, 4096
   * descriptors each way, and a flow director matching both addresses and
   * both TCP ports.
   */
  function VoqSwqSizing(nbPorts: nat): (s: Daqswitch.Sizing)
    requires nbPorts <= MaxPorts
    ensures RxqIdDefault < s.nbRxq && RxqIdDataMin + nbPorts <= s.nbRxq
    ensures TxqIdDefault < s.nbTxq && TxqIdReq < s.nbTxq && TxqIdData < s.nbTxq
  {
    Daqswitch.Sizing(nbPorts + 1, 4096, TxqMax, 4096, Some(Daqswitch.FdirMasks(0, 0xffff_ffff, 0xffff_ffff, 0xffff, 0xffff)))
  }

  // -----------------------------------------------------------------------
  // Facts the methods use

  lemma IndexOfIdFirst(lcores: seq<Lcore>, id: nat, i: nat)
    requires i < |lcores| && lcores[i].id == id && forall i' :: 0 <= i' < i ==> lcores[i'].id != id
    ensures IndexOfId(lcores, id) == Some(i)
  {
  }

  lemma FindFlowUnique(fl: seq<DataFlow>, ip: u32, sink: u32, k: nat)
    requires k < |fl| && Holds(fl[k], ip, sink) && forall k' :: 0 <= k' < k ==> !Holds(fl[k'], ip, sink)
    ensures FindFlow(fl, ip, sink) == Some(k)
  {
  }

  lemma FreeSlotUnique(fl: seq<DataFlow>, k: nat)
    requires k < |fl| && !fl[k].active && forall k' :: 0 <= k' < k ==> fl[k'].active
    ensures FreeSlot(fl) == Some(k)
  {
  }

  predicate AllValid(pkts: seq<HitPacket>)
  {
    forall i :: 0 <= i < |pkts| ==> ValidPacket(pkts[i])
  }

  /** Every packet the mask selects from a prefix of valid packets is valid. */
  lemma SelectedValid(pkts: seq<HitPacket>, mask: set<nat>, i: nat)
    requires AllValid(pkts) && i <= |pkts|
    ensures AllValid(Selected(pkts[..i], mask))
  {
    var sel := Selected(pkts[..i], mask);
    forall j | 0 <= j < |sel|
      ensures ValidPacket(sel[j])
    {
      assert sel[j] in pkts[..i];
    }
  }

  lemma SelectedStep(pkts: seq<HitPacket>, mask: set<nat>, i: nat)
    requires i < |pkts|
    ensures Selected(pkts[..i + 1], mask) == if i in mask then Selected(pkts[..i], mask) + [pkts[i]] else Selected(pkts[..i], mask)
  {
    assert pkts[..i + 1][..i] == pkts[..i];
    assert Selected(pkts[..i], mask) + [] == Selected(pkts[..i], mask);
  }

  lemma HitAllSnoc(st: DpState, portSrc: u16, pkts: seq<HitPacket>, x: HitPacket)
    requires Shaped(st) && (forall i :: 0 <= i < |pkts| ==> ValidPacket(pkts[i])) && ValidPacket(x)
    ensures HitAll(st, portSrc, pkts + [x]) ==
              match HitAll(st, portSrc, pkts)
              case None => None
              case Some((st', ps)) => HitStep(st', ps, x)
  {
    assert (pkts + [x])[..|pkts|] == pkts;
  }

  /** Once the handler has stopped, the rest of the burst does not matter. */
  lemma {:induction false} HitAllStopped(st: DpState, pkts: seq<HitPacket>, mask: set<nat>, i: nat)
    requires Shaped(st) && AllValid(pkts) && i <= |pkts|
    requires AllValid(Selected(pkts[..i], mask))
    requires HitAll(st, 0, Selected(pkts[..i], mask)).None?
    ensures AllValid(Selected(pkts, mask)) && HitAll(st, 0, Selected(pkts, mask)).None?
    decreases |pkts| - i
  {
    if i == |pkts| {
      assert pkts[..i] == pkts;
    } else {
      SelectedStep(pkts, mask, i);
      SelectedValid(pkts, mask, i + 1);
      if i in mask {
        HitAllSnoc(st, 0, Selected(pkts[..i], mask), pkts[i]);
      }
      HitAllStopped(st, pkts, mask, i + 1);
    }
  }
}
