/**
 * Data-flow detection in the default lcore of the voq_swq datapath
 * (table_action_handler_hit), as functions on the state it reads and writes:
 * the lcore table with the TX lcores' active_flows masks, the 64 data-flow
 * slots of every port, the per-NIC filter counters and the log of
 * flow-director filters requested from the NICs.
 */
module FlowDetect {
  import opened Opt
  import opened Bytes
  import opened FlowKey
  import opened VoqSwqDefs

  /** A perfect-match flow-director filter on a TCP 4-tuple, fields as stored in the flow key. */
  datatype Filter = Filter(ipSrc: u32, portSrc: u16, ipDst: u32, portDst: u16)

  /**
   * One rte_eth_dev_fdir_add_perfect_filter call: frames matching filter on
   * NIC nic are given soft id softId and steered to RX queue rxQueue.
   */
  datatype FdirRequest = FdirRequest(nic: nat, filter: Filter, softId: u16, rxQueue: nat)

  /** A packet that hit the forwarding table: arrival port, decoded key, output port of the entry hit. */
  datatype HitPacket = HitPacket(port: nat, key: Key, egress: nat)

  /** The state the handler works on; filters is the append-only log of NIC filter installs. */
  datatype DpState = DpState(lcores: seq<Lcore>, flows: seq<seq<DataFlow>>,
                             fdirId: seq<u16>, filters: seq<FdirRequest>)

  /** dp.flows is [MAX_PORTS][64] and fdir_id is [MAX_PORTS]. */
  predicate Shaped(st: DpState)
  {
    && |st.flows| == MaxPorts
    && |st.fdirId| == MaxPorts
    && forall p :: 0 <= p < MaxPorts ==> |st.flows[p]| == MaxDataFlows
  }

  predicate ValidPacket(pkt: HitPacket)
  {
    pkt.port < MaxPorts && pkt.egress < MaxPorts
  }

  // ---------------------------------------------------------------------
  // Finding the TX port entry of a port

  /** The index of the last entry of a TX port list that is for port. */
  function LastTxEntry(txPorts: seq<TxPortConf>, port: nat): (r: Option<nat>)
    ensures r.Some? ==> && r.value < |txPorts| && txPorts[r.value].portId == port
                        && forall j :: r.value < j < |txPorts| ==> txPorts[j].portId != port
    ensures r.None? ==> forall j :: 0 <= j < |txPorts| ==> txPorts[j].portId != port
  {
    if |txPorts| == 0 then None
    else if txPorts[|txPorts| - 1].portId == port then Some(|txPorts| - 1)
    else LastTxEntry(txPorts[..|txPorts| - 1], port)
  }

  /** A DATA_TX lcore with an entry for port. */
  predicate ServesTx(l: Lcore, port: nat)
  {
    l.ltype == DataTx && LastTxEntry(l.txPorts, port).Some?
  }

  /**
   * The (lcore index, entry index) of the TX port entry the handler updates for
   * port: the scan keeps overwriting its result, so it is the last entry of
   * the last DATA_TX lcore that lists the port.
   */
  function TxConfOf(lcores: seq<Lcore>, port: nat): (r: Option<(nat, nat)>)
    ensures r.Some? ==> && r.value.0 < |lcores| && ServesTx(lcores[r.value.0], port)
                        && LastTxEntry(lcores[r.value.0].txPorts, port) == Some(r.value.1)
                        && forall li :: r.value.0 < li < |lcores| ==> !ServesTx(lcores[li], port)
    ensures r.None? ==> forall li :: 0 <= li < |lcores| ==> !ServesTx(lcores[li], port)
  {
    if |lcores| == 0 then None
    else if ServesTx(lcores[|lcores| - 1], port) then
      Some((|lcores| - 1, LastTxEntry(lcores[|lcores| - 1].txPorts, port).value))
    else TxConfOf(lcores[..|lcores| - 1], port)
  }

  /** Ring (port, k) is polled: the TX entry serving port has bit k set in active_flows. */
  predicate Polled(lcores: seq<Lcore>, port: nat, k: nat)
  {
    match TxConfOf(lcores, port)
    case None => false
    case Some((li, j)) => k in lcores[li].txPorts[j].activeFlows
  }

  /** Two lcore tables that differ at most in their active_flows masks. */
  predicate SameTxLayout(a: seq<Lcore>, b: seq<Lcore>)
  {
    && |a| == |b|
    && forall li :: 0 <= li < |a| ==>
         && a[li].ltype == b[li].ltype
         && |a[li].txPorts| == |b[li].txPorts|
         && forall j :: 0 <= j < |a[li].txPorts| ==> a[li].txPorts[j].portId == b[li].txPorts[j].portId
  }

  lemma {:induction false} LastTxEntrySameLayout(a: seq<TxPortConf>, b: seq<TxPortConf>, port: nat)
    requires |a| == |b| && forall j :: 0 <= j < |a| ==> a[j].portId == b[j].portId
    ensures LastTxEntry(a, port) == LastTxEntry(b, port)
    decreases |a|
  {
    if |a| > 0 {
      LastTxEntrySameLayout(a[..|a| - 1], b[..|b| - 1], port);
    }
  }

  /** Setting mask bits never moves the entry the handler picks for a port. */
  lemma TxConfSameLayout(a: seq<Lcore>, b: seq<Lcore>, port: nat)
    requires SameTxLayout(a, b)
    ensures TxConfOf(a, port) == TxConfOf(b, port)
  {
    forall li | 0 <= li < |a|
      ensures LastTxEntry(a[li].txPorts, port) == LastTxEntry(b[li].txPorts, port)
    {
      LastTxEntrySameLayout(a[li].txPorts, b[li].txPorts, port);
    }
    TxConfSameEntries(a, b, port);
  }

  /** Two lcore tables with the same types and the same last entry for port pick the same entry. */
  lemma {:induction false} TxConfSameEntries(a: seq<Lcore>, b: seq<Lcore>, port: nat)
    requires |a| == |b|
    requires forall li :: 0 <= li < |a| ==>
               a[li].ltype == b[li].ltype && LastTxEntry(a[li].txPorts, port) == LastTxEntry(b[li].txPorts, port)
    ensures TxConfOf(a, port) == TxConfOf(b, port)
    decreases |a|
  {
    if |a| > 0 {
      var n := |a| - 1;
      if !ServesTx(a[n], port) {
        TxConfSameEntries(a[..n], b[..n], port);
      }
    }
  }

  // ---------------------------------------------------------------------
  // Slot lookup and claim

  /** Slot f holds an active flow towards ip for sink. */
  predicate Holds(f: DataFlow, ip: u32, sink: u32)
  {
    f.active && f.destIp == ip && f.sinkId == sink
  }

  /** The lowest slot holding an active flow for (ip, sink). */
  function FindFlow(fl: seq<DataFlow>, ip: u32, sink: u32): (r: Option<nat>)
    ensures r.Some? ==> && r.value < |fl| && Holds(fl[r.value], ip, sink)
                        && forall k :: 0 <= k < r.value ==> !Holds(fl[k], ip, sink)
    ensures r.None? ==> forall k :: 0 <= k < |fl| ==> !Holds(fl[k], ip, sink)
  {
    if |fl| == 0 then None
    else if Holds(fl[0], ip, sink) then Some(0)
    else match FindFlow(fl[1..], ip, sink)
      case None => None
      case Some(k) => Some(k + 1)
  }

  /** The lowest inactive slot. */
  function FreeSlot(fl: seq<DataFlow>): (r: Option<nat>)
    ensures r.Some? ==> && r.value < |fl| && !fl[r.value].active
                        && forall k :: 0 <= k < r.value ==> fl[k].active
    ensures r.None? ==> forall k :: 0 <= k < |fl| ==> fl[k].active
  {
    if |fl| == 0 then None
    else if !fl[0].active then Some(0)
    else match FreeSlot(fl[1..])
      case None => None
      case Some(k) => Some(k + 1)
  }

  /** Slot k of port now holds flow, and bit k is set in TX entry (li, j). */
  function Activate(st: DpState, port: nat, k: nat, li: nat, j: nat, flow: DataFlow): DpState
    requires Shaped(st) && port < MaxPorts && k < MaxDataFlows
    requires li < |st.lcores| && j < |st.lcores[li].txPorts|
  {
    var conf := st.lcores[li].txPorts[j];
    var l := st.lcores[li].(txPorts := st.lcores[li].txPorts[j := conf.(activeFlows := conf.activeFlows + {k})]);
    st.(flows := st.flows[port := st.flows[port][k := flow]], lcores := st.lcores[li := l])
  }

  datatype Claim = Claimed(slot: nat, st: DpState) | NoFreeSlot | Fatal

  /**
   * One direction's slot search: reuse the lowest active slot for (ip, sink),
   * otherwise claim the lowest inactive one and enable its ring in the TX entry
   * serving port. A port without a TX entry is fatal (RTE_VERIFY).
   */
  function ClaimSlot(st: DpState, port: nat, ip: u32, sink: u32, req: bool): (c: Claim)
    requires Shaped(st) && port < MaxPorts
    ensures c.Fatal? <==> TxConfOf(st.lcores, port).None?
    ensures c.NoFreeSlot? <==>
              && TxConfOf(st.lcores, port).Some?
              && forall k :: 0 <= k < MaxDataFlows ==> st.flows[port][k].active && !Holds(st.flows[port][k], ip, sink)
    ensures c.Claimed? ==>
              && c.slot < MaxDataFlows
              && Shaped(c.st)
              && Holds(c.st.flows[port][c.slot], ip, sink)
              && c.st.fdirId == st.fdirId && c.st.filters == st.filters
              && SameTxLayout(st.lcores, c.st.lcores)
              && (forall p, k :: 0 <= p < MaxPorts && 0 <= k < MaxDataFlows && st.flows[p][k].active ==>
                    c.st.flows[p][k] == st.flows[p][k])
              && (forall p, k :: 0 <= p < MaxPorts && Polled(st.lcores, p, k) ==> Polled(c.st.lcores, p, k))
    // an active match is reused and nothing changes
    ensures c.Claimed? && FindFlow(st.flows[port], ip, sink).Some? ==>
              c.slot == FindFlow(st.flows[port], ip, sink).value && c.st == st
    // otherwise the lowest inactive slot is written, and only it and its mask bit change
    ensures c.Claimed? && FindFlow(st.flows[port], ip, sink).None? ==>
              && !st.flows[port][c.slot].active
              && (forall k :: 0 <= k < c.slot ==> st.flows[port][k].active)
              && c.st.flows == st.flows[port := st.flows[port][c.slot := DataFlow(true, req, ip, sink)]]
              && Polled(c.st.lcores, port, c.slot)
              && TxConfOf(st.lcores, port).Some?
              && var (li, j) := TxConfOf(st.lcores, port).value;
                 var conf := st.lcores[li].txPorts[j];
                 c.st.lcores == st.lcores[li := st.lcores[li].(txPorts := st.lcores[li].txPorts[j := conf.(activeFlows := conf.activeFlows + {c.slot})])]
  {
    match TxConfOf(st.lcores, port)
    case None => Fatal
    case Some((li, j)) =>
      match FindFlow(st.flows[port], ip, sink)
      case Some(k) => Claimed(k, st)
      case None =>
        match FreeSlot(st.flows[port])
        case None => NoFreeSlot
        case Some(k) =>
          var st' := Activate(st, port, k, li, j, DataFlow(true, req, ip, sink));
          ActivateKeepsPolling(st, port, k, li, j, DataFlow(true, req, ip, sink));
          ActivateFlows(st, port, k, li, j, DataFlow(true, req, ip, sink));
          Claimed(k, st')
  }

  /** Activating a slot writes that slot of port and no other, and leaves the filter state alone. */
  lemma ActivateFlows(st: DpState, port: nat, k: nat, li: nat, j: nat, flow: DataFlow)
    requires Shaped(st) && port < MaxPorts && k < MaxDataFlows
    requires li < |st.lcores| && j < |st.lcores[li].txPorts|
    ensures var st' := Activate(st, port, k, li, j, flow);
            && Shaped(st') && st'.flows[port][k] == flow
            && st'.fdirId == st.fdirId && st'.filters == st.filters
            && st'.flows == st.flows[port := st.flows[port][k := flow]]
            && forall p, k' :: 0 <= p < MaxPorts && 0 <= k' < MaxDataFlows && !(p == port && k' == k) ==>
                 st'.flows[p][k'] == st.flows[p][k']
  {
  }

  /** Activating a slot keeps the TX entry lookup, keeps every enabled ring enabled and enables the new one. */
  lemma ActivateKeepsPolling(st: DpState, port: nat, k: nat, li: nat, j: nat, flow: DataFlow)
    requires Shaped(st) && port < MaxPorts && k < MaxDataFlows
    requires TxConfOf(st.lcores, port) == Some((li, j))
    ensures SameTxLayout(st.lcores, Activate(st, port, k, li, j, flow).lcores)
    ensures Polled(Activate(st, port, k, li, j, flow).lcores, port, k)
    ensures forall p, k' :: 0 <= p < MaxPorts && Polled(st.lcores, p, k') ==>
              Polled(Activate(st, port, k, li, j, flow).lcores, p, k')
    // only bit k of the serving entry's mask is set; every other entry and mask is unchanged
    ensures var conf := st.lcores[li].txPorts[j];
            Activate(st, port, k, li, j, flow).lcores ==
              st.lcores[li := st.lcores[li].(txPorts := st.lcores[li].txPorts[j := conf.(activeFlows := conf.activeFlows + {k})])]
  {
    var st' := Activate(st, port, k, li, j, flow);
    assert SameTxLayout(st.lcores, st'.lcores);
    forall p | 0 <= p < MaxPorts
      ensures TxConfOf(st'.lcores, p) == TxConfOf(st.lcores, p)
    {
      TxConfSameLayout(st.lcores, st'.lcores, p);
    }
  }

  /** A uint16_t increment, which wraps from 0xffff to 0. */
  function Inc16(x: u16): (y: u16)
    ensures x < 0xffff ==> y == x + 1
    ensures x == 0xffff ==> y == 0
  {
    (x as nat + 1) % 0x1_0000
  }

  /**
   * The filter counter of nic is pre-incremented (a uint16_t, so it wraps) and a
   * filter with soft id slot | (counter << 6) is logged.
   */
  function Install(st: DpState, nic: nat, f: Filter, slot: nat, q: nat): (st': DpState)
    requires Shaped(st) && nic < MaxPorts && slot < MaxDataFlows
    ensures Shaped(st') && st'.lcores == st.lcores && st'.flows == st.flows
    ensures st'.fdirId == st.fdirId[nic := Inc16(st.fdirId[nic])]
    ensures |st'.filters| == |st.filters| + 1 && st'.filters[..|st.filters|] == st.filters
    ensures var r := st'.filters[|st.filters|];
            r.nic == nic && r.filter == f && r.rxQueue == q && SlotOfId(r.softId) == slot
  {
    var c := Inc16(st.fdirId[nic]);
    SlotSurvivesCounter(slot, c);
    st.(fdirId := st.fdirId[nic := c],
        filters := st.filters + [FdirRequest(nic, f, SoftId(slot, c), q)])
  }

  // ---------------------------------------------------------------------
  // One packet, and the whole burst

  /** Detection fires for a fragment request whose sport differs from filter.port_src. */
  predicate Triggers(k: Key, portSrc: u16)
  {
    k.typeId == FragmentRequestTypeId && k.sport != portSrc
  }

  /** The filter steering the ROS->DCM direction of a fragment request to the NIC it came out of. */
  function IngressFilter(k: Key): Filter
  {
    Filter(k.dip, k.dport, k.sip, k.sport)
  }

  /** The filter steering the DCM->ROS direction to the NIC the request came in on. */
  function EgressFilter(k: Key): Filter
  {
    Filter(k.sip, k.sport, k.dip, k.dport)
  }

  /**
   * One direction of a trigger: find or claim a slot of port for (ip, sink),
   * then ask NIC nic for filter f with the slot's id, steered to RX queue
   * port + 1. The result's slot is the slot used.
   */
  function Side(st: DpState, port: nat, ip: u32, sink: u32, req: bool, nic: nat, f: Filter): (c: Claim)
    requires Shaped(st) && port < MaxPorts && nic < MaxPorts
    ensures c.Fatal? <==> ClaimSlot(st, port, ip, sink, req).Fatal?
    ensures c.NoFreeSlot? <==> ClaimSlot(st, port, ip, sink, req).NoFreeSlot?
    ensures c.Claimed? ==>
              && c.slot == ClaimSlot(st, port, ip, sink, req).slot
              && Shaped(c.st)
              && Holds(c.st.flows[port][c.slot], ip, sink)
              && |c.st.filters| == |st.filters| + 1 && c.st.filters[..|st.filters|] == st.filters
              && (var r := c.st.filters[|st.filters|];
                  r.nic == nic && r.filter == f && r.rxQueue == port + RxqIdDataMin && SlotOfId(r.softId) == c.slot)
              && (forall p, k :: 0 <= p < MaxPorts && 0 <= k < MaxDataFlows && st.flows[p][k].active ==>
                    c.st.flows[p][k] == st.flows[p][k])
  {
    match ClaimSlot(st, port, ip, sink, req)
    case Fatal => Fatal
    case NoFreeSlot => NoFreeSlot
    case Claimed(s, st1) => Claimed(s, Install(st1, nic, f, s, port + RxqIdDataMin))
  }

  /**
   * One packet of the hit handler: the new state and the new filter.port_src,
   * or None when an RTE_VERIFY stops the switch. A side with no free slot ends
   * the packet's handling (the `continue`s); the egress side's comes after the
   * ingress filter is installed and port_src has become dport.
   */
  function HitStep(st: DpState, portSrc: u16, pkt: HitPacket): (r: Option<(DpState, u16)>)
    requires Shaped(st) && ValidPacket(pkt)
    ensures r.Some? ==> Shaped(r.value.0)
  {
    var k := pkt.key;
    if !Triggers(k, portSrc) then Some((st, portSrc))
    else
      match Side(st, pkt.port, k.sip, k.eventId, false, pkt.egress, IngressFilter(k))
      case Fatal => None
      case NoFreeSlot => Some((st, portSrc))
      case Claimed(_, st2) =>
        match Side(st2, pkt.egress, k.dip, 0xffff_ffff, true, pkt.port, EgressFilter(k))
        case Fatal => None
        case NoFreeSlot => Some((st2, k.dport))
        case Claimed(_, st3) => Some((st3, k.sport))
  }

  /** The hit handler over the selected packets, in the order it visits them. */
  function HitAll(st: DpState, portSrc: u16, pkts: seq<HitPacket>): (r: Option<(DpState, u16)>)
    requires Shaped(st) && forall i :: 0 <= i < |pkts| ==> ValidPacket(pkts[i])
    ensures r.Some? ==> Shaped(r.value.0)
    decreases |pkts|
  {
    if |pkts| == 0 then Some((st, portSrc))
    else
      match HitAll(st, portSrc, pkts[..|pkts| - 1])
      case None => None
      case Some((st', ps)) => HitStep(st', ps, pkts[|pkts| - 1])
  }

  /** The packets whose bit is set in pkts_mask, in increasing index order (the order the ctz loop visits). */
  function Selected(pkts: seq<HitPacket>, mask: set<nat>): (s: seq<HitPacket>)
    ensures forall x :: x in s ==> x in pkts
    ensures |s| <= |pkts|
  {
    if |pkts| == 0 then []
    else Selected(pkts[..|pkts| - 1], mask) + (if |pkts| - 1 in mask then [pkts[|pkts| - 1]] else [])
  }

  /** A call of the handler; filter is zeroed on entry, so port_src starts at 0. */
  function HitHandler(st: DpState, pkts: seq<HitPacket>, mask: set<nat>): Option<DpState>
    requires Shaped(st) && forall i :: 0 <= i < |pkts| ==> ValidPacket(pkts[i])
  {
    var sel := Selected(pkts, mask);
    assert forall i :: 0 <= i < |sel| ==> ValidPacket(sel[i]) by {
      forall i | 0 <= i < |sel| ensures ValidPacket(sel[i]) {
        assert sel[i] in sel;
      }
    }
    match HitAll(st, 0, sel)
    case None => None
    case Some((st', _)) => Some(st')
  }

  // ---------------------------------------------------------------------
  // Properties of one packet

  /**
   * Only a trigger changes anything. A fully handled trigger logs exactly the
   * two mirrored filters, with ids carrying the slots that hold its two
   * directions, and leaves port_src at the trigger's sport; a trigger whose
   * ingress side finds no slot logs nothing; one whose egress side finds no
   * slot logs the ingress filter only and leaves port_src at dport.
   */
  lemma HitStepSpec(st: DpState, portSrc: u16, pkt: HitPacket)
    requires Shaped(st) && ValidPacket(pkt)
    ensures !Triggers(pkt.key, portSrc) ==> HitStep(st, portSrc, pkt) == Some((st, portSrc))
    ensures HitStep(st, portSrc, pkt).Some? ==>
              var (st', ps) := HitStep(st, portSrc, pkt).value;
              && |st.filters| <= |st'.filters| <= |st.filters| + 2
              && st'.filters[..|st.filters|] == st.filters
              && (|st'.filters| == |st.filters| ==> ps == portSrc && st' == st)
              && (|st'.filters| > |st.filters| ==>
                    var r := st'.filters[|st.filters|];
                    && Triggers(pkt.key, portSrc)
                    && r.nic == pkt.egress && r.filter == IngressFilter(pkt.key)
                    && r.rxQueue == pkt.port + RxqIdDataMin
                    && Holds(st'.flows[pkt.port][SlotOfId(r.softId)], pkt.key.sip, pkt.key.eventId)
                    && ps == (if |st'.filters| == |st.filters| + 2 then pkt.key.sport else pkt.key.dport))
              && (|st'.filters| == |st.filters| + 2 ==>
                    var r := st'.filters[|st.filters| + 1];
                    && r.nic == pkt.port && r.filter == EgressFilter(pkt.key)
                    && r.rxQueue == pkt.egress + RxqIdDataMin
                    && Holds(st'.flows[pkt.egress][SlotOfId(r.softId)], pkt.key.dip, 0xffff_ffff))
  {
    var k := pkt.key;
    if Triggers(k, portSrc) {
      match Side(st, pkt.port, k.sip, k.eventId, false, pkt.egress, IngressFilter(k))
      case Fatal =>
      case NoFreeSlot =>
      case Claimed(s1, st2) =>
        match Side(st2, pkt.egress, k.dip, 0xffff_ffff, true, pkt.port, EgressFilter(k))
        case Fatal =>
        case NoFreeSlot =>
        case Claimed(s2, st3) =>
          assert st3.filters[..|st.filters|] == st.filters by {
            assert st3.filters[..|st2.filters|] == st2.filters;
            assert st2.filters[..|st.filters|] == st.filters;
          }
          assert st3.filters[|st.filters|] == st2.filters[|st.filters|];
    }
  }

  /** The two filters of a trigger are mirror images: each matches the other's reply direction. */
  lemma FiltersMirror(k: Key)
    ensures IngressFilter(k).ipSrc == EgressFilter(k).ipDst && IngressFilter(k).portSrc == EgressFilter(k).portDst
    ensures IngressFilter(k).ipDst == EgressFilter(k).ipSrc && IngressFilter(k).portDst == EgressFilter(k).portSrc
  {
  }

  // ---------------------------------------------------------------------
  // The routing invariant

  /** A logged filter steers to RX queue p+1 with the id of an active slot s of port p. */
  predicate FilterRouted(st: DpState, r: FdirRequest)
    requires Shaped(st)
  {
    && RxqIdDataMin <= r.rxQueue < RxqIdDataMin + MaxPorts
    && st.flows[r.rxQueue - RxqIdDataMin][SlotOfId(r.softId)].active
  }

  /**
   * Every active slot's ring is polled, and every filter ever requested leads
   * to an active slot: the packets a filter catches land in a ring some TX
   * lcore drains.
   */
  predicate Routed(st: DpState)
  {
    && Shaped(st)
    && (forall p, k :: 0 <= p < MaxPorts && 0 <= k < MaxDataFlows && st.flows[p][k].active ==>
          Polled(st.lcores, p, k))
    && forall i :: 0 <= i < |st.filters| ==> FilterRouted(st, st.filters[i])
  }

  /** The state before any detection: no slot is active and no filter installed. */
  lemma InitialRouted(lcores: seq<Lcore>)
    ensures Routed(DpState(lcores, seq(MaxPorts, p => seq(MaxDataFlows, k => InactiveFlow)), seq(MaxPorts, p => 0), []))
  {
  }

  /** One side keeps every filter routed, its own included. */
  lemma SideKeepsRouted(st: DpState, port: nat, ip: u32, sink: u32, req: bool, nic: nat, f: Filter)
    requires Routed(st) && port < MaxPorts && nic < MaxPorts
    requires Side(st, port, ip, sink, req, nic, f).Claimed?
    ensures Routed(Side(st, port, ip, sink, req, nic, f).st)
  {
    var c := ClaimSlot(st, port, ip, sink, req);
    var st' := Side(st, port, ip, sink, req, nic, f).st;
    forall i | 0 <= i < |st'.filters|
      ensures FilterRouted(st', st'.filters[i])
    {
      if i < |st.filters| {
        assert st'.filters[i] == st.filters[i];
        assert FilterRouted(st, st.filters[i]);
      }
    }
    forall p, k | 0 <= p < MaxPorts && 0 <= k < MaxDataFlows && st'.flows[p][k].active
      ensures Polled(st'.lcores, p, k)
    {
      assert st'.lcores == c.st.lcores && st'.flows == c.st.flows;
      if FindFlow(st.flows[port], ip, sink).None? && p == port && k == c.slot {
      } else {
        assert st.flows[p][k].active;
      }
    }
  }

  /** Handling one packet keeps every filter routed. */
  lemma HitStepKeepsRouted(st: DpState, portSrc: u16, pkt: HitPacket)
    requires Routed(st) && ValidPacket(pkt)
    requires HitStep(st, portSrc, pkt).Some?
    ensures Routed(HitStep(st, portSrc, pkt).value.0)
  {
    var k := pkt.key;
    if Triggers(k, portSrc) {
      match Side(st, pkt.port, k.sip, k.eventId, false, pkt.egress, IngressFilter(k))
      case Fatal =>
      case NoFreeSlot =>
      case Claimed(s1, st2) =>
        SideKeepsRouted(st, pkt.port, k.sip, k.eventId, false, pkt.egress, IngressFilter(k));
        match Side(st2, pkt.egress, k.dip, 0xffff_ffff, true, pkt.port, EgressFilter(k))
        case Fatal =>
        case NoFreeSlot =>
        case Claimed(s2, st3) =>
          SideKeepsRouted(st2, pkt.egress, k.dip, 0xffff_ffff, true, pkt.port, EgressFilter(k));
    }
  }

  /** The hit handler keeps every filter routed, whatever the burst. */
  lemma {:induction false} HitAllKeepsRouted(st: DpState, portSrc: u16, pkts: seq<HitPacket>)
    requires Routed(st) && forall i :: 0 <= i < |pkts| ==> ValidPacket(pkts[i])
    requires HitAll(st, portSrc, pkts).Some?
    ensures Routed(HitAll(st, portSrc, pkts).value.0)
    decreases |pkts|
  {
    if |pkts| > 0 {
      var front := pkts[..|pkts| - 1];
      HitAllKeepsRouted(st, portSrc, front);
      var (st', ps) := HitAll(st, portSrc, front).value;
      HitStepKeepsRouted(st', ps, pkts[|pkts| - 1]);
    }
  }

  /** The filter log only grows. */
  lemma {:induction false} HitAllAppendsOnly(st: DpState, portSrc: u16, pkts: seq<HitPacket>)
    requires Shaped(st) && forall i :: 0 <= i < |pkts| ==> ValidPacket(pkts[i])
    requires HitAll(st, portSrc, pkts).Some?
    ensures var st' := HitAll(st, portSrc, pkts).value.0;
            |st.filters| <= |st'.filters| && st'.filters[..|st.filters|] == st.filters
    decreases |pkts|
  {
    if |pkts| > 0 {
      var front := pkts[..|pkts| - 1];
      HitAllAppendsOnly(st, portSrc, front);
      var (st', ps) := HitAll(st, portSrc, front).value;
      HitStepSpec(st', ps, pkts[|pkts| - 1]);
      var st'' := HitAll(st, portSrc, pkts).value.0;
      assert st''.filters[..|st.filters|] == st'.filters[..|st.filters|];
    }
  }

  // ---------------------------------------------------------------------
  // The shift as written

  /**
   * The bits `1 << k` contributes when OR-ed into, or AND-ed with, a 64-bit
   * mask as the source writes it: the shift is on a 32-bit int, x86 masks the
   * count to 5 bits, and the int is sign-extended to 64 bits.
   */
  function ShiftBitsAsWritten(k: nat): (b: set<nat>)
    ensures forall i :: i in b ==> i < 64
  {
    if k % 32 == 31 then Span(31, 64) else {k % 32}
  }

  /** The bit positions lo..hi-1. */
  function Span(lo: nat, hi: nat): (s: set<nat>)
    ensures forall i :: i in s <==> lo <= i < hi
    decreases hi - lo
  {
    if lo >= hi then {} else {lo} + Span(lo + 1, hi)
  }

  /** The TX loop's test for ring i as written. */
  predicate PolledAsWritten(activeFlows: set<nat>, i: nat)
  {
    activeFlows * ShiftBitsAsWritten(i) != {}
  }

  /**
   * Claiming slot 31 as written enables ring 63 too (which no port has), and
   * claiming slot 32 sets bit 0 instead of bit 32, so ring 32 is never drained
   * by its own bit.
   */
  lemma ShiftAsWrittenCounterexample()
    ensures 63 in ShiftBitsAsWritten(31)
    ensures PolledAsWritten(ShiftBitsAsWritten(31), 63)
    ensures ShiftBitsAsWritten(32) == {0}
    ensures !PolledAsWritten({}, 63)
  {
    assert 63 in ShiftBitsAsWritten(31) * ShiftBitsAsWritten(63);
  }
}
