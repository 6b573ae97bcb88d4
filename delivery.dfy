/**
 * Where filtered traffic goes in the voq_swq datapath: a flow-director filter
 * requested by the flow handler steers its packets to an RX queue that a data
 * RX lcore polls, the RX lcore appends them to a ring that init_rings
 * created, and a data TX lcore has that ring's bit set, so it drains it.
 */
module Delivery {
  import opened Opt
  import opened Bytes
  import opened VoqSwqDefs
  import opened FlowDetect
  import opened LcoreAssign
  import opened Rings
  import opened DataLcores

  /** The RX entry of NIC r.nic has a queue reading the filter's RX queue and feeding port r.rxQueue - 1. */
  lemma RxQueueOfFilter(lcores: seq<Lcore>, nbPorts: nat, r: FdirRequest) returns (li: nat, j: nat)
    requires nbPorts <= MaxPorts && Bound(lcores, DataRx, nbPorts, nbPorts)
    requires r.nic < nbPorts && RxqIdDataMin <= r.rxQueue < RxqIdDataMin + nbPorts
    ensures li < |lcores| && lcores[li].ltype == DataRx
    ensures j < |lcores[li].rxPorts| && lcores[li].rxPorts[j].portId == r.nic
    ensures r.rxQueue - RxqIdDataMin < |lcores[li].rxPorts[j].queues|
    ensures lcores[li].rxPorts[j].queues[r.rxQueue - RxqIdDataMin] == RxQueue(r.rxQueue, r.rxQueue - RxqIdDataMin)
  {
    assert Holders(lcores, DataRx, r.nic) == 1;
    HoldersPositive(lcores, DataRx, r.nic);
    li, j :| 0 <= li < |lcores| && 0 <= j < |PortIds(lcores[li], DataRx)| && PortIds(lcores[li], DataRx)[j] == r.nic;
    assert lcores[li].rxPorts[j] == RxEntry(r.nic, nbPorts);
  }

  /**
   * The routing theorem. In a state the flow handler keeps Routed, with
   * every port bound to an RX lcore, a packet a logged filter caught
   * (its fdir id is the filter's soft id) is received on a queue an RX lcore
   * polls, whose output port is the filter's RX queue minus one; its ring
   * there exists whenever the rings are those init_rings creates, it is
   * appended to that ring, and the TX entry of that port has the ring's bit.
   */
  lemma FilteredTrafficDelivered(st: DpState, nbPorts: nat, i: nat, rings: RingMap, m: Mbuf) returns (li: nat, j: nat)
    requires nbPorts <= MaxPorts && Routed(st) && Bound(st.lcores, DataRx, nbPorts, nbPorts)
    requires i < |st.filters| && st.filters[i].nic < nbPorts && st.filters[i].rxQueue < RxqIdDataMin + nbPorts
    requires rings.Keys == Created(nbPorts).Keys
    requires m.fdirId == st.filters[i].softId
    ensures var r := st.filters[i];
            var out := r.rxQueue - RxqIdDataMin;
            && li < |st.lcores| && st.lcores[li].ltype == DataRx
            && j < |st.lcores[li].rxPorts| && st.lcores[li].rxPorts[j].portId == r.nic
            && out < |st.lcores[li].rxPorts[j].queues|
            && st.lcores[li].rxPorts[j].queues[out] == RxQueue(r.rxQueue, out)
            && Deliver(rings, out, [m]) == Some(rings[(out, Slot(m)) := rings[(out, Slot(m))] + [m]])
            && Polled(st.lcores, out, Slot(m))
  {
    var r := st.filters[i];
    RoutedFilter(st, i);
    li, j := RxQueueOfFilter(st.lcores, nbPorts, r);
    DeliverOne(rings, nbPorts, r.rxQueue - RxqIdDataMin, m);
  }

  /** What Routed says of logged filter i: its RX queue names a port whose slot for the soft id is polled. */
  lemma RoutedFilter(st: DpState, i: nat)
    requires Routed(st) && i < |st.filters|
    ensures RxqIdDataMin <= st.filters[i].rxQueue < RxqIdDataMin + MaxPorts
    ensures Polled(st.lcores, st.filters[i].rxQueue - RxqIdDataMin, SlotOfId(st.filters[i].softId))
  {
    assert FilterRouted(st, st.filters[i]);
  }

  /** One packet for a port below nb_ports is appended to its slot's ring. */
  lemma DeliverOne(rings: RingMap, nbPorts: nat, out: nat, m: Mbuf)
    requires rings.Keys == Created(nbPorts).Keys && out < nbPorts
    ensures (out, Slot(m)) in rings
    ensures Deliver(rings, out, [m]) == Some(rings[(out, Slot(m)) := rings[(out, Slot(m))] + [m]])
  {
    assert (out, Slot(m)) in Created(nbPorts);
    assert [m][..0] == [];
  }

  /** A burst for an output port below nb_ports never meets a missing ring, and no ring appears. */
  lemma DeliverTotal(rings: RingMap, nbPorts: nat, out: nat, b: seq<Mbuf>)
    requires rings.Keys == Created(nbPorts).Keys && out < nbPorts
    ensures Deliver(rings, out, b).Some? && Deliver(rings, out, b).value.Keys == rings.Keys
  {
    DeliverSpec(rings, out, b);
    forall k | 0 <= k < |b|
      ensures (out, Slot(b[k])) in rings
    {
      assert (out, Slot(b[k])) in Created(nbPorts);
    }
  }

  /**
   * A data RX pass over queues that all feed ports below nb_ports never
   * crashes and creates no ring, whatever arrives and whichever queues are due.
   */
  lemma {:induction false} RxPassTotal(rings: RingMap, nbPorts: nat, queues: seq<RxQueue>, due: seq<bool>, arrivals: seq<seq<Mbuf>>)
    requires |due| == |queues| == |arrivals|
    requires rings.Keys == Created(nbPorts).Keys
    requires forall q :: 0 <= q < |queues| ==> queues[q].outPortId < nbPorts
    ensures RxRings(rings, queues, due, arrivals).Some?
    ensures RxRings(rings, queues, due, arrivals).value.Keys == rings.Keys
    decreases |queues|
  {
    if |queues| > 0 {
      var n := |queues| - 1;
      RxPassTotal(rings, nbPorts, queues[..n], due[..n], arrivals[..n]);
      var r := RxRings(rings, queues[..n], due[..n], arrivals[..n]).value;
      if due[n] {
        DeliverTotal(r, nbPorts, queues[n].outPortId, arrivals[n]);
      }
    }
  }

  /**
   * A data TX pass over a port below nb_ports never crashes and creates no
   * ring: whichever bits are set, each ring it dequeues from exists.
   */
  lemma {:induction false} TxPassTotal(o: TxOut, nbPorts: nat, port: nat, active: set<nat>, flows: seq<DataFlow>,
                                       now: u64, interval: u64, k: nat)
    requires k <= |flows| == |o.stamps| <= MaxDataFlows
    requires o.rings.Keys == Created(nbPorts).Keys && port < nbPorts
    ensures TxFlows(o, port, active, flows, now, interval, k).Some?
    ensures TxFlows(o, port, active, flows, now, interval, k).value.rings.Keys == o.rings.Keys
  {
    if k > 0 {
      TxPassTotal(o, nbPorts, port, active, flows, now, interval, k - 1);
      assert (port, k - 1) in Created(nbPorts);
    }
  }

  /**
   * init_rings as written: once slots 0..62 of a port are taken the flow
   * handler claims slot 63, but no ring 63 exists, so the first packet its
   * filter steers crashes the RX lcore; the ring table with 64 rings per port
   * takes it.
   */
  lemma Slot63AsWritten(nbPorts: nat, fl: seq<DataFlow>, out: nat, counter: u16, tag: nat)
    requires out < nbPorts && |fl| == MaxDataFlows
    requires (forall k :: 0 <= k < MaxDataFlows - 1 ==> fl[k].active) && !fl[MaxDataFlows - 1].active
    ensures FreeSlot(fl) == Some(63)
    ensures Slot(Mbuf(tag, SoftId(63, counter))) == 63
    ensures Deliver(CreatedAsWritten(nbPorts), out, [Mbuf(tag, SoftId(63, counter))]).None?
    ensures Deliver(Created(nbPorts), out, [Mbuf(tag, SoftId(63, counter))]).Some?
  {
    FreeSlotLast(fl);
    SlotSurvivesCounter(63, counter);
    var m := Mbuf(tag, SoftId(63, counter));
    MissingRing(CreatedAsWritten(nbPorts), out, m);
    DeliverOne(Created(nbPorts), nbPorts, out, m);
  }

  /** A packet whose ring was never created crashes the delivery. */
  lemma MissingRing(rings: RingMap, out: nat, m: Mbuf)
    requires (out, Slot(m)) !in rings
    ensures Deliver(rings, out, [m]).None?
  {
    assert [m][..0] == [];
  }

  lemma FreeSlotLast(fl: seq<DataFlow>)
    requires |fl| == MaxDataFlows
    requires (forall k :: 0 <= k < MaxDataFlows - 1 ==> fl[k].active) && !fl[MaxDataFlows - 1].active
    ensures FreeSlot(fl) == Some(MaxDataFlows - 1)
  {
    var r := FreeSlot(fl);
    if r.Some? {
      assert !fl[r.value].active;
    }
  }
}
