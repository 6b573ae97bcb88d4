/**
 * The data lcores of the voq_swq datapath, one pass of each main loop:
 * the RX lcore moves packets from a port's RX queues into the rings of the
 * queue's output port (dp_lcore_data_rx.c), the TX lcore moves packets of
 * the active flows from a port's rings to the port's TX queues
 * (dp_lcore_data_tx.c). The rings (dp.rings) live in a RingTable object; the
 * NIC's transmit side is a Wire object.
 */
module DataLcores {
  import opened Opt
  import opened Bytes
  import opened VoqSwqDefs
  import opened Rings
  import opened VoqSwq

  function Min(a: nat, b: nat): nat { if a <= b then a else b }

  /**
   * How many of n offered packets a library burst call takes when the
   * environment's schedule of capacities is room: the first capacity, or all
   * of them once the schedule has run out (the consumer or the NIC always
   * catches up eventually).
   */
  function Taken(room: seq<nat>, n: nat): (t: nat)
    ensures t <= n
    ensures |room| == 0 ==> t == n
  {
    if |room| > 0 then Min(room[0], n) else n
  }

  function Rest(room: seq<nat>): seq<nat>
  {
    if |room| > 0 then room[1..] else room
  }

  class RingTable {
    /** dp.rings: the created rings and their contents. */
    var rings: RingMap
    /** Capacities successive rte_ring_enqueue_burst calls find free. */
    var room: seq<nat>
    /** Packet buffers returned to their pool by rte_pktmbuf_free, oldest first. */
    ghost var freed: seq<Mbuf>

    constructor (room0: seq<nat>)
      ensures rings == map[] && room == room0 && freed == []
    {
      rings := map[];
      room := room0;
      freed := [];
    }

    /**
     * init_rings with one ring per data-flow slot: nbPorts times 64 empty
     * rings. (As written the slot loop stops at 63; see CreatedAsWritten.)
     */
    method InitRings(nbPorts: nat)
      modifies this
      ensures rings == Created(nbPorts)
      ensures room == old(room) && freed == old(freed)
    {
      rings := map[];
      var p := 0;
      while p < nbPorts
        invariant 0 <= p <= nbPorts
        invariant forall key :: key in rings ==> rings[key] == []
        invariant forall q: nat, k: nat :: (q, k) in rings <==> q < p && k < MaxDataFlows
        invariant room == old(room) && freed == old(freed)
      {
        var s := 0;
        while s < MaxDataFlows
          invariant 0 <= s <= MaxDataFlows
          invariant forall key :: key in rings ==> rings[key] == []
          invariant forall q: nat, k: nat :: (q, k) in rings <==> (q < p && k < MaxDataFlows) || (q == p && k < s)
          invariant room == old(room) && freed == old(freed)
        {
          rings := rings[(p, s) := []];
          s := s + 1;
        }
        p := p + 1;
      }
      CreatedUnique(rings, nbPorts);
    }

    /** rte_ring_enqueue_burst: appends the first Taken(room, n) packets to the ring. */
    method EnqueueBurst(key: (nat, nat), mbufs: seq<Mbuf>) returns (n: nat)
      requires key in rings
      modifies this
      ensures n == Taken(old(room), |mbufs|) && room == Rest(old(room))
      ensures rings == old(rings)[key := old(rings)[key] + mbufs[..n]]
      ensures freed == old(freed)
    {
      n := Taken(room, |mbufs|);
      rings := rings[key := rings[key] + mbufs[..n]];
      room := Rest(room);
    }

    /**
     * enqueue_data_pkt: with back-pressure (the default build) retry until
     * the ring holds all n packets, in order; in lossy mode
     * (DP_BACK_PRESSURE_DISABLE) one attempt, and the packets it did not take
     * are freed.
     */
    method EnqueueDataPkt(key: (nat, nat), mbufs: seq<Mbuf>, lossy: bool)
      requires key in rings
      modifies this
      ensures !lossy ==> rings == old(rings)[key := old(rings)[key] + mbufs] && freed == old(freed)
      ensures lossy ==>
                var d := Taken(old(room), |mbufs|);
                && rings == old(rings)[key := old(rings)[key] + mbufs[..d]]
                && freed == old(freed) + mbufs[d..]
                && |mbufs[..d]| + |mbufs[d..]| == |mbufs|
    {
      if lossy {
        var d := EnqueueBurst(key, mbufs);
        var k := d;
        while k < |mbufs|
          invariant d <= k <= |mbufs|
          invariant rings == old(rings)[key := old(rings)[key] + mbufs[..d]]
          invariant freed == old(freed) + mbufs[d..k]
        {
          assert mbufs[d..k + 1] == mbufs[d..k] + [mbufs[k]];
          freed := freed + [mbufs[k]];
          k := k + 1;
        }
        assert mbufs[d..k] == mbufs[d..];
        return;
      }
      var rest := mbufs;
      assert old(rings)[key] + mbufs[..0] == old(rings)[key];
      while |rest| > 0
        invariant key in rings && |rest| <= |mbufs|
        invariant rest == mbufs[|mbufs| - |rest|..]
        invariant rings == old(rings)[key := old(rings)[key] + mbufs[..|mbufs| - |rest|]]
        invariant freed == old(freed)
        decreases |room|, |rest|
      {
        ghost var done := |mbufs| - |rest|;
        var d := EnqueueBurst(key, rest);
        assert mbufs[..done] + rest[..d] == mbufs[..done + d];
        assert old(rings)[key] + mbufs[..done] + rest[..d] == old(rings)[key] + mbufs[..done + d];
        rest := rest[d..];
      }
      assert mbufs[..|mbufs|] == mbufs;
    }

    /** rte_ring_dequeue_burst: takes up to max packets from the front of the ring. */
    method DequeueBurst(key: (nat, nat), max: nat) returns (pkts: seq<Mbuf>)
      requires key in rings
      modifies this
      ensures pkts == old(rings)[key][..Min(max, |old(rings)[key]|)]
      ensures rings == old(rings)[key := old(rings)[key][Min(max, |old(rings)[key]|)..]]
      ensures room == old(room) && freed == old(freed)
    {
      var n := Min(max, |rings[key]|);
      pkts := rings[key][..n];
      rings := rings[key := rings[key][n..]];
    }

    /**
     * The burst loop of the RX lcore (back-pressure build): cut the burst into
     * runs of one slot and enqueue each run on ring (out, slot). false is the
     * crash of enqueueing on a ring that was never created.
     */
    method EnqueueRuns(out: nat, b: seq<Mbuf>) returns (ok: bool)
      modifies this
      ensures ok <==> Deliver(old(rings), out, b).Some?
      ensures ok ==> rings == Deliver(old(rings), out, b).value
      ensures freed == old(freed)
    {
      DeliverSpec(old(rings), out, b);
      var k := 0;
      while k < |b|
        invariant 0 <= k <= |b|
        invariant Deliver(old(rings), out, b[..k]) == Some(rings)
        invariant freed == old(freed)
      {
        var slot := b[k].fdirId % (FdirOutQueueMask + 1);
        var key := (out, slot);
        if key !in rings {
          DeliverSpec(old(rings), out, b[..k]);
          assert Slot(b[k]) == slot;
          return false;
        }
        var e := k + 1;
        while e < |b| && b[e].fdirId % (FdirOutQueueMask + 1) == slot
          invariant k < e <= |b|
          invariant forall j :: k <= j < e ==> Slot(b[j]) == slot
        {
          e := e + 1;
        }
        assert Uniform(b[k..e]) && b[k..e][0] == b[k];
        DeliverRun(old(rings), out, b[..k], b[k..e]);
        assert b[..k] + b[k..e] == b[..e];
        EnqueueDataPkt(key, b[k..e], false);
        k := e;
      }
      assert b[..k] == b;
      ok := true;
    }
  }

  lemma CreatedUnique(r: RingMap, nbPorts: nat)
    requires forall key :: key in r ==> r[key] == []
    requires forall q: nat, k: nat :: (q, k) in r <==> q < nbPorts && k < MaxDataFlows
    ensures r == Created(nbPorts)
  {
    var c := Created(nbPorts);
    assert forall key :: key in r <==> key in c by {
      forall key: (nat, nat) ensures key in r <==> key in c {
        var (q, k) := key;
      }
    }
  }

  /** A packet handed to TX queue queue of port port. */
  datatype Sent = Sent(port: nat, queue: nat, pkt: Mbuf)

  function SentAll(port: nat, queue: nat, pkts: seq<Mbuf>): (r: seq<Sent>)
    ensures |r| == |pkts| && forall k :: 0 <= k < |pkts| ==> r[k] == Sent(port, queue, pkts[k])
  {
    seq(|pkts|, k requires 0 <= k < |pkts| => Sent(port, queue, pkts[k]))
  }

  lemma SentAllSplit(port: nat, queue: nat, a: seq<Mbuf>, b: seq<Mbuf>)
    ensures SentAll(port, queue, a + b) == SentAll(port, queue, a) + SentAll(port, queue, b)
  {
  }

  /** The transmit side of the NICs. */
  class Wire {
    /** Every packet the NICs accepted for transmission, in order. */
    var log: seq<Sent>
    /** Capacities successive rte_eth_tx_burst calls find free in the TX rings. */
    var room: seq<nat>
    /** One entry (port, queue) per rte_eth_tx_burst call: the total_bursts counters. */
    ghost var bursts: seq<(nat, nat)>

    constructor (room0: seq<nat>)
      ensures log == [] && room == room0 && bursts == []
    {
      log := [];
      room := room0;
      bursts := [];
    }

    /** rte_eth_tx_burst: the NIC takes the first Taken(room, n) packets. */
    method TxBurst(port: nat, queue: nat, pkts: seq<Mbuf>) returns (n: nat)
      modifies this
      ensures n == Taken(old(room), |pkts|) && room == Rest(old(room))
      ensures log == old(log) + SentAll(port, queue, pkts[..n])
      ensures bursts == old(bursts) + [(port, queue)]
    {
      n := Taken(room, |pkts|);
      log := log + SentAll(port, queue, pkts[..n]);
      room := Rest(room);
      bursts := bursts + [(port, queue)];
    }

    /**
     * The TX lcore's transmit loop: call rte_eth_tx_burst on what is left
     * until every packet is taken; nothing is dropped and order is kept.
     */
    method TransmitAll(port: nat, queue: nat, pkts: seq<Mbuf>)
      requires |pkts| > 0
      modifies this
      ensures log == old(log) + SentAll(port, queue, pkts)
      ensures |bursts| > |old(bursts)| && BurstsTo(old(bursts), bursts, port, queue)
    {
      var done: nat := 0;
      while true
        invariant done < |pkts|
        invariant log == old(log) + SentAll(port, queue, pkts[..done])
        invariant BurstsTo(old(bursts), bursts, port, queue)
        decreases |room|, |pkts| - done
      {
        var n := SendFrom(old(log), old(bursts), port, queue, pkts, done);
        if done + n == |pkts| {
          assert pkts[..done + n] == pkts;
          return;
        }
        done := done + n;
      }
    }

    /** One rte_eth_tx_burst on the packets from done on. */
    method SendFrom(ghost log0: seq<Sent>, ghost bursts0: seq<(nat, nat)>, port: nat, queue: nat, pkts: seq<Mbuf>, done: nat)
      returns (n: nat)
      requires done < |pkts|
      requires log == log0 + SentAll(port, queue, pkts[..done])
      requires BurstsTo(bursts0, bursts, port, queue)
      modifies this
      ensures done + n <= |pkts| && n == Taken(old(room), |pkts| - done) && room == Rest(old(room))
      ensures log == log0 + SentAll(port, queue, pkts[..done + n])
      ensures BurstsTo(bursts0, bursts, port, queue) && |bursts| == |old(bursts)| + 1
    {
      n := TxBurst(port, queue, pkts[done..]);
      SentAllStep(port, queue, pkts, done, n);
      BurstsToSnoc(bursts0, old(bursts), port, queue);
    }
  }

  /** bursts extends prefix with calls on (port, queue) only. */
  ghost predicate BurstsTo(prefix: seq<(nat, nat)>, bursts: seq<(nat, nat)>, port: nat, queue: nat)
  {
    |bursts| >= |prefix| && bursts[..|prefix|] == prefix
    && forall k :: |prefix| <= k < |bursts| ==> bursts[k] == (port, queue)
  }

  lemma BurstsToSnoc(prefix: seq<(nat, nat)>, bursts: seq<(nat, nat)>, port: nat, queue: nat)
    requires BurstsTo(prefix, bursts, port, queue)
    ensures BurstsTo(prefix, bursts + [(port, queue)], port, queue)
  {
    assert (bursts + [(port, queue)])[..|prefix|] == bursts[..|prefix|];
  }

  /** Sending the next n packets extends the sent prefix by n. */
  lemma SentAllStep(port: nat, queue: nat, pkts: seq<Mbuf>, done: nat, n: nat)
    requires done + n <= |pkts|
    ensures SentAll(port, queue, pkts[..done]) + SentAll(port, queue, pkts[done..][..n]) == SentAll(port, queue, pkts[..done + n])
  {
    assert pkts[..done] + pkts[done..][..n] == pkts[..done + n];
    SentAllSplit(port, queue, pkts[..done], pkts[done..][..n]);
  }

  // ---------------------------------------------------------------------
  // One pass of the data RX lcore

  /** A row of timestamps with entry i set to now. */
  function Restamp(row: seq<u64>, i: nat, now: u64): seq<u64>
    requires i < |row|
  {
    row[i := now]
  }

  /** A queue is polled once the poll interval has elapsed since its stamp (uint64_t arithmetic). */
  predicate Due(now: u64, last: u64, interval: u64)
  {
    !(Sub64(now, last) < interval)
  }

  function RxDue(now: u64, row: seq<u64>, nq: nat, interval: u64): (due: seq<bool>)
    requires nq <= |row|
    ensures |due| == nq && forall i :: 0 <= i < nq ==> due[i] == Due(now, row[i], interval)
  {
    seq(nq, i requires 0 <= i < nq => Due(now, row[i], interval))
  }

  /**
   * The rings after the pass has moved the burst of every polled queue, in
   * queue order, to the rings of the queue's output port; None when a packet
   * meets a ring that was never created.
   */
  function RxRings(rings: RingMap, queues: seq<RxQueue>, due: seq<bool>, arrivals: seq<seq<Mbuf>>): Option<RingMap>
    requires |due| == |queues| == |arrivals|
  {
    if |queues| == 0 then Some(rings)
    else
      var n := |queues| - 1;
      match RxRings(rings, queues[..n], due[..n], arrivals[..n])
      case None => None
      case Some(r) => if due[n] then Deliver(r, queues[n].outPortId, arrivals[n]) else Some(r)
  }

  /** The poll stamps after the pass: refreshed to now only after a polled burst that was non-empty and short. */
  function RxStamps(row: seq<u64>, due: seq<bool>, arrivals: seq<seq<Mbuf>>, now: u64): (r: seq<u64>)
    requires |due| == |arrivals| <= |row|
    ensures |r| == |row|
    ensures forall i :: 0 <= i < |row| ==>
              r[i] == if i < |due| && due[i] && 0 < |arrivals[i]| < MaxPktBurstRx then now else row[i]
  {
    seq(|row|, i requires 0 <= i < |row| =>
      if i < |due| && due[i] && 0 < |arrivals[i]| < MaxPktBurstRx then now else row[i])
  }

  /** The rx statistics the pass records: (port, queue id, nb_rx) per polled, non-empty burst. */
  function RxLog(port: nat, queues: seq<RxQueue>, due: seq<bool>, arrivals: seq<seq<Mbuf>>): seq<(nat, nat, nat)>
    requires |due| == |queues| == |arrivals|
  {
    if |queues| == 0 then []
    else
      var n := |queues| - 1;
      RxLog(port, queues[..n], due[..n], arrivals[..n])
        + (if due[n] && |arrivals[n]| > 0 then [(port, queues[n].queueId as nat, |arrivals[n]|)] else [])
  }

  /** Once a queue's burst has crashed the pass, the whole pass has. */
  lemma {:induction false} RxRingsStopped(rings: RingMap, queues: seq<RxQueue>, due: seq<bool>, arrivals: seq<seq<Mbuf>>, i: nat)
    requires |due| == |queues| == |arrivals| && i <= |queues|
    requires RxRings(rings, queues[..i], due[..i], arrivals[..i]).None?
    ensures RxRings(rings, queues, due, arrivals).None?
    decreases |queues| - i
  {
    if i < |queues| {
      assert queues[..i + 1][..i] == queues[..i] && due[..i + 1][..i] == due[..i] && arrivals[..i + 1][..i] == arrivals[..i];
      RxRingsStopped(rings, queues, due, arrivals, i + 1);
    } else {
      assert queues[..i] == queues && due[..i] == due && arrivals[..i] == arrivals;
    }
  }

  /** The pass functions on queues 0..i, from those on queues 0..i-1. */
  lemma RxPrefixStep(rings: RingMap, queues: seq<RxQueue>, due: seq<bool>, arrivals: seq<seq<Mbuf>>,
                     now: u64, row: seq<u64>, port: nat, i: nat)
    requires |due| == |queues| == |arrivals| <= |row| && i < |queues|
    ensures RxRings(rings, queues[..i + 1], due[..i + 1], arrivals[..i + 1]) ==
              match RxRings(rings, queues[..i], due[..i], arrivals[..i])
              case None => None
              case Some(r) => if due[i] then Deliver(r, queues[i].outPortId, arrivals[i]) else Some(r)
    ensures RxStamps(row, due[..i + 1], arrivals[..i + 1], now) ==
              var r := RxStamps(row, due[..i], arrivals[..i], now);
              if due[i] && 0 < |arrivals[i]| < MaxPktBurstRx then r[i := now] else r
    ensures RxLog(port, queues[..i + 1], due[..i + 1], arrivals[..i + 1]) ==
              RxLog(port, queues[..i], due[..i], arrivals[..i])
                + (if due[i] && |arrivals[i]| > 0 then [(port, queues[i].queueId as nat, |arrivals[i]|)] else [])
  {
    assert queues[..i + 1][..i] == queues[..i] && due[..i + 1][..i] == due[..i] && arrivals[..i + 1][..i] == arrivals[..i];
  }

  /** What one queue step of the pass keeps: the pass functions on queues 0..i-1 carry over to 0..i. */
  lemma PollAdvance(rings0: RingMap, conf: RxPortConf, due: seq<bool>, arrivals: seq<seq<Mbuf>>, now: u64, interval: u64,
                    row0: seq<u64>, stamps0: seq<seq<u64>>, pidx: nat, log0: seq<(nat, nat, nat)>, i: nat,
                    before: (RingMap, seq<seq<u64>>, seq<(nat, nat, nat)>),
                    after: (RingMap, seq<seq<u64>>, seq<(nat, nat, nat)>), ok: bool)
    requires |arrivals| == |conf.queues| && i < |arrivals| && pidx < |stamps0|
    requires row0 == stamps0[pidx] && |row0| == RxqMax && |arrivals| <= RxqMax
    requires due == RxDue(now, row0, |arrivals|, interval)
    requires RxRings(rings0, conf.queues[..i], due[..i], arrivals[..i]) == Some(before.0)
    requires before.1 == stamps0[pidx := RxStamps(row0, due[..i], arrivals[..i], now)]
    requires before.2 == log0 + RxLog(conf.portId, conf.queues[..i], due[..i], arrivals[..i])
    requires var q := conf.queues[i];
             var d := Due(now, before.1[pidx][i], interval);
             var b := arrivals[i];
             && (ok <==> !d || Deliver(before.0, q.outPortId, b).Some?)
             && (ok ==> after.0 == if d then Deliver(before.0, q.outPortId, b).value else before.0)
             && after.1 == (if d && 0 < |b| < MaxPktBurstRx then before.1[pidx := Restamp(before.1[pidx], i, now)] else before.1)
             && after.2 == before.2 + (if d && |b| > 0 then [(conf.portId, q.queueId as nat, |b|)] else [])
    ensures !ok ==> RxRings(rings0, conf.queues, due, arrivals).None?
    ensures ok ==> RxRings(rings0, conf.queues[..i + 1], due[..i + 1], arrivals[..i + 1]) == Some(after.0)
    ensures ok ==> after.1 == stamps0[pidx := RxStamps(row0, due[..i + 1], arrivals[..i + 1], now)]
    ensures ok ==> after.2 == log0 + RxLog(conf.portId, conf.queues[..i + 1], due[..i + 1], arrivals[..i + 1])
  {
    RxPrefixStep(rings0, conf.queues, due, arrivals, now, row0, conf.portId, i);
    assert before.1[pidx][i] == row0[i];
    if !ok {
      RxRingsStopped(rings0, conf.queues, due, arrivals, i + 1);
    }
  }

  class RxWorker {
    /** The lcore's parameters: its RX port list. */
    const lp: Lcore
    const rt: RingTable
    /** port_idx: the port of the next pass, before reduction modulo nb_ports. */
    var portIdx: nat
    /** last_poll_tsc[port_idx][queue]: uninitialised in the source, so arbitrary here. */
    var lastPoll: seq<seq<u64>>
    /** The daqswitch_rx_queue_stats updates: (port, queue id, packets) per counted burst. */
    ghost var rxLog: seq<(nat, nat, nat)>

    predicate Valid()
      reads this
    {
      && lp.ltype == DataRx
      && |lp.rxPorts| <= LcorePortMax
      && (forall j :: 0 <= j < |lp.rxPorts| ==> |lp.rxPorts[j].queues| <= RxqMax)
      && |lastPoll| == LcorePortMax
      && forall j :: 0 <= j < LcorePortMax ==> |lastPoll[j]| == RxqMax
    }

    constructor (lp: Lcore, rt: RingTable, stamps: seq<seq<u64>>)
      requires lp.ltype == DataRx && |lp.rxPorts| <= LcorePortMax
      requires forall j :: 0 <= j < |lp.rxPorts| ==> |lp.rxPorts[j].queues| <= RxqMax
      requires |stamps| == LcorePortMax && forall j :: 0 <= j < LcorePortMax ==> |stamps[j]| == RxqMax
      ensures Valid() && this.lp == lp && this.rt == rt && lastPoll == stamps && portIdx == 0 && rxLog == []
    {
      this.lp := lp;
      this.rt := rt;
      lastPoll := stamps;
      portIdx := 0;
      rxLog := [];
    }

    /**
     * One pass of dp_main_loop_lcore_data_rx: take port port_idx mod nb_ports
     * and poll each of its due queues, whose burst is arrivals[i]; false is a
     * crash on a ring that was never created. With no ports the loop returns.
     */
    method Pass(now: u64, interval: u64, arrivals: seq<seq<Mbuf>>) returns (ok: bool)
      requires Valid()
      requires |lp.rxPorts| > 0 ==> |arrivals| == |lp.rxPorts[portIdx % |lp.rxPorts|].queues|
      requires forall i :: 0 <= i < |arrivals| ==> |arrivals[i]| <= MaxPktBurstRx
      modifies this, rt
      ensures Valid()
      ensures |lp.rxPorts| == 0 ==> ok && rt.rings == old(rt.rings) && lastPoll == old(lastPoll) && rxLog == old(rxLog)
      ensures |lp.rxPorts| > 0 ==>
                var pidx := old(portIdx) % |lp.rxPorts|;
                var conf := lp.rxPorts[pidx];
                var due := RxDue(now, old(lastPoll)[pidx], |conf.queues|, interval);
                && (ok <==> RxRings(old(rt.rings), conf.queues, due, arrivals).Some?)
                && (ok ==> && rt.rings == RxRings(old(rt.rings), conf.queues, due, arrivals).value
                           && portIdx == pidx + 1
                           && lastPoll == old(lastPoll)[pidx := RxStamps(old(lastPoll)[pidx], due, arrivals, now)]
                           && rxLog == old(rxLog) + RxLog(conf.portId, conf.queues, due, arrivals))
    {
      if |lp.rxPorts| == 0 {
        return true;
      }
      var pidx := portIdx % |lp.rxPorts|;
      ok := PollQueues(pidx, now, interval, arrivals);
      if ok {
        portIdx := pidx + 1;
      }
    }

    /** The queue loop of one pass over port entry pidx. */
    method PollQueues(pidx: nat, now: u64, interval: u64, arrivals: seq<seq<Mbuf>>) returns (ok: bool)
      requires Valid() && pidx < |lp.rxPorts| && |arrivals| == |lp.rxPorts[pidx].queues|
      modifies this, rt
      ensures Valid() && portIdx == old(portIdx)
      ensures var conf := lp.rxPorts[pidx];
              var due := RxDue(now, old(lastPoll)[pidx], |conf.queues|, interval);
              && (ok <==> RxRings(old(rt.rings), conf.queues, due, arrivals).Some?)
              && (ok ==> && rt.rings == RxRings(old(rt.rings), conf.queues, due, arrivals).value
                         && lastPoll == old(lastPoll)[pidx := RxStamps(old(lastPoll)[pidx], due, arrivals, now)]
                         && rxLog == old(rxLog) + RxLog(conf.portId, conf.queues, due, arrivals))
    {
      var conf := lp.rxPorts[pidx];
      var queues := conf.queues;
      ghost var rings0 := rt.rings;
      ghost var row0 := lastPoll[pidx];
      ghost var due := RxDue(now, row0, |queues|, interval);
      ghost var log0 := rxLog;
      var i := 0;
      assert RxStamps(row0, due[..0], arrivals[..0], now) == row0;
      while i < |queues|
        invariant 0 <= i <= |queues| && Valid() && portIdx == old(portIdx) && lp.rxPorts[pidx] == conf
        invariant RxRings(rings0, queues[..i], due[..i], arrivals[..i]) == Some(rt.rings)
        invariant lastPoll == old(lastPoll)[pidx := RxStamps(row0, due[..i], arrivals[..i], now)]
        invariant rxLog == log0 + RxLog(conf.portId, queues[..i], due[..i], arrivals[..i])
      {
        ok := PollStep(pidx, i, now, interval, arrivals, rings0, row0, due, log0, old(lastPoll));
        if !ok {
          return false;
        }
        i := i + 1;
      }
      assert queues[..i] == queues && due[..i] == due && arrivals[..i] == arrivals;
      ok := true;
    }

    /** The queue loop's step: the pass functions on queues 0..i-1 carry over to 0..i. */
    method PollStep(pidx: nat, i: nat, now: u64, interval: u64, arrivals: seq<seq<Mbuf>>,
                    ghost rings0: RingMap, ghost row0: seq<u64>, ghost due: seq<bool>,
                    ghost log0: seq<(nat, nat, nat)>, ghost stamps0: seq<seq<u64>>) returns (ok: bool)
      requires Valid() && pidx < |lp.rxPorts| && |arrivals| == |lp.rxPorts[pidx].queues| && i < |arrivals|
      requires |stamps0| == LcorePortMax && row0 == stamps0[pidx] && |row0| == RxqMax
      requires due == RxDue(now, row0, |arrivals|, interval)
      requires RxRings(rings0, lp.rxPorts[pidx].queues[..i], due[..i], arrivals[..i]) == Some(rt.rings)
      requires lastPoll == stamps0[pidx := RxStamps(row0, due[..i], arrivals[..i], now)]
      requires rxLog == log0 + RxLog(lp.rxPorts[pidx].portId, lp.rxPorts[pidx].queues[..i], due[..i], arrivals[..i])
      modifies this, rt
      ensures Valid() && portIdx == old(portIdx)
      ensures !ok ==> RxRings(rings0, lp.rxPorts[pidx].queues, due, arrivals).None?
      ensures ok ==> RxRings(rings0, lp.rxPorts[pidx].queues[..i + 1], due[..i + 1], arrivals[..i + 1]) == Some(rt.rings)
      ensures ok ==> lastPoll == stamps0[pidx := RxStamps(row0, due[..i + 1], arrivals[..i + 1], now)]
      ensures ok ==> rxLog == log0 + RxLog(lp.rxPorts[pidx].portId, lp.rxPorts[pidx].queues[..i + 1], due[..i + 1], arrivals[..i + 1])
    {
      ghost var before := (rt.rings, lastPoll, rxLog);
      ok := PollQueue(pidx, i, now, interval, arrivals[i]);
      PollAdvance(rings0, lp.rxPorts[pidx], due, arrivals, now, interval, row0, stamps0, pidx, log0, i,
                  before, (rt.rings, lastPoll, rxLog), ok);
    }

    /**
     * One iteration of the queue loop: skip queue i of port entry pidx unless
     * due; count a non-empty burst b, refresh the stamp after a short one, and
     * enqueue it by runs on the rings of the queue's output port.
     */
    method PollQueue(pidx: nat, i: nat, now: u64, interval: u64, b: seq<Mbuf>) returns (ok: bool)
      requires Valid() && pidx < |lp.rxPorts| && i < |lp.rxPorts[pidx].queues|
      modifies this, rt
      ensures Valid() && portIdx == old(portIdx)
      ensures var q := lp.rxPorts[pidx].queues[i];
              var due := Due(now, old(lastPoll)[pidx][i], interval);
              && (ok <==> !due || Deliver(old(rt.rings), q.outPortId, b).Some?)
              && (ok ==> rt.rings == if due then Deliver(old(rt.rings), q.outPortId, b).value else old(rt.rings))
              && lastPoll == (if due && 0 < |b| < MaxPktBurstRx then old(lastPoll)[pidx := Restamp(old(lastPoll)[pidx], i, now)] else old(lastPoll))
              && rxLog == old(rxLog) + (if due && |b| > 0 then [(lp.rxPorts[pidx].portId, q.queueId as nat, |b|)] else [])
    {
      var q := lp.rxPorts[pidx].queues[i];
      if Sub64(now, lastPoll[pidx][i]) < interval {
        return true;
      }
      ok := true;
      if |b| > 0 {
        rxLog := rxLog + [(lp.rxPorts[pidx].portId, q.queueId as nat, |b|)];
        if |b| < MaxPktBurstRx {
          lastPoll := lastPoll[pidx := Restamp(lastPoll[pidx], i, now)];
        }
        ok := rt.EnqueueRuns(q.outPortId, b);
      } else {
        assert Deliver(rt.rings, q.outPortId, b) == Some(rt.rings);
      }
    }
  }

  // ---------------------------------------------------------------------
  // One pass of the data TX lcore

  /** What a TX pass has produced so far: rings, wire log, drain stamps of the port, tx statistics. */
  datatype TxOut = TxOut(rings: RingMap, sent: seq<Sent>, stamps: seq<u64>, log: seq<(nat, nat, nat)>)

  /** A flow is drained on every pass if it is a request flow, else once the drain interval has passed. */
  predicate Drains(flow: DataFlow, now: u64, last: u64, interval: u64)
  {
    flow.reqFlow || Sub64(now, last) > interval
  }

  /** Request flows leave on TX queue 1, data flows on TX queue 2. */
  function TxQueueOf(flow: DataFlow): (q: nat)
    ensures q == TxqIdReq || q == TxqIdData
    ensures q == TxqIdReq <==> flow.reqFlow
  {
    if flow.reqFlow then TxqIdReq else TxqIdData
  }

  /**
   * Flow i of the port: skipped unless its bit is set and it is due; then up
   * to 32 packets leave the front of ring (port, i) and all of them are sent,
   * in order, on the flow's TX queue, and a non-empty dequeue restamps the
   * flow. None is a dequeue from a ring that was never created.
   */
  function TxFlow(o: TxOut, port: nat, i: nat, active: set<nat>, flow: DataFlow, now: u64, interval: u64): Option<TxOut>
    requires i < |o.stamps|
  {
    if i !in active || !Drains(flow, now, o.stamps[i], interval) then Some(o)
    else if (port, i) !in o.rings then None
    else
      var ring := o.rings[(port, i)];
      var d := Min(MaxPktBurstTx, |ring|);
      if d == 0 then Some(o)
      else
        var q := TxQueueOf(flow);
        Some(TxOut(o.rings[(port, i) := ring[d..]], o.sent + SentAll(port, q, ring[..d]),
                   Restamp(o.stamps, i, now), o.log + [(port, q, d)]))
  }

  /** Flows 0..k-1 of the port, in order. */
  function TxFlows(o: TxOut, port: nat, active: set<nat>, flows: seq<DataFlow>, now: u64, interval: u64, k: nat): (r: Option<TxOut>)
    requires k <= |flows| == |o.stamps|
    ensures r.Some? ==> |r.value.stamps| == |o.stamps|
  {
    if k == 0 then Some(o)
    else
      match TxFlows(o, port, active, flows, now, interval, k - 1)
      case None => None
      case Some(o') => TxFlow(o', port, k - 1, active, flows[k - 1], now, interval)
  }

  lemma {:induction false} TxFlowsStopped(o: TxOut, port: nat, active: set<nat>, flows: seq<DataFlow>, now: u64, interval: u64, k: nat)
    requires k <= |flows| == |o.stamps|
    requires TxFlows(o, port, active, flows, now, interval, k).None?
    ensures TxFlows(o, port, active, flows, now, interval, |flows|).None?
    decreases |flows| - k
  {
    if k < |flows| {
      TxFlowsStopped(o, port, active, flows, now, interval, k + 1);
    }
  }

  class TxWorker {
    const dp: Datapath
    /** The index of this lcore in dp.lcores; its active_flows masks are read live. */
    const li: nat
    const rt: RingTable
    const wire: Wire
    /** port_idx: the port of the next pass, before reduction modulo nb_ports. */
    var portIdx: nat
    /** last_drain_tsc[port_idx][flow]: uninitialised in the source, so arbitrary here. */
    var lastDrain: seq<seq<u64>>
    /** The daqswitch_tx_queue_stats total_packets updates: (port, queue, nb_deq) per dequeue. */
    ghost var txLog: seq<(nat, nat, nat)>

    predicate Valid()
      reads this, dp
    {
      && li < |dp.lcores| && dp.lcores[li].ltype == DataTx
      && |dp.lcores[li].txPorts| <= LcorePortMax
      && (forall j :: 0 <= j < |dp.lcores[li].txPorts| ==> dp.lcores[li].txPorts[j].portId < MaxPorts)
      && |dp.flows| == MaxPorts && (forall p :: 0 <= p < MaxPorts ==> |dp.flows[p]| == MaxDataFlows)
      && |lastDrain| == LcorePortMax
      && forall j :: 0 <= j < LcorePortMax ==> |lastDrain[j]| == MaxDataFlows
    }

    constructor (dp: Datapath, li: nat, rt: RingTable, wire: Wire, stamps: seq<seq<u64>>)
      requires li < |dp.lcores| && dp.lcores[li].ltype == DataTx && |dp.lcores[li].txPorts| <= LcorePortMax
      requires forall j :: 0 <= j < |dp.lcores[li].txPorts| ==> dp.lcores[li].txPorts[j].portId < MaxPorts
      requires |dp.flows| == MaxPorts && forall p :: 0 <= p < MaxPorts ==> |dp.flows[p]| == MaxDataFlows
      requires |stamps| == LcorePortMax && forall j :: 0 <= j < LcorePortMax ==> |stamps[j]| == MaxDataFlows
      ensures Valid() && this.dp == dp && this.li == li && this.rt == rt && this.wire == wire
      ensures lastDrain == stamps && portIdx == 0 && txLog == []
    {
      this.dp := dp;
      this.li := li;
      this.rt := rt;
      this.wire := wire;
      lastDrain := stamps;
      portIdx := 0;
      txLog := [];
    }

    function Entry(pidx: nat): TxPortConf
      requires Valid() && pidx < |dp.lcores[li].txPorts|
      reads this, dp
    {
      dp.lcores[li].txPorts[pidx]
    }

    /**
     * One pass of dp_main_loop_lcore_data_tx: take port port_idx mod
     * nb_ports and drain its active, due flows; false is a crash on a ring
     * that was never created. With no ports the loop returns.
     */
    method Pass(now: u64, interval: u64) returns (ok: bool)
      requires Valid()
      modifies this, rt, wire
      ensures Valid()
      ensures |dp.lcores[li].txPorts| == 0 ==>
                ok && rt.rings == old(rt.rings) && wire.log == old(wire.log) && lastDrain == old(lastDrain)
      ensures |dp.lcores[li].txPorts| > 0 ==>
                var pidx := old(portIdx) % |dp.lcores[li].txPorts|;
                var e := Entry(pidx);
                var spec := TxFlows(TxOut(old(rt.rings), old(wire.log), old(lastDrain)[pidx], old(txLog)),
                                    e.portId, e.activeFlows, dp.flows[e.portId], now, interval, MaxDataFlows);
                && (ok <==> spec.Some?)
                && (ok ==> && rt.rings == spec.value.rings && wire.log == spec.value.sent
                           && lastDrain == old(lastDrain)[pidx := spec.value.stamps]
                           && txLog == spec.value.log && portIdx == pidx + 1)
    {
      if |dp.lcores[li].txPorts| == 0 {
        return true;
      }
      var pidx := portIdx % |dp.lcores[li].txPorts|;
      ok := DrainFlows(pidx, now, interval);
      if ok {
        portIdx := pidx + 1;
      }
    }

    /** The flow loop of one pass over port entry pidx. */
    method DrainFlows(pidx: nat, now: u64, interval: u64) returns (ok: bool)
      requires Valid() && pidx < |dp.lcores[li].txPorts|
      modifies this, rt, wire
      ensures Valid() && portIdx == old(portIdx)
      ensures var e := Entry(pidx);
              var spec := TxFlows(TxOut(old(rt.rings), old(wire.log), old(lastDrain)[pidx], old(txLog)),
                                  e.portId, e.activeFlows, dp.flows[e.portId], now, interval, MaxDataFlows);
              && (ok <==> spec.Some?)
              && (ok ==> && rt.rings == spec.value.rings && wire.log == spec.value.sent
                         && lastDrain == old(lastDrain)[pidx := spec.value.stamps] && txLog == spec.value.log)
    {
      var e := dp.lcores[li].txPorts[pidx];
      var flows := dp.flows[e.portId];
      ghost var o0 := TxOut(rt.rings, wire.log, lastDrain[pidx], txLog);
      var i := 0;
      while i < MaxDataFlows
        invariant 0 <= i <= MaxDataFlows && Valid() && portIdx == old(portIdx)
        invariant TxFlows(o0, e.portId, e.activeFlows, flows, now, interval, i)
                    == Some(TxOut(rt.rings, wire.log, lastDrain[pidx], txLog))
        invariant lastDrain == old(lastDrain)[pidx := lastDrain[pidx]]
      {
        ok := DrainFlow(pidx, i, now, interval);
        if !ok {
          TxFlowsStopped(o0, e.portId, e.activeFlows, flows, now, interval, i + 1);
          return false;
        }
        i := i + 1;
      }
      ok := true;
    }

    /** One iteration of the flow loop: flow i of port entry pidx. */
    method DrainFlow(pidx: nat, i: nat, now: u64, interval: u64) returns (ok: bool)
      requires Valid() && pidx < |dp.lcores[li].txPorts| && i < MaxDataFlows
      modifies this, rt, wire
      ensures Valid() && portIdx == old(portIdx)
      ensures var e := Entry(pidx);
              var spec := TxFlow(TxOut(old(rt.rings), old(wire.log), old(lastDrain)[pidx], old(txLog)),
                                 e.portId, i, e.activeFlows, dp.flows[e.portId][i], now, interval);
              && (ok <==> spec.Some?)
              && (ok ==> && rt.rings == spec.value.rings && wire.log == spec.value.sent
                         && lastDrain == old(lastDrain)[pidx := spec.value.stamps] && txLog == spec.value.log)
    {
      var e := dp.lcores[li].txPorts[pidx];
      var port := e.portId;
      if i !in e.activeFlows {
        return true;
      }
      var flow := dp.flows[port][i];
      if !(flow.reqFlow || Sub64(now, lastDrain[pidx][i]) > interval) {
        return true;
      }
      if (port, i) !in rt.rings {
        return false;
      }
      var deq := rt.DequeueBurst((port, i), MaxPktBurstTx);
      ok := true;
      if |deq| > 0 {
        var q := if flow.reqFlow then TxqIdReq else TxqIdData;
        txLog := txLog + [(port, q, |deq|)];
        wire.TransmitAll(port, q, deq);
        lastDrain := lastDrain[pidx := Restamp(lastDrain[pidx], i, now)];
      } else {
        assert rt.rings == old(rt.rings);
      }
    }
  }
}
