/**
 * The forwarding path of the oq_hwq datapath (dp_oq_hwq.c): every lcore
 * polls its RX queues, looks up each IPv4 packet's destination address in
 * its socket's LPM table (falling back to the input port), groups runs of
 * packets bound for the same port, and hands each run to that port's TX
 * buffer. A buffer transmits as soon as it holds a full burst of 32, a run
 * of 16 or more finding it empty is transmitted directly, and the periodic
 * drain transmits whatever is left.
 */
module OqTx {
  import opened Opt
  import opened Bytes
  import Lpm
  import opened VoqSwqDefs
  import opened Rings
  import opened DataLcores

  const MaxPktBurst: nat := 32
  const MaxTxBurst: nat := 16
  const FwdStep: nat := 4
  const BadPort: nat := 0xffff

  /** A received packet: its buffer, the NIC's PKT_RX_IPV4_HDR flag and its frame. */
  datatype RxPkt = RxPkt(m: Mbuf, ipv4: bool, frame: seq<byte>)

  /** A burst read from one RX queue of input port portid. */
  datatype RxBurst = RxBurst(portid: byte, pkts: seq<RxPkt>)

  /** The frame is long enough to hold an Ethernet and an IPv4 header. */
  predicate Framed(pkt: RxPkt)
  {
    |pkt.frame| >= 34
  }

  /** The IPv4 destination address (offset 14 + 16) in host byte order. */
  function DstIpv4(pkt: RxPkt): (ip: u32)
    requires Framed(pkt)
  {
    Be16(pkt.frame[30], pkt.frame[31]) * 0x1_0000 + Be16(pkt.frame[32], pkt.frame[33])
  }

  /**
   * get_dst_port: an IPv4 packet whose address has a route goes to the
   * route's next hop; every other packet goes back out of its input port.
   */
  function GetDstPort(routes: map<u32, nat>, pkt: RxPkt, dip: u32, portid: byte): (r: nat)
    ensures pkt.ipv4 && dip in routes ==> r == routes[dip]
    ensures !(pkt.ipv4 && dip in routes) ==> r == portid as nat
  {
    if pkt.ipv4 then
      match Lpm.Lookup(routes, dip)
      case Some(hop) => hop
      case None => portid as nat
    else portid as nat
  }

  /** process_packet: the output port of one packet. */
  function ProcessPacket(routes: map<u32, nat>, pkt: RxPkt, portid: byte): nat
    requires Framed(pkt)
  {
    GetDstPort(routes, pkt, DstIpv4(pkt), portid)
  }

  /** rte_lpm_lookupx4: four lookups, a miss giving the default value. */
  function LookupX4(routes: map<u32, nat>, dips: seq<u32>, defv: nat): (r: seq<nat>)
    requires |dips| == FwdStep
    ensures |r| == FwdStep
    ensures forall i :: 0 <= i < FwdStep ==> (dips[i] in routes ==> r[i] == routes[dips[i]]) && (dips[i] !in routes ==> r[i] == defv)
  {
    seq(FwdStep, i requires 0 <= i < FwdStep => if dips[i] in routes then routes[dips[i]] else defv)
  }

  /**
   * processx4_step1 and processx4_step2: when the IPv4 flags of all four
   * packets are set (the AND of their ol_flags), one four-lane lookup;
   * otherwise four get_dst_port calls. Either way each packet gets the port
   * process_packet would give it.
   */
  function ProcessX4(routes: map<u32, nat>, pkts: seq<RxPkt>, portid: byte): (r: seq<nat>)
    requires |pkts| == FwdStep && forall i :: 0 <= i < FwdStep ==> Framed(pkts[i])
    ensures |r| == FwdStep && forall i :: 0 <= i < FwdStep ==> r[i] == ProcessPacket(routes, pkts[i], portid)
  {
    var dips := seq(FwdStep, i requires 0 <= i < FwdStep => DstIpv4(pkts[i]));
    if pkts[0].ipv4 && pkts[1].ipv4 && pkts[2].ipv4 && pkts[3].ipv4 then
      LookupX4(routes, dips, portid as nat)
    else
      seq(FwdStep, i requires 0 <= i < FwdStep => GetDstPort(routes, pkts[i], dips[i], portid))
  }

  /** Every packet of a burst is framed. */
  predicate AllFramed(pkts: seq<RxPkt>)
  {
    forall i :: 0 <= i < |pkts| ==> Framed(pkts[i])
  }

  /** The output port of every packet of a burst. */
  function DstList(routes: map<u32, nat>, b: RxBurst): (r: seq<nat>)
    requires AllFramed(b.pkts)
    ensures |r| == |b.pkts|
  {
    seq(|b.pkts|, i requires 0 <= i < |b.pkts| => ProcessPacket(routes, b.pkts[i], b.portid))
  }

  /** The buffers of a burst's packets. */
  function Mbufs(pkts: seq<RxPkt>): (ms: seq<Mbuf>)
    ensures |ms| == |pkts| && forall i :: 0 <= i < |pkts| ==> ms[i] == pkts[i].m
  {
    seq(|pkts|, i requires 0 <= i < |pkts| => pkts[i].m)
  }

  /**
   * The lookup phase of the main loop: groups of four through processx4
   * while at least four packets remain (RTE_ALIGN_FLOOR), then the last
   * zero to three one by one.
   */
  method DstPorts(routes: map<u32, nat>, pkts: seq<RxPkt>, portid: byte) returns (dst: seq<nat>)
    requires forall i :: 0 <= i < |pkts| ==> Framed(pkts[i])
    ensures dst == DstList(routes, RxBurst(portid, pkts))
  {
    var k := |pkts| / FwdStep * FwdStep;
    dst := [];
    var j := 0;
    while j != k
      invariant j % FwdStep == 0 && j <= k && |dst| == j
      invariant forall i :: 0 <= i < j ==> dst[i] == ProcessPacket(routes, pkts[i], portid)
      decreases k - j
    {
      var four := ProcessX4(routes, pkts[j..j + FwdStep], portid);
      assert forall i :: j <= i < j + FwdStep ==> (dst + four)[i] == ProcessPacket(routes, pkts[i], portid);
      dst := dst + four;
      j := j + FwdStep;
    }
    while j < |pkts|
      invariant k <= j <= |pkts| && |dst| == j
      invariant forall i :: 0 <= i < j ==> dst[i] == ProcessPacket(routes, pkts[i], portid)
    {
      dst := dst + [ProcessPacket(routes, pkts[j], portid)];
      j := j + 1;
    }
  }

  // ---------------------------------------------------------------- grouping

  /** Packet i starts a run of packets with the same output port. */
  predicate RunStart(dst: seq<nat>, i: nat)
    requires i < |dst|
  {
    i == 0 || dst[i - 1] != dst[i]
  }

  /** The length of the run of equal ports starting at i, within dst[..n]. */
  function RunLenTo(dst: seq<nat>, i: nat, n: nat): (r: nat)
    requires i < n <= |dst|
    ensures 1 <= r <= n - i
    decreases n - i
  {
    if i + 1 < n && dst[i + 1] == dst[i] then 1 + RunLenTo(dst, i + 1, n) else 1
  }

  /** The length of the run of equal ports starting at i. */
  function RunLen(dst: seq<nat>, i: nat): (r: nat)
    requires i < |dst|
  {
    RunLenTo(dst, i, |dst|)
  }

  /** A run is maximal: all its ports equal the first, and the next packet's port differs. */
  lemma {:induction false} RunLenSpan(dst: seq<nat>, i: nat, n: nat)
    requires i < n <= |dst|
    ensures forall k :: i <= k < i + RunLenTo(dst, i, n) ==> dst[k] == dst[i]
    ensures i + RunLenTo(dst, i, n) < n ==> dst[i + RunLenTo(dst, i, n)] != dst[i]
    decreases n - i
  {
    if i + 1 < n && dst[i + 1] == dst[i] {
      RunLenSpan(dst, i + 1, n);
    }
  }

  /** Extending the window by one packet extends exactly the run still open at its end. */
  lemma {:induction false} RunLenToStep(dst: seq<nat>, i: nat, j: nat)
    requires i < j < |dst|
    ensures RunLenTo(dst, i, j + 1) ==
            if RunLenTo(dst, i, j) == j - i && dst[j] == dst[j - 1] then j - i + 1 else RunLenTo(dst, i, j)
    decreases j - i
  {
    if i + 1 < j {
      RunLenToStep(dst, i + 1, j);
    }
  }

  /**
   * What GROUP_PORT_STEP keeps after the first j packets: lp is the start of
   * the run still open, and every run start i < j holds the length of its run
   * within the first j packets, which is final unless i is lp.
   */
  ghost predicate Grouped(dst: seq<nat>, pnum: seq<nat>, lp: nat, j: nat)
    requires j <= |dst| == |pnum|
  {
    && (j > 0 ==> lp < j && RunStart(dst, lp) && RunLenTo(dst, lp, j) == j - lp)
    && forall i :: 0 <= i < j && RunStart(dst, i) ==>
         pnum[i] == RunLenTo(dst, i, j) && (i == lp || RunLenTo(dst, i, j) < j - i)
  }

  /** One GROUP_PORT_STEP: grow the open run, or open a new one at j with count 1. */
  lemma GroupStep(dst: seq<nat>, pnum: seq<nat>, lp: nat, j: nat)
    requires j < |dst| == |pnum| && Grouped(dst, pnum, lp, j)
    ensures j > 0 && dst[j] == dst[j - 1] ==> Grouped(dst, pnum[lp := pnum[lp] + 1], lp, j + 1)
    ensures !(j > 0 && dst[j] == dst[j - 1]) ==> Grouped(dst, pnum[j := 1], j, j + 1)
  {
    forall i | 0 <= i < j {
      RunLenToStep(dst, i, j);
    }
  }

  /**
   * The grouping phase (GROUP_PORT_STEP over every packet; the four-at-a-time
   * port_groupx4 computes the same counts): pnum at the start of every run
   * holds the run's length. dlp starts at BAD_PORT - 1, a value no output
   * port takes.
   */
  method GroupPorts(dst: seq<nat>) returns (pnum: seq<nat>)
    requires forall i :: 0 <= i < |dst| ==> dst[i] < BadPort - 1
    ensures |pnum| == |dst|
    ensures forall i :: 0 <= i < |dst| && RunStart(dst, i) ==> pnum[i] == RunLen(dst, i)
  {
    pnum := seq(|dst|, _ => 0);
    var dlp: nat := BadPort - 1;
    var lp: nat := 0;
    var j := 0;
    while j < |dst|
      invariant j <= |dst| == |pnum|
      invariant j > 0 ==> dlp == dst[j - 1]
      invariant j == 0 ==> dlp == BadPort - 1
      invariant Grouped(dst, pnum, lp, j)
    {
      GroupStep(dst, pnum, lp, j);
      if dlp == dst[j] {
        pnum := pnum[lp := pnum[lp] + 1];
      } else {
        dlp := dst[j];
        lp := j;
        pnum := pnum[lp := 1];
      }
      j := j + 1;
    }
  }

  // ------------------------------------------------------------ per-port view

  /** The packets of a transmit log that went out on port p, in order. */
  function LogOn(log: seq<Sent>, p: nat): (r: seq<Mbuf>)
    ensures |r| <= |log|
  {
    if log == [] then []
    else LogOn(log[..|log| - 1], p) + (if log[|log| - 1].port == p then [log[|log| - 1].pkt] else [])
  }

  /** The per-port view of a log distributes over appending. */
  lemma {:induction false} LogOnAppend(a: seq<Sent>, b: seq<Sent>, p: nat)
    ensures LogOn(a + b, p) == LogOn(a, p) + LogOn(b, p)
    decreases |b|
  {
    if b != [] {
      assert (a + b)[..|a + b| - 1] == a + b[..|b| - 1];
      assert (a + b)[|a + b| - 1] == b[|b| - 1];
      LogOnAppend(a, b[..|b| - 1], p);
    } else {
      assert a + b == a;
    }
  }

  /** A transmission on one port shows up on that port only, whole and in order. */
  lemma {:induction false} LogOnSentAll(port: nat, queue: nat, pkts: seq<Mbuf>, p: nat)
    ensures LogOn(SentAll(port, queue, pkts), p) == if port == p then pkts else []
    decreases |pkts|
  {
    if pkts != [] {
      var init := pkts[..|pkts| - 1];
      assert SentAll(port, queue, pkts)[..|pkts| - 1] == SentAll(port, queue, init);
      LogOnSentAll(port, queue, init, p);
      assert init + [pkts[|pkts| - 1]] == pkts;
    }
  }

  /** The packets among the first k of a burst whose output port is p, in order. */
  function ToPortUpTo(ms: seq<Mbuf>, dst: seq<nat>, k: nat, p: nat): (r: seq<Mbuf>)
    requires k <= |ms| && k <= |dst|
    ensures |r| <= k
  {
    if k == 0 then [] else ToPortUpTo(ms, dst, k - 1, p) + (if dst[k - 1] == p then [ms[k - 1]] else [])
  }

  /** A run of packets with one output port adds the whole run to that port only. */
  lemma {:induction false} ToPortRun(ms: seq<Mbuf>, dst: seq<nat>, j: nat, n: nat, p: nat)
    requires j + n <= |ms| == |dst|
    requires forall k :: j <= k < j + n ==> dst[k] == dst[j]
    ensures ToPortUpTo(ms, dst, j + n, p) == ToPortUpTo(ms, dst, j, p) + (if j < |dst| && dst[j] == p then ms[j..j + n] else [])
  {
    if n > 0 {
      ToPortRun(ms, dst, j, n - 1, p);
      if dst[j] == p {
        assert ms[j..j + n] == ms[j..j + n - 1] + [ms[j + n - 1]];
      }
    }
  }

  /**
   * Every packet of the first k has exactly one output port: the per-port
   * lists of a burst together hold k packets.
   */
  lemma {:induction false} ToPortTotal(ms: seq<Mbuf>, dst: seq<nat>, k: nat, n: nat)
    requires k <= |ms| && k <= |dst|
    requires forall i :: 0 <= i < k ==> dst[i] < n
    ensures PortsTotal(ms, dst, k, n) == k
  {
    if k > 0 {
      ToPortTotal(ms, dst, k - 1, n);
      PortsTotalStep(ms, dst, k, n);
    } else {
      PortsTotalNone(ms, dst, n);
    }
  }

  lemma {:induction false} PortsTotalNone(ms: seq<Mbuf>, dst: seq<nat>, n: nat)
    ensures PortsTotal(ms, dst, 0, n) == 0
  {
    if n > 0 {
      PortsTotalNone(ms, dst, n - 1);
    }
  }

  /** The total length of the per-port lists of ports 0..n-1. */
  function PortsTotal(ms: seq<Mbuf>, dst: seq<nat>, k: nat, n: nat): nat
    requires k <= |ms| && k <= |dst|
  {
    if n == 0 then 0 else PortsTotal(ms, dst, k, n - 1) + |ToPortUpTo(ms, dst, k, n - 1)|
  }

  lemma {:induction false} PortsTotalStep(ms: seq<Mbuf>, dst: seq<nat>, k: nat, n: nat)
    requires 0 < k <= |ms| && k <= |dst|
    ensures PortsTotal(ms, dst, k, n) == PortsTotal(ms, dst, k - 1, n) + (if dst[k - 1] < n then 1 else 0)
  {
    if n > 0 {
      PortsTotalStep(ms, dst, k, n - 1);
    }
  }

  /** The per-port lists of every port, for the first k packets. */
  function ToPorts(ms: seq<Mbuf>, dst: seq<nat>, k: nat, n: nat): (r: seq<seq<Mbuf>>)
    requires k <= |ms| && k <= |dst|
    ensures |r| == n && forall p :: 0 <= p < n ==> r[p] == ToPortUpTo(ms, dst, k, p)
  {
    seq(n, p requires 0 <= p < n => ToPortUpTo(ms, dst, k, p))
  }

  /** Port by port, a sequence of additions followed by another. */
  function Plus(a: seq<seq<Mbuf>>, b: seq<seq<Mbuf>>): (r: seq<seq<Mbuf>>)
    requires |a| == |b|
    ensures |r| == |a| && forall p :: 0 <= p < |a| ==> r[p] == a[p] + b[p]
  {
    seq(|a|, p requires 0 <= p < |a| => a[p] + b[p])
  }

  /** No additions on any of n ports. */
  function NoneAdded(n: nat): (r: seq<seq<Mbuf>>)
    ensures |r| == n && forall p :: 0 <= p < n ==> r[p] == []
  {
    seq(n, _ => [])
  }

  /**
   * Packet conservation between two states of the transmit side: on every
   * port, what went out plus what waits in the buffer grew by exactly added,
   * in order.
   */
  ghost predicate Accounted(log0: seq<Sent>, pend0: seq<seq<Mbuf>>, log: seq<Sent>, pend: seq<seq<Mbuf>>, added: seq<seq<Mbuf>>)
  {
    |pend0| == |pend| == |added|
    && forall p :: 0 <= p < |pend| ==> AccountedAt(log0, pend0, log, pend, added, p)
  }

  /** Packet conservation on port p. */
  ghost predicate AccountedAt(log0: seq<Sent>, pend0: seq<seq<Mbuf>>, log: seq<Sent>, pend: seq<seq<Mbuf>>, added: seq<seq<Mbuf>>, p: nat)
    requires p < |pend0| && p < |pend| && p < |added|
  {
    LogOn(log, p) + pend[p] == LogOn(log0, p) + pend0[p] + added[p]
  }

  /** Conservation composes. */
  lemma AccountedTrans(log0: seq<Sent>, pend0: seq<seq<Mbuf>>, log1: seq<Sent>, pend1: seq<seq<Mbuf>>,
                       log2: seq<Sent>, pend2: seq<seq<Mbuf>>, a: seq<seq<Mbuf>>, b: seq<seq<Mbuf>>)
    requires Accounted(log0, pend0, log1, pend1, a) && Accounted(log1, pend1, log2, pend2, b)
    ensures Accounted(log0, pend0, log2, pend2, Plus(a, b))
  {
    forall p | 0 <= p < |pend2| ensures AccountedAt(log0, pend0, log2, pend2, Plus(a, b), p) {
      assert AccountedAt(log0, pend0, log1, pend1, a, p) && AccountedAt(log1, pend1, log2, pend2, b, p);
      assert LogOn(log2, p) + pend2[p] == LogOn(log0, p) + pend0[p] + a[p] + b[p];
    }
  }

  // ------------------------------------------------------------ TX buffering

  /**
   * What send_packetsx4 transmits of a run m handed to a buffer holding b:
   * the run itself when it is at least MAX_TX_BURST long and the buffer is
   * empty, a full burst of MAX_PKT_BURST when the run fills the buffer,
   * nothing otherwise.
   */
  function Flushed(b: seq<Mbuf>, m: seq<Mbuf>): seq<Mbuf>
  {
    if |m| >= MaxTxBurst && |b| == 0 then m
    else if |b| + |m| >= MaxPktBurst then (b + m)[..MaxPktBurst]
    else []
  }

  /** What the buffer holds afterwards. */
  function Kept(b: seq<Mbuf>, m: seq<Mbuf>): seq<Mbuf>
  {
    if |m| >= MaxTxBurst && |b| == 0 then []
    else if |b| + |m| >= MaxPktBurst then (b + m)[MaxPktBurst..]
    else b + m
  }

  /** Nothing is dropped, duplicated or reordered: sent, then kept, is the buffer, then the run. */
  lemma FlushKeeps(b: seq<Mbuf>, m: seq<Mbuf>)
    ensures Flushed(b, m) + Kept(b, m) == b + m
  {
  }

  /**
   * A buffer with room and a run of at most a burst: the buffer keeps room,
   * and a transmission is never shorter than MAX_TX_BURST.
   */
  lemma FlushBounds(b: seq<Mbuf>, m: seq<Mbuf>)
    requires |b| < MaxPktBurst && |m| <= MaxPktBurst
    ensures |Kept(b, m)| < MaxPktBurst
    ensures Flushed(b, m) != [] ==> |Flushed(b, m)| >= MaxTxBurst
    ensures Flushed(b, m) == [] ==> Kept(b, m) == b + m
  {
  }

  /** The buffers with port d's contents replaced by v. */
  function Put(pend: seq<seq<Mbuf>>, d: nat, v: seq<Mbuf>): (r: seq<seq<Mbuf>>)
    requires d < |pend|
    ensures |r| == |pend| && r[d] == v && forall p :: 0 <= p < |pend| && p != d ==> r[p] == pend[p]
  {
    pend[d := v]
  }

  /**
   * One port's account after port d transmits sent and keeps kept, where
   * sent, then kept, is what port d's buffer held, then run: the run lands
   * on port d only.
   */
  lemma OnPort(log: seq<Sent>, pend: seq<seq<Mbuf>>, d: nat, queue: nat, sent: seq<Mbuf>, kept: seq<Mbuf>, run: seq<Mbuf>, p: nat)
    requires d < |pend| && p < |pend| && sent + kept == pend[d] + run
    ensures LogOn(log + SentAll(d, queue, sent), p) + Put(pend, d, kept)[p]
            == LogOn(log, p) + pend[p] + (if d == p then run else [])
  {
    LogOnAppend(log, SentAll(d, queue, sent), p);
    LogOnSentAll(d, queue, sent, p);
    if p != d {
      assert LogOn(log + SentAll(d, queue, sent), p) == LogOn(log, p) + [];
    } else {
      assert LogOn(log + SentAll(d, queue, sent), p) + kept == LogOn(log, p) + (sent + kept);
    }
  }

  /** Adding a run (packets j..e-1 of a burst, all for one port) to every port's conservation account. */
  lemma AccountedRun(log0: seq<Sent>, pend0: seq<seq<Mbuf>>, log: seq<Sent>, pend: seq<seq<Mbuf>>,
                     ms: seq<Mbuf>, dst: seq<nat>, j: nat, e: nat, run: seq<Mbuf>, queue: nat)
    requires j < e <= |ms| == |dst| && dst[j] < |pend| && run == ms[j..e]
    requires forall k :: j <= k < e ==> dst[k] == dst[j]
    requires Accounted(log0, pend0, log, pend, ToPorts(ms, dst, j, |pend|))
    ensures Accounted(log0, pend0,
                      log + SentAll(dst[j], queue, Flushed(pend[dst[j]], run)),
                      Put(pend, dst[j], Kept(pend[dst[j]], run)),
                      ToPorts(ms, dst, e, |pend|))
  {
    var d := dst[j];
    FlushKeeps(pend[d], run);
    forall p | 0 <= p < |pend|
      ensures AccountedAt(log0, pend0, log + SentAll(d, queue, Flushed(pend[d], run)),
                          Put(pend, d, Kept(pend[d], run)), ToPorts(ms, dst, e, |pend|), p)
    {
      OnPort(log, pend, d, queue, Flushed(pend[d], run), Kept(pend[d], run), run, p);
      ToPortRun(ms, dst, j, e - j, p);
      assert AccountedAt(log0, pend0, log, pend, ToPorts(ms, dst, j, |pend|), p);
    }
  }

  /** A buffer moved wholly onto the log at port k, the others untouched. */
  lemma AccountedDrainStep(log0: seq<Sent>, pend0: seq<seq<Mbuf>>, log: seq<Sent>, pend: seq<seq<Mbuf>>, k: nat, queue: nat)
    requires k < |pend| && Accounted(log0, pend0, log, pend, NoneAdded(|pend|))
    ensures Accounted(log0, pend0, log + SentAll(k, queue, pend[k]), Put(pend, k, []), NoneAdded(|pend|))
  {
    forall p | 0 <= p < |pend|
      ensures AccountedAt(log0, pend0, log + SentAll(k, queue, pend[k]), Put(pend, k, []), NoneAdded(|pend|), p)
    {
      assert AccountedAt(log0, pend0, log, pend, NoneAdded(|pend|), p);
      OnPort(log, pend, k, queue, pend[k], [], [], p);
    }
  }

  /** A state accounts for itself with nothing added. */
  lemma AccountedRefl(log: seq<Sent>, pend: seq<seq<Mbuf>>)
    ensures Accounted(log, pend, log, pend, NoneAdded(|pend|))
  {
    forall p | 0 <= p < |pend| ensures AccountedAt(log, pend, log, pend, NoneAdded(|pend|), p) {
      assert LogOn(log, p) + pend[p] + [] == LogOn(log, p) + pend[p];
    }
  }

  /** Copying src into a[at..at + |src|], the rest of a unchanged (the unrolled copy loops). */
  method CopyInto(a: array<Mbuf>, at: nat, src: seq<Mbuf>)
    requires at + |src| <= a.Length
    modifies a
    ensures a[..at + |src|] == old(a[..at]) + src
  {
    var j := 0;
    while j < |src|
      invariant j <= |src|
      invariant a[..at + j] == old(a[..at]) + src[..j]
    {
      a[at + j] := src[j];
      assert a[..at + j + 1] == a[..at + j] + [src[j]];
      assert src[..j + 1] == src[..j] + [src[j]];
      j := j + 1;
    }
    assert src[..j] == src;
  }

  /** tx_mbufs[port]: up to a burst of packets waiting for one output port. */
  class TxBuffer {
    var len: nat
    const table: array<Mbuf>

    ghost predicate Valid()
      reads this
    {
      table.Length == MaxPktBurst && len < MaxPktBurst
    }

    /** The waiting packets, oldest first. */
    ghost function Pending(): seq<Mbuf>
      reads this, table
      requires Valid()
    {
      table[..len]
    }

    constructor ()
      ensures Valid() && Pending() == [] && fresh(table)
    {
      len := 0;
      table := new Mbuf[MaxPktBurst](_ => Mbuf(0, 0));
    }

    /**
     * send_packetsx4: transmit the run directly, or append what fits to the
     * buffer, transmit the full buffer and keep the rest of the run. The
     * transmissions retry until the NIC has taken every packet.
     */
    method SendPacketsX4(wire: Wire, port: nat, queue: nat, m: seq<Mbuf>)
      requires Valid() && |m| <= MaxPktBurst
      modifies this, table, wire
      ensures Valid()
      ensures wire.log == old(wire.log) + SentAll(port, queue, Flushed(old(Pending()), m))
      ensures Pending() == Kept(old(Pending()), m)
    {
      if |m| >= MaxTxBurst && len == 0 {
        wire.TransmitAll(port, queue, m);
        return;
      }
      ghost var b := table[..len];
      var n := if len + |m| > MaxPktBurst then MaxPktBurst - len else |m|;
      CopyInto(table, len, m[..n]);
      if len + n == MaxPktBurst {
        assert table[..] == b + m[..n] == (b + m)[..MaxPktBurst];
        wire.TransmitAll(port, queue, table[..]);
        CopyInto(table, 0, m[n..]);
        len := |m| - n;
        assert (b + m)[MaxPktBurst..] == m[n..];
      } else {
        len := len + n;
        assert m[..n] == m;
      }
    }

    /** The drain's send_burst of the whole buffer, then len = 0. */
    method Flush(wire: Wire, port: nat, queue: nat)
      requires Valid() && len > 0
      modifies this, wire
      ensures Valid() && Pending() == []
      ensures wire.log == old(wire.log) + SentAll(port, queue, old(Pending()))
    {
      wire.TransmitAll(port, queue, table[..len]);
      len := 0;
    }
  }

  /** The additions of the bursts read from the first k RX queues, port by port, for n ports. */
  function RoutedAll(routes: map<u32, nat>, rx: seq<RxBurst>, k: nat, n: nat): (r: seq<seq<Mbuf>>)
    requires k <= |rx| && forall i :: 0 <= i < |rx| ==> Forwardable(rx[i])
    ensures |r| == n
  {
    if k == 0 then NoneAdded(n)
    else
      var b := rx[k - 1];
      Plus(RoutedAll(routes, rx, k - 1, n), ToPorts(Mbufs(b.pkts), DstList(routes, b), |b.pkts|, n))
  }

  /** Nothing added, then a: a. */
  lemma PlusNone(a: seq<seq<Mbuf>>)
    ensures Plus(NoneAdded(|a|), a) == a
  {
    forall p | 0 <= p < |a| ensures Plus(NoneAdded(|a|), a)[p] == a[p] {
      assert [] + a[p] == a[p];
    }
  }

  /** A burst the lcore can forward: at most MAX_PKT_BURST framed packets from a port in range. */
  predicate Forwardable(b: RxBurst)
  {
    |b.pkts| <= MaxPktBurst && AllFramed(b.pkts) && (b.portid as nat) < MaxPorts
  }

  /** Every next hop of a table is a port in range. */
  predicate HopsInRange(routes: map<u32, nat>)
  {
    forall ip :: ip in routes ==> routes[ip] < MaxPorts
  }

  /**
   * The forwarding state of one lcore (its lcore_conf): the ports of its RX
   * queues (rx_queue_list, always queue 0), the TX queue it uses on every
   * port (tx_queue_id), a TX buffer per port (tx_mbufs) and the time of the
   * last drain (prev_tsc).
   */
  class OqLcore {
    const rxPorts: seq<byte>
    const txQueueId: seq<nat>
    const bufs: seq<TxBuffer>
    var prevTsc: u64
    ghost const Repr: set<object>

    ghost predicate Valid()
      reads Repr
    {
      && this !in Repr
      && |bufs| == |txQueueId| == MaxPorts
      && (forall i :: 0 <= i < |bufs| ==> bufs[i] in Repr && bufs[i].table in Repr && bufs[i].Valid())
      && (forall i, j :: 0 <= i < |bufs| && 0 <= j < |bufs| && i != j ==> bufs[i] != bufs[j] && bufs[i].table != bufs[j].table)
    }

    /** The waiting packets of the buffers of ports 0..k-1. */
    ghost function PendingUpTo(k: nat): (r: seq<seq<Mbuf>>)
      reads Repr
      requires Valid() && k <= |bufs|
      ensures |r| == k && forall p :: 0 <= p < k ==> r[p] == bufs[p].Pending()
    {
      if k == 0 then [] else PendingUpTo(k - 1) + [bufs[k - 1].Pending()]
    }

    /** The waiting packets of every port's buffer. */
    ghost function Pendings(): (r: seq<seq<Mbuf>>)
      reads Repr
      requires Valid()
      ensures |r| == |bufs| && forall p :: 0 <= p < |bufs| ==> r[p] == bufs[p].Pending()
    {
      PendingUpTo(|bufs|)
    }

    /** An lcore with its RX queue list and TX queue ids, every buffer empty, prev_tsc = 0. */
    constructor (rxp: seq<byte>, txq: seq<nat>)
      requires |txq| == MaxPorts
      ensures Valid() && rxPorts == rxp && txQueueId == txq && prevTsc == 0
      ensures forall p :: 0 <= p < MaxPorts ==> Pendings()[p] == []
    {
      var bs: seq<TxBuffer> := [];
      ghost var r: set<object> := {};
      while |bs| < MaxPorts
        invariant |bs| <= MaxPorts
        invariant forall i :: 0 <= i < |bs| ==> bs[i] in r && bs[i].table in r && bs[i].Valid() && bs[i].len == 0
        invariant forall i, j :: 0 <= i < |bs| && 0 <= j < |bs| && i != j ==> bs[i] != bs[j] && bs[i].table != bs[j].table
      {
        var b := new TxBuffer();
        bs := bs + [b];
        r := r + {b, b.table};
      }
      rxPorts := rxp;
      txQueueId := txq;
      bufs := bs;
      prevTsc := 0;
      Repr := r;
    }

    /** send_packetsx4 on port d's buffer, through the lcore's TX queue of port d. */
    method SendTo(wire: Wire, d: nat, run: seq<Mbuf>)
      requires Valid() && d < |bufs| && |run| <= MaxPktBurst
      modifies Repr, wire
      ensures Valid()
      ensures Pendings() == Put(old(Pendings()), d, Kept(old(Pendings())[d], run))
      ensures wire.log == old(wire.log) + SentAll(d, txQueueId[d], Flushed(old(Pendings())[d], run))
    {
      bufs[d].SendPacketsX4(wire, d, txQueueId[d], run);
    }

    /**
     * The send phase: from packet 0, hand the run starting at j (pnum[j]
     * packets) to its port's buffer and jump to the next run. Every packet
     * ends up, in order, sent or waiting on its own output port.
     */
    method SendRuns(wire: Wire, ms: seq<Mbuf>, dst: seq<nat>, pnum: seq<nat>)
      requires Valid() && |ms| == |dst| == |pnum| <= MaxPktBurst
      requires forall i :: 0 <= i < |dst| ==> dst[i] < |bufs|
      requires forall i :: 0 <= i < |dst| && RunStart(dst, i) ==> pnum[i] == RunLen(dst, i)
      modifies Repr, wire
      ensures Valid()
      ensures Accounted(old(wire.log), old(Pendings()), wire.log, Pendings(), ToPorts(ms, dst, |ms|, |bufs|))
    {
      ghost var log0 := wire.log;
      ghost var pend0 := Pendings();
      var j := 0;
      while j < |ms|
        invariant Valid() && j <= |ms|
        invariant j < |ms| ==> RunStart(dst, j)
        invariant Accounted(log0, pend0, wire.log, Pendings(), ToPorts(ms, dst, j, |bufs|))
        decreases |ms| - j
      {
        var k := pnum[j];
        RunLenSpan(dst, j, |dst|);
        ghost var log1 := wire.log;
        ghost var pend1 := Pendings();
        SendTo(wire, dst[j], ms[j..j + k]);
        AccountedRun(log0, pend0, log1, pend1, ms, dst, j, j + k, ms[j..j + k], txQueueId[dst[j]]);
        j := j + k;
      }
    }

    /** The drain's send_burst on port p, then len = 0. */
    method FlushAt(wire: Wire, p: nat)
      requires Valid() && p < |bufs| && bufs[p].len > 0
      modifies Repr, wire
      ensures Valid()
      ensures Pendings() == Put(old(Pendings()), p, [])
      ensures wire.log == old(wire.log) + SentAll(p, txQueueId[p], old(Pendings())[p])
    {
      bufs[p].Flush(wire, p, txQueueId[p]);
    }

    /** The TX drain: every non-empty buffer, port by port, is transmitted and emptied. */
    method Drain(wire: Wire)
      requires Valid()
      modifies Repr, wire
      ensures Valid() && forall p :: 0 <= p < |bufs| ==> Pendings()[p] == []
      ensures Accounted(old(wire.log), old(Pendings()), wire.log, Pendings(), NoneAdded(|bufs|))
    {
      ghost var log0 := wire.log;
      ghost var pend0 := Pendings();
      var p := 0;
      while p < |bufs|
        invariant Valid() && p <= |bufs|
        invariant forall q :: 0 <= q < p ==> Pendings()[q] == []
        invariant Accounted(log0, pend0, wire.log, Pendings(), NoneAdded(|bufs|))
      {
        if bufs[p].len != 0 {
          ghost var log1 := wire.log;
          ghost var pend1 := Pendings();
          FlushAt(wire, p);
          AccountedDrainStep(log0, pend0, log1, pend1, p, txQueueId[p]);
        }
        p := p + 1;
      }
    }

    /** One RX queue's burst: look up, group, send. */
    method ProcessBurst(wire: Wire, routes: map<u32, nat>, b: RxBurst)
      requires Valid() && Forwardable(b) && HopsInRange(routes)
      modifies Repr, wire
      ensures Valid()
      ensures Accounted(old(wire.log), old(Pendings()), wire.log, Pendings(),
                        ToPorts(Mbufs(b.pkts), DstList(routes, b), |b.pkts|, |bufs|))
    {
      var dst := DstPorts(routes, b.pkts, b.portid);
      assert forall i :: 0 <= i < |dst| ==> dst[i] < MaxPorts by {
        forall i | 0 <= i < |dst| ensures dst[i] < MaxPorts {
          var pkt := b.pkts[i];
          assert dst[i] == GetDstPort(routes, pkt, DstIpv4(pkt), b.portid);
        }
      }
      var pnum := GroupPorts(dst);
      SendRuns(wire, Mbufs(b.pkts), dst, pnum);
    }

    /** The RX loop: every RX queue's burst in list order. */
    method ProcessAll(wire: Wire, routes: map<u32, nat>, rx: seq<RxBurst>)
      requires Valid() && HopsInRange(routes) && forall i :: 0 <= i < |rx| ==> Forwardable(rx[i])
      modifies Repr, wire
      ensures Valid()
      ensures Accounted(old(wire.log), old(Pendings()), wire.log, Pendings(), RoutedAll(routes, rx, |rx|, |bufs|))
    {
      ghost var log0 := wire.log;
      ghost var pend0 := Pendings();
      var i := 0;
      while i < |rx|
        invariant Valid() && i <= |rx|
        invariant Accounted(log0, pend0, wire.log, Pendings(), RoutedAll(routes, rx, i, |bufs|))
      {
        ghost var log1 := wire.log;
        ghost var pend1 := Pendings();
        ProcessBurst(wire, routes, rx[i]);
        AccountedTrans(log0, pend0, log1, pend1, wire.log, Pendings(), RoutedAll(routes, rx, i, |bufs|),
                       ToPorts(Mbufs(rx[i].pkts), DstList(routes, rx[i]), |rx[i].pkts|, |bufs|));
        i := i + 1;
      }
    }

    /**
     * One iteration of main_loop: the drain when more than drainTsc cycles
     * passed since the last one (uint64_t subtraction), then the RX loop
     * over the lcore's queues, arrivals[i] being what rte_eth_rx_burst
     * returned for queue i and routes the socket's LPM table.
     */
    method MainLoopPass(wire: Wire, now: u64, drainTsc: u64, routes: map<u32, nat>, arrivals: seq<seq<RxPkt>>)
      requires Valid() && |arrivals| == |rxPorts| && HopsInRange(routes)
      requires forall i :: 0 <= i < |arrivals| ==> Forwardable(RxBurst(rxPorts[i], arrivals[i]))
      modifies this, Repr, wire
      ensures Valid()
      ensures prevTsc == if Sub64(now, old(prevTsc)) > drainTsc then now else old(prevTsc)
      ensures Accounted(old(wire.log), old(Pendings()), wire.log, Pendings(),
                        RoutedAll(routes, Bursts(rxPorts, arrivals), |arrivals|, |bufs|))
    {
      ghost var log0 := wire.log;
      ghost var pend0 := Pendings();
      if Sub64(now, prevTsc) > drainTsc {
        Drain(wire);
        prevTsc := now;
      } else {
        AccountedRefl(log0, pend0);
      }
      ghost var log1 := wire.log;
      ghost var pend1 := Pendings();
      var rx := Bursts(rxPorts, arrivals);
      ProcessAll(wire, routes, rx);
      AccountedTrans(log0, pend0, log1, pend1, wire.log, Pendings(), NoneAdded(|bufs|), RoutedAll(routes, rx, |rx|, |bufs|));
      PlusNone(RoutedAll(routes, rx, |rx|, |bufs|));
    }
  }

  /** The bursts of the RX queue list: arrivals[i] read from port ports[i]. */
  function Bursts(ports: seq<byte>, arrivals: seq<seq<RxPkt>>): (r: seq<RxBurst>)
    requires |ports| == |arrivals|
    ensures |r| == |ports| && forall i :: 0 <= i < |r| ==> r[i] == RxBurst(ports[i], arrivals[i])
  {
    seq(|ports|, i requires 0 <= i < |ports| => RxBurst(ports[i], arrivals[i]))
  }
}
