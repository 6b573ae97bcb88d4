/**
 * The default lcore of the voq_swq datapath, apart from the hit handler:
 * the RX action that decodes every received packet's flow key and counts
 * it against its port's default RX queue, and the route add of its LPM
 * table.
 */
module DefaultLcore {
  import opened Opt
  import opened Bytes
  import opened Masks
  import opened FlowKey
  import opened VoqSwqDefs
  import opened Lpm

  /** How many packets of a burst arrived on port p. */
  function CountOn(ports: seq<nat>, p: nat): (c: nat)
    ensures c <= |ports|
    ensures c == 0 <==> p !in ports
  {
    if ports == [] then 0 else CountOn(ports[..|ports| - 1], p) + (if ports[|ports| - 1] == p then 1 else 0)
  }

  /** The per-port counts of a burst add up to the burst's size. */
  lemma {:induction false} CountOnTotal(ports: seq<nat>, n: nat)
    requires forall i :: 0 <= i < |ports| ==> ports[i] < n
    ensures SumCounts(ports, n) == |ports|
  {
    if ports == [] {
      SumCountsNone(n);
    } else {
      var init := ports[..|ports| - 1];
      assert init + [ports[|ports| - 1]] == ports;
      CountOnTotal(init, n);
      SumCountsSnoc(init, ports[|ports| - 1], n);
    }
  }

  /** An empty burst counts nothing on any port. */
  lemma {:induction false} SumCountsNone(n: nat)
    ensures SumCounts([], n) == 0
  {
    if n > 0 {
      SumCountsNone(n - 1);
    }
  }

  /** The counts of ports 0..n-1, summed. */
  function SumCounts(ports: seq<nat>, n: nat): nat
  {
    if n == 0 then 0 else SumCounts(ports, n - 1) + CountOn(ports, n - 1)
  }

  /** Appending a packet on port x < n raises the sum of the first n counts by one. */
  lemma {:induction false} SumCountsSnoc(ports: seq<nat>, x: nat, n: nat)
    ensures SumCounts(ports + [x], n) == SumCounts(ports, n) + (if x < n then 1 else 0)
  {
    if n > 0 {
      SumCountsSnoc(ports, x, n - 1);
      assert (ports + [x])[..|ports + [x]| - 1] == ports;
    }
  }

  /**
   * rx_action_handler: fills every packet's metadata with its decoded flow
   * key, counts each packet once as a packet and once as a burst of its
   * port's default RX queue, and marks exactly the n received packets.
   * packets[p] and bursts[p] are the counters of (p, DP_PORT_RXQ_ID_DEFAULT).
   */
  method RxActionHandler(frames: seq<seq<byte>>, ports: seq<nat>, packets: seq<nat>, bursts: seq<nat>)
    returns (keys: seq<Key>, mask: bv64, packets': seq<nat>, bursts': seq<nat>)
    requires 1 <= |frames| <= 64 && |ports| == |frames|
    requires |packets| == MaxPorts && |bursts| == MaxPorts
    requires forall i :: 0 <= i < |ports| ==> ports[i] < MaxPorts
    ensures |keys| == |frames| && forall i :: 0 <= i < |frames| ==> keys[i] == DecodeKey(frames[i])
    ensures mask == LowMask(|frames| as bv64)
    ensures |packets'| == MaxPorts && |bursts'| == MaxPorts
    ensures forall p :: 0 <= p < MaxPorts ==>
              packets'[p] == packets[p] + CountOn(ports, p) && bursts'[p] == bursts[p] + CountOn(ports, p)
  {
    keys := DecodeAll(frames);
    packets' := CountBurst(ports, packets);
    bursts' := CountBurst(ports, bursts);
    mask := LowMask(|frames| as bv64);
  }

  /** The metadata loop: one decoded key per packet. */
  method DecodeAll(frames: seq<seq<byte>>) returns (keys: seq<Key>)
    ensures |keys| == |frames| && forall i :: 0 <= i < |frames| ==> keys[i] == DecodeKey(frames[i])
  {
    keys := DecodeEach(frames, DecodeKey);
  }

  /** A per-packet metadata write, over every packet of a burst in order. */
  method DecodeEach(frames: seq<seq<byte>>, decode: seq<byte> -> Key) returns (keys: seq<Key>)
    ensures |keys| == |frames| && forall i :: 0 <= i < |frames| ==> keys[i] == decode(frames[i])
  {
    keys := [];
    var i := 0;
    while i < |frames|
      invariant i <= |frames| && |keys| == i
      invariant forall j :: 0 <= j < i ==> keys[j] == decode(frames[j])
    {
      keys := keys + [decode(frames[i])];
      i := i + 1;
    }
  }

  /** The counter loop: each packet adds one to its port's counter. */
  method CountBurst(ports: seq<nat>, counters: seq<nat>) returns (r: seq<nat>)
    requires forall i :: 0 <= i < |ports| ==> ports[i] < |counters|
    ensures |r| == |counters| && forall p :: 0 <= p < |r| ==> r[p] == counters[p] + CountOn(ports, p)
  {
    r := counters;
    var i := 0;
    while i < |ports|
      invariant i <= |ports| && |r| == |counters|
      invariant forall p :: 0 <= p < |r| ==> r[p] == counters[p] + CountOn(ports[..i], p)
    {
      CountOnPrefix(ports, i);
      r := Bump(r, ports[i]);
      i := i + 1;
    }
    assert ports[..i] == ports;
  }

  /** Counting one more packet of the burst. */
  lemma CountOnPrefix(ports: seq<nat>, i: nat)
    requires i < |ports|
    ensures forall p :: CountOn(ports[..i + 1], p) == CountOn(ports[..i], p) + (if ports[i] == p then 1 else 0)
  {
    assert ports[..i + 1][..i] == ports[..i];
  }

  /** One counter incremented, the others kept. */
  function Bump(counters: seq<nat>, p: nat): (r: seq<nat>)
    requires p < |counters|
    ensures |r| == |counters| && forall q :: 0 <= q < |r| ==> r[q] == counters[q] + (if q == p then 1 else 0)
  {
    counters[p := counters[p] + 1]
  }

  /**
   * add_ipv4_rule (voq_swq): a depth-32 route from ipv4 to output port
   * port_out_id, which the default pipeline numbers like the switch port.
   */
  method AddIpv4Rule(t: LpmTable, ip: u32, portOut: byte) returns (ok: bool)
    requires t.Valid()
    modifies t
    ensures t.Valid()
    ensures ok <==> Fits(old(t.routes), t.capacity, ip)
    ensures ok ==> t.routes == old(t.routes)[ip := portOut as nat] && Lookup(t.routes, ip) == Some(portOut as nat)
    ensures !ok ==> t.routes == old(t.routes)
  {
    ok := t.Add(ip, portOut);
  }
}
