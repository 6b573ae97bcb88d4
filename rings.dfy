/**
 * The software rings of the voq_swq datapath (dp.rings[port][slot]) and what
 * the data RX lcores put into them: a received burst is cut into maximal runs
 * of packets with the same slot (fdir id & 0x3f), and each run is appended to
 * the ring of the queue's output port and that slot.
 */
module Rings {
  import opened Opt
  import opened Bytes
  import opened VoqSwqDefs

  /** A packet buffer: an opaque identity and the flow-director id the NIC stamped on it. */
  datatype Mbuf = Mbuf(tag: nat, fdirId: u16)

  /** The ring a packet is meant for among those of its output port: fdir.id & DP_FDIR_OUT_QUEUE_MASK. */
  function Slot(m: Mbuf): (s: nat)
    ensures s < MaxDataFlows
  {
    SlotOfId(m.fdirId)
  }

  /** The created rings, keyed by (output port, slot), each a FIFO of packets, oldest first. */
  type RingMap = map<(nat, nat), seq<Mbuf>>

  // ---------------------------------------------------------------------
  // Ring creation (init_rings)

  /** init_rings as written: rings 0..62 of every port; slot 63 gets no ring. */
  function CreatedAsWritten(nbPorts: nat): (r: RingMap)
    ensures forall p: nat, s: nat :: (p, s) in r <==> p < nbPorts && s < MaxDataFlows - 1
    ensures forall key :: key in r ==> r[key] == []
  {
    map p, s | 0 <= p < nbPorts && 0 <= s < MaxDataFlows - 1 :: (p, s) := []
  }

  /** init_rings with one ring per data-flow slot: rings 0..63 of every port. */
  function Created(nbPorts: nat): (r: RingMap)
    ensures forall p: nat, s: nat :: (p, s) in r <==> p < nbPorts && s < MaxDataFlows
    ensures forall key :: key in r ==> r[key] == []
  {
    map p, s | 0 <= p < nbPorts && 0 <= s < MaxDataFlows :: (p, s) := []
  }

  // ---------------------------------------------------------------------
  // Run splitting

  /** One past the end of the run of equal slots that starts at i, scanning from j. */
  function RunEnd(b: seq<Mbuf>, i: nat, j: nat): (e: nat)
    requires i < j <= |b|
    requires forall k :: i <= k < j ==> Slot(b[k]) == Slot(b[i])
    ensures j <= e <= |b|
    ensures forall k :: i <= k < e ==> Slot(b[k]) == Slot(b[i])
    ensures e < |b| ==> Slot(b[e]) != Slot(b[i])
    decreases |b| - j
  {
    if j == |b| || Slot(b[j]) != Slot(b[i]) then j else RunEnd(b, i, j + 1)
  }

  /** A non-empty stretch of packets with one slot. */
  predicate Uniform(run: seq<Mbuf>)
  {
    |run| > 0 && forall k :: 0 <= k < |run| ==> Slot(run[k]) == Slot(run[0])
  }

  function Flatten(runs: seq<seq<Mbuf>>): seq<Mbuf>
  {
    if |runs| == 0 then [] else runs[0] + Flatten(runs[1..])
  }

  /**
   * The runs the RX loop enqueues, in order: each a non-empty stretch of one
   * slot, and neighbouring runs of different slots, so each run is maximal.
   */
  function Runs(b: seq<Mbuf>): (rs: seq<seq<Mbuf>>)
    ensures forall r :: 0 <= r < |rs| ==> Uniform(rs[r])
    ensures |b| > 0 ==> |rs| > 0 && |rs[0]| > 0 && rs[0][0] == b[0]
    ensures forall r, r' :: 0 <= r && r' == r + 1 && r' < |rs| ==> |rs[r]| > 0 && |rs[r']| > 0 && Slot(rs[r][0]) != Slot(rs[r'][0])
    decreases |b|
  {
    if |b| == 0 then []
    else
      var e := RunEnd(b, 0, 1);
      [b[..e]] + Runs(b[e..])
  }

  lemma FlattenCons(r: seq<Mbuf>, rs: seq<seq<Mbuf>>)
    ensures Flatten([r] + rs) == r + Flatten(rs)
  {
    assert ([r] + rs)[1..] == rs;
  }

  /** The runs cover the burst exactly once and in order. */
  lemma {:induction false} RunsCover(b: seq<Mbuf>)
    ensures Flatten(Runs(b)) == b
    decreases |b|
  {
    if |b| > 0 {
      var e := RunEnd(b, 0, 1);
      var rest := Runs(b[e..]);
      calc {
        Flatten(Runs(b));
        Flatten([b[..e]] + rest);
        { FlattenCons(b[..e], rest); }
        b[..e] + Flatten(rest);
        { RunsCover(b[e..]); }
        b[..e] + b[e..];
        { assert b == b[..e] + b[e..]; }
        b;
      }
    }
  }

  // ---------------------------------------------------------------------
  // Where the packets go

  /** The packets of b whose slot is s, in order. */
  function OfSlot(b: seq<Mbuf>, s: nat): (r: seq<Mbuf>)
    ensures |r| <= |b|
  {
    if |b| == 0 then []
    else OfSlot(b[..|b| - 1], s) + (if Slot(b[|b| - 1]) == s then [b[|b| - 1]] else [])
  }

  /** Appending more packets to ring key, or None when that ring was never created. */
  function Append(o: Option<RingMap>, key: (nat, nat), more: seq<Mbuf>): (r: Option<RingMap>)
    ensures r.Some? <==> o.Some? && key in o.value
    ensures r.Some? ==> r.value == o.value[key := o.value[key] + more]
  {
    match o
    case None => None
    case Some(rs) => if key in rs then Some(rs[key := rs[key] + more]) else None
  }

  /**
   * Packet by packet, each packet of b appended to the ring (out, its slot);
   * None when one of those rings was never created (a NULL ring).
   */
  function Deliver(rings: RingMap, out: nat, b: seq<Mbuf>): Option<RingMap>
  {
    if |b| == 0 then Some(rings)
    else Append(Deliver(rings, out, b[..|b| - 1]), (out, Slot(b[|b| - 1])), [b[|b| - 1]])
  }

  /**
   * Delivery succeeds exactly when every packet's ring exists; then ring
   * (out, s) gains the packets of slot s in their burst order, and no other
   * ring changes and no ring appears.
   */
  lemma DeliverSpec(rings: RingMap, out: nat, b: seq<Mbuf>)
    ensures Deliver(rings, out, b).Some? <==> forall k :: 0 <= k < |b| ==> (out, Slot(b[k])) in rings
    ensures Deliver(rings, out, b).Some? ==>
              var r := Deliver(rings, out, b).value;
              && r.Keys == rings.Keys
              && (forall s :: (out, s) in rings ==> r[(out, s)] == rings[(out, s)] + OfSlot(b, s))
              && (forall key :: key in rings && key.0 != out ==> r[key] == rings[key])
  {
    DeliverDefined(rings, out, b);
    if Deliver(rings, out, b).Some? {
      DeliverContents(rings, out, b);
    }
  }

  /** Delivery is defined exactly when every packet's ring exists. */
  lemma {:induction false} DeliverDefined(rings: RingMap, out: nat, b: seq<Mbuf>)
    ensures Deliver(rings, out, b).Some? <==> forall k :: 0 <= k < |b| ==> (out, Slot(b[k])) in rings
    decreases |b|
  {
    if |b| > 0 {
      var front := b[..|b| - 1];
      DeliverDefined(rings, out, front);
      assert forall k :: 0 <= k < |front| ==> front[k] == b[k];
      if Deliver(rings, out, front).Some? {
        DeliverContents(rings, out, front);
      }
    }
  }

  /** A defined delivery adds each slot's packets to its ring and touches nothing else. */
  lemma {:induction false} DeliverContents(rings: RingMap, out: nat, b: seq<Mbuf>)
    requires Deliver(rings, out, b).Some?
    ensures var r := Deliver(rings, out, b).value;
            && r.Keys == rings.Keys
            && (forall s :: (out, s) in rings ==> r[(out, s)] == rings[(out, s)] + OfSlot(b, s))
            && (forall key :: key in rings && key.0 != out ==> r[key] == rings[key])
    decreases |b|
  {
    if |b| > 0 {
      var front := b[..|b| - 1];
      var m := b[|b| - 1];
      DeliverContents(rings, out, front);
      forall s | (out, s) in rings
        ensures Deliver(rings, out, b).value[(out, s)] == rings[(out, s)] + OfSlot(b, s)
      {
        assert OfSlot(b, s) == OfSlot(front, s) + (if Slot(m) == s then [m] else []);
      }
    }
  }

  /** A run of one slot whose ring exists is delivered by one append to that ring. */
  lemma {:induction false} DeliverRun(rings: RingMap, out: nat, b: seq<Mbuf>, run: seq<Mbuf>)
    requires Uniform(run)
    ensures Deliver(rings, out, b + run) == Append(Deliver(rings, out, b), (out, Slot(run[0])), run)
    decreases |run|
  {
    var key := (out, Slot(run[0]));
    var n := |run|;
    assert (b + run)[..|b + run| - 1] == b + run[..n - 1];
    assert Slot(run[n - 1]) == Slot(run[0]);
    if n == 1 {
      assert b + run[..0] == b;
      assert run == [run[0]];
    } else {
      assert Uniform(run[..n - 1]) && run[..n - 1][0] == run[0];
      DeliverRun(rings, out, b, run[..n - 1]);
      assert run[..n - 1] + [run[n - 1]] == run;
      AppendTwice(Deliver(rings, out, b), key, run[..n - 1], [run[n - 1]]);
    }
  }

  /** Two appends to one ring are one append of both. */
  lemma AppendTwice(o: Option<RingMap>, key: (nat, nat), a: seq<Mbuf>, c: seq<Mbuf>)
    ensures Append(Append(o, key, a), key, c) == Append(o, key, a + c)
  {
    if o.Some? && key in o.value {
      var m := o.value;
      assert m[key := m[key] + a][key] + c == m[key] + (a + c);
      assert m[key := m[key] + a][key := m[key] + (a + c)] == m[key := m[key] + (a + c)];
    }
  }
}
