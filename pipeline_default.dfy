/**
 * The default pipeline's data-flow detection: the table binding a data
 * pipeline's outputs to (destination address, event id) pairs, the action
 * handler filling each packet's flow key, and the table hit handler that
 * turns a fragment request into two mirrored flow-director filters, each
 * steering one direction of the flow to a registered RX data pipeline.
 */
module PipelineDefault {
  import opened Opt
  import opened Bytes
  import opened Masks
  import opened FlowKey
  import opened FlowDetect
  import opened Pipeline
  import opened PipelineData
  import VoqSwq

  // ---------------------------------------------------------------------
  // The data-queue binding table (get_next_data_queue_internal_id)

  /** Output q is bound to the pair (dip, eventId). */
  predicate BoundTo(q: OutQueue, dip: u32, eventId: u32)
  {
    q.dip == dip && q.eventId == eventId
  }

  /** The first of the first n outputs bound to (dip, eventId). */
  function FindBound(qOut: seq<OutQueue>, n: nat, dip: u32, eventId: u32): (r: Option<nat>)
    requires n <= |qOut|
    ensures r.Some? ==> r.value < n && BoundTo(qOut[r.value], dip, eventId)
                        && forall j :: 0 <= j < r.value ==> !BoundTo(qOut[j], dip, eventId)
    ensures r.None? ==> forall j :: 0 <= j < n ==> !BoundTo(qOut[j], dip, eventId)
  {
    if n == 0 then None
    else match FindBound(qOut, n - 1, dip, eventId)
      case Some(k) => Some(k)
      case None => if BoundTo(qOut[n - 1], dip, eventId) then Some(n - 1) else None
  }

  /** The first of the first n outputs whose dip is 0 (not bound). */
  function FindUnbound(qOut: seq<OutQueue>, n: nat): (r: Option<nat>)
    requires n <= |qOut|
    ensures r.Some? ==> r.value < n && qOut[r.value].dip == 0 && forall j :: 0 <= j < r.value ==> qOut[j].dip != 0
    ensures r.None? ==> forall j :: 0 <= j < n ==> qOut[j].dip != 0
  {
    if n == 0 then None
    else match FindUnbound(qOut, n - 1)
      case Some(k) => Some(k)
      case None => if qOut[n - 1].dip == 0 then Some(n - 1) else None
  }

  /** The output chosen for a pair, its internal id, and the table afterwards. */
  datatype Binding = Binding(index: nat, id: nat, qOut: seq<OutQueue>)

  /**
   * The output for (dip, eventId): the first already bound to it, with the
   * table unchanged; otherwise the first unbound one, which gets the pair
   * written into it and nothing else; otherwise none, with nothing changed.
   */
  function Bind(qOut: seq<OutQueue>, n: nat, dip: u32, eventId: u32): (r: Option<Binding>)
    requires n <= |qOut|
    ensures r.None? <==> FindBound(qOut, n, dip, eventId).None? && FindUnbound(qOut, n).None?
    ensures r.Some? ==>
              && r.value.index < n && |r.value.qOut| == |qOut|
              && r.value.id == qOut[r.value.index].rteId
              && r.value.qOut[r.value.index] == qOut[r.value.index].(dip := dip, eventId := eventId)
              && forall j :: 0 <= j < |qOut| && j != r.value.index ==> r.value.qOut[j] == qOut[j]
    ensures FindBound(qOut, n, dip, eventId).Some? ==>
              r.Some? && r.value.index == FindBound(qOut, n, dip, eventId).value && r.value.qOut == qOut
    ensures FindBound(qOut, n, dip, eventId).None? && r.Some? ==>
              r.value.index == FindUnbound(qOut, n).value && qOut[r.value.index].dip == 0
  {
    match FindBound(qOut, n, dip, eventId)
    case Some(i) => Some(Binding(i, qOut[i].rteId, qOut))
    case None =>
      match FindUnbound(qOut, n)
      case Some(i) => Some(Binding(i, qOut[i].rteId, qOut[i := qOut[i].(dip := dip, eventId := eventId)]))
      case None => None
  }

  lemma FindBoundAt(qOut: seq<OutQueue>, n: nat, dip: u32, eventId: u32, i: nat)
    requires i < n <= |qOut| && BoundTo(qOut[i], dip, eventId)
    requires forall j :: 0 <= j < i ==> !BoundTo(qOut[j], dip, eventId)
    ensures FindBound(qOut, n, dip, eventId) == Some(i)
  {
  }

  /** Asking again for the same pair gives the same output and changes nothing more. */
  lemma {:induction false} BindIdempotent(qOut: seq<OutQueue>, n: nat, dip: u32, eventId: u32)
    requires n <= |qOut| && Bind(qOut, n, dip, eventId).Some?
    ensures Bind(Bind(qOut, n, dip, eventId).value.qOut, n, dip, eventId) == Bind(qOut, n, dip, eventId)
  {
    var b := Bind(qOut, n, dip, eventId).value;
    forall j | 0 <= j < b.index
      ensures !BoundTo(b.qOut[j], dip, eventId)
    {
      assert b.qOut[j] == qOut[j];
      if FindBound(qOut, n, dip, eventId).None? {
        assert qOut[j].dip != 0 && qOut[b.index].dip == 0;
      }
    }
    FindBoundAt(b.qOut, n, dip, eventId, b.index);
  }

  /** Distinct bound pairs sit on distinct outputs (an output with dip 0 is unbound). */
  predicate KeysDistinct(qOut: seq<OutQueue>, n: nat)
    requires n <= |qOut|
  {
    forall i, j :: 0 <= i < j < n && qOut[i].dip != 0 ==> !BoundTo(qOut[j], qOut[i].dip, qOut[i].eventId)
  }

  /** Binding never puts a second output on a pair already bound. */
  lemma BindKeepsKeysDistinct(qOut: seq<OutQueue>, n: nat, dip: u32, eventId: u32)
    requires n <= |qOut| && KeysDistinct(qOut, n) && Bind(qOut, n, dip, eventId).Some?
    ensures KeysDistinct(Bind(qOut, n, dip, eventId).value.qOut, n)
  {
    var b := Bind(qOut, n, dip, eventId).value;
    forall i, j | 0 <= i < j < n && b.qOut[i].dip != 0
      ensures !BoundTo(b.qOut[j], b.qOut[i].dip, b.qOut[i].eventId)
    {
      if i == b.index || j == b.index {
        if FindBound(qOut, n, dip, eventId).None? {
          assert !BoundTo(qOut[i], dip, eventId) && !BoundTo(qOut[j], dip, eventId);
        }
      }
    }
  }

  /**
   * get_next_data_queue_internal_id: the output bound to (dip, eventId),
   * binding the first unbound one if there is none.
   */
  method GetNextDataQueueInternalId(pp: Pipeline, dip: u32, eventId: u32) returns (id: Option<nat>)
    requires pp.Valid()
    modifies pp
    ensures pp.Valid()
    ensures id.None? <==> Bind(old(pp.qOut), old(pp.nbQOut), dip, eventId).None?
    ensures id.Some? ==> var b := Bind(old(pp.qOut), old(pp.nbQOut), dip, eventId).value;
                         id.value == b.id && pp.qOut == b.qOut
    ensures id.None? ==> pp.qOut == old(pp.qOut)
    ensures pp.kind == old(pp.kind) && pp.qIn == old(pp.qIn) && pp.nbQIn == old(pp.nbQIn) && pp.nbQOut == old(pp.nbQOut)
    ensures pp.rules == old(pp.rules) && pp.requests == old(pp.requests) && pp.built == old(pp.built) && pp.lcoreId == old(pp.lcoreId)
  {
    var i := 0;
    while i < pp.nbQOut
      invariant i <= pp.nbQOut && FindBound(pp.qOut, i, dip, eventId).None?
    {
      if pp.qOut[i].dip == dip && pp.qOut[i].eventId == eventId {
        return Some(pp.qOut[i].rteId);
      }
      i := i + 1;
    }
    i := 0;
    while i < pp.nbQOut
      invariant i <= pp.nbQOut && FindUnbound(pp.qOut, i).None?
    {
      if pp.qOut[i].dip == 0 {
        id := Some(pp.qOut[i].rteId);
        pp.qOut := pp.qOut[i := pp.qOut[i].(dip := dip, eventId := eventId)];
        return;
      }
      i := i + 1;
    }
    return None;
  }

  // ---------------------------------------------------------------------
  // Filter ids

  /** The ROS->DCM soft id: id | (id << 4), kept to 16 bits. */
  function MirrorId(id: u16): u16
  {
    ((id as bv16) | ((id as bv16) << 4)) as nat
  }

  lemma MirrorIdBits(id: u16)
    ensures MirrorId(id) as bv16 == (id as bv16) | ((id as bv16) << 4)
  {
  }

  /** Both directions of a flow select the same output of their RX data pipelines. */
  lemma MirrorIdKeepsOutput(id: u16)
    ensures OutputOfFdirId(MirrorId(id)) == OutputOfFdirId(id)
  {
    var b := id as bv16;
    MirrorIdBits(id);
    assert (b | (b << 4)) & 0xf == b & 0xf;
  }

  lemma MirrorBits(x: bv16, y: bv16)
    requires x < 256 && y < 256 && x | (x << 4) == y | (y << 4)
    ensures x == y
  {
    assert x & 0xf == (x | (x << 4)) & 0xf;
    assert y & 0xf == (y | (y << 4)) & 0xf;
    assert x >> 4 == (x | (x << 4)) >> 8;
    assert y >> 4 == (y | (y << 4)) >> 8;
    assert x == ((x >> 4) << 4) | (x & 0xf);
    assert y == ((y >> 4) << 4) | (y & 0xf);
  }

  lemma SmallRoundTrip(a: u16)
    requires a < 256
    ensures (a as bv16) as nat == a && (a as bv16) < 256
  {
  }

  /** Ids below 256 (any output index) keep distinct ROS->DCM ids, so they stay unique on a NIC. */
  lemma MirrorIdInjective(a: u16, b: u16)
    requires a < 256 && b < 256 && MirrorId(a) == MirrorId(b)
    ensures a == b
  {
    MirrorIdBits(a);
    MirrorIdBits(b);
    SmallRoundTrip(a);
    SmallRoundTrip(b);
    MirrorBits(a as bv16, b as bv16);
  }

  // ---------------------------------------------------------------------
  // The hit handler, on the registered data pipelines

  /** What the hit handler sees of the registry: output tables, output counts and each pipeline's q_in[0] queue. */
  datatype View = View(outs: seq<seq<OutQueue>>, counts: seq<nat>, inQueues: seq<u16>)

  predicate ViewOk(v: View)
  {
    && |v.outs| == |v.counts| == |v.inQueues|
    && forall i :: 0 <= i < |v.outs| ==> |v.outs[i]| == QueueOutMax && v.counts[i] <= QueueOutMax
  }

  function ViewOf(ps: seq<Pipeline>): (v: View)
    reads ps
    requires forall i {:trigger ps[i]} :: 0 <= i < |ps| ==> ps[i].Valid()
    ensures ViewOk(v) && v.outs == Outs(ps)
    ensures forall i :: 0 <= i < |ps| ==> ps[i].Valid() && v.counts[i] == ps[i].nbQOut && v.inQueues[i] == ps[i].qIn[0].queueId
  {
    View(Outs(ps),
         seq(|ps|, i reads ps requires 0 <= i < |ps| => ps[i].nbQOut),
         seq(|ps|, i reads ps requires 0 <= i < |ps| && ps[i].Valid() => ps[i].qIn[0].queueId))
  }

  /** The registry after one handler step, the filters it installed, and filter.port_src. */
  datatype Step = Step(v: View, installs: seq<FdirInstall>, portSrc: u16)

  /**
   * One packet: a fragment request whose sport differs from the last
   * filter's port_src binds an output of the RX data pipeline of its arrival
   * port to (sip, event id), then installs the ROS->DCM filter on the NIC of
   * the table entry's port and the DCM->ROS filter on the arrival NIC. A port
   * with no data pipeline is fatal; a pair that cannot be bound is skipped.
   */
  function HitStepDefault(v: View, portSrc: u16, pkt: HitPacket): (r: Option<Step>)
    requires ViewOk(v)
    ensures r.Some? ==> ViewOk(r.value.v)
  {
    if !Triggers(pkt.key, portSrc) then Some(Step(v, [], portSrc))
    else match FirstOnPort(v.outs, pkt.port)
      case None => None
      case Some(i) => HitOn(v, portSrc, pkt, i)
  }

  /** A trigger handled by the data pipeline i of its arrival port. */
  function HitOn(v: View, portSrc: u16, pkt: HitPacket, i: nat): (r: Option<Step>)
    requires ViewOk(v) && i < |v.outs|
    ensures r.Some? ==> ViewOk(r.value.v)
  {
    match Bind(v.outs[i], v.counts[i], pkt.key.sip, pkt.key.eventId)
    case None => Some(Step(v, [], portSrc))
    case Some(b) => InstallStep(v.(outs := v.outs[i := b.qOut]), pkt, b.id % 0x1_0000, v.inQueues[i])
  }

  /** The two filters of a bound trigger; the second needs the data pipeline of the table entry's port. */
  function InstallStep(v: View, pkt: HitPacket, id: u16, queue: u16): (r: Option<Step>)
    requires ViewOk(v)
    ensures r.Some? ==> r.value.v == v
  {
    match FirstOnPort(v.outs, pkt.egress)
    case None => None
    case Some(j) =>
      Some(Step(v, [FdirInstall(pkt.egress, IngressFilter(pkt.key), id, queue),
                    FdirInstall(pkt.port, EgressFilter(pkt.key), MirrorId(id), v.inQueues[j])], pkt.key.sport))
  }

  /** The handler over the selected packets in the order it visits them. */
  function HitAllDefault(v: View, portSrc: u16, pkts: seq<HitPacket>): (r: Option<Step>)
    requires ViewOk(v)
    ensures r.Some? ==> ViewOk(r.value.v)
    decreases |pkts|
  {
    if |pkts| == 0 then Some(Step(v, [], portSrc))
    else
      match HitAllDefault(v, portSrc, pkts[..|pkts| - 1])
      case None => None
      case Some(s) =>
        match HitStepDefault(s.v, s.portSrc, pkts[|pkts| - 1])
        case None => None
        case Some(t) => Some(Step(t.v, s.installs + t.installs, t.portSrc))
  }

  /** A call of table_action_handler_hit: filter is zeroed on entry, so port_src starts at 0. */
  function HitHandlerDefault(v: View, pkts: seq<HitPacket>, mask: set<nat>): Option<Step>
    requires ViewOk(v)
  {
    HitAllDefault(v, 0, Selected(pkts, mask))
  }

  /** Two filter installs that carry one flow's two directions. */
  predicate Mirrored(a: FdirInstall, b: FdirInstall)
  {
    && a.filter.ipSrc == b.filter.ipDst && a.filter.portSrc == b.filter.portDst
    && a.filter.ipDst == b.filter.ipSrc && a.filter.portDst == b.filter.portSrc
    && b.fdirId == MirrorId(a.fdirId)
    && OutputOfFdirId(b.fdirId) == OutputOfFdirId(a.fdirId)
  }

  /** The data pipelines' outputs carry the internal ids their configure gave them. */
  predicate OutputsNumbered(v: View)
    requires ViewOk(v)
  {
    forall i, j :: 0 <= i < |v.outs| && 0 <= j < v.counts[i] ==> v.outs[i][j].rteId == j
  }

  /**
   * What one packet does. A packet that is not a new trigger, or a trigger
   * whose pair cannot be bound, installs nothing and changes nothing. A
   * handled trigger installs two mirrored filters, the ROS->DCM one on the
   * table entry's port steering to the q_in[0] queue of the arrival port's
   * data pipeline, the DCM->ROS one on the arrival port; and port_src
   * becomes sport.
   */
  lemma HitStepDefaultSpec(v: View, portSrc: u16, pkt: HitPacket)
    requires ViewOk(v)
    ensures !Triggers(pkt.key, portSrc) ==> HitStepDefault(v, portSrc, pkt) == Some(Step(v, [], portSrc))
    ensures HitStepDefault(v, portSrc, pkt).Some? ==>
              var s := HitStepDefault(v, portSrc, pkt).value;
              && (|s.installs| == 0 ==> s.v == v && s.portSrc == portSrc)
              && (|s.installs| != 0 ==>
                    && |s.installs| == 2 && Triggers(pkt.key, portSrc) && s.portSrc == pkt.key.sport
                    && Mirrored(s.installs[0], s.installs[1])
                    && s.installs[0].nic == pkt.egress && s.installs[0].filter == IngressFilter(pkt.key)
                    && s.installs[1].nic == pkt.port && s.installs[1].filter == EgressFilter(pkt.key)
                    && s.installs[0].queue == v.inQueues[FirstOnPort(v.outs, pkt.port).value])
  {
    var k := pkt.key;
    if Triggers(k, portSrc) {
      match FirstOnPort(v.outs, pkt.port)
      case None =>
      case Some(i) =>
        match Bind(v.outs[i], v.counts[i], k.sip, k.eventId)
        case None =>
        case Some(b) =>
          MirrorIdKeepsOutput(b.id % 0x1_0000);
    }
  }

  /**
   * On a data pipeline with at most 16 numbered outputs, the id a binding
   * returns selects (as fdir.id & 0xf) the very output bound to the pair.
   */
  lemma BindSelectsBoundOutput(qOut: seq<OutQueue>, n: nat, dip: u32, eventId: u32)
    requires n <= |qOut| && n <= QueueFromFdirIdMask + 1 && forall j :: 0 <= j < n ==> qOut[j].rteId == j
    requires Bind(qOut, n, dip, eventId).Some?
    ensures var b := Bind(qOut, n, dip, eventId).value;
            OutputOfFdirId(b.id % 0x1_0000) == b.index < n && BoundTo(b.qOut[b.index], dip, eventId)
  {
    var b := Bind(qOut, n, dip, eventId).value;
    OutputOfSmallId(b.id);
  }

  /**
   * So the ROS->DCM filter of a handled trigger leads, through the arrival
   * port's data pipeline, to the output bound to (sip, event id).
   */
  lemma HitStepDefaultSelects(v: View, portSrc: u16, pkt: HitPacket)
    requires ViewOk(v) && OutputsNumbered(v)
    requires HitStepDefault(v, portSrc, pkt).Some? && |HitStepDefault(v, portSrc, pkt).value.installs| != 0
    requires v.counts[FirstOnPort(v.outs, pkt.port).value] <= QueueFromFdirIdMask + 1
    ensures var s := HitStepDefault(v, portSrc, pkt).value;
            var i := FirstOnPort(v.outs, pkt.port).value;
            var o := OutputOfFdirId(s.installs[0].fdirId);
            o < v.counts[i] && BoundTo(s.v.outs[i][o], pkt.key.sip, pkt.key.eventId)
  {
    var k := pkt.key;
    var i := FirstOnPort(v.outs, pkt.port).value;
    BindSelectsBoundOutput(v.outs[i], v.counts[i], k.sip, k.eventId);
  }

  /** The installs of a handler call come in mirrored pairs. */
  predicate Paired(ins: seq<FdirInstall>)
  {
    |ins| % 2 == 0 && forall m :: 0 <= m < |ins| - 1 && m % 2 == 0 ==> Mirrored(ins[m], ins[m + 1])
  }

  lemma PairedAppend(a: seq<FdirInstall>, b: seq<FdirInstall>)
    requires Paired(a) && Paired(b)
    ensures Paired(a + b)
  {
    forall m | 0 <= m < |a + b| - 1 && m % 2 == 0
      ensures Mirrored((a + b)[m], (a + b)[m + 1])
    {
      if m < |a| {
        assert (a + b)[m] == a[m] && (a + b)[m + 1] == a[m + 1];
      } else {
        var k := m - |a|;
        EvenDifference(m, |a|);
        assert 0 <= k < |b| - 1 && k % 2 == 0;
        assert (a + b)[m] == b[k] && (a + b)[m + 1] == b[k + 1];
      }
    }
  }

  lemma EvenDifference(m: nat, n: nat)
    requires m % 2 == 0 && n % 2 == 0 && n <= m
    ensures (m - n) % 2 == 0
  {
  }

  /** Whatever the burst, every filter the handler installs has its mirror installed right after it. */
  lemma {:induction false} HitAllDefaultPaired(v: View, portSrc: u16, pkts: seq<HitPacket>)
    requires ViewOk(v)
    ensures HitAllDefault(v, portSrc, pkts).Some? ==> Paired(HitAllDefault(v, portSrc, pkts).value.installs)
    decreases |pkts|
  {
    if |pkts| > 0 {
      HitAllDefaultPaired(v, portSrc, pkts[..|pkts| - 1]);
      match HitAllDefault(v, portSrc, pkts[..|pkts| - 1])
      case None =>
      case Some(s) =>
        HitStepDefaultSpec(s.v, s.portSrc, pkts[|pkts| - 1]);
        match HitStepDefault(s.v, s.portSrc, pkts[|pkts| - 1])
        case None =>
        case Some(t) =>
          PairedAppend(s.installs, t.installs);
    }
  }

  /** The registry after a pipeline's output table changed, and only that. */
  lemma ViewAfterBind(ps: seq<Pipeline>, v0: View, i: nat, qOut: seq<OutQueue>)
    requires forall j {:trigger ps[j]} :: 0 <= j < |ps| ==> ps[j].Valid()
    requires ViewOk(v0) && i < |v0.outs| && |qOut| == QueueOutMax
    requires |ps| == |v0.outs| && ps[i].qOut == qOut
    requires forall j :: 0 <= j < |ps| && j != i ==> ps[j].qOut == v0.outs[j]
    requires forall j :: 0 <= j < |ps| ==> ps[j].Valid() && ps[j].nbQOut == v0.counts[j] && ps[j].qIn[0].queueId == v0.inQueues[j]
    ensures ViewOf(ps) == v0.(outs := v0.outs[i := qOut])
  {
    var v := ViewOf(ps);
    assert v.outs == v0.outs[i := qOut];
    assert v.counts == v0.counts;
    assert v.inQueues == v0.inQueues;
  }

  /** Of a descriptor's fields the hit handler may change only its outputs' bindings. */
  twostate predicate OutputsOnly(p: Pipeline)
    reads p
  {
    && p.kind == old(p.kind) && p.lcoreId == old(p.lcoreId) && p.built == old(p.built)
    && p.qIn == old(p.qIn) && p.nbQIn == old(p.nbQIn) && p.nbQOut == old(p.nbQOut)
    && p.rules == old(p.rules) && p.requests == old(p.requests)
  }

  /** get_next_data_queue_internal_id on the i-th registered pipeline, seen on the registry. */
  method BindIn(reg: Registry, pp: Pipeline, ghost i: nat, dip: u32, eventId: u32) returns (id: Option<nat>)
    requires reg.Valid() && i < |reg.pipelines| && reg.pipelines[i] == pp
    modifies pp
    ensures reg.Valid()
    ensures var v0 := old(ViewOf(reg.pipelines));
            var b := Bind(v0.outs[i], v0.counts[i], dip, eventId);
            && (id.None? <==> b.None?)
            && (id.None? ==> ViewOf(reg.pipelines) == v0)
            && (id.Some? ==> id.value == b.value.id && ViewOf(reg.pipelines) == v0.(outs := v0.outs[i := b.value.qOut]))
    ensures pp.qIn == old(pp.qIn)
    ensures forall p :: p in reg.pipelines ==> OutputsOnly(p)
  {
    ghost var ps := reg.pipelines;
    ghost var v0 := ViewOf(ps);
    id := GetNextDataQueueInternalId(pp, dip, eventId);
    assert forall j :: 0 <= j < |ps| && j != i ==> ps[j] != pp;
    ViewAfterBind(ps, v0, i, pp.qOut);
    if id.None? {
      assert v0.outs[i := pp.qOut] == v0.outs;
    }
  }

  /** The handler's work on one selected packet. */
  method HandleHit(reg: Registry, pkt: HitPacket, portSrc: u16) returns (ok: bool, installs: seq<FdirInstall>, portSrc': u16)
    requires reg.Valid()
    modifies reg.pipelines
    ensures reg.Valid()
    ensures var r := HitStepDefault(old(ViewOf(reg.pipelines)), portSrc, pkt);
            && (ok <==> r.Some?)
            && (ok ==> ViewOf(reg.pipelines) == r.value.v && installs == r.value.installs && portSrc' == r.value.portSrc)
    ensures forall p :: p in reg.pipelines ==> OutputsOnly(p)
  {
    ghost var v0 := ViewOf(reg.pipelines);
    if !Triggers(pkt.key, portSrc) {
      return true, [], portSrc;
    }
    var dp := reg.FindDataPipeline(pkt.port);
    if dp.None? {
      return false, [], portSrc;
    }
    ok, installs, portSrc' := HandleOn(reg, dp.value, FirstOnPort(v0.outs, pkt.port).value, pkt, portSrc);
  }

  /** A trigger on the data pipeline pp, the i-th registered. */
  method HandleOn(reg: Registry, pp: Pipeline, ghost i: nat, pkt: HitPacket, portSrc: u16)
    returns (ok: bool, installs: seq<FdirInstall>, portSrc': u16)
    requires reg.Valid() && i < |reg.pipelines| && reg.pipelines[i] == pp
    modifies pp
    ensures reg.Valid()
    ensures var r := HitOn(old(ViewOf(reg.pipelines)), portSrc, pkt, i);
            && (ok <==> r.Some?)
            && (ok ==> ViewOf(reg.pipelines) == r.value.v && installs == r.value.installs && portSrc' == r.value.portSrc)
    ensures forall p :: p in reg.pipelines ==> OutputsOnly(p)
  {
    ghost var v0 := ViewOf(reg.pipelines);
    var queue := pp.qIn[0].queueId;
    assert queue == v0.inQueues[i];
    var id := BindIn(reg, pp, i, pkt.key.sip, pkt.key.eventId);
    if id.None? {
      return true, [], portSrc;
    }
    ok, installs := InstallPair(reg, pkt, id.value % 0x1_0000, queue);
    portSrc' := if ok then pkt.key.sport else portSrc;
  }

  /** The two filter installs of a bound trigger. */
  method InstallPair(reg: Registry, pkt: HitPacket, fid: u16, queue: u16) returns (ok: bool, installs: seq<FdirInstall>)
    requires reg.Valid()
    ensures var r := InstallStep(ViewOf(reg.pipelines), pkt, fid, queue);
            && (ok <==> r.Some?)
            && (ok ==> installs == r.value.installs)
  {
    var toDcm := FdirInstall(pkt.egress, IngressFilter(pkt.key), fid, queue);
    var dp := reg.FindDataPipeline(pkt.egress);
    if dp.None? {
      return false, [toDcm];
    }
    var toRos := FdirInstall(pkt.port, EgressFilter(pkt.key), MirrorId(fid), dp.value.qIn[0].queueId);
    return true, [toDcm, toRos];
  }

  lemma HitAllDefaultSnoc(v: View, portSrc: u16, pkts: seq<HitPacket>, x: HitPacket)
    requires ViewOk(v)
    ensures HitAllDefault(v, portSrc, pkts + [x]) ==
              match HitAllDefault(v, portSrc, pkts)
              case None => None
              case Some(s) =>
                match HitStepDefault(s.v, s.portSrc, x)
                case None => None
                case Some(t) => Some(Step(t.v, s.installs + t.installs, t.portSrc))
  {
    assert (pkts + [x])[..|pkts|] == pkts;
  }

  /** Once the handler has stopped, the rest of the burst does not matter. */
  lemma {:induction false} HitAllDefaultStopped(v: View, pkts: seq<HitPacket>, mask: set<nat>, i: nat)
    requires ViewOk(v) && i <= |pkts| && HitAllDefault(v, 0, Selected(pkts[..i], mask)).None?
    ensures HitAllDefault(v, 0, Selected(pkts, mask)).None?
    decreases |pkts| - i
  {
    if i < |pkts| {
      VoqSwq.SelectedStep(pkts, mask, i);
      if i in mask {
        HitAllDefaultSnoc(v, 0, Selected(pkts[..i], mask), pkts[i]);
      }
      HitAllDefaultStopped(v, pkts, mask, i + 1);
    } else {
      assert pkts[..i] == pkts;
    }
  }

  /** The handler's visit of packet i: handled when its mask bit is set. */
  method Visit(reg: Registry, ghost v0: View, pkts: seq<HitPacket>, mask: set<nat>, i: nat, installs: seq<FdirInstall>, portSrc: u16)
    returns (ok: bool, installs': seq<FdirInstall>, portSrc': u16)
    requires reg.Valid() && ViewOk(v0) && i < |pkts|
    requires HitAllDefault(v0, 0, Selected(pkts[..i], mask)) == Some(Step(ViewOf(reg.pipelines), installs, portSrc))
    modifies reg.pipelines
    ensures reg.Valid()
    ensures ok ==> HitAllDefault(v0, 0, Selected(pkts[..i + 1], mask)) == Some(Step(ViewOf(reg.pipelines), installs', portSrc'))
    ensures !ok ==> HitAllDefault(v0, 0, Selected(pkts, mask)).None?
    ensures forall p :: p in reg.pipelines ==> OutputsOnly(p)
  {
    VoqSwq.SelectedStep(pkts, mask, i);
    if i !in mask {
      return true, installs, portSrc;
    }
    HitAllDefaultSnoc(v0, 0, Selected(pkts[..i], mask), pkts[i]);
    var more;
    ok, more, portSrc' := HandleHit(reg, pkts[i], portSrc);
    if !ok {
      HitAllDefaultStopped(v0, pkts, mask, i + 1);
      return false, installs, portSrc;
    }
    installs' := installs + more;
  }

  /**
   * table_action_handler_hit: the burst's selected packets, lowest index
   * first. On success the registry and the installed filters are the
   * specification's, and the filters come in mirrored pairs.
   */
  method TableActionHandlerHit(reg: Registry, pkts: seq<HitPacket>, mask: set<nat>) returns (ok: bool, installs: seq<FdirInstall>)
    requires reg.Valid()
    modifies reg.pipelines
    ensures reg.Valid()
    ensures var r := HitHandlerDefault(old(ViewOf(reg.pipelines)), pkts, mask);
            && (ok <==> r.Some?)
            && (ok ==> ViewOf(reg.pipelines) == r.value.v && installs == r.value.installs && Paired(installs))
    ensures forall p :: p in reg.pipelines ==> OutputsOnly(p)
  {
    ghost var v0 := ViewOf(reg.pipelines);
    var portSrc: u16 := 0;
    installs := [];
    var i := 0;
    while i < |pkts|
      invariant 0 <= i <= |pkts| && reg.Valid() && ViewOk(v0)
      invariant HitAllDefault(v0, 0, Selected(pkts[..i], mask)) == Some(Step(ViewOf(reg.pipelines), installs, portSrc))
      invariant forall p :: p in reg.pipelines ==> OutputsOnly(p)
    {
      ok, installs, portSrc := Visit(reg, v0, pkts, mask, i, installs, portSrc);
      if !ok {
        return false, installs;
      }
      i := i + 1;
    }
    assert pkts[..i] == pkts;
    assert Paired(installs) by {
      HitAllDefaultPaired(v0, 0, Selected(pkts, mask));
    }
    ok := true;
  }

  // ---------------------------------------------------------------------
  // The action handler of the default pipeline's inputs

  /**
   * rx_action_handler: every packet's flow key is decoded into its metadata
   * (dataFlows: data-flow detection compiled in), and the mask marks all n
   * packets.
   */
  method RxActionHandler(frames: seq<seq<byte>>, dataFlows: bool) returns (keys: seq<DefaultKey>, mask: bv64)
    requires 1 <= |frames| <= 64
    ensures |keys| == |frames| && forall i :: 0 <= i < |frames| ==> keys[i] == DecodeDefaultKey(frames[i], dataFlows)
    ensures mask == LowMask(|frames| as bv64)
  {
    keys := FillKeys(frames, dataFlows);
    mask := LowMask(|frames| as bv64);
  }

  /** The metadata loop of the action handler. */
  method FillKeys(frames: seq<seq<byte>>, dataFlows: bool) returns (keys: seq<DefaultKey>)
    ensures |keys| == |frames| && forall i :: 0 <= i < |frames| ==> keys[i] == DecodeDefaultKey(frames[i], dataFlows)
  {
    keys := FillEach(frames, frame => DecodeDefaultKey(frame, dataFlows));
  }

  /** A per-packet metadata write, over every packet of a burst in order. */
  method FillEach(frames: seq<seq<byte>>, fill: seq<byte> -> DefaultKey) returns (keys: seq<DefaultKey>)
    ensures |keys| == |frames| && forall i :: 0 <= i < |frames| ==> keys[i] == fill(frames[i])
  {
    keys := [];
    var i := 0;
    while i < |frames|
      invariant i <= |frames| && |keys| == i
      invariant forall j :: 0 <= j < i ==> keys[j] == fill(frames[j])
    {
      keys := keys + [fill(frames[i])];
      i := i + 1;
    }
  }
}
