/**
 * The pipeline descriptor (pipeline_params): a kind, an lcore, up to 64
 * input queues and 64 output queues, each a (port, queue) pair with an
 * optional software ring, the internal port id the pipeline engine gave it
 * and, for inputs, an enabled flag. The q_in and q_out tables are fixed
 * 64-entry buffers whose first nb_q_in / nb_q_out entries are in use; the
 * entries past the count keep whatever they held before.
 */
module Pipeline {
  import opened Opt
  import opened Bytes

  const QueueInMax: nat := 64
  const QueueOutMax: nat := 64
  const RxBurstMax: nat := 32
  const TxBurstMax: nat := 32
  /** n_rules of the default pipeline's LPM table. */
  const ForwardingRulesMax: nat := 16
  /** The fdir id bits the RX data pipeline turns into an output port. */
  const QueueFromFdirIdMask: nat := 0xf
  const DcmToRosFdirIdShift: nat := 0
  const RosToDcmFdirIdShift: nat := 4

  /** enum pipeline_type; PIPELINE_TYPE_MAX is 4. */
  datatype Kind = KindNone | KindDefault | KindRxData | KindTxData
  const KindMax: nat := 4

  function KindOf(k: nat): (r: Option<Kind>)
    ensures r.Some? <==> k < KindMax
  {
    if k == 0 then Some(KindNone)
    else if k == 1 then Some(KindDefault)
    else if k == 2 then Some(KindRxData)
    else if k == 3 then Some(KindTxData)
    else None
  }

  /** A software ring, named by the (port, slot) of the datapath's ring table. */
  type RingId = (nat, nat)

  datatype InQueue = InQueue(portId: byte, queueId: u16, ring: Option<RingId>, rteId: nat, enabled: bool)
  datatype OutQueue = OutQueue(portId: byte, queueId: u16, ring: Option<RingId>, rteId: nat, dip: u32, eventId: u32)

  const ZeroIn := InQueue(0, 0, None, 0, false)
  const ZeroOut := OutQueue(0, 0, None, 0, 0, 0)

  // ---------------------------------------------------------------------
  // Lookups: each is the first match among the first n entries

  predicate InIs(q: InQueue, port: nat, queue: nat) { q.portId == port && q.queueId == queue }
  predicate OutIs(q: OutQueue, port: nat, queue: nat) { q.portId == port && q.queueId == queue }

  /** The first of the first n inputs on (port, queue). */
  function FindIn(qIn: seq<InQueue>, n: nat, port: nat, queue: nat): (r: Option<nat>)
    requires n <= |qIn|
    ensures r.Some? ==> r.value < n && InIs(qIn[r.value], port, queue)
                        && forall j :: 0 <= j < r.value ==> !InIs(qIn[j], port, queue)
    ensures r.None? ==> forall j :: 0 <= j < n ==> !InIs(qIn[j], port, queue)
  {
    if n == 0 then None
    else match FindIn(qIn, n - 1, port, queue)
      case Some(k) => Some(k)
      case None => if InIs(qIn[n - 1], port, queue) then Some(n - 1) else None
  }

  /** The first of the first n outputs on (port, queue). */
  function FindOut(qOut: seq<OutQueue>, n: nat, port: nat, queue: nat): (r: Option<nat>)
    requires n <= |qOut|
    ensures r.Some? ==> r.value < n && OutIs(qOut[r.value], port, queue)
                        && forall j :: 0 <= j < r.value ==> !OutIs(qOut[j], port, queue)
    ensures r.None? ==> forall j :: 0 <= j < n ==> !OutIs(qOut[j], port, queue)
  {
    if n == 0 then None
    else match FindOut(qOut, n - 1, port, queue)
      case Some(k) => Some(k)
      case None => if OutIs(qOut[n - 1], port, queue) then Some(n - 1) else None
  }

  /** get_q_in_index: the first of the first n inputs with internal id rid. */
  function FindRte(qIn: seq<InQueue>, n: nat, rid: nat): (r: Option<nat>)
    requires n <= |qIn|
    ensures r.Some? ==> r.value < n && qIn[r.value].rteId == rid
                        && forall j :: 0 <= j < r.value ==> qIn[j].rteId != rid
    ensures r.None? ==> forall j :: 0 <= j < n ==> qIn[j].rteId != rid
  {
    if n == 0 then None
    else match FindRte(qIn, n - 1, rid)
      case Some(k) => Some(k)
      case None => if qIn[n - 1].rteId == rid then Some(n - 1) else None
  }

  /** pipeline_get_next_available_in_queue: the first input on port not yet enabled. */
  function FirstIdle(qIn: seq<InQueue>, n: nat, port: nat): (r: Option<nat>)
    requires n <= |qIn|
    ensures r.Some? ==> r.value < n && qIn[r.value].portId == port && !qIn[r.value].enabled
                        && forall j :: 0 <= j < r.value ==> qIn[j].portId != port || qIn[j].enabled
    ensures r.None? ==> forall j :: 0 <= j < n ==> qIn[j].portId != port || qIn[j].enabled
  {
    if n == 0 then None
    else match FirstIdle(qIn, n - 1, port)
      case Some(k) => Some(k)
      case None => if qIn[n - 1].portId == port && !qIn[n - 1].enabled then Some(n - 1) else None
  }

  // ---------------------------------------------------------------------
  // The append rules

  /** pipeline_init_port_in accepts (port, queue, ring) as input number n. */
  predicate AcceptIn(kind: Kind, qIn: seq<InQueue>, n: nat, port: byte, queue: u16, ring: Option<RingId>)
    requires n <= |qIn|
  {
    && n < QueueInMax
    && !(ring.None? && kind == KindTxData)
    && !(ring.Some? && kind == KindRxData)
    && (n > 0 && kind == KindRxData ==> qIn[n - 1].queueId == queue)
    && (n > 0 && kind == KindTxData ==> qIn[n - 1].portId == port)
  }

  /** pipeline_init_port_out accepts (port, queue, ring) as output number n. */
  predicate AcceptOut(kind: Kind, qOut: seq<OutQueue>, n: nat, port: byte, queue: u16, ring: Option<RingId>)
    requires n <= |qOut|
  {
    && n < QueueOutMax
    && !(ring.Some? && kind == KindTxData)
    && !(ring.None? && kind == KindRxData)
    && (n > 0 && (kind == KindRxData || kind == KindTxData) ==> qOut[n - 1].portId == port)
  }

  /**
   * What the append rules guarantee of a data pipeline: an RX data pipeline
   * reads one queue id on ring-less inputs and writes rings of one port; a TX
   * data pipeline reads rings of one port and writes ring-less queues of one port.
   */
  predicate InRules(kind: Kind, qIn: seq<InQueue>, n: nat)
    requires n <= |qIn|
  {
    && (kind == KindRxData ==> forall i :: 0 <= i < n ==> qIn[i].ring.None? && qIn[i].queueId == qIn[0].queueId)
    && (kind == KindTxData ==> forall i :: 0 <= i < n ==> qIn[i].ring.Some? && qIn[i].portId == qIn[0].portId)
  }

  predicate OutRules(kind: Kind, qOut: seq<OutQueue>, n: nat)
    requires n <= |qOut|
  {
    && (kind == KindRxData ==> forall i :: 0 <= i < n ==> qOut[i].ring.Some? && qOut[i].portId == qOut[0].portId)
    && (kind == KindTxData ==> forall i :: 0 <= i < n ==> qOut[i].ring.None? && qOut[i].portId == qOut[0].portId)
  }

  /** An accepted input keeps the input rules. */
  lemma AcceptInKeepsRules(kind: Kind, qIn: seq<InQueue>, n: nat, port: byte, queue: u16, ring: Option<RingId>, rteId: nat)
    requires n < |qIn| && InRules(kind, qIn, n) && AcceptIn(kind, qIn, n, port, queue, ring)
    ensures InRules(kind, qIn[n := InQueue(port, queue, ring, rteId, false)], n + 1)
  {
    var q := qIn[n := InQueue(port, queue, ring, rteId, false)];
    assert forall i :: 0 <= i < n ==> q[i] == qIn[i];
  }

  /** An accepted output keeps the output rules. */
  lemma AcceptOutKeepsRules(kind: Kind, qOut: seq<OutQueue>, n: nat, port: byte, queue: u16, ring: Option<RingId>)
    requires n < |qOut| && OutRules(kind, qOut, n) && AcceptOut(kind, qOut, n, port, queue, ring)
    ensures OutRules(kind, qOut[n := qOut[n].(portId := port, queueId := queue, ring := ring)], n + 1)
  {
    var q := qOut[n := qOut[n].(portId := port, queueId := queue, ring := ring)];
    assert forall i :: 0 <= i < n ==> q[i] == qOut[i];
  }

  // ---------------------------------------------------------------------
  // Enabling an input

  /**
   * The inputs after enabling (port, queue): the first matching input is
   * flagged enabled and nothing else changes; None when no input matches.
   */
  function EnableIn(qIn: seq<InQueue>, n: nat, port: nat, queue: nat): (r: Option<seq<InQueue>>)
    requires n <= |qIn|
    ensures r.None? <==> FindIn(qIn, n, port, queue).None?
    ensures r.Some? ==> var k := FindIn(qIn, n, port, queue).value;
                        && |r.value| == |qIn| && r.value[k] == qIn[k].(enabled := true)
                        && forall j :: 0 <= j < |qIn| && j != k ==> r.value[j] == qIn[j]
  {
    match FindIn(qIn, n, port, queue)
    case None => None
    case Some(k) => Some(qIn[k := qIn[k].(enabled := true)])
  }

  /** Enabling twice is enabling once. */
  lemma EnableInIdempotent(qIn: seq<InQueue>, n: nat, port: nat, queue: nat)
    requires n <= |qIn| && EnableIn(qIn, n, port, queue).Some?
    ensures EnableIn(EnableIn(qIn, n, port, queue).value, n, port, queue) == EnableIn(qIn, n, port, queue)
  {
    var q1 := EnableIn(qIn, n, port, queue).value;
    var k := FindIn(qIn, n, port, queue).value;
    assert forall j :: 0 <= j < n ==> InIs(q1[j], port, queue) == InIs(qIn[j], port, queue);
    assert FindIn(q1, n, port, queue) == Some(k);
    assert q1[k := q1[k].(enabled := true)] == q1;
  }

  /**
   * pipeline_enable_port_in as written: get_internal_port_in_id scans q_in
   * up to nb_q_out, the engine enables the internal id found (it knows
   * nb_q_in inputs), and get_q_in_index maps that id back to an input.
   */
  function EnableInAsWritten(qIn: seq<InQueue>, nIn: nat, nOut: nat, port: nat, queue: nat): Option<seq<InQueue>>
    requires nIn <= |qIn| && nOut <= |qIn|
  {
    match FindIn(qIn, nOut, port, queue)
    case None => None
    case Some(k) =>
      var rid := qIn[k].rteId;
      if rid >= nIn then None
      else match FindRte(qIn, nIn, rid)
        case None => None
        case Some(i) => Some(qIn[i := qIn[i].(enabled := true)])
  }

  /** Inputs numbered by the engine in creation order, as every configure leaves them. */
  predicate Numbered(qIn: seq<InQueue>, n: nat)
    requires n <= |qIn|
  {
    forall i :: 0 <= i < n ==> qIn[i].rteId == i
  }

  /**
   * With two inputs and one output, enabling the second input fails as
   * written, since the scan stops at nb_q_out; scanning nb_q_in finds it.
   */
  lemma EnableInAsWrittenMissesInput(qIn: seq<InQueue>, queue: u16)
    requires |qIn| == QueueInMax
    requires qIn[0] == InQueue(0, queue, None, 0, false) && qIn[1] == InQueue(1, queue, None, 1, false)
    ensures EnableInAsWritten(qIn, 2, 1, 1, queue).None?
    ensures EnableIn(qIn, 2, 1, queue) == Some(qIn[1 := InQueue(1, queue, None, 1, true)])
  {
    assert FindIn(qIn, 1, 1, queue).None?;
  }

  /** On numbered inputs the id found maps back to the same input, so the scans agree once bounded by nb_q_in. */
  lemma EnableInNumbered(qIn: seq<InQueue>, n: nat, port: nat, queue: nat)
    requires n <= |qIn| && Numbered(qIn, n)
    ensures EnableInAsWritten(qIn, n, n, port, queue) == EnableIn(qIn, n, port, queue)
  {
    match FindIn(qIn, n, port, queue)
    case None =>
    case Some(k) =>
      assert FindRte(qIn, n, k) == Some(k);
  }

  // ---------------------------------------------------------------------
  // The descriptor

  datatype MsgReq = EnablePortInReq(port: byte, queue: u16)

  class Pipeline {
    var kind: Kind
    var lcoreId: nat
    var qIn: seq<InQueue>
    var nbQIn: nat
    var qOut: seq<OutQueue>
    var nbQOut: nat
    /** The default pipeline's LPM table: depth-32 rules from address to internal output id. */
    var rules: map<u32, nat>
    /** The request message ring. */
    var requests: seq<MsgReq>
    /** pp->pipeline != NULL: the engine has been built by a configure call. */
    var built: bool

    predicate Valid()
      reads this
    {
      |qIn| == QueueInMax && |qOut| == QueueOutMax && nbQIn <= QueueInMax && nbQOut <= QueueOutMax
    }

    /** A descriptor in static storage: all zero. */
    constructor ()
      ensures Valid() && kind == KindNone && nbQIn == 0 && nbQOut == 0 && rules == map[] && requests == [] && !built
      ensures qIn == seq(QueueInMax, i => ZeroIn) && qOut == seq(QueueOutMax, i => ZeroOut)
    {
      kind := KindNone;
      lcoreId := 0;
      qIn := seq(QueueInMax, i => ZeroIn);
      nbQIn := 0;
      qOut := seq(QueueOutMax, i => ZeroOut);
      nbQOut := 0;
      rules := map[];
      requests := [];
      built := false;
    }

    /** pipeline_init: rejects an unknown kind; otherwise records lcore and kind and empties both tables. */
    method Init(lcore: nat, k: nat) returns (ok: bool)
      requires Valid()
      modifies this
      ensures Valid()
      ensures ok <==> k < KindMax
      ensures ok ==> kind == KindOf(k).value && lcoreId == lcore && nbQIn == 0 && nbQOut == 0 && requests == []
      ensures ok ==> qIn == old(qIn) && qOut == old(qOut) && rules == old(rules) && built == old(built)
      ensures !ok ==> unchanged(this)
    {
      var kk := KindOf(k);
      if kk.None? {
        return false;
      }
      lcoreId := lcore;
      kind := kk.value;
      nbQIn := 0;
      nbQOut := 0;
      requests := [];
      ok := true;
    }

    /** pipeline_init_port_in: appends a disabled input when the rules accept it; otherwise changes nothing. */
    method InitPortIn(port: byte, queue: u16, ring: Option<RingId>) returns (ok: bool)
      requires Valid()
      modifies this
      ensures Valid()
      ensures ok <==> AcceptIn(old(kind), old(qIn), old(nbQIn), port, queue, ring)
      ensures ok ==> && qIn == old(qIn)[old(nbQIn) := InQueue(port, queue, ring, old(qIn)[old(nbQIn)].rteId, false)]
                     && nbQIn == old(nbQIn) + 1
                     && kind == old(kind) && qOut == old(qOut) && nbQOut == old(nbQOut)
                     && rules == old(rules) && requests == old(requests) && built == old(built) && lcoreId == old(lcoreId)
      ensures !ok ==> unchanged(this)
    {
      if !AcceptIn(kind, qIn, nbQIn, port, queue, ring) {
        return false;
      }
      qIn := qIn[nbQIn := InQueue(port, queue, ring, qIn[nbQIn].rteId, false)];
      nbQIn := nbQIn + 1;
      ok := true;
    }

    /** pipeline_init_port_out: appends an output when the rules accept it; its other fields keep what the slot held. */
    method InitPortOut(port: byte, queue: u16, ring: Option<RingId>) returns (ok: bool)
      requires Valid()
      modifies this
      ensures Valid()
      ensures ok <==> AcceptOut(old(kind), old(qOut), old(nbQOut), port, queue, ring)
      ensures ok ==> && qOut == old(qOut)[old(nbQOut) := old(qOut)[old(nbQOut)].(portId := port, queueId := queue, ring := ring)]
                     && nbQOut == old(nbQOut) + 1
                     && kind == old(kind) && qIn == old(qIn) && nbQIn == old(nbQIn)
                     && rules == old(rules) && requests == old(requests) && built == old(built) && lcoreId == old(lcoreId)
      ensures !ok ==> unchanged(this)
    {
      if !AcceptOut(kind, qOut, nbQOut, port, queue, ring) {
        return false;
      }
      qOut := qOut[nbQOut := qOut[nbQOut].(portId := port, queueId := queue, ring := ring)];
      nbQOut := nbQOut + 1;
      ok := true;
    }

    /** get_internal_port_out_id: the internal id of the first output on (port, queue). */
    method InternalPortOutId(port: nat, queue: nat) returns (r: Option<nat>)
      requires Valid()
      ensures r.None? <==> FindOut(qOut, nbQOut, port, queue).None?
      ensures r.Some? ==> r.value == qOut[FindOut(qOut, nbQOut, port, queue).value].rteId
    {
      var i := 0;
      while i < nbQOut
        invariant i <= nbQOut && FindOut(qOut, i, port, queue).None?
      {
        if qOut[i].portId == port && qOut[i].queueId == queue {
          return Some(qOut[i].rteId);
        }
        i := i + 1;
      }
      return None;
    }

    /** get_internal_port_in_id, scanning the nb_q_in inputs in use. */
    method InternalPortInId(port: nat, queue: nat) returns (r: Option<nat>)
      requires Valid()
      ensures r.None? <==> FindIn(qIn, nbQIn, port, queue).None?
      ensures r.Some? ==> r.value == qIn[FindIn(qIn, nbQIn, port, queue).value].rteId
    {
      var i := 0;
      while i < nbQIn
        invariant i <= nbQIn && FindIn(qIn, i, port, queue).None?
      {
        if qIn[i].portId == port && qIn[i].queueId == queue {
          return Some(qIn[i].rteId);
        }
        i := i + 1;
      }
      return None;
    }

    /** get_q_in_index: the first input in use with internal id rid. */
    method QInIndex(rid: nat) returns (r: Option<nat>)
      requires Valid()
      ensures r == FindRte(qIn, nbQIn, rid)
    {
      var i := 0;
      while i < nbQIn
        invariant i <= nbQIn && FindRte(qIn, i, rid).None?
      {
        if qIn[i].rteId == rid {
          return Some(i);
        }
        i := i + 1;
      }
      return None;
    }

    /**
     * pipeline_enable_port_in on a built pipeline whose inputs the engine
     * numbered: flags exactly the input on (port, queue); fails without a
     * change when there is none.
     */
    method EnablePortIn(port: nat, queue: nat) returns (ok: bool)
      requires Valid() && built && Numbered(qIn, nbQIn)
      modifies this
      ensures Valid() && built && Numbered(qIn, nbQIn)
      ensures ok <==> EnableIn(old(qIn), old(nbQIn), port, queue).Some?
      ensures ok ==> qIn == EnableIn(old(qIn), old(nbQIn), port, queue).value
      ensures !ok ==> qIn == old(qIn)
      ensures kind == old(kind) && nbQIn == old(nbQIn) && qOut == old(qOut) && nbQOut == old(nbQOut)
      ensures rules == old(rules) && requests == old(requests) && lcoreId == old(lcoreId)
    {
      var rid := InternalPortInId(port, queue);
      if rid.None? {
        return false;
      }
      var idx := QInIndex(rid.value);
      assert FindRte(qIn, nbQIn, rid.value) == FindIn(qIn, nbQIn, port, queue);
      qIn := qIn[idx.value := qIn[idx.value].(enabled := true)];
      ok := true;
    }

    /** pipeline_get_next_available_in_queue: the queue of the first input on port not yet enabled. */
    method NextAvailableInQueue(port: nat) returns (r: Option<u16>)
      requires Valid()
      ensures r.None? <==> FirstIdle(qIn, nbQIn, port).None?
      ensures r.Some? ==> r.value == qIn[FirstIdle(qIn, nbQIn, port).value].queueId
    {
      var i := 0;
      while i < nbQIn
        invariant i <= nbQIn && FirstIdle(qIn, i, port).None?
      {
        if qIn[i].portId == port && !qIn[i].enabled {
          return Some(qIn[i].queueId);
        }
        i := i + 1;
      }
      return None;
    }

    /**
     * pipeline_add_ipv4_rule: only the default pipeline takes rules, and only
     * towards an output it has; the LPM table then maps the address (a
     * depth-32 prefix) to that output's internal id, and refuses a new
     * address once it holds 16 rules.
     */
    method AddIpv4Rule(ip: u32, port: byte, queue: u16) returns (ok: bool)
      requires Valid()
      modifies this
      ensures Valid()
      ensures ok <==> && old(kind) == KindDefault && FindOut(old(qOut), old(nbQOut), port, queue).Some?
                      && (ip in old(rules) || |old(rules)| < ForwardingRulesMax)
      ensures ok ==> rules == old(rules)[ip := old(qOut)[FindOut(old(qOut), old(nbQOut), port, queue).value].rteId]
      ensures !ok ==> rules == old(rules)
      ensures kind == old(kind) && qIn == old(qIn) && nbQIn == old(nbQIn) && qOut == old(qOut) && nbQOut == old(nbQOut)
      ensures requests == old(requests) && built == old(built) && lcoreId == old(lcoreId)
    {
      if kind != KindDefault {
        return false;
      }
      var id := InternalPortOutId(port, queue);
      if id.None? {
        return false;
      }
      if ip !in rules && |rules| >= ForwardingRulesMax {
        return false;
      }
      rules := rules[ip := id.value];
      ok := true;
    }

    /**
     * pipeline_msg_handle: with no queued request nothing changes; otherwise
     * exactly one request is consumed and carried out, its result ignored.
     */
    method HandleMsg()
      requires Valid() && built && Numbered(qIn, nbQIn)
      modifies this
      ensures Valid() && built && Numbered(qIn, nbQIn)
      ensures old(requests) == [] ==> unchanged(this)
      ensures old(requests) != [] ==>
                var req := old(requests)[0];
                var e := EnableIn(old(qIn), old(nbQIn), req.port as nat, req.queue as nat);
                && requests == old(requests)[1..]
                && qIn == (if e.Some? then e.value else old(qIn))
      ensures kind == old(kind) && nbQIn == old(nbQIn) && qOut == old(qOut) && nbQOut == old(nbQOut) && rules == old(rules)
    {
      if requests == [] {
        return;
      }
      var req := requests[0];
      requests := requests[1..];
      match req
      case EnablePortInReq(port, queue) =>
        var _ := EnablePortIn(port as nat, queue as nat);
    }
  }
}
