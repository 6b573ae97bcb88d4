/**
 * The OpenFlow helper of the controller scripts: a bridge's MAC address and
 * its ports towards other bridges, the flows a data collection manager
 * (Dcm) installs and removes on a bridge and how their ids name the Dcm,
 * and the name conventions of the leaf-spine topology (plane-X-spine-Y,
 * plane-X-pod-Y, and end nodes named after their pod).
 */
module OpenFlow {
  import opened Opt
  import opened Bytes
  import opened Text
  import Ovsdb

  // ---------------------------------------------------------------------
  // Arithmetic behind the MAC address.

  /** 2^(8i), the divisor of a right shift by 8i bits. */
  function Pow256(i: nat): (p: nat)
    ensures p >= 1
  {
    if i == 0 then 1 else 256 * Pow256(i - 1)
  }

  lemma MulMono(m: nat, x: nat, y: nat)
    requires x <= y
    ensures m * x <= m * y
  {
    assert m * y == m * x + m * (y - x);
  }

  lemma Distrib(x: int, y: int, z: int)
    ensures x * (y + z) == x * y + x * z
  {
  }

  lemma Assoc(x: int, y: int, z: int)
    ensures x * (y * z) == (x * y) * z
  {
  }

  /** Quotient and remainder are the only ones that fit. */
  lemma DivModUnique(a: nat, m: nat, q: nat, r: nat)
    requires 0 < m && r < m && a == m * q + r
    ensures a / m == q && a % m == r
  {
    var q0, r0 := a / m, a % m;
    assert a == m * q0 + r0;
    if q0 < q {
      MulMono(m, q0 + 1, q);
      Distrib(m, q0, 1);
    } else if q0 > q {
      MulMono(m, q + 1, q0);
      Distrib(m, q, 1);
    }
  }

  lemma DivModParts(a: nat, m: nat)
    requires 0 < m
    ensures a == m * (a / m) + a % m && a % m < m
  {
  }

  /** Dividing by b, then by c, is dividing by b * c. */
  lemma DivDiv(a: nat, b: nat, c: nat)
    requires 0 < b && 0 < c
    ensures a / b / c == a / (b * c)
  {
    var d := a / b;
    var q, r2, r1 := d / c, d % c, a % b;
    DivModParts(a, b);
    DivModParts(d, c);
    assert a == b * d + r1;
    assert d == c * q + r2;
    Distrib(b, c * q, r2);
    Assoc(b, c, q);
    assert a == (b * c) * q + (b * r2 + r1);
    MulMono(b, r2, c - 1);
    Distrib(b, c - 1, 1);
    DivModUnique(a, b * c, q, b * r2 + r1);
  }

  /** Shifting by 8 bits, then by 8i more, is shifting by 8(i + 1). */
  lemma ShiftTwice(a: nat, i: nat)
    ensures a / 256 / Pow256(i) == a / Pow256(i + 1)
  {
    DivDiv(a, 256, Pow256(i));
  }

  /** The low 8(m + 1) bits are the low 8m bits of a >> 8, then the low byte. */
  lemma LowBytesSplit(a: nat, m: nat)
    ensures (a / 256 % Pow256(m)) * 256 + a % 256 == a % Pow256(m + 1)
  {
    var M := Pow256(m);
    var t := a / 256;
    DivModParts(a, 256);
    DivModParts(t, M);
    Recombine(a, a % 256, t / M, t % M, M);
    DivModUnique(a, 256 * M, t / M, t % M * 256 + a % 256);
  }

  /** a = 256 (M q + r) + a0 is a = (256 M) q + (256 r + a0), and the second part is below 256 M. */
  lemma Recombine(a: nat, a0: nat, q: nat, r: nat, M: nat)
    requires a == 256 * (M * q + r) + a0 && a0 < 256 && r < M
    ensures a == (256 * M) * q + (r * 256 + a0) && r * 256 + a0 < 256 * M
  {
    Distrib(256, M * q, r);
    Assoc(256, M, q);
    MulMono(256, r, M - 1);
    Distrib(256, M - 1, 1);
  }

  // ---------------------------------------------------------------------
  // Bridge

  /** (id >> 8*i) & 0xff: the i-th byte of the id, counting from the least significant. */
  function MacByte(id: nat, i: nat): byte
  {
    (id / Pow256(i)) % 256
  }

  /** The six bytes get_mac prints, most significant first. */
  function MacBytes(id: nat): (bs: seq<byte>)
    ensures |bs| == 6
  {
    seq(6, k requires 0 <= k < 6 => MacByte(id, 5 - k))
  }

  /** get_mac: the low 48 bits of the OpenFlow id as six '%02X' pairs joined by ':'. */
  function GetMac(id: nat): (mac: string)
    ensures |mac| == 17
  {
    Ovsdb.ColonHex(MacBytes(id))
  }

  /** The low m bytes of a, most significant first. */
  function LowBytes(a: nat, m: nat): (bs: seq<byte>)
    ensures |bs| == m
  {
    if m == 0 then [] else LowBytes(a / 256, m - 1) + [a % 256]
  }

  /** LowBytes lists the bytes get_mac computes with shifts. */
  lemma {:induction false} LowBytesAre(a: nat, m: nat)
    ensures forall k :: 0 <= k < m ==> LowBytes(a, m)[k] == MacByte(a, m - 1 - k)
  {
    if m > 0 {
      LowBytesAre(a / 256, m - 1);
      forall k | 0 <= k < m - 1
        ensures LowBytes(a, m)[k] == MacByte(a, m - 1 - k)
      {
        ShiftTwice(a, m - 2 - k);
      }
    }
  }

  /** The low m bytes read back as a modulo 2^(8m). */
  lemma {:induction false} LowBytesValue(a: nat, m: nat)
    ensures Ovsdb.BigEndian(LowBytes(a, m)) == a % Pow256(m)
  {
    if m > 0 {
      LowBytesValue(a / 256, m - 1);
      var bs := LowBytes(a, m);
      assert bs[..|bs| - 1] == LowBytes(a / 256, m - 1);
      LowBytesSplit(a, m - 1);
    }
  }

  /** The MAC address's bytes are the low 48 bits of the id, most significant first. */
  lemma MacBytesValue(id: nat)
    ensures Ovsdb.BigEndian(MacBytes(id)) == id % Pow256(6)
  {
    LowBytesAre(id, 6);
    assert MacBytes(id) == LowBytes(id, 6);
    LowBytesValue(id, 6);
  }

  /**
   * get_mac and the datapath-id parser of the OVSDB helper agree: the MAC
   * string, read as a datapath-id, gives back the id's low 48 bits.
   */
  lemma MacReadsBack(id: nat)
    ensures Ovsdb.DatapathId(GetMac(id)) == Some(id % 0x1_0000_0000_0000)
  {
    Ovsdb.DatapathIdOfColonHex(MacBytes(id));
    MacBytesValue(id);
    assert Pow256(6) == 0x1_0000_0000_0000;
  }

  /** One link of the operational topology: its link-id and the dest-tp of its destination. */
  datatype Link = Link(linkId: string, destTp: string)

  /** What the constructor's loop does with one link. */
  datatype LinkParse = Skip | Entry(sport: nat, peer: (nat, nat)) | Raises

  /** The node connector 'openflow:<node>:<port>'. */
  function Connector(node: nat, port: nat): string
  {
    "openflow:" + Str(node) + ":" + Str(port)
  }

  /**
   * The fields of a selected link: the port after the last ':' of the
   * link-id, and the node and port that close the destination; where
   * int() or an index raises, Raises.
   */
  function LinkEntry(l: Link): LinkParse
  {
    match SplitLast(l.linkId, ':')
    case None => Raises
    case Some(src) =>
      match SplitLast(l.destTp, ':')
      case None => Raises
      case Some(dst) =>
        match SplitLast(dst.0, ':')
        case None => Raises
        case Some(dstNode) =>
          var sport, node, port := ParseNat(src.1), ParseNat(dstNode.1), ParseNat(dst.1);
          if sport.Some? && node.Some? && port.Some? then Entry(sport.value, (node.value, port.value)) else Raises
  }

  /** The link selection as written: the id's digits anywhere in the link-id, and no '/'. */
  predicate SelectedAsWritten(l: Link, id: nat)
  {
    Contains(l.linkId, Str(id)) && '/' !in l.linkId
  }

  /** The links that leave this bridge: the link-id's node connector is on node id. */
  predicate Selected(l: Link, id: nat)
  {
    '/' !in l.linkId && SplitLast(l.linkId, ':').Some? && SplitLast(l.linkId, ':').value.0 == "openflow:" + Str(id)
  }

  /** One step of the constructor's loop as written. */
  function ParseLinkAsWritten(l: Link, id: nat): LinkParse
  {
    if SelectedAsWritten(l, id) then LinkEntry(l) else Skip
  }

  /** One step of the constructor's loop, taking only the links that leave this bridge. */
  function ParseLink(l: Link, id: nat): LinkParse
  {
    if Selected(l, id) then LinkEntry(l) else Skip
  }

  /** A digit string holds no other character. */
  lemma NotInDigits(s: string, c: char)
    requires AllDigits(s) && !IsDigit(c)
    ensures c !in s
  {
  }

  /** A node connector splits at its last ':' into node and port, holds no '/', and holds its port's digits. */
  lemma ConnectorParts(a: nat, p: nat)
    ensures SplitLast(Connector(a, p), ':') == Some(("openflow:" + Str(a), Str(p)))
    ensures '/' !in Connector(a, p)
    ensures Contains(Connector(a, p), Str(p))
  {
    ConnectorSplit(a, p);
    ConnectorNoSlash(a, p);
    ConnectorHoldsPort(a, p);
  }

  lemma ConnectorSplit(a: nat, p: nat)
    ensures SplitLast(Connector(a, p), ':') == Some(("openflow:" + Str(a), Str(p)))
  {
    NotInDigits(Str(p), ':');
    var pre := "openflow:" + Str(a);
    assert Connector(a, p) == pre + [':'] + Str(p);
    SplitLastJoin(pre, ':', Str(p));
  }

  lemma ConnectorNoSlash(a: nat, p: nat)
    ensures '/' !in Connector(a, p)
  {
    NotInDigits(Str(a), '/');
    NotInDigits(Str(p), '/');
  }

  lemma ConnectorHoldsPort(a: nat, p: nat)
    ensures Contains(Connector(a, p), Str(p))
  {
    var pre := "openflow:" + Str(a);
    var c := Connector(a, p);
    assert c == pre + [':'] + Str(p);
    assert c[|pre| + 1..] == Str(p);
    assert StartsWith(c[|pre| + 1..], Str(p));
  }

  /** The fields of a link between two node connectors are read back. */
  lemma LinkEntryOfConnectors(a: nat, p: nat, b: nat, q: nat)
    ensures LinkEntry(Link(Connector(a, p), Connector(b, q))) == Entry(p, (b, q))
  {
    ConnectorParts(a, p);
    ConnectorParts(b, q);
    NotInDigits(Str(b), ':');
    assert "openflow:" + Str(b) == "openflow" + [':'] + Str(b);
    SplitLastJoin("openflow", ':', Str(b));
    StrRoundTrip(p);
    StrRoundTrip(b);
    StrRoundTrip(q);
  }

  /** A link leaving node a is selected by bridge id exactly when a == id. */
  lemma SelectedConnector(a: nat, p: nat, destTp: string, id: nat)
    ensures Selected(Link(Connector(a, p), destTp), id) <==> a == id
  {
    ConnectorParts(a, p);
    var x, y := "openflow:" + Str(a), "openflow:" + Str(id);
    if x == y {
      assert Str(a) == x[9..] && Str(id) == y[9..];
      StrInjective(a, id);
    }
  }

  /**
   * A link between two OpenFlow node connectors is taken by exactly the
   * bridge it leaves, which records the peer node and port under its own
   * port number.
   */
  lemma ParseLinkOfConnectors(a: nat, p: nat, b: nat, q: nat, id: nat)
    ensures ParseLink(Link(Connector(a, p), Connector(b, q)), id) == if a == id then Entry(p, (b, q)) else Skip
  {
    LinkEntryOfConnectors(a, p, b, q);
    SelectedConnector(a, p, Connector(b, q), id);
  }

  /**
   * As written, a bridge whose id is the number of another bridge's port
   * takes that port's link for its own: bridge 1 records bridge 5's link
   * 'openflow:5:1' as its port 1.
   */
  lemma LinkSelectionOverreaches(a: nat, p: nat, b: nat, q: nat)
    requires a != p
    ensures ParseLinkAsWritten(Link(Connector(a, p), Connector(b, q)), p) == Entry(p, (b, q))
    ensures ParseLink(Link(Connector(a, p), Connector(b, q)), p) == Skip
  {
    ConnectorParts(a, p);
    LinkEntryOfConnectors(a, p, b, q);
    SelectedConnector(a, p, Connector(b, q), p);
  }

  /** What the constructor's loop does with each listed link, in order. */
  function Steps(links: seq<Link>, id: nat): (steps: seq<LinkParse>)
    ensures |steps| == |links|
    ensures forall i :: 0 <= i < |links| ==> steps[i] == ParseLink(links[i], id)
  {
    seq(|links|, i requires 0 <= i < |links| => ParseLink(links[i], id))
  }

  /**
   * The port table built from the steps: later entries for the same port
   * overwrite earlier ones; a step that raises leaves the constructor.
   */
  function Table(steps: seq<LinkParse>): Option<map<nat, (nat, nat)>>
  {
    if steps == [] then Some(map[])
    else
      match Table(steps[..|steps| - 1])
      case None => None
      case Some(m) =>
        match steps[|steps| - 1]
        case Raises => None
        case Skip => Some(m)
        case Entry(p, peer) => Some(m[p := peer])
  }

  /**
   * The port table Bridge.__init__ builds from the listed links, with a link
   * taken when its source node is exactly this bridge (ParseLinkAsWritten is
   * the substring test of the code).
   */
  function PortsFrom(links: seq<Link>, id: nat): Option<map<nat, (nat, nat)>>
  {
    Table(Steps(links, id))
  }

  /** The step is an entry for local port p. */
  predicate FromPort(step: LinkParse, p: nat)
  {
    step.Entry? && step.sport == p
  }

  /** Some step is an entry for port p. */
  predicate AnyFrom(steps: seq<LinkParse>, p: nat)
  {
    exists i :: 0 <= i < |steps| && FromPort(steps[i], p)
  }

  /** The last entry for port p has the given peer. */
  predicate LastFrom(steps: seq<LinkParse>, p: nat, peer: (nat, nat))
  {
    exists i :: 0 <= i < |steps| && FromPort(steps[i], p) && steps[i].peer == peer &&
                (forall j :: i < j < |steps| ==> !FromPort(steps[j], p))
  }

  /** The table raises exactly when some step raises. */
  lemma {:induction false} TableRaisesIff(steps: seq<LinkParse>)
    ensures Table(steps).None? <==> exists i :: 0 <= i < |steps| && steps[i].Raises?
    decreases |steps|
  {
    if steps != [] {
      var n := |steps|;
      var init := steps[..n - 1];
      TableRaisesIff(init);
      if exists i :: 0 <= i < n && steps[i].Raises? {
        var i :| 0 <= i < n && steps[i].Raises?;
        if i < n - 1 {
          assert init[i].Raises?;
        }
      }
      if exists i :: 0 <= i < n - 1 && init[i].Raises? {
        var i :| 0 <= i < n - 1 && init[i].Raises?;
        assert steps[i].Raises?;
      }
    }
  }

  /** AnyFrom and LastFrom over one more step that is not an entry for p. */
  lemma FromExtend(steps: seq<LinkParse>, p: nat)
    requires |steps| > 0 && !FromPort(steps[|steps| - 1], p)
    ensures AnyFrom(steps, p) <==> AnyFrom(steps[..|steps| - 1], p)
    ensures forall peer :: LastFrom(steps, p, peer) <==> LastFrom(steps[..|steps| - 1], p, peer)
  {
    AnyFromExtend(steps, p);
    forall peer
      ensures LastFrom(steps, p, peer) <==> LastFrom(steps[..|steps| - 1], p, peer)
    {
      LastFromExtend(steps, p, peer);
    }
  }

  lemma AnyFromExtend(steps: seq<LinkParse>, p: nat)
    requires |steps| > 0 && !FromPort(steps[|steps| - 1], p)
    ensures AnyFrom(steps, p) <==> AnyFrom(steps[..|steps| - 1], p)
  {
    var n := |steps|;
    var init := steps[..n - 1];
    if AnyFrom(steps, p) {
      var i :| 0 <= i < n && FromPort(steps[i], p);
      assert FromPort(init[i], p);
    }
    if AnyFrom(init, p) {
      var i :| 0 <= i < n - 1 && FromPort(init[i], p);
      assert FromPort(steps[i], p);
    }
  }

  lemma LastFromExtend(steps: seq<LinkParse>, p: nat, peer: (nat, nat))
    requires |steps| > 0 && !FromPort(steps[|steps| - 1], p)
    ensures LastFrom(steps, p, peer) <==> LastFrom(steps[..|steps| - 1], p, peer)
  {
    var n := |steps|;
    var init := steps[..n - 1];
    if LastFrom(steps, p, peer) {
      var i :| 0 <= i < n && FromPort(steps[i], p) && steps[i].peer == peer &&
               (forall j :: i < j < n ==> !FromPort(steps[j], p));
      forall j | i < j < n - 1
        ensures !FromPort(init[j], p)
      {
        assert init[j] == steps[j];
      }
      assert FromPort(init[i], p) && init[i].peer == peer;
    }
    if LastFrom(init, p, peer) {
      var i :| 0 <= i < n - 1 && FromPort(init[i], p) && init[i].peer == peer &&
               (forall j :: i < j < n - 1 ==> !FromPort(init[j], p));
      forall j | i < j < n
        ensures !FromPort(steps[j], p)
      {
        if j < n - 1 {
          assert init[j] == steps[j];
        }
      }
      assert FromPort(steps[i], p) && steps[i].peer == peer;
    }
  }

  /**
   * The table holds a port exactly when some step is an entry for it, and
   * the peer of the last such entry.
   */
  lemma {:induction false} TableLastWins(steps: seq<LinkParse>)
    requires Table(steps).Some?
    ensures forall p :: p in Table(steps).value <==> AnyFrom(steps, p)
    ensures forall p :: p in Table(steps).value ==> LastFrom(steps, p, Table(steps).value[p])
    decreases |steps|
  {
    if steps != [] {
      var n := |steps|;
      var init := steps[..n - 1];
      TableLastWins(init);
      var m := Table(init).value;
      var r := Table(steps).value;
      var last := steps[n - 1];
      forall p
        ensures p in r <==> AnyFrom(steps, p)
        ensures p in r ==> LastFrom(steps, p, r[p])
      {
        if FromPort(last, p) {
          assert r == m[p := last.peer];
          assert FromPort(steps[n - 1], p) && steps[n - 1].peer == r[p];
        } else {
          FromExtend(steps, p);
        }
      }
    }
  }

  /**
   * Bridge.__init__ raises exactly when some listed link's fields cannot be
   * read; otherwise its ports are the local ports of the links it takes,
   * each with the peer of the last link taken from it.
   */
  lemma PortsFromSpec(links: seq<Link>, id: nat)
    ensures PortsFrom(links, id).None? <==> exists i :: 0 <= i < |links| && ParseLink(links[i], id).Raises?
    ensures PortsFrom(links, id).Some? ==>
              (forall p :: p in PortsFrom(links, id).value <==> AnyFrom(Steps(links, id), p)) &&
              (forall p :: p in PortsFrom(links, id).value ==> LastFrom(Steps(links, id), p, PortsFrom(links, id).value[p]))
  {
    var steps := Steps(links, id);
    TableRaisesIff(steps);
    if Table(steps).Some? {
      TableLastWins(steps);
    }
    if exists i :: 0 <= i < |links| && ParseLink(links[i], id).Raises? {
      var i :| 0 <= i < |links| && ParseLink(links[i], id).Raises?;
      assert steps[i].Raises?;
    }
  }

  /** The loop of Bridge.__init__ over the listed links. */
  method ParseLinks(links: seq<Link>, id: nat) returns (ports: Option<map<nat, (nat, nat)>>)
    ensures ports == PortsFrom(links, id)
  {
    ghost var steps := Steps(links, id);
    var m: map<nat, (nat, nat)> := map[];
    var i := 0;
    while i < |links|
      invariant i <= |links| && Table(steps[..i]) == Some(m)
    {
      assert steps[..i + 1][..i] == steps[..i];
      var step := ParseLink(links[i], id);
      if step.Raises? {
        TableRaisesIff(steps);
        assert steps[i].Raises?;
        return None;
      }
      if step.Entry? {
        m := m[step.sport := step.peer];
      }
      i := i + 1;
    }
    assert steps[..i] == steps;
    return Some(m);
  }

  /** The match of a flow: either an ingress port, or a TCP/IPv4 destination (and source). */
  datatype Match =
    | InPort(connector: string)
    | TcpToHost(ipv4Dst: string, ipv4Src: string, tcpSrc: nat, tcpDst: nat)

  /** A flow in table 0 of a bridge's configuration datastore, sending matching packets to one port. */
  datatype Flow = Flow(id: string, priority: nat, matching: Match, output: nat)

  /**
   * An OpenFlow bridge: its id, its ports towards other bridges, the flows
   * of its configuration datastore's table 0 by id, and the flow ids it
   * was asked to delete, in order.
   */
  class Bridge {
    const ofId: nat
    const ports: map<nat, (nat, nat)>
    var flows: map<string, Flow>
    var deleteLog: seq<string>

    /** A bridge with its id, its parsed port table and its flows. */
    constructor (ofId: nat, ports: map<nat, (nat, nat)>, flows: map<string, Flow>)
      ensures this.ofId == ofId && this.ports == ports && this.flows == flows && deleteLog == []
    {
      this.ofId := ofId;
      this.ports := ports;
      this.flows := flows;
      deleteLog := [];
    }

    /**
     * Bridge.__init__ over the links the operational datastore lists (none
     * when it cannot be read): None where reading a taken link raises;
     * otherwise a new bridge whose port table is the one the links give.
     */
    static method Create(ofId: nat, links: seq<Link>, flows: map<string, Flow>) returns (b: Option<Bridge>)
      ensures b.None? <==> exists i :: 0 <= i < |links| && ParseLink(links[i], ofId).Raises?
      ensures b.Some? ==> fresh(b.value) && b.value.ofId == ofId && b.value.flows == flows && b.value.deleteLog == []
      ensures b.Some? ==> PortsFrom(links, ofId) == Some(b.value.ports)
    {
      var ports := ParseLinks(links, ofId);
      PortsFromSpec(links, ofId);
      if ports.None? {
        return None;
      }
      var br := new Bridge(ofId, ports.value, flows);
      b := Some(br);
    }

    /**
     * get_port_for_dst: the local ports whose recorded peer is the given
     * bridge, each once, in the dictionary's (unspecified) order.
     */
    method GetPortForDst(dst: nat) returns (r: seq<nat>)
      ensures forall p :: p in r <==> p in ports && ports[p].0 == dst
      ensures forall i, j :: 0 <= i < j < |r| ==> r[i] != r[j]
    {
      r := [];
      var rest := ports.Keys;
      while rest != {}
        invariant rest <= ports.Keys
        invariant forall p :: p in r <==> p in ports && p !in rest && ports[p].0 == dst
        invariant forall i, j :: 0 <= i < j < |r| ==> r[i] != r[j]
        decreases rest
      {
        var p :| p in rest;
        if ports[p].0 == dst {
          r := r + [p];
        }
        rest := rest - {p};
      }
    }

    /** get_mac. */
    function Mac(): string
    {
      GetMac(ofId)
    }

    /** flow_add: the flow is put under its id, replacing any flow of that id. */
    method FlowAdd(f: Flow)
      modifies this
      ensures flows == old(flows)[f.id := f] && deleteLog == old(deleteLog)
    {
      flows := flows[f.id := f];
    }

    /** flow_delete: the flow of that id is removed; a missing one is no error. */
    method FlowDelete(id: string)
      modifies this
      ensures flows == old(flows) - {id} && deleteLog == old(deleteLog) + [id]
    {
      flows := flows - {id};
      deleteLog := deleteLog + [id];
    }
  }

  // ---------------------------------------------------------------------
  // Dcm

  /** An incoming TCP flow of a Dcm: (dport, sip, sport). */
  datatype Inflow = Inflow(dport: nat, sip: string, sport: nat)

  /** A data collection manager: its id, its nearest bridge, its address and its incoming flows. */
  datatype Dcm = Dcm(id: nat, node: string, dip: string, inflows: seq<Inflow>, pid: nat)

  /** 'dcm_<id>_': the prefix of every flow id of the Dcm. */
  function DcmPrefix(id: nat): string
  {
    "dcm_" + Str(id) + "_"
  }

  /** The flow ids __get_installed_flows attributes to Dcm id. */
  predicate Claims(id: nat, flowId: string)
  {
    StartsWith(flowId, DcmPrefix(id))
  }

  /** Claims as a test over flow ids. */
  function ClaimsTest(id: nat): string -> bool
  {
    flowId => Claims(id, flowId)
  }

  /** 'dcm_<id>_inflow_<i>'. */
  function InflowId(id: nat, i: nat): string
  {
    DcmPrefix(id) + "inflow_" + Str(i)
  }

  /** 'dcm_<id>_outdaqringflow'. */
  function OutDaqringId(id: nat): string
  {
    DcmPrefix(id) + "outdaqringflow"
  }

  /** Digits ended by '_' cannot be a proper prefix of other digits ended by '_'. */
  lemma {:induction false} DigitRunsMatch(si: string, sj: string, t: string)
    requires AllDigits(si) && AllDigits(sj) && StartsWith(sj + "_" + t, si + "_")
    ensures si == sj
    decreases |si|
  {
    var f := sj + "_" + t;
    assert f[..|si| + 1] == si + "_";
    if si == [] {
      assert f[0] == '_';
    } else {
      assert f[0] == si[0];
      if sj != [] {
        assert f[1..] == sj[1..] + "_" + t;
        assert f[1..][..|si[1..]| + 1] == si[1..] + "_";
        DigitRunsMatch(si[1..], sj[1..], t);
        assert si == [si[0]] + si[1..] && sj == [sj[0]] + sj[1..];
      }
    }
  }

  /**
   * The prefix names exactly one Dcm: a flow id built for Dcm j is claimed
   * by Dcm i only when i == j, so Dcm 1 never claims Dcm 11's flows.
   */
  lemma PrefixSeparates(i: nat, j: nat, suffix: string)
    ensures Claims(i, DcmPrefix(j) + suffix) <==> i == j
  {
    var f := DcmPrefix(j) + suffix;
    if Claims(i, f) {
      var pi := DcmPrefix(i);
      assert f == "dcm_" + (Str(j) + "_" + suffix);
      assert pi == "dcm_" + (Str(i) + "_");
      assert (Str(j) + "_" + suffix)[..|Str(i)| + 1] == f[4..][..|Str(i)| + 1] == pi[4..];
      DigitRunsMatch(Str(i), Str(j), suffix);
      StrInjective(i, j);
    }
    if i == j {
      var pj := DcmPrefix(j);
      assert f[..|pj|] == pj;
    }
  }

  /** The inflow ids of one Dcm are pairwise distinct and differ from its outdaqringflow id. */
  lemma FlowIdsDistinct(id: nat, a: nat, b: nat)
    ensures InflowId(id, a) == InflowId(id, b) ==> a == b
    ensures InflowId(id, a) != OutDaqringId(id)
  {
    var p := DcmPrefix(id);
    if InflowId(id, a) == InflowId(id, b) {
      assert Str(a) == InflowId(id, a)[|p| + 7..];
      assert Str(b) == InflowId(id, b)[|p| + 7..];
      StrInjective(a, b);
    }
    assert InflowId(id, a)[|p|] == 'i';
    assert OutDaqringId(id)[|p|] == 'o';
  }

  /** The OpenFlow port of a Dcm's daqring: its id + 100. */
  function DaqringPortOf(id: nat): nat
  {
    id + 100
  }

  /** The flow that sends the daqring port's traffic on to the next bridge. */
  function DaqringOutFlow(id: nat, ofId: nat, out: nat): Flow
  {
    Flow(OutDaqringId(id), 111, InPort(Connector(ofId, DaqringPortOf(id))), out)
  }

  /** The flow for the Dcm's n-th inflow (counting from 1), sent to port out. */
  function InflowFlow(dcm: Dcm, n: nat, out: nat): Flow
    requires 1 <= n <= |dcm.inflows|
  {
    var f := dcm.inflows[n - 1];
    Flow(InflowId(dcm.id, n), 110, TcpToHost(dcm.dip + "/32", f.sip + "/32", f.sport, f.dport), out)
  }

  /** The flow ids one subpath install writes. */
  predicate SubpathId(dcm: Dcm, usedaqring: bool, k: string)
  {
    (usedaqring && k == OutDaqringId(dcm.id)) || exists i :: 1 <= i <= |dcm.inflows| && k == InflowId(dcm.id, i)
  }

  /**
   * __install_subpath at bridge b towards the bridge with OpenFlow id dst:
   * the output is the (id mod n)-th of the n ports towards dst (with no
   * such port the modulo raises before any flow is written); with a
   * daqring, the inflows go to the daqring port (id + 100) and one more
   * flow sends that port on; every inflow i gets 'dcm_<id>_inflow_<i>'
   * matching its (sip, sport, dport); no other flow changes.
   */
  method InstallSubpath(dcm: Dcm, b: Bridge, dst: nat, usedaqring: bool) returns (ok: bool, dports: seq<nat>)
    modifies b
    ensures forall p :: p in dports <==> p in b.ports && b.ports[p].0 == dst
    ensures ok <==> |dports| > 0
    ensures b.deleteLog == old(b.deleteLog)
    ensures !ok ==> b.flows == old(b.flows)
    ensures ok && usedaqring ==> OutDaqringId(dcm.id) in b.flows && b.flows[OutDaqringId(dcm.id)] == DaqringOutFlow(dcm.id, b.ofId, dports[dcm.id % |dports|])
    ensures ok ==> forall n :: 1 <= n <= |dcm.inflows| ==>
              InflowId(dcm.id, n) in b.flows &&
              b.flows[InflowId(dcm.id, n)] ==
                InflowFlow(dcm, n, if usedaqring then DaqringPortOf(dcm.id) else dports[dcm.id % |dports|])
    ensures forall k :: !SubpathId(dcm, usedaqring, k) ==>
              (k in b.flows <==> k in old(b.flows)) && (k in b.flows ==> b.flows[k] == old(b.flows)[k])
  {
    dports := b.GetPortForDst(dst);
    if |dports| == 0 {
      return false, dports;
    }
    ok := true;
    var dport := dports[dcm.id % |dports|];
    var out := dport;
    if usedaqring {
      b.FlowAdd(DaqringOutFlow(dcm.id, b.ofId, dport));
      out := DaqringPortOf(dcm.id);
    }
    var i := 0;
    while i < |dcm.inflows|
      invariant i <= |dcm.inflows|
      invariant b.deleteLog == old(b.deleteLog)
      invariant usedaqring ==> OutDaqringId(dcm.id) in b.flows && b.flows[OutDaqringId(dcm.id)] == DaqringOutFlow(dcm.id, b.ofId, dport)
      invariant forall n :: 1 <= n <= i ==> InflowId(dcm.id, n) in b.flows && b.flows[InflowId(dcm.id, n)] == InflowFlow(dcm, n, out)
      invariant forall k :: !SubpathId(dcm, usedaqring, k) ==>
                  (k in b.flows <==> k in old(b.flows)) && (k in b.flows ==> b.flows[k] == old(b.flows)[k])
    {
      FlowIdsDistinct(dcm.id, i + 1, i + 1);
      forall n | 1 <= n <= i
        ensures InflowId(dcm.id, n) != InflowId(dcm.id, i + 1)
      {
        FlowIdsDistinct(dcm.id, n, i + 1);
      }
      b.FlowAdd(InflowFlow(dcm, i + 1, out));
      i := i + 1;
    }
  }

  /** The loop of __get_installed_flows over the flow ids a bridge lists: those the Dcm claims. */
  method InstalledFlows(id: nat, listed: seq<string>) returns (r: seq<string>)
    ensures r == Keep(listed, ClaimsTest(id))
  {
    r := [];
    var i := 0;
    while i < |listed|
      invariant i <= |listed| && r == Keep(listed[..i], ClaimsTest(id))
    {
      KeepSnoc(listed, i, ClaimsTest(id));
      if Claims(id, listed[i]) {
        r := r + [listed[i]];
      }
      i := i + 1;
    }
    assert listed[..i] == listed;
  }

  predicate IsInflowId(flowId: string)
  {
    Contains(flowId, "inflow")
  }

  predicate IsOutDaqringId(flowId: string)
  {
    Contains(flowId, "outdaqringflow")
  }

  /**
   * The deletions remove_path requests on one bridge: first every claimed
   * inflow id, then every claimed outdaqringflow id, each in listed order.
   */
  function Removals(id: nat, listed: seq<string>): seq<string>
  {
    var ids := Keep(listed, ClaimsTest(id));
    Keep(ids, IsInflowId) + Keep(ids, IsOutDaqringId)
  }

  /**
   * remove_path deletes exactly the listed flows of this Dcm that are
   * inflows or daqring out-flows, never a flow named for another Dcm, and
   * every inflow deletion comes before the first out-flow deletion.
   */
  lemma RemovalsScope(id: nat, listed: seq<string>)
    ensures forall x :: x in Removals(id, listed) <==>
              x in listed && Claims(id, x) && (IsInflowId(x) || IsOutDaqringId(x))
    ensures forall j, s :: j != id ==> DcmPrefix(j) + s !in Removals(id, listed)
    ensures var n := |Keep(Keep(listed, ClaimsTest(id)), IsInflowId)|;
            (forall k :: 0 <= k < n ==> IsInflowId(Removals(id, listed)[k])) &&
            (forall k :: n <= k < |Removals(id, listed)| ==> IsOutDaqringId(Removals(id, listed)[k]))
  {
    var ids := Keep(listed, ClaimsTest(id));
    var a, b := Keep(ids, IsInflowId), Keep(ids, IsOutDaqringId);
    KeepMembers(listed, ClaimsTest(id));
    KeepMembers(ids, IsInflowId);
    KeepMembers(ids, IsOutDaqringId);
    assert Removals(id, listed) == a + b;
    forall j, s | j != id
      ensures DcmPrefix(j) + s !in Removals(id, listed)
    {
      PrefixSeparates(id, j, s);
    }
    forall k | 0 <= k < |a|
      ensures IsInflowId((a + b)[k])
    {
      assert (a + b)[k] == a[k] && a[k] in a;
    }
    forall k | |a| <= k < |a + b|
      ensures IsOutDaqringId((a + b)[k])
    {
      assert (a + b)[k] == b[k - |a|] && b[k - |a|] in b;
    }
  }

  /** The ids a sequence of deletions names. */
  function Ids(r: seq<string>): set<string>
  {
    set x | x in r
  }

  lemma IdsAppend(r: seq<string>, s: seq<string>)
    ensures Ids(r + s) == Ids(r) + Ids(s)
  {
  }

  /** Deleting two sets of ids one after the other deletes their union. */
  lemma MinusUnion(m: map<string, Flow>, a: set<string>, b: set<string>)
    ensures m - a - b == m - (a + b)
  {
  }

  /** The two deletion loops of remove_path on one bridge, given the flow ids it lists. */
  method RemoveDcmFlows(id: nat, b: Bridge, listed: seq<string>)
    modifies b
    ensures b.deleteLog == old(b.deleteLog) + Removals(id, listed)
    ensures b.flows == old(b.flows) - Ids(Removals(id, listed))
  {
    var ids := InstalledFlows(id, listed);
    ghost var m := b.flows;
    DeleteMatching(b, ids, IsInflowId);
    DeleteMatching(b, ids, IsOutDaqringId);
    assert b.flows == m - Ids(Removals(id, listed)) by {
      IdsAppend(Keep(ids, IsInflowId), Keep(ids, IsOutDaqringId));
      MinusUnion(m, Ids(Keep(ids, IsInflowId)), Ids(Keep(ids, IsOutDaqringId)));
    }
  }

  /** One deletion loop: every listed id that passes the test, in order. */
  method DeleteMatching(b: Bridge, ids: seq<string>, p: string -> bool)
    modifies b
    ensures b.deleteLog == old(b.deleteLog) + Keep(ids, p)
    ensures b.flows == old(b.flows) - Ids(Keep(ids, p))
  {
    var i := 0;
    while i < |ids|
      invariant i <= |ids|
      invariant b.deleteLog == old(b.deleteLog) + Keep(ids[..i], p)
      invariant b.flows == old(b.flows) - Ids(Keep(ids[..i], p))
    {
      ghost var done := Keep(ids[..i], p);
      var step := DeleteIf(b, ids[i], p);
      assert Keep(ids[..i + 1], p) == done + step by {
        KeepSnoc(ids, i, p);
      }
      assert b.flows == old(b.flows) - Ids(done + step) by {
        IdsAppend(done, step);
        MinusUnion(old(b.flows), Ids(done), Ids(step));
      }
      i := i + 1;
    }
    assert ids[..i] == ids;
  }

  /** One visit of the loop: the id is deleted when it passes the test. */
  method DeleteIf(b: Bridge, x: string, p: string -> bool) returns (ghost step: seq<string>)
    modifies b
    ensures step == if p(x) then [x] else []
    ensures b.deleteLog == old(b.deleteLog) + step && b.flows == old(b.flows) - Ids(step)
  {
    step := [];
    if p(x) {
      b.FlowDelete(x);
      step := [x];
    }
  }

  /**
   * remove_path over the bridges of the topology, given the flow ids each
   * one lists.
   */
  method RemovePath(id: nat, bridges: seq<Bridge>, listings: seq<seq<string>>)
    requires |listings| == |bridges|
    requires forall i, j :: 0 <= i < j < |bridges| ==> bridges[i] != bridges[j]
    modifies set b | b in bridges
    ensures forall i :: 0 <= i < |bridges| ==>
              bridges[i].deleteLog == old(bridges[i].deleteLog) + Removals(id, listings[i])
    ensures forall i :: 0 <= i < |bridges| ==>
              bridges[i].flows == old(bridges[i].flows) - Ids(Removals(id, listings[i]))
  {
    var i := 0;
    while i < |bridges|
      invariant i <= |bridges|
      invariant forall k :: 0 <= k < i ==> bridges[k].deleteLog == old(bridges[k].deleteLog) + Removals(id, listings[k])
      invariant forall k :: 0 <= k < i ==> bridges[k].flows == old(bridges[k].flows) - Ids(Removals(id, listings[k]))
      invariant forall k :: i <= k < |bridges| ==> bridges[k].deleteLog == old(bridges[k].deleteLog) && bridges[k].flows == old(bridges[k].flows)
    {
      assert forall k :: 0 <= k < |bridges| && k != i ==> bridges[k] != bridges[i];
      RemoveDcmFlows(id, bridges[i], listings[i]);
      i := i + 1;
    }
  }

  // ---------------------------------------------------------------------
  // Names in the topology

  /** The longest run of decimal digits at the start of s. */
  function LeadingDigits(s: string): (d: string)
    ensures |d| <= |s| && d == s[..|d|] && AllDigits(d)
    ensures |d| < |s| ==> !IsDigit(s[|d|])
  {
    if s != [] && IsDigit(s[0]) then [s[0]] + LeadingDigits(s[1..]) else []
  }

  /** Digits followed by a non-digit (or nothing) are the leading run. */
  lemma {:induction false} LeadingDigitsOf(d: string, rest: string)
    requires AllDigits(d) && (rest == [] || !IsDigit(rest[0]))
    ensures LeadingDigits(d + rest) == d
  {
    if d != [] {
      assert (d + rest)[1..] == d[1..] + rest;
      LeadingDigitsOf(d[1..], rest);
    }
  }

  /**
   * re.match('pod-(\d+)-.*', node).group(1) (get_pod_id): the digits after
   * a leading 'pod-' when a '-' follows them; None where there is no match
   * (the call then raises).
   */
  function PodDigits(node: string): Option<string>
  {
    if !StartsWith(node, "pod-") then None
    else
      var rest := node[4..];
      var d := LeadingDigits(rest);
      if 1 <= |d| < |rest| && rest[|d|] == '-' then Some(d) else None
  }

  /** __get_pod_id: int() of the captured digits. */
  function PodId(node: string): (r: Option<nat>)
    ensures r.Some? <==> PodDigits(node).Some?
  {
    match PodDigits(node)
    case None => None
    case Some(d) => ParseNat(d)
  }

  /** An end node named 'pod-<p>-...' is in pod p. */
  lemma PodIdOfName(p: nat, x: string)
    ensures PodId("pod-" + Str(p) + "-" + x) == Some(p)
  {
    var node := "pod-" + Str(p) + "-" + x;
    assert node[4..] == Str(p) + ("-" + x);
    LeadingDigitsOf(Str(p), "-" + x);
    StrRoundTrip(p);
  }

  /**
   * __get_plane_id, re.match('plane-(\d+)-spine-(\d+).*', spine): the
   * plane number when a spine number follows.
   */
  function PlaneId(spine: string): Option<nat>
  {
    if !StartsWith(spine, "plane-") then None
    else
      var rest := spine[6..];
      var d := LeadingDigits(rest);
      var tail := rest[|d|..];
      if 1 <= |d| && StartsWith(tail, "-spine-") && |tail| > 7 && IsDigit(tail[7]) then ParseNat(d) else None
  }

  /** The spine 'plane-<a>-spine-<b>...' is in plane a. */
  lemma PlaneIdOfName(a: nat, b: nat, x: string)
    ensures PlaneId(SpineName(a, b) + x) == Some(a)
  {
    var s := SpineName(a, b) + x;
    assert s[6..] == Str(a) + ("-spine-" + Str(b) + x);
    LeadingDigitsOf(Str(a), "-spine-" + Str(b) + x);
    var tail := s[6..][|Str(a)|..];
    assert tail == "-spine-" + Str(b) + x;
    assert tail[7] == Str(b)[0];
    StrRoundTrip(a);
  }

  /** 'plane-<plane>-spine-<n>'. */
  function SpineName(plane: nat, n: nat): string
  {
    "plane-" + Str(plane) + "-spine-" + Str(n)
  }

  /** 'plane-<plane>-pod-<pod>': the leaf switch of a pod in a plane, as install_path and is_path_available name it. */
  function LeafName(plane: nat, pod: nat): string
  {
    "plane-" + Str(plane) + "-pod-" + Str(pod)
  }

  /** Topology.ip_to_pod: 'pod' + the third dotted field; None where the index raises. */
  function IpToPod(ip: string): Option<string>
  {
    var f := Fields(ip, '.');
    if |f| >= 3 then Some("pod" + f[2]) else None
  }

  /** The pod of the address a.b.c.d is 'pod' + c. */
  lemma IpToPodOfAddress(a: string, b: string, c: string, d: string)
    requires '.' !in a && '.' !in b && '.' !in c
    ensures IpToPod(a + "." + b + "." + c + "." + d) == Some("pod" + c)
  {
    var ip := a + "." + b + "." + c + "." + d;
    assert ip == a + ['.'] + (b + ['.'] + (c + ['.'] + d));
    FieldsCons(a, '.', b + ['.'] + (c + ['.'] + d));
    FieldsCons(b, '.', c + ['.'] + d);
    FieldsCons(c, '.', d);
  }

  predicate IsSpine(name: string)
  {
    Contains(name, "spine")
  }

  predicate IsEndnode(name: string)
  {
    !Contains(name, "plane") && Contains(name, "pod-")
  }

  /** The test get_pod_endnodes applies as written: 'pod-<i>' anywhere in a name without 'plane'. */
  predicate InPodAsWritten(name: string, i: nat)
  {
    !Contains(name, "plane") && Contains(name, "pod-" + Str(i))
  }

  /** An end node of pod i: no 'plane' in its name, and its name reads as pod i. */
  predicate InPod(name: string, i: nat)
  {
    !Contains(name, "plane") && PodId(name) == Some(i)
  }

  function InPodTest(i: nat): string -> bool
  {
    name => InPod(name, i)
  }

  /** The leaves get_npods counts: those of plane 1. */
  predicate IsPlaneOneLeaf(name: string)
  {
    Contains(name, "plane-1-pod-")
  }

  /** Appending a digit to a positive number's decimal appends it to the text. */
  lemma StrAppendDigit(i: nat, k: nat)
    requires 1 <= i && k < 10
    ensures Str(10 * i + k) == Str(i) + [DigitChar(k)]
  {
    assert (10 * i + k) / 10 == i && (10 * i + k) % 10 == k;
  }

  /**
   * As written, the end nodes of pod i include those of pods 10i to
   * 10i + 9: 'pod-1' is a prefix of 'pod-12'.
   */
  lemma PodEndnodesAsWrittenOverreach(i: nat, k: nat, x: string)
    requires 1 <= i && k < 10 && !Contains("pod-" + Str(10 * i + k) + "-" + x, "plane")
    ensures InPodAsWritten("pod-" + Str(10 * i + k) + "-" + x, i)
    ensures !InPod("pod-" + Str(10 * i + k) + "-" + x, i)
  {
    var name := "pod-" + Str(10 * i + k) + "-" + x;
    var pre := "pod-" + Str(i);
    StrAppendDigit(i, k);
    assert name == pre + ([DigitChar(k)] + "-" + x);
    assert StartsWith(name, pre);
    ContainsSelf(name, pre);
    PodIdOfName(10 * i + k, x);
  }

  /**
   * The corrected test: an end node named 'pod-<p>-...' (without 'plane') is
   * in pod i exactly when p == i.
   */
  lemma InPodExactly(p: nat, x: string, i: nat)
    requires !Contains("pod-" + Str(p) + "-" + x, "plane")
    ensures InPod("pod-" + Str(p) + "-" + x, i) <==> p == i
  {
    PodIdOfName(p, x);
  }

  /** get_spines. */
  method GetSpines(names: seq<string>) returns (r: seq<string>)
    ensures r == Keep(names, IsSpine)
  {
    r := Select(names, IsSpine);
  }

  /** get_endnodes. */
  method GetEndnodes(names: seq<string>) returns (r: seq<string>)
    ensures r == Keep(names, IsEndnode)
  {
    r := Select(names, IsEndnode);
  }

  /** get_pod_endnodes, with the pod read from the name. */
  method GetPodEndnodes(names: seq<string>, i: nat) returns (r: seq<string>)
    ensures r == Keep(names, InPodTest(i))
  {
    r := Select(names, InPodTest(i));
  }

  /** get_npods: the number of plane-1 leaves. */
  method GetNpods(names: seq<string>) returns (n: nat)
    ensures n == |Keep(names, IsPlaneOneLeaf)|
  {
    n := 0;
    var i := 0;
    while i < |names|
      invariant i <= |names| && n == |Keep(names[..i], IsPlaneOneLeaf)|
    {
      KeepSnoc(names, i, IsPlaneOneLeaf);
      if IsPlaneOneLeaf(names[i]) {
        n := n + 1;
      }
      i := i + 1;
    }
    assert names[..i] == names;
  }

  /** The appending loop the classifiers share: the names that pass the test, in order. */
  method Select(names: seq<string>, p: string -> bool) returns (r: seq<string>)
    ensures r == Keep(names, p)
  {
    r := [];
    var i := 0;
    while i < |names|
      invariant i <= |names| && r == Keep(names[..i], p)
    {
      KeepSnoc(names, i, p);
      if p(names[i]) {
        r := r + [names[i]];
      }
      i := i + 1;
    }
    assert names[..i] == names;
  }

  /** The naming convention sorts the switches: spines are spines, leaves are neither spines nor end nodes. */
  lemma NamesClassified(plane: nat, n: nat, pod: nat)
    ensures IsSpine(SpineName(plane, n)) && !IsEndnode(SpineName(plane, n))
    ensures !IsEndnode(LeafName(plane, pod))
    ensures plane == 1 ==> IsPlaneOneLeaf(LeafName(plane, pod))
  {
    var s := SpineName(plane, n);
    assert StartsWith(s[6 + |Str(plane)| + 1..], "spine");
    assert StartsWith(s, "plane");
    ContainsSelf(s, "plane");
    var l := LeafName(plane, pod);
    assert StartsWith(l, "plane");
    ContainsSelf(l, "plane");
    if plane == 1 {
      assert Str(1) == "1";
      assert StartsWith(l, "plane-1-pod-");
      ContainsSelf(l, "plane-1-pod-");
    }
  }

  /** get_name_from_of_id: the first listed bridge with that OpenFlow id. */
  method NameFromOfId(bridges: seq<(string, nat)>, ofId: nat) returns (name: Option<string>)
    ensures name.None? <==> forall i :: 0 <= i < |bridges| ==> bridges[i].1 != ofId
    ensures name.Some? ==> exists i :: 0 <= i < |bridges| && bridges[i] == (name.value, ofId) &&
                                       (forall j :: 0 <= j < i ==> bridges[j].1 != ofId)
  {
    var i := 0;
    while i < |bridges|
      invariant i <= |bridges|
      invariant forall j :: 0 <= j < i ==> bridges[j].1 != ofId
    {
      if bridges[i].1 == ofId {
        return Some(bridges[i].0);
      }
      i := i + 1;
    }
    return None;
  }
}
