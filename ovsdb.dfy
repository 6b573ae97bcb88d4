/**
 * The OVSDB helper of the controller scripts: the datastore paths of OVSDB
 * nodes, the selection of OVSDB servers among the configured nodes, the
 * OpenFlow id read from a bridge's datapath-id, the node ids and paths an
 * OvsdbClient caches once it finds its server, and the body of the request
 * that creates bridge br0 with its termination points.
 */
module Ovsdb {
  import opened Opt
  import opened Bytes
  import opened Text

  /** The datastore prefix of every OVSDB node. */
  const NodesPath: string := "network-topology:network-topology/topology/ovsdb:1/node/"
  /** The prefix of the node id of an OVSDB server. */
  const Scheme: string := "ovsdb://"

  /** node_id.replace('/', '%2F'): the escaping of a node id inside a datastore path. */
  function Escape(id: string): string
  {
    ReplaceAll(id, "/", "%2F")
  }

  /** The decoding the datastore applies to an escaped path segment. */
  function Unescape(s: string): string
  {
    ReplaceAll(s, "%2F", "/")
  }

  /** The datastore path of the node with the given id. */
  function NodePath(id: string): (p: string)
    ensures StartsWith(p, NodesPath)
  {
    NodesPath + Escape(id)
  }

  /** An escaped id has no '/' left, so it is one segment of the path. */
  lemma {:induction false} EscapeNoSlash(id: string)
    ensures '/' !in Escape(id)
    decreases |id|
  {
    if id != [] {
      EscapeNoSlash(id[1..]);
      if id[0] == '/' {
        assert id == "/" + id[1..];
        ReplaceLeading(id[1..], "/", "%2F");
      } else {
        assert id == [id[0]] + id[1..];
        ReplaceKeeps(id[0], id[1..], "/", "%2F");
      }
    }
  }

  /** Escaping loses nothing for ids without '%': decoding gives the id back. */
  lemma {:induction false} EscapeRoundTrip(id: string)
    requires '%' !in id
    ensures Unescape(Escape(id)) == id
    decreases |id|
  {
    if id != [] {
      EscapeRoundTrip(id[1..]);
      if id[0] == '/' {
        assert id == "/" + id[1..];
        ReplaceLeading(id[1..], "/", "%2F");
        ReplaceLeading(Escape(id[1..]), "%2F", "/");
      } else {
        assert id == [id[0]] + id[1..];
        ReplaceKeeps(id[0], id[1..], "/", "%2F");
        ReplaceKeeps(id[0], Escape(id[1..]), "%2F", "/");
      }
    }
  }

  /** Replacing a one-character pattern works piece by piece over a concatenation. */
  lemma {:induction false} ReplaceCharConcat(a: string, b: string, c: char, rep: string)
    ensures ReplaceAll(a + b, [c], rep) == ReplaceAll(a, [c], rep) + ReplaceAll(b, [c], rep)
    decreases |a|
  {
    if a != [] {
      var t := a[1..];
      ReplaceCharConcat(t, b, c, rep);
      assert a + b == [a[0]] + (t + b);
      assert a == [a[0]] + t;
      if a[0] == c {
        calc {
          ReplaceAll(a + b, [c], rep);
          { ReplaceLeading(t + b, [c], rep); }
          rep + ReplaceAll(t + b, [c], rep);
          rep + (ReplaceAll(t, [c], rep) + ReplaceAll(b, [c], rep));
          { ReplaceLeading(t, [c], rep); }
          ReplaceAll(a, [c], rep) + ReplaceAll(b, [c], rep);
        }
      } else {
        calc {
          ReplaceAll(a + b, [c], rep);
          { ReplaceKeeps(a[0], t + b, [c], rep); }
          [a[0]] + ReplaceAll(t + b, [c], rep);
          [a[0]] + (ReplaceAll(t, [c], rep) + ReplaceAll(b, [c], rep));
          { ReplaceKeeps(a[0], t, [c], rep); }
          ReplaceAll(a, [c], rep) + ReplaceAll(b, [c], rep);
        }
      }
    } else {
      assert a + b == b;
    }
  }

  /** node_id.replace('ovsdb://', ''): the server name get_all_nodes recovers from a node id. */
  function ServerName(nodeId: string): string
  {
    ReplaceAll(nodeId, Scheme, "")
  }

  /** A node id that names a bridge rather than a server. */
  predicate IsBridgeNode(nodeId: string)
  {
    Contains(nodeId, "bridge")
  }

  /** The names get_all_nodes returns for the listed node ids, in order. */
  function ServerNames(nodeIds: seq<string>): (names: seq<string>)
    ensures |names| <= |nodeIds|
    ensures forall i :: 0 <= i < |nodeIds| && !IsBridgeNode(nodeIds[i]) ==> ServerName(nodeIds[i]) in names
    ensures forall x :: x in names ==> exists i :: 0 <= i < |nodeIds| && !IsBridgeNode(nodeIds[i]) && x == ServerName(nodeIds[i])
  {
    if nodeIds == [] then []
    else
      var init := nodeIds[..|nodeIds| - 1];
      var last := nodeIds[|nodeIds| - 1];
      assert forall i :: 0 <= i < |init| ==> init[i] == nodeIds[i];
      if IsBridgeNode(last) then ServerNames(init) else ServerNames(init) + [ServerName(last)]
  }

  /**
   * get_all_nodes: one server name per configured node whose id does not
   * contain 'bridge', with 'ovsdb://' removed; an unreadable datastore
   * gives the empty list.
   */
  method GetAllNodes(nodeIds: Option<seq<string>>) returns (names: seq<string>)
    ensures nodeIds.None? ==> names == []
    ensures nodeIds.Some? ==> names == ServerNames(nodeIds.value)
  {
    names := [];
    if nodeIds.None? {
      return;
    }
    var ids := nodeIds.value;
    var i := 0;
    while i < |ids|
      invariant i <= |ids| && names == ServerNames(ids[..i])
    {
      assert ids[..i + 1][..i] == ids[..i];
      if !IsBridgeNode(ids[i]) {
        names := names + [ServerName(ids[i])];
      }
      i := i + 1;
    }
    assert ids[..i] == ids;
  }

  /** The node id a client builds from its name: 'ovsdb://' + name. */
  function ServerNodeId(name: string): string
  {
    Scheme + name
  }

  /**
   * The name get_all_nodes recovers from a server's node id is the name the
   * client was built with, when the name does not itself hold 'ovsdb://'.
   */
  lemma ServerNameRoundTrip(name: string)
    requires !Contains(name, Scheme)
    ensures ServerName(ServerNodeId(name)) == name
  {
    ReplaceLeading(name, Scheme, "");
    ReplaceAbsent(name, Scheme, "");
  }

  /** The id of bridge br0 on a server, from the server's operational node id. */
  function BridgeId(operId: string): string
  {
    operId + "/bridge/br0"
  }

  /** A bridge node id is always one that get_all_nodes and is_connected skip. */
  lemma BridgeIdSkipped(operId: string)
    ensures IsBridgeNode(BridgeId(operId))
  {
    var s := BridgeId(operId);
    assert s[|operId| + 1..][..6] == "bridge";
  }

  /** A '/' followed by a segment without '/' escapes to '%2F' and the segment. */
  lemma EscapeSegment(x: string)
    requires '/' !in x
    ensures Escape("/" + x) == "%2F" + x
  {
    ReplaceLeading(x, "/", "%2F");
    ContainsChar(x, '/');
    ReplaceAbsent(x, "/", "%2F");
  }

  /** Escaping an id followed by two segments escapes the id and the two separators. */
  lemma EscapeTwoSegments(id: string, x: string, y: string)
    requires '/' !in x && '/' !in y
    ensures Escape(id + ("/" + x) + ("/" + y)) == Escape(id) + "%2F" + x + "%2F" + y
  {
    ReplaceCharConcat(id + ("/" + x), "/" + y, '/', "%2F");
    ReplaceCharConcat(id, "/" + x, '/', "%2F");
    EscapeSegment(x);
    EscapeSegment(y);
  }

  /** The bridge's path extends the server's escaped path by two escaped segments. */
  lemma BridgePathExtends(operId: string)
    ensures NodePath(BridgeId(operId)) == NodePath(operId) + "%2Fbridge%2Fbr0"
  {
    var x, y := "bridge", "br0";
    assert BridgeId(operId) == operId + ("/" + x) + ("/" + y);
    EscapeTwoSegments(operId, x, y);
  }

  /** int(datapath_id.replace(':', ''), 16); None where int() raises. */
  function DatapathId(dpid: string): Option<nat>
  {
    ParseHex(ReplaceAll(dpid, ":", ""))
  }

  /** '%02X' % b: two upper-case hex digits. */
  function Hex2(b: byte): (s: string)
    ensures |s| == 2 && ':' !in s
  {
    [HexDigit(b / 16), HexDigit(b % 16)]
  }

  /** ':'.join('%02X' % b for b in bs): bytes as colon-separated hex pairs. */
  function ColonHex(bs: seq<byte>): (s: string)
    ensures |bs| >= 1 ==> |s| == 3 * |bs| - 1
  {
    if |bs| <= 1 then (if bs == [] then "" else Hex2(bs[0]))
    else ColonHex(bs[..|bs| - 1]) + ":" + Hex2(bs[|bs| - 1])
  }

  /** The hex pairs of bs with no separators. */
  function HexPairs(bs: seq<byte>): string
  {
    if bs == [] then "" else HexPairs(bs[..|bs| - 1]) + Hex2(bs[|bs| - 1])
  }

  /** The big-endian value of a byte string. */
  function BigEndian(bs: seq<byte>): nat
  {
    if bs == [] then 0 else BigEndian(bs[..|bs| - 1]) * 256 + bs[|bs| - 1]
  }

  /** Removing the colons of ColonHex leaves the bare hex pairs. */
  lemma {:induction false} ColonHexStripped(bs: seq<byte>)
    ensures ReplaceAll(ColonHex(bs), ":", "") == HexPairs(bs)
    decreases |bs|
  {
    if |bs| == 1 {
      ContainsChar(Hex2(bs[0]), ':');
      ReplaceAbsent(Hex2(bs[0]), ":", "");
      assert bs[..0] == [];
    } else if |bs| > 1 {
      var init := bs[..|bs| - 1];
      var h := Hex2(bs[|bs| - 1]);
      ColonHexStripped(init);
      ReplaceCharConcat(ColonHex(init) + ":", h, ':', "");
      ReplaceCharConcat(ColonHex(init), ":", ':', "");
      ReplaceLeading("", ":", "");
      ContainsChar(h, ':');
      ReplaceAbsent(h, ":", "");
    }
  }

  /** The hex pairs read back as the big-endian value of the bytes. */
  lemma {:induction false} HexPairsValue(bs: seq<byte>)
    ensures AllHex(HexPairs(bs)) && HexNumber(HexPairs(bs)) == BigEndian(bs)
    decreases |bs|
  {
    if bs != [] {
      var init := bs[..|bs| - 1];
      var b := bs[|bs| - 1];
      HexPairsValue(init);
      HexNumberPair(HexPairs(init), b / 16, b % 16);
    }
  }

  /**
   * A datapath-id written as colon-separated hex bytes reads back as the
   * big-endian value of those bytes.
   */
  lemma DatapathIdOfColonHex(bs: seq<byte>)
    requires |bs| >= 1
    ensures DatapathId(ColonHex(bs)) == Some(BigEndian(bs))
  {
    ColonHexStripped(bs);
    HexPairsValue(bs);
  }

  /** The 'tcp:<ip>:<port>' target of the controller entry. */
  function ControllerTarget(ctrlIp: string, ctrlPort: nat): string
  {
    "tcp:" + ctrlIp + ":" + Str(ctrlPort)
  }

  /** The controller's port is what follows the last ':' of its target. */
  lemma ControllerTargetPort(ctrlIp: string, ctrlPort: nat)
    ensures SplitLast(ControllerTarget(ctrlIp, ctrlPort), ':') == Some(("tcp:" + ctrlIp, Str(ctrlPort)))
    ensures ParseNat(Str(ctrlPort)) == Some(ctrlPort)
  {
    assert ':' !in Str(ctrlPort);
    SplitLastJoin("tcp:" + ctrlIp, ':', Str(ctrlPort));
    StrRoundTrip(ctrlPort);
  }

  /** The interface types create_bridge gives termination points. */
  datatype InterfaceType = Dpdk | System | Dpdkdaqr

  /** One termination point of the bridge: tp-id, name, ofport (as a string) and type. */
  datatype TerminationPoint = TerminationPoint(tpId: string, name: string, ofport: string, ifType: InterfaceType)

  /** The i-th (from 1) supplied port: a DPDK interface exactly when its name contains 'dpdk'. */
  function SuppliedPort(name: string, i: nat): TerminationPoint
  {
    TerminationPoint(name, name, Str(i), if Contains(name, "dpdk") then Dpdk else System)
  }

  /** A daqring port with the given OpenFlow port number, named 'dpdkdaqr<ofport>'. */
  function DaqringPort(ofport: nat): TerminationPoint
  {
    TerminationPoint("dpdkdaqr" + Str(ofport), "dpdkdaqr" + Str(ofport), Str(ofport), Dpdkdaqr)
  }

  /** The first OpenFlow port numbers of the two daqring sets. */
  const FirstDaqringBase: nat := 100
  const SecondDaqringBase: nat := 200

  /**
   * The k-th termination point create_bridge lists: the supplied ports
   * get ofport 1..n in order; with DPDK, nDaqrPorts daqring ports
   * numbered from 100 follow, then nDaqrPorts more numbered from 200.
   */
  function Layout(portNames: seq<string>, nDaqrPorts: nat, k: nat): TerminationPoint
  {
    var n := |portNames|;
    if k < n then SuppliedPort(portNames[k], k + 1)
    else if k < n + nDaqrPorts then DaqringPort(FirstDaqringBase + (k - n))
    else DaqringPort(SecondDaqringBase + (k - n - nDaqrPorts))
  }

  /** The termination-point loops of create_bridge. */
  method TerminationPoints(portNames: seq<string>, isDpdk: bool, nDaqrPorts: nat) returns (tps: seq<TerminationPoint>)
    ensures |tps| == |portNames| + (if isDpdk then 2 * nDaqrPorts else 0)
    ensures forall k :: 0 <= k < |tps| ==> tps[k] == Layout(portNames, nDaqrPorts, k)
  {
    tps := [];
    var nport := 0;
    while nport < |portNames|
      invariant nport <= |portNames| && |tps| == nport
      invariant forall k :: 0 <= k < nport ==> tps[k] == Layout(portNames, nDaqrPorts, k)
    {
      tps := tps + [SuppliedPort(portNames[nport], nport + 1)];
      nport := nport + 1;
    }
    if isDpdk {
      tps := AppendDaqringPorts(portNames, nDaqrPorts, tps, FirstDaqringBase);
      tps := AppendDaqringPorts(portNames, nDaqrPorts, tps, SecondDaqringBase);
    }
  }

  /** One daqring loop: nDaqrPorts ports numbered base, base + 1, ... appended in order. */
  method AppendDaqringPorts(portNames: seq<string>, nDaqrPorts: nat, tps: seq<TerminationPoint>, base: nat)
    returns (r: seq<TerminationPoint>)
    requires base == FirstDaqringBase ==> |tps| == |portNames|
    requires base == SecondDaqringBase ==> |tps| == |portNames| + nDaqrPorts
    requires base == FirstDaqringBase || base == SecondDaqringBase
    requires forall k :: 0 <= k < |tps| ==> tps[k] == Layout(portNames, nDaqrPorts, k)
    ensures |r| == |tps| + nDaqrPorts
    ensures forall k :: 0 <= k < |r| ==> r[k] == Layout(portNames, nDaqrPorts, k)
  {
    r := tps;
    var nport := 0;
    while nport < nDaqrPorts
      invariant nport <= nDaqrPorts && |r| == |tps| + nport
      invariant forall k :: 0 <= k < |r| ==> r[k] == Layout(portNames, nDaqrPorts, k)
    {
      r := r + [DaqringPort(base + nport)];
      nport := nport + 1;
    }
  }

  /** The OpenFlow port number of a termination point, as its ofport string reads. */
  function OfportOf(tp: TerminationPoint): Option<nat>
  {
    ParseNat(tp.ofport)
  }

  /** The OpenFlow port number of the k-th termination point. */
  function LayoutPort(n: nat, nDaqrPorts: nat, k: nat): nat
  {
    if k < n then k + 1
    else if k < n + nDaqrPorts then FirstDaqringBase + (k - n)
    else SecondDaqringBase + (k - n - nDaqrPorts)
  }

  /** Every termination point's ofport reads back as its number. */
  lemma LayoutPortRead(portNames: seq<string>, nDaqrPorts: nat, k: nat)
    ensures OfportOf(Layout(portNames, nDaqrPorts, k)) == Some(LayoutPort(|portNames|, nDaqrPorts, k))
  {
    StrRoundTrip(LayoutPort(|portNames|, nDaqrPorts, k));
  }

  /**
   * With fewer than 100 supplied ports and at most 100 daqring ports per
   * set, the three ranges 1..n, 100.. and 200.. do not meet, so every
   * termination point has its own OpenFlow port number.
   */
  lemma OfportsDistinct(portNames: seq<string>, nDaqrPorts: nat, a: nat, b: nat)
    requires |portNames| < FirstDaqringBase && nDaqrPorts <= SecondDaqringBase - FirstDaqringBase
    requires a < b < |portNames| + 2 * nDaqrPorts
    ensures OfportOf(Layout(portNames, nDaqrPorts, a)).Some?
    ensures OfportOf(Layout(portNames, nDaqrPorts, a)) != OfportOf(Layout(portNames, nDaqrPorts, b))
  {
    LayoutPortRead(portNames, nDaqrPorts, a);
    LayoutPortRead(portNames, nDaqrPorts, b);
  }

  /**
   * With more than 100 daqring ports per set the first set reaches port
   * 200, which the second set also uses.
   */
  lemma OfportsCollideBeyond(portNames: seq<string>, nDaqrPorts: nat)
    requires nDaqrPorts > SecondDaqringBase - FirstDaqringBase
    ensures Layout(portNames, nDaqrPorts, |portNames| + 100) == Layout(portNames, nDaqrPorts, |portNames| + nDaqrPorts)
  {
  }

  /** The body of the request that creates br0. */
  datatype BridgeNode = BridgeNode(
    nodeId: string,
    bridgeName: string,
    controllerTarget: string,
    netdev: bool,
    terminationPoints: seq<TerminationPoint>,
    managedBy: string)

  /**
   * One node of the operational topology, as is_connected reads it: its id
   * and the remote address of its connection info (None when the node has no
   * 'ovsdb:connection-info').
   */
  datatype OperNode = OperNode(nodeId: string, remoteIp: Option<string>)

  /**
   * The manager read of is_connected: a read that fails with a REST error, a
   * reply without a node, a manager entry or its 'connected' flag, or that flag.
   */
  datatype ManagerReply = ReadFailed | Malformed | Connected(flag: bool)

  /**
   * The node at which is_connected's search stops: one that is not a bridge
   * and either has no connection info (reading it raises KeyError) or has the
   * client's address.
   */
  predicate Stops(node: OperNode, ip: Option<string>)
  {
    !IsBridgeNode(node.nodeId) && (node.remoteIp.None? || ip == node.remoteIp)
  }

  /** The server node is_connected looks for: not a bridge, and at the client's address. */
  predicate IsServerAt(node: OperNode, ip: Option<string>)
  {
    !IsBridgeNode(node.nodeId) && node.remoteIp.Some? && ip == node.remoteIp
  }

  /** The index of the first node at which the search stops, or None. */
  function FirstStop(nodes: seq<OperNode>, ip: Option<string>): (k: Option<nat>)
    ensures k.None? <==> forall i :: 0 <= i < |nodes| ==> !Stops(nodes[i], ip)
    ensures k.Some? ==> k.value < |nodes| && Stops(nodes[k.value], ip) &&
                        forall j :: 0 <= j < k.value ==> !Stops(nodes[j], ip)
  {
    if nodes == [] then None
    else if Stops(nodes[0], ip) then Some(0)
    else
      var rest := FirstStop(nodes[1..], ip);
      if rest.None? then
        assert forall i :: 1 <= i < |nodes| ==> nodes[i] == nodes[1..][i - 1];
        None
      else
        assert forall j :: 1 <= j < rest.value + 1 ==> nodes[j] == nodes[1..][j - 1];
        Some(rest.value + 1)
  }

  /**
   * The search raises: the first node at which it stops is a server node
   * without connection info.
   */
  predicate SearchRaises(nodes: seq<OperNode>, ip: Option<string>)
  {
    var k := FirstStop(nodes, ip);
    k.Some? && nodes[k.value].remoteIp.None?
  }

  /** The search loop of is_connected: the index of the first node at which it stops. */
  method FindServer(nodes: seq<OperNode>, ip: Option<string>) returns (found: Option<nat>)
    ensures found == FirstStop(nodes, ip)
  {
    var i := 0;
    while i < |nodes|
      invariant i <= |nodes|
      invariant forall j :: 0 <= j < i ==> !Stops(nodes[j], ip)
    {
      if Stops(nodes[i], ip) {
        return Some(i);
      }
      i := i + 1;
    }
    return None;
  }

  /** What a call that may raise returns: a value, or the exception it lets through. */
  datatype Outcome<T> = Value(value: T) | Raised

  /**
   * A connection to one OVSDB server. The datastore is read through the
   * parameters of each method: an unreadable datastore is None.
   */
  class OvsdbClient {
    const name: string
    const ovsdbId: string
    const ovsdbPath: string
    var ip: Option<string>
    var port: nat
    var operId: Option<string>
    var operPath: Option<string>
    var bridgeId: Option<string>
    var bridgePath: Option<string>
    var ofId: Option<nat>

    /** The cached ids and paths always come in pairs that agree. */
    ghost predicate Valid()
      reads this
    {
      && ovsdbId == ServerNodeId(name)
      && ovsdbPath == NodePath(ovsdbId)
      && (operPath.Some? <==> operId.Some?)
      && (operPath.Some? ==> operPath.value == NodePath(operId.value))
      && (bridgePath.Some? <==> bridgeId.Some?)
      && (bridgePath.Some? ==> bridgePath.value == NodePath(bridgeId.value))
    }

    /**
     * __init__: the address and port stored in the configuration datastore
     * for this server, when there are some, replace the arguments.
     */
    constructor (name: string, ip: Option<string>, port: nat, stored: Option<(string, nat)>)
      ensures Valid()
      ensures this.name == name && ovsdbId == ServerNodeId(name)
      ensures stored.None? ==> this.ip == ip && this.port == port
      ensures stored.Some? ==> this.ip == Some(stored.value.0) && this.port == stored.value.1
      ensures operId == None && bridgeId == None && ofId == None
    {
      this.name := name;
      ovsdbId := ServerNodeId(name);
      ovsdbPath := NodePath(ServerNodeId(name));
      if stored.Some? {
        this.ip := Some(stored.value.0);
        this.port := stored.value.1;
      } else {
        this.ip := ip;
        this.port := port;
      }
      operId := None;
      operPath := None;
      bridgeId := None;
      bridgePath := None;
      ofId := None;
    }

    /**
     * is_connected: the first call that finds the server among the
     * operational nodes caches its node id and path, and later calls reuse
     * them; the answer is the manager entry's connected flag, and false when
     * a read fails with a REST error or the server is not listed. A server
     * node without connection info met by the search, and a manager reply
     * without the entry or its flag, raise KeyError or IndexError, which
     * only a REST error is caught before.
     */
    method IsConnected(nodes: Option<seq<OperNode>>, manager: ManagerReply) returns (r: Outcome<bool>)
      requires Valid()
      modifies this
      ensures Valid()
      ensures ip == old(ip) && port == old(port) && bridgeId == old(bridgeId) && bridgePath == old(bridgePath) && ofId == old(ofId)
      ensures old(operId).Some? ==> operId == old(operId)
      ensures old(operId).None? && nodes.None? ==> operId == None
      ensures old(operId).None? && nodes.Some? ==>
                var k := FirstStop(nodes.value, ip);
                && (operId.Some? <==> k.Some? && nodes.value[k.value].remoteIp.Some?)
                && (operId.Some? ==> IsServerAt(nodes.value[k.value], ip) && operId.value == nodes.value[k.value].nodeId)
      ensures r.Raised? <==> (old(operId).None? && nodes.Some? && SearchRaises(nodes.value, ip)) || (operId.Some? && manager.Malformed?)
      ensures r == Value(true) <==> operId.Some? && manager == Connected(true)
    {
      if operPath.None? {
        if nodes.None? {
          return Value(false);
        }
        var found := FindServer(nodes.value, ip);
        if found.Some? {
          var node := nodes.value[found.value];
          if node.remoteIp.None? {
            return Raised;
          }
          operId := Some(node.nodeId);
          operPath := Some(NodePath(node.nodeId));
        }
        if operPath.None? {
          return Value(false);
        }
      }
      match manager
      case ReadFailed => r := Value(false);
      case Malformed => r := Raised;
      case Connected(flag) => r := Value(flag);
    }

    /**
     * is_bridge: when connected, records br0's id and path; a readable
     * datapath-id sets the OpenFlow id and gives true; a datapath-id that
     * is not hexadecimal raises ValueError, and so does whatever
     * is_connected raises, since it is called outside the try.
     */
    method IsBridge(nodes: Option<seq<OperNode>>, manager: ManagerReply, dpid: Option<string>)
      returns (r: Outcome<bool>)
      requires Valid()
      modifies this
      ensures Valid()
      ensures ip == old(ip) && port == old(port)
      ensures old(operId).Some? ==> operId == old(operId)
      ensures old(operId).None? && nodes.None? ==> operId == None
      ensures old(operId).None? && nodes.Some? ==>
                var k := FirstStop(nodes.value, ip);
                && (operId.Some? <==> k.Some? && nodes.value[k.value].remoteIp.Some?)
                && (operId.Some? ==> IsServerAt(nodes.value[k.value], ip) && operId.value == nodes.value[k.value].nodeId)
      ensures r == Value(true) <==> operId.Some? && manager == Connected(true) && dpid.Some? && DatapathId(dpid.value).Some?
      ensures r == Raised <==>
                || (old(operId).None? && nodes.Some? && SearchRaises(nodes.value, ip))
                || (operId.Some? && manager.Malformed?)
                || (operId.Some? && manager == Connected(true) && dpid.Some? && DatapathId(dpid.value).None?)
      ensures r == Value(true) ==> ofId == DatapathId(dpid.value)
      ensures r != Value(true) ==> ofId == old(ofId)
      ensures operId.Some? && manager == Connected(true) ==>
                bridgeId == Some(BridgeId(operId.value)) && bridgePath == Some(NodePath(BridgeId(operId.value)))
      ensures !(operId.Some? && manager == Connected(true)) ==> bridgeId == old(bridgeId) && bridgePath == old(bridgePath)
    {
      var connected := IsConnected(nodes, manager);
      if connected != Value(true) {
        return connected;
      }
      bridgeId := Some(BridgeId(operId.value));
      bridgePath := Some(NodePath(BridgeId(operId.value)));
      if dpid.None? {
        return Value(false);
      }
      var id := DatapathId(dpid.value);
      if id.None? {
        return Raised;
      }
      ofId := id;
      return Value(true);
    }

    /** remove_bridge: forgets br0's id and path, returning the path it deletes. */
    method RemoveBridge() returns (deleted: Option<string>)
      requires Valid()
      modifies this
      ensures Valid()
      ensures deleted == old(bridgePath)
      ensures bridgeId == None && bridgePath == None
      ensures operId == old(operId) && ip == old(ip) && ofId == old(ofId)
    {
      deleted := bridgePath;
      if bridgePath.Some? {
        bridgePath := None;
        bridgeId := None;
      }
    }

    /**
     * create_bridge up to the request: after the is_bridge probe, the
     * body that creates br0 on the server's operational node, or Raised
     * when the probe raises (a malformed manager reply, a non-hexadecimal
     * datapath-id) or the server was never found (the node id is then None
     * and the string concatenation raises).
     */
    method CreateBridge(portNames: seq<string>, ctrlIp: string, ctrlPort: nat, isDpdk: bool, nDaqrPorts: nat,
                        nodes: Option<seq<OperNode>>, manager: ManagerReply, dpid: Option<string>)
      returns (request: Outcome<BridgeNode>)
      requires Valid()
      modifies this
      ensures Valid()
      ensures request.Value? ==> operId.Some? && bridgeId == Some(BridgeId(operId.value))
      ensures request.Value? ==> request.value.nodeId == BridgeId(operId.value) && request.value.bridgeName == "br0"
      ensures request.Value? ==> request.value.controllerTarget == ControllerTarget(ctrlIp, ctrlPort)
      ensures request.Value? ==> request.value.netdev == isDpdk && request.value.managedBy == operId.value
      ensures request.Value? ==>
                var tps := request.value.terminationPoints;
                |tps| == |portNames| + (if isDpdk then 2 * nDaqrPorts else 0) &&
                forall k :: 0 <= k < |tps| ==> tps[k] == Layout(portNames, nDaqrPorts, k)
      ensures request.Raised? <==>
                operId.None? || manager.Malformed? || (manager == Connected(true) && dpid.Some? && DatapathId(dpid.value).None?)
    {
      var probe := IsBridge(nodes, manager, dpid);
      if probe.Raised? || operId.None? {
        return Raised;
      }
      bridgeId := Some(BridgeId(operId.value));
      bridgePath := Some(NodePath(BridgeId(operId.value)));
      var tps := TerminationPoints(portNames, isDpdk, nDaqrPorts);
      request := Value(BridgeNode(BridgeId(operId.value), "br0", ControllerTarget(ctrlIp, ctrlPort), isDpdk, tps, operId.value));
    }
  }
}
