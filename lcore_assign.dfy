/**
 * Lcore roles and port binding of the voq_swq datapath (init_lcores,
 * get_next_lcore, init_lcores_data_rx, init_lcores_data_tx), as functions on
 * the lcore table, with the properties the datapath relies on: every port is
 * served by exactly one RX lcore and exactly one TX lcore, and the RX queue
 * 1+q of every port feeds output port q.
 */
module LcoreAssign {
  import opened Opt
  import opened Bytes
  import opened VoqSwqDefs
  import opened FlowDetect

  // ---------------------------------------------------------------------
  // Roles

  /** The entry init_lcores records for a worker lcore (id, NUMA socket): unused, no ports. */
  function FreshLcore(id: nat, socket: nat): Lcore
  {
    Lcore(id, socket, Unused, [], [])
  }

  /** The number of unused lcores among the first n entries. */
  function CountUnused(lcores: seq<Lcore>): (c: nat)
    ensures c <= |lcores|
  {
    if |lcores| == 0 then 0
    else CountUnused(lcores[..|lcores| - 1]) + (if lcores[|lcores| - 1].ltype == Unused then 1 else 0)
  }

  /**
   * The role init_lcores gives table index i when every worker started unused:
   * index 0 is the default lcore and the rest alternate RX, TX, RX, ...
   */
  function RoleOf(i: nat): LcoreType
  {
    if i == LcoreIdDefault then Default else if i % 2 == 1 then DataRx else DataTx
  }

  function CountRole(lcores: seq<Lcore>, t: LcoreType): (c: nat)
    ensures c <= |lcores|
  {
    if |lcores| == 0 then 0
    else CountRole(lcores[..|lcores| - 1], t) + (if lcores[|lcores| - 1].ltype == t then 1 else 0)
  }

  /** With the alternating roles, no lcore stays unused and RX lcores outnumber TX lcores by at most one. */
  lemma {:induction false} RolesBalanced(lcores: seq<Lcore>)
    requires |lcores| >= 1
    requires forall i :: 0 <= i < |lcores| ==> lcores[i].ltype == RoleOf(i)
    ensures CountUnused(lcores) == 0
    ensures CountRole(lcores, DataRx) == CountRole(lcores, DataTx) + (|lcores| - 1) % 2
    ensures CountRole(lcores, Default) == 1
  {
    var n := |lcores|;
    if n > 1 {
      var front := lcores[..n - 1];
      assert forall i :: 0 <= i < |front| ==> front[i].ltype == RoleOf(i);
      RolesBalanced(front);
    }
  }

  // ---------------------------------------------------------------------
  // get_next_lcore

  /** The table index of the first entry with the given lcore id. */
  function IndexOfId(lcores: seq<Lcore>, id: nat): (r: Option<nat>)
    ensures r.Some? ==> && r.value < |lcores| && lcores[r.value].id == id
                        && forall i :: 0 <= i < r.value ==> lcores[i].id != id
    ensures r.None? ==> forall i :: 0 <= i < |lcores| ==> lcores[i].id != id
  {
    if |lcores| == 0 then None
    else if lcores[0].id == id then Some(0)
    else match IndexOfId(lcores[1..], id)
      case None => None
      case Some(i) => Some(i + 1)
  }

  /** An lcore of role t with room for another port, on the given socket when numaOk. */
  predicate Fits(l: Lcore, t: LcoreType, socket: nat, numaOk: bool)
  {
    l.ltype == t && NbPorts(l) < LcorePortMax && (!numaOk || l.socket == socket)
  }

  /** The table index d+1 places after from, wrapping around. */
  function Circ(n: nat, from: nat, d: nat): (i: nat)
    requires n > 0
    ensures i < n
  {
    (from + d + 1) % n
  }

  /** The first distance d' in [d, n) whose entry fits. */
  function Scan(lcores: seq<Lcore>, from: nat, t: LcoreType, socket: nat, numaOk: bool, d: nat): (r: Option<nat>)
    requires |lcores| > 0
    ensures r.Some? ==> && d <= r.value < |lcores|
                        && Fits(lcores[Circ(|lcores|, from, r.value)], t, socket, numaOk)
                        && forall d' :: d <= d' < r.value ==> !Fits(lcores[Circ(|lcores|, from, d')], t, socket, numaOk)
    ensures r.None? ==> forall d' :: d <= d' < |lcores| ==> !Fits(lcores[Circ(|lcores|, from, d')], t, socket, numaOk)
    decreases |lcores| - d
  {
    if d >= |lcores| then None
    else if Fits(lcores[Circ(|lcores|, from, d)], t, socket, numaOk) then Some(d)
    else Scan(lcores, from, t, socket, numaOk, d + 1)
  }

  datatype Pick = Picked(index: nat) | NoRoom | Abort

  /**
   * get_next_lcore(id, t, socket): locate id (fatal if absent), then scan the
   * table circularly from the entry after it, first on the socket, then on any.
   */
  function NextLcore(lcores: seq<Lcore>, id: nat, t: LcoreType, socket: nat): (r: Pick)
    ensures r.Picked? ==> r.index < |lcores|
  {
    match IndexOfId(lcores, id)
    case None => Abort
    case Some(from) =>
      match Scan(lcores, from, t, socket, true, 0)
      case Some(d) => Picked(Circ(|lcores|, from, d))
      case None =>
        match Scan(lcores, from, t, socket, false, 0)
        case Some(d) => Picked(Circ(|lcores|, from, d))
        case None => NoRoom
  }

  /** Every index is some distance d < n after from. */
  lemma CircCovers(n: nat, from: nat, i: nat) returns (d: nat)
    requires from < n && i < n
    ensures d < n && Circ(n, from, d) == i
  {
    if from < i {
      d := i - from - 1;
      ModBelow(from + d + 1, n);
    } else {
      d := i + n - from - 1;
      ModOnce(from + d + 1, n);
    }
  }

  lemma ModBelow(x: nat, n: nat)
    requires x < n
    ensures x % n == x
  {
  }

  lemma ModOnce(x: nat, n: nat)
    requires n <= x < 2 * n
    ensures x % n == x - n
  {
  }

  /**
   * The pick has the requested role and room; it is on the requested socket
   * whenever any lcore of that role with room is; NULL means no lcore of that
   * role has room; the call is fatal exactly when id is not in the table.
   */
  lemma NextLcoreSpec(lcores: seq<Lcore>, id: nat, t: LcoreType, socket: nat)
    ensures NextLcore(lcores, id, t, socket).Abort? <==> forall i :: 0 <= i < |lcores| ==> lcores[i].id != id
    ensures NextLcore(lcores, id, t, socket).Picked? ==>
              var x := NextLcore(lcores, id, t, socket).index;
              && Fits(lcores[x], t, socket, false)
              && ((exists i :: 0 <= i < |lcores| && Fits(lcores[i], t, socket, true)) ==> lcores[x].socket == socket)
    ensures NextLcore(lcores, id, t, socket).NoRoom? ==>
              forall i :: 0 <= i < |lcores| ==> !Fits(lcores[i], t, socket, false)
  {
    var r := NextLcore(lcores, id, t, socket);
    if IndexOfId(lcores, id).Some? {
      var from := IndexOfId(lcores, id).value;
      var n := |lcores|;
      if exists i :: 0 <= i < n && Fits(lcores[i], t, socket, true) {
        var i :| 0 <= i < n && Fits(lcores[i], t, socket, true);
        var d := CircCovers(n, from, i);
        assert Scan(lcores, from, t, socket, true, 0).Some?;
      }
      if r.NoRoom? {
        forall i | 0 <= i < n
          ensures !Fits(lcores[i], t, socket, false)
        {
          var d := CircCovers(n, from, i);
        }
      }
    }
  }

  // ---------------------------------------------------------------------
  // Binding ports to lcores

  /** The RX entry for port: queue q reads RX queue 1+q and feeds output port q. */
  function RxEntry(port: nat, nbPorts: nat): (e: RxPortConf)
    requires nbPorts <= MaxPorts
    ensures e.portId == port && |e.queues| == nbPorts
    ensures forall q :: 0 <= q < nbPorts ==> e.queues[q] == RxQueue(RxqIdDataMin + q, q)
  {
    RxPortConf(port, seq<RxQueue>(nbPorts, q requires 0 <= q < nbPorts => RxQueue(RxqIdDataMin + q, q)))
  }

  /** Appends port to the list lcore l uses for role t. */
  function AddPort(l: Lcore, t: LcoreType, port: nat, nbPorts: nat): Lcore
    requires nbPorts <= MaxPorts
  {
    if t == DataRx then l.(rxPorts := l.rxPorts + [RxEntry(port, nbPorts)])
    else l.(txPorts := l.txPorts + [TxPortConf(port, {})])
  }

  /**
   * Ports p .. nbPorts-1 given out in order, each search starting after the
   * lcore chosen for the previous port; None when a search fails (fatal).
   */
  function AssignFrom(lcores: seq<Lcore>, t: LcoreType, prevId: nat, portSocket: seq<nat>, p: nat): (r: Option<seq<Lcore>>)
    requires p <= |portSocket| <= MaxPorts
    ensures r.Some? ==> SameRoles(lcores, r.value)
    decreases |portSocket| - p
  {
    if p == |portSocket| then Some(lcores)
    else
      match NextLcore(lcores, prevId, t, portSocket[p])
      case Picked(x) =>
        AssignFrom(lcores[x := AddPort(lcores[x], t, p, |portSocket|)], t, lcores[x].id, portSocket, p + 1)
      case _ => None
  }

  /** The port ids of the list lcore l uses for role t. */
  function PortIds(l: Lcore, t: LcoreType): (s: seq<nat>)
    ensures t == DataRx ==> |s| == |l.rxPorts| && forall j :: 0 <= j < |s| ==> s[j] == l.rxPorts[j].portId
    ensures t != DataRx ==> |s| == |l.txPorts| && forall j :: 0 <= j < |s| ==> s[j] == l.txPorts[j].portId
  {
    if t == DataRx then seq(|l.rxPorts|, j requires 0 <= j < |l.rxPorts| => l.rxPorts[j].portId)
    else seq(|l.txPorts|, j requires 0 <= j < |l.txPorts| => l.txPorts[j].portId)
  }

  function Count(s: seq<nat>, p: nat): nat
  {
    if |s| == 0 then 0 else Count(s[..|s| - 1], p) + (if s[|s| - 1] == p then 1 else 0)
  }

  /** How many entries for port p the lcores' role-t lists hold in all. */
  function Holders(lcores: seq<Lcore>, t: LcoreType, p: nat): nat
  {
    if |lcores| == 0 then 0
    else Holders(lcores[..|lcores| - 1], t, p) + Count(PortIds(lcores[|lcores| - 1], t), p)
  }

  lemma CountSnoc(s: seq<nat>, x: nat, p: nat)
    ensures Count(s + [x], p) == Count(s, p) + (if x == p then 1 else 0)
  {
    assert (s + [x])[..|s|] == s;
  }

  lemma CountPositive(s: seq<nat>, p: nat)
    requires Count(s, p) > 0
    ensures exists j :: 0 <= j < |s| && s[j] == p
  {
    if s[|s| - 1] != p {
      CountPositive(s[..|s| - 1], p);
      var j :| 0 <= j < |s| - 1 && s[..|s| - 1][j] == p;
      assert s[j] == p;
    }
  }

  lemma {:induction false} HoldersUpdate(lcores: seq<Lcore>, x: nat, l: Lcore, t: LcoreType, p: nat)
    requires x < |lcores|
    ensures Holders(lcores[x := l], t, p) + Count(PortIds(lcores[x], t), p) ==
            Holders(lcores, t, p) + Count(PortIds(l, t), p)
    decreases |lcores|
  {
    var n := |lcores| - 1;
    var lcores' := lcores[x := l];
    assert lcores'[..n] == if x == n then lcores[..n] else lcores[..n][x := l];
    if x < n {
      HoldersUpdate(lcores[..n], x, l, t, p);
    }
  }

  lemma HoldersPositive(lcores: seq<Lcore>, t: LcoreType, p: nat)
    requires Holders(lcores, t, p) > 0
    ensures exists li, j :: 0 <= li < |lcores| && 0 <= j < |PortIds(lcores[li], t)| && PortIds(lcores[li], t)[j] == p
  {
    var n := |lcores| - 1;
    if Count(PortIds(lcores[n], t), p) > 0 {
      CountPositive(PortIds(lcores[n], t), p);
    } else {
      HoldersPositive(lcores[..n], t, p);
      var li, j :| 0 <= li < n && 0 <= j < |PortIds(lcores[..n][li], t)| && PortIds(lcores[..n][li], t)[j] == p;
      assert lcores[..n][li] == lcores[li];
    }
  }

  /** Two lcore tables with the same ids, sockets and roles. */
  predicate SameRoles(a: seq<Lcore>, b: seq<Lcore>)
  {
    |a| == |b| && forall i :: 0 <= i < |a| ==> a[i].id == b[i].id && a[i].socket == b[i].socket && a[i].ltype == b[i].ltype
  }

  /** Binding ports for role t leaves the list of the other role alone. */
  predicate OtherKept(a: seq<Lcore>, b: seq<Lcore>, t: LcoreType)
    requires |a| == |b|
  {
    forall i :: 0 <= i < |a| ==>
      (if t == DataRx then b[i].txPorts == a[i].txPorts else b[i].rxPorts == a[i].rxPorts)
  }

  lemma {:induction false} HoldersSameLists(a: seq<Lcore>, b: seq<Lcore>, t: LcoreType, q: nat)
    requires |a| == |b| && forall i :: 0 <= i < |a| ==> PortIds(a[i], t) == PortIds(b[i], t)
    ensures Holders(a, t, q) == Holders(b, t, q)
    decreases |a|
  {
    if |a| > 0 {
      HoldersSameLists(a[..|a| - 1], b[..|b| - 1], t, q);
    }
  }

  /** A binding survives the other role's binding. */
  lemma BoundKept(a: seq<Lcore>, b: seq<Lcore>, t: LcoreType, nbPorts: nat)
    requires t == DataRx || t == DataTx
    requires nbPorts <= MaxPorts && Bound(a, t, nbPorts, nbPorts)
    requires SameRoles(a, b)
    requires forall i :: 0 <= i < |a| ==> (if t == DataRx then b[i].rxPorts == a[i].rxPorts else b[i].txPorts == a[i].txPorts)
    ensures Bound(b, t, nbPorts, nbPorts)
  {
    forall q: nat
      ensures Holders(b, t, q) == (if q < nbPorts then 1 else 0)
    {
      HoldersSameLists(a, b, t, q);
    }
    forall li | 0 <= li < |b| && |PortIds(b[li], t)| > 0
      ensures b[li].ltype == t && NbPorts(b[li]) <= LcorePortMax
    {
      assert PortIds(b[li], t) == PortIds(a[li], t);
    }
  }

  /** What binding ports 0..p-1 for role t has established. */
  ghost predicate Bound(lcores: seq<Lcore>, t: LcoreType, nbPorts: nat, p: nat)
    requires nbPorts <= MaxPorts
  {
    && (forall q: nat :: Holders(lcores, t, q) == (if q < p then 1 else 0))
    && (forall li :: 0 <= li < |lcores| && |PortIds(lcores[li], t)| > 0 ==>
          lcores[li].ltype == t && NbPorts(lcores[li]) <= LcorePortMax)
    && (t == DataRx ==> forall li, j :: 0 <= li < |lcores| && 0 <= j < |lcores[li].rxPorts| ==>
          lcores[li].rxPorts[j] == RxEntry(lcores[li].rxPorts[j].portId, nbPorts))
    && (t == DataTx ==> forall li, j :: 0 <= li < |lcores| && 0 <= j < |lcores[li].txPorts| ==>
          lcores[li].txPorts[j].activeFlows == {})
  }

  /** No lcore has a port for role t yet. */
  predicate NoPorts(lcores: seq<Lcore>, t: LcoreType)
  {
    forall li :: 0 <= li < |lcores| ==> |PortIds(lcores[li], t)| == 0
  }

  lemma {:induction false} NoPortsBound(lcores: seq<Lcore>, t: LcoreType, nbPorts: nat)
    requires nbPorts <= MaxPorts && NoPorts(lcores, t)
    ensures Bound(lcores, t, nbPorts, 0)
    decreases |lcores|
  {
    if |lcores| > 0 {
      var n := |lcores| - 1;
      assert NoPorts(lcores[..n], t);
      NoPortsBound(lcores[..n], t, nbPorts);
    }
  }

  /** Giving port p to lcore x counts p once more and leaves every other port's count alone. */
  lemma AddPortCounts(lcores: seq<Lcore>, t: LcoreType, x: nat, p: nat, nbPorts: nat)
    requires x < |lcores| && nbPorts <= MaxPorts
    requires forall q: nat :: Holders(lcores, t, q) == (if q < p then 1 else 0)
    ensures var lcores' := lcores[x := AddPort(lcores[x], t, p, nbPorts)];
            forall q: nat :: Holders(lcores', t, q) == (if q < p + 1 then 1 else 0)
  {
    var l' := AddPort(lcores[x], t, p, nbPorts);
    var lcores' := lcores[x := l'];
    assert PortIds(l', t) == PortIds(lcores[x], t) + [p];
    forall q: nat
      ensures Holders(lcores', t, q) == (if q < p + 1 then 1 else 0)
    {
      HoldersUpdate(lcores, x, l', t, q);
      CountSnoc(PortIds(lcores[x], t), p, q);
    }
  }

  /** Giving port p to the picked lcore extends the binding to ports 0..p. */
  lemma {:induction false} BindStep(lcores: seq<Lcore>, t: LcoreType, prevId: nat, portSocket: seq<nat>, p: nat)
    requires t == DataRx || t == DataTx
    requires p < |portSocket| <= MaxPorts && Bound(lcores, t, |portSocket|, p)
    requires NextLcore(lcores, prevId, t, portSocket[p]).Picked?
    ensures var x := NextLcore(lcores, prevId, t, portSocket[p]).index;
            var lcores' := lcores[x := AddPort(lcores[x], t, p, |portSocket|)];
            Bound(lcores', t, |portSocket|, p + 1) && SameRoles(lcores, lcores') && OtherKept(lcores, lcores', t)
  {
    var n := |portSocket|;
    var x := NextLcore(lcores, prevId, t, portSocket[p]).index;
    NextLcoreSpec(lcores, prevId, t, portSocket[p]);
    AddPortCounts(lcores, t, x, p, n);
    var l' := AddPort(lcores[x], t, p, n);
    var lcores' := lcores[x := l'];
    assert Fits(lcores[x], t, portSocket[p], false);
    assert NbPorts(l') == NbPorts(lcores[x]) + 1;
  }

  /**
   * Binding all ports from an empty start: every port p < nbPorts sits in
   * exactly one role-t list, no other port id appears, only role-t lcores
   * hold ports and each holds at most 16; RX entries list queues 1+q -> q and
   * TX entries start with no active flow. Ids, sockets and roles are kept.
   */
  lemma {:induction false} AssignFromSpec(lcores: seq<Lcore>, t: LcoreType, prevId: nat, portSocket: seq<nat>, p: nat)
    requires t == DataRx || t == DataTx
    requires p <= |portSocket| <= MaxPorts && Bound(lcores, t, |portSocket|, p)
    requires AssignFrom(lcores, t, prevId, portSocket, p).Some?
    ensures var ls := AssignFrom(lcores, t, prevId, portSocket, p).value;
            Bound(ls, t, |portSocket|, |portSocket|) && SameRoles(lcores, ls) && OtherKept(lcores, ls, t)
    decreases |portSocket| - p
  {
    if p < |portSocket| {
      var x := NextLcore(lcores, prevId, t, portSocket[p]).index;
      var lcores' := lcores[x := AddPort(lcores[x], t, p, |portSocket|)];
      BindStep(lcores, t, prevId, portSocket, p);
      AssignFromSpec(lcores', t, lcores[x].id, portSocket, p + 1);
    }
  }

  // ---------------------------------------------------------------------
  // init_lcores

  /** The table init_lcores registers: one unused entry per worker (id, socket), in order. */
  function Registered(workers: seq<(nat, nat)>): (ls: seq<Lcore>)
    ensures |ls| == |workers|
    ensures forall i :: 0 <= i < |ls| ==> ls[i] == FreshLcore(workers[i].0, workers[i].1)
  {
    seq<Lcore>(|workers|, i requires 0 <= i < |workers| => FreshLcore(workers[i].0, workers[i].1))
  }

  /** init_lcore_default: entry 0 must exist and be unused; it becomes the default lcore. */
  function WithDefault(lcores: seq<Lcore>): (r: Option<seq<Lcore>>)
    ensures r.Some? <==> |lcores| >= 1 && lcores[LcoreIdDefault].ltype == Unused
    ensures r.Some? ==> && |r.value| == |lcores|
                        && r.value[LcoreIdDefault] == lcores[LcoreIdDefault].(ltype := Default)
                        && forall i :: 0 <= i < |lcores| && i != LcoreIdDefault ==> r.value[i] == lcores[i]
  {
    if |lcores| < 1 || lcores[LcoreIdDefault].ltype != Unused then None
    else Some(lcores[LcoreIdDefault := lcores[LcoreIdDefault].(ltype := Default)])
  }

  function SetRole(l: Lcore, t: LcoreType): Lcore
  {
    l.(ltype := t)
  }

  /**
   * The role loop of init_lcores from index i: an entry in use is skipped; an
   * unused one becomes DATA_RX and the entry after it, if any, DATA_TX.
   */
  function Alternate(lcores: seq<Lcore>, i: nat): (r: seq<Lcore>)
    ensures |r| == |lcores|
    ensures forall j :: 0 <= j < |lcores| ==>
              r[j].id == lcores[j].id && r[j].socket == lcores[j].socket
              && r[j].rxPorts == lcores[j].rxPorts && r[j].txPorts == lcores[j].txPorts
    ensures forall j :: 0 <= j < i && j < |lcores| ==> r[j] == lcores[j]
    ensures forall j :: i <= j < |lcores| ==> r[j].ltype != Unused
    decreases |lcores| - i
  {
    if i >= |lcores| then lcores
    else if lcores[i].ltype != Unused then Alternate(lcores, i + 1)
    else if i + 1 < |lcores| then
      Alternate(lcores[i := SetRole(lcores[i], DataRx)][i + 1 := SetRole(lcores[i + 1], DataTx)], i + 2)
    else lcores[i := SetRole(lcores[i], DataRx)]
  }

  /** From an odd index i onward, a run of unused entries gets exactly the roles RoleOf. */
  lemma {:induction false} AlternateRoles(lcores: seq<Lcore>, i: nat)
    requires i % 2 == 1
    requires forall j :: i <= j < |lcores| ==> lcores[j].ltype == Unused
    ensures forall j :: i <= j < |lcores| ==> Alternate(lcores, i)[j].ltype == RoleOf(j)
    decreases |lcores| - i
  {
    if i + 1 < |lcores| {
      var next := lcores[i := SetRole(lcores[i], DataRx)][i + 1 := SetRole(lcores[i + 1], DataTx)];
      AlternateRoles(next, i + 2);
      var r := Alternate(lcores, i);
      assert r == Alternate(next, i + 2);
      forall j | i <= j < |lcores|
        ensures r[j].ltype == RoleOf(j)
      {
        if j >= i + 2 {
        } else {
          assert r[j] == next[j];
        }
      }
    }
  }

  /**
   * init_lcores for the given workers (lcore id, NUMA socket) and the NUMA
   * socket of every port: register the workers as unused, make entry 0 the
   * default lcore, require at least two unused entries, alternate RX and TX
   * roles, then bind the ports to RX lcores and then to TX lcores, each pass
   * starting after the default lcore. None is a fatal RTE_VERIFY.
   */
  function InitLcores(workers: seq<(nat, nat)>, portSocket: seq<nat>): Option<seq<Lcore>>
    requires |portSocket| <= MaxPorts
  {
    match WithDefault(Registered(workers))
    case None => None
    case Some(ls) =>
      if CountUnused(ls) < 2 then None
      else
        var roles := Alternate(ls, 0);
        match AssignFrom(roles, DataRx, roles[LcoreIdDefault].id, portSocket, 0)
        case None => None
        case Some(rx) => AssignFrom(rx, DataTx, rx[LcoreIdDefault].id, portSocket, 0)
  }

  lemma {:induction false} CountUnusedAfterFirst(lcores: seq<Lcore>)
    requires |lcores| >= 1 && lcores[0].ltype != Unused
    requires forall i :: 1 <= i < |lcores| ==> lcores[i].ltype == Unused
    ensures CountUnused(lcores) == |lcores| - 1
    decreases |lcores|
  {
    if |lcores| > 1 {
      CountUnusedAfterFirst(lcores[..|lcores| - 1]);
    }
  }

  /** The role stage of init_lcores on freshly registered workers. */
  lemma {:induction false} RolesStage(workers: seq<(nat, nat)>)
    ensures WithDefault(Registered(workers)).Some? <==> |workers| >= 1
    ensures |workers| >= 1 ==>
              var ls := WithDefault(Registered(workers)).value;
              var roles := Alternate(ls, 0);
              && CountUnused(ls) == |workers| - 1
              && (forall i :: 0 <= i < |roles| ==>
                    roles[i].id == workers[i].0 && roles[i].socket == workers[i].1 && roles[i].ltype == RoleOf(i))
              && NoPorts(roles, DataRx) && NoPorts(roles, DataTx)
  {
    if |workers| >= 1 {
      var ls := WithDefault(Registered(workers)).value;
      CountUnusedAfterFirst(ls);
      assert Alternate(ls, 0) == Alternate(ls, 1);
      AlternateRoles(ls, 1);
    }
  }

  /** The two binding passes of init_lcores, from a table with no ports bound. */
  lemma {:induction false} BindStage(roles: seq<Lcore>, portSocket: seq<nat>)
    requires |portSocket| <= MaxPorts && |roles| >= 1
    requires NoPorts(roles, DataRx) && NoPorts(roles, DataTx)
    requires AssignFrom(roles, DataRx, roles[LcoreIdDefault].id, portSocket, 0).Some?
    ensures var rx := AssignFrom(roles, DataRx, roles[LcoreIdDefault].id, portSocket, 0).value;
            AssignFrom(rx, DataTx, rx[LcoreIdDefault].id, portSocket, 0).Some? ==>
              var ls := AssignFrom(rx, DataTx, rx[LcoreIdDefault].id, portSocket, 0).value;
              && SameRoles(roles, ls)
              && Bound(ls, DataRx, |portSocket|, |portSocket|)
              && Bound(ls, DataTx, |portSocket|, |portSocket|)
  {
    var n := |portSocket|;
    NoPortsBound(roles, DataRx, n);
    var rx := AssignFrom(roles, DataRx, roles[LcoreIdDefault].id, portSocket, 0).value;
    AssignFromSpec(roles, DataRx, roles[LcoreIdDefault].id, portSocket, 0);
    assert NoPorts(rx, DataTx) by {
      forall li | 0 <= li < |rx| ensures |PortIds(rx[li], DataTx)| == 0 {
        assert rx[li].txPorts == roles[li].txPorts;
      }
    }
    NoPortsBound(rx, DataTx, n);
    if AssignFrom(rx, DataTx, rx[LcoreIdDefault].id, portSocket, 0).Some? {
      var ls := AssignFrom(rx, DataTx, rx[LcoreIdDefault].id, portSocket, 0).value;
      AssignFromSpec(rx, DataTx, rx[LcoreIdDefault].id, portSocket, 0);
      BoundKept(rx, ls, DataRx, n);
    }
  }

  /**
   * What a successful init_lcores leaves: one entry per worker with its id and
   * socket; entry 0 the default lcore and the rest alternating RX, TX; every
   * port bound to exactly one RX lcore and exactly one TX lcore with room for
   * it; so the flow handler finds a TX entry for every port. Fewer than three
   * workers is fatal.
   */
  lemma {:induction false} InitLcoresSpec(workers: seq<(nat, nat)>, portSocket: seq<nat>)
    requires |portSocket| <= MaxPorts
    ensures |workers| < 3 ==> InitLcores(workers, portSocket).None?
    ensures InitLcores(workers, portSocket).Some? ==>
              var ls := InitLcores(workers, portSocket).value;
              && |ls| == |workers| >= 3
              && (forall i :: 0 <= i < |ls| ==>
                    ls[i].id == workers[i].0 && ls[i].socket == workers[i].1 && ls[i].ltype == RoleOf(i))
              && Bound(ls, DataRx, |portSocket|, |portSocket|)
              && Bound(ls, DataTx, |portSocket|, |portSocket|)
              && forall p :: 0 <= p < |portSocket| ==> TxConfOf(ls, p).Some?
  {
    RolesStage(workers);
    if InitLcores(workers, portSocket).Some? {
      var ls := WithDefault(Registered(workers)).value;
      var roles := Alternate(ls, 0);
      var rx := AssignFrom(roles, DataRx, roles[LcoreIdDefault].id, portSocket, 0).value;
      var r := AssignFrom(rx, DataTx, rx[LcoreIdDefault].id, portSocket, 0).value;
      assert r == InitLcores(workers, portSocket).value;
      BindStage(roles, portSocket);
      forall p | 0 <= p < |portSocket|
        ensures TxConfOf(r, p).Some?
      {
        TxServed(r, |portSocket|, p);
      }
    }
  }

  /** A port bound for TX has a TX entry the flow handler can find. */
  lemma {:induction false} TxServed(lcores: seq<Lcore>, nbPorts: nat, p: nat)
    requires nbPorts <= MaxPorts && Bound(lcores, DataTx, nbPorts, nbPorts) && p < nbPorts
    ensures TxConfOf(lcores, p).Some?
  {
    assert Holders(lcores, DataTx, p) == 1;
    HoldersPositive(lcores, DataTx, p);
    var li, j :| 0 <= li < |lcores| && 0 <= j < |PortIds(lcores[li], DataTx)| && PortIds(lcores[li], DataTx)[j] == p;
    assert lcores[li].txPorts[j].portId == p;
    assert ServesTx(lcores[li], p);
  }

  // ---------------------------------------------------------------------
  // get_lcore_params

  /** An entry of the static lcore table past nb_lcores: all zero, so id 0 and UNUSED. */
  const PaddingLcore := Lcore(0, 0, Unused, [], [])

  /** The whole DAQSWITCH_MAX_LCORES-entry table the lookup scans. */
  function Padded(lcores: seq<Lcore>): (t: seq<Lcore>)
    requires |lcores| <= MaxLcores
    ensures |t| == MaxLcores && t[..|lcores|] == lcores
    ensures forall i :: |lcores| <= i < MaxLcores ==> t[i] == PaddingLcore
  {
    lcores + seq<Lcore>(MaxLcores - |lcores|, _ => PaddingLcore)
  }

  /**
   * get_lcore_params: the index of the first table entry with the id; when
   * there is none the loop runs off with its cursor on the last entry.
   */
  function LcoreParams(lcores: seq<Lcore>, id: nat): (i: nat)
    requires |lcores| <= MaxLcores
    ensures i < MaxLcores
  {
    match IndexOfId(Padded(lcores), id)
    case Some(i) => i
    case None => MaxLcores - 1
  }

  /**
   * A registered id yields its first entry; an unregistered non-zero id yields
   * the last table entry rather than no entry; an unregistered id 0 yields the
   * first padding entry, which is UNUSED.
   */
  lemma LcoreParamsSpec(lcores: seq<Lcore>, id: nat)
    requires |lcores| <= MaxLcores
    ensures var i := LcoreParams(lcores, id);
            && ((exists j :: 0 <= j < |lcores| && lcores[j].id == id) ==>
                  i < |lcores| && lcores[i].id == id && forall j :: 0 <= j < i ==> lcores[j].id != id)
            && ((forall j :: 0 <= j < |lcores| ==> lcores[j].id != id) && id != 0 ==> i == MaxLcores - 1)
            && ((forall j :: 0 <= j < |lcores| ==> lcores[j].id != id) && id == 0 && |lcores| < MaxLcores ==>
                  i == |lcores| && Padded(lcores)[i].ltype == Unused)
  {
    var t := Padded(lcores);
    var i := LcoreParams(lcores, id);
    if exists j :: 0 <= j < |lcores| && lcores[j].id == id {
      var j :| 0 <= j < |lcores| && lcores[j].id == id;
      assert t[j] == lcores[j];
      assert i <= j;
      assert t[i] == lcores[i];
    } else if id == 0 && |lcores| < MaxLcores {
      assert t[|lcores|].id == 0;
      assert forall j :: 0 <= j < |lcores| ==> t[j] == lcores[j];
    } else if id != 0 {
      assert forall j :: 0 <= j < MaxLcores ==> t[j].id != id by {
        forall j | 0 <= j < MaxLcores ensures t[j].id != id {
          if j < |lcores| { assert t[j] == lcores[j]; }
        }
      }
    }
  }
}
