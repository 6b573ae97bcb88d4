/**
 * The lcore binding shared by the two hardware-queue datapaths, oq_hwq and
 * voq_hwq. configure_lcore_params gives every switch port one worker lcore,
 * walking the workers round-robin and preferring the port's NUMA socket
 * until one full wrap finds none. configure_lcore_rx_queues (oq_hwq) and
 * configure_lcore_tx_queues (voq_hwq) then append each port, with queue 0,
 * to its lcore's queue list, which holds at most 16 entries.
 */
module HwqLcores {
  import opened Opt
  import LcoreAssign

  /**
   * A worker lcore as rte_get_next_lcore(i, skip_master = 1, wrap = 1)
   * enumerates them: its id and its NUMA socket. The model keeps the
   * enumeration as a sequence and names a worker by its position in it.
   */
  datatype Worker = Worker(id: nat, socket: nat)

  /** MAX_RX_QUEUE_PER_LCORE (oq_hwq) and MAX_TX_QUEUE_PER_LCORE (voq_hwq). */
  const MaxQueuesPerLcore: nat := 16

  /** rte_get_next_lcore on positions: the next worker, wrapping to the first. */
  function NextWorker(n: nat, i: nat): (j: nat)
    requires i < n
    ensures j < n
  {
    if i + 1 < n then i + 1 else 0
  }

  // ---------------------------------------------------------------------
  // configure_lcore_params

  /**
   * The position the search for port p steps from: distance 0 is the worker
   * after it. For port 0 that is the first worker; for a later port, the
   * worker after the previous port's.
   */
  function From(chosen: seq<nat>, p: nat, n: nat): nat
    requires 0 < n && p <= |chosen|
  {
    if p == 0 then n - 1 else chosen[p - 1]
  }

  /** prev_lcoreid when port p's search begins. */
  function Prev(chosen: seq<nat>, p: nat): nat
    requires p <= |chosen|
  {
    if p == 0 then 0 else chosen[p - 1]
  }

  /**
   * How many workers the socket test sees before the walk comes back to
   * prev_lcoreid: all n when the walk starts on it, n - 1 otherwise.
   */
  function Limit(n: nat, from: nat, prev: nat): (lim: nat)
    requires 0 < n
    ensures lim <= n
  {
    if LcoreAssign.Circ(n, from, 0) == prev then n else n - 1
  }

  /** The first distance d' in [d, lim) whose worker is on the socket. */
  function Seek(ws: seq<Worker>, from: nat, socket: nat, lim: nat, d: nat): (r: Option<nat>)
    requires 0 < |ws| && lim <= |ws|
    ensures r.Some? ==> && d <= r.value < lim
                        && ws[LcoreAssign.Circ(|ws|, from, r.value)].socket == socket
                        && forall d' :: d <= d' < r.value ==> ws[LcoreAssign.Circ(|ws|, from, d')].socket != socket
    ensures r.None? ==> forall d' :: d <= d' < lim ==> ws[LcoreAssign.Circ(|ws|, from, d')].socket != socket
    decreases lim - d
  {
    if d >= lim then None
    else if ws[LcoreAssign.Circ(|ws|, from, d)].socket == socket then Some(d)
    else Seek(ws, from, socket, lim, d + 1)
  }

  /**
   * Port p went to the first worker on its socket that the walk met before
   * coming back to prev_lcoreid.
   */
  predicate SameSocketPick(ws: seq<Worker>, chosen: seq<nat>, sockets: seq<nat>, p: nat)
    requires 0 < |ws| && p < |chosen| && p < |sockets|
  {
    var n := |ws|;
    var from := From(chosen, p, n);
    var s := Seek(ws, from, sockets[p], Limit(n, from, Prev(chosen, p)), 0);
    s.Some? && chosen[p] == LcoreAssign.Circ(n, from, s.value)
  }

  /** The walk came back to prev_lcoreid without a match: the socket test is dropped and port p goes to that worker. */
  predicate RelaxedPick(ws: seq<Worker>, chosen: seq<nat>, sockets: seq<nat>, p: nat)
    requires 0 < |ws| && p < |chosen| && p < |sockets|
  {
    var n := |ws|;
    var from := From(chosen, p, n);
    Seek(ws, from, sockets[p], Limit(n, from, Prev(chosen, p)), 0).None? && chosen[p] == Prev(chosen, p)
  }

  /**
   * configure_lcore_params: chosen[p] is the worker that serves port p.
   * While the socket test is on, each port goes to the first worker on its
   * socket in round-robin order from the previous port's worker; at the
   * port relaxedAt a full wrap finds none, and from then on the test stays
   * off and every port goes to the worker after the previous port's. The
   * source loops forever when there is no worker; the model requires one.
   */
  method ConfigureLcoreParams(ws: seq<Worker>, sockets: seq<nat>) returns (chosen: seq<nat>, ghost relaxedAt: nat)
    requires 0 < |ws|
    ensures |chosen| == |sockets| && forall p :: 0 <= p < |chosen| ==> chosen[p] < |ws|
    ensures relaxedAt <= |sockets|
    ensures forall p :: 0 <= p < relaxedAt ==> SameSocketPick(ws, chosen, sockets, p)
    ensures relaxedAt < |sockets| ==> RelaxedPick(ws, chosen, sockets, relaxedAt)
    ensures forall p :: relaxedAt < p < |sockets| ==> chosen[p] == NextWorker(|ws|, chosen[p - 1])
  {
    var n := |ws|;
    chosen := [];
    relaxedAt := |sockets|;
    var numaOk := true;
    var p := 0;
    while p < |sockets|
      invariant p <= |sockets| && |chosen| == p && forall q :: 0 <= q < p ==> chosen[q] < n
      invariant numaOk <==> relaxedAt == |sockets|
      invariant !numaOk ==> relaxedAt < p
      invariant forall q :: 0 <= q < p && q < relaxedAt ==> SameSocketPick(ws, chosen, sockets, q)
      invariant relaxedAt < p ==> RelaxedPick(ws, chosen, sockets, relaxedAt)
      invariant forall q :: relaxedAt < q < p ==> chosen[q] == NextWorker(n, chosen[q - 1])
    {
      var cur: nat;
      if numaOk {
        var relaxed;
        cur, relaxed := SeekLcore(ws, From(chosen, p, n), Prev(chosen, p), sockets[p]);
        if relaxed {
          numaOk := false;
          relaxedAt := p;
        }
      } else {
        cur := NextWorker(n, chosen[p - 1]);
      }
      PicksKept(ws, chosen, cur, sockets, p);
      chosen := chosen + [cur];
      p := p + 1;
    }
  }

  /** RTE_LCORE_FOREACH visits lcores in increasing id order. */
  predicate IdsIncreasing(enabled: seq<Worker>)
  {
    forall i, j :: 0 <= i < j < |enabled| ==> enabled[i].id < enabled[j].id
  }

  /** Whether l is one of the first k enabled lcores. */
  predicate EnabledUpTo(enabled: seq<Worker>, k: nat, l: nat)
  {
    exists i :: 0 <= i < k && i < |enabled| && enabled[i].id == l
  }

  /** What configure_lcore_params establishes, relaxedAt being the port at which the socket test was dropped. */
  ghost predicate Placed(ws: seq<Worker>, sockets: seq<nat>, chosen: seq<nat>, relaxedAt: nat)
    requires 0 < |ws|
  {
    && |chosen| == |sockets| && (forall p :: 0 <= p < |chosen| ==> chosen[p] < |ws|)
    && relaxedAt <= |sockets|
    && (forall p :: 0 <= p < relaxedAt ==> SameSocketPick(ws, chosen, sockets, p))
    && (relaxedAt < |sockets| ==> RelaxedPick(ws, chosen, sockets, relaxedAt))
    && (forall p :: relaxedAt < p < |sockets| ==> chosen[p] == NextWorker(|ws|, chosen[p - 1]))
  }

  /** lcore_params[p].lcore_id for every port p. */
  function Ids(ws: seq<Worker>, chosen: seq<nat>): (r: seq<nat>)
    requires forall p :: 0 <= p < |chosen| ==> chosen[p] < |ws|
    ensures |r| == |chosen| && forall p :: 0 <= p < |chosen| ==> r[p] == ws[chosen[p]].id
  {
    seq(|chosen|, p requires 0 <= p < |chosen| => ws[chosen[p]].id)
  }

  /** The enabled lcores other than the master, in id order: what rte_get_next_lcore walks with skip_master set. */
  function Workers(enabled: seq<Worker>, master: nat): (r: seq<Worker>)
    ensures forall w :: w in r <==> w in enabled && w.id != master
    ensures |r| <= |enabled|
  {
    if enabled == [] then []
    else
      var w := enabled[|enabled| - 1];
      Workers(enabled[..|enabled| - 1], master) + (if w.id != master then [w] else [])
  }

  /** Appending port p's pick leaves the earlier ports' picks as they were. */
  lemma PicksKept(ws: seq<Worker>, chosen: seq<nat>, cur: nat, sockets: seq<nat>, p: nat)
    requires 0 < |ws| && |chosen| == p < |sockets|
    ensures forall q :: 0 <= q < p ==> SameSocketPick(ws, chosen + [cur], sockets, q) == SameSocketPick(ws, chosen, sockets, q)
    ensures forall q :: 0 <= q < p ==> RelaxedPick(ws, chosen + [cur], sockets, q) == RelaxedPick(ws, chosen, sockets, q)
  {
    var c := chosen + [cur];
    forall q | 0 <= q < p ensures From(c, q, |ws|) == From(chosen, q, |ws|) && Prev(c, q) == Prev(chosen, q) && c[q] == chosen[q] {
    }
  }

  /**
   * The inner while loop of configure_lcore_params with the socket test on:
   * it starts at the worker after from and walks round-robin; it stops at
   * the first worker on the socket, or, on coming back to prev, drops the
   * test (relaxed) and stops there.
   */
  method SeekLcore(ws: seq<Worker>, from: nat, prev: nat, socket: nat) returns (cur: nat, relaxed: bool)
    requires 0 < |ws| && from < |ws| && prev < |ws|
    requires from == prev || (from == |ws| - 1 && prev == 0)
    ensures cur < |ws|
    ensures var s := Seek(ws, from, socket, Limit(|ws|, from, prev), 0);
            && (!relaxed ==> s.Some? && cur == LcoreAssign.Circ(|ws|, from, s.value))
            && (relaxed ==> s.None? && cur == prev)
  {
    var n := |ws|;
    ghost var lim := Limit(n, from, prev);
    cur := NextWorker(n, from);
    CircStep(n, from, 0);
    ghost var d: nat := 0;
    relaxed := false;
    while !relaxed && ws[cur].socket != socket
      invariant d <= lim && cur < n
      invariant !relaxed ==> d < lim && cur == LcoreAssign.Circ(n, from, d)
      invariant relaxed ==> d == lim && cur == prev
      invariant forall d' :: 0 <= d' < d ==> ws[LcoreAssign.Circ(n, from, d')].socket != socket
      decreases lim - d + (if relaxed then 0 else 1)
    {
      CircStep(n, from, d + 1);
      cur := NextWorker(n, cur);
      d := d + 1;
      CircBack(n, from, prev, d);
      if cur == prev {
        relaxed := true;
      }
    }
    SeekFrom(ws, from, socket, lim, d);
  }

  /** Seek over [0, lim) finds what the walk found. */
  lemma SeekFrom(ws: seq<Worker>, from: nat, socket: nat, lim: nat, d: nat)
    requires 0 < |ws| && d <= lim <= |ws|
    requires forall d' :: 0 <= d' < d ==> ws[LcoreAssign.Circ(|ws|, from, d')].socket != socket
    ensures d < lim && ws[LcoreAssign.Circ(|ws|, from, d)].socket == socket ==> Seek(ws, from, socket, lim, 0) == Some(d)
    ensures d == lim ==> Seek(ws, from, socket, lim, 0).None?
  {
    var s := Seek(ws, from, socket, lim, 0);
    if s.Some? {
      assert s.value >= d;
    }
  }

  /** x % n for 0 <= x <= 2n. */
  lemma ModUpToTwice(x: nat, n: nat)
    requires 0 < n && x <= 2 * n
    ensures x % n == if x < n then x else if x < 2 * n then x - n else 0
  {
    if x < n {
      LcoreAssign.ModBelow(x, n);
    } else if x < 2 * n {
      LcoreAssign.ModOnce(x, n);
    } else {
      assert x == n * 2;
    }
  }

  /** One step of rte_get_next_lcore moves the walk one distance further. */
  lemma CircStep(n: nat, from: nat, d: nat)
    requires from < n && d <= n
    ensures d > 0 ==> NextWorker(n, LcoreAssign.Circ(n, from, d - 1)) == LcoreAssign.Circ(n, from, d)
    ensures d == 0 ==> NextWorker(n, from) == LcoreAssign.Circ(n, from, 0)
  {
    ModUpToTwice(from + d + 1, n);
    if d > 0 {
      ModUpToTwice(from + d, n);
    }
  }

  /** Within the first lim steps, the walk is back at prev exactly at step lim. */
  lemma CircBack(n: nat, from: nat, prev: nat, d: nat)
    requires 0 < n && from < n && prev < n && 0 < d <= Limit(n, from, prev)
    requires from == prev || (from == n - 1 && prev == 0)
    ensures LcoreAssign.Circ(n, from, d) == prev <==> d == Limit(n, from, prev)
  {
    ModUpToTwice(from + 1, n);
    ModUpToTwice(from + d + 1, n);
  }

  /**
   * The socket test is only dropped when it had to be: at the relaxed port
   * no worker other than prev_lcoreid is on the port's socket. A port the
   * test still applied to is served on its own socket.
   */
  lemma {:induction false} PickSockets(ws: seq<Worker>, chosen: seq<nat>, sockets: seq<nat>, p: nat)
    requires 0 < |ws| && p < |chosen| && p < |sockets|
    requires forall q :: 0 <= q < |chosen| ==> chosen[q] < |ws|
    ensures SameSocketPick(ws, chosen, sockets, p) ==> ws[chosen[p]].socket == sockets[p]
    ensures RelaxedPick(ws, chosen, sockets, p) ==>
              forall i :: 0 <= i < |ws| && i != Prev(chosen, p) ==> ws[i].socket != sockets[p]
  {
    var n := |ws|;
    var from := From(chosen, p, n);
    var lim := Limit(n, from, Prev(chosen, p));
    if RelaxedPick(ws, chosen, sockets, p) {
      forall i | 0 <= i < n && i != Prev(chosen, p) ensures ws[i].socket != sockets[p] {
        var d := LcoreAssign.CircCovers(n, from, i);
        if d >= lim {
          assert lim == n - 1 && d == n - 1;
          CircBack(n, from, Prev(chosen, p), d);
        }
      }
    }
  }

  // ---------------------------------------------------------------------
  // configure_lcore_rx_queues / configure_lcore_tx_queues

  /** The ports among 0..k-1, in port order, whose parameter names lcore l; lcores[p] is port p's lcore. */
  function PortsUpTo(lcores: seq<nat>, k: nat, l: nat): (r: seq<nat>)
    requires k <= |lcores|
    ensures |r| <= k
  {
    if k == 0 then [] else if lcores[k - 1] == l then PortsUpTo(lcores, k - 1, l) + [k - 1] else PortsUpTo(lcores, k - 1, l)
  }

  /** The ports whose parameter names lcore l. */
  function PortsOf(lcores: seq<nat>, l: nat): (r: seq<nat>)
    ensures |r| <= |lcores|
  {
    PortsUpTo(lcores, |lcores|, l)
  }

  /** When port p's parameter comes, its lcore's list has room for it. */
  predicate Room(lcores: seq<nat>, p: nat)
    requires p < |lcores|
  {
    |PortsUpTo(lcores, p, lcores[p])| < MaxQueuesPerLcore
  }

  /** An lcore's queue list: empty until the first append (the static table starts zeroed). */
  function ListOf(lists: map<nat, seq<nat>>, l: nat): seq<nat>
  {
    if l in lists then lists[l] else []
  }

  /**
   * The queue-list loop: parameter p (port p, queue 0) is appended to the
   * list of lcores[p], and the call fails with -1 as soon as that list
   * already holds 16 entries, keeping what it appended before.
   */
  method AssignQueues(lcores: seq<nat>) returns (ok: bool, lists: map<nat, seq<nat>>)
    ensures ok <==> forall p :: 0 <= p < |lcores| ==> Room(lcores, p)
    ensures ok ==> ListsAre(lists, lcores, |lcores|)
    ensures !ok ==> exists p :: 0 <= p < |lcores| && |PortsUpTo(lcores, p, lcores[p])| == MaxQueuesPerLcore
                               && ListsAre(lists, lcores, p)
  {
    lists := map[];
    var p := 0;
    while p < |lcores|
      invariant p <= |lcores| && ListsAre(lists, lcores, p)
      invariant forall q :: 0 <= q < p ==> Room(lcores, q)
    {
      var l := lcores[p];
      if |ListOf(lists, l)| >= MaxQueuesPerLcore {
        ListsBounded(lcores, p, l);
        assert !Room(lcores, p);
        return false, lists;
      }
      ListsStep(lists, lcores, p);
      lists := AppendPort(lists, p, l);
      p := p + 1;
    }
    ok := true;
  }

  /**
   * configure_lcore_params followed by the queue-list loop: lcores[p] is
   * the id of the worker placed on port p, and the lists are built from
   * those ids.
   */
  method PlaceLcores(ws: seq<Worker>, sockets: seq<nat>)
    returns (ok: bool, chosen: seq<nat>, lcores: seq<nat>, lists: map<nat, seq<nat>>, ghost relaxedAt: nat)
    requires 0 < |ws|
    ensures Placed(ws, sockets, chosen, relaxedAt) && lcores == Ids(ws, chosen)
    ensures ok <==> forall p :: 0 <= p < |sockets| ==> Room(lcores, p)
    ensures ok ==> ListsAre(lists, lcores, |sockets|)
  {
    chosen, relaxedAt := ConfigureLcoreParams(ws, sockets);
    lcores := Ids(ws, chosen);
    ok, lists := AssignQueues(lcores);
  }

  /** Every lcore's list holds exactly its ports among 0..k-1. */
  ghost predicate ListsAre(lists: map<nat, seq<nat>>, lcores: seq<nat>, k: nat)
    requires k <= |lcores|
  {
    forall l :: ListOf(lists, l) == PortsUpTo(lcores, k, l)
  }

  lemma ListsStep(lists: map<nat, seq<nat>>, lcores: seq<nat>, p: nat)
    requires p < |lcores| && ListsAre(lists, lcores, p)
    ensures ListsAre(AppendPort(lists, p, lcores[p]), lcores, p + 1)
  {
    PortsUpToSnoc(lcores, p);
  }

  /** configure_lcore_*_queues' append: port p goes at the end of lcore l's list; no other list changes. */
  function AppendPort(lists: map<nat, seq<nat>>, p: nat, l: nat): (r: map<nat, seq<nat>>)
    ensures ListOf(r, l) == ListOf(lists, l) + [p]
    ensures forall l' :: l' != l ==> ListOf(r, l') == ListOf(lists, l')
  {
    lists[l := ListOf(lists, l) + [p]]
  }

  /** One more parameter adds its port to its own lcore's ports only. */
  lemma PortsUpToSnoc(lcores: seq<nat>, p: nat)
    requires p < |lcores|
    ensures PortsUpTo(lcores, p + 1, lcores[p]) == PortsUpTo(lcores, p, lcores[p]) + [p]
    ensures forall l :: l != lcores[p] ==> PortsUpTo(lcores, p + 1, l) == PortsUpTo(lcores, p, l)
  {
  }

  /** Before the loop fails, no list holds more than 16 entries. */
  lemma {:induction false} ListsBounded(lcores: seq<nat>, k: nat, l: nat)
    requires k <= |lcores|
    requires forall q :: 0 <= q < k ==> Room(lcores, q)
    ensures |PortsUpTo(lcores, k, l)| <= MaxQueuesPerLcore
  {
    if k > 0 {
      ListsBounded(lcores, k - 1, l);
      if lcores[k - 1] == l {
        assert Room(lcores, k - 1);
      }
    }
  }

  /** A shorter prefix never gives an lcore more ports. */
  lemma {:induction false} PortsUpToGrows(lcores: seq<nat>, j: nat, k: nat, l: nat)
    requires j <= k <= |lcores|
    ensures |PortsUpTo(lcores, j, l)| <= |PortsUpTo(lcores, k, l)|
    decreases k - j
  {
    if j < k {
      PortsUpToGrows(lcores, j, k - 1, l);
    }
  }

  /**
   * The queue lists succeed exactly when no lcore is given more than 16
   * ports.
   */
  lemma QueuesFit(lcores: seq<nat>)
    ensures (forall p :: 0 <= p < |lcores| ==> Room(lcores, p))
            <==> (forall l :: |PortsOf(lcores, l)| <= MaxQueuesPerLcore)
  {
    if forall p :: 0 <= p < |lcores| ==> Room(lcores, p) {
      forall l ensures |PortsOf(lcores, l)| <= MaxQueuesPerLcore {
        ListsBounded(lcores, |lcores|, l);
      }
    }
    if forall l :: |PortsOf(lcores, l)| <= MaxQueuesPerLcore {
      forall p | 0 <= p < |lcores| ensures Room(lcores, p) {
        assert |PortsOf(lcores, lcores[p])| <= MaxQueuesPerLcore;
        PortsUpToSnoc(lcores, p);
        PortsUpToGrows(lcores, p + 1, |lcores|, lcores[p]);
      }
    }
  }
}
