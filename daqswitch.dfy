/**
 * The switch's lifecycle and configuration state: the per-port
 * configuration with its guarded setters (daqswitch_port), the
 * initialized / configured / started gate (daqswitch) and the IPv4 flow
 * log (daqswitch_flow). The ethdev library is abstract: the outcome of each
 * call it would make is a parameter, and the calls themselves are recorded
 * in logs.
 */
module Daqswitch {
  import opened Opt
  import opened Bytes
  import opened VoqSwqDefs
  import opened Lpm
  import opened DefaultTables

  /** IPV4_MAX_FLOWS: the size of the flow log. */
  const Ipv4MaxFlows: nat := 1024

  /** The flow-director masks of a port (rte_fdir_masks, the fields the switch sets). */
  datatype FdirMasks = FdirMasks(onlyIpFlow: byte, dstIpv4Mask: u32, srcIpv4Mask: u32, dstPortMask: u16, srcPortMask: u16)

  const NoMasks := FdirMasks(0, 0, 0, 0, 0)

  datatype FdirMode = FdirModeNone | FdirModePerfect

  /** The flow-director part of the ethdev configuration. */
  datatype FdirConf = FdirConf(mode: FdirMode, reportStatus: bool, pballoc64k: bool)

  /** daqswitch_port_conf; hasPool says whether the port's mempool exists. */
  datatype PortConf = PortConf(nbRxq: u16, nbTxq: u16, nbRxd: u16, nbTxd: u16,
                               fdirConf: FdirConf, fdirMasks: FdirMasks, fdirEnabled: bool, hasPool: bool)

  /** The zero-initialised static table entry. */
  const ZeroPortConf := PortConf(0, 0, 0, 0, FdirConf(FdirModeNone, false, false), NoMasks, false, false)

  /** port_conf_default: one queue each way, 512 descriptors each way, no flow director, no mempool. */
  const DefaultPortConf := PortConf(1, 1, 512, 512, FdirConf(FdirModeNone, false, false), NoMasks, false, false)

  /** What daqswitch_port_set_fdir_forwarding writes: perfect mode, report status, 64K allocation and the masks. */
  function FdirForwarding(c: PortConf, m: FdirMasks): (r: PortConf)
    ensures r.fdirEnabled && r.fdirMasks == m && r.fdirConf == FdirConf(FdirModePerfect, true, true)
    ensures r.(fdirConf := c.fdirConf, fdirMasks := c.fdirMasks, fdirEnabled := c.fdirEnabled) == c
  {
    c.(fdirConf := FdirConf(FdirModePerfect, true, true), fdirMasks := m, fdirEnabled := true)
  }

  /** A datapath's per-port sizing, which its dp_init applies through the guarded setters. */
  datatype Sizing = Sizing(nbRxq: u16, nbRxd: u16, nbTxq: u16, nbTxd: u16, fdir: Option<FdirMasks>)

  /** A port's configuration once a sizing is applied. */
  function Sized(c: PortConf, s: Sizing): (r: PortConf)
    ensures r.nbRxq == s.nbRxq && r.nbRxd == s.nbRxd && r.nbTxq == s.nbTxq && r.nbTxd == s.nbTxd
    ensures r.hasPool == c.hasPool
    ensures s.fdir.Some? ==> r.fdirEnabled && r.fdirMasks == s.fdir.value && r.fdirConf.mode == FdirModePerfect
    ensures s.fdir.None? ==> r.fdirEnabled == c.fdirEnabled && r.fdirMasks == c.fdirMasks && r.fdirConf == c.fdirConf
  {
    var c1 := c.(nbRxq := s.nbRxq, nbRxd := s.nbRxd, nbTxq := s.nbTxq, nbTxd := s.nbTxd);
    if s.fdir.Some? then FdirForwarding(c1, s.fdir.value) else c1
  }

  /** A queue-setup call of the ethdev library. */
  datatype QueueSetup = TxSetup(port: nat, queue: nat, nbDesc: nat) | RxSetup(port: nat, queue: nat, nbDesc: nat)

  /** The tx queue setups of a port: queues 0..nb_txq-1 with nb_txd descriptors. */
  function TxSetups(p: nat, c: PortConf): (r: seq<QueueSetup>)
    ensures |r| == c.nbTxq && forall q :: 0 <= q < |r| ==> r[q] == TxSetup(p, q, c.nbTxd)
  {
    seq(c.nbTxq, q requires 0 <= q => TxSetup(p, q, c.nbTxd))
  }

  /** The rx queue setups of a port: queues 0..nb_rxq-1 with nb_rxd descriptors. */
  function RxSetups(p: nat, c: PortConf): (r: seq<QueueSetup>)
    ensures |r| == c.nbRxq && forall q :: 0 <= q < |r| ==> r[q] == RxSetup(p, q, c.nbRxd)
  {
    seq(c.nbRxq, q requires 0 <= q => RxSetup(p, q, c.nbRxd))
  }

  /**
   * Making the calls in order until one fails: the calls made (up to and
   * including the failing one) and whether all succeeded.
   */
  function TryAll(calls: seq<QueueSetup>, failing: set<QueueSetup>): (seq<QueueSetup>, bool)
  {
    if calls == [] then ([], true)
    else if calls[0] in failing then ([calls[0]], false)
    else
      var rest := TryAll(calls[1..], failing);
      ([calls[0]] + rest.0, rest.1)
  }

  /** The calls made are a prefix of the list; they succeed exactly when no call fails, and then all are made. */
  lemma {:induction false} TryAllSpec(calls: seq<QueueSetup>, failing: set<QueueSetup>)
    ensures var r := TryAll(calls, failing);
            && (r.1 <==> forall i :: 0 <= i < |calls| ==> calls[i] !in failing)
            && |r.0| <= |calls| && r.0 == calls[..|r.0|]
            && (r.1 ==> r.0 == calls)
  {
    if calls != [] && calls[0] !in failing {
      TryAllSpec(calls[1..], failing);
      assert forall i :: 1 <= i < |calls| ==> calls[i] == calls[1..][i - 1];
      var rest := TryAll(calls[1..], failing);
      assert [calls[0]] + calls[1..][..|rest.0|] == calls[..|rest.0| + 1];
    }
  }

  /** The setup loops run one after the other: the rx loop runs only when the tx loop succeeded. */
  lemma {:induction false} TryAllAppend(a: seq<QueueSetup>, b: seq<QueueSetup>, failing: set<QueueSetup>)
    ensures TryAll(a + b, failing) == if TryAll(a, failing).1 then (a + TryAll(b, failing).0, TryAll(b, failing).1) else TryAll(a, failing)
  {
    if a == [] {
      assert a + b == b;
      assert [] + TryAll(b, failing).0 == TryAll(b, failing).0;
    } else {
      assert (a + b)[0] == a[0];
      if a[0] !in failing {
        assert (a + b)[1..] == a[1..] + b;
        TryAllAppend(a[1..], b, failing);
        assert [a[0]] + a[1..] == a;
        assert [a[0]] + (a[1..] + TryAll(b, failing).0) == a + TryAll(b, failing).0;
      }
    }
  }

  /** The log after the tx loop and, when it succeeded, the rx loop is the log of the whole call list. */
  lemma {:induction false} TryAllThen(log0: seq<QueueSetup>, a: seq<QueueSetup>, b: seq<QueueSetup>, failing: set<QueueSetup>,
                   log1: seq<QueueSetup>, ok1: bool, log2: seq<QueueSetup>, ok2: bool)
    requires ok1 == TryAll(a, failing).1 && log1 == log0 + TryAll(a, failing).0
    requires ok1 ==> ok2 == TryAll(b, failing).1 && log2 == log1 + TryAll(b, failing).0
    requires !ok1 ==> !ok2 && log2 == log1
    ensures ok2 == TryAll(a + b, failing).1 && log2 == log0 + TryAll(a + b, failing).0
  {
    TryAllAppend(a, b, failing);
    TryAllSpec(a, failing);
    var ta, tb, tab := TryAll(a, failing), TryAll(b, failing), TryAll(a + b, failing);
    if ok1 {
      assert tab == (a + tb.0, tb.1);
      assert log0 + a + tb.0 == log0 + (a + tb.0);
    } else {
      assert tab == ta;
    }
  }

  /** The calls made stop right after the first failing one. */
  lemma {:induction false} TryAllFirstFailure(calls: seq<QueueSetup>, failing: set<QueueSetup>, i: nat)
    requires i < |calls| && calls[i] in failing && forall j :: 0 <= j < i ==> calls[j] !in failing
    ensures TryAll(calls, failing) == (calls[..i + 1], false)
  {
    if i > 0 {
      assert calls[0] !in failing;
      assert forall j :: 0 <= j < i - 1 ==> calls[1..][j] == calls[j + 1];
      assert calls[1..][i - 1] == calls[i];
      TryAllFirstFailure(calls[1..], failing, i - 1);
      assert [calls[0]] + calls[1..][..i] == calls[..i + 1];
    } else {
      assert calls[..1] == [calls[0]];
    }
  }

  /** How the ethdev library answers a port's configuration: mempool creation, device configure, failing queue setups. */
  datatype PortEnv = PortEnv(poolOk: bool, devConfigureOk: bool, failing: set<QueueSetup>)

  /** The result of configuring one port: its new configuration, the setups made and success. */
  datatype Outcome = Outcome(conf: PortConf, calls: seq<QueueSetup>, ok: bool)

  /**
   * daqswitch_port_configure: creates the mempool only when there is none,
   * configures the device, then sets up tx queues 0..nb_txq-1 and rx queues
   * 0..nb_rxq-1, stopping at the first failure.
   */
  function ConfigureOutcome(c: PortConf, p: nat, env: PortEnv): (o: Outcome)
    ensures o.conf == c.(hasPool := c.hasPool || env.poolOk)
    ensures !o.conf.hasPool || !env.devConfigureOk ==> !o.ok && o.calls == []
  {
    var c' := c.(hasPool := c.hasPool || env.poolOk);
    if !c'.hasPool || !env.devConfigureOk then Outcome(c', [], false)
    else
      var t := TryAll(TxSetups(p, c) + RxSetups(p, c), env.failing);
      Outcome(c', t.0, t.1)
  }

  /**
   * A port configures exactly when its mempool exists or is created, the
   * device configures and no queue setup fails; the setups made are a
   * prefix of the tx-then-rx list, all of it on success.
   */
  lemma ConfigureOutcomeSpec(c: PortConf, p: nat, env: PortEnv)
    ensures var calls := TxSetups(p, c) + RxSetups(p, c);
            var o := ConfigureOutcome(c, p, env);
            && (o.ok <==> (c.hasPool || env.poolOk) && env.devConfigureOk && forall i :: 0 <= i < |calls| ==> calls[i] !in env.failing)
            && |o.calls| <= |calls| && o.calls == calls[..|o.calls|]
            && (o.ok ==> o.calls == calls)
  {
    TryAllSpec(TxSetups(p, c) + RxSetups(p, c), env.failing);
  }

  /** How the ethdev library answers a port's start: device start, loading the fdir masks, flow control. */
  datatype StartEnv = StartEnv(devStartOk: bool, masksOk: bool, flowCtrlOk: bool)

  /**
   * daqswitch_port_start: the fdir masks are loaded, after the device
   * started, exactly when flow director is enabled for the port; returns
   * the mask loads made and success.
   */
  function StartOutcome(c: PortConf, p: nat, env: StartEnv): (r: (seq<(nat, FdirMasks)>, bool))
    ensures r.1 <==> env.devStartOk && (c.fdirEnabled ==> env.masksOk) && env.flowCtrlOk
    ensures r.0 == if env.devStartOk && c.fdirEnabled then [(p, c.fdirMasks)] else []
  {
    if !env.devStartOk then ([], false)
    else if c.fdirEnabled then ([(p, c.fdirMasks)], env.masksOk && env.flowCtrlOk)
    else ([], env.flowCtrlOk)
  }

  /** Configuring ports 0..k-1 in order, stopping at the first failure. */
  function ConfigurePorts(confs: seq<PortConf>, envs: seq<PortEnv>, k: nat): (r: (seq<PortConf>, seq<QueueSetup>, bool))
    requires k <= |confs| && k <= |envs|
    ensures |r.0| == |confs| && forall p :: k <= p < |confs| ==> r.0[p] == confs[p]
    ensures r.2 ==> forall p :: 0 <= p < k ==> r.0[p].hasPool
  {
    if k == 0 then (confs, [], true)
    else
      var prev := ConfigurePorts(confs, envs, k - 1);
      if !prev.2 then prev
      else
        var o := ConfigureOutcome(prev.0[k - 1], k - 1, envs[k - 1]);
        (prev.0[k - 1 := o.conf], prev.1 + o.calls, o.ok)
  }

  /** Configuring one more port, after all earlier ones succeeded; earlier ports never touch it. */
  lemma ConfigurePortsStep(confs: seq<PortConf>, envs: seq<PortEnv>, k: nat)
    requires k < |confs| && k < |envs| && ConfigurePorts(confs, envs, k).2
    ensures var prev := ConfigurePorts(confs, envs, k);
            var o := ConfigureOutcome(confs[k], k, envs[k]);
            prev.0[k] == confs[k] && ConfigurePorts(confs, envs, k + 1) == (prev.0[k := o.conf], prev.1 + o.calls, o.ok)
  {
  }

  /** Once a port failed, later ports are not touched. */
  lemma {:induction false} ConfigurePortsStopped(confs: seq<PortConf>, envs: seq<PortEnv>, k: nat, n: nat)
    requires k <= n <= |confs| && n <= |envs| && !ConfigurePorts(confs, envs, k).2
    ensures ConfigurePorts(confs, envs, n) == ConfigurePorts(confs, envs, k)
    decreases n - k
  {
    if n > k {
      ConfigurePortsStopped(confs, envs, k, n - 1);
    }
  }

  /** Starting ports 0..k-1 in order, stopping at the first failure. */
  function StartPorts(confs: seq<PortConf>, envs: seq<StartEnv>, k: nat): (r: (seq<(nat, FdirMasks)>, bool))
    requires k <= |confs| && k <= |envs|
  {
    if k == 0 then ([], true)
    else
      var prev := StartPorts(confs, envs, k - 1);
      if !prev.1 then prev
      else
        var o := StartOutcome(confs[k - 1], k - 1, envs[k - 1]);
        (prev.0 + o.0, o.1)
  }

  /** The start loop succeeds exactly when every port's start succeeds. */
  lemma {:induction false} StartPortsOk(confs: seq<PortConf>, envs: seq<StartEnv>, k: nat)
    requires k <= |confs| && k <= |envs|
    ensures StartPorts(confs, envs, k).1 <==> forall p :: 0 <= p < k ==> StartOutcome(confs[p], p, envs[p]).1
  {
    if k > 0 {
      StartPortsOk(confs, envs, k - 1);
      if !StartPorts(confs, envs, k - 1).1 {
        var p :| 0 <= p < k - 1 && !StartOutcome(confs[p], p, envs[p]).1;
      }
    }
  }

  /** Once a port failed to start, later ports are not started. */
  lemma {:induction false} StartPortsStopped(confs: seq<PortConf>, envs: seq<StartEnv>, k: nat, n: nat)
    requires k <= n <= |confs| && n <= |envs| && !StartPorts(confs, envs, k).1
    ensures StartPorts(confs, envs, n) == StartPorts(confs, envs, k)
    decreases n - k
  {
    if n > k {
      StartPortsStopped(confs, envs, k, n - 1);
    }
  }

  /** Masks are loaded only for ports whose flow director is enabled, and with that port's masks. */
  lemma {:induction false} StartPortsLoadsEnabled(confs: seq<PortConf>, envs: seq<StartEnv>, k: nat)
    requires k <= |confs| && k <= |envs|
    ensures forall i :: 0 <= i < |StartPorts(confs, envs, k).0| ==>
              var (p, m) := StartPorts(confs, envs, k).0[i];
              p < k && confs[p].fdirEnabled && m == confs[p].fdirMasks
  {
    if k > 0 {
      StartPortsLoadsEnabled(confs, envs, k - 1);
    }
  }

  /** A row of the IPv4 flow log. */
  datatype Ipv4Flow = Ipv4Flow(ip: u32, depth: byte, ifOut: byte)

  /** The per-port configuration table (port_conf) and the ethdev calls made on its behalf. */
  class Ports {
    var confs: seq<PortConf>
    var setups: seq<QueueSetup>
    var maskLoads: seq<(nat, FdirMasks)>

    predicate Valid()
      reads this
    {
      |confs| == MaxPorts
    }

    constructor ()
      ensures Valid() && confs == seq(MaxPorts, _ => ZeroPortConf) && setups == [] && maskLoads == []
    {
      confs := seq(MaxPorts, _ => ZeroPortConf);
      setups := [];
      maskLoads := [];
    }

    /** daqswitch_port_set_nb_rxq: refused once the switch is initialized. */
    method SetNbRxq(sw: Switch, p: nat, v: u16) returns (ok: bool)
      requires Valid() && (sw.initialized || p < sw.nbPorts <= MaxPorts)
      modifies this
      ensures Valid() && (ok <==> !sw.initialized)
      ensures confs == if ok then old(confs)[p := old(confs)[p].(nbRxq := v)] else old(confs)
      ensures setups == old(setups) && maskLoads == old(maskLoads)
    {
      if sw.initialized {
        return false;
      }
      confs := confs[p := confs[p].(nbRxq := v)];
      ok := true;
    }

    /** daqswitch_port_set_nb_txq: refused once the switch is initialized. */
    method SetNbTxq(sw: Switch, p: nat, v: u16) returns (ok: bool)
      requires Valid() && (sw.initialized || p < sw.nbPorts <= MaxPorts)
      modifies this
      ensures Valid() && (ok <==> !sw.initialized)
      ensures confs == if ok then old(confs)[p := old(confs)[p].(nbTxq := v)] else old(confs)
      ensures setups == old(setups) && maskLoads == old(maskLoads)
    {
      if sw.initialized {
        return false;
      }
      confs := confs[p := confs[p].(nbTxq := v)];
      ok := true;
    }

    /** daqswitch_port_set_nb_rxd: refused once the switch is initialized. */
    method SetNbRxd(sw: Switch, p: nat, v: u16) returns (ok: bool)
      requires Valid() && (sw.initialized || p < sw.nbPorts <= MaxPorts)
      modifies this
      ensures Valid() && (ok <==> !sw.initialized)
      ensures confs == if ok then old(confs)[p := old(confs)[p].(nbRxd := v)] else old(confs)
      ensures setups == old(setups) && maskLoads == old(maskLoads)
    {
      if sw.initialized {
        return false;
      }
      confs := confs[p := confs[p].(nbRxd := v)];
      ok := true;
    }

    /** daqswitch_port_set_nb_txd: refused once the switch is initialized. */
    method SetNbTxd(sw: Switch, p: nat, v: u16) returns (ok: bool)
      requires Valid() && (sw.initialized || p < sw.nbPorts <= MaxPorts)
      modifies this
      ensures Valid() && (ok <==> !sw.initialized)
      ensures confs == if ok then old(confs)[p := old(confs)[p].(nbTxd := v)] else old(confs)
      ensures setups == old(setups) && maskLoads == old(maskLoads)
    {
      if sw.initialized {
        return false;
      }
      confs := confs[p := confs[p].(nbTxd := v)];
      ok := true;
    }

    /** daqswitch_port_set_fdir_forwarding: refused once the switch is initialized; afterwards IsFdirEnabled holds. */
    method SetFdirForwarding(sw: Switch, p: nat, m: FdirMasks) returns (ok: bool)
      requires Valid() && (sw.initialized || p < sw.nbPorts <= MaxPorts)
      modifies this
      ensures Valid() && (ok <==> !sw.initialized)
      ensures confs == if ok then old(confs)[p := FdirForwarding(old(confs)[p], m)] else old(confs)
      ensures ok ==> IsFdirEnabled(p)
      ensures setups == old(setups) && maskLoads == old(maskLoads)
    {
      if sw.initialized {
        return false;
      }
      confs := confs[p := FdirForwarding(confs[p], m)];
      ok := true;
    }

    /** daqswitch_port_is_fdir_enabled. */
    predicate IsFdirEnabled(p: nat)
      requires Valid() && p < MaxPorts
      reads this
    {
      confs[p].fdirEnabled
    }

    /** daqswitch_port_init: the port's configuration becomes the default one. */
    method PortInit(sw: Switch, p: nat)
      requires Valid() && p < sw.nbPorts <= MaxPorts
      modifies this
      ensures Valid() && confs == old(confs)[p := DefaultPortConf]
      ensures setups == old(setups) && maskLoads == old(maskLoads)
    {
      confs := confs[p := DefaultPortConf];
    }

    /** daqswitch_port_configure, against ConfigureOutcome. */
    method PortConfigure(sw: Switch, p: nat, env: PortEnv) returns (ok: bool)
      requires Valid() && p < sw.nbPorts <= MaxPorts
      modifies this
      ensures Valid()
      ensures var o := ConfigureOutcome(old(confs)[p], p, env);
              ok == o.ok && confs == old(confs)[p := o.conf] && setups == old(setups) + o.calls
      ensures maskLoads == old(maskLoads)
    {
      var c := confs[p];
      if !c.hasPool {
        confs := confs[p := c.(hasPool := env.poolOk)];
        if !env.poolOk {
          return false;
        }
      }
      if !env.devConfigureOk {
        return false;
      }
      ok := SetupQueues(p, c, env.failing);
    }

    /** The tx queue loop, then (when it succeeded) the rx queue loop. */
    method SetupQueues(p: nat, c: PortConf, failing: set<QueueSetup>) returns (ok: bool)
      requires Valid()
      modifies this
      ensures Valid()
      ensures var t := TryAll(TxSetups(p, c) + RxSetups(p, c), failing); ok == t.1 && setups == old(setups) + t.0
      ensures confs == old(confs) && maskLoads == old(maskLoads)
    {
      var tx, rx := TxSetups(p, c), RxSetups(p, c);
      ok := RunSetups(tx, failing);
      if !ok {
        TryAllThen(old(setups), tx, rx, failing, setups, false, setups, false);
        return false;
      }
      ghost var mid := setups;
      ok := RunSetups(rx, failing);
      TryAllThen(old(setups), tx, rx, failing, mid, true, setups, ok);
    }

    /** One queue-setup loop: the calls are made in order until one fails. */
    method RunSetups(calls: seq<QueueSetup>, failing: set<QueueSetup>) returns (ok: bool)
      requires Valid()
      modifies this
      ensures Valid() && ok == TryAll(calls, failing).1 && setups == old(setups) + TryAll(calls, failing).0
      ensures confs == old(confs) && maskLoads == old(maskLoads)
    {
      var i := 0;
      while i < |calls|
        invariant i <= |calls| && Valid() && confs == old(confs) && maskLoads == old(maskLoads)
        invariant setups == old(setups) + calls[..i]
        invariant forall j :: 0 <= j < i ==> calls[j] !in failing
      {
        assert old(setups) + calls[..i + 1] == setups + [calls[i]];
        setups := setups + [calls[i]];
        if calls[i] in failing {
          TryAllFirstFailure(calls, failing, i);
          return false;
        }
        i := i + 1;
      }
      assert calls[..i] == calls;
      TryAllSpec(calls, failing);
      ok := true;
    }

    /** daqswitch_port_start, against StartOutcome; promiscuous mode is not modelled. */
    method PortStart(sw: Switch, p: nat, env: StartEnv) returns (ok: bool)
      requires Valid() && p < sw.nbPorts <= MaxPorts
      modifies this
      ensures Valid()
      ensures var r := StartOutcome(old(confs)[p], p, env); ok == r.1 && maskLoads == old(maskLoads) + r.0
      ensures confs == old(confs) && setups == old(setups)
    {
      if !env.devStartOk {
        return false;
      }
      if confs[p].fdirEnabled {
        maskLoads := maskLoads + [(p, confs[p].fdirMasks)];
        if !env.masksOk {
          return false;
        }
      }
      ok := env.flowCtrlOk;
    }
  }

  /** The switch (struct daqswitch) with its port table and the default pipeline's route table. */
  class Switch {
    var initialized: bool
    var configured: bool
    var started: bool
    var nbPorts: nat
    var nbLcores: nat
    var dpThreadSet: bool
    var flowHookSet: bool
    var flows: seq<Ipv4Flow>
    const ports: Ports
    const table: LpmTable

    /** The stages are passed in order, the datapath thread is set by the time the switch is initialized, and the flow log fits. */
    predicate Valid()
      reads this, ports, table
    {
      && ports.Valid() && table.Valid() && nbPorts <= MaxPorts
      && (configured ==> initialized) && (started ==> configured) && (initialized ==> dpThreadSet)
      && |flows| <= Ipv4MaxFlows
    }

    /** The static struct: nothing initialized, configured or started. */
    constructor (ps: Ports, t: LpmTable)
      requires ps.Valid() && t.Valid()
      ensures Valid() && ports == ps && table == t
      ensures !initialized && !configured && !started && nbPorts == 0 && !dpThreadSet && !flowHookSet && flows == []
    {
      ports := ps;
      table := t;
      initialized, configured, started := false, false, false;
      nbPorts, nbLcores := 0, 0;
      dpThreadSet, flowHookSet := false, false;
      flows := [];
    }

    /**
     * daqswitch_init: refused when already initialized. Otherwise it caps
     * the port count at RTE_MAX_ETHPORTS, resets every port to the default
     * configuration and runs the datapath's dp_init: its lcore set-up (whose
     * outcome is lcoresOk) and then its port sizing, whose setters all
     * succeed because the flag is still down. Only then is the switch
     * initialized.
     */
    method Init(devCount: nat, lcoreCount: nat, lcoresOk: bool, sizing: Sizing) returns (ok: bool)
      requires Valid()
      modifies this, ports
      ensures Valid()
      ensures old(initialized) ==> !ok && unchanged(this) && unchanged(ports)
      ensures !old(initialized) ==>
                && (ok <==> lcoresOk) && initialized == ok && !configured && !started
                && nbPorts == (if devCount < MaxPorts then devCount else MaxPorts) && nbLcores == lcoreCount
                && (forall p :: 0 <= p < MaxPorts ==>
                      ports.confs[p] == if p >= nbPorts then old(ports.confs)[p]
                                        else if ok then Sized(DefaultPortConf, sizing) else DefaultPortConf)
                && ports.setups == old(ports.setups) && ports.maskLoads == old(ports.maskLoads)
                && dpThreadSet == (ok || old(dpThreadSet)) && flows == old(flows) && flowHookSet == old(flowHookSet)
    {
      if initialized {
        return false;
      }
      nbPorts := if devCount < MaxPorts then devCount else MaxPorts;
      nbLcores := lcoreCount;
      ResetPorts();
      if !lcoresOk {
        return false;
      }
      ApplySizing(sizing);
      dpThreadSet := true;
      initialized := true;
      ok := true;
    }

    /** The port_init loop of daqswitch_init. */
    method ResetPorts()
      requires ports.Valid() && nbPorts <= MaxPorts
      modifies ports
      ensures ports.Valid()
      ensures forall p :: 0 <= p < MaxPorts ==> ports.confs[p] == if p < nbPorts then DefaultPortConf else old(ports.confs)[p]
      ensures ports.setups == old(ports.setups) && ports.maskLoads == old(ports.maskLoads)
    {
      var p := 0;
      while p < nbPorts
        invariant p <= nbPorts && ports.Valid()
        invariant forall q :: 0 <= q < MaxPorts ==> ports.confs[q] == if q < p then DefaultPortConf else old(ports.confs)[q]
        invariant ports.setups == old(ports.setups) && ports.maskLoads == old(ports.maskLoads)
      {
        ports.PortInit(this, p);
        p := p + 1;
      }
    }

    /** The port loop of dp_init: every setter is called before the switch is initialized, so none fails. */
    method ApplySizing(s: Sizing)
      requires ports.Valid() && !initialized && nbPorts <= MaxPorts
      modifies ports
      ensures ports.Valid()
      ensures forall p :: 0 <= p < MaxPorts ==> ports.confs[p] == if p < nbPorts then Sized(old(ports.confs)[p], s) else old(ports.confs)[p]
      ensures ports.setups == old(ports.setups) && ports.maskLoads == old(ports.maskLoads)
    {
      var p := 0;
      while p < nbPorts
        invariant p <= nbPorts && ports.Valid()
        invariant forall q :: 0 <= q < MaxPorts ==> ports.confs[q] == if q < p then Sized(old(ports.confs)[q], s) else old(ports.confs)[q]
        invariant ports.setups == old(ports.setups) && ports.maskLoads == old(ports.maskLoads)
      {
        SizePort(p, s);
        p := p + 1;
      }
    }

    /** The setter calls for one port. */
    method SizePort(p: nat, s: Sizing)
      requires ports.Valid() && !initialized && p < nbPorts <= MaxPorts
      modifies ports
      ensures ports.Valid() && ports.confs == old(ports.confs)[p := Sized(old(ports.confs)[p], s)]
      ensures ports.setups == old(ports.setups) && ports.maskLoads == old(ports.maskLoads)
    {
      var ok := ports.SetNbRxq(this, p, s.nbRxq);
      assert ok;
      ok := ports.SetNbRxd(this, p, s.nbRxd);
      assert ok;
      ok := ports.SetNbTxq(this, p, s.nbTxq);
      assert ok;
      ok := ports.SetNbTxd(this, p, s.nbTxd);
      assert ok;
      if s.fdir.Some? {
        ok := ports.SetFdirForwarding(this, p, s.fdir.value);
        assert ok;
      }
    }

    /**
     * daqswitch_configure: refused when already configured or not yet
     * initialized; otherwise it configures every port in order (the
     * datapath's dp_configure always reports success) and sets configured
     * only when all of them succeeded.
     */
    method Configure(envs: seq<PortEnv>) returns (ok: bool)
      requires Valid() && |envs| == nbPorts
      modifies this, ports
      ensures Valid()
      ensures old(configured) || !old(initialized) ==> !ok && unchanged(this) && unchanged(ports)
      ensures !old(configured) && old(initialized) ==>
                var r := ConfigurePorts(old(ports.confs), envs, old(nbPorts));
                && ok == r.2 && configured == ok
                && ports.confs == r.0 && ports.setups == old(ports.setups) + r.1
      ensures ports.maskLoads == old(ports.maskLoads)
      ensures initialized == old(initialized) && started == old(started) && nbPorts == old(nbPorts)
      ensures flows == old(flows) && dpThreadSet == old(dpThreadSet) && flowHookSet == old(flowHookSet)
    {
      if configured || !initialized {
        return false;
      }
      ok := ConfigureAllPorts(envs);
      configured := ok;
    }

    /** The port_configure loop of daqswitch_configure, stopping at the first failing port. */
    method ConfigureAllPorts(envs: seq<PortEnv>) returns (ok: bool)
      requires ports.Valid() && nbPorts <= MaxPorts && |envs| == nbPorts
      modifies ports
      ensures ports.Valid()
      ensures var r := ConfigurePorts(old(ports.confs), envs, nbPorts);
              ok == r.2 && ports.confs == r.0 && ports.setups == old(ports.setups) + r.1
      ensures ports.maskLoads == old(ports.maskLoads)
    {
      var p := 0;
      while p < nbPorts
        invariant p <= nbPorts && ports.Valid()
        invariant var r := ConfigurePorts(old(ports.confs), envs, p);
                  r.2 && ports.confs == r.0 && ports.setups == old(ports.setups) + r.1
        invariant ports.maskLoads == old(ports.maskLoads)
      {
        ok := ConfigureNext(old(ports.confs), old(ports.setups), envs, p);
        if !ok {
          ConfigurePortsStopped(old(ports.confs), envs, p + 1, nbPorts);
          return false;
        }
        p := p + 1;
      }
      ok := true;
    }

    /** One round of the port_configure loop: port p, all earlier ports having succeeded. */
    method ConfigureNext(ghost confs0: seq<PortConf>, ghost setups0: seq<QueueSetup>, envs: seq<PortEnv>, p: nat) returns (ok: bool)
      requires ports.Valid() && p < nbPorts <= MaxPorts && |envs| == nbPorts && |confs0| == MaxPorts
      requires var r := ConfigurePorts(confs0, envs, p); r.2 && ports.confs == r.0 && ports.setups == setups0 + r.1
      modifies ports
      ensures ports.Valid() && ports.maskLoads == old(ports.maskLoads)
      ensures var r := ConfigurePorts(confs0, envs, p + 1); ok == r.2 && ports.confs == r.0 && ports.setups == setups0 + r.1
    {
      ConfigurePortsStep(confs0, envs, p);
      ghost var prev := ConfigurePorts(confs0, envs, p);
      ok := ports.PortConfigure(this, p, envs[p]);
      ghost var o := ConfigureOutcome(confs0[p], p, envs[p]);
      assert ports.setups == setups0 + (prev.1 + o.calls);
    }

    /**
     * daqswitch_start: refused when already started or not configured;
     * otherwise it starts every port in order, then (the datapath thread
     * being set) marks the switch started and only then installs the
     * default forwarding table.
     */
    method Start(envs: seq<StartEnv>) returns (ok: bool)
      requires Valid() && |envs| == nbPorts
      modifies this, ports, table
      ensures Valid()
      ensures old(started) || !old(configured) ==> !ok && unchanged(this) && unchanged(ports) && unchanged(table)
      ensures !old(started) && old(configured) ==>
                var r := StartPorts(old(ports.confs), envs, old(nbPorts));
                && ok == r.1 && started == ok && ports.maskLoads == old(ports.maskLoads) + r.0
                && table.routes == if ok then DefaultTable(old(table.routes), table.capacity) else old(table.routes)
      ensures ports.confs == old(ports.confs) && ports.setups == old(ports.setups)
      ensures initialized == old(initialized) && configured == old(configured) && nbPorts == old(nbPorts)
      ensures flows == old(flows) && dpThreadSet == old(dpThreadSet) && flowHookSet == old(flowHookSet)
    {
      if started || !configured {
        return false;
      }
      ok := StartConfigured(envs);
    }

    /** daqswitch_start past its state check: start the ports, raise the flag, install the default routes. */
    method StartConfigured(envs: seq<StartEnv>) returns (ok: bool)
      requires Valid() && |envs| == nbPorts && !started && configured
      modifies this, ports, table
      ensures Valid()
      ensures var r := StartPorts(old(ports.confs), envs, old(nbPorts));
              && ok == r.1 && started == ok && ports.maskLoads == old(ports.maskLoads) + r.0
      ensures ok ==> table.routes == DefaultTable(old(table.routes), table.capacity)
      ensures !ok ==> table.routes == old(table.routes)
      ensures ports.confs == old(ports.confs) && ports.setups == old(ports.setups)
      ensures initialized == old(initialized) && configured == old(configured) && nbPorts == old(nbPorts)
      ensures flows == old(flows) && dpThreadSet == old(dpThreadSet) && flowHookSet == old(flowHookSet)
    {
      ok := StartAllPorts(envs);
      if !ok {
        return false;
      }
      started := true;
      InstallDefaults();
      assert Valid();
    }

    /** dp_install_default_tables, run once the switch is started. */
    method InstallDefaults()
      requires table.Valid()
      modifies table
      ensures table.Valid() && table.routes == DefaultTable(old(table.routes), table.capacity)
    {
      var _ := InstallDefaultTables(table);
    }

    /** The port_start loop of daqswitch_start, stopping at the first failing port. */
    method StartAllPorts(envs: seq<StartEnv>) returns (ok: bool)
      requires ports.Valid() && nbPorts <= MaxPorts && |envs| == nbPorts
      modifies ports
      ensures ports.Valid()
      ensures var r := StartPorts(old(ports.confs), envs, nbPorts); ok == r.1 && ports.maskLoads == old(ports.maskLoads) + r.0
      ensures ports.confs == old(ports.confs) && ports.setups == old(ports.setups)
    {
      var p := 0;
      while p < nbPorts
        invariant p <= nbPorts && ports.Valid()
        invariant var r := StartPorts(old(ports.confs), envs, p);
                  r.1 && ports.maskLoads == old(ports.maskLoads) + r.0
        invariant ports.confs == old(ports.confs) && ports.setups == old(ports.setups)
      {
        ghost var prev := StartPorts(old(ports.confs), envs, p);
        ghost var o := StartOutcome(old(ports.confs)[p], p, envs[p]);
        assert StartPorts(old(ports.confs), envs, p + 1) == (prev.0 + o.0, o.1);
        ok := ports.PortStart(this, p, envs[p]);
        assert ports.maskLoads == old(ports.maskLoads) + (prev.0 + o.0);
        if !ok {
          StartPortsStopped(old(ports.confs), envs, p + 1, nbPorts);
          return false;
        }
        p := p + 1;
      }
      ok := true;
    }

    /** daqswitch_set_dp_ipv4_flow_add: a datapath registers (or clears) its flow hook. */
    method SetFlowHook(on: bool)
      requires Valid()
      modifies this
      ensures Valid() && flowHookSet == on
      ensures initialized == old(initialized) && configured == old(configured) && started == old(started)
      ensures nbPorts == old(nbPorts) && flows == old(flows) && dpThreadSet == old(dpThreadSet)
    {
      flowHookSet := on;
    }

    /**
     * daqswitch_ipv4_flow_add: refused (-1) unless the switch is started;
     * otherwise the row is appended at index ipv4_nb_flows before the
     * datapath hook runs, so it stays even when the hook fails. The result
     * is the hook's (hookResult) when one is set, else 0. The append has no
     * capacity check, hence the precondition.
     */
    method FlowAdd(ip: u32, depth: byte, ifOut: byte, hookResult: int) returns (r: int)
      requires Valid() && (started ==> |flows| < Ipv4MaxFlows)
      modifies this
      ensures Valid()
      ensures !started ==> r == -1 && flows == old(flows)
      ensures started ==> flows == old(flows) + [Ipv4Flow(ip, depth, ifOut)] && r == (if flowHookSet then hookResult else 0)
      ensures initialized == old(initialized) && configured == old(configured) && started == old(started)
      ensures nbPorts == old(nbPorts) && dpThreadSet == old(dpThreadSet) && flowHookSet == old(flowHookSet)
    {
      if !started {
        return -1;
      }
      flows := flows + [Ipv4Flow(ip, depth, ifOut)];
      r := DpFlowAdd(hookResult);
    }

    /** dp_ipv4_flow_add: the hook runs only when the switch is started and a hook is set; otherwise 0. */
    function DpFlowAdd(hookResult: int): (r: int)
      reads this
      ensures !(started && flowHookSet) ==> r == 0
      ensures started && flowHookSet ==> r == hookResult
    {
      if started && flowHookSet then hookResult else 0
    }
  }
}
