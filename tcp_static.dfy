/**
 * The "static" TCP congestion-control module: every callback that writes
 * the socket pins the send congestion window to the module parameter
 * static_cwnd and the slow-start threshold to 0, whatever the acks, the
 * data in flight or the new state.
 */
module TcpStatic {
  import opened Bytes

  /** TCPSTATIC_DEFAULT_CWND, the initial value of the static_cwnd parameter. */
  const DefaultCwnd: int := 1
  /** TCPSTATIC_SSHTRESH. */
  const StaticSsthresh: u32 := 0

  /** The range of a C int, the type of the static_cwnd module parameter. */
  predicate IsCInt(x: int)
  {
    -0x8000_0000 <= x < 0x8000_0000
  }

  /**
   * The value a u32 socket field holds after the int parameter is stored
   * in it: the parameter modulo 2^32, so a negative parameter wraps.
   */
  function CwndOf(staticCwnd: int): (w: u32)
    requires IsCInt(staticCwnd)
    ensures 0 <= staticCwnd ==> w == staticCwnd
    ensures staticCwnd < 0 ==> w == staticCwnd + 0x1_0000_0000 && w >= 0x8000_0000
  {
    staticCwnd % 0x1_0000_0000
  }

  /** The two fields of tcp_sock the callbacks write. */
  datatype TcpState = TcpState(sndCwnd: u32, sndSsthresh: u32)

  /** The callbacks of the tcp_congestion_ops table, with their arguments. */
  datatype Callback =
    | Init
    | CongAvoid(ack: u32, inFlight: u32)
    | SetState(newState: byte)
    | Ssthresh
    | MinCwnd
    | UndoCwnd

  /** The callbacks that write the socket. */
  predicate Writes(cb: Callback)
  {
    cb.Init? || cb.CongAvoid? || cb.SetState?
  }

  /**
   * The effect of one callback on the socket fields: init writes only the
   * window; cong_avoid and set_state write both fields; the three others
   * only return a value.
   */
  function Step(s: TcpState, cb: Callback, staticCwnd: int): (t: TcpState)
    requires IsCInt(staticCwnd)
    ensures Writes(cb) ==> t.sndCwnd == CwndOf(staticCwnd)
    ensures !Writes(cb) ==> t == s
    ensures (cb.CongAvoid? || cb.SetState?) ==> t.sndSsthresh == StaticSsthresh
    ensures !(cb.CongAvoid? || cb.SetState?) ==> t.sndSsthresh == s.sndSsthresh
  {
    match cb
    case Init => s.(sndCwnd := CwndOf(staticCwnd))
    case CongAvoid(_, _) => TcpState(CwndOf(staticCwnd), StaticSsthresh)
    case SetState(_) => TcpState(CwndOf(staticCwnd), StaticSsthresh)
    case _ => s
  }

  /** The socket after a sequence of callbacks, under a fixed parameter value. */
  function Run(s: TcpState, trace: seq<Callback>, staticCwnd: int): TcpState
    requires IsCInt(staticCwnd)
    decreases |trace|
  {
    if trace == [] then s else Run(Step(s, trace[0], staticCwnd), trace[1..], staticCwnd)
  }

  /** What the ssthresh callback returns. */
  function SsthreshValue(): (r: u32)
    ensures r == 0
  {
    StaticSsthresh
  }

  /** What min_cwnd and undo_cwnd return. */
  function ReportedCwnd(staticCwnd: int): u32
    requires IsCInt(staticCwnd)
  {
    CwndOf(staticCwnd)
  }

  /** A pinned window stays pinned whatever callbacks follow. */
  lemma {:induction false} RunKeepsPinned(s: TcpState, trace: seq<Callback>, staticCwnd: int)
    requires IsCInt(staticCwnd) && s.sndCwnd == CwndOf(staticCwnd)
    ensures Run(s, trace, staticCwnd).sndCwnd == CwndOf(staticCwnd)
    decreases |trace|
  {
    if trace != [] {
      RunKeepsPinned(Step(s, trace[0], staticCwnd), trace[1..], staticCwnd);
    }
  }

  /**
   * Once init has run, snd_cwnd equals static_cwnd after every later
   * callback, and so agrees with what min_cwnd and undo_cwnd report.
   */
  lemma {:induction false} PinnedAfterInit(s: TcpState, trace: seq<Callback>, staticCwnd: int)
    requires IsCInt(staticCwnd) && trace != [] && trace[0] == Init
    ensures Run(s, trace, staticCwnd).sndCwnd == CwndOf(staticCwnd) == ReportedCwnd(staticCwnd)
  {
    RunKeepsPinned(Step(s, Init, staticCwnd), trace[1..], staticCwnd);
  }

  /** A zero threshold stays zero whatever callbacks follow. */
  lemma {:induction false} RunKeepsThreshold(s: TcpState, trace: seq<Callback>, staticCwnd: int)
    requires IsCInt(staticCwnd) && s.sndSsthresh == StaticSsthresh
    ensures Run(s, trace, staticCwnd).sndSsthresh == StaticSsthresh
    decreases |trace|
  {
    if trace != [] {
      RunKeepsThreshold(Step(s, trace[0], staticCwnd), trace[1..], staticCwnd);
    }
  }

  /**
   * After any cong_avoid or set_state callback the threshold is 0 from then
   * on, the value the ssthresh callback reports.
   */
  lemma {:induction false} ThresholdZeroAfterWrite(s: TcpState, trace: seq<Callback>, staticCwnd: int, k: nat)
    requires IsCInt(staticCwnd) && k < |trace| && (trace[k].CongAvoid? || trace[k].SetState?)
    ensures Run(s, trace, staticCwnd).sndSsthresh == SsthreshValue()
    decreases k
  {
    if k == 0 {
      RunKeepsThreshold(Step(s, trace[0], staticCwnd), trace[1..], staticCwnd);
    } else {
      ThresholdZeroAfterWrite(Step(s, trace[0], staticCwnd), trace[1..], staticCwnd, k - 1);
    }
  }

  /** A socket's congestion-control fields. */
  class Sock {
    var sndCwnd: u32
    var sndSsthresh: u32

    constructor (cwnd: u32, ssthresh: u32)
      ensures sndCwnd == cwnd && sndSsthresh == ssthresh
    {
      sndCwnd := cwnd;
      sndSsthresh := ssthresh;
    }

    function State(): TcpState
      reads this
    {
      TcpState(sndCwnd, sndSsthresh)
    }

    /** tcp_static_init. */
    method Init(staticCwnd: int)
      requires IsCInt(staticCwnd)
      modifies this
      ensures State() == Step(old(State()), Callback.Init, staticCwnd)
      ensures sndCwnd == CwndOf(staticCwnd) && sndSsthresh == old(sndSsthresh)
    {
      sndCwnd := CwndOf(staticCwnd);
    }

    /** tcp_static_cong_avoid: the ack and the data in flight are ignored. */
    method CongAvoid(staticCwnd: int, ack: u32, inFlight: u32)
      requires IsCInt(staticCwnd)
      modifies this
      ensures State() == Step(old(State()), Callback.CongAvoid(ack, inFlight), staticCwnd)
      ensures sndCwnd == CwndOf(staticCwnd) && sndSsthresh == StaticSsthresh
    {
      sndCwnd := CwndOf(staticCwnd);
      sndSsthresh := StaticSsthresh;
    }

    /** tcp_static_state: every new state takes the default branch. */
    method SetState(staticCwnd: int, newState: byte)
      requires IsCInt(staticCwnd)
      modifies this
      ensures State() == Step(old(State()), Callback.SetState(newState), staticCwnd)
      ensures sndCwnd == CwndOf(staticCwnd) && sndSsthresh == StaticSsthresh
    {
      sndCwnd := CwndOf(staticCwnd);
      sndSsthresh := StaticSsthresh;
    }
  }
}
