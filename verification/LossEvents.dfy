/** Which events a connection reports to its congestion control: every timer resend as a
    timeout, every ACK of new data with the bytes it acknowledges, every duplicate ACK, and
    nothing else; so the laws of Congestion hold of every connection
    (tcp/transport/statemachine.go:238-265, 766-811). */
module LossEvents {
  import opened SeqNum
  import opened Reassembly
  import opened Segments
  import opened Congestion
  import opened Tcb
  import opened StateMachine
  import opened Frames
  import opened SenderSteps
  import opened FlowControl
  import opened Runs
  import opened Retries
  import opened Nagle
  import opened PeerWindow
  import opened Recovery
  import Lifecycle

  /** What one step reports, at most one event. */
  function EventsOf(t: Tcb, i: Input, env: Env): (es: seq<CcEvent>)
    ensures |es| <= 1
  {
    if i == TimerTick then if RetransmitDue(t, env) then [Timeout(InFlight(t.snd))] else []
    else if !Accepted(t, i) then []
    else if AcceptableAck(t.snd.una, i.s.ackNum, t.snd.nxt) then [NewAck(Sub(i.s.ackNum, t.snd.una))]
    else if Duplicate(t, i.s) && InFlight(t.snd) > 0 then [DupAck(InFlight(t.snd))]
    else []
  }

  function Events(ts: seq<Tcb>, inputs: seq<Input>, envs: seq<Env>, n: nat): seq<CcEvent>
    requires |ts| == |inputs| + 1 && |envs| == |inputs| && n <= |inputs|
  {
    if n == 0 then [] else Events(ts, inputs, envs, n - 1) + EventsOf(ts[n - 1], inputs[n - 1], envs[n - 1])
  }

  /** The congestion state after at most one event. */
  function Heard(c: Cc, es: seq<CcEvent>): Cc
    requires |es| <= 1
  {
    if es == [] then c else Apply(c, es[0])
  }

  lemma {:induction false} NoteAckReports(t: Tcb, s: Segment, env: Env)
    ensures NoteAck(t, s, env).snd.cong ==
      if AcceptableAck(t.snd.una, s.ackNum, t.snd.nxt) then OnNewAck(t.snd.cong, Sub(s.ackNum, t.snd.una))
      else if Duplicate(t, s) && InFlight(t.snd) > 0 then OnDupAck(t.snd.cong, InFlight(t.snd))
      else t.snd.cong
  {
  }

  lemma {:induction false} AckReports(t: Tcb, s: Segment, env: Env)
    requires t.snd.wnd <= MAX_SND_WINDOW && InFlight(t.snd) < HALF
    ensures HandleAck(t, s, env).snd.cong == NoteAck(t, s, env).snd.cong
    ensures HandleAck(t, s, env).snd.cong ==
      if AcceptableAck(t.snd.una, s.ackNum, t.snd.nxt) then OnNewAck(t.snd.cong, Sub(s.ackNum, t.snd.una))
      else if Duplicate(t, s) && InFlight(t.snd) > 0 then OnDupAck(t.snd.cong, InFlight(t.snd))
      else t.snd.cong
  {
    NoteAckReports(t, s, env);
    AckShrinks(t, s, env);
    AdvanceWire(NoteAck(t, s, env), s, env);
    var segs := FlushOutcome(AdvanceOnAck(UpdateSendWindow(NoteAck(t, s, env), s), env), env);
  }

  lemma {:induction false} TakenReports(t: Tcb, s: Segment, env: Env)
    requires Lifecycle.TakesAck(t, s) && t.snd.wnd <= MAX_SND_WINDOW && InFlight(t.snd) < HALF
    ensures OnSynchronized(t, s, env).snd.cong ==
      if AcceptableAck(t.snd.una, s.ackNum, t.snd.nxt) then OnNewAck(t.snd.cong, Sub(s.ackNum, t.snd.una))
      else if Duplicate(t, s) && InFlight(t.snd) > 0 then OnDupAck(t.snd.cong, InFlight(t.snd))
      else t.snd.cong
  {
    var t1 := UpdateTsRecent(t, s);
    TimestampQueue(t, s);
    TimestampWire(t, s);
    TakenIs(t, s, env);
    AckReports(t1, s, env);
    TextFinOpens(HandleAck(t1, s, env), s, env);
  }

  lemma {:induction false} ArrivalReports(t: Tcb, s: Segment, env: Env)
    requires Accepted(t, Arrive(s)) && FlowOk(t) && FlightOk(t)
    ensures OnSegment(t, s, env).snd.cong == Heard(t.snd.cong, EventsOf(t, Arrive(s), env))
  {
    TakenReports(t, s, env);
  }

  lemma {:induction false} OpeningReports(t: Tcb, s: Segment, env: Env)
    requires t.state == Closed || t.state == Listen || t.state == SynSent
    ensures OnSegment(t, s, env).snd.cong == t.snd.cong
  {
  }

  lemma {:induction false} SegmentReports(t: Tcb, s: Segment, env: Env)
    requires FlowOk(t) && FlightOk(t) && t.rcv.wnd <= Reassembly.MAX_WINDOW
    ensures OnSegment(t, s, env).snd.cong == Heard(t.snd.cong, EventsOf(t, Arrive(s), env))
  {
    if t.state == Closed || t.state == Listen || t.state == SynSent { OpeningReports(t, s, env); }
    else if Accepted(t, Arrive(s)) { ArrivalReports(t, s, env); }
    else if s.flags.rst { Lifecycle.RstState(t, s, env); }
    else { Lifecycle.OtherwiseQuiet(t, s, env); }
  }

  lemma {:induction false} TickReports(t: Tcb, env: Env)
    ensures Tick(t, env).snd.cong == Heard(t.snd.cong, EventsOf(t, TimerTick, env))
  {
    var t1 := CheckTimeWait(t, env);
    ExpiryFrame(t, env);
    RetransmitReports(t1, env);
    var t2 := CheckRetransmit(t1, env);
    ProbeStage(t2, env);
    var t3 := CheckPersist(t2, env);
    OverrideReports(t3, env);
    DelAckStage(CheckOverride(t3, env), env);
  }

  lemma {:induction false} RetransmitReports(t: Tcb, env: Env)
    ensures CheckRetransmit(t, env).snd.cong ==
      if RetransmitDue(t, env) then OnRtoTimeout(t.snd.cong, InFlight(t.snd)) else t.snd.cong
  {
  }

  lemma {:induction false} OverrideReports(t: Tcb, env: Env)
    ensures CheckOverride(t, env).snd.cong == t.snd.cong
  {
  }

  lemma {:induction false} SendReports(t: Tcb, data: seq<u8>, env: Env)
    requires FlowOk(t) && FlightOk(t) && |t.snd.buf| + |data| <= SEND_LIMIT
    ensures Send(t, data, env).snd.cong == t.snd.cong
  {
    if SendOutcome(t.state, |data|).Sent? {
      var t1 := t.(snd := t.snd.(buf := t.snd.buf + data));
      FlushNagle(t1, t1.snd.nxt == t1.snd.una, env);
    }
  }

  lemma {:induction false} StepReports(t: Tcb, i: Input, env: Env, t': Tcb)
    requires FreeOk(t) && IsStep(t, i, env, t')
    ensures t'.snd.cong == Heard(t.snd.cong, EventsOf(t, i, env))
  {
    match i
    case CallSend(data) => SendReports(t, data, env);
    case CallRecv(max) => RecvFrame(t, max, env);
    case CallClose => CloseReports(t, env);
    case TimerTick => TickReports(t, env);
    case Arrive(s) => SegmentReports(t, s, env);
  }

  lemma {:induction false} CloseReports(t: Tcb, env: Env)
    ensures Close(t, env).snd.cong == t.snd.cong
  {
  }

  lemma {:induction false} HeardRuns(c: Cc, es: seq<CcEvent>, more: seq<CcEvent>)
    requires |more| <= 1
    ensures Run(c, es + more) == Heard(Run(c, es), more)
  {
    if more == [] { assert es + more == es; } else { assert (es + more)[..|es|] == es; }
  }

  lemma {:induction false} ReportsAt(s: Start, ts: seq<Tcb>, inputs: seq<Input>, envs: seq<Env>, k: nat)
    requires RunFrom(s, ts, inputs, envs) && k < |inputs|
    ensures ts[k + 1].snd.cong == Heard(ts[k].snd.cong, EventsOf(ts[k], inputs[k], envs[k]))
  {
    ReachableOk(s, ts, inputs, envs, k);
    assert StepAt(ts, inputs, envs, k);
    StepReports(ts[k], inputs[k], envs[k], ts[k + 1]);
  }

  lemma {:induction false} OpenedReports(s: Start)
    ensures Opened(s).snd.cong == NewCc(DEFAULT_MSS)
  {
  }

  /** The congestion state after step k is what step k reports makes of the one before. */
  predicate ReportedAt(ts: seq<Tcb>, inputs: seq<Input>, envs: seq<Env>, k: nat)
    requires |ts| == |inputs| + 1 && |envs| == |inputs| && k < |inputs|
  {
    ts[k + 1].snd.cong == Heard(ts[k].snd.cong, EventsOf(ts[k], inputs[k], envs[k]))
  }

  lemma {:induction false} ReportsAdd(ts: seq<Tcb>, inputs: seq<Input>, envs: seq<Env>, n: nat)
    requires |ts| == |inputs| + 1 && |envs| == |inputs| && n <= |inputs|
    requires ts[0].snd.cong == NewCc(DEFAULT_MSS)
    requires forall k :: 0 <= k < n ==> ReportedAt(ts, inputs, envs, k)
    ensures ts[n].snd.cong == Run(NewCc(DEFAULT_MSS), Events(ts, inputs, envs, n))
  {
    if n > 0 {
      ReportsAdd(ts, inputs, envs, n - 1);
      assert ReportedAt(ts, inputs, envs, n - 1);
      HeardRuns(NewCc(DEFAULT_MSS), Events(ts, inputs, envs, n - 1),
                EventsOf(ts[n - 1], inputs[n - 1], envs[n - 1]));
    }
  }

  /** The congestion state of every reachable connection is the run of Congestion over the
      events of its steps. */
  lemma {:induction false} CongestionOfRun(s: Start, ts: seq<Tcb>, inputs: seq<Input>, envs: seq<Env>, n: nat)
    requires RunFrom(s, ts, inputs, envs) && n < |ts|
    ensures ts[n].snd.cong == Run(NewCc(DEFAULT_MSS), Events(ts, inputs, envs, n))
  {
    forall k | 0 <= k < n ensures ReportedAt(ts, inputs, envs, k) {
      ReportsAt(s, ts, inputs, envs, k);
    }
    OpenedReports(s);
    ReportsAdd(ts, inputs, envs, n);
  }

  /** So its invariants hold there, window inflation included. */
  lemma {:induction false} CongestionOk(s: Start, ts: seq<Tcb>, inputs: seq<Input>, envs: seq<Env>, n: nat)
    requires RunFrom(s, ts, inputs, envs) && n < |ts|
    ensures var c, es := ts[n].snd.cong, Events(ts, inputs, envs, n);
      && CcOk(c) && c.smss == DEFAULT_MSS
      && (c.state == FastRecovery ==>
            c.cwnd == c.ssthresh + (3 + ExtraDups(NewCc(DEFAULT_MSS), es)) * DEFAULT_MSS)
  {
    CongestionOfRun(s, ts, inputs, envs, n);
    RunOk(DEFAULT_MSS, Events(ts, inputs, envs, n));
  }
}
