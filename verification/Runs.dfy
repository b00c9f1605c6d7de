/** Whole runs of one connection, from its open, with any user calls, timer ticks and
    arriving segments, forged ones included. */
module Runs {
  import opened SeqNum
  import opened Reassembly
  import opened Segments
  import opened Congestion
  import opened Tcb
  import opened StateMachine
  import opened Frames
  import opened SenderRecords
  import opened SenderSteps
  import opened FlowControl
  import opened DelayedAck
  import Lifecycle

  /** How a connection is opened: the constructor's settings and the first call. */
  datatype Start = Start(active: bool, iss: u32, buffTotal: u32, noDelay: bool, timeWait: Time, epoch: Time, env: Env)

  function Opened(s: Start): Tcb {
    var t := NewTcb(s.iss, s.buffTotal, s.noDelay, s.timeWait, s.epoch);
    if s.active then ActiveOpen(t, s.iss, s.env) else PassiveOpen(t)
  }

  predicate IsStep(t: Tcb, i: Input, env: Env, t': Tcb) {
    HasRoom(t, i) && t' == Step(t, i, env)
  }

  predicate StepAt(ts: seq<Tcb>, inputs: seq<Input>, envs: seq<Env>, k: nat)
    requires |ts| == |inputs| + 1 && |envs| == |inputs| && k < |inputs|
  {
    IsStep(ts[k], inputs[k], envs[k], ts[k + 1])
  }

  /** ts are the states of a run: inputs is[k] at envs[k] lead from ts[k] to ts[k + 1]. */
  ghost predicate IsRun(ts: seq<Tcb>, inputs: seq<Input>, envs: seq<Env>) {
    && |ts| == |inputs| + 1 && |envs| == |inputs|
    && forall k :: 0 <= k < |inputs| ==> StepAt(ts, inputs, envs, k)
  }

  ghost predicate RunFrom(s: Start, ts: seq<Tcb>, inputs: seq<Input>, envs: seq<Env>) {
    IsRun(ts, inputs, envs) && ts[0] == Opened(s) && BuffCap(ts[0].rcv) <= Reassembly.MAX_WINDOW
  }

  /** Close was called only with everything sent, before state n. */
  ghost predicate ClosedSent(ts: seq<Tcb>, inputs: seq<Input>, n: nat)
    requires |ts| == |inputs| + 1 && n <= |inputs|
  {
    forall k :: 0 <= k < n ==> ClosesSent(ts[k], inputs[k])
  }

  // ----- the receive window stays within the buffer, whatever arrives -----

  predicate WndOk(r: Receiver) {
    r.wnd <= BuffCap(r) <= Reassembly.MAX_WINDOW
  }

  lemma {:induction false} DrainFrame(r: Receiver)
    ensures DrainOoo(r).wnd == r.wnd && DrainOoo(r).buffTotal == r.buffTotal
    decreases |r.ooo|
  {
    var i := FindCover(r.ooo, r.nxt);
    if i >= 0 { DrainFrame(Absorb(r, i)); }
  }

  lemma {:induction false} AcceptFrame(r: Receiver, s: Segment)
    requires WndOk(r)
    ensures WndOk(Texted(r, s)) && WndOk(WithFin(Texted(r, s)))
  {
    var f := TrimToWindow(r, s.seqNum, s.payload);
    DrainFrame(r.(buf := r.buf + f.data, nxt := Add(r.nxt, |f.data|)));
  }

  lemma {:induction false} SegmentWnd(t: Tcb, s: Segment, env: Env)
    requires WndOk(t.rcv)
    ensures WndOk(OnSegment(t, s, env).rcv)
  {
    if t.state == Closed { ClosedFacts(t, s, env); }
    else if t.state == Listen { ListenFacts(t, s, env); RstFacts(t, s.ackNum, env); }
    else if t.state == SynSent { SynSentFacts(t, s, env); RstFacts(t, s.ackNum, env); }
    else { SynchronizedReceives(t, s, env); AcceptFrame(t.rcv, s); }
  }

  lemma {:induction false} StepKeepsWnd(t: Tcb, i: Input, env: Env)
    requires WndOk(t.rcv) && HasRoom(t, i)
    ensures WndOk(Step(t, i, env).rcv)
  {
    match i
    case CallSend(data) => SendFacts(t, data, env);
    case CallRecv(max) => RecvReads(t, max, env);
    case CallClose => CloseFacts(t, env);
    case TimerTick => TickFacts(t, env);
    case Arrive(s) => SegmentWnd(t, s, env);
  }

  // ----- every reachable state -----

  /** Never more in flight than the send buffer holds, the SYN and the FIN. */
  predicate FlightOk(t: Tcb) {
    t.state == SynReceived || Synchronized(t.state) ==> InFlight(t.snd) <= SEND_LIMIT + 2
  }

  /** What every run keeps, whenever Close is called. */
  ghost predicate FreeOk(t: Tcb) {
    SOkBeforeFin(t) && FlightOk(t) && FlowOk(t) && DelAckOk(t) && WndOk(t.rcv)
  }

  ghost predicate AllOk(t: Tcb) {
    SOk(t) && FreeOk(t)
  }

  lemma {:induction false} OpenedSender(s: Start)
    ensures SOk(Opened(s))
  {
    var t := NewTcb(s.iss, s.buffTotal, s.noDelay, s.timeWait, s.epoch);
    if s.active {
      var e := RetxSeg(s.iss, F_SYN, [], s.env.now, 0, false);
      SynsSnoc([], s.iss, e);
      assert Opened(s).queue == [] + [e];
      assert Opening(Opened(s).snd, Opened(s).queue, false);
    }
  }

  lemma {:induction false} OpenedOk(s: Start)
    requires BuffCap(Opened(s).rcv) <= Reassembly.MAX_WINDOW
    ensures AllOk(Opened(s))
  {
    OpenedSender(s);
    var t := NewTcb(s.iss, s.buffTotal, s.noDelay, s.timeWait, s.epoch);
    OpenDelAck(t, s.iss, s.env);
    OpenFacts(t, s.iss, s.env);
  }

  // ----- the windows over one step -----

  /** How far a step may pass both windows: the probe byte into a closed window, our FIN. */
  function Beyond(t: Tcb, i: Input): nat {
    Bit((i == CallClose && BeforeFin(t.state)) || (i == TimerTick && Unsent(t.snd) && t.snd.wnd == 0))
  }

  lemma {:induction false} FlushWindow(t: Tcb, idle: bool, env: Env)
    requires t.snd.wnd <= MAX_SND_WINDOW && InFlight(t.snd) < HALF
    ensures var t' := FlushFrom(t, idle, env);
      InFlight(t'.snd) <= Max(InFlight(t.snd), Min(t'.snd.cong.cwnd, t'.snd.wnd))
  {
    var segs := FlushWrites(t, idle, env);
  }

  lemma {:induction false} NoteAckFlight(t: Tcb, s: Segment, env: Env)
    requires InFlight(t.snd) < HALF
    ensures var t' := UpdateSendWindow(NoteAck(t, s, env), s);
      InFlight(t'.snd) <= InFlight(t.snd)
  {
    Lifecycle.NoteAckUna(t, s, env);
    Lifecycle.WindowKeepsState(NoteAck(t, s, env), s);
    if AcceptableAck(t.snd.una, s.ackNum, t.snd.nxt) { AckFlight(t.snd, s.ackNum); }
  }

  lemma {:induction false} AckWindow(t: Tcb, s: Segment, env: Env)
    requires FlowOk(t) && InFlight(t.snd) < HALF
    ensures var t' := HandleAck(t, s, env);
      InFlight(t'.snd) <= Max(InFlight(t.snd), Min(t'.snd.cong.cwnd, t'.snd.wnd))
  {
    NoteAckFlight(t, s, env);
    NoteAckFlow(t, s, env);
    WindowFlow(NoteAck(t, s, env), s);
    var t2 := UpdateSendWindow(NoteAck(t, s, env), s);
    AdvanceFrame(t2, env);
    var t3 := AdvanceOnAck(t2, env);
    FlushWindow(t3, t3.snd.nxt == t3.snd.una, env);
  }

  lemma {:induction false} ArrivalWindow(t: Tcb, s: Segment, env: Env)
    requires FlowOk(t) && WndOk(t.rcv) && InFlight(t.snd) < HALF && (t.state == SynReceived || Synchronized(t.state))
    ensures var t' := OnSegment(t, s, env);
      InFlight(t'.snd) <= Max(InFlight(t.snd), Min(t'.snd.cong.cwnd, t'.snd.wnd))
  {
    if s.flags.rst { Lifecycle.RstState(t, s, env); }
    else if Lifecycle.TakesAck(t, s) {
      Lifecycle.TakenIsAcceptable(t, s, env);
      AcceptableIsText(t, s, env);
      AckWindow(UpdateTsRecent(t, s), s, env);
      Lifecycle.TextFinState(HandleAck(UpdateTsRecent(t, s), s, env), s, env);
    } else { Lifecycle.OtherwiseQuiet(t, s, env); }
  }

  lemma {:induction false} CloseWindow(t: Tcb, env: Env)
    requires InFlight(t.snd) < HALF
    ensures InFlight(Close(t, env).snd) <= InFlight(t.snd) + Bit(BeforeFin(t.state))
  {
  }

  lemma {:induction false} SendWindow(t: Tcb, data: seq<u8>, env: Env)
    requires t.snd.wnd <= MAX_SND_WINDOW && InFlight(t.snd) < HALF && |t.snd.buf| + |data| <= SEND_LIMIT
    ensures var t' := Send(t, data, env);
      InFlight(t'.snd) <= Max(InFlight(t.snd), Min(t'.snd.cong.cwnd, t'.snd.wnd))
  {
    if SendOutcome(t.state, |data|).Sent? {
      var t1 := t.(snd := t.snd.(buf := t.snd.buf + data));
      FlushWindow(t1, t1.snd.nxt == t1.snd.una, env);
    }
  }

  lemma {:induction false} TickKeepsWindow(t: Tcb, env: Env)
    ensures Tick(t, env).snd.wnd == t.snd.wnd
  {
    RetransmitWindow(t, env);
    var t2 := CheckRetransmit(CheckTimeWait(t, env), env);
    ProbeStage(t2, env);
    OverrideFrame(CheckPersist(t2, env), env);
    DelAckStage(CheckOverride(CheckPersist(t2, env), env), env);
  }

  lemma {:induction false} OverrideFrame(t: Tcb, env: Env)
    ensures CheckOverride(t, env).snd.wnd == t.snd.wnd
  {
  }

  lemma {:induction false} StepWindow(t: Tcb, i: Input, env: Env, t': Tcb)
    requires FreeOk(t) && IsStep(t, i, env, t') && (t.state == SynReceived || Synchronized(t.state))
    ensures InFlight(t'.snd) <= Max(InFlight(t.snd) + Beyond(t, i), Min(t'.snd.cong.cwnd, t'.snd.wnd))
  {
    match i
    case CallSend(data) => SendWindow(t, data, env);
    case CallRecv(max) => RecvFrame(t, max, env);
    case CallClose => CloseWindow(t, env);
    case TimerTick => TickWindow(t, env); TickKeepsWindow(t, env);
    case Arrive(s) => ArrivalWindow(t, s, env);
  }

  lemma {:induction false} FlightBound(t: Tcb)
    requires SOk(t) && (t.state == SynReceived || Synchronized(t.state))
    ensures InFlight(t.snd) <= SEND_LIMIT + 1
  {
  }

  // ----- every step keeps what every run keeps -----

  lemma {:induction false} CloseLeaves(t: Tcb, env: Env)
    ensures !BeforeFin(Close(t, env).state)
  {
  }

  lemma {:induction false} StepKeepsEarly(t: Tcb, i: Input, env: Env)
    requires SOkBeforeFin(t) && HasRoom(t, i)
    ensures SOkBeforeFin(Step(t, i, env))
  {
    Lifecycle.StepFollowsDiagram(t, i, env);
    if i == CallClose { CloseLeaves(t, env); }
    else if BeforeFin(t.state) { StepKeepsRecords(t, i, env); }
  }

  lemma {:induction false} StepKeepsFlight(t: Tcb, i: Input, env: Env, t': Tcb)
    requires FreeOk(t) && IsStep(t, i, env, t') && SOkBeforeFin(t') && FlowOk(t')
    ensures FlightOk(t')
  {
    Lifecycle.StepFollowsDiagram(t, i, env);
    if Synchronized(t'.state) || t'.state == SynReceived {
      if BeforeFin(t'.state) {
        FlightBound(t');
      } else {
        if BeforeFin(t.state) { FlightBound(t); }
        StepWindow(t, i, env, t');
      }
    }
  }

  lemma {:induction false} StepKeepsFree(t: Tcb, i: Input, env: Env, t': Tcb)
    requires FreeOk(t)
    ensures IsStep(t, i, env, t') ==> FreeOk(t')
  {
    if IsStep(t, i, env, t') {
      StepKeepsEarly(t, i, env);
      StepKeepsFlow(t, i, env);
      StepKeepsDelAck(t, i, env);
      StepKeepsWnd(t, i, env);
      StepKeepsFlight(t, i, env, t');
    }
  }

  lemma {:induction false} StepKeepsAll(t: Tcb, i: Input, env: Env, t': Tcb)
    requires AllOk(t)
    ensures IsStep(t, i, env, t') && ClosesSent(t, i) ==> AllOk(t')
  {
    if IsStep(t, i, env, t') && ClosesSent(t, i) {
      StepKeepsRecords(t, i, env);
      StepKeepsFree(t, i, env, t');
    }
  }

  /** Every state of every run keeps the flow-control, delayed-ACK and window invariants,
      and the agreement of the sender's records until our FIN is sent; the agreement in
      every state if Close comes only with everything sent. */
  lemma {:induction false} ReachableOk(s: Start, ts: seq<Tcb>, inputs: seq<Input>, envs: seq<Env>, n: nat)
    requires RunFrom(s, ts, inputs, envs) && n < |ts|
    ensures FreeOk(ts[n]) && (ClosedSent(ts, inputs, n) ==> AllOk(ts[n]))
  {
    if n == 0 {
      OpenedOk(s);
    } else {
      ReachableOk(s, ts, inputs, envs, n - 1);
      assert StepAt(ts, inputs, envs, n - 1);
      StepKeepsFree(ts[n - 1], inputs[n - 1], envs[n - 1], ts[n]);
      if ClosedSent(ts, inputs, n) {
        assert ClosesSent(ts[n - 1], inputs[n - 1]) && ClosedSent(ts, inputs, n - 1);
        StepKeepsAll(ts[n - 1], inputs[n - 1], envs[n - 1], ts[n]);
      }
    }
  }

  /** No stuck sender: in every reachable ESTABLISHED or CLOSE-WAIT state unsent data
      leaves the persist timer armed, the override timer armed, or something in the
      retransmission queue. */
  lemma {:induction false} NoStuckSender(s: Start, ts: seq<Tcb>, inputs: seq<Input>, envs: seq<Env>, n: nat)
    requires RunFrom(s, ts, inputs, envs) && n < |ts|
    requires (ts[n].state == Established || ts[n].state == CloseWait) && Unsent(ts[n].snd)
    ensures ts[n].persist.armed || ts[n].override.armed || ts[n].queue != []
  {
    ReachableOk(s, ts, inputs, envs, n);
  }

  /** And each of them does something: a tick at which whatever is armed or queued is due
      writes a segment, or gives the connection up. */
  lemma {:induction false} PendingTimersWork(s: Start, ts: seq<Tcb>, inputs: seq<Input>, envs: seq<Env>, n: nat,
                                             env: Env)
    requires RunFrom(s, ts, inputs, envs) && n < |ts|
    requires var t := ts[n];
      && (t.state == Established || t.state == CloseWait) && Unsent(t.snd)
      && (t.persist.armed ==> t.persist.deadline <= env.now)
      && (t.override.armed ==> t.override.deadline <= env.now)
      && (t.queue != [] ==> t.queue[0].sentAt + t.rto <= env.now)
    ensures var t' := Tick(ts[n], env);
      |t'.wire| > |ts[n].wire| || t'.state == Closed
  {
    ReachableOk(s, ts, inputs, envs, n);
    DueTickWrites(ts[n], env);
  }

  /** An acknowledgement is owed only while its timer runs, for one full segment at most. */
  lemma {:induction false} OwedAckHasTimer(s: Start, ts: seq<Tcb>, inputs: seq<Input>, envs: seq<Env>, n: nat)
    requires RunFrom(s, ts, inputs, envs) && n < |ts|
    ensures Synchronized(ts[n].state) ==> ts[n].lastAckSent == ts[n].rcv.nxt || ts[n].delAck.armed
    ensures ts[n].delAck.count <= 1
  {
    ReachableOk(s, ts, inputs, envs, n);
  }

  lemma {:induction false} ArrivalAcked(t: Tcb, seg: Segment, env: Env)
    requires DelAckOk(t) && (t.state == SynReceived || Synchronized(t.state))
    requires Lifecycle.TakesAck(t, seg) && seg.payload != []
    requires !(Delayable(t, seg) && t.delAck.count == 0)
    ensures var t' := OnSegment(t, seg, env);
      AckedLast(t, t') && PaidUp(t') && !t'.delAck.armed
  {
    GapAckedAtOnce(t, seg, env);
    Lifecycle.TakenIsAcceptable(t, seg, env);
  }

  /** Text that is not the first full segment to wait is acknowledged in the very step it
      arrives: the last segment that step writes is an ACK of RCV.NXT. */
  lemma {:induction false} TextAckedAtOnce(s: Start, ts: seq<Tcb>, inputs: seq<Input>, envs: seq<Env>, n: nat,
                                           seg: Segment, env: Env)
    requires RunFrom(s, ts, inputs, envs) && n < |ts|
    requires ts[n].state == SynReceived || Synchronized(ts[n].state)
    requires Lifecycle.TakesAck(ts[n], seg) && seg.payload != []
    requires var t := ts[n];
      !(Continues(t.rcv, seg) >= FullSegment(t.snd.mss) && Accept(t.rcv, seg.seqNum, seg.payload).ooo == []
        && !t.delAck.armed)
    ensures var t' := OnSegment(ts[n], seg, env);
      AckedLast(ts[n], t') && PaidUp(t') && !t'.delAck.armed
  {
    ReachableOk(s, ts, inputs, envs, n);
    DelayableIff(ts[n], seg);
    ArrivalAcked(ts[n], seg, env);
  }

  /** The sender's two records agree in every reachable state with our SYN acknowledged and
      no FIN sent: queue empty exactly when nothing is in flight, its payloads (less the
      acknowledged part of the head) the bytes in flight at the front of the buffer. */
  lemma {:induction false} RecordsAgree(s: Start, ts: seq<Tcb>, inputs: seq<Input>, envs: seq<Env>, n: nat)
    returns (acked: nat)
    requires RunFrom(s, ts, inputs, envs) && n < |ts|
    requires ts[n].state == Established || ts[n].state == CloseWait
    ensures var t := ts[n];
      && (t.queue == [] <==> t.snd.una == t.snd.nxt)
      && (t.queue != [] ==> acked < EntryLen(t.queue[0]) && Add(t.queue[0].seqNum, acked) == t.snd.una)
      && acked <= |Payloads(t.queue)| && InFlight(t.snd) <= |t.snd.buf|
      && Payloads(t.queue)[acked..] == t.snd.buf[..InFlight(t.snd)]
  {
    ReachableOk(s, ts, inputs, envs, n);
    acked := RecordsMeaning(ts[n].snd, ts[n].queue, false);
  }

  /** With our FIN out and the SYN acknowledged the records still agree: the payloads are
      the whole buffer, and the FIN is the last entry, at the number before SND.NXT.  (A
      FIN sent in SYN-RECEIVED may still have the SYN before it; then there is no data.) */
  lemma {:induction false} RecordsAgreeWithFin(s: Start, ts: seq<Tcb>, inputs: seq<Input>, envs: seq<Env>, n: nat)
    returns (acked: nat)
    requires RunFrom(s, ts, inputs, envs) && n < |ts| && ClosedSent(ts, inputs, n)
    requires ts[n].state == FinWait1 || ts[n].state == Closing || ts[n].state == LastAck
    ensures var t := ts[n];
      && t.queue != []
      && t.queue[|t.queue| - 1].flags.fin && t.queue[|t.queue| - 1].payload == []
      && Add(t.queue[|t.queue| - 1].seqNum, 1) == t.snd.nxt
      && if t.queue[0].flags.syn then
           t.state != LastAck && t.snd.una == t.snd.iss && t.snd.nxt == Add(t.snd.iss, 2) && t.snd.buf == []
         else
           && acked < EntryLen(t.queue[0]) && Add(t.queue[0].seqNum, acked) == t.snd.una
           && acked <= |Payloads(t.queue)| && InFlight(t.snd) == |t.snd.buf| + 1
           && Payloads(t.queue)[acked..] == t.snd.buf
  {
    ReachableOk(s, ts, inputs, envs, n);
    acked := FinMeaning(ts[n].state, ts[n].snd, ts[n].queue);
  }

  /** With our FIN acknowledged nothing is left of either record. */
  lemma {:induction false} RecordsEmptyAfterFin(s: Start, ts: seq<Tcb>, inputs: seq<Input>, envs: seq<Env>, n: nat)
    requires RunFrom(s, ts, inputs, envs) && n < |ts| && ClosedSent(ts, inputs, n)
    requires ts[n].state == FinWait2 || ts[n].state == TimeWait
    ensures ts[n].queue == [] && ts[n].snd.buf == [] && ts[n].snd.una == ts[n].snd.nxt
  {
    ReachableOk(s, ts, inputs, envs, n);
    HeadToNext(ts[n].snd, ts[n].queue, false);
  }

  /** Whatever happens to a reachable connection in SYN-RECEIVED or later, the bytes in
      flight pass the smaller of cwnd and the peer's window only by what was already in
      flight, one probe byte into a closed window, or our FIN. */
  lemma {:induction false} StepWithinWindows(s: Start, ts: seq<Tcb>, inputs: seq<Input>, envs: seq<Env>, n: nat)
    requires RunFrom(s, ts, inputs, envs) && n < |inputs|
    requires ts[n].state == SynReceived || Synchronized(ts[n].state)
    ensures var t, t' := ts[n], ts[n + 1];
      InFlight(t'.snd) <= Max(InFlight(t.snd) + Beyond(t, inputs[n]), Min(t'.snd.cong.cwnd, t'.snd.wnd))
  {
    ReachableOk(s, ts, inputs, envs, n);
    assert StepAt(ts, inputs, envs, n);
    StepWindow(ts[n], inputs[n], envs[n], ts[n + 1]);
  }

  // ----- TIME-WAIT -----

  lemma {:induction false} TimeWaitQueue(t: Tcb)
    requires SOk(t) && t.state == TimeWait
    ensures t.queue == []
  {
    HeadToNext(t.snd, t.queue, false);
  }

  /** In TIME-WAIT the deadline stays or is set anew. */
  predicate DeadlineKept(t: Tcb, t': Tcb, env: Env) {
    t'.state == TimeWait ==>
      t'.timeWaitDeadline == t.timeWaitDeadline || t'.timeWaitDeadline == env.now + t.timeWaitDuration
  }

  lemma {:induction false} TimeWaitSegment(t: Tcb, s: Segment, env: Env)
    requires WndOk(t.rcv) && t.state == TimeWait
    ensures var t' := OnSegment(t, s, env);
      && (t'.state == if s.flags.rst && s.seqNum == t.rcv.nxt then Closed else TimeWait)
      && DeadlineKept(t, t', env)
      && (s.flags.fin && !s.flags.rst ==> t'.timeWaitDeadline == env.now + t.timeWaitDuration)
      && t'.timeWaitDuration == t.timeWaitDuration
  {
    if s.flags.rst { Lifecycle.RstState(t, s, env); }
    else if Lifecycle.TakesAck(t, s) {
      Lifecycle.TakenAckState(t, s, env);
    } else { Lifecycle.OtherwiseQuiet(t, s, env); }
  }

  lemma {:induction false} TimeWaitStep(t: Tcb, i: Input, env: Env, t': Tcb)
    requires WndOk(t.rcv) && t.state == TimeWait && IsStep(t, i, env, t')
    ensures t'.state == (if Lifecycle.Ends(t, i, env) then Closed else TimeWait)
    ensures t'.timeWaitDuration == t.timeWaitDuration
    ensures DeadlineKept(t, t', env)
    ensures i.Arrive? && i.s.flags.fin && !i.s.flags.rst ==> t'.timeWaitDeadline == env.now + t.timeWaitDuration
  {
    Lifecycle.StepClosesIff(t, i, env);
    match i
    case CallSend(data) => Lifecycle.SendState(t, data, env);
    case CallRecv(max) => Lifecycle.RecvState(t, max, env);
    case CallClose => Lifecycle.CloseState(t, env);
    case TimerTick => Lifecycle.TickState(t, env);
    case Arrive(s) => TimeWaitSegment(t, s, env);
  }

  /** Entering TIME-WAIT sets the deadline one full duration ahead. */
  lemma {:induction false} EnterSetsDeadline(t: Tcb, i: Input, env: Env)
    requires WndOk(t.rcv) && t.state != TimeWait && HasRoom(t, i)
    ensures var t' := Step(t, i, env);
      t'.state == TimeWait ==> t'.timeWaitDeadline == env.now + t'.timeWaitDuration
  {
    match i
    case CallSend(data) => Lifecycle.SendState(t, data, env);
    case CallRecv(max) => Lifecycle.RecvState(t, max, env);
    case CallClose => Lifecycle.CloseState(t, env);
    case TimerTick => Lifecycle.TickState(t, env);
    case Arrive(s) =>
      if t.state == Closed || t.state == Listen || t.state == SynSent { Lifecycle.OpeningState(t, s, env); }
      else if s.flags.rst { Lifecycle.RstState(t, s, env); }
      else if Lifecycle.TakesAck(t, s) { Lifecycle.TakenAckState(t, s, env); }
      else { Lifecycle.OtherwiseQuiet(t, s, env); }
  }

  /** Step m entered TIME-WAIT or brought a FIN there. */
  predicate Restarts(t: Tcb, i: Input, t': Tcb) {
    && t'.state == TimeWait
    && (t.state != TimeWait || (i.Arrive? && i.s.flags.fin && !i.s.flags.rst))
  }

  ghost predicate ClockRuns(envs: seq<Env>) {
    forall a, b :: 0 <= a <= b < |envs| ==> envs[a].now <= envs[b].now
  }

  lemma {:induction false} RestartSetsDeadline(t: Tcb, i: Input, env: Env)
    requires WndOk(t.rcv) && HasRoom(t, i)
    ensures var t' := Step(t, i, env);
      Restarts(t, i, t') ==> t'.timeWaitDeadline == env.now + t'.timeWaitDuration
  {
    if t.state == TimeWait { TimeWaitStep(t, i, env, Step(t, i, env)); } else { EnterSetsDeadline(t, i, env); }
  }

  lemma {:induction false} DeadlineStays(t: Tcb, i: Input, env: Env, t': Tcb, since: Time)
    requires WndOk(t.rcv) && IsStep(t, i, env, t') && t.state == TimeWait && t'.state == TimeWait
    requires t.timeWaitDeadline >= since + t.timeWaitDuration && since <= env.now
    ensures t'.timeWaitDeadline >= since + t'.timeWaitDuration
  {
    TimeWaitStep(t, i, env, t');
  }

  lemma {:induction false} DeadlineAt(s: Start, ts: seq<Tcb>, inputs: seq<Input>, envs: seq<Env>, k: nat, since: Time)
    requires RunFrom(s, ts, inputs, envs) && k < |inputs| && since <= envs[k].now
    requires ts[k].state == TimeWait && ts[k + 1].state == TimeWait
    requires ts[k].timeWaitDeadline >= since + ts[k].timeWaitDuration
    ensures ts[k + 1].timeWaitDeadline >= since + ts[k + 1].timeWaitDuration
  {
    ReachableOk(s, ts, inputs, envs, k);
    assert StepAt(ts, inputs, envs, k);
    DeadlineStays(ts[k], inputs[k], envs[k], ts[k + 1], since);
  }

  /** From state `from` on, the deadline stays a full duration after time `since`. */
  lemma {:induction false} DeadlineHolds(s: Start, ts: seq<Tcb>, inputs: seq<Input>, envs: seq<Env>, from: nat,
                                         n: nat, since: Time)
    requires RunFrom(s, ts, inputs, envs) && from <= n < |ts|
    requires ts[from].timeWaitDeadline >= since + ts[from].timeWaitDuration
    requires forall k :: from <= k < n ==> since <= envs[k].now
    requires forall k :: from <= k <= n ==> ts[k].state == TimeWait
    ensures ts[n].timeWaitDeadline >= since + ts[n].timeWaitDuration
    decreases n
  {
    if from < n {
      DeadlineHolds(s, ts, inputs, envs, from, n - 1, since);
      DeadlineAt(s, ts, inputs, envs, n - 1, since);
    }
  }

  lemma {:induction false} RestartAt(s: Start, ts: seq<Tcb>, inputs: seq<Input>, envs: seq<Env>, m: nat)
    requires RunFrom(s, ts, inputs, envs) && m < |inputs| && Restarts(ts[m], inputs[m], ts[m + 1])
    ensures ts[m + 1].timeWaitDeadline == envs[m].now + ts[m + 1].timeWaitDuration
  {
    ReachableOk(s, ts, inputs, envs, m);
    assert StepAt(ts, inputs, envs, m);
    RestartSetsDeadline(ts[m], inputs[m], envs[m]);
  }

  /** TIME-WAIT lasts: a connection that leaves it without an exact reset does so on a tick,
      at least the full duration (2 MSL) after it entered, and after every FIN since.  Only a
      connection closed with data unsent may leave it earlier, by giving up resending it. */
  lemma {:induction false} TimeWaitLasts(s: Start, ts: seq<Tcb>, inputs: seq<Input>, envs: seq<Env>, m: nat, n: nat)
    requires RunFrom(s, ts, inputs, envs) && ClockRuns(envs) && m < n < |inputs|
    requires Restarts(ts[m], inputs[m], ts[m + 1])
    requires forall k :: m < k <= n ==> ts[k].state == TimeWait
    requires ts[n + 1].state != TimeWait
    requires !(inputs[n].Arrive? && inputs[n].s.flags.rst && inputs[n].s.seqNum == ts[n].rcv.nxt)
    ensures ts[n + 1].state == Closed && inputs[n] == TimerTick
    ensures envs[n].now >= envs[m].now + ts[n].timeWaitDuration || Lifecycle.GivesUp(ts[n], envs[n])
    ensures ClosedSent(ts, inputs, n) ==> envs[n].now >= envs[m].now + ts[n].timeWaitDuration
  {
    RestartAt(s, ts, inputs, envs, m);
    DeadlineHolds(s, ts, inputs, envs, m + 1, n, envs[m].now);
    ReachableOk(s, ts, inputs, envs, n);
    assert StepAt(ts, inputs, envs, n);
    TimeWaitStep(ts[n], inputs[n], envs[n], ts[n + 1]);
    if ClosedSent(ts, inputs, n) { TimeWaitQueue(ts[n]); }
  }
}
