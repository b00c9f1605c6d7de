/** What Nagle's algorithm and the sender's silly-window avoidance promise of the segments
    that are written and of the data that is kept back (section 3.7.4 of RFC 9293;
    tcp/transport/flowcontrol.go:37-68, data.go:61-122). */
module Nagle {
  import opened SeqNum
  import opened Reassembly
  import opened Segments
  import opened Congestion
  import opened Tcb
  import opened StateMachine
  import opened Frames
  import opened SenderRecords
  import opened SenderSteps
  import opened FlowControl
  import opened Runs
  import opened Retries
  import Lifecycle

  /** What cwnd and the peer's window leave beyond the bytes in flight. */
  function Room(snd: Sender): nat {
    Max(0, Min(snd.cong.cwnd, snd.wnd) - InFlight(snd))
  }

  /** What could be sent now: unsent bytes, as far as there is room. */
  function Sendable(snd: Sender): nat {
    Min(Max(0, |snd.buf| - InFlight(snd)), Room(snd))
  }

  /** Smaller than a full segment and than half the largest window the peer has offered. */
  predicate Small(n: nat, snd: Sender) {
    n < FullSegment(snd.mss) && n < snd.maxWnd / 2
  }

  lemma {:induction false} UsableIsRoom(snd: Sender)
    requires snd.wnd <= MAX_SND_WINDOW && InFlight(snd) < HALF
    ensures SendUsable(snd) == Room(snd)
  {
  }

  // ----- one flush -----

  /** No segment written after the first n is small. */
  ghost predicate NoneSmall(wire: seq<Segment>, n: nat, snd: Sender) {
    forall k :: n <= k < |wire| ==> !Small(|wire[k].payload|, snd)
  }

  lemma {:induction false} NoneSmallFrom(wire: seq<Segment>, n: nat, snd: Sender)
    requires n < |wire| && !Small(|wire[n].payload|, snd) && NoneSmall(wire, n + 1, snd)
    ensures NoneSmall(wire, n, snd)
  {
  }

  /** One segment of a flush. */
  lemma {:induction false} EmitSized(t: Tcb, idle: bool, env: Env)
    requires MaySend(t.snd, idle) && t.snd.wnd <= MAX_SND_WINDOW && InFlight(t.snd) < HALF
    ensures var t' := EmitNext(t, env);
      && |t'.wire| == |t.wire| + 1 && t'.wire[..|t.wire|] == t.wire
      && (idle || t.snd.nagleDisabled || !Small(|t'.wire[|t.wire|].payload|, t.snd))
      && t'.snd == t.snd.(nxt := t'.snd.nxt) && InFlight(t.snd) < InFlight(t'.snd) < HALF
  {
    EmitProgress(t, idle, env);
    UsableBound(t.snd);
    var s := EmitWrites(t, idle, env);
  }

  lemma {:induction false} StopsWhen(snd: Sender, idle: bool)
    requires snd.wnd <= MAX_SND_WINDOW && InFlight(snd) < HALF && !MaySend(snd, idle)
    ensures Unsent(snd) && snd.wnd > 0 ==>
      Sendable(snd) == 0 || (!idle && !snd.nagleDisabled && Small(Sendable(snd), snd))
  {
    UsableIsRoom(snd);
  }

  /** With Nagle on and data in flight when it starts, a flush writes no small segment; and
      it goes on until all is sent, the window is closed, or what could be sent is nothing,
      or is small while Nagle applies. */
  lemma {:induction false} FlushNagle(t: Tcb, idle: bool, env: Env)
    requires t.snd.wnd <= MAX_SND_WINDOW && InFlight(t.snd) < HALF
    ensures var t' := FlushFrom(t, idle, env);
      && |t.wire| <= |t'.wire| && t'.wire[..|t.wire|] == t.wire
      && (idle || t.snd.nagleDisabled || NoneSmall(t'.wire, |t.wire|, t.snd))
      && t'.snd == t.snd.(nxt := t'.snd.nxt) && InFlight(t.snd) <= InFlight(t'.snd) && t'.state == t.state
      && (Unsent(t'.snd) && t'.snd.wnd > 0 ==>
            Sendable(t'.snd) == 0 || (!idle && !t.snd.nagleDisabled && Small(Sendable(t'.snd), t.snd)))
    decreases |t.snd.buf| - InFlight(t.snd)
  {
    if MaySend(t.snd, idle) {
      EmitProgress(t, idle, env);
      EmitSized(t, idle, env);
      var t1, t' := EmitNext(t, env), FlushFrom(t, idle, env);
      FlushNagle(t1, idle, env);
      PrefixKept(t.wire, t1.wire, t'.wire);
      if !idle && !t.snd.nagleDisabled { NoneSmallFrom(t'.wire, |t.wire|, t.snd); }
    } else {
      StopFrame(t, env);
      StopsWhen(t.snd, idle);
    }
  }

  // ----- every state -----

  /** Nothing that ought to be sent is kept back: with an open window, unsent data finds no
      room, or it is small while Nagle is on and earlier data is in flight. */
  predicate Flushed(t: Tcb) {
    OpenForData(t.state) && Unsent(t.snd) && t.snd.wnd > 0 ==>
      Sendable(t.snd) == 0 || (InFlight(t.snd) > 0 && !t.snd.nagleDisabled && Small(Sendable(t.snd), t.snd))
  }

  lemma {:induction false} FlushLeaves(t: Tcb, env: Env)
    requires t.snd.wnd <= MAX_SND_WINDOW && InFlight(t.snd) < HALF
    ensures Flushed(FlushSend(t, env))
  {
    FlushNagle(t, t.snd.nxt == t.snd.una, env);
  }

  /** Less room leaves less to send. */
  lemma {:induction false} LessRoom(t: Tcb, t': Tcb)
    requires Flushed(t) && t'.state == t.state && t'.snd == t.snd.(cong := t'.snd.cong)
    requires t'.snd.cong.cwnd <= t.snd.cong.cwnd
    ensures Flushed(t')
  {
  }

  lemma {:induction false} RetransmitFlushed(t: Tcb, env: Env)
    requires Flushed(t) && CcOk(t.snd.cong)
    ensures Flushed(CheckRetransmit(t, env))
  {
    var t' := CheckRetransmit(t, env);
    if t'.state == t.state { LessRoom(t, t'); }
  }

  lemma {:induction false} PersistFlushed(t: Tcb, env: Env)
    requires Flushed(t)
    ensures Flushed(CheckPersist(t, env))
  {
  }

  lemma {:induction false} ForcedTakesAll(t: Tcb, env: Env)
    requires Flushed(t) && OpenForData(t.state) && 0 < t.snd.wnd <= MAX_SND_WINDOW && InFlight(t.snd) < HALF
    ensures Flushed(FireOverride(t, env))
  {
    UsableIsRoom(t.snd);
    if Unsent(t.snd) && Sendable(t.snd) > 0 {
      var t' := FireOverride(t, env);
      assert t'.snd == t.snd.(nxt := Add(t.snd.nxt, Sendable(t.snd)));
      assert InFlight(t'.snd) == InFlight(t.snd) + Sendable(t.snd);
    }
  }

  /** The forced segment takes all that could be sent. */
  lemma {:induction false} OverrideFlushed(t: Tcb, env: Env)
    requires Flushed(t) && t.snd.wnd <= MAX_SND_WINDOW && InFlight(t.snd) < HALF
    requires t.override.armed ==> t.snd.wnd > 0
    ensures Flushed(CheckOverride(t, env))
  {
    if t.override.armed && OpenForData(t.state) { ForcedTakesAll(t, env); }
    else if t.override.armed { Lifecycle.OverrideState(t, env); }
  }

  lemma {:induction false} TickFlushed(t: Tcb, env: Env)
    requires Flushed(t) && FlowOk(t) && FlightOk(t)
    ensures Flushed(Tick(t, env))
  {
    var t1 := CheckTimeWait(t, env);
    ExpiryFrame(t, env);
    RetransmitFlushed(t1, env);
    RetransmitWindow(t, env);
    var t2 := CheckRetransmit(t1, env);
    PersistFlushed(t2, env);
    ProbeStage(t2, env);
    RetransmitWrites(t1, env);
    ProbeWrites(t2, env);
    var t3 := CheckPersist(t2, env);
    if OpenForData(t3.state) { OverrideFlushed(t3, env); } else { Lifecycle.OverrideState(t3, env); }
    DelAckStage(CheckOverride(t3, env), env);
    DelAckWrites(CheckOverride(t3, env), env);
  }

  /** The flight after the segment's acknowledgement, before anything new is sent. */
  lemma {:induction false} AckShrinks(t: Tcb, s: Segment, env: Env)
    requires InFlight(t.snd) < HALF && t.snd.wnd <= MAX_SND_WINDOW
    ensures var t3 := AdvanceOnAck(UpdateSendWindow(NoteAck(t, s, env), s), env);
      && InFlight(t3.snd) <= InFlight(t.snd) && t3.snd.nxt == t.snd.nxt && t3.snd.wnd <= MAX_SND_WINDOW
      && t3.snd.una == Lifecycle.NewUna(t, s)
      && HandleAck(t, s, env) == FlushSend(t3, env)
  {
    Lifecycle.NoteAckUna(t, s, env);
    var t1 := NoteAck(t, s, env);
    assert t1.snd.wnd == t.snd.wnd;
    WindowFlow(t1, s);
    Lifecycle.WindowKeepsState(t1, s);
    AdvanceFrame(UpdateSendWindow(t1, s), env);
  }

  lemma {:induction false} TakenFlushed(t: Tcb, s: Segment, env: Env)
    requires FlowOk(t) && InFlight(t.snd) < HALF && Lifecycle.TakesAck(t, s)
    ensures Flushed(OnSynchronized(t, s, env))
  {
    Lifecycle.TimestampKeepsState(t, s);
    var t1 := UpdateTsRecent(t, s);
    AckShrinks(t1, s, env);
    FlushLeaves(AdvanceOnAck(UpdateSendWindow(NoteAck(t1, s, env), s), env), env);
    TakenIs(t, s, env);
    Lifecycle.HandleAckState(t1, s, env);
    TextFinFlushed(HandleAck(t1, s, env), s, env);
  }

  lemma {:induction false} TakenIs(t: Tcb, s: Segment, env: Env)
    requires Lifecycle.TakesAck(t, s)
    ensures OnSynchronized(t, s, env) == TextAndFin(HandleAck(UpdateTsRecent(t, s), s, env), s, env)
  {
    Lifecycle.TakenIsAcceptable(t, s, env);
    AcceptableTaken(t, s, env);
  }

  lemma {:induction false} TextFinFlushed(t: Tcb, s: Segment, env: Env)
    requires Flushed(t) && t.state != SynReceived
    ensures Flushed(TextAndFin(t, s, env))
  {
    TextFinOpens(t, s, env);
  }

  lemma {:induction false} TextFinOpens(t: Tcb, s: Segment, env: Env)
    ensures var t' := TextAndFin(t, s, env);
      t'.snd == t.snd && (OpenForData(t'.state) ==> OpenForData(t.state) || t.state == SynReceived)
  {
    Lifecycle.TextFinState(t, s, env);
  }

  lemma {:induction false} ArrivalFlushed(t: Tcb, s: Segment, env: Env)
    requires Flushed(t) && FlowOk(t) && FlightOk(t) && SOkBeforeFin(t) && WndOk(t.rcv)
    ensures Flushed(OnSegment(t, s, env))
  {
    if t.state == Closed || t.state == Listen || t.state == SynSent { OpeningFlushed(t, s, env); }
    else if s.flags.rst { Lifecycle.RstState(t, s, env); }
    else if Lifecycle.TakesAck(t, s) { TakenFlushed(t, s, env); }
    else { Lifecycle.OtherwiseQuiet(t, s, env); }
  }

  /** The handshake leaves nothing to send. */
  lemma {:induction false} OpeningFlushed(t: Tcb, s: Segment, env: Env)
    requires SOkBeforeFin(t) && (t.state == Closed || t.state == Listen || t.state == SynSent)
    ensures Flushed(OnSegment(t, s, env))
  {
    if t.state == Closed { ClosedFacts(t, s, env); }
    else if t.state == Listen { ListenFacts(t, s, env); RstFacts(t, s.ackNum, env); }
    else { SynSentFlushed(t, s, env); }
  }

  lemma {:induction false} SynSentFlushed(t: Tcb, s: Segment, env: Env)
    requires t.state == SynSent && t.snd.buf == []
    ensures Flushed(OnSynSent(t, s, env))
  {
    SynSentFacts(t, s, env);
    RstFacts(t, s.ackNum, env);
    SynSentBuffer(t, s, env);
  }

  lemma {:induction false} SynSentBuffer(t: Tcb, s: Segment, env: Env)
    ensures OnSynSent(t, s, env).snd.buf == t.snd.buf
  {
  }

  lemma {:induction false} SendFlushed(t: Tcb, data: seq<u8>, env: Env)
    requires Flushed(t) && FlowOk(t) && FlightOk(t) && |t.snd.buf| + |data| <= SEND_LIMIT
    ensures Flushed(Send(t, data, env))
  {
    if SendOutcome(t.state, |data|).Sent? { FlushLeaves(t.(snd := t.snd.(buf := t.snd.buf + data)), env); }
  }

  lemma {:induction false} StepKeepsFlushed(t: Tcb, i: Input, env: Env, t': Tcb)
    requires Flushed(t) && FreeOk(t) && IsStep(t, i, env, t')
    ensures Flushed(t')
  {
    match i
    case CallSend(data) => SendFlushed(t, data, env);
    case CallRecv(max) => RecvFrame(t, max, env);
    case CallClose => Lifecycle.CloseState(t, env);
    case TimerTick => TickFlushed(t, env);
    case Arrive(s) => ArrivalFlushed(t, s, env);
  }

  /** In every reachable ESTABLISHED or CLOSE-WAIT state with an open window, data that is
      still unsent either finds no room in the windows, or is less than a full segment and
      less than half the largest window while Nagle is on and earlier data is in flight. */
  lemma {:induction false} NothingKeptBack(s: Start, ts: seq<Tcb>, inputs: seq<Input>, envs: seq<Env>, n: nat)
    requires RunFrom(s, ts, inputs, envs) && n < |ts|
    ensures Flushed(ts[n])
  {
    if n == 0 {
      OpenedSetting(s);
    } else {
      NothingKeptBack(s, ts, inputs, envs, n - 1);
      FlushedAt(s, ts, inputs, envs, n - 1);
    }
  }

  lemma {:induction false} FlushedAt(s: Start, ts: seq<Tcb>, inputs: seq<Input>, envs: seq<Env>, k: nat)
    requires RunFrom(s, ts, inputs, envs) && k < |inputs| && Flushed(ts[k])
    ensures Flushed(ts[k + 1])
  {
    ReachableOk(s, ts, inputs, envs, k);
    assert StepAt(ts, inputs, envs, k);
    StepKeepsFlushed(ts[k], inputs[k], envs[k], ts[k + 1]);
  }

  // ----- settings -----

  /** TCP_NODELAY and the peer's maximum segment size stay. */
  predicate SettingsKept(t: Tcb, t': Tcb) {
    t'.snd.nagleDisabled == t.snd.nagleDisabled && t'.snd.mss == t.snd.mss
  }

  lemma {:induction false} NoteAckCalm(t: Tcb, s: Segment, env: Env)
    ensures SettingsKept(t, NoteAck(t, s, env))
  {
  }

  lemma {:induction false} AckSettings(t: Tcb, s: Segment, env: Env)
    requires t.snd.wnd <= MAX_SND_WINDOW && InFlight(t.snd) < HALF
    ensures SettingsKept(t, HandleAck(t, s, env))
  {
    NoteAckCalm(t, s, env);
    AckShrinks(t, s, env);
    var t3 := AdvanceOnAck(UpdateSendWindow(NoteAck(t, s, env), s), env);
    AdvanceFrame(UpdateSendWindow(NoteAck(t, s, env), s), env);
    FlushNagle(t3, t3.snd.nxt == t3.snd.una, env);
  }

  lemma {:induction false} SynchronizedSettings(t: Tcb, s: Segment, env: Env)
    requires FlowOk(t) && InFlight(t.snd) < HALF && WndOk(t.rcv)
    ensures SettingsKept(t, OnSynchronized(t, s, env))
  {
    if s.flags.rst { Lifecycle.RstState(t, s, env); }
    else if Lifecycle.TakesAck(t, s) {
      Lifecycle.TimestampKeepsState(t, s);
      var t1 := UpdateTsRecent(t, s);
      AckSettings(t1, s, env);
      TextFinOpens(HandleAck(t1, s, env), s, env);
      TakenIs(t, s, env);
    } else { Lifecycle.OtherwiseQuiet(t, s, env); }
  }

  lemma {:induction false} OpeningSettings(t: Tcb, s: Segment, env: Env)
    requires t.state == Closed || t.state == Listen || t.state == SynSent
    ensures OnSegment(t, s, env).snd.nagleDisabled == t.snd.nagleDisabled
    ensures t.state == Closed ==> SettingsKept(t, OnSegment(t, s, env))
  {
  }

  lemma {:induction false} TickSettings(t: Tcb, env: Env)
    ensures SettingsKept(t, Tick(t, env))
  {
    RetransmitWindow(t, env);
    var t2 := CheckRetransmit(CheckTimeWait(t, env), env);
    ProbeStage(t2, env);
    var t3 := CheckPersist(t2, env);
    OverrideSettings(t3, env);
    DelAckStage(CheckOverride(t3, env), env);
  }

  lemma {:induction false} OverrideSettings(t: Tcb, env: Env)
    ensures SettingsKept(t, CheckOverride(t, env))
  {
  }

  lemma {:induction false} SendSettings(t: Tcb, data: seq<u8>, env: Env)
    requires FlowOk(t) && FlightOk(t) && |t.snd.buf| + |data| <= SEND_LIMIT
    ensures SettingsKept(t, Send(t, data, env))
  {
    if SendOutcome(t.state, |data|).Sent? {
      var t1 := t.(snd := t.snd.(buf := t.snd.buf + data));
      FlushNagle(t1, t1.snd.nxt == t1.snd.una, env);
    }
  }

  /** Only the handshake learns the peer's maximum; nothing changes TCP_NODELAY. */
  lemma {:induction false} StepSettings(t: Tcb, i: Input, env: Env, t': Tcb)
    requires FreeOk(t) && IsStep(t, i, env, t')
    ensures t'.snd.nagleDisabled == t.snd.nagleDisabled
    ensures t.state != Listen && t.state != SynSent ==> SettingsKept(t, t')
  {
    match i
    case CallSend(data) => SendSettings(t, data, env);
    case CallRecv(max) => RecvFrame(t, max, env);
    case CallClose =>
    case TimerTick => TickSettings(t, env);
    case Arrive(s) =>
      if t.state == Closed || t.state == Listen || t.state == SynSent { OpeningSettings(t, s, env); }
      else { SynchronizedSettings(t, s, env); }
  }

  lemma {:induction false} OpenedSetting(s: Start)
    ensures Opened(s).snd.nagleDisabled == s.noDelay && Flushed(Opened(s))
  {
  }

  lemma {:induction false} NoDelayKept(s: Start, ts: seq<Tcb>, inputs: seq<Input>, envs: seq<Env>, n: nat)
    requires RunFrom(s, ts, inputs, envs) && n < |ts|
    ensures ts[n].snd.nagleDisabled == s.noDelay
  {
    if n == 0 {
      OpenedSetting(s);
    } else {
      NoDelayKept(s, ts, inputs, envs, n - 1);
      SettingAt(s, ts, inputs, envs, n - 1);
    }
  }

  lemma {:induction false} SettingAt(s: Start, ts: seq<Tcb>, inputs: seq<Input>, envs: seq<Env>, k: nat)
    requires RunFrom(s, ts, inputs, envs) && k < |inputs|
    ensures ts[k + 1].snd.nagleDisabled == ts[k].snd.nagleDisabled
  {
    ReachableOk(s, ts, inputs, envs, k);
    assert StepAt(ts, inputs, envs, k);
    StepSettings(ts[k], inputs[k], envs[k], ts[k + 1]);
  }

  /** And Send adds no small segment to data in flight unless Nagle is off. */
  lemma {:induction false} SendAvoidsSmall(s: Start, ts: seq<Tcb>, inputs: seq<Input>, envs: seq<Env>, n: nat)
    requires RunFrom(s, ts, inputs, envs) && n < |inputs| && inputs[n].CallSend?
    requires ts[n].snd.una != ts[n].snd.nxt && !s.noDelay
    ensures NoneSmall(ts[n + 1].wire, |ts[n].wire|, ts[n].snd)
  {
    ReachableOk(s, ts, inputs, envs, n);
    NoDelayKept(s, ts, inputs, envs, n);
    assert StepAt(ts, inputs, envs, n);
    SendSized(ts[n], inputs[n].data, envs[n]);
  }

  lemma {:induction false} SendSized(t: Tcb, data: seq<u8>, env: Env)
    requires FlowOk(t) && FlightOk(t) && |t.snd.buf| + |data| <= SEND_LIMIT
    requires t.snd.una != t.snd.nxt && !t.snd.nagleDisabled
    ensures NoneSmall(Send(t, data, env).wire, |t.wire|, t.snd)
  {
    if SendOutcome(t.state, |data|).Sent? { FlushNagle(t.(snd := t.snd.(buf := t.snd.buf + data)), false, env); }
  }
}
