/** The sender's two flow-control timers are not postponed: a running override or persist
    timer keeps its deadline, whatever is sent or arrives, until it fires or is no longer
    needed (tcp/transport/flowcontrol.go:86-165). */
module Timers {
  import opened SeqNum
  import opened Reassembly
  import opened Segments
  import opened Tcb
  import opened StateMachine
  import opened Frames
  import opened SenderSteps
  import opened FlowControl
  import opened Runs
  import opened Retries
  import opened Nagle
  import opened PeerWindow
  import Lifecycle

  /** A timer that runs before and after has kept its deadline (the override timer: unless
      something was sent); one that was started was started now. */
  predicate Punctual(t: Tcb, t': Tcb, now: Time) {
    && (t'.override.armed && t'.override != t.override ==>
          t'.override.deadline == now + OVERRIDE_TIMEOUT && (t.override.armed ==> t'.snd.nxt != t.snd.nxt))
    && (t'.persist.armed && t.persist.armed ==> t'.persist == t.persist)
    && (t'.persist.armed && !t.persist.armed ==> t'.persist.deadline == now + PersistInterval(t'.persist.backoff))
  }

  predicate SameTimers(t: Tcb, t': Tcb) {
    t'.override == t.override && t'.persist == t.persist && t'.snd.nxt == t.snd.nxt
  }

  lemma {:induction false} FlushPunctual(t: Tcb, idle: bool, env: Env)
    requires t.snd.wnd <= MAX_SND_WINDOW && InFlight(t.snd) < HALF
    ensures Punctual(t, FlushFrom(t, idle, env), env.now)
    decreases |t.snd.buf| - InFlight(t.snd)
  {
    if MaySend(t.snd, idle) {
      EmitProgress(t, idle, env);
      UsableBound(t.snd);
      var t1 := EmitNext(t, env);
      EmitTimers(t, env);
      FlushPunctual(t1, idle, env);
      FlushNagle(t1, idle, env);
    }
  }

  lemma {:induction false} EmitTimers(t: Tcb, env: Env)
    requires Unsent(t.snd)
    ensures EmitNext(t, env).persist == t.persist && !EmitNext(t, env).override.armed
  {
  }

  lemma {:induction false} CallsPunctual(t: Tcb, data: seq<u8>, max: nat, env: Env)
    requires FlowOk(t) && FlightOk(t)
    ensures SameTimers(t, Recv(t, max, env))
    ensures Close(t, env).override == t.override && Close(t, env).persist == t.persist
    ensures |t.snd.buf| + |data| <= SEND_LIMIT ==> Punctual(t, Send(t, data, env), env.now)
  {
    if |t.snd.buf| + |data| <= SEND_LIMIT && SendOutcome(t.state, |data|).Sent? {
      var t1 := t.(snd := t.snd.(buf := t.snd.buf + data));
      FlushPunctual(t1, t1.snd.nxt == t1.snd.una, env);
    }
  }

  lemma {:induction false} NoteAckTimers(t: Tcb, s: Segment, env: Env)
    ensures SameTimers(t, NoteAck(t, s, env))
  {
  }

  lemma {:induction false} UpdateTimers(t: Tcb, s: Segment, env: Env)
    ensures var t' := AdvanceOnAck(UpdateSendWindow(t, s), env);
      && t'.override == t.override && t'.snd.nxt == t.snd.nxt
      && (t'.persist == t.persist || (!t'.persist.armed && t'.snd.wnd > 0))
  {
  }

  lemma {:induction false} AckPunctual(t: Tcb, s: Segment, env: Env)
    requires FlowOk(t) && InFlight(t.snd) < HALF
    ensures Punctual(t, HandleAck(t, s, env), env.now)
  {
    var t1 := NoteAck(t, s, env);
    NoteAckTimers(t, s, env);
    UpdateTimers(t1, s, env);
    AckShrinks(t, s, env);
    var t3 := AdvanceOnAck(UpdateSendWindow(t1, s), env);
    FlushPunctual(t3, t3.snd.nxt == t3.snd.una, env);
    FlushPersist(t3, t3.snd.nxt == t3.snd.una, env);
  }

  lemma {:induction false} TextFinSame(t: Tcb, s: Segment, env: Env)
    ensures SameTimers(t, TextAndFin(t, s, env))
  {
    TextFinOpens(t, s, env);
    TextTimers(t, s, env);
    FinSame(AcceptText(t, s, env), env);
  }

  lemma {:induction false} FinSame(t: Tcb, env: Env)
    ensures HandleFin(t, env).override == t.override && HandleFin(t, env).persist == t.persist
  {
  }

  lemma {:induction false} ArrivalPunctual(t: Tcb, s: Segment, env: Env)
    requires FlowOk(t) && FlightOk(t) && t.rcv.wnd <= Reassembly.MAX_WINDOW
    requires t.state == SynReceived || Synchronized(t.state)
    ensures Punctual(t, OnSegment(t, s, env), env.now)
  {
    if Lifecycle.TakesAck(t, s) {
      TakenIs(t, s, env);
      StampSame(t, s);
      var t1 := UpdateTsRecent(t, s);
      AckPunctual(t1, s, env);
      TextFinSame(HandleAck(t1, s, env), s, env);
    } else {
      OtherSame(t, s, env);
    }
  }

  lemma {:induction false} StampSame(t: Tcb, s: Segment)
    ensures var t1 := UpdateTsRecent(t, s);
      SameTimers(t, t1) && t1.snd == t.snd && t1.state == t.state
  {
  }

  lemma {:induction false} OtherSame(t: Tcb, s: Segment, env: Env)
    requires !Lifecycle.TakesAck(t, s)
    ensures var t' := OnSynchronized(t, s, env);
      t'.override == t.override && t'.persist == t.persist
  {
    if (t.state == TimeWait && s.flags.fin && !s.flags.rst) || PawsStale(t, s)
       || (!Acceptable(t.rcv, s) && !s.flags.rst) || s.flags.rst || s.flags.syn {
      AnswerTimers(t, s, env);
    } else {
      StampSame(t, s);
      RefuseTimers(UpdateTsRecent(t, s), s, env);
    }
  }

  /** A tick moves only a timer that is due: the persist timer by its next interval, the
      override timer is done. */
  lemma {:induction false} TickPunctual(t: Tcb, env: Env)
    ensures var t' := Tick(t, env);
      && (t'.persist == t.persist ||
          (t.persist.armed && t.persist.deadline <= env.now && t'.persist.armed
           && t'.persist.deadline == env.now + PersistInterval(t.persist.backoff + 1)))
      && (t'.override == t.override || (t.override.armed && t.override.deadline <= env.now && !t'.override.armed))
  {
    var t2 := CheckRetransmit(CheckTimeWait(t, env), env);
    RetransmitSame(t, env);
    ProbeTimer(t2, env);
    var t3 := CheckPersist(t2, env);
    OverrideTimer(t3, env);
    DelAckSame(CheckOverride(t3, env), env);
  }

  lemma {:induction false} RetransmitSame(t: Tcb, env: Env)
    ensures SameTimers(t, CheckRetransmit(CheckTimeWait(t, env), env))
  {
  }

  lemma {:induction false} ProbeTimer(t: Tcb, env: Env)
    ensures var t' := CheckPersist(t, env);
      && t'.override == t.override
      && (t'.persist == t.persist ||
          (t.persist.armed && t.persist.deadline <= env.now && t'.persist.armed
           && t'.persist.deadline == env.now + PersistInterval(t.persist.backoff + 1)))
  {
  }

  lemma {:induction false} OverrideTimer(t: Tcb, env: Env)
    ensures var t' := CheckOverride(t, env);
      && t'.persist == t.persist
      && (t'.override == t.override || (t.override.armed && t.override.deadline <= env.now && !t'.override.armed))
  {
  }

  lemma {:induction false} DelAckSame(t: Tcb, env: Env)
    ensures SameTimers(t, CheckDelAck(t, env))
  {
  }

  /** Over every run: between two ticks a running timer is not postponed, and a timer that
      was started runs from the moment it was started. */
  lemma {:induction false} NotPostponed(s: Start, ts: seq<Tcb>, inputs: seq<Input>, envs: seq<Env>, k: nat)
    requires RunFrom(s, ts, inputs, envs) && k < |inputs|
    requires ts[k].state == SynReceived || Synchronized(ts[k].state)
    requires inputs[k].CallSend? || inputs[k].CallRecv? || inputs[k].Arrive?
    ensures Punctual(ts[k], ts[k + 1], envs[k].now)
  {
    ReachableOk(s, ts, inputs, envs, k);
    assert StepAt(ts, inputs, envs, k);
    match inputs[k]
    case CallSend(data) => CallsPunctual(ts[k], data, 0, envs[k]);
    case CallRecv(max) => CallsPunctual(ts[k], [], max, envs[k]);
    case Arrive(s) => ArrivalPunctual(ts[k], s, envs[k]);
  }
}
