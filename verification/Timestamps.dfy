/** Timestamps over runs: what is written is stamped, old segments are refused, and the
    newest timestamp seen never goes back (sections 3.2, 4.3 and 5.3 of RFC 7323;
    tcp/transport/paws.go, statemachine.go:347-425, 640-692). */
module Timestamps {
  import opened SeqNum
  import opened Reassembly
  import opened Options
  import opened Segments
  import opened Tcb
  import opened StateMachine
  import opened SenderSteps
  import opened Log
  import opened Runs
  import Lifecycle

  /** A segment with a timestamp older than the newest one seen. */
  predicate Old(t: Tcb, s: Segment) {
    && t.neg.tsOk && s.opts.Options? && s.opts.o.hasTimestamp && Dist(s.opts.o.tsVal, t.neg.tsRecent) > 0
  }

  /** An old segment is answered by one ACK of RCV.NXT and otherwise has no effect on data,
      state or timestamps, whatever else it carries. */
  lemma {:induction false} OldRefused(t: Tcb, s: Segment, env: Env)
    requires t.state == SynReceived || Synchronized(t.state)
    requires Old(t, s) && !s.flags.rst && !(t.state == TimeWait && s.flags.fin)
    ensures var t' := OnSegment(t, s, env);
      && t'.snd == t.snd && t'.rcv == t.rcv && t'.state == t.state && t'.neg == t.neg && t'.queue == t.queue
      && |t'.wire| == |t.wire| + 1 && t'.wire[..|t.wire|] == t.wire
      && t'.wire[|t.wire|].flags == F_ACK && t'.wire[|t.wire|].ackNum == t.rcv.nxt && t'.wire[|t.wire|].payload == []
  {
  }

  /** A segment whose timestamp is taken: acceptable, not old, and not beyond Last.ACK.sent. */
  predicate Renews(t: Tcb, s: Segment) {
    && t.neg.tsOk && s.opts.Options? && s.opts.o.hasTimestamp && Dist(s.opts.o.tsVal, t.neg.tsRecent) <= 0
    && Acceptable(t.rcv, s) && !s.flags.rst && !s.flags.syn && !(t.state == TimeWait && s.flags.fin)
    && Dist(s.seqNum, t.lastAckSent) >= 0
  }

  /** Exactly such a segment sets the newest timestamp, to its own. */
  lemma {:induction false} RenewedIff(t: Tcb, s: Segment, env: Env)
    requires t.state == SynReceived || Synchronized(t.state)
    ensures OnSegment(t, s, env).neg == if Renews(t, s) then t.neg.(tsRecent := s.opts.o.tsVal) else t.neg
  {
    SynchronizedWrote(t, s, env);
    CompareIsSign(s.seqNum, t.lastAckSent);
    if s.opts.Options? { CompareIsSign(s.opts.o.tsVal, t.neg.tsRecent); }
    if (t.state == TimeWait && s.flags.fin && !s.flags.rst) || PawsStale(t, s)
       || (!Acceptable(t.rcv, s) && !s.flags.rst) || s.flags.rst || s.flags.syn {
      AnswerWrote(t, s, env);
    } else {
      AcceptableWrote(UpdateTsRecent(t, s), s, env);
    }
  }

  /** Nothing else changes what was agreed. */
  lemma {:induction false} OthersKeep(t: Tcb, i: Input, env: Env)
    requires HasRoom(t, i) && !i.Arrive?
    ensures Step(t, i, env).neg == t.neg
  {
    match i
    case CallSend(data) => SendWrote(t, data, env);
    case CallRecv(max) => RecvWrote(t, max, env);
    case CallClose => CloseWrote(t, env);
    case TimerTick => TickWrote(t, env);
  }

  lemma {:induction false} StepForward(t: Tcb, i: Input, env: Env)
    requires HasRoom(t, i) && t.state != Listen && t.state != SynSent
    ensures var t' := Step(t, i, env);
      t'.neg.tsOk == t.neg.tsOk && Dist(t'.neg.tsRecent, t.neg.tsRecent) <= 0
  {
    if !i.Arrive? { OthersKeep(t, i, env); }
    else if t.state == Closed { ClosedWrote(t, i.s, env); }
    else { RenewedIff(t, i.s, env); }
  }

  /** Over every run, past the handshake, the newest timestamp never goes back on its circle. */
  lemma {:induction false} NewestNeverBack(s: Start, ts: seq<Tcb>, inputs: seq<Input>, envs: seq<Env>, k: nat)
    requires RunFrom(s, ts, inputs, envs) && k < |inputs| && ts[k].state != Listen && ts[k].state != SynSent
    ensures Dist(ts[k + 1].neg.tsRecent, ts[k].neg.tsRecent) <= 0 && ts[k + 1].neg.tsOk == ts[k].neg.tsOk
  {
    assert StepAt(ts, inputs, envs, k);
    StepForward(ts[k], inputs[k], envs[k]);
  }

  // ----- what is written -----

  /** Everything a step writes that is neither SYN nor RST carries the time of that step and
      echoes the newest timestamp, exactly if timestamps were agreed. */
  lemma {:induction false} WritesAreStamped(s: Start, ts: seq<Tcb>, inputs: seq<Input>, envs: seq<Env>, n: nat, k: nat)
    requires RunFrom(s, ts, inputs, envs) && n < |inputs| && |ts[n].wire| <= k < |ts[n + 1].wire|
    ensures ts[n].wire <= ts[n + 1].wire && Stamped(ts[n + 1].wire[k], ts[n + 1].neg, envs[n].now)
  {
    assert StepAt(ts, inputs, envs, n);
    StepWrites(ts[n], inputs[n], envs[n], ts[n + 1]);
    assert ts[n + 1].wire[|ts[n].wire|..][k - |ts[n].wire|] == ts[n + 1].wire[k];
  }

  lemma {:induction false} OpenedLog(s: Start)
    ensures Opened(s).lastAckSent == LastAcked(Opened(s).wire, 0)
  {
    if s.active { assert Opened(s).wire[..0] == []; }
  }

  lemma {:induction false} LogAt(s: Start, ts: seq<Tcb>, inputs: seq<Input>, envs: seq<Env>, k: nat)
    requires RunFrom(s, ts, inputs, envs) && k < |inputs|
    requires ts[k].lastAckSent == LastAcked(ts[k].wire, 0)
    ensures ts[k + 1].lastAckSent == LastAcked(ts[k + 1].wire, 0)
  {
    assert StepAt(ts, inputs, envs, k);
    StepWrites(ts[k], inputs[k], envs[k], ts[k + 1]);
    LogJoins(ts[k], ts[k + 1], envs[k].now);
  }

  lemma {:induction false} LogJoins(t: Tcb, t': Tcb, now: Time)
    requires StepWrote(t, t', now) && t.lastAckSent == LastAcked(t.wire, 0)
    ensures t'.lastAckSent == LastAcked(t'.wire, 0)
  {
    var more := t'.wire[|t.wire|..];
    assert t'.wire == t.wire + more;
    LastAckedJoin(t.wire, more, 0);
  }

  /** Over every run Last.ACK.sent is the acknowledgement number of the last segment with an
      ACK that went out. */
  lemma {:induction false} LastAckIsWritten(s: Start, ts: seq<Tcb>, inputs: seq<Input>, envs: seq<Env>, n: nat)
    requires RunFrom(s, ts, inputs, envs) && n < |ts|
    ensures ts[n].lastAckSent == LastAcked(ts[n].wire, 0)
  {
    if n == 0 {
      OpenedLog(s);
    } else {
      LastAckIsWritten(s, ts, inputs, envs, n - 1);
      LogAt(s, ts, inputs, envs, n - 1);
    }
  }

  /** So in every reachable synchronized state the last acknowledgement on the wire covers all
      that was received, unless the delayed-ACK timer runs. */
  lemma {:induction false} ReceivedIsAcked(s: Start, ts: seq<Tcb>, inputs: seq<Input>, envs: seq<Env>, n: nat)
    requires RunFrom(s, ts, inputs, envs) && n < |ts| && Synchronized(ts[n].state)
    ensures LastAcked(ts[n].wire, 0) == ts[n].rcv.nxt || ts[n].delAck.armed
  {
    LastAckIsWritten(s, ts, inputs, envs, n);
    OwedAckHasTimer(s, ts, inputs, envs, n);
  }
}
