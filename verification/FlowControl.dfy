/** Flow control: transmissions respect both windows, and no state with unsent data is left
    without a pending timer (tcp/transport/flowcontrol.go, data.go:61-122). */
module FlowControl {
  import opened SeqNum
  import opened Reassembly
  import opened Segments
  import opened Congestion
  import opened Tcb
  import opened StateMachine
  import opened SenderRecords
  import opened SenderSteps

  // ----- what one flush writes -----

  function Payload(segs: seq<Segment>): seq<u8> {
    if segs == [] then [] else segs[0].payload + Payload(segs[1..])
  }

  /** New data segments, in order and without gap from sequence number `from`. */
  predicate DataRun(segs: seq<Segment>, from: u32) {
    segs == [] ||
    (&& segs[0].flags == F_PSH_ACK && segs[0].seqNum == from && 1 <= |segs[0].payload| <= DEFAULT_MSS
     && DataRun(segs[1..], Add(from, |segs[0].payload|)))
  }

  lemma {:induction false} EmitWrites(t: Tcb, idle: bool, env: Env) returns (s: Segment)
    requires MaySend(t.snd, idle)
    ensures var t', off := EmitNext(t, env), InFlight(t.snd);
      && t'.wire == t.wire + [s]
      && s.flags == F_PSH_ACK && s.seqNum == t.snd.nxt && 1 <= |s.payload| <= DEFAULT_MSS
      && off + |s.payload| <= |t.snd.buf| && s.payload == t.snd.buf[off..off + |s.payload|]
      && t'.snd == t.snd.(nxt := Add(t.snd.nxt, |s.payload|)) && InFlight(t'.snd) == off + |s.payload|
      && t'.state == t.state && t'.persist == t.persist
  {
    EmitProgress(t, idle, env);
    s := EmitNext(t, env).wire[|t.wire|];
  }

  /** Usable room never reaches past either window. */
  lemma {:induction false} UsableBound(snd: Sender)
    requires snd.wnd <= MAX_SND_WINDOW && InFlight(snd) < HALF
    ensures SendUsable(snd) > 0 ==> InFlight(snd) + SendUsable(snd) <= Min(snd.cong.cwnd, snd.wnd)
    ensures SendUsable(snd) == 0 && snd.wnd > 0 && snd.cong.cwnd > 0 ==> InFlight(snd) > 0
  {
  }

  lemma {:induction false} SliceSplit(buf: seq<u8>, a: nat, b: nat, c: nat)
    requires a <= b <= c <= |buf|
    ensures buf[a..b] + buf[b..c] == buf[a..c]
  {
  }

  /** From t to t' exactly the segments segs were written: consecutive new data, the next
      bytes of the send buffer, with the flight never above both windows' minimum. */
  predicate Wrote(t: Tcb, t': Tcb, segs: seq<Segment>) {
    && t'.wire == t.wire + segs && DataRun(segs, t.snd.nxt)
    && t'.snd == t.snd.(nxt := t'.snd.nxt) && t'.state == t.state
    && InFlight(t.snd) <= InFlight(t'.snd)
    && (if segs == [] then t'.snd == t.snd
        else
          && InFlight(t'.snd) <= Min(t.snd.cong.cwnd, t.snd.wnd) && InFlight(t'.snd) <= |t.snd.buf|
          && Payload(segs) == t.snd.buf[InFlight(t.snd)..InFlight(t'.snd)])
  }

  lemma {:induction false} WroteCons(t: Tcb, s: Segment, t1: Tcb, rest: seq<Segment>, t': Tcb)
    requires t1.wire == t.wire + [s] && t1.state == t.state
    requires s.flags == F_PSH_ACK && s.seqNum == t.snd.nxt && 1 <= |s.payload| <= DEFAULT_MSS
    requires t1.snd == t.snd.(nxt := Add(t.snd.nxt, |s.payload|)) && InFlight(t1.snd) == InFlight(t.snd) + |s.payload|
    requires InFlight(t1.snd) <= Min(Min(t.snd.cong.cwnd, t.snd.wnd), |t.snd.buf|)
    requires s.payload == t.snd.buf[InFlight(t.snd)..InFlight(t1.snd)]
    requires Wrote(t1, t', rest)
    ensures Wrote(t, t', [s] + rest)
  {
    var segs := [s] + rest;
    assert t1.wire + rest == t.wire + segs && segs[1..] == rest;
    if rest != [] {
      SliceSplit(t.snd.buf, InFlight(t.snd), InFlight(t1.snd), InFlight(t'.snd));
    } else {
      assert Payload(segs) == s.payload + [];
    }
  }

  /** A flush writes consecutive segments carrying exactly the next bytes of the buffer,
      and never raises the flight above both windows' minimum. */
  lemma {:induction false} FlushWrites(t: Tcb, idle: bool, env: Env) returns (segs: seq<Segment>)
    requires t.snd.wnd <= MAX_SND_WINDOW && InFlight(t.snd) < HALF
    ensures Wrote(t, FlushFrom(t, idle, env), segs)
    decreases |t.snd.buf| - InFlight(t.snd)
  {
    if MaySend(t.snd, idle) {
      UsableBound(t.snd);
      EmitProgress(t, idle, env);
      var s := EmitWrites(t, idle, env);
      var t1 := EmitNext(t, env);
      var rest := FlushWrites(t1, idle, env);
      segs := [s] + rest;
      WroteCons(t, s, t1, rest, FlushFrom(t1, idle, env));
    } else {
      segs := [];
      StopFrame(t, env);
    }
  }

  lemma {:induction false} StopFrame(t: Tcb, env: Env)
    ensures var t' := StopSending(t, env);
      t'.snd == t.snd && t'.wire == t.wire && t'.state == t.state && t'.queue == t.queue
  {
  }

  // ----- segments and the peer's maximum -----

  /** The size of the next segment: what is unsent, what the windows leave, 1360. */
  function NextSize(snd: Sender): nat {
    if Unsent(snd) then SegmentSize(|snd.buf| - InFlight(snd), SendUsable(snd)) else 0
  }

  lemma {:induction false} UsableShrinks(snd: Sender, n: nat)
    requires snd.wnd <= MAX_SND_WINDOW && InFlight(snd) < HALF && n <= SendUsable(snd)
    ensures SendUsable(snd.(nxt := Add(snd.nxt, n))) <= SendUsable(snd)
  {
    UsableBound(snd);
  }

  lemma {:induction false} EmitSizes(t: Tcb, idle: bool, env: Env)
    requires MaySend(t.snd, idle) && t.snd.wnd <= MAX_SND_WINDOW && InFlight(t.snd) < HALF
    ensures var t' := EmitNext(t, env);
      && t'.wire[..|t.wire|] == t.wire && |t'.wire| == |t.wire| + 1 && |t'.wire[|t.wire|].payload| == NextSize(t.snd)
      && t'.snd.wnd == t.snd.wnd && t'.snd.mss == t.snd.mss && InFlight(t'.snd) < HALF
         && NextSize(t'.snd) <= NextSize(t.snd)
  {
    EmitProgress(t, idle, env);
    UsableBound(t.snd);
    UsableShrinks(t.snd, NextSize(t.snd));
  }

  /** A segment written after the first n carries more than mss bytes. */
  ghost predicate Oversized(wire: seq<Segment>, n: nat, mss: nat) {
    exists k :: n <= k < |wire| && |wire[k].payload| > mss
  }

  lemma {:induction false} OversizedFrom(wire: seq<Segment>, n: nat, mss: nat)
    requires n < |wire|
    ensures Oversized(wire, n, mss) <==> |wire[n].payload| > mss || Oversized(wire, n + 1, mss)
  {
  }

  /** A flush writes a segment larger than the peer's maximum if and only if it may send and
      the peer's maximum is below the unsent bytes, the usable window and 1360 alike. */
  lemma {:induction false} FlushOversizeIff(t: Tcb, idle: bool, env: Env)
    requires t.snd.wnd <= MAX_SND_WINDOW && InFlight(t.snd) < HALF
    ensures var t' := FlushFrom(t, idle, env);
      && |t.wire| <= |t'.wire| && t'.wire[..|t.wire|] == t.wire
      && (Oversized(t'.wire, |t.wire|, t.snd.mss) <==> MaySend(t.snd, idle) && t.snd.mss < NextSize(t.snd))
    decreases |t.snd.buf| - InFlight(t.snd)
  {
    if MaySend(t.snd, idle) {
      EmitProgress(t, idle, env);
      EmitSizes(t, idle, env);
      var t1, t' := EmitNext(t, env), FlushFrom(t, idle, env);
      FlushOversizeIff(t1, idle, env);
      PrefixKept(t.wire, t1.wire, t'.wire);
      OversizedFrom(t'.wire, |t.wire|, t.snd.mss);
    }
  }

  /** The other two senders of new data: the forced transmission skips Nagle and
      silly-window avoidance, the probe is one byte. */
  lemma {:induction false} OverrideOversizeIff(t: Tcb, env: Env)
    requires t.snd.wnd <= MAX_SND_WINDOW && InFlight(t.snd) < HALF
    ensures Oversized(FireOverride(t, env).wire, |t.wire|, t.snd.mss)
      <==> Unsent(t.snd) && SendUsable(t.snd) > 0 && t.snd.mss < NextSize(t.snd)
  {
    var t' := FireOverride(t, env);
    if Unsent(t.snd) && SendUsable(t.snd) != 0 {
      assert |t'.wire| == |t.wire| + 1 && |t'.wire[|t.wire|].payload| == NextSize(t.snd);
    }
  }

  lemma {:induction false} ProbeOversizeIff(t: Tcb, env: Env)
    ensures Oversized(ProbePersist(t, env).wire, |t.wire|, t.snd.mss)
      <==> Unsent(t.snd) && t.snd.wnd == 0 && t.snd.mss == 0
  {
    ProbeWindow(t, env);
    var t' := ProbePersist(t, env);
    if t' != t { assert |t'.wire[|t.wire|].payload| == 1; }
  }

  lemma {:induction false} PrefixKept(a: seq<Segment>, b: seq<Segment>, c: seq<Segment>)
    requires |b| == |a| + 1 && b[..|a|] == a && |b| <= |c| && c[..|b|] == b
    ensures c[..|a|] == a && c[|a|] == b[|a|]
  {
    assert c[|a|] == c[..|b|][|a|];
    assert c[..|a|] == c[..|b|][..|a|];
  }

  // ----- no stuck sender -----

  predicate OpenForData(s: State) {
    s == Established || s == CloseWait
  }

  predicate Pending(t: Tcb) {
    t.persist.armed || t.override.armed || t.queue != []
  }

  predicate FlowOk(t: Tcb) {
    && CcOk(t.snd.cong) && t.snd.wnd <= MAX_SND_WINDOW
    && (t.override.armed ==> t.snd.wnd > 0) && (t.persist.armed ==> t.snd.wnd == 0)
    && (t.state == Listen || t.state == SynSent || t.state == SynReceived ==> !t.override.armed && !t.persist.armed)
    && (OpenForData(t.state) && Unsent(t.snd) ==> Pending(t))
  }

  lemma {:induction false} FlushSettles(t: Tcb, idle: bool, env: Env)
    ensures var t' := FlushFrom(t, idle, env);
      && t'.state == t.state && t'.snd.wnd == t.snd.wnd && t'.snd.cong == t.snd.cong
      && (t'.override.armed ==> t'.snd.wnd > 0)
      && ((t.persist.armed ==> t.snd.wnd == 0) ==> (t'.persist.armed ==> t'.snd.wnd == 0))
      && (Unsent(t'.snd) ==> t'.persist.armed || t'.override.armed)
      && (!Unsent(t'.snd) ==> !t'.override.armed && !t'.persist.armed)
    decreases |t.snd.buf| - InFlight(t.snd)
  {
    if MaySend(t.snd, idle) {
      EmitProgress(t, idle, env);
      FlushSettles(EmitNext(t, env), idle, env);
    }
  }

  lemma {:induction false} CcStep(c: Cc, n: nat)
    requires CcOk(c)
    ensures CcOk(OnNewAck(c, n)) && CcOk(OnDupAck(c, n)) && CcOk(OnRtoTimeout(c, n))
  {
  }

  lemma {:induction false} NoteAckFlow(t: Tcb, s: Segment, env: Env)
    requires CcOk(t.snd.cong)
    ensures var t' := NoteAck(t, s, env);
      CcOk(t'.snd.cong) && t'.snd.wnd == t.snd.wnd && t'.persist == t.persist
  {
    CcStep(t.snd.cong, Sub(s.ackNum, t.snd.una));
    CcStep(t.snd.cong, InFlight(t.snd));
  }

  lemma {:induction false} WindowFlow(t: Tcb, s: Segment)
    requires t.snd.wnd <= MAX_SND_WINDOW
    ensures var t' := UpdateSendWindow(t, s);
      && t'.snd.cong == t.snd.cong && t'.snd.wnd <= MAX_SND_WINDOW
      && ((t.persist.armed ==> t.snd.wnd == 0) ==> (t'.persist.armed ==> t'.snd.wnd == 0))
  {
  }

  lemma {:induction false} AdvanceFrame(t: Tcb, env: Env)
    ensures AdvanceOnAck(t, env).snd == t.snd && AdvanceOnAck(t, env).persist == t.persist
    ensures AdvanceOnAck(t, env).state != SynReceived
    ensures AdvanceOnAck(t, env).state == Listen <==> t.state == Listen
    ensures AdvanceOnAck(t, env).state == SynSent <==> t.state == SynSent
  {
  }

  lemma {:induction false} FlushFlow(t: Tcb, idle: bool, env: Env)
    requires CcOk(t.snd.cong) && t.snd.wnd <= MAX_SND_WINDOW && (t.persist.armed ==> t.snd.wnd == 0)
    requires t.state != Listen && t.state != SynSent && t.state != SynReceived
    ensures FlowOk(FlushFrom(t, idle, env))
  {
    FlushSettles(t, idle, env);
  }

  lemma {:induction false} AckFlow(t: Tcb, s: Segment, env: Env)
    requires FlowOk(t) && t.state != Listen && t.state != SynSent && t.state != Closed
    ensures FlowOk(HandleAck(t, s, env))
    ensures var st := HandleAck(t, s, env).state;
      st != Listen && st != SynSent && st != SynReceived
  {
    var t1 := NoteAck(t, s, env);
    NoteAckFlow(t, s, env);
    NoteAckState(t, s, env);
    WindowFlow(t1, s);
    var t2 := UpdateSendWindow(t1, s);
    AdvanceFrame(t2, env);
    var t3 := AdvanceOnAck(t2, env);
    FlushFlow(t3, t3.snd.nxt == t3.snd.una, env);
    FlushSettles(t3, t3.snd.nxt == t3.snd.una, env);
  }

  lemma {:induction false} NoteAckState(t: Tcb, s: Segment, env: Env)
    ensures NoteAck(t, s, env).state == t.state
    ensures UpdateSendWindow(NoteAck(t, s, env), s).state == t.state
  {
  }

  lemma {:induction false} TextFinFlow(t: Tcb, s: Segment, env: Env)
    requires FlowOk(t) && t.state != Listen && t.state != SynSent && t.state != SynReceived
    ensures FlowOk(TextAndFin(t, s, env))
  {
    var t1 := AcceptText(t, s, env);
    TextFrame(t, s, env);
    TextTimers(t, s, env);
    FinFlow(t1, env);
  }

  lemma {:induction false} TextTimers(t: Tcb, s: Segment, env: Env)
    ensures var t' := AcceptText(t, s, env);
      t'.persist == t.persist && t'.override == t.override
  {
  }

  lemma {:induction false} FinFlow(t: Tcb, env: Env)
    requires FlowOk(t) && t.state != Listen && t.state != SynSent && t.state != SynReceived
    ensures FlowOk(HandleFin(t, env))
  {
  }

  lemma {:induction false} SegmentFlow(t: Tcb, s: Segment, env: Env)
    requires FlowOk(t) && SOkBeforeFin(t)
    ensures FlowOk(OnSegment(t, s, env))
  {
    match t.state
    case Closed => ClosedFlow(t, s, env);
    case Listen => ListenFlow(t, s, env);
    case SynSent => SynSentFlow(t, s, env);
    case _ => SynchronizedFlow(t, s, env);
  }

  lemma {:induction false} ClosedFlow(t: Tcb, s: Segment, env: Env)
    requires FlowOk(t) && t.state == Closed
    ensures FlowOk(OnClosed(t, s, env))
  {
  }

  lemma {:induction false} ListenFlow(t: Tcb, s: Segment, env: Env)
    requires FlowOk(t) && t.state == Listen
    ensures FlowOk(OnListen(t, s, env))
  {
  }

  lemma {:induction false} SynAckFlow(t: Tcb, s: Segment, env: Env)
    requires FlowOk(t) && t.state == SynSent && t.snd.buf == []
    requires s.flags.syn && !s.flags.rst && s.flags.ack && !SynAckBad(t, s)
    ensures FlowOk(OnSynSent(t, s, env))
  {
    var t' := OnSynSent(t, s, env);
    assert t'.snd.wnd == s.window && t'.snd.cong == t.snd.cong && t'.snd.buf == [];
    assert t'.persist == t.persist && t'.override == t.override;
  }

  lemma {:induction false} SynSentFlow(t: Tcb, s: Segment, env: Env)
    requires FlowOk(t) && t.state == SynSent && t.snd.buf == []
    ensures FlowOk(OnSynSent(t, s, env))
  {
    if s.flags.syn && !s.flags.rst && s.flags.ack && !SynAckBad(t, s) { SynAckFlow(t, s, env); }
  }

  lemma {:induction false} SynchronizedFlow(t: Tcb, s: Segment, env: Env)
    requires FlowOk(t) && t.state != Listen && t.state != SynSent && t.state != Closed
    ensures FlowOk(OnSynchronized(t, s, env))
  {
    if (t.state == TimeWait && s.flags.fin && !s.flags.rst) || PawsStale(t, s)
       || (!Acceptable(t.rcv, s) && !s.flags.rst) || s.flags.rst || s.flags.syn {
      AnswerFrame(t, s, env);
      AnswerTimers(t, s, env);
    } else {
      var t1 := UpdateTsRecent(t, s);
      assert t1.snd == t.snd && t1.queue == t.queue && t1.state == t.state && t1.persist == t.persist
        && t1.override == t.override;
      if s.flags.ack && AckAccepted(t1, s) {
        AckFlow(t1, s, env);
        TextFinFlow(HandleAck(t1, s, env), s, env);
      } else if s.flags.ack {
        RefuseFrame(t1, s, env);
        RefuseTimers(t1, s, env);
      }
    }
  }

  lemma {:induction false} AnswerTimers(t: Tcb, s: Segment, env: Env)
    requires (t.state == TimeWait && s.flags.fin && !s.flags.rst) || PawsStale(t, s)
          || (!Acceptable(t.rcv, s) && !s.flags.rst) || s.flags.rst || s.flags.syn
    ensures var t' := OnSynchronized(t, s, env);
      t'.persist == t.persist && t'.override == t.override
  {
  }

  lemma {:induction false} RefuseTimers(t: Tcb, s: Segment, env: Env)
    ensures var t' := RefuseAck(t, s, env);
      t'.persist == t.persist && t'.override == t.override
  {
  }

  // ----- timers -----

  lemma {:induction false} RetransmitFlow(t: Tcb, env: Env)
    requires FlowOk(t)
    ensures FlowOk(CheckRetransmit(t, env))
  {
    CcStep(t.snd.cong, InFlight(t.snd));
  }

  lemma {:induction false} PersistFlow(t: Tcb, env: Env)
    requires FlowOk(t)
    ensures FlowOk(CheckPersist(t, env))
  {
  }

  /** An override that finds no room leaves the retransmission timer running instead. */
  lemma {:induction false} OverrideFlow(t: Tcb, env: Env)
    requires FlowOk(t) && SOkBeforeFin(t)
    ensures FlowOk(CheckOverride(t, env))
  {
    if t.override.armed && OpenForData(t.state) && Unsent(t.snd) { NoRoomMeansFlight(t); }
  }

  lemma {:induction false} NoRoomMeansFlight(t: Tcb)
    requires CcOk(t.snd.cong) && 0 < t.snd.wnd <= MAX_SND_WINDOW && SOk(t) && OpenForData(t.state)
    ensures SendUsable(t.snd) == 0 ==> t.queue != []
  {
    HeadToNext(t.snd, t.queue, false);
    UsableBound(t.snd);
  }

  lemma {:induction false} BeforeOverride(t: Tcb, env: Env)
    requires SOkBeforeFin(t)
    ensures SOkBeforeFin(CheckPersist(CheckRetransmit(CheckTimeWait(t, env), env), env))
  {
    if BeforeFin(t.state) {
      RetransmitKeeps(t, env);
      PersistKeeps(CheckRetransmit(t, env), env);
    } else {
      RetransmitWrites(CheckTimeWait(t, env), env);
      ProbeWrites(CheckRetransmit(CheckTimeWait(t, env), env), env);
    }
  }

  lemma {:induction false} TickFlow(t: Tcb, env: Env)
    requires FlowOk(t) && SOkBeforeFin(t)
    ensures FlowOk(Tick(t, env))
  {
    var t1 := CheckTimeWait(t, env);
    RetransmitFlow(t1, env);
    var t2 := CheckRetransmit(t1, env);
    PersistFlow(t2, env);
    var t3 := CheckPersist(t2, env);
    BeforeOverride(t, env);
    OverrideFlow(t3, env);
  }

  lemma {:induction false} SendFlow(t: Tcb, data: seq<u8>, env: Env)
    requires FlowOk(t) && |t.snd.buf| + |data| <= SEND_LIMIT
    ensures FlowOk(Send(t, data, env))
  {
    if SendOutcome(t.state, |data|).Sent? {
      var t1 := t.(snd := t.snd.(buf := t.snd.buf + data));
      FlushSettles(t1, t1.snd.nxt == t1.snd.una, env);
    }
  }

  lemma {:induction false} CloseFlow(t: Tcb, env: Env)
    requires FlowOk(t)
    ensures FlowOk(Close(t, env))
  {
  }

  /** No stuck sender: whatever happens, unsent data before Close leaves the persist timer,
      the override timer or the retransmission timer pending. */
  lemma {:induction false} StepKeepsFlow(t: Tcb, i: Input, env: Env)
    requires FlowOk(t) && SOkBeforeFin(t) && HasRoom(t, i)
    ensures FlowOk(Step(t, i, env))
  {
    match i
    case CallSend(data) => SendFlow(t, data, env);
    case CallRecv(max) => RecvFrame(t, max, env); RecvTimers(t, max, env);
    case CallClose => CloseFlow(t, env);
    case TimerTick => TickFlow(t, env);
    case Arrive(s) => SegmentFlow(t, s, env);
  }

  lemma {:induction false} RecvTimers(t: Tcb, max: nat, env: Env)
    ensures var t' := Recv(t, max, env);
      t'.persist == t.persist && t'.override == t.override
  {
  }

  // ----- only the persist probe may pass the peer's window -----

  /** A forced override transmission is one segment within both windows. */
  lemma {:induction false} OverrideWindow(t: Tcb, env: Env)
    requires t.snd.wnd <= MAX_SND_WINDOW && InFlight(t.snd) < HALF
    ensures var t' := FireOverride(t, env);
      && InFlight(t.snd) <= InFlight(t'.snd) <= Max(InFlight(t.snd), Min(t.snd.cong.cwnd, t.snd.wnd))
      && InFlight(t'.snd) - InFlight(t.snd) <= DEFAULT_MSS
  {
    UsableBound(t.snd);
  }

  /** The probe of a closed window is one byte, the first unsent one. */
  lemma {:induction false} ProbeWindow(t: Tcb, env: Env)
    ensures var t' := ProbePersist(t, env);
      if Unsent(t.snd) && t.snd.wnd == 0 then
        && InFlight(t'.snd) == InFlight(t.snd) + 1 && |t'.wire| == |t.wire| + 1
        && t'.wire[|t.wire|].seqNum == t.snd.nxt && t'.wire[|t.wire|].payload == [t.snd.buf[InFlight(t.snd)]]
      else t' == t
  {
  }

  /** The persist intervals: one second, doubled for every probe, at most a minute. */
  lemma {:induction false} IntervalsDouble(k: nat)
    ensures PersistInterval(k) == Min(60 * PERSIST_INITIAL, PERSIST_INITIAL * Pow2(k))
  {
    if k >= 6 {
      Pow2Mono(6, k);
      assert Pow2(6) == 64;
    } else {
      Pow2Mono(k, 5);
      assert Pow2(5) == 32;
    }
  }

  /** The (k + 1)st probe of a closed window sets the timer 2^(k + 1) seconds ahead, at most a
      minute, and leaves it running. */
  lemma {:induction false} ProbesBackOff(t: Tcb, env: Env)
    requires Unsent(t.snd) && t.snd.wnd == 0
    ensures var t', k := ProbePersist(t, env), t.persist.backoff + 1;
      && t'.persist.armed == t.persist.armed && t'.persist.backoff == k
      && t'.persist.deadline - env.now == Min(60 * PERSIST_INITIAL, PERSIST_INITIAL * Pow2(k))
  {
    IntervalsDouble(t.persist.backoff + 1);
  }

  lemma {:induction false} RetransmitWindow(t: Tcb, env: Env)
    ensures var t' := CheckRetransmit(CheckTimeWait(t, env), env);
      t'.snd == t.snd.(cong := t'.snd.cong)
  {
  }

  /** Over a whole timer tick the flight passes both windows' minimum by at most the one
      probe byte, and only while the peer's window is closed. */
  lemma {:induction false} TickWindow(t: Tcb, env: Env)
    requires t.snd.wnd <= MAX_SND_WINDOW && InFlight(t.snd) < HALF - 1
    ensures var t' := Tick(t, env);
      InFlight(t'.snd) <= Max(InFlight(t.snd) + Bit(Unsent(t.snd) && t.snd.wnd == 0), Min(t'.snd.cong.cwnd, t.snd.wnd))
  {
    RetransmitWindow(t, env);
    var t2 := CheckRetransmit(CheckTimeWait(t, env), env);
    ProbeStage(t2, env);
    var t3 := CheckPersist(t2, env);
    OverrideStage(t3, env);
    DelAckStage(CheckOverride(t3, env), env);
  }

  lemma {:induction false} ProbeStage(t: Tcb, env: Env)
    ensures var t' := CheckPersist(t, env);
      && t'.snd == t.snd.(nxt := t'.snd.nxt) && InFlight(t.snd) <= InFlight(t'.snd)
      && InFlight(t'.snd) <= InFlight(t.snd) + Bit(Unsent(t.snd) && t.snd.wnd == 0)
  {
    ProbeWindow(t, env);
  }

  lemma {:induction false} OverrideStage(t: Tcb, env: Env)
    requires t.snd.wnd <= MAX_SND_WINDOW && InFlight(t.snd) < HALF
    ensures var t' := CheckOverride(t, env);
      && t'.snd == t.snd.(nxt := t'.snd.nxt)
      && InFlight(t'.snd) <= Max(InFlight(t.snd), Min(t.snd.cong.cwnd, t.snd.wnd))
  {
    OverrideWindow(t, env);
  }

  lemma {:induction false} DelAckStage(t: Tcb, env: Env)
    ensures CheckDelAck(t, env).snd == t.snd
  {
  }

  // ----- when a tick writes -----

  predicate RetransmitDue(t: Tcb, env: Env) {
    t.queue != [] && t.queue[0].sentAt + t.rto <= env.now && t.queue[0].retries < MAX_RETRANSMITS
  }

  predicate ProbeDue(t: Tcb, env: Env) {
    t.persist.armed && t.persist.deadline <= env.now && Unsent(t.snd) && t.snd.wnd == 0
  }

  predicate OverrideDue(t: Tcb, env: Env) {
    t.override.armed && t.override.deadline <= env.now && Unsent(t.snd) && SendUsable(t.snd) > 0
  }

  predicate AckDue(t: Tcb, env: Env) {
    t.delAck.armed && t.delAck.deadline <= env.now
  }

  /** A stage of the tick that writes iff due; the timers after it are not its business. */
  predicate StageWrote(t: Tcb, t': Tcb, due: bool) {
    && (if due then |t'.wire| == |t.wire| + 1 else t'.wire == t.wire && t'.snd == t.snd)
    && t'.delAck == t.delAck && t'.override == t.override
  }

  lemma {:induction false} RetransmitWrites(t: Tcb, env: Env)
    ensures var t' := CheckRetransmit(t, env);
      && StageWrote(t, t', RetransmitDue(t, env)) && t'.persist == t.persist
      && (t.queue != [] && t.queue[0].sentAt + t.rto <= env.now && !RetransmitDue(t, env) ==> t'.state == Closed)
      && (t'.state == t.state || t'.state == Closed)
  {
  }

  lemma {:induction false} ProbeWrites(t: Tcb, env: Env)
    ensures StageWrote(t, CheckPersist(t, env), ProbeDue(t, env)) && CheckPersist(t, env).state == t.state
  {
  }

  lemma {:induction false} OverrideWrites(t: Tcb, env: Env)
    ensures var t' := CheckOverride(t, env);
      && |t'.wire| == |t.wire| + (if OverrideDue(t, env) then 1 else 0)
      && t'.delAck == t.delAck && t'.state == t.state
  {
  }

  lemma {:induction false} DelAckWrites(t: Tcb, env: Env)
    ensures var t' := CheckDelAck(t, env);
      |t'.wire| == |t.wire| + (if AckDue(t, env) then 1 else 0) && t'.state == t.state
  {
  }

  lemma {:induction false} ExpiryFrame(t: Tcb, env: Env)
    ensures CheckTimeWait(t, env) == t.(state := CheckTimeWait(t, env).state)
  {
  }

  /** A tick writes a segment exactly when a retransmission, a probe, an override or a
      delayed ACK is due, in whatever state: CLOSED included. */
  lemma {:induction false} TickWritesIff(t: Tcb, env: Env)
    ensures |Tick(t, env).wire| > |t.wire|
      <==> RetransmitDue(t, env) || ProbeDue(t, env) || OverrideDue(t, env) || AckDue(t, env)
    ensures t.queue != [] && t.queue[0].sentAt + t.rto <= env.now && !RetransmitDue(t, env)
      ==> Tick(t, env).state == Closed
  {
    var t1 := CheckTimeWait(t, env);
    ExpiryFrame(t, env);
    RetransmitWrites(t1, env);
    var t2 := CheckRetransmit(t1, env);
    ProbeWrites(t2, env);
    var t3 := CheckPersist(t2, env);
    OverrideWrites(t3, env);
    DelAckWrites(CheckOverride(t3, env), env);
  }

  /** No stuck sender, one tick on: with everything pending due, unsent data makes the tick
      write a segment, or the connection is given up. */
  lemma {:induction false} DueTickWrites(t: Tcb, env: Env)
    requires FlowOk(t) && SOk(t) && OpenForData(t.state) && Unsent(t.snd)
    requires t.persist.armed ==> t.persist.deadline <= env.now
    requires t.override.armed ==> t.override.deadline <= env.now
    requires t.queue != [] ==> t.queue[0].sentAt + t.rto <= env.now
    ensures var t' := Tick(t, env); |t'.wire| > |t.wire| || t'.state == Closed
  {
    TickWritesIff(t, env);
    HeadToNext(t.snd, t.queue, false);
    UsableBound(t.snd);
  }
}
