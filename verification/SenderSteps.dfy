/** Every step of a connection keeps the sender's two records in agreement. */
module SenderSteps {
  import opened SeqNum
  import opened Reassembly
  import opened Segments
  import opened Congestion
  import opened Tcb
  import opened StateMachine
  import opened SenderRecords

  datatype Input = CallSend(data: seq<u8>) | CallRecv(max: nat) | CallClose | TimerTick | Arrive(s: Segment)

  /** The send buffer has room for what is given to Send. */
  predicate HasRoom(t: Tcb, i: Input) {
    i.CallSend? ==> |t.snd.buf| + |i.data| <= SEND_LIMIT
  }

  /** Close comes only when everything given to Send has been sent. */
  predicate ClosesSent(t: Tcb, i: Input) {
    i.CallClose? ==> !Unsent(t.snd)
  }

  predicate Allowed(t: Tcb, i: Input) {
    HasRoom(t, i) && ClosesSent(t, i)
  }

  function Step(t: Tcb, i: Input, env: Env): Tcb
    requires HasRoom(t, i)
  {
    match i
    case CallSend(data) => Send(t, data, env)
    case CallRecv(max) => Recv(t, max, env)
    case CallClose => Close(t, env)
    case TimerTick => Tick(t, env)
    case Arrive(s) => OnSegment(t, s, env)
  }

  predicate SOk(t: Tcb) {
    SenderOk(t.state, t.snd, t.queue)
  }

  /** The states in which our FIN has not been sent. */
  predicate BeforeFin(s: State) {
    s == Listen || s == SynSent || s == SynReceived || s == Established || s == CloseWait
  }

  /** The two records agree at least until our FIN is sent. */
  predicate SOkBeforeFin(t: Tcb) {
    BeforeFin(t.state) ==> SOk(t)
  }

  /** Only states before our FIN, with the SYN acknowledged, have unsent data. */
  lemma {:induction false} UnsentMeansOpen(t: Tcb)
    requires SOk(t) && Unsent(t.snd) && t.state != Closed
    ensures (t.state == Established || t.state == CloseWait) && Records(t.snd, t.queue, false)
  {
  }

  lemma {:induction false} EmitNextKeeps(t: Tcb, env: Env)
    requires SOk(t) && Unsent(t.snd) && SendUsable(t.snd) > 0
    ensures SOk(EmitNext(t, env))
  {
    var e, n := EmitQueues(t, env);
    if t.state != Closed {
      UnsentMeansOpen(t);
      EmitRecords(t.snd, t.queue, e, n, EmitNext(t, env).snd);
    }
  }

  lemma {:induction false} EmitQueues(t: Tcb, env: Env) returns (e: RetxSeg, n: nat)
    requires Unsent(t.snd) && SendUsable(t.snd) > 0
    ensures 0 < n && InFlight(t.snd) + n <= |t.snd.buf| && n < HALF
    ensures e.seqNum == t.snd.nxt && e.flags == F_PSH_ACK
      && e.payload == t.snd.buf[InFlight(t.snd)..InFlight(t.snd) + n]
    ensures var t' := EmitNext(t, env);
      t'.queue == t.queue + [e] && t'.snd == t.snd.(nxt := Add(t.snd.nxt, n)) && t'.state == t.state
  {
    var off := InFlight(t.snd);
    n := SegmentSize(|t.snd.buf| - off, SendUsable(t.snd));
    e := RetxSeg(t.snd.nxt, F_PSH_ACK, t.snd.buf[off..off + n], env.now, 0, false);
  }

  lemma {:induction false} FlushKeeps(t: Tcb, idle: bool, env: Env)
    requires SOk(t)
    ensures SOk(FlushFrom(t, idle, env)) && FlushFrom(t, idle, env).state == t.state
    decreases |t.snd.buf| - InFlight(t.snd)
  {
    if MaySend(t.snd, idle) {
      EmitProgress(t, idle, env);
      EmitNextKeeps(t, env);
      FlushKeeps(EmitNext(t, env), idle, env);
    }
  }

  lemma {:induction false} SendKeeps(t: Tcb, data: seq<u8>, env: Env)
    requires SOk(t) && |t.snd.buf| + |data| <= SEND_LIMIT
    ensures SOk(Send(t, data, env))
  {
    if SendOutcome(t.state, |data|).Sent? {
      var snd := t.snd.(buf := t.snd.buf + data);
      var at := HeadSeq(t.snd, t.queue);
      TilesGrow(t.queue, at, Dist(t.snd.una, at), InFlight(t.snd), t.snd.buf, data);
      var t1 := t.(snd := snd);
      FlushKeeps(t1, snd.nxt == snd.una, env);
    }
  }

  lemma {:induction false} CloseKeeps(t: Tcb, env: Env)
    requires SOk(t) && !Unsent(t.snd)
    ensures SOk(Close(t, env))
  {
    var e := RetxSeg(t.snd.nxt, F_FIN_ACK, [], env.now, 0, false);
    if t.state == Established || t.state == CloseWait {
      FinRecords(t.snd, t.queue, e, Close(t, env).snd);
    } else if t.state == SynReceived {
      SynsFin(t.queue, t.snd.iss, e);
      assert Opening(Close(t, env).snd, t.queue + [e], true);
    }
  }

  // ----- timers -----

  lemma {:induction false} RetransmitKeeps(t: Tcb, env: Env)
    requires SOk(t)
    ensures SOk(CheckRetransmit(t, env))
  {
    var t' := CheckRetransmit(t, env);
    if t.queue != [] && t'.queue != [] {
      SenderHead(t.state, t.snd, t.queue, t'.queue[0]);
      assert [t.queue[0]] + t.queue[1..] == t.queue;
      if t' != t { SenderFrame(t'.state, t.snd, t'.snd, t'.queue); }
    }
  }

  lemma {:induction false} PersistKeeps(t: Tcb, env: Env)
    requires SOk(t)
    ensures SOk(ProbePersist(t, env))
  {
    if t.state != Closed && Unsent(t.snd) && t.snd.wnd == 0 {
      UnsentMeansOpen(t);
      var off := InFlight(t.snd);
      var e := RetxSeg(t.snd.nxt, F_PSH_ACK, [t.snd.buf[off]], env.now, 0, false);
      assert e.payload == t.snd.buf[off..off + 1];
      EmitRecords(t.snd, t.queue, e, 1, ProbePersist(t, env).snd);
    }
  }

  lemma {:induction false} OverrideKeeps(t: Tcb, env: Env)
    requires SOk(t)
    ensures SOk(FireOverride(t, env))
  {
    if Unsent(t.snd) && SendUsable(t.snd) != 0 { EmitNextKeeps(t, env); }
  }

  lemma {:induction false} TickKeeps(t: Tcb, env: Env)
    requires SOk(t)
    ensures SOk(Tick(t, env))
  {
    var t1 := CheckTimeWait(t, env);
    RetransmitKeeps(t1, env);
    var t2 := CheckRetransmit(t1, env);
    PersistKeeps(t2, env);
    var t3 := CheckPersist(t2, env);
    OverrideKeeps(t3, env);
  }

  // ----- acknowledgements -----

  /** What an ACK leaves before the state advances: as SenderOk, but a FIN state may have
      its FIN acknowledged. */
  predicate Acked(st: State, snd: Sender, q: seq<RetxSeg>) {
    match st
    case SynReceived => Records(snd, q, false) && snd.buf == []
    case FinWait1 => Opening(snd, q, true) || FinRecorded(snd, q)
    case Closing => Opening(snd, q, true) || FinRecorded(snd, q)
    case LastAck => FinRecorded(snd, q)
    case _ => SenderOk(st, snd, q)
  }

  predicate FinRecorded(snd: Sender, q: seq<RetxSeg>) {
    Records(snd, q, true) || (Records(snd, q, false) && InFlight(snd) == 0 && snd.buf == [])
  }

  lemma {:induction false} RestampKeeps(q: seq<RetxSeg>, snd: Sender, finOut: bool, now: Time)
    requires q != [] && Records(snd, q, finOut)
    ensures Records(snd, [q[0].(sentAt := now)] + q[1..], finOut)
  {
    var off := Dist(snd.una, HeadSeq(snd, q));
    TilesHead(q, q[0].(sentAt := now), HeadSeq(snd, q), off, InFlight(snd), snd.buf);
  }

  lemma {:induction false} AckQueueKeeps(t: Tcb, ack: u32, env: Env, finOut: bool)
    requires Records(t.snd, PopAcked(t.queue, ack), finOut)
    ensures Records(t.snd, AckQueue(t, ack, env).queue, finOut) && AckQueue(t, ack, env).snd == t.snd
    ensures AckQueue(t, ack, env).state == t.state
    ensures AckQueue(t, ack, env).queue == [] <==> PopAcked(t.queue, ack) == []
  {
    var q := PopAcked(t.queue, ack);
    if |q| == |t.queue| { PopWhole(t.queue, ack); }
    if q != [] { RestampKeeps(q, t.snd, finOut, env.now); }
  }

  lemma {:induction false} PopWhole(q: seq<RetxSeg>, ack: u32)
    ensures |PopAcked(q, ack)| <= |q|
    ensures |PopAcked(q, ack)| == |q| ==> PopAcked(q, ack) == q
  {
    if q != [] { PopWhole(q[1..], ack); }
  }

  /** A sender that differs only in window, timers and congestion state. */
  lemma {:induction false} RecordsFrame(snd: Sender, snd': Sender, q: seq<RetxSeg>, finOut: bool)
    requires Records(snd, q, finOut)
    requires snd'.una == snd.una && snd'.nxt == snd.nxt && snd'.buf == snd.buf
    ensures Records(snd', q, finOut)
  {
  }

  lemma {:induction false} TakeNewAckRecords(t: Tcb, ack: u32, env: Env, finOut: bool)
    requires Records(t.snd, t.queue, finOut) || Opening(t.snd, t.queue, finOut)
    requires AcceptableAck(t.snd.una, ack, t.snd.nxt)
    ensures var t' := TakeNewAck(t, ack, env);
      && Records(t'.snd, t'.queue, finOut && ack != t.snd.nxt)
      && t'.snd.una == ack && t'.snd.nxt == t.snd.nxt && t'.state == t.state
      && (Opening(t.snd, t.queue, finOut) ==> t'.snd.buf == [])
      && (finOut && ack == t.snd.nxt ==> t'.snd.buf == [])
  {
    var buf := ReleaseAcked(t.snd.buf, Sub(ack, t.snd.una));
    var snd1 := t.snd.(una := ack);
    var snd2 := snd1.(buf := buf);
    var q := PopAcked(t.queue, ack);
    var fin := finOut && ack != t.snd.nxt;
    if Records(t.snd, t.queue, finOut) {
      AckRecords(t.snd, t.queue, finOut, ack, snd2, q);
    } else {
      AckOpening(t.snd, t.queue, finOut, ack, snd2, q);
    }
    var u := t.(snd := snd2);
    AckQueueKeeps(u, ack, env, fin);
    var t' := TakeNewAck(t, ack, env);
    assert t'.queue == AckQueue(u, ack, env).queue;
    RecordsFrame(snd2, t'.snd, t'.queue, fin);
  }

  lemma {:induction false} NothingAcceptable(una: u32, ack: u32)
    ensures !AcceptableAck(una, ack, una)
  {
  }

  lemma {:induction false} NewAckKeeps(t: Tcb, ack: u32, env: Env)
    requires SOk(t) && t.state != Closed && t.state != Listen && t.state != SynSent
    requires AcceptableAck(t.snd.una, ack, t.snd.nxt)
    ensures var t' := TakeNewAck(t, ack, env);
      t'.state == t.state && Acked(t'.state, t'.snd, t'.queue)
  {
    var fin := t.state == FinWait1 || t.state == Closing || t.state == LastAck;
    if InFlight(t.snd) == 0 {
      NothingAcceptable(t.snd.una, ack);
      assert false;
    }
    TakeNewAckRecords(t, ack, env, fin);
  }

  lemma {:induction false} DupAckKeeps(t: Tcb, env: Env)
    requires SOk(t)
    ensures SOk(OnDuplicateAck(t, env)) && OnDuplicateAck(t, env).state == t.state
  {
    var t' := OnDuplicateAck(t, env);
    if t.queue != [] && t'.queue != [] {
      assert [t.queue[0]] + t.queue[1..] == t.queue;
      SenderHead(t.state, t.snd, t.queue, t'.queue[0]);
      SenderFrame(t.state, t.snd, t'.snd, t'.queue);
    } else {
      SenderFrame(t.state, t.snd, t'.snd, t.queue);
    }
  }

  lemma {:induction false} NoteAckKeeps(t: Tcb, s: Segment, env: Env)
    requires SOk(t) && t.state != Closed && t.state != Listen && t.state != SynSent && AckAccepted(t, s)
    ensures var t' := NoteAck(t, s, env);
      t'.state == t.state && Acked(t'.state, t'.snd, t'.queue)
  {
    if AcceptableAck(t.snd.una, s.ackNum, t.snd.nxt) {
      NewAckKeeps(t, s.ackNum, env);
    } else if IsDupAck(t, s) {
      DupAckKeeps(t, env);
    }
  }

  lemma {:induction false} WindowKeeps(t: Tcb, s: Segment)
    requires Acked(t.state, t.snd, t.queue)
    ensures var t' := UpdateSendWindow(t, s);
      t'.state == t.state && Acked(t'.state, t'.snd, t'.queue)
  {
    var t' := UpdateSendWindow(t, s);
    assert t'.queue == t.queue && t'.snd == t.snd.(wnd := t'.snd.wnd, wl1 := t'.snd.wl1, wl2 := t'.snd.wl2,
      maxWnd := t'.snd.maxWnd);
    if SOk(t) { SenderFrame(t.state, t.snd, t'.snd, t.queue); }
  }

  lemma {:induction false} AdvanceKeeps(t: Tcb, env: Env)
    requires Acked(t.state, t.snd, t.queue)
    ensures SOk(AdvanceOnAck(t, env))
  {
    if Records(t.snd, t.queue, true) || Records(t.snd, t.queue, false) {
      HeadToNext(t.snd, t.queue, Records(t.snd, t.queue, true));
    }
    if t.snd.una == t.snd.nxt {
      assert InFlight(t.snd) == 0;
    }
  }

  lemma {:induction false} HandleAckKeeps(t: Tcb, s: Segment, env: Env)
    requires SOk(t) && t.state != Closed && t.state != Listen && t.state != SynSent && AckAccepted(t, s)
    ensures SOk(HandleAck(t, s, env))
    ensures HandleAck(t, s, env).state != SynReceived
  {
    var t1 := NoteAck(t, s, env);
    NoteAckKeeps(t, s, env);
    WindowKeeps(t1, s);
    var t2 := UpdateSendWindow(t1, s);
    AdvanceKeeps(t2, env);
    var t3 := AdvanceOnAck(t2, env);
    FlushKeeps(t3, t3.snd.nxt == t3.snd.una, env);
  }

  // ----- text and FIN do not touch the sender -----

  lemma {:induction false} TextFrame(t: Tcb, s: Segment, env: Env)
    ensures var t' := AcceptText(t, s, env);
      t'.snd == t.snd && t'.queue == t.queue && t'.state == t.state
  {
  }

  lemma {:induction false} FinKeeps(t: Tcb, env: Env)
    requires SOk(t) && t.state != SynReceived
    ensures SOk(HandleFin(t, env))
  {
    if t.state == FinWait1 {
      if Records(t.snd, t.queue, true) { HeadToNext(t.snd, t.queue, true); }
      assert t.snd.una != t.snd.nxt;
    }
  }

  lemma {:induction false} AcceptableKeeps(t: Tcb, s: Segment, env: Env)
    requires SOk(t) && t.state != Closed && t.state != Listen && t.state != SynSent
    ensures SOk(OnAcceptable(t, s, env))
  {
    var t1 := UpdateTsRecent(t, s);
    assert t1.snd == t.snd && t1.queue == t.queue && t1.state == t.state;
    if s.flags.ack && AckAccepted(t1, s) {
      HandleAckKeeps(t1, s, env);
      var t2 := HandleAck(t1, s, env);
      TextFrame(t2, s, env);
      FinKeeps(AcceptText(t2, s, env), env);
    } else if s.flags.ack {
      RefuseFrame(t1, s, env);
    }
  }

  lemma {:induction false} RefuseFrame(t: Tcb, s: Segment, env: Env)
    ensures var t' := RefuseAck(t, s, env);
      t'.snd == t.snd && t'.queue == t.queue && t'.state == t.state
  {
  }

  lemma {:induction false} SynchronizedKeeps(t: Tcb, s: Segment, env: Env)
    requires SOk(t) && t.state != Closed && t.state != Listen && t.state != SynSent
    ensures SOk(OnSynchronized(t, s, env))
  {
    if !(t.state == TimeWait && s.flags.fin && !s.flags.rst) && !PawsStale(t, s)
       && !(!Acceptable(t.rcv, s) && !s.flags.rst) && !s.flags.rst && !s.flags.syn {
      AcceptableKeeps(t, s, env);
    } else {
      AnswerFrame(t, s, env);
    }
  }

  /** The answers that leave the sender alone: ACK, challenge, RST processing. */
  lemma {:induction false} AnswerFrame(t: Tcb, s: Segment, env: Env)
    requires (t.state == TimeWait && s.flags.fin && !s.flags.rst) || PawsStale(t, s)
          || (!Acceptable(t.rcv, s) && !s.flags.rst) || s.flags.rst || s.flags.syn
    ensures var t' := OnSynchronized(t, s, env);
      && t'.snd == t.snd && t'.queue == t.queue
      && (t'.state == t.state || t'.state == Closed || (t'.state == Listen && t.state == SynReceived))
  {
  }

  // ----- handshake -----

  lemma {:induction false} ListenKeeps(t: Tcb, s: Segment, env: Env)
    requires SOk(t) && t.state == Listen
    ensures SOk(OnListen(t, s, env))
  {
    if !s.flags.rst && !s.flags.ack && s.flags.syn {
      var e := RetxSeg(t.snd.iss, F_SYN_ACK, [], env.now, 0, false);
      SynsSnoc(t.queue, t.snd.iss, e);
      var t' := OnListen(t, s, env);
      assert t'.queue == t.queue + [e];
      assert Opening(t'.snd, t'.queue, false);
    }
  }

  lemma {:induction false} SynAckExact(iss: u32, ack: u32)
    requires !SeqLEQ(ack, iss) && !SeqGT(ack, Add(iss, 1))
    ensures ack == Add(iss, 1) && AcceptableAck(iss, ack, Add(iss, 1))
  {
  }

  lemma {:induction false} SynSentKeeps(t: Tcb, s: Segment, env: Env)
    requires SOk(t) && t.state == SynSent
    ensures SOk(OnSynSent(t, s, env))
  {
    if s.flags.syn && !s.flags.rst && !(s.flags.ack && SynAckBad(t, s)) {
      if s.flags.ack {
        SynAckExact(t.snd.iss, s.ackNum);
        PopSyns(t.queue, t.snd.iss, false, s.ackNum);
        var t' := OnSynSent(t, s, env);
        assert t'.queue == [] && t'.snd.una == s.ackNum == t'.snd.nxt && t'.snd.buf == [];
        assert Records(t'.snd, t'.queue, false);
      } else {
        var e := RetxSeg(t.snd.iss, F_SYN_ACK, [], env.now, 0, false);
        SynsSnoc(t.queue, t.snd.iss, e);
        var t' := OnSynSent(t, s, env);
        assert t'.queue == t.queue + [e];
        assert Opening(t'.snd, t'.queue, false);
      }
    }
  }

  lemma {:induction false} SegmentKeeps(t: Tcb, s: Segment, env: Env)
    requires SOk(t)
    ensures SOk(OnSegment(t, s, env))
  {
    match t.state
    case Closed => ClosedStays(t, s, env);
    case Listen => ListenKeeps(t, s, env);
    case SynSent => SynSentKeeps(t, s, env);
    case _ => SynchronizedKeeps(t, s, env);
  }

  lemma {:induction false} ClosedStays(t: Tcb, s: Segment, env: Env)
    requires t.state == Closed
    ensures OnSegment(t, s, env).state == Closed
  {
  }

  /** Every user call, timer tick and arriving segment, whatever the segment, keeps the
      retransmission queue and the send buffer in agreement. */
  lemma {:induction false} StepKeepsRecords(t: Tcb, i: Input, env: Env)
    requires SOk(t) && Allowed(t, i)
    ensures SOk(Step(t, i, env))
  {
    match i
    case CallSend(data) => SendKeeps(t, data, env);
    case CallRecv(max) => RecvFrame(t, max, env);
    case CallClose => CloseKeeps(t, env);
    case TimerTick => TickKeeps(t, env);
    case Arrive(s) => SegmentKeeps(t, s, env);
  }

  lemma {:induction false} RecvFrame(t: Tcb, max: nat, env: Env)
    ensures var t' := Recv(t, max, env);
      t'.snd == t.snd && t'.queue == t.queue && t'.state == t.state
  {
  }

  // ----- Close with unsent data -----

  /** The FIN takes the number after the last byte given to Send, and the two records go on
      agreeing, exactly when nothing was unsent: otherwise it takes the number of the first
      unsent byte. */
  lemma {:induction false} CloseIff(t: Tcb, env: Env)
    requires SOk(t) && (t.state == Established || t.state == CloseWait)
    ensures var t' := Close(t, env);
      && |t'.wire| == |t.wire| + 1 && t'.wire[|t.wire|].flags == F_FIN_ACK
      && (Sub(t'.wire[|t.wire|].seqNum, t.snd.una) == |t.snd.buf| <==> !Unsent(t.snd))
      && (SOk(t') <==> !Unsent(t.snd))
  {
    var t' := Close(t, env);
    assert t'.wire[|t.wire|].seqNum == t.snd.nxt;
    if Unsent(t.snd) {
      assert InFlight(t'.snd) == InFlight(t.snd) + 1 <= |t'.snd.buf|;
    } else {
      CloseKeeps(t, env);
    }
  }
}
