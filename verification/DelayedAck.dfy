/** The delayed-ACK guarantee of section 4.2.3.2 of RFC 1122 (tcp/transport/data.go:172-202,
    flowcontrol.go:170-186, statemachine.go:401-403, 456-466): an acknowledgement is never
    owed without a timer, and only one full segment may wait for it. */
module DelayedAck {
  import opened SeqNum
  import opened Reassembly
  import opened Segments
  import opened Tcb
  import opened StateMachine
  import opened SenderSteps

  predicate Numbered(s: State) {
    s == SynReceived || Synchronized(s)
  }

  /** Everything received has been acknowledged. */
  predicate PaidUp(t: Tcb) {
    t.lastAckSent == t.rcv.nxt
  }

  predicate DelAckOk(t: Tcb) {
    && t.delAck.count <= 1 && (t.delAck.armed <==> t.delAck.count == 1)
    && (Numbered(t.state) ==> PaidUp(t) || t.delAck.armed)
  }

  /** The parts of the TCB the guarantee reads are unchanged, or an ACK of RCV.NXT went out. */
  predicate Quiet(t: Tcb, t': Tcb) {
    && t'.delAck == t.delAck && t'.rcv.nxt == t.rcv.nxt
    && (t'.lastAckSent == t.lastAckSent || PaidUp(t'))
  }

  lemma {:induction false} QuietKeeps(t: Tcb, t': Tcb)
    requires DelAckOk(t) && Quiet(t, t') && (Numbered(t'.state) ==> Numbered(t.state))
    ensures DelAckOk(t')
  {
  }

  lemma {:induction false} SendAckPays(t: Tcb, env: Env)
    ensures var t' := SendAck(t, env);
      && PaidUp(t') && !t'.delAck.armed && t'.delAck.count == 0 && DelAckOk(t')
      && t'.rcv == t.rcv && t'.state == t.state
  {
  }

  lemma {:induction false} EmitQuiet(t: Tcb, env: Env)
    requires Unsent(t.snd)
    ensures Quiet(t, EmitNext(t, env)) && EmitNext(t, env).state == t.state
  {
  }

  lemma {:induction false} FlushQuiet(t: Tcb, idle: bool, env: Env)
    ensures Quiet(t, FlushFrom(t, idle, env)) && FlushFrom(t, idle, env).state == t.state
    decreases |t.snd.buf| - InFlight(t.snd)
  {
    if MaySend(t.snd, idle) {
      EmitProgress(t, idle, env);
      EmitQuiet(t, env);
      FlushQuiet(EmitNext(t, env), idle, env);
    }
  }

  // ----- timers -----

  lemma {:induction false} RetransmitQuiet(t: Tcb, env: Env)
    ensures var t' := CheckRetransmit(t, env);
      Quiet(t, t') && (t'.state == t.state || t'.state == Closed)
  {
  }

  lemma {:induction false} ProbeQuiet(t: Tcb, env: Env)
    ensures Quiet(t, CheckPersist(t, env)) && CheckPersist(t, env).state == t.state
  {
  }

  lemma {:induction false} OverrideQuiet(t: Tcb, env: Env)
    ensures Quiet(t, CheckOverride(t, env)) && CheckOverride(t, env).state == t.state
  {
    if t.override.armed && Unsent(t.snd) { EmitQuiet(t, env); }
  }

  lemma {:induction false} TickDelAck(t: Tcb, env: Env)
    requires DelAckOk(t)
    ensures DelAckOk(Tick(t, env))
  {
    var t1 := CheckTimeWait(t, env);
    RetransmitQuiet(t1, env);
    var t2 := CheckRetransmit(t1, env);
    QuietKeeps(t, t2);
    ProbeQuiet(t2, env);
    var t3 := CheckPersist(t2, env);
    QuietKeeps(t2, t3);
    OverrideQuiet(t3, env);
    var t4 := CheckOverride(t3, env);
    QuietKeeps(t3, t4);
    SendAckPays(t4, env);
  }

  // ----- user calls -----

  lemma {:induction false} SendDelAck(t: Tcb, data: seq<u8>, env: Env)
    requires DelAckOk(t) && |t.snd.buf| + |data| <= SEND_LIMIT
    ensures DelAckOk(Send(t, data, env))
  {
    if SendOutcome(t.state, |data|).Sent? {
      var t1 := t.(snd := t.snd.(buf := t.snd.buf + data));
      FlushQuiet(t1, t1.snd.nxt == t1.snd.una, env);
      QuietKeeps(t1, Send(t, data, env));
    }
  }

  lemma {:induction false} CloseDelAck(t: Tcb, env: Env)
    requires DelAckOk(t)
    ensures DelAckOk(Close(t, env))
  {
  }

  lemma {:induction false} RecvDelAck(t: Tcb, max: nat, env: Env)
    requires DelAckOk(t)
    ensures DelAckOk(Recv(t, max, env))
  {
    if t.rcv.buf != [] {
      SendAckPays(t.(rcv := Read(t.rcv, Min(max, |t.rcv.buf|), EffMss(t.snd))), env);
    }
  }

  // ----- arriving segments -----

  lemma {:induction false} NoteAckQuiet(t: Tcb, s: Segment, env: Env)
    ensures Quiet(t, NoteAck(t, s, env)) && NoteAck(t, s, env).state == t.state
  {
  }

  lemma {:induction false} AdvanceQuiet(t: Tcb, s: Segment, env: Env)
    ensures var t' := AdvanceOnAck(UpdateSendWindow(t, s), env);
      Quiet(t, t') && (Numbered(t'.state) ==> Numbered(t.state))
  {
  }

  lemma {:induction false} AckDelAck(t: Tcb, s: Segment, env: Env)
    requires DelAckOk(t)
    ensures DelAckOk(HandleAck(t, s, env))
  {
    var t1 := NoteAck(t, s, env);
    NoteAckQuiet(t, s, env);
    QuietKeeps(t, t1);
    AdvanceQuiet(t1, s, env);
    var t3 := AdvanceOnAck(UpdateSendWindow(t1, s), env);
    QuietKeeps(t1, t3);
    FlushQuiet(t3, t3.snd.nxt == t3.snd.una, env);
    QuietKeeps(t3, HandleAck(t, s, env));
  }

  lemma {:induction false} DelayPays(t: Tcb, env: Env)
    requires t.delAck.count <= 1 && (t.delAck.armed <==> t.delAck.count == 1)
    ensures var t' := OnDelayable(t, env);
      && DelAckOk(t') && t'.rcv == t.rcv && t'.state == t.state
      && (if t.delAck.count == 0 then
            t'.delAck.armed && t'.delAck.deadline == env.now + DEL_ACK_TIMEOUT && t'.wire == t.wire
          else PaidUp(t') && !t'.delAck.armed)
  {
    SendAckPays(t, env);
  }

  /** When the ACK of text is owed at once and when it may wait: it waits exactly for a full
      segment that arrives in order, leaves no gap, and is the first to wait. */
  lemma {:induction false} AckPolicy(t: Tcb, s: Segment, env: Env)
    requires DelAckOk(t) && s.payload != []
    ensures var t' := AcceptText(t, s, env);
      && DelAckOk(t')
      && (if Delayable(t, s) && t.delAck.count == 0 then
            t'.delAck.armed && t'.delAck.deadline == env.now + DEL_ACK_TIMEOUT && t'.wire == t.wire
          else
            && PaidUp(t') && !t'.delAck.armed
            && |t'.wire| == |t.wire| + 1 && t'.wire[|t.wire|].flags == F_ACK && t'.wire[|t.wire|].ackNum == t'.rcv.nxt)
  {
    var t1 := t.(rcv := Accept(t.rcv, s.seqNum, s.payload));
    DelayPays(t1, env);
    SendAckPays(t1, env);
  }

  /** The bytes of a payload that continue the buffer: from RCV.NXT to its end or the window's. */
  function Continues(r: Receiver, s: Segment): int {
    var d := Dist(r.nxt, s.seqNum);
    if d > 0 then 0 else Max(0, Min(d + |s.payload|, r.wnd))
  }

  /** Which text may wait: a full segment of bytes that continue the buffer, with nothing held
      out of order afterwards. */
  lemma {:induction false} DelayableIff(t: Tcb, s: Segment)
    requires t.rcv.wnd <= Reassembly.MAX_WINDOW
    ensures Delayable(t, s) <==>
      Continues(t.rcv, s) >= FullSegment(t.snd.mss) && Accept(t.rcv, s.seqNum, s.payload).ooo == []
  {
    EffMssIsFull(t.snd);
    ContinuesTrimmed(t.rcv, s);
  }

  lemma {:induction false} ContinuesTrimmed(r: Receiver, s: Segment)
    requires r.wnd <= Reassembly.MAX_WINDOW
    ensures var f := TrimToWindow(r, s.seqNum, s.payload);
      Continues(r, s) == if f.start == r.nxt then |f.data| else 0
  {
  }

  /** So text is answered by an ACK at once, or by none until 200 ms have passed: by none
      exactly if it is the first full segment to wait. */
  lemma {:induction false} WaitsIff(t: Tcb, s: Segment, env: Env)
    requires DelAckOk(t) && s.payload != [] && t.rcv.wnd <= Reassembly.MAX_WINDOW
    ensures var t' := AcceptText(t, s, env);
      if Continues(t.rcv, s) >= FullSegment(t.snd.mss) && t'.rcv.ooo == [] && !t.delAck.armed then
        t'.wire == t.wire && t'.delAck.armed && t'.delAck.deadline == env.now + 200 * MILLISECOND
      else
        && |t'.wire| == |t.wire| + 1 && t'.wire[|t.wire|].flags == F_ACK && t'.wire[|t.wire|].ackNum == t'.rcv.nxt
        && t'.wire[..|t.wire|] == t.wire && !t'.delAck.armed
  {
    AckPolicy(t, s, env);
    DelayableIff(t, s);
    TextReceiver(t, s, env);
  }

  lemma {:induction false} TextReceiver(t: Tcb, s: Segment, env: Env)
    requires s.payload != []
    ensures var t' := AcceptText(t, s, env);
      t'.rcv == Accept(t.rcv, s.seqNum, s.payload) && t.wire <= t'.wire
  {
  }

  lemma {:induction false} FinPays(t: Tcb, env: Env)
    ensures var t' := HandleFin(t, env);
      PaidUp(t') && !t'.delAck.armed && DelAckOk(t')
  {
    var t1 := t.(rcv := t.rcv.(peerFin := true, peerFinSeq := t.rcv.nxt, nxt := Add(t.rcv.nxt, 1)));
    SendAckPays(t1, env);
  }

  lemma {:induction false} TextFinDelAck(t: Tcb, s: Segment, env: Env)
    requires DelAckOk(t)
    ensures DelAckOk(TextAndFin(t, s, env))
  {
    if s.payload != [] { AckPolicy(t, s, env); }
    FinPays(AcceptText(t, s, env), env);
  }

  // ----- the ACK that answers text -----

  /** What the answer to text depends on is unchanged, and nothing written is lost. */
  predicate SameAcking(t: Tcb, t': Tcb) {
    && t'.rcv == t.rcv && t'.delAck == t.delAck && t'.snd.mss == t.snd.mss
    && t'.neg.sackOk == t.neg.sackOk && t'.neg.tsOk == t.neg.tsOk && |t.wire| <= |t'.wire|
  }

  lemma {:induction false} EmitAcking(t: Tcb, env: Env)
    requires Unsent(t.snd)
    ensures SameAcking(t, EmitNext(t, env))
  {
  }

  lemma {:induction false} FlushAcking(t: Tcb, idle: bool, env: Env)
    ensures SameAcking(t, FlushFrom(t, idle, env))
    decreases |t.snd.buf| - InFlight(t.snd)
  {
    if MaySend(t.snd, idle) {
      EmitProgress(t, idle, env);
      EmitAcking(t, env);
      FlushAcking(EmitNext(t, env), idle, env);
    }
  }

  lemma {:induction false} NoteAcking(t: Tcb, s: Segment, env: Env)
    ensures SameAcking(t, NoteAck(t, s, env))
  {
  }

  lemma {:induction false} AdvanceAcking(t: Tcb, s: Segment, env: Env)
    ensures SameAcking(t, AdvanceOnAck(UpdateSendWindow(t, s), env))
  {
  }

  lemma {:induction false} AckAcking(t: Tcb, s: Segment, env: Env)
    ensures SameAcking(t, HandleAck(UpdateTsRecent(t, s), s, env))
  {
    var t0 := UpdateTsRecent(t, s);
    NoteAcking(t0, s, env);
    var t1 := NoteAck(t0, s, env);
    AdvanceAcking(t1, s, env);
    var t3 := AdvanceOnAck(UpdateSendWindow(t1, s), env);
    FlushAcking(t3, t3.snd.nxt == t3.snd.una, env);
  }

  /** The last segment written is an ACK of everything received. */
  predicate AckedLast(t: Tcb, t': Tcb) {
    && |t'.wire| > |t.wire|
    && t'.wire[|t'.wire| - 1].flags == F_ACK && t'.wire[|t'.wire| - 1].ackNum == t'.rcv.nxt
  }

  lemma {:induction false} FinAcks(t: Tcb, env: Env)
    ensures AckedLast(t, HandleFin(t, env))
  {
  }

  lemma {:induction false} TextAcks(t: Tcb, s: Segment, env: Env)
    requires DelAckOk(t) && s.payload != [] && !(Delayable(t, s) && t.delAck.count == 0)
    ensures var t' := TextAndFin(t, s, env);
      AckedLast(t, t') && PaidUp(t') && !t'.delAck.armed
  {
    AckPolicy(t, s, env);
    var t1 := AcceptText(t, s, env);
    if FinInOrder(t1, s) {
      FinAcks(t1, env);
      FinPays(t1, env);
    }
  }

  lemma {:induction false} SameDelayable(t: Tcb, t': Tcb, s: Segment)
    requires SameAcking(t, t')
    ensures Delayable(t', s) <==> Delayable(t, s)
  {
  }

  /** Text is acknowledged in the very step it arrives, by an ACK that goes out, unless it is
      the first full segment to wait: so text out of order, filling a gap, or leaving one. */
  lemma {:induction false} GapAckedAtOnce(t: Tcb, s: Segment, env: Env)
    requires DelAckOk(t) && s.flags.ack && AckAccepted(t, s) && s.payload != []
    requires !(Delayable(t, s) && t.delAck.count == 0)
    ensures var t' := OnAcceptable(t, s, env);
      AckedLast(t, t') && PaidUp(t') && !t'.delAck.armed
  {
    var t2 := HandleAck(UpdateTsRecent(t, s), s, env);
    TimestampQuiet(t, s);
    AckDelAck(UpdateTsRecent(t, s), s, env);
    AckAcking(t, s, env);
    SameDelayable(t, t2, s);
    TextAcks(t2, s, env);
    AcceptableIsText(t, s, env);
  }

  lemma {:induction false} AcceptableIsText(t: Tcb, s: Segment, env: Env)
    requires s.flags.ack && AckAccepted(t, s)
    ensures OnAcceptable(t, s, env) == TextAndFin(HandleAck(UpdateTsRecent(t, s), s, env), s, env)
  {
  }

  /** Out of order or leaving a gap is never the case that waits. */
  lemma {:induction false} GapNotDelayable(t: Tcb, s: Segment)
    requires TrimToWindow(t.rcv, s.seqNum, s.payload).start != t.rcv.nxt || Accept(t.rcv, s.seqNum, s.payload).ooo != []
    ensures !Delayable(t, s)
  {
  }

  lemma {:induction false} TimestampQuiet(t: Tcb, s: Segment)
    requires DelAckOk(t)
    ensures DelAckOk(UpdateTsRecent(t, s))
  {
  }

  lemma {:induction false} RefuseQuiet(t: Tcb, s: Segment, env: Env)
    ensures Quiet(t, RefuseAck(t, s, env)) && RefuseAck(t, s, env).state == t.state
  {
  }

  lemma {:induction false} RstQuiet(t: Tcb, s: Segment, env: Env)
    ensures var t' := HandleRst(t, s, env);
      Quiet(t, t') && (Numbered(t'.state) ==> Numbered(t.state))
  {
  }

  lemma {:induction false} ChallengeQuiet(t: Tcb, env: Env)
    ensures Quiet(t, SendChallengeAck(t, env)) && SendChallengeAck(t, env).state == t.state
  {
  }

  lemma {:induction false} SynchronizedDelAck(t: Tcb, s: Segment, env: Env)
    requires DelAckOk(t)
    ensures DelAckOk(OnSynchronized(t, s, env))
  {
    SendAckPays(t, env);
    if t.state == TimeWait && s.flags.fin && !s.flags.rst {
    } else if PawsStale(t, s) || (!Acceptable(t.rcv, s) && !s.flags.rst) {
    } else if s.flags.rst {
      RstQuiet(t, s, env);
      QuietKeeps(t, HandleRst(t, s, env));
    } else if s.flags.syn {
      ChallengeQuiet(t, env);
      QuietKeeps(t, SendChallengeAck(t, env));
    } else {
      AcceptableDelAck(t, s, env);
    }
  }

  lemma {:induction false} AcceptableDelAck(t: Tcb, s: Segment, env: Env)
    requires DelAckOk(t)
    ensures DelAckOk(OnAcceptable(t, s, env))
  {
    TimestampQuiet(t, s);
    var t1 := UpdateTsRecent(t, s);
    if s.flags.ack && AckAccepted(t1, s) {
      AckDelAck(t1, s, env);
      TextFinDelAck(HandleAck(t1, s, env), s, env);
    } else if s.flags.ack {
      RefuseQuiet(t1, s, env);
      QuietKeeps(t1, RefuseAck(t1, s, env));
    }
  }

  lemma {:induction false} ListenDelAck(t: Tcb, s: Segment, env: Env)
    requires DelAckOk(t) && t.state == Listen
    ensures DelAckOk(OnListen(t, s, env))
  {
  }

  lemma {:induction false} SynSentDelAck(t: Tcb, s: Segment, env: Env)
    requires DelAckOk(t) && t.state == SynSent
    ensures DelAckOk(OnSynSent(t, s, env))
  {
  }

  lemma {:induction false} ClosedDelAck(t: Tcb, s: Segment, env: Env)
    requires DelAckOk(t) && t.state == Closed
    ensures DelAckOk(OnClosed(t, s, env))
  {
  }

  lemma {:induction false} OpenDelAck(t: Tcb, iss: u32, env: Env)
    requires DelAckOk(t)
    ensures DelAckOk(ActiveOpen(t, iss, env)) && DelAckOk(PassiveOpen(t))
  {
  }

  /** Whatever happens, an owed acknowledgement has its timer running. */
  lemma {:induction false} StepKeepsDelAck(t: Tcb, i: Input, env: Env)
    requires DelAckOk(t) && HasRoom(t, i)
    ensures DelAckOk(Step(t, i, env))
  {
    match i
    case CallSend(data) => SendDelAck(t, data, env);
    case CallRecv(max) => RecvDelAck(t, max, env);
    case CallClose => CloseDelAck(t, env);
    case TimerTick => TickDelAck(t, env);
    case Arrive(s) =>
      match t.state {
        case Closed => ClosedDelAck(t, s, env);
        case Listen => ListenDelAck(t, s, env);
        case SynSent => SynSentDelAck(t, s, env);
        case _ => SynchronizedDelAck(t, s, env);
      }
  }
}
