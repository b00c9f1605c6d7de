/** What every step writes: segments are only ever appended, each that is neither SYN nor RST
    carries a current timestamp exactly if timestamps were agreed, and Last.ACK.sent is the
    acknowledgement written last (section 3.2 and 4.3 of RFC 7323;
    tcp/transport/statemachine.go:347-425). */
module Log {
  import opened SeqNum
  import opened Options
  import opened Segments
  import opened Tcb
  import opened StateMachine
  import opened SenderSteps

  /** The acknowledgement written last, or what it was before. */
  function LastAcked(segs: seq<Segment>, before: u32): u32 {
    if segs == [] then before
    else if segs[|segs| - 1].flags.ack then segs[|segs| - 1].ackNum
    else LastAcked(segs[..|segs| - 1], before)
  }

  lemma {:induction false} LastAckedJoin(a: seq<Segment>, b: seq<Segment>, before: u32)
    ensures LastAcked(a + b, before) == LastAcked(b, LastAcked(a, before))
  {
    if b == [] {
      assert a + b == a;
    } else {
      assert (a + b)[..|a + b| - 1] == a + b[..|b| - 1];
      LastAckedJoin(a, b[..|b| - 1], before);
    }
  }

  /** The timestamp option: the clock, echoing the newest timestamp of the peer's. */
  predicate Stamped(s: Segment, n: Negotiated, now: Time) {
    && s.opts.Options?
    && (!s.flags.syn && !s.flags.rst ==>
          && (s.opts.o.hasTimestamp <==> n.tsOk)
          && (n.tsOk ==> s.opts.o.tsVal == TsNow(now) && (s.flags.ack ==> s.opts.o.tsEcr == n.tsRecent)))
  }

  ghost predicate AllStamped(segs: seq<Segment>, n: Negotiated, now: Time) {
    forall k :: 0 <= k < |segs| ==> Stamped(segs[k], n, now)
  }

  /** From t to t' segments were appended, all stamped, and the last ACK among them noted. */
  ghost predicate Wrote(t: Tcb, t': Tcb, now: Time) {
    && t'.neg == t.neg && t.wire <= t'.wire
    && AllStamped(t'.wire[|t.wire|..], t.neg, now)
    && t'.lastAckSent == LastAcked(t'.wire[|t.wire|..], t.lastAckSent)
  }

  lemma {:induction false} WroteNothing(t: Tcb, t': Tcb, now: Time)
    requires t'.neg == t.neg && t'.wire == t.wire && t'.lastAckSent == t.lastAckSent
    ensures Wrote(t, t', now)
  {
  }

  lemma {:induction false} WroteOne(t: Tcb, t': Tcb, s: Segment, now: Time)
    requires t'.neg == t.neg && t'.wire == t.wire + [s] && Stamped(s, t.neg, now)
    requires t'.lastAckSent == if s.flags.ack then s.ackNum else t.lastAckSent
    ensures Wrote(t, t', now)
  {
    assert t'.wire[|t.wire|..] == [s] && [s][..0] == [];
  }

  lemma {:induction false} WroteMore(t: Tcb, t1: Tcb, t': Tcb, now: Time)
    requires Wrote(t, t1, now) && Wrote(t1, t', now)
    ensures Wrote(t, t', now)
  {
    var a, b := t1.wire[|t.wire|..], t'.wire[|t1.wire|..];
    assert t'.wire == t1.wire + b && t1.wire == t.wire + a;
    assert t'.wire[|t.wire|..] == a + b;
    LastAckedJoin(a, b, t.lastAckSent);
  }

  // ----- the writers -----

  lemma {:induction false} SegWrites(t: Tcb, flags: Flags, seqNum: u32, ackNum: u32, payload: Payload, now: Time)
    ensures Wrote(t, WriteSeg(t, flags, seqNum, ackNum, payload, None, now), now)
  {
    var t' := WriteSeg(t, flags, seqNum, ackNum, payload, None, now);
    WroteOne(t, t', t'.wire[|t.wire|], now);
  }

  lemma {:induction false} DataWrites(t: Tcb, flags: Flags, seqNum: u32, ackNum: u32, payload: Payload, env: Env)
    ensures Wrote(t, SendData(t, flags, seqNum, ackNum, payload, env), env.now)
  {
    SegWrites(t, flags, seqNum, ackNum, payload, env.now);
  }

  lemma {:induction false} SynWrites(t: Tcb, flags: Flags, seqNum: u32, ackNum: u32, env: Env)
    requires flags.syn
    ensures Wrote(t, SendSyn(t, flags, seqNum, ackNum, env), env.now)
  {
    var t' := SendSyn(t, flags, seqNum, ackNum, env);
    WroteOne(t, t', t'.wire[|t.wire|], env.now);
  }

  lemma {:induction false} AckWritten(t: Tcb, env: Env)
    ensures Wrote(t, SendAck(t, env), env.now)
  {
    var t' := SendAck(t, env);
    WroteOne(t, t', t'.wire[|t.wire|], env.now);
  }

  lemma {:induction false} RstWrites(t: Tcb, seqNum: u32, env: Env)
    ensures Wrote(t, SendRst(t, seqNum, env), env.now)
  {
    DataWrites(t, F_RST, seqNum, 0, [], env);
  }

  lemma {:induction false} ChallengeWrites(t: Tcb, env: Env)
    ensures Wrote(t, SendChallengeAck(t, env), env.now)
  {
    var t' := SendChallengeAck(t, env);
    if t'.wire == t.wire { WroteNothing(t, t', env.now); } else { WroteOne(t, t', t'.wire[|t.wire|], env.now); }
  }

  lemma {:induction false} EmitWrote(t: Tcb, env: Env)
    requires Unsent(t.snd)
    ensures Wrote(t, EmitNext(t, env), env.now)
  {
    var t' := EmitNext(t, env);
    var payload := t.snd.buf[InFlight(t.snd)..InFlight(t.snd)
                                              + SegmentSize(|t.snd.buf| - InFlight(t.snd), SendUsable(t.snd))];
    DataWrites(t, F_PSH_ACK, t.snd.nxt, t.rcv.nxt, payload, env);
    assert t'.wire == SendData(t, F_PSH_ACK, t.snd.nxt, t.rcv.nxt, payload, env).wire;
  }

  lemma {:induction false} FlushWrote(t: Tcb, idle: bool, env: Env)
    ensures Wrote(t, FlushFrom(t, idle, env), env.now)
    decreases |t.snd.buf| - InFlight(t.snd)
  {
    if MaySend(t.snd, idle) {
      EmitProgress(t, idle, env);
      EmitWrote(t, env);
      FlushWrote(EmitNext(t, env), idle, env);
      WroteMore(t, EmitNext(t, env), FlushFrom(t, idle, env), env.now);
    } else {
      WroteNothing(t, StopSending(t, env), env.now);
    }
  }

  // ----- arriving segments -----

  lemma {:induction false} NoteAckWrote(t: Tcb, s: Segment, env: Env)
    ensures Wrote(t, NoteAck(t, s, env), env.now)
  {
    var t' := NoteAck(t, s, env);
    if t'.wire == t.wire { WroteNothing(t, t', env.now); } else { WroteOne(t, t', t'.wire[|t.wire|], env.now); }
  }

  lemma {:induction false} AdvanceWrote(t: Tcb, s: Segment, env: Env)
    ensures Wrote(t, AdvanceOnAck(UpdateSendWindow(t, s), env), env.now)
  {
    WroteNothing(t, AdvanceOnAck(UpdateSendWindow(t, s), env), env.now);
  }

  lemma {:induction false} AckWrote(t: Tcb, s: Segment, env: Env)
    ensures Wrote(t, HandleAck(t, s, env), env.now)
  {
    var t1 := NoteAck(t, s, env);
    NoteAckWrote(t, s, env);
    AdvanceWrote(t1, s, env);
    var t3 := AdvanceOnAck(UpdateSendWindow(t1, s), env);
    FlushWrote(t3, t3.snd.nxt == t3.snd.una, env);
    WroteMore(t, t1, t3, env.now);
    WroteMore(t, t3, HandleAck(t, s, env), env.now);
  }

  lemma {:induction false} TextWrote(t: Tcb, s: Segment, env: Env)
    ensures Wrote(t, AcceptText(t, s, env), env.now)
  {
    var t' := AcceptText(t, s, env);
    if t'.wire == t.wire { WroteNothing(t, t', env.now); } else { WroteOne(t, t', t'.wire[|t.wire|], env.now); }
  }

  lemma {:induction false} FinWrote(t: Tcb, env: Env)
    ensures Wrote(t, HandleFin(t, env), env.now)
  {
    var t' := HandleFin(t, env);
    WroteOne(t, t', t'.wire[|t.wire|], env.now);
  }

  lemma {:induction false} TextFinWrote(t: Tcb, s: Segment, env: Env)
    ensures Wrote(t, TextAndFin(t, s, env), env.now)
  {
    var t1 := AcceptText(t, s, env);
    TextWrote(t, s, env);
    FinWrote(t1, env);
    if FinInOrder(t1, s) { WroteMore(t, t1, HandleFin(t1, env), env.now); }
  }

  lemma {:induction false} RefuseWrote(t: Tcb, s: Segment, env: Env)
    ensures Wrote(t, RefuseAck(t, s, env), env.now)
  {
    RstWrites(t, s.ackNum, env);
    ChallengeWrites(t, env);
  }

  lemma {:induction false} AnswerWrote(t: Tcb, s: Segment, env: Env)
    requires (t.state == TimeWait && s.flags.fin && !s.flags.rst) || PawsStale(t, s)
          || (!Acceptable(t.rcv, s) && !s.flags.rst) || s.flags.rst || s.flags.syn
    ensures Wrote(t, OnSynchronized(t, s, env), env.now)
  {
    AckWritten(t, env);
    ChallengeWrites(t, env);
    var t' := OnSynchronized(t, s, env);
    if t'.wire == t.wire { WroteNothing(t, t', env.now); }
  }

  /** Only UpdateTsRecent changes what was agreed, and it does so before anything is written. */
  lemma {:induction false} SynchronizedWrote(t: Tcb, s: Segment, env: Env)
    ensures var t' := OnSynchronized(t, s, env);
      Wrote(t.(neg := t'.neg), t', env.now) && t'.neg == t.neg.(tsRecent := t'.neg.tsRecent)
  {
    if (t.state == TimeWait && s.flags.fin && !s.flags.rst) || PawsStale(t, s)
       || (!Acceptable(t.rcv, s) && !s.flags.rst) || s.flags.rst || s.flags.syn {
      AnswerWrote(t, s, env);
    } else {
      var t1 := UpdateTsRecent(t, s);
      assert t1 == t.(neg := t1.neg) && t1.neg == t.neg.(tsRecent := t1.neg.tsRecent);
      AcceptableWrote(t1, s, env);
      assert OnSynchronized(t, s, env)
        == if !s.flags.ack then t1 else if !AckAccepted(t1, s) then RefuseAck(t1, s, env)
           else TextAndFin(HandleAck(t1, s, env), s, env);
    }
  }

  lemma {:induction false} AcceptableWrote(t: Tcb, s: Segment, env: Env)
    ensures Wrote(t, t, env.now) && Wrote(t, RefuseAck(t, s, env), env.now)
    ensures Wrote(t, TextAndFin(HandleAck(t, s, env), s, env), env.now)
  {
    WroteNothing(t, t, env.now);
    RefuseWrote(t, s, env);
    AckWrote(t, s, env);
    TextFinWrote(HandleAck(t, s, env), s, env);
    WroteMore(t, HandleAck(t, s, env), TextAndFin(HandleAck(t, s, env), s, env), env.now);
  }

  lemma {:induction false} ClosedWrote(t: Tcb, s: Segment, env: Env)
    ensures Wrote(t, OnClosed(t, s, env), env.now)
  {
    WroteNothing(t, t, env.now);
    RstWrites(t, s.ackNum, env);
    RstWrites(t, 0, env);
    var t1 := SendRst(t, 0, env);
    DataWrites(t1, F_RST_ACK, 0, Add(s.seqNum, SegLen(s)), [], env);
    WroteMore(t, t1, SendData(t1, F_RST_ACK, 0, Add(s.seqNum, SegLen(s)), [], env), env.now);
  }

  lemma {:induction false} ListenWrote(t: Tcb, s: Segment, env: Env)
    ensures var t' := OnListen(t, s, env);
      Wrote(t.(neg := t'.neg), t', env.now)
  {
    RstWrites(t, s.ackNum, env);
    if s.flags.rst || (!s.flags.ack && !s.flags.syn) {
      WroteNothing(t, t, env.now);
    } else if !s.flags.ack {
      var t' := OnListen(t, s, env);
      WroteOne(t.(neg := t'.neg), t', t'.wire[|t.wire|], env.now);
    }
  }

  lemma {:induction false} SynSentWrote(t: Tcb, s: Segment, env: Env)
    ensures var t' := OnSynSent(t, s, env);
      Wrote(t.(neg := t'.neg), t', env.now)
  {
    RstWrites(t, s.ackNum, env);
    var t' := OnSynSent(t, s, env);
    if t'.wire == t.wire { WroteNothing(t.(neg := t'.neg), t', env.now); }
    else if s.flags.syn && !s.flags.rst && !(s.flags.ack && SynAckBad(t, s)) {
      WroteOne(t.(neg := t'.neg), t', t'.wire[|t.wire|], env.now);
    }
  }

  /** A step of the connection, whose agreed options may change before it writes. */
  ghost predicate StepWrote(t: Tcb, t': Tcb, now: Time) {
    Wrote(t.(neg := t'.neg), t', now)
  }

  lemma {:induction false} SegmentWrote(t: Tcb, s: Segment, env: Env)
    ensures StepWrote(t, OnSegment(t, s, env), env.now)
  {
    match t.state
    case Closed => ClosedWrote(t, s, env); assert t.(neg := t.neg) == t;
    case Listen => ListenWrote(t, s, env);
    case SynSent => SynSentWrote(t, s, env);
    case _ => SynchronizedWrote(t, s, env);
  }

  // ----- timers and calls -----

  lemma {:induction false} RetransmitWrote(t: Tcb, env: Env)
    ensures Wrote(t, CheckRetransmit(CheckTimeWait(t, env), env), env.now)
  {
    var t' := CheckRetransmit(CheckTimeWait(t, env), env);
    if t'.wire == t.wire { WroteNothing(t, t', env.now); } else { WroteOne(t, t', t'.wire[|t.wire|], env.now); }
  }

  lemma {:induction false} PersistWrote(t: Tcb, env: Env)
    ensures Wrote(t, CheckPersist(t, env), env.now)
  {
    var t' := CheckPersist(t, env);
    if t'.wire == t.wire { WroteNothing(t, t', env.now); } else { WroteOne(t, t', t'.wire[|t.wire|], env.now); }
  }

  lemma {:induction false} OverrideWrote(t: Tcb, env: Env)
    ensures Wrote(t, CheckOverride(t, env), env.now)
  {
    var t' := CheckOverride(t, env);
    if t.override.armed && t.override.deadline <= env.now && Unsent(t.snd) && SendUsable(t.snd) != 0 {
      EmitWrote(t, env);
    } else {
      WroteNothing(t, t', env.now);
    }
  }

  lemma {:induction false} DelAckWrote(t: Tcb, env: Env)
    ensures Wrote(t, CheckDelAck(t, env), env.now)
  {
    AckWritten(t, env);
    WroteNothing(t, t, env.now);
  }

  lemma {:induction false} TickWrote(t: Tcb, env: Env)
    ensures Wrote(t, Tick(t, env), env.now)
  {
    RetransmitWrote(t, env);
    var t2 := CheckRetransmit(CheckTimeWait(t, env), env);
    PersistWrote(t2, env);
    var t3 := CheckPersist(t2, env);
    OverrideWrote(t3, env);
    var t4 := CheckOverride(t3, env);
    DelAckWrote(t4, env);
    WroteMore(t, t2, t3, env.now);
    WroteMore(t, t3, t4, env.now);
    WroteMore(t, t4, Tick(t, env), env.now);
  }

  lemma {:induction false} CloseWrote(t: Tcb, env: Env)
    ensures Wrote(t, Close(t, env), env.now)
  {
    DataWrites(t, F_FIN_ACK, t.snd.nxt, t.rcv.nxt, [], env);
    var t' := Close(t, env);
    if t'.wire == t.wire { WroteNothing(t, t', env.now); }
  }

  lemma {:induction false} RecvWrote(t: Tcb, max: nat, env: Env)
    ensures Wrote(t, Recv(t, max, env), env.now)
  {
    var t' := Recv(t, max, env);
    if t.rcv.buf == [] { WroteNothing(t, t', env.now); }
    else {
      var t1 := t.(rcv := Reassembly.Read(t.rcv, Min(max, |t.rcv.buf|), EffMss(t.snd)));
      AckWritten(t1, env);
      WroteNothing(t, t1, env.now);
      WroteMore(t, t1, SendAck(t1, env), env.now);
    }
  }

  lemma {:induction false} SendWrote(t: Tcb, data: seq<u8>, env: Env)
    requires |t.snd.buf| + |data| <= SEND_LIMIT
    ensures Wrote(t, Send(t, data, env), env.now)
  {
    if SendOutcome(t.state, |data|).Sent? {
      var t1 := t.(snd := t.snd.(buf := t.snd.buf + data));
      FlushWrote(t1, t1.snd.nxt == t1.snd.una, env);
    } else {
      WroteNothing(t, t, env.now);
    }
  }

  lemma {:induction false} SameOptions(t: Tcb, t': Tcb, now: Time)
    requires Wrote(t, t', now)
    ensures StepWrote(t, t', now)
  {
    assert t.(neg := t'.neg) == t;
  }

  /** Every step only appends to what was written; what it appends is stamped; and
      Last.ACK.sent is the acknowledgement written last. */
  lemma {:induction false} StepWrites(t: Tcb, i: Input, env: Env, t': Tcb)
    requires HasRoom(t, i) && t' == Step(t, i, env)
    ensures StepWrote(t, t', env.now)
  {
    match i
    case CallSend(data) => SendWrote(t, data, env); SameOptions(t, t', env.now);
    case CallRecv(max) => RecvWrote(t, max, env); SameOptions(t, t', env.now);
    case CallClose => CloseWrote(t, env); SameOptions(t, t', env.now);
    case TimerTick => TickWrote(t, env); SameOptions(t, t', env.now);
    case Arrive(s) => SegmentWrote(t, s, env);
  }
}
