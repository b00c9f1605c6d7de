/** A close on both sides that nothing disturbs ends in CLOSED on both, through the states of
    figure 12 of RFC 9293, with end of file reported in between; and an open that meets a
    closed connection is refused (tcp/transport/statemachine.go:183-221, 540-550, 600-612,
    709-738, 900-960). */
module Closing {
  import opened SeqNum
  import opened Reassembly
  import opened Segments
  import opened Tcb
  import opened StateMachine
  import opened Frames
  import opened Nagle
  import opened Exchange
  import Lifecycle

  /** The FIN goes out behind everything sent. */
  lemma {:induction false} FinWritten(t: Tcb, env: Env)
    requires Calm(t) && (t.state == Established || t.state == CloseWait)
    ensures var t' := Close(t, env);
      && t'.wire != [] && var s := Latest(t');
      && s.flags == F_FIN_ACK && s.seqNum == t.snd.nxt && s.ackNum == t.rcv.nxt && s.payload == []
      && StampedAt(s, env.now)
      && t'.state == (if t.state == Established then FinWait1 else LastAck)
      && t'.snd == t.snd.(nxt := Add(t.snd.nxt, 1)) && t'.rcv == t.rcv && t'.neg == t.neg
      && t'.queue == [RetxSeg(t.snd.nxt, F_FIN_ACK, [], env.now, 0, false)]
  {
  }

  /** The newest timestamp is the old one or the segment's. */
  predicate StampKept(t: Tcb, t': Tcb, now: Time) {
    && t'.neg.tsOk == t.neg.tsOk
    && (t'.neg.tsRecent == t.neg.tsRecent || t'.neg.tsRecent == TsNow(now))
  }

  lemma {:induction false} StampTaken(t: Tcb, s: Segment, now: Time)
    requires StampedAt(s, now)
    ensures var t1 := UpdateTsRecent(t, s);
      && StampKept(t, t1, now) && t1 == t.(neg := t1.neg)
  {
  }

  lemma {:induction false} StillOnTime(t: Tcb, t': Tcb, a: Time, b: Time)
    requires StampKept(t, t', a) && OnTime(t, b) && a <= b < a + (HALF - 1) * MILLISECOND
    ensures OnTime(t', b)
  {
    ClockAdvances(a, b);
  }

  /** A FIN that is next in order is taken and acknowledged; with the buffer read, Recv
      reports end of file from then on. */
  lemma {:induction false} FinTaken(t: Tcb, s: Segment, env: Env, now: Time)
    requires Calm(t) && (t.state == Established || t.state == FinWait2)
    requires s.flags == F_FIN_ACK && s.payload == [] && s.seqNum == t.rcv.nxt && s.ackNum == t.snd.nxt
    requires StampedAt(s, now) && OnTime(t, now)
    ensures var t' := OnSegment(t, s, env);
      && t'.state == (if t.state == Established then CloseWait else TimeWait)
      && t'.rcv == t.rcv.(peerFin := true, peerFinSeq := t.rcv.nxt, nxt := Add(t.rcv.nxt, 1))
      && AcksAll(t', env.now) && Calm(t') && t'.snd.nxt == t.snd.nxt && StampKept(t, t', now)
      && (t.state == FinWait2 ==> t'.timeWaitDeadline == env.now + t.timeWaitDuration)
      && (t.rcv.buf == [] ==> forall max :: RecvOutcome(t'.rcv, max) == Eof)
  {
    assert Lifecycle.TakesAck(t, s);
    TakenIs(t, s, env);
    StampTaken(t, s, now);
    var t1 := UpdateTsRecent(t, s);
    NothingAcked(t1, s, env);
    Lifecycle.HandleAckState(t1, s, env);
    var t2 := HandleAck(t1, s, env);
    FinAnswered(t2, s, env);
    Lifecycle.FinState(t2, env);
  }

  lemma {:induction false} FinAnswered(t: Tcb, s: Segment, env: Env)
    requires s.flags.fin && s.payload == [] && !s.flags.syn && s.seqNum == t.rcv.nxt
    ensures var t' := TextAndFin(t, s, env);
      && t' == HandleFin(t, env) && AcksAll(t', env.now) && t'.snd == t.snd && t'.queue == t.queue && t'.neg == t.neg
      && t'.rcv == t.rcv.(peerFin := true, peerFinSeq := t.rcv.nxt, nxt := Add(t.rcv.nxt, 1))
  {
  }

  /** The ACK of our FIN. */
  lemma {:induction false} FinAckTaken(t: Tcb, s: Segment, env: Env, now: Time)
    requires t.state == FinWait1 || t.state == LastAck
    requires t.queue != [] && t.queue[1..] == [] && Add(t.queue[0].seqNum, EntryLen(t.queue[0])) == t.snd.nxt
    requires t.snd.nxt == Add(t.snd.una, 1) && t.snd.buf == [] && 65535 <= t.snd.maxWnd <= MAX_SND_WINDOW
    requires t.rcv.ooo == [] && 0 < t.rcv.wnd <= Reassembly.MAX_WINDOW
    requires s.flags == F_ACK && s.payload == [] && s.seqNum == t.rcv.nxt && s.ackNum == t.snd.nxt
    requires StampedAt(s, now) && OnTime(t, now)
    ensures var t' := OnSegment(t, s, env);
      && t'.state == (if t.state == FinWait1 then FinWait2 else Closed)
      && t'.queue == [] && t'.snd.buf == [] && t'.snd.una == t'.snd.nxt == t.snd.nxt && t'.rcv == t.rcv
      && 65535 <= t'.snd.maxWnd <= MAX_SND_WINDOW && StampKept(t, t', now)
      && t'.timeWaitDuration == t.timeWaitDuration
  {
    assert Lifecycle.TakesAck(t, s);
    TakenIs(t, s, env);
    StampTaken(t, s, now);
    var t1 := UpdateTsRecent(t, s);
    AllAcked(t1, s, env);
    Lifecycle.HandleAckState(t1, s, env);
  }

  /** In TIME-WAIT nothing is left to do but to wait. */
  lemma {:induction false} WaitsOut(t: Tcb, env: Env)
    requires t.state == TimeWait && t.timeWaitDeadline <= env.now
    ensures Tick(t, env).state == Closed
  {
    Lifecycle.TickClosesIff(t, env);
  }

  /** The two halves of the close: x closes and y learns of it. */
  lemma {:induction false} FirstClose(x: Tcb, y: Tcb, e1: Env, e2: Env, e3: Env) returns (x1: Tcb, y1: Tcb, x2: Tcb)
    requires Calm(x) && Calm(y) && x.state == Established && y.state == Established
    requires y.rcv.nxt == x.snd.nxt && x.rcv.nxt == y.snd.nxt && OnTime(y, e1.now) && OnTime(x, e2.now)
    ensures x1 == Close(x, e1) && x1.state == FinWait1 && x1.wire != []
    ensures y1 == OnSegment(y, Latest(x1), e2) && y1.state == CloseWait && y1.wire != [] && Calm(y1)
    ensures y.rcv.buf == [] ==> forall max :: RecvOutcome(y1.rcv, max) == Eof
    ensures x2 == OnSegment(x1, Latest(y1), e3) && x2.state == FinWait2 && Calm(x2)
    ensures y1.rcv.nxt == x2.snd.nxt && x2.rcv.nxt == y1.snd.nxt && x2.rcv == x.rcv
    ensures StampKept(y, y1, e1.now) && StampKept(x, x2, e2.now) && x2.timeWaitDuration == x.timeWaitDuration
  {
    FinWritten(x, e1);
    x1 := Close(x, e1);
    FinTaken(y, Latest(x1), e2, e1.now);
    y1 := OnSegment(y, Latest(x1), e2);
    FinAckTaken(x1, Latest(y1), e3, e2.now);
    x2 := OnSegment(x1, Latest(y1), e3);
  }

  /** The other half: y closes too, x waits, y is done. */
  lemma {:induction false} SecondClose(x: Tcb, y: Tcb, e4: Env, e5: Env, e6: Env) returns (y2: Tcb, x3: Tcb, y3: Tcb)
    requires Calm(x) && Calm(y) && x.state == FinWait2 && y.state == CloseWait
    requires y.rcv.nxt == x.snd.nxt && x.rcv.nxt == y.snd.nxt && OnTime(x, e4.now) && OnTime(y, e5.now)
    ensures y2 == Close(y, e4) && y2.state == LastAck && y2.wire != []
    ensures x3 == OnSegment(x, Latest(y2), e5) && x3.state == TimeWait && x3.wire != []
    ensures x.rcv.buf == [] ==> forall max :: RecvOutcome(x3.rcv, max) == Eof
    ensures x3.timeWaitDeadline == e5.now + x.timeWaitDuration
    ensures y3 == OnSegment(y2, Latest(x3), e6) && y3.state == Closed && y3.queue == []
  {
    FinWritten(y, e4);
    y2 := Close(y, e4);
    FinTaken(x, Latest(y2), e5, e4.now);
    x3 := OnSegment(x, Latest(y2), e5);
    FinAckTaken(y2, Latest(x3), e6, e5.now);
    y3 := OnSegment(y2, Latest(x3), e6);
  }

  /** A close on both sides, undisturbed: FIN-WAIT-1, CLOSE-WAIT, FIN-WAIT-2, LAST-ACK,
      TIME-WAIT, CLOSED, and CLOSED on the other side once TIME-WAIT has passed; both readers
      see end of file. */
  lemma {:induction false} BothClose(x: Tcb, y: Tcb, e1: Env, e2: Env, e3: Env, e4: Env, e5: Env, e6: Env, e7: Env)
    returns (x1: Tcb, y1: Tcb, x2: Tcb, y2: Tcb, x3: Tcb, y3: Tcb)
    requires Calm(x) && Calm(y) && x.state == Established && y.state == Established
    requires y.rcv.nxt == x.snd.nxt && x.rcv.nxt == y.snd.nxt && x.rcv.buf == [] && y.rcv.buf == []
    requires OnTime(y, e1.now) && OnTime(y, e5.now) && e1.now <= e5.now < e1.now + (HALF - 1) * MILLISECOND
    requires OnTime(x, e2.now) && OnTime(x, e4.now) && e2.now <= e4.now < e2.now + (HALF - 1) * MILLISECOND
    requires e7.now >= e5.now + x.timeWaitDuration
    ensures x1 == Close(x, e1) && x1.state == FinWait1 && x1.wire != []
    ensures y1 == OnSegment(y, Latest(x1), e2) && y1.state == CloseWait && y1.wire != []
    ensures x2 == OnSegment(x1, Latest(y1), e3) && x2.state == FinWait2
    ensures y2 == Close(y1, e4) && y2.state == LastAck && y2.wire != []
    ensures x3 == OnSegment(x2, Latest(y2), e5) && x3.state == TimeWait && x3.wire != []
    ensures y3 == OnSegment(y2, Latest(x3), e6) && y3.state == Closed
    ensures Tick(x3, e7).state == Closed
    ensures forall max :: RecvOutcome(y1.rcv, max) == Eof && RecvOutcome(x3.rcv, max) == Eof
  {
    x1, y1, x2 := FirstClose(x, y, e1, e2, e3);
    StillOnTime(x, x2, e2.now, e4.now);
    StillOnTime(y, y1, e1.now, e5.now);
    y2, x3, y3 := SecondClose(x2, y1, e4, e5, e6);
    WaitsOut(x3, e7);
  }

  // ----- nobody there -----

  /** An open that meets a closed connection is refused: of the two resets in answer the one
      with an ACK closes it, whichever arrives first. */
  lemma {:induction false} OpenRefused(t: Tcb, u: Tcb, iss: u32, e1: Env, e2: Env, e3: Env, e4: Env)
    requires FreshTcb(t) && u.state == Closed
    ensures var c := ActiveOpen(t, iss, e1);
      && c.wire != [] && var u' := OnSegment(u, Latest(c), e2);
      && |u'.wire| == |u.wire| + 2 && u'.state == Closed
      && var a, b := u'.wire[|u.wire|], u'.wire[|u.wire| + 1];
      && OnSegment(c, b, e3).state == Closed && OnSegment(c, a, e3) == c
  {
    SynWritten(t, iss, e1);
    var c := ActiveOpen(t, iss, e1);
    var u' := OnSegment(u, Latest(c), e2);
    assert u'.wire[|u.wire|].flags == F_RST && u'.wire[|u.wire| + 1].flags == F_RST_ACK;
    assert u'.wire[|u.wire| + 1].ackNum == Add(iss, 1);
    RefusalAcceptable(iss);
  }

  lemma {:induction false} RefusalAcceptable(iss: u32)
    ensures !SeqLEQ(Add(iss, 1), iss) && !SeqGT(Add(iss, 1), Add(iss, 1))
  {
  }

  /** A connection whose peer has forgotten it: the reset that answers any segment with a
      current acknowledgement closes it. */
  lemma {:induction false} HalfOpenResolved(t: Tcb, u: Tcb, s: Segment, e1: Env, e2: Env)
    requires Synchronized(t.state) && 0 < t.rcv.wnd <= Reassembly.MAX_WINDOW && u.state == Closed
    requires s.flags.ack && !s.flags.rst && s.ackNum == t.rcv.nxt
    ensures var u' := OnSegment(u, s, e1);
      && |u'.wire| == |u.wire| + 1 && OnSegment(t, u'.wire[|u.wire|], e2).state == Closed
  {
    Lifecycle.RstState(t, OnSegment(u, s, e1).wire[|u.wire|], e2);
  }
}
