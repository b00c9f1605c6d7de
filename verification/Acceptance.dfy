/** The two tests every segment of a synchronized connection has to pass, in distances on the
    sequence-number circle: the acceptability table of section 3.10.7.4 of RFC 9293 and the
    range of acknowledgements of section 5.2 of RFC 5961
    (tcp/transport/statemachine.go:490-528, 740-766). */
module Acceptance {
  import opened SeqNum
  import opened Reassembly
  import opened Segments
  import opened Tcb
  import opened StateMachine
  import opened Frames
  import opened SenderSteps
  import opened Nagle
  import Lifecycle

  /** The four rows of the table: with d the distance from RCV.NXT to SEG.SEQ, the segment
      or its last number lies in the window; of a closed window only RCV.NXT itself. */
  lemma {:induction false} AcceptableIff(r: Receiver, s: Segment)
    requires r.wnd <= Reassembly.MAX_WINDOW
    ensures var d, n := Dist(r.nxt, s.seqNum), |s.payload| + Bit(s.flags.syn) + Bit(s.flags.fin);
      Acceptable(r, s) <==>
        if n == 0 && r.wnd == 0 then d == 0
        else 0 <= d < r.wnd || (n > 0 && r.wnd > 0 && 0 <= d + n - 1 < r.wnd)
  {
  }

  /** An acknowledgement is accepted from MAX.SND.WND before SND.UNA up to SND.NXT; in
      SYN-RECEIVED it must acknowledge something. */
  lemma {:induction false} AckAcceptedIff(t: Tcb, s: Segment)
    requires 0 < InFlight(t.snd) + t.snd.maxWnd < HALF
    ensures var d := Dist(t.snd.una, s.ackNum);
      AckAccepted(t, s) <==>
        (if t.state == SynReceived then 0 < d else 0 - t.snd.maxWnd <= d) && d <= InFlight(t.snd)
  {
  }

  /** The FIN of an accepted segment is taken exactly when the text before it has brought
      RCV.NXT to its number; then RCV.NXT passes it. */
  lemma {:induction false} FinTakenIff(t: Tcb, s: Segment, env: Env)
    requires t.state == SynReceived || Synchronized(t.state)
    requires Lifecycle.TakesAck(t, s)
    ensures var r := Texted(t.rcv, s);
      OnSegment(t, s, env).rcv ==
        if s.flags.fin && Add(s.seqNum, |s.payload|) == r.nxt then
          r.(peerFin := true, peerFinSeq := r.nxt, nxt := Add(r.nxt, 1))
        else r
  {
    var t1 := UpdateTsRecent(t, s);
    Lifecycle.TimestampKeepsState(t, s);
    TakenIs(t, s, env);
    AckReceives(t1, s, env);
    var t2 := HandleAck(t1, s, env);
    TextFacts(t2, s, env);
    FinFacts(AcceptText(t2, s, env), env);
  }

  /** In SYN-SENT exactly the acknowledgement of our SYN is acceptable. */
  lemma {:induction false} SynAckAcceptableIff(t: Tcb, s: Segment)
    requires t.snd.nxt == Add(t.snd.iss, 1)
    ensures !SynAckBad(t, s) <==> s.ackNum == Add(t.snd.iss, 1)
  {
  }

  /** One bare ACK of RCV.NXT is written and nothing else of the connection moves. */
  predicate OnlyAcks(t: Tcb, t': Tcb) {
    && t'.snd == t.snd && t'.rcv == t.rcv && t'.queue == t.queue && t'.state == t.state && t'.neg == t.neg
    && |t'.wire| == |t.wire| + 1 && t'.wire[..|t.wire|] == t.wire
    && t'.wire[|t.wire|].flags == F_ACK && t'.wire[|t.wire|].payload == []
    && t'.wire[|t.wire|].seqNum == t.snd.nxt && t'.wire[|t.wire|].ackNum == t.rcv.nxt
  }

  /** An unacceptable segment without RST is answered by an ACK of what is expected, and has
      no other effect. */
  lemma {:induction false} UnacceptableAcked(t: Tcb, s: Segment, env: Env)
    requires t.state == SynReceived || Synchronized(t.state)
    requires !Acceptable(t.rcv, s) && !s.flags.rst && !(t.state == TimeWait && s.flags.fin)
    ensures OnlyAcks(t, OnSegment(t, s, env))
  {
  }

  /** A FIN in TIME-WAIT, new or old, is acknowledged again and the wait starts over. */
  lemma {:induction false} FinAgainAcked(t: Tcb, s: Segment, env: Env)
    requires t.state == TimeWait && s.flags.fin && !s.flags.rst
    ensures var t' := OnSegment(t, s, env);
      OnlyAcks(t, t') && t'.timeWaitDeadline == env.now + t.timeWaitDuration
  {
  }

  /** In SYN-SENT a segment that acknowledges something else, a leftover of another
      connection, is answered by a reset with its own acknowledgement number, which its
      sender's RCV.NXT makes acceptable there; the open goes on. */
  lemma {:induction false} LeftoverReset(t: Tcb, u: Tcb, s: Segment, e1: Env, e2: Env)
    requires t.state == SynSent && t.snd.nxt == Add(t.snd.iss, 1)
    requires s.flags.ack && !s.flags.rst && s.ackNum != t.snd.nxt
    requires Synchronized(u.state) && u.rcv.nxt == s.ackNum && 0 < u.rcv.wnd <= Reassembly.MAX_WINDOW
    ensures var t' := OnSegment(t, s, e1);
      && t'.state == SynSent && t'.snd == t.snd && t'.rcv == t.rcv && |t'.wire| == |t.wire| + 1
      && OnSegment(u, t'.wire[|t.wire|], e2).state == Closed
  {
    SynAckAcceptableIff(t, s);
    Lifecycle.RstState(u, OnSegment(t, s, e1).wire[|t.wire|], e2);
  }
}
