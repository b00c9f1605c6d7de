/** The ACK that a connection writes for text arriving out of order (section 4 of RFC 2018;
    tcp/transport/data.go:172-256, statemachine.go:453-488). */
module SackAnswers {
  import opened SeqNum
  import opened Reassembly
  import opened Sack
  import opened Segments
  import opened Tcb
  import opened StateMachine
  import opened DelayedAck

  /** From t to t' segments were written, the last one an ACK of RCV.NXT whose first SACK
      block spans stream position p (RCV.NXT is at N). */
  predicate Reports(t: Tcb, t': Tcb, N: int, p: int) {
    && AckedLast(t, t') && t'.rcv.nxt == t.rcv.nxt
    && var o := t'.wire[|t'.wire| - 1].opts;
       && o.Options? && o.o.sackBlocks != [] && |o.o.sackBlocks| <= MAX_SACK_BLOCKS - Bit(t.neg.tsOk)
       && BlockSpans(o.o.sackBlocks[0], t.rcv.nxt, N, p)
  }

  /** An ACK carries the blocks of what is held. */
  lemma {:induction false} AckCarriesBlocks(t: Tcb, env: Env)
    requires t.neg.sackOk && t.rcv.ooo != []
    ensures var t' := SendAck(t, env);
      var bs := SackBlocks(t.rcv.ooo, t.rcv.lastOoo, MAX_SACK_BLOCKS - Bit(t.neg.tsOk));
      && AckedLast(t, t') && t'.rcv == t.rcv && |bs| <= MAX_SACK_BLOCKS - Bit(t.neg.tsOk)
      && var o := t'.wire[|t'.wire| - 1].opts; o.Options? && (bs != [] ==> o.o.sackBlocks == bs)
  {
  }

  /** Text that arrives out of order at position p is answered by an ACK that reports it. */
  lemma {:induction false} TextReported(t: Tcb, s: Segment, N: int, p: int, T: seq<u8>, env: Env)
    requires t.neg.sackOk && Inv(t.rcv, N, T) && s.payload != []
    requires Near(t.rcv.nxt, s.seqNum) && p == N + Dist(t.rcv.nxt, s.seqNum) && FitsAt(s.payload, p, T)
    requires N < p < N + t.rcv.wnd
    ensures Reports(t, AcceptText(t, s, env), N, p)
  {
    var max := MAX_SACK_BLOCKS - Bit(t.neg.tsOk);
    SackAnswersArrival(t.rcv, N, s.seqNum, s.payload, p, T, max);
    var t1 := t.(rcv := Accept(t.rcv, s.seqNum, s.payload));
    TrimRefines(t.rcv, N, s.seqNum, s.payload, p, T);
    GapNotDelayable(t, s);
    AckCarriesBlocks(t1, env);
  }

  /** Its own FIN, if it has one, is not in order then. */
  lemma {:induction false} FinNotYet(t: Tcb, s: Segment)
    requires 0 < Dist(t.rcv.nxt, s.seqNum) <= Reassembly.MAX_WINDOW && !s.flags.syn
    ensures !FinInOrder(t, s)
  {
  }

  lemma {:induction false} ReportsLater(t: Tcb, t1: Tcb, t': Tcb, N: int, p: int)
    requires SameAcking(t, t1) && Reports(t1, t', N, p)
    ensures Reports(t, t', N, p)
  {
  }

  /** An acceptable segment with text out of order: whatever its ACK makes the connection
      send, the last segment written reports the text. */
  lemma {:induction false} AcceptableReported(t: Tcb, s: Segment, N: int, p: int, T: seq<u8>, env: Env)
    requires t.neg.sackOk && Inv(t.rcv, N, T) && s.payload != [] && s.flags.ack && AckAccepted(t, s) && !s.flags.syn
    requires Near(t.rcv.nxt, s.seqNum) && p == N + Dist(t.rcv.nxt, s.seqNum) && FitsAt(s.payload, p, T)
    requires N < p < N + t.rcv.wnd
    ensures Reports(t, OnAcceptable(t, s, env), N, p)
  {
    AcceptableIsText(t, s, env);
    AckAcking(t, s, env);
    var t2 := HandleAck(UpdateTsRecent(t, s), s, env);
    TextReported(t2, s, N, p, T, env);
    FinNotYet(AcceptText(t2, s, env), s);
    ReportsLater(t, t2, AcceptText(t2, s, env), N, p);
  }
}
