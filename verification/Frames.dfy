/** What the steps of a connection do to the receive side and to the state: the frame
    conditions the other modules reason with. */
module Frames {
  import opened SeqNum
  import opened Reassembly
  import opened Segments
  import opened Tcb
  import opened StateMachine

  /** Before the connection is established. */
  predicate Early(s: State) {
    s == Listen || s == SynSent || s == SynReceived
  }

  /** Handshake steps number the peer's stream. */
  predicate Handshakes(t: Tcb, t': Tcb) {
    (t.state == Listen || t.state == SynSent) && (t'.state == SynReceived || t'.state == Established)
  }

  function Texted(r: Receiver, s: Segment): Receiver {
    if s.payload == [] then r else Accept(r, s.seqNum, s.payload)
  }

  function WithFin(r: Receiver): Receiver {
    r.(peerFin := true, peerFinSeq := r.nxt, nxt := Add(r.nxt, 1))
  }

  lemma {:induction false} TextFacts(t: Tcb, s: Segment, env: Env)
    ensures var t' := AcceptText(t, s, env);
      && t'.rcv == (if s.payload == [] then t.rcv else Accept(t.rcv, s.seqNum, s.payload))
      && t'.state == t.state && t'.snd == t.snd
  {
  }

  lemma {:induction false} FinFacts(t: Tcb, env: Env)
    ensures var t' := HandleFin(t, env);
      && t'.rcv == t.rcv.(peerFin := true, peerFinSeq := t.rcv.nxt, nxt := Add(t.rcv.nxt, 1))
      && (Early(t'.state) ==> Early(t.state)) && t'.snd == t.snd
  {
  }

  lemma {:induction false} ListenFacts(t: Tcb, s: Segment, env: Env)
    requires t.state == Listen
    ensures var t' := OnListen(t, s, env);
      if !s.flags.rst && !s.flags.ack && s.flags.syn then
        t'.rcv == t.rcv.(irs := s.seqNum, nxt := Add(s.seqNum, 1)) && t'.state == SynReceived
      else t' == t || (s.flags.ack && t' == SendRst(t, s.ackNum, env))
  {
  }

  lemma {:induction false} RstFacts(t: Tcb, seqNum: u32, env: Env)
    ensures var t' := SendRst(t, seqNum, env);
      t'.rcv == t.rcv && t'.state == t.state && t'.snd == t.snd
  {
  }

  lemma {:induction false} SynSentFacts(t: Tcb, s: Segment, env: Env)
    requires t.state == SynSent
    ensures var t' := OnSynSent(t, s, env);
      if s.flags.syn && !s.flags.rst && !(s.flags.ack && SynAckBad(t, s)) then
        && t'.rcv == t.rcv.(irs := s.seqNum, nxt := Add(s.seqNum, 1))
        && (t'.state == SynReceived || t'.state == Established)
      else t' == t || t' == t.(state := Closed) || t' == SendRst(t, s.ackNum, env)
  {
  }

  lemma {:induction false} ClosedFacts(t: Tcb, s: Segment, env: Env)
    ensures var t' := OnClosed(t, s, env);
      t'.rcv == t.rcv && t'.state == t.state
  {
  }

  lemma {:induction false} FlushFacts(t: Tcb, idle: bool, env: Env)
    ensures FlushFrom(t, idle, env).rcv == t.rcv && FlushFrom(t, idle, env).state == t.state
    decreases |t.snd.buf| - InFlight(t.snd)
  {
    if MaySend(t.snd, idle) {
      EmitProgress(t, idle, env);
      FlushFacts(EmitNext(t, env), idle, env);
    }
  }

  lemma {:induction false} SendFacts(t: Tcb, data: seq<u8>, env: Env)
    requires |t.snd.buf| + |data| <= SEND_LIMIT
    ensures Send(t, data, env).rcv == t.rcv && Send(t, data, env).state == t.state
  {
    if SendOutcome(t.state, |data|).Sent? {
      var t1 := t.(snd := t.snd.(buf := t.snd.buf + data));
      FlushFacts(t1, t1.snd.nxt == t1.snd.una, env);
    }
  }

  lemma {:induction false} CloseFacts(t: Tcb, env: Env)
    ensures Close(t, env).rcv == t.rcv && (Early(Close(t, env).state) ==> Close(t, env).state == t.state)
    ensures Close(t, env).state != Established
  {
  }

  lemma {:induction false} ExpiryFacts(t: Tcb, env: Env)
    ensures var t1 := CheckTimeWait(t, env); t1.rcv == t.rcv && (t1.state == t.state || t1.state == Closed)
  {
  }

  lemma {:induction false} RetransmitFacts(t: Tcb, env: Env)
    ensures var t1 := CheckRetransmit(t, env); t1.rcv == t.rcv && (t1.state == t.state || t1.state == Closed)
  {
  }

  lemma {:induction false} PersistFacts(t: Tcb, env: Env)
    ensures var t1 := CheckPersist(t, env); t1.rcv == t.rcv && t1.state == t.state
  {
  }

  lemma {:induction false} OverrideFacts(t: Tcb, env: Env)
    ensures var t1 := CheckOverride(t, env); t1.rcv == t.rcv && t1.state == t.state
  {
  }

  lemma {:induction false} DelAckFacts(t: Tcb, env: Env)
    ensures var t1 := CheckDelAck(t, env); t1.rcv == t.rcv && t1.state == t.state
  {
  }

  lemma {:induction false} TickFacts(t: Tcb, env: Env)
    ensures Tick(t, env).rcv == t.rcv && (Tick(t, env).state == t.state || Tick(t, env).state == Closed)
  {
    var t1 := CheckTimeWait(t, env);
    var t2 := CheckRetransmit(t1, env);
    var t3 := CheckPersist(t2, env);
    ExpiryFacts(t, env);
    RetransmitFacts(t1, env);
    PersistFacts(t2, env);
    OverrideFacts(t3, env);
    DelAckFacts(CheckOverride(t3, env), env);
  }

  lemma {:induction false} RecvReads(t: Tcb, max: nat, env: Env)
    ensures Recv(t, max, env).rcv == if t.rcv.buf == [] then t.rcv
      else Read(t.rcv, Min(max, |t.rcv.buf|), EffMss(t.snd))
  {
  }

  lemma {:induction false} OpenFacts(t: Tcb, iss: u32, env: Env)
    ensures ActiveOpen(t, iss, env).rcv == t.rcv.(wnd := BuffCap(t.rcv)) && ActiveOpen(t, iss, env).state == SynSent
    ensures PassiveOpen(t).rcv == t.rcv.(wnd := BuffCap(t.rcv)) && PassiveOpen(t).state == Listen
    ensures PassiveOpen(t).snd == t.snd
  {
  }

  lemma {:induction false} NoteAckFrame(t: Tcb, s: Segment, env: Env)
    ensures var t1 := NoteAck(t, s, env);
      && t1.rcv == t.rcv && t1.state == t.state
      && UpdateSendWindow(t1, s).rcv == t.rcv && UpdateSendWindow(t1, s).state == t.state
  {
  }

  lemma {:induction false} AckReceives(t: Tcb, s: Segment, env: Env)
    ensures HandleAck(t, s, env).rcv == t.rcv
  {
    NoteAckFrame(t, s, env);
    var t2 := UpdateSendWindow(NoteAck(t, s, env), s);
    var t3 := AdvanceOnAck(t2, env);
    FlushFacts(t3, t3.snd.nxt == t3.snd.una, env);
  }

  lemma {:induction false} TextFinReceives(t: Tcb, s: Segment, env: Env)
    ensures var r' := TextAndFin(t, s, env).rcv;
      r' == Texted(t.rcv, s) || r' == WithFin(Texted(t.rcv, s))
  {
    TextFacts(t, s, env);
    FinFacts(AcceptText(t, s, env), env);
  }

  /** Only text and FIN of a segment without SYN or RST change the receive side. */
  lemma {:induction false} SynchronizedReceives(t: Tcb, s: Segment, env: Env)
    ensures var r' := OnSynchronized(t, s, env).rcv;
      r' == t.rcv || (!s.flags.rst && !s.flags.syn && (r' == Texted(t.rcv, s) || r' == WithFin(Texted(t.rcv, s))))
  {
    if (t.state == TimeWait && s.flags.fin && !s.flags.rst) || PawsStale(t, s)
       || (!Acceptable(t.rcv, s) && !s.flags.rst) || s.flags.rst || s.flags.syn {
      AnswerReceives(t, s, env);
    } else {
      var t1 := UpdateTsRecent(t, s);
      AckReceives(t1, s, env);
      TextFinReceives(HandleAck(t1, s, env), s, env);
      RefuseReceives(t1, s, env);
    }
  }

  lemma {:induction false} RefuseReceives(t: Tcb, s: Segment, env: Env)
    ensures RefuseAck(t, s, env).rcv == t.rcv
  {
  }

  lemma {:induction false} AnswerReceives(t: Tcb, s: Segment, env: Env)
    requires (t.state == TimeWait && s.flags.fin && !s.flags.rst) || PawsStale(t, s)
          || (!Acceptable(t.rcv, s) && !s.flags.rst) || s.flags.rst || s.flags.syn
    ensures var t' := OnSynchronized(t, s, env);
      t'.rcv == t.rcv && (Early(t'.state) ==> Early(t.state))
  {
  }
}
