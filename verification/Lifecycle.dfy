/** The connection state machine over single steps and whole runs, with any segments at
    all arriving (tcp/transport/statemachine.go:184-221, 533-781, 902-961). */
module Lifecycle {
  import opened SeqNum
  import opened Reassembly
  import opened Segments
  import opened Tcb
  import opened StateMachine
  import opened SenderRecords
  import opened SenderSteps

  /** The arrows of the state diagram of section 3.3.2 of RFC 9293, opens left out. */
  predicate DiagramEdge(a: State, b: State) {
    match a
    case Listen => b == SynReceived || b == Closed
    case SynSent => b == SynReceived || b == Established || b == Closed
    case SynReceived => b == Established || b == FinWait1 || b == Listen
    case Established => b == FinWait1 || b == CloseWait
    case FinWait1 => b == FinWait2 || b == Closing || b == TimeWait
    case FinWait2 => b == TimeWait
    case Closing => b == TimeWait
    case CloseWait => b == LastAck
    case LastAck => b == Closed
    case TimeWait => b == Closed
    case Closed => false
  }

  /** One step: no change, one arrow, the two arrows of a segment that carries both the ACK
      of our SYN and a FIN, or an abort. */
  predicate Follows(a: State, b: State) {
    || b == a || DiagramEdge(a, b)
    || (a == SynReceived && b == CloseWait)
    || (b == Closed && a != Closed)
  }

  // ----- what the handlers do to the state and to SND.UNA -----

  lemma {:induction false} EmitKeepsState(t: Tcb, env: Env)
    requires Unsent(t.snd)
    ensures var t' := EmitNext(t, env);
      t'.state == t.state && t'.snd.una == t.snd.una && t'.timeWaitDeadline == t.timeWaitDeadline
      && t'.timeWaitDuration == t.timeWaitDuration
  {
  }

  lemma {:induction false} FlushKeepsState(t: Tcb, idle: bool, env: Env)
    ensures var t' := FlushFrom(t, idle, env);
      t'.state == t.state && t'.snd.una == t.snd.una && t'.timeWaitDeadline == t.timeWaitDeadline
      && t'.timeWaitDuration == t.timeWaitDuration
    decreases |t.snd.buf| - InFlight(t.snd)
  {
    if MaySend(t.snd, idle) {
      EmitProgress(t, idle, env);
      EmitKeepsState(t, env);
      FlushKeepsState(EmitNext(t, env), idle, env);
    }
  }

  lemma {:induction false} NoteAckUna(t: Tcb, s: Segment, env: Env)
    ensures var t' := NoteAck(t, s, env);
      && t'.snd.una == (if AcceptableAck(t.snd.una, s.ackNum, t.snd.nxt) then s.ackNum else t.snd.una)
      && t'.snd.nxt == t.snd.nxt && t'.state == t.state && t'.rcv == t.rcv
      && t'.timeWaitDeadline == t.timeWaitDeadline && t'.timeWaitDuration == t.timeWaitDuration
  {
  }

  lemma {:induction false} WindowKeepsState(t: Tcb, s: Segment)
    ensures var t' := UpdateSendWindow(t, s);
      && t'.snd.una == t.snd.una && t'.snd.nxt == t.snd.nxt && t'.state == t.state && t'.rcv == t.rcv
      && t'.timeWaitDeadline == t.timeWaitDeadline && t'.timeWaitDuration == t.timeWaitDuration
  {
  }

  /** SND.UNA after the segment's acknowledgement. */
  function NewUna(t: Tcb, s: Segment): u32 {
    if AcceptableAck(t.snd.una, s.ackNum, t.snd.nxt) then s.ackNum else t.snd.una
  }

  lemma {:induction false} HandleAckState(t: Tcb, s: Segment, env: Env)
    ensures var t', all := HandleAck(t, s, env), NewUna(t, s) == t.snd.nxt;
      && t'.snd.una == NewUna(t, s)
      && t'.state == (match t.state
                      case SynReceived => Established
                      case FinWait1 => if all then FinWait2 else FinWait1
                      case Closing => if all then TimeWait else Closing
                      case LastAck => if all then Closed else LastAck
                      case st => st)
      && t'.timeWaitDuration == t.timeWaitDuration
      && t'.timeWaitDeadline == if t.state == Closing && all then env.now + t.timeWaitDuration else t.timeWaitDeadline
  {
    NoteAckUna(t, s, env);
    var t1 := NoteAck(t, s, env);
    WindowKeepsState(t1, s);
    var t3 := AdvanceOnAck(UpdateSendWindow(t1, s), env);
    FlushKeepsState(t3, t3.snd.nxt == t3.snd.una, env);
  }

  lemma {:induction false} TextKeepsState(t: Tcb, s: Segment, env: Env)
    ensures var t' := AcceptText(t, s, env);
      && t'.snd == t.snd && t'.state == t.state
      && t'.timeWaitDeadline == t.timeWaitDeadline && t'.timeWaitDuration == t.timeWaitDuration
  {
  }

  lemma {:induction false} FinState(t: Tcb, env: Env)
    ensures var t' := HandleFin(t, env);
      && t'.snd == t.snd && t'.timeWaitDuration == t.timeWaitDuration
      && (match t.state
          case Established => t'.state == CloseWait
          case SynReceived => t'.state == CloseWait
          case FinWait1 => t'.state == if FinAcked(t) then TimeWait else Closing
          case FinWait2 => t'.state == TimeWait
          case _ => t'.state == t.state)
      && t'.timeWaitDeadline == if t'.state == TimeWait then env.now + t.timeWaitDuration else t.timeWaitDeadline
  {
  }

  /** State changes of an acceptable segment: by its ACK, then by its FIN. */
  lemma {:induction false} TextFinState(t: Tcb, s: Segment, env: Env)
    ensures var t' := TextAndFin(t, s, env);
      && t'.snd == t.snd && t'.timeWaitDuration == t.timeWaitDuration
      && (t'.state == t.state
          || ((t.state == Established || t.state == SynReceived) && t'.state == CloseWait)
          || (t.state == FinWait1 && (t'.state == Closing || t'.state == TimeWait))
          || (t.state == FinWait2 && t'.state == TimeWait))
      && (t'.timeWaitDeadline == t.timeWaitDeadline || t'.timeWaitDeadline == env.now + t.timeWaitDuration)
      && (t'.state == TimeWait && t.state != TimeWait ==> t'.timeWaitDeadline == env.now + t.timeWaitDuration)
  {
    TextKeepsState(t, s, env);
    FinState(AcceptText(t, s, env), env);
  }

  lemma {:induction false} RefuseKeepsState(t: Tcb, s: Segment, env: Env)
    ensures var t' := RefuseAck(t, s, env);
      && t'.snd == t.snd && t'.state == t.state && t'.rcv == t.rcv
      && t'.timeWaitDeadline == t.timeWaitDeadline && t'.timeWaitDuration == t.timeWaitDuration
  {
  }

  lemma {:induction false} TimestampKeepsState(t: Tcb, s: Segment)
    ensures var t' := UpdateTsRecent(t, s);
      && t'.snd == t.snd && t'.state == t.state && t'.rcv == t.rcv
      && t'.timeWaitDeadline == t.timeWaitDeadline && t'.timeWaitDuration == t.timeWaitDuration
  {
  }

  lemma {:induction false} AnswersKeepState(t: Tcb, env: Env)
    ensures var t' := SendAck(t, env);
      t'.snd == t.snd && t'.state == t.state && t'.rcv == t.rcv
      && t'.timeWaitDeadline == t.timeWaitDeadline && t'.timeWaitDuration == t.timeWaitDuration
    ensures var t' := SendChallengeAck(t, env);
      t'.snd == t.snd && t'.state == t.state && t'.rcv == t.rcv
      && t'.timeWaitDeadline == t.timeWaitDeadline && t'.timeWaitDuration == t.timeWaitDuration
  {
  }

  // ----- segments -----

  predicate TakesAck(t: Tcb, s: Segment) {
    && !(t.state == TimeWait && s.flags.fin) && !PawsStale(t, s) && Acceptable(t.rcv, s)
    && !s.flags.rst && !s.flags.syn && s.flags.ack && AckAccepted(t, s)
  }

  lemma {:induction false} TakenIsAcceptable(t: Tcb, s: Segment, env: Env)
    requires TakesAck(t, s)
    ensures OnSynchronized(t, s, env) == OnAcceptable(t, s, env)
  {
  }

  /** A segment outside the ACK path changes neither SND.UNA nor, unless it is a RST, the state. */
  lemma {:induction false} OtherwiseQuiet(t: Tcb, s: Segment, env: Env)
    requires !TakesAck(t, s) && !s.flags.rst
    ensures var t' := OnSynchronized(t, s, env);
      && t'.snd == t.snd && t'.state == t.state && t'.rcv == t.rcv && t'.timeWaitDuration == t.timeWaitDuration
      && t'.timeWaitDeadline ==
         if t.state == TimeWait && s.flags.fin then env.now + t.timeWaitDuration else t.timeWaitDeadline
  {
    AnswersKeepState(t, env);
    TimestampKeepsState(t, s);
    var t1 := UpdateTsRecent(t, s);
    RefuseKeepsState(t1, s, env);
  }

  lemma {:induction false} TakenAckState(t: Tcb, s: Segment, env: Env)
    requires TakesAck(t, s)
    ensures var t' := OnSynchronized(t, s, env);
      && t'.snd.una == NewUna(t, s) && t'.timeWaitDuration == t.timeWaitDuration
      && Follows(t.state, t'.state)
      && (t'.state == Closed <==> t.state == Closed || (t.state == LastAck && NewUna(t, s) == t.snd.nxt))
      && (t'.state == TimeWait ==> t'.timeWaitDeadline == env.now + t.timeWaitDuration
                                   || (t.state == TimeWait && t'.timeWaitDeadline == t.timeWaitDeadline))
  {
    TimestampKeepsState(t, s);
    var t1 := UpdateTsRecent(t, s);
    HandleAckState(t1, s, env);
    TextFinState(HandleAck(t1, s, env), s, env);
  }

  lemma {:induction false} RstState(t: Tcb, s: Segment, env: Env)
    requires s.flags.rst && t.rcv.wnd <= Reassembly.MAX_WINDOW
    ensures var t' := OnSynchronized(t, s, env);
      && t'.snd == t.snd && t'.timeWaitDeadline == t.timeWaitDeadline && t'.timeWaitDuration == t.timeWaitDuration
      && t'.state == if s.seqNum != t.rcv.nxt then t.state
                     else if t.state == SynReceived && t.origin == Passive then Listen else Closed
  {
    AnswersKeepState(t, env);
  }

  // ----- which segments close, reset or advance a connection -----

  lemma {:induction false} FinOutstanding(t: Tcb)
    requires t.state == LastAck && SOk(t)
    ensures t.snd.una != t.snd.nxt && AcceptableAck(t.snd.una, t.snd.nxt, t.snd.nxt)
  {
    assert 0 < InFlight(t.snd) < HALF;
  }

  /** A segment closes a synchronized connection exactly when it is a RST with the expected
      sequence number, or the acceptable ACK of our FIN in LAST-ACK. */
  lemma {:induction false} SegmentClosesIff(t: Tcb, s: Segment, env: Env)
    requires Synchronized(t.state) && SOk(t) && t.rcv.wnd <= Reassembly.MAX_WINDOW
    ensures OnSegment(t, s, env).state == Closed
       <==> (s.flags.rst && s.seqNum == t.rcv.nxt) || (t.state == LastAck && TakesAck(t, s) && s.ackNum == t.snd.nxt)
  {
    if s.flags.rst { RstState(t, s, env); }
    else if TakesAck(t, s) {
      TakenAckState(t, s, env);
      if t.state == LastAck { FinOutstanding(t); }
    } else { OtherwiseQuiet(t, s, env); }
  }

  /** Once synchronized (or in SYN-RECEIVED) a SYN changes nothing in either direction. */
  lemma {:induction false} SynNeverResets(t: Tcb, s: Segment, env: Env)
    requires t.state == SynReceived || Synchronized(t.state)
    requires s.flags.syn && !s.flags.rst
    ensures var t' := OnSegment(t, s, env);
      t'.state == t.state && t'.snd == t.snd && t'.rcv == t.rcv
  {
    OtherwiseQuiet(t, s, env);
  }

  /** A reset in SYN-RECEIVED returns to LISTEN exactly when that is where it came from. */
  lemma {:induction false} ResetInSynReceived(t: Tcb, s: Segment, env: Env)
    requires t.state == SynReceived && t.rcv.wnd <= Reassembly.MAX_WINDOW && s.flags.rst
    ensures var t' := OnSegment(t, s, env);
      && (t'.state == Listen <==> s.seqNum == t.rcv.nxt && t.origin == Passive)
      && (t'.state == Closed <==> s.seqNum == t.rcv.nxt && t.origin == Active)
  {
    RstState(t, s, env);
  }

  /** The origin is fixed on entering SYN-RECEIVED. */
  lemma {:induction false} OriginRecordsEntry(t: Tcb, s: Segment, env: Env)
    requires t.state == Listen || t.state == SynSent
    ensures var t' := OnSegment(t, s, env);
      t'.state == SynReceived ==> (t'.origin == Passive <==> t.state == Listen)
  {
  }

  // ----- timers and calls -----

  /** A timer stage that leaves the state alone. */
  predicate StageQuiet(t: Tcb, t': Tcb) {
    && t'.state == t.state && t'.snd.una == t.snd.una
    && t'.timeWaitDeadline == t.timeWaitDeadline && t'.timeWaitDuration == t.timeWaitDuration
  }

  lemma {:induction false} RetransmitState(t: Tcb, env: Env)
    ensures var t' := CheckRetransmit(t, env);
      && (t'.state == t.state || t'.state == Closed) && t'.snd.una == t.snd.una
      && t'.timeWaitDeadline == t.timeWaitDeadline && t'.timeWaitDuration == t.timeWaitDuration
      && (t.queue == [] ==> t' == t)
  {
  }

  lemma {:induction false} PersistState(t: Tcb, env: Env)
    ensures StageQuiet(t, CheckPersist(t, env))
  {
  }

  lemma {:induction false} OverrideState(t: Tcb, env: Env)
    ensures StageQuiet(t, CheckOverride(t, env))
  {
    if Unsent(t.snd) { EmitKeepsState(t, env); }
  }

  lemma {:induction false} DelAckState(t: Tcb, env: Env)
    ensures StageQuiet(t, CheckDelAck(t, env))
  {
    AnswersKeepState(t, env);
  }

  lemma {:induction false} TickState(t: Tcb, env: Env)
    ensures var t' := Tick(t, env);
      && (t'.state == t.state || t'.state == Closed) && t'.snd.una == t.snd.una
      && t'.timeWaitDeadline == t.timeWaitDeadline && t'.timeWaitDuration == t.timeWaitDuration
      && (t.state == TimeWait && t.queue == [] ==> (t'.state == Closed <==> t.timeWaitDeadline <= env.now))
  {
    var t1 := CheckTimeWait(t, env);
    RetransmitState(t1, env);
    var t2 := CheckRetransmit(t1, env);
    PersistState(t2, env);
    var t3 := CheckPersist(t2, env);
    OverrideState(t3, env);
    DelAckState(CheckOverride(t3, env), env);
  }

  /** The queue head is due after its last allowed retransmission. */
  predicate GivesUp(t: Tcb, env: Env) {
    t.queue != [] && t.queue[0].sentAt + t.rto <= env.now && t.queue[0].retries >= MAX_RETRANSMITS
  }

  /** A tick closes a connection exactly when TIME-WAIT has expired or the retransmission
      limit is reached. */
  lemma {:induction false} TickClosesIff(t: Tcb, env: Env)
    requires t.state != Closed
    ensures Tick(t, env).state == Closed <==> (t.state == TimeWait && t.timeWaitDeadline <= env.now) || GivesUp(t, env)
  {
    var t1 := CheckTimeWait(t, env);
    RetransmitGivesUp(t1, env);
    var t2 := CheckRetransmit(t1, env);
    PersistState(t2, env);
    var t3 := CheckPersist(t2, env);
    OverrideState(t3, env);
    DelAckState(CheckOverride(t3, env), env);
  }

  lemma {:induction false} RetransmitGivesUp(t: Tcb, env: Env)
    ensures CheckRetransmit(t, env).state == if GivesUp(t, env) then Closed else t.state
  {
  }

  lemma {:induction false} SendState(t: Tcb, data: seq<u8>, env: Env)
    requires |t.snd.buf| + |data| <= SEND_LIMIT
    ensures var t' := Send(t, data, env);
      && t'.state == t.state && t'.snd.una == t.snd.una
      && t'.timeWaitDeadline == t.timeWaitDeadline && t'.timeWaitDuration == t.timeWaitDuration
  {
    if SendOutcome(t.state, |data|).Sent? {
      var t1 := t.(snd := t.snd.(buf := t.snd.buf + data));
      FlushKeepsState(t1, t1.snd.nxt == t1.snd.una, env);
    }
  }

  lemma {:induction false} FlushKeepsBuffer(t: Tcb, idle: bool, env: Env)
    ensures FlushFrom(t, idle, env).snd.buf == t.snd.buf
    decreases |t.snd.buf| - InFlight(t.snd)
  {
    if MaySend(t.snd, idle) {
      EmitProgress(t, idle, env);
      FlushKeepsBuffer(EmitNext(t, env), idle, env);
    }
  }

  /** Send takes all its bytes in ESTABLISHED and CLOSE-WAIT, behind those not acknowledged
      yet; before that it fails as not established, after Close as closed, without effect. */
  lemma {:induction false} SendTakes(t: Tcb, data: seq<u8>, env: Env)
    requires |t.snd.buf| + |data| <= SEND_LIMIT
    ensures var t', r := Send(t, data, env), SendOutcome(t.state, |data|);
      if t.state == Established || t.state == CloseWait then r == Sent(|data|) && t'.snd.buf == t.snd.buf + data
      else
        && t' == t
        && r == if t.state == Listen || t.state == SynSent || t.state == SynReceived then NotEstablished else ConnClosed
  {
    if t.state == Established || t.state == CloseWait {
      var t1 := t.(snd := t.snd.(buf := t.snd.buf + data));
      FlushKeepsBuffer(t1, t1.snd.nxt == t1.snd.una, env);
    }
  }

  lemma {:induction false} CloseState(t: Tcb, env: Env)
    ensures var t' := Close(t, env);
      && Follows(t.state, t'.state) && t'.snd.una == t.snd.una
      && (t'.state == TimeWait <==> t.state == TimeWait)
      && t'.timeWaitDeadline == t.timeWaitDeadline && t'.timeWaitDuration == t.timeWaitDuration
  {
  }

  lemma {:induction false} RecvState(t: Tcb, max: nat, env: Env)
    ensures var t' := Recv(t, max, env);
      t'.state == t.state && t'.timeWaitDeadline == t.timeWaitDeadline && t'.timeWaitDuration == t.timeWaitDuration
  {
  }

  lemma {:induction false} RstFollows(t: Tcb, s: Segment, env: Env)
    requires s.flags.rst
    ensures var t' := OnSynchronized(t, s, env);
      && (t'.state == t.state || t'.state == Closed || (t.state == SynReceived && t'.state == Listen))
      && t'.snd == t.snd && t'.timeWaitDeadline == t.timeWaitDeadline && t'.timeWaitDuration == t.timeWaitDuration
  {
    AnswersKeepState(t, env);
  }

  lemma {:induction false} ClosedState(t: Tcb, s: Segment, env: Env)
    ensures var t' := OnClosed(t, s, env);
      t'.state == t.state && t'.snd == t.snd && t'.timeWaitDuration == t.timeWaitDuration
  {
  }

  lemma {:induction false} ListenState(t: Tcb, s: Segment, env: Env)
    requires t.state == Listen
    ensures var t' := OnListen(t, s, env);
      (t'.state == Listen || t'.state == SynReceived) && t'.timeWaitDuration == t.timeWaitDuration
  {
  }

  lemma {:induction false} SynSentState(t: Tcb, s: Segment, env: Env)
    requires t.state == SynSent
    ensures var t' := OnSynSent(t, s, env);
      && (t'.state == SynSent || t'.state == SynReceived || t'.state == Established || t'.state == Closed)
      && t'.timeWaitDuration == t.timeWaitDuration
      && (t'.snd.una != t.snd.una ==>
          s.flags.ack && !SynAckBad(t, s) && t'.state == Established && t'.snd.una == s.ackNum)
  {
  }

  lemma {:induction false} OpeningState(t: Tcb, s: Segment, env: Env)
    requires t.state == Closed || t.state == Listen || t.state == SynSent
    ensures var t' := OnSegment(t, s, env);
      && Follows(t.state, t'.state) && t'.timeWaitDuration == t.timeWaitDuration && t'.state != TimeWait
      && (t.state == Closed ==> t'.snd == t.snd)
      && (t.state == SynSent && t'.snd.una != t.snd.una ==>
          s.flags.ack && !SynAckBad(t, s) && t'.state == Established && t'.snd.una == s.ackNum)
  {
    if t.state == Closed { ClosedState(t, s, env); }
    else if t.state == Listen { ListenState(t, s, env); }
    else { SynSentState(t, s, env); }
  }

  lemma {:induction false} SynchronizedState(t: Tcb, s: Segment, env: Env)
    ensures var t' := OnSynchronized(t, s, env);
      && Follows(t.state, t'.state)
      && (t'.snd.una == t.snd.una || (TakesAck(t, s) && t'.snd.una == NewUna(t, s)))
  {
    if s.flags.rst { RstFollows(t, s, env); }
    else if TakesAck(t, s) { TakenAckState(t, s, env); }
    else { OtherwiseQuiet(t, s, env); }
  }

  lemma {:induction false} SegmentFollows(t: Tcb, s: Segment, env: Env)
    ensures Follows(t.state, OnSegment(t, s, env).state)
    ensures t.state == Closed ==> OnSegment(t, s, env).state == Closed
  {
    if t.state == Closed || t.state == Listen || t.state == SynSent { OpeningState(t, s, env); }
    else { SynchronizedState(t, s, env); }
  }

  /** Every step follows the diagram, or aborts to CLOSED; CLOSED is left only by an open. */
  lemma {:induction false} StepFollowsDiagram(t: Tcb, i: Input, env: Env)
    requires HasRoom(t, i)
    ensures Follows(t.state, Step(t, i, env).state)
    ensures t.state == Closed ==> Step(t, i, env).state == Closed
  {
    match i
    case CallSend(data) => SendState(t, data, env);
    case CallRecv(max) => RecvState(t, max, env);
    case CallClose => CloseState(t, env);
    case TimerTick => TickState(t, env);
    case Arrive(s) => SegmentFollows(t, s, env);
  }

  /** The events that end a connection: an exact reset (unless it falls back to LISTEN), a
      refused SYN, the ACK of our FIN in LAST-ACK, Close before the handshake, the end of
      TIME-WAIT, and the retransmission limit. */
  predicate Ends(t: Tcb, i: Input, env: Env) {
    match i
    case CallClose => t.state == Listen || t.state == SynSent
    case TimerTick => (t.state == TimeWait && t.timeWaitDeadline <= env.now) || GivesUp(t, env)
    case Arrive(s) =>
      if t.state == Listen then false
      else if t.state == SynSent then s.flags.ack && s.flags.rst && !SynAckBad(t, s)
      else if s.flags.rst then s.seqNum == t.rcv.nxt && !(t.state == SynReceived && t.origin == Passive)
      else t.state == LastAck && TakesAck(t, s) && NewUna(t, s) == t.snd.nxt
    case _ => false
  }

  lemma {:induction false} SynSentClosesIff(t: Tcb, s: Segment, env: Env)
    requires t.state == SynSent
    ensures OnSynSent(t, s, env).state == Closed <==> s.flags.ack && s.flags.rst && !SynAckBad(t, s)
  {
  }

  lemma {:induction false} ArrivalClosesIff(t: Tcb, s: Segment, env: Env)
    requires t.state != Closed && t.rcv.wnd <= Reassembly.MAX_WINDOW
    ensures OnSegment(t, s, env).state == Closed <==> Ends(t, Arrive(s), env)
  {
    if t.state == Listen { ListenState(t, s, env); }
    else if t.state == SynSent { SynSentClosesIff(t, s, env); }
    else if s.flags.rst { RstState(t, s, env); }
    else if TakesAck(t, s) { TakenAckState(t, s, env); }
    else { OtherwiseQuiet(t, s, env); }
  }

  lemma {:induction false} CloseClosesIff(t: Tcb, env: Env)
    requires t.state != Closed
    ensures Close(t, env).state == Closed <==> t.state == Listen || t.state == SynSent
  {
  }

  /** Whatever happens, a connection is closed by exactly these events. */
  lemma {:induction false} StepClosesIff(t: Tcb, i: Input, env: Env)
    requires HasRoom(t, i) && t.state != Closed && t.rcv.wnd <= Reassembly.MAX_WINDOW
    ensures Step(t, i, env).state == Closed <==> Ends(t, i, env)
  {
    match i
    case CallSend(data) => SendState(t, data, env);
    case CallRecv(max) => RecvState(t, max, env);
    case CallClose => CloseClosesIff(t, env);
    case TimerTick => TickClosesIff(t, env);
    case Arrive(s) => ArrivalClosesIff(t, s, env);
  }

  /** Only an acceptable acknowledgement moves SND.UNA, and it moves it to that number. */
  lemma {:induction false} UnaMovesOnlyByAck(t: Tcb, i: Input, env: Env)
    requires HasRoom(t, i) && t.state != Listen && (t.state == SynSent ==> SOk(t))
    ensures var t' := Step(t, i, env);
      || t'.snd.una == t.snd.una
      || (i.Arrive? && i.s.flags.ack && AcceptableAck(t.snd.una, i.s.ackNum, t.snd.nxt) && t'.snd.una == i.s.ackNum)
  {
    match i
    case CallSend(data) => SendState(t, data, env);
    case CallRecv(max) => RecvFrame(t, max, env);
    case CallClose => CloseState(t, env);
    case TimerTick => TickState(t, env);
    case Arrive(s) =>
      if t.state == Closed || t.state == SynSent {
        OpeningState(t, s, env);
        if t.state == SynSent && s.flags.ack && !SynAckBad(t, s) { SynAckExact(t.snd.iss, s.ackNum); }
      } else { SynchronizedState(t, s, env); }
  }

  /** In ESTABLISHED and CLOSE-WAIT our SYN has been acknowledged: no SYN is outstanding. */
  lemma {:induction false} OpenMeansSynAcked(t: Tcb, e: RetxSeg)
    requires SOk(t) && (t.state == Established || t.state == CloseWait) && e in t.queue
    ensures !e.flags.syn
  {
    TilesNoSyn(t.queue, HeadSeq(t.snd, t.queue), Dist(t.snd.una, HeadSeq(t.snd, t.queue)), InFlight(t.snd),
      t.snd.buf, e);
  }

  lemma {:induction false} TilesNoSyn(q: seq<RetxSeg>, at: u32, off: int, len: int, buf: seq<u8>, e: RetxSeg)
    requires Tiles(q, at, off, len, buf) && e in q
    ensures !e.flags.syn
  {
    if e != q[0] {
      TilesNoSyn(q[1..], Add(at, EntryLen(q[0])), off + EntryLen(q[0]), len, buf, e);
    }
  }

  // ----- having been ESTABLISHED is never forgotten -----

  /** The record that ESTABLISHED was reached is kept, and only made on entering it. */
  predicate Remembers(t: Tcb, t': Tcb) {
    && (t.reachedEstablished ==> t'.reachedEstablished)
    && (t'.reachedEstablished && !t.reachedEstablished ==> t.state == SynSent || t.state == SynReceived)
  }

  lemma {:induction false} FlushRemembers(t: Tcb, idle: bool, env: Env)
    ensures FlushFrom(t, idle, env).reachedEstablished == t.reachedEstablished
    decreases |t.snd.buf| - InFlight(t.snd)
  {
    if MaySend(t.snd, idle) {
      EmitProgress(t, idle, env);
      FlushRemembers(EmitNext(t, env), idle, env);
    }
  }

  lemma {:induction false} NoteAckRemembers(t: Tcb, s: Segment, env: Env)
    ensures NoteAck(t, s, env).reachedEstablished == t.reachedEstablished
    ensures UpdateSendWindow(t, s).reachedEstablished == t.reachedEstablished
  {
  }

  lemma {:induction false} HandleAckRemembers(t: Tcb, s: Segment, env: Env)
    ensures Remembers(t, HandleAck(t, s, env))
  {
    NoteAckUna(t, s, env);
    NoteAckRemembers(t, s, env);
    var t1 := NoteAck(t, s, env);
    WindowKeepsState(t1, s);
    NoteAckRemembers(t1, s, env);
    var t3 := AdvanceOnAck(UpdateSendWindow(t1, s), env);
    FlushRemembers(t3, t3.snd.nxt == t3.snd.una, env);
  }

  lemma {:induction false} TextFinRemembers(t: Tcb, s: Segment, env: Env)
    ensures AcceptText(t, s, env).reachedEstablished == t.reachedEstablished
    ensures HandleFin(t, env).reachedEstablished == t.reachedEstablished
  {
  }

  lemma {:induction false} AnswersRemember(t: Tcb, s: Segment, env: Env)
    ensures SendAck(t, env).reachedEstablished == t.reachedEstablished
    ensures SendChallengeAck(t, env).reachedEstablished == t.reachedEstablished
    ensures RefuseAck(t, s, env).reachedEstablished == t.reachedEstablished
    ensures HandleRst(t, s, env).reachedEstablished == t.reachedEstablished
    ensures UpdateTsRecent(t, s).reachedEstablished == t.reachedEstablished
  {
  }

  lemma {:induction false} AcceptableRemembers(t: Tcb, s: Segment, env: Env)
    ensures Remembers(t, OnAcceptable(t, s, env))
  {
    AnswersRemember(t, s, env);
    TimestampKeepsState(t, s);
    var t1 := UpdateTsRecent(t, s);
    if s.flags.ack && AckAccepted(t1, s) {
      HandleAckRemembers(t1, s, env);
      var t2 := HandleAck(t1, s, env);
      TextFinRemembers(t2, s, env);
      TextFinRemembers(AcceptText(t2, s, env), s, env);
    } else {
      AnswersRemember(t1, s, env);
    }
  }

  lemma {:induction false} SynchronizedRemembers(t: Tcb, s: Segment, env: Env)
    ensures Remembers(t, OnSynchronized(t, s, env))
  {
    if (t.state == TimeWait && s.flags.fin && !s.flags.rst) || PawsStale(t, s)
       || (!Acceptable(t.rcv, s) && !s.flags.rst) || s.flags.rst || s.flags.syn {
      AnswersRemember(t, s, env);
    } else {
      AcceptableRemembers(t, s, env);
    }
  }

  lemma {:induction false} SegmentRemembers(t: Tcb, s: Segment, env: Env)
    ensures Remembers(t, OnSegment(t, s, env))
  {
    if t.state == Closed || t.state == Listen || t.state == SynSent { OpeningRemembers(t, s, env); }
    else { SynchronizedRemembers(t, s, env); }
  }

  lemma {:induction false} OpeningRemembers(t: Tcb, s: Segment, env: Env)
    requires t.state == Closed || t.state == Listen || t.state == SynSent
    ensures Remembers(t, OnSegment(t, s, env))
  {
  }

  lemma {:induction false} RetransmitRemembers(t: Tcb, env: Env)
    ensures CheckRetransmit(t, env).reachedEstablished == t.reachedEstablished
  {
  }

  lemma {:induction false} PersistRemembers(t: Tcb, env: Env)
    ensures CheckPersist(t, env).reachedEstablished == t.reachedEstablished
  {
  }

  lemma {:induction false} EmitRemembers(t: Tcb, env: Env)
    requires Unsent(t.snd)
    ensures EmitNext(t, env).reachedEstablished == t.reachedEstablished
  {
  }

  lemma {:induction false} OverrideRemembers(t: Tcb, env: Env)
    ensures CheckOverride(t, env).reachedEstablished == t.reachedEstablished
  {
    if Unsent(t.snd) { EmitRemembers(t, env); }
  }

  lemma {:induction false} DelAckRemembers(t: Tcb, env: Env)
    ensures CheckDelAck(t, env).reachedEstablished == t.reachedEstablished
  {
  }

  lemma {:induction false} TickRemembers(t: Tcb, env: Env)
    ensures Tick(t, env).reachedEstablished == t.reachedEstablished
  {
    var t1 := CheckTimeWait(t, env);
    RetransmitRemembers(t1, env);
    var t2 := CheckRetransmit(t1, env);
    PersistRemembers(t2, env);
    var t3 := CheckPersist(t2, env);
    OverrideRemembers(t3, env);
    DelAckRemembers(CheckOverride(t3, env), env);
  }

  lemma {:induction false} SendRemembers(t: Tcb, data: seq<u8>, env: Env)
    requires |t.snd.buf| + |data| <= SEND_LIMIT
    ensures Send(t, data, env).reachedEstablished == t.reachedEstablished
  {
    if SendOutcome(t.state, |data|).Sent? {
      var t1 := t.(snd := t.snd.(buf := t.snd.buf + data));
      FlushRemembers(t1, t1.snd.nxt == t1.snd.una, env);
    }
  }

  lemma {:induction false} CallsRemember(t: Tcb, max: nat, env: Env)
    ensures Recv(t, max, env).reachedEstablished == t.reachedEstablished
    ensures Close(t, env).reachedEstablished == t.reachedEstablished
  {
  }

  /** ESTABLISHED is recorded in the very step that enters it (a FIN in the same segment
      moves on to CLOSE-WAIT). */
  lemma {:induction false} RecordedOnEntering(t: Tcb, s: Segment, env: Env)
    requires !t.reachedEstablished && OnSegment(t, s, env).reachedEstablished
    ensures t.state == SynSent || t.state == SynReceived
    ensures OnSegment(t, s, env).state == Established || OnSegment(t, s, env).state == CloseWait
  {
    SegmentRemembers(t, s, env);
    if t.state == SynReceived {
      AnswersRemember(t, s, env);
      if TakesAck(t, s) {
        TimestampKeepsState(t, s);
        var t1 := UpdateTsRecent(t, s);
        HandleAckState(t1, s, env);
        TextFinState(HandleAck(t1, s, env), s, env);
      } else { QuietForgets(t, s, env); }
    }
  }

  lemma {:induction false} QuietForgets(t: Tcb, s: Segment, env: Env)
    requires !TakesAck(t, s)
    ensures OnSynchronized(t, s, env).reachedEstablished == t.reachedEstablished
  {
    AnswersRemember(t, s, env);
    AnswersRemember(UpdateTsRecent(t, s), s, env);
    TimestampKeepsState(t, s);
  }
}
