/** The limit on retransmissions (tcp/transport/statemachine.go:238-304): the retry counter
    of the queue head counts the timer's retransmissions of that entry, never above the
    limit, and the next time it is due the connection is given up. */
module Retries {
  import opened SeqNum
  import opened Reassembly
  import opened Segments
  import opened Tcb
  import opened StateMachine
  import opened SenderSteps
  import opened FlowControl
  import opened Runs
  import Lifecycle

  /** Only the head has ever been retransmitted by the timer. */
  predicate FreshTail(q: seq<RetxSeg>) {
    forall j :: 1 <= j < |q| ==> q[j].retries == 0
  }

  predicate Appended(q: seq<RetxSeg>, q': seq<RetxSeg>) {
    |q| <= |q'| && q'[..|q|] == q && forall j :: |q| <= j < |q'| ==> q'[j].retries == 0
  }

  /** The segment's acknowledgement is taken as new. */
  predicate TakesNewAck(t: Tcb, s: Segment) {
    if t.state == SynSent then s.flags.syn && s.flags.ack && !s.flags.rst && !SynAckBad(t, s)
    else
      && t.state != Closed && t.state != Listen && Lifecycle.TakesAck(t, s)
      && AcceptableAck(t.snd.una, s.ackNum, t.snd.nxt)
  }

  /** The entry at the head of the queue leaves it: acknowledged, given up, or the open is
      called off. */
  predicate Drops(t: Tcb, i: Input, env: Env) {
    t.queue != [] &&
    match i
    case Arrive(s) => TakesNewAck(t, s) && SeqLEQ(Add(t.queue[0].seqNum, EntryLen(t.queue[0])), s.ackNum)
    case TimerTick => Lifecycle.GivesUp(t, env)
    case CallClose => t.state == SynSent
    case _ => false
  }

  predicate Resends(t: Tcb, i: Input, env: Env) {
    i == TimerTick && RetransmitDue(t, env)
  }

  /** How the head changes: it stays and counts a retransmission by the timer, or it leaves
      and the next head, if any, starts from zero. */
  predicate HeadMoves(q: seq<RetxSeg>, q': seq<RetxSeg>, dropped: bool, resent: bool) {
    && FreshTail(q')
    && (if q != [] && !dropped then q' != [] && q'[0].retries == q[0].retries + Bit(resent)
        else q' != [] ==> q'[0].retries == 0)
  }

  lemma {:induction false} MovesThenAppends(q: seq<RetxSeg>, q1: seq<RetxSeg>, q': seq<RetxSeg>, dropped: bool,
                                            resent: bool)
    requires HeadMoves(q, q1, dropped, resent) && Appended(q1, q')
    ensures HeadMoves(q, q', dropped, resent)
  {
    forall j | 1 <= j < |q'| ensures q'[j].retries == 0 {
      if j < |q1| { assert q'[j] == q'[..|q1|][j] == q1[j]; }
    }
    if q1 != [] { assert q'[0] == q'[..|q1|][0] == q1[0]; }
  }

  lemma {:induction false} StaysThenAppends(q: seq<RetxSeg>, q': seq<RetxSeg>)
    requires FreshTail(q) && Appended(q, q')
    ensures HeadMoves(q, q', false, false)
  {
    if q != [] { MovesThenAppends(q, q, q', false, false); }
  }

  // ----- sending -----

  lemma {:induction false} EmitAppends(t: Tcb, env: Env)
    requires Unsent(t.snd)
    ensures Appended(t.queue, EmitNext(t, env).queue)
  {
  }

  lemma {:induction false} AppendsOn(a: seq<RetxSeg>, b: seq<RetxSeg>, c: seq<RetxSeg>)
    requires Appended(a, b) && Appended(b, c)
    ensures Appended(a, c)
  {
    assert c[..|a|] == c[..|b|][..|a|];
    forall j | |a| <= j < |c| ensures c[j].retries == 0 {
      if j < |b| { assert c[j] == c[..|b|][j]; }
    }
  }

  lemma {:induction false} FlushAppends(t: Tcb, idle: bool, env: Env)
    ensures Appended(t.queue, FlushFrom(t, idle, env).queue)
    decreases |t.snd.buf| - InFlight(t.snd)
  {
    if MaySend(t.snd, idle) {
      EmitProgress(t, idle, env);
      EmitAppends(t, env);
      FlushAppends(EmitNext(t, env), idle, env);
      AppendsOn(t.queue, EmitNext(t, env).queue, FlushFrom(t, idle, env).queue);
    } else {
      StopFrame(t, env);
    }
  }

  lemma {:induction false} SendAppends(t: Tcb, data: seq<u8>, env: Env)
    requires |t.snd.buf| + |data| <= SEND_LIMIT
    ensures Appended(t.queue, Send(t, data, env).queue)
  {
    if SendOutcome(t.state, |data|).Sent? {
      var t1 := t.(snd := t.snd.(buf := t.snd.buf + data));
      FlushAppends(t1, t1.snd.nxt == t1.snd.una, env);
    }
  }

  lemma {:induction false} CloseMoves(t: Tcb, env: Env)
    requires FreshTail(t.queue)
    ensures HeadMoves(t.queue, Close(t, env).queue, Drops(t, CallClose, env), false)
  {
  }

  // ----- the tick -----

  lemma {:induction false} RetransmitMoves(t: Tcb, env: Env)
    requires FreshTail(t.queue)
    ensures HeadMoves(t.queue, CheckRetransmit(t, env).queue, Lifecycle.GivesUp(t, env), RetransmitDue(t, env))
  {
  }

  lemma {:induction false} PersistAppends(t: Tcb, env: Env)
    ensures Appended(t.queue, CheckPersist(t, env).queue)
  {
  }

  lemma {:induction false} OverrideAppends(t: Tcb, env: Env)
    ensures Appended(t.queue, CheckOverride(t, env).queue)
  {
    if Unsent(t.snd) { EmitAppends(t, env); }
  }

  lemma {:induction false} DelAckAppends(t: Tcb, env: Env)
    ensures CheckDelAck(t, env).queue == t.queue
  {
  }

  lemma {:induction false} TickMoves(t: Tcb, env: Env)
    requires FreshTail(t.queue)
    ensures HeadMoves(t.queue, Tick(t, env).queue, Drops(t, TimerTick, env), Resends(t, TimerTick, env))
  {
    var t1 := CheckTimeWait(t, env);
    ExpiryFrame(t, env);
    RetransmitMoves(t1, env);
    var t2 := CheckRetransmit(t1, env);
    PersistAppends(t2, env);
    var t3 := CheckPersist(t2, env);
    OverrideAppends(t3, env);
    var t4 := CheckOverride(t3, env);
    DelAckAppends(t4, env);
    AppendsOn(t2.queue, t3.queue, t4.queue);
    MovesThenAppends(t.queue, t2.queue, t4.queue, Drops(t, TimerTick, env), Resends(t, TimerTick, env));
  }

  // ----- acknowledgements -----

  lemma {:induction false} PopFresh(q: seq<RetxSeg>, ack: u32)
    requires FreshTail(q)
    ensures var r := PopAcked(q, ack);
      && FreshTail(r) && |r| <= |q|
      && (if q != [] && SeqLEQ(Add(q[0].seqNum, EntryLen(q[0])), ack) then |r| < |q| && (r != [] ==> r[0].retries == 0)
          else r == q)
  {
    if q != [] && SeqLEQ(Add(q[0].seqNum, EntryLen(q[0])), ack) {
      assert forall j :: 0 <= j < |q[1..]| ==> q[1..][j] == q[j + 1];
      PopFresh(q[1..], ack);
    }
  }

  lemma {:induction false} AckQueueMoves(t: Tcb, ack: u32, env: Env)
    requires FreshTail(t.queue)
    ensures var acked := t.queue != [] && SeqLEQ(Add(t.queue[0].seqNum, EntryLen(t.queue[0])), ack);
      HeadMoves(t.queue, AckQueue(t, ack, env).queue, acked, false)
  {
    PopFresh(t.queue, ack);
  }

  lemma {:induction false} DupAckMoves(t: Tcb, env: Env)
    requires FreshTail(t.queue)
    ensures HeadMoves(t.queue, OnDuplicateAck(t, env).queue, false, false)
  {
  }

  /** The head ends at or before an acceptable acknowledgement number. */
  predicate HeadAcked(t: Tcb, s: Segment) {
    && t.queue != [] && AcceptableAck(t.snd.una, s.ackNum, t.snd.nxt)
    && SeqLEQ(Add(t.queue[0].seqNum, EntryLen(t.queue[0])), s.ackNum)
  }

  lemma {:induction false} NoteAckMoves(t: Tcb, s: Segment, env: Env)
    requires FreshTail(t.queue)
    ensures HeadMoves(t.queue, NoteAck(t, s, env).queue, HeadAcked(t, s), false)
  {
    if AcceptableAck(t.snd.una, s.ackNum, t.snd.nxt) {
      AckQueueMoves(t.(snd := t.snd.(una := s.ackNum)), s.ackNum, env);
    }
    else if IsDupAck(t, s) { DupAckMoves(t, env); }
  }

  lemma {:induction false} AdvanceQueue(t: Tcb, s: Segment, env: Env)
    ensures AdvanceOnAck(UpdateSendWindow(t, s), env).queue == t.queue
  {
  }

  lemma {:induction false} AckMoves(t: Tcb, s: Segment, env: Env)
    requires FreshTail(t.queue)
    ensures HeadMoves(t.queue, HandleAck(t, s, env).queue, HeadAcked(t, s), false)
  {
    var t1 := NoteAck(t, s, env);
    NoteAckMoves(t, s, env);
    AdvanceQueue(t1, s, env);
    var t3 := AdvanceOnAck(UpdateSendWindow(t1, s), env);
    FlushAppends(t3, t3.snd.nxt == t3.snd.una, env);
    MovesThenAppends(t.queue, t1.queue, HandleAck(t, s, env).queue, HeadAcked(t, s), false);
  }

  // ----- arriving segments -----

  lemma {:induction false} TextFinQueue(t: Tcb, s: Segment, env: Env)
    ensures TextAndFin(t, s, env).queue == t.queue
  {
    TextFrame(t, s, env);
    FinQueue(AcceptText(t, s, env), env);
  }

  lemma {:induction false} FinQueue(t: Tcb, env: Env)
    ensures HandleFin(t, env).queue == t.queue
  {
  }

  lemma {:induction false} TimestampQueue(t: Tcb, s: Segment)
    ensures var t1 := UpdateTsRecent(t, s);
      t1.queue == t.queue && t1.snd == t.snd && t1.state == t.state && HeadAcked(t1, s) == HeadAcked(t, s)
  {
  }

  lemma {:induction false} TakenMoves(t: Tcb, s: Segment, env: Env)
    requires FreshTail(t.queue) && Lifecycle.TakesAck(t, s)
    ensures HeadMoves(t.queue, OnSynchronized(t, s, env).queue, HeadAcked(t, s), false)
  {
    var t1 := UpdateTsRecent(t, s);
    TimestampQueue(t, s);
    Lifecycle.TakenIsAcceptable(t, s, env);
    AcceptableTaken(t, s, env);
    AckMoves(t1, s, env);
    TextFinQueue(HandleAck(t1, s, env), s, env);
  }

  lemma {:induction false} AcceptableTaken(t: Tcb, s: Segment, env: Env)
    requires Lifecycle.TakesAck(t, s)
    ensures OnAcceptable(t, s, env) == TextAndFin(HandleAck(UpdateTsRecent(t, s), s, env), s, env)
  {
  }

  lemma {:induction false} AcceptableRefused(t: Tcb, s: Segment, env: Env)
    requires !(s.flags.ack && AckAccepted(t, s))
    ensures OnAcceptable(t, s, env).queue == t.queue
  {
    var t1 := UpdateTsRecent(t, s);
    assert t1.queue == t.queue && t1.snd == t.snd && t1.state == t.state;
    RefuseFrame(t1, s, env);
  }

  lemma {:induction false} OtherQueue(t: Tcb, s: Segment, env: Env)
    requires !Lifecycle.TakesAck(t, s)
    ensures OnSynchronized(t, s, env).queue == t.queue
  {
    if (t.state == TimeWait && s.flags.fin && !s.flags.rst) || PawsStale(t, s)
       || (!Acceptable(t.rcv, s) && !s.flags.rst) || s.flags.rst || s.flags.syn {
      AnswerFrame(t, s, env);
    } else {
      AcceptableRefused(t, s, env);
    }
  }

  lemma {:induction false} ListenAppends(t: Tcb, s: Segment, env: Env)
    ensures Appended(t.queue, OnListen(t, s, env).queue) && OnClosed(t, s, env).queue == t.queue
  {
  }

  lemma {:induction false} SynSentMoves(t: Tcb, s: Segment, env: Env)
    requires FreshTail(t.queue) && t.state == SynSent
    ensures HeadMoves(t.queue, OnSynSent(t, s, env).queue, Drops(t, Arrive(s), env), false)
  {
    if TakesNewAck(t, s) {
      var t1 := SynAckTaken(t, s, env);
      AckQueueMoves(t1, s.ackNum, env);
    } else {
      SynSentAppends(t, s, env);
      StaysThenAppends(t.queue, OnSynSent(t, s, env).queue);
    }
  }

  lemma {:induction false} SynAckTaken(t: Tcb, s: Segment, env: Env) returns (t1: Tcb)
    requires t.state == SynSent && TakesNewAck(t, s)
    ensures t1.queue == t.queue && OnSynSent(t, s, env).queue == AckQueue(t1, s.ackNum, env).queue
  {
    t1 := Negotiate(t.(rcv := t.rcv.(irs := s.seqNum, nxt := Add(s.seqNum, 1))), s);
    t1 := t1.(snd := t1.snd.(una := s.ackNum));
  }

  lemma {:induction false} SynSentAppends(t: Tcb, s: Segment, env: Env)
    requires t.state == SynSent && !TakesNewAck(t, s)
    ensures Appended(t.queue, OnSynSent(t, s, env).queue)
  {
  }

  lemma {:induction false} ArrivalMoves(t: Tcb, s: Segment, env: Env)
    requires FreshTail(t.queue)
    ensures HeadMoves(t.queue, OnSegment(t, s, env).queue, Drops(t, Arrive(s), env), false)
  {
    if t.state == Closed || t.state == Listen {
      ListenAppends(t, s, env);
      StaysThenAppends(t.queue, OnSegment(t, s, env).queue);
    } else if t.state == SynSent {
      SynSentMoves(t, s, env);
    } else if Lifecycle.TakesAck(t, s) {
      TakenMoves(t, s, env);
    } else {
      OtherQueue(t, s, env);
    }
  }

  lemma {:induction false} StepMoves(t: Tcb, i: Input, env: Env, t': Tcb)
    requires FreshTail(t.queue) && IsStep(t, i, env, t')
    ensures HeadMoves(t.queue, t'.queue, Drops(t, i, env), Resends(t, i, env))
  {
    match i
    case CallSend(data) => SendAppends(t, data, env); StaysThenAppends(t.queue, t'.queue);
    case CallRecv(max) => RecvFrame(t, max, env);
    case CallClose => CloseMoves(t, env);
    case TimerTick => TickMoves(t, env);
    case Arrive(s) => ArrivalMoves(t, s, env);
  }

  // ----- runs -----

  /** How often the timer has retransmitted the entry that heads the queue after n steps. */
  function Resent(ts: seq<Tcb>, inputs: seq<Input>, envs: seq<Env>, n: nat): nat
    requires |ts| == |inputs| + 1 && |envs| == |inputs| && n <= |inputs|
  {
    if n == 0 || ts[n - 1].queue == [] || Drops(ts[n - 1], inputs[n - 1], envs[n - 1]) then 0
    else Resent(ts, inputs, envs, n - 1) + Bit(Resends(ts[n - 1], inputs[n - 1], envs[n - 1]))
  }

  lemma {:induction false} OpenedQueue(s: Start)
    ensures |Opened(s).queue| <= 1 && (Opened(s).queue != [] ==> Opened(s).queue[0].retries == 0)
  {
  }

  /** Over every run: the head's counter is the number of times the timer has retransmitted
      it, five at most, and no other entry has been. */
  lemma {:induction false} HeadResent(s: Start, ts: seq<Tcb>, inputs: seq<Input>, envs: seq<Env>, n: nat)
    requires RunFrom(s, ts, inputs, envs) && n < |ts|
    ensures FreshTail(ts[n].queue)
    ensures ts[n].queue != [] ==> ts[n].queue[0].retries == Resent(ts, inputs, envs, n) <= MAX_RETRANSMITS
  {
    if n == 0 {
      OpenedQueue(s);
    } else {
      HeadResent(s, ts, inputs, envs, n - 1);
      assert StepAt(ts, inputs, envs, n - 1);
      StepMoves(ts[n - 1], inputs[n - 1], envs[n - 1], ts[n]);
    }
  }

  /** A tick at which the head is due retransmits it if that happened fewer than five times,
      and gives the connection up otherwise. */
  lemma {:induction false} DueHead(s: Start, ts: seq<Tcb>, inputs: seq<Input>, envs: seq<Env>, n: nat, env: Env)
    requires RunFrom(s, ts, inputs, envs) && n < |ts| && ts[n].queue != []
    requires ts[n].queue[0].sentAt + ts[n].rto <= env.now
    ensures var t, t', count := ts[n], Tick(ts[n], env), Resent(ts, inputs, envs, n);
      if count < MAX_RETRANSMITS then |t'.wire| > |t.wire| && t'.queue != [] && t'.queue[0].retries == count + 1
      else t'.state == Closed && (t'.queue != [] ==> t'.queue[0].retries == 0)
  {
    HeadResent(s, ts, inputs, envs, n);
    TickWritesIff(ts[n], env);
    TickMoves(ts[n], env);
  }

  // ----- back-off -----

  /** k times doubled, up to 60 seconds. */
  function Doubled(rto: Time, k: nat): Time {
    if k == 0 then rto else Min(MAX_RTO, rto * Pow2(k))
  }

  lemma {:induction false} DoubledOnce(rto: Time, k: nat)
    requires rto >= 0
    ensures BackoffRto(Doubled(rto, k)) == Doubled(rto, k + 1)
  {
    var p := Pow2(k);
    assert Pow2(k + 1) == 2 * p && rto * (2 * p) == 2 * (rto * p);
  }

  /** A queue that was not empty keeps its timeout. */
  predicate TimeoutKept(t: Tcb, t': Tcb) {
    t.queue != [] ==> t'.queue != [] && t'.rto == t.rto
  }

  lemma {:induction false} EmitTimeout(t: Tcb, env: Env)
    requires Unsent(t.snd)
    ensures TimeoutKept(t, EmitNext(t, env))
  {
  }

  lemma {:induction false} FlushTimeout(t: Tcb, idle: bool, env: Env)
    ensures TimeoutKept(t, FlushFrom(t, idle, env))
    decreases |t.snd.buf| - InFlight(t.snd)
  {
    if MaySend(t.snd, idle) {
      EmitProgress(t, idle, env);
      EmitTimeout(t, env);
      FlushTimeout(EmitNext(t, env), idle, env);
    }
  }

  lemma {:induction false} CallsTimeout(t: Tcb, data: seq<u8>, max: nat, env: Env)
    ensures TimeoutKept(t, Recv(t, max, env)) && (t.state != SynSent ==> TimeoutKept(t, Close(t, env)))
    ensures |t.snd.buf| + |data| <= SEND_LIMIT ==> TimeoutKept(t, Send(t, data, env))
  {
    if |t.snd.buf| + |data| <= SEND_LIMIT && SendOutcome(t.state, |data|).Sent? {
      var t1 := t.(snd := t.snd.(buf := t.snd.buf + data));
      FlushTimeout(t1, t1.snd.nxt == t1.snd.una, env);
    }
  }

  lemma {:induction false} RetransmitTimeout(t: Tcb, env: Env)
    requires t.queue != [] && !Lifecycle.GivesUp(t, env)
    ensures var t' := CheckRetransmit(t, env);
      t'.queue != [] && t'.rto == if RetransmitDue(t, env) then BackoffRto(t.rto) else t.rto
  {
  }

  lemma {:induction false} StagesTimeout(t: Tcb, env: Env)
    ensures TimeoutKept(t, CheckPersist(t, env)) && TimeoutKept(t, CheckDelAck(t, env))
    ensures TimeoutKept(t, CheckOverride(t, env))
  {
    if Unsent(t.snd) { EmitTimeout(t, env); }
  }

  lemma {:induction false} TickTimeout(t: Tcb, env: Env)
    requires t.queue != [] && !Drops(t, TimerTick, env)
    ensures var t' := Tick(t, env);
      t'.queue != [] && t'.rto == if Resends(t, TimerTick, env) then BackoffRto(t.rto) else t.rto
  {
    var t1 := CheckTimeWait(t, env);
    ExpiryFrame(t, env);
    RetransmitTimeout(t1, env);
    var t2 := CheckRetransmit(t1, env);
    StagesTimeout(t2, env);
    var t3 := CheckPersist(t2, env);
    StagesTimeout(t3, env);
    StagesTimeout(CheckOverride(t3, env), env);
  }

  lemma {:induction false} NoteAckTimeout(t: Tcb, s: Segment, env: Env)
    requires !HeadAcked(t, s)
    ensures TimeoutKept(t, NoteAck(t, s, env))
  {
    if AcceptableAck(t.snd.una, s.ackNum, t.snd.nxt) { assert PopAcked(t.queue, s.ackNum) == t.queue; }
  }

  lemma {:induction false} AckTimeout(t: Tcb, s: Segment, env: Env)
    requires !HeadAcked(t, s)
    ensures TimeoutKept(t, HandleAck(t, s, env))
  {
    var t1 := NoteAck(t, s, env);
    NoteAckTimeout(t, s, env);
    AdvanceTimeout(t1, s, env);
    var t3 := AdvanceOnAck(UpdateSendWindow(t1, s), env);
    FlushTimeout(t3, t3.snd.nxt == t3.snd.una, env);
  }

  lemma {:induction false} AdvanceTimeout(t: Tcb, s: Segment, env: Env)
    ensures TimeoutKept(t, AdvanceOnAck(UpdateSendWindow(t, s), env))
  {
  }

  lemma {:induction false} TextFinTimeout(t: Tcb, s: Segment, env: Env)
    ensures TimeoutKept(t, TextAndFin(t, s, env))
  {
    TextTimeout(t, s, env);
    FinTimeout(AcceptText(t, s, env), env);
  }

  lemma {:induction false} TextTimeout(t: Tcb, s: Segment, env: Env)
    ensures TimeoutKept(t, AcceptText(t, s, env))
  {
  }

  lemma {:induction false} FinTimeout(t: Tcb, env: Env)
    ensures TimeoutKept(t, HandleFin(t, env))
  {
  }

  lemma {:induction false} SynchronizedTimeout(t: Tcb, s: Segment, env: Env)
    requires !(Lifecycle.TakesAck(t, s) && HeadAcked(t, s))
    ensures TimeoutKept(t, OnSynchronized(t, s, env))
  {
    if Lifecycle.TakesAck(t, s) {
      Lifecycle.TakenIsAcceptable(t, s, env);
      AcceptableTaken(t, s, env);
      TimestampQueue(t, s);
      var t1 := UpdateTsRecent(t, s);
      AckTimeout(t1, s, env);
      TextFinTimeout(HandleAck(t1, s, env), s, env);
    } else {
      OtherQueue(t, s, env);
      OtherTimeout(t, s, env);
    }
  }

  lemma {:induction false} OtherTimeout(t: Tcb, s: Segment, env: Env)
    requires !Lifecycle.TakesAck(t, s)
    ensures OnSynchronized(t, s, env).rto == t.rto
  {
    RefuseTimeout(UpdateTsRecent(t, s), s, env);
  }

  lemma {:induction false} RefuseTimeout(t: Tcb, s: Segment, env: Env)
    ensures RefuseAck(t, s, env).rto == t.rto
  {
  }

  lemma {:induction false} OpeningTimeout(t: Tcb, s: Segment, env: Env)
    requires t.state == Closed || t.state == Listen || t.state == SynSent
    requires t.queue != [] && !Drops(t, Arrive(s), env)
    ensures TimeoutKept(t, OnSegment(t, s, env))
  {
    if t.state == SynSent && TakesNewAck(t, s) {
      var t1 := SynAckTaken(t, s, env);
      assert PopAcked(t.queue, s.ackNum) == t.queue;
      SynAckTimeout(t, s, env);
    } else {
      ListenAppends(t, s, env);
      if t.state == SynSent { SynSentAppends(t, s, env); }
      BareTimeout(t, s, env);
    }
  }

  lemma {:induction false} SynAckTimeout(t: Tcb, s: Segment, env: Env)
    requires t.state == SynSent && TakesNewAck(t, s) && PopAcked(t.queue, s.ackNum) == t.queue
    ensures OnSynSent(t, s, env).rto == t.rto && OnSynSent(t, s, env).queue == t.queue
  {
  }

  lemma {:induction false} BareTimeout(t: Tcb, s: Segment, env: Env)
    requires t.queue != [] && !(t.state == SynSent && TakesNewAck(t, s))
    requires t.state == Closed || t.state == Listen || t.state == SynSent
    ensures OnSegment(t, s, env).rto == t.rto
  {
  }

  /** The timeout of a queue whose head stays changes only when the timer resends the head:
      then it is backed off. */
  lemma {:induction false} StepTimeout(t: Tcb, i: Input, env: Env, t': Tcb)
    requires IsStep(t, i, env, t') && t.queue != [] && !Drops(t, i, env)
    ensures t'.queue != [] && t'.rto == if Resends(t, i, env) then BackoffRto(t.rto) else t.rto
  {
    match i
    case CallSend(data) => CallsTimeout(t, data, 0, env);
    case CallRecv(max) => CallsTimeout(t, [], max, env);
    case CallClose => CallsTimeout(t, [], 0, env);
    case TimerTick => TickTimeout(t, env);
    case Arrive(s) =>
      if t.state == Closed || t.state == Listen || t.state == SynSent { OpeningTimeout(t, s, env); }
      else { SynchronizedTimeout(t, s, env); }
  }

  // ----- a new head -----

  /** The timer starts afresh for the entry at the head. */
  predicate Started(t: Tcb, env: Env) {
    t.queue != [] ==> t.rto == env.rto && t.queue[0].sentAt == env.now
  }

  lemma {:induction false} StartsOn(t: Tcb, t': Tcb, env: Env)
    requires Started(t, env) && TimeoutKept(t, t') && Appended(t.queue, t'.queue)
    requires t.queue == [] ==> Started(t', env)
    ensures Started(t', env)
  {
    if t.queue != [] { assert t'.queue[0] == t'.queue[..|t.queue|][0]; }
  }

  lemma {:induction false} EmitStarts(t: Tcb, env: Env)
    requires Unsent(t.snd) && SendUsable(t.snd) > 0 && t.queue == []
    ensures Started(EmitNext(t, env), env) && EmitNext(t, env).queue != []
  {
  }

  lemma {:induction false} FlushStarts(t: Tcb, idle: bool, env: Env)
    requires Started(t, env)
    ensures Started(FlushFrom(t, idle, env), env)
  {
    FlushTimeout(t, idle, env);
    FlushAppends(t, idle, env);
    if t.queue == [] && MaySend(t.snd, idle) {
      EmitProgress(t, idle, env);
      EmitStarts(t, env);
      var t1 := EmitNext(t, env);
      FlushTimeout(t1, idle, env);
      FlushAppends(t1, idle, env);
      StartsOn(t1, FlushFrom(t1, idle, env), env);
    } else if t.queue == [] {
      StopFrame(t, env);
    }
    StartsOn(t, FlushFrom(t, idle, env), env);
  }

  lemma {:induction false} PopShrinks(t: Tcb, ack: u32, env: Env)
    requires FreshTail(t.queue)
    ensures t.queue != [] && SeqLEQ(Add(t.queue[0].seqNum, EntryLen(t.queue[0])), ack)
      ==> Started(AckQueue(t, ack, env), env)
  {
    PopFresh(t.queue, ack);
  }

  /** When an acknowledgement removes the head, the timer is restarted for the next one, or
      for what the freed window lets out. */
  lemma {:induction false} AckStarts(t: Tcb, s: Segment, env: Env)
    requires FreshTail(t.queue) && HeadAcked(t, s)
    ensures Started(HandleAck(t, s, env), env)
  {
    var t1 := NoteAck(t, s, env);
    PopShrinks(t.(snd := t.snd.(una := s.ackNum)), s.ackNum, env);
    assert Started(t1, env);
    AdvanceStarts(t1, s, env);
    var t3 := AdvanceOnAck(UpdateSendWindow(t1, s), env);
    FlushStarts(t3, t3.snd.nxt == t3.snd.una, env);
  }

  lemma {:induction false} AdvanceStarts(t: Tcb, s: Segment, env: Env)
    requires Started(t, env)
    ensures Started(AdvanceOnAck(UpdateSendWindow(t, s), env), env)
  {
  }

  lemma {:induction false} TakenStarts(t: Tcb, s: Segment, env: Env)
    requires FreshTail(t.queue) && Lifecycle.TakesAck(t, s) && HeadAcked(t, s)
    ensures Started(OnSynchronized(t, s, env), env)
  {
    Lifecycle.TakenIsAcceptable(t, s, env);
    AcceptableTaken(t, s, env);
    TimestampQueue(t, s);
    var t1 := UpdateTsRecent(t, s);
    AckStarts(t1, s, env);
    var t2 := HandleAck(t1, s, env);
    TextFinTimeout(t2, s, env);
    TextFinQueue(t2, s, env);
  }

  /** Over every run: the acknowledgement that removes the queue head restarts the timer, at
      that moment and with the estimator's timeout, for whatever heads the queue next. */
  lemma {:induction false} TimerRestarts(s: Start, ts: seq<Tcb>, inputs: seq<Input>, envs: seq<Env>, k: nat)
    requires RunFrom(s, ts, inputs, envs) && k < |inputs| && inputs[k].Arrive?
    requires ts[k].state == SynReceived || Synchronized(ts[k].state)
    requires Drops(ts[k], inputs[k], envs[k])
    ensures ts[k + 1].queue != [] ==>
      ts[k + 1].rto == envs[k].rto && ts[k + 1].queue[0].sentAt == envs[k].now
  {
    HeadResent(s, ts, inputs, envs, k);
    assert StepAt(ts, inputs, envs, k);
    TakenStarts(ts[k], inputs[k].s, envs[k]);
  }

  /** The head of state m is still the head in state n. */
  ghost predicate HeadStays(ts: seq<Tcb>, inputs: seq<Input>, envs: seq<Env>, m: nat, n: nat)
    requires |ts| == |inputs| + 1 && |envs| == |inputs| && m <= n <= |inputs|
  {
    ts[m].queue != [] && forall k :: m <= k < n ==> !Drops(ts[k], inputs[k], envs[k])
  }

  lemma {:induction false} BackoffAt(s: Start, ts: seq<Tcb>, inputs: seq<Input>, envs: seq<Env>, k: nat)
    requires RunFrom(s, ts, inputs, envs) && k < |inputs|
    requires ts[k].queue != [] && !Drops(ts[k], inputs[k], envs[k])
    ensures var resent := Resends(ts[k], inputs[k], envs[k]);
      && ts[k + 1].queue != [] && ts[k + 1].queue[0].retries == ts[k].queue[0].retries + Bit(resent)
      && ts[k + 1].rto == if resent then BackoffRto(ts[k].rto) else ts[k].rto
  {
    HeadResent(s, ts, inputs, envs, k);
    assert StepAt(ts, inputs, envs, k);
    StepMoves(ts[k], inputs[k], envs[k], ts[k + 1]);
    StepTimeout(ts[k], inputs[k], envs[k], ts[k + 1]);
  }

  /** Exponential back-off over a run: while an entry heads the queue, its timeout is what it
      was, doubled once for each time the timer has resent the entry since, at most 60 s. */
  lemma {:induction false} TimeoutDoubles(s: Start, ts: seq<Tcb>, inputs: seq<Input>, envs: seq<Env>, m: nat, n: nat)
    requires RunFrom(s, ts, inputs, envs) && m <= n <= |inputs|
    requires HeadStays(ts, inputs, envs, m, n) && ts[m].rto >= 0
    ensures ts[n].queue != [] && ts[m].queue[0].retries <= ts[n].queue[0].retries
    ensures ts[n].rto == Doubled(ts[m].rto, ts[n].queue[0].retries - ts[m].queue[0].retries)
    decreases n
  {
    if m < n {
      TimeoutDoubles(s, ts, inputs, envs, m, n - 1);
      BackoffAt(s, ts, inputs, envs, n - 1);
      DoubledOnce(ts[m].rto, ts[n - 1].queue[0].retries - ts[m].queue[0].retries);
    }
  }
}
