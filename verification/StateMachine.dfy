/** One atomic step of a connection as a function of the TCB: user calls, timer ticks and
    arriving segments (tcp/transport/statemachine.go, data.go, flowcontrol.go).  The
    methods of class Connection are proved against these functions. */
module StateMachine {
  import opened SeqNum
  import opened Reassembly
  import opened Sack
  import opened Options
  import opened Segments
  import opened Congestion
  import opened ChallengeAck
  import opened Tcb

  datatype Maybe = None | Some(o: TcpOptions)

  // ----- writing segments -----

  /** Given options win; otherwise timestamps are attached once negotiated. */
  function OptionsFor(t: Tcb, flags: Flags, given: Maybe, now: Time): TcpOptions {
    match given
    case Some(o) => o
    case None =>
      if t.neg.tsOk && !flags.syn && !flags.rst then
        NO_OPTIONS.(hasTimestamp := true, tsVal := TsNow(now), tsEcr := if flags.ack then t.neg.tsRecent else 0)
      else NO_OPTIONS
  }

  function WriteSeg(t: Tcb, flags: Flags, seqNum: u32, ackNum: u32, payload: Payload, given: Maybe, now: Time): Tcb {
    var s := Segment(flags, seqNum, ackNum, WindowField(t, flags), Options(OptionsFor(t, flags, given, now)), payload);
    t.(wire := t.wire + [s], lastAckSent := if flags.ack then ackNum else t.lastAckSent)
  }

  /** Append to the retransmission queue; the first entry starts the timer. */
  function Enqueue(t: Tcb, flags: Flags, seqNum: u32, payload: Payload, env: Env): Tcb {
    t.(queue := t.queue + [RetxSeg(seqNum, flags, payload, env.now, 0, false)],
       rto := if t.queue == [] then env.rto else t.rto)
  }

  function SendData(t: Tcb, flags: Flags, seqNum: u32, ackNum: u32, payload: Payload, env: Env): Tcb {
    var w := WriteSeg(t, flags, seqNum, ackNum, payload, None, env.now);
    if SeqLen(flags, payload) == 0 then w else Enqueue(w, flags, seqNum, payload, env)
  }

  function SendSyn(t: Tcb, flags: Flags, seqNum: u32, ackNum: u32, env: Env): Tcb {
    var o := SynOptions(DEFAULT_MSS, MY_WINDOW_SCALE, TsNow(env.now), if ackNum != 0 then t.neg.tsRecent else 0);
    Enqueue(WriteSeg(t, flags, seqNum, ackNum, [], Some(o), env.now), flags, seqNum, [], env)
  }

  /** SACK blocks go on an ACK when negotiated and something is held out of order. */
  function AckOptions(t: Tcb, now: Time): Maybe {
    if !t.neg.sackOk || t.rcv.ooo == [] then None
    else
      var blocks := SackBlocks(t.rcv.ooo, t.rcv.lastOoo, if t.neg.tsOk then MAX_SACK_BLOCKS - 1 else MAX_SACK_BLOCKS);
      if blocks == [] then None
      else if t.neg.tsOk then
        Some(NO_OPTIONS.(hasTimestamp := true, tsVal := TsNow(now), tsEcr := t.neg.tsRecent, sackBlocks := blocks))
      else Some(NO_OPTIONS.(sackBlocks := blocks))
  }

  function SendAck(t: Tcb, env: Env): Tcb {
    var t1 := t.(delAck := t.delAck.(armed := false, count := 0));
    WriteSeg(t1, F_ACK, t1.snd.nxt, t1.rcv.nxt, [], AckOptions(t1, env.now), env.now)
  }

  function SendRst(t: Tcb, seqNum: u32, env: Env): Tcb {
    SendData(t, F_RST, seqNum, 0, [], env)
  }

  function SendChallengeAck(t: Tcb, env: Env): Tcb {
    var ok := Allows(t.throttle, env.now, LIMIT, WINDOW);
    var t1 := t.(throttle := Use(t.throttle, env.now, LIMIT, WINDOW));
    if ok then SendData(t1, F_ACK, t1.snd.nxt, t1.rcv.nxt, [], env) else t1
  }

  // ----- sending data -----

  function ArmPersist(t: Tcb, env: Env): Tcb {
    var t1 := t.(override := t.override.(armed := false));
    if t.persist.armed then t1
    else t1.(persist := t.persist.(armed := true, deadline := env.now + PersistInterval(t.persist.backoff)))
  }

  function DisarmPersist(t: Tcb): Tcb {
    t.(persist := t.persist.(armed := false, backoff := 0))
  }

  function ArmOverride(t: Tcb, env: Env): Tcb {
    if t.override.armed then t
    else t.(override := Override(true, env.now + OVERRIDE_TIMEOUT))
  }

  function DisarmOverride(t: Tcb): Tcb {
    t.(override := t.override.(armed := false))
  }

  /** How many bytes the next data segment carries. */
  function SegmentSize(d: nat, usable: nat): nat {
    Min(Min(d, usable), DEFAULT_MSS)
  }

  /** New data at SND.NXT. */
  function SendNew(t: Tcb, payload: Payload, env: Env): Tcb {
    var t1 := SendData(t, F_PSH_ACK, t.snd.nxt, t.rcv.nxt, payload, env);
    t1.(snd := t1.snd.(nxt := Add(t1.snd.nxt, |payload|)))
  }

  function EmitSegment(t: Tcb, off: nat, d: nat, usable: nat, env: Env): Tcb
    requires off + d <= |t.snd.buf|
  {
    DisarmOverride(SendNew(t, t.snd.buf[off..off + SegmentSize(d, usable)], env))
  }

  predicate Unsent(snd: Sender) {
    InFlight(snd) < |snd.buf|
  }

  predicate MaySend(snd: Sender, idle: bool) {
    && Unsent(snd) && snd.wnd != 0
    && CanSend(|snd.buf| - InFlight(snd), SendUsable(snd), EffMss(snd), snd.maxWnd, idle, snd.nagleDisabled)
  }

  function EmitNext(t: Tcb, env: Env): Tcb
    requires Unsent(t.snd)
  {
    var off := InFlight(t.snd);
    EmitSegment(t, off, |t.snd.buf| - off, SendUsable(t.snd), env)
  }

  lemma {:induction false} EmitProgress(t: Tcb, idle: bool, env: Env)
    requires MaySend(t.snd, idle)
    ensures var t' := EmitNext(t, env);
      var n := SegmentSize(|t.snd.buf| - InFlight(t.snd), SendUsable(t.snd));
      && 1 <= n <= DEFAULT_MSS && InFlight(t.snd) + n <= |t.snd.buf|
      && t'.snd == t.snd.(nxt := Add(t.snd.nxt, n)) && InFlight(t'.snd) == InFlight(t.snd) + n
  {
  }

  /** The timer bookkeeping when no further segment may be sent now. */
  function StopSending(t: Tcb, env: Env): Tcb {
    if !Unsent(t.snd) then DisarmPersist(DisarmOverride(t))
    else if t.snd.wnd == 0 then ArmPersist(t, env)
    else ArmOverride(t, env)
  }

  /** Emit while Nagle, silly-window avoidance and both windows allow. */
  function FlushFrom(t: Tcb, idle: bool, env: Env): Tcb
    decreases |t.snd.buf| - InFlight(t.snd)
  {
    if MaySend(t.snd, idle) then
      EmitProgress(t, idle, env);
      FlushFrom(EmitNext(t, env), idle, env)
    else StopSending(t, env)
  }

  function FlushSend(t: Tcb, env: Env): Tcb {
    FlushFrom(t, t.snd.nxt == t.snd.una, env)
  }

  // ----- timers -----

  function ProbePersist(t: Tcb, env: Env): Tcb {
    if !Unsent(t.snd) || t.snd.wnd != 0 then t
    else
      var t1 := SendNew(t, [t.snd.buf[InFlight(t.snd)]], env);
      var b := t1.persist.backoff + 1;
      t1.(persist := t1.persist.(backoff := b, deadline := env.now + PersistInterval(b)))
  }

  function FireOverride(t: Tcb, env: Env): Tcb {
    if !Unsent(t.snd) || SendUsable(t.snd) == 0 then DisarmOverride(t) else EmitNext(t, env)
  }

  function CheckRetransmit(t: Tcb, env: Env): Tcb {
    if t.queue == [] || env.now < t.queue[0].sentAt + t.rto then t
    else if t.queue[0].retries >= MAX_RETRANSMITS then t.(state := Closed, queue := [], rto := 0)
    else
      var e := t.queue[0];
      var t1 := t.(snd := t.snd.(cong := OnRtoTimeout(t.snd.cong, InFlight(t.snd))));
      var t2 := WriteSeg(t1, e.flags, e.seqNum, t.rcv.nxt, e.payload, None, env.now);
      t2.(queue := [e.(retries := e.retries + 1, retransmitted := true, sentAt := env.now)] + t.queue[1..],
          rto := BackoffRto(t.rto))
  }

  function CheckPersist(t: Tcb, env: Env): Tcb {
    if t.persist.armed && t.persist.deadline <= env.now then ProbePersist(t, env) else t
  }

  function CheckOverride(t: Tcb, env: Env): Tcb {
    if t.override.armed && t.override.deadline <= env.now then FireOverride(t, env) else t
  }

  function CheckDelAck(t: Tcb, env: Env): Tcb {
    if t.delAck.armed && t.delAck.deadline <= env.now then SendAck(t, env) else t
  }

  function CheckTimeWait(t: Tcb, env: Env): Tcb {
    if t.state == TimeWait && t.timeWaitDeadline <= env.now then t.(state := Closed) else t
  }

  function Tick(t: Tcb, env: Env): Tcb {
    CheckDelAck(CheckOverride(CheckPersist(CheckRetransmit(CheckTimeWait(t, env), env), env), env), env)
  }

  // ----- user calls -----

  function ActiveOpen(t: Tcb, iss: u32, env: Env): Tcb {
    var t1 := t.(snd := t.snd.(iss := iss, una := iss, nxt := Add(iss, 1)),
                 rcv := t.rcv.(wnd := BuffCap(t.rcv)), state := SynSent);
    SendSyn(t1, F_SYN, iss, 0, env)
  }

  function PassiveOpen(t: Tcb): Tcb {
    t.(rcv := t.rcv.(wnd := BuffCap(t.rcv)), state := Listen)
  }

  function SendFin(t: Tcb, next: State, env: Env): Tcb {
    var t1 := SendData(t, F_FIN_ACK, t.snd.nxt, t.rcv.nxt, [], env);
    t1.(snd := t1.snd.(nxt := Add(t1.snd.nxt, 1)), state := next)
  }

  function Close(t: Tcb, env: Env): Tcb {
    match t.state
    case Listen => t.(state := Closed)
    case SynSent => t.(state := Closed, queue := [], rto := 0)
    case Established => SendFin(t, FinWait1, env)
    case SynReceived => SendFin(t, FinWait1, env)
    case CloseWait => SendFin(t, LastAck, env)
    case _ => t
  }

  datatype SendResult = Sent(n: nat) | NotEstablished | ConnClosed

  function SendOutcome(s: State, n: nat): SendResult {
    match s
    case Established => Sent(n)
    case CloseWait => Sent(n)
    case Listen => NotEstablished
    case SynSent => NotEstablished
    case SynReceived => NotEstablished
    case _ => ConnClosed
  }

  function Send(t: Tcb, data: seq<u8>, env: Env): Tcb
    requires |t.snd.buf| + |data| <= SEND_LIMIT
  {
    if SendOutcome(t.state, |data|).Sent? then FlushSend(t.(snd := t.snd.(buf := t.snd.buf + data)), env) else t
  }

  datatype RecvResult = Data(bytes: seq<u8>) | Nothing | Eof

  predicate FinReached(r: Receiver) {
    r.peerFin && SeqLEQ(r.peerFinSeq, r.nxt)
  }

  function RecvOutcome(r: Receiver, max: nat): RecvResult {
    if r.buf == [] then if FinReached(r) then Eof else Nothing
    else Data(r.buf[..Min(max, |r.buf|)])
  }

  function Recv(t: Tcb, max: nat, env: Env): Tcb {
    if t.rcv.buf == [] then t
    else
      var t1 := t.(rcv := Read(t.rcv, Min(max, |t.rcv.buf|), EffMss(t.snd)));
      if t1.rcv.wnd > t.rcv.wnd && Synchronized(t.state) then SendAck(t1, env) else t1
  }

  // ----- acknowledgements -----

  function PopAcked(q: seq<RetxSeg>, ack: u32): seq<RetxSeg> {
    if q != [] && SeqLEQ(Add(q[0].seqNum, EntryLen(q[0])), ack) then PopAcked(q[1..], ack) else q
  }

  /** Drop acknowledged entries; restart the timer for the new head. */
  function AckQueue(t: Tcb, ack: u32, env: Env): Tcb {
    var q := PopAcked(t.queue, ack);
    if |q| == |t.queue| then t
    else if q == [] then t.(queue := [], rto := 0)
    else t.(queue := [q[0].(sentAt := env.now)] + q[1..], rto := env.rto)
  }

  function ReleaseAcked(buf: SendBuffer, n: nat): SendBuffer {
    buf[Min(n, |buf|)..]
  }

  /** An acceptable ACK moves SND.UNA. */
  function TakeNewAck(t: Tcb, ack: u32, env: Env): Tcb {
    var flight := InFlight(t.snd);
    var acked := Sub(ack, t.snd.una);
    var t1 := AckQueue(t.(snd := t.snd.(una := ack)), ack, env);
    t1.(snd := t1.snd.(buf := ReleaseAcked(t.snd.buf, acked), cong := OnNewAck(t.snd.cong, acked)))
  }

  predicate IsDupAck(t: Tcb, s: Segment) {
    && t.queue != [] && s.payload == [] && !s.flags.syn && !s.flags.fin
    && s.ackNum == t.snd.una && ScaleWindow(s.window, t.neg.sndShift) == t.snd.wnd
  }

  function FastRetransmit(t: Tcb, env: Env): Tcb {
    if t.queue == [] then t
    else
      var e := t.queue[0];
      var t1 := WriteSeg(t, e.flags, e.seqNum, t.rcv.nxt, e.payload, None, env.now);
      t1.(queue := [e.(retransmitted := true, sentAt := env.now)] + t.queue[1..])
  }

  function OnDuplicateAck(t: Tcb, env: Env): Tcb {
    var flight := InFlight(t.snd);
    if flight == 0 then t
    else
      var c := OnDupAck(t.snd.cong, flight);
      var t1 := t.(snd := t.snd.(cong := c));
      if t.snd.cong.state != FastRecovery && c.state == FastRecovery then FastRetransmit(t1, env) else t1
  }

  function UpdateSendWindow(t: Tcb, s: Segment): Tcb {
    var w := ScaleWindow(s.window, t.neg.sndShift);
    var newer := SeqLT(t.snd.wl1, s.seqNum) || (t.snd.wl1 == s.seqNum && SeqLEQ(t.snd.wl2, s.ackNum));
    var snd1 := if newer then t.snd.(wnd := w, wl1 := s.seqNum, wl2 := s.ackNum) else t.snd;
    var snd2 := if w > snd1.maxWnd then snd1.(maxWnd := w) else snd1;
    var t1 := t.(snd := snd2);
    if newer && w > 0 then DisarmPersist(t1) else t1
  }

  function EnterTimeWait(t: Tcb, env: Env): Tcb {
    t.(state := TimeWait, timeWaitDeadline := env.now + t.timeWaitDuration)
  }

  predicate FinAcked(t: Tcb) {
    t.snd.una == t.snd.nxt
  }

  function AdvanceOnAck(t: Tcb, env: Env): Tcb {
    match t.state
    case SynReceived => t.(state := Established, reachedEstablished := true)
    case FinWait1 => if FinAcked(t) then t.(state := FinWait2) else t
    case Closing => if FinAcked(t) then EnterTimeWait(t, env) else t
    case LastAck => if FinAcked(t) then t.(state := Closed) else t
    case _ => t
  }

  /** The lowest acknowledgement number of section 5.2 of RFC 5961. */
  function AckFloor(t: Tcb): u32 {
    Sub(t.snd.una, t.snd.maxWnd)
  }

  predicate AckAccepted(t: Tcb, s: Segment) {
    && (t.state == SynReceived ==> AcceptableAck(t.snd.una, s.ackNum, t.snd.nxt))
    && AckInRange(AckFloor(t), s.ackNum, t.snd.nxt)
  }

  function RefuseAck(t: Tcb, s: Segment, env: Env): Tcb {
    if t.state == SynReceived && !AcceptableAck(t.snd.una, s.ackNum, t.snd.nxt)
       && !AckInRange(AckFloor(t), s.ackNum, t.snd.nxt) then SendRst(t, s.ackNum, env)
    else SendChallengeAck(t, env)
  }

  function NoteAck(t: Tcb, s: Segment, env: Env): Tcb {
    if AcceptableAck(t.snd.una, s.ackNum, t.snd.nxt) then TakeNewAck(t, s.ackNum, env)
    else if IsDupAck(t, s) then OnDuplicateAck(t, env)
    else t
  }

  function HandleAck(t: Tcb, s: Segment, env: Env): Tcb {
    FlushSend(AdvanceOnAck(UpdateSendWindow(NoteAck(t, s, env), s), env), env)
  }

  // ----- data and FIN -----

  function OnDelayable(t: Tcb, env: Env): Tcb {
    if t.delAck.count + 1 >= 2 then SendAck(t, env)
    else t.(delAck := DelAck(true, t.delAck.count + 1,
                             if t.delAck.armed then t.delAck.deadline else env.now + DEL_ACK_TIMEOUT))
  }

  /** A full in-order segment that leaves no gap may wait for its ACK. */
  predicate Delayable(t: Tcb, s: Segment) {
    var f := TrimToWindow(t.rcv, s.seqNum, s.payload);
    && f.data != [] && f.start == t.rcv.nxt
    && Accept(t.rcv, s.seqNum, s.payload).ooo == []
    && |f.data| >= EffMss(t.snd)
  }

  function AcceptText(t: Tcb, s: Segment, env: Env): Tcb {
    if s.payload == [] then t
    else
      var t1 := t.(rcv := Accept(t.rcv, s.seqNum, s.payload));
      if Delayable(t, s) then OnDelayable(t1, env) else SendAck(t1, env)
  }

  predicate FinInOrder(t: Tcb, s: Segment) {
    s.flags.fin && Add(s.seqNum, SegLen(s) - 1) == t.rcv.nxt
  }

  function HandleFin(t: Tcb, env: Env): Tcb {
    var t1 := SendAck(t.(rcv := t.rcv.(peerFin := true, peerFinSeq := t.rcv.nxt, nxt := Add(t.rcv.nxt, 1))), env);
    match t.state
    case Established => t1.(state := CloseWait)
    case SynReceived => t1.(state := CloseWait)
    case FinWait1 => if FinAcked(t1) then EnterTimeWait(t1, env) else t1.(state := Closing)
    case FinWait2 => EnterTimeWait(t1, env)
    case TimeWait => EnterTimeWait(t1, env)
    case _ => t1
  }

  // ----- arriving segments -----

  function OnClosed(t: Tcb, s: Segment, env: Env): Tcb {
    if s.flags.rst then t
    else if s.flags.ack then SendRst(t, s.ackNum, env)
    else SendData(SendRst(t, 0, env), F_RST_ACK, 0, Add(s.seqNum, SegLen(s)), [], env)
  }

  function Negotiate(t: Tcb, s: Segment): Tcb {
    match s.opts
    case Malformed => t
    case Options(o) =>
      var n1 :=
        if o.hasWScale then t.neg.(sndShift := ClampWScale(o.windowScale), rcvShift := MY_WINDOW_SCALE) else t.neg;
      var n2 := if o.hasTimestamp then n1.(tsOk := true, tsRecent := o.tsVal) else n1;
      var n3 := if o.sackPermitted then n2.(sackOk := true) else n2;
      t.(neg := n3, snd := t.snd.(mss := if o.hasMss then o.mss else DEFAULT_SEND_MSS))
  }

  function InitSendWindow(t: Tcb, s: Segment): Tcb {
    var w: u32 := s.window;
    t.(snd := t.snd.(wnd := w, wl1 := s.seqNum, wl2 := s.ackNum,
                     maxWnd := if w > t.snd.maxWnd then w else t.snd.maxWnd))
  }

  function OnListen(t: Tcb, s: Segment, env: Env): Tcb {
    if s.flags.rst then t
    else if s.flags.ack then SendRst(t, s.ackNum, env)
    else if !s.flags.syn then t
    else
      var t1 := t.(rcv := t.rcv.(irs := s.seqNum, nxt := Add(s.seqNum, 1)),
                   snd := t.snd.(una := t.snd.iss, nxt := Add(t.snd.iss, 1)),
                   origin := Passive, state := SynReceived);
      var t2 := InitSendWindow(Negotiate(t1, s), s);
      SendSyn(t2, F_SYN_ACK, t2.snd.iss, t2.rcv.nxt, env)
  }

  predicate SynAckBad(t: Tcb, s: Segment) {
    SeqLEQ(s.ackNum, t.snd.iss) || SeqGT(s.ackNum, t.snd.nxt)
  }

  function OnSynSent(t: Tcb, s: Segment, env: Env): Tcb {
    if s.flags.ack && SynAckBad(t, s) then if s.flags.rst then t else SendRst(t, s.ackNum, env)
    else if s.flags.rst then if s.flags.ack then t.(state := Closed) else t
    else if !s.flags.syn then t
    else
      var t1 := Negotiate(t.(rcv := t.rcv.(irs := s.seqNum, nxt := Add(s.seqNum, 1))), s);
      if s.flags.ack then
        var t2 := InitSendWindow(AckQueue(t1.(snd := t1.snd.(una := s.ackNum)), s.ackNum, env), s);
        SendAck(t2.(state := Established, reachedEstablished := true), env)
      else
        SendSyn(t1.(origin := Active, state := SynReceived), F_SYN_ACK, t1.snd.iss, t1.rcv.nxt, env)
  }

  function ResetConnection(t: Tcb): Tcb {
    t.(state := if t.state == SynReceived && t.origin == Passive then Listen else Closed)
  }

  function HandleRst(t: Tcb, s: Segment, env: Env): Tcb {
    if !InWindow(t.rcv.nxt, t.rcv.wnd, s.seqNum) then t
    else if s.seqNum != t.rcv.nxt then SendChallengeAck(t, env)
    else ResetConnection(t)
  }

  predicate PawsStale(t: Tcb, s: Segment) {
    var o := OptionsOf(s);
    t.neg.tsOk && o.hasTimestamp && !s.flags.rst && SeqLT(o.tsVal, t.neg.tsRecent)
  }

  function UpdateTsRecent(t: Tcb, s: Segment): Tcb {
    var o := OptionsOf(s);
    if t.neg.tsOk && o.hasTimestamp && !SeqLT(o.tsVal, t.neg.tsRecent) && SeqLEQ(s.seqNum, t.lastAckSent)
    then t.(neg := t.neg.(tsRecent := o.tsVal)) else t
  }

  /** Text, then a FIN that has become in order. */
  function TextAndFin(t: Tcb, s: Segment, env: Env): Tcb {
    var t1 := AcceptText(t, s, env);
    if FinInOrder(t1, s) then HandleFin(t1, env) else t1
  }

  /** An acceptable segment without RST or SYN. */
  function OnAcceptable(t: Tcb, s: Segment, env: Env): Tcb {
    var t1 := UpdateTsRecent(t, s);
    if !s.flags.ack then t1
    else if !AckAccepted(t1, s) then RefuseAck(t1, s, env)
    else TextAndFin(HandleAck(t1, s, env), s, env)
  }

  function OnSynchronized(t: Tcb, s: Segment, env: Env): Tcb {
    if t.state == TimeWait && s.flags.fin && !s.flags.rst then EnterTimeWait(SendAck(t, env), env)
    else if PawsStale(t, s) then SendAck(t, env)
    else if !Acceptable(t.rcv, s) && !s.flags.rst then SendAck(t, env)
    else if s.flags.rst then HandleRst(t, s, env)
    else if s.flags.syn then SendChallengeAck(t, env)
    else OnAcceptable(t, s, env)
  }

  function OnSegment(t: Tcb, s: Segment, env: Env): Tcb {
    match t.state
    case Closed => OnClosed(t, s, env)
    case Listen => OnListen(t, s, env)
    case SynSent => OnSynSent(t, s, env)
    case _ => OnSynchronized(t, s, env)
  }
}
