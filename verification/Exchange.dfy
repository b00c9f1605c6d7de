/** Exchanges that nothing disturbs come to their end: the three-way handshake establishes
    both sides with the numbers and options agreed, data is delivered and acknowledged, a
    close on both sides ends in CLOSED on both, and an open that nobody listens to is refused
    (section 3.5 and 3.6 of RFC 9293; tcp/transport/statemachine.go:153-221, 530-738). */
module Exchange {
  import opened SeqNum
  import opened Reassembly
  import opened Options
  import opened Segments
  import opened Congestion
  import opened Tcb
  import opened StateMachine
  import opened Frames
  import opened SenderSteps
  import opened Nagle
  import Lifecycle

  /** The segment written last. */
  function Latest(t: Tcb): Segment
    requires t.wire != []
  {
    t.wire[|t.wire| - 1]
  }

  // ----- three-way handshake -----

  predicate FreshTcb(t: Tcb) {
    && t == NewTcb(t.snd.iss, t.rcv.buffTotal, t.snd.nagleDisabled, t.timeWaitDuration, t.throttle.start)
    && BuffCap(t.rcv) <= Reassembly.MAX_WINDOW
  }

  /** What a SYN of this stack offers, answering tsEcr. */
  predicate OffersAll(s: Segment, tsEcr: u32) {
    s.opts.Options? && s.opts.o == SynOptions(DEFAULT_MSS, MY_WINDOW_SCALE, s.opts.o.tsVal, tsEcr)
  }

  /** Step 1: the SYN. */
  lemma {:induction false} SynWritten(t: Tcb, iss: u32, env: Env)
    requires FreshTcb(t)
    ensures var c := ActiveOpen(t, iss, env);
      && c.wire != [] && var s := Latest(c);
      && s.flags == F_SYN && s.seqNum == iss && s.payload == [] && s.window == Min(BuffCap(t.rcv), 65535)
      && OffersAll(s, 0) && s.opts.o.tsVal == TsNow(env.now)
      && c.state == SynSent && c.snd.iss == c.snd.una == iss && c.snd.nxt == Add(iss, 1)
      && c.queue == [RetxSeg(iss, F_SYN, [], env.now, 0, false)]
      && c.rcv == t.rcv.(wnd := BuffCap(t.rcv)) && c.snd.buf == [] && c.neg == t.neg
  {
  }

  /** Step 2: the SYN-ACK. */
  lemma {:induction false} SynAnswered(t: Tcb, syn: Segment, env: Env)
    requires FreshTcb(t) && syn.flags == F_SYN && OffersAll(syn, 0)
    ensures var p := OnSegment(PassiveOpen(t), syn, env);
      && p.wire != [] && var s := Latest(p);
      && s.flags == F_SYN_ACK && s.seqNum == t.snd.iss && s.ackNum == Add(syn.seqNum, 1) && s.payload == []
      && s.window == Min(BuffCap(t.rcv), 65535) && s.opts.Options?
      && (Add(syn.seqNum, 1) != 0 ==> OffersAll(s, syn.opts.o.tsVal))
      && s.opts.o == SynOptions(DEFAULT_MSS, MY_WINDOW_SCALE, TsNow(env.now), s.opts.o.tsEcr)
      && p.state == SynReceived && p.snd.una == p.snd.iss == t.snd.iss && p.snd.nxt == Add(t.snd.iss, 1)
      && p.queue == [RetxSeg(t.snd.iss, F_SYN_ACK, [], env.now, 0, false)] && p.snd.buf == []
      && p.rcv == t.rcv.(wnd := BuffCap(t.rcv), irs := syn.seqNum, nxt := Add(syn.seqNum, 1))
      && p.neg == Negotiated(MY_WINDOW_SCALE, MY_WINDOW_SCALE, true, syn.opts.o.tsVal, true)
      && p.snd.mss == DEFAULT_MSS && p.snd.maxWnd == 65535 && p.snd.wnd == syn.window
  {
  }

  /** Step 3: the ACK of the SYN-ACK; the client is established. */
  lemma {:induction false} ClientEstablished(c: Tcb, s: Segment, env: Env)
    requires c.state == SynSent && c.snd.nxt == Add(c.snd.iss, 1) && c.snd.una == c.snd.iss
    requires c.queue != [] && c.queue[1..] == [] && c.queue[0].seqNum == c.snd.iss && EntryLen(c.queue[0]) == 1
    requires s.flags == F_SYN_ACK && s.ackNum == c.snd.nxt && s.opts.Options?
    requires s.opts.o == SynOptions(DEFAULT_MSS, MY_WINDOW_SCALE, s.opts.o.tsVal, s.opts.o.tsEcr)
    requires c.rcv.ooo == []
    ensures var c' := OnSegment(c, s, env);
      && c'.wire != [] && var a := Latest(c');
      && a.flags == F_ACK && a.payload == [] && a.seqNum == c.snd.nxt && a.ackNum == Add(s.seqNum, 1)
      && a.opts.Options?
      && a.opts.o == NO_OPTIONS.(hasTimestamp := true, tsVal := TsNow(env.now), tsEcr := s.opts.o.tsVal)
      && c'.state == Established && c'.snd.una == c'.snd.nxt == c.snd.nxt && c'.queue == [] && c'.snd.buf == c.snd.buf
      && c'.rcv == c.rcv.(irs := s.seqNum, nxt := Add(s.seqNum, 1)) && c'.snd.wnd == s.window
      && c'.snd.mss == DEFAULT_MSS
      && c'.neg == Negotiated(MY_WINDOW_SCALE, MY_WINDOW_SCALE, true, s.opts.o.tsVal, true)
  {
    var q := c.queue;
    assert PopAcked(q, s.ackNum) == PopAcked(q[1..], s.ackNum) == [];
  }

  /** Step 4: with that ACK the server is established too. */
  lemma {:induction false} ServerEstablished(p: Tcb, a: Segment, env: Env)
    requires p.state == SynReceived && p.snd.nxt == Add(p.snd.iss, 1) && p.snd.una == p.snd.iss && p.snd.buf == []
    requires p.queue != [] && p.queue[1..] == [] && p.queue[0].seqNum == p.snd.iss && EntryLen(p.queue[0]) == 1
    requires 65535 <= p.snd.maxWnd <= MAX_SND_WINDOW && 0 < p.rcv.wnd <= Reassembly.MAX_WINDOW
    requires a.flags == F_ACK && a.payload == [] && a.seqNum == p.rcv.nxt && a.ackNum == p.snd.nxt
    requires !PawsStale(p, a)
    ensures var p' := OnSegment(p, a, env);
      && p'.state == Established && p'.snd.una == p'.snd.nxt == p.snd.nxt && p'.queue == [] && p'.snd.buf == []
      && p'.rcv == p.rcv && p'.wire == p.wire && p'.snd.mss == p.snd.mss
      && p'.neg == p.neg.(tsRecent := p'.neg.tsRecent)
  {
    assert Lifecycle.TakesAck(p, a);
    TakenIs(p, a, env);
    Lifecycle.TimestampKeepsState(p, a);
    var t1 := UpdateTsRecent(p, a);
    AllAcked(t1, a, env);
  }

  /** An ACK of everything in flight, one queue entry, with nothing left to send. */
  lemma {:induction false} AllAcked(t: Tcb, s: Segment, env: Env)
    requires t.queue != [] && t.queue[1..] == [] && Add(t.queue[0].seqNum, EntryLen(t.queue[0])) == t.snd.nxt
    requires s.ackNum == t.snd.nxt && AcceptableAck(t.snd.una, t.snd.nxt, t.snd.nxt)
    requires |t.snd.buf| <= InFlight(t.snd)
    ensures var t' := HandleAck(t, s, env);
      && t'.snd.una == t'.snd.nxt == t.snd.nxt && t'.queue == [] && t'.snd.buf == [] && t'.rcv == t.rcv
      && t'.wire == t.wire && t'.neg == t.neg && t'.snd.mss == t.snd.mss
      && t.snd.maxWnd <= t'.snd.maxWnd <= Max(t.snd.maxWnd, MAX_SND_WINDOW)
      && t'.state == AdvanceOnAck(UpdateSendWindow(NoteAck(t, s, env), s), env).state
  {
    AllPopped(t, s, env);
    var t1 := NoteAck(t, s, env);
    WindowOnly(t1, s, env);
    NothingToSend(AdvanceOnAck(UpdateSendWindow(t1, s), env), env);
  }

  lemma {:induction false} AllPopped(t: Tcb, s: Segment, env: Env)
    requires t.queue != [] && t.queue[1..] == [] && Add(t.queue[0].seqNum, EntryLen(t.queue[0])) == t.snd.nxt
    requires s.ackNum == t.snd.nxt && AcceptableAck(t.snd.una, t.snd.nxt, t.snd.nxt)
    requires |t.snd.buf| <= InFlight(t.snd)
    ensures var t1 := NoteAck(t, s, env);
      && t1.queue == [] && t1.snd.una == t1.snd.nxt == t.snd.nxt && t1.snd.buf == [] && t1.wire == t.wire
      && t1.neg == t.neg && t1.rcv == t.rcv && t1.snd.mss == t.snd.mss && t1.snd.maxWnd == t.snd.maxWnd
  {
    assert PopAcked(t.queue, s.ackNum) == PopAcked(t.queue[1..], s.ackNum) == [];
  }

  /** The window update and the state change leave everything else as it is. */
  lemma {:induction false} WindowOnly(t: Tcb, s: Segment, env: Env)
    ensures var t' := AdvanceOnAck(UpdateSendWindow(t, s), env);
      && t'.snd == t.snd.(wnd := t'.snd.wnd, wl1 := t'.snd.wl1, wl2 := t'.snd.wl2, maxWnd := t'.snd.maxWnd)
      && t'.queue == t.queue && t'.rcv == t.rcv && t'.wire == t.wire && t'.neg == t.neg && t'.delAck == t.delAck
      && t.snd.maxWnd <= t'.snd.maxWnd <= Max(t.snd.maxWnd, MAX_SND_WINDOW)
  {
  }

  lemma {:induction false} NothingToSend(t: Tcb, env: Env)
    requires t.snd.buf == []
    ensures var t' := FlushSend(t, env);
      t'.snd == t.snd && t'.queue == t.queue && t'.wire == t.wire && t'.rcv == t.rcv && t'.neg == t.neg
      && t'.state == t.state && t'.delAck == t.delAck && !t'.persist.armed && !t'.override.armed
  {
  }

  /** A clock that has advanced by less than 2^31 ms never makes a timestamp stale. */
  lemma {:induction false} ClockAdvances(a: Time, b: Time)
    requires a <= b < a + (HALF - 1) * MILLISECOND
    ensures !SeqLT(TsNow(b), TsNow(a))
  {
    var x, y := a / MILLISECOND, b / MILLISECOND;
    assert x <= y < x + HALF;
    ComparePositions(x, y);
  }

  /** The three-way handshake, for all initial numbers, buffer sizes and clocks: both sides
      end established, each expecting the other's next number, with nothing outstanding and
      with window scaling, timestamps and SACK agreed. */
  lemma {:induction false} ThreeWayHandshake(t: Tcb, u: Tcb, iss: u32, e1: Env, e2: Env, e3: Env, e4: Env)
    returns (c: Tcb, p: Tcb)
    requires FreshTcb(t) && FreshTcb(u)
    requires e1.now <= e3.now < e1.now + (HALF - 1) * MILLISECOND
    ensures var c1 := ActiveOpen(t, iss, e1);
      && c1.wire != [] && var p1 := OnSegment(PassiveOpen(u), Latest(c1), e2);
      && p1.wire != [] && c == OnSegment(c1, Latest(p1), e3)
      && c.wire != [] && p == OnSegment(p1, Latest(c), e4)
    ensures c.state == Established && p.state == Established
    ensures c.rcv.nxt == p.snd.nxt == p.snd.una == Add(u.snd.iss, 1)
    ensures p.rcv.nxt == c.snd.nxt == c.snd.una == Add(iss, 1)
    ensures c.queue == [] && p.queue == [] && c.snd.buf == [] && p.snd.buf == []
    ensures c.neg.sndShift == p.neg.rcvShift == MY_WINDOW_SCALE && p.neg.sndShift == c.neg.rcvShift == MY_WINDOW_SCALE
    ensures c.neg.tsOk && p.neg.tsOk && c.neg.sackOk && p.neg.sackOk
    ensures c.snd.mss == p.snd.mss == DEFAULT_MSS && c.snd.wnd == Min(BuffCap(u.rcv), 65535)
  {
    SynWritten(t, iss, e1);
    var c1 := ActiveOpen(t, iss, e1);
    SynAnswered(u, Latest(c1), e2);
    var p1 := OnSegment(PassiveOpen(u), Latest(c1), e2);
    ClientEstablished(c1, Latest(p1), e3);
    c := OnSegment(c1, Latest(p1), e3);
    ClockAdvances(e1.now, e3.now);
    ServerEstablished(p1, Latest(c), e4);
    p := OnSegment(p1, Latest(c), e4);
  }

  // ----- data -----

  /** Established, with nothing outstanding in either direction. */
  predicate Calm(t: Tcb) {
    && t.queue == [] && t.snd.buf == [] && t.snd.una == t.snd.nxt
    && 65535 <= t.snd.maxWnd <= MAX_SND_WINDOW
    && t.rcv.ooo == [] && 0 < t.rcv.wnd <= Reassembly.MAX_WINDOW
  }

  /** A segment written now: its timestamp, if any, says so. */
  predicate StampedAt(s: Segment, now: Time) {
    s.opts.Options? && (s.opts.o.hasTimestamp ==> s.opts.o.tsVal == TsNow(now))
  }

  /** The peer's clock at that moment is not behind the newest timestamp seen. */
  predicate OnTime(t: Tcb, now: Time) {
    t.neg.tsOk ==> !SeqLT(TsNow(now), t.neg.tsRecent)
  }

  /** Text that fits the windows goes out in one segment. */
  lemma {:induction false} DataWritten(t: Tcb, data: seq<u8>, env: Env)
    requires Calm(t) && (t.state == Established || t.state == CloseWait)
    requires 0 < |data| <= Min(DEFAULT_MSS, Min(t.snd.cong.cwnd, t.snd.wnd)) && t.snd.wnd <= MAX_SND_WINDOW
    ensures var t' := Send(t, data, env);
      && t'.wire != [] && var s := Latest(t');
      && s.flags == F_PSH_ACK && s.seqNum == t.snd.nxt && s.ackNum == t.rcv.nxt && s.payload == data
      && StampedAt(s, env.now)
      && t'.state == t.state && t'.snd.una == t.snd.una && t'.snd.nxt == Add(t.snd.nxt, |data|) && t'.snd.buf == data
      && t'.queue == [RetxSeg(t.snd.nxt, F_PSH_ACK, data, env.now, 0, false)] && t'.rcv == t.rcv
      && t'.snd.maxWnd == t.snd.maxWnd && t'.neg == t.neg
  {
    assert [] + data == data;
    OneSegment(t.(snd := t.snd.(buf := data)), env);
  }

  lemma {:induction false} OneSegment(t: Tcb, env: Env)
    requires t.queue == [] && t.snd.una == t.snd.nxt && t.snd.wnd <= MAX_SND_WINDOW
    requires 0 < |t.snd.buf| <= Min(DEFAULT_MSS, Min(t.snd.cong.cwnd, t.snd.wnd))
    ensures var t', n := FlushSend(t, env), |t.snd.buf|;
      && |t'.wire| == |t.wire| + 1 && var s := Latest(t');
      && s.flags == F_PSH_ACK && s.seqNum == t.snd.nxt && s.ackNum == t.rcv.nxt && s.payload == t.snd.buf
      && StampedAt(s, env.now)
      && t'.snd == t.snd.(nxt := Add(t.snd.nxt, n)) && t'.state == t.state && t'.rcv == t.rcv && t'.neg == t.neg
      && t'.queue == [RetxSeg(t.snd.nxt, F_PSH_ACK, t.snd.buf, env.now, 0, false)]
  {
    assert t.snd.buf[0..|t.snd.buf|] == t.snd.buf && MaySend(t.snd, true);
    EmitProgress(t, true, env);
    var t1 := EmitNext(t, env);
    assert !Unsent(t1.snd) && FlushFrom(t, true, env) == FlushFrom(t1, true, env) == StopSending(t1, env);
  }

  /** An ACK that acknowledges nothing new, with nothing to send. */
  lemma {:induction false} NothingAcked(t: Tcb, s: Segment, env: Env)
    requires t.queue == [] && t.snd.buf == [] && s.ackNum == t.snd.una == t.snd.nxt
    ensures var t' := HandleAck(t, s, env);
      && t'.snd.una == t'.snd.nxt == t.snd.nxt && t'.queue == [] && t'.snd.buf == [] && t'.rcv == t.rcv
      && t'.wire == t.wire && t'.neg == t.neg && t'.delAck == t.delAck && !t'.persist.armed && !t'.override.armed
      && t'.snd.mss == t.snd.mss && t.snd.maxWnd <= t'.snd.maxWnd <= Max(t.snd.maxWnd, MAX_SND_WINDOW)
  {
    assert NoteAck(t, s, env) == t;
    WindowOnly(t, s, env);
    NothingToSend(AdvanceOnAck(UpdateSendWindow(t, s), env), env);
  }

  /** The latest segment is a bare ACK of everything received. */
  predicate AcksAll(t: Tcb, now: Time) {
    && t.wire != [] && Latest(t).flags == F_ACK && Latest(t).payload == []
    && Latest(t).ackNum == t.rcv.nxt && Latest(t).seqNum == t.snd.nxt && StampedAt(Latest(t), now)
  }

  /** Text that is next in order and fits the window joins the buffer, and is acknowledged at
      once or when the delayed-ACK timer runs out. */
  lemma {:induction false} DataTaken(t: Tcb, s: Segment, env: Env)
    requires Calm(t) && t.state == Established && !PawsStale(t, s)
    requires s.flags == F_PSH_ACK && s.seqNum == t.rcv.nxt && s.ackNum == t.snd.nxt
    requires 0 < |s.payload| <= t.rcv.wnd
    ensures var t' := OnSegment(t, s, env);
      && t'.rcv == t.rcv.(buf := t.rcv.buf + s.payload, nxt := Add(t.rcv.nxt, |s.payload|),
                          wnd := t.rcv.wnd - |s.payload|)
      && t'.state == Established && t'.queue == [] && t'.snd.buf == [] && t'.snd.una == t'.snd.nxt == t.snd.nxt
      && !t'.persist.armed && !t'.override.armed && (t'.delAck.armed || AcksAll(t', env.now))
  {
    assert Lifecycle.TakesAck(t, s);
    TakenIs(t, s, env);
    Lifecycle.TimestampKeepsState(t, s);
    var t1 := UpdateTsRecent(t, s);
    NothingAcked(t1, s, env);
    var t2 := HandleAck(t1, s, env);
    Lifecycle.HandleAckState(t1, s, env);
    InOrderText(t2.rcv, s);
    TextAnswered(t2, s, env);
  }

  lemma {:induction false} InOrderText(r: Receiver, s: Segment)
    requires r.ooo == [] && s.seqNum == r.nxt && 0 < |s.payload| <= r.wnd <= Reassembly.MAX_WINDOW
    ensures Accept(r, s.seqNum, s.payload)
      == r.(buf := r.buf + s.payload, nxt := Add(r.nxt, |s.payload|), wnd := r.wnd - |s.payload|)
  {
    assert TrimToWindow(r, s.seqNum, s.payload) == Fragment(r.nxt, s.payload);
    var r1 := r.(buf := r.buf + s.payload, nxt := Add(r.nxt, |s.payload|));
    assert FindCover(r1.ooo, r1.nxt) == -1 && DrainOoo(r1) == r1;
  }

  lemma {:induction false} TextAnswered(t: Tcb, s: Segment, env: Env)
    requires s.payload != [] && !s.flags.fin
    ensures var t' := TextAndFin(t, s, env);
      && t'.rcv == Accept(t.rcv, s.seqNum, s.payload) && t'.state == t.state && t'.snd == t.snd && t'.queue == t.queue
      && t'.persist == t.persist && t'.override == t.override && (t'.delAck.armed || AcksAll(t', env.now))
  {
  }

  lemma {:induction false} DelayRunsOut(t: Tcb, env: Env)
    requires t.state == Established && t.queue == [] && t.delAck.armed && t.delAck.deadline <= env.now
    requires !t.persist.armed && !t.override.armed
    ensures AcksAll(Tick(t, env), env.now) && Tick(t, env).rcv == t.rcv && Tick(t, env).snd.nxt == t.snd.nxt
  {
  }

  /** The ACK of all of it empties both records of the sender. */
  lemma {:induction false} DataAcked(t: Tcb, s: Segment, env: Env)
    requires (t.state == Established || t.state == CloseWait) && !PawsStale(t, s)
    requires t.queue != [] && t.queue[1..] == [] && Add(t.queue[0].seqNum, EntryLen(t.queue[0])) == t.snd.nxt
    requires 0 < InFlight(t.snd) == |t.snd.buf| < HALF && 65535 <= t.snd.maxWnd <= MAX_SND_WINDOW
    requires InFlight(t.snd) <= DEFAULT_MSS
    requires 0 < t.rcv.wnd <= Reassembly.MAX_WINDOW
    requires s.flags == F_ACK && s.payload == [] && s.seqNum == t.rcv.nxt && s.ackNum == t.snd.nxt
    ensures var t' := OnSegment(t, s, env);
      && t'.snd.una == t'.snd.nxt == t.snd.nxt && t'.queue == [] && t'.snd.buf == []
      && t'.rcv == t.rcv && t'.wire == t.wire && t'.state == t.state
  {
    assert Lifecycle.TakesAck(t, s);
    TakenIs(t, s, env);
    Lifecycle.TimestampKeepsState(t, s);
    AllAcked(UpdateTsRecent(t, s), s, env);
  }

  /** When y's acknowledgement of x's text goes out. */
  function AckTime(y1: Tcb, e2: Env, e3: Env): Env {
    if y1.delAck.armed then Env(Max(e3.now, y1.delAck.deadline), e3.rto) else e2
  }

  /** y with its acknowledgement written, at once or by the delayed-ACK timer. */
  function Acknowledging(y1: Tcb, e2: Env, e3: Env): Tcb {
    if y1.delAck.armed then Tick(y1, AckTime(y1, e2, e3)) else y1
  }

  lemma {:induction false} AckGoesOut(y: Tcb, s: Segment, e2: Env, e3: Env)
    requires Calm(y) && y.state == Established && !PawsStale(y, s)
    requires s.flags == F_PSH_ACK && s.seqNum == y.rcv.nxt && s.ackNum == y.snd.nxt
    requires 0 < |s.payload| <= y.rcv.wnd
    ensures var y1 := OnSegment(y, s, e2);
      var y2 := Acknowledging(y1, e2, e3);
      && y1.rcv.buf == y.rcv.buf + s.payload && y1.rcv.nxt == Add(y.rcv.nxt, |s.payload|)
      && AcksAll(y2, AckTime(y1, e2, e3).now) && y2.rcv.nxt == y1.rcv.nxt && y2.snd.nxt == y.snd.nxt
  {
    DataTaken(y, s, e2);
    var y1 := OnSegment(y, s, e2);
    if y1.delAck.armed { DelayRunsOut(y1, AckTime(y1, e2, e3)); }
  }

  /** What Send is given reaches the peer's reader, and its acknowledgement empties the
      sender's records: x sends to y, y acknowledges at once or when its timer runs out. */
  lemma {:induction false} DataExchanged(x: Tcb, y: Tcb, data: seq<u8>, e1: Env, e2: Env, e3: Env, e4: Env)
    requires Calm(x) && Calm(y) && x.state == Established && y.state == Established
    requires y.rcv.nxt == x.snd.nxt && x.rcv.nxt == y.snd.nxt
    requires 0 < |data| <= Min(DEFAULT_MSS, Min(x.snd.cong.cwnd, x.snd.wnd)) && x.snd.wnd <= MAX_SND_WINDOW
    requires |data| <= y.rcv.wnd && OnTime(y, e1.now)
    ensures var x1 := Send(x, data, e1);
      && x1.wire != [] && var y1 := OnSegment(y, Latest(x1), e2);
      && y1.rcv.buf == y.rcv.buf + data && var y2 := Acknowledging(y1, e2, e3);
      && y2.wire != [] && var x2 := OnSegment(x1, Latest(y2), e4);
      && (OnTime(x, AckTime(y1, e2, e3).now) ==>
            x2.queue == [] && x2.snd.buf == [] && x2.snd.una == x2.snd.nxt == y1.rcv.nxt == Add(x.snd.nxt, |data|))
  {
    DataWritten(x, data, e1);
    var x1 := Send(x, data, e1);
    AckGoesOut(y, Latest(x1), e2, e3);
    var y1 := OnSegment(y, Latest(x1), e2);
    if OnTime(x, AckTime(y1, e2, e3).now) { DataAcked(x1, Latest(Acknowledging(y1, e2, e3)), e4); }
  }
}
