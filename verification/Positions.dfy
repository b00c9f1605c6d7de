/** What one endpoint has put on the wire, in unbounded stream positions.  The SYN is at
    position 0, the k-th byte given to Send at position k, and the FIN after the last
    byte.  Every segment an endpoint ever writes carries those numbers, whatever happens. */
module Positions {
  import opened SeqNum
  import opened Reassembly
  import opened Options
  import opened Segments
  import opened Tcb
  import opened StateMachine
  import opened Frames

  /** iss is our ISS; tape is the SYN's slot followed by every byte given to Send; una, nxt and rcvd are the
      positions of SND.UNA, SND.NXT and RCV.NXT; nxt or rcvd is 0 while not yet numbered. */
  datatype Pos = Pos(iss: u32, tape: seq<u8>, una: nat, nxt: nat, rcvd: nat, fin: bool, peerIss: u32)

  /** The numbers and bytes of a segment (or queue entry) are those of position p. */
  predicate SeqAt(seqNum: u32, flags: Flags, payload: Payload, g: Pos, p: int) {
    && seqNum == Wrap(g.iss + p)
    && (if flags.syn then p == 0 && payload == [] && !flags.fin else p >= 1)
    && p + |payload| + Bit(flags.syn) + Bit(flags.fin) <= g.nxt
    && (payload != [] ==> FitsAt(payload, p, g.tape))
    && (flags.fin ==> g.fin && p + |payload| == |g.tape|)
  }

  ghost predicate SeqSound(seqNum: u32, flags: Flags, payload: Payload, g: Pos) {
    exists p :: SeqAt(seqNum, flags, payload, g, p)
  }

  predicate AckAt(ackNum: u32, g: Pos, a: int) {
    ackNum == Wrap(g.peerIss + a) && 1 <= a <= g.rcvd
  }

  ghost predicate AckSound(ackNum: u32, g: Pos) {
    exists a :: AckAt(ackNum, g, a)
  }

  /** What the wire format relies on: an option set the stack builds, a payload that fits. */
  ghost predicate Built(s: Segment) {
    s.opts.Options? && StackBuilt(s.opts.o) && |s.payload| <= DEFAULT_MSS
  }

  ghost predicate SegSound(s: Segment, g: Pos) {
    && Built(s)
    && (s.flags.rst || (SeqSound(s.seqNum, s.flags, s.payload, g) && (s.flags.ack ==> AckSound(s.ackNum, g))))
  }

  ghost predicate WireSound(wire: seq<Segment>, g: Pos) {
    forall s {:trigger SegSound(s, g)} :: s in wire ==> SegSound(s, g)
  }

  ghost predicate EntrySound(e: RetxSeg, g: Pos) {
    SeqSound(e.seqNum, e.flags, e.payload, g) && (e.flags.ack ==> g.rcvd >= 1) && |e.payload| <= DEFAULT_MSS
  }

  ghost predicate QueueSound(q: seq<RetxSeg>, g: Pos) {
    forall e {:trigger EntrySound(e, g)} :: e in q ==> EntrySound(e, g)
  }

  /** The send variables and buffer sit at their positions. */
  predicate Numbered(snd: Sender, g: Pos) {
    && snd.iss == g.iss
    && (g.nxt >= 1 ==> snd.una == Wrap(g.iss + g.una) && snd.nxt == Wrap(g.iss + g.nxt))
    && 1 <= |g.tape| && g.una <= g.nxt <= |g.tape| + Bit(g.fin)
    && (g.fin ==> g.nxt == |g.tape| + 1)
    && |snd.buf| == Max(0, |g.tape| - Max(1, g.una))
    && (snd.buf != [] ==> FitsAt(snd.buf, g.una, g.tape))
    && (g.una == 0 ==> |g.tape| == 1)
  }

  predicate FinState(s: State) {
    s == FinWait1 || s == FinWait2 || s == Closing || s == LastAck || s == TimeWait
  }

  predicate Phase(t: Tcb, g: Pos) {
    && (g.nxt == 0 ==> (t.state == Closed || t.state == Listen) && g.rcvd == 0)
    && (g.rcvd == 0 ==>
          (t.state == Closed || t.state == Listen || t.state == SynSent) && g.una == 0 && !g.fin && !t.delAck.armed)
    && (g.rcvd >= 1 ==> t.rcv.nxt == Wrap(g.peerIss + g.rcvd) && t.state != SynSent)
    && (Early(t.state) ==> g.una == 0 && g.nxt <= 1 && !g.fin && g.rcvd <= 1)
    && (t.state == Established || t.state == CloseWait ==> g.una >= 1 && !g.fin)
    && (FinState(t.state) ==> g.fin)
  }

  /** Everything one endpoint has written and still holds is at its place in the stream. */
  ghost predicate Sound(t: Tcb, g: Pos) {
    && Numbered(t.snd, g) && Phase(t, g)
    && QueueSound(t.queue, g)
    && WireSound(t.wire, g)
  }

  // ----- positions only grow -----

  predicate Grows(g: Pos, g': Pos) {
    && g'.iss == g.iss && g.tape <= g'.tape && g.nxt <= g'.nxt && g.rcvd <= g'.rcvd
    && (g.fin ==> g'.fin && g'.tape == g.tape)
    && (g.rcvd >= 1 ==> g'.peerIss == g.peerIss)
  }

  lemma {:induction false} SeqGrows(seqNum: u32, flags: Flags, payload: Payload, g: Pos, g': Pos)
    requires SeqSound(seqNum, flags, payload, g) && Grows(g, g')
    ensures SeqSound(seqNum, flags, payload, g')
  {
    var p :| SeqAt(seqNum, flags, payload, g, p);
    assert SeqAt(seqNum, flags, payload, g', p);
  }

  lemma {:induction false} AckGrows(ackNum: u32, g: Pos, g': Pos)
    requires AckSound(ackNum, g) && Grows(g, g')
    ensures AckSound(ackNum, g')
  {
    var a :| AckAt(ackNum, g, a);
    assert AckAt(ackNum, g', a);
  }

  lemma {:induction false} WireGrows(wire: seq<Segment>, g: Pos, g': Pos)
    requires WireSound(wire, g) && Grows(g, g')
    ensures WireSound(wire, g')
  {
    forall s | s in wire ensures SegSound(s, g') {
      assert SegSound(s, g);
      if !s.flags.rst {
        SeqGrows(s.seqNum, s.flags, s.payload, g, g');
        if s.flags.ack { AckGrows(s.ackNum, g, g'); }
      }
    }
  }

  lemma {:induction false} QueueGrows(q: seq<RetxSeg>, g: Pos, g': Pos)
    requires QueueSound(q, g) && Grows(g, g')
    ensures QueueSound(q, g')
  {
    forall e | e in q ensures EntrySound(e, g') {
      assert EntrySound(e, g);
      SeqGrows(e.seqNum, e.flags, e.payload, g, g');
    }
  }

  // ----- writing -----

  /** The options attached when none are given. */
  lemma {:induction false} DefaultBuilt(t: Tcb, flags: Flags, given: Maybe, now: Time)
    requires given.Some? ==> StackBuilt(given.o)
    ensures StackBuilt(OptionsFor(t, flags, given, now))
  {
  }

  /** The options of an ACK: SACK blocks as many as leave room. */
  lemma {:induction false} AckBuilt(t: Tcb, now: Time)
    ensures AckOptions(t, now).Some? ==> StackBuilt(AckOptions(t, now).o)
  {
  }

  /** A segment with sound numbers may go on the wire. */
  lemma {:induction false} Writes(t: Tcb, g: Pos, flags: Flags, seqNum: u32, ackNum: u32, payload: Payload,
                                  given: Maybe, now: Time)
    requires WireSound(t.wire, g) && |payload| <= DEFAULT_MSS && (given.Some? ==> StackBuilt(given.o))
    requires flags.rst || (SeqSound(seqNum, flags, payload, g) && (flags.ack ==> AckSound(ackNum, g)))
    ensures WireSound(WriteSeg(t, flags, seqNum, ackNum, payload, given, now).wire, g)
  {
    var t' := WriteSeg(t, flags, seqNum, ackNum, payload, given, now);
    var s := t'.wire[|t.wire|];
    DefaultBuilt(t, flags, given, now);
    assert Built(s);
    assert SegSound(s, g);
    assert t'.wire == t.wire + [s];
  }

  /** The current RCV.NXT is a sound acknowledgement. */
  lemma {:induction false} AckNow(t: Tcb, g: Pos)
    requires Phase(t, g) && g.rcvd >= 1
    ensures AckSound(t.rcv.nxt, g)
  {
    assert AckAt(t.rcv.nxt, g, g.rcvd);
  }

  /** An empty segment at SND.NXT is sound. */
  lemma {:induction false} EmptyAtNext(snd: Sender, g: Pos, flags: Flags)
    requires Numbered(snd, g) && g.nxt >= 1 && !flags.syn && !flags.fin
    ensures SeqSound(snd.nxt, flags, [], g)
  {
    assert SeqAt(snd.nxt, flags, [], g, g.nxt);
  }

  /** Fields that soundness does not read may change. */
  lemma {:induction false} SoundFrame(t: Tcb, t': Tcb, g: Pos)
    requires Sound(t, g)
    requires t'.snd.una == t.snd.una && t'.snd.nxt == t.snd.nxt && t'.snd.iss == t.snd.iss && t'.snd.buf == t.snd.buf
    requires t'.rcv.nxt == t.rcv.nxt && t'.queue == t.queue && t'.wire == t.wire && Phase(t', g)
    ensures Sound(t', g)
  {
  }

  lemma {:induction false} AckSends(t: Tcb, g: Pos, env: Env)
    requires Sound(t, g) && g.rcvd >= 1
    ensures Sound(SendAck(t, env), g)
  {
    AckNow(t, g);
    EmptyAtNext(t.snd, g, F_ACK);
    AckBuilt(t.(delAck := t.delAck.(armed := false, count := 0)), env.now);
    var t1 := t.(delAck := t.delAck.(armed := false, count := 0));
    Writes(t1, g, F_ACK, t.snd.nxt, t.rcv.nxt, [], AckOptions(t1, env.now), env.now);
  }

  lemma {:induction false} RstSends(t: Tcb, g: Pos, flags: Flags, seqNum: u32, ackNum: u32, env: Env)
    requires Sound(t, g) && (flags == F_RST || flags == F_RST_ACK)
    ensures Sound(SendData(t, flags, seqNum, ackNum, [], env), g)
  {
    Writes(t, g, flags, seqNum, ackNum, [], None, env.now);
  }

  lemma {:induction false} ChallengeSends(t: Tcb, g: Pos, env: Env)
    requires Sound(t, g) && g.rcvd >= 1
    ensures Sound(SendChallengeAck(t, env), g)
  {
    AckNow(t, g);
    EmptyAtNext(t.snd, g, F_ACK);
    var t1 := t.(throttle := SendChallengeAck(t, env).throttle);
    Writes(t1, g, F_ACK, t.snd.nxt, t.rcv.nxt, [], None, env.now);
  }

  /** Repeating a queued segment with the current acknowledgement. */
  lemma {:induction false} Repeats(t: Tcb, g: Pos, e: RetxSeg, e': RetxSeg, env: Env)
    requires Sound(t, g) && t.queue != [] && e == t.queue[0]
    requires e'.seqNum == e.seqNum && e'.flags == e.flags && e'.payload == e.payload
    ensures WireSound(WriteSeg(t, e.flags, e.seqNum, t.rcv.nxt, e.payload, None, env.now).wire, g)
    ensures QueueSound([e'] + t.queue[1..], g)
  {
    assert e in t.queue && EntrySound(e, g);
    if e.flags.ack { AckNow(t, g); }
    Writes(t, g, e.flags, e.seqNum, t.rcv.nxt, e.payload, None, env.now);
  }

  /** The next n unsent bytes at SND.NXT. */
  lemma {:induction false} NextBytes(snd: Sender, g: Pos, payload: Payload, flags: Flags)
    requires Numbered(snd, g) && g.nxt >= 1 && !flags.syn && !flags.fin && Unsent(snd)
    requires 0 < |payload| && InFlight(snd) + |payload| <= |snd.buf|
    requires payload == snd.buf[InFlight(snd)..InFlight(snd) + |payload|]
    ensures var g' := g.(nxt := g.nxt + |payload|);
      && SeqSound(snd.nxt, flags, payload, g')
      && Numbered(snd.(nxt := Add(snd.nxt, |payload|)), g') && Grows(g, g') && !g.fin && g.una >= 1
  {
    FlightAt(snd, g);
    var g' := g.(nxt := g.nxt + |payload|);
    WrapAdd(snd.iss + g.nxt, |payload|);
    assert FitsAt(payload, g.nxt, g.tape);
    assert SeqAt(snd.nxt, flags, payload, g', g.nxt);
  }

  lemma {:induction false} FlightAt(snd: Sender, g: Pos)
    requires Numbered(snd, g) && g.nxt >= 1
    ensures InFlight(snd) == g.nxt - g.una <= |snd.buf| + 2
  {
    WrapSub(snd.iss + g.nxt, snd.iss + g.una);
  }

  /** t' is t after the bytes of payload were written at SND.NXT and queued. */
  predicate Sent(t: Tcb, t': Tcb, payload: Payload, env: Env) {
    && t'.queue == Enqueue(t, F_PSH_ACK, t.snd.nxt, payload, env).queue
    && t'.wire == WriteSeg(t, F_PSH_ACK, t.snd.nxt, t.rcv.nxt, payload, None, env.now).wire
    && t'.snd == t.snd.(nxt := Add(t.snd.nxt, |payload|))
    && t'.state == t.state && t'.rcv == t.rcv && t'.delAck == t.delAck
  }

  lemma {:induction false} DataWrites(t: Tcb, g: Pos, payload: Payload, env: Env)
    requires Sound(t, g) && Unsent(t.snd)
    requires 0 < |payload| <= DEFAULT_MSS && InFlight(t.snd) + |payload| <= |t.snd.buf|
    requires payload == t.snd.buf[InFlight(t.snd)..InFlight(t.snd) + |payload|]
    ensures var g' := g.(nxt := g.nxt + |payload|);
      && QueueSound(Enqueue(t, F_PSH_ACK, t.snd.nxt, payload, env).queue, g')
      && WireSound(WriteSeg(t, F_PSH_ACK, t.snd.nxt, t.rcv.nxt, payload, None, env.now).wire, g')
  {
    var g' := g.(nxt := g.nxt + |payload|);
    NextBytes(t.snd, g, payload, F_PSH_ACK);
    AckNow(t, g);
    AckGrows(t.rcv.nxt, g, g');
    WireGrows(t.wire, g, g');
    QueueGrows(t.queue, g, g');
    Writes(t, g', F_PSH_ACK, t.snd.nxt, t.rcv.nxt, payload, None, env.now);
    Enqueues(t, g', F_PSH_ACK, t.snd.nxt, payload, env);
  }

  /** Sending and queueing the next unsent bytes. */
  lemma {:induction false} DataSends(t: Tcb, g: Pos, payload: Payload, env: Env, t': Tcb)
    requires Sound(t, g) && Unsent(t.snd)
    requires 0 < |payload| <= DEFAULT_MSS && InFlight(t.snd) + |payload| <= |t.snd.buf|
    requires payload == t.snd.buf[InFlight(t.snd)..InFlight(t.snd) + |payload|]
    requires Sent(t, t', payload, env)
    ensures var g' := g.(nxt := g.nxt + |payload|);
      Sound(t', g') && Grows(g, g')
  {
    DataNumbers(t, g, payload, t');
    DataWrites(t, g, payload, env);
    Assembled(t', g.(nxt := g.nxt + |payload|));
  }

  lemma {:induction false} DataNumbers(t: Tcb, g: Pos, payload: Payload, t': Tcb)
    requires Numbered(t.snd, g) && Phase(t, g) && Unsent(t.snd)
    requires 0 < |payload| && InFlight(t.snd) + |payload| <= |t.snd.buf|
    requires payload == t.snd.buf[InFlight(t.snd)..InFlight(t.snd) + |payload|]
    requires t'.snd == t.snd.(nxt := Add(t.snd.nxt, |payload|))
    requires t'.state == t.state && t'.rcv == t.rcv && t'.delAck == t.delAck
    ensures var g' := g.(nxt := g.nxt + |payload|);
      Numbered(t'.snd, g') && Phase(t', g') && Grows(g, g')
  {
    UnsentNumbered(t.snd, g);
    NextBytes(t.snd, g, payload, F_PSH_ACK);
    DataPhase(t, g, t', |payload|);
  }

  /** Only bytes after the SYN can be unsent. */
  lemma {:induction false} UnsentNumbered(snd: Sender, g: Pos)
    requires Numbered(snd, g) && Unsent(snd)
    ensures 1 <= g.una <= g.nxt
  {
  }

  lemma {:induction false} Assembled(t: Tcb, g: Pos)
    requires Numbered(t.snd, g) && Phase(t, g) && QueueSound(t.queue, g) && WireSound(t.wire, g)
    ensures Sound(t, g)
  {
  }

  lemma {:induction false} DataPhase(t: Tcb, g: Pos, t': Tcb, n: nat)
    requires Phase(t, g) && g.una >= 1 && t'.state == t.state && t'.rcv == t.rcv && t'.delAck == t.delAck
    ensures Phase(t', g.(nxt := g.nxt + n))
  {
  }

  lemma {:induction false} Enqueues(t: Tcb, g: Pos, flags: Flags, seqNum: u32, payload: Payload, env: Env)
    requires QueueSound(t.queue, g)
    requires SeqSound(seqNum, flags, payload, g) && (flags.ack ==> g.rcvd >= 1) && |payload| <= DEFAULT_MSS
    ensures QueueSound(Enqueue(t, flags, seqNum, payload, env).queue, g)
  {
    var e := RetxSeg(seqNum, flags, payload, env.now, 0, false);
    assert EntrySound(e, g);
  }

  lemma {:induction false} EmitFrame(t: Tcb, env: Env) returns (payload: Payload)
    requires Unsent(t.snd) && SendUsable(t.snd) > 0
    ensures 0 < |payload| <= DEFAULT_MSS && InFlight(t.snd) + |payload| <= |t.snd.buf|
    ensures payload == t.snd.buf[InFlight(t.snd)..InFlight(t.snd) + |payload|]
    ensures Sent(t, EmitNext(t, env), payload, env)
  {
    var off := InFlight(t.snd);
    payload := t.snd.buf[off..off + SegmentSize(|t.snd.buf| - off, SendUsable(t.snd))];
  }

  lemma {:induction false} EmitSends(t: Tcb, g: Pos, env: Env) returns (g': Pos)
    requires Sound(t, g) && Unsent(t.snd) && SendUsable(t.snd) > 0
    ensures Sound(EmitNext(t, env), g') && Grows(g, g') && g' == g.(nxt := g'.nxt)
    ensures EmitNext(t, env).rcv == t.rcv && EmitNext(t, env).state == t.state
    ensures g.una >= 1
  {
    var payload := EmitFrame(t, env);
    g' := g.(nxt := g.nxt + |payload|);
    DataSends(t, g, payload, env, EmitNext(t, env));
  }

  lemma {:induction false} FlushSends(t: Tcb, g: Pos, idle: bool, env: Env) returns (g': Pos)
    requires Sound(t, g)
    ensures g.una == 0 ==> g' == g
    ensures Sound(FlushFrom(t, idle, env), g') && Grows(g, g') && g' == g.(nxt := g'.nxt)
    ensures FlushFrom(t, idle, env).rcv == t.rcv && FlushFrom(t, idle, env).state == t.state
    decreases |t.snd.buf| - InFlight(t.snd)
  {
    if MaySend(t.snd, idle) {
      EmitProgress(t, idle, env);
      var g1 := EmitSends(t, g, env);
      g' := FlushSends(EmitNext(t, env), g1, idle, env);
    } else {
      g' := g;
      SoundFrame(t, StopSending(t, env), g);
    }
  }

  // ----- timers -----

  lemma {:induction false} ProbeFrame(t: Tcb, env: Env) returns (payload: Payload)
    requires Unsent(t.snd) && t.snd.wnd == 0
    ensures |payload| == 1 && payload == t.snd.buf[InFlight(t.snd)..InFlight(t.snd) + 1]
    ensures Sent(t, ProbePersist(t, env), payload, env)
  {
    payload := [t.snd.buf[InFlight(t.snd)]];
  }

  lemma {:induction false} ProbeSends(t: Tcb, g: Pos, env: Env) returns (g': Pos)
    requires Sound(t, g)
    ensures g.una == 0 ==> g' == g
    ensures Sound(ProbePersist(t, env), g') && Grows(g, g') && g' == g.(nxt := g'.nxt)
  {
    g' := g;
    if Unsent(t.snd) && t.snd.wnd == 0 {
      var payload := ProbeFrame(t, env);
      g' := g.(nxt := g.nxt + |payload|);
      DataSends(t, g, payload, env, ProbePersist(t, env));
    }
  }

  lemma {:induction false} OverrideSends(t: Tcb, g: Pos, env: Env) returns (g': Pos)
    requires Sound(t, g)
    ensures g.una == 0 ==> g' == g
    ensures Sound(FireOverride(t, env), g') && Grows(g, g') && g' == g.(nxt := g'.nxt)
  {
    g' := g;
    if Unsent(t.snd) && SendUsable(t.snd) != 0 { g' := EmitSends(t, g, env); }
    else { SoundFrame(t, FireOverride(t, env), g); }
  }

  lemma {:induction false} RetransmitSends(t: Tcb, g: Pos, env: Env)
    requires Sound(t, g)
    ensures Sound(CheckRetransmit(t, env), g)
  {
    var t' := CheckRetransmit(t, env);
    if t.queue != [] && t'.queue != [] && t' != t {
      var t1 := t.(snd := t.snd.(cong := t'.snd.cong));
      SoundFrame(t, t1, g);
      Repeats(t1, g, t.queue[0], t'.queue[0], env);
    }
  }

  lemma {:induction false} PersistSends(t: Tcb, g: Pos, env: Env) returns (g': Pos)
    requires Sound(t, g)
    ensures g.una == 0 ==> g' == g
    ensures Sound(CheckPersist(t, env), g') && Grows(g, g') && g' == g.(nxt := g'.nxt)
  {
    g' := g;
    if t.persist.armed && t.persist.deadline <= env.now { g' := ProbeSends(t, g, env); }
  }

  lemma {:induction false} CheckOverrideSends(t: Tcb, g: Pos, env: Env) returns (g': Pos)
    requires Sound(t, g)
    ensures g.una == 0 ==> g' == g
    ensures Sound(CheckOverride(t, env), g') && Grows(g, g') && g' == g.(nxt := g'.nxt)
  {
    g' := g;
    if t.override.armed && t.override.deadline <= env.now { g' := OverrideSends(t, g, env); }
  }

  lemma {:induction false} DelAckSends(t: Tcb, g: Pos, env: Env)
    requires Sound(t, g)
    ensures Sound(CheckDelAck(t, env), g)
  {
    if t.delAck.armed && t.delAck.deadline <= env.now { AckSends(t, g, env); }
  }

  lemma {:induction false} TimeWaitSends(t: Tcb, g: Pos, env: Env)
    requires Sound(t, g)
    ensures Sound(CheckTimeWait(t, env), g)
  {
  }

  lemma {:induction false} TickSends(t: Tcb, g: Pos, env: Env) returns (g': Pos)
    requires Sound(t, g)
    ensures g.una == 0 ==> g' == g
    ensures Sound(Tick(t, env), g') && Grows(g, g') && g' == g.(nxt := g'.nxt)
  {
    TimeWaitSends(t, g, env);
    var t1 := CheckTimeWait(t, env);
    RetransmitSends(t1, g, env);
    var t2 := CheckRetransmit(t1, env);
    var g3 := PersistSends(t2, g, env);
    var t3 := CheckPersist(t2, env);
    g' := CheckOverrideSends(t3, g3, env);
    DelAckSends(CheckOverride(t3, env), g', env);
  }

  // ----- user calls -----

  lemma {:induction false} GiveBytes(t: Tcb, g: Pos, data: seq<u8>)
    requires Sound(t, g) && (t.state == Established || t.state == CloseWait)
    requires |t.snd.buf| + |data| <= SEND_LIMIT
    ensures var g' := g.(tape := g.tape + data);
      Sound(t.(snd := t.snd.(buf := t.snd.buf + data)), g') && Grows(g, g')
  {
    var g' := g.(tape := g.tape + data);
    WireGrows(t.wire, g, g');
    QueueGrows(t.queue, g, g');
    GiveNumbers(t.snd, g, data);
  }

  lemma {:induction false} GiveNumbers(snd: Sender, g: Pos, data: seq<u8>)
    requires Numbered(snd, g) && g.una >= 1 && !g.fin && |snd.buf| + |data| <= SEND_LIMIT
    ensures Numbered(snd.(buf := snd.buf + data), g.(tape := g.tape + data))
  {
  }

  lemma {:induction false} SendSends(t: Tcb, g: Pos, data: seq<u8>, env: Env) returns (g': Pos)
    requires Sound(t, g) && |t.snd.buf| + |data| <= SEND_LIMIT
    ensures Sound(Send(t, data, env), g') && Grows(g, g') && g' == g.(nxt := g'.nxt, tape := g'.tape)
    ensures if SendOutcome(t.state, |data|).Sent? then g'.tape == g.tape + data && g.una >= 1 else g' == g
    ensures Send(t, data, env).rcv == t.rcv
  {
    g' := g;
    if SendOutcome(t.state, |data|).Sent? {
      GiveBytes(t, g, data);
      var t1 := t.(snd := t.snd.(buf := t.snd.buf + data));
      g' := FlushSends(t1, g.(tape := g.tape + data), t1.snd.nxt == t1.snd.una, env);
    }
  }

  lemma {:induction false} FinNumbers(snd: Sender, g: Pos)
    requires Numbered(snd, g) && g.nxt >= 1 && !g.fin && !Unsent(snd)
    ensures var g' := g.(nxt := g.nxt + 1, fin := true);
      && Numbered(snd.(nxt := Add(snd.nxt, 1)), g') && Grows(g, g')
      && SeqSound(snd.nxt, F_FIN_ACK, [], g')
  {
    FlightAt(snd, g);
    WrapAdd(snd.iss + g.nxt, 1);
    assert SeqAt(snd.nxt, F_FIN_ACK, [], g.(nxt := g.nxt + 1, fin := true), g.nxt);
  }

  lemma {:induction false} FinWrites(t: Tcb, g: Pos, env: Env)
    requires Sound(t, g) && g.rcvd >= 1 && !g.fin && !Unsent(t.snd) && g.nxt >= 1
    ensures var g' := g.(nxt := g.nxt + 1, fin := true);
      && QueueSound(Enqueue(t, F_FIN_ACK, t.snd.nxt, [], env).queue, g')
      && WireSound(WriteSeg(t, F_FIN_ACK, t.snd.nxt, t.rcv.nxt, [], None, env.now).wire, g')
  {
    var g' := g.(nxt := g.nxt + 1, fin := true);
    FinNumbers(t.snd, g);
    AckNow(t, g);
    AckGrows(t.rcv.nxt, g, g');
    WireGrows(t.wire, g, g');
    QueueGrows(t.queue, g, g');
    Writes(t, g', F_FIN_ACK, t.snd.nxt, t.rcv.nxt, [], None, env.now);
    Enqueues(t, g', F_FIN_ACK, t.snd.nxt, [], env);
  }

  lemma {:induction false} FinSends(t: Tcb, g: Pos, next: State, env: Env, t': Tcb)
    requires Sound(t, g) && g.rcvd >= 1 && !g.fin && !Unsent(t.snd) && FinState(next)
    requires t'.queue == Enqueue(t, F_FIN_ACK, t.snd.nxt, [], env).queue
    requires t'.wire == WriteSeg(t, F_FIN_ACK, t.snd.nxt, t.rcv.nxt, [], None, env.now).wire
    requires t'.snd == t.snd.(nxt := Add(t.snd.nxt, 1)) && t'.rcv == t.rcv && t'.delAck == t.delAck && t'.state == next
    ensures var g' := g.(nxt := g.nxt + 1, fin := true);
      Sound(t', g') && Grows(g, g')
  {
    FinNumbers(t.snd, g);
    FinWrites(t, g, env);
    ClosingPhase(t, g, t');
  }

  lemma {:induction false} ClosingPhase(t: Tcb, g: Pos, t': Tcb)
    requires Phase(t, g) && g.rcvd >= 1 && FinState(t'.state) && t'.rcv == t.rcv
    ensures Phase(t', g.(nxt := g.nxt + 1, fin := true))
  {
  }

  /** Closing with nothing unsent puts the FIN right after the last byte given. */
  lemma {:induction false} CloseSends(t: Tcb, g: Pos, env: Env) returns (g': Pos)
    requires Sound(t, g) && !Unsent(t.snd)
    ensures Sound(Close(t, env), g') && Grows(g, g') && g' == g.(nxt := g'.nxt, fin := g'.fin)
    ensures Close(t, env).rcv == t.rcv && (g.nxt == 0 ==> g' == g)
    ensures g'.fin <==> g.fin || t.state == Established || t.state == SynReceived || t.state == CloseWait
  {
    g' := g;
    if t.state == Established || t.state == SynReceived || t.state == CloseWait {
      g' := g.(nxt := g.nxt + 1, fin := true);
      FinSends(t, g, if t.state == CloseWait then LastAck else FinWait1, env, Close(t, env));
    } else {
      CloseFrame(t, g, env);
    }
  }

  lemma {:induction false} CloseFrame(t: Tcb, g: Pos, env: Env)
    requires Sound(t, g) && t.state != Established && t.state != SynReceived && t.state != CloseWait
    ensures Sound(Close(t, env), g) && Close(t, env).rcv == t.rcv
  {
  }

  /** Reading changes no number. */
  lemma {:induction false} RecvSends(t: Tcb, g: Pos, max: nat, env: Env)
    requires Sound(t, g) && (t.rcv.buf != [] ==> g.rcvd >= 1)
    ensures Sound(Recv(t, max, env), g)
  {
    if t.rcv.buf != [] {
      var t1 := t.(rcv := Read(t.rcv, Min(max, |t.rcv.buf|), EffMss(t.snd)));
      RcvFrame(t, t1, g);
      AckSends(t1, g, env);
    }
  }

  lemma {:induction false} RcvFrame(t: Tcb, t': Tcb, g: Pos)
    requires Sound(t, g) && t' == t.(rcv := t'.rcv) && t'.rcv.nxt == t.rcv.nxt
    ensures Sound(t', g)
  {
  }

  // ----- acknowledgements -----

  /** The acknowledgement number is that of position a, which the peer may have reached. */
  predicate Acks(ack: u32, a: int, g: Pos) {
    ack == Wrap(g.iss + a) && 1 <= a <= g.nxt && g.una - HALF < a
  }

  lemma {:induction false} AckDecides(snd: Sender, g: Pos, ack: u32, a: int)
    requires Numbered(snd, g) && Acks(ack, a, g)
    ensures AcceptableAck(snd.una, ack, snd.nxt) <==> g.una < a
    ensures g.una < a ==> Sub(ack, snd.una) == a - g.una
  {
    FlightAt(snd, g);
    ComparePositions(snd.iss + g.una, snd.iss + a);
    if g.una < a {
      ComparePositions(snd.iss + a, snd.iss + g.nxt);
      AckedAmount(snd, g, ack, a);
    }
  }

  lemma {:induction false} AckedAmount(snd: Sender, g: Pos, ack: u32, a: int)
    requires Numbered(snd, g) && Acks(ack, a, g) && g.una < a
    ensures Sub(ack, snd.una) == a - g.una
  {
    FlightAt(snd, g);
    WrapSub(snd.iss + a, snd.iss + g.una);
  }

  lemma {:induction false} AckNumbers(snd: Sender, g: Pos, ack: u32, a: int, snd': Sender)
    requires Numbered(snd, g) && Acks(ack, a, g) && g.una < a
    requires snd'.una == ack && snd'.nxt == snd.nxt && snd'.iss == snd.iss
    requires snd'.buf == ReleaseAcked(snd.buf, a - g.una)
    ensures Numbered(snd', g.(una := a))
  {
  }

  lemma {:induction false} PopSound(q: seq<RetxSeg>, ack: u32, g: Pos)
    requires QueueSound(q, g)
    ensures QueueSound(PopAcked(q, ack), g)
  {
    if q != [] { PopSound(q[1..], ack, g); }
  }

  lemma {:induction false} AckQueueSound(t: Tcb, ack: u32, env: Env, g: Pos)
    requires QueueSound(t.queue, g)
    ensures QueueSound(AckQueue(t, ack, env).queue, g)
  {
    PopSound(t.queue, ack, g);
    var q, q' := PopAcked(t.queue, ack), AckQueue(t, ack, env).queue;
    if q' != t.queue && q != [] {
      assert q[0] in q && EntrySound(q[0], g);
      assert EntrySound(q'[0], g);
      assert q' == [q'[0]] + q[1..];
    }
  }

  lemma {:induction false} TakeFrame(t: Tcb, ack: u32, env: Env)
    ensures var t' := TakeNewAck(t, ack, env);
      && t'.queue == AckQueue(t, ack, env).queue && t'.wire == t.wire
      && t'.rcv == t.rcv && t'.state == t.state && t'.delAck == t.delAck
      && t'.snd == t.snd.(una := ack, buf := ReleaseAcked(t.snd.buf, Sub(ack, t.snd.una)), cong := t'.snd.cong)
  {
  }

  lemma {:induction false} NewAckSends(t: Tcb, g: Pos, ack: u32, a: int, env: Env, t': Tcb)
    requires Sound(t, g) && Acks(ack, a, g) && g.una < a && g.rcvd >= 1 && t.state != Listen
    requires t'.queue == AckQueue(t, ack, env).queue && t'.wire == t.wire
    requires t'.rcv == t.rcv && t'.state == t.state && t'.delAck == t.delAck
    requires t'.snd == t.snd.(una := ack, buf := ReleaseAcked(t.snd.buf, Sub(ack, t.snd.una)), cong := t'.snd.cong)
    ensures SoundButPhase(t', g.(una := a))
  {
    var g' := g.(una := a);
    AckDecides(t.snd, g, ack, a);
    AckNumbers(t.snd, g, ack, a, t'.snd);
    AckPhase(t, g, a, t');
    AckQueueSound(t, ack, env, g);
    WireGrows(t.wire, g, g');
    QueueGrows(t'.queue, g, g');
  }

  lemma {:induction false} AckPhase(t: Tcb, g: Pos, a: nat, t': Tcb)
    requires Phase(t, g) && g.una < a <= g.nxt && g.rcvd >= 1 && t.state != Listen
    requires t'.rcv == t.rcv && t'.state == t.state && t'.delAck == t.delAck
    ensures Phase(t', g.(una := a)) || (t'.state == SynReceived && a == 1 && Phase(t', g.(una := 0)))
  {
  }

  /** As Sound, but a SYN-RECEIVED endpoint may have had its SYN acknowledged. */
  ghost predicate SoundButPhase(t: Tcb, g: Pos) {
    && Numbered(t.snd, g)
    && (Phase(t, g) || (t.state == SynReceived && g.una == 1 && Phase(t, g.(una := 0))))
    && QueueSound(t.queue, g)
    && WireSound(t.wire, g)
  }

  lemma {:induction false} DupAckSends(t: Tcb, g: Pos, env: Env)
    requires Sound(t, g)
    ensures Sound(OnDuplicateAck(t, env), g)
  {
    var t' := OnDuplicateAck(t, env);
    var t1 := t.(snd := t.snd.(cong := t'.snd.cong));
    SoundFrame(t, t1, g);
    if t.queue != [] && t'.wire != t.wire {
      Repeats(t1, g, t.queue[0], t'.queue[0], env);
    }
  }

  lemma {:induction false} NoteAckSends(t: Tcb, g: Pos, s: Segment, a: int, env: Env)
    requires Sound(t, g) && Acks(s.ackNum, a, g) && g.rcvd >= 1 && t.state != Listen
    ensures SoundButPhase(NoteAck(t, s, env), g.(una := Max(g.una, a)))
  {
    AckDecides(t.snd, g, s.ackNum, a);
    if g.una < a {
      TakeFrame(t, s.ackNum, env);
      NewAckSends(t, g, s.ackNum, a, env, TakeNewAck(t, s.ackNum, env));
    } else if IsDupAck(t, s) {
      DupAckSends(t, g, env);
    }
  }

  lemma {:induction false} WindowFrame(t: Tcb, s: Segment)
    ensures var t' := UpdateSendWindow(t, s);
      && t'.snd == t.snd.(wnd := t'.snd.wnd, wl1 := t'.snd.wl1, wl2 := t'.snd.wl2, maxWnd := t'.snd.maxWnd)
      && t' == t.(snd := t'.snd, persist := t'.persist)
  {
  }

  lemma {:induction false} WindowSends(t: Tcb, g: Pos, t': Tcb)
    requires SoundButPhase(t, g)
    requires t' == t.(snd := t'.snd, persist := t'.persist)
    requires t'.snd == t.snd.(wnd := t'.snd.wnd, wl1 := t'.snd.wl1, wl2 := t'.snd.wl2, maxWnd := t'.snd.maxWnd)
    ensures SoundButPhase(t', g)
  {
    assert Numbered(t'.snd, g);
  }

  lemma {:induction false} AdvanceSends(t: Tcb, g: Pos, env: Env)
    requires SoundButPhase(t, g) && (t.state == SynReceived ==> g.una == 1) && t.state != Listen && g.rcvd >= 1
    ensures Sound(AdvanceOnAck(t, env), g) && AdvanceOnAck(t, env).state != SynReceived
    ensures AdvanceOnAck(t, env).state != Listen && AdvanceOnAck(t, env).rcv == t.rcv
  {
    AdvancePhase(t, g, env);
    Assembled(AdvanceOnAck(t, env), g);
  }

  lemma {:induction false} AdvancePhase(t: Tcb, g: Pos, env: Env)
    requires Phase(t, g) || (t.state == SynReceived && g.una == 1 && Phase(t, g.(una := 0)))
    requires (t.state == SynReceived ==> g.una == 1) && t.state != Listen && g.rcvd >= 1
    ensures var t' := AdvanceOnAck(t, env);
      && Phase(t', g) && t'.state != SynReceived && t'.state != Listen && t'.rcv == t.rcv
      && t'.snd == t.snd && t'.queue == t.queue && t'.wire == t.wire
  {
    if t.state == SynReceived { SynAckedPhase(t, g, AdvanceOnAck(t, env)); }
  }

  lemma {:induction false} SynAckedPhase(t: Tcb, g: Pos, t': Tcb)
    requires Phase(t, g) || (g.una == 1 && Phase(t, g.(una := 0)))
    requires t.state == SynReceived && g.una == 1 && g.rcvd >= 1
    requires t' == t.(state := Established, reachedEstablished := true)
    ensures Phase(t', g)
  {
  }

  /** An accepted ACK at position a moves SND.UNA to a if that is forward, and may send. */
  lemma {:induction false} HandleAckSends(t: Tcb, g: Pos, s: Segment, a: int, env: Env) returns (g': Pos)
    requires Sound(t, g) && Acks(s.ackNum, a, g) && g.rcvd >= 1 && t.state != Listen
    requires AckAccepted(t, s)
    ensures var t' := HandleAck(t, s, env);
      Sound(t', g') && t'.rcv == t.rcv && t'.state != SynReceived && t'.state != Listen
    ensures Grows(g, g') && g' == g.(una := Max(g.una, a), nxt := g'.nxt)
  {
    var g1 := g.(una := Max(g.una, a));
    AckDecides(t.snd, g, s.ackNum, a);
    NoteAckSends(t, g, s, a, env);
    NoteAckFrame(t, s, env);
    var t1 := NoteAck(t, s, env);
    var t2 := UpdateSendWindow(t1, s);
    WindowFrame(t1, s);
    WindowSends(t1, g1, t2);
    AdvanceSends(t2, g1, env);
    var t3 := AdvanceOnAck(t2, env);
    g' := FlushSends(t3, g1, t3.snd.nxt == t3.snd.una, env);
  }

  lemma {:induction false} RefuseSends(t: Tcb, g: Pos, s: Segment, env: Env)
    requires Sound(t, g) && g.rcvd >= 1
    ensures Sound(RefuseAck(t, s, env), g) && RefuseAck(t, s, env).rcv == t.rcv
  {
    RstSends(t, g, F_RST, s.ackNum, 0, env);
    ChallengeSends(t, g, env);
  }

  // ----- text and FIN -----

  /** RCV.NXT moved on to position M. */
  lemma {:induction false} ReceiveMoves(t: Tcb, g: Pos, t': Tcb, M: nat)
    requires Sound(t, g) && 1 <= g.rcvd <= M && !Early(t.state)
    requires t' == t.(rcv := t'.rcv) && t'.rcv.nxt == Wrap(g.peerIss + M)
    ensures Sound(t', g.(rcvd := M))
  {
    var g' := g.(rcvd := M);
    WireGrows(t.wire, g, g');
    QueueGrows(t.queue, g, g');
  }

  lemma {:induction false} TextSends(t: Tcb, g: Pos, s: Segment, env: Env, M: nat)
    requires Sound(t, g) && 1 <= g.rcvd <= M && !Early(t.state)
    requires if s.payload == [] then M == g.rcvd else Accept(t.rcv, s.seqNum, s.payload).nxt == Wrap(g.peerIss + M)
    ensures Sound(AcceptText(t, s, env), g.(rcvd := M))
  {
    if s.payload != [] {
      var t1 := t.(rcv := Accept(t.rcv, s.seqNum, s.payload));
      var g' := g.(rcvd := M);
      ReceiveMoves(t, g, t1, M);
      if Delayable(t, s) { DelaySends(t1, g', env); } else { AckSends(t1, g', env); }
    }
  }

  lemma {:induction false} DelaySends(t: Tcb, g: Pos, env: Env)
    requires Sound(t, g) && g.rcvd >= 1
    ensures Sound(OnDelayable(t, env), g)
  {
    AckSends(t, g, env);
    if t.delAck.count + 1 < 2 {
      SoundFrame(t, OnDelayable(t, env), g);
    }
  }

  lemma {:induction false} FinReceived(t: Tcb, g: Pos, env: Env)
    requires Sound(t, g) && g.rcvd >= 1 && !Early(t.state)
    ensures Sound(HandleFin(t, env), g.(rcvd := g.rcvd + 1))
  {
    WrapAdd(g.peerIss + g.rcvd, 1);
    var t1 := t.(rcv := t.rcv.(peerFin := true, peerFinSeq := t.rcv.nxt, nxt := Add(t.rcv.nxt, 1)));
    ReceiveMoves(t, g, t1, g.rcvd + 1);
    AckSends(t1, g.(rcvd := g.rcvd + 1), env);
    FinFrame(t, env);
    FinPhase(SendAck(t1, env), g.(rcvd := g.rcvd + 1), HandleFin(t, env));
  }

  lemma {:induction false} FinFrame(t: Tcb, env: Env)
    ensures var t1 := SendAck(t.(rcv := WithFin(t.rcv)), env);
      var t' := HandleFin(t, env);
      && t' == t1.(state := t'.state, timeWaitDeadline := t'.timeWaitDeadline)
      && (t'.state == t.state || t'.state == CloseWait || (FinState(t.state) && FinState(t'.state)))
      && (t'.state == CloseWait ==> t.state == Established || t.state == SynReceived || t.state == CloseWait)
  {
  }

  lemma {:induction false} FinPhase(t: Tcb, g: Pos, t': Tcb)
    requires Sound(t, g) && !Early(t.state) && g.rcvd >= 1
    requires t' == t.(state := t'.state, timeWaitDeadline := t'.timeWaitDeadline)
    requires t'.state == t.state || t'.state == CloseWait || (FinState(t.state) && FinState(t'.state))
    requires t'.state == CloseWait ==> t.state == Established || t.state == CloseWait
    ensures Sound(t', g)
  {
  }

  // ----- handshake -----

  /** Our SYN or SYN-ACK at position 0, with the peer's SYN received or not. */
  lemma {:induction false} SynSends(t: Tcb, g: Pos, flags: Flags, ackNum: u32, env: Env)
    requires Numbered(t.snd, g) && g.una == 0 && g.nxt == 1
    requires QueueSound(t.queue, g) && WireSound(t.wire, g)
    requires flags == F_SYN || (flags == F_SYN_ACK && g.rcvd >= 1 && ackNum == t.rcv.nxt)
    requires Phase(t, g)
    ensures Sound(SendSyn(t, flags, t.snd.iss, ackNum, env), g)
  {
    assert SeqAt(t.snd.iss, flags, [], g, 0) by { WrapAdd(t.snd.iss, 0); }
    if flags.ack { AckNow(t, g); }
    var t' := SendSyn(t, flags, t.snd.iss, ackNum, env);
    var o := SynOptions(DEFAULT_MSS, MY_WINDOW_SCALE, TsNow(env.now), if ackNum != 0 then t.neg.tsRecent else 0);
    assert StackBuilt(o);
    Writes(t, g, flags, t.snd.iss, ackNum, [], Some(o), env.now);
    Enqueues(t, g, flags, t.snd.iss, [], env);
    assert t'.wire == WriteSeg(t, flags, t.snd.iss, ackNum, [], Some(o), env.now).wire;
    assert t'.queue == Enqueue(t, flags, t.snd.iss, [], env).queue;
  }

  /** Before the first number is used nothing but resets can have been written. */
  lemma {:induction false} NothingNumbered(t: Tcb, g: Pos, g': Pos)
    requires Sound(t, g) && g.nxt == 0
    ensures t.queue == [] && WireSound(t.wire, g')
  {
    forall s | s in t.wire ensures SegSound(s, g') {
      assert SegSound(s, g);
    }
    HeadSound(t.queue, g);
  }

  lemma {:induction false} HeadSound(q: seq<RetxSeg>, g: Pos)
    requires QueueSound(q, g)
    ensures q != [] ==> EntrySound(q[0], g)
  {
    if q != [] { assert q[0] in q; }
  }

  lemma {:induction false} ActiveOpenSends(t: Tcb, g: Pos, iss: u32, env: Env)
    requires Sound(t, g) && t.state == Closed && g.nxt == 0
    ensures Sound(ActiveOpen(t, iss, env), g.(iss := iss, nxt := 1))
  {
    var g' := g.(iss := iss, nxt := 1);
    NothingNumbered(t, g, g');
    var t1 := t.(snd := t.snd.(iss := iss, una := iss, nxt := Add(iss, 1)),
                 rcv := t.rcv.(wnd := BuffCap(t.rcv)), state := SynSent);
    WrapAdd(iss, 0);
    WrapAdd(iss, 1);
    SynSends(t1, g', F_SYN, 0, env);
  }

  lemma {:induction false} PassiveOpenSends(t: Tcb, g: Pos)
    requires Sound(t, g) && t.state == Closed && g.nxt == 0
    ensures Sound(PassiveOpen(t), g)
  {
  }

  /** A SYN in LISTEN numbers both directions: ours from 0, the peer's from 1. */
  lemma {:induction false} ListenSends(t: Tcb, g: Pos, s: Segment, env: Env, peerIss: u32)
    requires Sound(t, g) && t.state == Listen && (g.rcvd >= 1 ==> g.peerIss == peerIss)
    requires s.flags.syn && !s.flags.rst && !s.flags.ack && s.seqNum == Wrap(peerIss)
    ensures var g' := g.(nxt := 1, rcvd := 1, peerIss := peerIss);
      Sound(OnListen(t, s, env), g') && Grows(g, g')
  {
    var g' := g.(nxt := 1, rcvd := 1, peerIss := peerIss);
    WireGrows(t.wire, g, g');
    QueueGrows(t.queue, g, g');
    var t1 := ListenStep(t, s, env);
    ListenNumbers(t.snd, g, t1.snd, g');
    WrapAdd(peerIss, 1);
    SynSends(t1, g', F_SYN_ACK, t1.rcv.nxt, env);
  }

  lemma {:induction false} ListenNumbers(snd: Sender, g: Pos, snd': Sender, g': Pos)
    requires Numbered(snd, g) && g.una == 0 && g.nxt <= 1 && !g.fin && |g.tape| == 1
    requires snd'.una == snd'.iss == snd.iss && snd'.nxt == Add(snd.iss, 1) && snd'.buf == snd.buf
    requires g' == g.(nxt := 1, rcvd := 1, peerIss := g'.peerIss)
    ensures Numbered(snd', g')
  {
    WrapAdd(snd.iss, 0);
    WrapAdd(snd.iss, 1);
  }

  lemma {:induction false} ListenStep(t: Tcb, s: Segment, env: Env) returns (t1: Tcb)
    requires s.flags.syn && !s.flags.rst && !s.flags.ack
    ensures OnListen(t, s, env) == SendSyn(t1, F_SYN_ACK, t1.snd.iss, t1.rcv.nxt, env)
    ensures t1.snd.una == t1.snd.iss == t.snd.iss && t1.snd.nxt == Add(t.snd.iss, 1) && t1.snd.buf == t.snd.buf
    ensures t1.queue == t.queue && t1.wire == t.wire && t1.delAck == t.delAck
    ensures t1.state == SynReceived && t1.rcv.nxt == Add(s.seqNum, 1)
  {
    var t0 := t.(rcv := t.rcv.(irs := s.seqNum, nxt := Add(s.seqNum, 1)),
                 snd := t.snd.(una := t.snd.iss, nxt := Add(t.snd.iss, 1)),
                 origin := Passive, state := SynReceived);
    t1 := InitSendWindow(Negotiate(t0, s), s);
  }

  /** The peer's SYN arrives in SYN-SENT. */
  lemma {:induction false} PeerNumbered(t: Tcb, g: Pos, s: Segment, g': Pos)
    requires Sound(t, g) && t.state == SynSent
    requires g' == g.(una := g'.una, rcvd := 1, peerIss := g'.peerIss) && g'.una <= 1
    requires s.seqNum == Wrap(g'.peerIss)
    ensures QueueSound(t.queue, g') && WireSound(t.wire, g') && Grows(g, g')
    ensures Add(s.seqNum, 1) == Wrap(g'.peerIss + 1)
  {
    WrapAdd(g'.peerIss, 1);
    WireGrows(t.wire, g, g');
    QueueGrows(t.queue, g, g');
  }

  lemma {:induction false} NegotiateFrame(t: Tcb, s: Segment)
    ensures var t' := Negotiate(t, s);
      t' == t.(neg := t'.neg, snd := t.snd.(mss := t'.snd.mss))
  {
  }

  lemma {:induction false} SynAckArrives(t: Tcb, g: Pos, s: Segment, env: Env, peerIss: u32)
    requires Sound(t, g) && t.state == SynSent
    requires s.flags.syn && !s.flags.rst && s.flags.ack && s.seqNum == Wrap(peerIss) && !SynAckBad(t, s)
    ensures Sound(OnSynSent(t, s, env), g.(una := 1, rcvd := 1, peerIss := peerIss))
  {
    var g' := g.(una := 1, rcvd := 1, peerIss := peerIss);
    PeerNumbered(t, g, s, g');
    var t2, t3 := SynAckStep(t, s, env);
    AckQueueSound(t2, s.ackNum, env, g');
    SynSentNumbers(t, g);
    SynAckSound(t, g, s.ackNum, t3, g', env);
  }

  lemma {:induction false} SynSentNumbers(t: Tcb, g: Pos)
    requires Sound(t, g) && t.state == SynSent
    ensures Numbered(t.snd, g) && g.una == 0 && g.nxt == 1 && !g.fin
  {
  }

  lemma {:induction false} SynAckSound(t: Tcb, g: Pos, ack: u32, t3: Tcb, g': Pos, env: Env)
    requires Numbered(t.snd, g) && g.una == 0 && g.nxt == 1 && !g.fin
    requires g' == g.(una := 1, rcvd := 1, peerIss := g'.peerIss)
    requires !(SeqLEQ(ack, t.snd.iss) || SeqGT(ack, t.snd.nxt))
    requires t3.snd.una == ack && t3.snd.nxt == t.snd.nxt && t3.snd.iss == t.snd.iss && t3.snd.buf == t.snd.buf
    requires QueueSound(t3.queue, g') && WireSound(t.wire, g') && t3.wire == t.wire
    requires t3.state == Established && t3.rcv.nxt == Wrap(g'.peerIss + 1)
    ensures Sound(SendAck(t3, env), g')
  {
    SynAckNumbers(t.snd, g, ack, t3.snd);
    EstablishedAcks(t, t3, g', env);
  }

  lemma {:induction false} EstablishedAcks(t: Tcb, t': Tcb, g: Pos, env: Env)
    requires Numbered(t'.snd, g) && QueueSound(t'.queue, g) && WireSound(t.wire, g)
    requires t'.snd.iss == t.snd.iss && t'.wire == t.wire && t'.state == Established
    requires t'.rcv.nxt == Wrap(g.peerIss + 1) && g.rcvd == 1 && g.una == 1 && !g.fin
    ensures Sound(SendAck(t', env), g)
  {
    EstablishedSound(t, t', g);
    AckSends(t', g, env);
  }

  lemma {:induction false} SynAckStep(t: Tcb, s: Segment, env: Env) returns (t2: Tcb, t3: Tcb)
    requires t.state == SynSent && s.flags.syn && !s.flags.rst && s.flags.ack && !SynAckBad(t, s)
    ensures OnSynSent(t, s, env) == SendAck(t3, env)
    ensures t2.queue == t.queue && t3.queue == AckQueue(t2, s.ackNum, env).queue && t3.wire == t.wire
    ensures t3.snd.una == s.ackNum && t3.snd.nxt == t.snd.nxt && t3.snd.iss == t.snd.iss && t3.snd.buf == t.snd.buf
    ensures t3.state == Established && t3.rcv.nxt == Add(s.seqNum, 1)
  {
    var t0 := t.(rcv := t.rcv.(irs := s.seqNum, nxt := Add(s.seqNum, 1)));
    NegotiateFrame(t0, s);
    var t1 := Negotiate(t0, s);
    t2 := t1.(snd := t1.snd.(una := s.ackNum));
    t3 := InitSendWindow(AckQueue(t2, s.ackNum, env), s).(state := Established, reachedEstablished := true);
  }

  lemma {:induction false} BareSynArrives(t: Tcb, g: Pos, s: Segment, env: Env, peerIss: u32)
    requires Sound(t, g) && t.state == SynSent
    requires s.flags.syn && !s.flags.rst && !s.flags.ack && s.seqNum == Wrap(peerIss)
    ensures Sound(OnSynSent(t, s, env), g.(rcvd := 1, peerIss := peerIss))
  {
    var t1 := BareSynStep(t, s, env);
    PeerNumbered(t, g, s, g.(rcvd := 1, peerIss := peerIss));
    BareSynSound(t, g, t1, g.(rcvd := 1, peerIss := peerIss), env);
  }

  lemma {:induction false} BareSynSound(t: Tcb, g: Pos, t1: Tcb, g': Pos, env: Env)
    requires Sound(t, g) && t.state == SynSent && g' == g.(rcvd := 1, peerIss := g'.peerIss)
    requires QueueSound(t.queue, g') && WireSound(t.wire, g')
    requires t1.snd == t.snd.(mss := t1.snd.mss) && t1.queue == t.queue && t1.wire == t.wire && t1.delAck == t.delAck
    requires t1.state == SynReceived && t1.rcv.nxt == Wrap(g'.peerIss + 1)
    ensures Sound(SendSyn(t1, F_SYN_ACK, t1.snd.iss, t1.rcv.nxt, env), g')
  {
    NumbersFrame(t.snd, g, t1.snd, g');
    SynSends(t1, g', F_SYN_ACK, t1.rcv.nxt, env);
  }

  lemma {:induction false} BareSynStep(t: Tcb, s: Segment, env: Env) returns (t1: Tcb)
    requires s.flags.syn && !s.flags.rst && !s.flags.ack && t.state == SynSent
    ensures OnSynSent(t, s, env) == SendSyn(t1, F_SYN_ACK, t1.snd.iss, t1.rcv.nxt, env)
    ensures t1.snd == t.snd.(mss := t1.snd.mss) && t1.queue == t.queue && t1.wire == t.wire && t1.delAck == t.delAck
    ensures t1.state == SynReceived && t1.rcv.nxt == Add(s.seqNum, 1)
  {
    var t0 := t.(rcv := t.rcv.(irs := s.seqNum, nxt := Add(s.seqNum, 1)));
    t1 := Negotiate(t0, s).(origin := Active, state := SynReceived);
  }

  lemma {:induction false} NumbersFrame(snd: Sender, g: Pos, snd': Sender, g': Pos)
    requires Numbered(snd, g) && g' == g.(rcvd := g'.rcvd, peerIss := g'.peerIss)
    requires snd'.una == snd.una && snd'.nxt == snd.nxt && snd'.iss == snd.iss && snd'.buf == snd.buf
    ensures Numbered(snd', g')
  {
  }

  lemma {:induction false} SynAckNumbers(snd: Sender, g: Pos, ack: u32, snd': Sender)
    requires Numbered(snd, g) && g.una == 0 && g.nxt == 1
    requires !(SeqLEQ(ack, snd.iss) || SeqGT(ack, snd.nxt))
    requires snd'.una == ack && snd'.nxt == snd.nxt && snd'.iss == snd.iss && snd'.buf == snd.buf
    ensures Numbered(snd', g.(una := 1))
  {
    WrapAdd(snd.iss, 0);
    WrapAdd(snd.iss, 1);
    assert ack == snd.nxt;
  }

  lemma {:induction false} EstablishedSound(t: Tcb, t': Tcb, g: Pos)
    requires Numbered(t'.snd, g) && QueueSound(t'.queue, g) && WireSound(t.wire, g)
    requires t'.snd.iss == t.snd.iss && t'.wire == t.wire && t'.state == Established
    requires t'.rcv.nxt == Wrap(g.peerIss + 1) && g.rcvd == 1 && g.una == 1 && !g.fin
    ensures Sound(t', g)
  {
  }

  /** The peer's SYN in SYN-SENT, with or without an ACK of ours. */
  lemma {:induction false} SynSentSends(t: Tcb, g: Pos, s: Segment, env: Env, peerIss: u32) returns (g': Pos)
    requires Sound(t, g) && t.state == SynSent
    requires s.flags.syn && !s.flags.rst && s.seqNum == Wrap(peerIss) && !(s.flags.ack && SynAckBad(t, s))
    ensures Sound(OnSynSent(t, s, env), g') && Grows(g, g')
    ensures g' == g.(una := if s.flags.ack then 1 else 0, rcvd := 1, peerIss := peerIss)
  {
    g' := g.(una := if s.flags.ack then 1 else 0, rcvd := 1, peerIss := peerIss);
    PeerNumbered(t, g, s, g');
    if s.flags.ack {
      SynAckArrives(t, g, s, env, peerIss);
    } else {
      BareSynArrives(t, g, s, env, peerIss);
    }
  }

  // ----- answers and resets -----

  lemma {:induction false} ResetSends(t: Tcb, g: Pos)
    requires Sound(t, g)
    ensures Sound(ResetConnection(t), g)
  {
  }

  lemma {:induction false} RstArrives(t: Tcb, g: Pos, s: Segment, env: Env)
    requires Sound(t, g) && g.rcvd >= 1
    ensures Sound(HandleRst(t, s, env), g)
  {
    ChallengeSends(t, g, env);
    ResetSends(t, g);
  }

  lemma {:induction false} TimeWaitAgain(t: Tcb, g: Pos, env: Env)
    requires Sound(t, g) && g.rcvd >= 1 && t.state == TimeWait
    ensures Sound(EnterTimeWait(SendAck(t, env), env), g)
  {
    AckSends(t, g, env);
    SoundFrame(SendAck(t, env), EnterTimeWait(SendAck(t, env), env), g);
  }

  /** The answers that take neither ACK nor text. */
  lemma {:induction false} AnswerSends(t: Tcb, g: Pos, s: Segment, env: Env)
    requires Sound(t, g) && g.rcvd >= 1
    requires (t.state == TimeWait && s.flags.fin && !s.flags.rst) || PawsStale(t, s)
          || (!Acceptable(t.rcv, s) && !s.flags.rst) || s.flags.rst || s.flags.syn
    ensures Sound(OnSynchronized(t, s, env), g)
  {
    AckSends(t, g, env);
    ChallengeSends(t, g, env);
    RstArrives(t, g, s, env);
    if t.state == TimeWait { TimeWaitAgain(t, g, env); }
  }

  /** A reset answer in CLOSED carries no stream numbers. */
  lemma {:induction false} ClosedSends(t: Tcb, g: Pos, s: Segment, env: Env)
    requires Sound(t, g)
    ensures Sound(OnClosed(t, s, env), g)
  {
    RstSends(t, g, F_RST, s.ackNum, 0, env);
    RstSends(t, g, F_RST, 0, 0, env);
    RstSends(SendRst(t, 0, env), g, F_RST_ACK, 0, Add(s.seqNum, SegLen(s)), env);
  }

  lemma {:induction false} TimestampSound(t: Tcb, g: Pos, s: Segment)
    requires Sound(t, g)
    ensures var t' := UpdateTsRecent(t, s);
      Sound(t', g) && t'.rcv == t.rcv && t'.state == t.state && t'.snd == t.snd
  {
  }
}
