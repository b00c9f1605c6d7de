/** Inputs for which promises of the documentation fail: runs from an active open that
    reach each of the states concerned (tcp/transport/data.go:107-122,
    statemachine.go:183-205, 427-451, 732-738). */
module Witnesses {
  import opened SeqNum
  import opened Reassembly
  import opened Options
  import opened Segments
  import opened Congestion
  import opened ChallengeAck
  import opened Tcb
  import opened StateMachine
  import opened SenderRecords
  import opened SenderSteps
  import opened FlowControl
  import opened Challenges
  import opened Runs
  import opened Sack
  import opened ForgedText
  import opened Frames
  import Lifecycle
  import Nagle
  import PeerWindow

  /** The zero time of the throttle, and the time of the handshake. */
  const EPOCH: Time := -62_135_596_800_000_000_000
  const T0: Time := 0

  function At(now: Time): Env {
    Env(now, 1_000_000_000)
  }

  const CLIENT: Start := Start(true, 100, 0, false, TIME_WAIT_DURATION, EPOCH, At(T0))

  /** A SYN-ACK that also permits SACK. */
  function SynAck(mss: u16, window: u16): Segment {
    var o := NO_OPTIONS.(hasMss := true, mss := mss, sackPermitted := true);
    Segment(F_SYN_ACK, 300, 101, window, Parsed.Options(o), [])
  }

  /** The client after the peer's SYN-ACK. */
  function Connected(mss: u16, window: u16): Tcb {
    OnSegment(Opened(CLIENT), SynAck(mss, window), At(T0))
  }

  lemma {:induction false} ConnectedIs(mss: u16, window: u16)
    ensures var t := Connected(mss, window);
      && t.state == Established && t.queue == [] && t.rcv.nxt == 301 && t.rcv.wnd == 65535
      && t.snd == Sender(101, 101, window, 300, 101, 100, 65535, [], false, mss, NewCc(DEFAULT_MSS))
      && t.neg == Negotiated(0, 0, false, 0, true)
      && t.persist == Persist(false, 0, 0) && t.override == Override(false, 0) && t.delAck == DelAck(false, 0, 0)
      && t.throttle == Throttle(EPOCH, 0) && |t.wire| == 2
  {
    var q := Opened(CLIENT).queue;
    assert |q| == 1 && q[1..] == [];
    assert PopAcked(q, 101) == PopAcked(q[1..], 101) == [];
  }

  lemma {:induction false} ConnectedRun(mss: u16, window: u16)
    ensures RunFrom(CLIENT, [Opened(CLIENT), Connected(mss, window)], [Arrive(SynAck(mss, window))], [At(T0)])
  {
    var ts, inputs, envs := [Opened(CLIENT), Connected(mss, window)], [Arrive(SynAck(mss, window))], [At(T0)];
    assert StepAt(ts, inputs, envs, 0);
  }

  lemma {:induction false} Extend(s: Start, ts: seq<Tcb>, inputs: seq<Input>, envs: seq<Env>, i: Input, env: Env)
    requires RunFrom(s, ts, inputs, envs) && HasRoom(ts[|ts| - 1], i)
    ensures RunFrom(s, ts + [Step(ts[|ts| - 1], i, env)], inputs + [i], envs + [env])
  {
    var ts', inputs', envs' := ts + [Step(ts[|ts| - 1], i, env)], inputs + [i], envs + [env];
    forall k | 0 <= k < |inputs'| ensures StepAt(ts', inputs', envs', k) {
      assert k < |inputs| ==> StepAt(ts, inputs, envs, k);
    }
  }

  /** The run that takes one more step once connected. */
  lemma {:induction false} OneMoreStep(mss: u16, window: u16, i: Input)
    requires HasRoom(Connected(mss, window), i)
    ensures RunFrom(CLIENT, [Opened(CLIENT), Connected(mss, window), Step(Connected(mss, window), i, At(T0))],
                    [Arrive(SynAck(mss, window)), i], [At(T0), At(T0)])
  {
    var ts := [Opened(CLIENT), Connected(mss, window)];
    ConnectedRun(mss, window);
    Extend(CLIENT, ts, [Arrive(SynAck(mss, window))], [At(T0)], i, At(T0));
  }

  // ----- a segment larger than the peer's maximum (data.go:114-116) -----

  lemma {:induction false} EmitsAll(t: Tcb, env: Env)
    requires t.queue == [] && t.snd.una == t.snd.nxt && 0 < |t.snd.buf| <= DEFAULT_MSS
    requires t.snd.cong.cwnd >= DEFAULT_MSS && DEFAULT_MSS <= t.snd.wnd < HALF
    ensures var t' := FlushFrom(t, true, env);
      && t'.snd == t.snd.(nxt := Add(t.snd.nxt, |t.snd.buf|)) && t'.state == t.state
      && |t'.wire| == |t.wire| + 1 && t'.wire[|t.wire|].payload == t.snd.buf
      && t'.queue == [RetxSeg(t.snd.nxt, F_PSH_ACK, t.snd.buf, env.now, 0, false)] && t'.rto == env.rto
      && t'.rcv == t.rcv
  {
    EmitProgress(t, true, env);
    assert t.snd.buf[0..|t.snd.buf|] == t.snd.buf;
    assert MaySend(t.snd, true);
    var t1 := EmitNext(t, env);
    assert !Unsent(t1.snd) && FlushFrom(t, true, env) == FlushFrom(t1, true, env) == StopSending(t1, env);
  }

  lemma {:induction false} SendsAll(t: Tcb, data: seq<u8>, env: Env)
    requires t.state == Established && t.queue == [] && t.snd.buf == [] && t.snd.una == t.snd.nxt
    requires 0 < |data| <= DEFAULT_MSS && t.snd.cong.cwnd >= DEFAULT_MSS && DEFAULT_MSS <= t.snd.wnd < HALF
    ensures var t' := Send(t, data, env);
      && t'.snd == t.snd.(buf := data, nxt := Add(t.snd.nxt, |data|)) && t'.state == Established
      && |t'.wire| == |t.wire| + 1 && t'.wire[|t.wire|].payload == data
      && t'.queue == [RetxSeg(t.snd.nxt, F_PSH_ACK, data, env.now, 0, false)] && t'.rto == env.rto
      && t'.rcv == t.rcv
  {
    assert [] + data == data;
    EmitsAll(t.(snd := t.snd.(buf := data)), env);
  }

  /** The peer announces a maximum of 536; the next segment carries 1360 bytes. */
  lemma {:induction false} OversizeExample() returns (ts: seq<Tcb>, inputs: seq<Input>, envs: seq<Env>)
    ensures RunFrom(CLIENT, ts, inputs, envs) && inputs != [] && inputs[0] == Arrive(SynAck(536, 65535))
    ensures var t := ts[|ts| - 1];
      t.wire != [] && |t.wire[|t.wire| - 1].payload| == 1360 > 536 == t.snd.mss
  {
    var t, data := Connected(536, 65535), seq(1360, _ => 7 as u8);
    ConnectedIs(536, 65535);
    SendsAll(t, data, At(T0));
    OneMoreStep(536, 65535, CallSend(data));
    ts := [Opened(CLIENT), t, Send(t, data, At(T0))];
    inputs, envs := [Arrive(SynAck(536, 65535)), CallSend(data)], [At(T0), At(T0)];
  }

  // ----- a retransmission after a reset (statemachine.go:732-738) -----

  const RESET: Segment := Segment(F_RST, 301, 0, 0, Parsed.Options(NO_OPTIONS), [])

  lemma {:induction false} ResetKeepsQueue(t: Tcb, env: Env)
    requires t.state == Established && t.rcv.nxt == 301 && t.rcv.wnd == 65535
    ensures OnSegment(t, RESET, env) == t.(state := Closed)
  {
  }

  lemma {:induction false} ResetWithFlight() returns (ts: seq<Tcb>, inputs: seq<Input>, envs: seq<Env>)
    ensures RunFrom(CLIENT, ts, inputs, envs) && |inputs| == 3 && inputs[2] == Arrive(RESET)
    ensures ts[3].state == Closed && RetransmitDue(ts[3], At(T0 + 1_000_000_000))
  {
    var t := Connected(1360, 65535);
    ConnectedIs(1360, 65535);
    SendsAll(t, [7], At(T0));
    OneMoreStep(1360, 65535, CallSend([7]));
    var t2 := Send(t, [7], At(T0));
    ts, inputs, envs := [Opened(CLIENT), t, t2], [Arrive(SynAck(1360, 65535)), CallSend([7])], [At(T0), At(T0)];
    ResetKeepsQueue(t2, At(T0));
    Extend(CLIENT, ts, inputs, envs, Arrive(RESET), At(T0));
    ts, inputs, envs := ts + [t2.(state := Closed)], inputs + [Arrive(RESET)], envs + [At(T0)];
  }

  /** One byte in flight, a reset with the exact number, and the tick one RTO later: the
      closed connection sends the byte again. */
  lemma {:induction false} ResendAfterResetExample() returns (ts: seq<Tcb>, inputs: seq<Input>, envs: seq<Env>)
    ensures RunFrom(CLIENT, ts, inputs, envs) && |inputs| == 4
    ensures inputs[2] == Arrive(RESET) && inputs[3] == TimerTick
    ensures ts[3].state == Closed && |ts[4].wire| > |ts[3].wire|
  {
    var late := At(T0 + 1_000_000_000);
    ts, inputs, envs := ResetWithFlight();
    var t := ts[3];
    TickWritesIff(t, late);
    Extend(CLIENT, ts, inputs, envs, TimerTick, late);
    ts, inputs, envs := ts + [Tick(t, late)], inputs + [TimerTick], envs + [late];
  }

  // ----- a FIN that overtakes unsent data (statemachine.go:196-203) -----

  lemma {:induction false} SendsNothing(t: Tcb, data: seq<u8>, env: Env)
    requires t.state == Established && t.snd.buf == [] && t.snd.una == t.snd.nxt && t.snd.wnd == 0
    requires 0 < |data| <= DEFAULT_MSS
    ensures var t' := Send(t, data, env);
      t'.snd == t.snd.(buf := data) && t'.state == Established && t'.wire == t.wire && Unsent(t'.snd)
  {
    var t1 := t.(snd := t.snd.(buf := [] + data));
    assert [] + data == data && InFlight(t1.snd) == 0;
    assert Send(t, data, env) == FlushFrom(t1, true, env) == StopSending(t1, env);
  }

  lemma {:induction false} UnsentCloses(t: Tcb, env: Env)
    requires SOk(t) && t.state == Established && Unsent(t.snd) && t.snd.una == t.snd.nxt
    ensures var t' := Close(t, env);
      !SOk(t') && |t'.wire| == |t.wire| + 1 && t'.wire[|t.wire|].flags == F_FIN_ACK
        && t'.wire[|t.wire|].seqNum == t.snd.una
  {
    CloseIff(t, env);
  }

  lemma {:induction false} UnsentRun() returns (ts: seq<Tcb>, inputs: seq<Input>, envs: seq<Env>)
    ensures RunFrom(CLIENT, ts, inputs, envs) && |inputs| == 2 && inputs[1] == CallSend([7])
    ensures ts[2].state == Established && SOk(ts[2]) && Unsent(ts[2].snd) && ts[2].snd.una == ts[2].snd.nxt
  {
    var t := Connected(1360, 0);
    ConnectedIs(1360, 0);
    SendsNothing(t, [7], At(T0));
    OneMoreStep(1360, 0, CallSend([7]));
    ts := [Opened(CLIENT), t, Send(t, [7], At(T0))];
    inputs, envs := [Arrive(SynAck(1360, 0)), CallSend([7])], [At(T0), At(T0)];
    ReachableOk(CLIENT, ts, inputs, envs, 2);
  }

  /** The peer's window is closed and one byte is given to Send: Close then numbers the FIN
      as that byte, and the two records part. */
  lemma {:induction false} CloseUnsentExample(env: Env) returns (ts: seq<Tcb>, inputs: seq<Input>, envs: seq<Env>)
    ensures RunFrom(CLIENT, ts, inputs, envs) && |inputs| == 3 && inputs[1] == CallSend([7]) && inputs[2] == CallClose
    ensures var t, t' := ts[2], ts[3];
      && t.state == Established && SOk(t) && Unsent(t.snd) && t'.state == FinWait1 && !SOk(t')
      && |t'.wire| == |t.wire| + 1 && t'.wire[|t.wire|].flags == F_FIN_ACK && t'.wire[|t.wire|].seqNum == t.snd.una
  {
    ts, inputs, envs := UnsentRun();
    var t := ts[2];
    UnsentCloses(t, env);
    Extend(CLIENT, ts, inputs, envs, CallClose, env);
    ts, inputs, envs := ts + [Close(t, env)], inputs + [CallClose], envs + [env];
  }

  // ----- nineteen challenge ACKs in five seconds (statemachine.go:427-451) -----

  const SYN_AGAIN: Segment := Segment(F_SYN, 301, 0, 0, Parsed.Options(NO_OPTIONS), [])

  predicate Steady(t: Tcb) {
    t.state == Established && t.rcv.nxt == 301 && t.rcv.wnd == 65535 && !t.neg.tsOk
  }

  lemma {:induction false} SynChallenged(t: Tcb, env: Env)
    requires Steady(t)
    ensures Challenged(t, SYN_AGAIN) && Steady(OnSegment(t, SYN_AGAIN, env))
  {
  }

  lemma {:induction false} RequestsExtend(ts: seq<Tcb>, inputs: seq<Input>, envs: seq<Env>, t: Tcb, i: Input,
                                          env: Env, n: nat)
    requires |ts| == |inputs| + 1 && |envs| == |inputs| && n <= |inputs|
    ensures Requests(ts + [t], inputs + [i], envs + [env], n) == Requests(ts, inputs, envs, n)
  {
    if n > 0 { RequestsExtend(ts, inputs, envs, t, i, env, n - 1); }
  }

  lemma {:induction false} AsksMore(ts: seq<Tcb>, inputs: seq<Input>, envs: seq<Env>, t: Tcb, env: Env)
    requires |ts| == |inputs| + 1 && |envs| == |inputs| && Asks(ts[|inputs|], Arrive(SYN_AGAIN))
    ensures Requests(ts + [t], inputs + [Arrive(SYN_AGAIN)], envs + [env], |inputs| + 1)
      == Requests(ts, inputs, envs, |inputs|) + [env.now]
  {
    RequestsExtend(ts, inputs, envs, t, Arrive(SYN_AGAIN), env, |inputs|);
  }

  /** SYNs arriving at the given times ask for a challenge ACK at exactly these times. */
  lemma {:induction false} SynRun(times: seq<int>) returns (ts: seq<Tcb>, inputs: seq<Input>, envs: seq<Env>)
    ensures RunFrom(CLIENT, ts, inputs, envs) && Steady(ts[|inputs|])
    ensures Requests(ts, inputs, envs, |inputs|) == times
    ensures |envs| == 1 + |times| && envs[0].now == T0 && forall k :: 0 <= k < |times| ==> envs[k + 1].now == times[k]
  {
    if times == [] {
      ConnectedIs(1360, 65535);
      ConnectedRun(1360, 65535);
      ts, inputs, envs := [Opened(CLIENT), Connected(1360, 65535)], [Arrive(SynAck(1360, 65535))], [At(T0)];
      assert Requests(ts, inputs, envs, 0) == [];
    } else {
      var env := At(times[|times| - 1]);
      ts, inputs, envs := SynRun(times[..|times| - 1]);
      var t := ts[|inputs|];
      SynChallenged(t, env);
      AsksMore(ts, inputs, envs, OnSegment(t, SYN_AGAIN, env), env);
      Extend(CLIENT, ts, inputs, envs, Arrive(SYN_AGAIN), env);
      ts, inputs, envs := ts + [OnSegment(t, SYN_AGAIN, env)], inputs + [Arrive(SYN_AGAIN)], envs + [env];
    }
  }

  lemma {:induction false} TimesRun(envs: seq<Env>, times: seq<int>)
    requires |envs| == 1 + |times| && envs[0].now == T0 && forall k :: 0 <= k < |times| ==> envs[k + 1].now == times[k]
    requires NonDecreasing(times) && times != [] && times[0] == T0
    ensures ClockRuns(envs)
  {
    forall a, b | 0 <= a <= b < |envs| ensures envs[a].now <= envs[b].now {
      assert a > 0 ==> envs[(a - 1) + 1].now == times[a - 1];
      assert b > 0 ==> envs[(b - 1) + 1].now == times[b - 1] && times[0] <= times[b - 1];
    }
  }

  /** A run in which the connection writes nineteen challenge ACKs within five seconds. */
  lemma {:induction false} NineteenChallengesExample() returns (ts: seq<Tcb>, inputs: seq<Input>, envs: seq<Env>)
    ensures RunFrom(CLIENT, ts, inputs, envs) && ClockRuns(envs)
    ensures Written(ts, inputs, envs, |inputs|, WINDOW, WINDOW + WINDOW) == 19
  {
    var times := RateBoundAttained(Throttle(EPOCH, 0), LIMIT, WINDOW);
    ts, inputs, envs := SynRun(times);
    TimesRun(envs, times);
    WrittenEmitted(CLIENT, ts, inputs, envs, |inputs|, WINDOW, WINDOW + WINDOW);
  }

  // ----- data out of order -----

  function Text(seqNum: u32, data: Payload): Segment {
    Segment(F_ACK, seqNum, 101, 65535, Parsed.Options(NO_OPTIONS), data)
  }

  /** Everything of ours acknowledged, and RCV.NXT still at the first byte. */
  predicate Receiving(t: Tcb) {
    && t.state == Established && t.rcv.nxt == 301 && t.rcv.wnd == 65535
    && t.snd.una == t.snd.nxt == 101 && t.snd.buf == [] && t.queue == [] && t.snd.maxWnd == 65535
    && !t.neg.tsOk && t.neg.sackOk && t.neg.sndShift == 0
  }

  lemma {:induction false} RepeatedAck(t: Tcb, s: Segment, env: Env)
    requires Receiving(t) && s.ackNum == 101 && s.window == 65535
    ensures Receiving(HandleAck(t, s, env)) && HandleAck(t, s, env).rcv == t.rcv
  {
    assert NoteAck(t, s, env) == t;
    StopsAfterUpdate(t, s, env);
  }

  lemma {:induction false} StopsAfterUpdate(t: Tcb, s: Segment, env: Env)
    requires Receiving(t) && s.window == 65535 && NoteAck(t, s, env) == t
    ensures HandleAck(t, s, env) == StopSending(UpdateSendWindow(t, s), env)
    ensures Receiving(UpdateSendWindow(t, s)) && UpdateSendWindow(t, s).rcv == t.rcv
  {
  }

  lemma {:induction false} GapHeld(t: Tcb, seqNum: u32, data: Payload, env: Env)
    requires Receiving(t) && 301 < seqNum < 1000 && 0 < |data| < 1000
    ensures var t' := AcceptText(t, Text(seqNum, data), env);
      Receiving(t') && t'.rcv == t.rcv.(ooo := InsertOoo(t.rcv.ooo, Fragment(seqNum, data)), lastOoo := seqNum)
  {
    assert TrimToWindow(t.rcv, seqNum, data) == Fragment(seqNum, data);
  }

  /** Text that leaves a gap is held, and the ACK reports what is held. */
  lemma {:induction false} HoldsText(t: Tcb, seqNum: u32, data: Payload, env: Env)
    requires Receiving(t) && 301 < seqNum < 1000 && 0 < |data| < 1000
    ensures var t' := OnSegment(t, Text(seqNum, data), env);
      Receiving(t') && t'.rcv == t.rcv.(ooo := InsertOoo(t.rcv.ooo, Fragment(seqNum, data)), lastOoo := seqNum)
  {
    var s := Text(seqNum, data);
    TakesRepeated(t, s);
    Lifecycle.TakenIsAcceptable(t, s, env);
    RepeatedAck(t, s, env);
    GapHeld(HandleAck(t, s, env), seqNum, data, env);
    NoTimestamp(t, s);
  }

  lemma {:induction false} NoTimestamp(t: Tcb, s: Segment)
    requires Receiving(t)
    ensures UpdateTsRecent(t, s) == t
  {
  }

  lemma {:induction false} TakesRepeated(t: Tcb, s: Segment)
    requires Receiving(t) && s.ackNum == 101 && 301 <= s.seqNum < 1000 && |s.payload| < 1000
    requires s.flags == F_ACK || s.flags == F_FIN_ACK
    ensures Lifecycle.TakesAck(t, s)
  {
  }

  const SEVEN: Payload := [7]

  lemma {:induction false} TextRun(seqNum: u32, data: Payload)
    returns (ts: seq<Tcb>, inputs: seq<Input>, envs: seq<Env>)
    requires 301 < seqNum < 1000 && 0 < |data| < 1000
    ensures RunFrom(CLIENT, ts, inputs, envs) && |inputs| == 2 && inputs[1] == Arrive(Text(seqNum, data))
    ensures NoFins(inputs) && BuffCap(ts[2].rcv) < Reassembly.MAX_WINDOW
    ensures Receiving(ts[2]) && ts[2].rcv.ooo == [Fragment(seqNum, data)]
  {
    var t, s := Connected(1360, 65535), Text(seqNum, data);
    ConnectedIs(1360, 65535);
    ConnectedHoldsNothing(1360, 65535);
    HoldsText(t, seqNum, data, At(T0));
    OneMoreStep(1360, 65535, Arrive(s));
    ts := [Opened(CLIENT), t, OnSegment(t, s, At(T0))];
    inputs, envs := [Arrive(SynAck(1360, 65535)), Arrive(s)], [At(T0), At(T0)];
  }

  lemma {:induction false} ConnectedHoldsNothing(mss: u16, window: u16)
    ensures Connected(mss, window).rcv.ooo == [] && BuffCap(Connected(mss, window).rcv) < Reassembly.MAX_WINDOW
  {
  }

  /** Fragments [401, 421) and [411, 431) are both held, and the blocks reported for them
      overlap (sack.go:20-43, data.go:241-256). */
  lemma {:induction false} OverlappingBlocksExample() returns (ts: seq<Tcb>, inputs: seq<Input>, envs: seq<Env>)
    ensures RunFrom(CLIENT, ts, inputs, envs) && |inputs| == 3
    ensures var r := ts[3].rcv;
      && Ok(r, 0) && SackBlocks(r.ooo, r.lastOoo, MAX_SACK_BLOCKS) == [Block(401, 421), Block(411, 431)]
      && !AllApart(SackBlocks(r.ooo, r.lastOoo, MAX_SACK_BLOCKS), r.nxt)
  {
    var data: Payload := seq(20, _ => 7 as u8);
    ts, inputs, envs := TextRun(401, data);
    var t := ts[2];
    HoldsText(t, 411, data, At(T0));
    Extend(CLIENT, ts, inputs, envs, Arrive(Text(411, data)), At(T0));
    ts := ts + [OnSegment(t, Text(411, data), At(T0))];
    inputs, envs := inputs + [Arrive(Text(411, data))], envs + [At(T0)];
    OverlapReported(ts[3].rcv, data);
  }

  lemma {:induction false} OverlapReported(r: Receiver, data: Payload)
    requires r.ooo == InsertOoo([Fragment(401, data)], Fragment(411, data)) && |data| == 20
    requires r.nxt == 301 && r.wnd == 65535 && r.lastOoo == 411
    ensures var bs := SackBlocks(r.ooo, r.lastOoo, MAX_SACK_BLOCKS);
      Ok(r, 0) && bs == [Block(401, 421), Block(411, 431)] && !AllApart(bs, r.nxt)
  {
    var a, b := Fragment(401, data), Fragment(411, data);
    assert InsertOoo([a], b) == [a] + InsertOoo([a][1..], b) == [a, b];
    assert r.ooo[1..] == [b] && [b][1..] == [];
    var m := [Block(401, 421), Block(411, 431)];
    assert AddFragment([], a) == [Block(401, 421)] && AddFragment([Block(401, 421)], b) == m;
    assert MergeFrom([], r.ooo) == MergeFrom([Block(401, 421)], [b]) == MergeFrom(m, []) == m;
    assert FindBlock(m, 411, 0) == 0 && ToFront(m, 411) == m;
    assert !Apart(m[0], m[1], r.nxt);
  }

  const FIN_NOW: Segment := Segment(F_FIN_ACK, 301, 101, 65535, Parsed.Options(NO_OPTIONS), [])

  lemma {:induction false} TakesFin(t: Tcb, env: Env)
    requires Receiving(t)
    ensures OnSegment(t, FIN_NOW, env).rcv == WithFin(t.rcv)
  {
    TakesRepeated(t, FIN_NOW);
    Lifecycle.TakenIsAcceptable(t, FIN_NOW, env);
    RepeatedAck(t, FIN_NOW, env);
    NoTimestamp(t, FIN_NOW);
    FinFacts(HandleAck(t, FIN_NOW, env), env);
  }

  lemma {:induction false} FinOverByte(r: Receiver)
    requires ShapeOk(r) && r.nxt == 301 && r.ooo == [Fragment(302, SEVEN)] && BuffCap(r) < Reassembly.MAX_WINDOW
    ensures !ShapeOk(WithFin(r)) && LooseOk(WithFin(r), 1)
  {
    assert Fragment(302, SEVEN) in r.ooo;
    FinShapeIff(r);
    ShapeIsLoose(r, 0);
    FinLoose(r, 0);
  }

  /** The byte at 302 is held when a FIN takes 301: RCV.NXT reaches the held byte, which is no
      longer strictly beyond it (data.go:172-202, statemachine.go:709-713). */
  lemma {:induction false} FinOverHeldExample() returns (ts: seq<Tcb>, inputs: seq<Input>, envs: seq<Env>)
    ensures RunFrom(CLIENT, ts, inputs, envs) && |inputs| == 3 && inputs[2] == Arrive(FIN_NOW)
    ensures ShapeOk(ts[2].rcv) && !ShapeOk(ts[3].rcv) && LooseOk(ts[3].rcv, 1)
  {
    ts, inputs, envs := TextRun(302, SEVEN);
    var t := ts[2];
    TakesFin(t, At(T0));
    AnyDataConserves(CLIENT, ts, inputs, envs, 2);
    FinOverByte(t.rcv);
    Extend(CLIENT, ts, inputs, envs, Arrive(FIN_NOW), At(T0));
    ts, inputs, envs := ts + [OnSegment(t, FIN_NOW, At(T0))], inputs + [Arrive(FIN_NOW)], envs + [At(T0)];
  }

  // ----- a simultaneous open that misses the peer's window (statemachine.go:634-640) -----

  const BARE_SYN: Segment := Segment(F_SYN, 0x9000_0000, 0, 65535, Parsed.Options(NO_OPTIONS), [])
  const FIRST_ACK: Segment := Segment(F_ACK, 0x9000_0001, 101, 65535, Parsed.Options(NO_OPTIONS), [])

  /** The client after the peer's crossing SYN. */
  lemma {:induction false} Crossed() returns (t: Tcb)
    ensures t == OnSegment(Opened(CLIENT), BARE_SYN, At(T0))
    ensures t.state == SynReceived && t.rcv.nxt == 0x9000_0001 && t.rcv.wnd == 65535
    ensures !t.neg.tsOk && t.neg.sndShift == 0
    ensures t.snd.una == 100 && t.snd.nxt == 101 && t.snd.maxWnd == 65535 && PeerWindow.WindowIs(t.snd, 0, 0, 0)
  {
    t := OnSegment(Opened(CLIENT), BARE_SYN, At(T0));
  }

  lemma {:induction false} FirstAckTaken(t: Tcb, env: Env)
    requires t.state == SynReceived && t.rcv.nxt == 0x9000_0001 && t.rcv.wnd == 65535 && !t.neg.tsOk
    requires t.snd.una == 100 && t.snd.nxt == 101 && t.snd.maxWnd == 65535 && t.neg.sndShift == 0
    requires PeerWindow.WindowIs(t.snd, 0, 0, 0)
    ensures PeerWindow.Accepted(t, Arrive(FIRST_ACK))
    ensures var t' := OnSegment(t, FIRST_ACK, env);
      t'.state == Established && t'.snd.wnd == 0
  {
    PeerWindow.ArrivalUpdates(t, FIRST_ACK, env);
    Nagle.TakenIs(t, FIRST_ACK, env);
    Lifecycle.HandleAckState(UpdateTsRecent(t, FIRST_ACK), FIRST_ACK, env);
    Lifecycle.TextFinState(HandleAck(UpdateTsRecent(t, FIRST_ACK), FIRST_ACK, env), FIRST_ACK, env);
  }

  /** The client's run of two steps. */
  lemma {:induction false} TwoStepRun(i: Input, j: Input, t: Tcb, u: Tcb, env: Env)
    requires IsStep(Opened(CLIENT), i, env, t) && IsStep(t, j, env, u)
    ensures RunFrom(CLIENT, [Opened(CLIENT), t, u], [i, j], [env, env])
  {
    var ts, inputs, envs := [Opened(CLIENT), t, u], [i, j], [env, env];
    assert StepAt(ts, inputs, envs, 0) && StepAt(ts, inputs, envs, 1);
    ClientCap();
  }

  lemma {:induction false} ClientCap()
    ensures BuffCap(Opened(CLIENT).rcv) <= Reassembly.MAX_WINDOW
  {
  }

  /** The peer's first acceptable ACK offers 65535 bytes with a sequence number in the upper
      half of the number space: the connection is established with SND.WND still zero. */
  lemma {:induction false} MissedWindowExample() returns (t: Tcb, u: Tcb)
    ensures RunFrom(CLIENT, [Opened(CLIENT), t, u], [Arrive(BARE_SYN), Arrive(FIRST_ACK)], [At(T0), At(T0)])
    ensures PeerWindow.Accepted(t, Arrive(FIRST_ACK)) && FIRST_ACK.window == 65535
    ensures u.state == Established && u.snd.wnd == 0
  {
    t := Crossed();
    u := OnSegment(t, FIRST_ACK, At(T0));
    FirstAckTaken(t, At(T0));
    CrossedStep(t);
    TwoStepRun(Arrive(BARE_SYN), Arrive(FIRST_ACK), t, u, At(T0));
  }

  lemma {:induction false} CrossedStep(t: Tcb)
    requires t == OnSegment(Opened(CLIENT), BARE_SYN, At(T0))
    ensures IsStep(Opened(CLIENT), Arrive(BARE_SYN), At(T0), t)
  {
  }
}
