/** The challenge ACKs a connection writes (section 7 of RFC 5961; tcp/transport/
    statemachine.go:427-451): which segments ask for one, and how many go out over a run. */
module Challenges {
  import opened SeqNum
  import opened Reassembly
  import opened Segments
  import opened ChallengeAck
  import opened Tcb
  import opened StateMachine
  import opened SenderSteps
  import opened Runs

  /** The segments section 3 to 5 of RFC 5961 answer with a challenge: a RST in the window
      but not exact, an acceptable SYN, and an acceptable segment whose ACK is out of range
      (in SYN-RECEIVED an ACK outside both ranges is answered with a RST instead). */
  predicate Challenged(t: Tcb, s: Segment) {
    && t.state != Closed && t.state != Listen && t.state != SynSent
    && if s.flags.rst then InWindow(t.rcv.nxt, t.rcv.wnd, s.seqNum) && s.seqNum != t.rcv.nxt
       else
         && !(t.state == TimeWait && s.flags.fin) && !PawsStale(t, s) && Acceptable(t.rcv, s)
         && (s.flags.syn
             || (s.flags.ack && !AckAccepted(t, s)
                 && (t.state == SynReceived ==> AcceptableAck(t.snd.una, s.ackNum, t.snd.nxt)
                                                || AckInRange(AckFloor(t), s.ackNum, t.snd.nxt))))
  }

  predicate Asks(t: Tcb, i: Input) {
    i.Arrive? && Challenged(t, i.s)
  }

  // ----- nothing else touches the throttle -----

  lemma {:induction false} FlushThrottle(t: Tcb, idle: bool, env: Env)
    ensures FlushFrom(t, idle, env).throttle == t.throttle
    decreases |t.snd.buf| - InFlight(t.snd)
  {
    if MaySend(t.snd, idle) {
      EmitProgress(t, idle, env);
      FlushThrottle(EmitNext(t, env), idle, env);
    }
  }

  lemma {:induction false} AckThrottle(t: Tcb, s: Segment, env: Env)
    ensures HandleAck(t, s, env).throttle == t.throttle
  {
    NoteAckThrottle(t, s, env);
    var t1 := UpdateSendWindow(NoteAck(t, s, env), s);
    AdvanceThrottle(NoteAck(t, s, env), s, env);
    var t3 := AdvanceOnAck(t1, env);
    FlushThrottle(t3, t3.snd.nxt == t3.snd.una, env);
  }

  lemma {:induction false} NoteAckThrottle(t: Tcb, s: Segment, env: Env)
    ensures NoteAck(t, s, env).throttle == t.throttle
  {
  }

  lemma {:induction false} AdvanceThrottle(t: Tcb, s: Segment, env: Env)
    ensures AdvanceOnAck(UpdateSendWindow(t, s), env).throttle == t.throttle
  {
  }

  lemma {:induction false} TextFinThrottle(t: Tcb, s: Segment, env: Env)
    ensures AcceptText(t, s, env).throttle == t.throttle && HandleFin(t, env).throttle == t.throttle
  {
  }

  lemma {:induction false} AnswersThrottle(t: Tcb, s: Segment, env: Env)
    ensures SendAck(t, env).throttle == t.throttle && SendRst(t, s.ackNum, env).throttle == t.throttle
    ensures UpdateTsRecent(t, s).throttle == t.throttle && ResetConnection(t).throttle == t.throttle
  {
  }

  lemma {:induction false} OpeningThrottle(t: Tcb, s: Segment, env: Env)
    requires t.state == Closed || t.state == Listen || t.state == SynSent
    ensures OnSegment(t, s, env).throttle == t.throttle
  {
  }

  lemma {:induction false} RetransmitThrottle(t: Tcb, env: Env)
    ensures CheckRetransmit(t, env).throttle == t.throttle && CheckTimeWait(t, env).throttle == t.throttle
  {
  }

  lemma {:induction false} PersistThrottle(t: Tcb, env: Env)
    ensures CheckPersist(t, env).throttle == t.throttle && CheckDelAck(t, env).throttle == t.throttle
  {
  }

  lemma {:induction false} OverrideThrottle(t: Tcb, env: Env)
    ensures CheckOverride(t, env).throttle == t.throttle
  {
  }

  lemma {:induction false} TickThrottle(t: Tcb, env: Env)
    ensures Tick(t, env).throttle == t.throttle
  {
    var t1 := CheckTimeWait(t, env);
    RetransmitThrottle(t, env);
    RetransmitThrottle(t1, env);
    var t2 := CheckRetransmit(t1, env);
    PersistThrottle(t2, env);
    var t3 := CheckPersist(t2, env);
    OverrideThrottle(t3, env);
    PersistThrottle(CheckOverride(t3, env), env);
  }

  lemma {:induction false} CallsThrottle(t: Tcb, data: seq<u8>, max: nat, env: Env)
    ensures Recv(t, max, env).throttle == t.throttle && Close(t, env).throttle == t.throttle
    ensures |t.snd.buf| + |data| <= SEND_LIMIT ==> Send(t, data, env).throttle == t.throttle
  {
    if |t.snd.buf| + |data| <= SEND_LIMIT && SendOutcome(t.state, |data|).Sent? {
      var t1 := t.(snd := t.snd.(buf := t.snd.buf + data));
      FlushThrottle(t1, t1.snd.nxt == t1.snd.una, env);
    }
  }

  // ----- one segment -----

  predicate IsChallenge(s: Segment, t: Tcb) {
    s.flags == F_ACK && s.payload == [] && s.seqNum == t.snd.nxt && s.ackNum == t.rcv.nxt
  }

  /** What asking does: the throttle is charged, and exactly if it allows it one bare ACK of
      RCV.NXT is written. */
  predicate Answered(t: Tcb, t': Tcb, now: Time) {
    && t'.throttle == Use(t.throttle, now, LIMIT, WINDOW)
    && (if Allows(t.throttle, now, LIMIT, WINDOW) then
          && |t'.wire| == |t.wire| + 1 && t'.wire[..|t.wire|] == t.wire
          && IsChallenge(t'.wire[|t.wire|], t)
        else t'.wire == t.wire)
  }

  lemma {:induction false} ChallengeAnswers(t: Tcb, env: Env)
    ensures Answered(t, SendChallengeAck(t, env), env.now)
  {
  }

  lemma {:induction false} TimestampFrame(t: Tcb, s: Segment)
    ensures var t1 := UpdateTsRecent(t, s);
      && t1.snd == t.snd && t1.rcv == t.rcv && t1.state == t.state && t1.throttle == t.throttle && t1.wire == t.wire
  {
  }

  lemma {:induction false} AcceptableChallenge(t: Tcb, s: Segment, env: Env)
    ensures var t', ask := OnAcceptable(t, s, env), s.flags.ack && !AckAccepted(t, s)
        && (t.state == SynReceived ==> AcceptableAck(t.snd.una, s.ackNum, t.snd.nxt)
                                       || AckInRange(AckFloor(t), s.ackNum, t.snd.nxt));
      if ask then Answered(t, t', env.now) else t'.throttle == t.throttle
  {
    TimestampFrame(t, s);
    var t1 := UpdateTsRecent(t, s);
    if s.flags.ack && AckAccepted(t, s) {
      AckThrottle(t1, s, env);
      var t2 := HandleAck(t1, s, env);
      TextFinThrottle(t2, s, env);
      TextFinThrottle(AcceptText(t2, s, env), s, env);
    } else if s.flags.ack {
      ChallengeAnswers(t1, env);
      AnswersThrottle(t1, s, env);
    }
  }

  lemma {:induction false} AnswerChallenge(t: Tcb, s: Segment, env: Env)
    requires s.flags.rst || s.flags.syn || (t.state == TimeWait && s.flags.fin) || PawsStale(t, s)
      || !Acceptable(t.rcv, s)
    requires t.state != Closed && t.state != Listen && t.state != SynSent
    ensures var t' := OnSynchronized(t, s, env);
      if Challenged(t, s) then t' == SendChallengeAck(t, env) else t'.throttle == t.throttle
  {
    AnswersThrottle(t, s, env);
  }

  lemma {:induction false} SegmentChallenge(t: Tcb, s: Segment, env: Env)
    ensures var t' := OnSegment(t, s, env);
      if Challenged(t, s) then Answered(t, t', env.now) else t'.throttle == t.throttle
  {
    if t.state == Closed || t.state == Listen || t.state == SynSent {
      OpeningThrottle(t, s, env);
    } else if s.flags.rst || s.flags.syn || (t.state == TimeWait && s.flags.fin) || PawsStale(t, s)
      || !Acceptable(t.rcv, s) {
      AnswerChallenge(t, s, env);
      ChallengeAnswers(t, env);
    } else {
      AcceptableChallenge(t, s, env);
    }
  }

  lemma {:induction false} StepChallenge(t: Tcb, i: Input, env: Env, t': Tcb)
    requires IsStep(t, i, env, t')
    ensures if Asks(t, i) then Answered(t, t', env.now) else t'.throttle == t.throttle
  {
    match i
    case CallSend(data) => CallsThrottle(t, data, 0, env);
    case CallRecv(max) => CallsThrottle(t, [], max, env);
    case CallClose => CallsThrottle(t, [], 0, env);
    case TimerTick => TickThrottle(t, env);
    case Arrive(s) => SegmentChallenge(t, s, env);
  }

  // ----- runs -----

  /** The times at which the first n steps ask for a challenge ACK. */
  function Requests(ts: seq<Tcb>, inputs: seq<Input>, envs: seq<Env>, n: nat): seq<int>
    requires |ts| == |inputs| + 1 && |envs| == |inputs| && n <= |inputs|
  {
    if n == 0 then []
    else Requests(ts, inputs, envs, n - 1) + if Asks(ts[n - 1], inputs[n - 1]) then [envs[n - 1].now] else []
  }

  /** How many of the first n steps wrote a challenge ACK at a time in [a, b]. */
  function Written(ts: seq<Tcb>, inputs: seq<Input>, envs: seq<Env>, n: nat, a: int, b: int): nat
    requires |ts| == |inputs| + 1 && |envs| == |inputs| && n <= |inputs|
  {
    if n == 0 then 0
    else
      var k := n - 1;
      Written(ts, inputs, envs, k, a, b)
      + if Asks(ts[k], inputs[k]) && |ts[k].wire| < |ts[k + 1].wire| && a <= envs[k].now <= b then 1 else 0
  }

  lemma {:induction false} RequestsOrdered(ts: seq<Tcb>, inputs: seq<Input>, envs: seq<Env>, n: nat)
    requires |ts| == |inputs| + 1 && |envs| == |inputs| && n <= |inputs| && ClockRuns(envs)
    ensures var times := Requests(ts, inputs, envs, n);
      && NonDecreasing(times)
      && (n > 0 ==> forall i :: 0 <= i < |times| ==> envs[0].now <= times[i] <= envs[n - 1].now)
  {
    if n > 0 {
      RequestsOrdered(ts, inputs, envs, n - 1);
      if n > 1 { assert envs[n - 2].now <= envs[n - 1].now; }
      assert envs[0].now <= envs[n - 1].now;
    }
  }

  /** What a step does to the throttle, and when it writes a challenge ACK. */
  ghost predicate Charged(t: Tcb, i: Input, env: Env, t': Tcb) {
    if Asks(t, i) then
      && t'.throttle == Use(t.throttle, env.now, LIMIT, WINDOW)
      && (|t.wire| < |t'.wire| <==> Allows(t.throttle, env.now, LIMIT, WINDOW))
    else t'.throttle == t.throttle
  }

  lemma {:induction false} StepAsks(s: Start, ts: seq<Tcb>, inputs: seq<Input>, envs: seq<Env>, k: nat)
    requires RunFrom(s, ts, inputs, envs) && k < |inputs|
    ensures Charged(ts[k], inputs[k], envs[k], ts[k + 1])
  {
    assert StepAt(ts, inputs, envs, k);
    StepChallenge(ts[k], inputs[k], envs[k], ts[k + 1]);
  }

  lemma {:induction false} OpenThrottle(s: Start)
    ensures Opened(s).throttle == Throttle(s.epoch, 0)
  {
  }

  /** The throttle is the counter run over the first n requests, and what it answers is written. */
  ghost predicate Counted(t0: Throttle, ts: seq<Tcb>, inputs: seq<Input>, envs: seq<Env>, n: nat, a: int, b: int)
    requires |ts| == |inputs| + 1 && |envs| == |inputs| && n <= |inputs|
  {
    var times := Requests(ts, inputs, envs, n);
    && ts[n].throttle == After(t0, times, LIMIT, WINDOW)
    && Written(ts, inputs, envs, n, a, b) == Emitted(t0, times, LIMIT, WINDOW, a, b)
  }

  lemma {:induction false} StepCounted(t0: Throttle, ts: seq<Tcb>, inputs: seq<Input>, envs: seq<Env>, k: nat, a: int,
                                       b: int)
    requires |ts| == |inputs| + 1 && |envs| == |inputs| && k < |inputs|
    requires Counted(t0, ts, inputs, envs, k, a, b) && Charged(ts[k], inputs[k], envs[k], ts[k + 1])
    ensures Counted(t0, ts, inputs, envs, k + 1, a, b)
  {
    var prev := Requests(ts, inputs, envs, k);
    if Asks(ts[k], inputs[k]) {
      OneMore(t0, prev, envs[k].now, LIMIT, WINDOW, a, b);
    } else {
      assert prev + [] == prev;
    }
  }

  lemma {:induction false} WrittenEmitted(s: Start, ts: seq<Tcb>, inputs: seq<Input>, envs: seq<Env>, n: nat, a: int,
                                          b: int)
    requires RunFrom(s, ts, inputs, envs) && n <= |inputs|
    ensures Counted(Throttle(s.epoch, 0), ts, inputs, envs, n, a, b)
  {
    if n == 0 {
      OpenThrottle(s);
    } else {
      WrittenEmitted(s, ts, inputs, envs, n - 1, a, b);
      StepAsks(s, ts, inputs, envs, n - 1);
      StepCounted(Throttle(s.epoch, 0), ts, inputs, envs, n - 1, a, b);
    }
  }

  lemma {:induction false} RequestsCount(t0: Throttle, times: seq<int>, written: nat, a: int)
    requires NonDecreasing(times) && t0.count == 0 && (times != [] ==> t0.start + WINDOW < times[0])
    requires written == Emitted(t0, times, LIMIT, WINDOW, a, a + WINDOW)
    ensures written == Shares(t0, times, LIMIT, WINDOW, a) && written <= 2 * LIMIT - 1
    ensures written > LIMIT <==> Overruns(t0, times, LIMIT, WINDOW, a)
  {
    RateBound(t0, times, LIMIT, WINDOW, a);
    ExactCount(t0, times, LIMIT, WINDOW, a);
  }

  /** Over every run with a non-decreasing clock, the challenge ACKs a connection writes in
      the closed interval [a, a + 5 s] are exactly what is left of the counting window that
      is open at a, plus the use of at most one new one; never more than 19; and more than
      the documented 10 if and only if the requests overrun: the open window expires inside
      the interval with more requests to follow than it had answered before a. */
  lemma {:induction false} ChallengeAcksWritten(s: Start, ts: seq<Tcb>, inputs: seq<Input>, envs: seq<Env>, n: nat,
                                                a: int)
    requires RunFrom(s, ts, inputs, envs) && ClockRuns(envs) && 0 < n <= |inputs|
    requires s.epoch + WINDOW < envs[0].now
    ensures var written, t0 := Written(ts, inputs, envs, n, a, a + WINDOW), Throttle(s.epoch, 0);
      var times := Requests(ts, inputs, envs, n);
      && written == Shares(t0, times, LIMIT, WINDOW, a) && written <= 2 * LIMIT - 1
      && (written > LIMIT <==> Overruns(t0, times, LIMIT, WINDOW, a))
  {
    var times := Requests(ts, inputs, envs, n);
    WrittenEmitted(s, ts, inputs, envs, n, a, a + WINDOW);
    RequestsOrdered(ts, inputs, envs, n);
    RequestsCount(Throttle(s.epoch, 0), times, Written(ts, inputs, envs, n, a, a + WINDOW), a);
  }
}
