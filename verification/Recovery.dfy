/** What an arriving acknowledgement makes a connection write: the lost segment again when
    the third duplicate starts fast recovery, then new data, then acknowledgements (section
    3.2 of RFC 5681; tcp/transport/statemachine.go:740-826). */
module Recovery {
  import opened SeqNum
  import opened Reassembly
  import opened Segments
  import opened Congestion
  import opened Tcb
  import opened StateMachine
  import opened Frames
  import opened SenderSteps
  import opened Log
  import opened FlowControl
  import opened Runs
  import opened Retries
  import opened Nagle
  import Lifecycle

  /** The five conditions of RFC 5681 for a duplicate acknowledgement. */
  predicate Duplicate(t: Tcb, s: Segment) {
    && t.queue != [] && s.payload == [] && !s.flags.syn && !s.flags.fin
    && s.ackNum == t.snd.una && ScaleWindow(s.window, t.neg.sndShift) == t.snd.wnd
  }

  predicate Enters(t: Tcb, t': Tcb) {
    t.snd.cong.state != FastRecovery && t'.snd.cong.state == FastRecovery
  }

  /** A duplicate that is at least the third in a row, with data in flight. */
  predicate StartsRecovery(t: Tcb, s: Segment) {
    Duplicate(t, s) && InFlight(t.snd) > 0 && t.snd.cong.state != FastRecovery && t.snd.cong.dupAckCnt >= 2
  }

  /** The segment x carries entry e once more, with a current acknowledgement. */
  predicate Carries(x: Segment, e: RetxSeg, rcvNxt: u32) {
    x.flags == e.flags && x.seqNum == e.seqNum && x.payload == e.payload && x.ackNum == rcvNxt
  }

  /** From t to t' the queue head was resent and its timer restarted. */
  predicate HeadAgain(t: Tcb, t': Tcb, resent: seq<Segment>, now: Time) {
    && t.queue != [] && |resent| == 1 && Carries(resent[0], t.queue[0], t.rcv.nxt)
    && |t'.queue| >= |t.queue| && t'.queue[1..|t.queue|] == t.queue[1..]
    && t'.queue[0] == t.queue[0].(sentAt := now, retransmitted := true)
  }

  predicate QueueKept(t: Tcb, t': Tcb) {
    |t.queue| <= |t'.queue| && t'.queue[..|t.queue|] == t.queue
  }

  // ----- the acknowledgement itself -----

  lemma {:induction false} NoteAckWrites(t: Tcb, s: Segment, env: Env) returns (resent: seq<Segment>)
    ensures var t' := NoteAck(t, s, env);
      && t'.wire == t.wire + resent
      && (Enters(t, t') <==> StartsRecovery(t, s))
      && (if StartsRecovery(t, s) then HeadAgain(t, t', resent, env.now)
          else resent == [] && (Duplicate(t, s) ==> t'.queue == t.queue))
  {
    var t' := NoteAck(t, s, env);
    resent := t'.wire[|t.wire|..];
    if AcceptableAck(t.snd.una, s.ackNum, t.snd.nxt) {
      NewAckQuiet(t, s.ackNum, env);
    } else if IsDupAck(t, s) {
      DupAckWrites(t, env);
    }
  }

  lemma {:induction false} NewAckQuiet(t: Tcb, ack: u32, env: Env)
    ensures var t' := TakeNewAck(t, ack, env);
      t'.wire == t.wire && t'.snd.cong.state != FastRecovery
  {
  }

  lemma {:induction false} DupAckWrites(t: Tcb, env: Env)
    requires t.queue != []
    ensures var t' := OnDuplicateAck(t, env);
      && |t.wire| <= |t'.wire| && t'.wire[..|t.wire|] == t.wire
      && (Enters(t, t') <==> InFlight(t.snd) > 0 && t.snd.cong.state != FastRecovery && t.snd.cong.dupAckCnt >= 2)
      && (if Enters(t, t') then HeadAgain(t, t', t'.wire[|t.wire|..], env.now)
          else t'.wire == t.wire && t'.queue == t.queue)
  {
    var t' := OnDuplicateAck(t, env);
    if Enters(t, t') { TailKept(t.queue, t'.queue[0]); }
  }

  lemma {:induction false} TailKept(q: seq<RetxSeg>, e: RetxSeg)
    requires q != []
    ensures |[e] + q[1..]| == |q| && ([e] + q[1..])[1..|q|] == q[1..]
  {
  }

  // ----- then new data -----

  lemma {:induction false} AdvanceWire(t: Tcb, s: Segment, env: Env)
    ensures var t' := AdvanceOnAck(UpdateSendWindow(t, s), env);
      t'.wire == t.wire && t'.queue == t.queue && t'.snd.cong == t.snd.cong
      && t'.snd.nagleDisabled == t.snd.nagleDisabled
  {
  }

  /** The order on the wire: the resent head, if any, then new data from SND.NXT on, of
      which no segment is small while earlier data is in flight, unless Nagle is off. */
  lemma {:induction false} AckWrites(t: Tcb, s: Segment, env: Env) returns (resent: seq<Segment>, newData: seq<Segment>)
    requires t.snd.wnd <= MAX_SND_WINDOW && InFlight(t.snd) < HALF
    ensures var t' := HandleAck(t, s, env);
      && t'.wire == t.wire + resent + newData
      && (Enters(t, t') <==> StartsRecovery(t, s))
      && (if StartsRecovery(t, s) then HeadAgain(t, t', resent, env.now)
          else resent == [] && (Duplicate(t, s) ==> QueueKept(t, t')))
      && DataRun(newData, t.snd.nxt)
      && (Lifecycle.NewUna(t, s) != t.snd.nxt && !t.snd.nagleDisabled ==> NoneSmall(newData, 0, t'.snd))
  {
    var t1 := NoteAck(t, s, env);
    resent := NoteAckWrites(t, s, env);
    AckShrinks(t, s, env);
    AdvanceWire(t1, s, env);
    NoteAckCalm(t, s, env);
    var t3 := AdvanceOnAck(UpdateSendWindow(t1, s), env);
    newData := FlushOutcome(t3, env);
    var t' := HandleAck(t, s, env);
    QueueAfter(t, t3, t', resent, env.now, StartsRecovery(t, s));
  }

  lemma {:induction false} FlushOutcome(t: Tcb, env: Env) returns (newData: seq<Segment>)
    requires t.snd.wnd <= MAX_SND_WINDOW && InFlight(t.snd) < HALF
    ensures var t' := FlushSend(t, env);
      && t'.wire == t.wire + newData && DataRun(newData, t.snd.nxt) && t'.snd.cong == t.snd.cong
      && Appended(t.queue, t'.queue)
      && (t.snd.una != t.snd.nxt && !t.snd.nagleDisabled ==> NoneSmall(newData, 0, t'.snd))
  {
    var idle := t.snd.nxt == t.snd.una;
    newData := FlushWrites(t, idle, env);
    FlushNagle(t, idle, env);
    FlushAppends(t, idle, env);
    var t' := FlushSend(t, env);
    if !idle && !t.snd.nagleDisabled {
      forall k | 0 <= k < |newData| ensures !Small(|newData[k].payload|, t'.snd) {
        assert t'.wire[|t.wire| + k] == newData[k];
      }
    }
  }

  lemma {:induction false} QueueAfter(t: Tcb, t3: Tcb, t': Tcb, resent: seq<Segment>, now: Time, again: bool)
    requires Appended(t3.queue, t'.queue)
    ensures again && HeadAgain(t, t3, resent, now) ==> HeadAgain(t, t', resent, now)
    ensures t3.queue == t.queue ==> QueueKept(t, t')
  {
    if again && HeadAgain(t, t3, resent, now) {
      assert t'.queue[0] == t'.queue[..|t3.queue|][0];
      assert t'.queue[1..|t.queue|] == t'.queue[..|t3.queue|][1..|t.queue|];
    }
  }

  // ----- then acknowledgements -----

  predicate BareAcks(acks: seq<Segment>) {
    forall k :: 0 <= k < |acks| ==> acks[k].flags == F_ACK && acks[k].payload == []
  }

  lemma {:induction false} TextWrites(t: Tcb, s: Segment, env: Env) returns (acks: seq<Segment>)
    ensures AcceptText(t, s, env).wire == t.wire + acks && |acks| <= 1 && BareAcks(acks)
  {
    acks := AcceptText(t, s, env).wire[|t.wire|..];
  }

  lemma {:induction false} FinWrites(t: Tcb, env: Env) returns (acks: seq<Segment>)
    ensures HandleFin(t, env).wire == t.wire + acks && |acks| == 1 && BareAcks(acks)
  {
    acks := HandleFin(t, env).wire[|t.wire|..];
  }

  lemma {:induction false} TextFinWrites(t: Tcb, s: Segment, env: Env) returns (acks: seq<Segment>)
    ensures TextAndFin(t, s, env).wire == t.wire + acks && BareAcks(acks)
  {
    acks := TextWrites(t, s, env);
    var t1 := AcceptText(t, s, env);
    if FinInOrder(t1, s) {
      var fin := FinWrites(t1, env);
      assert t.wire + acks + fin == t.wire + (acks + fin);
      acks := acks + fin;
    }
  }

  /** Everything a segment with an acceptable ACK makes a connection write. */
  lemma {:induction false} ArrivalWrites(t: Tcb, s: Segment, env: Env)
    returns (resent: seq<Segment>, newData: seq<Segment>, acks: seq<Segment>)
    requires t.state == SynReceived || Synchronized(t.state)
    requires Lifecycle.TakesAck(t, s) && FlowOk(t) && FlightOk(t)
    ensures var t' := OnSegment(t, s, env);
      && t'.wire == t.wire + resent + newData + acks
      && (Enters(t, t') <==> StartsRecovery(t, s))
      && (if StartsRecovery(t, s) then HeadAgain(t, t', resent, env.now)
          else resent == [] && (Duplicate(t, s) ==> QueueKept(t, t')))
      && DataRun(newData, t.snd.nxt) && BareAcks(acks)
      && (t'.snd.una != t.snd.nxt && !t.snd.nagleDisabled ==> NoneSmall(newData, 0, t'.snd))
  {
    var t1 := UpdateTsRecent(t, s);
    TimestampQueue(t, s);
    TimestampWire(t, s);
    TakenIs(t, s, env);
    var t2 := HandleAck(t1, s, env);
    resent, newData := AckWrites(t1, s, env);
    acks := TextFinWrites(t2, s, env);
    TextFinOpens(t2, s, env);
    TextFinQueue(t2, s, env);
    Lifecycle.HandleAckState(t1, s, env);
  }

  lemma {:induction false} TimestampWire(t: Tcb, s: Segment)
    ensures var t1 := UpdateTsRecent(t, s);
      t1.wire == t.wire && t1.rcv == t.rcv && t1.neg.sndShift == t.neg.sndShift
      && (Duplicate(t1, s) <==> Duplicate(t, s)) && (StartsRecovery(t1, s) <==> StartsRecovery(t, s))
  {
  }

  // ----- runs -----

  /** A segment that counts as one more duplicate. */
  predicate Counts(t: Tcb, i: Input) {
    i.Arrive? && Lifecycle.TakesAck(t, i.s) && Duplicate(t, i.s) && InFlight(t.snd) > 0
    && (t.state == SynReceived || Synchronized(t.state))
  }

  lemma {:induction false} NoteAckCounts(t: Tcb, s: Segment, env: Env)
    requires Duplicate(t, s) && InFlight(t.snd) > 0
    ensures NoteAck(t, s, env).snd.cong == OnDupAck(t.snd.cong, InFlight(t.snd))
  {
    NothingAcceptable(t.snd.una, s.ackNum);
    assert !AcceptableAck(t.snd.una, s.ackNum, t.snd.nxt);
  }

  lemma {:induction false} ArrivalCounts(t: Tcb, s: Segment, env: Env)
    requires Counts(t, Arrive(s)) && FlowOk(t) && FlightOk(t)
    ensures OnSegment(t, s, env).snd.cong == OnDupAck(t.snd.cong, InFlight(t.snd))
  {
    var t1 := UpdateTsRecent(t, s);
    TimestampQueue(t, s);
    TimestampWire(t, s);
    TakenIs(t, s, env);
    NoteAckCounts(t1, s, env);
    AckShrinks(t1, s, env);
    AdvanceWire(NoteAck(t1, s, env), s, env);
    var t3 := AdvanceOnAck(UpdateSendWindow(NoteAck(t1, s, env), s), env);
    var segs := FlushOutcome(t3, env);
    TextFinOpens(HandleAck(t1, s, env), s, env);
  }

  /** The third duplicate: the queue head goes out again first of all. */
  predicate Resumed(t: Tcb, t': Tcb, now: Time) {
    && t.queue != [] && |t.wire| < |t'.wire| && t'.wire[..|t.wire|] == t.wire
    && Carries(t'.wire[|t.wire|], t.queue[0], t.rcv.nxt)
    && t'.queue != [] && t'.queue[0] == t.queue[0].(sentAt := now, retransmitted := true)
  }

  /** The ones before it leave the queue head as it is. */
  predicate Counted(t: Tcb, t': Tcb) {
    && t.queue != [] && t'.queue != [] && t'.queue[0] == t.queue[0]
    && t'.snd.cong == t.snd.cong.(dupAckCnt := t.snd.cong.dupAckCnt + 1)
  }

  lemma {:induction false} FirstWritten(t: Tcb, t': Tcb, resent: seq<Segment>, rest: seq<Segment>, now: Time)
    requires HeadAgain(t, t', resent, now) && t'.wire == t.wire + resent + rest
    ensures Resumed(t, t', now)
  {
    assert t'.wire == t.wire + (resent + rest);
  }

  lemma {:induction false} HeadKept(t: Tcb, t': Tcb)
    requires QueueKept(t, t') && t.queue != []
    ensures t'.queue != [] && t'.queue[0] == t.queue[0]
  {
    assert t'.queue[0] == t'.queue[..|t.queue|][0];
  }

  /** What a duplicate short of fast recovery does. */
  predicate OneMore(t: Tcb, t': Tcb, now: Time) {
    if t.snd.cong.dupAckCnt < 2 then Counted(t, t') else Resumed(t, t', now) && t'.snd.cong.state == FastRecovery
  }

  lemma {:induction false} DuplicateParts(t: Tcb, t': Tcb, resent: seq<Segment>, rest: seq<Segment>, now: Time)
    requires t'.wire == t.wire + resent + rest && t.queue != []
    requires t.snd.cong.state != FastRecovery && t.snd.cong.dupAckCnt <= 2
    requires t'.snd.cong == OnDupAck(t.snd.cong, InFlight(t.snd))
    requires if t.snd.cong.dupAckCnt >= 2 then HeadAgain(t, t', resent, now) else QueueKept(t, t')
    ensures OneMore(t, t', now)
  {
    if t.snd.cong.dupAckCnt < 2 { HeadKept(t, t'); } else { FirstWritten(t, t', resent, rest, now); }
  }

  lemma {:induction false} LastTwo(a: seq<Segment>, b: seq<Segment>, c: seq<Segment>, d: seq<Segment>)
    ensures a + b + c + d == a + b + (c + d)
  {
  }

  lemma {:induction false} CountedWrites(t: Tcb, s: Segment, env: Env)
    returns (resent: seq<Segment>, rest: seq<Segment>)
    requires Counts(t, Arrive(s)) && FlowOk(t) && FlightOk(t) && t.snd.cong.state != FastRecovery
    ensures var t' := OnSegment(t, s, env);
      && t'.wire == t.wire + resent + rest
      && if t.snd.cong.dupAckCnt >= 2 then HeadAgain(t, t', resent, env.now) else QueueKept(t, t')
  {
    var newData, acks;
    resent, newData, acks := ArrivalWrites(t, s, env);
    rest := newData + acks;
    LastTwo(t.wire, resent, newData, acks);
  }

  lemma {:induction false} DuplicateStep(t: Tcb, s: Segment, env: Env, t': Tcb)
    requires Counts(t, Arrive(s)) && FlowOk(t) && FlightOk(t) && t' == OnSegment(t, s, env)
    requires t.snd.cong.state != FastRecovery && t.snd.cong.dupAckCnt <= 2
    ensures OneMore(t, t', env.now)
  {
    ArrivalCounts(t, s, env);
    var resent, rest := CountedWrites(t, s, env);
    DuplicateParts(t, t', resent, rest, env.now);
  }

  lemma {:induction false} StepDuplicate(t: Tcb, i: Input, env: Env, t': Tcb)
    requires FreeOk(t) && IsStep(t, i, env, t') && Counts(t, i)
    requires t.snd.cong.state != FastRecovery && t.snd.cong.dupAckCnt <= 2
    ensures OneMore(t, t', env.now)
  {
    DuplicateStep(t, i.s, env, t');
  }

  lemma {:induction false} DuplicateAt(s: Start, ts: seq<Tcb>, inputs: seq<Input>, envs: seq<Env>, k: nat)
    requires RunFrom(s, ts, inputs, envs) && k < |inputs| && Counts(ts[k], inputs[k])
    requires ts[k].snd.cong.state != FastRecovery && ts[k].snd.cong.dupAckCnt <= 2
    ensures OneMore(ts[k], ts[k + 1], envs[k].now)
  {
    ReachableOk(s, ts, inputs, envs, k);
    assert StepAt(ts, inputs, envs, k);
    StepDuplicate(ts[k], inputs[k], envs[k], ts[k + 1]);
  }

  /** Three duplicates in a row: the third makes the connection write, first of all, the
      entry that headed the queue when the first one came, and restarts its timer. */
  lemma {:induction false} ThirdDuplicateResends(s: Start, ts: seq<Tcb>, inputs: seq<Input>, envs: seq<Env>, n: nat)
    requires RunFrom(s, ts, inputs, envs) && n + 2 < |inputs|
    requires Counts(ts[n], inputs[n]) && Counts(ts[n + 1], inputs[n + 1]) && Counts(ts[n + 2], inputs[n + 2])
    requires ts[n].snd.cong.state != FastRecovery && ts[n].snd.cong.dupAckCnt == 0
    ensures var e, wire, wire' := ts[n].queue[0], ts[n + 2].wire, ts[n + 3].wire;
      && |wire| < |wire'| && wire'[..|wire|] == wire && Carries(wire'[|wire|], e, ts[n + 2].rcv.nxt)
      && ts[n + 3].queue != [] && ts[n + 3].queue[0] == e.(sentAt := envs[n + 2].now, retransmitted := true)
      && ts[n + 3].snd.cong.state == FastRecovery
  {
    DuplicateAt(s, ts, inputs, envs, n);
    DuplicateAt(s, ts, inputs, envs, n + 1);
    DuplicateAt(s, ts, inputs, envs, n + 2);
  }

  // ----- the retransmission timer -----

  lemma {:induction false} RetransmitCarries(t: Tcb, env: Env)
    requires RetransmitDue(t, env)
    ensures var t', e := CheckRetransmit(t, env), t.queue[0];
      && |t'.wire| == |t.wire| + 1 && t'.wire[..|t.wire|] == t.wire && Carries(t'.wire[|t.wire|], e, t.rcv.nxt)
      && t'.queue != [] && t'.queue[0] == e.(retries := e.retries + 1, retransmitted := true, sentAt := env.now)
  {
  }

  lemma {:induction false} TickCarries(t: Tcb, env: Env)
    requires RetransmitDue(t, env)
    ensures var t', e := Tick(t, env), t.queue[0];
      && |t.wire| < |t'.wire| && t'.wire[..|t.wire|] == t.wire && Carries(t'.wire[|t.wire|], e, t.rcv.nxt)
      && t'.queue != [] && t'.queue[0] == e.(retries := e.retries + 1, retransmitted := true, sentAt := env.now)
  {
    var t1 := CheckTimeWait(t, env);
    ExpiryFrame(t, env);
    RetransmitCarries(t1, env);
    var t2 := CheckRetransmit(t1, env);
    PersistWrote(t2, env);
    PersistAppends(t2, env);
    var t3 := CheckPersist(t2, env);
    OverrideWrote(t3, env);
    OverrideAppends(t3, env);
    var t4 := CheckOverride(t3, env);
    DelAckWrote(t4, env);
    DelAckAppends(t4, env);
    AppendsOn(t2.queue, t3.queue, t4.queue);
    WroteMore(t2, t3, t4, env.now);
    WroteMore(t2, t4, Tick(t, env), env.now);
    FirstKept(t2, Tick(t, env), |t.wire|);
  }

  lemma {:induction false} FirstKept(t: Tcb, t': Tcb, n: nat)
    requires t.wire <= t'.wire && Appended(t.queue, t'.queue) && t.queue != [] && n < |t.wire|
    ensures t'.wire[..n] == t.wire[..n] && t'.wire[n] == t.wire[n] && t'.queue != [] && t'.queue[0] == t.queue[0]
  {
    assert t'.queue[0] == t'.queue[..|t.queue|][0];
  }

  /** In every reachable state a tick at which the queue head is due and its limit is not
      reached writes that entry again, before anything else, with its flags, number and
      bytes and a current acknowledgement, and restarts its timer. */
  lemma {:induction false} TimerResends(s: Start, ts: seq<Tcb>, inputs: seq<Input>, envs: seq<Env>, n: nat, env: Env)
    requires RunFrom(s, ts, inputs, envs) && n < |ts| && ts[n].queue != []
    requires ts[n].queue[0].sentAt + ts[n].rto <= env.now && Resent(ts, inputs, envs, n) < MAX_RETRANSMITS
    ensures var t, t', e := ts[n], Tick(ts[n], env), ts[n].queue[0];
      && |t.wire| < |t'.wire| && t'.wire[..|t.wire|] == t.wire && Carries(t'.wire[|t.wire|], e, t.rcv.nxt)
      && t'.queue != [] && t'.queue[0] == e.(retries := e.retries + 1, retransmitted := true, sentAt := env.now)
  {
    HeadResent(s, ts, inputs, envs, n);
    TickCarries(ts[n], env);
  }
}
