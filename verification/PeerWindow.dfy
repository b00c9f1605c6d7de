/** The peer's window: of all acknowledgements accepted, SND.WND is the one on the newest
    segment, in the order of section 3.10.7.4 of RFC 9293 by stream positions
    (tcp/transport/statemachine.go:868-900). */
module PeerWindow {
  import opened SeqNum
  import opened Reassembly
  import opened Segments
  import opened Tcb
  import opened StateMachine
  import opened Frames
  import opened SenderSteps
  import opened FlowControl
  import opened Runs
  import opened Nagle
  import Lifecycle

  // ----- places and their order -----

  /** The unbounded positions of SEG.SEQ and SEG.ACK. */
  datatype Place = Place(seqPos: int, ackPos: int)

  /** By sequence position, then by acknowledged position. */
  predicate Before(x: Place, y: Place) {
    x.seqPos < y.seqPos || (x.seqPos == y.seqPos && x.ackPos < y.ackPos)
  }

  predicate At(seqNum: u32, ackNum: u32, x: Place) {
    seqNum == Wrap(x.seqPos) && ackNum == Wrap(x.ackPos)
  }

  /** Less than half the sequence space apart. */
  predicate Comparable(x: Place, y: Place) {
    && -HALF < y.seqPos - x.seqPos < HALF
    && (x.seqPos == y.seqPos ==> -HALF < y.ackPos - x.ackPos < HALF)
  }

  // ----- one segment -----

  /** SND.WND and the numbers of the segment it came from. */
  predicate WindowIs(snd: Sender, w: u32, seqNum: u32, ackNum: u32) {
    snd.wnd == w && snd.wl1 == seqNum && snd.wl2 == ackNum
  }

  predicate WindowKept(snd: Sender, snd': Sender) {
    WindowIs(snd', snd.wnd, snd.wl1, snd.wl2) && snd'.maxWnd == snd.maxWnd
  }

  lemma {:induction false} UpdateByPlace(t: Tcb, s: Segment, x: Place, y: Place)
    requires At(t.snd.wl1, t.snd.wl2, x) && At(s.seqNum, s.ackNum, y) && Comparable(x, y)
    ensures var t', w := UpdateSendWindow(t, s), ScaleWindow(s.window, t.neg.sndShift);
      && t'.snd.maxWnd == Max(t.snd.maxWnd, w)
      && (if Before(y, x) then WindowIs(t'.snd, t.snd.wnd, t.snd.wl1, t.snd.wl2) && t'.persist == t.persist
          else WindowIs(t'.snd, w, s.seqNum, s.ackNum) && (w > 0 ==> !t'.persist.armed))
  {
    ComparePositions(x.seqPos, y.seqPos);
    if x.seqPos == y.seqPos { ComparePositions(x.ackPos, y.ackPos); }
  }

  /** What a flush does to the window (nothing) and to the persist timer. */
  lemma {:induction false} FlushPersist(t: Tcb, idle: bool, env: Env)
    ensures var t' := FlushFrom(t, idle, env);
      && WindowKept(t.snd, t'.snd) && t'.neg == t.neg
      && (t.snd.wnd > 0 && !t.persist.armed ==> !t'.persist.armed)
      && (t.persist.armed && Unsent(t'.snd) ==> t'.persist == t.persist)
    decreases |t.snd.buf| - InFlight(t.snd)
  {
    if MaySend(t.snd, idle) {
      EmitProgress(t, idle, env);
      EmitPersist(t, env);
      FlushPersist(EmitNext(t, env), idle, env);
    }
  }

  lemma {:induction false} EmitPersist(t: Tcb, env: Env)
    requires Unsent(t.snd)
    ensures var t' := EmitNext(t, env);
      t'.persist == t.persist && WindowKept(t.snd, t'.snd) && t'.neg == t.neg
  {
  }

  lemma {:induction false} NoteAckWindow(t: Tcb, s: Segment, env: Env)
    ensures var t' := NoteAck(t, s, env);
      WindowKept(t.snd, t'.snd) && t'.persist == t.persist && t'.neg == t.neg
  {
  }

  lemma {:induction false} AdvanceWindow(t: Tcb, env: Env)
    ensures var t' := AdvanceOnAck(t, env);
      t'.snd == t.snd && t'.persist == t.persist && t'.neg == t.neg
  {
  }

  /** What an accepted segment at place y does when SND.WND came from place x. */
  predicate TakesWindow(t: Tcb, s: Segment, t': Tcb, x: Place, y: Place) {
    var w := ScaleWindow(s.window, t.neg.sndShift);
    && t'.snd.maxWnd == Max(t.snd.maxWnd, w)
    && (if Before(y, x) then
          && WindowIs(t'.snd, t.snd.wnd, t.snd.wl1, t.snd.wl2)
          && (t.persist.armed && Unsent(t'.snd) ==> t'.persist == t.persist)
          && (t.snd.wnd > 0 && !t.persist.armed ==> !t'.persist.armed)
        else WindowIs(t'.snd, w, s.seqNum, s.ackNum) && (w > 0 ==> !t'.persist.armed))
  }

  lemma {:induction false} AckTakesWindow(t: Tcb, s: Segment, env: Env, x: Place, y: Place)
    requires At(t.snd.wl1, t.snd.wl2, x) && At(s.seqNum, s.ackNum, y) && Comparable(x, y)
    ensures TakesWindow(t, s, HandleAck(t, s, env), x, y) && HandleAck(t, s, env).neg == t.neg
  {
    NoteAckWindow(t, s, env);
    var t1 := NoteAck(t, s, env);
    UpdateByPlace(t1, s, x, y);
    var t2 := UpdateSendWindow(t1, s);
    AdvanceWindow(t2, env);
    var t3 := AdvanceOnAck(t2, env);
    FlushPersist(t3, t3.snd.nxt == t3.snd.una, env);
  }

  lemma {:induction false} TextFinWindow(t: Tcb, s: Segment, env: Env)
    ensures var t' := TextAndFin(t, s, env);
      t'.snd == t.snd && t'.persist == t.persist && t'.neg == t.neg
  {
    TextFinOpens(t, s, env);
    TextTimers(t, s, env);
    TextNegotiated(t, s, env);
    FinTimers(AcceptText(t, s, env), env);
  }

  lemma {:induction false} TextNegotiated(t: Tcb, s: Segment, env: Env)
    ensures AcceptText(t, s, env).neg == t.neg
  {
  }

  lemma {:induction false} FinTimers(t: Tcb, env: Env)
    ensures HandleFin(t, env).persist == t.persist && HandleFin(t, env).neg == t.neg
  {
  }

  /** An accepted segment that is not older than the one SND.WND came from sets SND.WND to
      its scaled window, and a positive one stops the persist timer; an older one changes
      neither.  The largest window is remembered in any case. */
  lemma {:induction false} ArrivalTakesWindow(t: Tcb, s: Segment, env: Env, x: Place, y: Place)
    requires t.state == SynReceived || Synchronized(t.state)
    requires Lifecycle.TakesAck(t, s)
    requires At(t.snd.wl1, t.snd.wl2, x) && At(s.seqNum, s.ackNum, y) && Comparable(x, y)
    ensures TakesWindow(t, s, OnSegment(t, s, env), x, y)
    ensures OnSegment(t, s, env).neg.sndShift == t.neg.sndShift
  {
    TakenIs(t, s, env);
    StampWindow(t, s);
    var t1 := UpdateTsRecent(t, s);
    AckTakesWindow(t1, s, env, x, y);
    TextFinWindow(HandleAck(t1, s, env), s, env);
  }

  lemma {:induction false} StampWindow(t: Tcb, s: Segment)
    ensures var t1 := UpdateTsRecent(t, s);
      t1.snd == t.snd && t1.persist == t.persist && t1.neg.sndShift == t.neg.sndShift && t1.state == t.state
  {
  }

  lemma {:induction false} UpdateDepends(t: Tcb, t1: Tcb, s: Segment)
    requires WindowKept(t.snd, t1.snd) && t1.neg.sndShift == t.neg.sndShift
    ensures WindowKept(UpdateSendWindow(t, s).snd, UpdateSendWindow(t1, s).snd) && UpdateSendWindow(t1, s).neg == t1.neg
  {
  }

  /** From the updated window on nothing moves it. */
  lemma {:induction false} AfterUpdate(t2: Tcb, env: Env)
    ensures var t' := FlushSend(AdvanceOnAck(t2, env), env);
      WindowKept(t2.snd, t'.snd) && t'.neg == t2.neg
  {
    AdvanceWindow(t2, env);
    var t3 := AdvanceOnAck(t2, env);
    FlushPersist(t3, t3.snd.nxt == t3.snd.una, env);
  }

  /** The window variables after an accepted segment are those UpdateSendWindow leaves. */
  lemma {:induction false} AckUpdates(t: Tcb, s: Segment, env: Env)
    ensures WindowKept(UpdateSendWindow(t, s).snd, HandleAck(t, s, env).snd) && HandleAck(t, s, env).neg == t.neg
  {
    var t1 := NoteAck(t, s, env);
    NoteAckWindow(t, s, env);
    UpdateDepends(t, t1, s);
    AfterUpdate(UpdateSendWindow(t1, s), env);
  }

  lemma {:induction false} ArrivalUpdates(t: Tcb, s: Segment, env: Env)
    requires Accepted(t, Arrive(s))
    ensures var t' := OnSegment(t, s, env);
      WindowKept(UpdateSendWindow(t, s).snd, t'.snd) && t'.neg.sndShift == t.neg.sndShift
  {
    TakenIs(t, s, env);
    StampWindow(t, s);
    var t1 := UpdateTsRecent(t, s);
    UpdateDepends(t, t1, s);
    AckUpdates(t1, s, env);
    TextFinWindow(HandleAck(t1, s, env), s, env);
  }

  /** The largest window ever offered. */
  lemma {:induction false} ArrivalLargest(t: Tcb, s: Segment, env: Env)
    requires Accepted(t, Arrive(s))
    ensures OnSegment(t, s, env).snd.maxWnd == Max(t.snd.maxWnd, ScaleWindow(s.window, t.neg.sndShift))
    ensures OnSegment(t, s, env).neg.sndShift == t.neg.sndShift
  {
    ArrivalUpdates(t, s, env);
  }

  /** A segment whose acknowledgement is taken, past the handshake. */
  predicate Accepted(t: Tcb, i: Input) {
    (t.state == SynReceived || Synchronized(t.state)) && i.Arrive? && Lifecycle.TakesAck(t, i.s)
  }

  // ----- nothing else changes the window -----

  predicate Unmoved(t: Tcb, t': Tcb) {
    WindowKept(t.snd, t'.snd) && t'.neg.sndShift == t.neg.sndShift
  }

  lemma {:induction false} OtherSegment(t: Tcb, s: Segment, env: Env)
    requires t.state != Listen && t.state != SynSent && !Accepted(t, Arrive(s)) && t.rcv.wnd <= Reassembly.MAX_WINDOW
    ensures Unmoved(t, OnSegment(t, s, env))
  {
    if t.state == Closed { Lifecycle.ClosedState(t, s, env); ClosedNegotiated(t, s, env); }
    else {
      OtherNegotiated(t, s, env);
      if s.flags.rst { Lifecycle.RstState(t, s, env); } else { Lifecycle.OtherwiseQuiet(t, s, env); }
    }
  }

  lemma {:induction false} ClosedNegotiated(t: Tcb, s: Segment, env: Env)
    ensures OnClosed(t, s, env).neg == t.neg
  {
  }

  lemma {:induction false} OtherNegotiated(t: Tcb, s: Segment, env: Env)
    requires !Lifecycle.TakesAck(t, s)
    ensures OnSynchronized(t, s, env).neg.sndShift == t.neg.sndShift
  {
    StampWindow(t, s);
    if (t.state == TimeWait && s.flags.fin && !s.flags.rst) || PawsStale(t, s)
       || (!Acceptable(t.rcv, s) && !s.flags.rst) || s.flags.rst || s.flags.syn {
      AnswerNegotiated(t, s, env);
    } else {
      RefuseNegotiated(UpdateTsRecent(t, s), s, env);
    }
  }

  lemma {:induction false} AnswerNegotiated(t: Tcb, s: Segment, env: Env)
    requires (t.state == TimeWait && s.flags.fin && !s.flags.rst) || PawsStale(t, s)
          || (!Acceptable(t.rcv, s) && !s.flags.rst) || s.flags.rst || s.flags.syn
    ensures OnSynchronized(t, s, env).neg == t.neg
  {
  }

  lemma {:induction false} RefuseNegotiated(t: Tcb, s: Segment, env: Env)
    ensures RefuseAck(t, s, env).neg == t.neg
  {
  }

  lemma {:induction false} TickUnmoved(t: Tcb, env: Env)
    ensures Unmoved(t, Tick(t, env))
  {
    RetransmitWindow(t, env);
    RetransmitNegotiated(t, env);
    var t2 := CheckRetransmit(CheckTimeWait(t, env), env);
    ProbeUnmoved(t2, env);
    var t3 := CheckPersist(t2, env);
    OverrideUnmoved(t3, env);
    var t4 := CheckOverride(t3, env);
    DelAckUnmoved(t4, env);
  }

  lemma {:induction false} RetransmitNegotiated(t: Tcb, env: Env)
    ensures CheckRetransmit(CheckTimeWait(t, env), env).neg == t.neg
  {
  }

  lemma {:induction false} ProbeUnmoved(t: Tcb, env: Env)
    ensures Unmoved(t, CheckPersist(t, env))
  {
  }

  lemma {:induction false} OverrideUnmoved(t: Tcb, env: Env)
    ensures Unmoved(t, CheckOverride(t, env))
  {
    if Unsent(t.snd) { EmitPersist(t, env); }
  }

  lemma {:induction false} DelAckUnmoved(t: Tcb, env: Env)
    ensures Unmoved(t, CheckDelAck(t, env))
  {
  }

  lemma {:induction false} CallsUnmoved(t: Tcb, data: seq<u8>, max: nat, env: Env)
    ensures Unmoved(t, Recv(t, max, env)) && Unmoved(t, Close(t, env))
    ensures |t.snd.buf| + |data| <= SEND_LIMIT ==> Unmoved(t, Send(t, data, env))
  {
    if |t.snd.buf| + |data| <= SEND_LIMIT && SendOutcome(t.state, |data|).Sent? {
      var t1 := t.(snd := t.snd.(buf := t.snd.buf + data));
      FlushPersist(t1, t1.snd.nxt == t1.snd.una, env);
    }
  }

  lemma {:induction false} StepUnmoved(t: Tcb, i: Input, env: Env, t': Tcb)
    requires IsStep(t, i, env, t') && t.state != Listen && t.state != SynSent && !Accepted(t, i)
    requires t.rcv.wnd <= Reassembly.MAX_WINDOW
    ensures Unmoved(t, t')
  {
    match i
    case CallSend(data) => CallsUnmoved(t, data, 0, env);
    case CallRecv(max) => CallsUnmoved(t, [], max, env);
    case CallClose => CallsUnmoved(t, [], 0, env);
    case TimerTick => TickUnmoved(t, env);
    case Arrive(s) => OtherSegment(t, s, env);
  }

  // ----- runs -----

  /** The newest place among x0 and the segments accepted in steps m to n. */
  function Front(ts: seq<Tcb>, inputs: seq<Input>, places: seq<Place>, m: nat, n: nat, x0: Place): Place
    requires m <= n <= |inputs| == |places| && |ts| == |inputs| + 1
    decreases n
  {
    if n == m then x0
    else
      var x := Front(ts, inputs, places, m, n - 1, x0);
      if Accepted(ts[n - 1], inputs[n - 1]) && !Before(places[n - 1], x) then places[n - 1] else x
  }

  /** Every accepted segment is at its place, less than half the sequence space from the
      newest one before it. */
  ghost predicate Placed(ts: seq<Tcb>, inputs: seq<Input>, places: seq<Place>, m: nat, n: nat, x0: Place)
    requires m <= n <= |inputs| == |places| && |ts| == |inputs| + 1
  {
    forall k {:trigger places[k]} :: m <= k < n && Accepted(ts[k], inputs[k]) ==>
      && At(inputs[k].s.seqNum, inputs[k].s.ackNum, places[k])
      && Comparable(Front(ts, inputs, places, m, k, x0), places[k])
  }

  /** Segment j is the last of the greatest of those accepted in steps m to n; none of them
      is as new as x0 if j is negative. */
  ghost predicate IsNewest(ts: seq<Tcb>, inputs: seq<Input>, places: seq<Place>, m: nat, n: nat, x0: Place, j: int)
    requires m <= n <= |inputs| == |places| && |ts| == |inputs| + 1
  {
    if j < 0 then forall k :: m <= k < n && Accepted(ts[k], inputs[k]) ==> Before(places[k], x0)
    else
      && m <= j < n && Accepted(ts[j], inputs[j]) && !Before(places[j], x0)
      && forall k :: m <= k < n && Accepted(ts[k], inputs[k]) ==>
           !Before(places[j], places[k]) && (k > j ==> Before(places[k], places[j]))
  }

  /** The window of accepted segment k, as it was scaled. */
  function Offer(ts: seq<Tcb>, inputs: seq<Input>, k: nat): u32
    requires k < |inputs| < |ts| && inputs[k].Arrive?
  {
    ScaleWindow(inputs[k].s.window, ts[k].neg.sndShift)
  }

  /** Past the handshake and not back in LISTEN. */
  ghost predicate Connected(ts: seq<Tcb>, m: nat, n: nat)
    requires m <= n < |ts|
  {
    forall k :: m <= k <= n ==> ts[k].state != Listen && ts[k].state != SynSent
  }

  /** One step of a connection whose SND.WND came from place x. */
  predicate StepsWindow(t: Tcb, i: Input, t': Tcb, x: Place, y: Place) {
    if Accepted(t, i) then TakesWindow(t, i.s, t', x, y) else Unmoved(t, t')
  }

  lemma {:induction false} StepWindow(t: Tcb, i: Input, env: Env, t': Tcb, x: Place, y: Place)
    requires FreeOk(t) && IsStep(t, i, env, t') && t.state != Listen && t.state != SynSent
    requires Accepted(t, i) ==>
      At(t.snd.wl1, t.snd.wl2, x) && At(i.s.seqNum, i.s.ackNum, y) && Comparable(x, y)
    ensures StepsWindow(t, i, t', x, y)
  {
    if Accepted(t, i) { ArrivalTakesWindow(t, i.s, env, x, y); } else { StepUnmoved(t, i, env, t'); }
  }

  lemma {:induction false} WindowAt(s: Start, ts: seq<Tcb>, inputs: seq<Input>, envs: seq<Env>, k: nat, x: Place,
                                    y: Place)
    requires RunFrom(s, ts, inputs, envs) && k < |inputs| && ts[k].state != Listen && ts[k].state != SynSent
    requires Accepted(ts[k], inputs[k]) ==>
      At(ts[k].snd.wl1, ts[k].snd.wl2, x) && At(inputs[k].s.seqNum, inputs[k].s.ackNum, y) && Comparable(x, y)
    ensures StepsWindow(ts[k], inputs[k], ts[k + 1], x, y)
  {
    ReachableOk(s, ts, inputs, envs, k);
    assert StepAt(ts, inputs, envs, k);
    StepWindow(ts[k], inputs[k], envs[k], ts[k + 1], x, y);
  }

  lemma {:induction false} NewestGrows(ts: seq<Tcb>, inputs: seq<Input>, places: seq<Place>, m: nat, n: nat, x0: Place,
                                       j: int)
    requires m <= n < |inputs| == |places| && |ts| == |inputs| + 1
    requires IsNewest(ts, inputs, places, m, n, x0, j)
    requires Front(ts, inputs, places, m, n, x0) == if j < 0 then x0 else places[j]
    ensures var x := Front(ts, inputs, places, m, n, x0);
      var j' := if Accepted(ts[n], inputs[n]) && !Before(places[n], x) then n else j;
      && IsNewest(ts, inputs, places, m, n + 1, x0, j')
      && Front(ts, inputs, places, m, n + 1, x0) == if j' < 0 then x0 else places[j']
  {
  }

  /** What NewestWindow claims after n steps. */
  ghost predicate NewestIs(ts: seq<Tcb>, inputs: seq<Input>, places: seq<Place>, m: nat, n: nat, x0: Place, j: int)
    requires m <= n <= |inputs| == |places| && |ts| == |inputs| + 1
  {
    && IsNewest(ts, inputs, places, m, n, x0, j)
    && (if j < 0 then WindowIs(ts[n].snd, ts[m].snd.wnd, ts[m].snd.wl1, ts[m].snd.wl2)
        else WindowIs(ts[n].snd, Offer(ts, inputs, j), inputs[j].s.seqNum, inputs[j].s.ackNum))
    && Front(ts, inputs, places, m, n, x0) == if j < 0 then x0 else places[j]
  }

  lemma {:induction false} NewestStep(ts: seq<Tcb>, inputs: seq<Input>, places: seq<Place>, m: nat, n: nat, x0: Place,
                                      j: int)
    returns (j': int)
    requires m <= n < |inputs| == |places| && |ts| == |inputs| + 1
    requires NewestIs(ts, inputs, places, m, n, x0, j)
    requires StepsWindow(ts[n], inputs[n], ts[n + 1], Front(ts, inputs, places, m, n, x0), places[n])
    ensures NewestIs(ts, inputs, places, m, n + 1, x0, j')
  {
    var x := Front(ts, inputs, places, m, n, x0);
    j' := if Accepted(ts[n], inputs[n]) && !Before(places[n], x) then n else j;
    NewestGrows(ts, inputs, places, m, n, x0, j);
  }

  /** Where SND.WND came from, as a place. */
  lemma {:induction false} FrontAt(ts: seq<Tcb>, inputs: seq<Input>, places: seq<Place>, m: nat, n: nat, x0: Place,
                                   j: int)
    requires m <= n < |inputs| == |places| && |ts| == |inputs| + 1
    requires NewestIs(ts, inputs, places, m, n, x0, j) && Placed(ts, inputs, places, m, n + 1, x0)
    requires At(ts[m].snd.wl1, ts[m].snd.wl2, x0)
    ensures At(ts[n].snd.wl1, ts[n].snd.wl2, Front(ts, inputs, places, m, n, x0))
    ensures Accepted(ts[n], inputs[n]) ==>
      && At(inputs[n].s.seqNum, inputs[n].s.ackNum, places[n])
      && Comparable(Front(ts, inputs, places, m, n, x0), places[n])
  {
    if j >= 0 { assert At(inputs[j].s.seqNum, inputs[j].s.ackNum, places[j]); }
    assert places[n] == places[n];
  }

  lemma {:induction false} Earlier(ts: seq<Tcb>, inputs: seq<Input>, places: seq<Place>, m: nat, n: nat, x0: Place)
    requires m < n <= |inputs| == |places| && |ts| == |inputs| + 1
    requires Connected(ts, m, n) && Placed(ts, inputs, places, m, n, x0)
    ensures Connected(ts, m, n - 1) && Placed(ts, inputs, places, m, n - 1, x0)
    ensures ts[n - 1].state != Listen && ts[n - 1].state != SynSent
  {
  }

  lemma {:induction false} NewestAtFirst(ts: seq<Tcb>, inputs: seq<Input>, places: seq<Place>, m: nat, x0: Place)
    returns (j: int)
    requires m <= |inputs| == |places| && |ts| == |inputs| + 1
    ensures NewestIs(ts, inputs, places, m, m, x0, j)
  {
    j := -1;
  }

  lemma {:induction false} NewestNext(s: Start, ts: seq<Tcb>, inputs: seq<Input>, envs: seq<Env>, places: seq<Place>,
                                      m: nat, n: nat, x0: Place, j: int)
    returns (j': int)
    requires RunFrom(s, ts, inputs, envs) && m <= n < |inputs| == |places|
    requires At(ts[m].snd.wl1, ts[m].snd.wl2, x0) && ts[n].state != Listen && ts[n].state != SynSent
    requires NewestIs(ts, inputs, places, m, n, x0, j) && Placed(ts, inputs, places, m, n + 1, x0)
    ensures NewestIs(ts, inputs, places, m, n + 1, x0, j')
  {
    FrontAt(ts, inputs, places, m, n, x0, j);
    WindowAt(s, ts, inputs, envs, n, Front(ts, inputs, places, m, n, x0), places[n]);
    j' := NewestStep(ts, inputs, places, m, n, x0, j);
  }

  lemma {:induction false} NewestHolds(s: Start, ts: seq<Tcb>, inputs: seq<Input>, envs: seq<Env>,
                                       places: seq<Place>, m: nat, n: nat, x0: Place) returns (j: int)
    requires RunFrom(s, ts, inputs, envs) && m <= n <= |inputs| == |places|
    requires Connected(ts, m, n) && At(ts[m].snd.wl1, ts[m].snd.wl2, x0)
    requires Placed(ts, inputs, places, m, n, x0)
    ensures NewestIs(ts, inputs, places, m, n, x0, j)
    decreases n
  {
    if n == m {
      j := NewestAtFirst(ts, inputs, places, m, x0);
    } else {
      Earlier(ts, inputs, places, m, n, x0);
      j := NewestHolds(s, ts, inputs, envs, places, m, n - 1, x0);
      j := NewestNext(s, ts, inputs, envs, places, m, n - 1, x0, j);
    }
  }

  /** SND.WND over a run: of all segments accepted since state m, it is the window of the
      newest one, the last of them if several are equally new; if all were older than what
      SND.WND then came from, it is what it was. */
  lemma {:induction false} NewestWindow(s: Start, ts: seq<Tcb>, inputs: seq<Input>, envs: seq<Env>,
                                        places: seq<Place>, m: nat, n: nat, x0: Place) returns (j: int)
    requires RunFrom(s, ts, inputs, envs) && m <= n <= |inputs| == |places|
    requires Connected(ts, m, n) && At(ts[m].snd.wl1, ts[m].snd.wl2, x0)
    requires Placed(ts, inputs, places, m, n, x0)
    ensures IsNewest(ts, inputs, places, m, n, x0, j)
    ensures if j < 0 then WindowIs(ts[n].snd, ts[m].snd.wnd, ts[m].snd.wl1, ts[m].snd.wl2)
      else WindowIs(ts[n].snd, Offer(ts, inputs, j), inputs[j].s.seqNum, inputs[j].s.ackNum)
  {
    j := NewestHolds(s, ts, inputs, envs, places, m, n, x0);
  }

  /** The persist timer over a run: an accepted segment with a positive window that is not
      older than what SND.WND came from leaves it stopped; an older one leaves a running
      timer as it is while data is unsent, and does not start it while the window is open. */
  lemma {:induction false} WindowStopsPersist(s: Start, ts: seq<Tcb>, inputs: seq<Input>, envs: seq<Env>, k: nat,
                                              x: Place, y: Place)
    requires RunFrom(s, ts, inputs, envs) && k < |inputs| && Accepted(ts[k], inputs[k])
    requires At(ts[k].snd.wl1, ts[k].snd.wl2, x) && At(inputs[k].s.seqNum, inputs[k].s.ackNum, y) && Comparable(x, y)
    ensures var t, t', w := ts[k], ts[k + 1], Offer(ts, inputs, k);
      if Before(y, x) then
        && t'.snd.wnd == t.snd.wnd && (t.persist.armed && Unsent(t'.snd) ==> t'.persist == t.persist)
        && (t.snd.wnd > 0 ==> !t'.persist.armed)
      else t'.snd.wnd == w && (w > 0 ==> !t'.persist.armed)
  {
    ReachableOk(s, ts, inputs, envs, k);
    WindowAt(s, ts, inputs, envs, k, x, y);
  }

  lemma {:induction false} StepLargest(t: Tcb, i: Input, env: Env, t': Tcb)
    requires FreeOk(t) && IsStep(t, i, env, t') && t.state != Listen && t.state != SynSent
    ensures t'.snd.maxWnd ==
      if Accepted(t, i) then Max(t.snd.maxWnd, ScaleWindow(i.s.window, t.neg.sndShift)) else t.snd.maxWnd
  {
    if Accepted(t, i) { ArrivalLargest(t, i.s, env); } else { StepUnmoved(t, i, env, t'); }
  }

  lemma {:induction false} LargestAt(s: Start, ts: seq<Tcb>, inputs: seq<Input>, envs: seq<Env>, k: nat)
    requires RunFrom(s, ts, inputs, envs) && k < |inputs| && ts[k].state != Listen && ts[k].state != SynSent
    ensures ts[k + 1].snd.maxWnd ==
      if Accepted(ts[k], inputs[k]) then Max(ts[k].snd.maxWnd, Offer(ts, inputs, k)) else ts[k].snd.maxWnd
  {
    ReachableOk(s, ts, inputs, envs, k);
    assert StepAt(ts, inputs, envs, k);
    StepLargest(ts[k], inputs[k], envs[k], ts[k + 1]);
  }

  /** MAX.SND.WND is the largest of what it was and of all windows accepted since, old ones
      included. */
  lemma {:induction false} LargestWindow(s: Start, ts: seq<Tcb>, inputs: seq<Input>, envs: seq<Env>, m: nat, n: nat)
    requires RunFrom(s, ts, inputs, envs) && m <= n <= |inputs| && Connected(ts, m, n)
    ensures ts[m].snd.maxWnd <= ts[n].snd.maxWnd
    ensures forall k :: m <= k < n && Accepted(ts[k], inputs[k]) ==> Offer(ts, inputs, k) <= ts[n].snd.maxWnd
    ensures ts[n].snd.maxWnd == ts[m].snd.maxWnd
      || exists k :: m <= k < n && Accepted(ts[k], inputs[k]) && Offer(ts, inputs, k) == ts[n].snd.maxWnd
    decreases n
  {
    if m < n {
      LargestWindow(s, ts, inputs, envs, m, n - 1);
      LargestAt(s, ts, inputs, envs, n - 1);
    }
  }

  // ----- where it starts -----

  /** The SYN in LISTEN and the SYN-ACK in SYN-SENT set the window, unscaled. */
  lemma {:induction false} HandshakeWindow(t: Tcb, s: Segment, env: Env)
    requires (t.state == Listen && OnSegment(t, s, env).state == SynReceived)
      || (t.state == SynSent && OnSegment(t, s, env).state == Established)
    ensures var t' := OnSegment(t, s, env);
      WindowIs(t'.snd, s.window, s.seqNum, s.ackNum) && t'.snd.maxWnd == Max(t.snd.maxWnd, s.window)
  {
  }

  /** A simultaneous open does not: SND.WND, WL1 and WL2 stay as they were.  From their
      initial zeros the first positive window accepted counts as newer exactly if its
      sequence number is in the lower half of the number space. */
  lemma {:induction false} SimultaneousOpenWindow(t: Tcb, s: Segment, env: Env)
    requires t.state == SynSent && OnSegment(t, s, env).state == SynReceived
    ensures WindowKept(t.snd, OnSegment(t, s, env).snd)
  {
  }

  lemma {:induction false} FirstWindowIff(t: Tcb, s: Segment, env: Env)
    requires Accepted(t, Arrive(s)) && WindowIs(t.snd, 0, 0, 0) && s.window > 0
    ensures OnSegment(t, s, env).snd.wnd == ScaleWindow(s.window, t.neg.sndShift)
      <==> 0 < s.seqNum < HALF || (s.seqNum == 0 && s.ackNum < HALF)
  {
    ArrivalUpdates(t, s, env);
    ScaledPositive(s.window, t.neg.sndShift);
  }

  lemma {:induction false} ScaledPositive(w: u16, n: Shift)
    requires w > 0
    ensures ScaleWindow(w, n) > 0
  {
  }
}
