/** The receiver's silly-window avoidance: the window follows the reader, and opens only by
    a useful amount (section 4.2.3.3 of RFC 1122; tcp/transport/flowcontrol.go:11-35,
    data.go:141-161). */
module WindowUpdates {
  import opened SeqNum
  import opened Reassembly
  import opened Segments
  import opened Tcb
  import opened StateMachine
  import opened Frames
  import opened SenderSteps
  import opened FlowControl
  import opened Runs
  import opened ForgedText
  import opened Nagle
  import Lifecycle

  /** Free buffer space the window does not offer to the peer. */
  function Unoffered(r: Receiver): int {
    BuffCap(r) - |r.buf| - r.wnd
  }

  /** The smallest opening worth telling: a full segment or half the buffer. */
  function Worthwhile(t: Tcb): nat {
    Min(BuffCap(t.rcv) / 2, FullSegment(t.snd.mss))
  }

  /** The window update: a bare ACK of RCV.NXT that carries the new window. */
  predicate Announces(a: Segment, t: Tcb) {
    && a.flags == F_ACK && a.payload == [] && a.seqNum == t.snd.nxt && a.ackNum == t.rcv.nxt
    && a.window == Min(ShiftRight(t.rcv.wnd, t.neg.rcvShift), 65535)
  }

  /** Taking bytes from the buffer: the window offers all free space if that adds a
      worthwhile amount, and stays as it is otherwise. */
  lemma {:induction false} ReadOpens(r: Receiver, n: nat, mss: u32)
    requires n <= |r.buf|
    ensures var r' := Read(r, n, mss);
      var opening := Unoffered(r) + n;
      && r'.buf == r.buf[n..] && r'.nxt == r.nxt && BuffCap(r') == BuffCap(r)
      && r'.wnd == r.wnd + if opening > 0 && opening >= Min(BuffCap(r) / 2, mss) then opening else 0
  {
  }

  /** Recv that returns data: either all free space is offered, or less than a worthwhile
      amount is not; and exactly when the window grew, a synchronized connection tells the
      peer with one ACK. */
  lemma {:induction false} RecvOpens(t: Tcb, max: nat, env: Env)
    requires t.rcv.buf != []
    ensures var t', n := Recv(t, max, env), Min(max, |t.rcv.buf|);
      var opening := Unoffered(t.rcv) + n;
      && t'.rcv.buf == t.rcv.buf[n..]
      && t'.rcv.wnd == t.rcv.wnd + (if opening > 0 && opening >= Worthwhile(t) then opening else 0)
      && (if t'.rcv.wnd > t.rcv.wnd && Synchronized(t.state) then
            |t'.wire| == |t.wire| + 1 && t'.wire[..|t.wire|] == t.wire && Announces(t'.wire[|t.wire|], t')
          else t'.wire == t.wire)
  {
    ReadOpens(t.rcv, Min(max, |t.rcv.buf|), EffMss(t.snd));
  }

  // ----- every state -----

  /** What is not offered is less than a worthwhile opening; before the connection is
      established everything is offered. */
  predicate Offers(t: Tcb) {
    && 0 <= Unoffered(t.rcv) < Max(1, Worthwhile(t))
    && (Early(t.state) ==> t.rcv.buf == [] && Unoffered(t.rcv) == 0)
  }

  lemma {:induction false} RecvOffers(t: Tcb, max: nat, env: Env)
    requires Offers(t)
    ensures Offers(Recv(t, max, env))
  {
    RecvReads(t, max, env);
    RecvFrame(t, max, env);
    if t.rcv.buf != [] { ReadOpens(t.rcv, Min(max, |t.rcv.buf|), EffMss(t.snd)); }
  }

  lemma {:induction false} OpeningOffers(t: Tcb, s: Segment, env: Env)
    requires Offers(t) && (t.state == Closed || t.state == Listen || t.state == SynSent)
    ensures Offers(OnSegment(t, s, env))
  {
    if t.state == Closed { ClosedFacts(t, s, env); Lifecycle.ClosedState(t, s, env); }
    else if t.state == Listen { ListenFacts(t, s, env); RstFacts(t, s.ackNum, env); }
    else { SynSentFacts(t, s, env); RstFacts(t, s.ackNum, env); }
  }

  /** A step that leaves the receive side alone. */
  lemma {:induction false} SameOffers(t: Tcb, t': Tcb)
    requires Offers(t) && t'.rcv == t.rcv && SettingsKept(t, t') && (Early(t'.state) ==> Early(t.state))
    ensures Offers(t')
  {
  }

  /** An arrival keeps the sum of unread bytes and window. */
  lemma {:induction false} ArrivalOffers(t: Tcb, k: nat, s: Segment, env: Env, t': Tcb)
    requires Offers(t) && DataOk(t, k) && FreeOk(t) && t' == OnSegment(t, s, env)
    requires BuffCap(t.rcv) + k + Bit(FinTaken(t, Arrive(s), t')) <= Reassembly.MAX_WINDOW
    requires t.state == SynReceived || Synchronized(t.state)
    ensures Offers(t')
  {
    ArrivalLoose(t, k, s, env, t');
    ArrivalCap(t, s, env);
    SynchronizedSettings(t, s, env);
    EarlyStays(t, s, env);
  }

  /** Only a reset leaves a connection short of established once its ACK is acceptable. */
  lemma {:induction false} EarlyStays(t: Tcb, s: Segment, env: Env)
    requires t.rcv.wnd <= Reassembly.MAX_WINDOW && t.state != Listen && t.state != SynSent
    ensures var t' := OnSynchronized(t, s, env);
      Early(t'.state) ==> Early(t.state) && t'.rcv == t.rcv
  {
    if s.flags.rst { RstKeepsReceiver(t, s, env); Lifecycle.RstFollows(t, s, env); }
    else if Lifecycle.TakesAck(t, s) { TakenState(t, s, env); }
    else { Lifecycle.OtherwiseQuiet(t, s, env); }
  }

  lemma {:induction false} RstKeepsReceiver(t: Tcb, s: Segment, env: Env)
    requires s.flags.rst
    ensures OnSynchronized(t, s, env).rcv == t.rcv
  {
  }

  lemma {:induction false} TakenState(t: Tcb, s: Segment, env: Env)
    requires Lifecycle.TakesAck(t, s) && t.state != Listen && t.state != SynSent
    ensures !Early(OnSynchronized(t, s, env).state)
  {
    TakenIs(t, s, env);
    Lifecycle.TimestampKeepsState(t, s);
    var t1 := UpdateTsRecent(t, s);
    Lifecycle.HandleAckState(t1, s, env);
    Lifecycle.TextFinState(HandleAck(t1, s, env), s, env);
  }

  lemma {:induction false} StepOffers(t: Tcb, k: nat, i: Input, env: Env, t': Tcb)
    requires Offers(t) && DataOk(t, k) && FreeOk(t) && IsStep(t, i, env, t')
    requires BuffCap(t.rcv) + k + Bit(FinTaken(t, i, t')) <= Reassembly.MAX_WINDOW
    ensures Offers(t')
  {
    match i
    case CallSend(data) => SendFacts(t, data, env); SendSettings(t, data, env); SameOffers(t, t');
    case CallRecv(max) => RecvOffers(t, max, env);
    case CallClose => CloseFacts(t, env); CloseSettings(t, env); SameOffers(t, t');
    case TimerTick => TickFacts(t, env); TickSettings(t, env); SameOffers(t, t');
    case Arrive(s) =>
      if t.state == Closed || t.state == Listen || t.state == SynSent { OpeningOffers(t, s, env); }
      else { ArrivalOffers(t, k, s, env, t'); }
  }

  lemma {:induction false} CloseSettings(t: Tcb, env: Env)
    ensures SettingsKept(t, Close(t, env))
  {
  }

  lemma {:induction false} OpenedOffers(s: Start)
    ensures Offers(Opened(s))
  {
    OpenFacts(NewTcb(s.iss, s.buffTotal, s.noDelay, s.timeWait, s.epoch), s.iss, s.env);
  }

  lemma {:induction false} OffersAt(s: Start, ts: seq<Tcb>, inputs: seq<Input>, envs: seq<Env>, k: nat)
    requires RunFrom(s, ts, inputs, envs) && k < |inputs| && Offers(ts[k])
    requires BuffCap(ts[0].rcv) + FinsTaken(ts, inputs, k + 1) <= Reassembly.MAX_WINDOW
    ensures Offers(ts[k + 1])
  {
    ReachableOk(s, ts, inputs, envs, k);
    AnyArrivalsConserve(s, ts, inputs, envs, k);
    assert StepAt(ts, inputs, envs, k);
    StepOffers(ts[k], FinsTaken(ts, inputs, k), inputs[k], envs[k], ts[k + 1]);
  }

  /** The window follows the reader: in every state of every run, whatever arrives, the free
      buffer space that is not offered to the peer is less than a full segment and less than
      half the buffer (or nothing). */
  lemma {:induction false} WindowFollowsReader(s: Start, ts: seq<Tcb>, inputs: seq<Input>, envs: seq<Env>, n: nat)
    requires RunFrom(s, ts, inputs, envs) && n < |ts|
    requires BuffCap(ts[0].rcv) + FinsTaken(ts, inputs, n) <= Reassembly.MAX_WINDOW
    ensures var t := ts[n];
      0 <= BuffCap(t.rcv) - |t.rcv.buf| - t.rcv.wnd < Max(1, Min(BuffCap(t.rcv) / 2, FullSegment(t.snd.mss)))
    ensures Offers(ts[n])
  {
    if n == 0 {
      OpenedOffers(s);
    } else {
      WindowFollowsReader(s, ts, inputs, envs, n - 1);
      OffersAt(s, ts, inputs, envs, n - 1);
    }
  }

  // ----- what the peer reads -----

  lemma {:induction false} ShiftLeftIs(w: nat, n: nat)
    ensures ShiftLeft(w, n) == w * Pow2(n)
  {
    if n > 0 {
      ShiftLeftIs(w, n - 1);
      assert w * (2 * Pow2(n - 1)) == 2 * (w * Pow2(n - 1));
    }
  }

  lemma {:induction false} HalfStep(v: nat, p: nat)
    ensures v / 2 * (2 * p) <= v * p && (v + 1) * p <= (v / 2 + 1) * (2 * p)
  {
    var h, r := v / 2, v % 2;
    assert v == 2 * h + r;
    assert v * p == 2 * (h * p) + r * p;
    assert (v + 1) * p == v * p + p && (h + 1) * (2 * p) == 2 * (h * p) + 2 * p && h * (2 * p) == 2 * (h * p);
    if r == 1 { assert r * p == p; } else { assert r * p == 0; }
  }

  lemma {:induction false} ShiftRightIs(w: u32, n: nat)
    ensures var v: nat := ShiftRight(w, n); v * Pow2(n) <= w < (v + 1) * Pow2(n)
  {
    if n > 0 {
      ShiftRightIs(w, n - 1);
      HalfStep(ShiftRight(w, n - 1), Pow2(n - 1));
    }
  }

  lemma {:induction false} Scaled(a: nat, b: nat, p: nat)
    requires a <= b
    ensures a * p <= b * p && (b + 1) * p == b * p + p
  {
  }

  /** The window field, scaled back by the peer with the same shift, never exceeds RCV.WND,
      and unless it is saturated falls short of it by less than one unit of the shift; a SYN
      is not scaled. */
  lemma {:induction false} FieldIsWindow(t: Tcb, flags: Flags)
    ensures var f := WindowField(t, flags);
      if flags.syn then f == Min(t.rcv.wnd, 65535)
      else
        && ScaleWindow(f, t.neg.rcvShift) <= t.rcv.wnd
        && (f < 65535 ==> t.rcv.wnd - ScaleWindow(f, t.neg.rcvShift) < Pow2(t.neg.rcvShift))
  {
    var w, n := t.rcv.wnd, t.neg.rcvShift;
    ShiftRightIs(w, n);
    ShiftLeftIs(WindowField(t, flags), n);
    if !flags.syn { Scaled(WindowField(t, flags), ShiftRight(w, n), Pow2(n)); }
  }
}
