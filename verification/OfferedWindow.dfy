/** The window a sender works with is one its peer offered: in every run of two connected
    endpoints SND.WND, SND.WL1 and SND.WL2 are those of one segment the peer wrote
    (tcp/transport/statemachine.go:868-900). */
module OfferedWindow {
  import opened SeqNum
  import opened Reassembly
  import opened Segments
  import opened Tcb
  import opened StateMachine
  import opened Frames
  import opened SenderSteps
  import opened Log
  import opened Runs
  import opened Nagle
  import opened PeerWindow
  import opened Positions
  import opened EndToEnd
  import Lifecycle

  lemma {:induction false} EventWire(t: Tcb, e: Event, env: Env)
    requires e.Do? ==> Allowed(t, e.i)
    ensures t.wire <= After(t, e, env).wire
  {
    match e
    case OpenActive(iss) => OpensWire(t, iss, env);
    case OpenPassive => OpensWire(t, 0, env);
    case Do(i) => StepWrites(t, i, env, After(t, e, env));
  }

  lemma {:induction false} OpensWire(t: Tcb, iss: u32, env: Env)
    ensures t.wire <= ActiveOpen(t, iss, env).wire && t.wire <= PassiveOpen(t).wire
  {
  }

  // ----- where the window comes from -----

  /** SND.WND is what segment o offers; a SYN's window is not scaled. */
  predicate From(t: Tcb, o: Segment) {
    && !o.flags.rst
    && WindowIs(t.snd, if o.flags.syn then o.window else ScaleWindow(o.window, t.neg.sndShift), o.seqNum, o.ackNum)
  }

  /** Past the handshake the window is still the initial one or comes from a segment of the
      peer's; before it, it is the initial one. */
  ghost predicate Offered(t: Tcb, g: Pos, wire: seq<Segment>) {
    && (t.state == SynSent || g.nxt == 0 ==> WindowIs(t.snd, 0, 0, 0))
    && (t.state == SynReceived || Synchronized(t.state) ==>
          WindowIs(t.snd, 0, 0, 0) || exists o :: o in wire && From(t, o))
  }

  lemma {:induction false} MoreOffered(t: Tcb, g: Pos, wire: seq<Segment>, wire': seq<Segment>)
    requires Offered(t, g, wire) && wire <= wire'
    ensures Offered(t, g, wire')
  {
    if (t.state == SynReceived || Synchronized(t.state)) && !WindowIs(t.snd, 0, 0, 0) {
      var o :| o in wire && From(t, o);
      assert o in wire';
    }
  }

  lemma {:induction false} KeptOffered(t: Tcb, g: Pos, t': Tcb, g': Pos, wire: seq<Segment>)
    requires Offered(t, g, wire) && (g'.nxt == 0 ==> g.nxt == 0)
    requires WindowIs(t'.snd, t.snd.wnd, t.snd.wl1, t.snd.wl2)
    requires WindowIs(t.snd, 0, 0, 0) || t'.neg.sndShift == t.neg.sndShift
    requires t'.state == SynSent ==> t.state == SynSent || g.nxt == 0
    requires t'.state == SynReceived || Synchronized(t'.state) ==>
      t.state == SynReceived || Synchronized(t.state) || WindowIs(t.snd, 0, 0, 0)
    ensures Offered(t', g', wire)
  {
    if (t'.state == SynReceived || Synchronized(t'.state)) && !WindowIs(t.snd, 0, 0, 0) {
      var o :| o in wire && From(t, o);
      assert From(t', o);
    }
  }

  lemma {:induction false} NewOffered(t': Tcb, g': Pos, wire: seq<Segment>, o: Segment)
    requires o in wire && From(t', o) && g'.nxt >= 1 && t'.state != SynSent
    ensures Offered(t', g', wire)
  {
  }

  lemma {:induction false} UpdateEither(t: Tcb, s: Segment)
    ensures var t' := UpdateSendWindow(t, s);
      WindowIs(t'.snd, ScaleWindow(s.window, t.neg.sndShift), s.seqNum, s.ackNum)
      || WindowIs(t'.snd, t.snd.wnd, t.snd.wl1, t.snd.wl2)
  {
  }

  lemma {:induction false} AcceptedEither(t: Tcb, s: Segment, env: Env)
    requires Accepted(t, Arrive(s))
    ensures var t' := OnSegment(t, s, env);
      && t'.neg.sndShift == t.neg.sndShift
      && (From(t', s) || WindowIs(t'.snd, t.snd.wnd, t.snd.wl1, t.snd.wl2))
  {
    ArrivalUpdates(t, s, env);
    UpdateEither(t, s);
  }

  lemma {:induction false} AcceptedOffered(t: Tcb, g: Pos, wire: seq<Segment>, s: Segment, env: Env, g': Pos)
    requires Offered(t, g, wire) && s in wire && Accepted(t, Arrive(s)) && 1 <= g.nxt && 1 <= g'.nxt
    ensures Offered(OnSegment(t, s, env), g', wire)
  {
    var t' := OnSegment(t, s, env);
    AcceptedEither(t, s, env);
    OtherState(t, s, env);
    if WindowIs(t'.snd, t.snd.wnd, t.snd.wl1, t.snd.wl2) { KeptOffered(t, g, t', g', wire); }
    else { NewOffered(t', g', wire, s); }
  }

  lemma {:induction false} ListenOffered(t: Tcb, g: Pos, wire: seq<Segment>, s: Segment, env: Env, g': Pos)
    requires Offered(t, g, wire) && s in wire && t.state == Listen
    requires if OnListen(t, s, env).state == SynReceived then g'.nxt == 1 else g'.nxt == 0 ==> g.nxt == 0
    ensures Offered(OnListen(t, s, env), g', wire)
  {
    var t' := OnListen(t, s, env);
    ListenFacts(t, s, env);
    if t'.state == SynReceived { assert From(t', s); } else { KeptOffered(t, g, t', g', wire); }
  }

  lemma {:induction false} SynSentOffered(t: Tcb, g: Pos, wire: seq<Segment>, s: Segment, env: Env, g': Pos)
    requires Offered(t, g, wire) && s in wire && t.state == SynSent && 1 <= g'.nxt
    ensures Offered(OnSynSent(t, s, env), g', wire)
  {
    var t' := OnSynSent(t, s, env);
    SynSentFacts(t, s, env);
    if t'.state == Established { assert From(t', s); } else { KeptOffered(t, g, t', g', wire); }
  }

  lemma {:induction false} ArrivalOffered(t: Tcb, g: Pos, wire: seq<Segment>, s: Segment, env: Env, g': Pos)
    requires Offered(t, g, wire) && s in wire && t.rcv.wnd <= Reassembly.MAX_WINDOW
    requires t.state == SynSent || t.state == SynReceived || Synchronized(t.state) ==> 1 <= g.nxt <= g'.nxt
    requires if Handshakes(t, OnSegment(t, s, env)) then g'.nxt == 1 else g'.nxt == 0 ==> g.nxt == 0
    ensures Offered(OnSegment(t, s, env), g', wire)
  {
    var t' := OnSegment(t, s, env);
    if t.state == Listen { ListenOffered(t, g, wire, s, env, g'); }
    else if t.state == SynSent { SynSentOffered(t, g, wire, s, env, g'); }
    else if Accepted(t, Arrive(s)) { AcceptedOffered(t, g, wire, s, env, g'); }
    else {
      OtherSegment(t, s, env);
      OtherState(t, s, env);
      KeptOffered(t, g, t', g', wire);
    }
  }

  lemma {:induction false} OtherState(t: Tcb, s: Segment, env: Env)
    requires t.state != Listen && t.state != SynSent
    ensures var st := OnSegment(t, s, env).state;
      st != SynSent && (st == SynReceived || Synchronized(st) ==> t.state == SynReceived || Synchronized(t.state))
  {
    if t.state == Closed { Lifecycle.ClosedState(t, s, env); } else { Lifecycle.SynchronizedState(t, s, env); }
  }

  lemma {:induction false} CallOffered(t: Tcb, g: Pos, wire: seq<Segment>, e: Event, env: Env, g': Pos)
    requires Offered(t, g, wire) && (g'.nxt == 0 ==> g.nxt == 0)
    requires if e.Do? then Allowed(t, e.i) && !e.i.Arrive? else t.state == Closed && g.nxt == 0
    ensures Offered(After(t, e, env), g', wire)
  {
    var t' := After(t, e, env);
    match e
    case OpenActive(iss) => OpensUnmoved(t, iss, env); OpenFacts(t, iss, env); KeptOffered(t, g, t', g', wire);
    case OpenPassive => OpensUnmoved(t, 0, env); OpenFacts(t, 0, env); KeptOffered(t, g, t', g', wire);
    case Do(i) =>
      match i
      case CallSend(data) =>
        CallsUnmoved(t, data, 0, env); SendFacts(t, data, env); KeptOffered(t, g, t', g', wire);
      case CallRecv(max) =>
        CallsUnmoved(t, [], max, env); Lifecycle.RecvState(t, max, env); KeptOffered(t, g, t', g', wire);
      case CallClose => CallsUnmoved(t, [], 0, env); CloseKept(t, env); KeptOffered(t, g, t', g', wire);
      case TimerTick => TickUnmoved(t, env); TickFacts(t, env); KeptOffered(t, g, t', g', wire);
  }

  lemma {:induction false} OpensUnmoved(t: Tcb, iss: u32, env: Env)
    ensures Unmoved(t, ActiveOpen(t, iss, env)) && Unmoved(t, PassiveOpen(t))
  {
  }

  lemma {:induction false} CloseKept(t: Tcb, env: Env)
    ensures var st := Close(t, env).state;
      && (st == SynSent ==> t.state == SynSent)
      && (st == SynReceived || Synchronized(st) ==> t.state == SynReceived || Synchronized(t.state))
  {
  }

  // ----- both sides -----

  lemma {:induction false} OpenNumbered(t: Tcb, g: Pos)
    requires Sound(t, g)
    ensures t.state == SynSent || t.state == SynReceived || Synchronized(t.state) ==> 1 <= g.nxt
  {
  }

  ghost predicate BothOffered(sys: System) {
    Offered(sys.a.t, sys.a.pos, sys.b.t.wire) && Offered(sys.b.t, sys.b.pos, sys.a.t.wire)
  }

  lemma {:induction false} TrackGrows(g: Pos, t: Tcb, t': Tcb, e: Event)
    ensures var g' := Track(g, t, t', e);
      && (g'.nxt == 0 ==> g.nxt == 0)
      && (e.Do? && Handshakes(t, t') ==> g'.nxt == 1)
      && (e.Do? && !Handshakes(t, t') ==> g.nxt <= g'.nxt)
  {
  }

  lemma {:induction false} MoveOffered(x: Side, y: Side, e: Event, env: Env)
    requires SideOk(x.t, x.pos, x.got, y.pos) && Enabled(x, y, e)
    requires Offered(x.t, x.pos, y.t.wire) && Offered(y.t, y.pos, x.t.wire)
    ensures var x' := Move(x, e, env);
      Offered(x'.t, x'.pos, y.t.wire) && Offered(y.t, y.pos, x'.t.wire)
  {
    var t' := After(x.t, e, env);
    EventWire(x.t, e, env);
    MoreOffered(y.t, y.pos, x.t.wire, t'.wire);
    TrackGrows(x.pos, x.t, t', e);
    OpenNumbered(x.t, x.pos);
    if e.Do? && e.i.Arrive? {
      HandshakeFirst(x.t, x.pos);
      ArrivalOffered(x.t, x.pos, y.t.wire, e.i.s, env, Track(x.pos, x.t, t', e));
    } else {
      CallOffered(x.t, x.pos, y.t.wire, e, env, Track(x.pos, x.t, t', e));
    }
  }

  lemma {:induction false} HandshakeFirst(t: Tcb, g: Pos)
    requires Sound(t, g)
    ensures t.state == Listen || t.state == SynSent ==> g.nxt <= 1
  {
  }

  lemma {:induction false} TurnOffered(sys: System, turn: Turn, sys': System)
    requires SystemOk(sys) && BothOffered(sys)
    ensures Next(sys, turn, sys') ==> BothOffered(sys')
  {
    if Next(sys, turn, sys') {
      if turn.atA { MoveOffered(sys.a, sys.b, turn.e, turn.env); } else { MoveOffered(sys.b, sys.a, turn.e, turn.env); }
    }
  }

  lemma {:induction false} NewSideOffered(x: Side, y: Side)
    requires IsNew(x)
    ensures Offered(x.t, x.pos, y.t.wire)
  {
  }

  lemma {:induction false} ExecutionOffered(states: seq<System>, turns: seq<Turn>, n: nat)
    requires IsExecution(states, turns) && n < |states|
    ensures BothOffered(states[n])
  {
    if n == 0 {
      NewSideOffered(states[0].a, states[0].b);
      NewSideOffered(states[0].b, states[0].a);
    } else {
      ExecutionOffered(states, turns, n - 1);
      OfferedAt(states, turns, n - 1);
    }
  }

  lemma {:induction false} OfferedAt(states: seq<System>, turns: seq<Turn>, k: nat)
    requires IsExecution(states, turns) && k < |turns| && BothOffered(states[k])
    ensures BothOffered(states[k + 1])
  {
    ExecutionOk(states, turns, k);
    assert TurnAt(states, turns, k);
    TurnOffered(states[k], turns[k], states[k + 1]);
  }

  /** In every run, whatever the network does, a sender past its handshake works with a
      window its peer offered: SND.WND is the (scaled) window of a segment in the peer's log
      that sits at position p of the peer's stream, and SND.WL1 and SND.WL2 are that
      segment's numbers.  Only a simultaneous open starts without one. */
  lemma {:induction false} WindowIsOffered(states: seq<System>, turns: seq<Turn>, n: nat, atA: bool)
    returns (o: Segment, p: int)
    requires IsExecution(states, turns) && n < |states|
    requires var t := Here(states[n], atA).t;
      (t.state == SynReceived || Synchronized(t.state)) && !WindowIs(t.snd, 0, 0, 0)
    ensures var x, y := Here(states[n], atA), There(states[n], atA);
      && o in y.t.wire && SeqAt(o.seqNum, o.flags, o.payload, y.pos, p)
      && (o.flags.ack ==> AckSound(o.ackNum, y.pos))
      && x.t.snd.wnd == (if o.flags.syn then o.window else ScaleWindow(o.window, x.t.neg.sndShift))
      && x.t.snd.wl1 == o.seqNum && x.t.snd.wl2 == o.ackNum
  {
    ExecutionOffered(states, turns, n);
    ExecutionOk(states, turns, n);
    var x, y := Here(states[n], atA), There(states[n], atA);
    o :| o in y.t.wire && From(x.t, o);
    p := WrittenAt(y, o);
  }

  lemma {:induction false} WrittenAt(y: Side, o: Segment) returns (p: int)
    requires Sound(y.t, y.pos) && o in y.t.wire && !o.flags.rst
    ensures SeqAt(o.seqNum, o.flags, o.payload, y.pos, p) && (o.flags.ack ==> AckSound(o.ackNum, y.pos))
  {
    assert SegSound(o, y.pos);
    p :| SeqAt(o.seqNum, o.flags, o.payload, y.pos, p);
  }
}
