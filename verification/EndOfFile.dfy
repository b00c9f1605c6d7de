/** End of file, both ways: Recv reports it exactly when the peer has closed and everything
    it sent, its FIN included, has been received and read (tcp/transport/data.go:124-170,
    statemachine.go:709-713, 902-925). */
module EndOfFile {
  import opened SeqNum
  import opened Reassembly
  import opened Segments
  import opened Tcb
  import opened StateMachine
  import opened Frames
  import opened SenderSteps
  import opened Positions
  import opened EndToEnd
  import Lifecycle

  /** The peer's FIN is the last number received. */
  predicate FinLast(r: Receiver) {
    r.peerFin ==> r.nxt == Add(r.peerFinSeq, 1)
  }

  lemma {:induction false} DrainKeepsFin(r: Receiver)
    ensures DrainOoo(r).peerFin == r.peerFin && DrainOoo(r).peerFinSeq == r.peerFinSeq
    decreases |r.ooo|
  {
    var i := FindCover(r.ooo, r.nxt);
    if i >= 0 { DrainKeepsFin(Absorb(r, i)); }
  }

  lemma {:induction false} AcceptKeepsFin(r: Receiver, start: u32, payload: Payload)
    ensures var r' := Accept(r, start, payload);
      r'.peerFin == r.peerFin && r'.peerFinSeq == r.peerFinSeq
  {
    var f := TrimToWindow(r, start, payload);
    DrainKeepsFin(r.(buf := r.buf + f.data, nxt := Add(r.nxt, |f.data|)));
  }

  /** Text after the FIN changes nothing; before it there is no FIN to keep. */
  lemma {:induction false} TextFinLast(r: Receiver, g: Pos, got: seq<u8>, peer: Pos, s: Segment, p: int)
    requires r.nxt == Wrap(g.peerIss + g.rcvd) && Received(r, g.rcvd, peer, got) && g.rcvd >= 1
    requires Linked(g, peer) && Linked(peer, g) && PeerNumbers(peer)
    requires SeqAt(s.seqNum, s.flags, s.payload, peer, p) && g.rcvd - HALF < p && FinLast(r)
    ensures FinLast(Texted(r, s)) && FinLast(WithFin(Texted(r, s)))
  {
    if s.payload != [] {
      AcceptKeepsFin(r, s.seqNum, s.payload);
      if r.peerFin {
        CopyIsNear(r.nxt, g, peer, s, p);
        SentFits(peer, s.payload, p, s.flags, s.seqNum);
        LateText(r, g.rcvd, s.seqNum, s.payload, p, SentTape(peer));
      }
    }
  }

  lemma {:induction false} OpeningFinLast(t: Tcb, g: Pos, s: Segment, env: Env)
    requires Sound(t, g) && (t.state == Closed || t.state == Listen || t.state == SynSent)
    requires FinLast(t.rcv) && (Early(t.state) ==> !t.rcv.peerFin)
    ensures FinLast(OnSegment(t, s, env).rcv)
  {
    if t.state == Closed { ClosedFacts(t, s, env); }
    else if t.state == Listen { ListenFacts(t, s, env); RstFacts(t, s.ackNum, env); }
    else { SynSentFacts(t, s, env); RstFacts(t, s.ackNum, env); }
  }

  /** No FIN is received before the connection is established. */
  lemma {:induction false} EarlyHasNoFin(t: Tcb, g: Pos, got: seq<u8>, peer: Pos)
    requires SideOk(t, g, got, peer)
    ensures Early(t.state) ==> !t.rcv.peerFin
  {
  }

  lemma {:induction false} ArrivalFinLast(t: Tcb, g: Pos, got: seq<u8>, peer: Pos, s: Segment, env: Env)
    requires SideOk(t, g, got, peer) && PeerNumbers(peer) && Timely(s, g, peer) && FinLast(t.rcv)
    ensures FinLast(OnSegment(t, s, env).rcv)
  {
    EarlyHasNoFin(t, g, got, peer);
    if t.state == Closed || t.state == Listen || t.state == SynSent {
      OpeningFinLast(t, g, s, env);
    } else {
      SynchronizedReceives(t, s, env);
      if OnSynchronized(t, s, env).rcv != t.rcv {
        var p, a :| Arrives(s, g, peer, p, a);
        PastHandshake(t, g);
        NextNumber(t, g);
        TextFinLast(t.rcv, g, got, peer, s, p);
      }
    }
  }

  lemma {:induction false} PastHandshake(t: Tcb, g: Pos)
    requires Sound(t, g) && t.state != Closed && t.state != Listen && t.state != SynSent
    ensures g.rcvd >= 1
  {
  }

  lemma {:induction false} CallFinLast(t: Tcb, e: Event, env: Env)
    requires FinLast(t.rcv) && (e.Do? ==> Allowed(t, e.i) && !e.i.Arrive?)
    ensures FinLast(After(t, e, env).rcv)
  {
    match e
    case OpenActive(iss) => OpenFacts(t, iss, env);
    case OpenPassive => OpenFacts(t, 0, env);
    case Do(i) => if i.CallRecv? { RecvReads(t, i.max, env); } else { UserFacts(t, e, env); }
  }

  ghost predicate BothFinLast(sys: System) {
    FinLast(sys.a.t.rcv) && FinLast(sys.b.t.rcv)
  }

  lemma {:induction false} MoveFinLast(x: Side, y: Side, e: Event, env: Env)
    requires SideOk(x.t, x.pos, x.got, y.pos) && SideOk(y.t, y.pos, y.got, x.pos) && Enabled(x, y, e)
    requires FinLast(x.t.rcv)
    ensures FinLast(Move(x, e, env).t.rcv)
  {
    if e.Do? && e.i.Arrive? { ArrivalFinLast(x.t, x.pos, x.got, y.pos, e.i.s, env); } else { CallFinLast(x.t, e, env); }
  }

  lemma {:induction false} FinLastAt(states: seq<System>, turns: seq<Turn>, k: nat)
    requires IsExecution(states, turns) && k < |turns| && BothFinLast(states[k])
    ensures BothFinLast(states[k + 1])
  {
    ExecutionOk(states, turns, k);
    assert TurnAt(states, turns, k);
    TurnFinLast(states[k], turns[k], states[k + 1]);
  }

  lemma {:induction false} TurnFinLast(sys: System, turn: Turn, sys': System)
    requires SystemOk(sys) && BothFinLast(sys)
    ensures Next(sys, turn, sys') ==> BothFinLast(sys')
  {
    if Next(sys, turn, sys') {
      if turn.atA { MoveFinLast(sys.a, sys.b, turn.e, turn.env); } else { MoveFinLast(sys.b, sys.a, turn.e, turn.env); }
    }
  }

  lemma {:induction false} ExecutionFinLast(states: seq<System>, turns: seq<Turn>, n: nat)
    requires IsExecution(states, turns) && n < |states|
    ensures BothFinLast(states[n])
  {
    if n > 0 {
      ExecutionFinLast(states, turns, n - 1);
      FinLastAt(states, turns, n - 1);
    }
  }

  /** In every run: Recv reports end of file if and only if nothing is left to read and every
      number of the peer's stream has been received, its FIN included. */
  lemma {:induction false} EofIff(states: seq<System>, turns: seq<Turn>, n: nat, atA: bool, max: nat)
    requires IsExecution(states, turns) && n < |states|
    ensures var x, y := Here(states[n], atA), There(states[n], atA);
      RecvOutcome(x.t.rcv, max) == Eof <==> x.t.rcv.buf == [] && y.pos.fin && x.pos.rcvd == y.pos.nxt
  {
    ExecutionOk(states, turns, n);
    ExecutionFinLast(states, turns, n);
    var x, y := Here(states[n], atA), There(states[n], atA);
    SideEof(x.t.rcv, x.pos, x.got, y, max);
  }

  lemma {:induction false} SideEof(r: Receiver, g: Pos, got: seq<u8>, y: Side, max: nat)
    requires Received(r, g.rcvd, y.pos, got) && FinLast(r) && Numbered(y.t.snd, y.pos)
    ensures RecvOutcome(r, max) == Eof <==> r.buf == [] && y.pos.fin && g.rcvd == y.pos.nxt
  {
  }
}
