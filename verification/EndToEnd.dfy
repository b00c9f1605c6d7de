/** Two endpoints joined by a network that drops, duplicates, delays and reorders.  The
    network is each side's append-only log of written segments: any of them may be
    delivered to the other side at any time, any number of times, or never. */
module EndToEnd {
  import opened SeqNum
  import opened Reassembly
  import opened Sack
  import opened Options
  import opened Segments
  import opened Tcb
  import opened StateMachine
  import opened SenderSteps
  import opened Frames
  import opened Positions
  import Corruption
  import Lifecycle
  import SackAnswers
  import Wire

  /** pos and the bytes returned by Recv (got) are bookkeeping: no step depends on them. */
  datatype Side = Side(t: Tcb, pos: Pos, got: seq<u8>)

  // ----- the receive side against the peer's stream -----

  /** What the peer has sent so far, starting with its SYN's slot. */
  function SentTape(g: Pos): seq<u8> {
    g.tape[..Min(g.nxt, |g.tape|)]
  }

  /** RCV.NXT is at position N of the peer's stream; the bytes already read, then the
      bytes buffered, are that stream from position 1 on. */
  ghost predicate Received(r: Receiver, N: nat, peer: Pos, got: seq<u8>) {
    var P := SentTape(peer);
    && Conserved(r)
    && if N == 0 then r.buf == [] && r.ooo == [] && got == [] && !r.peerFin
       else
         && N == 1 + |got| + |r.buf| + Bit(r.peerFin)
         && FitsAt(got, 1, P) && FitsAt(r.buf, 1 + |got|, P)
         && if r.peerFin then peer.fin && N == |P| + 1 && r.ooo == [] else Inv(r, N, P)
  }

  /** The two directions' positions: nothing is received that was not sent, nothing is
      acknowledged that was not received. */
  predicate Linked(g: Pos, peer: Pos) {
    && (g.rcvd >= 1 ==> peer.nxt >= 1 && g.peerIss == peer.iss)
    && g.rcvd <= peer.nxt && g.una <= peer.rcvd
    && peer.nxt - peer.una <= SEND_LIMIT + 2
  }

  /** A copy of the peer's segment at positions p and a, not older than half the sequence
      space (the maximum-segment-lifetime assumption). */
  predicate Arrives(s: Segment, g: Pos, peer: Pos, p: int, a: int) {
    && SeqAt(s.seqNum, s.flags, s.payload, peer, p) && g.rcvd - HALF < p
    && (s.flags.ack ==> AckAt(s.ackNum, peer, a) && g.una - HALF < a)
  }

  ghost predicate Timely(s: Segment, g: Pos, peer: Pos) {
    s.flags.rst || exists p, a :: Arrives(s, g, peer, p, a)
  }

  lemma {:induction false} SentFits(peer: Pos, payload: Payload, p: int, flags: Flags, seqNum: u32)
    requires SeqAt(seqNum, flags, payload, peer, p) && payload != []
    ensures FitsAt(payload, p, SentTape(peer))
  {
  }

  /** RCV.NXT stays at the position of its sequence number. */
  lemma {:induction false} NextAt(nxt: u32, iss: u32, N: int, M: int)
    requires nxt == Wrap(iss + N) && 0 <= M - N < HALF
    ensures Add(nxt, M - N) == Wrap(iss + M)
  {
    WrapAdd(iss + N, M - N);
  }

  lemma {:induction false} BufferAt(r: Receiver, r': Receiver, N: nat, M: nat, got: seq<u8>, P: seq<u8>)
    requires N == 1 + |got| + |r.buf| && Inv(r', M, P) && Advances(r, N, r', M)
    ensures M == 1 + |got| + |r'.buf| && FitsAt(r'.buf, 1 + |got|, P)
  {
  }

  /** After the FIN nothing is new. */
  lemma {:induction false} LateText(r: Receiver, N: nat, start: u32, payload: Payload, p: int, P: seq<u8>)
    requires r.wnd <= Reassembly.MAX_WINDOW && N == |P| + 1
    requires Near(r.nxt, start) && Dist(r.nxt, start) == p - N && FitsAt(payload, p, P)
    ensures Accept(r, start, payload) == r
  {
    TrimRefines(r, N, start, payload, p, P);
  }

  /** Before it, exactly the stream's next bytes join the buffer. */
  lemma {:induction false} FreshText(r: Receiver, N: nat, start: u32, payload: Payload, p: int, P: seq<u8>,
                                     got: seq<u8>)
    returns (M: nat)
    requires Inv(r, N, P) && Conserved(r) && N == 1 + |got| + |r.buf|
    requires Near(r.nxt, start) && Dist(r.nxt, start) == p - N && FitsAt(payload, p, P)
    ensures var r' := Accept(r, start, payload);
      && N <= M && M - N < HALF && r'.nxt == Add(r.nxt, M - N) && Inv(r', M, P) && r'.peerFin == r.peerFin
      && M == 1 + |got| + |r'.buf| && FitsAt(r'.buf, 1 + |got|, P)
      && |r'.buf| + r'.wnd == |r.buf| + r.wnd && BuffCap(r') == BuffCap(r)
  {
    M := AcceptRefines(r, N, start, payload, p, P, 0);
    var r' := Accept(r, start, payload);
    BufferAt(r, r', N, M, got, P);
  }

  /** Text: exactly the stream's next bytes join the buffer. */
  lemma {:induction false} TextReceived(r: Receiver, N: nat, peer: Pos, got: seq<u8>, start: u32, payload: Payload,
                                        p: int)
    returns (M: nat)
    requires Received(r, N, peer, got) && N >= 1
    requires Near(r.nxt, start) && Dist(r.nxt, start) == p - N && FitsAt(payload, p, SentTape(peer))
    ensures var r' := Accept(r, start, payload);
      && N <= M && M - N < HALF && r'.nxt == Add(r.nxt, M - N) && Received(r', M, peer, got)
      && |r'.buf| + r'.wnd == |r.buf| + r.wnd && r'.peerFin == r.peerFin
  {
    if r.peerFin {
      M := N;
      LateText(r, N, start, payload, p, SentTape(peer));
    } else {
      M := FreshText(r, N, start, payload, p, SentTape(peer), got);
    }
  }

  lemma {:induction false} HasMember(s: seq<Fragment>)
    ensures s != [] ==> exists f :: f in s
  {
    if s != [] { assert s[0] in s; }
  }

  /** With the whole stream received nothing is left out of order. */
  lemma {:induction false} NothingBeyond(r: Receiver, N: nat, P: seq<u8>)
    requires Inv(r, N, P) && N == |P|
    ensures r.ooo == []
  {
    HasMember(r.ooo);
  }

  /** A FIN is consumed only once everything before it has been received. */
  lemma {:induction false} FinConsumed(t: Tcb, g: Pos, peer: Pos, got: seq<u8>, s: Segment, p: int)
    requires Received(t.rcv, g.rcvd, peer, got) && Phase(t, g) && g.rcvd >= 1
    requires Linked(g, peer) && Linked(peer, g)
    requires SeqAt(s.seqNum, s.flags, s.payload, peer, p) && !s.flags.syn
    requires FinInOrder(t, s)
    ensures var r' := t.rcv.(peerFin := true, peerFinSeq := t.rcv.nxt, nxt := Add(t.rcv.nxt, 1));
      Received(r', g.rcvd + 1, peer, got)
    ensures g.rcvd == |peer.tape| && peer.fin
  {
    FinPosition(peer.iss, p, |s.payload|, g.rcvd);
    if !t.rcv.peerFin { NothingBeyond(t.rcv, g.rcvd, SentTape(peer)); }
  }

  lemma {:induction false} FinPosition(iss: u32, p: int, n: u32, N: int)
    requires Add(Wrap(iss + p), n) == Wrap(iss + N) && -HALF < p + n - N < HALF
    ensures p + n == N
  {
    WrapAdd(iss + p, n);
    WrapDist(iss + N, iss + p + n);
    WrapDist(iss + N, iss + N);
  }

  /** Reading moves bytes from the buffer to the reader. */
  lemma {:induction false} ReadReceived(r: Receiver, N: nat, peer: Pos, got: seq<u8>, n: nat, mss: u32)
    requires Received(r, N, peer, got) && n <= |r.buf|
    ensures Received(Read(r, n, mss), N, peer, got + r.buf[..n]) && Read(r, n, mss).nxt == r.nxt
  {
    var P := SentTape(peer);
    if N >= 1 && !r.peerFin { ReadKeeps(r, N, P, n, mss); }
  }

  /** More of the peer's stream does not disturb what was received. */
  lemma {:induction false} ReceivedGrows(r: Receiver, N: nat, peer: Pos, peer': Pos, got: seq<u8>)
    requires Received(r, N, peer, got) && Grows(peer, peer') && peer.nxt <= |peer.tape| + Bit(peer.fin)
    requires peer'.nxt <= |peer'.tape| + Bit(peer'.fin) && (peer.fin ==> peer.nxt == |peer.tape| + 1)
    ensures Received(r, N, peer', got)
  {
    var P, P' := SentTape(peer), SentTape(peer');
    assert |P| <= |P'| && forall i :: 0 <= i < |P| ==> P[i] == P'[i];
    forall f | f in r.ooo && N >= 1 && !r.peerFin ensures FitsAt(f.data, At(f, r.nxt, N), P') {
      assert FitsAt(f.data, At(f, r.nxt, N), P);
    }
  }

  // ----- one endpoint, one step -----

  /** The local and the linking invariant of one side. */
  ghost predicate SideOk(t: Tcb, g: Pos, got: seq<u8>, peer: Pos) {
    && Sound(t, g) && Received(t.rcv, g.rcvd, peer, got)
    && (Early(t.state) ==> t.rcv.ooo == [])
    && Linked(g, peer) && Linked(peer, g)
  }

  /** The peer's own numbering bounds its flight. */
  predicate PeerNumbers(peer: Pos) {
    peer.nxt <= |peer.tape| + Bit(peer.fin) && (peer.fin ==> peer.nxt == |peer.tape| + 1)
  }

  lemma {:induction false} ReceivedWithin(r: Receiver, N: nat, peer: Pos, got: seq<u8>)
    requires Received(r, N, peer, got) && PeerNumbers(peer)
    ensures N <= peer.nxt
  {
  }

  /** A copy no older than half the sequence space compares with RCV.NXT as positions do. */
  lemma {:induction false} CopyIsNear(nxt: u32, g: Pos, peer: Pos, s: Segment, p: int)
    requires nxt == Wrap(g.peerIss + g.rcvd) && g.rcvd >= 1 && Linked(g, peer) && Linked(peer, g)
    requires SeqAt(s.seqNum, s.flags, s.payload, peer, p) && g.rcvd - HALF < p
    ensures Near(nxt, s.seqNum) && Dist(nxt, s.seqNum) == p - g.rcvd
  {
    WrapDist(peer.iss + g.rcvd, peer.iss + p);
  }

  /** RCV.NXT never passes what the peer has sent. */
  lemma {:induction false} TextPlaces(r: Receiver, N: nat, peer: Pos, got: seq<u8>, s: Segment, p: int) returns (M: nat)
    requires Received(r, N, peer, got) && N >= 1 && PeerNumbers(peer)
    requires Near(r.nxt, s.seqNum) && Dist(r.nxt, s.seqNum) == p - N && FitsAt(s.payload, p, SentTape(peer))
    ensures N <= M <= peer.nxt && M - N < HALF
    ensures var r' := Accept(r, s.seqNum, s.payload);
      && Received(r', M, peer, got) && r'.nxt == Add(r.nxt, M - N)
      && |r'.buf| + r'.wnd == |r.buf| + r.wnd && r'.peerFin == r.peerFin
  {
    M := TextReceived(r, N, peer, got, s.seqNum, s.payload, p);
    ReceivedWithin(Accept(r, s.seqNum, s.payload), M, peer, got);
  }

  lemma {:induction false} TextMoves(r: Receiver, g: Pos, got: seq<u8>, peer: Pos, s: Segment, p: int) returns (M: nat)
    requires r.nxt == Wrap(g.peerIss + g.rcvd) && Received(r, g.rcvd, peer, got) && g.rcvd >= 1
    requires Linked(g, peer) && Linked(peer, g) && PeerNumbers(peer)
    requires SeqAt(s.seqNum, s.flags, s.payload, peer, p) && g.rcvd - HALF < p
    ensures g.rcvd <= M <= peer.nxt && M - g.rcvd < HALF
    ensures if s.payload == [] then M == g.rcvd
      else
        var r' := Accept(r, s.seqNum, s.payload);
        && Received(r', M, peer, got) && r'.nxt == Add(r.nxt, M - g.rcvd)
        && |r'.buf| + r'.wnd == |r.buf| + r.wnd && r'.peerFin == r.peerFin
  {
    M := g.rcvd;
    if s.payload != [] {
      CopyIsNear(r.nxt, g, peer, s, p);
      SentFits(peer, s.payload, p, s.flags, s.seqNum);
      M := TextPlaces(r, g.rcvd, peer, got, s, p);
    }
  }

  /** The control block after text: RCV.NXT at M, everything written still in place. */
  lemma {:induction false} TextKeeps(t: Tcb, g: Pos, s: Segment, env: Env, M: nat)
    requires Sound(t, g) && !Early(t.state) && 1 <= g.rcvd <= M && M - g.rcvd < HALF
    requires if s.payload == [] then M == g.rcvd
      else Accept(t.rcv, s.seqNum, s.payload).nxt == Add(t.rcv.nxt, M - g.rcvd)
    ensures Sound(AcceptText(t, s, env), g.(rcvd := M))
  {
    NextAt(t.rcv.nxt, g.peerIss, g.rcvd, M);
    TextSends(t, g, s, env, M);
  }

  lemma {:induction false} TextOk(t: Tcb, g: Pos, got: seq<u8>, peer: Pos, s: Segment, p: int, env: Env)
    returns (g': Pos)
    requires Sound(t, g) && Received(t.rcv, g.rcvd, peer, got) && !Early(t.state) && g.rcvd >= 1
    requires Linked(g, peer) && Linked(peer, g) && PeerNumbers(peer)
    requires SeqAt(s.seqNum, s.flags, s.payload, peer, p) && g.rcvd - HALF < p && !s.flags.syn
    ensures var t' := AcceptText(t, s, env);
      && Sound(t', g') && Received(t'.rcv, g'.rcvd, peer, got) && t'.snd == t.snd && t'.state == t.state
      && Linked(g', peer) && Linked(peer, g') && Grows(g, g') && g' == g.(rcvd := g'.rcvd)
  {
    var M := TextMoves(t.rcv, g, got, peer, s, p);
    TextKeeps(t, g, s, env, M);
    TextFacts(t, s, env);
    g' := g.(rcvd := M);
  }

  lemma {:induction false} FinOk(t: Tcb, g: Pos, got: seq<u8>, peer: Pos, s: Segment, p: int, env: Env)
    requires Sound(t, g) && Received(t.rcv, g.rcvd, peer, got) && !Early(t.state) && g.rcvd >= 1
    requires Linked(g, peer) && Linked(peer, g)
    requires SeqAt(s.seqNum, s.flags, s.payload, peer, p) && !s.flags.syn
    requires FinInOrder(t, s)
    ensures var t', g' := HandleFin(t, env), g.(rcvd := g.rcvd + 1);
      Sound(t', g') && Received(t'.rcv, g'.rcvd, peer, got) && t'.snd == t.snd && !Early(t'.state)
  {
    FinConsumed(t, g, peer, got, s, p);
    FinReceived(t, g, env);
    FinFacts(t, env);
  }

  /** Text then FIN, after the ACK was taken. */
  lemma {:induction false} TextFinOk(t: Tcb, g: Pos, got: seq<u8>, peer: Pos, s: Segment, p: int, env: Env)
    returns (g': Pos)
    requires Sound(t, g) && Received(t.rcv, g.rcvd, peer, got) && !Early(t.state) && g.rcvd >= 1
    requires Linked(g, peer) && Linked(peer, g) && PeerNumbers(peer)
    requires SeqAt(s.seqNum, s.flags, s.payload, peer, p) && g.rcvd - HALF < p && !s.flags.syn
    ensures var t' := TextAndFin(t, s, env);
      && Sound(t', g') && Received(t'.rcv, g'.rcvd, peer, got)
      && !Early(t'.state) && Grows(g, g') && g' == g.(rcvd := g'.rcvd)
  {
    g' := TextOk(t, g, got, peer, s, p, env);
    var t1 := AcceptText(t, s, env);
    if FinInOrder(t1, s) {
      FinOk(t1, g', got, peer, s, p, env);
      g' := g'.(rcvd := g'.rcvd + 1);
    }
  }

  /** What one step of a side may do to its positions, against an unmoving peer. */
  ghost predicate Outcome(g: Pos, t': Tcb, g': Pos, got': seq<u8>, peer: Pos) {
    && Sound(t', g') && Received(t'.rcv, g'.rcvd, peer, got')
    && (Early(t'.state) ==> t'.rcv.ooo == [])
    && Grows(g, g') && g.una <= g'.una <= Max(g.una, peer.rcvd)
    && (g'.rcvd >= 1 ==> peer.nxt >= 1 && g'.peerIss == peer.iss)
  }

  lemma {:induction false} AckTaken(t: Tcb, g: Pos, peer: Pos, s: Segment, a: int, env: Env) returns (g1: Pos)
    requires Sound(t, g) && Linked(g, peer) && Linked(peer, g)
    requires g.rcvd >= 1 && t.state != Listen && s.flags.ack && AckAccepted(t, s)
    requires AckAt(s.ackNum, peer, a) && g.una - HALF < a
    ensures var t1 := HandleAck(t, s, env);
      && Sound(t1, g1) && t1.rcv == t.rcv && !Early(t1.state)
    ensures g1 == g.(una := g1.una, nxt := g1.nxt) && Grows(g, g1) && g.una <= g1.una <= Max(g.una, peer.rcvd)
    ensures Linked(g1, peer) && Linked(peer, g1)
  {
    PeerAcks(g, peer, s.ackNum, a);
    g1 := HandleAckSends(t, g, s, a, env);
    SoundNumbers(HandleAck(t, s, env), g1);
    LinkedAfterAck(HandleAck(t, s, env).snd, g, g1, peer, a);
  }

  lemma {:induction false} PeerAcks(g: Pos, peer: Pos, ackNum: u32, a: int)
    requires Linked(g, peer) && Linked(peer, g) && AckAt(ackNum, peer, a) && g.una - HALF < a
    ensures Acks(ackNum, a, g)
  {
  }

  lemma {:induction false} SoundNumbers(t: Tcb, g: Pos)
    requires Sound(t, g) && g.rcvd >= 1
    ensures t.state != SynSent && Numbered(t.snd, g)
  {
  }

  lemma {:induction false} AckTextOk(t: Tcb, g: Pos, got: seq<u8>, peer: Pos, s: Segment, p: int, a: int, env: Env)
    returns (g': Pos)
    requires SideOk(t, g, got, peer) && PeerNumbers(peer) && g.rcvd >= 1 && t.state != Listen
    requires Arrives(s, g, peer, p, a) && !s.flags.syn && s.flags.ack && AckAccepted(t, s)
    ensures Outcome(g, TextAndFin(HandleAck(t, s, env), s, env), g', got, peer)
    ensures g' == g.(una := g'.una, nxt := g'.nxt, rcvd := g'.rcvd)
  {
    var g1 := AckTaken(t, g, peer, s, a, env);
    var t1 := HandleAck(t, s, env);
    g' := TextFinOk(t1, g1, got, peer, s, p, env);
    ChainOutcome(g, g1, TextAndFin(t1, s, env), g', got, peer);
  }

  lemma {:induction false} ChainOutcome(g: Pos, g1: Pos, t': Tcb, g': Pos, got: seq<u8>, peer: Pos)
    requires Grows(g, g1) && Grows(g1, g') && g' == g1.(rcvd := g'.rcvd)
    requires g.una <= g1.una <= Max(g.una, peer.rcvd) && Linked(g1, peer) && g1.rcvd >= 1
    requires Sound(t', g') && Received(t'.rcv, g'.rcvd, peer, got) && !Early(t'.state)
    ensures Outcome(g, t', g', got, peer)
  {
  }

  /** An acceptable segment: its ACK, its text, its FIN. */
  lemma {:induction false} AcceptableOk(t: Tcb, g: Pos, got: seq<u8>, peer: Pos, s: Segment, p: int, a: int, env: Env)
    returns (g': Pos)
    requires SideOk(t, g, got, peer) && PeerNumbers(peer) && g.rcvd >= 1 && t.state != Listen
    requires Arrives(s, g, peer, p, a) && !s.flags.syn
    ensures Outcome(g, OnAcceptable(t, s, env), g', got, peer)
    ensures g' == g.(una := g'.una, nxt := g'.nxt, rcvd := g'.rcvd)
  {
    var t1 := UpdateTsRecent(t, s);
    g' := g;
    TimestampSound(t, g, s);
    if s.flags.ack && AckAccepted(t1, s) {
      g' := AckTextOk(t1, g, got, peer, s, p, a, env);
    } else if s.flags.ack {
      RefuseSends(t1, g, s, env);
      RefuseFrame(t1, s, env);
    }
  }

  lemma {:induction false} LinkedAfterAck(snd: Sender, g: Pos, g': Pos, peer: Pos, a: int)
    requires Linked(g, peer) && Linked(peer, g) && a <= peer.rcvd
    requires g' == g.(una := Max(g.una, a), nxt := g'.nxt) && Grows(g, g') && Numbered(snd, g')
    ensures Linked(g', peer) && Linked(peer, g')
  {
    if g'.nxt >= 1 { FlightAt(snd, g'); }
  }

  /** Everything a synchronized or SYN-RECEIVED endpoint does with a segment. */
  lemma {:induction false} SynchronizedOk(t: Tcb, g: Pos, got: seq<u8>, peer: Pos, s: Segment, p: int, a: int, env: Env)
    returns (g': Pos)
    requires SideOk(t, g, got, peer) && PeerNumbers(peer)
    requires t.state != Listen && t.state != SynSent && t.state != Closed
    requires s.flags.rst || Arrives(s, g, peer, p, a)
    ensures Outcome(g, OnSynchronized(t, s, env), g', got, peer)
    ensures g' == g.(una := g'.una, nxt := g'.nxt, rcvd := g'.rcvd)
  {
    g' := g;
    if (t.state == TimeWait && s.flags.fin && !s.flags.rst) || PawsStale(t, s)
       || (!Acceptable(t.rcv, s) && !s.flags.rst) || s.flags.rst || s.flags.syn {
      AnswerSends(t, g, s, env);
      AnswerReceives(t, s, env);
    } else {
      g' := AcceptableOk(t, g, got, peer, s, p, a, env);
    }
  }

  // ----- the handshake -----

  /** The peer's SYN starts the receive side at position 1. */
  lemma {:induction false} PeerSyn(r: Receiver, N: nat, peer: Pos, got: seq<u8>, s: Segment, p: int)
    requires Received(r, N, peer, got) && N <= 1 && r.ooo == [] && 1 <= |peer.tape|
    requires SeqAt(s.seqNum, s.flags, s.payload, peer, p) && s.flags.syn
    ensures s.seqNum == Wrap(peer.iss) == peer.iss && peer.nxt >= 1 && got == []
    ensures Received(r.(irs := s.seqNum, nxt := Add(s.seqNum, 1)), 1, peer, got)
  {
  }

  lemma {:induction false} ListenSyn(t: Tcb, g: Pos, got: seq<u8>, peer: Pos, s: Segment, p: int, env: Env)
    returns (g': Pos)
    requires SideOk(t, g, got, peer) && t.state == Listen && 1 <= |peer.tape|
    requires SeqAt(s.seqNum, s.flags, s.payload, peer, p) && s.flags.syn && !s.flags.rst && !s.flags.ack
    ensures Outcome(g, OnListen(t, s, env), g', got, peer)
    ensures g' == g.(nxt := 1, rcvd := 1, peerIss := OnListen(t, s, env).rcv.irs)
  {
    ListenFacts(t, s, env);
    PeerSyn(t.rcv, g.rcvd, peer, got, s, p);
    ListenSends(t, g, s, env, peer.iss);
    g' := g.(nxt := 1, rcvd := 1, peerIss := peer.iss);
  }

  lemma {:induction false} ListenOther(t: Tcb, g: Pos, s: Segment, env: Env)
    requires Sound(t, g) && t.state == Listen && (s.flags.rst || s.flags.ack || !s.flags.syn)
    ensures var t' := OnListen(t, s, env);
      Sound(t', g) && t'.rcv == t.rcv && t'.state == Listen
  {
    ListenFacts(t, s, env);
    RstSends(t, g, F_RST, s.ackNum, 0, env);
    RstFacts(t, s.ackNum, env);
  }

  lemma {:induction false} ListenOk(t: Tcb, g: Pos, got: seq<u8>, peer: Pos, s: Segment, p: int, a: int, env: Env)
    returns (g': Pos)
    requires SideOk(t, g, got, peer) && t.state == Listen && 1 <= |peer.tape|
    requires s.flags.rst || Arrives(s, g, peer, p, a)
    ensures Outcome(g, OnListen(t, s, env), g', got, peer)
    ensures if OnListen(t, s, env).state == SynReceived
      then g' == g.(nxt := 1, rcvd := 1, peerIss := OnListen(t, s, env).rcv.irs) else g' == g
  {
    if !s.flags.rst && !s.flags.ack && s.flags.syn {
      ListenFacts(t, s, env);
      g' := ListenSyn(t, g, got, peer, s, p, env);
    } else {
      g' := g;
      ListenOther(t, g, s, env);
    }
  }

  lemma {:induction false} SynSentOther(t: Tcb, g: Pos, s: Segment, env: Env)
    requires Sound(t, g) && t.state == SynSent
    requires !(s.flags.syn && !s.flags.rst && !(s.flags.ack && SynAckBad(t, s)))
    ensures var t' := OnSynSent(t, s, env);
      Sound(t', g) && t'.rcv == t.rcv && (t'.state == SynSent || t'.state == Closed)
  {
    SynSentFacts(t, s, env);
    RstSends(t, g, F_RST, s.ackNum, 0, env);
    RstFacts(t, s.ackNum, env);
    ClosesSound(t, g);
  }

  lemma {:induction false} SynSentSyn(t: Tcb, g: Pos, got: seq<u8>, peer: Pos, s: Segment, p: int, a: int, env: Env)
    returns (g': Pos)
    requires SideOk(t, g, got, peer) && t.state == SynSent && 1 <= |peer.tape|
    requires Arrives(s, g, peer, p, a)
    requires s.flags.syn && !s.flags.rst && !(s.flags.ack && SynAckBad(t, s))
    ensures Outcome(g, OnSynSent(t, s, env), g', got, peer)
    ensures g' == g.(una := g'.una, rcvd := 1, peerIss := OnSynSent(t, s, env).rcv.irs)
  {
    SynSentFacts(t, s, env);
    UnnumberedPeer(t, g);
    PeerSyn(t.rcv, g.rcvd, peer, got, s, p);
    g' := SynSentSends(t, g, s, env, peer.iss);
    HandshakeOutcome(g, got, peer, OnSynSent(t, s, env), g');
  }

  lemma {:induction false} UnnumberedPeer(t: Tcb, g: Pos)
    requires Sound(t, g) && t.state == SynSent
    ensures g.rcvd == 0 && g.una == 0
  {
  }

  lemma {:induction false} HandshakeOutcome(g: Pos, got: seq<u8>, peer: Pos, t': Tcb, g': Pos)
    requires Sound(t', g') && Grows(g, g') && g.una == 0 && g' == g.(una := g'.una, rcvd := 1, peerIss := peer.iss)
    requires g'.una <= 1 && (g'.una == 1 ==> peer.rcvd >= 1)
    requires Received(t'.rcv, 1, peer, got) && peer.nxt >= 1 && t'.rcv.ooo == []
    ensures Outcome(g, t', g', got, peer)
  {
  }

  lemma {:induction false} SynSentOk(t: Tcb, g: Pos, got: seq<u8>, peer: Pos, s: Segment, p: int, a: int, env: Env)
    returns (g': Pos)
    requires SideOk(t, g, got, peer) && t.state == SynSent && 1 <= |peer.tape|
    requires s.flags.rst || Arrives(s, g, peer, p, a)
    ensures Outcome(g, OnSynSent(t, s, env), g', got, peer)
    ensures var t' := OnSynSent(t, s, env);
      if t'.state == SynReceived || t'.state == Established then
        g' == g.(una := g'.una, rcvd := 1, peerIss := t'.rcv.irs) else g' == g
  {
    g' := g;
    if s.flags.syn && !s.flags.rst && !(s.flags.ack && SynAckBad(t, s)) {
      SynSentFacts(t, s, env);
      g' := SynSentSyn(t, g, got, peer, s, p, a, env);
    } else {
      SynSentOther(t, g, s, env);
    }
  }

  lemma {:induction false} ClosesSound(t: Tcb, g: Pos)
    requires Sound(t, g)
    ensures Sound(t.(state := Closed), g)
  {
  }

  // ----- whole steps of one side -----

  datatype Event = OpenActive(iss: u32) | OpenPassive | Do(i: Input)

  /** A connection is opened once; Send respects the buffer bound; Close comes only with
      nothing unsent; a segment arrives only if the peer wrote it, and in time. */
  ghost predicate Enabled(x: Side, y: Side, e: Event) {
    match e
    case OpenActive(_) => x.t.state == Closed && x.pos.nxt == 0
    case OpenPassive => x.t.state == Closed && x.pos.nxt == 0
    case Do(i) => Allowed(x.t, i) && (i.Arrive? ==> i.s in y.t.wire && Timely(i.s, x.pos, y.pos))
  }

  function After(t: Tcb, e: Event, env: Env): Tcb
    requires e.Do? ==> Allowed(t, e.i)
  {
    match e
    case OpenActive(iss) => ActiveOpen(t, iss, env)
    case OpenPassive => PassiveOpen(t)
    case Do(i) => Step(t, i, env)
  }

  /** The states in which Close sends a FIN. */
  predicate SendsFin(s: State) {
    s == Established || s == SynReceived || s == CloseWait
  }

  /** Positions follow the sequence numbers: they start with the handshake and move by the
      circular distance the numbers move. */
  function Track(g: Pos, t: Tcb, t': Tcb, e: Event): Pos {
    if e.OpenActive? then g.(iss := e.iss, nxt := 1)
    else if Handshakes(t, t') then
      g.(una := Sub(t'.snd.una, t'.snd.iss), nxt := 1, rcvd := 1, peerIss := t'.rcv.irs)
    else
      g.(tape := if e.Do? && e.i.CallSend? && SendOutcome(t.state, |e.i.data|).Sent? then g.tape + e.i.data else g.tape,
         una := if g.nxt == 0 then 0 else g.una + Sub(t'.snd.una, t.snd.una),
         nxt := if g.nxt == 0 then 0 else g.nxt + Sub(t'.snd.nxt, t.snd.nxt),
         rcvd := if g.rcvd == 0 then 0 else g.rcvd + Sub(t'.rcv.nxt, t.rcv.nxt),
         fin := g.fin || (e == Do(CallClose) && SendsFin(t.state)))
  }

  /** The bytes this call of Recv hands to the reader. */
  function Handed(r: Receiver, e: Event): seq<u8> {
    if e.Do? && e.i.CallRecv? then
      match RecvOutcome(r, e.i.max)
      case Data(bytes) => bytes
      case _ => []
    else []
  }

  function Move(x: Side, e: Event, env: Env): Side
    requires e.Do? ==> Allowed(x.t, e.i)
  {
    var t' := After(x.t, e, env);
    Side(t', Track(x.pos, x.t, t', e), x.got + Handed(x.t.rcv, e))
  }

  // ----- tracking is exact -----

  /** Nothing moves further than the sequence space lets circular distances tell. */
  predicate Bounded(g: Pos, g': Pos, peer: Pos) {
    && Grows(g, g') && g.una <= g'.una <= Max(g.una, peer.rcvd)
    && g'.rcvd <= peer.nxt
    && Linked(g, peer) && Linked(peer, g)
  }

  lemma {:induction false} TrackAt(a: u32, b: u32, iss: u32, x: int, y: int)
    requires a == Wrap(iss + x) && b == Wrap(iss + y) && 0 <= y - x < MOD
    ensures x + Sub(b, a) == y
  {
    WrapSub(iss + y, iss + x);
  }

  lemma {:induction false} TrackSend(snd: Sender, g: Pos, snd': Sender, g': Pos, peer: Pos)
    requires Numbered(snd, g) && Numbered(snd', g') && Bounded(g, g', peer) && g.nxt >= 1
    ensures g.una + Sub(snd'.una, snd.una) == g'.una && g.nxt + Sub(snd'.nxt, snd.nxt) == g'.nxt
  {
    FlightAt(snd', g');
    TrackAt(snd.una, snd'.una, g.iss, g.una, g'.una);
    TrackAt(snd.nxt, snd'.nxt, g.iss, g.nxt, g'.nxt);
  }

  lemma {:induction false} TrackReceive(t: Tcb, g: Pos, t': Tcb, g': Pos, peer: Pos)
    requires Phase(t, g) && Phase(t', g') && Bounded(g, g', peer) && g.rcvd >= 1
    ensures g.rcvd + Sub(t'.rcv.nxt, t.rcv.nxt) == g'.rcvd
  {
    WrapSub(g.peerIss + g'.rcvd, g.peerIss + g.rcvd);
  }

  lemma {:induction false} TrackHandshake(t: Tcb, g: Pos)
    requires Numbered(t.snd, g) && g.nxt == 1
    ensures Sub(t.snd.una, t.snd.iss) == g.una
  {
    WrapAdd(g.iss, 0);
    WrapSub(g.iss + g.una, g.iss);
  }

  /** Outside the handshake the tracked positions are the ones the step reached. */
  lemma {:induction false} Tracked(t: Tcb, g: Pos, t': Tcb, g': Pos, e: Event, peer: Pos)
    requires Sound(t, g) && Sound(t', g') && Bounded(g, g', peer)
    requires !e.OpenActive? && !Handshakes(t, t') && g'.peerIss == g.peerIss
    requires g'.tape ==
      if e.Do? && e.i.CallSend? && SendOutcome(t.state, |e.i.data|).Sent? then g.tape + e.i.data else g.tape
    requires g'.fin == (g.fin || (e == Do(CallClose) && SendsFin(t.state)))
    requires (g.nxt == 0 ==> g'.nxt == 0) && (g.rcvd == 0 ==> g'.rcvd == 0)
    ensures Track(g, t, t', e) == g'
  {
    if g.nxt >= 1 { TrackSend(t.snd, g, t'.snd, g', peer); }
    if g.rcvd >= 1 { TrackReceive(t, g, t', g', peer); }
  }

  // ----- every step keeps the invariant -----

  /** How an arrival moves the positions. */
  predicate ArrivalMoves(t: Tcb, g: Pos, t': Tcb, g': Pos) {
    if Handshakes(t, t') then g' == g.(una := g'.una, nxt := 1, rcvd := 1, peerIss := t'.rcv.irs)
    else g' == g.(una := g'.una, nxt := g'.nxt, rcvd := g'.rcvd) && (g.rcvd == 0 ==> g' == g)
  }

  lemma {:induction false} ClosedOk(t: Tcb, g: Pos, got: seq<u8>, peer: Pos, s: Segment, env: Env)
    requires SideOk(t, g, got, peer) && t.state == Closed
    ensures Outcome(g, OnClosed(t, s, env), g, got, peer) && !Handshakes(t, OnClosed(t, s, env))
  {
    ClosedSends(t, g, s, env);
    ClosedFacts(t, s, env);
  }

  lemma {:induction false} OpeningOk(t: Tcb, g: Pos, got: seq<u8>, peer: Pos, s: Segment, p: int, a: int, env: Env)
    returns (g': Pos)
    requires SideOk(t, g, got, peer) && 1 <= |peer.tape|
    requires t.state == Listen || t.state == SynSent
    requires s.flags.rst || Arrives(s, g, peer, p, a)
    ensures Outcome(g, OnSegment(t, s, env), g', got, peer) && ArrivalMoves(t, g, OnSegment(t, s, env), g')
  {
    if t.state == Listen {
      ListenFacts(t, s, env);
      g' := ListenOk(t, g, got, peer, s, p, a, env);
    } else {
      g' := SynSentOk(t, g, got, peer, s, p, a, env);
    }
  }

  lemma {:induction false} SegmentOk(t: Tcb, g: Pos, got: seq<u8>, peer: Pos, s: Segment, env: Env) returns (g': Pos)
    requires SideOk(t, g, got, peer) && PeerNumbers(peer) && 1 <= |peer.tape| && Timely(s, g, peer)
    ensures Outcome(g, OnSegment(t, s, env), g', got, peer) && ArrivalMoves(t, g, OnSegment(t, s, env), g')
  {
    var p, a := 0, 0;
    if !s.flags.rst { p, a :| Arrives(s, g, peer, p, a); }
    if t.state == Closed {
      g' := g;
      ClosedOk(t, g, got, peer, s, env);
    } else if t.state == Listen || t.state == SynSent {
      g' := OpeningOk(t, g, got, peer, s, p, a, env);
    } else {
      g' := SynchronizedOk(t, g, got, peer, s, p, a, env);
    }
  }

  lemma {:induction false} UserFacts(t: Tcb, e: Event, env: Env)
    requires e.Do? && !e.i.Arrive? && Allowed(t, e.i)
    ensures var t' := After(t, e, env);
      && (!e.i.CallRecv? ==> t'.rcv == t.rcv) && !Handshakes(t, t')
      && (Early(t'.state) ==> t'.state == t.state)
  {
    match e.i
    case CallSend(data) => SendFacts(t, data, env);
    case CallRecv(max) => RecvFrame(t, max, env);
    case CallClose => CloseFacts(t, env);
    case TimerTick => TickFacts(t, env);
  }

  lemma {:induction false} RecvOk(t: Tcb, g: Pos, got: seq<u8>, peer: Pos, max: nat, env: Env)
    requires SideOk(t, g, got, peer)
    ensures Outcome(g, Recv(t, max, env), g, got + Handed(t.rcv, Do(CallRecv(max))), peer)
  {
    RecvSends(t, g, max, env);
    RecvFrame(t, max, env);
    RecvReads(t, max, env);
    var n := Min(max, |t.rcv.buf|);
    ReadReceived(t.rcv, g.rcvd, peer, got, n, EffMss(t.snd));
    assert got + [] == got;
  }

  lemma {:induction false} SameReceived(t: Tcb, g: Pos, got: seq<u8>, peer: Pos, t': Tcb, g': Pos)
    requires SideOk(t, g, got, peer) && Sound(t', g') && t'.rcv == t.rcv
    requires Early(t'.state) ==> t'.state == t.state
    requires Grows(g, g') && g' == g.(nxt := g'.nxt, tape := g'.tape, fin := g'.fin)
    ensures Outcome(g, t', g', got, peer)
  {
  }

  lemma {:induction false} UserOk(t: Tcb, g: Pos, got: seq<u8>, peer: Pos, e: Event, env: Env) returns (g': Pos)
    requires SideOk(t, g, got, peer) && e.Do? && !e.i.Arrive? && Allowed(t, e.i)
    ensures Outcome(g, After(t, e, env), g', got + Handed(t.rcv, e), peer)
    ensures g' == g.(nxt := g'.nxt, tape := g'.tape, fin := g'.fin) && (g.nxt == 0 ==> g'.nxt == 0)
    ensures g'.tape == if e.i.CallSend? && SendOutcome(t.state, |e.i.data|).Sent? then g.tape + e.i.data else g.tape
    ensures g'.fin == (g.fin || (e.i.CallClose? && SendsFin(t.state)))
  {
    if e.i.CallRecv? {
      g' := g;
      RecvOk(t, g, got, peer, e.i.max, env);
    } else {
      UserFacts(t, e, env);
      assert got + Handed(t.rcv, e) == got;
      if e.i.CallSend? { g' := SendSends(t, g, e.i.data, env); }
      else if e.i.CallClose? { g' := CloseSends(t, g, env); }
      else { g' := TickSends(t, g, env); }
      SameReceived(t, g, got, peer, After(t, e, env), g');
    }
  }

  /** From the local outcome back to the linked invariant of both sides. */
  lemma {:induction false} Relink(x: Side, y: Side, t': Tcb, g': Pos, got': seq<u8>)
    requires SideOk(x.t, x.pos, x.got, y.pos) && SideOk(y.t, y.pos, y.got, x.pos)
    requires Outcome(x.pos, t', g', got', y.pos)
    ensures SideOk(t', g', got', y.pos) && SideOk(y.t, y.pos, y.got, g') && Bounded(x.pos, g', y.pos)
  {
    ReceivedWithin(t'.rcv, g'.rcvd, y.pos, got');
    if g'.nxt >= 1 { FlightAt(t'.snd, g'); }
    ReceivedGrows(y.t.rcv, y.pos.rcvd, x.pos, g', y.got);
  }

  lemma {:induction false} OpenOk(x: Side, y: Side, e: Event, env: Env)
    requires SideOk(x.t, x.pos, x.got, y.pos) && SideOk(y.t, y.pos, y.got, x.pos)
    requires !e.Do? && Enabled(x, y, e)
    ensures var x' := Move(x, e, env);
      SideOk(x'.t, x'.pos, x'.got, y.pos) && SideOk(y.t, y.pos, y.got, x'.pos)
  {
    assert x.got + [] == x.got;
    if e.OpenActive? {
      OpenFacts(x.t, e.iss, env);
      ActiveOpenSends(x.t, x.pos, e.iss, env);
    } else {
      OpenFacts(x.t, 0, env);
      PassiveOpenSends(x.t, x.pos);
    }
  }

  lemma {:induction false} TrackArrival(x: Side, y: Side, s: Segment, t': Tcb, g': Pos)
    requires SideOk(x.t, x.pos, x.got, y.pos)
    requires Sound(t', g') && Bounded(x.pos, g', y.pos) && ArrivalMoves(x.t, x.pos, t', g')
    ensures Track(x.pos, x.t, t', Do(Arrive(s))) == g'
  {
    if Handshakes(x.t, t') { TrackHandshake(t', g'); }
    else { Tracked(x.t, x.pos, t', g', Do(Arrive(s)), y.pos); }
  }

  lemma {:induction false} ArriveOk(x: Side, y: Side, s: Segment, env: Env)
    requires SideOk(x.t, x.pos, x.got, y.pos) && SideOk(y.t, y.pos, y.got, x.pos) && Enabled(x, y, Do(Arrive(s)))
    ensures var x' := Move(x, Do(Arrive(s)), env);
      SideOk(x'.t, x'.pos, x'.got, y.pos) && SideOk(y.t, y.pos, y.got, x'.pos)
  {
    var g' := SegmentOk(x.t, x.pos, x.got, y.pos, s, env);
    Relink(x, y, OnSegment(x.t, s, env), g', x.got);
    TrackArrival(x, y, s, OnSegment(x.t, s, env), g');
    MoveArrives(x, s, env, g');
  }

  lemma {:induction false} MoveArrives(x: Side, s: Segment, env: Env, g': Pos)
    requires Track(x.pos, x.t, OnSegment(x.t, s, env), Do(Arrive(s))) == g'
    ensures Move(x, Do(Arrive(s)), env) == Side(OnSegment(x.t, s, env), g', x.got)
  {
    assert x.got + [] == x.got;
  }

  lemma {:induction false} CallOk(x: Side, y: Side, e: Event, env: Env)
    requires SideOk(x.t, x.pos, x.got, y.pos) && SideOk(y.t, y.pos, y.got, x.pos) && Enabled(x, y, e)
    requires e.Do? && !e.i.Arrive?
    ensures var x' := Move(x, e, env);
      SideOk(x'.t, x'.pos, x'.got, y.pos) && SideOk(y.t, y.pos, y.got, x'.pos)
  {
    var g' := UserOk(x.t, x.pos, x.got, y.pos, e, env);
    var t' := After(x.t, e, env);
    Relink(x, y, t', g', x.got + Handed(x.t.rcv, e));
    UserFacts(x.t, e, env);
    Tracked(x.t, x.pos, t', g', e, y.pos);
  }

  /** One step of either side keeps both sides' invariant, and the tracked positions are
      those of the numbers. */
  lemma {:induction false} MoveOk(x: Side, y: Side, e: Event, env: Env)
    requires SideOk(x.t, x.pos, x.got, y.pos) && SideOk(y.t, y.pos, y.got, x.pos) && Enabled(x, y, e)
    ensures var x' := Move(x, e, env);
      SideOk(x'.t, x'.pos, x'.got, y.pos) && SideOk(y.t, y.pos, y.got, x'.pos)
  {
    if !e.Do? { OpenOk(x, y, e, env); }
    else if e.i.Arrive? { ArriveOk(x, y, e.i.s, env); }
    else { CallOk(x, y, e, env); }
  }

  // ----- whole runs -----

  datatype System = System(a: Side, b: Side)

  /** One step of the system: side a or side b takes event e. */
  datatype Turn = Turn(atA: bool, e: Event, env: Env)

  ghost predicate Next(sys: System, turn: Turn, sys': System) {
    if turn.atA then Enabled(sys.a, sys.b, turn.e) && sys' == System(Move(sys.a, turn.e, turn.env), sys.b)
    else Enabled(sys.b, sys.a, turn.e) && sys' == System(sys.a, Move(sys.b, turn.e, turn.env))
  }

  /** A connection as the constructor leaves it, with a receive buffer of at most 2^30. */
  predicate IsNew(x: Side) {
    && x.got == [] && x.pos == Pos(x.t.snd.iss, [0], 0, 0, 0, false, 0)
    && BuffCap(x.t.rcv) <= Reassembly.MAX_WINDOW
    && x.t == NewTcb(x.t.snd.iss, x.t.rcv.buffTotal, x.t.snd.nagleDisabled, x.t.timeWaitDuration, x.t.throttle.start)
  }

  ghost predicate TurnAt(states: seq<System>, turns: seq<Turn>, k: nat)
    requires |states| == |turns| + 1 && k < |turns|
  {
    Next(states[k], turns[k], states[k + 1])
  }

  ghost predicate IsExecution(states: seq<System>, turns: seq<Turn>) {
    && |states| == |turns| + 1
    && IsNew(states[0].a) && IsNew(states[0].b)
    && forall k :: 0 <= k < |turns| ==> TurnAt(states, turns, k)
  }

  ghost predicate SystemOk(sys: System) {
    SideOk(sys.a.t, sys.a.pos, sys.a.got, sys.b.pos) && SideOk(sys.b.t, sys.b.pos, sys.b.got, sys.a.pos)
  }

  lemma {:induction false} TurnOk(sys: System, turn: Turn, sys': System)
    requires SystemOk(sys)
    ensures Next(sys, turn, sys') ==> SystemOk(sys')
  {
    if Next(sys, turn, sys') {
      if turn.atA { MoveOk(sys.a, sys.b, turn.e, turn.env); } else { MoveOk(sys.b, sys.a, turn.e, turn.env); }
    }
  }

  lemma {:induction false} NewSound(x: Side)
    requires IsNew(x)
    ensures Sound(x.t, x.pos)
  {
  }

  lemma {:induction false} NewOk(x: Side, y: Side)
    requires IsNew(x) && IsNew(y)
    ensures SideOk(x.t, x.pos, x.got, y.pos)
  {
    NewSound(x);
  }

  lemma {:induction false} FirstOk(sys: System)
    requires IsNew(sys.a) && IsNew(sys.b)
    ensures SystemOk(sys)
  {
    NewOk(sys.a, sys.b);
    NewOk(sys.b, sys.a);
  }

  lemma {:induction false} ExecutionOk(states: seq<System>, turns: seq<Turn>, n: nat)
    requires IsExecution(states, turns) && n < |states|
    ensures SystemOk(states[n])
  {
    if n == 0 {
      FirstOk(states[0]);
    } else {
      ExecutionOk(states, turns, n - 1);
      OkAfter(states, turns, n, states[n]);
    }
  }

  lemma {:induction false} OkAfter(states: seq<System>, turns: seq<Turn>, n: nat, sys: System)
    requires IsExecution(states, turns) && 0 < n < |states| && SystemOk(states[n - 1]) && sys == states[n]
    ensures SystemOk(sys)
  {
    assert TurnAt(states, turns, n - 1);
    TurnOk(states[n - 1], turns[n - 1], sys);
  }

  /** The bytes x has given to Send. */
  function Given(x: Side): seq<u8>
    requires 1 <= |x.pos.tape|
  {
    x.pos.tape[1..]
  }

  /** What x's reader may rely on about its peer y. */
  ghost predicate Delivers(x: Side, y: Side) {
    && 1 <= |y.pos.tape|
    // bytes come out in order, unaltered, without gap or repetition, and nothing is invented
    && x.got + x.t.rcv.buf <= Given(y)
    // in positions: acknowledged <= received <= sent
    && y.pos.una <= x.pos.rcvd <= y.pos.nxt
    // end of file is reported only after everything was read and the peer has closed
    && (forall max :: RecvOutcome(x.t.rcv, max) == Eof ==> x.got == Given(y) && y.pos.fin)
    // established means both SYNs were acknowledged
    && (x.t.state == Established || x.t.state == CloseWait ==> x.pos.una >= 1 && y.pos.rcvd >= 1)
    // the window never promises more than the buffer has room for
    && |x.t.rcv.buf| + x.t.rcv.wnd <= BuffCap(x.t.rcv)
  }

  /** What was read and is buffered is the peer's stream from its first byte on. */
  lemma {:induction false} PrefixDelivered(r: Receiver, N: nat, peer: Pos, got: seq<u8>)
    requires Received(r, N, peer, got) && 1 <= |peer.tape|
    ensures got + r.buf <= peer.tape[1..]
    ensures r.peerFin && r.buf == [] && PeerNumbers(peer) ==> got == peer.tape[1..] && peer.fin
  {
    var all, given := got + r.buf, peer.tape[1..];
    if N >= 1 {
      assert |all| <= |given|;
      forall i | 0 <= i < |all| ensures all[i] == given[i] {
        var P := SentTape(peer);
        assert if i < |got| then got[i] == P[1 + i] else r.buf[i - |got|] == P[1 + |got| + (i - |got|)];
      }
      assert all == given[..|all|];
    }
    if r.buf == [] { assert all == got; }
  }

  lemma {:induction false} OkDelivers(x: Side, y: Side)
    requires SideOk(x.t, x.pos, x.got, y.pos) && SideOk(y.t, y.pos, y.got, x.pos)
    ensures Delivers(x, y)
  {
    PrefixDelivered(x.t.rcv, x.pos.rcvd, y.pos, x.got);
  }

  /** End-to-end safety: in every state of every run, whatever the network dropped,
      duplicated, delayed or reordered, each reader has received a prefix of what the
      other side sent, and sees end of file only after all of it. */
  lemma {:induction false} EndToEndSafety(states: seq<System>, turns: seq<Turn>, n: nat)
    requires IsExecution(states, turns) && n < |states|
    ensures Delivers(states[n].a, states[n].b) && Delivers(states[n].b, states[n].a)
  {
    ExecutionOk(states, turns, n);
    OkDelivers(states[n].a, states[n].b);
    OkDelivers(states[n].b, states[n].a);
  }

  /** In every run, what is held out of order is sorted, strictly beyond RCV.NXT and inside
      the window, RCV.NXT is the first missing position, and SACK blocks report only held
      positions, all of them if there is room. */
  lemma {:induction false} SackInEveryRun(states: seq<System>, turns: seq<Turn>, n: nat, atA: bool, max: int, x: int)
    requires IsExecution(states, turns) && n < |states| && Here(states[n], atA).pos.rcvd >= 1
    ensures var r, N := Here(states[n], atA).t.rcv, Here(states[n], atA).pos.rcvd;
      var bs := SackBlocks(r.ooo, r.lastOoo, max);
      && (r.peerFin ==> r.ooo == [])
      && (!r.peerFin ==> Ok(r, N) && !Has(r, N, N))
      && (Reported(bs, r.nxt, N, x) ==> Held(r.ooo, r.nxt, N, x) && x > N)
      && (|MergeFrom([], r.ooo)| <= max ==> (Reported(bs, r.nxt, N, x) <==> Held(r.ooo, r.nxt, N, x)))
  {
    ExecutionOk(states, turns, n);
    SideHeld(Here(states[n], atA), There(states[n], atA), max, x);
  }

  lemma {:induction false} SideHeld(e: Side, y: Side, max: int, x: int)
    requires SideOk(e.t, e.pos, e.got, y.pos) && e.pos.rcvd >= 1
    ensures var r, N := e.t.rcv, e.pos.rcvd;
      var bs := SackBlocks(r.ooo, r.lastOoo, max);
      && (r.peerFin ==> r.ooo == [])
      && (!r.peerFin ==> Ok(r, N) && !Has(r, N, N))
      && (Reported(bs, r.nxt, N, x) ==> Held(r.ooo, r.nxt, N, x) && x > N)
      && (|MergeFrom([], r.ooo)| <= max ==> (Reported(bs, r.nxt, N, x) <==> Held(r.ooo, r.nxt, N, x)))
  {
    if !e.t.rcv.peerFin {
      SackSound(e.t.rcv, e.pos.rcvd, max, x);
      FirstMissing(e.t.rcv, e.pos.rcvd);
    }
  }

  lemma {:induction false} ArrivesInside(r: Receiver, g: Pos, got: seq<u8>, peer: Pos, s: Segment, p: int)
    requires r.nxt == Wrap(g.peerIss + g.rcvd) && Received(r, g.rcvd, peer, got) && g.rcvd >= 1
    requires Linked(g, peer) && Linked(peer, g)
    requires SeqAt(s.seqNum, s.flags, s.payload, peer, p) && s.payload != [] && g.rcvd < p
    ensures var P := SentTape(peer);
      && Inv(r, g.rcvd, P) && FitsAt(s.payload, p, P)
      && Near(r.nxt, s.seqNum) && Dist(r.nxt, s.seqNum) == p - g.rcvd
  {
    CopyIsNear(r.nxt, g, peer, s, p);
    SentFits(peer, s.payload, p, s.flags, s.seqNum);
  }

  lemma {:induction false} SideReports(t: Tcb, g: Pos, got: seq<u8>, peer: Pos, s: Segment, p: int, env: Env)
    requires t.rcv.nxt == Wrap(g.peerIss + g.rcvd) && Received(t.rcv, g.rcvd, peer, got) && g.rcvd >= 1
    requires Linked(g, peer) && Linked(peer, g)
    requires SeqAt(s.seqNum, s.flags, s.payload, peer, p) && s.payload != []
    requires t.neg.sackOk && Lifecycle.TakesAck(t, s) && g.rcvd < p < g.rcvd + t.rcv.wnd
    ensures SackAnswers.Reports(t, OnAcceptable(t, s, env), g.rcvd, p)
  {
    ArrivesInside(t.rcv, g, got, peer, s, p);
    SackAnswers.AcceptableReported(t, s, g.rcvd, p, SentTape(peer), env);
  }

  lemma {:induction false} NextNumber(t: Tcb, g: Pos)
    requires Sound(t, g) && g.rcvd >= 1
    ensures t.rcv.nxt == Wrap(g.peerIss + g.rcvd)
  {
  }

  lemma {:induction false} SideAnswers(t: Tcb, g: Pos, got: seq<u8>, peer: Pos, s: Segment, p: int, env: Env)
    requires SideOk(t, g, got, peer) && g.rcvd >= 1
    requires t.state != Closed && t.state != SynSent && t.state != Listen
    requires SeqAt(s.seqNum, s.flags, s.payload, peer, p) && s.payload != []
    requires t.neg.sackOk && Lifecycle.TakesAck(t, s) && g.rcvd < p < g.rcvd + t.rcv.wnd
    ensures SackAnswers.Reports(t, OnSegment(t, s, env), g.rcvd, p)
  {
    NextNumber(t, g);
    SideReports(t, g, got, peer, s, p, env);
    Lifecycle.TakenIsAcceptable(t, s, env);
  }

  /** In every run, a segment the peer wrote that arrives out of order, at a position inside
      the window, is answered in that step by an ACK whose first SACK block reports it. */
  lemma {:induction false} SackAnswersInEveryRun(states: seq<System>, turns: seq<Turn>, n: nat, atA: bool,
                                                 s: Segment, p: int, env: Env)
    requires IsExecution(states, turns) && n < |states|
    requires var x, y := Here(states[n], atA), There(states[n], atA);
      && x.pos.rcvd >= 1 && x.t.state != Closed && x.t.state != SynSent && x.t.state != Listen
      && SeqAt(s.seqNum, s.flags, s.payload, y.pos, p) && s.payload != []
      && x.t.neg.sackOk && Lifecycle.TakesAck(x.t, s) && x.pos.rcvd < p < x.pos.rcvd + x.t.rcv.wnd
    ensures var x := Here(states[n], atA);
      SackAnswers.Reports(x.t, OnSegment(x.t, s, env), x.pos.rcvd, p)
  {
    ExecutionOk(states, turns, n);
    var x, y := Here(states[n], atA), There(states[n], atA);
    SideAnswers(x.t, x.pos, x.got, y.pos, s, p, env);
  }

  function Here(sys: System, atA: bool): Side {
    if atA then sys.a else sys.b
  }

  function There(sys: System, atA: bool): Side {
    if atA then sys.b else sys.a
  }

  /** The age assumption costs nothing while the streams are shorter than half the sequence
      space: then every segment the peer ever wrote is timely. */
  lemma {:induction false} TimelyWhileShort(states: seq<System>, turns: seq<Turn>, n: nat, atA: bool, s: Segment)
    requires IsExecution(states, turns) && n < |states|
    requires Here(states[n], atA).pos.rcvd < HALF && Here(states[n], atA).pos.una < HALF
    requires s in There(states[n], atA).t.wire
    ensures Timely(s, Here(states[n], atA).pos, There(states[n], atA).pos)
  {
    ExecutionOk(states, turns, n);
    YoungIsTimely(Here(states[n], atA).pos, There(states[n], atA), s);
  }

  lemma {:induction false} YoungIsTimely(g: Pos, y: Side, s: Segment)
    requires Sound(y.t, y.pos) && s in y.t.wire && g.rcvd < HALF && g.una < HALF
    ensures Timely(s, g, y.pos)
  {
    assert SegSound(s, y.pos);
    if !s.flags.rst {
      var p :| SeqAt(s.seqNum, s.flags, s.payload, y.pos, p);
      if s.flags.ack {
        var a :| AckAt(s.ackNum, y.pos, a);
        assert Arrives(s, g, y.pos, p, a);
      } else {
        assert Arrives(s, g, y.pos, p, 0);
      }
    }
  }

  /** Delivering a written segment is what the wire format does: in every run every segment
      an endpoint ever wrote, marshalled into a packet with any padding behind it, passes
      the peer's length checks and both checksums and parses back to that very segment. */
  lemma {:induction false} EveryWrittenSegmentParses(states: seq<System>, turns: seq<Turn>, n: nat, atA: bool,
                                                     s: Segment, route: Wire.Route, padding: seq<u8>)
    requires IsExecution(states, turns) && n < |states| && s in Here(states[n], atA).t.wire
    ensures s.opts.Options? && Wire.Decode(Wire.Encode(route, s, Marshal(s.opts.o)) + padding) == Wire.Ok((route, s))
  {
    ExecutionOk(states, turns, n);
    WrittenIsBuilt(Here(states[n], atA), s);
    Wire.WireRoundTrip(route, s, s.opts.o, padding);
  }

  /** And with any one byte of the packet damaged on the way it is refused, so that damage is
      loss to the connection: what it takes in, it takes in unaltered. */
  lemma {:induction false} DamagedSegmentRefused(states: seq<System>, turns: seq<Turn>, n: nat, atA: bool, s: Segment,
                                                 route: Wire.Route, padding: seq<u8>, i: nat, v: u8)
    requires IsExecution(states, turns) && n < |states| && s in Here(states[n], atA).t.wire
    requires s.opts.Options? &&
      var pkt := Wire.Encode(route, s, Marshal(s.opts.o)); i < |pkt| && v != pkt[i]
    ensures Wire.Decode(Wire.Encode(route, s, Marshal(s.opts.o))[i := v] + padding).Err?
  {
    ExecutionOk(states, turns, n);
    WrittenIsBuilt(Here(states[n], atA), s);
    Corruption.ByteChangeRefused(route, s, s.opts.o, padding, i, v);
  }

  lemma {:induction false} WrittenIsBuilt(x: Side, s: Segment)
    requires Sound(x.t, x.pos) && s in x.t.wire
    ensures Built(s)
  {
    assert SegSound(s, x.pos);
  }

  // ----- the receive window's right edge -----

  /** The position just beyond the receive window. */
  function Edge(x: Side): int {
    x.pos.rcvd + x.t.rcv.wnd
  }

  lemma {:induction false} TextEdge(r: Receiver, g: Pos, got: seq<u8>, peer: Pos, s: Segment)
    requires r.nxt == Wrap(g.peerIss + g.rcvd) && Received(r, g.rcvd, peer, got) && g.rcvd >= 1
    requires Linked(g, peer) && Linked(peer, g) && PeerNumbers(peer)
    requires Timely(s, g, peer) && !s.flags.rst
    ensures var r' := Texted(r, s);
      |r'.buf| + r'.wnd == |r.buf| + r.wnd && r'.peerFin == r.peerFin
  {
    var p, a :| Arrives(s, g, peer, p, a);
    var M := TextMoves(r, g, got, peer, s, p);
  }

  lemma {:induction false} SynchronizedEdge(t: Tcb, s: Segment, env: Env)
    requires !s.flags.rst ==>
      var r' := Texted(t.rcv, s);
      |r'.buf| + r'.wnd == |t.rcv.buf| + t.rcv.wnd && r'.peerFin == t.rcv.peerFin
    ensures var r' := OnSynchronized(t, s, env).rcv;
      |r'.buf| + r'.wnd == |t.rcv.buf| + t.rcv.wnd && (t.rcv.peerFin ==> r'.peerFin)
  {
    SynchronizedReceives(t, s, env);
  }

  lemma {:induction false} UnnumberedEdge(t: Tcb, s: Segment, env: Env)
    requires t.state == Closed || t.state == Listen
    ensures var r' := OnSegment(t, s, env).rcv;
      r'.buf == t.rcv.buf && r'.wnd == t.rcv.wnd && r'.peerFin == t.rcv.peerFin
  {
    ClosedFacts(t, s, env);
    if t.state == Listen { ListenFacts(t, s, env); RstFacts(t, s.ackNum, env); }
  }

  /** What an arrival leaves of the sum that determines the edge. */
  lemma {:induction false} ArrivalEdge(t: Tcb, g: Pos, got: seq<u8>, peer: Pos, s: Segment, env: Env)
    requires SideOk(t, g, got, peer) && PeerNumbers(peer) && Timely(s, g, peer) && g.rcvd >= 1
    ensures var r' := OnSegment(t, s, env).rcv;
      |r'.buf| + r'.wnd == |t.rcv.buf| + t.rcv.wnd && (t.rcv.peerFin ==> r'.peerFin)
  {
    NextNumber(t, g);
    if t.state == Closed || t.state == Listen {
      UnnumberedEdge(t, s, env);
    } else {
      if !s.flags.rst { TextEdge(t.rcv, g, got, peer, s); }
      SynchronizedEdge(t, s, env);
    }
  }

  lemma {:induction false} CallEdge(t: Tcb, e: Event, env: Env)
    requires e.Do? && !e.i.Arrive? && Allowed(t, e.i)
    ensures var r' := After(t, e, env).rcv;
      |r'.buf| + |Handed(t.rcv, e)| == |t.rcv.buf| && r'.wnd >= t.rcv.wnd && r'.peerFin == t.rcv.peerFin
  {
    if e.i.CallRecv? { RecvReads(t, e.i.max, env); } else { UserFacts(t, e, env); }
  }

  lemma {:induction false} EdgeStays(x: Side, y: Side, e: Event, env: Env)
    requires SideOk(x.t, x.pos, x.got, y.pos) && SideOk(y.t, y.pos, y.got, x.pos) && Enabled(x, y, e)
    requires x.pos.rcvd >= 1
    ensures var x' := Move(x, e, env);
      && Edge(x) <= Edge(x') && x'.pos.rcvd >= 1
      && (e.Do? && e.i.Arrive? && x'.t.rcv.peerFin == x.t.rcv.peerFin ==> Edge(x') == Edge(x))
  {
    MoveOk(x, y, e, env);
    if e.i.Arrive? { ArrivalEdge(x.t, x.pos, x.got, y.pos, e.i.s, env); } else { CallEdge(x.t, e, env); }
  }

  /** Over any run of arrivals, reads, sends, ticks and closes on both sides, the right edge
      of a synchronized receive window never moves left; arriving data keeps it exactly
      where it was, and only reading (or the FIN's own number) moves it on. */
  lemma {:induction false} EdgeNeverMovesLeft(states: seq<System>, turns: seq<Turn>, m: nat, n: nat, atA: bool)
    requires IsExecution(states, turns) && m <= n < |states| && Here(states[m], atA).pos.rcvd >= 1
    ensures Edge(Here(states[m], atA)) <= Edge(Here(states[n], atA)) && Here(states[n], atA).pos.rcvd >= 1
    decreases n - m
  {
    if m < n {
      EdgeNeverMovesLeft(states, turns, m, n - 1, atA);
      EdgeAt(states, turns, n - 1, atA);
    }
  }

  lemma {:induction false} EdgeAt(states: seq<System>, turns: seq<Turn>, k: nat, atA: bool)
    requires IsExecution(states, turns) && k < |turns| && Here(states[k], atA).pos.rcvd >= 1
    ensures Edge(Here(states[k], atA)) <= Edge(Here(states[k + 1], atA)) && Here(states[k + 1], atA).pos.rcvd >= 1
  {
    ExecutionOk(states, turns, k);
    assert TurnAt(states, turns, k);
    TurnEdge(states[k], turns[k], states[k + 1], atA);
  }

  lemma {:induction false} TurnEdge(sys: System, turn: Turn, sys': System, atA: bool)
    requires SystemOk(sys) && Here(sys, atA).pos.rcvd >= 1
    ensures Next(sys, turn, sys') ==> Edge(Here(sys, atA)) <= Edge(Here(sys', atA)) && Here(sys', atA).pos.rcvd >= 1
  {
    if Next(sys, turn, sys') && turn.atA == atA { EdgeStays(Here(sys, atA), There(sys, atA), turn.e, turn.env); }
  }
}
