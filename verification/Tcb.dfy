/** The transmission control block (tcp/transport/tcb.go), its constants, and the pure
    decisions over it (flowcontrol.go:11-116, statemachine.go:497-528, data.go:91-106). */
module Tcb {
  import opened SeqNum
  import opened Reassembly
  import opened Sack
  import opened Options
  import opened Segments
  import opened Congestion
  import opened ChallengeAck

  /** Clock readings and durations in nanoseconds. */
  type Time = int

  const MILLISECOND: Time := 1_000_000
  const DEFAULT_MSS: nat := 1360
  const DEFAULT_SEND_MSS: u16 := 536
  const MY_WINDOW_SCALE: nat := 7
  const TIME_WAIT_DURATION: Time := 240_000_000_000
  const MAX_RTO: Time := 60_000_000_000
  const MAX_RETRANSMITS: nat := 5
  const PERSIST_INITIAL: Time := 1_000_000_000
  const PERSIST_MAX: Time := 60_000_000_000
  const OVERRIDE_TIMEOUT: Time := 200_000_000
  const DEL_ACK_TIMEOUT: Time := 200_000_000
  const MAX_SACK_BLOCKS: nat := 4
  const MAX_SND_WINDOW: u32 := 0x3FFF_C000 // 65535 << 14

  /** Buffered send data stays well below half the sequence space. */
  const SEND_LIMIT: nat := 0x7FF0_0000
  type SendBuffer = s: seq<u8> | |s| <= 0x7FF0_0000

  type Shift = s: int | 0 <= s <= 14

  datatype State = Closed | Listen | SynSent | SynReceived | Established | FinWait1 | FinWait2 | CloseWait
    | Closing | LastAck | TimeWait

  predicate Synchronized(s: State) {
    s.Established? || s.FinWait1? || s.FinWait2? || s.CloseWait? || s.Closing? || s.LastAck? || s.TimeWait?
  }

  datatype Origin = Passive | Active

  datatype RetxSeg = RetxSeg(seqNum: u32, flags: Flags, payload: Payload, sentAt: Time, retries: nat,
    retransmitted: bool)

  function EntryLen(e: RetxSeg): u32 {
    SeqLen(e.flags, e.payload)
  }

  datatype Sender = Sender(
    una: u32, nxt: u32, wnd: u32, wl1: u32, wl2: u32, iss: u32, maxWnd: u32,
    buf: SendBuffer, nagleDisabled: bool, mss: u16, cong: Cc)

  datatype Persist = Persist(armed: bool, backoff: nat, deadline: Time)
  datatype Override = Override(armed: bool, deadline: Time)
  datatype DelAck = DelAck(armed: bool, count: nat, deadline: Time)
  datatype Negotiated = Negotiated(sndShift: Shift, rcvShift: Shift, tsOk: bool, tsRecent: u32, sackOk: bool)

  datatype Tcb = Tcb(
    state: State, origin: Origin, reachedEstablished: bool,
    timeWaitDeadline: Time, timeWaitDuration: Time,
    snd: Sender, rcv: Receiver,
    queue: seq<RetxSeg>, rto: Time,
    persist: Persist, override: Override, delAck: DelAck,
    throttle: Throttle,
    neg: Negotiated, lastAckSent: u32,
    wire: seq<Segment>) // every segment written to the link, oldest first

  /** What a step reads from outside: the clock, and the round-trip estimator's RTO. */
  datatype Env = Env(now: Time, rto: Time)

  /** A new connection in CLOSED; iss matters only for a passive open. */
  function NewTcb(iss: u32, buffTotal: u32, noDelay: bool, timeWait: Time, epoch: Time): Tcb {
    Tcb(Closed, Passive, false, 0, timeWait,
        Sender(0, 0, 0, 0, 0, iss, 65535, [], noDelay, 0, NewCc(DEFAULT_MSS)),
        Receiver(0, 0, 0, [], [], 0, buffTotal, false, 0),
        [], 0,
        Persist(false, 0, 0), Override(false, 0), DelAck(false, 0, 0),
        Throttle(epoch, 0),
        Negotiated(0, 0, false, 0, false), 0, [])
  }

  // ----- decisions -----

  function Pow2(n: nat): (p: nat)
    ensures p >= 1
  {
    if n == 0 then 1 else 2 * Pow2(n - 1)
  }

  /** w << n and w >> n. */
  function ShiftLeft(w: nat, n: nat): (r: nat)
    ensures w <= r
  {
    if n == 0 then w else 2 * ShiftLeft(w, n - 1)
  }

  function ShiftRight(w: u32, n: nat): (r: u32)
    ensures r <= w
  {
    if n == 0 then w else ShiftRight(w, n - 1) / 2
  }

  lemma {:induction false} ShiftMono(v: nat, w: nat, m: nat, n: nat)
    requires v <= w && m <= n
    ensures ShiftLeft(v, m) <= ShiftLeft(w, n)
    decreases n
  {
    if m > 0 { ShiftMono(v, w, m - 1, n - 1); }
    else if n > 0 { ShiftMono(v, w, 0, n - 1); }
  }

  lemma {:induction false} Pow2Mono(m: nat, n: nat)
    requires m <= n
    ensures Pow2(m) <= Pow2(n)
    decreases n - m
  {
    if m < n { Pow2Mono(m, n - 1); }
  }

  /** SEG.WND << Snd.Wind.Shift. */
  function ScaleWindow(w: u16, n: Shift): (r: u32)
    ensures r <= MAX_SND_WINDOW
  {
    ShiftMono(w, 65535, n, 14);
    assert ShiftLeft(65535, 14) == MAX_SND_WINDOW;
    ShiftLeft(w, n)
  }

  /** The advertised 16-bit window: raw on SYN, else shifted and saturated. */
  function WindowField(t: Tcb, flags: Flags): u16 {
    var w := if flags.syn then t.rcv.wnd else ShiftRight(t.rcv.wnd, t.neg.rcvShift);
    if w > 65535 then 65535 else w
  }

  function TsNow(now: Time): u32 {
    (now / MILLISECOND) % MOD
  }

  function EffMss(snd: Sender): (m: u32)
    ensures 0 < m <= DEFAULT_MSS
  {
    if snd.mss != 0 && snd.mss < DEFAULT_MSS then snd.mss else DEFAULT_MSS
  }

  /** A full segment for a peer that announced this maximum, 0 for none: at most 1360 bytes. */
  function FullSegment(announced: u16): nat {
    if announced == 0 then DEFAULT_MSS else Min(announced, DEFAULT_MSS)
  }

  lemma {:induction false} EffMssIsFull(snd: Sender)
    ensures EffMss(snd) == FullSegment(snd.mss)
  {
  }

  function InFlight(snd: Sender): u32 {
    Sub(snd.nxt, snd.una)
  }

  /** Room left by the peer's window and by cwnd. */
  function SendUsable(snd: Sender): u32 {
    var edge := Add(snd.una, snd.wnd);
    var rwnd := if SeqGT(snd.nxt, edge) then 0 else Sub(edge, snd.nxt);
    var room := if snd.cong.cwnd > InFlight(snd) then snd.cong.cwnd - InFlight(snd) else 0;
    if room < rwnd then room else rwnd
  }

  predicate CanSend(d: nat, usable: nat, mss: nat, maxWnd: nat, idle: bool, noDelay: bool) {
    var send := Min(d, usable);
    send != 0 && (send >= mss || idle || noDelay || send >= maxWnd / 2)
  }

  function PersistInterval(backoff: nat): (d: Time)
    ensures 0 < d <= PERSIST_MAX
  {
    if backoff >= 6 then PERSIST_MAX
    else
      assert Pow2(backoff) <= Pow2(5) == 32 by { Pow2Mono(backoff, 5); }
      PERSIST_INITIAL * Pow2(backoff)
  }

  function BackoffRto(cur: Time): Time {
    if 2 * cur > MAX_RTO then MAX_RTO else 2 * cur
  }

  predicate Acceptable(r: Receiver, s: Segment) {
    var n := SegLen(s);
    if n == 0 && r.wnd == 0 then s.seqNum == r.nxt
    else if n == 0 then InWindow(r.nxt, r.wnd, s.seqNum)
    else if r.wnd == 0 then false
    else InWindow(r.nxt, r.wnd, s.seqNum) || InWindow(r.nxt, r.wnd, Add(s.seqNum, n - 1))
  }

  /** Malformed options read as none. */
  function OptionsOf(s: Segment): TcpOptions {
    match s.opts
    case Malformed => NO_OPTIONS
    case Options(o) => o
  }
}
