/** RFC 5681 congestion control with byte counting (tcp/transport/congestion.go).
    Window sizes are mathematical integers. */
module Congestion {
  const MAX_WINDOW_16: nat := 65535

  datatype CcState = SlowStart | CongestionAvoidance | FastRecovery

  datatype Cc = Cc(
    smss: nat, cwnd: nat, ssthresh: nat,
    state: CcState, dupAckCnt: nat,
    bytesAcked: nat, // bytes acknowledged towards the next increment
    halved: bool)    // ssthresh was already halved in this loss episode

  function InitialWindow(smss: nat): nat {
    if smss <= 1095 then 4 * smss else if smss <= 2190 then 3 * smss else 2 * smss
  }

  function NewCc(smss: nat): Cc {
    Cc(smss, InitialWindow(smss), MAX_WINDOW_16, SlowStart, 0, 0, false)
  }

  function Halve(c: Cc, flight: nat): nat {
    if flight / 2 > 2 * c.smss then flight / 2 else 2 * c.smss
  }

  function OnNewAck(c: Cc, acked: nat): Cc {
    var c := c.(halved := false, dupAckCnt := 0);
    if c.state == FastRecovery then
      c.(cwnd := c.ssthresh, bytesAcked := 0, state := CongestionAvoidance)
    else if c.cwnd < c.ssthresh then
      var w := c.cwnd + if acked < c.smss then acked else c.smss;
      c.(cwnd := w, state := if w >= c.ssthresh then CongestionAvoidance else c.state)
    else
      var b := c.bytesAcked + acked;
      if b >= c.cwnd then c.(state := CongestionAvoidance, bytesAcked := b - c.cwnd, cwnd := c.cwnd + c.smss)
      else c.(state := CongestionAvoidance, bytesAcked := b)
  }

  function OnDupAck(c: Cc, flight: nat): Cc {
    if c.state == FastRecovery then c.(cwnd := c.cwnd + c.smss)
    else if c.dupAckCnt + 1 < 3 then c.(dupAckCnt := c.dupAckCnt + 1)
    else
      var s := Halve(c, flight);
      c.(dupAckCnt := c.dupAckCnt + 1, ssthresh := s, halved := true, cwnd := s + 3 * c.smss, state := FastRecovery)
  }

  function OnRtoTimeout(c: Cc, flight: nat): Cc {
    var s := if c.halved then c.ssthresh else Halve(c, flight);
    c.(ssthresh := s, halved := true, cwnd := c.smss, state := SlowStart, dupAckCnt := 0, bytesAcked := 0)
  }

  /** The congestion object, whose methods update its fields in place. */
  class CongestionControl {
    const smss: nat
    var cwnd: nat
    var ssthresh: nat
    var state: CcState
    var dupAckCnt: nat
    var bytesAckedThisRtt: nat
    var retransmittedThisLoss: bool

    function View(): Cc
      reads this
    {
      Cc(smss, cwnd, ssthresh, state, dupAckCnt, bytesAckedThisRtt, retransmittedThisLoss)
    }

    constructor (smss: nat)
      ensures View() == NewCc(smss)
    {
      this.smss := smss;
      cwnd, ssthresh, state := InitialWindow(smss), MAX_WINDOW_16, SlowStart;
      dupAckCnt, bytesAckedThisRtt, retransmittedThisLoss := 0, 0, false;
    }

    method ExitRecovery()
      modifies this
      ensures View() == old(View()).(bytesAcked := 0,
                                        state := if cwnd < ssthresh then SlowStart else CongestionAvoidance)
    {
      bytesAckedThisRtt := 0;
      if cwnd < ssthresh {
        state := SlowStart;
      } else {
        state := CongestionAvoidance;
      }
    }

    method NewAck(ackedBytes: nat)
      modifies this
      ensures View() == OnNewAck(old(View()), ackedBytes)
    {
      retransmittedThisLoss := false;
      dupAckCnt := 0;
      if state == FastRecovery {
        cwnd := ssthresh;
        ExitRecovery();
        return;
      }
      if cwnd < ssthresh {
        cwnd := cwnd + if ackedBytes < smss then ackedBytes else smss;
        if cwnd >= ssthresh {
          state := CongestionAvoidance;
        }
        return;
      }
      state := CongestionAvoidance;
      bytesAckedThisRtt := bytesAckedThisRtt + ackedBytes;
      if bytesAckedThisRtt >= cwnd {
        bytesAckedThisRtt := bytesAckedThisRtt - cwnd;
        cwnd := cwnd + smss;
      }
    }

    method DupAck(flightSize: nat)
      modifies this
      ensures View() == OnDupAck(old(View()), flightSize)
    {
      if state == FastRecovery {
        cwnd := cwnd + smss;
        return;
      }
      dupAckCnt := dupAckCnt + 1;
      if dupAckCnt < 3 {
        return;
      }
      ssthresh := Halve(View(), flightSize);
      retransmittedThisLoss := true;
      cwnd := ssthresh + 3 * smss;
      state := FastRecovery;
    }

    method RtoTimeout(flightSize: nat)
      modifies this
      ensures View() == OnRtoTimeout(old(View()), flightSize)
    {
      if !retransmittedThisLoss {
        ssthresh := Halve(View(), flightSize);
        retransmittedThisLoss := true;
      }
      cwnd := smss;
      state := SlowStart;
      dupAckCnt := 0;
      bytesAckedThisRtt := 0;
    }
  }

  /** The initial window of section 3.1 of RFC 5681: two to four segments, for this stack's
      1360 bytes three, and in slow start. */
  lemma {:induction false} InitialWindows(smss: nat)
    requires 0 < smss <= 32767
    ensures var c := NewCc(smss);
      && (c.cwnd == 2 * smss || c.cwnd == 3 * smss || c.cwnd == 4 * smss) && c.state == SlowStart
      && (smss > 1095 ==> c.cwnd <= 3 * smss) && (smss > 2190 ==> c.cwnd == 2 * smss)
    ensures NewCc(1360).cwnd == 3 * 1360 && NewCc(536).cwnd == 4 * 536
  {
  }

  // ----- runs -----

  datatype CcEvent = NewAck(acked: nat) | DupAck(flight: nat) | Timeout(flight: nat)

  function Apply(c: Cc, e: CcEvent): Cc {
    match e
    case NewAck(n) => OnNewAck(c, n)
    case DupAck(f) => OnDupAck(c, f)
    case Timeout(f) => OnRtoTimeout(c, f)
  }

  function Run(c: Cc, es: seq<CcEvent>): Cc
    decreases |es|
  {
    if es == [] then c else Apply(Run(c, es[..|es| - 1]), es[|es| - 1])
  }

  /** Duplicate ACKs at the end of the run that arrived while already recovering. */
  function ExtraDups(c: Cc, es: seq<CcEvent>): nat
    decreases |es|
  {
    if es == [] then 0
    else
      var prev := es[..|es| - 1];
      if es[|es| - 1].DupAck? && Run(c, prev).state == FastRecovery then ExtraDups(c, prev) + 1 else 0
  }

  /** Section 3.1 and 3.2 invariants of RFC 5681. */
  predicate CcOk(c: Cc) {
    && 0 < c.smss <= c.cwnd
    && 2 * c.smss <= c.ssthresh
    && (c.state != FastRecovery ==> (c.state == SlowStart <==> c.cwnd < c.ssthresh))
  }

  /** Every mix of new ACKs, duplicates and timeouts keeps the invariants, and in fast
      recovery the window is inflated by exactly the duplicates seen. */
  lemma {:induction false} RunOk(smss: nat, es: seq<CcEvent>)
    requires 0 < smss <= 32767
    ensures var c := Run(NewCc(smss), es);
      && CcOk(c) && c.smss == smss
      && (c.state == FastRecovery ==> c.cwnd == c.ssthresh + (3 + ExtraDups(NewCc(smss), es)) * smss)
    decreases |es|
  {
    if es != [] {
      var prev, e := es[..|es| - 1], es[|es| - 1];
      RunOk(smss, prev);
      var c := Run(NewCc(smss), prev);
      if e.DupAck? && c.state == FastRecovery {
        var k := ExtraDups(NewCc(smss), prev);
        assert (3 + (k + 1)) * smss == (3 + k) * smss + smss;
      }
    }
  }

  /** Recovery ends with the window deflated to ssthresh, in congestion avoidance; three
      duplicates of one ACK enter it, fewer change no window. */
  lemma {:induction false} RecoveryBounds(c: Cc, acked: nat, flight: nat)
    requires CcOk(c)
    ensures c.state == FastRecovery ==>
      var d := OnNewAck(c, acked);
      d.cwnd == d.ssthresh == c.ssthresh && d.state == CongestionAvoidance && d.bytesAcked == 0
    ensures c.state != FastRecovery ==>
      var d := OnDupAck(c, flight);
      && (d.state == FastRecovery <==> c.dupAckCnt >= 2)
      && (d.state != FastRecovery ==> d == c.(dupAckCnt := d.dupAckCnt))
      && (d.state == FastRecovery ==> d.ssthresh >= flight / 2)
      && (d.state == FastRecovery ==> d.ssthresh == flight / 2 || d.ssthresh == 2 * c.smss)
  {
  }

  /** A timeout leaves one segment of window and slow start; ssthresh becomes half the bytes
      in flight, two segments at least, once in a loss episode. */
  lemma {:induction false} TimeoutBounds(c: Cc, flight: nat)
    requires CcOk(c)
    ensures var d := OnRtoTimeout(c, flight);
      && d.cwnd == c.smss && d.state == SlowStart && d.halved
      && (c.halved ==> d.ssthresh == c.ssthresh)
      && (!c.halved ==> d.ssthresh == flight / 2 || d.ssthresh == 2 * c.smss)
      && (!c.halved ==> d.ssthresh >= flight / 2)
  {
  }

  /** No new ACK and no entry into fast recovery along the run. */
  predicate QuietLoss(c: Cc, es: seq<CcEvent>)
    decreases |es|
  {
    es == [] ||
    var prev := es[..|es| - 1];
    && QuietLoss(c, prev)
    && !es[|es| - 1].NewAck?
    && (Run(c, prev).state != FastRecovery ==> Run(c, es).state != FastRecovery)
  }

  /** Within one loss episode ssthresh is reduced once: after a timeout, further timeouts
      without a new ACK or a fast-recovery entry leave it unchanged. */
  lemma {:induction false} OneReductionPerLoss(c: Cc, flight: nat, es: seq<CcEvent>)
    requires QuietLoss(OnRtoTimeout(c, flight), es)
    ensures var d := OnRtoTimeout(c, flight);
      && Run(d, es).ssthresh == d.ssthresh && Run(d, es).halved
      && (c.halved ==> d.ssthresh == c.ssthresh)
    decreases |es|
  {
    if es != [] {
      OneReductionPerLoss(c, flight, es[..|es| - 1]);
    }
  }

  // ----- slow start -----

  /** What new ACKs are worth in slow start: each its bytes, but at most one segment. */
  function Worth(acks: seq<nat>, smss: nat): nat {
    if acks == [] then 0
    else
      var a := acks[|acks| - 1];
      Worth(acks[..|acks| - 1], smss) + if a < smss then a else smss
  }

  /** Over any run of new ACKs that begins in slow start the window grows by exactly what
      they are worth, until it has reached ssthresh; there slow start ends. */
  lemma {:induction false} SlowStartGrowth(c: Cc, acks: seq<nat>)
    requires CcOk(c) && c.state == SlowStart
    requires acks != [] ==> c.cwnd + Worth(acks[..|acks| - 1], c.smss) < c.ssthresh
    ensures var d := Acks(c, acks);
      && d.cwnd == c.cwnd + Worth(acks, c.smss) && d.ssthresh == c.ssthresh && d.smss == c.smss
      && d.state == (if d.cwnd < d.ssthresh then SlowStart else CongestionAvoidance)
    decreases |acks|
  {
    if acks != [] {
      var prev := acks[..|acks| - 1];
      if prev != [] { assert Worth(prev, c.smss) >= Worth(prev[..|prev| - 1], c.smss); }
      SlowStartGrowth(c, prev);
    }
  }

  // ----- the congestion-avoidance conservation law -----

  function Sum(acks: seq<nat>): nat {
    if acks == [] then 0 else Sum(acks[..|acks| - 1]) + acks[|acks| - 1]
  }

  function Acks(c: Cc, acks: seq<nat>): Cc
    decreases |acks|
  {
    if acks == [] then c else OnNewAck(Acks(c, acks[..|acks| - 1]), acks[|acks| - 1])
  }

  lemma {:induction false} TriangleStep(s: nat, k: nat)
    ensures s * ((k + 1) * k) == s * (k * (k - 1)) + 2 * (k * s)
  {
    assert (k + 1) * k == k * (k - 1) + 2 * k;
    assert s * (k * (k - 1) + 2 * k) == s * (k * (k - 1)) + s * (2 * k);
    assert s * (2 * k) == 2 * (k * s);
  }

  lemma {:induction false} PaidStep(s: nat, w0: nat, k: nat, total: int, counter: int, acked: int)
    requires 2 * total == 2 * (k * w0) + s * (k * (k - 1)) + 2 * counter
    ensures 2 * (total + acked) == 2 * ((k + 1) * w0) + s * ((k + 1) * k) + 2 * (counter + acked - (w0 + k * s))
  {
    TriangleStep(s, k);
    assert (k + 1) * w0 == k * w0 + w0;
  }

  /** Conservation: over any run of new ACKs in congestion avoidance that made k window
      increments, the acknowledged bytes are exactly what the increments cost (the window
      at each, w0 + i * smss for i < k) plus the change of the counter. */
  lemma {:induction false} AvoidanceConservation(c: Cc, acks: seq<nat>) returns (k: nat)
    requires CcOk(c) && c.state == CongestionAvoidance
    ensures var d := Acks(c, acks);
      && CcOk(d) && d.smss == c.smss && d.ssthresh == c.ssthresh && d.state == CongestionAvoidance
      && d.cwnd == c.cwnd + k * c.smss
      && 2 * Sum(acks) == 2 * (k * c.cwnd) + c.smss * (k * (k - 1)) + 2 * (d.bytesAcked - c.bytesAcked)
    decreases |acks|
  {
    if acks == [] {
      k := 0;
    } else {
      var prev, a := acks[..|acks| - 1], acks[|acks| - 1];
      k := AvoidanceConservation(c, prev);
      var m := Acks(c, prev);
      if m.bytesAcked + a >= m.cwnd {
        PaidStep(c.smss, c.cwnd, k, Sum(prev), m.bytesAcked - c.bytesAcked, a);
        assert (k + 1) * c.smss == k * c.smss + c.smss;
        k := k + 1;
      }
    }
  }

  /** An increment does not reset the counter: it keeps what exceeds the window. */
  lemma {:induction false} IncrementResetsIff(c: Cc, acked: nat)
    requires CcOk(c) && c.state == CongestionAvoidance
    ensures var d := OnNewAck(c, acked);
      d.cwnd > c.cwnd ==>
        && d.bytesAcked == c.bytesAcked + acked - c.cwnd
        && (d.bytesAcked == 0 <==> c.bytesAcked + acked == c.cwnd)
  {
  }

  /** A loss takes a new connection to congestion avoidance with a window of two segments;
      3360 acknowledged bytes later the window has grown and 640 remain counted. */
  lemma {:induction false} CounterKeptExample()
    ensures var d := Run(NewCc(1360), [Timeout(0), NewAck(1360), NewAck(1360), NewAck(2000)]);
      d.state == CongestionAvoidance && d.cwnd == 4080 && d.bytesAcked == 640
  {
    var es := [Timeout(0), NewAck(1360), NewAck(1360), NewAck(2000)];
    assert es[..3][..2][..1][..0] == [] && es[..3][..2][..1] == es[..1] && es[..3][..2] == es[..2];
    assert Run(NewCc(1360), es[..1]) == OnRtoTimeout(NewCc(1360), 0);
    assert Run(NewCc(1360), es[..2]) == OnNewAck(Run(NewCc(1360), es[..1]), 1360);
    assert Run(NewCc(1360), es[..3]) == OnNewAck(Run(NewCc(1360), es[..2]), 1360);
  }

  /** Every new ACK of the run covers at most the current window plus one segment. */
  predicate AcksFit(c: Cc, es: seq<CcEvent>)
    decreases |es|
  {
    es == [] ||
    var prev := es[..|es| - 1];
    && AcksFit(c, prev)
    && (es[|es| - 1].NewAck? ==> es[|es| - 1].acked <= Run(c, prev).cwnd + Run(c, prev).smss)
  }

  /** Then, whatever else happens, the byte counter stays below the window (outside fast
      recovery, where the counter is idle until the exit resets it). */
  lemma {:induction false} CounterBelowWindow(smss: nat, es: seq<CcEvent>)
    requires 0 < smss <= 32767 && AcksFit(NewCc(smss), es)
    ensures var c := Run(NewCc(smss), es);
      && (c.state != FastRecovery ==> c.bytesAcked < c.cwnd)
      && (c.state == SlowStart ==> c.bytesAcked == 0)
    decreases |es|
  {
    RunOk(smss, es);
    if es != [] {
      RunOk(smss, es[..|es| - 1]);
      CounterBelowWindow(smss, es[..|es| - 1]);
    }
  }
}
