/** 32-bit circular sequence numbers (tcp/transport/seq.go) and their relation to
    unbounded stream positions.  Every later module compares sequence numbers only
    through these functions and reasons about positions only through these lemmas. */
module SeqNum {
  const MOD: int := 0x1_0000_0000
  const HALF: int := 0x8000_0000

  type u32 = x: int | 0 <= x < 0x1_0000_0000
  type u16 = x: int | 0 <= x < 0x1_0000
  type u8 = x: int | 0 <= x < 0x100

  /** A segment payload: an IPv4 packet holds fewer than 2^16 bytes. */
  type Payload = s: seq<u8> | |s| < 0x1_0000

  function Max(a: int, b: int): int { if a < b then b else a }
  function Min(a: int, b: int): int { if a < b then a else b }

  /** uint32 subtraction: the forward distance from b to a. */
  function Sub(a: u32, b: u32): (d: u32) {
    if a >= b then a - b else a - b + MOD
  }

  /** uint32 addition. */
  function Add(a: u32, n: u32): (r: u32) {
    if a + n < MOD then a + n else a + n - MOD
  }

  predicate SeqLT(a: u32, b: u32) {
    var d := Sub(b, a);
    d != 0 && d < HALF
  }

  predicate SeqLEQ(a: u32, b: u32) {
    a == b || SeqLT(a, b)
  }

  predicate SeqGT(a: u32, b: u32) {
    SeqLT(b, a)
  }

  predicate AcceptableAck(una: u32, ack: u32, nxt: u32) {
    SeqLT(una, ack) && SeqLEQ(ack, nxt)
  }

  /** The acceptance range of section 5.2 of RFC 5961: lo <= ack <= nxt. */
  predicate AckInRange(lo: u32, ack: u32, nxt: u32) {
    !SeqLT(ack, lo) && !SeqGT(ack, nxt)
  }

  /** The receive-window membership test: [nxt, nxt + wnd), or {nxt} for a closed window. */
  predicate InWindow(nxt: u32, wnd: u32, s: u32) {
    if wnd == 0 then s == nxt
    else SeqLEQ(nxt, s) && SeqLT(s, Add(nxt, wnd))
  }

  // ----- positions -----

  /** The sequence number of unbounded position x. */
  function Wrap(x: int): (s: u32) {
    x % MOD
  }

  /** Signed distance from a to b, in [-2^31, 2^31). */
  function Dist(a: u32, b: u32): (d: int)
    ensures -HALF <= d < HALF
  {
    var d := Sub(b, a);
    if d < HALF then d else d - MOD
  }

  /** The comparisons are exactly the sign of the signed distance, for every input. */
  lemma CompareIsSign(a: u32, b: u32)
    ensures SeqLT(a, b) <==> Dist(a, b) > 0
    ensures SeqLEQ(a, b) <==> Dist(a, b) >= 0
    ensures SeqGT(a, b) <==> -HALF < Dist(a, b) < 0
  {
  }

  lemma AddAdd(a: u32, m: u32, n: u32)
    requires m + n < MOD
    ensures Add(Add(a, m), n) == Add(a, m + n)
  {
  }

  lemma WrapAdd(x: int, n: u32)
    ensures Add(Wrap(x), n) == Wrap(x + n)
  {
  }

  lemma WrapSub(x: int, y: int)
    requires 0 <= x - y < MOD
    ensures Sub(Wrap(x), Wrap(y)) == x - y
  {
  }

  lemma WrapDist(x: int, y: int)
    requires -HALF <= y - x < HALF
    ensures Dist(Wrap(x), Wrap(y)) == y - x
  {
  }

  /** Within half the space the circular comparisons agree with the positions. */
  lemma ComparePositions(x: int, y: int)
    requires -HALF < y - x < HALF
    ensures SeqLT(Wrap(x), Wrap(y)) <==> x < y
    ensures SeqLEQ(Wrap(x), Wrap(y)) <==> x <= y
    ensures SeqGT(Wrap(x), Wrap(y)) <==> x > y
  {
    WrapDist(x, y);
    WrapDist(y, x);
  }

  lemma DistShift(a: u32, b: u32, n: u32)
    requires -HALF <= Dist(a, b) - n
    ensures Dist(Add(a, n), b) == Dist(a, b) - n
  {
  }

  // ----- exactness: which circular intervals the range tests decide -----

  /** AcceptableAck decides the interval (una, nxt] for all 2^32 acknowledgement
      numbers exactly when less than half the space is in flight. */
  lemma AcceptableAckExactIff(una: u32, nxt: u32)
    ensures (forall ack: u32 :: AcceptableAck(una, ack, nxt) <==> 0 < Sub(ack, una) <= Sub(nxt, una))
       <==> Sub(nxt, una) < HALF
  {
    if Sub(nxt, una) >= HALF {
      var ack := Add(una, HALF);
      assert Sub(ack, una) == HALF;
      assert !AcceptableAck(una, ack, nxt);
    }
  }

  /** InWindow decides [nxt, nxt + wnd) exactly when the window is below 2^31. */
  lemma InWindowExactIff(nxt: u32, wnd: u32)
    ensures (forall s: u32 :: InWindow(nxt, wnd, s) <==> (Sub(s, nxt) < wnd || (wnd == 0 && s == nxt)))
       <==> wnd < HALF
  {
    if wnd >= HALF {
      assert Sub(nxt, nxt) == 0 < wnd;
      assert !InWindow(nxt, wnd, nxt);
    }
  }

  /** The range test of section 5.2 of RFC 5961 decides [lo, nxt] exactly when its
      width is positive and at most 2^31. */
  lemma AckInRangeExactIff(lo: u32, nxt: u32)
    ensures (forall ack: u32 :: AckInRange(lo, ack, nxt) <==> Sub(ack, lo) <= Sub(nxt, lo))
       <==> 0 < Sub(nxt, lo) <= HALF
  {
    var w := Sub(nxt, lo);
    if w == 0 {
      var ack := Add(lo, HALF);
      assert Sub(ack, lo) == HALF;
      assert AckInRange(lo, ack, nxt);
    } else if w > HALF {
      var ack := Add(lo, HALF + 1);
      assert Sub(ack, lo) == HALF + 1 && SeqLT(ack, lo);
    }
  }
}
