/** The receive half of a connection: trimming, out-of-order holding, draining and
    window accounting (tcp/transport/data.go:172-300, flowcontrol.go:18-35). */
module Reassembly {
  import opened SeqNum

  const MAX_WINDOW: int := 0x4000_0000
  const DEFAULT_RCV_WINDOW: u32 := 65535

  datatype Fragment = Fragment(start: u32, data: Payload)

  datatype Receiver = Receiver(
    nxt: u32, wnd: u32, irs: u32,
    buf: seq<u8>,
    ooo: seq<Fragment>, lastOoo: u32,
    buffTotal: u32,
    peerFin: bool, peerFinSeq: u32)

  function FragEnd(f: Fragment): u32 {
    Add(f.start, |f.data|)
  }

  /** The part of a payload that lies at or after RCV.NXT and inside the window. */
  function TrimToWindow(r: Receiver, start: u32, payload: Payload): Fragment {
    var end := Add(start, |payload|);
    var skip := Sub(r.nxt, start);
    if SeqLT(start, r.nxt) && skip >= |payload| then Fragment(r.nxt, [])
    else
      var s := if SeqLT(start, r.nxt) then r.nxt else start;
      var d := if SeqLT(start, r.nxt) then payload[skip..] else payload;
      var winEnd := Add(r.nxt, r.wnd);
      var over := Sub(end, winEnd);
      if SeqGT(end, winEnd) && over >= |d| then Fragment(s, [])
      else if SeqGT(end, winEnd) then Fragment(s, d[..|d| - over])
      else Fragment(s, d)
  }

  /** Sorted insertion; an equal start with at least as much data is a duplicate. */
  function InsertOoo(ooo: seq<Fragment>, f: Fragment): seq<Fragment> {
    if ooo != [] && SeqLT(ooo[0].start, f.start) then [ooo[0]] + InsertOoo(ooo[1..], f)
    else if ooo != [] && ooo[0].start == f.start && |ooo[0].data| >= |f.data| then ooo
    else [f] + ooo
  }

  function RemoveConsumed(ooo: seq<Fragment>, nxt: u32): (kept: seq<Fragment>)
    ensures |kept| <= |ooo|
    ensures forall f :: f in kept <==> f in ooo && !SeqLEQ(FragEnd(f), nxt)
  {
    if ooo == [] then []
    else if SeqLEQ(FragEnd(ooo[0]), nxt) then RemoveConsumed(ooo[1..], nxt)
    else [ooo[0]] + RemoveConsumed(ooo[1..], nxt)
  }

  predicate Covers(f: Fragment, nxt: u32) {
    !SeqLEQ(FragEnd(f), nxt) && SeqLEQ(f.start, nxt)
  }

  /** Index of the first held fragment that covers nxt, or -1. */
  function FindCover(ooo: seq<Fragment>, nxt: u32): (i: int)
    ensures -1 <= i < |ooo|
    ensures i >= 0 ==> Covers(ooo[i], nxt)
    ensures forall j :: 0 <= j < (if i < 0 then |ooo| else i) ==> !Covers(ooo[j], nxt)
  {
    if ooo == [] then -1
    else if Covers(ooo[0], nxt) then 0
    else
      var k := FindCover(ooo[1..], nxt);
      if k < 0 then -1 else k + 1
  }

  /** A fragment that covers nxt has a byte to contribute, whatever its contents. */
  lemma {:induction false} CoverSkip(f: Fragment, nxt: u32)
    requires Covers(f, nxt)
    ensures Sub(nxt, f.start) < |f.data|
    ensures Add(nxt, |f.data| - Sub(nxt, f.start)) == FragEnd(f)
  {
  }

  lemma {:induction false} RemoveDropsOne(ooo: seq<Fragment>, i: nat, nxt: u32)
    requires i < |ooo| && SeqLEQ(FragEnd(ooo[i]), nxt)
    ensures |RemoveConsumed(ooo, nxt)| < |ooo|
  {
    if i > 0 { RemoveDropsOne(ooo[1..], i - 1, nxt); }
  }

  /** Take the new bytes of a covering fragment and drop what is now consumed. */
  function Absorb(r: Receiver, i: nat): (r': Receiver)
    requires i < |r.ooo| && Covers(r.ooo[i], r.nxt)
    ensures |r'.ooo| < |r.ooo|
  {
    var f := r.ooo[i];
    CoverSkip(f, r.nxt);
    var added := f.data[Sub(r.nxt, f.start)..];
    var nxt := Add(r.nxt, |added|);
    RemoveDropsOne(r.ooo, i, nxt);
    r.(buf := r.buf + added, nxt := nxt, ooo := RemoveConsumed(r.ooo, nxt))
  }

  /** Absorb covering fragments until none is left; every round drops a fragment. */
  function DrainOoo(r: Receiver): Receiver
    decreases |r.ooo|
  {
    var i := FindCover(r.ooo, r.nxt);
    if i < 0 then r.(ooo := RemoveConsumed(r.ooo, r.nxt))
    else DrainOoo(Absorb(r, i))
  }

  function ConsumeWindow(wnd: u32, n: u32): u32 {
    if wnd > n then wnd - n else 0
  }

  /** The receive-state effect of acceptText. */
  function Accept(r: Receiver, start: u32, payload: Payload): Receiver {
    var f := TrimToWindow(r, start, payload);
    if f.data == [] then r
    else if f.start == r.nxt then
      var d := DrainOoo(r.(buf := r.buf + f.data, nxt := Add(r.nxt, |f.data|)));
      d.(wnd := ConsumeWindow(d.wnd, Sub(d.nxt, r.nxt)))
    else r.(ooo := InsertOoo(r.ooo, f), lastOoo := f.start)
  }

  function BuffCap(r: Receiver): u32 {
    if r.buffTotal == 0 then DEFAULT_RCV_WINDOW else r.buffTotal
  }

  /** Receiver-side silly-window avoidance: open only by a useful amount. */
  function AdvertiseWindow(cap: u32, used: nat, cur: u32, mss: u32): (w: u32)
    ensures w == cur || (w == cap - used && w > cur && (w - cur >= mss || w - cur >= cap / 2))
  {
    var avail := if cap > used then cap - used else 0;
    if avail <= cur then cur
    else
      var threshold := if mss < cap / 2 then mss else cap / 2;
      if avail - cur < threshold then cur else avail
  }

  /** The receive-state effect of Recv taking n bytes. */
  function Read(r: Receiver, n: nat, mss: u32): Receiver
    requires n <= |r.buf|
  {
    var buf := r.buf[n..];
    r.(buf := buf, wnd := AdvertiseWindow(BuffCap(r), |buf|, r.wnd, mss))
  }

  // ----- positions -----

  /** The stream position of f when RCV.NXT sits at position N. */
  function At(f: Fragment, nxt: u32, N: int): int {
    N + Dist(nxt, f.start)
  }

  predicate Spans(f: Fragment, nxt: u32, N: int, x: int) {
    At(f, nxt, N) <= x < At(f, nxt, N) + |f.data|
  }

  /** Position x is held out of order. */
  ghost predicate Held(ooo: seq<Fragment>, nxt: u32, N: int, x: int) {
    exists f :: f in ooo && Spans(f, nxt, N, x)
  }

  /** Position x has been received: below RCV.NXT or held. */
  ghost predicate Has(r: Receiver, N: int, x: int) {
    x < N || Held(r.ooo, r.nxt, N, x)
  }

  predicate Placed(f: Fragment, nxt: u32, N: int, lo: int, hi: int) {
    && lo < At(f, nxt, N)
    && 0 < |f.data|
    && At(f, nxt, N) + |f.data| <= hi
  }

  ghost predicate AllPlaced(ooo: seq<Fragment>, nxt: u32, N: int, lo: int, hi: int) {
    forall f :: f in ooo ==> Placed(f, nxt, N, lo, hi)
  }

  ghost predicate Sorted(ooo: seq<Fragment>, nxt: u32) {
    forall i, j :: 0 <= i < j < |ooo| ==> Dist(nxt, ooo[i].start) <= Dist(nxt, ooo[j].start)
  }

  /** The bytes are the stream's bytes from position `at` on. */
  predicate FitsAt(data: seq<u8>, at: int, T: seq<u8>) {
    0 <= at && at + |data| <= |T| && forall j :: 0 <= j < |data| ==> data[j] == T[at + j]
  }

  ghost predicate Fits(ooo: seq<Fragment>, nxt: u32, N: int, T: seq<u8>) {
    forall f :: f in ooo ==> FitsAt(f.data, At(f, nxt, N), T)
  }

  /** Between steps: held fragments start strictly after RCV.NXT, end inside the window
      and are sorted. */
  ghost predicate Ok(r: Receiver, N: int) {
    && r.wnd <= MAX_WINDOW
    && AllPlaced(r.ooo, r.nxt, N, N, N + r.wnd)
    && Sorted(r.ooo, r.nxt)
  }

  // ----- moving the origin: positions do not change when RCV.NXT advances -----

  lemma {:induction false} AtShift(f: Fragment, nxt: u32, N: int, M: int, lo: int, hi: int)
    requires Placed(f, nxt, N, lo, hi) && lo <= N <= M <= lo + MAX_WINDOW
    ensures At(f, Add(nxt, M - N), M) == At(f, nxt, N)
    ensures Dist(Add(nxt, M - N), f.start) == Dist(nxt, f.start) - (M - N)
  {
    DistShift(nxt, f.start, M - N);
  }

  lemma {:induction false} AllShift(ooo: seq<Fragment>, nxt: u32, N: int, M: int, lo: int, hi: int, T: seq<u8>)
    requires AllPlaced(ooo, nxt, N, lo, hi) && Sorted(ooo, nxt) && Fits(ooo, nxt, N, T)
    requires lo <= N <= M <= lo + MAX_WINDOW
    ensures AllPlaced(ooo, Add(nxt, M - N), M, lo, hi)
    ensures Sorted(ooo, Add(nxt, M - N))
    ensures Fits(ooo, Add(nxt, M - N), M, T)
  {
    forall f | f in ooo
      ensures At(f, Add(nxt, M - N), M) == At(f, nxt, N)
      ensures Dist(Add(nxt, M - N), f.start) == Dist(nxt, f.start) - (M - N)
    {
      AtShift(f, nxt, N, M, lo, hi);
    }
  }

  lemma {:induction false} HeldShift(ooo: seq<Fragment>, nxt: u32, N: int, M: int, lo: int, hi: int, x: int)
    requires AllPlaced(ooo, nxt, N, lo, hi)
    requires lo <= N <= M <= lo + MAX_WINDOW
    ensures Held(ooo, Add(nxt, M - N), M, x) <==> Held(ooo, nxt, N, x)
  {
    forall f | f in ooo ensures At(f, Add(nxt, M - N), M) == At(f, nxt, N) {
      AtShift(f, nxt, N, M, lo, hi);
    }
  }

  // ----- one comparison, in positions -----

  lemma {:induction false} FragCompare(f: Fragment, nxt: u32, N: int, lo: int, hi: int)
    requires Placed(f, nxt, N, lo, hi) && lo <= N <= hi <= lo + MAX_WINDOW
    ensures SeqLEQ(f.start, nxt) <==> At(f, nxt, N) <= N
    ensures SeqLEQ(FragEnd(f), nxt) <==> At(f, nxt, N) + |f.data| <= N
  {
  }

  // ----- RemoveConsumed -----

  lemma {:induction false} RemoveSorted(ooo: seq<Fragment>, nxt: u32, at: u32)
    requires Sorted(ooo, at)
    ensures Sorted(RemoveConsumed(ooo, nxt), at)
  {
    if ooo != [] {
      RemoveSorted(ooo[1..], nxt, at);
      SortedCons(ooo[0], RemoveConsumed(ooo[1..], nxt), at);
    }
  }

  lemma {:induction false} RemoveKeeps(ooo: seq<Fragment>, nxt: u32, N: int, lo: int, hi: int, T: seq<u8>)
    requires AllPlaced(ooo, nxt, N, lo, hi) && Sorted(ooo, nxt) && Fits(ooo, nxt, N, T)
    ensures var k := RemoveConsumed(ooo, nxt);
      AllPlaced(k, nxt, N, lo, hi) && Sorted(k, nxt) && Fits(k, nxt, N, T)
  {
    RemoveSorted(ooo, nxt, nxt);
  }

  lemma {:induction false} RemoveHeld(ooo: seq<Fragment>, nxt: u32, N: int, lo: int, hi: int, x: int)
    requires AllPlaced(ooo, nxt, N, lo, hi) && lo <= N <= hi <= lo + MAX_WINDOW && N <= x
    ensures Held(RemoveConsumed(ooo, nxt), nxt, N, x) <==> Held(ooo, nxt, N, x)
  {
    forall f | f in ooo && Spans(f, nxt, N, x) ensures f in RemoveConsumed(ooo, nxt) {
      FragCompare(f, nxt, N, lo, hi);
    }
  }

  // ----- DrainOoo -----

  /** While draining, fragments may already be partly behind RCV.NXT. */
  ghost predicate Draining(r: Receiver, N: int, lo: int, hi: int, T: seq<u8>) {
    && 0 <= lo <= N <= hi <= lo + MAX_WINDOW && N <= |T|
    && AllPlaced(r.ooo, r.nxt, N, lo, hi)
    && Sorted(r.ooo, r.nxt)
    && Fits(r.ooo, r.nxt, N, T)
    && FitsAt(r.buf, N - |r.buf|, T)
  }

  /** The buffer ends where the new bytes begin, so their concatenation ends at M. */
  lemma {:induction false} FitsAppend(buf: seq<u8>, data: seq<u8>, N: int, M: int, T: seq<u8>)
    requires FitsAt(buf, N - |buf|, T) && FitsAt(data, N, T) && M == N + |data|
    ensures FitsAt(buf + data, M - |buf + data|, T)
  {
  }

  /** What a covering fragment contributes: the k stream bytes from N on. */
  lemma {:induction false} AbsorbTakes(r: Receiver, i: nat, N: int, lo: int, hi: int, T: seq<u8>) returns (k: nat)
    requires Draining(r, N, lo, hi, T)
    requires i < |r.ooo| && Covers(r.ooo[i], r.nxt)
    ensures 0 < k < HALF && k <= hi - N && N + k <= |T|
    ensures k == At(r.ooo[i], r.nxt, N) + |r.ooo[i].data| - N
    ensures k == |r.ooo[i].data| - Sub(r.nxt, r.ooo[i].start)
    ensures At(r.ooo[i], r.nxt, N) <= N
    ensures FitsAt(r.ooo[i].data[Sub(r.nxt, r.ooo[i].start)..], N, T)
  {
    var f := r.ooo[i];
    assert Placed(f, r.nxt, N, lo, hi);
    FragCompare(f, r.nxt, N, lo, hi);
    var at := At(f, r.nxt, N);
    k := at + |f.data| - N;
    assert FitsAt(f.data, at, T);
  }

  /** One round of draining moves RCV.NXT from N to M. */
  lemma {:induction false} AbsorbKeeps(r: Receiver, i: nat, N: int, lo: int, hi: int, T: seq<u8>) returns (M: int)
    requires Draining(r, N, lo, hi, T)
    requires i < |r.ooo| && Covers(r.ooo[i], r.nxt)
    ensures N < M <= hi && M <= |T| && M == At(r.ooo[i], r.nxt, N) + |r.ooo[i].data|
    ensures At(r.ooo[i], r.nxt, N) <= N
    ensures var a := Absorb(r, i);
      && a.nxt == Add(r.nxt, M - N) && |a.buf| - |r.buf| == M - N
      && a == r.(nxt := a.nxt, buf := a.buf, ooo := RemoveConsumed(r.ooo, a.nxt))
      && Draining(a, M, lo, hi, T)
  {
    var k := AbsorbTakes(r, i, N, lo, hi, T);
    M := N + k;
    var added := r.ooo[i].data[Sub(r.nxt, r.ooo[i].start)..];
    var nxt := Add(r.nxt, M - N);
    FitsAppend(r.buf, added, N, M, T);
    AllShift(r.ooo, r.nxt, N, M, lo, hi, T);
    RemoveKeeps(r.ooo, nxt, M, lo, hi, T);
    assert Absorb(r, i) == r.(nxt := nxt, buf := r.buf + added, ooo := RemoveConsumed(r.ooo, nxt));
  }

  lemma {:induction false} AbsorbHeld(r: Receiver, i: nat, N: int, M: int, lo: int, hi: int, T: seq<u8>, x: int)
    requires Draining(r, N, lo, hi, T)
    requires i < |r.ooo| && At(r.ooo[i], r.nxt, N) <= N < M <= hi
    requires M == At(r.ooo[i], r.nxt, N) + |r.ooo[i].data|
    ensures var nxt := Add(r.nxt, M - N);
      x >= M ==> (Held(RemoveConsumed(r.ooo, nxt), nxt, M, x) <==> Held(r.ooo, r.nxt, N, x))
    ensures N <= x < M ==> Held(r.ooo, r.nxt, N, x)
  {
    AllShift(r.ooo, r.nxt, N, M, lo, hi, T);
    HeldShift(r.ooo, r.nxt, N, M, lo, hi, x);
    if x >= M { RemoveHeld(r.ooo, Add(r.nxt, M - N), M, lo, hi, x); }
    assert N <= x < M ==> Spans(r.ooo[i], r.nxt, N, x);
  }

  lemma {:induction false} StopStartsLater(r: Receiver, N: int, lo: int, hi: int, T: seq<u8>)
    requires Draining(r, N, lo, hi, T)
    requires FindCover(r.ooo, r.nxt) < 0
    ensures var k := RemoveConsumed(r.ooo, r.nxt);
      AllPlaced(k, r.nxt, N, N, hi)
  {
    var k := RemoveConsumed(r.ooo, r.nxt);
    forall f | f in k ensures Placed(f, r.nxt, N, N, hi) {
      assert f in r.ooo;
      FragCompare(f, r.nxt, N, lo, hi);
      assert !Covers(f, r.nxt);
    }
  }

  lemma {:induction false} DrainStops(r: Receiver, N: int, lo: int, hi: int, T: seq<u8>, x: int)
    requires Draining(r, N, lo, hi, T) && FindCover(r.ooo, r.nxt) < 0
    ensures var k := RemoveConsumed(r.ooo, r.nxt);
      && AllPlaced(k, r.nxt, N, N, hi) && Sorted(k, r.nxt) && Fits(k, r.nxt, N, T)
      && (x >= N ==> (Held(k, r.nxt, N, x) <==> Held(r.ooo, r.nxt, N, x)))
  {
    StopStartsLater(r, N, lo, hi, T);
    RemoveKeeps(r.ooo, r.nxt, N, lo, hi, T);
    if x >= N { RemoveHeld(r.ooo, r.nxt, N, lo, hi, x); }
  }

  /** From r, with RCV.NXT at N, to d, with RCV.NXT at M: exactly the held positions that
      follow without a gap were moved over, exactly those bytes appended, and nothing beyond
      the new RCV.NXT was forgotten.  Stated for one arbitrary position x. */
  ghost predicate Drained(r: Receiver, N: int, d: Receiver, M: int, hi: int, T: seq<u8>, x: int) {
    && N <= M <= hi && M <= |T| && M - N < HALF
    && d.nxt == Add(r.nxt, M - N) && |d.buf| - |r.buf| == M - N
    && d == r.(nxt := d.nxt, buf := d.buf, ooo := d.ooo)
    && FitsAt(d.buf, M - |d.buf|, T)
    && AllPlaced(d.ooo, d.nxt, M, M, hi)
    && Sorted(d.ooo, d.nxt)
    && Fits(d.ooo, d.nxt, M, T)
    && (x >= M ==> (Held(d.ooo, d.nxt, M, x) <==> Held(r.ooo, r.nxt, N, x)))
    && (N <= x < M ==> Held(r.ooo, r.nxt, N, x))
  }

  /** One absorbed fragment before the rest. */
  lemma {:induction false} DrainCons(r: Receiver, a: Receiver, d: Receiver, N: int, M1: int, M: int, hi: int,
                                     T: seq<u8>, x: int)
    requires N < M1 <= hi <= N + MAX_WINDOW
    requires a.nxt == Add(r.nxt, M1 - N) && |a.buf| - |r.buf| == M1 - N
      && a == r.(nxt := a.nxt, buf := a.buf, ooo := a.ooo)
    requires x >= M1 ==> (Held(a.ooo, a.nxt, M1, x) <==> Held(r.ooo, r.nxt, N, x))
    requires N <= x < M1 ==> Held(r.ooo, r.nxt, N, x)
    requires Drained(a, M1, d, M, hi, T, x)
    ensures Drained(r, N, d, M, hi, T, x)
  {
    AddAdd(r.nxt, M1 - N, M - M1);
  }

  lemma {:induction false} DrainRefines(r: Receiver, N: int, lo: int, hi: int, T: seq<u8>, x: int) returns (M: int)
    requires Draining(r, N, lo, hi, T)
    ensures Drained(r, N, DrainOoo(r), M, hi, T, x)
    decreases |r.ooo|
  {
    var i := FindCover(r.ooo, r.nxt);
    if i < 0 {
      M := N;
      DrainStops(r, N, lo, hi, T, x);
    } else {
      var M1 := AbsorbKeeps(r, i, N, lo, hi, T);
      AbsorbHeld(r, i, N, M1, lo, hi, T, x);
      M := DrainRefines(Absorb(r, i), M1, lo, hi, T, x);
      DrainCons(r, Absorb(r, i), DrainOoo(Absorb(r, i)), N, M1, M, hi, T, x);
    }
  }

  // ----- TrimToWindow -----

  predicate Near(nxt: u32, start: u32) {
    -HALF < Dist(nxt, start) < HALF - 0x1_0000
  }

  /** Trimming keeps exactly the positions of the payload in [N, N + wnd). */
  lemma {:induction false} TrimRefines(r: Receiver, N: int, start: u32, payload: Payload, p: int, T: seq<u8>)
    requires r.wnd <= MAX_WINDOW && Near(r.nxt, start) && p == N + Dist(r.nxt, start)
    requires FitsAt(payload, p, T)
    ensures var f := TrimToWindow(r, start, payload);
      var lo, hi := Max(p, N), Min(p + |payload|, N + r.wnd);
      && (f.data == [] <==> lo >= hi)
      && (f.data != [] ==> At(f, r.nxt, N) == lo && |f.data| == hi - lo && FitsAt(f.data, lo, T))
      && (f.data != [] ==> (f.start == r.nxt <==> p <= N))
  {
  }

  // ----- InsertOoo -----

  lemma {:induction false} StartCompare(nxt: u32, a: u32, b: u32)
    requires 0 <= Dist(nxt, a) <= MAX_WINDOW && 0 <= Dist(nxt, b) <= MAX_WINDOW
    ensures SeqLT(a, b) <==> Dist(nxt, a) < Dist(nxt, b)
    ensures a == b <==> Dist(nxt, a) == Dist(nxt, b)
  {
  }

  predicate Subsumes(g: Fragment, f: Fragment) {
    g.start == f.start && |g.data| >= |f.data|
  }

  lemma {:induction false} InsertMembers(ooo: seq<Fragment>, f: Fragment)
    ensures var k := InsertOoo(ooo, f);
      && (forall g :: g in k ==> g in ooo || g == f)
      && (forall g :: g in ooo ==> g in k)
      && (exists g :: g in k && Subsumes(g, f))
  {
    if ooo != [] && SeqLT(ooo[0].start, f.start) {
      InsertMembers(ooo[1..], f);
      var g :| g in InsertOoo(ooo[1..], f) && Subsumes(g, f);
      assert g in InsertOoo(ooo, f);
    } else if ooo != [] && ooo[0].start == f.start && |ooo[0].data| >= |f.data| {
      assert ooo[0] in ooo && Subsumes(ooo[0], f);
    } else {
      assert f in InsertOoo(ooo, f) && Subsumes(f, f);
    }
  }

  lemma {:induction false} SortedCons(f: Fragment, ooo: seq<Fragment>, nxt: u32)
    requires Sorted(ooo, nxt)
    requires forall g :: g in ooo ==> Dist(nxt, f.start) <= Dist(nxt, g.start)
    ensures Sorted([f] + ooo, nxt)
  {
    var k := [f] + ooo;
    forall i, j | 0 <= i < j < |k| ensures Dist(nxt, k[i].start) <= Dist(nxt, k[j].start) {
      assert k[j] == ooo[j - 1] && k[j] in ooo;
      assert i > 0 ==> k[i] == ooo[i - 1];
    }
  }

  lemma {:induction false} SortedUncons(ooo: seq<Fragment>, nxt: u32)
    requires Sorted(ooo, nxt) && ooo != []
    ensures Sorted(ooo[1..], nxt) && forall g :: g in ooo ==> Dist(nxt, ooo[0].start) <= Dist(nxt, g.start)
    ensures forall g :: g in ooo[1..] ==> g in ooo
  {
  }

  lemma {:induction false} InsertSorted(ooo: seq<Fragment>, f: Fragment, nxt: u32)
    requires Sorted(ooo, nxt)
    requires forall g :: g in ooo ==> 0 <= Dist(nxt, g.start) <= MAX_WINDOW
    requires 0 <= Dist(nxt, f.start) <= MAX_WINDOW
    ensures Sorted(InsertOoo(ooo, f), nxt)
  {
    if ooo != [] {
      assert ooo[0] in ooo;
      StartCompare(nxt, ooo[0].start, f.start);
      SortedUncons(ooo, nxt);
      if SeqLT(ooo[0].start, f.start) {
        InsertSorted(ooo[1..], f, nxt);
        InsertMembers(ooo[1..], f);
        SortedCons(ooo[0], InsertOoo(ooo[1..], f), nxt);
      } else {
        SortedCons(f, ooo, nxt);
      }
    }
  }

  /** Holding a fragment adds exactly its positions, whether or not it is a duplicate. */
  lemma {:induction false} InsertRefines(ooo: seq<Fragment>, f: Fragment, nxt: u32, N: int, hi: int, T: seq<u8>, x: int)
    requires AllPlaced(ooo, nxt, N, N, hi) && Sorted(ooo, nxt) && Fits(ooo, nxt, N, T)
    requires Placed(f, nxt, N, N, hi) && FitsAt(f.data, At(f, nxt, N), T)
    requires hi <= N + MAX_WINDOW
    ensures var k := InsertOoo(ooo, f);
      && AllPlaced(k, nxt, N, N, hi) && Sorted(k, nxt) && Fits(k, nxt, N, T)
      && (Held(k, nxt, N, x) <==> Held(ooo, nxt, N, x) || Spans(f, nxt, N, x))
  {
    InsertMembers(ooo, f);
    InsertSorted(ooo, f, nxt);
    var g :| g in InsertOoo(ooo, f) && Subsumes(g, f);
    assert Spans(f, nxt, N, x) ==> Spans(g, nxt, N, x);
  }

  // ----- Accept: one arrival -----

  /** The receive state with RCV.NXT at position N of stream T. */
  ghost predicate Inv(r: Receiver, N: int, T: seq<u8>) {
    && 0 <= N <= |T|
    && Ok(r, N)
    && Fits(r.ooo, r.nxt, N, T)
    && FitsAt(r.buf, N - |r.buf|, T)
  }

  /** What a step from (r, N) to (r', M) keeps: the right window edge, the bytes already
      buffered, and everything that is not receive state. */
  predicate Advances(r: Receiver, N: int, r': Receiver, M: int) {
    && N <= M && M - N < HALF
    && r'.nxt == Add(r.nxt, M - N)
    && M + r'.wnd == N + r.wnd
    && |r'.buf| - |r.buf| == M - N
    && r' == r.(nxt := r'.nxt, wnd := r'.wnd, buf := r'.buf, ooo := r'.ooo, lastOoo := r'.lastOoo)
  }

  lemma {:induction false} AcceptInOrder(r: Receiver, N: int, f: Fragment, T: seq<u8>, x: int) returns (M: int)
    requires Inv(r, N, T)
    requires f.start == r.nxt && 0 < |f.data| <= r.wnd && FitsAt(f.data, N, T)
    ensures var d := DrainOoo(r.(buf := r.buf + f.data, nxt := Add(r.nxt, |f.data|)));
      var r' := d.(wnd := ConsumeWindow(d.wnd, Sub(d.nxt, r.nxt)));
      && Inv(r', M, T) && Advances(r, N, r', M)
      && (Has(r', M, x) <==> Has(r, N, x) || N <= x < N + |f.data|)
  {
    var M1, hi := N + |f.data|, N + r.wnd;
    var r1 := r.(buf := r.buf + f.data, nxt := Add(r.nxt, M1 - N));
    FitsAppend(r.buf, f.data, N, M1, T);
    AllShift(r.ooo, r.nxt, N, M1, N, hi, T);
    HeldShift(r.ooo, r.nxt, N, M1, N, hi, x);
    M := DrainRefines(r1, M1, N, hi, T, x);
    AddAdd(r.nxt, M1 - N, M - M1);
  }

  /** One arrival adds exactly the payload positions inside the window to the received
      set, keeps the right window edge where it was, and leaves RCV.NXT at the first
      missing position. */
  lemma {:induction false} AcceptRefines(r: Receiver, N: int, start: u32, payload: Payload, p: int, T: seq<u8>, x: int)
    returns (M: int)
    requires Inv(r, N, T)
    requires Near(r.nxt, start) && p == N + Dist(r.nxt, start) && FitsAt(payload, p, T)
    ensures var r' := Accept(r, start, payload);
      && Inv(r', M, T) && Advances(r, N, r', M) && !Has(r', M, M)
      && (Has(r', M, x) <==> Has(r, N, x) || (p <= x < p + |payload| && x < N + r.wnd))
  {
    TrimRefines(r, N, start, payload, p, T);
    var f := TrimToWindow(r, start, payload);
    if f.data == [] {
      M := N;
    } else if f.start == r.nxt {
      M := AcceptInOrder(r, N, f, T, x);
    } else {
      M := N;
      assert Placed(f, r.nxt, N, N, N + r.wnd);
      InsertRefines(r.ooo, f, r.nxt, N, N + r.wnd, T, x);
    }
    FirstMissing(Accept(r, start, payload), M);
  }

  lemma {:induction false} FirstMissing(r: Receiver, N: int)
    requires Ok(r, N)
    ensures !Has(r, N, N)
  {
  }

  // ----- whole runs of arrivals -----

  datatype Arrival = Arrival(start: u32, payload: Payload)

  /** The run's fixed frame of reference: RCV.NXT was nxt0 at position N. */
  datatype Origin = Origin(nxt0: u32, N: int)

  function PosOf(a: Arrival, o: Origin): int {
    o.N + Dist(o.nxt0, a.start)
  }

  predicate Brings(a: Arrival, o: Origin, x: int) {
    PosOf(a, o) <= x < PosOf(a, o) + |a.payload|
  }

  ghost predicate Brought(arrivals: seq<Arrival>, o: Origin, x: int) {
    exists a :: a in arrivals && Brings(a, o, x)
  }

  /** The bytes are the stream's, and the segment is within half the sequence space of
      every RCV.NXT between o.N and hi. */
  predicate OfStream(a: Arrival, o: Origin, hi: int, T: seq<u8>) {
    && hi - HALF < PosOf(a, o) < o.N + HALF - 0x1_0000
    && FitsAt(a.payload, PosOf(a, o), T)
  }

  /** rs is the sequence of receive states while the arrivals come in, with no reads. */
  ghost predicate IsRun(rs: seq<Receiver>, arrivals: seq<Arrival>) {
    && |rs| == |arrivals| + 1
    && forall i :: 0 <= i < |arrivals| ==> rs[i + 1] == Accept(rs[i], arrivals[i].start, arrivals[i].payload)
  }

  /** A run of stream segments from a receive state at the origin. */
  ghost predicate StreamRun(rs: seq<Receiver>, arrivals: seq<Arrival>, o: Origin, T: seq<u8>) {
    && IsRun(rs, arrivals)
    && Inv(rs[0], o.N, T) && rs[0].nxt == o.nxt0
    && forall a :: a in arrivals ==> OfStream(a, o, o.N + rs[0].wnd, T)
  }

  /** What a run has achieved: the received set is the initial one plus every brought
      position left of the (unmoved) right edge hi; RCV.NXT is at the first missing
      position M and the buffer holds the stream up to it. */
  ghost predicate Collected(r0: Receiver, o: Origin, arrivals: seq<Arrival>, hi: int, T: seq<u8>, x: int,
                            r: Receiver, M: int) {
    && 0 <= M - o.N < HALF && r.nxt == Add(o.nxt0, M - o.N)
    && M + r.wnd == hi && |r.buf| - |r0.buf| == M - o.N
    && Inv(r, M, T) && !Has(r, M, M)
    && (Has(r, M, x) <==> Has(r0, o.N, x) || (x < hi && Brought(arrivals, o, x)))
  }

  lemma {:induction false} BroughtSnoc(arrivals: seq<Arrival>, a: Arrival, o: Origin, x: int)
    ensures Brought(arrivals + [a], o, x) <==> Brought(arrivals, o, x) || Brings(a, o, x)
  {
    assert a in arrivals + [a];
    assert forall b :: b in arrivals ==> b in arrivals + [a];
  }

  lemma {:induction false} ArrivesNear(o: Origin, a: Arrival, hi: int, T: seq<u8>, nxt: u32, M: int)
    requires OfStream(a, o, hi, T) && o.N <= M <= hi <= o.N + MAX_WINDOW && nxt == Add(o.nxt0, M - o.N)
    ensures Near(nxt, a.start) && PosOf(a, o) == M + Dist(nxt, a.start)
  {
    DistShift(o.nxt0, a.start, M - o.N);
  }

  lemma {:induction false} ArriveCollects(r0: Receiver, o: Origin, sofar: seq<Arrival>, hi: int, T: seq<u8>, x: int,
                                          r: Receiver, M: int, a: Arrival) returns (M': int)
    requires Collected(r0, o, sofar, hi, T, x, r, M) && hi <= o.N + MAX_WINDOW
    requires OfStream(a, o, hi, T)
    ensures Collected(r0, o, sofar + [a], hi, T, x, Accept(r, a.start, a.payload), M')
  {
    ArrivesNear(o, a, hi, T, r.nxt, M);
    M' := AcceptRefines(r, M, a.start, a.payload, PosOf(a, o), T, x);
    AddAdd(o.nxt0, M - o.N, M' - M);
    BroughtSnoc(sofar, a, o, x);
  }

  lemma {:induction false} RunRefines(rs: seq<Receiver>, arrivals: seq<Arrival>, o: Origin, T: seq<u8>, x: int, n: nat)
    returns (M: int)
    requires StreamRun(rs, arrivals, o, T) && n <= |arrivals|
    ensures Collected(rs[0], o, arrivals[..n], o.N + rs[0].wnd, T, x, rs[n], M)
  {
    if n == 0 {
      M := o.N;
      FirstMissing(rs[0], o.N);
    } else {
      var M1 := RunRefines(rs, arrivals, o, T, x, n - 1);
      var a := arrivals[n - 1];
      assert a in arrivals;
      assert arrivals[..n] == arrivals[..n - 1] + [a];
      M := ArriveCollects(rs[0], o, arrivals[..n - 1], o.N + rs[0].wnd, T, x, rs[n - 1], M1, a);
    }
  }

  /** Where the first run stopped, the second has nothing either. */
  lemma {:induction false} RunNotPast(rs1: seq<Receiver>, as1: seq<Arrival>, rs2: seq<Receiver>, as2: seq<Arrival>,
                                      o: Origin, T: seq<u8>, M1: int)
    requires StreamRun(rs1, as1, o, T) && StreamRun(rs2, as2, o, T) && rs1[0] == rs2[0]
    requires Brought(as1, o, M1) <==> Brought(as2, o, M1)
    requires M1 == o.N + |rs1[|as1|].buf| - |rs1[0].buf|
    ensures |rs2[|as2|].buf| <= |rs1[|as1|].buf|
  {
    assert as1[..|as1|] == as1 && as2[..|as2|] == as2;
    var m1 := RunRefines(rs1, as1, o, T, M1, |as1|);
    var m2 := RunRefines(rs2, as2, o, T, M1, |as2|);
  }

  /** Arrival order, duplication and segmentation do not matter: two runs that bring the
      same positions end with the same RCV.NXT, window, buffer and held positions. */
  lemma {:induction false} RunOrderIndependent(rs1: seq<Receiver>, as1: seq<Arrival>, rs2: seq<Receiver>,
                                               as2: seq<Arrival>, o: Origin, T: seq<u8>, x: int)
    requires StreamRun(rs1, as1, o, T) && StreamRun(rs2, as2, o, T) && rs1[0] == rs2[0]
    requires forall y :: Brought(as1, o, y) <==> Brought(as2, o, y)
    ensures var r1, r2 := rs1[|as1|], rs2[|as2|];
      && r1.nxt == r2.nxt && r1.wnd == r2.wnd && r1.buf == r2.buf
      && var M := o.N + |r1.buf| - |rs1[0].buf|;
         Has(r1, M, x) <==> Has(r2, M, x)
  {
    var r1, r2 := rs1[|as1|], rs2[|as2|];
    RunNotPast(rs1, as1, rs2, as2, o, T, o.N + |r1.buf| - |rs1[0].buf|);
    RunNotPast(rs2, as2, rs1, as1, o, T, o.N + |r2.buf| - |rs1[0].buf|);
    assert as1[..|as1|] == as1 && as2[..|as2|] == as2;
    var M1 := RunRefines(rs1, as1, o, T, x, |as1|);
    var M2 := RunRefines(rs2, as2, o, T, x, |as2|);
    assert r1.buf == r2.buf;
  }

  // ----- the receive window -----

  /** Unread bytes plus window fit the buffer. */
  predicate Conserved(r: Receiver) {
    |r.buf| + r.wnd <= BuffCap(r) <= MAX_WINDOW
  }

  /** Reading never moves the right edge left, and keeps every held fragment inside it. */
  lemma {:induction false} ReadKeeps(r: Receiver, N: int, T: seq<u8>, n: nat, mss: u32)
    requires Inv(r, N, T) && Conserved(r) && n <= |r.buf|
    ensures var r' := Read(r, n, mss);
      && Inv(r', N, T) && Conserved(r')
      && r'.nxt == r.nxt && N + r.wnd <= N + r'.wnd
      && r.buf == r.buf[..n] + r'.buf
      && r' == r.(buf := r.buf[n..], wnd := r'.wnd)
  {
  }
}
