/** Challenge-ACK throttling (tcp/transport/statemachine.go:431-451): a start time and a
    counter, no timer.  Times are clock readings in nanoseconds. */
module ChallengeAck {
  import opened SeqNum

  const LIMIT: nat := 10
  const WINDOW: nat := 5_000_000_000

  datatype Throttle = Throttle(start: int, count: nat)

  /** Start a new counting window once the current one has elapsed. */
  function Renew(t: Throttle, now: int, window: nat): Throttle {
    if now - t.start > window then Throttle(now, 0) else t
  }

  predicate Allows(t: Throttle, now: int, limit: nat, window: nat) {
    Renew(t, now, window).count < limit
  }

  function Use(t: Throttle, now: int, limit: nat, window: nat): Throttle {
    var r := Renew(t, now, window);
    if r.count < limit then r.(count := r.count + 1) else r
  }

  // ----- runs of requests -----

  function After(t: Throttle, times: seq<int>, limit: nat, window: nat): Throttle
    decreases |times|
  {
    if times == [] then t
    else Use(After(t, times[..|times| - 1], limit, window), times[|times| - 1], limit, window)
  }

  /** How many of the requests were answered at a time in [a, b]. */
  function Emitted(t: Throttle, times: seq<int>, limit: nat, window: nat, a: int, b: int): nat
    decreases |times|
  {
    if times == [] then 0
    else
      var prev, now := times[..|times| - 1], times[|times| - 1];
      Emitted(t, prev, limit, window, a, b)
      + if Allows(After(t, prev, limit, window), now, limit, window) && a <= now <= b then 1 else 0
  }

  ghost predicate NonDecreasing(times: seq<int>) {
    forall i, j :: 0 <= i < j < |times| ==> times[i] <= times[j]
  }

  /** No window has been opened yet: the first request, at a time after t0, opens one. */
  predicate Unstarted(t: Throttle, t0: int, window: nat) {
    t.count == 0 && t.start + window < t0
  }

  lemma {:induction false} NotYet(t: Throttle, times: seq<int>, limit: nat, window: nat, a: int, b: int)
    requires NonDecreasing(times) && (times != [] ==> times[|times| - 1] < a)
    ensures Emitted(t, times, limit, window, a, b) == 0
    decreases |times|
  {
    if |times| > 1 {
      assert times[|times| - 2] <= times[|times| - 1];
    }
    if times != [] { NotYet(t, times[..|times| - 1], limit, window, a, b); }
  }

  /** The bookkeeping behind the bound: the first answer of a counting window happens at
      its start, so a window that began before a contributes at most limit - 1. */
  lemma {:induction false} RateInvariant(t: Throttle, times: seq<int>, limit: nat, window: nat, a: int)
    requires 0 < limit && NonDecreasing(times) && times != [] && Unstarted(t, times[0], window)
    ensures var n := Emitted(t, times, limit, window, a, a + window);
      var s := After(t, times, limit, window);
      && 1 <= s.count <= limit && s.start <= times[|times| - 1]
      && (s.start < a ==> n <= s.count - 1)
      && (a <= s.start <= a + window ==> n <= limit - 1 + s.count)
      && n <= 2 * limit - 1
    decreases |times|
  {
    var prev, now := times[..|times| - 1], times[|times| - 1];
    if prev == [] {
      assert After(t, prev, limit, window) == t;
    } else {
      assert times[|times| - 2] <= now && prev[0] == times[0];
      RateInvariant(t, prev, limit, window, a);
      if now < a { NotYet(t, times, limit, window, a, a + window); }
    }
  }

  /** Over any run with a non-decreasing clock, every closed interval as long as the
      counting window contains at most 2 * limit - 1 challenge ACKs. */
  lemma {:induction false} RateBound(t: Throttle, times: seq<int>, limit: nat, window: nat, a: int)
    requires 0 < limit && NonDecreasing(times)
    requires times != [] ==> Unstarted(t, times[0], window)
    ensures Emitted(t, times, limit, window, a, a + window) <= 2 * limit - 1
  {
    if times != [] { RateInvariant(t, times, limit, window, a); }
  }

  // ----- the exact count -----

  /** How many of the times are at most edge. */
  function Upto(times: seq<int>, edge: int): (n: nat)
    ensures n <= |times|
  {
    if times == [] then 0
    else Upto(times[..|times| - 1], edge) + if times[|times| - 1] <= edge then 1 else 0
  }

  ghost predicate Within(times: seq<int>, a: int, b: int) {
    forall i :: 0 <= i < |times| ==> a <= times[i] <= b
  }

  lemma {:induction false} AllUpto(times: seq<int>, edge: int)
    requires NonDecreasing(times) && times != [] && times[|times| - 1] <= edge
    ensures Upto(times, edge) == |times|
  {
    if |times| > 1 {
      assert times[|times| - 2] <= times[|times| - 1];
      AllUpto(times[..|times| - 1], edge);
    }
  }

  /** What m requests do to a throttle s whose window covers them all. */
  function Spent(s: Throttle, m: nat, limit: nat): Throttle
    requires s.count <= limit
  {
    s.(count := s.count + Min(limit - s.count, m))
  }

  /** In an interval one window long, starting no earlier than the current counting window,
      at most one new window opens.  The state after n1 requests the old window still
      covers and n2 later ones. */
  predicate InsideState(s: Throttle, e: Throttle, n1: nat, n2: nat, limit: nat, a: int)
    requires s.count <= limit
  {
    if n2 == 0 then e == Spent(s, n1, limit) else e.start >= a && e.count == Min(limit, n2)
  }

  lemma {:induction false} InsideStep(s: Throttle, p: Throttle, n1: nat, n2: nat, now: int, limit: nat, window: nat,
                                      a: int)
    requires s.count <= limit && s.start <= a <= now <= a + window && InsideState(s, p, n1, n2, limit, a)
    requires now <= s.start + window ==> n2 == 0
    ensures var e, one := Use(p, now, limit, window), if Allows(p, now, limit, window) then 1 else 0;
      if now <= s.start + window then
        InsideState(s, e, n1 + 1, 0, limit, a) && one == Min(limit - s.count, n1 + 1) - Min(limit - s.count, n1)
      else
        InsideState(s, e, n1, n2 + 1, limit, a) && one == Min(limit, n2 + 1) - Min(limit, n2)
  {
  }

  lemma {:induction false} AllButLast(times: seq<int>, a: int, b: int)
    requires times != [] && NonDecreasing(times) && Within(times, a, b)
    ensures var prev := times[..|times| - 1]; NonDecreasing(prev) && Within(prev, a, b)
    ensures a <= times[|times| - 1] <= b
  {
    var prev := times[..|times| - 1];
    forall i | 0 <= i < |prev| ensures prev[i] == times[i] {}
  }

  lemma {:induction false} UptoMore(prev: seq<int>, now: int, edge: int)
    requires NonDecreasing(prev + [now])
    ensures Upto(prev + [now], edge) == Upto(prev, edge) + (if now <= edge then 1 else 0)
    ensures now <= edge ==> Upto(prev, edge) == |prev|
  {
    var all := prev + [now];
    assert all[..|all| - 1] == prev && all[|all| - 1] == now;
    if prev != [] && now <= edge {
      assert all[|prev| - 1] <= all[|prev|];
      forall i, j | 0 <= i < j < |prev| ensures prev[i] <= prev[j] { assert all[i] <= all[j]; }
      AllUpto(prev, edge);
    }
  }

  /** The n1 requests that the old window still covers take what is left of its limit, the
      n2 later ones a fresh limit. */
  predicate InsideCounted(s: Throttle, inside: seq<int>, limit: nat, window: nat, a: int)
    requires s.count <= limit
  {
    var n1 := Upto(inside, s.start + window);
    var n2 := |inside| - n1;
    && Emitted(s, inside, limit, window, a, a + window) == Min(limit - s.count, n1) + Min(limit, n2)
    && InsideState(s, After(s, inside, limit, window), n1, n2, limit, a)
  }

  lemma {:induction false} InsideMore(s: Throttle, prev: seq<int>, now: int, limit: nat, window: nat, a: int)
    requires s.count <= limit && s.start <= a <= now <= a + window
    requires NonDecreasing(prev + [now]) && InsideCounted(s, prev, limit, window, a)
    ensures InsideCounted(s, prev + [now], limit, window, a)
  {
    UptoMore(prev, now, s.start + window);
    var n1 := Upto(prev, s.start + window);
    InsideStep(s, After(s, prev, limit, window), n1, |prev| - n1, now, limit, window, a);
    OneMore(s, prev, now, limit, window, a, a + window);
  }

  lemma {:induction false} InsideCount(s: Throttle, inside: seq<int>, limit: nat, window: nat, a: int)
    requires s.count <= limit && s.start <= a
    requires NonDecreasing(inside) && Within(inside, a, a + window)
    ensures InsideCounted(s, inside, limit, window, a)
  {
    if inside != [] {
      var prev, now := inside[..|inside| - 1], inside[|inside| - 1];
      assert inside == prev + [now];
      AllButLast(inside, a, a + window);
      InsideCount(s, prev, limit, window, a);
      InsideMore(s, prev, now, limit, window, a);
    }
  }

  lemma {:induction false} AfterAppend(t: Throttle, u: seq<int>, v: seq<int>, limit: nat, window: nat, a: int, b: int)
    ensures After(t, u + v, limit, window) == After(After(t, u, limit, window), v, limit, window)
    ensures Emitted(t, u + v, limit, window, a, b)
      == Emitted(t, u, limit, window, a, b) + Emitted(After(t, u, limit, window), v, limit, window, a, b)
  {
    if v == [] {
      assert u + v == u;
    } else {
      var prev, now := v[..|v| - 1], v[|v| - 1];
      AfterAppend(t, u, prev, limit, window, a, b);
      assert u + v == (u + prev) + [now];
      OneMore(t, u + prev, now, limit, window, a, b);
    }
  }

  lemma {:induction false} UptoCuts(times: seq<int>, edge: int)
    requires NonDecreasing(times)
    ensures forall i :: 0 <= i < Upto(times, edge) ==> times[i] <= edge
    ensures forall i :: Upto(times, edge) <= i < |times| ==> edge < times[i]
  {
    if times != [] {
      var prev, now := times[..|times| - 1], times[|times| - 1];
      assert times == prev + [now];
      UptoMore(prev, now, edge);
      UptoCuts(prev, edge);
    }
  }

  lemma {:induction false} UptoMono(times: seq<int>, e: int, f: int)
    requires e <= f
    ensures Upto(times, e) <= Upto(times, f)
  {
    if times != [] { UptoMono(times[..|times| - 1], e, f); }
  }

  /** The requests of a run before a, and those in [a, b]. */
  function Before(times: seq<int>, a: int): seq<int> {
    times[..Upto(times, a - 1)]
  }

  function During(times: seq<int>, a: int, b: int): seq<int> {
    var lo, hi := Upto(times, a - 1), Upto(times, b);
    if lo <= hi then times[lo..hi] else []
  }

  lemma {:induction false} BeforeOrdered(times: seq<int>, a: int)
    requires NonDecreasing(times)
    ensures var before := Before(times, a); NonDecreasing(before) && (before != [] ==> before[|before| - 1] < a)
  {
    UptoCuts(times, a - 1);
  }

  lemma {:induction false} DuringOrdered(times: seq<int>, a: int, b: int)
    requires NonDecreasing(times)
    ensures NonDecreasing(During(times, a, b)) && Within(During(times, a, b), a, b)
  {
    UptoCuts(times, a - 1);
    UptoCuts(times, b);
  }

  /** Only the requests inside the interval count, from the throttle that those before left. */
  predicate CutCounted(t: Throttle, times: seq<int>, limit: nat, window: nat, a: int, b: int) {
    var s, inside := After(t, Before(times, a), limit, window), During(times, a, b);
    && Emitted(t, times, limit, window, a, b) == Emitted(s, inside, limit, window, a, b)
    && (Upto(times, b) == |times| ==> After(t, times, limit, window) == After(s, inside, limit, window))
  }

  lemma {:induction false} CutEarly(prev: seq<int>, now: int, a: int, b: int)
    requires NonDecreasing(prev + [now]) && now < a <= b
    ensures var all := prev + [now];
      Before(all, a) == all && During(all, a, b) == [] && Before(prev, a) == prev && During(prev, a, b) == []
  {
    UptoMore(prev, now, a - 1);
    UptoMore(prev, now, b);
    UptoMono(prev, a - 1, b);
  }

  lemma {:induction false} CutInside(prev: seq<int>, now: int, a: int, b: int)
    requires NonDecreasing(prev + [now]) && a <= now <= b
    ensures var all := prev + [now];
      Before(all, a) == Before(prev, a) && During(all, a, b) == During(prev, a, b) + [now] && Upto(prev, b) == |prev|
  {
    UptoMore(prev, now, a - 1);
    UptoMore(prev, now, b);
    UptoMono(prev, a - 1, b);
    SliceMore(prev, now, Upto(prev, a - 1));
  }

  lemma {:induction false} SliceMore(prev: seq<int>, now: int, lo: nat)
    requires lo <= |prev|
    ensures var all := prev + [now];
      all[..lo] == prev[..lo] && all[lo..|all|] == prev[lo..|prev|] + [now]
  {
  }

  lemma {:induction false} CutLate(prev: seq<int>, now: int, a: int, b: int)
    requires NonDecreasing(prev + [now]) && a <= b < now
    ensures var all := prev + [now];
      Before(all, a) == Before(prev, a) && During(all, a, b) == During(prev, a, b) && Upto(all, b) < |all|
  {
    UptoMore(prev, now, a - 1);
    UptoMore(prev, now, b);
    UptoMono(prev, a - 1, b);
  }

  lemma {:induction false} CutMore(t: Throttle, prev: seq<int>, now: int, limit: nat, window: nat, a: int, b: int)
    requires NonDecreasing(prev + [now]) && a <= b && CutCounted(t, prev, limit, window, a, b)
    ensures CutCounted(t, prev + [now], limit, window, a, b)
  {
    OneMore(t, prev, now, limit, window, a, b);
    if now < a {
      CutEarly(prev, now, a, b);
    } else if now <= b {
      CutInside(prev, now, a, b);
      OneMore(After(t, Before(prev, a), limit, window), During(prev, a, b), now, limit, window, a, b);
    } else {
      CutLate(prev, now, a, b);
    }
  }

  lemma {:induction false} CutCount(t: Throttle, times: seq<int>, limit: nat, window: nat, a: int, b: int)
    requires NonDecreasing(times) && a <= b
    ensures CutCounted(t, times, limit, window, a, b)
  {
    if times != [] {
      var prev, now := times[..|times| - 1], times[|times| - 1];
      assert times == prev + [now];
      CutCount(t, prev, limit, window, a, b);
      CutMore(t, prev, now, limit, window, a, b);
    }
  }

  lemma {:induction false} BeforeState(t: Throttle, times: seq<int>, limit: nat, window: nat, a: int)
    requires 0 < limit && NonDecreasing(times) && t.count == 0
    requires times != [] ==> Unstarted(t, times[0], window)
    ensures var s := After(t, Before(times, a), limit, window);
      s.count <= limit && (s.start <= a || (s == t && (times != [] ==> a + window < times[0])))
  {
    var before := Before(times, a);
    BeforeOrdered(times, a);
    if before != [] { RateInvariant(t, before, limit, window, a); }
  }

  lemma {:induction false} NothingInside(times: seq<int>, a: int, b: int)
    requires NonDecreasing(times) && a <= b && times != [] && b < times[0]
    ensures During(times, a, b) == []
  {
    UptoCuts(times, b);
  }

  lemma {:induction false} InsideOrNone(s: Throttle, inside: seq<int>, limit: nat, window: nat, a: int)
    requires s.count <= limit && (s.start <= a || (inside == [] && s.count == 0))
    requires NonDecreasing(inside) && Within(inside, a, a + window)
    ensures InsideCounted(s, inside, limit, window, a)
  {
    if s.start <= a { InsideCount(s, inside, limit, window, a); }
  }

  lemma {:induction false} DuringFacts(times: seq<int>, a: int, b: int)
    requires NonDecreasing(times) && a <= b
    ensures NonDecreasing(During(times, a, b)) && Within(During(times, a, b), a, b)
    ensures (times != [] ==> b < times[0]) ==> During(times, a, b) == []
  {
    DuringOrdered(times, a, b);
    if times != [] && b < times[0] { NothingInside(times, a, b); }
  }

  lemma {:induction false} DuringCount(t: Throttle, times: seq<int>, limit: nat, window: nat, a: int)
    requires 0 < limit && NonDecreasing(times) && t.count == 0
    requires times != [] ==> Unstarted(t, times[0], window)
    ensures var s := After(t, Before(times, a), limit, window);
      s.count <= limit && InsideCounted(s, During(times, a, a + window), limit, window, a)
  {
    BeforeState(t, times, limit, window, a);
    DuringFacts(times, a, a + window);
    InsideOrNone(After(t, Before(times, a), limit, window), During(times, a, a + window), limit, window, a);
  }

  /** What the requests in [a, a + window] take: those the counting window open at a still
      covers take what is left of its limit, those after it a fresh limit. */
  function Shares(t: Throttle, times: seq<int>, limit: nat, window: nat, a: int): int {
    var s, inside := After(t, Before(times, a), limit, window), During(times, a, a + window);
    var covered := Upto(inside, s.start + window);
    Min(limit - s.count, covered) + Min(limit, |inside| - covered)
  }

  /** The counting window open at a expires inside the interval, more requests follow than it
      had answered before a (up to the limit), and these together with the ones it still
      covers are more than the limit. */
  predicate Overruns(t: Throttle, times: seq<int>, limit: nat, window: nat, a: int) {
    var s, inside := After(t, Before(times, a), limit, window), During(times, a, a + window);
    var covered := Upto(inside, s.start + window);
    var later := Min(limit, |inside| - covered);
    s.count < later && limit < covered + later
  }

  lemma {:induction false} SharesExceed(t: Throttle, times: seq<int>, limit: nat, window: nat, a: int)
    requires After(t, Before(times, a), limit, window).count <= limit
    ensures Shares(t, times, limit, window, a) > limit <==> Overruns(t, times, limit, window, a)
  {
  }

  lemma {:induction false} SharesInside(t: Throttle, times: seq<int>, limit: nat, window: nat, a: int)
    requires 0 < limit && NonDecreasing(times) && t.count == 0
    requires times != [] ==> Unstarted(t, times[0], window)
    ensures Emitted(After(t, Before(times, a), limit, window), During(times, a, a + window),
                    limit, window, a, a + window)
      == Shares(t, times, limit, window, a)
  {
    DuringCount(t, times, limit, window, a);
  }

  /** The exact number of challenge ACKs in [a, a + window], for every run of requests, and
      hence exactly when the interval keeps to the limit. */
  lemma {:induction false} ExactCount(t: Throttle, times: seq<int>, limit: nat, window: nat, a: int)
    requires 0 < limit && NonDecreasing(times) && t.count == 0
    requires times != [] ==> Unstarted(t, times[0], window)
    ensures var n, shares := Emitted(t, times, limit, window, a, a + window), Shares(t, times, limit, window, a);
      n == shares && (n > limit <==> Overruns(t, times, limit, window, a))
  {
    DuringCount(t, times, limit, window, a);
    SharesExceed(t, times, limit, window, a);
    CutCount(t, times, limit, window, a, a + window);
    SharesInside(t, times, limit, window, a);
  }

  /** One counting window answers exactly as often as its counter says, never above the
      limit. */
  lemma {:induction false} WindowCount(t: Throttle, times: seq<int>, limit: nat, window: nat, b: int)
    requires 0 < limit && NonDecreasing(times) && times != [] && Unstarted(t, times[0], window)
    requires times[|times| - 1] <= b
    ensures var s := After(t, times, limit, window);
      Emitted(t, times, limit, window, s.start, b) == s.count <= limit
    decreases |times|
  {
    var prev, now := times[..|times| - 1], times[|times| - 1];
    RateInvariant(t, times, limit, window, now);
    if prev == [] {
      assert After(t, prev, limit, window) == t;
    } else {
      var s := After(t, prev, limit, window);
      assert prev[|prev| - 1] <= now && prev[0] == times[0] && NonDecreasing(prev);
      if now - s.start > window {
        RateInvariant(t, prev, limit, window, now);
        RenewedLater(t, prev, limit, window, now);
        NotYet(t, prev, limit, window, now, b);
      } else {
        WindowCount(t, prev, limit, window, b);
      }
    }
  }

  /** A renewal cannot follow another request at the same instant. */
  lemma {:induction false} RenewedLater(t: Throttle, times: seq<int>, limit: nat, window: nat, now: int)
    requires times != [] && now - After(t, times, limit, window).start > window
    ensures times[|times| - 1] != now
  {
  }

  // ----- the bound is attained -----

  function Repeat(now: int, n: nat): seq<int> {
    seq(n, _ => now)
  }

  lemma {:induction false} OneMore(t: Throttle, times: seq<int>, now: int, limit: nat, window: nat, a: int, b: int)
    ensures var s, all := After(t, times, limit, window), times + [now];
      && After(t, all, limit, window) == Use(s, now, limit, window)
      && Emitted(t, all, limit, window, a, b)
         == Emitted(t, times, limit, window, a, b) + if Allows(s, now, limit, window) && a <= now <= b then 1 else 0
  {
    var all := times + [now];
    assert all[..|all| - 1] == times && all[|all| - 1] == now;
  }

  /** n requests at one instant of an open window are all answered while the limit lasts. */
  lemma {:induction false} Burst(s: Throttle, now: int, n: nat, limit: nat, window: nat, a: int, b: int)
    requires s.count + n <= limit && now - s.start <= window && a <= now <= b
    ensures After(s, Repeat(now, n), limit, window) == s.(count := s.count + n)
    ensures Emitted(s, Repeat(now, n), limit, window, a, b) == n
  {
    if n > 0 {
      Burst(s, now, n - 1, limit, window, a, b);
      OneMore(s, Repeat(now, n - 1), now, limit, window, a, b);
      assert Repeat(now, n) == Repeat(now, n - 1) + [now];
    }
  }

  /** One request that opens a window, and n more in it at a time inside [a, b]. */
  lemma {:induction false} OpenAndBurst(s: Throttle, first: int, now: int, n: nat, limit: nat, window: nat, a: int,
                                        b: int)
    requires s.start + window < first <= now <= first + window && 1 + n <= limit && a <= now <= b
    ensures var times := [first] + Repeat(now, n);
      && After(s, times, limit, window) == Throttle(first, 1 + n)
      && Emitted(s, times, limit, window, a, b) == n + if a <= first <= b then 1 else 0
  {
    OneMore(s, [], first, limit, window, a, b);
    assert [] + [first] == [first];
    AfterAppend(s, [first], Repeat(now, n), limit, window, a, b);
    Burst(Throttle(first, 1), now, n, limit, window, a, b);
  }

  /** One answer at 0, the rest of that window's answers at its last instant, and a full
      new window one tick later. */
  function BurstTimes(limit: nat, window: nat): seq<int>
    requires 0 < limit
  {
    ([0] + Repeat(window, limit - 1)) + ([window + 1] + Repeat(window + 1, limit - 1))
  }

  lemma {:induction false} BurstsOrdered(limit: nat, window: nat)
    requires 0 < limit
    ensures NonDecreasing(BurstTimes(limit, window)) && BurstTimes(limit, window)[0] == 0
  {
    var u, v := [0] + Repeat(window, limit - 1), [window + 1] + Repeat(window + 1, limit - 1);
    assert forall i :: 0 <= i < |u| ==> u[i] == if i == 0 then 0 else window;
    assert forall i :: 0 <= i < |v| ==> v[i] == window + 1;
  }

  lemma {:induction false} Joined(t: Throttle, u: seq<int>, v: seq<int>, s: Throttle, m: nat, n: nat, limit: nat,
                                  window: nat, a: int, b: int)
    requires After(t, u, limit, window) == s && Emitted(t, u, limit, window, a, b) == m
    requires Emitted(s, v, limit, window, a, b) == n
    ensures Emitted(t, u + v, limit, window, a, b) == m + n
  {
    AfterAppend(t, u, v, limit, window, a, b);
  }

  lemma {:induction false} BurstsCount(t: Throttle, limit: nat, window: nat)
    requires 0 < limit && 0 < window && Unstarted(t, 0, window)
    ensures Emitted(t, BurstTimes(limit, window), limit, window, window, window + window) == 2 * limit - 1
  {
    var u, v := [0] + Repeat(window, limit - 1), [window + 1] + Repeat(window + 1, limit - 1);
    OpenAndBurst(t, 0, window, limit - 1, limit, window, window, window + window);
    OpenAndBurst(Throttle(0, limit), window + 1, window + 1, limit - 1, limit, window, window, window + window);
    Joined(t, u, v, Throttle(0, limit), limit - 1, limit, limit, window, window, window + window);
  }

  /** So an interval of one window can hold 2 * limit - 1 answers: [window, 2 * window]. */
  lemma {:induction false} RateBoundAttained(t: Throttle, limit: nat, window: nat) returns (times: seq<int>)
    requires 0 < limit && 0 < window && Unstarted(t, 0, window)
    ensures NonDecreasing(times) && times != [] && times[0] == 0
    ensures Emitted(t, times, limit, window, window, window + window) == 2 * limit - 1
  {
    times := BurstTimes(limit, window);
    BurstsOrdered(limit, window);
    BurstsCount(t, limit, window);
  }
}
