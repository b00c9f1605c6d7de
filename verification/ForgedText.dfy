/** The receive window under arbitrary data segments, forged ones included: which bytes
    arrive does not matter to where they are put, so the accounting of Reassembly carries
    over from honest streams (tcp/transport/data.go:172-300). */
module ForgedText {
  import opened SeqNum
  import opened Reassembly
  import opened Segments
  import opened Tcb
  import opened StateMachine
  import opened Frames
  import opened SenderSteps
  import opened Runs
  import Lifecycle

  // ----- erasing the bytes -----

  function Zeros(n: nat): (z: seq<u8>)
    ensures |z| == n && forall i :: 0 <= i < n ==> z[i] == 0
  {
    seq(n, _ => 0)
  }

  function Blank(f: Fragment): Fragment {
    Fragment(f.start, Zeros(|f.data|))
  }

  function BlankAll(ooo: seq<Fragment>): (b: seq<Fragment>)
    ensures |b| == |ooo| && forall i :: 0 <= i < |ooo| ==> b[i] == Blank(ooo[i])
  {
    if ooo == [] then [] else [Blank(ooo[0])] + BlankAll(ooo[1..])
  }

  function Erase(r: Receiver): Receiver {
    r.(buf := Zeros(|r.buf|), ooo := BlankAll(r.ooo))
  }

  lemma {:induction false} ZerosSlice(n: nat, i: nat)
    requires i <= n
    ensures Zeros(n)[i..] == Zeros(n - i) && Zeros(n)[..i] == Zeros(i)
  {
  }

  lemma {:induction false} ZerosJoin(m: nat, n: nat)
    ensures Zeros(m) + Zeros(n) == Zeros(m + n)
  {
  }

  lemma {:induction false} TrimErase(r: Receiver, start: u32, payload: Payload)
    ensures TrimToWindow(Erase(r), start, Zeros(|payload|)) == Blank(TrimToWindow(r, start, payload))
  {
    var skip := Sub(r.nxt, start);
    if skip < |payload| { ZerosSlice(|payload|, skip); }
    var d := if SeqLT(start, r.nxt) && skip < |payload| then payload[skip..] else payload;
    var over := Sub(Add(start, |payload|), Add(r.nxt, r.wnd));
    if over < |d| { ZerosSlice(|d|, |d| - over); }
  }

  lemma {:induction false} InsertErase(ooo: seq<Fragment>, f: Fragment)
    ensures InsertOoo(BlankAll(ooo), Blank(f)) == BlankAll(InsertOoo(ooo, f))
  {
    if ooo != [] {
      InsertErase(ooo[1..], f);
      assert BlankAll(ooo)[1..] == BlankAll(ooo[1..]);
    }
  }

  lemma {:induction false} RemoveErase(ooo: seq<Fragment>, nxt: u32)
    ensures RemoveConsumed(BlankAll(ooo), nxt) == BlankAll(RemoveConsumed(ooo, nxt))
  {
    if ooo != [] {
      RemoveErase(ooo[1..], nxt);
      assert BlankAll(ooo)[1..] == BlankAll(ooo[1..]);
    }
  }

  lemma {:induction false} FindErase(ooo: seq<Fragment>, nxt: u32)
    ensures FindCover(BlankAll(ooo), nxt) == FindCover(ooo, nxt)
  {
    if ooo != [] {
      FindErase(ooo[1..], nxt);
      assert BlankAll(ooo)[1..] == BlankAll(ooo[1..]);
    }
  }

  lemma {:induction false} TakenErase(buf: seq<u8>, d: seq<u8>, skip: nat)
    requires skip <= |d|
    ensures Zeros(|buf|) + Zeros(|d|)[skip..] == Zeros(|buf + d[skip..]|)
    ensures |Zeros(|d|)[skip..]| == |d[skip..]|
  {
    ZerosSlice(|d|, skip);
    ZerosJoin(|buf|, |d| - skip);
  }

  lemma {:induction false} AbsorbErase(r: Receiver, i: nat)
    requires i < |r.ooo| && Covers(r.ooo[i], r.nxt)
    ensures Absorb(Erase(r), i) == Erase(Absorb(r, i))
  {
    var f := r.ooo[i];
    CoverSkip(f, r.nxt);
    var skip := Sub(r.nxt, f.start);
    TakenErase(r.buf, f.data, skip);
    RemoveErase(r.ooo, Add(r.nxt, |f.data[skip..]|));
  }

  lemma {:induction false} DrainErase(r: Receiver)
    ensures DrainOoo(Erase(r)) == Erase(DrainOoo(r))
    decreases |r.ooo|
  {
    var i := FindCover(r.ooo, r.nxt);
    FindErase(r.ooo, r.nxt);
    if i < 0 {
      RemoveErase(r.ooo, r.nxt);
    } else {
      AbsorbErase(r, i);
      DrainErase(Absorb(r, i));
    }
  }

  lemma {:induction false} ExtendErase(r: Receiver, d: seq<u8>, nxt: u32)
    ensures Erase(r).(buf := Erase(r).buf + Zeros(|d|), nxt := nxt) == Erase(r.(buf := r.buf + d, nxt := nxt))
  {
    ZerosJoin(|r.buf|, |d|);
  }

  lemma {:induction false} InOrderErase(r: Receiver, f: Fragment)
    requires f.start == r.nxt
    ensures var nxt := Add(r.nxt, |f.data|);
      DrainOoo(Erase(r).(buf := Erase(r).buf + Blank(f).data, nxt := nxt))
        == Erase(DrainOoo(r.(buf := r.buf + f.data, nxt := nxt)))
  {
    var nxt := Add(r.nxt, |f.data|);
    ExtendErase(r, f.data, nxt);
    DrainErase(r.(buf := r.buf + f.data, nxt := nxt));
  }

  /** Where bytes are put does not depend on the bytes. */
  lemma {:induction false} AcceptErase(r: Receiver, start: u32, payload: Payload)
    ensures Accept(Erase(r), start, Zeros(|payload|)) == Erase(Accept(r, start, payload))
  {
    var f := TrimToWindow(r, start, payload);
    TrimErase(r, start, payload);
    PlaceErase(r, f, start, payload, Zeros(|payload|));
  }

  lemma {:induction false} PlaceErase(r: Receiver, f: Fragment, start: u32, payload: Payload, zeros: Payload)
    requires f == TrimToWindow(r, start, payload) && Blank(f) == TrimToWindow(Erase(r), start, zeros)
    ensures Accept(Erase(r), start, zeros) == Erase(Accept(r, start, payload))
  {
    if f.data == [] {
      assert Blank(f).data == [];
    } else if f.start == r.nxt {
      InOrderErase(r, f);
    } else {
      InsertErase(r.ooo, f);
    }
  }

  // ----- the accounting -----

  /** Unread bytes plus window fit the buffer; what is held is sorted and inside the window,
      and starts less than k before the byte after RCV.NXT: strictly beyond RCV.NXT for
      k = 0, at or beyond it for k = 1. */
  ghost predicate LooseOk(r: Receiver, k: nat) {
    && Conserved(r) && BuffCap(r) + k <= Reassembly.MAX_WINDOW
    && AllPlaced(r.ooo, r.nxt, 0, 0 - k, r.wnd) && Sorted(r.ooo, r.nxt)
  }

  /** What data alone keeps: held strictly beyond RCV.NXT. */
  ghost predicate ShapeOk(r: Receiver) {
    Conserved(r) && Ok(r, 0)
  }

  lemma {:induction false} PlacedErase(ooo: seq<Fragment>, nxt: u32, lo: int, hi: int)
    requires AllPlaced(ooo, nxt, 0, lo, hi)
    ensures AllPlaced(BlankAll(ooo), nxt, 0, lo, hi)
  {
    var b := BlankAll(ooo);
    forall g | g in b ensures Placed(g, nxt, 0, lo, hi) {
      var i :| 0 <= i < |b| && b[i] == g;
      assert ooo[i] in ooo;
    }
  }

  lemma {:induction false} PlacedRestore(ooo: seq<Fragment>, nxt: u32, lo: int, hi: int)
    requires AllPlaced(BlankAll(ooo), nxt, 0, lo, hi)
    ensures AllPlaced(ooo, nxt, 0, lo, hi)
  {
    var b := BlankAll(ooo);
    forall f | f in ooo ensures Placed(f, nxt, 0, lo, hi) {
      var i :| 0 <= i < |ooo| && ooo[i] == f;
      assert b[i] in b;
    }
  }

  lemma {:induction false} SortedErase(ooo: seq<Fragment>, nxt: u32)
    ensures Sorted(BlankAll(ooo), nxt) <==> Sorted(ooo, nxt)
  {
    var b := BlankAll(ooo);
    forall i, j | 0 <= i < j < |b| ensures b[i].start == ooo[i].start && b[j].start == ooo[j].start {}
  }

  /** Erased, what is held is ready for the drain, at position N of a stream of zeros. */
  lemma {:induction false} ErasedDraining(r: Receiver, k: nat, N: int, T: seq<u8>)
    requires LooseOk(r, k) && N == |r.buf| + HALF && T == Zeros(N + HALF)
    ensures var e := Erase(r);
      && AllPlaced(e.ooo, e.nxt, N, N - k, N + r.wnd) && Sorted(e.ooo, e.nxt) && Fits(e.ooo, e.nxt, N, T)
      && FitsAt(e.buf, N - |e.buf|, T)
  {
    PlacedErase(r.ooo, r.nxt, 0 - k, r.wnd);
    SortedErase(r.ooo, r.nxt);
    var e := Erase(r);
    forall f | f in e.ooo ensures Placed(f, e.nxt, N, N - k, N + r.wnd) && FitsAt(f.data, At(f, e.nxt, N), T) {
      assert Placed(f, e.nxt, 0, 0 - k, r.wnd);
      var i :| 0 <= i < |e.ooo| && e.ooo[i] == f;
      assert f == Blank(r.ooo[i]);
    }
  }

  /** In-order bytes, and the drain behind them. */
  lemma {:induction false} LooseInOrder(e: Receiver, k: nat, f: Fragment, N: int, T: seq<u8>) returns (M: int)
    requires e.wnd + k <= Reassembly.MAX_WINDOW && 0 <= N - k
    requires AllPlaced(e.ooo, e.nxt, N, N - k, N + e.wnd) && Sorted(e.ooo, e.nxt) && Fits(e.ooo, e.nxt, N, T)
    requires FitsAt(e.buf, N - |e.buf|, T) && FitsAt(f.data, N, T) && 0 < |f.data| <= e.wnd
    ensures var e1 := e.(buf := e.buf + f.data, nxt := Add(e.nxt, |f.data|));
      Drained(e1, N + |f.data|, DrainOoo(e1), M, N + e.wnd, T, 0)
  {
    var M1 := N + |f.data|;
    FitsAppend(e.buf, f.data, N, M1, T);
    AllShift(e.ooo, e.nxt, N, M1, N - k, N + e.wnd, T);
    M := DrainRefines(e.(buf := e.buf + f.data, nxt := Add(e.nxt, M1 - N)), M1, N - k, N + e.wnd, T, 0);
  }

  /** After the drain nothing is left at or before RCV.NXT. */
  lemma {:induction false} LooseDrained(r: Receiver, n: nat, N: int, d: Receiver, M: int, T: seq<u8>)
    requires Conserved(r) && 0 < n <= r.wnd
    requires Drained(r.(buf := Zeros(|r.buf| + n), nxt := Add(r.nxt, n), ooo := BlankAll(r.ooo)), N + n, Erase(d),
      M, N + r.wnd, T, 0)
    ensures var r' := d.(wnd := ConsumeWindow(d.wnd, Sub(d.nxt, r.nxt)));
      ShapeOk(r') && Add(r'.nxt, r'.wnd) == Add(r.nxt, r.wnd) && |r'.buf| + r'.wnd == |r.buf| + r.wnd
  {
    AddAdd(r.nxt, n, M - N - n);
    SortedErase(d.ooo, d.nxt);
    forall g | g in BlankAll(d.ooo) ensures Placed(g, d.nxt, 0, 0, N + r.wnd - M) {
      assert Placed(g, d.nxt, M, M, N + r.wnd);
    }
    PlacedRestore(d.ooo, d.nxt, 0, N + r.wnd - M);
  }

  lemma {:induction false} ShapeIsLoose(r: Receiver, k: nat)
    requires ShapeOk(r) && BuffCap(r) + k <= Reassembly.MAX_WINDOW
    ensures LooseOk(r, k)
  {
    forall f | f in r.ooo ensures Placed(f, r.nxt, 0, 0 - k, r.wnd) {
      assert Placed(f, r.nxt, 0, 0, r.wnd);
    }
  }

  /** Seen from k before RCV.NXT everything held lies ahead. */
  lemma {:induction false} SeenFromBehind(nxt: u32, k: nat, start: u32)
    requires k <= Reassembly.MAX_WINDOW && 0 - k < Dist(nxt, start) <= Reassembly.MAX_WINDOW - k
    ensures Dist(Sub(nxt, k), start) == Dist(nxt, start) + k
  {
  }

  lemma {:induction false} CapKept(r: Receiver, f: Fragment)
    ensures BuffCap(DrainOoo(r.(buf := r.buf + f.data, nxt := Add(r.nxt, |f.data|)))) == BuffCap(r)
  {
    DrainFrame(r.(buf := r.buf + f.data, nxt := Add(r.nxt, |f.data|)));
  }

  lemma {:induction false} SortedBehind(ooo: seq<Fragment>, nxt: u32, k: nat, wnd: nat)
    requires wnd + k <= Reassembly.MAX_WINDOW && AllPlaced(ooo, nxt, 0, 0 - k, wnd)
    ensures Sorted(ooo, Sub(nxt, k)) <==> Sorted(ooo, nxt)
    ensures forall g :: g in ooo ==> 0 <= Dist(Sub(nxt, k), g.start) <= Reassembly.MAX_WINDOW
  {
    var back := Sub(nxt, k);
    forall g | g in ooo ensures Dist(back, g.start) == Dist(nxt, g.start) + k
      && 0 <= Dist(back, g.start) <= Reassembly.MAX_WINDOW {
      assert Placed(g, nxt, 0, 0 - k, wnd);
      SeenFromBehind(nxt, k, g.start);
    }
    forall i, j | 0 <= i < j < |ooo|
      ensures Dist(back, ooo[i].start) <= Dist(back, ooo[j].start)
        <==> Dist(nxt, ooo[i].start) <= Dist(nxt, ooo[j].start)
    {
      assert ooo[i] in ooo && ooo[j] in ooo;
    }
  }

  lemma {:induction false} PlacedInsert(ooo: seq<Fragment>, f: Fragment, nxt: u32, k: nat, wnd: int)
    requires AllPlaced(ooo, nxt, 0, 0 - k, wnd) && Placed(f, nxt, 0, 0, wnd)
    ensures AllPlaced(InsertOoo(ooo, f), nxt, 0, 0 - k, wnd)
  {
    InsertMembers(ooo, f);
    forall g | g in InsertOoo(ooo, f) ensures Placed(g, nxt, 0, 0 - k, wnd) {
      assert g in ooo ==> Placed(g, nxt, 0, 0 - k, wnd);
    }
  }

  /** Holding a fragment keeps the list sorted, whatever lies behind. */
  lemma {:induction false} LooseInsert(ooo: seq<Fragment>, f: Fragment, nxt: u32, k: nat, wnd: nat)
    requires wnd + k <= Reassembly.MAX_WINDOW && AllPlaced(ooo, nxt, 0, 0 - k, wnd) && Sorted(ooo, nxt)
    requires Placed(f, nxt, 0, 0, wnd)
    ensures AllPlaced(InsertOoo(ooo, f), nxt, 0, 0 - k, wnd) && Sorted(InsertOoo(ooo, f), nxt)
  {
    PlacedInsert(ooo, f, nxt, k, wnd);
    SortedBehind(ooo, nxt, k, wnd);
    SeenFromBehind(nxt, k, f.start);
    InsertSorted(ooo, f, Sub(nxt, k));
    SortedBehind(InsertOoo(ooo, f), nxt, k, wnd);
  }

  lemma {:induction false} HoldLoose(r: Receiver, k: nat, f: Fragment)
    requires LooseOk(r, k) && Placed(f, r.nxt, 0, 0, r.wnd)
    ensures var r' := r.(ooo := InsertOoo(r.ooo, f), lastOoo := f.start);
      LooseOk(r', k) && (ShapeOk(r) ==> ShapeOk(r'))
  {
    LooseInsert(r.ooo, f, r.nxt, k, r.wnd);
    if ShapeOk(r) { LooseInsert(r.ooo, f, r.nxt, 0, r.wnd); }
  }

  /** An arrival of any bytes keeps the accounting, the right edge exactly where it was, and
      the sum of unread bytes and window. */
  lemma {:induction false} AcceptLoose(r: Receiver, k: nat, start: u32, payload: Payload)
    requires LooseOk(r, k) && Near(r.nxt, start)
    ensures var r' := Accept(r, start, payload);
      && LooseOk(r', k) && (ShapeOk(r) ==> ShapeOk(r'))
      && Add(r'.nxt, r'.wnd) == Add(r.nxt, r.wnd) && |r'.buf| + r'.wnd == |r.buf| + r.wnd
  {
    var f := TrimToWindow(r, start, payload);
    TrimPlaces(r, start, payload);
    if f.data == [] {
    } else if f.start == r.nxt {
      AcceptDrains(r, k, f);
      CapKept(r, f);
      ShapeIsLoose(Accept(r, start, payload), k);
    } else {
      HoldLoose(r, k, f);
    }
  }

  lemma {:induction false} AcceptDrains(r: Receiver, k: nat, f: Fragment)
    requires LooseOk(r, k) && f.start == r.nxt && 0 < |f.data| <= r.wnd
    ensures var d := DrainOoo(r.(buf := r.buf + f.data, nxt := Add(r.nxt, |f.data|)));
      var r' := d.(wnd := ConsumeWindow(d.wnd, Sub(d.nxt, r.nxt)));
      ShapeOk(r') && Add(r'.nxt, r'.wnd) == Add(r.nxt, r.wnd) && |r'.buf| + r'.wnd == |r.buf| + r.wnd
  {
    var N := |r.buf| + HALF;
    var T := Zeros(N + HALF);
    ErasedDraining(r, k, N, T);
    var M := LooseInOrder(Erase(r), k, Blank(f), N, T);
    InOrderErase(r, f);
    ZerosJoin(|r.buf|, |f.data|);
    LooseDrained(r, |f.data|, N, DrainOoo(r.(buf := r.buf + f.data, nxt := Add(r.nxt, |f.data|))), M, T);
  }

  /** What trimming leaves lies inside the window. */
  lemma {:induction false} TrimPlaces(r: Receiver, start: u32, payload: Payload)
    requires r.wnd <= Reassembly.MAX_WINDOW && Near(r.nxt, start)
    ensures var f := TrimToWindow(r, start, payload);
      f.data != [] ==> |f.data| <= r.wnd && (f.start != r.nxt ==> Placed(f, r.nxt, 0, 0, r.wnd))
  {
    var zeros, N := Zeros(|payload|), HALF;
    TrimErase(r, start, payload);
    TrimRefines(Erase(r), N, start, zeros, N + Dist(r.nxt, start), Zeros(HALF + HALF));
  }

  lemma {:induction false} ReadLoose(r: Receiver, k: nat, n: nat, mss: u32)
    requires LooseOk(r, k) && n <= |r.buf|
    ensures var r' := Read(r, n, mss);
      LooseOk(r', k) && r'.nxt == r.nxt && r.wnd <= r'.wnd && r'.ooo == r.ooo
  {
    var r' := Read(r, n, mss);
    forall f | f in r.ooo ensures Placed(f, r.nxt, 0, 0 - k, r'.wnd) {
      assert Placed(f, r.nxt, 0, 0 - k, r.wnd);
    }
  }

  /** A FIN moves RCV.NXT, and with it the right edge, by its own number. */
  lemma {:induction false} FinLoose(r: Receiver, k: nat)
    requires LooseOk(r, k) && BuffCap(r) + k + 1 <= Reassembly.MAX_WINDOW
    ensures var r' := WithFin(r);
      LooseOk(r', k + 1) && Add(r'.nxt, r'.wnd) == Add(Add(r.nxt, r.wnd), 1) && |r'.buf| + r'.wnd == |r.buf| + r.wnd
  {
    var r' := WithFin(r);
    forall f | f in r.ooo ensures Dist(r'.nxt, f.start) == Dist(r.nxt, f.start) - 1
      && Placed(f, r'.nxt, 0, 0 - (k + 1), r.wnd) {
      assert Placed(f, r.nxt, 0, 0 - k, r.wnd);
    }
    forall i, j | 0 <= i < j < |r.ooo| ensures Dist(r'.nxt, r.ooo[i].start) <= Dist(r'.nxt, r.ooo[j].start) {
      assert r.ooo[i] in r.ooo && r.ooo[j] in r.ooo;
    }
  }

  /** A FIN leaves everything held strictly beyond RCV.NXT if and only if nothing was held
      at the number after it. */
  lemma {:induction false} FinShapeIff(r: Receiver)
    requires ShapeOk(r)
    ensures ShapeOk(WithFin(r)) <==> forall f :: f in r.ooo ==> f.start != Add(r.nxt, 1)
  {
    var r' := WithFin(r);
    forall f | f in r.ooo ensures Dist(r'.nxt, f.start) == Dist(r.nxt, f.start) - 1 {
      assert Placed(f, r.nxt, 0, 0, r.wnd);
    }
    forall f | f in r.ooo
      ensures Placed(f, r'.nxt, 0, 0, r.wnd) <==> f.start != Add(r.nxt, 1)
    {
      assert Placed(f, r.nxt, 0, 0, r.wnd);
    }
    forall i, j | 0 <= i < j < |r.ooo| ensures Dist(r'.nxt, r.ooo[i].start) <= Dist(r'.nxt, r.ooo[j].start) {
      assert r.ooo[i] in r.ooo && r.ooo[j] in r.ooo;
    }
  }

  // ----- one step -----

  /** An acceptable segment that occupies sequence numbers starts or ends in the window. */
  lemma {:induction false} AcceptableIsNear(r: Receiver, s: Segment)
    requires r.wnd <= Reassembly.MAX_WINDOW && Acceptable(r, s) && s.payload != []
    ensures Near(r.nxt, s.seqNum)
  {
  }

  /** Only the text and the FIN of an acceptable segment change the receive side, and never
      before the connection is established. */
  lemma {:induction false} ArrivalReceives(t: Tcb, s: Segment, env: Env)
    requires t.state != Closed && t.state != Listen && t.state != SynSent
    ensures var t' := OnSynchronized(t, s, env);
      t'.rcv == t.rcv
      || (Acceptable(t.rcv, s) && !Early(t'.state)
          && (t'.rcv == Texted(t.rcv, s) || (s.flags.fin && t'.rcv == WithFin(Texted(t.rcv, s)))))
  {
    if s.flags.rst {
      AnswerReceives(t, s, env);
    } else if Lifecycle.TakesAck(t, s) {
      Lifecycle.TakenIsAcceptable(t, s, env);
      TextAndFinReceives(t, s, env);
    } else {
      Lifecycle.OtherwiseQuiet(t, s, env);
    }
  }

  lemma {:induction false} TextAndFinReceives(t: Tcb, s: Segment, env: Env)
    requires Lifecycle.TakesAck(t, s) && t.state != Closed && t.state != Listen && t.state != SynSent
    ensures var t' := OnAcceptable(t, s, env);
      && (t'.rcv == Texted(t.rcv, s) || (s.flags.fin && t'.rcv == WithFin(Texted(t.rcv, s))))
      && !Early(t'.state)
  {
    var t1 := UpdateTsRecent(t, s);
    Lifecycle.TimestampKeepsState(t, s);
    AckReceives(t1, s, env);
    Lifecycle.HandleAckState(t1, s, env);
    var t2 := HandleAck(t1, s, env);
    TextFacts(t2, s, env);
    FinFacts(AcceptText(t2, s, env), env);
  }

  /** The step consumed a FIN. */
  predicate FinTaken(t: Tcb, i: Input, t': Tcb) {
    i.Arrive? && i.s.flags.fin && t'.rcv != t.rcv && t'.rcv == WithFin(Texted(t.rcv, i.s))
  }

  /** The accounting, and that nothing is held before the connection is established. */
  ghost predicate DataOk(t: Tcb, k: nat) {
    LooseOk(t.rcv, k) && (Early(t.state) ==> t.rcv.ooo == [])
  }

  /** What one arrival does: the sum of unread bytes and window stays, and the right edge
      moves by the FIN's number if one was consumed and not otherwise. */
  predicate Accounted(t: Tcb, i: Input, t': Tcb) {
    && |t'.rcv.buf| + t'.rcv.wnd == |t.rcv.buf| + t.rcv.wnd
    && Add(t'.rcv.nxt, t'.rcv.wnd) == Add(Add(t.rcv.nxt, t.rcv.wnd), Bit(FinTaken(t, i, t')))
  }

  lemma {:induction false} TextLoose(r: Receiver, k: nat, s: Segment)
    requires LooseOk(r, k) && Acceptable(r, s)
    ensures var r' := Texted(r, s);
      && LooseOk(r', k) && (ShapeOk(r) ==> ShapeOk(r')) && BuffCap(r') == BuffCap(r)
      && Add(r'.nxt, r'.wnd) == Add(r.nxt, r.wnd) && |r'.buf| + r'.wnd == |r.buf| + r.wnd
  {
    if s.payload != [] {
      AcceptableIsNear(r, s);
      AcceptLoose(r, k, s.seqNum, s.payload);
      CapKept(r, TrimToWindow(r, s.seqNum, s.payload));
    }
  }

  lemma {:induction false} ArrivalLoose(t: Tcb, k: nat, s: Segment, env: Env, t': Tcb)
    requires DataOk(t, k) && BuffCap(t.rcv) + k + Bit(FinTaken(t, Arrive(s), t')) <= Reassembly.MAX_WINDOW
    requires t.state != Closed && t.state != Listen && t.state != SynSent && t' == OnSynchronized(t, s, env)
    ensures var fin := FinTaken(t, Arrive(s), t');
      DataOk(t', k + Bit(fin)) && (!fin && ShapeOk(t.rcv) ==> ShapeOk(t'.rcv)) && Accounted(t, Arrive(s), t')
  {
    ArrivalReceives(t, s, env);
    if t'.rcv != t.rcv {
      TextLoose(t.rcv, k, s);
      if FinTaken(t, Arrive(s), t') { FinLoose(Texted(t.rcv, s), k); }
    } else {
      Lifecycle.SynchronizedState(t, s, env);
    }
  }

  lemma {:induction false} Renumbered(r: Receiver, k: nat, irs: u32, nxt: u32)
    requires LooseOk(r, k) && r.ooo == []
    ensures LooseOk(r.(irs := irs, nxt := nxt), k) && ShapeOk(r.(irs := irs, nxt := nxt))
  {
  }

  lemma {:induction false} OpeningLoose(t: Tcb, k: nat, s: Segment, env: Env)
    requires DataOk(t, k) && (t.state == Closed || t.state == Listen || t.state == SynSent)
    ensures DataOk(OnSegment(t, s, env), k) && (ShapeOk(t.rcv) ==> ShapeOk(OnSegment(t, s, env).rcv))
    ensures BuffCap(OnSegment(t, s, env).rcv) == BuffCap(t.rcv)
  {
    if t.state == Closed { ClosedFacts(t, s, env); }
    else {
      if t.state == Listen { ListenFacts(t, s, env); } else { SynSentFacts(t, s, env); }
      RstFacts(t, s.ackNum, env);
      Renumbered(t.rcv, k, s.seqNum, Add(s.seqNum, 1));
    }
  }

  lemma {:induction false} RecvLoose(t: Tcb, k: nat, max: nat, env: Env)
    requires DataOk(t, k)
    ensures DataOk(Recv(t, max, env), k) && (ShapeOk(t.rcv) ==> ShapeOk(Recv(t, max, env).rcv))
    ensures BuffCap(Recv(t, max, env).rcv) == BuffCap(t.rcv)
  {
    RecvReads(t, max, env);
    RecvFrame(t, max, env);
    ReadLoose(t.rcv, k, Min(max, |t.rcv.buf|), EffMss(t.snd));
    if ShapeOk(t.rcv) { ReadLoose(t.rcv, 0, Min(max, |t.rcv.buf|), EffMss(t.snd)); }
  }

  lemma {:induction false} StepLoose(t: Tcb, k: nat, i: Input, env: Env, t': Tcb)
    requires DataOk(t, k) && IsStep(t, i, env, t')
    requires BuffCap(t.rcv) + k + Bit(FinTaken(t, i, t')) <= Reassembly.MAX_WINDOW
    ensures DataOk(t', k + Bit(FinTaken(t, i, t'))) && BuffCap(t'.rcv) == BuffCap(t.rcv)
    ensures ShapeOk(t.rcv) && !FinTaken(t, i, t') ==> ShapeOk(t'.rcv)
  {
    match i
    case CallSend(data) => SendFacts(t, data, env);
    case CallRecv(max) => RecvLoose(t, k, max, env);
    case CallClose => CloseFacts(t, env);
    case TimerTick => TickFacts(t, env);
    case Arrive(s) => SegmentLoose(t, k, s, env, t');
  }

  lemma {:induction false} LooserOk(r: Receiver, k: nat)
    requires LooseOk(r, k) && BuffCap(r) + k + 1 <= Reassembly.MAX_WINDOW
    ensures LooseOk(r, k + 1)
  {
    forall f | f in r.ooo ensures Placed(f, r.nxt, 0, 0 - (k + 1), r.wnd) {
      assert Placed(f, r.nxt, 0, 0 - k, r.wnd);
    }
  }

  lemma {:induction false} SegmentLoose(t: Tcb, k: nat, s: Segment, env: Env, t': Tcb)
    requires DataOk(t, k) && BuffCap(t.rcv) + k + Bit(FinTaken(t, Arrive(s), t')) <= Reassembly.MAX_WINDOW
    requires t' == OnSegment(t, s, env)
    ensures DataOk(t', k + Bit(FinTaken(t, Arrive(s), t'))) && BuffCap(t'.rcv) == BuffCap(t.rcv)
    ensures ShapeOk(t.rcv) && !FinTaken(t, Arrive(s), t') ==> ShapeOk(t'.rcv)
  {
    if t.state == Closed || t.state == Listen || t.state == SynSent {
      OpeningLoose(t, k, s, env);
      if FinTaken(t, Arrive(s), t') { LooserOk(t'.rcv, k); }
    } else {
      ArrivalLoose(t, k, s, env, t');
      ArrivalCap(t, s, env);
    }
  }

  lemma {:induction false} ArrivalCap(t: Tcb, s: Segment, env: Env)
    ensures BuffCap(OnSynchronized(t, s, env).rcv) == BuffCap(t.rcv)
  {
    SynchronizedReceives(t, s, env);
    CapKept(t.rcv, TrimToWindow(t.rcv, s.seqNum, s.payload));
  }

  // ----- whole runs -----

  /** How many of the first n steps consumed a FIN. */
  function FinsTaken(ts: seq<Tcb>, inputs: seq<Input>, n: nat): nat
    requires |ts| == |inputs| + 1 && n <= |inputs|
  {
    if n == 0 then 0 else FinsTaken(ts, inputs, n - 1) + Bit(FinTaken(ts[n - 1], inputs[n - 1], ts[n]))
  }

  lemma {:induction false} OpenedLoose(s: Start)
    requires BuffCap(Opened(s).rcv) <= Reassembly.MAX_WINDOW
    ensures DataOk(Opened(s), 0) && ShapeOk(Opened(s).rcv)
  {
    OpenFacts(NewTcb(s.iss, s.buffTotal, s.noDelay, s.timeWait, s.epoch), s.iss, s.env);
  }

  /** Over every run, whatever segments arrive, forged ones included: unread bytes plus
      window fit the buffer, and what is held out of order is sorted, inside the window, and
      starts less than as many places before the byte after RCV.NXT as FINs were consumed. */
  lemma {:induction false} AnyArrivalsConserve(s: Start, ts: seq<Tcb>, inputs: seq<Input>, envs: seq<Env>, n: nat)
    requires RunFrom(s, ts, inputs, envs) && n < |ts|
    requires BuffCap(ts[0].rcv) + FinsTaken(ts, inputs, n) <= Reassembly.MAX_WINDOW
    ensures LooseOk(ts[n].rcv, FinsTaken(ts, inputs, n)) && (Early(ts[n].state) ==> ts[n].rcv.ooo == [])
    ensures BuffCap(ts[n].rcv) == BuffCap(ts[0].rcv)
  {
    if n == 0 {
      OpenedLoose(s);
    } else {
      AnyArrivalsConserve(s, ts, inputs, envs, n - 1);
      assert StepAt(ts, inputs, envs, n - 1);
      StepLoose(ts[n - 1], FinsTaken(ts, inputs, n - 1), inputs[n - 1], envs[n - 1], ts[n]);
    }
  }

  /** No such segment changes the sum of unread bytes and window of a connection past the
      handshake, and the right window edge moves exactly by the FINs consumed. */
  lemma {:induction false} AnyArrivalAccounted(s: Start, ts: seq<Tcb>, inputs: seq<Input>, envs: seq<Env>, n: nat)
    requires RunFrom(s, ts, inputs, envs) && n < |inputs|
    requires BuffCap(ts[0].rcv) + FinsTaken(ts, inputs, n + 1) <= Reassembly.MAX_WINDOW
    requires inputs[n].Arrive? && (ts[n].state == SynReceived || Synchronized(ts[n].state))
    ensures Accounted(ts[n], inputs[n], ts[n + 1])
  {
    AnyArrivalsConserve(s, ts, inputs, envs, n);
    assert StepAt(ts, inputs, envs, n);
    StepAccounted(ts[n], FinsTaken(ts, inputs, n), inputs[n], envs[n], ts[n + 1]);
  }

  lemma {:induction false} StepAccounted(t: Tcb, k: nat, i: Input, env: Env, t': Tcb)
    requires DataOk(t, k) && IsStep(t, i, env, t') && i.Arrive?
    requires BuffCap(t.rcv) + k + Bit(FinTaken(t, i, t')) <= Reassembly.MAX_WINDOW
    requires t.state == SynReceived || Synchronized(t.state)
    ensures Accounted(t, i, t')
  {
    ArrivalLoose(t, k, i.s, env, t');
  }

  /** No arriving segment carries a FIN. */
  ghost predicate NoFins(inputs: seq<Input>) {
    forall i :: i in inputs ==> !(i.Arrive? && i.s.flags.fin)
  }

  lemma {:induction false} NoFinsTaken(ts: seq<Tcb>, inputs: seq<Input>, n: nat)
    requires |ts| == |inputs| + 1 && n <= |inputs| && NoFins(inputs)
    ensures FinsTaken(ts, inputs, n) == 0
  {
    if n > 0 {
      NoFinsTaken(ts, inputs, n - 1);
      assert inputs[n - 1] in inputs;
    }
  }

  /** Without FINs what is held out of order stays strictly beyond RCV.NXT. */
  lemma {:induction false} AnyDataConserves(s: Start, ts: seq<Tcb>, inputs: seq<Input>, envs: seq<Env>, n: nat)
    requires RunFrom(s, ts, inputs, envs) && NoFins(inputs) && n < |ts|
    ensures ShapeOk(ts[n].rcv) && (Early(ts[n].state) ==> ts[n].rcv.ooo == [])
  {
    NoFinsTaken(ts, inputs, n);
    AnyArrivalsConserve(s, ts, inputs, envs, n);
    LooseIsShape(ts[n].rcv);
  }

  lemma {:induction false} LooseIsShape(r: Receiver)
    requires LooseOk(r, 0)
    ensures ShapeOk(r)
  {
    forall f | f in r.ooo ensures Placed(f, r.nxt, 0, 0, 0 + r.wnd) {
      assert Placed(f, r.nxt, 0, 0 - 0, r.wnd);
    }
  }

  /** And the right window edge stays exactly where it was. */
  lemma {:induction false} AnyDataKeepsEdge(s: Start, ts: seq<Tcb>, inputs: seq<Input>, envs: seq<Env>, n: nat)
    requires RunFrom(s, ts, inputs, envs) && NoFins(inputs) && n < |inputs|
    requires inputs[n].Arrive? && (ts[n].state == SynReceived || Synchronized(ts[n].state))
    ensures var r, r' := ts[n].rcv, ts[n + 1].rcv;
      Add(r'.nxt, r'.wnd) == Add(r.nxt, r.wnd) && |r'.buf| + r'.wnd == |r.buf| + r.wnd
  {
    NoFinsTaken(ts, inputs, n + 1);
    assert inputs[n] in inputs;
    AnyArrivalAccounted(s, ts, inputs, envs, n);
  }
}
