/** The two records of unacknowledged data, sndBuf and retxQueue, and their agreement
    (tcp/transport/data.go:61-137, statemachine.go:279-304, 358-369). */
module SenderRecords {
  import opened SeqNum
  import opened Reassembly
  import opened Segments
  import opened Tcb
  import opened StateMachine

  // ----- the invariant -----

  /** The entry's bytes are those of the buffer, whose first byte is at offset 0; a head
      entry may start before it. */
  predicate Agrees(e: RetxSeg, off: int, buf: seq<u8>) {
    && (e.payload == [] || off + |e.payload| <= |buf|)
    && forall j :: 0 <= j < |e.payload| && 0 <= off + j ==> e.payload[j] == buf[off + j]
  }

  predicate EntryOk(e: RetxSeg, at: u32, off: int, len: int, buf: seq<u8>) {
    && e.seqNum == at && EntryLen(e) > 0 && off + EntryLen(e) <= len
    && !e.flags.syn && !e.flags.rst
    && (e.flags.fin ==> e.payload == [] && off == |buf|)
    && Agrees(e, off, buf)
  }

  /** Entries follow each other without gap from offset off (sequence number at) to len. */
  predicate Tiles(q: seq<RetxSeg>, at: u32, off: int, len: int, buf: seq<u8>) {
    if q == [] then off == len
    else
      && EntryOk(q[0], at, off, len, buf)
      && Tiles(q[1..], Add(at, EntryLen(q[0])), off + EntryLen(q[0]), len, buf)
  }

  function HeadSeq(snd: Sender, q: seq<RetxSeg>): u32 {
    if q == [] then snd.una else q[0].seqNum
  }

  /** SYN acknowledged: the queue tiles the flight, its head covers SND.UNA, and bytes in
      flight are the first ones of the buffer, followed by the FIN if one is out. */
  predicate Records(snd: Sender, q: seq<RetxSeg>, finOut: bool) {
    var off := Dist(snd.una, HeadSeq(snd, q));
    && off <= 0 && (q != [] ==> 0 < off + EntryLen(q[0]))
    && Tiles(q, HeadSeq(snd, q), off, InFlight(snd), snd.buf)
    && InFlight(snd) <= |snd.buf| + Bit(finOut)
    && (finOut ==> InFlight(snd) == |snd.buf| + 1)
  }

  predicate SynEntry(e: RetxSeg, iss: u32) {
    e.flags.syn && !e.flags.fin && !e.flags.rst && e.payload == [] && e.seqNum == iss
  }

  predicate FinEntry(e: RetxSeg, at: u32) {
    e.flags.fin && !e.flags.syn && !e.flags.rst && e.payload == [] && e.seqNum == at
  }

  /** One or more SYNs, then the FIN if one is out. */
  predicate Syns(q: seq<RetxSeg>, iss: u32, finOut: bool) {
    && q != [] && SynEntry(q[0], iss)
    && (Syns(q[1..], iss, finOut)
        || (if finOut then |q| == 2 && FinEntry(q[1], Add(iss, 1)) else |q| == 1))
  }

  /** SYN not yet acknowledged. */
  predicate Opening(snd: Sender, q: seq<RetxSeg>, finOut: bool) {
    && snd.una == snd.iss && snd.nxt == Add(snd.iss, 1 + Bit(finOut)) && snd.buf == []
    && Syns(q, snd.iss, finOut)
  }

  predicate SenderOk(st: State, snd: Sender, q: seq<RetxSeg>) {
    match st
    case Closed => true
    case Listen => snd.buf == [] && (q == [] || Syns(q, snd.iss, false))
    case SynSent => Opening(snd, q, false)
    case SynReceived => Opening(snd, q, false)
    case Established => Records(snd, q, false)
    case CloseWait => Records(snd, q, false)
    case FinWait1 => Records(snd, q, true) || Opening(snd, q, true)
    case Closing => Records(snd, q, true) || Opening(snd, q, true)
    case LastAck => Records(snd, q, true)
    case FinWait2 => Records(snd, q, false) && InFlight(snd) == 0 && snd.buf == []
    case TimeWait => Records(snd, q, false) && InFlight(snd) == 0 && snd.buf == []
  }

  // ----- arithmetic of offsets -----

  lemma {:induction false} DistAdd(a: u32, b: u32, n: u32)
    requires Dist(a, b) + n < HALF
    ensures Dist(a, Add(b, n)) == Dist(a, b) + n
  {
  }

  /** The fully-acknowledged test, in offsets from SND.UNA. */
  lemma {:induction false} EndCompare(una: u32, at: u32, n: u32, ack: u32)
    requires -0x2_0000 <= Dist(una, at) && Dist(una, at) + n < HALF - 0x2_0000
    requires 0 <= Dist(una, ack) < HALF - 0x2_0000
    ensures SeqLEQ(Add(at, n), ack) <==> Dist(una, at) + n <= Dist(una, ack)
  {
  }

  // ----- shapes of tilings -----

  /** Only the identity, flags and bytes of entries matter to the invariant. */
  predicate SameEntry(a: RetxSeg, b: RetxSeg) {
    a.seqNum == b.seqNum && a.flags == b.flags && a.payload == b.payload
  }

  lemma {:induction false} TilesHead(q: seq<RetxSeg>, e: RetxSeg, at: u32, off: int, len: int, buf: seq<u8>)
    requires q != [] && SameEntry(q[0], e) && Tiles(q, at, off, len, buf)
    ensures Tiles([e] + q[1..], at, off, len, buf)
  {
    assert ([e] + q[1..])[1..] == q[1..];
    assert Agrees(e, off, buf) && ([e] + q[1..])[0] == e;
  }

  lemma {:induction false} SynsHead(q: seq<RetxSeg>, e: RetxSeg, iss: u32, finOut: bool)
    requires q != [] && SameEntry(q[0], e) && Syns(q, iss, finOut)
    ensures Syns([e] + q[1..], iss, finOut)
  {
  }

  lemma {:induction false} SenderHead(st: State, snd: Sender, q: seq<RetxSeg>, e: RetxSeg)
    requires q != [] && SameEntry(q[0], e) && SenderOk(st, snd, q)
    ensures SenderOk(st, snd, [e] + q[1..])
  {
    var off := Dist(snd.una, HeadSeq(snd, q));
    if Tiles(q, HeadSeq(snd, q), off, InFlight(snd), snd.buf) {
      TilesHead(q, e, HeadSeq(snd, q), off, InFlight(snd), snd.buf);
    }
    if Syns(q, snd.iss, false) { SynsHead(q, e, snd.iss, false); }
    if Syns(q, snd.iss, true) { SynsHead(q, e, snd.iss, true); }
  }

  /** Fields of the sender the invariant does not read. */
  lemma {:induction false} SenderFrame(st: State, snd: Sender, snd': Sender, q: seq<RetxSeg>)
    requires SenderOk(st, snd, q)
    requires snd'.una == snd.una && snd'.nxt == snd.nxt && snd'.iss == snd.iss && snd'.buf == snd.buf
    ensures SenderOk(st, snd', q)
  {
  }

  // ----- removing acknowledged entries -----

  /** The new head of a popped tiling covers ack, at offset k; nothing is left exactly when
      everything was acknowledged. */
  lemma {:induction false} PopTiles(una: u32, q: seq<RetxSeg>, at: u32, off: int, len: int, buf: seq<u8>, ack: u32)
    requires Tiles(q, at, off, len, buf) && Dist(una, at) == off
    requires -0x2_0000 <= off <= Dist(una, ack) <= len < HALF - 0x2_0000 && 0 <= Dist(una, ack)
    ensures var k, r := Dist(una, ack), PopAcked(q, ack);
      var at' := if r == [] then ack else r[0].seqNum;
      && Tiles(r, at', Dist(una, at'), len, buf) && off <= Dist(una, at') <= k
      && (r != [] ==> k < Dist(una, at') + EntryLen(r[0]))
  {
    if q != [] {
      var n := EntryLen(q[0]);
      EndCompare(una, at, n, ack);
      DistAdd(una, at, n);
      if SeqLEQ(Add(at, n), ack) {
        PopTiles(una, q[1..], Add(at, n), off + n, len, buf, ack);
      }
    }
  }

  lemma {:induction false} AgreesShift(e: RetxSeg, off: int, buf: seq<u8>, k: nat, buf': seq<u8>)
    requires Agrees(e, off, buf) && k <= |buf| && buf' == buf[k..]
    ensures Agrees(e, off - k, buf')
  {
  }

  /** Counting offsets from the new SND.UNA, k further on. */
  lemma {:induction false} TilesShift(q: seq<RetxSeg>, at: u32, off: int, len: int, buf: seq<u8>, k: nat, buf': seq<u8>)
    requires Tiles(q, at, off, len, buf) && buf' == buf[Min(k, |buf|)..]
    requires k <= len && (k > |buf| ==> q == [])
    ensures Tiles(q, at, off - k, len - k, buf')
  {
    if q != [] {
      AgreesShift(q[0], off, buf, k, buf');
      TilesShift(q[1..], Add(at, EntryLen(q[0])), off + EntryLen(q[0]), len, buf, k, buf');
    }
  }

  /** Taking an acceptable ACK, SYN already acknowledged. */
  lemma {:induction false} AckRecords(snd: Sender, q: seq<RetxSeg>, finOut: bool, ack: u32, snd': Sender,
                                      q': seq<RetxSeg>)
    requires Records(snd, q, finOut) && AcceptableAck(snd.una, ack, snd.nxt)
    requires q' == PopAcked(q, ack)
    requires snd'.una == ack && snd'.nxt == snd.nxt && snd'.iss == snd.iss
    requires snd'.buf == ReleaseAcked(snd.buf, Sub(ack, snd.una))
    ensures Records(snd', q', finOut && ack != snd.nxt)
    ensures ack == snd.nxt ==> |snd'.buf| == |snd.buf| + Bit(finOut) - InFlight(snd)
  {
    var len, k := InFlight(snd), Sub(ack, snd.una);
    AckFlight(snd, ack);
    AckTiles(snd, q, finOut, ack, snd'.buf);
    assert snd'.una == ack && HeadSeq(snd', q') == if q' == [] then ack else q'[0].seqNum;
  }

  lemma {:induction false} AckFlight(snd: Sender, ack: u32)
    requires AcceptableAck(snd.una, ack, snd.nxt) && InFlight(snd) < HALF
    ensures 0 < Sub(ack, snd.una) <= InFlight(snd)
    ensures Sub(snd.nxt, ack) == InFlight(snd) - Sub(ack, snd.una)
    ensures Dist(snd.una, ack) == Sub(ack, snd.una)
  {
  }

  lemma {:induction false} AckTiles(snd: Sender, q: seq<RetxSeg>, finOut: bool, ack: u32, buf': seq<u8>)
    requires Records(snd, q, finOut) && AcceptableAck(snd.una, ack, snd.nxt)
    requires buf' == ReleaseAcked(snd.buf, Sub(ack, snd.una))
    ensures var r, len, k := PopAcked(q, ack), InFlight(snd), Sub(ack, snd.una);
      var at := if r == [] then ack else r[0].seqNum;
      && Tiles(r, at, Dist(ack, at), len - k, buf') && Dist(ack, at) <= 0
      && (r != [] ==> 0 < Dist(ack, at) + EntryLen(r[0]))
  {
    var at := HeadSeq(snd, q);
    var len, k := InFlight(snd), Sub(ack, snd.una);
    AckFlight(snd, ack);
    PopTiles(snd.una, q, at, Dist(snd.una, at), len, snd.buf, ack);
    var r := PopAcked(q, ack);
    var at' := if r == [] then ack else r[0].seqNum;
    // beyond the data only the FIN is left, and then everything is acknowledged
    assert k > |snd.buf| ==> k == len && r == [];
    TilesShift(r, at', Dist(snd.una, at'), len, snd.buf, k, buf');
    RebaseHead(snd.una, ack, at', k);
  }

  lemma {:induction false} RebaseHead(una: u32, ack: u32, at: u32, k: int)
    requires Dist(una, ack) == k && 0 <= k && -0x2_0000 <= Dist(una, at) <= k < HALF - 0x4_0000
    ensures Dist(ack, at) == Dist(una, at) - k
  {
  }

  lemma {:induction false} PopSyns(q: seq<RetxSeg>, iss: u32, finOut: bool, ack: u32)
    requires Syns(q, iss, finOut)
    requires ack == Add(iss, 1) || (finOut && ack == Add(iss, 2))
    ensures var r := PopAcked(q, ack);
      if finOut && ack == Add(iss, 1) then |r| == 1 && FinEntry(r[0], Add(iss, 1)) else r == []
  {
    if Syns(q[1..], iss, finOut) {
      PopSyns(q[1..], iss, finOut, ack);
    } else if finOut {
      assert PopAcked(q, ack) == PopAcked(q[1..], ack);
      assert q[1..][1..] == [];
    }
  }

  lemma {:induction false} AcceptableOpening(iss: u32, ack: u32, n: nat)
    requires n == 1 || n == 2
    requires AcceptableAck(iss, ack, Add(iss, n))
    ensures ack == Add(iss, 1) || (n == 2 && ack == Add(iss, 2))
  {
  }

  /** Taking the first acceptable ACK: it acknowledges our SYN. */
  lemma {:induction false} AckOpening(snd: Sender, q: seq<RetxSeg>, finOut: bool, ack: u32, snd': Sender,
                                      q': seq<RetxSeg>)
    requires Opening(snd, q, finOut) && AcceptableAck(snd.una, ack, snd.nxt)
    requires q' == PopAcked(q, ack)
    requires snd'.una == ack && snd'.nxt == snd.nxt && snd'.iss == snd.iss && snd'.buf == []
    ensures Records(snd', q', finOut && ack != snd.nxt)
  {
    AcceptableOpening(snd.iss, ack, 1 + Bit(finOut));
    PopSyns(q, snd.iss, finOut, ack);
    if q' != [] {
      assert q'[1..] == [];
      assert Agrees(q'[0], 0, []);
    }
  }

  // ----- appending entries -----

  lemma {:induction false} TilesSnoc(q: seq<RetxSeg>, at: u32, off: int, len: int, buf: seq<u8>, e: RetxSeg)
    requires Tiles(q, at, off, len, buf) && 0 <= len - off < MOD
    requires EntryOk(e, Add(at, len - off), len, len + EntryLen(e), buf)
    ensures Tiles(q + [e], at, off, len + EntryLen(e), buf)
  {
    if q == [] {
      assert ([e])[1..] == [] && q + [e] == [e];
    } else {
      var n := EntryLen(q[0]);
      assert (q + [e])[0] == q[0] && (q + [e])[1..] == q[1..] + [e];
      TilesWithin(q[1..], Add(at, n), off + n, len, buf);
      AddAdd(at, n, len - off - n);
      TilesSnoc(q[1..], Add(at, n), off + n, len, buf, e);
    }
  }

  lemma {:induction false} TilesWithin(q: seq<RetxSeg>, at: u32, off: int, len: int, buf: seq<u8>)
    requires Tiles(q, at, off, len, buf)
    ensures off <= len
  {
  }

  lemma {:induction false} HeadToNext(snd: Sender, q: seq<RetxSeg>, finOut: bool)
    requires Records(snd, q, finOut)
    ensures var at := HeadSeq(snd, q);
      var off := Dist(snd.una, at);
      -0x1_0002 <= off && 0 <= InFlight(snd) - off < HALF && Add(at, InFlight(snd) - off) == snd.nxt
      && (q == [] <==> InFlight(snd) == 0)
  {
    var at := HeadSeq(snd, q);
    TilesWithin(q, at, Dist(snd.una, at), InFlight(snd), snd.buf);
    if q != [] {
      TilesWithin(q[1..], Add(at, EntryLen(q[0])), Dist(snd.una, at) + EntryLen(q[0]), InFlight(snd), snd.buf);
    }
    AddDist(snd.una, at, snd.nxt);
  }

  lemma {:induction false} AddDist(una: u32, at: u32, nxt: u32)
    ensures 0 <= Sub(nxt, una) - Dist(una, at) < MOD ==> Add(at, Sub(nxt, una) - Dist(una, at)) == nxt
  {
  }

  lemma {:induction false} AppendRecords(snd: Sender, q: seq<RetxSeg>, e: RetxSeg, finOut: bool, snd': Sender)
    requires Records(snd, q, false) && e.seqNum == snd.nxt
    requires EntryOk(e, snd.nxt, InFlight(snd), InFlight(snd) + EntryLen(e), snd.buf)
    requires snd'.una == snd.una && snd'.nxt == Add(snd.nxt, EntryLen(e)) && snd'.buf == snd.buf
    requires InFlight(snd) + EntryLen(e) <= |snd.buf| + Bit(finOut)
    requires finOut ==> InFlight(snd) + EntryLen(e) == |snd.buf| + 1
    ensures Records(snd', q + [e], finOut) && InFlight(snd') == InFlight(snd) + EntryLen(e)
  {
    var at := HeadSeq(snd, q);
    HeadToNext(snd, q, false);
    TilesSnoc(q, at, Dist(snd.una, at), InFlight(snd), snd.buf, e);
    assert InFlight(snd') == InFlight(snd) + EntryLen(e);
    if q == [] {
      assert snd.nxt == snd.una;
      assert HeadSeq(snd', q + [e]) == at;
    } else {
      assert (q + [e])[0] == q[0];
    }
  }

  lemma {:induction false} EmitRecords(snd: Sender, q: seq<RetxSeg>, e: RetxSeg, n: nat, snd': Sender)
    requires Records(snd, q, false) && 0 < n && InFlight(snd) + n <= |snd.buf|
    requires e.seqNum == snd.nxt && e.flags == F_PSH_ACK && e.payload == snd.buf[InFlight(snd)..InFlight(snd) + n]
    requires snd'.una == snd.una && snd'.nxt == Add(snd.nxt, n) && snd'.buf == snd.buf
    ensures Records(snd', q + [e], false)
  {
    assert Agrees(e, InFlight(snd), snd.buf);
    AppendRecords(snd, q, e, false, snd');
  }

  lemma {:induction false} FinRecords(snd: Sender, q: seq<RetxSeg>, e: RetxSeg, snd': Sender)
    requires Records(snd, q, false) && InFlight(snd) == |snd.buf|
    requires e.seqNum == snd.nxt && e.flags == F_FIN_ACK && e.payload == []
    requires snd'.una == snd.una && snd'.nxt == Add(snd.nxt, 1) && snd'.buf == snd.buf
    ensures Records(snd', q + [e], true)
  {
    AppendRecords(snd, q, e, true, snd');
  }

  lemma {:induction false} SynsSnoc(q: seq<RetxSeg>, iss: u32, e: RetxSeg)
    requires (q == [] || Syns(q, iss, false)) && SynEntry(e, iss)
    ensures Syns(q + [e], iss, false)
  {
    if q == [] {
      assert q + [e] == [e];
    } else {
      assert (q + [e])[0] == q[0] && (q + [e])[1..] == q[1..] + [e];
      SynsSnoc(q[1..], iss, e);
    }
  }

  lemma {:induction false} SynsFin(q: seq<RetxSeg>, iss: u32, e: RetxSeg)
    requires Syns(q, iss, false) && FinEntry(e, Add(iss, 1))
    ensures Syns(q + [e], iss, true)
  {
    assert (q + [e])[0] == q[0] && (q + [e])[1..] == q[1..] + [e];
    if Syns(q[1..], iss, false) { SynsFin(q[1..], iss, e); }
  }

  lemma {:induction false} TilesGrow(q: seq<RetxSeg>, at: u32, off: int, len: int, buf: seq<u8>, more: seq<u8>)
    requires Tiles(q, at, off, len, buf) && len <= |buf|
    ensures Tiles(q, at, off, len, buf + more)
  {
    if q != [] {
      TilesGrow(q[1..], Add(at, EntryLen(q[0])), off + EntryLen(q[0]), len, buf, more);
    }
  }

  /** What agreement means for the bytes themselves: the queue's payloads, less the
      acknowledged part of the head, are the first bytes of the buffer. */
  function Payloads(q: seq<RetxSeg>): seq<u8> {
    if q == [] then [] else q[0].payload + Payloads(q[1..])
  }

  lemma {:induction false} PayloadsOfTiles(q: seq<RetxSeg>, at: u32, off: int, len: int, buf: seq<u8>, i: nat)
    requires Tiles(q, at, off, len, buf) && len <= |buf| + 1
    ensures |Payloads(q)| == Min(len, |buf|) - Min(off, |buf|)
    ensures i < |Payloads(q)| && 0 <= off + i ==> Payloads(q)[i] == buf[off + i]
  {
    if q != [] {
      var n := EntryLen(q[0]);
      if n <= i { PayloadsOfTiles(q[1..], Add(at, n), off + n, len, buf, i - n); }
      else { PayloadsOfTiles(q[1..], Add(at, n), off + n, len, buf, 0); }
      TilesWithin(q[1..], Add(at, n), off + n, len, buf);
    }
  }

  /** The two records agree: the queue is empty exactly when nothing is in flight, and its
      payloads are the acknowledged part of the head followed by exactly the first bytes of
      the send buffer that are in flight (less the FIN). */
  lemma {:induction false} RecordsMeaning(snd: Sender, q: seq<RetxSeg>, finOut: bool) returns (acked: nat)
    requires Records(snd, q, finOut)
    ensures q == [] <==> snd.una == snd.nxt
    ensures q != [] ==> acked < EntryLen(q[0]) && Add(q[0].seqNum, acked) == snd.una
    ensures acked <= |Payloads(q)| && Payloads(q)[acked..] == snd.buf[..InFlight(snd) - Bit(finOut)]
  {
    var at := HeadSeq(snd, q);
    var off, len := Dist(snd.una, at), InFlight(snd);
    acked := -off;
    HeadToNext(snd, q, finOut);
    PayloadsOfTiles(q, at, off, len, snd.buf, 0);
    forall i | 0 <= i < len - Bit(finOut) ensures Payloads(q)[acked + i] == snd.buf[i] {
      PayloadsOfTiles(q, at, off, len, snd.buf, acked + i);
    }
  }

  lemma {:induction false} LastIsFin(q: seq<RetxSeg>, at: u32, off: int, len: int, buf: seq<u8>)
    requires q != [] && Tiles(q, at, off, len, buf) && len == |buf| + 1 && 0 <= len - off < MOD
    ensures var e := q[|q| - 1];
      e.flags.fin && e.payload == [] && !e.flags.syn && Add(e.seqNum, 1) == Add(at, len - off)
  {
    var n := EntryLen(q[0]);
    if |q| > 1 {
      TilesWithin(q[1..], Add(at, n), off + n, len, buf);
      LastIsFin(q[1..], Add(at, n), off + n, len, buf);
      AddAdd(at, n, len - off - n);
    }
  }

  lemma {:induction false} SynsEnd(q: seq<RetxSeg>, iss: u32)
    requires Syns(q, iss, true)
    ensures q[0].flags.syn && FinEntry(q[|q| - 1], Add(iss, 1))
  {
    if Syns(q[1..], iss, true) { SynsEnd(q[1..], iss); }
  }

  /** The records with our FIN out. */
  lemma {:induction false} FinMeaning(st: State, snd: Sender, q: seq<RetxSeg>) returns (acked: nat)
    requires SenderOk(st, snd, q) && (st == FinWait1 || st == Closing || st == LastAck)
    ensures q != []
    ensures var last := q[|q| - 1]; last.flags.fin && last.payload == [] && Add(last.seqNum, 1) == snd.nxt
    ensures if q[0].flags.syn then
        st != LastAck && snd.una == snd.iss && snd.nxt == Add(snd.iss, 2) && snd.buf == []
      else
        && acked < EntryLen(q[0]) && Add(q[0].seqNum, acked) == snd.una
        && acked <= |Payloads(q)| && InFlight(snd) == |snd.buf| + 1 && Payloads(q)[acked..] == snd.buf
  {
    acked := 0;
    if Records(snd, q, true) {
      acked := RecordsMeaning(snd, q, true);
      HeadToNext(snd, q, true);
      var at := HeadSeq(snd, q);
      LastIsFin(q, at, Dist(snd.una, at), InFlight(snd), snd.buf);
      assert snd.buf[..|snd.buf|] == snd.buf;
    } else {
      SynsEnd(q, snd.iss);
      AddAdd(snd.iss, 1, 1);
    }
  }
}
