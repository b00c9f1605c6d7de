/** What the receive pipeline makes of damaged packets: which packets it accepts at all, and
    that of all changes of one 16-bit word of a packet the stack sent, the two checksums let
    through the swaps of 0x0000 and 0xFFFF and nothing else (tcp/transport/listener.go:160-176,
    tcp/network/ipv4.go, checksum.go). */
module Corruption {
  import opened SeqNum
  import opened Bytes
  import opened Checksum
  import opened Options
  import opened Segments
  import opened Wire

  // ----- what is accepted -----

  /** The word sum is a positive multiple of 2^16 - 1. */
  predicate Verified(data: seq<u8>) {
    WordSum(data) > 0 && WordSum(data) % ALL_ONES == 0
  }

  /** Both headers are complete and in bounds, both checksums verify, and the protocol is TCP. */
  predicate Intact(pkt: seq<u8>) {
    && |pkt| >= 20
    && var hdr, total := 4 * (pkt[0] % 16), Be16(pkt, 2);
    && 20 <= hdr <= |pkt| && Verified(pkt[..hdr]) && pkt[9] == PROTO_TCP
    && hdr + 20 <= total <= |pkt|
    && Verified(PseudoHeader(pkt[12..16], pkt[16..20], total - hdr) + pkt[hdr..total])
    && 20 <= 4 * (pkt[hdr + 12] / 16) <= total - hdr
  }

  lemma {:induction false} HeaderAcceptedIff(pkt: seq<u8>)
    ensures ParseIpv4(pkt).Ok? <==>
      |pkt| >= 20 && var hdr := 4 * (pkt[0] % 16);
                     20 <= hdr <= |pkt| && Verified(pkt[..hdr])
  {
    if |pkt| >= 20 && 20 <= 4 * (pkt[0] % 16) <= |pkt| { VerifiesIff(pkt[..4 * (pkt[0] % 16)]); }
  }

  /** A packet becomes a segment exactly when it is intact. */
  lemma {:induction false} DecodeAcceptsIff(pkt: seq<u8>)
    ensures Decode(pkt).Ok? <==> Intact(pkt)
  {
    HeaderAcceptedIff(pkt);
    if ParseIpv4(pkt).Ok? {
      var ip := ParseIpv4(pkt).value;
      var hdr, total := 4 * ip.ihl, ip.totalLength;
      if hdr <= total <= |pkt| {
        var seg := pkt[hdr..total];
        VerifiesIff(PseudoHeader(ip.src, ip.dst, |seg|) + seg);
        assert |seg| >= 20 ==> seg[12] == pkt[hdr + 12];
      }
    }
  }

  // ----- words of joined buffers -----

  lemma {:induction false} SumHead(a: seq<u8>, b: seq<u8>, n: nat)
    requires |a| % 2 == 0 && n <= |a| / 2
    ensures SumTo(a + b, n) == SumTo(a, n)
  {
    if n > 0 { SumHead(a, b, n - 1); }
  }

  lemma {:induction false} SumTail(a: seq<u8>, b: seq<u8>, n: nat)
    requires |a| % 2 == 0 && n <= WordCount(b)
    ensures SumTo(a + b, |a| / 2 + n) == WordSum(a) + SumTo(b, n)
  {
    if n == 0 {
      SumHead(a, b, |a| / 2);
    } else {
      SumTail(a, b, n - 1);
      assert Word(a + b, |a| / 2 + n - 1) == Word(b, n - 1);
    }
  }

  lemma {:induction false} SumJoin(a: seq<u8>, b: seq<u8>)
    requires |a| % 2 == 0
    ensures WordSum(a + b) == WordSum(a) + WordSum(b)
  {
    SumTail(a, b, WordCount(b));
  }

  lemma {:induction false} WordJoin(a: seq<u8>, b: seq<u8>, i: nat)
    requires |a| % 2 == 0 && i < WordCount(a + b)
    ensures Word(a + b, i) == if i < |a| / 2 then Word(a, i) else Word(b, i - |a| / 2)
  {
  }

  /** The change of one word of a joined buffer is a change of one word of one part. */
  lemma {:induction false} PartDiffers(a: seq<u8>, b: seq<u8>, a': seq<u8>, b': seq<u8>, k: nat)
    requires |a| == |a'| && |a| % 2 == 0 && DifferAt(a + b, a' + b', k)
    ensures if k < |a| / 2 then DifferAt(a, a', k) && b' == b else DifferAt(b, b', k - |a| / 2) && a' == a
  {
    forall i | 0 <= i < WordCount(a + b) && i != k
      ensures if i < |a| / 2 then Word(a, i) == Word(a', i) else Word(b, i - |a| / 2) == Word(b', i - |a| / 2)
    {
      WordJoin(a, b, i);
      WordJoin(a', b', i);
    }
    if k < |a| / 2 {
      forall i | 0 <= i < WordCount(b) ensures Word(b, i) == Word(b', i) {
        WordJoin(a, b, i + |a| / 2);
        WordJoin(a', b', i + |a| / 2);
      }
      WordsAreBytes(b, b');
    } else {
      forall i | 0 <= i < WordCount(b) && i != k - |a| / 2 ensures Word(b, i) == Word(b', i) {
        WordJoin(a, b, i + |a| / 2);
        WordJoin(a', b', i + |a| / 2);
      }
      WordsAreBytes(a, a');
    }
  }

  lemma {:induction false} WordsAreBytes(b: seq<u8>, c: seq<u8>)
    requires |b| == |c| && forall i :: 0 <= i < WordCount(b) ==> Word(b, i) == Word(c, i)
    ensures b == c
  {
    forall j | 0 <= j < |b| ensures b[j] == c[j] {
      WordBytes(b, c, j / 2);
    }
  }

  lemma {:induction false} WordBytes(b: seq<u8>, c: seq<u8>, i: nat)
    requires |b| == |c| && i < WordCount(b) && Word(b, i) == Word(c, i)
    ensures b[2 * i] == c[2 * i] && (2 * i + 1 < |b| ==> b[2 * i + 1] == c[2 * i + 1])
  {
  }

  lemma {:induction false} PartsDiffer(a: seq<u8>, b: seq<u8>, a': seq<u8>, b': seq<u8>, k: nat)
    requires |a| == |a'| && |a| % 2 == 0
    requires (b == b' && DifferAt(a, a', k)) || (a == a' && k >= |a| / 2 && DifferAt(b, b', k - |a| / 2))
    ensures DifferAt(a + b, a' + b', k)
  {
    forall i | 0 <= i < WordCount(a + b) && i != k ensures Word(a + b, i) == Word(a' + b', i) {
      WordJoin(a, b, i);
      WordJoin(a', b', i);
    }
  }

  // ----- one word changed -----

  /** The change that a ones' complement sum cannot see. */
  predicate Swapped(v: u16, w: u16) {
    (v == 0 && w == ALL_ONES) || (v == ALL_ONES && w == 0)
  }

  /** In a verified buffer with a non-zero word elsewhere. */
  lemma {:induction false} SwapUndetected(b: seq<u8>, c: seq<u8>, k: nat, other: nat)
    requires |b| <= MAX_SUMMED && Sum(b) == 0 && DifferAt(b, c, k) && Word(b, k) != Word(c, k)
    requires other < WordCount(b) && other != k && Word(b, other) != 0
    ensures Sum(c) == 0 <==> Swapped(Word(b, k), Word(c, k))
  {
    ChangeUndetectedIff(b, c, k);
  }

  // ----- the parts of a sent packet -----

  /** An IPv4 header without options and the TCP segment behind it, as the stack writes them. */
  ghost predicate Sent(head: seq<u8>, seg: seq<u8>) {
    && |head| == 20 && head[0] == 69 && head[1] == 0 && head[8] == 64 && head[9] == PROTO_TCP
    && Be16(head, 2) == 20 + |seg| && Sum(head) == 0
    && 20 <= |seg| <= 1420 && TcpChecksum(head[12..16], head[16..20], seg) == 0
    && 20 <= 4 * (seg[12] / 16) <= |seg| && seg[13] < 64
  }

  lemma {:induction false} SentParts(r: Route, s: Segment, options: seq<u8>) returns (head: seq<u8>, seg: seq<u8>)
    requires |options| <= 40 && |options| % 4 == 0 && |s.payload| <= MAX_PAYLOAD
    ensures Encode(r, s, options) == head + seg && Sent(head, seg)
  {
    seg := SegmentBytes(r, s, options);
    SmallTotal(20 + |seg|);
    var h := Ipv4Header(0, 0, (20 + |seg|) % WORD, 0, 64, PROTO_TCP, r.srcIp, r.dstIp);
    head := Ipv4Bytes(h);
    HeaderWritten(h);
    SegmentVerifies(r, s, options);
    OffsetWritten(r, s, options);
  }

  lemma {:induction false} HeaderWritten(h: Ipv4Header)
    ensures var head := Ipv4Bytes(h);
      && head[0] == 69 && head[1] == 0 && head[8] == h.ttl && head[9] == h.protocol && Be16(head, 2) == h.totalLength
      && head[12..16] == h.src && head[16..20] == h.dst && Sum(head) == 0
  {
    var head := Ipv4Bytes(h);
    Ipv4Verifies(h);
    ServiceWritten(h);
    assert head[..20] == head;
    Ipv4FieldsRead(h, head);
  }

  lemma {:induction false} ServiceWritten(h: Ipv4Header)
    ensures Ipv4Bytes(h)[1] == 0
  {
  }

  lemma {:induction false} OffsetWritten(r: Route, s: Segment, options: seq<u8>)
    requires |options| <= 40 && |options| % 4 == 0
    ensures var seg := SegmentBytes(r, s, options);
      && |seg| == 20 + |options| + |s.payload|
      && seg[12] == (5 + |options| / 4) * 16 && seg[13] < 64
  {
    var h := HeaderOf(r, s, options);
    var b := TcpBytes(h) + s.payload;
    assert b[..20] == FixedBytes(h);
    OffsetRead(h, b);
  }

  lemma {:induction false} Parts(head: seq<u8>, seg: seq<u8>, tail: seq<u8>)
    requires |head| == 20 && |seg| >= 20
    ensures var c := (head + seg) + tail;
      && |c| == 20 + |seg| + |tail| && c[..20] == head && c[20..20 + |seg|] == seg
      && c[0] == head[0] && c[9] == head[9] && Be16(c, 2) == Be16(head, 2)
      && c[12..16] == head[12..16] && c[16..20] == head[16..20] && c[32] == seg[12]
  {
  }

  /** With the header's first word intact, a packet is accepted exactly if both checksums
      verify and the fields in between are in bounds. */
  lemma {:induction false} PartsAcceptedIff(head: seq<u8>, seg: seq<u8>, tail: seq<u8>)
    requires |head| == 20 && head[0] == 69 && head[9] == PROTO_TCP && Be16(head, 2) == 20 + |seg|
    requires 20 <= |seg| <= 1420
    ensures Decode((head + seg) + tail).Ok? <==>
      && Sum(head) == 0 && TcpChecksum(head[12..16], head[16..20], seg) == 0
      && 20 <= 4 * (seg[12] / 16) <= |seg|
  {
    DecodeAcceptsIff((head + seg) + tail);
    Parts(head, seg, tail);
    VerifiesIff(head);
    VerifiesIff(PseudoHeader(head[12..16], head[16..20], |seg|) + seg);
  }

  lemma {:induction false} PseudoWords(src: seq<u8>, dst: seq<u8>, len: nat)
    requires |src| == 4 && |dst| == 4 && len < WORD
    ensures var p := PseudoHeader(src, dst, len);
      && WordCount(p) == 6 && Word(p, 4) == PROTO_TCP && Word(p, 5) == len
      && Word(p, 0) == Word(src, 0) && Word(p, 1) == Word(src, 1)
      && Word(p, 2) == Word(dst, 0) && Word(p, 3) == Word(dst, 1)
  {
  }

  // ----- a word of the segment -----

  lemma {:induction false} SegmentWordChanged(head: seq<u8>, seg: seq<u8>, seg': seq<u8>, tail: seq<u8>, k: nat)
    requires Sent(head, seg) && DifferAt(seg, seg', k) && Word(seg, k) != Word(seg', k)
    ensures Decode((head + seg') + tail).Err? <==> !Swapped(Word(seg, k), Word(seg', k))
  {
    var p := PseudoHeader(head[12..16], head[16..20], |seg|);
    PseudoWords(head[12..16], head[16..20], |seg|);
    PartsDiffer(p, seg, p, seg', k + 6);
    WordJoin(p, seg, k + 6);
    WordJoin(p, seg', k + 6);
    WordJoin(p, seg, 4);
    SwapUndetected(p + seg, p + seg', k + 6, 4);
    PartsAcceptedIff(head, seg', tail);
    if Swapped(Word(seg, k), Word(seg', k)) {
      assert Word(seg, 6) == seg[12] * BYTE + seg[13];
      WordBytes(seg, seg', 6);
    }
  }

  // ----- a word of the header -----

  lemma {:induction false} HeaderBytesKept(head: seq<u8>, head': seq<u8>, k: nat)
    requires |head| == 20 && DifferAt(head, head', k)
    ensures k != 0 ==> head'[0] == head[0] && head'[1] == head[1]
    ensures k != 1 ==> Be16(head', 2) == Be16(head, 2)
    ensures k != 4 ==> head'[8] == head[8] && head'[9] == head[9]
  {
    if k != 0 { WordBytes(head, head', 0); }
    if k != 1 { WordBytes(head, head', 1); }
    if k != 4 { WordBytes(head, head', 4); }
  }

  lemma {:induction false} AddressWords(head: seq<u8>, len: nat)
    requires |head| == 20 && len < WORD
    ensures var p := PseudoHeader(head[12..16], head[16..20], len);
      forall i :: 0 <= i < 4 ==> Word(p, i) == Word(head, i + 6)
  {
    PseudoWords(head[12..16], head[16..20], len);
  }

  lemma {:induction false} AddressesDiffer(head: seq<u8>, head': seq<u8>, len: nat, k: nat)
    requires |head| == 20 && DifferAt(head, head', k) && len < WORD
    ensures var p, p' := PseudoHeader(head[12..16], head[16..20], len), PseudoHeader(head'[12..16], head'[16..20], len);
      if k < 6 then p' == p
      else DifferAt(p, p', k - 6) && Word(p, k - 6) == Word(head, k) && Word(p', k - 6) == Word(head', k)
  {
    var p, p' := PseudoHeader(head[12..16], head[16..20], len), PseudoHeader(head'[12..16], head'[16..20], len);
    AddressWords(head, len);
    AddressWords(head', len);
    PseudoWords(head[12..16], head[16..20], len);
    PseudoWords(head'[12..16], head'[16..20], len);
    if k < 6 {
      forall i | 0 <= i < 6 ensures Word(p, i) == Word(p', i) {
        if i < 4 { assert Word(head, i + 6) == Word(head', i + 6); }
      }
      WordsAreBytes(p, p');
    } else {
      forall i | 0 <= i < 6 && i != k - 6 ensures Word(p, i) == Word(p', i) {
        if i < 4 { assert Word(head, i + 6) == Word(head', i + 6); }
      }
    }
  }

  /** A changed address word shows in the pseudo-header too. */
  lemma {:induction false} PseudoChanged(head: seq<u8>, head': seq<u8>, seg: seq<u8>, k: nat)
    requires Sent(head, seg) && DifferAt(head, head', k) && Swapped(Word(head, k), Word(head', k))
    ensures TcpChecksum(head'[12..16], head'[16..20], seg) == 0
  {
    AddressesDiffer(head, head', |seg|, k);
    if k >= 6 {
      var p := PseudoHeader(head[12..16], head[16..20], |seg|);
      var p' := PseudoHeader(head'[12..16], head'[16..20], |seg|);
      PseudoWords(head[12..16], head[16..20], |seg|);
      PartsDiffer(p, seg, p', seg, k - 6);
      WordJoin(p, seg, k - 6);
      WordJoin(p', seg, k - 6);
      WordJoin(p, seg, 4);
      SwapUndetected(p + seg, p' + seg, k - 6, 4);
    }
  }

  lemma {:induction false} HeaderWordChanged(head: seq<u8>, head': seq<u8>, seg: seq<u8>, tail: seq<u8>, k: nat)
    requires Sent(head, seg) && DifferAt(head, head', k) && Word(head, k) != Word(head', k) && 0 < k
    ensures Decode((head' + seg) + tail).Err? <==> !Swapped(Word(head, k), Word(head', k))
  {
    HeaderBytesKept(head, head', k);
    assert Word(head, 0) == 0x4500 && Word(head, 4) == 0x4006 && Word(head, 1) == 20 + |seg|;
    SwapUndetected(head, head', k, 0);
    if Swapped(Word(head, k), Word(head', k)) {
      assert k != 1 && k != 4;
      PseudoChanged(head, head', seg, k);
      PartsAcceptedIff(head', seg, tail);
    } else {
      HeaderAcceptedIff((head' + seg) + tail);
      Parts(head', seg, tail);
      VerifiesIff(head');
    }
  }

  // ----- the header's first word -----

  lemma {:induction false} SumOf(head: seq<u8>, head': seq<u8>)
    requires |head| == 20 && DifferAt(head, head', 0)
    ensures WordSum(head') == WordSum(head) + Word(head', 0) - Word(head, 0)
  {
    SumChange(head, head', 0, 10);
  }

  /** A longer pseudo-length and fewer segment bytes. */
  lemma {:induction false} PseudoSum(src: seq<u8>, dst: seq<u8>, len: nat, len': nat)
    requires |src| == 4 && |dst| == 4 && len < WORD && len' < WORD
    ensures var p, p' := PseudoHeader(src, dst, len), PseudoHeader(src, dst, len');
      |p| == |p'| && WordSum(p') == WordSum(p) + len' - len
  {
    PseudoWords(src, dst, len);
    PseudoWords(src, dst, len');
    var p, p' := PseudoHeader(src, dst, len), PseudoHeader(src, dst, len');
    assert DifferAt(p, p', 5);
    SumChange(p, p', 5, 6);
  }

  lemma {:induction false} MultiplesApart(x: int, y: int, h: int, t: int)
    requires x % ALL_ONES == 0 && y % ALL_ONES == 0 && h % ALL_ONES == 0 && t % ALL_ONES == 0
    ensures (x + y - h - t) % ALL_ONES == 0
  {
    var q := x / ALL_ONES + y / ALL_ONES - h / ALL_ONES - t / ALL_ONES;
    assert x + y - h - t == ALL_ONES * q;
  }

  /** Both sums cannot be multiples of 2^16 - 1 at once when the header is read as 5 + j
      words long: their total is off by less than that, and not by zero. */
  lemma {:induction false} LengthArithmetic(h: nat, t: nat, w: u16, j: nat, moved: nat)
    requires h % ALL_ONES == 0 && t % ALL_ONES == 0 && 1 <= j <= 10 && w / BYTE % 16 == 5 + j
    ensures !((h + w - 0x4500 + moved) % ALL_ONES == 0 && (t - moved - 4 * j) % ALL_ONES == 0)
  {
    var x, y, d := h + w - 0x4500 + moved, t - moved - 4 * j, w - 0x4500 - 4 * j;
    assert d == x + y - h - t && -ALL_ONES < d < ALL_ONES && d != 0;
    if x % ALL_ONES == 0 && y % ALL_ONES == 0 { MultiplesApart(x, y, h, t); }
  }

  /** The two sums once 4 * j bytes are taken from the segment for options. */
  lemma {:induction false} HeaderSum(head: seq<u8>, head': seq<u8>, more: seq<u8>)
    requires |head| == 20 && DifferAt(head, head', 0) && Word(head, 0) == 0x4500
    ensures WordSum(head' + more) == WordSum(head) + Word(head', 0) - 0x4500 + WordSum(more)
  {
    SumOf(head, head');
    SumJoin(head', more);
  }

  lemma {:induction false} RestSum(src: seq<u8>, dst: seq<u8>, seg: seq<u8>, n: nat)
    requires |src| == 4 && |dst| == 4 && |seg| < WORD && n <= |seg| && n % 2 == 0
    ensures WordSum(PseudoHeader(src, dst, |seg| - n) + seg[n..])
      == WordSum(PseudoHeader(src, dst, |seg|) + seg) - WordSum(seg[..n]) - n
  {
    PseudoSum(src, dst, |seg|, |seg| - n);
    SumJoin(PseudoHeader(src, dst, |seg|), seg);
    SumJoin(PseudoHeader(src, dst, |seg| - n), seg[n..]);
    SumJoin(seg[..n], seg[n..]);
    assert seg[..n] + seg[n..] == seg;
  }

  /** Options would be taken from the segment, and then its own checksum fails. */
  lemma {:induction false} OptionsInvented(head: seq<u8>, head': seq<u8>, seg: seq<u8>, j: nat)
    requires Sent(head, seg) && DifferAt(head, head', 0) && 1 <= j <= 10 && 4 * j <= |seg|
    requires Word(head', 0) / BYTE % 16 == 5 + j
    ensures !(Verified(head' + seg[..4 * j])
              && Verified(PseudoHeader(head[12..16], head[16..20], |seg| - 4 * j) + seg[4 * j..]))
  {
    var p := PseudoHeader(head[12..16], head[16..20], |seg|);
    VerifiesIff(head);
    VerifiesIff(p + seg);
    HeaderSum(head, head', seg[..4 * j]);
    RestSum(head[12..16], head[16..20], seg, 4 * j);
    LengthArithmetic(WordSum(head), WordSum(p + seg), Word(head', 0), j, WordSum(seg[..4 * j]));
  }

  lemma {:induction false} FirstWordChanged(head: seq<u8>, head': seq<u8>, seg: seq<u8>, tail: seq<u8>)
    requires Sent(head, seg) && DifferAt(head, head', 0) && Word(head, 0) != Word(head', 0)
    ensures Decode((head' + seg) + tail).Err?
  {
    var c := (head' + seg) + tail;
    DecodeAcceptsIff(c);
    Parts(head', seg, tail);
    HeaderBytesKept(head, head', 0);
    AddressesDiffer(head, head', |seg|, 0);
    var ihl: int := c[0] % 16;
    var j := ihl - 5;
    assert Word(head', 0) / BYTE == head'[0];
    if j == 0 {
      SwapUndetected(head, head', 0, 4);
      VerifiesIff(head');
    } else if 1 <= j && 4 * j <= |seg| {
      FirstWordCut(head', seg, tail, j);
      AddressesKept(head, head');
      OptionsInvented(head, head', seg, j);
    }
  }

  lemma {:induction false} AddressesKept(head: seq<u8>, head': seq<u8>)
    requires |head| == 20 && DifferAt(head, head', 0)
    ensures head'[12..16] == head[12..16] && head'[16..20] == head[16..20]
  {
    WordBytes(head, head', 6);
    WordBytes(head, head', 7);
    WordBytes(head, head', 8);
    WordBytes(head, head', 9);
  }

  lemma {:induction false} FirstWordCut(head: seq<u8>, seg: seq<u8>, tail: seq<u8>, j: nat)
    requires |head| == 20 && 4 * j <= |seg|
    ensures var c := (head + seg) + tail;
      c[..20 + 4 * j] == head + seg[..4 * j] && c[20 + 4 * j..20 + |seg|] == seg[4 * j..]
  {
  }

  // ----- any word, any byte -----

  /** Of all changes of one 16-bit word of a packet the stack sent, headers and payload
      alike, with or without padding behind it, exactly the swaps of 0x0000 and 0xFFFF get
      through. */
  lemma {:induction false} WordChangeRefusedIff(r: Route, s: Segment, o: TcpOptions, padding: seq<u8>, c: seq<u8>,
                                                k: nat)
    requires StackBuilt(o) && |s.payload| <= MAX_PAYLOAD
    requires var pkt := Encode(r, s, Marshal(o)); DifferAt(pkt, c, k) && Word(pkt, k) != Word(c, k)
    ensures var pkt := Encode(r, s, Marshal(o));
      Decode(c + padding).Err? <==> !Swapped(Word(pkt, k), Word(c, k))
  {
    StackBuiltFits(o);
    var head, seg := SentParts(r, s, Marshal(o));
    var head', seg' := c[..20], c[20..];
    assert c == head' + seg';
    PartDiffers(head, seg, head', seg', k);
    WordJoin(head, seg, k);
    WordJoin(head', seg', k);
    if k >= 10 { SegmentWordChanged(head, seg, seg', padding, k - 10); }
    else if k > 0 { HeaderWordChanged(head, head', seg, padding, k); }
    else { FirstWordChanged(head, head', seg, padding); }
  }

  /** No damaged byte gets through, so in particular no flipped bit. */
  lemma {:induction false} ByteChangeRefused(r: Route, s: Segment, o: TcpOptions, padding: seq<u8>, i: nat, v: u8)
    requires StackBuilt(o) && |s.payload| <= MAX_PAYLOAD
    requires var pkt := Encode(r, s, Marshal(o)); i < |pkt| && v != pkt[i]
    ensures Decode(Encode(r, s, Marshal(o))[i := v] + padding).Err?
  {
    var pkt := Encode(r, s, Marshal(o));
    ByteInWord(pkt, i, v);
    WordChangeRefusedIff(r, s, o, padding, pkt[i := v], i / 2);
  }

  lemma {:induction false} ByteInWord(b: seq<u8>, i: nat, v: u8)
    requires i < |b| && v != b[i]
    ensures var c := b[i := v];
      DifferAt(b, c, i / 2) && Word(b, i / 2) != Word(c, i / 2) && !Swapped(Word(b, i / 2), Word(c, i / 2))
  {
    var c := b[i := v];
    forall k | 0 <= k < WordCount(b) && k != i / 2 ensures Word(b, k) == Word(c, k) {
      assert 2 * k != i && 2 * k + 1 != i;
    }
  }
}
