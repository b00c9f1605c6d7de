/** Packets on the wire: IPv4 and TCP headers, both checksums, and the receive pipeline
    (tcp/transport/header.go, tcp/network/ipv4.go, statemachine.go:381-425,
    listener.go:160-176). */
module Wire {
  import opened SeqNum
  import opened Addresses
  import opened Bytes
  import opened Checksum
  import opened Options
  import opened Segments

  const PROTO_TCP: u8 := 6
  const MAX_PAYLOAD: nat := 1360

  datatype Result<T> = Ok(value: T) | Err(error: WireError)
  datatype WireError = Ipv4Short | Ipv4Ihl | Ipv4Checksum | NotTcp | BadTotalLength | TcpChecksumMismatch
    | TcpShort | TcpDataOffset

  // ----- buffer writes -----

  method PutBe16(b: array<u8>, off: nat, v: u16)
    requires off + 2 <= b.Length
    modifies b
    ensures b[..] == old(b[..])[off := v / BYTE][off + 1 := v % BYTE]
  {
    b[off] := v / BYTE;
    b[off + 1] := v % BYTE;
  }

  method PutBe32(b: array<u8>, off: nat, v: u32)
    requires off + 4 <= b.Length
    modifies b
    ensures b[..] ==
      old(b[..])[off := v / 0x100_0000][off + 1 := v / 0x1_0000 % BYTE][off + 2 := v / BYTE % BYTE][off + 3 := v % BYTE]
  {
    b[off] := v / 0x100_0000;
    b[off + 1] := v / 0x1_0000 % BYTE;
    b[off + 2] := v / BYTE % BYTE;
    b[off + 3] := v % BYTE;
  }

  // ----- TCP header -----

  datatype TcpHeader = TcpHeader(
    srcPort: u16, dstPort: u16, seqNum: u32, ackNum: u32, dataOffset: u8,
    flags: Flags, window: u16, checksum: u16, urgentPtr: u16, options: seq<u8>)

  function FlagByte(f: Flags): u8 {
    Bit(f.fin) + 2 * Bit(f.syn) + 4 * Bit(f.rst) + 8 * Bit(f.psh) + 16 * Bit(f.ack) + 32 * Bit(f.urg)
  }

  function ByteFlags(b: u8): Flags {
    Flags(b % 2 == 1, b / 2 % 2 == 1, b / 4 % 2 == 1, b / 8 % 2 == 1, b / 16 % 2 == 1, b / 32 % 2 == 1)
  }

  lemma {:induction false} FlagsRoundTrip(f: Flags)
    ensures ByteFlags(FlagByte(f)) == f
  {
  }

  /** The data-offset value for an option area, truncated to a byte as written. */
  function DataOffsetForOptions(optLen: nat): u8 {
    (5 + (optLen + 3) / 4) % BYTE
  }

  /** The 20 fixed bytes of a TCP header. */
  function FixedBytes(h: TcpHeader): (b: seq<u8>)
    ensures |b| == 20
  {
    [h.srcPort / BYTE, h.srcPort % BYTE, h.dstPort / BYTE, h.dstPort % BYTE,
     h.seqNum / 0x100_0000, h.seqNum / 0x1_0000 % BYTE, h.seqNum / BYTE % BYTE, h.seqNum % BYTE,
     h.ackNum / 0x100_0000, h.ackNum / 0x1_0000 % BYTE, h.ackNum / BYTE % BYTE, h.ackNum % BYTE,
     DataOffsetForOptions(|h.options|) * 16 % BYTE, FlagByte(h.flags),
     h.window / BYTE, h.window % BYTE, h.checksum / BYTE, h.checksum % BYTE, h.urgentPtr / BYTE, h.urgentPtr % BYTE]
  }

  function TcpBytes(h: TcpHeader): seq<u8> {
    FixedBytes(h) + h.options
  }

  /** Write the ports and numbers, then the rest of the fixed header. */
  method PutFixed(b: array<u8>, h: TcpHeader)
    requires b.Length == 20 + |h.options|
    modifies b
    ensures b[..20] == FixedBytes(h)
  {
    PutBe16(b, 0, h.srcPort);
    PutBe16(b, 2, h.dstPort);
    PutBe32(b, 4, h.seqNum);
    PutBe32(b, 8, h.ackNum);
    ghost var first := b[..12];
    assert first == FixedBytes(h)[..12];
    b[12] := DataOffsetForOptions(|h.options|) * 16 % BYTE;
    b[13] := FlagByte(h.flags);
    PutBe16(b, 14, h.window);
    PutBe16(b, 16, h.checksum);
    PutBe16(b, 18, h.urgentPtr);
    assert b[..12] == first;
    assert b[12..20] == FixedBytes(h)[12..];
    assert b[..20] == b[..12] + b[12..20];
  }

  method MarshalTcp(h: TcpHeader) returns (b: array<u8>)
    ensures fresh(b) && b[..] == TcpBytes(h)
  {
    b := new u8[20 + |h.options|](_ => 0);
    PutFixed(b, h);
    ghost var head := b[..20];
    for i := 0 to |h.options|
      modifies b
      invariant b[..20] == head
      invariant b[20..20 + i] == h.options[..i]
    {
      b[20 + i] := h.options[i];
    }
    assert b[..] == b[..20] + b[20..];
  }

  function ParseTcp(b: seq<u8>): Result<TcpHeader> {
    if |b| < 20 then Err(TcpShort)
    else
      var off := b[12] / 16;
      if off < 5 then Err(TcpDataOffset)
      else if |b| < 4 * off then Err(TcpShort)
      else Ok(TcpHeader(Be16(b, 0), Be16(b, 2), Be32(b, 4), Be32(b, 8), off, ByteFlags(b[13]),
                        Be16(b, 14), Be16(b, 16), Be16(b, 18), b[20..4 * off]))
  }

  // ----- IPv4 header -----

  datatype Ipv4Header = Ipv4Header(version: u8, ihl: u8, totalLength: u16, id: u16, ttl: u8, protocol: u8, src: Ip,
    dst: Ip)

  function Ipv4Unsummed(h: Ipv4Header): (b: seq<u8>)
    ensures |b| == 20
  {
    [69, 0, h.totalLength / BYTE, h.totalLength % BYTE, h.id / BYTE, h.id % BYTE, 0, 0, h.ttl, h.protocol, 0, 0,
     h.src[0], h.src[1], h.src[2], h.src[3], h.dst[0], h.dst[1], h.dst[2], h.dst[3]]
  }

  /** Overwrite the 16-bit word at an even offset. */
  function PutWord(b: seq<u8>, off: nat, v: u16): (c: seq<u8>)
    requires off + 2 <= |b|
    ensures |c| == |b|
  {
    b[off := v / BYTE][off + 1 := v % BYTE]
  }

  function Ipv4Bytes(h: Ipv4Header): (b: seq<u8>)
    ensures |b| == 20
  {
    var b := Ipv4Unsummed(h);
    PutWord(b, 10, Sum(b))
  }

  method PutAddress(b: array<u8>, off: nat, ip: Ip)
    requires off + 4 <= b.Length
    modifies b
    ensures b[..] == old(b[..])[off := ip[0]][off + 1 := ip[1]][off + 2 := ip[2]][off + 3 := ip[3]]
  {
    b[off] := ip[0];
    b[off + 1] := ip[1];
    b[off + 2] := ip[2];
    b[off + 3] := ip[3];
  }

  method PutIpv4Numbers(b: array<u8>, h: Ipv4Header)
    requires b[..] == seq(20, _ => 0)
    modifies b
    ensures b[..] == [69, 0, h.totalLength / BYTE, h.totalLength % BYTE, h.id / BYTE, h.id % BYTE, 0, 0,
                      h.ttl, h.protocol, 0, 0, 0, 0, 0, 0, 0, 0, 0, 0]
  {
    b[0] := 4 * 16 + 5;
    PutBe16(b, 2, h.totalLength);
    PutBe16(b, 4, h.id);
    b[8] := h.ttl;
    b[9] := h.protocol;
  }

  method PutIpv4Fields(b: array<u8>, h: Ipv4Header)
    requires b[..] == seq(20, _ => 0)
    modifies b
    ensures b[..] == Ipv4Unsummed(h)
  {
    PutIpv4Numbers(b, h);
    PutAddress(b, 12, h.src);
    PutAddress(b, 16, h.dst);
  }

  method MarshalIpv4(h: Ipv4Header) returns (b: array<u8>)
    ensures fresh(b) && b[..] == Ipv4Bytes(h)
  {
    b := new u8[20](_ => 0);
    PutIpv4Fields(b, h);
    var c := Compute(b[..]);
    PutBe16(b, 10, c);
  }

  function ParseIpv4(b: seq<u8>): Result<Ipv4Header> {
    if |b| < 20 then Err(Ipv4Short)
    else
      var ihl := b[0] % 16;
      if ihl < 5 then Err(Ipv4Ihl)
      else if |b| < 4 * ihl then Err(Ipv4Short)
      else if Sum(b[..4 * ihl]) != 0 then Err(Ipv4Checksum)
      else Ok(Ipv4Header(b[0] / 16, ihl, Be16(b, 2), Be16(b, 4), b[8], b[9], b[12..16], b[16..20]))
  }

  function TcpSegment(h: Ipv4Header, pkt: seq<u8>): Result<seq<u8>> {
    var hdr, total := 4 * h.ihl, h.totalLength;
    if total < hdr || total > |pkt| then Err(BadTotalLength) else Ok(pkt[hdr..total])
  }

  // ----- TCP checksum -----

  function PseudoHeader(src: Ip, dst: Ip, len: nat): (b: seq<u8>)
    ensures |b| == 12
  {
    [src[0], src[1], src[2], src[3], dst[0], dst[1], dst[2], dst[3], 0, PROTO_TCP, len % WORD / BYTE, len % BYTE]
  }

  function TcpChecksum(src: Ip, dst: Ip, segment: seq<u8>): u16 {
    Sum(PseudoHeader(src, dst, |segment|) + segment)
  }

  // ----- sending and receiving one segment -----

  /** Where a connection sends from and to. */
  datatype Route = Route(srcIp: Ip, srcPort: u16, dstIp: Ip, dstPort: u16)

  function HeaderOf(r: Route, s: Segment, options: seq<u8>): TcpHeader {
    TcpHeader(r.srcPort, r.dstPort, s.seqNum, s.ackNum, 5, s.flags, s.window, 0, 0, options)
  }

  /** The segment bytes with the checksum field filled in. */
  function SegmentBytes(r: Route, s: Segment, options: seq<u8>): seq<u8> {
    var seg := TcpBytes(HeaderOf(r, s, options)) + s.payload;
    PutWord(seg, 16, TcpChecksum(r.srcIp, r.dstIp, seg))
  }

  function Encode(r: Route, s: Segment, options: seq<u8>): seq<u8> {
    var seg := SegmentBytes(r, s, options);
    Ipv4Bytes(Ipv4Header(0, 0, (20 + |seg|) % WORD, 0, 64, PROTO_TCP, r.srcIp, r.dstIp)) + seg
  }

  /** The demultiplexer's parsing pipeline, up to the connection lookup. */
  function Decode(pkt: seq<u8>): Result<(Route, Segment)> {
    match ParseIpv4(pkt)
    case Err(e) => Err(e)
    case Ok(ip) =>
      if ip.protocol != PROTO_TCP then Err(NotTcp)
      else
        match TcpSegment(ip, pkt)
        case Err(e) => Err(e)
        case Ok(seg) =>
          if TcpChecksum(ip.src, ip.dst, seg) != 0 then Err(TcpChecksumMismatch)
          else
            match ParseTcp(seg)
            case Err(e) => Err(e)
            case Ok(h) =>
              var payload := seg[4 * h.dataOffset..];
              Ok((Route(ip.src, h.srcPort, ip.dst, h.dstPort),
                  Segment(h.flags, h.seqNum, h.ackNum, h.window, ParseOptions(h.options), payload)))
  }

  // ----- round trips -----

  lemma {:induction false} PutWordDiffers(b: seq<u8>, k: nat, v: u16)
    requires 2 * k + 2 <= |b|
    ensures DifferAt(b, PutWord(b, 2 * k, v), k) && Word(PutWord(b, 2 * k, v), k) == v
  {
    var c := PutWord(b, 2 * k, v);
    forall i | 0 <= i < WordCount(b) && i != k ensures Word(b, i) == Word(c, i) {
      assert c[2 * i] == b[2 * i];
    }
  }

  lemma {:induction false} HighHalf(v: u32)
    ensures v / 0x100_0000 * BYTE + v / 0x1_0000 % BYTE == v / 0x1_0000
  {
    var hi := v / 0x1_0000;
    assert v / 0x100_0000 == hi / BYTE;
  }

  lemma {:induction false} Remainder(v: int, q: int, r: int)
    requires v == q * 0x1_0000 + r && 0 <= r < 0x1_0000
    ensures v % 0x1_0000 == r
  {
  }

  lemma {:induction false} LowHalf(v: u32)
    ensures v / BYTE % BYTE * BYTE + v % BYTE == v % 0x1_0000
  {
    var q := v / BYTE;
    Remainder(v, q / BYTE, q % BYTE * BYTE + v % BYTE);
  }

  lemma {:induction false} Be32Bytes(b: seq<u8>, off: nat, v: u32)
    requires off + 4 <= |b|
    requires b[off] == v / 0x100_0000 && b[off + 1] == v / 0x1_0000 % BYTE && b[off + 2] == v / BYTE % BYTE
      && b[off + 3] == v % BYTE
    ensures Be32(b, off) == v
  {
    HighHalf(v);
    LowHalf(v);
    assert Be16(b, off) == v / 0x1_0000 && Be16(b, off + 2) == v % 0x1_0000;
  }

  /** A filled IPv4 header verifies. */
  lemma {:induction false} Ipv4Verifies(h: Ipv4Header)
    ensures Sum(Ipv4Bytes(h)) == 0
  {
    var b := Ipv4Unsummed(h);
    PutWordDiffers(b, 5, Sum(b));
    FillVerifies(b, Ipv4Bytes(h), 5);
  }

  lemma {:induction false} Ipv4FieldsRead(h: Ipv4Header, b: seq<u8>)
    requires |b| >= 20 && b[..20] == Ipv4Bytes(h)
    ensures b[0] == 69 && Be16(b, 2) == h.totalLength && Be16(b, 4) == h.id && b[8] == h.ttl && b[9] == h.protocol
    ensures b[12..16] == h.src && b[16..20] == h.dst
  {
    var f := b[..20];
    assert b[0] == f[0] && b[2] == f[2] && b[3] == f[3] && b[4] == f[4] && b[5] == f[5] && b[8] == f[8] && b[9] == f[9];
    Be16Bytes(b, 2, h.totalLength);
    Be16Bytes(b, 4, h.id);
    AddressesRead(h, b);
  }

  lemma {:induction false} Be16Bytes(b: seq<u8>, off: nat, v: u16)
    requires off + 2 <= |b| && b[off] == v / BYTE && b[off + 1] == v % BYTE
    ensures Be16(b, off) == v
  {
  }

  lemma {:induction false} AddressesRead(h: Ipv4Header, b: seq<u8>)
    requires |b| >= 20 && b[..20] == Ipv4Bytes(h)
    ensures b[12..16] == h.src && b[16..20] == h.dst
  {
    var f := b[..20];
    assert f[12..16] == [h.src[0], h.src[1], h.src[2], h.src[3]] == h.src;
    assert f[16..20] == [h.dst[0], h.dst[1], h.dst[2], h.dst[3]] == h.dst;
    assert b[12..16] == f[12..16] && b[16..20] == f[16..20];
  }

  /** Parsing a written IPv4 header, whatever follows it, gives the header back. */
  lemma {:induction false} Ipv4RoundTrip(h: Ipv4Header, rest: seq<u8>)
    ensures ParseIpv4(Ipv4Bytes(h) + rest) == Ok(h.(version := 4, ihl := 5))
  {
    var b := Ipv4Bytes(h) + rest;
    assert b[..20] == Ipv4Bytes(h);
    Ipv4Verifies(h);
    Ipv4FieldsRead(h, b);
  }

  /** The filled checksum makes pseudo-header plus segment verify. */
  lemma {:induction false} SegmentVerifies(r: Route, s: Segment, options: seq<u8>)
    requires |options| <= 40
    ensures TcpChecksum(r.srcIp, r.dstIp, SegmentBytes(r, s, options)) == 0
  {
    var seg := TcpBytes(HeaderOf(r, s, options)) + s.payload;
    var p := PseudoHeader(r.srcIp, r.dstIp, |seg|);
    var c := TcpChecksum(r.srcIp, r.dstIp, seg);
    assert p + PutWord(seg, 16, c) == PutWord(p + seg, 28, c);
    PutWordDiffers(p + seg, 14, c);
    assert (p + seg)[28] == 0 && (p + seg)[29] == 0;
    FillVerifies(p + seg, PutWord(p + seg, 28, c), 14);
  }

  lemma {:induction false} NumbersRead(h: TcpHeader, b: seq<u8>)
    requires |b| >= 20 && b[..20] == FixedBytes(h)
    ensures Be32(b, 4) == h.seqNum && Be32(b, 8) == h.ackNum
  {
    var f := b[..20];
    assert b[4] == f[4] && b[5] == f[5] && b[6] == f[6] && b[7] == f[7];
    assert b[8] == f[8] && b[9] == f[9] && b[10] == f[10] && b[11] == f[11];
    Be32Bytes(b, 4, h.seqNum);
    Be32Bytes(b, 8, h.ackNum);
  }

  lemma {:induction false} PortsRead(h: TcpHeader, b: seq<u8>)
    requires |h.options| <= 40 && |b| >= 20 && b[..20] == FixedBytes(h)
    ensures Be16(b, 0) == h.srcPort && Be16(b, 2) == h.dstPort
  {
    var f := b[..20];
    assert b[0] == f[0] && b[1] == f[1] && b[2] == f[2] && b[3] == f[3];
  }

  lemma {:induction false} OffsetRead(h: TcpHeader, b: seq<u8>)
    requires |h.options| <= 40 && |b| >= 20 && b[..20] == FixedBytes(h)
    ensures b[12] == (5 + (|h.options| + 3) / 4) * 16 && b[13] == FlagByte(h.flags)
  {
    var f := b[..20];
    assert b[12] == f[12] && b[13] == f[13];
  }

  lemma {:induction false} TailRead(h: TcpHeader, b: seq<u8>)
    requires |b| >= 20 && b[..20] == FixedBytes(h)
    ensures Be16(b, 14) == h.window && Be16(b, 16) == h.checksum && Be16(b, 18) == h.urgentPtr
  {
    var f := b[..20];
    assert b[14] == f[14] && b[15] == f[15] && b[16] == f[16] && b[17] == f[17] && b[18] == f[18] && b[19] == f[19];
  }

  /** Parsing a written TCP header gives its fields back, with the data offset its options
      need. */
  lemma {:induction false} TcpRoundTrip(h: TcpHeader, payload: seq<u8>)
    requires |h.options| <= 40 && |h.options| % 4 == 0
    ensures var b := TcpBytes(h) + payload;
      && ParseTcp(b) == Ok(h.(dataOffset := 5 + |h.options| / 4))
      && b[20 + |h.options|..] == payload
  {
    var b := TcpBytes(h) + payload;
    assert b[..20] == FixedBytes(h);
    assert b[20..20 + |h.options|] == h.options;
    PortsRead(h, b);
    OffsetRead(h, b);
    TailRead(h, b);
    NumbersRead(h, b);
    FlagsRoundTrip(h.flags);
  }

  lemma {:induction false} FilledIsWritten(r: Route, s: Segment, options: seq<u8>)
    ensures var h := HeaderOf(r, s, options);
      var c := TcpChecksum(r.srcIp, r.dstIp, TcpBytes(h) + s.payload);
      SegmentBytes(r, s, options) == TcpBytes(h.(checksum := c)) + s.payload
  {
    var h := HeaderOf(r, s, options);
    var c := TcpChecksum(r.srcIp, r.dstIp, TcpBytes(h) + s.payload);
    var h' := h.(checksum := c);
    assert PutWord(FixedBytes(h), 16, c) == FixedBytes(h');
    assert SegmentBytes(r, s, options) == PutWord(FixedBytes(h), 16, c) + options + s.payload;
  }

  /** Every segment the stack sends arrives: the packet passes both checksums and all
      length checks and yields the same route, header, options and payload, even with
      arbitrary padding appended by the link. */
  lemma {:induction false} WireRoundTrip(r: Route, s: Segment, o: TcpOptions, padding: seq<u8>)
    requires s.opts == Options(o) && StackBuilt(o) && |s.payload| <= MAX_PAYLOAD
    ensures Decode(Encode(r, s, Marshal(o)) + padding) == Ok((r, s))
  {
    var options := Marshal(o);
    StackBuiltFits(o);
    OptionsRoundTrip(o);
    FilledIsWritten(r, s, options);
    var h := HeaderOf(r, s, options);
    var c := TcpChecksum(r.srcIp, r.dstIp, TcpBytes(h) + s.payload);
    TcpRoundTrip(h.(checksum := c), s.payload);
    var ip := DecodeEncoded(r, s, options, padding);
  }

  /** The IPv4 layer's part of decoding a packet we encoded. */
  lemma {:induction false} DecodeEncoded(r: Route, s: Segment, options: seq<u8>, padding: seq<u8>)
    returns (ip: Ipv4Header)
    requires |options| <= 40 && |s.payload| <= MAX_PAYLOAD
    ensures var pkt := Encode(r, s, options) + padding;
      var seg := SegmentBytes(r, s, options);
      && ParseIpv4(pkt) == Ok(ip) && ip.protocol == PROTO_TCP && ip.src == r.srcIp && ip.dst == r.dstIp
      && TcpSegment(ip, pkt) == Ok(seg) && TcpChecksum(ip.src, ip.dst, seg) == 0
  {
    var seg := SegmentBytes(r, s, options);
    var total := 20 + |seg|;
    SmallTotal(total);
    var h := Ipv4Header(0, 0, total % WORD, 0, 64, PROTO_TCP, r.srcIp, r.dstIp);
    ip := h.(version := 4, ihl := 5);
    Ipv4RoundTrip(h, seg + padding);
    SegmentVerifies(r, s, options);
    PacketParts(Ipv4Bytes(h), seg, padding);
    SegmentCut(ip, Ipv4Bytes(h), seg, padding);
  }

  lemma {:induction false} SmallTotal(total: nat)
    requires total < WORD
    ensures total % WORD == total
  {
  }

  lemma {:induction false} SegmentCut(ip: Ipv4Header, head: seq<u8>, seg: seq<u8>, padding: seq<u8>)
    requires |head| == 20 && ip.ihl == 5 && ip.totalLength == 20 + |seg|
    ensures TcpSegment(ip, (head + seg) + padding) == Ok(seg)
  {
    PacketParts(head, seg, padding);
  }

  lemma {:induction false} PacketParts(head: seq<u8>, seg: seq<u8>, padding: seq<u8>)
    requires |head| == 20
    ensures (head + seg) + padding == head + (seg + padding)
    ensures ((head + seg) + padding)[20..20 + |seg|] == seg
  {
  }
}
