/** TCP options on the wire (tcp/transport/options.go). */
module Options {
  import opened SeqNum
  import opened Bytes
  import opened Sack

  const EOL: u8 := 0
  const NOP: u8 := 1
  const MSS: u8 := 2
  const WSCALE: u8 := 3
  const SACK_PERM: u8 := 4
  const SACK: u8 := 5
  const TIMESTAMP: u8 := 8
  const MAX_WSCALE: u8 := 14

  datatype TcpOptions = TcpOptions(
    hasMss: bool, mss: u16,
    hasWScale: bool, windowScale: u8,
    hasTimestamp: bool, tsVal: u32, tsEcr: u32,
    sackPermitted: bool,
    sackBlocks: seq<Block>)

  const NO_OPTIONS: TcpOptions := TcpOptions(false, 0, false, 0, false, 0, 0, false, [])

  datatype Parsed = Malformed | Options(o: TcpOptions)

  function ClampWScale(s: u8): u8 {
    if s > MAX_WSCALE then MAX_WSCALE else s
  }

  function ReadBlocks(val: seq<u8>): seq<Block>
    requires |val| % 8 == 0
  {
    if val == [] then []
    else [Block(Be32(val, 0), Be32(val, 4))] + ReadBlocks(val[8..])
  }

  /** The effect of one option; unknown kinds are skipped. */
  function Handle(kind: u8, val: seq<u8>, o: TcpOptions): Parsed {
    if kind == MSS then
      if |val| != 2 then Malformed else Options(o.(hasMss := true, mss := Be16(val, 0)))
    else if kind == WSCALE then
      if |val| != 1 then Malformed else Options(o.(hasWScale := true, windowScale := ClampWScale(val[0])))
    else if kind == SACK_PERM then
      if |val| != 0 then Malformed else Options(o.(sackPermitted := true))
    else if kind == SACK then
      if |val| % 8 != 0 then Malformed else Options(o.(sackBlocks := o.sackBlocks + ReadBlocks(val)))
    else if kind == TIMESTAMP then
      if |val| != 8 then Malformed
      else Options(o.(hasTimestamp := true, tsVal := Be32(val, 0), tsEcr := Be32(val, 4)))
    else Options(o)
  }

  function ParseFrom(b: seq<u8>, o: TcpOptions): Parsed
    decreases |b|
  {
    if b == [] || b[0] == EOL then Options(o)
    else if b[0] == NOP then ParseFrom(b[1..], o)
    else if |b| < 2 || b[1] < 2 || b[1] > |b| then Malformed
    else
      var n: nat := b[1];
      match Handle(b[0], b[2..n], o)
      case Malformed => Malformed
      case Options(o') => ParseFrom(b[n..], o')
  }

  function ParseOptions(b: seq<u8>): Parsed {
    ParseFrom(b, NO_OPTIONS)
  }

  method ParseTcpOptions(b: seq<u8>) returns (p: Parsed)
    ensures p == ParseOptions(b)
  {
    var o := NO_OPTIONS;
    var i := 0;
    while i < |b|
      invariant 0 <= i <= |b|
      invariant ParseOptions(b) == ParseFrom(b[i..], o)
    {
      var kind := b[i];
      if kind == EOL {
        break;
      }
      if kind == NOP {
        i := i + 1;
        continue;
      }
      if i + 1 >= |b| {
        return Malformed;
      }
      var length: int := b[i + 1];
      if length < 2 || i + length > |b| {
        return Malformed;
      }
      var val := b[i + 2..i + length];
      assert b[i..][2..length] == val && b[i..][length..] == b[i + length..];
      match Handle(kind, val, o) {
        case Malformed => return Malformed;
        case Options(o') => o := o';
      }
      i := i + length;
    }
    return Options(o);
  }

  // ----- writing -----

  function MssBytes(o: TcpOptions): seq<u8> {
    if o.hasMss then [MSS, 4] + Bytes16(o.mss) else []
  }

  function WScaleBytes(o: TcpOptions): seq<u8> {
    if o.hasWScale then [WSCALE, 3] + [ClampWScale(o.windowScale)] else []
  }

  function SackPermBytes(o: TcpOptions): seq<u8> {
    if o.sackPermitted then [SACK_PERM, 2] + [] else []
  }

  function TimestampBytes(o: TcpOptions): seq<u8> {
    if o.hasTimestamp then [TIMESTAMP, 10] + (Bytes32(o.tsVal) + Bytes32(o.tsEcr)) else []
  }

  function BlockBytes(bs: seq<Block>): (b: seq<u8>)
    ensures |b| == 8 * |bs|
  {
    if bs == [] then [] else Bytes32(bs[0].left) + Bytes32(bs[0].right) + BlockBytes(bs[1..])
  }

  /** Byte truncation of the length field included. */
  function SackBytes(o: TcpOptions): seq<u8> {
    if o.sackBlocks != [] then [SACK, (2 + 8 * |o.sackBlocks|) % BYTE] + BlockBytes(o.sackBlocks) else []
  }

  /** All options in writing order, followed by a tail. */
  function Chain(o: TcpOptions, tail: seq<u8>): seq<u8> {
    MssBytes(o) + (WScaleBytes(o) + (SackPermBytes(o) + (TimestampBytes(o) + (SackBytes(o) + tail))))
  }

  function Nops(n: nat): (s: seq<u8>)
    ensures |s| == n && forall i :: 0 <= i < n ==> s[i] == NOP
  {
    if n == 0 then [] else Nops(n - 1) + [NOP]
  }

  function PadLength(n: nat): nat {
    (4 - n % 4) % 4
  }

  /** Padding with NOPs stops at the first multiple of four. */
  lemma {:induction false} PadStops(n: nat, k: nat)
    requires k <= PadLength(n)
    ensures (n + k) % 4 == 0 <==> k == PadLength(n)
  {
  }

  function Marshal(o: TcpOptions): seq<u8> {
    Chain(o, Nops(PadLength(|Chain(o, [])|)))
  }

  lemma {:induction false} Regroup(m: seq<u8>, w: seq<u8>, p: seq<u8>, t: seq<u8>, s: seq<u8>, tail: seq<u8>)
    ensures m + w + p + t + s == m + (w + (p + (t + (s + []))))
    ensures m + (w + (p + (t + (s + tail)))) == m + w + p + t + s + tail
  {
    assert s + [] == s;
    assert m + w + p + t + s == m + (w + (p + (t + s)));
  }

  lemma {:induction false} ChainTail(o: TcpOptions, tail: seq<u8>)
    ensures Chain(o, tail) == Chain(o, []) + tail
  {
    Regroup(MssBytes(o), WScaleBytes(o), SackPermBytes(o), TimestampBytes(o), SackBytes(o), tail);
  }

  method AppendPadding(body: seq<u8>) returns (b: seq<u8>)
    ensures b == body + Nops(PadLength(|body|))
  {
    b := body;
    ghost var k := 0;
    while |b| % 4 != 0
      invariant k <= PadLength(|body|) && b == body + Nops(k)
      decreases PadLength(|body|) - k
    {
      PadStops(|body|, k);
      assert body + Nops(k) + [NOP] == body + Nops(k + 1);
      b := b + [NOP];
      k := k + 1;
    }
    PadStops(|body|, k);
  }

  method MarshalOptions(o: TcpOptions) returns (b: seq<u8>)
    ensures b == Marshal(o)
  {
    b := MssBytes(o);
    b := b + WScaleBytes(o);
    b := b + SackPermBytes(o);
    b := b + TimestampBytes(o);
    b := b + SackBytes(o);
    Regroup(MssBytes(o), WScaleBytes(o), SackPermBytes(o), TimestampBytes(o), SackBytes(o), []);
    ChainTail(o, Nops(PadLength(|b|)));
    b := AppendPadding(b);
  }

  // ----- round trip -----

  /** Absent options carry no values. */
  predicate Plain(o: TcpOptions) {
    && (!o.hasMss ==> o.mss == 0)
    && (if o.hasWScale then o.windowScale <= MAX_WSCALE else o.windowScale == 0)
    && (!o.hasTimestamp ==> o.tsVal == 0 && o.tsEcr == 0)
    && |o.sackBlocks| <= 31
  }

  /** Reading one well-formed option advances past it. */
  lemma {:induction false} ParseOne(kind: u8, val: seq<u8>, tail: seq<u8>, o: TcpOptions)
    requires kind != EOL && kind != NOP && |val| <= 253
    ensures ParseFrom([kind, 2 + |val|] + val + tail, o) ==
      match Handle(kind, val, o) case Malformed => Malformed case Options(o') => ParseFrom(tail, o')
  {
    var b := [kind, 2 + |val|] + val + tail;
    assert b[2..2 + |val|] == val && b[2 + |val|..] == tail;
  }

  lemma {:induction false} ParseNops(n: nat, o: TcpOptions)
    ensures ParseFrom(Nops(n), o) == Options(o)
  {
    if n > 0 {
      assert Nops(n)[1..] == Nops(n - 1);
      ParseNops(n - 1, o);
    }
  }

  lemma {:induction false} ReadBlocksBack(bs: seq<Block>)
    ensures ReadBlocks(BlockBytes(bs)) == bs
  {
    if bs != [] {
      var l, r, rest := Bytes32(bs[0].left), Bytes32(bs[0].right), BlockBytes(bs[1..]);
      var b := l + r + rest;
      assert b[8..] == rest;
      Be32Prefix(l, r + rest);
      Be32Prefix(r, rest);
      assert b == l + (r + rest);
      assert b[4..] == r + rest;
      Be32Shift(b, 4);
      ReadBlocksBack(bs[1..]);
    }
  }

  lemma {:induction false} Be32Prefix(l: seq<u8>, rest: seq<u8>)
    requires |l| == 4
    ensures Be32(l + rest, 0) == Be32(l, 0)
  {
  }

  lemma {:induction false} Be32Shift(b: seq<u8>, off: nat)
    requires off + 4 <= |b|
    ensures Be32(b, off) == Be32(b[off..], 0)
  {
  }

  lemma {:induction false} ParseMss(o: TcpOptions, acc: TcpOptions, tail: seq<u8>)
    ensures ParseFrom(MssBytes(o) + tail, acc) ==
      ParseFrom(tail, if o.hasMss then acc.(hasMss := true, mss := o.mss) else acc)
  {
    if o.hasMss { ParseOne(MSS, Bytes16(o.mss), tail, acc); } else { assert [] + tail == tail; }
  }

  lemma {:induction false} ParseWScale(o: TcpOptions, acc: TcpOptions, tail: seq<u8>)
    ensures ParseFrom(WScaleBytes(o) + tail, acc) ==
      ParseFrom(tail, if o.hasWScale then acc.(hasWScale := true, windowScale := ClampWScale(o.windowScale)) else acc)
  {
    if o.hasWScale { ParseOne(WSCALE, [ClampWScale(o.windowScale)], tail, acc); } else { assert [] + tail == tail; }
  }

  lemma {:induction false} ParseSackPerm(o: TcpOptions, acc: TcpOptions, tail: seq<u8>)
    ensures ParseFrom(SackPermBytes(o) + tail, acc) ==
      ParseFrom(tail, if o.sackPermitted then acc.(sackPermitted := true) else acc)
  {
    if o.sackPermitted { ParseOne(SACK_PERM, [], tail, acc); } else { assert [] + tail == tail; }
  }

  lemma {:induction false} ParseTimestamp(o: TcpOptions, acc: TcpOptions, tail: seq<u8>)
    ensures ParseFrom(TimestampBytes(o) + tail, acc) ==
      ParseFrom(tail, if o.hasTimestamp then acc.(hasTimestamp := true, tsVal := o.tsVal, tsEcr := o.tsEcr) else acc)
  {
    if o.hasTimestamp {
      var l, r := Bytes32(o.tsVal), Bytes32(o.tsEcr);
      ParseOne(TIMESTAMP, l + r, tail, acc);
      Be32Prefix(l, r);
      Be32Shift(l + r, 4);
      assert (l + r)[4..] == r;
    } else {
      assert [] + tail == tail;
    }
  }

  lemma {:induction false} HandlesBlocks(bs: seq<Block>, acc: TcpOptions)
    ensures Handle(SACK, BlockBytes(bs), acc) == Options(acc.(sackBlocks := acc.sackBlocks + bs))
  {
    ReadBlocksBack(bs);
  }

  lemma {:induction false} SackBytesAre(o: TcpOptions)
    requires 0 < |o.sackBlocks| <= 31
    ensures var val := BlockBytes(o.sackBlocks);
      |val| <= 253 && SackBytes(o) == [SACK, 2 + |val|] + val
  {
  }

  lemma {:induction false} ParseSack(o: TcpOptions, acc: TcpOptions, tail: seq<u8>)
    requires |o.sackBlocks| <= 31
    ensures ParseFrom(SackBytes(o) + tail, acc) == ParseFrom(tail, acc.(sackBlocks := acc.sackBlocks + o.sackBlocks))
  {
    if o.sackBlocks != [] {
      HandlesBlocks(o.sackBlocks, acc);
      SackBytesAre(o);
      ParseOne(SACK, BlockBytes(o.sackBlocks), tail, acc);
    } else {
      assert [] + tail == tail && acc.sackBlocks + [] == acc.sackBlocks;
    }
  }

  /** Writing and parsing back is the identity on every plain option set. */
  lemma {:induction false} OptionsRoundTrip(o: TcpOptions)
    requires Plain(o)
    ensures ParseOptions(Marshal(o)) == Options(o)
  {
    var pad := Nops(PadLength(|Chain(o, [])|));
    var s4 := SackBytes(o) + pad;
    var s3 := TimestampBytes(o) + s4;
    var s2 := SackPermBytes(o) + s3;
    var s1 := WScaleBytes(o) + s2;
    var a1 := if o.hasMss then NO_OPTIONS.(hasMss := true, mss := o.mss) else NO_OPTIONS;
    var a2 := if o.hasWScale then a1.(hasWScale := true, windowScale := ClampWScale(o.windowScale)) else a1;
    var a3 := if o.sackPermitted then a2.(sackPermitted := true) else a2;
    var a4 := if o.hasTimestamp then a3.(hasTimestamp := true, tsVal := o.tsVal, tsEcr := o.tsEcr) else a3;
    ParseMss(o, NO_OPTIONS, s1);
    ParseWScale(o, a1, s2);
    ParseSackPerm(o, a2, s3);
    ParseTimestamp(o, a3, s4);
    ParseSack(o, a4, pad);
    assert a4.sackBlocks + o.sackBlocks == o.sackBlocks;
    ParseNops(PadLength(|Chain(o, [])|), o);
  }

  // ----- the option sets the stack builds -----

  /** On SYN and SYN-ACK. */
  function SynOptions(mss: u16, wscale: u8, tsVal: u32, tsEcr: u32): TcpOptions {
    TcpOptions(true, mss, true, wscale, true, tsVal, tsEcr, true, [])
  }

  /** On other segments: timestamps and SACK blocks, as many as leave room. */
  predicate StackBuilt(o: TcpOptions) {
    || (exists mss: u16, v: u32, e: u32 :: o == SynOptions(mss, 7, v, e))
    || (&& !o.hasMss && !o.hasWScale && !o.sackPermitted
        && o.mss == 0 && o.windowScale == 0
        && (!o.hasTimestamp ==> o.tsVal == 0 && o.tsEcr == 0)
        && |o.sackBlocks| <= if o.hasTimestamp then 3 else 4)
  }

  /** Every option set the stack builds fits the 40-byte option area. */
  lemma {:induction false} StackBuiltFits(o: TcpOptions)
    requires StackBuilt(o)
    ensures Plain(o) && |Marshal(o)| <= 40 && |Marshal(o)| % 4 == 0
  {
    var n := |Chain(o, [])|;
    ChainTail(o, Nops(PadLength(n)));
    PadStops(n, PadLength(n));
  }

  // ----- option areas in general -----

  /** What an option area is made of, before an end-of-list byte or its end. */
  datatype Item = Pad | Opt(kind: u8, val: seq<u8>)

  predicate Framed(it: Item) {
    it.Opt? ==> it.kind != EOL && it.kind != NOP && |it.val| <= 253
  }

  ghost predicate AllFramed(items: seq<Item>) {
    forall i :: 0 <= i < |items| ==> Framed(items[i])
  }

  /** One of the five kinds the stack knows. */
  predicate Known(it: Item) {
    it.Opt? && it.kind in {MSS, WSCALE, SACK_PERM, SACK, TIMESTAMP}
  }

  /** A known kind has the length its standard gives it; others may have any. */
  predicate Sized(it: Item) {
    it.Opt? ==>
      && (it.kind == MSS ==> |it.val| == 2) && (it.kind == WSCALE ==> |it.val| == 1)
      && (it.kind == SACK_PERM ==> it.val == []) && (it.kind == SACK ==> |it.val| % 8 == 0)
      && (it.kind == TIMESTAMP ==> |it.val| == 8)
  }

  function ItemBytes(it: Item): seq<u8>
    requires Framed(it)
  {
    if it.Pad? then [NOP] else [it.kind, 2 + |it.val|] + it.val
  }

  function Area(items: seq<Item>, tail: seq<u8>): seq<u8>
    requires AllFramed(items)
  {
    if items == [] then tail else ItemBytes(items[0]) + Area(items[1..], tail)
  }

  function OnlyKnown(items: seq<Item>): (known: seq<Item>)
    ensures AllFramed(items) ==> AllFramed(known)
  {
    if items == [] then []
    else if Known(items[0]) then [items[0]] + OnlyKnown(items[1..])
    else OnlyKnown(items[1..])
  }

  /** Reading one item. */
  lemma {:induction false} ParseItem(it: Item, tail: seq<u8>, o: TcpOptions)
    requires Framed(it)
    ensures ParseFrom(ItemBytes(it) + tail, o) ==
      if !Sized(it) then Malformed
      else if Known(it) then ParseFrom(tail, Handle(it.kind, it.val, o).o)
      else ParseFrom(tail, o)
  {
    if it.Pad? {
      assert ([NOP] + tail)[1..] == tail;
    } else {
      ParseOne(it.kind, it.val, tail, o);
    }
  }

  /** Padding and unknown kinds are skipped, wherever they stand and whatever they carry: the
      area reads as if only the known options were there. */
  lemma {:induction false} UnknownSkipped(items: seq<Item>, tail: seq<u8>, o: TcpOptions)
    requires AllFramed(items)
    ensures ParseFrom(Area(items, tail), o) == ParseFrom(Area(OnlyKnown(items), tail), o)
  {
    if items != [] {
      var it, rest := items[0], items[1..];
      ParseItem(it, Area(rest, tail), o);
      if !Known(it) {
        UnknownSkipped(rest, tail, o);
      } else {
        var known := OnlyKnown(rest);
        assert OnlyKnown(items)[1..] == known;
        ParseItem(it, Area(known, tail), o);
        if Sized(it) { UnknownSkipped(rest, tail, Handle(it.kind, it.val, o).o); }
      }
    }
  }

  /** Nothing behind an end-of-list byte is read. */
  lemma {:induction false} EndsAtEol(items: seq<Item>, junk: seq<u8>, o: TcpOptions)
    requires AllFramed(items)
    ensures ParseFrom(Area(items, [EOL] + junk), o) == ParseFrom(Area(items, []), o)
  {
    if items != [] {
      var it, rest := items[0], items[1..];
      ParseItem(it, Area(rest, [EOL] + junk), o);
      ParseItem(it, Area(rest, []), o);
      if Sized(it) { EndsAtEol(rest, junk, if Known(it) then Handle(it.kind, it.val, o).o else o); }
    }
  }

  /** An area of complete options is malformed exactly if a known one has a wrong length. */
  lemma {:induction false} MalformedIff(items: seq<Item>, o: TcpOptions)
    requires AllFramed(items)
    ensures ParseFrom(Area(items, []), o) == Malformed <==> exists i :: 0 <= i < |items| && !Sized(items[i])
  {
    if items != [] {
      var it, rest := items[0], items[1..];
      ParseItem(it, Area(rest, []), o);
      if Sized(it) {
        MalformedIff(rest, if Known(it) then Handle(it.kind, it.val, o).o else o);
        assert (exists i :: 0 <= i < |rest| && !Sized(rest[i])) <==> exists i :: 1 <= i < |items| && !Sized(items[i])
        by {
          if i :| 0 <= i < |rest| && !Sized(rest[i]) { assert !Sized(items[i + 1]); }
          if i :| 1 <= i < |items| && !Sized(items[i]) { assert !Sized(rest[i - 1]); }
        }
      }
    }
  }

  /** An option that is cut off at the end of the area makes it malformed. */
  lemma {:induction false} CutOffMalformed(items: seq<Item>, kind: u8, rest: seq<u8>, o: TcpOptions)
    requires AllFramed(items) && kind != EOL && kind != NOP
    requires rest == [] || rest[0] < 2 || rest[0] > 1 + |rest|
    ensures ParseFrom(Area(items, [kind] + rest), o) == Malformed
  {
    if items != [] {
      var it := items[0];
      ParseItem(it, Area(items[1..], [kind] + rest), o);
      if Sized(it) { CutOffMalformed(items[1..], kind, rest, if Known(it) then Handle(it.kind, it.val, o).o else o); }
    }
  }

  /** A shift count above 14 reads as 14 (section 2.3 of RFC 7323). */
  lemma {:induction false} ShiftLimited(v: u8, tail: seq<u8>, o: TcpOptions)
    ensures ParseFrom([WSCALE, 3] + [v] + tail, o)
      == ParseFrom(tail, o.(hasWScale := true, windowScale := if v <= 14 then v else 14))
  {
    ParseOne(WSCALE, [v], tail, o);
  }
}
