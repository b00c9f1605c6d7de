/** Re-splitting a byte stream at IPv4 packet boundaries (tcp/transport/framing.go). */
module Framing {
  import opened SeqNum
  import opened Bytes

  const IPV4_MIN_HEADER: nat := 20

  datatype FrameError = BadVersion | BadIhl | TooLong | BufFull
  datatype Status = Fine | Failed(error: FrameError)
  datatype Framed = Framed(packets: seq<seq<u8>>, rest: seq<u8>, status: Status)

  /** The length a buffer's IPv4 header declares. */
  function Declared(buf: seq<u8>): nat
    requires |buf| >= 4
  {
    Be16(buf, 2)
  }

  /** What the first bytes of a buffer decide, before any packet is cut off. */
  function HeadStatus(buf: seq<u8>, maxPacket: int): Status {
    if |buf| < 4 then Fine
    else if buf[0] / 16 != 4 then Failed(BadVersion)
    else if buf[0] % 16 < 5 then Failed(BadIhl)
    else if Declared(buf) < IPV4_MIN_HEADER then Failed(BadIhl)
    else if Declared(buf) > maxPacket then Failed(TooLong)
    else if |buf| < Declared(buf) && |buf| > maxPacket then Failed(BufFull)
    else Fine
  }

  predicate HasPacket(buf: seq<u8>, maxPacket: int) {
    HeadStatus(buf, maxPacket) == Fine && |buf| >= 4 && |buf| >= Declared(buf)
  }

  /** Cut complete packets off the front until the head is incomplete or malformed. */
  function Split(buf: seq<u8>, maxPacket: int): Framed
    decreases |buf|
  {
    if HasPacket(buf, maxPacket) then
      var n := Declared(buf);
      var r := Split(buf[n..], maxPacket);
      r.(packets := [buf[..n]] + r.packets)
    else Framed([], buf, HeadStatus(buf, maxPacket))
  }

  class Framer {
    var buf: seq<u8>
    const maxPacket: int

    constructor (maxPacket: int)
      ensures buf == [] && this.maxPacket == maxPacket
    {
      this.buf := [];
      this.maxPacket := maxPacket;
    }

    method Push(chunk: seq<u8>) returns (packets: seq<seq<u8>>, status: Status)
      modifies this
      ensures Framed(packets, buf, status) == Split(old(buf) + chunk, maxPacket)
    {
      buf := buf + chunk;
      packets := [];
      ghost var all := buf;
      while true
        invariant var r := Split(buf, maxPacket);
          Split(all, maxPacket) == r.(packets := packets + r.packets)
        decreases |buf|
      {
        if |buf| < 4 {
          break;
        }
        if buf[0] / 16 != 4 {
          return packets, Failed(BadVersion);
        }
        if buf[0] % 16 < 5 {
          return packets, Failed(BadIhl);
        }
        var total := Be16(buf, 2);
        if total < IPV4_MIN_HEADER {
          return packets, Failed(BadIhl);
        }
        if total > maxPacket {
          return packets, Failed(TooLong);
        }
        if |buf| < total {
          if |buf| > maxPacket {
            return packets, Failed(BufFull);
          }
          break;
        }
        packets := packets + [buf[..total]];
        buf := buf[total..];
      }
      status := Fine;
    }
  }

  // ----- properties of one split -----

  function Concat(packets: seq<seq<u8>>): seq<u8> {
    if packets == [] then [] else packets[0] + Concat(packets[1..])
  }

  predicate IsPacket(p: seq<u8>, maxPacket: int) {
    |p| >= 4 && p[0] / 16 == 4 && p[0] % 16 >= 5 && IPV4_MIN_HEADER <= |p| == Declared(p) <= maxPacket
  }

  lemma {:induction false} ConcatCons(p: seq<u8>, ps: seq<seq<u8>>, rest: seq<u8>, tail: seq<u8>)
    requires Concat(ps) + rest == tail
    ensures Concat([p] + ps) + rest == p + tail
  {
    assert ([p] + ps)[1..] == ps;
    var c := Concat(ps);
    assert (p + c) + rest == p + (c + rest);
  }

  lemma {:induction false} SplitCons(buf: seq<u8>, maxPacket: int)
    requires HasPacket(buf, maxPacket)
    ensures var p, tail := buf[..Declared(buf)], buf[Declared(buf)..];
      var r := Split(tail, maxPacket);
      p + tail == buf && Split(buf, maxPacket) == Framed([p] + r.packets, r.rest, r.status)
  {
  }

  lemma {:induction false} SplitReproduces(buf: seq<u8>, maxPacket: int)
    ensures var r := Split(buf, maxPacket);
      Concat(r.packets) + r.rest == buf
    decreases |buf|
  {
    if HasPacket(buf, maxPacket) {
      var p, tail := buf[..Declared(buf)], buf[Declared(buf)..];
      SplitReproduces(tail, maxPacket);
      var r := Split(tail, maxPacket);
      ConcatCons(p, r.packets, r.rest, tail);
      SplitCons(buf, maxPacket);
    }
  }

  lemma {:induction false} SplitWellFormed(buf: seq<u8>, maxPacket: int)
    ensures var r := Split(buf, maxPacket);
      && (forall p :: p in r.packets ==> IsPacket(p, maxPacket))
      && !HasPacket(r.rest, maxPacket)
      && r.status == HeadStatus(r.rest, maxPacket)
    decreases |buf|
  {
    if HasPacket(buf, maxPacket) {
      SplitWellFormed(buf[Declared(buf)..], maxPacket);
    }
  }

  /** Nothing is lost, reordered or invented; every packet is well formed; what is kept
      back holds no complete packet; and the buffer-full error never happens. */
  lemma {:induction false} SplitSound(buf: seq<u8>, maxPacket: int)
    ensures var r := Split(buf, maxPacket);
      && Concat(r.packets) + r.rest == buf
      && (forall p :: p in r.packets ==> IsPacket(p, maxPacket))
      && !HasPacket(r.rest, maxPacket)
      && r.status == HeadStatus(r.rest, maxPacket)
      && r.status != Failed(BufFull)
  {
    SplitReproduces(buf, maxPacket);
    SplitWellFormed(buf, maxPacket);
  }

  /** Well-formed packets sent back to back are recovered one by one. */
  lemma {:induction false} SplitRecovers(packets: seq<seq<u8>>, maxPacket: int)
    requires forall p :: p in packets ==> IsPacket(p, maxPacket)
    ensures Split(Concat(packets), maxPacket) == Framed(packets, [], Fine)
  {
    if packets != [] {
      var p, rest := packets[0], Concat(packets[1..]);
      assert p in packets;
      SplitRecovers(packets[1..], maxPacket);
      var buf := p + rest;
      assert buf[..|p|] == p && buf[|p|..] == rest;
    }
  }

  // ----- chunking invariance -----

  lemma {:induction false} AppendMore(buf: seq<u8>, more: seq<u8>, maxPacket: int)
    requires HasPacket(buf, maxPacket)
    ensures HasPacket(buf + more, maxPacket) && Declared(buf + more) == Declared(buf)
    ensures var n := Declared(buf); (buf + more)[..n] == buf[..n] && (buf + more)[n..] == buf[n..] + more
  {
  }

  /** The first packet of both sides, given the rest. */
  lemma {:induction false} AppendStep(buf: seq<u8>, more: seq<u8>, maxPacket: int, r: Framed, q: Framed)
    requires HasPacket(buf, maxPacket) && r == Split(buf[Declared(buf)..], maxPacket)
    requires Split(buf[Declared(buf)..] + more, maxPacket) == q.(packets := r.packets + q.packets)
    ensures var s := Split(buf, maxPacket);
      s.rest == r.rest && s.status == r.status && Split(buf + more, maxPacket) == q.(packets := s.packets + q.packets)
  {
    AppendMore(buf, more, maxPacket);
    SplitCons(buf, maxPacket);
    SplitCons(buf + more, maxPacket);
    Assoc([buf[..Declared(buf)]], r.packets, q.packets);
  }

  /** Splitting a prefix first and the remainder later is the same as splitting at once,
      on every input, malformed ones included. */
  lemma {:induction false} SplitAppend(buf: seq<u8>, more: seq<u8>, maxPacket: int)
    ensures var r := Split(buf, maxPacket);
      var q := Split(r.rest + more, maxPacket);
      && Split(buf + more, maxPacket) == q.(packets := r.packets + q.packets)
      && (r.status != Fine ==> q.status == r.status && q.packets == [])
    decreases |buf|
  {
    if HasPacket(buf, maxPacket) {
      var tail := buf[Declared(buf)..];
      SplitAppend(tail, more, maxPacket);
      var r := Split(tail, maxPacket);
      AppendStep(buf, more, maxPacket, r, Split(r.rest + more, maxPacket));
    } else {
      var q := Split(buf + more, maxPacket);
      assert [] + q.packets == q.packets;
    }
  }

  lemma {:induction false} Assoc<A>(a: seq<A>, b: seq<A>, c: seq<A>)
    ensures a + (b + c) == a + b + c
  {
  }

  /** A fresh framer fed one chunk after another: all packets so far, the retained bytes
      and the status of the last Push. */
  function Pushes(chunks: seq<seq<u8>>, maxPacket: int): Framed
    decreases |chunks|
  {
    if chunks == [] then Framed([], [], Fine)
    else
      var r := Pushes(chunks[..|chunks| - 1], maxPacket);
      var q := Split(r.rest + chunks[|chunks| - 1], maxPacket);
      q.(packets := r.packets + q.packets)
  }

  lemma {:induction false} ConcatSnoc(chunks: seq<seq<u8>>, c: seq<u8>)
    ensures Concat(chunks + [c]) == Concat(chunks) + c
  {
    if chunks == [] {
      assert [] + [c] == [c];
    } else {
      ConcatSnoc(chunks[1..], c);
      assert (chunks + [c])[1..] == chunks[1..] + [c];
    }
  }

  /** However the stream is cut into Push calls, packets, retained bytes and final status
      are those of pushing the whole stream once. */
  lemma {:induction false} ChunkingInvariance(chunks: seq<seq<u8>>, maxPacket: int)
    ensures Pushes(chunks, maxPacket) == Split(Concat(chunks), maxPacket)
    decreases |chunks|
  {
    if chunks != [] {
      var prev, c := chunks[..|chunks| - 1], chunks[|chunks| - 1];
      ChunkingInvariance(prev, maxPacket);
      assert chunks == prev + [c];
      ConcatSnoc(prev, c);
      SplitAppend(Concat(prev), c, maxPacket);
    }
  }
}
