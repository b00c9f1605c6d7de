/** TCP segments as the state machine sees them (tcp/transport/header.go). */
module Segments {
  import opened SeqNum
  import opened Options

  datatype Flags = Flags(fin: bool, syn: bool, rst: bool, psh: bool, ack: bool, urg: bool)

  const F_SYN: Flags := Flags(false, true, false, false, false, false)
  const F_SYN_ACK: Flags := Flags(false, true, false, false, true, false)
  const F_ACK: Flags := Flags(false, false, false, false, true, false)
  const F_PSH_ACK: Flags := Flags(false, false, false, true, true, false)
  const F_FIN_ACK: Flags := Flags(true, false, false, false, true, false)
  const F_RST: Flags := Flags(false, false, true, false, false, false)
  const F_RST_ACK: Flags := Flags(false, false, true, false, true, false)

  /** opts is the outcome of parsing the option area. */
  datatype Segment = Segment(flags: Flags, seqNum: u32, ackNum: u32, window: u16, opts: Parsed, payload: Payload)

  function Bit(b: bool): (n: nat)
    ensures n <= 1
  {
    if b then 1 else 0
  }

  /** Sequence numbers a segment occupies: payload, SYN and FIN. */
  function SeqLen(flags: Flags, payload: Payload): u32 {
    |payload| + Bit(flags.syn) + Bit(flags.fin)
  }

  function SegLen(s: Segment): u32 {
    SeqLen(s.flags, s.payload)
  }
}
