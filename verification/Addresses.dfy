/** Endpoints and the keys of the connection table (tcp/transport/conntable.go:11-44,
    statemachine.go:21-24, listener.go:269-278). */
module Addresses {
  import opened SeqNum

  /** The four bytes of an IPv4 address. */
  type Ip = s: seq<u8> | |s| == 4 witness [0, 0, 0, 0]

  datatype Endpoint = Endpoint(ip: Ip, port: u16)

  /** A connection's identity, seen from the local side. */
  datatype FourTuple = FourTuple(local: Endpoint, remote: Endpoint)

  predicate ValidUnicastSrc(ip: Ip) {
    ip != [0, 0, 0, 0] && ip != [255, 255, 255, 255] && ip[0] < 224
  }
}
