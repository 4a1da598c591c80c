/** What both directions of the NATS protocol have in common. */
module NatsWire {
  import opened Bytes

  const SPACE: seq<byte> := [32]
  const CRLF: seq<byte> := [13, 10]
  const PING: seq<byte> := [80, 73, 78, 71]
  const PONG: seq<byte> := [80, 79, 78, 71]

  predicate NotCr(b: byte) {
    b != 13
  }
}
