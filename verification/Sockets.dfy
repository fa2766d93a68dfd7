/** What the server and the client share of the socket layer. */
module Sockets {

  type Fd = int
  type Byte = bv8

  const INVALID_SOCKET: Fd := -1
  const MAX_PACKET_SIZE := 65536

  /** What Recv may return: a result below 1 and no data, or that many bytes. */
  predicate RecvResult(n: int, data: seq<Byte>) {
    if n < 1 then data == [] else n == |data| <= MAX_PACKET_SIZE
  }
}
