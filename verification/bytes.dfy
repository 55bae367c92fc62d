/** Byte-level vocabulary of the mccat wire payloads and buffers. */
module Bytes {

  type byte = bv8

  /** ASCII `PING`: the marker that opens a probe. */
  const PING: seq<byte> := [0x50, 0x49, 0x4E, 0x47]

  /** ASCII `PONG`: the marker that opens a reply; also the reply buffer's resting content. */
  const PONG: seq<byte> := [0x50, 0x4F, 0x4E, 0x47]

  /** Length of both markers. */
  const MARKER_LEN: nat := 4

  const SPACE: byte := 0x20
  const NEWLINE: byte := 0x0A
  const MINUS: byte := 0x2D

  /** Capacity of every receive and read buffer in the program. */
  const BUFFER_SIZE: nat := 16384

  /** `<[u8]>::starts_with`: the needle fits and the leading bytes equal it. */
  predicate StartsWith(s: seq<byte>, prefix: seq<byte>) {
    |prefix| <= |s| && s[..|prefix|] == prefix
  }

  /** `Vec::truncate(n)`: keeps the first `n` elements, no effect on a shorter vector. */
  function Truncate<T>(v: seq<T>, n: nat): (r: seq<T>)
    ensures r <= v
    ensures |r| <= n
    ensures |v| <= n ==> r == v
    ensures n <= |v| ==> |r| == n
  {
    if |v| > n then v[..n] else v
  }
}
