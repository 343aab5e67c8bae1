/** Fixed-width integers and their byte layouts, as C sees them on a
    little-endian host, and the byte-order conversions of <arpa/inet.h>. */
module Bytes {

  type byte = x: int | 0 <= x < 0x100
  type uint16 = x: int | 0 <= x < 0x1_0000
  type uint32 = x: int | 0 <= x < 0x1_0000_0000
  type uint64 = x: int | 0 <= x < 0x1_0000_0000_0000_0000

  /** The 32-bit value stored in four bytes, least significant byte first. */
  function Le32(b: seq<byte>): uint32
    requires |b| == 4
  {
    b[0] as int + 0x100 * b[1] as int + 0x1_0000 * b[2] as int + 0x100_0000 * b[3] as int
  }

  function ToLe32(x: uint32): (b: seq<byte>)
    ensures |b| == 4
  {
    var x1 := x / 0x100;
    var x2 := x1 / 0x100;
    [x % 0x100, x1 % 0x100, x2 % 0x100, x2 / 0x100]
  }

  function ToLe64(x: uint64): (b: seq<byte>)
    ensures |b| == 8
  {
    ToLe32(x % 0x1_0000_0000) + ToLe32(x / 0x1_0000_0000)
  }

  /** Most significant byte first. */
  function ToBe32(x: uint32): (b: seq<byte>)
    ensures |b| == 4
  {
    var b := ToLe32(x);
    [b[3], b[2], b[1], b[0]]
  }

  /** The same four bytes read most significant first. */
  function Be32(b: seq<byte>): uint32
    requires |b| == 4
  {
    b[3] as int + 0x100 * b[2] as int + 0x1_0000 * b[1] as int + 0x100_0000 * b[0] as int
  }

  function Le16(b: seq<byte>): uint16
    requires |b| == 2
  {
    b[0] as int + 0x100 * b[1] as int
  }

  function ToLe16(x: uint16): (b: seq<byte>)
    ensures |b| == 2
  {
    [x % 0x100, x / 0x100]
  }

  function Be16(b: seq<byte>): uint16
    requires |b| == 2
  {
    0x100 * b[0] as int + b[1] as int
  }

  function ToBe16(x: uint16): (b: seq<byte>)
    ensures |b| == 2
  {
    [x / 0x100, x % 0x100]
  }

  /** ntohl on a little-endian host: the four bytes of the value in reverse. */
  function Ntohl(x: uint32): uint32 {
    Le32(ToBe32(x))
  }

  /** ntohs on a little-endian host. */
  function Ntohs(x: uint16): uint16 {
    x / 0x100 + 0x100 * (x % 0x100)
  }

  lemma Le32RoundTrip(x: uint32)
    ensures Le32(ToLe32(x)) == x
  {
  }

  lemma Le16RoundTrip(x: uint16)
    ensures Le16(ToLe16(x)) == x
  {
  }

  lemma Be16RoundTrip(x: uint16)
    ensures Be16(ToBe16(x)) == x
  {
  }

  lemma LowByte(r: byte, q: nat)
    ensures (r + 0x100 * q) % 0x100 == r && (r + 0x100 * q) / 0x100 == q
  {
  }

  /** Four bytes are recovered from the value they encode. */
  lemma ToLe32OfLe32(b: seq<byte>)
    requires |b| == 4
    ensures ToLe32(Le32(b)) == b
  {
    var q2 := b[2] + 0x100 * b[3] as int;
    var q1 := b[1] + 0x100 * q2;
    assert Le32(b) == b[0] + 0x100 * q1;
    LowByte(b[0], q1);
    LowByte(b[1], q2);
    LowByte(b[2], b[3]);
  }

  lemma NtohlInvolutive(x: uint32)
    ensures Ntohl(Ntohl(x)) == x
  {
    ToLe32OfLe32(ToBe32(x));
    assert ToBe32(Ntohl(x)) == ToLe32(x);
    Le32RoundTrip(x);
  }

  lemma NtohsInvolutive(x: uint16)
    ensures Ntohs(Ntohs(x)) == x
  {
    LowByte(x / 0x100, x % 0x100);
  }

  /** Converting a natively read word reads its bytes in network order. */
  lemma NtohlReadsBigEndian(b: seq<byte>)
    requires |b| == 4
    ensures Ntohl(Le32(b)) == Be32(b)
  {
    ToLe32OfLe32(b);
  }
}
