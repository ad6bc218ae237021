/** Bytes and the big-endian integers that every packed format of the bus uses. */
module Bytes {

  type Byte = b: int | 0 <= b < 256

  const U16: int := 0x1_0000
  const U32: int := 0x1_0000_0000

  lemma Assoc<T>(a: seq<T>, b: seq<T>, c: seq<T>)
    ensures a + (b + c) == (a + b) + c
  {
  }

  /** `n` zero bytes, as a freshly resized vector holds. */
  function Zeros(n: nat): (r: seq<Byte>)
    ensures |r| == n
    ensures forall i :: 0 <= i < n ==> r[i] == 0
  {
    seq(n, i => 0)
  }

  /** Big-endian 16-bit image; a wider value keeps its low 16 bits. */
  function Be16(x: nat): (r: seq<Byte>)
    ensures |r| == 2
  {
    [(x / 0x100) % 0x100, x % 0x100]
  }

  function ReadBe16(s: seq<Byte>): (x: nat)
    requires |s| >= 2
    ensures x < U16
  {
    (s[0] as int) * 0x100 + s[1]
  }

  /** Big-endian 32-bit image; a wider value keeps its low 32 bits. */
  function Be32(x: nat): (r: seq<Byte>)
    ensures |r| == 4
  {
    var a := x / 0x100;
    var b := a / 0x100;
    var c := b / 0x100;
    [c % 0x100, b % 0x100, a % 0x100, x % 0x100]
  }

  function ReadBe32(s: seq<Byte>): (x: nat)
    requires |s| >= 4
    ensures x < U32
  {
    (s[0] as int) * 0x100_0000 + (s[1] as int) * 0x1_0000 + (s[2] as int) * 0x100 + s[3]
  }

  /** Reading back a 16-bit image gives the value modulo 2^16. */
  lemma Be16RoundTrip(x: nat, rest: seq<Byte>)
    ensures ReadBe16(Be16(x) + rest) == x % U16
  {
    var a := x / 0x100;
    var low := (a % 0x100) * 0x100 + x % 0x100;
    assert x == (a / 0x100) * U16 + low && 0 <= low < U16;
    Remainder16(x, a / 0x100, low);
  }

  lemma Remainder16(x: nat, d: nat, low: nat)
    requires x == d * U16 + low && low < U16
    ensures x % U16 == low
  {
  }

  lemma Remainder(x: nat, d: nat, low: nat)
    requires x == d * U32 + low && low < U32
    ensures x % U32 == low
  {
  }

  /** Reading back a 32-bit image gives the value modulo 2^32. */
  lemma Be32RoundTrip(x: nat, rest: seq<Byte>)
    ensures ReadBe32(Be32(x) + rest) == x % U32
  {
    var a := x / 0x100;
    var b := a / 0x100;
    var c := b / 0x100;
    var d := c / 0x100;
    var low := (c % 0x100) * 0x100_0000 + (b % 0x100) * 0x1_0000 + (a % 0x100) * 0x100 + x % 0x100;
    assert x == d * U32 + low && 0 <= low < U32;
    Remainder(x, d, low);
  }

  /** The first byte is the most significant one. */
  lemma NetworkOrder(x: nat)
    requires x < U32
    ensures Be32(x)[0] == x / 0x100_0000 && Be32(x)[3] == x % 0x100
    ensures x < U16 ==> Be16(x)[0] == x / 0x100 && Be16(x)[1] == x % 0x100
  {
    assert x / 0x100 / 0x100 / 0x100 == x / 0x100_0000;
  }
}
