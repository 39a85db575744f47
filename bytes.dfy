/** Fixed-width integers and the big-endian byte order used on the device link. */
module Bytes {

  /** An unsigned 8-bit value (Rust `u8`). */
  type Byte = b: int | 0 <= b < 0x100

  /** An unsigned 32-bit value (Rust `u32`). */
  type U32 = n: int | 0 <= n < 0x1_0000_0000

  /** A signed 32-bit value (Rust `i32`). */
  type I32 = n: int | -0x8000_0000 <= n < 0x8000_0000

  /** The four bytes of `n`, most significant first, as `write_u32::<BigEndian>` appends them. */
  function BE32(n: U32): (r: seq<Byte>)
    ensures |r| == 4
  {
    [n / 0x100_0000, (n / 0x1_0000) % 0x100, (n / 0x100) % 0x100, n % 0x100]
  }

  /** `BigEndian::read_u32`: the first four bytes of `s` as an unsigned number. */
  function ReadU32(s: seq<Byte>): U32
    requires |s| >= 4
  {
    (s[0] as int) * 0x100_0000 + (s[1] as int) * 0x1_0000 + (s[2] as int) * 0x100 + s[3]
  }

  /** The two's-complement reading of a 32-bit pattern. */
  function AsI32(n: U32): I32 {
    if n < 0x8000_0000 then n else n - 0x1_0000_0000
  }

  /** The 32-bit pattern that stores a signed value. */
  function I32Bits(n: I32): U32 {
    if n >= 0 then n else n + 0x1_0000_0000
  }

  /** `BigEndian::read_i32`: the first four bytes of `s` as a signed number. */
  function ReadI32(s: seq<Byte>): I32
    requires |s| >= 4
  {
    AsI32(ReadU32(s))
  }

  /** Reading back what `BE32` wrote gives the number, whatever follows it. */
  lemma ReadBE32(n: U32, rest: seq<Byte>)
    ensures ReadU32(BE32(n) + rest) == n
  {
    var s := BE32(n) + rest;
    assert s[0] == n / 0x100_0000 && s[1] == (n / 0x1_0000) % 0x100;
    assert s[2] == (n / 0x100) % 0x100 && s[3] == n % 0x100;
    assert n / 0x1_0000 == (n / 0x100_0000) * 0x100 + (n / 0x1_0000) % 0x100;
    assert n / 0x100 == (n / 0x1_0000) * 0x100 + (n / 0x100) % 0x100;
    assert n == (n / 0x100) * 0x100 + n % 0x100;
  }

  /** Writing out what `ReadU32` read reproduces the four bytes it read. */
  lemma BE32OfRead(s: seq<Byte>)
    requires |s| >= 4
    ensures BE32(ReadU32(s)) == s[..4]
  {
    var n := ReadU32(s);
    assert n / 0x100_0000 == s[0];
    assert n / 0x1_0000 == (s[0] as int) * 0x100 + s[1];
    assert n / 0x100 == (s[0] as int) * 0x1_0000 + (s[1] as int) * 0x100 + s[2];
  }

  /** A signed value survives being stored as its bit pattern and read back. */
  lemma ReadI32BE(n: I32, rest: seq<Byte>)
    ensures ReadI32(BE32(I32Bits(n)) + rest) == n
  {
    ReadBE32(I32Bits(n), rest);
  }
}
