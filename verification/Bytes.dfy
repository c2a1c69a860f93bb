/** Bytes, little-endian numbers, and copying into buffers. */
module Bytes {

  type byte = x: int | 0 <= x < 256
  type u16 = x: int | 0 <= x < 0x10000
  type u32 = x: int | 0 <= x < 0x1_0000_0000

  /** A byte of a sequence as a number. */
  function Num(s: seq<byte>, i: nat): (r: nat)
    requires i < |s|
    ensures r < 256 && r == s[i]
  {
    s[i]
  }

  function Le16(n: u16): (r: seq<byte>)
    ensures |r| == 2
  {
    [n % 256, n / 256]
  }

  function Le32(n: u32): (r: seq<byte>)
    ensures |r| == 4
  {
    [n % 256, n / 0x100 % 256, n / 0x10000 % 256, n / 0x1000000]
  }

  function Num16(s: seq<byte>, i: nat): u16
    requires i + 2 <= |s|
  {
    Num(s, i) + 0x100 * Num(s, i + 1)
  }

  function Num32(s: seq<byte>, i: nat): u32
    requires i + 4 <= |s|
  {
    Num(s, i) + 0x100 * Num(s, i + 1) + 0x10000 * Num(s, i + 2) + 0x1000000 * Num(s, i + 3)
  }

  lemma Le16Reads(n: u16)
    ensures Num16(Le16(n), 0) == n
  {
  }

  lemma Le32Reads(n: u32)
    ensures Num32(Le32(n), 0) == n
  {
    assert n == n % 0x100 + 0x100 * (n / 0x100);
    assert n / 0x100 == n / 0x100 % 256 + 0x100 * (n / 0x10000);
    assert n / 0x10000 == n / 0x10000 % 256 + 0x100 * (n / 0x1000000);
  }

  lemma ReadsBack16(s: seq<byte>, i: nat)
    requires i + 2 <= |s|
    ensures Le16(Num16(s, i)) == s[i..i + 2]
  {
  }

  lemma ReadsBack32(s: seq<byte>, i: nat)
    requires i + 4 <= |s|
    ensures Le32(Num32(s, i)) == s[i..i + 4]
  {
    var a, b, c, d := Num(s, i), Num(s, i + 1), Num(s, i + 2), Num(s, i + 3);
    FourBytes(a, b, c, d);
  }

  lemma FourBytes(a: nat, b: nat, c: nat, d: nat)
    requires a < 256 && b < 256 && c < 256 && d < 256
    ensures var n := a + 0x100 * b + 0x10000 * c + 0x1000000 * d;
            n % 256 == a && n / 0x100 % 256 == b && n / 0x10000 % 256 == c && n / 0x1000000 == d
  {
    var n := a + 0x100 * b + 0x10000 * c + 0x1000000 * d;
    assert n / 0x100 == b + 0x100 * c + 0x10000 * d;
    assert n / 0x10000 == c + 0x100 * d;
  }

  /** Copies bytes into a buffer; the rest of the buffer stays as it is. */
  method CopyInto<T>(buffer: array<T>, at: nat, bytes: seq<T>)
    requires at + |bytes| <= buffer.Length
    modifies buffer
    ensures buffer[..at + |bytes|] == old(buffer[..at]) + bytes
    ensures buffer[at + |bytes|..] == old(buffer[at + |bytes|..])
  {
    var i := 0;
    while i < |bytes|
      invariant 0 <= i <= |bytes|
      invariant buffer[..at + i] == old(buffer[..at]) + bytes[..i]
      invariant buffer[at + i..] == old(buffer[at + i..])
    {
      ghost var rest := buffer[at + i..];
      buffer[at + i] := bytes[i];
      assert buffer[..at + i + 1] == buffer[..at + i] + [bytes[i]];
      assert bytes[..i + 1] == bytes[..i] + [bytes[i]];
      assert buffer[at + i + 1..] == rest[1..] == old(buffer[at + i..])[1..];
      i := i + 1;
    }
    assert bytes[..|bytes|] == bytes;
  }
}
