/**
 Bytes and the 64-bit little-endian sizes that the wire format is built from.
 */
module Bytes {

  type Byte = b: int | 0 <= b < 256

  // sizeof(size_t)
  const SIZE_WIDTH: nat := 8
  // One more than the largest size_t.
  const SIZE_LIMIT: nat := 0x1_0000_0000_0000_0000

  function Pow256(width: nat): nat {
    if width == 0 then 1 else 256 * Pow256(width - 1)
  }

  /** The width lowest bytes of n, least significant first. */
  function ToLE(n: nat, width: nat): (bs: seq<Byte>)
    ensures |bs| == width
  {
    if width == 0 then [] else [n % 256] + ToLE(n / 256, width - 1)
  }

  function FromLE(bs: seq<Byte>): nat {
    if bs == [] then 0 else bs[0] + 256 * FromLE(bs[1..])
  }

  /** Writing a number that fits and reading it back gives the number. */
  lemma {:induction false} LERoundTrip(n: nat, width: nat)
    requires n < Pow256(width)
    ensures FromLE(ToLE(n, width)) == n
  {
    if width > 0 {
      LERoundTrip(n / 256, width - 1);
      assert ToLE(n, width)[1..] == ToLE(n / 256, width - 1);
    }
  }

  function SizeBytes(n: nat): (bs: seq<Byte>)
    ensures |bs| == SIZE_WIDTH
  {
    ToLE(n, SIZE_WIDTH)
  }

  lemma Pow256OfEight()
    ensures Pow256(SIZE_WIDTH) == SIZE_LIMIT
  {
    assert Pow256(4) == 0x1_0000_0000;
    assert Pow256(8) == 256 * (256 * (256 * (256 * Pow256(4))));
  }

  lemma SizeRoundTrip(n: nat)
    requires n < SIZE_LIMIT
    ensures FromLE(SizeBytes(n)) == n
  {
    Pow256OfEight();
    LERoundTrip(n, SIZE_WIDTH);
  }

  /** Four bytes as a number: the least significant comes first. */
  lemma FourDigits(b: seq<Byte>)
    requires |b| >= 4
    ensures FromLE(b) == b[0] as int + 0x100 * b[1] as int + 0x1_0000 * b[2] as int + 0x100_0000 * b[3] as int
      + 0x1_0000_0000 * FromLE(b[4..])
  {
    assert b[1..][1..] == b[2..] && b[2..][1..] == b[3..] && b[3..][1..] == b[4..];
    assert FromLE(b) == b[0] as int + 0x100 * FromLE(b[1..]);
    assert FromLE(b[1..]) == b[1] as int + 0x100 * FromLE(b[2..]);
    assert FromLE(b[2..]) == b[2] as int + 0x100 * FromLE(b[3..]);
    assert FromLE(b[3..]) == b[3] as int + 0x100 * FromLE(b[4..]);
  }

  /** The bytes of a size are its digits to the base 256, the least significant first. */
  lemma SizeBytesAreDigits(n: nat)
    requires n < SIZE_LIMIT
    ensures var b := SizeBytes(n);
      n == b[0] as int + 0x100 * b[1] as int + 0x1_0000 * b[2] as int + 0x100_0000 * b[3] as int
           + 0x1_0000_0000 * (b[4] as int + 0x100 * b[5] as int + 0x1_0000 * b[6] as int + 0x100_0000 * b[7] as int)
  {
    SizeRoundTrip(n);
    FourDigits(SizeBytes(n));
    FourDigits(SizeBytes(n)[4..]);
    assert SizeBytes(n)[4..][4..] == [];
  }

  /** Value-initialised storage. */
  function Zeros(n: nat): (bs: seq<Byte>)
    ensures |bs| == n && forall i :: 0 <= i < n ==> bs[i] == 0
  {
    seq(n, _ => 0)
  }

  /** std::vector::resize: cut off the end, or pad with value-initialised elements. */
  function Resize(bs: seq<Byte>, n: nat): (r: seq<Byte>)
    ensures |r| == n
    ensures forall i :: 0 <= i < n && i < |bs| ==> r[i] == bs[i]
  {
    if n <= |bs| then bs[..n] else bs + Zeros(n - |bs|)
  }

  lemma ConcatAssoc(a: seq<Byte>, b: seq<Byte>, c: seq<Byte>)
    ensures (a + b) + c == a + (b + c)
  {
  }

  function Min(a: nat, b: nat): nat {
    if a <= b then a else b
  }
}
