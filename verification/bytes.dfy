/**
 * Bytes as the serializer sees them: the little-endian encodings produced by
 * BitConverter.GetBytes, zero runs, the 4-byte padding rule of the glTF
 * binary buffer, and System.Buffer.BlockCopy into a preallocated array.
 */
module Bytes {

  type byte = x: int | 0 <= x < 256

  /** sizeof(float) and sizeof(ushort) in C#. */
  const FloatSize: nat := 4
  const UshortSize: nat := 2

  /** ushort.MaxValue. */
  const UshortMax: nat := 65535

  /** The value of an unchecked cast `(ushort)x`: C# keeps the low 16 bits. */
  function ToUshort(x: int): (u: nat)
    ensures u <= UshortMax
    ensures 0 <= x <= UshortMax ==> u == x
  {
    x % 0x1_0000
  }

  /** BitConverter.GetBytes((ushort)x) on a little-endian machine. */
  function U16(x: int): (r: seq<byte>)
    ensures |r| == UshortSize
  {
    var u := ToUshort(x);
    [u % 256, u / 256]
  }

  /** Reads back a little-endian ushort. */
  function U16Value(r: seq<byte>): nat
    requires |r| == UshortSize
  {
    r[0] as int + 256 * (r[1] as int)
  }

  /** Decoding the two bytes written for `x` gives back `(ushort)x`. */
  lemma U16RoundTrip(x: int)
    ensures U16Value(U16(x)) == ToUshort(x)
  {
  }

  /**
   * Stand-in for BitConverter.GetBytes((float)x): four little-endian bytes.
   * IEEE-754 rounding is not modelled; every property proved here relies only
   * on the encoding being four bytes wide.
   */
  function F32(x: real): (r: seq<byte>)
    ensures |r| == FloatSize
  {
    var w := x.Floor % 0x1_0000_0000;
    [w % 256, (w / 256) % 256, (w / 0x1_0000) % 256, w / 0x100_0000]
  }

  /** A run of `n` zero bytes, the initial contents of `new byte[n]`. */
  function Zeros(n: nat): (r: seq<byte>)
    ensures |r| == n
    ensures forall i :: 0 <= i < n ==> r[i] == 0
  {
    seq(n, _ => 0)
  }

  lemma ZerosSplit(m: nat, n: nat)
    ensures Zeros(m + n) == Zeros(m) + Zeros(n)
  {
  }

  /**
   * How many zero bytes `while (buffer.Count % 4 != 0) buffer.Add(0)` adds to a
   * buffer of length `len`.
   */
  function PadLength(len: nat): (k: nat)
    ensures k < 4
    ensures (len + k) % 4 == 0
    ensures len % 4 == 0 ==> k == 0
  {
    (4 - len % 4) % 4
  }

  /** PadLength is the least count that reaches alignment. */
  lemma PadLengthIsLeast(len: nat, j: nat)
    requires (len + j) % 4 == 0
    ensures PadLength(len) <= j
  {
  }

  /**
   * System.Buffer.BlockCopy(src, 0, dst, at, |src|): overwrite |src| bytes of
   * `dst` starting at `at`, leaving the rest alone.
   */
  method BlockCopy(src: seq<byte>, dst: array<byte>, at: nat)
    requires at + |src| <= dst.Length
    modifies dst
    ensures dst[..at] == old(dst[..at])
    ensures dst[at..at + |src|] == src
    ensures forall j :: at + |src| <= j < dst.Length ==> dst[j] == old(dst[j])
  {
    var k := 0;
    while k < |src|
      invariant 0 <= k <= |src|
      invariant forall j :: 0 <= j < at ==> dst[j] == old(dst[j])
      invariant forall j :: 0 <= j < k ==> dst[at + j] == src[j]
      invariant forall j :: at + k <= j < dst.Length ==> dst[j] == old(dst[j])
    {
      dst[at + k] := src[k];
      k := k + 1;
    }
  }
}
