/**
 * Fixed-width unsigned integer types, and such integers as byte sequences
 * in either byte order. Used to state the in-memory layout of a packed
 * LPM-trie key.
 */
module Bytes {

  type byte = x: int | 0 <= x < 256
  type u16 = x: int | 0 <= x < 0x1_0000
  type u32 = x: int | 0 <= x < 0x1_0000_0000
  type u64 = x: int | 0 <= x < 0x1_0000_0000_0000_0000

  datatype Endian = Little | Big

  function Pow256(n: nat): (p: nat)
    ensures p > 0
  {
    if n == 0 then 1 else 256 * Pow256(n - 1)
  }

  /** The n least significant bytes of x, least significant first. */
  function LeBytes(x: nat, n: nat): (b: seq<byte>)
    ensures |b| == n
  {
    if n == 0 then [] else [x % 256] + LeBytes(x / 256, n - 1)
  }

  /** The number whose little-endian bytes are b. */
  function LeValue(b: seq<byte>): nat
  {
    if b == [] then 0 else b[0] + 256 * LeValue(b[1..])
  }

  function Reverse<T>(s: seq<T>): (r: seq<T>)
    ensures |r| == |s|
    ensures forall i :: 0 <= i < |s| ==> r[i] == s[|s| - 1 - i]
  {
    if s == [] then [] else Reverse(s[1..]) + [s[0]]
  }

  /** The n-byte representation of x in byte order e. */
  function ToBytes(x: nat, n: nat, e: Endian): (b: seq<byte>)
    ensures |b| == n
  {
    match e
    case Little => LeBytes(x, n)
    case Big => Reverse(LeBytes(x, n))
  }

  /** The number represented by b in byte order e. */
  function FromBytes(b: seq<byte>, e: Endian): nat
  {
    match e
    case Little => LeValue(b)
    case Big => LeValue(Reverse(b))
  }

  lemma ReverseReverse<T>(s: seq<T>)
    ensures Reverse(Reverse(s)) == s
  {
  }

  lemma {:induction false} LeValueBound(b: seq<byte>)
    ensures LeValue(b) < Pow256(|b|)
  {
    if b != [] {
      LeValueBound(b[1..]);
    }
  }

  lemma {:induction false} LeRoundTrip(x: nat, n: nat)
    requires x < Pow256(n)
    ensures LeValue(LeBytes(x, n)) == x
  {
    if n > 0 {
      LeRoundTrip(x / 256, n - 1);
      assert LeBytes(x, n)[1..] == LeBytes(x / 256, n - 1);
    }
  }

  lemma {:induction false} LeBytesOfValue(b: seq<byte>)
    ensures LeBytes(LeValue(b), |b|) == b
  {
    if b != [] {
      LeBytesOfValue(b[1..]);
      var v := LeValue(b[1..]);
      assert (b[0] + 256 * v) % 256 == b[0];
      assert (b[0] + 256 * v) / 256 == v;
    }
  }

  /** Encoding then decoding in the same byte order gives the number back. */
  lemma RoundTrip(x: nat, n: nat, e: Endian)
    requires x < Pow256(n)
    ensures FromBytes(ToBytes(x, n, e), e) == x
  {
    LeRoundTrip(x, n);
    ReverseReverse(LeBytes(x, n));
  }

  /** Decoding then encoding in the same byte order gives the bytes back. */
  lemma BytesRoundTrip(b: seq<byte>, e: Endian)
    ensures FromBytes(b, e) < Pow256(|b|)
    ensures ToBytes(FromBytes(b, e), |b|, e) == b
  {
    match e
    case Little =>
      LeValueBound(b);
      LeBytesOfValue(b);
    case Big =>
      LeValueBound(Reverse(b));
      LeBytesOfValue(Reverse(b));
      ReverseReverse(b);
  }
}
