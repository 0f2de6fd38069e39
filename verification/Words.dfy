/**
 Fixed-width unsigned integers, as C computes with them. A value of type `uint64_t` is its
 64 bits, least significant first, so that shifts, masks and exclusive-ors are stated bit by
 bit; an octet is its numeric value, as a caller passes it in a buffer.
 */
module Words {

  type Bits = seq<bool>

  function Zeros(n: nat): (r: Bits)
    ensures |r| == n && forall z :: 0 <= z < n ==> !r[z]
  {
    seq(n, _ => false)
  }

  type uint64 = w: Bits | |w| == 64 witness seq(64, _ => false)

  type octet = x: int | 0 <= x < 256

  function Xor(a: Bits, b: Bits): (r: Bits)
    requires |a| == |b|
    ensures |r| == |a| && forall z :: 0 <= z < |a| ==> r[z] == (a[z] != b[z])
  {
    seq(|a|, z requires 0 <= z < |a| => a[z] != b[z])
  }

  function And(a: Bits, b: Bits): (r: Bits)
    requires |a| == |b|
    ensures |r| == |a| && forall z :: 0 <= z < |a| ==> r[z] == (a[z] && b[z])
  {
    seq(|a|, z requires 0 <= z < |a| => a[z] && b[z])
  }

  function Or(a: Bits, b: Bits): (r: Bits)
    requires |a| == |b|
    ensures |r| == |a| && forall z :: 0 <= z < |a| ==> r[z] == (a[z] || b[z])
  {
    seq(|a|, z requires 0 <= z < |a| => a[z] || b[z])
  }

  function Not(a: Bits): (r: Bits)
    ensures |r| == |a| && forall z :: 0 <= z < |a| ==> r[z] == !a[z]
  {
    seq(|a|, z requires 0 <= z < |a| => !a[z])
  }

  /** `a << k`: the k low bits become zero, the k high bits are lost. */
  function Shl(a: Bits, k: nat): (r: Bits)
    ensures |r| == |a| && forall z :: 0 <= z < |a| ==> r[z] == (k <= z && a[z - k])
  {
    seq(|a|, z requires 0 <= z < |a| => k <= z && a[z - k])
  }

  /** `a >> k`: the k low bits are lost, the k high bits become zero. */
  function Shr(a: Bits, k: nat): (r: Bits)
    ensures |r| == |a| && forall z :: 0 <= z < |a| ==> r[z] == (z + k < |a| && a[z + k])
  {
    seq(|a|, z requires 0 <= z < |a| => z + k < |a| && a[z + k])
  }

  /** An unsigned conversion to a type of `width` bits: truncation or extension with zeros. */
  function Convert(a: Bits, width: nat): (r: Bits)
    ensures |r| == width && forall z :: 0 <= z < width ==> r[z] == (z < |a| && a[z])
  {
    seq(width, z requires 0 <= z < width => z < |a| && a[z])
  }

  predicate BitOf(n: nat, z: nat)
    decreases z
  {
    if z == 0 then n % 2 == 1 else BitOf(n / 2, z - 1)
  }

  /** The bits of the number n, in a type of `width` bits. */
  function BitsOf(n: nat, width: nat): (r: Bits)
    ensures |r| == width && forall z :: 0 <= z < width ==> r[z] == BitOf(n, z)
  {
    seq(width, z requires 0 <= z < width => BitOf(n, z))
  }

  function ValueOf(b: Bits): (n: nat)
  {
    if b == [] then 0 else (if b[0] then 1 else 0) + 2 * ValueOf(b[1..])
  }

  function Pow2(k: nat): (p: nat)
    ensures p > 0
  {
    if k == 0 then 1 else 2 * Pow2(k - 1)
  }

  lemma {:induction false} ValueOfBound(b: Bits)
    ensures ValueOf(b) < Pow2(|b|)
  {
    if b != [] {
      ValueOfBound(b[1..]);
    }
  }

  lemma ValueOfSplit(b: Bits)
    requires b != []
    ensures ValueOf(b) % 2 == (if b[0] then 1 else 0) && ValueOf(b) / 2 == ValueOf(b[1..])
  {
    HalfOf(ValueOf(b), if b[0] then 1 else 0, ValueOf(b[1..]));
  }

  lemma HalfOf(n: nat, low: nat, high: nat)
    requires low < 2 && n == low + 2 * high
    ensures n % 2 == low && n / 2 == high
  {
  }

  lemma {:induction false} BitOfValueOf(b: Bits, z: nat)
    requires z < |b|
    ensures BitOf(ValueOf(b), z) == b[z]
  {
    ValueOfSplit(b);
    if z > 0 {
      BitOfValueOf(b[1..], z - 1);
      assert BitOf(ValueOf(b), z) == BitOf(ValueOf(b[1..]), z - 1);
    }
  }

  /** A number is determined by its bits: bits to number to bits is the identity. */
  lemma BitsOfValueOf(b: Bits)
    ensures BitsOf(ValueOf(b), |b|) == b
  {
    forall z | 0 <= z < |b| ensures BitsOf(ValueOf(b), |b|)[z] == b[z] {
      BitOfValueOf(b, z);
    }
  }

  /** The octet that eight bits stand for. */
  function ToOctet(b: Bits): octet
    requires |b| == 8
  {
    ValueOfBound(b);
    assert Pow2(8) == 256;
    ValueOf(b)
  }

  /** The bits of a buffer: octet by octet, each least significant bit first
      (function h2b of FIPS 202, section B.1). */
  function BitsOfOctets(buf: seq<octet>): (r: Bits)
    ensures |r| == 8 * |buf|
  {
    if buf == [] then [] else BitsOf(buf[0], 8) + BitsOfOctets(buf[1..])
  }

  lemma {:induction false} BitsOfOctetsConcat(a: seq<octet>, b: seq<octet>)
    ensures BitsOfOctets(a + b) == BitsOfOctets(a) + BitsOfOctets(b)
  {
    if a == [] {
      assert a + b == b;
    } else {
      assert (a + b)[1..] == a[1..] + b;
      BitsOfOctetsConcat(a[1..], b);
    }
  }
}
