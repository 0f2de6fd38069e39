/**
 KECCAK-p[1600, 24], the sponge construction and the SHA3-d functions, transcribed from
 FIPS 202 at the level of single bits. This is the reference that the implementation in
 hash/sha3.c is proved to meet; nothing here follows the implementation.
 */
module Fips202 {
  import opened Words

  /** A state array (section 3.1.1): bit A[x, y, z] is `a[x][y][z]`. */
  ghost predicate IsState(a: seq<seq<Bits>>) {
    |a| == 5 && (forall x :: 0 <= x < 5 ==> |a[x]| == 5) &&
    forall x, y :: 0 <= x < 5 && 0 <= y < 5 ==> |a[x][y]| == 64
  }

  type StateArray = a: seq<seq<Bits>> | IsState(a) witness seq(5, _ => seq(5, _ => Zeros(64)))

  // ---- Section 3.2: step mappings ----

  /** Parity of the column (x, z): step 1 of Algorithm 1. */
  function Column(a: StateArray, x: nat, z: nat): bool
    requires x < 5 && z < 64
  {
    a[x][0][z] != (a[x][1][z] != (a[x][2][z] != (a[x][3][z] != a[x][4][z])))
  }

  /** Steps 2 and 3 of Algorithm 1, for one lane of sheet x. */
  function ThetaLane(a: StateArray, lane: Bits, x: nat): (r: Bits)
    requires |lane| == 64 && x < 5
    ensures |r| == 64
  {
    seq(64, z requires 0 <= z < 64 =>
      lane[z] != (Column(a, (x - 1) % 5, z) != Column(a, (x + 1) % 5, (z - 1) % 64)))
  }

  /** Algorithm 1, for sheet x. */
  function ThetaSheet(a: StateArray, x: nat): (r: seq<Bits>)
    requires x < 5
    ensures |r| == 5 && forall y :: 0 <= y < 5 ==> |r[y]| == 64
  {
    seq(5, y requires 0 <= y < 5 => ThetaLane(a, a[x][y], x))
  }

  /** Algorithm 1. */
  function Theta(a: StateArray): StateArray {
    seq(5, x requires 0 <= x < 5 => ThetaSheet(a, x))
  }

  /** A lane moved by an offset along the z axis: bit z of the result is bit (z - offset) mod 64. */
  function Rotated(lane: Bits, offset: nat): (r: Bits)
    requires |lane| == 64
    ensures |r| == 64 && forall z :: 0 <= z < 64 ==> r[z] == lane[(z - offset) % 64]
  {
    seq(64, z requires 0 <= z < 64 => lane[(z - offset) % 64])
  }

  /** The offset of Algorithm 2 at iteration t. */
  function Offset(t: nat): nat {
    (t + 1) * (t + 2) / 2
  }

  /** Algorithm 2, step 3a: iteration t rotates lane (x, y). */
  function RhoStep(a: StateArray, r: StateArray, x: nat, y: nat, t: nat): StateArray
    requires x < 5 && y < 5
  {
    r[x := r[x][y := Rotated(a[x][y], Offset(t))]]
  }

  /** Steps 3 and 4 of Algorithm 2, from iteration t with the walk at (x, y). */
  function RhoWalk(a: StateArray, r: StateArray, x: nat, y: nat, t: nat): StateArray
    requires x < 5 && y < 5 && t <= 24
    decreases 24 - t
  {
    if t == 24 then r
    else
      RhoWalk(a, RhoStep(a, r, x, y, t), y, (2 * x + 3 * y) % 5, t + 1)
  }

  /** Algorithm 2. */
  function Rho(a: StateArray): StateArray {
    RhoWalk(a, a, 1, 0, 0)
  }

  /** Algorithm 3. */
  function Pi(a: StateArray): StateArray {
    seq(5, x requires 0 <= x < 5 => seq(5, y requires 0 <= y < 5 => a[(x + 3 * y) % 5][x]))
  }

  /** Algorithm 4, for one lane, the next lane of its plane and the one after. */
  function ChiLane(here: Bits, next: Bits, afterNext: Bits): (r: Bits)
    requires |here| == |next| == |afterNext| == 64
    ensures |r| == 64
  {
    seq(64, z requires 0 <= z < 64 => here[z] != ((next[z] != true) && afterNext[z]))
  }

  /** Algorithm 4, for the three sheets it combines. */
  function ChiSheet(here: seq<Bits>, next: seq<Bits>, afterNext: seq<Bits>): (r: seq<Bits>)
    requires |here| == |next| == |afterNext| == 5
    requires forall y :: 0 <= y < 5 ==> |here[y]| == |next[y]| == |afterNext[y]| == 64
    ensures |r| == 5 && forall y :: 0 <= y < 5 ==> |r[y]| == 64
  {
    seq(5, y requires 0 <= y < 5 => ChiLane(here[y], next[y], afterNext[y]))
  }

  /** Algorithm 4: sheet x is combined with sheets (x + 1) mod 5 and (x + 2) mod 5. */
  function Chi(a: StateArray): StateArray {
    [ChiSheet(a[0], a[1], a[2]), ChiSheet(a[1], a[2], a[3]), ChiSheet(a[2], a[3], a[4]),
     ChiSheet(a[3], a[4], a[0]), ChiSheet(a[4], a[0], a[1])]
  }

  /** Algorithm 5, steps 3a to 3f: one step of the linear feedback shift register. */
  function LfsrStep(r: Bits): (r': Bits)
    requires |r| == 8
    ensures |r'| == 8
  {
    var q := [false] + r;
    [q[0] != q[8], q[1], q[2], q[3], q[4] != q[8], q[5] != q[8], q[6] != q[8], q[7]]
  }

  /** The register after n steps from 10000000. */
  function Lfsr(n: nat): (r: Bits)
    ensures |r| == 8
  {
    if n == 0 then [true, false, false, false, false, false, false, false] else LfsrStep(Lfsr(n - 1))
  }

  /** Algorithm 5: bit rc(t). */
  function RcBit(t: nat): bool {
    if t % 255 == 0 then true else Lfsr(t % 255)[0]
  }

  /** Algorithm 6, step 3: bit 2^j - 1 of a lane is c[j], for j = 0..6; the others are 0. */
  function SpreadBits(c: Bits): (r: Bits)
    requires |c| == 7
    ensures |r| == 64
  {
    Zeros(64)[0 := c[0]][1 := c[1]][3 := c[2]][7 := c[3]][15 := c[4]][31 := c[5]][63 := c[6]]
  }

  /** Steps 2 and 3 of Algorithm 6: the round constant RC. */
  function RoundConstant(ir: nat): (r: Bits)
    ensures |r| == 64
  {
    SpreadBits([RcBit(7 * ir), RcBit(1 + 7 * ir), RcBit(2 + 7 * ir), RcBit(3 + 7 * ir), RcBit(4 + 7 * ir),
                RcBit(5 + 7 * ir), RcBit(6 + 7 * ir)])
  }

  /** Algorithm 6. */
  function Iota(a: StateArray, ir: nat): StateArray {
    a[0 := a[0][0 := Xor(a[0][0], RoundConstant(ir))]]
  }

  /** Section 3.3: the round function. */
  function Rnd(a: StateArray, ir: nat): StateArray {
    Iota(Chi(Pi(Rho(Theta(a)))), ir)
  }

  /** Algorithm 7: the first n rounds of KECCAK-p[1600, 24]. */
  function Rounds(a: StateArray, n: nat): StateArray {
    if n == 0 then a else Rnd(Rounds(a, n - 1), n - 1)
  }

  /** Section 3.1.2: from a string to a state array. */
  function ToStateArray(s: Bits): StateArray
    requires |s| == 1600
  {
    seq(5, x requires 0 <= x < 5 => seq(5, y requires 0 <= y < 5 =>
      s[64 * (5 * y + x)..64 * (5 * y + x) + 64]))
  }

  /** Section 3.1.3: from a state array to a string. */
  function ToString(a: StateArray): (s: Bits)
    ensures |s| == 1600
  {
    Plane(a, 0) + Plane(a, 1) + Plane(a, 2) + Plane(a, 3) + Plane(a, 4)
  }

  function Plane(a: StateArray, y: nat): (s: Bits)
    requires y < 5
    ensures |s| == 320
  {
    a[0][y] + a[1][y] + a[2][y] + a[3][y] + a[4][y]
  }

  type StateString = s: Bits | |s| == 1600 witness Zeros(1600)

  /** KECCAK-p[1600, 24], that is KECCAK-f[1600]. */
  function KeccakP(s: StateString): StateString {
    ToString(Rounds(ToStateArray(s), 24))
  }

  // ---- Section 4 and 5.1: the sponge and its padding ----

  /** Algorithm 9. */
  function Pad101(x: nat, m: int): (p: Bits)
    requires x > 0 && m >= 0
    ensures |p| >= 2 && (m + |p|) % x == 0
  {
    PadFills(x, m);
    [true] + Zeros((-m - 2) % x) + [true]
  }

  lemma PadFills(x: nat, m: int)
    requires x > 0
    ensures (m + 2 + (-m - 2) % x) % x == 0
  {
    MultipleOf(x, -((-m - 2) / x));
  }

  lemma MultipleOf(x: nat, k: int)
    requires x > 0
    ensures (x * k) % x == 0
  {
    var q, r := (x * k) / x, (x * k) % x;
    assert x * (k - q) == r;
    if r != 0 {
      if k - q >= 1 {
        MulGrows(x, k - q);
      } else {
        MulGrows(x, q - k + 1);
      }
      assert false;
    }
  }

  lemma MulGrows(x: nat, k: int)
    requires k >= 1
    ensures x * k >= x
  {
  }

  /** Algorithm 8, step 6: the blocks of p are absorbed into s one after the other. */
  function Absorb(f: StateString -> StateString, s: StateString, p: Bits, r: nat): StateString
    requires 0 < r < 1600 && |p| % r == 0
    decreases |p|
  {
    if |p| == 0 then s
    else
      LessOneBlock(|p|, r);
      Absorb(f, f(Xor(s, p[..r] + Zeros(1600 - r))), p[r..], r)
  }

  lemma LessOneBlock(m: nat, r: nat)
    requires m > 0 && r > 0 && m % r == 0
    ensures m >= r && (m - r) % r == 0
  {
    assert m - r == r * (m / r - 1);
    MultipleOf(r, m / r - 1);
  }

  /** Algorithm 8, steps 7 to 10. */
  function Squeeze(f: StateString -> StateString, s: StateString, z: Bits, d: nat, r: nat): (o: Bits)
    requires 0 < r < 1600
    ensures |o| == d
    decreases if d <= |z| then 0 else d - |z|
  {
    if d <= |z| then z[..d] else Squeeze(f, f(s), z + f(s)[..r], d, r)
  }

  /** Algorithm 8: SPONGE[f, pad10*1, r](n, d). */
  function Sponge(f: StateString -> StateString, n: Bits, d: nat, r: nat): (o: Bits)
    requires 0 < r < 1600
    ensures |o| == d
  {
    var s := Absorb(f, Zeros(1600), n + Pad101(r, |n|), r);
    Squeeze(f, s, s[..r], d, r)
  }

  /** Section 6.1: SHA3-d(m) = KECCAK[2d](m || 01, d), with KECCAK of section 5.2. */
  function Sha3(d: nat, m: Bits): (o: Bits)
    requires 0 < 2 * d < 1600
    ensures |o| == d
  {
    Sponge(KeccakP, m + [false, true], d, 1600 - 2 * d)
  }
}
