/** End to end: what the streaming interface computes is SHA3-d of section 6.1 of FIPS 202. */
module Sha3Correct {
  import opened Words
  import opened Fips202
  import opened Keccak
  import opened Sha3

  /** The rate, in bits. */
  function Rate(c: Context): (r: nat)
    ensures 0 < r < 1600 && r == 64 * (25 - c.capacityWords)
  {
    64 * (25 - c.capacityWords)
  }

  /** s with t added to its first bits: a block, or the beginning of one, goes into the state. */
  function XorPrefix(s: Bits, t: Bits): (r: Bits)
    requires |s| == 1600 && |t| <= 1600
    ensures |r| == 1600 && forall k :: 0 <= k < 1600 ==> r[k] == (s[k] != (k < |t| && t[k]))
  {
    Xor(s, t + Zeros(1600 - |t|))
  }

  /** The state with the buffered word counted in. */
  function Effective(c: Context): (r: Bits)
    ensures |r| == 1600
  {
    XorWord(c.s, c.wordIndex, c.saved)
  }

  /** A context has consumed whole blocks `done`, absorbed as the sponge does, and then the octets of
      `tail`, which are added to the state or waiting in the buffer. */
  ghost predicate Streams(f: StateString -> StateString, c: Context, done: Bits, tail: seq<octet>) {
    && |done| % Rate(c) == 0 && 8 * |tail| < Rate(c)
    && 8 * c.wordIndex + c.byteIndex == |tail|
    && Effective(c) == XorPrefix(Absorb(f, Zeros(1600), done, Rate(c)), BitsOfOctets(tail))
  }

  lemma {:induction false} AbsorbSnoc(f: StateString -> StateString, s: StateString, p: Bits, block: Bits, r: nat)
    requires 0 < r < 1600 && |p| % r == 0 && |block| == r
    ensures |p + block| % r == 0
    ensures Absorb(f, s, p + block, r) == f(XorPrefix(Absorb(f, s, p, r), block))
    decreases |p|
  {
    LengthPlusBlock(|p|, r);
    if |p| == 0 {
      assert p + block == block && block[..r] == block && block[r..] == [];
    } else {
      LessOneBlock(|p|, r);
      AbsorbSnoc(f, f(Xor(s, p[..r] + Zeros(1600 - r))), p[r..], block, r);
      assert (p + block)[..r] == p[..r] && (p + block)[r..] == p[r..] + block;
    }
  }

  lemma LengthPlusBlock(m: nat, r: nat)
    requires r > 0 && m % r == 0
    ensures (m + r) % r == 0
  {
    assert m + r == r * (m / r + 1);
    MultipleOf(r, m / r + 1);
  }

  lemma BitsOfOctetsSnoc(a: seq<octet>, b: octet)
    ensures BitsOfOctets(a + [b]) == BitsOfOctets(a) + BitsOf(b, 8)
  {
    BitsOfOctetsConcat(a, [b]);
    assert BitsOfOctets([b]) == BitsOf(b, 8) + BitsOfOctets([b][1..]);
  }

  /** A byte put above the buffered ones adds eight bits to the state, right after those consumed. */
  lemma OneMoreOctet(c: Context, s: Bits, t: Bits, b: octet, w: Bits)
    requires |s| == 1600 && |t| == 64 * c.wordIndex + 8 * c.byteIndex
    requires Effective(c) == XorPrefix(s, t)
    requires |w| == 64
    requires forall z :: 0 <= z < 64 ==> w[z] == (c.saved[z] != OctetAt(b, c.byteIndex)[z])
    ensures XorWord(c.s, c.wordIndex, w) == XorPrefix(s, t + BitsOf(b, 8))
  {
    var base := 64 * c.wordIndex;
    var o, u := OctetAt(b, c.byteIndex), t + BitsOf(b, 8);
    forall k | 0 <= k < 1600 ensures XorWord(c.s, c.wordIndex, w)[k] == (s[k] != (k < |u| && u[k])) {
      XorWordAt(c.s, c.wordIndex, w, k);
      XorWordAt(c.s, c.wordIndex, c.saved, k);
      assert XorPrefix(s, t)[k] == (s[k] != (k < |t| && t[k]));
      if base <= k < base + 64 {
        OctetBit(b, c.byteIndex, k - base);
      }
    }
  }

  lemma OctetBit(b: octet, i: nat, z: nat)
    requires i < 8 && z < 64
    ensures OctetAt(b, i)[z] == (8 * i <= z < 8 * i + 8 && BitsOf(b, 8)[z - 8 * i])
  {
  }

  lemma SavedOctet(c: Context, b: octet, z: nat)
    requires z < 64
    ensures Accumulate(c.saved, c.byteIndex, [b])[z] == (c.saved[z] != OctetAt(b, c.byteIndex)[z])
  {
    assert [b][..0] == [];
    assert Accumulate(c.saved, c.byteIndex, [b]) == Or(c.saved, OctetAt(b, c.byteIndex));
    OctetBit(b, c.byteIndex, z);
  }

  /** After one more octet, the word being filled holds all that has been consumed of the block. */
  lemma OctetReachesState(c: Context, s: StateString, tail: seq<octet>, b: octet)
    requires 8 * c.wordIndex + c.byteIndex == |tail|
    requires Effective(c) == XorPrefix(s, BitsOfOctets(tail)) && 8 * |tail| < Rate(c)
    ensures 8 * (|tail| + 1) <= Rate(c)
    ensures XorWord(c.s, c.wordIndex, Accumulate(c.saved, c.byteIndex, [b])) == XorPrefix(s, BitsOfOctets(tail + [b]))
  {
    var w := Accumulate(c.saved, c.byteIndex, [b]);
    forall z | 0 <= z < 64 ensures w[z] == (c.saved[z] != OctetAt(b, c.byteIndex)[z]) {
      SavedOctet(c, b, z);
    }
    OneMoreOctet(c, s, BitsOfOctets(tail), b, w);
    BitsOfOctetsSnoc(tail, b);
  }

  lemma FeedOctetStreams(f: StateString -> StateString, c: Context, done: Bits, tail: seq<octet>, b: octet)
    requires Streams(f, c, done, tail)
    ensures 8 * (|tail| + 1) < Rate(c) ==> Streams(f, FeedOctet(f, c, b), done, tail + [b])
    ensures 8 * (|tail| + 1) >= Rate(c) ==> Streams(f, FeedOctet(f, c, b), done + BitsOfOctets(tail + [b]), [])
  {
    var s, u := Absorb(f, Zeros(1600), done, Rate(c)), BitsOfOctets(tail + [b]);
    OctetReachesState(c, s, tail, b);
    if c.byteIndex == 7 {
      NothingBuffered(FeedOctet(f, c, b));
      if c.wordIndex + 1 == 25 - c.capacityWords {
        AbsorbSnoc(f, Zeros(1600), done, u, Rate(c));
        XorNothing(Absorb(f, Zeros(1600), done + u, Rate(c)));
      }
    }
  }

  lemma XorNothing(s: StateString)
    ensures XorPrefix(s, BitsOfOctets([])) == s
  {
  }

  lemma NothingBuffered(c: Context)
    requires c.saved == Zeros(64)
    ensures Effective(c) == c.s
  {
    forall k | 0 <= k < 1600 ensures Effective(c)[k] == c.s[k] {
      XorWordAt(c.s, c.wordIndex, c.saved, k);
    }
  }

  lemma SplitSnoc(m: seq<octet>, done: Bits, tail: seq<octet>, b: octet)
    requires BitsOfOctets(m) == done + BitsOfOctets(tail)
    ensures BitsOfOctets(m + [b]) == done + BitsOfOctets(tail + [b])
    ensures BitsOfOctets(m + [b]) == (done + BitsOfOctets(tail + [b])) + BitsOfOctets([])
  {
    BitsOfOctetsSnoc(m, b);
    BitsOfOctetsSnoc(tail, b);
    Regroup(done, BitsOfOctets(tail), BitsOf(b, 8));
    assert BitsOfOctets([]) == [];
  }

  /** Whatever has been fed to a fresh context, the context streams it. */
  lemma {:induction false} FeedStreams(f: StateString -> StateString, capacityWords: nat, m: seq<octet>)
    returns (done: Bits, tail: seq<octet>)
    requires capacityWords == 8 || capacityWords == 12 || capacityWords == 16
    ensures Streams(f, Feed(f, InitialContext(capacityWords), m), done, tail)
    ensures BitsOfOctets(m) == done + BitsOfOctets(tail)
  {
    var c0 := InitialContext(capacityWords);
    if m == [] {
      done, tail := [], [];
      NothingBuffered(c0);
    } else {
      var n := |m| - 1;
      done, tail := FeedStreams(f, capacityWords, m[..n]);
      var c := Feed(f, c0, m[..n]);
      FeedOctetStreams(f, c, done, tail, m[n]);
      SplitSnoc(m[..n], done, tail, m[n]);
      assert m[..n] + [m[n]] == m;
      var whole := tail + [m[n]];
      if 8 * |whole| < Rate(c) {
        tail := whole;
      } else {
        done, tail := done + BitsOfOctets(whole), [];
      }
    }
  }

  /** The last block: the end of the message, the suffix 01 and the padding 10*1. */
  function LastBlock(t: Bits, r: nat): (p: Bits)
    requires |t| + 4 <= r
    ensures |p| == r
  {
    t + [false, true, true] + Zeros(r - |t| - 4) + [true]
  }

  lemma PaddedMessage(done: Bits, t: Bits, r: nat)
    requires r > 0 && |done| % r == 0 && |t| + 4 <= r
    ensures var n := done + t + [false, true]; n + Pad101(r, |n|) == done + LastBlock(t, r)
  {
    var n := done + t + [false, true];
    PadLength(|done|, |t|, r);
    assert Pad101(r, |n|) == [true] + Zeros(r - |t| - 4) + [true];
  }

  lemma PadLength(q: nat, t: nat, r: nat)
    requires r > 0 && q % r == 0 && t + 4 <= r
    ensures (-(q + t + 2) - 2) % r == r - t - 4
  {
    var k := q / r;
    assert -(q + t + 2) - 2 == r * (-(k + 1)) + (r - t - 4);
    Remainder(r, -(k + 1), r - t - 4);
  }

  lemma Remainder(r: nat, k: int, c: int)
    requires 0 <= c < r
    ensures (r * k + c) % r == c
  {
    var x := r * k + c;
    var q := x / r;
    assert r * (k - q) == x % r - c;
    if k - q >= 1 {
      MulGrows(r, k - q);
    } else if q - k >= 1 {
      MulGrows(r, q - k);
      MulNegates(r, q - k);
    }
  }

  lemma MulNegates(r: nat, k: int)
    ensures r * (-k) == -(r * k)
  {
  }

  lemma TopBitIsTop(z: nat)
    requires z < 64
    ensures TOP_BIT[z] == (z == 63)
  {
    var c := [false, false, false, false, false, false, true];
    assert SparseNumber(c) == 0x8000000000000000;
    SparseIsSpread(c);
  }

  lemma SixIsSuffixAndPad()
    ensures BitsOf(6, 8) == [false, true, true, false, false, false, false, false]
  {
    assert BitOf(6, 0) == false && BitOf(6, 1) == BitOf(3, 0) == true && BitOf(6, 2) == BitOf(1, 0) == true;
    assert forall z :: 0 <= z < 5 ==> BitOf(0, z) == false by {
      assert !BitOf(0, 0) && !BitOf(0, 1) && !BitOf(0, 2) && !BitOf(0, 3) && !BitOf(0, 4);
    }
    assert BitOf(6, 3) == BitOf(0, 0) && BitOf(6, 4) == BitOf(0, 1) && BitOf(6, 5) == BitOf(0, 2);
    assert BitOf(6, 6) == BitOf(0, 3) && BitOf(6, 7) == BitOf(0, 4);
  }

  /** The two exclusive-ors of `sha3_Finalize` add the padded last block, also when both pad bits fall
      into the same byte. */
  lemma PaddingStep(c: Context, s: Bits, t: Bits)
    requires |s| == 1600 && |t| == 64 * c.wordIndex + 8 * c.byteIndex && |t| + 8 <= Rate(c)
    requires Effective(c) == XorPrefix(s, t)
    ensures XorWord(XorWord(c.s, c.wordIndex, Xor(c.saved, OctetAt(6, c.byteIndex))), 24 - c.capacityWords, TOP_BIT)
      == XorPrefix(s, LastBlock(t, Rate(c)))
  {
    var r, w := Rate(c), Xor(c.saved, OctetAt(6, c.byteIndex));
    OneMoreOctet(c, s, t, 6, w);
    var v := XorWord(c.s, c.wordIndex, w);
    forall k | 0 <= k < 1600 ensures XorWord(v, 24 - c.capacityWords, TOP_BIT)[k] == XorPrefix(s, LastBlock(t, r))[k] {
      PaddedBit(v, s, t, 24 - c.capacityWords, k);
    }
  }

  lemma PaddedBit(v: Bits, s: Bits, t: Bits, i: nat, k: nat)
    requires |s| == 1600 && i < 25 && |t| + 8 <= 64 * (i + 1) && k < 1600
    requires v == XorPrefix(s, t + BitsOf(6, 8))
    ensures XorWord(v, i, TOP_BIT)[k] == XorPrefix(s, LastBlock(t, 64 * (i + 1)))[k]
  {
    TopBitAdded(v, i, k);
    BlockBit(t, 64 * (i + 1), k);
  }

  /** The exclusive-or with the top bit flips the last bit of the block. */
  lemma TopBitAdded(v: Bits, i: nat, k: nat)
    requires |v| == 1600 && i < 25 && k < 1600
    ensures XorWord(v, i, TOP_BIT)[k] == (v[k] != (k == 64 * i + 63))
  {
    XorWordAt(v, i, TOP_BIT, k);
    if 64 * i <= k < 64 * i + 64 {
      TopBitIsTop(k - 64 * i);
    }
  }

  /** The last block is the octet 6 behind the message, and the last bit. */
  lemma BlockBit(t: Bits, r: nat, k: nat)
    requires |t| + 8 <= r
    ensures var p, u := LastBlock(t, r), t + BitsOf(6, 8);
      (k < |p| && p[k]) == ((k < |u| && u[k]) != (k == r - 1))
  {
    SixIsSuffixAndPad();
  }

  /** For every message, one squeeze of the finalised state gives what the sponge gives. */
  lemma DigestIsSponge(f: StateString -> StateString, capacityWords: nat, m: seq<octet>)
    requires capacityWords == 8 || capacityWords == 12 || capacityWords == 16
    ensures FinalString(f, Feed(f, InitialContext(capacityWords), m))[..32 * capacityWords]
      == Sponge(f, BitsOfOctets(m) + [false, true], 32 * capacityWords, 1600 - 2 * (32 * capacityWords))
  {
    var done, tail := FeedStreams(f, capacityWords, m);
    var c := Feed(f, InitialContext(capacityWords), m);
    var t := BitsOfOctets(tail);
    FinalBlock(f, c, done, tail);
    var n := BitsOfOctets(m) + [false, true];
    assert n == done + t + [false, true];
    PaddedMessage(done, t, Rate(c));
    OneSqueeze(f, FinalString(f, c), 32 * capacityWords, Rate(c));
  }

  lemma FinalBlock(f: StateString -> StateString, c: Context, done: Bits, tail: seq<octet>)
    requires Streams(f, c, done, tail)
    ensures |BitsOfOctets(tail)| + 4 <= Rate(c)
    ensures |done + LastBlock(BitsOfOctets(tail), Rate(c))| % Rate(c) == 0
    ensures FinalString(f, c) == Absorb(f, Zeros(1600), done + LastBlock(BitsOfOctets(tail), Rate(c)), Rate(c))
  {
    var r, t := Rate(c), BitsOfOctets(tail);
    PaddingStep(c, Absorb(f, Zeros(1600), done, r), t);
    AbsorbSnoc(f, Zeros(1600), done, LastBlock(t, r), r);
  }

  lemma OneSqueeze(f: StateString -> StateString, s: StateString, d: nat, r: nat)
    requires d <= r < 1600 && 0 < r
    ensures Squeeze(f, s, s[..r], d, r) == s[..d]
  {
    assert s[..r][..d] == s[..d];
  }

  /** Section 6.1 of FIPS 202, for every message: the first d bits that Finalize delivers are SHA3-d(m). */
  lemma DigestIsSha3(capacityWords: nat, m: seq<octet>)
    requires capacityWords == 8 || capacityWords == 12 || capacityWords == 16
    ensures FinalString(KeccakP, Feed(KeccakP, InitialContext(capacityWords), m))[..32 * capacityWords]
      == Fips202.Sha3(32 * capacityWords, BitsOfOctets(m))
  {
    DigestIsSponge(KeccakP, capacityWords, m);
  }

  function Concatenated(chunks: seq<seq<octet>>): seq<octet> {
    if chunks == [] then [] else Concatenated(chunks[..|chunks| - 1]) + chunks[|chunks| - 1]
  }

  datatype Variant = Sha256 | Sha384 | Sha512 {
    function DigestBits(): nat {
      match this
      case Sha256 => 256
      case Sha384 => 384
      case Sha512 => 512
    }

    function CapacityWords(): nat {
      match this
      case Sha256 => 8
      case Sha384 => 12
      case Sha512 => 16
    }
  }

  /** A client: one Init, any sequence of Updates, one Finalize, on any context whatever it was used for. */
  method Hash(ctx: Sha3Context, variant: Variant, chunks: seq<seq<octet>>)
    requires ctx.Allocated()
    modifies ctx, ctx.state, ctx.sb
    ensures BitsOfOctets(ctx.sb[..variant.DigestBits() / 8])
      == Fips202.Sha3(variant.DigestBits(), BitsOfOctets(Concatenated(chunks)))
  {
    InitVariant(ctx, variant);
    UpdateAll(ctx, chunks);
    ctx.Finalize();
    DeliveredDigest(KeccakP, variant.CapacityWords(), variant.DigestBits(), Concatenated(chunks), ctx.sb[..]);
  }

  method InitVariant(ctx: Sha3Context, variant: Variant)
    requires ctx.Allocated()
    modifies ctx, ctx.state, ctx.sb
    ensures ctx.Valid() && ctx.View() == InitialContext(variant.CapacityWords())
  {
    match variant {
      case Sha256 => ctx.Init256();
      case Sha384 => ctx.Init384();
      case Sha512 => ctx.Init512();
    }
  }

  lemma DeliveredDigest(f: StateString -> StateString, capacityWords: nat, d: nat, m: seq<octet>, o: seq<octet>)
    requires |o| == 200 && d == 32 * capacityWords && (capacityWords == 8 || capacityWords == 12 || capacityWords == 16)
    requires BitsOfOctets(o) == FinalString(f, Feed(f, InitialContext(capacityWords), m))
    ensures BitsOfOctets(o[..d / 8]) == Sponge(f, BitsOfOctets(m) + [false, true], d, 1600 - 2 * d)
  {
    DigestIsSponge(f, capacityWords, m);
    DigestOctets(o, d / 8);
  }

  method UpdateAll(ctx: Sha3Context, chunks: seq<seq<octet>>)
    requires ctx.Valid()
    modifies ctx, ctx.state
    ensures ctx.Valid() && ctx.View() == Feed(KeccakP, old(ctx.View()), Concatenated(chunks))
  {
    ghost var c := ctx.View();
    for i := 0 to |chunks|
      invariant ctx.Valid() && ctx.View() == Feed(KeccakP, c, Concatenated(chunks[..i]))
    {
      ctx.Update(chunks[i]);
      FeedConcat(KeccakP, c, Concatenated(chunks[..i]), chunks[i]);
      assert chunks[..i + 1][..i] == chunks[..i];
    }
    assert chunks[..|chunks|] == chunks;
  }

  lemma DigestOctets(o: seq<octet>, n: nat)
    requires n <= |o|
    ensures BitsOfOctets(o[..n]) == BitsOfOctets(o)[..8 * n]
  {
    BitsOfOctetsConcat(o[..n], o[n..]);
    assert o[..n] + o[n..] == o;
  }
}
