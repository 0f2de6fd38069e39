/** The streaming interface of hash/sha3.c: `sha3_Init*`, `sha3_Update` and `sha3_Finalize`. */
module Sha3 {
  import opened Words
  import opened Fips202
  import opened Keccak

  // ---- A context as a value ----

  /** A context: the state as a string of 1600 bits, the buffered part of a word, and the two positions. */
  datatype Ctx = Ctx(s: Bits, saved: Bits, byteIndex: nat, wordIndex: nat, capacityWords: nat)

  ghost predicate IsCtx(c: Ctx) {
    && |c.s| == 1600 && |c.saved| == 64 && c.byteIndex < 8
    && (c.capacityWords == 8 || c.capacityWords == 12 || c.capacityWords == 16)
    && c.wordIndex < 25 - c.capacityWords
    && forall z :: 8 * c.byteIndex <= z < 64 ==> !c.saved[z]
  }

  type Context = c: Ctx | IsCtx(c) witness Ctx(Zeros(1600), Zeros(64), 0, 0, 8)

  function InitialContext(capacityWords: nat): Context
    requires capacityWords == 8 || capacityWords == 12 || capacityWords == 16
  {
    Ctx(Zeros(1600), Zeros(64), 0, 0, capacityWords)
  }

  /** The string s with word i replaced by its sum with w. */
  function XorWord(s: Bits, i: nat, w: Bits): (r: Bits)
    requires |s| == 1600 && |w| == 64 && i < 25
    ensures |r| == 1600
  {
    s[..64 * i] + Xor(s[64 * i..64 * i + 64], w) + s[64 * i + 64..]
  }

  lemma XorWordAt(s: Bits, i: nat, w: Bits, k: nat)
    requires |s| == 1600 && |w| == 64 && i < 25 && k < 1600
    ensures XorWord(s, i, w)[k] == (s[k] != (64 * i <= k < 64 * i + 64 && w[k - 64 * i]))
  {
  }

  /** One full word goes into the sponge; a full block is permuted. */
  function AbsorbWord(f: StateString -> StateString, c: Context, w: Bits): (r: Context)
    requires |w| == 64 && c.byteIndex == 0 && c.saved == Zeros(64)
    ensures r.capacityWords == c.capacityWords && r.byteIndex == 0 && r.saved == Zeros(64)
  {
    var s := XorWord(c.s, c.wordIndex, w);
    if c.wordIndex + 1 == 25 - c.capacityWords then c.(s := f(s), wordIndex := 0)
    else c.(s := s, wordIndex := c.wordIndex + 1)
  }

  /** The octet b moved to byte i of a word. */
  function OctetAt(b: octet, i: nat): (w: Bits)
    requires i < 8
    ensures |w| == 64
  {
    Shl(Convert(BitsOf(b, 8), 64), 8 * i)
  }

  /** The buffered bytes `saved`, `i` of them, followed by more octets. */
  function Accumulate(saved: Bits, i: nat, buf: seq<octet>): (r: Bits)
    requires |saved| == 64 && i + |buf| <= 8
    requires forall z :: 8 * i <= z < 64 ==> !saved[z]
    ensures |r| == 64 && forall z :: 8 * (i + |buf|) <= z < 64 ==> !r[z]
  {
    if buf == [] then saved
    else
      var n := |buf| - 1;
      Or(Accumulate(saved, i, buf[..n]), OctetAt(buf[n], i + n))
  }

  /** One octet of input. */
  function FeedOctet(f: StateString -> StateString, c: Context, b: octet): (r: Context)
    ensures r.capacityWords == c.capacityWords
  {
    var saved := Accumulate(c.saved, c.byteIndex, [b]);
    if c.byteIndex < 7 then c.(saved := saved, byteIndex := c.byteIndex + 1)
    else AbsorbWord(f, c.(saved := Zeros(64), byteIndex := 0), saved)
  }

  /** Any input, one octet after the other. */
  function Feed(f: StateString -> StateString, c: Context, buf: seq<octet>): (r: Context)
    ensures r.capacityWords == c.capacityWords
  {
    if buf == [] then c else FeedOctet(f, Feed(f, c, buf[..|buf| - 1]), buf[|buf| - 1])
  }

  /** Chunk independence: two updates are one update with the concatenation. */
  lemma {:induction false} FeedConcat(f: StateString -> StateString, c: Context, a: seq<octet>, b: seq<octet>)
    ensures Feed(f, c, a + b) == Feed(f, Feed(f, c, a), b)
  {
    if b == [] {
      assert a + b == a;
    } else {
      var n := |b| - 1;
      assert (a + b)[..|a + b| - 1] == a + b[..n];
      FeedConcat(f, c, a, b[..n]);
    }
  }

  lemma {:induction false} AccumulateConcat(saved: Bits, i: nat, a: seq<octet>, b: seq<octet>)
    requires |saved| == 64 && i + |a| + |b| <= 8
    requires forall z :: 8 * i <= z < 64 ==> !saved[z]
    ensures Accumulate(saved, i, a + b) == Accumulate(Accumulate(saved, i, a), i + |a|, b)
  {
    if b == [] {
      assert a + b == a;
    } else {
      var n := |b| - 1;
      assert (a + b)[..|a + b| - 1] == a + b[..n];
      AccumulateConcat(saved, i, a, b[..n]);
    }
  }

  /** Input that stays within the buffered word only accumulates. */
  lemma {:induction false} FeedWithinWord(f: StateString -> StateString, c: Context, buf: seq<octet>)
    requires c.byteIndex + |buf| < 8
    ensures Feed(f, c, buf) == c.(saved := Accumulate(c.saved, c.byteIndex, buf), byteIndex := c.byteIndex + |buf|)
  {
    if buf != [] {
      var n := |buf| - 1;
      FeedWithinWord(f, c, buf[..n]);
      AccumulateConcat(c.saved, c.byteIndex, buf[..n], [buf[n]]);
      assert buf[..n] + [buf[n]] == buf;
    }
  }

  /** Input that completes the buffered word is absorbed as one word. */
  lemma FeedCompletesWord(f: StateString -> StateString, c: Context, buf: seq<octet>)
    requires |buf| > 0 && c.byteIndex + |buf| == 8
    ensures Feed(f, c, buf) ==
      AbsorbWord(f, c.(saved := Zeros(64), byteIndex := 0), Accumulate(c.saved, c.byteIndex, buf))
  {
    var n := |buf| - 1;
    FeedWithinWord(f, c, buf[..n]);
    AccumulateConcat(c.saved, c.byteIndex, buf[..n], [buf[n]]);
    assert buf[..n] + [buf[n]] == buf;
  }

  /** To go on from position p is to have fed all up to q. */
  lemma FeedOn(f: StateString -> StateString, c: Context, buf: seq<octet>, p: nat, q: nat)
    requires p <= q <= |buf|
    ensures Feed(f, Feed(f, c, buf[..p]), buf[p..q]) == Feed(f, c, buf[..q])
    ensures q == |buf| ==> buf[p..] == buf[p..q] && buf[..q] == buf
  {
    FeedConcat(f, c, buf[..p], buf[p..q]);
    assert buf[..p] + buf[p..q] == buf[..q];
  }

  /** One more octet is accumulated. */
  lemma AccumulateOn(saved: Bits, i: nat, buf: seq<octet>, p: nat, q: nat)
    requires |saved| == 64 && p <= q < |buf| && i + (q + 1 - p) <= 8
    requires forall z :: 8 * i <= z < 64 ==> !saved[z]
    ensures Accumulate(saved, i, buf[p..q + 1]) == Or(Accumulate(saved, i, buf[p..q]), OctetAt(buf[q], i + (q - p)))
  {
    assert buf[p..q + 1][..q - p] == buf[p..q];
  }

  // ---- Words and strings ----

  /** The words from index i on, as a string. */
  function FlatFrom(s: seq<uint64>, i: nat): (r: Bits)
    requires i <= |s|
    ensures |r| == 64 * (|s| - i)
    decreases |s| - i
  {
    if i == |s| then [] else s[i] + FlatFrom(s, i + 1)
  }

  function Flat(s: seq<uint64>): (r: Bits)
    ensures |r| == 64 * |s|
  {
    FlatFrom(s, 0)
  }

  lemma {:induction false} FlatFromSlice(s: seq<uint64>, i: nat, k: nat)
    requires i <= k < |s|
    ensures FlatFrom(s, i)[64 * (k - i)..64 * (k - i) + 64] == s[k]
    decreases k - i
  {
    if i < k {
      FlatFromSlice(s, i + 1, k);
      var t: Bits, w: Bits := FlatFrom(s, i + 1), s[i];
      assert (w + t)[64 * (k - i)..64 * (k - i) + 64] == t[64 * (k - i - 1)..64 * (k - i - 1) + 64];
    } else {
      var w: Bits := s[i];
      assert (w + FlatFrom(s, i + 1))[0..64] == w;
    }
  }

  lemma FlatAt(s: seq<uint64>, k: nat, z: nat)
    requires k < |s| && z < 64
    ensures Flat(s)[64 * k + z] == s[k][z]
  {
    FlatFromSlice(s, 0, k);
    assert Flat(s)[64 * k..64 * k + 64][z] == s[k][z];
  }

  lemma {:induction false} FlatUpdate(s: seq<uint64>, i: nat, k: nat, w: uint64)
    requires i <= |s| && k < |s|
    ensures FlatFrom(s[k := w], i) ==
      if k < i then FlatFrom(s, i)
      else FlatFrom(s, i)[..64 * (k - i)] + w + FlatFrom(s, i)[64 * (k - i) + 64..]
    decreases |s| - i
  {
    if i < |s| {
      FlatUpdate(s, i + 1, k, w);
      var t: Bits, v: Bits := FlatFrom(s, i + 1), s[i];
      if k > i {
        SpliceBehind(v, t, 64 * (k - i - 1), w);
        assert FlatFrom(s[k := w], i) == v + FlatFrom(s[k := w], i + 1);
      } else if k == i {
        SpliceFirst(v, t, w);
        assert FlatFrom(s[k := w], i) == w + t;
      }
    }
  }

  lemma SpliceFirst(v: Bits, t: Bits, w: Bits)
    requires |v| == 64
    ensures w + t == (v + t)[..0] + w + (v + t)[64..]
  {
    assert (v + t)[64..] == t && (v + t)[..0] == [];
  }

  lemma SpliceBehind(v: Bits, t: Bits, x: nat, w: Bits)
    requires |v| == 64 && x + 64 <= |t|
    ensures v + (t[..x] + w + t[x + 64..]) == (v + t)[..64 + x] + w + (v + t)[64 + x + 64..]
  {
    assert (v + t)[..64 + x] == v + t[..x];
    assert (v + t)[64 + x + 64..] == t[x + 64..];
  }

  /** Adding a word to one element of the array adds it to one word of the string. */
  lemma FlatXorWord(s: seq<uint64>, k: nat, w: uint64)
    requires |s| == 25 && k < 25
    ensures Flat(s[k := Xor(s[k], w)]) == XorWord(Flat(s), k, w)
  {
    FlatUpdate(s, 0, k, Xor(s[k], w));
    FlatFromSlice(s, 0, k);
  }

  lemma PlaneIsFlat(s: seq<uint64>, y: nat)
    requires |s| == 25 && y < 5
    ensures FlatFrom(s, 5 * y) == Plane(Lanes(s), y) + FlatFrom(s, 5 * y + 5)
  {
    var i := 5 * y;
    var t: Bits := FlatFrom(s, i + 5);
    var w0: Bits, w1: Bits, w2: Bits, w3: Bits, w4: Bits := s[i], s[i + 1], s[i + 2], s[i + 3], s[i + 4];
    assert FlatFrom(s, i + 3) == w3 + (w4 + t);
    assert FlatFrom(s, i + 1) == w1 + (w2 + FlatFrom(s, i + 3));
    LaneAt(s, 0, y);
    LaneAt(s, 1, y);
    LaneAt(s, 2, y);
    LaneAt(s, 3, y);
    LaneAt(s, 4, y);
    assert w0 + (w1 + (w2 + (w3 + (w4 + t)))) == (w0 + w1 + w2 + w3 + w4) + t;
  }

  lemma FlatIsString(s: seq<uint64>)
    requires |s| == 25
    ensures Flat(s) == ToString(Lanes(s))
  {
    var a := Lanes(s);
    PlaneIsFlat(s, 0);
    PlaneIsFlat(s, 1);
    PlaneIsFlat(s, 2);
    PlaneIsFlat(s, 3);
    PlaneIsFlat(s, 4);
    assert FlatFrom(s, 25) == [];
    assert Plane(a, 0) + (Plane(a, 1) + (Plane(a, 2) + (Plane(a, 3) + (Plane(a, 4) + [])))) == ToString(a);
  }

  lemma LanesOfString(s: seq<uint64>)
    requires |s| == 25
    ensures ToStateArray(Flat(s)) == Lanes(s)
  {
    forall x, y | 0 <= x < 5 && 0 <= y < 5 ensures ToStateArray(Flat(s))[x][y] == Lanes(s)[x][y] {
      LaneAt(s, x, y);
      FlatFromSlice(s, 0, 5 * y + x);
    }
    SameLanes(ToStateArray(Flat(s)), Lanes(s));
  }

  /** The in-place permutation, seen on strings. */
  lemma PermutedString(a: seq<uint64>, b: seq<uint64>)
    requires |a| == |b| == 25 && Lanes(b) == Rounds(Lanes(a), 24)
    ensures Flat(b) == KeccakP(Flat(a))
  {
    LanesOfString(a);
    FlatIsString(b);
  }

  // ---- The context in memory ----

  class Sha3Context {
    var saved: uint64
    const state: array<uint64>
    const sb: array<octet>
    var byteIndex: nat
    var wordIndex: nat
    var capacityWords: nat
    const bigEndian: bool

    ghost predicate Allocated() {
      state.Length == 25 && sb.Length == 200
    }

    ghost predicate Valid()
      reads this, state
    {
      Allocated() && IsCtx(Ctx(Flat(state[..]), saved, byteIndex, wordIndex, capacityWords))
    }

    ghost function View(): Context
      requires Valid()
      reads this, state
    {
      Ctx(Flat(state[..]), saved, byteIndex, wordIndex, capacityWords)
    }

    /** A context in the memory of a host of either byte order. */
    constructor (bigEndian: bool)
      ensures Allocated() && fresh(state) && fresh(sb) && this.bigEndian == bigEndian
    {
      this.bigEndian := bigEndian;
      saved := Zeros(64);
      state := new uint64[25](_ => Zeros(64));
      sb := new octet[200](_ => 0);
      byteIndex := 0;
      wordIndex := 0;
      capacityWords := 0;
    }

    /** `memset(ctx, 0, sizeof(*ctx))` */
    method Reset()
      requires Allocated()
      modifies this, state, sb
      ensures Flat(state[..]) == Zeros(1600) && saved == Zeros(64) && byteIndex == wordIndex == 0
    {
      saved := Zeros(64);
      forall i | 0 <= i < 25 {
        state[i] := Zeros(64);
      }
      forall i | 0 <= i < 200 {
        sb[i] := 0;
      }
      byteIndex := 0;
      wordIndex := 0;
      FlatOfZeros(state[..]);
    }

    method Init256()
      requires Allocated()
      modifies this, state, sb
      ensures Valid() && View() == InitialContext(8)
    {
      Reset();
      capacityWords := 2 * 256 / (8 * 8);
    }

    method Init384()
      requires Allocated()
      modifies this, state, sb
      ensures Valid() && View() == InitialContext(12)
    {
      Reset();
      capacityWords := 2 * 384 / (8 * 8);
    }

    method Init512()
      requires Allocated()
      modifies this, state, sb
      ensures Valid() && View() == InitialContext(16)
    {
      Reset();
      capacityWords := 2 * 512 / (8 * 8);
    }

    /** `s[wordIndex] ^= w`, and the permutation once a block is complete. */
    method AddWord(w: uint64)
      requires Valid() && byteIndex == 0 && saved == Zeros(64)
      modifies this`wordIndex, state
      ensures Valid() && View() == AbsorbWord(KeccakP, old(View()), w)
    {
      ghost var before := state[..];
      state[wordIndex] := Xor(state[wordIndex], w);
      FlatXorWord(before, wordIndex, w);
      wordIndex := wordIndex + 1;
      if wordIndex == 25 - capacityWords {
        Permute();
        wordIndex := 0;
      }
    }

    method Permute()
      requires Allocated()
      modifies state
      ensures Flat(state[..]) == KeccakP(old(Flat(state[..])))
    {
      ghost var before := state[..];
      KeccakF(state);
      PermutedString(before, state[..]);
    }

    /** `while (n--) saved |= (uint64_t) *buf++ << (byteIndex++ * 8)`, from position p of the input. */
    method SaveOctets(buf: seq<octet>, p: nat, n: nat, ghost c: Context)
      requires Valid() && View() == c && p + n <= |buf| && byteIndex + n <= 8
      modifies this`saved, this`byteIndex
      ensures saved == Accumulate(c.saved, c.byteIndex, buf[p..p + n]) && byteIndex == c.byteIndex + n
    {
      var left, q := n, p;
      while left > 0
        invariant 0 <= left && p <= q && q + left == p + n && byteIndex == c.byteIndex + (q - p)
        invariant saved == Accumulate(c.saved, c.byteIndex, buf[p..q])
      {
        left := left - 1;
        AccumulateOn(c.saved, c.byteIndex, buf, p, q);
        saved := Or(saved, OctetAt(buf[q], byteIndex));
        q := q + 1;
        byteIndex := byteIndex + 1;
      }
    }

    method Update(buf: seq<octet>)
      requires Valid()
      modifies this, state
      ensures Valid() && View() == Feed(KeccakP, old(View()), buf)
    {
      ghost var c := View();
      var len := |buf|;
      var oldTail := (8 - byteIndex) % 8;
      assert oldTail == if c.byteIndex == 0 then 0 else 8 - c.byteIndex;

      if len < oldTail {
        SaveOctets(buf, 0, len, c);
        assert buf[0..len] == buf;
        FeedWithinWord(KeccakP, c, buf);
        return;
      }

      if oldTail > 0 {
        len := len - oldTail;
        CompleteWord(buf, oldTail);
      }
      var words := len / 8;
      var tail := len - words * 8;
      var p := AddWords(buf, oldTail, words, c);
      SaveTail(buf, p, tail, c);
    }

    /** `if (old_tail)`: the buffered word is completed and absorbed. */
    method CompleteWord(buf: seq<octet>, oldTail: nat)
      requires Valid() && 0 < oldTail <= |buf| && byteIndex + oldTail == 8
      modifies this, state
      ensures Valid() && byteIndex == 0 && View() == Feed(KeccakP, old(View()), buf[..oldTail])
    {
      ghost var c := View();
      SaveOctets(buf, 0, oldTail, c);
      var w := saved;
      byteIndex := 0;
      saved := Zeros(64);
      AddWord(w);
      FeedCompletesWord(KeccakP, c, buf[0..oldTail]);
      assert buf[0..oldTail] == buf[..oldTail];
    }

    /** `while (tail--)`: what does not fill a word is saved. */
    method SaveTail(buf: seq<octet>, p: nat, tail: nat, ghost c: Context)
      requires Valid() && byteIndex == 0 && p + tail == |buf| && tail < 8
      requires View() == Feed(KeccakP, c, buf[..p])
      modifies this`saved, this`byteIndex
      ensures Valid() && View() == Feed(KeccakP, c, buf)
    {
      ghost var mid := View();
      SaveOctets(buf, p, tail, mid);
      assert buf[p..p + tail] == buf[p..];
      FeedWithinWord(KeccakP, mid, buf[p..]);
      FeedOn(KeccakP, c, buf, p, |buf|);
    }

    /** The loop over the full words of the input. */
    method AddWords(buf: seq<octet>, start: nat, words: nat, ghost c: Context) returns (p: nat)
      requires Valid() && byteIndex == 0 && start + 8 * words <= |buf| && View() == Feed(KeccakP, c, buf[..start])
      modifies this`wordIndex, state
      ensures Valid() && byteIndex == 0 && p == start + 8 * words && View() == Feed(KeccakP, c, buf[..p])
    {
      p := start;
      for i := 0 to words
        invariant p == start + 8 * i
        invariant Valid() && View() == Feed(KeccakP, c, buf[..p])
      {
        AddInputWord(buf, p, c);
        p := p + 8;
      }
    }

    method AddInputWord(buf: seq<octet>, p: nat, ghost c: Context)
      requires Valid() && byteIndex == 0 && p + 8 <= |buf| && View() == Feed(KeccakP, c, buf[..p])
      modifies this`wordIndex, state
      ensures Valid() && View() == Feed(KeccakP, c, buf[..p + 8])
    {
      ghost var b, mid := buf[p..p + 8], View();
      FullWord(KeccakP, mid, b);
      var t := WordOf(buf[p], buf[p + 1], buf[p + 2], buf[p + 3], buf[p + 4], buf[p + 5], buf[p + 6], buf[p + 7]);
      AddWord(t);
      FeedOn(KeccakP, c, buf, p, p + 8);
    }

    /** Pads, permutes and writes the state out, each word least significant byte first; the octets share their memory
        with the words, which are overwritten. */
    method Finalize()
      requires Valid()
      modifies this, state, sb
      ensures BitsOfOctets(sb[..]) == FinalString(KeccakP, old(View()))
      ensures HoldOctets(state[..], sb[..], bigEndian)
    {
      Pad();
      Permute();
      WriteOctets();
    }

    /** The two exclusive-ors of the padding. */
    method Pad()
      requires Valid()
      modifies state
      ensures Flat(state[..]) == PaddedString(old(View()))
    {
      ghost var before := state[..];
      var w := Xor(saved, OctetAt(0x02 + 4, byteIndex));
      state[wordIndex] := Xor(state[wordIndex], w);
      FlatXorWord(before, wordIndex, w);
      ghost var padded := state[..];
      state[25 - capacityWords - 1] := Xor(state[25 - capacityWords - 1], TOP_BIT);
      FlatXorWord(padded, 25 - capacityWords - 1, TOP_BIT);
    }

    method WriteOctets()
      requires Allocated()
      modifies state, sb
      ensures BitsOfOctets(sb[..]) == old(Flat(state[..])) && HoldOctets(state[..], sb[..], bigEndian)
    {
      ghost var s := state[..];
      for i := 0 to 25
        invariant state[i..] == s[i..] && WrittenUpTo(s, sb[..], i)
        invariant forall k :: 0 <= k < i ==> state[k] == WordIn(Cell(sb[..], k), bigEndian)
      {
        ghost var before := sb[..];
        WriteWord(i);
        OneMoreWritten(s, before, sb[..], i);
        forall k | 0 <= k < i ensures Cell(sb[..], k) == Cell(before, k) {
          OtherCell(before, sb[..], i, k);
        }
      }
      AllWritten(s, sb[..]);
    }

    method WriteWord(i: nat)
      requires Allocated() && i < 25
      modifies state, sb
      ensures WordWritten(old(sb[..]), sb[..], i, old(state[i]))
      ensures state[..] == old(state[..])[i := WordIn(Cell(sb[..], i), bigEndian)]
    {
      StoreWord(sb, i, state[i]);
      state[i] := WordIn(sb[8 * i..8 * i + 8], bigEndian);
    }
  }

  /** What `sha3_Finalize` permutes. */
  function PaddedString(c: Context): StateString {
    XorWord(XorWord(c.s, c.wordIndex, Xor(c.saved, OctetAt(6, c.byteIndex))), 24 - c.capacityWords, TOP_BIT)
  }

  /** The words are those that their octets stand for in memory. */
  ghost predicate HoldOctets(s: seq<uint64>, memory: seq<octet>, bigEndian: bool) {
    |s| == 25 && |memory| == 200 && forall k :: 0 <= k < 25 ==> s[k] == WordIn(Cell(memory, k), bigEndian)
  }

  /** The first i cells hold the octets of the first i words. */
  ghost predicate WrittenUpTo(s: seq<uint64>, memory: seq<octet>, i: nat)
    requires |s| == 25 && |memory| == 200 && i <= 25
  {
    BitsOfOctets(memory[..8 * i]) + FlatFrom(s, i) == Flat(s)
  }

  /** Cell i has been filled with the octets of w, least significant first; all other cells are as they were. */
  ghost predicate WordWritten(before: seq<octet>, after: seq<octet>, i: nat, w: uint64) {
    && |before| == |after| == 200 && i < 25 && BitsOfOctets(Cell(after, i)) == w
    && after[..8 * i] == before[..8 * i] && after[8 * i + 8..] == before[8 * i + 8..]
  }

  lemma OneMoreWritten(s: seq<uint64>, before: seq<octet>, after: seq<octet>, i: nat)
    requires |s| == 25 && i < 25 && WordWritten(before, after, i, s[i]) && WrittenUpTo(s, before, i)
    ensures WrittenUpTo(s, after, i + 1)
  {
    var done, o := after[..8 * i], Cell(after, i);
    assert after[..8 * (i + 1)] == done + o;
    BitsOfOctetsConcat(done, o);
    var w: Bits := s[i];
    Regroup(BitsOfOctets(done), w, FlatFrom(s, i + 1));
  }

  lemma AllWritten(s: seq<uint64>, memory: seq<octet>)
    requires |s| == 25 && |memory| == 200 && WrittenUpTo(s, memory, 25)
    ensures BitsOfOctets(memory) == Flat(s)
  {
    assert memory[..8 * 25] == memory;
  }

  /** The octets of a half word, least significant first. */
  function HalfInOctets(t: Bits): (o: seq<octet>)
    requires |t| == 32
    ensures |o| == 4
  {
    [ToOctet(Convert(t, 8)), ToOctet(Convert(Shr(t, 8), 8)), ToOctet(Convert(Shr(t, 16), 8)),
     ToOctet(Convert(Shr(t, 24), 8))]
  }

  /** The eight octets of a word, least significant first, taken through its two halves. */
  method StoreWord(sb: array<octet>, i: nat, w: uint64)
    requires sb.Length == 200 && i < 25
    modifies sb
    ensures WordWritten(old(sb[..]), sb[..], i, w)
  {
    var t1 := Convert(w, 32);
    var t2 := Convert(Shr(Shr(w, 16), 16), 32);
    StoreHalf(sb, i * 8, t1);
    StoreHalf(sb, i * 8 + 4, t2);
    CellFilled(old(sb[..]), sb[..], i, HalfInOctets(t1), HalfInOctets(t2));
    OctetsOfWord(w, t1, t2);
  }

  method StoreHalf(sb: array<octet>, p: nat, t: Bits)
    requires p + 4 <= sb.Length && |t| == 32
    modifies sb
    ensures sb[..] == Spliced(old(sb[..]), p, HalfInOctets(t))
  {
    ghost var o := HalfInOctets(t);
    sb[p] := ToOctet(Convert(t, 8));
    sb[p + 1] := ToOctet(Convert(Shr(t, 8), 8));
    sb[p + 2] := ToOctet(Convert(Shr(t, 16), 8));
    sb[p + 3] := ToOctet(Convert(Shr(t, 24), 8));
    assert sb[p] == o[0] && sb[p + 1] == o[1] && sb[p + 2] == o[2] && sb[p + 3] == o[3];
  }

  /** The memory with o at position p. */
  function Spliced(memory: seq<octet>, p: nat, o: seq<octet>): (r: seq<octet>)
    requires p + |o| <= |memory|
    ensures |r| == |memory|
  {
    memory[..p] + o + memory[p + |o|..]
  }

  lemma CellFilled(before: seq<octet>, after: seq<octet>, i: nat, low: seq<octet>, high: seq<octet>)
    requires |before| == 200 && i < 25 && |low| == |high| == 4
    requires after == Spliced(Spliced(before, 8 * i, low), 8 * i + 4, high)
    ensures Cell(after, i) == low + high
    ensures after[..8 * i] == before[..8 * i] && after[8 * i + 8..] == before[8 * i + 8..]
  {
    assert after == before[..8 * i] + (low + high) + before[8 * i + 8..];
  }

  function Reversed(o: seq<octet>): (r: seq<octet>)
    ensures |r| == |o|
  {
    if o == [] then [] else Reversed(o[1..]) + [o[0]]
  }

  /** The word that eight octets of memory hold, on a host of either byte order. */
  function WordIn(o: seq<octet>, bigEndian: bool): uint64
    requires |o| == 8
  {
    BitsOfOctets(if bigEndian then Reversed(o) else o)
  }

  /** The octets of word i in memory. */
  function Cell(memory: seq<octet>, i: nat): (o: seq<octet>)
    requires |memory| == 200 && i < 25
    ensures |o| == 8
  {
    memory[8 * i..8 * i + 8]
  }

  lemma OtherCell(before: seq<octet>, after: seq<octet>, i: nat, k: nat)
    requires |before| == |after| == 200 && i < 25 && k < 25 && k != i
    requires after[..8 * i] == before[..8 * i] && after[8 * i + 8..] == before[8 * i + 8..]
    ensures Cell(after, k) == Cell(before, k)
  {
    if k < i {
      assert Cell(after, k) == after[..8 * i][8 * k..8 * k + 8];
      assert Cell(before, k) == before[..8 * i][8 * k..8 * k + 8];
    } else {
      var p := 8 * k - (8 * i + 8);
      assert Cell(after, k) == after[8 * i + 8..][p..p + 8];
      assert Cell(before, k) == before[8 * i + 8..][p..p + 8];
    }
  }

  /** One step of the conversion below: the word is read before its octets are written. */
  method ConvertWord(memory: array<octet>, i: nat, bigEndian: bool)
    requires memory.Length == 200 && i < 25
    modifies memory
    ensures BitsOfOctets(Cell(memory[..], i)) == WordIn(Cell(old(memory[..]), i), bigEndian)
    ensures forall k :: 0 <= k < 25 && k != i ==> Cell(memory[..], k) == Cell(old(memory[..]), k)
  {
    ghost var before := memory[..];
    var w := WordIn(memory[8 * i..8 * i + 8], bigEndian);
    StoreWord(memory, i, w);
    forall k | 0 <= k < 25 && k != i ensures Cell(memory[..], k) == Cell(before, k) {
      OtherCell(before, memory[..], i, k);
    }
  }

  ghost predicate Converted(before: seq<octet>, after: seq<octet>, i: nat, bigEndian: bool)
    requires |before| == |after| == 200 && i < 25
  {
    BitsOfOctets(Cell(after, i)) == WordIn(Cell(before, i), bigEndian)
  }

  /** The conversion in the memory that the lanes and the octets share: every lane is read before its octets are
      written, so that on hosts of either byte order the octets of all lanes come out. */
  method ConvertInPlace(memory: array<octet>, bigEndian: bool)
    requires memory.Length == 200
    modifies memory
    ensures forall i :: 0 <= i < 25 ==> Converted(old(memory[..]), memory[..], i, bigEndian)
  {
    for i := 0 to 25
      invariant forall k :: i <= k < 25 ==> Cell(memory[..], k) == Cell(old(memory[..]), k)
      invariant forall k :: 0 <= k < i ==> Converted(old(memory[..]), memory[..], k, bigEndian)
    {
      ghost var before := memory[..];
      ConvertWord(memory, i, bigEndian);
      forall k | 0 <= k < i + 1 ensures Converted(old(memory[..]), memory[..], k, bigEndian) {
        if k < i {
          assert Converted(old(memory[..]), before, k, bigEndian) && Cell(memory[..], k) == Cell(before, k);
        } else {
          assert Cell(before, i) == Cell(old(memory[..]), i);
        }
      }
    }
  }

  /** The constant 0x8000000000000000. */
  const TOP_BIT: uint64 := BitsOf(0x8000000000000000, 64)

  /** What `sha3_Finalize` leaves in a context, as a string. */
  function FinalString(f: StateString -> StateString, c: Context): StateString {
    f(PaddedString(c))
  }

  lemma OctetsOfWord(w: uint64, t1: Bits, t2: Bits)
    requires t1 == Convert(w, 32) && t2 == Convert(Shr(Shr(w, 16), 16), 32)
    ensures BitsOfOctets(HalfInOctets(t1) + HalfInOctets(t2)) == w
  {
    assert t1 == w[..32];
    assert t2 == w[32..];
    BitsOfOctetsConcat(HalfInOctets(t1), HalfInOctets(t2));
    HalfOctets(t1);
    HalfOctets(t2);
  }

  lemma HalfOctets(t: Bits)
    requires |t| == 32
    ensures BitsOfOctets(HalfInOctets(t)) == t
  {
    BitsOfValueOf(Convert(t, 8));
    BitsOfValueOf(Convert(Shr(t, 8), 8));
    BitsOfValueOf(Convert(Shr(t, 16), 8));
    BitsOfValueOf(Convert(Shr(t, 24), 8));
    OctetByOctet(HalfInOctets(t));
    InFour(t);
  }

  lemma InFour(t: Bits)
    requires |t| == 32
    ensures Convert(t, 8) + (Convert(Shr(t, 8), 8) + (Convert(Shr(t, 16), 8) + Convert(Shr(t, 24), 8))) == t
  {
    assert Convert(t, 8) == t[..8] && Convert(Shr(t, 8), 8) == t[8..16];
    assert Convert(Shr(t, 16), 8) == t[16..24] && Convert(Shr(t, 24), 8) == t[24..];
  }

  lemma OctetByOctet(o: seq<octet>)
    requires |o| == 4
    ensures BitsOfOctets(o) == BitsOf(o[0], 8) + (BitsOf(o[1], 8) + (BitsOf(o[2], 8) + BitsOf(o[3], 8)))
  {
    assert o[1..][1..] == o[2..] && o[2..][1..] == o[3..] && o[3..][1..] == o[4..] && o[4..] == [];
    assert BitsOfOctets(o[3..]) == BitsOf(o[3], 8) + BitsOfOctets(o[4..]);
    assert BitsOfOctets(o[2..]) == BitsOf(o[2], 8) + BitsOfOctets(o[3..]);
    assert BitsOfOctets(o[1..]) == BitsOf(o[1], 8) + BitsOfOctets(o[2..]);
  }

  lemma {:induction false} FlatOfZeros(s: seq<uint64>)
    requires |s| == 25 && forall i :: 0 <= i < 25 ==> s[i] == Zeros(64)
    ensures Flat(s) == Zeros(1600)
  {
    forall k | 0 <= k < 1600 ensures !Flat(s)[k] {
      FlatAt(s, k / 64, k % 64);
    }
  }

  lemma Regroup(a: Bits, b: Bits, c: Bits)
    ensures a + (b + c) == (a + b) + c
  {
  }

  /** Four octets moved to bytes 0 to 3 of a word. */
  function LowWord(b0: octet, b1: octet, b2: octet, b3: octet): (w: Bits)
    ensures |w| == 64
  {
    Or(Or(Or(OctetAt(b0, 0), OctetAt(b1, 1)), OctetAt(b2, 2)), OctetAt(b3, 3))
  }

  /** A word with four more octets at bytes i to i + 3. */
  function WithFour(w: Bits, i: nat, b0: octet, b1: octet, b2: octet, b3: octet): (r: Bits)
    requires |w| == 64 && i + 4 <= 8
    ensures |r| == 64
  {
    Or(Or(Or(Or(w, OctetAt(b0, i)), OctetAt(b1, i + 1)), OctetAt(b2, i + 2)), OctetAt(b3, i + 3))
  }

  /** A full word taken straight from the input. */
  function WordOf(b0: octet, b1: octet, b2: octet, b3: octet, b4: octet, b5: octet, b6: octet, b7: octet): uint64 {
    WithFour(LowWord(b0, b1, b2, b3), 4, b4, b5, b6, b7)
  }

  lemma FullWord(f: StateString -> StateString, c: Context, b: seq<octet>)
    requires c.byteIndex == 0 && |b| == 8
    ensures c.saved == Zeros(64)
    ensures AbsorbWord(f, c, WordOf(b[0], b[1], b[2], b[3], b[4], b[5], b[6], b[7])) == Feed(f, c, b)
  {
    assert c.saved == Zeros(64);
    FeedCompletesWord(f, c, b);
    EightOctets(b);
    assert c.(saved := Zeros(64), byteIndex := 0) == c;
  }

  lemma OrZeros(w: Bits)
    requires |w| == 64
    ensures Or(Zeros(64), w) == w
  {
  }

  lemma LowOctets(b: seq<octet>)
    requires |b| == 4
    ensures Accumulate(Zeros(64), 0, b) == LowWord(b[0], b[1], b[2], b[3])
  {
    FourOctets(Zeros(64), 0, b);
    OrZeros(OctetAt(b[0], 0));
  }

  lemma EightOctets(b: seq<octet>)
    requires |b| == 8
    ensures Accumulate(Zeros(64), 0, b) == WordOf(b[0], b[1], b[2], b[3], b[4], b[5], b[6], b[7])
  {
    HighOctets(b[..4], b[4..], b);
  }

  lemma HighOctets(low: seq<octet>, high: seq<octet>, b: seq<octet>)
    requires |low| == |high| == 4 && b == low + high
    ensures Accumulate(Zeros(64), 0, b) ==
      WithFour(LowWord(low[0], low[1], low[2], low[3]), 4, high[0], high[1], high[2], high[3])
  {
    LowOctets(low);
    FourOctets(Accumulate(Zeros(64), 0, low), 4, high);
    AccumulateConcat(Zeros(64), 0, low, high);
  }

  lemma OneOctetMore(saved: Bits, i: nat, b: seq<octet>, n: nat)
    requires |saved| == 64 && n < |b| && i + |b| <= 8
    requires forall z :: 8 * i <= z < 64 ==> !saved[z]
    ensures Accumulate(saved, i, b[..n + 1]) == Or(Accumulate(saved, i, b[..n]), OctetAt(b[n], i + n))
  {
    assert b[..n + 1][..n] == b[..n];
  }

  lemma OrChain(a: seq<Bits>, o: seq<Bits>)
    requires |a| == 5 && |o| == 4 && |a[0]| == |o[0]| == |o[1]| == |o[2]| == |o[3]| == 64
    requires forall k :: 0 <= k < 4 ==> |a[k]| == 64 && a[k + 1] == Or(a[k], o[k])
    ensures a[4] == Or(Or(Or(Or(a[0], o[0]), o[1]), o[2]), o[3])
  {
    assert a[1] == Or(a[0], o[0]) && a[2] == Or(a[1], o[1]);
    assert a[3] == Or(a[2], o[2]) && a[4] == Or(a[3], o[3]);
  }

  lemma FourOctets(saved: Bits, i: nat, b: seq<octet>)
    requires |saved| == 64 && i + 4 <= 8 && |b| == 4
    requires forall z :: 8 * i <= z < 64 ==> !saved[z]
    ensures Accumulate(saved, i, b) == WithFour(saved, i, b[0], b[1], b[2], b[3])
  {
    var a := seq(5, (n: nat) requires n < 5 => Accumulate(saved, i, b[..n]));
    var o := seq(4, (n: nat) requires n < 4 => OctetAt(b[n], i + n));
    forall k | 0 <= k < 4 ensures |a[k]| == 64 && a[k + 1] == Or(a[k], o[k]) {
      OneOctetMore(saved, i, b, k);
    }
    OrChain(a, o);
    assert b[..4] == b && a[0] == saved;
  }
}
