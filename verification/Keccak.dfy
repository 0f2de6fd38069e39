/** `keccakf` of hash/sha3.c: the in-place permutation, proved to be KECCAK-p[1600, 24]. */
module Keccak {
  import opened Words
  import opened Fips202

  const KECCAK_ROUNDS: nat := 24

  const KECCAKF_RNDC: seq<nat> := [
    0x0000000000000001, 0x0000000000008082, 0x800000000000808a, 0x8000000080008000,
    0x000000000000808b, 0x0000000080000001, 0x8000000080008081, 0x8000000000008009,
    0x000000000000008a, 0x0000000000000088, 0x0000000080008009, 0x000000008000000a,
    0x000000008000808b, 0x800000000000008b, 0x8000000000008089, 0x8000000000008003,
    0x8000000000008002, 0x8000000000000080, 0x000000000000800a, 0x800000008000000a,
    0x8000000080008081, 0x8000000000008080, 0x0000000080000001, 0x8000000080008008
  ]

  const KECCAKF_ROTC: seq<nat> := [
    1, 3, 6, 10, 15, 21, 28, 36, 45, 55, 2, 14, 27, 41, 56, 8, 25, 43, 62, 18, 39, 61, 20, 44
  ]

  const KECCAKF_PILN: seq<nat> := [
    10, 7, 11, 17, 18, 3, 5, 16, 8, 21, 24, 4, 15, 23, 19, 13, 12, 2, 20, 14, 22, 9, 6, 1
  ]

  /** The state array that 25 words hold: lane (x, y) is word 5y + x. */
  function Lanes(s: seq<uint64>): StateArray
    requires |s| == 25
  {
    [[s[0], s[5], s[10], s[15], s[20]], [s[1], s[6], s[11], s[16], s[21]], [s[2], s[7], s[12], s[17], s[22]],
     [s[3], s[8], s[13], s[18], s[23]], [s[4], s[9], s[14], s[19], s[24]]]
  }

  /** The macro SHA3_ROTL64. */
  function Rotl64(x: uint64, y: nat): uint64
    requires y < 64
  {
    Or(Shl(x, y), Shr(x, 64 - y))
  }

  lemma Rotl64IsRotated(x: uint64, y: nat, offset: nat)
    requires 0 < y < 64 && y == offset % 64
    ensures Rotl64(x, y) == Rotated(x, offset)
  {
    forall z | 0 <= z < 64 ensures Rotl64(x, y)[z] == x[(z - offset) % 64] {
      WrappedIndex(z, y, offset);
    }
  }

  lemma WrappedIndex(z: nat, y: nat, offset: nat)
    requires z < 64 && y == offset % 64
    ensures (z - offset) % 64 == if y <= z then z - y else z + 64 - y
  {
  }

  // ---- Theta ----

  method ColumnParities(s: array<uint64>, bc: array<uint64>)
    requires s.Length == 25 && bc.Length == 5 && s != bc
    modifies bc
    ensures Parities(Lanes(s[..]), bc[..])
  {
    for i := 0 to 5
      invariant forall k, z :: 0 <= k < i && 0 <= z < 64 ==> bc[k][z] == Column(Lanes(s[..]), k, z)
    {
      bc[i] := Xor(Xor(Xor(Xor(s[i], s[i + 5]), s[i + 10]), s[i + 15]), s[i + 20]);
    }
  }

  /** The word that theta adds to the lanes of sheet x. */
  lemma SheetWord(a: StateArray, lane: uint64, x: nat, west: uint64, east: uint64)
    requires x < 5
    requires forall z :: 0 <= z < 64 ==> west[z] == Column(a, (x - 1) % 5, z)
    requires forall z :: 0 <= z < 64 ==> east[z] == Column(a, (x + 1) % 5, z)
    ensures Xor(lane, Xor(west, Rotl64(east, 1))) == ThetaLane(a, lane, x)
  {
    Rotl64IsRotated(east, 1, 1);
  }

  /** c is b with a word added to the lanes of sheet x. */
  ghost predicate SheetAdded(b: StateArray, c: StateArray, x: nat, t: uint64)
    requires x < 5
  {
    (forall y :: 0 <= y < 5 ==> c[x][y] == Xor(b[x][y], t)) && forall k :: 0 <= k < 5 && k != x ==> c[k] == b[k]
  }

  method AddToSheet(s: array<uint64>, i: nat, t: uint64)
    requires s.Length == 25 && i < 5
    modifies s
    ensures SheetAdded(Lanes(old(s[..])), Lanes(s[..]), i, t)
  {
    var j := 0;
    while j < 25
      invariant 0 <= j <= 25 && j % 5 == 0
      invariant forall l :: 0 <= l < 25 ==> s[l] == if l % 5 == i && l < j then Xor(old(s[l]), t) else old(s[l])
    {
      s[j + i] := Xor(s[j + i], t);
      j := j + 5;
    }
    SheetOfWords(old(s[..]), s[..], i, t);
  }

  lemma SheetOfWords(b: seq<uint64>, c: seq<uint64>, x: nat, t: uint64)
    requires |b| == |c| == 25 && x < 5
    requires forall l :: 0 <= l < 25 ==> c[l] == if l % 5 == x then Xor(b[l], t) else b[l]
    ensures SheetAdded(Lanes(b), Lanes(c), x, t)
  {
    var b', c' := Lanes(b), Lanes(c);
    forall k, y | 0 <= k < 5 && 0 <= y < 5 ensures c'[k][y] == if k == x then Xor(b'[k][y], t) else b'[k][y] {
      WordOfSheet(b, c, x, t, k, y);
      LaneAt(b, k, y);
      LaneAt(c, k, y);
    }
    forall k | 0 <= k < 5 && k != x ensures c'[k] == b'[k] {
      assert |c'[k]| == |b'[k]| == 5;
    }
  }

  lemma WordOfSheet(b: seq<uint64>, c: seq<uint64>, x: nat, t: uint64, k: nat, y: nat)
    requires |b| == |c| == 25 && x < 5 && k < 5 && y < 5
    requires forall l :: 0 <= l < 25 ==> c[l] == if l % 5 == x then Xor(b[l], t) else b[l]
    ensures c[5 * y + k] == if k == x then Xor(b[5 * y + k], t) else b[5 * y + k]
  {
    assert (5 * y + k) % 5 == k;
  }

  lemma LaneAt(a: seq<uint64>, x: nat, y: nat)
    requires |a| == 25 && x < 5 && y < 5
    ensures Lanes(a)[x][y] == a[5 * y + x]
  {
  }

  ghost predicate Parities(a: StateArray, bc: seq<uint64>) {
    |bc| == 5 && forall k, z :: 0 <= k < 5 && 0 <= z < 64 ==> bc[k][z] == Column(a, k, z)
  }

  /** Theta has been applied to the first n sheets of a. */
  ghost predicate SheetsDone(a: StateArray, b: StateArray, n: nat) {
    forall x :: 0 <= x < 5 ==> b[x] == if x < n then ThetaSheet(a, x) else a[x]
  }

  method ThetaInPlace(s: array<uint64>, bc: array<uint64>)
    requires s.Length == 25 && bc.Length == 5 && s != bc
    modifies s, bc
    ensures Lanes(s[..]) == Theta(Lanes(old(s[..])))
  {
    ghost var a := Lanes(s[..]);
    ColumnParities(s, bc);
    ghost var c := bc[..];
    for i := 0 to 5
      invariant bc[..] == c && Parities(a, c)
      invariant SheetsDone(a, Lanes(s[..]), i)
    {
      ghost var b := Lanes(s[..]);
      var t := Xor(bc[(i + 4) % 5], Rotl64(bc[(i + 1) % 5], 1));
      AddToSheet(s, i, t);
      SheetDone(a, b, Lanes(s[..]), c, i);
    }
  }

  lemma SheetDone(a: StateArray, b: StateArray, c: StateArray, bc: seq<uint64>, x: nat)
    requires x < 5 && Parities(a, bc)
    requires SheetsDone(a, b, x)
    requires SheetAdded(b, c, x, Xor(bc[(x + 4) % 5], Rotl64(bc[(x + 1) % 5], 1)))
    ensures SheetsDone(a, c, x + 1)
  {
    assert (x - 1) % 5 == (x + 4) % 5;
    var west, east := bc[(x + 4) % 5], bc[(x + 1) % 5];
    forall y | 0 <= y < 5 ensures c[x][y] == ThetaLane(a, a[x][y], x) {
      SheetWord(a, a[x][y], x, west, east);
    }
    assert c[x] == ThetaSheet(a, x);
  }

  // ---- Rho and Pi ----

  type Coordinates = (nat, nat)

  /** The lanes that Algorithm 2 visits, iteration by iteration, and where it stands in the end. */
  const WALK: seq<Coordinates> := [
    (1, 0), (0, 2), (2, 1), (1, 2), (2, 3), (3, 3), (3, 0), (0, 1), (1, 3), (3, 1), (1, 4), (4, 4), (4, 0),
    (0, 3), (3, 4), (4, 3), (3, 2), (2, 2), (2, 0), (0, 4), (4, 2), (2, 4), (4, 1), (1, 1), (1, 0)
  ]

  /** STEP_AT[x][y] is the iteration that starts at lane (x, y). */
  const STEP_AT: seq<seq<nat>> :=
    [[24, 7, 1, 13, 19], [0, 23, 3, 8, 10], [18, 2, 17, 4, 21], [6, 9, 16, 5, 14], [12, 22, 20, 15, 11]]

  /** A walk visits each lane but (0, 0) exactly once and comes back to where it began. */
  ghost predicate IsWalk(walk: seq<Coordinates>, step: seq<seq<nat>>) {
    WalkInRange(walk, step) && WalkFollows(walk) && WalkOnce(walk, step) && WalkReachesAll(walk, step)
  }

  ghost predicate WalkInRange(walk: seq<Coordinates>, step: seq<seq<nat>>) {
    && |walk| == 25 && walk[0] == walk[24] == (1, 0)
    && (forall t :: 0 <= t < 25 ==> walk[t].0 < 5 && walk[t].1 < 5 && walk[t] != (0, 0))
    && |step| == 5 && (forall x :: 0 <= x < 5 ==> |step[x]| == 5)
  }

  ghost predicate WalkFollows(walk: seq<Coordinates>) {
    |walk| == 25 && forall t :: 0 <= t < 24 ==> Follows(walk[t], walk[t + 1])
  }

  ghost predicate WalkOnce(walk: seq<Coordinates>, step: seq<seq<nat>>) {
    WalkInRange(walk, step) && forall t :: 0 <= t < 24 ==> step[walk[t].0][walk[t].1] == t
  }

  ghost predicate WalkReachesAll(walk: seq<Coordinates>, step: seq<seq<nat>>) {
    WalkInRange(walk, step) && forall x, y :: 0 <= x < 5 && 0 <= y < 5 && (x, y) != (0, 0) ==>
      step[x][y] < 24 && walk[step[x][y]] == (x, y)
  }

  /** Algorithm 2, step 3b. */
  predicate Follows(p: Coordinates, q: Coordinates) {
    q == (p.1, (2 * p.0 + 3 * p.1) % 5)
  }

  lemma WalkStep(t: nat)
    requires t < 24
    ensures WALK[t].0 < 5 && WALK[t].1 < 5 && WALK[t] != (0, 0)
    ensures Follows(WALK[t], WALK[t + 1])
    ensures STEP_AT[WALK[t].0][WALK[t].1] == t
  {
    match t {
      case 0 => case 1 => case 2 => case 3 => case 4 => case 5 => case 6 => case 7 =>
      case 8 => case 9 => case 10 => case 11 => case 12 => case 13 => case 14 => case 15 =>
      case 16 => case 17 => case 18 => case 19 => case 20 => case 21 => case 22 => case _ =>
    }
  }

  lemma WalkReaches(x: nat, y: nat)
    requires x < 5 && y < 5 && (x, y) != (0, 0)
    ensures STEP_AT[x][y] < 24 && WALK[STEP_AT[x][y]] == (x, y)
  {
    match x { case 0 => case 1 => case 2 => case 3 => case _ => }
  }

  lemma WalkStaysInRange()
    ensures WalkInRange(WALK, STEP_AT)
  {
    forall t | 0 <= t < 25 ensures WALK[t].0 < 5 && WALK[t].1 < 5 && WALK[t] != (0, 0) {
      if t < 24 {
        WalkStep(t);
      }
    }
  }

  lemma WalkIsWalk()
    ensures IsWalk(WALK, STEP_AT)
  {
    WalkStaysInRange();
    assert WalkFollows(WALK) by {
      forall t | 0 <= t < 24 ensures Follows(WALK[t], WALK[t + 1]) {
        WalkStep(t);
      }
    }
    assert WalkOnce(WALK, STEP_AT) by {
      forall t | 0 <= t < 24 ensures STEP_AT[WALK[t].0][WALK[t].1] == t {
        WalkStep(t);
      }
    }
    assert WalkReachesAll(WALK, STEP_AT) by {
      forall x, y | 0 <= x < 5 && 0 <= y < 5 && (x, y) != (0, 0)
        ensures STEP_AT[x][y] < 24 && WALK[STEP_AT[x][y]] == (x, y)
      {
        WalkReaches(x, y);
      }
    }
  }

  /** A table of destinations: iteration t writes the word of the lane that follows. */
  ghost predicate AreDestinations(piln: seq<nat>, walk: seq<Coordinates>) {
    |piln| == 24 && |walk| == 25 && forall t :: 0 <= t < 24 ==> piln[t] == WordAt(walk[t + 1])
  }

  /** A table of rotations. */
  ghost predicate AreRotations(rotc: seq<nat>) {
    |rotc| == 24 && forall t :: 0 <= t < 24 ==> 0 < rotc[t] < 64
  }

  /** The rotations are the offsets of Algorithm 2, modulo the length of a lane. */
  ghost predicate AreOffsets(rotc: seq<nat>) {
    AreRotations(rotc) && forall t :: 0 <= t < 24 ==> rotc[t] == Offset(t) % 64
  }

  lemma PilnIsDestination(t: nat)
    requires t < 24
    ensures KECCAKF_PILN[t] == 5 * WALK[t + 1].1 + WALK[t + 1].0
  {
    match t {
      case 0 => case 1 => case 2 => case 3 => case 4 => case 5 => case 6 => case 7 =>
      case 8 => case 9 => case 10 => case 11 => case 12 => case 13 => case 14 => case 15 =>
      case 16 => case 17 => case 18 => case 19 => case 20 => case 21 => case 22 => case _ =>
    }
  }

  lemma RotcIsOffset(t: nat)
    requires t < 24
    ensures 0 < KECCAKF_ROTC[t] == Offset(t) % 64
  {
    if t < 12 {
      EarlyRotc(t);
    } else {
      LateRotc(t);
    }
  }

  lemma EarlyRotc(t: nat)
    requires t < 12
    ensures 0 < KECCAKF_ROTC[t] == Offset(t) % 64
  {
    match t {
      case 0 => case 1 => case 2 => case 3 => case 4 => case 5 => case 6 => case 7 =>
      case 8 => case 9 => case 10 => case _ =>
    }
  }

  lemma LateRotc(t: nat)
    requires 12 <= t < 24
    ensures 0 < KECCAKF_ROTC[t] == Offset(t) % 64
  {
    match t {
      case 12 => case 13 => case 14 => case 15 =>
      case 16 => case 17 => case 18 => case 19 => case 20 => case 21 => case 22 => case _ =>
    }
  }

  lemma PilnAreDestinations()
    ensures AreDestinations(KECCAKF_PILN, WALK)
  {
    forall t | 0 <= t < 24 ensures KECCAKF_PILN[t] == WordAt(WALK[t + 1]) {
      PilnIsDestination(t);
    }
  }

  lemma RotcAreOffsets()
    ensures AreOffsets(KECCAKF_ROTC)
  {
    forall t | 0 <= t < 24 ensures 0 < KECCAKF_ROTC[t] == Offset(t) % 64 {
      RotcIsOffset(t);
    }
  }

  /** The word where lane p is stored. */
  function WordAt(p: Coordinates): nat {
    5 * p.1 + p.0
  }

  /** After i iterations of the cycle walk: the first i destinations hold rotated lanes, the others
      what they held before. */
  ghost predicate Moved(a: seq<uint64>, b: seq<uint64>, piln: seq<nat>, rotc: seq<nat>, walk: seq<Coordinates>, i: nat)
    requires |a| == |b| == 25 && AreRotations(rotc) && |piln| == 24 && i <= 24
    requires |walk| == 25 && forall k :: 0 <= k < 25 ==> walk[k].0 < 5 && walk[k].1 < 5
    requires AreDestinations(piln, walk)
  {
    && b[0] == a[0]
    && (forall k :: 0 <= k < i ==> b[piln[k]] == Rotl64(a[WordAt(walk[k])], rotc[k]))
    && (forall k :: i <= k < 24 ==> b[piln[k]] == a[piln[k]])
  }

  /** The cycle walk with a single temporary: rho and pi at once, applied to all 25 lanes. */
  method RhoPiInPlace(s: array<uint64>, piln: seq<nat>, rotc: seq<nat>,
                      ghost walk: seq<Coordinates>, ghost step: seq<seq<nat>>)
    requires s.Length == 25 && IsWalk(walk, step) && AreDestinations(piln, walk) && AreOffsets(rotc)
    modifies s
    ensures Lanes(s[..]) == Pi(Rho(Lanes(old(s[..]))))
  {
    ghost var a := s[..];
    var t := s[1];
    for i := 0 to 24
      invariant t == a[WordAt(walk[i])]
      invariant Moved(a, s[..], piln, rotc, walk, i)
    {
      var j := piln[i];
      var bc0 := s[j];
      MoveOne(a, s[..], piln, rotc, walk, step, i);
      s[j] := Rotl64(t, rotc[i]);
      t := bc0;
    }
    WalkDone(a, s[..], piln, rotc, walk, step);
  }

  lemma MoveOne(a: seq<uint64>, b: seq<uint64>, piln: seq<nat>, rotc: seq<nat>, walk: seq<Coordinates>,
                step: seq<seq<nat>>, i: nat)
    requires |a| == |b| == 25 && IsWalk(walk, step) && AreDestinations(piln, walk) && AreRotations(rotc)
    requires i < 24 && Moved(a, b, piln, rotc, walk, i)
    ensures 0 < piln[i] < 25 && b[piln[i]] == a[WordAt(walk[i + 1])]
    ensures Moved(a, b[piln[i] := Rotl64(a[WordAt(walk[i])], rotc[i])], piln, rotc, walk, i + 1)
  {
    DestinationIsNew(piln, walk, step, i);
    var w := Rotl64(a[WordAt(walk[i])], rotc[i]);
    OthersKept(b, piln, i, w);
    OneMoreMoved(a, b, b[piln[i] := w], piln, rotc, walk, i);
  }

  lemma OthersKept(b: seq<uint64>, piln: seq<nat>, i: nat, w: uint64)
    requires i < |piln| && forall k :: 0 <= k < |piln| ==> 0 < piln[k] < |b|
    requires forall k :: 0 <= k < |piln| && k != i ==> piln[k] != piln[i]
    ensures var c := b[piln[i] := w];
      c[piln[i]] == w && c[0] == b[0] && forall k :: 0 <= k < |piln| && k != i ==> c[piln[k]] == b[piln[k]]
  {
  }

  lemma OneMoreMoved(a: seq<uint64>, b: seq<uint64>, c: seq<uint64>, piln: seq<nat>, rotc: seq<nat>,
                     walk: seq<Coordinates>, i: nat)
    requires |a| == |b| == |c| == 25 && AreRotations(rotc) && AreDestinations(piln, walk) && i < 24
    requires forall k :: 0 <= k < 25 ==> walk[k].0 < 5 && walk[k].1 < 5
    requires Moved(a, b, piln, rotc, walk, i) && c[0] == b[0]
    requires c[piln[i]] == Rotl64(a[WordAt(walk[i])], rotc[i])
    requires forall k :: 0 <= k < 24 && k != i ==> c[piln[k]] == b[piln[k]]
    ensures Moved(a, c, piln, rotc, walk, i + 1)
  {
  }

  lemma DestinationIsNew(piln: seq<nat>, walk: seq<Coordinates>, step: seq<seq<nat>>, i: nat)
    requires IsWalk(walk, step) && AreDestinations(piln, walk) && i < 24
    ensures 0 < piln[i] < 25 && piln[i] == WordAt(walk[i + 1])
    ensures forall k :: 0 <= k < 24 ==> 0 < piln[k] < 25
    ensures forall k :: 0 <= k < 24 && k != i ==> piln[k] != piln[i]
  {
    forall k | 0 <= k < 24 && k != i ensures piln[k] != piln[i] {
      DestinationsDiffer(piln, walk, step, i, k);
    }
    forall k | 0 <= k < 24 ensures 0 < piln[k] < 25 {
      assert piln[k] == WordAt(walk[k + 1]) && walk[k + 1] != (0, 0);
    }
  }

  lemma DestinationsDiffer(piln: seq<nat>, walk: seq<Coordinates>, step: seq<seq<nat>>, i: nat, k: nat)
    requires IsWalk(walk, step) && AreDestinations(piln, walk) && i < 24 && k < 24 && i != k
    ensures piln[i] != piln[k]
  {
    if i < 23 && k < 23 {
      LanesDiffer(walk, step, i + 1, k + 1);
    } else if i < 23 {
      LanesDiffer(walk, step, i + 1, 0);
    } else {
      LanesDiffer(walk, step, 0, k + 1);
    }
  }

  lemma LanesDiffer(walk: seq<Coordinates>, step: seq<seq<nat>>, i: nat, k: nat)
    requires IsWalk(walk, step) && i < 24 && k < 24 && i != k
    ensures walk[i] != walk[k] && WordAt(walk[i]) != WordAt(walk[k])
  {
    assert step[walk[i].0][walk[i].1] == i && step[walk[k].0][walk[k].1] == k;
  }

  /** Rho has been applied to lane (0, 0) and to the first t lanes of the walk. */
  ghost predicate RotatedUpTo(a: StateArray, r: StateArray, walk: seq<Coordinates>, t: nat)
    requires t <= 24 == |walk| - 1 && forall k :: 0 <= k < 25 ==> walk[k].0 < 5 && walk[k].1 < 5
  {
    && r[0][0] == a[0][0]
    && forall k :: 0 <= k < t ==> r[walk[k].0][walk[k].1] == Rotated(a[walk[k].0][walk[k].1], Offset(k))
  }

  /** One iteration of the walk. */
  lemma RotateOne(a: StateArray, r: StateArray, walk: seq<Coordinates>, step: seq<seq<nat>>, t: nat)
    requires t < 24 && IsWalk(walk, step) && RotatedUpTo(a, r, walk, t)
    ensures RotatedUpTo(a, RhoStep(a, r, walk[t].0, walk[t].1, t), walk, t + 1)
  {
    forall k | 0 <= k < t ensures walk[k] != walk[t] {
      LanesDiffer(walk, step, k, t);
    }
  }

  /** What rho leaves in each lane, once the walk has run from iteration t: q is the result. */
  lemma {:induction false} RhoWalkLanes(a: StateArray, r: StateArray, q: StateArray, walk: seq<Coordinates>,
      step: seq<seq<nat>>, t: nat)
    requires t <= 24 && IsWalk(walk, step) && RotatedUpTo(a, r, walk, t)
    requires q == RhoWalk(a, r, walk[t].0, walk[t].1, t)
    ensures RotatedUpTo(a, q, walk, 24)
    decreases 24 - t
  {
    if t < 24 {
      RotateOne(a, r, walk, step, t);
      assert Follows(walk[t], walk[t + 1]);
      RhoWalkLanes(a, RhoStep(a, r, walk[t].0, walk[t].1, t), q, walk, step, t + 1);
    }
  }

  lemma RhoLanes(a: StateArray, walk: seq<Coordinates>, step: seq<seq<nat>>)
    requires IsWalk(walk, step)
    ensures RotatedUpTo(a, Rho(a), walk, 24)
  {
    RhoWalkLanes(a, a, Rho(a), walk, step, 0);
  }

  lemma WalkDone(a: seq<uint64>, b: seq<uint64>, piln: seq<nat>, rotc: seq<nat>, walk: seq<Coordinates>,
      step: seq<seq<nat>>)
    requires |a| == |b| == 25 && IsWalk(walk, step) && AreDestinations(piln, walk) && AreOffsets(rotc)
    requires Moved(a, b, piln, rotc, walk, 24)
    ensures Lanes(b) == Pi(Rho(Lanes(a)))
  {
    RhoLanes(Lanes(a), walk, step);
    var r := Rho(Lanes(a));
    forall x, y | 0 <= x < 5 && 0 <= y < 5 ensures Lanes(b)[x][y] == Pi(r)[x][y] {
      LaneDone(a, b, r, piln, rotc, walk, step, x, y);
    }
    SameLanes(Lanes(b), Pi(r));
  }

  lemma LaneDone(a: seq<uint64>, b: seq<uint64>, r: StateArray, piln: seq<nat>, rotc: seq<nat>,
                 walk: seq<Coordinates>, step: seq<seq<nat>>, x: nat, y: nat)
    requires |a| == |b| == 25 && IsWalk(walk, step) && AreDestinations(piln, walk) && AreOffsets(rotc)
    requires Moved(a, b, piln, rotc, walk, 24) && RotatedUpTo(Lanes(a), r, walk, 24) && x < 5 && y < 5
    ensures Lanes(b)[x][y] == Pi(r)[x][y]
  {
    if (x, y) == (0, 0) {
      LaneAt(a, 0, 0);
      LaneAt(b, 0, 0);
    } else {
      var k := if step[x][y] == 0 then 23 else step[x][y] - 1;
      assert walk[k + 1] == (x, y);
      PiFetches(a, b, r, piln, rotc, walk, step, k);
    }
  }

  lemma SameLanes(c: StateArray, d: StateArray)
    requires forall x, y :: 0 <= x < 5 && 0 <= y < 5 ==> c[x][y] == d[x][y]
    ensures c == d
  {
    forall x | 0 <= x < 5 ensures c[x] == d[x] {
      assert |c[x]| == |d[x]| == 5;
    }
  }

  /** Pi fetches a lane from where the walk of Algorithm 2 stood before. */
  lemma PiFetches(a: seq<uint64>, b: seq<uint64>, r: StateArray, piln: seq<nat>, rotc: seq<nat>,
                  walk: seq<Coordinates>, step: seq<seq<nat>>, k: nat)
    requires |a| == |b| == 25 && IsWalk(walk, step) && AreDestinations(piln, walk) && AreOffsets(rotc)
    requires Moved(a, b, piln, rotc, walk, 24) && RotatedUpTo(Lanes(a), r, walk, 24) && k < 24
    ensures Lanes(b)[walk[k + 1].0][walk[k + 1].1] == Pi(r)[walk[k + 1].0][walk[k + 1].1]
  {
    var p, q := walk[k], walk[k + 1];
    assert Follows(p, q);
    PiOf(r, p, q);
    LaneAt(a, p.0, p.1);
    LaneAt(b, q.0, q.1);
    assert b[piln[k]] == Rotl64(a[WordAt(p)], rotc[k]);
    assert r[p.0][p.1] == Rotated(Lanes(a)[p.0][p.1], Offset(k));
    Rotl64IsRotated(a[WordAt(p)], rotc[k], Offset(k));
  }

  lemma PiOf(r: StateArray, p: Coordinates, q: Coordinates)
    requires p.0 < 5 && p.1 < 5 && Follows(p, q)
    ensures Pi(r)[q.0][q.1] == r[p.0][p.1]
  {
    TurnBack(p.0, p.1);
  }

  lemma TurnBack(x: nat, y: nat)
    requires x < 5 && y < 5
    ensures (y + 3 * ((2 * x + 3 * y) % 5)) % 5 == x
  {
  }

  // ---- Chi ----

  /** The expression of the inner loop, for one lane. */
  lemma ChiWord(here: uint64, next: uint64, afterNext: uint64)
    ensures Xor(here, And(Not(next), afterNext)) == ChiLane(here, next, afterNext)
  {
  }

  /** Plane j / 5 of b is what chi makes of plane j / 5 of a. */
  ghost predicate ChiOfPlane(a: seq<uint64>, b: seq<uint64>, j: nat)
    requires |a| == |b| == 25 && j <= 20
  {
    && b[j] == ChiLane(a[j], a[j + 1], a[j + 2])
    && b[j + 1] == ChiLane(a[j + 1], a[j + 2], a[j + 3])
    && b[j + 2] == ChiLane(a[j + 2], a[j + 3], a[j + 4])
    && b[j + 3] == ChiLane(a[j + 3], a[j + 4], a[j])
    && b[j + 4] == ChiLane(a[j + 4], a[j], a[j + 1])
  }

  function ChiAt(c: seq<uint64>, k: nat): uint64
    requires |c| == 5 && k < 5
  {
    ChiLane(c[k], c[(k + 1) % 5], c[(k + 2) % 5])
  }

  /** The first i words of the plane at j have been replaced; c is what the plane was. */
  ghost predicate ChiUpTo(a: seq<uint64>, b: seq<uint64>, c: seq<uint64>, j: nat, i: nat)
    requires |a| == |b| == 25 && |c| == 5 && j <= 20 && i <= 5
  {
    forall l :: 0 <= l < 25 ==> b[l] == if j <= l < j + i then ChiAt(c, l - j) else a[l]
  }

  lemma ChiAdvances(a: seq<uint64>, b: seq<uint64>, c: seq<uint64>, j: nat, i: nat)
    requires |a| == |b| == 25 && |c| == 5 && j <= 20 && i < 5 && c == a[j..j + 5] && ChiUpTo(a, b, c, j, i)
    ensures b[j + i] == c[i] && ChiUpTo(a, b[j + i := ChiAt(c, i)], c, j, i + 1)
  {
  }

  method ChiInPlane(s: array<uint64>, bc: array<uint64>, j: nat)
    requires s.Length == 25 && bc.Length == 5 && s != bc && j <= 20
    modifies s, bc
    ensures ChiOfPlane(old(s[..]), s[..], j)
    ensures forall l :: 0 <= l < 25 && !(j <= l < j + 5) ==> s[l] == old(s[l])
  {
    CopyPlane(s, bc, j);
    ghost var c := bc[..];
    for i := 0 to 5
      invariant bc[..] == c
      invariant ChiUpTo(old(s[..]), s[..], c, j, i)
    {
      ChiAdvances(old(s[..]), s[..], c, j, i);
      ChiInWord(s, bc, j, i);
    }
    PlaneOfWords(old(s[..]), s[..], c, j);
  }

  method ChiInWord(s: array<uint64>, bc: array<uint64>, j: nat, i: nat)
    requires s.Length == 25 && bc.Length == 5 && s != bc && j <= 20 && i < 5 && s[j + i] == bc[i]
    modifies s
    ensures s[..] == old(s[..])[j + i := ChiAt(bc[..], i)]
  {
    ChiWord(bc[i], bc[(i + 1) % 5], bc[(i + 2) % 5]);
    s[j + i] := Xor(s[j + i], And(Not(bc[(i + 1) % 5]), bc[(i + 2) % 5]));
  }

  method CopyPlane(s: array<uint64>, bc: array<uint64>, j: nat)
    requires s.Length == 25 && bc.Length == 5 && s != bc && j <= 20
    modifies bc
    ensures bc[..] == s[j..j + 5]
  {
    for i := 0 to 5
      invariant bc[..i] == s[j..j + i]
    {
      bc[i] := s[j + i];
    }
  }

  lemma PlaneOfWords(a: seq<uint64>, b: seq<uint64>, c: seq<uint64>, j: nat)
    requires |a| == |b| == 25 && |c| == 5 && j <= 20
    requires c == a[j..j + 5]
    requires ChiUpTo(a, b, c, j, 5)
    ensures ChiOfPlane(a, b, j)
  {
  }

  method ChiInPlace(s: array<uint64>, bc: array<uint64>)
    requires s.Length == 25 && bc.Length == 5 && s != bc
    modifies s, bc
    ensures Lanes(s[..]) == Chi(Lanes(old(s[..])))
  {
    ghost var a := s[..];
    var j := 0;
    while j < 25
      invariant 0 <= j <= 25 && j % 5 == 0
      invariant forall k :: 0 <= k < j && k % 5 == 0 ==> ChiOfPlane(a, s[..], k)
      invariant forall l :: j <= l < 25 ==> s[l] == a[l]
    {
      ghost var b := s[..];
      ChiInPlane(s, bc, j);
      PlaneAdvances(a, b, s[..], j);
      j := j + 5;
    }
    ChiPlanes(a, s[..]);
  }

  lemma PlaneAdvances(a: seq<uint64>, b: seq<uint64>, c: seq<uint64>, j: nat)
    requires |a| == |b| == |c| == 25 && j <= 20 && j % 5 == 0
    requires forall k :: 0 <= k < j && k % 5 == 0 ==> ChiOfPlane(a, b, k)
    requires forall l :: j <= l < 25 ==> b[l] == a[l]
    requires ChiOfPlane(b, c, j)
    requires forall l :: 0 <= l < 25 && !(j <= l < j + 5) ==> c[l] == b[l]
    ensures forall k :: 0 <= k < j + 5 && k % 5 == 0 ==> ChiOfPlane(a, c, k)
  {
    forall k | 0 <= k < j && k % 5 == 0 ensures ChiOfPlane(a, c, k) {
      assert k + 5 <= j && ChiOfPlane(a, b, k);
    }
    assert forall k :: j < k < j + 5 ==> k % 5 != 0;
  }

  lemma ChiPlanes(a: seq<uint64>, b: seq<uint64>)
    requires |a| == |b| == 25
    requires forall k :: 0 <= k < 25 && k % 5 == 0 ==> ChiOfPlane(a, b, k)
    ensures Lanes(b) == Chi(Lanes(a))
  {
    assert ChiOfPlane(a, b, 0) && ChiOfPlane(a, b, 5) && ChiOfPlane(a, b, 10);
    assert ChiOfPlane(a, b, 15) && ChiOfPlane(a, b, 20);
    var c, d := Lanes(b), Chi(Lanes(a));
    assert c[0] == d[0];
    assert c[1] == d[1];
    assert c[2] == d[2];
    assert c[3] == d[3];
    assert c[4] == d[4];
  }

  // ---- Iota ----

  /** A number whose bit 0 is b and whose bits 1 .. len - 1 are zero. */
  lemma {:induction false} SparseLowBits(n: nat, b: nat, m: nat, len: nat, z: nat)
    requires b < 2 && len > 0 && n == b + Pow2(len) * m
    ensures z == 0 ==> (BitOf(n, z) <==> b == 1)
    ensures 0 < z < len ==> !BitOf(n, z)
    ensures len <= z ==> BitOf(n, z) == BitOf(m, z - len)
    decreases len
  {
    assert n == b + 2 * (Pow2(len - 1) * m);
    assert n % 2 == b && n / 2 == Pow2(len - 1) * m;
    if z > 0 && len > 1 {
      SparseLowBits(n / 2, 0, m, len - 1, z - 1);
    }
  }

  function Weight(b: bool): nat {
    if b then 1 else 0
  }

  /** The number with the given bits at positions 0, 1, 3, 7, 15, 31 and 63, and no others. */
  function SparseNumber(c: Bits): nat
    requires |c| == 7
  {
    Weight(c[0]) + 2 * (Weight(c[1]) + 4 * (Weight(c[2]) + 16 * (Weight(c[3]) + 256 * (Weight(c[4]) +
      65536 * (Weight(c[5]) + 0x1_0000_0000 * Weight(c[6]))))))
  }

  /** The part of a sparse number from position 15 on. */
  function SparseHigh(c: Bits): nat
    requires |c| == 7
  {
    Weight(c[4]) + 65536 * (Weight(c[5]) + 0x1_0000_0000 * Weight(c[6]))
  }

  lemma SparseHighBits(c: Bits, z: nat)
    requires |c| == 7 && z < 49
    ensures BitOf(SparseHigh(c), z) == if z == 0 then c[4] else if z == 16 then c[5] else z == 48 && c[6]
  {
    PowersOfTwo();
    var n6 := Weight(c[6]);
    var n5 := Weight(c[5]) + 0x1_0000_0000 * n6;
    SparseLowBits(SparseHigh(c), Weight(c[4]), n5, 16, z);
    if z >= 16 {
      SparseLowBits(n5, Weight(c[5]), n6, 32, z - 16);
    }
  }

  lemma PowersOfTwo()
    ensures Pow2(1) == 2 && Pow2(2) == 4 && Pow2(4) == 16 && Pow2(8) == 256 && Pow2(16) == 65536
    ensures Pow2(32) == 0x1_0000_0000
  {
    assert Pow2(16) == 65536;
    assert Pow2(24) == 0x100_0000;
  }

  /** The part of a sparse number from position 3 on. */
  function SparseMiddle(c: Bits): nat
    requires |c| == 7
  {
    Weight(c[2]) + 16 * (Weight(c[3]) + 256 * SparseHigh(c))
  }

  lemma SparseMiddleBits(c: Bits, z: nat)
    requires |c| == 7 && z < 61
    ensures BitOf(SparseMiddle(c), z) ==
      if z == 0 then c[2] else if z == 4 then c[3] else z >= 12 && BitOf(SparseHigh(c), z - 12)
  {
    PowersOfTwo();
    var n4 := SparseHigh(c);
    var n3 := Weight(c[3]) + 256 * n4;
    SparseLowBits(SparseMiddle(c), Weight(c[2]), n3, 4, z);
    if z >= 4 {
      SparseLowBits(n3, Weight(c[3]), n4, 8, z - 4);
    }
  }

  lemma SparseNumberBits(c: Bits, z: nat)
    requires |c| == 7 && z < 64
    ensures BitOf(SparseNumber(c), z) ==
      if z == 0 then c[0] else if z == 1 then c[1] else z >= 3 && BitOf(SparseMiddle(c), z - 3)
  {
    PowersOfTwo();
    var n1 := Weight(c[1]) + 4 * SparseMiddle(c);
    SparseLowBits(SparseNumber(c), Weight(c[0]), n1, 1, z);
    if z >= 1 {
      SparseLowBits(n1, Weight(c[1]), SparseMiddle(c), 2, z - 1);
    }
  }

  /** The shift register at the beginning of each round. */
  function LfsrAtRound(ir: nat): (r: Bits)
    requires ir <= 24
    ensures |r| == 8
  {
    match ir {
      case 0 => [true, false, false, false, false, false, false, false]
      case 1 => [false, false, false, false, false, false, false, true]
      case 2 => [false, false, false, true, true, false, true, true]
      case 3 => [false, true, false, true, true, false, false, false]
      case 4 => [true, true, true, true, true, false, true, true]
      case 5 => [true, false, false, true, false, false, false, false]
      case 6 => [true, false, true, false, true, true, false, false]
      case 7 => [true, true, true, true, false, false, true, false]
      case 8 => [false, true, false, true, false, false, true, true]
      case 9 => [false, false, false, false, true, true, true, false]
      case 10 => [true, false, false, false, false, false, true, false]
      case 11 => [false, false, true, true, false, true, true, true]
      case 12 => [true, false, true, false, true, false, true, true]
      case 13 => [true, false, true, true, false, false, true, true]
      case 14 => [true, true, false, false, false, true, true, false]
      case 15 => [true, true, false, true, false, true, false, true]
      case 16 => [false, true, false, true, false, true, false, true]
      case 17 => [false, true, false, true, false, true, false, false]
      case 18 => [false, true, false, false, true, true, true, true]
      case 19 => [false, false, false, true, false, true, true, true]
      case 20 => [true, true, true, false, true, true, false, false]
      case 21 => [false, true, true, true, true, true, false, false]
      case 22 => [true, true, false, true, false, false, false, false]
      case 23 => [false, false, true, false, false, false, true, false]
      case _ => [false, true, true, true, false, false, false, true]
    }
  }

  /** The low bits of the register over seven steps: the bits rc that one round takes. */
  function SevenBits(r: Bits): (c: Bits)
    requires |r| == 8
    ensures |c| == 7
  {
    [r[0],
     r[7],
     r[6],
     r[5] != r[7],
     r[4] != (r[6] != r[7]),
     r[3] != (r[5] != r[6]),
     r[2] != (r[4] != r[5])]
  }

  /** The register after seven steps. */
  function SevenSteps(r: Bits): (q: Bits)
    requires |r| == 8
    ensures |q| == 8
  {
    [r[1] != (r[3] != r[4]),
     r[2] != (r[4] != r[5]),
     r[3] != (r[5] != r[6]),
     r[4] != (r[6] != r[7]),
     r[1] != (r[3] != (r[4] != (r[5] != r[7]))),
     r[1] != (r[2] != (r[3] != (r[5] != r[6]))),
     r[1] != (r[2] != (r[6] != r[7])),
     r[0] != (r[2] != (r[3] != r[7]))]
  }

  /** Three steps, and then four more. */
  lemma ThreeLfsrSteps(n: nat, r: Bits)
    requires r == Lfsr(n)
    ensures Lfsr(n + 1)[0] == r[7] && Lfsr(n + 2)[0] == r[6]
    ensures Lfsr(n + 3) == [r[5] != r[7], r[6], r[7], r[0], r[1] != (r[5] != r[7]), r[2] != (r[5] != (r[6] != r[7])),
                            r[3] != (r[5] != r[6]), r[4] != (r[6] != r[7])]
  {
    var r1, r2 := Lfsr(n + 1), Lfsr(n + 2);
    assert r1 == LfsrStep(r);
    assert r2 == LfsrStep(r1);
    assert Lfsr(n + 3) == LfsrStep(r2);
  }

  lemma SevenLfsrSteps(n: nat, r: Bits)
    requires r == Lfsr(n)
    ensures Lfsr(n + 7) == SevenSteps(r)
  {
    ThreeLfsrSteps(n, r);
    var q := Lfsr(n + 3);
    ThreeLfsrSteps(n + 3, q);
    assert Lfsr(n + 7) == LfsrStep(Lfsr(n + 6));
  }

  lemma SevenLowBits(n: nat, r: Bits)
    requires r == Lfsr(n)
    ensures [Lfsr(n)[0], Lfsr(n + 1)[0], Lfsr(n + 2)[0], Lfsr(n + 3)[0], Lfsr(n + 4)[0], Lfsr(n + 5)[0], Lfsr(n + 6)[0]]
      == SevenBits(r)
  {
    ThreeLfsrSteps(n, r);
    var q := Lfsr(n + 3);
    ThreeLfsrSteps(n + 3, q);
  }

  lemma EarlyRoundOfLfsr(ir: nat)
    requires ir < 12
    ensures SevenSteps(LfsrAtRound(ir)) == LfsrAtRound(ir + 1)
  {
    match ir {
      case 0 => case 1 => case 2 => case 3 => case 4 => case 5 => case 6 => case 7 =>
      case 8 => case 9 => case 10 => case _ =>
    }
  }

  lemma LateRoundOfLfsr(ir: nat)
    requires 12 <= ir < 24
    ensures SevenSteps(LfsrAtRound(ir)) == LfsrAtRound(ir + 1)
  {
    match ir {
      case 12 => case 13 => case 14 => case 15 =>
      case 16 => case 17 => case 18 => case 19 => case 20 => case 21 => case 22 => case _ =>
    }
  }

  lemma OneRoundOfLfsr(ir: nat)
    requires ir < 24
    ensures SevenSteps(LfsrAtRound(ir)) == LfsrAtRound(ir + 1)
  {
    if ir < 12 {
      EarlyRoundOfLfsr(ir);
    } else {
      LateRoundOfLfsr(ir);
    }
  }

  lemma EarlyRoundConstant(ir: nat)
    requires ir < 12
    ensures SparseNumber(SevenBits(LfsrAtRound(ir))) == KECCAKF_RNDC[ir]
  {
    match ir {
      case 0 => case 1 => case 2 => case 3 => case 4 => case 5 => case 6 => case 7 =>
      case 8 => case 9 => case 10 => case _ =>
    }
  }

  lemma LateRoundConstant(ir: nat)
    requires 12 <= ir < 24
    ensures SparseNumber(SevenBits(LfsrAtRound(ir))) == KECCAKF_RNDC[ir]
  {
    match ir {
      case 12 => case 13 => case 14 => case 15 =>
      case 16 => case 17 => case 18 => case 19 => case 20 => case 21 => case 22 => case _ =>
    }
  }

  lemma OneRoundConstant(ir: nat)
    requires ir < 24
    ensures SparseNumber(SevenBits(LfsrAtRound(ir))) == KECCAKF_RNDC[ir]
  {
    if ir < 12 {
      EarlyRoundConstant(ir);
    } else {
      LateRoundConstant(ir);
    }
  }

  lemma {:induction false} LfsrReaches(ir: nat)
    requires ir <= 24
    ensures Lfsr(7 * ir) == LfsrAtRound(ir)
  {
    if ir > 0 {
      LfsrReaches(ir - 1);
      SevenLfsrSteps(7 * (ir - 1), LfsrAtRound(ir - 1));
      OneRoundOfLfsr(ir - 1);
    }
  }

  /** Every entry of the table of round constants is the constant that Algorithms 5 and 6 generate. */
  lemma RndcIsRoundConstant(ir: nat)
    requires ir < 24
    ensures BitsOf(KECCAKF_RNDC[ir], 64) == RoundConstant(ir)
  {
    LfsrReaches(ir);
    var c := SevenBits(LfsrAtRound(ir));
    SevenLowBits(7 * ir, LfsrAtRound(ir));
    OneRoundConstant(ir);
    RoundConstantOf(ir, c);
  }

  lemma RcBitIsLfsr(t: nat)
    requires t < 255
    ensures RcBit(t) == Lfsr(t)[0]
  {
    assert t % 255 == t;
  }

  lemma RoundConstantOf(ir: nat, c: Bits)
    requires ir < 24
    requires c == [Lfsr(7 * ir)[0], Lfsr(7 * ir + 1)[0], Lfsr(7 * ir + 2)[0], Lfsr(7 * ir + 3)[0], Lfsr(7 * ir + 4)[0],
                   Lfsr(7 * ir + 5)[0], Lfsr(7 * ir + 6)[0]]
    ensures BitsOf(SparseNumber(c), 64) == RoundConstant(ir)
  {
    var t := 7 * ir;
    RcBitIsLfsr(t);
    RcBitIsLfsr(t + 1);
    RcBitIsLfsr(t + 2);
    RcBitIsLfsr(t + 3);
    RcBitIsLfsr(t + 4);
    RcBitIsLfsr(t + 5);
    RcBitIsLfsr(t + 6);
    SparseIsSpread(c);
  }

  lemma SparseIsSpread(c: Bits)
    requires |c| == 7
    ensures BitsOf(SparseNumber(c), 64) == SpreadBits(c)
  {
    forall z | 0 <= z < 64 ensures BitsOf(SparseNumber(c), 64)[z] == SpreadBits(c)[z] {
      SparseNumberBits(c, z);
      if z >= 3 {
        SparseMiddleBits(c, z - 3);
        if z >= 15 {
          SparseHighBits(c, z - 15);
        }
      }
    }
  }

  // ---- The permutation ----

  method KeccakF(s: array<uint64>)
    requires s.Length == 25
    modifies s
    ensures Lanes(s[..]) == Rounds(Lanes(old(s[..])), 24)
  {
    ghost var a := Lanes(s[..]);
    var bc := new uint64[5](_ => Zeros(64));
    for round := 0 to KECCAK_ROUNDS
      invariant Lanes(s[..]) == Rounds(a, round)
    {
      ThetaInPlace(s, bc);
      WalkIsWalk();
      PilnAreDestinations();
      RotcAreOffsets();
      RhoPiInPlace(s, KECCAKF_PILN, KECCAKF_ROTC, WALK, STEP_AT);
      ChiInPlace(s, bc);
      IotaInPlace(s, round);
    }
  }

  method IotaInPlace(s: array<uint64>, round: nat)
    requires s.Length == 25 && round < 24
    modifies s
    ensures Lanes(s[..]) == Iota(Lanes(old(s[..])), round)
  {
    ghost var a := s[..];
    s[0] := Xor(s[0], BitsOf(KECCAKF_RNDC[round], 64));
    RndcIsRoundConstant(round);
    IotaLanes(a, s[..], round);
  }

  lemma IotaLanes(a: seq<uint64>, b: seq<uint64>, round: nat)
    requires |a| == |b| == 25 && b == a[0 := Xor(a[0], RoundConstant(round))]
    ensures Lanes(b) == Iota(Lanes(a), round)
  {
    assert Lanes(b)[0] == Iota(Lanes(a), round)[0];
  }
}
