/**
 resolveLocalSymlinks of system/storagespeed.cpp. The file system's `readLinkTarget` is a fixed function, and so is
 the library's lexical normalisation; nothing is assumed of either.
 */
module Symlinks {
  import opened Basics
  import opened Mounts

  datatype FileSystem = FileSystem(
    mounts: seq<Mount>, firmlinks: seq<Firmlink>, readLinkTarget: string -> string, lexicallyNormal: string -> string)

  /** The links that one lookup may follow are fewer than this. */
  const HOPS: nat := 40

  /** The end of the component that starts at `start`: the next slash, or the end of the path. */
  function ComponentEnd(path: string, start: nat): (e: nat)
    requires start < |path|
    ensures start <= e <= |path| && '/' !in path[start..e] && (e < |path| ==> path[e] == '/')
    decreases |path| - start
  {
    if path[start] == '/' then start
    else if start + 1 == |path| then |path|
    else
      var e := ComponentEnd(path, start + 1);
      assert path[start..e] == [path[start]] + path[start + 1..e];
      e
  }

  /** The mount of this very path is known, and reading a link on it cannot wait for remote storage. */
  predicate OnLocalMount(fs: FileSystem, prefix: string) {
    MountFor(fs.mounts, prefix).Some? && MountFor(fs.mounts, prefix).value.isLocal
  }

  predicate IsLocalLink(fs: FileSystem, prefix: string) {
    OnLocalMount(fs, prefix) && fs.readLinkTarget(prefix) != ""
  }

  // ---- What a resolved path is ----

  /** e is where a component of the path ends. */
  predicate IsComponentEnd(path: string, e: nat) {
    |path| >= 2 && 1 <= e <= |path| && (if e < |path| then path[e] == '/' else path[e - 1] != '/')
  }

  /** The prefixes of the path that end before e are on local mounts, and none of them is a link. */
  ghost predicate PlainBefore(fs: FileSystem, path: string, e: nat) {
    forall d :: 1 <= d < e && d <= |path| && IsComponentEnd(path, d) ==>
      OnLocalMount(fs, path[..d]) && fs.readLinkTarget(path[..d]) == ""
  }

  /** The first link of the path, before any prefix that is not on a local mount, ends at e. */
  ghost predicate FirstLinkEndsAt(fs: FileSystem, path: string, e: nat) {
    IsComponentEnd(path, e) && PlainBefore(fs, path, e) && IsLocalLink(fs, path[..e])
  }

  /** No link is left before the end of the path, or before the first prefix that is not on a local mount. */
  ghost predicate Resolved(fs: FileSystem, path: string) {
    forall e :: 1 <= e <= |path| ==> !FirstLinkEndsAt(fs, path, e)
  }

  // ---- One lookup: as many substitutions of the first link as there are hops ----

  /** Where the component that ends at e starts. */
  function ComponentStart(path: string, e: nat): (start: nat)
    requires 1 <= e <= |path|
    ensures 1 <= start <= e && (start > 1 ==> path[start - 1] == '/')
    ensures '/' !in path[start..e]
    decreases e
  {
    if e == 1 || path[e - 1] == '/' then e
    else
      var start := ComponentStart(path, e - 1);
      assert path[start..e] == path[start..e - 1] + [path[e - 1]];
      start
  }

  /** The path with the link that ends at e replaced by its target. */
  function Substituted(fs: FileSystem, path: string, e: nat): string
    requires 1 <= e <= |path|
  {
    var target := fs.readLinkTarget(path[..e]);
    var linked := if StartsWith(target, "/") then target else path[..ComponentStart(path, e)] + target;
    Canonical(fs.firmlinks, fs.lexicallyNormal(linked + path[e..]))
  }

  lemma OneFirstLink(fs: FileSystem, path: string, e: nat, d: nat)
    requires 1 <= e <= |path| && 1 <= d <= |path| && FirstLinkEndsAt(fs, path, e) && FirstLinkEndsAt(fs, path, d)
    ensures e == d
  {
  }

  /** The path with its first link replaced; a resolved path stays as it is. */
  ghost function FirstSubstituted(fs: FileSystem, path: string): string {
    if Resolved(fs, path) then path
    else
      var e :| 1 <= e <= |path| && FirstLinkEndsAt(fs, path, e);
      Substituted(fs, path, e)
  }

  /** The path after at most n such replacements. */
  ghost function Followed(fs: FileSystem, path: string, n: nat): string
    decreases n
  {
    if n == 0 then path else Followed(fs, FirstSubstituted(fs, path), n - 1)
  }

  lemma {:induction false} ResolvedStays(fs: FileSystem, path: string, n: nat)
    requires Resolved(fs, path)
    ensures Followed(fs, path, n) == path
  {
    if n > 0 {
      ResolvedStays(fs, path, n - 1);
    }
  }

  lemma {:induction false} FollowedTwice(fs: FileSystem, path: string, m: nat, n: nat)
    ensures Followed(fs, Followed(fs, path, m), n) == Followed(fs, path, m + n)
    decreases m
  {
    if m > 0 {
      FollowedTwice(fs, FirstSubstituted(fs, path), m - 1, n);
    }
  }

  // ---- The loop ----

  /** The walk stands at the start of a component, or past the last one. */
  predicate IsComponentStart(path: string, start: nat) {
    start == 1 || (1 < start <= |path| + 1 && (start <= |path| ==> path[start - 1] == '/'))
  }

  lemma StartOfEnd(path: string, start: nat, e: nat)
    requires IsComponentStart(path, start) && 1 <= start < |path| && e == ComponentEnd(path, start)
    ensures IsComponentEnd(path, e) && ComponentStart(path, e) == start
    ensures forall d :: start <= d < e ==> !IsComponentEnd(path, d)
  {
    assert forall d :: start <= d < e ==> path[start..e][d - start] == path[d];
    StartIs(path, start, e);
  }

  lemma {:induction false} StartIs(path: string, start: nat, e: nat)
    requires 1 <= start <= e <= |path| && (start == 1 || path[start - 1] == '/')
    requires forall d :: start <= d < e ==> path[d] != '/'
    ensures ComponentStart(path, e) == start
    decreases e
  {
    if e > start {
      StartIs(path, start, e - 1);
    }
  }

  /** The component that ends at e is plain, and so the walk goes on behind it. */
  lemma PlainFurther(fs: FileSystem, path: string, start: nat, e: nat)
    requires IsComponentStart(path, start) && 1 <= start < |path| && e == ComponentEnd(path, start)
    requires PlainBefore(fs, path, start) && OnLocalMount(fs, path[..e]) && fs.readLinkTarget(path[..e]) == ""
    ensures PlainBefore(fs, path, e + 1) && IsComponentStart(path, e + 1)
  {
    StartOfEnd(path, start, e);
  }

  lemma NothingFurther(fs: FileSystem, path: string, start: nat)
    requires IsComponentStart(path, start) && start >= |path| && PlainBefore(fs, path, start)
    ensures Resolved(fs, path)
  {
    forall e | 1 <= e <= |path| ensures !FirstLinkEndsAt(fs, path, e) {
      if IsComponentEnd(path, e) {
        assert e < start;
      }
    }
  }

  lemma BlockedHere(fs: FileSystem, path: string, start: nat, e: nat)
    requires IsComponentStart(path, start) && 1 <= start < |path| && e == ComponentEnd(path, start)
    requires PlainBefore(fs, path, start) && !OnLocalMount(fs, path[..e])
    ensures Resolved(fs, path)
  {
    StartOfEnd(path, start, e);
    forall d | 1 <= d <= |path| ensures !FirstLinkEndsAt(fs, path, d) {
      if d < start {
      } else if d > e {
        assert !PlainBefore(fs, path, d);
      }
    }
  }

  lemma LinkHere(fs: FileSystem, path: string, start: nat, e: nat)
    requires IsComponentStart(path, start) && 1 <= start < |path| && e == ComponentEnd(path, start)
    requires PlainBefore(fs, path, start) && IsLocalLink(fs, path[..e])
    ensures 1 <= e && !Resolved(fs, path) && FirstSubstituted(fs, path) == Substituted(fs, path, e)
    ensures ComponentStart(path, e) == start
  {
    StartOfEnd(path, start, e);
    assert PlainBefore(fs, path, e);
    assert FirstLinkEndsAt(fs, path, e);
    forall d | 1 <= d <= |path| && FirstLinkEndsAt(fs, path, d) ensures d == e {
      OneFirstLink(fs, path, e, d);
    }
  }

  /** What the walk knows: everything before `start` is plain, and what is left to follow leads to `goal`. */
  ghost predicate Walking(fs: FileSystem, goal: string, path: string, start: nat, hopsLeft: nat) {
    && 1 <= hopsLeft && 1 <= start && IsComponentStart(path, start) && PlainBefore(fs, path, start)
    && Followed(fs, path, hopsLeft - 1) == goal
  }

  lemma WalkEnds(fs: FileSystem, goal: string, path: string, start: nat, hopsLeft: nat)
    requires Walking(fs, goal, path, start, hopsLeft)
    requires start >= |path| || !OnLocalMount(fs, path[..ComponentEnd(path, start)])
    ensures Resolved(fs, path) && path == goal
  {
    if start >= |path| {
      NothingFurther(fs, path, start);
    } else {
      BlockedHere(fs, path, start, ComponentEnd(path, start));
    }
    ResolvedStays(fs, path, hopsLeft - 1);
  }

  lemma WalkGoesOn(fs: FileSystem, goal: string, path: string, start: nat, hopsLeft: nat)
    requires Walking(fs, goal, path, start, hopsLeft) && start < |path|
    requires var e := ComponentEnd(path, start); OnLocalMount(fs, path[..e]) && fs.readLinkTarget(path[..e]) == ""
    ensures Walking(fs, goal, path, ComponentEnd(path, start) + 1, hopsLeft)
  {
    PlainFurther(fs, path, start, ComponentEnd(path, start));
  }

  /** The path that the loop makes of one with a link. */
  function Linked(fs: FileSystem, path: string, start: nat, e: nat): string
    requires start <= e <= |path|
  {
    var target := fs.readLinkTarget(path[..e]);
    var linked := if StartsWith(target, "/") then target else path[..start] + target;
    Canonical(fs.firmlinks, fs.lexicallyNormal(linked + path[e..]))
  }

  lemma WalkRestarts(fs: FileSystem, goal: string, path: string, start: nat, hopsLeft: nat)
    requires Walking(fs, goal, path, start, hopsLeft) && start < |path|
    requires IsLocalLink(fs, path[..ComponentEnd(path, start)])
    ensures hopsLeft == 1 ==> path == goal && !Resolved(fs, path)
    ensures hopsLeft > 1 ==> Walking(fs, goal, Linked(fs, path, start, ComponentEnd(path, start)), 1, hopsLeft - 1)
  {
    LinkHere(fs, path, start, ComponentEnd(path, start));
  }

  /** A prefix that is a mount point counts as part of what is mounted there. */
  method LooksLocal(fs: FileSystem, prefix: string) returns (readable: bool)
    ensures readable == OnLocalMount(fs, prefix)
  {
    var mount := MountForPath(fs.mounts, prefix);
    readable := mount.Some? && fs.mounts[mount.value].isLocal;
  }

  method FollowLink(fs: FileSystem, path: string, componentStart: nat, componentEnd: nat, target: string)
    returns (result: string)
    requires componentStart <= componentEnd <= |path| && target == fs.readLinkTarget(path[..componentEnd])
    ensures result == Linked(fs, path, componentStart, componentEnd)
  {
    var linkedPath := if StartsWith(target, "/") then target else path[..componentStart] + target;
    ghost var used;
    result, used := CanonicalPath(fs.lexicallyNormal(linkedPath + path[componentEnd..]), fs.firmlinks);
  }

  /** A link is read, on a local mount only, and that is noted. */
  method ReadLink(fs: FileSystem, prefix: string, ghost asked: seq<string>)
    returns (target: string, ghost askedNow: seq<string>)
    requires OnLocalMount(fs, prefix)
    ensures target == fs.readLinkTarget(prefix) && askedNow == asked + [prefix]
  {
    target, askedNow := fs.readLinkTarget(prefix), asked + [prefix];
  }

  /** Every link is read on a local mount; the result is the path after fewer replacements of its first link than
      there are hops, and no link is left in it unless the hops are used up. */
  method ResolveLocalSymlinks(start: string, fs: FileSystem, hops: nat := HOPS)
    returns (path: string, ghost asked: seq<string>, ghost spent: bool)
    requires hops > 0
    ensures path == Followed(fs, start, hops - 1)
    ensures Resolved(fs, path) <==> !spent
    ensures forall i :: 0 <= i < |asked| ==> OnLocalMount(fs, asked[i])
  {
    ghost var goal := Followed(fs, start, hops - 1);
    path, asked, spent := start, [], false;
    var hopsLeft := hops;
    var componentStart := 1;
    while componentStart < |path|
      invariant Walking(fs, goal, path, componentStart, hopsLeft)
      invariant forall i :: 0 <= i < |asked| ==> OnLocalMount(fs, asked[i])
      decreases hopsLeft, |path| - componentStart
    {
      var componentEnd := ComponentEnd(path, componentStart);
      var prefix := path[..componentEnd];
      var readable := LooksLocal(fs, prefix);
      if !readable {
        break;
      }
      var target;
      target, asked := ReadLink(fs, prefix, asked);
      if target == "" {
        WalkGoesOn(fs, goal, path, componentStart, hopsLeft);
        componentStart := componentEnd + 1;
        continue;
      }
      WalkRestarts(fs, goal, path, componentStart, hopsLeft);
      hopsLeft := hopsLeft - 1;
      if hopsLeft == 0 {
        spent := true;
        return;
      }
      path := FollowLink(fs, path, componentStart, componentEnd, target);
      componentStart := 1; // what was put in is walked too
    }
    WalkEnds(fs, goal, path, componentStart, hopsLeft);
  }

  // ---- What the result is good for ----

  /** A lookup leaves no link exactly if the path can be resolved by fewer than 40 replacements, Linux's own limit. */
  lemma ResolvedWithinHops(fs: FileSystem, path: string)
    ensures Resolved(fs, Followed(fs, path, HOPS - 1)) <==>
      exists n: nat :: n < 40 && Resolved(fs, Followed(fs, path, n))
  {
    forall n: nat | n < HOPS && Resolved(fs, Followed(fs, path, n))
      ensures Resolved(fs, Followed(fs, path, HOPS - 1))
    {
      FollowedTwice(fs, path, n, HOPS - 1 - n);
      ResolvedStays(fs, Followed(fs, path, n), HOPS - 1 - n);
    }
  }

  /** To resolve the result again changes nothing exactly if the hops suffice, or if as many replacements again lead
      back to where they started. */
  lemma ResolvingAgain(fs: FileSystem, path: string)
    ensures var once := Followed(fs, path, HOPS - 1);
      Followed(fs, once, HOPS - 1) == once <==>
        (exists n: nat :: n < HOPS && Resolved(fs, Followed(fs, path, n))) || Followed(fs, path, 2 * (HOPS - 1)) == once
  {
    ResolvedWithinHops(fs, path);
    var once := Followed(fs, path, HOPS - 1);
    if Resolved(fs, once) {
      ResolvedStays(fs, once, HOPS - 1);
    }
    FollowedTwice(fs, path, HOPS - 1, HOPS - 1);
  }

  /** The replacements lead from the path back to it, for the first time after p of them. */
  ghost predicate Cycles(fs: FileSystem, path: string, p: nat) {
    p > 0 && Followed(fs, path, p) == path && forall k: nat :: 0 < k < p ==> Followed(fs, path, k) != path
  }

  ghost predicate IsMultiple(n: nat, p: nat) {
    exists q: nat :: n == q * p
  }

  lemma LessByOne(n: nat, p: nat)
    requires p > 0
    ensures if n < p then IsMultiple(n, p) <==> n == 0 else IsMultiple(n, p) <==> IsMultiple(n - p, p)
  {
    assert 0 == 0 * p;
    forall q: nat | q > 0 && n == q * p ensures n >= p && IsMultiple(n - p, p) {
      assert q * p == (q - 1) * p + p;
      assert n - p == (q - 1) * p;
    }
    forall q: nat | n - p == q * p ensures IsMultiple(n, p) {
      assert n == (q + 1) * p;
    }
  }

  /** On a cycle, the path comes back after the multiples of its length, and then only. */
  lemma {:induction false} BackOnCycle(fs: FileSystem, path: string, p: nat, n: nat)
    requires Cycles(fs, path, p)
    ensures Followed(fs, path, n) == path <==> IsMultiple(n, p)
    decreases n
  {
    LessByOne(n, p);
    if n >= p {
      FollowedTwice(fs, path, p, n - p);
      BackOnCycle(fs, path, p, n - p);
    }
  }

  lemma {:induction false} CycleIn(fs: FileSystem, path: string, n: nat) returns (p: nat)
    requires n > 0 && Followed(fs, path, n) == path
    ensures Cycles(fs, path, p)
    decreases n
  {
    if k: nat :| 0 < k < n && Followed(fs, path, k) == path {
      p := CycleIn(fs, path, k);
    } else {
      p := n;
    }
  }

  /** To resolve the result again changes nothing exactly if the replacements lead round from it in a cycle whose length
      divides their number; a resolved path is a cycle of length one. */
  lemma SpentHops(fs: FileSystem, path: string)
    ensures var once := Followed(fs, path, HOPS - 1);
      Followed(fs, once, HOPS - 1) == once <==> exists p :: Cycles(fs, once, p) && IsMultiple(HOPS - 1, p)
  {
    var once := Followed(fs, path, HOPS - 1);
    if Followed(fs, once, HOPS - 1) == once {
      var p := CycleIn(fs, once, HOPS - 1);
      BackOnCycle(fs, once, p, HOPS - 1);
    }
    forall p: nat | Cycles(fs, once, p) && IsMultiple(HOPS - 1, p)
      ensures Followed(fs, once, HOPS - 1) == once
    {
      BackOnCycle(fs, once, p, HOPS - 1);
    }
  }

  // ---- What happens when the hops are used up ----

  /** One local mount with these links. */
  function WithLinks(readLinkTarget: string -> string): FileSystem {
    FileSystem([Mount("/", "8:1", true)], [], readLinkTarget, (path: string) => path)
  }

  /** A link of one component, to an absolute target. */
  lemma LinkStep(readLinkTarget: string -> string, name: string)
    requires name != "" && '/' !in name && StartsWith(readLinkTarget("/" + name), "/")
    ensures var fs, path := WithLinks(readLinkTarget), "/" + name;
      !Resolved(fs, path) && FirstSubstituted(fs, path) == readLinkTarget(path)
  {
    var fs, path := WithLinks(readLinkTarget), "/" + name;
    assert path[1..] == name;
    NoSlashToEnd(path, 1);
    assert fs.mounts[..0] == [] && path[..|path|] == path && path[..1] == "/";
    LinkHere(fs, path, 1, |path|);
    assert readLinkTarget(path) + path[|path|..] == readLinkTarget(path);
  }

  lemma {:induction false} NoSlashToEnd(path: string, start: nat)
    requires start < |path| && '/' !in path[start..]
    ensures ComponentEnd(path, start) == |path|
    decreases |path| - start
  {
    assert path[start] in path[start..];
    if start + 1 < |path| {
      assert path[start + 1..] == path[start..][1..];
      NoSlashToEnd(path, start + 1);
    }
  }

  lemma {:induction false} Stuck(fs: FileSystem, path: string, n: nat)
    requires FirstSubstituted(fs, path) == path
    ensures Followed(fs, path, n) == path
  {
    if n > 0 {
      Stuck(fs, path, n - 1);
    }
  }

  /** A link to itself uses up the hops, and resolving again changes nothing. */
  lemma LinkToItself()
    ensures var fs := WithLinks((path: string) => if path == "/a" then "/a" else "");
      var once := Followed(fs, "/a", HOPS - 1);
      !Resolved(fs, once) && Followed(fs, once, HOPS - 1) == once
  {
    var links := (path: string) => if path == "/a" then "/a" else "";
    assert "/" + "a" == "/a";
    LinkStep(links, "a");
    Stuck(WithLinks(links), "/a", HOPS - 1);
  }

  /** Two links to each other use up the hops too, and resolving again gives the other one: 2 does not divide 39. */
  lemma LinksToEachOther()
    ensures var fs := WithLinks((path: string) => if path == "/a" then "/b" else if path == "/b" then "/a" else "");
      var once := Followed(fs, "/a", HOPS - 1);
      !Resolved(fs, once) && Followed(fs, once, HOPS - 1) != once
  {
    var links := (path: string) => if path == "/a" then "/b" else if path == "/b" then "/a" else "";
    var fs := WithLinks(links);
    assert "/" + "a" == "/a" && "/" + "b" == "/b" && "/a"[1] != "/b"[1];
    LinkStep(links, "a");
    LinkStep(links, "b");
    ToAndFro(fs, "/a", "/b", HOPS - 1);
    ToAndFro(fs, "/b", "/a", HOPS - 1);
  }

  lemma {:induction false} ToAndFro(fs: FileSystem, a: string, b: string, n: nat)
    requires FirstSubstituted(fs, a) == b && FirstSubstituted(fs, b) == a && n % 2 == 1
    ensures Followed(fs, a, n) == b
    decreases n
  {
    TwoSteps(fs, a, b);
    if n > 1 {
      ToAndFro(fs, a, b, n - 2);
      FollowedTwice(fs, a, 2, n - 2);
    }
  }

  lemma TwoSteps(fs: FileSystem, a: string, b: string)
    requires FirstSubstituted(fs, a) == b && FirstSubstituted(fs, b) == a
    ensures Followed(fs, a, 1) == b && Followed(fs, a, 2) == a
  {
    assert Followed(fs, b, 1) == Followed(fs, a, 0);
  }

  /** Links that lead on and on, each to a longer path. */
  function Name(n: nat): string {
    seq(n, _ => 'a')
  }

  lemma {:induction false} ChainFollowed(fs: FileSystem, n: nat, m: nat)
    requires n > 0 && forall k: nat :: k > 0 ==> FirstSubstituted(fs, "/" + Name(k)) == "/" + Name(k + 1)
    ensures Followed(fs, "/" + Name(n), m) == "/" + Name(n + m)
    decreases m
  {
    if m > 0 {
      ChainFollowed(fs, n + 1, m - 1);
    }
  }

  /** Where every path but the root is a link to a longer one, resolving again goes on. */
  lemma SpentHopsCanGoOn()
    ensures var fs := WithLinks((path: string) => if |path| > 1 then path + "a" else "");
      var once := Followed(fs, "/" + Name(1), HOPS - 1);
      !Resolved(fs, once) && Followed(fs, once, HOPS - 1) != once
  {
    var links := (path: string) => if |path| > 1 then path + "a" else "";
    forall k: nat | k > 0
      ensures !Resolved(WithLinks(links), "/" + Name(k))
      ensures FirstSubstituted(WithLinks(links), "/" + Name(k)) == "/" + Name(k + 1)
    {
      assert links("/" + Name(k)) == "/" + Name(k + 1);
      LinkStep(links, Name(k));
    }
    ChainFollowed(WithLinks(links), 1, HOPS - 1);
    ChainFollowed(WithLinks(links), HOPS, HOPS - 1);
    assert |"/" + Name(HOPS)| != |"/" + Name(HOPS + HOPS - 1)|;
  }
}
