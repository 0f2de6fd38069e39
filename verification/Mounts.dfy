/** The lookup of mounts and firmlinks by path, from system/storagespeed.cpp. */
module Mounts {
  import opened Basics

  datatype Mount = Mount(mountPoint: string, device: string, isLocal: bool)

  datatype Firmlink = Firmlink(path: string, target: string)

  predicate StartsWith(s: string, prefix: string) {
    prefix <= s
  }

  predicate EndsWithSlash(s: string) {
    s != [] && s[|s| - 1] == '/'
  }

  predicate IsWithinFolder(path: string, folder: string) {
    StartsWith(path, folder) && (|path| == |folder| || EndsWithSlash(folder) || path[|folder|] == '/')
  }

  // ---- Absolute normal paths are lists of components ----

  predicate IsComponent(c: string) {
    c != [] && '/' !in c
  }

  predicate AreComponents(cs: seq<string>) {
    forall i :: 0 <= i < |cs| ==> IsComponent(cs[i])
  }

  /** "/c0/c1/..." without the case of the root. */
  function Joined(cs: seq<string>): string {
    if cs == [] then [] else ['/'] + cs[0] + Joined(cs[1..])
  }

  function PathOf(cs: seq<string>): string {
    if cs == [] then "/" else Joined(cs)
  }

  /** Absolute, without empty components, and without a slash at the end unless it is the root. */
  predicate IsNormal(path: string) {
    && path != [] && path[0] == '/'
    && (forall i :: 0 <= i < |path| - 1 ==> !(path[i] == '/' && path[i + 1] == '/'))
    && (|path| > 1 ==> path[|path| - 1] != '/')
  }

  /** The length of the component at the start of s. */
  function ComponentLength(s: string): (n: nat)
    ensures n <= |s| && '/' !in s[..n] && (n < |s| ==> s[n] == '/')
  {
    if s == [] || s[0] == '/' then 0 else
      var n := ComponentLength(s[1..]);
      assert s[..n + 1] == [s[0]] + s[1..][..n];
      n + 1
  }

  function Components(path: string): seq<string>
    decreases |path|
  {
    if |path| <= 1 then []
    else
      var n := ComponentLength(path[1..]);
      [path[1..n + 1]] + Components(path[n + 1..])
  }

  /** The rest of a normal path from a slash that is not its first is a normal path too. */
  lemma RestIsNormal(path: string, m: nat)
    requires IsNormal(path) && 0 < m < |path| && path[m] == '/'
    ensures |path[m..]| > 1 && IsNormal(path[m..])
  {
    var rest := path[m..];
    assert rest[|rest| - 1] == path[|path| - 1];
    forall i | 0 <= i < |rest| - 1 ensures !(rest[i] == '/' && rest[i + 1] == '/') {
      assert rest[i] == path[m + i] && rest[i + 1] == path[m + i + 1];
    }
  }

  /** What follows the first component of a normal path is nothing, or a normal path that is not the root. */
  lemma NormalRest(path: string, n: nat)
    requires IsNormal(path) && |path| > 1 && n == ComponentLength(path[1..])
    ensures IsComponent(path[1..n + 1]) && path == ['/'] + path[1..n + 1] + path[n + 1..]
    ensures path[n + 1..] == [] || (|path[n + 1..]| > 1 && IsNormal(path[n + 1..]))
  {
    assert path[1..][..n] == path[1..n + 1];
    assert path[1..][0] == path[1] != '/';
    if n + 1 < |path| {
      assert path[n + 1] == path[1..][n] == '/';
      RestIsNormal(path, n + 1);
    }
  }

  lemma {:induction false} ComponentsRoundTrip(path: string)
    requires IsNormal(path)
    ensures AreComponents(Components(path)) && PathOf(Components(path)) == path
    decreases |path|
  {
    if |path| > 1 {
      var n := ComponentLength(path[1..]);
      NormalRest(path, n);
      var rest := path[n + 1..];
      if rest != [] {
        ComponentsRoundTrip(rest);
        assert Components(rest) != [];
      }
      assert Joined(Components(rest)) == rest;
      assert Components(path)[1..] == Components(rest) && Components(path)[0] == path[1..n + 1];
    }
  }

  lemma {:induction false} JoinedNotEmpty(cs: seq<string>)
    requires cs != []
    ensures Joined(cs) != [] && Joined(cs)[0] == '/'
  {
  }

  lemma SlashInLonger(c: string, x: string, d: string, y: string)
    requires |c| < |d| && x != [] && x[0] == '/' && (c + x <= d + y || d + y <= c + x)
    requires |d + y| > |c|
    ensures '/' in d
  {
    assert (c + x)[|c|] == (d + y)[|c|];
    assert d[|c|] == '/';
  }

  /** Two paths that continue with a slash or nothing after a component agree on the component, unless the shorter
      one ends within it. */
  lemma FirstComponent(c: string, x: string, d: string, y: string)
    requires '/' !in c && '/' !in d && c + x <= d + y
    requires (x == [] || x[0] == '/') && (y == [] || y[0] == '/')
    ensures c == d || (x == [] && c <= d)
    ensures c == d ==> x <= y
  {
    var s, t := c + x, d + y;
    assert forall i :: 0 <= i < |s| ==> s[i] == t[i];
    if |c| < |d| {
      assert c == s[..|c|] && s[..|c|] == t[..|c|] && t[..|c|] == d[..|c|];
      if x != [] {
        SlashInLonger(c, x, d, y);
      }
    } else if |d| < |c| {
      if y != [] {
        SlashInLonger(d, y, c, x);
      }
    } else {
      assert c == s[..|c|] && d == t[..|c|];
      assert x == s[|c|..] && y == t[|c|..];
    }
  }

  /** x is y up to a component border. */
  predicate EndsAtBorder(x: string, y: string) {
    x <= y && (|x| == |y| || y[|x|] == '/')
  }

  lemma SameHead(h: string, x: string, y: string)
    ensures EndsAtBorder(h + x, h + y) <==> EndsAtBorder(x, y)
  {
    HeadsOff(h, x, y);
    if |x| < |y| {
      assert (h + y)[|h + x|] == y[|x|];
    }
  }

  lemma HeadsOff(h: string, x: string, y: string)
    ensures h + x <= h + y <==> x <= y
  {
    assert (h + x)[|h|..] == x && (h + y)[|h|..] == y;
    if h + x <= h + y {
      assert forall i :: 0 <= i < |x| ==> x[i] == (h + x)[|h| + i] == (h + y)[|h| + i];
    }
  }

  lemma OtherHead(c: string, x: string, d: string, y: string)
    requires '/' !in c && '/' !in d && c != d
    requires (x == [] || x[0] == '/') && (y == [] || y[0] == '/')
    ensures !EndsAtBorder(c + x, d + y)
  {
    assert x == [] ==> c + x == c;
    assert |c| < |d| ==> (d + y)[|c|] == d[|c|];
    if c + x <= d + y {
      FirstComponent(c, x, d, y);
    }
  }

  /** A joined list is a string prefix of another, up to a component border, exactly if it is a list prefix. */
  lemma {:induction false} JoinedWithin(cs: seq<string>, ds: seq<string>)
    requires AreComponents(cs) && AreComponents(ds)
    ensures ds <= cs <==> EndsAtBorder(Joined(ds), Joined(cs))
  {
    if ds == [] {
      if cs != [] {
        JoinedNotEmpty(cs);
      }
    } else if cs != [] {
      JoinedWithin(cs[1..], ds[1..]);
      assert ds <= cs <==> ds[0] == cs[0] && ds[1..] <= cs[1..];
      JoinedCons(ds[0], ds[1..], cs[0], cs[1..]);
      assert ds == [ds[0]] + ds[1..] && cs == [cs[0]] + cs[1..];
    }
  }

  lemma JoinedCons(d: string, ds: seq<string>, c: string, cs: seq<string>)
    requires '/' !in c && '/' !in d
    ensures EndsAtBorder(Joined([d] + ds), Joined([c] + cs)) <==> d == c && EndsAtBorder(Joined(ds), Joined(cs))
  {
    var x, y := Joined(ds), Joined(cs);
    assert ([d] + ds)[1..] == ds && ([c] + cs)[1..] == cs;
    assert Joined([d] + ds) == ['/'] + (d + x) && Joined([c] + cs) == ['/'] + (c + y);
    SameHead(['/'], d + x, c + y);
    if d == c {
      SameHead(d, x, y);
    } else {
      OtherHead(d, x, c, y);
    }
  }

  lemma RootContains(path: string)
    requires IsNormal(path)
    ensures IsWithinFolder(path, "/")
  {
    assert path[..1] == "/";
  }

  /** On absolute normal paths, to be within a folder is to have its components first. */
  lemma WithinIsComponentPrefix(path: string, folder: string)
    requires IsNormal(path) && IsNormal(folder)
    ensures IsWithinFolder(path, folder) <==> Components(folder) <= Components(path)
  {
    ComponentsRoundTrip(path);
    ComponentsRoundTrip(folder);
    var cs, ds := Components(path), Components(folder);
    if ds == [] {
      RootContains(path);
    } else {
      JoinedNotEmpty(ds);
      assert !EndsWithSlash(folder) && |folder| >= 2;
      if cs != [] {
        JoinedWithin(cs, ds);
      }
    }
  }

  // ---- Mounts ----

  /** The mount holding a path: the longest mount point that it is within, the last one listed if several are of
      that length. */
  ghost predicate Holds(mounts: seq<Mount>, path: string, m: nat) {
    && m < |mounts| && IsWithinFolder(path, mounts[m].mountPoint)
    && forall k :: 0 <= k < |mounts| && IsWithinFolder(path, mounts[k].mountPoint) ==>
         |mounts[k].mountPoint| < |mounts[m].mountPoint| ||
         (|mounts[k].mountPoint| == |mounts[m].mountPoint| && k <= m)
  }

  /** The same as a function, from the last mount to the first. */
  function MountFor(mounts: seq<Mount>, path: string): Option<Mount> {
    if mounts == [] then None
    else
      var n := |mounts| - 1;
      var found := MountFor(mounts[..n], path);
      if IsWithinFolder(path, mounts[n].mountPoint) &&
         (found.None? || |mounts[n].mountPoint| >= |found.value.mountPoint|) then Some(mounts[n])
      else found
  }

  /** What is found among the mounts: the one holding the path, or none if none contains it. */
  ghost predicate IsMountFor(mounts: seq<Mount>, path: string, m: Option<nat>) {
    match m
    case Some(k) => Holds(mounts, path, k) && MountFor(mounts, path) == Some(mounts[k])
    case None =>
      MountFor(mounts, path) == None && forall k :: 0 <= k < |mounts| ==> !IsWithinFolder(path, mounts[k].mountPoint)
  }

  lemma OneMoreMount(mounts: seq<Mount>, next: Mount, path: string, m: Option<nat>)
    requires IsMountFor(mounts, path, m)
    ensures IsMountFor(mounts + [next], path,
      if IsWithinFolder(path, next.mountPoint) &&
         (m.None? || |next.mountPoint| >= |mounts[m.value].mountPoint|) then Some(|mounts|)
      else m)
  {
    assert (mounts + [next])[..|mounts|] == mounts;
  }

  method MountForPath(mounts: seq<Mount>, path: string) returns (m: Option<nat>)
    ensures m.Some? ==> Holds(mounts, path, m.value) && MountFor(mounts, path) == Some(mounts[m.value])
    ensures m.None? ==> MountFor(mounts, path) == None
    ensures m.None? ==> forall k :: 0 <= k < |mounts| ==> !IsWithinFolder(path, mounts[k].mountPoint)
  {
    m := None;
    for i := 0 to |mounts|
      invariant IsMountFor(mounts[..i], path, m)
    {
      OneMoreMount(mounts[..i], mounts[i], path, m);
      assert mounts[..i + 1] == mounts[..i] + [mounts[i]];
      if IsWithinFolder(path, mounts[i].mountPoint) &&
         (m.None? || |mounts[i].mountPoint| >= |mounts[m.value].mountPoint|) {
        m := Some(i);
      }
    }
    assert mounts[..|mounts|] == mounts;
  }

  /** On absolute normal paths, the mount holding a path is the deepest one that contains it, and hides those that
      were mounted before on the same point. */
  lemma DeepestMount(mounts: seq<Mount>, path: string, m: nat, k: nat)
    requires IsNormal(path) && forall i :: 0 <= i < |mounts| ==> IsNormal(mounts[i].mountPoint)
    requires Holds(mounts, path, m) && k < |mounts| && Components(mounts[k].mountPoint) <= Components(path)
    ensures Components(mounts[k].mountPoint) <= Components(mounts[m].mountPoint) <= Components(path)
    ensures Components(mounts[k].mountPoint) == Components(mounts[m].mountPoint) ==>
      mounts[k].mountPoint == mounts[m].mountPoint && k <= m
  {
    var a, b := mounts[k].mountPoint, mounts[m].mountPoint;
    WithinIsComponentPrefix(path, a);
    WithinIsComponentPrefix(path, b);
    ComponentsRoundTrip(a);
    ComponentsRoundTrip(b);
    PrefixesOfOne(a, b, path);
    WithinIsComponentPrefix(b, a);
  }

  /** Of two folders that contain a path, the one with the longer name is within the other. */
  lemma PrefixesOfOne(a: string, b: string, path: string)
    requires IsNormal(a) && IsNormal(b) && a <= path && b <= path && |a| <= |b|
    requires IsWithinFolder(path, a)
    ensures IsWithinFolder(b, a)
  {
    assert a == path[..|a|] && b == path[..|b|];
    assert b[..|a|] == path[..|a|];
    if |a| < |b| {
      assert b[|a|] == path[|a|];
    }
  }

  // ---- Firmlinks ----

  /** The firmlink for a path: the longest that it is within, the first one listed if several are of that length. */
  ghost predicate Rewrites(firmlinks: seq<Firmlink>, path: string, f: nat) {
    && f < |firmlinks| && IsWithinFolder(path, firmlinks[f].path)
    && forall k :: 0 <= k < |firmlinks| && IsWithinFolder(path, firmlinks[k].path) ==>
         |firmlinks[k].path| < |firmlinks[f].path| || (|firmlinks[k].path| == |firmlinks[f].path| && f <= k)
  }

  function FirmlinkFor(firmlinks: seq<Firmlink>, path: string): Option<Firmlink> {
    if firmlinks == [] then None
    else
      var n := |firmlinks| - 1;
      var found := FirmlinkFor(firmlinks[..n], path);
      if IsWithinFolder(path, firmlinks[n].path) && (found.None? || |firmlinks[n].path| > |found.value.path|)
      then Some(firmlinks[n])
      else found
  }

  lemma {:induction false} FirmlinkContains(firmlinks: seq<Firmlink>, path: string)
    ensures FirmlinkFor(firmlinks, path).Some? ==> IsWithinFolder(path, FirmlinkFor(firmlinks, path).value.path)
  {
    if firmlinks != [] {
      FirmlinkContains(firmlinks[..|firmlinks| - 1], path);
    }
  }

  function Canonical(firmlinks: seq<Firmlink>, path: string): string {
    FirmlinkContains(firmlinks, path);
    match FirmlinkFor(firmlinks, path)
    case None => path
    case Some(f) => f.target + path[|f.path|..]
  }

  ghost predicate IsFirmlinkFor(firmlinks: seq<Firmlink>, path: string, f: Option<nat>) {
    match f
    case Some(k) => Rewrites(firmlinks, path, k) && FirmlinkFor(firmlinks, path) == Some(firmlinks[k])
    case None =>
      && FirmlinkFor(firmlinks, path) == None
      && forall k :: 0 <= k < |firmlinks| ==> !IsWithinFolder(path, firmlinks[k].path)
  }

  lemma OneMoreFirmlink(firmlinks: seq<Firmlink>, next: Firmlink, path: string, f: Option<nat>)
    requires IsFirmlinkFor(firmlinks, path, f)
    ensures IsFirmlinkFor(firmlinks + [next], path,
      if IsWithinFolder(path, next.path) && (f.None? || |next.path| > |firmlinks[f.value].path|) then Some(|firmlinks|)
      else f)
  {
    assert (firmlinks + [next])[..|firmlinks|] == firmlinks;
  }

  method CanonicalPath(path: string, firmlinks: seq<Firmlink>) returns (result: string, ghost used: Option<nat>)
    ensures result == Canonical(firmlinks, path)
    ensures used.Some? ==> Rewrites(firmlinks, path, used.value)
    ensures used.Some? ==> result == firmlinks[used.value].target + path[|firmlinks[used.value].path|..]
    ensures used.None? ==> result == path
    ensures used.None? ==> forall k :: 0 <= k < |firmlinks| ==> !IsWithinFolder(path, firmlinks[k].path)
  {
    var m: Option<nat> := None;
    for i := 0 to |firmlinks|
      invariant IsFirmlinkFor(firmlinks[..i], path, m)
    {
      OneMoreFirmlink(firmlinks[..i], firmlinks[i], path, m);
      assert firmlinks[..i + 1] == firmlinks[..i] + [firmlinks[i]];
      if IsWithinFolder(path, firmlinks[i].path) &&
         (m.None? || |firmlinks[i].path| > |firmlinks[m.value].path|) {
        m := Some(i);
      }
    }
    assert firmlinks[..|firmlinks|] == firmlinks;
    used := m;
    if m.Some? {
      result := firmlinks[m.value].target + path[|firmlinks[m.value].path|..];
    } else {
      result := path;
    }
  }
}
