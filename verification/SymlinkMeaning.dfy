/**
 What resolveLocalSymlinks of system/storagespeed.cpp means for the path that it is given: which prefix is its first
 link, what a replacement puts in, and that the result names the same file.
 */
module SymlinkMeaning {
  import opened Basics
  import opened Mounts
  import opened Symlinks

  // ---- Which prefixes are asked about ----

  /** On a local mount: the mount that holds this very path is local. */
  lemma LocalMountHolds(fs: FileSystem, prefix: string)
    ensures OnLocalMount(fs, prefix) <==> exists m: nat :: Holds(fs.mounts, prefix, m) && fs.mounts[m].isLocal
  {
    var m := FoundMount(fs.mounts, prefix);
    forall k: nat | Holds(fs.mounts, prefix, k) ensures m == Some(k) {
      assert m.Some? ==> Holds(fs.mounts, prefix, m.value);
    }
  }

  lemma {:induction false} FoundMount(mounts: seq<Mount>, path: string) returns (m: Option<nat>)
    ensures IsMountFor(mounts, path, m)
    decreases |mounts|
  {
    if mounts == [] {
      m := None;
    } else {
      var n := |mounts| - 1;
      var before := FoundMount(mounts[..n], path);
      OneMoreMount(mounts[..n], mounts[n], path, before);
      assert mounts[..n] + [mounts[n]] == mounts;
      m := if IsWithinFolder(path, mounts[n].mountPoint) &&
        (before.None? || |mounts[n].mountPoint| >= |mounts[before.value].mountPoint|) then Some(n) else before;
    }
  }

  /** A folder, or the thing itself, that a normal path leads through, but not the root. */
  predicate LeadsThrough(path: string, folder: string) {
    IsNormal(folder) && folder != "/" && IsWithinFolder(path, folder)
  }

  lemma EndsAreFolders(path: string, e: nat)
    requires IsNormal(path) && 1 <= e <= |path|
    ensures IsComponentEnd(path, e) <==> LeadsThrough(path, path[..e])
  {
    var folder := path[..e];
    assert folder[0] == '/' && (e > 1 ==> folder[e - 1] == path[e - 1]);
    assert forall i :: 0 <= i < e ==> folder[i] == path[i];
    assert folder == "/" <==> e == 1;
  }

  lemma FolderIsPrefix(path: string, folder: string)
    requires LeadsThrough(path, folder)
    ensures 1 <= |folder| <= |path| && path[..|folder|] == folder
  {
  }

  /** Of the folders that a normal path leads through, the first that is a link or is not on a local mount is this one,
      and it is a link on a local mount. */
  ghost predicate IsFirstLink(fs: FileSystem, path: string, folder: string) {
    && LeadsThrough(path, folder) && IsLocalLink(fs, folder)
    && forall outer :: LeadsThrough(path, outer) && |outer| < |folder| ==>
         OnLocalMount(fs, outer) && fs.readLinkTarget(outer) == ""
  }

  lemma FirstLinkIsFolder(fs: FileSystem, path: string, e: nat)
    requires IsNormal(path) && 1 <= e <= |path|
    ensures FirstLinkEndsAt(fs, path, e) <==> IsFirstLink(fs, path, path[..e])
  {
    EndsAreFolders(path, e);
    if PlainBefore(fs, path, e) {
      forall outer | LeadsThrough(path, outer) && |outer| < e
        ensures OnLocalMount(fs, outer) && fs.readLinkTarget(outer) == ""
      {
        FolderIsPrefix(path, outer);
        EndsAreFolders(path, |outer|);
      }
    }
    if IsFirstLink(fs, path, path[..e]) {
      forall d | 1 <= d < e && IsComponentEnd(path, d)
        ensures OnLocalMount(fs, path[..d]) && fs.readLinkTarget(path[..d]) == ""
      {
        EndsAreFolders(path, d);
      }
    }
  }

  /** A normal path is resolved exactly if it leads through no link, up to the first folder that is not on a local
      mount. */
  lemma ResolvedByFolders(fs: FileSystem, path: string)
    requires IsNormal(path)
    ensures Resolved(fs, path) <==> forall folder :: !IsFirstLink(fs, path, folder)
  {
    forall e | 1 <= e <= |path| ensures FirstLinkEndsAt(fs, path, e) <==> IsFirstLink(fs, path, path[..e]) {
      FirstLinkIsFolder(fs, path, e);
    }
    forall folder | IsFirstLink(fs, path, folder) ensures !Resolved(fs, path) {
      FolderIsPrefix(path, folder);
    }
  }

  // ---- What a replacement puts in ----

  /** The path with the target of a link in its place: an absolute target starts anew, any other starts from the folder
      that the link is in; what followed the link follows the target. */
  function WithTarget(dir: string, target: string, rest: string): string {
    (if StartsWith(target, "/") then target else dir + target) + rest
  }

  /** The first link, `name` in the folder `dir`, is replaced by its target, and `rest` stays behind it. */
  lemma ReplacedLink(fs: FileSystem, dir: string, name: string, rest: string)
    requires EndsWithSlash(dir) && '/' !in name && FirstLinkEndsAt(fs, dir + name + rest, |dir + name|)
    ensures FirstSubstituted(fs, dir + name + rest) ==
      Canonical(fs.firmlinks, fs.lexicallyNormal(WithTarget(dir, fs.readLinkTarget(dir + name), rest)))
  {
    var path, e := dir + name + rest, |dir + name|;
    assert path[..e] == dir + name && path[..|dir|] == dir && path[e..] == rest;
    forall d | |dir| <= d < e ensures path[d] != '/' {
      assert path[d] == name[d - |dir|];
    }
    StartIs(path, |dir|, e);
    FirstIs(fs, path, e);
  }

  lemma FirstIs(fs: FileSystem, path: string, e: nat)
    requires 1 <= e <= |path| && FirstLinkEndsAt(fs, path, e)
    ensures !Resolved(fs, path) && FirstSubstituted(fs, path) == Substituted(fs, path, e)
  {
    forall d | 1 <= d <= |path| && FirstLinkEndsAt(fs, path, d) ensures d == e {
      OneFirstLink(fs, path, e, d);
    }
  }

  /** An absolute path with a link is a folder, the name of the link in it, and a rest. */
  lemma LinkParts(path: string, e: nat) returns (dir: string, name: string, rest: string)
    requires StartsWith(path, "/") && 1 <= e <= |path|
    ensures path == dir + name + rest && |dir + name| == e && '/' !in name
    ensures StartsWith(dir, "/") && EndsWithSlash(dir)
  {
    var start := ComponentStart(path, e);
    dir, name, rest := path[..start], path[start..e], path[e..];
    assert dir[|dir| - 1] == path[start - 1];
  }

  // ---- The result names the same file ----

  /** To look up a path that goes through a link is to look it up with the target in place of the link. */
  ghost predicate StandsForTarget<T>(fs: FileSystem, lookUp: string -> T, dir: string, name: string, rest: string) {
    && StartsWith(dir, "/") && EndsWithSlash(dir) && '/' !in name && (rest == "" || rest[0] == '/')
    && fs.readLinkTarget(dir + name) != "" ==>
      lookUp(dir + name + rest) == lookUp(WithTarget(dir, fs.readLinkTarget(dir + name), rest))
  }

  ghost predicate LinksStandForTargets<T(!new)>(fs: FileSystem, lookUp: string -> T) {
    forall dir, name, rest :: StandsForTarget(fs, lookUp, dir, name, rest)
  }

  /** An absolute path in normal form, with its firmlink replaced, is absolute and names the same file. */
  ghost predicate NormalFormIsSame<T>(fs: FileSystem, lookUp: string -> T, path: string) {
    var same := Canonical(fs.firmlinks, fs.lexicallyNormal(path));
    StartsWith(same, "/") && lookUp(same) == lookUp(path)
  }

  /** One replacement: if links stand for their targets, the path names the same file exactly if the path with the
      target put in does so in its normal form. */
  lemma ReplacementIsSame<T(!new)>(fs: FileSystem, lookUp: string -> T, dir: string, name: string, rest: string)
    requires LinksStandForTargets(fs, lookUp) && StartsWith(dir, "/") && EndsWithSlash(dir) && '/' !in name
    requires FirstLinkEndsAt(fs, dir + name + rest, |dir + name|)
    ensures
      var put := WithTarget(dir, fs.readLinkTarget(dir + name), rest);
      lookUp(FirstSubstituted(fs, dir + name + rest)) == lookUp(dir + name + rest) <==>
        lookUp(Canonical(fs.firmlinks, fs.lexicallyNormal(put))) == lookUp(put)
  {
    ReplacedLink(fs, dir, name, rest);
    assert (dir + name + rest)[..|dir + name|] == dir + name;
    assert rest != "" ==> (dir + name + rest)[|dir + name|] == rest[0];
    assert StandsForTarget(fs, lookUp, dir, name, rest);
  }

  /** However a file system looks up paths: where links stand for their targets and the normal form of an absolute path
      is looked up like the path, an absolute path and what it is resolved to are looked up alike. */
  lemma {:induction false} ResolvedIsSame<T(!new)>(fs: FileSystem, lookUp: string -> T, path: string, n: nat)
    requires StartsWith(path, "/") && LinksStandForTargets(fs, lookUp)
    requires forall p :: StartsWith(p, "/") ==> NormalFormIsSame(fs, lookUp, p)
    ensures StartsWith(Followed(fs, path, n), "/") && lookUp(Followed(fs, path, n)) == lookUp(path)
    decreases n
  {
    if n > 0 {
      OneReplacementIsSame(fs, lookUp, path);
      ResolvedIsSame(fs, lookUp, FirstSubstituted(fs, path), n - 1);
    }
  }

  lemma OneReplacementIsSame<T(!new)>(fs: FileSystem, lookUp: string -> T, path: string)
    requires StartsWith(path, "/") && LinksStandForTargets(fs, lookUp)
    requires forall p :: StartsWith(p, "/") ==> NormalFormIsSame(fs, lookUp, p)
    ensures StartsWith(FirstSubstituted(fs, path), "/") && lookUp(FirstSubstituted(fs, path)) == lookUp(path)
  {
    if !Resolved(fs, path) {
      var e :| 1 <= e <= |path| && FirstLinkEndsAt(fs, path, e);
      var dir, name, rest := LinkParts(path, e);
      ReplacedLink(fs, dir, name, rest);
      ReplacementIsSame(fs, lookUp, dir, name, rest);
      AbsoluteWithTarget(dir, fs.readLinkTarget(dir + name), rest);
      assert NormalFormIsSame(fs, lookUp, WithTarget(dir, fs.readLinkTarget(dir + name), rest));
    }
  }

  lemma AbsoluteWithTarget(dir: string, target: string, rest: string)
    requires StartsWith(dir, "/")
    ensures StartsWith(WithTarget(dir, target, rest), "/")
  {
    assert WithTarget(dir, target, rest)[0] == '/';
  }

  // ---- Where the normal form is not the same ----

  /** /l is a link to d/../e, and /d is one to /p/q. */
  const LINKS: string -> string := path => if path == "/l" then "d/../e" else if path == "/d" then "/p/q" else ""

  const DOTTED: FileSystem :=
    FileSystem([Mount("/", "8:1", true)], [], LINKS, path => if path == "/d/../e" then "/e" else path)

  /** Links are followed before ".." is taken: /l is /d/../e, which is /p/q/../e, which is /p/e. */
  function KernelLookUp(path: string): string {
    if IsWithinFolder(path, "/l") then "/p/e" + path[2..]
    else
      var q := if IsWithinFolder(path, "/d") then "/p/q" + path[2..] else path;
      if IsWithinFolder(q, "/p/q/../e") then "/p/e" + q[9..] else q
  }

  lemma KernelFollowsL(rest: string)
    requires rest == "" || rest[0] == '/'
    ensures KernelLookUp("/l" + rest) == "/p/e" + rest && KernelLookUp("/d/../e" + rest) == "/p/e" + rest
  {
    assert ("/l" + rest)[2..] == rest && ("/l" + rest)[..2] == "/l";
    var path := "/d/../e" + rest;
    assert path[..2] == "/d" && path[1] == 'd' && path[2..] == "/../e" + rest;
    var q := "/p/q" + path[2..];
    assert q == "/p/q/../e" + rest;
    assert q[..9] == "/p/q/../e" && q[9..] == rest;
  }

  lemma KernelFollowsD(rest: string)
    requires rest == "" || rest[0] == '/'
    ensures KernelLookUp("/d" + rest) == KernelLookUp("/p/q" + rest)
  {
    var path, put := "/d" + rest, "/p/q" + rest;
    assert path[..2] == "/d" && path[1] == 'd' && path[2..] == rest;
    assert put[1] == 'p';
  }

  /** A target with ".." behind a link: links stand for their targets, and yet the path is resolved to another file, as
      ".." is taken lexically first. */
  lemma DotsBehindLink()
    ensures LinksStandForTargets(DOTTED, KernelLookUp)
    ensures Followed(DOTTED, "/l", HOPS - 1) == "/e" && Resolved(DOTTED, "/e")
    ensures KernelLookUp("/e") != KernelLookUp("/l")
  {
    forall dir, name, rest ensures StandsForTarget(DOTTED, KernelLookUp, dir, name, rest) {
      if EndsWithSlash(dir) && '/' !in name && (rest == "" || rest[0] == '/') {
        KernelStands(dir, name, rest);
      }
    }
    DotsStep();
    ResolvedStays(DOTTED, "/e", HOPS - 2);
    KernelFollowsL("");
    assert "/e"[1] != "/l"[1] && "/e"[1] != "/d"[1] && "/e"[1] != "/p/q/../e"[1];
    assert KernelLookUp("/e") == "/e" && "/l" + "" == "/l" && "/p/e" + "" == "/p/e";
  }

  lemma KernelStands(dir: string, name: string, rest: string)
    requires EndsWithSlash(dir) && '/' !in name && (rest == "" || rest[0] == '/')
    ensures StandsForTarget(DOTTED, KernelLookUp, dir, name, rest)
  {
    if LINKS(dir + name) != "" {
      OneName(dir, name);
      assert dir + name == "/l" || dir + name == "/d";
      if dir + name == "/l" {
        KernelFollowsL(rest);
        assert WithTarget(dir, "d/../e", rest) == "/d/../e" + rest;
      } else {
        KernelFollowsD(rest);
        assert WithTarget(dir, "/p/q", rest) == "/p/q" + rest;
      }
    }
  }

  lemma OneName(dir: string, name: string)
    requires EndsWithSlash(dir) && |dir + name| == 2 && (dir + name)[0] == '/' && (dir + name)[1] != '/'
    ensures dir == "/"
  {
    assert dir[|dir| - 1] == (dir + name)[|dir| - 1];
  }

  lemma DotsStep()
    ensures FirstSubstituted(DOTTED, "/l") == "/e" && Resolved(DOTTED, "/e")
  {
    assert "/" + "l" + "" == "/l" && "/" + "l" == "/l" && "/l"[..2] == "/l";
    assert "/" + "d/../e" + "" == "/d/../e";
    RootIsLocal("/l");
    ReplacedLink(DOTTED, "/", "l", "");
    assert "/e"[..2] == "/e" && "/e"[1] != "/l"[1] && "/e"[1] != "/d"[1];
    assert !IsComponentEnd("/e", 1) && LINKS("/e") == "";
  }

  lemma RootIsLocal(path: string)
    requires StartsWith(path, "/")
    ensures OnLocalMount(DOTTED, path)
  {
    assert DOTTED.mounts[..0] == [];
  }
}
