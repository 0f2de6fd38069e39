/**
 The reader of /proc/self/mountinfo from system/storagespeed.cpp, against a printer that writes the table as the
 kernel does: fields between single blanks, with the octal escapes for space, tab, newline and backslash.
 */
module MountInfo {
  import opened Basics
  import opened Mounts

  // ---- Octal escapes ----

  predicate IsOctalDigit(c: char) {
    '0' <= c <= '7'
  }

  /** At i there are a backslash and three octal digits. */
  predicate EscapeAt(s: string, i: nat) {
    i + 3 < |s| && s[i] == '\\' && IsOctalDigit(s[i + 1]) && IsOctalDigit(s[i + 2]) && IsOctalDigit(s[i + 3])
  }

  /** The byte that three octal digits stand for; a value above 255 is truncated. */
  function EscapedByte(a: char, b: char, c: char): char
    requires IsOctalDigit(a) && IsOctalDigit(b) && IsOctalDigit(c)
  {
    var value := (a as int - '0' as int) * 64 + (b as int - '0' as int) * 8 + (c as int - '0' as int);
    (if value < 256 then value else value - 256) as char
  }

  function UnescapedFrom(s: string, i: nat): string
    decreases |s| - i
  {
    if i >= |s| then []
    else if EscapeAt(s, i) then [EscapedByte(s[i + 1], s[i + 2], s[i + 3])] + UnescapedFrom(s, i + 4)
    else [s[i]] + UnescapedFrom(s, i + 1)
  }

  function Unescaped(s: string): string {
    UnescapedFrom(s, 0)
  }

  lemma AppendChar(before: string, c: char, rest: string)
    ensures (before + [c]) + rest == before + ([c] + rest)
  {
  }

  method UnescapedMountPoint(escaped: string) returns (result: string)
    ensures result == Unescaped(escaped)
  {
    result := [];
    ghost var goal, rest := Unescaped(escaped), Unescaped(escaped);
    var i := 0;
    while i < |escaped|
      invariant i <= |escaped| && rest == UnescapedFrom(escaped, i) && result + rest == goal
    {
      AppendChar(result, rest[0], rest[1..]);
      if escaped[i] == '\\' && i + 3 < |escaped| && IsOctalDigit(escaped[i + 1]) && IsOctalDigit(escaped[i + 2]) &&
         IsOctalDigit(escaped[i + 3]) {
        result := result + [EscapedByte(escaped[i + 1], escaped[i + 2], escaped[i + 3])];
        i := i + 3;
      } else {
        result := result + [escaped[i]];
      }
      i := i + 1;
      rest := rest[1..];
    }
  }

  /** How the kernel writes one byte of a mount point. */
  function EscapedChar(c: char): string {
    match c
    case ' ' => "\\040"
    case '\t' => "\\011"
    case '\n' => "\\012"
    case '\\' => "\\134"
    case _ => [c]
  }

  function Escaped(s: string): string {
    if s == [] then [] else EscapedChar(s[0]) + Escaped(s[1..])
  }

  lemma {:induction false} UnescapedBehind(before: string, s: string)
    ensures UnescapedFrom(before + Escaped(s), |before|) == s
    decreases |s|
  {
    if s != [] {
      var e := EscapedChar(s[0]);
      var t := before + Escaped(s);
      assert t == (before + e) + Escaped(s[1..]);
      UnescapedBehind(before + e, s[1..]);
      EscapeOfChar(s[0]);
      CharBehind(before, s[0], Escaped(s[1..]), t);
    }
  }

  lemma EscapeOfChar(c: char)
    ensures var e := EscapedChar(c);
      if e == [c] then c != '\\' else |e| == 4 && EscapeAt(e, 0) && EscapedByte(e[1], e[2], e[3]) == c
  {
  }

  lemma CharBehind(before: string, c: char, after: string, t: string)
    requires t == (before + EscapedChar(c)) + after
    ensures UnescapedFrom(t, |before|) == [c] + UnescapedFrom(t, |before + EscapedChar(c)|)
  {
    var e := EscapedChar(c);
    EscapeOfChar(c);
    assert forall i :: 0 <= i < |e| ==> t[|before| + i] == e[i];
    if e != [c] {
      assert EscapeAt(t, |before|);
    }
  }

  /** Unescaping undoes escaping, for every string. */
  lemma UnescapedEscaped(s: string)
    ensures Unescaped(Escaped(s)) == s
  {
    UnescapedBehind([], s);
    assert [] + Escaped(s) == Escaped(s);
  }

  lemma EscapeShifted(a: string, b: string, k: nat)
    requires k < |b|
    ensures (a + b)[|a| + k] == b[k] && (EscapeAt(a + b, |a| + k) <==> EscapeAt(b, k))
    ensures EscapeAt(b, k) ==> (a + b)[|a| + k + 1..|a| + k + 4] == b[k + 1..k + 4]
  {
  }

  /** What comes before a place does not matter to what is decoded from there. */
  lemma {:induction false} UnescapedShifted(a: string, b: string, k: nat)
    requires k <= |b|
    ensures UnescapedFrom(a + b, |a| + k) == UnescapedFrom(b, k)
    decreases |b| - k
  {
    if k < |b| {
      EscapeShifted(a, b, k);
      var s := a + b;
      if EscapeAt(b, k) {
        UnescapedShifted(a, b, k + 4);
        var x, y := s[|a| + k + 1..|a| + k + 4], b[k + 1..k + 4];
        assert x[0] == y[0] && x[1] == y[1] && x[2] == y[2];
      } else {
        UnescapedShifted(a, b, k + 1);
      }
    }
  }

  predicate StartsOctal(s: string) {
    |s| >= 3 && IsOctalDigit(s[0]) && IsOctalDigit(s[1]) && IsOctalDigit(s[2])
  }

  /** The number that three octal digits make. */
  function OctalNumber(s: string): (n: nat)
    requires StartsOctal(s)
  {
    ((s[0] as int - '0' as int) * 8 + (s[1] as int - '0' as int)) * 8 + (s[2] as int - '0' as int)
  }

  lemma ByteOfOctal(s: string)
    requires StartsOctal(s)
    ensures EscapedByte(s[0], s[1], s[2]) == (OctalNumber(s) % 256) as char
  {
  }

  /** What is no backslash stays as it is; a backslash with three octal digits behind it is the byte with that number,
      modulo 256; and any other backslash stays as it is too. */
  lemma UnescapedPiece(c: char, rest: string)
    ensures Unescaped([c] + rest) ==
      if c == '\\' && StartsOctal(rest) then [(OctalNumber(rest) % 256) as char] + Unescaped(rest[3..])
      else [c] + Unescaped(rest)
  {
    var s := [c] + rest;
    if c == '\\' && StartsOctal(rest) {
      ByteOfOctal(rest);
      assert s == (s[..4]) + rest[3..];
      UnescapedShifted(s[..4], rest[3..], 0);
    } else {
      UnescapedShifted([c], rest, 0);
    }
  }

  // ---- Lines and fields ----

  /** What separates fields for a formatted read of a string. */
  predicate IsBlank(c: char) {
    c == ' ' || c == '\t' || c == '\n' || c == '\U{0B}' || c == '\U{0C}' || c == '\r'
  }

  /** The lines of a text, as getline takes them: a newline at the end begins no further line. */
  function Lines(s: string): seq<string>
    decreases |s|
  {
    if s == [] then []
    else
      var n := Until(s, '\n');
      [s[..n]] + (if n < |s| then Lines(s[n + 1..]) else [])
  }

  /** The length of s up to the first c. */
  function Until(s: string, c: char): (n: nat)
    ensures n <= |s| && c !in s[..n] && (n < |s| ==> s[n] == c)
  {
    if s == [] || s[0] == c then 0
    else
      var n := Until(s[1..], c);
      assert s[..n + 1] == [s[0]] + s[1..][..n];
      n + 1
  }

  predicate NoBlank(s: string) {
    forall i :: 0 <= i < |s| ==> !IsBlank(s[i])
  }

  predicate IsField(s: string) {
    s != [] && NoBlank(s)
  }

  /** The fields of a line, as formatted reads take them: its longest stretches without blanks. */
  function Fields(s: string): (fields: seq<string>)
    ensures s != [] && !IsBlank(s[0]) ==> fields != []
  {
    if s == [] then []
    else if IsBlank(s[0]) then Fields(s[1..])
    else if |s| == 1 || IsBlank(s[1]) then [[s[0]]] + Fields(s[1..])
    else
      var fields := Fields(s[1..]);
      [[s[0]] + fields[0]] + fields[1..]
  }

  lemma {:induction false} FieldTaken(s: string, n: nat)
    requires 0 < n <= |s| && (forall i :: 0 <= i < n ==> !IsBlank(s[i])) && (n < |s| ==> IsBlank(s[n]))
    ensures Fields(s) == [s[..n]] + Fields(s[n..])
  {
    if n == 1 {
      assert s[..1] == [s[0]];
    } else {
      FieldTaken(s[1..], n - 1);
      assert s[1..][n - 1..] == s[n..] && [s[0]] + s[1..][..n - 1] == s[..n];
    }
  }

  // ---- Reading the table ----

  /** The field after the first "-". */
  function AfterDash(fields: seq<string>): Option<string> {
    if fields == [] then None
    else if fields[0] == "-" then (if |fields| > 1 then Some(fields[1]) else None)
    else AfterDash(fields[1..])
  }

  /** What a line of the table says: the fifth field is the mount point, the third the device; the type follows the
      separator, which is looked for from the sixth field on. */
  function ParsedFields(fields: seq<string>, isLocalType: string -> bool): Option<Mount> {
    if |fields| < 5 then None
    else
      match AfterDash(fields[5..])
      case None => None
      case Some(t) => Some(Mount(Unescaped(fields[4]), fields[2], isLocalType(t)))
  }

  /** The first separator behind the fifth field is the field number d, and a type follows it. */
  predicate SeparatorAt(fields: seq<string>, d: nat) {
    5 <= d < |fields| - 1 && fields[d] == "-" && forall i :: 5 <= i < d ==> fields[i] != "-"
  }

  lemma {:induction false} AfterDashIs(fields: seq<string>, d: nat)
    requires d < |fields| && fields[d] == "-" && forall i :: 0 <= i < d ==> fields[i] != "-"
    ensures AfterDash(fields) == if d + 1 < |fields| then Some(fields[d + 1]) else None
  {
    if d > 0 {
      AfterDashIs(fields[1..], d - 1);
    }
  }

  lemma {:induction false} NoDash(fields: seq<string>)
    requires "-" !in fields
    ensures AfterDash(fields) == None
  {
    if fields != [] {
      NoDash(fields[1..]);
    }
  }

  lemma {:induction false} FirstDash(fields: seq<string>, from: nat) returns (d: nat)
    requires from <= |fields|
    ensures from <= d <= |fields| && (d < |fields| ==> fields[d] == "-")
    ensures forall i :: from <= i < d ==> fields[i] != "-"
    decreases |fields| - from
  {
    if from == |fields| || fields[from] == "-" {
      d := from;
    } else {
      d := FirstDash(fields, from + 1);
    }
  }

  /** A line is a mount exactly if it has a separator with a type behind it, anywhere behind its fifth field; it says
      the device, the mount point and the type by its third field, its fifth, and the one behind the separator. */
  lemma ParsedIff(fields: seq<string>, isLocalType: string -> bool)
    ensures ParsedFields(fields, isLocalType).Some? <==> exists d :: SeparatorAt(fields, d)
    ensures forall d :: SeparatorAt(fields, d) ==>
      ParsedFields(fields, isLocalType) == Some(Mount(Unescaped(fields[4]), fields[2], isLocalType(fields[d + 1])))
  {
    if |fields| >= 5 {
      var d := FirstDash(fields, 5);
      var tail := fields[5..];
      assert forall i :: 0 <= i < |tail| ==> tail[i] == fields[i + 5];
      if d < |fields| {
        AfterDashIs(tail, d - 5);
        assert forall x :: SeparatorAt(fields, x) ==> x == d;
        assert d + 1 < |fields| ==> SeparatorAt(fields, d);
      } else {
        NoDash(tail);
      }
    }
  }

  function ParsedLines(lines: seq<string>, isLocalType: string -> bool): seq<Mount> {
    if lines == [] then []
    else
      (match ParsedFields(Fields(lines[0]), isLocalType)
       case None => []
       case Some(m) => [m]) + ParsedLines(lines[1..], isLocalType)
  }

  method GetLine(text: string, start: nat) returns (line: string, next: nat)
    requires start < |text|
    ensures start < next <= |text| && Lines(text[start..]) == [line] + Lines(text[next..])
  {
    var end := start;
    while end < |text| && text[end] != '\n'
      invariant start <= end <= |text| && forall i :: start <= i < end ==> text[i] != '\n'
    {
      end := end + 1;
    }
    LineAt(text, start, end);
    line, next := text[start..end], if end < |text| then end + 1 else end;
  }

  lemma LineAt(text: string, start: nat, end: nat)
    requires start <= end <= |text| && start < |text| && (end < |text| ==> text[end] == '\n')
    requires forall i :: start <= i < end ==> text[i] != '\n'
    ensures Lines(text[start..]) == [text[start..end]] + Lines(text[if end < |text| then end + 1 else end..])
  {
    UntilIs(text[start..], '\n', end - start);
    assert text[start..][..end - start] == text[start..end];
    if end < |text| {
      assert text[start..][end - start + 1..] == text[end + 1..];
    }
  }

  lemma {:induction false} UntilIs(s: string, c: char, n: nat)
    requires n <= |s| && (forall i :: 0 <= i < n ==> s[i] != c) && (n < |s| ==> s[n] == c)
    ensures Until(s, c) == n
  {
    if n > 0 {
      UntilIs(s[1..], c, n - 1);
    }
  }

  /** A string stream, read field by field. `rest` is what is still to come. */
  class FieldStream {
    const line: string
    var at: nat
    ghost var rest: seq<string>

    ghost predicate Valid()
      reads this
    {
      at <= |line| && rest == Fields(line[at..])
    }

    constructor (line: string)
      ensures Valid() && rest == Fields(line)
    {
      this.line, at, rest := line, 0, Fields(line);
      assert line[0..] == line;
    }

    /** One formatted read: leading blanks are skipped, and the field ends before the next blank. */
    method Read() returns (field: Option<string>)
      requires Valid()
      modifies this
      ensures Valid() && old(rest) == if field.None? then [] else [field.value] + rest
      ensures field.None? ==> rest == []
    {
      var begin := at;
      while begin < |line| && IsBlank(line[begin])
        invariant at <= begin <= |line| && forall i :: at <= i < begin ==> IsBlank(line[i])
      {
        begin := begin + 1;
      }
      var end := begin;
      while end < |line| && !IsBlank(line[end])
        invariant begin <= end <= |line| && forall i :: begin <= i < end ==> !IsBlank(line[i])
      {
        end := end + 1;
      }
      FieldAt(line, at, begin, end);
      field := if begin == end then None else Some(line[begin..end]);
      at, rest := end, Fields(line[end..]);
    }
  }

  lemma FieldAt(line: string, start: nat, begin: nat, end: nat)
    requires start <= begin <= end <= |line|
    requires forall i :: start <= i < begin ==> IsBlank(line[i])
    requires begin < |line| ==> !IsBlank(line[begin])
    requires forall i :: begin <= i < end ==> !IsBlank(line[i])
    requires end < |line| ==> IsBlank(line[end])
    ensures Fields(line[start..]) == if begin == end then [] else [line[begin..end]] + Fields(line[end..])
    ensures begin == end ==> Fields(line[end..]) == []
  {
    SkippedAt(line, start, begin);
    if begin < end {
      TakenAt(line, begin, end);
    }
  }

  lemma {:induction false} SkippedAt(line: string, start: nat, begin: nat)
    requires start <= begin <= |line| && forall i :: start <= i < begin ==> IsBlank(line[i])
    ensures Fields(line[start..]) == Fields(line[begin..])
    decreases begin - start
  {
    if start < begin {
      assert line[start..][1..] == line[start + 1..];
      SkippedAt(line, start + 1, begin);
    }
  }

  lemma TakenAt(line: string, begin: nat, end: nat)
    requires begin < end <= |line| && forall i :: begin <= i < end ==> !IsBlank(line[i])
    requires end < |line| ==> IsBlank(line[end])
    ensures Fields(line[begin..]) == [line[begin..end]] + Fields(line[end..])
  {
    FieldTaken(line[begin..], end - begin);
    assert line[begin..][..end - begin] == line[begin..end] && line[begin..][end - begin..] == line[end..];
  }

  /** The first five fields of a line, or all of them if there are fewer. */
  method ReadFive(s: FieldStream) returns (fields: seq<string>)
    requires s.Valid()
    modifies s
    ensures s.Valid() && old(s.rest) == fields + s.rest
    ensures |fields| == 5 || (|fields| < 5 && s.rest == [])
  {
    fields := [];
    var found := true;
    while found && |fields| < 5
      invariant s.Valid() && |fields| <= 5 && old(s.rest) == fields + s.rest && (!found ==> s.rest == [])
      decreases found, 5 - |fields|
    {
      var f := s.Read();
      found := f.Some?;
      if found {
        fields := fields + [f.value];
      }
    }
  }

  /** The type: the field after the separator. */
  method ReadType(s: FieldStream) returns (fsType: Option<string>)
    requires s.Valid()
    modifies s
    ensures s.Valid() && fsType == AfterDash(old(s.rest))
  {
    var field: Option<string> := None;
    while field != Some("-")
      invariant s.Valid()
      invariant AfterDash(old(s.rest)) == if field == Some("-") then AfterDash(["-"] + s.rest) else AfterDash(s.rest)
      decreases field != Some("-"), |s.rest|
    {
      field := s.Read();
      if field.None? {
        return None;
      }
      DashStep(field.value, s.rest);
    }
    fsType := s.Read();
    if fsType.Some? {
      DashThen(fsType.value, s.rest);
    }
  }

  lemma DashThen(field: string, rest: seq<string>)
    ensures AfterDash(["-"] + ([field] + rest)) == Some(field)
  {
  }

  lemma DashStep(field: string, rest: seq<string>)
    ensures field != "-" ==> AfterDash([field] + rest) == AfterDash(rest)
  {
    assert ([field] + rest)[1..] == rest;
  }

  /** The body of the loop over the lines. */
  method ParseLine(line: string, isLocalType: string -> bool) returns (m: Option<Mount>)
    ensures m == ParsedFields(Fields(line), isLocalType)
  {
    var fields := new FieldStream(line);
    var first := ReadFive(fields);
    if |first| < 5 {
      return None;
    }
    assert Fields(line)[5..] == fields.rest;
    var fsType := ReadType(fields);
    if fsType.None? {
      return None;
    }
    var mountPoint := UnescapedMountPoint(first[4]);
    m := Some(Mount(mountPoint, first[2], isLocalType(fsType.value)));
  }

  lemma ParsedCons(line: string, rest: seq<string>, isLocalType: string -> bool)
    ensures ParsedLines([line] + rest, isLocalType) ==
      (match ParsedFields(Fields(line), isLocalType) case None => [] case Some(m) => [m]) +
      ParsedLines(rest, isLocalType)
  {
    assert ([line] + rest)[1..] == rest;
  }

  /** parseMountInfo: malformed lines are skipped. */
  method ParseMountInfo(text: string, isLocalType: string -> bool := IsLocalFileSystemType) returns (mounts: seq<Mount>)
    ensures mounts == ParsedLines(Lines(text), isLocalType)
  {
    mounts := [];
    var at := 0;
    ghost var lines, goal := Lines(text), ParsedLines(Lines(text), isLocalType);
    assert text[0..] == text;
    while at < |text|
      invariant at <= |text| && lines == Lines(text[at..]) && mounts + ParsedLines(lines, isLocalType) == goal
    {
      var line, next := GetLine(text, at);
      var parsed := ParseLineAppend(line, mounts, Lines(text[next..]), isLocalType);
      mounts, at, lines := parsed, next, Lines(text[next..]);
    }
  }

  method ParseLineAppend(line: string, mounts: seq<Mount>, ghost rest: seq<string>, isLocalType: string -> bool)
    returns (longer: seq<Mount>)
    ensures longer + ParsedLines(rest, isLocalType) == mounts + ParsedLines([line] + rest, isLocalType)
  {
    var m := ParseLine(line, isLocalType);
    ParsedCons(line, rest, isLocalType);
    longer := if m.Some? then mounts + [m.value] else mounts;
  }

  /** An allowlist: an unknown type counts as remote, and so does autofs, where to read a path can mount it. */
  predicate IsLocalFileSystemType(fsType: string) {
    fsType in {
      "ext2", "ext3", "ext4", "xfs", "btrfs", "f2fs", "jfs", "reiserfs", "zfs", "bcachefs", "nilfs2",
      "vfat", "msdos", "exfat", "ntfs", "ntfs3", "fuseblk", "hfs", "hfsplus", "udf", "iso9660", "squashfs", "erofs",
      "overlay", "tmpfs", "ramfs", "devtmpfs", "devpts", "proc", "sysfs"
    }
  }

  /** Nothing that waits for a network, or may do so, is local: no type of an NFS, SMB, Ceph or 9P client, no FUSE file
      system but one on a block device, and no automounter. */
  lemma NoRemoteType(fsType: string)
    requires IsLocalFileSystemType(fsType)
    ensures '.' !in fsType && !StartsWith(fsType, "nfs") && !StartsWith(fsType, "cifs") && !StartsWith(fsType, "auto")
    ensures fsType !in {"", "fuse", "smb3", "smbfs", "9p", "ceph", "afs", "coda", "glusterfs", "lustre"}
  {
    assert fsType[0] == 'n' ==> fsType[1] != 'f';
  }

  /** File systems on a block device, and those that live in memory, are local. */
  lemma LocalTypes(fsType: string)
    requires fsType in {"ext2", "ext3", "ext4", "xfs", "btrfs", "zfs", "vfat", "exfat", "ntfs", "ntfs3", "fuseblk",
                        "hfsplus", "udf", "iso9660", "squashfs"} ||
      fsType in {"tmpfs", "ramfs", "devtmpfs", "proc", "sysfs", "overlay"}
    ensures IsLocalFileSystemType(fsType)
  {
  }
}
