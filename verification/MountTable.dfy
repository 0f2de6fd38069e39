/**
 The table of mounts as the kernel prints it, and what the reader of module MountInfo makes of it. A line holds two
 paths, the root of the mount and the mount point. The kernel escapes space, tab, newline and backslash in both; a
 formatted read also stops at vertical tab, form feed and carriage return, which come through as they are.
 */
module MountTable {
  import opened Basics
  import opened Mounts
  import opened MountInfo

  /** A mount as the kernel lists it: the two paths as they are, the other fields as they are printed. `rest` is what
      follows the type: the source and the options of the file system. */
  datatype Row = Row(
    mountId: string, parentId: string, device: string, root: string, mountPoint: string, options: string,
    optional: seq<string>, fsType: string, rest: string)

  /** The paths may hold any characters; the other fields up to the type hold no blanks, and none of them is the
      separator. */
  predicate IsRow(r: Row) {
    && IsField(r.mountId) && IsField(r.parentId) && IsField(r.device) && IsField(r.options) && IsField(r.fsType)
    && r.options != "-" && (forall i :: 0 <= i < |r.optional| ==> IsField(r.optional[i]) && r.optional[i] != "-")
    && r.root != "" && !IsStrayBlank(r.root[0]) && StartsWith(r.mountPoint, "/")
    && (r.rest != "" ==> IsBlank(r.rest[0])) && '\n' !in r.rest
  }

  /** The fields behind the two paths, up to the type. */
  function Tail(r: Row): seq<string> {
    [r.options] + r.optional + ["-", r.fsType]
  }

  function JoinedFields(fields: seq<string>): string {
    if fields == [] then [] else if |fields| == 1 then fields[0] else fields[0] + " " + JoinedFields(fields[1..])
  }

  function Line(r: Row): string {
    JoinedFields([r.mountId, r.parentId, r.device, Escaped(r.root), Escaped(r.mountPoint)] + Tail(r)) + r.rest
  }

  function Printed(rows: seq<Row>): string {
    if rows == [] then [] else Line(rows[0]) + "\n" + Printed(rows[1..])
  }

  // ---- Stray blanks ----

  /** The blanks that a formatted read stops at and that the kernel does not escape. */
  predicate IsStrayBlank(c: char) {
    IsBlank(c) && c != ' ' && c != '\t' && c != '\n'
  }

  predicate NoStrayBlank(s: string) {
    forall i :: 0 <= i < |s| ==> !IsStrayBlank(s[i])
  }

  /** The longest stretches of a path without stray blanks. */
  function Pieces(s: string): (pieces: seq<string>)
    ensures s != [] && !IsStrayBlank(s[0]) ==> pieces != []
  {
    if s == [] then []
    else if IsStrayBlank(s[0]) then Pieces(s[1..])
    else if |s| == 1 || IsStrayBlank(s[1]) then [[s[0]]] + Pieces(s[1..])
    else
      var pieces := Pieces(s[1..]);
      [[s[0]] + pieces[0]] + pieces[1..]
  }

  lemma {:induction false} PiecesArePlain(s: string, i: nat)
    requires i < |Pieces(s)|
    ensures NoStrayBlank(Pieces(s)[i])
  {
    var rest := Pieces(s[1..]);
    if IsStrayBlank(s[0]) {
      PiecesArePlain(s[1..], i);
    } else if i > 0 {
      PiecesArePlain(s[1..], if |s| == 1 || IsStrayBlank(s[1]) then i - 1 else i);
    } else if |s| > 1 && !IsStrayBlank(s[1]) {
      PiecesArePlain(s[1..], 0);
    }
  }

  lemma {:induction false} PlainIsOnePiece(s: string)
    requires NoStrayBlank(s) && s != ""
    ensures Pieces(s) == [s]
  {
    if |s| > 1 {
      PlainIsOnePiece(s[1..]);
      assert s == [s[0]] + s[1..];
    } else {
      assert Pieces(s[1..]) == [] && s == [s[0]];
    }
  }

  /** All characters from k on are stray blanks. */
  predicate StrayFrom(s: string, k: nat) {
    forall i :: k <= i < |s| ==> IsStrayBlank(s[i])
  }

  lemma {:induction false} NoPieces(s: string)
    ensures Pieces(s) == [] <==> StrayFrom(s, 0)
  {
    if s != [] {
      NoPieces(s[1..]);
      assert StrayFrom(s, 0) <==> IsStrayBlank(s[0]) && StrayFrom(s[1..], 0) by {
        assert forall i :: 0 < i < |s| ==> s[i] == s[1..][i - 1];
      }
    }
  }

  /** A path is one piece exactly if its stray blanks, if it has any, are all at its end. */
  lemma {:induction false} OnePiece(s: string)
    requires s != "" && !IsStrayBlank(s[0])
    ensures |Pieces(s)| == 1 <==> forall i, k :: 0 <= i < k < |s| && IsStrayBlank(s[i]) ==> IsStrayBlank(s[k])
  {
    var t := s[1..];
    assert forall i :: 0 < i < |s| ==> s[i] == t[i - 1];
    assert forall i :: 0 <= i < |t| ==> t[i] == s[i + 1];
    if |s| > 1 && !IsStrayBlank(s[1]) {
      OnePiece(t);
    } else {
      NoPieces(t);
    }
  }

  function EscapedAll(pieces: seq<string>): seq<string> {
    if pieces == [] then [] else [Escaped(pieces[0])] + EscapedAll(pieces[1..])
  }

  lemma {:induction false} EscapedAllAt(pieces: seq<string>, i: nat)
    requires i < |pieces|
    ensures |EscapedAll(pieces)| == |pieces| && EscapedAll(pieces)[i] == Escaped(pieces[i])
    ensures EscapedAll(pieces)[i..] == EscapedAll(pieces[i..])
  {
    if i > 0 {
      EscapedAllAt(pieces[1..], i - 1);
      assert pieces[1..][i - 1..] == pieces[i..];
    } else if |pieces| > 1 {
      EscapedAllAt(pieces[1..], 0);
    }
  }

  lemma {:induction false} EscapedAllConcat(a: seq<string>, b: seq<string>)
    ensures EscapedAll(a + b) == EscapedAll(a) + EscapedAll(b)
  {
    if a == [] {
      assert a + b == b;
    } else {
      assert (a + b)[1..] == a[1..] + b;
      EscapedAllConcat(a[1..], b);
    }
  }

  // ---- Fields of what is printed ----

  /** Blanks separate: the fields of two texts with a blank between them are those of the one and of the other. */
  lemma {:induction false} FieldsApart(a: string, c: char, b: string)
    requires IsBlank(c)
    ensures Fields(a + [c] + b) == Fields(a) + Fields(b)
  {
    if a == [] {
      assert (a + [c] + b)[1..] == b;
    } else {
      var t := a[1..];
      FieldsApart(t, c, b);
      assert (a + [c] + b)[1..] == t + [c] + b;
      if !IsBlank(a[0]) {
        if |a| == 1 {
          assert Fields(t) == [];
        } else if !IsBlank(a[1]) {
          FieldsJoin(a[0], Fields(t), Fields(b));
        }
      }
    }
  }

  lemma FieldsJoin(c: char, f: seq<string>, g: seq<string>)
    requires f != []
    ensures [[c] + (f + g)[0]] + (f + g)[1..] == ([[c] + f[0]] + f[1..]) + g
  {
  }

  lemma FieldGrows(c: char, s: string, first: string, rest: seq<string>)
    requires !IsBlank(c) && s != [] && !IsBlank(s[0]) && Fields(s) == [first] + rest
    ensures Fields([c] + s) == [[c] + first] + rest
  {
    assert ([c] + s)[1..] == s;
  }

  /** A field that runs on into what follows. */
  lemma {:induction false} FieldRunsOn(e: string, u: string, first: string, rest: seq<string>)
    requires IsField(e) && u != [] && !IsBlank(u[0]) && Fields(u) == [first] + rest
    ensures Fields(e + u) == [e + first] + rest
  {
    var c, t := e[0], e[1..];
    if t == [] {
      FieldGrows(c, u, first, rest);
      assert e == [c];
    } else {
      FieldRunsOn(t, u, first, rest);
      FieldGrows(c, t + u, t + first, rest);
      assert [c] + (t + u) == e + u && [c] + (t + first) == e + first;
    }
  }

  lemma EscapedCharIsField(c: char)
    requires !IsStrayBlank(c)
    ensures IsField(EscapedChar(c))
  {
  }

  /** An escaped path is read as its escaped pieces. */
  lemma {:induction false} FieldsOfEscaped(s: string)
    ensures Fields(Escaped(s)) == EscapedAll(Pieces(s))
    ensures s != [] ==> Escaped(s) != [] && IsBlank(Escaped(s)[0]) == IsStrayBlank(s[0])
  {
    if s != [] {
      var c, t := s[0], s[1..];
      FieldsOfEscaped(t);
      if IsStrayBlank(c) {
        assert Escaped(s)[1..] == Escaped(t);
      } else {
        EscapedCharIsField(c);
        if |s| == 1 || IsStrayBlank(s[1]) {
          EscapedEnds(c, t);
        } else {
          EscapedRunsOn(c, t);
        }
      }
    }
  }

  /** A field that ends before a blank or at the end. */
  lemma FieldEnds(e: string, u: string)
    requires IsField(e) && (u != [] ==> IsBlank(u[0]))
    ensures Fields(e + u) == [e] + Fields(u)
  {
    var s := e + u;
    assert s[..|e|] == e && s[|e|..] == u;
    assert forall i :: 0 <= i < |e| ==> s[i] == e[i];
    FieldTaken(s, |e|);
  }

  lemma EscapedOne(c: char)
    ensures Escaped([c]) == EscapedChar(c)
  {
    assert [c][1..] == [] && Escaped([]) == [];
  }

  lemma EscapedEnds(c: char, t: string)
    requires !IsStrayBlank(c) && (t != [] ==> Escaped(t) != [] && IsBlank(Escaped(t)[0]))
    ensures Fields(EscapedChar(c) + Escaped(t)) == [Escaped([c])] + Fields(Escaped(t))
  {
    EscapedCharIsField(c);
    FieldEnds(EscapedChar(c), Escaped(t));
    EscapedOne(c);
  }

  lemma EscapedRunsOn(c: char, t: string)
    requires !IsStrayBlank(c) && t != [] && Pieces(t) != []
    requires Escaped(t) != [] && !IsBlank(Escaped(t)[0]) && Fields(Escaped(t)) == EscapedAll(Pieces(t))
    ensures Fields(EscapedChar(c) + Escaped(t)) == EscapedAll([[c] + Pieces(t)[0]] + Pieces(t)[1..])
  {
    var first, rest := Pieces(t)[0], Pieces(t)[1..];
    EscapedCharIsField(c);
    FieldRunsOn(EscapedChar(c), Escaped(t), Escaped(first), EscapedAll(rest));
    EscapedCons(c, first);
    EscapedAllCons([c] + first, rest);
  }

  lemma EscapedCons(c: char, s: string)
    ensures Escaped([c] + s) == EscapedChar(c) + Escaped(s)
  {
    assert ([c] + s)[1..] == s;
  }

  lemma EscapedAllCons(first: string, rest: seq<string>)
    ensures EscapedAll([first] + rest) == [Escaped(first)] + EscapedAll(rest)
  {
    assert ([first] + rest)[1..] == rest;
  }

  function AllFields(texts: seq<string>): seq<string> {
    if texts == [] then [] else Fields(texts[0]) + AllFields(texts[1..])
  }

  lemma {:induction false} FieldsOfJoined(texts: seq<string>)
    ensures Fields(JoinedFields(texts)) == AllFields(texts)
  {
    if |texts| > 1 {
      FieldsOfJoined(texts[1..]);
      FieldsApart(texts[0], ' ', JoinedFields(texts[1..]));
    } else if |texts| == 1 {
      assert AllFields(texts[1..]) == [];
    }
  }

  lemma {:induction false} AllFieldsConcat(a: seq<string>, b: seq<string>)
    ensures AllFields(a + b) == AllFields(a) + AllFields(b)
  {
    if a == [] {
      assert a + b == b;
    } else {
      assert (a + b)[1..] == a[1..] + b;
      AllFieldsConcat(a[1..], b);
    }
  }

  lemma {:induction false} AllFieldsPlain(fields: seq<string>)
    requires forall i :: 0 <= i < |fields| ==> IsField(fields[i])
    ensures AllFields(fields) == fields
  {
    if fields != [] {
      var f := fields[0];
      FieldTaken(f, |f|);
      assert f[..|f|] == f && f[|f|..] == [];
      AllFieldsPlain(fields[1..]);
    }
  }

  /** The pieces of the two paths of a row, in the order in which they are printed. */
  function Words(r: Row): seq<string> {
    Pieces(r.root) + Pieces(r.mountPoint)
  }

  function Head(r: Row): seq<string> {
    [r.mountId, r.parentId, r.device]
  }

  lemma WordsOfRow(r: Row)
    requires IsRow(r)
    ensures |Pieces(r.root)| >= 1 && |Pieces(r.mountPoint)| >= 1 && |Words(r)| >= 2
  {
    assert r.mountPoint[0] == '/';
  }

  lemma FieldsOfLine(r: Row)
    requires IsRow(r)
    ensures Fields(Line(r)) == Head(r) + EscapedAll(Words(r)) + Tail(r) + Fields(r.rest)
  {
    var paths := [Escaped(r.root), Escaped(r.mountPoint)];
    var texts := Head(r) + paths + Tail(r);
    assert texts == [r.mountId, r.parentId, r.device, Escaped(r.root), Escaped(r.mountPoint)] + Tail(r);
    assert Fields(JoinedFields(texts)) == Head(r) + EscapedAll(Words(r)) + Tail(r) by {
      PathFields(r);
      PlainAroundPaths(Head(r), paths, Tail(r));
    }
    RestApart(JoinedFields(texts), r.rest);
  }

  lemma PlainAroundPaths(head: seq<string>, paths: seq<string>, tail: seq<string>)
    requires forall i :: 0 <= i < |head| ==> IsField(head[i])
    requires forall i :: 0 <= i < |tail| ==> IsField(tail[i])
    ensures Fields(JoinedFields(head + paths + tail)) == head + AllFields(paths) + tail
  {
    FieldsOfJoined(head + paths + tail);
    AllFieldsConcat(head + paths, tail);
    AllFieldsConcat(head, paths);
    AllFieldsPlain(head);
    AllFieldsPlain(tail);
  }

  lemma PathFields(r: Row)
    ensures AllFields([Escaped(r.root), Escaped(r.mountPoint)]) == EscapedAll(Words(r))
  {
    var a, b := Escaped(r.root), Escaped(r.mountPoint);
    assert [a, b][1..] == [b] && [b][1..] == [];
    assert AllFields([b]) == Fields(b) + AllFields([]);
    FieldsOfEscaped(r.root);
    FieldsOfEscaped(r.mountPoint);
    EscapedAllConcat(Pieces(r.root), Pieces(r.mountPoint));
  }

  lemma RestApart(line: string, rest: string)
    requires rest != "" ==> IsBlank(rest[0])
    ensures Fields(line + rest) == Fields(line) + Fields(rest)
  {
    if rest == "" {
      assert line + rest == line;
    } else {
      FieldsApart(line, rest[0], rest[1..]);
      assert line + rest == line + [rest[0]] + rest[1..];
    }
  }

  // ---- What is read of a row ----

  lemma {:induction false} DashIsThere(before: seq<string>, fsType: string)
    ensures AfterDash(before + ["-", fsType]).Some?
    ensures "-" !in before ==> AfterDash(before + ["-", fsType]) == Some(fsType)
  {
    if before != [] {
      DashIsThere(before[1..], fsType);
      assert (before + ["-", fsType])[1..] == before[1..] + ["-", fsType];
    }
  }

  lemma {:induction false} DashThenRest(fields: seq<string>, rest: seq<string>)
    requires AfterDash(fields).Some?
    ensures AfterDash(fields + rest) == AfterDash(fields)
  {
    if fields[0] != "-" {
      DashThenRest(fields[1..], rest);
      assert (fields + rest)[1..] == fields[1..] + rest;
    }
  }

  /** The fields behind the fifth: the pieces of the paths that are left over, and the tail. */
  function BehindFifth(r: Row): seq<string>
    requires |Words(r)| >= 2
  {
    EscapedAll(Words(r)[2..]) + Tail(r)
  }

  /** The type that is read: the field behind the first separator from the sixth field on. */
  function TypeRead(r: Row): (t: string)
    requires |Words(r)| >= 2
  {
    TypeIsRead(r);
    AfterDash(BehindFifth(r)).value
  }

  lemma TypeIsRead(r: Row)
    requires |Words(r)| >= 2
    ensures AfterDash(BehindFifth(r)).Some?
    ensures IsRow(r) && |Words(r)| == 2 ==> AfterDash(BehindFifth(r)) == Some(r.fsType)
  {
    var before := EscapedAll(Words(r)[2..]) + [r.options] + r.optional;
    assert BehindFifth(r) == before + ["-", r.fsType];
    DashIsThere(before, r.fsType);
  }

  /** What is read of any row: the second piece of its paths as the mount point, and its device. */
  lemma RowRead(r: Row, isLocalType: string -> bool)
    requires IsRow(r)
    ensures |Words(r)| >= 2
    ensures ParsedFields(Fields(Line(r)), isLocalType) ==
      Some(Mount(Words(r)[1], r.device, isLocalType(TypeRead(r))))
  {
    WordsOfRow(r);
    FieldsOfLine(r);
    LeftOver(Words(r));
    FifthOfFields(Head(r), EscapedAll(Words(r)), Tail(r), Fields(r.rest));
    UnescapedEscaped(Words(r)[1]);
    TypeIsRead(r);
    DashThenRest(BehindFifth(r), Fields(r.rest));
  }

  lemma FifthOfFields(head: seq<string>, words: seq<string>, tail: seq<string>, rest: seq<string>)
    requires |head| == 3 && |words| >= 2
    ensures var all := head + words + tail + rest;
      |all| >= 5 && all[2] == head[2] && all[4] == words[1] && all[5..] == words[2..] + tail + rest
  {
  }

  lemma LeftOver(words: seq<string>)
    requires |words| >= 2
    ensures |EscapedAll(words)| == |words| && EscapedAll(words)[1] == Escaped(words[1])
    ensures EscapedAll(words)[2..] == EscapedAll(words[2..])
  {
    EscapedAllAt(words, 1);
    if |words| > 2 {
      EscapedAllAt(words, 2);
    }
  }

  /** The condition under which a mount point is read back: with a root of one piece, that the mount point holds no
      stray blank; with a root of several, that the second of them is the mount point. */
  predicate MountPointComesBack(r: Row) {
    if |Pieces(r.root)| == 1 then NoStrayBlank(r.mountPoint)
    else |Pieces(r.root)| > 1 && Pieces(r.root)[1] == r.mountPoint
  }

  lemma FirstPieceIsAll(s: string)
    requires s != "" && !IsStrayBlank(s[0])
    ensures Pieces(s)[0] == s <==> NoStrayBlank(s)
  {
    if NoStrayBlank(s) {
      PlainIsOnePiece(s);
    } else {
      PiecesArePlain(s, 0);
    }
  }

  /** Every row is read, and its mount point comes back exactly if neither path holds a stray blank where it matters:
      if the root holds none, exactly if the mount point holds none. */
  lemma MountPointReadBack(r: Row, isLocalType: string -> bool)
    requires IsRow(r)
    ensures var m := ParsedFields(Fields(Line(r)), isLocalType);
      m.Some? && (m.value.mountPoint == r.mountPoint <==> MountPointComesBack(r))
    ensures NoStrayBlank(r.root) ==> (MountPointComesBack(r) <==> NoStrayBlank(r.mountPoint))
  {
    RowRead(r, isLocalType);
    WordsOfRow(r);
    assert r.mountPoint[0] == '/';
    FirstPieceIsAll(r.mountPoint);
    if NoStrayBlank(r.root) {
      PlainIsOnePiece(r.root);
    }
  }

  // ---- The table ----

  function MountOf(r: Row, isLocalType: string -> bool): Mount {
    Mount(r.mountPoint, r.device, isLocalType(r.fsType))
  }

  function MountsOf(rows: seq<Row>, isLocalType: string -> bool): seq<Mount> {
    if rows == [] then [] else [MountOf(rows[0], isLocalType)] + MountsOf(rows[1..], isLocalType)
  }

  /** A row comes back if its mount point does, and if a piece of a path is not taken for the separator in a way that
      makes a local mount of a remote one or the other way round. */
  predicate ComesBack(r: Row, isLocalType: string -> bool) {
    |Words(r)| >= 2 && MountPointComesBack(r) && isLocalType(TypeRead(r)) == isLocalType(r.fsType)
  }

  lemma RowReadBack(r: Row, isLocalType: string -> bool)
    requires IsRow(r)
    ensures ParsedFields(Fields(Line(r)), isLocalType) == Some(MountOf(r, isLocalType)) <==> ComesBack(r, isLocalType)
    ensures NoStrayBlank(r.root) ==> (ComesBack(r, isLocalType) <==> NoStrayBlank(r.mountPoint))
  {
    RowRead(r, isLocalType);
    MountPointReadBack(r, isLocalType);
    if NoStrayBlank(r.root) && NoStrayBlank(r.mountPoint) {
      PlainIsOnePiece(r.root);
      PlainIsOnePiece(r.mountPoint);
      TypeIsRead(r);
    }
  }

  predicate OneLine(s: string) {
    forall i :: 0 <= i < |s| ==> s[i] != '\n'
  }

  lemma {:induction false} EscapedIsOneLine(s: string)
    ensures OneLine(Escaped(s))
  {
    if s != [] {
      EscapedIsOneLine(s[1..]);
    }
  }

  lemma {:induction false} JoinedIsOneLine(texts: seq<string>)
    requires forall i :: 0 <= i < |texts| ==> OneLine(texts[i])
    ensures OneLine(JoinedFields(texts))
  {
    if |texts| > 1 {
      JoinedIsOneLine(texts[1..]);
    }
  }

  lemma LineIsOneLine(r: Row)
    requires IsRow(r)
    ensures OneLine(Line(r))
  {
    EscapedIsOneLine(r.root);
    EscapedIsOneLine(r.mountPoint);
    JoinedIsOneLine([r.mountId, r.parentId, r.device, Escaped(r.root), Escaped(r.mountPoint)] + Tail(r));
  }

  lemma LineThenRest(line: string, rest: string)
    requires OneLine(line)
    ensures Lines(line + "\n" + rest) == [line] + Lines(rest)
  {
    var s := line + "\n" + rest;
    UntilIs(s, '\n', |line|);
    assert s[..|line|] == line && s[|line| + 1..] == rest;
  }

  lemma FirstRowRead(r: Row, rest: string, isLocalType: string -> bool)
    requires IsRow(r)
    ensures |Words(r)| >= 2
    ensures ParsedLines(Lines(Line(r) + "\n" + rest), isLocalType) ==
      [Mount(Words(r)[1], r.device, isLocalType(TypeRead(r)))] + ParsedLines(Lines(rest), isLocalType)
  {
    LineIsOneLine(r);
    LineThenRest(Line(r), rest);
    RowRead(r, isLocalType);
    ParsedCons(Line(r), Lines(rest), isLocalType);
  }

  /** To read a printed table gives its mounts, in its order, exactly if every row comes back. */
  lemma {:induction false} TableReadBack(rows: seq<Row>, isLocalType: string -> bool)
    requires forall i :: 0 <= i < |rows| ==> IsRow(rows[i])
    ensures ParsedLines(Lines(Printed(rows)), isLocalType) == MountsOf(rows, isLocalType) <==>
      forall i :: 0 <= i < |rows| ==> ComesBack(rows[i], isLocalType)
  {
    if rows != [] {
      var r, rest := rows[0], rows[1..];
      TableReadBack(rest, isLocalType);
      FirstRowReadBack(r, Printed(rest), MountsOf(rest, isLocalType), isLocalType);
      assert forall i :: 0 < i < |rows| ==> rows[i] == rest[i - 1];
      assert forall i :: 0 <= i < |rest| ==> rest[i] == rows[i + 1];
    }
  }

  lemma FirstRowReadBack(r: Row, rest: string, wanted: seq<Mount>, isLocalType: string -> bool)
    requires IsRow(r)
    ensures ParsedLines(Lines(Line(r) + "\n" + rest), isLocalType) == [MountOf(r, isLocalType)] + wanted <==>
      ComesBack(r, isLocalType) && ParsedLines(Lines(rest), isLocalType) == wanted
  {
    FirstRowRead(r, rest, isLocalType);
    RowRead(r, isLocalType);
    RowReadBack(r, isLocalType);
    var m := Mount(Words(r)[1], r.device, isLocalType(TypeRead(r)));
    ConsEqual(m, ParsedLines(Lines(rest), isLocalType), MountOf(r, isLocalType), wanted);
  }

  lemma ConsEqual(a: Mount, s: seq<Mount>, b: Mount, t: seq<Mount>)
    ensures [a] + s == [b] + t <==> a == b && s == t
  {
    if [a] + s == [b] + t {
      assert a == ([a] + s)[0] && s == ([a] + s)[1..] && b == ([b] + t)[0] && t == ([b] + t)[1..];
    }
  }

  /** When no root holds a stray blank, that is: exactly if no mount point does. */
  lemma PlainTableReadBack(rows: seq<Row>, isLocalType: string -> bool)
    requires forall i :: 0 <= i < |rows| ==> IsRow(rows[i]) && NoStrayBlank(rows[i].root)
    ensures ParsedLines(Lines(Printed(rows)), isLocalType) == MountsOf(rows, isLocalType) <==>
      forall i :: 0 <= i < |rows| ==> NoStrayBlank(rows[i].mountPoint)
  {
    TableReadBack(rows, isLocalType);
    forall i | 0 <= i < |rows|
      ensures ComesBack(rows[i], isLocalType) <==> NoStrayBlank(rows[i].mountPoint)
    {
      RowReadBack(rows[i], isLocalType);
    }
  }

  // ---- Rows that do not come back ----

  lemma {:induction false} TwoPieces(a: string, b: string)
    requires NoStrayBlank(a) && a != "" && NoStrayBlank(b)
    ensures Pieces(a + "\r" + b) == if b == "" then [a] else [a, b]
  {
    var s := a + "\r" + b;
    if |a| == 1 {
      assert s[1..][1..] == b && IsStrayBlank(s[1..][0]) && [s[0]] == a;
      if b != "" {
        PlainIsOnePiece(b);
      }
    } else {
      assert s[1..] == a[1..] + "\r" + b && !IsStrayBlank(s[1]);
      TwoPieces(a[1..], b);
      assert a == [a[0]] + a[1..];
    }
  }

  function SampleRow(root: string, mountPoint: string): Row {
    Row("22", "1", "8:2", root, mountPoint, "rw", [], "ext4", " /dev/sda2 rw")
  }

  /** What is read of a sample row, given the pieces of its paths. */
  lemma SampleRead(root: string, mountPoint: string, words: seq<string>, isLocalType: string -> bool)
    requires root != "" && !IsStrayBlank(root[0]) && StartsWith(mountPoint, "/")
    requires words == Pieces(root) + Pieces(mountPoint)
    ensures var r := SampleRow(root, mountPoint);
      var m := ParsedFields(Fields(Line(r)), isLocalType);
      IsRow(r) && |words| >= 2 && m.Some? && m.value.mountPoint == words[1]
  {
    SampleIsRow(root, mountPoint);
    RowRead(SampleRow(root, mountPoint), isLocalType);
  }

  lemma SampleIsRow(root: string, mountPoint: string)
    requires root != "" && !IsStrayBlank(root[0]) && StartsWith(mountPoint, "/")
    ensures IsRow(SampleRow(root, mountPoint))
  {
  }

  /** A carriage return in the mount point cuts it. */
  lemma StrayBlankInMountPoint(isLocalType: string -> bool)
    ensures var r := SampleRow("/", "/a\rb");
      var m := ParsedFields(Fields(Line(r)), isLocalType);
      IsRow(r) && NoStrayBlank(r.root) && m.Some? && m.value.mountPoint == "/a"
  {
    PlainIsOnePiece("/");
    SamplePieces("/a", "b", "/a\rb");
    SampleRead("/", "/a\rb", ["/", "/a", "b"], isLocalType);
  }

  /** A carriage return in the root puts a part of it in the place of the mount point. */
  lemma StrayBlankInRoot(isLocalType: string -> bool)
    ensures var r := SampleRow("/a\rb", "/mnt");
      var m := ParsedFields(Fields(Line(r)), isLocalType);
      IsRow(r) && NoStrayBlank(r.mountPoint) && m.Some? && m.value.mountPoint == "b"
  {
    PlainIsOnePiece("/mnt");
    SamplePieces("/a", "b", "/a\rb");
    SampleRead("/a\rb", "/mnt", ["/a", "b", "/mnt"], isLocalType);
  }

  lemma SamplePieces(a: string, b: string, s: string)
    requires NoStrayBlank(a) && a != "" && NoStrayBlank(b) && s == a + "\r" + b
    ensures Pieces(s) == if b == "" then [a] else [a, b]
  {
    TwoPieces(a, b);
  }

  /** A stray blank in a root does no harm if it is the last character, or if what follows it is the mount point. */
  lemma HarmlessStrayBlanks(root: string, mountPoint: string, isLocalType: string -> bool)
    requires NoStrayBlank(root) && root != "" && NoStrayBlank(mountPoint) && StartsWith(mountPoint, "/")
    ensures ComesBack(SampleRow(root + "\r", mountPoint), isLocalType)
    ensures ComesBack(SampleRow(root + "\r" + mountPoint, mountPoint), isLocalType)
  {
    SamplePieces(root, "", root + "\r");
    TwoPieces(root, mountPoint);
    PlainIsOnePiece(mountPoint);
    SampleType(SampleRow(root + "\r", mountPoint), []);
    SampleType(SampleRow(root + "\r" + mountPoint, mountPoint), [mountPoint]);
  }

  /** What is left of the paths is not taken for the separator if it begins with a slash. */
  lemma SampleType(r: Row, left: seq<string>)
    requires |Words(r)| >= 2 && Words(r)[2..] == left && |left| <= 1
    requires r.optional == [] && r.options != "-" && (left != [] ==> StartsWith(left[0], "/"))
    ensures TypeRead(r) == r.fsType
  {
    var before := EscapedAll(left) + [r.options];
    assert BehindFifth(r) == before + ["-", r.fsType];
    assert "-" !in EscapedAll(left) by {
      if left != [] {
        SlashStays(left[0]);
        assert left == [left[0]];
        EscapedAllCons(left[0], []);
      }
    }
    DashIsThere(before, r.fsType);
    assert AfterDash(before + ["-", r.fsType]) == Some(r.fsType);
  }

  lemma SlashStays(s: string)
    requires StartsWith(s, "/")
    ensures Escaped(s) != "-"
  {
    var e, t := EscapedChar('/'), s[1..];
    assert s == ['/'] + t && e == ['/'];
    EscapedCons('/', t);
    assert (e + Escaped(t))[0] == '/' && "-"[0] == '-';
  }
}
