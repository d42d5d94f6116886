/** The part of Python's `posixpath` that `scripts/build_llms_txt.py` resolves links with. */
module Paths {
  type Parts = seq<string>

  // ---- a path and its parts ------------------------------------------------

  // Where the text's first such character is, or its length.
  function Find(s: string, c: char): (n: nat)
    ensures n <= |s| && (forall i :: 0 <= i < n ==> s[i] != c) && (n < |s| ==> s[n] == c)
  {
    if s == "" || s[0] == c then 0 else 1 + Find(s[1..], c)
  }

  // `s.split("/")` and `"/".join(parts)`.
  function Split(s: string): (parts: Parts)
    ensures parts != [] && forall i :: 0 <= i < |parts| ==> '/' !in parts[i]
  {
    var n := Find(s, '/');
    if n == |s| then [s] else [s[..n]] + Split(s[n + 1..])
  }

  function Join(parts: Parts): string {
    if parts == [] then "" else if |parts| == 1 then parts[0] else parts[0] + "/" + Join(parts[1..])
  }

  lemma {:induction false} FindFirst(a: string, c: char, b: string)
    requires c !in a
    ensures Find(a + [c] + b, c) == |a| && Find(a, c) == |a|
  {
    if a == "" {
    } else {
      assert (a + [c] + b)[1..] == a[1..] + [c] + b;
      FindFirst(a[1..], c, b);
    }
  }

  lemma {:induction false} SplitJoin(parts: Parts)
    requires parts != [] && forall i :: 0 <= i < |parts| ==> '/' !in parts[i]
    ensures Split(Join(parts)) == parts
    decreases |parts|
  {
    if |parts| == 1 {
      FindFirst(parts[0], '/', "");
    } else {
      FindFirst(parts[0], '/', Join(parts[1..]));
      SplitJoin(parts[1..]);
      var s := Join(parts);
      assert s == parts[0] + "/" + Join(parts[1..]);
      assert s[..|parts[0]|] == parts[0] && s[|parts[0]| + 1..] == Join(parts[1..]);
    }
  }

  lemma {:induction false} JoinConcat(a: Parts, b: Parts)
    requires a != [] && b != []
    ensures Join(a + b) == Join(a) + "/" + Join(b)
    decreases |a|
  {
    if |a| > 1 {
      JoinConcat(a[1..], b);
      assert (a + b)[1..] == a[1..] + b;
    } else {
      assert (a + b)[1..] == b;
    }
  }

  // ---- normpath ------------------------------------------------------------

  // What one more part does to the parts kept so far.
  function Pushed(kept: Parts, part: string, rooted: bool): Parts {
    if part == "" || part == "." then kept
    else if part != ".." || (!rooted && kept == []) || (kept != [] && kept[|kept| - 1] == "..") then kept + [part]
    else if kept != [] then kept[..|kept| - 1]
    else kept
  }

  function Kept(parts: Parts, rooted: bool): Parts {
    if parts == [] then [] else Pushed(Kept(parts[..|parts| - 1], rooted), parts[|parts| - 1], rooted)
  }

  // POSIX lets a path start with one slash or with exactly two.
  function Slashes(path: string): nat {
    if path == "" || path[0] != '/' then 0
    else if |path| >= 2 && path[1] == '/' && !(|path| >= 3 && path[2] == '/') then 2
    else 1
  }

  function Root(n: nat): string {
    seq(n, _ => '/')
  }

  function Normal(path: string): string {
    var normal := Root(Slashes(path)) + Join(Kept(Split(path), Slashes(path) > 0));
    if path == "" || normal == "" then "." else normal
  }

  lemma KeptNone(parts: Parts, rooted: bool)
    ensures Kept(parts[..0], rooted) == []
  {
  }

  lemma KeptMore(parts: Parts, i: nat, rooted: bool)
    requires i < |parts|
    ensures Kept(parts[..i + 1], rooted) == Pushed(Kept(parts[..i], rooted), parts[i], rooted)
  {
    hide Pushed;
    assert parts[..i + 1][..i] == parts[..i];
  }

  method NormPath(path: string) returns (normal: string)
    ensures normal == Normal(path)
  {
    hide Split, Join, Kept, Slashes;
    if path == "" {
      return ".";
    }
    KeptNone(Split(path), Slashes(path) > 0);
    var rooted := Slashes(path) > 0;
    var parts := Split(path);
    var kept: Parts := [];
    var i := 0;
    while i < |parts|
      invariant 0 <= i <= |parts|
      invariant kept == Kept(parts[..i], rooted)
    {
      KeptMore(parts, i, rooted);
      var part := parts[i];
      if part != "" && part != "." {
        if part != ".." || (!rooted && kept == []) || (kept != [] && kept[|kept| - 1] == "..") {
          kept := kept + [part];
        } else if kept != [] {
          kept := kept[..|kept| - 1];
        }
      }
      i := i + 1;
    }
    assert parts[..i] == parts;
    normal := Root(Slashes(path)) + Join(kept);
    if normal == "" {
      normal := ".";
    }
  }

  // `posixpath.join(a, b)`.
  function Joined(a: string, b: string): string {
    if b != "" && b[0] == '/' then b
    else if a == "" || a[|a| - 1] == '/' then a + b
    else a + "/" + b
  }

  // ---- relpath -------------------------------------------------------------

  // The longest run two lists start with.
  function Common(a: Parts, b: Parts): (n: nat)
    ensures n <= |a| && n <= |b| && a[..n] == b[..n]
  {
    if a == [] || b == [] || a[0] != b[0] then 0
    else
      var n := Common(a[1..], b[1..]);
      assert a[..n + 1] == [a[0]] + a[1..][..n] && b[..n + 1] == [b[0]] + b[1..][..n];
      n + 1
  }

  function Named(parts: Parts): Parts
  {
    if parts == [] then [] else (if parts[0] == "" then [] else [parts[0]]) + Named(parts[1..])
  }

  function Absolute(path: string, cwd: string): string {
    Normal(if path != "" && path[0] == '/' then path else Joined(cwd, path))
  }

  function Ups(n: nat): Parts {
    seq(n, _ => "..")
  }

  // `posixpath.relpath(path, start)`, which refuses an empty path.
  function Relative(path: string, start: string, cwd: string): string
    requires path != ""
  {
    var from, to := Named(Split(Absolute(start, cwd))), Named(Split(Absolute(path, cwd)));
    var i := Common(from, to);
    var parts := Ups(|from| - i) + to[i..];
    if parts == [] then "." else Join(parts)
  }

  // ---- paths inside the reference ------------------------------------------

  predicate Plain(part: string) {
    part != "" && part != "." && part != ".." && '/' !in part
  }

  // Parts that name something at or below where they start.
  ghost predicate Clean(parts: Parts) {
    forall i :: 0 <= i < |parts| ==> Plain(parts[i])
  }

  // Parts a path can be split into again, none of them empty.
  ghost predicate Segments(parts: Parts) {
    forall i :: 0 <= i < |parts| ==> parts[i] != "" && '/' !in parts[i]
  }

  ghost predicate Inside(path: string) {
    path != "" && exists parts :: parts != [] && Clean(parts) && path == Join(parts)
  }

  // A working directory, which is absolute and normal.
  ghost predicate Directory(cwd: string) {
    exists parts :: Clean(parts) && cwd == "/" + Join(parts)
  }

  lemma {:induction false} KeptOver(parts: Parts, more: Parts, rooted: bool)
    requires Clean(more)
    ensures Kept(parts + more, rooted) == Kept(parts, rooted) + more
    decreases |more|
  {
    if more == [] {
      assert parts + more == parts;
    } else {
      var n := |more| - 1;
      assert (parts + more)[..|parts| + n] == parts + more[..n];
      KeptOver(parts, more[..n], rooted);
      assert Plain(more[n]);
      assert Kept(parts, rooted) + more[..n] + [more[n]] == Kept(parts, rooted) + more;
    }
  }

  lemma {:induction false} KeptUps(base: Parts, k: nat)
    requires Clean(base) && k <= |base|
    ensures Kept(base + Ups(k), false) == base[..|base| - k]
    decreases k
  {
    if k == 0 {
      assert base + Ups(0) == [] + base;
      KeptOver([], base, false);
    } else {
      var all := base + Ups(k);
      assert all[..|all| - 1] == base + Ups(k - 1) && all[|all| - 1] == "..";
      KeptUps(base, k - 1);
      var kept := base[..|base| - (k - 1)];
      assert Plain(kept[|kept| - 1]);
    }
  }

  // A path down from a directory and the directory's own parts, joined and split again.
  lemma JoinedParts(base: Parts, rel: Parts)
    requires Clean(base) && rel != [] && Segments(rel)
    ensures Split(Joined(Join(base), Join(rel))) == base + rel
    ensures Slashes(Joined(Join(base), Join(rel))) == 0
    ensures Joined(Join(base), Join(rel)) != ""
  {
    hide Split;
    JoinStarts(rel);
    assert Segments(base + rel);
    if base == [] {
      assert base + rel == rel && Join(base) == "";
    } else {
      JoinStarts(base);
      JoinConcat(base, rel);
    }
    assert Joined(Join(base), Join(rel)) == Join(base + rel);
    JoinStarts(base + rel);
    SplitJoin(base + rel);
  }

  lemma {:induction false} JoinStarts(parts: Parts)
    requires parts != [] && Segments(parts)
    ensures var s := Join(parts); s != "" && s[0] != '/' && s[|s| - 1] != '/'
    decreases |parts|
  {
    assert '/' !in parts[0] && parts[0][0] in parts[0];
    if |parts| > 1 {
      JoinStarts(parts[1..]);
    } else {
      var last := parts[0];
      assert last[|last| - 1] in last;
    }
  }

  lemma AbsolutePath(cwd: Parts, parts: Parts)
    requires Clean(cwd) && parts != [] && Clean(parts)
    ensures Joined("/" + Join(cwd), Join(parts)) == "/" + Join(cwd + parts)
  {
    hide Join;
    JoinStarts(parts);
    if cwd == [] {
      JoinNone();
      assert cwd + parts == parts;
    } else {
      JoinStarts(cwd);
      JoinConcat(cwd, parts);
    }
  }

  lemma JoinNone()
    ensures Join([]) == ""
  {
  }

  lemma AbsoluteParts(cwd: Parts, parts: Parts)
    requires Clean(cwd) && parts != [] && Clean(parts)
    ensures Named(Split(Absolute(Join(parts), "/" + Join(cwd)))) == cwd + parts
  {
    hide Join, Joined, Normal, Named, Split;
    AbsolutePath(cwd, parts);
    JoinStarts(parts);
    Rooted(cwd + parts);
  }

  lemma RootedJoin(parts: Parts)
    requires parts != []
    ensures Join([""] + parts) == "/" + Join(parts)
  {
    assert ([""] + parts)[1..] == parts;
  }

  lemma KeptEmpty()
    ensures Kept([""], true) == []
  {
    assert Kept([], true) == [];
  }

  lemma NamedRooted(parts: Parts)
    ensures Named([""] + parts) == Named(parts)
  {
    assert ([""] + parts)[1..] == parts;
  }

  lemma Rooted(parts: Parts)
    requires parts != [] && Clean(parts)
    ensures Named(Split(Normal("/" + Join(parts)))) == parts
  {
    hide Split, Join, Kept, Named;
    var path, all := "/" + Join(parts), [""] + parts;
    RootedJoin(parts);
    JoinStarts(parts);
    SplitJoin(all);
    KeptEmpty();
    KeptOver([""], parts, true);
    assert [] + parts == parts;
    assert Slashes(path) == 1 && Root(1) == "/";
    NamedRooted(parts);
    NamedClean(parts);
  }

  lemma {:induction false} NamedClean(parts: Parts)
    requires Clean(parts)
    ensures Named(parts) == parts
  {
    if parts != [] {
      assert Plain(parts[0]);
      NamedClean(parts[1..]);
    }
  }

  // The working directory is common to both, so it does not show.
  lemma RelativeParts(at: Parts, from: Parts, to: Parts)
    requires Clean(at) && from != [] && Clean(from) && to != [] && Clean(to) && Join(to) != ""
    ensures var i := Common(from, to);
            var parts := Ups(|from| - i) + to[i..];
            Relative(Join(to), Join(from), "/" + Join(at)) == if parts == [] then "." else Join(parts)
  {
    hide Normal, Joined, Absolute, Named, Split, Plain, Join, Common;
    AbsoluteParts(at, from);
    AbsoluteParts(at, to);
    CommonPast(at, from, to);
    var i := Common(from, to);
    assert (at + to)[|at| + i..] == to[i..];
  }

  /**
    From any directory inside the reference to any file inside it: the relative
    path `relpath` gives, joined to the directory and normalised, is the file's
    path again, at any depth and whatever the working directory is.
   */
  lemma RelativeResolves(target: string, base: string, cwd: string)
    requires Inside(target) && (Inside(base) || base == "") && Directory(cwd)
    ensures Normal(Joined(base, if base == "" then target else Relative(target, base, cwd))) == target
  {
    hide Normal, Joined, Relative, Common, Plain, Join;
    var to: Parts :| to != [] && Clean(to) && target == Join(to);
    if base == "" {
      ResolvesDown(to);
    } else {
      var at: Parts :| Clean(at) && cwd == "/" + Join(at);
      var from: Parts :| from != [] && Clean(from) && base == Join(from);
      RelativeParts(at, from, to);
      Resolves(from, to, Common(from, to));
    }
  }

  lemma {:induction false} CommonPast(at: Parts, from: Parts, to: Parts)
    ensures Common(at + from, at + to) == |at| + Common(from, to)
  {
    if at == [] {
      assert at + from == from && at + to == to;
    } else {
      assert (at + from)[1..] == at[1..] + from && (at + to)[1..] == at[1..] + to;
      CommonPast(at[1..], from, to);
    }
  }

  // Joined and normalised: what is kept of the directory's parts and the path's.
  lemma NormalJoined(base: Parts, rel: Parts, to: Parts)
    requires Clean(base) && rel != [] && Segments(rel)
    requires to != [] && Clean(to) && Kept(base + rel, false) == to
    ensures Normal(Joined(Join(base), Join(rel))) == Join(to)
  {
    hide Split, Join, Joined, Kept;
    JoinedParts(base, rel);
    JoinStarts(to);
    assert Root(0) == "";
  }

  lemma ResolvesDown(rel: Parts)
    requires rel != [] && Clean(rel)
    ensures Normal(Joined("", Join(rel))) == Join(rel)
  {
    hide Split, Joined, Normal;
    KeptOver([], rel, false);
    assert [] + rel == rel;
    assert Join([]) == "";
    NormalJoined([], rel, rel);
  }

  lemma KeptClimb(from: Parts, to: Parts, i: nat)
    requires Clean(from) && Clean(to)
    requires i <= |from| && i <= |to| && from[..i] == to[..i]
    ensures Kept(from + (Ups(|from| - i) + to[i..]), false) == to
  {
    hide Plain, Kept;
    var ups := Ups(|from| - i);
    KeptUps(from, |from| - i);
    KeptOver(from + ups, to[i..], false);
    assert from + (ups + to[i..]) == (from + ups) + to[i..];
    assert from[..i] + to[i..] == to;
  }

  lemma Resolves(from: Parts, to: Parts, i: nat)
    requires from != [] && Clean(from) && to != [] && Clean(to)
    requires i <= |from| && i <= |to| && from[..i] == to[..i]
    ensures var parts := Ups(|from| - i) + to[i..];
            Normal(Joined(Join(from), if parts == [] then "." else Join(parts))) == Join(to)
  {
    hide Normal, Joined, Kept;
    var parts := Ups(|from| - i) + to[i..];
    KeptClimb(from, to, i);
    assert Segments(Ups(|from| - i)) && Segments(to[i..]);
    if parts == [] {
      KeptDot(from);
      assert from + parts == from;
      assert Join(["."]) == ".";
      NormalJoined(from, ["."], to);
    } else {
      NormalJoined(from, parts, to);
    }
  }

  lemma KeptDot(from: Parts)
    ensures Kept(from + ["."], false) == Kept(from, false)
  {
    assert (from + ["."])[..|from|] == from;
  }
}
