/**
  What a path means: the directory one ends in that walks it part by part. Normalising
  a path, joining two, and taking a path's directory are held to it.
 */
module PathMeaning {
  import opened Paths
  import opened Links

  // One part further: up at "..", nowhere at "." or an empty part, else down.
  function Stepped(at: Parts, part: string): Parts {
    if part == "" || part == "." then at
    else if part != ".." then at + [part]
    else if at == [] then []
    else at[..|at| - 1]
  }

  function Walk(at: Parts, parts: Parts): Parts {
    if parts == [] then at else Stepped(Walk(at, parts[..|parts| - 1]), parts[|parts| - 1])
  }

  predicate FromRoot(path: string) {
    path != "" && path[0] == '/'
  }

  // Where a path leads from a directory: above the root there is only the root.
  function Destination(path: string, at: Parts): Parts {
    Walk(if FromRoot(path) then [] else at, Split(path))
  }

  lemma {:induction false} WalkOver(at: Parts, a: Parts, b: Parts)
    ensures Walk(at, a + b) == Walk(Walk(at, a), b)
    decreases |b|
  {
    if b == [] {
      assert a + b == a;
    } else {
      WalkOver(at, a, b[..|b| - 1]);
      assert (a + b)[..|a + b| - 1] == a + b[..|b| - 1];
    }
  }

  lemma SplitFirst(a: string, b: string)
    requires '/' !in a
    ensures Split(a + "/" + b) == [a] + Split(b)
  {
    FindFirst(a, '/', b);
    assert (a + "/" + b)[|a| + 1..] == b && (a + "/" + b)[..|a|] == a;
  }

  lemma {:induction false} SplitOver(a: string, b: string)
    ensures Split(a + "/" + b) == Split(a) + Split(b)
    decreases |a|
  {
    hide Split, Find;
    var n := Find(a, '/');
    if n == |a| {
      SplitFirst(a, b);
      SplitWord(a);
    } else {
      var first, rest := a[..n], a[n + 1..];
      SplitOver(rest, b);
      assert a == first + "/" + rest;
      SplitFirst(first, rest);
      assert a + "/" + b == first + "/" + (rest + "/" + b);
      SplitFirst(first, rest + "/" + b);
      assert [first] + (Split(rest) + Split(b)) == ([first] + Split(rest)) + Split(b);
    }
  }

  lemma SplitWord(s: string)
    requires '/' !in s
    ensures Split(s) == [s]
  {
  }

  // ---- normpath ------------------------------------------------------------

  lemma PushedWalks(at: Parts, kept: Parts, part: string, rooted: bool)
    requires Normalised(kept) && '/' !in part && (rooted ==> at == [] && ".." !in kept)
    ensures Walk(at, Pushed(kept, part, rooted)) == Stepped(Walk(at, kept), part)
    ensures rooted ==> ".." !in Pushed(kept, part, rooted)
  {
    assert (kept + [part])[..|kept|] == kept;
  }

  lemma {:induction false} KeptWalks(at: Parts, parts: Parts, rooted: bool)
    requires (forall i :: 0 <= i < |parts| ==> '/' !in parts[i]) && (rooted ==> at == [])
    ensures Walk(at, Kept(parts, rooted)) == Walk(at, parts)
    ensures rooted ==> ".." !in Kept(parts, rooted)
    decreases |parts|
  {
    if parts != [] {
      var n := |parts| - 1;
      KeptWalks(at, parts[..n], rooted);
      KeptShape(parts[..n], rooted);
      PushedWalks(at, Kept(parts[..n], rooted), parts[n], rooted);
    }
  }

  // A path of these parts leads where they do.
  lemma JoinWalks(at: Parts, parts: Parts)
    requires Segments(parts)
    ensures Walk(at, Split(Join(parts))) == Walk(at, parts)
  {
    hide Join, Split;
    if parts == [] {
      JoinNone();
      SplitWord("");
    } else {
      SplitJoin(parts);
    }
  }

  // An empty part leads nowhere.
  lemma WalkSlash(at: Parts, s: string)
    ensures Walk(at, Split("/" + s)) == Walk(at, Split(s))
    ensures Walk(at, Split(s + "/")) == Walk(at, Split(s))
  {
    hide Split;
    SplitWord("");
    SplitOver("", s);
    SplitOver(s, "");
    assert "" + "/" + s == "/" + s && s + "/" + "" == s + "/";
    WalkOver(at, [""], Split(s));
    WalkOver(at, Split(s), [""]);
    assert Walk(at, [""]) == at;
  }

  lemma RootWalks(at: Parts, n: nat, s: string)
    requires n <= 2
    ensures Walk(at, Split(Root(n) + s)) == Walk(at, Split(s))
  {
    hide Split, Walk;
    WalkSlash(at, s);
    WalkSlash(at, "/" + s);
    assert Root(0) + s == s;
    assert Root(1) + s == "/" + s;
    assert Root(2) + s == "/" + ("/" + s);
  }

  lemma DotWalks(at: Parts)
    ensures Split(".") == ["."] && Walk(at, ["."]) == at && Walk(at, []) == at
  {
  }

  lemma EmptyWalks(at: Parts)
    ensures Walk(at, [""]) == at && Walk(at, Split("")) == at
  {
  }

  lemma NormalStarts(path: string)
    ensures FromRoot(Normal(path)) == FromRoot(path)
  {
    hide Split, Kept, Join;
    var kept := Kept(Split(path), Slashes(path) > 0);
    KeptShape(Split(path), Slashes(path) > 0);
    if Slashes(path) > 0 {
      assert (Root(Slashes(path)) + Join(kept))[0] == '/';
    } else {
      assert Root(0) + Join(kept) == Join(kept);
      JoinedStart(kept);
    }
  }

  // Parts joined start with no slash.
  lemma JoinedStart(kept: Parts)
    requires Segments(kept)
    ensures Join(kept) == "" <==> kept == []
    ensures Join(kept) != "" ==> Join(kept)[0] != '/'
  {
    if kept != [] {
      assert kept[0][0] in kept[0];
    }
  }

  lemma NormalNone()
    ensures Normal("") == "." && Kept(Split(""), false) == [] && Slashes("") == 0
  {
    SplitWord("");
  }

  // One slash, or exactly two, which POSIX leaves as they are.
  function Opening(path: string): string {
    if !FromRoot(path) then "" else if "//" <= path && !("///" <= path) then "//" else "/"
  }

  lemma OpeningIs(path: string)
    ensures Root(Slashes(path)) == Opening(path)
  {
    assert Root(0) == "" && Root(1) == "/" && Root(2) == "//";
  }

  /**
    A normal path is a slash, or two where there were exactly two, if it is from the root,
    and its parts, none of them empty or a dot, with steps up only at its start, where a
    path from the root has none; a dot stands for none.
   */
  lemma NormalCanonical(path: string) returns (kept: Parts)
    ensures Normalised(kept) && (FromRoot(path) ==> ".." !in kept)
    ensures Normal(path) == if kept == [] && !FromRoot(path) then "." else Opening(path) + Join(kept)
    ensures forall at :: Walk(if FromRoot(path) then [] else at, kept) == Destination(path, at)
  {
    hide Split, Kept, Join, Walk;
    kept := Kept(Split(path), Slashes(path) > 0);
    KeptWalks([], Split(path), Slashes(path) > 0);
    KeptShape(Split(path), Slashes(path) > 0);
    JoinedStart(kept);
    NormalNone();
    OpeningIs(path);
    assert Root(0) + Join(kept) == Join(kept);
    forall at ensures Walk(if FromRoot(path) then [] else at, kept) == Destination(path, at) {
      KeptWalks(if FromRoot(path) then [] else at, Split(path), Slashes(path) > 0);
    }
  }

  /** A normal path leads where the path did, from wherever one starts. */
  lemma NormalLeads(path: string, at: Parts)
    ensures Destination(Normal(path), at) == Destination(path, at)
  {
    hide Split, Join, Walk, Normal;
    var kept := NormalCanonical(path);
    var from := if FromRoot(path) then [] else at;
    NormalStarts(path);
    assert Walk(from, kept) == Destination(path, at);
    if kept == [] && !FromRoot(path) {
      DotWalks(at);
    } else {
      OpeningIs(path);
      RootWalks(from, Slashes(path), Join(kept));
      JoinWalks(from, kept);
    }
  }

  // ---- join and dirname ----------------------------------------------------

  /** A joined path leads where its second half does, from where the first one leads. */
  lemma JoinedLeads(a: string, b: string, at: Parts)
    ensures Destination(Joined(a, b), at) == Destination(b, Destination(a, at))
  {
    hide Split, Walk;
    var from := if FromRoot(a) then [] else at;
    if FromRoot(b) {
    } else if a == "" {
      EmptyWalks(at);
      assert a + b == b;
    } else if a[|a| - 1] == '/' {
      var init := a[..|a| - 1];
      assert a == init + "/" && a + b == init + "/" + b;
      assert (a + b)[0] == a[0];
      SplitOver(init, b);
      WalkSlash(from, init);
      WalkOver(from, Split(init), Split(b));
    } else {
      assert (a + "/" + b)[0] == a[0];
      SplitOver(a, b);
      WalkOver(from, Split(a), Split(b));
    }
  }

  lemma {:induction false} StripLeads(s: string, at: Parts)
    ensures Walk(at, Split(RStripSlashes(s))) == Walk(at, Split(s))
    ensures RStripSlashes(s) <= s
    decreases |s|
  {
    hide Split, Walk;
    if s != "" && s[|s| - 1] == '/' {
      var init := s[..|s| - 1];
      StripLeads(init, at);
      assert s == init + "/";
      WalkSlash(at, init);
    }
  }

  lemma {:induction false} StrippedAway(s: string)
    requires RStripSlashes(s) == ""
    ensures s == Root(|s|)
    decreases |s|
  {
    if s != "" {
      StrippedAway(s[..|s| - 1]);
    }
  }

  lemma DirStripped(head: string, at: Parts)
    ensures var dir := if head == Root(|head|) then head else RStripSlashes(head);
            Walk(at, Split(dir)) == Walk(at, Split(head)) && FromRoot(dir) == FromRoot(head)
  {
    hide Split, Walk, RStripSlashes;
    StripLeads(head, at);
    if RStripSlashes(head) == "" {
      StrippedAway(head);
    }
  }

  /** A path leads one part, its last, beyond its directory. */
  lemma DirLeads(path: string, at: Parts) returns (last: string)
    ensures '/' !in last && |last| <= |path| && path[|path| - |last|..] == last
    ensures |last| < |path| ==> path[|path| - |last| - 1] == '/'
    ensures Destination(path, at) == Stepped(Destination(DirName(path), at), last)
  {
    hide Split, Walk, RStripSlashes;
    var n := FindLast(path, '/');
    last := path[n + 1..];
    SplitWord(last);
    if n < 0 {
      assert path == last && path[..0] == "" && Root(0) == "";
      EmptyWalks(at);
      WalkLast(at, [], last);
    } else {
      HeadLeads(path[..n], last, at);
      assert path == path[..n] + "/" + last && path[..n + 1] == path[..n] + "/";
    }
  }

  lemma HeadLeads(init: string, last: string, at: Parts)
    requires '/' !in last
    ensures var head := init + "/";
            var dir := if head == Root(|head|) then head else RStripSlashes(head);
            Destination(init + "/" + last, at) == Stepped(Destination(dir, at), last)
  {
    hide Split, Walk, RStripSlashes, Stepped;
    var path := init + "/" + last;
    assert path[0] == (init + "/")[0];
    var from := if FromRoot(path) then [] else at;
    DirStripped(init + "/", from);
    SplitOver(init, last);
    SplitWord(last);
    WalkSlash(from, init);
    WalkLast(from, Split(init), last);
  }

  lemma WalkLast(at: Parts, parts: Parts, last: string)
    ensures Walk(at, parts + [last]) == Stepped(Walk(at, parts), last)
    ensures Walk(at, [last]) == Stepped(at, last)
  {
    assert (parts + [last])[..|parts|] == parts;
  }

  /** The checker finds a link to lead where its path does, from the directory of the file it is in. */
  lemma ReachedLeads(source: string, path: string, unquote: string -> string, at: Parts)
    ensures Destination(Reached(source, path, unquote), at) ==
            Destination(unquote(path), Destination(DirName(source), at))
  {
    hide Normal, Joined, DirName, Destination;
    NormalLeads(Joined(DirName(source), unquote(path)), at);
    JoinedLeads(DirName(source), unquote(path), at);
  }

  // ---- what is reported ----------------------------------------------------

  // The target up to its first hash, or all of it.
  predicate UpToHash(target: string, path: string) {
    path <= target && '#' !in path && (|path| < |target| ==> target[|path|] == '#')
  }

  function AfterHash(target: string, path: string): string {
    if |path| < |target| then target[|path| + 1..] else ""
  }

  /** A target is cut at its first hash. */
  lemma PartitionExactly(target: string, path: string, anchor: string)
    ensures Partition(target) == (path, anchor) <==>
            UpToHash(target, path) && anchor == AfterHash(target, path)
  {
    var n := Find(target, '#');
    if UpToHash(target, path) {
      assert target == path + target[|path|..];
      FindFirst(path, '#', if |path| < |target| then target[|path| + 1..] else "");
      assert |path| < |target| ==> target == path + ['#'] + target[|path| + 1..];
      assert |path| == |target| ==> target == path;
      assert target[..|path|] == path;
    }
  }

  // A path out of the reference: from the root, or a step up first.
  predicate Leaves(reached: string) {
    FromRoot(reached) || Split(reached)[0] == ".."
  }

  lemma FirstIs(path: string)
    ensures Split(path)[0] == path[..Find(path, '/')]
  {
  }

  lemma FirstPart(path: string)
    ensures Split(path)[0] == ".." <==> path == ".." || "../" <= path
  {
    hide Split, Find;
    FirstIs(path);
    SplitWord("..");
    if "../" <= path {
      SplitFirst("..", path[3..]);
      assert path == ".." + "/" + path[3..];
    }
  }

  /**
    A link is reported exactly if its path is there, is not a link elsewhere, and leads to
    no file of the build and to none of the reference on disk: one that leads out of the
    reference is reported whatever is there.
   */
  lemma ReportedExactly(files: map<string, seq<string>>, onDisk: set<string>, source: string, path: string,
                        unquote: string -> string)
    requires source in files
    ensures (source, path) in DanglingIn(files, onDisk, source, unquote) <==>
            && path != "" && !("http://" <= path) && !("https://" <= path) && !("mailto:" <= path)
            && (exists k :: 0 <= k < |files[source]| && UpToHash(files[source][k], path))
            && var reached := Reached(source, path, unquote);
               reached !in files && (reached !in onDisk || Leaves(reached))
  {
    hide Reached, Partition, UpToHash, Split;
    FirstPart(Reached(source, path, unquote));
    forall k | 0 <= k < |files[source]|
      ensures Partition(files[source][k]).0 == path <==> UpToHash(files[source][k], path)
    {
      var (own, anchor) := Partition(files[source][k]);
      PartitionExactly(files[source][k], own, anchor);
      PartitionExactly(files[source][k], path, AfterHash(files[source][k], path));
    }
  }
}
