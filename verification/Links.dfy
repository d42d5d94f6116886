/**
  The links `scripts/build_llms_txt.py` rewrites and the links it then checks.
  The pattern that finds a link in a line is not part of this model: a file is
  the link targets of its prose lines, in order.
 */
module Links {
  import opened Wrappers
  import opened Paths
  import opened Text

  // ---- dirname and partition -----------------------------------------------

  function FindLast(s: string, c: char): (n: int)
    ensures -1 <= n < |s| && (n >= 0 ==> s[n] == c) && forall i :: n < i < |s| ==> s[i] != c
  {
    if s == "" then -1 else if s[|s| - 1] == c then |s| - 1 else FindLast(s[..|s| - 1], c)
  }

  function RStripSlashes(s: string): string {
    if s == "" || s[|s| - 1] != '/' then s else RStripSlashes(s[..|s| - 1])
  }

  // `posixpath.dirname`.
  function DirName(path: string): string {
    var head := path[..FindLast(path, '/') + 1];
    if head == Root(|head|) then head else RStripSlashes(head)
  }

  // `target.partition("#")`, without the separator.
  function Partition(target: string): (string, string) {
    var n := Find(target, '#');
    if n == |target| then (target, "") else (target[..n], target[n + 1..])
  }

  // ---- relink --------------------------------------------------------------

  // The working directory is `cwd`, which `relpath` consults.
  function Toward(target: string, base: string, cwd: string): string
    requires target != ""
  {
    if base != "" then Relative(target, base, cwd) else target
  }

  // What one link of a page is rewritten to, or nothing if it is left as it is.
  function Relinked(target: string, source: string, published: map<string, string>, here: string, anchors: bool,
                    cwd: string): Option<string>
    requires source in published && forall s :: s in published ==> published[s] != ""
  {
    var (path, anchor) := Partition(target);
    var suffix := if anchor != "" then "#" + anchor else "";
    var base := DirName(here);
    if path == "" then
      if published[source] == here then None else Some(Toward(published[source], base, cwd) + suffix)
    else
      var resolved := Normal(Joined(DirName(source), path));
      if resolved in published || StartsWith(resolved, "_media/") then
        var destination := if resolved in published then published[resolved] else resolved[1..];
        Some(Toward(destination, base, cwd) + if anchors || EndsWith(destination, ".html") then suffix else "")
      else None
  }

  // Where a link of a page is meant to lead: the page itself, a page of this
  // build, or an asset, which is published without the underscore.
  function Meant(target: string, source: string, published: map<string, string>): Option<string>
    requires source in published
  {
    var path := Partition(target).0;
    var resolved := Normal(Joined(DirName(source), path));
    if path == "" then Some(published[source])
    else if resolved in published then Some(published[resolved])
    else if StartsWith(resolved, "_media/") then Some(resolved[1..])
    else None
  }

  // ---- broken --------------------------------------------------------------

  predicate Elsewhere(target: string) {
    StartsWith(target, "http://") || StartsWith(target, "https://") || StartsWith(target, "mailto:")
  }

  // Where the checker finds a link of the file `source` to lead.
  function Reached(source: string, path: string, unquote: string -> string): string {
    Normal(Joined(DirName(source), unquote(path)))
  }

  predicate Resolves(onDisk: set<string>, reached: string) {
    !(StartsWith(reached, "/") || reached == ".." || StartsWith(reached, "../")) && reached in onDisk
  }

  // A link of the file `source` that reaches nothing.
  predicate Dangles(files: map<string, seq<string>>, onDisk: set<string>, source: string, path: string,
                    unquote: string -> string)
  {
    && path != "" && !Elsewhere(path)
    && Reached(source, path, unquote) !in files && !Resolves(onDisk, Reached(source, path, unquote))
  }

  function DanglingIn(files: map<string, seq<string>>, onDisk: set<string>, source: string, unquote: string -> string)
    : set<(string, string)>
    requires source in files
  {
    set k | 0 <= k < |files[source]| && Dangles(files, onDisk, source, Partition(files[source][k]).0, unquote)
      :: (source, Partition(files[source][k]).0)
  }

  method BrokenIn(files: map<string, seq<string>>, onDisk: set<string>, source: string, unquote: string -> string)
    returns (dangling: set<(string, string)>)
    requires source in files
    ensures dangling == DanglingIn(files, onDisk, source, unquote)
  {
    hide Normal, Joined, DirName, Partition, Elsewhere, StartsWith;
    dangling := {};
    var links := files[source];
    var i := 0;
    while i < |links|
      invariant 0 <= i <= |links|
      invariant dangling == set k | 0 <= k < i && Dangles(files, onDisk, source, Partition(links[k]).0, unquote)
                              :: (source, Partition(links[k]).0)
    {
      var path := Partition(links[i]).0;
      if path != "" && !Elsewhere(path) {
        var reached := Reached(source, path, unquote);
        if reached !in files && !Resolves(onDisk, reached) {
          dangling := dangling + {(source, path)};
        }
      }
      i := i + 1;
    }
  }

  method Broken(files: map<string, seq<string>>, onDisk: set<string>, unquote: string -> string)
    returns (dangling: set<(string, string)>)
    ensures forall source, path :: (source, path) in dangling <==>
              source in files && (source, path) in DanglingIn(files, onDisk, source, unquote)
  {
    hide DanglingIn;
    dangling := {};
    var left := files.Keys;
    while left != {}
      invariant left <= files.Keys
      invariant forall source, path :: (source, path) in dangling <==>
                  source in files && source !in left && (source, path) in DanglingIn(files, onDisk, source, unquote)
      decreases left
    {
      var source :| source in left;
      var more := BrokenIn(files, onDisk, source, unquote);
      forall pair | pair in more ensures pair.0 == source {
        DanglingHere(files, onDisk, source, unquote, pair);
      }
      dangling, left := dangling + more, left - {source};
    }
  }

  lemma DanglingHere(files: map<string, seq<string>>, onDisk: set<string>, source: string, unquote: string -> string,
                     pair: (string, string))
    requires source in files && pair in DanglingIn(files, onDisk, source, unquote)
    ensures pair.0 == source
  {
  }

  // ---- rewritten links reach what they are meant to ------------------------

  // A path that is published: inside the reference, and nothing in it a URL would read otherwise.
  ghost predicate Publishable(path: string) {
    Inside(path) && '#' !in path && '%' !in path
  }

  ghost predicate Unescapes(unquote: string -> string) {
    forall s :: '%' !in s ==> unquote(s) == s
  }

  lemma {:induction false} JoinChars(parts: Parts, c: char)
    requires c != '/' && forall i :: 0 <= i < |parts| ==> c !in parts[i]
    ensures c !in Join(parts)
    decreases |parts|
  {
    if |parts| > 1 {
      JoinChars(parts[1..], c);
    }
  }

  lemma {:induction false} PartChars(parts: Parts, c: char, i: nat)
    requires c !in Join(parts) && i < |parts|
    ensures c !in parts[i]
    decreases |parts|
  {
    if |parts| > 1 {
      var s := Join(parts);
      assert s == parts[0] + "/" + Join(parts[1..]);
      if i > 0 {
        assert s[|parts[0]| + 1..] == Join(parts[1..]);
        PartChars(parts[1..], c, i - 1);
      } else {
        assert s[..|parts[0]|] == parts[0];
      }
    }
  }

  lemma TowardChars(target: string, base: string, cwd: string, c: char)
    requires Inside(target) && (Inside(base) || base == "") && Directory(cwd) && c !in target && c != '/' && c != '.'
    ensures c !in Toward(target, base, cwd)
  {
    hide Relative, Join, Plain;
    if base != "" {
      var to: Parts :| to != [] && Clean(to) && target == Join(to);
      var at: Parts :| Clean(at) && cwd == "/" + Join(at);
      var from: Parts :| from != [] && Clean(from) && base == Join(from);
      RelativeParts(at, from, to);
      var i := Common(from, to);
      var parts := Ups(|from| - i) + to[i..];
      forall k | 0 <= k < |parts| ensures c !in parts[k] {
        if k >= |from| - i {
          PartChars(to, c, k - (|from| - i) + i);
        }
      }
      JoinChars(parts, c);
    }
  }

  lemma PartitionOf(path: string, anchor: string)
    requires '#' !in path
    ensures Partition(path + if anchor != "" then "#" + anchor else "") == (path, anchor)
    ensures Partition(path) == (path, "")
  {
    FindFirst(path, '#', anchor);
    assert path + "#" + anchor == path + ("#" + anchor);
    assert path + "" == path;
  }

  // Joining and normalising what `toward` gives leads back, percent signs or not in sight.
  lemma TowardReaches(target: string, here: string, cwd: string, unquote: string -> string)
    requires Publishable(target) && Inside(here) && Directory(cwd) && Unescapes(unquote)
    ensures '#' !in Toward(target, DirName(here), cwd)
    ensures Reached(here, Toward(target, DirName(here), cwd), unquote) == target
  {
    hide Relative, Normal, Joined, DirName;
    DirInside(here);
    TowardChars(target, DirName(here), cwd, '#');
    TowardChars(target, DirName(here), cwd, '%');
    RelativeResolves(target, DirName(here), cwd);
  }

  lemma DirInside(path: string)
    requires Inside(path)
    ensures DirName(path) == "" || Inside(DirName(path))
  {
    hide DirName;
    var parts: Parts :| parts != [] && Clean(parts) && path == Join(parts);
    DirParts(parts);
    var dir := parts[..|parts| - 1];
    if dir != [] {
      JoinStarts(dir);
    }
  }

  lemma DirOfHead(head: string, last: string)
    requires '/' !in last && (head == "" || head[|head| - 1] == '/')
    ensures DirName(head + last) == if head == Root(|head|) then head else RStripSlashes(head)
  {
    LastSlash(head, last);
    assert (head + last)[..|head|] == head;
  }

  lemma JoinOne(part: string)
    ensures Join([part]) == part
  {
  }

  lemma LastJoined(parts: Parts)
    requires |parts| > 1
    ensures Join(parts) == Join(parts[..|parts| - 1]) + "/" + parts[|parts| - 1]
  {
    hide Join;
    var n := |parts| - 1;
    JoinConcat(parts[..n], [parts[n]]);
    JoinOne(parts[n]);
    assert parts[..n] + [parts[n]] == parts;
  }

  lemma DirParts(parts: Parts)
    requires parts != [] && Clean(parts)
    ensures DirName(Join(parts)) == Join(parts[..|parts| - 1])
  {
    hide DirName, RStripSlashes, Join;
    var n := |parts| - 1;
    var dir, last := parts[..n], parts[n];
    if n == 0 {
      JoinOne(last);
      JoinNone();
      DirOfHead("", last);
      assert parts == [last] && dir == [] && "" + last == last && Root(0) == "";
    } else {
      JoinStarts(dir);
      LastJoined(parts);
      HeadStripped(Join(dir));
      DirOfHead(Join(dir) + "/", last);
    }
  }

  lemma HeadStripped(dir: string)
    requires dir != "" && dir[0] != '/' && dir[|dir| - 1] != '/'
    ensures dir + "/" != Root(|dir| + 1) && RStripSlashes(dir + "/") == dir
  {
    assert (dir + "/")[0] == dir[0] && Root(|dir| + 1)[0] == '/';
    assert (dir + "/")[..|dir|] == dir;
  }

  lemma {:induction false} LastSlash(head: string, last: string)
    requires '/' !in last && (head == "" || head[|head| - 1] == '/')
    ensures FindLast(head + last, '/') == |head| - 1
    decreases |last|
  {
    if last == "" {
      assert head + last == head;
    } else {
      var n := |last| - 1;
      assert (head + last)[..|head| + n] == head + last[..n];
      LastSlash(head, last[..n]);
    }
  }

  // ---- assets --------------------------------------------------------------

  // What normalising keeps: nothing empty, no dots, and no step up below a name.
  ghost predicate Normalised(kept: Parts) {
    && Segments(kept) && (forall i :: 0 <= i < |kept| ==> kept[i] != ".")
    && forall i :: 0 < i < |kept| && kept[i] == ".." ==> kept[i - 1] == ".."
  }

  lemma {:induction false} KeptShape(parts: Parts, rooted: bool)
    requires forall i :: 0 <= i < |parts| ==> '/' !in parts[i]
    ensures Normalised(Kept(parts, rooted))
    decreases |parts|
  {
    if parts != [] {
      KeptShape(parts[..|parts| - 1], rooted);
    }
  }

  lemma {:induction false} KeptChars(parts: Parts, rooted: bool, c: char)
    requires forall i :: 0 <= i < |parts| ==> c !in parts[i]
    ensures forall i :: 0 <= i < |Kept(parts, rooted)| ==> c !in Kept(parts, rooted)[i]
    decreases |parts|
  {
    if parts != [] {
      KeptChars(parts[..|parts| - 1], rooted, c);
    }
  }

  lemma {:induction false} SplitChars(s: string, c: char)
    requires c !in s
    ensures forall i :: 0 <= i < |Split(s)| ==> c !in Split(s)[i]
    decreases |s|
  {
    var n := Find(s, '/');
    if n < |s| {
      SplitChars(s[n + 1..], c);
    }
  }

  lemma NormalChars(path: string, c: char)
    requires c !in path && c != '/' && c != '.'
    ensures c !in Normal(path)
  {
    hide Split, Kept;
    SplitChars(path, c);
    KeptChars(Split(path), Slashes(path) > 0, c);
    JoinChars(Kept(Split(path), Slashes(path) > 0), c);
  }

  lemma {:induction false} NamesOnly(kept: Parts, i: nat)
    requires Normalised(kept) && i < |kept| && kept[0] != ".."
    ensures Plain(kept[i])
  {
    if i > 0 {
      NamesOnly(kept, i - 1);
    }
  }

  lemma RootStarts(path: string)
    ensures Slashes(path) > 0 ==> Normal(path) != "" && Normal(path)[0] == '/'
  {
    hide Split, Kept;
    if Slashes(path) > 0 {
      assert Root(Slashes(path))[0] == '/';
    }
  }

  lemma AssetInside(path: string)
    requires StartsWith(Normal(path), "_media/")
    ensures Inside(Normal(path)[1..])
  {
    hide Split, Kept, Plain;
    var kept := Kept(Split(path), Slashes(path) > 0);
    var resolved := Normal(path);
    KeptShape(Split(path), Slashes(path) > 0);
    assert resolved[..7] == "_media/";
    assert resolved[0] == '_' && resolved[1] == 'm';
    RootStarts(path);
    assert Root(0) == "";
    assert resolved == Join(kept);
    AssetParts(kept);
  }

  lemma AssetParts(kept: Parts)
    requires Normalised(kept) && StartsWith(Join(kept), "_media/")
    ensures Inside(Join(kept)[1..])
  {
    var s := Join(kept);
    assert s[..7] == "_media/";
    assert kept != [];
    var first := kept[0];
    assert |kept| > 1 && first == "_media" by {
      assert s[6] == '/';
      assert '/' !in first;
      assert s[6] in s;
      FindFirst(first, '/', Join(kept[1..]));
      FindFirst("_media", '/', s[7..]);
      assert s == first + "/" + Join(kept[1..]);
      assert s == "_media" + "/" + s[7..];
      assert Find(s, '/') == |first| == 6;
      assert s[..6] == first && s[..6] == "_media";
    }
    var parts := ["media"] + kept[1..];
    forall i | 0 <= i < |parts| ensures Plain(parts[i]) {
      if i > 0 {
        NamesOnly(kept, i);
      }
    }
    assert parts[1..] == kept[1..];
    assert s[1..] == "media" + "/" + Join(kept[1..]) == Join(parts);
  }

  // ---- the rewriter and its checker ----------------------------------------

  // Where every link of a page is meant to lead can be published.
  lemma MeantPublishable(target: string, source: string, published: map<string, string>)
    requires source in published && '%' !in target && '%' !in source && '#' !in source
    requires forall s :: s in published ==> published[s] != "" && Publishable(published[s])
    requires Meant(target, source, published).Some?
    ensures Publishable(Meant(target, source, published).value)
  {
    hide Normal, Joined, DirName;
    var path := Partition(target).0;
    var joined := Joined(DirName(source), path);
    if path != "" && Normal(joined) !in published {
      AssetInside(joined);
      forall c | c == '#' || c == '%' ensures c !in Normal(joined)[1..] {
        JoinedChars(source, path, c);
        NormalChars(joined, c);
      }
    }
  }

  lemma JoinedChars(source: string, path: string, c: char)
    requires c !in source && c !in path && c != '/'
    ensures c !in Joined(DirName(source), path)
  {
    StripChars(source[..FindLast(source, '/') + 1], c);
  }

  lemma {:induction false} StripChars(s: string, c: char)
    requires c !in s
    ensures c !in RStripSlashes(s)
    decreases |s|
  {
    if s != "" && s[|s| - 1] == '/' {
      StripChars(s[..|s| - 1], c);
    }
  }

  /**
    The checker finds a rewritten link to lead, from the file it is published in,
    exactly where it was meant to; and every link meant to lead somewhere in the
    build is rewritten, but for an anchor into the file it is in.
   */
  lemma RelinkedReaches(target: string, source: string, published: map<string, string>, here: string, anchors: bool,
                        cwd: string, unquote: string -> string)
    requires source in published && '%' !in target && '%' !in source && '#' !in source
    requires forall s :: s in published ==> published[s] != "" && Publishable(published[s])
    requires Inside(here) && Directory(cwd) && Unescapes(unquote)
    ensures var link := Relinked(target, source, published, here, anchors, cwd);
            var meant := Meant(target, source, published);
            && (link.Some? <==> meant.Some? && !(Partition(target).0 == "" && published[source] == here))
            && (link.Some? ==>
                  && Reached(here, Partition(link.value).0, unquote) == meant.value
                  && (anchors || EndsWith(meant.value, ".html") || Partition(target).0 == "" ==>
                        Partition(link.value).1 == Partition(target).1)
                  && (!anchors && !EndsWith(meant.value, ".html") && Partition(target).0 != "" ==>
                        Partition(link.value).1 == ""))
  {
    hide Normal, Joined, DirName, Partition, Toward, Reached, EndsWith, StartsWith;
    var meant := Meant(target, source, published);
    if meant.Some? {
      MeantPublishable(target, source, published);
      TowardReaches(meant.value, here, cwd, unquote);
      PartitionOf(Toward(meant.value, DirName(here), cwd), Partition(target).1);
      var toward := Toward(meant.value, DirName(here), cwd);
      assert toward + "" == toward;
    }
  }

  /** A rewritten link dangles only if what it was meant to reach is not published. */
  lemma RelinkedNeverDangles(
      target: string, source: string, published: map<string, string>, here: string, anchors: bool, cwd: string,
      unquote: string -> string, files: map<string, seq<string>>, onDisk: set<string>)
    requires source in published && '%' !in target && '%' !in source && '#' !in source
    requires forall s :: s in published ==> published[s] != "" && Publishable(published[s])
    requires Inside(here) && Directory(cwd) && Unescapes(unquote)
    requires Relinked(target, source, published, here, anchors, cwd).Some?
    requires Meant(target, source, published).value in files.Keys + onDisk
    ensures var link := Relinked(target, source, published, here, anchors, cwd).value;
            !Dangles(files, onDisk, here, Partition(link).0, unquote)
  {
    hide Normal, Joined, DirName, Partition, Toward, Reached, Elsewhere, Relinked, Meant;
    RelinkedReaches(target, source, published, here, anchors, cwd, unquote);
    MeantSome(target, source, published, here, anchors, cwd);
    MeantPublishable(target, source, published);
    if Meant(target, source, published).value !in files {
      InsideResolves(Meant(target, source, published).value, onDisk);
    }
  }

  lemma MeantSome(
      target: string, source: string, published: map<string, string>, here: string, anchors: bool, cwd: string)
    requires source in published && forall s :: s in published ==> published[s] != ""
    requires Relinked(target, source, published, here, anchors, cwd).Some?
    ensures Meant(target, source, published).Some?
  {
    hide Normal, Joined, DirName, Partition, Toward, EndsWith;
  }

  lemma InsideResolves(path: string, onDisk: set<string>)
    requires Inside(path) && path in onDisk
    ensures Resolves(onDisk, path)
  {
    var parts: Parts :| parts != [] && Clean(parts) && path == Join(parts);
    JoinStarts(parts);
    var first := parts[0];
    assert Plain(first);
    if |parts| > 1 {
      assert path == first + "/" + Join(parts[1..]);
      FindFirst(first, '/', Join(parts[1..]));
    } else {
      FindFirst(first, '/', "");
    }
    assert path[..Find(path, '/')] == first;
    if StartsWith(path, "../") {
      assert path == ".." + "/" + path[3..];
      FindFirst("..", '/', path[3..]);
      assert false;
    }
    if path == ".." {
      FindFirst("..", '/', "");
      assert false;
    }
  }
}
