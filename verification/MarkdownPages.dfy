/**
  The pages `scripts/build_llms_txt.py` assembles: which of a page's lines are
  prose and which are fenced code, and the pass that leaves a page with one
  level-one heading and rubrics that nest. A page is its lines here.
 */
module MarkdownPages {
  import opened Wrappers
  import opened Text

  type Line = string
  type Lines = seq<string>

  // ---- fences --------------------------------------------------------------

  // How many of the text's first characters are this one.
  function Run(s: string, c: char): (n: nat)
    ensures n <= |s| && (forall i :: 0 <= i < n ==> s[i] == c) && (n < |s| ==> s[n] != c)
  {
    if s == [] || s[0] != c then 0 else 1 + Run(s[1..], c)
  }

  // FENCE and the rule on a backtick fence's info string: the fence a line opens, or "".
  function OpensFence(line: Line): (fence: string)
    ensures fence != "" ==> |fence| >= 3 && fence[0] in "`~"
  {
    var s := Strip(line);
    if Run(s, '`') >= 3 then if '`' in s[Run(s, '`')..] then "" else s[..Run(s, '`')]
    else if Run(s, '~') >= 3 then s[..Run(s, '~')]
    else ""
  }

  // The same character alone, and at least as many of it.
  predicate Closes(fence: string, line: Line)
    requires fence != ""
  {
    var s := Strip(line);
    |s| >= |fence| && Run(s, fence[0]) == |s|
  }

  function NextFence(fence: string, line: Line): string {
    if fence == "" then OpensFence(line) else if Closes(fence, line) then "" else fence
  }

  // The fence still open before the line at `i`.
  function FenceAt(lines: Lines, i: nat): string
    requires i <= |lines|
  {
    if i == 0 then "" else NextFence(FenceAt(lines, i - 1), lines[i - 1])
  }

  predicate ProseAt(lines: Lines, i: nat)
    requires i < |lines|
  {
    FenceAt(lines, i) == "" && OpensFence(lines[i]) == ""
  }

  function Prose(lines: Lines): (r: seq<bool>)
    ensures |r| == |lines|
  {
    seq(|lines|, i requires 0 <= i < |lines| => ProseAt(lines, i))
  }

  method ProseLines(lines: Lines) returns (prose: seq<bool>)
    ensures prose == Prose(lines)
  {
    hide OpensFence, Closes;
    var fence := "";
    prose := [];
    var i := 0;
    while i < |lines|
      invariant 0 <= i <= |lines| && |prose| == i
      invariant fence == FenceAt(lines, i)
      invariant prose == Prose(lines)[..i]
    {
      ghost var before := prose;
      if fence != "" {
        prose := prose + [false];
        if Closes(fence, lines[i]) {
          fence := "";
        }
      } else {
        var opening := OpensFence(lines[i]);
        prose := prose + [opening == ""];
        fence := opening;
      }
      assert prose == before + [Prose(lines)[i]];
      i := i + 1;
    }
  }

  // ---- headings ------------------------------------------------------------

  datatype Heading = Heading(level: nat, text: string)

  // HEADING. A heading of nothing but spaces still has its last one for a text.
  function HeadingOf(line: Line): (r: Option<Heading>)
    ensures r.Some? ==> 1 <= r.value.level <= 6 && HeadingText(r.value.text)
  {
    var k := Run(line, '#');
    if !(1 <= k <= 6) || k == |line| || !IsSpace(line[k]) then None
    else
      var text := RStrip(LStrip(line[k..]));
      if text != "" then
        StripKeepsStart(LStrip(line[k..]));
        Some(Heading(k, text))
      else if |line| >= k + 2 then
        BlankOf(line[k..]);
        Some(Heading(k, [line[|line| - 1]]))
      else None
  }

  predicate HeadingText(text: string) {
    text != "" && (|text| == 1 || (!IsSpace(text[0]) && !IsSpace(text[|text| - 1])))
  }

  lemma StripKeepsStart(s: string)
    ensures RStrip(s) != "" ==> s != "" && RStrip(s)[0] == s[0]
  {
  }

  lemma {:induction false} BlankOf(s: string)
    requires RStrip(LStrip(s)) == ""
    ensures Blank(s)
    decreases |s|
  {
    if s != "" && IsSpace(s[0]) {
      BlankOf(s[1..]);
    } else if s != "" {
      InkStays(s);
    }
  }

  lemma {:induction false} InkStays(s: string)
    requires s != "" && !IsSpace(s[0])
    ensures RStrip(s) != ""
    decreases |s|
  {
    if IsSpace(s[|s| - 1]) {
      InkStays(s[..|s| - 1]);
    }
  }

  // ---- as_page -------------------------------------------------------------

  datatype Rules = Rules(rubrics: set<string>, level: int)
  datatype Seen = Seen(h1: bool, depth: nat)

  predicate Rubric(h: Heading, depth: nat, rules: Rules) {
    h.text in rules.rubrics && h.level == rules.level && depth >= rules.level
  }

  function Hash(n: nat): (s: string)
    ensures |s| == n && forall i :: 0 <= i < n ==> s[i] == '#'
  {
    seq(n, _ => '#')
  }

  function Min(a: nat, b: nat): nat {
    if a < b then a else b
  }

  // What becomes of a prose line, and what has been seen after it.
  function Put(line: Line, seen: Seen, rules: Rules): (Line, Seen) {
    match HeadingOf(line)
    case None => (line, seen)
    case Some(h) =>
      if Rubric(h, seen.depth, rules) then (Hash(Min(seen.depth + 1, 6)) + " " + h.text, seen)
      else if h.level > 1 then (line, seen.(depth := h.level))
      else if seen.h1 then ("#" + line, Seen(true, 2))
      else (line, Seen(true, 1))
  }

  function SeenAt(lines: Lines, i: nat, rules: Rules): Seen
    requires i <= |lines|
  {
    if i == 0 then Seen(false, 0)
    else if ProseAt(lines, i - 1) then Put(lines[i - 1], SeenAt(lines, i - 1, rules), rules).1
    else SeenAt(lines, i - 1, rules)
  }

  function LineAt(lines: Lines, i: nat, rules: Rules): Line
    requires i < |lines|
  {
    if ProseAt(lines, i) then Put(lines[i], SeenAt(lines, i, rules), rules).0 else lines[i]
  }

  function Lined(lines: Lines, rules: Rules): (r: Lines)
    ensures |r| == |lines|
  {
    seq(|lines|, i requires 0 <= i < |lines| => LineAt(lines, i, rules))
  }

  function Titled(title: string, lines: Lines): Lines {
    ["# " + title, ""] + lines
  }

  function Page(lines: Lines, title: string, rules: Rules): Lines {
    if SeenAt(lines, |lines|, rules).h1 then Lined(lines, rules) else Titled(title, Lined(lines, rules))
  }

  // The body of the loop, on a prose line.
  method PutLine(prose: Line, seen: bool, depth: nat, rules: Rules) returns (line: Line, seen': bool, depth': nat)
    ensures (line, Seen(seen', depth')) == Put(prose, Seen(seen, depth), rules)
  {
    line, seen', depth' := prose, seen, depth;
    var heading := HeadingOf(prose);
    if heading.Some? {
      var h := heading.value;
      if h.text in rules.rubrics && h.level == rules.level && depth >= rules.level {
        line := Hash(Min(depth + 1, 6)) + " " + h.text;
      } else if h.level > 1 {
        depth' := h.level;
      } else {
        if seen {
          line, depth' := "#" + prose, 2;
        } else {
          depth' := 1;
        }
        seen' := true;
      }
    }
  }

  lemma SeenFirst(lines: Lines, rules: Rules)
    ensures SeenAt(lines, 0, rules) == Seen(false, 0)
  {
  }

  lemma SeenNext(lines: Lines, i: nat, rules: Rules)
    requires i < |lines|
    ensures (LineAt(lines, i, rules), SeenAt(lines, i + 1, rules)) ==
            if Prose(lines)[i] then Put(lines[i], SeenAt(lines, i, rules), rules)
            else (lines[i], SeenAt(lines, i, rules))
  {
    hide HeadingOf, Put, OpensFence, FenceAt;
  }

  method AsPage(lines: Lines, title: string, rules: Rules) returns (page: Lines)
    ensures page == Page(lines, title, rules)
  {
    hide HeadingOf, Put, OpensFence, FenceAt, SeenAt, LineAt;
    var prose := ProseLines(lines);
    SeenFirst(lines, rules);
    page := [];
    var seen: bool, depth: nat := false, 0;
    var i := 0;
    while i < |lines|
      invariant 0 <= i <= |lines| && |page| == i
      invariant Seen(seen, depth) == SeenAt(lines, i, rules)
      invariant page == Lined(lines, rules)[..i]
    {
      SeenNext(lines, i, rules);
      var line := lines[i];
      if prose[i] {
        line, seen, depth := PutLine(line, seen, depth, rules);
      }
      page := page + [line];
      i := i + 1;
    }
    assert page == Lined(lines, rules);
    if !seen {
      page := Titled(title, page);
    }
  }
}
