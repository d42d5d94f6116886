/** What `as_page` promises of the page it returns, and of being given it again. */
module PageNormalForm {
  import opened Wrappers
  import opened Text
  import opened MarkdownPages
  import opened PageLines

  // ---- headings stay headings ----------------------------------------------

  lemma StripStart(s: string)
    requires s != "" && !IsSpace(s[0])
    ensures Strip(s) != "" && Strip(s)[0] == s[0]
  {
    InkStays(s);
  }

  // A heading opens no fence.
  lemma HeadingIsProse(line: Line)
    requires HeadingOf(line).Some?
    ensures OpensFence(line) == ""
  {
    StripStart(line);
  }

  lemma {:induction false} StripText(text: string)
    requires text != "" && !IsSpace(text[0]) && !IsSpace(text[|text| - 1])
    ensures RStrip(LStrip(" " + text)) == text
  {
    assert (" " + text)[1..] == text;
  }

  // A heading written out is read back: HEADING takes its level and its text again.
  lemma Reparsed(level: nat, text: string)
    requires 1 <= level <= 6 && HeadingText(text)
    ensures HeadingOf(Hash(level) + " " + text) == Some(Heading(level, text))
  {
    var line := Hash(level) + " " + text;
    RunIs(line, '#', level);
    assert line[level..] == " " + text;
    if !IsSpace(text[0]) && !IsSpace(text[|text| - 1]) {
      StripText(text);
    } else {
      assert text == [text[0]];
      BlankStrips(" " + text);
    }
  }

  lemma {:induction false} BlankStrips(s: string)
    requires Blank(s)
    ensures RStrip(LStrip(s)) == ""
    decreases |s|
  {
    if s != "" {
      BlankStrips(s[1..]);
    }
  }

  // A hash more is a level more.
  lemma Demoted(line: Line)
    requires HeadingOf(line).Some? && HeadingOf(line).value.level < 6
    ensures HeadingOf("#" + line) == Some(Heading(HeadingOf(line).value.level + 1, HeadingOf(line).value.text))
  {
    hide RStrip, LStrip, HeadingText;
    var k := HeadingOf(line).value.level;
    RunIs("#" + line, '#', k + 1);
    assert ("#" + line)[k + 1..] == line[k..];
  }

  lemma TitleLine(title: string)
    ensures OpensFence("# " + title) == "" && OpensFence("") == "" && HeadingOf("").None?
    ensures HeadingOf("# " + title).Some? <==> title != ""
    ensures title != "" ==> HeadingOf("# " + title).value.level == 1
  {
    var line := "# " + title;
    StripStart(line);
    RunIs(line, '#', 1);
    assert line[1..] == " " + title;
    if title == "" {
      BlankStrips(" " + title);
    }
  }

  lemma RubricMoves(h: Heading, depth: nat, rules: Rules)
    requires Rubric(h, depth, rules) && 1 <= h.level <= 6 && HeadingText(h.text)
    ensures HeadingOf(Hash(Min(depth + 1, 6)) + " " + h.text) == Some(Heading(Min(depth + 1, 6), h.text))
    ensures Min(depth + 1, 6) > 1 && h.level <= Min(depth + 1, 6) <= 6
  {
    Reparsed(Min(depth + 1, 6), h.text);
  }

  // What the pass leaves of a heading.
  ghost predicate Moved(before: Heading, after: Option<Heading>) {
    after.Some? && after.value.text == before.text && after.value.level >= before.level
  }

  /** A heading stays a heading of the same text; only a second level-one heading or a rubric moves, and only down. */
  lemma PutKeeps(line: Line, seen: Seen, rules: Rules)
    ensures HeadingOf(line).None? ==> Put(line, seen, rules) == (line, seen)
    ensures var (put, then') := Put(line, seen, rules);
            HeadingOf(line).Some? ==>
              && Moved(HeadingOf(line).value, HeadingOf(put))
              && (HeadingOf(put).value.level == 1 <==> then'.h1 && !seen.h1)
    ensures seen.h1 ==> Put(line, seen, rules).1.h1
  {
    hide HeadingOf;
    if HeadingOf(line).Some? {
      var h := HeadingOf(line).value;
      if Rubric(h, seen.depth, rules) {
        RubricMoves(h, seen.depth, rules);
      } else if h.level == 1 && seen.h1 {
        Demoted(line);
      }
    }
  }

  // ---- where code begins and ends ------------------------------------------

  // The prose line at `o` opened this fence, and no line between there and `i` closes it.
  ghost predicate OpenFrom(lines: Lines, o: nat, i: nat, fence: string) {
    && o < i <= |lines| && fence != ""
    && FenceAt(lines, o) == "" && OpensWith(Strip(lines[o]), fence)
    && forall k :: o < k < i ==> !ClosesWith(fence, Strip(lines[k]))
  }

  lemma {:induction false} OpenSince(lines: Lines, i: nat) returns (o: nat)
    requires i <= |lines| && FenceAt(lines, i) != ""
    ensures OpenFrom(lines, o, i, FenceAt(lines, i))
  {
    hide OpensFence, Closes, OpensWith, ClosesWith, Strip;
    var fence := FenceAt(lines, i);
    if FenceAt(lines, i - 1) == "" {
      o := i - 1;
      OpensExactly(lines[o], fence);
    } else {
      o := OpenSince(lines, i - 1);
      ClosesExactly(fence, lines[i - 1]);
    }
  }

  lemma {:induction false} OpenUntil(lines: Lines, o: nat, i: nat, fence: string)
    requires OpenFrom(lines, o, i, fence)
    ensures FenceAt(lines, i) == fence
    decreases i
  {
    hide OpensFence, Closes, OpensWith, ClosesWith, Strip;
    if i > o + 1 {
      OpenUntil(lines, o, i - 1, fence);
      ClosesExactly(fence, lines[i - 1]);
    } else {
      OpensExactly(lines[o], fence);
    }
  }

  /** A fence is open before a line exactly if a prose line above it opened that fence and none since has closed it. */
  lemma FencedExactly(lines: Lines, i: nat, fence: string)
    requires i <= |lines| && fence != ""
    ensures FenceAt(lines, i) == fence <==> exists o :: OpenFrom(lines, o, i, fence)
  {
    hide OpenFrom, FenceAt;
    if FenceAt(lines, i) == fence {
      var o := OpenSince(lines, i);
    } else if exists o :: OpenFrom(lines, o, i, fence) {
      var o :| OpenFrom(lines, o, i, fence);
      OpenUntil(lines, o, i, fence);
    }
  }

  /** A line is prose exactly if no fence is open before it and it opens none. */
  lemma ProseExactly(lines: Lines, i: nat)
    requires i < |lines|
    ensures ProseAt(lines, i) <==>
            && (forall o, fence :: !OpenFrom(lines, o, i, fence))
            && forall fence :: !OpensWith(Strip(lines[i]), fence)
  {
    hide OpenFrom, OpensFence, OpensWith, FenceAt, Strip;
    var fenced, opening := FenceAt(lines, i), OpensFence(lines[i]);
    if fenced != "" {
      var o := OpenSince(lines, i);
    } else if opening != "" {
      OpensExactly(lines[i], opening);
    }
    if o, fence :| OpenFrom(lines, o, i, fence) {
      OpenedSomething(lines, o, i, fence);
      FencedExactly(lines, i, fence);
    }
    if fence :| OpensWith(Strip(lines[i]), fence) {
      OpensSomething(Strip(lines[i]), fence);
      OpensExactly(lines[i], fence);
    }
  }

  lemma OpenedSomething(lines: Lines, o: nat, i: nat, fence: string)
    requires OpenFrom(lines, o, i, fence)
    ensures fence != "" && i <= |lines|
  {
  }

  lemma OpensSomething(text: string, fence: string)
    requires OpensWith(text, fence)
    ensures fence != ""
  {
  }

  lemma PutIsProse(line: Line, seen: Seen, rules: Rules)
    requires OpensFence(line) == ""
    ensures OpensFence(Put(line, seen, rules).0) == ""
  {
    PutKeeps(line, seen, rules);
    if HeadingOf(line).Some? {
      HeadingIsProse(Put(line, seen, rules).0);
    }
  }

  lemma LineFence(lines: Lines, rules: Rules, i: nat)
    requires i < |lines|
    ensures NextFence(FenceAt(lines, i), LineAt(lines, i, rules)) == NextFence(FenceAt(lines, i), lines[i])
  {
    hide OpensFence, Closes, HeadingOf, Put, SeenAt, FenceAt;
    if ProseAt(lines, i) {
      PutIsProse(lines[i], SeenAt(lines, i, rules), rules);
    }
  }

  lemma {:induction false} SameFences(lines: Lines, rules: Rules, i: nat)
    requires i <= |lines|
    ensures FenceAt(Lined(lines, rules), i) == FenceAt(lines, i)
  {
    hide NextFence, LineAt;
    if i > 0 {
      SameFences(lines, rules, i - 1);
      LineFence(lines, rules, i - 1);
    }
  }

  lemma SameProse(lines: Lines, rules: Rules, i: nat)
    requires i < |lines|
    ensures ProseAt(Lined(lines, rules), i) == ProseAt(lines, i)
  {
    SameFences(lines, rules, i);
    if ProseAt(lines, i) {
      PutIsProse(lines[i], SeenAt(lines, i, rules), rules);
    }
  }

  lemma {:induction false} TitledFences(title: string, lines: Lines, i: nat)
    requires i <= |lines|
    ensures FenceAt(Titled(title, lines), i + 2) == FenceAt(lines, i)
  {
    hide HeadingOf, OpensFence;
    TitleLine(title);
    var titled := Titled(title, lines);
    if i == 0 {
      assert FenceAt(titled, 1) == "";
    } else {
      TitledFences(title, lines, i - 1);
      assert titled[i + 1] == lines[i - 1];
    }
  }

  // Whether a line was given a place two lines further down.
  function Shift(lines: Lines, rules: Rules): nat {
    if SeenAt(lines, |lines|, rules).h1 then 0 else 2
  }

  /** Each line is prose after the pass exactly if it was before. */
  lemma ClassificationKept(lines: Lines, title: string, rules: Rules, i: nat)
    requires i < |lines|
    ensures var page := Page(lines, title, rules);
            |page| == |lines| + Shift(lines, rules) && ProseAt(page, i + Shift(lines, rules)) == ProseAt(lines, i)
  {
    hide OpensFence, FenceAt, LineAt;
    SameProse(lines, rules, i);
    if Shift(lines, rules) == 2 {
      TitledFences(title, Lined(lines, rules), i);
      assert Titled(title, Lined(lines, rules))[i + 2] == Lined(lines, rules)[i];
    }
  }

  /** A fenced line, and a prose line that is no heading, is the one it was. */
  lemma OnlyHeadingsMove(lines: Lines, title: string, rules: Rules, i: nat)
    requires i < |lines|
    ensures var put := Page(lines, title, rules)[i + Shift(lines, rules)];
            if ProseAt(lines, i) && HeadingOf(lines[i]).Some? then Moved(HeadingOf(lines[i]).value, HeadingOf(put))
            else put == lines[i]
  {
    hide OpensFence, HeadingOf, Put;
    PutKeeps(lines[i], SeenAt(lines, i, rules), rules);
  }

  // ---- nesting -------------------------------------------------------------

  // A heading that is not put back under another: its text is no rubric's, or its
  // level is not theirs, or what it would go under is above that level.
  predicate Leads(lines: Lines, i: nat, rules: Rules)
    requires i < |lines|
  {
    && ProseAt(lines, i) && HeadingOf(lines[i]).Some?
    && var h := HeadingOf(lines[i]).value;
       h.text !in rules.rubrics || h.level != rules.level || SeenAt(lines, i, rules).depth < rules.level
  }

  // The depth is the level, on the page, of the last such heading; none yet is level zero.
  lemma {:induction false} DepthIs(lines: Lines, i: nat, rules: Rules) returns (j: int)
    requires i <= |lines|
    ensures -1 <= j < i && forall k :: j < k < i ==> !Leads(lines, k, rules)
    ensures var depth := SeenAt(lines, i, rules).depth;
            if j < 0 then depth == 0
            else Leads(lines, j, rules) && HeadingOf(LineAt(lines, j, rules)).Some? &&
                 HeadingOf(LineAt(lines, j, rules)).value.level == depth
    decreases i
  {
    hide HeadingOf, ProseAt;
    j := -1;
    if i > 0 {
      j := DepthIs(lines, i - 1, rules);
      if Leads(lines, i - 1, rules) {
        j := i - 1;
        LeadDepth(lines[j], SeenAt(lines, j, rules), rules);
      }
    }
  }

  lemma LeadDepth(line: Line, seen: Seen, rules: Rules)
    requires HeadingOf(line).Some? && !Rubric(HeadingOf(line).value, seen.depth, rules)
    ensures var (put, then') := Put(line, seen, rules);
            HeadingOf(put).Some? && HeadingOf(put).value.level == then'.depth
  {
    hide HeadingOf;
    if HeadingOf(line).value.level == 1 && seen.h1 {
      Demoted(line);
    }
  }

  /** A rubric at or above the heading it followed is put one level under it, or as deep as headings go. */
  lemma RubricNests(lines: Lines, i: nat, rules: Rules) returns (j: nat)
    requires i < |lines| && ProseAt(lines, i) && HeadingOf(lines[i]).Some? && !Leads(lines, i, rules)
    ensures j < i && Leads(lines, j, rules) && forall k :: j < k < i ==> !Leads(lines, k, rules)
    ensures var above, put := HeadingOf(LineAt(lines, j, rules)), HeadingOf(LineAt(lines, i, rules));
            && above.Some? && put.Some?
            && put.value.level == Min(above.value.level + 1, 6) && put.value.text == HeadingOf(lines[i]).value.text
  {
    hide HeadingOf, ProseAt, SeenAt;
    var h, depth := HeadingOf(lines[i]).value, SeenAt(lines, i, rules).depth;
    RubricMoves(h, depth, rules);
    j := DepthIs(lines, i, rules);
  }

  // A level-one heading that leads stands before the line.
  ghost predicate HasH1(lines: Lines, i: nat, rules: Rules)
    requires i <= |lines|
  {
    exists k: nat :: k < i && Leads(lines, k, rules) && HeadingOf(lines[k]).value.level == 1
  }

  lemma {:induction false} H1Exactly(lines: Lines, i: nat, rules: Rules)
    requires i <= |lines|
    ensures SeenAt(lines, i, rules).h1 <==> HasH1(lines, i, rules)
  {
    hide HeadingOf, ProseAt;
    if i > 0 {
      H1Exactly(lines, i - 1, rules);
    }
  }

  /** A heading that leads stays as it is, but for a level-one heading after the first, which gets one hash more. */
  lemma LeadStays(lines: Lines, i: nat, rules: Rules)
    requires i < |lines| && Leads(lines, i, rules)
    ensures var line := LineAt(lines, i, rules);
            if HeadingOf(lines[i]).value.level == 1 && HasH1(lines, i, rules) then line == "#" + lines[i]
            else line == lines[i]
  {
    hide HeadingOf, ProseAt, SeenAt;
    H1Exactly(lines, i, rules);
  }

  /**
    A page without a level-one heading that leads opens with the title as one, and an
    empty line; else nothing is added.
   */
  lemma TitleExactly(lines: Lines, title: string, rules: Rules)
    ensures var page := Page(lines, title, rules);
            if HasH1(lines, |lines|, rules) then |page| == |lines|
            else |page| == |lines| + 2 && page[0] == "# " + title && page[1] == ""
  {
    hide SeenAt, HasH1, LineAt;
    H1Exactly(lines, |lines|, rules);
  }

  // ---- one level-one heading -----------------------------------------------

  predicate H1At(lines: Lines, i: nat)
    requires i < |lines|
  {
    ProseAt(lines, i) && HeadingOf(lines[i]).Some? && HeadingOf(lines[i]).value.level == 1
  }

  function H1s(lines: Lines, i: nat): nat
    requires i <= |lines|
  {
    if i == 0 then 0 else H1s(lines, i - 1) + if H1At(lines, i - 1) then 1 else 0
  }

  lemma {:induction false} OneOnceSeen(lines: Lines, rules: Rules, i: nat)
    requires i <= |lines|
    ensures H1s(Lined(lines, rules), i) == if SeenAt(lines, i, rules).h1 then 1 else 0
  {
    hide FenceAt, ProseAt, HeadingOf, Put;
    if i > 0 {
      OneOnceSeen(lines, rules, i - 1);
      SameProse(lines, rules, i - 1);
      PutKeeps(lines[i - 1], SeenAt(lines, i - 1, rules), rules);
    }
  }

  lemma {:induction false} TitledH1s(title: string, lines: Lines, i: nat)
    requires i <= |lines|
    ensures H1s(Titled(title, lines), i + 2) == H1s(lines, i) + if title != "" then 1 else 0
  {
    hide HeadingOf, OpensFence;
    var titled := Titled(title, lines);
    TitleLine(title);
    if i == 0 {
      assert H1s(titled, 0) == 0 && H1At(titled, 0) == (title != "") && !H1At(titled, 1);
    } else {
      TitledH1s(title, lines, i - 1);
      TitledFences(title, lines, i - 1);
      assert titled[i + 1] == lines[i - 1];
      assert H1At(titled, i + 1) == H1At(lines, i - 1);
    }
  }

  /** A page has one level-one heading outside code; only an empty title, on a page with none, leaves it without. */
  lemma ExactlyOneH1(lines: Lines, title: string, rules: Rules)
    ensures var page := Page(lines, title, rules);
            H1s(page, |page|) == if SeenAt(lines, |lines|, rules).h1 || title != "" then 1 else 0
  {
    hide H1s, SeenAt, LineAt;
    OneOnceSeen(lines, rules, |lines|);
    if !SeenAt(lines, |lines|, rules).h1 {
      TitledH1s(title, Lined(lines, rules), |lines|);
    }
  }

  // ---- the pass on its own output ------------------------------------------

  // No rubric is pinned to level two, which is where a second level-one heading is put.
  ghost predicate Settles(rules: Rules) {
    rules.level == 2 ==> forall text :: text in rules.rubrics ==> !HeadingText(text)
  }

  // What the second pass may have seen where the first has seen `a`: the same, or
  // another heading no rubric is above, or the title the first one added.
  ghost predicate Near(a: Seen, b: Seen, rules: Rules) {
    || a.depth == b.depth
    || (rules.level <= a.depth && rules.level <= b.depth)
    || (a == Seen(false, 0) && b == Seen(true, 1))
  }

  lemma RubricAgain(h: Heading, a: Seen, b: Seen, rules: Rules)
    requires Near(a, b, rules) && Rubric(h, a.depth, rules) && 1 <= h.level <= 6 && HeadingText(h.text)
    ensures var put := Hash(Min(a.depth + 1, 6)) + " " + h.text;
            && Put(put, b, rules).0 == put
            && Put(put, b, rules).1.h1 == b.h1
            && Near(a, Put(put, b, rules).1, rules)
  {
    hide HeadingOf;
    RubricMoves(h, a.depth, rules);
  }

  // The second pass leaves a line the first one put alone, and stays near it.
  lemma PutAgain(line: Line, a: Seen, b: Seen, rules: Rules)
    requires Settles(rules) && Near(a, b, rules)
    requires a.h1 == b.h1 || (b.h1 && !Put(line, a, rules).1.h1)
    ensures var (put, a') := Put(line, a, rules);
            && Put(put, b, rules).0 == put
            && Near(a', Put(put, b, rules).1, rules)
            && Put(put, b, rules).1.h1 == (if a.h1 == b.h1 then a'.h1 else true)
  {
    hide HeadingOf;
    if HeadingOf(line).Some? {
      var h := HeadingOf(line).value;
      if Rubric(h, a.depth, rules) {
        RubricAgain(h, a, b, rules);
      } else if h.level == 1 && a.h1 {
        Demoted(line);
      }
    }
  }

  lemma {:induction false} SeenStays(lines: Lines, rules: Rules, i: nat, j: nat)
    requires i <= j <= |lines| && !SeenAt(lines, j, rules).h1
    ensures !SeenAt(lines, i, rules).h1
    decreases j
  {
    hide HeadingOf, Put, ProseAt;
    if i < j {
      PutKeeps(lines[j - 1], SeenAt(lines, j - 1, rules), rules);
      SeenStays(lines, rules, i, j - 1);
    }
  }

  // A page the pass returned: the lines it put, `shift` lines down.
  ghost predicate PageOf(lines: Lines, page: Lines, shift: nat, rules: Rules) {
    && |page| == |lines| + shift
    && (forall k :: 0 <= k < |lines| ==> page[k + shift] == LineAt(lines, k, rules))
    && (forall k :: 0 <= k < |lines| ==> ProseAt(page, k + shift) == ProseAt(lines, k))
  }

  lemma {:induction false} SeenAgain(lines: Lines, page: Lines, shift: nat, rules: Rules, i: nat)
    requires Settles(rules) && PageOf(lines, page, shift, rules) && i <= |lines|
    requires SeenAt(page, shift, rules) == Seen(false, 0) ||
             (SeenAt(page, shift, rules) == Seen(true, 1) && !SeenAt(lines, |lines|, rules).h1)
    ensures Near(SeenAt(lines, i, rules), SeenAt(page, i + shift, rules), rules)
    ensures SeenAt(page, i + shift, rules).h1 == (SeenAt(page, shift, rules).h1 || SeenAt(lines, i, rules).h1)
    ensures i < |lines| ==> LineAt(page, i + shift, rules) == page[i + shift]
  {
    hide HeadingOf, Put, ProseAt;
    if i > 0 {
      SeenAgain(lines, page, shift, rules, i - 1);
      LineAgain(lines, page, shift, rules, i - 1);
    }
    if i < |lines| {
      LineAgain(lines, page, shift, rules, i);
    }
  }

  lemma LineAgain(lines: Lines, page: Lines, shift: nat, rules: Rules, i: nat)
    requires Settles(rules) && PageOf(lines, page, shift, rules) && i < |lines|
    requires SeenAt(page, shift, rules).h1 ==> !SeenAt(lines, |lines|, rules).h1
    requires Near(SeenAt(lines, i, rules), SeenAt(page, i + shift, rules), rules)
    requires SeenAt(page, i + shift, rules).h1 == (SeenAt(page, shift, rules).h1 || SeenAt(lines, i, rules).h1)
    ensures LineAt(page, i + shift, rules) == page[i + shift]
    ensures Near(SeenAt(lines, i + 1, rules), SeenAt(page, i + 1 + shift, rules), rules)
    ensures SeenAt(page, i + 1 + shift, rules).h1 == (SeenAt(page, shift, rules).h1 || SeenAt(lines, i + 1, rules).h1)
  {
    hide HeadingOf, Put, ProseAt;
    assert page[i + shift] == LineAt(lines, i, rules);
    if SeenAt(page, shift, rules).h1 {
      SeenStays(lines, rules, i, |lines|);
      SeenStays(lines, rules, i + 1, |lines|);
    }
    if ProseAt(lines, i) {
      PutAgain(lines[i], SeenAt(lines, i, rules), SeenAt(page, i + shift, rules), rules);
    }
  }

  lemma TitledSeen(title: string, lines: Lines, rules: Rules)
    ensures var page := Titled(title, lines);
            && SeenAt(page, 2, rules) == (if title == "" then Seen(false, 0) else Seen(true, 1))
            && LineAt(page, 0, rules) == page[0] && LineAt(page, 1, rules) == page[1]
  {
    hide HeadingOf, OpensFence;
    TitleLine(title);
    var page := Titled(title, lines);
    assert FenceAt(page, 1) == "" && page[0] == "# " + title && page[1] == "";
    assert SeenAt(page, 1, rules) == Put(page[0], Seen(false, 0), rules).1;
  }

  lemma PageIs(lines: Lines, title: string, rules: Rules)
    ensures PageOf(lines, Page(lines, title, rules), Shift(lines, rules), rules)
  {
    hide HeadingOf, Put, ProseAt, SeenAt;
    forall k | 0 <= k < |lines|
      ensures ProseAt(Page(lines, title, rules), k + Shift(lines, rules)) == ProseAt(lines, k)
    {
      ClassificationKept(lines, title, rules, k);
    }
  }

  /**
    The pass leaves its own output alone, if no rubric is pinned to level two and
    the page it returned has its level-one heading.
   */
  lemma PageAgain(lines: Lines, title: string, rules: Rules)
    requires Settles(rules)
    ensures var page := Page(lines, title, rules);
            Page(page, title, rules) == page <==> SeenAt(lines, |lines|, rules).h1 || title != ""
  {
    hide HeadingOf, Put, ProseAt, LineAt;
    var page, shift := Page(lines, title, rules), Shift(lines, rules);
    PageIs(lines, title, rules);
    if shift == 2 {
      TitledSeen(title, Lined(lines, rules), rules);
    }
    SeenAgain(lines, page, shift, rules, |lines|);
    forall j | 0 <= j < |page| ensures LineAt(page, j, rules) == page[j] {
      if j >= shift {
        SeenAgain(lines, page, shift, rules, j - shift);
      }
    }
    assert Lined(page, rules) == page;
  }

  lemma HashMore(n: nat, text: string)
    ensures "#" + (Hash(n) + " " + text) == Hash(n + 1) + " " + text
  {
  }

  // With a rubric pinned to level two, a level-one heading of its text under a
  // deeper one is put at level two, and from there pushed to three by the next pass.
  lemma RubricAtTwo(text: string, title: string, rules: Rules) returns (lines: Lines)
    requires rules.level == 2 && text in rules.rubrics && HeadingText(text)
    ensures SeenAt(lines, |lines|, rules).h1
    ensures Page(Page(lines, title, rules), title, rules) != Page(lines, title, rules)
  {
    hide HeadingOf, OpensFence;
    var one, two, three := Hash(1) + " " + text, Hash(2) + " " + text, Hash(3) + " " + text;
    Reparsed(1, text);
    Reparsed(2, text);
    Reparsed(3, text);
    HashMore(1, text);
    HeadingIsProse(one);
    HeadingIsProse(two);
    lines := [one, two, one];
    var page := [one, two, two];
    ThreeLines(lines, rules);
    ThreeLines(page, rules);
    assert Lined(lines, rules) == page;
    assert LineAt(page, 2, rules) == three != two == page[2];
    assert Lined(page, rules)[2] == three;
  }

  lemma ThreeLines(lines: Lines, rules: Rules)
    requires |lines| == 3 && forall i :: 0 <= i < 3 ==> OpensFence(lines[i]) == ""
    ensures forall i :: 0 <= i < 3 ==> ProseAt(lines, i)
    ensures SeenAt(lines, 1, rules) == Put(lines[0], Seen(false, 0), rules).1
    ensures SeenAt(lines, 2, rules) == Put(lines[1], SeenAt(lines, 1, rules), rules).1
    ensures SeenAt(lines, 3, rules) == Put(lines[2], SeenAt(lines, 2, rules), rules).1
  {
    hide HeadingOf, OpensFence, Put;
    assert FenceAt(lines, 0) == "";
    assert FenceAt(lines, 1) == "";
    assert FenceAt(lines, 2) == "";
  }

  // Normalising a page twice is normalising it once.
  ghost predicate Idempotent(rules: Rules) {
    forall lines, title :: title != "" ==> Page(Page(lines, title, rules), title, rules) == Page(lines, title, rules)
  }

  /** The pass is idempotent on every titled page, if and only if no rubric is pinned to level two. */
  lemma IdempotentExactly(rules: Rules)
    ensures Idempotent(rules) <==> Settles(rules)
  {
    hide Page;
    if Settles(rules) {
      forall lines, title | title != ""
        ensures Page(Page(lines, title, rules), title, rules) == Page(lines, title, rules)
      {
        PageAgain(lines, title, rules);
      }
    } else {
      var text :| text in rules.rubrics && HeadingText(text);
      var lines := RubricAtTwo(text, "A", rules);
    }
  }
}
