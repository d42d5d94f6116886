/** What `scripts/build_llms_txt.py` takes for a fence and for a heading, character by character. */
module PageLines {
  import opened Wrappers
  import opened Text
  import opened MarkdownPages

  lemma {:induction false} RunIs(s: string, c: char, n: nat)
    requires n <= |s| && (forall i :: 0 <= i < n ==> s[i] == c) && (n < |s| ==> s[n] != c)
    ensures Run(s, c) == n
  {
    if n > 0 {
      RunIs(s[1..], c, n - 1);
    }
  }

  // ---- fences --------------------------------------------------------------

  // The text is nothing but the fence's character, and at least as long as the fence.
  predicate ClosesWith(fence: string, text: string)
    requires fence != ""
  {
    |text| >= |fence| && forall i :: 0 <= i < |text| ==> text[i] == fence[0]
  }

  // The text starts with the fence: three or more backticks and no backtick after
  // them, or three or more tildes and no tilde right after them.
  predicate OpensWith(text: string, fence: string) {
    && 3 <= |fence| <= |text|
    && (forall i :: 0 <= i < |fence| ==> text[i] == fence[i] == fence[0])
    && (|fence| < |text| ==> text[|fence|] != fence[0])
    && (fence[0] == '~' || (fence[0] == '`' && forall i :: |fence| <= i < |text| ==> text[i] != '`'))
  }

  /** A line closes a fence exactly if, stripped, it is that fence's character alone, and enough of it. */
  lemma ClosesExactly(fence: string, line: Line)
    requires fence != ""
    ensures Closes(fence, line) <==> ClosesWith(fence, Strip(line))
  {
    hide Strip;
    var text := Strip(line);
    if ClosesWith(fence, text) {
      RunIs(text, fence[0], |text|);
    }
  }

  /** A line opens a fence exactly if, stripped, it starts with it, and opens none if it starts with none. */
  lemma OpensExactly(line: Line, fence: string)
    requires fence != ""
    ensures OpensFence(line) == fence <==> OpensWith(Strip(line), fence)
  {
    hide Strip;
    var text := Strip(line);
    if OpensWith(text, fence) {
      RunIs(text, fence[0], |fence|);
      if fence[0] == '~' {
        RunIs(text, '`', 0);
      } else {
        NoMore(text, '`', |fence|);
      }
      assert text[..|fence|] == fence;
    } else if OpensFence(line) == fence {
      OpenedFence(line);
    }
  }

  lemma NoMore(text: string, c: char, n: nat)
    requires n <= |text| && forall i :: n <= i < |text| ==> text[i] != c
    ensures c !in text[n..]
  {
  }

  lemma OpenedFence(line: Line)
    requires OpensFence(line) != ""
    ensures OpensWith(Strip(line), OpensFence(line))
  {
    hide Strip;
    var text := Strip(line);
    var n := Run(text, '`');
    if n >= 3 {
      forall i | n <= i < |text| ensures text[i] != '`' {
        assert text[n..][i - n] == text[i];
      }
    }
  }

  // ---- headings ------------------------------------------------------------

  // The line is hashes, whitespace, the text from `i` to `j`, and whitespace.
  ghost predicate HeadingParts(line: Line, level: nat, text: string, i: nat, j: nat) {
    && level < i < j <= |line| && line[i..j] == text
    && (forall k :: 0 <= k < level ==> line[k] == '#') && Blank(line[level..i]) && Blank(line[j..])
  }

  // The text has no whitespace at its ends, or is the line's last character where all else is whitespace.
  ghost predicate HeadingSpan(line: Line, level: nat, text: string, i: nat, j: nat) {
    && 1 <= level <= 6 && HeadingParts(line, level, text, i, j)
    && ((!IsSpace(text[0]) && !IsSpace(text[|text| - 1])) || (i == |line| - 1 && IsSpace(text[0])))
  }

  lemma InkHeads(line: Line, level: nat, text: string, i: nat, j: nat)
    requires HeadingParts(line, level, text, i, j)
    requires !IsSpace(text[0]) && !IsSpace(text[|text| - 1])
    ensures IsSpace(line[level]) && RStrip(LStrip(line[level..])) == text
  {
    hide LStrip, RStrip, Strip, IsSpace;
    var rest := line[level..];
    assert line[level..i][0] == line[level];
    assert rest[..i - level] == line[level..i] && rest[j - level..] == line[j..];
    assert rest[i - level..j - level] == text;
    assert rest[i - level] == text[0] && rest[j - level - 1] == text[|text| - 1];
    StripIs(rest, i - level, j - level);
    StripIsBoth(rest);
  }

  lemma BlankHeads(line: Line, level: nat, text: string, i: nat, j: nat)
    requires HeadingParts(line, level, text, i, j) && i == |line| - 1 && IsSpace(text[0])
    ensures IsSpace(line[level]) && RStrip(LStrip(line[level..])) == "" && text == [line[|line| - 1]]
  {
    hide LStrip, RStrip, Strip, IsSpace;
    var rest := line[level..];
    assert line[level..i][0] == line[level];
    assert rest == line[level..i] + text;
    StripIs(rest, |rest|, |rest|);
    StripIsBoth(rest);
  }

  lemma StripIsBoth(s: string)
    ensures Strip(s) == RStrip(LStrip(s))
  {
  }

  lemma SpanHeads(line: Line, level: nat, text: string, i: nat, j: nat)
    requires HeadingSpan(line, level, text, i, j)
    ensures HeadingOf(line) == Some(Heading(level, text))
  {
    hide LStrip, RStrip, Strip, HeadingText, IsSpace;
    if IsSpace(text[0]) {
      BlankHeads(line, level, text, i, j);
    } else {
      InkHeads(line, level, text, i, j);
    }
    NoHash(line[level]);
    RunIs(line, '#', level);
  }

  lemma NoHash(c: char)
    requires IsSpace(c)
    ensures c != '#'
  {
  }

  lemma HeadSpans(line: Line) returns (i: nat, j: nat)
    requires HeadingOf(line).Some?
    ensures HeadingSpan(line, HeadingOf(line).value.level, HeadingOf(line).value.text, i, j)
  {
    hide LStrip, RStrip, Strip, HeadingText, IsSpace;
    var level := Run(line, '#');
    var rest := line[level..];
    var a, b := StripSpan(rest);
    StripIsBoth(rest);
    assert rest[0] == line[level];
    if a < b {
      i, j := level + a, level + b;
      assert rest[..a] == line[level..i] && rest[b..] == line[j..] && rest[a..b] == line[i..j];
    } else {
      i, j := |line| - 1, |line|;
      BlankOf(rest);
      assert line[level..i] == rest[..|rest| - 1];
      assert line[i] == rest[|rest| - 1];
    }
  }

  /**
    A line is a heading of this level and text exactly if it is that many hashes,
    whitespace, the text, and whitespace.
   */
  lemma HeadingExactly(line: Line, level: nat, text: string)
    ensures HeadingOf(line) == Some(Heading(level, text)) <==>
            exists i: nat, j: nat :: HeadingSpan(line, level, text, i, j)
  {
    hide HeadingOf, HeadingSpan;
    if HeadingOf(line) == Some(Heading(level, text)) {
      var i, j := HeadSpans(line);
    } else if exists i: nat, j: nat :: HeadingSpan(line, level, text, i, j) {
      var i: nat, j: nat :| HeadingSpan(line, level, text, i, j);
      SpanHeads(line, level, text, i, j);
    }
  }
}
