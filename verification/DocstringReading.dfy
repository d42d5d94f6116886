/** What the docstring rewriter takes and gives, line by line and character by character. */
module DocstringReading {
  import opened Wrappers
  import opened Text
  import opened Docstrings
  import opened DocstringRewriting
  import F = DocstringFixedPoint

  // ---- headers and entries -------------------------------------------------

  /** A line opens a section exactly if it is one of the headers and a colon. */
  lemma SectionExactly(line: Line, header: string)
    ensures SectionOf(line) == Some(header) <==> header in HEADERS && line == header + ":"
  {
    assert (header + ":")[..|header|] == header;
    assert |line| > 0 && line[|line| - 1] == ':' ==> line == line[..|line| - 1] + ":";
  }

  // Four spaces, a word, a colon, a space, and whatever comes after.
  predicate OpensEntry(line: Line, name: string) {
    name != [] && (forall i :: 0 <= i < |name| ==> IsWord(name[i])) && "    " + name + ": " <= line
  }

  lemma EntryOpens(line: Line, name: string)
    requires OpensEntry(line, name)
    ensures EntryOf(line) == Some(name)
  {
    var opening := "    " + name + ": ";
    assert line[..4] == opening[..4];
    assert line[4..][..|name|] == opening[4..][..|name|] == name;
    assert line[4..][|name|] == opening[4 + |name|];
    WordIs(line[4..], name);
    assert line[4 + |name|..6 + |name|] == opening[4 + |name|..6 + |name|];
  }

  lemma OpenedEntry(line: Line, name: string)
    requires EntryOf(line) == Some(name)
    ensures OpensEntry(line, name)
  {
    assert line[4..4 + |name|] == name;
    assert line[..6 + |name|] == line[..4] + line[4..4 + |name|] + line[4 + |name|..6 + |name|];
  }

  /** A line opens an entry exactly if it is indented by four columns, and a word, a colon and a space come next. */
  lemma EntryExactly(line: Line, name: string)
    ensures EntryOf(line) == Some(name) <==> OpensEntry(line, name)
  {
    hide EntryOf, OpensEntry;
    if OpensEntry(line, name) {
      EntryOpens(line, name);
    } else if EntryOf(line) == Some(name) {
      OpenedEntry(line, name);
    }
  }

  // ---- reading -------------------------------------------------------------

  /** A line loses as much of the indent as it has whitespace for. */
  lemma DedentedExactly(line: Line, indent: nat, n: nat)
    requires n <= |line| && n <= indent && Blank(line[..n])
    requires n < indent && n < |line| ==> !IsSpace(line[n])
    ensures Dedented(line, indent) == line[n..]
  {
    if n < indent && n < |line| {
      assert !Blank(Upto(line, indent)) by { assert Upto(line, indent)[n] == line[n]; }
      LStripIs(line, n);
    } else {
      assert Upto(line, indent) == line[..n];
    }
  }

  // The last line closes the quotes at column `at`, and nothing but whitespace follows them.
  ghost predicate ClosesAt(line: Line, at: nat) {
    at + 3 <= |line| && line[at..at + 3] == QUOTES && Blank(line[at + 3..])
  }

  ghost predicate Closed(line: Line) {
    exists at :: ClosesAt(line, at)
  }

  // The lines between the quotes, if the opening ones are at column `indent`.
  function Opened(raw: Lines, indent: nat): (lines: Lines)
    requires raw != [] && indent + 3 <= |raw[0]|
    ensures |lines| == |raw|
  {
    [raw[0][indent + 3..]] + DedentedAll(raw[1..], indent)
  }

  ghost predicate OpensQuotes(raw: Lines, indent: nat)
    requires raw != []
  {
    indent + 3 <= |raw[0]| && raw[0][indent..indent + 3] == QUOTES
  }

  lemma ClosedIs(line: Line, at: nat)
    requires ClosesAt(line, at)
    ensures RStrip(line) == line[..at + 3] && EndsWith(RStrip(line), QUOTES)
  {
    assert line[at + 2] == line[at..at + 3][2] == '"';
    RStripIs(line, at + 3);
  }

  lemma ClosingColumn(line: Line) returns (at: nat)
    requires EndsWith(RStrip(line), QUOTES)
    ensures ClosesAt(line, at) && at + 3 == |RStrip(line)|
  {
    at := |RStrip(line)| - 3;
    RStripCuts(line);
    assert line[at..at + 3] == RStrip(line)[at..];
  }

  lemma {:induction false} RStripCuts(s: string)
    ensures Blank(s[|RStrip(s)|..])
    decreases |s|
  {
    if s != "" && IsSpace(s[|s| - 1]) {
      var init := s[..|s| - 1];
      RStripCuts(init);
      assert s[|RStrip(s)|..] == init[|RStrip(init)|..] + [s[|s| - 1]];
    }
  }

  lemma QuotesOpen(raw: Lines, indent: nat)
    requires raw != []
    ensures StartsWith(From(raw[0], indent), QUOTES) <==> OpensQuotes(raw, indent)
  {
    if indent + 3 <= |raw[0]| {
      assert From(raw[0], indent)[..3] == raw[0][indent..indent + 3];
    }
  }

  lemma OpenReads(raw: Lines, indent: nat)
    requires raw != [] && OpensQuotes(raw, indent)
    ensures Read(raw, indent) == Unclosed(Opened(raw, indent))
  {
    hide Unclosed, DedentedAll;
    QuotesOpen(raw, indent);
    assert From(raw[0], indent)[3..] == raw[0][indent + 3..];
  }

  lemma TextUnclosed(lines: Lines, at: nat)
    requires lines != [] && ClosesAt(lines[|lines| - 1], at)
    ensures var text := lines[|lines| - 1][..at];
            Unclosed(lines) == Ok(lines[..|lines| - 1] + if Blank(text) then [] else [text])
  {
    hide RStrip;
    var last := lines[|lines| - 1];
    ClosedIs(last, at);
    assert RStrip(last)[..at] == last[..at];
    assert lines[..|lines| - 1] + [] == lines[..|lines| - 1];
  }

  /**
    A docstring whose quotes open at its indent and close at column `at` of its last
    line reads as the lines between them; the text before the closing quotes is its
    last line, unless there is none.
   */
  lemma ReadsText(raw: Lines, indent: nat, at: nat)
    requires raw != [] && OpensQuotes(raw, indent) && ClosesAt(Opened(raw, indent)[|raw| - 1], at)
    ensures var lines := Opened(raw, indent);
            var text := lines[|raw| - 1][..at];
            Read(raw, indent) == Ok(lines[..|raw| - 1] + if Blank(text) then [] else [text])
  {
    hide Read, Unclosed, ClosesAt, DedentedAll;
    OpenReads(raw, indent);
    TextUnclosed(Opened(raw, indent), at);
  }

  /** Otherwise the missing quotes are reported: the opening ones, or else the closing ones. */
  lemma ReadsExactly(raw: Lines, indent: nat)
    requires raw != []
    ensures Read(raw, indent) == Err(NoOpeningQuotes) <==> !OpensQuotes(raw, indent)
    ensures Read(raw, indent) == Err(NoClosingQuotes) <==>
            OpensQuotes(raw, indent) && !Closed(Opened(raw, indent)[|raw| - 1])
  {
    hide RStrip, DedentedAll;
    QuotesOpen(raw, indent);
    if OpensQuotes(raw, indent) {
      OpenReads(raw, indent);
      var last := Opened(raw, indent)[|raw| - 1];
      if EndsWith(RStrip(last), QUOTES) {
        var at := ClosingColumn(last);
      } else if at :| ClosesAt(last, at) {
        ClosedIs(last, at);
      }
    }
  }

  // ---- writing -------------------------------------------------------------

  /**
    What is written opens with the quotes and the first line, has every other line
    indented or empty, and ends with the quotes alone.
   */
  lemma WrittenExactly(body: Lines, indent: nat, out: Lines)
    requires body != []
    ensures out == Written(body, indent) <==>
            && |out| == |body| + 1
            && out[0] == Spaces(indent) + QUOTES + body[0] && out[|body|] == Spaces(indent) + QUOTES
            && forall i :: 1 <= i < |body| ==> out[i] == if Blank(body[i]) then "" else Spaces(indent) + body[i]
  {
    var written := Written(body, indent);
    assert |written| == |body| + 1 && written[|body|] == Spaces(indent) + QUOTES;
    forall i | 1 <= i < |body| ensures written[i] == if Blank(body[i]) then "" else Spaces(indent) + body[i] {
      assert written[i] == IndentedAll(body[1..], indent)[i - 1];
    }
  }

  /**
    What the rewriter wrote, read and split again, has the copy's prose if there is any
    and the docstring's own otherwise, and the same sections, with only the copy's one
    rewritten; each is trimmed, and its blank lines are empty.
   */
  lemma WritesTheCopy(raw: Lines, indent: nat, copy: Copy)
    requires raw != [] && F.Wrapped(copy.entries) && Sync(raw, indent, copy).Ok?
    ensures Read(raw, indent).Ok? && Sync(raw, indent, copy).value != []
    ensures Read(Sync(raw, indent, copy).value, indent).Ok?
    ensures var (prose, sections) := Split(Read(raw, indent).value);
            var (prose', sections') := Split(Read(Sync(raw, indent, copy).value, indent).value);
            && |sections'| == |sections|
            && Trimmed(prose') == Trimmed(Norm(if copy.prose.Some? then copy.prose.value else prose))
            && forall i :: 0 <= i < |sections| ==>
                 && sections'[i].header == sections[i].header
                 && Trimmed(sections'[i].lines) ==
                    Trimmed(Norm(if sections[i].header == copy.header then Rewritten(sections[i].lines, copy.entries)
                                 else sections[i].lines))
  {
    hide Read, Split, Rewritten, Trimmed, Written, LaidOut;
    var (own, sections) := Split(Read(raw, indent).value);
    var prose := if copy.prose.Some? then copy.prose.value else own;
    var written := RewrittenSections(sections, copy);
    F.SplitShape(Read(raw, indent).value);
    F.WrittenShape(sections, copy);
    F.SecondRead(prose, written, indent);
    WrittenSome(LaidOut(prose, written), indent);
    F.SecondSplit(prose, written);
    Retrimmed(prose, sections != []);
    forall i | 0 <= i < |sections|
      ensures Trimmed(F.Reread(F.NormSections(written))[i].lines) == Trimmed(Norm(written[i].lines))
    {
      Retrimmed(written[i].lines, i + 1 < |sections|);
    }
  }

  lemma WrittenSome(body: Lines, indent: nat)
    requires body != []
    ensures Written(body, indent) != []
  {
  }

  lemma {:induction false} TrimmedAway(lines: Lines)
    ensures Trimmed(lines) == [] <==> forall i :: 0 <= i < |lines| ==> Blank(lines[i])
    decreases |lines|
  {
    if lines != [] && Blank(lines[0]) {
      TrimmedAway(lines[1..]);
      assert forall i :: 1 <= i < |lines| ==> lines[i] == lines[1..][i - 1];
    } else if lines != [] && Blank(lines[|lines| - 1]) {
      TrimmedAway(lines[..|lines| - 1]);
    }
  }

  /**
    Of a docstring that reads, nothing is written exactly if the copy's prose would
    open a section, a name of the copy's has no entry, or there is no line to write.
   */
  lemma DriftExactly(raw: Lines, indent: nat, copy: Copy, body: Lines)
    requires raw != [] && Read(raw, indent) == Ok(body)
    ensures var (own, sections) := Split(body);
            var prose := if copy.prose.Some? then copy.prose.value else own;
            var opens := copy.prose.Some? && exists i :: 0 <= i < |prose| && SectionOf(prose[i]).Some?;
            var missing := exists name :: name in copy.entries && !Documented(sections, copy.header, name);
            && (Sync(raw, indent, copy) == Err(SectionInCopy) <==> opens)
            && (Sync(raw, indent, copy) == Err(Undocumented) <==> !opens && missing)
            && (Sync(raw, indent, copy) == Err(NothingToWrite) <==>
                !opens && !missing && sections == [] && forall i :: 0 <= i < |prose| ==> Blank(prose[i]))
            && (Sync(raw, indent, copy).Err? ==>
                  Sync(raw, indent, copy).error in {SectionInCopy, Undocumented, NothingToWrite})
  {
    hide Read, Split, Written, Documented, Trimmed, SectionOf;
    var (own, sections) := Split(body);
    TrimmedAway(if copy.prose.Some? then copy.prose.value else own);
  }

  // Trimming again what was trimmed, with the gap after it, leaves it.
  lemma Retrimmed(lines: Lines, more: bool)
    ensures Trimmed(Trimmed(Norm(lines)) + F.Gap(more)) == Trimmed(Norm(lines))
  {
    F.Settled(lines, more);
    var t := Trimmed(Norm(lines)) + F.Gap(more);
    assert Norm(t) == t;
  }
}
