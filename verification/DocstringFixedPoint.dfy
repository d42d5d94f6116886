/**
  Running the docstring rewriter on its own output. It reproduces the output
  exactly when the first line of each entry it wrote still opens the entry.
 */
module DocstringFixedPoint {
  import opened Wrappers
  import opened Text
  import opened Docstrings
  import opened DocstringRewriting

  lemma TrimmedPlain(lines: Lines)
    requires NoSection(lines)
    ensures NoSection(Trimmed(lines))
  {
    forall i | 0 <= i < |Trimmed(lines)| ensures SectionOf(Trimmed(lines)[i]).None? {
      assert Trimmed(lines)[i] in lines;
    }
  }

  // ---- splitting a docstring that was laid out -----------------------------

  // Headers the pattern knows, over lines it takes none of.
  ghost predicate Splittable(sections: seq<Section>) {
    forall i :: 0 <= i < |sections| ==> sections[i].header in HEADERS && NoSection(sections[i].lines)
  }

  // More plain lines for whatever is open.
  function Extended(split: (Lines, seq<Section>), lines: Lines): (Lines, seq<Section>) {
    var (prose, sections) := split;
    if sections == [] then (prose + lines, [])
    else
      var last := sections[|sections| - 1];
      (prose, sections[..|sections| - 1] + [last.(lines := last.lines + lines)])
  }

  lemma {:induction false} SplitPlain(body: Lines, lines: Lines)
    requires NoSection(lines)
    ensures Split(body + lines) == Extended(Split(body), lines)
    decreases |lines|
  {
    if lines == [] {
      assert body + lines == body;
      ExtendNone(Split(body));
    } else {
      var n := |lines| - 1;
      assert (body + lines)[..|body| + n] == body + lines[..n];
      SplitPlain(body, lines[..n]);
      ExtendOne(Split(body), lines[..n], lines[n]);
      assert lines[..n] + [lines[n]] == lines;
    }
  }

  lemma ExtendNone(split: (Lines, seq<Section>))
    ensures Extended(split, []) == split
  {
    var (prose, sections) := split;
    assert prose + [] == prose;
    if sections != [] {
      var n := |sections| - 1;
      assert sections[n].lines + [] == sections[n].lines;
      assert sections[..n] + [sections[n]] == sections;
    }
  }

  lemma ExtendOne(split: (Lines, seq<Section>), lines: Lines, line: Line)
    requires SectionOf(line).None?
    ensures Take(Extended(split, lines), line) == Extended(split, lines + [line])
  {
    var (prose, sections) := split;
    if sections == [] {
      Regroup(prose, lines, [line]);
    } else {
      var n := |sections| - 1;
      Regroup(sections[n].lines, lines, [line]);
      assert Extended(split, lines).1[..n] == sections[..n];
    }
  }

  lemma {:induction false} SplitShape(body: Lines)
    ensures NoSection(Split(body).0) && Splittable(Split(body).1)
    decreases |body|
  {
    if body != [] {
      SplitShape(body[..|body| - 1]);
      TakeShape(Split(body[..|body| - 1]), body[|body| - 1]);
    }
  }

  lemma TakeShape(split: (Lines, seq<Section>), line: Line)
    requires NoSection(split.0) && Splittable(split.1)
    ensures NoSection(Take(split, line).0) && Splittable(Take(split, line).1)
  {
  }

  // The blank line the layout puts between one section and the next.
  function Gap(more: bool): Lines {
    if more then [""] else []
  }

  // The lines a split docstring was split from.
  function Unsplit(prose: Lines, sections: seq<Section>): Lines {
    if sections == [] then prose
    else
      var last := sections[|sections| - 1];
      Unsplit(prose, sections[..|sections| - 1]) + [last.header + ":"] + last.lines
  }

  /** Splitting loses nothing: the prose and the sections, in order, are the docstring. */
  lemma {:induction false} SplitLosesNothing(body: Lines)
    ensures Unsplit(Split(body).0, Split(body).1) == body
    decreases |body|
  {
    if body != [] {
      var n := |body| - 1;
      SplitLosesNothing(body[..n]);
      UnsplitMore(Split(body[..n]).0, Split(body[..n]).1, body[n]);
    }
  }

  lemma UnsplitMore(prose: Lines, sections: seq<Section>, line: Line)
    ensures var more := Take((prose, sections), line);
            Unsplit(more.0, more.1) == Unsplit(prose, sections) + [line]
  {
    var more := Take((prose, sections), line);
    if SectionOf(line).Some? {
      assert line == SectionOf(line).value + ":";
      assert more.1[..|sections|] == sections;
      assert Unsplit(prose, sections) + [line] + [] == Unsplit(prose, sections) + [line];
    } else if sections != [] {
      var n := |sections| - 1;
      assert more.1[..n] == sections[..n];
      Regroup(Unsplit(prose, sections[..n]) + [sections[n].header + ":"], sections[n].lines, [line]);
    }
  }

  // A laid-out docstring as it is split again: each part trimmed, with the gap after it.
  function Reread(sections: seq<Section>): (r: seq<Section>)
    ensures |r| == |sections|
  {
    seq(|sections|, i requires 0 <= i < |sections| =>
      sections[i].(lines := Trimmed(sections[i].lines) + Gap(i + 1 < |sections|)))
  }

  lemma {:induction false} SplitLaidOut(prose: Lines, sections: seq<Section>)
    requires NoSection(prose) && Splittable(sections)
    ensures Split(LaidOut(prose, sections)) == (Trimmed(prose) + Gap(sections != []), Reread(sections))
    decreases |sections|
  {
    if sections == [] {
      TrimmedPlain(prose);
      SplitPlain([], Trimmed(prose));
      assert [] + Trimmed(prose) == Trimmed(prose) == Trimmed(prose) + [];
      assert Reread([]) == [];
    } else {
      var n := |sections| - 1;
      SplitLaidOut(prose, sections[..n]);
      SplitSection(LaidOut(prose, sections[..n]), sections[n]);
      RereadOne(prose, sections);
    }
  }

  lemma SplitTitle(body: Lines, header: string)
    requires header in HEADERS
    ensures Split(body + ["", header + ":"]) ==
            (Extended(Split(body), [""]).0, Extended(Split(body), [""]).1 + [Section(header, [])])
  {
    var title := header + ":";
    TitleOpens(header);
    SplitPlain(body, [""]);
    SplitMore(body + [""], title);
    assert body + ["", title] == body + [""] + [title];
  }

  lemma TitleOpens(header: string)
    requires header in HEADERS
    ensures SectionOf(header + ":") == Some(header)
  {
    assert (header + ":")[..|header|] == header;
  }

  lemma SplitMore(body: Lines, line: Line)
    ensures Split(body + [line]) == Take(Split(body), line)
  {
    assert (body + [line])[..|body|] == body;
  }

  // Reading one more section off the end of a layout.
  lemma SplitSection(body: Lines, section: Section)
    requires section.header in HEADERS && NoSection(section.lines)
    ensures Split(body + ["", section.header + ":"] + Trimmed(section.lines)) ==
            (Extended(Split(body), [""]).0, Extended(Split(body), [""]).1 + [section.(lines := Trimmed(section.lines))])
  {
    var titled := body + ["", section.header + ":"];
    SplitTitle(body, section.header);
    TrimmedPlain(section.lines);
    SplitPlain(titled, Trimmed(section.lines));
    ExtendNew(Split(titled).0, Extended(Split(body), [""]).1, section.header, Trimmed(section.lines));
  }

  lemma ExtendNew(prose: Lines, sections: seq<Section>, header: string, lines: Lines)
    ensures Extended((prose, sections + [Section(header, [])]), lines) == (prose, sections + [Section(header, lines)])
  {
    assert [] + lines == lines;
  }

  lemma RereadOne(prose: Lines, sections: seq<Section>)
    requires sections != []
    ensures var n := |sections| - 1;
            var before := (Trimmed(prose) + Gap(n > 0), Reread(sections[..n]));
            (Trimmed(prose) + Gap(true), Reread(sections)) ==
            (Extended(before, [""]).0, Extended(before, [""]).1 + [sections[n].(lines := Trimmed(sections[n].lines))])
  {
    var n := |sections| - 1;
    assert Trimmed(sections[n].lines) + [] == Trimmed(sections[n].lines);
    if n == 0 {
      assert Trimmed(prose) + [] == Trimmed(prose) && Reread(sections[..0]) == [];
      var only := sections[0].(lines := Trimmed(sections[0].lines) + []);
      assert Reread(sections) == [only] == [] + [only];
    } else {
      RereadLast(sections, n);
    }
  }

  lemma RereadLast(sections: seq<Section>, n: nat)
    requires |sections| == n + 1 && n > 0
    ensures var before := Reread(sections[..n]);
            var last := before[n - 1];
            Reread(sections) == before[..n - 1] + [last.(lines := last.lines + [""])]
                                + [sections[n].(lines := Trimmed(sections[n].lines) + [])]
  {
    var t := Trimmed(sections[n - 1].lines);
    assert t + [] == t;
  }

  // ---- the layout of what was read back ------------------------------------

  function NormSections(sections: seq<Section>): (r: seq<Section>)
    ensures |r| == |sections|
  {
    seq(|sections|, i requires 0 <= i < |sections| => sections[i].(lines := Norm(sections[i].lines)))
  }

  lemma TitleNorm(header: string)
    ensures Norm(["", header + ":"]) == ["", header + ":"]
  {
    assert (header + ":")[|header|] == ':';
  }

  lemma {:induction false} LayNorm(prose: Lines, sections: seq<Section>)
    ensures LaidOut(Norm(prose), NormSections(sections)) == Norm(LaidOut(prose, sections))
    decreases |sections|
  {
    TrimNorm(prose);
    if sections != [] {
      var n := |sections| - 1;
      var title := ["", sections[n].header + ":"];
      LayNorm(prose, sections[..n]);
      TrimNorm(sections[n].lines);
      assert NormSections(sections)[..n] == NormSections(sections[..n]);
      TitleNorm(sections[n].header);
      NormConcat(LaidOut(prose, sections[..n]), title);
      NormConcat(LaidOut(prose, sections[..n]) + title, Trimmed(sections[n].lines));
    }
  }

  // The layout only sees what trimming leaves.
  lemma {:induction false} LaySame(prose: Lines, sections: seq<Section>, prose': Lines, sections': seq<Section>)
    requires |sections| == |sections'| && Trimmed(prose) == Trimmed(prose')
    requires forall i :: 0 <= i < |sections| ==>
               sections[i].header == sections'[i].header && Trimmed(sections[i].lines) == Trimmed(sections'[i].lines)
    ensures LaidOut(prose, sections) == LaidOut(prose', sections')
    decreases |sections|
  {
    if sections != [] {
      LaySame(prose, sections[..|sections| - 1], prose', sections'[..|sections| - 1]);
    }
  }

  lemma {:induction false} LaidFirst(prose: Lines, sections: seq<Section>)
    ensures var laid := LaidOut(prose, sections); laid == [] || laid[0] == "" || !Blank(laid[0])
    decreases |sections|
  {
    if sections != [] {
      LaidFirst(prose, sections[..|sections| - 1]);
    }
  }

  // What is written depends on the lines up to their blanks alone.
  lemma WrittenSame(laid: Lines, laid': Lines, indent: nat)
    requires laid != [] && Norm(laid) == Norm(laid')
    requires laid[0] == "" || !Blank(laid[0])
    requires laid' != [] ==> laid'[0] == "" || !Blank(laid'[0])
    ensures laid' != [] && Written(laid, indent) == Written(laid', indent)
  {
    assert |laid| == |Norm(laid)| == |laid'|;
    forall i | 0 <= i < |laid| ensures Blank(laid[i]) == Blank(laid'[i]) && (!Blank(laid[i]) ==> laid[i] == laid'[i]) {
      assert Norm(laid)[i] == Norm(laid')[i];
    }
    assert IndentedAll(laid[1..], indent) == IndentedAll(laid'[1..], indent);
  }

  // Trimming a part that was read back finds what was written.
  lemma Settled(lines: Lines, more: bool)
    ensures Trimmed(Norm(Trimmed(Norm(lines)) + Gap(more))) == Trimmed(Norm(lines))
  {
    var t := Trimmed(Norm(lines));
    TrimNorm(lines);
    NormConcat(t, Gap(more));
    assert Norm(t) == t;
    TrimTrimmed(t);
    assert t + [] == t;
  }

  lemma SectionsSettled(sections: seq<Section>, i: nat)
    requires i < |sections|
    ensures var read := NormSections(Reread(NormSections(sections)));
            && read[i].header == sections[i].header
            && Trimmed(read[i].lines) == Trimmed(NormSections(sections)[i].lines)
  {
    Settled(sections[i].lines, i + 1 < |sections|);
  }

  lemma LaysBack(prose: Lines, sections: seq<Section>, prose': Lines)
    requires prose' == prose || prose' == Trimmed(Norm(prose)) + Gap(sections != [])
    ensures Norm(LaidOut(prose', Reread(NormSections(sections)))) == Norm(LaidOut(prose, sections))
  {
    var read := Reread(NormSections(sections));
    forall i | 0 <= i < |sections|
      ensures NormSections(read)[i].header == NormSections(sections)[i].header
      ensures Trimmed(NormSections(read)[i].lines) == Trimmed(NormSections(sections)[i].lines)
    {
      SectionsSettled(sections, i);
    }
    Settled(prose, sections != []);
    LaySame(Norm(prose'), NormSections(read), Norm(prose), NormSections(sections));
    LayNorm(prose, sections);
    LayNorm(prose', read);
  }

  // ---- which entries the second run finds ----------------------------------

  ghost predicate Wrapped(entries: map<string, Lines>) {
    forall name :: name in entries ==> WellWrapped(name, entries[name])
  }

  // A word of the description made it onto the line that names the entry.
  predicate OpensWithText(name: string, lines: Lines)
    requires lines != []
  {
    |lines[0]| > |Head(name)|
  }

  lemma EntryName(line: Line)
    ensures EntryOf(line).Some? ==> EntryOf(line).value != [] && Word(EntryOf(line).value) == EntryOf(line).value
  {
    if EntryOf(line).Some? {
      WordIs(EntryOf(line).value, EntryOf(line).value);
    }
  }

  lemma HeadParts(line: Line, name: string, after: string)
    requires line == Head(name) + after
    ensures |line| >= 5 + |name| && line[..4] == "    " && line[4..] == name + ":" + after
    ensures line[4 + |name|] == ':'
  {
    assert line == "    " + (name + ":" + after);
  }

  lemma OpensIff(name: string, lines: Lines)
    requires WellWrapped(name, lines) && name != [] && Word(name) == name
    ensures EntryOf(lines[0]) == if OpensWithText(name, lines) then Some(name) else None
  {
    var line := lines[0];
    var n := |name|;
    var after := line[n + 5..];
    HeadParts(line, name, after);
    WordIs(name + ":" + after, name);
    if after != [] {
      assert line[n + 4..n + 6] == ": ";
    }
  }

  lemma PlainConcat(a: Lines, b: Lines)
    requires NoSection(a) && NoSection(b)
    ensures NoSection(a + b)
  {
  }

  lemma CopiedShape(lines: Lines, entries: map<string, Lines>, name: string, end: nat)
    requires Wrapped(entries) && NoSection(lines) && end <= |lines|
    ensures NoSection(Copied(lines, entries, name, end))
  {
    if name in entries { WrappedLines(name, entries[name]); }
  }

  lemma {:induction false} RewrittenShape(lines: Lines, entries: map<string, Lines>)
    requires Wrapped(entries) && NoSection(lines)
    ensures NoSection(Rewritten(lines, entries))
    decreases |lines|
  {
    if lines == [] {
    } else if EntryOf(lines[0]).None? {
      RewrittenShape(lines[1..], entries);
      PlainConcat([lines[0]], Rewritten(lines[1..], entries));
    } else {
      var name, end := EntryOf(lines[0]).value, 1 + Continued(lines[1..]);
      RewrittenEntry(lines, entries, name, end);
      RewrittenShape(lines[end..], entries);
      CopiedShape(lines, entries, name, end);
      PlainConcat(Copied(lines, entries, name, end), Rewritten(lines[end..], entries));
    }
  }

  lemma {:induction false} EntryWritten(lines: Lines, entries: map<string, Lines>, name: string, line: Line)
    requires Wrapped(entries) && name in entries && line in lines && EntryOf(line) == Some(name)
    ensures entries[name][0] in Rewritten(lines, entries)
    decreases |lines|
  {
    if EntryOf(lines[0]).None? {
      assert line in lines[1..];
      EntryWritten(lines[1..], entries, name, line);
    } else {
      var first, end := EntryOf(lines[0]).value, 1 + Continued(lines[1..]);
      RewrittenEntry(lines, entries, first, end);
      if first != name {
        var k :| 0 <= k < |lines| && lines[k] == line;
        assert lines[1..][k - 1] == line && Boundary(line);
        assert k >= end;
        assert lines[end..][k - end] == line;
        EntryWritten(lines[end..], entries, name, line);
      }
    }
  }

  ghost predicate Silent(lines: Lines, name: string) {
    forall line :: line in lines ==> EntryOf(line) != Some(name)
  }

  lemma SilentEntry(piece: Lines, name: string)
    requires piece != [] && EntryOf(piece[0]) != Some(name)
    requires forall i :: 1 <= i < |piece| ==> !Boundary(piece[i])
    ensures Silent(piece, name)
  {
  }

  lemma CopiedSilent(lines: Lines, entries: map<string, Lines>, name: string, first: string, end: nat)
    requires Wrapped(entries) && name in entries && EntryOf(entries[name][0]).None?
    requires lines != [] && EntryOf(lines[0]) == Some(first) && end == 1 + Continued(lines[1..])
    ensures end <= |lines| && Silent(Copied(lines, entries, first, end), name)
  {
    EntryName(lines[0]);
    if first in entries {
      OpensIff(first, entries[first]);
      WrappedLines(first, entries[first]);
      SilentEntry(entries[first], name);
    } else {
      forall i | 1 <= i < end ensures !Boundary(lines[..end][i]) {
        assert lines[..end][i] == lines[1..][i - 1];
      }
      SilentEntry(lines[..end], name);
    }
  }

  lemma {:induction false} EntrySilenced(lines: Lines, entries: map<string, Lines>, name: string)
    requires Wrapped(entries) && name in entries && EntryOf(entries[name][0]).None?
    ensures Silent(Rewritten(lines, entries), name)
    decreases |lines|
  {
    if lines == [] {
    } else if EntryOf(lines[0]).None? {
      EntrySilenced(lines[1..], entries, name);
    } else {
      var first, end := EntryOf(lines[0]).value, 1 + Continued(lines[1..]);
      RewrittenEntry(lines, entries, first, end);
      CopiedSilent(lines, entries, name, first, end);
      EntrySilenced(lines[end..], entries, name);
    }
  }

  lemma RereadLines(lines: Lines, more: bool, name: string)
    ensures Silent(Trimmed(Norm(lines)) + Gap(more), name) <==> Silent(lines, name)
  {
    BlankLine("");
    if !Silent(lines, name) {
      var line :| line in lines && EntryOf(line) == Some(name);
      assert !Blank(line) by { if Blank(line) { BlankLine(line); } }
      var k :| 0 <= k < |lines| && lines[k] == line;
      assert Norm(lines)[k] == line;
      TrimKeeps(Norm(lines), line);
    } else {
      forall line | line in Trimmed(Norm(lines)) ensures EntryOf(line) != Some(name) {
        var k :| 0 <= k < |lines| && Norm(lines)[k] == line;
      }
    }
  }

  lemma RereadDocumented(sections: seq<Section>, header: string, name: string)
    ensures Documented(Reread(NormSections(sections)), header, name) <==> Documented(sections, header, name)
  {
    var read := Reread(NormSections(sections));
    forall s | 0 <= s < |sections|
      ensures read[s].header == sections[s].header && (Silent(read[s].lines, name) <==> Silent(sections[s].lines, name))
    {
      RereadLines(sections[s].lines, s + 1 < |sections|, name);
    }
    DocumentedIs(read, header, name);
    DocumentedIs(sections, header, name);
  }

  lemma DocumentedIs(sections: seq<Section>, header: string, name: string)
    ensures Documented(sections, header, name) <==>
            exists s :: 0 <= s < |sections| && sections[s].header == header && !Silent(sections[s].lines, name)
  {
  }

  lemma WrittenDocumented(sections: seq<Section>, copy: Copy, name: string)
    requires Wrapped(copy.entries) && name in copy.entries && Documented(sections, copy.header, name)
    ensures Documented(RewrittenSections(sections, copy), copy.header, name) <==>
            OpensWithText(name, copy.entries[name])
  {
    var s, line :| 0 <= s < |sections| && sections[s].header == copy.header && line in sections[s].lines
                   && EntryOf(line) == Some(name);
    var written := RewrittenSections(sections, copy);
    EntryName(line);
    OpensIff(name, copy.entries[name]);
    if OpensWithText(name, copy.entries[name]) {
      EntryWritten(sections[s].lines, copy.entries, name, line);
      assert copy.entries[name][0] in written[s].lines;
    } else {
      forall i | 0 <= i < |sections| && sections[i].header == copy.header ensures Silent(written[i].lines, name) {
        EntrySilenced(sections[i].lines, copy.entries, name);
      }
      DocumentedIs(written, copy.header, name);
    }
  }

  // ---- the second run ------------------------------------------------------

  lemma NormPlain(lines: Lines)
    requires NoSection(lines)
    ensures NoSection(Norm(lines))
  {
    BlankLine("");
  }

  lemma WrittenShape(sections: seq<Section>, copy: Copy)
    requires Splittable(sections) && Wrapped(copy.entries)
    ensures Splittable(RewrittenSections(sections, copy))
    ensures Splittable(NormSections(RewrittenSections(sections, copy)))
  {
    var written := RewrittenSections(sections, copy);
    forall i | 0 <= i < |sections| ensures NoSection(written[i].lines) && NoSection(Norm(written[i].lines)) {
      RewrittenShape(sections[i].lines, copy.entries);
      NormPlain(written[i].lines);
    }
  }

  // What the second run reads, of what the first one laid out and wrote, and how it splits.
  lemma SecondRead(prose: Lines, sections: seq<Section>, indent: nat)
    requires LaidOut(prose, sections) != []
    ensures Read(Written(LaidOut(prose, sections), indent), indent) == Ok(Norm(LaidOut(prose, sections)))
  {
    var laid := LaidOut(prose, sections);
    ReadsBack(laid, indent);
    LaidFirst(prose, sections);
    NormFirst(laid);
  }

  lemma NormFirst(laid: Lines)
    requires laid != [] && (laid[0] == "" || !Blank(laid[0]))
    ensures [laid[0]] + Norm(laid[1..]) == Norm(laid)
  {
  }

  lemma SecondSplit(prose: Lines, sections: seq<Section>)
    requires NoSection(prose) && Splittable(NormSections(sections))
    ensures Split(Norm(LaidOut(prose, sections))) ==
            (Trimmed(Norm(prose)) + Gap(sections != []), Reread(NormSections(sections)))
  {
    LayNorm(prose, sections);
    NormPlain(prose);
    SplitLaidOut(Norm(prose), NormSections(sections));
  }

  // Rewriting what was read back leaves it alone, if every entry written still opens.
  lemma SecondRewrite(sections: seq<Section>, copy: Copy)
    requires Rereads(copy.entries)
    ensures var read := Reread(NormSections(RewrittenSections(sections, copy)));
            RewrittenSections(read, copy) == read
  {
    var written := RewrittenSections(sections, copy);
    var read := Reread(NormSections(written));
    forall i | 0 <= i < |sections| ensures RewrittenSections(read, copy)[i] == read[i] {
      if sections[i].header == copy.header {
        RewrittenSettles(sections[i].lines, copy.entries);
        assert Trimmed(Norm(written[i].lines)) + [] == Trimmed(Norm(written[i].lines));
      }
    }
  }

  ghost predicate AllOpen(entries: map<string, Lines>)
    requires Wrapped(entries)
  {
    forall name :: name in entries ==> OpensWithText(name, entries[name])
  }

  lemma AllOpenRereads(sections: seq<Section>, copy: Copy)
    requires Wrapped(copy.entries) && AllOpen(copy.entries)
    requires AllDocumented(sections, copy)
    ensures Rereads(copy.entries)
  {
    forall name | name in copy.entries ensures EntryOf(copy.entries[name][0]) == Some(name) {
      var s, line :| 0 <= s < |sections| && sections[s].header == copy.header && line in sections[s].lines
                     && EntryOf(line) == Some(name);
      EntryName(line);
      OpensIff(name, copy.entries[name]);
    }
  }

  // The parts of the first run's output.
  lemma FirstRun(raw: Lines, indent: nat, copy: Copy) returns (prose: Lines, sections: seq<Section>)
    requires raw != [] && Wrapped(copy.entries) && Sync(raw, indent, copy).Ok?
    ensures NoSection(prose) && Splittable(sections)
    ensures AllDocumented(sections, copy)
    ensures copy.prose.Some? ==> prose == copy.prose.value
    ensures LaidOut(prose, RewrittenSections(sections, copy)) != []
    ensures Sync(raw, indent, copy) == Ok(Written(LaidOut(prose, RewrittenSections(sections, copy)), indent))
  {
    var body := Read(raw, indent).value;
    SplitShape(body);
    prose := if copy.prose.Some? then copy.prose.value else Split(body).0;
    sections := Split(body).1;
  }

  lemma SecondDocumented(sections: seq<Section>, copy: Copy)
    requires Wrapped(copy.entries) && AllDocumented(sections, copy)
    ensures AllDocumented(Reread(NormSections(RewrittenSections(sections, copy))), copy) <==> AllOpen(copy.entries)
  {
    var written := RewrittenSections(sections, copy);
    forall name | name in copy.entries
      ensures Documented(Reread(NormSections(written)), copy.header, name) <==> OpensWithText(name, copy.entries[name])
    {
      WrittenDocumented(sections, copy, name);
      RereadDocumented(written, copy.header, name);
    }
  }

  lemma SecondSynced(prose: Lines, sections: seq<Section>, indent: nat, copy: Copy)
    requires Wrapped(copy.entries) && AllDocumented(sections, copy)
    requires copy.prose.Some? ==> prose == copy.prose.value
    requires LaidOut(prose, RewrittenSections(sections, copy)) != []
    ensures var written := RewrittenSections(sections, copy);
            Synced((Trimmed(Norm(prose)) + Gap(written != []), Reread(NormSections(written))), indent, copy) ==
            if AllOpen(copy.entries) then Ok(Written(LaidOut(prose, written), indent)) else Err(Undocumented)
  {
    var written := RewrittenSections(sections, copy);
    var read := Reread(NormSections(written));
    SecondDocumented(sections, copy);
    if AllOpen(copy.entries) {
      AllOpenRereads(sections, copy);
      SecondRewrite(sections, copy);
      var prose' := if copy.prose.Some? then prose else Trimmed(Norm(prose)) + Gap(written != []);
      LaysBack(prose, written, prose');
      LaidFirst(prose, written);
      LaidFirst(prose', read);
      WrittenSame(LaidOut(prose, written), LaidOut(prose', read), indent);
    }
  }

  /**
    A docstring the rewriter wrote is one it rewrites to itself, if and only if
    each entry it wrote starts its text on the line that names it; otherwise the
    second run no longer finds that entry, and reports it undocumented.
   */
  lemma FixedPoint(raw: Lines, indent: nat, copy: Copy)
    requires raw != [] && Wrapped(copy.entries) && Sync(raw, indent, copy).Ok?
    ensures var out := Sync(raw, indent, copy).value;
            && out != []
            && Sync(out, indent, copy) == if AllOpen(copy.entries) then Ok(out) else Err(Undocumented)
  {
    var prose, sections := FirstRun(raw, indent, copy);
    var written := RewrittenSections(sections, copy);
    WrittenShape(sections, copy);
    SecondRead(prose, written, indent);
    SecondSplit(prose, written);
    SecondSynced(prose, sections, indent, copy);
  }

  lemma SyncIs(raw: Lines, indent: nat, copy: Copy, body: Lines)
    requires raw != [] && copy.prose.None? && Read(raw, indent) == Ok(body)
    ensures Sync(raw, indent, copy) == Synced(Split(body), indent, copy)
  {
  }

  lemma SyncedOk(prose: Lines, sections: seq<Section>, indent: nat, copy: Copy)
    requires AllDocumented(sections, copy) && sections != []
    ensures Synced((prose, sections), indent, copy).Ok?
  {
  }

  // A docstring with a section for what the copy has is one the rewriter takes.
  lemma LaidOutSyncs(prose: Lines, sections: seq<Section>, indent: nat, copy: Copy) returns (raw: Lines)
    requires copy.prose.None? && NoSection(prose) && Splittable(NormSections(sections)) && sections != []
    requires AllDocumented(sections, copy)
    ensures raw != [] && Sync(raw, indent, copy).Ok?
  {
    raw := Written(LaidOut(prose, sections), indent);
    SecondRead(prose, sections, indent);
    SecondSplit(prose, sections);
    var read := Reread(NormSections(sections));
    forall name | name in copy.entries ensures Documented(read, copy.header, name) {
      RereadDocumented(sections, copy.header, name);
    }
    SyncIs(raw, indent, copy, Norm(LaidOut(prose, sections)));
    SyncedOk(Trimmed(Norm(prose)) + Gap(true), read, indent, copy);
  }

  // Wrapping "n: " and a word of a hundred letters: no line is wider than a
  // hundred columns, and a word that fits on none is not broken.
  lemma LongWord() returns (wrapped: Lines)
    ensures wrapped == [Head("n"), Spaces(8) + seq(100, _ => 'x')]
    ensures WellWrapped("n", wrapped) && !OpensWithText("n", wrapped)
  {
    wrapped := [Head("n"), Spaces(8) + seq(100, _ => 'x')];
    assert wrapped[1][8] == 'x';
  }

  lemma OneEntry() returns (copy: Copy, sections: seq<Section>)
    ensures copy == Copy(None, "Args", map["n" := [Head("n"), Spaces(8) + seq(100, _ => 'x')]])
    ensures Wrapped(copy.entries) && !AllOpen(copy.entries)
    ensures sections != [] && Splittable(NormSections(sections)) && AllDocumented(sections, copy)
  {
    var wrapped := LongWord();
    var name := "n";
    copy := Copy(None, "Args", map[name := wrapped]);
    assert !OpensWithText(name, copy.entries[name]);
    var line := Head(name) + " x";
    HeadParts(line, name, " x");
    WordIs(line[4..], name);
    assert line[5..7] == ": ";
    assert EntryOf(line) == Some(name);
    assert SectionOf(line).None?;
    sections := [Section("Args", [line])];
    assert line in sections[0].lines;
    NormPlain([line]);
  }

  /**
    It can fail: a first word too long for the line that names its entry is
    wrapped onto the next one, and the line left behind opens nothing.
   */
  lemma AnEntryCanBeLost(indent: nat) returns (raw: Lines, copy: Copy)
    ensures copy == Copy(None, "Args", map["n" := [Head("n"), Spaces(8) + seq(100, _ => 'x')]])
    ensures raw != [] && Wrapped(copy.entries) && Sync(raw, indent, copy).Ok?
    ensures var out := Sync(raw, indent, copy).value; out != [] && Sync(out, indent, copy) == Err(Undocumented)
  {
    var sections;
    copy, sections := OneEntry();
    raw := LaidOutSyncs([], sections, indent, copy);
    FixedPoint(raw, indent, copy);
  }
}
