/**
  The docstring rewriter of `scripts/sync_tool_docs.py`: read a docstring out of
  its source lines, split it into prose and sections, put the manifest's copy in,
  lay it out and write it back. Each loop is a method, proved to compute the
  function beside it; DocstringFixedPoint says what the functions amount to.

  The copy arrives wrapped: `textwrap` is not part of this model, but the shape
  of what it returns for an entry is (WellWrapped).
 */
module Docstrings {
  import opened Wrappers
  import opened Text

  type Line = string
  type Lines = seq<string>

  const HEADERS: set<string> := {"Args", "Attributes", "Returns", "Raises", "Example", "Examples", "Note", "Yields"}

  datatype Section = Section(header: string, lines: Lines)

  datatype Drift =
    | NoOpeningQuotes
    | NoClosingQuotes
    | SectionInCopy        // a line of the copy would be read back as a section header
    | Undocumented         // copy for a name no entry documents
    | NothingToWrite       // the IndexError an empty docstring ends in

  // The header a line opens a section with: SECTION.
  function SectionOf(line: Line): Option<string> {
    if |line| > 0 && line[|line| - 1] == ':' && line[..|line| - 1] in HEADERS then Some(line[..|line| - 1]) else None
  }

  // The name a line opens an entry with: ENTRY.
  function EntryOf(line: Line): Option<string> {
    if |line| < 4 || line[..4] != "    " then None
    else
      var name := Word(line[4..]);
      if name != [] && |line| >= 4 + |name| + 2 && line[4 + |name|..4 + |name| + 2] == ": " then Some(name) else None
  }

  // ---- trimmed -------------------------------------------------------------

  function Trimmed(lines: Lines): (r: Lines)
    ensures r == [] || (!Blank(r[0]) && !Blank(r[|r| - 1]))
    ensures |r| <= |lines|
    ensures forall line :: line in r ==> line in lines
  {
    if lines == [] then []
    else if Blank(lines[0]) then Trimmed(lines[1..])
    else if Blank(lines[|lines| - 1]) then Trimmed(lines[..|lines| - 1])
    else lines
  }

  method Trim(lines: Lines) returns (body: Lines)
    ensures body == Trimmed(lines)
  {
    body := lines;
    while body != [] && Blank(body[0])
      invariant Trimmed(body) == Trimmed(lines)
      decreases |body|
    {
      body := body[1..];
    }
    while body != [] && Blank(body[|body| - 1])
      invariant Trimmed(body) == Trimmed(lines)
      invariant body == [] || !Blank(body[0])
      decreases |body|
    {
      body := body[..|body| - 1];
    }
  }

  // ---- split_sections ------------------------------------------------------

  // What one more line does to the docstring split so far.
  function Take(split: (Lines, seq<Section>), line: Line): (Lines, seq<Section>) {
    var (prose, sections) := split;
    if SectionOf(line).Some? then (prose, sections + [Section(SectionOf(line).value, [])])
    else if sections != [] then
      var last := sections[|sections| - 1];
      (prose, sections[..|sections| - 1] + [last.(lines := last.lines + [line])])
    else (prose + [line], sections)
  }

  function Split(body: Lines): (Lines, seq<Section>) {
    if body == [] then ([], []) else Take(Split(body[..|body| - 1]), body[|body| - 1])
  }

  method SplitSections(body: Lines) returns (prose: Lines, sections: seq<Section>)
    ensures (prose, sections) == Split(body)
  {
    prose, sections := [], [];
    var i := 0;
    while i < |body|
      invariant 0 <= i <= |body|
      invariant (prose, sections) == Split(body[..i])
    {
      var header := SectionOf(body[i]);
      if header.Some? {
        sections := sections + [Section(header.value, [])];
      } else if sections != [] {
        var last := |sections| - 1;
        sections := sections[..last] + [sections[last].(lines := sections[last].lines + [body[i]])];
      } else {
        prose := prose + [body[i]];
      }
      assert body[..i + 1][..i] == body[..i];
      i := i + 1;
    }
    assert body[..i] == body;
  }

  // ---- rewrite_entries -----------------------------------------------------

  // A line that does not go on with the entry above it.
  predicate Boundary(line: Line) {
    Blank(line) || EntryOf(line).Some?
  }

  // How many of the lines go on with the entry above them.
  function Continued(lines: Lines): (n: nat)
    ensures n <= |lines|
    ensures forall i :: 0 <= i < n ==> !Boundary(lines[i])
    ensures n == |lines| || Boundary(lines[n])
  {
    if lines == [] || Boundary(lines[0]) then 0 else 1 + Continued(lines[1..])
  }

  function Rewritten(lines: Lines, entries: map<string, Lines>): Lines
    decreases |lines|
  {
    if lines == [] then []
    else if EntryOf(lines[0]).None? then [lines[0]] + Rewritten(lines[1..], entries)
    else
      var end := 1 + Continued(lines[1..]);
      Copied(lines, entries, EntryOf(lines[0]).value, end) + Rewritten(lines[end..], entries)
  }

  // Where the entry opened at `index` ends.
  method EntryEnd(lines: Lines, index: nat) returns (end: nat)
    requires index < |lines|
    ensures index < end <= |lines| && end == index + 1 + Continued(lines[index + 1..])
  {
    end := index + 1;
    while end < |lines| && !Blank(lines[end]) && EntryOf(lines[end]).None?
      invariant index < end <= |lines|
      invariant end + Continued(lines[end..]) == index + 1 + Continued(lines[index + 1..])
    {
      assert lines[end..][1..] == lines[end + 1..];
      end := end + 1;
    }
  }

  // What an entry spanning the first `end` lines is written as.
  function Copied(lines: Lines, entries: map<string, Lines>, name: string, end: nat): Lines
    requires end <= |lines|
  {
    if name in entries then entries[name] else lines[..end]
  }

  lemma RewrittenEntry(lines: Lines, entries: map<string, Lines>, name: string, end: nat)
    requires lines != [] && EntryOf(lines[0]) == Some(name) && end == 1 + Continued(lines[1..])
    ensures end <= |lines|
    ensures Rewritten(lines, entries) == Copied(lines, entries, name, end) + Rewritten(lines[end..], entries)
  {
  }

  lemma Slices(lines: Lines, index: nat, end: nat)
    requires index < end <= |lines|
    ensures lines[index..][1..] == lines[index + 1..] && lines[index..][..end - index] == lines[index..end]
    ensures lines[index..][end - index..] == lines[end..]
  {
  }

  // One turn of the loop: the lines written for the one at `index`, and where it goes on.
  lemma RewrittenLine(lines: Lines, entries: map<string, Lines>, index: nat)
    requires index < |lines| && EntryOf(lines[index]).None?
    ensures Rewritten(lines[index..], entries) == [lines[index]] + Rewritten(lines[index + 1..], entries)
  {
    assert lines[index..][1..] == lines[index + 1..];
  }

  method RewriteOne(lines: Lines, entries: map<string, Lines>, index: nat) returns (piece: Lines, end: nat)
    requires index < |lines|
    ensures index < end <= |lines|
    ensures Rewritten(lines[index..], entries) == piece + Rewritten(lines[end..], entries)
  {
    hide EntryOf, Rewritten;
    var name := EntryOf(lines[index]);
    if name.None? {
      piece, end := [lines[index]], index + 1;
      RewrittenLine(lines, entries, index);
    } else {
      end := EntryEnd(lines, index);
      Slices(lines, index, end);
      piece := if name.value in entries then entries[name.value] else lines[index..end];
      RewrittenEntry(lines[index..], entries, name.value, end - index);
    }
  }

  method RewriteEntries(lines: Lines, entries: map<string, Lines>) returns (out: Lines)
    ensures out == Rewritten(lines, entries)
  {
    out := [];
    var index := 0;
    assert lines[0..] == lines;
    ghost var rest := Rewritten(lines, entries);
    while index < |lines|
      invariant 0 <= index <= |lines|
      invariant rest == Rewritten(lines[index..], entries)
      invariant out + rest == Rewritten(lines, entries)
      decreases |lines| - index
    {
      var piece, end := RewriteOne(lines, entries, index);
      Regroup(out, piece, Rewritten(lines[end..], entries));
      out, index, rest := out + piece, end, Rewritten(lines[end..], entries);
    }
  }

  // ---- laid_out ------------------------------------------------------------

  function LaidOut(prose: Lines, sections: seq<Section>): Lines {
    if sections == [] then Trimmed(prose)
    else
      var last := sections[|sections| - 1];
      LaidOut(prose, sections[..|sections| - 1]) + ["", last.header + ":"] + Trimmed(last.lines)
  }

  lemma LaidOutMore(prose: Lines, sections: seq<Section>, i: nat)
    requires i < |sections|
    ensures LaidOut(prose, sections[..i + 1]) ==
            LaidOut(prose, sections[..i]) + ["", sections[i].header + ":"] + Trimmed(sections[i].lines)
  {
    assert sections[..i + 1][..i] == sections[..i];
  }

  lemma LaidOutNone(prose: Lines, sections: seq<Section>)
    ensures LaidOut(prose, sections[..0]) == Trimmed(prose)
  {
  }

  method LayOut(prose: Lines, sections: seq<Section>) returns (body: Lines)
    ensures body == LaidOut(prose, sections)
  {
    hide Trimmed, LaidOut;
    body := Trim(prose);
    var i := 0;
    LaidOutNone(prose, sections);
    while i < |sections|
      invariant 0 <= i <= |sections|
      invariant body == LaidOut(prose, sections[..i])
    {
      LaidOutMore(prose, sections, i);
      body := body + [""];
      body := body + [sections[i].header + ":"];
      var lines := Trim(sections[i].lines);
      body := body + lines;
      i := i + 1;
    }
    assert sections[..i] == sections;
  }

  // ---- read_docstring and write_docstring ----------------------------------

  const QUOTES: string := "\"\"\""

  function Dedented(line: Line, indent: nat): Line {
    if Blank(Upto(line, indent)) then From(line, indent) else LStrip(line)
  }

  function DedentedAll(lines: Lines, indent: nat): (r: Lines)
    ensures |r| == |lines|
  {
    seq(|lines|, i requires 0 <= i < |lines| => Dedented(lines[i], indent))
  }

  // The body, from the lines the docstring spans, its quotes included.
  function Read(raw: Lines, indent: nat): Result<Lines, Drift>
    requires raw != []
  {
    var opening := From(raw[0], indent);
    if !StartsWith(opening, QUOTES) then Err(NoOpeningQuotes)
    else
      Unclosed([opening[3..]] + DedentedAll(raw[1..], indent))
  }

  // Without the closing quotes, and without their line if they are alone on it.
  function Unclosed(body: Lines): Result<Lines, Drift>
    requires body != []
  {
    var at := |body| - 1;
    var last := RStrip(body[at]);
    if !EndsWith(last, QUOTES) then Err(NoClosingQuotes)
    else if Blank(last[..|last| - 3]) then Ok(body[..at])
    else Ok(body[..at] + [last[..|last| - 3]])
  }

  method DedentAll(first: Line, lines: Lines, indent: nat) returns (body: Lines)
    ensures body == [first] + DedentedAll(lines, indent)
  {
    body := [first];
    var i := 0;
    while i < |lines|
      invariant 0 <= i <= |lines|
      invariant |body| == i + 1 && body[0] == first
      invariant forall k :: 0 <= k < i ==> body[k + 1] == Dedented(lines[k], indent)
    {
      body := body + [Dedented(lines[i], indent)];
      i := i + 1;
    }
  }

  method ReadDocstring(raw: Lines, indent: nat) returns (r: Result<Lines, Drift>)
    requires raw != []
    ensures r == Read(raw, indent)
  {
    var opening := From(raw[0], indent);
    if !StartsWith(opening, QUOTES) {
      return Err(NoOpeningQuotes);
    }
    var body := DedentAll(opening[3..], raw[1..], indent);
    r := Unclose(body);
  }

  method Unclose(read: Lines) returns (r: Result<Lines, Drift>)
    requires read != []
    ensures r == Unclosed(read)
  {
    var body, at := read, |read| - 1;
    var last := RStrip(body[at]);
    if !EndsWith(last, QUOTES) {
      return Err(NoClosingQuotes);
    }
    body := body[at := last[..|last| - 3]];
    assert body == read[..at] + [last[..|last| - 3]] && body[..at] == read[..at];
    if Blank(body[at]) {
      body := body[..at];
    }
    return Ok(body);
  }

  function Indented(line: Line, indent: nat): Line {
    if Blank(line) then "" else Spaces(indent) + line
  }

  function IndentedAll(lines: Lines, indent: nat): (r: Lines)
    ensures |r| == |lines|
  {
    seq(|lines|, i requires 0 <= i < |lines| => Indented(lines[i], indent))
  }

  function Written(body: Lines, indent: nat): Lines
    requires body != []
  {
    [Spaces(indent) + QUOTES + body[0]] + IndentedAll(body[1..], indent) + [Spaces(indent) + QUOTES]
  }

  // ---- one docstring, from source lines to source lines --------------------

  // What the manifest has for one definition: its description, wrapped, if the
  // docstring takes one; the section its entries are in; and each entry, wrapped.
  datatype Copy = Copy(prose: Option<Lines>, header: string, entries: map<string, Lines>)

  ghost predicate NoSection(lines: Lines) {
    forall i :: 0 <= i < |lines| ==> SectionOf(lines[i]).None?
  }

  function Head(name: string): string { "    " + name + ":" }

  // What `textwrap` returns for "name: description": the first line indented by
  // four columns, the others by eight, none blank, broken at whitespace only.
  ghost predicate WellWrapped(name: string, lines: Lines) {
    && lines != []
    && Head(name) <= lines[0] && (|lines[0]| > |Head(name)| ==> lines[0][|Head(name)|] == ' ')
    && forall i :: 1 <= i < |lines| ==> |lines[i]| >= 8 && lines[i][..8] == "        " && !Blank(lines[i])
  }

  function RewrittenSections(sections: seq<Section>, copy: Copy): (r: seq<Section>)
    ensures |r| == |sections|
  {
    seq(|sections|, i requires 0 <= i < |sections| =>
      if sections[i].header == copy.header then sections[i].(lines := Rewritten(sections[i].lines, copy.entries))
      else sections[i])
  }

  ghost predicate Documented(sections: seq<Section>, header: string, name: string) {
    exists s, line :: 0 <= s < |sections| && sections[s].header == header && line in sections[s].lines
                      && EntryOf(line) == Some(name)
  }

  ghost predicate AllDocumented(sections: seq<Section>, copy: Copy) {
    forall name :: name in copy.entries ==> Documented(sections, copy.header, name)
  }

  // What the two `sync_` functions write for a docstring split into prose and sections.
  ghost function Synced(split: (Lines, seq<Section>), indent: nat, copy: Copy): Result<Lines, Drift> {
    var (prose, sections) := split;
    if !AllDocumented(sections, copy) then Err(Undocumented)
    else
      var laid := LaidOut(if copy.prose.Some? then copy.prose.value else prose, RewrittenSections(sections, copy));
      if laid == [] then Err(NothingToWrite) else Ok(Written(laid, indent))
  }

  // And for the lines one spans. The copy is checked, as `wrapped_prose` ends, only once they are read.
  ghost function Sync(raw: Lines, indent: nat, copy: Copy): Result<Lines, Drift>
    requires raw != []
  {
    match Read(raw, indent)
    case Err(drift) => Err(drift)
    case Ok(body) =>
      if copy.prose.Some? && !NoSection(copy.prose.value) then Err(SectionInCopy) else Synced(Split(body), indent, copy)
  }
}
