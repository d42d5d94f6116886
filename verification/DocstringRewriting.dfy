/** What writing and reading back, trimming, and rewriting twice do to a docstring's lines. */
module DocstringRewriting {
  import opened Wrappers
  import opened Text
  import opened Docstrings

  // Blank lines as `write_docstring` writes them, and `read_docstring` reads them back.
  function Norm(lines: Lines): (r: Lines)
    ensures |r| == |lines|
  {
    seq(|lines|, i requires 0 <= i < |lines| => if Blank(lines[i]) then "" else lines[i])
  }

  lemma NormConcat(a: Lines, b: Lines)
    ensures Norm(a + b) == Norm(a) + Norm(b)
  {
  }

  lemma BlankLine(line: Line)
    requires Blank(line)
    ensures SectionOf(line).None? && EntryOf(line).None?
  {
    assert line != [] ==> IsSpace(line[|line| - 1]);
    if |line| > 4 {
      assert IsSpace(line[4]);
      WordIs(line[4..], []);
    }
  }

  // ---- reading back what was written ---------------------------------------

  lemma QuotesAlone(indent: nat)
    ensures RStrip(QUOTES) == QUOTES
    ensures Dedented(Spaces(indent) + QUOTES, indent) == QUOTES
  {
    assert Upto(Spaces(indent) + QUOTES, indent) == Spaces(indent);
  }

  lemma IndentedReadsBack(line: Line, indent: nat)
    ensures Dedented(Indented(line, indent), indent) == if Blank(line) then "" else line
  {
    if !Blank(line) {
      assert Upto(Spaces(indent) + line, indent) == Spaces(indent);
      assert From(Spaces(indent) + line, indent) == line;
    }
  }

  lemma RestReadsBack(rest: Lines, indent: nat)
    ensures DedentedAll(IndentedAll(rest, indent) + [Spaces(indent) + QUOTES], indent) == Norm(rest) + [QUOTES]
  {
    var raw := IndentedAll(rest, indent) + [Spaces(indent) + QUOTES];
    QuotesAlone(indent);
    forall i | 0 <= i < |rest| ensures Dedented(raw[i], indent) == Norm(rest)[i] {
      IndentedReadsBack(rest[i], indent);
    }
  }

  lemma ReadsBack(body: Lines, indent: nat)
    requires body != []
    ensures Read(Written(body, indent), indent) == Ok([body[0]] + Norm(body[1..]))
  {
    var raw := Written(body, indent);
    assert From(raw[0], indent) == QUOTES + body[0];
    assert (QUOTES + body[0])[3..] == body[0];
    assert raw[1..] == IndentedAll(body[1..], indent) + [Spaces(indent) + QUOTES];
    RestReadsBack(body[1..], indent);
    var read := [body[0]] + Norm(body[1..]);
    assert [body[0]] + (Norm(body[1..]) + [QUOTES]) == read + [QUOTES];
    UnclosedAlone(read);
  }

  lemma UnclosedAlone(read: Lines)
    ensures Unclosed(read + [QUOTES]) == Ok(read)
  {
    QuotesAlone(0);
    assert QUOTES[..0] == "" && Blank(QUOTES[..0]);
    assert (read + [QUOTES])[..|read|] == read;
  }

  // ---- trimming ------------------------------------------------------------

  lemma {:induction false} TrimNorm(lines: Lines)
    ensures Trimmed(Norm(lines)) == Norm(Trimmed(lines))
    decreases |lines|
  {
    var n := |lines| - 1;
    if lines == [] {
    } else if Blank(lines[0]) {
      assert Norm(lines)[1..] == Norm(lines[1..]);
      TrimNorm(lines[1..]);
    } else if Blank(lines[n]) {
      assert Norm(lines)[..n] == Norm(lines[..n]);
      TrimNorm(lines[..n]);
    }
  }

  lemma TrimTrimmed(lines: Lines)
    requires lines == [] || (!Blank(lines[0]) && !Blank(lines[|lines| - 1]))
    ensures Trimmed(lines) == lines && Trimmed(lines + [""]) == lines
  {
    assert (lines + [""])[..|lines|] == lines;
  }

  lemma {:induction false} TrimKeeps(lines: Lines, line: Line)
    requires line in lines && !Blank(line)
    ensures line in Trimmed(lines)
    decreases |lines|
  {
    var n := |lines| - 1;
    if Blank(lines[0]) {
      assert lines == [lines[0]] + lines[1..];
      TrimKeeps(lines[1..], line);
    } else if Blank(lines[n]) {
      assert lines == lines[..n] + [lines[n]];
      TrimKeeps(lines[..n], line);
    }
  }

  /** What trimming leaves is the lines from the first that is not blank to the last. */
  lemma {:induction false} TrimmedIs(lines: Lines) returns (from: nat, upto: nat)
    ensures from <= upto <= |lines| && Trimmed(lines) == lines[from..upto]
    ensures forall i :: 0 <= i < from || upto <= i < |lines| ==> Blank(lines[i])
    ensures from < upto ==> !Blank(lines[from]) && !Blank(lines[upto - 1])
    decreases |lines|
  {
    hide Blank;
    var n := |lines| - 1;
    if lines == [] {
      from, upto := 0, 0;
    } else if Blank(lines[0]) {
      from, upto := TrimmedIs(lines[1..]);
      from, upto := from + 1, upto + 1;
      assert lines[1..][from - 1..upto - 1] == lines[from..upto];
      forall i | 0 <= i < from || upto <= i < |lines| ensures Blank(lines[i]) {
        assert i > 0 ==> lines[i] == lines[1..][i - 1];
      }
    } else if Blank(lines[n]) {
      from, upto := TrimmedIs(lines[..n]);
      assert lines[..n][from..upto] == lines[from..upto];
      forall i | 0 <= i < from || upto <= i < |lines| ensures Blank(lines[i]) {
        assert i < n ==> lines[i] == lines[..n][i];
      }
    } else {
      from, upto := 0, |lines|;
    }
  }

  // ---- rewriting entries ---------------------------------------------------

  // The lines of a section as a reader sees them: entries, and lines that belong to none.
  datatype Block = Loose(line: Line) | Entry(name: string, lines: Lines)

  predicate WholeBlock(block: Block) {
    match block
    case Loose(line) => EntryOf(line).None?
    case Entry(name, lines) =>
      lines != [] && EntryOf(lines[0]) == Some(name) && forall i :: 1 <= i < |lines| ==> !Boundary(lines[i])
  }

  function LinesOf(block: Block): Lines {
    match block
    case Loose(line) => [line]
    case Entry(_, lines) => lines
  }

  function Flat(blocks: seq<Block>): Lines {
    if blocks == [] then [] else LinesOf(blocks[0]) + Flat(blocks[1..])
  }

  // Whole blocks, and no entry cut short.
  predicate Parsed(blocks: seq<Block>) {
    blocks != [] ==>
      && WholeBlock(blocks[0])
      && (blocks[0].Entry? && Flat(blocks[1..]) != [] ==> Boundary(Flat(blocks[1..])[0]))
      && Parsed(blocks[1..])
  }

  function Substituted(blocks: seq<Block>, entries: map<string, Lines>): Lines {
    if blocks == [] then []
    else
      (if blocks[0].Entry? && blocks[0].name in entries then entries[blocks[0].name] else LinesOf(blocks[0]))
      + Substituted(blocks[1..], entries)
  }

  /** Rewriting puts the copy in for each whole entry it describes, and keeps every other line in its place. */
  lemma {:induction false} RewrittenBlocks(blocks: seq<Block>, entries: map<string, Lines>)
    requires Parsed(blocks)
    ensures Rewritten(Flat(blocks), entries) == Substituted(blocks, entries)
    decreases |blocks|
  {
    hide EntryOf, Boundary;
    if blocks != [] {
      var rest := Flat(blocks[1..]);
      var lines := Flat(blocks);
      RewrittenBlocks(blocks[1..], entries);
      match blocks[0]
      case Loose(line) => assert lines[1..] == rest;
      case Entry(name, ls) =>
        assert lines[1..] == ls[1..] + rest;
        ContinuedOver(ls[1..], rest);
        assert lines[..|ls|] == ls && lines[|ls|..] == rest;
        RewrittenEntry(lines, entries, name, |ls|);
    }
  }

  /** Every section is made of such blocks. */
  lemma {:induction false} EveryLineInABlock(lines: Lines) returns (blocks: seq<Block>)
    ensures Parsed(blocks) && Flat(blocks) == lines
    decreases |lines|
  {
    hide EntryOf, Boundary, WholeBlock;
    if lines == [] {
      blocks := [];
    } else {
      var first, end := FirstBlock(lines);
      var rest := EveryLineInABlock(lines[end..]);
      blocks := [first] + rest;
      assert blocks[1..] == rest;
      assert lines[..end] + lines[end..] == lines;
    }
  }

  lemma FirstBlock(lines: Lines) returns (first: Block, end: nat)
    requires lines != []
    ensures 0 < end <= |lines| && LinesOf(first) == lines[..end] && WholeBlock(first)
    ensures first.Entry? && lines[end..] != [] ==> Boundary(lines[end..][0])
  {
    hide EntryOf;
    if EntryOf(lines[0]).None? {
      first, end := Loose(lines[0]), 1;
    } else {
      end := 1 + Continued(lines[1..]);
      first := Entry(EntryOf(lines[0]).value, lines[..end]);
      forall i | 1 <= i < end ensures !Boundary(lines[..end][i]) {
        assert lines[..end][i] == lines[1..][i - 1];
      }
      assert end < |lines| ==> lines[end..][0] == lines[1..][end - 1];
    }
  }

  // Every entry the copy has is wrapped, and its first line still opens it.
  ghost predicate Rereads(entries: map<string, Lines>) {
    forall name :: name in entries ==> WellWrapped(name, entries[name]) && EntryOf(entries[name][0]) == Some(name)
  }

  lemma Continuation(line: Line)
    requires |line| >= 8 && line[..8] == "        "
    ensures EntryOf(line).None? && SectionOf(line).None?
  {
    assert line[4] == line[..8][4];
    WordIs(line[4..], []);
    assert line[..|line| - 1][0] == line[..8][0] == ' ';
  }

  lemma WrappedLines(name: string, lines: Lines)
    requires WellWrapped(name, lines)
    ensures !Blank(lines[0]) && SectionOf(lines[0]).None?
    ensures forall i :: 1 <= i < |lines| ==> !Boundary(lines[i]) && SectionOf(lines[i]).None?
  {
    assert lines[0][4 + |name|] == Head(name)[4 + |name|] == ':';
    assert !IsSpace(lines[0][4 + |name|]);
    assert lines[0][..|lines[0]| - 1][0] == Head(name)[0] == ' ';
    forall i | 1 <= i < |lines| ensures !Boundary(lines[i]) && SectionOf(lines[i]).None? {
      Continuation(lines[i]);
    }
  }

  // A wrapped entry is one entry, whatever follows it.
  lemma {:induction false} ContinuedOver(more: Lines, rest: Lines)
    requires forall i :: 0 <= i < |more| ==> !Boundary(more[i])
    requires rest == [] || Boundary(rest[0])
    ensures Continued(more + rest) == |more|
    decreases |more|
  {
    if more == [] {
      assert more + rest == rest;
    } else {
      assert (more + rest)[1..] == more[1..] + rest;
      ContinuedOver(more[1..], rest);
    }
  }

  lemma {:induction false} RewrittenStarts(lines: Lines, entries: map<string, Lines>)
    requires Rereads(entries) && (lines == [] || Boundary(lines[0]))
    ensures var r := Rewritten(lines, entries); r == [] || Boundary(r[0])
  {
  }

  lemma {:induction false} RewriteIdempotent(lines: Lines, entries: map<string, Lines>)
    requires Rereads(entries)
    ensures Rewritten(Rewritten(lines, entries), entries) == Rewritten(lines, entries)
    decreases |lines|
  {
    if lines != [] {
      if EntryOf(lines[0]).None? {
        RewriteIdempotent(lines[1..], entries);
        assert Rewritten(lines, entries)[1..] == Rewritten(lines[1..], entries);
      } else {
        var name := EntryOf(lines[0]).value;
        var end := 1 + Continued(lines[1..]);
        var piece := if name in entries then entries[name] else lines[..end];
        var rest := Rewritten(lines[end..], entries);
        RewriteIdempotent(lines[end..], entries);
        RewrittenStarts(lines[end..], entries);
        if name in entries {
          WrappedLines(name, entries[name]);
        } else {
          forall i | 1 <= i < |piece| ensures !Boundary(piece[i]) {
            assert piece[i] == lines[1..][i - 1];
          }
        }
        RewriteEntry(piece, rest, name, entries);
      }
    }
  }

  lemma RewriteEntry(piece: Lines, rest: Lines, name: string, entries: map<string, Lines>)
    requires piece != [] && EntryOf(piece[0]) == Some(name)
    requires forall i :: 1 <= i < |piece| ==> !Boundary(piece[i])
    requires rest == [] || Boundary(rest[0])
    ensures Rewritten(piece + rest, entries) ==
            (if name in entries then entries[name] else piece) + Rewritten(rest, entries)
  {
    var all := piece + rest;
    assert all[1..] == piece[1..] + rest;
    ContinuedOver(piece[1..], rest);
    assert all[..|piece|] == piece && all[|piece|..] == rest;
  }

  lemma {:induction false} ContinuedNorm(lines: Lines)
    ensures Continued(Norm(lines)) == Continued(lines)
    decreases |lines|
  {
    if lines != [] && !Boundary(lines[0]) {
      assert Norm(lines)[1..] == Norm(lines[1..]);
      ContinuedNorm(lines[1..]);
    }
  }

  lemma RewriteNormPlain(lines: Lines, entries: map<string, Lines>)
    requires lines != [] && EntryOf(lines[0]).None?
    ensures Rewritten(Norm(lines), entries) == Norm([lines[0]]) + Rewritten(Norm(lines[1..]), entries)
  {
    assert EntryOf("").None?;
    assert Norm(lines)[1..] == Norm(lines[1..]);
    assert Norm([lines[0]]) == [Norm(lines)[0]];
  }

  lemma EntryNorm(lines: Lines, end: nat)
    requires lines != [] && EntryOf(lines[0]).Some? && end == 1 + Continued(lines[1..])
    ensures end <= |lines| && Norm(lines)[0] == lines[0] && 1 + Continued(Norm(lines)[1..]) == end
    ensures Norm(lines)[..end] == Norm(lines[..end]) && Norm(lines)[end..] == Norm(lines[end..])
  {
    if Blank(lines[0]) { BlankLine(lines[0]); }
    assert Norm(lines)[1..] == Norm(lines[1..]);
    ContinuedNorm(lines[1..]);
  }

  lemma WrappedNorm(name: string, lines: Lines)
    requires WellWrapped(name, lines)
    ensures Norm(lines) == lines
  {
    WrappedLines(name, lines);
  }

  lemma RewriteNormEntry(lines: Lines, entries: map<string, Lines>, end: nat)
    requires Rereads(entries) && lines != [] && EntryOf(lines[0]).Some? && end == 1 + Continued(lines[1..])
    ensures end <= |lines|
    ensures var name := EntryOf(lines[0]).value;
            Rewritten(Norm(lines), entries) ==
            Norm(Copied(lines, entries, name, end)) + Rewritten(Norm(lines[end..]), entries)
  {
    var name := EntryOf(lines[0]).value;
    EntryNorm(lines, end);
    RewrittenEntry(Norm(lines), entries, name, end);
    if name in entries {
      WrappedNorm(name, entries[name]);
    }
  }

  lemma {:induction false} RewriteNorm(lines: Lines, entries: map<string, Lines>)
    requires Rereads(entries)
    ensures Rewritten(Norm(lines), entries) == Norm(Rewritten(lines, entries))
    decreases |lines|
  {
    if lines == [] {
    } else if EntryOf(lines[0]).None? {
      RewriteNormPlain(lines, entries);
      RewriteNorm(lines[1..], entries);
      NormConcat([lines[0]], Rewritten(lines[1..], entries));
    } else {
      var name := EntryOf(lines[0]).value;
      var end := 1 + Continued(lines[1..]);
      RewriteNormEntry(lines, entries, end);
      RewriteNorm(lines[end..], entries);
      NormConcat(Copied(lines, entries, name, end), Rewritten(lines[end..], entries));
    }
  }

  lemma {:induction false} ContinuedBefore(lines: Lines, blank: Line)
    requires Blank(blank)
    ensures Continued(lines + [blank]) == Continued(lines)
    decreases |lines|
  {
    if lines == [] {
      assert lines + [blank] == [blank];
    } else {
      assert (lines + [blank])[1..] == lines[1..] + [blank];
      ContinuedBefore(lines[1..], blank);
    }
  }

  lemma {:induction false} RewriteBefore(lines: Lines, blank: Line, entries: map<string, Lines>)
    requires Blank(blank)
    ensures Rewritten(lines + [blank], entries) == Rewritten(lines, entries) + [blank]
    decreases |lines|
  {
    var all := lines + [blank];
    if lines == [] {
      BlankLine(blank);
      assert all == [blank] && all[1..] == [];
    } else if EntryOf(lines[0]).None? {
      assert all[1..] == lines[1..] + [blank];
      RewriteBefore(lines[1..], blank, entries);
      Regroup([lines[0]], Rewritten(lines[1..], entries), [blank]);
    } else {
      var name, end := EntryOf(lines[0]).value, 1 + Continued(lines[1..]);
      assert all[1..] == lines[1..] + [blank];
      ContinuedBefore(lines[1..], blank);
      assert all[..end] == lines[..end] && all[end..] == lines[end..] + [blank];
      RewrittenEntry(all, entries, name, end);
      RewriteBefore(lines[end..], blank, entries);
      Regroup(Copied(lines, entries, name, end), Rewritten(lines[end..], entries), [blank]);
    }
  }

  ghost predicate EndsInk(lines: Lines) {
    lines != [] && !Blank(lines[|lines| - 1])
  }

  lemma EndsInkConcat(a: Lines, b: Lines)
    requires if b == [] then EndsInk(a) else EndsInk(b)
    ensures EndsInk(a + b)
  {
  }

  lemma CopiedEnds(lines: Lines, entries: map<string, Lines>, name: string)
    requires Rereads(entries) && EndsInk(lines)
    ensures EndsInk(Copied(lines, entries, name, |lines|))
  {
    if name in entries {
      WrappedLines(name, entries[name]);
    } else {
      assert lines[..|lines|] == lines;
    }
  }

  lemma {:induction false} RewrittenEnds(lines: Lines, entries: map<string, Lines>)
    requires Rereads(entries) && EndsInk(lines)
    ensures EndsInk(Rewritten(lines, entries))
    decreases |lines|
  {
    if EntryOf(lines[0]).None? {
      if |lines| > 1 {
        assert EndsInk(lines[1..]);
        RewrittenEnds(lines[1..], entries);
      }
      EndsInkConcat([lines[0]], Rewritten(lines[1..], entries));
    } else {
      var name, end := EntryOf(lines[0]).value, 1 + Continued(lines[1..]);
      RewrittenEntry(lines, entries, name, end);
      if end < |lines| {
        assert EndsInk(lines[end..]);
        RewrittenEnds(lines[end..], entries);
      } else {
        CopiedEnds(lines, entries, name);
      }
      EndsInkConcat(Copied(lines, entries, name, end), Rewritten(lines[end..], entries));
    }
  }

  lemma {:induction false} RewriteTrim(lines: Lines, entries: map<string, Lines>)
    requires Rereads(entries)
    ensures Rewritten(Trimmed(lines), entries) == Trimmed(Rewritten(lines, entries))
    decreases |lines|
  {
    hide EntryOf, Boundary, Rereads;
    if lines != [] {
      var n := |lines| - 1;
      if Blank(lines[0]) {
        BlankLine(lines[0]);
        RewriteTrim(lines[1..], entries);
        assert Rewritten(lines, entries)[1..] == Rewritten(lines[1..], entries);
      } else if Blank(lines[n]) {
        RewriteTrim(lines[..n], entries);
        assert lines == lines[..n] + [lines[n]];
        RewriteBefore(lines[..n], lines[n], entries);
        var r := Rewritten(lines[..n], entries);
        assert lines[..n] != [] && lines[..n][0] == lines[0];
        RewrittenOpens(lines[..n], entries);
        assert (r + [lines[n]])[..|r|] == r;
      } else {
        RewrittenOpens(lines, entries);
        RewrittenEnds(lines, entries);
      }
    }
  }

  lemma RewrittenOpens(lines: Lines, entries: map<string, Lines>)
    requires Rereads(entries) && lines != [] && !Blank(lines[0])
    ensures var r := Rewritten(lines, entries); r != [] && !Blank(r[0])
  {
    if EntryOf(lines[0]).Some? && EntryOf(lines[0]).value in entries {
      WrappedLines(EntryOf(lines[0]).value, entries[EntryOf(lines[0]).value]);
    }
  }

  /** What a section's lines are read back as is rewritten to what they already are. */
  lemma RewrittenSettles(lines: Lines, entries: map<string, Lines>)
    requires Rereads(entries)
    ensures var t := Trimmed(Norm(Rewritten(lines, entries)));
            Rewritten(t, entries) == t && Rewritten(t + [""], entries) == t + [""]
  {
    var r := Rewritten(lines, entries);
    RewriteIdempotent(lines, entries);
    RewriteNorm(r, entries);
    RewriteTrim(Norm(r), entries);
    RewriteBefore(Trimmed(Norm(r)), "", entries);
  }
}
