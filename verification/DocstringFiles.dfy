/**
  A whole file through the docstring rewriter of `scripts/sync_tool_docs.py`:
  each docstring rewritten from the lines it spans, then all of them spliced in.
  Where the rewriting stands moves with what was written above it; running the
  script on its own output, with every docstring at its new place, gives that
  output again.
 */
module DocstringFiles {
  import opened Wrappers
  import opened Text
  import opened Docstrings
  import opened DocstringFixedPoint
  import opened Splice

  // A docstring the parser found: the lines it spans, its column, and the copy for it.
  datatype Docstring = Docstring(start: int, end: int, indent: nat, copy: Copy)

  ghost predicate Placed(lines: Lines, docs: seq<Docstring>) {
    && (forall i :: 0 <= i < |docs| ==> 0 <= docs[i].start < docs[i].end <= |lines|)
    && (forall i, j :: 0 <= i < j < |docs| ==> docs[i].end <= docs[j].start || docs[j].end <= docs[i].start)
  }

  ghost function SyncOne(lines: Lines, doc: Docstring): Result<Lines, Drift>
    requires 0 <= doc.start < doc.end <= |lines|
  {
    Sync(lines[doc.start..doc.end], doc.indent, doc.copy)
  }

  // The edits collected, or the first docstring's drift that stops the run.
  ghost function Edits(lines: Lines, docs: seq<Docstring>): (r: Result<seq<Edit>, Drift>)
    requires Placed(lines, docs)
    ensures r.Ok? ==> |r.value| == |docs|
  {
    if docs == [] then Ok([])
    else
      var n := |docs| - 1;
      match Edits(lines, docs[..n])
      case Err(drift) => Err(drift)
      case Ok(edits) =>
        match SyncOne(lines, docs[n])
        case Err(drift) => Err(drift)
        case Ok(text) => Ok(edits + [Edit(docs[n].start, docs[n].end, text)])
  }

  lemma {:induction false} EditsExactly(lines: Lines, docs: seq<Docstring>)
    requires Placed(lines, docs)
    ensures Edits(lines, docs).Ok? <==> forall i :: 0 <= i < |docs| ==> SyncOne(lines, docs[i]).Ok?
    ensures Edits(lines, docs).Ok? ==> forall i :: 0 <= i < |docs| ==>
              Edits(lines, docs).value[i] == Edit(docs[i].start, docs[i].end, SyncOne(lines, docs[i]).value)
    ensures Edits(lines, docs).Err? ==>
              exists i :: 0 <= i < |docs| && SyncOne(lines, docs[i]) == Err(Edits(lines, docs).error)
  {
    hide SyncOne;
    if docs != [] {
      EditsExactly(lines, docs[..|docs| - 1]);
    }
  }

  lemma EditsSpan(lines: Lines, docs: seq<Docstring>)
    requires Placed(lines, docs) && Edits(lines, docs).Ok?
    ensures Spans(lines, Edits(lines, docs).value)
  {
    hide SyncOne, Edits;
    EditsExactly(lines, docs);
  }

  // `sync_types`, and `sync_operations`, from the source's lines to the ones written.
  ghost function SyncFile(lines: Lines, docs: seq<Docstring>): Result<Lines, Drift>
    requires Placed(lines, docs)
  {
    match Edits(lines, docs)
    case Err(drift) => Err(drift)
    case Ok(edits) => EditsSpan(lines, docs); Ok(Replaced(lines, edits, 0))
  }

  // ---- where a line goes ---------------------------------------------------

  function Grown(edit: Edit): int {
    |edit.text| - (edit.end - edit.start)
  }

  // How many lines longer the file gets by the edits that start in `from..upto`.
  function Growth(edits: seq<Edit>, from: int, upto: int): int {
    if edits == [] then 0
    else Growth(edits[..|edits| - 1], from, upto) +
         if from <= edits[|edits| - 1].start < upto then Grown(edits[|edits| - 1]) else 0
  }

  lemma {:induction false} GrowthNone(edits: seq<Edit>, from: int, upto: int)
    requires forall edit :: edit in edits ==> !(from <= edit.start < upto)
    ensures Growth(edits, from, upto) == 0
  {
    if edits != [] {
      assert edits[|edits| - 1] in edits;
      GrowthNone(edits[..|edits| - 1], from, upto);
    }
  }

  lemma {:induction false} GrowthSplits(edits: seq<Edit>, from: int, at: int, upto: int)
    requires from <= at <= upto
    ensures Growth(edits, from, upto) == Growth(edits, from, at) + Growth(edits, at, upto)
  {
    if edits != [] {
      GrowthSplits(edits[..|edits| - 1], from, at, upto);
    }
  }

  lemma {:induction false} GrowthOne(edits: seq<Edit>, k: nat, from: int, upto: int)
    requires k < |edits| && from <= edits[k].start < upto
    requires forall i :: 0 <= i < |edits| && i != k ==> !(from <= edits[i].start < upto)
    ensures Growth(edits, from, upto) == Grown(edits[k])
  {
    var n := |edits| - 1;
    if k == n {
      GrowthNone(edits[..n], from, upto);
    } else {
      GrowthOne(edits[..n], k, from, upto);
    }
  }

  // Where the line at `line` of the old file is in the new one.
  function Place(edits: seq<Edit>, line: int): int {
    line + Growth(edits, 0, line)
  }

  // A line no span starts before and ends after.
  ghost predicate Between(edits: seq<Edit>, line: int) {
    forall edit :: edit in edits ==> line <= edit.start || edit.end <= line
  }

  lemma Adjacent(lines: Lines, edits: seq<Edit>, k: nat)
    requires Spans(lines, edits) && k < |edits|
    ensures EditAt(edits, edits[k].start) == Some(edits[k])
    ensures Between(edits, edits[k].start) && Between(edits, edits[k].end)
    ensures Growth(edits, edits[k].start, edits[k].end) == Grown(edits[k])
  {
    assert edits[k] in edits;
    GrowthOne(edits, k, edits[k].start, edits[k].end);
  }

  // From a line outside every span on, the new file is what follows the old line.
  lemma {:induction false} ReplacedFrom(lines: Lines, edits: seq<Edit>, from: nat, at: nat)
    requires Spans(lines, edits) && from <= at <= |lines| && Between(edits, from) && Between(edits, at)
    ensures var shift := at - from + Growth(edits, from, at);
            && 0 <= shift
            && |Replaced(lines, edits, from)| == shift + |Replaced(lines, edits, at)|
            && Replaced(lines, edits, from)[shift..] == Replaced(lines, edits, at)
    decreases at - from
  {
    hide Growth, Grown, Spans, Between, EditAt, Replaced;
    if from == at {
      GrowthEmpty(edits, at);
    } else {
      match EditAt(edits, from)
      case None =>
        PlainLine(lines, edits, from, at);
        ReplacedFrom(lines, edits, from + 1, at);
        DropPast([lines[from]], Replaced(lines, edits, from + 1), at - (from + 1) + Growth(edits, from + 1, at));
      case Some(edit) =>
        SpanLines(lines, edits, edit, at);
        ReplacedFrom(lines, edits, edit.end, at);
        DropPast(edit.text, Replaced(lines, edits, edit.end), at - edit.end + Growth(edits, edit.end, at));
    }
  }

  lemma GrowthEmpty(edits: seq<Edit>, at: int)
    ensures Growth(edits, at, at) == 0
  {
    GrowthNone(edits, at, at);
  }

  lemma PlainLine(lines: Lines, edits: seq<Edit>, from: nat, at: nat)
    requires Spans(lines, edits) && from < at <= |lines| && Between(edits, from) && EditAt(edits, from).None?
    ensures Between(edits, from + 1)
    ensures Replaced(lines, edits, from) == [lines[from]] + Replaced(lines, edits, from + 1)
    ensures Growth(edits, from, at) == Growth(edits, from + 1, at)
  {
    hide Growth, Spans;
    GrowthSplits(edits, from, from + 1, at);
    GrowthNone(edits, from, from + 1);
  }

  lemma SpanLines(lines: Lines, edits: seq<Edit>, edit: Edit, at: nat)
    requires Spans(lines, edits) && edit.start < at <= |lines| && Between(edits, at)
    requires EditAt(edits, edit.start) == Some(edit)
    ensures Between(edits, edit.end) && edit.start < edit.end <= at
    ensures Replaced(lines, edits, edit.start) == edit.text + Replaced(lines, edits, edit.end)
    ensures Growth(edits, edit.start, at) == |edit.text| - (edit.end - edit.start) + Growth(edits, edit.end, at)
  {
    var k :| 0 <= k < |edits| && edits[k] == edit;
    Adjacent(lines, edits, k);
    GrowthSplits(edits, edit.start, edit.end, at);
  }

  lemma DropPast<T>(a: seq<T>, b: seq<T>, n: nat)
    requires n <= |b|
    ensures (a + b)[|a| + n..] == b[n..]
  {
  }

  lemma DropTwice<T>(s: seq<T>, m: nat, a: seq<T>, b: seq<T>)
    requires m <= |s| && s[m..] == a + b
    ensures m + |a| <= |s| && s[m..m + |a|] == a
  {
    assert |s[m..]| == |a| + |b|;
    forall i | 0 <= i < |a| ensures s[m + i] == a[i] {
      assert s[m..][i] == a[i];
    }
  }

  lemma FromTheTop(edits: seq<Edit>)
    ensures Between(edits, 0)
  {
  }

  /**
    In the spliced file each docstring is found at the line it had, moved by what
    was written above it: there stands its new text, whole, and nothing of another.
   */
  lemma FoundAtItsPlace(lines: Lines, edits: seq<Edit>, k: nat)
    requires Spans(lines, edits) && k < |edits|
    ensures var out := Replaced(lines, edits, 0);
            var at := Place(edits, edits[k].start);
            && 0 <= at && at + |edits[k].text| <= |out|
            && out[at..at + |edits[k].text|] == edits[k].text
            && at + |edits[k].text| == Place(edits, edits[k].end)
  {
    hide Growth, EditAt, Between;
    var edit := edits[k];
    Adjacent(lines, edits, k);
    GrowthSplits(edits, 0, edit.start, edit.end);
    FromTheTop(edits);
    ReplacedFrom(lines, edits, 0, edit.start);
    DropTwice(Replaced(lines, edits, 0), Place(edits, edit.start), edit.text, Replaced(lines, edits, edit.end));
  }

  /** Lines outside the docstrings keep their order. */
  lemma PlacesInOrder(lines: Lines, edits: seq<Edit>, from: nat, upto: nat)
    requires Spans(lines, edits) && from <= upto <= |lines| && Between(edits, from) && Between(edits, upto)
    ensures Place(edits, from) <= Place(edits, upto)
  {
    GrowthSplits(edits, 0, from, upto);
    ReplacedFrom(lines, edits, from, upto);
  }

  // ---- the second run ------------------------------------------------------

  // The docstrings as the second run finds them.
  function Moved(docs: seq<Docstring>, edits: seq<Edit>): (r: seq<Docstring>)
    ensures |r| == |docs|
  {
    seq(|docs|, i requires 0 <= i < |docs| =>
      docs[i].(start := Place(edits, docs[i].start), end := Place(edits, docs[i].end)))
  }

  // Everything the first run wrote stays put in the second.
  lemma MovedPlaced(lines: Lines, docs: seq<Docstring>)
    requires Placed(lines, docs) && Edits(lines, docs).Ok? && Spans(lines, Edits(lines, docs).value)
    requires forall i :: 0 <= i < |docs| ==> Edits(lines, docs).value[i].text != []
    ensures Placed(Replaced(lines, Edits(lines, docs).value, 0), Moved(docs, Edits(lines, docs).value))
  {
    hide Edits, Place, SyncOne, Replaced;
    var edits := Edits(lines, docs).value;
    EditsExactly(lines, docs);
    forall i | 0 <= i < |docs|
      ensures 0 <= Place(edits, docs[i].start) < Place(edits, docs[i].end) <= |Replaced(lines, edits, 0)|
    {
      FoundAtItsPlace(lines, edits, i);
    }
    forall i, j | 0 <= i < |docs| && 0 <= j < |docs| && docs[i].end <= docs[j].start
      ensures Place(edits, docs[i].end) <= Place(edits, docs[j].start)
    {
      Adjacent(lines, edits, i);
      Adjacent(lines, edits, j);
      PlacesInOrder(lines, edits, docs[i].end, docs[j].start);
    }
  }

  ghost predicate AllWrapped(docs: seq<Docstring>) {
    forall i :: 0 <= i < |docs| ==> Wrapped(docs[i].copy.entries)
  }

  ghost predicate EveryEntryOpens(docs: seq<Docstring>)
    requires AllWrapped(docs)
  {
    forall i :: 0 <= i < |docs| ==> AllOpen(docs[i].copy.entries)
  }

  // What a docstring spans in the output is what was written for it.
  lemma MovedLines(lines: Lines, docs: seq<Docstring>, edits: seq<Edit>, k: nat)
    requires Spans(lines, edits) && |docs| == |edits| && k < |docs|
    requires docs[k].start == edits[k].start && docs[k].end == edits[k].end && edits[k].text != []
    ensures var out := Replaced(lines, edits, 0);
            var again := Moved(docs, edits)[k];
            && 0 <= again.start < again.end <= |out|
            && out[again.start..again.end] == edits[k].text
  {
    hide Place, Replaced, Spans;
    FoundAtItsPlace(lines, edits, k);
  }

  // And rewriting that is settled by its entries.
  lemma MovedSyncs(lines: Lines, docs: seq<Docstring>, k: nat)
    requires Placed(lines, docs) && AllWrapped(docs) && SyncFile(lines, docs).Ok? && k < |docs|
    ensures var edits := Edits(lines, docs).value;
            && Spans(lines, edits)
            && edits[k].text != []
            && var out := Replaced(lines, edits, 0);
               var again := Moved(docs, edits)[k];
               && 0 <= again.start < again.end <= |out|
               && out[again.start..again.end] == edits[k].text
               && SyncOne(out, again) == if AllOpen(docs[k].copy.entries) then Ok(edits[k].text) else Err(Undocumented)
  {
    hide Edits, Place, Replaced, Sync, Spans, AllOpen;
    EditsExactly(lines, docs);
    EditsSpan(lines, docs);
    var edits := Edits(lines, docs).value;
    FixedPoint(lines[docs[k].start..docs[k].end], docs[k].indent, docs[k].copy);
    MovedLines(lines, docs, edits, k);
  }

  /**
    Running the script on a file it wrote, with each docstring at its new place,
    reproduces the file exactly when every entry it wrote still opens its entry;
    otherwise the run stops at an entry it no longer finds.
   */
  lemma FileFixedPoint(lines: Lines, docs: seq<Docstring>)
    requires Placed(lines, docs) && AllWrapped(docs) && SyncFile(lines, docs).Ok?
    ensures var out := SyncFile(lines, docs).value;
            var again := Moved(docs, Edits(lines, docs).value);
            && Placed(out, again)
            && SyncFile(out, again) == if EveryEntryOpens(docs) then Ok(out) else Err(Undocumented)
  {
    hide Edits, Place, Replaced, Sync, SyncOne, AllOpen, Spans, Placed, Moved;
    EditsSpan(lines, docs);
    var edits := Edits(lines, docs).value;
    var out := Replaced(lines, edits, 0);
    var again := Moved(docs, edits);
    forall k | 0 <= k < |docs|
      ensures edits[k].text != []
      ensures 0 <= again[k].start < again[k].end <= |out|
      ensures out[again[k].start..again[k].end] == edits[k].text
      ensures SyncOne(out, again[k]) == if AllOpen(docs[k].copy.entries) then Ok(edits[k].text) else Err(Undocumented)
    {
      MovedSyncs(lines, docs, k);
    }
    MovedPlaced(lines, docs);
    EditsExactly(out, again);
    if EveryEntryOpens(docs) {
      EditsSpan(out, again);
      UndriftedUnchanged(out, Edits(out, again).value, 0);
      assert out[0..] == out;
    }
  }
}
