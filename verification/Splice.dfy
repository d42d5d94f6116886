/**
  `apply` of `scripts/sync_tool_docs.py`: the rewritten docstrings are spliced
  into the file from the last one to the first, each by the line numbers it had
  in the file that was read. Replacing all the spans at once gives the same file.
 */
module Splice {
  import opened Wrappers
  import opened Text
  import opened Docstrings

  datatype Edit = Edit(start: nat, end: nat, text: Lines)

  // Docstrings are some lines of the file, and no two share one.
  ghost predicate Spans(lines: Lines, edits: seq<Edit>) {
    && (forall i :: 0 <= i < |edits| ==> edits[i].start < edits[i].end <= |lines|)
    && (forall i, j :: 0 <= i < j < |edits| ==> edits[i].end <= edits[j].start || edits[j].end <= edits[i].start)
  }

  // ---- all at once ---------------------------------------------------------

  function EditAt(edits: seq<Edit>, line: nat): (r: Option<Edit>)
    ensures r.None? ==> forall edit :: edit in edits ==> edit.start != line
    ensures r.Some? ==> r.value in edits && r.value.start == line
  {
    if edits == [] then None else if edits[0].start == line then Some(edits[0]) else EditAt(edits[1..], line)
  }

  // The file from `line` on, read through once: each span's text in its place, every other line as it is.
  ghost function Replaced(lines: Lines, edits: seq<Edit>, line: nat): Lines
    requires Spans(lines, edits) && line <= |lines|
    decreases |lines| - line
  {
    if line == |lines| then []
    else match EditAt(edits, line)
      case None => [lines[line]] + Replaced(lines, edits, line + 1)
      case Some(edit) => edit.text + Replaced(lines, edits, edit.end)
  }

  lemma {:induction false} Untouched(lines: Lines, edits: seq<Edit>, from: nat, upto: nat)
    requires Spans(lines, edits) && from <= upto <= |lines|
    requires forall edit :: edit in edits ==> !(from <= edit.start < upto)
    ensures Replaced(lines, edits, from) == lines[from..upto] + Replaced(lines, edits, upto)
    decreases upto - from
  {
    var rest := Replaced(lines, edits, upto);
    if from == upto {
      assert lines[from..upto] + rest == rest;
    } else {
      assert EditAt(edits, from).None?;
      Untouched(lines, edits, from + 1, upto);
      assert lines[from..upto] == [lines[from]] + lines[from + 1..upto];
      Regroup([lines[from]], lines[from + 1..upto], rest);
    }
  }

  // ---- last first ----------------------------------------------------------

  // `edit[:2]` of the one is no smaller than that of the other.
  predicate NotBefore(a: Edit, b: Edit) {
    a.start > b.start || (a.start == b.start && a.end >= b.end)
  }

  ghost predicate LastFirst(edits: seq<Edit>) {
    forall i, j :: 0 <= i < j < |edits| ==> NotBefore(edits[i], edits[j])
  }

  method SortedLastFirst(edits: seq<Edit>) returns (sorted: seq<Edit>)
    ensures multiset(sorted) == multiset(edits) && LastFirst(sorted)
  {
    sorted := [];
    var i := 0;
    while i < |edits|
      invariant 0 <= i <= |edits|
      invariant multiset(sorted) == multiset(edits[..i]) && LastFirst(sorted)
    {
      assert edits[..i + 1] == edits[..i] + [edits[i]];
      sorted := Inserted(sorted, edits[i]);
      i := i + 1;
    }
    assert edits[..i] == edits;
  }

  method Inserted(sorted: seq<Edit>, edit: Edit) returns (more: seq<Edit>)
    requires LastFirst(sorted)
    ensures multiset(more) == multiset(sorted) + multiset{edit} && LastFirst(more)
  {
    var k := 0;
    while k < |sorted| && NotBefore(sorted[k], edit)
      invariant 0 <= k <= |sorted|
      invariant forall i :: 0 <= i < k ==> NotBefore(sorted[i], edit)
    {
      k := k + 1;
    }
    more := sorted[..k] + [edit] + sorted[k..];
    assert sorted == sorted[..k] + sorted[k..];
    InsertedInOrder(sorted, edit, k);
  }

  lemma InsertedInOrder(sorted: seq<Edit>, edit: Edit, k: nat)
    requires LastFirst(sorted) && k <= |sorted|
    requires forall i :: 0 <= i < k ==> NotBefore(sorted[i], edit)
    requires k < |sorted| ==> NotBefore(edit, sorted[k])
    ensures LastFirst(sorted[..k] + [edit] + sorted[k..])
  {
    var more := sorted[..k] + [edit] + sorted[k..];
    forall i, j | 0 <= i < j < |more| ensures NotBefore(more[i], more[j]) {
      if i < k {
        assert more[i] == sorted[i] && (j < k ==> more[j] == sorted[j]) && (j > k ==> more[j] == sorted[j - 1]);
      } else if i == k {
        assert more[i] == edit && more[j] == sorted[j - 1];
        assert j - 1 > k ==> NotBefore(sorted[k], sorted[j - 1]);
      } else {
        assert more[i] == sorted[i - 1] && more[j] == sorted[j - 1];
      }
    }
  }

  lemma InOrder(lines: Lines, edits: seq<Edit>, sorted: seq<Edit>)
    requires Spans(lines, edits) && multiset(sorted) == multiset(edits) && LastFirst(sorted)
    ensures forall edit :: edit in edits <==> edit in sorted
    ensures forall i :: 0 <= i < |sorted| ==> sorted[i].start < sorted[i].end <= |lines|
    ensures forall i, j :: 0 <= i < j < |sorted| ==> sorted[j].end <= sorted[i].start
  {
    forall edit ensures edit in edits <==> edit in sorted {
      assert edit in edits <==> edit in multiset(edits);
      assert edit in sorted <==> edit in multiset(sorted);
    }
    forall i | 0 <= i < |sorted| ensures sorted[i].start < sorted[i].end <= |lines| {
      assert sorted[i] in edits;
    }
    forall i, j | 0 <= i < j < |sorted| ensures sorted[j].end <= sorted[i].start {
      Apart(lines, edits, sorted, i, j);
    }
  }

  lemma {:induction false} Once(edits: seq<Edit>, edit: Edit)
    requires forall i, j :: 0 <= i < j < |edits| ==> edits[i] != edits[j]
    ensures multiset(edits)[edit] <= 1
  {
    if edits != [] {
      var n := |edits| - 1;
      assert edits == edits[..n] + [edits[n]];
      Once(edits[..n], edit);
      if edits[n] == edit {
        assert edit !in edits[..n];
        assert edit !in multiset(edits[..n]);
      }
    }
  }

  lemma Twice(edits: seq<Edit>, i: nat, j: nat)
    requires i < j < |edits| && edits[i] == edits[j]
    ensures multiset(edits)[edits[i]] >= 2
  {
    assert edits == edits[..j] + edits[j..];
    assert edits[i] in edits[..j] && edits[j] in edits[j..];
    assert edits[i] in multiset(edits[..j]) && edits[j] in multiset(edits[j..]);
  }

  // Two places of the sorted list hold two places of the list it was sorted from.
  lemma Apart(lines: Lines, edits: seq<Edit>, sorted: seq<Edit>, i: nat, j: nat)
    requires Spans(lines, edits) && multiset(sorted) == multiset(edits) && LastFirst(sorted) && i < j < |sorted|
    requires sorted[i] in edits && sorted[j] in edits
    ensures sorted[j].end <= sorted[i].start
  {
    assert sorted[i] != sorted[j] by {
      Once(edits, sorted[i]);
      if sorted[i] == sorted[j] {
        Twice(sorted, i, j);
        assert false;
      }
    }
    var p :| 0 <= p < |edits| && edits[p] == sorted[i];
    var q :| 0 <= q < |edits| && edits[q] == sorted[j];
    assert NotBefore(sorted[i], sorted[j]);
  }

  /** The loop of `apply` computes the file with every span replaced by its own text, in any order of the edits. */
  method Apply(lines: Lines, edits: seq<Edit>) returns (out: Lines)
    requires Spans(lines, edits)
    ensures out == Replaced(lines, edits, 0)
  {
    out := lines;
    var sorted := SortedLastFirst(edits);
    InOrder(lines, edits, sorted);
    ghost var done := |lines|;      // where the last span replaced starts
    var i := 0;
    while i < |sorted|
      invariant 0 <= i <= |sorted|
      invariant done == if i == 0 then |lines| else sorted[i - 1].start
      invariant out == lines[..done] + Replaced(lines, edits, done)
    {
      var edit := sorted[i];
      NextSpan(lines, edits, sorted, i);
      SpliceOne(lines, done, edit, Replaced(lines, edits, done));
      out := out[..edit.start] + edit.text + out[edit.end..];
      done := edit.start;
      i := i + 1;
    }
    Untouched(lines, edits, 0, done);
  }

  lemma SpliceOne(lines: Lines, done: nat, edit: Edit, rest: Lines)
    requires edit.start < edit.end <= done <= |lines|
    ensures var out := lines[..done] + rest;
            out[..edit.start] + edit.text + out[edit.end..] ==
            lines[..edit.start] + (edit.text + (lines[edit.end..done] + rest))
  {
  }

  lemma NextSpan(lines: Lines, edits: seq<Edit>, sorted: seq<Edit>, i: nat)
    requires Spans(lines, edits) && i < |sorted|
    requires forall edit :: edit in edits <==> edit in sorted
    requires forall k :: 0 <= k < |sorted| ==> sorted[k].start < sorted[k].end <= |lines|
    requires forall j, k :: 0 <= j < k < |sorted| ==> sorted[k].end <= sorted[j].start
    ensures var done := if i == 0 then |lines| else sorted[i - 1].start;
            && sorted[i].end <= done <= |lines|
            && Replaced(lines, edits, sorted[i].start) ==
               sorted[i].text + (lines[sorted[i].end..done] + Replaced(lines, edits, done))
  {
    var edit := sorted[i];
    var done := if i == 0 then |lines| else sorted[i - 1].start;
    assert edit in edits;
    var found := EditAt(edits, edit.start).value;
    assert found in sorted;
    assert found == edit;
    forall other | other in edits ensures !(edit.end <= other.start < done) {
      assert other in sorted;
    }
    Untouched(lines, edits, edit.end, done);
  }

  // ---- a file that has not drifted -----------------------------------------

  /** Splicing in the docstrings a file already has leaves every line of it as it is. */
  lemma {:induction false} UndriftedUnchanged(lines: Lines, edits: seq<Edit>, line: nat)
    requires Spans(lines, edits) && line <= |lines|
    requires forall edit :: edit in edits ==> edit.text == lines[edit.start..edit.end]
    ensures Replaced(lines, edits, line) == lines[line..]
    decreases |lines| - line
  {
    if line < |lines| {
      match EditAt(edits, line) {
        case None =>
          UndriftedUnchanged(lines, edits, line + 1);
        case Some(edit) =>
          UndriftedUnchanged(lines, edits, edit.end);
          assert lines[line..edit.end] + lines[edit.end..] == lines[line..];
      }
    }
  }
}
