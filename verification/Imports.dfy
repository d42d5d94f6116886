/**
  An import sent as several calls: the batch taken in groups, each answered in
  its own numbering, and the outcomes renumbered against the batch.
  `importMemoriesRequests` in `nodejs/src/internal/requests.ts`, `importMemories`
  in `nodejs/src/operations.ts`, `toImportResult` in `go/memcoai/convert.go`,
  `to_import_result` in `python/memcoai/_convert.py`.
 */
module Imports {

  datatype Outcome<S> = Outcome(index: int, status: S)

  // One call: where its group starts in the batch, and what it was answered.
  datatype Part<S> = Part(offset: nat, results: seq<Outcome<S>>)

  // ---- taking the batch in groups ------------------------------------------

  function Flat<M>(groups: seq<seq<M>>): seq<M> {
    if groups == [] then [] else Flat(groups[..|groups| - 1]) + groups[|groups| - 1]
  }

  // Each group with the position its first memory has in the batch.
  ghost predicate Planned<M>(planned: seq<(nat, seq<M>)>) {
    forall i :: 0 <= i < |planned| ==> planned[i].0 == |Flat(Groups(planned[..i]))|
  }

  function Groups<M>(planned: seq<(nat, seq<M>)>): (groups: seq<seq<M>>)
    ensures |groups| == |planned|
  {
    seq(|planned|, i requires 0 <= i < |planned| => planned[i].1)
  }

  /**
    The groups are the batch, in order, none of them empty and none above the
    cap; a cap of zero, which the service has not reported, takes it whole.
   */
  method Plan<M>(memories: seq<M>, cap: nat) returns (planned: seq<(nat, seq<M>)>)
    ensures Flat(Groups(planned)) == memories && Planned(planned)
    ensures forall i :: 0 <= i < |planned| ==> 0 < |planned[i].1| && (cap > 0 ==> |planned[i].1| <= cap)
    ensures cap == 0 ==> |planned| <= 1
  {
    hide Flat, Groups, Planned;
    planned := [];
    var offset := 0;
    PlannedNone(memories);
    while offset < |memories|
      invariant 0 <= offset <= |memories|
      invariant Flat(Groups(planned)) == memories[..offset] && Planned(planned)
      invariant forall i :: 0 <= i < |planned| ==> 0 < |planned[i].1| && (cap > 0 ==> |planned[i].1| <= cap)
      invariant cap == 0 ==> if offset == 0 then planned == [] else offset == |memories| && |planned| == 1
      decreases |memories| - offset
    {
      var end := if cap == 0 || offset + cap > |memories| then |memories| else offset + cap;
      ghost var before := planned;
      planned := planned + [(offset, memories[offset..end])];
      PlannedMore(before, (offset, memories[offset..end]));
      assert memories[..offset] + memories[offset..end] == memories[..end];
      offset := end;
    }
    assert memories[..offset] == memories;
  }

  lemma PlannedNone<M>(memories: seq<M>)
    ensures Planned<M>([]) && Flat(Groups<M>([])) == memories[..0]
  {
  }

  lemma PlannedMore<M>(planned: seq<(nat, seq<M>)>, more: (nat, seq<M>))
    requires Planned(planned) && more.0 == |Flat(Groups(planned))|
    ensures Planned(planned + [more]) && Flat(Groups(planned + [more])) == Flat(Groups(planned)) + more.1
  {
    var all := planned + [more];
    assert Groups(all)[..|planned|] == Groups(planned);
    forall i | 0 <= i < |all| ensures all[i].0 == |Flat(Groups(all[..i]))| {
      if i < |planned| {
        assert all[..i] == planned[..i];
      } else {
        assert all[..i] == planned;
      }
    }
  }

  // ---- renumbering ---------------------------------------------------------

  function Moved<S>(results: seq<Outcome<S>>, offset: nat): (moved: seq<Outcome<S>>)
    ensures |moved| == |results|
  {
    seq(|results|, i requires 0 <= i < |results| => Outcome(offset + results[i].index, results[i].status))
  }

  function Merged<S>(parts: seq<Part<S>>): seq<Outcome<S>> {
    if parts == [] then []
    else var last := parts[|parts| - 1]; Merged(parts[..|parts| - 1]) + Moved(last.results, last.offset)
  }

  method ToImportResult<S>(parts: seq<Part<S>>) returns (results: seq<Outcome<S>>)
    ensures results == Merged(parts)
  {
    results := [];
    var i := 0;
    while i < |parts|
      invariant 0 <= i <= |parts|
      invariant results == Merged(parts[..i])
    {
      ghost var before := results;
      var part := parts[i];
      var j := 0;
      while j < |part.results|
        invariant 0 <= j <= |part.results|
        invariant results == before + Moved(part.results, part.offset)[..j]
      {
        results := results + [Outcome(part.offset + part.results[j].index, part.results[j].status)];
        j := j + 1;
      }
      assert Moved(part.results, part.offset)[..j] == Moved(part.results, part.offset);
      assert parts[..i + 1][..i] == parts[..i];
      i := i + 1;
    }
    assert parts[..i] == parts;
  }

  // ---- what the indexes mean -----------------------------------------------

  ghost predicate Has<S>(results: seq<Outcome<S>>, index: int) {
    exists i :: 0 <= i < |results| && results[i].index == index
  }

  // The outcomes of the memories from `from` up to `upto`: one each, whatever their order.
  ghost predicate Covers<S>(results: seq<Outcome<S>>, from: int, upto: int) {
    && |results| == upto - from
    && (forall i :: 0 <= i < |results| ==> from <= results[i].index < upto)
    && (forall i, j :: 0 <= i < j < |results| ==> results[i].index != results[j].index)
    && (forall k :: from <= k < upto ==> Has(results, k))
  }

  // Each call is answered with one outcome for each memory of its group.
  ghost predicate Answered<M, S>(groups: seq<seq<M>>, parts: seq<Part<S>>) {
    && |parts| == |groups|
    && forall i :: 0 <= i < |parts| ==>
         parts[i].offset == |Flat(groups[..i])| && Covers(parts[i].results, 0, |groups[i]|)
  }

  lemma MovedCovers<S>(results: seq<Outcome<S>>, offset: nat, n: nat)
    requires Covers(results, 0, n)
    ensures Covers(Moved(results, offset), offset, offset + n)
  {
    var moved := Moved(results, offset);
    forall k | offset <= k < offset + n ensures Has(moved, k) {
      assert Has(results, k - offset);
      var i :| 0 <= i < |results| && results[i].index == k - offset;
      assert moved[i].index == k;
    }
  }

  lemma CoversBoth<S>(a: seq<Outcome<S>>, b: seq<Outcome<S>>, n: nat, m: nat)
    requires Covers(a, 0, n) && Covers(b, n, m)
    ensures Covers(a + b, 0, m)
  {
    var c := a + b;
    forall k | 0 <= k < m ensures Has(c, k) {
      if k < n {
        assert Has(a, k);
        var i :| 0 <= i < |a| && a[i].index == k;
        assert c[i].index == k;
      } else {
        assert Has(b, k);
        var i :| 0 <= i < |b| && b[i].index == k;
        assert c[|a| + i].index == k;
      }
    }
  }

  lemma AnsweredBefore<M, S>(groups: seq<seq<M>>, parts: seq<Part<S>>, n: nat)
    requires Answered(groups, parts) && n <= |parts|
    ensures Answered(groups[..n], parts[..n])
  {
    hide Covers;
    forall i | 0 <= i < n ensures groups[..n][..i] == groups[..i] {
    }
  }

  /** However a batch is split, the merged outcomes have the batch's indexes, each of them once. */
  lemma {:induction false} RenumberedOnce<M, S>(groups: seq<seq<M>>, parts: seq<Part<S>>)
    requires Answered(groups, parts)
    ensures Covers(Merged(parts), 0, |Flat(groups)|)
    decreases |parts|
  {
    if parts != [] {
      var n := |parts| - 1;
      AnsweredBefore(groups, parts, n);
      RenumberedOnce(groups[..n], parts[..n]);
      hide Covers;
      MovedCovers(parts[n].results, parts[n].offset, |groups[n]|);
      CoversBoth(Merged(parts[..n]), Moved(parts[n].results, parts[n].offset), |Flat(groups[..n])|, |Flat(groups)|);
    }
  }

  lemma MergedLength<M, S>(groups: seq<seq<M>>, parts: seq<Part<S>>, n: nat)
    requires Answered(groups, parts) && n <= |parts|
    ensures |Merged(parts[..n])| == |Flat(groups[..n])|
  {
    AnsweredBefore(groups, parts, n);
    RenumberedOnce(groups[..n], parts[..n]);
  }

  lemma {:induction false} MergedBefore<S>(parts: seq<Part<S>>, n: nat)
    requires n <= |parts|
    ensures Merged(parts[..n]) <= Merged(parts)
    decreases |parts|
  {
    if n == |parts| {
      assert parts[..n] == parts;
    } else {
      MergedBefore(parts[..|parts| - 1], n);
      assert parts[..|parts| - 1][..n] == parts[..n];
    }
  }

  lemma MergedStep<S>(parts: seq<Part<S>>, i: nat)
    requires i < |parts|
    ensures Merged(parts[..i + 1]) == Merged(parts[..i]) + Moved(parts[i].results, parts[i].offset)
  {
    assert parts[..i + 1][..i] == parts[..i];
  }

  lemma GroupEnds<M>(groups: seq<seq<M>>, i: nat)
    requires i < |groups|
    ensures |Flat(groups[..i + 1])| == |Flat(groups[..i])| + |groups[i]|
  {
    assert groups[..i + 1][..i] == groups[..i];
  }

  lemma Between<T>(a: seq<T>, b: seq<T>, c: seq<T>)
    requires a + b <= c
    ensures c[|a|..|a| + |b|] == b
  {
    assert c[..|a| + |b|] == a + b;
  }

  /**
    The outcomes come group by group, in the order of the groups and as the
    service gave them: those of one group, and no other, stand where its memories
    stand in the batch, so that each group's come before the next one's.
   */
  lemma GroupsInOrder<M, S>(groups: seq<seq<M>>, parts: seq<Part<S>>, i: nat)
    requires Answered(groups, parts) && i < |parts|
    ensures var from, upto := |Flat(groups[..i])|, |Flat(groups[..i + 1])|;
            && from <= upto <= |Merged(parts)|
            && Merged(parts)[from..upto] == Moved(parts[i].results, parts[i].offset)
            && Covers(Merged(parts)[from..upto], from, upto)
  {
    hide Covers, Flat, Merged, Moved;
    MergedLength(groups, parts, i);
    MergedLength(groups, parts, i + 1);
    MergedBefore(parts, i + 1);
    MergedStep(parts, i);
    MovedCovers(parts[i].results, parts[i].offset, |groups[i]|);
    GroupEnds(groups, i);
    Between(Merged(parts[..i]), Moved(parts[i].results, parts[i].offset), Merged(parts));
  }

  // What the service says of a memory is at its index in its group.
  ghost predicate Judged<M, S>(group: seq<M>, part: Part<S>, judge: M -> S) {
    forall j :: 0 <= j < |part.results| ==>
      0 <= part.results[j].index < |group| && part.results[j].status == judge(group[part.results[j].index])
  }

  ghost predicate AllJudged<M, S>(memories: seq<M>, results: seq<Outcome<S>>, judge: M -> S) {
    forall j :: 0 <= j < |results| ==>
      0 <= results[j].index < |memories| && results[j].status == judge(memories[results[j].index])
  }

  lemma JudgedMore<M, S>(before: seq<M>, results: seq<Outcome<S>>, group: seq<M>, part: Part<S>, judge: M -> S)
    requires AllJudged(before, results, judge) && Judged(group, part, judge) && part.offset == |before|
    ensures AllJudged(before + group, results + Moved(part.results, part.offset), judge)
  {
  }

  /** And each is the outcome of the memory the caller has at that index, as if the batch had gone out whole. */
  lemma {:induction false} RenumberedRight<M, S>(groups: seq<seq<M>>, parts: seq<Part<S>>, judge: M -> S)
    requires Answered(groups, parts) && forall i :: 0 <= i < |parts| ==> Judged(groups[i], parts[i], judge)
    ensures AllJudged(Flat(groups), Merged(parts), judge)
    decreases |parts|
  {
    hide Covers, Judged, AllJudged;
    if parts == [] {
      EmptyJudged(Flat(groups), Merged(parts), judge);
    } else {
      var n := |parts| - 1;
      AnsweredBefore(groups, parts, n);
      RenumberedRight(groups[..n], parts[..n], judge);
      JudgedMore(Flat(groups[..n]), Merged(parts[..n]), groups[n], parts[n], judge);
    }
  }

  lemma EmptyJudged<M, S>(memories: seq<M>, results: seq<Outcome<S>>, judge: M -> S)
    requires results == []
    ensures AllJudged(memories, results, judge)
  {
  }
}
