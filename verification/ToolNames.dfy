/**
  Tool names in model-facing text, as `nodejs/src/agent.ts` renames them: the
  pattern is run over the text from left to right, and amounts to renaming the
  text word by word.
 */
module ToolNames {
  import opened Wrappers
  import opened Text

  const TOOL_PREFIX := "memco_"

  // OFFERED.
  function Offered(): seq<string> {
    ["search", "get_memory", "create_memory", "enrich_memory", "share_feedback", "revert_memory"]
  }

  predicate AllWord(s: string) {
    forall i :: 0 <= i < |s| ==> IsWord(s[i])
  }

  // ---- the pattern ---------------------------------------------------------

  // One of the alternatives TOOL_NAME is made of, and the operation it captures.
  datatype Name = Name(written: string, operation: string)

  function Prefixed(operations: seq<string>): seq<Name> {
    if operations == [] then []
    else [Name(TOOL_PREFIX + operations[0], operations[0])] + Prefixed(operations[1..])
  }

  // Without the prefix, only names no English word could be.
  function Bare(operations: seq<string>): seq<Name> {
    if operations == [] then []
    else (if '_' in operations[0] then [Name(operations[0], operations[0])] else []) + Bare(operations[1..])
  }

  function Names(): seq<Name> {
    Prefixed(Offered()) + Bare(Offered())
  }

  // TOOL_NAME at `at`, past what it looks behind for: the first of the names that is
  // written there and not continued.
  function MatchAt(text: string, at: nat, names: seq<Name>): (r: Option<Name>)
    requires at <= |text|
    ensures r.Some? ==> at + |r.value.written| <= |text|
  {
    if names == [] then None
    else
      var end := at + |names[0].written|;
      if end <= |text| && text[at..end] == names[0].written && (end == |text| || !IsWord(text[end])) then Some(names[0])
      else MatchAt(text, at, names[1..])
  }

  predicate Starts(text: string, at: nat)
    requires at <= |text|
  {
    at == 0 || !IsWord(text[at - 1])
  }

  // `text.replace(TOOL_NAME, …)`, from `at` on.
  function Replaced(text: string, at: nat, prefix: string): string
    requires at <= |text|
    decreases |text| - at
  {
    if at == |text| then ""
    else
      var found := if Starts(text, at) then MatchAt(text, at, Names()) else None;
      if found.Some? && found.value.written != "" then
        prefix + found.value.operation + Replaced(text, at + |found.value.written|, prefix)
      else [text[at]] + Replaced(text, at + 1, prefix)
  }

  // `named`, for a prefix that may be missing.
  function Named(text: string, prefix: Option<string>): string {
    if prefix.None? then text else Replaced(text, 0, prefix.value)
  }

  // ---- word by word --------------------------------------------------------

  // The operation a whole word names, if it names one.
  function Operation(word: string): (r: Option<string>)
    ensures r.Some? ==> r.value in Offered() && (word == TOOL_PREFIX + r.value || (word == r.value && '_' in word))
  {
    if TOOL_PREFIX <= word && word[|TOOL_PREFIX|..] in Offered() then Some(word[|TOOL_PREFIX|..])
    else if word in Offered() && '_' in word then Some(word)
    else None
  }

  function RenamedWord(word: string, prefix: string): string {
    match Operation(word)
    case Some(operation) => prefix + operation
    case None => word
  }

  // Each whole word renamed, everything between them as it is.
  function Renamed(text: string, prefix: string): string
    decreases |text|
  {
    if text == "" then ""
    else if !IsWord(text[0]) then [text[0]] + Renamed(text[1..], prefix)
    else RenamedWord(Word(text), prefix) + Renamed(text[|Word(text)|..], prefix)
  }

  // ---- the operations ------------------------------------------------------

  lemma OfferedAre(operation: string)
    requires operation in Offered()
    ensures operation in {"search", "get_memory", "create_memory", "enrich_memory", "share_feedback", "revert_memory"}
  {
  }

  lemma OfferedWord(operation: string)
    requires operation in Offered()
    ensures operation != "" && AllWord(operation) && AllWord(TOOL_PREFIX + operation)
  {
    OfferedAre(operation);
    hide Offered;
  }

  // No operation ends another.
  lemma NoneEndsAnother(longer: string, before: string, operation: string)
    requires longer in Offered() && operation in Offered() && longer == before + operation
    ensures before == ""
  {
    OfferedAre(longer);
    OfferedAre(operation);
    hide Offered;
    assert longer[|longer| - 1] == operation[|operation| - 1];
    assert longer[|before|] == operation[0];
  }

  // ---- the pattern and the words agree -------------------------------------

  function Lookup(word: string, names: seq<Name>): Option<string> {
    if names == [] then None
    else if names[0].written == word then Some(names[0].operation)
    else Lookup(word, names[1..])
  }

  lemma {:induction false} LookupEither(word: string, a: seq<Name>, b: seq<Name>)
    ensures Lookup(word, a + b) == if Lookup(word, a).Some? then Lookup(word, a) else Lookup(word, b)
    decreases |a|
  {
    if a == [] {
      assert a + b == b;
    } else {
      assert (a + b)[1..] == a[1..] + b;
      LookupEither(word, a[1..], b);
    }
  }

  lemma {:induction false} LookupPrefixed(word: string, operations: seq<string>)
    ensures Lookup(word, Prefixed(operations)) ==
            if TOOL_PREFIX <= word && word[|TOOL_PREFIX|..] in operations then Some(word[|TOOL_PREFIX|..]) else None
    decreases |operations|
  {
    if operations != [] {
      LookupPrefixed(word, operations[1..]);
      assert Prefixed(operations)[1..] == Prefixed(operations[1..]);
      assert word == TOOL_PREFIX + operations[0] <==>
             TOOL_PREFIX <= word && word[|TOOL_PREFIX|..] == operations[0];
      assert operations == [operations[0]] + operations[1..];
    }
  }

  lemma {:induction false} LookupBare(word: string, operations: seq<string>)
    ensures Lookup(word, Bare(operations)) == if word in operations && '_' in word then Some(word) else None
    decreases |operations|
  {
    if operations != [] {
      LookupBare(word, operations[1..]);
      assert operations == [operations[0]] + operations[1..];
      var rest := Bare(operations[1..]);
      if '_' in operations[0] {
        assert Bare(operations)[1..] == rest;
      } else {
        assert Bare(operations) == rest;
      }
    }
  }

  lemma LookupIsOperation(word: string)
    ensures Lookup(word, Names()) == Operation(word)
  {
    hide Offered, Prefixed, Bare, Lookup;
    LookupEither(word, Prefixed(Offered()), Bare(Offered()));
    LookupPrefixed(word, Offered());
    LookupBare(word, Offered());
  }

  ghost predicate Written(names: seq<Name>) {
    forall i :: 0 <= i < |names| ==> names[i].written != "" && AllWord(names[i].written)
  }

  lemma {:induction false} NamesWritten(operations: seq<string>)
    requires forall i :: 0 <= i < |operations| ==> operations[i] in Offered()
    ensures Written(Prefixed(operations)) && Written(Bare(operations))
    decreases |operations|
  {
    hide Offered, AllWord;
    if operations != [] {
      NamesWritten(operations[1..]);
      OfferedWord(operations[0]);
    }
  }

  lemma {:induction false} MatchIsLookup(text: string, at: nat, names: seq<Name>)
    requires at <= |text| && Written(names)
    ensures var word := Word(text[at..]);
            match MatchAt(text, at, names)
            case Some(name) => name.written == word && Lookup(word, names) == Some(name.operation)
            case None => Lookup(word, names).None?
    decreases |names|
  {
    if names != [] {
      var word, name := Word(text[at..]), names[0].written;
      var end := at + |name|;
      assert end <= |text| ==> text[at..][..|name|] == text[at..end];
      if end <= |text| && text[at..end] == name && (end == |text| || !IsWord(text[end])) {
        WordIs(text[at..], name);
      } else {
        MatchIsLookup(text, at, names[1..]);
      }
    }
  }

  lemma {:induction false} LookupWritten(word: string, names: seq<Name>)
    requires Written(names)
    ensures Lookup(word, names).Some? ==> word != ""
    decreases |names|
  {
    hide AllWord;
    if names != [] {
      LookupWritten(word, names[1..]);
    }
  }

  // What the pattern finds where a word can start: that word, if it names an operation.
  lemma MatchIsOperation(text: string, at: nat)
    requires at <= |text|
    ensures var word := Word(text[at..]);
            match MatchAt(text, at, Names())
            case Some(name) => name.written == word && word != "" && Operation(word) == Some(name.operation)
            case None => Operation(word).None?
  {
    hide Offered, MatchAt, Lookup, Operation, Names, Word, Written;
    var word := Word(text[at..]);
    AllWritten();
    MatchIsLookup(text, at, Names());
    LookupIsOperation(word);
    LookupWritten(word, Names());
  }

  lemma AllWritten()
    ensures Written(Names())
  {
    hide Offered, Prefixed, Bare;
    NamesWritten(Offered());
  }

  // Where nothing can start, a character is copied.
  lemma CopiedInside(text: string, at: nat, prefix: string)
    requires at < |text| && !Starts(text, at)
    ensures Replaced(text, at, prefix) == [text[at]] + Replaced(text, at + 1, prefix)
  {
    hide MatchAt, Names, Starts;
  }

  // Inside a word that started further left, nothing matches.
  lemma {:induction false} WordCopied(text: string, at: nat, end: nat, prefix: string)
    requires 0 < at <= end <= |text| && IsWord(text[at - 1])
    requires forall i :: at <= i < end ==> IsWord(text[i])
    ensures Replaced(text, at, prefix) == text[at..end] + Replaced(text, end, prefix)
    decreases end - at
  {
    hide Replaced, IsWord;
    if at < end {
      CopiedInside(text, at, prefix);
      WordCopied(text, at + 1, end, prefix);
      assert text[at..end] == [text[at]] + text[at + 1..end];
      assert [text[at]] + (text[at + 1..end] + Replaced(text, end, prefix)) ==
             text[at..end] + Replaced(text, end, prefix);
    } else {
      assert text[at..end] + Replaced(text, end, prefix) == Replaced(text, end, prefix);
    }
  }

  // Where a word starts, it is renamed if it names an operation, and its first character copied if not.
  lemma StartReplaced(text: string, at: nat, prefix: string)
    requires at < |text| && Starts(text, at)
    ensures var word := Word(text[at..]);
            match Operation(word)
            case Some(operation) =>
              Replaced(text, at, prefix) == prefix + operation + Replaced(text, at + |word|, prefix)
            case None => Replaced(text, at, prefix) == [text[at]] + Replaced(text, at + 1, prefix)
  {
    hide MatchAt, Names, Operation, Word, Starts;
    MatchIsOperation(text, at);
  }

  // A character no word is made of is copied.
  lemma CopiedApart(text: string, at: nat, prefix: string)
    requires at < |text| && !IsWord(text[at])
    ensures Replaced(text, at, prefix) == [text[at]] + Replaced(text, at + 1, prefix)
  {
    hide Replaced, Starts;
    if Starts(text, at) {
      assert Word(text[at..]) == "";
      assert Operation("").None?;
      StartReplaced(text, at, prefix);
    } else {
      CopiedInside(text, at, prefix);
    }
  }

  // The rest of a word whose first character was copied.
  lemma RestCopied(text: string, at: nat, prefix: string)
    requires at < |text| && IsWord(text[at])
    ensures var word := Word(text[at..]);
            word != "" && word[0] == text[at] && at + |word| <= |text| &&
            Replaced(text, at + 1, prefix) == word[1..] + Replaced(text, at + |word|, prefix)
  {
    var rest := text[at..];
    var word := Word(rest);
    assert word != "" && rest[0] == text[at] == word[0];
    hide Replaced, IsWord, Word;
    var end := at + |word|;
    forall i | at <= i < end ensures IsWord(text[i]) && text[i] == word[i - at] {
      assert rest[i - at] == text[i];
    }
    WordCopied(text, at + 1, end, prefix);
    assert word[1..] == text[at + 1..end];
  }

  // A word and what follows it.
  lemma ReplacedWord(text: string, at: nat, prefix: string)
    requires at < |text| && Starts(text, at) && IsWord(text[at])
    ensures var word := Word(text[at..]);
            word != "" && at + |word| <= |text| &&
            Replaced(text, at, prefix) == RenamedWord(word, prefix) + Replaced(text, at + |word|, prefix)
  {
    hide Replaced, Operation, Word, IsWord, Starts;
    RestCopied(text, at, prefix);
    StartReplaced(text, at, prefix);
    var word := Word(text[at..]);
    var rest := Replaced(text, at + |word|, prefix);
    assert word == [word[0]] + word[1..];
    assert [word[0]] + (word[1..] + rest) == word + rest;
  }

  // The text from a word, or a character of none, on.
  lemma RenamedFrom(text: string, at: nat, prefix: string)
    requires at < |text|
    ensures var word := Word(text[at..]);
            && at + |word| <= |text|
            && (IsWord(text[at]) ==>
                  && word != ""
                  && Renamed(text[at..], prefix) == RenamedWord(word, prefix) + Renamed(text[at + |word|..], prefix)
                  && (at + |word| == |text| || !IsWord(text[at + |word|])))
            && (!IsWord(text[at]) ==> Renamed(text[at..], prefix) == [text[at]] + Renamed(text[at + 1..], prefix))
  {
    hide RenamedWord, Operation, IsWord;
    var rest := text[at..];
    assert rest[|Word(rest)|..] == text[at + |Word(rest)|..] && rest[1..] == text[at + 1..];
    assert |Word(rest)| < |rest| ==> rest[|Word(rest)|] == text[at + |Word(rest)|];
  }

  /** Running the pattern over a text renames its whole words and nothing else. */
  lemma {:induction false} ReplacedIsRenamed(text: string, at: nat, prefix: string)
    requires at <= |text| && (Starts(text, at) || at == |text| || !IsWord(text[at]))
    ensures Replaced(text, at, prefix) == Renamed(text[at..], prefix)
    decreases |text| - at
  {
    hide RenamedWord, Replaced, Renamed, Word, IsWord;
    if at == |text| {
      NothingRenamed(text, prefix);
    } else {
      RenamedFrom(text, at, prefix);
      if IsWord(text[at]) {
        ReplacedWord(text, at, prefix);
        ReplacedIsRenamed(text, at + |Word(text[at..])|, prefix);
      } else {
        CopiedApart(text, at, prefix);
        ReplacedIsRenamed(text, at + 1, prefix);
      }
    }
  }

  lemma NothingRenamed(text: string, prefix: string)
    ensures Replaced(text, |text|, prefix) == Renamed(text[|text|..], prefix)
  {
    hide RenamedWord, MatchAt, Names;
  }
}
