/** Renaming the tools in a text that has been renamed already: when it changes nothing. */
module ToolRenaming {
  import opened Wrappers
  import opened Text
  import opened ToolNames

  // ---- text in two parts ---------------------------------------------------

  // No word goes on from the one into the other.
  predicate Apart(a: string, b: string) {
    a == "" || b == "" || !IsWord(a[|a| - 1]) || !IsWord(b[0])
  }

  lemma WordApart(a: string, b: string)
    requires a != "" && IsWord(a[0]) && Apart(a, b)
    ensures Word(a + b) == Word(a) && Word(a) != "" && (a + b)[|Word(a)|..] == a[|Word(a)|..] + b
    ensures Apart(a[|Word(a)|..], b)
  {
    var w := Word(a);
    WordIs(a + b, w);
  }

  lemma {:induction false} RenamedApart(a: string, b: string, prefix: string)
    requires Apart(a, b)
    ensures Renamed(a + b, prefix) == Renamed(a, prefix) + Renamed(b, prefix)
    decreases |a|
  {
    hide RenamedWord, IsWord;
    if a == "" {
      assert a + b == b;
    } else if !IsWord(a[0]) {
      assert (a + b)[1..] == a[1..] + b;
      RenamedApart(a[1..], b, prefix);
      Regroup([a[0]], Renamed(a[1..], prefix), Renamed(b, prefix));
    } else {
      WordApart(a, b);
      var rest := a[|Word(a)|..];
      RenamedApart(rest, b, prefix);
      Regroup(RenamedWord(Word(a), prefix), Renamed(rest, prefix), Renamed(b, prefix));
    }
  }

  lemma RenamedAlone(word: string, prefix: string)
    requires AllWord(word) && word != ""
    ensures Renamed(word, prefix) == RenamedWord(word, prefix)
  {
    WordIs(word, word);
    assert word[|word|..] == "";
  }

  // Some whole word of the text names an operation.
  predicate Mentions(text: string)
    decreases |text|
  {
    if text == "" then false
    else if !IsWord(text[0]) then Mentions(text[1..])
    else Operation(Word(text)).Some? || Mentions(text[|Word(text)|..])
  }

  lemma {:induction false} UnmentionedStays(text: string, prefix: string)
    requires !Mentions(text)
    ensures Renamed(text, prefix) == text
    decreases |text|
  {
    hide Operation, IsWord;
    if text == "" {
    } else if !IsWord(text[0]) {
      UnmentionedStays(text[1..], prefix);
    } else {
      UnmentionedStays(text[|Word(text)|..], prefix);
    }
  }

  // ---- prefixes ------------------------------------------------------------

  // The word a prefix leaves open for the operation to complete, and what is before it.
  function Tail(prefix: string): (tail: string)
    ensures |tail| <= |prefix| && prefix[|prefix| - |tail|..] == tail && AllWord(tail)
    ensures |tail| == |prefix| || !IsWord(prefix[|prefix| - |tail| - 1])
  {
    if prefix == "" || !IsWord(prefix[|prefix| - 1]) then ""
    else
      var n := |prefix| - 1;
      assert prefix == prefix[..n] + [prefix[n]];
      Tail(prefix[..n]) + [prefix[n]]
  }

  function Lead(prefix: string): string {
    prefix[..|prefix| - |Tail(prefix)|]
  }

  // A prefix of letters, digits and underscores alone; or one that names no operation
  // before its last separator, and after it starts a word no operation makes a name of.
  predicate Settled(prefix: string) {
    AllWord(prefix) || (!Mentions(Lead(prefix)) && Tail(prefix) != "" && Tail(prefix) != TOOL_PREFIX)
  }

  // What an operation added to a word's start makes a name of: the copy's prefix, or nothing.
  lemma OperationAfter(start: string, operation: string)
    requires operation in Offered()
    ensures Operation(start + operation) ==
            if start == TOOL_PREFIX || (start == "" && '_' in operation) then Some(operation) else None
  {
    hide Offered;
    var word := start + operation;
    assert start == TOOL_PREFIX ==> word[|TOOL_PREFIX|..] == operation;
    assert start == "" ==> word == operation;
    if Operation(word).Some? {
      var other := Operation(word).value;
      if word == other {
        NoneEndsAnother(other, start, operation);
      } else if |start| >= |TOOL_PREFIX| {
        assert other == start[|TOOL_PREFIX|..] + operation;
        NoneEndsAnother(other, start[|TOOL_PREFIX|..], operation);
        assert start == word[..|TOOL_PREFIX|] == TOOL_PREFIX;
      } else {
        assert operation == TOOL_PREFIX[|start|..] + other;
        NoneEndsAnother(operation, TOOL_PREFIX[|start|..], other);
      }
    } else {
      NotPrefixed(operation);
    }
  }

  lemma NotPrefixed(operation: string)
    requires operation in Offered()
    ensures !(TOOL_PREFIX <= operation)
  {
    OfferedAre(operation);
    hide Offered;
    assert operation[0] != TOOL_PREFIX[0];
  }

  lemma Underscored(operation: string)
    requires operation in Offered()
    ensures '_' in operation <==> operation != "search"
  {
    if operation == "get_memory" {
      assert operation[3] == '_';
    } else if operation == "share_feedback" {
      assert operation[5] == '_';
    } else if operation != "search" {
      assert operation[6] == '_';
    }
  }

  /**
    A whole word that is a tool's name is written as the prefix and the operation: the
    operation after `memco_`, or by itself unless it is "search". Any other word stays.
   */
  lemma WordRenamed(word: string, prefix: string)
    requires AllWord(word) && word != ""
    ensures forall operation :: operation in Offered() ==>
              Renamed(TOOL_PREFIX + operation, prefix) == prefix + operation
              && Renamed(operation, prefix) == if operation == "search" then operation else prefix + operation
    ensures Renamed(word, prefix) == word ||
            exists operation :: operation in Offered() && Renamed(word, prefix) == prefix + operation &&
              (word == "memco_" + operation || (word == operation && word != "search"))
  {
    hide Renamed, Offered, Operation;
    forall operation | operation in Offered()
      ensures Renamed(TOOL_PREFIX + operation, prefix) == prefix + operation
      ensures Renamed(operation, prefix) == if operation == "search" then operation else prefix + operation
    {
      OfferedWord(operation);
      Underscored(operation);
      OperationAfter(TOOL_PREFIX, operation);
      OperationAfter("", operation);
      assert "" + operation == operation;
      RenamedAlone(TOOL_PREFIX + operation, prefix);
      RenamedAlone(operation, prefix);
    }
    RenamedAlone(word, prefix);
    if Operation(word).Some? {
      Underscored(Operation(word).value);
    }
  }

  // ---- renaming a name again -----------------------------------------------

  lemma LeadAndTail(prefix: string, operation: string)
    requires operation in Offered() && !AllWord(prefix)
    ensures Renamed(prefix + operation, prefix) ==
            Renamed(Lead(prefix), prefix) + RenamedWord(Tail(prefix) + operation, prefix)
    ensures Lead(prefix) != "" && prefix + operation == Lead(prefix) + (Tail(prefix) + operation)
  {
    hide Offered, RenamedWord;
    OfferedWord(operation);
    var lead, tail := Lead(prefix), Tail(prefix);
    assert prefix == lead + tail;
    assert lead == "" ==> prefix == tail;
    Regroup(lead, tail, operation);
    RenamedApart(lead, tail + operation, prefix);
    RenamedAlone(tail + operation, prefix);
  }

  lemma NameAgain(prefix: string, operation: string)
    requires operation in Offered() && Settled(prefix)
    ensures Renamed(prefix + operation, prefix) == prefix + operation
  {
    hide Offered;
    OfferedWord(operation);
    if AllWord(prefix) {
      RenamedAlone(prefix + operation, prefix);
      OperationAfter(prefix, operation);
    } else {
      LeadAndTail(prefix, operation);
      UnmentionedStays(Lead(prefix), prefix);
      OperationAfter(Tail(prefix), operation);
    }
  }

  lemma WordAgain(word: string, prefix: string)
    requires AllWord(word) && word != "" && Settled(prefix)
    ensures Renamed(RenamedWord(word, prefix), prefix) == RenamedWord(word, prefix)
  {
    hide Offered, Settled, AllWord;
    if Operation(word).Some? {
      NameAgain(prefix, Operation(word).value);
    } else {
      RenamedAlone(word, prefix);
    }
  }

  lemma {:induction false} RenamedAgain(text: string, prefix: string)
    requires Settled(prefix)
    ensures Renamed(Renamed(text, prefix), prefix) == Renamed(text, prefix)
    ensures text != "" && !IsWord(text[0]) ==> Renamed(text, prefix) != "" && Renamed(text, prefix)[0] == text[0]
    decreases |text|
  {
    hide RenamedWord, Settled, IsWord;
    if text == "" {
    } else if !IsWord(text[0]) {
      RenamedAgain(text[1..], prefix);
      assert Renamed(text, prefix)[1..] == Renamed(text[1..], prefix);
    } else {
      var word := Word(text);
      var rest := text[|word|..];
      RenamedAgain(rest, prefix);
      WordAgain(word, prefix);
      RenamedApart(RenamedWord(word, prefix), Renamed(rest, prefix), prefix);
    }
  }

  // ---- prefixes that do not settle -----------------------------------------

  lemma OperationLong(word: string)
    requires Operation(word).Some?
    ensures |word| > |TOOL_PREFIX| && |word| <= |TOOL_PREFIX| + |Operation(word).value|
  {
    var operation := Operation(word).value;
    OfferedAre(operation);
    hide Offered;
  }

  // With a prefix longer than the copy's, every name renamed makes the text longer.
  lemma {:induction false} RenamedGrows(text: string, prefix: string)
    requires |prefix| > |TOOL_PREFIX|
    ensures |Renamed(text, prefix)| >= |text| && (Mentions(text) ==> |Renamed(text, prefix)| > |text|)
    decreases |text|
  {
    hide Operation, IsWord;
    if text == "" {
    } else if !IsWord(text[0]) {
      RenamedGrows(text[1..], prefix);
    } else {
      var word := Word(text);
      RenamedGrows(text[|word|..], prefix);
      if Operation(word).Some? { OperationLong(word); }
    }
  }

  lemma {:induction false} MentionsLong(text: string)
    requires Mentions(text)
    ensures |text| > |TOOL_PREFIX|
    decreases |text|
  {
    hide Operation, IsWord;
    if !IsWord(text[0]) {
      MentionsLong(text[1..]);
    } else if Operation(Word(text)).Some? {
      OperationLong(Word(text));
    } else {
      MentionsLong(text[|Word(text)|..]);
    }
  }

  // A name completed by one of those, renamed again.
  lemma NameChanges(prefix: string, operation: string)
    requires operation in Offered() && '_' in operation && !Settled(prefix)
    ensures Renamed(prefix + operation, prefix) != prefix + operation
  {
    hide Offered, Renamed, Operation;
    LeadAndTail(prefix, operation);
    if Mentions(Lead(prefix)) {
      MentionsLong(Lead(prefix));
      RenamedGrows(prefix + operation, prefix);
      MentionsMore(Lead(prefix), Tail(prefix) + operation);
    } else {
      UnmentionedStays(Lead(prefix), prefix);
      OperationAfter(Tail(prefix), operation);
      assert |prefix| > |Tail(prefix)|;
    }
  }

  lemma NotSettled(prefix: string) returns (text: string)
    requires !Settled(prefix)
    ensures Renamed(Renamed(text, prefix), prefix) != Renamed(text, prefix)
  {
    var operation := "get_memory";
    assert operation in Offered() by { assert Offered()[1] == operation; }
    assert operation[3] == '_';
    hide Offered, Settled, Renamed;
    OfferedWord(operation);
    text := TOOL_PREFIX + operation;
    RenamedAlone(text, prefix);
    OperationAfter(TOOL_PREFIX, operation);
    NameChanges(prefix, operation);
  }

  lemma {:induction false} MentionsMore(a: string, b: string)
    requires Apart(a, b) && Mentions(a)
    ensures Mentions(a + b)
    decreases |a|
  {
    hide Operation, IsWord;
    if !IsWord(a[0]) {
      assert (a + b)[1..] == a[1..] + b;
      MentionsMore(a[1..], b);
    } else {
      WordApart(a, b);
      if Operation(Word(a)).None? {
        MentionsMore(a[|Word(a)|..], b);
      }
    }
  }

  ghost predicate Idempotent(prefix: string) {
    forall text :: Named(Named(text, Some(prefix)), Some(prefix)) == Named(text, Some(prefix))
  }

  /**
    Renaming twice is renaming once, for any prefix of letters, digits and
    underscores, and for others exactly when they hold no tool name themselves and
    do not end where a bare or a prefixed name would start.
   */
  lemma IdempotentExactly(prefix: string)
    ensures Idempotent(prefix) <==> Settled(prefix)
  {
    hide Replaced, Settled, Renamed;
    forall text ensures Named(text, Some(prefix)) == Renamed(text, prefix) {
      ReplacedIsRenamed(text, 0, prefix);
      assert text[0..] == text;
    }
    if Settled(prefix) {
      forall text ensures Named(Named(text, Some(prefix)), Some(prefix)) == Named(text, Some(prefix)) {
        RenamedAgain(text, prefix);
      }
    } else {
      var text := NotSettled(prefix);
      assert Named(Named(text, Some(prefix)), Some(prefix)) != Named(text, Some(prefix));
    }
  }
}
