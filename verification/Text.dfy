/** Python's view of text, as far as the scripts use it: whitespace, words, slices. */
module Text {

  // `str.isspace`, which `str.strip` and `\s` go by.
  predicate IsSpace(c: char) {
    var n := c as int;
    || 0x09 <= n <= 0x0D || 0x1C <= n <= 0x20 || n == 0x85 || n == 0xA0 || n == 0x1680
    || 0x2000 <= n <= 0x200A || n == 0x2028 || n == 0x2029 || n == 0x202F || n == 0x205F || n == 0x3000
  }

  // `\w`, for ASCII.
  predicate IsWord(c: char) {
    'a' <= c <= 'z' || 'A' <= c <= 'Z' || '0' <= c <= '9' || c == '_'
  }

  predicate Blank(s: string) {
    forall i :: 0 <= i < |s| ==> IsSpace(s[i])
  }

  // `s.lstrip()`, `s.rstrip()` and `s.strip()`.
  function LStrip(s: string): (r: string)
    ensures |r| <= |s|
    ensures r == [] || !IsSpace(r[0])
  {
    if s == [] || !IsSpace(s[0]) then s else LStrip(s[1..])
  }

  function RStrip(s: string): (r: string)
    ensures r <= s
    ensures r == [] || !IsSpace(r[|r| - 1])
  {
    if s == [] || !IsSpace(s[|s| - 1]) then s else RStrip(s[..|s| - 1])
  }

  function Strip(s: string): string {
    RStrip(LStrip(s))
  }

  // The text from `i` to `j` is all there is but whitespace around it.
  ghost predicate InkSpan(s: string, i: nat, j: nat) {
    && i <= j <= |s| && Blank(s[..i]) && Blank(s[j..])
    && (i < j ==> !IsSpace(s[i]) && !IsSpace(s[j - 1]))
  }

  lemma {:induction false} LStripIs(s: string, i: nat)
    requires i <= |s| && Blank(s[..i]) && (i < |s| ==> !IsSpace(s[i]))
    ensures LStrip(s) == s[i..]
    decreases i
  {
    if i > 0 {
      assert s[0] == s[..i][0];
      LStripIs(s[1..], i - 1);
    }
  }

  lemma {:induction false} RStripIs(s: string, j: nat)
    requires j <= |s| && Blank(s[j..]) && (j > 0 ==> !IsSpace(s[j - 1]))
    ensures RStrip(s) == s[..j]
    decreases |s|
  {
    if j < |s| {
      assert s[|s| - 1] == s[j..][|s| - 1 - j];
      RStripIs(s[..|s| - 1], j);
    }
  }

  /** Stripping leaves what stands between the whitespace, and nothing of a text that is all whitespace. */
  lemma StripIs(s: string, i: nat, j: nat)
    requires InkSpan(s, i, j)
    ensures Strip(s) == s[i..j]
  {
    hide LStrip, RStrip;
    if i < j {
      LStripIs(s, i);
      assert Blank(s[i..][j - i..]);
      RStripIs(s[i..], j - i);
    } else {
      assert Blank(s) by { assert s == s[..i] + s[i..]; }
      LStripIs(s, |s|);
      RStripIs("", 0);
    }
  }

  lemma {:induction false} StripSpan(s: string) returns (i: nat, j: nat)
    ensures InkSpan(s, i, j) && Strip(s) == s[i..j]
  {
    i := 0;
    while i < |s| && IsSpace(s[i])
      invariant i <= |s| && Blank(s[..i])
    {
      i := i + 1;
    }
    j := |s|;
    while i < j && IsSpace(s[j - 1])
      invariant i <= j <= |s| && Blank(s[j..])
    {
      j := j - 1;
    }
    StripIs(s, i, j);
  }

  // `s[n:]` and `s[:n]`, which never fail.
  function From<T>(s: seq<T>, n: nat): seq<T> {
    if n <= |s| then s[n..] else []
  }

  function Upto<T>(s: seq<T>, n: nat): seq<T> {
    if n <= |s| then s[..n] else s
  }

  predicate StartsWith(s: string, prefix: string) {
    prefix <= s
  }

  predicate EndsWith(s: string, suffix: string) {
    |suffix| <= |s| && s[|s| - |suffix|..] == suffix
  }

  lemma Regroup<T>(a: seq<T>, b: seq<T>, c: seq<T>)
    ensures (a + b) + c == a + (b + c)
  {
  }

  function Spaces(n: nat): (s: string)
    ensures |s| == n && Blank(s)
  {
    seq(n, _ => ' ')
  }

  // The word characters a text opens with.
  function Word(s: string): (w: string)
    ensures w <= s
    ensures forall i :: 0 <= i < |w| ==> IsWord(w[i])
    ensures |w| == |s| || !IsWord(s[|w|])
  {
    if s == [] || !IsWord(s[0]) then [] else [s[0]] + Word(s[1..])
  }

  // It is the longest one: nothing else fits between the start and a non-word character.
  lemma {:induction false} WordIs(s: string, w: string)
    requires w <= s && (forall i :: 0 <= i < |w| ==> IsWord(w[i])) && (|w| == |s| || !IsWord(s[|w|]))
    ensures Word(s) == w
  {
    if w != [] {
      WordIs(s[1..], w[1..]);
    }
  }
}
