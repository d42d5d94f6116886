/**
  Host and port in `python/memcoai/_config.py`: how a host string is split into
  them, and how the target to dial is put together again.
 */
module Endpoint {
  import opened Wrappers
  import opened Text
  import opened Paths

  const DEFAULT_PORT := 443

  datatype Fault = NeverClosed | NoAddress | TextAfterBracket | NoHostname | NotAnInteger | OutOfRange

  datatype Address = Address(host: string, port: int)

  // ---- integers as text ----------------------------------------------------

  predicate IsDigit(c: char) {
    '0' <= c <= '9'
  }

  // Digits, with single underscores between them allowed.
  function Value(s: string): Option<int> {
    if s == "" || !IsDigit(s[|s| - 1]) then None
    else
      var digit := s[|s| - 1] as nat - '0' as nat;
      if |s| == 1 then Some(digit)
      else
        var more := Value(s[..|s| - if s[|s| - 2] == '_' then 2 else 1]);
        if more.None? then None else Some(10 * more.value + digit)
  }

  // Python's `int(text)` for ASCII digits; None is its ValueError.
  function IntOf(text: string): Option<int> {
    var s := Strip(text);
    var signed := s != "" && (s[0] == '-' || s[0] == '+');
    match Value(if signed then s[1..] else s)
    case None => None
    case Some(n) =>
      Some(if signed && s[0] == '-' then -n else n)
  }

  // Python's `str(n)`.
  function Digits(n: nat): (s: string)
    ensures s != "" && forall i :: 0 <= i < |s| ==> IsDigit(s[i])
  {
    var last := [('0' as nat + n % 10) as char];
    if n < 10 then last else Digits(n / 10) + last
  }

  function Decimal(n: int): string {
    if n < 0 then "-" + Digits(-n) else Digits(n)
  }

  lemma {:induction false} ValueOfDigits(n: nat)
    ensures Value(Digits(n)) == Some(n)
  {
    var s := Digits(n);
    var k := |s| - 1;
    assert s[k] as nat - '0' as nat == n % 10;
    if n >= 10 {
      ValueOfDigits(n / 10);
      assert s[..k] == Digits(n / 10);
      assert IsDigit(s[k - 1]);
    }
  }

  lemma Unstripped(s: string)
    requires s != "" && !IsSpace(s[0]) && !IsSpace(s[|s| - 1])
    ensures Strip(s) == s
  {
  }

  /** Every integer is read back from what it is printed as. */
  lemma IntOfDecimal(n: int)
    ensures IntOf(Decimal(n)) == Some(n)
  {
    var s := Decimal(n);
    var digits := Digits(if n < 0 then -n else n);
    ValueOfDigits(if n < 0 then -n else n);
    assert IsDigit(digits[0]) && IsDigit(digits[|digits| - 1]);
    assert s[|s| - 1] == digits[|digits| - 1];
    Unstripped(s);
    assert n < 0 ==> s[1..] == digits;
  }

  lemma {:induction false} DigitsStart(n: nat)
    ensures Digits(n)[0] == '0' <==> n == 0
  {
    if n >= 10 {
      DigitsStart(n / 10);
    }
  }

  /** It is printed with a minus exactly if it is negative, and never with a zero to spare. */
  lemma DecimalStarts(n: int)
    ensures Decimal(n)[0] == '-' <==> n < 0
    ensures n < 0 ==> Decimal(n)[1..] == Decimal(-n) && Decimal(n)[1] != '0'
    ensures n >= 0 ==> (Decimal(n)[0] == '0' <==> n == 0)
  {
    DigitsStart(if n < 0 then -n else n);
  }

  // Digits, with single underscores between them.
  predicate Spelt(s: string) {
    && s != "" && IsDigit(s[0]) && IsDigit(s[|s| - 1])
    && (forall i :: 0 <= i < |s| ==> IsDigit(s[i]) || s[i] == '_')
    && forall i :: 0 <= i < |s| - 1 ==> IsDigit(s[i]) || IsDigit(s[i + 1])
  }

  /** A number is read of exactly such a text. */
  lemma {:induction false} ValueSpelt(s: string)
    ensures Value(s).Some? <==> Spelt(s)
    decreases |s|
  {
    if |s| > 1 && IsDigit(s[|s| - 1]) {
      var more := s[..|s| - if s[|s| - 2] == '_' then 2 else 1];
      ValueSpelt(more);
      assert forall i :: 0 <= i < |more| ==> more[i] == s[i];
    }
  }

  // The text without its underscores.
  function DigitsOnly(s: string): string {
    if s == "" then ""
    else DigitsOnly(s[..|s| - 1]) + if s[|s| - 1] == '_' then "" else [s[|s| - 1]]
  }

  lemma {:induction false} OnlyDigits(s: string)
    requires Spelt(s)
    ensures DigitsOnly(s) != "" && forall i :: 0 <= i < |DigitsOnly(s)| ==> IsDigit(DigitsOnly(s)[i])
    decreases |s|
  {
    if |s| > 1 {
      if s[|s| - 2] == '_' {
        OnlyDigits(s[..|s| - 2]);
        assert s[..|s| - 1][..|s| - 2] == s[..|s| - 2];
      } else {
        OnlyDigits(s[..|s| - 1]);
      }
    } else {
      assert s[..0] == "";
    }
  }

  // The text before the last digit, and the underscore before that if there is one.
  function Before(s: string): string
    requires |s| > 1
  {
    s[..|s| - if s[|s| - 2] == '_' then 2 else 1]
  }

  function Ones(c: char): int {
    c as int - '0' as int
  }

  lemma ValueMore(s: string)
    requires |s| > 1 && IsDigit(s[|s| - 1])
    ensures Value(s) == match Value(Before(s)) case None => None case Some(n) => Some(10 * n + Ones(s[|s| - 1]))
  {
  }

  lemma SpeltBefore(s: string)
    requires Spelt(s) && |s| > 1
    ensures Spelt(Before(s)) && IsDigit(s[|s| - 1])
  {
    hide Value, DigitsOnly;
    var before := Before(s);
    assert before[|before| - 1] == s[|before| - 1] && before[0] == s[0];
    assert s[|s| - 2] == '_' ==> IsDigit(s[|s| - 3]);
  }

  lemma OnlyMore(s: string, c: char)
    ensures DigitsOnly(s + [c]) == DigitsOnly(s) + if c == '_' then "" else [c]
  {
    assert (s + [c])[..|s|] == s;
  }

  lemma OnlyBefore(s: string)
    requires |s| > 1 && IsDigit(s[|s| - 1])
    ensures DigitsOnly(s) == DigitsOnly(Before(s)) + [s[|s| - 1]]
  {
    hide DigitsOnly;
    var n := |s| - 1;
    OnlyMore(s[..n], s[n]);
    assert s == s[..n] + [s[n]];
    if s[n - 1] == '_' {
      OnlyMore(s[..n - 1], '_');
      assert s[..n] == s[..n - 1] + ['_'];
    }
  }

  /** Underscores change nothing of it. */
  lemma {:induction false} ValueIgnoresUnderscores(s: string)
    requires Spelt(s)
    ensures Value(s) == Value(DigitsOnly(s))
    decreases |s|
  {
    if |s| > 1 {
      SpeltBefore(s);
      OnlyBefore(s);
      ValueMore(s);
      var more := Before(s);
      OnlyDigits(more);
      hide Value, Spelt, DigitsOnly, Before;
      ValueIgnoresUnderscores(more);
      ValueMore(DigitsOnly(s));
      BeforeDigit(DigitsOnly(more), s[|s| - 1]);
    } else {
      assert s[..0] == "" && DigitsOnly(s) == "" + [s[0]] == s;
    }
  }

  lemma BeforeDigit(s: string, c: char)
    requires s != "" && s[|s| - 1] != '_'
    ensures Before(s + [c]) == s
  {
  }

  /** Of digits alone it is the number they print. */
  lemma {:induction false} ValueOfDigitsOnly(s: string)
    requires s != "" && forall i :: 0 <= i < |s| ==> IsDigit(s[i])
    ensures Value(s).Some? && Value(s).value >= 0
    ensures |s| == 1 || s[0] != '0' ==> Digits(Value(s).value) == s
    ensures |s| > 1 && s[0] != '0' ==> Value(s).value >= 10
    ensures |s| == 1 && s[0] != '0' ==> Value(s).value > 0
    decreases |s|
  {
    if |s| > 1 {
      var before := s[..|s| - 1];
      ValueOfDigitsOnly(before);
      ValueMore(s);
      assert Before(s) == before && s == before + [s[|s| - 1]];
      hide Value;
      TensAndOnes(Value(before).value, Ones(s[|s| - 1]));
    }
  }

  /** A zero before it changes nothing. */
  lemma {:induction false} ValueIgnoresZeros(s: string)
    requires s != "" && forall i :: 0 <= i < |s| ==> IsDigit(s[i])
    ensures Value("0" + s) == Value(s)
    decreases |s|
  {
    var zero := "0" + s;
    ValueMore(zero);
    if |s| > 1 {
      ValueIgnoresZeros(s[..|s| - 1]);
      ValueMore(s);
      assert Before(zero) == "0" + s[..|s| - 1] && Before(s) == s[..|s| - 1];
    } else {
      assert Before(zero) == "0" && Value("0") == Some(0);
    }
  }

  lemma TensAndOnes(tens: nat, ones: nat)
    requires ones < 10
    ensures (10 * tens + ones) / 10 == tens && (10 * tens + ones) % 10 == ones
  {
  }

  // ---- printing and splitting ----------------------------------------------

  // `ClientConfig.target`.
  function Target(address: Address): string {
    (if ':' in address.host then "[" + address.host + "]" else address.host) + ":" + Decimal(address.port)
  }

  // `_port`.
  function Port(text: string): Result<int, Fault> {
    match IntOf(text)
    case None => Err(NotAnInteger)
    case Some(port) => if 1 <= port <= 65535 then Ok(port) else Err(OutOfRange)
  }

  function WithPort(name: string, text: string): Result<Address, Fault> {
    match Port(text)
    case Err(fault) => Err(fault)
    case Ok(port) => Ok(Address(name, port))
  }

  // `_split_host_port`.
  function SplitHostPort(host: string): Result<Address, Fault> {
    if host != "" && host[0] == '[' then
      var closing := Find(host, ']');
      if closing == |host| then Err(NeverClosed)
      else
        var name, rest := host[1..closing], host[closing + 1..];
        if name == "" then Err(NoAddress)
        else if rest == "" then Ok(Address(name, DEFAULT_PORT))
        else if rest[0] != ':' then Err(TextAfterBracket)
        else WithPort(name, rest[1..])
    else
      var colon := Find(host, ':');
      if colon == |host| then Ok(Address(host, DEFAULT_PORT))
      else if ':' in host[colon + 1..] then Ok(Address(host, DEFAULT_PORT))
      else if Blank(host[..colon]) then Err(NoHostname)
      else WithPort(host[..colon], host[colon + 1..])
  }

  // ---- printing then splitting ---------------------------------------------

  // Hosts a target says apart from its port again. With a colon, which is bracketed,
  // nothing may close the bracket early; without one, nothing may open a bracket.
  predicate Splittable(host: string) {
    if ':' in host then ']' !in host else !Blank(host) && host[0] != '['
  }

  lemma DecimalPlain(n: int, c: char)
    requires !IsDigit(c) && c != '-'
    ensures c !in Decimal(n)
  {
  }

  // The text between an opening bracket and the first closing one, and the text after it.
  lemma Bracketed(name: string, rest: string)
    requires ']' !in name
    ensures var host := "[" + name + "]" + rest;
            && Find(host, ']') == |name| + 1
            && host[1..|name| + 1] == name && host[|name| + 2..] == rest
  {
    FindFirst("[" + name, ']', rest);
    assert "[" + name + "]" + rest == ("[" + name) + "]" + rest;
  }

  lemma SplitBracketed(host: string, port: int)
    requires ':' in host
    ensures SplitHostPort(Target(Address(host, port))) == Ok(Address(host, port)) <==>
            ']' !in host && 1 <= port <= 65535
  {
    hide Find, IntOf, Decimal;
    var target := Target(Address(host, port));
    var rest := ":" + Decimal(port);
    assert target == "[" + host + "]" + rest;
    IntOfDecimal(port);
    if ']' !in host {
      Bracketed(host, rest);
      assert rest[1..] == Decimal(port);
    } else {
      ClosedEarly(host, rest);
    }
  }

  lemma ClosedEarly(host: string, rest: string)
    requires ']' in host
    ensures var closing := Find("[" + host + "]" + rest, ']');
            1 <= closing <= |host| && |("[" + host + "]" + rest)[1..closing]| < |host|
  {
    var target := "[" + host + "]" + rest;
    var k :| 0 <= k < |host| && host[k] == ']';
    assert target[k + 1] == ']' && target[0] == '[';
  }

  // Without brackets: the text before the only colon, and the text after it.
  lemma Unbracketed(host: string, text: string)
    requires ':' !in host && ':' !in text
    ensures var target := host + ":" + text;
            && Find(target, ':') == |host| && target[..|host|] == host && target[|host| + 1..] == text
  {
    FindFirst(host, ':', text);
  }

  // A host that opens a bracket is cut short by the one that closes it, if any does.
  lemma CutShort(host: string, text: string)
    requires host != "" && host[0] == '[' && ']' !in text
    ensures var target := host + ":" + text;
            var closing := Find(target, ']');
            target[0] == '[' && (closing == |target| || (1 <= closing < |host| && |target[1..closing]| < |host|))
  {
    var target := host + ":" + text;
    assert target[0] == host[0];
    forall i | |host| <= i < |target| ensures target[i] != ']' {
      assert i > |host| ==> target[i] == text[i - |host| - 1];
    }
  }

  /** With one colon, and no bracket in front, what is before it is the host, and what is after it the port. */
  lemma SplitAtColon(name: string, text: string)
    requires ':' !in name && ':' !in text && (name == "" || name[0] != '[')
    ensures SplitHostPort(name + ":" + text) == if Blank(name) then Err(NoHostname) else WithPort(name, text)
  {
    hide Find, WithPort, Blank;
    Unbracketed(name, text);
    assert (name + ":" + text)[0] != '[';
  }

  lemma SplitOpened(name: string, text: string, port: int)
    requires name != "" && name[0] == '[' && ']' !in text
    ensures SplitHostPort(name + ":" + text) != Ok(Address(name, port))
  {
    hide Find, IntOf;
    CutShort(name, text);
  }

  lemma SplitPlain(host: string, port: int)
    requires ':' !in host
    ensures SplitHostPort(Target(Address(host, port))) == Ok(Address(host, port)) <==>
            !Blank(host) && host[0] != '[' && 1 <= port <= 65535
  {
    hide SplitHostPort, IntOf, Decimal;
    IntOfDecimal(port);
    DecimalPlain(port, ':');
    DecimalPlain(port, ']');
    if host != "" && host[0] == '[' {
      SplitOpened(host, Decimal(port), port);
    } else {
      SplitAtColon(host, Decimal(port));
    }
  }

  /** A bracket that is opened is closed, around an address; after it comes nothing, for the default port, or a port. */
  lemma SplitBrackets(name: string, rest: string)
    requires ']' !in name
    ensures SplitHostPort("[" + name) == Err(NeverClosed)
    ensures SplitHostPort("[" + name + "]" + rest) ==
            if name == "" then Err(NoAddress)
            else if rest == "" then Ok(Address(name, 443))
            else if rest[0] == ':' then WithPort(name, rest[1..])
            else Err(TextAfterBracket)
  {
    hide WithPort;
    Bracketed(name, rest);
    FindFirst("[" + name, ']', "");
  }

  /** Without brackets, a host with no colon, or with two or more, has the default port. */
  lemma SplitBare(host: string)
    requires (host == "" || host[0] != '[') && (':' !in host || BareAddress(host))
    ensures SplitHostPort(host) == Ok(Address(host, 443))
  {
    hide Find;
    BareExactly(host);
  }

  /** A port is an integer from 1 to 65535. */
  lemma PortExactly(name: string, text: string, port: int)
    ensures WithPort(name, text) == Ok(Address(name, port)) <==> IntOf(text) == Some(port) && 1 <= port <= 65535
    ensures WithPort(name, text) == Err(NotAnInteger) <==> IntOf(text).None?
    ensures WithPort(name, text) == Err(OutOfRange) <==> IntOf(text).Some? && !(1 <= IntOf(text).value <= 65535)
  {
    hide IntOf;
  }

  /** An integer is a sign, if any, and such a number, with whitespace around them. */
  lemma IntOfExactly(text: string, i: nat, j: nat)
    requires InkSpan(text, i, j)
    ensures IntOf(text) ==
            if i == j then None
            else if text[i] == '-' then
              (if Value(text[i + 1..j]).None? then None else Some(-Value(text[i + 1..j]).value))
            else Value(text[if text[i] == '+' then i + 1 else i..j])
  {
    hide Strip, Value;
    StripIs(text, i, j);
    if i < j {
      assert text[i..j][1..] == text[i + 1..j];
    } else {
      NoDigits();
    }
  }

  lemma NoDigits()
    ensures Value("") == None
  {
  }

  /**
    Splitting a printed target gives back its host and port, if and only if the
    port is one and the host cannot be taken for the brackets around an address:
    every nonblank host without square brackets, IPv6 literals included.
   */
  lemma TargetRoundTrips(address: Address)
    ensures SplitHostPort(Target(address)) == Ok(address) <==>
            Splittable(address.host) && 1 <= address.port <= 65535
  {
    if ':' in address.host {
      SplitBracketed(address.host, address.port);
    } else {
      SplitPlain(address.host, address.port);
    }
  }

  // A host string that says one host however it is printed: what is in its brackets
  // is an address, or does not open another; without brackets, it is not blank, and
  // a bare address, which has two colons at least, closes none.
  predicate Unambiguous(host: string) {
    if host != "" && host[0] == '[' then
      var inside := host[1..Find(host, ']')];
      ':' in inside || (!Blank(inside) && inside[0] != '[')
    else
      !Blank(host) && (BareAddress(host) ==> ']' !in host)
  }

  predicate BareAddress(host: string) {
    exists i, j :: 0 <= i < j < |host| && host[i] == ':' && host[j] == ':'
  }

  lemma BareExactly(host: string)
    ensures var colon := Find(host, ':');
            BareAddress(host) <==> colon < |host| && ':' in host[colon + 1..]
  {
    var colon := Find(host, ':');
    if BareAddress(host) {
      var i, j :| 0 <= i < j < |host| && host[i] == ':' && host[j] == ':';
      assert host[colon + 1..][j - colon - 1] == ':';
    }
  }

  lemma SaysItsHost(host: string)
    requires SplitHostPort(host).Ok?
    ensures Splittable(SplitHostPort(host).value.host) <==> Unambiguous(host)
  {
    hide IntOf, Find;
    if host != "" && host[0] == '[' {
    } else {
      BareExactly(host);
    }
  }

  lemma SplitInRange(host: string)
    requires SplitHostPort(host).Ok?
    ensures 1 <= SplitHostPort(host).value.port <= 65535
  {
    hide IntOf, Find;
  }

  /** A host string that splits, printed as a target, splits the same, if and only if it is one of those. */
  lemma SplitRoundTrips(host: string)
    requires SplitHostPort(host).Ok?
    ensures var address := SplitHostPort(host).value;
            SplitHostPort(Target(address)) == Ok(address) <==> Unambiguous(host)
  {
    hide Target, Splittable, Unambiguous, SplitHostPort;
    SaysItsHost(host);
    SplitInRange(host);
    TargetRoundTrips(SplitHostPort(host).value);
  }

  /** Not every host string that splits does so: a bracket inside the brackets is one that does not. */
  lemma BracketInBrackets()
    ensures SplitHostPort("[[a]") == Ok(Address("[a", DEFAULT_PORT)) && !Splittable("[a")
    ensures SplitHostPort(Target(Address("[a", DEFAULT_PORT))) != Ok(Address("[a", DEFAULT_PORT))
  {
    hide IntOf;
    var host := "[[a]";
    FindFirst("[[a", ']', "");
    assert host == "[[a" + "]" + "";
    assert host[1..3] == "[a" && host[4..] == "";
    TargetRoundTrips(Address("[a", DEFAULT_PORT));
  }
}
