/** Hexadecimal integers as text: format(n, 'x') and int(s, 16) over ASCII strings. */
module Hex {
  import opened Prelude

  const DIGITS: string := "0123456789abcdef"

  // ---------------------------------------------------------------- characters

  function Lower(c: char): char {
    if 'A' <= c <= 'Z' then (c as int - 'A' as int + 'a' as int) as char else c
  }

  function LowerAll(s: string): (r: string)
    ensures |r| == |s|
  {
    seq(|s|, i requires 0 <= i < |s| => Lower(s[i]))
  }

  function DigitValue(c: char): (r: Option<int>)
    ensures r.Some? ==> 0 <= r.value < 16
  {
    if '0' <= c <= '9' then Some(c as int - '0' as int)
    else if 'a' <= c <= 'f' then Some(c as int - 'a' as int + 10)
    else if 'A' <= c <= 'F' then Some(c as int - 'A' as int + 10)
    else None
  }

  predicate IsDigits(s: string) {
    s != "" && forall c :: c in s ==> DigitValue(c).Some?
  }

  lemma DigitPrinted(d: int)
    requires 0 <= d < 16
    ensures DigitValue(DIGITS[d]) == Some(d)
  {
  }

  lemma DigitParsed(c: char)
    requires DigitValue(c).Some?
    ensures DIGITS[DigitValue(c).value] == Lower(c)
  {
  }

  // ------------------------------------------------------------------ printing

  /** format(n, 'x') for n >= 0. */
  function ToHex(n: nat): (s: string)
    ensures IsDigits(s)
  {
    if n < 16 then [DIGITS[n]]
    else ToHex(n / 16) + [DIGITS[n % 16]]
  }

  /** format(n, 'x'). */
  function IntToHex(n: int): string {
    if n < 0 then "-" + ToHex(-n) else ToHex(n)
  }

  // ------------------------------------------------------------------- parsing

  predicate IsSpace(c: char) {
    c == ' ' || '\t' <= c <= '\r' || '\U{1C}' <= c <= '\U{1F}'
  }

  function TrimLeft(s: string): string {
    if s != "" && IsSpace(s[0]) then TrimLeft(s[1..]) else s
  }

  function TrimRight(s: string): string {
    if s != "" && IsSpace(s[|s| - 1]) then TrimRight(s[..|s| - 1]) else s
  }

  /** Digits with single underscores between them. */
  function ParseDigits(s: string): Option<nat> {
    if s == "" then None
    else
      var d := DigitValue(s[|s| - 1]);
      if d.None? then None
      else if |s| == 1 then Some(d.value)
      else
        var high := ParseDigits(if s[|s| - 2] == '_' then s[..|s| - 2] else s[..|s| - 1]);
        if high.None? then None else Some(high.value * 16 + d.value)
  }

  /** After the sign: an optional 0x, which one underscore may follow. */
  function ParseUnsigned(s: string): Option<nat> {
    if |s| >= 2 && s[0] == '0' && (s[1] == 'x' || s[1] == 'X') then
      ParseDigits(if |s| >= 3 && s[2] == '_' then s[3..] else s[2..])
    else ParseDigits(s)
  }

  /** int(text, 16); None is a ValueError. */
  function ParseInt(text: string): Option<int> {
    var s := TrimRight(TrimLeft(text));
    if s != "" && s[0] == '-' then Signed(-1, ParseUnsigned(s[1..]))
    else Signed(1, ParseUnsigned(if s != "" && s[0] == '+' then s[1..] else s))
  }

  function Signed(sign: int, n: Option<nat>): Option<int> {
    if n.None? then None else Some(sign * n.value)
  }

  // ---------------------------------------------------------------- round trips

  lemma OneMoreDigit(high: string, c: char)
    requires IsDigits(high) && DigitValue(c).Some?
    ensures ParseDigits(high + [c]) ==
            (var n := ParseDigits(high); if n.None? then None else Some(n.value * 16 + DigitValue(c).value))
  {
  }

  lemma ToHexAppend(n: nat, d: int)
    requires n > 0 && 0 <= d < 16
    ensures ToHex(n * 16 + d) == ToHex(n) + [DIGITS[d]]
  {
    assert (n * 16 + d) / 16 == n && (n * 16 + d) % 16 == d;
  }

  lemma {:induction false} DigitsParse(n: nat)
    ensures ParseDigits(ToHex(n)) == Some(n)
  {
    hide ParseDigits;
    if n < 16 {
      OneDigit(n);
    } else {
      DigitsParse(n / 16);
      DigitPrinted(n % 16);
      OneMoreDigit(ToHex(n / 16), DIGITS[n % 16]);
    }
  }

  lemma OneDigit(d: int)
    requires 0 <= d < 16
    ensures ParseDigits([DIGITS[d]]) == Some(d)
  {
  }

  /** Plain digits have no sign, blank or prefix to strip. */
  lemma PlainDigits(s: string)
    requires IsDigits(s)
    ensures TrimRight(TrimLeft(s)) == s && ParseUnsigned(s) == ParseDigits(s)
    ensures ParseInt(s) == Signed(1, ParseDigits(s))
    ensures s[0] != '-' && s[0] != '+'
  {
    assert s[0] in s && s[|s| - 1] in s;
    if |s| >= 2 { assert s[1] in s; }
  }

  lemma SignedDigits(s: string)
    requires IsDigits(s)
    ensures ParseInt("-" + s) == Signed(-1, ParseDigits(s))
  {
    var t := "-" + s;
    PlainDigits(s);
    assert s[|s| - 1] in s && t[|t| - 1] == s[|s| - 1];
    assert t[1..] == s;
  }

  /** int(format(n, 'x'), 16) == n. */
  lemma IntRoundTrip(n: int)
    ensures ParseInt(IntToHex(n)) == Some(n)
  {
    hide ToHex, ParseDigits, ParseInt;
    if n < 0 {
      DigitsParse(-n);
      SignedDigits(ToHex(-n));
    } else {
      DigitsParse(n);
      PlainDigits(ToHex(n));
    }
  }

  // ------------------------------------------------------ letter case and padding

  function Zeros(k: nat): (s: string)
    ensures |s| == k && forall c :: c in s ==> c == '0'
  {
    seq(k, _ => '0')
  }

  /** Lower case, without leading zeros (but keeping one digit). */
  function Canonical(s: string): string {
    if |s| > 1 && s[0] == '0' then Canonical(s[1..]) else LowerAll(s)
  }

  lemma {:induction false} LeadingZero(s: string)
    requires IsDigits(s)
    ensures ParseDigits("0" + s) == ParseDigits(s)
  {
    var t := "0" + s;
    assert t[|t| - 1] == s[|s| - 1];
    if |s| == 1 {
      assert t[..1] == "0" && t[0] != '_';
    } else {
      var init := s[..|s| - 1];
      assert s[|s| - 2] in s;
      assert t[..|t| - 1] == "0" + init && t[|t| - 2] == s[|s| - 2];
      LeadingZero(init);
    }
  }

  lemma {:induction false} NoLeadingZero(s: string)
    requires IsDigits(s) && (|s| == 1 || s[0] != '0')
    ensures ParseDigits(s).Some? && ToHex(ParseDigits(s).value) == LowerAll(s)
    ensures s[0] != '0' ==> ParseDigits(s).value > 0
  {
    hide ParseDigits, ToHex;
    var c := s[|s| - 1];
    assert c in s;
    DigitParsed(c);
    if |s| == 1 {
      SingleDigit(c);
      assert s == [c] && LowerAll(s) == [Lower(c)];
    } else {
      var init := s[..|s| - 1];
      assert s == init + [c];
      NoLeadingZero(init);
      OneMoreDigit(init, c);
      ToHexAppend(ParseDigits(init).value, DigitValue(c).value);
      assert LowerAll(s) == LowerAll(init) + [Lower(c)];
    }
  }

  lemma SingleDigit(c: char)
    requires DigitValue(c).Some?
    ensures ParseDigits([c]) == Some(DigitValue(c).value) && ToHex(DigitValue(c).value) == [Lower(c)]
    ensures c != '0' ==> DigitValue(c).value > 0
  {
  }

  /** Printing a parsed number back gives its digits in lower case without leading zeros. */
  lemma {:induction false} ParsedPrints(s: string)
    requires IsDigits(s)
    ensures ParseDigits(s).Some? && ToHex(ParseDigits(s).value) == Canonical(s)
    ensures ParseInt(s).Some? && IntToHex(ParseInt(s).value) == Canonical(s)
    decreases |s|
  {
    PlainDigits(s);
    if |s| > 1 && s[0] == '0' {
      assert forall c :: c in s[1..] ==> c in s;
      assert s == "0" + s[1..];
      LeadingZero(s[1..]);
      ParsedPrints(s[1..]);
    } else {
      NoLeadingZero(s);
    }
  }

  /** Two strings of digits are the same number exactly when they differ in letter case and left zero padding only. */
  lemma SameNumberIff(a: string, b: string)
    requires IsDigits(a) && IsDigits(b)
    ensures ParseInt(a) == ParseInt(b) <==> Canonical(a) == Canonical(b)
  {
    ParsedPrints(a);
    ParsedPrints(b);
    PlainDigits(a);
    PlainDigits(b);
    DigitsParse(ParseDigits(a).value);
    DigitsParse(ParseDigits(b).value);
  }

  /** zfill: left padding with zeros up to a width (only digits are ever padded here). */
  function Zfill(s: string, width: nat): (r: string)
    requires IsDigits(s)
    ensures IsDigits(r) && |r| == if |s| < width then width else |s|
  {
    if |s| < width then Zeros(width - |s|) + s else s
  }

  lemma {:induction false} PaddingIgnored(k: nat, s: string)
    requires IsDigits(s)
    ensures ParseDigits(Zeros(k) + s) == ParseDigits(s)
  {
    if k == 0 {
      assert Zeros(0) + s == s;
    } else {
      PaddingIgnored(k - 1, s);
      var t := Zeros(k - 1) + s;
      assert Zeros(k) + s == "0" + t;
      LeadingZero(t);
    }
  }

  /** format(n, 'x').zfill(width): a sign stays in front of the padding. */
  function PaddedHex(n: int, width: nat): string {
    if n < 0 then "-" + Zfill(ToHex(-n), if width == 0 then 0 else width - 1) else Zfill(ToHex(n), width)
  }

  lemma ZfillParses(s: string, width: nat)
    requires IsDigits(s)
    ensures ParseDigits(Zfill(s, width)) == ParseDigits(s)
  {
    if |s| < width { PaddingIgnored(width - |s|, s); }
  }

  /** int(format(n, 'x').zfill(width), 16) == n, for every integer and width. */
  lemma PaddedRoundTrip(n: int, width: nat)
    ensures ParseInt(PaddedHex(n, width)) == Some(n)
  {
    hide ToHex, ParseDigits, ParseInt, Zfill;
    if n < 0 {
      var w := if width == 0 then 0 else width - 1;
      DigitsParse(-n);
      ZfillParses(ToHex(-n), w);
      SignedDigits(Zfill(ToHex(-n), w));
    } else {
      DigitsParse(n);
      ZfillParses(ToHex(n), width);
      PlainDigits(Zfill(ToHex(n), width));
    }
  }


  // ------------------------------------------------------------- what it looks like

  lemma {:induction false} PrintedPlain(n: nat)
    ensures LowerAll(ToHex(n)) == ToHex(n) && (n > 0 ==> ToHex(n)[0] != '0')
  {
    if n >= 16 {
      PrintedPlain(n / 16);
      assert LowerAll(ToHex(n)) == LowerAll(ToHex(n / 16)) + LowerAll([DIGITS[n % 16]]);
    }
  }

  /** n in hexadecimal: lower case, at least the width, and longer only if it has to be. */
  predicate Fills(s: string, n: nat, width: nat) {
    && IsDigits(s) && LowerAll(s) == s && ParseInt(s) == Some(n)
    && |s| >= width && (|s| > width ==> s[0] != '0' || |s| == 1)
  }

  lemma {:induction false} ZerosStayLower(k: nat, s: string)
    requires LowerAll(s) == s
    ensures LowerAll(Zeros(k) + s) == Zeros(k) + s
  {
    var t := Zeros(k) + s;
    forall i | 0 <= i < |t| ensures Lower(t[i]) == t[i] {
      if i < k { assert t[i] in Zeros(k); } else { assert t[i] == s[i - k] == LowerAll(s)[i - k]; }
    }
  }

  lemma PaddedFills(n: nat, width: nat)
    ensures Fills(PaddedHex(n, width), n, width)
  {
    hide ParseInt, LowerAll, ToHex;
    PaddedRoundTrip(n, width);
    PrintedPlain(n);
    if |ToHex(n)| < width { ZerosStayLower(width - |ToHex(n)|, ToHex(n)); }
    if n == 0 { ZeroPrinted(); }
  }

  lemma ZeroPrinted()
    ensures ToHex(0) == "0"
  {
  }

  /** The sign of a negative number counts for the width and stays in front. */
  lemma SignInFront(n: nat, width: nat)
    requires n > 0
    ensures PaddedHex(0 - n, width + 1) == "-" + PaddedHex(n, width)
  {
    hide ToHex, Zfill;
  }

  /** Digits with single underscores between them. */
  predicate Grouped(s: string) {
    && s != "" && s[0] != '_' && s[|s| - 1] != '_'
    && (forall i :: 0 <= i < |s| ==> s[i] == '_' || DigitValue(s[i]).Some?)
    && forall i :: 0 < i < |s| ==> !(s[i - 1] == '_' && s[i] == '_')
  }

  lemma {:induction false} ParsesIff(s: string)
    ensures ParseDigits(s).Some? <==> Grouped(s)
    decreases |s|
  {
    if |s| >= 2 {
      var init := if s[|s| - 2] == '_' then s[..|s| - 2] else s[..|s| - 1];
      ParsesIff(init);
      if Grouped(s) {
        assert s[|s| - 2] == '_' ==> |s| >= 3 && s[|s| - 3] != '_';
        assert Grouped(init);
      }
      if Grouped(init) && DigitValue(s[|s| - 1]).Some? {
        forall i | 0 <= i < |s| ensures s[i] == '_' || DigitValue(s[i]).Some? {
          if i < |init| { assert s[i] == init[i]; }
        }
        forall i | 0 < i < |s| ensures !(s[i - 1] == '_' && s[i] == '_') {
          if i < |init| { assert s[i] == init[i] && s[i - 1] == init[i - 1]; }
        }
      }
    }
  }

  lemma AnotherDigit(high: string, c: char)
    requires high != "" && high[|high| - 1] != '_' && DigitValue(c).Some?
    ensures ParseDigits(high + [c]) == Continued(ParseDigits(high), c)
  {
    hide DigitValue;
    var s := high + [c];
    assert s[..|s| - 1] == high && s[|s| - 2] == high[|high| - 1];
  }

  lemma DigitAfterUnderscore(high: string, c: char)
    requires high != "" && DigitValue(c).Some?
    ensures ParseDigits(high + ['_', c]) == Continued(ParseDigits(high), c)
  {
    hide DigitValue;
    var s := high + ['_', c];
    assert s[..|s| - 2] == high && s[|s| - 2] == '_' && s[|s| - 1] == c;
  }

  function Continued(high: Option<nat>, c: char): Option<nat>
    requires DigitValue(c).Some?
  {
    if high.None? then None else Some(high.value * 16 + DigitValue(c).value)
  }

  /** An underscore between digits does not count. */
  lemma {:induction false} UnderscoresIgnored(a: string, b: string)
    requires IsDigits(a) && IsDigits(b)
    ensures ParseDigits(a + "_" + b) == ParseDigits(a + b)
    decreases |b|
  {
    hide ParseDigits;
    var init, last := b[..|b| - 1], b[|b| - 1];
    assert last in b && a[|a| - 1] in a;
    if |b| == 1 {
      assert a + "_" + b == a + ['_', last] && a + b == a + [last];
      AnotherDigit(a, last);
      DigitAfterUnderscore(a, last);
    } else {
      assert init[|init| - 1] in b && IsDigits(init);
      UnderscoresIgnored(a, init);
      AnotherDigit(a + "_" + init, last);
      AnotherDigit(a + init, last);
      assert a + "_" + b == (a + "_" + init) + [last] && a + b == (a + init) + [last];
    }
  }

  /** ASCII blanks: tab to carriage return, the four separators, and the space. */
  predicate BlankChar(c: char) {
    c as int in [9, 10, 11, 12, 13, 28, 29, 30, 31, 32]
  }

  predicate Blank(s: string) {
    forall i :: 0 <= i < |s| ==> BlankChar(s[i])
  }

  lemma {:induction false} LeftTrimmed(blanks: string, s: string)
    requires Blank(blanks) && s != "" && !BlankChar(s[0])
    ensures TrimLeft(blanks + s) == s
  {
    if blanks == "" {
      assert blanks + s == s;
    } else {
      assert (blanks + s)[1..] == blanks[1..] + s;
      LeftTrimmed(blanks[1..], s);
    }
  }

  lemma {:induction false} RightTrimmed(s: string, blanks: string)
    requires Blank(blanks) && s != "" && !BlankChar(s[|s| - 1])
    ensures TrimRight(s + blanks) == s
  {
    var n := |blanks| - 1;
    if blanks == "" {
      assert s + blanks == s;
    } else {
      assert (s + blanks)[..|s| + n] == s + blanks[..n];
      RightTrimmed(s, blanks[..n]);
    }
  }

  lemma Trimmed(before: string, s: string, after: string)
    requires Blank(before) && Blank(after) && s != "" && !BlankChar(s[0]) && !BlankChar(s[|s| - 1])
    ensures TrimRight(TrimLeft(before + s + after)) == s
  {
    assert before + s + after == before + (s + after);
    LeftTrimmed(before, s + after);
    RightTrimmed(s, after);
  }

  /** The signs and prefixes int(text, 16) allows before the digits. */
  datatype Lead = Lead(sign: string, prefix: string)

  predicate ValidLead(l: Lead) {
    l.sign in ["", "+", "-"] && l.prefix in ["", "0x", "0X", "0x_", "0X_"]
  }

  lemma PrefixIgnored(prefix: string, s: string)
    requires prefix in ["", "0x", "0X", "0x_", "0X_"] && Grouped(s)
    ensures ParseUnsigned(prefix + s) == ParseDigits(s)
  {
    hide ParseDigits;
    var t := prefix + s;
    if prefix == "" {
      assert t == s;
      assert |s| >= 2 ==> s[1] == '_' || DigitValue(s[1]).Some?;
    } else if |prefix| == 2 {
      assert t[2..] == s && t[2] == s[0];
    } else {
      assert t[3..] == s;
    }
  }

  lemma Ends(l: Lead, s: string)
    requires ValidLead(l) && Grouped(s)
    ensures var u := l.prefix + s;
            var t := l.sign + u;
            && u != "" && u[0] != '-' && u[0] != '+' && !BlankChar(t[0]) && !BlankChar(t[|t| - 1])
            && (l.sign == "" ==> t == u) && (l.sign != "" ==> t[..1] == l.sign && t[1..] == u)
  {
    var u := l.prefix + s;
    var t := l.sign + u;
    assert u[0] == '0' || u == s;
    assert t[|t| - 1] == s[|s| - 1];
    assert DigitValue(s[0]).Some? && DigitValue(s[|s| - 1]).Some?;
  }

  lemma SignRead(text: string, sign: string, u: string)
    requires TrimRight(TrimLeft(text)) == sign + u && sign in ["", "+", "-"] && u != "" && u[0] != '-' && u[0] != '+'
    ensures ParseInt(text) == Signed(if sign == "-" then -1 else 1, ParseUnsigned(u))
  {
    hide ParseUnsigned, TrimLeft, TrimRight;
    var t := sign + u;
    if sign == "" { assert t == u; } else { assert t[0] == sign[0] && t[1..] == u; }
  }

  /** Blanks around it, a sign and a prefix 0x, which an underscore may follow, change nothing but the sign. */
  lemma FormsParse(before: string, l: Lead, s: string, after: string)
    requires Blank(before) && Blank(after) && ValidLead(l) && Grouped(s)
    ensures ParseDigits(s).Some?
    ensures ParseInt(before + (l.sign + (l.prefix + s)) + after) ==
            Some(if l.sign == "-" then 0 - ParseDigits(s).value else ParseDigits(s).value)
  {
    hide ParseDigits, ParseUnsigned, ParseInt, TrimLeft, TrimRight, Grouped, Blank, BlankChar;
    ParsesIff(s);
    PrefixIgnored(l.prefix, s);
    Ends(l, s);
    var u := l.prefix + s;
    var t := l.sign + u;
    Trimmed(before, t, after);
    SignRead(before + t + after, l.sign, u);
  }

  lemma {:induction false} LeftBlanks(s: string) returns (blanks: string)
    ensures s == blanks + TrimLeft(s) && Blank(blanks)
  {
    blanks := "";
    if s != "" && IsSpace(s[0]) {
      var more := LeftBlanks(s[1..]);
      blanks := [s[0]] + more;
    }
  }

  lemma {:induction false} RightBlanks(s: string) returns (blanks: string)
    ensures s == TrimRight(s) + blanks && Blank(blanks)
  {
    blanks := "";
    if s != "" && IsSpace(s[|s| - 1]) {
      var more := RightBlanks(s[..|s| - 1]);
      blanks := more + [s[|s| - 1]];
    }
  }

  lemma UnsignedForm(u: string) returns (prefix: string, s: string)
    requires ParseUnsigned(u).Some?
    ensures u == prefix + s && prefix in ["", "0x", "0X", "0x_", "0X_"] && Grouped(s)
  {
    hide ParseDigits;
    prefix, s := "", u;
    if |u| >= 2 && u[0] == '0' && (u[1] == 'x' || u[1] == 'X') {
      prefix, s := if u[1] == 'x' then "0x" else "0X", u[2..];
      if |u| >= 3 && u[2] == '_' { prefix, s := if u[1] == 'x' then "0x_" else "0X_", u[3..]; }
      assert u[..|prefix|] == prefix;
    }
    ParsesIff(s);
  }

  /** And nothing else is accepted. */
  lemma OnlyForms(text: string) returns (before: string, l: Lead, s: string, after: string)
    requires ParseInt(text).Some?
    ensures text == before + (l.sign + (l.prefix + s)) + after
    ensures Blank(before) && Blank(after) && ValidLead(l) && Grouped(s)
  {
    hide ParseUnsigned, TrimLeft, TrimRight;
    before := LeftBlanks(text);
    after := RightBlanks(TrimLeft(text));
    var t := TrimRight(TrimLeft(text));
    var sign := if t != "" && t[0] == '-' then "-" else if t != "" && t[0] == '+' then "+" else "";
    var prefix: string;
    prefix, s := UnsignedForm(t[|sign|..]);
    l := Lead(sign, prefix);
    assert t == sign + t[|sign|..];
    assert before + (t + after) == before + t + after;
  }
}
