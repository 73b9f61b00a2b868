/** Percent-encoding of byte strings (section 2.1 of RFC 3986) as urllib does it. A character stands for one byte
    of UTF-8. */
module Percent {
  import opened Prelude
  import opened Hex

  const UPPER_DIGITS: string := "0123456789ABCDEF"

  predicate IsBytes(s: string) {
    forall i :: 0 <= i < |s| ==> s[i] as int < 256
  }

  /** The unreserved characters of section 2.3, and the slash. */
  predicate IsSafe(c: char) {
    'A' <= c <= 'Z' || 'a' <= c <= 'z' || '0' <= c <= '9' || c in "_.-~/"
  }

  function QuoteChar(c: char): string {
    if IsSafe(c) then [c] else ['%', UPPER_DIGITS[c as int / 16 % 16], UPPER_DIGITS[c as int % 16]]
  }

  function Quote(s: string): string {
    if s == "" then "" else QuoteChar(s[0]) + Quote(s[1..])
  }

  /** A percent sign that two digits do not follow stands for itself. */
  function Unquote(s: string): string {
    if s == "" then ""
    else if s[0] == '%' && |s| >= 3 && DigitValue(s[1]).Some? && DigitValue(s[2]).Some? then
      [(DigitValue(s[1]).value * 16 + DigitValue(s[2]).value) as char] + Unquote(s[3..])
    else [s[0]] + Unquote(s[1..])
  }

  lemma UpperDigit(d: int)
    requires 0 <= d < 16
    ensures DigitValue(UPPER_DIGITS[d]) == Some(d)
  {
  }

  lemma UnquoteFirst(c: char, rest: string)
    requires c as int < 256
    ensures Unquote(QuoteChar(c) + rest) == [c] + Unquote(rest)
  {
    var s := QuoteChar(c) + rest;
    if IsSafe(c) {
      assert s[1..] == rest;
    } else {
      UpperDigit(c as int / 16 % 16);
      UpperDigit(c as int % 16);
      assert c as int / 16 % 16 == c as int / 16;
      assert s[3..] == rest;
    }
  }

  lemma {:induction false} UnquoteQuote(s: string)
    requires IsBytes(s)
    ensures Unquote(Quote(s)) == s
  {
    hide QuoteChar, Unquote;
    if s == "" {
      NothingToUnquote("");
    } else {
      UnquoteFirst(s[0], Quote(s[1..]));
      UnquoteQuote(s[1..]);
    }
  }

  lemma {:induction false} NothingToUnquote(s: string)
    requires '%' !in s
    ensures Unquote(s) == s
  {
    if s != "" { NothingToUnquote(s[1..]); }
  }


  /** Quoted text has only unreserved characters, slashes and percent signs. */
  lemma {:induction false} QuotedIsSafe(s: string)
    ensures forall c :: c in Quote(s) ==>
              'A' <= c <= 'Z' || 'a' <= c <= 'z' || '0' <= c <= '9' || c in ['_', '.', '-', '~', '/', '%']
  {
    if s != "" {
      QuotedIsSafe(s[1..]);
      forall c | c in QuoteChar(s[0])
        ensures 'A' <= c <= 'Z' || 'a' <= c <= 'z' || '0' <= c <= '9' || c in ['_', '.', '-', '~', '/', '%'] {}
    }
  }

  /** Text of unreserved characters and slashes is left alone. */
  lemma {:induction false} SafeIsLeft(s: string)
    requires forall c :: c in s ==>
               'A' <= c <= 'Z' || 'a' <= c <= 'z' || '0' <= c <= '9' || c in ['_', '.', '-', '~', '/']
    ensures Quote(s) == s
  {
    if s != "" {
      assert s[0] in s;
      SafeIsLeft(s[1..]);
    }
  }
}
