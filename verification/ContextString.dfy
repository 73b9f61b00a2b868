/** The trace context as one string, {trace_id}:{span_id}:{parent_id}:{flags}. */
module ContextString {
  import opened Prelude
  import opened Hex

  /** What a carrier may hold under a header. */
  datatype HeaderValue = Str(s: string) | Items(vs: seq<HeaderValue>) | Other

  datatype Ids = Ids(traceId: int, spanId: int, parentId: Option<int>, flags: int)

  datatype Corrupted = NotOneHeader | NotAString | NotFourParts | NotANumber | OutOfRange

  function OrZero(n: Option<int>): int {
    if n.None? then 0 else n.value
  }

  /** span_context_to_string */
  function ToText(ids: Ids): string {
    IntToHex(ids.traceId) + ":" + IntToHex(ids.spanId) + ":" + IntToHex(OrZero(ids.parentId)) + ":"
      + IntToHex(ids.flags)
  }

  function Split(s: string, sep: char): (parts: seq<string>)
    ensures parts != []
  {
    if s == "" then [""]
    else
      var parts := Split(s[1..], sep);
      if s[0] == sep then [""] + parts else [[s[0]] + parts[0]] + parts[1..]
  }

  /** span_context_from_string, once the value is known to be a string. */
  function FromText(text: string): Result<Ids, Corrupted> {
    var parts := Split(text, ':');
    if |parts| != 4 then Err(NotFourParts)
    else
      var traceId, spanId := ParseInt(parts[0]), ParseInt(parts[1]);
      var parentId, flags := ParseInt(parts[2]), ParseInt(parts[3]);
      if traceId.None? || spanId.None? || parentId.None? || flags.None? then Err(NotANumber)
      else if traceId.value < 1 || spanId.value < 1 || parentId.value < 0 || flags.value < 0 then Err(OutOfRange)
      else Ok(Ids(traceId.value, spanId.value, if parentId.value == 0 then None else parentId, flags.value))
  }

  /** span_context_from_string */
  function FromHeader(v: HeaderValue): Result<Ids, Corrupted> {
    if v.Items? && |v.vs| > 1 then Err(NotOneHeader)
    else
      var w := if v.Items? && |v.vs| == 1 then v.vs[0] else v;
      if w.Str? then FromText(w.s) else Err(NotAString)
  }

  // ------------------------------------------------------------------ splitting

  lemma {:induction false} SplitFirst(a: string, rest: string, sep: char)
    requires sep !in a
    ensures Split(a + [sep] + rest, sep) == [a] + Split(rest, sep)
  {
    var s := a + [sep] + rest;
    if a == "" {
      assert s[1..] == rest;
    } else {
      assert s[1..] == a[1..] + [sep] + rest;
      SplitFirst(a[1..], rest, sep);
      var parts := Split(s[1..], sep);
      assert [s[0]] + parts[0] == a && parts[1..] == Split(rest, sep);
    }
  }

  lemma {:induction false} SplitLast(a: string, sep: char)
    requires sep !in a
    ensures Split(a, sep) == [a]
  {
    if a != "" {
      SplitLast(a[1..], sep);
      assert [a[0]] + a[1..] == a;
    }
  }

  function Join4(a: string, b: string, c: string, d: string): string {
    a + ":" + b + ":" + c + ":" + d
  }

  lemma SplitJoin4(a: string, b: string, c: string, d: string)
    requires ':' !in a && ':' !in b && ':' !in c && ':' !in d
    ensures Split(Join4(a, b, c, d), ':') == [a, b, c, d]
  {
    assert Join4(a, b, c, d) == a + [':'] + (b + [':'] + (c + [':'] + d));
    SplitFirst(a, b + [':'] + (c + [':'] + d), ':');
    SplitFirst(b, c + [':'] + d, ':');
    SplitFirst(c, d, ':');
    SplitLast(d, ':');
  }

  lemma NoColon(n: int)
    ensures ':' !in IntToHex(n)
  {
  }

  // ---------------------------------------------------------------- round trips

  predicate Valid(ids: Ids) {
    ids.traceId >= 1 && ids.spanId >= 1 && (ids.parentId.Some? ==> ids.parentId.value >= 1) && ids.flags >= 0
  }

  lemma TextParts(ids: Ids)
    ensures Split(ToText(ids), ':') ==
            [IntToHex(ids.traceId), IntToHex(ids.spanId), IntToHex(OrZero(ids.parentId)), IntToHex(ids.flags)]
    ensures ParseInt(IntToHex(ids.traceId)) == Some(ids.traceId) && ParseInt(IntToHex(ids.spanId)) == Some(ids.spanId)
    ensures ParseInt(IntToHex(OrZero(ids.parentId))) == Some(OrZero(ids.parentId))
    ensures ParseInt(IntToHex(ids.flags)) == Some(ids.flags)
  {
    hide IntToHex, ParseInt;
    NoColon(ids.traceId);
    NoColon(ids.spanId);
    NoColon(OrZero(ids.parentId));
    NoColon(ids.flags);
    SplitJoin4(IntToHex(ids.traceId), IntToHex(ids.spanId), IntToHex(OrZero(ids.parentId)), IntToHex(ids.flags));
    IntRoundTrip(ids.traceId);
    IntRoundTrip(ids.spanId);
    IntRoundTrip(OrZero(ids.parentId));
    IntRoundTrip(ids.flags);
  }

  /** The printed context is parsed back to itself exactly when the ids are positive (a parent may be absent) and
      the flags are not negative; the numbers have no upper bound. */
  lemma RoundTripIff(ids: Ids)
    ensures FromText(ToText(ids)) == Ok(ids) <==> Valid(ids)
  {
    hide IntToHex, ParseInt, ToText;
    TextParts(ids);
  }

  lemma ParsedIsValid(v: HeaderValue)
    ensures FromHeader(v).Ok? ==> Valid(FromHeader(v).value)
  {
  }

  /** A one-element list of header values is read as its element. */
  lemma SingletonHeader(ids: Ids)
    requires Valid(ids)
    ensures FromHeader(Str(ToText(ids))) == Ok(ids) && FromHeader(Items([Str(ToText(ids))])) == Ok(ids)
  {
    hide FromText, ToText;
    RoundTripIff(ids);
  }

  /** Letter case and left zero padding of any field make no difference. */
  lemma PaddingAndCaseIgnored(p: seq<string>, q: seq<string>)
    requires |p| == |q| == 4
    requires forall i :: 0 <= i < 4 ==> IsDigits(p[i]) && IsDigits(q[i]) && Canonical(p[i]) == Canonical(q[i])
    ensures FromText(Join4(p[0], p[1], p[2], p[3])) == FromText(Join4(q[0], q[1], q[2], q[3]))
  {
    hide ParseInt, Canonical, Split, Join4;
    forall i | 0 <= i < 4 ensures ParseInt(p[i]) == ParseInt(q[i]) && ':' !in p[i] && ':' !in q[i] {
      SameNumberIff(p[i], q[i]);
    }
    SplitJoin4(p[0], p[1], p[2], p[3]);
    SplitJoin4(q[0], q[1], q[2], q[3]);
  }

  /** Printing what was parsed from digits gives the canonical digits back. */
  lemma ParsedPrintsBack(p: seq<string>)
    requires |p| == 4 && forall i :: 0 <= i < 4 ==> IsDigits(p[i])
    requires FromText(Join4(p[0], p[1], p[2], p[3])).Ok?
    ensures ToText(FromText(Join4(p[0], p[1], p[2], p[3])).value) ==
            Join4(Canonical(p[0]), Canonical(p[1]), Canonical(p[2]), Canonical(p[3]))
  {
    hide ParseInt, Canonical, Split, IntToHex;
    forall i | 0 <= i < 4
      ensures ':' !in p[i] && ParseInt(p[i]).Some? && IntToHex(ParseInt(p[i]).value) == Canonical(p[i])
    {
      ParsedPrints(p[i]);
    }
    SplitJoin4(p[0], p[1], p[2], p[3]);
  }


  // ---------------------------------------------------------------- what is parsed

  function Joined(parts: seq<string>, sep: char): string
    requires parts != []
  {
    if |parts| == 1 then parts[0] else parts[0] + [sep] + Joined(parts[1..], sep)
  }

  /** Splitting gives the parts between the separators: no part has one, and with separators they make the text. */
  lemma {:induction false} SplitExactly(s: string, sep: char)
    ensures Joined(Split(s, sep), sep) == s && forall p :: p in Split(s, sep) ==> sep !in p
  {
    if s != "" {
      var parts := Split(s[1..], sep);
      SplitExactly(s[1..], sep);
      if s[0] == sep {
        assert ([""] + parts)[1..] == parts;
        assert "" + [sep] + s[1..] == s;
      } else {
        var more := [[s[0]] + parts[0]] + parts[1..];
        assert parts[0] in parts && more[1..] == parts[1..];
        forall p | p in more ensures sep !in p { assert p == more[0] || p in parts; }
        assert Joined(more, sep) == [s[0]] + Joined(parts, sep);
      }
    }
  }

  /** Four fields without colons: trace id, span id, parent id and flags, in this order. They make a context exactly
      when all are numbers in base 16, the first two positive and the others not negative. */
  lemma FieldsParsed(p: seq<string>)
    requires |p| == 4 && forall i :: 0 <= i < 4 ==> ':' !in p[i]
    ensures var r := FromText(p[0] + ":" + p[1] + ":" + p[2] + ":" + p[3]);
            && (r.Ok? <==> && (forall i :: 0 <= i < 4 ==> ParseInt(p[i]).Some?)
                           && ParseInt(p[0]).value >= 1 && ParseInt(p[1]).value >= 1
                           && ParseInt(p[2]).value >= 0 && ParseInt(p[3]).value >= 0)
            && (r == Err(NotANumber) <==> exists i :: 0 <= i < 4 && ParseInt(p[i]).None?)
            && (r.Err? ==> r.error in {NotANumber, OutOfRange})
            && (r.Ok? ==> && r.value.traceId == ParseInt(p[0]).value && r.value.spanId == ParseInt(p[1]).value
                          && OrZero(r.value.parentId) == ParseInt(p[2]).value && r.value.parentId != Some(0)
                          && r.value.flags == ParseInt(p[3]).value)
  {
    hide ParseInt;
    SplitJoin4(p[0], p[1], p[2], p[3]);
  }

  /** These four fields, without colons, are the text. */
  predicate FourFields(text: string, p: seq<string>) {
    && |p| == 4 && (forall i :: 0 <= i < 4 ==> ':' !in p[i])
    && text == p[0] + ":" + p[1] + ":" + p[2] + ":" + p[3]
  }

  /** A text that is not four fields is refused as such. */
  lemma FourFieldsIff(text: string)
    ensures FromText(text) == Err(NotFourParts) <==> !exists p :: FourFields(text, p)
  {
    hide ParseInt;
    SplitExactly(text, ':');
    var p := Split(text, ':');
    if |p| == 4 {
      assert Joined(p, ':') == p[0] + ":" + (p[1] + ":" + (p[2] + ":" + p[3])) by {
        assert p[1..][1..] == p[2..] && p[2..][1..] == p[3..];
        assert Joined(p[3..], ':') == p[3];
        assert Joined(p[2..], ':') == p[2] + ":" + p[3];
        assert Joined(p[1..], ':') == p[1] + ":" + (p[2] + ":" + p[3]);
      }
      assert FourFields(text, p);
    }
    forall q | FourFields(text, q) ensures |p| == 4 { SplitJoin4(q[0], q[1], q[2], q[3]); }
  }

  /** What is refused before the text is looked at: more than one header value, and values that are no text. */
  lemma HeaderRefusals(v: HeaderValue)
    ensures v.Items? && |v.vs| > 1 ==> FromHeader(v) == Err(NotOneHeader)
    ensures v.Other? || v == Items([]) || (v.Items? && |v.vs| == 1 && !v.vs[0].Str?) ==>
              FromHeader(v) == Err(NotAString)
    ensures v.Str? ==> FromHeader(v) == FromText(v.s)
  {
    hide FromText;
  }
}
