/** The B3 multiple-header propagation format. */
module B3Codec {
  import opened Prelude
  import opened Hex
  import opened Dict
  import opened ContextString
  import opened SpanContexts

  const TRACE_HEADER := "X-B3-TraceId"
  const SPAN_HEADER := "X-B3-SpanId"
  const PARENT_SPAN_HEADER := "X-B3-ParentSpanId"
  const SAMPLED_HEADER := "X-B3-Sampled"
  const FLAGS_HEADER := "X-B3-Flags"

  const TRACE_LC := "x-b3-traceid"
  const SPAN_LC := "x-b3-spanid"
  const PARENT_LC := "x-b3-parentspanid"
  const SAMPLED_LC := "x-b3-sampled"
  const FLAGS_LC := "x-b3-flags"

  /** A header's value may be None. */
  type Header = Entry<string, Option<HeaderValue>>
  type Headers = seq<Header>

  datatype Error = NotAnId | NotHex

  lemma LowerNames()
    ensures LowerAll(TRACE_HEADER) == TRACE_LC && LowerAll(SPAN_HEADER) == SPAN_LC
    ensures LowerAll(PARENT_SPAN_HEADER) == PARENT_LC && LowerAll(SAMPLED_HEADER) == SAMPLED_LC
    ensures LowerAll(FLAGS_HEADER) == FLAGS_LC
  {
  }

  lemma NamesDiffer()
    ensures TRACE_LC != SPAN_LC && TRACE_LC != PARENT_LC && TRACE_LC != SAMPLED_LC && TRACE_LC != FLAGS_LC
    ensures SPAN_LC != PARENT_LC && SPAN_LC != SAMPLED_LC && SPAN_LC != FLAGS_LC
    ensures PARENT_LC != SAMPLED_LC && PARENT_LC != FLAGS_LC && SAMPLED_LC != FLAGS_LC
    ensures TRACE_HEADER != SPAN_HEADER && TRACE_HEADER != PARENT_SPAN_HEADER && TRACE_HEADER != SAMPLED_HEADER
    ensures TRACE_HEADER != FLAGS_HEADER && SPAN_HEADER != PARENT_SPAN_HEADER && SPAN_HEADER != SAMPLED_HEADER
    ensures SPAN_HEADER != FLAGS_HEADER && PARENT_SPAN_HEADER != SAMPLED_HEADER && PARENT_SPAN_HEADER != FLAGS_HEADER
  {
  }

  // ----------------------------------------------------------------- injection

  function Hexed(n: int, width: nat): Option<HeaderValue> {
    Some(Str(PaddedHex(n, width)))
  }

  /** The flag header, if one is written. */
  function FlagHeader(flags: int): Option<string> {
    if HasDebug(flags) then Some(FLAGS_HEADER) else if HasSampled(flags) then Some(SAMPLED_HEADER) else None
  }

  /** The carrier after inject; headers written before a None that cannot be formatted stay. */
  function Injected(wide: bool, ctx: SpanContext, carrier: Headers): Headers {
    if ctx.traceId.None? then carrier
    else
      var c1 := Put(carrier, TRACE_HEADER, Hexed(ctx.traceId.value, if wide then 32 else 16));
      if ctx.spanId.None? then c1
      else
        var c2 := Put(c1, SPAN_HEADER, Hexed(ctx.spanId.value, 16));
        var c3 := if ctx.parentId.None? then c2 else Put(c2, PARENT_SPAN_HEADER, Hexed(ctx.parentId.value, 16));
        if ctx.flags.None? || FlagHeader(ctx.flags.value).None? then c3
        else Put(c3, FlagHeader(ctx.flags.value).value, Some(Str("1")))
  }

  // ---------------------------------------------------------------- extraction

  datatype Found = Found(traceId: Option<int>, spanId: Option<int>, parentId: Option<int>, sampled: bool, debug: bool)

  const NOTHING: Found := Found(None, None, None, false, false)

  /** header_to_hex */
  function HeaderToHex(v: HeaderValue): Result<int, Error> {
    if !v.Str? then Err(NotAnId)
    else
      var n := ParseInt(v.s);
      if n.None? then Err(NotHex) else Ok(n.value)
  }

  predicate IsOne(v: HeaderValue) {
    v == Str("1")
  }

  function ScanOne(f: Found, e: Header): Result<Found, Error> {
    if e.value.None? then Ok(f)
    else
      var key, v := LowerAll(e.key), e.value.value;
      if key == TRACE_LC then
        (match HeaderToHex(v) case Err(x) => Err(x) case Ok(n) => Ok(f.(traceId := Some(n))))
      else if key == SPAN_LC then
        (match HeaderToHex(v) case Err(x) => Err(x) case Ok(n) => Ok(f.(spanId := Some(n))))
      else if key == PARENT_LC then
        (match HeaderToHex(v) case Err(x) => Err(x) case Ok(n) => Ok(f.(parentId := Some(n))))
      else if key == SAMPLED_LC && IsOne(v) then Ok(f.(sampled := true))
      else if key == FLAGS_LC && IsOne(v) then Ok(f.(debug := true))
      else Ok(f)
  }

  function Scan(es: Headers): Result<Found, Error>
    decreases |es|
  {
    if es == [] then Ok(NOTHING)
    else
      match Scan(es[..|es| - 1])
      case Err(x) => Err(x)
      case Ok(f) => ScanOne(f, es[|es| - 1])
  }

  function FlagsOf(f: Found): int {
    (if f.sampled then SAMPLED_FLAG else 0) + (if f.debug then DEBUG_FLAG else 0)
  }

  function Conclude(f: Found): Option<SpanContext> {
    if !Truthy(f.traceId) || !Truthy(f.spanId) then None
    else Some(Make(f.traceId, f.spanId, f.parentId, Some(FlagsOf(f)), [], None))
  }

  function Extracted(es: Headers): Result<Option<SpanContext>, Error> {
    match Scan(es)
    case Err(x) => Err(x)
    case Ok(f) => Ok(Conclude(f))
  }

  lemma {:induction false} ScanStops(es: Headers, n: nat)
    requires n <= |es| && Scan(es[..n]).Err?
    ensures Scan(es) == Scan(es[..n])
    decreases |es|
  {
    if n == |es| {
      assert es[..n] == es;
    } else {
      assert es[..|es| - 1][..n] == es[..n];
      ScanStops(es[..|es| - 1], n);
    }
  }

  class B3Carrier {
    var entries: Headers

    constructor (es: Headers)
      ensures entries == es
    {
      entries := es;
    }

    method Inject(generate128bit: bool, ctx: SpanContext) returns (ok: bool)
      modifies this
      ensures entries == Injected(generate128bit, ctx, old(entries))
      ensures ok <==> ctx.traceId.Some? && ctx.spanId.Some? && ctx.flags.Some?
    {
      if ctx.traceId.None? { return false; }
      if generate128bit {
        entries := Put(entries, TRACE_HEADER, Hexed(ctx.traceId.value, 32));
      } else {
        entries := Put(entries, TRACE_HEADER, Hexed(ctx.traceId.value, 16));
      }
      if ctx.spanId.None? { return false; }
      entries := Put(entries, SPAN_HEADER, Hexed(ctx.spanId.value, 16));
      if ctx.parentId.Some? {
        entries := Put(entries, PARENT_SPAN_HEADER, Hexed(ctx.parentId.value, 16));
      }
      if ctx.flags.None? { return false; }
      if HasDebug(ctx.flags.value) {
        entries := Put(entries, FLAGS_HEADER, Some(Str("1")));
      } else if HasSampled(ctx.flags.value) {
        entries := Put(entries, SAMPLED_HEADER, Some(Str("1")));
      }
      ok := true;
    }

    method Extract() returns (r: Result<Option<SpanContext>, Error>)
      ensures r == Extracted(entries)
    {
      var found := NOTHING;
      for i := 0 to |entries|
        invariant Scan(entries[..i]) == Ok(found)
      {
        var step := ScanOne(found, entries[i]);
        assert entries[..i + 1][..i] == entries[..i];
        if step.Err? {
          ScanStops(entries, i + 1);
          return Err(step.error);
        }
        found := step.value;
      }
      assert entries[..|entries|] == entries;
      r := Ok(Conclude(found));
    }
  }

  // ---------------------------------------------------------------- round trip

  /** The flags that survive the format. */
  function B3Flags(flags: int): int {
    if HasDebug(flags) then DEBUG_FLAG else if HasSampled(flags) then SAMPLED_FLAG else 0
  }

  lemma InjectedFresh(wide: bool, ctx: SpanContext)
    requires ctx.traceId.Some? && ctx.spanId.Some? && ctx.flags.Some?
    ensures var flag := FlagHeader(ctx.flags.value);
            Injected(wide, ctx, []) ==
            [Entry(TRACE_HEADER, Hexed(ctx.traceId.value, if wide then 32 else 16)),
             Entry(SPAN_HEADER, Hexed(ctx.spanId.value, 16))]
            + (if ctx.parentId.Some? then [Entry(PARENT_SPAN_HEADER, Hexed(ctx.parentId.value, 16))] else [])
            + (if flag.Some? then [Entry(flag.value, Some(Str("1")))] else [])
  {
    hide Hexed;
    NamesDiffer();
    var t := Hexed(ctx.traceId.value, if wide then 32 else 16);
    var s := Hexed(ctx.spanId.value, 16);
    var c1: Headers := [Entry(TRACE_HEADER, t)];
    var c2: Headers := [Entry(TRACE_HEADER, t), Entry(SPAN_HEADER, s)];
    assert Put([], TRACE_HEADER, t) == c1;
    PutNew(c1, SPAN_HEADER, s);
    var c3 := c2;
    if ctx.parentId.Some? {
      PutNew(c2, PARENT_SPAN_HEADER, Hexed(ctx.parentId.value, 16));
      c3 := c2 + [Entry(PARENT_SPAN_HEADER, Hexed(ctx.parentId.value, 16))];
    }
    var flag := FlagHeader(ctx.flags.value);
    if flag.Some? { PutNew(c3, flag.value, Some(Str("1"))); }
  }

  lemma ScanAppend(es: Headers, e: Header)
    requires Scan(es).Ok?
    ensures Scan(es + [e]) == ScanOne(Scan(es).value, e)
  {
  }

  lemma ScanIds(f: Found, n: int, width: nat)
    ensures ScanOne(f, Entry(TRACE_HEADER, Hexed(n, width))) == Ok(f.(traceId := Some(n)))
    ensures ScanOne(f, Entry(SPAN_HEADER, Hexed(n, width))) == Ok(f.(spanId := Some(n)))
    ensures ScanOne(f, Entry(PARENT_SPAN_HEADER, Hexed(n, width))) == Ok(f.(parentId := Some(n)))
  {
    hide LowerAll, ParseInt, PaddedHex;
    LowerNames();
    NamesDiffer();
    PaddedRoundTrip(n, width);
  }

  lemma ScanFlag(f: Found)
    ensures ScanOne(f, Entry(SAMPLED_HEADER, Some(Str("1")))) == Ok(f.(sampled := true))
    ensures ScanOne(f, Entry(FLAGS_HEADER, Some(Str("1")))) == Ok(f.(debug := true))
  {
    hide LowerAll;
    LowerNames();
    NamesDiffer();
  }

  /** Ids of any width survive under both settings, and so do the flags B3 knows; baggage does not travel. The
      context comes back exactly when neither the trace id nor the span id is zero. */
  lemma B3RoundTrip(wide: bool, ctx: SpanContext)
    requires ctx.traceId.Some? && ctx.spanId.Some? && ctx.flags.Some? && ctx.parentId != Some(0)
    ensures Extracted(Injected(wide, ctx, [])) ==
            Ok(if Truthy(ctx.traceId) && Truthy(ctx.spanId)
               then Some(ctx.(flags := Some(B3Flags(ctx.flags.value)), baggage := [], debugId := None))
               else None)
  {
    hide Injected, Hexed, ScanOne, HasDebug, HasSampled;
    InjectedFresh(wide, ctx);
    var w := if wide then 32 else 16;
    var t, s := Entry(TRACE_HEADER, Hexed(ctx.traceId.value, w)), Entry(SPAN_HEADER, Hexed(ctx.spanId.value, 16));
    assert [] + [t] == [t] && [t] + [s] == [t, s];
    ScanAppend([], t);
    ScanIds(NOTHING, ctx.traceId.value, w);
    var f1 := NOTHING.(traceId := ctx.traceId);
    ScanAppend([t], s);
    ScanIds(f1, ctx.spanId.value, 16);
    var f2 := f1.(spanId := ctx.spanId);
    var es: Headers, f := [t, s], f2;
    if ctx.parentId.Some? {
      var p := Entry(PARENT_SPAN_HEADER, Hexed(ctx.parentId.value, 16));
      ScanAppend(es, p);
      ScanIds(f, ctx.parentId.value, 16);
      es, f := es + [p], f.(parentId := ctx.parentId);
    }
    assert [t, s] + [] == [t, s];
    assert Scan(es) == Ok(f) && f == Found(ctx.traceId, ctx.spanId, ctx.parentId, false, false);
    var flag := FlagHeader(ctx.flags.value);
    if flag.Some? {
      ScanAppend(es, Entry(flag.value, Some(Str("1"))));
      ScanFlag(f);
    } else {
      assert es + [] == es;
    }
  }

  lemma FlagsIdempotent(flags: int)
    ensures B3Flags(B3Flags(flags)) == B3Flags(flags) && B3Flags(flags) in {0, SAMPLED_FLAG, DEBUG_FLAG}
  {
  }

  /** The debug bit always survives; the sampled bit does exactly when the span is not also a debug span. */
  lemma SampledSurvivesIff(flags: int)
    ensures HasDebug(B3Flags(flags)) == HasDebug(flags)
    ensures HasSampled(B3Flags(flags)) == HasSampled(flags) <==> !(HasSampled(flags) && HasDebug(flags))
  {
  }

  /** The flags start_span gives a debug span, over B3: still a debug span, no longer a sampled one. */
  lemma DebugSpanLosesSampled(wide: bool, ctx: SpanContext)
    requires Truthy(ctx.traceId) && Truthy(ctx.spanId) && ctx.parentId != Some(0)
    requires ctx.flags == Some(SAMPLED_FLAG + DEBUG_FLAG)
    ensures var r := Extracted(Injected(wide, ctx, []));
            && r.Ok? && r.value.Some? && r.value.value.flags == Some(DEBUG_FLAG)
            && HasSampled(SAMPLED_FLAG + DEBUG_FLAG) && !HasSampled(DEBUG_FLAG)
  {
    hide Extracted, Injected;
    B3RoundTrip(wide, ctx);
  }

  // --------------------------------------------------------- order of the headers

  predicate Names(e: Header, name: string) {
    e.value.Some? && LowerAll(e.key) == name
  }

  predicate ParsesTo(e: Header, n: int) {
    e.value.Some? && e.value.value.Str? && ParseInt(e.value.value.s) == Some(n)
  }

  /** An id header without a hexadecimal number. */
  predicate Bad(e: Header) {
    && e.value.Some? && LowerAll(e.key) in ["x-b3-traceid", "x-b3-spanid", "x-b3-parentspanid"]
    && (!e.value.value.Str? || ParseInt(e.value.value.s).None?)
  }

  /** The last header of the name, and its number. */
  predicate LastId(es: Headers, name: string, i: nat, n: int)
    requires i < |es|
  {
    && Names(es[i], name) && ParsesTo(es[i], n)
    && forall j :: i < j < |es| ==> !Names(es[j], name)
  }

  predicate IdFact(es: Headers, name: string, n: Option<int>) {
    if n.None? then forall e :: e in es ==> !Names(e, name)
    else exists i :: 0 <= i < |es| && LastId(es, name, i, n.value)
  }

  /** A header of this name that says 1. */
  predicate Says(e: Header, name: string) {
    LowerAll(e.key) == name && e.value == Some(Str("1"))
  }

  predicate FlagFact(es: Headers, name: string, b: bool) {
    b <==> exists e :: e in es && Says(e, name)
  }

  predicate Facts(es: Headers, f: Found) {
    && IdFact(es, "x-b3-traceid", f.traceId) && IdFact(es, "x-b3-spanid", f.spanId)
    && IdFact(es, "x-b3-parentspanid", f.parentId)
    && FlagFact(es, "x-b3-sampled", f.sampled) && FlagFact(es, "x-b3-flags", f.debug)
  }

  lemma IdFactAppend(es: Headers, e: Header, name: string, n: Option<int>, m: Option<int>)
    requires IdFact(es, name, n)
    requires if Names(e, name) then m.Some? && ParsesTo(e, m.value) else m == n
    ensures IdFact(es + [e], name, m)
  {
    hide ParsesTo, LowerAll;
    if Names(e, name) {
      assert LastId(es + [e], name, |es|, m.value);
    } else if n.Some? {
      var i :| 0 <= i < |es| && LastId(es, name, i, n.value);
      assert LastId(es + [e], name, i, n.value);
    }
  }

  lemma FlagFactAppend(es: Headers, e: Header, name: string, b: bool)
    requires FlagFact(es, name, b)
    ensures FlagFact(es + [e], name, b || Says(e, name))
  {
  }

  /** What one header does to each of the five locals. */
  lemma ScanOneFacts(f: Found, e: Header)
    ensures ScanOne(f, e).Err? <==> Bad(e)
    ensures ScanOne(f, e).Ok? ==>
              var g := ScanOne(f, e).value;
              && (if Names(e, TRACE_LC) then g.traceId.Some? && ParsesTo(e, g.traceId.value)
                  else g.traceId == f.traceId)
              && (if Names(e, SPAN_LC) then g.spanId.Some? && ParsesTo(e, g.spanId.value)
                  else g.spanId == f.spanId)
              && (if Names(e, PARENT_LC) then g.parentId.Some? && ParsesTo(e, g.parentId.value)
                  else g.parentId == f.parentId)
              && (g.sampled <==> f.sampled || Says(e, SAMPLED_LC))
              && (g.debug <==> f.debug || Says(e, FLAGS_LC))
  {
  }

  lemma {:induction false} ScanFacts(es: Headers)
    ensures Scan(es).Err? <==> exists e :: e in es && Bad(e)
    ensures Scan(es).Ok? ==> Facts(es, Scan(es).value)
    decreases |es|
  {
    hide ScanOne, Bad, IdFact, FlagFact, Names, ParsesTo, Says;
    if es == [] {
      EmptyFacts();
    } else {
      var before, e := es[..|es| - 1], es[|es| - 1];
      assert es == before + [e];
      ScanFacts(before);
      if Scan(before).Ok? {
        var f := Scan(before).value;
        ScanOneFacts(f, e);
        if ScanOne(f, e).Ok? {
          var g := ScanOne(f, e).value;
          IdFactAppend(before, e, TRACE_LC, f.traceId, g.traceId);
          IdFactAppend(before, e, SPAN_LC, f.spanId, g.spanId);
          IdFactAppend(before, e, PARENT_LC, f.parentId, g.parentId);
          FlagFactAppend(before, e, SAMPLED_LC, f.sampled);
          FlagFactAppend(before, e, FLAGS_LC, f.debug);
        }
      }
    }
  }

  lemma EmptyFacts()
    ensures Facts([], NOTHING)
  {
  }

  /** Header names are distinct ignoring case. */
  predicate DistinctNames(es: Headers) {
    forall i, j :: 0 <= i < j < |es| ==> LowerAll(es[i].key) != LowerAll(es[j].key)
  }

  lemma SameId(es: Headers, fs: Headers, name: string, n: Option<int>, m: Option<int>)
    requires DistinctNames(es) && (forall e :: e in es <==> e in fs) && IdFact(es, name, n) && IdFact(fs, name, m)
    ensures n == m
  {
    hide ParseInt, LowerAll;
    if n.Some? {
      var i :| 0 <= i < |es| && LastId(es, name, i, n.value);
      assert es[i] in fs;
      if m.Some? {
        var k :| 0 <= k < |fs| && LastId(fs, name, k, m.value);
        assert fs[k] in es;
        var j :| 0 <= j < |es| && es[j] == fs[k];
        assert i == j;
      }
    }
  }

  /** Extraction does not depend on the order of the headers: it succeeds in every order or in none, with the
      same context. */
  lemma OrderIrrelevant(es: Headers, fs: Headers)
    requires DistinctNames(es) && multiset(es) == multiset(fs)
    ensures Extracted(es).Ok? == Extracted(fs).Ok?
    ensures Extracted(es).Ok? ==> Extracted(es) == Extracted(fs)
  {
    hide Scan, Bad, IdFact, FlagFact, DistinctNames;
    forall e: Header ensures e in es <==> e in fs {
      assert e in es <==> e in multiset(es);
      assert e in fs <==> e in multiset(fs);
    }
    ScanFacts(es);
    ScanFacts(fs);
    if Scan(es).Ok? {
      var f, g := Scan(es).value, Scan(fs).value;
      SameId(es, fs, TRACE_LC, f.traceId, g.traceId);
      SameId(es, fs, SPAN_LC, f.spanId, g.spanId);
      SameId(es, fs, PARENT_LC, f.parentId, g.parentId);
      SameFlag(es, fs, SAMPLED_LC, f.sampled, g.sampled);
      SameFlag(es, fs, FLAGS_LC, f.debug, g.debug);
      assert f == g;
    }
  }

  lemma SameFlag(es: Headers, fs: Headers, name: string, b: bool, c: bool)
    requires (forall e :: e in es <==> e in fs) && FlagFact(es, name, b) && FlagFact(fs, name, c)
    ensures b == c
  {
  }


  // -------------------------------------------------------------- in plain headers

  /** The context of these numbers and flags; none when the trace id or the span id is missing or zero. */
  function ContextOf(traceId: Option<int>, spanId: Option<int>, parentId: Option<int>, sampled: bool, debug: bool)
    : Option<SpanContext>
  {
    if traceId.None? || traceId.value == 0 || spanId.None? || spanId.value == 0 then None
    else
      var flags := if sampled && debug then 3 else if debug then 2 else if sampled then 1 else 0;
      Some(SpanContext(traceId, spanId, if parentId == Some(0) then None else parentId, Some(flags), [], None))
  }

  lemma Concluded(f: Found)
    ensures Conclude(f) == ContextOf(f.traceId, f.spanId, f.parentId, f.sampled, f.debug)
  {
  }

  /** For any headers: extract raises exactly when an id header has no hexadecimal number; else the context is made of
      the numbers under the three names and of the two flag headers, which count when they say 1. */
  lemma ExtractFacts(es: Headers) returns (f: Found)
    ensures Extracted(es).Err? <==> exists e :: e in es && Bad(e)
    ensures Extracted(es).Ok? ==>
              Facts(es, f) && Extracted(es) == Ok(ContextOf(f.traceId, f.spanId, f.parentId, f.sampled, f.debug))
  {
    ScanFacts(es);
    hide Scan, Bad, Facts, Conclude, ContextOf;
    f := NOTHING;
    if Scan(es).Ok? {
      f := Scan(es).value;
      Concluded(f);
    }
  }

  /** What inject writes under each header; None when it leaves the header as it was. */
  function Sent(wide: bool, ctx: SpanContext, key: string): Option<string>
    requires ctx.traceId.Some? && ctx.spanId.Some? && ctx.flags.Some?
  {
    if key == "X-B3-TraceId" then Some(PaddedHex(ctx.traceId.value, if wide then 32 else 16))
    else if key == "X-B3-SpanId" then Some(PaddedHex(ctx.spanId.value, 16))
    else if key == "X-B3-ParentSpanId" && ctx.parentId.Some? then Some(PaddedHex(ctx.parentId.value, 16))
    else if key == "X-B3-Flags" && ctx.flags.value % 4 >= 2 then Some("1")
    else if key == "X-B3-Sampled" && ctx.flags.value % 4 == 1 then Some("1")
    else None
  }

  /** Into any carrier: a context with ids and flags writes exactly those headers. */
  lemma InjectFacts(wide: bool, ctx: SpanContext, carrier: Headers, key: string)
    requires ctx.traceId.Some? && ctx.spanId.Some? && ctx.flags.Some?
    ensures Get(Injected(wide, ctx, carrier), key) ==
            if Sent(wide, ctx, key).Some? then Some(Some(Str(Sent(wide, ctx, key).value))) else Get(carrier, key)
  {
    hide Get, Put, PaddedHex;
    NamesDiffer();
    var t := Hexed(ctx.traceId.value, if wide then 32 else 16);
    var c1 := Put(carrier, TRACE_HEADER, t);
    GetPut(carrier, TRACE_HEADER, t, key);
    var c2 := Put(c1, SPAN_HEADER, Hexed(ctx.spanId.value, 16));
    GetPut(c1, SPAN_HEADER, Hexed(ctx.spanId.value, 16), key);
    var c3 := c2;
    if ctx.parentId.Some? {
      c3 := Put(c2, PARENT_SPAN_HEADER, Hexed(ctx.parentId.value, 16));
      GetPut(c2, PARENT_SPAN_HEADER, Hexed(ctx.parentId.value, 16), key);
    }
    GetPut(c3, FLAGS_HEADER, Some(Str("1")), key);
    GetPut(c3, SAMPLED_HEADER, Some(Str("1")), key);
  }
}
