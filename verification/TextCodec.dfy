/** Contexts in string dictionaries: HTTP headers (url-encoded) and text maps. */
module TextCodec {
  import opened Prelude
  import opened Hex
  import opened Percent
  import opened Dict
  import opened ContextString
  import opened SpanContexts

  type Headers = seq<Entry<string, HeaderValue>>

  datatype Codec = Codec(
    urlEncoding: bool, traceIdHeader: string, baggagePrefix: string, debugIdHeader: string, baggageHeader: string)

  datatype Error = Corrupt(reason: Corrupted) | NotText | NoTrace

  // -------------------------------------------------------------- construction

  function Dashed(s: string): (r: string)
    ensures |r| == |s|
  {
    seq(|s|, i requires 0 <= i < |s| => if s[i] == '_' then '-' else s[i])
  }

  function Normal(s: string): string {
    Dashed(LowerAll(s))
  }

  /** The baggage header is the one name that is not normalised. */
  function MakeCodec(urlEncoding: bool, traceIdHeader: string, baggagePrefix: string, debugIdHeader: string,
                     baggageHeader: string): Codec
  {
    Codec(urlEncoding, Normal(traceIdHeader), Normal(baggagePrefix), Normal(debugIdHeader), baggageHeader)
  }

  /** The names a codec compares lower-cased keys with. */
  predicate WellMade(c: Codec) {
    LowerAll(c.traceIdHeader) == c.traceIdHeader && LowerAll(c.baggagePrefix) == c.baggagePrefix
  }

  lemma LowerIdempotent(s: string)
    ensures LowerAll(LowerAll(s)) == LowerAll(s)
  {
  }

  lemma MadeWell(url: bool, t: string, p: string, d: string, b: string)
    ensures WellMade(MakeCodec(url, t, p, d, b))
  {
  }

  // ----------------------------------------------------------------- injection

  function Encode(c: Codec, v: HeaderValue): Option<HeaderValue> {
    if !c.urlEncoding then Some(v) else if v.Str? then Some(Str(Quote(v.s))) else None
  }

  /** The headers one baggage item after the other, up to the first value that cannot be quoted. */
  function BaggageHeaders(c: Codec, baggage: Baggage): (es: Headers)
    ensures |es| <= |baggage|
    ensures forall i :: 0 <= i < |es| ==>
              es[i].key == c.baggagePrefix + baggage[i].key && Encode(c, baggage[i].value) == Some(es[i].value)
    ensures |es| < |baggage| ==> Encode(c, baggage[|es|].value).None?
  {
    if baggage == [] || Encode(c, baggage[0].value).None? then []
    else [Entry(c.baggagePrefix + baggage[0].key, Encode(c, baggage[0].value).value)] + BaggageHeaders(c, baggage[1..])
  }

  function IdsOf(ctx: SpanContext): Option<Ids> {
    if ctx.traceId.None? || ctx.spanId.None? || ctx.flags.None? then None
    else Some(Ids(ctx.traceId.value, ctx.spanId.value, ctx.parentId, ctx.flags.value))
  }

  /** The carrier after inject. */
  function Injected(c: Codec, ctx: SpanContext, carrier: Headers): Headers {
    if IdsOf(ctx).None? then carrier
    else PutAll(Put(carrier, c.traceIdHeader, Str(ToText(IdsOf(ctx).value))), BaggageHeaders(c, ctx.baggage))
  }

  /** The exception inject ends with, if any. */
  function InjectError(c: Codec, ctx: SpanContext): Option<Error> {
    if IdsOf(ctx).None? then Some(NoTrace)
    else if |BaggageHeaders(c, ctx.baggage)| < |ctx.baggage| then Some(NotText)
    else None
  }

  // ---------------------------------------------------------------- extraction

  /** The locals of extract; baggage is None until the first item. */
  datatype Found = Found(ids: Option<Ids>, baggage: Option<Baggage>, debugId: Option<HeaderValue>)

  const NOTHING: Found := Found(None, None, None)

  function Decode(c: Codec, v: HeaderValue): Option<HeaderValue> {
    if !c.urlEncoding then Some(v) else if v.Str? then Some(Str(Unquote(v.s))) else None
  }

  predicate StartsWith(s: string, prefix: string) {
    |s| >= |prefix| && s[..|prefix|] == prefix
  }

  function Items0(b: Option<Baggage>): Baggage {
    if b.None? then [] else b.value
  }

  /** k1=v1,k2=v2 added to the baggage found so far; parts that are not one pair are ignored. */
  function ParseBaggageHeader(parts: seq<string>, baggage: Option<Baggage>): Option<Baggage>
    decreases |parts|
  {
    if parts == [] then baggage
    else
      var kv := Split(TrimRight(TrimLeft(parts[0])), '=');
      ParseBaggageHeader(parts[1..],
                         if |kv| == 2 then Some(Put(Items0(baggage), kv[0], Str(kv[1]))) else baggage)
  }

  /** One header of the loop. */
  function ScanOne(c: Codec, f: Found, e: Entry<string, HeaderValue>): Result<Found, Error> {
    var key := LowerAll(e.key);
    var v := Decode(c, e.value);
    if key == c.traceIdHeader then
      if v.None? then Err(NotText)
      else
        (match FromHeader(v.value)
         case Err(why) => Err(Corrupt(why))
         case Ok(ids) => Ok(f.(ids := Some(ids))))
    else if StartsWith(key, c.baggagePrefix) then
      if v.None? then Err(NotText)
      else Ok(f.(baggage := Some(Put(Items0(f.baggage), LowerAll(e.key[|c.baggagePrefix|..]), v.value))))
    else if key == c.debugIdHeader then
      if v.None? then Err(NotText) else Ok(f.(debugId := v))
    else if key == c.baggageHeader then
      if v.None? || !v.value.Str? then Err(NotText)
      else Ok(f.(baggage := ParseBaggageHeader(Split(v.value.s, ','), f.baggage)))
    else Ok(f)
  }

  /** The headers from left to right, up to the first exception. */
  function Scan(c: Codec, es: Headers): Result<Found, Error>
    decreases |es|
  {
    if es == [] then Ok(NOTHING)
    else
      match Scan(c, es[..|es| - 1])
      case Err(e) => Err(e)
      case Ok(f) => ScanOne(c, f, es[|es| - 1])
  }

  /** After the loop: no trace, no debug id and no baggage is no context. */
  function Conclude(f: Found): Option<SpanContext> {
    var ids := f.ids.Some? && f.ids.value.traceId != 0 && f.ids.value.spanId != 0;
    if !ids && !TruthyText(f.debugId) && Items0(f.baggage) == [] then None
    else if ids then
      Some(Make(Some(f.ids.value.traceId), Some(f.ids.value.spanId), f.ids.value.parentId, Some(f.ids.value.flags),
                Items0(f.baggage), f.debugId))
    else Some(Make(None, None, None, None, Items0(f.baggage), f.debugId))
  }

  function Extracted(c: Codec, es: Headers): Result<Option<SpanContext>, Error> {
    match Scan(c, es)
    case Err(e) => Err(e)
    case Ok(f) => Ok(Conclude(f))
  }

  lemma {:induction false} ScanStops(c: Codec, es: Headers, n: nat)
    requires n <= |es| && Scan(c, es[..n]).Err?
    ensures Scan(c, es) == Scan(c, es[..n])
    decreases |es|
  {
    if n == |es| {
      assert es[..n] == es;
    } else {
      assert es[..|es| - 1][..n] == es[..n];
      ScanStops(c, es[..|es| - 1], n);
    }
  }

  class Carrier {
    var entries: Headers

    constructor (es: Headers)
      ensures entries == es
    {
      entries := es;
    }

    method Set(key: string, value: HeaderValue)
      modifies this
      ensures entries == Put(old(entries), key, value)
    {
      entries := Put(entries, key, value);
    }

    method Inject(c: Codec, ctx: SpanContext) returns (error: Option<Error>)
      modifies this
      ensures entries == Injected(c, ctx, old(entries)) && error == InjectError(c, ctx)
    {
      hide ToText, Put, Encode;
      var ids := IdsOf(ctx);
      if ids.None? { return Some(NoTrace); }
      Set(c.traceIdHeader, Str(ToText(ids.value)));
      ghost var es := BaggageHeaders(c, ctx.baggage);
      ghost var start := entries;
      for i := 0 to |ctx.baggage|
        invariant i <= |es| && entries == PutAll(start, es[..i])
      {
        var e := ctx.baggage[i];
        var v := Encode(c, e.value);
        if v.None? {
          assert i == |es| && es[..i] == es;
          return Some(NotText);
        }
        Set(c.baggagePrefix + e.key, v.value);
        assert es[..i + 1][..i] == es[..i] && es[..i + 1][i] == es[i];
      }
      assert es[..|es|] == es;
      error := None;
    }

    method Extract(c: Codec) returns (r: Result<Option<SpanContext>, Error>)
      ensures r == Extracted(c, entries)
    {
      var found := NOTHING;
      for i := 0 to |entries|
        invariant Scan(c, entries[..i]) == Ok(found)
      {
        var step := ScanOne(c, found, entries[i]);
        assert entries[..i + 1][..i] == entries[..i];
        if step.Err? {
          ScanStops(c, entries, i + 1);
          return Err(step.error);
        }
        found := step.value;
      }
      assert entries[..|entries|] == entries;
      r := Ok(Conclude(found));
    }
  }
}
