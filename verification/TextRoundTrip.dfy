/** What a text map or HTTP header codec preserves, for every context and every choice of header names. */
module TextRoundTrip {
  import opened Prelude
  import opened Hex
  import opened Percent
  import opened Dict
  import opened ContextString
  import opened SpanContexts
  import opened TextCodec

  /** Baggage values the codec can carry: any for a text map, byte strings for HTTP headers. */
  predicate Encodable(c: Codec, baggage: Baggage) {
    c.urlEncoding ==> forall i :: 0 <= i < |baggage| ==> baggage[i].value.Str? && IsBytes(baggage[i].value.s)
  }

  /** The item's header reads as the trace header. */
  predicate Collides(c: Codec, key: string) {
    c.baggagePrefix + LowerAll(key) == c.traceIdHeader
  }

  function LowerKeys(b: Baggage): (r: Baggage)
    ensures |r| == |b|
  {
    seq(|b|, i requires 0 <= i < |b| => Entry(LowerAll(b[i].key), b[i].value))
  }

  function Restored(ctx: SpanContext): SpanContext {
    ctx.(baggage := PutAll([], LowerKeys(ctx.baggage)), debugId := None)
  }

  // ------------------------------------------------------------ header by header

  lemma HexHasNoPercent(n: int)
    ensures '%' !in IntToHex(n)
  {
    hide ToHex;
    var s := ToHex(if n < 0 then -n else n);
    assert forall c :: c in s ==> c != '%';
  }

  lemma TextHasNoPercent(ids: Ids)
    ensures '%' !in ToText(ids)
  {
    hide IntToHex;
    HexHasNoPercent(ids.traceId);
    HexHasNoPercent(ids.spanId);
    HexHasNoPercent(OrZero(ids.parentId));
    HexHasNoPercent(ids.flags);
  }

  lemma ScanTrace(c: Codec, ids: Ids)
    requires WellMade(c) && Valid(ids)
    ensures ScanOne(c, NOTHING, Entry(c.traceIdHeader, Str(ToText(ids)))) == Ok(Found(Some(ids), None, None))
  {
    hide ToText, FromHeader;
    TextHasNoPercent(ids);
    NothingToUnquote(ToText(ids));
    SingletonHeader(ids);
  }

  lemma LowerConcat(a: string, b: string)
    ensures LowerAll(a + b) == LowerAll(a) + LowerAll(b)
  {
  }

  lemma ScanItem(c: Codec, f: Found, key: string, value: HeaderValue)
    requires WellMade(c) && !Collides(c, key) && (c.urlEncoding ==> value.Str? && IsBytes(value.s))
    ensures Encode(c, value).Some?
    ensures ScanOne(c, f, Entry(c.baggagePrefix + key, Encode(c, value).value))
            == Ok(f.(baggage := Some(Put(Items0(f.baggage), LowerAll(key), value))))
  {
    hide Quote, Unquote, Put;
    LowerConcat(c.baggagePrefix, key);
    assert (c.baggagePrefix + key)[|c.baggagePrefix|..] == key;
    assert (c.baggagePrefix + LowerAll(key))[..|c.baggagePrefix|] == c.baggagePrefix;
    if c.urlEncoding { UnquoteQuote(value.s); }
  }

  lemma EncodableAll(c: Codec, b: Baggage)
    requires Encodable(c, b)
    ensures |BaggageHeaders(c, b)| == |b|
  {
  }

  /** hs are the headers of b's items. */
  ghost predicate HeadersOf(c: Codec, b: Baggage, hs: Headers) {
    && |hs| == |b|
    && forall i :: 0 <= i < |b| ==>
         && Encode(c, b[i].value).Some?
         && hs[i] == Entry(c.baggagePrefix + b[i].key, Encode(c, b[i].value).value)
  }

  ghost predicate NoneCollides(c: Codec, b: Baggage) {
    forall i :: 0 <= i < |b| ==> !Collides(c, b[i].key)
  }

  lemma {:induction false} ScanItems(c: Codec, ids: Ids, b: Baggage, hs: Headers)
    requires WellMade(c) && Valid(ids) && Encodable(c, b) && NoneCollides(c, b) && HeadersOf(c, b, hs)
    ensures Scan(c, [Entry(c.traceIdHeader, Str(ToText(ids)))] + hs)
            == Ok(Found(Some(ids), if b == [] then None else Some(PutAll([], LowerKeys(b))), None))
    decreases |b|
  {
    SameLength(c, b, hs);
    hide ToText, ScanOne, Encode, Put, PutAll, Scan, Encodable, HeadersOf, NoneCollides, Collides, WellMade, Valid,
      LowerKeys, LowerAll;
    var trace := Entry(c.traceIdHeader, Str(ToText(ids)));
    if b == [] {
      assert [trace] + hs == [trace];
      ScanOnlyTrace(c, ids);
    } else {
      var m := |b| - 1;
      LastItem(c, b, hs);
      ScanItems(c, ids, b[..m], hs[..m]);
      ScanLastItem(c, ids, trace, b, hs);
    }
  }

  lemma ScanLastItem(c: Codec, ids: Ids, trace: Entry<string, HeaderValue>, b: Baggage, hs: Headers)
    requires WellMade(c) && Encodable(c, b) && NoneCollides(c, b) && HeadersOf(c, b, hs) && b != [] && |hs| == |b|
    requires Scan(c, [trace] + hs[..|b| - 1]) ==
             Ok(Found(Some(ids), if b[..|b| - 1] == [] then None else Some(PutAll([], LowerKeys(b[..|b| - 1]))), None))
    ensures Scan(c, [trace] + hs) == Ok(Found(Some(ids), Some(PutAll([], LowerKeys(b))), None))
  {
    var m := |b| - 1;
    LastItem(c, b, hs);
    NoAssignments([]);
    hide ScanOne, Encode, Put, PutAll, Scan, Encodable, HeadersOf, NoneCollides, Collides, WellMade, LowerKeys,
      LowerAll;
    ScanNext(c, [trace] + hs[..m], b[m].key, b[m].value);
    LastApart([trace], hs);
    PutAllAppend([], LowerKeys(b[..m]), Entry(LowerAll(b[m].key), b[m].value));
  }

  lemma LastApart(es: Headers, hs: Headers)
    requires hs != []
    ensures es + hs == (es + hs[..|hs| - 1]) + [hs[|hs| - 1]]
  {
  }

  lemma SameLength(c: Codec, b: Baggage, hs: Headers)
    requires HeadersOf(c, b, hs)
    ensures |hs| == |b|
  {
  }

  lemma ScanOnlyTrace(c: Codec, ids: Ids)
    requires WellMade(c) && Valid(ids)
    ensures Scan(c, [Entry(c.traceIdHeader, Str(ToText(ids)))]) == Ok(Found(Some(ids), None, None))
  {
    ScanTrace(c, ids);
    hide ScanOne, ToText;
    var trace := Entry(c.traceIdHeader, Str(ToText(ids)));
    assert [trace][..0] == [];
  }

  lemma LastItem(c: Codec, b: Baggage, hs: Headers)
    requires Encodable(c, b) && NoneCollides(c, b) && HeadersOf(c, b, hs) && b != []
    ensures var m := |b| - 1;
            && Encodable(c, b[..m]) && NoneCollides(c, b[..m]) && |hs| == |b| && HeadersOf(c, b[..m], hs[..m])
            && (c.urlEncoding ==> b[m].value.Str? && IsBytes(b[m].value.s)) && !Collides(c, b[m].key)
            && Encode(c, b[m].value).Some?
            && hs[m] == Entry(c.baggagePrefix + b[m].key, Encode(c, b[m].value).value)
            && (b[..m] == [] ==> LowerKeys(b[..m]) == [])
            && LowerKeys(b) == LowerKeys(b[..m]) + [Entry(LowerAll(b[m].key), b[m].value)]
  {
    hide Encode, Collides, IsBytes, LowerAll;
  }

  /** One more item of one's own: it joins the baggage under its lower-case key. */
  lemma ScanNext(c: Codec, es: Headers, key: string, value: HeaderValue)
    requires WellMade(c) && !Collides(c, key) && (c.urlEncoding ==> value.Str? && IsBytes(value.s))
    requires Scan(c, es).Ok?
    ensures Encode(c, value).Some?
    ensures var f := Scan(c, es).value;
            Scan(c, es + [Entry(c.baggagePrefix + key, Encode(c, value).value)])
            == Ok(f.(baggage := Some(Put(Items0(f.baggage), LowerAll(key), value))))
  {
    ScanItem(c, Scan(c, es).value, key, value);
    hide Scan, ScanOne, Encode, Put;
    ScanAppend(c, es, Entry(c.baggagePrefix + key, Encode(c, value).value));
  }

  lemma ScanAppend(c: Codec, es: Headers, e: Entry<string, HeaderValue>)
    requires Scan(c, es).Ok?
    ensures Scan(c, es + [e]) == ScanOne(c, Scan(c, es).value, e)
  {
    assert (es + [e])[..|es|] == es;
  }

  lemma PutAllAppend(d: Baggage, es: Baggage, e: Entry<string, HeaderValue>)
    ensures PutAll(d, es + [e]) == Put(PutAll(d, es), e.key, e.value)
  {
    assert (es + [e])[..|es|] == es;
  }

  lemma InjectedFresh(c: Codec, ctx: SpanContext)
    requires WellMade(c) && IdsOf(ctx).Some? && DistinctKeys(ctx.baggage)
    requires forall i :: 0 <= i < |ctx.baggage| ==> !Collides(c, ctx.baggage[i].key)
    ensures Injected(c, ctx, []) ==
            [Entry(c.traceIdHeader, Str(ToText(IdsOf(ctx).value)))] + BaggageHeaders(c, ctx.baggage)
  {
    hide ToText, BaggageHeaders, Encode, PutAll;
    var trace := Entry(c.traceIdHeader, Str(ToText(IdsOf(ctx).value)));
    var es := BaggageHeaders(c, ctx.baggage);
    var p := |c.baggagePrefix|;
    forall i | 0 <= i < |es| ensures es[i].key != c.traceIdHeader {
      LowerConcat(c.baggagePrefix, ctx.baggage[i].key);
    }
    forall i, j | 0 <= i < j < |es| ensures es[i].key != es[j].key {
      assert es[i].key[p..] == ctx.baggage[i].key && es[j].key[p..] == ctx.baggage[j].key;
    }
    assert DistinctKeys([trace] + es);
    PutAllDistinct([trace], es);
  }

  // --------------------------------------------- what extraction can come up with

  /** Ids are valid; no item is one that would read as the trace header, and all have lower-case keys. */
  predicate FoundOk(c: Codec, f: Found) {
    && (f.ids.Some? ==> Valid(f.ids.value))
    && forall e :: e in Items0(f.baggage) ==> c.baggagePrefix + e.key != c.traceIdHeader && LowerAll(e.key) == e.key
  }

  /** Headers as inject makes them. */
  predicate OwnHeader(c: Codec, key: string) {
    LowerAll(key) == c.traceIdHeader || StartsWith(LowerAll(key), c.baggagePrefix)
  }

  lemma ScanOneOk(c: Codec, f: Found, e: Entry<string, HeaderValue>)
    requires FoundOk(c, f) && OwnHeader(c, e.key) && ScanOne(c, f, e).Ok?
    ensures FoundOk(c, ScanOne(c, f, e).value)
  {
    hide FromHeader, Put, Decode;
    var p := |c.baggagePrefix|;
    if LowerAll(e.key) == c.traceIdHeader {
      ParsedIsValid(Decode(c, e.value).value);
    } else {
      var key, v := LowerAll(e.key[p..]), Decode(c, e.value).value;
      assert LowerAll(e.key)[p..] == key;
      assert c.baggagePrefix + key == LowerAll(e.key);
      PutKeys(Items0(f.baggage), key, v);
      LowerIdempotent(e.key[p..]);
    }
  }

  lemma {:induction false} ScanOk(c: Codec, es: Headers)
    requires forall e :: e in es ==> OwnHeader(c, e.key)
    requires Scan(c, es).Ok?
    ensures FoundOk(c, Scan(c, es).value)
    decreases |es|
  {
    hide ScanOne, FoundOk, OwnHeader;
    if es == [] {
      NothingOk(c);
    } else {
      var n := |es| - 1;
      assert es[n] in es;
      ScanOk(c, es[..n]);
      ScanOneOk(c, Scan(c, es[..n]).value, es[n]);
    }
  }

  lemma NothingOk(c: Codec)
    ensures FoundOk(c, NOTHING)
  {
  }

  lemma {:induction false} PutAllKeys(d: Headers, es: Headers, e: Entry<string, HeaderValue>)
    requires e in PutAll(d, es)
    ensures (exists x :: x in d && x.key == e.key) || exists x :: x in es && x.key == e.key
  {
    hide Put;
    if es != [] {
      var n := |es| - 1;
      var d1 := PutAll(d, es[..n]);
      PutKeys(d1, es[n].key, es[n].value);
      if e in d1 {
        PutAllKeys(d, es[..n], e);
      } else {
        assert e.key == es[n].key && es[n] in es;
      }
    }
  }

  lemma InjectedHeaders(c: Codec, ctx: SpanContext)
    requires WellMade(c)
    ensures forall e :: e in Injected(c, ctx, []) ==> OwnHeader(c, e.key)
  {
    hide ToText, Encode, BaggageHeaders, PutAll;
    if IdsOf(ctx).Some? {
      var d: Headers := [Entry(c.traceIdHeader, Str(ToText(IdsOf(ctx).value)))];
      var es := BaggageHeaders(c, ctx.baggage);
      forall e | e in PutAll(d, es) ensures OwnHeader(c, e.key) {
        PutAllKeys(d, es, e);
        if x :| x in es && x.key == e.key {
          var i :| 0 <= i < |es| && es[i] == x;
          LowerConcat(c.baggagePrefix, ctx.baggage[i].key);
          assert LowerAll(e.key)[..|c.baggagePrefix|] == c.baggagePrefix;
        }
      }
    }
  }

  // ---------------------------------------------------------------- the theorems

  lemma ValidIsRestored(c: Codec, ctx: SpanContext)
    requires WellMade(c) && IdsOf(ctx).Some? && DistinctKeys(ctx.baggage) && Encodable(c, ctx.baggage)
    requires Valid(IdsOf(ctx).value) && NoneCollides(c, ctx.baggage)
    ensures Extracted(c, Injected(c, ctx, [])) == Ok(Some(Restored(ctx)))
  {
    hide Injected, BaggageHeaders, ScanOne, Scan, ToText, PutAll, IsBytes, Encode, Collides;
    var ids, b := IdsOf(ctx).value, ctx.baggage;
    EncodableAll(c, b);
    InjectedFresh(c, ctx);
    ScanItems(c, ids, b, BaggageHeaders(c, b));
    if b == [] { NoAssignments(LowerKeys(b)); }
  }

  /** Whatever extract makes of injected headers has valid ids and no item that would read as the trace header. */
  lemma RestoredIsValid(c: Codec, ctx: SpanContext)
    requires WellMade(c) && IdsOf(ctx).Some?
    requires Extracted(c, Injected(c, ctx, [])) == Ok(Some(Restored(ctx)))
    ensures Valid(IdsOf(ctx).value) && NoneCollides(c, ctx.baggage)
  {
    hide Injected, ScanOne, Scan, PutAll, OwnHeader;
    var b, r := ctx.baggage, Restored(ctx).baggage;
    InjectedHeaders(c, ctx);
    ScanOk(c, Injected(c, ctx, []));
    forall i | 0 <= i < |b| ensures !Collides(c, b[i].key) {
      PutAllHas([], LowerKeys(b), i);
      GetNone(r, LowerAll(b[i].key));
    }
  }

  /** Extract after inject into an empty carrier restores the ids, the flags and the baggage with lower-case keys
      exactly when the ids are valid and no item's header reads as the trace header. */
  lemma TextRoundTripIff(c: Codec, ctx: SpanContext)
    requires WellMade(c) && IdsOf(ctx).Some? && DistinctKeys(ctx.baggage) && Encodable(c, ctx.baggage)
    ensures Extracted(c, Injected(c, ctx, [])) == Ok(Some(Restored(ctx))) <==>
            Valid(IdsOf(ctx).value) && forall i :: 0 <= i < |ctx.baggage| ==> !Collides(c, ctx.baggage[i].key)
  {
    hide Injected, Extracted, WellMade, Encodable, Collides, DistinctKeys;
    if Extracted(c, Injected(c, ctx, [])) == Ok(Some(Restored(ctx))) {
      RestoredIsValid(c, ctx);
    } else if Valid(IdsOf(ctx).value) && NoneCollides(c, ctx.baggage) {
      ValidIsRestored(c, ctx);
    }
  }

  lemma NoAssignments(es: Baggage)
    requires es == []
    ensures PutAll([], es) == []
  {
  }

  /** It restores the very context (but for its debug id) exactly when, besides, the keys are in lower case. */
  lemma TextExactRoundTripIff(c: Codec, ctx: SpanContext)
    requires WellMade(c) && IdsOf(ctx).Some? && DistinctKeys(ctx.baggage) && Encodable(c, ctx.baggage)
    ensures Extracted(c, Injected(c, ctx, [])) == Ok(Some(ctx.(debugId := None))) <==>
            Valid(IdsOf(ctx).value) &&
            forall i :: 0 <= i < |ctx.baggage| ==>
              !Collides(c, ctx.baggage[i].key) && LowerAll(ctx.baggage[i].key) == ctx.baggage[i].key
  {
    hide Injected, Scan, ToText, PutAll, IsBytes, LowerAll;
    var b := ctx.baggage;
    TextRoundTripIff(c, ctx);
    if forall i :: 0 <= i < |b| ==> LowerAll(b[i].key) == b[i].key {
      assert LowerKeys(b) == b;
      assert [] + b == b;
      PutAllDistinct([], b);
    } else if Extracted(c, Injected(c, ctx, [])) == Ok(Some(ctx.(debugId := None))) {
      InjectedHeaders(c, ctx);
      ScanOk(c, Injected(c, ctx, []));
      assert false;
    }
  }

  /** With a trace header that does not start with the baggage prefix, as the default names, no item collides. */
  lemma NoPrefixNoCollision(c: Codec, key: string)
    requires !StartsWith(c.traceIdHeader, c.baggagePrefix)
    ensures !Collides(c, key)
  {
  }

  const TRACE_ID_HEADER := "uber-trace-id"
  const BAGGAGE_HEADER_PREFIX := "uberctx-"
  const DEBUG_ID_HEADER_KEY := "jaeger-debug-id"
  const BAGGAGE_HEADER_KEY := "jaeger-baggage"

  lemma DefaultRoundTrip(url: bool, ctx: SpanContext)
    requires IdsOf(ctx).Some? && Valid(IdsOf(ctx).value) && DistinctKeys(ctx.baggage)
    requires url ==> forall i :: 0 <= i < |ctx.baggage| ==>
                       ctx.baggage[i].value.Str? && IsBytes(ctx.baggage[i].value.s)
    ensures var c := MakeCodec(url, TRACE_ID_HEADER, BAGGAGE_HEADER_PREFIX, DEBUG_ID_HEADER_KEY, BAGGAGE_HEADER_KEY);
            Extracted(c, Injected(c, ctx, [])) == Ok(Some(Restored(ctx)))
  {
    hide Injected, Extracted, IsBytes;
    var c := MakeCodec(url, TRACE_ID_HEADER, BAGGAGE_HEADER_PREFIX, DEBUG_ID_HEADER_KEY, BAGGAGE_HEADER_KEY);
    MadeWell(url, TRACE_ID_HEADER, BAGGAGE_HEADER_PREFIX, DEBUG_ID_HEADER_KEY, BAGGAGE_HEADER_KEY);
    assert c.traceIdHeader == "uber-trace-id" && c.baggagePrefix == "uberctx-";
    assert c.traceIdHeader[4] != c.baggagePrefix[4] && |c.baggagePrefix| == 8;
    assert c.traceIdHeader[..8][4] == c.traceIdHeader[4];
    forall i | 0 <= i < |ctx.baggage| ensures !Collides(c, ctx.baggage[i].key) {
      NoPrefixNoCollision(c, ctx.baggage[i].key);
    }
    TextRoundTripIff(c, ctx);
  }

  /** A configuration that fails: with this trace header and the default prefix, an item named id overwrites the trace
      header, and extraction raises. */
  lemma CollidingItemFails(ids: Ids)
    ensures var c := MakeCodec(false, "uberctx-id", BAGGAGE_HEADER_PREFIX, DEBUG_ID_HEADER_KEY, BAGGAGE_HEADER_KEY);
            var ctx := Make(Some(ids.traceId), Some(ids.spanId), ids.parentId, Some(ids.flags),
                            [Entry("id", Str("x"))], None);
            && InjectError(c, ctx) == None
            && Injected(c, ctx, []) == [Entry("uberctx-id", Str("x"))]
            && Extracted(c, Injected(c, ctx, [])) == Err(Corrupt(NotFourParts))
  {
    hide ToText;
    var c := MakeCodec(false, "uberctx-id", BAGGAGE_HEADER_PREFIX, DEBUG_ID_HEADER_KEY, BAGGAGE_HEADER_KEY);
    var ctx := Make(Some(ids.traceId), Some(ids.spanId), ids.parentId, Some(ids.flags), [Entry("id", Str("x"))], None);
    var e := Entry("uberctx-id", Str("x"));
    assert c.traceIdHeader == "uberctx-id" && c.baggagePrefix + "id" == "uberctx-id";
    assert BaggageHeaders(c, ctx.baggage) == [e];
    var trace := Str(ToText(IdsOf(ctx).value));
    assert Put([], c.traceIdHeader, trace) == [Entry("uberctx-id", trace)];
    assert [e][..0] == [];
    assert PutAll([Entry("uberctx-id", trace)], [e]) == Put([Entry("uberctx-id", trace)], "uberctx-id", Str("x"));
    SplitLast("x", ':');
    assert InjectError(c, ctx) == None;
    assert Injected(c, ctx, []) == [e];
    assert ScanOne(c, NOTHING, e) == Err(Corrupt(NotFourParts));
    assert Scan(c, [e]) == Err(Corrupt(NotFourParts));
  }

  /** Headers of other names are left alone. */
  lemma InjectKeepsOthers(c: Codec, ctx: SpanContext, carrier: Headers, key: string)
    requires key != c.traceIdHeader && !StartsWith(key, c.baggagePrefix)
    ensures Get(Injected(c, ctx, carrier), key) == Get(carrier, key)
  {
    hide ToText, BaggageHeaders, Encode, PutAll, Put, Get;
    if IdsOf(ctx).Some? {
      var es := BaggageHeaders(c, ctx.baggage);
      var trace := Str(ToText(IdsOf(ctx).value));
      forall i | 0 <= i < |es| ensures es[i].key != key {
        assert (c.baggagePrefix + ctx.baggage[i].key)[..|c.baggagePrefix|] == c.baggagePrefix;
      }
      PutAllOther(Put(carrier, c.traceIdHeader, trace), es, key);
      GetPut(carrier, c.traceIdHeader, trace, key);
    }
  }
}
