/** What extract makes of any headers at all, whoever wrote them: when it raises, and where each part of the context
    comes from. Also what inject leaves in a carrier that was not empty. */
module TextFacts {
  import opened Prelude
  import opened Hex
  import opened Percent
  import opened Dict
  import opened ContextString
  import opened SpanContexts
  import opened TextCodec

  type Header = Entry<string, HeaderValue>

  // ----------------------------------------------------------- the four kinds

  predicate IsTrace(c: Codec, e: Header) {
    LowerAll(e.key) == c.traceIdHeader
  }

  predicate IsBaggage(c: Codec, e: Header) {
    !IsTrace(c, e) && c.baggagePrefix <= LowerAll(e.key)
  }

  predicate IsDebug(c: Codec, e: Header) {
    !IsTrace(c, e) && !IsBaggage(c, e) && LowerAll(e.key) == c.debugIdHeader
  }

  predicate IsList(c: Codec, e: Header) {
    !IsTrace(c, e) && !IsBaggage(c, e) && !IsDebug(c, e) && LowerAll(e.key) == c.baggageHeader
  }

  predicate Readable(c: Codec, e: Header) {
    c.urlEncoding ==> e.value.Str?
  }

  function ValueOf(c: Codec, e: Header): HeaderValue
    requires Readable(c, e)
  {
    if c.urlEncoding then Str(Unquote(e.value.s)) else e.value
  }

  /** A header that makes extract raise: a value of its kind that cannot be used. */
  predicate Bad(c: Codec, e: Header) {
    || (IsTrace(c, e) && (!Readable(c, e) || FromHeader(ValueOf(c, e)).Err?))
    || ((IsBaggage(c, e) || IsDebug(c, e)) && !Readable(c, e))
    || (IsList(c, e) && !e.value.Str?)
  }

  // ------------------------------------------------------- where the parts come from

  /** The last trace header. */
  predicate LastTrace(c: Codec, es: Headers, i: nat)
    requires i < |es|
  {
    IsTrace(c, es[i]) && forall j :: i < j < |es| ==> !IsTrace(c, es[j])
  }

  predicate IdsFrom(c: Codec, es: Headers, ids: Option<Ids>) {
    if ids.None? then forall j :: 0 <= j < |es| ==> !IsTrace(c, es[j])
    else exists i :: 0 <= i < |es| && LastTrace(c, es, i) && Readable(c, es[i])
                     && FromHeader(ValueOf(c, es[i])) == Ok(ids.value)
  }

  /** The last debug-id header. */
  predicate LastDebug(c: Codec, es: Headers, i: nat)
    requires i < |es|
  {
    IsDebug(c, es[i]) && forall j :: i < j < |es| ==> !IsDebug(c, es[j])
  }

  predicate DebugIdFrom(c: Codec, es: Headers, v: Option<HeaderValue>) {
    if v.None? then forall j :: 0 <= j < |es| ==> !IsDebug(c, es[j])
    else exists i :: 0 <= i < |es| && LastDebug(c, es, i) && Readable(c, es[i]) && ValueOf(c, es[i]) == v.value
  }

  /** The pairs of the parts k=v; blanks around a part do not count, and other parts are passed over. */
  function Pairs(parts: seq<string>): Baggage {
    if parts == [] then []
    else
      var kv := Split(TrimRight(TrimLeft(parts[0])), '=');
      (if |kv| == 2 then [Entry(kv[0], Str(kv[1]))] else []) + Pairs(parts[1..])
  }

  /** The items one header names, in order. */
  function ItemsOf(c: Codec, e: Header): Baggage {
    if IsBaggage(c, e) && Readable(c, e) then [Entry(LowerAll(e.key[|c.baggagePrefix|..]), ValueOf(c, e))]
    else if IsList(c, e) && e.value.Str? then Pairs(Split(ValueOf(c, e).s, ','))
    else []
  }

  function AllItems(c: Codec, es: Headers): Baggage {
    if es == [] then [] else ItemsOf(c, es[0]) + AllItems(c, es[1..])
  }

  predicate BaggageFrom(c: Codec, es: Headers, b: Baggage) {
    b == PutAll([], AllItems(c, es))
  }

  predicate Facts(c: Codec, es: Headers, f: Found) {
    IdsFrom(c, es, f.ids) && DebugIdFrom(c, es, f.debugId) && BaggageFrom(c, es, Items0(f.baggage))
  }

  // ------------------------------------------------------------------- one header

  lemma {:induction false} ParsedPairs(parts: seq<string>, baggage: Option<Baggage>)
    ensures Items0(ParseBaggageHeader(parts, baggage)) == PutAll(Items0(baggage), Pairs(parts))
    decreases |parts|
  {
    hide Split, TrimLeft, TrimRight, Put;
    if parts != [] {
      var kv := Split(TrimRight(TrimLeft(parts[0])), '=');
      var next := if |kv| == 2 then Some(Put(Items0(baggage), kv[0], Str(kv[1]))) else baggage;
      ParsedPairs(parts[1..], next);
      var first := if |kv| == 2 then [Entry(kv[0], Str(kv[1]))] else [];
      PutAllJoin(Items0(baggage), first, Pairs(parts[1..]));
      assert Items0(next) == PutAll(Items0(baggage), first) by { OneAssignment(Items0(baggage), first); }
    }
  }

  lemma ScanOneFacts(c: Codec, f: Found, e: Header)
    ensures ScanOne(c, f, e).Err? <==> Bad(c, e)
    ensures ScanOne(c, f, e).Ok? ==>
              var g := ScanOne(c, f, e).value;
              && (if IsTrace(c, e) then g.ids.Some? && Readable(c, e) && FromHeader(ValueOf(c, e)) == Ok(g.ids.value)
                  else g.ids == f.ids)
              && (if IsDebug(c, e) then Readable(c, e) && g.debugId == Some(ValueOf(c, e)) else g.debugId == f.debugId)
              && Items0(g.baggage) == PutAll(Items0(f.baggage), ItemsOf(c, e))
  {
    hide LowerAll, Unquote, FromHeader, Split, Put, PutAll, ParseBaggageHeader, Pairs;
    OneAssignment(Items0(f.baggage), []);
    if IsBaggage(c, e) && Readable(c, e) {
      OneAssignment(Items0(f.baggage), ItemsOf(c, e));
    } else if IsList(c, e) && e.value.Str? {
      ParsedPairs(Split(ValueOf(c, e).s, ','), f.baggage);
    }
  }

  lemma {:induction false} AllItemsAppend(c: Codec, es: Headers, e: Header)
    ensures AllItems(c, es + [e]) == AllItems(c, es) + ItemsOf(c, e)
  {
    hide ItemsOf;
    if es == [] {
      assert [e][1..] == [];
    } else {
      assert (es + [e])[1..] == es[1..] + [e];
      AllItemsAppend(c, es[1..], e);
    }
  }

  lemma IdsAppend(c: Codec, es: Headers, e: Header, ids: Option<Ids>, next: Option<Ids>)
    requires IdsFrom(c, es, ids)
    requires if IsTrace(c, e) then next.Some? && Readable(c, e) && FromHeader(ValueOf(c, e)) == Ok(next.value)
             else next == ids
    ensures IdsFrom(c, es + [e], next)
  {
    hide FromHeader, IsTrace, Readable, ValueOf;
    var all := es + [e];
    if IsTrace(c, e) {
      assert LastTrace(c, all, |es|);
    } else if ids.Some? {
      var i :| 0 <= i < |es| && LastTrace(c, es, i) && Readable(c, es[i])
               && FromHeader(ValueOf(c, es[i])) == Ok(ids.value);
      assert all[i] == es[i] && LastTrace(c, all, i);
    }
  }

  lemma DebugIdAppend(c: Codec, es: Headers, e: Header, v: Option<HeaderValue>, next: Option<HeaderValue>)
    requires DebugIdFrom(c, es, v)
    requires if IsDebug(c, e) then Readable(c, e) && next == Some(ValueOf(c, e)) else next == v
    ensures DebugIdFrom(c, es + [e], next)
  {
    hide IsDebug, Readable, ValueOf;
    var all := es + [e];
    if IsDebug(c, e) {
      assert LastDebug(c, all, |es|);
    } else if v.Some? {
      var i :| 0 <= i < |es| && LastDebug(c, es, i) && Readable(c, es[i]) && ValueOf(c, es[i]) == v.value;
      assert all[i] == es[i] && LastDebug(c, all, i);
    }
  }

  lemma FactsAppend(c: Codec, es: Headers, e: Header, f: Found)
    requires Facts(c, es, f) && ScanOne(c, f, e).Ok?
    ensures Facts(c, es + [e], ScanOne(c, f, e).value)
  {
    hide ScanOne, FromHeader, ItemsOf, AllItems, PutAll, IsTrace, IsDebug, Readable, ValueOf, IdsFrom, DebugIdFrom;
    var g := ScanOne(c, f, e).value;
    ScanOneFacts(c, f, e);
    AllItemsAppend(c, es, e);
    PutAllJoin([], AllItems(c, es), ItemsOf(c, e));
    IdsAppend(c, es, e, f.ids, g.ids);
    DebugIdAppend(c, es, e, f.debugId, g.debugId);
  }

  lemma NothingFound(c: Codec)
    ensures Facts(c, [], NOTHING)
  {
  }

  /** Extraction raises exactly when some header of the four kinds cannot be used; else the ids are those of the last
      trace header, the debug id is the decoded value of the last debug-id header, and the baggage is what the prefixed
      headers and the pairs of the list header assign, one after the other. */
  lemma {:induction false} ScanFacts(c: Codec, es: Headers)
    ensures Scan(c, es).Err? <==> exists e :: e in es && Bad(c, e)
    ensures Scan(c, es).Ok? ==> Facts(c, es, Scan(c, es).value)
    decreases |es|
  {
    hide ScanOne, Bad, Facts;
    if es == [] {
      NothingFound(c);
    } else {
      var before, e := es[..|es| - 1], es[|es| - 1];
      assert es == before + [e];
      ScanFacts(c, before);
      if Scan(c, before).Ok? {
        ScanOneFacts(c, Scan(c, before).value, e);
        if ScanOne(c, Scan(c, before).value, e).Ok? { FactsAppend(c, before, e, Scan(c, before).value); }
      }
    }
  }

  // ---------------------------------------------------------------------- baggage

  lemma {:induction false} NothingAssigned(items: Baggage)
    ensures PutAll([], items) == [] <==> items == []
  {
    if items != [] {
      var n := |items| - 1;
      PutKeys(PutAll([], items[..n]), items[n].key, items[n].value);
      GetPut(PutAll([], items[..n]), items[n].key, items[n].value, items[n].key);
    }
  }

  lemma {:induction false} AssignedDistinct(items: Baggage)
    ensures DistinctKeys(PutAll([], items))
  {
    if items != [] {
      var n := |items| - 1;
      AssignedDistinct(items[..n]);
      PutDistinct(PutAll([], items[..n]), items[n].key, items[n].value);
    }
  }

  // --------------------------------------------------------------------- contexts

  /** A debug id that counts: not the empty text, nor an empty list. */
  predicate Meant(v: Option<HeaderValue>) {
    v.Some? && v.value != Str("") && v.value != Items([])
  }

  /** For any headers: when extract raises, when it gives no context, and what the context is made of. */
  lemma ExtractFacts(c: Codec, es: Headers)
    ensures Extracted(c, es).Err? <==> exists e :: e in es && Bad(c, e)
    ensures Extracted(c, es) == Ok(None) ==>
              && (forall e :: e in es ==> !IsTrace(c, e)) && AllItems(c, es) == []
              && exists v: Option<HeaderValue> :: DebugIdFrom(c, es, v) && !Meant(v)
    ensures Extracted(c, es).Ok? && Extracted(c, es).value.Some? ==>
              var ctx := Extracted(c, es).value.value;
              && (if ctx.traceId.None? then
                    ctx.spanId.None? && ctx.parentId.None? && ctx.flags.None? && IdsFrom(c, es, None)
                  else
                    && ctx.spanId.Some? && ctx.flags.Some?
                    && IdsFrom(c, es, Some(Ids(ctx.traceId.value, ctx.spanId.value, ctx.parentId, ctx.flags.value))))
              && DebugIdFrom(c, es, ctx.debugId)
              && BaggageFrom(c, es, ctx.baggage) && DistinctKeys(ctx.baggage)
              && (forall key :: Get(ctx.baggage, key) == Latest(AllItems(c, es), key))
              && (ctx.traceId.Some? || Meant(ctx.debugId) || AllItems(c, es) != [])
  {
    ScanFacts(c, es);
    hide Scan, Bad, IdsFrom, DebugIdFrom, AllItems, PutAll, Get, Latest, DistinctKeys;
    if Scan(c, es).Ok? {
      var f := Scan(c, es).value;
      FoundIdsAreValid(c, es, f.ids);
      NothingAssigned(AllItems(c, es));
      AssignedDistinct(AllItems(c, es));
      forall key ensures Get(PutAll([], AllItems(c, es)), key) == Latest(AllItems(c, es), key) {
        LastAssignmentCounts([], AllItems(c, es), key);
        GetNone<string, HeaderValue>([], key);
      }
      if f.ids.None? { NoTraceHeader(c, es); }
    }
  }

  lemma NoTraceHeader(c: Codec, es: Headers)
    requires IdsFrom(c, es, None)
    ensures forall e :: e in es ==> !IsTrace(c, e)
  {
  }

  lemma FoundIdsAreValid(c: Codec, es: Headers, ids: Option<Ids>)
    requires IdsFrom(c, es, ids)
    ensures ids.Some? ==> Valid(ids.value)
  {
    if ids.Some? {
      hide FromHeader;
      var i :| 0 <= i < |es| && LastTrace(c, es, i) && Readable(c, es[i])
               && FromHeader(ValueOf(c, es[i])) == Ok(ids.value);
      ParsedIsValid(ValueOf(c, es[i]));
    }
  }

  // ---------------------------------------------------------------- one debug id

  /** Headers of which one is a debug id and none of another kind: a context with that debug id and nothing else. */
  lemma DebugIdAlone(c: Codec, es: Headers, i: nat)
    requires i < |es| && IsDebug(c, es[i]) && Readable(c, es[i]) && Meant(Some(ValueOf(c, es[i])))
    requires forall j :: 0 <= j < |es| && j != i ==>
               !IsTrace(c, es[j]) && !IsBaggage(c, es[j]) && !IsDebug(c, es[j]) && !IsList(c, es[j])
    ensures Extracted(c, es) == Ok(Some(SpanContext(None, None, None, None, [], Some(ValueOf(c, es[i])))))
  {
    hide IsTrace, IsBaggage, IsDebug, IsList;
    forall j | 0 <= j < |es| ensures !IsTrace(c, es[j]) && !IsBaggage(c, es[j]) && !IsList(c, es[j]) && !Bad(c, es[j]) {
      KindsExclude(c, es[j]);
    }
    ScanFacts(c, es);
    NoItems(c, es);
    NothingAssigned([]);
    var f := Scan(c, es).value;
    assert f.ids.None?;
    assert f.debugId == Some(ValueOf(c, es[i]));
  }

  lemma KindsExclude(c: Codec, e: Header)
    ensures IsDebug(c, e) ==> !IsTrace(c, e) && !IsBaggage(c, e) && !IsList(c, e)
  {
  }

  lemma {:induction false} NoItems(c: Codec, es: Headers)
    requires forall j :: 0 <= j < |es| ==> !IsBaggage(c, es[j]) && !IsList(c, es[j])
    ensures AllItems(c, es) == []
  {
    hide IsBaggage, IsList;
    if es != [] { NoItems(c, es[1..]); }
  }

  // ------------------------------------------------------------------ the names

  /** The three names a codec compares with are the given ones in lower case, with dashes for underscores; the name of
      the list header is taken as it is. */
  lemma MadeNames(url: bool, t: string, p: string, d: string, b: string)
    ensures var c := MakeCodec(url, t, p, d, b);
            && c.urlEncoding == url && c.baggageHeader == b
            && Dashes(t, c.traceIdHeader) && Dashes(p, c.baggagePrefix) && Dashes(d, c.debugIdHeader)
  {
  }

  predicate Dashes(s: string, r: string) {
    |r| == |s| && forall i :: 0 <= i < |s| ==>
      r[i] == if s[i] == '_' then '-'
              else if 'A' <= s[i] <= 'Z' then (s[i] as int + 32) as char else s[i]
  }

  // ------------------------------------------------------------------ injection

  predicate HasIds(ctx: SpanContext) {
    ctx.traceId.Some? && ctx.spanId.Some? && ctx.flags.Some?
  }

  predicate Sendable(c: Codec, v: HeaderValue) {
    c.urlEncoding ==> v.Str?
  }

  /** The headers of the first n items, in order. */
  function ItemHeaders(c: Codec, b: Baggage, n: nat): Headers
    requires n <= |b| && forall i :: 0 <= i < n ==> Sendable(c, b[i].value)
  {
    seq(n, i requires 0 <= i < n && Sendable(c, b[i].value) =>
          Entry(c.baggagePrefix + b[i].key, if c.urlEncoding then Str(Quote(b[i].value.s)) else b[i].value))
  }

  /** Into any carrier: a context without ids raises and leaves the carrier; else the items before the first that
      cannot be sent are written, each under its header, and the ids under the trace header, all other headers staying
      as they were; and it raises exactly when there is an item that cannot be sent. */
  lemma InjectFacts(c: Codec, ctx: SpanContext, carrier: Headers, n: nat, key: string)
    requires n <= |ctx.baggage| && forall i :: 0 <= i < n ==> Sendable(c, ctx.baggage[i].value)
    requires n < |ctx.baggage| ==> !Sendable(c, ctx.baggage[n].value)
    ensures !HasIds(ctx) ==> InjectError(c, ctx) == Some(NoTrace) && Injected(c, ctx, carrier) == carrier
    ensures HasIds(ctx) ==>
              && InjectError(c, ctx) == (if n < |ctx.baggage| then Some(NotText) else None)
              && Get(Injected(c, ctx, carrier), key) ==
                 (var sent := Latest(ItemHeaders(c, ctx.baggage, n), key);
                  if sent.Some? then sent
                  else if key == c.traceIdHeader then
                    Some(Str(ToText(Ids(ctx.traceId.value, ctx.spanId.value, ctx.parentId, ctx.flags.value))))
                  else Get(carrier, key))
  {
    hide ToText, PutAll, Put, Get, Latest, Quote;
    if IdsOf(ctx).Some? {
      assert BaggageHeaders(c, ctx.baggage) == ItemHeaders(c, ctx.baggage, n);
      var trace := Str(ToText(IdsOf(ctx).value));
      GetPut(carrier, c.traceIdHeader, trace, key);
      LastAssignmentCounts(Put(carrier, c.traceIdHeader, trace), BaggageHeaders(c, ctx.baggage), key);
    }
  }
}
