/** One trace over several processes: a span started under a context that travelled through a carrier. */
module Propagation {
  import opened Prelude
  import opened Dict
  import opened ContextString
  import opened SpanContexts
  import opened Tracing
  import TC = TextCodec
  import TR = TextRoundTrip
  import BC = BinaryCodec
  import BR = BinaryRoundTrip
  import B3 = B3Codec
  import Percent
  import opened Hex
  import TX = TextFacts
  import opened TF = TracingFacts

  /** The new span continues the trace of the given one, in the other process, without asking its throttler. */
  predicate Continues(ctx: SpanContext, flags: Option<int>, baggage: Baggage, env: Env, cfg: Config, r: Request,
                      d: Draws) {
    var (env1, child, tags) := NewContext(env, cfg, r, d);
    && env1 == env && tags == r.tags
    && child.traceId == ctx.traceId && child.flags == flags && child.baggage == baggage
    && (if IsRpcServer(r.tags) && cfg.oneSpanPerRpc then child.spanId == ctx.spanId && child.parentId == ctx.parentId
        else child.spanId == Some(d.spanId) && child.parentId == ctx.spanId)
  }

  /** A context a started span can have: positive ids, a parent only if it is not zero. */
  predicate Live(ctx: SpanContext) {
    TC.IdsOf(ctx).Some? && Valid(TC.IdsOf(ctx).value) && DistinctKeys(ctx.baggage)
  }

  lemma UnderParent(ctx: SpanContext, env: Env, cfg: Config, r: Request, d: Draws)
    requires r.childOf == Some(ctx) && Live(ctx)
    ensures Continues(ctx, ctx.flags, ctx.baggage, env, cfg, r, d)
  {
  }

  lemma {:induction false} PutAllFromEmpty(es: Baggage)
    ensures DistinctKeys(PutAll([], es))
  {
    if es != [] {
      var n := |es| - 1;
      PutAllFromEmpty(es[..n]);
      PutDistinct(PutAll([], es[..n]), es[n].key, es[n].value);
    }
  }

  /** Over HTTP headers or a text map with the default names: same trace, same flags, and the baggage with its keys
      in lower case. */
  lemma ContinuesOverText(url: bool, ctx: SpanContext, env: Env, cfg: Config, r: Request, d: Draws)
    requires Live(ctx)
    requires url ==> forall i :: 0 <= i < |ctx.baggage| ==>
                       ctx.baggage[i].value.Str? && Percent.IsBytes(ctx.baggage[i].value.s)
    requires var c := TC.MakeCodec(url, TR.TRACE_ID_HEADER, TR.BAGGAGE_HEADER_PREFIX, TR.DEBUG_ID_HEADER_KEY,
                                   TR.BAGGAGE_HEADER_KEY);
             TC.Extracted(c, TC.Injected(c, ctx, [])) == Ok(r.childOf)
    ensures Continues(ctx, ctx.flags, PutAll([], TR.LowerKeys(ctx.baggage)), env, cfg, r, d)
  {
    hide TC.Extracted, TC.Injected, TC.MakeCodec, Continues, PutAll, Percent.IsBytes;
    TR.DefaultRoundTrip(url, ctx);
    PutAllFromEmpty(TR.LowerKeys(ctx.baggage));
    var travelled := TR.Restored(ctx);
    UnderParent(travelled, env, cfg, r, d);
    SameIds(travelled, ctx, travelled.flags, travelled.baggage, env, cfg, r, d);
  }

  lemma SameIds(a: SpanContext, b: SpanContext, flags: Option<int>, baggage: Baggage, env: Env, cfg: Config, r: Request,
                d: Draws)
    requires Continues(a, flags, baggage, env, cfg, r, d)
    requires a.traceId == b.traceId && a.spanId == b.spanId && a.parentId == b.parentId
    ensures Continues(b, flags, baggage, env, cfg, r, d)
  {
  }

  /** Over the binary format, with anything behind the context: same trace, same flags, same baggage. */
  lemma ContinuesOverBinary(ctx: SpanContext, rest: string, env: Env, cfg: Config, r: Request, d: Draws)
    requires Live(ctx) && BR.InRange(ctx) && BR.ByteText(ctx.baggage) && Percent.IsBytes(rest)
    requires r.childOf == BC.Extracted(BC.Injected(ctx).0 + rest)
    ensures BC.Injected(ctx).1 && Continues(ctx, ctx.flags, ctx.baggage, env, cfg, r, d)
  {
    hide BC.Extracted, BC.Injected, BR.InRange, BR.ByteText, Percent.IsBytes, Continues;
    BR.BinaryRoundTripIff(ctx, rest);
    var travelled := ctx.(debugId := None);
    UnderParent(travelled, env, cfg, r, d);
    SameIds(travelled, ctx, ctx.flags, ctx.baggage, env, cfg, r, d);
  }

  /** Over B3: same trace, no baggage; the child of a debug span is a debug span but, since a tracer's debug spans are
      sampled too and B3 then leaves the sampled header out, not a sampled one, so that finishing it reports nothing. */
  lemma ContinuesOverB3(wide: bool, ctx: SpanContext, env: Env, cfg: Config, r: Request, d: Draws)
    requires Live(ctx)
    requires B3.Extracted(B3.Injected(wide, ctx, [])) == Ok(r.childOf)
    ensures Continues(ctx, Some(B3.B3Flags(ctx.flags.value)), [], env, cfg, r, d)
    ensures var child := NewContext(env, cfg, r, d).1;
            && (HasDebug(OrZero(child.flags)) <==> HasDebug(OrZero(ctx.flags)))
            && (HasSampled(OrZero(child.flags)) == HasSampled(OrZero(ctx.flags)) <==>
                !(HasDebug(OrZero(ctx.flags)) && HasSampled(OrZero(ctx.flags))))
  {
    hide B3.Extracted, B3.Injected, HasDebug, HasSampled;
    B3.B3RoundTrip(wide, ctx);
    B3.FlagsIdempotent(ctx.flags.value);
    B3.SampledSurvivesIff(ctx.flags.value);
    var travelled := ctx.(flags := Some(B3.B3Flags(ctx.flags.value)), baggage := [], debugId := None);
    UnderParent(travelled, env, cfg, r, d);
    SameIds(travelled, ctx, travelled.flags, [], env, cfg, r, d);
  }

  // ---------------------------------------------------------------- debug ids

  lemma PutNoPriority(tags: Tags, key: string, v: TagValue)
    requires NoPriority(tags) && key != "sampling.priority"
    ensures NoPriority(Put(tags, key, v))
  {
    PutKeys(tags, key, v);
  }

  lemma NoReferences(r: Request)
    requires FirstContext(r.references, |r.references|)
    ensures ValidReferences(r.references) == []
  {
    FirstValid(r.references, |r.references|);
  }

  /** What start_span makes of a parent without a trace that carries a debug id. */
  predicate DebugTrace(env: Env, cfg: Config, r: Request, d: Draws, baggage: Baggage) {
    var o := StartSpan(env, cfg, r, d);
    var allowed := Allowed(env.gate, r.op);
    && o.verdict == Accepted && o.env.gate == Charged(env.gate, r.op)
    && o.span.ctx == SpanContext(Some(d.traceId), Some(d.spanId), None, Some(if allowed then 3 else 0), baggage, None)
    && Sampled(o.span) == allowed && Debug(o.span) == allowed
    && (!allowed ==> o.span.tags == [])
  }

  lemma DebugIdStarts(env: Env, cfg: Config, r: Request, d: Draws)
    requires Parent(r).Some? && NoTraceIn(Parent(r).value) && TX.Meant(Parent(r).value.debugId)
    requires NoPriority(r.tags) && cfg.debugIdHeader != "sampling.priority"
    ensures var p := Parent(r).value; DebugTrace(env, cfg, r, d, p.baggage)
    ensures Allowed(env.gate, r.op) ==>
              forall k :: Get(StartSpan(env, cfg, r, d).span.tags, k) ==
                if k == cfg.debugIdHeader then Some(DebugTag(Parent(r).value.debugId.value)) else Get(r.tags, k)
  {
    DebugIdTrace(env, cfg, r, d);
    DebugIdTags(env, cfg, r, d);
    StartedSpan(env, cfg, r, d);
    hide NewContext, StartSpan, Get, Parent;
  }

  lemma DebugIdTags(env: Env, cfg: Config, r: Request, d: Draws)
    requires Parent(r).Some? && NoTraceIn(Parent(r).value) && TX.Meant(Parent(r).value.debugId)
    requires NoPriority(r.tags) && cfg.debugIdHeader != "sampling.priority"
    ensures NoPriority(NewContext(env, cfg, r, d).2)
  {
    hide Parent, Put, AskDebug, NoPriority;
    HasTraceIff(Parent(r).value);
    PutNoPriority(r.tags, cfg.debugIdHeader, TagOf(Parent(r).value.debugId.value));
  }

  /** Headers with a debug id and no trace: when the throttler allows it, the span started under the extracted context
      is sampled and a debug span, with the decoded debug id as a tag and the baggage of the other headers; when it does
      not, the span is neither and has no tags. */
  lemma DebugIdReachesSpan(c: TC.Codec, es: TC.Headers, i: nat, env: Env, cfg: Config, r: Request, d: Draws)
    requires i < |es| && TX.LastDebug(c, es, i) && TX.Readable(c, es[i]) && TX.Meant(Some(TX.ValueOf(c, es[i])))
    requires forall e :: e in es ==> !TX.IsTrace(c, e) && !TX.Bad(c, e)
    requires TC.Extracted(c, es) == Ok(r.childOf) && FirstContext(r.references, |r.references|)
    requires NoPriority(r.tags) && cfg.debugIdHeader != "sampling.priority"
    ensures DebugTrace(env, cfg, r, d, PutAll([], TX.AllItems(c, es)))
    ensures Allowed(env.gate, r.op) ==>
              forall k :: Get(StartSpan(env, cfg, r, d).span.tags, k) ==
                if k == cfg.debugIdHeader then Some(DebugTag(TX.ValueOf(c, es[i]))) else Get(r.tags, k)
  {
    DebugIdExtracted(c, es, i);
    NoReferences(r);
    assert Parent(r) == r.childOf;
    DebugIdStarts(env, cfg, r, d);
  }

  lemma DebugIdExtracted(c: TC.Codec, es: TC.Headers, i: nat)
    requires i < |es| && TX.LastDebug(c, es, i) && TX.Readable(c, es[i]) && TX.Meant(Some(TX.ValueOf(c, es[i])))
    requires forall e :: e in es ==> !TX.IsTrace(c, e) && !TX.Bad(c, e)
    ensures TC.Extracted(c, es) ==
            Ok(Some(SpanContext(None, None, None, None, PutAll([], TX.AllItems(c, es)), Some(TX.ValueOf(c, es[i])))))
  {
    TX.ScanFacts(c, es);
    hide TX.IsTrace, TX.IsDebug, TX.Bad, TX.Readable, TX.ValueOf, TX.AllItems, PutAll;
    var f := TC.Scan(c, es).value;
    assert f.ids.None?;
    assert f.debugId == Some(TX.ValueOf(c, es[i]));
  }

  lemma DefaultKinds(header: string, text: string)
    requires LowerAll(header) == "jaeger-debug-id"
    ensures var c := TC.MakeCodec(false, TR.TRACE_ID_HEADER, TR.BAGGAGE_HEADER_PREFIX, TR.DEBUG_ID_HEADER_KEY,
                                  TR.BAGGAGE_HEADER_KEY);
            var e := Entry(header, Str(text));
            TX.IsDebug(c, e) && TX.Readable(c, e) && TX.ValueOf(c, e) == Str(text)
  {
    var c := TC.MakeCodec(false, TR.TRACE_ID_HEADER, TR.BAGGAGE_HEADER_PREFIX, TR.DEBUG_ID_HEADER_KEY,
                          TR.BAGGAGE_HEADER_KEY);
    assert c.traceIdHeader[0] == 'u' && c.baggagePrefix[0] == 'u' && c.debugIdHeader == "jaeger-debug-id";
  }

  /** The documented use, under the default names: a request whose only header is jaeger-debug-id, in any letter case,
      starts a trace that is sampled and a debug trace and carries the header's text as a tag. */
  lemma DefaultDebugId(header: string, text: string, env: Env, cfg: Config, r: Request, d: Draws)
    requires text != "" && LowerAll(header) == "jaeger-debug-id"
    requires var c := TC.MakeCodec(false, TR.TRACE_ID_HEADER, TR.BAGGAGE_HEADER_PREFIX, TR.DEBUG_ID_HEADER_KEY,
                                   TR.BAGGAGE_HEADER_KEY);
             TC.Extracted(c, [Entry(header, Str(text))]) == Ok(r.childOf)
    requires FirstContext(r.references, |r.references|) && NoPriority(r.tags)
             && cfg.debugIdHeader != "sampling.priority"
    requires env.gate.Open?
    ensures var s := StartSpan(env, cfg, r, d).span;
            && s.ctx == SpanContext(Some(d.traceId), Some(d.spanId), None, Some(3), [], None) && Sampled(s) && Debug(s)
            && Get(s.tags, cfg.debugIdHeader) == Some(StrV(text))
  {
    hide StartSpan, Get, TC.MakeCodec, TC.Extracted, LowerAll, PutAll;
    var c := TC.MakeCodec(false, TR.TRACE_ID_HEADER, TR.BAGGAGE_HEADER_PREFIX, TR.DEBUG_ID_HEADER_KEY,
                          TR.BAGGAGE_HEADER_KEY);
    var es := [Entry(header, Str(text))];
    DefaultKinds(header, text);
    TX.DebugIdAlone(c, es, 0);
    NoReferences(r);
    assert Parent(r) == r.childOf;
    DebugIdStarts(env, cfg, r, d);
  }
}
