/** The span and tracer classes: objects whose methods update themselves, the throttler and the reporter's intake,
    as the functions of Tracing say. */
module TracerObjects {
  import opened Prelude
  import opened Dict
  import opened ContextString
  import opened SpanContexts
  import opened Throttling
  import T = Tracing

  function EnvOf(gate: T.Gate): T.Env {
    T.Env(gate, [], [])
  }

  class Tracer {
    const cfg: T.Config
    const throttler: RemoteThrottler?
    /** Spans handed to reporter.report_span, in order. */
    var reported: seq<Span>

    constructor (cfg: T.Config, throttler: RemoteThrottler?)
      ensures this.cfg == cfg && this.throttler == throttler && reported == []
    {
      this.cfg := cfg;
      this.throttler := throttler;
      reported := [];
    }

    ghost function Frame(): set<object> {
      if throttler == null then {} else {throttler}
    }

    ghost function Gate(): T.Gate
      reads Frame()
    {
      if throttler == null then T.Open else T.Throttled(throttler.credits)
    }

    method IsDebugAllowed(op: Op) returns (ok: bool)
      modifies Frame()
      ensures var (env, allowed) := T.AskDebug(EnvOf(old(Gate())), op); Gate() == env.gate && ok == allowed
    {
      if throttler == null { return true; }
      ok := throttler.IsAllowed(op);
    }

    method ReportSpan(s: Span)
      modifies this
      ensures reported == old(reported) + [s]
    {
      reported := reported + [s];
    }

    method SelectReferences(references: seq<Option<SpanContext>>) returns (valid: seq<SpanContext>)
      ensures valid == T.ValidReferences(references)
    {
      valid := [];
      var i := 0;
      while i < |references|
        invariant 0 <= i <= |references|
        invariant valid + T.ValidReferences(references[i..]) == T.ValidReferences(references)
      {
        ghost var rest := T.ValidReferences(references[i + 1..]);
        assert references[i..][1..] == references[i + 1..];
        if references[i].Some? {
          assert valid + ([references[i].value] + rest) == valid + [references[i].value] + rest;
          valid := valid + [references[i].value];
        } else {
          assert [] + rest == rest;
        }
        i := i + 1;
      }
      assert valid + [] == valid;
    }

    /** The part of start_span that settles the parent and the references. */
    method SelectParent(r: T.Request) returns (parent: Option<SpanContext>, valid: seq<SpanContext>)
      ensures parent == T.Parent(r) && valid == T.ValidReferences(r.references)
      ensures T.OwnTrace(r) ==> parent == if r.childOf.Some? then r.childOf else r.active
      ensures !T.OwnTrace(r) && valid != [] ==> parent == Some(valid[0])
      ensures !T.OwnTrace(r) && valid == [] ==>
                parent == if r.childOf.Some? then r.childOf else if r.ignoreActive then None else r.active
    {
      parent := r.childOf;
      if r.active.Some? && !r.ignoreActive && parent.None? { parent := r.active; }
      valid := SelectReferences(r.references);
      if valid != [] && (parent.None? || !HasTrace(parent.value)) { parent := Some(valid[0]); }
    }

    /** The part of start_span up to the new context: parent, ids, flags, baggage and tags. */
    method NewContext(r: T.Request, d: T.Draws, parent: Option<SpanContext>) returns (ctx: SpanContext, tags: T.Tags)
      requires parent == T.Parent(r)
      modifies Frame()
      ensures var (env, ctx1, tags1) := T.NewContext(EnvOf(old(Gate())), cfg, r, d);
              Gate() == env.gate && ctx == ctx1 && tags == tags1
    {
      hide T.AskDebug, T.Parent, PutAll, Put, Get;
      var rpcServer := Get(r.tags, T.SPAN_KIND) == Some(T.StrV(T.SPAN_KIND_RPC_SERVER));
      var traceId: Option<int>, spanId: Option<int> := Some(d.traceId), Some(d.spanId);
      var parentId: Option<int>, flags: Option<int> := None, Some(0);
      var baggage: Baggage := [];
      tags := r.tags;
      if parent.None? || !HasTrace(parent.value) {
        if parent.None? {
          if d.sampled {
            flags := Some(SAMPLED_FLAG);
            tags := PutAll(tags, d.samplerTags);
          }
        } else {
          if TruthyText(parent.value.debugId) {
            var ok := IsDebugAllowed(r.op);
            if ok {
              flags := Some(SAMPLED_FLAG + DEBUG_FLAG);
              tags := Put(tags, cfg.debugIdHeader, T.TagOf(parent.value.debugId.value));
            }
          }
          baggage := parent.value.baggage;
        }
      } else {
        traceId := parent.value.traceId;
        if rpcServer && cfg.oneSpanPerRpc {
          spanId, parentId := parent.value.spanId, parent.value.parentId;
        } else {
          parentId := parent.value.spanId;
        }
        flags, baggage := parent.value.flags, parent.value.baggage;
      }
      ctx := Make(traceId, spanId, parentId, flags, baggage, None);
    }

    /** None when a tag value raises; the throttler may have been charged by then. */
    method StartSpan(r: T.Request, d: T.Draws) returns (span: Option<Span>)
      modifies Frame()
      ensures var o := T.StartSpan(EnvOf(old(Gate())), cfg, r, d);
              && Gate() == o.env.gate
              && (span.None? <==> o.verdict.Raised?)
              && (span.Some? ==> fresh(span.value) && span.value.tracer == this && span.value.View() == o.span)
    {
      hide T.SetTags, T.NewContext, T.Parent;
      var parent, valid := SelectParent(r);
      ghost var env1 := T.NewContext(EnvOf(Gate()), cfg, r, d).0;
      var ctx, tags := NewContext(r, d, parent);
      var s := new Span(ctx, this, if r.op.None? then "" else r.op.value, valid);
      SameGateTags(EnvOf(env1.gate), env1, s.View(), tags);
      var raised := s.SetTags(tags);
      span := if raised then None else Some(s);
    }
  }

  /** The histories in the environment do not influence what happens. */
  lemma {:induction false} SameGateTags(a: T.Env, b: T.Env, s: T.Span, tags: T.Tags)
    requires a.gate == b.gate
    ensures var x, y := T.SetTags(a, s, tags), T.SetTags(b, s, tags);
            x.env.gate == y.env.gate && x.span == y.span && x.verdict == y.verdict
    decreases |tags|
  {
    hide T.SetTag;
    if tags != [] {
      var x, y := T.SetTag(a, s, tags[0].key, tags[0].value), T.SetTag(b, s, tags[0].key, tags[0].value);
      SameGateTag(a, b, s, tags[0].key, tags[0].value);
      if !x.verdict.Raised? { SameGateTags(x.env, y.env, x.span, tags[1..]); }
    }
  }

  lemma SameGateTag(a: T.Env, b: T.Env, s: T.Span, key: string, v: T.TagValue)
    requires a.gate == b.gate
    ensures var x, y := T.SetTag(a, s, key, v), T.SetTag(b, s, key, v);
            x.env.gate == y.env.gate && x.span == y.span && x.verdict == y.verdict
  {
    hide T.ToInt;
  }

  class Span {
    const tracer: Tracer
    var ctx: SpanContext
    var op: string
    var finished: bool
    var tags: T.Tags
    var logs: seq<T.Log>
    var references: seq<SpanContext>

    constructor (ctx: SpanContext, tracer: Tracer, op: string, references: seq<SpanContext>)
      ensures this.tracer == tracer && View() == T.Span(ctx, op, false, [], [], references)
    {
      this.tracer := tracer;
      this.ctx := ctx;
      this.op := op;
      this.references := references;
      finished, tags, logs := false, [], [];
    }

    ghost function View(): T.Span
      reads this
    {
      T.Span(ctx, op, finished, tags, logs, references)
    }

    predicate IsSampled()
      reads this
    {
      HasSampled(OrZero(ctx.flags))
    }

    predicate IsDebug()
      reads this
    {
      HasDebug(OrZero(ctx.flags))
    }

    method SetOperationName(name: string)
      modifies this
      ensures View() == old(View()).(op := name)
    {
      op := name;
    }

    method Finish()
      modifies this, tracer
      ensures View() == T.Finish(old(View()))
      ensures tracer.reported == if old(OrZero(ctx.flags)) % 2 == 1 && !old(finished) then old(tracer.reported) + [this]
                                 else old(tracer.reported)
    {
      if !IsSampled() { return; }
      if finished { return; }
      finished := true;
      tracer.ReportSpan(this);
    }

    method SetSamplingPriority(v: T.TagValue) returns (verdict: T.Verdict)
      modifies this, tracer.Frame()
      ensures var o := T.SetPriority(EnvOf(old(tracer.Gate())), old(View()), v);
              View() == o.span && tracer.Gate() == o.env.gate && verdict == o.verdict
    {
      hide T.ToInt, T.AskDebug;
      if IsDebug() && T.IsTrue(v) { return T.Refused; }
      var n := T.ToInt(v);
      if n.ValueError? { return T.Refused; }
      if n.TypeError? { return T.Raised; }
      if n.n == 0 {
        ctx := ctx.(flags := Some(T.Clear(OrZero(ctx.flags))));
        return T.Refused;
      }
      var allowed := tracer.IsDebugAllowed(Some(op));
      if !allowed { return T.Refused; }
      ctx := ctx.(flags := Some(T.SetBoth(OrZero(ctx.flags))));
      verdict := T.Accepted;
    }

    method SetTag(key: string, v: T.TagValue) returns (verdict: T.Verdict)
      modifies this, tracer.Frame()
      ensures var o := T.SetTag(EnvOf(old(tracer.Gate())), old(View()), key, v);
              View() == o.span && tracer.Gate() == o.env.gate && verdict == o.verdict
    {
      hide T.SetPriority;
      if key == T.SAMPLING_PRIORITY {
        verdict := SetSamplingPriority(v);
        if !verdict.Accepted? { return; }
      } else {
        verdict := T.Accepted;
      }
      if IsSampled() { tags := tags + [Entry(key, v)]; }
    }

    /** The constructor's loop over its tags. */
    method SetTags(given: T.Tags) returns (raised: bool)
      modifies this, tracer.Frame()
      ensures var o := T.SetTags(EnvOf(old(tracer.Gate())), old(View()), given);
              View() == o.span && tracer.Gate() == o.env.gate && (raised <==> o.verdict.Raised?)
    {
      hide T.SetTag;
      ghost var want := T.SetTags(EnvOf(tracer.Gate()), View(), given);
      var i := 0;
      while i < |given|
        invariant 0 <= i <= |given|
        invariant var o := T.SetTags(EnvOf(tracer.Gate()), View(), given[i..]);
                  o.env.gate == want.env.gate && o.span == want.span && o.verdict == want.verdict
      {
        assert given[i..][1..] == given[i + 1..];
        ghost var o := T.SetTag(EnvOf(tracer.Gate()), View(), given[i].key, given[i].value);
        var verdict := SetTag(given[i].key, given[i].value);
        if verdict.Raised? { return true; }
        SameGateTags(o.env, EnvOf(tracer.Gate()), View(), given[i + 1..]);
        i := i + 1;
      }
      raised := false;
    }

    method LogKv(log: T.Log)
      modifies this
      ensures View() == T.LogKv(old(View()), log)
    {
      if IsSampled() { logs := logs + [log]; }
    }

    method SetBaggageItem(key: string, value: Option<HeaderValue>)
      modifies this
      ensures View() == T.SetBaggage(old(View()), key, value)
    {
      var previous := Get(ctx.baggage, key);
      ctx := WithBaggageItem(ctx, key, value);
      if IsSampled() { LogKv(T.BaggageSet(key, value, TruthyText(previous))); }
    }
  }
}
