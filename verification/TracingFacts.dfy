/** What each call does to a span, in terms of the two flag bits, the tags and the throttler's credits; and which calls
    of a run hand a span to the reporter. */
module TracingFacts {
  import opened Prelude
  import Hex
  import opened Dict
  import opened ContextString
  import opened SpanContexts
  import opened Throttling
  import opened Tracing
  import opened TracingTheorems
  import opened TextFacts
  import R = ReporterProtocol
  import RT = ReporterTheorems

  // ------------------------------------------------------------------ the flags

  /** The lowest bit of the flags; a context without flags has none. */
  predicate Sampled(s: Span) {
    s.ctx.flags.Some? && s.ctx.flags.value % 2 == 1
  }

  /** The second bit of the flags. */
  predicate Debug(s: Span) {
    s.ctx.flags.Some? && s.ctx.flags.value % 4 >= 2
  }

  lemma Bits(s: Span)
    ensures HasSampled(Flags(s)) == Sampled(s) && HasDebug(Flags(s)) == Debug(s)
  {
  }

  // ------------------------------------------------------------------ reporting

  /** One call: finish hands its span over if the span is sampled then and was not handed over before, and marks it;
      nothing else hands anything over. */
  lemma FinishReportsIff(cfg: Config, w: World, e: Event)
    requires ReportsOk(w)
    ensures Step(cfg, w, e).reported ==
            if e.Acts? && e.action.FinishIt? && e.who < |w.spans| && Sampled(w.spans[e.who]) && e.who !in w.reported
            then w.reported + [e.who] else w.reported
  {
    hide StartSpan, ReportsOk;
    if e.Acts? && e.action.FinishIt? && e.who < |w.spans| {
      Bits(w.spans[e.who]);
      FinishedIffReported(w, e.who);
    }
  }

  lemma FinishedIffReported(w: World, i: nat)
    requires ReportsOk(w) && i < |w.spans|
    ensures i in w.reported <==> w.spans[i].finished
  {
    assert i in w.reported <==> i in multiset(w.reported);
  }

  /** The k-th call is a finish of this span, and the span is sampled at that moment. */
  predicate SampledFinish(cfg: Config, w: World, es: seq<Event>, k: nat, i: nat)
    requires k < |es|
  {
    es[k] == Acts(i, FinishIt) && i < |Exec(cfg, w, es[..k]).spans| && Sampled(Exec(cfg, w, es[..k]).spans[i])
  }

  /** In any run a span is reported if and only if some finish found it sampled; so a finish on a span that is not
      sampled reports nothing, and every finish on a sampled span has it reported. */
  lemma {:induction false} ReportedIff(cfg: Config, w: World, es: seq<Event>, i: nat)
    requires w.spans == [] && w.reported == []
    ensures i in Exec(cfg, w, es).reported <==> exists k: nat :: k < |es| && SampledFinish(cfg, w, es, k, i)
  {
    hide Step, ReportsOk, Sampled;
    if es != [] {
      var n := |es| - 1;
      var before := es[..n];
      ReportedIff(cfg, w, before, i);
      ReportedOnce(cfg, w, before);
      FinishReportsIff(cfg, Exec(cfg, w, before), es[n]);
      forall k: nat | k < n ensures SampledFinish(cfg, w, es, k, i) == SampledFinish(cfg, w, before, k, i) {
        assert before[..k] == es[..k];
      }
      if i in Exec(cfg, w, es).reported {
        if i in Exec(cfg, w, before).reported {
          var k: nat :| k < |before| && SampledFinish(cfg, w, before, k, i);
          assert SampledFinish(cfg, w, es, k, i);
        } else {
          assert SampledFinish(cfg, w, es, n, i);
        }
      }
      if k: nat :| k < |es| && SampledFinish(cfg, w, es, k, i) {
        if k < n { assert SampledFinish(cfg, w, before, k, i); }
      }
    }
  }

  /** The moment a span is reported: the first of its finishes that finds it sampled, and never again. */
  lemma {:induction false} ReportedAtFirst(cfg: Config, w: World, es: seq<Event>, k: nat, i: nat)
    requires w.spans == [] && w.reported == [] && k < |es| && SampledFinish(cfg, w, es, k, i)
    requires forall j: nat :: j < k ==> !SampledFinish(cfg, w, es, j, i)
    ensures i !in Exec(cfg, w, es[..k]).reported
    ensures Exec(cfg, w, es[..k + 1]).reported == Exec(cfg, w, es[..k]).reported + [i]
    ensures multiset(Exec(cfg, w, es).reported)[i] == 1
  {
    hide Step, ReportsOk, Sampled;
    var before := es[..k];
    assert es[..k + 1][..k] == before;
    ReportedIff(cfg, w, before, i);
    ReportedIff(cfg, w, es, i);
    ReportedOnce(cfg, w, before);
    ReportedOnce(cfg, w, es);
    forall j: nat | j < k ensures SampledFinish(cfg, w, before, j, i) == SampledFinish(cfg, w, es, j, i) {
      assert before[..j] == es[..j];
    }
    FinishReportsIff(cfg, Exec(cfg, w, before), es[k]);
    AtMostOneReport(Exec(cfg, w, es), i);
  }

  lemma AtMostOneReport(w: World, i: nat)
    requires ReportsOk(w)
    ensures multiset(w.reported)[i] == if i in w.reported then 1 else 0
  {
    assert i in w.reported <==> i in multiset(w.reported);
  }

  /** From finish to the agent: with the reporter fed by the tracer, a span is in a submitted batch only if some finish
      found it sampled. */
  lemma DeliveredWasSampled(cfg: Config, w: World, es: seq<Event>, c: R.Config, steps: seq<R.Step>, t: R.State, i: nat)
    requires w.spans == [] && w.reported == []
    requires R.ValidConfig(c) && R.Run(c, R.INITIAL, steps, t) && t.books.reported == Exec(cfg, w, es).reported
    requires i in R.Flatten(t.books.batches)
    ensures exists k: nat :: k < |es| && SampledFinish(cfg, w, es, k, i)
  {
    hide Exec, SampledFinish;
    ReportedIff(cfg, w, es, i);
    RT.AtMostOnce(c, steps, t, i);
    assert i in multiset(R.Flatten(t.books.batches));
    assert i in multiset(t.books.reported);
  }

  // ---------------------------------------------------------- asking the throttler

  /** Whether a debug span would be allowed now: there is no throttler, or it holds a whole credit. */
  predicate Allowed(gate: Gate, op: Op) {
    gate.Throttled? ==> op in gate.credits && gate.credits[op] >= 1.0
  }

  /** What asking does to the credits: a first request only registers the operation, one that is allowed costs one
      credit, and others cost nothing. */
  function Charged(gate: Gate, op: Op): Gate {
    if gate.Open? then Open
    else if op !in gate.credits then Throttled(gate.credits[op := 0.0])
    else if gate.credits[op] >= 1.0 then Throttled(gate.credits[op := gate.credits[op] - 1.0])
    else gate
  }

  lemma AskCharges(env: Env, op: Op)
    ensures var (after, ok) := AskDebug(env, op); ok == Allowed(env.gate, op) && after.gate == Charged(env.gate, op)
  {
  }

  // ----------------------------------------------------------- the priority tag

  /** The two bits cleared or set, and the others as they were. */
  predicate LowBits(before: int, after: int, bits: int) {
    after % 4 == bits && after / 4 == before / 4
  }

  /** What a priority does to a span, and what it answers. */
  predicate Prioritized(env: Env, s: Span, v: TagValue, o: Outcome) {
    var n := ToInt(v);
    if (Debug(s) && IsTrue(v)) || n.ValueError? then o == Outcome(env, s, Refused)
    else if n.TypeError? then o == Outcome(env, s, Raised)
    else if n == Number(0) then
      && o.env == env && o.verdict == Refused && BitsChanged(s, o.span, 0)
    else
      && o.env.gate == Charged(env.gate, Some(s.op))
      && if Allowed(env.gate, Some(s.op)) then o.verdict == Accepted && BitsChanged(s, o.span, 3)
         else o.verdict == Refused && o.span == s
  }

  /** Nothing but the two low bits of the flags. */
  predicate BitsChanged(s: Span, t: Span, bits: int) {
    && t.ctx.flags.Some? && LowBits(Flags(s), t.ctx.flags.value, bits)
    && t == s.(ctx := s.ctx.(flags := t.ctx.flags))
  }

  lemma PrioritySet(env: Env, s: Span, v: TagValue)
    ensures Prioritized(env, s, v, SetPriority(env, s, v))
  {
    hide ToInt, IsTrue, AskDebug, Charged, Allowed, HasDebug, Clear, SetBoth, LowBits, Debug;
    Bits(s);
    AskCharges(env, Some(s.op));
    TwoBits(Flags(s));
  }

  /** sampling.priority: refused on a debug span for a true value and for text that is no number, raising for a value
      that is none; zero takes both bits away without keeping the tag; any other number sets both bits and keeps the
      tag if the throttler allows it, which is charged, and does nothing to the span if not. */
  lemma PriorityTag(env: Env, s: Span, v: TagValue)
    ensures var o := SetTag(env, s, "sampling.priority", v);
            Prioritized(env, s, v, o.(span := o.span.(tags := s.tags)))
            && o.span.tags == s.tags + if o.verdict == Accepted then [Entry("sampling.priority", v)] else []
  {
    PrioritySet(env, s, v);
    var o := SetPriority(env, s, v);
    TagsUntouched(env, s, v, o);
    hide SetPriority, Prioritized, HasSampled;
    assert o.span.(tags := s.tags) == o.span;
  }

  lemma TagsUntouched(env: Env, s: Span, v: TagValue, o: Outcome)
    requires Prioritized(env, s, v, o)
    ensures o.span.tags == s.tags && (o.verdict == Accepted ==> HasSampled(Flags(o.span)))
  {
    hide ToInt, IsTrue, Allowed, Charged, Debug;
  }

  lemma TwoBits(flags: int)
    ensures LowBits(flags, Clear(flags), 0) && LowBits(flags, SetBoth(flags), 3)
  {
  }

  /** Any other tag is kept exactly on a sampled span and changes nothing else. */
  lemma OtherTag(env: Env, s: Span, key: string, v: TagValue)
    requires key != "sampling.priority"
    ensures SetTag(env, s, key, v) ==
            Outcome(env, if Sampled(s) then s.(tags := s.tags + [Entry(key, v)]) else s, Accepted)
  {
    Bits(s);
  }

  predicate NoPriority(tags: Tags) {
    forall i :: 0 <= i < |tags| ==> tags[i].key != "sampling.priority"
  }

  /** A new span keeps all the tags it is given if it is sampled, and none if it is not. */
  lemma {:induction false} TagsKept(env: Env, s: Span, tags: Tags)
    requires NoPriority(tags)
    ensures SetTags(env, s, tags) == Outcome(env, if Sampled(s) then s.(tags := s.tags + tags) else s, Accepted)
    decreases |tags|
  {
    hide SetTag;
    if tags == [] {
      assert s.tags + [] == s.tags;
    } else {
      var next := if Sampled(s) then s.(tags := s.tags + [tags[0]]) else s;
      OtherTag(env, s, tags[0].key, tags[0].value);
      TagsKept(env, next, tags[1..]);
      assert s.tags + [tags[0]] + tags[1..] == s.tags + tags;
    }
  }

  // ------------------------------------------------------------ the other calls

  /** Baggage goes into the context of every span, but is logged on sampled ones only, marked as overridden when there
      was a value before that was not empty. */
  lemma BaggageCall(s: Span, key: string, value: Option<HeaderValue>, other: string)
    requires DistinctKeys(s.ctx.baggage)
    ensures var t := SetBaggage(s, key, value);
            && Get(t.ctx.baggage, other) == (if other == key then value else Get(s.ctx.baggage, other))
            && t.ctx.traceId == s.ctx.traceId && t.ctx.spanId == s.ctx.spanId && t.ctx.flags == s.ctx.flags
            && t == s.(ctx := t.ctx, logs := t.logs)
            && t.logs == s.logs + if Sampled(s) then [BaggageSet(key, value, Meant(Get(s.ctx.baggage, key)))] else []
  {
    hide Get, Put, Pop;
    Bits(s);
    if value.Some? {
      GetPut(s.ctx.baggage, key, value.value, other);
    } else {
      GetPop(s.ctx.baggage, key, other);
    }
  }

  /** A call on one span leaves the others alone; a start adds one span unless a tag raises; a poll touches no span. */
  lemma OtherSpansStay(cfg: Config, w: World, e: Event, j: nat)
    requires j < |w.spans|
    ensures var t := Step(cfg, w, e);
            && j < |t.spans|
            && (!(e.Acts? && e.who == j) ==> t.spans[j] == w.spans[j])
            && (e.Acts? && e.who == j && e.action.FinishIt? ==>
                t.spans[j] == w.spans[j].(finished := w.spans[j].finished || Sampled(w.spans[j])) && t.env == w.env)
            && (e.Acts? && e.who == j && e.action.Rename? ==>
                t.spans[j] == w.spans[j].(op := e.action.op) && t.env == w.env)
            && (e.Acts? && e.who == j && e.action.LogIt? ==>
                t.env == w.env
                && t.spans[j] == w.spans[j].(logs := w.spans[j].logs +
                                               if Sampled(w.spans[j]) then [KeyValues(e.action.fields)] else []))
  {
    hide StartSpan, SetTag, SetBaggage;
    Bits(w.spans[j]);
  }

  /** A start adds one span, unless a tag raises; other calls add none. */
  lemma SpansAdded(cfg: Config, w: World, e: Event)
    ensures |Step(cfg, w, e).spans| ==
            |w.spans| + if e.Starts? && !StartSpan(w.env, cfg, e.request, e.draws).verdict.Raised? then 1 else 0
    ensures |Step(cfg, w, e).spans| > |w.spans| ==>
              Step(cfg, w, e).spans[|w.spans|] == StartSpan(w.env, cfg, e.request, e.draws).span
  {
    hide StartSpan, Act;
  }

  // ---------------------------------------------------------- starting a span

  /** A parent without a trace: no ids, zero ids, or no flags. */
  predicate NoTraceIn(p: SpanContext) {
    p.traceId.None? || p.traceId == Some(0) || p.spanId.None? || p.spanId == Some(0) || p.flags.None?
  }

  lemma HasTraceIff(p: SpanContext)
    ensures HasTrace(p) <==> !NoTraceIn(p)
  {
  }

  /** The tags of the request and of the sampler, which come later and win. */
  ghost predicate TagsAre(tags: Tags, given: Tags, more: Tags) {
    forall k :: Get(tags, k) == if Latest(more, k).Some? then Latest(more, k) else Get(given, k)
  }

  /** A new trace: fresh ids, no parent, no baggage, sampled as the sampler said, and with the sampler's tags when it
      said yes. */
  lemma NewTrace(env: Env, cfg: Config, r: Request, d: Draws)
    requires Parent(r).None?
    ensures var (env1, ctx, tags) := NewContext(env, cfg, r, d);
            && env1 == env
            && ctx == SpanContext(Some(d.traceId), Some(d.spanId), None, Some(if d.sampled then 1 else 0), [], None)
            && TagsAre(tags, r.tags, if d.sampled then d.samplerTags else [])
  {
    hide PutAll, Get;
    if d.sampled {
      forall k ensures Get(PutAll(r.tags, d.samplerTags), k) ==
                       if Latest(d.samplerTags, k).Some? then Latest(d.samplerTags, k) else Get(r.tags, k) {
        LastAssignmentCounts(r.tags, d.samplerTags, k);
      }
    }
  }

  /** A parent without a trace: fresh ids and its baggage. With a debug id that is not empty the throttler is asked,
      and if it allows a debug span the flags are SAMPLED + DEBUG and the debug id becomes a tag; else the flags are 0
      and the tags those given. */
  lemma DebugIdTrace(env: Env, cfg: Config, r: Request, d: Draws)
    requires Parent(r).Some? && NoTraceIn(Parent(r).value)
    ensures var (env1, ctx, tags) := NewContext(env, cfg, r, d);
            var p := Parent(r).value;
            var debug := Meant(p.debugId) && Allowed(env.gate, r.op);
            && env1.gate == (if Meant(p.debugId) then Charged(env.gate, r.op) else env.gate)
            && ctx == SpanContext(Some(d.traceId), Some(d.spanId), None, Some(if debug then 3 else 0), p.baggage, None)
            && (if debug then
                  forall k :: Get(tags, k) ==
                    if k == cfg.debugIdHeader then Some(DebugTag(p.debugId.value)) else Get(r.tags, k)
                else tags == r.tags)
  {
    hide Get, Put, AskDebug;
    AskCharges(env, r.op);
    var p := Parent(r).value;
    HasTraceIff(p);
    if Meant(p.debugId) {
      var v := DebugTag(p.debugId.value);
      forall k
        ensures Get(Put(r.tags, cfg.debugIdHeader, v), k) == if k == cfg.debugIdHeader then Some(v) else Get(r.tags, k)
      {
        GetPut(r.tags, cfg.debugIdHeader, v, k);
      }
    }
  }

  /** The tag value a debug id makes: its text. */
  function DebugTag(v: HeaderValue): TagValue {
    if v.Str? then StrV(v.s) else OtherV(true)
  }

  /** A child: its parent's trace, flags and baggage. Its own span id under the parent's, or, for a server span when a
      call shares one span, the parent's ids. */
  lemma ChildOfTrace(env: Env, cfg: Config, r: Request, d: Draws)
    requires Parent(r).Some? && !NoTraceIn(Parent(r).value)
    ensures var (env1, ctx, tags) := NewContext(env, cfg, r, d);
            var p := Parent(r).value;
            var shared := cfg.oneSpanPerRpc && Get(r.tags, "span.kind") == Some(StrV("server"));
            var parent := if shared then p.parentId else p.spanId;
            && env1 == env && tags == r.tags
            && ctx == SpanContext(p.traceId, if shared then p.spanId else Some(d.spanId),
                                  if parent == Some(0) then None else parent, p.flags, p.baggage, None)
  {
    HasTraceIff(Parent(r).value);
    hide Parent, Get;
  }

  /** The span start_span returns, when no tag is a sampling priority: it has the new context and the operation's name,
      or none, and all the tags of that context if it is sampled, else none. */
  lemma StartedSpan(env: Env, cfg: Config, r: Request, d: Draws)
    requires NoPriority(NewContext(env, cfg, r, d).2)
    ensures var (env1, ctx, tags) := NewContext(env, cfg, r, d);
            var o := StartSpan(env, cfg, r, d);
            && o.env == env1 && o.verdict == Accepted
            && o.span == Span(ctx, if r.op.Some? then r.op.value else "", false,
                              if Sampled(o.span) then tags else [], [], ValidReferences(r.references))
  {
    hide NewContext, SetTags, ValidReferences;
    var (env1, ctx, tags) := NewContext(env, cfg, r, d);
    TagsKept(env1, Span(ctx, if r.op.None? then "" else r.op.value, false, [], [], ValidReferences(r.references)),
             tags);
    assert [] + tags == tags;
  }

  /** The references with a context are kept, in order, and no others. */
  lemma {:induction false} ValidReferencesAdd(a: seq<Option<SpanContext>>, b: seq<Option<SpanContext>>)
    ensures ValidReferences(a + b) == ValidReferences(a) + ValidReferences(b)
  {
    if a == [] {
      assert a + b == b;
    } else {
      var first := if a[0].Some? then [a[0].value] else [];
      assert (a + b)[1..] == a[1..] + b;
      ValidReferencesAdd(a[1..], b);
      Associate(first, ValidReferences(a[1..]), ValidReferences(b));
    }
  }

  lemma Associate(a: seq<SpanContext>, b: seq<SpanContext>, c: seq<SpanContext>)
    ensures a + (b + c) == (a + b) + c
  {
  }

  lemma OneReference(r: Option<SpanContext>)
    ensures ValidReferences([r]) == if r.Some? then [r.value] else []
  {
    assert [r][1..] == [];
  }

  // --------------------------------------------------------- numbers from values

  /** n cut off toward zero. */
  predicate Truncates(r: real, n: int) {
    if r >= 0.0 then n as real <= r < n as real + 1.0 else n as real - 1.0 < r <= n as real && n <= 0
  }

  lemma NumbersAndTruth(v: TagValue)
    ensures v.IntV? ==> ToInt(v) == Number(v.n)
    ensures v.BoolV? ==> ToInt(v) == Number(if v.b then 1 else 0)
    ensures v.RealV? ==> ToInt(v).Number? && Truncates(v.r, ToInt(v).n)
    ensures v.NoneV? || v.OtherV? ==> ToInt(v) == TypeError
    ensures IsTrue(v) <==> v !in {IntV(0), BoolV(false), RealV(0.0), StrV(""), NoneV, OtherV(false)}
  {
  }

  function Decimal(n: nat): (s: string)
    ensures s != "" && forall c :: c in s ==> '0' <= c <= '9'
  {
    var digit := [('0' as int + n % 10) as char];
    if n < 10 then digit else Decimal(n / 10) + digit
  }

  lemma {:induction false} DecimalParses(n: nat)
    ensures ParseDecimal(Decimal(n)) == Some(n)
  {
    var s := Decimal(n);
    if n >= 10 {
      DecimalParses(n / 10);
      assert s[..|s| - 1] == Decimal(n / 10) && s[|s| - 2] in Decimal(n / 10);
    }
  }

  /** A number written out in decimal, with or without a sign and with blanks around it, converts to itself. */
  lemma DecimalConverts(before: string, n: nat, after: string)
    requires Hex.Blank(before) && Hex.Blank(after)
    ensures ToInt(StrV(before + Decimal(n) + after)) == Number(n)
    ensures ToInt(StrV(before + ("+" + Decimal(n)) + after)) == Number(n)
    ensures ToInt(StrV(before + ("-" + Decimal(n)) + after)) == Number(0 - n)
  {
    hide ParseDecimal, Decimal, Hex.TrimLeft, Hex.TrimRight;
    DecimalParses(n);
    var s := Decimal(n);
    assert s[0] in s && s[|s| - 1] in s;
    Hex.Trimmed(before, s, after);
    Hex.Trimmed(before, "+" + s, after);
    Hex.Trimmed(before, "-" + s, after);
    assert ("+" + s)[1..] == s && ("-" + s)[1..] == s;
  }

  /** Decimal digits with single underscores between them. */
  predicate Grouped(s: string) {
    && s != "" && s[0] != '_' && s[|s| - 1] != '_'
    && (forall i :: 0 <= i < |s| ==> s[i] == '_' || '0' <= s[i] <= '9')
    && forall i :: 0 < i < |s| ==> !(s[i - 1] == '_' && s[i] == '_')
  }

  lemma {:induction false} DecimalIff(s: string)
    ensures ParseDecimal(s).Some? <==> Grouped(s)
    decreases |s|
  {
    if |s| >= 2 && '0' <= s[|s| - 1] <= '9' {
      var init := if s[|s| - 2] == '_' then s[..|s| - 2] else s[..|s| - 1];
      DecimalIff(init);
      if Grouped(s) {
        assert s[|s| - 2] == '_' ==> |s| >= 3 && s[|s| - 3] != '_';
        assert Grouped(init);
      }
      if Grouped(init) {
        forall i | 0 <= i < |s| ensures s[i] == '_' || '0' <= s[i] <= '9' {
          if i < |init| { assert s[i] == init[i]; }
        }
        forall i | 0 < i < |s| ensures !(s[i - 1] == '_' && s[i] == '_') {
          if i < |init| { assert s[i] == init[i] && s[i - 1] == init[i - 1]; }
        }
      }
    }
  }
}
