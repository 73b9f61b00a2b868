/** Spans and the tracer on values: tags, the sampling.priority tag, finishing, and starting a span. */
module Tracing {
  import opened Prelude
  import opened Hex
  import opened Dict
  import opened ContextString
  import opened SpanContexts
  import opened Throttling

  const SAMPLING_PRIORITY := "sampling.priority"
  const SPAN_KIND := "span.kind"
  const SPAN_KIND_RPC_SERVER := "server"

  // --------------------------------------------------------------------- values

  datatype TagValue = IntV(n: int) | BoolV(b: bool) | RealV(r: real) | StrV(s: string) | NoneV | OtherV(truthy: bool)

  type Tags = seq<Entry<string, TagValue>>

  /** bool(value) */
  predicate IsTrue(v: TagValue) {
    match v
    case IntV(n) => n != 0
    case BoolV(b) => b
    case RealV(r) => r != 0.0
    case StrV(s) => s != ""
    case NoneV => false
    case OtherV(truthy) => truthy
  }

  /** Decimal digits with single underscores between them. */
  function ParseDecimal(s: string): Option<nat> {
    if s == "" || !('0' <= s[|s| - 1] <= '9') then None
    else
      var d := s[|s| - 1] as int - '0' as int;
      if |s| == 1 then Some(d)
      else
        var high := ParseDecimal(if s[|s| - 2] == '_' then s[..|s| - 2] else s[..|s| - 1]);
        if high.None? then None else Some(high.value * 10 + d)
  }

  datatype Conversion = Number(n: int) | ValueError | TypeError

  function TextToInt(text: string): Conversion {
    var s := TrimRight(TrimLeft(text));
    var signed := s != "" && (s[0] == '-' || s[0] == '+');
    var n := ParseDecimal(if signed then s[1..] else s);
    if n.None? then ValueError
    else
      var k: int := n.value;
      Number(if signed && s[0] == '-' then -k else k)
  }

  /** int(value) */
  function ToInt(v: TagValue): Conversion {
    match v
    case IntV(n) => Number(n)
    case BoolV(b) => Number(if b then 1 else 0)
    case RealV(r) => Number(if r >= 0.0 then r.Floor else -((-r).Floor))
    case StrV(s) => TextToInt(s)
    case NoneV => TypeError
    case OtherV(_) => TypeError
  }

  /** A value that converts to a number other than zero is true. */
  lemma NonzeroIsTrue(v: TagValue)
    ensures ToInt(v).Number? && ToInt(v).n != 0 ==> IsTrue(v)
  {
  }

  // ---------------------------------------------------------------- environment

  /** tracer.throttler, if there is one. */
  datatype Gate = Open | Throttled(credits: Credits)

  /** gains: the requests after which a span that was not a debug span became one. */
  datatype Env = Env(gate: Gate, calls: seq<Call>, gains: seq<Op>)

  /** is_debug_allowed */
  function AskDebug(env: Env, op: Op): (Env, bool) {
    match env.gate
    case Open => (env, true)
    case Throttled(credits) =>
      var (after, ok) := Ask(credits, op);
      (env.(gate := Throttled(after), calls := env.calls + [Asks(op)]), ok)
  }

  function Gained(env: Env, op: Op, already: bool): Env {
    if already then env else env.(gains := env.gains + [op])
  }

  function Poll(env: Env, balances: seq<Received>): Env {
    match env.gate
    case Open => env
    case Throttled(credits) =>
      env.(gate := Throttled(Update(credits, balances).0), calls := env.calls + [Updates(balances)])
  }

  // ---------------------------------------------------------------------- spans

  datatype Log = KeyValues(fields: Tags) | BaggageSet(key: string, value: Option<HeaderValue>, overridden: bool)

  datatype Span = Span(
    ctx: SpanContext, op: string, finished: bool, tags: Tags, logs: seq<Log>, references: seq<SpanContext>)

  function Flags(s: Span): int {
    OrZero(s.ctx.flags)
  }

  function WithFlags(s: Span, flags: int): Span {
    s.(ctx := s.ctx.(flags := Some(flags)))
  }

  function Clear(flags: int): int {
    flags - flags % 4
  }

  function SetBoth(flags: int): int {
    flags - flags % 4 + SAMPLED_FLAG + DEBUG_FLAG
  }

  datatype Verdict = Accepted | Refused | Raised

  datatype Outcome = Outcome(env: Env, span: Span, verdict: Verdict)

  /** _set_sampling_priority */
  function SetPriority(env: Env, s: Span, v: TagValue): Outcome {
    if HasDebug(Flags(s)) && IsTrue(v) then Outcome(env, s, Refused)
    else
      match ToInt(v)
      case ValueError => Outcome(env, s, Refused)
      case TypeError => Outcome(env, s, Raised)
      case Number(n) =>
        if n == 0 then Outcome(env, WithFlags(s, Clear(Flags(s))), Refused)
        else
          var (after, ok) := AskDebug(env, Some(s.op));
          if ok then Outcome(Gained(after, Some(s.op), HasDebug(Flags(s))), WithFlags(s, SetBoth(Flags(s))), Accepted)
          else Outcome(after, s, Refused)
  }

  /** set_tag */
  function SetTag(env: Env, s: Span, key: string, v: TagValue): Outcome {
    var o := if key == SAMPLING_PRIORITY then SetPriority(env, s, v) else Outcome(env, s, Accepted);
    if o.verdict.Accepted? && HasSampled(Flags(o.span))
    then o.(span := o.span.(tags := o.span.tags + [Entry(key, v)]))
    else o
  }

  /** The tags given to the constructor, up to the first that raises. */
  function SetTags(env: Env, s: Span, tags: Tags): Outcome
    decreases |tags|
  {
    if tags == [] then Outcome(env, s, Accepted)
    else
      var o := SetTag(env, s, tags[0].key, tags[0].value);
      if o.verdict.Raised? then o else SetTags(o.env, o.span, tags[1..])
  }

  /** finish: whether the span is handed to the reporter. */
  predicate Reports(s: Span) {
    HasSampled(Flags(s)) && !s.finished
  }

  function Finish(s: Span): Span {
    if Reports(s) then s.(finished := true) else s
  }

  function LogKv(s: Span, log: Log): Span {
    if HasSampled(Flags(s)) then s.(logs := s.logs + [log]) else s
  }

  /** set_baggage_item */
  function SetBaggage(s: Span, key: string, value: Option<HeaderValue>): Span {
    LogKv(s.(ctx := WithBaggageItem(s.ctx, key, value)), BaggageSet(key, value, TruthyText(Get(s.ctx.baggage, key))))
  }

  // ------------------------------------------------------------------ start_span

  datatype Config = Config(oneSpanPerRpc: bool, debugIdHeader: string)

  /** The arguments of start_span; a span given as parent stands for its context. */
  datatype Request = Request(
    op: Op, childOf: Option<SpanContext>, active: Option<SpanContext>, ignoreActive: bool,
    references: seq<Option<SpanContext>>, tags: Tags)

  /** What start_span draws: random ids and, for a new trace, the sampler's decision. */
  datatype Draws = Draws(traceId: nat, spanId: nat, sampled: bool, samplerTags: Tags)

  function ValidReferences(rs: seq<Option<SpanContext>>): (r: seq<SpanContext>)
    ensures forall c :: c in r ==> Some(c) in rs
  {
    if rs == [] then [] else (if rs[0].Some? then [rs[0].value] else []) + ValidReferences(rs[1..])
  }

  /** child_of, else the active span; the first reference replaces a parent without a trace. */
  function Parent(r: Request): Option<SpanContext> {
    var p := if r.childOf.None? && r.active.Some? && !r.ignoreActive then r.active else r.childOf;
    var valid := ValidReferences(r.references);
    if valid != [] && (p.None? || !HasTrace(p.value)) then Some(valid[0]) else p
  }

  /** Who becomes the parent: child_of when it has a trace; else, with no child_of, the active span when it has one and
      is not to be ignored; else the first reference that has a context; else what child_of or the active span was. */
  lemma ParentOrder(r: Request)
    ensures r.childOf.Some? && HasTrace(r.childOf.value) ==> Parent(r) == r.childOf
    ensures r.childOf.None? && !r.ignoreActive && r.active.Some? && HasTrace(r.active.value) ==> Parent(r) == r.active
    ensures !OwnTrace(r) ==>
              forall k :: 0 <= k < |r.references| && r.references[k].Some? && FirstContext(r.references, k) ==>
                Parent(r) == r.references[k]
    ensures !OwnTrace(r) && FirstContext(r.references, |r.references|) ==>
              Parent(r) == if r.childOf.Some? then r.childOf else if r.ignoreActive then None else r.active
  {
    forall k | 0 <= k <= |r.references| && FirstContext(r.references, k) &&
               (k < |r.references| ==> r.references[k].Some?)
      ensures if k == |r.references| then ValidReferences(r.references) == []
              else ValidReferences(r.references) != [] && Some(ValidReferences(r.references)[0]) == r.references[k]
    {
      FirstValid(r.references, k);
    }
  }

  /** child_of, or the active span in its place, has a trace. */
  predicate OwnTrace(r: Request) {
    if r.childOf.Some? then HasTrace(r.childOf.value)
    else !r.ignoreActive && r.active.Some? && HasTrace(r.active.value)
  }

  /** No reference before this one has a context. */
  predicate FirstContext(rs: seq<Option<SpanContext>>, k: nat)
    requires k <= |rs|
  {
    forall j :: 0 <= j < k ==> rs[j].None?
  }

  lemma {:induction false} FirstValid(rs: seq<Option<SpanContext>>, k: nat)
    requires k <= |rs| && FirstContext(rs, k) && (k < |rs| ==> rs[k].Some?)
    ensures if k == |rs| then ValidReferences(rs) == []
            else ValidReferences(rs) != [] && Some(ValidReferences(rs)[0]) == rs[k]
  {
    if k > 0 {
      assert rs[0].None?;
      FirstValid(rs[1..], k - 1);
    }
  }

  predicate IsRpcServer(tags: Tags) {
    Get(tags, SPAN_KIND) == Some(StrV(SPAN_KIND_RPC_SERVER))
  }

  function TagOf(v: HeaderValue): TagValue {
    if v.Str? then StrV(v.s) else OtherV(true)
  }

  /** The context of a new span, the tags to set on it, and the environment after a debug-id request. */
  function NewContext(env: Env, cfg: Config, r: Request, d: Draws): (Env, SpanContext, Tags) {
    var p := Parent(r);
    if p.None? then
      (env, Make(Some(d.traceId), Some(d.spanId), None, Some(if d.sampled then SAMPLED_FLAG else 0), [], None),
       if d.sampled then PutAll(r.tags, d.samplerTags) else r.tags)
    else if !HasTrace(p.value) then
      var (after, ok) := if TruthyText(p.value.debugId) then AskDebug(env, r.op) else (env, false);
      (if ok then Gained(after, r.op, false) else after,
       Make(Some(d.traceId), Some(d.spanId), None, Some(if ok then SAMPLED_FLAG + DEBUG_FLAG else 0), p.value.baggage,
            None),
       if ok then Put(r.tags, cfg.debugIdHeader, TagOf(p.value.debugId.value)) else r.tags)
    else
      var same := IsRpcServer(r.tags) && cfg.oneSpanPerRpc;
      (env,
       Make(p.value.traceId, if same then p.value.spanId else Some(d.spanId),
            if same then p.value.parentId else p.value.spanId,
            p.value.flags, p.value.baggage, None),
       r.tags)
  }

  /** start_span; a tag whose value cannot be converted raises. */
  function StartSpan(env: Env, cfg: Config, r: Request, d: Draws): Outcome {
    var (env1, ctx, tags) := NewContext(env, cfg, r, d);
    SetTags(env1, Span(ctx, if r.op.None? then "" else r.op.value, false, [], [], ValidReferences(r.references)), tags)
  }

  /** A child stays in its parent's trace with its flags and baggage, whatever the draws, and is not charged. */
  lemma ChildInherits(env: Env, cfg: Config, r: Request, d: Draws)
    requires Parent(r).Some? && HasTrace(Parent(r).value) && Parent(r).value.parentId != Some(0)
    ensures var (env1, ctx, tags) := NewContext(env, cfg, r, d);
            var p := Parent(r).value;
            && env1 == env && tags == r.tags
            && ctx.traceId == p.traceId && ctx.flags == p.flags && ctx.baggage == p.baggage && ctx.debugId == None
            && (if IsRpcServer(r.tags) && cfg.oneSpanPerRpc then ctx.spanId == p.spanId && ctx.parentId == p.parentId
                else ctx.spanId == Some(d.spanId) && ctx.parentId == p.spanId)
  {
  }

  // ------------------------------------------------------------------- the world

  datatype World = World(env: Env, spans: seq<Span>, reported: seq<nat>)

  /** Calls on a span. */
  datatype Action =
    | TagIt(key: string, value: TagValue)
    | BaggageIt(item: string, content: Option<HeaderValue>)
    | Rename(op: string)
    | LogIt(fields: Tags)
    | FinishIt

  /** Calls on the tracer, on one of its spans, or from the throttling service. */
  datatype Event =
    | Starts(request: Request, draws: Draws)
    | Acts(who: nat, action: Action)
    | Polled(balances: seq<Received>)

  function Act(env: Env, s: Span, a: Action): Outcome {
    match a
    case TagIt(key, v) => SetTag(env, s, key, v)
    case BaggageIt(item, content) => Outcome(env, SetBaggage(s, item, content), Accepted)
    case Rename(op) => Outcome(env, s.(op := op), Accepted)
    case LogIt(fields) => Outcome(env, LogKv(s, KeyValues(fields)), Accepted)
    case FinishIt => Outcome(env, Finish(s), Accepted)
  }

  /** One call; calls on spans that were never started do not happen. */
  function Step(cfg: Config, w: World, e: Event): World {
    match e
    case Starts(r, d) =>
      var o := StartSpan(w.env, cfg, r, d);
      World(o.env, if o.verdict.Raised? then w.spans else w.spans + [o.span], w.reported)
    case Polled(balances) => w.(env := Poll(w.env, balances))
    case Acts(i, a) =>
      if i >= |w.spans| then w
      else
        var o := Act(w.env, w.spans[i], a);
        World(o.env, w.spans[i := o.span],
              if a.FinishIt? && Reports(w.spans[i]) then w.reported + [i] else w.reported)
  }

  function Exec(cfg: Config, w: World, es: seq<Event>): World {
    if es == [] then w else Step(cfg, Exec(cfg, w, es[..|es| - 1]), es[|es| - 1])
  }

  const THROTTLED := World(Env(Throttled(map[]), [], []), [], [])
}
