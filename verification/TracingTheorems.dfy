/** Runs of the tracer: what debug spans cost, and how often a span is reported. */
module TracingTheorems {
  import opened Prelude
  import opened Dict
  import opened SpanContexts
  import opened Throttling
  import opened Tracing
  import R = ReporterProtocol
  import RT = ReporterTheorems

  // ------------------------------------------------------------ the debug ledger

  /** The throttler's credits follow its history of calls, and each grant made one span a debug span. */
  ghost predicate LedgerOk(env: Env) {
    env.gate.Throttled? ==>
      && env.gate.credits == Final(env.calls)
      && forall op: Op :: multiset(env.gains)[op] == Grants(env.calls, op)
  }

  /** What calls on spans do to the environment: the books stay right and no credits arrive. */
  ghost predicate Follows(a: Env, b: Env) {
    && (LedgerOk(a) ==> LedgerOk(b))
    && b.gate.Throttled? == a.gate.Throttled?
    && (forall op: Op :: ReceivedFor(b.calls, op) == ReceivedFor(a.calls, op))
    && (NonNegative(a.calls) ==> NonNegative(b.calls))
  }

  lemma CallsAppend(calls: seq<Call>, call: Call, op: Op)
    ensures var all := calls + [call];
            && ReceivedFor(all, op) == ReceivedFor(calls, op)
               + (if call.Updates? then Amounts(call.balances, op) else 0.0)
            && Grants(all, op) == Grants(calls, op) + (if call == Asks(op) && Ask(Final(calls), op).1 then 1 else 0)
            && Final(all) == if call.Asks? then Ask(Final(calls), call.op).0 else Update(Final(calls), call.balances).0
  {
  }

  lemma AskFollows(env: Env, op: Op)
    ensures var (after, ok) := AskDebug(env, op);
            Follows(env, if ok then Gained(after, op, false) else after)
  {
  }

  lemma FollowsTransitive(a: Env, b: Env, c: Env)
    requires Follows(a, b) && Follows(b, c)
    ensures Follows(a, c)
  {
  }

  lemma FollowsSelf(a: Env)
    ensures Follows(a, a)
  {
  }

  lemma PriorityFollows(env: Env, s: Span, v: TagValue)
    ensures Follows(env, SetPriority(env, s, v).env)
  {
    hide Follows, AskDebug, ToInt, IsTrue;
    NonzeroIsTrue(v);
    AskFollows(env, Some(s.op));
    FollowsSelf(env);
  }

  lemma TagFollows(env: Env, s: Span, key: string, v: TagValue)
    ensures Follows(env, SetTag(env, s, key, v).env)
  {
    hide Follows, SetPriority;
    PriorityFollows(env, s, v);
    FollowsSelf(env);
  }

  lemma {:induction false} TagsFollow(env: Env, s: Span, tags: Tags)
    ensures Follows(env, SetTags(env, s, tags).env)
    decreases |tags|
  {
    hide Follows, SetTag;
    if tags == [] {
      FollowsSelf(env);
    } else {
      var o := SetTag(env, s, tags[0].key, tags[0].value);
      TagFollows(env, s, tags[0].key, tags[0].value);
      if !o.verdict.Raised? {
        TagsFollow(o.env, o.span, tags[1..]);
        FollowsTransitive(env, o.env, SetTags(o.env, o.span, tags[1..]).env);
      }
    }
  }

  lemma StartFollows(env: Env, cfg: Config, r: Request, d: Draws)
    ensures Follows(env, StartSpan(env, cfg, r, d).env)
  {
    hide Follows, AskDebug, SetTags, Parent, PutAll, Put, Get;
    var (env1, ctx, tags) := NewContext(env, cfg, r, d);
    AskFollows(env, r.op);
    FollowsSelf(env);
    assert Follows(env, env1);
    var s := Span(ctx, if r.op.None? then "" else r.op.value, false, [], [], ValidReferences(r.references));
    TagsFollow(env1, s, tags);
    FollowsTransitive(env, env1, SetTags(env1, s, tags).env);
  }

  lemma ActFollows(env: Env, s: Span, a: Action)
    ensures Follows(env, Act(env, s, a).env)
  {
    hide Follows, SetTag;
    if a.TagIt? { TagFollows(env, s, a.key, a.value); }
    FollowsSelf(env);
  }

  /** Credits a run polled for an operation. */
  function PolledFor(es: seq<Event>, op: Op): real {
    if es == [] then 0.0
    else
      var last := es[|es| - 1];
      PolledFor(es[..|es| - 1], op) + if last.Polled? then Amounts(last.balances, op) else 0.0
  }

  predicate NonNegativePolls(es: seq<Event>) {
    forall i, j :: 0 <= i < |es| && es[i].Polled? && 0 <= j < |es[i].balances| && es[i].balances[j].Balance? ==>
      es[i].balances[j].amount >= 0.0
  }

  lemma PollAdds(env: Env, balances: seq<Received>)
    requires env.gate.Throttled? && LedgerOk(env)
    ensures var after := Poll(env, balances);
            && LedgerOk(after) && after.gate.Throttled?
            && forall op: Op :: ReceivedFor(after.calls, op) == ReceivedFor(env.calls, op) + Amounts(balances, op)
  {
    hide Final, Grants, ReceivedFor, Amounts, Update;
    var after := Poll(env, balances);
    forall o: Op
      ensures ReceivedFor(after.calls, o) == ReceivedFor(env.calls, o) + Amounts(balances, o)
      ensures Grants(after.calls, o) == Grants(env.calls, o)
    {
      CallsAppend(env.calls, Updates(balances), o);
    }
    CallsAppend(env.calls, Updates(balances), None);
  }

  lemma StepFollows(cfg: Config, w: World, e: Event)
    requires !e.Polled?
    ensures Follows(w.env, Step(cfg, w, e).env)
  {
    hide Follows, StartSpan, Act;
    FollowsSelf(w.env);
    match e
    case Starts(r, d) => StartFollows(w.env, cfg, r, d);
    case Acts(i, a) => if i < |w.spans| { ActFollows(w.env, w.spans[i], a); }
    case Polled(_) =>
  }

  lemma {:induction false} ExecLedger(cfg: Config, es: seq<Event>)
    ensures var env := Exec(cfg, THROTTLED, es).env;
            && env.gate.Throttled? && LedgerOk(env)
            && (forall op: Op :: ReceivedFor(env.calls, op) == PolledFor(es, op))
            && (NonNegativePolls(es) ==> NonNegative(env.calls))
  {
    hide LedgerOk, ReceivedFor, Step;
    if es == [] {
      EmptyLedger();
    } else {
      var before, e := es[..|es| - 1], es[|es| - 1];
      ExecLedger(cfg, before);
      var w := Exec(cfg, THROTTLED, before);
      assert NonNegativePolls(es) ==> NonNegativePolls(before) by {
        forall i | 0 <= i < |before| ensures before[i] == es[i] {}
      }
      if e.Polled? {
        PollAdds(w.env, e.balances);
        PolledStep(cfg, w, e.balances);
        if NonNegativePolls(es) { PollNonNegative(w.env, e.balances); }
      } else {
        StepFollows(cfg, w, e);
      }
    }
  }

  lemma PolledStep(cfg: Config, w: World, balances: seq<Received>)
    ensures Step(cfg, w, Polled(balances)).env == Poll(w.env, balances)
  {
  }

  lemma PollNonNegative(env: Env, balances: seq<Received>)
    requires env.gate.Throttled? && NonNegative(env.calls)
    requires forall j :: 0 <= j < |balances| && balances[j].Balance? ==> balances[j].amount >= 0.0
    ensures NonNegative(Poll(env, balances).calls)
  {
  }

  lemma EmptyLedger()
    ensures LedgerOk(THROTTLED.env) && forall op: Op :: ReceivedFor(THROTTLED.env.calls, op) == 0.0
  {
  }

  // ------------------------------------------------- spans turning debug spans

  /** The parent a caller passes is a debug span's context. */
  predicate ForeignDebug(r: Request) {
    var p := Parent(r);
    p.Some? && HasTrace(p.value) && HasDebug(p.value.flags.value)
  }

  lemma AskKeepsGains(env: Env, op: Op)
    ensures AskDebug(env, op).0.gains == env.gains
  {
  }

  /** The operation a tag call is charged to, if the call turns a span that is no debug span into one. */
  function TurnedByTag(env: Env, s: Span, key: string, v: TagValue): seq<Op> {
    if !HasDebug(Flags(s)) && HasDebug(Flags(SetTag(env, s, key, v).span)) then [Some(s.op)] else []
  }

  function TurnedByTags(env: Env, s: Span, tags: Tags): seq<Op>
    decreases |tags|
  {
    if tags == [] then []
    else
      var o := SetTag(env, s, tags[0].key, tags[0].value);
      TurnedByTag(env, s, tags[0].key, tags[0].value)
      + if o.verdict.Raised? then [] else TurnedByTags(o.env, o.span, tags[1..])
  }

  /** A new span is a debug span from the start by inheritance or by a debug id; only the latter turns it into one. */
  function TurnedByStart(env: Env, cfg: Config, r: Request, d: Draws): seq<Op> {
    var (env1, ctx, tags) := NewContext(env, cfg, r, d);
    var s := Span(ctx, if r.op.None? then "" else r.op.value, false, [], [], ValidReferences(r.references));
    (if HasDebug(Flags(s)) && !ForeignDebug(r) then [r.op] else []) + TurnedByTags(env1, s, tags)
  }

  function TurnedBy(cfg: Config, w: World, e: Event): seq<Op> {
    match e
    case Starts(r, d) => TurnedByStart(w.env, cfg, r, d)
    case Polled(_) => []
    case Acts(i, a) => if i < |w.spans| && a.TagIt? then TurnedByTag(w.env, w.spans[i], a.key, a.value) else []
  }

  /** Every time in a run that a span turned into a debug span. */
  function Turned(cfg: Config, w: World, es: seq<Event>): seq<Op> {
    if es == [] then []
    else Turned(cfg, w, es[..|es| - 1]) + TurnedBy(cfg, Exec(cfg, w, es[..|es| - 1]), es[|es| - 1])
  }

  /** set_tag records a gain if and only if it turns the span into a debug span. */
  lemma TagGainsExactly(env: Env, s: Span, key: string, v: TagValue)
    ensures SetTag(env, s, key, v).env.gains == env.gains + TurnedByTag(env, s, key, v)
  {
    NonzeroIsTrue(v);
    AskKeepsGains(env, Some(s.op));
  }

  lemma {:induction false} TagsGainExactly(env: Env, s: Span, tags: Tags)
    ensures SetTags(env, s, tags).env.gains == env.gains + TurnedByTags(env, s, tags)
    decreases |tags|
  {
    hide SetTag, TurnedByTag;
    if tags != [] {
      var o := SetTag(env, s, tags[0].key, tags[0].value);
      TagGainsExactly(env, s, tags[0].key, tags[0].value);
      if !o.verdict.Raised? { TagsGainExactly(o.env, o.span, tags[1..]); }
    }
  }

  lemma StartGainsExactly(env: Env, cfg: Config, r: Request, d: Draws)
    ensures StartSpan(env, cfg, r, d).env.gains == env.gains + TurnedByStart(env, cfg, r, d)
  {
    hide SetTags, TurnedByTags, PutAll, Put, Get, AskDebug, Parent;
    var (env1, ctx, tags) := NewContext(env, cfg, r, d);
    AskKeepsGains(env, r.op);
    var s := Span(ctx, if r.op.None? then "" else r.op.value, false, [], [], ValidReferences(r.references));
    TagsGainExactly(env1, s, tags);
  }

  lemma StepGainsExactly(cfg: Config, w: World, e: Event)
    ensures Step(cfg, w, e).env.gains == w.env.gains + TurnedBy(cfg, w, e)
  {
    hide StartSpan, SetTag, TurnedByStart, TurnedByTag;
    match e
    case Starts(r, d) => StartGainsExactly(w.env, cfg, r, d);
    case Acts(i, a) =>
      if i < |w.spans| && a.TagIt? { TagGainsExactly(w.env, w.spans[i], a.key, a.value); }
    case Polled(_) =>
  }

  /** In any run the recorded gains are exactly the times a span turned into a debug span, in order. */
  lemma {:induction false} GainsAreTurns(cfg: Config, w: World, es: seq<Event>)
    ensures Exec(cfg, w, es).env.gains == w.env.gains + Turned(cfg, w, es)
  {
    hide Step, TurnedBy;
    if es != [] {
      GainsAreTurns(cfg, w, es[..|es| - 1]);
      StepGainsExactly(cfg, Exec(cfg, w, es[..|es| - 1]), es[|es| - 1]);
    }
  }

  /** Behind a throttler, in any run: for each operation the current credits and the times a span turned into a debug
      span add up to the balances polled; with no negative balance they number at most the whole credits polled. */
  lemma DebugBudget(cfg: Config, es: seq<Event>, op: Op)
    ensures var env, turned := Exec(cfg, THROTTLED, es).env, Turned(cfg, THROTTLED, es);
            && env.gate.Throttled? && env.gains == turned
            && Credit(env.gate.credits, op) + multiset(turned)[op] as real == PolledFor(es, op)
            && (NonNegativePolls(es) ==> multiset(turned)[op] <= PolledFor(es, op).Floor)
  {
    hide Exec, Final, Grants, ReceivedFor, NonNegative, NonNegativePolls, Turned;
    GainsAreTurns(cfg, THROTTLED, es);
    assert [] + Turned(cfg, THROTTLED, es) == Turned(cfg, THROTTLED, es);
    ExecLedger(cfg, es);
    var env := Exec(cfg, THROTTLED, es).env;
    CreditConservation(env.calls, op);
    if NonNegativePolls(es) { GrantsWithinReceived(env.calls, op); }
  }

  /** No tag on a span that already is a debug span asks the throttler for anything. */
  lemma DebugSpanNeverCharged(env: Env, s: Span, key: string, v: TagValue)
    requires HasDebug(Flags(s))
    ensures SetTag(env, s, key, v).env == env
  {
  }

  // ------------------------------------------------------- debug needs a grant

  /** No span is a debug span until one gains the flag, unless a caller passes a debug parent. */
  predicate DebugOnlyByGain(env: Env, spans: seq<Span>) {
    (exists i :: 0 <= i < |spans| && HasDebug(Flags(spans[i]))) ==> env.gains != []
  }

  predicate GainExplains(before: Env, was: bool, after: Outcome) {
    && |after.env.gains| >= |before.gains|
    && (HasDebug(Flags(after.span)) && !was ==> |after.env.gains| > |before.gains|)
  }

  lemma TagGain(env: Env, s: Span, key: string, v: TagValue)
    ensures GainExplains(env, HasDebug(Flags(s)), SetTag(env, s, key, v))
  {
  }

  lemma {:induction false} TagsGain(env: Env, s: Span, tags: Tags)
    ensures GainExplains(env, HasDebug(Flags(s)), SetTags(env, s, tags))
    decreases |tags|
  {
    hide SetTag, HasDebug;
    if tags != [] {
      var o := SetTag(env, s, tags[0].key, tags[0].value);
      TagGain(env, s, tags[0].key, tags[0].value);
      if !o.verdict.Raised? { TagsGain(o.env, o.span, tags[1..]); }
    }
  }

  lemma StartGain(env: Env, cfg: Config, r: Request, d: Draws)
    ensures GainExplains(env, ForeignDebug(r), StartSpan(env, cfg, r, d))
  {
    hide SetTags, PutAll, Put, Get, AskDebug, Parent;
    var (env1, ctx, tags) := NewContext(env, cfg, r, d);
    AskKeepsGains(env, r.op);
    var s := Span(ctx, if r.op.None? then "" else r.op.value, false, [], [], ValidReferences(r.references));
    TagsGain(env1, s, tags);
  }

  lemma ActGain(env: Env, s: Span, a: Action)
    ensures GainExplains(env, HasDebug(Flags(s)), Act(env, s, a))
  {
  }

  lemma StepGain(cfg: Config, w: World, e: Event)
    requires DebugOnlyByGain(w.env, w.spans) && (e.Starts? ==> !ForeignDebug(e.request))
    ensures var u := Step(cfg, w, e); DebugOnlyByGain(u.env, u.spans)
  {
    hide StartSpan, Act, HasDebug, ForeignDebug;
    match e
    case Starts(r, d) => StartGain(w.env, cfg, r, d);
    case Acts(i, a) => if i < |w.spans| { ActGain(w.env, w.spans[i], a); }
    case Polled(_) =>
  }

  /** Behind a throttler that has received less than a whole credit for every operation, no span is a debug span,
      whatever tags and debug ids callers use, unless one was started under a parent that already was. */
  lemma NoCreditsNoDebug(cfg: Config, es: seq<Event>, i: nat)
    requires forall k :: 0 <= k < |es| && es[k].Starts? ==> !ForeignDebug(es[k].request)
    requires NonNegativePolls(es) && forall op: Op :: PolledFor(es, op) < 1.0
    requires i < |Exec(cfg, THROTTLED, es).spans|
    ensures !HasDebug(Flags(Exec(cfg, THROTTLED, es).spans[i]))
  {
    hide Exec, HasDebug, NonNegativePolls, PolledFor;
    ExecGain(cfg, es);
    var env := Exec(cfg, THROTTLED, es).env;
    if env.gains != [] {
      var op := env.gains[0];
      assert op in multiset(env.gains);
      DebugBudget(cfg, es, op);
    }
  }

  lemma {:induction false} ExecGain(cfg: Config, es: seq<Event>)
    requires forall k :: 0 <= k < |es| && es[k].Starts? ==> !ForeignDebug(es[k].request)
    ensures var w := Exec(cfg, THROTTLED, es); DebugOnlyByGain(w.env, w.spans)
  {
    hide Step, ForeignDebug, DebugOnlyByGain;
    if es == [] {
      NoSpans();
    } else {
      ExecGain(cfg, es[..|es| - 1]);
      StepGain(cfg, Exec(cfg, THROTTLED, es[..|es| - 1]), es[|es| - 1]);
    }
  }

  lemma NoSpans()
    ensures DebugOnlyByGain(THROTTLED.env, THROTTLED.spans)
  {
  }

  // ----------------------------------------------------------------- reporting

  lemma PriorityKeepsFinished(env: Env, s: Span, v: TagValue)
    ensures SetPriority(env, s, v).span.finished == s.finished
  {
  }

  lemma {:induction false} TagsKeepFinished(env: Env, s: Span, tags: Tags)
    ensures SetTags(env, s, tags).span.finished == s.finished
    decreases |tags|
  {
    hide SetPriority;
    if tags != [] {
      var o := SetTag(env, s, tags[0].key, tags[0].value);
      PriorityKeepsFinished(env, s, tags[0].value);
      if !o.verdict.Raised? { TagsKeepFinished(o.env, o.span, tags[1..]); }
    }
  }

  lemma ActFinishes(env: Env, s: Span, a: Action)
    ensures Act(env, s, a).span.finished == (s.finished || (a.FinishIt? && Reports(s)))
  {
  }

  /** The reporter has been given each finished span once, and no other. */
  ghost predicate ReportsOk(w: World) {
    forall i: nat :: multiset(w.reported)[i] == if i < |w.spans| && w.spans[i].finished then 1 else 0
  }

  lemma StepReports(cfg: Config, w: World, e: Event)
    requires ReportsOk(w)
    ensures ReportsOk(Step(cfg, w, e))
  {
    hide StartSpan, Act;
    match e
    case Starts(r, d) => StartUnfinished(w.env, cfg, r, d);
    case Acts(i, a) => if i < |w.spans| { ActFinishes(w.env, w.spans[i], a); }
    case Polled(_) =>
  }

  lemma StartUnfinished(env: Env, cfg: Config, r: Request, d: Draws)
    ensures !StartSpan(env, cfg, r, d).span.finished
  {
    hide SetTags, NewContext;
    var (env1, ctx, tags) := NewContext(env, cfg, r, d);
    var s := Span(ctx, if r.op.None? then "" else r.op.value, false, [], [], ValidReferences(r.references));
    TagsKeepFinished(env1, s, tags);
  }

  /** Whatever is done to the spans, and in whatever order, the reporter is given exactly the finished spans, each
      once. */
  lemma {:induction false} ReportedOnce(cfg: Config, w: World, es: seq<Event>)
    requires w.spans == [] && w.reported == []
    ensures ReportsOk(Exec(cfg, w, es))
  {
    hide Step, ReportsOk;
    if es == [] {
      NothingReported(w);
    } else {
      ReportedOnce(cfg, w, es[..|es| - 1]);
      StepReports(cfg, Exec(cfg, w, es[..|es| - 1]), es[|es| - 1]);
    }
  }

  lemma NothingReported(w: World)
    requires w.spans == [] && w.reported == []
    ensures ReportsOk(w)
  {
  }

  /** From the span to the agent: in any run of the reporter fed by any run of the tracer, a span is in the submitted
      batches at most once, and only if it was finished. */
  lemma DeliveredAtMostOnce(cfg: Config, w: World, es: seq<Event>, c: R.Config, steps: seq<R.Step>, t: R.State, i: nat)
    requires w.spans == [] && w.reported == []
    requires R.ValidConfig(c) && R.Run(c, R.INITIAL, steps, t) && t.books.reported == Exec(cfg, w, es).reported
    ensures multiset(R.Flatten(t.books.batches))[i] <= 1
    ensures i in R.Flatten(t.books.batches) ==> i < |Exec(cfg, w, es).spans| && Exec(cfg, w, es).spans[i].finished
  {
    hide Exec;
    ReportedOnce(cfg, w, es);
    RT.AtMostOnce(c, steps, t, i);
    assert i in R.Flatten(t.books.batches) ==> i in multiset(R.Flatten(t.books.batches));
  }
}
