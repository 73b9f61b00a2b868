/** The adaptive sampler over runs: which updates keep it free of errors, and how much the lower-bound samplers add. */
module SamplerLimits {
  import opened Prelude
  import opened TokenBucket
  import opened SamplerModels
  import opened SamplerTheorems

  // ------------------------------------------------------------------- errors

  predicate InUnit(rate: real) {
    0.0 <= rate <= 1.0
  }

  /** What a caller can check of an update. */
  predicate ValidUpdate(s: Strategies) {
    && LowerBoundOf(s) >= 0.0 && InUnit(DefaultRateOf(s))
    && forall i :: 0 <= i < |s.perOperation| ==> InUnit(RateOf(s.perOperation[i]))
  }

  /** Nothing an update left behind can make a later call raise. */
  ghost predicate Healthy(a: Adaptive) {
    DefaultAgrees(a) && a.lowerBound >= 0.0
  }

  /** The loop over the strategies succeeds exactly when each would alone. */
  lemma {:induction false} StrategiesSucceedIff(entries: Entries, ss: seq<Strategy>, lowerBound: real, now: real,
                                                draws: seq<real>)
    requires EntriesOk(entries, now) && Ready(entries) && |draws| >= |ss|
    requires forall i :: 0 <= i < |draws| ==> 0.0 <= draws[i] < 1.0
    ensures ApplyStrategies(entries, ss, lowerBound, now, draws).1 == None <==>
            forall i :: 0 <= i < |ss| ==> InUnit(RateOf(ss[i])) && lowerBound >= 0.0
    decreases |ss|
  {
    hide UpdateGuaranteed, MakeGuaranteed, EntriesOk, RateOf;
    if ss != [] {
      var (next, err) := ApplyStrategy(entries, ss[0], lowerBound, now, draws[0]);
      StrategySucceedsIff(entries, ss[0], lowerBound, now, draws[0]);
      StrategyKeepsOk(entries, ss[0], lowerBound, now, draws[0]);
      StrategiesSucceedIff(next, ss[1..], lowerBound, now, draws[1..]);
      if err == None {
        assert forall i :: 0 <= i < |ss[1..]| ==> ss[1..][i] == ss[i + 1];
      }
    }
  }

  lemma StrategySucceedsIff(entries: Entries, s: Strategy, lowerBound: real, now: real, draw: real)
    requires EntriesOk(entries, now) && Ready(entries) && 0.0 <= draw < 1.0
    ensures ApplyStrategy(entries, s, lowerBound, now, draw).1 == None <==> InUnit(RateOf(s)) && lowerBound >= 0.0
  {
    hide UpdateGuaranteed, MakeGuaranteed, RateOf;
    if s.operation in entries {
      UpdatedAgrees(entries[s.operation], lowerBound, RateOf(s), now);
    } else {
      MadeGuaranteedAgrees(s.operation, lowerBound, RateOf(s), now, draw);
    }
  }

  /** An update succeeds and leaves nothing bad behind if and only if its rates are in [0, 1] and its lower bound is
      not negative. */
  lemma UpdateHealthyIff(a: Adaptive, now: real, s: Strategies, draws: seq<real>)
    requires AdaptiveOk(a, now) && Ready(a.samplers) && Healthy(a) && |draws| >= |s.perOperation|
    requires forall i :: 0 <= i < |draws| ==> 0.0 <= draws[i] < 1.0
    ensures var (t, err) := UpdateAdaptive(a, s, now, draws);
            err == None && Healthy(t) <==> ValidUpdate(s)
  {
    hide ApplyStrategies, EntriesOk, RateOf;
    DefaultPairIff(a, s, now, draws);
    StrategiesSucceedIff(a.samplers, s.perOperation, LowerBoundOf(s), now, draws);
  }

  lemma {:induction false} BuildSucceedsIff(entries: Entries, ss: seq<Strategy>, lowerBound: real, now: real,
                                            draws: seq<real>)
    requires |draws| >= |ss| && forall i :: 0 <= i < |draws| ==> 0.0 <= draws[i] < 1.0
    ensures BuildEntries(entries, ss, lowerBound, now, draws).Ok? <==>
            forall i :: 0 <= i < |ss| ==> InUnit(RateOf(ss[i])) && lowerBound >= 0.0
    decreases |ss|
  {
    hide MakeGuaranteed, RateOf;
    if ss != [] {
      var made := MakeGuaranteed(ss[0].operation, lowerBound, RateOf(ss[0]), now, draws[0]);
      MadeGuaranteedAgrees(ss[0].operation, lowerBound, RateOf(ss[0]), now, draws[0]);
      if made.Ok? {
        BuildSucceedsIff(entries[ss[0].operation := made.value], ss[1..], lowerBound, now, draws[1..]);
        assert forall i :: 0 <= i < |ss[1..]| ==> ss[1..][i] == ss[i + 1];
      }
    }
  }

  /** The constructor succeeds and starts usable under the same condition. */
  lemma MadeHealthyIff(s: Strategies, maxOperations: nat, now: real, draws: seq<real>)
    requires |draws| >= |s.perOperation| && forall i :: 0 <= i < |draws| ==> 0.0 <= draws[i] < 1.0
    ensures var r := MakeAdaptive(s, maxOperations, now, draws); r.Ok? && Healthy(r.value) <==> ValidUpdate(s)
  {
    hide BuildEntries, RateOf;
    BuildSucceedsIff(map[], s.perOperation, LowerBoundOf(s), now, draws);
  }

  lemma SampleStaysHealthy(a: Adaptive, traceId: int, operation: string, now: real, draw: real)
    requires Ready(a.samplers) && Healthy(a) && 0.0 <= draw < 1.0
    ensures AdaptiveSampled(a, traceId, operation, now, draw).1.Ok?
    ensures Healthy(AdaptiveSampled(a, traceId, operation, now, draw).0)
  {
    hide GuaranteedSampled, MakeGuaranteed;
    MadeGuaranteedAgrees(operation, a.lowerBound, a.defaultRate, now, draw);
  }

  /** The call returns without raising. */
  ghost predicate Succeeds(a: Adaptive, e: Event)
    requires Ready(a.samplers) && (e.Update? ==> |e.draws| >= |e.strategies.perOperation|)
  {
    match e
    case Sample(op, traceId, at, draw) => AdaptiveSampled(a, traceId, op, at, draw).1.Ok?
    case Update(s, at, draws) => UpdateAdaptive(a, s, at, draws).1 == None
  }

  lemma StepHealthyIff(a: Adaptive, now: real, e: Event)
    requires AdaptiveOk(a, now) && Ready(a.samplers) && Healthy(a) && ValidEvent(now, e)
    ensures Succeeds(a, e) && Healthy(Step(a, e)) <==> (e.Update? ==> ValidUpdate(e.strategies))
  {
    hide AdaptiveSampled, UpdateAdaptive, ValidUpdate, Healthy;
    match e
    case Sample(op, traceId, at, draw) => SampleStaysHealthy(a, traceId, op, at, draw);
    case Update(s, at, draws) =>
      LaterOk(a, now, at);
      UpdateHealthyIff(a, at, s, draws);
  }

  lemma LaterOk(a: Adaptive, now: real, later: real)
    requires AdaptiveOk(a, now) && now <= later
    ensures AdaptiveOk(a, later)
  {
  }

  /** No call of the run raises, and the default pair and the lower bound stay usable after each. */
  ghost predicate Untroubled(a: Adaptive, now: real, events: seq<Event>)
    requires AdaptiveOk(a, now) && ValidRun(now, events)
    decreases |events|
  {
    events == [] ||
    (Unfold(a, now, events);
     Succeeds(a, events[0]) && Healthy(Step(a, events[0])) && Untroubled(Step(a, events[0]), events[0].at, events[1..]))
  }

  /** From a sampler whose default pair agrees: in a run no is_sampled and no update ever raises, and the default pair
      keeps agreeing, if and only if every update has its rates in [0, 1] and a lower bound that is not negative. */
  lemma {:induction false} UntroubledIff(a: Adaptive, now: real, events: seq<Event>)
    requires AdaptiveOk(a, now) && Healthy(a) && ValidRun(now, events)
    ensures Untroubled(a, now, events) <==>
            forall i :: 0 <= i < |events| && events[i].Update? ==> ValidUpdate(events[i].strategies)
    decreases |events|
  {
    hide AdaptiveOk, Healthy, Step, Succeeds, ValidUpdate;
    if events != [] {
      Unfold(a, now, events);
      StepHealthyIff(a, now, events[0]);
      if Succeeds(a, events[0]) && Healthy(Step(a, events[0])) {
        UntroubledIff(Step(a, events[0]), events[0].at, events[1..]);
        assert forall i :: 0 <= i < |events[1..]| ==> events[1..][i] == events[i + 1];
      }
    }
  }

  // ---------------------------------------------------- what the lower bound adds

  /** The call is sampled, and by the lower-bound sampler. */
  ghost predicate ByLowerBound(a: Adaptive, e: Event)
    requires Ready(a.samplers) && e.Sample?
  {
    var r := AdaptiveSampled(a, e.traceId, e.operation, e.at, e.draw).1;
    r.Ok? && r.value.0 && r.value.1.kind.LowerBound?
  }

  /** How many calls for an operation the run samples under the lower-bound tag. */
  ghost function LowerBoundCount(a: Adaptive, now: real, events: seq<Event>, op: string): nat
    requires AdaptiveOk(a, now) && ValidRun(now, events)
    decreases |events|
  {
    if events == [] then 0
    else
      Unfold(a, now, events);
      var e := events[0];
      (if e.Sample? && e.operation == op && ByLowerBound(a, e) then 1 else 0)
      + LowerBoundCount(Step(a, e), e.at, events[1..], op)
  }

  /** The calls for an operation, as its limiter sees them. */
  function Calls(events: seq<Event>, op: string): seq<Op> {
    if events == [] then []
    else (if events[0].Sample? && events[0].operation == op then [Spend(events[0].at, 1.0)] else [])
         + Calls(events[1..], op)
  }

  lemma {:induction false} CallsTimed(now: real, last: real, events: seq<Event>, op: string)
    requires ValidRun(now, events) && last <= now
    ensures Timed(last, Calls(events, op)) && NoRescale(Calls(events, op))
    ensures var ops := Calls(events, op);
            ops != [] ==> events != [] && events[0].at <= ops[0].at <= ops[|ops| - 1].at <= events[|events| - 1].at
    decreases |events|
  {
    if events != [] {
      var e := events[0];
      var spends := e.Sample? && e.operation == op;
      CallsTimed(e.at, if spends then e.at else last, events[1..], op);
      var ops, rest := Calls(events, op), Calls(events[1..], op);
      if spends {
        assert ops == [Spend(e.at, 1.0)] + rest && ops[1..] == rest;
        LastLater(e.at, events[1..]);
      } else {
        assert ops == rest;
      }
    }
  }

  lemma {:induction false} LastLater(now: real, events: seq<Event>)
    requires ValidRun(now, events)
    ensures events != [] ==> now <= events[0].at <= events[|events| - 1].at
    decreases |events|
  {
    if |events| > 1 { LastLater(events[0].at, events[1..]); }
  }

  /** One call for op: its limiter's step, and a lower-bound sample only if the limiter grants. */
  lemma CallIsSpend(a: Adaptive, now: real, e: Event, op: string, lb: real)
    requires AdaptiveOk(a, now) && Ready(a.samplers) && ValidEvent(now, e) && e.Sample? && e.operation == op
    requires op in a.samplers && a.samplers[op].lowerBound == lb
    ensures var b, t := a.samplers[op].limiting.bucket, Step(a, e).samplers;
            && op in t && t[op].lowerBound == lb
            && t[op].limiting.bucket == Apply(b, Spend(e.at, 1.0)).0
            && (ByLowerBound(a, e) ==> Apply(b, Spend(e.at, 1.0)).1)
  {
    hide Apply, ProbSampled;
  }

  /** With op's entry there: its lower-bound samples are among the grants of its limiter. */
  lemma {:induction false} SamplesAreGrants(a: Adaptive, now: real, events: seq<Event>, op: string, lb: real)
    requires AdaptiveOk(a, now) && ValidRun(now, events)
    requires op in a.samplers && a.samplers[op].lowerBound == lb
    requires forall i :: 0 <= i < |events| ==> KeepsLowerBound(events[i], lb)
    ensures var b, ops := a.samplers[op].limiting.bucket, Calls(events, op);
            && Sane(b) && Timed(b.last, ops)
            && LowerBoundCount(a, now, events, op) as real <= Granted(ops, Decisions(b, ops))
    decreases |events|
  {
    EntryOk(a, now, op);
    var b, ops := a.samplers[op].limiting.bucket, Calls(events, op);
    CallsTimed(now, b.last, events, op);
    if events != [] {
      hide Step, AdaptiveOk, Ready, ByLowerBound, Earned, Share, Apply;
      Unfold(a, now, events);
      var e, t := events[0], Step(a, events[0]);
      var rest := Calls(events[1..], op);
      if e.Sample? && e.operation == op {
        CallIsSpend(a, now, e, op, lb);
        SamplesAreGrants(t, e.at, events[1..], op, lb);
        assert ops == [Spend(e.at, 1.0)] + rest && ops[1..] == rest;
        Unroll(b, ops);
      } else {
        if e.Update? { UpdateKeepsLimiter(a, now, e, op, lb); } else { OtherEntriesStay(a, e, op); }
        SamplesAreGrants(t, e.at, events[1..], op, lb);
        assert ops == rest;
      }
    }
  }

  lemma EntryOk(a: Adaptive, now: real, op: string)
    requires AdaptiveOk(a, now) && op in a.samplers
    ensures Agrees(a.samplers[op]) && a.samplers[op].limiting.bucket.last <= now
  {
  }

  lemma {:induction false} EntryAddsAtMost(a: Adaptive, now: real, events: seq<Event>, op: string, lb: real)
    requires AdaptiveOk(a, now) && ValidRun(now, events) && events != []
    requires op in a.samplers && a.samplers[op].lowerBound == lb
    requires forall i :: 0 <= i < |events| ==> KeepsLowerBound(events[i], lb)
    ensures LowerBoundCount(a, now, events, op) as real
            <= Max(lb, 1.0) + Earned(lb, events[|events| - 1].at - events[0].at)
  {
    hide LowerBoundCount, AdaptiveOk, Decisions, Granted;
    EntryOk(a, now, op);
    SamplesAreGrants(a, now, events, op, lb);
    var b, ops := a.samplers[op].limiting.bucket, Calls(events, op);
    CallsTimed(now, b.last, events, op);
    LastLater(now, events);
    EarnedGrows(lb, 0.0, events[|events| - 1].at - events[0].at);
    if ops == [] {
      NothingGranted(b);
    } else {
      WindowBound(b, ops);
      EarnedGrows(lb, ops[|ops| - 1].at - ops[0].at, events[|events| - 1].at - events[0].at);
    }
  }

  lemma NothingGranted(b: Bucket)
    requires Sane(b)
    ensures Granted([], Decisions(b, [])) == 0.0
  {
  }

  lemma EarnedGrows(lb: real, x: real, y: real)
    requires lb >= 0.0 && 0.0 <= x <= y
    ensures 0.0 <= Earned(lb, x) <= Earned(lb, y)
  {
    EarnedAdds(lb, 0.0, x, y);
  }

  /** The entry a call creates, as if it had been there when the call began. */
  lemma CreatedAsIfThere(a: Adaptive, now: real, e: Event, op: string)
    requires AdaptiveOk(a, now) && Ready(a.samplers) && ValidEvent(now, e) && e.Sample? && e.operation == op
    requires op !in a.samplers && op in Step(a, e).samplers
    ensures MakeGuaranteed(op, a.lowerBound, a.defaultRate, e.at, e.draw).Ok?
    ensures var g := MakeGuaranteed(op, a.lowerBound, a.defaultRate, e.at, e.draw).value;
            var b := a.(samplers := a.samplers[op := g]);
            && AdaptiveOk(b, e.at) && Ready(b.samplers) && g.lowerBound == a.lowerBound
            && Step(b, e) == Step(a, e) && ByLowerBound(b, e) == ByLowerBound(a, e)
  {
    hide GuaranteedSampled;
    MadeGuaranteedAgrees(op, a.lowerBound, a.defaultRate, e.at, e.draw);
    LaterOk(a, now, e.at);
  }

  /** What becomes of an operation without an entry. */
  lemma WithoutEntry(a: Adaptive, now: real, e: Event, op: string, lb: real)
    requires AdaptiveOk(a, now) && Ready(a.samplers) && ValidEvent(now, e) && op !in a.samplers
    requires a.lowerBound == lb && KeepsLowerBound(e, lb)
    ensures var t := Step(a, e);
            && t.lowerBound == lb
            && (op in t.samplers ==> t.samplers[op].lowerBound == lb)
            && (e.Sample? && e.operation == op && op !in t.samplers ==> !ByLowerBound(a, e))
  {
    match e
    case Sample(o, traceId, at, draw) =>
      hide GuaranteedSampled;
      if |a.samplers| < a.maxOperations {
        MadeGuaranteedAgrees(o, a.lowerBound, a.defaultRate, at, draw);
        if MakeGuaranteed(o, a.lowerBound, a.defaultRate, at, draw).Ok? {
          SampledAgrees(MakeGuaranteed(o, a.lowerBound, a.defaultRate, at, draw).value, traceId, at);
        }
      }
    case Update(s, at, draws) =>
      hide ApplyStrategies;
      StrategiesMakeLimiter(a.samplers, s.perOperation, lb, at, draws, op);
  }

  lemma {:induction false} StrategiesMakeLimiter(entries: Entries, ss: seq<Strategy>, lowerBound: real, now: real,
                                                 draws: seq<real>, op: string)
    requires EntriesOk(entries, now) && Ready(entries) && |draws| >= |ss|
    requires forall i :: 0 <= i < |draws| ==> 0.0 <= draws[i] < 1.0
    requires op in entries ==> entries[op].lowerBound == lowerBound
    ensures var after := ApplyStrategies(entries, ss, lowerBound, now, draws).0;
            op in after ==> after[op].lowerBound == lowerBound
    decreases |ss|
  {
    hide UpdateGuaranteed, MakeGuaranteed;
    if ss != [] {
      StrategyKeepsOk(entries, ss[0], lowerBound, now, draws[0]);
      if ss[0].operation == op {
        if op in entries {
          UpdatedAgrees(entries[op], lowerBound, RateOf(ss[0]), now);
        } else {
          MadeWithBound(op, lowerBound, RateOf(ss[0]), now, draws[0]);
        }
      }
      StrategiesMakeLimiter(ApplyStrategy(entries, ss[0], lowerBound, now, draws[0]).0, ss[1..], lowerBound, now,
                            draws[1..], op);
    }
  }

  lemma MadeWithBound(operation: string, lowerBound: real, rate: real, now: real, draw: real)
    ensures var r := MakeGuaranteed(operation, lowerBound, rate, now, draw); r.Ok? ==> r.value.lowerBound == lowerBound
  {
  }

  /** The other half of the lower bound: in any window of a run in which the lower bound stays lb, whether the
      operation has its entry already, gets it on the way or never, the calls for it sampled under the lower-bound tag
      number at most max(lb, 1) + lb * window. */
  lemma {:induction false} LowerBoundAddsAtMost(a: Adaptive, now: real, events: seq<Event>, op: string, lb: real)
    requires AdaptiveOk(a, now) && ValidRun(now, events) && events != [] && lb >= 0.0
    requires if op in a.samplers then a.samplers[op].lowerBound == lb else a.lowerBound == lb
    requires forall i :: 0 <= i < |events| ==> KeepsLowerBound(events[i], lb)
    ensures LowerBoundCount(a, now, events, op) as real
            <= Max(lb, 1.0) + Earned(lb, events[|events| - 1].at - events[0].at)
    decreases |events|
  {
    hide Step, AdaptiveOk, Ready, ByLowerBound, Earned;
    if op in a.samplers {
      EntryAddsAtMost(a, now, events, op, lb);
    } else {
      Unfold(a, now, events);
      var e, t, rest := events[0], Step(a, events[0]), events[1..];
      WithoutEntry(a, now, e, op, lb);
      LastLater(now, events);
      EarnedGrows(lb, 0.0, events[|events| - 1].at - e.at);
      if e.Sample? && e.operation == op && op in t.samplers {
        CreatedAsIfThere(a, now, e, op);
        var g := MakeGuaranteed(op, a.lowerBound, a.defaultRate, e.at, e.draw).value;
        var b := a.(samplers := a.samplers[op := g]);
        Revalidated(now, events);
        Unfold(b, e.at, events);
        EntryAddsAtMost(b, e.at, events, op, lb);
      } else if rest != [] {
        LowerBoundAddsAtMost(t, e.at, rest, op, lb);
        LastLater(e.at, rest);
        EarnedGrows(lb, rest[|rest| - 1].at - rest[0].at, events[|events| - 1].at - e.at);
      }
    }
  }

  lemma Revalidated(now: real, events: seq<Event>)
    requires ValidRun(now, events) && events != []
    ensures ValidRun(events[0].at, events)
  {
  }
}
