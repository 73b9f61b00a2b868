/** Invariants, capacity and guaranteed throughput of the adaptive sampler over whole runs. */
module SamplerTheorems {
  import opened Prelude
  import opened TokenBucket
  import opened SamplerModels

  // --------------------------------------------------- an entry and its parts

  ghost predicate ProbOk(p: Prob) {
    0.0 <= p.rate <= 1.0 && p.boundary == Boundary(p.rate)
  }

  ghost predicate LimitingOk(l: Limiting) {
    && Sane(l.bucket) && l.tracesPerSecond == l.tagParam == l.bucket.rate
    && l.bucket.cap == Max(l.tracesPerSecond, 1.0)
  }

  /** The entry's fields agree with the samplers inside it. */
  ghost predicate Agrees(g: Guaranteed) {
    && ProbOk(g.prob) && LimitingOk(g.limiting)
    && g.rate == g.prob.rate == g.tagParam && g.lowerBound == g.limiting.tracesPerSecond
  }

  lemma MadeGuaranteedAgrees(operation: string, lowerBound: real, rate: real, now: real, draw: real)
    requires 0.0 <= draw < 1.0
    ensures MakeGuaranteed(operation, lowerBound, rate, now, draw).Ok? <==> 0.0 <= rate <= 1.0 && lowerBound >= 0.0
    ensures MakeGuaranteed(operation, lowerBound, rate, now, draw).Ok? ==>
              var g := MakeGuaranteed(operation, lowerBound, rate, now, draw).value;
              Agrees(g) && g.operation == operation && g.limiting.bucket.last == now
  {
  }

  lemma SampledAgrees(g: Guaranteed, traceId: int, now: real)
    requires Agrees(g) && g.limiting.bucket.last <= now
    ensures var g1 := GuaranteedSampled(g, traceId, now).0;
            Agrees(g1) && g1 == g.(limiting := g1.limiting) && g1.limiting.bucket.last == now
  {
  }

  lemma UpdatedAgrees(g: Guaranteed, lowerBound: real, rate: real, now: real)
    requires Agrees(g) && g.limiting.bucket.last <= now
    ensures var (g1, err) := UpdateGuaranteed(g, lowerBound, rate, now);
            && Agrees(g1) && g1.operation == g.operation && g1.limiting.bucket.last <= now
            && (lowerBound == g.lowerBound ==> g1.limiting == g.limiting)
            && (err == None <==> 0.0 <= rate <= 1.0 && lowerBound >= 0.0)
            && (err == None ==> g1.rate == rate && g1.lowerBound == lowerBound)
  {
  }

  // --------------------------------------------------------- runs of the sampler

  datatype Event =
    | Sample(operation: string, traceId: int, at: real, draw: real)
    | Update(strategies: Strategies, at: real, draws: seq<real>)

  ghost predicate ValidEvent(now: real, e: Event) {
    && now <= e.at
    && (e.Sample? ==> 0.0 <= e.draw < 1.0)
    && (e.Update? ==> |e.draws| >= |e.strategies.perOperation| &&
                      forall i :: 0 <= i < |e.draws| ==> 0.0 <= e.draws[i] < 1.0)
  }

  ghost predicate ValidRun(now: real, events: seq<Event>)
    decreases |events|
  {
    events == [] || (ValidEvent(now, events[0]) && ValidRun(events[0].at, events[1..]))
  }

  ghost predicate EntriesOk(entries: Entries, now: real) {
    forall op :: op in entries ==>
      Agrees(entries[op]) && entries[op].operation == op && entries[op].limiting.bucket.last <= now
  }

  ghost predicate AdaptiveOk(a: Adaptive, now: real) {
    EntriesOk(a.samplers, now) && ProbOk(a.defaultSampler)
  }

  ghost function Step(a: Adaptive, e: Event): Adaptive
    requires Ready(a.samplers) && (e.Update? ==> |e.draws| >= |e.strategies.perOperation|)
  {
    match e
    case Sample(op, traceId, at, draw) => AdaptiveSampled(a, traceId, op, at, draw).0
    case Update(s, at, draws) => UpdateAdaptive(a, s, at, draws).0
  }

  lemma ReadyWhenOk(entries: Entries, now: real)
    requires EntriesOk(entries, now)
    ensures Ready(entries)
  {
  }

  lemma StrategyKeepsOk(entries: Entries, s: Strategy, lowerBound: real, now: real, draw: real)
    requires EntriesOk(entries, now) && Ready(entries) && 0.0 <= draw < 1.0
    ensures EntriesOk(ApplyStrategy(entries, s, lowerBound, now, draw).0, now)
  {
    if s.operation in entries {
      UpdatedAgrees(entries[s.operation], lowerBound, RateOf(s), now);
    } else {
      MadeGuaranteedAgrees(s.operation, lowerBound, RateOf(s), now, draw);
    }
  }

  lemma {:induction false} StrategiesKeepOk(entries: Entries, ss: seq<Strategy>, lowerBound: real, now: real,
                                            draws: seq<real>)
    requires EntriesOk(entries, now) && Ready(entries) && |draws| >= |ss|
    requires forall i :: 0 <= i < |draws| ==> 0.0 <= draws[i] < 1.0
    ensures EntriesOk(ApplyStrategies(entries, ss, lowerBound, now, draws).0, now)
    decreases |ss|
  {
    if ss != [] {
      StrategyKeepsOk(entries, ss[0], lowerBound, now, draws[0]);
      StrategiesKeepOk(ApplyStrategy(entries, ss[0], lowerBound, now, draws[0]).0, ss[1..], lowerBound, now,
                       draws[1..]);
    }
  }

  /** Every call, failing or not, keeps every entry in agreement with its parts. */
  lemma StepKeepsOk(a: Adaptive, now: real, e: Event)
    requires AdaptiveOk(a, now) && ValidEvent(now, e) && Ready(a.samplers)
    ensures AdaptiveOk(Step(a, e), e.at) && Ready(Step(a, e).samplers)
  {
    match e
    case Sample(op, traceId, at, draw) =>
      if op in a.samplers {
        SampledAgrees(a.samplers[op], traceId, at);
      } else {
        MadeGuaranteedAgrees(op, a.lowerBound, a.defaultRate, at, draw);
        if MakeGuaranteed(op, a.lowerBound, a.defaultRate, at, draw).Ok? {
          SampledAgrees(MakeGuaranteed(op, a.lowerBound, a.defaultRate, at, draw).value, traceId, at);
        }
      }
    case Update(s, at, draws) =>
      StrategiesKeepOk(a.samplers, s.perOperation, LowerBoundOf(s), at, draws);
  }

  ghost function Run(a: Adaptive, now: real, events: seq<Event>): (r: Adaptive)
    requires AdaptiveOk(a, now) && ValidRun(now, events)
    ensures AdaptiveOk(r, if events == [] then now else events[|events| - 1].at)
    decreases |events|
  {
    ReadyWhenOk(a.samplers, now);
    if events == [] then a
    else StepKeepsOk(a, now, events[0]); Run(Step(a, events[0]), events[0].at, events[1..])
  }

  // ----------------------------------------------------------------- capacity

  function Names(ss: seq<Strategy>): set<string> {
    set i | 0 <= i < |ss| :: ss[i].operation
  }

  ghost function Named(events: seq<Event>): set<string> {
    if events == [] then {}
    else NamedBy(events[0]) + Named(events[1..])
  }

  lemma {:induction false} StrategiesAddNamed(entries: Entries, ss: seq<Strategy>, lowerBound: real, now: real,
                                              draws: seq<real>)
    requires Ready(entries) && |draws| >= |ss|
    ensures ApplyStrategies(entries, ss, lowerBound, now, draws).0.Keys <= entries.Keys + Names(ss)
    decreases |ss|
  {
    if ss != [] {
      var next := ApplyStrategy(entries, ss[0], lowerBound, now, draws[0]).0;
      assert ss[0].operation in Names(ss);
      StrategiesAddNamed(next, ss[1..], lowerBound, now, draws[1..]);
      forall x | x in Names(ss[1..]) ensures x in Names(ss) {
        var i :| 0 <= i < |ss[1..]| && ss[1..][i].operation == x;
        assert ss[i + 1].operation == x;
      }
    }
  }

  lemma StepAdds(a: Adaptive, e: Event)
    requires Ready(a.samplers) && (e.Update? ==> |e.draws| >= |e.strategies.perOperation|)
    ensures a.samplers.Keys <= Step(a, e).samplers.Keys && Step(a, e).maxOperations == a.maxOperations
    ensures e.Update? ==> Step(a, e).samplers.Keys <= a.samplers.Keys + Names(e.strategies.perOperation)
    ensures e.Sample? ==> Step(a, e).samplers.Keys <= a.samplers.Keys + {e.operation}
    ensures e.Sample? && Step(a, e).samplers.Keys != a.samplers.Keys ==> |a.samplers| < a.maxOperations
  {
    match e
    case Sample(op, traceId, at, draw) => SampleAdds(a, op, traceId, at, draw);
    case Update(s, at, draws) => UpdateAdds(a, s, at, draws);
  }

  lemma SampleAdds(a: Adaptive, op: string, traceId: int, at: real, draw: real)
    requires Ready(a.samplers)
    ensures var b := AdaptiveSampled(a, traceId, op, at, draw).0;
            && a.samplers.Keys <= b.samplers.Keys <= a.samplers.Keys + {op} && b.maxOperations == a.maxOperations
            && (b.samplers.Keys != a.samplers.Keys ==> |a.samplers| < a.maxOperations)
  {
    hide GuaranteedSampled, MakeGuaranteed;
  }

  lemma UpdateAdds(a: Adaptive, s: Strategies, at: real, draws: seq<real>)
    requires Ready(a.samplers) && |draws| >= |s.perOperation|
    ensures var b := UpdateAdaptive(a, s, at, draws).0;
            && a.samplers.Keys <= b.samplers.Keys <= a.samplers.Keys + Names(s.perOperation)
            && b.maxOperations == a.maxOperations
  {
    hide ApplyStrategies;
    StrategiesAddNamed(a.samplers, s.perOperation, LowerBoundOf(s), at, draws);
  }

  function NamedBy(e: Event): set<string> {
    if e.Update? then Names(e.strategies.perOperation) else {}
  }

  lemma Unfold(a: Adaptive, now: real, events: seq<Event>)
    requires AdaptiveOk(a, now) && ValidRun(now, events) && events != []
    ensures Ready(a.samplers) && ValidEvent(now, events[0])
    ensures AdaptiveOk(Step(a, events[0]), events[0].at) && ValidRun(events[0].at, events[1..])
    ensures Run(a, now, events) == Run(Step(a, events[0]), events[0].at, events[1..])
  {
    hide Step, AdaptiveOk;
    ReadyFromOk(a, now);
    StepKeepsOk(a, now, events[0]);
  }

  lemma {:induction false} NoneRemoved(a: Adaptive, now: real, events: seq<Event>)
    requires AdaptiveOk(a, now) && ValidRun(now, events)
    ensures a.samplers.Keys <= Run(a, now, events).samplers.Keys
    decreases |events|
  {
    hide Step, AdaptiveOk;
    if events != [] {
      Unfold(a, now, events);
      StepAdds(a, events[0]);
      NoneRemoved(Step(a, events[0]), events[0].at, events[1..]);
    }
  }

  lemma ReadyFromOk(a: Adaptive, now: real)
    requires AdaptiveOk(a, now)
    ensures Ready(a.samplers)
  {
  }

  ghost function CreatedBy(a: Adaptive, e: Event): set<string>
    requires Ready(a.samplers) && (e.Update? ==> |e.draws| >= |e.strategies.perOperation|)
  {
    if e.Sample? then Step(a, e).samplers.Keys - a.samplers.Keys else {}
  }

  /** The operations whose entries is_sampled created in the run, listed by an update or not. */
  ghost function Created(a: Adaptive, now: real, events: seq<Event>): set<string>
    requires AdaptiveOk(a, now) && ValidRun(now, events)
    decreases |events|
  {
    if events == [] then {}
    else
      Unfold(a, now, events);
      CreatedBy(a, events[0]) + Created(Step(a, events[0]), events[0].at, events[1..])
  }

  lemma StepCreates(a: Adaptive, e: Event)
    requires Ready(a.samplers) && (e.Update? ==> |e.draws| >= |e.strategies.perOperation|)
    ensures var keys, next, made := a.samplers.Keys, Step(a, e).samplers.Keys, CreatedBy(a, e);
            && made !! keys && keys + made <= next <= keys + made + NamedBy(e)
            && (made != {} ==> next == keys + made && |next| <= a.maxOperations)
  {
    hide Step;
    StepAdds(a, e);
    if CreatedBy(a, e) != {} { assert Step(a, e).samplers.Keys == a.samplers.Keys + {e.operation}; }
  }

  /** Entries created first and later, in a growing set of keys. */
  lemma CreationsAdd(keys: set<string>, next: set<string>, final: set<string>, first: set<string>, later: set<string>,
                     named: set<string>, more: set<string>, max: nat)
    requires first !! keys && keys + first <= next <= keys + first + named
    requires first != {} ==> next == keys + first && |next| <= max
    requires later !! next && next + later <= final <= next + later + more
    requires later != {} ==> |next| + |later| <= max
    ensures first + later !! keys && keys + (first + later) <= final <= keys + (first + later) + (named + more)
    ensures first + later != {} ==> |keys| + |first + later| <= max
  {
    SubsetSize(keys + first, next);
    assert |keys + first| == |keys| + |first|;
    assert |first + later| == |first| + |later|;
  }

  /** is_sampled creates an entry only below max_operations, counting all that are there: in every run those it
      created are new, are still there, and with the entries from before number at most max_operations; all other
      entries were there or were named by an update. */
  lemma {:induction false} CreatedWithinCapacity(a: Adaptive, now: real, events: seq<Event>)
    requires AdaptiveOk(a, now) && ValidRun(now, events)
    ensures var created, keys := Created(a, now, events), Run(a, now, events).samplers.Keys;
            && created !! a.samplers.Keys
            && a.samplers.Keys + created <= keys <= a.samplers.Keys + created + Named(events)
            && (created != {} ==> |a.samplers.Keys| + |created| <= a.maxOperations)
    decreases |events|
  {
    hide Step, AdaptiveOk, Ready, CreatedBy, NamedBy;
    if events != [] {
      Unfold(a, now, events);
      var e, b := events[0], Step(a, events[0]);
      StepAdds(a, e);
      StepCreates(a, e);
      CreatedWithinCapacity(b, e.at, events[1..]);
      CreationsAdd(a.samplers.Keys, b.samplers.Keys, Run(a, now, events).samplers.Keys, CreatedBy(a, e),
                   Created(b, e.at, events[1..]), NamedBy(e), Named(events[1..]), a.maxOperations);
    }
  }

  /** In every run: no entry is removed; those is_sampled created number at most max_operations; with `strategies` the
      names the sampler was built from, no others exist but those some strategy named. */
  lemma Capacity(a: Adaptive, now: real, events: seq<Event>, strategies: set<string>)
    requires AdaptiveOk(a, now) && ValidRun(now, events) && |a.samplers.Keys - strategies| <= a.maxOperations
    ensures var t := Run(a, now, events);
            && a.samplers.Keys <= t.samplers.Keys
            && |Created(a, now, events)| <= a.maxOperations
            && |t.samplers.Keys - (strategies + Named(events))| <= a.maxOperations
            && |t.samplers.Keys| <= a.maxOperations + |strategies + Named(events)|
  {
    hide Step, AdaptiveOk, Created, Run, Named;
    CreatedWithinCapacity(a, now, events);
    var created, listed := Created(a, now, events), strategies + Named(events);
    var keys := Run(a, now, events).samplers.Keys;
    SubsetSize(keys - listed, (a.samplers.Keys - strategies) + created);
    SubsetSize(a.samplers.Keys - strategies, a.samplers.Keys);
    SplitSize(keys, listed);
  }

  lemma SplitSize(keys: set<string>, s: set<string>)
    ensures |keys| <= |keys - s| + |s|
  {
  }

  lemma SubsetSize(x: set<string>, y: set<string>)
    requires x <= y
    ensures |x| <= |y|
  {
    assert y == x + (y - x);
  }

  // ---------------------------------------------------------- the default pair

  ghost predicate DefaultAgrees(a: Adaptive) {
    ProbOk(a.defaultSampler) && a.defaultRate == a.defaultSampler.rate
  }

  /** After any update the default probability and its sampler agree if and only if a strategy failed, which leaves
      both as they were, or the new default probability is one; otherwise the update fails after the assignment. */
  lemma DefaultPairIff(a: Adaptive, s: Strategies, now: real, draws: seq<real>)
    requires DefaultAgrees(a) && Ready(a.samplers) && |draws| >= |s.perOperation|
    ensures var (t, err) := UpdateAdaptive(a, s, now, draws);
            var failed := ApplyStrategies(a.samplers, s.perOperation, LowerBoundOf(s), now, draws).1.Some?;
            && (DefaultAgrees(t) <==> failed || 0.0 <= DefaultRateOf(s) <= 1.0)
            && (err == None <==> !failed && 0.0 <= DefaultRateOf(s) <= 1.0)
            && t.defaultRate == if failed then a.defaultRate else DefaultRateOf(s)
  {
  }

  /** What the disagreement does: a new operation below capacity is sampled without an error if and only if
      the default pair was left usable. */
  lemma NewOperationIff(a: Adaptive, traceId: int, operation: string, now: real, draw: real)
    requires Ready(a.samplers) && operation !in a.samplers && |a.samplers| < a.maxOperations && 0.0 <= draw < 1.0
    ensures AdaptiveSampled(a, traceId, operation, now, draw).1.Ok? <==>
            0.0 <= a.defaultRate <= 1.0 && a.lowerBound >= 0.0
  {
  }

  lemma BadDefaultProbability(now: real)
    ensures var p := MakeProb(0.5).value;
            var a := Adaptive(map[], p, 0.5, 1.0, 10);
            var t := UpdateAdaptive(a, Strategies([], Some(1.0), Some(2.0)), now, []).0;
            !DefaultAgrees(t) && AdaptiveSampled(t, 0, "get", now, 0.0).1 == Err(BadSamplingRate)
  {
  }

  // ------------------------------------------------------- guaranteed throughput

  /** The update leaves this operation's lower bound alone. */
  ghost predicate KeepsLowerBound(e: Event, lb: real) {
    e.Update? ==> LowerBoundOf(e.strategies) == lb
  }

  lemma {:induction false} StrategiesKeepLimiter(entries: Entries, ss: seq<Strategy>, lowerBound: real, now: real,
                                                 draws: seq<real>, op: string)
    requires EntriesOk(entries, now) && Ready(entries) && |draws| >= |ss|
    requires forall i :: 0 <= i < |draws| ==> 0.0 <= draws[i] < 1.0
    requires op in entries && entries[op].lowerBound == lowerBound
    ensures var after := ApplyStrategies(entries, ss, lowerBound, now, draws).0;
            op in after && after[op].limiting == entries[op].limiting && after[op].lowerBound == lowerBound
    decreases |ss|
  {
    if ss != [] {
      StrategyKeepsOk(entries, ss[0], lowerBound, now, draws[0]);
      if ss[0].operation == op { UpdatedAgrees(entries[op], lowerBound, RateOf(ss[0]), now); }
      StrategiesKeepLimiter(ApplyStrategy(entries, ss[0], lowerBound, now, draws[0]).0, ss[1..], lowerBound, now,
                            draws[1..], op);
    }
  }

  /** Some call for op in the run was sampled. */
  ghost predicate SomeSampled(a: Adaptive, now: real, events: seq<Event>, op: string)
    requires AdaptiveOk(a, now) && ValidRun(now, events)
    decreases |events|
  {
    ReadyWhenOk(a.samplers, now);
    events != [] &&
    (StepKeepsOk(a, now, events[0]);
     || (events[0].Sample? && events[0].operation == op && SampledNow(a, events[0]))
     || SomeSampled(Step(a, events[0]), events[0].at, events[1..], op))
  }

  ghost predicate SampledNow(a: Adaptive, e: Event)
    requires Ready(a.samplers) && e.Sample?
  {
    var r := AdaptiveSampled(a, e.traceId, e.operation, e.at, e.draw).1;
    r.Ok? && r.value.0
  }

  /** The operation's limiter has kept all it earned since `since`, up to its cap. */
  ghost predicate Saved(a: Adaptive, op: string, since: real, lb: real) {
    && op in a.samplers && a.samplers[op].lowerBound == lb
    && var b := a.samplers[op].limiting.bucket;
       since <= b.last && b.balance >= Min(b.cap, Earned(lb, b.last - since))
  }

  lemma RefusalSaves(b: Bucket, since: real, lb: real, now: real)
    requires Sane(b) && b.rate == lb && since <= b.last <= now && b.balance >= Min(b.cap, Earned(lb, b.last - since))
    ensures Tick(b, now).balance >= Min(b.cap, Earned(lb, now - since))
  {
  }

  lemma UnsampledStepSaves(a: Adaptive, now: real, e: Event, op: string, since: real, lb: real)
    requires AdaptiveOk(a, now) && Ready(a.samplers) && ValidEvent(now, e) && lb > 0.0
    requires Saved(a, op, since, lb) && KeepsLowerBound(e, lb)
    requires e.Sample? && e.operation == op ==> !SampledNow(a, e)
    ensures Saved(Step(a, e), op, since, lb)
  {
    hide Earned, Share, Boundary;
    if e.Update? {
      UpdateKeepsLimiter(a, now, e, op, lb);
    } else if e.operation == op {
      RefusedCallSaves(a.samplers[op], e.traceId, since, lb, e.at);
    } else {
      OtherEntriesStay(a, e, op);
    }
  }

  lemma UpdateKeepsLimiter(a: Adaptive, now: real, e: Event, op: string, lb: real)
    requires AdaptiveOk(a, now) && Ready(a.samplers) && ValidEvent(now, e) && e.Update? && KeepsLowerBound(e, lb)
    requires op in a.samplers && a.samplers[op].lowerBound == lb
    ensures var t := Step(a, e).samplers;
            op in t && t[op].lowerBound == lb && t[op].limiting == a.samplers[op].limiting
  {
    StrategiesKeepLimiter(a.samplers, e.strategies.perOperation, lb, e.at, e.draws, op);
  }

  /** A call for one operation never touches another operation's entry. */
  lemma OtherEntriesStay(a: Adaptive, e: Event, op: string)
    requires Ready(a.samplers) && e.Sample? && op in a.samplers && op != e.operation
    ensures op in Step(a, e).samplers && Step(a, e).samplers[op] == a.samplers[op]
  {
  }

  lemma RefusedCallSaves(g: Guaranteed, traceId: int, since: real, lb: real, now: real)
    requires Agrees(g) && g.lowerBound == lb && since <= g.limiting.bucket.last <= now
    requires g.limiting.bucket.balance >= Min(g.limiting.bucket.cap, Earned(lb, g.limiting.bucket.last - since))
    requires !GuaranteedSampled(g, traceId, now).1
    ensures var b := GuaranteedSampled(g, traceId, now).0.limiting.bucket;
            b.last == now && b.balance >= Min(b.cap, Earned(lb, now - since))
  {
  }

  /** After enough time the next call for op is sampled, whatever its trace id. */
  lemma SavedEnough(a: Adaptive, now: real, e: Event, op: string, since: real, lb: real)
    requires AdaptiveOk(a, now) && Ready(a.samplers) && ValidEvent(now, e) && lb > 0.0 && Saved(a, op, since, lb)
    requires e.Sample? && e.operation == op && e.at - since >= 1.0 / lb
    ensures SampledNow(a, e)
  {
    hide Earned, Share, Boundary;
    RefusalSaves(a.samplers[op].limiting.bucket, since, lb, e.at);
    EnoughEarned(lb, e.at - since);
  }

  lemma EnoughEarned(lb: real, span: real)
    requires lb > 0.0 && span >= 1.0 / lb
    ensures Earned(lb, span) >= 1.0
  {
  }

  /** Guaranteed throughput: let op have an entry whose last call was at `since`, with lower bound lb > 0.
      In any run that keeps that lower bound, with any trace ids, rate updates, failing updates and calls for
      other operations, ending in a call for op at least 1/lb later, some call for op was sampled. */
  lemma {:induction false} GuaranteedThroughput(a: Adaptive, now: real, events: seq<Event>, op: string, since: real,
                                                lb: real)
    requires AdaptiveOk(a, now) && ValidRun(now, events) && events != [] && lb > 0.0
    requires Saved(a, op, since, lb)
    requires forall i :: 0 <= i < |events| ==> KeepsLowerBound(events[i], lb)
    requires var last := events[|events| - 1]; last.Sample? && last.operation == op && last.at - since >= 1.0 / lb
    ensures SomeSampled(a, now, events, op)
    decreases |events|
  {
    hide Earned, Share;
    ReadyWhenOk(a.samplers, now);
    StepKeepsOk(a, now, events[0]);
    if |events| == 1 {
      SavedEnough(a, now, events[0], op, since, lb);
    } else if !(events[0].Sample? && events[0].operation == op && SampledNow(a, events[0])) {
      UnsampledStepSaves(a, now, events[0], op, since, lb);
      GuaranteedThroughput(Step(a, events[0]), events[0].at, events[1..], op, since, lb);
    }
  }

  /** Any call for op leaves its limiter where GuaranteedThroughput starts. */
  lemma CallStartsWindow(a: Adaptive, now: real, e: Event)
    requires AdaptiveOk(a, now) && Ready(a.samplers) && ValidEvent(now, e) && e.Sample?
    requires e.operation in Step(a, e).samplers
    ensures Saved(Step(a, e), e.operation, e.at, Step(a, e).samplers[e.operation].lowerBound)
  {
  }

  /** The guarantee between two calls for an operation: when they are at least 1/lb apart, some call after the first
      one up to and including the second is sampled, whatever the trace ids are and whatever is called or updated in
      between, as long as no update changes the lower bound. */
  lemma SampledBetweenCalls(a: Adaptive, now: real, first: Event, events: seq<Event>, lb: real)
    requires AdaptiveOk(a, now) && ValidEvent(now, first) && first.Sample? && Ready(a.samplers)
    requires AdaptiveOk(Step(a, first), first.at) && ValidRun(first.at, events) && events != []
    requires first.operation in Step(a, first).samplers
             && Step(a, first).samplers[first.operation].lowerBound == lb > 0.0
    requires forall i :: 0 <= i < |events| ==> KeepsLowerBound(events[i], lb)
    requires var last := events[|events| - 1];
             last.Sample? && last.operation == first.operation && last.at - first.at >= 1.0 / lb
    ensures SomeSampled(Step(a, first), first.at, events, first.operation)
  {
    hide Step, SomeSampled, AdaptiveOk;
    CallStartsWindow(a, now, first);
    GuaranteedThroughput(Step(a, first), first.at, events, first.operation, first.at, lb);
  }
}
