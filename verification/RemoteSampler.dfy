/** The remotely controlled sampler: what a strategy response does to the current sampler. */
module RemoteSampler {
  import opened Prelude
  import opened TokenBucket
  import opened SamplerModels
  import opened SamplerTheorems

  datatype AnySampler =
    | ConstSampler(decision: bool)
    | ProbSampler(prob: Prob)
    | LimitingSampler(limiting: Limiting)
    | AdaptiveSampler(adaptive: Adaptive)

  datatype StrategyType = PROBABILISTIC | RATE_LIMITING | OTHER

  /** A parsed response. An absent probability or rate falls back to the source's defaults. */
  datatype Response = Response(
    operationSampling: Option<Strategies>, strategyType: StrategyType,
    samplingRate: Option<real>, maxTracesPerSecond: Option<real>)

  datatype Remote = Remote(sampler: AnySampler, maxOperations: nat, updated: nat, failed: nat)

  /** The random numbers a response may consume. */
  datatype Draws = Draws(entries: seq<real>, limiter: real)

  function Counted(r: Remote, ok: bool): Remote {
    if ok then r.(updated := r.updated + 1) else r.(failed := r.failed + 1)
  }

  ghost predicate SamplerReady(s: AnySampler) {
    match s
    case LimitingSampler(l) => l.bucket.cap != 0.0
    case AdaptiveSampler(a) => Ready(a.samplers)
    case _ => true
  }

  function UpdatePerOperation(r: Remote, s: Strategies, now: real, draws: seq<real>): Remote
    requires SamplerReady(r.sampler) && |draws| >= |s.perOperation|
  {
    if r.sampler.AdaptiveSampler? then
      var (a, err) := UpdateAdaptive(r.sampler.adaptive, s, now, draws);
      Counted(r.(sampler := AdaptiveSampler(a)), err == None)
    else
      match MakeAdaptive(s, r.maxOperations, now, draws)
      case Err(_) => Counted(r, false)
      case Ok(a) => Counted(r.(sampler := AdaptiveSampler(a)), true)
  }

  function UpdateProbabilistic(r: Remote, rate: real): Remote {
    match MakeProb(rate)
    case Err(_) => Counted(r, false)
    case Ok(p) => if r.sampler == ProbSampler(p) then r else Counted(r.(sampler := ProbSampler(p)), true)
  }

  function UpdateRateLimiting(r: Remote, rate: real, now: real, draw: real): Remote
    requires SamplerReady(r.sampler)
  {
    if rate < 0.0 || rate >= 500.0 then Counted(r, false)
    else if r.sampler.LimitingSampler? then
      (match UpdateLimiting(r.sampler.limiting, rate, now)
       case (_, Err(_)) => Counted(r, false)
       case (l, Ok(changed)) => if changed then Counted(r.(sampler := LimitingSampler(l)), true) else r)
    else
      (match MakeLimiting(rate, now, draw)
       case Err(_) => Counted(r, false)
       case Ok(l) => Counted(r.(sampler := LimitingSampler(l)), true))
  }

  ghost predicate EnoughDraws(resp: Response, draws: Draws) {
    && 0.0 <= draws.limiter < 1.0
    && (resp.operationSampling.Some? ==> |draws.entries| >= |resp.operationSampling.value.perOperation|)
    && forall i :: 0 <= i < |draws.entries| ==> 0.0 <= draws.entries[i] < 1.0
  }

  /** _update_sampler. */
  function Respond(r: Remote, resp: Response, now: real, draws: Draws): Remote
    requires SamplerReady(r.sampler)
    requires resp.operationSampling.Some? ==> |draws.entries| >= |resp.operationSampling.value.perOperation|
  {
    if resp.operationSampling.Some? then UpdatePerOperation(r, resp.operationSampling.value, now, draws.entries)
    else
      match resp.strategyType
      case PROBABILISTIC => UpdateProbabilistic(r, OrElse(resp.samplingRate, DEFAULT_SAMPLING_PROBABILITY))
      case RATE_LIMITING =>
        UpdateRateLimiting(r, OrElse(resp.maxTracesPerSecond, DEFAULT_LOWER_BOUND), now, draws.limiter)
      case OTHER => Counted(r, false)
  }

  // ------------------------------------------------------------- one response

  /** The response is one that the source cannot apply. */
  ghost predicate Rejected(r: Remote, resp: Response, now: real, draws: Draws)
    requires SamplerReady(r.sampler)
    requires resp.operationSampling.Some? ==> |draws.entries| >= |resp.operationSampling.value.perOperation|
  {
    Respond(r, resp, now, draws).failed > r.failed
  }

  /** Each response counts at most once, as updated or as failed. A failed one leaves the sampler as it was,
      unless it was an adaptive update in place; one that counts as neither leaves it as it was too. */
  lemma EachResponseCountsOnce(r: Remote, resp: Response, now: real, draws: Draws)
    requires SamplerReady(r.sampler) && EnoughDraws(resp, draws)
    ensures var t := Respond(r, resp, now, draws);
            && t.maxOperations == r.maxOperations
            && r.updated <= t.updated && r.failed <= t.failed
            && t.updated + t.failed <= r.updated + r.failed + 1
            && (t.updated == r.updated && !(r.sampler.AdaptiveSampler? && resp.operationSampling.Some?) ==>
                t.sampler == r.sampler)
  {
  }

  /** Exactly which rate-limiting responses are refused. */
  lemma RateLimitingFailsIff(r: Remote, resp: Response, now: real, draws: Draws)
    requires SamplerReady(r.sampler) && EnoughDraws(resp, draws)
    requires resp.operationSampling == None && resp.strategyType == RATE_LIMITING
    ensures var rate := OrElse(resp.maxTracesPerSecond, DEFAULT_LOWER_BOUND);
            Rejected(r, resp, now, draws) <==> !(0.0 <= rate < 500.0)
  {
  }

  ghost predicate RemoteOk(r: Remote, now: real) {
    match r.sampler
    case ConstSampler(_) => true
    case ProbSampler(p) => ProbOk(p)
    case LimitingSampler(l) => LimitingOk(l) && l.bucket.last <= now
    case AdaptiveSampler(a) => AdaptiveOk(a, now)
  }

  lemma {:induction false} BuiltEntriesOk(entries: Entries, ss: seq<Strategy>, lowerBound: real, now: real,
                                          draws: seq<real>)
    requires EntriesOk(entries, now) && |draws| >= |ss|
    requires forall i :: 0 <= i < |draws| ==> 0.0 <= draws[i] < 1.0
    ensures var r := BuildEntries(entries, ss, lowerBound, now, draws); r.Ok? ==> EntriesOk(r.value, now)
    decreases |ss|
  {
    if ss != [] {
      MadeGuaranteedAgrees(ss[0].operation, lowerBound, RateOf(ss[0]), now, draws[0]);
      var made := MakeGuaranteed(ss[0].operation, lowerBound, RateOf(ss[0]), now, draws[0]);
      if made.Ok? {
        BuiltEntriesOk(entries[ss[0].operation := made.value], ss[1..], lowerBound, now, draws[1..]);
      }
    }
  }

  /** Whatever the sampler was and whatever comes, it stays one whose parts agree. */
  lemma ResponseKeepsOk(r: Remote, resp: Response, now: real, draws: Draws)
    requires RemoteOk(r, now) && SamplerReady(r.sampler) && EnoughDraws(resp, draws)
    ensures RemoteOk(Respond(r, resp, now, draws), now)
  {
    if resp.operationSampling.Some? {
      var s := resp.operationSampling.value;
      if r.sampler.AdaptiveSampler? {
        StepKeepsOk(r.sampler.adaptive, now, Update(s, now, draws.entries));
      } else {
        BuiltEntriesOk(map[], s.perOperation, LowerBoundOf(s), now, draws.entries);
      }
    } else if resp.strategyType == RATE_LIMITING {
      RateLimitingKeepsOk(r, OrElse(resp.maxTracesPerSecond, DEFAULT_LOWER_BOUND), now, draws.limiter);
    }
  }

  lemma RateLimitingKeepsOk(r: Remote, rate: real, now: real, draw: real)
    requires RemoteOk(r, now) && SamplerReady(r.sampler) && 0.0 <= draw < 1.0
    ensures RemoteOk(UpdateRateLimiting(r, rate, now, draw), now)
  {
  }

  // ------------------------------------------- polling a rate-limiting strategy

  datatype PollEvent =
    | Trace(at: real)                         // is_sampled
    | Poll(at: real, rate: Option<real>)      // a rate-limiting response

  ghost predicate ValidPolls(now: real, events: seq<PollEvent>)
    decreases |events|
  {
    events == [] || (now <= events[0].at && ValidPolls(events[0].at, events[1..]))
  }

  function PollResponse(rate: Option<real>): Response {
    Response(None, RATE_LIMITING, None, rate)
  }

  function PollStep(r: Remote, e: PollEvent): Remote
    requires r.sampler.LimitingSampler? && SamplerReady(r.sampler)
  {
    match e
    case Trace(at) => r.(sampler := LimitingSampler(LimitingSampled(r.sampler.limiting, at).0))
    case Poll(at, rate) => Respond(r, PollResponse(rate), at, Draws([], 0.0))
  }

  /** The bucket operation an event amounts to; a refused or repeated rate amounts to none. */
  function BucketOps(tps: real, e: PollEvent): seq<Op> {
    match e
    case Trace(at) => [Spend(at, 1.0)]
    case Poll(at, rate) =>
      var m := OrElse(rate, DEFAULT_LOWER_BOUND);
      if m < 0.0 || m >= 500.0 || m == tps then [] else [Rescale(at, m, Max(m, 1.0))]
  }

  function RateAfter(tps: real, e: PollEvent): real {
    match e
    case Trace(_) => tps
    case Poll(_, rate) =>
      var m := OrElse(rate, DEFAULT_LOWER_BOUND);
      if m < 0.0 || m >= 500.0 then tps else m
  }

  function AllBucketOps(tps: real, events: seq<PollEvent>): seq<Op>
    decreases |events|
  {
    if events == [] then [] else BucketOps(tps, events[0]) + AllBucketOps(RateAfter(tps, events[0]), events[1..])
  }

  /** How many traces the run samples. */
  ghost function SampledTraces(r: Remote, now: real, events: seq<PollEvent>): nat
    requires RemoteOk(r, now) && r.sampler.LimitingSampler? && ValidPolls(now, events)
    decreases |events|
  {
    if events == [] then 0
    else
      PollKeepsOk(r, now, events[0]);
      (if events[0].Trace? && LimitingSampled(r.sampler.limiting, events[0].at).1 then 1 else 0)
      + SampledTraces(PollStep(r, events[0]), events[0].at, events[1..])
  }

  lemma PollKeepsOk(r: Remote, now: real, e: PollEvent)
    requires RemoteOk(r, now) && r.sampler.LimitingSampler? && now <= e.at
    ensures SamplerReady(r.sampler)
    ensures var t := PollStep(r, e);
            && RemoteOk(t, e.at) && t.sampler.LimitingSampler?
            && t.sampler.limiting.tracesPerSecond == RateAfter(r.sampler.limiting.tracesPerSecond, e)
  {
  }

  /** A poll that repeats the current rate, or that is refused, changes nothing: it never refills the bucket. */
  lemma RepeatedPollChangesNothing(r: Remote, now: real, at: real, rate: Option<real>)
    requires RemoteOk(r, now) && r.sampler.LimitingSampler? && now <= at
    requires BucketOps(r.sampler.limiting.tracesPerSecond, Poll(at, rate)) == []
    ensures PollStep(r, Poll(at, rate)).sampler == r.sampler
  {
  }

  lemma StepIsBucketStep(r: Remote, now: real, e: PollEvent)
    requires RemoteOk(r, now) && r.sampler.LimitingSampler? && now <= e.at
    ensures var ops := BucketOps(r.sampler.limiting.tracesPerSecond, e);
            && |ops| <= 1
            && (ops == [] ==> PollStep(r, e).sampler == r.sampler)
            && (ops != [] ==> ValidOp(r.sampler.limiting.bucket.last, ops[0]) && ops[0].at == e.at)
            && (ops != [] ==> PollStep(r, e).sampler.limiting.bucket == Apply(r.sampler.limiting.bucket, ops[0]).0)
  {
  }

  /** End to end: under any polling of rate-limiting strategies, the traces sampled are bounded by the balance at
      the start, what the rates in force earned, and the growth of the bucket; however often the server is polled. */
  lemma {:induction false} PollingBound(r: Remote, now: real, events: seq<PollEvent>)
    requires RemoteOk(r, now) && r.sampler.LimitingSampler? && ValidPolls(now, events)
    ensures var b, ops := r.sampler.limiting.bucket, AllBucketOps(r.sampler.limiting.tracesPerSecond, events);
            && Timed(b.last, ops)
            && SampledTraces(r, now, events) as real == Granted(ops, Decisions(b, ops))
            && SampledTraces(r, now, events) as real
               <= b.balance + Refill(b.rate, b.last, ops) + Growth(b.cap, ops)
    decreases |events|
  {
    hide Earned, Share;
    var b, ops := r.sampler.limiting.bucket, AllBucketOps(r.sampler.limiting.tracesPerSecond, events);
    if events != [] {
      var t, e := PollStep(r, events[0]), events[0];
      PollKeepsOk(r, now, e);
      StepIsBucketStep(r, now, e);
      PollingBound(t, e.at, events[1..]);
      var rest := AllBucketOps(t.sampler.limiting.tracesPerSecond, events[1..]);
      var head := BucketOps(r.sampler.limiting.tracesPerSecond, e);
      if head == [] {
        assert ops == rest;
      } else {
        ApplyKeepsSane(b, head[0]);
        assert ops == head + rest && ops[0] == head[0] && ops[1..] == rest;
        Unroll(b, ops);
      }
    }
    SpendingBound(b, ops);
  }
}
