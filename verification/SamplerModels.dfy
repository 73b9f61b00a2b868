/** The samplers as values: what one call does to the state, including the calls that fail half way.
    draw stands for random.random(), in [0, 1); now is the clock. */
module SamplerModels {
  import opened Prelude
  import opened TokenBucket

  const DEFAULT_SAMPLING_PROBABILITY: real := 0.001
  const DEFAULT_LOWER_BOUND: real := 1.0 / 600.0

  datatype TagKind = Const | Probabilistic | RateLimiting | LowerBound

  /** sampler.type and sampler.param. */
  datatype Tags = Tags(kind: TagKind, param: real)

  datatype Error = BadSamplingRate | NegativeRate | RateOutOfRange | UnsupportedStrategy

  // ------------------------------------------------------------ probabilistic

  datatype Prob = Prob(rate: real, boundary: real)

  function Boundary(rate: real): real {
    rate * (TWO_64 as real)
  }

  function MakeProb(rate: real): Result<Prob, Error> {
    if 0.0 <= rate <= 1.0 then Ok(Prob(rate, Boundary(rate))) else Err(BadSamplingRate)
  }

  /** The low 64 bits of the trace id, compared with the boundary. */
  predicate ProbSampled(p: Prob, traceId: int) {
    (traceId % TWO_64) as real < p.boundary
  }

  // ------------------------------------------------------------ rate limiting

  datatype Limiting = Limiting(tracesPerSecond: real, tagParam: real, bucket: Bucket)

  /** The random balance a new limiter starts with. */
  function StartBalance(cap: real, draw: real): (b: real)
    ensures cap >= 0.0 && 0.0 <= draw < 1.0 ==> 0.0 <= b <= cap
  {
    if cap >= 0.0 && 0.0 <= draw < 1.0 then PartOf(cap, draw); cap * draw else cap * draw
  }

  lemma PartOf(cap: real, draw: real)
    requires cap >= 0.0 && 0.0 <= draw < 1.0
    ensures 0.0 <= cap * draw <= cap
  {
  }

  function MakeLimiting(rate: real, now: real, draw: real): Result<Limiting, Error> {
    if rate < 0.0 then Err(NegativeRate)
    else Ok(Limiting(rate, rate, Bucket(rate, Max(rate, 1.0), StartBalance(Max(rate, 1.0), draw), now)))
  }

  function LimitingSampled(l: Limiting, now: real): (Limiting, bool)
    requires l.bucket.cap != 0.0
  {
    var (bucket, ok) := Apply(l.bucket, Spend(now, 1.0));
    (l.(bucket := bucket), ok)
  }

  /** update: None when nothing changed, or what _init did. */
  function UpdateLimiting(l: Limiting, rate: real, now: real): (Limiting, Result<bool, Error>)
    requires l.bucket.cap != 0.0
  {
    if l.tracesPerSecond == rate then (l, Ok(false))
    else if rate < 0.0 then (l, Err(NegativeRate))
    else (Limiting(rate, rate, Apply(l.bucket, Rescale(now, rate, Max(rate, 1.0))).0), Ok(true))
  }

  // --------------------------------------------- guaranteed throughput per operation

  datatype Guaranteed = Guaranteed(
    operation: string, rate: real, tagParam: real, lowerBound: real, prob: Prob, limiting: Limiting)

  function MakeGuaranteed(operation: string, lowerBound: real, rate: real, now: real, draw: real)
    : Result<Guaranteed, Error>
  {
    match MakeProb(rate)
    case Err(e) => Err(e)
    case Ok(prob) =>
      match MakeLimiting(lowerBound, now, draw)
      case Err(e) => Err(e)
      case Ok(limiting) => Ok(Guaranteed(operation, rate, rate, lowerBound, prob, limiting))
  }

  /** The limiter is charged whether or not the probabilistic sampler said yes. */
  function GuaranteedSampled(g: Guaranteed, traceId: int, now: real): (Guaranteed, bool, Tags)
    requires g.limiting.bucket.cap != 0.0
  {
    var (limiting, ok) := LimitingSampled(g.limiting, now);
    var g1 := g.(limiting := limiting);
    if ProbSampled(g.prob, traceId) then (g1, true, Tags(Probabilistic, g.prob.rate))
    else (g1, ok, Tags(LowerBound, g.tagParam))
  }

  /** The rate first, then the lower bound; a failure keeps what was done before it. */
  function UpdateGuaranteed(g: Guaranteed, lowerBound: real, rate: real, now: real): (Guaranteed, Option<Error>)
    requires g.limiting.bucket.cap != 0.0
  {
    if g.rate != rate && MakeProb(rate).Err? then (g, Some(BadSamplingRate))
    else
      var g1 := if g.rate != rate then g.(prob := MakeProb(rate).value, rate := rate, tagParam := rate) else g;
      if g.lowerBound == lowerBound then (g1, None)
      else
        match UpdateLimiting(g1.limiting, lowerBound, now)
        case (_, Err(e)) => (g1, Some(e))
        case (limiting, Ok(_)) => (g1.(limiting := limiting, lowerBound := lowerBound), None)
  }

  // ----------------------------------------------------------------- adaptive

  datatype Strategy = Strategy(operation: string, samplingRate: Option<real>)

  datatype Strategies = Strategies(
    perOperation: seq<Strategy>, defaultLowerBound: Option<real>, defaultProbability: Option<real>)

  function OrElse(x: Option<real>, default: real): real {
    if x.Some? then x.value else default
  }

  function RateOf(s: Strategy): real {
    OrElse(s.samplingRate, DEFAULT_SAMPLING_PROBABILITY)
  }

  function LowerBoundOf(s: Strategies): real {
    OrElse(s.defaultLowerBound, DEFAULT_LOWER_BOUND)
  }

  function DefaultRateOf(s: Strategies): real {
    OrElse(s.defaultProbability, DEFAULT_SAMPLING_PROBABILITY)
  }

  type Entries = map<string, Guaranteed>

  datatype Adaptive = Adaptive(
    samplers: Entries, defaultSampler: Prob, defaultRate: real, lowerBound: real, maxOperations: nat)

  ghost predicate Ready(entries: Entries) {
    forall op :: op in entries ==> entries[op].limiting.bucket.cap != 0.0
  }

  /** One strategy: a new entry, or an update in place. */
  function ApplyStrategy(entries: Entries, s: Strategy, lowerBound: real, now: real, draw: real)
    : (r: (Entries, Option<Error>))
    requires Ready(entries)
    ensures Ready(r.0) && entries.Keys <= r.0.Keys <= entries.Keys + {s.operation}
    ensures forall op :: op in entries && op != s.operation ==> r.0[op] == entries[op]
  {
    if s.operation in entries then
      var (g, err) := UpdateGuaranteed(entries[s.operation], lowerBound, RateOf(s), now);
      (entries[s.operation := g], err)
    else
      match MakeGuaranteed(s.operation, lowerBound, RateOf(s), now, draw)
      case Err(e) => (entries, Some(e))
      case Ok(g) => (entries[s.operation := g], None)
  }

  /** The loop of update: it stops at the first strategy that fails, keeping the earlier ones. */
  function ApplyStrategies(entries: Entries, ss: seq<Strategy>, lowerBound: real, now: real, draws: seq<real>)
    : (r: (Entries, Option<Error>))
    requires Ready(entries) && |draws| >= |ss|
    ensures Ready(r.0) && entries.Keys <= r.0.Keys
    decreases |ss|
  {
    if ss == [] then (entries, None)
    else
      var (next, err) := ApplyStrategy(entries, ss[0], lowerBound, now, draws[0]);
      if err.Some? then (next, err) else ApplyStrategies(next, ss[1..], lowerBound, now, draws[1..])
  }

  /** update: the default probability is assigned before its sampler is built, so a bad one stays. */
  function UpdateAdaptive(a: Adaptive, s: Strategies, now: real, draws: seq<real>): (r: (Adaptive, Option<Error>))
    requires Ready(a.samplers) && |draws| >= |s.perOperation|
    ensures Ready(r.0.samplers)
  {
    var (entries, err) := ApplyStrategies(a.samplers, s.perOperation, LowerBoundOf(s), now, draws);
    var a1 := a.(samplers := entries);
    if err.Some? then (a1, err)
    else
      var a2 := a1.(lowerBound := LowerBoundOf(s));
      if a2.defaultRate == DefaultRateOf(s) then (a2, None)
      else
        var a3 := a2.(defaultRate := DefaultRateOf(s));
        match MakeProb(a3.defaultRate)
        case Err(e) => (a3, Some(e))
        case Ok(p) => (a3.(defaultSampler := p), None)
  }

  /** The constructor builds a fresh entry for every strategy, so the last of two with one name wins. */
  function BuildEntries(entries: Entries, ss: seq<Strategy>, lowerBound: real, now: real, draws: seq<real>)
    : (r: Result<Entries, Error>)
    requires |draws| >= |ss|
    decreases |ss|
  {
    if ss == [] then Ok(entries)
    else
      match MakeGuaranteed(ss[0].operation, lowerBound, RateOf(ss[0]), now, draws[0])
      case Err(e) => Err(e)
      case Ok(g) => BuildEntries(entries[ss[0].operation := g], ss[1..], lowerBound, now, draws[1..])
  }

  function MakeAdaptive(s: Strategies, maxOperations: nat, now: real, draws: seq<real>): Result<Adaptive, Error>
    requires |draws| >= |s.perOperation|
  {
    match BuildEntries(map[], s.perOperation, LowerBoundOf(s), now, draws)
    case Err(e) => Err(e)
    case Ok(entries) =>
      match MakeProb(DefaultRateOf(s))
      case Err(e) => Err(e)
      case Ok(p) => Ok(Adaptive(entries, p, DefaultRateOf(s), LowerBoundOf(s), maxOperations))
  }

  function AdaptiveSampled(a: Adaptive, traceId: int, operation: string, now: real, draw: real)
    : (r: (Adaptive, Result<(bool, Tags), Error>))
    requires Ready(a.samplers)
    ensures Ready(r.0.samplers)
  {
    if operation in a.samplers then
      var (g, ok, tags) := GuaranteedSampled(a.samplers[operation], traceId, now);
      (a.(samplers := a.samplers[operation := g]), Ok((ok, tags)))
    else if |a.samplers| >= a.maxOperations then
      (a, Ok((ProbSampled(a.defaultSampler, traceId), Tags(Probabilistic, a.defaultSampler.rate))))
    else
      match MakeGuaranteed(operation, a.lowerBound, a.defaultRate, now, draw)
      case Err(e) => (a, Err(e))
      case Ok(g) =>
        var (g1, ok, tags) := GuaranteedSampled(g, traceId, now);
        (a.(samplers := a.samplers[operation := g1]), Ok((ok, tags)))
  }
}
