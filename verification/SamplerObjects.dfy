/** The samplers as the source has them: objects that hold other objects and change in place. Each method is
    proved to do to the object's value what the function of the same name does. */
module SamplerObjects {
  import opened Prelude
  import opened TokenBucket
  import opened SamplerModels

  class RateLimiter {
    var creditsPerSecond: real
    var maxBalance: real
    var balance: real
    var lastTick: real

    ghost function Value(): Bucket
      reads this
    {
      Bucket(creditsPerSecond, maxBalance, balance, lastTick)
    }

    constructor (creditsPerSecond: real, maxBalance: real, now: real, draw: real)
      ensures Value() == Bucket(creditsPerSecond, maxBalance, StartBalance(maxBalance, draw), now)
    {
      this.creditsPerSecond := creditsPerSecond;
      this.maxBalance := maxBalance;
      balance := StartBalance(maxBalance, draw);
      lastTick := now;
    }

    method UpdateBalance(now: real)
      modifies this
      ensures Value() == Tick(old(Value()), now)
    {
      var elapsed := now - lastTick;
      lastTick := now;
      balance := balance + Earned(creditsPerSecond, elapsed);
      if balance > maxBalance { balance := maxBalance; }
    }

    method CheckCredit(cost: real, now: real) returns (ok: bool)
      requires maxBalance != 0.0
      modifies this
      ensures (Value(), ok) == Apply(old(Value()), Spend(now, cost))
    {
      UpdateBalance(now);
      if balance >= cost {
        balance := balance - cost;
        return true;
      }
      return false;
    }

    method Update(creditsPerSecond: real, maxBalance: real, now: real)
      requires this.maxBalance != 0.0
      modifies this
      ensures Value() == Apply(old(Value()), Rescale(now, creditsPerSecond, maxBalance)).0
    {
      UpdateBalance(now);
      this.creditsPerSecond := creditsPerSecond;
      balance := Share(maxBalance, balance, this.maxBalance);
      this.maxBalance := maxBalance;
    }
  }

  class RateLimitingSampler {
    const limiter: RateLimiter
    var tracesPerSecond: real
    var tagParam: real

    ghost function Value(): Limiting
      reads this, limiter
    {
      Limiting(tracesPerSecond, tagParam, limiter.Value())
    }

    constructor (rate: real, now: real, draw: real)
      requires rate >= 0.0
      ensures MakeLimiting(rate, now, draw) == Ok(Value()) && fresh(limiter)
    {
      limiter := new RateLimiter(rate, Max(rate, 1.0), now, draw);
      tracesPerSecond, tagParam := rate, rate;
    }

    method IsSampled(now: real) returns (ok: bool)
      requires limiter.maxBalance != 0.0
      modifies limiter
      ensures (Value(), ok) == LimitingSampled(old(Value()), now)
    {
      ok := limiter.CheckCredit(1.0, now);
    }

    method Update(rate: real, now: real) returns (r: Result<bool, Error>)
      requires limiter.maxBalance != 0.0
      modifies this, limiter
      ensures (Value(), r) == UpdateLimiting(old(Value()), rate, now)
    {
      if tracesPerSecond == rate { return Ok(false); }
      if rate < 0.0 { return Err(NegativeRate); }
      tagParam := rate;
      tracesPerSecond := rate;
      limiter.Update(rate, Max(rate, 1.0), now);
      return Ok(true);
    }
  }

  class GuaranteedSampler {
    const operation: string
    var rate: real
    var tagParam: real
    var lowerBound: real
    var probabilistic: Prob
    const lowerBoundSampler: RateLimitingSampler

    ghost function Footprint(): set<object> {
      {this, lowerBoundSampler, lowerBoundSampler.limiter}
    }

    ghost function Value(): Guaranteed
      reads Footprint()
    {
      Guaranteed(operation, rate, tagParam, lowerBound, probabilistic, lowerBoundSampler.Value())
    }

    ghost predicate Usable()
      reads Footprint()
    {
      lowerBoundSampler.limiter.maxBalance != 0.0
    }

    constructor (operation: string, lowerBound: real, rate: real, now: real, draw: real)
      requires MakeProb(rate).Ok? && lowerBound >= 0.0
      ensures MakeGuaranteed(operation, lowerBound, rate, now, draw) == Ok(Value())
      ensures fresh(Footprint()) && Usable()
    {
      this.operation := operation;
      this.rate, this.tagParam, this.lowerBound := rate, rate, lowerBound;
      probabilistic := MakeProb(rate).value;
      lowerBoundSampler := new RateLimitingSampler(lowerBound, now, draw);
    }

    /** The source's constructor: both inner samplers assert their arguments. */
    static method Create(operation: string, lowerBound: real, rate: real, now: real, draw: real)
      returns (g: GuaranteedSampler?, err: Option<Error>)
      ensures g == null <==> err.Some?
      ensures g == null ==> MakeGuaranteed(operation, lowerBound, rate, now, draw) == Err(err.value)
      ensures g != null ==> MakeGuaranteed(operation, lowerBound, rate, now, draw) == Ok(g.Value())
      ensures g != null ==> fresh(g.Footprint()) && g.Usable()
    {
      if MakeProb(rate).Err? { return null, Some(BadSamplingRate); }
      if lowerBound < 0.0 { return null, Some(NegativeRate); }
      g := new GuaranteedSampler(operation, lowerBound, rate, now, draw);
      err := None;
    }

    method IsSampled(traceId: int, now: real) returns (ok: bool, tags: Tags)
      requires Usable()
      modifies Footprint()
      ensures (Value(), ok, tags) == GuaranteedSampled(old(Value()), traceId, now) && Usable()
      ensures tags.kind == Probabilistic <==> (traceId % TWO_64) as real < old(probabilistic.boundary)
      ensures tags.kind == Probabilistic ==> ok
    {
      if ProbSampled(probabilistic, traceId) {
        var _ := lowerBoundSampler.IsSampled(now);
        return true, Tags(Probabilistic, probabilistic.rate);
      }
      ok := lowerBoundSampler.IsSampled(now);
      tags := Tags(LowerBound, tagParam);
    }

    method Update(lowerBound: real, rate: real, now: real) returns (err: Option<Error>)
      requires Usable()
      modifies Footprint()
      ensures (Value(), err) == UpdateGuaranteed(old(Value()), lowerBound, rate, now) && Usable()
    {
      if this.rate != rate {
        match MakeProb(rate)
        case Err(e) => return Some(e);
        case Ok(p) =>
          probabilistic := p;
          this.rate := rate;
          tagParam := rate;
      }
      if this.lowerBound != lowerBound {
        var r := lowerBoundSampler.Update(lowerBound, now);
        if r.Err? { return Some(r.error); }
        this.lowerBound := lowerBound;
      }
      err := None;
    }
  }

  /** Entries of the dictionary are separate objects: changing one leaves the others alone. */
  class AdaptiveSamplerObject {
    var samplers: map<string, GuaranteedSampler>
    var defaultSampler: Prob
    var defaultRate: real
    var lowerBound: real
    const maxOperations: nat
    ghost var Repr: set<object>

    ghost predicate Valid()
      reads this, Repr
    {
      && this in Repr
      && (forall k :: k in samplers ==>
            samplers[k] in Repr && samplers[k].Footprint() <= Repr && this !in samplers[k].Footprint()
              && samplers[k].Usable())
      && (forall k, l :: k in samplers && l in samplers && k != l ==>
          samplers[k].Footprint() !! samplers[l].Footprint())
    }

    ghost function Entries(): Entries
      requires Valid()
      reads this, Repr
    {
      map k | k in samplers :: samplers[k].Value()
    }

    ghost function Value(): Adaptive
      requires Valid()
      reads this, Repr
    {
      Adaptive(Entries(), defaultSampler, defaultRate, lowerBound, maxOperations)
    }

    constructor (defaultSampler: Prob, defaultRate: real, lowerBound: real, maxOperations: nat)
      ensures Valid() && fresh(Repr) && Value() ==
              Adaptive(map[], defaultSampler, defaultRate, lowerBound, maxOperations)
    {
      samplers := map[];
      this.defaultSampler, this.defaultRate, this.lowerBound := defaultSampler, defaultRate, lowerBound;
      this.maxOperations := maxOperations;
      Repr := {this};
      new;
      assert Entries() == map[];
    }

    /** The source's constructor: a fresh entry for every strategy; any failure abandons the object. */
    static method Create(s: Strategies, maxOperations: nat, now: real, draws: seq<real>)
      returns (a: AdaptiveSamplerObject?, err: Option<Error>)
      requires |draws| >= |s.perOperation|
      ensures a == null <==> err.Some?
      ensures a == null ==> MakeAdaptive(s, maxOperations, now, draws).Err?
      ensures a != null ==> a.Valid() && fresh(a.Repr) && MakeAdaptive(s, maxOperations, now, draws) == Ok(a.Value())
    {
      hide MakeGuaranteed;
      var made := new AdaptiveSamplerObject(Prob(0.0, 0.0), DefaultRateOf(s), LowerBoundOf(s), maxOperations);
      ghost var all := BuildEntries(map[], s.perOperation, LowerBoundOf(s), now, draws);
      var i := 0;
      while i < |s.perOperation|
        invariant 0 <= i <= |s.perOperation| && made.Valid() && fresh(made.Repr)
        invariant all == BuildEntries(made.Entries(), s.perOperation[i..], LowerBoundOf(s), now, draws[i..])
        invariant made.defaultRate == DefaultRateOf(s) && made.lowerBound == LowerBoundOf(s)
      {
        assert s.perOperation[i..][1..] == s.perOperation[i + 1..] && draws[i..][1..] == draws[i + 1..];
        err := made.MakeEntry(s.perOperation[i].operation, LowerBoundOf(s), RateOf(s.perOperation[i]), now, draws[i]);
        if err.Some? { return null, err; }
        i := i + 1;
      }
      match MakeProb(DefaultRateOf(s))
      case Err(e) => return null, Some(e);
      case Ok(p) =>
        made.SetDefaultSampler(p);
        return made, None;
    }

    method SetDefaultSampler(p: Prob)
      requires Valid()
      modifies this`defaultSampler
      ensures Valid() && Entries() == old(Entries()) && defaultSampler == p
    {
      defaultSampler := p;
    }

    /** samplers[operation] = g, for a sampler just made. */
    method AddEntry(operation: string, g: GuaranteedSampler)
      requires Valid() && g.Usable() && g.Footprint() !! Repr
      modifies this`samplers, this`Repr
      ensures Valid() && Repr == old(Repr) + g.Footprint() && operation in samplers
      ensures Entries() == old(Entries())[operation := g.Value()]
    {
      hide GuaranteedSampler.Value;
      samplers := samplers[operation := g];
      Repr := Repr + g.Footprint();
    }

    /** Only this entry changes. */
    method SampleEntry(traceId: int, operation: string, now: real) returns (ok: bool, tags: Tags)
      requires Valid() && operation in samplers
      modifies samplers[operation].Footprint()
      ensures Valid()
      ensures Entries()[operation].limiting.bucket.cap != 0.0
      ensures (Entries()[operation], ok, tags) == GuaranteedSampled(old(Entries())[operation], traceId, now)
      ensures Entries() == old(Entries())[operation := Entries()[operation]]
    {
      hide GuaranteedSampled;
      ok, tags := samplers[operation].IsSampled(traceId, now);
    }

    /** A new entry, unless the constructor fails. */
    method MakeEntry(operation: string, lowerBound: real, rate: real, now: real, draw: real)
      returns (err: Option<Error>)
      requires Valid()
      modifies this`samplers, this`Repr
      ensures Valid() && fresh(Repr - old(Repr)) && (err == None ==> operation in samplers)
      ensures match MakeGuaranteed(operation, lowerBound, rate, now, draw)
              case Err(e) => err == Some(e) && Entries() == old(Entries())
              case Ok(g) => err == None && Entries() == old(Entries())[operation := g]
    {
      hide MakeGuaranteed;
      var g: GuaranteedSampler?;
      g, err := GuaranteedSampler.Create(operation, lowerBound, rate, now, draw);
      if g != null { AddEntry(operation, g); }
    }

    method IsSampled(traceId: int, operation: string, now: real, draw: real) returns (r: Result<(bool, Tags), Error>)
      requires Valid() && Ready(Entries())
      modifies Repr
      ensures Valid() && fresh(Repr - old(Repr))
      ensures (Value(), r) == AdaptiveSampled(old(Value()), traceId, operation, now, draw)
    {
      hide GuaranteedSampled, MakeGuaranteed;
      assert Entries().Keys == samplers.Keys;
      ghost var before := Value();
      if operation !in samplers {
        if |samplers| >= maxOperations {
          return Ok((ProbSampled(defaultSampler, traceId), Tags(Probabilistic, defaultSampler.rate)));
        }
        var err := MakeEntry(operation, lowerBound, defaultRate, now, draw);
        if err.Some? { return Err(err.value); }
      }
      ghost var entries := Entries();
      var ok, tags := SampleEntry(traceId, operation, now);
      SampledInPlace(before, entries, Entries(), traceId, operation, now, draw, ok, tags);
      return Ok((ok, tags));
    }

    static lemma SampledInPlace(a: Adaptive, made: Entries, after: Entries, traceId: int, operation: string, now: real,
                                draw: real, ok: bool, tags: Tags)
      requires Ready(a.samplers) && operation in made && operation in after
      requires operation in a.samplers ==> made == a.samplers
      requires operation !in a.samplers ==>
                 |a.samplers| < a.maxOperations && MakeGuaranteed(operation, a.lowerBound, a.defaultRate, now, draw).Ok?
      requires operation !in a.samplers ==>
                 made == a.samplers[operation :=
                                    MakeGuaranteed(operation, a.lowerBound, a.defaultRate, now, draw).value]
      requires made[operation].limiting.bucket.cap != 0.0
      requires (after[operation], ok, tags) == GuaranteedSampled(made[operation], traceId, now)
      requires after == made[operation := after[operation]]
      ensures AdaptiveSampled(a, traceId, operation, now, draw) == (a.(samplers := after), Ok((ok, tags)))
    {
      hide GuaranteedSampled, MakeGuaranteed;
      assert after == a.samplers[operation := after[operation]];
      assert operation in a.samplers || |a.samplers| < a.maxOperations;
    }

    method UpdateEntry(operation: string, lowerBound: real, rate: real, now: real) returns (err: Option<Error>)
      requires Valid() && operation in samplers
      modifies samplers[operation].Footprint()
      ensures Valid()
      ensures (Entries()[operation], err) == UpdateGuaranteed(old(Entries())[operation], lowerBound, rate, now)
      ensures Entries() == old(Entries())[operation := Entries()[operation]]
    {
      hide UpdateGuaranteed, GuaranteedSampler.Value;
      err := samplers[operation].Update(lowerBound, rate, now);
    }

    /** One turn of the loop in update. */
    method ApplyOne(s: Strategy, lowerBound: real, now: real, draw: real) returns (err: Option<Error>)
      requires Valid() && Ready(Entries())
      modifies Repr
      ensures Valid() && fresh(Repr - old(Repr))
      ensures (Entries(), err) == ApplyStrategy(old(Entries()), s, lowerBound, now, draw)
      ensures defaultSampler == old(defaultSampler) && defaultRate == old(defaultRate)
              && this.lowerBound == old(this.lowerBound)
    {
      hide UpdateGuaranteed, MakeGuaranteed;
      if s.operation in samplers {
        err := UpdateEntry(s.operation, lowerBound, RateOf(s), now);
      } else {
        err := MakeEntry(s.operation, lowerBound, RateOf(s), now, draw);
      }
    }

    /** The loop of update. */
    method ApplyAll(s: Strategies, now: real, draws: seq<real>) returns (err: Option<Error>)
      requires Valid() && Ready(Entries()) && |draws| >= |s.perOperation|
      modifies Repr
      ensures Valid() && fresh(Repr - old(Repr))
      ensures (Entries(), err) == ApplyStrategies(old(Entries()), s.perOperation, LowerBoundOf(s), now, draws)
      ensures defaultSampler == old(defaultSampler) && defaultRate == old(defaultRate) && lowerBound == old(lowerBound)
    {
      hide ApplyStrategy;
      ghost var all := ApplyStrategies(Entries(), s.perOperation, LowerBoundOf(s), now, draws);
      err := None;
      var i := 0;
      while i < |s.perOperation|
        invariant 0 <= i <= |s.perOperation| && Valid() && fresh(Repr - old(Repr)) && Ready(Entries()) && err == None
        invariant all == ApplyStrategies(Entries(), s.perOperation[i..], LowerBoundOf(s), now, draws[i..])
        invariant defaultSampler == old(defaultSampler) && defaultRate == old(defaultRate)
                  && lowerBound == old(lowerBound)
      {
        assert s.perOperation[i..][1..] == s.perOperation[i + 1..] && draws[i..][1..] == draws[i + 1..];
        err := ApplyOne(s.perOperation[i], LowerBoundOf(s), now, draws[i]);
        if err.Some? { return err; }
        i := i + 1;
      }
    }

    /** The end of update: the default probability is assigned before its sampler is built. */
    method SetDefaults(s: Strategies) returns (err: Option<Error>)
      requires Valid()
      modifies this`lowerBound, this`defaultRate, this`defaultSampler
      ensures Valid() && Entries() == old(Entries()) && lowerBound == LowerBoundOf(s) && defaultRate == DefaultRateOf(s)
      ensures err == if old(defaultRate) != DefaultRateOf(s) && MakeProb(DefaultRateOf(s)).Err?
              then Some(BadSamplingRate) else None
      ensures defaultSampler == if old(defaultRate) != DefaultRateOf(s) && err == None
              then MakeProb(DefaultRateOf(s)).value
                                else old(defaultSampler)
    {
      lowerBound := LowerBoundOf(s);
      if defaultRate != DefaultRateOf(s) {
        defaultRate := DefaultRateOf(s);
        match MakeProb(defaultRate)
        case Err(e) => return Some(e);
        case Ok(p) => defaultSampler := p;
      }
      err := None;
    }

    method Update(s: Strategies, now: real, draws: seq<real>) returns (err: Option<Error>)
      requires Valid() && Ready(Entries()) && |draws| >= |s.perOperation|
      modifies Repr
      ensures Valid() && fresh(Repr - old(Repr))
      ensures (Value(), err) == UpdateAdaptive(old(Value()), s, now, draws)
    {
      hide ApplyStrategies;
      err := ApplyAll(s, now, draws);
      if err.Some? { return err; }
      err := SetDefaults(s);
    }
  }
}
