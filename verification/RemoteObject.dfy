/** The remotely controlled sampler as an object: it updates the sampler it holds in place, or replaces it. */
module RemoteObject {
  import opened Prelude
  import opened SamplerModels
  import opened RemoteSampler
  import SamplerObjects

  datatype Held =
    | HeldConst(decision: bool)
    | HeldProb(prob: Prob)
    | HeldLimiting(limiting: SamplerObjects.RateLimitingSampler)
    | HeldAdaptive(adaptive: SamplerObjects.AdaptiveSamplerObject)

  class RemoteControlledSampler {
    var sampler: Held
    const maxOperations: nat
    var updated: nat
    var failed: nat
    ghost var Repr: set<object>

    ghost predicate Valid()
      reads this, Repr
    {
      && this in Repr
      && match sampler
         case HeldLimiting(l) => {l, l.limiter} <= Repr && this !in {l, l.limiter as object}
           && l.limiter.maxBalance != 0.0
         case HeldAdaptive(a) => a in Repr && a.Repr <= Repr && this !in a.Repr && a.Valid() && Ready(a.Entries())
         case _ => true
    }

    ghost function Value(): Remote
      requires Valid()
      reads this, Repr
    {
      Remote(match sampler
             case HeldConst(d) => ConstSampler(d)
             case HeldProb(p) => ProbSampler(p)
             case HeldLimiting(l) => LimitingSampler(l.Value())
             case HeldAdaptive(a) => AdaptiveSampler(a.Value()),
             maxOperations, updated, failed)
    }

    method Count(ok: bool)
      requires Valid()
      modifies this`updated, this`failed
      ensures Valid() && Value() == Counted(old(Value()), ok)
    {
      hide SamplerObjects.AdaptiveSamplerObject.Value, SamplerObjects.AdaptiveSamplerObject.Entries, Ready;
      if ok { updated := updated + 1; } else { failed := failed + 1; }
    }

    method UpdateSampler(resp: Response, now: real, draws: Draws)
      requires Valid() && EnoughDraws(resp, draws)
      modifies Repr
      ensures Valid() && fresh(Repr - old(Repr)) && Value() == Respond(old(Value()), resp, now, draws)
    {
      if resp.operationSampling.Some? {
        UpdateAdaptiveSampler(resp.operationSampling.value, now, draws.entries);
      } else {
        match resp.strategyType
        case OTHER => Count(false);
        case PROBABILISTIC => UpdateProb(OrElse(resp.samplingRate, DEFAULT_SAMPLING_PROBABILITY));
        case RATE_LIMITING =>
          UpdateLimit(OrElse(resp.maxTracesPerSecond, DEFAULT_LOWER_BOUND), now, draws.limiter);
      }
    }

    method UpdateAdaptiveSampler(s: Strategies, now: real, draws: seq<real>)
      requires Valid() && |draws| >= |s.perOperation|
      modifies Repr
      ensures Valid() && fresh(Repr - old(Repr)) && Value() == UpdatePerOperation(old(Value()), s, now, draws)
    {
      hide UpdateAdaptive, MakeAdaptive;
      var ok: bool;
      if sampler.HeldAdaptive? {
        ok := UpdateInPlace(s, now, draws);
      } else {
        ok := ReplaceAdaptive(s, now, draws);
      }
      Count(ok);
    }

    method UpdateInPlace(s: Strategies, now: real, draws: seq<real>) returns (ok: bool)
      requires Valid() && |draws| >= |s.perOperation| && sampler.HeldAdaptive?
      modifies Repr
      ensures Valid() && fresh(Repr - old(Repr))
      ensures var (a, err) := UpdateAdaptive(old(sampler.adaptive.Value()), s, now, draws);
              ok == (err == None) && Value() == old(Value()).(sampler := AdaptiveSampler(a))
    {
      hide UpdateAdaptive;
      var err := sampler.adaptive.Update(s, now, draws);
      Repr := Repr + sampler.adaptive.Repr;
      ok := err == None;
    }

    method ReplaceAdaptive(s: Strategies, now: real, draws: seq<real>) returns (ok: bool)
      requires Valid() && |draws| >= |s.perOperation|
      modifies this`sampler, this`Repr
      ensures Valid() && fresh(Repr - old(Repr))
      ensures match MakeAdaptive(s, maxOperations, now, draws)
              case Err(_) => !ok && Value() == old(Value())
              case Ok(a) => ok && Value() == old(Value()).(sampler := AdaptiveSampler(a))
    {
      hide MakeAdaptive;
      var a, err := SamplerObjects.AdaptiveSamplerObject.Create(s, maxOperations, now, draws);
      if a != null {
        MadeReady(s, now, draws);
        sampler := HeldAdaptive(a);
        Repr := Repr + a.Repr;
      }
      ok := a != null;
    }

    lemma MadeReady(s: Strategies, now: real, draws: seq<real>)
      requires |draws| >= |s.perOperation|
      ensures var r := MakeAdaptive(s, maxOperations, now, draws); r.Ok? ==> Ready(r.value.samplers)
    {
      BuiltReady(map[], s.perOperation, LowerBoundOf(s), now, draws);
    }

    static lemma {:induction false} BuiltReady(entries: Entries, ss: seq<Strategy>, lowerBound: real, now: real,
                                               draws: seq<real>)
      requires |draws| >= |ss| && Ready(entries)
      ensures var r := BuildEntries(entries, ss, lowerBound, now, draws); r.Ok? ==> Ready(r.value)
      decreases |ss|
    {
      if ss != [] {
        var made := MakeGuaranteed(ss[0].operation, lowerBound, RateOf(ss[0]), now, draws[0]);
        if made.Ok? { BuiltReady(entries[ss[0].operation := made.value], ss[1..], lowerBound, now, draws[1..]); }
      }
    }

    method UpdateProb(rate: real)
      requires Valid()
      modifies this
      ensures Valid() && Repr == old(Repr) && Value() == UpdateProbabilistic(old(Value()), rate)
    {
      match MakeProb(rate)
      case Err(_) => Count(false);
      case Ok(p) =>
        if sampler != HeldProb(p) {
          sampler := HeldProb(p);
          Count(true);
        }
    }

    method UpdateLimit(rate: real, now: real, draw: real)
      requires Valid()
      modifies Repr
      ensures Valid() && fresh(Repr - old(Repr)) && Value() == UpdateRateLimiting(old(Value()), rate, now, draw)
    {
      if rate < 0.0 || rate >= 500.0 {
        Count(false);
      } else if sampler.HeldLimiting? {
        var r := sampler.limiting.Update(rate, now);
        if r == Ok(true) { Count(true); }
      } else {
        var l := new SamplerObjects.RateLimitingSampler(rate, now, draw);
        sampler := HeldLimiting(l);
        Repr := Repr + {l, l.limiter};
        Count(true);
      }
    }
  }
}
