/** What the samplers answer and what an update installs, in plain numbers: rates, trace ids, credits. */
module SamplerAnswers {
  import opened Prelude
  import opened TokenBucket
  import opened SamplerModels
  import opened SamplerTheorems
  import opened RemoteSampler

  /** The low 64 bits of the trace id lie below this share of all of them. */
  predicate InShare(rate: real, traceId: int) {
    (traceId % 0x1_0000_0000_0000_0000) as real < rate * (0x1_0000_0000_0000_0000 as real)
  }

  lemma ProbIsShare(p: Prob, traceId: int)
    requires ProbOk(p)
    ensures ProbSampled(p, traceId) <==> InShare(p.rate, traceId)
  {
  }

  lemma MadeProb(rate: real)
    ensures MakeProb(rate).Ok? <==> 0.0 <= rate <= 1.0
    ensures MakeProb(rate).Ok? ==> MakeProb(rate).value.rate == rate && ProbOk(MakeProb(rate).value)
  {
  }

  /** A rate of 1 takes every trace, a rate of 0 none, and a higher rate all that a lower one takes. */
  lemma ShareIsMonotone(low: real, high: real, traceId: int)
    requires 0.0 <= low <= high <= 1.0
    ensures InShare(low, traceId) ==> InShare(high, traceId)
    ensures InShare(1.0, traceId) && !InShare(0.0, traceId)
  {
    var all := 0x1_0000_0000_0000_0000 as real;
    assert low * all <= high * all;
  }

  /** The credit of a limiter at a time, before its maximum. */
  function Credit(b: Bucket, at: real): real {
    b.balance + b.rate * (at - b.last)
  }

  /** What one call does to a limiter: refilled up to its maximum, and one less if it held a whole credit. */
  predicate Charged(before: Bucket, at: real, after: Bucket) {
    var level := if Credit(before, at) > before.cap then before.cap else Credit(before, at);
    after == Bucket(before.rate, before.cap, if level >= 1.0 then level - 1.0 else level, at)
  }

  /** The rate-limiting sampler: a call is sampled exactly when a whole credit is there. */
  lemma LimitingAnswers(l: Limiting, now: real)
    requires l.bucket.cap >= 1.0
    ensures var (l1, ok) := LimitingSampled(l, now);
            && (ok <==> Credit(l.bucket, now) >= 1.0)
            && l1 == l.(bucket := l1.bucket) && Charged(l.bucket, now, l1.bucket)
  {
    hide Apply;
    SpendExactly(l.bucket, now, 1.0);
    assert Credit(l.bucket, now) == l.bucket.balance + l.bucket.rate * (now - l.bucket.last);
  }

  /** A new limiter: the rate, a maximum of at least 1, and a random part of it to start with. */
  lemma MadeLimiting(rate: real, now: real, draw: real)
    ensures MakeLimiting(rate, now, draw).Ok? <==> rate >= 0.0
    ensures rate >= 0.0 ==>
              MakeLimiting(rate, now, draw).value ==
              Limiting(rate, rate, Bucket(rate, if rate > 1.0 then rate else 1.0,
                                          (if rate > 1.0 then rate else 1.0) * draw, now))
  {
  }

  /** An entry: sampled when the trace id is in the share or the limiter holds a credit; the limiter is charged either
      way, and the tags name the probabilistic sampler exactly in the first case. */
  lemma EntryAnswers(g: Guaranteed, traceId: int, now: real)
    requires Agrees(g)
    ensures var (g1, ok, tags) := GuaranteedSampled(g, traceId, now);
            && (ok <==> InShare(g.rate, traceId) || Credit(g.limiting.bucket, now) >= 1.0)
            && tags == Tags(if InShare(g.rate, traceId) then Probabilistic else LowerBound, g.rate)
            && g1 == g.(limiting := g1.limiting) && g1.limiting == g.limiting.(bucket := g1.limiting.bucket)
            && Charged(g.limiting.bucket, now, g1.limiting.bucket)
  {
    hide Charged;
    ProbIsShare(g.prob, traceId);
    LimitingAnswers(g.limiting, now);
  }

  // --------------------------------------------------------- adaptive.is_sampled

  lemma ExistingEntryAnswers(a: Adaptive, now: real, traceId: int, op: string, at: real, draw: real)
    requires AdaptiveOk(a, now) && Ready(a.samplers) && op in a.samplers
    ensures var (t, r) := AdaptiveSampled(a, traceId, op, at, draw);
            var g := a.samplers[op];
            && r.Ok?
            && (r.value.0 <==> InShare(g.rate, traceId) || Credit(g.limiting.bucket, at) >= 1.0)
            && r.value.1 == Tags(if InShare(g.rate, traceId) then Probabilistic else LowerBound, g.rate)
            && op in t.samplers && t == a.(samplers := a.samplers[op := t.samplers[op]])
            && t.samplers[op] == g.(limiting := t.samplers[op].limiting)
            && Charged(g.limiting.bucket, at, t.samplers[op].limiting.bucket)
  {
    hide InShare, GuaranteedSampled, Charged;
    EntryAnswers(a.samplers[op], traceId, at);
  }

  /** A new operation below capacity gets an entry with the defaults, which answers at once. */
  lemma NewEntryAnswers(a: Adaptive, traceId: int, op: string, at: real, draw: real)
    requires Ready(a.samplers) && op !in a.samplers && |a.samplers| < a.maxOperations && 0.0 <= draw < 1.0
    requires 0.0 <= a.defaultRate <= 1.0 && a.lowerBound >= 0.0
    ensures var (t, r) := AdaptiveSampled(a, traceId, op, at, draw);
            var cap := if a.lowerBound > 1.0 then a.lowerBound else 1.0;
            && r.Ok?
            && (r.value.0 <==> InShare(a.defaultRate, traceId) || cap * draw >= 1.0)
            && r.value.1 == Tags(if InShare(a.defaultRate, traceId) then Probabilistic else LowerBound, a.defaultRate)
            && op in t.samplers && t == a.(samplers := a.samplers[op := t.samplers[op]])
            && t.samplers[op].operation == op && t.samplers[op].rate == a.defaultRate
            && t.samplers[op].lowerBound == a.lowerBound
            && t.samplers[op].limiting.bucket ==
               Bucket(a.lowerBound, cap, if cap * draw >= 1.0 then cap * draw - 1.0 else cap * draw, at)
  {
    hide InShare, GuaranteedSampled, StartBalance;
    MadeGuaranteedAgrees(op, a.lowerBound, a.defaultRate, at, draw);
    MadeLimiting(a.lowerBound, at, draw);
    var g := MakeGuaranteed(op, a.lowerBound, a.defaultRate, at, draw).value;
    MadeEntry(op, a.lowerBound, a.defaultRate, at, draw);
    EntryAnswers(g, traceId, at);
    PartOf(if a.lowerBound > 1.0 then a.lowerBound else 1.0, draw);
  }

  lemma MadeEntry(op: string, lowerBound: real, rate: real, at: real, draw: real)
    requires MakeGuaranteed(op, lowerBound, rate, at, draw).Ok?
    ensures var g := MakeGuaranteed(op, lowerBound, rate, at, draw).value;
            && g.operation == op && g.rate == rate && g.lowerBound == lowerBound
            && MakeLimiting(lowerBound, at, draw) == Ok(g.limiting)
  {
  }

  /** A new operation at capacity is answered by the default sampler, which changes nothing. */
  lemma DefaultAnswers(a: Adaptive, now: real, traceId: int, op: string, at: real, draw: real)
    requires AdaptiveOk(a, now) && Ready(a.samplers) && op !in a.samplers && |a.samplers| >= a.maxOperations
    ensures AdaptiveSampled(a, traceId, op, at, draw) ==
            (a, Ok((InShare(a.defaultSampler.rate, traceId), Tags(Probabilistic, a.defaultSampler.rate))))
  {
    ProbIsShare(a.defaultSampler, traceId);
  }

  /** At rate 1 every trace is sampled, at rate 0 those the lower bound grants; of two entries whose limiters agree, the
      one with the higher rate samples all that the other does. */
  lemma RateDecides(g: Guaranteed, h: Guaranteed, traceId: int, now: real)
    requires Agrees(g) && Agrees(h)
    ensures g.rate == 1.0 ==>
              GuaranteedSampled(g, traceId, now).1 && GuaranteedSampled(g, traceId, now).2.kind == Probabilistic
    ensures g.rate == 0.0 ==> (GuaranteedSampled(g, traceId, now).1 <==> Credit(g.limiting.bucket, now) >= 1.0)
    ensures g.rate <= h.rate && g.limiting.bucket == h.limiting.bucket && GuaranteedSampled(g, traceId, now).1 ==>
              GuaranteedSampled(h, traceId, now).1
  {
    EntryAnswers(g, traceId, now);
    EntryAnswers(h, traceId, now);
    if g.rate <= h.rate { ShareIsMonotone(g.rate, h.rate, traceId); }
    ShareIsMonotone(g.rate, g.rate, traceId);
    hide InShare, GuaranteedSampled, Charged, Credit;
  }

  // ------------------------------------------------------------ adaptive.update

  /** The rate a strategy asks for; 0.001 when it names none. */
  function AskedRate(s: Strategy): real {
    if s.samplingRate.Some? then s.samplingRate.value else 0.001
  }

  /** The lower bound an update asks for; one trace in ten minutes when it names none. */
  function AskedBound(s: Strategies): real {
    if s.defaultLowerBound.Some? then s.defaultLowerBound.value else 1.0 / 600.0
  }

  function AskedDefault(s: Strategies): real {
    if s.defaultProbability.Some? then s.defaultProbability.value else 0.001
  }

  /** The bucket keeps its proportion to its maximum at the new rate and size. */
  predicate Rescaled(b: Bucket, now: real, rate: real, b1: Bucket) {
    var level := if Credit(b, now) > b.cap then b.cap else Credit(b, now);
    && b1.rate == rate && b1.cap == (if rate > 1.0 then rate else 1.0) && b1.last == now
    && b1.balance * b.cap == b1.cap * level
  }

  /** update of a rate limiter: nothing for the rate it has, a refusal below zero, else the same limiter rescaled. */
  lemma UpdatedLimiting(l: Limiting, rate: real, now: real)
    requires l.bucket.cap != 0.0
    ensures var (l1, r) := UpdateLimiting(l, rate, now);
            if rate == l.tracesPerSecond then r == Ok(false) && l1 == l
            else if rate < 0.0 then r == Err(NegativeRate) && l1 == l
            else r == Ok(true) && l1.tracesPerSecond == rate == l1.tagParam && Rescaled(l.bucket, now, rate, l1.bucket)
  {
    hide Apply;
    RescaleExactly(l.bucket, now, rate, Max(rate, 1.0));
  }

  /** What an update does to an entry that was there. */
  lemma UpdatedEntry(g: Guaranteed, lowerBound: real, rate: real, now: real)
    requires Agrees(g)
    ensures var (g1, err) := UpdateGuaranteed(g, lowerBound, rate, now);
            && (err == None <==> 0.0 <= rate <= 1.0 && lowerBound >= 0.0)
            && g1.operation == g.operation
            && g1.rate == (if 0.0 <= rate <= 1.0 then rate else g.rate)
            && g1.lowerBound == (if err == None then lowerBound else g.lowerBound)
            && (if g1.lowerBound == g.lowerBound then g1.limiting == g.limiting
                else Rescaled(g.limiting.bucket, now, lowerBound, g1.limiting.bucket))
  {
    hide UpdateLimiting, Rescaled;
    UpdatedLimiting(g.limiting, lowerBound, now);
  }

  /** One strategy: its operation, and no other, ends up with what was asked for. */
  lemma StrategyInstalls(entries: Entries, s: Strategy, lowerBound: real, now: real, draw: real)
    requires EntriesOk(entries, now) && Ready(entries) && 0.0 <= draw < 1.0
    ensures var (after, err) := ApplyStrategy(entries, s, lowerBound, now, draw);
            && (err == None ==> s.operation in after && after[s.operation].rate == AskedRate(s)
                                && after[s.operation].lowerBound == lowerBound)
            && (forall op :: op in entries && op != s.operation ==> op in after && after[op] == entries[op])
            && (forall op :: op in after && op !in entries ==> op == s.operation)
  {
    hide UpdateGuaranteed, MakeGuaranteed;
    if s.operation in entries {
      UpdatedEntry(entries[s.operation], lowerBound, RateOf(s), now);
    } else if MakeGuaranteed(s.operation, lowerBound, RateOf(s), now, draw).Ok? {
      MadeEntry(s.operation, lowerBound, RateOf(s), now, draw);
    }
  }

  /** The last strategy for its operation in the list. */
  predicate LastFor(ss: seq<Strategy>, i: nat)
    requires i < |ss|
  {
    forall j :: i < j < |ss| ==> ss[j].operation != ss[i].operation
  }

  predicate Unnamed(ss: seq<Strategy>, op: string) {
    forall j :: 0 <= j < |ss| ==> ss[j].operation != op
  }

  lemma {:induction false} StrategiesInstall(entries: Entries, ss: seq<Strategy>, lowerBound: real, now: real,
                                             draws: seq<real>, i: nat)
    requires EntriesOk(entries, now) && Ready(entries) && |draws| >= |ss| && i < |ss| && LastFor(ss, i)
    requires forall k :: 0 <= k < |draws| ==> 0.0 <= draws[k] < 1.0
    requires ApplyStrategies(entries, ss, lowerBound, now, draws).1 == None
    ensures var after, op := ApplyStrategies(entries, ss, lowerBound, now, draws).0, ss[i].operation;
            op in after && after[op].rate == AskedRate(ss[i]) && after[op].lowerBound == lowerBound
    decreases |ss|
  {
    hide ApplyStrategy, AskedRate;
    var next := ApplyStrategy(entries, ss[0], lowerBound, now, draws[0]).0;
    StrategyInstalls(entries, ss[0], lowerBound, now, draws[0]);
    StrategyKeepsOk(entries, ss[0], lowerBound, now, draws[0]);
    if i == 0 {
      assert Unnamed(ss[1..], ss[0].operation);
      UnnamedStays(next, ss[1..], lowerBound, now, draws[1..], ss[0].operation);
    } else {
      assert LastFor(ss[1..], i - 1);
      StrategiesInstall(next, ss[1..], lowerBound, now, draws[1..], i - 1);
    }
  }

  lemma {:induction false} UnnamedStays(entries: Entries, ss: seq<Strategy>, lowerBound: real, now: real,
                                        draws: seq<real>, op: string)
    requires EntriesOk(entries, now) && Ready(entries) && |draws| >= |ss| && Unnamed(ss, op)
    requires forall k :: 0 <= k < |draws| ==> 0.0 <= draws[k] < 1.0
    ensures var after := ApplyStrategies(entries, ss, lowerBound, now, draws).0;
            (op in after <==> op in entries) && (op in entries ==> after[op] == entries[op])
    decreases |ss|
  {
    hide ApplyStrategy;
    if ss != [] {
      StrategyInstalls(entries, ss[0], lowerBound, now, draws[0]);
      StrategyKeepsOk(entries, ss[0], lowerBound, now, draws[0]);
      assert ss[0].operation != op;
      var next := ApplyStrategy(entries, ss[0], lowerBound, now, draws[0]).0;
      UnnamedStays(next, ss[1..], lowerBound, now, draws[1..], op);
    }
  }

  /** A successful update installs, for every operation, the last rate listed for it and the lower bound, and the
      defaults for operations to come; operations it does not list keep their entries. */
  lemma UpdateInstalls(a: Adaptive, now: real, s: Strategies, draws: seq<real>)
    requires AdaptiveOk(a, now) && Ready(a.samplers) && DefaultAgrees(a) && |draws| >= |s.perOperation|
    requires forall k :: 0 <= k < |draws| ==> 0.0 <= draws[k] < 1.0
    requires UpdateAdaptive(a, s, now, draws).1 == None
    ensures var t := UpdateAdaptive(a, s, now, draws).0;
            && (forall i :: 0 <= i < |s.perOperation| && LastFor(s.perOperation, i) ==>
                  && s.perOperation[i].operation in t.samplers
                  && t.samplers[s.perOperation[i].operation].rate == AskedRate(s.perOperation[i])
                  && t.samplers[s.perOperation[i].operation].lowerBound == AskedBound(s))
            && (forall op :: Unnamed(s.perOperation, op) ==>
                  (op in t.samplers <==> op in a.samplers) && (op in a.samplers ==> t.samplers[op] == a.samplers[op]))
            && t.lowerBound == AskedBound(s) && t.maxOperations == a.maxOperations
            && t.defaultRate == AskedDefault(s) == t.defaultSampler.rate && ProbOk(t.defaultSampler)
  {
    hide ApplyStrategies, AskedRate, LastFor, Unnamed;
    var t := UpdateAdaptive(a, s, now, draws).0;
    assert t.samplers == ApplyStrategies(a.samplers, s.perOperation, LowerBoundOf(s), now, draws).0;
    forall i | 0 <= i < |s.perOperation| && LastFor(s.perOperation, i)
      ensures s.perOperation[i].operation in t.samplers
      ensures t.samplers[s.perOperation[i].operation].rate == AskedRate(s.perOperation[i])
      ensures t.samplers[s.perOperation[i].operation].lowerBound == AskedBound(s)
    {
      StrategiesInstall(a.samplers, s.perOperation, LowerBoundOf(s), now, draws, i);
    }
    forall op | Unnamed(s.perOperation, op)
      ensures (op in t.samplers <==> op in a.samplers) && (op in a.samplers ==> t.samplers[op] == a.samplers[op])
    {
      UnnamedStays(a.samplers, s.perOperation, LowerBoundOf(s), now, draws, op);
    }
  }

  /** A failing loop stops at the first strategy that fails: those before it are applied, those after it are not. */
  lemma {:induction false} FailureStops(entries: Entries, ss: seq<Strategy>, lowerBound: real, now: real,
                                        draws: seq<real>)
    returns (k: nat)
    requires Ready(entries) && |draws| >= |ss| && ApplyStrategies(entries, ss, lowerBound, now, draws).1.Some?
    ensures k < |ss| && ApplyStrategies(entries, ss[..k], lowerBound, now, draws).1 == None
    ensures var before := ApplyStrategies(entries, ss[..k], lowerBound, now, draws).0;
            ApplyStrategies(entries, ss, lowerBound, now, draws) ==
              ApplyStrategy(before, ss[k], lowerBound, now, draws[k])
    decreases |ss|
  {
    hide ApplyStrategy;
    var (next, err) := ApplyStrategy(entries, ss[0], lowerBound, now, draws[0]);
    if err.Some? {
      k := 0;
    } else {
      var j := FailureStops(next, ss[1..], lowerBound, now, draws[1..]);
      k := j + 1;
      assert ss[..k][1..] == ss[1..][..j];
    }
  }

  // ------------------------------------------------------------ the constructor

  lemma {:induction false} UnnamedBuilt(entries: Entries, ss: seq<Strategy>, lowerBound: real, now: real,
                                        draws: seq<real>, op: string)
    requires |draws| >= |ss| && BuildEntries(entries, ss, lowerBound, now, draws).Ok? && Unnamed(ss, op)
    ensures var built := BuildEntries(entries, ss, lowerBound, now, draws).value;
            (op in built <==> op in entries) && (op in entries ==> built[op] == entries[op])
    decreases |ss|
  {
    hide MakeGuaranteed;
    if ss != [] {
      assert ss[0].operation != op;
      var g := MakeGuaranteed(ss[0].operation, lowerBound, RateOf(ss[0]), now, draws[0]).value;
      UnnamedBuilt(entries[ss[0].operation := g], ss[1..], lowerBound, now, draws[1..], op);
    }
  }

  lemma {:induction false} BuildInstalls(entries: Entries, ss: seq<Strategy>, lowerBound: real, now: real,
                                         draws: seq<real>, i: nat)
    requires |draws| >= |ss| && BuildEntries(entries, ss, lowerBound, now, draws).Ok? && i < |ss| && LastFor(ss, i)
    ensures var built, op := BuildEntries(entries, ss, lowerBound, now, draws).value, ss[i].operation;
            op in built && built[op].rate == AskedRate(ss[i]) && built[op].lowerBound == lowerBound
    decreases |ss|
  {
    hide MakeGuaranteed;
    MadeEntry(ss[0].operation, lowerBound, RateOf(ss[0]), now, draws[0]);
    var g := MakeGuaranteed(ss[0].operation, lowerBound, RateOf(ss[0]), now, draws[0]).value;
    if i == 0 {
      UnnamedBuilt(entries[ss[0].operation := g], ss[1..], lowerBound, now, draws[1..], ss[0].operation);
    } else {
      BuildInstalls(entries[ss[0].operation := g], ss[1..], lowerBound, now, draws[1..], i - 1);
    }
  }

  /** The constructor installs exactly the listed operations, and the defaults. */
  lemma MadeInstalls(s: Strategies, maxOperations: nat, now: real, draws: seq<real>)
    requires |draws| >= |s.perOperation| && MakeAdaptive(s, maxOperations, now, draws).Ok?
    ensures var t := MakeAdaptive(s, maxOperations, now, draws).value;
            && (forall op :: Unnamed(s.perOperation, op) ==> op !in t.samplers)
            && (forall i :: 0 <= i < |s.perOperation| && LastFor(s.perOperation, i) ==>
                  && s.perOperation[i].operation in t.samplers
                  && t.samplers[s.perOperation[i].operation].rate == AskedRate(s.perOperation[i])
                  && t.samplers[s.perOperation[i].operation].lowerBound == AskedBound(s))
            && t.lowerBound == AskedBound(s) && t.maxOperations == maxOperations
            && t.defaultRate == AskedDefault(s) == t.defaultSampler.rate && ProbOk(t.defaultSampler)
  {
    hide BuildEntries, LastFor, Unnamed, AskedRate;
    var built := BuildEntries(map[], s.perOperation, LowerBoundOf(s), now, draws).value;
    forall i | 0 <= i < |s.perOperation| && LastFor(s.perOperation, i)
      ensures s.perOperation[i].operation in built
      ensures built[s.perOperation[i].operation].rate == AskedRate(s.perOperation[i])
      ensures built[s.perOperation[i].operation].lowerBound == AskedBound(s)
    {
      BuildInstalls(map[], s.perOperation, LowerBoundOf(s), now, draws, i);
    }
    forall op | Unnamed(s.perOperation, op) ensures op !in built {
      UnnamedBuilt(map[], s.perOperation, LowerBoundOf(s), now, draws, op);
    }
  }

  // ------------------------------------------------------------ remote responses

  /** A probabilistic response in range makes the sampler one of that rate, and counts unless it already was. */
  lemma ProbabilisticResponse(r: Remote, resp: Response, now: real, draws: Draws)
    requires SamplerReady(r.sampler) && RemoteOk(r, now)
    requires resp.operationSampling == None && resp.strategyType == PROBABILISTIC
    ensures var t := Respond(r, resp, now, draws);
            var rate := if resp.samplingRate.Some? then resp.samplingRate.value else 0.001;
            var same := r.sampler.ProbSampler? && r.sampler.prob.rate == rate;
            if 0.0 <= rate <= 1.0
            then && t.sampler.ProbSampler? && t.sampler.prob.rate == rate && ProbOk(t.sampler.prob)
                 && t.updated == r.updated + (if same then 0 else 1) && t.failed == r.failed
            else t.sampler == r.sampler && t.updated == r.updated && t.failed == r.failed + 1
  {
  }

  /** A rate-limiting response in range: the limiter in use is rescaled in proportion, any other sampler is replaced by
      a fresh limiter; it counts unless the rate is the one in use. Out of range it counts as a failure. */
  lemma RateLimitingResponse(r: Remote, resp: Response, now: real, draws: Draws)
    requires SamplerReady(r.sampler) && RemoteOk(r, now)
    requires resp.operationSampling == None && resp.strategyType == RATE_LIMITING
    ensures var t := Respond(r, resp, now, draws);
            var rate := if resp.maxTracesPerSecond.Some? then resp.maxTracesPerSecond.value else 1.0 / 600.0;
            if rate < 0.0 || rate >= 500.0 then t == r.(failed := r.failed + 1)
            else if r.sampler.LimitingSampler? && r.sampler.limiting.tracesPerSecond == rate then t == r
            else && t.updated == r.updated + 1 && t.failed == r.failed && t.maxOperations == r.maxOperations
                 && t.sampler.LimitingSampler?
                 && t.sampler.limiting.tracesPerSecond == rate == t.sampler.limiting.tagParam
                 && if r.sampler.LimitingSampler? then
                      Rescaled(r.sampler.limiting.bucket, now, rate, t.sampler.limiting.bucket)
                    else
                      var cap := if rate > 1.0 then rate else 1.0;
                      t.sampler.limiting.bucket == Bucket(rate, cap, cap * draws.limiter, now)
  {
    hide StartBalance, Rescaled, UpdateLimiting;
    var rate := if resp.maxTracesPerSecond.Some? then resp.maxTracesPerSecond.value else 1.0 / 600.0;
    if r.sampler.LimitingSampler? {
      UpdatedLimiting(r.sampler.limiting, rate, now);
    } else {
      MadeLimiting(rate, now, draws.limiter);
    }
  }

  /** Any other strategy type fails. */
  lemma UnsupportedResponse(r: Remote, resp: Response, now: real, draws: Draws)
    requires SamplerReady(r.sampler) && resp.operationSampling == None && resp.strategyType == OTHER
    ensures Respond(r, resp, now, draws) == r.(failed := r.failed + 1)
  {
  }

  /** A response with per-operation strategies goes to the adaptive sampler in use, in place, or builds a new one. */
  lemma PerOperationResponse(r: Remote, resp: Response, now: real, draws: Draws)
    requires SamplerReady(r.sampler) && resp.operationSampling.Some?
    requires |draws.entries| >= |resp.operationSampling.value.perOperation|
    ensures var t, s := Respond(r, resp, now, draws), resp.operationSampling.value;
            if r.sampler.AdaptiveSampler? then
              var (a, err) := UpdateAdaptive(r.sampler.adaptive, s, now, draws.entries);
              t == Remote(AdaptiveSampler(a), r.maxOperations, r.updated + (if err == None then 1 else 0),
                          r.failed + (if err == None then 0 else 1))
            else
              var made := MakeAdaptive(s, r.maxOperations, now, draws.entries);
              t == if made.Ok? then Remote(AdaptiveSampler(made.value), r.maxOperations, r.updated + 1, r.failed)
                   else r.(failed := r.failed + 1)
  {
  }
}
