# Verification of the Jaeger Python client

A Dafny model of the stateful parts of `jaeger_client` and proofs of what they promise: the span reporter, the rate
limiter with the samplers built on it, the throttler with debug spans, the propagation codecs, and the conversion to
Thrift. `dafny verify dfyconfig.toml` checks everything.

## How the source is modelled

* **Reporter** (`ReporterProtocol`, `ReporterTheorems`, `ReporterClose`, `ReporterProgress`, `ReporterAcceptance`,
  `Reporter`, `CompositeReporter`). A state machine whose steps run from one suspension point of the source to the
  next: report callbacks, the consumer coroutine's get, timeout, submit and task_done, and every coroutine started by
  `close()`. Any interleaving the IOLoop can produce is a run. `Reporter.dfy` has the object itself; each method is
  proved to make one step of the machine.
* **Rate limiter and samplers** (`TokenBucket`, `SamplerModels`, `SamplerTheorems`, `SamplerLimits`, `SamplerAnswers`,
  `RemoteSampler`, `SamplerObjects`, `RemoteObject`). Values with transition functions, including the partial effects
  of calls that raise, and classes whose methods are proved equal to them. Times are reals and do not decrease; random
  numbers are parameters in [0, 1).
* **Thrift** (`ThriftWire`, `ThriftStructs`, `ThriftRoundTrip`, `ThriftProtocol`, `ThriftIds`, `ThriftFields`). Typed
  protocol tokens; one reader and one writer driven by the six `thrift_spec` tables, because the generated methods
  differ in nothing else. A reference meaning of a wire struct (the last field with a known id and type counts) is
  independent of the reader.
* **Codecs** (`Hex`, `ContextString`, `Percent`, `Dict`, `SpanContexts`, `TextCodec`, `TextRoundTrip`, `TextFacts`,
  `BigEndian`, `BinaryCodec`, `BinaryRoundTrip`, `BinaryLayout`, `B3Codec`, `Propagation`). Dictionaries are entry
  lists in insertion order. Text stands for its UTF-8 bytes: a character below 256 is one byte.
* **Debug spans** (`Throttling`, `Tracing`, `TracingTheorems`, `TracingFacts`, `TracerObjects`). The credit ledger,
  spans and `start_span` on values, runs of arbitrary calls on arbitrary spans, and the classes.

A class's methods are proved equal to transition functions; what those functions do is then stated in plain terms (the
flag bits, the credits, the header names, the field ids, the queue's length) by `ReporterAcceptance`,
`SamplerAnswers`, `ThriftFields`, `TextFacts`, `BinaryLayout` and `TracingFacts`, so that the contracts do not rest on
the definitions alone.

## Where the code falls short of its documentation or of what a caller may expect

The model follows the code; the named members prove the points.

* `Reporter.close()` promises a future "that will be completed once the queue is empty". If a second `close()` begins
  while the first is unresolved, no such future ever resolves: one consumer leaves at the first stop marker and the
  second keeps the task counter above zero (`CloseResolvesIff`, `DoubleCloseHangs`). Only the first future can ever
  resolve (`CloseMeansDrained`).
* `RateLimitingSampler` is documented to sample "at most max_traces_per_second". Read for every window shorter than a
  second this holds for a rate of exactly 1 and no other (`PerSecondIff`); `WindowBound` is what holds for every rate.
  The rate limiter's comment asks for a balance that exceeds the cost; the code also grants when they are equal.
* `AdaptiveSampler.update` assigns the default probability before it builds the sampler for it, so a probability
  outside [0, 1] stays behind when the update fails, and later calls for new operations raise (`DefaultPairIff`,
  `BadDefaultProbability`, `NewOperationIff`; `UntroubledIff` says which updates avoid it).
* `BinaryCodec` writes lengths unsigned and reads them signed: it restores a context exactly when every key and value
  is shorter than 2^31 bytes (`BinaryRoundTripIff`, `LongValueFails`).
* `B3Codec` sends only the flags header for a debug span, and does not take it to mean sampled when extracting. A
  tracer's debug spans carry both bits, so the sampled bit is lost for exactly those (`SampledSurvivesIff`,
  `DebugSpanLosesSampled`, `ContinuesOverB3`).
* `TextCodec` lower-cases baggage keys, and an item whose header reads as the trace header destroys the context
  (`TextRoundTripIff`, `TextExactRoundTripIff`, `CollidingItemFails`).
* `CompositeReporter` with no reporters returns from `close()` a future that never resolves (`EmptyNeverResolves`).

## Model

| member | source | states |
|---|---|---|
| ReporterProtocol.StepKeepsInv | jaeger_client/reporter.py:147-241 | every step of every coroutine and callback keeps the invariant: accepted spans are conserved in order, the unfinished counter is exact, all spans are ahead of all stop markers, at most the first closer is resolved and only after the consumer left |
| ReporterProtocol.RunKeepsInv | jaeger_client/reporter.py:147-241 | the invariant holds in every state reachable by any interleaving |
| ReporterTheorems.NothingLostOrReordered | jaeger_client/reporter.py:150-188 | in every reachable state, submitted batches, then spans in hand, then the queue without markers are the accepted spans in acceptance order; the unfinished counter is what is queued, in hand or handed over; the queue respects its capacity |
| ReporterTheorems.BatchShape | jaeger_client/reporter.py:165-187 | every batch of any run has between 1 and batch_size spans, and is short exactly when a flush timeout or the stop marker cut it |
| ReporterTheorems.CloseMeansDrained | jaeger_client/reporter.py:235-241 | when a future of close() is resolved it is the first one's, the consumer has left, the queue holds no span, and the batches are exactly the accepted spans |
| ReporterTheorems.StoppedAcceptsNothing | jaeger_client/reporter.py:150-159 | once stopped is set no run accepts another span |
| ReporterTheorems.CloseLosesNoEarlierSpan | jaeger_client/reporter.py:235-241 | a span reported before close() was called is dropped only for a full queue (that the queue is then at its capacity: ReporterAcceptance.EarlySpansDroppedOnlyWhenFull) |
| ReporterAcceptance.AcceptedIff | jaeger_client/reporter.py:150-159 | a report callback appends its span to the accepted ones if and only if the reporter is not stopped and the consumer waits in get or the queue is shorter than its capacity; it is then handed to the waiting consumer or queued last, and otherwise dropped and counted |
| ReporterAcceptance.EarlySpansDroppedOnlyWhenFull | jaeger_client/reporter.py:150-159 | in every run, each step that drops a span reported before close() finds the queue at its capacity |
| ReporterAcceptance.LateIff | jaeger_client/reporter.py:228-241 | a report counts as made after close() exactly when the run called close() before it |
| ReporterAcceptance.EnoughRoomDropsNothing | jaeger_client/reporter.py:150-159 | a run without close() and with no more reports than the capacity drops nothing |
| ReporterAcceptance.RunKeepsTimer | jaeger_client/reporter.py:166-172 | in every run a waiting get has a timeout if and only if there is a flush interval and spans are in hand |
| ReporterAcceptance.RestMeansFlushed | jaeger_client/reporter.py:161-188 | with a flush interval, a loop at rest has put every accepted span through _submit, closed or not; without one fewer than batch_size spans wait |
| ReporterAcceptance.SubmitsWithProcess | jaeger_client/reporter.py:200-206 | a submission sends exactly when the process was set by its start |
| ReporterAcceptance.SubmitEndCounts | jaeger_client/reporter.py:183-218 | at its end the whole batch is filed and marked done, and counted as success when sent, as failure when sending raised, and not without a process |
| ReporterTheorems.AtMostOnce | jaeger_client/reporter.py:147-188 | a span occurs in all submitted batches at most as often as it was reported |
| ReporterTheorems.RunKeepsAccounts | jaeger_client/reporter.py:147-218 | every reported span is pending, accepted or rejected with the right multiplicity, and the three counters count the batched spans by outcome and the rejections |
| ReporterTheorems.OutcomesPartition | jaeger_client/reporter.py:199-218 | batched spans are delivered, failed or discarded, and nothing else |
| ReporterTheorems.RunDiscardsNothing | jaeger_client/reporter.py:203-206 | with the process set, no run discards a batch without counting it |
| ReporterTheorems.ReportsAddUp | jaeger_client/reporter.py:147-218 | at every moment of every run: reports made = pending callbacks + queued + in hand + success + failure + dropped + spans _submit returned on without counting |
| ReporterTheorems.MetricsAddUpIff | jaeger_client/reporter.py:199-218 | the sum without that last term holds if and only if no _submit of the run had started while the process was unset |
| ReporterTheorems.ProcessBeforeSubmit | jaeger_client/reporter.py:141-145 | in particular when set_process comes before the first submission, whatever the consumer and the callbacks did before it |
| ReporterClose.ConsumerTerminates | jaeger_client/reporter.py:161-188 | after stopped is set, the consumer makes at most Rank more steps in any run, whatever else is interleaved |
| ReporterClose.ConsumerNeverStuck | jaeger_client/reporter.py:161-188 | and until it has left its loop it always has an enabled step |
| ReporterClose.BatchesAfterClose | jaeger_client/reporter.py:165-187 | the batches submitted and the batches left, for spans in hand and queued, always add up after stopped is set |
| ReporterClose.CloseSubmitsExactly | jaeger_client/reporter.py:161-188 | from the start of the flush to the consumer's exit exactly ceil((k + n) / batch_size) batches are submitted for k spans in hand and n queued (after one already under way), and all batches are all accepted spans |
| ReporterClose.OnlyLastIsShort | jaeger_client/reporter.py:165-187 | those batches are all full except possibly the last, unless a flush timeout had already fired |
| ReporterClose.OverlapResolvesNothing | jaeger_client/reporter.py:235-241 | once a close() begins while the first is unresolved, no future of any close() is ever resolved |
| ReporterClose.NoOverlapStaysSequential | jaeger_client/reporter.py:235-241 | without such an overlap every later close() begins only after the first is resolved |
| ReporterClose.CloseResolvesIff | jaeger_client/reporter.py:228-241 | when nothing is left to run, a future of close() is resolved if and only if no close() overlapped the first; it is then the first one's, and every accepted span was submitted |
| ReporterClose.QuiescentIff | jaeger_client/reporter.py:161-241 | nothing is left to run exactly when only a caller of report_span, set_process or close can make a step |
| ReporterProgress.StepWorks | jaeger_client/reporter.py:147-241 | every step of a callback, the consumer or a closer lowers one measure, and a call from outside raises it by its cost |
| ReporterProgress.LoopTerminates | jaeger_client/reporter.py:147-241 | in any run from any reachable state, before or after close(), the steps of the loop are bounded by that measure and the calls from outside: no interleaving goes on for ever by itself |
| ReporterProgress.LoopStepsPerCall | jaeger_client/reporter.py:147-241 | from the start, at most seven such steps for every call of report_span and close, and four more |
| ReporterProgress.ComesToRest | jaeger_client/reporter.py:161-241 | from every reachable state the loop can go on by itself until nothing is left to run |
| ReporterProgress.LoneCloseResolves | jaeger_client/reporter.py:228-241 | close() called once: in every run carried on until only calls from outside are possible, its future is resolved and every accepted span was submitted |
| ReporterClose.DoubleCloseHangs | jaeger_client/reporter.py:228-241 | a run of three steps in which two overlapping closes both wait for ever |
| ReporterObject.Reporter.Create | jaeger_client/reporter.py:124-139 | a queue smaller than a batch is refused and nothing else is; otherwise the reporter starts in the initial state |
| ReporterObject.Reporter.SetProcess | jaeger_client/reporter.py:141-145 | makes the machine's SetProcess step |
| ReporterObject.Reporter.ReportSpan | jaeger_client/reporter.py:147-148 | makes the Report step: one more callback on the loop |
| ReporterObject.Reporter.ReportSpanFromIoloop | jaeger_client/reporter.py:150-159 | accepts the span if not stopped and the consumer waits or the queue has room, else drops and counts it |
| ReporterObject.Reporter.Flush | jaeger_client/reporter.py:235-241 | sets stopped and puts the marker, or waits to, as the machine does |
| ReporterObject.Reporter.RunCallback | jaeger_client/reporter.py:147-159 | the first callback of the loop runs as the machine's step |
| ReporterObject.Reporter.Collect | jaeger_client/reporter.py:175-183 | an item is collected or the marker taken and marked done, and a batch starts or the loop ends, as the machine's Take |
| ReporterObject.Reporter.Get | jaeger_client/reporter.py:166-171 | queue.get with a waiting putter let in first, or parking with a timer only when spans are in hand |
| ReporterObject.Reporter.ResumeWithItem | jaeger_client/reporter.py:171-187 | a getter that was handed an item goes on with it as the machine's Resume |
| ReporterObject.Reporter.FireTimer | jaeger_client/reporter.py:168-172 | only a parked getter with a timer armed times out |
| ReporterObject.Reporter.ResumeAfterTimeout | jaeger_client/reporter.py:172-183 | a flush timeout submits what is in hand |
| ReporterObject.Reporter.MarkDone | jaeger_client/reporter.py:184-186 | the loop of task_done calls takes the whole batch off the counter and wakes joiners when it reaches zero |
| ReporterObject.Reporter.Submitted | jaeger_client/reporter.py:183-218 | the end of a submission counts its outcome and goes on as the machine's SubmitEnds |
| ReporterObject.Reporter.ResumeCloser | jaeger_client/reporter.py:240-241 | a closer whose put succeeded goes on to join |
| CompositeReporter.AllCounted | jaeger_client/reporter.py:277-281 | a set of distinct callbacks reaches the count of reporters exactly when it is all of them |
| CompositeReporter.Closing.OnClose | jaeger_client/reporter.py:271-287 | the composite's future is resolved exactly when every reporter's is, and never twice |
| CompositeReporter.EmptyNeverResolves | jaeger_client/reporter.py:271-287 | with no reporters it never is |
| TokenBucket.ApplyKeepsSane | jaeger_client/rate_limiter.py:50-70 | 0 <= balance <= max_balance is kept by check_credit and update |
| TokenBucket.SpendExactly | jaeger_client/rate_limiter.py:57-70 | check_credit refills at the rate up to the maximum and then charges exactly the cost when the balance covers it, an equal one included |
| TokenBucket.RescaleExactly | jaeger_client/rate_limiter.py:50-55 | update keeps the proportion of the refilled balance to the maximum |
| TokenBucket.SpendingBound | jaeger_client/rate_limiter.py:50-70 | over any run, granted cost plus final balance is at most initial balance + sum of rate * duration + sum of max(0, new maximum - old maximum) |
| TokenBucket.WindowBound | jaeger_client/rate_limiter.py:57-70 | whatever happened before, any window without update grants at most max_balance + rate * window |
| TokenBucket.ClippingComposes | jaeger_client/rate_limiter.py:64-70 | ticking in between changes no later level: the lazy bucket is the continuously filling one |
| TokenBucket.RefusedCallsLeaveNoTrace | jaeger_client/rate_limiter.py:57-70 | two buckets at the same level decide alike when one never sees some calls the other refuses |
| TokenBucket.DeletingRefusedCalls | jaeger_client/rate_limiter.py:57-70 | deleting any refused check_credit calls from a run changes no other decision |
| TokenBucket.PerSecondIff | jaeger_client/sampler.py:140-172 | for every rate r the sampler accepts, 0 included: at most r traces in every window shorter than a second, from any state, if and only if r = 1 |
| SamplerObjects.RateLimiter.UpdateBalance | jaeger_client/rate_limiter.py:64-70 | moves the clock and refills up to the maximum, in place |
| SamplerObjects.RateLimiter.CheckCredit | jaeger_client/rate_limiter.py:57-62 | decides and charges in place as the bucket operation Spend |
| SamplerObjects.RateLimiter.Update | jaeger_client/rate_limiter.py:50-55 | rescales in place as the bucket operation Rescale |
| SamplerObjects.RateLimitingSampler.IsSampled | jaeger_client/sampler.py:171-172 | one credit, and the sampler's tags |
| SamplerObjects.RateLimitingSampler.Update | jaeger_client/sampler.py:187-191 | keeps the limiter object and rescales it, or changes nothing for an equal rate; a negative rate fails before any change |
| SamplerObjects.GuaranteedSampler.Create | jaeger_client/sampler.py:209-220 | fails exactly when the value model does, for a rate outside [0, 1] or a negative bound |
| SamplerObjects.GuaranteedSampler.IsSampled | jaeger_client/sampler.py:222-229 | charges the lower-bound limiter whichever sampler says yes, and returns that sampler's tags (the answer in numbers: SamplerAnswers) |
| SamplerObjects.GuaranteedSampler.Update | jaeger_client/sampler.py:235-246 | rate first, then lower bound, keeping what was done before a failure |
| SamplerObjects.AdaptiveSamplerObject.Create | jaeger_client/sampler.py:260-280 | builds fresh entries for all strategies or fails; entries share no limiter |
| SamplerObjects.AdaptiveSamplerObject.IsSampled | jaeger_client/sampler.py:282-294 | whole new state and answer, with disjoint entry footprints kept (the answer in numbers: SamplerAnswers) |
| SamplerObjects.AdaptiveSamplerObject.Update | jaeger_client/sampler.py:296-318 | whole new state, in place, including the partial state after a failing strategy or default probability |
| SamplerTheorems.MadeGuaranteedAgrees | jaeger_client/sampler.py:209-220 | construction succeeds exactly for a rate in [0, 1] and a bound >= 0, and the entry then agrees with its parts |
| SamplerTheorems.UpdatedAgrees | jaeger_client/sampler.py:235-246 | update keeps rate = inner rate = tag value, lower bound = credits per second, maximum = max(lower bound, 1), succeeds exactly for valid arguments, and leaves the limiter alone when the bound is unchanged |
| SamplerTheorems.StepKeepsOk | jaeger_client/sampler.py:282-318 | every is_sampled and update call, failing or not, keeps every entry in agreement with its parts |
| SamplerTheorems.NoneRemoved | jaeger_client/sampler.py:282-318 | no run removes an entry |
| SamplerTheorems.CreatedWithinCapacity | jaeger_client/sampler.py:282-318 | in any run, the entries is_sampled created are new and stay, with all entries from before they number at most max_operations, and every other entry was there or was named by an update |
| SamplerTheorems.Capacity | jaeger_client/sampler.py:282-318 | in any run, entries created by is_sampled number at most max_operations, listed by an update or not; entries no strategy named number at most max_operations, and all entries at most that plus the named ones |
| SamplerTheorems.OtherEntriesStay | jaeger_client/sampler.py:282-294 | a call for one operation never touches another operation's entry |
| SamplerTheorems.DefaultPairIff | jaeger_client/sampler.py:296-318 | after any update, the default probability agrees with its sampler if and only if a strategy failed or the new probability is in [0, 1]; update succeeds if and only if no strategy failed and it is |
| SamplerLimits.UpdateHealthyIff | jaeger_client/sampler.py:296-318 | update succeeds and leaves the default pair and the lower bound usable if and only if all its rates are in [0, 1] and its lower bound is not negative |
| SamplerLimits.MadeHealthyIff | jaeger_client/sampler.py:260-280 | the constructor succeeds and starts usable under the same condition |
| SamplerLimits.UntroubledIff | jaeger_client/sampler.py:282-318 | in a run no is_sampled and no update raises, and the default pair keeps agreeing, if and only if every update meets that condition |
| SamplerTheorems.BadDefaultProbability | jaeger_client/sampler.py:312-318 | a concrete update with probability 2 that leaves the pair in disagreement and makes later calls raise |
| SamplerTheorems.NewOperationIff | jaeger_client/sampler.py:282-294 | a call for a new operation succeeds if and only if the default probability and the lower bound are valid |
| SamplerTheorems.GuaranteedThroughput | jaeger_client/sampler.py:222-246 | once an operation's limiter has saved since some moment, a call at least 1/lb later makes some call in the run sampled, whatever the trace ids and the updates that keep the bound |
| SamplerTheorems.CallStartsWindow | jaeger_client/sampler.py:222-229 | every call for an operation starts such a window |
| SamplerTheorems.SampledBetweenCalls | jaeger_client/sampler.py:197-246 | for two calls at least 1/lb apart, some call after the first up to and including the second is sampled |
| SamplerLimits.SamplesAreGrants | jaeger_client/sampler.py:222-229 | an operation's samples under the lower-bound tag are among the grants of its own limiter, which sees exactly the calls for it |
| SamplerLimits.LowerBoundAddsAtMost | jaeger_client/sampler.py:197-246 | in any window of a run that keeps the lower bound lb, the calls for an operation sampled under the lower-bound tag number at most max(lb, 1) + lb * window, whether its entry was there, is made on the way, or never is |
| SamplerAnswers.ExistingEntryAnswers | jaeger_client/sampler.py:222-294 | a call for an operation with an entry of rate r is sampled if and only if the low 64 bits of the trace id are below r * 2^64 or its limiter, refilled, holds a credit; the tags name the probabilistic sampler exactly in the first case, and the limiter alone changes, charged either way |
| SamplerAnswers.NewEntryAnswers | jaeger_client/sampler.py:282-294 | the same for the entry a new operation gets: default rate, lower bound, and a random part of the maximum to start with |
| SamplerAnswers.DefaultAnswers | jaeger_client/sampler.py:284-286 | at max_operations a new operation is sampled if and only if the low 64 bits are below the default rate * 2^64, and nothing changes |
| SamplerAnswers.RateDecides | jaeger_client/sampler.py:129-131 | rate 1 samples every trace, rate 0 only what the lower bound grants, and an entry of a higher rate with the same limiter samples all that one of a lower rate does |
| SamplerAnswers.UpdateInstalls | jaeger_client/sampler.py:296-318 | a successful update gives every listed operation the last rate listed for it (0.001 when none is given) and the lower bound, leaves other entries as they were, and sets the defaults for operations to come |
| SamplerAnswers.FailureStops | jaeger_client/sampler.py:298-311 | a failing update has applied the strategies before the first that fails and none after it |
| SamplerAnswers.UpdatedEntry | jaeger_client/sampler.py:235-246 | an entry's new rate, bound and limiter in terms of the arguments, also when one of them is refused |
| SamplerAnswers.MadeInstalls | jaeger_client/sampler.py:260-280 | the constructor makes entries for exactly the listed operations, the last strategy of a name winning |
| SamplerAnswers.ProbabilisticResponse | jaeger_client/sampler.py:479-497 | a probability in [0, 1] makes the held sampler one of that rate and counts unless it was; any other counts as a failure and changes nothing |
| SamplerAnswers.RateLimitingResponse | jaeger_client/sampler.py:482-497 | a rate in [0, 500) rescales the limiter in use in proportion or replaces another sampler by a new limiter |
| RemoteSampler.EachResponseCountsOnce | jaeger_client/sampler.py:456-497 | a response increments at most one of updated and failed; one not counted as updated leaves the sampler unchanged unless it was an in-place adaptive update |
| RemoteSampler.RateLimitingFailsIff | jaeger_client/sampler.py:482-486 | a rate-limiting response is refused exactly for a rate outside [0, 500) |
| RemoteSampler.ResponseKeepsOk | jaeger_client/sampler.py:456-497 | whatever the sampler was and whatever comes, its parts agree afterwards |
| RemoteSampler.RepeatedPollChangesNothing | jaeger_client/sampler.py:187-191 | polling the same rate again changes nothing and never refills the bucket |
| RemoteSampler.PollingBound | jaeger_client/sampler.py:482-489 | under any sequence of polls and calls, sampled traces are at most initial balance + what the rates in force earned + growth of the bucket |
| RemoteObject.RemoteControlledSampler.UpdateSampler | jaeger_client/sampler.py:456-467 | the object after any response, with its counters, is the value model's; the held sampler is updated in place or replaced |
| RemoteObject.RemoteControlledSampler.UpdateAdaptiveSampler | jaeger_client/sampler.py:469-474 | an adaptive sampler is updated in place, any other is replaced, and a failure is counted |
| RemoteObject.RemoteControlledSampler.UpdateLimit | jaeger_client/sampler.py:482-497 | range check, in-place update or replacement, counters |
| RemoteObject.RemoteControlledSampler.UpdateProb | jaeger_client/sampler.py:479-497 | replacement by an unequal probabilistic sampler only |
| ThriftWire.SkipConsumes | jaeger_client/thrift_gen/jaeger/ttypes.py:133-138 | skip consumes exactly the tokens of any well-formed value of the announced type, however nested |
| ThriftStructs.ReadStructMeans | jaeger_client/thrift_gen/jaeger/ttypes.py:453-538 | read gives every well-formed struct its meaning (the last field with a known id and type counts, others nothing) and consumes exactly its tokens |
| ThriftRoundTrip.WrittenMeans | jaeger_client/thrift_gen/jaeger/ttypes.py:540-599 | what write emits is well formed and means the struct written |
| ThriftRoundTrip.RoundTrip | jaeger_client/thrift_gen/jaeger/ttypes.py:453-599 | read after write rebuilds the struct, None attributes and empty lists told apart, and consumes exactly its tokens |
| ThriftRoundTrip.TablesSound | jaeger_client/thrift_gen/jaeger/ttypes.py:425-438 | the six tables have distinct field ids and nest only such tables |
| ThriftRoundTrip.BatchRoundTrip | jaeger_client/thrift_gen/jaeger/ttypes.py:753-801 | the round trip for every batch, with process, spans, references, tags and logs |
| ThriftRoundTrip.StripInsert | jaeger_client/thrift_gen/jaeger/ttypes.py:131-138 | a field of an unknown id, or of a known id with another type, inserted anywhere strips away |
| ThriftRoundTrip.UnknownFieldsIgnored | jaeger_client/thrift_gen/jaeger/ttypes.py:131-138 | structs that differ only in such fields, at any depth, are read as the same struct |
| ThriftRoundTrip.InsertedFieldsIgnored | jaeger_client/thrift_gen/jaeger/ttypes.py:131-138 | inserting well-formed unknown fields anywhere in a readable struct, at any depth and in any number, leaves it readable and changes nothing that is read |
| ThriftRoundTrip.WrittenWithUnknownField | jaeger_client/thrift_gen/jaeger/ttypes.py:453-599 | one unknown field put anywhere into what write emits: read still rebuilds the struct and consumes exactly the tokens |
| ThriftProtocol.InProtocol.Read | jaeger_client/thrift_gen/jaeger/ttypes.py:453-538 | the reading loop returns the struct and leaves the input that the specification says, or fails with it |
| ThriftProtocol.InProtocol.ReadField | jaeger_client/thrift_gen/jaeger/ttypes.py:484-494 | a field's value: scalar, struct or list of structs |
| ThriftProtocol.InProtocol.ReadItems | jaeger_client/thrift_gen/jaeger/ttypes.py:484-494 | the loop over a list reads as many structs as the list header announces |
| ThriftProtocol.OutProtocol.Write | jaeger_client/thrift_gen/jaeger/ttypes.py:540-599 | appends exactly the tokens of the struct, fields in table order, None left out |
| ThriftProtocol.OutProtocol.WriteField | jaeger_client/thrift_gen/jaeger/ttypes.py:565-570 | appends exactly the tokens of a field's value |
| ThriftIds.HalvesAreCongruent | jaeger_client/thrift.py:28-53 | for every integer id both halves fit a signed 64-bit field and are congruent to the id's halves modulo 2^64 |
| ThriftIds.TraceIdRecoveredIff | jaeger_client/thrift.py:28-53 | the halves recombine to the id if and only if it is in [0, 2^128) |
| ThriftIds.SpanIdRecoveredIff | jaeger_client/thrift.py:46-53 | a span id fits its field and is recovered if and only if it is in [0, 2^64) |
| ThriftIds.DurationFits | jaeger_client/thrift.py:144-151 | start and duration in microseconds add up to the end, or to one microsecond less |
| ThriftIds.MakeReferences | jaeger_client/thrift.py:185-196 | one reference struct per reference, in order; None for none |
| ThriftIds.ReferencesInjective | jaeger_client/thrift.py:185-196 | the structs determine the references, up to absent and empty |
| ThriftIds.MakeJaegerBatch | jaeger_client/thrift.py:199-220 | one span struct per span, in order, with all its attributes (which value is under which field id: ThriftFields) |
| ThriftIds.JaegerSpanInjective | jaeger_client/thrift.py:199-220 | a span struct determines the ids, parent, name, references, flags, tags and logs of an in-range span, and its start and duration to the microsecond |
| ThriftIds.BatchReachesReader | jaeger_client/thrift.py:199-220 | from spans to tokens and back, whatever follows: the reader gets the process and one struct per span, in order |
| ThriftIds.WireDeterminesSpans | jaeger_client/thrift.py:199-220 | batches with equal tokens have the same process and, in order, spans equal in ids, parent, name, references, flags, tags, logs, and in start and duration to the microsecond |
| ThriftFields.SpanFields | jaeger_client/thrift.py:199-220 | on the wire, field ids 1 and 2 hold the trace id and trace id / 2^64 modulo 2^64, 3 the span id, 4 the parent id or 0, 5 the name, 6 the references if any, 7 the flags, 8 the start and 9 the duration in whole microseconds, 10 the tags, 11 the logs |
| ThriftFields.SpanIdsRecovered | jaeger_client/thrift.py:28-53 | a backend recovers trace, span and parent id from fields 1 to 4, and 4 is 0 exactly for no parent |
| ThriftFields.ReferenceFields | jaeger_client/thrift.py:185-196 | a reference has 0 for CHILD_OF and 1 for FOLLOWS_FROM under id 1, the halves of the trace id under 2 and 3, and the span id under 4 |
| ThriftFields.BatchFields | jaeger_client/thrift.py:199-220 | a batch has the process under id 1 and under 2 one struct per span, in order, each with its span's fields |
| ThriftFields.TagFields | jaeger_client/thrift_gen/jaeger/ttypes.py:131-200 | the ids of key, type and the five kinds of value |
| Hex.IntRoundTrip | jaeger_client/codecs.py:219-220 | int(format(n, 'x'), 16) = n for every integer |
| Hex.ParsedPrints | jaeger_client/codecs.py:244-247 | digits printed back after parsing are the same in lower case without leading zeros |
| Hex.SameNumberIff | jaeger_client/codecs.py:244-247 | two strings of hex digits are the same number if and only if they differ in case and left zero padding only |
| Hex.PaddedRoundTrip | jaeger_client/codecs.py:342-348 | zero-filled hex of any width parses back, for every integer |
| Hex.PaddedFills | jaeger_client/codecs.py:342-348 | zero-filled hex has at least the width, in lower case, and more only without a leading zero |
| Hex.ParsesIff | jaeger_client/codecs.py:244-247 | the digits int(s, 16) takes are exactly those with at most single underscores between them |
| Hex.FormsParse | jaeger_client/codecs.py:244-247 | blanks around the number, a sign, and a prefix 0x that an underscore may follow are accepted and change nothing but the sign |
| Hex.OnlyForms | jaeger_client/codecs.py:244-247 | and every accepted text is of this form |
| ContextString.RoundTripIff | jaeger_client/codecs.py:206-256 | parsing the printed context gives it back if and only if the ids are at least 1, the parent absent or at least 1 and the flags not negative, with no upper bound |
| ContextString.SingletonHeader | jaeger_client/codecs.py:230-238 | a one-element list of header values is read as its element |
| ContextString.ParsedIsValid | jaeger_client/codecs.py:248-253 | whatever is accepted has valid ids |
| ContextString.PaddingAndCaseIgnored | jaeger_client/codecs.py:239-253 | letter case and zero padding of any field change nothing, in results and in errors |
| ContextString.ParsedPrintsBack | jaeger_client/codecs.py:206-256 | printing what was parsed gives the canonical digits of all four fields |
| ContextString.FieldsParsed | jaeger_client/codecs.py:239-256 | four fields are trace id, span id, parent id and flags in this order, and make a context exactly when all are base-16 numbers in range |
| ContextString.FourFieldsIff | jaeger_client/codecs.py:239-243 | a text is refused as not having four parts if and only if it is not four fields without colons |
| SpanContexts.WithBaggageItemChangesOne | jaeger_client/span_context.py:45-57 | the copy differs in that one item (set or removed) and in the dropped debug id; keys stay distinct |
| Percent.UnquoteQuote | jaeger_client/codecs.py:70-97 | unquote inverts quote on every byte string (section 2.1 of RFC 3986) |
| TextCodec.MadeWell | jaeger_client/codecs.py:43-54 | whatever names are configured, the names compared with lower-cased keys are in lower case |
| TextCodec.Carrier.Inject | jaeger_client/codecs.py:56-80 | the whole dictionary afterwards, existing keys in place, and what stays when an item cannot be encoded |
| TextCodec.Carrier.Extract | jaeger_client/codecs.py:82-118 | the scan of all headers from left to right up to the first error, with trace, baggage, debug-id and baggage-list headers (what comes of any headers: TextFacts) |
| TextFacts.ExtractFacts | jaeger_client/codecs.py:82-130 | for any headers: extraction raises if and only if some trace, baggage, debug-id or list header is unusable; the ids are those of the last trace header, the debug id the decoded value of the last debug-id header that is neither trace nor baggage, the baggage what the prefixed headers and the k=v pairs assign, the last to a key winning; and there is no context exactly when all three are missing |
| TextFacts.DebugIdAlone | jaeger_client/codecs.py:102-118 | headers with one debug id and nothing else of the four kinds make a context with that debug id and nothing else |
| TextFacts.InjectFacts | jaeger_client/codecs.py:56-80 | into any carrier: what every header holds afterwards, when inject raises, and what it has written by then |
| TextFacts.MadeNames | jaeger_client/codecs.py:43-54 | three names are compared in lower case with dashes for underscores, the list header's name as given |
| TextRoundTrip.TextRoundTripIff | jaeger_client/codecs.py:56-118 | extract after inject into an empty carrier restores ids, parent, flags and the baggage with lower-cased keys if and only if the ids are valid and no item's header reads as the trace header |
| TextRoundTrip.TextExactRoundTripIff | jaeger_client/codecs.py:56-118 | it restores the very context if and only if, besides, all keys are in lower case |
| TextRoundTrip.NoPrefixNoCollision | jaeger_client/codecs.py:90-98 | a trace header that does not start with the baggage prefix collides with no item |
| TextRoundTrip.DefaultRoundTrip | jaeger_client/codecs.py:43-118 | with the default names every valid context is restored, url-encoded or not |
| TextRoundTrip.CollidingItemFails | jaeger_client/codecs.py:56-99 | with trace header uberctx-id and the default prefix, an item named id overwrites the trace header and extraction raises |
| TextRoundTrip.InjectKeepsOthers | jaeger_client/codecs.py:56-80 | headers of other names are left alone |
| BigEndian.UnpackPack | jaeger_client/codecs.py:148-160 | unpacking a packed number gives it back |
| BigEndian.PackUnpack | jaeger_client/codecs.py:148-160 | packing what was unpacked gives the same bytes back |
| BinaryCodec.ByteArray.Inject | jaeger_client/codecs.py:137-153 | exactly what is appended, also when the header or an item does not pack |
| BinaryCodec.ByteArray.Extract | jaeger_client/codecs.py:155-176 | the context read, or the exception, with Python's slices for negative lengths |
| BinaryRoundTrip.BinaryRoundTripIff | jaeger_client/codecs.py:137-203 | inject succeeds and extract restores the context, whatever bytes follow, if and only if the trace id has 128 bits, span and parent ids 64, flags 8, the item count 32, and every key and value is text shorter than 2^31 bytes |
| BinaryRoundTrip.LongValueFails | jaeger_client/codecs.py:178-203 | a context with one value of 2^31 bytes is injected without an error and extraction raises |
| BinaryRoundTrip.ReinjectIff | jaeger_client/codecs.py:137-203 | every well-formed carrier is extracted, and injecting the result reproduces exactly the consumed bytes if and only if no key occurs twice |
| BinaryLayout.WrittenHeader | jaeger_client/codecs.py:137-150 | a carrier begins with the trace id in 16 bytes, span and parent id in 8 each, flags in 1 and the item count in 4, big-endian, and goes on with the items |
| BinaryLayout.ReadHeader | jaeger_client/codecs.py:155-176 | extraction reads these numbers from these places of any carrier |
| BinaryLayout.WrittenItem | jaeger_client/codecs.py:178-190 | an item is the length of its key, the key, the length of its value and the value |
| BinaryLayout.PackedByte | jaeger_client/codecs.py:148-150 | byte i of k counts units of 256 to the power k - 1 - i |
| BinaryLayout.CutCarrierFails | jaeger_client/codecs.py:155-203 | every proper prefix of a written carrier makes extraction raise |
| B3Codec.B3Carrier.Inject | jaeger_client/codecs.py:339-352 | the whole dictionary afterwards, with padded ids and at most one of the two flag headers |
| B3Codec.B3Carrier.Extract | jaeger_client/codecs.py:354-377 | the scan of all headers ignoring case and None values, up to the first error |
| B3Codec.B3RoundTrip | jaeger_client/codecs.py:339-377 | under both id settings, ids of any width survive, flags become 2 for debug, else the sampled bit, baggage is gone; no context exactly when the trace or span id is zero |
| B3Codec.FlagsIdempotent | jaeger_client/codecs.py:349-352 | a second passage changes the flags no further |
| B3Codec.SampledSurvivesIff | jaeger_client/codecs.py:349-352 | the debug bit always survives, the sampled bit exactly when it was not set together with the debug bit |
| B3Codec.DebugSpanLosesSampled | jaeger_client/codecs.py:349-352 | a context with the flags start_span gives a debug span comes back with the debug bit only |
| B3Codec.ScanFacts | jaeger_client/codecs.py:354-371 | extraction fails if and only if some id header is not hex text; otherwise each id is that of the last header of its name, and each flag is set if and only if such a header has value 1 |
| B3Codec.OrderIrrelevant | jaeger_client/codecs.py:354-377 | with names distinct ignoring case, any permutation of the headers gives the same context, or fails as well |
| B3Codec.ExtractFacts | jaeger_client/codecs.py:354-377 | for any headers: when extraction raises, and which context the three numbers and the two flag headers make |
| B3Codec.InjectFacts | jaeger_client/codecs.py:339-352 | into any carrier: what each of the five headers holds afterwards, all others staying |
| Throttling.RemoteThrottler.IsAllowed | jaeger_client/throttler.py:81-93 | the credits afterwards and the answer; a first request registers the operation and is refused |
| Throttling.RemoteThrottler.UpdateCredits | jaeger_client/throttler.py:178-186 | every element up to the first unusable one is added in place, repeated operations included |
| Throttling.CreditConservation | jaeger_client/throttler.py:81-93 | in every history, for each operation, current credits + grants = sum of the balances received |
| Throttling.KnownIff | jaeger_client/throttler.py:81-93 | the operations with credits are exactly those asked for before or named in a response up to its first unusable element |
| Throttling.FirstIsRefused | jaeger_client/throttler.py:85-88 | a first request is refused, costs nothing and registers the operation |
| Throttling.AllowedIff | jaeger_client/throttler.py:81-93 | a request is allowed if and only if received balances exceed grants by at least one |
| Throttling.GrantsWithinReceived | jaeger_client/throttler.py:81-93 | with no negative balance, grants are at most the whole credits received |
| Throttling.NegativeBalancesOverspend | jaeger_client/throttler.py:178-186 | a history with a negative balance that ends with more grants than credits received |
| Tracing.NonzeroIsTrue | jaeger_client/span.py:116-135 | a value int() turns into a nonzero number is true, so the first test of the priority tag catches it on debug spans |
| Tracing.ParentOrder | jaeger_client/tracer.py:158-180 | child_of wins when it has a trace, then the active span when child_of is absent and it is not to be ignored, then the first reference with a context; without one the parent without a trace stays |
| Tracing.ChildInherits | jaeger_client/tracer.py:204-218 | under a parent with a trace the new context keeps trace id, flags and baggage, takes or shares the span id by the one-span-per-rpc rule, and asks no throttler |
| TracingTheorems.TagGainsExactly | jaeger_client/span.py:98-135 | set_tag records a gain, for the span's operation, if and only if the span was no debug span before and is one after |
| TracingTheorems.GainsAreTurns | jaeger_client/span.py:98-135 | in any run the recorded gains are, in order, exactly the times a span turned into a debug span by a tag or was started as one by a debug id |
| TracingTheorems.DebugBudget | jaeger_client/span.py:116-135 | in any run behind a throttler, for each operation, current credits + the times a span turned into a debug span = balances polled; with no negative balance at most the whole credits polled |
| TracingTheorems.DebugSpanNeverCharged | jaeger_client/span.py:121-133 | no tag on a debug span costs a credit |
| TracingTheorems.NoCreditsNoDebug | jaeger_client/tracer.py:198-201 | while less than one credit was polled per operation, no tag and no debug id makes any span a debug span |
| TracingTheorems.ReportedOnce | jaeger_client/span.py:76-96 | under any sequence of calls on any spans, the reporter is given exactly the finished spans, each once |
| TracingTheorems.DeliveredAtMostOnce | jaeger_client/span.py:76-96 | with any run of the reporter behind it, a span is in all submitted batches at most once, and only if finished |
| TracingFacts.FinishReportsIff | jaeger_client/span.py:76-96 | finish hands its span to the reporter if and only if the lowest flag bit is set then and the span was not handed over before; no other call hands over anything |
| TracingFacts.ReportedIff | jaeger_client/span.py:76-96 | in any run a span is reported if and only if some finish found it sampled |
| TracingFacts.ReportedAtFirst | jaeger_client/span.py:76-96 | it is reported at the first such finish, and once |
| TracingFacts.DeliveredWasSampled | jaeger_client/span.py:76-96 | a span in any submitted batch was sampled at one of its finishes |
| TracingFacts.PriorityTag | jaeger_client/span.py:98-135 | every case of sampling.priority: which values are refused or raise, which bits are cleared or set, when the tag is kept and what the throttler is charged |
| TracingFacts.TagsKept | jaeger_client/span.py:98-114 | other tags are all kept on a sampled span and none on another |
| TracingFacts.BaggageCall | jaeger_client/span.py:151-166 | the item is in the context of every span, and in the logs of sampled ones, marked as overriding when a value was there |
| TracingFacts.NewTrace | jaeger_client/tracer.py:184-197 | a new trace has fresh ids, the sampler's decision in its flags, and the sampler's tags over the given ones |
| TracingFacts.DebugIdTrace | jaeger_client/tracer.py:198-203 | a parent without a trace gives its baggage, and with a debug id the throttler allows, flags SAMPLED + DEBUG and the debug id as a tag |
| TracingFacts.ChildOfTrace | jaeger_client/tracer.py:204-218 | the whole context of a child, with the one-span-per-rpc rule for tag span.kind = server |
| TracingFacts.StartedSpan | jaeger_client/tracer.py:214-225 | without a priority tag the new span has the new context, the operation's name or none, and all its tags if sampled, else none |
| TracingFacts.OtherSpansStay | jaeger_client/span.py:65-166 | in a run a call on one span leaves every other span alone; finish, renaming and logging do to their span exactly what they should |
| TracingFacts.SpansAdded | jaeger_client/tracer.py:214-225 | a start adds exactly one span unless a tag raises, and no other call adds any |
| TracingFacts.ValidReferencesAdd | jaeger_client/tracer.py:169-176 | the references with a context are kept in order, and no others |
| TracingFacts.DecimalConverts | jaeger_client/span.py:125-128 | a number written out in decimal, with or without a sign and blanks around it, is that number as a priority |
| TracingFacts.DecimalIff | jaeger_client/span.py:125-128 | the decimal digits accepted are exactly those with at most single underscores between them |
| TracerObjects.Span.SetSamplingPriority | jaeger_client/span.py:116-135 | flags, throttler and verdict afterwards, in place, for every value |
| TracerObjects.Span.SetTag | jaeger_client/span.py:98-114 | the tag is kept only on a sampled span, and a refused priority tag not at all |
| TracerObjects.Span.Finish | jaeger_client/span.py:76-96 | hands the span to the reporter exactly when it is sampled and was not finished |
| TracerObjects.Span.SetOperationName | jaeger_client/span.py:65-74 | changes the name, under which later priority tags are charged, and nothing else |
| TracerObjects.Span.SetBaggageItem | jaeger_client/span.py:151-166 | replaces the context by a copy with the item, and logs it on a sampled span |
| TracerObjects.Tracer.SelectReferences | jaeger_client/tracer.py:169-176 | the references with a context, in order |
| TracerObjects.Tracer.SelectParent | jaeger_client/tracer.py:158-180 | child_of, else the active span, else the first reference; a parent without a trace yields to a reference |
| TracerObjects.Tracer.NewContext | jaeger_client/tracer.py:182-218 | ids, flags, baggage, tags and throttler for a new trace, a debug id, or a child |
| TracerObjects.Tracer.StartSpan | jaeger_client/tracer.py:131-225 | the fresh span with its tags applied one by one, and the throttler afterwards; none when a tag raises |
| Propagation.ContinuesOverText | jaeger_client/tracer.py:184-218 | a span started under a context carried by the default headers continues the trace: same trace id, flags, parent and lower-cased baggage, uncharged |
| Propagation.ContinuesOverBinary | jaeger_client/tracer.py:184-218 | the same over the binary format for every in-range context, whatever bytes follow |
| Propagation.ContinuesOverB3 | jaeger_client/tracer.py:184-218 | the same over B3 without baggage; the child of a debug span stays one, but loses the sampled bit exactly when both were set |
| Propagation.DebugIdReachesSpan | jaeger_client/tracer.py:198-203 | headers with a debug id and no trace: the span started under the extracted context has flags SAMPLED + DEBUG, the decoded debug id as a tag and the headers' baggage if the throttler allows it, and neither bit nor tags if not |
| Propagation.DefaultDebugId | jaeger_client/codecs.py:102-118 | the same for a request whose only header is jaeger-debug-id, in any letter case, under the default names |

## Left out

- Tornado's queue, futures and IOLoop: replaced by a bounded FIFO with a waiting getter and waiting putters and by atomic callback steps; a timeout is a step enabled only for a getter that waits with a timer armed.
- Fairness of the IOLoop: that enabled steps are eventually taken is not part of the model; proved are a bound on all steps of the loop and what holds when none is left.
- batch_size below 1: the constructor accepts it and so does Create; the consumer then loops without ever waiting, which the state machine does not describe, and its theorems assume at least 1.
- Threads: locks are taken to work. `set_baggage_item` copies the context outside the lock, so a concurrent priority tag can be lost; calls on a span are one at a time here.
- Clocks that run backwards, floating-point rounding, infinities and NaN: times are nondecreasing and arithmetic is on reals.
- Random numbers: arbitrary values in range.
- HTTP, UDP, polling timers and JSON decoding: parsed responses are inputs; response fields of the wrong type are modelled only for the throttler's balances and for missing fields.
- Thrift compact wire bytes and the accelerated branches: the model stops at typed tokens; a list whose announced element type is not the reader's is read as far as its tokens allow. The ranges of i32 and i64 fields are those of ThriftIds' theorems only.
- ThriftProtocol.InProtocol.SkipValue: skip is a function here, not a loop over the input.
- UTF-8 and its errors: text stands for its bytes, so decoding never fails; letter case and blanks are those of ASCII, and non-ASCII digits in hex text are not modelled.
- Baggage keys given as bytes, and header values with a truth value of false other than the empty string and list.
- Percent.UnquoteQuote: characters above 255 are not bytes and stay outside it.
- Tag conversion, truncation and timestamps of logs: a span keeps the tags and logs it was given.
- ThriftIds.MakeJaegerBatch: takes tags and logs as structs, as the span stores them.
- int() of a custom object: any value other than a number, a truth value or text makes it raise TypeError.
- TracingTheorems.DebugBudget: a failed start_span call whose later tag raises still counts the span that existed until then.
- ReporterMetrics' queue-length gauge, error logging, tracer and sampler metrics.
- ConstSampler, NullReporter, InMemoryReporter, ZipkinCodec, configuration, crossdock and the Zipkin, agent and sampling Thrift services: easy members or the same pattern again.
