/** What the reporter promises over whole runs. */
module ReporterTheorems {
  import opened ReporterProtocol

  // --------------------------------------------- what a step writes in the books

  ghost predicate Writes(s: State, step: Step, t: State)
    requires Enabled(s, step)
  {
    match step
    case Report(span) =>
      && t.books == s.books.(reported := s.books.reported + [span])
      && t.callbacks == s.callbacks + [ReportCall(span, CloseCalled(s))] && t.stopped == s.stopped
    case CallClose => t.books == s.books && t.callbacks == s.callbacks + [FlushCall] && t.stopped == s.stopped
    case RunCallback =>
      && t.callbacks == s.callbacks[1..]
      && (match s.callbacks[0]
          case FlushCall => t.books == s.books && t.stopped
          case ReportCall(span, late) =>
            && t.stopped == s.stopped
            && (if s.stopped then t.books == Rejected(s.books, span, late, false)
                else t.books == Accepted(s.books, span) || t.books == Rejected(s.books, span, late, true)))
    case SubmitEnds(sent) =>
      && t.books == Filed(s.books, Batch(s.inHand, s.consumer.cause, OutcomeOf(s.consumer, sent)))
      && t.callbacks == s.callbacks && t.stopped == s.stopped
    case _ => t.books == s.books && t.callbacks == s.callbacks && t.stopped == s.stopped
  }

  lemma NextWrites(c: Config, s: State, step: Step)
    requires Enabled(s, step)
    ensures Writes(s, step, Next(c, s, step))
  {
  }

  // ------------------------------------------------------------ order and loss

  /** The batches, then what is in hand, then the queue, are the accepted spans in order. */
  lemma NothingLostOrReordered(c: Config, steps: seq<Step>, t: State)
    requires ValidConfig(c) && Run(c, INITIAL, steps, t)
    ensures Flatten(t.books.batches) + t.inHand + HandedSpans(t.consumer) + QueuedSpans(t.queue) == t.books.accepted
    ensures t.unfinished == |t.queue| + |t.inHand| + HandedCount(t.consumer)
    ensures |t.queue| <= c.capacity
  {
    RunKeepsInv(c, INITIAL, steps, t);
  }

  /** Every batch has 1..batchSize spans; it is short only after a timeout or the marker. */
  lemma BatchShape(c: Config, steps: seq<Step>, t: State, i: nat)
    requires ValidConfig(c) && Run(c, INITIAL, steps, t) && i < |t.books.batches|
    ensures 1 <= |t.books.batches[i].spans| <= c.batchSize
    ensures |t.books.batches[i].spans| < c.batchSize <==>
            t.books.batches[i].cause.Flush? || t.books.batches[i].cause.Stop?
  {
    RunKeepsInv(c, INITIAL, steps, t);
  }

  /** When a future returned by close() resolves, it is the first one's, the marker has been
      taken, and every accepted span has been through _submit, in order. */
  lemma CloseMeansDrained(c: Config, steps: seq<Step>, t: State, i: nat)
    requires ValidConfig(c) && Run(c, INITIAL, steps, t)
    requires i < |t.closers| && t.closers[i].Closed?
    ensures i == 0 && t.consumer.Exited? && t.stopped
    ensures QueuedSpans(t.queue) == [] && Flatten(t.books.batches) == t.books.accepted
  {
    RunKeepsInv(c, INITIAL, steps, t);
  }

  /** Once stopped, no run accepts another span. */
  lemma {:induction false} StoppedAcceptsNothing(c: Config, s: State, steps: seq<Step>, t: State)
    requires s.stopped && Run(c, s, steps, t)
    ensures t.stopped && t.books.accepted == s.books.accepted
    decreases |steps|
  {
    if steps != [] {
      NextWrites(c, s, steps[0]);
      StoppedAcceptsNothing(c, Next(c, s, steps[0]), steps[1..], t);
    }
  }

  // ------------------------------------------------------------------- metrics

  function PendingSpans(callbacks: seq<Callback>): seq<SpanHandle> {
    if callbacks == [] then []
    else (if callbacks[0].ReportCall? then [callbacks[0].span] else []) + PendingSpans(callbacks[1..])
  }

  function RejectedSpans(rejected: seq<Rejection>): (r: seq<SpanHandle>)
    ensures |r| == |rejected|
  {
    seq(|rejected|, i requires 0 <= i < |rejected| => rejected[i].span)
  }

  function SpansWith(batches: seq<Batch>, outcome: Outcome): nat {
    if batches == [] then 0
    else SpansWith(batches[..|batches| - 1], outcome)
         + if batches[|batches| - 1].outcome == outcome then |batches[|batches| - 1].spans| else 0
  }

  /** Every reported span is pending, accepted or rejected, as often as it was reported. */
  ghost predicate Traced(s: State) {
    multiset(s.books.reported) ==
    multiset(PendingSpans(s.callbacks)) + multiset(s.books.accepted) + multiset(RejectedSpans(s.books.rejected))
  }

  /** The counters count the spans of the batches by outcome, and the rejections. */
  ghost predicate Metered(s: State) {
    && s.books.droppedCount == |s.books.rejected|
    && s.books.okCount == SpansWith(s.books.batches, Delivered)
    && s.books.errCount == SpansWith(s.books.batches, Failed)
  }

  lemma PendingFirst(callbacks: seq<Callback>)
    requires callbacks != []
    ensures multiset(PendingSpans(callbacks)) ==
            (if callbacks[0].ReportCall? then multiset{callbacks[0].span} else multiset{})
            + multiset(PendingSpans(callbacks[1..]))
  {
  }

  lemma {:induction false} PendingAppend(callbacks: seq<Callback>, cb: Callback)
    ensures multiset(PendingSpans(callbacks + [cb])) ==
            multiset(PendingSpans(callbacks)) + if cb.ReportCall? then multiset{cb.span} else multiset{}
  {
    hide PendingSpans;
    if callbacks == [] {
      assert callbacks + [cb] == [cb];
      PendingFirst([cb]);
      assert [cb][1..] == callbacks;
    } else {
      PendingAppend(callbacks[1..], cb);
      assert (callbacks + [cb])[1..] == callbacks[1..] + [cb];
      PendingFirst(callbacks);
      PendingFirst(callbacks + [cb]);
    }
  }

  lemma SpansWithAppend(batches: seq<Batch>, b: Batch, outcome: Outcome)
    ensures SpansWith(batches + [b], outcome) ==
            SpansWith(batches, outcome) + if b.outcome == outcome then |b.spans| else 0
  {
  }

  lemma RejectedAppend(rejected: seq<Rejection>, r: Rejection)
    ensures multiset(RejectedSpans(rejected + [r])) == multiset(RejectedSpans(rejected)) + multiset{r.span}
  {
    assert RejectedSpans(rejected + [r]) == RejectedSpans(rejected) + [r.span];
  }

  lemma CallbackKeepsTrace(s: State, t: State)
    requires Traced(s) && Enabled(s, RunCallback) && Writes(s, RunCallback, t) && s.callbacks[0].ReportCall?
    ensures Traced(t)
  {
    hide PendingSpans, RejectedSpans;
    PendingFirst(s.callbacks);
    var cb := s.callbacks[0];
    RejectedAppend(s.books.rejected, Rejection(cb.span, cb.late, false));
    RejectedAppend(s.books.rejected, Rejection(cb.span, cb.late, true));
    assert multiset(s.books.accepted + [cb.span]) == multiset(s.books.accepted) + multiset{cb.span};
  }

  lemma WritesKeepTrace(s: State, step: Step, t: State)
    requires Traced(s) && Enabled(s, step) && Writes(s, step, t)
    ensures Traced(t)
  {
    match step
    case Report(span) => PendingAppend(s.callbacks, ReportCall(span, CloseCalled(s)));
    case CallClose => PendingAppend(s.callbacks, FlushCall);
    case RunCallback => if s.callbacks[0].ReportCall? { CallbackKeepsTrace(s, t); }
    case _ =>
  }

  lemma WritesKeepMetrics(s: State, step: Step, t: State)
    requires Metered(s) && Enabled(s, step) && Writes(s, step, t)
    ensures Metered(t)
  {
    hide SpansWith;
    if step.SubmitEnds? {
      var batch := Batch(s.inHand, s.consumer.cause, OutcomeOf(s.consumer, step.sent));
      SpansWithAppend(s.books.batches, batch, Delivered);
      SpansWithAppend(s.books.batches, batch, Failed);
    }
  }

  lemma {:induction false} RunKeepsAccounts(c: Config, s: State, steps: seq<Step>, t: State)
    requires Traced(s) && Metered(s) && Run(c, s, steps, t)
    ensures Traced(t) && Metered(t)
    decreases |steps|
  {
    if steps != [] {
      NextWrites(c, s, steps[0]);
      WritesKeepTrace(s, steps[0], Next(c, s, steps[0]));
      WritesKeepMetrics(s, steps[0], Next(c, s, steps[0]));
      RunKeepsAccounts(c, Next(c, s, steps[0]), steps[1..], t);
    }
  }

  lemma BatchedCount(s: State, span: SpanHandle)
    requires Conserved(s)
    ensures multiset(Flatten(s.books.batches))[span] <= multiset(s.books.accepted)[span]
  {
  }

  /** A span the tracer reports once is in at most one batch, and once in it. */
  lemma AtMostOnce(c: Config, steps: seq<Step>, t: State, span: SpanHandle)
    requires ValidConfig(c) && Run(c, INITIAL, steps, t)
    ensures multiset(Flatten(t.books.batches))[span] <= multiset(t.books.reported)[span]
  {
    RunKeepsInv(c, INITIAL, steps, t);
    RunKeepsAccounts(c, INITIAL, steps, t);
    BatchedCount(t, span);
  }

  lemma {:induction false} OutcomesPartition(batches: seq<Batch>)
    ensures |Flatten(batches)| ==
            SpansWith(batches, Delivered) + SpansWith(batches, Failed) + SpansWith(batches, Discarded)
  {
    if batches != [] { OutcomesPartition(batches[..|batches| - 1]); }
  }

  ghost predicate NothingDiscarded(s: State) {
    s.hasProcess && SpansWith(s.books.batches, Discarded) == 0 && (s.consumer.Submitting? ==> s.consumer.sends)
  }

  lemma ProcessStays(c: Config, s: State, step: Step)
    requires s.hasProcess && (s.consumer.Submitting? ==> s.consumer.sends) && Enabled(s, step)
    ensures var t := Next(c, s, step); t.hasProcess && (t.consumer.Submitting? ==> t.consumer.sends)
  {
  }

  lemma StepDiscardsNothing(c: Config, s: State, step: Step)
    requires NothingDiscarded(s) && Enabled(s, step)
    ensures NothingDiscarded(Next(c, s, step))
  {
    ProcessStays(c, s, step);
    NextWrites(c, s, step);
    if step.SubmitEnds? {
      SpansWithAppend(s.books.batches, Batch(s.inHand, s.consumer.cause, OutcomeOf(s.consumer, step.sent)), Discarded);
    }
  }

  lemma {:induction false} RunDiscardsNothing(c: Config, s: State, steps: seq<Step>, t: State)
    requires NothingDiscarded(s) && Run(c, s, steps, t)
    ensures NothingDiscarded(t)
    decreases |steps|
  {
    if steps != [] {
      StepDiscardsNothing(c, s, steps[0]);
      RunDiscardsNothing(c, Next(c, s, steps[0]), steps[1..], t);
    }
  }

  /** The spans that are still under way or in a metric. */
  function Accounted(t: State): nat {
    |PendingSpans(t.callbacks)| + |QueuedSpans(t.queue)| + |HandedSpans(t.consumer)| + |t.inHand|
    + t.books.okCount + t.books.errCount + t.books.droppedCount
  }

  lemma AccountsAddUp(s: State)
    requires Conserved(s) && Traced(s) && Metered(s)
    ensures |s.books.reported| == Accounted(s) + SpansWith(s.books.batches, Discarded)
  {
    hide SpansWith, Flatten, PendingSpans, QueuedSpans;
    OutcomesPartition(s.books.batches);
    assert |multiset(s.books.reported)| == |s.books.reported|;
  }

  lemma InitialOk(c: Config)
    requires ValidConfig(c)
    ensures Inv(c, INITIAL) && Traced(INITIAL) && Metered(INITIAL)
  {
  }

  /** In every state of every run: reports made = pending + queued + in hand + success + failure + dropped + what
      _submit returned on without counting. */
  lemma ReportsAddUp(c: Config, steps: seq<Step>, t: State)
    requires ValidConfig(c) && Run(c, INITIAL, steps, t)
    ensures |t.books.reported| == Accounted(t) + SpansWith(t.books.batches, Discarded)
  {
    InitialOk(c);
    hide Accounted, SpansWith, Traced, Metered;
    RunKeepsInv(c, INITIAL, steps, t);
    RunKeepsAccounts(c, INITIAL, steps, t);
    AccountsAddUp(t);
  }

  /** Some _submit of the run ended by the early return: it had started while no process was set. */
  ghost predicate SubmitsUnset(c: Config, s: State, steps: seq<Step>)
    decreases |steps|
  {
    steps != [] && Enabled(s, steps[0]) &&
    ((steps[0].SubmitEnds? && !s.consumer.sends) || SubmitsUnset(c, Next(c, s, steps[0]), steps[1..]))
  }

  lemma StepDiscards(c: Config, s: State, step: Step)
    requires ConsumerOk(c, s) && Enabled(s, step)
    ensures var was, after := SpansWith(s.books.batches, Discarded),
            SpansWith(Next(c, s, step).books.batches, Discarded);
            was <= after && (was < after <==> step.SubmitEnds? && !s.consumer.sends)
  {
    hide SpansWith;
    NextWrites(c, s, step);
    if step.SubmitEnds? {
      SpansWithAppend(s.books.batches, Batch(s.inHand, s.consumer.cause, OutcomeOf(s.consumer, step.sent)), Discarded);
    }
  }

  lemma {:induction false} RunDiscards(c: Config, s: State, steps: seq<Step>, t: State)
    requires ValidConfig(c) && Inv(c, s) && Run(c, s, steps, t)
    ensures var was, after := SpansWith(s.books.batches, Discarded), SpansWith(t.books.batches, Discarded);
            was <= after && (was < after <==> SubmitsUnset(c, s, steps))
    decreases |steps|
  {
    hide SpansWith, Inv;
    if steps != [] {
      InvConsumer(c, s);
      StepDiscards(c, s, steps[0]);
      StepKeepsInv(c, s, steps[0]);
      RunDiscards(c, Next(c, s, steps[0]), steps[1..], t);
    }
  }

  lemma InvConsumer(c: Config, s: State)
    requires Inv(c, s)
    ensures ConsumerOk(c, s)
  {
  }

  /** The metrics account for every report if and only if no _submit ran into the missing process. */
  lemma MetricsAddUpIff(c: Config, steps: seq<Step>, t: State)
    requires ValidConfig(c) && Run(c, INITIAL, steps, t)
    ensures |t.books.reported| == Accounted(t) <==> !SubmitsUnset(c, INITIAL, steps)
  {
    InitialOk(c);
    hide Accounted, Inv;
    ReportsAddUp(c, steps, t);
    RunDiscards(c, INITIAL, steps, t);
  }

  /** In particular in any run that submits nothing before the process is set, whatever was reported before it. */
  lemma ProcessBeforeSubmit(c: Config, before: seq<Step>, m: State, after: seq<Step>, t: State)
    requires ValidConfig(c) && Run(c, INITIAL, before, m) && Run(c, m, after, t)
    requires m.hasProcess && m.books.batches == [] && !m.consumer.Submitting?
    ensures |t.books.reported| == Accounted(t)
  {
    InitialOk(c);
    assert SpansWith(m.books.batches, Discarded) == 0;
    hide Accounted, SpansWith, Traced, Metered;
    RunKeepsInv(c, INITIAL, before, m);
    RunKeepsAccounts(c, INITIAL, before, m);
    RunKeepsInv(c, m, after, t);
    RunKeepsAccounts(c, m, after, t);
    RunDiscardsNothing(c, m, after, t);
    AccountsAddUp(t);
  }

  // --------------------------------------------- spans reported before close()

  /** Report callbacks queued before the flush callback ran were queued before close(). */
  ghost predicate EarlyFirst(s: State) {
    && (forall i, j :: 0 <= i < j < |s.callbacks| && s.callbacks[i].FlushCall? && s.callbacks[j].ReportCall?
                       ==> s.callbacks[j].late)
    && (s.stopped ==> forall i :: 0 <= i < |s.callbacks| && s.callbacks[i].ReportCall? ==> s.callbacks[i].late)
    && (forall i :: 0 <= i < |s.books.rejected| ==> s.books.rejected[i].queueFull || s.books.rejected[i].late)
  }

  lemma {:induction false} RunKeepsEarlyFirst(c: Config, s: State, steps: seq<Step>, t: State)
    requires EarlyFirst(s) && Run(c, s, steps, t)
    ensures EarlyFirst(t)
    decreases |steps|
  {
    if steps != [] {
      NextWrites(c, s, steps[0]);
      WritesKeepEarlyFirst(s, steps[0], Next(c, s, steps[0]));
      RunKeepsEarlyFirst(c, Next(c, s, steps[0]), steps[1..], t);
    }
  }

  lemma WritesKeepEarlyFirst(s: State, step: Step, t: State)
    requires EarlyFirst(s) && Enabled(s, step) && Writes(s, step, t)
    ensures EarlyFirst(t)
  {
  }

  /** close() loses no span reported before it: such a span is dropped only by a full queue. */
  lemma CloseLosesNoEarlierSpan(c: Config, steps: seq<Step>, t: State, r: Rejection)
    requires Run(c, INITIAL, steps, t) && r in t.books.rejected && !r.late
    ensures r.queueFull
  {
    RunKeepsEarlyFirst(c, INITIAL, steps, t);
  }
}
