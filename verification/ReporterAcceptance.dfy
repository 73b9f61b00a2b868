/** Which spans the reporter accepts, drops, flushes and counts, in terms of the state each step finds. */
module ReporterAcceptance {
  import opened ReporterProtocol
  import opened ReporterTheorems
  import opened ReporterClose
  import opened ReporterProgress

  // ------------------------------------------------------------- accept or drop

  /** put_nowait takes a span exactly when close() has not begun and a getter waits or the queue has room; it is then
      handed over or queued last. Otherwise the span is dropped and counted. */
  lemma AcceptedIff(c: Config, s: State)
    requires s.callbacks != [] && s.callbacks[0].ReportCall?
    ensures var t, span := Next(c, s, RunCallback), s.callbacks[0].span;
            && t.callbacks == s.callbacks[1..]
            && (t.books.accepted == s.books.accepted + [span] <==>
                !s.stopped && (s.consumer.Parked? || |s.queue| < c.capacity))
            && (if !s.stopped && s.consumer.Parked? then t.consumer == Handed(Work(span)) && t.queue == s.queue
                else t.consumer == s.consumer &&
                     t.queue == if !s.stopped && |s.queue| < c.capacity then s.queue + [Work(span)] else s.queue)
            && (if t.books.accepted == s.books.accepted + [span]
                then t.books.droppedCount == s.books.droppedCount && t.unfinished == s.unfinished + 1
                else t.books.accepted == s.books.accepted && t.unfinished == s.unfinished
                     && t.books.droppedCount == s.books.droppedCount + 1)
  {
  }

  /** A step of the run that drops a span reported before close() finds the queue full. */
  ghost predicate DropsWhenFull(c: Config, s: State, steps: seq<Step>)
    decreases |steps|
  {
    steps == [] ||
    (Enabled(s, steps[0])
     && (steps[0].RunCallback? && s.callbacks[0].ReportCall? && !s.callbacks[0].late
         && Next(c, s, steps[0]).books.accepted == s.books.accepted
         ==> |s.queue| == c.capacity && !s.consumer.Parked?)
     && DropsWhenFull(c, Next(c, s, steps[0]), steps[1..]))
  }

  lemma {:induction false} RunDropsWhenFull(c: Config, s: State, steps: seq<Step>, t: State)
    requires ValidConfig(c) && Inv(c, s) && EarlyFirst(s) && Run(c, s, steps, t)
    ensures DropsWhenFull(c, s, steps)
    decreases |steps|
  {
    hide Next, Inv, EarlyFirst;
    if steps != [] {
      StepKeepsInv(c, s, steps[0]);
      NextWrites(c, s, steps[0]);
      WritesKeepEarlyFirst(s, steps[0], Next(c, s, steps[0]));
      RunDropsWhenFull(c, Next(c, s, steps[0]), steps[1..], t);
      if steps[0].RunCallback? && s.callbacks[0].ReportCall? && !s.callbacks[0].late {
        AcceptedIff(c, s);
        InvConsumer(c, s);
        EarlyNotStopped(s);
      }
    }
  }

  lemma EarlyNotStopped(s: State)
    requires EarlyFirst(s) && s.callbacks != [] && s.callbacks[0].ReportCall? && !s.callbacks[0].late
    ensures !s.stopped
  {
  }

  /** In every run from the start, whatever is interleaved. */
  lemma EarlySpansDroppedOnlyWhenFull(c: Config, steps: seq<Step>, t: State)
    requires ValidConfig(c) && Run(c, INITIAL, steps, t)
    ensures DropsWhenFull(c, INITIAL, steps)
  {
    InitialOk(c);
    RunDropsWhenFull(c, INITIAL, steps, t);
  }

  lemma {:induction false} SomeFlushCall(callbacks: seq<Callback>)
    ensures FlushCall in callbacks <==> FlushCalls(callbacks) > 0
  {
    if callbacks != [] {
      SomeFlushCall(callbacks[1..]);
      assert callbacks == [callbacks[0]] + callbacks[1..];
    }
  }

  /** A report counts as late exactly when close() had been called before it. */
  lemma LateIff(c: Config, before: seq<Step>, m: State, span: SpanHandle)
    requires ValidConfig(c) && Run(c, INITIAL, before, m)
    ensures Next(c, m, Report(span)).callbacks == m.callbacks + [ReportCall(span, CloseCalls(before) > 0)]
  {
    RunKeepsInv(c, INITIAL, before, m);
    ClosersAddUp(c, INITIAL, before, m);
    SomeFlushCall(m.callbacks);
    StoppedIff(c, m);
  }

  lemma StoppedIff(c: Config, s: State)
    requires Inv(c, s)
    ensures s.stopped <==> s.closers != []
  {
  }

  // --------------------------------------------------------- nothing is dropped

  ghost predicate NeverClosed(s: State) {
    s.closers == [] && FlushCall !in s.callbacks
  }

  lemma RoomForReported(c: Config, s: State)
    requires Inv(c, s) && Traced(s) && NeverClosed(s) && s.books.rejected == []
    requires s.callbacks != [] && s.callbacks[0].ReportCall? && |s.books.reported| <= c.capacity
    ensures !s.stopped && |s.queue| < c.capacity
  {
    StoppedIff(c, s);
    SizesAddUp(s);
    assert PendingSpans(s.callbacks) != [];
    QueueHoldsSpans(c, s);
    assert |s.books.accepted| >= |QueuedSpans(s.queue)|;
  }

  lemma SizesAddUp(s: State)
    requires Traced(s)
    ensures |s.books.reported| == |PendingSpans(s.callbacks)| + |s.books.accepted| + |s.books.rejected|
  {
    hide PendingSpans;
    assert |multiset(s.books.reported)| == |s.books.reported|;
  }

  lemma QueueHoldsSpans(c: Config, s: State)
    requires Inv(c, s) && s.closers == []
    ensures |s.queue| == |QueuedSpans(s.queue)|
  {
  }

  lemma NeverClosedStays(c: Config, s: State, step: Step)
    requires NeverClosed(s) && Enabled(s, step) && !step.CallClose?
    ensures NeverClosed(Next(c, s, step))
  {
    NextStepsClosers(c, s, step);
    NextWrites(c, s, step);
  }

  lemma StepDropsNothing(c: Config, s: State, step: Step)
    requires ValidConfig(c) && Inv(c, s) && Traced(s) && NeverClosed(s) && s.books.rejected == []
    requires Enabled(s, step) && |s.books.reported| <= c.capacity
    ensures Next(c, s, step).books.rejected == []
  {
    hide Inv, Traced;
    NextWrites(c, s, step);
    if step.RunCallback? && s.callbacks[0].ReportCall? {
      RoomForReported(c, s);
      AcceptedIff(c, s);
    }
  }

  lemma {:induction false} RunDropsNothing(c: Config, s: State, steps: seq<Step>, t: State)
    requires ValidConfig(c) && Inv(c, s) && Traced(s) && NeverClosed(s) && s.books.rejected == []
    requires Run(c, s, steps, t) && CloseCalls(steps) == 0 && |t.books.reported| <= c.capacity
    ensures t.books.rejected == []
    decreases |steps|
  {
    hide Inv, Traced, NeverClosed, Next;
    if steps != [] {
      CostOfCalls(c, s, steps, t);
      StepDropsNothing(c, s, steps[0]);
      NeverClosedStays(c, s, steps[0]);
      StepKeepsInv(c, s, steps[0]);
      NextWrites(c, s, steps[0]);
      WritesKeepTrace(s, steps[0], Next(c, s, steps[0]));
      RunDropsNothing(c, Next(c, s, steps[0]), steps[1..], t);
    }
  }

  /** While close() is not called, a queue that could hold all spans reported so far drops none of them. */
  lemma EnoughRoomDropsNothing(c: Config, steps: seq<Step>, t: State)
    requires ValidConfig(c) && Run(c, INITIAL, steps, t)
    requires CloseCalls(steps) == 0 && |t.books.reported| <= c.capacity
    ensures t.books.rejected == [] && t.books.droppedCount == 0
  {
    InitialOk(c);
    RunDropsNothing(c, INITIAL, steps, t);
    RunKeepsAccounts(c, INITIAL, steps, t);
  }

  // ------------------------------------------------------------- the flush timer

  /** A waiting getter has a timer exactly when a flush interval is set and spans are in hand. */
  ghost predicate TimerOk(c: Config, s: State) {
    && (s.consumer.Parked? ==> (s.consumer.armed <==> c.flushes && s.inHand != []))
    && (s.consumer.TimedOut? ==> c.flushes)
  }

  lemma FetchSetsTimer(c: Config, s: State)
    requires s.consumer.Fetching?
    ensures TimerOk(c, FetchNext(c, s))
  {
    if LetPutterIn(s).queue != [] { FetchIsTake(c, s); }
  }

  lemma StepKeepsTimer(c: Config, s: State, step: Step)
    requires TimerOk(c, s) && Enabled(s, step)
    ensures TimerOk(c, Next(c, s, step))
  {
    hide FetchNext;
    if step.Fetch? { FetchSetsTimer(c, s); }
  }

  lemma {:induction false} RunKeepsTimer(c: Config, s: State, steps: seq<Step>, t: State)
    requires TimerOk(c, s) && Run(c, s, steps, t)
    ensures TimerOk(c, t)
    decreases |steps|
  {
    hide Next, TimerOk;
    if steps != [] {
      StepKeepsTimer(c, s, steps[0]);
      RunKeepsTimer(c, Next(c, s, steps[0]), steps[1..], t);
    }
  }

  /** With a flush interval, a loop that has come to rest holds nothing back, closed or not: every accepted span has
      been through _submit. Without one, at most batch_size - 1 spans wait in hand. */
  lemma RestMeansFlushed(c: Config, steps: seq<Step>, t: State)
    requires ValidConfig(c) && Run(c, INITIAL, steps, t) && Quiescent(t)
    ensures Flatten(t.books.batches) + t.inHand == t.books.accepted && |t.inHand| < c.batchSize
    ensures c.flushes ==> t.inHand == [] && Flatten(t.books.batches) == t.books.accepted
  {
    RunKeepsInv(c, INITIAL, steps, t);
    RunKeepsTimer(c, INITIAL, steps, t);
    RestHoldsInHand(c, t);
    if c.flushes { assert Flatten(t.books.batches) + [] == Flatten(t.books.batches); }
  }

  lemma RestHoldsInHand(c: Config, t: State)
    requires Inv(c, t) && Quiescent(t)
    ensures Flatten(t.books.batches) + t.inHand == t.books.accepted && |t.inHand| < c.batchSize
    ensures t.consumer.Exited? ==> t.inHand == []
  {
    var f, h := Flatten(t.books.batches), t.inHand;
    assert QueuedSpans(t.queue) == [];
    assert f + h + [] + [] == f + h;
  }

  // ----------------------------------------------------------------- the counters

  /** A submission starts with the process there is at that moment, and keeps it. */
  lemma SubmitsWithProcess(c: Config, s: State, step: Step)
    requires Enabled(s, step) && Next(c, s, step).consumer.Submitting?
    ensures Next(c, s, step).consumer.sends ==
            if s.consumer.Submitting? && !step.SubmitEnds? then s.consumer.sends else s.hasProcess
    ensures Next(c, s, step).hasProcess <==> s.hasProcess || step.SetProcess?
  {
  }

  /** The end of a submission: the whole batch is filed and marked done, and is counted as a success when it was sent,
      as a failure when sending raised, and not at all without a process. */
  lemma SubmitEndCounts(c: Config, s: State, sent: bool)
    requires s.consumer.Submitting?
    ensures var t, n := Next(c, s, SubmitEnds(sent)), |s.inHand|;
            && Flatten(t.books.batches) == Flatten(s.books.batches) + s.inHand && t.inHand == []
            && t.unfinished == s.unfinished - n
            && t.books.okCount == s.books.okCount + (if s.consumer.sends && sent then n else 0)
            && t.books.errCount == s.books.errCount + (if s.consumer.sends && !sent then n else 0)
            && t.books.droppedCount == s.books.droppedCount
            && t.consumer == if s.leaving then Exited else Fetching
  {
    FlattenAppend(s.books.batches, Batch(s.inHand, s.consumer.cause, OutcomeOf(s.consumer, sent)));
  }
}
