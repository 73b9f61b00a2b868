/** What close() does: it drains, it ends, and it resolves its future unless closes overlap. */
module ReporterClose {
  import opened ReporterProtocol
  import opened ReporterTheorems

  predicate MovesConsumer(step: Step) {
    step.Fetch? || step.Resume? || step.TimerFires? || step.ResumeTimeout? || step.SubmitEnds?
  }

  /** After an item: collect it and perhaps submit, or leave the loop. */
  ghost predicate Took(c: Config, s: State, item: Item, t: State) {
    match item
    case Work(x) =>
      && !t.leaving && t.inHand == s.inHand + [x]
      && (if |t.inHand| < c.batchSize then t.consumer == Fetching else t.consumer == Submitting(s.hasProcess, Full))
    case StopMarker =>
      && t.leaving && t.inHand == s.inHand
      && t.consumer == if t.inHand == [] then Exited else Submitting(s.hasProcess, Stop)
  }

  /** What a step can do to the consumer's side once stopped is set. */
  ghost predicate Drains(c: Config, s: State, step: Step, t: State)
    requires Enabled(s, step)
  {
    && t.stopped
    && match step
       case Fetch =>
         var q := QueuedSpans(s.queue);
         if q == [] then QueuedSpans(t.queue) == [] && Took(c, s, StopMarker, t)
         else QueuedSpans(t.queue) == q[1..] && Took(c, s, Work(q[0]), t)
       case Resume => t.queue == s.queue && Took(c, s, s.consumer.item, t)
       case TimerFires => false
       case ResumeTimeout =>
         t.queue == s.queue && t.inHand == s.inHand && !t.leaving && t.consumer == Submitting(s.hasProcess, Flush)
       case SubmitEnds(_) =>
         && t.queue == s.queue && t.inHand == [] && t.leaving == s.leaving
         && t.consumer == if s.leaving then Exited else Fetching
       case _ =>
         && QueuedSpans(t.queue) == QueuedSpans(s.queue) && t.inHand == s.inHand
         && t.leaving == s.leaving && t.consumer == s.consumer
  }

  /** After stopped is set the getter is never parked: the marker is in the queue, being put, or taken. */
  lemma NeverParked(c: Config, s: State)
    requires ValidConfig(c) && Inv(c, s) && s.stopped
    ensures !s.consumer.Parked?
    ensures s.consumer.Fetching? ==> LetPutterIn(s).queue != []
  {
  }

  lemma FetchDrains(c: Config, s: State)
    requires ValidConfig(c) && Inv(c, s) && s.stopped && s.consumer.Fetching?
    ensures Drains(c, s, Fetch, FetchNext(c, s))
  {
    NeverParked(c, s);
    var s1 := LetPutterIn(s);
    QueuedSpansAppend(s.queue, StopMarker);
    assert QueuedSpans(s1.queue) == QueuedSpans(s.queue);
    if s1.queue[0].StopMarker? {
      PoppedKeepsMarkers(c, s);
      assert QueuedSpans(s1.queue[1..]) == [];
    }
    FetchIsTake(c, s);
    TakeTook(c, Popped(s1));
  }

  lemma TakeTook(c: Config, s: State)
    requires s.consumer.Handed? && !s.leaving
    ensures Took(c, s, s.consumer.item, Take(c, s, s.consumer.item)) && Take(c, s, s.consumer.item).queue == s.queue
  {
  }

  lemma CallbackDrains(c: Config, s: State)
    requires s.stopped && s.callbacks != [] && !s.consumer.Parked?
    ensures Drains(c, s, RunCallback, Next(c, s, RunCallback))
  {
    hide QueuedSpans;
    QueuedSpansAppend(s.queue, StopMarker);
  }

  lemma StoppedStepDrains(c: Config, s: State, step: Step)
    requires ValidConfig(c) && Inv(c, s) && s.stopped && Enabled(s, step)
    ensures Drains(c, s, step, Next(c, s, step))
  {
    NeverParked(c, s);
    match step
    case Fetch => FetchDrains(c, s);
    case Resume => TakeTook(c, s);
    case RunCallback => CallbackDrains(c, s);
    case _ =>
  }

  // -------------------------------------------------------------- termination

  /** An upper bound on the consumer's remaining steps. */
  function Rank(s: State): nat {
    var n := |QueuedSpans(s.queue)|;
    match s.consumer
    case Exited => 0
    case Parked(_) => 0
    case Submitting(_, _) => if s.leaving then 1 else 3 * n + 4
    case Handed(item) => if item.StopMarker? then 2 else 3 * n + 6
    case Fetching => 3 * n + 3
    case TimedOut => 3 * n + 5
  }

  function ConsumerSteps(steps: seq<Step>): nat {
    if steps == [] then 0 else (if MovesConsumer(steps[0]) then 1 else 0) + ConsumerSteps(steps[1..])
  }

  lemma RankFalls(c: Config, s: State, step: Step, t: State)
    requires ConsumerOk(c, s) && s.stopped && !s.consumer.Parked? && Enabled(s, step) && Drains(c, s, step, t)
    ensures if MovesConsumer(step) then Rank(t) < Rank(s) else Rank(t) == Rank(s)
  {
  }

  /** Once stopped, every run makes at most Rank consumer steps, whatever else happens. */
  lemma {:induction false} ConsumerTerminates(c: Config, s: State, steps: seq<Step>, t: State)
    requires ValidConfig(c) && Inv(c, s) && s.stopped && Run(c, s, steps, t)
    ensures ConsumerSteps(steps) + Rank(t) <= Rank(s)
    decreases |steps|
  {
    if steps != [] {
      var s1 := Next(c, s, steps[0]);
      NeverParked(c, s);
      StoppedStepDrains(c, s, steps[0]);
      RankFalls(c, s, steps[0], s1);
      StepKeepsInv(c, s, steps[0]);
      ConsumerTerminates(c, s1, steps[1..], t);
    }
  }

  /** The consumer's next step. */
  function ConsumerMove(s: State): Step {
    match s.consumer
    case Fetching => Fetch
    case Handed(_) => Resume
    case TimedOut => ResumeTimeout
    case Parked(_) => TimerFires
    case _ => SubmitEnds(true)
  }

  /** Once stopped, the consumer can move until it has left its loop; with the bound above it leaves. */
  lemma ConsumerNeverStuck(c: Config, s: State)
    requires ValidConfig(c) && Inv(c, s) && s.stopped && !s.consumer.Exited?
    ensures MovesConsumer(ConsumerMove(s)) && Enabled(s, ConsumerMove(s)) && Rank(s) > 0
  {
  }

  // ------------------------------------------------- how many batches are left

  /** n spans in batches of size b: the ceiling of n / b. */
  function Chunks(b: nat, n: nat): (k: nat)
    requires b > 0
    ensures n <= k * b && (n > 0 ==> (k - 1) * b < n) && (n == 0 ==> k == 0)
  {
    if n == 0 then 0
    else if n <= b then 1
    else 1 + Chunks(b, n - b)
  }

  function BatchesLeft(c: Config, s: State): nat
    requires ValidConfig(c)
  {
    var k, n := |s.inHand|, |QueuedSpans(s.queue)|;
    match s.consumer
    case Exited => 0
    case Parked(_) => 0
    case Submitting(_, _) => if s.leaving then 1 else 1 + Chunks(c.batchSize, n)
    case Handed(item) => Chunks(c.batchSize, if item.StopMarker? then k else k + 1 + n)
    case Fetching => Chunks(c.batchSize, k + n)
    case TimedOut => 1 + Chunks(c.batchSize, n)
  }

  lemma ChunksAdd(b: nat, n: nat)
    requires b > 0
    ensures Chunks(b, b + n) == 1 + Chunks(b, n)
  {
  }

  lemma BatchesLeftFalls(c: Config, s: State, step: Step, t: State)
    requires ValidConfig(c) && ConsumerOk(c, s) && s.stopped && !s.consumer.Parked?
    requires s.consumer == Handed(StopMarker) ==> QueuedSpans(s.queue) == []
    requires Enabled(s, step) && Drains(c, s, step, t)
    ensures BatchesLeft(c, s) == BatchesLeft(c, t) + if step.SubmitEnds? then 1 else 0
  {
    hide QueuedSpans;
    ChunksAdd(c.batchSize, |QueuedSpans(t.queue)|);
  }

  /** From the moment stopped is set until the consumer leaves, exactly BatchesLeft batches follow. */
  lemma {:induction false} BatchesAfterClose(c: Config, s: State, steps: seq<Step>, t: State)
    requires ValidConfig(c) && Inv(c, s) && s.stopped && Run(c, s, steps, t)
    ensures |t.books.batches| + BatchesLeft(c, t) == |s.books.batches| + BatchesLeft(c, s)
    decreases |steps|
  {
    if steps != [] {
      var s1 := Next(c, s, steps[0]);
      NeverParked(c, s);
      StoppedStepDrains(c, s, steps[0]);
      BatchesLeftFalls(c, s, steps[0], s1);
      NextWrites(c, s, steps[0]);
      StepKeepsInv(c, s, steps[0]);
      BatchesAfterClose(c, s1, steps[1..], t);
    }
  }

  /** The batches close() still has to submit: ceil((k + n) / batchSize) for k spans collected and n queued,
      after the one already under way, if any. */
  function BatchesDue(c: Config, s: State): nat
    requires ValidConfig(c)
  {
    var k, n := |s.inHand| + |HandedSpans(s.consumer)|, |QueuedSpans(s.queue)|;
    if s.consumer.Submitting? || s.consumer.TimedOut? then 1 + Chunks(c.batchSize, n)
    else Chunks(c.batchSize, k + n)
  }

  lemma DueIsLeft(c: Config, s: State, s1: State)
    requires ValidConfig(c) && !s.leaving && s.consumer != Handed(StopMarker) && !s.consumer.Exited? && !s1.leaving
    requires s1.inHand == s.inHand && QueuedSpans(s1.queue) == QueuedSpans(s.queue)
    requires s1.consumer == if s.consumer.Parked? then Handed(StopMarker) else s.consumer
    requires s.consumer.Parked? ==> s.queue == []
    ensures BatchesLeft(c, s1) == BatchesDue(c, s)
  {
  }

  /** close() in one statement: once the flush begins, whatever else is interleaved, the consumer leaves
      its loop after exactly BatchesDue more batches, and all batches together are all accepted spans. */
  lemma CloseSubmitsExactly(c: Config, s: State, steps: seq<Step>, t: State)
    requires ValidConfig(c) && Inv(c, s) && !s.stopped && s.callbacks != [] && s.callbacks[0].FlushCall?
    requires Run(c, Next(c, s, RunCallback), steps, t) && t.consumer.Exited?
    ensures |t.books.batches| == |s.books.batches| + BatchesDue(c, s)
    ensures Flatten(t.books.batches) == s.books.accepted
  {
    var s1 := Next(c, s, RunCallback);
    FlushStarts(c, s);
    DueIsLeft(c, s, s1);
    CallbackKeepsInv(c, s);
    BatchesAfterClose(c, s1, steps, t);
    StoppedAcceptsNothing(c, s1, steps, t);
    RunKeepsInv(c, s1, steps, t);
    ExitedIsDrained(c, t);
  }

  lemma ExitedIsDrained(c: Config, t: State)
    requires Inv(c, t) && t.consumer.Exited?
    ensures Flatten(t.books.batches) == t.books.accepted
  {
  }

  lemma FlushStarts(c: Config, s: State)
    requires ValidConfig(c) && Inv(c, s) && !s.stopped && s.callbacks != [] && s.callbacks[0].FlushCall?
    ensures var s1 := Next(c, s, RunCallback);
            && s1.inHand == s.inHand && QueuedSpans(s1.queue) == QueuedSpans(s.queue)
            && s1.consumer == (if s.consumer.Parked? then Handed(StopMarker) else s.consumer)
            && !s1.leaving && s1.stopped && s1.books == s.books
            && !s.leaving && s.consumer != Handed(StopMarker) && !s.consumer.Exited?
  {
    QueuedSpansAppend(s.queue, StopMarker);
  }

  predicate FlushUnderway(s: State) {
    s.consumer.TimedOut? || (s.consumer.Submitting? && s.consumer.cause.Flush?)
  }

  ghost predicate FullBefore(from: nat, t: State) {
    && from <= |t.books.batches|
    && forall i :: from <= i < |t.books.batches| ==>
         t.books.batches[i].cause.Full? || (i == |t.books.batches| - 1 && t.consumer.Exited?)
  }

  /** After stopped is set only the last batch can be short, unless a flush timeout had fired. */
  lemma {:induction false} OnlyLastIsShort(c: Config, s: State, steps: seq<Step>, t: State, from: nat)
    requires ValidConfig(c) && Inv(c, s) && s.stopped && !FlushUnderway(s) && Run(c, s, steps, t)
    requires FullBefore(from, s)
    ensures FullBefore(from, t)
    decreases |steps|
  {
    if steps != [] {
      var s1 := Next(c, s, steps[0]);
      NeverParked(c, s);
      StoppedStepDrains(c, s, steps[0]);
      NextWrites(c, s, steps[0]);
      StepKeepsFull(c, s, steps[0], s1, from);
      StepKeepsInv(c, s, steps[0]);
      OnlyLastIsShort(c, s1, steps[1..], t, from);
    }
  }

  lemma StepKeepsFull(c: Config, s: State, step: Step, t: State, from: nat)
    requires ConsumerOk(c, s) && !FlushUnderway(s) && !s.consumer.Parked? && FullBefore(from, s)
    requires Enabled(s, step) && Drains(c, s, step, t) && Writes(s, step, t)
    ensures !FlushUnderway(t) && FullBefore(from, t)
  {
  }

  // --------------------------------------------------------- more than one close()

  /** close() begins to flush while the first close() has not resolved its future. */
  ghost predicate Overlaps(s: State, step: Step) {
    step.RunCallback? && s.callbacks != [] && s.callbacks[0].FlushCall? && s.closers != [] && !s.closers[0].Closed?
  }

  ghost predicate SomeOverlap(c: Config, s: State, steps: seq<Step>)
    decreases |steps|
  {
    steps != [] && Enabled(s, steps[0]) &&
    (Overlaps(s, steps[0]) || SomeOverlap(c, Next(c, s, steps[0]), steps[1..]))
  }

  ghost predicate NoneClosed(s: State) {
    forall i :: 0 <= i < |s.closers| ==> !s.closers[i].Closed?
  }

  ghost predicate Jammed(s: State) {
    |s.closers| >= 2 && NoneClosed(s)
  }

  /** What a step does to the closers. */
  ghost predicate StepsClosers(s: State, step: Step, t: State) {
    && |s.closers| <= |t.closers| <= |s.closers| + 1
    && (|t.closers| > |s.closers| <==> step.RunCallback? && s.callbacks != [] && s.callbacks[0].FlushCall?)
    && (|t.closers| > |s.closers| ==> !t.closers[|s.closers|].Closed?)
    && (forall i :: 0 <= i < |s.closers| && s.closers[i].Closed? ==> t.closers[i].Closed?)
    && (t.unfinished != 0 ==> forall i :: 0 <= i < |s.closers| && t.closers[i].Closed? ==> s.closers[i].Closed?)
  }

  lemma TakeStepsClosers(c: Config, s: State, item: Item)
    ensures var t := Take(c, s, item);
            t.closers == if item.StopMarker? && t.unfinished == 0 then Woken(s.closers) else s.closers
  {
  }

  lemma FetchStepsClosers(c: Config, s: State)
    ensures StepsClosers(s, Fetch, FetchNext(c, s))
  {
    if LetPutterIn(s).queue != [] {
      FetchIsTake(c, s);
      TakeStepsClosers(c, Popped(LetPutterIn(s)), LetPutterIn(s).queue[0]);
    }
  }

  lemma NextStepsClosers(c: Config, s: State, step: Step)
    requires Enabled(s, step)
    ensures StepsClosers(s, step, Next(c, s, step))
  {
    match step
    case Fetch => FetchStepsClosers(c, s);
    case Resume => TakeStepsClosers(c, s, s.consumer.item);
    case RunCallback => CallbackStepsClosers(c, s);
    case SubmitEnds(_) => assert StepsClosers(s, step, Next(c, s, step));
    case _ =>
  }

  lemma CallbackStepsClosers(c: Config, s: State)
    requires s.callbacks != []
    ensures StepsClosers(s, RunCallback, Next(c, s, RunCallback))
  {
  }

  lemma TwoClosersKeepTasks(c: Config, s: State)
    requires ValidConfig(c) && Inv(c, s) && |s.closers| >= 2
    ensures s.unfinished != 0
  {
  }

  lemma {:induction false} JamStays(c: Config, s: State, steps: seq<Step>, t: State)
    requires ValidConfig(c) && Inv(c, s) && Jammed(s) && Run(c, s, steps, t)
    ensures Jammed(t)
    decreases |steps|
  {
    if steps != [] {
      var s1 := Next(c, s, steps[0]);
      StepKeepsInv(c, s, steps[0]);
      NextStepsClosers(c, s, steps[0]);
      TwoClosersKeepTasks(c, s1);
      JamStays(c, s1, steps[1..], t);
    }
  }

  ghost predicate Sequential(s: State) {
    |s.closers| >= 2 ==> s.closers[0].Closed?
  }

  lemma {:induction false} NoOverlapStaysSequential(c: Config, s: State, steps: seq<Step>, t: State)
    requires Sequential(s) && Run(c, s, steps, t) && !SomeOverlap(c, s, steps)
    ensures Sequential(t)
    decreases |steps|
  {
    if steps != [] {
      NextStepsClosers(c, s, steps[0]);
      NoOverlapStaysSequential(c, Next(c, s, steps[0]), steps[1..], t);
    }
  }

  /** A second close() that begins while the first is unresolved leaves two markers for one consumer:
      from then on no future of any close() ever resolves. */
  lemma {:induction false} OverlapResolvesNothing(c: Config, s: State, steps: seq<Step>, t: State)
    requires ValidConfig(c) && Inv(c, s) && Run(c, s, steps, t) && SomeOverlap(c, s, steps)
    ensures |t.closers| >= 2 && NoneClosed(t)
    decreases |steps|
  {
    var s1 := Next(c, s, steps[0]);
    StepKeepsInv(c, s, steps[0]);
    NextStepsClosers(c, s, steps[0]);
    if Overlaps(s, steps[0]) {
      TwoClosersKeepTasks(c, s1);
      JamStays(c, s1, steps[1..], t);
    } else {
      OverlapResolvesNothing(c, s1, steps[1..], t);
    }
  }

  /** Nothing is left to run: no callback, no consumer step, no closer to resume. */
  ghost predicate Quiescent(s: State) {
    && s.callbacks == [] && (s.consumer.Exited? || (s.consumer.Parked? && !s.consumer.armed))
    && forall i :: 0 <= i < |s.closers| ==> !s.closers[i].Entered?
  }

  /** Calls that come from outside the loop. */
  predicate Outside(step: Step) {
    step.Report? || step.CallClose? || step.SetProcess?
  }

  /** Nothing is left to run exactly when only such a call can make a step. */
  lemma QuiescentIff(s: State)
    ensures Quiescent(s) <==> forall step :: Enabled(s, step) ==> Outside(step)
  {
    if forall step :: Enabled(s, step) ==> Outside(step) {
      assert !Enabled(s, RunCallback) && !Enabled(s, Fetch) && !Enabled(s, Resume) && !Enabled(s, TimerFires);
      assert !Enabled(s, ResumeTimeout) && !Enabled(s, SubmitEnds(true));
      forall i | 0 <= i < |s.closers| ensures !s.closers[i].Entered? { assert !Enabled(s, CloserResumes(i)); }
    }
  }

  /** The promise of close(), exactly: when everything has run, some future returned by close() is resolved
      if and only if no close() began while the first was unresolved; and it is the first one's. */
  lemma CloseResolvesIff(c: Config, steps: seq<Step>, t: State)
    requires ValidConfig(c) && Run(c, INITIAL, steps, t) && Quiescent(t) && t.closers != []
    ensures !NoneClosed(t) <==> !SomeOverlap(c, INITIAL, steps)
    ensures !SomeOverlap(c, INITIAL, steps) ==>
              t.closers[0].Closed? && Flatten(t.books.batches) == t.books.accepted
  {
    RunKeepsInv(c, INITIAL, steps, t);
    NeverParked(c, t);
    if SomeOverlap(c, INITIAL, steps) {
      OverlapResolvesNothing(c, INITIAL, steps, t);
    } else {
      NoOverlapStaysSequential(c, INITIAL, steps, t);
      ExitedIsDrained(c, t);
      if |t.closers| == 1 { LoneCloserResolves(c, t); }
    }
  }

  lemma LoneCloserResolves(c: Config, t: State)
    requires ValidConfig(c) && Inv(c, t) && Quiescent(t) && |t.closers| == 1
    ensures t.closers[0].Closed?
  {
  }

  /** Two flush callbacks on an idle reporter: the machine comes to rest with both closers waiting. */
  lemma DoubleCloseHangs(c: Config, s0: State, s1: State, s2: State, t: State)
    requires c == Config(1, 2, true)
    requires s0 == INITIAL.(callbacks := [FlushCall, FlushCall])
    requires s1 == INITIAL.(callbacks := [FlushCall], queue := [StopMarker], unfinished := 1, stopped := true,
                            closers := [Joining])
    requires s2 == INITIAL.(queue := [StopMarker, StopMarker], unfinished := 2, stopped := true,
                            closers := [Joining, Joining])
    requires t == INITIAL.(queue := [StopMarker], unfinished := 1, stopped := true, consumer := Exited,
                           leaving := true, closers := [Joining, Joining])
    ensures Run(c, s0, [RunCallback, RunCallback, Fetch], t)
    ensures Quiescent(t) && NoneClosed(t)
  {
    FlushOnIdle(c, s0, s1);
    FlushAgain(c, s1, s2);
    FetchMarker(c, s2, t);
    ThreeSteps(c, s0, RunCallback, s1, RunCallback, s2, Fetch, t);
  }

  lemma ThreeSteps(c: Config, s0: State, x: Step, s1: State, y: Step, s2: State, z: Step, t: State)
    requires Enabled(s0, x) && s1 == Next(c, s0, x)
    requires Enabled(s1, y) && s2 == Next(c, s1, y)
    requires Enabled(s2, z) && t == Next(c, s2, z)
    ensures Run(c, s0, [x, y, z], t)
  {
    assert [x, y, z][1..] == [y, z] && [y, z][1..] == [z] && [z][1..] == [];
    assert Run(c, t, [], t) && Run(c, s2, [z], t) && Run(c, s1, [y, z], t);
  }

  lemma FlushOnIdle(c: Config, s0: State, s1: State)
    requires c.capacity == 2 && s0 == INITIAL.(callbacks := [FlushCall, FlushCall])
    requires s1 == INITIAL.(callbacks := [FlushCall], queue := [StopMarker], unfinished := 1, stopped := true,
                            closers := [Joining])
    ensures Next(c, s0, RunCallback) == s1
  {
  }

  lemma FlushAgain(c: Config, s1: State, s2: State)
    requires c.capacity == 2
    requires s1 == INITIAL.(callbacks := [FlushCall], queue := [StopMarker], unfinished := 1, stopped := true,
                            closers := [Joining])
    requires s2 == INITIAL.(queue := [StopMarker, StopMarker], unfinished := 2, stopped := true,
                            closers := [Joining, Joining])
    ensures Next(c, s1, RunCallback) == s2
  {
  }

  lemma FetchMarker(c: Config, s2: State, t: State)
    requires s2 == INITIAL.(queue := [StopMarker, StopMarker], unfinished := 2, stopped := true,
                            closers := [Joining, Joining])
    requires t == INITIAL.(queue := [StopMarker], unfinished := 1, stopped := true, consumer := Exited,
                           leaving := true, closers := [Joining, Joining])
    ensures Next(c, s2, Fetch) == t
  {
  }
}
