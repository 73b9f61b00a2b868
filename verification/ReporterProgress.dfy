/** The reporter comes to rest: no interleaving of callbacks, consumer and closers goes on for ever, before or after
    close(), so a lone close() resolves its future. */
module ReporterProgress {
  import opened ReporterProtocol
  import opened ReporterTheorems
  import opened ReporterClose

  // ------------------------------------------------------------- the work left

  function CloserWork(closer: Closer): nat {
    match closer
    case Putting => 6
    case Entered => 1
    case Joining => 0
    case Closed => 0
  }

  function ClosersWork(closers: seq<Closer>): nat {
    if closers == [] then 0 else CloserWork(closers[0]) + ClosersWork(closers[1..])
  }

  function ConsumerWork(consumer: Consumer): nat {
    match consumer
    case Fetching => 4
    case Parked(_) => 3
    case Handed(_) => 9
    case TimedOut => 2
    case Submitting(_, _) => 1
    case Exited => 0
  }

  /** An upper bound on the steps the loop can still make by itself. */
  function WorkLeft(s: State): nat {
    7 * |s.callbacks| + 5 * |s.queue| + (if s.inHand == [] then 0 else 4)
    + ConsumerWork(s.consumer) + ClosersWork(s.closers)
  }

  /** What a call from outside adds to it. */
  function Cost(step: Step): nat {
    if step.Report? || step.CallClose? then 7 else 0
  }

  lemma {:induction false} ClosersWorkAppend(closers: seq<Closer>, x: Closer)
    ensures ClosersWork(closers + [x]) == ClosersWork(closers) + CloserWork(x)
  {
    if closers == [] {
      assert closers + [x] == [x];
    } else {
      ClosersWorkAppend(closers[1..], x);
      assert (closers + [x])[1..] == closers[1..] + [x];
    }
  }

  lemma {:induction false} ClosersWorkUpdate(closers: seq<Closer>, i: nat, x: Closer)
    requires i < |closers|
    ensures ClosersWork(closers[i := x]) == ClosersWork(closers) - CloserWork(closers[i]) + CloserWork(x)
  {
    if i > 0 {
      ClosersWorkUpdate(closers[1..], i - 1, x);
      assert closers[i := x][1..] == closers[1..][i - 1 := x];
    }
  }

  lemma {:induction false} ClosersWorkWoken(closers: seq<Closer>)
    ensures ClosersWork(Woken(closers)) == ClosersWork(closers)
  {
    if closers != [] {
      ClosersWorkWoken(closers[1..]);
      assert Woken(closers)[1..] == Woken(closers[1..]);
    }
  }

  // ------------------------------------------------------ every step of the loop

  lemma TakeWorks(c: Config, s: State)
    requires s.consumer.Handed?
    ensures WorkLeft(Take(c, s, s.consumer.item)) < WorkLeft(s)
  {
    hide ClosersWork;
    TakeStepsClosers(c, s, s.consumer.item);
    ClosersWorkWoken(s.closers);
  }

  lemma PutterWorks(s: State)
    ensures WorkLeft(LetPutterIn(s)) == WorkLeft(s)
  {
    hide ClosersWork;
    var i := NextPutter(s.closers);
    if i < |s.closers| { ClosersWorkUpdate(s.closers, i, Entered); }
  }

  lemma FetchWorks(c: Config, s: State)
    requires s.consumer.Fetching?
    ensures WorkLeft(FetchNext(c, s)) < WorkLeft(s)
  {
    hide ClosersWork, Take;
    var s1 := LetPutterIn(s);
    PutterWorks(s);
    if s1.queue != [] {
      FetchIsTake(c, s);
      PoppedItemWorks(c, s1);
    }
  }

  lemma PoppedItemWorks(c: Config, s: State)
    requires s.consumer.Fetching? && s.queue != []
    ensures WorkLeft(Take(c, Popped(s), s.queue[0])) < WorkLeft(s)
  {
    hide ClosersWork;
    TakeStepsClosers(c, Popped(s), s.queue[0]);
    ClosersWorkWoken(s.closers);
  }

  lemma CallbackWorks(c: Config, s: State)
    requires s.callbacks != []
    ensures WorkLeft(Next(c, s, RunCallback)) < WorkLeft(s)
  {
    hide ClosersWork;
    ClosersWorkAppend(s.closers, Joining);
    ClosersWorkAppend(s.closers, Putting);
  }

  lemma SubmitWorks(c: Config, s: State, sent: bool)
    requires ConsumerOk(c, s) && s.consumer.Submitting?
    ensures WorkLeft(Next(c, s, SubmitEnds(sent))) < WorkLeft(s)
  {
    hide ClosersWork;
    ClosersWorkWoken(s.closers);
  }

  lemma StepWorks(c: Config, s: State, step: Step)
    requires ConsumerOk(c, s) && Enabled(s, step)
    ensures if Outside(step) then WorkLeft(Next(c, s, step)) == WorkLeft(s) + Cost(step)
            else WorkLeft(Next(c, s, step)) < WorkLeft(s)
  {
    hide ClosersWork, FetchNext, Take, FinishSubmit;
    match step
    case RunCallback => CallbackWorks(c, s);
    case Fetch => FetchWorks(c, s);
    case Resume => TakeWorks(c, s);
    case SubmitEnds(sent) => SubmitWorks(c, s, sent);
    case CloserResumes(i) => ClosersWorkUpdate(s.closers, i, if s.unfinished == 0 then Closed else Joining);
    case _ =>
  }

  // --------------------------------------------------------------- whole runs

  function LoopSteps(steps: seq<Step>): nat {
    if steps == [] then 0 else (if Outside(steps[0]) then 0 else 1) + LoopSteps(steps[1..])
  }

  function TotalCost(steps: seq<Step>): nat {
    if steps == [] then 0 else Cost(steps[0]) + TotalCost(steps[1..])
  }

  /** In any run the steps of callbacks, consumer and closers together are bounded by the calls from outside; with
      finitely many of those it comes to rest, whatever the interleaving. */
  lemma {:induction false} LoopTerminates(c: Config, s: State, steps: seq<Step>, t: State)
    requires ValidConfig(c) && Inv(c, s) && Run(c, s, steps, t)
    ensures LoopSteps(steps) + WorkLeft(t) <= WorkLeft(s) + TotalCost(steps)
    decreases |steps|
  {
    hide WorkLeft, Inv;
    if steps != [] {
      InvConsumer(c, s);
      StepWorks(c, s, steps[0]);
      StepKeepsInv(c, s, steps[0]);
      LoopTerminates(c, Next(c, s, steps[0]), steps[1..], t);
    }
  }

  /** At most seven steps of the loop for every call of report_span and close, and four more. */
  lemma LoopStepsPerCall(c: Config, steps: seq<Step>, t: State)
    requires ValidConfig(c) && Run(c, INITIAL, steps, t)
    ensures LoopSteps(steps) <= 7 * (|t.books.reported| + CloseCalls(steps)) + 4
  {
    LoopTerminates(c, INITIAL, steps, t);
    CostOfCalls(c, INITIAL, steps, t);
  }

  function CloseCalls(steps: seq<Step>): nat {
    if steps == [] then 0 else (if steps[0].CallClose? then 1 else 0) + CloseCalls(steps[1..])
  }

  lemma {:induction false} CostOfCalls(c: Config, s: State, steps: seq<Step>, t: State)
    requires Run(c, s, steps, t)
    ensures |s.books.reported| <= |t.books.reported|
    ensures TotalCost(steps) == 7 * (|t.books.reported| - |s.books.reported| + CloseCalls(steps))
    decreases |steps|
  {
    if steps != [] {
      NextWrites(c, s, steps[0]);
      CostOfCalls(c, Next(c, s, steps[0]), steps[1..], t);
    }
  }

  /** From any state the loop can go on by itself until nothing is left to run. */
  lemma {:induction false} ComesToRest(c: Config, s: State) returns (steps: seq<Step>, t: State)
    requires ValidConfig(c) && Inv(c, s)
    ensures Run(c, s, steps, t) && LoopSteps(steps) == |steps| && Quiescent(t)
    decreases WorkLeft(s)
  {
    hide WorkLeft, Inv, Next;
    steps, t := [], s;
    if !Quiescent(s) {
      QuiescentIff(s);
      var step :| Enabled(s, step) && !Outside(step);
      InvConsumer(c, s);
      StepWorks(c, s, step);
      StepKeepsInv(c, s, step);
      var more, end := ComesToRest(c, Next(c, s, step));
      steps, t := [step] + more, end;
      assert steps[1..] == more;
    }
  }

  // --------------------------------------------------------- one call of close()

  function FlushCalls(callbacks: seq<Callback>): nat {
    if callbacks == [] then 0 else (if callbacks[0].FlushCall? then 1 else 0) + FlushCalls(callbacks[1..])
  }

  lemma {:induction false} FlushCallsAppend(callbacks: seq<Callback>, cb: Callback)
    ensures FlushCalls(callbacks + [cb]) == FlushCalls(callbacks) + if cb.FlushCall? then 1 else 0
  {
    if callbacks == [] {
      assert callbacks + [cb] == [cb];
    } else {
      FlushCallsAppend(callbacks[1..], cb);
      assert (callbacks + [cb])[1..] == callbacks[1..] + [cb];
    }
  }

  lemma StepAddsClosers(c: Config, s: State, step: Step)
    requires Enabled(s, step)
    ensures var t := Next(c, s, step);
            FlushCalls(t.callbacks) + |t.closers| ==
            FlushCalls(s.callbacks) + |s.closers| + if step.CallClose? then 1 else 0
  {
    hide FlushCalls;
    NextStepsClosers(c, s, step);
    NextWrites(c, s, step);
    match step
    case Report(span) => FlushCallsAppend(s.callbacks, ReportCall(span, CloseCalled(s)));
    case CallClose => FlushCallsAppend(s.callbacks, FlushCall);
    case RunCallback => FirstCallback(s.callbacks);
    case _ =>
  }

  lemma FirstCallback(callbacks: seq<Callback>)
    requires callbacks != []
    ensures FlushCalls(callbacks) == FlushCalls(callbacks[1..]) + if callbacks[0].FlushCall? then 1 else 0
  {
  }

  /** Every call of close() is a callback still to run or a closer. */
  lemma {:induction false} ClosersAddUp(c: Config, s: State, steps: seq<Step>, t: State)
    requires Run(c, s, steps, t)
    ensures FlushCalls(t.callbacks) + |t.closers| == FlushCalls(s.callbacks) + |s.closers| + CloseCalls(steps)
    decreases |steps|
  {
    hide FlushCalls, Next;
    if steps != [] {
      StepAddsClosers(c, s, steps[0]);
      ClosersAddUp(c, Next(c, s, steps[0]), steps[1..], t);
    }
  }

  /** The promise of close() to a caller who calls it once: in every run, carried on until only calls from outside are
      possible, its future is resolved and every accepted span has been through _submit. By LoopTerminates no run with
      finitely many such calls can be carried on for ever. */
  lemma LoneCloseResolves(c: Config, steps: seq<Step>, t: State)
    requires ValidConfig(c) && Run(c, INITIAL, steps, t) && CloseCalls(steps) == 1
    requires forall step :: Enabled(t, step) ==> Outside(step)
    ensures t.closers == [Closed] && t.consumer.Exited?
    ensures Flatten(t.books.batches) == t.books.accepted
  {
    QuiescentIff(t);
    RunKeepsInv(c, INITIAL, steps, t);
    ClosersAddUp(c, INITIAL, steps, t);
    LoneCloserResolves(c, t);
    CloseMeansDrained(c, steps, t, 0);
  }
}
