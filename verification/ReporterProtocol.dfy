/** The span reporter as a state machine.

    One consumer coroutine, the callbacks queued on the IOLoop, the bounded queue with its
    counter of unfinished tasks, and the coroutines started by close(). Every step runs from
    one suspension point of the source to the next, so every interleaving the IOLoop can
    produce is a run of this machine. */
module ReporterProtocol {
  type SpanHandle = nat

  datatype Item = Work(span: SpanHandle) | StopMarker

  /** A callback waiting on the IOLoop. late: close() had been called before report_span(). */
  datatype Callback = ReportCall(span: SpanHandle, late: bool) | FlushCall

  /** flushes: flush_interval is set, so a get() with spans in hand arms a timer. */
  datatype Config = Config(batchSize: nat, capacity: nat, flushes: bool)

  datatype Cause = Full | Flush | Stop

  datatype Consumer =
    | Fetching                            // about to call queue.get
    | Parked(armed: bool)                 // waiting in queue.get, perhaps with a timer
    | Handed(item: Item)                  // the getter holds an item, the coroutine has not resumed
    | TimedOut                            // the getter timed out, the coroutine has not resumed
    | Submitting(sends: bool, cause: Cause)
    | Exited

  /** Where a coroutine started by close() stands. */
  datatype Closer =
    | Putting                             // waiting in queue.put
    | Entered                             // its marker is in the queue, the coroutine has not resumed
    | Joining                             // waiting in queue.join
    | Closed                              // its future is resolved

  datatype Outcome = Delivered | Failed | Discarded

  datatype Batch = Batch(spans: seq<SpanHandle>, cause: Cause, outcome: Outcome)

  datatype Rejection = Rejection(span: SpanHandle, late: bool, queueFull: bool)

  /** The three metrics, and the history of the run. */
  datatype Books = Books(
    okCount: nat,
    errCount: nat,
    droppedCount: nat,
    reported: seq<SpanHandle>,
    accepted: seq<SpanHandle>,
    rejected: seq<Rejection>,
    batches: seq<Batch>)

  datatype State = State(
    callbacks: seq<Callback>,
    queue: seq<Item>,
    unfinished: int,
    stopped: bool,
    consumer: Consumer,
    leaving: bool,
    inHand: seq<SpanHandle>,
    closers: seq<Closer>,
    hasProcess: bool,
    books: Books)

  datatype Step =
    | Report(span: SpanHandle)
    | CallClose
    | SetProcess
    | RunCallback
    | Fetch
    | Resume
    | TimerFires
    | ResumeTimeout
    | SubmitEnds(sent: bool)
    | CloserResumes(who: nat)

  predicate ValidConfig(c: Config) {
    1 <= c.batchSize <= c.capacity
  }

  const INITIAL := State([], [], 0, false, Fetching, false, [], [], false, Books(0, 0, 0, [], [], [], []))

  // ---------------------------------------------------------------- the queue

  function NextPutter(closers: seq<Closer>): (n: nat)
    ensures n <= |closers|
    ensures n < |closers| ==> closers[n].Putting?
    ensures forall i :: 0 <= i < n ==> !closers[i].Putting?
  {
    if closers == [] || closers[0].Putting? then 0 else 1 + NextPutter(closers[1..])
  }

  function Woken(closers: seq<Closer>): (r: seq<Closer>)
    ensures |r| == |closers|
    ensures forall i :: 0 <= i < |r| ==> r[i] == if closers[i].Joining? then Closed else closers[i]
  {
    seq(|closers|, i requires 0 <= i < |closers| => if closers[i].Joining? then Closed else closers[i])
  }

  function TasksDone(s: State, n: nat): (t: State)
    ensures t == s.(unfinished := s.unfinished - n, closers := t.closers)
  {
    if n == 0 then s
    else
      var left := s.unfinished - n;
      s.(unfinished := left, closers := if left == 0 then Woken(s.closers) else s.closers)
  }

  // ------------------------------------------------------------- the consumer

  function StartSubmit(s: State, cause: Cause): (t: State) {
    s.(consumer := Submitting(s.hasProcess, cause))
  }

  /** The consumer continues with an item that already left the queue. */
  function Take(c: Config, s: State, item: Item): (t: State)
    ensures t == s.(inHand := t.inHand, consumer := t.consumer, leaving := t.leaving,
                    unfinished := t.unfinished, closers := t.closers)
    ensures t.consumer.Submitting? ==> t.consumer.sends == s.hasProcess
  {
    match item
    case Work(span) =>
      var s1 := s.(inHand := s.inHand + [span], consumer := Fetching);
      if |s1.inHand| < c.batchSize then s1 else StartSubmit(s1, Full)
    case StopMarker =>
      var s1 := TasksDone(s.(leaving := true), 1);
      if s1.inHand == [] then s1.(consumer := Exited) else StartSubmit(s1, Stop)
  }

  /** A waiting putter, if any, puts its marker. */
  function LetPutterIn(s: State): State {
    var i := NextPutter(s.closers);
    if i < |s.closers|
    then s.(queue := s.queue + [StopMarker], unfinished := s.unfinished + 1, closers := s.closers[i := Entered])
    else s
  }

  /** queue.get: a waiting putter goes in first; with nothing there the getter parks. */
  function FetchNext(c: Config, s: State): (t: State)
    ensures t == s.(queue := t.queue, inHand := t.inHand, consumer := t.consumer, leaving := t.leaving,
                    unfinished := t.unfinished, closers := t.closers)
    ensures t.consumer.Submitting? ==> t.consumer.sends == s.hasProcess
  {
    var s1 := LetPutterIn(s);
    if s1.queue == [] then s1.(consumer := Parked(c.flushes && s1.inHand != []))
    else Take(c, s1.(queue := s1.queue[1..]), s1.queue[0])
  }

  /** _submit returns, each span in hand is marked done, and the loop goes round or ends. */
  function Filed(b: Books, batch: Batch): Books {
    var n := |batch.spans|;
    b.(batches := b.batches + [batch],
       okCount := b.okCount + if batch.outcome.Delivered? then n else 0,
       errCount := b.errCount + if batch.outcome.Failed? then n else 0)
  }

  function FinishSubmit(s: State, cause: Cause, outcome: Outcome): State {
    TasksDone(s, |s.inHand|).(
      inHand := [],
      consumer := if s.leaving then Exited else Fetching,
      books := Filed(s.books, Batch(s.inHand, cause, outcome)))
  }

  // ------------------------------------------------------------ the callbacks

  function Rejected(b: Books, span: SpanHandle, late: bool, queueFull: bool): Books {
    b.(droppedCount := b.droppedCount + 1, rejected := b.rejected + [Rejection(span, late, queueFull)])
  }

  function Accepted(b: Books, span: SpanHandle): Books {
    b.(accepted := b.accepted + [span])
  }

  /** put_nowait from a report callback: a parked getter is served first. */
  function Offer(c: Config, s: State, span: SpanHandle, late: bool): State {
    if s.stopped then s.(books := Rejected(s.books, span, late, false))
    else if s.consumer.Parked? then
      s.(consumer := Handed(Work(span)), unfinished := s.unfinished + 1, books := Accepted(s.books, span))
    else if |s.queue| >= c.capacity then s.(books := Rejected(s.books, span, late, true))
    else
      s.(queue := s.queue + [Work(span)], unfinished := s.unfinished + 1, books := Accepted(s.books, span))
  }

  /** _flush up to its first suspension: when put succeeds at once it is already joining. */
  function BeginClose(c: Config, s: State): State {
    var s1 := s.(stopped := true);
    if s1.consumer.Parked? then
      s1.(consumer := Handed(StopMarker), unfinished := s.unfinished + 1, closers := s.closers + [Joining])
    else if |s1.queue| >= c.capacity then s1.(closers := s.closers + [Putting])
    else
      s1.(queue := s.queue + [StopMarker], unfinished := s.unfinished + 1, closers := s.closers + [Joining])
  }

  // -------------------------------------------------------------- transitions

  function OutcomeOf(consumer: Consumer, sent: bool): Outcome
    requires consumer.Submitting?
  {
    if !consumer.sends then Discarded else if sent then Delivered else Failed
  }

  predicate CloseCalled(s: State) {
    s.stopped || FlushCall in s.callbacks
  }

  predicate Enabled(s: State, step: Step) {
    match step
    case Report(_) => true
    case CallClose => true
    case SetProcess => true
    case RunCallback => s.callbacks != []
    case Fetch => s.consumer.Fetching?
    case Resume => s.consumer.Handed?
    case TimerFires => s.consumer.Parked? && s.consumer.armed
    case ResumeTimeout => s.consumer.TimedOut?
    case SubmitEnds(_) => s.consumer.Submitting?
    case CloserResumes(i) => i < |s.closers| && s.closers[i].Entered?
  }

  function Next(c: Config, s: State, step: Step): State
    requires Enabled(s, step)
  {
    match step
    case Report(span) =>
      s.(callbacks := s.callbacks + [ReportCall(span, CloseCalled(s))],
         books := s.books.(reported := s.books.reported + [span]))
    case CallClose => s.(callbacks := s.callbacks + [FlushCall])
    case SetProcess => s.(hasProcess := true)
    case RunCallback =>
      var s1 := s.(callbacks := s.callbacks[1..]);
      (match s.callbacks[0]
       case ReportCall(span, late) => Offer(c, s1, span, late)
       case FlushCall => BeginClose(c, s1))
    case Fetch => FetchNext(c, s)
    case Resume => Take(c, s, s.consumer.item)
    case TimerFires => s.(consumer := TimedOut)
    case ResumeTimeout => StartSubmit(s, Flush)
    case SubmitEnds(sent) => FinishSubmit(s, s.consumer.cause, OutcomeOf(s.consumer, sent))
    case CloserResumes(i) =>
      s.(closers := s.closers[i := if s.unfinished == 0 then Closed else Joining])
  }

  /** steps lead from s to t. */
  ghost predicate Run(c: Config, s: State, steps: seq<Step>, t: State)
    decreases |steps|
  {
    if steps == [] then s == t
    else Enabled(s, steps[0]) && Run(c, Next(c, s, steps[0]), steps[1..], t)
  }

  // ---------------------------------------------------------------- invariant

  function Flatten(batches: seq<Batch>): seq<SpanHandle> {
    if batches == [] then [] else Flatten(batches[..|batches| - 1]) + batches[|batches| - 1].spans
  }

  function QueuedSpans(queue: seq<Item>): (r: seq<SpanHandle>)
    ensures |r| <= |queue|
  {
    if queue == [] then []
    else (if queue[0].Work? then [queue[0].span] else []) + QueuedSpans(queue[1..])
  }

  function HandedSpans(consumer: Consumer): seq<SpanHandle> {
    if consumer.Handed? && consumer.item.Work? then [consumer.item.span] else []
  }

  function HandedCount(consumer: Consumer): nat {
    if consumer.Handed? then 1 else 0
  }

  function MarkersAhead(s: State): nat {
    |s.queue| - |QueuedSpans(s.queue)| + if s.consumer == Handed(StopMarker) then 1 else 0
  }

  /** No accepted span is lost, duplicated or reordered. */
  ghost predicate Conserved(s: State) {
    Flatten(s.books.batches) + s.inHand + HandedSpans(s.consumer) + QueuedSpans(s.queue) == s.books.accepted
  }

  ghost predicate CounterExact(s: State) {
    s.unfinished == |s.queue| + |s.inHand| + HandedCount(s.consumer)
  }

  ghost predicate ConsumerOk(c: Config, s: State) {
    && |s.inHand| <= c.batchSize
    && |s.queue| <= c.capacity
    && (s.consumer.Submitting? ==> s.inHand != [])
    && (s.consumer.Submitting? ==> (s.consumer.cause.Full? <==> |s.inHand| == c.batchSize))
    && (!s.consumer.Submitting? ==> |s.inHand| < c.batchSize)
    && (s.consumer.TimedOut? ==> s.inHand != [])
    && (s.consumer.Parked? ==> s.queue == [] && (s.consumer.armed ==> s.inHand != []))
    && (s.consumer.Exited? ==> s.leaving && s.inHand == [])
    && (s.leaving <==> s.consumer.Exited? || (s.consumer.Submitting? && s.consumer.cause.Stop?))
  }

  ghost predicate SpansFirst(queue: seq<Item>) {
    forall i, j :: 0 <= i < j < |queue| && queue[i].StopMarker? ==> queue[j].StopMarker?
  }

  /** Markers come after all spans, one for each close() whose put went through. */
  ghost predicate MarkersOk(c: Config, s: State) {
    && SpansFirst(s.queue)
    && (s.leaving || s.consumer == Handed(StopMarker) ==> QueuedSpans(s.queue) == [])
    && NextPutter(s.closers) == MarkersAhead(s) + (if s.leaving then 1 else 0)
    && (s.stopped <==> s.closers != [])
  }

  ghost predicate ClosersOk(c: Config, s: State) {
    && (forall i, j :: 0 <= i < j < |s.closers| && s.closers[i].Putting? ==> s.closers[j].Putting?)
    && (NextPutter(s.closers) < |s.closers| ==> |s.queue| == c.capacity)
    && (s.unfinished == 0 ==> forall i :: 0 <= i < |s.closers| ==> !s.closers[i].Joining?)
    && (forall i :: 0 <= i < |s.closers| && s.closers[i].Closed? ==> i == 0 && s.consumer.Exited?)
  }

  function Shape(c: Config, b: Batch): bool {
    1 <= |b.spans| <= c.batchSize && (b.cause.Full? <==> |b.spans| == c.batchSize)
  }

  ghost predicate BatchesOk(c: Config, s: State) {
    forall i :: 0 <= i < |s.books.batches| ==> Shape(c, s.books.batches[i])
  }

  ghost predicate PipelineOk(c: Config, s: State) {
    CounterExact(s) && ConsumerOk(c, s) && BatchesOk(c, s)
  }

  ghost predicate Inv(c: Config, s: State) {
    Conserved(s) && PipelineOk(c, s) && MarkersOk(c, s) && ClosersOk(c, s)
  }

  // ------------------------------------------------------------ sequence facts

  lemma {:induction false} QueuedSpansAppend(queue: seq<Item>, item: Item)
    ensures QueuedSpans(queue + [item]) ==
            if item.Work? then QueuedSpans(queue) + [item.span] else QueuedSpans(queue)
  {
    if queue == [] {
    } else {
      var first := if queue[0].Work? then [queue[0].span] else [];
      QueuedSpansAppend(queue[1..], item);
      assert (queue + [item])[1..] == queue[1..] + [item];
      assert QueuedSpans(queue + [item]) == first + QueuedSpans(queue[1..] + [item]);
    }
  }

  lemma {:induction false} NoMarkerIn(queue: seq<Item>, i: nat)
    requires |QueuedSpans(queue)| == |queue| && i < |queue|
    ensures queue[i].Work?
  {
    if i > 0 { NoMarkerIn(queue[1..], i - 1); }
  }

  lemma FlattenAppend(batches: seq<Batch>, b: Batch)
    ensures Flatten(batches + [b]) == Flatten(batches) + b.spans
  {
  }

  lemma ClosersGrow(closers: seq<Closer>, x: Closer)
    ensures NextPutter(closers + [x]) ==
            if NextPutter(closers) == |closers| && !x.Putting? then |closers| + 1 else NextPutter(closers)
  {
    assert forall i :: 0 <= i < |closers| ==> (closers + [x])[i] == closers[i];
    assert (closers + [x])[|closers|] == x;
  }

  // ----------------------------------------------------- every step keeps it

  lemma OfferKeepsInv(c: Config, s: State, span: SpanHandle, late: bool)
    requires ValidConfig(c) && Inv(c, s)
    ensures Inv(c, Offer(c, s, span, late))
  {
    var t := Offer(c, s, span, late);
    assert PipelineOk(c, t);
    OfferKeepsSpans(c, s, span, late);
    assert ClosersOk(c, t);
  }

  lemma OfferKeepsSpans(c: Config, s: State, span: SpanHandle, late: bool)
    requires Conserved(s) && ConsumerOk(c, s) && MarkersOk(c, s)
    ensures Conserved(Offer(c, s, span, late)) && MarkersOk(c, Offer(c, s, span, late))
  {
    OfferConserves(c, s, span, late);
    OfferKeepsMarkers(c, s, span, late);
  }

  lemma OfferConserves(c: Config, s: State, span: SpanHandle, late: bool)
    requires Conserved(s) && ConsumerOk(c, s)
    ensures Conserved(Offer(c, s, span, late))
  {
    assert s.consumer.Parked? ==> QueuedSpans(s.queue) == [];
    hide QueuedSpans, Flatten;
    QueuedSpansAppend(s.queue, Work(span));
    OneMore(Flatten(s.books.batches) + s.inHand, HandedSpans(s.consumer), QueuedSpans(s.queue), span);
  }

  lemma OneMore(before: seq<SpanHandle>, handed: seq<SpanHandle>, queued: seq<SpanHandle>, span: SpanHandle)
    ensures before + handed + (queued + [span]) == before + handed + queued + [span]
    ensures before + [span] + [] == before + [] + [] + [span]
  {
  }

  lemma OfferKeepsMarkers(c: Config, s: State, span: SpanHandle, late: bool)
    requires ConsumerOk(c, s) && MarkersOk(c, s)
    ensures MarkersOk(c, Offer(c, s, span, late))
  {
    hide QueuedSpans, NextPutter;
    QueuedSpansAppend(s.queue, Work(span));
    if !s.stopped && !s.consumer.Parked? && |s.queue| < c.capacity {
      assert s.closers == [];
      NoPutters();
      assert s.consumer != Handed(StopMarker);
      forall i | 0 <= i < |s.queue| ensures s.queue[i].Work? { NoMarkerIn(s.queue, i); }
    }
  }

  lemma NoPutters()
    ensures NextPutter([]) == 0
  {
  }

  lemma BeginCloseKeepsInv(c: Config, s: State)
    requires ValidConfig(c) && Inv(c, s)
    ensures Inv(c, BeginClose(c, s))
  {
    BeginCloseKeepsSpans(c, s);
    BeginCloseKeepsPipeline(c, s);
    BeginCloseKeepsMarkers(c, s);
    BeginCloseKeepsClosers(c, s);
  }

  lemma BeginCloseKeepsPipeline(c: Config, s: State)
    requires PipelineOk(c, s)
    ensures PipelineOk(c, BeginClose(c, s))
  {
    hide Shape;
  }

  lemma BeginCloseKeepsSpans(c: Config, s: State)
    requires Conserved(s) && ConsumerOk(c, s)
    ensures Conserved(BeginClose(c, s))
  {
    QueuedSpansAppend(s.queue, StopMarker);
  }

  lemma BeginCloseKeepsMarkers(c: Config, s: State)
    requires ValidConfig(c) && ConsumerOk(c, s) && MarkersOk(c, s) && ClosersOk(c, s)
    ensures MarkersOk(c, BeginClose(c, s))
  {
    if s.consumer.Parked? {
      MarkerHanded(c, s);
    } else if |s.queue| < c.capacity {
      MarkerQueued(c, s);
    } else {
      MarkerWaits(c, s);
    }
  }

  lemma MarkerHanded(c: Config, s: State)
    requires ConsumerOk(c, s) && MarkersOk(c, s) && ClosersOk(c, s) && 0 < c.capacity && s.consumer.Parked?
    ensures MarkersOk(c, BeginClose(c, s))
  {
    assert QueuedSpans(s.queue) == [];
    hide QueuedSpans, NextPutter, SpansFirst;
    ClosersGrow(s.closers, Joining);
  }

  lemma MarkerQueued(c: Config, s: State)
    requires MarkersOk(c, s) && ClosersOk(c, s) && !s.consumer.Parked? && |s.queue| < c.capacity
    ensures MarkersOk(c, BeginClose(c, s))
  {
    hide QueuedSpans, NextPutter, SpansFirst;
    ClosersGrow(s.closers, Joining);
    QueuedSpansAppend(s.queue, StopMarker);
    MarkerLast(s.queue);
  }

  lemma MarkerWaits(c: Config, s: State)
    requires MarkersOk(c, s) && !s.consumer.Parked? && |s.queue| >= c.capacity
    ensures MarkersOk(c, BeginClose(c, s))
  {
    hide QueuedSpans, NextPutter, SpansFirst;
    ClosersGrow(s.closers, Putting);
  }

  lemma MarkerLast(queue: seq<Item>)
    requires SpansFirst(queue)
    ensures SpansFirst(queue + [StopMarker])
  {
  }

  lemma BeginCloseKeepsClosers(c: Config, s: State)
    requires ValidConfig(c) && CounterExact(s) && ConsumerOk(c, s) && ClosersOk(c, s)
    ensures ClosersOk(c, BeginClose(c, s))
  {
    hide NextPutter, QueuedSpans;
    PuttersLast(s.closers);
    ClosersGrow(s.closers, BeginClose(c, s).closers[|s.closers|]);
  }

  lemma PuttersLast(closers: seq<Closer>)
    ensures NextPutter(closers) == |closers| <==> forall i :: 0 <= i < |closers| ==> !closers[i].Putting?
  {
  }

  lemma TakeKeepsInv(c: Config, s: State)
    requires ValidConfig(c) && Inv(c, s) && s.consumer.Handed?
    ensures Inv(c, Take(c, s, s.consumer.item))
  {
    TakeKeepsSpans(c, s);
    TakeKeepsPipeline(c, s);
    TakeKeepsMarkers(c, s);
    TakeKeepsClosers(c, s);
  }

  lemma TakeKeepsSpans(c: Config, s: State)
    requires Conserved(s) && s.consumer.Handed?
    ensures Conserved(Take(c, s, s.consumer.item))
  {
    hide Flatten, QueuedSpans, Woken;
    var f, h, q := Flatten(s.books.batches), s.inHand, QueuedSpans(s.queue);
    if s.consumer.item.Work? {
      var x := [s.consumer.item.span];
      assert f + (h + x) + [] + q == f + h + x + q;
    } else {
      assert f + h + [] + q == f + h + q;
    }
  }

  lemma TakeKeepsPipeline(c: Config, s: State)
    requires PipelineOk(c, s) && s.consumer.Handed?
    ensures PipelineOk(c, Take(c, s, s.consumer.item))
  {
  }

  lemma TakeKeepsMarkers(c: Config, s: State)
    requires CounterExact(s) && ConsumerOk(c, s) && MarkersOk(c, s) && s.consumer.Handed?
    ensures MarkersOk(c, Take(c, s, s.consumer.item))
  {
    var t := Take(c, s, s.consumer.item);
    WokenKeepsPutters(s.closers);
    assert t.queue == s.queue && t.stopped == s.stopped && NextPutter(t.closers) == NextPutter(s.closers);
    if s.consumer.item.Work? {
      assert MarkersAhead(t) == MarkersAhead(s);
    } else {
      assert MarkersAhead(t) == MarkersAhead(s) - 1 && t.leaving;
    }
  }

  lemma WokenKeepsPutters(closers: seq<Closer>)
    ensures NextPutter(Woken(closers)) == NextPutter(closers)
  {
  }

  lemma TakeKeepsClosers(c: Config, s: State)
    requires ValidConfig(c) && CounterExact(s) && ConsumerOk(c, s) && MarkersOk(c, s) && ClosersOk(c, s)
    requires s.consumer.Handed?
    ensures ClosersOk(c, Take(c, s, s.consumer.item))
  {
    hide NextPutter, QueuedSpans, Woken, SpansFirst;
    WokenKeepsPutters(s.closers);
  }

  /** The getter holds the head of the queue. */
  function Popped(s: State): State
    requires s.queue != []
  {
    s.(queue := s.queue[1..], consumer := Handed(s.queue[0]))
  }

  lemma PutterEntered(closers: seq<Closer>)
    requires NextPutter(closers) < |closers|
    requires forall i, j :: 0 <= i < j < |closers| && closers[i].Putting? ==> closers[j].Putting?
    ensures NextPutter(closers[NextPutter(closers) := Entered]) == NextPutter(closers) + 1
  {
    var n := NextPutter(closers);
    var after := closers[n := Entered];
    assert after[n] == Entered;
    assert n + 1 < |closers| ==> after[n + 1] == closers[n + 1] == Putting;
  }

  lemma FetchIsTake(c: Config, s: State)
    requires LetPutterIn(s).queue != []
    ensures FetchNext(c, s) == Take(c, Popped(LetPutterIn(s)), LetPutterIn(s).queue[0])
  {
  }

  lemma FetchKeepsInv(c: Config, s: State)
    requires ValidConfig(c) && Inv(c, s) && s.consumer.Fetching?
    ensures Inv(c, FetchNext(c, s))
  {
    if LetPutterIn(s).queue == [] {
      assert FetchNext(c, s) == s.(consumer := Parked(c.flushes && s.inHand != []));
    } else {
      PoppedKeepsSpans(s);
      PoppedKeepsPipeline(c, s);
      PoppedKeepsMarkers(c, s);
      PoppedKeepsClosers(c, s);
      TakeKeepsInv(c, Popped(LetPutterIn(s)));
      FetchIsTake(c, s);
    }
  }

  lemma PoppedKeepsSpans(s: State)
    requires Conserved(s) && s.consumer.Fetching? && LetPutterIn(s).queue != []
    ensures Conserved(Popped(LetPutterIn(s)))
  {
    QueuedSpansAppend(s.queue, StopMarker);
    SplitHead(Flatten(s.books.batches), s.inHand, LetPutterIn(s).queue);
  }

  lemma SplitHead(f: seq<SpanHandle>, h: seq<SpanHandle>, queue: seq<Item>)
    requires queue != []
    ensures f + h + [] + QueuedSpans(queue) == f + h + HandedSpans(Handed(queue[0])) + QueuedSpans(queue[1..])
  {
  }

  lemma PoppedKeepsPipeline(c: Config, s: State)
    requires ValidConfig(c) && PipelineOk(c, s) && s.consumer.Fetching? && LetPutterIn(s).queue != []
    ensures PipelineOk(c, Popped(LetPutterIn(s)))
  {
  }

  lemma PoppedKeepsMarkers(c: Config, s: State)
    requires ConsumerOk(c, s) && MarkersOk(c, s) && ClosersOk(c, s)
    requires s.consumer.Fetching? && LetPutterIn(s).queue != []
    ensures MarkersOk(c, Popped(LetPutterIn(s)))
  {
    hide QueuedSpans, NextPutter, SpansFirst;
    SpansFirstStill(c, s);
    var s1 := LetPutterIn(s);
    if NextPutter(s.closers) < |s.closers| {
      PutterEntered(s.closers);
      QueuedSpansAppend(s.queue, StopMarker);
    }
    assert NextPutter(s1.closers) == MarkersAhead(s1);
    PopMarkers(s1.queue);
  }

  lemma SpansFirstStill(c: Config, s: State)
    requires MarkersOk(c, s)
    ensures SpansFirst(LetPutterIn(s).queue)
  {
  }

  lemma PopMarkers(queue: seq<Item>)
    requires queue != [] && SpansFirst(queue)
    ensures SpansFirst(queue[1..])
    ensures queue[0].StopMarker? ==> QueuedSpans(queue[1..]) == []
    ensures |QueuedSpans(queue)| == |QueuedSpans(queue[1..])| + if queue[0].Work? then 1 else 0
  {
  }

  lemma PoppedKeepsClosers(c: Config, s: State)
    requires ValidConfig(c) && PipelineOk(c, s) && ClosersOk(c, s)
    requires s.consumer.Fetching? && LetPutterIn(s).queue != []
    ensures ClosersOk(c, Popped(LetPutterIn(s)))
  {
  }

  lemma FinishSubmitKeepsInv(c: Config, s: State, outcome: Outcome)
    requires ValidConfig(c) && Inv(c, s) && s.consumer.Submitting?
    ensures Inv(c, FinishSubmit(s, s.consumer.cause, outcome))
  {
    var t := FinishSubmit(s, s.consumer.cause, outcome);
    FlattenAppend(s.books.batches, Batch(s.inHand, s.consumer.cause, outcome));
    assert Conserved(t);
    FinishSubmitKeepsPipeline(c, s, outcome);
    FinishSubmitKeepsMarkers(c, s, outcome);
    FinishSubmitKeepsClosers(c, s, outcome);
  }

  lemma FinishSubmitKeepsPipeline(c: Config, s: State, outcome: Outcome)
    requires PipelineOk(c, s) && s.consumer.Submitting?
    ensures PipelineOk(c, FinishSubmit(s, s.consumer.cause, outcome))
  {
    hide Woken;
  }

  lemma FinishSubmitKeepsMarkers(c: Config, s: State, outcome: Outcome)
    requires PipelineOk(c, s) && MarkersOk(c, s) && s.consumer.Submitting?
    ensures MarkersOk(c, FinishSubmit(s, s.consumer.cause, outcome))
  {
    hide Woken, NextPutter, QueuedSpans, SpansFirst;
    WokenKeepsPutters(s.closers);
  }

  lemma FinishSubmitKeepsClosers(c: Config, s: State, outcome: Outcome)
    requires ValidConfig(c) && PipelineOk(c, s) && MarkersOk(c, s) && ClosersOk(c, s) && s.consumer.Submitting?
    ensures ClosersOk(c, FinishSubmit(s, s.consumer.cause, outcome))
  {
    WokenKeepsPutters(s.closers);
  }

  lemma CloserResumesKeepsInv(c: Config, s: State, i: nat)
    requires ValidConfig(c) && Inv(c, s) && Enabled(s, CloserResumes(i))
    ensures Inv(c, Next(c, s, CloserResumes(i)))
  {
    var t := Next(c, s, CloserResumes(i));
    assert t.closers[i] != Putting;
    SamePutters(s.closers, t.closers);
    assert PipelineOk(c, t) && MarkersOk(c, t);
    if s.unfinished == 0 {
      assert QueuedSpans(s.queue) == [];
      assert i < NextPutter(s.closers);
    }
    assert ClosersOk(c, t);
  }

  lemma SamePutters(before: seq<Closer>, after: seq<Closer>)
    requires |before| == |after|
    requires forall i :: 0 <= i < |before| ==> (before[i].Putting? <==> after[i].Putting?)
    ensures NextPutter(before) == NextPutter(after)
  {
  }

  lemma CallbackKeepsInv(c: Config, s: State)
    requires ValidConfig(c) && Inv(c, s) && s.callbacks != []
    ensures Inv(c, Next(c, s, RunCallback))
  {
    var s1 := s.(callbacks := s.callbacks[1..]);
    assert Inv(c, s1);
    match s.callbacks[0]
    case FlushCall => BeginCloseKeepsInv(c, s1);
    case ReportCall(span, late) => OfferKeepsInv(c, s1, span, late);
  }

  lemma OtherStepKeepsInv(c: Config, s: State, step: Step)
    requires ValidConfig(c) && Inv(c, s) && Enabled(s, step)
    requires step.Report? || step.CallClose? || step.SetProcess? || step.TimerFires? || step.ResumeTimeout?
    ensures Inv(c, Next(c, s, step))
  {
    var t := Next(c, s, step);
    assert Conserved(t);
  }

  lemma StepKeepsInv(c: Config, s: State, step: Step)
    requires ValidConfig(c) && Inv(c, s) && Enabled(s, step)
    ensures Inv(c, Next(c, s, step))
  {
    match step
    case RunCallback => CallbackKeepsInv(c, s);
    case Fetch => FetchKeepsInv(c, s);
    case Resume => TakeKeepsInv(c, s);
    case SubmitEnds(sent) => FinishSubmitKeepsInv(c, s, OutcomeOf(s.consumer, sent));
    case CloserResumes(i) => CloserResumesKeepsInv(c, s, i);
    case _ => OtherStepKeepsInv(c, s, step);
  }

  /** Safety: the invariant holds in every state any interleaving can reach. */
  lemma {:induction false} RunKeepsInv(c: Config, s: State, steps: seq<Step>, t: State)
    requires ValidConfig(c) && Inv(c, s) && Run(c, s, steps, t)
    ensures Inv(c, t)
    decreases |steps|
  {
    if steps != [] {
      StepKeepsInv(c, s, steps[0]);
      RunKeepsInv(c, Next(c, s, steps[0]), steps[1..], t);
    }
  }
}
