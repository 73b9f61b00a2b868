/** The reporter object. Each method runs one coroutine or callback from one suspension point to the
    next, and is proved to make exactly the corresponding step of the state machine; the invariant is
    then kept by ReporterProtocol.StepKeepsInv and RunKeepsInv. */
module ReporterObject {
  import opened ReporterProtocol

  class Reporter {
    const config: Config
    // the IOLoop's callbacks and the tornado queue
    var callbacks: seq<Callback>
    var queue: seq<Item>
    var unfinished: int
    // the reporter and the locals of its consumer coroutine
    var stopped: bool
    var hasProcess: bool
    var consumer: Consumer
    var leaving: bool
    var spans: seq<SpanHandle>
    var closers: seq<Closer>
    // metrics
    var okCount: nat
    var errCount: nat
    var droppedCount: nat
    // history
    ghost var reported: seq<SpanHandle>
    ghost var accepted: seq<SpanHandle>
    ghost var rejected: seq<Rejection>
    ghost var batches: seq<Batch>

    ghost function View(): State
      reads this
    {
      State(callbacks, queue, unfinished, stopped, consumer, leaving, spans, closers, hasProcess,
            Books(okCount, errCount, droppedCount, reported, accepted, rejected, batches))
    }

    constructor (batchSize: nat, queueCapacity: nat, flushes: bool)
      requires batchSize <= queueCapacity
      ensures View() == INITIAL && config == Config(batchSize, queueCapacity, flushes)
    {
      config := Config(batchSize, queueCapacity, flushes);
      callbacks, queue, unfinished, closers := [], [], 0, [];
      stopped, hasProcess, consumer, leaving, spans := false, false, Fetching, false, [];
      okCount, errCount, droppedCount := 0, 0, 0;
      reported, accepted, rejected, batches := [], [], [], [];
    }

    /** The source's constructor: it refuses a queue smaller than a batch. */
    static method Create(batchSize: nat, queueCapacity: nat, flushes: bool) returns (r: Reporter?)
      ensures r == null <==> queueCapacity < batchSize
      ensures r != null ==> fresh(r) && r.View() == INITIAL
      ensures r != null ==> r.config == Config(batchSize, queueCapacity, flushes)
    {
      if queueCapacity < batchSize { return null; }
      r := new Reporter(batchSize, queueCapacity, flushes);
    }

    method SetProcess()
      modifies this
      ensures View() == Next(config, old(View()), ReporterProtocol.SetProcess)
    {
      hasProcess := true;
    }

    method ReportSpan(span: SpanHandle)
      modifies this
      ensures View() == Next(config, old(View()), Report(span))
    {
      callbacks := callbacks + [ReportCall(span, stopped || FlushCall in callbacks)];
      reported := reported + [span];
    }

    method Close()
      modifies this
      ensures View() == Next(config, old(View()), CallClose)
    {
      callbacks := callbacks + [FlushCall];
    }

    /** tornado's put_nowait: a parked getter is served first; ok is false for QueueFull. */
    method PutNowait(item: Item) returns (ok: bool)
      modifies this`consumer, this`queue, this`unfinished
      ensures ok <==> old(consumer).Parked? || old(|queue|) < config.capacity
      ensures unfinished == old(unfinished) + if ok then 1 else 0
      ensures consumer == if old(consumer).Parked? then Handed(item) else old(consumer)
      ensures queue == if ok && !old(consumer).Parked? then old(queue) + [item] else old(queue)
    {
      if consumer.Parked? {
        consumer := Handed(item);
      } else if |queue| >= config.capacity {
        return false;
      } else {
        queue := queue + [item];
      }
      unfinished := unfinished + 1;
      ok := true;
    }

    method ReportSpanFromIoloop(span: SpanHandle, ghost late: bool)
      modifies this
      ensures View() == Offer(config, old(View()), span, late)
      ensures accepted == if !old(stopped) && (old(consumer).Parked? || old(|queue|) < config.capacity)
                          then old(accepted) + [span] else old(accepted)
    {
      if stopped {
        rejected := rejected + [Rejection(span, late, false)];
        droppedCount := droppedCount + 1;
      } else {
        var ok := PutNowait(Work(span));
        if ok {
          accepted := accepted + [span];
        } else {
          rejected := rejected + [Rejection(span, late, true)];
          droppedCount := droppedCount + 1;
        }
      }
    }

    /** _flush: stop accepting, then put the marker and join. */
    method Flush()
      modifies this
      ensures View() == BeginClose(config, old(View()))
    {
      stopped := true;
      var ok := PutNowait(StopMarker);
      closers := closers + [if ok then Joining else Putting];
    }

    method RunCallback()
      requires callbacks != []
      modifies this
      ensures View() == Next(config, old(View()), ReporterProtocol.RunCallback)
    {
      var cb := callbacks[0];
      callbacks := callbacks[1..];
      match cb
      case ReportCall(span, late) => ReportSpanFromIoloop(span, late);
      case FlushCall => Flush();
    }

    /** tornado's task_done: at zero every coroutine waiting in join goes on. */
    method TaskDone()
      modifies this`unfinished, this`closers
      ensures unfinished == old(unfinished) - 1
      ensures closers == if unfinished == 0 then Woken(old(closers)) else old(closers)
    {
      unfinished := unfinished - 1;
      if unfinished == 0 {
        ghost var before := closers;
        var i := 0;
        while i < |closers|
          invariant 0 <= i <= |closers| == |before| && unfinished == 0 == old(unfinished) - 1
          invariant forall j :: 0 <= j < i ==> closers[j] == if before[j].Joining? then Closed else before[j]
          invariant forall j :: i <= j < |closers| ==> closers[j] == before[j]
        {
          if closers[i].Joining? { closers := closers[i := Closed]; }
          i := i + 1;
        }
      }
    }

    /** The consumer's loop body once queue.get has returned an item. */
    method Collect(item: Item)
      modifies this
      ensures View() == Take(config, old(View()), item)
    {
      match item
      case StopMarker =>
        leaving := true;
        TaskDone();
        consumer := if spans == [] then Exited else Submitting(hasProcess, Stop);
      case Work(span) =>
        spans := spans + [span];
        consumer := if |spans| < config.batchSize then Fetching else Submitting(hasProcess, Full);
    }

    /** The part of tornado's get_nowait that serves a waiting putter. */
    method AdmitPutter()
      modifies this`queue, this`unfinished, this`closers
      ensures View() == LetPutterIn(old(View()))
    {
      var i := FirstPutting();
      if i < |closers| {
        queue := queue + [StopMarker];
        unfinished := unfinished + 1;
        closers := closers[i := Entered];
      }
    }

    /** queue.get with the flush timer: a waiting putter goes in first, then the head comes out. */
    method Get()
      requires consumer.Fetching?
      modifies this
      ensures View() == FetchNext(config, old(View()))
    {
      AdmitPutter();
      if queue == [] {
        consumer := Parked(config.flushes && spans != []);
      } else {
        var item := queue[0];
        queue := queue[1..];
        Collect(item);
      }
    }

    method FirstPutting() returns (i: nat)
      ensures i == NextPutter(closers)
    {
      i := 0;
      while i < |closers| && !closers[i].Putting?
        invariant i <= |closers|
        invariant forall j :: 0 <= j < i ==> !closers[j].Putting?
      {
        i := i + 1;
      }
    }

    method ResumeWithItem()
      requires consumer.Handed?
      modifies this
      ensures View() == Next(config, old(View()), Resume)
    {
      Collect(consumer.item);
    }

    method FireTimer()
      requires consumer.Parked? && consumer.armed
      modifies this
      ensures View() == Next(config, old(View()), TimerFires)
    {
      consumer := TimedOut;
    }

    method ResumeAfterTimeout()
      requires consumer.TimedOut?
      modifies this
      ensures View() == Next(config, old(View()), ResumeTimeout)
    {
      consumer := Submitting(hasProcess, Cause.Flush);
    }

    /** for _ in spans: queue.task_done() */
    method MarkDone()
      requires unfinished >= |spans|
      modifies this`unfinished, this`closers
      ensures View() == TasksDone(old(View()), |spans|)
    {
      var n, i := |spans|, 0;
      while i < n
        invariant 0 <= i <= n && unfinished == old(unfinished) - i >= n - i
        invariant closers == if i > 0 && unfinished == 0 then Woken(old(closers)) else old(closers)
        modifies this`unfinished, this`closers
      {
        TaskDone();
        i := i + 1;
      }
    }

    /** The success or failure count of _submit; without a process nothing is counted. */
    method CountOutcome(sent: bool)
      requires consumer.Submitting?
      modifies this`okCount, this`errCount, this`batches
      ensures View() == old(View()).(books := Filed(old(View()).books,
                        Batch(spans, consumer.cause, OutcomeOf(consumer, sent))))
    {
      if consumer.sends {
        if sent { okCount := okCount + |spans|; } else { errCount := errCount + |spans|; }
      }
      batches := batches + [Batch(spans, consumer.cause, OutcomeOf(consumer, sent))];
    }

    /** _submit has returned: count the outcome, mark every span done, start over or leave. */
    method Submitted(sent: bool)
      requires consumer.Submitting? && unfinished >= |spans|
      modifies this
      ensures View() == FinishSubmit(old(View()), old(consumer.cause), OutcomeOf(old(consumer), sent))
    {
      CountOutcome(sent);
      MarkDone();
      spans := [];
      consumer := if leaving then Exited else Fetching;
    }

    method ResumeCloser(i: nat)
      requires i < |closers| && closers[i].Entered?
      modifies this
      ensures View() == Next(config, old(View()), CloserResumes(i))
    {
      closers := closers[i := if unfinished == 0 then Closed else Joining];
    }
  }
}
