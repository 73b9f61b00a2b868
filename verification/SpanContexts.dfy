/** The propagated span context: constructor normalisation and copies with one more baggage item. */
module SpanContexts {
  import opened Prelude
  import opened ContextString
  import opened Dict

  type Baggage = seq<Entry<string, HeaderValue>>

  datatype SpanContext = SpanContext(
    traceId: Option<int>, spanId: Option<int>, parentId: Option<int>, flags: Option<int>,
    baggage: Baggage, debugId: Option<HeaderValue>)

  const SAMPLED_FLAG := 1
  const DEBUG_FLAG := 2

  predicate HasDebug(flags: int) {
    (flags / DEBUG_FLAG) % 2 == 1
  }

  predicate HasSampled(flags: int) {
    flags % 2 == 1
  }

  /** Python's truth of an id that may be None. */
  predicate Truthy(n: Option<int>) {
    n.Some? && n.value != 0
  }

  predicate TruthyText(v: Option<HeaderValue>) {
    v.Some? && !(v.value.Str? && v.value.s == "") && !(v.value.Items? && v.value.vs == [])
  }

  /** SpanContext(...): a zero parent is no parent. */
  function Make(traceId: Option<int>, spanId: Option<int>, parentId: Option<int>, flags: Option<int>,
                baggage: Baggage, debugId: Option<HeaderValue>): SpanContext
  {
    SpanContext(traceId, spanId, if Truthy(parentId) then parentId else None, flags, baggage, debugId)
  }

  predicate HasTrace(c: SpanContext) {
    Truthy(c.traceId) && Truthy(c.spanId) && c.flags.Some?
  }

  /** None removes the item. */
  function WithBaggageItem(c: SpanContext, key: string, value: Option<HeaderValue>): SpanContext {
    Make(c.traceId, c.spanId, c.parentId, c.flags,
         if value.Some? then Put(c.baggage, key, value.value) else Pop(c.baggage, key), None)
  }

  /** The copy differs in that one item (and forgets the debug id); its items still have distinct keys. */
  lemma WithBaggageItemChangesOne(c: SpanContext, key: string, value: Option<HeaderValue>, other: string)
    requires DistinctKeys(c.baggage) && (c.parentId.Some? ==> c.parentId.value != 0)
    ensures var d := WithBaggageItem(c, key, value);
            && Get(d.baggage, other) == (if other == key then value else Get(c.baggage, other))
            && DistinctKeys(d.baggage)
            && d == c.(baggage := d.baggage, debugId := None)
  {
    if value.Some? {
      GetPut(c.baggage, key, value.value, other);
      PutDistinct(c.baggage, key, value.value);
    } else {
      GetPop(c.baggage, key, other);
      PopKeys(c.baggage, key);
    }
  }
}
