/** Conversion of spans to the reporting structs: 128-bit ids split into two signed halves, references and
    batches built in loops. */
module ThriftIds {
  import opened Prelude
  import opened ThriftWire
  import opened ThriftStructs
  import opened ThriftRoundTrip

  const TWO_63: int := 0x8000_0000_0000_0000

  // ---------------------------------------------------------------- id halves

  /** The right-most 64 bits. */
  function IdToLow(id: Option<int>): Option<int> {
    if id.None? then None else Some(id.value % TWO_64)
  }

  /** The next 64 bits. */
  function IdToHigh(id: Option<int>): Option<int> {
    if id.None? then None else Some((id.value / TWO_64) % TWO_64)
  }

  /** Thrift ids are signed. */
  function IdToInt(id: Option<int>): Option<int> {
    if id.None? then None
    else if id.value > TWO_63 - 1 then Some(id.value - TWO_64)
    else id
  }

  predicate FitsI64(n: int) {
    -TWO_63 <= n < TWO_63
  }

  /** What a backend does with a signed half. */
  function Unsigned(n: int): int {
    if n < 0 then n + TWO_64 else n
  }

  function Combine(high: int, low: int): int {
    Unsigned(high) * TWO_64 + Unsigned(low)
  }

  /** Both halves fit a signed field and agree with the id modulo 2^64, for every integer. */
  lemma HalvesAreCongruent(id: int)
    ensures var low, high := IdToInt(IdToLow(Some(id))).value, IdToInt(IdToHigh(Some(id))).value;
            && FitsI64(low) && FitsI64(high)
            && (low - id) % TWO_64 == 0 && (high - id / TWO_64) % TWO_64 == 0
  {
  }

  /** A trace id is recovered from its two halves exactly when it has at most 128 bits. */
  lemma TraceIdRecoveredIff(id: int)
    ensures Combine(IdToInt(IdToHigh(Some(id))).value, IdToInt(IdToLow(Some(id))).value) == id <==> 0 <= id < TWO_128
  {
  }

  /** A span id goes straight through the sign conversion: it fits the field and is recovered exactly when it has
      at most 64 bits. */
  lemma SpanIdRecoveredIff(id: int)
    ensures FitsI64(IdToInt(Some(id)).value) && Unsigned(IdToInt(Some(id)).value) == id <==> 0 <= id < TWO_64
  {
  }

  /** int(ts * 1000000): truncation toward zero. */
  function TimestampMicros(ts: real): int {
    var micros := ts * 1000000.0;
    if micros >= 0.0 then micros.Floor else -((-micros).Floor)
  }

  /** A span reported as start and duration ends at its end time, or one microsecond before it. */
  lemma DurationFits(start: real, end: real)
    requires 0.0 <= start <= end
    ensures TimestampMicros(start) + TimestampMicros(end - start)
            <= TimestampMicros(end)
            <= TimestampMicros(start) + TimestampMicros(end - start) + 1
  {
  }

  // --------------------------------------------------------------- references

  datatype Context = Context(traceId: Option<int>, spanId: Option<int>)

  datatype RefType = CHILD_OF | FOLLOWS_FROM

  datatype Reference = Reference(refType: RefType, context: Context)

  function OptInt(n: Option<int>): Option<Value> {
    if n.None? then None else Some(ScalarV(Int(n.value)))
  }

  function RefTypeCode(t: RefType): int {
    match t
    case CHILD_OF => 0
    case FOLLOWS_FROM => 1
  }

  function SpanRefOf(r: Reference): Obj {
    Obj([OptInt(Some(RefTypeCode(r.refType))),
         OptInt(IdToInt(IdToLow(r.context.traceId))),
         OptInt(IdToInt(IdToHigh(r.context.traceId))),
         OptInt(IdToInt(r.context.spanId))])
  }

  function SpanRefsOf(rs: seq<Reference>): (r: seq<Obj>)
    ensures |r| == |rs|
  {
    seq(|rs|, i requires 0 <= i < |rs| => SpanRefOf(rs[i]))
  }

  /** Absent references and an empty list of them are both left out. */
  function ReferencesOf(rs: Option<seq<Reference>>): Option<Value> {
    if rs.None? || rs.value == [] then None else Some(ListV(SpanRefsOf(rs.value)))
  }

  method MakeReferences(references: Option<seq<Reference>>) returns (r: Option<Value>)
    ensures r == ReferencesOf(references)
  {
    if references.None? || references.value == [] { return None; }
    var refs := references.value;
    var items: seq<Obj> := [];
    for i := 0 to |refs|
      invariant items == SpanRefsOf(refs)[..i]
    {
      items := items + [SpanRefOf(refs[i])];
    }
    assert SpanRefsOf(refs)[..|refs|] == SpanRefsOf(refs);
    r := Some(ListV(items));
  }

  predicate ContextInRange(c: Context) {
    (c.traceId.Some? ==> 0 <= c.traceId.value < TWO_128) && (c.spanId.Some? ==> 0 <= c.spanId.value < TWO_64)
  }

  predicate ReferencesInRange(rs: Option<seq<Reference>>) {
    rs.Some? ==> forall r :: r in rs.value ==> ContextInRange(r.context)
  }

  lemma SpanRefInjective(a: Reference, b: Reference)
    requires ContextInRange(a.context) && ContextInRange(b.context) && SpanRefOf(a) == SpanRefOf(b)
    ensures a == b
  {
    var x, y := SpanRefOf(a).attrs, SpanRefOf(b).attrs;
    assert x[0] == y[0] && x[1] == y[1] && x[2] == y[2] && x[3] == y[3];
    SameTraceIds(a.context.traceId, b.context.traceId);
    SameSpanIds(a.context.spanId, b.context.spanId);
  }

  lemma SameTraceIds(a: Option<int>, b: Option<int>)
    requires a.Some? ==> 0 <= a.value < TWO_128
    requires b.Some? ==> 0 <= b.value < TWO_128
    requires OptInt(IdToInt(IdToLow(a))) == OptInt(IdToInt(IdToLow(b)))
    requires OptInt(IdToInt(IdToHigh(a))) == OptInt(IdToInt(IdToHigh(b)))
    ensures a == b
  {
  }

  lemma SameSpanIds(a: Option<int>, b: Option<int>)
    requires a.Some? ==> 0 <= a.value < TWO_64
    requires b.Some? ==> 0 <= b.value < TWO_64
    requires OptInt(IdToInt(a)) == OptInt(IdToInt(b))
    ensures a == b
  {
  }

  /** The built references determine the references, except that none and an empty list are the same. */
  lemma ReferencesInjective(a: Option<seq<Reference>>, b: Option<seq<Reference>>)
    requires ReferencesInRange(a) && ReferencesInRange(b) && ReferencesOf(a) == ReferencesOf(b)
    ensures a == b || ((a.None? || a.value == []) && (b.None? || b.value == []))
  {
    if a.Some? && a.value != [] && b.Some? && b.value != [] {
      var x, y := SpanRefsOf(a.value), SpanRefsOf(b.value);
      assert |a.value| == |x| == |y| == |b.value|;
      forall i | 0 <= i < |a.value| ensures a.value[i] == b.value[i] {
        assert x[i] == y[i];
        SpanRefInjective(a.value[i], b.value[i]);
      }
      assert a.value == b.value;
    }
  }

  // ------------------------------------------------------------------ batches

  /** The attributes of a finished span that a batch is built from; tags and logs are already structs. */
  datatype SpanRecord = SpanRecord(
    traceId: int, spanId: int, parentId: Option<int>, operationName: string, references: Option<seq<Reference>>,
    flags: int, startTime: real, endTime: real, tags: seq<Obj>, logs: seq<Obj>)

  function ParentCode(parentId: Option<int>): int {
    var p := IdToInt(parentId);
    if p.None? then 0 else p.value
  }

  function JaegerSpan(s: SpanRecord): Obj {
    Obj([OptInt(IdToInt(IdToLow(Some(s.traceId)))),
         OptInt(IdToInt(IdToHigh(Some(s.traceId)))),
         OptInt(IdToInt(Some(s.spanId))),
         OptInt(Some(ParentCode(s.parentId))),
         Some(ScalarV(Text(s.operationName))),
         ReferencesOf(s.references),
         OptInt(Some(s.flags)),
         OptInt(Some(TimestampMicros(s.startTime))),
         OptInt(Some(TimestampMicros(s.endTime - s.startTime))),
         Some(ListV(s.tags)),
         Some(ListV(s.logs))])
  }

  function JaegerSpans(spans: seq<SpanRecord>): (r: seq<Obj>)
    ensures |r| == |spans|
  {
    seq(|spans|, i requires 0 <= i < |spans| => JaegerSpan(spans[i]))
  }

  function JaegerBatch(spans: seq<SpanRecord>, process: Obj): Obj {
    Obj([Some(ObjV(process)), Some(ListV(JaegerSpans(spans)))])
  }

  method MakeJaegerBatch(spans: seq<SpanRecord>, process: Obj) returns (batch: Obj)
    ensures batch == JaegerBatch(spans, process)
  {
    var built: seq<Obj> := [];
    for i := 0 to |spans|
      invariant built == JaegerSpans(spans)[..i]
    {
      var s := spans[i];
      var references := MakeReferences(s.references);
      var parent := IdToInt(s.parentId);
      built := built + [Obj([
        OptInt(IdToInt(IdToLow(Some(s.traceId)))),
        OptInt(IdToInt(IdToHigh(Some(s.traceId)))),
        OptInt(IdToInt(Some(s.spanId))),
        OptInt(if parent.None? || parent.value == 0 then Some(0) else parent),
        Some(ScalarV(Text(s.operationName))),
        references,
        OptInt(Some(s.flags)),
        OptInt(Some(TimestampMicros(s.startTime))),
        OptInt(Some(TimestampMicros(s.endTime - s.startTime))),
        Some(ListV(s.tags)),
        Some(ListV(s.logs))])];
      assert built[i] == JaegerSpan(s);
    }
    assert JaegerSpans(spans)[..|spans|] == JaegerSpans(spans);
    batch := Obj([Some(ObjV(process)), Some(ListV(built))]);
  }

  predicate SpanInRange(s: SpanRecord) {
    && 0 <= s.traceId < TWO_128 && 0 <= s.spanId < TWO_64
    && (s.parentId.Some? ==> 0 < s.parentId.value < TWO_64)
    && ReferencesInRange(s.references)
  }

  predicate SpanConforms(s: SpanRecord) {
    ItemsConform(s.tags, TAG) && ItemsConform(s.logs, LOG)
  }

  /** All that a backend can tell of a span: its start and duration in whole microseconds. */
  predicate SameIdentity(a: SpanRecord, b: SpanRecord) {
    && a.traceId == b.traceId && a.spanId == b.spanId && a.parentId == b.parentId
    && a.operationName == b.operationName && a.flags == b.flags && a.tags == b.tags && a.logs == b.logs
    && TimestampMicros(a.startTime) == TimestampMicros(b.startTime)
    && TimestampMicros(a.endTime - a.startTime) == TimestampMicros(b.endTime - b.startTime)
    && (a.references == b.references
        || ((a.references.None? || a.references.value == []) && (b.references.None? || b.references.value == [])))
  }

  lemma JaegerSpanInjective(a: SpanRecord, b: SpanRecord)
    requires SpanInRange(a) && SpanInRange(b) && JaegerSpan(a) == JaegerSpan(b)
    ensures SameIdentity(a, b)
  {
    var x, y := JaegerSpan(a).attrs, JaegerSpan(b).attrs;
    assert x[0] == y[0] && x[1] == y[1] && x[2] == y[2] && x[3] == y[3] && x[4] == y[4] && x[5] == y[5];
    assert x[6] == y[6] && x[7] == y[7] && x[8] == y[8] && x[9] == y[9] && x[10] == y[10];
    hide TimestampMicros;
    SameTraceIds(Some(a.traceId), Some(b.traceId));
    SameSpanIds(Some(a.spanId), Some(b.spanId));
    ReferencesInjective(a.references, b.references);
  }

  lemma {:induction false} AllConform(objs: seq<Obj>, schema: Schema)
    requires forall i :: 0 <= i < |objs| ==> Conforms(objs[i], schema)
    ensures ItemsConform(objs, schema)
  {
    if objs != [] { AllConform(objs[1..], schema); }
  }

  lemma {:induction false} AttrsConformFrom(attrs: seq<Option<Value>>, specs: seq<FieldSpec>)
    requires |attrs| == |specs|
    requires forall i :: 0 <= i < |attrs| && attrs[i].Some? ==> ValueConforms(attrs[i].value, specs[i].kind)
    ensures AttrsConform(attrs, specs)
    decreases |attrs|
  {
    if attrs != [] { AttrsConformFrom(attrs[1..], specs[1..]); }
  }

  lemma SpanRefConforms(r: Reference)
    ensures Conforms(SpanRefOf(r), SPAN_REF)
  {
    AttrsConformFrom(SpanRefOf(r).attrs, SPAN_REF.fields);
  }

  lemma JaegerSpanConforms(s: SpanRecord)
    requires SpanConforms(s)
    ensures Conforms(JaegerSpan(s), SPAN)
  {
    hide ItemsConform, Conforms;
    var v := ReferencesOf(s.references);
    if v.Some? {
      forall i | 0 <= i < |v.value.items| ensures Conforms(v.value.items[i], SPAN_REF) {
        SpanRefConforms(s.references.value[i]);
      }
      AllConform(v.value.items, SPAN_REF);
    }
    AttrsConformFrom(JaegerSpan(s).attrs, SPAN.fields);
    SpanAttrsConform(JaegerSpan(s));
  }

  lemma SpanAttrsConform(o: Obj)
    requires |o.attrs| == |SPAN.fields| && AttrsConform(o.attrs, SPAN.fields)
    ensures Conforms(o, SPAN)
  {
  }

  lemma JaegerBatchConforms(spans: seq<SpanRecord>, process: Obj)
    requires Conforms(process, PROCESS) && forall s :: s in spans ==> SpanConforms(s)
    ensures Conforms(JaegerBatch(spans, process), BATCH)
  {
    hide SpanConforms, JaegerSpan, ItemsConform;
    var items := JaegerSpans(spans);
    forall i | 0 <= i < |items| ensures Conforms(items[i], SPAN) { JaegerSpanConforms(spans[i]); }
    AllConform(items, SPAN);
    AttrsConformFrom(JaegerBatch(spans, process).attrs, BATCH.fields);
  }

  /** From spans to the wire and back: a reader of the bytes of the batch, whatever follows them, gets the process
      and, in order, one struct per span. */
  lemma BatchReachesReader(spans: seq<SpanRecord>, process: Obj, rest: seq<Token>)
    requires Conforms(process, PROCESS) && forall s :: s in spans ==> SpanConforms(s)
    ensures Conforms(JaegerBatch(spans, process), BATCH)
    ensures ReadStruct(Written(JaegerBatch(spans, process), BATCH) + rest, BATCH)
            == Some((JaegerBatch(spans, process), rest))
    ensures |JaegerSpans(spans)| == |spans|
  {
    JaegerBatchConforms(spans, process);
    BatchRoundTrip(JaegerBatch(spans, process), rest);
  }

  /** Two batches with the same tokens on the wire have the same process and, in order, the same spans. */
  lemma WireDeterminesSpans(a: seq<SpanRecord>, p: Obj, b: seq<SpanRecord>, q: Obj)
    requires Conforms(p, PROCESS) && Conforms(q, PROCESS)
    requires forall s :: s in a + b ==> SpanConforms(s) && SpanInRange(s)
    requires Conforms(JaegerBatch(a, p), BATCH) && Conforms(JaegerBatch(b, q), BATCH)
    requires Written(JaegerBatch(a, p), BATCH) == Written(JaegerBatch(b, q), BATCH)
    ensures p == q && |a| == |b| && forall i :: 0 <= i < |a| ==> SameIdentity(a[i], b[i])
  {
    hide Conforms, ReadStruct, JaegerSpan, SpanInRange, SpanConforms, SameIdentity;
    BatchReachesReader(a, p, []);
    BatchReachesReader(b, q, []);
    var x, y := JaegerBatch(a, p).attrs, JaegerBatch(b, q).attrs;
    assert x[0] == y[0] && x[1] == y[1];
    assert JaegerSpans(a) == JaegerSpans(b);
    forall i | 0 <= i < |a| ensures SameIdentity(a[i], b[i]) {
      assert JaegerSpans(a)[i] == JaegerSpans(b)[i];
      assert a[i] in a + b && b[i] in a + b;
      JaegerSpanInjective(a[i], b[i]);
    }
  }
}
