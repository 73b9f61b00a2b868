/** What the reporting structs carry on the wire, field id by field id as jaeger.thrift numbers them. */
module ThriftFields {
  import opened Prelude
  import opened ThriftWire
  import opened ThriftStructs
  import opened ThriftRoundTrip
  import opened ThriftIds

  /** The value a struct on the wire has under an id. */
  function FieldAt(fields: seq<WireField>, fid: int): Option<Wire> {
    if fields == [] then None
    else if fields[0].fid == fid then Some(fields[0].value)
    else FieldAt(fields[1..], fid)
  }

  /** What write puts under the i-th entry of the table is under that entry's id. */
  lemma {:induction false} WrittenAt(attrs: seq<Option<Value>>, specs: seq<FieldSpec>, i: nat)
    requires |attrs| == |specs| && AttrsConform(attrs, specs) && DistinctIds(specs) && i < |specs|
    ensures attrs[i].Some? ==> ValueConforms(attrs[i].value, specs[i].kind)
    ensures FieldAt(WireFields(attrs, specs), specs[i].fid) ==
            if attrs[i].None? then None else Some(WireValue(attrs[i].value, specs[i].kind))
    decreases |attrs|
  {
    hide WireValue, ValueConforms;
    var fs := WireFields(attrs, specs);
    if attrs[0].Some? { assert fs[1..] == WireFields(attrs[1..], specs[1..]); }
    if i == 0 {
      if attrs[0].None? { NotWritten(attrs[1..], specs[1..], specs[0].fid); }
    } else {
      WrittenAt(attrs[1..], specs[1..], i - 1);
    }
  }

  lemma {:induction false} NotWritten(attrs: seq<Option<Value>>, specs: seq<FieldSpec>, fid: int)
    requires |attrs| == |specs| && AttrsConform(attrs, specs)
    requires forall j :: 0 <= j < |specs| ==> specs[j].fid != fid
    ensures FieldAt(WireFields(attrs, specs), fid) == None
    decreases |attrs|
  {
    hide WireValue, ValueConforms;
    if attrs != [] {
      NotWritten(attrs[1..], specs[1..], fid);
      if attrs[0].Some? {
        var fs := WireFields(attrs, specs);
        assert fs[1..] == WireFields(attrs[1..], specs[1..]) && fs[0].fid == specs[0].fid;
      }
    }
  }

  // --------------------------------------------------------------- the numbers

  /** A signed 64-bit field that holds this integer modulo 2^64. */
  predicate HoldsI64(w: Option<Wire>, id: int) {
    && w.Some? && w.value.WPlain? && w.value.t.I64? && w.value.atom.Int?
    && FitsI64(w.value.atom.n) && (w.value.atom.n - id) % TWO_64 == 0
  }

  /** A 64-bit field holds every integer below 2^64 faithfully. */
  lemma HeldIsRecovered(w: Option<Wire>, id: int)
    requires HoldsI64(w, id) && 0 <= id < TWO_64
    ensures Unsigned(w.value.atom.n) == id
  {
    var n := w.value.atom.n;
    var k := (n - id) / TWO_64;
    assert n - id == k * TWO_64;
  }

  lemma HeldHalves(low: Option<Wire>, high: Option<Wire>, id: int)
    requires 0 <= id < TWO_128 && HoldsI64(low, id) && HoldsI64(high, id / TWO_64)
    ensures Combine(high.value.atom.n, low.value.atom.n) == id
  {
    var q, r := id / TWO_64, id % TWO_64;
    assert id == q * TWO_64 + r && 0 <= q < TWO_64;
    CongruentRest(low.value.atom.n, q, r);
    HeldIsRecovered(low, r);
    HeldIsRecovered(high, q);
  }

  lemma CongruentRest(n: int, q: int, r: int)
    requires (n - (q * TWO_64 + r)) % TWO_64 == 0
    ensures (n - r) % TWO_64 == 0
  {
    var k := (n - (q * TWO_64 + r)) / TWO_64;
    assert n - r == (k + q) * TWO_64;
  }

  /** A span or parent id, which goes straight through the sign conversion. */
  lemma IdHeld(id: int, w: Wire)
    requires 0 <= id < TWO_64 && w == WPlain(I64, Int(IdToInt(Some(id)).value))
    ensures HoldsI64(Some(w), id)
  {
  }

  lemma HalvesHeld(id: int, low: Wire, high: Wire)
    requires low == WPlain(I64, Int(IdToInt(IdToLow(Some(id))).value))
    requires high == WPlain(I64, Int(IdToInt(IdToHigh(Some(id))).value))
    ensures HoldsI64(Some(low), id) && HoldsI64(Some(high), id / TWO_64)
  {
    HalvesAreCongruent(id);
  }

  /** Whole microseconds, cut off toward zero. */
  predicate Micros(n: int, ts: real) {
    if ts >= 0.0 then n as real <= ts * 1000000.0 < n as real + 1.0
    else n as real - 1.0 < ts * 1000000.0 <= n as real && n <= 0
  }

  lemma TimestampIsMicros(ts: real)
    ensures Micros(TimestampMicros(ts), ts)
  {
  }

  predicate HoldsInt(w: Option<Wire>, t: TType, n: int) {
    w == Some(WPlain(t, Int(n)))
  }

  predicate HoldsMicros(w: Option<Wire>, ts: real) {
    w.Some? && w.value.WPlain? && w.value.t.I64? && w.value.atom.Int? && Micros(w.value.atom.n, ts)
  }

  // --------------------------------------------------------------- references

  /** refType 1 (CHILD_OF 0, FOLLOWS_FROM 1), traceIdLow 2, traceIdHigh 3, spanId 4. */
  predicate CarriesReference(fields: seq<WireField>, r: Reference) {
    && HoldsInt(FieldAt(fields, 1), I32, if r.refType.CHILD_OF? then 0 else 1)
    && (if r.context.traceId.None? then FieldAt(fields, 2) == None && FieldAt(fields, 3) == None
        else HoldsI64(FieldAt(fields, 2), r.context.traceId.value)
             && HoldsI64(FieldAt(fields, 3), r.context.traceId.value / TWO_64))
    && (if r.context.spanId.None? then FieldAt(fields, 4) == None
        else HoldsI64(FieldAt(fields, 4), r.context.spanId.value))
  }

  lemma ReferenceFields(r: Reference)
    requires ContextInRange(r.context)
    ensures Conforms(SpanRefOf(r), SPAN_REF)
    ensures CarriesReference(WireFields(SpanRefOf(r).attrs, SPAN_REF.fields), r)
  {
    SpanRefConforms(r);
    var o, specs := SpanRefOf(r), SPAN_REF.fields;
    WrittenAt(o.attrs, specs, 0);
    WrittenAt(o.attrs, specs, 1);
    WrittenAt(o.attrs, specs, 2);
    WrittenAt(o.attrs, specs, 3);
    hide WireFields, FieldAt, FitsI64;
    if r.context.traceId.Some? {
      var id := r.context.traceId.value;
      HalvesHeld(id, WPlain(I64, Int(IdToInt(IdToLow(Some(id))).value)),
                 WPlain(I64, Int(IdToInt(IdToHigh(Some(id))).value)));
    }
    if r.context.spanId.Some? {
      IdHeld(r.context.spanId.value, WPlain(I64, Int(IdToInt(r.context.spanId).value)));
    }
  }

  /** A list of structs that carry these references, one each and in order. */
  ghost predicate CarriesReferences(w: Wire, rs: seq<Reference>) {
    && w.WColl? && !w.set_ && w.etype.STRUCT? && |w.elems| == |rs|
    && forall i :: 0 <= i < |rs| ==> w.elems[i].WStruct? && CarriesReference(w.elems[i].fields, rs[i])
  }

  lemma {:induction false} ItemsWritten(items: seq<Obj>, schema: Schema, i: nat)
    requires ItemsConform(items, schema) && i < |items|
    ensures Conforms(items[i], schema)
    ensures WireItems(items, schema)[i] == WStruct(WireFields(items[i].attrs, schema.fields))
    decreases |items|
  {
    if i > 0 { ItemsWritten(items[1..], schema, i - 1); }
  }

  lemma ReferencesCarried(rs: seq<Reference>)
    requires forall r :: r in rs ==> ContextInRange(r.context)
    requires ItemsConform(SpanRefsOf(rs), SPAN_REF)
    ensures CarriesReferences(WireValue(ListV(SpanRefsOf(rs)), ListOf(SPAN_REF)), rs)
  {
    hide CarriesReference, ContextInRange;
    var items := SpanRefsOf(rs);
    forall i | 0 <= i < |rs|
      ensures WireItems(items, SPAN_REF)[i].WStruct? && CarriesReference(WireItems(items, SPAN_REF)[i].fields, rs[i])
    {
      assert rs[i] in rs;
      ItemsWritten(items, SPAN_REF, i);
      ReferenceFields(rs[i]);
    }
  }

  // -------------------------------------------------------------------- spans

  /** Ids, times and flags: traceIdLow 1, traceIdHigh 2, spanId 3, parentSpanId 4 (0 exactly for none), flags 7,
      startTime 8, duration 9. */
  predicate CarriesNumbers(fields: seq<WireField>, s: SpanRecord) {
    && HoldsI64(FieldAt(fields, 1), s.traceId) && HoldsI64(FieldAt(fields, 2), s.traceId / TWO_64)
    && HoldsI64(FieldAt(fields, 3), s.spanId)
    && HoldsI64(FieldAt(fields, 4), if s.parentId.None? then 0 else s.parentId.value)
    && HoldsInt(FieldAt(fields, 7), I32, s.flags)
    && HoldsMicros(FieldAt(fields, 8), s.startTime) && HoldsMicros(FieldAt(fields, 9), s.endTime - s.startTime)
  }

  /** operationName 5, references 6 (left out when there are none), tags 10, logs 11. */
  ghost predicate CarriesTexts(fields: seq<WireField>, s: SpanRecord)
    requires SpanConforms(s)
  {
    && FieldAt(fields, 5) == Some(WPlain(STRING, Text(s.operationName)))
    && (if s.references.None? || s.references.value == [] then FieldAt(fields, 6) == None
        else FieldAt(fields, 6).Some? && CarriesReferences(FieldAt(fields, 6).value, s.references.value))
    && FieldAt(fields, 10) == Some(WColl(false, STRUCT, WireItems(s.tags, TAG)))
    && FieldAt(fields, 11) == Some(WColl(false, STRUCT, WireItems(s.logs, LOG)))
  }

  /** The fields write gives a finished span. */
  function SpanOnWire(s: SpanRecord): seq<WireField>
    requires Conforms(JaegerSpan(s), SPAN)
  {
    WireFields(JaegerSpan(s).attrs, SPAN.fields)
  }

  /** What write puts under an entry of a table, for an object of that table. */
  lemma EntryWritten(o: Obj, schema: Schema, i: nat, fid: int, kind: Kind)
    requires Conforms(o, schema) && DistinctIds(schema.fields) && i < |schema.fields|
    requires schema.fields[i] == FieldSpec(fid, kind)
    ensures |o.attrs| == |schema.fields| && (o.attrs[i].Some? ==> ValueConforms(o.attrs[i].value, kind))
    ensures FieldAt(WireFields(o.attrs, schema.fields), fid) ==
            if o.attrs[i].None? then None else Some(WireValue(o.attrs[i].value, kind))
  {
    WrittenAt(o.attrs, schema.fields, i);
  }

  lemma SpanTable()
    ensures DistinctIds(SPAN.fields) && |SPAN.fields| == 11
  {
  }

  lemma TraceIdWritten(s: SpanRecord)
    requires Conforms(JaegerSpan(s), SPAN)
    ensures var fs := SpanOnWire(s);
            && FieldAt(fs, 1) == Some(WPlain(I64, Int(IdToInt(IdToLow(Some(s.traceId))).value)))
            && FieldAt(fs, 2) == Some(WPlain(I64, Int(IdToInt(IdToHigh(Some(s.traceId))).value)))
  {
    SpanTable();
    hide WireFields, FieldAt, ReferencesOf, TimestampMicros, ParentCode, Conforms, ItemsConform, DistinctIds;
    EntryWritten(JaegerSpan(s), SPAN, 0, 1, Scalar(I64));
    EntryWritten(JaegerSpan(s), SPAN, 1, 2, Scalar(I64));
  }

  lemma SpanIdsWritten(s: SpanRecord)
    requires Conforms(JaegerSpan(s), SPAN)
    ensures var fs := SpanOnWire(s);
            && FieldAt(fs, 3) == Some(WPlain(I64, Int(IdToInt(Some(s.spanId)).value)))
            && FieldAt(fs, 4) == Some(WPlain(I64, Int(ParentCode(s.parentId))))
  {
    SpanTable();
    hide WireFields, FieldAt, ReferencesOf, TimestampMicros, ParentCode, Conforms, ItemsConform, DistinctIds;
    EntryWritten(JaegerSpan(s), SPAN, 2, 3, Scalar(I64));
    EntryWritten(JaegerSpan(s), SPAN, 3, 4, Scalar(I64));
  }

  lemma FlagsWritten(s: SpanRecord)
    requires Conforms(JaegerSpan(s), SPAN)
    ensures FieldAt(SpanOnWire(s), 5) == Some(WPlain(STRING, Text(s.operationName)))
    ensures FieldAt(SpanOnWire(s), 7) == Some(WPlain(I32, Int(s.flags)))
  {
    SpanTable();
    hide WireFields, FieldAt, IdToInt, IdToLow, IdToHigh, ReferencesOf, TimestampMicros, ParentCode, Conforms,
      ItemsConform, DistinctIds;
    EntryWritten(JaegerSpan(s), SPAN, 4, 5, Scalar(STRING));
    EntryWritten(JaegerSpan(s), SPAN, 6, 7, Scalar(I32));
  }

  lemma SpanTimesWritten(s: SpanRecord)
    requires Conforms(JaegerSpan(s), SPAN)
    ensures var fs := SpanOnWire(s);
            && FieldAt(fs, 8) == Some(WPlain(I64, Int(TimestampMicros(s.startTime))))
            && FieldAt(fs, 9) == Some(WPlain(I64, Int(TimestampMicros(s.endTime - s.startTime))))
  {
    SpanTable();
    hide WireFields, FieldAt, IdToInt, IdToLow, IdToHigh, ReferencesOf, TimestampMicros, ParentCode, Conforms,
      ItemsConform, DistinctIds;
    EntryWritten(JaegerSpan(s), SPAN, 7, 8, Scalar(I64));
    EntryWritten(JaegerSpan(s), SPAN, 8, 9, Scalar(I64));
  }

  lemma ReferencesWritten(s: SpanRecord)
    requires Conforms(JaegerSpan(s), SPAN)
    ensures var fs, refs := SpanOnWire(s), ReferencesOf(s.references);
            && (refs.None? ==> FieldAt(fs, 6) == None)
            && (refs.Some? ==> ValueConforms(refs.value, ListOf(SPAN_REF))
                               && FieldAt(fs, 6) == Some(WireValue(refs.value, ListOf(SPAN_REF))))
  {
    SpanTable();
    hide WireFields, FieldAt, IdToInt, IdToLow, IdToHigh, ReferencesOf, TimestampMicros, ParentCode, Conforms,
      ItemsConform, DistinctIds;
    EntryWritten(JaegerSpan(s), SPAN, 5, 6, ListOf(SPAN_REF));
  }

  lemma SpanListsWritten(s: SpanRecord)
    requires Conforms(JaegerSpan(s), SPAN) && SpanConforms(s)
    ensures FieldAt(SpanOnWire(s), 10) == Some(WColl(false, STRUCT, WireItems(s.tags, TAG)))
    ensures FieldAt(SpanOnWire(s), 11) == Some(WColl(false, STRUCT, WireItems(s.logs, LOG)))
  {
    SpanTable();
    hide WireFields, FieldAt, IdToInt, IdToLow, IdToHigh, ReferencesOf, TimestampMicros, ParentCode, Conforms,
      ItemsConform, DistinctIds;
    EntryWritten(JaegerSpan(s), SPAN, 9, 10, ListOf(TAG));
    EntryWritten(JaegerSpan(s), SPAN, 10, 11, ListOf(LOG));
  }

  /** What a finished span is on the wire, by field id. */
  lemma SpanFields(s: SpanRecord)
    requires SpanInRange(s) && SpanConforms(s)
    ensures Conforms(JaegerSpan(s), SPAN)
    ensures CarriesNumbers(SpanOnWire(s), s) && CarriesTexts(SpanOnWire(s), s)
  {
    JaegerSpanConforms(s);
    TraceIdWritten(s);
    SpanIdsWritten(s);
    FlagsWritten(s);
    SpanTimesWritten(s);
    ReferencesWritten(s);
    SpanListsWritten(s);
    hide SpanOnWire, FieldAt, Conforms, CarriesReferences, ItemsConform, HoldsI64, Micros, TimestampMicros;
    HalvesHeld(s.traceId, WPlain(I64, Int(IdToInt(IdToLow(Some(s.traceId))).value)),
               WPlain(I64, Int(IdToInt(IdToHigh(Some(s.traceId))).value)));
    IdHeld(s.spanId, WPlain(I64, Int(IdToInt(Some(s.spanId)).value)));
    IdHeld(if s.parentId.None? then 0 else s.parentId.value, WPlain(I64, Int(ParentCode(s.parentId))));
    TimestampIsMicros(s.startTime);
    TimestampIsMicros(s.endTime - s.startTime);
    if s.references.Some? && s.references.value != [] { ReferencesCarried(s.references.value); }
  }

  /** The ids a backend makes of those fields. */
  lemma SpanIdsRecovered(s: SpanRecord)
    requires SpanInRange(s) && SpanConforms(s) && Conforms(JaegerSpan(s), SPAN)
    ensures var fs := SpanOnWire(s);
            && FieldAt(fs, 1).Some? && FieldAt(fs, 2).Some? && FieldAt(fs, 3).Some? && FieldAt(fs, 4).Some?
            && HoldsI64(FieldAt(fs, 1), s.traceId) && HoldsI64(FieldAt(fs, 2), s.traceId / TWO_64)
            && Combine(FieldAt(fs, 2).value.atom.n, FieldAt(fs, 1).value.atom.n) == s.traceId
            && FieldAt(fs, 3).value.WPlain? && FieldAt(fs, 3).value.atom.Int?
            && Unsigned(FieldAt(fs, 3).value.atom.n) == s.spanId
            && FieldAt(fs, 4).value.WPlain? && FieldAt(fs, 4).value.atom.Int?
            && (FieldAt(fs, 4).value.atom.n == 0 <==> s.parentId.None?)
            && (s.parentId.Some? ==> Unsigned(FieldAt(fs, 4).value.atom.n) == s.parentId.value)
  {
    SpanFields(s);
    hide SpanOnWire, FieldAt, Conforms, CarriesTexts;
    var fs := SpanOnWire(s);
    HeldHalves(FieldAt(fs, 1), FieldAt(fs, 2), s.traceId);
    HeldIsRecovered(FieldAt(fs, 3), s.spanId);
    HeldIsRecovered(FieldAt(fs, 4), if s.parentId.None? then 0 else s.parentId.value);
  }

  // ------------------------------------------------------------------ batches

  /** The batch: process 1, spans 2 with one struct per span in order, each carrying its span. */
  lemma BatchFields(spans: seq<SpanRecord>, process: Obj)
    requires Conforms(process, PROCESS) && forall s :: s in spans ==> SpanConforms(s) && SpanInRange(s)
    ensures Conforms(JaegerBatch(spans, process), BATCH)
    ensures var fs := WireFields(JaegerBatch(spans, process).attrs, BATCH.fields);
            && FieldAt(fs, 1) == Some(WStruct(WireFields(process.attrs, PROCESS.fields)))
            && FieldAt(fs, 2).Some?
            && var w := FieldAt(fs, 2).value;
               && w.WColl? && !w.set_ && w.etype.STRUCT? && |w.elems| == |spans|
               && forall i :: 0 <= i < |spans| ==>
                    && w.elems[i].WStruct?
                    && CarriesNumbers(w.elems[i].fields, spans[i]) && CarriesTexts(w.elems[i].fields, spans[i])
  {
    JaegerBatchConforms(spans, process);
    var o, items := JaegerBatch(spans, process), JaegerSpans(spans);
    WrittenAt(o.attrs, BATCH.fields, 0);
    WrittenAt(o.attrs, BATCH.fields, 1);
    hide CarriesNumbers, CarriesTexts, SpanInRange, SpanConforms, JaegerSpan, WireFields;
    forall i | 0 <= i < |spans|
      ensures WireItems(items, SPAN)[i].WStruct?
      ensures CarriesNumbers(WireItems(items, SPAN)[i].fields, spans[i])
      ensures SpanConforms(spans[i]) && CarriesTexts(WireItems(items, SPAN)[i].fields, spans[i])
    {
      assert spans[i] in spans;
      ItemsWritten(items, SPAN, i);
      SpanFields(spans[i]);
    }
  }

  // --------------------------------------------------- tags, logs and processes

  /** key 1, vType 2, vStr 3, vDouble 4, vBool 5, vLong 6, vBinary 7. */
  lemma TagFields(o: Obj)
    requires Conforms(o, TAG)
    ensures var fs := WireFields(o.attrs, TAG.fields);
            && FieldAt(fs, 1) == PlainAt(o, 0, STRING) && FieldAt(fs, 2) == PlainAt(o, 1, I32)
            && FieldAt(fs, 3) == PlainAt(o, 2, STRING) && FieldAt(fs, 4) == PlainAt(o, 3, DOUBLE)
            && FieldAt(fs, 5) == PlainAt(o, 4, BOOL) && FieldAt(fs, 6) == PlainAt(o, 5, I64)
            && FieldAt(fs, 7) == PlainAt(o, 6, STRING)
  {
    TagTable();
    hide WireFields, FieldAt, Conforms, DistinctIds;
    EntryWritten(o, TAG, 0, 1, Scalar(STRING));
    EntryWritten(o, TAG, 1, 2, Scalar(I32));
    EntryWritten(o, TAG, 2, 3, Scalar(STRING));
    EntryWritten(o, TAG, 3, 4, Scalar(DOUBLE));
    EntryWritten(o, TAG, 4, 5, Scalar(BOOL));
    EntryWritten(o, TAG, 5, 6, Scalar(I64));
    EntryWritten(o, TAG, 6, 7, Scalar(STRING));
  }

  lemma TagTable()
    ensures DistinctIds(TAG.fields) && |TAG.fields| == 7
  {
  }

  function PlainAt(o: Obj, i: nat, t: TType): Option<Wire>
    requires i < |o.attrs|
  {
    if o.attrs[i].None? || !o.attrs[i].value.ScalarV? then None else Some(WPlain(t, o.attrs[i].value.atom))
  }

  /** A log: timestamp 1, fields 2. A process: serviceName 1, tags 2. */
  lemma LogAndProcessFields(log: Obj, process: Obj)
    requires Conforms(log, LOG) && Conforms(process, PROCESS)
    ensures var fs := WireFields(log.attrs, LOG.fields);
            && FieldAt(fs, 1) == PlainAt(log, 0, I64)
            && (log.attrs[1].None? ==> FieldAt(fs, 2) == None)
            && (log.attrs[1].Some? ==>
                && log.attrs[1].value.ListV? && ItemsConform(log.attrs[1].value.items, TAG)
                && FieldAt(fs, 2) == Some(WColl(false, STRUCT, WireItems(log.attrs[1].value.items, TAG))))
    ensures var fs := WireFields(process.attrs, PROCESS.fields);
            && FieldAt(fs, 1) == PlainAt(process, 0, STRING)
            && (process.attrs[1].None? ==> FieldAt(fs, 2) == None)
            && (process.attrs[1].Some? ==>
                && process.attrs[1].value.ListV? && ItemsConform(process.attrs[1].value.items, TAG)
                && FieldAt(fs, 2) == Some(WColl(false, STRUCT, WireItems(process.attrs[1].value.items, TAG))))
  {
    hide WireFields, FieldAt;
    WrittenAt(log.attrs, LOG.fields, 0);
    WrittenAt(log.attrs, LOG.fields, 1);
    WrittenAt(process.attrs, PROCESS.fields, 0);
    WrittenAt(process.attrs, PROCESS.fields, 1);
  }
}
