/** The writer, the round trip, and fields a reader does not know. */
module ThriftRoundTrip {
  import opened Prelude
  import opened ThriftWire
  import opened ThriftStructs

  // ------------------------------------------------------------------ writing

  predicate Conforms(o: Obj, schema: Schema)
    decreases o, 1
  {
    |o.attrs| == |schema.fields| && AttrsConform(o.attrs, schema.fields)
  }

  predicate AttrsConform(attrs: seq<Option<Value>>, specs: seq<FieldSpec>)
    requires |attrs| == |specs|
    decreases attrs, 0
  {
    attrs == [] ||
    ((attrs[0].Some? ==> (assert attrs[0].value < attrs[0]; ValueConforms(attrs[0].value, specs[0].kind)))
     && AttrsConform(attrs[1..], specs[1..]))
  }

  predicate ValueConforms(v: Value, kind: Kind)
    decreases v, 2
  {
    match kind
    case Scalar(_) => v.ScalarV?
    case StructOf(s) => v.ObjV? && Conforms(v.obj, s)
    case ListOf(s) => v.ListV? && ItemsConform(v.items, s)
  }

  predicate ItemsConform(items: seq<Obj>, schema: Schema)
    decreases items, 0
  {
    items == [] || (Conforms(items[0], schema) && ItemsConform(items[1..], schema))
  }

  /** write: the fields whose attribute is not None, in the order of the table. */
  function WireFields(attrs: seq<Option<Value>>, specs: seq<FieldSpec>): seq<WireField>
    requires |attrs| == |specs| && AttrsConform(attrs, specs)
    decreases attrs, 0
  {
    if attrs == [] then []
    else if attrs[0].None? then WireFields(attrs[1..], specs[1..])
    else
      assert attrs[0].value < attrs[0];
      [WireField(specs[0].fid, WireValue(attrs[0].value, specs[0].kind))] + WireFields(attrs[1..], specs[1..])
  }

  function WireValue(v: Value, kind: Kind): (w: Wire)
    requires ValueConforms(v, kind)
    ensures TypeOf(w) == WireType(kind) || (kind.Scalar? && !IsPlain(kind.t))
    decreases v, 2
  {
    match kind
    case Scalar(t) => WPlain(t, v.atom)
    case StructOf(s) => WireStruct(v.obj, s)
    case ListOf(s) => WColl(false, STRUCT, WireItems(v.items, s))
  }

  function WireStruct(o: Obj, schema: Schema): (w: Wire)
    requires Conforms(o, schema)
    ensures w == WStruct(WireFields(o.attrs, schema.fields))
    decreases o, 1
  {
    WStruct(WireFields(o.attrs, schema.fields))
  }

  function WireItems(items: seq<Obj>, schema: Schema): (r: seq<Wire>)
    requires ItemsConform(items, schema)
    ensures |r| == |items|
    decreases items, 0
  {
    if items == [] then []
    else [WireStruct(items[0], schema)] + WireItems(items[1..], schema)
  }

  /** The tokens write emits for a struct. */
  function Written(o: Obj, schema: Schema): seq<Token>
    requires Conforms(o, schema)
  {
    Tokens(WireStruct(o, schema))
  }

  // --------------------------------------------------------------- round trip

  lemma {:induction false} NoMatch(attrs: seq<Option<Value>>, specs: seq<FieldSpec>, spec: FieldSpec)
    requires |attrs| == |specs| && AttrsConform(attrs, specs)
    requires forall j :: 0 <= j < |specs| ==> specs[j].fid != spec.fid
    ensures LastMatch(WireFields(attrs, specs), spec) == None
    decreases |attrs|
  {
    hide WireValue;
    if attrs != [] {
      NoMatch(attrs[1..], specs[1..], spec);
      if attrs[0].Some? {
        var fs := WireFields(attrs, specs);
        assert fs[1..] == WireFields(attrs[1..], specs[1..]) && fs[0].fid == specs[0].fid;
      }
    }
  }

  lemma {:induction false} MatchWritten(attrs: seq<Option<Value>>, specs: seq<FieldSpec>, i: nat)
    requires |attrs| == |specs| && AttrsConform(attrs, specs) && SoundFields(specs) && DistinctIds(specs) && i < |specs|
    ensures attrs[i].Some? ==> ValueConforms(attrs[i].value, specs[i].kind)
    ensures LastMatch(WireFields(attrs, specs), specs[i])
            == if attrs[i].None? then None else Some(WireValue(attrs[i].value, specs[i].kind))
    decreases |attrs|
  {
    hide WireValue;
    var fs := WireFields(attrs, specs);
    if attrs[0].Some? { assert fs[1..] == WireFields(attrs[1..], specs[1..]); }
    SoundAt(specs, i);
    if i == 0 {
      NoMatch(attrs[1..], specs[1..], specs[0]);
    } else {
      MatchWritten(attrs[1..], specs[1..], i - 1);
    }
  }

  /** What write emits is well formed and readable, and means the struct written. */
  lemma {:induction false} WrittenMeans(o: Obj, schema: Schema)
    requires Conforms(o, schema) && Sound(schema)
    ensures var fs := WireFields(o.attrs, schema.fields);
            FieldsWellFormed(fs) && ReadableFields(fs, schema) && MeaningOf(fs, schema) == o
    decreases o, 1
  {
    var fs := WireFields(o.attrs, schema.fields);
    WrittenReadable(o.attrs, schema.fields, schema);
    forall i | 0 <= i < |o.attrs| ensures MeaningOf(fs, schema).attrs[i] == o.attrs[i] {
      MatchWritten(o.attrs, schema.fields, i);
      AttrMeaning(fs, schema, i);
      SoundAt(schema.fields, i);
      if o.attrs[i].Some? {
        assert o.attrs[i].value < o.attrs[i];
        ValueWrittenMeans(o.attrs[i].value, schema.fields[i].kind);
      }
    }
    assert MeaningOf(fs, schema).attrs == o.attrs;
  }

  /** A tail of the attributes, against the whole table. */
  lemma {:induction false} WrittenReadable(attrs: seq<Option<Value>>, specs: seq<FieldSpec>, schema: Schema)
    requires |attrs| == |specs| && AttrsConform(attrs, specs) && SoundFields(specs) && DistinctIds(schema.fields)
    requires |specs| <= |schema.fields| && specs == schema.fields[|schema.fields| - |specs|..]
    ensures var fs := WireFields(attrs, specs); FieldsWellFormed(fs) && ReadableFields(fs, schema)
    decreases attrs, 0
  {
    if attrs != [] {
      WrittenReadable(attrs[1..], specs[1..], schema);
      if attrs[0].Some? {
        assert attrs[0].value < attrs[0];
        ValueWrittenMeans(attrs[0].value, specs[0].kind);
        var f := WireField(specs[0].fid, WireValue(attrs[0].value, specs[0].kind));
        IndexIsMatch(schema.fields, f, |schema.fields| - |specs|);
        assert WireFields(attrs, specs) == [f] + WireFields(attrs[1..], specs[1..]);
      }
    }
  }

  lemma {:induction false} ValueWrittenMeans(v: Value, kind: Kind)
    requires ValueConforms(v, kind)
    requires KindSound(kind)
    ensures var w := WireValue(v, kind); WellFormed(w) && Readable(w, kind) && ValueMeaning(w, kind) == v
    decreases v, 2
  {
    match kind
    case Scalar(_) =>
    case StructOf(s) => WrittenMeans(v.obj, s);
    case ListOf(s) => ItemsWrittenMean(v.items, s);
  }

  lemma {:induction false} ItemsWrittenMean(items: seq<Obj>, schema: Schema)
    requires ItemsConform(items, schema) && Sound(schema)
    ensures var ws := WireItems(items, schema);
            ElemsWellFormed(ws, STRUCT) && ReadableElems(ws, schema) && ElemMeanings(ws, schema) == items
    decreases items, 0
  {
    if items != [] {
      WrittenMeans(items[0], schema);
      ItemsWrittenMean(items[1..], schema);
      var ws := WireItems(items, schema);
      assert ws[1..] == WireItems(items[1..], schema) && ws[0] == WStruct(WireFields(items[0].attrs, schema.fields));
    }
  }

  /** read after write: the same struct, and exactly its tokens consumed. */
  lemma RoundTrip(o: Obj, schema: Schema, rest: seq<Token>)
    requires Conforms(o, schema) && Sound(schema)
    ensures ReadStruct(Written(o, schema) + rest, schema) == Some((o, rest))
  {
    WrittenMeans(o, schema);
    ReadStructMeans(WireFields(o.attrs, schema.fields), schema, rest);
  }

  /** Every batch: process, spans, references, tags and logs, absent and empty lists told apart. */
  lemma BatchRoundTrip(batch: Obj, rest: seq<Token>)
    requires Conforms(batch, BATCH)
    ensures ReadStruct(Written(batch, BATCH) + rest, BATCH) == Some((batch, rest))
  {
    TablesSound();
    RoundTrip(batch, BATCH, rest);
  }

  lemma {:induction false} SoundFromKinds(fields: seq<FieldSpec>)
    requires forall i :: 0 <= i < |fields| ==> KindSound(fields[i].kind)
    ensures SoundFields(fields)
  {
    if fields != [] { SoundFromKinds(fields[1..]); }
  }

  lemma SpanRefSound()
    ensures Sound(SPAN_REF)
  {
  }

  lemma TagIds()
    ensures DistinctIds(TAG.fields)
  {
  }

  lemma TagSound()
    ensures Sound(TAG)
  {
    TagIds();
    hide Sound, SoundFields, DistinctIds;
    SoundFromKinds(TAG.fields);
    IsSound(TAG);
  }

  lemma LogSound()
    ensures Sound(LOG) && Sound(PROCESS)
  {
    TagSound();
    hide Sound;
    assert KindSound(ListOf(TAG));
    SoundFromKinds(LOG.fields);
    SoundFromKinds(PROCESS.fields);
    IsSound(LOG);
    IsSound(PROCESS);
  }

  lemma IsSound(s: Schema)
    requires DistinctIds(s.fields) && SoundFields(s.fields)
    ensures Sound(s)
  {
  }

  lemma SpanSound()
    ensures Sound(SPAN)
  {
    TagSound();
    LogSound();
    SpanRefSound();
    hide Sound, SoundFields;
    assert KindSound(ListOf(TAG)) && KindSound(ListOf(LOG)) && KindSound(ListOf(SPAN_REF));
    SoundFromKinds(SPAN.fields);
    IsSound(SPAN);
  }

  /** The six tables have distinct ids and nest only such tables. */
  lemma TablesSound()
    ensures Sound(TAG) && Sound(LOG) && Sound(SPAN_REF) && Sound(SPAN) && Sound(PROCESS) && Sound(BATCH)
  {
    TagSound();
    LogSound();
    SpanRefSound();
    SpanSound();
    hide Sound, SoundFields;
    assert KindSound(StructOf(PROCESS)) && KindSound(ListOf(SPAN));
    SoundFromKinds(BATCH.fields);
    IsSound(BATCH);
  }

  // ----------------------------------------------------------- unknown fields

  /** The struct without the fields this reader does not know, at every depth. */
  function Strip(fields: seq<WireField>, schema: Schema): seq<WireField>
    decreases fields, 0
  {
    if fields == [] then []
    else
      assert fields[0].value < fields[0];
      var i := IndexOf(schema.fields, fields[0].fid, TypeOf(fields[0].value));
      (if i == |schema.fields| then []
       else [WireField(fields[0].fid, StripValue(fields[0].value, schema.fields[i].kind))])
      + Strip(fields[1..], schema)
  }

  function StripValue(w: Wire, kind: Kind): (r: Wire)
    ensures TypeOf(r) == TypeOf(w)
    decreases w, 2
  {
    match kind
    case Scalar(_) => w
    case StructOf(s) => if w.WStruct? then WStruct(Strip(w.fields, s)) else w
    case ListOf(s) => if w.WColl? then w.(elems := StripElems(w.elems, s)) else w
  }

  function StripElems(elems: seq<Wire>, schema: Schema): seq<Wire>
    decreases elems, 0
  {
    if elems == [] then []
    else [if elems[0].WStruct? then WStruct(Strip(elems[0].fields, schema)) else elems[0]]
         + StripElems(elems[1..], schema)
  }

  lemma {:induction false} LastMatchStripped(fields: seq<WireField>, schema: Schema, i: nat)
    requires DistinctIds(schema.fields) && i < |schema.fields|
    ensures LastMatch(Strip(fields, schema), schema.fields[i]) ==
            (var m := LastMatch(fields, schema.fields[i]);
             if m.None? then None else Some(StripValue(m.value, schema.fields[i].kind)))
    decreases |fields|
  {
    hide StripValue;
    if fields != [] {
      LastMatchStripped(fields[1..], schema, i);
      IndexIsMatch(schema.fields, fields[0], i);
      var k := IndexOf(schema.fields, fields[0].fid, TypeOf(fields[0].value));
      if k < |schema.fields| {
        var f := WireField(fields[0].fid, StripValue(fields[0].value, schema.fields[k].kind));
        var s := Strip(fields, schema);
        assert s == [f] + Strip(fields[1..], schema) && s[1..] == Strip(fields[1..], schema);
      } else {
        assert Strip(fields, schema) == Strip(fields[1..], schema);
      }
    }
  }

  lemma {:induction false} StripKeepsMeaning(fields: seq<WireField>, schema: Schema)
    requires Sound(schema)
    ensures MeaningOf(Strip(fields, schema), schema) == MeaningOf(fields, schema)
    decreases fields, 1
  {
    var a, b := MeaningOf(Strip(fields, schema), schema), MeaningOf(fields, schema);
    forall i | 0 <= i < |schema.fields| ensures a.attrs[i] == b.attrs[i] {
      LastMatchStripped(fields, schema, i);
      AttrMeaning(fields, schema, i);
      AttrMeaning(Strip(fields, schema), schema, i);
      SoundAt(schema.fields, i);
      var m := LastMatch(fields, schema.fields[i]);
      if m.Some? {
        var k :| 0 <= k < |fields| && m.value == fields[k].value;
        assert fields[k].value < fields[k];
        StripValueKeepsMeaning(m.value, schema.fields[i].kind);
      }
    }
    assert a.attrs == b.attrs;
  }

  lemma {:induction false} StripValueKeepsMeaning(w: Wire, kind: Kind)
    requires KindSound(kind)
    ensures ValueMeaning(StripValue(w, kind), kind) == ValueMeaning(w, kind)
    decreases w, 2
  {
    match kind
    case Scalar(_) =>
    case StructOf(s) => if w.WStruct? { StripKeepsMeaning(w.fields, s); }
    case ListOf(s) => if w.WColl? { StripElemsKeepMeaning(w.elems, s); }
  }

  lemma {:induction false} StripElemsKeepMeaning(elems: seq<Wire>, schema: Schema)
    requires Sound(schema)
    ensures ElemMeanings(StripElems(elems, schema), schema) == ElemMeanings(elems, schema)
    decreases elems, 0
  {
    if elems != [] {
      if elems[0].WStruct? { StripKeepsMeaning(elems[0].fields, schema); }
      StripElemsKeepMeaning(elems[1..], schema);
    }
  }

  lemma {:induction false} StripInsert(a: seq<WireField>, junk: WireField, b: seq<WireField>, schema: Schema)
    requires IndexOf(schema.fields, junk.fid, TypeOf(junk.value)) == |schema.fields|
    ensures Strip(a + ([junk] + b), schema) == Strip(a + b, schema)
  {
    if a == [] {
      assert a + ([junk] + b) == [junk] + b && a + b == b && ([junk] + b)[1..] == b;
    } else {
      assert (a + ([junk] + b))[1..] == a[1..] + ([junk] + b) && (a + b)[1..] == a[1..] + b;
      StripInsert(a[1..], junk, b, schema);
    }
  }

  /** Two well-formed structs that differ only in fields the reader does not know (an unknown id, or a known id
      with another type), wherever and however deep they stand, are read as the same struct. */
  lemma UnknownFieldsIgnored(fields: seq<WireField>, others: seq<WireField>, schema: Schema, rest: seq<Token>)
    requires Sound(schema) && Strip(fields, schema) == Strip(others, schema)
    requires FieldsWellFormed(fields) && ReadableFields(fields, schema)
    requires FieldsWellFormed(others) && ReadableFields(others, schema)
    ensures ReadStruct(Tokens(WStruct(fields)) + rest, schema) == ReadStruct(Tokens(WStruct(others)) + rest, schema)
    ensures ReadStruct(Tokens(WStruct(fields)) + rest, schema) == Some((MeaningOf(Strip(fields, schema), schema), rest))
  {
    StripKeepsMeaning(fields, schema);
    StripKeepsMeaning(others, schema);
    ReadStructMeans(fields, schema, rest);
    ReadStructMeans(others, schema, rest);
  }

  // ------------------------------------------------------- inserting unknown fields

  /** big is small with fields inserted that this reader does not know, anywhere and at any depth. */
  predicate Extends(small: seq<WireField>, big: seq<WireField>, schema: Schema)
    decreases big, 0
  {
    if big == [] then small == []
    else
      assert big[0].value < big[0];
      var i := IndexOf(schema.fields, big[0].fid, TypeOf(big[0].value));
      || (i == |schema.fields| && WellFormed(big[0].value) && Extends(small, big[1..], schema))
      || (small != [] && small[0].fid == big[0].fid
          && (if i == |schema.fields| then small[0].value == big[0].value
              else ExtendsValue(small[0].value, big[0].value, schema.fields[i].kind))
          && Extends(small[1..], big[1..], schema))
  }

  predicate ExtendsValue(small: Wire, big: Wire, kind: Kind)
    decreases big, 2
  {
    match kind
    case Scalar(_) => small == big
    case StructOf(s) => small == big || (small.WStruct? && big.WStruct? && Extends(small.fields, big.fields, s))
    case ListOf(s) =>
      small == big || (small.WColl? && big.WColl? && small.(elems := big.elems) == big
                       && ExtendsElems(small.elems, big.elems, s))
  }

  predicate ExtendsElems(small: seq<Wire>, big: seq<Wire>, schema: Schema)
    decreases big, 0
  {
    |small| == |big| &&
    (big == [] ||
     ((small[0] == big[0]
       || (small[0].WStruct? && big[0].WStruct? && Extends(small[0].fields, big[0].fields, schema)))
      && ExtendsElems(small[1..], big[1..], schema)))
  }

  /** An extended struct is well formed and readable when the struct is, and strips to the same. */
  lemma {:induction false} ExtendsStrips(small: seq<WireField>, big: seq<WireField>, schema: Schema)
    requires Extends(small, big, schema) && FieldsWellFormed(small) && ReadableFields(small, schema)
    ensures FieldsWellFormed(big) && ReadableFields(big, schema) && Strip(small, schema) == Strip(big, schema)
    decreases big, 0
  {
    if big != [] {
      assert big[0].value < big[0];
      var i := IndexOf(schema.fields, big[0].fid, TypeOf(big[0].value));
      if i == |schema.fields| && WellFormed(big[0].value) && Extends(small, big[1..], schema) {
        ExtendsStrips(small, big[1..], schema);
      } else {
        assert small[0].value < small[0];
        if i < |schema.fields| { ExtendsValueStrips(small[0].value, big[0].value, schema.fields[i].kind); }
        ExtendsStrips(small[1..], big[1..], schema);
      }
    }
  }

  lemma {:induction false} ExtendsValueStrips(small: Wire, big: Wire, kind: Kind)
    requires ExtendsValue(small, big, kind)
    ensures TypeOf(small) == TypeOf(big)
    ensures WellFormed(small) && Readable(small, kind) ==>
              WellFormed(big) && Readable(big, kind) && StripValue(small, kind) == StripValue(big, kind)
    decreases big, 2
  {
    if small != big && WellFormed(small) && Readable(small, kind) {
      match kind
      case Scalar(_) =>
      case StructOf(s) => ExtendsStrips(small.fields, big.fields, s);
      case ListOf(s) => ExtendsElemsStrip(small.elems, big.elems, small.etype, s);
    }
  }

  lemma {:induction false} ExtendsElemsStrip(small: seq<Wire>, big: seq<Wire>, etype: TType, schema: Schema)
    requires ExtendsElems(small, big, schema) && ElemsWellFormed(small, etype) && ReadableElems(small, schema)
    ensures ElemsWellFormed(big, etype) && ReadableElems(big, schema)
    ensures StripElems(small, schema) == StripElems(big, schema)
    decreases big, 0
  {
    if big != [] {
      if small[0] != big[0] { ExtendsStrips(small[0].fields, big[0].fields, schema); }
      ExtendsElemsStrip(small[1..], big[1..], etype, schema);
    }
  }

  /** Inserting well-formed unknown fields anywhere in a readable struct, at any depth and in any number, leaves the
      enlarged struct readable and does not change what is read. */
  lemma InsertedFieldsIgnored(small: seq<WireField>, big: seq<WireField>, schema: Schema, rest: seq<Token>)
    requires Sound(schema) && Extends(small, big, schema)
    requires FieldsWellFormed(small) && ReadableFields(small, schema)
    ensures FieldsWellFormed(big) && ReadableFields(big, schema)
    ensures ReadStruct(Tokens(WStruct(big)) + rest, schema) == ReadStruct(Tokens(WStruct(small)) + rest, schema)
    ensures ReadStruct(Tokens(WStruct(big)) + rest, schema) == Some((MeaningOf(small, schema), rest))
  {
    ExtendsStrips(small, big, schema);
    UnknownFieldsIgnored(small, big, schema, rest);
    ReadStructMeans(small, schema, rest);
  }

  lemma {:induction false} ExtendsSelf(fields: seq<WireField>, schema: Schema)
    ensures Extends(fields, fields, schema)
  {
    if fields != [] { ExtendsSelf(fields[1..], schema); }
  }

  lemma {:induction false} InsertionExtends(a: seq<WireField>, junk: WireField, b: seq<WireField>, schema: Schema)
    requires IndexOf(schema.fields, junk.fid, TypeOf(junk.value)) == |schema.fields| && WellFormed(junk.value)
    ensures Extends(a + b, a + ([junk] + b), schema)
    decreases |a|
  {
    var big := a + ([junk] + b);
    if a == [] {
      assert big == [junk] + b && a + b == b && big[1..] == b;
      ExtendsSelf(b, schema);
    } else {
      assert big[1..] == a[1..] + ([junk] + b) && (a + b)[1..] == a[1..] + b;
      InsertionExtends(a[1..], junk, b, schema);
    }
  }

  /** One unknown field put anywhere into what write emits: read still rebuilds the struct written. */
  lemma WrittenWithUnknownField(o: Obj, schema: Schema, a: seq<WireField>, junk: WireField, b: seq<WireField>,
                                rest: seq<Token>)
    requires Conforms(o, schema) && Sound(schema) && WireFields(o.attrs, schema.fields) == a + b
    requires IndexOf(schema.fields, junk.fid, TypeOf(junk.value)) == |schema.fields| && WellFormed(junk.value)
    ensures ReadStruct(Tokens(WStruct(a + ([junk] + b))) + rest, schema) == Some((o, rest))
  {
    WrittenMeans(o, schema);
    InsertionExtends(a, junk, b, schema);
    InsertedFieldsIgnored(a + b, a + ([junk] + b), schema, rest);
  }
}
