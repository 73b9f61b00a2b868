/** Reading and writing the generated structs: the writer's output read back, and any well-formed input. */
module ThriftStructs {
  import opened Prelude
  import opened ThriftWire

  // ------------------------------------------------------------- thrift_spec

  datatype Kind = Scalar(t: TType) | StructOf(schema: Schema) | ListOf(schema: Schema)

  datatype FieldSpec = FieldSpec(fid: int, kind: Kind)

  datatype Schema = Schema(fields: seq<FieldSpec>)

  /** A struct's attributes in the order of its table; None is an attribute never set. */
  datatype Obj = Obj(attrs: seq<Option<Value>>)

  datatype Value = ScalarV(atom: Atom) | ObjV(obj: Obj) | ListV(items: seq<Obj>)

  const TAG := Schema([
    FieldSpec(1, Scalar(STRING)), FieldSpec(2, Scalar(I32)), FieldSpec(3, Scalar(STRING)), FieldSpec(4, Scalar(DOUBLE)),
    FieldSpec(5, Scalar(BOOL)), FieldSpec(6, Scalar(I64)), FieldSpec(7, Scalar(STRING))])
  const LOG := Schema([FieldSpec(1, Scalar(I64)), FieldSpec(2, ListOf(TAG))])
  const SPAN_REF := Schema([
    FieldSpec(1, Scalar(I32)), FieldSpec(2, Scalar(I64)), FieldSpec(3, Scalar(I64)), FieldSpec(4, Scalar(I64))])
  const SPAN := Schema([
    FieldSpec(1, Scalar(I64)), FieldSpec(2, Scalar(I64)), FieldSpec(3, Scalar(I64)), FieldSpec(4, Scalar(I64)),
    FieldSpec(5, Scalar(STRING)), FieldSpec(6, ListOf(SPAN_REF)), FieldSpec(7, Scalar(I32)), FieldSpec(8, Scalar(I64)),
    FieldSpec(9, Scalar(I64)), FieldSpec(10, ListOf(TAG)), FieldSpec(11, ListOf(LOG))])
  const PROCESS := Schema([FieldSpec(1, Scalar(STRING)), FieldSpec(2, ListOf(TAG))])
  const BATCH := Schema([FieldSpec(1, StructOf(PROCESS)), FieldSpec(2, ListOf(SPAN))])

  function WireType(k: Kind): TType {
    match k
    case Scalar(t) => t
    case StructOf(_) => STRUCT
    case ListOf(_) => LIST
  }

  function Blank(schema: Schema): (o: Obj)
    ensures |o.attrs| == |schema.fields| && forall i :: 0 <= i < |o.attrs| ==> o.attrs[i] == None
  {
    Obj(seq(|schema.fields|, _ => None))
  }

  /** Field ids are distinct, at every depth, and scalars are of plain types. */
  predicate Sound(schema: Schema)
    decreases schema, 1
  {
    DistinctIds(schema.fields) && SoundFields(schema.fields)
  }

  predicate SoundFields(fields: seq<FieldSpec>)
    decreases fields, 0
  {
    fields == [] ||
    (assert fields[0].kind < fields[0];
     KindSound(fields[0].kind) && SoundFields(fields[1..]))
  }

  predicate KindSound(k: Kind)
    decreases k, 2
  {
    match k
    case Scalar(t) => IsPlain(t)
    case StructOf(s) => Sound(s)
    case ListOf(s) => Sound(s)
  }

  /** The branch of the reader for this field id and type; |fields| is the final else. */
  function IndexOf(fields: seq<FieldSpec>, fid: int, t: TType): (i: nat)
    ensures i <= |fields| && (i < |fields| ==> fields[i].fid == fid && WireType(fields[i].kind) == t)
  {
    if fields == [] then 0
    else if fields[0].fid == fid then (if WireType(fields[0].kind) == t then 0 else |fields|)
    else 1 + IndexOf(fields[1..], fid, t)
  }

  // ----------------------------------------------------------------- reading

  /** read: the struct and what is left of the input, or None for a protocol error. */
  function ReadStruct(toks: seq<Token>, schema: Schema): (r: Option<(Obj, seq<Token>)>)
    ensures r.Some? ==> |r.value.1| < |toks|
    decreases |toks|, 1
  {
    if toks != [] && toks[0].StructBegin? then ReadFields(toks[1..], schema, Blank(schema)) else None
  }

  /** The while loop of read. */
  function ReadFields(toks: seq<Token>, schema: Schema, o: Obj): (r: Option<(Obj, seq<Token>)>)
    requires |o.attrs| == |schema.fields|
    ensures r.Some? ==> |r.value.1| < |toks|
    decreases |toks|, 0
  {
    if toks == [] then None
    else if toks[0].FieldStop? then
      (match Expect(Some(toks[1..]), StructEnd)
       case None => None
       case Some(rest) => Some((o, rest)))
    else if !toks[0].FieldBegin? then None
    else
      var i := IndexOf(schema.fields, toks[0].fid, toks[0].ftype);
      if i == |schema.fields| then
        (match Expect(Skip(toks[1..], toks[0].ftype), FieldEnd)
         case None => None
         case Some(rest) => ReadFields(rest, schema, o))
      else
        (match ReadValue(toks[1..], schema.fields[i].kind)
         case None => None
         case Some((v, after)) =>
           (match Expect(Some(after), FieldEnd)
            case None => None
            case Some(rest) => ReadFields(rest, schema, o.(attrs := o.attrs[i := Some(v)]))))
  }

  function ReadValue(toks: seq<Token>, kind: Kind): (r: Option<(Value, seq<Token>)>)
    ensures r.Some? ==> |r.value.1| < |toks|
    decreases |toks|, 2
  {
    match kind
    case Scalar(t) =>
      if toks != [] && toks[0].Plain? && toks[0].t == t then Some((ScalarV(toks[0].atom), toks[1..])) else None
    case StructOf(s) =>
      (match ReadStruct(toks, s)
       case None => None
       case Some((o, rest)) => Some((ObjV(o), rest)))
    case ListOf(s) =>
      if toks == [] || !toks[0].CollBegin? || toks[0].set_ then None
      else
        match ReadElems(toks[1..], toks[0].size, s)
        case None => None
        case Some((items, after)) =>
          match Expect(Some(after), CollEnd)
          case None => None
          case Some(rest) => Some((ListV(items), rest))
  }

  function ReadElems(toks: seq<Token>, n: int, schema: Schema): (r: Option<(seq<Obj>, seq<Token>)>)
    ensures r.Some? ==> |r.value.1| <= |toks|
    decreases |toks|, 2
  {
    if n <= 0 then Some(([], toks))
    else
      match ReadStruct(toks, schema)
      case None => None
      case Some((o, mid)) =>
        match ReadElems(mid, n - 1, schema)
        case None => None
        case Some((items, rest)) => Some(([o] + items, rest))
  }

  // ------------------------------------------------- what a wire struct means

  /** The last field with this id and type, if any. */
  function LastMatch(fields: seq<WireField>, spec: FieldSpec): (r: Option<Wire>)
    ensures r.Some? ==> exists i :: 0 <= i < |fields| && r.value == fields[i].value
    ensures r.Some? ==> TypeOf(r.value) == WireType(spec.kind)
  {
    if fields == [] then None
    else
      var later := LastMatch(fields[1..], spec);
      if later.Some? then (assert exists i :: 0 <= i < |fields[1..]| && later.value == fields[1..][i].value; later)
      else if fields[0].fid == spec.fid && TypeOf(fields[0].value) == WireType(spec.kind) then Some(fields[0].value)
      else None
  }

  /** Lists the reader expects to hold structs do. */
  predicate Readable(w: Wire, kind: Kind)
    decreases w, 2
  {
    match kind
    case Scalar(_) => true
    case StructOf(s) => w.WStruct? ==> ReadableFields(w.fields, s)
    case ListOf(s) => w.WColl? ==> ReadableElems(w.elems, s)
  }

  predicate ReadableFields(fields: seq<WireField>, schema: Schema)
    decreases fields, 0
  {
    fields == [] ||
    (assert fields[0].value < fields[0];
     var i := IndexOf(schema.fields, fields[0].fid, TypeOf(fields[0].value));
     (i < |schema.fields| ==> Readable(fields[0].value, schema.fields[i].kind))
     && ReadableFields(fields[1..], schema))
  }

  predicate ReadableElems(elems: seq<Wire>, schema: Schema)
    decreases elems, 0
  {
    elems == [] || (elems[0].WStruct? && ReadableFields(elems[0].fields, schema) && ReadableElems(elems[1..], schema))
  }

  /** Each attribute is the meaning of the last field with its id and type; other fields mean nothing. */
  function MeaningOf(fields: seq<WireField>, schema: Schema): (o: Obj)
    ensures |o.attrs| == |schema.fields|
    decreases fields, 0
  {
    Obj(seq(|schema.fields|, i requires 0 <= i < |schema.fields| =>
      var m := LastMatch(fields, schema.fields[i]);
      if m.None? then None
      else
        var k :| 0 <= k < |fields| && m.value == fields[k].value;
        assert fields[k].value < fields[k];
        Some(ValueMeaning(m.value, schema.fields[i].kind))))
  }

  function ValueMeaning(w: Wire, kind: Kind): Value
    decreases w, 2
  {
    match kind
    case Scalar(_) => if w.WPlain? then ScalarV(w.atom) else ListV([])
    case StructOf(s) => if w.WStruct? then ObjV(MeaningOf(w.fields, s)) else ListV([])
    case ListOf(s) => if w.WColl? then ListV(ElemMeanings(w.elems, s)) else ListV([])
  }

  function ElemMeanings(elems: seq<Wire>, schema: Schema): seq<Obj>
    decreases elems, 0
  {
    if elems == [] then []
    else [if elems[0].WStruct? then MeaningOf(elems[0].fields, schema) else Blank(schema)]
         + ElemMeanings(elems[1..], schema)
  }

  // -------------------------------------------- reading any well-formed struct

  predicate Matches(f: WireField, spec: FieldSpec) {
    f.fid == spec.fid && TypeOf(f.value) == WireType(spec.kind)
  }

  predicate DistinctIds(fields: seq<FieldSpec>) {
    forall i, j :: 0 <= i < j < |fields| ==> fields[i].fid != fields[j].fid
  }

  lemma {:induction false} IndexIsMatch(fields: seq<FieldSpec>, f: WireField, j: nat)
    requires DistinctIds(fields) && j < |fields|
    ensures IndexOf(fields, f.fid, TypeOf(f.value)) == j <==> Matches(f, fields[j])
  {
    if j == 0 {
    } else if fields[0].fid == f.fid {
      assert fields[j].fid != f.fid;
    } else {
      IndexIsMatch(fields[1..], f, j - 1);
    }
  }

  lemma {:induction false} SoundAt(fields: seq<FieldSpec>, i: nat)
    requires SoundFields(fields) && i < |fields|
    ensures KindSound(fields[i].kind)
  {
    if i > 0 { SoundAt(fields[1..], i - 1); }
  }

  /** Attributes set by what was read last, and otherwise as they were. */
  function Overlay(o: Obj, m: Obj): Obj
    requires |o.attrs| == |m.attrs|
  {
    Obj(seq(|o.attrs|, i requires 0 <= i < |o.attrs| => if m.attrs[i].Some? then m.attrs[i] else o.attrs[i]))
  }

  lemma AttrMeaning(fields: seq<WireField>, schema: Schema, i: nat)
    requires i < |schema.fields|
    ensures MeaningOf(fields, schema).attrs[i] ==
            (var m := LastMatch(fields, schema.fields[i]);
             if m.None? then None else Some(ValueMeaning(m.value, schema.fields[i].kind)))
  {
  }

  /** One more field in front: it shows only where no later field does. */
  lemma OverlayFirst(fields: seq<WireField>, schema: Schema, o: Obj)
    requires fields != [] && DistinctIds(schema.fields) && |o.attrs| == |schema.fields|
    ensures var i := IndexOf(schema.fields, fields[0].fid, TypeOf(fields[0].value));
            var o1 := if i == |schema.fields| then o
                      else Obj(o.attrs[i := Some(ValueMeaning(fields[0].value, schema.fields[i].kind))]);
            Overlay(o, MeaningOf(fields, schema)) == Overlay(o1, MeaningOf(fields[1..], schema))
  {
    hide ValueMeaning;
    var i := IndexOf(schema.fields, fields[0].fid, TypeOf(fields[0].value));
    var o1 := if i == |schema.fields| then o
              else Obj(o.attrs[i := Some(ValueMeaning(fields[0].value, schema.fields[i].kind))]);
    var a, b := Overlay(o, MeaningOf(fields, schema)), Overlay(o1, MeaningOf(fields[1..], schema));
    forall j | 0 <= j < |schema.fields| ensures a.attrs[j] == b.attrs[j] {
      IndexIsMatch(schema.fields, fields[0], j);
      AttrMeaning(fields, schema, j);
      AttrMeaning(fields[1..], schema, j);
    }
    assert a.attrs == b.attrs;
  }

  /** read gives every well-formed struct its meaning, and consumes exactly its tokens. */
  lemma {:induction false} ReadStructMeans(fields: seq<WireField>, schema: Schema, rest: seq<Token>)
    requires FieldsWellFormed(fields) && ReadableFields(fields, schema) && Sound(schema)
    ensures ReadStruct(Tokens(WStruct(fields)) + rest, schema) == Some((MeaningOf(fields, schema), rest))
    decreases fields, 1
  {
    assert (Tokens(WStruct(fields)) + rest)[1..] == FieldTokens(fields) + ([FieldStop, StructEnd] + rest);
    ReadFieldsMeans(fields, schema, Blank(schema), rest);
    assert Overlay(Blank(schema), MeaningOf(fields, schema)).attrs == MeaningOf(fields, schema).attrs;
  }

  lemma {:induction false} ReadFieldsMeans(fields: seq<WireField>, schema: Schema, o: Obj, rest: seq<Token>)
    requires FieldsWellFormed(fields) && ReadableFields(fields, schema) && Sound(schema) && |o.attrs| == |schema.fields|
    ensures ReadFields(FieldTokens(fields) + ([FieldStop, StructEnd] + rest), schema, o)
            == Some((Overlay(o, MeaningOf(fields, schema)), rest))
    decreases fields, 0
  {
    hide ValueMeaning, MeaningOf, Overlay, Tokens, Skip, ReadValue;
    var tail := [FieldStop, StructEnd] + rest;
    if fields == [] {
      assert FieldTokens(fields) + tail == tail && tail[1..] == [StructEnd] + rest && tail[1..][1..] == rest;
      NothingOverlaid(o, schema);
    } else {
      var more := FieldTokens(fields[1..]) + tail;
      var i := IndexOf(schema.fields, fields[0].fid, TypeOf(fields[0].value));
      assert fields[0].value < fields[0];
      FirstFieldTokens(fields, tail);
      assert ([FieldEnd] + more)[1..] == more;
      OverlayFirst(fields, schema, o);
      if i == |schema.fields| {
        SkipConsumes(fields[0].value, [FieldEnd] + more);
        ReadFieldsMeans(fields[1..], schema, o, rest);
      } else {
        SoundAt(schema.fields, i);
        ReadValueMeans(fields[0].value, schema.fields[i].kind, [FieldEnd] + more);
        ReadFieldsMeans(fields[1..], schema,
                        o.(attrs := o.attrs[i := Some(ValueMeaning(fields[0].value, schema.fields[i].kind))]), rest);
      }
    }
  }

  lemma NothingOverlaid(o: Obj, schema: Schema)
    requires |o.attrs| == |schema.fields|
    ensures Overlay(o, MeaningOf([], schema)) == o
  {
  }

  lemma {:induction false} ReadValueMeans(w: Wire, kind: Kind, rest: seq<Token>)
    requires WellFormed(w) && Readable(w, kind) && TypeOf(w) == WireType(kind)
    requires KindSound(kind)
    ensures ReadValue(Tokens(w) + rest, kind) == Some((ValueMeaning(w, kind), rest))
    decreases w, 2
  {
    match kind
    case Scalar(t) =>
      assert w.WPlain?;
      assert (Tokens(w) + rest)[1..] == rest;
    case StructOf(s) =>
      hide ReadStruct, Tokens, MeaningOf;
      ReadStructMeans(w.fields, s, rest);
    case ListOf(s) =>
      hide ReadElems, ElemTokens, ElemMeanings;
      assert (Tokens(w) + rest)[1..] == ElemTokens(w.elems) + ([CollEnd] + rest);
      ReadElemsMeans(w.elems, s, w.etype, [CollEnd] + rest);
      assert ([CollEnd] + rest)[1..] == rest;
  }

  lemma {:induction false} ReadElemsMeans(elems: seq<Wire>, schema: Schema, etype: TType, rest: seq<Token>)
    requires ElemsWellFormed(elems, etype) && ReadableElems(elems, schema) && Sound(schema)
    ensures ReadElems(ElemTokens(elems) + rest, |elems|, schema) == Some((ElemMeanings(elems, schema), rest))
    decreases elems, 0
  {
    if elems == [] {
      assert ElemTokens(elems) + rest == rest;
    } else {
      var more := ElemTokens(elems[1..]) + rest;
      assert ElemTokens(elems) + rest == Tokens(elems[0]) + more;
      ReadStructMeans(elems[0].fields, schema, more);
      ReadElemsMeans(elems[1..], schema, etype, rest);
    }
  }
}
