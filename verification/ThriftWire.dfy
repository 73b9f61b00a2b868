/** The generated struct readers and writers, over typed protocol tokens. The six structs differ only in their
    thrift_spec tables, so one reader and one writer take the table as a parameter. */
module ThriftWire {
  import opened Prelude

  datatype TType = BOOL | BYTE | I16 | I32 | I64 | DOUBLE | STRING | STRUCT | MAP | SET | LIST

  datatype Atom = Bool(b: bool) | Int(n: int) | Double(d: real) | Text(s: string)

  datatype Token =
    | StructBegin | StructEnd
    | FieldBegin(ftype: TType, fid: int) | FieldEnd | FieldStop
    | CollBegin(set_: bool, etype: TType, size: int) | CollEnd
    | MapBegin(ktype: TType, vtype: TType, msize: int) | MapEnd
    | Plain(t: TType, atom: Atom)

  predicate IsPlain(t: TType) {
    !(t.STRUCT? || t.MAP? || t.SET? || t.LIST?)
  }

  // ------------------------------------------------- well-formed wire values

  datatype WireField = WireField(fid: int, value: Wire)

  datatype WireEntry = WireEntry(key: Wire, value: Wire)

  /** Any value a protocol can carry, of the shape its types announce. */
  datatype Wire =
    | WPlain(t: TType, atom: Atom)
    | WStruct(fields: seq<WireField>)
    | WColl(set_: bool, etype: TType, elems: seq<Wire>)
    | WMap(ktype: TType, vtype: TType, entries: seq<WireEntry>)

  function TypeOf(w: Wire): TType {
    match w
    case WPlain(t, _) => t
    case WStruct(_) => STRUCT
    case WColl(s, _, _) => if s then SET else LIST
    case WMap(_, _, _) => MAP
  }

  predicate WellFormed(w: Wire)
    decreases w, 1
  {
    match w
    case WPlain(t, _) => IsPlain(t)
    case WStruct(fields) => FieldsWellFormed(fields)
    case WColl(_, etype, elems) => ElemsWellFormed(elems, etype)
    case WMap(k, v, entries) => EntriesWellFormed(entries, k, v)
  }

  predicate FieldsWellFormed(fields: seq<WireField>)
    decreases fields, 0
  {
    fields == [] ||
    (assert fields[0].value < fields[0]; WellFormed(fields[0].value) && FieldsWellFormed(fields[1..]))
  }

  predicate ElemsWellFormed(elems: seq<Wire>, etype: TType)
    decreases elems, 0
  {
    elems == [] || (TypeOf(elems[0]) == etype && WellFormed(elems[0]) && ElemsWellFormed(elems[1..], etype))
  }

  predicate EntriesWellFormed(entries: seq<WireEntry>, k: TType, v: TType)
    decreases entries, 0
  {
    entries == [] ||
    (assert entries[0].key < entries[0] && entries[0].value < entries[0];
     TypeOf(entries[0].key) == k && TypeOf(entries[0].value) == v &&
     WellFormed(entries[0].key) && WellFormed(entries[0].value) && EntriesWellFormed(entries[1..], k, v))
  }

  /** The tokens of a value. */
  function Tokens(w: Wire): seq<Token>
    decreases w, 1
  {
    match w
    case WPlain(t, a) => [Plain(t, a)]
    case WStruct(fields) => [StructBegin] + FieldTokens(fields) + [FieldStop, StructEnd]
    case WColl(s, etype, elems) => [CollBegin(s, etype, |elems|)] + ElemTokens(elems) + [CollEnd]
    case WMap(k, v, entries) => [MapBegin(k, v, |entries|)] + EntryTokens(entries) + [MapEnd]
  }

  function FieldTokens(fields: seq<WireField>): seq<Token>
    decreases fields, 0
  {
    if fields == [] then []
    else
      assert fields[0].value < fields[0];
      [FieldBegin(TypeOf(fields[0].value), fields[0].fid)] + Tokens(fields[0].value) + [FieldEnd]
      + FieldTokens(fields[1..])
  }

  function ElemTokens(elems: seq<Wire>): seq<Token>
    decreases elems, 0
  {
    if elems == [] then [] else Tokens(elems[0]) + ElemTokens(elems[1..])
  }

  function EntryTokens(entries: seq<WireEntry>): seq<Token>
    decreases entries, 0
  {
    if entries == [] then []
    else
      assert entries[0].key < entries[0] && entries[0].value < entries[0];
      Tokens(entries[0].key) + Tokens(entries[0].value) + EntryTokens(entries[1..])
  }

  // ------------------------------------------------------------------ skipping

  /** skip(ttype): what is left of the input, or None for a protocol error. */
  function Skip(toks: seq<Token>, t: TType): (r: Option<seq<Token>>)
    ensures r.Some? ==> |r.value| < |toks|
    decreases |toks|, 1
  {
    if toks == [] then None
    else
      var rest := toks[1..];
      match t
      case STRUCT => if toks[0].StructBegin? then SkipFields(rest) else None
      case LIST =>
        if toks[0].CollBegin? && !toks[0].set_ then Expect(SkipElems(rest, toks[0].etype, toks[0].size), CollEnd)
          else None
      case SET =>
        if toks[0].CollBegin? && toks[0].set_ then Expect(SkipElems(rest, toks[0].etype, toks[0].size), CollEnd)
          else None
      case MAP =>
        if toks[0].MapBegin? then Expect(SkipEntries(rest, toks[0].ktype, toks[0].vtype, toks[0].msize), MapEnd)
          else None
      case _ => if toks[0].Plain? && toks[0].t == t then Some(rest) else None
  }

  function Expect(toks: Option<seq<Token>>, token: Token): (r: Option<seq<Token>>)
    ensures r.Some? ==> toks.Some? && toks.value != [] && r.value == toks.value[1..]
  {
    if toks.Some? && toks.value != [] && toks.value[0] == token then Some(toks.value[1..]) else None
  }

  function SkipFields(toks: seq<Token>): (r: Option<seq<Token>>)
    ensures r.Some? ==> |r.value| < |toks|
    decreases |toks|, 0
  {
    if toks == [] then None
    else if toks[0].FieldStop? then Expect(Some(toks[1..]), StructEnd)
    else if !toks[0].FieldBegin? then None
    else
      match Expect(Skip(toks[1..], toks[0].ftype), FieldEnd)
      case None => None
      case Some(rest) => SkipFields(rest)
  }

  function SkipElems(toks: seq<Token>, t: TType, n: int): (r: Option<seq<Token>>)
    ensures r.Some? ==> |r.value| <= |toks|
    decreases |toks|, 2
  {
    if n <= 0 then Some(toks)
    else
      match Skip(toks, t)
      case None => None
      case Some(rest) => SkipElems(rest, t, n - 1)
  }

  function SkipEntries(toks: seq<Token>, k: TType, v: TType, n: int): (r: Option<seq<Token>>)
    ensures r.Some? ==> |r.value| <= |toks|
    decreases |toks|, 2
  {
    if n <= 0 then Some(toks)
    else
      match Skip(toks, k)
      case None => None
      case Some(mid) =>
        match Skip(mid, v)
        case None => None
        case Some(rest) => SkipEntries(rest, k, v, n - 1)
  }

  lemma SkipStruct(fields: seq<WireField>, rest: seq<Token>)
    requires SkipFields(FieldTokens(fields) + ([FieldStop, StructEnd] + rest)) == Some(rest)
    ensures Skip(Tokens(WStruct(fields)) + rest, STRUCT) == Some(rest)
  {
    hide SkipFields, FieldTokens;
    assert (Tokens(WStruct(fields)) + rest)[1..] == FieldTokens(fields) + ([FieldStop, StructEnd] + rest);
  }

  lemma SkipColl(set_: bool, etype: TType, elems: seq<Wire>, rest: seq<Token>)
    requires SkipElems(ElemTokens(elems) + ([CollEnd] + rest), etype, |elems|) == Some([CollEnd] + rest)
    ensures Skip(Tokens(WColl(set_, etype, elems)) + rest, if set_ then SET else LIST) == Some(rest)
  {
    hide SkipElems, ElemTokens;
    assert (Tokens(WColl(set_, etype, elems)) + rest)[1..] == ElemTokens(elems) + ([CollEnd] + rest);
  }

  lemma SkipMap(k: TType, v: TType, entries: seq<WireEntry>, rest: seq<Token>)
    requires SkipEntries(EntryTokens(entries) + ([MapEnd] + rest), k, v, |entries|) == Some([MapEnd] + rest)
    ensures Skip(Tokens(WMap(k, v, entries)) + rest, MAP) == Some(rest)
  {
    hide SkipEntries, EntryTokens;
    assert (Tokens(WMap(k, v, entries)) + rest)[1..] == EntryTokens(entries) + ([MapEnd] + rest);
  }

  /** skip consumes exactly the tokens of a well-formed value of the announced type. */
  lemma {:induction false} SkipConsumes(w: Wire, rest: seq<Token>)
    requires WellFormed(w)
    ensures Skip(Tokens(w) + rest, TypeOf(w)) == Some(rest)
    decreases w, 1
  {
    match w
    case WPlain(t, a) => assert ([Plain(t, a)] + rest)[1..] == rest;
    case WStruct(fields) =>
      SkipFieldsConsumes(fields, rest);
      SkipStruct(fields, rest);
    case WColl(s, etype, elems) =>
      SkipElemsConsumes(elems, etype, [CollEnd] + rest);
      SkipColl(s, etype, elems, rest);
    case WMap(k, v, entries) =>
      SkipEntriesConsumes(entries, k, v, [MapEnd] + rest);
      SkipMap(k, v, entries, rest);
  }

  lemma {:induction false} SkipFieldsConsumes(fields: seq<WireField>, rest: seq<Token>)
    requires FieldsWellFormed(fields)
    ensures SkipFields(FieldTokens(fields) + ([FieldStop, StructEnd] + rest)) == Some(rest)
    decreases fields, 0
  {
    var tail := [FieldStop, StructEnd] + rest;
    if fields == [] {
      assert FieldTokens(fields) + tail == tail && tail[1..] == [StructEnd] + rest && tail[1..][1..] == rest;
    } else {
      hide FieldTokens, Tokens, Skip;
      var more := FieldTokens(fields[1..]) + tail;
      assert fields[0].value < fields[0];
      FirstFieldTokens(fields, tail);
      SkipConsumes(fields[0].value, [FieldEnd] + more);
      assert ([FieldEnd] + more)[1..] == more;
      SkipFieldsConsumes(fields[1..], rest);
    }
  }

  lemma FirstFieldTokens(fields: seq<WireField>, tail: seq<Token>)
    requires fields != []
    ensures var toks := FieldTokens(fields) + tail;
            && toks[0] == FieldBegin(TypeOf(fields[0].value), fields[0].fid)
            && toks[1..] == Tokens(fields[0].value) + ([FieldEnd] + (FieldTokens(fields[1..]) + tail))
  {
    assert fields[0].value < fields[0];
    UnfoldFields(fields);
    hide Tokens, FieldTokens;
    Regroup(FieldBegin(TypeOf(fields[0].value), fields[0].fid), Tokens(fields[0].value), FieldTokens(fields[1..]),
            tail);
  }

  lemma UnfoldFields(fields: seq<WireField>)
    requires fields != []
    ensures FieldTokens(fields) == [FieldBegin(TypeOf(fields[0].value), fields[0].fid)] + Tokens(fields[0].value)
                                   + [FieldEnd] + FieldTokens(fields[1..])
  {
  }

  lemma Regroup(begin: Token, value: seq<Token>, more: seq<Token>, tail: seq<Token>)
    ensures var toks := [begin] + value + [FieldEnd] + more + tail;
            toks[0] == begin && toks[1..] == value + ([FieldEnd] + (more + tail))
  {
  }

  lemma {:induction false} SkipElemsConsumes(elems: seq<Wire>, t: TType, rest: seq<Token>)
    requires ElemsWellFormed(elems, t)
    ensures SkipElems(ElemTokens(elems) + rest, t, |elems|) == Some(rest)
    decreases elems, 0
  {
    if elems == [] {
      assert ElemTokens(elems) + rest == rest;
    } else {
      assert ElemTokens(elems) + rest == Tokens(elems[0]) + (ElemTokens(elems[1..]) + rest);
      SkipConsumes(elems[0], ElemTokens(elems[1..]) + rest);
      SkipElemsConsumes(elems[1..], t, rest);
    }
  }

  lemma {:induction false} SkipEntriesConsumes(entries: seq<WireEntry>, k: TType, v: TType, rest: seq<Token>)
    requires EntriesWellFormed(entries, k, v)
    ensures SkipEntries(EntryTokens(entries) + rest, k, v, |entries|) == Some(rest)
    decreases entries, 0
  {
    if entries == [] {
      assert EntryTokens(entries) + rest == rest;
    } else {
      var more := EntryTokens(entries[1..]) + rest;
      assert entries[0].key < entries[0] && entries[0].value < entries[0];
      assert EntryTokens(entries) + rest == Tokens(entries[0].key) + (Tokens(entries[0].value) + more);
      SkipConsumes(entries[0].key, Tokens(entries[0].value) + more);
      SkipConsumes(entries[0].value, more);
      SkipEntriesConsumes(entries[1..], k, v, rest);
    }
  }
}
