/** read and write as the generated code does them: loops over a protocol object, filling a struct or
    emitting one field after the other. */
module ThriftProtocol {
  import opened Prelude
  import opened ThriftWire
  import opened ThriftStructs
  import opened ThriftRoundTrip

  class InProtocol {
    /** What has not been read yet. */
    var input: seq<Token>

    constructor (tokens: seq<Token>)
      ensures input == tokens
    {
      input := tokens;
    }

    /** Reads one given token; false is a protocol error. */
    method Accept(t: Token) returns (ok: bool)
      modifies this
      ensures ok <==> Expect(Some(old(input)), t).Some?
      ensures input == if ok then old(input)[1..] else old(input)
    {
      ok := input != [] && input[0] == t;
      if ok { input := input[1..]; }
    }

    method SkipValue(t: TType) returns (ok: bool)
      modifies this
      ensures ok <==> Skip(old(input), t).Some?
      ensures ok ==> Some(input) == Skip(old(input), t)
      ensures |input| <= old(|input|)
    {
      var rest := Skip(input, t);
      ok := rest.Some?;
      if ok { input := rest.value; }
    }

    method Read(schema: Schema) returns (r: Option<Obj>)
      modifies this
      decreases |input|, 1
      ensures match ReadStruct(old(input), schema)
              case None => r == None
              case Some((o, rest)) => r == Some(o) && input == rest
      ensures |input| <= old(|input|)
    {
      ghost var spec := ReadStruct(input, schema);
      var ok := Accept(StructBegin);
      if !ok { return None; }
      var o := Blank(schema);
      while input != [] && input[0].FieldBegin?
        invariant |o.attrs| == |schema.fields| && |input| < old(|input|)
        invariant spec == ReadFields(input, schema, o)
        decreases |input|
      {
        var i := IndexOf(schema.fields, input[0].fid, input[0].ftype);
        var t := input[0].ftype;
        input := input[1..];
        if i == |schema.fields| {
          ok := SkipValue(t);
          if !ok { return None; }
        } else {
          var v := ReadField(schema.fields[i].kind);
          if v.None? { return None; }
          o := Obj(o.attrs[i := Some(v.value)]);
        }
        ok := Accept(FieldEnd);
        if !ok { return None; }
      }
      ok := Accept(FieldStop);
      if !ok { return None; }
      ok := Accept(StructEnd);
      r := if ok then Some(o) else None;
    }

    method ReadField(kind: Kind) returns (r: Option<Value>)
      modifies this
      decreases |input|, 2
      ensures match ReadValue(old(input), kind)
              case None => r == None
              case Some((v, rest)) => r == Some(v) && input == rest
      ensures |input| <= old(|input|)
    {
      match kind
      case Scalar(t) =>
        if input == [] || !input[0].Plain? || input[0].t != t { return None; }
        r := Some(ScalarV(input[0].atom));
        input := input[1..];
      case StructOf(s) =>
        var o := Read(s);
        r := if o.Some? then Some(ObjV(o.value)) else None;
      case ListOf(s) =>
        if input == [] || !input[0].CollBegin? || input[0].set_ { return None; }
        var size := input[0].size;
        input := input[1..];
        var items := ReadItems(size, s);
        if items.None? { return None; }
        var ok := Accept(CollEnd);
        r := if ok then Some(ListV(items.value)) else None;
    }

    static function Prefixed(items: seq<Obj>, more: Option<(seq<Obj>, seq<Token>)>): Option<(seq<Obj>, seq<Token>)> {
      if more.None? then None else Some((items + more.value.0, more.value.1))
    }

    static lemma PrefixedAdds(items: seq<Obj>, toks: seq<Token>, n: int, s: Schema)
      requires n > 0
      ensures Prefixed(items, ReadElems(toks, n, s)) ==
              (match ReadStruct(toks, s)
               case None => None
               case Some((o, mid)) => Prefixed(items + [o], ReadElems(mid, n - 1, s)))
    {
      match ReadStruct(toks, s)
      case None =>
      case Some((o, mid)) =>
        var more := ReadElems(mid, n - 1, s);
        if more.Some? { assert items + ([o] + more.value.0) == (items + [o]) + more.value.0; }
    }

    /** The for loop over a list of structs. */
    method ReadItems(size: int, s: Schema) returns (r: Option<seq<Obj>>)
      modifies this
      decreases |input|, 3
      ensures match ReadElems(old(input), size, s)
              case None => r == None
              case Some((items, rest)) => r == Some(items) && input == rest
      ensures |input| <= old(|input|)
    {
      ghost var spec := ReadElems(input, size, s);
      var items, i := [], 0;
      assert spec == Prefixed([], spec) by { if spec.Some? { assert [] + spec.value.0 == spec.value.0; } }
      while i < size
        invariant |input| <= old(|input|) && (size <= 0 ==> i == 0) && (size > 0 ==> 0 <= i <= size)
        invariant spec == Prefixed(items, ReadElems(input, size - i, s))
      {
        PrefixedAdds(items, input, size - i, s);
        var o := Read(s);
        if o.None? { return None; }
        items := items + [o.value];
        i := i + 1;
      }
      assert ReadElems(input, size - i, s) == Some(([], input)) && items + [] == items;
      r := Some(items);
    }
  }

  class OutProtocol {
    var output: seq<Token>

    constructor ()
      ensures output == []
    {
      output := [];
    }

    method Emit(t: Token)
      modifies this
      ensures output == old(output) + [t]
    {
      output := output + [t];
    }

    method Write(o: Obj, schema: Schema)
      requires Conforms(o, schema) && Sound(schema)
      modifies this
      decreases o, 1
      ensures output == old(output) + Written(o, schema)
    {
      hide WireValue, ValueConforms, KindSound, SoundFields, DistinctIds;
      assert SoundFields(schema.fields);
      ghost var before := output;
      Emit(StructBegin);
      var i := 0;
      while i < |o.attrs|
        invariant 0 <= i <= |o.attrs| && AttrsConform(o.attrs[i..], schema.fields[i..])
        invariant output + FieldTokens(WireFields(o.attrs[i..], schema.fields[i..]))
               == before + [StructBegin] + FieldTokens(WireFields(o.attrs, schema.fields))
      {
        assert o.attrs[i..][1..] == o.attrs[i + 1..] && schema.fields[i..][1..] == schema.fields[i + 1..];
        ghost var atStart := output;
        if o.attrs[i].Some? {
          assert o.attrs[i].value < o.attrs[i];
          SoundAt(schema.fields, i);
          Emit(FieldBegin(WireType(schema.fields[i].kind), schema.fields[i].fid));
          WriteField(o.attrs[i].value, schema.fields[i].kind);
          Emit(FieldEnd);
          FieldWritten(o.attrs[i..], schema.fields[i..], atStart);
        }
        i := i + 1;
      }
      ghost var all := FieldTokens(WireFields(o.attrs, schema.fields));
      assert output == before + [StructBegin] + all by { assert output + [] == output; }
      Emit(FieldStop);
      Emit(StructEnd);
      assert before + [StructBegin] + all + [FieldStop] + [StructEnd] ==
             before + ([StructBegin] + all + [FieldStop, StructEnd]);
    }

    static lemma FieldWritten(attrs: seq<Option<Value>>, specs: seq<FieldSpec>, out: seq<Token>)
      requires |attrs| == |specs| && attrs != [] && AttrsConform(attrs, specs) && attrs[0].Some?
      requires KindSound(specs[0].kind)
      ensures out + FieldTokens(WireFields(attrs, specs)) ==
              out + [FieldBegin(WireType(specs[0].kind), specs[0].fid)]
                + Tokens(WireValue(attrs[0].value, specs[0].kind))
              + [FieldEnd] + FieldTokens(WireFields(attrs[1..], specs[1..]))
    {
      var fields := WireFields(attrs, specs);
      FirstWireField(attrs, specs);
      hide WireFields, WireValue, Tokens, FieldTokens;
      UnfoldFields(fields);
      AppendFour(out, [FieldBegin(WireType(specs[0].kind), specs[0].fid)], Tokens(fields[0].value), [FieldEnd],
                 FieldTokens(fields[1..]));
    }

    static lemma AppendFour(out: seq<Token>, a: seq<Token>, b: seq<Token>, c: seq<Token>, d: seq<Token>)
      ensures out + (a + b + c + d) == out + a + b + c + d
    {
    }

    static lemma FirstWireField(attrs: seq<Option<Value>>, specs: seq<FieldSpec>)
      requires |attrs| == |specs| && attrs != [] && AttrsConform(attrs, specs) && attrs[0].Some?
      ensures var fields := WireFields(attrs, specs);
              && fields != [] && fields[0] == WireField(specs[0].fid, WireValue(attrs[0].value, specs[0].kind))
              && fields[1..] == WireFields(attrs[1..], specs[1..])
    {
      hide WireValue;
    }

    method WriteField(v: Value, kind: Kind)
      requires ValueConforms(v, kind)
      requires KindSound(kind)
      modifies this
      decreases v, 2
      ensures output == old(output) + Tokens(WireValue(v, kind))
    {
      match kind
      case Scalar(t) => Emit(Plain(t, v.atom));
      case StructOf(s) => Write(v.obj, s);
      case ListOf(s) =>
        ghost var before := output;
        Emit(CollBegin(false, STRUCT, |v.items|));
        var i := 0;
        while i < |v.items|
          invariant 0 <= i <= |v.items| && ItemsConform(v.items[i..], s)
          invariant output + ElemTokens(WireItems(v.items[i..], s))
                 == before + [CollBegin(false, STRUCT, |v.items|)] + ElemTokens(WireItems(v.items, s))
        {
          assert v.items[i..][1..] == v.items[i + 1..];
          ghost var atStart := output;
          Write(v.items[i], s);
          ItemWritten(v.items[i..], s, atStart);
          i := i + 1;
        }
        ghost var all := ElemTokens(WireItems(v.items, s));
        assert output == before + [CollBegin(false, STRUCT, |v.items|)] + all by { assert output + [] == output; }
        Emit(CollEnd);
        assert before + [CollBegin(false, STRUCT, |v.items|)] + all + [CollEnd] ==
               before + ([CollBegin(false, STRUCT, |v.items|)] + all + [CollEnd]);
    }

    static lemma ItemWritten(items: seq<Obj>, s: Schema, out: seq<Token>)
      requires items != [] && ItemsConform(items, s)
      ensures out + ElemTokens(WireItems(items, s)) == out + Written(items[0], s) + ElemTokens(WireItems(items[1..], s))
    {
    }
  }
}
