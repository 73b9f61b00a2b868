/** Which contexts the binary codec preserves, and which carriers it reproduces. */
module BinaryRoundTrip {
  import opened Prelude
  import opened Percent
  import opened BigEndian
  import opened Dict
  import opened ContextString
  import opened SpanContexts
  import opened BinaryCodec

  /** Keys and values are byte strings; other values are not text. */
  predicate ByteText(b: Baggage) {
    forall i :: 0 <= i < |b| ==> IsBytes(b[i].key) && (b[i].value.Str? ==> IsBytes(b[i].value.s))
  }

  /** Lengths the reader's signed prefix can express. */
  predicate Small(e: Entry<string, HeaderValue>) {
    |e.key| < TWO_31 && e.value.Str? && |e.value.s| < TWO_31
  }

  predicate AllSmall(b: Baggage) {
    forall i :: 0 <= i < |b| ==> Small(b[i])
  }

  // ------------------------------------------------------------- reading the items

  lemma PrefixedRead(s: Bytes, rest: Bytes)
    requires |s| < TWO_31
    ensures Prefixed(s).Some? && |Prefixed(s).value| == 4 + |s|
    ensures ReadKv(Prefixed(s).value + rest) == Some((s, 4 + |s|))
    ensures From(Prefixed(s).value + rest, 4 + |s|) == rest
  {
    hide Pack, Unpack;
    Widths();
    UnpackPack(|s|, 4);
    var data := Prefixed(s).value + rest;
    assert data[..4] == Pack(|s|, 4);
    assert data[4..4 + |s|] == s;
    assert data[4 + |s|..] == rest;
  }

  lemma ItemRead(e: Entry<string, HeaderValue>, rest: Bytes)
    requires Small(e)
    ensures PackItem(e).Some?
    ensures ReadItem(PackItem(e).value + rest) == Some((e, |PackItem(e).value|))
    ensures From(PackItem(e).value + rest, |PackItem(e).value|) == rest
  {
    hide Prefixed, ReadKv;
    PrefixedRead(e.value.s, rest);
    PrefixedRead(e.key, Prefixed(e.value.s).value + rest);
    var k, v := Prefixed(e.key).value, Prefixed(e.value.s).value;
    assert PackItem(e).value + rest == k + (v + rest);
    assert (k + v + rest)[|k + v|..] == rest;
  }

  lemma {:induction false} PutAllFront(d: Baggage, e: Entry<string, HeaderValue>, es: Baggage)
    ensures PutAll(Put(d, e.key, e.value), es) == PutAll(d, [e] + es)
  {
    var all := [e] + es;
    if es == [] {
      assert all[..0] == [] && all[0] == e;
    } else {
      assert all[..|all| - 1] == [e] + es[..|es| - 1];
      PutAllFront(d, e, es[..|es| - 1]);
    }
  }

  lemma {:induction false} ItemsRead(b: Baggage, rest: Bytes, d: Baggage)
    requires AllSmall(b)
    ensures PackItems(b).1 && ReadItems(PackItems(b).0 + rest, |b|, d) == Some(PutAll(d, b))
    decreases |b|
  {
    hide PackItem, ReadItem, Small;
    if b == [] {
    } else {
      var item, more := PackItem(b[0]), PackItems(b[1..]).0;
      ItemRead(b[0], more + rest);
      assert PackItems(b).0 + rest == item.value + (more + rest);
      ItemsRead(b[1..], rest, Put(d, b[0].key, b[0].value));
      PutAllFront(d, b[0], b[1..]);
      assert [b[0]] + b[1..] == b;
    }
  }

  lemma ReadKvSmall(data: Bytes)
    requires IsBytes(data) && ReadKv(data).Some?
    ensures |ReadKv(data).value.0| < TWO_31
  {
    PackUnpack(data[..4]);
    Widths();
  }

  lemma {:induction false} ReadItemsSmall(data: Bytes, n: nat, d: Baggage)
    requires IsBytes(data) && AllSmall(d) && ReadItems(data, n, d).Some?
    ensures AllSmall(ReadItems(data, n, d).value)
    decreases n
  {
    hide ReadKv, Put;
    if n > 0 {
      var (e, read) := ReadItem(data).value;
      ReadKvSmall(data);
      ReadKvSmall(From(data, ReadKv(data).value.1));
      PutKeys(d, e.key, e.value);
      PutSmall(d, e);
      ReadItemsSmall(From(data, read), n - 1, Put(d, e.key, e.value));
    }
  }

  lemma {:induction false} PutSmall(d: Baggage, e: Entry<string, HeaderValue>)
    requires AllSmall(d) && Small(e)
    ensures AllSmall(Put(d, e.key, e.value))
  {
    if d != [] && d[0].key != e.key {
      PutSmall(d[1..], e);
      var p := Put(d[1..], e.key, e.value);
      forall i | 0 <= i < |Put(d, e.key, e.value)| ensures Small(Put(d, e.key, e.value)[i]) {
        if i > 0 { assert Put(d, e.key, e.value)[i] == p[i - 1]; }
      }
    }
  }

  lemma {:induction false} PackedBytes(b: Baggage)
    requires ByteText(b)
    ensures IsBytes(PackItems(b).0)
  {
    hide Pack;
    if b != [] && PackItem(b[0]).Some? { PackedBytes(b[1..]); }
  }

  // ------------------------------------------------------------------- the header

  lemma HeaderFields(high: int, low: int, spanId: int, parentId: int, flags: int, count: int, rest: Bytes)
    requires Header(high, low, spanId, parentId, flags, count).Some?
    ensures var c := Header(high, low, spanId, parentId, flags, count).value + rest;
            && Field(c, 0, 8) == high && Field(c, 8, 16) == low && Field(c, 16, 24) == spanId
            && Field(c, 24, 32) == parentId && Field(c, 32, 33) == flags && Field(c, 33, 37) == count
            && c[HEADER_LENGTH..] == rest
  {
    hide Pack, Unpack, Pow256;
    UnpackPack(high, 8);
    UnpackPack(low, 8);
    UnpackPack(spanId, 8);
    UnpackPack(parentId, 8);
    UnpackPack(flags, 1);
    UnpackPack(count, 4);
    var a, b, s, p, f, n := Pack(high, 8), Pack(low, 8), Pack(spanId, 8), Pack(parentId, 8), Pack(flags, 1),
        Pack(count, 4);
    var c := a + b + s + p + f + n + rest;
    assert c[0..8] == a && c[8..16] == b && c[16..24] == s && c[24..32] == p && c[32..33] == f && c[33..37] == n;
    assert c[37..] == rest;
  }

  // ------------------------------------------------------------------ the theorems

  predicate IdsInRange(ctx: SpanContext) {
    && ctx.traceId.Some? && 0 <= ctx.traceId.value < TWO_128
    && ctx.spanId.Some? && 0 <= ctx.spanId.value < TWO_64
    && (ctx.parentId.Some? ==> 0 < ctx.parentId.value < TWO_64)
    && ctx.flags.Some? && 0 <= ctx.flags.value < TWO_8
  }

  predicate InRange(ctx: SpanContext) {
    IdsInRange(ctx) && |ctx.baggage| < TWO_32 && AllSmall(ctx.baggage)
  }

  lemma HeaderInRange(ctx: SpanContext)
    requires IdsInRange(ctx) && |ctx.baggage| < TWO_32
    ensures HeaderOf(ctx).Some?
  {
  }

  lemma SplitTraceId(t: int)
    requires t > TWO_64 - 1
    ensures (t / TWO_64) % TWO_64 * TWO_64 + t % TWO_64 == t <==> t < TWO_128
    ensures t < TWO_128 ==> (t / TWO_64) % TWO_64 != 0
  {
  }

  /** What extraction makes of a header inject wrote. */
  lemma HeaderExtracted(ctx: SpanContext, items: Bytes)
    requires HeaderOf(ctx).Some? && ctx.parentId != Some(0)
    requires ReadItems(items, |ctx.baggage|, []).Some?
    ensures var r := Extracted(HeaderOf(ctx).value + items);
            && r.Some?
            && r.value.baggage == ReadItems(items, |ctx.baggage|, []).value
            && (r.value == ctx.(baggage := r.value.baggage, debugId := None) <==> IdsInRange(ctx))
  {
    hide Pow256, Header, Field, ReadItems;
    var t := ctx.traceId.value;
    var high, low := if t > TWO_64 - 1 then (t / TWO_64) % TWO_64 else 0, if t > TWO_64 - 1 then t % TWO_64 else t;
    HeaderRanges(high, low, OrZero(ctx.spanId), OrZero(ctx.parentId), ctx.flags.value, |ctx.baggage|);
    HeaderFields(high, low, OrZero(ctx.spanId), OrZero(ctx.parentId), ctx.flags.value, |ctx.baggage|, items);
    if t > TWO_64 - 1 { SplitTraceId(t); }
  }

  lemma HeaderRanges(high: int, low: int, spanId: int, parentId: int, flags: int, count: int)
    requires Header(high, low, spanId, parentId, flags, count).Some?
    ensures 0 <= high < TWO_64 && 0 <= low < TWO_64 && 0 <= spanId < TWO_64 && 0 <= parentId < TWO_64
    ensures 0 <= flags < TWO_8 && 0 <= count < TWO_32
  {
  }

  /** A context injected into an empty carrier is extracted unchanged, whatever bytes follow, exactly when its ids,
      flags and item count fit their fields and every key and value is shorter than 2^31 bytes: the prefixes are
      written unsigned and read signed. */
  lemma BinaryRoundTripIff(ctx: SpanContext, rest: Bytes)
    requires DistinctKeys(ctx.baggage) && ctx.parentId != Some(0) && ByteText(ctx.baggage) && IsBytes(rest)
    ensures Injected(ctx).1 && Extracted(Injected(ctx).0 + rest) == Some(ctx.(debugId := None)) <==> InRange(ctx)
  {
    hide HeaderOf, PackItems, ReadItems, IdsInRange, Extracted, AllSmall, ByteText, IsBytes, DistinctKeys;
    var b := ctx.baggage;
    var items := PackItems(b).0 + rest;
    if InRange(ctx) {
      HeaderInRange(ctx);
      ItemsRead(b, rest, []);
      assert [] + b == b;
      PutAllDistinct([], b);
      HeaderExtracted(ctx, items);
      assert Injected(ctx).0 + rest == HeaderOf(ctx).value + items;
    } else if Injected(ctx).1 && Extracted(Injected(ctx).0 + rest) == Some(ctx.(debugId := None)) {
      assert Injected(ctx).0 + rest == HeaderOf(ctx).value + items;
      ExtractedItems(ctx, items);
      HeaderExtracted(ctx, items);
      CountFits(ctx);
      ConcatBytes(ctx, rest);
      EmptySmall();
      ReadItemsSmall(items, |b|, []);
      assert false;
    }
  }

  function Filler(n: nat): (s: string)
    ensures |s| == n && IsBytes(s)
  {
    seq(n, _ => 'x')
  }

  /** A context that fails: injecting one value of 2^31 bytes succeeds, and extracting it raises. */
  lemma LongValueFails(ids: Ids)
    requires 0 <= ids.traceId < TWO_64 && 0 <= ids.spanId < TWO_64 && ids.parentId == None && 0 <= ids.flags < TWO_8
    ensures var ctx := Make(Some(ids.traceId), Some(ids.spanId), None, Some(ids.flags),
                            [Entry("k", Str(Filler(TWO_31)))], None);
            Injected(ctx).1 && Extracted(Injected(ctx).0) == None
  {
    hide PackItems, ReadItems, Extracted, HeaderOf, Filler, IsBytes;
    var value := Filler(TWO_31);
    var e := Entry("k", Str(value));
    var ctx := Make(Some(ids.traceId), Some(ids.spanId), None, Some(ids.flags), [e], None);
    HeaderInRange(ctx);
    OneItem(e);
    LongItemUnreadable(e);
    OneItemUnreadable(PackItem(e).value);
    if Extracted(HeaderOf(ctx).value + PackItem(e).value).Some? { ExtractedItems(ctx, PackItem(e).value); }
  }

  lemma OneItem(e: Entry<string, HeaderValue>)
    ensures PackItem(e).Some? ==> PackItems([e]) == (PackItem(e).value, true)
  {
    hide PackItem;
    if PackItem(e).Some? {
      assert [e][1..] == [] && PackItem(e).value + [] == PackItem(e).value;
    }
  }

  lemma OneItemUnreadable(data: Bytes)
    requires ReadItem(data) == None
    ensures ReadItems(data, 1, []) == None
  {
  }

  lemma LongItemUnreadable(e: Entry<string, HeaderValue>)
    requires |e.key| < TWO_31 && e.value.Str? && |e.value.s| == TWO_31
    ensures PackItem(e).Some? && ReadItem(PackItem(e).value) == None
  {
    hide Pack, Unpack, ReadKv, Prefixed;
    LongPrefix(e.value.s);
    PrefixedRead(e.key, Prefixed(e.value.s).value);
  }

  /** The length comes back negative and the slice, counted from the end, is not empty. */
  lemma LongPrefix(s: Bytes)
    requires |s| == TWO_31
    ensures Prefixed(s).Some? && ReadKv(Prefixed(s).value) == None
  {
    hide Pack, Unpack, Pow256;
    Widths();
    UnpackPack(|s|, 4);
    var data := Prefixed(s).value;
    assert data[..4] == Pack(|s|, 4);
  }

  lemma EmptySmall()
    ensures AllSmall([])
  {
  }

  lemma ConcatBytes(ctx: SpanContext, rest: Bytes)
    requires ByteText(ctx.baggage) && IsBytes(rest)
    ensures IsBytes(PackItems(ctx.baggage).0 + rest)
  {
    PackedBytes(ctx.baggage);
  }

  lemma CountFits(ctx: SpanContext)
    requires HeaderOf(ctx).Some?
    ensures |ctx.baggage| < TWO_32
  {
  }

  lemma ExtractedItems(ctx: SpanContext, items: Bytes)
    requires HeaderOf(ctx).Some? && Extracted(HeaderOf(ctx).value + items).Some?
    ensures ReadItems(items, |ctx.baggage|, []).Some?
  {
    hide Pow256, Header, Field, ReadItems;
    var t := ctx.traceId.value;
    var high, low := if t > TWO_64 - 1 then (t / TWO_64) % TWO_64 else 0, if t > TWO_64 - 1 then t % TWO_64 else t;
    HeaderFields(high, low, OrZero(ctx.spanId), OrZero(ctx.parentId), ctx.flags.value, |ctx.baggage|, items);
  }

  // ------------------------------------------------------------ extract then inject

  lemma DistinctLast(es: Baggage)
    requires es != []
    ensures var n := |es| - 1;
            DistinctKeys(es) <==> DistinctKeys(es[..n]) && forall i :: 0 <= i < n ==> es[..n][i].key != es[n].key
  {
  }

  lemma {:induction false} RepeatedKeyShrinks(es: Baggage)
    ensures |PutAll([], es)| <= |es|
    ensures |PutAll([], es)| == |es| <==> DistinctKeys(es)
  {
    hide Put, Get, DistinctKeys;
    if es == [] {
      EmptyDistinct();
    } else {
      var n := |es| - 1;
      var d := PutAll([], es[..n]);
      RepeatedKeyShrinks(es[..n]);
      PutLength(d, es[n].key, es[n].value);
      DistinctLast(es);
      if DistinctKeys(es[..n]) {
        assert [] + es[..n] == es[..n];
        PutAllDistinct([], es[..n]);
        GetNone(d, es[n].key);
      }
    }
  }

  lemma EmptyDistinct()
    ensures DistinctKeys<string, HeaderValue>([])
  {
  }

  lemma {:induction false} PutLength(d: Baggage, k: string, v: HeaderValue)
    ensures |Put(d, k, v)| == if Get(d, k).Some? then |d| else |d| + 1
  {
    if d != [] && d[0].key != k { PutLength(d[1..], k, v); }
  }

  /** The fields of a 37-byte header, packed again. */
  lemma Repacked(header: Bytes)
    requires |header| == HEADER_LENGTH && IsBytes(header)
    ensures Header(Field(header, 0, 8), Field(header, 8, 16), Field(header, 16, 24), Field(header, 24, 32),
                   Field(header, 32, 33), Field(header, 33, 37)) == Some(header)
  {
    hide Pack, Unpack, Pow256;
    PackUnpack(header[0..8]);
    PackUnpack(header[8..16]);
    PackUnpack(header[16..24]);
    PackUnpack(header[24..32]);
    PackUnpack(header[32..33]);
    PackUnpack(header[33..37]);
    assert header[0..8] + header[8..16] + header[16..24] + header[24..32] + header[32..33] + header[33..37] == header;
  }

  lemma SameFields(header: Bytes, rest: Bytes, lo: nat, hi: nat)
    requires lo <= hi <= |header|
    ensures Field(header + rest, lo, hi) == Field(header, lo, hi)
  {
    assert (header + rest)[lo..hi] == header[lo..hi];
  }

  lemma ExtractedHeader(header: Bytes, items: Bytes)
    requires |header| == HEADER_LENGTH && IsBytes(header)
    requires ReadItems(items, Field(header, 33, 37), []).Some?
    ensures var baggage := ReadItems(items, Field(header, 33, 37), []).value;
            var r := Extracted(header + items);
            && r.Some? && r.value.baggage == baggage
            && HeaderOf(r.value) == Header(Field(header, 0, 8), Field(header, 8, 16), Field(header, 16, 24),
                                           Field(header, 24, 32), Field(header, 32, 33), |baggage|)
  {
    hide Pow256, Header, Field, ReadItems;
    SameFields(header, items, 0, 8);
    SameFields(header, items, 8, 16);
    SameFields(header, items, 16, 24);
    SameFields(header, items, 24, 32);
    SameFields(header, items, 32, 33);
    SameFields(header, items, 33, 37);
    assert (header + items)[HEADER_LENGTH..] == items;
    FieldRange(header, 0);
    FieldRange(header, 8);
    var high, low := Field(header, 0, 8), Field(header, 8, 16);
    if high != 0 { Recombined(high, low); }
  }

  lemma FieldRange(header: Bytes, lo: nat)
    requires lo + 8 <= |header| && IsBytes(header)
    ensures 0 <= Field(header, lo, lo + 8) < TWO_64
  {
    hide Pow256;
    PackUnpack(header[lo..lo + 8]);
    Widths();
  }

  lemma Recombined(high: int, low: int)
    requires 0 < high < TWO_64 && 0 <= low < TWO_64
    ensures var t := high * TWO_64 + low;
            t > TWO_64 - 1 && (t / TWO_64) % TWO_64 == high && t % TWO_64 == low
  {
  }

  /** Any well-formed carrier (a header counting the items that follow, no length above the signed range, and any
      bytes after them) is extracted; injecting the result reproduces exactly the bytes consumed if and only if no
      key occurs twice. */
  lemma ReinjectIff(header: Bytes, es: Baggage, rest: Bytes)
    requires |header| == HEADER_LENGTH && IsBytes(header) && Field(header, 33, 37) == |es| && AllSmall(es)
    ensures var r := Extracted(header + (PackItems(es).0 + rest));
            && r.Some?
            && (Injected(r.value) == (header + PackItems(es).0, true) <==> DistinctKeys(es))
  {
    hide HeaderOf, Header, PackItems, ReadItems, Extracted, AllSmall, IsBytes, DistinctKeys, Field;
    var items := PackItems(es).0 + rest;
    ItemsRead(es, rest, []);
    ExtractedHeader(header, items);
    Repacked(header);
    var ctx := Extracted(header + items).value;
    RepeatedKeyShrinks(es);
    if DistinctKeys(es) {
      assert [] + es == es;
      PutAllDistinct([], es);
    } else if Injected(ctx) == (header + PackItems(es).0, true) {
      var h := HeaderOf(ctx).value;
      HeaderLength(ctx);
      assert h + [] == h;
      assert h == (h + PackItems(ctx.baggage).0)[..HEADER_LENGTH] == (header + PackItems(es).0)[..HEADER_LENGTH] ==
             header;
      HeaderFields(Field(header, 0, 8), Field(header, 8, 16), Field(header, 16, 24), Field(header, 24, 32),
                   Field(header, 32, 33), |ctx.baggage|, []);
      assert false;
    }
  }

  lemma HeaderLength(ctx: SpanContext)
    ensures HeaderOf(ctx).Some? ==> |HeaderOf(ctx).value| == HEADER_LENGTH
  {
  }
}
