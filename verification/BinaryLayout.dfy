/** Where everything is in a binary carrier, byte by byte, and what becomes of a carrier that was cut off. */
module BinaryLayout {
  import opened Prelude
  import opened Percent
  import opened BigEndian
  import opened Dict
  import opened ContextString
  import opened SpanContexts
  import opened BinaryCodec
  import opened BinaryRoundTrip

  // ------------------------------------------------------------------- numbers

  /** Big-endian: the i-th of k bytes counts units of 256 to the power k - 1 - i. */
  lemma {:induction false} PackedByte(n: nat, k: nat, i: nat)
    requires n < Pow256(k) && i < k
    ensures Pack(n, k)[i] as int == n / Pow256(k - 1 - i) % 256
    decreases k
  {
    hide Pack;
    PackLast(n, k);
    if i < k - 1 {
      PackedByte(n / 256, k - 1, i);
      DivideTwice(n, Pow256(k - 2 - i));
    }
  }

  lemma DivideTwice(n: nat, p: nat)
    requires p > 0
    ensures n / 256 / p == n / (256 * p)
  {
    var q, r := n / 256 / p, n / 256 % p;
    assert n / 256 == q * p + r;
    assert n == q * (256 * p) + (r * 256 + n % 256) by { assert q * p * 256 == q * (256 * p); }
    QuotientIs(n, 256 * p, q, r * 256 + n % 256);
  }

  lemma QuotientIs(n: nat, m: nat, q: nat, r: nat)
    requires n == q * m + r && r < m
    ensures n / m == q
  {
    assert n == n / m * m + n % m;
    Multiples(n / m - q, m);
  }

  lemma Multiples(d: int, m: int)
    requires m > 0
    ensures d >= 1 ==> d * m >= m
    ensures d <= -1 ==> d * m <= -m
  {
  }

  // -------------------------------------------------------------------- layout

  /** High and low half of the trace id, span id, parent id (0 for none), flags, number of items: 8, 8, 8, 8, 1 and 4
      bytes. */
  predicate HeaderIs(c: Bytes, traceId: int, spanId: int, parentId: int, flags: int, count: nat)
    requires |c| >= 37
  {
    && Unpack(c[0..8]) * 0x1_0000_0000_0000_0000 + Unpack(c[8..16]) == traceId
    && Unpack(c[16..24]) == spanId && Unpack(c[24..32]) == parentId
    && Unpack(c[32..33]) == flags && Unpack(c[33..37]) == count
  }

  /** A written carrier begins with the six numbers of the context. */
  lemma WrittenHeader(ctx: SpanContext)
    requires InRange(ctx)
    ensures var c := Injected(ctx).0;
            && |c| >= 37
            && HeaderIs(c, ctx.traceId.value, ctx.spanId.value, if ctx.parentId.Some? then ctx.parentId.value else 0,
                        ctx.flags.value, |ctx.baggage|)
            && c[37..] == PackItems(ctx.baggage).0
  {
    HeaderInRange(ctx);
    hide AllSmall, PackItems, Pow256;
    var t := ctx.traceId.value;
    var high, low := if t > TWO_64 - 1 then (t / TWO_64) % TWO_64 else 0, if t > TWO_64 - 1 then t % TWO_64 else t;
    HeaderFields(high, low, OrZero(ctx.spanId), OrZero(ctx.parentId), ctx.flags.value, |ctx.baggage|,
                 PackItems(ctx.baggage).0);
    if t > TWO_64 - 1 { SplitTraceId(t); }
  }

  /** An extracted context has the six numbers of the carrier; a parent id of 0 is no parent. */
  lemma ReadHeader(c: Bytes)
    requires Extracted(c).Some?
    ensures var ctx := Extracted(c).value;
            && |c| >= 37 && ctx.traceId.Some? && ctx.spanId.Some? && ctx.flags.Some? && ctx.parentId != Some(0)
            && HeaderIs(c, ctx.traceId.value, ctx.spanId.value, if ctx.parentId.Some? then ctx.parentId.value else 0,
                        ctx.flags.value, Unpack(c[33..37]))
            && ctx.debugId == None
  {
    hide ReadItems, Unpack;
  }

  /** An item is the length of its key in four bytes, the key, the length of its value in four bytes and the value. */
  predicate ItemIs(bytes: Bytes, key: string, value: string) {
    && |bytes| == 8 + |key| + |value|
    && Unpack(bytes[0..4]) == |key| && bytes[4..4 + |key|] == key
    && Unpack(bytes[4 + |key|..8 + |key|]) == |value| && bytes[8 + |key|..] == value
  }

  lemma WrittenItem(e: Entry<string, HeaderValue>)
    requires Small(e)
    ensures PackItem(e).Some? && ItemIs(PackItem(e).value, e.key, e.value.s)
  {
    hide Pack, Unpack, Pow256;
    Widths();
    UnpackPack(|e.key|, 4);
    UnpackPack(|e.value.s|, 4);
    var k, v := Pack(|e.key|, 4), Pack(|e.value.s|, 4);
    var bytes := k + e.key + (v + e.value.s);
    assert bytes[0..4] == k && bytes[4..4 + |e.key|] == e.key;
    assert bytes[4 + |e.key|..8 + |e.key|] == v && bytes[8 + |e.key|..] == e.value.s;
  }

  /** The items stand one behind the other, in the order of the baggage. */
  lemma {:induction false} WrittenItems(b: Baggage, c: Baggage)
    requires AllSmall(b) && AllSmall(c)
    ensures PackItems(b).1 && PackItems(b + c).0 == PackItems(b).0 + PackItems(c).0
  {
    hide PackItem;
    if b == [] {
      assert b + c == c;
    } else {
      ItemRead(b[0], []);
      assert (b + c)[1..] == b[1..] + c;
      WrittenItems(b[1..], c);
    }
  }

  // ---------------------------------------------------------------- cut carriers

  lemma KvCut(s: Bytes, m: nat)
    requires |s| < TWO_31 && m < 4 + |s|
    ensures Prefixed(s).Some? && |Prefixed(s).value| == 4 + |s| && ReadKv(Prefixed(s).value[..m]) == None
  {
    hide Pack, Unpack, Pow256;
    PrefixedRead(s, []);
    Widths();
    UnpackPack(|s|, 4);
    var data := Prefixed(s).value[..m];
    if m >= 4 { assert data[..4] == Pack(|s|, 4); }
  }

  lemma ItemCut(e: Entry<string, HeaderValue>, m: nat)
    requires Small(e) && PackItem(e).Some? && m < |PackItem(e).value|
    ensures ReadItem(PackItem(e).value[..m]) == None
  {
    hide Prefixed, ReadKv;
    PrefixedRead(e.key, []);
    PrefixedRead(e.value.s, []);
    var k, v := Prefixed(e.key).value, Prefixed(e.value.s).value;
    if m < |k| {
      assert (k + v)[..m] == k[..m];
      KvCut(e.key, m);
    } else {
      assert (k + v)[..m] == k + v[..m - |k|];
      PrefixedRead(e.key, v[..m - |k|]);
      KvCut(e.value.s, m - |k|);
    }
  }

  lemma {:induction false} ItemsCut(b: Baggage, m: nat, d: Baggage)
    requires AllSmall(b) && m < |PackItems(b).0|
    ensures ReadItems(PackItems(b).0[..m], |b|, d) == None
    decreases |b|
  {
    hide PackItem, ReadItem, From, Put;
    ItemRead(b[0], []);
    var first, rest := PackItem(b[0]).value, PackItems(b[1..]).0;
    if m < |first| {
      assert (first + rest)[..m] == first[..m];
      ItemCut(b[0], m);
    } else {
      assert (first + rest)[..m] == first + rest[..m - |first|];
      ItemRead(b[0], rest[..m - |first|]);
      ItemsCut(b[1..], m - |first|, Put(d, b[0].key, b[0].value));
    }
  }

  /** A carrier that was cut off anywhere is refused: no part of a context is taken for a whole one. */
  lemma CutCarrierFails(ctx: SpanContext, m: nat)
    requires InRange(ctx) && m < |Injected(ctx).0|
    ensures Extracted(Injected(ctx).0[..m]) == None
  {
    hide HeaderOf, PackItems, ReadItems, Unpack, AllSmall;
    WrittenHeader(ctx);
    var c := Injected(ctx).0;
    if m >= 37 {
      assert c[..m][33..37] == c[33..37];
      assert c[..m][37..] == PackItems(ctx.baggage).0[..m - 37];
      ItemsCut(ctx.baggage, m - 37, []);
    }
  }
}
