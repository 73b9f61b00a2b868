/** Contexts in byte arrays: a fixed header and length-prefixed baggage. */
module BinaryCodec {
  import opened Prelude
  import opened Percent
  import opened BigEndian
  import opened Dict
  import opened ContextString
  import opened SpanContexts

  const TWO_8: int := 0x100
  const TWO_31: int := 0x8000_0000
  const TWO_32: int := 0x1_0000_0000
  const HEADER_LENGTH := 37

  // ----------------------------------------------------------------- injection

  predicate Unsigned(n: int, k: nat) {
    0 <= n < Pow256(k)
  }

  /** struct.pack('>QQQQBI', ...); None is a struct.error. */
  function Header(high: int, low: int, spanId: int, parentId: int, flags: int, count: int): (r: Option<Bytes>)
    ensures r.Some? ==> |r.value| == HEADER_LENGTH && IsBytes(r.value)
  {
    if Unsigned(high, 8) && Unsigned(low, 8) && Unsigned(spanId, 8) && Unsigned(parentId, 8) && Unsigned(flags, 1)
       && Unsigned(count, 4)
    then Some(Pack(high, 8) + Pack(low, 8) + Pack(spanId, 8) + Pack(parentId, 8) + Pack(flags, 1) + Pack(count, 4))
    else None
  }

  /** The header of a context: a trace id above 64 bits is split, and loses what is above 128 bits. */
  function HeaderOf(ctx: SpanContext): Option<Bytes> {
    if ctx.traceId.None? || ctx.flags.None? then None
    else
      var t := ctx.traceId.value;
      var high, low := if t > TWO_64 - 1 then (t / TWO_64) % TWO_64 else 0, if t > TWO_64 - 1 then t % TWO_64 else t;
      Header(high, low, OrZero(ctx.spanId), OrZero(ctx.parentId), ctx.flags.value, |ctx.baggage|)
  }

  /** A length and the bytes; None when the length does not fit. */
  function Prefixed(s: Bytes): Option<Bytes> {
    if Unsigned(|s|, 4) then Some(Pack(|s|, 4) + s) else None
  }

  /** _pack_baggage_item */
  function PackItem(e: Entry<string, HeaderValue>): Option<Bytes> {
    if !e.value.Str? || Prefixed(e.key).None? || Prefixed(e.value.s).None? then None
    else Some(Prefixed(e.key).value + Prefixed(e.value.s).value)
  }

  /** The items up to the first that cannot be packed, and whether that is all of them. */
  function PackItems(b: Baggage): (Bytes, bool) {
    if b == [] then ([], true)
    else if PackItem(b[0]).None? then ([], false)
    else
      var (rest, ok) := PackItems(b[1..]);
      (PackItem(b[0]).value + rest, ok)
  }

  /** What inject appends to the carrier, and whether it ends without an exception. */
  function Injected(ctx: SpanContext): (Bytes, bool) {
    if HeaderOf(ctx).None? then ([], false)
    else
      var (items, ok) := PackItems(ctx.baggage);
      (HeaderOf(ctx).value + items, ok)
  }

  // ---------------------------------------------------------------- extraction

  /** A slice bound of Python. */
  function Bound(i: int, n: nat): (r: nat)
    ensures r <= n
  {
    if i < 0 then (if n + i < 0 then 0 else n + i) else if i > n then n else i
  }

  /** data[lo:hi] */
  function Slice(data: Bytes, lo: int, hi: int): Bytes {
    var l, h := Bound(lo, |data|), Bound(hi, |data|);
    if l <= h then data[l..h] else []
  }

  /** data[lo:] */
  function From(data: Bytes, lo: int): Bytes {
    data[Bound(lo, |data|)..]
  }

  function Signed32(n: int): int {
    if n >= TWO_31 then n - TWO_32 else n
  }

  /** _read_kv: the length is read as a signed integer. The text and the number of bytes read. */
  function ReadKv(data: Bytes): Option<(Bytes, int)> {
    if |data| < 4 then None
    else
      var n := Signed32(Unpack(data[..4]));
      var s := Slice(data, 4, 4 + n);
      if |s| == (if n < 0 then 0 else n) then Some((s, 4 + n)) else None
  }

  /** _unpack_baggage_item */
  function ReadItem(data: Bytes): Option<(Entry<string, HeaderValue>, int)> {
    match ReadKv(data)
    case None => None
    case Some((key, k)) =>
      match ReadKv(From(data, k))
      case None => None
      case Some((value, v)) => Some((Entry(key, Str(value)), k + v))
  }

  /** The loop over the baggage. */
  function ReadItems(data: Bytes, count: nat, baggage: Baggage): Option<Baggage>
    decreases count
  {
    if count == 0 then Some(baggage)
    else
      match ReadItem(data)
      case None => None
      case Some((e, read)) => ReadItems(From(data, read), count - 1, Put(baggage, e.key, e.value))
  }

  function Field(carrier: Bytes, lo: nat, hi: nat): int
    requires lo <= hi <= |carrier|
  {
    Unpack(carrier[lo..hi])
  }

  /** extract; None is an exception. */
  function Extracted(carrier: Bytes): Option<SpanContext> {
    if |carrier| < HEADER_LENGTH then None
    else
      var high, low := Field(carrier, 0, 8), Field(carrier, 8, 16);
      var traceId := if high != 0 then high * TWO_64 + low else low;
      match ReadItems(carrier[HEADER_LENGTH..], Field(carrier, 33, 37), [])
      case None => None
      case Some(baggage) =>
        Some(Make(Some(traceId), Some(Field(carrier, 16, 24)), Some(Field(carrier, 24, 32)),
                  Some(Field(carrier, 32, 33)), baggage, None))
  }

  class ByteArray {
    var bytes: Bytes

    constructor (bs: Bytes)
      ensures bytes == bs
    {
      bytes := bs;
    }

    method Append(bs: Bytes)
      modifies this
      ensures bytes == old(bytes) + bs
    {
      bytes := bytes + bs;
    }

    method Inject(ctx: SpanContext) returns (ok: bool)
      modifies this
      ensures bytes == old(bytes) + Injected(ctx).0 && ok == Injected(ctx).1
    {
      hide PackItem, Pack;
      var header := HeaderOf(ctx);
      if header.None? {
        assert bytes + [] == bytes;
        return false;
      }
      Append(header.value);
      ghost var start := bytes;
      var i := 0;
      while i < |ctx.baggage|
        invariant 0 <= i <= |ctx.baggage|
        invariant bytes + PackItems(ctx.baggage[i..]).0 == start + PackItems(ctx.baggage).0
        invariant PackItems(ctx.baggage[i..]).1 == PackItems(ctx.baggage).1
      {
        assert ctx.baggage[i..][1..] == ctx.baggage[i + 1..];
        var item := PackItem(ctx.baggage[i]);
        if item.None? {
          assert bytes + [] == bytes;
          Associate(old(bytes), header.value, PackItems(ctx.baggage).0);
          return false;
        }
        Associate(bytes, item.value, PackItems(ctx.baggage[i + 1..]).0);
        Append(item.value);
        i := i + 1;
      }
      assert bytes + [] == bytes;
      Associate(old(bytes), header.value, PackItems(ctx.baggage).0);
      ok := true;
    }

    static lemma Associate(a: Bytes, b: Bytes, c: Bytes)
      ensures (a + b) + c == a + (b + c)
    {
    }

    method Extract() returns (r: Option<SpanContext>)
      ensures r == Extracted(bytes)
    {
      if |bytes| < HEADER_LENGTH { return None; }
      var high, low := Field(bytes, 0, 8), Field(bytes, 8, 16);
      var traceId := if high != 0 then high * TWO_64 + low else low;
      var count := Field(bytes, 33, 37);
      var baggage: Baggage := [];
      if count != 0 {
        var data := bytes[HEADER_LENGTH..];
        var i := 0;
        while i < count
          invariant 0 <= i <= count
          invariant ReadItems(data, count - i, baggage) == ReadItems(bytes[HEADER_LENGTH..], count, [])
        {
          var item := ReadItem(data);
          if item.None? { return None; }
          baggage := Put(baggage, item.value.0.key, item.value.0.value);
          data := From(data, item.value.1);
          i := i + 1;
        }
      }
      r := Some(Make(Some(traceId), Some(Field(bytes, 16, 24)), Some(Field(bytes, 24, 32)),
                     Some(Field(bytes, 32, 33)), baggage, None));
    }
  }
}
