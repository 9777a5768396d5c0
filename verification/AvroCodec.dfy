/** The binary form of OrderCreatedEvent, and the decoder that section "Binary Encoding" of the
    Apache Avro 1.11 specification prescribes for the event's schema. */
module AvroCodec {
  import opened Common

  type Bytes = seq<byte>

  /** The 64 bits of an IEEE 754 double. */
  newtype DoubleBits = x: int | 0 <= x < 0x1_0000_0000_0000_0000

  datatype Item = Item(variantId: GoString, quantity: int32, unitPrice: DoubleBits)

  datatype OrderCreatedEvent = OrderCreatedEvent(
    orderId: GoString,
    status: GoString,
    temporaryPrice: DoubleBits,
    customerId: GoString,
    items: seq<Item>)

  /** A decoded value and the bytes after it; None if the bytes are malformed. */
  type Decoded<T> = Option<(T, Bytes)>

  // ---------------------------------------------------------------- encoding

  function ZigZag(n: int): nat {
    if n >= 0 then 2 * n else -2 * n - 1
  }

  function Varint(n: nat): (r: Bytes)
    ensures |r| >= 1
  {
    if n < 128 then [n as byte] else [(n % 128 + 128) as byte] + Varint(n / 128)
  }

  function EncodeLong(n: int): (r: Bytes)
    ensures |r| >= 1
  {
    Varint(ZigZag(n))
  }

  function EncodeString(s: GoString): (r: Bytes)
    ensures |r| >= 1
  {
    EncodeLong(|s|) + s
  }

  /** The low `width` bytes of n, least significant first. */
  function LittleEndian(n: nat, width: nat): (r: Bytes)
    ensures |r| == width
  {
    if width == 0 then [] else [(n % 256) as byte] + LittleEndian(n / 256, width - 1)
  }

  function EncodeDouble(d: DoubleBits): Bytes {
    LittleEndian(d as int, 8)
  }

  function EncodeItem(i: Item): (r: Bytes)
    ensures |r| >= 1
  {
    EncodeString(i.variantId) + EncodeLong(i.quantity as int) + EncodeDouble(i.unitPrice)
  }

  function EncodeItems(items: seq<Item>): Bytes {
    if items == [] then [] else EncodeItems(items[..|items| - 1]) + EncodeItem(items[|items| - 1])
  }

  /** One block with the count and all items, then the empty block; an empty array is the empty block alone. */
  function EncodeArray(items: seq<Item>): Bytes {
    if items == [] then EncodeLong(0) else EncodeLong(|items|) + EncodeItems(items) + EncodeLong(0)
  }

  function Encode(e: OrderCreatedEvent): Bytes {
    EncodeString(e.orderId) + EncodeString(e.status) + EncodeDouble(e.temporaryPrice) +
    EncodeString(e.customerId) + EncodeArray(e.items)
  }

  /** The sample values of longs in section "Binary Encoding". */
  lemma SampleLongs()
    ensures EncodeLong(0) == [0] && EncodeLong(-1) == [1] && EncodeLong(1) == [2] && EncodeLong(-2) == [3]
    ensures EncodeLong(2) == [4] && EncodeLong(-64) == [127] && EncodeLong(64) == [128, 1]
  {
    assert Varint(128) == [128] + Varint(1);
  }

  /** Byte k of a double holds bits 8k to 8k + 7. */
  lemma {:induction false} LittleEndianByte(n: nat, width: nat, k: nat)
    requires k < width
    ensures LittleEndian(n, width)[k] as int == n / Pow256(k) % 256
  {
    if k > 0 {
      LittleEndianByte(n / 256, width - 1, k - 1);
      DivideTwice(n, Pow256(k - 1));
    }
  }

  lemma {:induction false} DivideTwice(n: nat, d: nat)
    requires d > 0
    ensures n / 256 / d == n / (256 * d)
  {
    var q, r := n / 256, n % 256;
    var q', r' := q / d, q % d;
    assert n == 256 * (d * q' + r') + r == (256 * d) * q' + (256 * r' + r);
    assert 0 <= 256 * r' + r < 256 * d;
    QuotientIs(n, 256 * d, q', 256 * r' + r);
  }

  lemma {:induction false} QuotientIs(n: nat, d: nat, q: nat, r: nat)
    requires n == d * q + r && r < d
    ensures n / d == q
  {
    var diff: int := n / d - q;
    assert d * diff == r - n % d;
    assert diff >= 1 ==> d * diff >= d;
    assert diff <= -1 ==> d * diff <= 0 - d;
  }

  /** The fields follow each other in the schema's order; a string is its length and its bytes. */
  lemma {:induction false} Layout(e: OrderCreatedEvent)
    ensures Encode(e) ==
      EncodeLong(|e.orderId|) + e.orderId + EncodeLong(|e.status|) + e.status + LittleEndian(e.temporaryPrice as int, 8) +
      EncodeLong(|e.customerId|) + e.customerId + EncodeArray(e.items)
    ensures |e.items| == 1 ==> var i := e.items[0];
      EncodeArray(e.items) == EncodeLong(1) + EncodeLong(|i.variantId|) + i.variantId + EncodeLong(i.quantity as int)
        + LittleEndian(i.unitPrice as int, 8) + [0]
  {
    ConcatAssoc(EncodeString(e.orderId), EncodeLong(|e.status|), e.status);
    ConcatAssoc(EncodeString(e.orderId) + EncodeString(e.status) + EncodeDouble(e.temporaryPrice), EncodeLong(|e.customerId|), e.customerId);
    if |e.items| == 1 {
      var item := e.items[0];
      var head, tail := EncodeLong(|item.variantId|) + item.variantId, EncodeLong(item.quantity as int);
      assert EncodeItems(e.items[..0]) == [];
      assert EncodeItems(e.items) == head + tail + EncodeDouble(item.unitPrice);
      ConcatAssoc(EncodeLong(1), head + tail, EncodeDouble(item.unitPrice));
      ConcatAssoc(EncodeLong(1), head, tail);
      ConcatAssoc(EncodeLong(1), EncodeLong(|item.variantId|), item.variantId);
      assert EncodeLong(0) == [0];
    }
  }

  // ---------------------------------------------------------------- decoding

  function DecodeVarint(b: Bytes): (r: Decoded<nat>)
    ensures r.Some? ==> |r.value.1| < |b|
  {
    if b == [] then None
    else if b[0] < 128 then Some((b[0] as nat, b[1..]))
    else match DecodeVarint(b[1..])
      case None => None
      case Some((high, rest)) => Some((b[0] as nat - 128 + 128 * high, rest))
  }

  function DecodeLong(b: Bytes): (r: Decoded<int>)
    ensures r.Some? ==> |r.value.1| < |b|
  {
    match DecodeVarint(b)
    case None => None
    case Some((z, rest)) => Some((if z % 2 == 0 then z / 2 else -(z / 2) - 1, rest))
  }

  function DecodeString(b: Bytes): (r: Decoded<GoString>)
    ensures r.Some? ==> |r.value.1| < |b|
  {
    match DecodeLong(b)
    case None => None
    case Some((n, rest)) => if 0 <= n <= |rest| then Some((rest[..n], rest[n..])) else None
  }

  function FromLittleEndian(b: Bytes): nat {
    if b == [] then 0 else b[0] as nat + 256 * FromLittleEndian(b[1..])
  }

  function Pow256(width: nat): (r: nat)
    ensures r >= 1
  {
    if width == 0 then 1 else 256 * Pow256(width - 1)
  }

  lemma {:induction false} FromLittleEndianBound(b: Bytes)
    ensures FromLittleEndian(b) < Pow256(|b|)
  {
    if b != [] {
      FromLittleEndianBound(b[1..]);
    }
  }

  lemma Pow256Of8()
    ensures Pow256(8) == 0x1_0000_0000_0000_0000
  {
    assert Pow256(4) == 0x1_0000_0000;
    assert Pow256(8) == 256 * 256 * 256 * 256 * Pow256(4);
  }

  function DecodeDouble(b: Bytes): (r: Decoded<DoubleBits>)
    ensures r.Some? ==> |r.value.1| < |b|
  {
    if |b| < 8 then None
    else
      FromLittleEndianBound(b[..8]);
      Pow256Of8();
      Some((FromLittleEndian(b[..8]) as DoubleBits, b[8..]))
  }

  function DecodeItem(b: Bytes): (r: Decoded<Item>)
    ensures r.Some? ==> |r.value.1| < |b|
  {
    match DecodeString(b)
    case None => None
    case Some((variantId, b1)) =>
      match DecodeLong(b1)
      case None => None
      case Some((quantity, b2)) =>
        if !(-0x8000_0000 <= quantity < 0x8000_0000) then None
        else match DecodeDouble(b2)
          case None => None
          case Some((unitPrice, b3)) => Some((Item(variantId, quantity as int32, unitPrice), b3))
  }

  /** The `count` items of one block, appended one by one to those decoded before. */
  function DecodeBlock(b: Bytes, count: nat, before: seq<Item>): (r: Decoded<seq<Item>>)
    ensures r.Some? ==> |r.value.1| <= |b|
    decreases count
  {
    if count == 0 then Some((before, b))
    else match DecodeItem(b)
      case None => None
      case Some((item, rest)) => DecodeBlock(rest, count - 1, before + [item])
  }

  /** The count that starts a block. A negative count is followed by the block's size in bytes. */
  function DecodeHeader(b: Bytes): (r: Decoded<nat>)
    ensures r.Some? ==> |r.value.1| < |b|
  {
    match DecodeLong(b)
    case None => None
    case Some((count, b1)) =>
      if count >= 0 then Some((count, b1))
      else match DecodeLong(b1)
        case None => None
        case Some((size, b2)) => Some((-count, b2))
  }

  /** Blocks up to the block of count zero. */
  function DecodeArray(b: Bytes, before: seq<Item>): (r: Decoded<seq<Item>>)
    ensures r.Some? ==> |r.value.1| < |b|
    decreases |b|
  {
    match DecodeHeader(b)
    case None => None
    case Some((count, b1)) =>
      if count == 0 then Some((before, b1))
      else match DecodeBlock(b1, count, before)
        case None => None
        case Some((items, b2)) => DecodeArray(b2, items)
  }

  /** The last two fields, after the first three. */
  function DecodeTail(orderId: GoString, status: GoString, temporaryPrice: DoubleBits, b: Bytes): Decoded<OrderCreatedEvent> {
    match DecodeString(b)
    case None => None
    case Some((customerId, b1)) =>
      match DecodeArray(b1, [])
      case None => None
      case Some((items, b2)) =>
        Some((OrderCreatedEvent(orderId, status, temporaryPrice, customerId, items), b2))
  }

  function Decode(b: Bytes): Decoded<OrderCreatedEvent> {
    match DecodeString(b)
    case None => None
    case Some((orderId, b1)) =>
      match DecodeString(b1)
      case None => None
      case Some((status, b2)) =>
        match DecodeDouble(b2)
        case None => None
        case Some((temporaryPrice, b3)) => DecodeTail(orderId, status, temporaryPrice, b3)
  }

  // ---------------------------------------------------------------- round trips

  lemma {:induction false} VarintRoundTrip(n: nat, rest: Bytes)
    ensures DecodeVarint(Varint(n) + rest) == Some((n, rest))
  {
    var b := Varint(n) + rest;
    if n < 128 {
      assert b[1..] == rest;
    } else {
      assert b[1..] == Varint(n / 128) + rest;
      VarintRoundTrip(n / 128, rest);
    }
  }

  lemma {:induction false} LongRoundTrip(n: int, rest: Bytes)
    ensures DecodeLong(EncodeLong(n) + rest) == Some((n, rest))
  {
    VarintRoundTrip(ZigZag(n), rest);
  }

  lemma {:induction false} StringRoundTrip(s: GoString, rest: Bytes)
    ensures DecodeString(EncodeString(s) + rest) == Some((s, rest))
  {
    assert EncodeString(s) + rest == EncodeLong(|s|) + (s + rest);
    LongRoundTrip(|s|, s + rest);
  }

  lemma {:induction false} LittleEndianRoundTrip(n: nat, width: nat)
    requires n < Pow256(width)
    ensures FromLittleEndian(LittleEndian(n, width)) == n
  {
    if width > 0 {
      var b := LittleEndian(n, width);
      assert b[1..] == LittleEndian(n / 256, width - 1);
      LittleEndianRoundTrip(n / 256, width - 1);
    }
  }

  lemma {:induction false} DoubleRoundTrip(d: DoubleBits, rest: Bytes)
    ensures DecodeDouble(EncodeDouble(d) + rest) == Some((d, rest))
  {
    Pow256Of8();
    LittleEndianRoundTrip(d as int, 8);
    var b := EncodeDouble(d) + rest;
    assert b[..8] == EncodeDouble(d) && b[8..] == rest;
  }

  lemma {:induction false} ItemRoundTrip(i: Item, rest: Bytes)
    ensures DecodeItem(EncodeItem(i) + rest) == Some((i, rest))
  {
    var b2 := EncodeDouble(i.unitPrice) + rest;
    var b1 := EncodeLong(i.quantity as int) + b2;
    assert EncodeItem(i) + rest == EncodeString(i.variantId) + b1;
    StringRoundTrip(i.variantId, b1);
    LongRoundTrip(i.quantity as int, b2);
    DoubleRoundTrip(i.unitPrice, rest);
  }

  lemma {:induction false} EncodeItemsHead(items: seq<Item>)
    requires items != []
    ensures EncodeItems(items) == EncodeItem(items[0]) + EncodeItems(items[1..])
  {
    var n := |items| - 1;
    if n > 0 {
      EncodeItemsHead(items[..n]);
      assert items[..n][1..] == items[1..][..n - 1];
    }
  }

  lemma BlockStep(b: Bytes, count: nat, before: seq<Item>, item: Item, rest: Bytes)
    requires DecodeItem(b) == Some((item, rest)) && count > 0
    ensures DecodeBlock(b, count, before) == DecodeBlock(rest, count - 1, before + [item])
  {
  }

  /** Repeated append rebuilds the items of a block in order, after whatever was there before. */
  lemma {:induction false} BlockRoundTrip(items: seq<Item>, before: seq<Item>, rest: Bytes)
    ensures DecodeBlock(EncodeItems(items) + rest, |items|, before) == Some((before + items, rest))
    decreases |items|
  {
    hide DecodeItem, EncodeItem;
    var b := EncodeItems(items) + rest;
    if items == [] {
      assert b == rest && before + items == before;
    } else {
      var tail := EncodeItems(items[1..]) + rest;
      assert DecodeItem(b) == Some((items[0], tail)) by {
        EncodeItemsHead(items);
        assert b == EncodeItem(items[0]) + tail;
        ItemRoundTrip(items[0], tail);
      }
      BlockStep(b, |items|, before, items[0], tail);
      BlockRoundTrip(items[1..], before + [items[0]], rest);
      assert before + [items[0]] + items[1..] == before + items;
    }
  }

  lemma ArrayStep(b: Bytes, before: seq<Item>, count: nat, b1: Bytes, items: seq<Item>, b2: Bytes)
    requires DecodeHeader(b) == Some((count, b1)) && count > 0 && DecodeBlock(b1, count, before) == Some((items, b2))
    ensures DecodeArray(b, before) == DecodeArray(b2, items)
  {
  }

  lemma ArrayEnd(rest: Bytes, items: seq<Item>)
    ensures DecodeArray(EncodeLong(0) + rest, items) == Some((items, rest))
  {
    LongRoundTrip(0, rest);
  }

  /** The item array is one count block and a terminator, or a lone zero, and decodes to the same items. */
  lemma {:induction false} ArrayRoundTrip(items: seq<Item>, rest: Bytes)
    ensures DecodeArray(EncodeArray(items) + rest, []) == Some((items, rest))
    ensures items == [] ==> EncodeArray(items) == [0]
    ensures items != [] ==> exists body :: EncodeArray(items) == EncodeLong(|items|) + body + [0]
  {
    hide DecodeLong, DecodeBlock, DecodeArray, EncodeItems;
    ArrayEnd(rest, items);
    assert EncodeLong(0) == [0];
    if items != [] {
      var after := EncodeLong(0) + rest;
      assert EncodeArray(items) + rest == EncodeLong(|items|) + (EncodeItems(items) + after);
      LongRoundTrip(|items|, EncodeItems(items) + after);
      BlockRoundTrip(items, [], after);
      assert [] + items == items;
      ArrayStep(EncodeArray(items) + rest, [], |items|, EncodeItems(items) + after, items, after);
      assert EncodeArray(items) == EncodeLong(|items|) + EncodeItems(items) + [0];
    }
  }

  lemma ConcatAssoc(a: Bytes, b: Bytes, c: Bytes)
    ensures (a + b) + c == a + (b + c)
  {
  }

  lemma {:induction false} TailRoundTrip(e: OrderCreatedEvent, rest: Bytes)
    ensures DecodeTail(e.orderId, e.status, e.temporaryPrice, EncodeString(e.customerId) + (EncodeArray(e.items) + rest)) == Some((e, rest))
  {
    StringRoundTrip(e.customerId, EncodeArray(e.items) + rest);
    ArrayRoundTrip(e.items, rest);
  }

  lemma {:induction false} EncodeNested(e: OrderCreatedEvent, rest: Bytes)
    ensures Encode(e) + rest ==
      EncodeString(e.orderId) + (EncodeString(e.status) + (EncodeDouble(e.temporaryPrice) +
        (EncodeString(e.customerId) + (EncodeArray(e.items) + rest))))
  {
    var a, b, c := EncodeString(e.orderId), EncodeString(e.status), EncodeDouble(e.temporaryPrice);
    var d, z := EncodeString(e.customerId), EncodeArray(e.items);
    ConcatAssoc(a + b + c + d, z, rest);
    ConcatAssoc(a + b + c, d, z + rest);
    ConcatAssoc(a + b, c, d + (z + rest));
    ConcatAssoc(a, b, c + (d + (z + rest)));
  }

  /** Decoding an encoded event followed by any bytes gives back the event and exactly those bytes. */
  lemma {:induction false} RoundTrip(e: OrderCreatedEvent, rest: Bytes)
    ensures Decode(Encode(e) + rest) == Some((e, rest))
  {
    var b3 := EncodeString(e.customerId) + (EncodeArray(e.items) + rest);
    var b2 := EncodeDouble(e.temporaryPrice) + b3;
    EncodeNested(e, rest);
    StringRoundTrip(e.orderId, EncodeString(e.status) + b2);
    StringRoundTrip(e.status, b2);
    DoubleRoundTrip(e.temporaryPrice, b3);
    TailRoundTrip(e, rest);
  }

  /** No two events share an encoding, and no encoding is a proper prefix of another. */
  lemma {:induction false} PrefixFree(e1: OrderCreatedEvent, rest1: Bytes, e2: OrderCreatedEvent, rest2: Bytes)
    requires Encode(e1) + rest1 == Encode(e2) + rest2
    ensures e1 == e2 && rest1 == rest2
  {
    RoundTrip(e1, rest1);
    RoundTrip(e2, rest2);
  }
}
