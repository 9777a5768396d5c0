/** The generated Go writers and decoding targets of OrderCreatedEvent (golang-order-kratos/gen/avro). */
module AvroRecords {
  import opened Common
  import opened AvroCodec

  function Cut(b: Bytes, capacity: nat): Bytes {
    b[..Min(capacity, |b|)]
  }

  /** An io.Writer that takes `capacity` bytes in all; a write that does not fit writes what it can and fails. */
  class Writer {
    const capacity: nat
    var written: Bytes

    ghost predicate Valid()
      reads this
    {
      |written| <= capacity
    }

    /** Outcome of a call that was to append `bytes` to `before`. */
    ghost predicate Wrote(before: Bytes, bytes: Bytes, ok: bool)
      reads this
    {
      && written == Cut(before + bytes, capacity)
      && (ok <==> |before| + |bytes| <= capacity)
    }

    constructor (capacity: nat)
      ensures Valid() && this.capacity == capacity && written == []
    {
      this.capacity := capacity;
      written := [];
    }

    method Write(bytes: Bytes) returns (ok: bool)
      requires Valid()
      modifies this
      ensures Valid() && Wrote(old(written), bytes, ok)
    {
      ok := |written| + |bytes| <= capacity;
      written := Cut(written + bytes, capacity);
    }

    method WriteLong(n: int) returns (ok: bool)
      requires Valid()
      modifies this
      ensures Valid() && Wrote(old(written), EncodeLong(n), ok)
    {
      var encoded: nat := ZigZag(n);
      var bytes: Bytes := [];
      if encoded == 0 {
        bytes := [0];
        assert bytes == Varint(0);
      } else {
        while encoded > 0
          invariant encoded > 0 ==> bytes + Varint(encoded) == Varint(ZigZag(n))
          invariant encoded == 0 ==> bytes == Varint(ZigZag(n))
          invariant written == old(written)
        {
          var low := encoded % 128;
          var high := encoded / 128;
          if high == 0 {
            assert bytes + [low as byte] == Varint(ZigZag(n));
            bytes := bytes + [low as byte];
          } else {
            assert bytes + [(low + 128) as byte] + Varint(high) == bytes + Varint(encoded);
            bytes := bytes + [(low + 128) as byte];
          }
          encoded := high;
        }
      }
      assert bytes == EncodeLong(n);
      ok := Write(bytes);
    }

    method WriteString(s: GoString) returns (ok: bool)
      requires Valid()
      modifies this
      ensures Valid() && Wrote(old(written), EncodeString(s), ok)
    {
      ok := WriteLong(|s|);
      CutTwice(old(written), EncodeLong(|s|), s, capacity);
      if ok {
        ok := Write(s);
      }
    }

    method WriteDouble(d: DoubleBits) returns (ok: bool)
      requires Valid()
      modifies this
      ensures Valid() && Wrote(old(written), EncodeDouble(d), ok)
    {
      ok := Write(EncodeDouble(d));
    }
  }

  /** A writer that is already full stays as it is, and one that is not holds everything written so far. */
  lemma CutTwice(before: Bytes, first: Bytes, second: Bytes, capacity: nat)
    ensures before + (first + second) == before + first + second
    ensures |before + first| <= capacity ==> Cut(before + first, capacity) == before + first
    ensures |before + first| > capacity ==> Cut(before + first, capacity) == Cut(before + first + second, capacity)
  {
  }

  method WriteItem(i: Item, w: Writer) returns (ok: bool)
    requires w.Valid()
    modifies w
    ensures w.Valid() && w.Wrote(old(w.written), EncodeItem(i), ok)
  {
    ghost var quantity, price := EncodeLong(i.quantity as int), EncodeDouble(i.unitPrice);
    ghost var head := EncodeString(i.variantId);
    assert EncodeItem(i) == head + quantity + price;
    CutTwice(old(w.written), head + quantity, price, w.capacity);
    CutTwice(old(w.written), head, quantity, w.capacity);
    ok := w.WriteString(i.variantId);
    if !ok { return; }
    ok := w.WriteLong(i.quantity as int);
    if !ok { return; }
    ok := w.WriteDouble(i.unitPrice);
  }

  lemma EncodeItemsLast(items: seq<Item>, n: nat)
    requires n < |items|
    ensures EncodeItems(items[..n + 1]) == EncodeItems(items[..n]) + EncodeItem(items[n])
  {
    assert items[..n + 1][..n] == items[..n];
  }

  lemma {:induction false} EncodeItemsSplit(items: seq<Item>, n: nat)
    requires n <= |items|
    ensures EncodeItems(items) == EncodeItems(items[..n]) + EncodeItems(items[n..])
    decreases |items| - n
  {
    if n == |items| {
      assert items[..n] == items;
    } else {
      var rest := items[n..];
      EncodeItemsSplit(items, n + 1);
      EncodeItemsLast(items, n);
      assert EncodeItems(rest) == EncodeItem(items[n]) + EncodeItems(items[n + 1..]) by {
        EncodeItemsHead(rest);
        assert rest[1..] == items[n + 1..];
      }
      ConcatAssoc(EncodeItems(items[..n]), EncodeItem(items[n]), EncodeItems(items[n + 1..]));
    }
  }

  lemma CutInside(before: Bytes, a: Bytes, b: Bytes, c: Bytes, capacity: nat)
    requires |before + a + b| > capacity
    ensures Cut(before + a + b, capacity) == Cut(before + (a + (b + c)), capacity)
    ensures |before + (a + (b + c))| > capacity
  {
  }

  /** A writer that overflows on the first n items holds the same bytes as one given the whole array. */
  lemma {:induction false} ArrayOverflow(before: Bytes, items: seq<Item>, n: nat, capacity: nat)
    requires items != [] && n <= |items|
    requires |before + EncodeLong(|items|) + EncodeItems(items[..n])| > capacity
    ensures Cut(before + EncodeLong(|items|) + EncodeItems(items[..n]), capacity) == Cut(before + EncodeArray(items), capacity)
    ensures |before + EncodeArray(items)| > capacity
  {
    var count, first, last, zero := EncodeLong(|items|), EncodeItems(items[..n]), EncodeItems(items[n..]), EncodeLong(0);
    assert EncodeArray(items) == count + (first + (last + zero)) by {
      EncodeItemsSplit(items, n);
      assert count + (first + last) + zero == count + (first + (last + zero));
    }
    CutInside(before, count, first, last + zero, capacity);
  }

  /** The loop of writeArrayItem. */
  method WriteItems(items: seq<Item>, w: Writer) returns (ok: bool)
    requires w.Valid()
    modifies w
    ensures w.Valid()
    ensures ok ==> w.written == old(w.written) + EncodeItems(items)
    ensures !ok ==> exists n :: 0 < n <= |items| && w.Wrote(old(w.written), EncodeItems(items[..n]), false)
  {
    ghost var before := w.written;
    var n := 0;
    while n < |items|
      invariant 0 <= n <= |items|
      invariant w.Valid() && w.written == before + EncodeItems(items[..n])
    {
      EncodeItemsLast(items, n);
      assert before + EncodeItems(items[..n + 1]) == before + EncodeItems(items[..n]) + EncodeItem(items[n]);
      ok := WriteItem(items[n], w);
      if !ok {
        assert w.Wrote(before, EncodeItems(items[..n + 1]), false);
        return;
      }
      CutTwice(before + EncodeItems(items[..n]), EncodeItem(items[n]), [], w.capacity);
      n := n + 1;
    }
    assert items[..n] == items;
    ok := true;
  }

  lemma ArrayParts(before: Bytes, items: seq<Item>)
    ensures items == [] ==> EncodeArray(items) == EncodeLong(|items|)
    ensures items != [] ==>
      before + EncodeArray(items) == before + EncodeLong(|items|) + EncodeItems(items) + EncodeLong(0)
  {
    if items != [] {
      var count, body, zero := EncodeLong(|items|), EncodeItems(items), EncodeLong(0);
      ConcatAssoc(before, count + body, zero);
      ConcatAssoc(before, count, body);
    }
  }

  /** The rest of writeArrayItem, once the count is written. */
  method WriteBlock(items: seq<Item>, w: Writer, ghost before: Bytes) returns (ok: bool)
    requires w.Valid() && items != []
    requires w.written == before + EncodeLong(|items|)
    modifies w
    ensures w.Valid() && w.Wrote(before, EncodeArray(items), ok)
  {
    ok := WriteItems(items, w);
    if !ok {
      ghost var n :| 0 < n <= |items| && w.Wrote(before + EncodeLong(|items|), EncodeItems(items[..n]), false);
      ArrayOverflow(before, items, n, w.capacity);
      return;
    }
    ArrayParts(before, items);
    ok := w.WriteLong(0);
  }

  method WriteArrayItem(items: seq<Item>, w: Writer) returns (ok: bool)
    requires w.Valid()
    modifies w
    ensures w.Valid() && w.Wrote(old(w.written), EncodeArray(items), ok)
  {
    ghost var before := w.written;
    ok := w.WriteLong(|items|);
    ArrayParts(before, items);
    if |items| == 0 {
      return;
    }
    assert before + EncodeLong(|items|) + EncodeItems(items[..0]) == before + EncodeLong(|items|);
    if !ok {
      ArrayOverflow(before, items, 0, w.capacity);
      return;
    }
    assert w.written == before + EncodeLong(|items|);
    ok := WriteBlock(items, w, before);
  }

  /** Writes the whole encoding if it fits; otherwise reports failure, having written a prefix of it. */
  method WriteOrderCreatedEvent(r: OrderCreatedEvent, w: Writer) returns (ok: bool)
    requires w.Valid()
    modifies w
    ensures w.Valid() && w.Wrote(old(w.written), Encode(r), ok)
  {
    ghost var before := old(w.written);
    ghost var id, status, price := EncodeString(r.orderId), EncodeString(r.status), EncodeDouble(r.temporaryPrice);
    ghost var customer, items := EncodeString(r.customerId), EncodeArray(r.items);
    assert Encode(r) == id + status + price + customer + items;
    CutTwice(before, id + status + price + customer, items, w.capacity);
    CutTwice(before, id + status + price, customer, w.capacity);
    CutTwice(before, id + status, price, w.capacity);
    CutTwice(before, id, status, w.capacity);
    ok := w.WriteString(r.orderId);
    if !ok { return; }
    ok := w.WriteString(r.status);
    if !ok { return; }
    ok := w.WriteDouble(r.temporaryPrice);
    if !ok { return; }
    ok := w.WriteString(r.customerId);
    if !ok { return; }
    ok := WriteArrayItem(r.items, w);
  }

  // ---------------------------------------------------------------- decoding targets

  /** The struct that the decoding machine fills in, field by field. */
  class EventTarget {
    var orderId: GoString
    var status: GoString
    var temporaryPrice: DoubleBits
    var customerId: GoString
    var items: seq<Item>

    constructor ()
      ensures items == []
    {
      orderId, status, temporaryPrice, customerId, items := [], [], 0, [], [];
    }

    function Event(): OrderCreatedEvent
      reads this
    {
      OrderCreatedEvent(orderId, status, temporaryPrice, customerId, items)
    }

    /** ArrayItemWrapper.HintSize: a capacity hint, which must not lose items already decoded. */
    method HintSize(size: nat)
      modifies `items
      ensures items == old(items)
    {
      if |items| == 0 {
        items := [];
      }
    }

    /** ArrayItemWrapper.AppendArray: a fresh item at the end, to be filled in by the caller. */
    method AppendArray() returns (last: nat)
      modifies `items
      ensures last == |old(items)| && |items| == last + 1 && items[..last] == old(items)
    {
      last := |items|;
      items := items + [Item([], 0, 0)];
    }

    /** Decodes the next of the `left` items of a block into a freshly appended one. */
    method DecodeNextItem(b: Bytes, left: nat) returns (r: Option<Bytes>)
      requires left > 0
      modifies `items
      ensures r.None? ==> DecodeBlock(b, left, old(items)).None?
      ensures r.Some? ==> DecodeBlock(b, left, old(items)) == DecodeBlock(r.value, left - 1, items)
    {
      var item := DecodeItem(b);
      if item.None? { return None; }
      BlockStep(b, left, items, item.value.0, item.value.1);
      ghost var sofar := items;
      var last := AppendArray();
      items := items[last := item.value.0];
      assert items == sofar + [item.value.0];
      return Some(item.value.1);
    }

    method DecodeBlockItems(b: Bytes, count: nat) returns (r: Option<Bytes>)
      modifies `items
      ensures r.None? <==> DecodeBlock(b, count, old(items)).None?
      ensures r.Some? ==> DecodeBlock(b, count, old(items)) == Some((items, r.value))
    {
      ghost var expected := DecodeBlock(b, count, items);
      HintSize(count);
      r := Some(b);
      var left := count;
      while left > 0 && r.Some?
        invariant r.None? ==> expected.None?
        invariant r.Some? ==> expected == DecodeBlock(r.value, left, items)
      {
        r := DecodeNextItem(r.value, left);
        left := left - 1;
      }
    }

    /** Field 4: the target's earlier items are dropped, then each block appends its own. */
    method DecodeItems(b: Bytes) returns (r: Option<Bytes>)
      modifies `items
      ensures r.None? <==> DecodeArray(b, []).None?
      ensures r.Some? ==> DecodeArray(b, []) == Some((items, r.value))
    {
      items := [];
      var cur := b;
      while true
        invariant DecodeArray(b, []) == DecodeArray(cur, items)
        decreases |cur|
      {
        var header := DecodeHeader(cur);
        if header.None? { return None; }
        var (count, block) := header.value;
        if count == 0 { return Some(block); }
        var rest := DecodeBlockItems(block, count);
        if rest.None? { return None; }
        cur := rest.value;
      }
    }

    /** Decoding over a used target leaves nothing of what it held. */
    method DecodeEvent(b: Bytes) returns (r: Option<Bytes>)
      modifies this
      ensures r.None? <==> Decode(b).None?
      ensures r.Some? ==> Decode(b) == Some((Event(), r.value))
    {
      var f0 := DecodeString(b);
      if f0.None? { return None; }
      orderId := f0.value.0;
      var f1 := DecodeString(f0.value.1);
      if f1.None? { return None; }
      status := f1.value.0;
      var f2 := DecodeDouble(f1.value.1);
      if f2.None? { return None; }
      temporaryPrice := f2.value.0;
      var f3 := DecodeString(f2.value.1);
      if f3.None? { return None; }
      customerId := f3.value.0;
      r := DecodeItems(f3.value.1);
    }
  }
}
