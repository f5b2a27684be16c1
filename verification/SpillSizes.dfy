/** Encoding rows into a bounded buffer, and the size function that budgets for it without encoding. */
module SpillSizes {
  import opened Wrappers
  import opened QueryValues
  import opened ByteStrings
  import opened SpillCodec

  // ----- the tail is only carried along

  lemma BytesAppend(bytes: Bytes8, a: Bytes8, tail: Bytes8)
    ensures PutBytes(bytes, a + tail) == PutBytes(bytes, a) + tail
  {
    assert bytes + (a + tail) == (bytes + a) + tail;
    assert BigEndian(AsU64(|bytes|), 8) + ((bytes + a) + tail) == (BigEndian(AsU64(|bytes|), 8) + (bytes + a)) + tail;
  }

  lemma U64Append(n: U64, a: Bytes8, tail: Bytes8)
    ensures PutU64(n, a + tail) == PutU64(n, a) + tail
  {
  }

  lemma TimesAppend(version: U64, validStart: I64, validEnd: I64, transactionTime: I64, a: Bytes8, tail: Bytes8)
    ensures PutTimes(version, validStart, validEnd, transactionTime, a + tail)
         == PutTimes(version, validStart, validEnd, transactionTime, a) + tail
  {
    hide PutU64;
    U64Append(Unsigned(transactionTime), a, tail);
    U64Append(Unsigned(validEnd), PutI64(transactionTime, a), tail);
    U64Append(Unsigned(validStart), PutI64(validEnd, PutI64(transactionTime, a)), tail);
    U64Append(version, PutI64(validStart, PutI64(validEnd, PutI64(transactionTime, a))), tail);
  }

  lemma {:induction false} ValueAppend(value: QueryValue, depth: nat, a: Bytes8, tail: Bytes8)
    ensures PutValue(value, depth, a + tail) == PutValue(value, depth, a) + tail
    decreases MAX_DEPTH - depth, 0
  {
    hide PutU64, PutBytes, PutTimes, PutMap, PutItems;
    if depth < MAX_DEPTH {
      match value
      case QInteger(i) => U64Append(Unsigned(i), a, tail);
      case QFloatBits(bits) => U64Append(bits, a, tail);
      case QBytes(bytes) => BytesAppend(bytes, a, tail);
      case QText(text) => BytesAppend(text, a, tail);
      case QList(items) =>
        ItemsAppend(items, depth + 1, a, tail);
        U64Append(AsU64(|items|), PutItems(items, depth + 1, a), tail);
      case QMap(entries) => MapAppend(entries, depth + 1, a, tail);
      case QVertex(v) => VertexAppend(v, depth, a, tail);
      case QRelationship(e) => EdgeAppend(e, depth, a, tail);
      case _ =>
    }
  }

  lemma {:induction false} VertexAppend(v: VertexVersion, depth: nat, a: Bytes8, tail: Bytes8)
    requires depth < MAX_DEPTH
    ensures PutValue(QVertex(v), depth, a + tail) == PutValue(QVertex(v), depth, a) + tail
    decreases MAX_DEPTH - depth - 1, 3
  {
    hide PutTimes, PutMap, FromKernelEntries;
    var entries := FromKernelEntries(v.properties);
    MapAppend(entries, depth + 1, a, tail);
    TimesAppend(v.version, v.validStart, v.validEnd, v.transactionTime, PutMap(entries, depth + 1, a), tail);
  }

  lemma {:induction false} EdgeAppend(e: EdgeVersion, depth: nat, a: Bytes8, tail: Bytes8)
    requires depth < MAX_DEPTH
    ensures PutValue(QRelationship(e), depth, a + tail) == PutValue(QRelationship(e), depth, a) + tail
    decreases MAX_DEPTH - depth - 1, 3
  {
    hide PutTimes, PutMap, PutBytes, FromKernelEntries, BigEndian;
    var entries := FromKernelEntries(e.properties);
    MapAppend(entries, depth + 1, a, tail);
    TimesAppend(e.version, e.validStart, e.validEnd, e.transactionTime, PutMap(entries, depth + 1, a), tail);
    BytesAppend(e.edgeType, PutTimes(e.version, e.validStart, e.validEnd, e.transactionTime,
        PutMap(entries, depth + 1, a)), tail);
  }

  lemma {:induction false} ItemsAppend(items: seq<QueryValue>, depth: nat, a: Bytes8, tail: Bytes8)
    ensures PutItems(items, depth, a + tail) == PutItems(items, depth, a) + tail
    decreases MAX_DEPTH - depth, 1, |items|
  {
    if items != [] {
      ItemsAppend(items[1..], depth, a, tail);
      ValueAppend(items[0], depth, PutItems(items[1..], depth, a), tail);
    }
  }

  lemma {:induction false} MapAppend(entries: seq<QueryEntry>, depth: nat, a: Bytes8, tail: Bytes8)
    ensures PutMap(entries, depth, a + tail) == PutMap(entries, depth, a) + tail
    decreases MAX_DEPTH - depth, 2
  {
    EntriesAppend(entries, depth, a, tail);
    U64Append(AsU64(|entries|), PutEntries(entries, depth, a), tail);
  }

  lemma {:induction false} EntriesAppend(entries: seq<QueryEntry>, depth: nat, a: Bytes8, tail: Bytes8)
    ensures PutEntries(entries, depth, a + tail) == PutEntries(entries, depth, a) + tail
    decreases MAX_DEPTH - depth, 1, |entries|
  {
    hide PutBytes, PutValue;
    if entries != [] {
      var rest := PutEntries(entries[1..], depth, a);
      EntriesAppend(entries[1..], depth, a, tail);
      ValueAppend(entries[0].value, depth, rest, tail);
      BytesAppend(entries[0].name, PutValue(entries[0].value, depth, rest), tail);
    }
  }

  /** The bytes of a value do not depend on what follows them. */
  lemma ValueThen(value: QueryValue, depth: nat, tail: Bytes8)
    ensures PutValue(value, depth, tail) == PutValue(value, depth, []) + tail
  {
    assert [] + tail == tail;
    ValueAppend(value, depth, [], tail);
  }

  // ----- sizes without encoding

  /** The encoded size, saturating at the largest 64-bit number; none when the value is nested too deeply. */
  function EncodedValueSize(value: QueryValue, depth: nat): (size: Option<U64>)
    decreases MAX_DEPTH - depth, 0
  {
    if depth >= MAX_DEPTH then None
    else match value
      case QNull => Some(1)
      case QBoolean(_) => Some(2)
      case QInteger(_) => Some(9)
      case QFloatBits(_) => Some(9)
      case QBytes(bytes) => Some(Saturating(9 + |bytes|))
      case QText(text) => Some(Saturating(9 + |text|))
      case QList(items) => SizeItems(items, depth + 1, 9)
      case QMap(entries) => SizeEntries(entries, depth + 1, 9)
      case QVertex(v) => SizeEntries(FromKernelEntries(v.properties), depth + 1, 1 + 16 + 8 + 8 + 8 + 8 + 8)
      case QRelationship(e) =>
        SizeEntries(FromKernelEntries(e.properties), depth
            + 1, Saturating(1 + 16 + 16 + 16 + 8 + |e.edgeType| + 8 + 8 + 8 + 8 + 8))
  }

  function SizeItems(items: seq<QueryValue>, depth: nat, size: U64): (total: Option<U64>)
    decreases MAX_DEPTH - depth, 1, |items|
  {
    if items == [] then Some(size)
    else
      var one :- EncodedValueSize(items[0], depth);
      SizeItems(items[1..], depth, Saturating(size + one))
  }

  function SizeEntries(entries: seq<QueryEntry>, depth: nat, size: U64): (total: Option<U64>)
    decreases MAX_DEPTH - depth, 1, |entries|
  {
    if entries == [] then Some(size)
    else
      var one :- EncodedValueSize(entries[0].value, depth);
      SizeEntries(entries[1..], depth, Saturating(Saturating(Saturating(size + 8) + |entries[0].name|) + one))
  }

  /** The size function measures exactly the bytes that encoding writes, and fails exactly when encoding would. */
  lemma {:induction false} SizeIsLength(value: QueryValue, depth: nat)
    ensures EncodedValueSize(value, depth)
         == if Shallow(value, depth) then Some(Saturating(|PutValue(value, depth, [])|)) else None
    decreases MAX_DEPTH - depth, 0
  {
    hide PutItems, PutEntries, SizeItems, SizeEntries, ItemsShallow, EntriesShallow, FromKernelEntries;
    if depth < MAX_DEPTH {
      match value
      case QList(items) => ItemsSize(items, depth + 1, 9);
      case QMap(entries) => EntriesSize(entries, depth + 1, 9);
      case QVertex(v) => EntriesSize(FromKernelEntries(v.properties), depth + 1, 57);
      case QRelationship(e) => EntriesSize(FromKernelEntries(e.properties), depth + 1, 97 + |e.edgeType|);
      case _ =>
    }
  }

  lemma {:induction false} ItemsSize(items: seq<QueryValue>, depth: nat, size: nat)
    ensures SizeItems(items, depth, Saturating(size))
         == if ItemsShallow(items, depth) then Some(Saturating(size + |PutItems(items, depth, [])|)) else None
    decreases MAX_DEPTH - depth, 1, |items|
  {
    hide PutValue, Shallow, EncodedValueSize;
    if items != [] {
      var width := |PutValue(items[0], depth, [])|;
      SizeIsLength(items[0], depth);
      ValueThen(items[0], depth, PutItems(items[1..], depth, []));
      ItemsSize(items[1..], depth, size + width);
      assert Saturating(Saturating(size) + Saturating(width)) == Saturating(size + width);
      assert ItemsShallow(items, depth) <==> Shallow(items[0], depth) && ItemsShallow(items[1..], depth);
    }
  }

  lemma {:induction false} EntriesSize(entries: seq<QueryEntry>, depth: nat, size: nat)
    ensures SizeEntries(entries, depth, Saturating(size))
         == if EntriesShallow(entries, depth) then Some(Saturating(size + |PutEntries(entries, depth, [])|)) else None
    decreases MAX_DEPTH - depth, 1, |entries|
  {
    hide PutValue, Shallow, EncodedValueSize;
    if entries != [] {
      var e := entries[0];
      var width := |PutValue(e.value, depth, [])|;
      SizeIsLength(e.value, depth);
      ValueThen(e.value, depth, PutEntries(entries[1..], depth, []));
      EntriesSize(entries[1..], depth, size + 8 + |e.name| + width);
      assert Saturating(Saturating(Saturating(Saturating(size) + 8) + |e.name|) + Saturating(width))
          == Saturating(size + 8 + |e.name| + width);
      assert EntriesShallow(entries, depth) <==> Shallow(e.value, depth) && EntriesShallow(entries[1..], depth);
    }
  }

  /** A payload with anything after its row is refused. */
  lemma TrailingIsRefused(row: Row, extra: Bytes8, maximum: U64)
    requires (forall i | 0 <= i < |row| :: Sound(row[i])) && ItemsShallow(row, 0) && |PutRow(row)| <= maximum
    requires extra != []
    ensures DecodeRow(PutRow(row) + extra, maximum) == None
  {
    hide PutItems, TakeItems, TakeLength, PutU64, Sound, ItemsShallow;
    ItemsAppend(row, 0, [], extra);
    assert [] + extra == extra;
    U64Append(AsU64(|row|), PutItems(row, 0, []), extra);
    ItemsBack(row, 0, extra, maximum);
    LengthBack(|row|, PutItems(row, 0, extra), maximum);
  }
}
