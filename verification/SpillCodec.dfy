/** The row encoding of spill files: bytes, sizes, decoding and the round trip. */
module SpillCodec {
  import opened Wrappers
  import opened KernelValues
  import opened QueryValues
  import opened ByteStrings
  import Ascending

  const MAX_DEPTH := 32

  // ----- what the types of the values guarantee

  ghost predicate KernelSound(value: Value)
    decreases value
  {
    match value
    case Text(text) => ValidUtf8(text)
    case List(items) => forall i | 0 <= i < |items| :: KernelSound(items[i])
    case Map(entries) => KernelEntriesSound(entries)
    case _ => true
  }

  /** Text keys, each once, in key order. */
  ghost predicate KernelEntriesSound(entries: seq<Entry>)
    decreases entries
  {
    && (forall i | 0 <= i < |entries| :: ValidUtf8(entries[i].name) && KernelSound(entries[i].value))
    && (forall i, j | 0 <= i < j < |entries| :: Ascending.Less(entries[i].name, entries[j].name))
  }

  ghost predicate TimesSound(validStart: I64, validEnd: I64, transactionTime: I64)
  {
    validStart < validEnd && transactionTime >= 0
  }

  ghost predicate PropertiesSound(properties: seq<Entry>)
  {
    KernelEntriesSound(properties) && forall i | 0 <= i < |properties| :: properties[i].name != []
  }

  ghost predicate VertexSound(v: VertexVersion)
  {
    v.id != 0 && TimesSound(v.validStart, v.validEnd, v.transactionTime) && PropertiesSound(v.properties)
  }

  ghost predicate EdgeSound(e: EdgeVersion)
  {
    && e.id != 0 && e.source != 0 && e.target != 0
    && e.edgeType != [] && ValidUtf8(e.edgeType)
    && TimesSound(e.validStart, e.validEnd, e.transactionTime) && PropertiesSound(e.properties)
  }

  ghost predicate Sound(value: QueryValue)
    decreases value
  {
    match value
    case QText(text) => ValidUtf8(text)
    case QList(items) => forall i | 0 <= i < |items| :: Sound(items[i])
    case QMap(entries) => EntriesSound(entries)
    case QVertex(v) => VertexSound(v)
    case QRelationship(e) => EdgeSound(e)
    case _ => true
  }

  ghost predicate EntriesSound(entries: seq<QueryEntry>)
    decreases entries
  {
    && (forall i | 0 <= i < |entries| :: ValidUtf8(entries[i].name) && Sound(entries[i].value))
    && (forall i, j | 0 <= i < j < |entries| :: Ascending.Less(entries[i].name, entries[j].name))
  }

  lemma {:induction false} FromKernelSound(value: Value)
    requires KernelSound(value)
    ensures Sound(FromKernel(value))
    decreases value
  {
    match value
    case List(items) => FromKernelItemsSound(items);
    case Map(entries) => FromKernelEntriesSound(entries);
    case _ =>
  }

  lemma {:induction false} FromKernelItemsSound(items: seq<Value>)
    requires forall i | 0 <= i < |items| :: KernelSound(items[i])
    ensures forall i | 0 <= i < |items| :: Sound(FromKernelItems(items)[i])
    decreases items
  {
    if items != [] {
      FromKernelSound(items[0]);
      FromKernelItemsSound(items[1..]);
    }
  }

  lemma {:induction false} FromKernelNames(entries: seq<Entry>)
    ensures forall i | 0 <= i < |entries| :: FromKernelEntries(entries)[i].name == entries[i].name
    decreases entries
  {
    if entries != [] {
      FromKernelNames(entries[1..]);
    }
  }

  lemma {:induction false} FromKernelEntriesSound(entries: seq<Entry>)
    requires KernelEntriesSound(entries)
    ensures EntriesSound(FromKernelEntries(entries))
    decreases entries
  {
    FromKernelNames(entries);
    FromKernelValuesSound(entries);
  }

  lemma {:induction false} FromKernelValuesSound(entries: seq<Entry>)
    requires forall i | 0 <= i < |entries| :: KernelSound(entries[i].value)
    ensures forall i | 0 <= i < |entries| :: Sound(FromKernelEntries(entries)[i].value)
    decreases entries, 0
  {
    if entries != [] {
      FromKernelSound(entries[0].value);
      FromKernelValuesSound(entries[1..]);
    }
  }

  // ----- encoding

  /** The bytes of a value in front of `tail`; nothing is written at the depth limit. */
  function PutValue(value: QueryValue, depth: nat, tail: Bytes8): (b: Bytes8)
    ensures |b| >= |tail| && (depth < MAX_DEPTH ==> |b| > |tail|)
    decreases MAX_DEPTH - depth, 0
  {
    if depth >= MAX_DEPTH then tail
    else match value
      case QNull => PutByte(0, tail)
      case QBoolean(flag) => PutByte(1, PutByte(if flag then 1 else 0, tail))
      case QInteger(i) => PutByte(2, PutI64(i, tail))
      case QFloatBits(bits) => PutByte(3, PutU64(bits, tail))
      case QBytes(bytes) => PutByte(4, PutBytes(bytes, tail))
      case QText(text) => PutByte(5, PutBytes(text, tail))
      case QList(items) => PutByte(6, PutU64(AsU64(|items|), PutItems(items, depth + 1, tail)))
      case QMap(entries) => PutByte(7, PutMap(entries, depth + 1, tail))
      case QVertex(v) =>
        PutByte(8, PutU128(v.id, PutTimes(v.version, v.validStart, v.validEnd, v.transactionTime,
                                          PutMap(FromKernelEntries(v.properties), depth + 1, tail))))
      case QRelationship(e) =>
        PutByte(9, PutU128(e.id, PutU128(e.source, PutU128(e.target, PutBytes(e.edgeType,
                PutTimes(e.version, e.validStart, e.validEnd, e.transactionTime,
                         PutMap(FromKernelEntries(e.properties), depth + 1, tail)))))))
  }

  function PutBytes(bytes: Bytes8, tail: Bytes8): (b: Bytes8)
    ensures |b| == 8 + |bytes| + |tail|
  {
    PutU64(AsU64(|bytes|), bytes + tail)
  }

  function PutTimes(version: U64, validStart: I64, validEnd: I64, transactionTime: I64, tail: Bytes8): (b: Bytes8)
    ensures |b| == 32 + |tail|
  {
    PutU64(version, PutI64(validStart, PutI64(validEnd, PutI64(transactionTime, tail))))
  }

  function PutItems(items: seq<QueryValue>, depth: nat, tail: Bytes8): (b: Bytes8)
    ensures |b| >= |tail| && (depth < MAX_DEPTH ==> |b| >= |tail| + |items|)
    decreases MAX_DEPTH - depth, 1, |items|
  {
    if items == [] then tail else PutValue(items[0], depth, PutItems(items[1..], depth, tail))
  }

  function PutMap(entries: seq<QueryEntry>, depth: nat, tail: Bytes8): (b: Bytes8)
    ensures |b| >= 8 + |tail| + |entries|
    decreases MAX_DEPTH - depth, 2
  {
    PutU64(AsU64(|entries|), PutEntries(entries, depth, tail))
  }

  function PutEntries(entries: seq<QueryEntry>, depth: nat, tail: Bytes8): (b: Bytes8)
    ensures |b| >= |tail| + |entries|
    decreases MAX_DEPTH - depth, 1, |entries|
  {
    if entries == [] then tail
    else PutBytes(entries[0].name, PutValue(entries[0].value, depth, PutEntries(entries[1..], depth, tail)))
  }

  function PutRow(row: Row): (b: Bytes8)
    ensures |b| >= 8 + |row|
  {
    PutU64(AsU64(|row|), PutItems(row, 0, []))
  }

  // ----- nesting

  predicate Shallow(value: QueryValue, depth: nat)
    decreases MAX_DEPTH - depth, 0
  {
    && depth < MAX_DEPTH
    && match value
      case QList(items) => ItemsShallow(items, depth + 1)
      case QMap(entries) => EntriesShallow(entries, depth + 1)
      case QVertex(v) => EntriesShallow(FromKernelEntries(v.properties), depth + 1)
      case QRelationship(e) => EntriesShallow(FromKernelEntries(e.properties), depth + 1)
      case _ => true
  }

  predicate ItemsShallow(items: seq<QueryValue>, depth: nat)
    decreases MAX_DEPTH - depth, 1
  {
    forall i | 0 <= i < |items| :: Shallow(items[i], depth)
  }

  predicate EntriesShallow(entries: seq<QueryEntry>, depth: nat)
    decreases MAX_DEPTH - depth, 1
  {
    forall i | 0 <= i < |entries| :: Shallow(entries[i].value, depth)
  }

  // ----- decoding

  function TakeLength(b: Bytes8, maximum: U64): (p: Option<Parsed<nat>>)
  {
    var n :- TakeU64(b);
    if n.value > maximum then None else Some(Parsed(n.value, n.rest))
  }

  function TakeBytes(b: Bytes8, maximum: U64): (p: Option<Parsed<Bytes8>>)
  {
    var n :- TakeLength(b, maximum);
    Take(n.rest, n.value)
  }

  function TakeText(b: Bytes8, maximum: U64): (p: Option<Parsed<Bytes8>>)
  {
    var t :- TakeBytes(b, maximum);
    if ValidUtf8(t.value) then Some(t) else None
  }

  datatype Times = Times(version: U64, validStart: I64, validEnd: I64, transactionTime: I64)

  function TakeTimes(b: Bytes8): (p: Option<Parsed<Times>>)
  {
    var version :- TakeU64(b);
    var start :- TakeI64(version.rest);
    var end :- TakeI64(start.rest);
    if start.value >= end.value then None
    else
      var time :- TakeI64(end.rest);
      if time.value < 0 then None
      else Some(Parsed(Times(version.value, start.value, end.value, time.value), time.rest))
  }

  function TakeId(b: Bytes8): (p: Option<Parsed<U128>>)
  {
    var id :- TakeU128(b);
    if id.value == 0 then None else Some(id)
  }

  function TakeValue(b: Bytes8, depth: nat, maximum: U64): (p: Option<Parsed<QueryValue>>)
    decreases MAX_DEPTH - depth, 0
  {
    if depth >= MAX_DEPTH then None
    else
      var tag :- TakeByte(b);
      match tag.value
      case 0 => Some(Parsed(QNull, tag.rest))
      case 1 =>
        var flag :- TakeByte(tag.rest);
        if flag.value == 0 then Some(Parsed(QBoolean(false), flag.rest))
        else if flag.value == 1 then Some(Parsed(QBoolean(true), flag.rest))
        else None
      case 2 =>
        var i :- TakeI64(tag.rest);
        Some(Parsed(QInteger(i.value), i.rest))
      case 3 =>
        var bits :- TakeU64(tag.rest);
        Some(Parsed(QFloatBits(bits.value), bits.rest))
      case 4 =>
        var bytes :- TakeBytes(tag.rest, maximum);
        Some(Parsed(QBytes(bytes.value), bytes.rest))
      case 5 =>
        var text :- TakeText(tag.rest, maximum);
        Some(Parsed(QText(text.value), text.rest))
      case 6 =>
        var count :- TakeLength(tag.rest, maximum);
        var items :- TakeItems(count.rest, count.value, depth + 1, maximum);
        Some(Parsed(QList(items.value), items.rest))
      case 7 =>
        var entries :- TakeMap(tag.rest, depth + 1, maximum);
        Some(Parsed(QMap(entries.value), entries.rest))
      case 8 => TakeVertex(tag.rest, depth + 1, maximum)
      case 9 => TakeEdge(tag.rest, depth + 1, maximum)
      case _ => None
  }

  function TakeVertex(b: Bytes8, depth: nat, maximum: U64): (p: Option<Parsed<QueryValue>>)
    decreases MAX_DEPTH - depth, 3
  {
    var id :- TakeId(b);
    var times :- TakeTimes(id.rest);
    var entries :- TakeMap(times.rest, depth, maximum);
    var properties :- ToProperties(entries.value);
    var t := times.value;
    Some(Parsed(QVertex(VertexVersion(id.value, t.version, t.validStart, t.validEnd, t.transactionTime, properties)),
        entries.rest))
  }

  function TakeEdge(b: Bytes8, depth: nat, maximum: U64): (p: Option<Parsed<QueryValue>>)
    decreases MAX_DEPTH - depth, 3
  {
    var id :- TakeId(b);
    var source :- TakeId(id.rest);
    var target :- TakeId(source.rest);
    var edgeType :- TakeText(target.rest, maximum);
    var times :- TakeTimes(edgeType.rest);
    var entries :- TakeMap(times.rest, depth, maximum);
    var properties :- ToProperties(entries.value);
    if edgeType.value == [] then None
    else
      var t := times.value;
      Some(Parsed(QRelationship(EdgeVersion(id.value, source.value, target.value, edgeType.value,
                                            t.version, t.validStart, t.validEnd, t.transactionTime,
                                              properties)), entries.rest))
  }

  function TakeItems(b: Bytes8, count: nat, depth: nat, maximum: U64): (p: Option<Parsed<seq<QueryValue>>>)
    decreases MAX_DEPTH - depth, 1, count
  {
    if count == 0 then Some(Parsed([], b))
    else
      var item :- TakeValue(b, depth, maximum);
      var items :- TakeItems(item.rest, count - 1, depth, maximum);
      Some(Parsed([item.value] + items.value, items.rest))
  }

  function TakeMap(b: Bytes8, depth: nat, maximum: U64): (p: Option<Parsed<seq<QueryEntry>>>)
    decreases MAX_DEPTH - depth, 2
  {
    var count :- TakeLength(b, maximum);
    TakeEntries(count.rest, count.value, [], depth, maximum)
  }

  /** Reads `count` entries into an ordered map; a repeated key is refused. */
  function TakeEntries(b: Bytes8, count: nat, entries: seq<QueryEntry>, depth: nat,
                       maximum: U64): (p: Option<Parsed<seq<QueryEntry>>>)
    decreases MAX_DEPTH - depth, 1, count
  {
    if count == 0 then Some(Parsed(entries, b))
    else
      var name :- TakeText(b, maximum);
      var value :- TakeValue(name.rest, depth, maximum);
      var more :- InsertEntry(entries, QueryEntry(name.value, value.value));
      TakeEntries(value.rest, count - 1, more, depth, maximum)
  }

  function InsertEntry(entries: seq<QueryEntry>, e: QueryEntry): (r: Option<seq<QueryEntry>>)
  {
    if entries == [] then Some([e])
    else
      var last := entries[|entries| - 1];
      if last.name == e.name then None
      else if Ascending.Less(last.name, e.name) then Some(entries + [e])
      else
        var front :- InsertEntry(entries[..|entries| - 1], e);
        Some(front + [last])
  }

  function ToKernel(value: QueryValue): (r: Option<Value>)
    decreases value
  {
    match value
    case QNull => Some(Null)
    case QBoolean(flag) => Some(Boolean(flag))
    case QInteger(i) => Some(Integer(i))
    case QFloatBits(bits) => Some(FloatBits(bits))
    case QBytes(bytes) => Some(Bytes(bytes))
    case QText(text) => Some(Text(text))
    case QList(items) =>
      var values :- ToKernelItems(items);
      Some(List(values))
    case QMap(entries) =>
      var values :- ToKernelEntries(entries);
      Some(Map(values))
    case QVertex(_) => None
    case QRelationship(_) => None
  }

  function ToKernelItems(items: seq<QueryValue>): (r: Option<seq<Value>>)
    decreases items
  {
    if items == [] then Some([])
    else
      var first :- ToKernel(items[0]);
      var rest :- ToKernelItems(items[1..]);
      Some([first] + rest)
  }

  function ToKernelEntries(entries: seq<QueryEntry>): (r: Option<seq<Entry>>)
    decreases entries
  {
    if entries == [] then Some([])
    else
      var first :- ToKernel(entries[0].value);
      var rest :- ToKernelEntries(entries[1..]);
      Some([Entry(entries[0].name, first)] + rest)
  }

  /** The properties of an entity: stored values under nonempty names. */
  function ToProperties(entries: seq<QueryEntry>): (r: Option<seq<Entry>>)
  {
    var properties :- ToKernelEntries(entries);
    if exists i | 0 <= i < |entries| :: entries[i].name == [] then None else Some(properties)
  }

  function DecodeRow(payload: Bytes8, maximum: U64): (r: Option<Row>)
  {
    var count :- TakeLength(payload, maximum);
    var row :- TakeItems(count.rest, count.value, 0, maximum);
    if row.rest == [] then Some(row.value) else None
  }

  // ----- decoding undoes encoding

  lemma LengthBack(n: nat, tail: Bytes8, maximum: U64)
    requires n <= maximum
    ensures TakeLength(PutU64(AsU64(n), tail), maximum) == Some(Parsed(n, tail))
  {
    U64Back(n, tail);
  }

  lemma BytesBack(bytes: Bytes8, tail: Bytes8, maximum: U64)
    requires |bytes| <= maximum
    ensures TakeBytes(PutBytes(bytes, tail), maximum) == Some(Parsed(bytes, tail))
  {
    LengthBack(|bytes|, bytes + tail, maximum);
    TakeBack(bytes, tail);
  }

  lemma TimesBack(version: U64, validStart: I64, validEnd: I64, transactionTime: I64, tail: Bytes8)
    requires TimesSound(validStart, validEnd, transactionTime)
    ensures TakeTimes(PutTimes(version, validStart, validEnd, transactionTime, tail))
         == Some(Parsed(Times(version, validStart, validEnd, transactionTime), tail))
  {
    hide PutU64, TakeU64, PutI64, TakeI64;
    U64Back(version, PutI64(validStart, PutI64(validEnd, PutI64(transactionTime, tail))));
    I64Back(validStart, PutI64(validEnd, PutI64(transactionTime, tail)));
    I64Back(validEnd, PutI64(transactionTime, tail));
    I64Back(transactionTime, tail);
  }

  lemma {:induction false} ToKernelBack(value: Value)
    ensures ToKernel(FromKernel(value)) == Some(value)
    decreases value
  {
    match value
    case List(items) => ToKernelItemsBack(items);
    case Map(entries) => ToKernelEntriesBack(entries);
    case _ =>
  }

  lemma {:induction false} ToKernelItemsBack(items: seq<Value>)
    ensures ToKernelItems(FromKernelItems(items)) == Some(items)
    decreases items
  {
    if items != [] {
      ToKernelBack(items[0]);
      ToKernelItemsBack(items[1..]);
      assert FromKernelItems(items)[1..] == FromKernelItems(items[1..]);
      assert [items[0]] + items[1..] == items;
    }
  }

  lemma {:induction false} ToKernelEntriesBack(entries: seq<Entry>)
    ensures ToKernelEntries(FromKernelEntries(entries)) == Some(entries)
    decreases entries
  {
    if entries != [] {
      ToKernelBack(entries[0].value);
      ToKernelEntriesBack(entries[1..]);
      assert FromKernelEntries(entries)[1..] == FromKernelEntries(entries[1..]);
      assert [entries[0]] + entries[1..] == entries;
    }
  }

  lemma PropertiesBack(properties: seq<Entry>)
    requires PropertiesSound(properties)
    ensures EntriesSound(FromKernelEntries(properties))
    ensures ToProperties(FromKernelEntries(properties)) == Some(properties)
  {
    ToKernelEntriesBack(properties);
    FromKernelNames(properties);
    FromKernelEntriesSound(properties);
  }

  lemma InsertLast(entries: seq<QueryEntry>, e: QueryEntry)
    requires forall i | 0 <= i < |entries| :: Ascending.Less(entries[i].name, e.name)
    ensures InsertEntry(entries, e) == Some(entries + [e])
  {
    Ascending.LessIsTotal(e.name, e.name);
    assert entries == [] ==> entries + [e] == [e];
  }

  /** A value that is sound, shallow and short enough is read back from its bytes, and nothing after them is touched. */
  lemma {:induction false} ValueBack(value: QueryValue, depth: nat, tail: Bytes8, maximum: U64)
    requires Sound(value) && Shallow(value, depth) && |PutValue(value, depth, tail)| <= maximum + |tail|
    ensures TakeValue(PutValue(value, depth, tail), depth, maximum) == Some(Parsed(value, tail))
    decreases MAX_DEPTH - depth, 0
  {
    hide PutByte, TakeByte, PutU64, TakeU64, PutI64, TakeI64, PutBytes, TakeBytes, TakeLength, PutMap, TakeMap,
      PutItems, TakeItems, ValidUtf8, EntriesSound;
    match value
    case QNull => ByteBack(0, tail);
    case QBoolean(flag) =>
      ByteBack(1, PutByte(if flag then 1 else 0, tail));
      ByteBack(if flag then 1 else 0, tail);
    case QInteger(i) =>
      ByteBack(2, PutI64(i, tail));
      I64Back(i, tail);
    case QFloatBits(bits) =>
      ByteBack(3, PutU64(bits, tail));
      U64Back(bits, tail);
    case QBytes(bytes) =>
      ByteBack(4, PutBytes(bytes, tail));
      BytesBack(bytes, tail, maximum);
    case QText(text) =>
      ByteBack(5, PutBytes(text, tail));
      BytesBack(text, tail, maximum);
    case QList(items) =>
      var rest := PutItems(items, depth + 1, tail);
      ByteBack(6, PutU64(AsU64(|items|), rest));
      ItemsBack(items, depth + 1, tail, maximum);
      LengthBack(|items|, rest, maximum);
    case QMap(entries) =>
      ByteBack(7, PutMap(entries, depth + 1, tail));
      MapBack(entries, depth + 1, tail, maximum);
    case QVertex(v) => VertexBack(v, depth, tail, maximum);
    case QRelationship(e) => EdgeBack(e, depth, tail, maximum);
  }

  lemma {:induction false} VertexBack(v: VertexVersion, depth: nat, tail: Bytes8, maximum: U64)
    requires VertexSound(v) && Shallow(QVertex(v), depth) && |PutValue(QVertex(v), depth, tail)| <= maximum + |tail|
    ensures TakeValue(PutValue(QVertex(v), depth, tail), depth, maximum) == Some(Parsed(QVertex(v), tail))
    decreases MAX_DEPTH - depth - 1, 3
  {
    hide PutByte, TakeByte, PutU128, TakeU128, PutTimes, TakeTimes, PutMap, TakeMap, ToProperties, FromKernelEntries,
      PropertiesSound, EntriesSound;
    var map1 := PutMap(FromKernelEntries(v.properties), depth + 1, tail);
    var times := PutTimes(v.version, v.validStart, v.validEnd, v.transactionTime, map1);
    ByteBack(8, PutU128(v.id, times));
    U128Back(v.id, times);
    TimesBack(v.version, v.validStart, v.validEnd, v.transactionTime, map1);
    PropertiesBack(v.properties);
    MapBack(FromKernelEntries(v.properties), depth + 1, tail, maximum);
  }

  lemma {:induction false} EdgeBack(e: EdgeVersion, depth: nat, tail: Bytes8, maximum: U64)
    requires EdgeSound(e) && Shallow(QRelationship(e), depth)
    requires |PutValue(QRelationship(e), depth, tail)| <= maximum + |tail|
    ensures TakeValue(PutValue(QRelationship(e), depth, tail), depth, maximum) == Some(Parsed(QRelationship(e), tail))
    decreases MAX_DEPTH - depth - 1, 3
  {
    hide PutByte, TakeByte, PutU128, TakeU128, PutTimes, TakeTimes, PutMap, TakeMap, ToProperties, FromKernelEntries,
      PropertiesSound, EntriesSound,
      PutBytes, TakeBytes, ValidUtf8;
    var map1 := PutMap(FromKernelEntries(e.properties), depth + 1, tail);
    var times := PutTimes(e.version, e.validStart, e.validEnd, e.transactionTime, map1);
    var edgeType := PutBytes(e.edgeType, times);
    ByteBack(9, PutU128(e.id, PutU128(e.source, PutU128(e.target, edgeType))));
    U128Back(e.id, PutU128(e.source, PutU128(e.target, edgeType)));
    U128Back(e.source, PutU128(e.target, edgeType));
    U128Back(e.target, edgeType);
    BytesBack(e.edgeType, times, maximum);
    TimesBack(e.version, e.validStart, e.validEnd, e.transactionTime, map1);
    PropertiesBack(e.properties);
    MapBack(FromKernelEntries(e.properties), depth + 1, tail, maximum);
  }

  lemma {:induction false} ItemsBack(items: seq<QueryValue>, depth: nat, tail: Bytes8, maximum: U64)
    requires (forall i | 0 <= i < |items| :: Sound(items[i])) && ItemsShallow(items, depth)
    requires |PutItems(items, depth, tail)| <= maximum + |tail|
    ensures |items| <= maximum
    ensures TakeItems(PutItems(items, depth, tail), |items|, depth, maximum) == Some(Parsed(items, tail))
    decreases MAX_DEPTH - depth, 1, |items|
  {
    hide PutValue, TakeValue, Sound, Shallow;
    if items != [] {
      ValueBack(items[0], depth, PutItems(items[1..], depth, tail), maximum);
      ItemsBack(items[1..], depth, tail, maximum);
      DepthLeft(items[0], depth);
      assert [items[0]] + items[1..] == items;
    }
  }

  lemma DepthLeft(value: QueryValue, depth: nat)
    requires Shallow(value, depth)
    ensures depth < MAX_DEPTH
  {
  }

  lemma {:induction false} MapBack(entries: seq<QueryEntry>, depth: nat, tail: Bytes8, maximum: U64)
    requires EntriesSound(entries) && EntriesShallow(entries, depth)
    requires |PutMap(entries, depth, tail)| <= maximum + |tail|
    ensures TakeMap(PutMap(entries, depth, tail), depth, maximum) == Some(Parsed(entries, tail))
    decreases MAX_DEPTH - depth, 2
  {
    hide PutEntries, TakeEntries, TakeLength, PutU64;
    LengthBack(|entries|, PutEntries(entries, depth, tail), maximum);
    EntriesBack(entries, [], depth, tail, maximum);
    assert [] + entries == entries;
  }

  lemma {:induction false} EntriesBack(entries: seq<QueryEntry>, done: seq<QueryEntry>, depth: nat, tail: Bytes8,
                                       maximum: U64)
    requires EntriesSound(done + entries) && EntriesShallow(entries, depth)
    requires |PutEntries(entries, depth, tail)| <= maximum + |tail|
    ensures TakeEntries(PutEntries(entries, depth, tail), |entries|, done, depth, maximum)
         == Some(Parsed(done + entries, tail))
    decreases MAX_DEPTH - depth, 1, |entries|
  {
    hide PutValue, TakeValue, Sound, Shallow, PutBytes, TakeBytes, ValidUtf8, InsertEntry;
    if entries == [] {
      assert done + entries == done;
    } else {
      var e, rest := entries[0], PutEntries(entries[1..], depth, tail);
      assert (done + entries)[|done|] == e;
      BytesBack(e.name, PutValue(e.value, depth, rest), maximum);
      ValueBack(e.value, depth, rest, maximum);
      forall i | 0 <= i < |done|
        ensures Ascending.Less(done[i].name, e.name)
      {
        assert (done + entries)[i] == done[i];
      }
      InsertLast(done, e);
      assert done + [e] + entries[1..] == done + entries;
      EntriesBack(entries[1..], done + [e], depth, tail, maximum);
    }
  }

  /** Decoding the bytes of a row gives the row. */
  lemma RowBack(row: Row, maximum: U64)
    requires (forall i | 0 <= i < |row| :: Sound(row[i])) && ItemsShallow(row, 0) && |PutRow(row)| <= maximum
    ensures DecodeRow(PutRow(row), maximum) == Some(row)
  {
    hide PutItems, TakeItems, TakeLength, PutU64, Sound, ItemsShallow;
    ItemsBack(row, 0, [], maximum);
    LengthBack(|row|, PutItems(row, 0, []), maximum);
  }
}
