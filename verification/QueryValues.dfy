/** Values of query rows and the total order that sorting and merging use. */
module QueryValues {
  import opened Wrappers
  import opened KernelValues

  datatype VertexVersion = VertexVersion(id: U128, version: U64, validStart: I64, validEnd: I64, transactionTime: I64,
      properties: seq<Entry>)
  datatype EdgeVersion = EdgeVersion(
    id: U128, source: U128, target: U128, edgeType: seq<U8>, version: U64, validStart: I64, validEnd: I64,
      transactionTime: I64, properties: seq<Entry>)

  datatype QueryValue =
    | QNull
    | QBoolean(flag: bool)
    | QInteger(i: I64)
    | QFloatBits(bits: U64)
    | QBytes(bytes: seq<U8>)
    | QText(text: seq<U8>)
    | QList(items: seq<QueryValue>)
    | QMap(entries: seq<QueryEntry>)
    | QVertex(vertex: VertexVersion)
    | QRelationship(edge: EdgeVersion)

  datatype QueryEntry = QueryEntry(name: seq<U8>, value: QueryValue)

  type Row = seq<QueryValue>

  datatype Ordering = Less | Equal | Greater {
    function Reverse(): Ordering
    {
      match this case Less => Greater case Equal => Equal case Greater => Less
    }

    function Then(next: Ordering): Ordering
    {
      if Equal? then next else this
    }
  }

  function CompareInt(a: int, b: int): Ordering
  {
    if a < b then Less else if a == b then Equal else Greater
  }

  /** Lexicographic order; a proper prefix comes first. */
  function CompareInts(a: seq<int>, b: seq<int>): (o: Ordering)
  {
    if a == [] || b == [] then CompareInt(|a|, |b|)
    else CompareInt(a[0], b[0]).Then(CompareInts(a[1..], b[1..]))
  }

  function Tag(value: QueryValue): nat
  {
    match value
    case QNull => 0
    case QBoolean(_) => 1
    case QInteger(_) => 2
    case QFloatBits(_) => 3
    case QBytes(_) => 4
    case QText(_) => 5
    case QList(_) => 6
    case QMap(_) => 7
    case QVertex(_) => 8
    case QRelationship(_) => 9
  }

  function VertexKey(v: VertexVersion): seq<int>
  {
    [v.id, v.validStart, v.validEnd, v.transactionTime, v.version]
  }

  function CompareEdges(a: EdgeVersion, b: EdgeVersion): Ordering
  {
    CompareInts([a.id, a.source, a.target], [b.id, b.source, b.target])
      .Then(CompareInts(a.edgeType, b.edgeType))
      .Then(CompareInts([a.validStart, a.validEnd, a.transactionTime, a.version],
          [b.validStart, b.validEnd, b.transactionTime, b.version]))
  }

  function TotalCmp(a: QueryValue, b: QueryValue): (o: Ordering)
    decreases a
  {
    CompareInt(Tag(a), Tag(b)).Then(
      match (a, b)
      case (QBoolean(x), QBoolean(y)) => CompareInt(if x then 1 else 0, if y then 1 else 0)
      case (QInteger(x), QInteger(y)) => CompareInt(x, y)
      case (QFloatBits(x), QFloatBits(y)) => CompareInt(x, y)
      case (QBytes(x), QBytes(y)) => CompareInts(x, y)
      case (QText(x), QText(y)) => CompareInts(x, y)
      case (QList(x), QList(y)) => CompareSlices(x, y)
      case (QMap(x), QMap(y)) => CompareMaps(x, y)
      case (QVertex(x), QVertex(y)) => CompareInts(VertexKey(x), VertexKey(y))
      case (QRelationship(x), QRelationship(y)) => CompareEdges(x, y)
      case _ => Equal)
  }

  function CompareSlices(a: seq<QueryValue>, b: seq<QueryValue>): (o: Ordering)
    decreases a
  {
    if a == [] || b == [] then CompareInt(|a|, |b|)
    else TotalCmp(a[0], b[0]).Then(CompareSlices(a[1..], b[1..]))
  }

  function CompareMaps(a: seq<QueryEntry>, b: seq<QueryEntry>): (o: Ordering)
    decreases a
  {
    if a == [] || b == [] then CompareInt(|a|, |b|)
    else CompareInts(a[0].name, b[0].name).Then(TotalCmp(a[0].value, b[0].value)).Then(CompareMaps(a[1..], b[1..]))
  }

  // ----- a total preorder

  /** How three comparisons of a total preorder fit together. */
  ghost predicate Fits(ab: Ordering, bc: Ordering, ac: Ordering)
  {
    && (ab == Equal ==> ac == bc)
    && (bc == Equal ==> ac == ab)
    && (ab == bc ==> ac == ab)
  }

  lemma {:induction false} IntsReverse(a: seq<int>, b: seq<int>)
    ensures CompareInts(b, a) == CompareInts(a, b).Reverse()
  {
    if a != [] && b != [] {
      IntsReverse(a[1..], b[1..]);
    }
  }

  lemma {:induction false} IntsFit(a: seq<int>, b: seq<int>, c: seq<int>)
    ensures Fits(CompareInts(a, b), CompareInts(b, c), CompareInts(a, c))
  {
    if a != [] && b != [] && c != [] {
      IntsFit(a[1..], b[1..], c[1..]);
    }
  }

  lemma {:induction false} CmpReverse(a: QueryValue, b: QueryValue)
    ensures TotalCmp(b, a) == TotalCmp(a, b).Reverse()
    decreases a
  {
    if Tag(a) == Tag(b) {
      match a
      case QBytes(x) => IntsReverse(x, b.bytes);
      case QText(x) => IntsReverse(x, b.text);
      case QList(x) => SlicesReverse(x, b.items);
      case QMap(x) => MapsReverse(x, b.entries);
      case QVertex(x) => IntsReverse(VertexKey(x), VertexKey(b.vertex));
      case QRelationship(x) => EdgesReverse(x, b.edge);
      case _ =>
    }
  }

  lemma {:induction false} SlicesReverse(a: seq<QueryValue>, b: seq<QueryValue>)
    ensures CompareSlices(b, a) == CompareSlices(a, b).Reverse()
    decreases a
  {
    if a != [] && b != [] {
      CmpReverse(a[0], b[0]);
      SlicesReverse(a[1..], b[1..]);
    }
  }

  lemma {:induction false} MapsReverse(a: seq<QueryEntry>, b: seq<QueryEntry>)
    ensures CompareMaps(b, a) == CompareMaps(a, b).Reverse()
    decreases a
  {
    if a != [] && b != [] {
      IntsReverse(a[0].name, b[0].name);
      CmpReverse(a[0].value, b[0].value);
      MapsReverse(a[1..], b[1..]);
    }
  }

  lemma EdgesReverse(a: EdgeVersion, b: EdgeVersion)
    ensures CompareEdges(b, a) == CompareEdges(a, b).Reverse()
  {
    IntsReverse([a.id, a.source, a.target], [b.id, b.source, b.target]);
    IntsReverse(a.edgeType, b.edgeType);
    IntsReverse([a.validStart, a.validEnd, a.transactionTime, a.version],
        [b.validStart, b.validEnd, b.transactionTime, b.version]);
  }

  lemma {:induction false} CmpFits(a: QueryValue, b: QueryValue, c: QueryValue)
    ensures Fits(TotalCmp(a, b), TotalCmp(b, c), TotalCmp(a, c))
    decreases a
  {
    if Tag(a) == Tag(b) == Tag(c) {
      match a
      case QBytes(x) => IntsFit(x, b.bytes, c.bytes);
      case QText(x) => IntsFit(x, b.text, c.text);
      case QList(x) => SlicesFit(x, b.items, c.items);
      case QMap(x) => MapsFit(x, b.entries, c.entries);
      case QVertex(x) => IntsFit(VertexKey(x), VertexKey(b.vertex), VertexKey(c.vertex));
      case QRelationship(x) => EdgesFit(x, b.edge, c.edge);
      case _ =>
    }
  }

  lemma {:induction false} SlicesFit(a: seq<QueryValue>, b: seq<QueryValue>, c: seq<QueryValue>)
    ensures Fits(CompareSlices(a, b), CompareSlices(b, c), CompareSlices(a, c))
    decreases a
  {
    if a != [] && b != [] && c != [] {
      CmpFits(a[0], b[0], c[0]);
      SlicesFit(a[1..], b[1..], c[1..]);
    }
  }

  lemma {:induction false} MapsFit(a: seq<QueryEntry>, b: seq<QueryEntry>, c: seq<QueryEntry>)
    ensures Fits(CompareMaps(a, b), CompareMaps(b, c), CompareMaps(a, c))
    decreases a
  {
    if a != [] && b != [] && c != [] {
      IntsFit(a[0].name, b[0].name, c[0].name);
      CmpFits(a[0].value, b[0].value, c[0].value);
      MapsFit(a[1..], b[1..], c[1..]);
    }
  }

  lemma EdgesFit(a: EdgeVersion, b: EdgeVersion, c: EdgeVersion)
    ensures Fits(CompareEdges(a, b), CompareEdges(b, c), CompareEdges(a, c))
  {
    IntsFit([a.id, a.source, a.target], [b.id, b.source, b.target], [c.id, c.source, c.target]);
    IntsFit(a.edgeType, b.edgeType, c.edgeType);
    IntsFit([a.validStart, a.validEnd, a.transactionTime, a.version],
        [b.validStart, b.validEnd, b.transactionTime, b.version],
            [c.validStart, c.validEnd, c.transactionTime, c.version]);
  }

  // ----- rows

  function CompareKeys(key: nat, a: Row, b: Row): Ordering
  {
    if key < |a| && key < |b| then TotalCmp(a[key], b[key])
    else CompareInt(if key < |a| then 1 else 0, if key < |b| then 1 else 0)
  }

  /** By the key column, then by all columns. */
  function CompareForMerge(key: nat, a: Row, b: Row): (o: Ordering)
  {
    CompareKeys(key, a, b).Then(CompareSlices(a, b))
  }

  lemma RowsReverse(key: nat, a: Row, b: Row)
    ensures CompareForMerge(key, b, a) == CompareForMerge(key, a, b).Reverse()
  {
    SlicesReverse(a, b);
    if key < |a| && key < |b| {
      CmpReverse(a[key], b[key]);
    }
  }

  lemma RowsFit(key: nat, a: Row, b: Row, c: Row)
    ensures Fits(CompareForMerge(key, a, b), CompareForMerge(key, b, c), CompareForMerge(key, a, c))
  {
    SlicesFit(a, b, c);
    if key < |a| && key < |b| && key < |c| {
      CmpFits(a[key], b[key], c[key]);
    }
  }

  // ----- sizes

  /** A stored value as a query value. */
  function FromKernel(value: Value): (q: QueryValue)
    decreases value
  {
    match value
    case Null => QNull
    case Boolean(flag) => QBoolean(flag)
    case Integer(i) => QInteger(i)
    case FloatBits(bits) => QFloatBits(bits)
    case Bytes(bytes) => QBytes(bytes)
    case Text(text) => QText(text)
    case List(items) => QList(FromKernelItems(items))
    case Map(entries) => QMap(FromKernelEntries(entries))
  }

  function FromKernelItems(items: seq<Value>): (q: seq<QueryValue>)
    ensures |q| == |items|
    decreases items
  {
    if items == [] then [] else [FromKernel(items[0])] + FromKernelItems(items[1..])
  }

  function FromKernelEntries(entries: seq<Entry>): (q: seq<QueryEntry>)
    ensures |q| == |entries|
    decreases entries
  {
    if entries == [] then []
    else [QueryEntry(entries[0].name, FromKernel(entries[0].value))] + FromKernelEntries(entries[1..])
  }

  function EstimatedBytes(value: QueryValue): (bytes: nat)
    decreases value, 1
  {
    match value
    case QNull => 1
    case QBoolean(_) => 1
    case QInteger(_) => 8
    case QFloatBits(_) => 8
    case QBytes(bytes) => |bytes|
    case QText(text) => |text|
    case QList(items) => EstimateRow(items)
    case QMap(entries) => EstimateEntries(entries)
    case QVertex(v) => 64 + KernelEntriesBytes(v.properties)
    case QRelationship(e) => 96 + |e.edgeType| + KernelEntriesBytes(e.properties)
  }

  function EstimateRow(row: seq<QueryValue>): (bytes: nat)
    decreases row, 0
  {
    if row == [] then 0 else EstimatedBytes(row[0]) + EstimateRow(row[1..])
  }

  function EstimateEntries(entries: seq<QueryEntry>): (bytes: nat)
    decreases entries, 0
  {
    if entries == [] then 0 else |entries[0].name| + EstimatedBytes(entries[0].value) + EstimateEntries(entries[1..])
  }

  function KernelBytes(value: Value): (bytes: nat)
    decreases value
  {
    match value
    case Null => 1
    case Boolean(_) => 1
    case Integer(_) => 8
    case FloatBits(_) => 8
    case Bytes(bytes) => |bytes|
    case Text(text) => |text|
    case List(items) => KernelItemsBytes(items)
    case Map(entries) => KernelEntriesBytes(entries)
  }

  function KernelItemsBytes(items: seq<Value>): (bytes: nat)
    decreases items
  {
    if items == [] then 0 else KernelBytes(items[0]) + KernelItemsBytes(items[1..])
  }

  function KernelEntriesBytes(entries: seq<Entry>): (bytes: nat)
    decreases entries
  {
    if entries == [] then 0 else |entries[0].name| + KernelBytes(entries[0].value) + KernelEntriesBytes(entries[1..])
  }
}
