/** What rows are reckoned to take up in memory. */
module RowBytes {
  import opened KernelValues
  import opened QueryValues
  import opened Batch
  import opened Sums

  // ----- one value

  /** A value and everything in its lists and maps. */
  function Inside(value: QueryValue): seq<QueryValue>
    decreases value, 1
  {
    [value] + match value
              case QList(items) => InsideItems(items)
              case QMap(entries) => InsideEntries(entries)
              case _ => []
  }

  function InsideItems(items: seq<QueryValue>): seq<QueryValue>
    decreases items, 0
  {
    if items == [] then [] else Inside(items[0]) + InsideItems(items[1..])
  }

  function InsideEntries(entries: seq<QueryEntry>): seq<QueryValue>
    decreases entries, 0
  {
    if entries == [] then [] else Inside(entries[0].value) + InsideEntries(entries[1..])
  }

  function NamesOf(entries: seq<QueryEntry>): nat
  {
    if entries == [] then 0 else |entries[0].name| + NamesOf(entries[1..])
  }

  /** The properties of a vertex or relationship, as a map. */
  function PropertyMap(properties: seq<Entry>): QueryValue
  {
    QMap(FromKernelEntries(properties))
  }

  /**
   * What a value takes up itself: text and names by their length, other values by a fixed size, vertices and
   * relationships by a fixed size and the map of their properties.
   */
  function OwnBytes(value: QueryValue): nat
  {
    match value
    case QNull => 1
    case QBoolean(_) => 1
    case QInteger(_) => 8
    case QFloatBits(_) => 8
    case QBytes(bytes) => |bytes|
    case QText(text) => |text|
    case QList(_) => 0
    case QMap(entries) => NamesOf(entries)
    case QVertex(v) => 64 + EstimatedBytes(PropertyMap(v.properties))
    case QRelationship(e) => 96 + |e.edgeType| + EstimatedBytes(PropertyMap(e.properties))
  }

  /** A stored property is reckoned as the query value it becomes. */
  lemma {:induction false} KernelIsQuery(value: Value)
    ensures KernelBytes(value) == EstimatedBytes(FromKernel(value))
    decreases value, 1
  {
    match value
    case List(items) => KernelItemsAreQuery(items);
    case Map(entries) => KernelEntriesAreQuery(entries);
    case _ =>
  }

  lemma {:induction false} KernelItemsAreQuery(items: seq<Value>)
    ensures KernelItemsBytes(items) == EstimateRow(FromKernelItems(items))
    decreases items, 0
  {
    if items != [] {
      KernelIsQuery(items[0]);
      KernelItemsAreQuery(items[1..]);
    }
  }

  lemma {:induction false} KernelEntriesAreQuery(entries: seq<Entry>)
    ensures KernelEntriesBytes(entries) == EstimateEntries(FromKernelEntries(entries))
    decreases entries, 0
  {
    if entries != [] {
      KernelIsQuery(entries[0].value);
      KernelEntriesAreQuery(entries[1..]);
    }
  }

  /** The size of a value is that of everything inside it, one by one. */
  lemma {:induction false} ValueIsInside(value: QueryValue)
    ensures EstimatedBytes(value) == Sum(OwnBytes, Inside(value))
    decreases value, 1
  {
    SumOfOne(OwnBytes, value);
    match value
    case QList(items) =>
      ItemsAreInside(items);
      SumAppended(OwnBytes, [value], InsideItems(items));
    case QMap(entries) =>
      EntriesAreInside(entries);
      SumAppended(OwnBytes, [value], InsideEntries(entries));
    case QVertex(v) =>
      KernelEntriesAreQuery(v.properties);
      assert Inside(value) == [value];
    case QRelationship(e) =>
      KernelEntriesAreQuery(e.properties);
      assert Inside(value) == [value];
    case _ =>
      assert Inside(value) == [value];
  }

  lemma {:induction false} ItemsAreInside(items: seq<QueryValue>)
    ensures EstimateRow(items) == Sum(OwnBytes, InsideItems(items))
    decreases items, 0
  {
    if items != [] {
      ValueIsInside(items[0]);
      ItemsAreInside(items[1..]);
      SumAppended(OwnBytes, Inside(items[0]), InsideItems(items[1..]));
    }
  }

  lemma {:induction false} EntriesAreInside(entries: seq<QueryEntry>)
    ensures EstimateEntries(entries) == NamesOf(entries) + Sum(OwnBytes, InsideEntries(entries))
    decreases entries, 0
  {
    if entries != [] {
      ValueIsInside(entries[0].value);
      EntriesAreInside(entries[1..]);
      SumAppended(OwnBytes, Inside(entries[0].value), InsideEntries(entries[1..]));
    }
  }

  // ----- rows and batches

  function RowsBytes(rows: seq<Row>): nat
  {
    Sum(EstimateRow, rows)
  }

  function BatchBytes(batch: ColumnBatch): (bytes: nat)
  {
    ColumnBytes(batch.columns)
  }

  function ColumnBytes(columns: seq<seq<QueryValue>>): (bytes: nat)
  {
    if columns == [] then 0 else EstimateRow(columns[0]) + ColumnBytes(columns[1..])
  }

  ghost function Across(columns: seq<seq<QueryValue>>, n: nat): seq<Row>
    requires forall c | 0 <= c < |columns| :: |columns[c]| == n
  {
    seq(n, i requires 0 <= i < n => seq(|columns|, c requires 0 <= c < |columns| => columns[c][i]))
  }

  lemma {:induction false} RowIsSum(row: Row)
    ensures EstimateRow(row) == Sum(EstimatedBytes, row)
  {
    if row != [] {
      RowIsSum(row[1..]);
      SumHead(EstimatedBytes, row);
    }
  }

  lemma {:induction false} ColumnsAreRows(columns: seq<seq<QueryValue>>, n: nat)
    requires forall c | 0 <= c < |columns| :: |columns[c]| == n
    ensures ColumnBytes(columns) == RowsBytes(Across(columns, n))
    decreases |columns|
  {
    var rows := Across(columns, n);
    if columns == [] {
      SumZipped(EstimateRow, rows, EstimateRow, rows, EstimateRow, rows);
    } else {
      var rest := columns[1..];
      ColumnsAreRows(rest, n);
      RowIsSum(columns[0]);
      forall i | 0 <= i < n
        ensures EstimateRow(rows[i]) == EstimatedBytes(columns[0][i]) + EstimateRow(Across(rest, n)[i])
      {
        assert rows[i][0] == columns[0][i] && rows[i][1..] == Across(rest, n)[i];
      }
      SumZipped(EstimateRow, rows, EstimatedBytes, columns[0], EstimateRow, Across(rest, n));
    }
  }

  /** A batch, reckoned by its columns, takes up what its rows do. */
  lemma BatchIsRows(batch: ColumnBatch)
    requires batch.Valid()
    ensures BatchBytes(batch) == RowsBytes(batch.Rows())
  {
    ColumnsAreRows(batch.columns, batch.rowCount);
    var rows := Across(batch.columns, batch.rowCount);
    assert forall i | 0 <= i < batch.rowCount :: rows[i] == batch.RowAt(i);
    assert rows == batch.Rows();
  }
}
