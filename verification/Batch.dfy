/** Column batches and their rows. */
module Batch {
  import opened Wrappers
  import opened KernelValues
  import opened QueryValues

  datatype LogicalType =
    | NullT | BooleanT | IntegerT | FloatT | BytesT | StringT |
    ListT(element: LogicalType) | MapT | VertexT | RelationshipT | AnyT

  datatype Field = Field(name: seq<U8>, dataType: LogicalType, nullable: bool)
  type Schema = seq<Field>

  datatype QueryError = InvalidBatch | InvalidPlan | MemoryBudget | SpillBudget | Cancelled | Storage

  predicate MatchesType(v: QueryValue, t: LogicalType, nullable: bool)
    decreases v
  {
    if v.QNull? then nullable || t.NullT? || t.AnyT?
    else match t
      case AnyT => true
      case BooleanT => v.QBoolean?
      case IntegerT => v.QInteger?
      case FloatT => v.QFloatBits?
      case BytesT => v.QBytes?
      case StringT => v.QText?
      case MapT => v.QMap?
      case VertexT => v.QVertex?
      case RelationshipT => v.QRelationship?
      case ListT(element) => v.QList? && forall i | 0 <= i < |v.items| :: MatchesType(v.items[i], element, true)
      case NullT => false
  }

  /** The narrowest type of a value, without looking into lists. */
  function KindOf(v: QueryValue): LogicalType
  {
    match v
    case QNull => NullT
    case QBoolean(_) => BooleanT
    case QInteger(_) => IntegerT
    case QFloatBits(_) => FloatT
    case QBytes(_) => BytesT
    case QText(_) => StringT
    case QList(_) => ListT(AnyT)
    case QMap(_) => MapT
    case QVertex(_) => VertexT
    case QRelationship(_) => RelationshipT
  }

  /** A value fits its own kind and the type of anything; null also whatever is nullable; a list also by its items. */
  lemma TypeMeans(v: QueryValue, t: LogicalType, nullable: bool)
    ensures !v.QList? ==> (MatchesType(v, t, nullable) <==> t == KindOf(v) || t.AnyT? || (v.QNull? && nullable))
    ensures v.QList? ==>
              (MatchesType(v, t, nullable) <==>
                 t.AnyT? || (t.ListT? && forall i | 0 <= i < |v.items| :: MatchesType(v.items[i], t.element, true)))
  {
  }

  /** A row of the schema's width whose values have the schema's types. */
  predicate RowFits(schema: Schema, row: Row)
  {
    |row| == |schema| && forall c | 0 <= c < |schema| :: MatchesType(row[c], schema[c].dataType, schema[c].nullable)
  }

  datatype ColumnBatch = ColumnBatch(schema: Schema, columns: seq<seq<QueryValue>>, rowCount: nat) {
    ghost predicate Valid()
    {
      && |columns| == |schema|
      && (columns == [] ==> rowCount == 0)
      && (forall c | 0 <= c < |columns| :: |columns[c]| == rowCount)
      && (forall c, i | 0 <= c < |columns| && 0 <= i < rowCount ::
           MatchesType(columns[c][i], schema[c].dataType, schema[c].nullable))
    }

    ghost function RowAt(i: nat): Row
      requires Valid() && i < rowCount
    {
      seq(|columns|, c requires 0 <= c < |columns| => columns[c][i])
    }

    ghost function Rows(): (rows: seq<Row>)
      requires Valid()
      ensures |rows| == rowCount && forall i | 0 <= i < rowCount :: rows[i] == RowAt(i)
      ensures forall row | row in rows :: RowFits(schema, row)
    {
      seq(rowCount, i requires 0 <= i < rowCount => RowAt(i))
    }
  }

  /** Moves the columns out, one row at a time. */
  method IntoRows(batch: ColumnBatch) returns (rows: seq<Row>)
    requires batch.Valid()
    ensures rows == batch.Rows()
  {
    rows := [];
    var i := 0;
    while i < batch.rowCount
      invariant 0 <= i == |rows| <= batch.rowCount && forall k | 0 <= k < i :: rows[k] == batch.RowAt(k)
    {
      var row := [];
      var c := 0;
      while c < |batch.columns|
        invariant 0 <= c == |row| <= |batch.columns| && forall k | 0 <= k < c :: row[k] == batch.columns[k][i]
      {
        row := row + [batch.columns[c][i]];
        c := c + 1;
      }
      assert row == batch.RowAt(i);
      rows := rows + [row];
      i := i + 1;
    }
  }

  /** `columns` holds the first `i` rows, column by column. */
  ghost predicate Transposes(columns: seq<seq<QueryValue>>, rows: seq<Row>, width: nat)
  {
    && |columns| == width
    && forall c | 0 <= c < width :: |columns[c]| == |rows| &&
         forall i | 0 <= i < |rows| :: c < |rows[i]| && columns[c][i] == rows[i][c]
  }

  method PushRow(columns0: seq<seq<QueryValue>>, ghost rows: seq<Row>, row: Row) returns (columns: seq<seq<QueryValue>>)
    requires Transposes(columns0, rows, |row|)
    ensures Transposes(columns, rows + [row], |row|)
  {
    columns := columns0;
    var c := 0;
    while c < |row|
      invariant 0 <= c <= |row| == |columns|
      invariant forall k | 0 <= k < |row| :: columns[k] == if k < c then columns0[k] + [row[k]] else columns0[k]
    {
      columns := columns[c := columns[c] + [row[c]]];
      c := c + 1;
    }
  }

  /** Every value has the type of its column. */
  method ColumnsMatch(schema: Schema, columns: seq<seq<QueryValue>>) returns (ok: bool)
    requires |columns| == |schema|
    ensures ok
         <==> forall c, i | 0 <= c < |columns| && 0 <= i < |columns[c]| ::
             MatchesType(columns[c][i], schema[c].dataType, schema[c].nullable)
  {
    var c := 0;
    while c < |columns|
      invariant 0 <= c <= |columns|
      invariant forall k, i | 0 <= k < c && 0 <= i < |columns[k]| ::
          MatchesType(columns[k][i], schema[k].dataType, schema[k].nullable)
    {
      var i := 0;
      while i < |columns[c]|
        invariant 0 <= i <= |columns[c]|
        invariant forall k | 0 <= k < i :: MatchesType(columns[c][k], schema[c].dataType, schema[c].nullable)
      {
        if !MatchesType(columns[c][i], schema[c].dataType, schema[c].nullable) {
          return false;
        }
        i := i + 1;
      }
      c := c + 1;
    }
    return true;
  }

  /** A batch of the given rows; a schema without fields cannot hold any. */
  method FromRows(schema: Schema, rows: seq<Row>) returns (r: Result<ColumnBatch, QueryError>)
    ensures r.Ok? <==> forall i | 0 <= i < |rows| :: RowFits(schema, rows[i])
    ensures r.Ok? ==> r.value.Valid() && r.value.schema == schema
    ensures r.Ok? ==> r.value.Rows() == if schema == [] then [] else rows
  {
    var i := 0;
    while i < |rows|
      invariant 0 <= i <= |rows| && forall k | 0 <= k < i :: |rows[k]| == |schema|
    {
      if |rows[i]| != |schema| {
        return Err(InvalidBatch);
      }
      i := i + 1;
    }
    var columns: seq<seq<QueryValue>> := seq(|schema|, _ => []);
    i := 0;
    while i < |rows|
      invariant 0 <= i <= |rows| && Transposes(columns, rows[..i], |schema|)
    {
      columns := PushRow(columns, rows[..i], rows[i]);
      assert rows[..i + 1] == rows[..i] + [rows[i]];
      i := i + 1;
    }
    assert rows[..i] == rows;
    var matched := ColumnsMatch(schema, columns);
    if !matched {
      Mismatch(schema, columns, rows);
      return Err(InvalidBatch);
    }
    var batch := ColumnBatch(schema, columns, if columns == [] then 0 else |columns[0]|);
    TransposedBatch(schema, columns, rows, batch);
    return Ok(batch);
  }

  lemma Mismatch(schema: Schema, columns: seq<seq<QueryValue>>, rows: seq<Row>)
    requires Transposes(columns, rows, |schema|)
    requires exists c, i ::
        0 <= c < |columns| && 0 <= i < |columns[c]|
            && !MatchesType(columns[c][i], schema[c].dataType, schema[c].nullable)
    ensures exists i :: 0 <= i < |rows| && !RowFits(schema, rows[i])
  {
    var c, i :| 0 <= c < |columns| && 0 <= i < |columns[c]|
        && !MatchesType(columns[c][i], schema[c].dataType, schema[c].nullable);
    assert !RowFits(schema, rows[i]);
  }

  lemma TransposedBatch(schema: Schema, columns: seq<seq<QueryValue>>, rows: seq<Row>, batch: ColumnBatch)
    requires Transposes(columns, rows, |schema|) && forall i | 0 <= i < |rows| :: |rows[i]| == |schema|
    requires forall c, i | 0 <= c < |columns| && 0 <= i < |columns[c]| ::
        MatchesType(columns[c][i], schema[c].dataType, schema[c].nullable)
    requires batch == ColumnBatch(schema, columns, if columns == [] then 0 else |columns[0]|)
    ensures batch.Valid() && batch.Rows() == if schema == [] then [] else rows
    ensures forall i | 0 <= i < |rows| :: RowFits(schema, rows[i])
  {
    if schema != [] {
      forall i | 0 <= i < |rows|
        ensures batch.RowAt(i) == rows[i]
      {
      }
    }
    forall i, c | 0 <= i < |rows| && 0 <= c < |schema|
      ensures MatchesType(rows[i][c], schema[c].dataType, schema[c].nullable)
    {
      assert columns[c][i] == rows[i][c];
    }
  }
}
