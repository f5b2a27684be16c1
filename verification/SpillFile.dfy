/** Spill run files: encoding rows into a buffer, writing a run, reading one row back. */
module SpillFile {
  import opened Wrappers
  import opened QueryValues
  import opened ByteStrings
  import opened SpillCodec
  import opened SpillSizes
  import opened Batch
  import StableSort

  // ----- encoding into a bounded buffer

  /** Appends bytes unless the buffer would outgrow its bound. */
  method Put(output: Bytes8, bytes: Bytes8, maximum: U64, ghost tail: Bytes8) returns (r: Result<Bytes8, QueryError>)
    ensures r.Ok? <==> |output| + |bytes| <= maximum
    ensures r.Ok? ==> r.value == output + bytes && r.value + tail == output + (bytes + tail)
  {
    if |output| + |bytes| > maximum {
      return Err(Storage);
    }
    return Ok(output + bytes);
  }

  method PutLengthPrefixed(output: Bytes8, bytes: Bytes8, maximum: U64, ghost tail: Bytes8)
    returns (r: Result<Bytes8, QueryError>)
    ensures r.Ok? <==> |output| + 8 + |bytes| <= maximum
    ensures r.Ok? ==> r.value + tail == output + PutBytes(bytes, tail)
  {
    var counted :- Put(output, BigEndian(AsU64(|bytes|), 8), maximum, bytes + tail);
    r := Put(counted, bytes, maximum, tail);
  }

  method PutHeader(output: Bytes8, times: Times, maximum: U64, ghost tail: Bytes8)
    returns (r: Result<Bytes8, QueryError>)
    ensures r.Ok? <==> |output| + 32 <= maximum
    ensures r.Ok? ==>
              r.value + tail == output
                  + PutTimes(times.version, times.validStart, times.validEnd, times.transactionTime, tail)
  {
    ghost var t3 := PutI64(times.transactionTime, tail);
    ghost var t2 := PutI64(times.validEnd, t3);
    ghost var t1 := PutI64(times.validStart, t2);
    var o1 :- Put(output, BigEndian(times.version, 8), maximum, t1);
    var o2 :- Put(o1, BigEndian(Unsigned(times.validStart), 8), maximum, t2);
    var o3 :- Put(o2, BigEndian(Unsigned(times.validEnd), 8), maximum, t3);
    r := Put(o3, BigEndian(Unsigned(times.transactionTime), 8), maximum, tail);
  }

  /** The buffer grew by the bytes of the value, or the value is too deep, or it does not fit. */
  ghost predicate Encodes(r: Result<Bytes8, QueryError>, output: Bytes8, fits: bool, bytes: Bytes8, maximum: U64)
  {
    && (r.Ok? <==> fits && |output| + |bytes| <= maximum)
    && (r.Ok? ==> r.value == output + bytes)
  }

  method EncodeValue(output: Bytes8, value: QueryValue, maximum: U64, depth: nat)
    returns (r: Result<Bytes8, QueryError>)
    ensures Encodes(r, output, Shallow(value, depth), PutValue(value, depth, []), maximum)
    decreases MAX_DEPTH - depth, 0
  {
    hide PutMap, PutItems, PutTimes, ItemsShallow, EntriesShallow, BigEndian, PutBytes, FromKernelEntries;
    if depth >= MAX_DEPTH {
      return Err(Storage);
    }
    match value
    case QNull =>
      r := Put(output, [0], maximum, []);
    case QBoolean(flag) =>
      var tagged :- Put(output, [1], maximum, [if flag then 1 else 0]);
      r := Put(tagged, [if flag then 1 else 0], maximum, []);
    case QInteger(i) =>
      var tagged :- Put(output, [2], maximum, PutI64(i, []));
      r := Put(tagged, BigEndian(Unsigned(i), 8), maximum, []);
    case QFloatBits(bits) =>
      var tagged :- Put(output, [3], maximum, PutU64(bits, []));
      r := Put(tagged, BigEndian(bits, 8), maximum, []);
    case QBytes(bytes) =>
      var tagged :- Put(output, [4], maximum, PutBytes(bytes, []));
      r := PutLengthPrefixed(tagged, bytes, maximum, []);
    case QText(text) =>
      var tagged :- Put(output, [5], maximum, PutBytes(text, []));
      r := PutLengthPrefixed(tagged, text, maximum, []);
    case QList(items) =>
      ghost var rest := PutItems(items, depth + 1, []);
      var tagged :- Put(output, [6], maximum, PutU64(AsU64(|items|), rest));
      var counted :- Put(tagged, BigEndian(AsU64(|items|), 8), maximum, rest);
      r := EncodeItems(counted, items, maximum, depth + 1);
    case QMap(entries) =>
      var tagged :- Put(output, [7], maximum, PutMap(entries, depth + 1, []));
      r := EncodeMap(tagged, entries, maximum, depth + 1);
    case QVertex(v) =>
      r := EncodeVertex(output, v, maximum, depth);
    case QRelationship(e) =>
      r := EncodeEdge(output, e, maximum, depth);
  }

  method EncodeVertex(output: Bytes8, v: VertexVersion, maximum: U64, depth: nat)
    returns (r: Result<Bytes8, QueryError>)
    requires depth < MAX_DEPTH
    ensures Encodes(r, output, Shallow(QVertex(v), depth), PutValue(QVertex(v), depth, []), maximum)
    decreases MAX_DEPTH - depth - 1, 3
  {
    hide PutMap, PutTimes, EntriesShallow, BigEndian, FromKernelEntries;
    var entries := FromKernelEntries(v.properties);
    ghost var rest := PutMap(entries, depth + 1, []);
    ghost var timed := PutTimes(v.version, v.validStart, v.validEnd, v.transactionTime, rest);
    var o1 :- Put(output, [8], maximum, PutU128(v.id, timed));
    var o2 :- Put(o1, BigEndian(v.id, 16), maximum, timed);
    var o3 :- PutHeader(o2, Times(v.version, v.validStart, v.validEnd, v.transactionTime), maximum, rest);
    r := EncodeMap(o3, entries, maximum, depth + 1);
  }

  method EncodeEdge(output: Bytes8, e: EdgeVersion, maximum: U64, depth: nat) returns (r: Result<Bytes8, QueryError>)
    requires depth < MAX_DEPTH
    ensures Encodes(r, output, Shallow(QRelationship(e), depth), PutValue(QRelationship(e), depth, []), maximum)
    decreases MAX_DEPTH - depth - 1, 3
  {
    hide PutMap, PutTimes, EntriesShallow, BigEndian, PutBytes, FromKernelEntries;
    var entries := FromKernelEntries(e.properties);
    ghost var rest := PutMap(entries, depth + 1, []);
    ghost var timed := PutTimes(e.version, e.validStart, e.validEnd, e.transactionTime, rest);
    ghost var typed := PutBytes(e.edgeType, timed);
    var o1 :- Put(output, [9], maximum, PutU128(e.id, PutU128(e.source, PutU128(e.target, typed))));
    var o2 :- Put(o1, BigEndian(e.id, 16), maximum, PutU128(e.source, PutU128(e.target, typed)));
    var o3 :- Put(o2, BigEndian(e.source, 16), maximum, PutU128(e.target, typed));
    var o4 :- Put(o3, BigEndian(e.target, 16), maximum, typed);
    var o5 :- PutLengthPrefixed(o4, e.edgeType, maximum, timed);
    var o6 :- PutHeader(o5, Times(e.version, e.validStart, e.validEnd, e.transactionTime), maximum, rest);
    r := EncodeMap(o6, entries, maximum, depth + 1);
  }

  method EncodeItems(output0: Bytes8, items: seq<QueryValue>, maximum: U64, depth: nat)
    returns (r: Result<Bytes8, QueryError>)
    requires |output0| <= maximum
    ensures Encodes(r, output0, ItemsShallow(items, depth), PutItems(items, depth, []), maximum)
    decreases MAX_DEPTH - depth, 1
  {
    hide PutValue, Shallow;
    var output := output0;
    var i := 0;
    while i < |items|
      invariant 0 <= i <= |items| && |output| <= maximum
      invariant output + PutItems(items[i..], depth, []) == output0 + PutItems(items, depth, [])
      invariant forall k | 0 <= k < i :: Shallow(items[k], depth)
    {
      assert items[i..][0] == items[i] && items[i..][1..] == items[i + 1..];
      ValueThen(items[i], depth, PutItems(items[i + 1..], depth, []));
      ghost var before := output;
      output :- EncodeValue(output, items[i], maximum, depth);
      assert output + PutItems(items[i + 1..], depth, []) == before + PutItems(items[i..], depth, []);
      i := i + 1;
    }
    return Ok(output);
  }

  method EncodeMap(output0: Bytes8, entries: seq<QueryEntry>, maximum: U64, depth: nat)
    returns (r: Result<Bytes8, QueryError>)
    ensures Encodes(r, output0, EntriesShallow(entries, depth), PutMap(entries, depth, []), maximum)
    decreases MAX_DEPTH - depth, 2
  {
    hide PutEntries, EntriesShallow, BigEndian;
    var counted :- Put(output0, BigEndian(AsU64(|entries|), 8), maximum, PutEntries(entries, depth, []));
    r := EncodeEntries(counted, entries, maximum, depth);
  }

  method EncodeEntries(output0: Bytes8, entries: seq<QueryEntry>, maximum: U64, depth: nat)
    returns (r: Result<Bytes8, QueryError>)
    requires |output0| <= maximum
    ensures Encodes(r, output0, EntriesShallow(entries, depth), PutEntries(entries, depth, []), maximum)
    decreases MAX_DEPTH - depth, 1
  {
    hide PutValue, Shallow, PutBytes;
    var output := output0;
    var i := 0;
    while i < |entries|
      invariant 0 <= i <= |entries| && |output| <= maximum
      invariant output + PutEntries(entries[i..], depth, []) == output0 + PutEntries(entries, depth, [])
      invariant forall k | 0 <= k < i :: Shallow(entries[k].value, depth)
    {
      assert entries[i..][0] == entries[i] && entries[i..][1..] == entries[i + 1..];
      ghost var rest := PutEntries(entries[i + 1..], depth, []);
      ValueThen(entries[i].value, depth, rest);
      ghost var before := output;
      var named :- PutLengthPrefixed(output, entries[i].name, maximum, PutValue(entries[i].value, depth, rest));
      output :- EncodeValue(named, entries[i].value, maximum, depth);
      assert output + rest == named + PutValue(entries[i].value, depth, rest)
          == before + PutEntries(entries[i..], depth, []);
      i := i + 1;
    }
    return Ok(output);
  }

  method EncodeRow(row: Row, maximum: U64) returns (r: Result<Bytes8, QueryError>)
    ensures Encodes(r, [], ItemsShallow(row, 0), PutRow(row), maximum)
  {
    hide PutItems, ItemsShallow, BigEndian;
    var counted :- Put([], BigEndian(AsU64(|row|), 8), maximum, PutItems(row, 0, []));
    r := EncodeItems(counted, row, maximum, 0);
  }

  // ----- run files

  const MAGIC: Bytes8 := [0x44, 0x54, 0x47, 0x53, 0x50, 0x49, 0x4C, 0x31]
  const FORMAT_VERSION: U32 := 1
  const HEADER_BYTES: nat := 8 + 4 + 16 + 8 + 8
  const RECORD_HEADER_BYTES: nat := 8 + 8
  const CHECKSUM_BYTES: nat := 32

  datatype Limits = Limits(maxRows: nat, maxRowBytes: U64, maxRunBytes: U64)
  datatype RowMeta = RowMeta(payloadOffset: nat, payloadBytes: nat, estimatedBytes: nat)

  /** Where a run lives and how its rows are checked; `hash` stands for the digest of the row's checksum. */
  datatype RunId = RunId(namespace: U128, handle: U64, hash: Bytes8 -> Digest)

  const CHECKSUM_CONTEXT: Bytes8 :=
    [0x64, 0x74, 0x67, 0x2D, 0x71, 0x75, 0x65, 0x72, 0x79, 0x2D, 0x73, 0x70, 0x69, 0x6C, 0x6C, 0x2D, 0x72, 0x6F, 0x77,
        0x2D, 0x76, 0x31]

  /** What a row's checksum is computed over. */
  function Checked(run: RunId, index: nat, estimatedBytes: nat, payload: Bytes8): Bytes8
  {
    CHECKSUM_CONTEXT
    + PutU128(run.namespace, PutU64(run.handle, PutU64(AsU64(index), PutU64(AsU64(estimatedBytes), payload))))
  }

  function RowChecksum(run: RunId, index: nat, estimatedBytes: nat, payload: Bytes8): Digest
  {
    (run.hash)(Checked(run, index, estimatedBytes, payload))
  }

  function RecordBytes(row: Row): nat
  {
    RECORD_HEADER_BYTES + |PutRow(row)| + CHECKSUM_BYTES
  }

  function RecordsBytes(rows: seq<Row>): nat
  {
    if rows == [] then 0 else RecordsBytes(rows[..|rows| - 1]) + RecordBytes(rows[|rows| - 1])
  }

  function RunBytes(rows: seq<Row>): nat
  {
    HEADER_BYTES + RecordsBytes(rows)
  }

  ghost predicate RowStorable(row: Row, limits: Limits)
  {
    ItemsShallow(row, 0) && Saturating(|PutRow(row)|) <= limits.maxRowBytes
  }

  ghost predicate Storable(rows: seq<Row>, limits: Limits)
  {
    && (forall i | 0 <= i < |rows| :: RowStorable(rows[i], limits))
    && (rows != [] ==> Saturating(RunBytes(rows)) <= limits.maxRunBytes)
  }

  lemma {:induction false} PrefixIsSmaller(rows: seq<Row>, i: nat)
    requires i <= |rows|
    ensures RecordsBytes(rows[..i]) <= RecordsBytes(rows)
    decreases |rows|
  {
    if i < |rows| {
      PrefixIsSmaller(rows[..|rows| - 1], i);
      assert rows[..|rows| - 1][..i] == rows[..i];
    } else {
      assert rows[..i] == rows;
    }
  }

  lemma NoRecords()
    ensures RecordsBytes([]) == 0
  {
  }

  lemma RecordsNext(rows: seq<Row>, i: nat)
    requires i < |rows|
    ensures RecordsBytes(rows[..i + 1]) == RecordsBytes(rows[..i]) + RecordBytes(rows[i]) <= RecordsBytes(rows)
  {
    hide PutRow;
    assert rows[..i + 1][..i] == rows[..i];
    PrefixIsSmaller(rows, i + 1);
  }

  lemma {:induction false} RemoveRecord(rows: seq<Row>, j: nat)
    requires j < |rows|
    ensures RecordsBytes(rows) == RecordsBytes(rows[..j] + rows[j + 1..]) + RecordBytes(rows[j])
    decreases |rows|
  {
    hide RecordBytes;
    var front := rows[..|rows| - 1];
    if j == |rows| - 1 {
      assert rows[..j] + rows[j + 1..] == front;
    } else {
      RemoveRecord(front, j);
      var less := rows[..j] + rows[j + 1..];
      assert less[..|less| - 1] == front[..j] + front[j + 1..] && less[|less| - 1] == rows[|rows| - 1];
    }
  }

  lemma WithoutOne(rows: seq<Row>, j: nat)
    requires j < |rows|
    ensures multiset(rows[..j] + rows[j + 1..]) == multiset(rows) - multiset{rows[j]}
  {
    assert rows == rows[..j] + [rows[j]] + rows[j + 1..];
  }

  lemma FoundAt(rows: seq<Row>, row: Row) returns (j: nat)
    requires row in multiset(rows)
    ensures j < |rows| && rows[j] == row
  {
    j :| j < |rows| && rows[j] == row;
  }

  /** Sorting the rows first does not change the size of the file. */
  lemma {:induction false} PermutedRecords(a: seq<Row>, b: seq<Row>)
    requires multiset(a) == multiset(b)
    ensures RecordsBytes(a) == RecordsBytes(b)
    decreases |a|
  {
    hide RecordBytes, RecordsBytes;
    if a == [] {
      assert |b| == |multiset(b)| == |multiset(a)| == 0;
    } else {
      var n := |a| - 1;
      assert a[n] in multiset(a);
      var j := FoundAt(b, a[n]);
      WithoutOne(a, n);
      WithoutOne(b, j);
      RemoveRecord(a, n);
      RemoveRecord(b, j);
      PermutedRecords(a[..n] + a[n + 1..], b[..j] + b[j + 1..]);
    }
  }

  /** The payload size of one row of a batch, added up column by column. */
  method ReservedRow(batch: ColumnBatch, i: nat) returns (r: Result<U64, QueryError>)
    requires batch.Valid() && i < batch.rowCount
    ensures r.Ok? <==> ItemsShallow(batch.RowAt(i), 0)
    ensures r.Ok? ==> r.value == Saturating(|PutRow(batch.RowAt(i))|)
  {
    hide PutItems, ItemsShallow, EncodedValueSize;
    ghost var row := batch.RowAt(i);
    var payload: U64 := 8;
    var c := 0;
    while c < |batch.columns|
      invariant 0 <= c <= |batch.columns|
      invariant SizeItems(row[c..], 0, payload) == SizeItems(row, 0, 8)
    {
      assert row[c..][0] == batch.columns[c][i] && row[c..][1..] == row[c + 1..];
      var size := EncodedValueSize(batch.columns[c][i], 0);
      if size.None? {
        ItemsSize(row, 0, 8);
        return Err(Storage);
      }
      payload := Saturating(payload + size.value);
      c := c + 1;
    }
    ItemsSize(row, 0, 8);
    return Ok(payload);
  }

  /** The spill budget to charge for a batch: exactly the length of the file its rows will make. */
  method ReservedWriteBytes(batch: ColumnBatch, limits: Limits) returns (r: Result<U64, QueryError>)
    requires batch.Valid()
    ensures r.Ok? <==> batch.rowCount <= limits.maxRows && Storable(batch.Rows(), limits)
    ensures r.Ok? ==> r.value == Saturating(RunBytes(batch.Rows()))
  {
    hide PutRow, ItemsShallow, ColumnBatch.Valid, RecordsBytes;
    if batch.rowCount > limits.maxRows {
      return Err(Storage);
    }
    ghost var rows := batch.Rows();
    var total: U64 := HEADER_BYTES;
    var i := 0;
    NoRecords();
    while i < batch.rowCount
      invariant 0 <= i <= batch.rowCount
      invariant total == Saturating(RunBytes(rows[..i]))
      invariant forall k | 0 <= k < i :: RowStorable(rows[k], limits)
      invariant i > 0 ==> total <= limits.maxRunBytes
    {
      RecordsNext(rows, i);
      var payload :- ReservedRow(batch, i);
      if payload > limits.maxRowBytes {
        assert !RowStorable(rows[i], limits);
        return Err(Storage);
      }
      total := Saturating(Saturating(Saturating(total + RECORD_HEADER_BYTES) + payload) + CHECKSUM_BYTES);
      if total > limits.maxRunBytes {
        return Err(Storage);
      }
      i := i + 1;
    }
    assert rows[..i] == rows;
    return Ok(total);
  }

  // ----- writing and reading back

  function RunHeader(run: RunId, count: nat): (b: Bytes8)
    ensures |b| == HEADER_BYTES
  {
    MAGIC + PutU32(FORMAT_VERSION, PutU128(run.namespace, PutU64(run.handle, PutU64(AsU64(count), []))))
  }

  /** The record of a row: both lengths, the payload, its checksum. */
  function Record(run: RunId, index: nat, row: Row): (b: Bytes8)
    ensures |b| == RecordBytes(row)
  {
    PutU64(AsU64(|PutRow(row)|), PutU64(AsU64(EstimateRow(row)),
        PutRow(row) + RowChecksum(run, index, EstimateRow(row), PutRow(row))))
  }

  /** The file has the row's payload and checksum where the metadata says. */
  ghost predicate Placed(file: Bytes8, run: RunId, index: nat, meta: RowMeta, row: Row)
  {
    && meta.payloadBytes == |PutRow(row)| && meta.estimatedBytes == EstimateRow(row)
    && meta.payloadOffset + meta.payloadBytes + CHECKSUM_BYTES <= |file|
    && file[meta.payloadOffset..meta.payloadOffset + meta.payloadBytes] == PutRow(row)
    && file[meta.payloadOffset + meta.payloadBytes..meta.payloadOffset + meta.payloadBytes + CHECKSUM_BYTES]
       == RowChecksum(run, index, meta.estimatedBytes, PutRow(row))
  }

  lemma StaysPlaced(file: Bytes8, more: Bytes8, run: RunId, index: nat, meta: RowMeta, row: Row)
    requires Placed(file, run, index, meta, row)
    ensures Placed(file + more, run, index, meta, row)
  {
    var f, o, n := file + more, meta.payloadOffset, meta.payloadBytes;
    assert f[o..o + n] == file[o..o + n];
    assert f[o + n..o + n + CHECKSUM_BYTES] == file[o + n..o + n + CHECKSUM_BYTES];
  }

  lemma NewlyPlaced(file: Bytes8, run: RunId, index: nat, row: Row)
    ensures Placed(file + Record(run, index, row), run, index,
        RowMeta(|file| + RECORD_HEADER_BYTES, |PutRow(row)|, EstimateRow(row)), row)
  {
    hide PutRow, EstimateRow, RowChecksum, BigEndian;
    var payload, sum := PutRow(row), RowChecksum(run, index, EstimateRow(row), PutRow(row));
    var head := BigEndian(AsU64(|payload|), 8) + BigEndian(AsU64(EstimateRow(row)), 8);
    var f := file + Record(run, index, row);
    assert f == (file + head) + (payload + sum);
    var o := |file| + RECORD_HEADER_BYTES;
    assert f[o..o + |payload|] == payload;
    assert f[o + |payload|..o + |payload| + CHECKSUM_BYTES] == sum;
  }

  /** Writes the rows of a run after its header, remembering where each payload starts. */
  method WriteRun(schema: Schema, rows: seq<Row>, limits: Limits, run: RunId)
    returns (r: Result<(Bytes8, seq<RowMeta>), QueryError>)
    ensures r.Ok? <==> 0 < |rows| <= limits.maxRows && Storable(rows, limits) &&
                       (forall i | 0 <= i < |rows| ::
                          RowFits(schema, rows[i]) && |PutRow(rows[i])| <= limits.maxRowBytes)
    ensures r.Ok? ==> |r.value.0| == RunBytes(rows) && RunHeader(run, |rows|) <= r.value.0
    ensures r.Ok? ==>
              |r.value.1| == |rows| && forall i | 0 <= i < |rows| :: Placed(r.value.0, run, i, r.value.1[i], rows[i])
  {
    hide PutRow, ItemsShallow, RowFits, Placed, EstimateRow, RowChecksum, RunHeader, Record;
    if rows == [] || |rows| > limits.maxRows {
      return Err(Storage);
    }
    var file := RunHeader(run, |rows|);
    var total: U64 := HEADER_BYTES;
    var metas: seq<RowMeta> := [];
    var i := 0;
    while i < |rows|
      invariant 0 <= i <= |rows| && RunHeader(run, |rows|) <= file
      invariant |file| == RunBytes(rows[..i]) && total == Saturating(RunBytes(rows[..i]))
      invariant forall k | 0 <= k < i ::
          RowStorable(rows[k], limits) && RowFits(schema, rows[k]) && |PutRow(rows[k])| <= limits.maxRowBytes
      invariant i > 0 ==> total <= limits.maxRunBytes
      invariant |metas| == i && forall k | 0 <= k < i :: Placed(file, run, k, metas[k], rows[k])
    {
      if !RowFits(schema, rows[i]) {
        return Err(InvalidBatch);
      }
      RecordsNext(rows, i);
      var payload :- EncodeRow(rows[i], limits.maxRowBytes);
      total := Saturating(total + Saturating(Saturating(RECORD_HEADER_BYTES + |payload|) + CHECKSUM_BYTES));
      if total > limits.maxRunBytes {
        return Err(Storage);
      }
      var estimated := EstimateRow(rows[i]);
      NewlyPlaced(file, run, i, rows[i]);
      forall k | 0 <= k < i
        ensures Placed(file + Record(run, i, rows[i]), run, k, metas[k], rows[k])
      {
        StaysPlaced(file, Record(run, i, rows[i]), run, k, metas[k], rows[k]);
      }
      metas := metas + [RowMeta(|file| + RECORD_HEADER_BYTES, |payload|, estimated)];
      file := file + Record(run, i, rows[i]);
      i := i + 1;
    }
    assert rows[..i] == rows;
    return Ok((file, metas));
  }

  predicate HeaderMatches(file: Bytes8, run: RunId)
  {
    && HEADER_BYTES <= |file|
    && file[..8] == MAGIC
    && file[8..12] == BigEndian(FORMAT_VERSION, 4)
    && file[12..28] == BigEndian(run.namespace, 16)
    && file[28..36] == BigEndian(run.handle, 8)
  }

  /** Reads one row at its metadata; a foreign header, a short file or a wrong checksum is refused. */
  function ReadRow(file: Bytes8, run: RunId, index: nat, meta: RowMeta, limits: Limits): (r: Option<Row>)
  {
    if meta.payloadBytes > limits.maxRowBytes || !HeaderMatches(file, run) then None
    else if meta.payloadOffset + meta.payloadBytes + CHECKSUM_BYTES > |file| then None
    else
      var payload := file[meta.payloadOffset..meta.payloadOffset + meta.payloadBytes];
      var sum := file[meta.payloadOffset + meta.payloadBytes..meta.payloadOffset + meta.payloadBytes + CHECKSUM_BYTES];
      if sum != RowChecksum(run, index, meta.estimatedBytes, payload) then None
      else DecodeRow(payload, limits.maxRowBytes)
  }

  lemma HeaderWritten(file: Bytes8, run: RunId, count: nat)
    requires RunHeader(run, count) <= file
    ensures HeaderMatches(file, run)
  {
    hide BigEndian;
    var h := RunHeader(run, count);
    var a, b, c, d := BigEndian(FORMAT_VERSION, 4), BigEndian(run.namespace, 16), BigEndian(run.handle, 8),
      BigEndian(AsU64(count), 8);
    assert h == MAGIC + a + b + c + d;
    assert file[..44] == h;
    assert file[..8] == h[..8] && file[8..12] == h[8..12] && file[12..28] == h[12..28] && file[28..36] == h[28..36];
    assert h[8..12] == a && h[12..28] == b && h[28..36] == c;
  }

  /** What was written is read back: every row of a run, at its own place. */
  lemma ReadBack(file: Bytes8, run: RunId, count: nat, index: nat, meta: RowMeta, row: Row, limits: Limits)
    requires RunHeader(run, count) <= file && Placed(file, run, index, meta, row)
    requires RowStorable(row, limits) && |PutRow(row)| <= limits.maxRowBytes
    requires forall i | 0 <= i < |row| :: Sound(row[i])
    ensures ReadRow(file, run, index, meta, limits) == Some(row)
  {
    hide Sound, ItemsShallow, PutRow, DecodeRow, RunHeader, HeaderMatches, RowChecksum;
    HeaderWritten(file, run, count);
    RowBack(row, limits.maxRowBytes);
  }

  /** The checksum covers everything that places a row: where its run lives, its number, its size, its payload. */
  lemma CheckedTells(run: RunId, index: nat, estimated: nat, payload: Bytes8, run': RunId, index': nat,
                     estimated': nat, payload': Bytes8)
    requires Checked(run, index, estimated, payload) == Checked(run', index', estimated', payload')
    ensures run.namespace == run'.namespace && run.handle == run'.handle && AsU64(index) == AsU64(index')
    ensures AsU64(estimated) == AsU64(estimated') && payload == payload'
  {
    hide PutU128, PutU64, TakeU128, TakeU64;
    var c, c' := PutU64(AsU64(estimated), payload), PutU64(AsU64(estimated'), payload');
    var b, b' := PutU64(AsU64(index), c), PutU64(AsU64(index'), c');
    var a, a' := PutU64(run.handle, b), PutU64(run'.handle, b');
    var all, all' := PutU128(run.namespace, a), PutU128(run'.namespace, a');
    assert all == (CHECKSUM_CONTEXT + all)[|CHECKSUM_CONTEXT|..];
    assert all' == (CHECKSUM_CONTEXT + all')[|CHECKSUM_CONTEXT|..];
    U128Back(run.namespace, a);
    U128Back(run'.namespace, a');
    U64Back(run.handle, b);
    U64Back(run'.handle, b');
    U64Back(AsU64(index), c);
    U64Back(AsU64(index'), c');
    U64Back(AsU64(estimated), payload);
    U64Back(AsU64(estimated'), payload');
  }

  /**
   * Where a file has the checksum of a row, only that row is read: under any run, number and metadata, an accepted read
   * finds the payload that was written there and says which row of which run it is, or the hash has collided.
   */
  lemma ReadOrCollision(file: Bytes8, run: RunId, index: nat, meta: RowMeta, limits: Limits, run': RunId, index': nat,
                        row: Row)
    requires run.hash == run'.hash && ReadRow(file, run, index, meta, limits).Some?
    requires meta.payloadOffset + meta.payloadBytes + CHECKSUM_BYTES <= |file|
    requires file[meta.payloadOffset + meta.payloadBytes..meta.payloadOffset + meta.payloadBytes + CHECKSUM_BYTES]
          == RowChecksum(run', index', EstimateRow(row), PutRow(row))
    ensures var payload := file[meta.payloadOffset..meta.payloadOffset + meta.payloadBytes];
      var read, written := Checked(run, index, meta.estimatedBytes, payload),
        Checked(run', index', EstimateRow(row), PutRow(row));
      || (read != written && (run.hash)(read) == (run.hash)(written))
      || (&& payload == PutRow(row) && run.namespace == run'.namespace && run.handle == run'.handle
          && AsU64(index) == AsU64(index') && AsU64(meta.estimatedBytes) == AsU64(EstimateRow(row)))
  {
    hide Checked, DecodeRow, PutRow, EstimateRow, HeaderMatches;
    var payload := file[meta.payloadOffset..meta.payloadOffset + meta.payloadBytes];
    if Checked(run, index, meta.estimatedBytes, payload) == Checked(run', index', EstimateRow(row), PutRow(row)) {
      CheckedTells(run, index, meta.estimatedBytes, payload, run', index', EstimateRow(row), PutRow(row));
    }
  }

  /** A row is read only from a file of its own run. */
  lemma ForeignIsRefused(file: Bytes8, run: RunId, index: nat, meta: RowMeta, limits: Limits, run': RunId, count: nat)
    requires RunHeader(run', count) <= file && (run.namespace != run'.namespace || run.handle != run'.handle)
    ensures ReadRow(file, run, index, meta, limits) == None
  {
    hide DecodeRow, RowChecksum, BigEndian, RunHeader;
    HeaderWritten(file, run', count);
    Radixes();
    BigEndianTells(run.namespace, run'.namespace, 16);
    BigEndianTells(run.handle, run'.handle, 8);
  }

  lemma BigEndianTells(m: nat, n: nat, width: nat)
    requires m < Radix(width) && n < Radix(width)
    ensures BigEndian(m, width) == BigEndian(n, width) ==> m == n
  {
    BigEndianRoundTrip(m, width);
    BigEndianRoundTrip(n, width);
  }

  /**
   * The run is written from the sorted rows, yet takes exactly what was reserved for the batch, and fits if the batch
   * did.
   */
  lemma ReservationIsExact(key: nat, rows: seq<Row>, limits: Limits)
    ensures RunBytes(StableSort.Sort(key, rows)) == RunBytes(rows)
    ensures Storable(rows, limits) <==> Storable(StableSort.Sort(key, rows), limits)
  {
    hide ItemsShallow, PutRow, StableSort.Sort, RecordsBytes;
    var sorted := StableSort.Sort(key, rows);
    StableSort.SortIsPermutation(key, rows);
    PermutedRecords(rows, sorted);
    assert |multiset(rows)| == |rows| && |multiset(sorted)| == |sorted|;
    if Storable(rows, limits) {
      SameRows(rows, sorted, limits);
    }
    if Storable(sorted, limits) {
      SameRows(sorted, rows, limits);
    }
  }

  lemma SameRows(a: seq<Row>, b: seq<Row>, limits: Limits)
    requires multiset(a) == multiset(b) && forall i | 0 <= i < |a| :: RowStorable(a[i], limits)
    ensures forall i | 0 <= i < |b| :: RowStorable(b[i], limits)
  {
    hide RowStorable;
    forall i | 0 <= i < |b|
      ensures RowStorable(b[i], limits)
    {
      assert b[i] in multiset(b);
      var j :| 0 <= j < |a| && a[j] == b[i];
    }
  }
}
