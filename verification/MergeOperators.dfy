/** The two merge operators: the simple one that sorts everything, and the bounded-memory one that refines it. */
module MergeOperators {
  import opened Wrappers
  import opened QueryValues
  import opened StableSort
  import opened Batch
  import opened RowBytes
  import opened Sums
  import opened SpillMerge
  import opened MergeMeaning

  /** A batch without columns has no rows, so no row is empty. */
  ghost predicate AllFit(schema: Schema, rows: seq<Row>)
  {
    forall row | row in rows :: RowFits(schema, row) && row != []
  }

  /** All that the runs still hold, in the order it will be merged. */
  ghost function Merging(key: nat, runs: seq<MergeRun>, files: Files): seq<Row>
    requires RunsValid(runs, files)
  {
    Sort(key, Flatten(Remaining(runs, files)))
  }

  ghost predicate Ready(key: nat, schema: Schema, runs: seq<MergeRun>, files: Files)
  {
    && RunsValid(runs, files)
    && AllSorted(key, Remaining(runs, files))
    && AllFit(schema, Merging(key, runs, files))
  }

  /** Taking the first least head takes the first row of the merge. */
  lemma TakeStep(key: nat, schema: Schema, runs: seq<MergeRun>, files: Files, i: nat, runs': seq<MergeRun>,
                 files': Files)
    requires Ready(key, schema, runs, files) && FirstLeast(key, Remaining(runs, files), i)
    requires RunsValid(runs', files')
    requires Remaining(runs', files') == Remaining(runs, files)[i := Remaining(runs, files)[i][1..]]
    ensures Ready(key, schema, runs', files')
    ensures Merging(key, runs, files) == [Remaining(runs, files)[i][0]] + Merging(key, runs', files')
  {
    hide CompareForMerge, Sort, Flatten;
    var rows, rows' := Remaining(runs, files), Remaining(runs', files');
    MergeStep(key, rows, i);
    forall k | 0 <= k < |rows'|
      ensures Sorted(key, rows'[k])
    {
      assert Sorted(key, rows[k]);
    }
    var rest := Merging(key, runs', files');
    forall row | row in rest
      ensures RowFits(schema, row) && row != []
    {
      assert row in Merging(key, runs, files);
    }
  }

  lemma NothingLeft(key: nat, runs: seq<MergeRun>, files: Files)
    requires RunsValid(runs, files) && forall i | 0 <= i < |runs| :: Remaining(runs, files)[i] == []
    ensures Merging(key, runs, files) == []
  {
    FlattenEmpty(Remaining(runs, files));
  }

  lemma {:induction false} BatchesFit(schema: Schema, batches: seq<ColumnBatch>)
    requires forall i | 0 <= i < |batches| :: batches[i].Valid() && batches[i].schema == schema
    ensures forall k | 0 <= k < |BatchRows(batches)| :: AllFit(schema, BatchRows(batches)[k])
  {
    if batches != [] {
      BatchesFit(schema, batches[1..]);
    }
  }

  lemma {:induction false} CollectedFit(schema: Schema, inputs: seq<Input>)
    requires InputsValid(inputs) && forall i | 0 <= i < |inputs| :: inputs[i].schema == schema
    ensures forall k | 0 <= k < |Collected(inputs)| :: AllFit(schema, Collected(inputs)[k])
  {
    if inputs != [] {
      BatchesFit(schema, inputs[0].batches);
      CollectedFit(schema, inputs[1..]);
    }
  }

  lemma FittingRows(key: nat, schema: Schema, runs: seq<MergeRun>, files: Files)
    requires Ready(key, schema, runs, files)
    ensures forall row | row in Merging(key, runs, files) :: RowFits(schema, row) && row != []
  {
  }

  /** Freshly loaded runs are ready, and merging them is merging the batches. */
  lemma LoadedIsReady(key: nat, schema: Schema, runs: seq<MergeRun>, files: Files, batches: seq<seq<Row>>)
    requires Loads(key, runs, files, batches)
    requires forall k | 0 <= k < |batches| :: AllFit(schema, batches[k])
    ensures Ready(key, schema, runs, files)
    ensures Merging(key, runs, files) == Sort(key, Flatten(batches))
  {
    hide Sort, Flatten, CompareForMerge;
    SortedRuns(key, batches, Remaining(runs, files));
    forall row | row in Sort(key, Flatten(batches))
      ensures RowFits(schema, row) && row != []
    {
      SortIsPermutation(key, Flatten(batches));
      assert row in multiset(Sort(key, Flatten(batches)));
      var k := FlattenMembers(batches, row);
      assert AllFit(schema, batches[k]);
    }
  }

  datatype Step = Finished | Skipped | Emitted(row: Row)

  class SpillMergeOperator {
    const inputs: seq<Input>
    const keyColumn: nat
    const deduplicate: bool
    const batchSize: nat
    const threshold: U64
    const schema: Schema
    const store: SpillStore
    var runs: seq<MergeRun>
    var lastRow: Option<Row>
    var initialized: bool
    var done: bool

    ghost predicate Valid()
      reads this, store
    {
      && inputs != [] && batchSize > 0 && schema == inputs[0].schema && InputsValid(inputs)
      && store.Valid()
      && (if initialized then Ready(keyColumn, schema, runs, store.files) else runs == [] && lastRow.None? && !done)
      && (done ==> Merging(keyColumn, runs, store.files) == [] && HeldBy(runs) == 0)
      && (!deduplicate ==> lastRow.None?)
    }

    /** The rows that are still to come. */
    ghost function Pending(): seq<Row>
      requires Valid()
      reads this, store
    {
      if initialized then Distinct(deduplicate, lastRow, Merging(keyColumn, runs, store.files))
      else MergeOf(keyColumn, deduplicate, inputs)
    }

    /** The bytes of the rows the operator holds in memory, the last row for comparison among them. */
    ghost function Holding(): nat
      reads this
    {
      HeldBy(runs) + if lastRow.Some? then EstimateRow(lastRow.value) else 0
    }

    /** The row kept for comparison after these rows have been given. */
    ghost function Kept(last: Option<Row>, rows: seq<Row>): Option<Row>
    {
      if rows == [] || !deduplicate then last else Some(rows[|rows| - 1])
    }

    /** How many rows the merge has yet to look at. */
    ghost function Left(): nat
      requires Valid() && initialized
      reads this, store
    {
      |Merging(keyColumn, runs, store.files)|
    }

    constructor (inputs: seq<Input>, keyColumn: nat, deduplicate: bool, batchSize: nat, threshold: U64,
                 store: SpillStore)
      requires inputs != [] && batchSize > 0 && InputsValid(inputs) && store.Valid()
      ensures Valid() && this.store == store && this.batchSize == batchSize && Holding() == 0 && lastRow.None?
      ensures Pending() == MergeOf(keyColumn, deduplicate, inputs)
      ensures Merges(keyColumn, deduplicate, Flatten(Collected(inputs)), Pending())
    {
      MergeMeans(keyColumn, deduplicate, inputs);
      this.inputs, this.keyColumn, this.deduplicate := inputs, keyColumn, deduplicate;
      this.batchSize, this.threshold, this.schema, this.store := batchSize, threshold, inputs[0].schema, store;
      runs, lastRow, initialized, done := [], None, false, false;
    }

    /** Reads every input to its end into sorted runs. */
    method Initialize(context: QueryContext) returns (r: Result<(), QueryError>)
      requires Valid() && !initialized
      modifies this, store, context
      ensures r.Ok? ==> Valid() && initialized && !done && Pending() == old(Pending()) && lastRow == old(lastRow)
      ensures r.Ok? ==> Beyond(context, Holding()) == old(Beyond(context, Holding()))
      ensures old(Within(context)) ==> Within(context)
    {
      hide Held, Loads, Ready, RunsValid, Sort, Flatten, Deduplicated, InputsValid, Merging;
      var loaded :- LoadInputs(keyColumn, threshold, schema, inputs, context, store);
      runs := loaded;
      CollectedFit(schema, inputs);
      LoadedIsReady(keyColumn, schema, runs, store.files, Collected(inputs));
      initialized := true;
      return Ok(());
    }

    /** Keeps a copy of the row for comparison, in place of the one before. */
    method Keep(row: Row, context: QueryContext) returns (o: Outcome<QueryError>)
      modifies this`lastRow, context
      ensures o.Pass? ==> lastRow == Some(row)
      ensures o.Pass? && old(Beyond(context, Holding())) >= 0 ==>
                Beyond(context, Holding()) == old(Beyond(context, Holding()))
      ensures old(Within(context)) ==> Within(context)
    {
      hide HeldBy, EstimateRow;
      var charged := context.ChargeMemory(EstimateRow(row));
      if charged.Fail? {
        return charged;
      }
      if lastRow.Some? {
        context.ReleaseMemory(EstimateRow(lastRow.value));
      }
      lastRow := Some(row);
      return Pass;
    }

    /** Takes the least row of all runs, if there is one. */
    method TakeLeast(context: QueryContext) returns (r: Result<Option<Row>, QueryError>)
      requires Valid() && initialized
      modifies this`runs, store, context
      ensures r.Ok? ==> store.Valid() && Ready(keyColumn, schema, runs, store.files)
      ensures r.Ok? && r.value.None? ==> old(Merging(keyColumn, runs, store.files)) == [] && HeldBy(runs) == 0
      ensures r.Ok? && r.value.None? ==> Merging(keyColumn, runs, store.files) == []
      ensures r.Ok? && r.value.Some? ==>
                old(Merging(keyColumn, runs, store.files)) == [r.value.value] + Merging(keyColumn, runs, store.files)
      ensures r.Ok? ==>
                Beyond(context, HeldBy(runs)) == old(Beyond(context, HeldBy(runs)))
                    + if r.value.Some? then EstimateRow(r.value.value) else 0
      ensures old(Within(context)) ==> Within(context)
    {
      hide Held, Sum, RunsValid, Sort, Flatten, RowFits, EstimateRow, AllSorted;
      ghost var files := store.files;
      var heads :- EnsureHeads(runs, context, store);
      runs := heads;
      var selected := SelectRun(keyColumn, runs, store.files);
      if selected.None? {
        NothingLeft(keyColumn, runs, store.files);
        NothingHeld(runs, store.files);
        return Ok(None);
      }
      var t :- TakeHead(runs, selected.value, store);
      TakeStep(keyColumn, schema, runs, files, selected.value, t.0, store.files);
      runs := t.0;
      return Ok(Some(t.1));
    }

    /** Looks at the least row: nothing left, a repeat to skip, or a row to emit. */
    method Advance(context: QueryContext) returns (r: Result<Step, QueryError>)
      requires Valid() && initialized && !done
      modifies this, store, context
      ensures r.Ok? ==> Valid() && initialized
      ensures r.Ok? && r.value.Finished? ==> done && old(Pending()) == [] == Pending()
      ensures r.Ok? && !r.value.Finished? ==> !done && Left() < old(Left())
      ensures r.Ok? && r.value.Skipped? ==> Pending() == old(Pending())
      ensures r.Ok? && r.value.Emitted? ==>
                old(Pending()) == [r.value.row] + Pending() && RowFits(schema, r.value.row) && r.value.row != []
      ensures r.Ok? && old(Beyond(context, Holding())) >= 0 ==>
                Beyond(context, Holding())
                    == old(Beyond(context, Holding())) + if r.value.Emitted? then EstimateRow(r.value.row) else 0
      ensures r.Ok? ==> lastRow == Kept(old(lastRow), if r.value.Emitted? then [r.value.row] else [])
      ensures old(Within(context)) ==> Within(context)
    {
      hide HeldBy, RunsValid, Merging, RowFits, EstimateRow, AllSorted;
      FittingRows(keyColumn, schema, runs, store.files);
      var least :- TakeLeast(context);
      if least.None? {
        done := true;
        return Ok(Finished);
      }
      var row := least.value;
      if deduplicate && lastRow == Some(row) {
        context.ReleaseMemory(EstimateRow(row));
        return Ok(Skipped);
      }
      if deduplicate {
        :- Keep(row, context);
      }
      return Ok(Emitted(row));
    }

    /** Collects rows until the batch is full or nothing is left. */
    method Fill(context: QueryContext) returns (r: Result<seq<Row>, QueryError>)
      requires Valid() && initialized && !done
      modifies this, store, context
      ensures r.Ok? ==> Valid() && |r.value| <= batchSize
      ensures r.Ok? ==> r.value + Pending() == old(Pending())
      ensures r.Ok? && |r.value| < batchSize ==> Pending() == []
      ensures r.Ok? ==> forall i | 0 <= i < |r.value| :: RowFits(schema, r.value[i]) && r.value[i] != []
      ensures r.Ok? && old(Beyond(context, Holding())) >= 0 ==>
                Beyond(context, Holding()) == old(Beyond(context, Holding())) + RowsBytes(r.value)
      ensures r.Ok? ==> lastRow == Kept(old(lastRow), r.value)
      ensures old(Within(context)) ==> Within(context)
      ensures r.Ok? && r.value == [] ==> done
    {
      hide HeldBy, RowsBytes, EstimateRow, Ready, RunsValid, Sort, Flatten, RowFits, Distinct, MergeOf, Merging,
        InputsValid;
      var output: seq<Row> := [];
      NoBytes();
      while |output| < batchSize && !done
        invariant Valid() && initialized && |output| <= batchSize
        invariant done ==> Pending() == []
        invariant output + Pending() == old(Pending())
        invariant forall i | 0 <= i < |output| :: RowFits(schema, output[i]) && output[i] != []
        invariant lastRow == Kept(old(lastRow), output)
        invariant old(Beyond(context, Holding())) >= 0 ==>
                    Beyond(context, Holding()) == old(Beyond(context, Holding())) + RowsBytes(output)
        invariant old(Within(context)) ==> Within(context)
        decreases !done, Left()
      {
        var step :- Advance(context);
        if step.Emitted? {
          BytesOfOne(output, step.row);
          output := output + [step.row];
        }
      }
      return Ok(output);
    }

    /** The next batch: full unless the rows run out, none once they have. */
    method NextBatch(context: QueryContext) returns (r: Result<Option<ColumnBatch>, QueryError>)
      requires Valid()
      modifies this, store, context
      ensures r.Ok? ==> Valid()
      ensures r.Ok? && r.value.None? ==> old(Pending()) == [] == Pending()
      ensures r.Ok? && r.value.Some? ==> r.value.value.Valid() && r.value.value.schema == schema
      ensures r.Ok? && r.value.Some? ==> old(Pending()) == r.value.value.Rows() + Pending()
      ensures r.Ok? && r.value.Some? ==> 0 < |r.value.value.Rows()| <= batchSize
      ensures r.Ok? && r.value.Some? && |r.value.value.Rows()| < batchSize ==> Pending() == []
      ensures r.Ok? && r.value.Some? && old(Beyond(context, Holding())) >= 0 ==>
                Beyond(context, Holding()) == old(Beyond(context, Holding())) + RowsBytes(r.value.value.Rows())
      ensures r.Ok? && r.value.None? && old(Beyond(context, Holding())) >= 0 ==>
                Beyond(context, Holding()) == old(Beyond(context, Holding())) && HeldBy(runs) == 0
      ensures r.Ok? ==> lastRow == Kept(old(lastRow), if r.value.Some? then r.value.value.Rows() else [])
      ensures old(Within(context)) ==> Within(context)
    {
      hide HeldBy, RowsBytes, EstimateRow, Ready, RunsValid, Sort, Flatten, RowFits, Distinct, MergeOf, Merging,
        InputsValid, ColumnBatch.Valid, ColumnBatch.Rows;
      :- context.Checkpoint();
      if done {
        NothingDistinct(deduplicate, lastRow);
        return Ok(None);
      }
      if !initialized {
        var _ :- Initialize(context);
      }
      var output :- Fill(context);
      if output == [] {
        NoBytes();
        return Ok(None);
      }
      RowsHaveFields(schema, output[0]);
      var made := FromRows(schema, output);
      return match made case Ok(batch) => Ok(Some(batch)) case Err(error) => Err(error);
    }
  }

  lemma BytesAppended(a: seq<Row>, b: seq<Row>)
    ensures RowsBytes(a + b) == RowsBytes(a) + RowsBytes(b)
  {
    SumAppended(EstimateRow, a, b);
  }

  lemma BytesOfOne(rows: seq<Row>, row: Row)
    ensures RowsBytes(rows + [row]) == RowsBytes(rows) + EstimateRow(row)
  {
    SumAppended(EstimateRow, rows, [row]);
    SumOfOne(EstimateRow, row);
  }

  lemma NoBytes()
    ensures RowsBytes([]) == 0
  {
  }

  lemma RowsHaveFields(schema: Schema, row: Row)
    requires RowFits(schema, row) && row != []
    ensures schema != []
  {
  }

  lemma NothingDistinct(deduplicate: bool, last: Option<Row>)
    ensures Distinct(deduplicate, last, []) == []
  {
  }

  lemma {:induction false} BatchRowsAppended(batches: seq<ColumnBatch>, batch: ColumnBatch)
    requires batch.Valid() && forall i | 0 <= i < |batches| :: batches[i].Valid()
    ensures BatchRows(batches + [batch]) == BatchRows(batches) + [batch.Rows()]
  {
    if batches == [] {
      assert batches + [batch] == [batch] && [batch][1..] == [];
    } else {
      BatchRowsAppended(batches[1..], batch);
      assert (batches + [batch])[1..] == batches[1..] + [batch];
    }
  }

  lemma FlattenAppended(rows: seq<seq<Row>>, last: seq<Row>)
    ensures Flatten(rows + [last]) == Flatten(rows) + last
  {
    assert (rows + [last])[..|rows|] == rows;
  }

  /** Batches of one schema that give these rows, each full except perhaps the last. */
  ghost predicate Gives(batches: seq<ColumnBatch>, schema: Schema, size: nat, rows: seq<Row>)
  {
    && (forall i | 0 <= i < |batches| :: batches[i].Valid() && batches[i].schema == schema)
    && (forall i | 0 <= i < |batches| :: 0 < |batches[i].Rows()| <= size)
    && (forall i | 0 <= i < |batches| - 1 :: |batches[i].Rows()| == size)
    && rows == Flatten(BatchRows(batches))
  }

  /** The last batch, if any, is full. */
  ghost predicate EndsFull(batches: seq<ColumnBatch>, size: nat)
  {
    batches != [] ==> batches[|batches| - 1].Valid() && |batches[|batches| - 1].Rows()| == size
  }

  lemma GivesMore(batches: seq<ColumnBatch>, schema: Schema, size: nat, rows: seq<Row>, batch: ColumnBatch)
    requires Gives(batches, schema, size, rows) && EndsFull(batches, size)
    requires batch.Valid() && batch.schema == schema && 0 < |batch.Rows()| <= size
    ensures Gives(batches + [batch], schema, size, rows + batch.Rows())
    ensures |batch.Rows()| == size ==> EndsFull(batches + [batch], size)
    ensures RowsBytes(rows + batch.Rows()) == RowsBytes(rows) + RowsBytes(batch.Rows())
  {
    hide ColumnBatch.Valid, ColumnBatch.Rows, Flatten, BatchRows, RowsBytes;
    BatchRowsAppended(batches, batch);
    FlattenAppended(BatchRows(batches), batch.Rows());
    BytesAppended(rows, batch.Rows());
  }

  /**
   * Runs the spilling merge to its end: its batches hold the pending rows, each full except perhaps the last. In the
   * end the budget has been charged for exactly the rows given, and for the copy kept for comparison.
   */
  method Drain(operator: SpillMergeOperator, context: QueryContext)
    returns (r: Result<seq<ColumnBatch>, QueryError>, ghost rows: seq<Row>)
    requires operator.Valid()
    modifies operator, operator.store, context
    ensures r.Ok? ==> Gives(r.value, operator.schema, operator.batchSize, rows) && rows == old(operator.Pending())
    ensures r.Ok? && old(Beyond(context, operator.Holding())) >= 0 ==>
              && Beyond(context, operator.Holding()) == old(Beyond(context, operator.Holding())) + RowsBytes(rows)
              && HeldBy(operator.runs) == 0
    ensures r.Ok? ==> operator.lastRow == operator.Kept(old(operator.lastRow), rows)
    ensures old(Within(context)) ==> Within(context)
  {
    hide SpillMergeOperator.Holding, HeldBy, RowsBytes, EstimateRow, SpillMergeOperator.Valid,
      SpillMergeOperator.Pending, ColumnBatch.Valid, ColumnBatch.Rows, BatchRows, Flatten, Gives;
    var batches: seq<ColumnBatch> := [];
    rows := [];
    GivesNone(operator.schema, operator.batchSize);
    NoBytes();
    while true
      invariant operator.Valid() && Gives(batches, operator.schema, operator.batchSize, rows)
      invariant rows + operator.Pending() == old(operator.Pending())
      invariant EndsFull(batches, operator.batchSize) || operator.Pending() == []
      invariant operator.lastRow == operator.Kept(old(operator.lastRow), rows)
      invariant old(Beyond(context, operator.Holding())) >= 0 ==>
                  Beyond(context, operator.Holding()) == old(Beyond(context, operator.Holding())) + RowsBytes(rows)
      invariant old(Within(context)) ==> Within(context)
      decreases |operator.Pending()|
    {
      var next := operator.NextBatch(context);
      if next.Err? {
        return Err(next.error), rows;
      }
      if next.value.None? {
        return Ok(batches), rows;
      }
      GivesMore(batches, operator.schema, operator.batchSize, rows, next.value.value);
      batches, rows := batches + [next.value.value], rows + next.value.value.Rows();
    }
  }

  lemma GivesNone(schema: Schema, size: nat)
    ensures Gives([], schema, size, []) && EndsFull([], size)
  {
    NoRows();
  }

  lemma NoRows()
    ensures Flatten(BatchRows([])) == [] && Flatten([]) == []
  {
  }

  // ----- the simple merge

  lemma {:induction false} FlattenSum(a: seq<seq<Row>>, b: seq<seq<Row>>)
    ensures Flatten(a + b) == Flatten(a) + Flatten(b)
    decreases |b|
  {
    if b == [] {
      assert a + b == a;
    } else {
      var front, last := b[..|b| - 1], b[|b| - 1];
      FlattenSum(a, front);
      assert (a + b)[..|a + b| - 1] == a + front;
      assert (Flatten(a) + Flatten(front)) + last == Flatten(a) + (Flatten(front) + last);
    }
  }

  /** Reads one input to its end, holding everything in memory. */
  method CollectRows(input: Input, context: QueryContext) returns (r: Result<seq<Row>, QueryError>)
    requires input.Valid()
    modifies context
    ensures r.Ok? ==> r.value == Flatten(BatchRows(input.batches))
    ensures r.Ok? ==> context.memoryBytes == old(context.memoryBytes) + RowsBytes(r.value)
    ensures old(Within(context)) ==> Within(context)
  {
    hide RowsBytes, ColumnBytes, ColumnBatch.Valid, ColumnBatch.Rows, Flatten, BatchRows;
    var rows: seq<Row> := [];
    var i := 0;
    NoRows();
    NoBytes();
    while i < |input.batches|
      invariant 0 <= i <= |input.batches| && rows == Flatten(BatchRows(input.batches[..i]))
      invariant context.memoryBytes == old(context.memoryBytes) + RowsBytes(rows)
      invariant old(Within(context)) ==> Within(context)
    {
      :- context.Checkpoint();
      var broken: bool := *;
      if broken {
        return Err(Storage);
      }
      :- context.ChargeMemory(BatchBytes(input.batches[i]));
      var more := IntoRows(input.batches[i]);
      BatchIsRows(input.batches[i]);
      BytesAppended(rows, more);
      BatchRowsAppended(input.batches[..i], input.batches[i]);
      FlattenAppended(BatchRows(input.batches[..i]), more);
      assert input.batches[..i + 1] == input.batches[..i] + [input.batches[i]];
      rows := rows + more;
      i := i + 1;
    }
    assert input.batches[..i] == input.batches;
    return Ok(rows);
  }

  class DeterministicMergeOperator {
    const inputs: seq<Input>
    const keyColumn: nat
    const deduplicate: bool
    const schema: Schema
    var emitted: bool

    constructor (inputs: seq<Input>, keyColumn: nat, deduplicate: bool)
      ensures !emitted && this.inputs == inputs && this.keyColumn == keyColumn && this.deduplicate == deduplicate
      ensures schema == if inputs == [] then [] else inputs[0].schema
    {
      this.inputs, this.keyColumn, this.deduplicate, emitted := inputs, keyColumn, deduplicate, false;
      schema := if inputs == [] then [] else inputs[0].schema;
    }

    method CollectAll(context: QueryContext) returns (r: Result<seq<Row>, QueryError>)
      requires InputsValid(inputs)
      modifies context
      ensures r.Ok? ==>
                r.value == Flatten(Collected(inputs)) && forall i | 0 <= i < |inputs| :: inputs[i].schema == schema
      ensures r.Ok? ==> context.memoryBytes == old(context.memoryBytes) + RowsBytes(r.value)
      ensures old(Within(context)) ==> Within(context)
    {
      hide RowsBytes, ColumnBatch.Valid, Flatten, BatchRows;
      var rows: seq<Row> := [];
      var i := 0;
      NoBytes();
      while i < |inputs|
        invariant 0 <= i <= |inputs| && rows + Flatten(Collected(inputs[i..])) == Flatten(Collected(inputs))
        invariant forall k | 0 <= k < i :: inputs[k].schema == schema
        invariant context.memoryBytes == old(context.memoryBytes) + RowsBytes(rows)
        invariant old(Within(context)) ==> Within(context)
      {
        :- context.Checkpoint();
        if inputs[i].schema != schema {
          return Err(InvalidPlan);
        }
        var more :- CollectRows(inputs[i], context);
        assert inputs[i..][0] == inputs[i] && inputs[i..][1..] == inputs[i + 1..];
        FlattenSum(BatchRows(inputs[i].batches), Collected(inputs[i + 1..]));
        BytesAppended(rows, more);
        rows := rows + more;
        i := i + 1;
      }
      NoRows();
      return Ok(rows);
    }

    /** One batch with every row, then none. */
    method NextBatch(context: QueryContext) returns (r: Result<Option<ColumnBatch>, QueryError>)
      requires InputsValid(inputs) && schema == if inputs == [] then [] else inputs[0].schema
      modifies this, context
      ensures old(emitted) ==> emitted && (r.Ok? ==> r.value == None)
      ensures !old(emitted) && r.Ok? ==>
                emitted && r.value.Some? && r.value.value.Valid() && r.value.value.schema == schema
      ensures !old(emitted) && r.Ok? ==> r.value.value.Rows() == MergeOf(keyColumn, deduplicate, inputs)
      ensures !old(emitted) && r.Ok? ==>
                Merges(keyColumn, deduplicate, Flatten(Collected(inputs)), r.value.value.Rows())
      ensures !old(emitted) && r.Ok? ==>
                context.memoryBytes == old(context.memoryBytes) + RowsBytes(Flatten(Collected(inputs)))
      ensures old(Within(context)) ==> Within(context)
    {
      hide RowsBytes, ColumnBatch.Valid, ColumnBatch.Rows, Flatten, Collected, Sort, Merges;
      MergeMeans(keyColumn, deduplicate, inputs);
      :- context.Checkpoint();
      if emitted {
        return Ok(None);
      }
      emitted := true;
      var rows :- CollectAll(context);
      rows := Sort(keyColumn, rows);
      if deduplicate {
        rows := Deduplicated(None, rows);
      }
      NoFieldsNoRows(keyColumn, deduplicate, schema, inputs);
      var made := FromRows(schema, rows);
      return match made case Ok(batch) => Ok(Some(batch)) case Err(error) => Err(error);
    }
  }

  lemma NoFieldsNoRows(key: nat, deduplicate: bool, schema: Schema, inputs: seq<Input>)
    requires InputsValid(inputs) && forall i | 0 <= i < |inputs| :: inputs[i].schema == schema
    ensures schema == [] ==> MergeOf(key, deduplicate, inputs) == []
  {
    if schema == [] {
      CollectedFit(schema, inputs);
      forall k | 0 <= k < |Collected(inputs)|
        ensures Collected(inputs)[k] == []
      {
        if Collected(inputs)[k] != [] {
          FieldsNeeded(schema, Collected(inputs)[k]);
        }
      }
      FlattenEmpty(Collected(inputs));
    }
  }

  lemma FieldsNeeded(schema: Schema, rows: seq<Row>)
    requires AllFit(schema, rows) && rows != []
    ensures schema != []
  {
    assert rows[0] in rows;
  }
}
