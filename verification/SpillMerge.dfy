/** The bounded-memory merge: sorted runs, some in memory and some spilled, merged into batches of fixed size. */
module SpillMerge {
  import opened Wrappers
  import opened QueryValues
  import opened StableSort
  import opened Batch
  import opened RowBytes
  import opened Sums

  /** Byte counters of one query; any charge may exhaust its budget. */
  class QueryContext {
    const maxMemoryBytes: U64
    const maxSpillBytes: U64
    var memoryBytes: U64
    var spillBytes: U64

    constructor (maxMemoryBytes: U64, maxSpillBytes: U64)
      ensures memoryBytes == 0 && spillBytes == 0
      ensures this.maxMemoryBytes == maxMemoryBytes && this.maxSpillBytes == maxSpillBytes
    {
      this.maxMemoryBytes, this.maxSpillBytes, memoryBytes, spillBytes := maxMemoryBytes, maxSpillBytes, 0, 0;
    }

    /** Cancellation and the deadline come from outside. */
    method Checkpoint() returns (o: Outcome<QueryError>)
    {
      var stopped: bool := *;
      return if stopped then Fail(Cancelled) else Pass;
    }

    method ChargeMemory(bytes: nat) returns (o: Outcome<QueryError>)
      modifies this
      ensures spillBytes == old(spillBytes)
      ensures o.Pass? <==> old(memoryBytes) + bytes <= maxMemoryBytes
      ensures memoryBytes == if o.Pass? then old(memoryBytes) + bytes else old(memoryBytes)
    {
      if memoryBytes + bytes > U64_MAX || memoryBytes + bytes > maxMemoryBytes {
        return Fail(MemoryBudget);
      }
      memoryBytes := memoryBytes + bytes;
      return Pass;
    }

    method ReleaseMemory(bytes: nat)
      modifies this
      ensures spillBytes == old(spillBytes)
      ensures memoryBytes == if bytes <= old(memoryBytes) then old(memoryBytes) - bytes else 0
    {
      memoryBytes := if bytes <= memoryBytes then memoryBytes - bytes else 0;
    }

    method ChargeSpill(bytes: nat) returns (o: Outcome<QueryError>)
      modifies this
      ensures memoryBytes == old(memoryBytes)
      ensures o.Pass? <==> old(spillBytes) + bytes <= maxSpillBytes
      ensures spillBytes == if o.Pass? then old(spillBytes) + bytes else old(spillBytes)
    {
      if spillBytes + bytes > U64_MAX || spillBytes + bytes > maxSpillBytes {
        return Fail(SpillBudget);
      }
      spillBytes := spillBytes + bytes;
      return Pass;
    }
  }

  type Files = map<nat, seq<Row>>

  /** A store of spilled runs; each operation may fail, but what it returns is what was written. */
  class SpillStore {
    var files: Files
    var nextHandle: nat

    constructor ()
      ensures files == map[] && Valid()
    {
      files, nextHandle := map[], 0;
    }

    ghost predicate Valid()
      reads this
    {
      forall h | h in files :: h < nextHandle
    }

    method WriteRun(rows: seq<Row>) returns (r: Result<nat, QueryError>)
      requires Valid()
      modifies this
      ensures Valid()
      ensures r.Ok? ==> r.value !in old(files) && files == old(files)[r.value := rows]
      ensures r.Err? ==> files == old(files)
    {
      var broken: bool := *;
      if broken {
        return Err(Storage);
      }
      var handle := nextHandle;
      files, nextHandle := files[handle := rows], nextHandle + 1;
      return Ok(handle);
    }

    method ReadRow(handle: nat, index: nat) returns (r: Result<Row, QueryError>)
      ensures r.Ok? ==> handle in files && index < |files[handle]| && r.value == files[handle][index]
    {
      var broken: bool := *;
      if broken || handle !in files || index >= |files[handle]| {
        return Err(Storage);
      }
      return Ok(files[handle][index]);
    }

    method RowCount(handle: nat) returns (r: Result<nat, QueryError>)
      ensures r.Ok? ==> handle in files && r.value == |files[handle]|
    {
      var broken: bool := *;
      if broken || handle !in files {
        return Err(Storage);
      }
      return Ok(|files[handle]|);
    }

    method RemoveRun(handle: nat) returns (r: Result<(), QueryError>)
      requires Valid()
      modifies this
      ensures Valid()
      ensures r.Ok? ==> files == old(files) - {handle}
    {
      files := files - {handle};
      var broken: bool := *;
      return if broken then Err(Storage) else Ok(());
    }

    /** The size an implementation reserves for a run is its own affair. */
    method ReservedWriteBytes() returns (r: Result<nat, QueryError>)
    {
      var bytes: nat := *;
      var broken: bool := *;
      return if broken then Err(Storage) else Ok(bytes);
    }
  }

  datatype MergeRun =
    | Memory(rows: seq<Row>, index: nat)
    | Spilled(handle: nat, rowCount: nat, index: nat, cached: Option<Row>)

  ghost predicate RunValid(run: MergeRun, files: Files)
  {
    match run
    case Memory(rows, index) => index <= |rows|
    case Spilled(handle, rowCount, index, cached) =>
      && index <= rowCount
      && (index < rowCount ==> handle in files && |files[handle]| == rowCount)
      && (cached.Some? ==> index < rowCount && cached.value == files[handle][index])
  }

  /** The rows a run still has to give. */
  ghost function RunRows(run: MergeRun, files: Files): seq<Row>
    requires RunValid(run, files)
  {
    match run
    case Memory(rows, index) => rows[index..]
    case Spilled(handle, rowCount, index, _) => if index < rowCount then files[handle][index..] else []
  }

  /** Runs still being read do not share a file. */
  ghost predicate RunsValid(runs: seq<MergeRun>, files: Files)
  {
    && (forall i | 0 <= i < |runs| :: RunValid(runs[i], files))
    && (forall i, j | 0 <= i < j < |runs| && Reading(runs[i]) && Reading(runs[j]) :: runs[i].handle != runs[j].handle)
  }

  predicate Reading(run: MergeRun)
  {
    run.Spilled? && run.index < run.rowCount
  }

  ghost function Remaining(runs: seq<MergeRun>, files: Files): (rows: seq<seq<Row>>)
    requires RunsValid(runs, files)
    ensures |rows| == |runs| && forall i | 0 <= i < |runs| :: rows[i] == RunRows(runs[i], files)
  {
    seq(|runs|, i requires 0 <= i < |runs| => RunRows(runs[i], files))
  }

  /** The head is at hand. */
  predicate Loaded(run: MergeRun)
  {
    run.Memory? || run.index >= run.rowCount || run.cached.Some?
  }

  function Head(run: MergeRun): Option<Row>
  {
    match run
    case Memory(rows, index) => if index < |rows| then Some(rows[index]) else None
    case Spilled(_, rowCount, index, cached) => if index < rowCount then cached else None
  }

  lemma HeadIs(run: MergeRun, files: Files)
    requires RunValid(run, files) && Loaded(run)
    ensures Head(run) == if RunRows(run, files) == [] then None else Some(RunRows(run, files)[0])
  {
  }

  // ----- memory

  /** The bytes of the rows that a run holds in memory. */
  ghost function Held(run: MergeRun): nat
  {
    match run
    case Memory(rows, index) => if index <= |rows| then RowsBytes(rows[index..]) else 0
    case Spilled(_, _, _, cached) => if cached.Some? then EstimateRow(cached.value) else 0
  }

  ghost function HeldBy(runs: seq<MergeRun>): nat
  {
    Sum(Held, runs)
  }

  /** What the budget has been charged beyond these bytes. */
  ghost function Beyond(context: QueryContext, bytes: nat): int
    reads context
  {
    context.memoryBytes - bytes
  }

  ghost predicate Within(context: QueryContext)
    reads context
  {
    context.memoryBytes <= context.maxMemoryBytes
  }

  lemma HeadReleased(run: MergeRun, files: Files)
    requires RunValid(run, files) && Loaded(run) && RunRows(run, files) != []
    ensures run.Memory? ==> Held(run) == Held(Memory(run.rows, run.index + 1)) + EstimateRow(RunRows(run, files)[0])
    ensures run.Spilled? ==> Held(run) == EstimateRow(RunRows(run, files)[0])
  {
    if run.Memory? {
      var rest := run.rows[run.index..];
      SumHead(EstimateRow, rest);
      assert rest[1..] == run.rows[run.index + 1..];
    }
  }

  /** Runs that have given all their rows hold nothing. */
  lemma {:induction false} NothingHeld(runs: seq<MergeRun>, files: Files)
    requires RunsValid(runs, files) && forall i | 0 <= i < |runs| :: RunRows(runs[i], files) == []
    ensures HeldBy(runs) == 0
    decreases |runs|
  {
    if runs != [] {
      var front := runs[..|runs| - 1];
      assert forall i | 0 <= i < |front| :: front[i] == runs[i];
      NothingHeld(front, files);
      assert RunRows(runs[|runs| - 1], files) == [];
    }
  }

  /** Reads the next row of a spilled run, charging what the store declares and settling to what was read. */
  method EnsureHead(run: MergeRun, context: QueryContext, store: SpillStore) returns (r: Result<MergeRun, QueryError>)
    requires RunValid(run, store.files)
    modifies context
    ensures r.Ok? ==>
              RunValid(r.value, store.files) && Loaded(r.value)
                  && RunRows(r.value, store.files) == RunRows(run, store.files)
    ensures r.Ok? ==>
              Reading(r.value) == Reading(run) && (run.Spilled? ==> r.value.Spilled? && r.value.handle == run.handle)
    ensures r.Ok? ==> Beyond(context, Held(r.value)) == old(Beyond(context, Held(run)))
    ensures old(Within(context)) ==> Within(context)
  {
    if run.Memory? || run.cached.Some? || run.index >= run.rowCount {
      return Ok(run);
    }
    var declared: nat := *;
    :- context.ChargeMemory(declared);
    var row :- store.ReadRow(run.handle, run.index);
    var actual := EstimateRow(row);
    if actual > declared {
      :- context.ChargeMemory(actual - declared);
    } else {
      context.ReleaseMemory(declared - actual);
    }
    return Ok(run.(cached := Some(row)));
  }

  method EnsureHeads(runs0: seq<MergeRun>, context: QueryContext, store: SpillStore)
    returns (r: Result<seq<MergeRun>, QueryError>)
    requires RunsValid(runs0, store.files)
    modifies context
    ensures r.Ok? ==>
              RunsValid(r.value, store.files) && Remaining(r.value, store.files) == Remaining(runs0, store.files)
    ensures r.Ok? ==> forall i | 0 <= i < |r.value| :: Loaded(r.value[i])
    ensures r.Ok? ==> Beyond(context, HeldBy(r.value)) == old(Beyond(context, HeldBy(runs0)))
    ensures old(Within(context)) ==> Within(context)
  {
    hide Held, Sum;
    var runs := runs0;
    var i := 0;
    while i < |runs|
      invariant 0 <= i <= |runs| == |runs0| && RunsValid(runs, store.files)
      invariant Remaining(runs, store.files) == Remaining(runs0, store.files)
      invariant forall k | 0 <= k < i :: Loaded(runs[k])
      invariant Beyond(context, HeldBy(runs)) == old(Beyond(context, HeldBy(runs0)))
      invariant old(Within(context)) ==> Within(context)
    {
      var run :- EnsureHead(runs[i], context, store);
      SumUpdated(Held, runs, i, run);
      assert forall k | 0 <= k < |runs| && k != i :: runs[i := run][k] == runs[k];
      runs := runs[i := run];
      i := i + 1;
    }
    return Ok(runs);
  }

  /** The first run whose head is least. */
  method SelectRun(key: nat, runs: seq<MergeRun>, ghost files: Files) returns (selected: Option<nat>)
    requires RunsValid(runs, files) && forall i | 0 <= i < |runs| :: Loaded(runs[i])
    ensures selected.None? ==> forall i | 0 <= i < |runs| :: Remaining(runs, files)[i] == []
    ensures selected.Some? ==> FirstLeast(key, Remaining(runs, files), selected.value)
  {
    hide CompareForMerge, FirstLeast, RunsValid, RunRows;
    ghost var rows := Remaining(runs, files);
    selected := None;
    var i := 0;
    while i < |runs|
      invariant 0 <= i <= |runs|
      invariant selected.None? ==> forall j | 0 <= j < i :: rows[j] == []
      invariant selected.Some? ==> selected.value < i && FirstLeast(key, rows[..i], selected.value)
    {
      HeadAt(runs, files, i);
      var head := Head(runs[i]);
      if selected.None? {
        if head.Some? {
          OnlyHead(key, rows, i);
          selected := Some(i);
        }
      } else {
        HeadAt(runs, files, selected.value);
        BestHead(key, rows, selected.value, i);
        if head.Some? && CompareForMerge(key, head.value, Head(runs[selected.value]).value) == Less {
          BetterHead(key, rows, selected.value, i);
          selected := Some(i);
        } else {
          SameHead(key, rows, selected.value, i);
        }
      }
      i := i + 1;
    }
    assert rows[..i] == rows;
  }

  lemma HeadAt(runs: seq<MergeRun>, files: Files, i: nat)
    requires RunsValid(runs, files) && i < |runs| && Loaded(runs[i])
    ensures Head(runs[i]) == if Remaining(runs, files)[i] == [] then None else Some(Remaining(runs, files)[i][0])
  {
    HeadIs(runs[i], files);
  }

  lemma OnlyHead(key: nat, rows: seq<seq<Row>>, i: nat)
    requires i < |rows| && rows[i] != [] && forall j | 0 <= j < i :: rows[j] == []
    ensures FirstLeast(key, rows[..i + 1], i)
  {
    RowsReverse(key, rows[i][0], rows[i][0]);
  }

  lemma BestHead(key: nat, rows: seq<seq<Row>>, best: nat, i: nat)
    requires i < |rows| && best < i && FirstLeast(key, rows[..i], best)
    ensures rows[best] != []
  {
    assert rows[..i][best] == rows[best];
  }

  lemma SameHead(key: nat, rows: seq<seq<Row>>, best: nat, i: nat)
    requires i < |rows| && best < i && FirstLeast(key, rows[..i], best) && rows[best] != []
    requires rows[i] != [] ==> CompareForMerge(key, rows[i][0], rows[best][0]) != Less
    ensures FirstLeast(key, rows[..i + 1], best)
  {
    hide CompareForMerge;
    assert forall j | 0 <= j < i :: rows[..i + 1][j] == rows[..i][j];
    if rows[i] != [] {
      RowsReverse(key, rows[i][0], rows[best][0]);
    }
  }

  lemma BetterHead(key: nat, rows: seq<seq<Row>>, best: nat, i: nat)
    requires i < |rows| && rows[i] != [] && best < i && FirstLeast(key, rows[..i], best)
    requires CompareForMerge(key, rows[i][0], rows[best][0]) == Less
    ensures FirstLeast(key, rows[..i + 1], i)
  {
    hide CompareForMerge;
    RowsReverse(key, rows[i][0], rows[i][0]);
    forall j | 0 <= j < i && rows[j] != []
      ensures CompareForMerge(key, rows[i][0], rows[j][0]) == Less
    {
      assert rows[..i][j] == rows[j];
      RowsFit(key, rows[i][0], rows[best][0], rows[j][0]);
    }
  }

  /** Takes the head of one run; a spilled run that is read to its end gives up its file. */
  method TakeHead(runs: seq<MergeRun>, i: nat, store: SpillStore) returns (r: Result<(seq<MergeRun>, Row), QueryError>)
    requires store.Valid() && RunsValid(runs, store.files) && i < |runs| && Loaded(runs[i])
    requires RunRows(runs[i], store.files) != []
    modifies store
    ensures store.Valid()
    ensures r.Ok? ==> RunsValid(r.value.0, store.files)
    ensures r.Ok? ==> r.value.1 == old(RunRows(runs[i], store.files))[0]
    ensures r.Ok? ==>
              Remaining(r.value.0, store.files)
                  == old(Remaining(runs, store.files))[i := old(RunRows(runs[i], store.files))[1..]]
    ensures r.Ok? ==> HeldBy(runs) == HeldBy(r.value.0) + EstimateRow(r.value.1)
  {
    hide Sum, EstimateRow;
    HeadIs(runs[i], store.files);
    HeadReleased(runs[i], store.files);
    match runs[i]
    case Memory(rows, index) =>
      SumUpdated(Held, runs, i, Memory(rows, index + 1));
      TakenFrom(runs, i, Memory(rows, index + 1), store.files, store.files);
      return Ok((runs[i := Memory(rows, index + 1)], rows[index]));
    case Spilled(handle, rowCount, index, cached) =>
      ghost var before := store.files;
      var run := Spilled(handle, rowCount, index + 1, None);
      if index + 1 == rowCount {
        var removed := store.RemoveRun(handle);
        if removed.Err? {
          return Err(removed.error);
        }
      }
      TakenFrom(runs, i, run, before, store.files);
      SumUpdated(Held, runs, i, run);
      return Ok((runs[i := run], cached.value));
  }

  lemma TakenFrom(runs: seq<MergeRun>, i: nat, run: MergeRun, before: Files, after: Files)
    requires RunsValid(runs, before) && i < |runs| && Loaded(runs[i]) && RunRows(runs[i], before) != []
    requires runs[i].Memory? ==> run == Memory(runs[i].rows, runs[i].index + 1) && after == before
    requires runs[i].Spilled? ==> run == Spilled(runs[i].handle, runs[i].rowCount, runs[i].index + 1, None)
    requires runs[i].Spilled? ==>
              after == if runs[i].index + 1 == runs[i].rowCount then before - {runs[i].handle} else before
    ensures RunsValid(runs[i := run], after)
    ensures Remaining(runs[i := run], after) == Remaining(runs, before)[i := RunRows(runs[i], before)[1..]]
  {
    var runs' := runs[i := run];
    forall k | 0 <= k < |runs'|
      ensures RunValid(runs'[k], after)
      ensures RunRows(runs'[k], after) == if k == i then RunRows(runs[i], before)[1..] else RunRows(runs[k], before)
    {
      if k != i {
        assert RunValid(runs[k], before);
        assert Reading(runs[k]) && Reading(runs[i]) ==> runs[k].handle != runs[i].handle;
      }
    }
  }

  // ----- inputs

  /** An input operator, as its schema and the batches it will give. */
  datatype Input = Input(schema: Schema, batches: seq<ColumnBatch>) {
    ghost predicate Valid()
    {
      forall i | 0 <= i < |batches| :: batches[i].Valid() && batches[i].schema == schema
    }
  }

  ghost predicate InputsValid(inputs: seq<Input>)
  {
    forall i | 0 <= i < |inputs| :: inputs[i].Valid()
  }

  ghost function BatchRows(batches: seq<ColumnBatch>): (rows: seq<seq<Row>>)
    requires forall i | 0 <= i < |batches| :: batches[i].Valid()
  {
    if batches == [] then [] else [batches[0].Rows()] + BatchRows(batches[1..])
  }

  /** The rows of every batch of every input, in order. */
  ghost function Collected(inputs: seq<Input>): (rows: seq<seq<Row>>)
    requires InputsValid(inputs)
  {
    if inputs == [] then [] else BatchRows(inputs[0].batches) + Collected(inputs[1..])
  }

  ghost function Distinct(deduplicate: bool, last: Option<Row>, rows: seq<Row>): seq<Row>
  {
    if deduplicate then Deduplicated(last, rows) else rows
  }

  /** What a merge means: all rows, stably sorted, repeats dropped on request. */
  ghost function MergeOf(key: nat, deduplicate: bool, inputs: seq<Input>): seq<Row>
    requires InputsValid(inputs)
  {
    Distinct(deduplicate, None, Sort(key, Flatten(Collected(inputs))))
  }

  /** Turns a batch into a sorted run: in memory if it is small and the budget allows, spilled otherwise. */
  method LoadBatch(key: nat, threshold: U64, batch: ColumnBatch, context: QueryContext, store: SpillStore)
    returns (r: Result<MergeRun, QueryError>)
    requires store.Valid() && batch.Valid()
    modifies context, store
    ensures store.Valid()
    ensures r.Ok? ==> forall h | h in old(store.files) :: h in store.files && store.files[h] == old(store.files)[h]
    ensures r.Ok? ==> RunValid(r.value, store.files) && RunRows(r.value, store.files) == Sort(key, batch.Rows())
    ensures r.Ok? && r.value.Spilled? ==> r.value.handle !in old(store.files)
    ensures r.Ok? ==> Beyond(context, Held(r.value)) == old(context.memoryBytes)
    ensures old(Within(context)) ==> Within(context)
  {
    hide Sum, EstimateRow, ColumnBytes, Sort;
    BatchIsRows(batch);
    var estimated := BatchBytes(batch);
    :- context.Checkpoint();
    var spill := estimated >= threshold;
    if !spill {
      var charged := context.ChargeMemory(estimated);
      spill := charged.Fail?;
    }
    if spill {
      var reserved :- store.ReservedWriteBytes();
      :- context.ChargeSpill(reserved);
    }
    var rows := IntoRows(batch);
    var sorted := Sort(key, rows);
    SortIsPermutation(key, rows);
    SumPermuted(EstimateRow, rows, sorted);
    if spill {
      var handle :- store.WriteRun(sorted);
      var counted := store.RowCount(handle);
      if counted.Err? {
        var _ := store.RemoveRun(handle);
        return Err(counted.error);
      }
      return Ok(Spilled(handle, counted.value, 0, None));
    }
    assert sorted[0..] == sorted;
    return Ok(Memory(sorted, 0));
  }

  lemma AppendRun(runs: seq<MergeRun>, before: Files, run: MergeRun, after: Files)
    requires RunsValid(runs, before) && RunValid(run, after)
    requires forall h | h in before :: h in after && after[h] == before[h]
    requires run.Spilled? ==> run.handle !in before
    ensures RunsValid(runs + [run], after)
    ensures Remaining(runs + [run], after) == Remaining(runs, before) + [RunRows(run, after)]
  {
    var runs' := runs + [run];
    forall k | 0 <= k < |runs|
      ensures RunValid(runs'[k], after) && RunRows(runs'[k], after) == RunRows(runs[k], before)
      ensures Reading(runs'[k]) ==> runs'[k].handle in before
    {
      assert RunValid(runs[k], before);
    }
  }

  /** Each run holds its batch, sorted. */
  ghost predicate Loads(key: nat, runs: seq<MergeRun>, files: Files, batches: seq<seq<Row>>)
  {
    && RunsValid(runs, files)
    && |runs| == |batches|
    && forall k | 0 <= k < |runs| :: Remaining(runs, files)[k] == Sort(key, batches[k])
  }

  lemma LoadsOne(key: nat, runs: seq<MergeRun>, before: Files, batches: seq<seq<Row>>, run: MergeRun, after: Files,
                 batch: seq<Row>)
    requires Loads(key, runs, before, batches) && RunValid(run, after) && RunRows(run, after) == Sort(key, batch)
    requires forall h | h in before :: h in after && after[h] == before[h]
    requires run.Spilled? ==> run.handle !in before
    ensures Loads(key, runs + [run], after, batches + [batch])
  {
    AppendRun(runs, before, run, after);
  }

  /** Loads every batch of one input; the input itself may fail between batches. */
  method LoadInput(key: nat, threshold: U64, input: Input, runs0: seq<MergeRun>, ghost loaded: seq<seq<Row>>,
                   context: QueryContext, store: SpillStore)
    returns (r: Result<seq<MergeRun>, QueryError>)
    requires store.Valid() && input.Valid() && Loads(key, runs0, store.files, loaded)
    modifies context, store
    ensures store.Valid()
    ensures r.Ok? ==> Loads(key, r.value, store.files, loaded + BatchRows(input.batches))
    ensures r.Ok? ==> Beyond(context, HeldBy(r.value)) == old(Beyond(context, HeldBy(runs0)))
    ensures old(Within(context)) ==> Within(context)
  {
    hide Loads, Held, Sum;
    var runs := runs0;
    ghost var done := loaded;
    var i := 0;
    while i < |input.batches|
      invariant 0 <= i <= |input.batches| && store.Valid()
      invariant Loads(key, runs, store.files, done)
      invariant done + BatchRows(input.batches[i..]) == loaded + BatchRows(input.batches)
      invariant Beyond(context, HeldBy(runs)) == old(Beyond(context, HeldBy(runs0)))
      invariant old(Within(context)) ==> Within(context)
    {
      var broken: bool := *;
      if broken {
        return Err(Storage);
      }
      ghost var before := store.files;
      assert input.batches[i..][0] == input.batches[i] && input.batches[i..][1..] == input.batches[i + 1..];
      var run :- LoadBatch(key, threshold, input.batches[i], context, store);
      LoadsOne(key, runs, before, done, run, store.files, input.batches[i].Rows());
      SumAppended(Held, runs, [run]);
      SumOfOne(Held, run);
      runs := runs + [run];
      done := done + [input.batches[i].Rows()];
      i := i + 1;
    }
    assert done == loaded + BatchRows(input.batches);
    return Ok(runs);
  }

  lemma EmptyLoads(key: nat, files: Files)
    ensures Loads(key, [], files, [])
  {
  }

  /** Loads every input, all of one schema. */
  method LoadInputs(key: nat, threshold: U64, schema: Schema, inputs: seq<Input>, context: QueryContext,
                    store: SpillStore)
    returns (r: Result<seq<MergeRun>, QueryError>)
    requires store.Valid() && InputsValid(inputs)
    modifies context, store
    ensures store.Valid()
    ensures r.Ok? ==>
              Loads(key, r.value, store.files, Collected(inputs)) && forall i | 0 <= i < |inputs| ::
                  inputs[i].schema == schema
    ensures r.Ok? ==> Beyond(context, HeldBy(r.value)) == old(context.memoryBytes)
    ensures old(Within(context)) ==> Within(context)
  {
    hide Loads;
    var runs := [];
    ghost var loaded: seq<seq<Row>> := [];
    var i := 0;
    EmptyLoads(key, store.files);
    while i < |inputs|
      invariant 0 <= i <= |inputs| && store.Valid()
      invariant Loads(key, runs, store.files, loaded)
      invariant loaded + Collected(inputs[i..]) == Collected(inputs)
      invariant forall k | 0 <= k < i :: inputs[k].schema == schema
      invariant Beyond(context, HeldBy(runs)) == old(context.memoryBytes)
      invariant old(Within(context)) ==> Within(context)
    {
      if inputs[i].schema != schema {
        return Err(InvalidPlan);
      }
      assert inputs[i..][0] == inputs[i] && inputs[i..][1..] == inputs[i + 1..];
      var more :- LoadInput(key, threshold, inputs[i], runs, loaded, context, store);
      runs, loaded := more, loaded + BatchRows(inputs[i].batches);
      i := i + 1;
    }
    assert loaded == Collected(inputs);
    return Ok(runs);
  }
}
