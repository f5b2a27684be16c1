/** Physical plans as the gateway sends them: expressions, operators, storage accesses. */
module FragmentPlan {
  import opened Wrappers
  import opened KernelValues
  import opened ByteStrings
  import opened Batch

  datatype LogicalExpr =
    | Literal(value: Value)
    | Parameter(name: Bytes8)
    | ColumnRef(name: Bytes8)
    | Property(input: LogicalExpr, name: Bytes8)
    | Unary(unary: UnaryOperator, input: LogicalExpr)
    | Binary(left: LogicalExpr, binary: BinaryOperator, right: LogicalExpr)
    | ListOf(items: seq<LogicalExpr>)
    | MapOf(entries: seq<NamedExpr>)

  datatype NamedExpr = NamedExpr(name: Bytes8, expression: LogicalExpr)

  /** Operators, join kinds, aggregate functions and directions, by their codes. */
  type UnaryOperator = n: U8 | n <= 2
  type BinaryOperator = n: U8 | n <= 12
  type JoinKind = n: U8 | n <= 3
  type AggregateFunction = n: U8 | n <= 5
  type SortDirection = n: U8 | n <= 1
  type Direction = n: U8 | n <= 2

  const COUNT: AggregateFunction := 0

  datatype Semantics = Semantics(temporal: bool, nulls: bool, duplicates: bool, order: bool, snapshot: bool) {
    function Flags(): (n: U8)
      ensures n < 32
    {
      (if temporal then 1 else 0) + (if nulls then 2 else 0) + (if duplicates then 4 else 0)
          + (if order then 8 else 0) + (if snapshot then 16 else 0)
    }
  }

  datatype PhysicalExpr = Evaluate(expression: LogicalExpr) | VerifyStorage(node: U32, requirements: Semantics)

  datatype Aggregate = Aggregate(function1: AggregateFunction, argument: Option<LogicalExpr>, alias: Bytes8,
      distinct: bool)
  datatype SortKey = SortKey(expression: LogicalExpr, direction: SortDirection)

  datatype OperatorKind =
    | Source(node: U32, fragments: seq<U32>, output: Bytes8)
    | Filter(input: U32, predicate1: PhysicalExpr)
    | Project(input: U32, projections: seq<NamedExpr>)
    | Join(left: U32, right: U32, kind: JoinKind, condition: Option<PhysicalExpr>)
    | AggregateBy(input: U32, groups: seq<NamedExpr>, aggregates: seq<Aggregate>)
    | Sort(input: U32, keys: seq<SortKey>)
    | Limit(input: U32, skip: U64, limit: Option<U64>)
    | Unwind(input: U32, expression: PhysicalExpr, alias: Bytes8)

  datatype Operator = Operator(id: U32, kind: OperatorKind)

  datatype TimeExpr = AtTime(time: I64) | TimeParameter(name: Bytes8)
  datatype TemporalScope = Current | AsOf(time: TimeExpr) | ChangesBetween(from: TimeExpr, to: TimeExpr)
  datatype Interval = Between(start: I64, end: I64) | IntervalParameter(name: Bytes8)
      | Bounds(lower: TimeExpr, upper: TimeExpr)
  datatype ValidTime = At(at: TimeExpr) | Overlaps(interval: Interval) | ChangesIn(from: TimeExpr, to: TimeExpr)
  datatype ReadScope = ReadScope(transaction: TemporalScope, valid: Option<ValidTime>)

  datatype LogicalRead =
    | VertexPoint(id: U128)
    | VertexScan
    | EdgePoint(edge: U128)
    | EdgeScan
    | Adjacency(id: U128, direction: Direction)
    | Traversal(id: U128, directions: seq<Direction>)

  datatype Pushdown =
    | PushVertex(id: U128, validAt: I64, transactionAt: I64)
    | PushScan(validAt: I64, transactionAt: I64, after: Option<U128>, limit: U32)

  datatype Access =
    | Logical(node: U32, read: LogicalRead, scope: ReadScope, rowBound: U32)
    | Pushed(node: U32, contract: U32, capabilities: seq<Bytes8>, operation: Pushdown, guarantee: Semantics,
        residual: Option<PhysicalExpr>)

  datatype Fragment = Fragment(accesses: seq<Access>)

  datatype Plan = Plan(version: U64, root: U32, schema: Schema, operators: seq<Operator>, fragments: seq<Fragment>)

  /** What a data worker is asked to read. */
  datatype FragmentRead =
    | Point(id: U128)
    | Scan(after: Option<U128>, limit: U32)
    | Count(after: Option<U128>, limit: U32)
    | Neighbours(id: U128, direction: Direction, limit: U32)
    | Hops(id: U128, directions: seq<Direction>, limit: U32)

  function OperatorOf(operators: seq<Operator>, id: U32): Option<Operator>
  {
    if operators == [] then None
    else if operators[0].id == id then Some(operators[0])
    else OperatorOf(operators[1..], id)
  }

  /** One plain count, without groups. */
  predicate PlainCount(kind: OperatorKind)
  {
    && kind.AggregateBy? && kind.groups == [] && |kind.aggregates| == 1
    && kind.aggregates[0].function1 == COUNT && kind.aggregates[0].argument.None? && !kind.aggregates[0].distinct
  }

  /** The plan only counts vertices: a plain count over one source, and every fragment scans vertices for it. */
  predicate CountsVertices(plan: Plan)
  {
    var root := OperatorOf(plan.operators, plan.root);
    if root.None? || !PlainCount(root.value.kind) then false
    else
      var source := OperatorOf(plan.operators, root.value.kind.input);
      && source.Some? && source.value.kind.Source?
      && |plan.schema| == 1 && plan.schema[0].name == root.value.kind.aggregates[0].alias && plan.fragments != []
      && forall i | 0 <= i < |plan.fragments| :: CountableAccess(plan.fragments[i].accesses, source.value.kind.node)
  }

  predicate CountableAccess(accesses: seq<Access>, node: U32)
  {
    && |accesses| == 1 && accesses[0].node == node
    && match accesses[0]
       case Logical(_, read, _, _) => read.VertexScan?
       case Pushed(_, _, _, operation, _, residual) => residual.None? && operation.PushScan?
  }

  // ----- which plans only count

  /** The first operator with this number is of this kind. */
  ghost predicate FirstIs(operators: seq<Operator>, id: U32, kind: OperatorKind)
  {
    exists i: nat :: i < |operators| && operators[i] == Operator(id, kind)
      && forall h | 0 <= h < i :: operators[h].id != id
  }

  lemma {:induction false} FirstIsFound(operators: seq<Operator>, id: U32, kind: OperatorKind)
    ensures OperatorOf(operators, id) == Some(Operator(id, kind)) <==> FirstIs(operators, id, kind)
  {
    if operators != [] {
      var rest := operators[1..];
      FirstIsFound(rest, id, kind);
      if FirstIs(rest, id, kind) && operators[0].id != id {
        var i: nat :| i < |rest| && rest[i] == Operator(id, kind) && forall h | 0 <= h < i :: rest[h].id != id;
        assert operators[i + 1] == rest[i];
        assert forall h | 0 < h < i + 1 :: operators[h] == rest[h - 1];
      }
      if FirstIs(operators, id, kind) && operators[0].id != id {
        var i: nat :| i < |operators| && operators[i] == Operator(id, kind)
                      && forall h | 0 <= h < i :: operators[h].id != id;
        assert rest[i - 1] == operators[i];
        assert forall h | 0 <= h < i - 1 :: rest[h] == operators[h + 1];
      }
    }
  }

  /** The access does nothing but scan the vertices of this node. */
  ghost predicate OnlyScans(accesses: seq<Access>, node: U32)
  {
    || (exists scope, bound :: accesses == [Logical(node, VertexScan, scope, bound)])
    || (exists contract, names, at, asOf, after, limit, guarantee ::
          accesses == [Pushed(node, contract, names, PushScan(at, asOf, after, limit), guarantee, None)])
  }

  lemma OnlyScansIff(accesses: seq<Access>, node: U32)
    ensures CountableAccess(accesses, node) <==> OnlyScans(accesses, node)
  {
    if CountableAccess(accesses, node) {
      match accesses[0]
      case Logical(_, _, scope, bound) =>
        assert accesses == [Logical(node, VertexScan, scope, bound)];
      case Pushed(_, contract, names, operation, guarantee, _) =>
        assert accesses == [Pushed(node, contract, names,
            PushScan(operation.validAt, operation.transactionAt, operation.after, operation.limit), guarantee, None)];
    }
  }

  /** Only counting: the root counts the rows of a source, under the one column of the answer, and all else scans. */
  ghost predicate CountPattern(plan: Plan, source: U32, node: U32, numbers: seq<U32>, output: Bytes8, alias: Bytes8)
  {
    && FirstIs(plan.operators, plan.root, AggregateBy(source, [], [Aggregate(COUNT, None, alias, false)]))
    && FirstIs(plan.operators, source, Source(node, numbers, output))
    && |plan.schema| == 1 && plan.schema[0].name == alias && plan.fragments != []
    && forall i | 0 <= i < |plan.fragments| :: OnlyScans(plan.fragments[i].accesses, node)
  }

  lemma OperatorNumber(operators: seq<Operator>, id: U32)
    ensures OperatorOf(operators, id).Some? ==> OperatorOf(operators, id).value.id == id
  {
  }

  /** A plan is sent out as a count exactly when it is of that pattern. */
  lemma CountsVerticesIff(plan: Plan)
    ensures CountsVertices(plan) <==> exists source, node, numbers, output, alias ::
      CountPattern(plan, source, node, numbers, output, alias)
  {
    hide OperatorOf, FirstIs, OnlyScans, CountableAccess;
    forall accesses, node ensures CountableAccess(accesses, node) <==> OnlyScans(accesses, node) {
      OnlyScansIff(accesses, node);
    }
    if CountsVertices(plan) {
      var root := OperatorOf(plan.operators, plan.root).value.kind;
      var source := OperatorOf(plan.operators, root.input).value.kind;
      var alias := root.aggregates[0].alias;
      OperatorNumber(plan.operators, plan.root);
      OperatorNumber(plan.operators, root.input);
      assert root.aggregates == [Aggregate(COUNT, None, alias, false)];
      FirstIsFound(plan.operators, plan.root, root);
      FirstIsFound(plan.operators, root.input, source);
      assert CountPattern(plan, root.input, source.node, source.fragments, source.output, alias);
    }
    if source, node, numbers, output, alias :| CountPattern(plan, source, node, numbers, output, alias) {
      FirstIsFound(plan.operators, plan.root, AggregateBy(source, [], [Aggregate(COUNT, None, alias, false)]));
      FirstIsFound(plan.operators, source, Source(node, numbers, output));
    }
  }
}
