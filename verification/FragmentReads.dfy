/** Whole fragments: the gateway encodes a plan around one storage access, the data worker decodes the read. */
module FragmentReads {
  import opened Wrappers
  import opened ByteStrings
  import opened FragmentPlan
  import opened FragmentCodec

  // ----- physical expressions and operators

  function PutPhysical(e: PhysicalExpr, tail: Bytes8): (b: Bytes8)
  {
    match e
    case Evaluate(expression) => PutByte(0, PutExpr(expression, tail))
    case VerifyStorage(node, requirements) => PutByte(1, PutU32(node, PutByte(requirements.Flags(), tail)))
  }

  ghost predicate PhysicalSound(e: PhysicalExpr)
  {
    e.Evaluate? ==> ExprSound(e.expression)
  }

  ghost predicate PhysicalWithin(e: PhysicalExpr, depth: nat)
  {
    depth <= MAX_EXPR_DEPTH && (e.Evaluate? ==> ExprWithin(e.expression, depth + 1))
  }

  function SkipPhysical(b: Bytes8, depth: nat): (rest: Option<Bytes8>)
  {
    if depth > MAX_EXPR_DEPTH then None
    else
      var tag :- TakeByte(b);
      match tag.value
      case 0 => SkipExpr(tag.rest, depth + 1)
      case 1 =>
        var node :- SkipU32(tag.rest);
        SkipCode(node, 31)
      case _ => None
  }

  lemma PhysicalBack(e: PhysicalExpr, depth: nat, tail: Bytes8)
    requires PhysicalSound(e)
    ensures SkipPhysical(PutPhysical(e, tail), depth) == if PhysicalWithin(e, depth) then Some(tail) else None
  {
    hide PutByte, TakeByte, SkipCode, PutExpr, SkipExpr, PutU32, TakeU32, ExprWithin, ExprSound;
    match e
    case Evaluate(expression) =>
      ByteBack(0, PutExpr(expression, tail));
      ExprBack(expression, depth + 1, tail);
    case VerifyStorage(node, requirements) =>
      ByteBack(1, PutU32(node, PutByte(requirements.Flags(), tail)));
      U32Back(node, PutByte(requirements.Flags(), tail));
      CodeBack(requirements.Flags(), 31, tail);
  }

  function PutOptionPhysical(e: Option<PhysicalExpr>, tail: Bytes8): (b: Bytes8)
  {
    PutFlag(e.Some?, if e.Some? then PutPhysical(e.value, tail) else tail)
  }

  function SkipOptionPhysical(b: Bytes8): (rest: Option<Bytes8>)
  {
    var some :- TakeFlag(b);
    if some.value then SkipPhysical(some.rest, 0) else Some(some.rest)
  }

  ghost predicate OptionPhysicalWithin(e: Option<PhysicalExpr>)
  {
    e.Some? ==> PhysicalWithin(e.value, 0)
  }

  lemma OptionPhysicalBack(e: Option<PhysicalExpr>, tail: Bytes8)
    requires e.Some? ==> PhysicalSound(e.value)
    ensures SkipOptionPhysical(PutOptionPhysical(e, tail)) == if OptionPhysicalWithin(e) then Some(tail) else None
  {
    hide PutFlag, TakeFlag, PutPhysical, SkipPhysical, PhysicalWithin, PhysicalSound;
    FlagBack(e.Some?, if e.Some? then PutPhysical(e.value, tail) else tail);
    if e.Some? {
      PhysicalBack(e.value, 0, tail);
    }
  }

  /** Projections: the expression comes first. */
  function PutProjected(ps: seq<NamedExpr>, tail: Bytes8): (b: Bytes8)
  {
    if ps == [] then tail else PutExpr(ps[0].expression, PutText(ps[0].name, PutProjected(ps[1..], tail)))
  }

  /** Projected expressions start one level deeper. */
  function SkipProjected(b: Bytes8, count: nat): (rest: Option<Bytes8>)
    decreases count
  {
    if count == 0 then Some(b)
    else
      var e :- SkipExpr(b, 1);
      var alias :- SkipText(e);
      SkipProjected(alias, count - 1)
  }

  ghost predicate ProjectionsSound(ps: seq<NamedExpr>)
  {
    |ps| <= U32_MAX && forall i | 0 <= i < |ps| :: NamedSound(ps[i])
  }

  lemma {:induction false} ProjectedBack(ps: seq<NamedExpr>, tail: Bytes8)
    requires forall i | 0 <= i < |ps| :: NamedSound(ps[i])
    ensures SkipProjected(PutProjected(ps, tail), |ps|) == if NamedWithin(ps, 1) then Some(tail) else None
    decreases |ps|
  {
    hide PutExpr, SkipExpr, ExprWithin, ExprSound, PutText, SkipText, ValidUtf8;
    if ps != [] {
      var rest := PutProjected(ps[1..], tail);
      ExprBack(ps[0].expression, 1, PutText(ps[0].name, rest));
      TextBack(ps[0].name, rest);
      ProjectedBack(ps[1..], tail);
      assert NamedWithin(ps, 1) <==> ExprWithin(ps[0].expression, 1) && NamedWithin(ps[1..], 1);
    }
  }

  function PutProjections(ps: seq<NamedExpr>, tail: Bytes8): (b: Bytes8)
  {
    PutU32(Capped(|ps|), PutProjected(ps, tail))
  }

  function SkipProjections(b: Bytes8): (rest: Option<Bytes8>)
  {
    var count :- TakeU32(b);
    SkipProjected(count.rest, count.value)
  }

  lemma ProjectionsBack(ps: seq<NamedExpr>, tail: Bytes8)
    requires ProjectionsSound(ps)
    ensures SkipProjections(PutProjections(ps, tail)) == if NamedWithin(ps, 1) then Some(tail) else None
  {
    hide PutProjected, SkipProjected, PutU32, TakeU32, NamedWithin, NamedSound;
    U32Back(|ps|, PutProjected(ps, tail));
    ProjectedBack(ps, tail);
  }

  function PutOptionExpr(e: Option<LogicalExpr>, tail: Bytes8): (b: Bytes8)
  {
    PutFlag(e.Some?, if e.Some? then PutExpr(e.value, tail) else tail)
  }

  function SkipOptionExpr(b: Bytes8): (rest: Option<Bytes8>)
  {
    var some :- TakeFlag(b);
    if some.value then SkipExpr(some.rest, 0) else Some(some.rest)
  }

  ghost predicate OptionExprWithin(e: Option<LogicalExpr>)
  {
    e.Some? ==> ExprWithin(e.value, 0)
  }

  lemma OptionExprBack(e: Option<LogicalExpr>, tail: Bytes8)
    requires e.Some? ==> ExprSound(e.value)
    ensures SkipOptionExpr(PutOptionExpr(e, tail)) == if OptionExprWithin(e) then Some(tail) else None
  {
    hide PutFlag, TakeFlag, PutExpr, SkipExpr, ExprWithin, ExprSound;
    FlagBack(e.Some?, if e.Some? then PutExpr(e.value, tail) else tail);
    if e.Some? {
      ExprBack(e.value, 0, tail);
    }
  }

  function PutAggregate(a: Aggregate, tail: Bytes8): (b: Bytes8)
  {
    PutByte(a.function1, PutOptionExpr(a.argument, PutText(a.alias, PutFlag(a.distinct, tail))))
  }

  function SkipAggregate(b: Bytes8): (rest: Option<Bytes8>)
  {
    var code :- SkipCode(b, 5);
    var argument :- SkipOptionExpr(code);
    var alias :- SkipText(argument);
    var distinct :- TakeFlag(alias);
    Some(distinct.rest)
  }

  ghost predicate AggregateSound(a: Aggregate)
  {
    (a.argument.Some? ==> ExprSound(a.argument.value)) && TextSound(a.alias)
  }

  lemma AggregateBack(a: Aggregate, tail: Bytes8)
    requires AggregateSound(a)
    ensures SkipAggregate(PutAggregate(a, tail)) == if OptionExprWithin(a.argument) then Some(tail) else None
  {
    hide PutByte, SkipCode, PutOptionExpr, SkipOptionExpr, PutText, SkipText, PutFlag, TakeFlag, OptionExprWithin,
      ExprSound, ValidUtf8;
    var t3 := PutFlag(a.distinct, tail);
    var t2 := PutText(a.alias, t3);
    CodeBack(a.function1, 5, PutOptionExpr(a.argument, t2));
    OptionExprBack(a.argument, t2);
    TextBack(a.alias, t3);
    FlagBack(a.distinct, tail);
  }

  function PutAggregates(aggregates: seq<Aggregate>, tail: Bytes8): (b: Bytes8)
  {
    if aggregates == [] then tail else PutAggregate(aggregates[0], PutAggregates(aggregates[1..], tail))
  }

  function SkipAggregates(b: Bytes8, count: nat): (rest: Option<Bytes8>)
    decreases count
  {
    if count == 0 then Some(b)
    else
      var a :- SkipAggregate(b);
      SkipAggregates(a, count - 1)
  }

  ghost predicate AggregatesWithin(aggregates: seq<Aggregate>)
  {
    forall i | 0 <= i < |aggregates| :: OptionExprWithin(aggregates[i].argument)
  }

  lemma {:induction false} AggregatesBack(aggregates: seq<Aggregate>, tail: Bytes8)
    requires forall i | 0 <= i < |aggregates| :: AggregateSound(aggregates[i])
    ensures SkipAggregates(PutAggregates(aggregates, tail), |aggregates|)
         == if AggregatesWithin(aggregates) then Some(tail) else None
    decreases |aggregates|
  {
    hide PutAggregate, SkipAggregate, AggregateSound, OptionExprWithin;
    if aggregates != [] {
      AggregateBack(aggregates[0], PutAggregates(aggregates[1..], tail));
      AggregatesBack(aggregates[1..], tail);
      assert AggregatesWithin(aggregates)
          <==> OptionExprWithin(aggregates[0].argument) && AggregatesWithin(aggregates[1..]);
    }
  }

  function PutKeys(keys: seq<SortKey>, tail: Bytes8): (b: Bytes8)
  {
    if keys == [] then tail else PutExpr(keys[0].expression, PutByte(keys[0].direction, PutKeys(keys[1..], tail)))
  }

  function SkipKeys(b: Bytes8, count: nat): (rest: Option<Bytes8>)
    decreases count
  {
    if count == 0 then Some(b)
    else
      var e :- SkipExpr(b, 0);
      var direction :- SkipCode(e, 1);
      SkipKeys(direction, count - 1)
  }

  ghost predicate KeysWithin(keys: seq<SortKey>)
  {
    forall i | 0 <= i < |keys| :: ExprWithin(keys[i].expression, 0)
  }

  lemma {:induction false} KeysBack(keys: seq<SortKey>, tail: Bytes8)
    requires forall i | 0 <= i < |keys| :: ExprSound(keys[i].expression)
    ensures SkipKeys(PutKeys(keys, tail), |keys|) == if KeysWithin(keys) then Some(tail) else None
    decreases |keys|
  {
    hide PutExpr, SkipExpr, ExprWithin, ExprSound, PutByte, SkipCode;
    if keys != [] {
      var rest := PutKeys(keys[1..], tail);
      ExprBack(keys[0].expression, 0, PutByte(keys[0].direction, rest));
      CodeBack(keys[0].direction, 1, rest);
      KeysBack(keys[1..], tail);
      assert KeysWithin(keys) <==> ExprWithin(keys[0].expression, 0) && KeysWithin(keys[1..]);
    }
  }

  function PutNumbers(ns: seq<U32>, tail: Bytes8): (b: Bytes8)
  {
    if ns == [] then tail else PutU32(ns[0], PutNumbers(ns[1..], tail))
  }

  function SkipNumbers(b: Bytes8, count: nat): (rest: Option<Bytes8>)
    decreases count
  {
    if count == 0 then Some(b)
    else
      var n :- SkipU32(b);
      SkipNumbers(n, count - 1)
  }

  lemma {:induction false} NumbersBack(ns: seq<U32>, tail: Bytes8)
    ensures SkipNumbers(PutNumbers(ns, tail), |ns|) == Some(tail)
    decreases |ns|
  {
    hide PutU32, TakeU32;
    if ns != [] {
      U32Back(ns[0], PutNumbers(ns[1..], tail));
      NumbersBack(ns[1..], tail);
    }
  }

  function PutKind(kind: OperatorKind, tail: Bytes8): (b: Bytes8)
  {
    match kind
    case Source(node, fragments, output) =>
        PutByte(0, PutU32(node, PutU32(Capped(|fragments|), PutNumbers(fragments, PutText(output, tail)))))
    case Filter(input, predicate1) => PutByte(1, PutU32(input, PutPhysical(predicate1, tail)))
    case Project(input, projections) => PutByte(2, PutU32(input, PutProjections(projections, tail)))
    case Join(left, right, join, condition) =>
        PutByte(3, PutU32(left, PutU32(right, PutByte(join, PutOptionPhysical(condition, tail)))))
    case AggregateBy(input, groups, aggregates) =>
      PutByte(4, PutU32(input, PutProjections(groups, PutU32(Capped(|aggregates|), PutAggregates(aggregates, tail)))))
    case Sort(input, keys) => PutByte(5, PutU32(input, PutU32(Capped(|keys|), PutKeys(keys, tail))))
    case Limit(input, skip, limit) =>
      PutByte(6, PutU32(input, PutU64(skip,
          PutFlag(limit.Some?, if limit.Some? then PutU64(limit.value, tail) else tail))))
    case Unwind(input, expression, alias) => PutByte(7, PutU32(input, PutPhysical(expression, PutText(alias, tail))))
  }

  function SkipOptionU64(b: Bytes8): (rest: Option<Bytes8>)
  {
    var some :- TakeFlag(b);
    if some.value then SkipU64(some.rest) else Some(some.rest)
  }

  function SkipKind(b: Bytes8): (rest: Option<Bytes8>)
  {
    var tag :- TakeByte(b);
    var input :- SkipU32(tag.rest);
    match tag.value
    case 0 =>
      var count :- TakeU32(input);
      var fragments :- SkipNumbers(count.rest, count.value);
      SkipText(fragments)
    case 1 => SkipPhysical(input, 0)
    case 2 => SkipProjections(input)
    case 3 =>
      var right :- SkipU32(input);
      var join :- SkipCode(right, 3);
      SkipOptionPhysical(join)
    case 4 =>
      var groups :- SkipProjections(input);
      var count :- TakeU32(groups);
      SkipAggregates(count.rest, count.value)
    case 5 =>
      var count :- TakeU32(input);
      SkipKeys(count.rest, count.value)
    case 6 =>
      var skip :- SkipU64(input);
      SkipOptionU64(skip)
    case 7 =>
      var e :- SkipPhysical(input, 0);
      SkipText(e)
    case _ => None
  }

  /** Text and lengths that the wire can carry. */
  ghost predicate KindSound(kind: OperatorKind)
  {
    match kind
    case Source(_, fragments, output) => |fragments| <= U32_MAX && TextSound(output)
    case Filter(_, predicate1) => PhysicalSound(predicate1)
    case Project(_, projections) => ProjectionsSound(projections)
    case Join(_, _, _, condition) => condition.Some? ==> PhysicalSound(condition.value)
    case AggregateBy(_, groups, aggregates) =>
      ProjectionsSound(groups) && |aggregates| <= U32_MAX && forall i | 0 <= i < |aggregates| ::
          AggregateSound(aggregates[i])
    case Sort(_, keys) => |keys| <= U32_MAX && forall i | 0 <= i < |keys| :: ExprSound(keys[i].expression)
    case Limit(_, _, _) => true
    case Unwind(_, expression, alias) => PhysicalSound(expression) && TextSound(alias)
  }

  /** Every expression keeps to the nesting bound. */
  ghost predicate KindWithin(kind: OperatorKind)
  {
    match kind
    case Source(_, _, _) => true
    case Filter(_, predicate1) => PhysicalWithin(predicate1, 0)
    case Project(_, projections) => NamedWithin(projections, 1)
    case Join(_, _, _, condition) => OptionPhysicalWithin(condition)
    case AggregateBy(_, groups, aggregates) => NamedWithin(groups, 1) && AggregatesWithin(aggregates)
    case Sort(_, keys) => KeysWithin(keys)
    case Limit(_, _, _) => true
    case Unwind(_, expression, _) => PhysicalWithin(expression, 0)
  }

  lemma KindBack(kind: OperatorKind, tail: Bytes8)
    requires KindSound(kind)
    ensures SkipKind(PutKind(kind, tail)) == if KindWithin(kind) then Some(tail) else None
  {
    hide PutByte, TakeByte, SkipCode, PutU32, TakeU32, PutU64, TakeU64, PutText, SkipText, PutPhysical, SkipPhysical,
      PutProjections, SkipProjections,
      PutOptionPhysical, SkipOptionPhysical, PutAggregates, SkipAggregates, PutKeys, SkipKeys, PutNumbers, SkipNumbers,
        PutFlag, TakeFlag,
      PhysicalSound, PhysicalWithin, OptionPhysicalWithin, ProjectionsSound, NamedWithin, AggregateSound,
        AggregatesWithin, KeysWithin,
      ExprSound, ValidUtf8;
    match kind
    case Source(node, fragments, output) =>
      var t3 := PutText(output, tail);
      var t2 := PutNumbers(fragments, t3);
      var t1 := PutU32(Capped(|fragments|), t2);
      ByteBack(0, PutU32(node, t1));
      U32Back(node, t1);
      U32Back(|fragments|, t2);
      NumbersBack(fragments, t3);
      TextBack(output, tail);
    case Filter(input, predicate1) =>
      ByteBack(1, PutU32(input, PutPhysical(predicate1, tail)));
      U32Back(input, PutPhysical(predicate1, tail));
      PhysicalBack(predicate1, 0, tail);
    case Project(input, projections) =>
      ByteBack(2, PutU32(input, PutProjections(projections, tail)));
      U32Back(input, PutProjections(projections, tail));
      ProjectionsBack(projections, tail);
    case Join(left, right, join, condition) =>
      var t3 := PutOptionPhysical(condition, tail);
      var t2 := PutByte(join, t3);
      ByteBack(3, PutU32(left, PutU32(right, t2)));
      U32Back(left, PutU32(right, t2));
      U32Back(right, t2);
      CodeBack(join, 3, t3);
      OptionPhysicalBack(condition, tail);
    case AggregateBy(input, groups, aggregates) =>
      var t3 := PutAggregates(aggregates, tail);
      var t2 := PutU32(Capped(|aggregates|), t3);
      var t1 := PutProjections(groups, t2);
      ByteBack(4, PutU32(input, t1));
      U32Back(input, t1);
      ProjectionsBack(groups, t2);
      U32Back(|aggregates|, t3);
      AggregatesBack(aggregates, tail);
    case Sort(input, keys) =>
      var t2 := PutKeys(keys, tail);
      var t1 := PutU32(Capped(|keys|), t2);
      ByteBack(5, PutU32(input, t1));
      U32Back(input, t1);
      U32Back(|keys|, t2);
      KeysBack(keys, tail);
    case Limit(input, skip, limit) =>
      var t3 := if limit.Some? then PutU64(limit.value, tail) else tail;
      var t2 := PutFlag(limit.Some?, t3);
      ByteBack(6, PutU32(input, PutU64(skip, t2)));
      U32Back(input, PutU64(skip, t2));
      U64Back(skip, t2);
      FlagBack(limit.Some?, t3);
      if limit.Some? {
        U64Back(limit.value, tail);
      }
    case Unwind(input, expression, alias) =>
      var t2 := PutText(alias, tail);
      ByteBack(7, PutU32(input, PutPhysical(expression, t2)));
      U32Back(input, PutPhysical(expression, t2));
      PhysicalBack(expression, 0, t2);
      TextBack(alias, tail);
  }

  function PutOperators(operators: seq<Operator>, tail: Bytes8): (b: Bytes8)
  {
    if operators == [] then tail
    else PutU32(operators[0].id, PutKind(operators[0].kind, PutOperators(operators[1..], tail)))
  }

  function SkipOperators(b: Bytes8, count: nat): (rest: Option<Bytes8>)
    decreases count
  {
    if count == 0 then Some(b)
    else
      var id :- SkipU32(b);
      var kind :- SkipKind(id);
      SkipOperators(kind, count - 1)
  }

  ghost predicate OperatorsWithin(operators: seq<Operator>)
  {
    forall i | 0 <= i < |operators| :: KindWithin(operators[i].kind)
  }

  lemma {:induction false} OperatorsBack(operators: seq<Operator>, tail: Bytes8)
    requires forall i | 0 <= i < |operators| :: KindSound(operators[i].kind)
    ensures SkipOperators(PutOperators(operators, tail), |operators|)
         == if OperatorsWithin(operators) then Some(tail) else None
    decreases |operators|
  {
    hide PutKind, SkipKind, KindSound, KindWithin, PutU32, TakeU32;
    if operators != [] {
      var rest := PutOperators(operators[1..], tail);
      U32Back(operators[0].id, PutKind(operators[0].kind, rest));
      KindBack(operators[0].kind, rest);
      OperatorsBack(operators[1..], tail);
      assert OperatorsWithin(operators) <==> KindWithin(operators[0].kind) && OperatorsWithin(operators[1..]);
    }
  }

  // ----- read scopes

  function PutTime(t: TimeExpr, tail: Bytes8): (b: Bytes8)
  {
    match t
    case AtTime(time) => PutByte(0, PutI64(time, tail))
    case TimeParameter(name) => PutByte(1, PutText(name, tail))
  }

  function PutTransaction(t: TemporalScope, tail: Bytes8): (b: Bytes8)
  {
    match t
    case Current => PutByte(0, tail)
    case AsOf(time) => PutByte(1, PutTime(time, tail))
    case ChangesBetween(from, to) => PutByte(2, PutTime(from, PutTime(to, tail)))
  }

  function PutInterval(i: Interval, tail: Bytes8): (b: Bytes8)
  {
    match i
    case Between(start, end) => PutByte(0, PutI64(start, PutI64(end, tail)))
    case IntervalParameter(name) => PutByte(1, PutText(name, tail))
    case Bounds(lower, upper) => PutByte(2, PutTime(lower, PutTime(upper, tail)))
  }

  function PutValid(v: Option<ValidTime>, tail: Bytes8): (b: Bytes8)
  {
    match v
    case None => PutByte(0, tail)
    case Some(At(time)) => PutByte(1, PutTime(time, tail))
    case Some(Overlaps(interval)) => PutByte(2, PutInterval(interval, tail))
    case Some(ChangesIn(from, to)) => PutByte(3, PutTime(from, PutTime(to, tail)))
  }

  function PutScope(scope: ReadScope, tail: Bytes8): (b: Bytes8)
  {
    PutTransaction(scope.transaction, PutValid(scope.valid, tail))
  }

  type TransactionTime = t: I64 | t >= 0

  /** The times a worker executes at. */
  datatype ExecutionFence = ExecutionFence(transactionTime: TransactionTime, validAt: I64)

  /** A literal time equal to the fence's; anything else is refused. */
  function SkipTime(b: Bytes8, expected: I64): (rest: Option<Bytes8>)
  {
    var tag :- TakeByte(b);
    if tag.value != 0 then None
    else
      var time :- TakeI64(tag.rest);
      if time.value == expected then Some(time.rest) else None
  }

  function SkipScope(b: Bytes8, fence: ExecutionFence): (rest: Option<Bytes8>)
  {
    var tag :- TakeByte(b);
    var transaction :- if tag.value == 0 then Some(tag.rest)
        else if tag.value == 1 then SkipTime(tag.rest, fence.transactionTime) else None;
    var tag2 :- TakeByte(transaction);
    if tag2.value == 0 then Some(tag2.rest) else if tag2.value == 1 then SkipTime(tag2.rest, fence.validAt) else None
  }

  predicate ScopeMatches(scope: ReadScope, fence: ExecutionFence)
  {
    && (scope.transaction.Current? || scope.transaction == AsOf(AtTime(fence.transactionTime)))
    && (scope.valid.None? || scope.valid == Some(At(AtTime(fence.validAt))))
  }

  lemma TimeBack(t: TimeExpr, expected: I64, tail: Bytes8)
    ensures SkipTime(PutTime(t, tail), expected) == if t == AtTime(expected) then Some(tail) else None
  {
    hide PutByte, TakeByte, PutI64, TakeI64, PutText;
    match t
    case AtTime(time) =>
      ByteBack(0, PutI64(time, tail));
      I64Back(time, tail);
    case TimeParameter(name) =>
      ByteBack(1, PutText(name, tail));
  }

  lemma ValidBack(v: Option<ValidTime>, expected: I64, tail: Bytes8)
    ensures var tag := TakeByte(PutValid(v, tail));
      tag.Some? && (if tag.value.value == 0 then Some(tag.value.rest)
          else if tag.value.value == 1 then SkipTime(tag.value.rest, expected) else None)
        == if v.None? || v == Some(At(AtTime(expected))) then Some(tail) else None
  {
    hide PutByte, TakeByte, PutTime, SkipTime, PutInterval;
    match v
    case None => ByteBack(0, tail);
    case Some(At(time)) =>
      ByteBack(1, PutTime(time, tail));
      TimeBack(time, expected, tail);
    case Some(Overlaps(interval)) => ByteBack(2, PutInterval(interval, tail));
    case Some(ChangesIn(from, to)) => ByteBack(3, PutTime(from, PutTime(to, tail)));
  }

  /** A scope is accepted exactly if its literal times are the fence's. */
  lemma ScopeBack(scope: ReadScope, fence: ExecutionFence, tail: Bytes8)
    ensures SkipScope(PutScope(scope, tail), fence) == if ScopeMatches(scope, fence) then Some(tail) else None
  {
    hide PutByte, TakeByte, PutTime, SkipTime, PutValid;
    var rest := PutValid(scope.valid, tail);
    ValidBack(scope.valid, fence.validAt, tail);
    match scope.transaction
    case Current => ByteBack(0, rest);
    case AsOf(time) =>
      ByteBack(1, PutTime(time, rest));
      TimeBack(time, fence.transactionTime, rest);
    case ChangesBetween(from, to) => ByteBack(2, PutTime(from, PutTime(to, rest)));
  }

  // ----- logical reads

  function PutDirections(ds: seq<Direction>, tail: Bytes8): (b: Bytes8)
  {
    if ds == [] then tail else PutByte(ds[0], PutDirections(ds[1..], tail))
  }

  function TakeDirection(b: Bytes8): (p: Option<Parsed<Direction>>)
  {
    var d :- TakeByte(b);
    if d.value <= 2 then Some(Parsed(d.value, d.rest)) else None
  }

  function TakeDirections(b: Bytes8, count: nat): (p: Option<Parsed<seq<Direction>>>)
    decreases count
  {
    if count == 0 then Some(Parsed([], b))
    else
      var first :- TakeDirection(b);
      var more :- TakeDirections(first.rest, count - 1);
      Some(Parsed([first.value] + more.value, more.rest))
  }

  lemma {:induction false} DirectionsBack(ds: seq<Direction>, tail: Bytes8)
    ensures TakeDirections(PutDirections(ds, tail), |ds|) == Some(Parsed(ds, tail))
    decreases |ds|
  {
    hide PutByte, TakeByte;
    if ds != [] {
      ByteBack(ds[0], PutDirections(ds[1..], tail));
      DirectionsBack(ds[1..], tail);
      assert [ds[0]] + ds[1..] == ds;
    }
  }

  /** A vertex scan that only counts is sent under the number of an edge lookup. */
  function PutRead(read: LogicalRead, counting: bool, tail: Bytes8): (b: Bytes8)
  {
    match read
    case VertexPoint(id) => PutByte(0, PutU128(id, tail))
    case VertexScan => PutByte(if counting then 2 else 1, tail)
    case EdgePoint(id) => PutByte(2, PutU128(id, tail))
    case EdgeScan => PutByte(3, tail)
    case Adjacency(id, direction) => PutByte(4, PutU128(id, PutByte(direction, tail)))
    case Traversal(id, directions) =>
        PutByte(5, PutU128(id, PutU32(Capped(|directions|), PutDirections(directions, tail))))
  }

  function TakeId(b: Bytes8): (p: Option<Parsed<U128>>)
  {
    var id :- TakeU128(b);
    if id.value == 0 then None else Some(id)
  }

  /** A scope, then a row bound that is not zero. */
  function TakeBound(b: Bytes8, fence: ExecutionFence): (p: Option<Parsed<U32>>)
  {
    var scope :- SkipScope(b, fence);
    var bound :- TakeU32(scope);
    if bound.value == 0 then None else Some(bound)
  }

  lemma BoundBack(scope: ReadScope, bound: U32, fence: ExecutionFence, tail: Bytes8)
    ensures TakeBound(PutScope(scope, PutU32(bound, tail)), fence)
         == if ScopeMatches(scope, fence) && bound != 0 then Some(Parsed(bound, tail)) else None
  {
    hide PutScope, SkipScope, PutU32, TakeU32, ScopeMatches;
    ScopeBack(scope, fence, PutU32(bound, tail));
    U32Back(bound, tail);
  }

  function TakeLogical(b: Bytes8, fence: ExecutionFence): (p: Option<Parsed<FragmentRead>>)
  {
    var tag :- TakeByte(b);
    match tag.value
    case 0 =>
      var id :- TakeId(tag.rest);
      var bound :- TakeBound(id.rest, fence);
      if bound.value != 1 then None else Some(Parsed(Point(id.value), bound.rest))
    case 1 =>
      var bound :- TakeBound(tag.rest, fence);
      Some(Parsed(Scan(None, bound.value), bound.rest))
    case 2 =>
      var bound :- TakeBound(tag.rest, fence);
      Some(Parsed(Count(None, bound.value), bound.rest))
    case 4 =>
      var id :- TakeId(tag.rest);
      var direction :- TakeDirection(id.rest);
      var bound :- TakeBound(direction.rest, fence);
      Some(Parsed(Neighbours(id.value, direction.value, bound.value), bound.rest))
    case 5 =>
      var id :- TakeId(tag.rest);
      var count :- TakeU32(id.rest);
      if count.value < 2 || count.value > 32 then None
      else
        var directions :- TakeDirections(count.rest, count.value);
        var bound :- TakeBound(directions.rest, fence);
        Some(Parsed(Hops(id.value, directions.value, bound.value), bound.rest))
    case _ => None
  }

  /** A worker can execute this read at this fence. */
  predicate LogicalExecutable(read: LogicalRead, scope: ReadScope, bound: U32, fence: ExecutionFence)
  {
    && ScopeMatches(scope, fence) && bound != 0
    && match read
       case VertexPoint(id) => id != 0 && bound == 1
       case VertexScan => true
       case EdgePoint(_) => false
       case EdgeScan => false
       case Adjacency(id, _) => id != 0
       case Traversal(id, directions) => id != 0 && 2 <= |directions| <= 32
  }

  function LogicalReadOf(read: LogicalRead, bound: U32, counting: bool): FragmentRead
    requires !read.EdgePoint? && !read.EdgeScan?
  {
    match read
    case VertexPoint(id) => Point(id)
    case VertexScan => if counting then Count(None, bound) else Scan(None, bound)
    case Adjacency(id, direction) => Neighbours(id, direction, bound)
    case Traversal(id, directions) => Hops(id, directions, bound)
  }

  lemma IdBack(id: U128, tail: Bytes8)
    ensures TakeId(PutU128(id, tail)) == if id == 0 then None else Some(Parsed(id, tail))
  {
    hide PutU128, TakeU128;
    U128Back(id, tail);
  }

  lemma DirectionBack(d: Direction, tail: Bytes8)
    ensures TakeDirection(PutByte(d, tail)) == Some(Parsed(d, tail))
  {
    ByteBack(d, tail);
  }

  // An edge lookup shares its number with the counting scan, so its identifier is read as a scope and a row bound.

  /** The first `k` bytes of a number that needs no more than the others are zero. */
  lemma {:induction false} LeadingZeros(n: nat, width: nat, k: nat)
    requires k <= width && n < Radix(width - k)
    ensures forall i | 0 <= i < k :: BigEndian(n, width)[i] == 0
    decreases width
  {
    if k > 0 {
      if width == k {
        LeadingZeros(0, width - 1, k - 1);
      } else {
        LeadingZeros(n / 256, width - 1, k);
      }
    }
  }

  lemma ZeroNumber(b: Bytes8)
    requires |b| >= 4 && forall i | 0 <= i < 4 :: b[i] == 0
    ensures TakeU32(b) == Some(Parsed(0, b[4..]))
  {
    hide BigEndian;
    ZeroBytes();
    assert b == [0, 0, 0, 0] + b[4..];
    U32Back(0, b[4..]);
  }

  lemma ZeroBytes()
    ensures BigEndian(0, 4) == [0, 0, 0, 0]
  {
    assert BigEndian(0, 0) == [] && BigEndian(0, 1) == [0] && BigEndian(0, 2) == [0, 0] && BigEndian(0, 3) == [0, 0, 0];
  }

  /** Six zero bytes are an empty scope and a row bound of zero, which no worker takes. */
  lemma ZeroBound(b: Bytes8, fence: ExecutionFence)
    requires |b| >= 6 && forall i | 0 <= i < 6 :: b[i] == 0
    ensures TakeBound(b, fence) == None
  {
    hide TakeU32, SkipTime;
    assert SkipScope(b, fence) == Some(b[2..]) by { assert b[1..][1..] == b[2..]; }
    ZeroNumber(b[2..]);
  }

  /** An edge lookup by an identifier of at most ten bytes is refused, whatever follows it. */
  lemma ShortEdgeIsRefused(id: U128, counting: bool, fence: ExecutionFence, tail: Bytes8)
    requires id < Radix(10)
    ensures TakeLogical(PutRead(EdgePoint(id), counting, tail), fence) == None
  {
    hide PutByte, TakeByte, TakeId, TakeBound, BigEndian, Radix;
    var b := PutU128(id, tail);
    ByteBack(2, b);
    LeadingZeros(id, 16, 6);
    assert forall i | 0 <= i < 6 :: b[i] == BigEndian(id, 16)[i];
    ZeroBound(b, fence);
  }

  /**
   * A logical read is decoded to itself if it is executable, and refused otherwise; edge lookups are among those
   * refused, as long as their identifiers fit ten bytes.
   */
  lemma LogicalBack(read: LogicalRead, scope: ReadScope, bound: U32, counting: bool, fence: ExecutionFence,
                    tail: Bytes8)
    requires read.EdgePoint? ==> read.edge < Radix(10)
    ensures TakeLogical(PutRead(read, counting, PutScope(scope, PutU32(bound, tail))), fence)
         == if LogicalExecutable(read, scope, bound, fence) then
             Some(Parsed(LogicalReadOf(read, bound, counting), tail)) else None
  {
    hide PutByte, TakeByte, PutU128, TakeU128, TakeId, PutScope, PutU32, TakeU32, TakeBound, TakeDirection,
      PutDirections,
      TakeDirections, ScopeMatches, Radix;
    var rest := PutScope(scope, PutU32(bound, tail));
    BoundBack(scope, bound, fence, tail);
    match read
    case VertexPoint(id) =>
      ByteBack(0, PutU128(id, rest));
      IdBack(id, rest);
    case VertexScan => ByteBack(if counting then 2 else 1, rest);
    case EdgePoint(id) => ShortEdgeIsRefused(id, counting, fence, rest);
    case EdgeScan => ByteBack(3, rest);
    case Adjacency(id, direction) =>
      ByteBack(4, PutU128(id, PutByte(direction, rest)));
      IdBack(id, PutByte(direction, rest));
      DirectionBack(direction, rest);
    case Traversal(id, directions) =>
      var t2 := PutDirections(directions, rest);
      ByteBack(5, PutU128(id, PutU32(Capped(|directions|), t2)));
      IdBack(id, PutU32(Capped(|directions|), t2));
      U32Back(Capped(|directions|), t2);
      DirectionsBack(directions, rest);
  }

  /** An edge lookup shares its number with the counting scan: whatever a worker makes of it is a count. */
  lemma EdgePointLooksLikeCount(id: U128, scope: ReadScope, bound: U32, counting: bool, fence: ExecutionFence,
                                tail: Bytes8)
    ensures var p := TakeLogical(PutRead(EdgePoint(id), counting, PutScope(scope, PutU32(bound, tail))), fence);
      p.Some? ==> p.value.value.Count?
  {
    hide PutByte, TakeByte, PutU128, TakeId, PutScope, TakeBound;
    ByteBack(2, PutU128(id, PutScope(scope, PutU32(bound, tail))));
  }

  // ----- pushdowns

  function PutCapabilities(names: seq<Bytes8>, tail: Bytes8): (b: Bytes8)
  {
    if names == [] then tail else PutText(names[0], PutCapabilities(names[1..], tail))
  }

  function SkipCapabilities(b: Bytes8, count: nat): (rest: Option<Bytes8>)
    decreases count
  {
    if count == 0 then Some(b)
    else
      var name :- SkipText(b);
      SkipCapabilities(name, count - 1)
  }

  lemma {:induction false} CapabilitiesBack(names: seq<Bytes8>, tail: Bytes8)
    requires forall i | 0 <= i < |names| :: TextSound(names[i])
    ensures SkipCapabilities(PutCapabilities(names, tail), |names|) == Some(tail)
    decreases |names|
  {
    hide PutText, SkipText, ValidUtf8;
    if names != [] {
      TextBack(names[0], PutCapabilities(names[1..], tail));
      CapabilitiesBack(names[1..], tail);
    }
  }

  function PutCursor(after: Option<U128>, tail: Bytes8): (b: Bytes8)
  {
    PutFlag(after.Some?, if after.Some? then PutU128(after.value, tail) else tail)
  }

  function TakeCursor(b: Bytes8): (p: Option<Parsed<Option<U128>>>)
  {
    var some :- TakeFlag(b);
    if some.value then
      var id :- TakeId(some.rest);
      Some(Parsed(Some(id.value), id.rest))
    else Some(Parsed(None, some.rest))
  }

  lemma CursorBack(after: Option<U128>, tail: Bytes8)
    ensures TakeCursor(PutCursor(after, tail)) == if after == Some(0) then None else Some(Parsed(after, tail))
  {
    hide PutFlag, TakeFlag, PutU128, TakeId;
    FlagBack(after.Some?, if after.Some? then PutU128(after.value, tail) else tail);
    if after.Some? {
      IdBack(after.value, tail);
    }
  }

  function PutPushdown(p: Pushdown, counting: bool, tail: Bytes8): (b: Bytes8)
  {
    match p
    case PushVertex(id, validAt, transactionAt) => PutByte(0, PutU128(id, PutI64(validAt, PutI64(transactionAt, tail))))
    case PushScan(validAt, transactionAt, after, limit) =>
      PutByte(if counting then 2 else 1, PutI64(validAt, PutI64(transactionAt, PutCursor(after, PutU32(limit, tail)))))
  }

  datatype Page = Page(after: Option<U128>, limit: U32)

  function TakePage(b: Bytes8): (p: Option<Parsed<Page>>)
  {
    var validAt :- SkipU64(b);
    var transactionAt :- SkipU64(validAt);
    var after :- TakeCursor(transactionAt);
    var limit :- TakeU32(after.rest);
    if limit.value == 0 then None else Some(Parsed(Page(after.value, limit.value), limit.rest))
  }

  function TakePushdown(b: Bytes8): (p: Option<Parsed<FragmentRead>>)
  {
    var tag :- TakeByte(b);
    match tag.value
    case 0 =>
      var id :- TakeId(tag.rest);
      var validAt :- SkipU64(id.rest);
      var transactionAt :- SkipU64(validAt);
      Some(Parsed(Point(id.value), transactionAt))
    case 1 =>
      var page :- TakePage(tag.rest);
      Some(Parsed(Scan(page.value.after, page.value.limit), page.rest))
    case 2 =>
      var page :- TakePage(tag.rest);
      Some(Parsed(Count(page.value.after, page.value.limit), page.rest))
    case _ => None
  }

  predicate PushdownExecutable(p: Pushdown)
  {
    match p
    case PushVertex(id, _, _) => id != 0
    case PushScan(_, _, after, limit) => after != Some(0) && limit != 0
  }

  function PushdownReadOf(p: Pushdown, counting: bool): FragmentRead
  {
    match p
    case PushVertex(id, _, _) => Point(id)
    case PushScan(_, _, after, limit) => if counting then Count(after, limit) else Scan(after, limit)
  }

  lemma PageBack(validAt: I64, transactionAt: I64, after: Option<U128>, limit: U32, tail: Bytes8)
    ensures TakePage(PutI64(validAt, PutI64(transactionAt, PutCursor(after, PutU32(limit, tail)))))
         == if after != Some(0) && limit != 0 then Some(Parsed(Page(after, limit), tail)) else None
  {
    hide PutI64, TakeU64, PutCursor, TakeCursor, PutU32, TakeU32;
    var t2 := PutCursor(after, PutU32(limit, tail));
    I64Skipped(validAt, PutI64(transactionAt, t2));
    I64Skipped(transactionAt, t2);
    CursorBack(after, PutU32(limit, tail));
    U32Back(limit, tail);
  }

  lemma PushdownBack(p: Pushdown, counting: bool, tail: Bytes8)
    ensures TakePushdown(PutPushdown(p, counting, tail))
         == if PushdownExecutable(p) then Some(Parsed(PushdownReadOf(p, counting), tail)) else None
  {
    hide PutByte, TakeByte, PutU128, TakeId, PutI64, TakeU64, PutCursor, TakePage, PutU32;
    match p
    case PushVertex(id, validAt, transactionAt) =>
      var t1 := PutI64(validAt, PutI64(transactionAt, tail));
      ByteBack(0, PutU128(id, t1));
      IdBack(id, t1);
      I64Skipped(validAt, PutI64(transactionAt, tail));
      I64Skipped(transactionAt, tail);
    case PushScan(validAt, transactionAt, after, limit) =>
      ByteBack(if counting then 2
          else 1, PutI64(validAt, PutI64(transactionAt, PutCursor(after, PutU32(limit, tail)))));
      PageBack(validAt, transactionAt, after, limit, tail);
  }

  // ----- accesses

  function PutAccess(a: Access, counting: bool, tail: Bytes8): (b: Bytes8)
  {
    match a
    case Logical(node, read, scope, bound) =>
        PutU32(node, PutByte(0, PutRead(read, counting, PutScope(scope, PutU32(bound, tail)))))
    case Pushed(node, contract, capabilities, operation, guarantee, residual) =>
      PutU32(node, PutByte(1, PutU32(contract, PutU32(Capped(|capabilities|), PutCapabilities(capabilities,
        PutPushdown(operation, counting, PutByte(guarantee.Flags(), PutOptionPhysical(residual, tail))))))))
  }

  function TakePushed(b: Bytes8): (p: Option<Parsed<FragmentRead>>)
  {
    var contract :- TakeU32(b);
    if contract.value == 0 then None
    else
      var count :- TakeU32(contract.rest);
      var capabilities :- SkipCapabilities(count.rest, count.value);
      var read :- TakePushdown(capabilities);
      var flags :- SkipCode(read.rest, 31);
      var residual :- SkipOptionPhysical(flags);
      Some(Parsed(read.value, residual))
  }

  function TakeAccess(b: Bytes8, fence: ExecutionFence): (p: Option<Parsed<FragmentRead>>)
  {
    var node :- SkipU32(b);
    var tag :- TakeByte(node);
    if tag.value == 0 then TakeLogical(tag.rest, fence)
    else if tag.value == 1 then TakePushed(tag.rest)
    else None
  }

  /** Text and lengths that the wire can carry. */
  ghost predicate AccessSound(a: Access)
  {
    a.Pushed? ==>
      && |a.capabilities| <= U32_MAX && (forall i | 0 <= i < |a.capabilities| :: TextSound(a.capabilities[i]))
      && (a.residual.Some? ==> PhysicalSound(a.residual.value))
  }

  ghost predicate AccessWithin(a: Access)
  {
    a.Pushed? ==> OptionPhysicalWithin(a.residual)
  }

  predicate Executable(a: Access, fence: ExecutionFence)
  {
    match a
    case Logical(_, read, scope, bound) => LogicalExecutable(read, scope, bound, fence)
    case Pushed(_, contract, _, operation, _, _) => contract != 0 && PushdownExecutable(operation)
  }

  function ReadOf(a: Access, counting: bool): FragmentRead
    requires a.Logical? ==> !a.read.EdgePoint? && !a.read.EdgeScan?
  {
    match a
    case Logical(_, read, _, bound) => LogicalReadOf(read, bound, counting)
    case Pushed(_, _, _, operation, _, _) => PushdownReadOf(operation, counting)
  }

  lemma PushedBack(a: Access, counting: bool, tail: Bytes8)
    requires a.Pushed? && AccessSound(a)
    ensures TakePushed(PutU32(a.contract, PutU32(Capped(|a.capabilities|), PutCapabilities(a.capabilities,
              PutPushdown(a.operation, counting, PutByte(a.guarantee.Flags(), PutOptionPhysical(a.residual, tail)))))))
         == if a.contract != 0 && PushdownExecutable(a.operation) && AccessWithin(a) then
             Some(Parsed(PushdownReadOf(a.operation, counting), tail)) else None
  {
    hide PutU32, TakeU32, PutCapabilities, SkipCapabilities, PutPushdown, TakePushdown, PutByte, SkipCode,
      PutOptionPhysical, SkipOptionPhysical,
      TextSound, PhysicalSound, OptionPhysicalWithin, PushdownExecutable, PushdownReadOf;
    var t5 := PutOptionPhysical(a.residual, tail);
    var t4 := PutByte(a.guarantee.Flags(), t5);
    var t3 := PutPushdown(a.operation, counting, t4);
    var t2 := PutCapabilities(a.capabilities, t3);
    U32Back(a.contract, PutU32(Capped(|a.capabilities|), t2));
    U32Back(|a.capabilities|, t2);
    CapabilitiesBack(a.capabilities, t3);
    PushdownBack(a.operation, counting, t4);
    CodeBack(a.guarantee.Flags(), 31, t5);
    OptionPhysicalBack(a.residual, tail);
  }

  predicate EdgeLookup(a: Access)
  {
    a.Logical? && a.read.EdgePoint?
  }

  lemma AccessBack(a: Access, counting: bool, fence: ExecutionFence, tail: Bytes8)
    requires AccessSound(a) && (EdgeLookup(a) ==> a.read.edge < Radix(10))
    ensures TakeAccess(PutAccess(a, counting, tail), fence)
         == if Executable(a, fence) && AccessWithin(a) then Some(Parsed(ReadOf(a, counting), tail)) else None
  {
    hide PutU32, TakeU32, PutByte, TakeByte, PutRead, TakeLogical, PutScope, TakePushed, PutCapabilities, PutPushdown,
      PutOptionPhysical,
      ScopeMatches, LogicalReadOf, PushdownExecutable, PushdownReadOf;
    match a
    case Logical(node, read, scope, bound) =>
      var t1 := PutRead(read, counting, PutScope(scope, PutU32(bound, tail)));
      U32Back(node, PutByte(0, t1));
      ByteBack(0, t1);
      LogicalBack(read, scope, bound, counting, fence, tail);
    case Pushed(node, contract, capabilities, operation, guarantee, residual) =>
      var t1 := PutU32(contract, PutU32(Capped(|capabilities|), PutCapabilities(capabilities,
        PutPushdown(operation, counting, PutByte(guarantee.Flags(), PutOptionPhysical(residual, tail))))));
      U32Back(node, PutByte(1, t1));
      ByteBack(1, t1);
      PushedBack(a, counting, tail);
  }

  // ----- fragments

  function PutAccesses(accesses: seq<Access>, counting: bool, tail: Bytes8): (b: Bytes8)
  {
    if accesses == [] then tail else PutAccess(accesses[0], counting, PutAccesses(accesses[1..], counting, tail))
  }

  function EncodeFragment(plan: Plan, fragment: Fragment): (b: Bytes8)
  {
    PutU64(plan.version, PutU32(plan.root, PutSchema(plan.schema, PutU32(Capped(|fragment.accesses|),
      PutAccesses(fragment.accesses, CountsVertices(plan),
          PutU32(Capped(|plan.operators|), PutOperators(plan.operators, [])))))))
  }

  function DecodeFragment(b: Bytes8, fence: ExecutionFence): (r: Option<FragmentRead>)
  {
    var version :- TakeU64(b);
    if version.value == 0 then None
    else
      var root :- TakeU32(version.rest);
      if root.value == 0 then None
      else
        var schema :- SkipSchema(root.rest);
        var accesses :- TakeU32(schema);
        if accesses.value != 1 then None
        else
          var read :- TakeAccess(accesses.rest, fence);
          var count :- TakeU32(read.rest);
          var rest :- SkipOperators(count.rest, count.value);
          if rest == [] then Some(read.value) else None
  }

  /** Text and lengths that the wire can carry. */
  ghost predicate PlanSound(plan: Plan)
  {
    SchemaSound(plan.schema) && |plan.operators| <= U32_MAX && forall i | 0 <= i < |plan.operators| ::
        KindSound(plan.operators[i].kind)
  }

  /** Types, expressions and values keep to their nesting bounds. */
  ghost predicate PlanWithin(plan: Plan)
  {
    SchemaWithin(plan.schema) && OperatorsWithin(plan.operators)
  }

  /**
   * A worker decodes what the gateway encoded: the read of the one access exactly if it is executable at the fence and
   * plan and access keep to the nesting bounds, a refusal otherwise; every byte of schema, operators, expressions and
   * values is consumed on the way.
   */
  lemma FragmentRoundTrip(plan: Plan, a: Access, fence: ExecutionFence)
    requires PlanSound(plan) && AccessSound(a) && (EdgeLookup(a) ==> a.read.edge < Radix(10))
    ensures DecodeFragment(EncodeFragment(plan, Fragment([a])), fence)
         == if plan.version != 0 && plan.root != 0 && Executable(a, fence) && PlanWithin(plan) && AccessWithin(a)
            then Some(ReadOf(a, CountsVertices(plan))) else None
  {
    hide PutU64, TakeU64, PutU32, TakeU32, PutSchema, SkipSchema, PutAccess, TakeAccess, PutOperators, SkipOperators,
      CountsVertices, ScopeMatches, PushdownExecutable, ReadOf,
      SchemaSound, SchemaWithin, KindSound, OperatorsWithin, AccessSound, AccessWithin;
    var counting := CountsVertices(plan);
    var t4 := PutOperators(plan.operators, []);
    var t3 := PutU32(Capped(|plan.operators|), t4);
    var t2 := PutAccess(a, counting, t3);
    assert [a][1..] == [];
    assert PutAccesses([a], counting, t3) == t2;
    var t1 := PutU32(1, t2);
    U64Back(plan.version, PutU32(plan.root, PutSchema(plan.schema, t1)));
    U32Back(plan.root, PutSchema(plan.schema, t1));
    SchemaBack(plan.schema, t1);
    U32Back(1, t2);
    AccessBack(a, counting, fence, t3);
    U32Back(|plan.operators|, t4);
    OperatorsBack(plan.operators, []);
  }

  /** A worker takes exactly one access per fragment. */
  lemma OneAccessOnly(plan: Plan, fragment: Fragment, fence: ExecutionFence)
    requires PlanSound(plan) && |fragment.accesses| != 1
    ensures DecodeFragment(EncodeFragment(plan, fragment), fence) == None
  {
    hide PutU64, TakeU64, PutU32, TakeU32, PutSchema, SkipSchema, PutAccesses, TakeAccess, PutOperators, SkipOperators,
      CountsVertices,
      SchemaSound, SchemaWithin, KindSound;
    var t2 := PutAccesses(fragment.accesses, CountsVertices(plan),
        PutU32(Capped(|plan.operators|), PutOperators(plan.operators, [])));
    var t1 := PutU32(Capped(|fragment.accesses|), t2);
    U64Back(plan.version, PutU32(plan.root, PutSchema(plan.schema, t1)));
    U32Back(plan.root, PutSchema(plan.schema, t1));
    SchemaBack(plan.schema, t1);
    U32Back(Capped(|fragment.accesses|), t2);
  }

  // ----- edge lookups

  /**
   * The planner takes an edge identifier from an integer literal and asks for one row: every worker refuses what it
   * sends.
   */
  lemma PlannedEdgeIsRefused(plan: Plan, node: U32, id: I64, scope: ReadScope, fence: ExecutionFence)
    requires PlanSound(plan) && id >= 0
    ensures DecodeFragment(EncodeFragment(plan, Fragment([Logical(node, EdgePoint(id), scope, 1)])), fence) == None
  {
    hide DecodeFragment, EncodeFragment, Radix;
    Radixes();
    RadixGrows(8);
    RadixGrows(9);
    FragmentRoundTrip(plan, Logical(node, EdgePoint(id), scope, 1), fence);
  }

  lemma RadixGrows(width: nat)
    ensures Radix(width) <= Radix(width + 1)
  {
  }

  /**
   * Of an edge lookup, whatever its plan, a worker makes a refusal or a count of vertices: it never reaches one that
   * would do it.
   */
  lemma EdgeLookupIsCountOrRefused(plan: Plan, a: Access, fence: ExecutionFence)
    requires PlanSound(plan) && EdgeLookup(a)
    ensures var r := DecodeFragment(EncodeFragment(plan, Fragment([a])), fence); r.Some? ==> r.value.Count?
  {
    hide PutU64, TakeU64, PutU32, TakeU32, PutByte, TakeByte, PutRead, TakeLogical, PutScope, PutSchema, SkipSchema,
      PutOperators, SkipOperators, CountsVertices,
      SchemaSound, SchemaWithin, KindSound;
    var counting := CountsVertices(plan);
    var t3 := PutU32(Capped(|plan.operators|), PutOperators(plan.operators, []));
    var t2 := PutAccess(a, counting, t3);
    assert [a][1..] == [];
    assert PutAccesses([a], counting, t3) == t2;
    var t1 := PutU32(1, t2);
    U64Back(plan.version, PutU32(plan.root, PutSchema(plan.schema, t1)));
    U32Back(plan.root, PutSchema(plan.schema, t1));
    SchemaBack(plan.schema, t1);
    U32Back(1, t2);
    var read := PutRead(a.read, counting, PutScope(a.scope, PutU32(a.rowBound, t3)));
    U32Back(a.node, PutByte(0, read));
    ByteBack(0, read);
    EdgePointLooksLikeCount(a.read.edge, a.scope, a.rowBound, counting, fence, t3);
  }

  // The bound of ten bytes is needed: a longer identifier can pass for a scope, a row bound and the start of other
  // operators.

  const LONG_EDGE: Bytes8 := [0, 0, 0, 0, 0, 1, 0, 0, 0, 2, 0, 0, 0, 0, 6, 0]
  const NODE_BYTES: Bytes8 := [0, 6, 0, 0]
  const FIRST_ID: Bytes8 := [0, 0, 0, 0]
  const FIRST_SKIP: Bytes8 := [0, 0, 1, 0, 0, 0, 1, 0]
  const SECOND_ID: Bytes8 := [0, 1, 0, 0]
  const SECOND_SKIP: Bytes8 := [0, 0, 0, 0, 0, 3, 97, 97]
  const EDGE_NAME: Bytes8 := [97, 97, 0]

  function LongEdge(): (id: U128)
    ensures BigEndian(id, 16) == LONG_EDGE
  {
    Number(LONG_EDGE, 16);
    FromBigEndian(LONG_EDGE)
  }

  function NumberOf4(b: Bytes8): (n: U32)
    requires |b| == 4
    ensures BigEndian(n, 4) == b
  {
    Number(b, 4);
    FromBigEndian(b)
  }

  function NumberOf8(b: Bytes8): (n: U64)
    requires |b| == 8
    ensures BigEndian(n, 8) == b
  {
    Number(b, 8);
    FromBigEndian(b)
  }

  lemma Number(b: Bytes8, width: nat)
    requires |b| == width
    ensures BigEndian(FromBigEndian(b), width) == b && FromBigEndian(b) < Radix(width)
    ensures Radix(4) == U32_MAX + 1 && Radix(8) == U64_MAX + 1 && Radix(16) == U128_MAX + 1
  {
    hide BigEndian, FromBigEndian;
    Radixes();
    BytesRoundTrip(b);
    FromBigEndianBound(b);
  }

  function EdgePlan(): Plan
  {
    Plan(1, 1, [], [Operator(1, Source(NumberOf4(NODE_BYTES), [], EDGE_NAME))], [])
  }

  function EdgeAccess(): Access
  {
    Logical(0, EdgePoint(LongEdge()), ReadScope(Current, None), 1)
  }

  /** The operators that a worker makes of the end of the identifier and what follows it. */
  function MisreadOperators(): seq<Operator>
  {
    [Operator(NumberOf4(FIRST_ID), Limit(0, NumberOf8(FIRST_SKIP), None)),
        Operator(NumberOf4(SECOND_ID), Limit(0, NumberOf8(SECOND_SKIP), None))]
  }

  lemma SmallNumbers()
    ensures BigEndian(0, 4) == [0, 0, 0, 0] && BigEndian(1, 4) == [0, 0, 0, 1] && BigEndian(2, 4) == [0, 0, 0, 2]
    ensures BigEndian(3, 4) == [0, 0, 0, 3]
  {
    ZeroBytes();
    assert BigEndian(0, 0) == [] && BigEndian(0, 1) == [0] && BigEndian(0, 2) == [0, 0] && BigEndian(0, 3) == [0, 0, 0];
  }

  lemma SourceBytes(id: U32, node: U32, name: Bytes8)
    ensures PutOperators([Operator(id, Source(node, [], name))], [])
         == BigEndian(id, 4) + ([0]
             + (BigEndian(node, 4) + (BigEndian(0, 4) + (BigEndian(Capped(|name|), 4) + (name + [])))))
  {
    hide BigEndian, Capped;
    assert [Operator(id, Source(node, [], name))][1..] == [];
    assert Capped(0) == 0;
  }

  lemma LimitBytes(id: U32, skip: U64, more: seq<Operator>)
    ensures PutOperators([Operator(id, Limit(0, skip, None))] + more, [])
         == BigEndian(id, 4) + ([6] + (BigEndian(0, 4) + (BigEndian(skip, 8) + ([0] + PutOperators(more, [])))))
  {
    hide BigEndian;
    var operators := [Operator(id, Limit(0, skip, None))] + more;
    assert operators[1..] == more && operators[0] == Operator(id, Limit(0, skip, None));
  }

  lemma EdgeBytes(counting: bool)
    ensures PutRead(EdgePoint(LongEdge()), counting,
        PutScope(ReadScope(Current, None), PutU32(1, PutU32(1, PutOperators(EdgePlan().operators, [])))))
         == [2] + LONG_EDGE + [0, 0, 0, 0, 0, 1, 0, 0, 0, 1, 0, 0, 0, 1, 0] + NODE_BYTES + [0, 0, 0, 0, 0, 0, 0, 3]
             + EDGE_NAME
  {
    hide BigEndian, PutOperators;
    SmallNumbers();
    SourceBytes(1, NumberOf4(NODE_BYTES), EDGE_NAME);
    var operators := PutOperators(EdgePlan().operators, []);
    assert operators == [0, 0, 0, 1, 0] + NODE_BYTES + [0, 0, 0, 0, 0, 0, 0, 3] + EDGE_NAME;
    var tail := PutScope(ReadScope(Current, None), PutU32(1, PutU32(1, operators)));
    assert tail == [0, 0, 0, 0, 0, 1, 0, 0, 0, 1] + operators;
    assert PutRead(EdgePoint(LongEdge()), counting, tail) == [2] + (LONG_EDGE + tail);
  }

  lemma MisreadBytes()
    ensures PutRead(VertexScan, true,
        PutScope(ReadScope(Current, None), PutU32(1, PutU32(2, PutOperators(MisreadOperators(), [])))))
         == [2, 0, 0, 0, 0, 0, 1, 0, 0, 0, 2] + FIRST_ID + [6, 0, 0, 0, 0] + FIRST_SKIP + [0] + SECOND_ID
             + [6, 0, 0, 0, 0] + SECOND_SKIP + [0]
  {
    hide BigEndian, PutOperators;
    SmallNumbers();
    var second := [MisreadOperators()[1]];
    assert MisreadOperators() == [MisreadOperators()[0]] + second && second + [] == second;
    LimitBytes(NumberOf4(FIRST_ID), NumberOf8(FIRST_SKIP), second);
    LimitBytes(NumberOf4(SECOND_ID), NumberOf8(SECOND_SKIP), []);
    assert PutOperators([], []) == [] by { NoOperators(); }
  }

  lemma NoOperators()
    ensures PutOperators([], []) == []
  {
  }

  /** The same bytes as a counting scan. */
  lemma SameBytes(counting: bool)
    ensures PutRead(EdgePoint(LongEdge()), counting,
        PutScope(ReadScope(Current, None), PutU32(1, PutU32(1, PutOperators(EdgePlan().operators, [])))))
         == PutRead(VertexScan, true, PutScope(ReadScope(Current, None),
             PutU32(1, PutU32(2, PutOperators(MisreadOperators(), [])))))
  {
    hide PutRead, PutScope, PutU32, PutOperators, EdgePlan, MisreadOperators, LongEdge;
    EdgeBytes(counting);
    MisreadBytes();
    Aligned();
  }

  lemma Aligned()
    ensures [2] + LONG_EDGE + [0, 0, 0, 0, 0, 1, 0, 0, 0, 1, 0, 0, 0, 1, 0] + NODE_BYTES + [0, 0, 0, 0, 0, 0, 0, 3]
        + EDGE_NAME
         == [2, 0, 0, 0, 0, 0, 1, 0, 0, 0, 2] + FIRST_ID + [6, 0, 0, 0, 0] + FIRST_SKIP + [0] + SECOND_ID
             + [6, 0, 0, 0, 0] + SECOND_SKIP + [0]
  {
  }

  lemma LongEdgeIsLong()
    ensures LongEdge() >= Radix(10)
  {
    hide LongEdge, BigEndian, Radix;
    SixthByte(LongEdge());
    assert BigEndian(LongEdge(), 16)[5] == 1;
  }

  lemma SixthByte(id: U128)
    ensures id < Radix(10) ==> BigEndian(id, 16)[5] == 0
  {
    hide BigEndian, Radix;
    if id < Radix(10) { LeadingZeros(id, 16, 6); }
  }

  /**
   * An edge lookup by an identifier of eleven bytes that a worker takes for a count: the bound on identifiers is
   * needed.
   */
  lemma EdgePointMisread(fence: ExecutionFence)
    ensures EdgeLookup(EdgeAccess()) && EdgeAccess().read.edge >= Radix(10) && EdgeAccess().rowBound == 1
    ensures PlanSound(EdgePlan())
    ensures DecodeFragment(EncodeFragment(EdgePlan(), Fragment([EdgeAccess()])), fence) == Some(Count(None, 1))
  {
    hide PutU64, TakeU64, PutU32, TakeU32, PutByte, TakeByte, PutRead, TakeLogical, PutScope, PutOperators,
      SkipOperators, PutSchema, SkipSchema,
      FromBigEndian, ValidUtf8, LongEdge, Radix, MisreadOperators;
    LongEdgeIsLong();
    var none := ReadScope(Current, None);
    var counting := CountsVertices(EdgePlan());
    var t4 := PutOperators(MisreadOperators(), []);
    var t3 := PutU32(2, t4);
    var t2 := PutRead(VertexScan, true, PutScope(none, PutU32(1, t3)));
    SameBytes(counting);
    var t1 := PutU32(1, PutU32(0, PutByte(0, t2)));
    var sent := PutU32(1, PutOperators(EdgePlan().operators, []));
    assert [EdgeAccess()][1..] == [];
    assert PutAccess(EdgeAccess(), counting, sent) == PutU32(0, PutByte(0, t2));
    assert PutAccesses([EdgeAccess()], counting, sent) == PutU32(0, PutByte(0, t2));
    assert EncodeFragment(EdgePlan(), Fragment([EdgeAccess()])) == PutU64(1, PutU32(1, PutSchema([], t1)));
    U64Back(1, PutU32(1, PutSchema([], t1)));
    U32Back(1, PutSchema([], t1));
    SchemaBack([], t1);
    U32Back(1, PutU32(0, PutByte(0, t2)));
    U32Back(0, PutByte(0, t2));
    ByteBack(0, t2);
    LogicalBack(VertexScan, none, 1, true, fence, t3);
    U32Back(2, t4);
    MisreadSkipped();
    EdgePlanIsSound();
  }

  lemma MisreadSkipped()
    ensures SkipOperators(PutOperators(MisreadOperators(), []), 2) == Some([])
  {
    hide PutOperators, SkipOperators, NumberOf4, NumberOf8;
    LimitsSkipped(MisreadOperators());
  }

  lemma LimitsSkipped(operators: seq<Operator>)
    requires |operators| == 2 && operators[0].kind.Limit? && operators[1].kind.Limit?
    ensures SkipOperators(PutOperators(operators, []), 2) == Some([])
  {
    hide PutOperators, SkipOperators;
    OperatorsBack(operators, []);
  }

  lemma EdgePlanIsSound()
    ensures PlanSound(EdgePlan())
  {
  }
}
