/** Expressions, types and operators on the wire: the gateway writes them, the data worker skips them. */
module FragmentCodec {
  import opened Wrappers
  import opened KernelValues
  import opened ByteStrings
  import opened Batch
  import opened FragmentPlan

  const MAX_TYPE_DEPTH := 32
  const MAX_EXPR_DEPTH := 64

  // ----- lengths and text

  /** Lengths are sent as 32-bit numbers, capped. */
  function Capped(n: nat): (m: U32)
    ensures n <= U32_MAX ==> m == n
  {
    if n <= U32_MAX then n else U32_MAX
  }

  function PutText(s: Bytes8, tail: Bytes8): (b: Bytes8)
  {
    PutU32(Capped(|s|), s + tail)
  }

  ghost predicate TextSound(s: Bytes8)
  {
    |s| <= U32_MAX && ValidUtf8(s)
  }

  /** Skips bytes of a given length. */
  function SkipBytes(b: Bytes8): (rest: Option<Bytes8>)
  {
    var n :- TakeU32(b);
    var t :- Take(n.rest, n.value);
    Some(t.rest)
  }

  function SkipText(b: Bytes8): (rest: Option<Bytes8>)
  {
    var n :- TakeU32(b);
    var t :- Take(n.rest, n.value);
    if ValidUtf8(t.value) then Some(t.rest) else None
  }

  lemma TextBack(s: Bytes8, tail: Bytes8)
    requires |s| <= U32_MAX
    ensures SkipBytes(PutText(s, tail)) == Some(tail)
    ensures ValidUtf8(s) ==> SkipText(PutText(s, tail)) == Some(tail)
  {
    hide ValidUtf8, PutU32, TakeU32;
    U32Back(|s|, s + tail);
    TakeBack(s, tail);
  }

  function PutFlag(flag: bool, tail: Bytes8): (b: Bytes8)
  {
    PutByte(if flag then 1 else 0, tail)
  }

  function TakeFlag(b: Bytes8): (p: Option<Parsed<bool>>)
  {
    var n :- TakeByte(b);
    if n.value == 0 then Some(Parsed(false, n.rest))
    else if n.value == 1 then Some(Parsed(true, n.rest))
    else None
  }

  lemma FlagBack(flag: bool, tail: Bytes8)
    ensures TakeFlag(PutFlag(flag, tail)) == Some(Parsed(flag, tail))
  {
    ByteBack(if flag then 1 else 0, tail);
  }

  /** A code no larger than `most`. */
  function SkipCode(b: Bytes8, most: nat): (rest: Option<Bytes8>)
  {
    var n :- TakeByte(b);
    if n.value > most then None else Some(n.rest)
  }

  lemma CodeBack(n: U8, most: nat, tail: Bytes8)
    requires n <= most
    ensures SkipCode(PutByte(n, tail), most) == Some(tail)
  {
    ByteBack(n, tail);
  }

  function SkipU32(b: Bytes8): (rest: Option<Bytes8>)
  {
    var n :- TakeU32(b);
    Some(n.rest)
  }

  function SkipU64(b: Bytes8): (rest: Option<Bytes8>)
  {
    var n :- TakeU64(b);
    Some(n.rest)
  }

  // ----- types

  function PutType(t: LogicalType, tail: Bytes8): (b: Bytes8)
  {
    match t
    case NullT => PutByte(0, tail)
    case BooleanT => PutByte(1, tail)
    case IntegerT => PutByte(2, tail)
    case FloatT => PutByte(3, tail)
    case BytesT => PutByte(4, tail)
    case StringT => PutByte(5, tail)
    case ListT(element) => PutByte(6, PutType(element, tail))
    case MapT => PutByte(7, tail)
    case VertexT => PutByte(8, tail)
    case RelationshipT => PutByte(9, tail)
    case AnyT => PutByte(10, tail)
  }

  predicate TypeWithin(t: LogicalType, depth: nat)
  {
    depth <= MAX_TYPE_DEPTH && (t.ListT? ==> TypeWithin(t.element, depth + 1))
  }

  function SkipType(b: Bytes8, depth: nat): (rest: Option<Bytes8>)
    decreases MAX_TYPE_DEPTH + 1 - depth
  {
    if depth > MAX_TYPE_DEPTH then None
    else
      var tag :- TakeByte(b);
      if tag.value == 6 then SkipType(tag.rest, depth + 1)
      else if tag.value <= 10 then Some(tag.rest)
      else None
  }

  /** The bytes of a type are skipped exactly if it keeps to the nesting bound; a deeper one is refused. */
  lemma {:induction false} TypeBack(t: LogicalType, depth: nat, tail: Bytes8)
    ensures SkipType(PutType(t, tail), depth) == if TypeWithin(t, depth) then Some(tail) else None
    decreases t
  {
    hide PutByte, TakeByte;
    match t
    case NullT => ByteBack(0, tail);
    case BooleanT => ByteBack(1, tail);
    case IntegerT => ByteBack(2, tail);
    case FloatT => ByteBack(3, tail);
    case BytesT => ByteBack(4, tail);
    case StringT => ByteBack(5, tail);
    case ListT(element) =>
      ByteBack(6, PutType(element, tail));
      if depth <= MAX_TYPE_DEPTH { TypeBack(element, depth + 1, tail); }
    case MapT => ByteBack(7, tail);
    case VertexT => ByteBack(8, tail);
    case RelationshipT => ByteBack(9, tail);
    case AnyT => ByteBack(10, tail);
  }

  function PutFields(schema: Schema, tail: Bytes8): (b: Bytes8)
  {
    if schema == [] then tail
    else PutText(schema[0].name, PutType(schema[0].dataType, PutFlag(schema[0].nullable, PutFields(schema[1..], tail))))
  }

  function SkipFields(b: Bytes8, count: nat): (rest: Option<Bytes8>)
    decreases count
  {
    if count == 0 then Some(b)
    else
      var name :- SkipText(b);
      var t :- SkipType(name, 0);
      var nullable :- TakeFlag(t);
      SkipFields(nullable.rest, count - 1)
  }

  ghost predicate SchemaSound(schema: Schema)
  {
    |schema| <= U32_MAX && forall i | 0 <= i < |schema| :: TextSound(schema[i].name)
  }

  ghost predicate SchemaWithin(schema: Schema)
  {
    forall i | 0 <= i < |schema| :: TypeWithin(schema[i].dataType, 0)
  }

  lemma {:induction false} FieldsBack(schema: Schema, tail: Bytes8)
    requires forall i | 0 <= i < |schema| :: TextSound(schema[i].name)
    ensures SkipFields(PutFields(schema, tail), |schema|) == if SchemaWithin(schema) then Some(tail) else None
    decreases |schema|
  {
    hide PutText, SkipText, PutType, SkipType, PutFlag, TakeFlag, ValidUtf8, TypeWithin;
    if schema != [] {
      var rest := PutFields(schema[1..], tail);
      TextBack(schema[0].name, PutType(schema[0].dataType, PutFlag(schema[0].nullable, rest)));
      TypeBack(schema[0].dataType, 0, PutFlag(schema[0].nullable, rest));
      FlagBack(schema[0].nullable, rest);
      FieldsBack(schema[1..], tail);
      assert SchemaWithin(schema) <==> TypeWithin(schema[0].dataType, 0) && SchemaWithin(schema[1..]);
    }
  }

  function PutSchema(schema: Schema, tail: Bytes8): (b: Bytes8)
  {
    PutU32(Capped(|schema|), PutFields(schema, tail))
  }

  function SkipSchema(b: Bytes8): (rest: Option<Bytes8>)
  {
    var count :- TakeU32(b);
    SkipFields(count.rest, count.value)
  }

  lemma SchemaBack(schema: Schema, tail: Bytes8)
    requires SchemaSound(schema)
    ensures SkipSchema(PutSchema(schema, tail)) == if SchemaWithin(schema) then Some(tail) else None
  {
    hide PutFields, SkipFields, PutU32, TakeU32, SchemaWithin;
    U32Back(|schema|, PutFields(schema, tail));
    FieldsBack(schema, tail);
  }

  // ----- values

  function PutValue(value: Value, tail: Bytes8): (b: Bytes8)
    decreases value
  {
    match value
    case Null => PutByte(0, tail)
    case Boolean(flag) => PutByte(1, PutFlag(flag, tail))
    case Integer(i) => PutByte(2, PutI64(i, tail))
    case FloatBits(bits) => PutByte(3, PutU64(bits, tail))
    case Bytes(bytes) => PutByte(4, PutText(bytes, tail))
    case Text(text) => PutByte(5, PutText(text, tail))
    case List(items) => PutByte(6, PutU32(Capped(|items|), PutValues(items, tail)))
    case Map(entries) => PutByte(7, PutU32(Capped(|entries|), PutValueEntries(entries, tail)))
  }

  function PutValues(items: seq<Value>, tail: Bytes8): (b: Bytes8)
    decreases items
  {
    if items == [] then tail else PutValue(items[0], PutValues(items[1..], tail))
  }

  function PutValueEntries(entries: seq<Entry>, tail: Bytes8): (b: Bytes8)
    decreases entries
  {
    if entries == [] then tail
    else PutText(entries[0].name, PutValue(entries[0].value, PutValueEntries(entries[1..], tail)))
  }

  /** Text and lengths that the wire can carry. */
  ghost predicate ValueSound(value: Value)
  {
    match value
    case Bytes(bytes) => |bytes| <= U32_MAX
    case Text(text) => |text| <= U32_MAX
    case List(items) => |items| <= U32_MAX && forall i | 0 <= i < |items| :: ValueSound(items[i])
    case Map(entries) => |entries| <= U32_MAX && forall i | 0 <= i < |entries| :: EntrySound(entries[i])
    case _ => true
  }

  ghost predicate EntrySound(entry: Entry)
  {
    TextSound(entry.name) && ValueSound(entry.value)
  }

  /** Within the nesting bound. */
  ghost predicate ValueWithin(value: Value, depth: nat)
    decreases value
  {
    && depth <= MAX_EXPR_DEPTH
    && match value
       case List(items) => ValuesWithin(items, depth + 1)
       case Map(entries) => EntriesWithin(entries, depth + 1)
       case _ => true
  }

  ghost predicate ValuesWithin(items: seq<Value>, depth: nat)
    decreases items
  {
    forall i | 0 <= i < |items| :: ValueWithin(items[i], depth)
  }

  ghost predicate EntriesWithin(entries: seq<Entry>, depth: nat)
    decreases entries
  {
    forall i | 0 <= i < |entries| :: ValueWithin(entries[i].value, depth)
  }

  function SkipValue(b: Bytes8, depth: nat): (rest: Option<Bytes8>)
    decreases MAX_EXPR_DEPTH + 1 - depth, 0
  {
    if depth > MAX_EXPR_DEPTH then None
    else
      var tag :- TakeByte(b);
      match tag.value
      case 0 => Some(tag.rest)
      case 1 =>
        var flag :- TakeFlag(tag.rest);
        Some(flag.rest)
      case 2 => SkipU64(tag.rest)
      case 3 => SkipU64(tag.rest)
      case 4 => SkipBytes(tag.rest)
      case 5 => SkipBytes(tag.rest)
      case 6 =>
        var count :- TakeU32(tag.rest);
        SkipValues(count.rest, count.value, depth + 1)
      case 7 =>
        var count :- TakeU32(tag.rest);
        SkipValueEntries(count.rest, count.value, depth + 1)
      case _ => None
  }

  function SkipValues(b: Bytes8, count: nat, depth: nat): (rest: Option<Bytes8>)
    decreases MAX_EXPR_DEPTH + 1 - depth, 1, count
  {
    if count == 0 then Some(b)
    else
      var item :- SkipValue(b, depth);
      SkipValues(item, count - 1, depth)
  }

  function SkipValueEntries(b: Bytes8, count: nat, depth: nat): (rest: Option<Bytes8>)
    decreases MAX_EXPR_DEPTH + 1 - depth, 1, count
  {
    if count == 0 then Some(b)
    else
      var name :- SkipText(b);
      var item :- SkipValue(name, depth);
      SkipValueEntries(item, count - 1, depth)
  }

  /** The bytes of a value are skipped exactly if it keeps to the nesting bound; a deeper one is refused. */
  lemma {:induction false} ValueBack(value: Value, depth: nat, tail: Bytes8)
    requires ValueSound(value)
    ensures SkipValue(PutValue(value, tail), depth) == if ValueWithin(value, depth) then Some(tail) else None
    decreases value
  {
    hide PutByte, TakeByte, PutFlag, TakeFlag, PutU64, TakeU64, PutI64, PutText, SkipBytes, SkipText, PutU32, TakeU32,
      PutValues, SkipValues, PutValueEntries, SkipValueEntries, TextSound, ValuesWithin, EntriesWithin, EntrySound;
    match value
    case Null => ByteBack(0, tail);
    case Boolean(flag) =>
      ByteBack(1, PutFlag(flag, tail));
      FlagBack(flag, tail);
    case Integer(i) =>
      ByteBack(2, PutI64(i, tail));
      I64Skipped(i, tail);
    case FloatBits(bits) =>
      ByteBack(3, PutU64(bits, tail));
      U64Back(bits, tail);
    case Bytes(bytes) =>
      ByteBack(4, PutText(bytes, tail));
      TextBack(bytes, tail);
    case Text(text) =>
      ByteBack(5, PutText(text, tail));
      TextBack(text, tail);
    case List(items) =>
      ByteBack(6, PutU32(Capped(|items|), PutValues(items, tail)));
      U32Back(|items|, PutValues(items, tail));
      ValuesBack(items, depth + 1, tail);
    case Map(entries) =>
      ByteBack(7, PutU32(Capped(|entries|), PutValueEntries(entries, tail)));
      U32Back(|entries|, PutValueEntries(entries, tail));
      ValueEntriesBack(entries, depth + 1, tail);
  }

  lemma I64Skipped(i: I64, tail: Bytes8)
    ensures TakeU64(PutI64(i, tail)).Some? && TakeU64(PutI64(i, tail)).value.rest == tail
  {
    U64Back(Unsigned(i), tail);
  }

  lemma {:induction false} ValuesBack(items: seq<Value>, depth: nat, tail: Bytes8)
    requires forall i | 0 <= i < |items| :: ValueSound(items[i])
    ensures SkipValues(PutValues(items, tail), |items|, depth)
         == if ValuesWithin(items, depth) then Some(tail) else None
    decreases items
  {
    hide PutValue, SkipValue, ValueWithin, ValueSound;
    if items != [] {
      ValueBack(items[0], depth, PutValues(items[1..], tail));
      ValuesBack(items[1..], depth, tail);
      assert ValuesWithin(items, depth) <==> ValueWithin(items[0], depth) && ValuesWithin(items[1..], depth);
    }
  }

  lemma {:induction false} ValueEntriesBack(entries: seq<Entry>, depth: nat, tail: Bytes8)
    requires forall i | 0 <= i < |entries| :: EntrySound(entries[i])
    ensures SkipValueEntries(PutValueEntries(entries, tail), |entries|, depth)
         == if EntriesWithin(entries, depth) then Some(tail) else None
    decreases entries
  {
    hide PutValue, SkipValue, ValueWithin, ValueSound, PutText, SkipText, ValidUtf8;
    if entries != [] {
      var rest := PutValueEntries(entries[1..], tail);
      TextBack(entries[0].name, PutValue(entries[0].value, rest));
      ValueBack(entries[0].value, depth, rest);
      ValueEntriesBack(entries[1..], depth, tail);
      assert EntriesWithin(entries, depth)
          <==> ValueWithin(entries[0].value, depth) && EntriesWithin(entries[1..], depth);
    }
  }

  // ----- logical expressions

  function PutExpr(e: LogicalExpr, tail: Bytes8): (b: Bytes8)
    decreases e
  {
    match e
    case Literal(value) => PutByte(0, PutValue(value, tail))
    case Parameter(name) => PutByte(1, PutText(name, tail))
    case ColumnRef(name) => PutByte(2, PutText(name, tail))
    case Property(input, name) => PutByte(3, PutExpr(input, PutText(name, tail)))
    case Unary(operator, input) => PutByte(4, PutByte(operator, PutExpr(input, tail)))
    case Binary(left, operator, right) => PutByte(5, PutByte(operator, PutExpr(left, PutExpr(right, tail))))
    case ListOf(items) => PutByte(6, PutU32(Capped(|items|), PutExprs(items, tail)))
    case MapOf(entries) => PutByte(7, PutU32(Capped(|entries|), PutNamed(entries, tail)))
  }

  function PutExprs(items: seq<LogicalExpr>, tail: Bytes8): (b: Bytes8)
    decreases items
  {
    if items == [] then tail else PutExpr(items[0], PutExprs(items[1..], tail))
  }

  /** Map entries: the name comes first. */
  function PutNamed(entries: seq<NamedExpr>, tail: Bytes8): (b: Bytes8)
    decreases entries
  {
    if entries == [] then tail
    else PutText(entries[0].name, PutExpr(entries[0].expression, PutNamed(entries[1..], tail)))
  }

  ghost predicate ExprSound(e: LogicalExpr)
  {
    match e
    case Literal(value) => ValueSound(value)
    case Parameter(name) => TextSound(name)
    case ColumnRef(name) => TextSound(name)
    case Property(input, name) => ExprSound(input) && TextSound(name)
    case Unary(_, input) => ExprSound(input)
    case Binary(left, _, right) => ExprSound(left) && ExprSound(right)
    case ListOf(items) => |items| <= U32_MAX && forall i | 0 <= i < |items| :: ExprSound(items[i])
    case MapOf(entries) => |entries| <= U32_MAX && forall i | 0 <= i < |entries| :: NamedSound(entries[i])
  }

  ghost predicate NamedSound(named: NamedExpr)
  {
    TextSound(named.name) && ExprSound(named.expression)
  }

  ghost predicate ExprWithin(e: LogicalExpr, depth: nat)
    decreases e
  {
    && depth <= MAX_EXPR_DEPTH
    && match e
       case Literal(value) => ValueWithin(value, depth + 1)
       case Parameter(_) => true
       case ColumnRef(_) => true
       case Property(input, _) => ExprWithin(input, depth + 1)
       case Unary(_, input) => ExprWithin(input, depth + 1)
       case Binary(left, _, right) => ExprWithin(left, depth + 1) && ExprWithin(right, depth + 1)
       case ListOf(items) => ExprsWithin(items, depth + 1)
       case MapOf(entries) => NamedWithin(entries, depth + 1)
  }

  ghost predicate ExprsWithin(items: seq<LogicalExpr>, depth: nat)
    decreases items
  {
    forall i | 0 <= i < |items| :: ExprWithin(items[i], depth)
  }

  ghost predicate NamedWithin(entries: seq<NamedExpr>, depth: nat)
    decreases entries
  {
    forall i | 0 <= i < |entries| :: ExprWithin(entries[i].expression, depth)
  }

  function SkipExpr(b: Bytes8, depth: nat): (rest: Option<Bytes8>)
    decreases MAX_EXPR_DEPTH + 1 - depth, 0
  {
    if depth > MAX_EXPR_DEPTH then None
    else
      var tag :- TakeByte(b);
      match tag.value
      case 0 => SkipValue(tag.rest, depth + 1)
      case 1 => SkipText(tag.rest)
      case 2 => SkipText(tag.rest)
      case 3 =>
        var input :- SkipExpr(tag.rest, depth + 1);
        SkipText(input)
      case 4 =>
        var operator :- SkipCode(tag.rest, 2);
        SkipExpr(operator, depth + 1)
      case 5 =>
        var operator :- SkipCode(tag.rest, 12);
        var left :- SkipExpr(operator, depth + 1);
        SkipExpr(left, depth + 1)
      case 6 =>
        var count :- TakeU32(tag.rest);
        SkipExprs(count.rest, count.value, depth + 1)
      case 7 =>
        var count :- TakeU32(tag.rest);
        SkipNamed(count.rest, count.value, depth + 1)
      case _ => None
  }

  function SkipExprs(b: Bytes8, count: nat, depth: nat): (rest: Option<Bytes8>)
    decreases MAX_EXPR_DEPTH + 1 - depth, 1, count
  {
    if count == 0 then Some(b)
    else
      var item :- SkipExpr(b, depth);
      SkipExprs(item, count - 1, depth)
  }

  function SkipNamed(b: Bytes8, count: nat, depth: nat): (rest: Option<Bytes8>)
    decreases MAX_EXPR_DEPTH + 1 - depth, 1, count
  {
    if count == 0 then Some(b)
    else
      var name :- SkipText(b);
      var item :- SkipExpr(name, depth);
      SkipNamed(item, count - 1, depth)
  }

  /** The bytes of an expression are skipped exactly if it keeps to the nesting bound; a deeper one is refused. */
  lemma {:induction false} ExprBack(e: LogicalExpr, depth: nat, tail: Bytes8)
    requires ExprSound(e)
    ensures SkipExpr(PutExpr(e, tail), depth) == if ExprWithin(e, depth) then Some(tail) else None
    decreases e
  {
    hide PutByte, TakeByte, SkipCode, PutText, SkipText, PutU32, TakeU32, PutValue, SkipValue, PutExprs, SkipExprs,
      PutNamed, SkipNamed,
      ValidUtf8, ValueWithin, ValueSound, ExprsWithin, NamedWithin, NamedSound;
    match e
    case Literal(value) =>
      ByteBack(0, PutValue(value, tail));
      ValueBack(value, depth + 1, tail);
    case Parameter(name) =>
      ByteBack(1, PutText(name, tail));
      TextBack(name, tail);
    case ColumnRef(name) =>
      ByteBack(2, PutText(name, tail));
      TextBack(name, tail);
    case Property(input, name) =>
      ByteBack(3, PutExpr(input, PutText(name, tail)));
      ExprBack(input, depth + 1, PutText(name, tail));
      TextBack(name, tail);
    case Unary(operator, input) =>
      ByteBack(4, PutByte(operator, PutExpr(input, tail)));
      CodeBack(operator, 2, PutExpr(input, tail));
      ExprBack(input, depth + 1, tail);
    case Binary(left, operator, right) =>
      ByteBack(5, PutByte(operator, PutExpr(left, PutExpr(right, tail))));
      CodeBack(operator, 12, PutExpr(left, PutExpr(right, tail)));
      ExprBack(left, depth + 1, PutExpr(right, tail));
      ExprBack(right, depth + 1, tail);
    case ListOf(items) =>
      ByteBack(6, PutU32(Capped(|items|), PutExprs(items, tail)));
      U32Back(|items|, PutExprs(items, tail));
      ExprsBack(items, depth + 1, tail);
    case MapOf(entries) =>
      ByteBack(7, PutU32(Capped(|entries|), PutNamed(entries, tail)));
      U32Back(|entries|, PutNamed(entries, tail));
      NamedBack(entries, depth + 1, tail);
  }

  lemma {:induction false} ExprsBack(items: seq<LogicalExpr>, depth: nat, tail: Bytes8)
    requires forall i | 0 <= i < |items| :: ExprSound(items[i])
    ensures SkipExprs(PutExprs(items, tail), |items|, depth) == if ExprsWithin(items, depth) then Some(tail) else None
    decreases items
  {
    hide PutExpr, SkipExpr, ExprWithin, ExprSound;
    if items != [] {
      ExprBack(items[0], depth, PutExprs(items[1..], tail));
      ExprsBack(items[1..], depth, tail);
      assert ExprsWithin(items, depth) <==> ExprWithin(items[0], depth) && ExprsWithin(items[1..], depth);
    }
  }

  lemma {:induction false} NamedBack(entries: seq<NamedExpr>, depth: nat, tail: Bytes8)
    requires forall i | 0 <= i < |entries| :: NamedSound(entries[i])
    ensures SkipNamed(PutNamed(entries, tail), |entries|, depth)
         == if NamedWithin(entries, depth) then Some(tail) else None
    decreases entries
  {
    hide PutExpr, SkipExpr, ExprWithin, ExprSound, PutText, SkipText, ValidUtf8;
    if entries != [] {
      var rest := PutNamed(entries[1..], tail);
      TextBack(entries[0].name, PutExpr(entries[0].expression, rest));
      ExprBack(entries[0].expression, depth, rest);
      NamedBack(entries[1..], depth, tail);
      assert NamedWithin(entries, depth)
          <==> ExprWithin(entries[0].expression, depth) && NamedWithin(entries[1..], depth);
    }
  }
}
