/** What comes before what in a merge, said without any comparison function. */
module ValueOrder {
  import opened QueryValues

  // ----- strings of bytes

  /** `a` is a proper prefix of `b`, or smaller at the first place where they differ. */
  ghost predicate BytesPrecede(a: seq<int>, b: seq<int>)
  {
    exists k :: BytesPartAt(a, b, k)
  }

  ghost predicate BytesPartAt(a: seq<int>, b: seq<int>, k: int)
  {
    0 <= k <= |a| && k < |b| && a[..k] == b[..k] && (k == |a| || a[k] < b[k])
  }

  lemma {:induction false} IntsMean(a: seq<int>, b: seq<int>)
    ensures CompareInts(a, b) == Less <==> BytesPrecede(a, b)
    ensures CompareInts(a, b) == Equal <==> a == b
    ensures CompareInts(a, b) == Greater <==> BytesPrecede(b, a)
  {
    if a == [] || b == [] {
      if b != [] { assert BytesPartAt(a, b, 0); }
      if a != [] { assert BytesPartAt(b, a, 0); }
    } else {
      IntsMean(a[1..], b[1..]);
      assert a == [a[0]] + a[1..] && b == [b[0]] + b[1..];
      BytesStep(a, b);
      BytesStep(b, a);
    }
  }

  lemma BytesStep(a: seq<int>, b: seq<int>)
    requires a != [] && b != []
    ensures BytesPrecede(a, b) <==> a[0] < b[0] || (a[0] == b[0] && BytesPrecede(a[1..], b[1..]))
  {
    if BytesPrecede(a, b) && a[0] >= b[0] {
      var k :| BytesPartAt(a, b, k);
      assert k > 0;
      assert a[..k][0] == a[0] && b[..k][0] == b[0];
      assert a[1..][..k - 1] == a[..k][1..] && b[1..][..k - 1] == b[..k][1..];
      assert BytesPartAt(a[1..], b[1..], k - 1);
    }
    if a[0] < b[0] {
      assert BytesPartAt(a, b, 0);
    }
    if a[0] == b[0] && BytesPrecede(a[1..], b[1..]) {
      var k :| BytesPartAt(a[1..], b[1..], k);
      assert a[..k + 1] == [a[0]] + a[1..][..k] && b[..k + 1] == [b[0]] + b[1..][..k];
      assert BytesPartAt(a, b, k + 1);
    }
  }

  // ----- values

  /** `a` is of an earlier kind: null, boolean, integer, float, bytes, text, list, map, vertex, relationship. */
  ghost predicate EarlierKind(a: QueryValue, b: QueryValue)
  {
    match a
    case QNull => !b.QNull?
    case QBoolean(_) => !b.QNull? && !b.QBoolean?
    case QInteger(_) => !b.QNull? && !b.QBoolean? && !b.QInteger?
    case QFloatBits(_) => b.QBytes? || b.QText? || b.QList? || b.QMap? || b.QVertex? || b.QRelationship?
    case QBytes(_) => b.QText? || b.QList? || b.QMap? || b.QVertex? || b.QRelationship?
    case QText(_) => b.QList? || b.QMap? || b.QVertex? || b.QRelationship?
    case QList(_) => b.QMap? || b.QVertex? || b.QRelationship?
    case QMap(_) => b.QVertex? || b.QRelationship?
    case QVertex(_) => b.QRelationship?
    case QRelationship(_) => false
  }

  /** Equal, except that the properties of vertices and relationships do not matter. */
  ghost predicate Same(a: QueryValue, b: QueryValue)
    decreases a
  {
    match a
    case QList(x) => b.QList? && |x| == |b.items| && forall i | 0 <= i < |x| :: Same(x[i], b.items[i])
    case QMap(x) => b.QMap? && |x| == |b.entries| && forall i | 0 <= i < |x| :: SameEntry(x[i], b.entries[i])
    case QVertex(x) => b.QVertex? && b.vertex.(properties := x.properties) == x
    case QRelationship(x) => b.QRelationship? && b.edge.(properties := x.properties) == x
    case _ => a == b
  }

  ghost predicate SameEntry(a: QueryEntry, b: QueryEntry)
    decreases a
  {
    a.name == b.name && Same(a.value, b.value)
  }

  /** `a` comes before `b`. */
  ghost predicate Precedes(a: QueryValue, b: QueryValue)
    decreases a, 1
  {
    || EarlierKind(a, b)
    || match a
       case QNull => false
       case QBoolean(x) => b.QBoolean? && !x && b.flag
       case QInteger(x) => b.QInteger? && x < b.i
       case QFloatBits(x) => b.QFloatBits? && x < b.bits
       case QBytes(x) => b.QBytes? && BytesPrecede(x, b.bytes)
       case QText(x) => b.QText? && BytesPrecede(x, b.text)
       case QList(x) => b.QList? && exists k :: ItemsPartAt(x, b.items, k)
       case QMap(x) => b.QMap? && exists k :: EntriesPartAt(x, b.entries, k)
       case QVertex(x) => b.QVertex? && VertexPrecedes(x, b.vertex)
       case QRelationship(x) => b.QRelationship? && EdgePrecedes(x, b.edge)
  }

  /** The lists agree up to `k`, where `a` ends or has the smaller item. */
  ghost predicate ItemsPartAt(a: seq<QueryValue>, b: seq<QueryValue>, k: int)
    decreases a, 0
  {
    && 0 <= k <= |a| && k < |b| && (forall i | 0 <= i < k :: Same(a[i], b[i]))
    && (k == |a| || Precedes(a[k], b[k]))
  }

  /** The maps agree up to `k`, where `a` ends, or has the smaller name, or the same name and the smaller value. */
  ghost predicate EntriesPartAt(a: seq<QueryEntry>, b: seq<QueryEntry>, k: int)
    decreases a, 0
  {
    && 0 <= k <= |a| && k < |b| && (forall i | 0 <= i < k :: SameEntry(a[i], b[i]))
    && (k == |a| || BytesPrecede(a[k].name, b[k].name) || (a[k].name == b[k].name && Precedes(a[k].value, b[k].value)))
  }

  /** By identifier, then by start and end of validity, then by transaction time, then by version. */
  ghost predicate VertexPrecedes(a: VertexVersion, b: VertexVersion)
  {
    || a.id < b.id
    || (a.id == b.id
        && (|| a.validStart < b.validStart
            || (a.validStart == b.validStart
                && (|| a.validEnd < b.validEnd
                    || (a.validEnd == b.validEnd
                        && (|| a.transactionTime < b.transactionTime
                            || (a.transactionTime == b.transactionTime && a.version < b.version)))))))
  }

  /** By identifier, source, target and type, then as vertices. */
  ghost predicate EdgePrecedes(a: EdgeVersion, b: EdgeVersion)
  {
    || a.id < b.id
    || (a.id == b.id
        && (|| a.source < b.source
            || (a.source == b.source
                && (|| a.target < b.target
                    || (a.target == b.target
                        && (|| BytesPrecede(a.edgeType, b.edgeType)
                            || (a.edgeType == b.edgeType && EdgeTimesPrecede(a, b))))))))
  }

  ghost predicate EdgeTimesPrecede(a: EdgeVersion, b: EdgeVersion)
  {
    || a.validStart < b.validStart
    || (a.validStart == b.validStart
        && (|| a.validEnd < b.validEnd
            || (a.validEnd == b.validEnd
                && (|| a.transactionTime < b.transactionTime
                    || (a.transactionTime == b.transactionTime && a.version < b.version)))))
  }

  // ----- the comparison says exactly this

  ghost predicate Means(o: Ordering, before: bool, same: bool, after: bool)
  {
    (o == Less <==> before) && (o == Equal <==> same) && (o == Greater <==> after)
  }

  lemma CompareFive(a: seq<int>, b: seq<int>)
    requires |a| == |b| && 3 <= |a| <= 5
    ensures CompareInts(a, b) == CompareInt(a[0], b[0]).Then(CompareInt(a[1], b[1])).Then(CompareInt(a[2], b[2]))
      .Then(if |a| > 3 then CompareInt(a[3], b[3]) else Equal).Then(if |a| > 4 then CompareInt(a[4], b[4]) else Equal)
  {
    var a1, b1 := a[1..], b[1..];
    var a2, b2 := a1[1..], b1[1..];
    var a3, b3 := a2[1..], b2[1..];
    assert CompareInts(a, b) == CompareInt(a[0], b[0]).Then(CompareInts(a1, b1));
    assert CompareInts(a1, b1) == CompareInt(a[1], b[1]).Then(CompareInts(a2, b2));
    assert CompareInts(a2, b2) == CompareInt(a[2], b[2]).Then(CompareInts(a3, b3));
    if |a| > 3 {
      var a4, b4 := a3[1..], b3[1..];
      assert CompareInts(a3, b3) == CompareInt(a[3], b[3]).Then(CompareInts(a4, b4));
      if |a| > 4 {
        assert CompareInts(a4, b4) == CompareInt(a[4], b[4]).Then(CompareInts(a4[1..], b4[1..]));
        assert a4[1..] == [] == b4[1..];
      }
    }
  }

  lemma VerticesMean(a: VertexVersion, b: VertexVersion)
    ensures Means(CompareInts(VertexKey(a), VertexKey(b)), VertexPrecedes(a, b), b.(properties := a.properties) == a,
                  VertexPrecedes(b, a))
  {
    hide CompareInts;
    CompareFive(VertexKey(a), VertexKey(b));
  }

  lemma EdgesMean(a: EdgeVersion, b: EdgeVersion)
    ensures Means(CompareEdges(a, b), EdgePrecedes(a, b), b.(properties := a.properties) == a, EdgePrecedes(b, a))
  {
    hide CompareInts, BytesPrecede;
    CompareFive([a.id, a.source, a.target], [b.id, b.source, b.target]);
    IntsMean(a.edgeType, b.edgeType);
    CompareFive([a.validStart, a.validEnd, a.transactionTime, a.version],
                [b.validStart, b.validEnd, b.transactionTime, b.version]);
  }

  /** The total order on values is the one described here. */
  lemma {:induction false} CmpMeans(a: QueryValue, b: QueryValue)
    ensures Means(TotalCmp(a, b), Precedes(a, b), Same(a, b), Precedes(b, a))
    decreases a, 1
  {
    hide CompareInts, CompareSlices, CompareMaps, CompareEdges, VertexKey, BytesPrecede, VertexPrecedes, EdgePrecedes,
      ItemsPartAt, EntriesPartAt;
    if Tag(a) == Tag(b) {
      match a
      case QBytes(x) => IntsMean(x, b.bytes);
      case QText(x) => IntsMean(x, b.text);
      case QList(x) => SlicesMean(x, b.items);
      case QMap(x) => MapsMean(x, b.entries);
      case QVertex(x) => VerticesMean(x, b.vertex);
      case QRelationship(x) => EdgesMean(x, b.edge);
      case _ =>
    }
  }

  ghost predicate SameItems(a: seq<QueryValue>, b: seq<QueryValue>)
  {
    |a| == |b| && forall i | 0 <= i < |a| :: Same(a[i], b[i])
  }

  ghost predicate SameEntries(a: seq<QueryEntry>, b: seq<QueryEntry>)
  {
    |a| == |b| && forall i | 0 <= i < |a| :: SameEntry(a[i], b[i])
  }

  ghost predicate ItemsPrecede(a: seq<QueryValue>, b: seq<QueryValue>)
  {
    exists k :: ItemsPartAt(a, b, k)
  }

  ghost predicate EntriesPrecede(a: seq<QueryEntry>, b: seq<QueryEntry>)
  {
    exists k :: EntriesPartAt(a, b, k)
  }

  lemma {:induction false} SlicesMean(a: seq<QueryValue>, b: seq<QueryValue>)
    ensures Means(CompareSlices(a, b), ItemsPrecede(a, b), SameItems(a, b), ItemsPrecede(b, a))
    decreases a, 0
  {
    hide TotalCmp, Precedes, Same;
    if a == [] || b == [] {
      if b != [] { assert ItemsPartAt(a, b, 0); }
      if a != [] { assert ItemsPartAt(b, a, 0); }
    } else {
      CmpMeans(a[0], b[0]);
      SlicesMean(a[1..], b[1..]);
      SameTwice(a[0], b[0]);
      ItemsStep(a, b);
      ItemsStep(b, a);
    }
  }

  lemma {:induction false} SameTwice(a: QueryValue, b: QueryValue)
    ensures Same(a, b) == Same(b, a)
    decreases a
  {
    match a
    case QList(x) =>
      if b.QList? && |x| == |b.items| {
        forall i | 0 <= i < |x| ensures Same(x[i], b.items[i]) == Same(b.items[i], x[i]) {
          SameTwice(x[i], b.items[i]);
        }
      }
    case QMap(x) =>
      if b.QMap? && |x| == |b.entries| {
        forall i | 0 <= i < |x| ensures SameEntry(x[i], b.entries[i]) == SameEntry(b.entries[i], x[i]) {
          SameTwice(x[i].value, b.entries[i].value);
        }
      }
    case _ =>
  }

  lemma ItemsStep(a: seq<QueryValue>, b: seq<QueryValue>)
    requires a != [] && b != []
    ensures ItemsPrecede(a, b) <==> Precedes(a[0], b[0]) || (Same(a[0], b[0]) && ItemsPrecede(a[1..], b[1..]))
    ensures SameItems(a, b) <==> Same(a[0], b[0]) && SameItems(a[1..], b[1..])
  {
    hide Precedes, Same;
    if ItemsPrecede(a, b) {
      var k :| ItemsPartAt(a, b, k);
      if k > 0 { assert ItemsPartAt(a[1..], b[1..], k - 1); }
    }
    if Precedes(a[0], b[0]) {
      assert ItemsPartAt(a, b, 0);
    }
    if Same(a[0], b[0]) && ItemsPrecede(a[1..], b[1..]) {
      var k :| ItemsPartAt(a[1..], b[1..], k);
      assert ItemsPartAt(a, b, k + 1);
    }
  }

  lemma {:induction false} MapsMean(a: seq<QueryEntry>, b: seq<QueryEntry>)
    ensures Means(CompareMaps(a, b), EntriesPrecede(a, b), SameEntries(a, b), EntriesPrecede(b, a))
    decreases a, 0
  {
    hide TotalCmp, CompareInts, Precedes, Same, BytesPrecede;
    if a == [] || b == [] {
      if b != [] { assert EntriesPartAt(a, b, 0); }
      if a != [] { assert EntriesPartAt(b, a, 0); }
    } else {
      IntsMean(a[0].name, b[0].name);
      CmpMeans(a[0].value, b[0].value);
      MapsMean(a[1..], b[1..]);
      SameTwice(a[0].value, b[0].value);
      EntriesStep(a, b);
      EntriesStep(b, a);
    }
  }

  lemma EntriesStep(a: seq<QueryEntry>, b: seq<QueryEntry>)
    requires a != [] && b != []
    ensures EntriesPrecede(a, b) <==>
              || BytesPrecede(a[0].name, b[0].name)
              || (a[0].name == b[0].name && Precedes(a[0].value, b[0].value))
              || (SameEntry(a[0], b[0]) && EntriesPrecede(a[1..], b[1..]))
    ensures SameEntries(a, b) <==> SameEntry(a[0], b[0]) && SameEntries(a[1..], b[1..])
  {
    hide Precedes, SameEntry, BytesPrecede;
    if EntriesPrecede(a, b) {
      var k :| EntriesPartAt(a, b, k);
      if k > 0 { assert EntriesPartAt(a[1..], b[1..], k - 1); }
    }
    if BytesPrecede(a[0].name, b[0].name) || (a[0].name == b[0].name && Precedes(a[0].value, b[0].value)) {
      assert EntriesPartAt(a, b, 0);
    }
    if SameEntry(a[0], b[0]) && EntriesPrecede(a[1..], b[1..]) {
      var k :| EntriesPartAt(a[1..], b[1..], k);
      assert EntriesPartAt(a, b, k + 1);
    }
  }

  // ----- rows

  /** A row without the key column comes first; otherwise the key cells decide. */
  ghost predicate KeyPrecedes(key: nat, a: Row, b: Row)
  {
    key < |b| && (key >= |a| || Precedes(a[key], b[key]))
  }

  ghost predicate SameKey(key: nat, a: Row, b: Row)
  {
    (key >= |a| && key >= |b|) || (key < |a| && key < |b| && Same(a[key], b[key]))
  }

  /** The key column decides; only rows with the same key are decided by their first differing column. */
  ghost predicate RowPrecedes(key: nat, a: Row, b: Row)
  {
    KeyPrecedes(key, a, b) || (SameKey(key, a, b) && ItemsPrecede(a, b))
  }

  lemma RowsMean(key: nat, a: Row, b: Row)
    ensures Means(CompareForMerge(key, a, b), RowPrecedes(key, a, b), SameKey(key, a, b) && SameItems(a, b),
                  RowPrecedes(key, b, a))
  {
    hide TotalCmp, CompareSlices, Precedes, Same, ItemsPrecede, SameItems;
    SlicesMean(a, b);
    if key < |a| && key < |b| {
      CmpMeans(a[key], b[key]);
      SameTwice(a[key], b[key]);
    }
  }
}
