/** What a merge gives, said of positions and cells: every row once, in order, ties in order of arrival. */
module MergeMeaning {
  import opened Wrappers
  import opened QueryValues
  import opened ValueOrder
  import opened StableSort
  import opened SpillMerge

  ghost predicate SameRow(key: nat, a: Row, b: Row)
  {
    SameKey(key, a, b) && SameItems(a, b)
  }

  /** `t` takes each row of `s` once, the row at `k` from position `at[k]`: smaller rows first, ties as they came. */
  ghost predicate Arranged(key: nat, t: seq<Row>, s: seq<Row>, at: seq<nat>)
  {
    && |t| == |s| == |at|
    && (forall k | 0 <= k < |at| :: at[k] < |s| && t[k] == s[at[k]])
    && (forall i, j | 0 <= i < j < |at| :: at[i] != at[j])
    && (forall i, j | 0 <= i < j < |at| :: InPlace(key, t[i], t[j], at[i], at[j]))
  }

  ghost predicate InPlace(key: nat, a: Row, b: Row, i: nat, j: nat)
  {
    RowPrecedes(key, a, b) || (SameRow(key, a, b) && i < j)
  }

  /** `d` is `s` with each run of equal neighbours made one: the row at `i` has become the one at `at[i]`. */
  ghost predicate Collapsed(d: seq<Row>, s: seq<Row>, at: seq<nat>)
  {
    && |at| == |s| && (s == [] ==> d == [])
    && (forall i | 0 <= i < |s| :: at[i] < |d| && d[at[i]] == s[i])
    && (s != [] ==> at[0] == 0 && at[|s| - 1] == |d| - 1)
    && (forall i | 0 < i < |s| :: at[i] == if s[i] == s[i - 1] then at[i - 1] else at[i - 1] + 1)
  }

  /** `m` is the merge of the rows that came. */
  ghost predicate Merges(key: nat, deduplicate: bool, came: seq<Row>, m: seq<Row>)
  {
    exists t, at :: Arranged(key, t, came, at) && if deduplicate then exists kept :: Collapsed(m, t, kept) else m == t
  }

  // ----- sorting arranges

  /** Where `Insert` puts a new row: behind every row that is at most as large. */
  lemma {:induction false} InsertPlaces(key: nat, s: seq<Row>, x: Row) returns (p: nat)
    ensures p <= |s| && Insert(key, s, x) == s[..p] + [x] + s[p..]
    ensures p > 0 ==> AtMost(key, s[p - 1], x)
    ensures forall i | p <= i < |s| :: !AtMost(key, s[i], x)
  {
    if s == [] {
      p := 0;
    } else if AtMost(key, s[|s| - 1], x) {
      p := |s|;
      assert s[..p] == s;
    } else {
      var front := s[..|s| - 1];
      p := InsertPlaces(key, front, x);
      assert front[..p] == s[..p] && front[p..] + [s[|s| - 1]] == s[p..];
    }
  }

  lemma AtMostMeans(key: nat, a: Row, b: Row)
    ensures AtMost(key, a, b) <==> RowPrecedes(key, a, b) || SameRow(key, a, b)
    ensures !AtMost(key, a, b) ==> RowPrecedes(key, b, a)
  {
    hide CompareForMerge, RowPrecedes, SameKey, SameItems;
    RowsMean(key, a, b);
  }

  lemma {:induction false} SortArranges(key: nat, s: seq<Row>) returns (at: seq<nat>)
    ensures Arranged(key, Sort(key, s), s, at)
  {
    if s == [] {
      at := [];
    } else {
      var x, front := s[|s| - 1], s[..|s| - 1];
      at := SortArranges(key, front);
      at := InsertArranges(key, Sort(key, front), front, at, x);
      assert s == front + [x];
    }
  }

  lemma InsertArranges(key: nat, t: seq<Row>, s: seq<Row>, at: seq<nat>, x: Row) returns (at': seq<nat>)
    requires Arranged(key, t, s, at)
    ensures Arranged(key, Insert(key, t, x), s + [x], at')
  {
    hide Insert, Arranged;
    var p := InsertPlaces(key, t, x);
    Sizes(key, t, s, at);
    at' := at[..p] + [|s|] + at[p..];
    SpreadTakes(key, t, s, at, x, p);
    SpreadPlaces(key, t, s, at, x, p);
    Arrange(key, t[..p] + [x] + t[p..], s + [x], at');
  }

  lemma Sizes(key: nat, t: seq<Row>, s: seq<Row>, at: seq<nat>)
    requires Arranged(key, t, s, at)
    ensures |t| == |s| == |at|
  {
  }

  lemma Arrange(key: nat, t: seq<Row>, s: seq<Row>, at: seq<nat>)
    requires |t| == |s| == |at|
    requires forall k | 0 <= k < |at| :: at[k] < |s| && t[k] == s[at[k]]
    requires forall i, j | 0 <= i < j < |at| :: at[i] != at[j]
    requires forall i, j | 0 <= i < j < |at| :: InPlace(key, t[i], t[j], at[i], at[j])
    ensures Arranged(key, t, s, at)
  {
  }

  lemma SpreadTakes(key: nat, t: seq<Row>, s: seq<Row>, at: seq<nat>, x: Row, p: nat)
    requires Arranged(key, t, s, at) && p <= |t|
    ensures var t', at' := t[..p] + [x] + t[p..], at[..p] + [|s|] + at[p..];
      && (forall k | 0 <= k < |at'| :: at'[k] < |s + [x]| && t'[k] == (s + [x])[at'[k]])
      && (forall i, j | 0 <= i < j < |at'| :: at'[i] != at'[j])
  {
    hide InPlace;
    var t', at' := t[..p] + [x] + t[p..], at[..p] + [|s|] + at[p..];
    forall k | 0 <= k < |at'| ensures at'[k] < |s + [x]| && t'[k] == (s + [x])[at'[k]] {
      if k < p {
        assert t'[k] == t[k] && at'[k] == at[k];
      } else if k > p {
        assert t'[k] == t[k - 1] && at'[k] == at[k - 1];
      }
    }
    forall i, j | 0 <= i < j < |at'| ensures at'[i] != at'[j] {
      var i0, j0 := if i < p then i else i - 1, if j < p then j else j - 1;
      assert i != p ==> at'[i] == at[i0];
      assert j != p ==> at'[j] == at[j0];
    }
  }

  lemma SpreadAt<T>(s: seq<T>, x: T, p: nat, k: nat)
    requires p <= |s| && k <= |s|
    ensures (s[..p] + [x] + s[p..])[k] == if k < p then s[k] else if k == p then x else s[k - 1]
  {
  }

  lemma SpreadPlaces(key: nat, t: seq<Row>, s: seq<Row>, at: seq<nat>, x: Row, p: nat)
    requires Arranged(key, t, s, at) && p <= |t| && (p > 0 ==> AtMost(key, t[p - 1], x))
    requires forall i | p <= i < |t| :: !AtMost(key, t[i], x)
    ensures var t', at' := t[..p] + [x] + t[p..], at[..p] + [|s|] + at[p..];
      forall i, j | 0 <= i < j < |at'| :: InPlace(key, t'[i], t'[j], at'[i], at'[j])
  {
    hide InPlace, AtMost;
    var t', at' := t[..p] + [x] + t[p..], at[..p] + [|s|] + at[p..];
    forall i, j | 0 <= i < j < |at'| ensures InPlace(key, t'[i], t'[j], at'[i], at'[j]) {
      SpreadAt(t, x, p, i);
      SpreadAt(t, x, p, j);
      SpreadAt(at, |s|, p, i);
      SpreadAt(at, |s|, p, j);
      SpreadPlace(key, t, s, at, x, p, i, j);
    }
  }

  lemma SpreadPlace(key: nat, t: seq<Row>, s: seq<Row>, at: seq<nat>, x: Row, p: nat, i: nat, j: nat)
    requires Arranged(key, t, s, at) && i < j <= |t| && p <= |t| && (p > 0 ==> AtMost(key, t[p - 1], x))
    requires forall i | p <= i < |t| :: !AtMost(key, t[i], x)
    ensures var a, n := if i < p then t[i] else if i == p then x else t[i - 1],
        if i < p then at[i] else if i == p then |s| else at[i - 1];
      var b, m := if j < p then t[j] else if j == p then x else t[j - 1],
        if j < p then at[j] else if j == p then |s| else at[j - 1];
      InPlace(key, a, b, n, m)
  {
    hide InPlace, AtMost;
    if i == p {
      LargerBehind(key, t[j - 1], x, |s|, at[j - 1]);
    } else if j == p {
      SmallerAhead(key, t, s, at, x, p, i);
    } else {
      var i0, j0 := if i < p then i else i - 1, if j < p then j else j - 1;
      assert InPlace(key, t[i0], t[j0], at[i0], at[j0]);
    }
  }

  lemma LargerBehind(key: nat, b: Row, x: Row, i: nat, j: nat)
    requires !AtMost(key, b, x)
    ensures InPlace(key, x, b, i, j)
  {
    AtMostMeans(key, b, x);
  }

  lemma SmallerAhead(key: nat, t: seq<Row>, s: seq<Row>, at: seq<nat>, x: Row, p: nat, i: nat)
    requires Arranged(key, t, s, at) && i < p <= |t| && AtMost(key, t[p - 1], x)
    ensures InPlace(key, t[i], x, at[i], |s|)
  {
    hide CompareForMerge, RowPrecedes, SameKey, SameItems;
    if i < p - 1 {
      assert InPlace(key, t[i], t[p - 1], at[i], at[p - 1]);
    }
    RowsMean(key, t[i], t[i]);
    RowsMean(key, t[i], t[p - 1]);
    RowsMean(key, t[p - 1], x);
    RowsMean(key, t[i], x);
    RowsFit(key, t[i], t[p - 1], x);
  }

  // ----- dropping repeats collapses

  ghost function Headed(last: Option<Row>, s: seq<Row>): seq<Row>
  {
    if last.Some? then [last.value] + s else s
  }

  lemma {:induction false} DropsRepeats(last: Option<Row>, s: seq<Row>) returns (at: seq<nat>)
    ensures Collapsed(Headed(last, Deduplicated(last, s)), Headed(last, s), at)
    decreases |s|
  {
    hide Collapsed;
    if s == [] {
      at := NothingCollapses(last);
    } else {
      assert [s[0]] + s[1..] == s;
      at := DropsRepeats(Some(s[0]), s[1..]);
      var d := [s[0]] + Deduplicated(Some(s[0]), s[1..]);
      if last == Some(s[0]) {
        at := CollapseRepeat(d, s, at);
      } else if last.Some? {
        at := CollapseNew(last.value, d, s, at);
      }
    }
  }

  lemma NothingCollapses(last: Option<Row>) returns (at: seq<nat>)
    ensures Collapsed(Headed(last, []), Headed(last, []), at)
  {
    at := if last.Some? then [0] else [];
  }

  lemma CollapseRepeat(d: seq<Row>, s: seq<Row>, at: seq<nat>) returns (at': seq<nat>)
    requires s != [] && Collapsed(d, s, at)
    ensures Collapsed(d, [s[0]] + s, at')
  {
    at' := [0] + at;
    var all := [s[0]] + s;
    forall i | 0 < i < |all| ensures at'[i] == if all[i] == all[i - 1] then at'[i - 1] else at'[i - 1] + 1 {
      if i > 1 {
        assert at[i - 1] == if s[i - 1] == s[i - 2] then at[i - 2] else at[i - 2] + 1;
      }
    }
  }

  lemma CollapseNew(x: Row, d: seq<Row>, s: seq<Row>, at: seq<nat>) returns (at': seq<nat>)
    requires s != [] && x != s[0] && Collapsed(d, s, at)
    ensures Collapsed([x] + d, [x] + s, at')
  {
    at' := [0] + seq(|at|, i requires 0 <= i < |at| => at[i] + 1);
    var all := [x] + s;
    forall i | 0 < i < |all| ensures at'[i] == if all[i] == all[i - 1] then at'[i - 1] else at'[i - 1] + 1 {
      if i > 1 {
        assert at[i - 1] == if s[i - 1] == s[i - 2] then at[i - 2] else at[i - 2] + 1;
      }
    }
  }

  // ----- the merge

  /** The merge of all inputs is a merge of their rows in the sense above. */
  lemma MergeMeans(key: nat, deduplicate: bool, inputs: seq<Input>)
    requires InputsValid(inputs)
    ensures Merges(key, deduplicate, Flatten(Collected(inputs)), MergeOf(key, deduplicate, inputs))
  {
    hide Arranged, Collapsed, Sort, Deduplicated;
    var came := Flatten(Collected(inputs));
    var at := SortArranges(key, came);
    if deduplicate {
      var kept := DropsRepeats(None, Sort(key, came));
    }
  }

  /** In a merge no later row precedes an earlier one. */
  lemma MergedAscends(key: nat, deduplicate: bool, came: seq<Row>, m: seq<Row>, i: nat, j: nat)
    requires Merges(key, deduplicate, came, m) && i < j < |m|
    ensures !RowPrecedes(key, m[j], m[i]) && m[i] in came && m[j] in came
  {
    hide InPlace, RowPrecedes;
    var t, at :| Arranged(key, t, came, at) && if deduplicate then exists kept :: Collapsed(m, t, kept) else m == t;
    var x, y := i, j;
    if deduplicate {
      var kept :| Collapsed(m, t, kept);
      x := KeptFrom(m, t, kept, i);
      y := KeptFrom(m, t, kept, j);
      if y <= x { KeptRises(m, t, kept, y, x); }
    }
    assert InPlace(key, t[x], t[y], at[x], at[y]);
    NotBefore(key, t[x], t[y], at[x], at[y]);
  }

  lemma NotBefore(key: nat, a: Row, b: Row, i: nat, j: nat)
    requires InPlace(key, a, b, i, j)
    ensures !RowPrecedes(key, b, a)
  {
    hide CompareForMerge, RowPrecedes, SameKey, SameItems;
    RowsMean(key, a, b);
  }

  lemma {:induction false} KeptRises(d: seq<Row>, s: seq<Row>, at: seq<nat>, i: nat, j: nat)
    requires Collapsed(d, s, at) && i <= j < |s|
    ensures at[i] <= at[j]
    decreases j
  {
    if i < j { KeptRises(d, s, at, i, j - 1); }
  }

  /** Every row that was kept was one of the rows. */
  lemma KeptFrom(d: seq<Row>, s: seq<Row>, at: seq<nat>, k: nat) returns (i: nat)
    requires Collapsed(d, s, at) && k < |d|
    ensures i < |s| && at[i] == k && d[k] == s[i]
  {
    i := 0;
    while at[i] != k
      invariant i < |s| && at[i] <= k
      decreases |s| - i
    {
      i := i + 1;
    }
  }

  /** Read off the key cells of any two rows of a merge, the earlier one `a` and the later one `b`. */
  lemma MergedKeysAscend(key: nat, deduplicate: bool, came: seq<Row>, m: seq<Row>, i: nat, j: nat)
    requires Merges(key, deduplicate, came, m) && i < j < |m| && key < |m[i]| && key < |m[j]|
    ensures var a, b := m[i][key], m[j][key];
      && (a.QBoolean? && b.QBoolean? && a.flag ==> b.flag)
      && (a.QInteger? && b.QInteger? ==> a.i <= b.i)
      && (a.QFloatBits? && b.QFloatBits? ==> a.bits <= b.bits)
      && (a.QBytes? && b.QBytes? ==> a.bytes == b.bytes || BytesPrecede(a.bytes, b.bytes))
      && (a.QText? && b.QText? ==> a.text == b.text || BytesPrecede(a.text, b.text))
      && (a.QList? && b.QList? ==> SameItems(a.items, b.items) || ItemsPrecede(a.items, b.items))
      && (a.QMap? && b.QMap? ==> SameEntries(a.entries, b.entries) || EntriesPrecede(a.entries, b.entries))
      && !EarlierKind(b, a)
      && (Same(a, b) ==> SameItems(m[i], m[j]) || ItemsPrecede(m[i], m[j]))
  {
    hide Merges, TotalCmp, CompareSlices, CompareMaps, CompareInts, BytesPrecede, ItemsPartAt, EntriesPartAt,
      ItemsPrecede,
      SameItems;
    MergedAscends(key, deduplicate, came, m, i, j);
    var a, b := m[i][key], m[j][key];
    CmpMeans(a, b);
    SameTwice(a, b);
    SlicesMean(m[i], m[j]);
    if a.QBytes? && b.QBytes? { IntsMean(a.bytes, b.bytes); }
    if a.QText? && b.QText? { IntsMean(a.text, b.text); }
    if a.QList? && b.QList? { ListsMean(a, b); }
  }

  lemma ListsMean(a: QueryValue, b: QueryValue)
    requires a.QList? && b.QList?
    ensures Precedes(a, b) <==> ItemsPrecede(a.items, b.items)
    ensures Same(a, b) <==> SameItems(a.items, b.items)
  {
  }
}
