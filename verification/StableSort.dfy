/** Stable sorting of rows: what the library sort computes, and why it is the only answer. */
module StableSort {
  import opened Wrappers
  import opened QueryValues

  predicate AtMost(key: nat, a: Row, b: Row)
  {
    CompareForMerge(key, a, b) != Greater
  }

  predicate Alike(key: nat, a: Row, b: Row)
  {
    CompareForMerge(key, a, b) == Equal
  }

  ghost predicate Sorted(key: nat, s: seq<Row>)
  {
    forall i, j | 0 <= i <= j < |s| :: AtMost(key, s[i], s[j])
  }

  /** The rows that compare equal to `c`, in their order. */
  function Class(key: nat, s: seq<Row>, c: Row): (r: seq<Row>)
  {
    if s == [] then [] else (if Alike(key, s[0], c) then [s[0]] else []) + Class(key, s[1..], c)
  }

  /** Puts `x` behind every row that is at most `x`. */
  function Insert(key: nat, s: seq<Row>, x: Row): (r: seq<Row>)
  {
    if s == [] then [x]
    else if AtMost(key, s[|s| - 1], x) then s + [x]
    else Insert(key, s[..|s| - 1], x) + [s[|s| - 1]]
  }

  function Sort(key: nat, s: seq<Row>): (r: seq<Row>)
  {
    if s == [] then [] else Insert(key, Sort(key, s[..|s| - 1]), s[|s| - 1])
  }

  /** `t` is sorted and keeps rows that compare equal in the order of `s`. */
  ghost predicate StablySorts(key: nat, t: seq<Row>, s: seq<Row>)
  {
    Sorted(key, t) && forall c :: Class(key, t, c) == Class(key, s, c)
  }

  lemma {:induction false} ClassAppended(key: nat, a: seq<Row>, b: seq<Row>, c: Row)
    ensures Class(key, a + b, c) == Class(key, a, c) + Class(key, b, c)
  {
    if a == [] {
      assert a + b == b;
    } else {
      ClassAppended(key, a[1..], b, c);
      assert (a + b)[1..] == a[1..] + b;
    }
  }

  lemma ClassOne(key: nat, x: Row, c: Row)
    ensures Class(key, [x], c) == if Alike(key, x, c) then [x] else []
  {
    assert [x][1..] == [];
  }

  lemma {:induction false} Inserted(key: nat, s: seq<Row>, x: Row)
    requires Sorted(key, s)
    ensures Sorted(key, Insert(key, s, x))
    ensures forall y | y in Insert(key, s, x) :: y in s || y == x
    ensures |Insert(key, s, x)| == |s| + 1
  {
    RowsFit(key, x, x, x);
    if s != [] {
      var last, front := s[|s| - 1], s[..|s| - 1];
      if AtMost(key, last, x) {
        forall i | 0 <= i < |s|
          ensures AtMost(key, s[i], x)
        {
          RowsFit(key, s[i], last, x);
        }
        RowsReverse(key, x, x);
      } else {
        Inserted(key, front, x);
        forall y | y in front || y == x
          ensures AtMost(key, y, last)
        {
          RowsReverse(key, last, x);
        }
        var r := Insert(key, front, x) + [last];
        RowsReverse(key, last, last);
        forall i, j | 0 <= i <= j < |r|
          ensures AtMost(key, r[i], r[j])
        {
          if j == |r| - 1 && i < j {
            assert r[i] in Insert(key, front, x);
          }
        }
      }
    } else {
      RowsReverse(key, x, x);
    }
  }

  /** Rows that compare equal keep their order, with the new one last. */
  lemma {:induction false} InsertedClass(key: nat, s: seq<Row>, x: Row, c: Row)
    requires Sorted(key, s)
    ensures Class(key, Insert(key, s, x), c) == Class(key, s, c) + Class(key, [x], c)
  {
    hide CompareForMerge;
    if s == [] {
      assert [] + Class(key, [x], c) == Class(key, [x], c);
    } else {
      var last, front := s[|s| - 1], s[..|s| - 1];
      assert s == front + [last];
      if AtMost(key, last, x) {
        ClassAppended(key, s, [x], c);
      } else {
        InsertedClass(key, front, x, c);
        ClassAppended(key, Insert(key, front, x), [last], c);
        ClassAppended(key, front, [last], c);
        ClassOne(key, x, c);
        ClassOne(key, last, c);
        if Alike(key, x, c) && Alike(key, last, c) {
          RowsReverse(key, x, c);
          RowsFit(key, last, c, x);
        }
      }
    }
  }

  lemma {:induction false} SortIsStable(key: nat, s: seq<Row>)
    ensures StablySorts(key, Sort(key, s), s)
  {
    if s != [] {
      var x, front := s[|s| - 1], s[..|s| - 1];
      assert s == front + [x];
      SortIsStable(key, front);
      Inserted(key, Sort(key, front), x);
      forall c
        ensures Class(key, Sort(key, s), c) == Class(key, s, c)
      {
        InsertedClass(key, Sort(key, front), x, c);
        ClassAppended(key, front, [x], c);
      }
    }
  }

  /** A row of a sequence is in its own class there. */
  lemma {:induction false} OwnClass(key: nat, s: seq<Row>, x: Row)
    requires x in s
    ensures x in Class(key, s, x)
  {
    RowsReverse(key, x, x);
    if s[0] != x {
      OwnClass(key, s[1..], x);
    }
  }

  lemma {:induction false} ClassMembers(key: nat, s: seq<Row>, c: Row)
    ensures forall x | x in Class(key, s, c) :: x in s && Alike(key, x, c)
  {
    if s != [] {
      ClassMembers(key, s[1..], c);
    }
  }

  lemma HeadIsLeast(key: nat, s: seq<Row>, x: Row)
    requires Sorted(key, s) && x in s
    ensures AtMost(key, s[0], x)
  {
    var i :| 0 <= i < |s| && s[i] == x;
  }

  /** Two sorted sequences with equal classes start with the same row. */
  lemma SameHead(key: nat, s: seq<Row>, t: seq<Row>)
    requires Sorted(key, s) && Sorted(key, t) && s != [] && t != []
    requires forall c :: Class(key, s, c) == Class(key, t, c)
    ensures s[0] == t[0]
  {
    var x, y := s[0], t[0];
    OwnClass(key, s, x);
    OwnClass(key, t, y);
    ClassMembers(key, t, x);
    ClassMembers(key, s, y);
    HeadIsLeast(key, s, y);
    HeadIsLeast(key, t, x);
    RowsReverse(key, x, y);
    assert Alike(key, x, y) && Alike(key, y, x);
    RowsReverse(key, x, x);
    assert Class(key, s, x)[0] == x;
    assert Class(key, t, x)[0] == y;
  }

  /** A stable sort has only one result. */
  lemma {:induction false} StableSortIsUnique(key: nat, s: seq<Row>, t: seq<Row>)
    requires Sorted(key, s) && Sorted(key, t)
    requires forall c :: Class(key, s, c) == Class(key, t, c)
    ensures s == t
    decreases |s|
  {
    if s != [] { OwnClass(key, s, s[0]); assert Class(key, t, s[0]) != []; }
    if t != [] { OwnClass(key, t, t[0]); assert Class(key, s, t[0]) != []; }
    if s != [] {
      SameHead(key, s, t);
      assert s == [s[0]] + s[1..] && t == [t[0]] + t[1..];
      forall c
        ensures Class(key, s[1..], c) == Class(key, t[1..], c)
      {
        var skip := if Alike(key, s[0], c) then 1 else 0;
        assert Class(key, s[1..], c) == Class(key, s, c)[skip..];
        assert Class(key, t[1..], c) == Class(key, t, c)[skip..];
      }
      StableSortIsUnique(key, s[1..], t[1..]);
    }
  }

  /** Anything that stably sorts `s` is the sort of `s`. */
  lemma StablySortsIsSort(key: nat, t: seq<Row>, s: seq<Row>)
    requires StablySorts(key, t, s)
    ensures t == Sort(key, s)
  {
    SortIsStable(key, s);
    StableSortIsUnique(key, t, Sort(key, s));
  }

  lemma {:induction false} InsertIsPermutation(key: nat, s: seq<Row>, x: Row)
    ensures multiset(Insert(key, s, x)) == multiset(s) + multiset{x}
  {
    if s != [] {
      var last, front := s[|s| - 1], s[..|s| - 1];
      assert s == front + [last];
      if !AtMost(key, last, x) {
        InsertIsPermutation(key, front, x);
      }
    }
  }

  lemma {:induction false} SortIsPermutation(key: nat, s: seq<Row>)
    ensures multiset(Sort(key, s)) == multiset(s)
  {
    if s != [] {
      var x, front := s[|s| - 1], s[..|s| - 1];
      assert s == front + [x];
      SortIsPermutation(key, front);
      InsertIsPermutation(key, Sort(key, front), x);
    }
  }

  // ----- merging sorted runs

  function Flatten(runs: seq<seq<Row>>): (all: seq<Row>)
  {
    if runs == [] then [] else Flatten(runs[..|runs| - 1]) + runs[|runs| - 1]
  }

  ghost predicate AllSorted(key: nat, runs: seq<seq<Row>>)
  {
    forall i | 0 <= i < |runs| :: Sorted(key, runs[i])
  }

  lemma {:induction false} FlattenAt(runs: seq<seq<Row>>, i: nat)
    requires i < |runs|
    ensures Flatten(runs) == Flatten(runs[..i]) + runs[i] + Flatten(runs[i + 1..])
    decreases |runs|
  {
    var last, front := runs[|runs| - 1], runs[..|runs| - 1];
    if i == |runs| - 1 {
      assert runs[i + 1..] == [];
    } else {
      FlattenAt(front, i);
      assert front[..i] == runs[..i] && front[i + 1..] == runs[i + 1..][..|runs| - i - 2];
      assert runs[i + 1..][|runs| - i - 2] == last;
    }
  }

  lemma {:induction false} FlattenMembers(runs: seq<seq<Row>>, x: Row) returns (i: nat)
    requires x in Flatten(runs)
    ensures i < |runs| && x in runs[i]
  {
    if x in runs[|runs| - 1] {
      i := |runs| - 1;
    } else {
      i := FlattenMembers(runs[..|runs| - 1], x);
    }
  }

  lemma {:induction false} NoneAlike(key: nat, s: seq<Row>, c: Row)
    requires forall x | x in s :: !Alike(key, x, c)
    ensures Class(key, s, c) == []
  {
    if s != [] {
      NoneAlike(key, s[1..], c);
    }
  }

  /** `i` is the first run whose head is least. */
  ghost predicate FirstLeast(key: nat, runs: seq<seq<Row>>, i: nat)
  {
    && i < |runs| && runs[i] != []
    && (forall j | 0 <= j < |runs| && runs[j] != [] :: AtMost(key, runs[i][0], runs[j][0]))
    && (forall j | 0 <= j < i && runs[j] != [] :: CompareForMerge(key, runs[i][0], runs[j][0]) == Less)
  }

  /** The first least head comes strictly before everything in earlier runs, and before nothing smaller anywhere. */
  lemma HeadBefore(key: nat, runs: seq<seq<Row>>, i: nat, j: nat, x: Row)
    requires AllSorted(key, runs) && FirstLeast(key, runs, i) && j < |runs| && x in runs[j]
    ensures AtMost(key, runs[i][0], x)
    ensures j < i ==> CompareForMerge(key, runs[i][0], x) == Less
  {
    HeadIsLeast(key, runs[j], x);
    RowsFit(key, runs[i][0], runs[j][0], x);
  }

  /** Taking the first least head is one step of the stable sort of all rows. */
  lemma MergeStep(key: nat, runs: seq<seq<Row>>, i: nat)
    requires AllSorted(key, runs) && FirstLeast(key, runs, i)
    ensures Sort(key, Flatten(runs)) == [runs[i][0]] + Sort(key, Flatten(runs[i := runs[i][1..]]))
  {
    var h, runs' := runs[i][0], runs[i := runs[i][1..]];
    var t := [h] + Sort(key, Flatten(runs'));
    SortIsStable(key, Flatten(runs'));
    MergedIsSorted(key, runs, i);
    forall c
      ensures Class(key, t, c) == Class(key, Flatten(runs), c)
    {
      MergedClass(key, runs, i, c);
    }
    StablySortsIsSort(key, t, Flatten(runs));
  }

  lemma MergedIsSorted(key: nat, runs: seq<seq<Row>>, i: nat)
    requires AllSorted(key, runs) && FirstLeast(key, runs, i)
    ensures Sorted(key, [runs[i][0]] + Sort(key, Flatten(runs[i := runs[i][1..]])))
  {
    var h, runs' := runs[i][0], runs[i := runs[i][1..]];
    var rest := Sort(key, Flatten(runs'));
    SortIsStable(key, Flatten(runs'));
    SortIsPermutation(key, Flatten(runs'));
    RowsReverse(key, h, h);
    forall k | 0 <= k < |rest|
      ensures AtMost(key, h, rest[k])
    {
      assert rest[k] in multiset(rest);
      var j := FlattenMembers(runs', rest[k]);
      assert rest[k] in runs[j];
      HeadBefore(key, runs, i, j, rest[k]);
    }
  }

  lemma MergedClass(key: nat, runs: seq<seq<Row>>, i: nat, c: Row)
    requires AllSorted(key, runs) && FirstLeast(key, runs, i)
    ensures Class(key, [runs[i][0]] + Sort(key, Flatten(runs[i := runs[i][1..]])), c) == Class(key, Flatten(runs), c)
  {
    hide Sort, CompareForMerge, Class, Sorted;
    var h, runs' := runs[i][0], runs[i := runs[i][1..]];
    var before, tail, after := Flatten(runs[..i]), runs[i][1..], Flatten(runs[i + 1..]);
    FlattenAt(runs, i);
    FlattenAt(runs', i);
    assert runs'[..i] == runs[..i] && runs'[i + 1..] == runs[i + 1..];
    assert runs[i] == [h] + tail;
    SortIsStable(key, Flatten(runs'));
    ClassAppended(key, [h], Sort(key, Flatten(runs')), c);
    ClassOfThree(key, before, tail, after, c);
    ClassOfThree(key, before, runs[i], after, c);
    ClassAppended(key, [h], tail, c);
    ClassOne(key, h, c);
    if Alike(key, h, c) {
      NoneBefore(key, runs, i, c);
      assert Class(key, before, c) == [];
    }
  }

  lemma ClassOfThree(key: nat, a: seq<Row>, b: seq<Row>, d: seq<Row>, c: Row)
    ensures Class(key, a + b + d, c) == Class(key, a, c) + Class(key, b, c) + Class(key, d, c)
  {
    ClassAppended(key, a + b, d, c);
    ClassAppended(key, a, b, c);
  }

  lemma NoneBefore(key: nat, runs: seq<seq<Row>>, i: nat, c: Row)
    requires AllSorted(key, runs) && FirstLeast(key, runs, i) && Alike(key, runs[i][0], c)
    ensures Class(key, Flatten(runs[..i]), c) == []
  {
    var h, before := runs[i][0], Flatten(runs[..i]);
    forall x | x in before
      ensures !Alike(key, x, c)
    {
      var j := FlattenMembers(runs[..i], x);
      HeadBefore(key, runs, i, j, x);
      RowsReverse(key, x, c);
      RowsFit(key, h, c, x);
    }
    NoneAlike(key, before, c);
  }

  /** Sorting the runs first does not change the sort of all rows. */
  lemma {:induction false} SortedRuns(key: nat, batches: seq<seq<Row>>, runs: seq<seq<Row>>)
    requires |runs| == |batches| && forall i | 0 <= i < |runs| :: runs[i] == Sort(key, batches[i])
    ensures AllSorted(key, runs)
    ensures Sort(key, Flatten(runs)) == Sort(key, Flatten(batches))
  {
    forall i | 0 <= i < |runs|
      ensures Sorted(key, runs[i])
    {
      SortIsStable(key, batches[i]);
    }
    forall c
      ensures Class(key, Flatten(runs), c) == Class(key, Flatten(batches), c)
    {
      SortedRunsClass(key, batches, runs, c);
    }
    SortIsStable(key, Flatten(runs));
    StablySortsIsSort(key, Sort(key, Flatten(runs)), Flatten(batches));
  }

  lemma {:induction false} SortedRunsClass(key: nat, batches: seq<seq<Row>>, runs: seq<seq<Row>>, c: Row)
    requires |runs| == |batches| && forall i | 0 <= i < |runs| :: runs[i] == Sort(key, batches[i])
    ensures Class(key, Flatten(runs), c) == Class(key, Flatten(batches), c)
  {
    if runs != [] {
      var n := |runs| - 1;
      SortedRunsClass(key, batches[..n], runs[..n], c);
      SortIsStable(key, batches[n]);
      ClassAppended(key, Flatten(runs[..n]), runs[n], c);
      ClassAppended(key, Flatten(batches[..n]), batches[n], c);
    }
  }

  lemma {:induction false} FlattenEmpty(runs: seq<seq<Row>>)
    requires forall i | 0 <= i < |runs| :: runs[i] == []
    ensures Flatten(runs) == []
  {
    if runs != [] {
      FlattenEmpty(runs[..|runs| - 1]);
    }
  }

  // ----- dropping repeats

  /** Keeps a row unless it equals the row kept just before it. */
  function Deduplicated(last: Option<Row>, s: seq<Row>): (r: seq<Row>)
    decreases s
  {
    if s == [] then []
    else if last == Some(s[0]) then Deduplicated(last, s[1..])
    else [s[0]] + Deduplicated(Some(s[0]), s[1..])
  }
}
