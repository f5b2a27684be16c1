/** Totals of a cost over the items of a list. */
module Sums {

  function Sum<T(!new)>(cost: T -> nat, items: seq<T>): (total: nat)
  {
    if items == [] then 0 else Sum(cost, items[..|items| - 1]) + cost(items[|items| - 1])
  }

  lemma {:induction false} SumAppended<T(!new)>(cost: T -> nat, a: seq<T>, b: seq<T>)
    ensures Sum(cost, a + b) == Sum(cost, a) + Sum(cost, b)
    decreases |b|
  {
    if b == [] {
      assert a + b == a;
    } else {
      SumAppended(cost, a, b[..|b| - 1]);
      assert (a + b)[..|a + b| - 1] == a + b[..|b| - 1];
    }
  }

  /** A total does not depend on the order of the items. */
  lemma {:induction false} SumPermuted<T(!new)>(cost: T -> nat, a: seq<T>, b: seq<T>)
    requires multiset(a) == multiset(b)
    ensures Sum(cost, a) == Sum(cost, b)
    decreases |a|
  {
    if a == [] {
      assert |multiset(b)| == 0;
    } else {
      var x := a[|a| - 1];
      assert a == a[..|a| - 1] + [x];
      assert x in multiset(b);
      var k :| 0 <= k < |b| && b[k] == x;
      var b' := b[..k] + b[k + 1..];
      assert b == b[..k] + [x] + b[k + 1..];
      assert multiset(a) == multiset(a[..|a| - 1]) + multiset{x};
      assert multiset(b) == multiset(b') + multiset{x};
      assert multiset(a[..|a| - 1]) == multiset(a) - multiset{x};
      SumPermuted(cost, a[..|a| - 1], b');
      SumAppended(cost, b[..k], b[k + 1..]);
      SumAppended(cost, b[..k], [x]);
      SumAppended(cost, b[..k] + [x], b[k + 1..]);
      assert [x][..0] == [];
      assert Sum(cost, [x]) == cost(x);
    }
  }

  lemma SumPrefix<T(!new)>(cost: T -> nat, items: seq<T>, i: nat)
    requires i < |items|
    ensures Sum(cost, items[..i + 1]) == Sum(cost, items[..i]) + cost(items[i]) <= Sum(cost, items)
  {
    assert items[..i + 1][..i] == items[..i];
    assert items == items[..i + 1] + items[i + 1..];
    SumAppended(cost, items[..i + 1], items[i + 1..]);
  }

  /** A cost per item on top of another cost. */
  lemma {:induction false} SumWithBase<T(!new)>(cost: T -> nat, extra: T -> nat, base: nat, items: seq<T>)
    requires forall x :: cost(x) == base + extra(x)
    ensures Sum(cost, items) == base * |items| + Sum(extra, items)
    decreases |items|
  {
    if items != [] {
      SumWithBase(cost, extra, base, items[..|items| - 1]);
      assert base * |items| == base * (|items| - 1) + base;
    }
  }

  lemma SumOfOne<T(!new)>(cost: T -> nat, x: T)
    ensures Sum(cost, [x]) == cost(x)
  {
    assert [x][..0] == [];
  }

  lemma {:induction false} SumMapped<A(!new), B(!new)>(f: A -> nat, a: seq<A>, g: B -> nat, b: seq<B>)
    requires |a| == |b| && forall i | 0 <= i < |a| :: f(a[i]) == g(b[i])
    ensures Sum(f, a) == Sum(g, b)
    decreases |a|
  {
    if a != [] {
      SumMapped(f, a[..|a| - 1], g, b[..|b| - 1]);
    }
  }

  lemma {:induction false} SumSplits<T(!new)>(f: T -> nat, base: nat, g: T -> nat, h: T -> nat, items: seq<T>)
    requires forall x :: f(x) == base + g(x) + h(x)
    ensures Sum(f, items) == base * |items| + Sum(g, items) + Sum(h, items)
    decreases |items|
  {
    if items != [] {
      SumSplits(f, base, g, h, items[..|items| - 1]);
      assert base * |items| == base * (|items| - 1) + base;
    }
  }

  lemma {:induction false} SumAtMost<T(!new)>(f: T -> nat, g: T -> nat, items: seq<T>)
    requires forall x :: f(x) <= g(x)
    ensures Sum(f, items) <= Sum(g, items)
    decreases |items|
  {
    if items != [] {
      SumAtMost(f, g, items[..|items| - 1]);
    }
  }

  lemma SumInserted<T(!new)>(cost: T -> nat, items: seq<T>, i: nat, x: T)
    requires i <= |items|
    ensures Sum(cost, items[..i] + [x] + items[i..]) == Sum(cost, items) + cost(x)
  {
    SumAppended(cost, items[..i] + [x], items[i..]);
    SumAppended(cost, items[..i], [x]);
    SumAppended(cost, items[..i], items[i..]);
    SumOfOne(cost, x);
    assert items == items[..i] + items[i..];
  }

  lemma SumUpdated<T(!new)>(cost: T -> nat, items: seq<T>, i: nat, x: T)
    requires i < |items|
    ensures Sum(cost, items[i := x]) + cost(items[i]) == Sum(cost, items) + cost(x)
  {
    var a, b := items[..i], items[i + 1..];
    assert items[i := x] == a + [x] + b && items == a + [items[i]] + b;
    SumAppended(cost, a + [x], b);
    SumAppended(cost, a, [x]);
    SumAppended(cost, a + [items[i]], b);
    SumAppended(cost, a, [items[i]]);
    SumOfOne(cost, x);
    SumOfOne(cost, items[i]);
  }

  lemma SumHead<T(!new)>(cost: T -> nat, items: seq<T>)
    requires items != []
    ensures Sum(cost, items) == cost(items[0]) + Sum(cost, items[1..])
  {
    assert items == [items[0]] + items[1..];
    SumAppended(cost, [items[0]], items[1..]);
    SumOfOne(cost, items[0]);
  }

  /** Costs that split item by item split in total. */
  lemma {:induction false} SumZipped<A(!new), B(!new), C(!new)>(f: A -> nat, a: seq<A>, g: B -> nat, b: seq<B>,
                                                                h: C -> nat, c: seq<C>)
    requires |a| == |b| == |c| && forall i | 0 <= i < |a| :: f(a[i]) == g(b[i]) + h(c[i])
    ensures Sum(f, a) == Sum(g, b) + Sum(h, c)
    decreases |a|
  {
    if a != [] {
      SumZipped(f, a[..|a| - 1], g, b[..|b| - 1], h, c[..|c| - 1]);
    }
  }
}
