/** Ordered maps and sets iterate in key order; keys are tuples of numbers compared lexicographically. */
module Ascending {

  type Key = seq<nat>

  predicate Less(a: Key, b: Key)
  {
    if b == [] then false
    else if a == [] then true
    else a[0] < b[0] || (a[0] == b[0] && Less(a[1..], b[1..]))
  }

  lemma {:induction false} LessIsTotal(a: Key, b: Key)
    ensures Less(a, b) || a == b || Less(b, a)
    ensures !(Less(a, b) && Less(b, a))
    ensures !Less(a, a)
    decreases |a|
  {
    if a != [] {
      LessIsTotal(a[1..], a[1..]);
      if b != [] {
        LessIsTotal(a[1..], b[1..]);
        if a[0] == b[0] && a[1..] == b[1..] {
          assert a == [a[0]] + a[1..] == b;
        }
      }
    }
  }

  lemma {:induction false} LessIsTransitive(a: Key, b: Key, c: Key)
    requires Less(a, b) && Less(b, c)
    ensures Less(a, c)
  {
    if a != [] && a[0] == b[0] == c[0] {
      LessIsTransitive(a[1..], b[1..], c[1..]);
    }
  }

  ghost predicate Sorted(s: seq<Key>)
  {
    forall i, j | 0 <= i < j < |s| :: Less(s[i], s[j])
  }

  /** `s` lists `keys` in ascending order. */
  ghost predicate Lists(s: seq<Key>, keys: set<Key>)
  {
    Sorted(s) && forall k :: k in s <==> k in keys
  }

  /** There is only one ascending list of a set. */
  lemma {:induction false} ListIsUnique(s: seq<Key>, t: seq<Key>, keys: set<Key>)
    requires Lists(s, keys) && Lists(t, keys)
    ensures s == t
    decreases |s|
  {
    assert s != [] ==> s[0] in t;
    assert t != [] ==> t[0] in s;
    if s != [] {
      LessIsTotal(s[0], t[0]);
      assert s[0] == t[0];
      TailLists(s, keys);
      TailLists(t, keys);
      ListIsUnique(s[1..], t[1..], keys - {s[0]});
    }
  }

  lemma TailLists(s: seq<Key>, keys: set<Key>)
    requires Lists(s, keys) && s != []
    ensures Lists(s[1..], keys - {s[0]})
  {
    forall k
      ensures k in s[1..] <==> k in keys - {s[0]}
    {
      if k in s[1..] {
        var i :| 0 <= i < |s| - 1 && s[1..][i] == k;
        LessIsTotal(s[0], s[i + 1]);
      }
    }
  }

  lemma {:induction false} ListSize(s: seq<Key>, keys: set<Key>)
    requires Lists(s, keys)
    ensures |s| == |keys|
  {
    if s == [] {
      if k :| k in keys { assert k in s; }
    } else {
      TailLists(s, keys);
      ListSize(s[1..], keys - {s[0]});
      assert s[0] in keys;
    }
  }

  method Least(keys: set<Key>) returns (least: Key)
    requires keys != {}
    ensures least in keys && forall k | k in keys && k != least :: Less(least, k)
  {
    least :| least in keys;
    var rest := keys - {least};
    while rest != {}
      invariant rest <= keys && least in keys
      invariant forall k | k in keys && k !in rest && k != least :: Less(least, k)
    {
      var k :| k in rest;
      ghost var before := least;
      LessIsTotal(k, least);
      if Less(k, least) {
        forall x | x in keys && x !in rest && x != least
          ensures Less(k, x)
        {
          LessIsTransitive(k, least, x);
        }
        least := k;
      }
      rest := rest - {k};
    }
  }

  /** The keys in iteration order. */
  method Ascend(keys: set<Key>) returns (s: seq<Key>)
    ensures Lists(s, keys)
  {
    s := [];
    var rest := keys;
    while rest != {}
      invariant rest <= keys && Lists(s, keys - rest)
      invariant forall a, b | a in s && b in rest :: Less(a, b)
    {
      var least := Least(rest);
      forall i, j | 0 <= i < j < |s + [least]|
        ensures Less((s + [least])[i], (s + [least])[j])
      {
        if j == |s| { assert s[i] in s; }
      }
      s := s + [least];
      rest := rest - {least};
    }
    assert keys - rest == keys;
  }
}
