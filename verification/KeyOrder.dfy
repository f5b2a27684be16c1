/** Ordered maps and sets iterate in key order: numbers ascending, artifact keys by kind and generation. */
module KeyOrder {
  import opened Wrappers
  import opened Jobs
  import Ascending

  ghost function Below(keys: set<nat>, k: nat): set<nat>
  {
    set x | x in keys && x < k
  }

  /** How many keys come before `k` in key order. */
  ghost function Rank(keys: set<nat>, k: nat): nat
  {
    |Below(keys, k)|
  }

  ghost predicate InOrder(s: seq<nat>, keys: set<nat>)
  {
    (forall i, j | 0 <= i < j < |s| :: s[i] < s[j]) && forall k :: k in s <==> k in keys
  }

  method OrderedKeys(keys: set<nat>) returns (s: seq<nat>)
    ensures InOrder(s, keys)
  {
    s := [];
    var rest := keys;
    while rest != {}
      invariant rest <= keys && InOrder(s, keys - rest)
      invariant forall a, b | a in s && b in rest :: a < b
    {
      var least := LeastKey(rest);
      assert forall i | 0 <= i < |s| :: s[i] in s;
      s, rest := s + [least], rest - {least};
    }
    assert keys - rest == keys;
  }

  method LeastKey(keys: set<nat>) returns (least: nat)
    requires keys != {}
    ensures least in keys && forall k | k in keys :: least <= k
  {
    least :| least in keys;
    var rest := keys - {least};
    while rest != {}
      invariant rest <= keys && least in keys && forall k | k in keys && k !in rest :: least <= k
    {
      var k :| k in rest;
      if k < least {
        least := k;
      }
      rest := rest - {k};
    }
  }

  lemma {:induction false} RankIsIndex(s: seq<nat>, keys: set<nat>, i: nat)
    requires InOrder(s, keys) && i < |s|
    ensures Rank(keys, s[i]) == i
  {
    var below := Below(keys, s[i]);
    if i == 0 {
      forall x | x in keys
        ensures s[0] <= x
      {
        var k :| 0 <= k < |s| && s[k] == x;
      }
      assert below == {};
    } else {
      RankIsIndex(s, keys, i - 1);
      var before := Below(keys, s[i - 1]);
      forall x | x in below
        ensures x in before || x == s[i - 1]
      {
        assert x in s;
        var k :| 0 <= k < |s| && s[k] == x;
      }
      assert below == before + {s[i - 1]};
    }
  }

  lemma {:induction false} OrderedSize(s: seq<nat>, keys: set<nat>)
    requires InOrder(s, keys)
    ensures |s| == |keys|
  {
    if s == [] {
      assert forall k | k in keys :: k in s;
      assert keys == {};
    } else {
      var last := s[|s| - 1];
      OrderedSize(s[..|s| - 1], keys - {last});
      assert last in s;
    }
  }

  /** Checkpoints come before results, older generations before newer ones. */
  function OrderKey(k: ArtifactKey): Ascending.Key
  {
    [if k.kind.CheckpointArtifact? then 1 else 2, k.generation]
  }

  function FromOrderKey(key: Ascending.Key): ArtifactKey
    requires |key| == 2
  {
    ArtifactKey(if key[0] == 1 then CheckpointArtifact else ResultArtifact, key[1])
  }

  ghost predicate ArtifactsInOrder(s: seq<ArtifactKey>, keys: set<ArtifactKey>)
  {
    && (forall i, j | 0 <= i < j < |s| :: Ascending.Less(OrderKey(s[i]), OrderKey(s[j])))
    && (forall k :: k in s <==> k in keys)
  }

  method OrderedArtifacts(keys: set<ArtifactKey>) returns (s: seq<ArtifactKey>)
    ensures ArtifactsInOrder(s, keys)
  {
    var order := Ascending.Ascend(set k | k in keys :: OrderKey(k));
    forall i | 0 <= i < |order|
      ensures |order[i]| == 2 && FromOrderKey(order[i]) in keys && OrderKey(FromOrderKey(order[i])) == order[i]
    {
      assert order[i] in order;
    }
    s := seq(|order|, i requires 0 <= i < |order| => FromOrderKey(order[i]));
    forall k | k in keys
      ensures k in s
    {
      assert OrderKey(k) in order;
      var i :| 0 <= i < |order| && order[i] == OrderKey(k);
      assert s[i] == k;
    }
  }

  // ----- the same orders as functions

  lemma {:induction false} LeastExists(keys: set<nat>)
    requires keys != {}
    ensures exists k :: k in keys && forall x | x in keys :: k <= x
  {
    var k :| k in keys;
    var rest := keys - {k};
    if rest == {} {
      assert keys == {k};
    } else {
      LeastExists(rest);
      var m :| m in rest && forall x | x in rest :: m <= x;
      var least := if m < k then m else k;
      forall x | x in keys
        ensures least <= x
      {
        assert x == k || x in rest;
      }
      assert least in keys;
    }
  }

  /** The numbers of a set in ascending order. */
  ghost function InOrderOf(keys: set<nat>): (s: seq<nat>)
    ensures InOrder(s, keys)
  {
    if keys == {} then []
    else
      LeastExists(keys);
      var k :| k in keys && forall x | x in keys :: k <= x;
      Prepended(k, InOrderOf(keys - {k}), keys);
      [k] + InOrderOf(keys - {k})
  }

  lemma Prepended(k: nat, rest: seq<nat>, keys: set<nat>)
    requires k in keys && (forall x | x in keys :: k <= x) && InOrder(rest, keys - {k})
    ensures InOrder([k] + rest, keys)
  {
    forall j | 0 <= j < |rest|
      ensures k < rest[j]
    {
      assert rest[j] in rest;
    }
    forall x
      ensures x in [k] + rest <==> x in keys
    {
      assert x in [k] + rest <==> x == k || x in rest;
    }
  }

  /** The artifact keys of a set: checkpoints by generation, then results by generation. */
  ghost function ArtifactsInOrderOf(keys: set<ArtifactKey>): (s: seq<ArtifactKey>)
    ensures ArtifactsInOrder(s, keys)
  {
    var c := InOrderOf(Generations(keys, CheckpointArtifact));
    var r := InOrderOf(Generations(keys, ResultArtifact));
    var s := seq(|c| + |r|, i requires 0 <= i < |c| + |r| =>
      if i < |c| then ArtifactKey(CheckpointArtifact, c[i]) else ArtifactKey(ResultArtifact, r[i - |c|]));
    KindsInOrder(keys, c, r, s);
    s
  }

  ghost function Generations(keys: set<ArtifactKey>, kind: ArtifactKind): set<nat>
  {
    set k | k in keys && k.kind == kind :: k.generation
  }

  lemma KindsInOrder(keys: set<ArtifactKey>, c: seq<nat>, r: seq<nat>, s: seq<ArtifactKey>)
    requires InOrder(c, Generations(keys, CheckpointArtifact)) && InOrder(r, Generations(keys, ResultArtifact))
    requires |s| == |c| + |r|
    requires forall i | 0 <= i < |s| ::
        s[i] == if i < |c| then ArtifactKey(CheckpointArtifact, c[i]) else ArtifactKey(ResultArtifact, r[i - |c|])
    ensures ArtifactsInOrder(s, keys)
  {
    forall i | 0 <= i < |s|
      ensures s[i] in keys
    {
      if i < |c| {
        assert c[i] in c;
      } else {
        assert r[i - |c|] in r;
      }
    }
    forall k | k in keys
      ensures k in s
    {
      assert k.generation in Generations(keys, k.kind);
      if k.kind.CheckpointArtifact? {
        var i :| 0 <= i < |c| && c[i] == k.generation;
        assert s[i] == k;
      } else {
        assert k.generation in r;
        var i :| 0 <= i < |r| && r[i] == k.generation;
        assert s[|c| + i] == k;
      }
    }
    forall i, j | 0 <= i < j < |s|
      ensures Ascending.Less(OrderKey(s[i]), OrderKey(s[j]))
    {
    }
  }

  // ----- building a map from its entries

  datatype Pair<K, V> = Pair(key: K, value: V)

  /** The map with these entries; a key given twice is refused. */
  function Collect<K(==), V>(pairs: seq<Pair<K, V>>): (m: Option<map<K, V>>)
  {
    if pairs == [] then Some(map[])
    else
      var last := pairs[|pairs| - 1];
      var rest :- Collect(pairs[..|pairs| - 1]);
      if last.key in rest then None else Some(rest[last.key := last.value])
  }

  ghost predicate Entries<K(!new), V>(pairs: seq<Pair<K, V>>, m: map<K, V>)
  {
    && (forall i, j | 0 <= i < j < |pairs| :: pairs[i].key != pairs[j].key)
    && (forall i | 0 <= i < |pairs| :: pairs[i].key in m && m[pairs[i].key] == pairs[i].value)
    && (forall k | k in m :: exists i :: 0 <= i < |pairs| && pairs[i].key == k)
  }

  lemma FrontEntries<K(!new), V>(pairs: seq<Pair<K, V>>, m: map<K, V>)
    requires Entries(pairs, m) && pairs != []
    ensures Entries(pairs[..|pairs| - 1], m - {pairs[|pairs| - 1].key})
    ensures (m - {pairs[|pairs| - 1].key})[pairs[|pairs| - 1].key := pairs[|pairs| - 1].value] == m
  {
    var n := |pairs| - 1;
    var less := m - {pairs[n].key};
    forall k | k in less
      ensures exists i :: 0 <= i < n && pairs[..n][i].key == k
    {
      var i :| 0 <= i < |pairs| && pairs[i].key == k;
      assert pairs[..n][i].key == k;
    }
  }

  lemma NoEntries<K(!new), V>(m: map<K, V>)
    requires Entries([], m)
    ensures m == map[]
  {
    assert m.Keys == {};
  }

  /** Collecting the entries of a map gives the map. */
  lemma {:induction false} CollectBack<K(!new), V>(pairs: seq<Pair<K, V>>, m: map<K, V>)
    requires Entries(pairs, m)
    ensures Collect(pairs) == Some(m)
    decreases |pairs|
  {
    hide Entries;
    if pairs == [] {
      NoEntries(m);
    } else {
      FrontEntries(pairs, m);
      CollectBack(pairs[..|pairs| - 1], m - {pairs[|pairs| - 1].key});
    }
  }
}
