/** Whether the delivered partitions cover every shard of the snapshot exactly once. */
module Partitions {
  import opened Wrappers
  import opened FiniteSets
  import opened Projection
  import opened Ascending

  /** The partition was read at the fence the snapshot records for its shard, and lies inside its own count. */
  ghost predicate Fits(p: PartitionProvenance, shards: map<nat, ShardFence>)
  {
    && p.shardId in shards
    && p.placementEpoch == shards[p.shardId].placementEpoch
    && p.backendGeneration == shards[p.shardId].backendGeneration
    && p.appliedIndex == shards[p.shardId].appliedIndex
    && p.partitionIndex < p.partitionCount
  }

  ghost predicate HasPartition(parts: multiset<PartitionProvenance>, shard: nat, index: nat)
  {
    exists p :: p in parts && p.shardId == shard && p.partitionIndex == index
  }

  /** Every delivered partition fits, none is delivered twice, and each shard has all of its partitions. */
  ghost predicate Complete(parts: multiset<PartitionProvenance>, shards: map<nat, ShardFence>)
  {
    && (forall p | p in parts :: Fits(p, shards) && parts[p] == 1)
    && (forall p, q | p in parts && q in parts && p.shardId == q.shardId :: p.partitionCount == q.partitionCount)
    && (forall s | s in shards :: HasPartition(parts, s, 0))
    && (forall p, i: nat | p in parts && i < p.partitionCount :: HasPartition(parts, p.shardId, i))
  }

  function ProvenanceKey(p: PartitionProvenance): (k: Key)
  {
    [p.shardId, p.placementEpoch, p.backendGeneration, p.appliedIndex, p.partitionIndex, p.partitionCount]
  }

  function FromKey(k: Key): (p: PartitionProvenance)
  {
    if |k| == 6 then PartitionProvenance(k[0], k[1], k[2], k[3], k[4], k[5]) else PartitionProvenance(0, 0, 0, 0, 0, 0)
  }

  /** Per shard: its partition count and the indices seen. */
  type Seen = map<nat, (nat, set<nat>)>

  /** `seen` summarises partitions that fit and do not repeat. */
  ghost predicate Summarises(seen: Seen, parts: multiset<PartitionProvenance>, shards: map<nat, ShardFence>)
  {
    && (forall p | p in parts :: Counted(seen, parts, shards, p))
    && (forall s | s in seen :: Backed(seen, parts, shards, s))
  }

  ghost predicate Counted(seen: Seen, parts: multiset<PartitionProvenance>, shards: map<nat, ShardFence>,
                          p: PartitionProvenance)
  {
    Fits(p, shards) && parts[p] == 1 && p.shardId in seen && seen[p.shardId].0 == p.partitionCount
        && p.partitionIndex in seen[p.shardId].1
  }

  ghost predicate Backed(seen: Seen, parts: multiset<PartitionProvenance>, shards: map<nat, ShardFence>, s: nat)
    requires s in seen
  {
    s in shards && seen[s].1 != {} && forall i | i in seen[s].1 :: i < seen[s].0 && HasPartition(parts, s, i)
  }

  /** What the scan of one more partition finds. */
  lemma SummariseNext(seen: Seen, parts: multiset<PartitionProvenance>, shards: map<nat, ShardFence>,
                      p: PartitionProvenance)
    requires Summarises(seen, parts, shards)
    requires Fits(p, shards)
    requires p.shardId in seen ==> seen[p.shardId].0 == p.partitionCount && p.partitionIndex !in seen[p.shardId].1
    ensures var indices := if p.shardId in seen then seen[p.shardId].1 else {};
            Summarises(seen[p.shardId := (p.partitionCount, indices + {p.partitionIndex})], parts + multiset{p}, shards)
  {
    var indices := if p.shardId in seen then seen[p.shardId].1 else {};
    var seen', parts' := seen[p.shardId := (p.partitionCount, indices + {p.partitionIndex})], parts + multiset{p};
    forall q | q in parts'
      ensures Counted(seen', parts', shards, q)
    {
      if q in parts {
        assert Counted(seen, parts, shards, q);
      }
    }
    forall s | s in seen'
      ensures Backed(seen', parts', shards, s)
    {
      BackedNext(seen, parts, shards, p, seen', s);
    }
  }

  lemma BackedNext(seen: Seen, parts: multiset<PartitionProvenance>, shards: map<nat, ShardFence>,
                   p: PartitionProvenance, seen': Seen, s: nat)
    requires s in seen ==> Backed(seen, parts, shards, s)
    requires Fits(p, shards) && s in seen' && (p.shardId in seen ==> seen[p.shardId].0 == p.partitionCount)
    requires seen'
         == seen[p.shardId := (p.partitionCount,
             (if p.shardId in seen then seen[p.shardId].1 else {}) + {p.partitionIndex})]
    ensures Backed(seen', parts + multiset{p}, shards, s)
  {
    forall i | i in seen'[s].1
      ensures i < seen'[s].0 && HasPartition(parts + multiset{p}, s, i)
    {
      if s == p.shardId && i == p.partitionIndex {
        assert p in parts + multiset{p};
      } else {
        var q :| q in parts && q.shardId == s && q.partitionIndex == i;
        assert q in parts + multiset{p};
      }
    }
  }

  /** A partition that cannot be added to the summary spoils completeness, whatever else is delivered. */
  lemma Spoils(seen: Seen, parts: multiset<PartitionProvenance>, shards: map<nat, ShardFence>, p: PartitionProvenance,
               all: multiset<PartitionProvenance>)
    requires Summarises(seen, parts, shards) && parts + multiset{p} <= all
    requires !Fits(p, shards)
        || (p.shardId in seen && (seen[p.shardId].0 != p.partitionCount || p.partitionIndex in seen[p.shardId].1))
    ensures !Complete(all, shards)
  {
    assert p in all;
    if Fits(p, shards) {
      assert Backed(seen, parts, shards, p.shardId);
      if seen[p.shardId].0 != p.partitionCount {
        var i :| i in seen[p.shardId].1;
        var q :| q in parts && q.shardId == p.shardId && q.partitionIndex == i;
        assert q in all;
      } else {
        var q :| q in parts && q.shardId == p.shardId && q.partitionIndex == p.partitionIndex;
        assert q in all && q == p && all[p] >= 2;
      }
    }
  }

  /** Scans the partitions, then checks that each shard is covered. */
  method Validate(parts: seq<PartitionProvenance>, shards: map<nat, ShardFence>)
    returns (r: Result<seq<PartitionProvenance>, ProjectionError>)
    ensures r.Ok? <==> Complete(multiset(parts), shards)
    ensures r.Ok? ==> Ordered(r.value, multiset(parts))
  {
    hide Complete, Summarises;
    var seen: Seen := map[];
    var keys: set<Key> := {};
    var i := 0;
    SummariseNone(shards);
    while i < |parts|
      invariant 0 <= i <= |parts| && Summarises(seen, multiset(parts[..i]), shards)
      invariant forall k :: k in keys <==> exists p :: p in parts[..i] && ProvenanceKey(p) == k
    {
      var p := parts[i];
      assert parts[..i + 1] == parts[..i] + [p];
      assert multiset(parts[..i])
          + multiset{p} <= multiset(parts) by { assert parts == parts[..i + 1] + parts[i + 1..]; }
      if p.shardId !in shards
         || p.placementEpoch != shards[p.shardId].placementEpoch
         || p.backendGeneration != shards[p.shardId].backendGeneration
         || p.appliedIndex != shards[p.shardId].appliedIndex {
        Spoils(seen, multiset(parts[..i]), shards, p, multiset(parts));
        return Err(PartitionFenceMismatch);
      }
      if p.partitionCount == 0 || p.partitionIndex >= p.partitionCount {
        Spoils(seen, multiset(parts[..i]), shards, p, multiset(parts));
        return Err(PartitionGap);
      }
      var entry: (nat, set<nat>) := if p.shardId in seen then seen[p.shardId] else (p.partitionCount, {});
      if entry.0 != p.partitionCount {
        Spoils(seen, multiset(parts[..i]), shards, p, multiset(parts));
        return Err(PartitionGap);
      }
      if p.partitionIndex in entry.1 {
        Spoils(seen, multiset(parts[..i]), shards, p, multiset(parts));
        return Err(DuplicatePartition);
      }
      SummariseNext(seen, multiset(parts[..i]), shards, p);
      seen := seen[p.shardId := (entry.0, entry.1 + {p.partitionIndex})];
      keys := keys + {ProvenanceKey(p)};
      i := i + 1;
    }
    assert parts[..i] == parts;
    var covered := Covered(seen, multiset(parts), shards);
    if !covered {
      return Err(PartitionGap);
    }
    var ordered := Ascend(keys);
    r := Ok(seq(|ordered|, k requires 0 <= k < |ordered| => FromKey(ordered[k])));
    OrderedKeys(parts, keys, ordered, r.value);
  }

  /** `ordered` lists the distinct partitions in key order. */
  ghost predicate Ordered(ordered: seq<PartitionProvenance>, parts: multiset<PartitionProvenance>)
  {
    && (forall i, j | 0 <= i < j < |ordered| :: Less(ProvenanceKey(ordered[i]), ProvenanceKey(ordered[j])))
    && (forall p :: p in ordered <==> p in parts)
  }

  lemma OrderedKeys(parts: seq<PartitionProvenance>, keys: set<Key>, ordered: seq<Key>, r: seq<PartitionProvenance>)
    requires forall k :: k in keys <==> exists p :: p in parts && ProvenanceKey(p) == k
    requires Lists(ordered, keys) && |r| == |ordered| && forall k | 0 <= k < |ordered| :: r[k] == FromKey(ordered[k])
    ensures Ordered(r, multiset(parts))
  {
    forall k | 0 <= k < |r|
      ensures r[k] in parts && ProvenanceKey(r[k]) == ordered[k]
    {
      assert ordered[k] in keys;
    }
    forall p | p in parts
      ensures p in r
    {
      assert ProvenanceKey(p) in keys;
      var k :| 0 <= k < |ordered| && ordered[k] == ProvenanceKey(p);
      assert r[k] == p;
    }
  }

  lemma SummariseNone(shards: map<nat, ShardFence>)
    ensures Summarises(map[], multiset([]), shards)
  {
  }

  /** Every shard has been seen, with as many indices as it counts and each of them below the count. */
  method Covered(seen: Seen, ghost parts: multiset<PartitionProvenance>, shards: map<nat, ShardFence>)
    returns (covered: bool)
    requires Summarises(seen, parts, shards)
    ensures covered <==> Complete(parts, shards)
  {
    hide Summarises, Complete;
    var rest := shards.Keys;
    while rest != {}
      invariant rest <= shards.Keys && forall s | s in shards.Keys - rest :: Full(seen, s)
    {
      var s :| s in rest;
      if s !in seen || |seen[s].1| != seen[s].0 {
        Uncovered(seen, parts, shards, s);
        return false;
      }
      var index := 0;
      while index < seen[s].0
        invariant 0 <= index <= seen[s].0 && forall i: nat | i < index :: i in seen[s].1
      {
        if index !in seen[s].1 {
          Uncovered(seen, parts, shards, s);
          return false;
        }
        index := index + 1;
      }
      rest := rest - {s};
    }
    AllCovered(seen, parts, shards);
    return true;
  }

  ghost predicate Full(seen: Seen, s: nat)
  {
    s in seen && |seen[s].1| == seen[s].0 && forall i: nat | i < seen[s].0 :: i in seen[s].1
  }

  lemma AllCovered(seen: Seen, parts: multiset<PartitionProvenance>, shards: map<nat, ShardFence>)
    requires Summarises(seen, parts, shards) && forall s | s in shards :: Full(seen, s)
    ensures Complete(parts, shards)
  {
    forall s | s in shards
      ensures HasPartition(parts, s, 0)
    {
      assert Full(seen, s) && Backed(seen, parts, shards, s);
      assert 0 in seen[s].1;
    }
    forall p, i: nat | p in parts && i < p.partitionCount
      ensures HasPartition(parts, p.shardId, i)
    {
      assert Counted(seen, parts, shards, p) && Full(seen, p.shardId) && Backed(seen, parts, shards, p.shardId);
    }
  }

  lemma Uncovered(seen: Seen, parts: multiset<PartitionProvenance>, shards: map<nat, ShardFence>, s: nat)
    requires Summarises(seen, parts, shards) && s in shards && !Full(seen, s)
    ensures !Complete(parts, shards)
  {
    if Complete(parts, shards) {
      CompleteIsFull(seen, parts, shards, s);
    }
  }

  lemma CompleteIsFull(seen: Seen, parts: multiset<PartitionProvenance>, shards: map<nat, ShardFence>, s: nat)
    requires Summarises(seen, parts, shards) && s in shards && Complete(parts, shards)
    ensures Full(seen, s)
  {
    assert HasPartition(parts, s, 0);
    var p :| p in parts && p.shardId == s && p.partitionIndex == 0;
    assert Counted(seen, parts, shards, p);
    forall i: nat | i < seen[s].0
      ensures i in seen[s].1
    {
      assert HasPartition(parts, s, i);
      var q :| q in parts && q.shardId == s && q.partitionIndex == i;
      assert Counted(seen, parts, shards, q);
    }
    assert Backed(seen, parts, shards, s);
    assert seen[s].1 == Range(seen[s].0);
  }
}
