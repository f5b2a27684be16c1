/** Counting with finite sets of indices. */
module FiniteSets {

  /** The indices below `n`. */
  ghost function Range(n: nat): (s: set<nat>)
    ensures forall v: nat :: v in s <==> v < n
    ensures |s| == n
  {
    if n == 0 then {} else Range(n - 1) + {n - 1}
  }

  lemma CardinalityGrows<T>(s: set<T>, t: set<T>)
    requires s <= t
    ensures |s| <= |t|
    ensures |s| == |t| ==> s == t
  {
    assert t == s + (t - s);
  }

  /** At most `n` indices lie below `n`, and `n` of them are all. */
  lemma BelowRange(n: nat, s: set<nat>)
    requires forall x | x in s :: x < n
    ensures |s| <= n
    ensures |s| == n ==> s == Range(n)
  {
    assert s <= Range(n);
    CardinalityGrows(s, Range(n));
  }

  /** `flags` is the membership table of `s`. */
  ghost predicate Marks(flags: seq<bool>, s: set<nat>)
  {
    && (forall v | v in s :: v < |flags|)
    && (forall v: nat | v < |flags| :: flags[v] <==> v in s)
  }

  lemma MarksAll(n: nat, flags: seq<bool>)
    requires |flags| == n && forall v | 0 <= v < n :: flags[v]
    ensures Marks(flags, Range(n))
  {
  }

  lemma MarksNone(flags: seq<bool>)
    requires forall v | 0 <= v < |flags| :: !flags[v]
    ensures Marks(flags, {})
  {
  }

  lemma MarkedIs(flags: seq<bool>, s: set<nat>, v: nat)
    requires Marks(flags, s) && v < |flags|
    ensures flags[v] <==> v in s
  {
  }

  lemma Unmark(flags: seq<bool>, s: set<nat>, v: nat)
    requires Marks(flags, s) && v in s
    ensures Marks(flags[v := false], s - {v})
  {
  }

  lemma Mark(flags: seq<bool>, s: set<nat>, v: nat)
    requires Marks(flags, s) && v < |flags|
    ensures Marks(flags[v := true], s + {v})
  {
  }
}
