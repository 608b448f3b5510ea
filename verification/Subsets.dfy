/**
 Consistency of subsets under a monotone oracle: what a minimal unsatisfiable
 and a maximal satisfiable subset are.
 */
module Subsets {
  import opened Common

  /** `bad(s)`: activating exactly the members of `s` is inconsistent. */
  type Oracle = set<nat> -> bool

  ghost predicate Monotone(bad: Oracle) {
    forall a, b | a <= b && bad(a) :: bad(b)
  }

  /** The indices below `n`. */
  function Below(n: nat): (r: set<nat>)
    ensures forall i: nat :: i in r <==> i < n
  {
    if n == 0 then {} else Below(n - 1) + {n - 1}
  }

  ghost predicate IsMus(bad: Oracle, s: set<nat>) {
    bad(s) && forall t | t < s :: !bad(t)
  }

  ghost predicate IsMss(bad: Oracle, universe: set<nat>, s: set<nat>) {
    s <= universe && !bad(s) && forall t | s < t && t <= universe :: bad(t)
  }

  /** Dropping any single member of `r` restores consistency with `base`. */
  ghost predicate Irreducible(bad: Oracle, base: set<nat>, r: set<nat>) {
    forall x | x in r :: !bad(base + (r - {x}))
  }

  lemma IrreducibleIsMus(bad: Oracle, s: set<nat>)
    requires Monotone(bad)
    ensures IsMus(bad, s) <==> bad(s) && Irreducible(bad, {}, s)
  {
    if bad(s) && Irreducible(bad, {}, s) {
      forall t | t < s ensures !bad(t) {
        var x :| x in s && x !in t;
        assert t <= {} + (s - {x});
      }
    }
    if IsMus(bad, s) {
      forall x | x in s ensures !bad({} + (s - {x})) {
        assert {} + (s - {x}) < s;
      }
    }
  }

  lemma SaturatedIsMss(bad: Oracle, universe: set<nat>, s: set<nat>)
    requires Monotone(bad) && s <= universe && !bad(s)
    requires forall i | i in universe && i !in s :: bad(s + {i})
    ensures IsMss(bad, universe, s)
  {
    forall t | s < t && t <= universe ensures bad(t) {
      var i :| i in t && i !in s;
      assert s + {i} <= t;
    }
  }

  // --- sorted, duplicate-free index lists ------------------------------------

  ghost predicate Increasing(s: seq<nat>) {
    forall i, j | 0 <= i < j < |s| :: s[i] < s[j]
  }

  /** The members of `s` below `n` in increasing order: sorted and deduplicated. */
  function Ascending(s: set<nat>, n: nat): (r: seq<nat>)
    ensures forall x :: x in r <==> x in s && x < n
    ensures Increasing(r)
  {
    if n == 0 then []
    else
      var r := Ascending(s, n - 1);
      assert forall j | 0 <= j < |r| :: r[j] in r;
      r + (if n - 1 in s then [n - 1] else [])
  }

  lemma IncreasingSize(s: seq<nat>)
    requires Increasing(s)
    ensures |Elems(s)| == |s|
  {
    if s != [] {
      var last := s[|s| - 1];
      assert Elems(s) == Elems(s[..|s| - 1]) + {last};
      IncreasingSize(s[..|s| - 1]);
    }
  }
}
