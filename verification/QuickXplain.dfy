/** QuickXplain minimisation (src/mus.rs, `quickxplain`) as a function of the oracle. */
module QuickXplains {
  import opened Common
  import opened Subsets

  /** What an uninterrupted call returns; `grew` says whether `base` was just extended. */
  function QuickXplain(bad: Oracle, base: set<nat>, grew: bool, candidates: seq<nat>): seq<nat>
    decreases |candidates|
  {
    if candidates == [] then []
    else if grew && bad(base) then []
    else if |candidates| == 1 then candidates
    else
      var mid := |candidates| / 2;
      var c1, c2 := candidates[..mid], candidates[mid..];
      var d2 := QuickXplain(bad, base + Elems(c1), c1 != [], c2);
      var d1 := QuickXplain(bad, base + Elems(d2), d2 != [], c1);
      d1 + d2
  }

  /** The result explains: it comes from the candidates, suffices, and has no removable member. */
  ghost predicate Explains(bad: Oracle, base: set<nat>, candidates: seq<nat>, r: seq<nat>) {
    && Elems(r) <= Elems(candidates)
    && Distinct(r)
    && bad(base + Elems(r))
    && Irreducible(bad, base, Elems(r))
  }

  /** The set-level step: minimise `s2` over `s1`, then `s1` over what was found. */
  lemma Combine(bad: Oracle, base: set<nat>, s1: set<nat>, e1: set<nat>, e2: set<nat>)
    requires Monotone(bad) && e1 <= s1
    requires bad(base + s1 + e2) && Irreducible(bad, base + s1, e2)
    requires bad(base + e2 + e1) && Irreducible(bad, base + e2, e1)
    ensures e1 !! e2
    ensures bad(base + (e1 + e2)) && Irreducible(bad, base, e1 + e2)
  {
    forall x | x in e2 ensures x !in s1 {
      assert x in s1 ==> base + s1 + (e2 - {x}) == base + s1 + e2;
    }
    assert base + e2 + e1 == base + (e1 + e2);
    forall x | x in e1 + e2 ensures !bad(base + ((e1 + e2) - {x})) {
      if x in e1 {
        assert base + ((e1 + e2) - {x}) == base + e2 + (e1 - {x});
      } else {
        assert base + ((e1 + e2) - {x}) <= base + s1 + (e2 - {x});
      }
    }
  }

  lemma JoinDistinct(d1: seq<nat>, d2: seq<nat>)
    requires Distinct(d1) && Distinct(d2) && Elems(d1) !! Elems(d2)
    ensures Distinct(d1 + d2) && Elems(d1 + d2) == Elems(d1) + Elems(d2)
  {
    assert forall i | 0 <= i < |d1| :: d1[i] in Elems(d1);
    assert forall i | 0 <= i < |d2| :: d2[i] in Elems(d2);
  }

  /**
   QuickXplain is correct whenever the background and candidates are jointly
   inconsistent and a background that was not just grown is consistent.
   */
  lemma {:induction false} QuickXplainExplains(bad: Oracle, base: set<nat>, grew: bool, candidates: seq<nat>)
    requires Monotone(bad) && bad(base + Elems(candidates))
    requires grew || !bad(base)
    ensures Explains(bad, base, candidates, QuickXplain(bad, base, grew, candidates))
    decreases |candidates|
  {
    if candidates == [] || (grew && bad(base)) {
      assert base + Elems<nat>([]) == base;
      assert candidates == [] ==> base + Elems(candidates) == base;
    } else if |candidates| == 1 {
      assert Elems(candidates) == {candidates[0]};
      assert base + (Elems(candidates) - {candidates[0]}) == base;
    } else {
      var mid := |candidates| / 2;
      var c1, c2 := candidates[..mid], candidates[mid..];
      assert c1 + c2 == candidates;
      assert base + Elems(c1) + Elems(c2) == base + Elems(candidates);
      QuickXplainExplains(bad, base + Elems(c1), true, c2);
      var d2 := QuickXplain(bad, base + Elems(c1), true, c2);
      assert base + Elems(d2) + Elems(c1) == base + Elems(c1) + Elems(d2);
      assert d2 == [] ==> base + Elems(d2) == base;
      QuickXplainExplains(bad, base + Elems(d2), d2 != [], c1);
      var d1 := QuickXplain(bad, base + Elems(d2), d2 != [], c1);
      Combine(bad, base, Elems(c1), Elems(d1), Elems(d2));
      JoinDistinct(d1, d2);
    }
  }

  /** The result keeps the order of the candidates. */
  lemma {:induction false} QuickXplainKeepsOrder(bad: Oracle, base: set<nat>, grew: bool, candidates: seq<nat>)
    requires Increasing(candidates)
    ensures
      var r := QuickXplain(bad, base, grew, candidates);
      Increasing(r) && forall x | x in r :: x in candidates
    decreases |candidates|
  {
    if |candidates| > 1 && !(grew && bad(base)) {
      var mid := |candidates| / 2;
      var c1, c2 := candidates[..mid], candidates[mid..];
      QuickXplainKeepsOrder(bad, base + Elems(c1), true, c2);
      var d2 := QuickXplain(bad, base + Elems(c1), true, c2);
      QuickXplainKeepsOrder(bad, base + Elems(d2), d2 != [], c1);
      var d1 := QuickXplain(bad, base + Elems(d2), d2 != [], c1);
      forall i, j | 0 <= i < |d1| && 0 <= j < |d2| ensures d1[i] < d2[j] {
        assert d1[i] in c1 && d2[j] in c2;
      }
    }
  }

  /** An inconsistent background that was not just grown is never tested: the first candidate is blamed. */
  lemma {:induction false} UntestedBackgroundBlamesFirst(bad: Oracle, base: set<nat>, candidates: seq<nat>)
    requires Monotone(bad) && bad(base) && candidates != []
    ensures QuickXplain(bad, base, false, candidates) == [candidates[0]]
    decreases |candidates|
  {
    if |candidates| > 1 {
      var c1 := candidates[..|candidates| / 2];
      assert base <= base + Elems(c1);
      assert base + Elems<nat>([]) == base;
      UntestedBackgroundBlamesFirst(bad, base, c1);
    }
  }

  /**
   Minimising a non-empty inconsistent candidate set over the empty, untested
   background yields a MUS exactly when the root constraints are consistent.
   */
  lemma MinimalIffRootConsistent(bad: Oracle, candidates: seq<nat>)
    requires Monotone(bad) && candidates != [] && bad(Elems(candidates))
    ensures IsMus(bad, Elems(QuickXplain(bad, {}, false, candidates))) <==> !bad({})
  {
    var r := QuickXplain(bad, {}, false, candidates);
    assert {} + Elems(candidates) == Elems(candidates);
    if bad({}) {
      UntestedBackgroundBlamesFirst(bad, {}, candidates);
      assert candidates[0] in Elems(r);
      assert {} < Elems(r);
    } else {
      QuickXplainExplains(bad, {}, false, candidates);
      assert {} + Elems(r) == Elems(r);
      IrreducibleIsMus(bad, Elems(r));
    }
  }
}
