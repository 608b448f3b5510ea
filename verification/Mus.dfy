/**
 Constraint-level MUS extraction and MARCO enumeration (src/mus.rs). The
 learning engine is an oracle over assumption cubes that may be interrupted at
 any query and may return any core it likes within its cube.
 */
module Mus {
  import opened Common
  import opened Subsets
  import opened QuickXplains

  type Lit = nat

  /** The literals that activate the index set `s`. */
  function CubeOf(on: seq<Lit>, s: set<nat>): set<Lit> {
    set i | i in s && i < |on| :: on[i]
  }

  /** The oracle seen through the index-to-literal table. */
  function Indexed(unsat: Oracle, on: seq<Lit>): Oracle {
    s => unsat(CubeOf(on, s))
  }

  lemma IndexedMonotone(unsat: Oracle, on: seq<Lit>)
    requires Monotone(unsat)
    ensures Monotone(Indexed(unsat, on))
  {
    forall a, b | a <= b && Indexed(unsat, on)(a) ensures Indexed(unsat, on)(b) {
      assert CubeOf(on, a) <= CubeOf(on, b);
    }
  }

  predicate InRange(s: seq<nat>, n: nat) { forall i | 0 <= i < |s| :: s[i] < n }

  function ActiveCube(on: seq<Lit>, active: seq<nat>): (cube: seq<Lit>)
    requires InRange(active, |on|)
    ensures Elems(cube) == CubeOf(on, Elems(active))
  {
    var cube := seq(|active|, k requires 0 <= k < |active| => on[active[k]]);
    assert Elems(cube) == CubeOf(on, Elems(active)) by {
      forall l | l in CubeOf(on, Elems(active)) ensures l in cube {
        var k :| 0 <= k < |active| && on[active[k]] == l;
        assert cube[k] == l;
      }
    }
    cube
  }

  // --- the engine -------------------------------------------------------------

  datatype Outcome = Sat | Unsat(core: seq<Lit>) | Interrupted

  /** Any answer the engine may give: a right verdict, or an interruption if the stop flag may be raised. */
  method Resolve(unsat: Oracle, cube: seq<Lit>, stop: bool) returns (o: Outcome)
    ensures o.Interrupted? ==> stop
    ensures o.Sat? ==> !unsat(Elems(cube))
    ensures o.Unsat? ==> unsat(Elems(o.core)) && Elems(o.core) <= Elems(cube)
  {
    var raised: bool := *;
    if stop && raised { return Interrupted; }
    if !unsat(Elems(cube)) { return Sat; }
    var core: seq<Lit> := *;
    if !(unsat(Elems(core)) && Elems(core) <= Elems(cube)) { core := cube; }
    return Unsat(core);
  }

  method Inconsistent(unsat: Oracle, on: seq<Lit>, active: seq<nat>, stop: bool) returns (r: Option<bool>)
    requires Monotone(unsat) && InRange(active, |on|)
    ensures r.None? ==> stop
    ensures r.Some? ==> r.value == Indexed(unsat, on)(Elems(active))
  {
    var o := Resolve(unsat, ActiveCube(on, active), stop);
    match o
    case Unsat(_) => r := Some(true);
    case Sat => r := Some(false);
    case Interrupted => r := None;
  }

  // --- from cores back to indices ------------------------------------------------

  /** The first index holding `l`. */
  function Position(on: seq<Lit>, l: Lit): (p: Option<nat>)
    ensures p.Some? ==> p.value < |on| && on[p.value] == l && forall q | 0 <= q < p.value :: on[q] != l
    ensures p.None? <==> l !in on
  {
    if on == [] then None
    else if on[0] == l then Some(0)
    else
      match Position(on[1..], l)
      case None => None
      case Some(k) => Some(k + 1)
  }

  /** The sorted, deduplicated indices of a core. */
  function CoreIndices(on: seq<Lit>, core: seq<Lit>): (r: seq<nat>)
    ensures Increasing(r) && InRange(r, |on|)
    ensures forall k: nat :: k in r <==> exists l :: l in core && Position(on, l) == Some(k)
  {
    var s := set l | l in core && Position(on, l).Some? :: Position(on, l).value;
    var r := Ascending(s, |on|);
    assert forall i | 0 <= i < |r| :: r[i] in r;
    r
  }

  /** No member of `s` repeats the literal of a smaller index. */
  ghost predicate FirstOnly(on: seq<Lit>, s: seq<nat>) {
    forall k | k in s :: k < |on| && forall q | 0 <= q < k :: on[q] != on[k]
  }

  lemma CoreIndicesAreFirst(on: seq<Lit>, core: seq<Lit>)
    ensures FirstOnly(on, CoreIndices(on, core))
  {
  }

  lemma CoreIndicesActivate(on: seq<Lit>, core: seq<Lit>)
    requires Elems(core) <= Elems(on)
    ensures CubeOf(on, Elems(CoreIndices(on, core))) == Elems(core)
  {
    var r := CoreIndices(on, core);
    forall l | l in core ensures l in CubeOf(on, Elems(r)) {
      assert l in Elems(core) && l in Elems(on);
      var k := Position(on, l).value;
      assert k in r;
    }
  }

  /**
   Mapping a core back by first position stays within the active set for every
   core of every active set exactly when no two candidates share a literal.
   */
  lemma CoresStayActiveIffDistinct(on: seq<Lit>)
    ensures Distinct(on) <==>
            forall active: set<nat>, core: seq<Lit> | active <= Below(|on|) && Elems(core) <= CubeOf(on, active) ::
              Elems(CoreIndices(on, core)) <= active
  {
    if Distinct(on) {
      forall active: set<nat>, core: seq<Lit> | active <= Below(|on|) && Elems(core) <= CubeOf(on, active)
        ensures Elems(CoreIndices(on, core)) <= active
      {
        CoreStaysActive(on, active, core);
      }
    } else {
      var i, j :| 0 <= i < j < |on| && on[i] == on[j];
      var active, core := {j}, [on[j]];
      assert active <= Below(|on|);
      assert Elems(core) == {on[j]} && on[j] in CubeOf(on, active);
      var p := Position(on, on[j]).value;
      assert p in CoreIndices(on, core);
      assert p in Elems(CoreIndices(on, core)) && p !in active;
    }
  }

  lemma CoreStaysActive(on: seq<Lit>, active: set<nat>, core: seq<Lit>)
    requires Distinct(on) && Elems(core) <= CubeOf(on, active)
    ensures Elems(CoreIndices(on, core)) <= active
  {
    forall k | k in CoreIndices(on, core) ensures k in active {
      var l :| l in core && Position(on, l) == Some(k);
      assert l in CubeOf(on, active);
      var i :| i in active && i < |on| && on[i] == l;
    }
  }

  // --- shrinking and growing --------------------------------------------------------

  /** `r` activates only literals that `active` does; its indices lie in `active` if no literal is repeated. */
  ghost predicate Trims(on: seq<Lit>, r: set<nat>, active: set<nat>) {
    CubeOf(on, r) <= CubeOf(on, active) && (Distinct(on) ==> r <= active)
  }

  lemma TrimsFurther(on: seq<Lit>, r: seq<nat>, candidates: seq<nat>, start: set<nat>)
    requires Elems(r) <= Elems(candidates) && Trims(on, Elems(candidates), start) && FirstOnly(on, candidates)
    ensures Trims(on, Elems(r), start) && FirstOnly(on, r)
  {
    assert CubeOf(on, Elems(r)) <= CubeOf(on, Elems(candidates));
    forall k | k in r ensures k in candidates { assert k in Elems(r); }
  }

  /** One trimming step. */
  method Refine(unsat: Oracle, on: seq<Lit>, active: seq<nat>, stop: bool) returns (r: Option<seq<nat>>)
    requires Monotone(unsat) && InRange(active, |on|)
    ensures r.None? ==> stop
    ensures r.Some? ==> InRange(r.value, |on|) && Trims(on, Elems(r.value), Elems(active))
    ensures r.Some? && Indexed(unsat, on)(Elems(active)) ==>
        Indexed(unsat, on)(Elems(r.value)) && FirstOnly(on, r.value) && Increasing(r.value)
  {
    var cube := ActiveCube(on, active);
    var o := Resolve(unsat, cube, stop);
    match o
    case Unsat(core) =>
      CoreIndicesActivate(on, core);
      CoreIndicesAreFirst(on, core);
      if Distinct(on) { CoreStaysActive(on, Elems(active), core); }
      r := Some(CoreIndices(on, core));
    case Sat => r := Some(active);
    case Interrupted => r := None;
  }

  method MinimiseFrom(unsat: Oracle, on: seq<Lit>, base: seq<nat>, grew: bool, candidates: seq<nat>, stop: bool)
      returns (r: Option<seq<nat>>)
    requires Monotone(unsat) && InRange(base, |on|) && InRange(candidates, |on|)
    ensures r.None? ==> stop
    ensures r.Some? ==> r.value == QuickXplain(Indexed(unsat, on), Elems(base), grew, candidates)
    ensures r.Some? ==> InRange(r.value, |on|)
    decreases |candidates|
  {
    if candidates == [] { return Some([]); }
    if grew {
      var closed := Inconsistent(unsat, on, base, stop);
      if closed.None? { return None; }
      if closed.value { return Some([]); }
    }
    if |candidates| == 1 { return Some(candidates); }
    var mid := |candidates| / 2;
    var c1, c2 := candidates[..mid], candidates[mid..];
    var d2 := MinimiseFrom(unsat, on, base + c1, c1 != [], c2, stop);
    if d2.None? { return None; }
    assert Elems(base + c1) == Elems(base) + Elems(c1);
    var d1 := MinimiseFrom(unsat, on, base + d2.value, d2.value != [], c1, stop);
    if d1.None? { return None; }
    assert Elems(base + d2.value) == Elems(base) + Elems(d2.value);
    return Some(d1.value + d2.value);
  }

  /** Trim by cores to a fixpoint, then minimise what is left. */
  method ShrinkToMus(unsat: Oracle, on: seq<Lit>, start: seq<nat>, stop: bool) returns (r: Option<seq<nat>>)
    requires Monotone(unsat) && InRange(start, |on|)
    requires Indexed(unsat, on)(Elems(start))
    ensures r.None? ==> stop
    ensures r.Some? ==>
              var bad := Indexed(unsat, on);
              && InRange(r.value, |on|) && FirstOnly(on, r.value) && bad(Elems(r.value))
              && Trims(on, Elems(r.value), Elems(start))
              && (IsMus(bad, Elems(r.value)) <==> r.value == [] || !bad({}))
              && (r.value == [] ==> bad({})) && Increasing(r.value)
  {
    IndexedMonotone(unsat, on);
    ghost var bad := Indexed(unsat, on);
    var candidates := start;
    while true
      invariant InRange(candidates, |on|) && bad(Elems(candidates))
      invariant Trims(on, Elems(candidates), Elems(start))
      decreases |candidates|
    {
      var refined := Refine(unsat, on, candidates, stop);
      if refined.None? { return None; }
      var shrank := |refined.value| < |candidates|;
      candidates := refined.value;
      if !shrank { break; }
    }
    r := MinimiseFrom(unsat, on, [], false, candidates, stop);
    if r.Some? {
      ShrunkIsMusIff(bad, candidates);
      QuickXplainKeepsOrder(bad, Elems([]), false, candidates);
      TrimsFurther(on, r.value, candidates, Elems(start));
    }
  }

  // --- repeated literals ------------------------------------------------------------

  /** No other index has the literal of `k`. */
  ghost predicate Sole(on: seq<Lit>, k: nat) {
    k < |on| && forall q | 0 <= q < |on| && on[q] == on[k] :: q == k
  }

  /** No MUS contains an index whose literal is repeated. */
  ghost predicate SoleMuses(unsat: Oracle, on: seq<Lit>) {
    forall m | m <= Below(|on|) && IsMus(Indexed(unsat, on), m) :: forall k | k in m :: Sole(on, k)
  }

  /** A MUS without repeated literals lies within every set that has its literals. */
  lemma SoleStaysActive(unsat: Oracle, on: seq<Lit>, mus: set<nat>, start: set<nat>)
    requires SoleMuses(unsat, on) && mus <= Below(|on|) && IsMus(Indexed(unsat, on), mus)
    requires CubeOf(on, mus) <= CubeOf(on, start)
    ensures mus <= start
  {
    forall k | k in mus ensures k in start {
      assert on[k] in CubeOf(on, start);
      var q :| q in start && q < |on| && on[q] == on[k];
    }
  }

  /** Exchanging an index for another one with the same literal keeps a MUS a MUS. */
  lemma ExchangeKeepsMus(unsat: Oracle, on: seq<Lit>, m: set<nat>, i: nat, j: nat)
    requires Monotone(unsat) && i < |on| && j < |on| && on[i] == on[j] && i in m && j !in m
    requires IsMus(Indexed(unsat, on), m)
    ensures IsMus(Indexed(unsat, on), m - {i} + {j})
  {
    var bad, e := Indexed(unsat, on), m - {i} + {j};
    assert CubeOf(on, e) == CubeOf(on, m);
    forall t | t < e ensures !bad(t) {
      var back := if j in t then t - {j} + {i} else t;
      assert CubeOf(on, back) == CubeOf(on, t);
      var x :| x in e && x !in t;
      assert back <= m && (j in t ==> x !in back && x in m) && (j !in t ==> i !in back);
    }
  }

  /**
   If only first occurrences are ever reported, all MUSes can be reported only when none
   of them has a repeated literal.
   */
  lemma ReportedFirstMeansSole(unsat: Oracle, on: seq<Lit>)
    requires Monotone(unsat)
    requires forall m | m <= Below(|on|) && IsMus(Indexed(unsat, on), m) ::
               forall k | k in m :: forall q | 0 <= q < k < |on| :: on[q] != on[k]
    ensures SoleMuses(unsat, on)
  {
    forall m, k | m <= Below(|on|) && IsMus(Indexed(unsat, on), m) && k in m ensures Sole(on, k) {
      forall q | 0 <= q < |on| && on[q] == on[k] ensures q == k {
        if k < q {
          if q !in m { ExchangeKeepsMus(unsat, on, m, k, q); }
        }
      }
    }
  }

  lemma ShrunkIsMusIff(bad: Oracle, candidates: seq<nat>)
    requires Monotone(bad) && bad(Elems(candidates))
    ensures
      var r := QuickXplain(bad, Elems([]), false, candidates);
      && Elems(r) <= Elems(candidates) && bad(Elems(r))
      && (IsMus(bad, Elems(r)) <==> r == [] || !bad({}))
      && (r == [] ==> bad({}))
  {
    var r := QuickXplain(bad, Elems([]), false, candidates);
    assert Elems<nat>([]) == {};
    if candidates == [] {
    } else {
      MinimalIffRootConsistent(bad, candidates);
      if bad({}) {
        UntestedBackgroundBlamesFirst(bad, {}, candidates);
        assert {} <= Elems(r);
      } else {
        assert {} + Elems(candidates) == Elems(candidates);
        QuickXplainExplains(bad, {}, false, candidates);
        assert {} + Elems(r) == Elems(r);
      }
    }
  }

  /** Every index below `i` is in `s` or breaks it. */
  ghost predicate SaturatedBelow(bad: Oracle, s: set<nat>, i: nat) {
    forall j: nat | j < i && j !in s :: bad(s + {j})
  }

  lemma SaturatedStep(bad: Oracle, s: set<nat>, i: nat)
    requires Monotone(bad) && SaturatedBelow(bad, s, i)
    ensures SaturatedBelow(bad, s + {i}, i + 1)
    ensures i in s || bad(s + {i}) ==> SaturatedBelow(bad, s, i + 1)
  {
    forall j: nat | j < i + 1 && j !in s + {i} ensures bad(s + {i} + {j}) {
      assert bad(s + {j}) && s + {j} <= s + {i} + {j};
    }
  }

  /** Add every absent index that leaves the set satisfiable, then sort. */
  method Grow(unsat: Oracle, on: seq<Lit>, seed: seq<nat>, stop: bool) returns (r: Option<seq<nat>>)
    requires Monotone(unsat) && InRange(seed, |on|) && !Indexed(unsat, on)(Elems(seed))
    ensures r.None? ==> stop
    ensures r.Some? ==>
              && InRange(r.value, |on|) && Increasing(r.value) && Elems(seed) <= Elems(r.value)
              && IsMss(Indexed(unsat, on), Below(|on|), Elems(r.value))
  {
    IndexedMonotone(unsat, on);
    ghost var bad := Indexed(unsat, on);
    var sat: seq<nat> := seed;
    var inside := seq(|on|, i => i in seed);
    for i: nat := 0 to |on|
      invariant |inside| == |on| && InRange(sat, |on|) && Elems(seed) <= Elems(sat) && !bad(Elems(sat))
      invariant forall j | 0 <= j < |on| :: inside[j] <==> j in sat
      invariant SaturatedBelow(bad, Elems(sat), i)
    {
      SaturatedStep(bad, Elems(sat), i);
      if inside[i] { continue; }
      ElemsAppend(sat, i);
      var broken := Inconsistent(unsat, on, sat + [i], stop);
      if broken.None? { return None; }
      if !broken.value {
        sat := sat + [i];
        inside := inside[i := true];
      }
    }
    Sorted(bad, sat, |on|);
    return Some(Ascending(Elems(sat), |on|));
  }

  lemma ElemsAppend(s: seq<nat>, x: nat)
    ensures Elems(s + [x]) == Elems(s) + {x}
  {
  }

  lemma Sorted(bad: Oracle, sat: seq<nat>, n: nat)
    requires Monotone(bad) && InRange(sat, n) && !bad(Elems(sat)) && SaturatedBelow(bad, Elems(sat), n)
    ensures
      var r := Ascending(Elems(sat), n);
      InRange(r, n) && Elems(r) == Elems(sat) && IsMss(bad, Below(n), Elems(r))
  {
    var r := Ascending(Elems(sat), n);
    assert Elems(r) == Elems(sat);
    assert forall k | 0 <= k < |r| :: r[k] in r;
    SaturatedIsMss(bad, Below(n), Elems(sat));
  }
}
