/**
 Every constraint has a propagator the search may use: the domain-consistent
 filter, subscribed to every change. It obeys the propagator contract
 (src/propagator.rs) and what `domain_dfs` (src/search.rs) relies on, for every
 layout whose decided orders the constraint respects.
 */
module ConstraintFilters {
  import opened Common
  import opened Domains
  import opened DomainModels
  import opened DomainSearch

  type Constraint = Assignment -> bool

  /** Some assignment of the box satisfies `c` with value `x` for `v`. */
  ghost predicate Supported(c: Constraint, d: Doms, v: nat, x: int) {
    exists a: Assignment :: InBox(a, d) && c(a) && v < |a| && a[v] == x
  }

  ghost function SupportedValues(c: Constraint, d: Doms, v: nat): Dom
    requires v < |d|
  {
    set x | x in d[v] && Supported(c, d, v, x)
  }

  /** Keep the supported values of every variable. */
  ghost function Filter(c: Constraint, d: Doms): (r: Doms)
    ensures |r| == |d| && forall v | 0 <= v < |d| :: r[v] == SupportedValues(c, d, v)
  {
    seq(|d|, v requires 0 <= v < |d| => SupportedValues(c, d, v))
  }

  ghost function Enforcer(c: Constraint, priority: Priority): Propagator { Propagator(d => Filter(c, d), priority) }

  /** Propagator 0 hears every change of every variable. */
  function HearsAll(n: nat): seq<seq<Entry>> { seq(n, _ => [Entry(DomainChange, 0)]) }

  lemma FilterMonotone(c: Constraint, d: Doms, e: Doms)
    requires Sub(d, e)
    ensures Sub(Filter(c, d), Filter(c, e))
  {
    forall v, x | 0 <= v < |d| && x in Filter(c, d)[v] ensures x in Filter(c, e)[v] {
      assert d[v] <= e[v];
      var a :| InBox(a, d) && c(a) && v < |a| && a[v] == x;
      forall w | 0 <= w < |a| ensures a[w] in e[w] { assert d[w] <= e[w]; }
    }
  }

  /** The supports of a box survive its filtering. */
  lemma FilterKeepsSupports(c: Constraint, d: Doms, a: Assignment)
    requires InBox(a, d) && c(a)
    ensures InBox(a, Filter(c, d))
  {
    forall w | 0 <= w < |a| ensures a[w] in Filter(c, d)[w] { assert Supported(c, d, w, a[w]); }
  }

  lemma FilterIdempotent(c: Constraint, d: Doms)
    ensures Filter(c, Filter(c, d)) == Filter(c, d)
  {
    var f := Filter(c, d);
    forall v, x | 0 <= v < |d| && x in f[v] ensures x in Filter(c, f)[v] {
      var a :| InBox(a, d) && c(a) && v < |a| && a[v] == x;
      FilterKeepsSupports(c, d, a);
    }
    forall v | 0 <= v < |d| ensures Filter(c, f)[v] == f[v] { assert Filter(c, f)[v] <= f[v]; }
  }

  lemma EnforcerIsLawful(c: Constraint, priority: Priority, n: nat)
    ensures Lawful([Enforcer(c, priority)], HearsAll(n))
  {
    var p, subs := Enforcer(c, priority), HearsAll(n);
    forall d: Doms, e: Doms | |d| == n && Sub(d, e) ensures Sub(p.filter(d), p.filter(e)) { FilterMonotone(c, d, e); }
    forall d: Doms | |d| == n ensures FixedBy(p, p.filter(d)) { FilterIdempotent(c, d); }
    forall d: Doms, v: nat, s: Dom |
      |d| == |subs| && v < |d| && Nonempty(d) && s != {} && s < d[v] ensures Wakes(subs[v], 0, d[v], s)
    {
      assert subs[v][0] == Entry(DomainChange, 0);
    }
    assert LawfulProp(p, 0, subs);
  }

  /** A point is a fixpoint of the filter exactly when it satisfies the constraint. */
  lemma FeasibleIffSatisfied(c: Constraint, priority: Priority, a: Assignment)
    requires a != []
    ensures Feasible([Enforcer(c, priority)], a) <==> c(a)
  {
    var p, d := Enforcer(c, priority), Point(a);
    forall b: Assignment | InBox(b, d) ensures b == a {
      forall w | 0 <= w < |a| ensures b[w] == a[w] { assert b[w] in d[w]; }
    }
    if c(a) {
      InBoxIsPoint(a, d);
      FilterKeepsSupports(c, d, a);
      forall v | 0 <= v < |d| ensures Filter(c, d)[v] == d[v] { assert a[v] in Filter(c, d)[v]; }
      assert FixedBy(p, d);
    }
    if Feasible([p], a) {
      assert FixedBy([p][0], d);
      assert a[0] in Filter(c, d)[0];
      assert Supported(c, d, 0, a[0]);
    }
  }

  /** `c` lets no assignment violate a decided order. */
  ghost predicate Respects(c: Constraint, l: Layout, n: nat)
    requires LayoutOk(l, n)
  {
    forall a: Assignment {:trigger c(a)} | |a| == n && c(a) :: forall k | 0 <= k < |l.pairs| :: OrderRespected(l, a, k)
  }

  /**
   For every layout and every constraint that respects its decided orders there
   is a lawful propagator the search is exact for, and the search's solutions
   are those of the constraint.
   */
  lemma EnforcerIsSearchable(c: Constraint, priority: Priority, l: Layout, n: nat)
    requires LayoutOk(l, n) && Respects(c, l, n)
    ensures Lawful([Enforcer(c, priority)], HearsAll(n))
    ensures Searchable([Enforcer(c, priority)], l, n)
    ensures forall a: Assignment | |a| == n > 0 :: Feasible([Enforcer(c, priority)], a) <==> c(a)
  {
    var props := [Enforcer(c, priority)];
    EnforcerIsLawful(c, priority, n);
    forall a: Assignment | |a| == n > 0 ensures Feasible(props, a) <==> c(a) { FeasibleIffSatisfied(c, priority, a); }
    forall d: Doms | |d| == n && WellFormed(l, d) && CommonFixpoint(props, d)
      ensures exists a :: InBox(a, d) && Feasible(props, a)
    {
      if n == 0 {
        assert InBox([], d) && Point([]) == d && Feasible(props, []);
      } else {
        var x := MinOf(d[0]);
        assert FixedBy(props[0], d) && x in Filter(c, d)[0];
        var a :| InBox(a, d) && c(a) && 0 < |a| && a[0] == x;
        assert Feasible(props, a);
      }
    }
  }

  /** Nothing but the decided orders. */
  ghost function OnlyOrders(l: Layout, n: nat): Constraint
    requires LayoutOk(l, n)
  {
    a => |a| == n && forall k | 0 <= k < |l.pairs| :: OrderRespected(l, a, k)
  }

  /** Two mandatory intervals on one resource, with start variables 0 and 1 and order variable 2. */
  function TwoIntervals(first: nat, second: nat): (l: Layout)
    ensures LayoutOk(l, 3)
  {
    Layout([IntervalVar(0, first, None), IntervalVar(1, second, None)], [], [Pair(0, 1, 2)])
  }

  /** Both starts are 0 or 4, and the order is open. */
  function OrderBox(): (d: Doms)
    ensures |d| == 3 && d[0] == d[1] == {0, 4} && d[2] == {0, 1}
  {
    [{0, 4}, {0, 4}, {0, 1}]
  }

  lemma OrderBoxOk()
    ensures WellFormed(TwoIntervals(2, 3), OrderBox())
    ensures Choose(TwoIntervals(2, 3), OrderBox()) == Some(Order(0))
  {
    var l, d := TwoIntervals(2, 3), OrderBox();
    FixedIsSingleton(d[2]);
    assert 0 in d[2] && 1 in d[2];
    assert MinOf(d[0]) == 0 && MaxOf(d[0]) == 4;
    assert MustOrder(l, d, 0);
  }

  /** The two schedules of the box, with their order. */
  function Schedule(first: bool): seq<int> { if first then [0, 4, 1] else [4, 0, 0] }

  lemma OrderBoxSolutions(first: bool)
    ensures
      var l, a := TwoIntervals(2, 3), Schedule(first);
      && InBox(a, OrderBox()) && OnlyOrders(l, 3)(a)
      && InBox(a, Branch(l, OrderBox(), Order(0), first))
      && Describes(l, a, Solution([], [Some(a[0]), Some(a[1])]))
  {
    var l, a := TwoIntervals(2, 3), Schedule(first);
    assert OrderRespected(l, a, 0);
  }

  lemma OrderBoxIsFixpoint(c: Constraint, priority: Priority)
    requires c(Schedule(true)) && c(Schedule(false))
    ensures CommonFixpoint([Enforcer(c, priority)], OrderBox())
  {
    var a, b := Schedule(true), Schedule(false);
    assert a[0] == 0 && a[1] == 4 && a[2] == 1 && b[0] == 4 && b[1] == 0 && b[2] == 0;
    TwoSupportsSuffice(c, priority, OrderBox(), a, b);
  }

  /** A box whose values all occur in two of its solutions is a fixpoint. */
  lemma TwoSupportsSuffice(c: Constraint, priority: Priority, d: Doms, a: Assignment, b: Assignment)
    requires InBox(a, d) && InBox(b, d) && c(a) && c(b)
    requires forall v, x | 0 <= v < |d| && x in d[v] :: x == a[v] || x == b[v]
    ensures CommonFixpoint([Enforcer(c, priority)], d)
  {
    FilterKeepsSupports(c, d, a);
    FilterKeepsSupports(c, d, b);
    forall v | 0 <= v < |d| ensures Filter(c, d)[v] == d[v] {
      assert a[v] in Filter(c, d)[v] && b[v] in Filter(c, d)[v];
    }
    assert FixedBy(Enforcer(c, priority), d);
  }

  /** A fixpoint at which the search opens the two branches of an order, each with a solution. */
  lemma OrderBranchReachable()
    ensures
      var l, d := TwoIntervals(2, 3), OrderBox();
      var left, right := Solution([], [Some(0), Some(4)]), Solution([], [Some(4), Some(0)]);
      var props := [Enforcer(OnlyOrders(l, 3), Expensive)];
      && Lawful(props, HearsAll(3)) && Searchable(props, l, 3)
      && WellFormed(l, d) && CommonFixpoint(props, d) && Choose(l, d) == Some(Order(0))
      && IsSolution(props, l, Branch(l, d, Order(0), true), left)
      && IsSolution(props, l, Branch(l, d, Order(0), false), right)
  {
    EnforcerIsSearchable(OnlyOrders(TwoIntervals(2, 3), 3), Expensive, TwoIntervals(2, 3), 3);
    OrderBoxOk();
    OrderBoxSolutions(true);
    OrderBoxSolutions(false);
    OrderBoxIsFixpoint(OnlyOrders(TwoIntervals(2, 3), 3), Expensive);
  }

  /** A zero-duration interval imposes no order: it may start inside the other one whatever the order variable says. */
  lemma ZeroDurationIsUnordered(order: int)
    requires order == 0 || order == 1
    ensures
      var l := TwoIntervals(0, 10);
      var props := [Enforcer(OnlyOrders(l, 3), Expensive)];
      Lawful(props, HearsAll(3)) && Searchable(props, l, 3) && Feasible(props, [5, 0, order])
  {
    var l := TwoIntervals(0, 10);
    EnforcerIsSearchable(OnlyOrders(l, 3), Expensive, l, 3);
    assert OrderRespected(l, [5, 0, order], 0);
  }
}
