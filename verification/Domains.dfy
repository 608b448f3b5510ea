/** Finite domains, boxes of them, and propagators as functions on boxes. */
module Domains {
  import opened Common

  type Dom = set<int>
  type Doms = seq<Dom>

  // --- least and greatest value ---------------------------------------------------------

  lemma HasValue(s: Dom)
    requires s != {}
    ensures exists x :: x in s
  {
    assert (forall x :: x !in s) ==> s == {};
  }

  lemma {:induction false} LeastExists(s: Dom)
    requires s != {}
    ensures exists m :: m in s && forall x | x in s :: m <= x
    decreases |s|
  {
    HasValue(s);
    var x :| x in s;
    var rest := s - {x};
    if rest == {} {
      assert s == {x};
      assert x in s && forall y | y in s :: x <= y;
    } else {
      LeastExists(rest);
      var m :| m in rest && forall y | y in rest :: m <= y;
      var l := Common.Min(x, m);
      forall y | y in s ensures l <= y { assert y == x || y in rest; }
      assert l in s && forall y | y in s :: l <= y;
    }
  }

  function MinOf(s: Dom): (m: int)
    requires s != {}
    ensures m in s && forall x | x in s :: m <= x
  {
    LeastExists(s);
    var m :| m in s && forall x | x in s :: m <= x;
    m
  }

  function MaxOf(s: Dom): (m: int)
    requires s != {}
    ensures m in s && forall x | x in s :: x <= m
  {
    var t := set x | x in s :: -x;
    assert -(MinOf(s)) in t;
    var m := -MinOf(t);
    assert forall x | x in s :: -x in t;
    m
  }

  predicate Fixed(s: Dom) { |s| == 1 }

  lemma FixedIsSingleton(s: Dom)
    requires s != {}
    ensures Fixed(s) <==> MinOf(s) == MaxOf(s)
    ensures Fixed(s) <==> s == {MinOf(s)}
  {
    if MinOf(s) == MaxOf(s) { assert s == {MinOf(s)}; }
    if Fixed(s) {
      assert s - {MinOf(s)} == {} by { assert |s - {MinOf(s)}| == 0; }
      assert s == {MinOf(s)};
    }
  }

  function AtLeast(s: Dom, bound: int): Dom { set x | x in s && x >= bound }

  function AtMost(s: Dom, bound: int): Dom { set x | x in s && x <= bound }

  // --- boxes ------------------------------------------------------------------------------

  ghost predicate Sub(d: Doms, e: Doms) {
    |d| == |e| && forall v | 0 <= v < |d| :: d[v] <= e[v]
  }

  predicate Nonempty(d: Doms) { forall v | 0 <= v < |d| :: d[v] != {} }

  function Size(d: Doms): nat {
    if d == [] then 0 else |d[0]| + Size(d[1..])
  }

  lemma SubsetSize(a: Dom, b: Dom)
    requires a <= b
    ensures |a| <= |b| && (a != b ==> |a| < |b|)
  {
    assert b == a + (b - a);
    assert |b| == |a| + |b - a|;
    if a != b { assert b - a != {}; }
  }

  lemma {:induction false} SizeShrinks(d: Doms, e: Doms)
    requires Sub(d, e)
    ensures Size(d) <= Size(e) && (d != e ==> Size(d) < Size(e))
    decreases |d|
  {
    if d != [] {
      SubsetSize(d[0], e[0]);
      SizeShrinks(d[1..], e[1..]);
      if d != e && d[0] == e[0] { assert d == [d[0]] + d[1..] && e == [e[0]] + e[1..]; }
    } else {
      assert e == [];
    }
  }

  // --- propagators ---------------------------------------------------------------------------

  datatype Event = Fix | BoundChange | DomainChange

  datatype Priority = Cheap | Linear | Expensive

  /** `filter` is the box one run leads to; an empty domain in it means failure. */
  datatype Propagator = Propagator(filter: Doms -> Doms, priority: Priority)

  datatype Entry = Entry(event: Event, prop: nat)

  /** Whether shrinking `before` to the non-empty `after` raises the event. */
  predicate Raises(event: Event, before: Dom, after: Dom)
    requires before != {} && after != {}
  {
    match event
    case DomainChange => true
    case BoundChange => MinOf(before) != MinOf(after) || MaxOf(before) != MaxOf(after)
    case Fix => Fixed(after)
  }

  /** Whether propagator `p` has a subscription in `entries` that the change raises. */
  predicate Wakes(entries: seq<Entry>, p: nat, before: Dom, after: Dom)
    requires before != {} && after != {}
  {
    exists k | 0 <= k < |entries| :: entries[k].prop == p && Raises(entries[k].event, before, after)
  }

  ghost predicate FixedBy(p: Propagator, d: Doms) { p.filter(d) == d }

  ghost predicate Contracting(p: Propagator, n: nat) {
    forall d: Doms {:trigger Sub(p.filter(d), d)} | |d| == n :: Sub(p.filter(d), d)
  }

  ghost predicate Monotone(p: Propagator, n: nat) {
    forall d: Doms, e: Doms {:trigger Sub(p.filter(d), p.filter(e))} | |d| == n && Sub(d, e) ::
        Sub(p.filter(d), p.filter(e))
  }

  ghost predicate Idempotent(p: Propagator, n: nat) {
    forall d: Doms {:trigger FixedBy(p, p.filter(d))} | |d| == n :: FixedBy(p, p.filter(d))
  }

  /** A change none of `p`'s subscriptions hears of leaves a fixpoint of `p` a fixpoint. */
  ghost predicate Adequate(p: Propagator, id: nat, subs: seq<seq<Entry>>) {
    forall d: Doms, v: nat, s: Dom {:trigger FixedBy(p, d[v := s])} |
      |d| == |subs| && v < |d| && Nonempty(d) && s != {} && s < d[v] && FixedBy(p, d) && !Wakes(subs[v], id, d[v], s) ::
      FixedBy(p, d[v := s])
  }

  /** The contract every propagator obeys. */
  ghost predicate LawfulProp(p: Propagator, id: nat, subs: seq<seq<Entry>>) {
    Contracting(p, |subs|) && Monotone(p, |subs|) && Idempotent(p, |subs|) && Adequate(p, id, subs)
  }

  ghost predicate Lawful(props: seq<Propagator>, subs: seq<seq<Entry>>) {
    forall i {:trigger LawfulProp(props[i], i, subs)} | 0 <= i < |props| :: LawfulProp(props[i], i, subs)
  }

  lemma FilterFacts(props: seq<Propagator>, subs: seq<seq<Entry>>, p: nat, d: Doms)
    requires Lawful(props, subs) && p < |props| && |d| == |subs|
    ensures Sub(props[p].filter(d), d) && FixedBy(props[p], props[p].filter(d))
  {
    assert LawfulProp(props[p], p, subs);
  }

  ghost predicate CommonFixpoint(props: seq<Propagator>, d: Doms) {
    forall i | 0 <= i < |props| :: FixedBy(props[i], d)
  }

  /** `d` is the greatest common fixpoint below `start`. */
  ghost predicate GreatestFixpoint(props: seq<Propagator>, start: Doms, d: Doms) {
    && Sub(d, start) && CommonFixpoint(props, d)
    && forall g | Sub(g, start) && CommonFixpoint(props, g) :: Sub(g, d)
  }

  /** No common fixpoint below `start` keeps every domain non-empty. */
  ghost predicate Refuted(props: seq<Propagator>, start: Doms) {
    forall g | Sub(g, start) && CommonFixpoint(props, g) :: !Nonempty(g)
  }

  lemma SubAntisymmetric(d: Doms, e: Doms)
    requires Sub(d, e) && Sub(e, d)
    ensures d == e
  {
    forall v | 0 <= v < |d| ensures d[v] == e[v] { assert d[v] <= e[v] && e[v] <= d[v]; }
  }

  lemma SubTransitive(c: Doms, d: Doms, e: Doms)
    requires Sub(c, d) && Sub(d, e)
    ensures Sub(c, e)
  {
    forall v | 0 <= v < |c| ensures c[v] <= e[v] { assert c[v] <= d[v] && d[v] <= e[v]; }
  }

  /** Two schedules that both succeed agree, and one cannot succeed where another fails. */
  lemma ScheduleIndependent(props: seq<Propagator>, start: Doms, d1: Doms, d2: Doms)
    requires GreatestFixpoint(props, start, d1) && Nonempty(d1)
    ensures GreatestFixpoint(props, start, d2) ==> d1 == d2
    ensures !Refuted(props, start)
  {
    if GreatestFixpoint(props, start, d2) {
      SubAntisymmetric(d1, d2);
    }
  }
}
