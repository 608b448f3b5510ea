/**
 Chronological search over list and interval domains (src/search.rs,
 `domain_dfs`): every solution of the box is reported exactly once, and the
 store is left as the search's own propagation left it.
 */
module DomainSearch {
  import opened Common
  import opened Domains
  import opened Stores
  import opened DomainModels

  // --- what the propagators are assumed to enforce ------------------------------------------

  /** A decided order is a precedence between two present intervals that both take time. */
  ghost predicate OrderRespected(l: Layout, a: Assignment, k: nat)
    requires LayoutOk(l, |a|) && k < |l.pairs|
  {
    var p := l.pairs[k];
    PresentIn(l, a, p.a) && PresentIn(l, a, p.b) && l.intervals[p.a].duration > 0 && l.intervals[p.b].duration > 0 ==>
      && (a[p.order] == 1 ==> a[l.intervals[p.a].start] + l.intervals[p.a].duration <= a[l.intervals[p.b].start])
      && (a[p.order] == 0 ==> a[l.intervals[p.b].start] + l.intervals[p.b].duration <= a[l.intervals[p.a].start])
  }

  ghost predicate OrdersEnforced(props: seq<Propagator>, l: Layout, n: nat)
    requires LayoutOk(l, n)
  {
    forall a: Assignment {:trigger Feasible(props, a)} | |a| == n && Feasible(props, a) ::
      forall k | 0 <= k < |l.pairs| :: OrderRespected(l, a, k)
  }

  /** A common fixpoint with nothing left to decide holds a feasible assignment. */
  ghost predicate Decides(props: seq<Propagator>, l: Layout, n: nat)
    requires LayoutOk(l, n)
  {
    forall d: Doms {:trigger CommonFixpoint(props, d)} |
      |d| == n && WellFormed(l, d) && CommonFixpoint(props, d) && Choose(l, d).None? ::
      exists a :: InBox(a, d) && Feasible(props, a)
  }

  ghost predicate Searchable(props: seq<Propagator>, l: Layout, n: nat) {
    LayoutOk(l, n) && OrdersEnforced(props, l, n) && Decides(props, l, n)
  }

  /** Without constraints and without disjunctive pairs the assumptions hold: the search counts the box. */
  lemma UnconstrainedIsSearchable(l: Layout, n: nat)
    requires LayoutOk(l, n) && l.pairs == []
    ensures Searchable([], l, n)
  {
    forall d: Doms | |d| == n && WellFormed(l, d) && CommonFixpoint([], d) && Choose(l, d).None?
      ensures exists a :: InBox(a, d) && Feasible([], a)
    {
      var a := seq(|d|, v requires 0 <= v < |d| => MinOf(d[v]));
      assert InBox(a, d) && Feasible([], a);
    }
  }

  /** Every split the search can come to below `d` lies inside its window. */
  ghost predicate Splittable(props: seq<Propagator>, l: Layout, d: Doms) {
    forall e: Doms {:trigger Sub(e, d)} | Sub(e, d) && WellFormed(l, e) && CommonFixpoint(props, e) ::
        SplitsInside(l, e)
  }

  lemma SplittableBelow(props: seq<Propagator>, l: Layout, d: Doms, e: Doms)
    requires Splittable(props, l, d) && Sub(e, d)
    ensures Splittable(props, l, e)
  {
    forall f: Doms | Sub(f, e) && WellFormed(l, f) && CommonFixpoint(props, f) ensures SplitsInside(l, f) {
      SubTransitive(f, e, d);
    }
  }

  /** Start windows narrower than 2^31 are always split inside. */
  lemma NarrowIsSplittable(props: seq<Propagator>, l: Layout, d: Doms)
    requires LayoutOk(l, |d|) && NarrowWindows(l, d)
    ensures Splittable(props, l, d)
  {
    forall e: Doms | Sub(e, d) && WellFormed(l, e) && CommonFixpoint(props, e) ensures SplitsInside(l, e) {
      forall i | 0 <= i < |l.intervals| ensures e[l.intervals[i].start] <= d[l.intervals[i].start] {}
      NarrowSplitsInside(l, e);
    }
  }

  // --- propagation keeps the solutions --------------------------------------------------------

  lemma InBoxIsPoint(a: Assignment, d: Doms)
    requires |a| == |d|
    ensures InBox(a, d) <==> Sub(Point(a), d)
    ensures Nonempty(Point(a))
  {
    forall v | 0 <= v < |a| ensures a[v] in d[v] <==> Point(a)[v] <= d[v] {
      assert Point(a)[v] == {a[v]};
      assert a[v] in Point(a)[v];
    }
  }

  lemma PropagationKeepsSolutions(props: seq<Propagator>, l: Layout, start: Doms, d: Doms, s: Solution)
    requires LayoutOk(l, |start|) && GreatestFixpoint(props, start, d)
    ensures |d| == |start|
    ensures IsSolution(props, l, start, s) <==> IsSolution(props, l, d, s)
  {
    if IsSolution(props, l, start, s) {
      var a :| InBox(a, start) && Feasible(props, a) && Describes(l, a, s);
      InBoxIsPoint(a, start);
      InBoxIsPoint(a, d);
    }
    if IsSolution(props, l, d, s) {
      var a :| InBox(a, d) && Feasible(props, a) && Describes(l, a, s);
      InBoxIsPoint(a, d);
      SubTransitive(Point(a), d, start);
      InBoxIsPoint(a, start);
    }
  }

  lemma RefutedHasNoSolution(props: seq<Propagator>, l: Layout, start: Doms, s: Solution)
    requires LayoutOk(l, |start|) && Refuted(props, start)
    ensures !IsSolution(props, l, start, s)
  {
    if IsSolution(props, l, start, s) {
      var a :| InBox(a, start) && Feasible(props, a) && Describes(l, a, s);
      InBoxIsPoint(a, start);
    }
  }

  // --- decided boxes ---------------------------------------------------------------------------

  lemma FixedValue(s: Dom, x: int)
    requires x in s && Fixed(s)
    ensures MinOf(s) == x && MaxOf(s) == x
  {
    FixedIsSingleton(s);
  }

  lemma PresenceInBox(l: Layout, d: Doms, a: Assignment, i: nat)
    requires WellFormed(l, d) && InBox(a, d) && i < |l.intervals|
    ensures Presence(l, d, i) == Present ==> PresentIn(l, a, i)
    ensures Presence(l, d, i) == Absent ==> !PresentIn(l, a, i)
  {
    if l.intervals[i].presence.Some? {
      var v := l.intervals[i].presence.value;
      if Fixed(d[v]) { FixedValue(d[v], a[v]); }
    }
  }

  lemma MembershipInBox(l: Layout, d: Doms, a: Assignment, i: nat, k: nat)
    requires WellFormed(l, d) && InBox(a, d) && i < |l.lists| && k < |l.lists[i].members| && !Open(l, d, i, k)
    ensures Required(l, d, i, k) <==> a[l.lists[i].members[k]] == 1
  {
    var m := l.lists[i].members[k];
    if Fixed(d[m]) { FixedValue(d[m], a[m]); }
  }

  lemma StartInBox(l: Layout, d: Doms, a: Assignment, i: nat)
    requires WellFormed(l, d) && InBox(a, d) && i < |l.intervals|
    ensures StartMin(l, d, i) <= a[l.intervals[i].start] <= StartMax(l, d, i)
  {
  }

  /** With nothing left to decide, every assignment of the box stands for the collected solution and no other. */
  lemma LeafIsOneSolution(l: Layout, d: Doms, a: Assignment, s: Solution)
    requires WellFormed(l, d) && InBox(a, d) && Choose(l, d).None?
    ensures Describes(l, a, s) <==> s == Collect(l, d)
  {
    var c := Collect(l, d);
    forall i | 0 <= i < |l.lists|
      ensures ListsFlagged(l.lists[i].universe, MemberFlags(l.lists[i], a), c.lists[i])
    {
      forall k | 0 <= k < |l.lists[i].members| ensures RequiredFlags(l, d, i)[k] == MemberFlags(l.lists[i], a)[k] {
        MembershipInBox(l, d, a, i, k);
      }
      assert RequiredFlags(l, d, i) == MemberFlags(l.lists[i], a);
      CollectLists(l, d, i);
    }
    forall i | 0 <= i < |l.intervals|
      ensures c.starts[i] == if PresentIn(l, a, i) then Some(a[l.intervals[i].start]) else None
    {
      PresenceInBox(l, d, a, i);
      StartInBox(l, d, a, i);
      assert Presence(l, d, i) != Optional && !MustSplit(l, d, i);
    }
    if Describes(l, a, s) { DescribedOnce(l, a, s, c); }
  }

  /** At a decided fixpoint the only solution is the collected one. */
  lemma LeafSolutions(props: seq<Propagator>, l: Layout, d: Doms, s: Solution)
    requires Searchable(props, l, |d|) && WellFormed(l, d) && CommonFixpoint(props, d) && Choose(l, d).None?
    ensures IsSolution(props, l, d, s) <==> s == Collect(l, d)
  {
    if IsSolution(props, l, d, s) {
      var a :| InBox(a, d) && Feasible(props, a) && Describes(l, a, s);
      LeafIsOneSolution(l, d, a, s);
    }
    var a :| InBox(a, d) && Feasible(props, a);
    LeafIsOneSolution(l, d, a, s);
  }

  // --- branches cover and separate -----------------------------------------------------------------

  lemma ChosenDecision(l: Layout, d: Doms)
    requires WellFormed(l, d) && Choose(l, d).Some?
    ensures DecisionOk(l, Choose(l, d).value)
    ensures !Fixed(d[DecisionVar(l, Choose(l, d).value)])
  {
    var v := DecisionVar(l, Choose(l, d).value);
    FixedIsSingleton(d[v]);
  }

  lemma SplitFacts(l: Layout, d: Doms)
    requires WellFormed(l, d) && Choose(l, d).Some? && Choose(l, d).value.StartSplit? && SplitsInside(l, d)
    ensures
      var dec := Choose(l, d).value;
      && dec.interval < |l.intervals|
      && StartMin(l, d, dec.interval) <= dec.mid < StartMax(l, d, dec.interval)
      && SatAdd(dec.mid, 1) == dec.mid + 1
      && Presence(l, d, dec.interval) == Present
  {
    var s := d[l.intervals[Choose(l, d).value.interval].start];
    assert MinOf(s) in s && MaxOf(s) in s;
    assert FitsI32(MinOf(s)) && FitsI32(MaxOf(s));
  }

  /** The box of a branch of the chosen decision. */
  ghost function Child(l: Layout, d: Doms, left: bool): (b: Doms)
    requires WellFormed(l, d) && Choose(l, d).Some?
    ensures |b| == |d|
  {
    ChosenDecision(l, d);
    Branch(l, d, Choose(l, d).value, left)
  }

  lemma BranchesCover(l: Layout, d: Doms, a: Assignment)
    requires WellFormed(l, d) && SplitsInside(l, d) && Choose(l, d).Some? && InBox(a, d)
    ensures InBox(a, Child(l, d, true)) || InBox(a, Child(l, d, false))
  {
    ChosenDecision(l, d);
    var dec := Choose(l, d).value;
    var v := DecisionVar(l, dec);
    if dec.StartSplit? {
      SplitFacts(l, d);
    } else {
      assert a[v] in d[v] && d[v] <= {0, 1};
    }
    assert Keeps(dec, true, a[v]) || Keeps(dec, false, a[v]);
  }

  lemma BranchSmaller(l: Layout, d: Doms, left: bool)
    requires WellFormed(l, d) && SplitsInside(l, d) && Choose(l, d).Some?
    ensures
      var b := Child(l, d, left);
      Sub(b, d) && b != d && Size(b) < Size(d)
  {
    ChosenDecision(l, d);
    var dec := Choose(l, d).value;
    var v := DecisionVar(l, dec);
    var b := Branch(l, d, dec, left);
    FixedIsSingleton(d[v]);
    if dec.StartSplit? {
      SplitFacts(l, d);
      assert MinOf(d[v]) in d[v] && MaxOf(d[v]) in d[v];
    } else {
      assert d[v] <= {0, 1};
      assert MinOf(d[v]) == 0 && MaxOf(d[v]) == 1;
    }
    assert b[v] != d[v];
    SizeShrinks(b, d);
  }

  lemma ListSeparates(l: Layout, a: Assignment, b: Assignment, i: nat, k: nat, s: Solution)
    requires LayoutOk(l, |a|) && |a| == |b| && i < |l.lists| && k < |l.lists[i].members|
    requires a[l.lists[i].members[k]] == 1 && b[l.lists[i].members[k]] == 0
    ensures !(Describes(l, a, s) && Describes(l, b, s))
  {
    var list := l.lists[i];
    var (fa, fb) := (MemberFlags(list, a), MemberFlags(list, b));
    assert fa[k] && !fb[k];
    if Describes(l, a, s) { ListTells(list.universe, fa, s.lists[i], k); }
    if Describes(l, b, s) { ListTells(list.universe, fb, s.lists[i], k); }
  }

  lemma StartsEqual(l: Layout, a: Assignment, b: Assignment, i: nat, s: Solution)
    requires LayoutOk(l, |a|) && |a| == |b| && i < |l.intervals| && Describes(l, a, s) && Describes(l, b, s)
    ensures PresentIn(l, a, i) <==> PresentIn(l, b, i)
    ensures PresentIn(l, a, i) ==> a[l.intervals[i].start] == b[l.intervals[i].start]
  {
  }

  /** Feasible assignments in different branches stand for different solutions. */
  lemma BranchesSeparate(props: seq<Propagator>, l: Layout, d: Doms, a: Assignment, b: Assignment, s: Solution)
    requires WellFormed(l, d) && SplitsInside(l, d) && Choose(l, d).Some? && OrdersEnforced(props, l, |d|)
    requires InBox(a, Child(l, d, true)) && InBox(b, Child(l, d, false))
    requires Feasible(props, a) && Feasible(props, b)
    ensures !(Describes(l, a, s) && Describes(l, b, s))
  {
    var dec := Choose(l, d).value;
    var v := DecisionVar(l, dec);
    forall w | 0 <= w < |d| ensures a[w] in d[w] && b[w] in d[w] {
      assert a[w] in Branch(l, d, dec, true)[w] && b[w] in Branch(l, d, dec, false)[w];
    }
    assert Keeps(dec, true, a[v]) && Keeps(dec, false, b[v]);
    var both := Describes(l, a, s) && Describes(l, b, s);
    match dec
    case ListMembership(i, k) => ListSeparates(l, a, b, i, k, s);
    case IntervalPresence(i) =>
      assert PresentIn(l, a, i) && !PresentIn(l, b, i);
      if both { StartsEqual(l, a, b, i, s); }
    case StartSplit(i, _) =>
      SplitFacts(l, d);
      PresenceInBox(l, d, a, i);
      if both { StartsEqual(l, a, b, i, s); }
    case Order(k) =>
      var p := l.pairs[k];
      assert MustOrder(l, d, k);
      PresenceInBox(l, d, a, p.a);
      PresenceInBox(l, d, a, p.b);
      assert OrderRespected(l, a, k) && OrderRespected(l, b, k);
      if both {
        StartsEqual(l, a, b, p.a, s);
        StartsEqual(l, a, b, p.b, s);
      }
  }

  /** A branch's solutions are the node's. */
  lemma ChildSolution(props: seq<Propagator>, l: Layout, d: Doms, left: bool, s: Solution)
    requires WellFormed(l, d) && SplitsInside(l, d) && Choose(l, d).Some? && IsSolution(props, l, Child(l, d, left), s)
    ensures IsSolution(props, l, d, s)
  {
    BranchSmaller(l, d, left);
    var b := Child(l, d, left);
    var a :| InBox(a, b) && Feasible(props, a) && Describes(l, a, s);
    forall v | 0 <= v < |a| ensures a[v] in d[v] { assert b[v] <= d[v]; }
    assert InBox(a, d);
  }

  lemma NodeSolution(props: seq<Propagator>, l: Layout, d: Doms, s: Solution)
    requires WellFormed(l, d) && SplitsInside(l, d) && Choose(l, d).Some? && IsSolution(props, l, d, s)
    ensures IsSolution(props, l, Child(l, d, true), s) || IsSolution(props, l, Child(l, d, false), s)
  {
    var a :| InBox(a, d) && Feasible(props, a) && Describes(l, a, s);
    BranchesCover(l, d, a);
  }

  /** The node's solutions are those of its branches, and no solution has both. */
  lemma BranchSolutions(props: seq<Propagator>, l: Layout, d: Doms, s: Solution)
    requires WellFormed(l, d) && SplitsInside(l, d) && Choose(l, d).Some? && OrdersEnforced(props, l, |d|)
    ensures
      var left, right := Child(l, d, true), Child(l, d, false);
      && (IsSolution(props, l, d, s) <==> IsSolution(props, l, left, s) || IsSolution(props, l, right, s))
      && !(IsSolution(props, l, left, s) && IsSolution(props, l, right, s))
  {
    var left, right := Child(l, d, true), Child(l, d, false);
    if IsSolution(props, l, d, s) { NodeSolution(props, l, d, s); }
    if IsSolution(props, l, left, s) { ChildSolution(props, l, d, true, s); }
    if IsSolution(props, l, right, s) { ChildSolution(props, l, d, false, s); }
    if IsSolution(props, l, left, s) && IsSolution(props, l, right, s) {
      var a :| InBox(a, left) && Feasible(props, a) && Describes(l, a, s);
      var b :| InBox(b, right) && Feasible(props, b) && Describes(l, b, s);
      BranchesSeparate(props, l, d, a, b, s);
    }
  }

  // --- the search -------------------------------------------------------------------------------------

  datatype Exit = Exhausted | Stopped

  /** `reported` lists solutions of `d`, each at most once. */
  ghost predicate Sound(props: seq<Propagator>, l: Layout, d: Doms, reported: seq<Solution>)
    requires LayoutOk(l, |d|)
  {
    && Distinct(reported)
    && forall s | s in reported :: IsSolution(props, l, d, s)
  }

  /** `reported` lists every solution of `d`. */
  ghost predicate Complete(props: seq<Propagator>, l: Layout, d: Doms, reported: seq<Solution>)
    requires LayoutOk(l, |d|)
  {
    forall s | IsSolution(props, l, d, s) :: s in reported
  }

  lemma JoinBranches(props: seq<Propagator>, l: Layout, d: Doms, first: seq<Solution>, second: seq<Solution>)
    requires WellFormed(l, d) && SplitsInside(l, d) && Choose(l, d).Some? && OrdersEnforced(props, l, |d|)
    requires Sound(props, l, Child(l, d, true), first)
    requires Sound(props, l, Child(l, d, false), second)
    ensures Sound(props, l, d, first + second)
    ensures (Complete(props, l, Child(l, d, true), first) &&
             Complete(props, l, Child(l, d, false), second)) ==>
                 Complete(props, l, d, first + second)
  {
    forall i, j | 0 <= i < |first| && 0 <= j < |second| ensures first[i] != second[j] {
      BranchSolutions(props, l, d, first[i]);
      assert first[i] in first && second[j] in second;
    }
    forall s | s in first + second ensures IsSolution(props, l, d, s) {
      BranchSolutions(props, l, d, s);
      assert s in first || s in second;
    }
    if Complete(props, l, Child(l, d, true), first)
        && Complete(props, l, Child(l, d, false), second) {
      forall s | IsSolution(props, l, d, s) ensures s in first + second {
        BranchSolutions(props, l, d, s);
      }
    }
  }

  /** The solutions of the left branch come first, and all of them before any of the right branch. */
  ghost predicate LeftFirst(props: seq<Propagator>, l: Layout, d: Doms, reported: seq<Solution>)
    requires WellFormed(l, d) && Choose(l, d).Some?
  {
    exists k :: 0 <= k <= |reported| && LeftUpTo(props, l, d, reported, k)
  }

  ghost predicate LeftUpTo(props: seq<Propagator>, l: Layout, d: Doms, reported: seq<Solution>, k: nat)
    requires WellFormed(l, d) && Choose(l, d).Some? && k <= |reported|
  {
    && Sound(props, l, Child(l, d, true), reported[..k]) && Sound(props, l, Child(l, d, false), reported[k..])
    && (k < |reported| ==> Complete(props, l, Child(l, d, true), reported[..k]))
  }

  /** At a box with a decision left to take, the report is in the order of its branches. */
  ghost predicate InOrder(props: seq<Propagator>, l: Layout, d: Doms, reported: seq<Solution>) {
    WellFormed(l, d) && Choose(l, d).Some? ==> reported == [] || LeftFirst(props, l, d, reported)
  }

  lemma InLeftFirst(props: seq<Propagator>, l: Layout, d: Doms, first: seq<Solution>, second: seq<Solution>)
    requires WellFormed(l, d) && Choose(l, d).Some?
    requires Sound(props, l, Child(l, d, true), first) && Sound(props, l, Child(l, d, false), second)
    requires second != [] ==> Complete(props, l, Child(l, d, true), first)
    ensures LeftFirst(props, l, d, first + second)
  {
    assert (first + second)[..|first|] == first && (first + second)[|first|..] == second;
    assert LeftUpTo(props, l, d, first + second, |first|);
  }

  lemma EmptyBoxHasNoSolution(props: seq<Propagator>, l: Layout, d: Doms)
    requires LayoutOk(l, |d|) && !Nonempty(d)
    ensures Sound(props, l, d, []) && Complete(props, l, d, [])
  {
    var v :| 0 <= v < |d| && d[v] == {};
    forall a: Assignment ensures !InBox(a, d) {
      if |a| == |d| { assert a[v] !in d[v]; }
    }
  }

  /** Fix a Boolean variable; the opposite of a decided value fails. */
  method FixBoolean(s: Solver, v: nat, target: int) returns (ok: bool)
    requires s.Valid() && v < |s.subs| && Nonempty(s.store.doms)
    modifies s`queues, s`enqueued, s.store, s.store.trail
    ensures s.Valid() && s.store.saved == old(s.store.saved)
    ensures ok ==> s.store.doms == old(s.store.doms)[v := set x | x in old(s.store.doms)[v] && x == target]
    ensures !ok ==> target !in old(s.store.doms)[v] && s.enqueued == old(s.enqueued)
    ensures ok && old(s.Ready()) ==> s.Ready()
  {
    FixedIsSingleton(s.store.doms[v]);
    var size := s.store.Size(v);
    var value, _ := s.store.Bounds(v);
    if size == 1 {
      ok := value == target;
    } else {
      ok := s.FixTo(v, target);
    }
    if ok {
      assert (set x | x in old(s.store.doms)[v] && x == target) == {target};
    }
  }

  /** A Boolean decision keeps one value of its variable. */
  lemma BooleanBranch(l: Layout, d: Doms, dec: Decision, left: bool)
    requires LayoutOk(l, |d|) && DecisionOk(l, dec) && !dec.StartSplit?
    ensures
      var v, target := DecisionVar(l, dec), if left then 1 else 0;
      && Branch(l, d, dec, left) == d[v := set x | x in d[v] && x == target]
      && (target !in d[v] ==> !Nonempty(Branch(l, d, dec, left)))
  {
    var v, target := DecisionVar(l, dec), if left then 1 else 0;
    var b := Branch(l, d, dec, left);
    assert b[v] == set x | x in d[v] && x == target;
    if target !in d[v] { assert b[v] == {}; }
  }

  method ApplyDecision(s: Solver, l: Layout, dec: Decision, left: bool) returns (ok: bool)
    requires s.Valid() && LayoutOk(l, |s.store.doms|) && Nonempty(s.store.doms) && DecisionOk(l, dec)
    modifies s`queues, s`enqueued, s.store, s.store.trail
    ensures s.Valid() && s.store.saved == old(s.store.saved)
    ensures ok ==> s.store.doms == Branch(l, old(s.store.doms), dec, left)
    ensures !ok ==> !Nonempty(Branch(l, old(s.store.doms), dec, left)) && s.enqueued == old(s.enqueued)
    ensures ok && old(s.Ready()) ==> s.Ready()
  {
    ghost var was := s.store.doms;
    if !dec.StartSplit? { BooleanBranch(l, was, dec, left); }
    match dec
    case ListMembership(i, k) => ok := FixBoolean(s, l.lists[i].members[k], if left then 1 else 0);
    case IntervalPresence(i) => ok := FixBoolean(s, l.intervals[i].presence.value, if left then 1 else 0);
    case Order(k) => ok := FixBoolean(s, l.pairs[k].order, if left then 1 else 0);
    case StartSplit(i, mid) =>
      if left {
        ok := s.RemoveAbove(l.intervals[i].start, mid);
      } else {
        ok := s.RemoveBelow(l.intervals[i].start, SatAdd(mid, 1));
      }
      assert s.store.doms[l.intervals[i].start] == Branch(l, was, dec, left)[l.intervals[i].start];
      assert s.store.doms == Branch(l, was, dec, left);
  }

  /**
   Search the box of `s` under the layout `l`. `stop` says whether the stop
   flag may be raised or the callback may ask to stop. Every run reports only
   solutions and none twice; an exhausted run reports all of them, and a run
   nobody stops is exhausted. On either exit the level is the entry level.
   */
  method DomainDfs(s: Solver, l: Layout, stop: bool) returns (exit: Exit, reported: seq<Solution>)
    requires s.Valid() && s.current == None && s.Ready()
    requires Searchable(s.props, l, |s.store.doms|) && WellFormed(l, s.store.doms)
        && Splittable(s.props, l, s.store.doms)
    modifies s, s.store, s.store.trail
    ensures s.Valid() && s.current == None && s.store.saved == old(s.store.saved)
    ensures Sound(s.props, l, old(s.store.doms), reported)
    ensures exit.Exhausted? ==> Complete(s.props, l, old(s.store.doms), reported) && s.Drained()
    ensures exit.Exhausted? ==>
        Refuted(s.props, old(s.store.doms))
            || (Nonempty(s.store.doms) && GreatestFixpoint(s.props, old(s.store.doms), s.store.doms))
    ensures InOrder(s.props, l, s.store.doms, reported)
    ensures exit.Stopped? ==>
        stop && (s.store.doms == old(s.store.doms) || GreatestFixpoint(s.props, old(s.store.doms), s.store.doms))
    decreases Size(s.store.doms), 3
  {
    reported := [];
    var raised: bool := *;
    if stop && raised { return Stopped, []; }
    ghost var start := s.store.doms;
    var ok := s.Propagate();
    if !ok {
      RefutedReport(s.props, l, start);
      return Exhausted, [];
    }
    ghost var fixed := s.store.doms;
    SubBoxOk(l, fixed, start);
    SizeShrinks(fixed, start);
    SplittableBelow(s.props, l, start, fixed);
    var here := s.store.ReadDoms();
    var next := Choose(l, here);
    if next.None? {
      var solution := Collect(l, here);
      LeafReport(s.props, l, fixed);
      FixpointReport(s.props, l, start, fixed, [solution]);
      var halt: bool := *;
      return if stop && halt then Stopped else Exhausted, [solution];
    }
    exit, reported := ExploreBoth(s, l, stop);
    FixpointReport(s.props, l, start, fixed, reported);
  }

  /** Both branches of a node that is at its fixpoint, left first. */
  method ExploreBoth(s: Solver, l: Layout, stop: bool) returns (exit: Exit, reported: seq<Solution>)
    requires s.Valid() && s.current == None && s.Drained() && CommonFixpoint(s.props, s.store.doms)
    requires Searchable(s.props, l, |s.store.doms|) && WellFormed(l, s.store.doms)
    requires Splittable(s.props, l, s.store.doms) && Choose(l, s.store.doms).Some?
    modifies s, s.store, s.store.trail
    ensures s.Valid() && s.current == None && s.store.doms == old(s.store.doms) && s.store.saved == old(s.store.saved)
    ensures Sound(s.props, l, s.store.doms, reported)
    ensures LeftFirst(s.props, l, s.store.doms, reported)
    ensures exit.Exhausted? ==> s.Drained() && Complete(s.props, l, s.store.doms, reported)
    ensures exit.Stopped? ==> stop
    decreases Size(s.store.doms), 2
  {
    SplitHere(s.props, l, s.store.doms);
    exit, reported := Explore(s, l, true, stop);
    if exit.Stopped? {
      LeftReport(s.props, l, s.store.doms, reported);
      return;
    }
    var second;
    exit, second := Explore(s, l, false, stop);
    InLeftFirst(s.props, l, s.store.doms, reported, second);
    JoinBranches(s.props, l, s.store.doms, reported, second);
    reported := reported + second;
  }

  lemma RefutedReport(props: seq<Propagator>, l: Layout, start: Doms)
    requires LayoutOk(l, |start|) && Refuted(props, start)
    ensures Sound(props, l, start, []) && Complete(props, l, start, [])
  {
    forall x ensures !IsSolution(props, l, start, x) { RefutedHasNoSolution(props, l, start, x); }
  }

  /** A decided fixpoint reports exactly its solution. */
  lemma LeafReport(props: seq<Propagator>, l: Layout, d: Doms)
    requires Searchable(props, l, |d|) && WellFormed(l, d) && CommonFixpoint(props, d) && Choose(l, d).None?
    ensures Sound(props, l, d, [Collect(l, d)]) && Complete(props, l, d, [Collect(l, d)])
  {
    forall x ensures IsSolution(props, l, d, x) <==> x == Collect(l, d) { LeafSolutions(props, l, d, x); }
  }

  /** A report for the fixpoint is one for the box it came from. */
  lemma FixpointReport(props: seq<Propagator>, l: Layout, start: Doms, fixed: Doms, reported: seq<Solution>)
    requires LayoutOk(l, |start|) && GreatestFixpoint(props, start, fixed)
    ensures |fixed| == |start|
    ensures Sound(props, l, fixed, reported) ==> Sound(props, l, start, reported)
    ensures Complete(props, l, fixed, reported) ==> Complete(props, l, start, reported)
  {
    forall x ensures IsSolution(props, l, start, x) <==> IsSolution(props, l, fixed, x) {
      PropagationKeepsSolutions(props, l, start, fixed, x);
    }
  }

  /** What the left branch reports is sound for the node. */
  lemma LeftReport(props: seq<Propagator>, l: Layout, d: Doms, first: seq<Solution>)
    requires WellFormed(l, d) && SplitsInside(l, d) && Choose(l, d).Some? && OrdersEnforced(props, l, |d|)
    requires Sound(props, l, Child(l, d, true), first)
    ensures Sound(props, l, d, first) && LeftFirst(props, l, d, first)
  {
    JoinBranches(props, l, d, first, []);
    InLeftFirst(props, l, d, first, []);
    assert first + [] == first;
  }

  /** A branch of a node at its fixpoint is a smaller box the search may enter. */
  lemma ChildReady(props: seq<Propagator>, l: Layout, d: Doms, left: bool)
    requires WellFormed(l, d) && CommonFixpoint(props, d) && Splittable(props, l, d) && Choose(l, d).Some?
    ensures
      var b := Child(l, d, left);
      && LayoutOk(l, |b|) && BoxOk(l, b) && Splittable(props, l, b) && Size(b) < Size(d)
      && DecisionOk(l, Choose(l, d).value) && b == Branch(l, d, Choose(l, d).value, left)
      && (Nonempty(b) ==> WellFormed(l, b))
  {
    SplitHere(props, l, d);
    BranchSmaller(l, d, left);
    SubBoxOk(l, Child(l, d, left), d);
    SplittableBelow(props, l, d, Child(l, d, left));
  }

  /** One branch of a node that is at its fixpoint: open a level, search, close the level. */
  method Explore(s: Solver, l: Layout, left: bool, stop: bool) returns (exit: Exit, reported: seq<Solution>)
    requires s.Valid() && s.current == None && s.Drained() && CommonFixpoint(s.props, s.store.doms)
    requires Searchable(s.props, l, |s.store.doms|) && WellFormed(l, s.store.doms)
    requires Splittable(s.props, l, s.store.doms) && Choose(l, s.store.doms).Some?
    modifies s, s.store, s.store.trail
    ensures s.Valid() && s.current == None && s.store.doms == old(s.store.doms) && s.store.saved == old(s.store.saved)
    ensures Sound(s.props, l, Child(l, s.store.doms, left), reported)
    ensures exit.Exhausted? ==> s.Drained() && Complete(s.props, l, Child(l, s.store.doms, left), reported)
    ensures exit.Stopped? ==> stop
    decreases Size(s.store.doms), 1
  {
    s.PushLevel();
    exit, reported := Descend(s, l, left, stop);
    s.PopLevel();
  }

  /** Decide, and search the branch; a decision that fails leaves nothing to search. */
  method Descend(s: Solver, l: Layout, left: bool, stop: bool) returns (exit: Exit, reported: seq<Solution>)
    requires s.Valid() && s.current == None && s.Drained() && CommonFixpoint(s.props, s.store.doms)
    requires Searchable(s.props, l, |s.store.doms|) && WellFormed(l, s.store.doms)
    requires Splittable(s.props, l, s.store.doms) && Choose(l, s.store.doms).Some?
    modifies s, s.store, s.store.trail
    ensures s.Valid() && s.current == None && s.store.saved == old(s.store.saved)
    ensures Sound(s.props, l, Child(l, old(s.store.doms), left), reported)
    ensures exit.Exhausted? ==> s.Drained() && Complete(s.props, l, Child(l, old(s.store.doms), left), reported)
    ensures exit.Stopped? ==> stop
    decreases Size(s.store.doms), 0
  {
    var here := s.store.ReadDoms();
    ChildReady(s.props, l, here, left);
    FixpointIsReady(s);
    var ok := ApplyDecision(s, l, Choose(l, here).value, left);
    if ok {
      exit, reported := DomainDfs(s, l, stop);
    } else {
      EmptyBoxHasNoSolution(s.props, l, Child(l, here, left));
      exit, reported := Exhausted, [];
    }
  }

  lemma SplitHere(props: seq<Propagator>, l: Layout, d: Doms)
    requires WellFormed(l, d) && CommonFixpoint(props, d) && Splittable(props, l, d)
    ensures SplitsInside(l, d)
  {
    assert Sub(d, d);
  }

  lemma FixpointIsReady(s: Solver)
    requires s.Valid() && s.current == None && Nonempty(s.store.doms) && CommonFixpoint(s.props, s.store.doms)
    ensures s.Ready()
  {
    forall p | 0 <= p < |s.props| ensures Settled(s.props, s.enqueued, s.store.doms, p) {
      assert FixedBy(s.props[p], s.store.doms);
    }
  }

  /** A self-contained search: every propagator is queued first. */
  method SolveDomains(s: Solver, l: Layout, stop: bool) returns (complete: bool, reported: seq<Solution>)
    requires s.Valid() && s.current == None
    requires Searchable(s.props, l, |s.store.doms|) && WellFormed(l, s.store.doms)
        && Splittable(s.props, l, s.store.doms)
    modifies s, s.store, s.store.trail
    ensures s.Valid() && s.store.saved == old(s.store.saved)
    ensures Sound(s.props, l, old(s.store.doms), reported)
    ensures complete ==> Complete(s.props, l, old(s.store.doms), reported)
    ensures !stop ==> complete
  {
    s.EnqueueAll();
    var exit;
    exit, reported := DomainDfs(s, l, stop);
    var raised: bool := *;
    complete := exit == Exhausted && !(stop && raised);
  }
}
