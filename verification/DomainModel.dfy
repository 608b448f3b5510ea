/**
 List and interval domains over a box of integer variables: the decision the
 domain search takes next, its two branches, and the solutions of a box
 (src/search.rs, `choose_domain_decision` and `collect_domain_solution`).
 */
module DomainModels {
  import opened Common
  import opened Domains
  import Subsets

  datatype IntervalVar = IntervalVar(start: nat, duration: nat, presence: Option<nat>)

  /** `members[k]` is the Boolean variable of `universe[k]`. */
  datatype ListVar = ListVar(universe: seq<int>, members: seq<nat>)

  /** The order variable is 1 when `a` precedes `b` and 0 when `b` precedes `a`. */
  datatype Pair = Pair(a: nat, b: nat, order: nat)

  datatype Layout = Layout(intervals: seq<IntervalVar>, lists: seq<ListVar>, pairs: seq<Pair>)

  ghost predicate LayoutOk(l: Layout, n: nat) {
    && (forall i | 0 <= i < |l.intervals| ::
          l.intervals[i].start < n && (l.intervals[i].presence.Some? ==> l.intervals[i].presence.value < n))
    && (forall i | 0 <= i < |l.lists| ::
          && |l.lists[i].members| == |l.lists[i].universe| && Distinct(l.lists[i].universe)
          && forall k | 0 <= k < |l.lists[i].members| :: l.lists[i].members[k] < n)
    && (forall k | 0 <= k < |l.pairs| ::
          l.pairs[k].a < |l.intervals| && l.pairs[k].b < |l.intervals| && l.pairs[k].order < n)
  }

  /** Values are 32-bit integers; presence, membership and order variables are Boolean. */
  ghost predicate BoxOk(l: Layout, d: Doms)
    requires LayoutOk(l, |d|)
  {
    && (forall v, x | 0 <= v < |d| && x in d[v] :: FitsI32(x))
    && (forall i | 0 <= i < |l.intervals| && l.intervals[i].presence.Some? ::
        d[l.intervals[i].presence.value] <= {0, 1})
    && (forall i, k | 0 <= i < |l.lists| && 0 <= k < |l.lists[i].members| :: d[l.lists[i].members[k]] <= {0, 1})
    && (forall k | 0 <= k < |l.pairs| :: d[l.pairs[k].order] <= {0, 1})
  }

  ghost predicate WellFormed(l: Layout, d: Doms) { LayoutOk(l, |d|) && Nonempty(d) && BoxOk(l, d) }

  lemma SubBoxOk(l: Layout, d: Doms, e: Doms)
    requires LayoutOk(l, |e|) && BoxOk(l, e) && Sub(d, e)
    ensures BoxOk(l, d)
  {
    forall i | 0 <= i < |l.intervals| && l.intervals[i].presence.Some?
      ensures d[l.intervals[i].presence.value] <= {0, 1}
    {
      assert d[l.intervals[i].presence.value] <= e[l.intervals[i].presence.value];
    }
    forall i, k | 0 <= i < |l.lists| && 0 <= k < |l.lists[i].members| ensures d[l.lists[i].members[k]] <= {0, 1} {
      assert d[l.lists[i].members[k]] <= e[l.lists[i].members[k]];
    }
    forall k | 0 <= k < |l.pairs| ensures d[l.pairs[k].order] <= {0, 1} {
      assert d[l.pairs[k].order] <= e[l.pairs[k].order];
    }
  }

  // --- machine arithmetic -----------------------------------------------------------------

  function SatAdd(a: int, b: int): int {
    if a + b > 0x7fff_ffff then 0x7fff_ffff else if a + b < -0x8000_0000 then -0x8000_0000 else a + b
  }

  /** Two's-complement wrap-around to 32 bits. */
  function Wrap32(x: int): int { (x + 0x8000_0000) % 0x1_0000_0000 - 0x8000_0000 }

  /** Division by two rounded toward zero. */
  function Half(x: int): int { if x >= 0 then x / 2 else -((-x) / 2) }

  function SplitMid(lo: int, hi: int): int { Wrap32(lo + Half(Wrap32(hi - lo))) }

  /**
   The split point lies inside the window exactly when the window's width fits
   32 bits or is the full range; otherwise the subtraction wraps and one branch
   keeps the whole window.
   */
  lemma SplitMidInsideIff(lo: int, hi: int)
    requires FitsI32(lo) && FitsI32(hi) && lo < hi
    ensures lo <= SplitMid(lo, hi) < hi <==> hi - lo <= 0x7fff_ffff || hi - lo == 0xffff_ffff
    // and then it halves the window
    ensures hi - lo <= 0x7fff_ffff ==> 0 <= (hi - SplitMid(lo, hi)) - (SplitMid(lo, hi) - lo) <= 1
  {
    var w := hi - lo;
    if w <= 0x7fff_ffff {
      assert Wrap32(w) == w;
      assert lo <= lo + w / 2 < hi;
      assert Wrap32(lo + w / 2) == lo + w / 2;
    } else {
      assert Wrap32(w) == w - 0x1_0000_0000;
      var h := (0x1_0000_0000 - w) / 2;
      assert Half(Wrap32(w)) == -h;
      assert Wrap32(lo - h) == if lo - h >= -0x8000_0000 then lo - h else lo - h + 0x1_0000_0000;
    }
  }

  /** A point outside the window leaves one branch of the split with every value. */
  lemma OutsideSplitKeepsAll(s: Dom, mid: int)
    requires s != {} && FitsI32(mid) && FitsI32(MinOf(s)) && FitsI32(MaxOf(s))
    ensures mid < MinOf(s) <==> (forall x | x in s :: x >= SatAdd(mid, 1)) && (forall x | x in s :: x > mid)
    ensures mid >= MaxOf(s) <==> forall x | x in s :: x <= mid
  {
    assert MinOf(s) in s && MaxOf(s) in s;
  }

  // --- reads --------------------------------------------------------------------------------

  datatype PresenceState = Optional | Absent | Present

  function Presence(l: Layout, d: Doms, i: nat): PresenceState
    requires WellFormed(l, d) && i < |l.intervals|
  {
    match l.intervals[i].presence
    case None => Present
    case Some(v) => if !Fixed(d[v]) then Optional else if MinOf(d[v]) == 1 then Present else Absent
  }

  function StartMin(l: Layout, d: Doms, i: nat): int
    requires WellFormed(l, d) && i < |l.intervals|
  {
    MinOf(d[l.intervals[i].start])
  }

  function StartMax(l: Layout, d: Doms, i: nat): int
    requires WellFormed(l, d) && i < |l.intervals|
  {
    MaxOf(d[l.intervals[i].start])
  }

  /** Whether two intervals can still share an instant. */
  predicate CanStrictlyOverlap(l: Layout, d: Doms, a: nat, b: nat)
    requires WellFormed(l, d) && a < |l.intervals| && b < |l.intervals|
  {
    && l.intervals[a].duration != 0 && l.intervals[b].duration != 0
    && Common.Max(StartMin(l, d, a), StartMin(l, d, b))
       < Common.Min(SatAdd(StartMax(l, d, a), l.intervals[a].duration),
           SatAdd(StartMax(l, d, b), l.intervals[b].duration))
  }

  /** Some start in each window makes the two intervals cover a common instant. */
  ghost predicate SharesInstant(l: Layout, d: Doms, a: nat, b: nat)
    requires WellFormed(l, d) && a < |l.intervals| && b < |l.intervals|
  {
    exists sa: int, sb: int ::
      && StartMin(l, d, a) <= sa <= StartMax(l, d, a) && StartMin(l, d, b) <= sb <= StartMax(l, d, b)
      && Common.Max(sa, sb) < Common.Min(sa + l.intervals[a].duration, sb + l.intervals[b].duration)
  }

  /**
   The overlap test finds a shared instant exactly when there is one, except
   when a window opens at the largest machine value, where the saturated end
   hides it.
   */
  lemma CanStrictlyOverlapIff(l: Layout, d: Doms, a: nat, b: nat)
    requires WellFormed(l, d) && a < |l.intervals| && b < |l.intervals|
    ensures CanStrictlyOverlap(l, d, a, b) <==>
            SharesInstant(l, d, a, b) && Common.Max(StartMin(l, d, a), StartMin(l, d, b)) < 0x7fff_ffff
  {
    var (la, ua, da) := (StartMin(l, d, a), StartMax(l, d, a), l.intervals[a].duration);
    var (lb, ub, db) := (StartMin(l, d, b), StartMax(l, d, b), l.intervals[b].duration);
    assert FitsI32(la) && FitsI32(ua) && FitsI32(lb) && FitsI32(ub);
    if CanStrictlyOverlap(l, d, a, b) {
      var t := Common.Max(lb - ua, 1 - db);
      var sa := Common.Max(la, lb - t);
      var sb := sa + t;
      assert la <= sa <= ua && lb <= sb <= ub;
      assert Common.Max(sa, sb) < Common.Min(sa + da, sb + db);
    }
  }

  predicate Possible(l: Layout, d: Doms, i: nat, k: nat)
    requires WellFormed(l, d) && i < |l.lists| && k < |l.lists[i].members|
  {
    1 in d[l.lists[i].members[k]]
  }

  predicate Required(l: Layout, d: Doms, i: nat, k: nat)
    requires WellFormed(l, d) && i < |l.lists| && k < |l.lists[i].members|
  {
    Fixed(d[l.lists[i].members[k]]) && MinOf(d[l.lists[i].members[k]]) == 1
  }

  // --- the next decision -----------------------------------------------------------------------

  datatype Decision =
    | ListMembership(list: nat, item: nat)
    | IntervalPresence(interval: nat)
    | Order(pair: nat)
    | StartSplit(interval: nat, mid: int)

  function FirstOptional(l: Layout, d: Doms, i: nat): (r: Option<nat>)
    requires WellFormed(l, d) && i <= |l.intervals|
    ensures r.Some? ==> i <= r.value < |l.intervals| && Presence(l, d, r.value) == Optional
    ensures r.Some? ==> forall j | i <= j < r.value :: Presence(l, d, j) != Optional
    ensures r.None? ==> forall j | i <= j < |l.intervals| :: Presence(l, d, j) != Optional
    decreases |l.intervals| - i
  {
    if i == |l.intervals| then None
    else if Presence(l, d, i) == Optional then Some(i)
    else FirstOptional(l, d, i + 1)
  }

  predicate MustOrder(l: Layout, d: Doms, k: nat)
    requires WellFormed(l, d) && k < |l.pairs|
  {
    var p := l.pairs[k];
    && !Fixed(d[p.order])
    && Presence(l, d, p.a) == Present && Presence(l, d, p.b) == Present
    && CanStrictlyOverlap(l, d, p.a, p.b)
  }

  function FirstPair(l: Layout, d: Doms, k: nat): (r: Option<nat>)
    requires WellFormed(l, d) && k <= |l.pairs|
    ensures r.Some? ==> k <= r.value < |l.pairs| && MustOrder(l, d, r.value)
    ensures r.Some? ==> forall j | k <= j < r.value :: !MustOrder(l, d, j)
    ensures r.None? ==> forall j | k <= j < |l.pairs| :: !MustOrder(l, d, j)
    decreases |l.pairs| - k
  {
    if k == |l.pairs| then None
    else if MustOrder(l, d, k) then Some(k)
    else FirstPair(l, d, k + 1)
  }

  predicate MustSplit(l: Layout, d: Doms, i: nat)
    requires WellFormed(l, d) && i < |l.intervals|
  {
    Presence(l, d, i) != Absent && StartMin(l, d, i) < StartMax(l, d, i)
  }

  function FirstSplit(l: Layout, d: Doms, i: nat): (r: Option<nat>)
    requires WellFormed(l, d) && i <= |l.intervals|
    ensures r.Some? ==> i <= r.value < |l.intervals| && MustSplit(l, d, r.value)
    ensures r.Some? ==> forall j | i <= j < r.value :: !MustSplit(l, d, j)
    ensures r.None? ==> forall j | i <= j < |l.intervals| :: !MustSplit(l, d, j)
    decreases |l.intervals| - i
  {
    if i == |l.intervals| then None
    else if MustSplit(l, d, i) then Some(i)
    else FirstSplit(l, d, i + 1)
  }

  predicate Open(l: Layout, d: Doms, i: nat, k: nat)
    requires WellFormed(l, d) && i < |l.lists| && k < |l.lists[i].members|
  {
    Possible(l, d, i, k) && !Required(l, d, i, k)
  }

  function FirstItem(l: Layout, d: Doms, i: nat, k: nat): (r: Option<nat>)
    requires WellFormed(l, d) && i < |l.lists| && k <= |l.lists[i].members|
    ensures r.Some? ==> k <= r.value < |l.lists[i].members| && Open(l, d, i, r.value)
    ensures r.Some? ==> forall j | k <= j < r.value :: !Open(l, d, i, j)
    ensures r.None? ==> forall j | k <= j < |l.lists[i].members| :: !Open(l, d, i, j)
    decreases |l.lists[i].members| - k
  {
    if k == |l.lists[i].members| then None
    else if Open(l, d, i, k) then Some(k)
    else FirstItem(l, d, i, k + 1)
  }

  function FirstListItem(l: Layout, d: Doms, i: nat): (r: Option<(nat, nat)>)
    requires WellFormed(l, d) && i <= |l.lists|
    ensures r.Some? ==>
        && i <= r.value.0 < |l.lists| && r.value.1 < |l.lists[r.value.0].members|
        && Open(l, d, r.value.0, r.value.1) && (forall k | 0 <= k < r.value.1 :: !Open(l, d, r.value.0, k))
        && forall j, k | i <= j < r.value.0 && 0 <= k < |l.lists[j].members| :: !Open(l, d, j, k)
    ensures r.None? ==> forall j, k | i <= j < |l.lists| && 0 <= k < |l.lists[j].members| :: !Open(l, d, j, k)
    decreases |l.lists| - i
  {
    if i == |l.lists| then None
    else
      match FirstItem(l, d, i, 0)
      case Some(k) => Some((i, k))
      case None => FirstListItem(l, d, i + 1)
  }

  function Choose(l: Layout, d: Doms): Option<Decision>
    requires WellFormed(l, d)
  {
    match FirstOptional(l, d, 0)
    case Some(i) => Some(IntervalPresence(i))
    case None =>
      match FirstPair(l, d, 0)
      case Some(k) => Some(Order(k))
      case None =>
        match FirstSplit(l, d, 0)
        case Some(i) => Some(StartSplit(i, SplitMid(StartMin(l, d, i), StartMax(l, d, i))))
        case None =>
          match FirstListItem(l, d, 0)
          case Some((i, k)) => Some(ListMembership(i, k))
          case None => None
  }

  // --- the reads and the choice in terms of the box ------------------------------------------------

  /** The three presence states are those of the interval's own presence variable. */
  lemma PresenceMeans(l: Layout, d: Doms, i: nat)
    requires WellFormed(l, d) && i < |l.intervals|
    ensures
      var p := l.intervals[i].presence;
      && (Presence(l, d, i) == Optional <==> p.Some? && d[p.value] == {0, 1})
      && (Presence(l, d, i) == Present <==> p.None? || d[p.value] == {1})
      && (Presence(l, d, i) == Absent <==> p.Some? && d[p.value] == {0})
  {
    if l.intervals[i].presence.Some? { BooleanDom(d[l.intervals[i].presence.value]); }
  }

  lemma BooleanDom(s: Dom)
    requires s != {} && s <= {0, 1}
    ensures s == {0} || s == {1} || s == {0, 1}
    ensures !Fixed(s) <==> s == {0, 1}
    ensures Fixed(s) ==> s == {MinOf(s)}
    ensures 1 in s && !(Fixed(s) && MinOf(s) == 1) <==> s == {0, 1}
  {
    FixedIsSingleton(s);
    assert 0 !in s ==> s == {1};
    assert 1 !in s ==> s == {0};
    assert 0 in s && 1 in s ==> s == {0, 1};
  }

  /** A pair is up for ordering when both orders are left and both intervals are certain and can share an instant. */
  lemma MustOrderIff(l: Layout, d: Doms, k: nat)
    requires WellFormed(l, d) && k < |l.pairs|
    ensures
      var p := l.pairs[k];
      MustOrder(l, d, k) <==>
        && d[p.order] == {0, 1} && Presence(l, d, p.a) == Present && Presence(l, d, p.b) == Present
        && SharesInstant(l, d, p.a, p.b) && Common.Max(StartMin(l, d, p.a), StartMin(l, d, p.b)) < 0x7fff_ffff
  {
    BooleanDom(d[l.pairs[k].order]);
    CanStrictlyOverlapIff(l, d, l.pairs[k].a, l.pairs[k].b);
  }

  lemma MustSplitIff(l: Layout, d: Doms, i: nat)
    requires WellFormed(l, d) && i < |l.intervals|
    ensures
      var s := d[l.intervals[i].start];
      MustSplit(l, d, i) <==> Presence(l, d, i) != Absent && exists x, y :: x in s && y in s && x != y
  {
    var s := d[l.intervals[i].start];
    assert MinOf(s) in s && MaxOf(s) in s;
  }

  lemma OpenIff(l: Layout, d: Doms, i: nat, k: nat)
    requires WellFormed(l, d) && i < |l.lists| && k < |l.lists[i].members|
    ensures Open(l, d, i, k) <==> d[l.lists[i].members[k]] == {0, 1}
  {
    BooleanDom(d[l.lists[i].members[k]]);
  }

  /** Presences are decided before orders, orders before starts, starts before memberships, the first of each kind. */
  lemma ChoicePriority(l: Layout, d: Doms)
    requires WellFormed(l, d)
    ensures
      match Choose(l, d)
      case Some(IntervalPresence(i)) =>
        && i < |l.intervals| && Presence(l, d, i) == Optional
        && forall j | 0 <= j < i :: Presence(l, d, j) != Optional
      case Some(Order(k)) =>
        && (forall j | 0 <= j < |l.intervals| :: Presence(l, d, j) != Optional)
        && k < |l.pairs| && MustOrder(l, d, k) && forall j | 0 <= j < k :: !MustOrder(l, d, j)
      case Some(StartSplit(i, mid)) =>
        && (forall j | 0 <= j < |l.intervals| :: Presence(l, d, j) != Optional)
        && (forall j | 0 <= j < |l.pairs| :: !MustOrder(l, d, j))
        && i < |l.intervals| && MustSplit(l, d, i) && (forall j | 0 <= j < i :: !MustSplit(l, d, j))
        && mid == SplitMid(StartMin(l, d, i), StartMax(l, d, i))
      case Some(ListMembership(i, k)) =>
        && (forall j | 0 <= j < |l.intervals| :: Presence(l, d, j) != Optional)
        && (forall j | 0 <= j < |l.pairs| :: !MustOrder(l, d, j))
        && (forall j | 0 <= j < |l.intervals| :: !MustSplit(l, d, j))
        && i < |l.lists| && k < |l.lists[i].members| && Open(l, d, i, k)
        && (forall m | 0 <= m < k :: !Open(l, d, i, m))
        && forall j, m | 0 <= j < i && 0 <= m < |l.lists[j].members| :: !Open(l, d, j, m)
      case None =>
        && (forall j | 0 <= j < |l.intervals| :: Presence(l, d, j) != Optional)
        && (forall j | 0 <= j < |l.pairs| :: !MustOrder(l, d, j))
        && (forall j | 0 <= j < |l.intervals| :: !MustSplit(l, d, j))
        && forall j, m | 0 <= j < |l.lists| && 0 <= m < |l.lists[j].members| :: !Open(l, d, j, m)
  {
  }

  /** A start that is split is split inside its window. */
  ghost predicate SplitsInside(l: Layout, d: Doms)
    requires WellFormed(l, d)
  {
    match Choose(l, d)
    case Some(StartSplit(i, mid)) => StartMin(l, d, i) <= mid < StartMax(l, d, i)
    case _ => true
  }

  /** Every start window is narrower than 2^31. */
  ghost predicate NarrowWindows(l: Layout, d: Doms)
    requires LayoutOk(l, |d|)
  {
    forall i, x, y | 0 <= i < |l.intervals| && x in d[l.intervals[i].start] && y in d[l.intervals[i].start] ::
      y - x <= 0x7fff_ffff
  }

  /** A split is inside exactly when the window's width fits 32 bits or is the full range. */
  lemma SplitsInsideIff(l: Layout, d: Doms)
    requires WellFormed(l, d) && Choose(l, d).Some? && Choose(l, d).value.StartSplit?
    ensures
      var i := Choose(l, d).value.interval;
      SplitsInside(l, d) <==>
        StartMax(l, d, i) - StartMin(l, d, i) <= 0x7fff_ffff || StartMax(l, d, i) - StartMin(l, d, i) == 0xffff_ffff
  {
    var s := d[l.intervals[Choose(l, d).value.interval].start];
    assert MinOf(s) in s && MaxOf(s) in s;
    SplitMidInsideIff(MinOf(s), MaxOf(s));
  }

  lemma NarrowSplitsInside(l: Layout, d: Doms)
    requires WellFormed(l, d) && NarrowWindows(l, d)
    ensures SplitsInside(l, d)
  {
    if Choose(l, d).Some? && Choose(l, d).value.StartSplit? {
      var s := d[l.intervals[Choose(l, d).value.interval].start];
      assert MinOf(s) in s && MaxOf(s) in s;
      SplitsInsideIff(l, d);
    }
  }

  // --- branches ------------------------------------------------------------------------------

  predicate DecisionOk(l: Layout, dec: Decision) {
    match dec
    case ListMembership(i, k) => i < |l.lists| && k < |l.lists[i].members|
    case IntervalPresence(i) => i < |l.intervals| && l.intervals[i].presence.Some?
    case Order(k) => k < |l.pairs|
    case StartSplit(i, _) => i < |l.intervals|
  }

  function DecisionVar(l: Layout, dec: Decision): nat
    requires DecisionOk(l, dec)
  {
    match dec
    case ListMembership(i, k) => l.lists[i].members[k]
    case IntervalPresence(i) => l.intervals[i].presence.value
    case Order(k) => l.pairs[k].order
    case StartSplit(i, _) => l.intervals[i].start
  }

  /** The values a branch of `dec` keeps. */
  predicate Keeps(dec: Decision, left: bool, x: int) {
    match dec
    case StartSplit(_, mid) => if left then x <= mid else x >= SatAdd(mid, 1)
    case _ => x == (if left then 1 else 0)
  }

  function Branch(l: Layout, d: Doms, dec: Decision, left: bool): Doms
    requires LayoutOk(l, |d|) && DecisionOk(l, dec)
  {
    var v := DecisionVar(l, dec);
    d[v := set x | x in d[v] && Keeps(dec, left, x)]
  }

  /** A split outside the window has the whole box as one of its branches, so the search meets the same node again. */
  lemma OutsideSplitRepeats(l: Layout, d: Doms)
    requires WellFormed(l, d) && !SplitsInside(l, d)
    ensures Choose(l, d).Some? && DecisionOk(l, Choose(l, d).value)
    ensures exists left :: Branch(l, d, Choose(l, d).value, left) == d
  {
    var dec := Choose(l, d).value;
    var s := d[l.intervals[dec.interval].start];
    assert MinOf(s) in s && MaxOf(s) in s;
    OutsideSplitKeepsAll(s, dec.mid);
    var left := dec.mid >= MaxOf(s);
    assert (set x | x in s && Keeps(dec, left, x)) == s;
    assert Branch(l, d, dec, left) == d;
  }

  // --- solutions --------------------------------------------------------------------------------

  ghost predicate InBox(a: Assignment, d: Doms) { |a| == |d| && forall v | 0 <= v < |a| :: a[v] in d[v] }

  function Point(a: Assignment): Doms { seq(|a|, v requires 0 <= v < |a| => {a[v]}) }

  /** An assignment every propagator accepts. */
  ghost predicate Feasible(props: seq<Propagator>, a: Assignment) { CommonFixpoint(props, Point(a)) }

  datatype Solution = Solution(lists: seq<seq<int>>, starts: seq<Option<int>>)

  /** The items whose flag is set, in order. */
  function Chosen(universe: seq<int>, flags: seq<bool>): seq<int>
    requires |universe| == |flags|
  {
    if universe == [] then []
    else (if flags[0] then [universe[0]] else []) + Chosen(universe[1..], flags[1..])
  }

  function RequiredFlags(l: Layout, d: Doms, i: nat): seq<bool>
    requires WellFormed(l, d) && i < |l.lists|
  {
    seq(|l.lists[i].members|, k requires 0 <= k < |l.lists[i].members| => Required(l, d, i, k))
  }

  function Collect(l: Layout, d: Doms): Solution
    requires WellFormed(l, d)
  {
    Solution(
      seq(|l.lists|, i requires 0 <= i < |l.lists| =>
        Chosen(l.lists[i].universe, RequiredFlags(l, d, i))),
      seq(|l.intervals|, i requires 0 <= i < |l.intervals| =>
        if Presence(l, d, i) == Absent then None else Some(StartMin(l, d, i))))
  }

  // --- what a solution says -------------------------------------------------------------------

  /** `r` lists the items at the positions `idx`, which are those whose flag is set, in increasing order. */
  ghost predicate Picks(universe: seq<int>, flags: seq<bool>, idx: seq<nat>, r: seq<int>)
    requires |universe| == |flags|
  {
    && Subsets.Increasing(idx) && |r| == |idx|
    && (forall j | 0 <= j < |idx| :: idx[j] < |universe| && r[j] == universe[idx[j]])
    && (forall k | 0 <= k < |universe| :: k in idx <==> flags[k])
  }

  /** `r` lists exactly the items whose flag is set, each once and in the order of the universe. */
  ghost predicate ListsFlagged(universe: seq<int>, flags: seq<bool>, r: seq<int>)
    requires |universe| == |flags|
  {
    exists idx :: Picks(universe, flags, idx, r)
  }

  function MemberFlags(list: ListVar, a: Assignment): seq<bool>
    requires forall k | 0 <= k < |list.members| :: list.members[k] < |a|
  {
    seq(|list.members|, k requires 0 <= k < |list.members| => a[list.members[k]] == 1)
  }

  predicate PresentIn(l: Layout, a: Assignment, i: nat)
    requires LayoutOk(l, |a|) && i < |l.intervals|
  {
    l.intervals[i].presence.None? || a[l.intervals[i].presence.value] == 1
  }

  /** The solution lists the members and gives the starts of the present intervals of the assignment. */
  ghost predicate Describes(l: Layout, a: Assignment, s: Solution)
    requires LayoutOk(l, |a|)
  {
    && |s.lists| == |l.lists| && |s.starts| == |l.intervals|
    && (forall i | 0 <= i < |l.lists| :: ListsFlagged(l.lists[i].universe, MemberFlags(l.lists[i], a), s.lists[i]))
    && (forall i | 0 <= i < |l.intervals| ::
          s.starts[i] == if PresentIn(l, a, i) then Some(a[l.intervals[i].start]) else None)
  }

  function Shift(idx: seq<nat>): (r: seq<nat>)
    ensures |r| == |idx| && forall j | 0 <= j < |idx| :: r[j] == idx[j] + 1
  {
    seq(|idx|, j requires 0 <= j < |idx| => idx[j] + 1)
  }

  lemma ShiftHas(idx: seq<nat>, k: nat)
    ensures k in Shift(idx) <==> k >= 1 && k - 1 in idx
  {
    if k >= 1 && k - 1 in idx {
      var j :| 0 <= j < |idx| && idx[j] == k - 1;
      assert Shift(idx)[j] == k;
    }
  }

  /** Picks of the items after the first, with the first item before them if its flag is set. */
  lemma PicksWithFirst(universe: seq<int>, flags: seq<bool>, idx: seq<nat>, r: seq<int>)
    requires |universe| == |flags| != 0 && Picks(universe[1..], flags[1..], idx, r)
    ensures flags[0] ==> Picks(universe, flags, [0] + Shift(idx), [universe[0]] + r)
    ensures !flags[0] ==> Picks(universe, flags, Shift(idx), r)
  {
    forall k | 0 <= k < |universe| ensures k in Shift(idx) <==> k >= 1 && flags[k] {
      ShiftHas(idx, k);
      if k >= 1 { assert flags[1..][k - 1] == flags[k]; }
    }
    assert 0 !in Shift(idx);
    if flags[0] {
      assert forall k: nat :: k in [0] + Shift(idx) <==> k == 0 || k in Shift(idx);
    }
  }

  /** The recursion over the universe lists the flagged items. */
  lemma {:induction false} ChosenLists(universe: seq<int>, flags: seq<bool>)
    requires |universe| == |flags|
    ensures ListsFlagged(universe, flags, Chosen(universe, flags))
    decreases |universe|
  {
    if universe == [] {
      assert Picks(universe, flags, [], []);
    } else {
      ChosenLists(universe[1..], flags[1..]);
      var r := Chosen(universe[1..], flags[1..]);
      var idx :| Picks(universe[1..], flags[1..], idx, r);
      PicksWithFirst(universe, flags, idx, r);
      assert Chosen(universe, flags) == if flags[0] then [universe[0]] + r else r;
    }
  }

  lemma HasFirst(s: seq<nat>)
    requires s != []
    ensures exists k :: k in s
  {
    assert s[0] in s;
  }

  lemma {:induction false} SameIncreasing(s: seq<nat>, t: seq<nat>)
    requires Subsets.Increasing(s) && Subsets.Increasing(t) && forall k: nat :: k in s <==> k in t
    ensures s == t
  {
    if s == [] {
      if t != [] { HasFirst(t); }
    } else {
      HasFirst(s);
      var (m, n) := (|s| - 1, |t| - 1);
      assert s[m] in t && t[n] in s;
      forall k: nat ensures k in s[..m] <==> k in t[..n] {
        assert k in s[..m] <==> k in s && k != s[m];
        assert k in t[..n] <==> k in t && k != t[n];
      }
      SameIncreasing(s[..m], t[..n]);
    }
  }

  /** The lists that are collected hold exactly the items required so far, each once, in the order of the universe. */
  lemma CollectLists(l: Layout, d: Doms, i: nat)
    requires WellFormed(l, d) && i < |l.lists|
    ensures |Collect(l, d).lists| == |l.lists|
    ensures ListsFlagged(l.lists[i].universe, RequiredFlags(l, d, i), Collect(l, d).lists[i])
    ensures Distinct(Collect(l, d).lists[i])
    ensures forall k | 0 <= k < |l.lists[i].universe| ::
        l.lists[i].universe[k] in Collect(l, d).lists[i] <==> d[l.lists[i].members[k]] == {1}
  {
    var flags := RequiredFlags(l, d, i);
    var r := Collect(l, d).lists[i];
    ChosenLists(l.lists[i].universe, flags);
    forall k | 0 <= k < |l.lists[i].universe|
      ensures l.lists[i].universe[k] in r <==> d[l.lists[i].members[k]] == {1}
    {
      ListTells(l.lists[i].universe, flags, r, k);
      BooleanDom(d[l.lists[i].members[k]]);
    }
    var idx :| Picks(l.lists[i].universe, flags, idx, r);
  }

  /** The flags determine the list. */
  lemma ListIsUnique(universe: seq<int>, flags: seq<bool>, r: seq<int>, q: seq<int>)
    requires |universe| == |flags| && ListsFlagged(universe, flags, r) && ListsFlagged(universe, flags, q)
    ensures r == q
  {
    var i :| Picks(universe, flags, i, r);
    var j :| Picks(universe, flags, j, q);
    SameIncreasing(i, j);
  }

  /** The list determines the flags, and repeats nothing. */
  lemma ListTells(universe: seq<int>, flags: seq<bool>, r: seq<int>, k: nat)
    requires |universe| == |flags| && k < |universe| && Distinct(universe) && ListsFlagged(universe, flags, r)
    ensures universe[k] in r <==> flags[k]
    ensures Distinct(r)
  {
    var idx :| Picks(universe, flags, idx, r);
    if flags[k] {
      var j :| 0 <= j < |idx| && idx[j] == k;
      assert r[j] == universe[k];
    }
    forall j | 0 <= j < |r| && r[j] == universe[k] ensures flags[k] { assert idx[j] in idx && idx[j] == k; }
  }

  /** An assignment stands for one solution. */
  lemma DescribedOnce(l: Layout, a: Assignment, s: Solution, t: Solution)
    requires LayoutOk(l, |a|) && Describes(l, a, s) && Describes(l, a, t)
    ensures s == t
  {
    forall i | 0 <= i < |l.lists| ensures s.lists[i] == t.lists[i] {
      ListIsUnique(l.lists[i].universe, MemberFlags(l.lists[i], a), s.lists[i], t.lists[i]);
    }
    assert s.lists == t.lists;
    assert s.starts == t.starts;
  }

  ghost predicate IsSolution(props: seq<Propagator>, l: Layout, d: Doms, s: Solution)
    requires LayoutOk(l, |d|)
  {
    exists a :: InBox(a, d) && Feasible(props, a) && Describes(l, a, s)
  }
}
