/** Big-M rows recorded for guarded linear constraints (src/store.rs). */
module LinearRelaxation {
  import opened Common

  datatype Row = Row(coefficients: seq<int>, variables: seq<VarId>, lower: Option<int>, upper: Option<int>)

  /** Root bounds of every variable. */
  type Bounds = seq<(int, int)>

  predicate VarsOk(vs: seq<VarId>, n: nat) { forall i | 0 <= i < |vs| :: vs[i] < n }

  ghost predicate Within(a: Assignment, bounds: Bounds) {
    |a| == |bounds| && forall v | 0 <= v < |a| :: bounds[v].0 <= a[v] <= bounds[v].1
  }

  /** The first `k` terms of the weighted sum. */
  function Activity(cs: seq<int>, vs: seq<VarId>, a: Assignment, k: nat): int
    requires k <= |cs| && k <= |vs| && VarsOk(vs, |a|)
  {
    if k == 0 then 0 else Activity(cs, vs, a, k - 1) + cs[k - 1] * a[vs[k - 1]]
  }

  ghost predicate InRange(x: int, lower: Option<int>, upper: Option<int>) {
    (lower.Some? ==> lower.value <= x) && (upper.Some? ==> x <= upper.value)
  }

  ghost predicate RowOk(r: Row, n: nat) { |r.coefficients| == |r.variables| && VarsOk(r.variables, n) }

  ghost predicate RowHolds(r: Row, a: Assignment)
    requires RowOk(r, |a|)
  {
    InRange(Activity(r.coefficients, r.variables, a, |r.coefficients|), r.lower, r.upper)
  }

  ghost predicate RowsHold(rows: seq<Row>, a: Assignment) {
    forall i | 0 <= i < |rows| :: RowOk(rows[i], |a|) && RowHolds(rows[i], a)
  }

  // --- activity bounds ------------------------------------------------------------------

  /** Least and greatest contribution of one term. */
  function TermBounds(c: int, b: (int, int)): (int, int) {
    if c >= 0 then (c * b.0, c * b.1) else (c * b.1, c * b.0)
  }

  function MinActivity(cs: seq<int>, vs: seq<VarId>, bounds: Bounds, k: nat): int
    requires k <= |cs| && k <= |vs| && VarsOk(vs, |bounds|)
  {
    if k == 0 then 0 else MinActivity(cs, vs, bounds, k - 1) + TermBounds(cs[k - 1], bounds[vs[k - 1]]).0
  }

  function MaxActivity(cs: seq<int>, vs: seq<VarId>, bounds: Bounds, k: nat): int
    requires k <= |cs| && k <= |vs| && VarsOk(vs, |bounds|)
  {
    if k == 0 then 0 else MaxActivity(cs, vs, bounds, k - 1) + TermBounds(cs[k - 1], bounds[vs[k - 1]]).1
  }

  lemma TermWithin(c: int, x: int, b: (int, int))
    requires b.0 <= x <= b.1
    ensures TermBounds(c, b).0 <= c * x <= TermBounds(c, b).1
  {
    if c >= 0 {
      assert c * (x - b.0) >= 0 && c * (b.1 - x) >= 0;
    } else {
      assert (-c) * (x - b.0) >= 0 && (-c) * (b.1 - x) >= 0;
    }
  }

  lemma {:induction false} ActivityWithin(cs: seq<int>, vs: seq<VarId>, bounds: Bounds, a: Assignment, k: nat)
    requires k <= |cs| && k <= |vs| && VarsOk(vs, |bounds|) && Within(a, bounds)
    ensures MinActivity(cs, vs, bounds, k) <= Activity(cs, vs, a, k) <= MaxActivity(cs, vs, bounds, k)
  {
    if k > 0 {
      ActivityWithin(cs, vs, bounds, a, k - 1);
      TermWithin(cs[k - 1], a[vs[k - 1]], bounds[vs[k - 1]]);
    }
  }

  ghost predicate Proper(bounds: Bounds) { forall v | 0 <= v < |bounds| :: bounds[v].0 <= bounds[v].1 }

  /** Every variable at the end of its range that the sign of its coefficient asks for. */
  function Corner(cs: seq<int>, vs: seq<VarId>, bounds: Bounds, k: nat, least: bool): (a: Assignment)
    requires k <= |cs| && k <= |vs| && VarsOk(vs, |bounds|)
    ensures |a| == |bounds|
  {
    if k == 0 then seq(|bounds|, v requires 0 <= v < |bounds| => bounds[v].0)
    else
      var b := bounds[vs[k - 1]];
      Corner(cs, vs, bounds, k - 1, least)[vs[k - 1] := if (cs[k - 1] >= 0) == least then b.0 else b.1]
  }

  lemma {:induction false} ActivityElsewhere(cs: seq<int>, vs: seq<VarId>, a: Assignment, v: VarId, x: int, k: nat)
    requires k <= |cs| && k <= |vs| && VarsOk(vs, |a|) && v < |a| && forall i | 0 <= i < k :: vs[i] != v
    ensures Activity(cs, vs, a[v := x], k) == Activity(cs, vs, a, k)
  {
    if k > 0 { ActivityElsewhere(cs, vs, a, v, x, k - 1); }
  }

  /** Over distinct variables both bounds are activities of assignments within the root bounds. */
  lemma {:induction false} ActivityAttained(cs: seq<int>, vs: seq<VarId>, bounds: Bounds, k: nat, least: bool)
    requires k <= |cs| && k <= |vs| && VarsOk(vs, |bounds|) && Distinct(vs) && Proper(bounds)
    ensures Within(Corner(cs, vs, bounds, k, least), bounds)
    ensures Activity(cs, vs, Corner(cs, vs, bounds, k, least), k) ==
            if least then MinActivity(cs, vs, bounds, k) else MaxActivity(cs, vs, bounds, k)
  {
    if k > 0 {
      ActivityAttained(cs, vs, bounds, k - 1, least);
      var a, v := Corner(cs, vs, bounds, k - 1, least), vs[k - 1];
      var b := bounds[v];
      ActivityElsewhere(cs, vs, a, v, if (cs[k - 1] >= 0) == least then b.0 else b.1, k - 1);
    }
  }

  /** Neither term `k` nor a partial sum up to it leaves 128 bits. */
  predicate TermFits(cs: seq<int>, vs: seq<VarId>, bounds: Bounds, k: nat)
    requires k < |cs| == |vs| && VarsOk(vs, |bounds|)
  {
    var (low, high) := TermBounds(cs[k], bounds[vs[k]]);
    && FitsI128(low) && FitsI128(high)
    && FitsI128(MinActivity(cs, vs, bounds, k) + low) && FitsI128(MaxActivity(cs, vs, bounds, k) + high)
  }

  predicate ActivityFits(cs: seq<int>, vs: seq<VarId>, bounds: Bounds)
    requires |cs| == |vs| && VarsOk(vs, |bounds|)
  {
    forall k | 0 <= k < |cs| :: TermFits(cs, vs, bounds, k)
  }

  /** Accumulate the bounds in 128 bits; overflow or a length mismatch gives none. */
  method LinearActivityBounds(bounds: Bounds, cs: seq<int>, vs: seq<VarId>) returns (r: Option<(int, int)>)
    requires VarsOk(vs, |bounds|)
    ensures r.Some? ==>
        |cs| == |vs| && r.value == (MinActivity(cs, vs, bounds, |cs|), MaxActivity(cs, vs, bounds, |cs|))
    ensures r.Some? <==> |cs| == |vs| && ActivityFits(cs, vs, bounds)
  {
    if |cs| != |vs| { return None; }
    var minimum, maximum := 0, 0;
    for k := 0 to |cs|
      invariant minimum == MinActivity(cs, vs, bounds, k) && maximum == MaxActivity(cs, vs, bounds, k)
      invariant forall j | 0 <= j < k :: TermFits(cs, vs, bounds, j)
    {
      var (low, high) := TermBounds(cs[k], bounds[vs[k]]);
      assert TermFits(cs, vs, bounds, k) <==>
          FitsI128(low) && FitsI128(high) && FitsI128(minimum + low) && FitsI128(maximum + high);
      if !FitsI128(low) || !FitsI128(high) { return None; }
      minimum, maximum := minimum + low, maximum + high;
      if !FitsI128(minimum) || !FitsI128(maximum) { return None; }
    }
    return Some((minimum, maximum));
  }

  // --- guarded rows --------------------------------------------------------------------------

  lemma {:induction false} ActivityExtended(cs: seq<int>, vs: seq<VarId>, c: int, v: VarId, a: Assignment, k: nat)
    requires k <= |cs| == |vs| && VarsOk(vs, |a|) && v < |a|
    ensures VarsOk(vs + [v], |a|)
    ensures Activity(cs + [c], vs + [v], a, k) == Activity(cs, vs, a, k)
    ensures k == |cs| ==> Activity(cs + [c], vs + [v], a, k + 1) == Activity(cs, vs, a, k) + c * a[v]
  {
    if k > 0 { ActivityExtended(cs, vs, c, v, a, k - 1); }
  }

  /** A 0/1 variable, possibly fixed at the root already. */
  predicate IsSelector(bounds: Bounds, v: VarId) { v < |bounds| && 0 <= bounds[v].0 && bounds[v].1 <= 1 }

  /** Selected constraint `lower <= sum <= upper` under a 0/1 selector. */
  ghost predicate GuardedHolds(cs: seq<int>, vs: seq<VarId>, lower: Option<int>, upper: Option<int>,
                               selector: VarId, a: Assignment)
    requires |cs| == |vs| && VarsOk(vs, |a|) && selector < |a|
  {
    a[selector] == 1 ==> InRange(Activity(cs, vs, a, |cs|), lower, upper)
  }

  /** A side needs no selector, or its slack and its relaxed bound fit 64 bits. */
  predicate LowerFits(lower: int, minimum: int) {
    lower - minimum <= 0 || (FitsI64(-(lower - minimum)) && FitsI64(minimum))
  }

  predicate UpperFits(upper: int, maximum: int) {
    maximum - upper <= 0 || (FitsI64(maximum - upper) && FitsI64(maximum))
  }

  /** How many of the requested sides are recorded. */
  function Recorded(cs: seq<int>, vs: seq<VarId>, bounds: Bounds, lower: Option<int>, upper: Option<int>): nat
    requires VarsOk(vs, |bounds|)
  {
    if |cs| != |vs| || !ActivityFits(cs, vs, bounds) then 0
    else
      (if lower.Some? && LowerFits(lower.value, MinActivity(cs, vs, bounds, |cs|)) then 1 else 0)
      + (if upper.Some? && UpperFits(upper.value, MaxActivity(cs, vs, bounds, |cs|)) then 1 else 0)
  }

  function Sides(lower: Option<int>, upper: Option<int>): nat {
    (if lower.Some? then 1 else 0) + (if upper.Some? then 1 else 0)
  }

  lemma RowsAppend(rows: seq<Row>, more: seq<Row>, a: Assignment)
    ensures RowsHold(rows + more, a) <==> RowsHold(rows, a) && RowsHold(more, a)
  {
    if RowsHold(rows + more, a) {
      assert forall i | 0 <= i < |rows| :: (rows + more)[i] == rows[i];
      assert forall i | 0 <= i < |more| :: (rows + more)[|rows| + i] == more[i];
    }
  }

  class Recorder {
    const bounds: Bounds
    var rows: seq<Row>

    constructor (bounds: Bounds)
      ensures this.bounds == bounds && rows == []
    {
      this.bounds := bounds;
      rows := [];
    }

    method Push(cs: seq<int>, vs: seq<VarId>, lower: Option<int>, upper: Option<int>)
      modifies `rows
      ensures rows == old(rows) + [Row(cs, vs, lower, upper)]
    {
      rows := rows + [Row(cs, vs, lower, upper)];
    }

    /** Record a lower side; the row holds exactly when the guarded side does. */
    method RecordLower(cs: seq<int>, vs: seq<VarId>, lower: int, minimum: int, selector: VarId) returns (recorded: bool)
      requires |cs| == |vs| && VarsOk(vs, |bounds|) && IsSelector(bounds, selector)
      requires minimum == MinActivity(cs, vs, bounds, |cs|)
      modifies `rows
      ensures recorded <==> LowerFits(lower, minimum)
      ensures !recorded ==> rows == old(rows)
      ensures recorded ==> |rows| == |old(rows)| + 1 && rows[..|old(rows)|] == old(rows)
                           && forall a | Within(a, bounds) ::
                                RowsHold(rows[|old(rows)|..], a) <==>
                                    GuardedHolds(cs, vs, Some(lower), None, selector, a)
      // and the recorded side is met by every assignment while the selector is 0
      ensures recorded ==>
          rows[|old(rows)|].lower == Some(Common.Min(lower, minimum)) && rows[|old(rows)|].upper == None
    {
      var gap := lower - minimum;
      recorded := true;
      if gap <= 0 {
        Push(cs, vs, Some(lower), None);
      } else if FitsI64(-gap) && FitsI64(minimum) {
        Push(cs + [-gap], vs + [selector], Some(minimum), None);
      } else {
        recorded := false;
      }
      if recorded {
        assert rows[|old(rows)|..] == [rows[|old(rows)|]];
        forall a | Within(a, bounds)
          ensures RowsHold(rows[|old(rows)|..], a) <==> GuardedHolds(cs, vs, Some(lower), None, selector, a)
        {
          ActivityWithin(cs, vs, bounds, a, |cs|);
          ActivityExtended(cs, vs, -gap, selector, a, |cs|);
          assert 0 <= a[selector] <= 1;
          assert RowsHold([rows[|old(rows)|]], a) <==> RowOk(rows[|old(rows)|], |a|) && RowHolds(rows[|old(rows)|], a);
        }
      }
    }

    /** Record an upper side; the row holds exactly when the guarded side does. */
    method RecordUpper(cs: seq<int>, vs: seq<VarId>, upper: int, maximum: int, selector: VarId) returns (recorded: bool)
      requires |cs| == |vs| && VarsOk(vs, |bounds|) && IsSelector(bounds, selector)
      requires maximum == MaxActivity(cs, vs, bounds, |cs|)
      modifies `rows
      ensures recorded <==> UpperFits(upper, maximum)
      ensures !recorded ==> rows == old(rows)
      ensures recorded ==> |rows| == |old(rows)| + 1 && rows[..|old(rows)|] == old(rows)
                           && forall a | Within(a, bounds) ::
                                RowsHold(rows[|old(rows)|..], a) <==>
                                    GuardedHolds(cs, vs, None, Some(upper), selector, a)
      // and the recorded side is met by every assignment while the selector is 0
      ensures recorded ==>
          rows[|old(rows)|].upper == Some(Common.Max(upper, maximum)) && rows[|old(rows)|].lower == None
    {
      var gap := maximum - upper;
      recorded := true;
      if gap <= 0 {
        Push(cs, vs, None, Some(upper));
      } else if FitsI64(gap) && FitsI64(maximum) {
        Push(cs + [gap], vs + [selector], None, Some(maximum));
      } else {
        recorded := false;
      }
      if recorded {
        assert rows[|old(rows)|..] == [rows[|old(rows)|]];
        forall a | Within(a, bounds)
          ensures RowsHold(rows[|old(rows)|..], a) <==> GuardedHolds(cs, vs, None, Some(upper), selector, a)
        {
          ActivityWithin(cs, vs, bounds, a, |cs|);
          ActivityExtended(cs, vs, gap, selector, a, |cs|);
          assert 0 <= a[selector] <= 1;
          assert RowsHold([rows[|old(rows)|]], a) <==> RowOk(rows[|old(rows)|], |a|) && RowHolds(rows[|old(rows)|], a);
        }
      }
    }

    /**
     Record a constraint. Under a selector the new rows follow from the guarded
     constraint on every assignment within the root bounds, and are equivalent
     to it when every requested side was recorded.
     */
    method RecordLinearRelaxation(cs: seq<int>, vs: seq<VarId>, lower: Option<int>, upper: Option<int>,
                                   selector: Option<VarId>)
      requires VarsOk(vs, |bounds|)
      requires selector.Some? ==> IsSelector(bounds, selector.value)
      modifies `rows
      ensures |rows| >= |old(rows)| && rows[..|old(rows)|] == old(rows)
      ensures selector.None? ==> rows == old(rows) + [Row(cs, vs, lower, upper)]
      ensures selector.Some? ==> |rows| == |old(rows)| + Recorded(cs, vs, bounds, lower, upper)
      ensures selector.Some? && |cs| == |vs| ==>
                && (forall a | Within(a, bounds) && GuardedHolds(cs, vs, lower, upper, selector.value, a) ::
                    RowsHold(rows[|old(rows)|..], a))
                && (Recorded(cs, vs, bounds, lower, upper) == Sides(lower, upper) ==>
                      forall a | Within(a, bounds) && RowsHold(rows[|old(rows)|..], a) ::
                          GuardedHolds(cs, vs, lower, upper, selector.value, a))
    {
      if selector.None? {
        Push(cs, vs, lower, upper);
        return;
      }
      var activity := LinearActivityBounds(bounds, cs, vs);
      if activity.None? { return; }
      var (minimum, maximum) := activity.value;
      var s := selector.value;
      ghost var first := rows;
      if lower.Some? { var _ := RecordLower(cs, vs, lower.value, minimum, s); }
      ghost var second := rows;
      if upper.Some? { var _ := RecordUpper(cs, vs, upper.value, maximum, s); }
      ghost var lowRows, highRows := second[|first|..], rows[|second|..];
      assert rows[|first|..] == lowRows + highRows;
      forall a | Within(a, bounds)
        ensures RowsHold(rows[|first|..], a) <==> RowsHold(lowRows, a) && RowsHold(highRows, a)
      {
        RowsAppend(lowRows, highRows, a);
      }
    }
  }
}
