/**
 A condition on an expression and the box of its variables under which no step
 of `bounds` (src/expr.rs) overflows: no operand of a negation, absolute value,
 division or remainder may reach saturation, and the magnitudes of the factors
 of a product may not multiply beyond 128 bits. In that case the interval is
 sound in every build.
 */
module BoundsRoom {
  import opened Common
  import opened Expressions
  import opened ExprSoundness
  import opened ReleaseBuild
  import opened IntervalRoom

  function SumReach(es: seq<Expr>, dom: Box): nat
    decreases es, 0
  {
    if es == [] then 0 else Reach(es[0], dom) + SumReach(es[1..], dom)
  }

  function MaxReach(es: seq<Expr>, dom: Box): nat
    decreases es, 0
  {
    if es == [] then 0 else Larger(Reach(es[0], dom), MaxReach(es[1..], dom))
  }

  /** Every partial product of the factors' magnitudes, from `acc` on, fits 128 bits. */
  predicate ProductRoom(acc: nat, es: seq<Expr>, dom: Box)
    decreases es, 0
  {
    es == [] || (acc * Reach(es[0], dom) <= I128_MAX && ProductRoom(acc * Reach(es[0], dom), es[1..], dom))
  }

  function ProductReach(acc: nat, es: seq<Expr>, dom: Box): nat
    decreases es, 0
  {
    if es == [] then acc else ProductReach(acc * Reach(es[0], dom), es[1..], dom)
  }

  /** An upper bound on the magnitude of both ends of the interval of `e`. */
  function Reach(e: Expr, dom: Box): nat
    decreases e, 1
  {
    match e
    case Const(c) => Common.Abs(c)
    case Var(v) => Magnitude(dom(v))
    case Neg(a) => Reach(a, dom)
    case Abs(a) => Reach(a, dom)
    case Add(es) => Capped(SumReach(es, dom))
    case Sub(a, b) => Capped(Reach(a, dom) + Reach(b, dom))
    case Mul(es) => Capped(ProductReach(1, es, dom))
    case Div(a, _) => Reach(a, dom)
    case Mod(_, b) => Reach(b, dom)
    case Min(es) => if es == [] then CAP else MaxReach(es, dom)
    case Max(es) => if es == [] then CAP else MaxReach(es, dom)
    case Cmp(_, _, _) => 1
    case Not(_) => 1
    case And(_) => 1
    case Or(_) => 1
    case Imp(_, b) => Larger(1, Reach(b, dom))
    case Iff(_, _) => 1
    case IfThenElse(_, t, f) => Larger(Reach(t, dom), Reach(f, dom))
  }

  predicate RoomyAll(es: seq<Expr>, dom: Box)
    decreases es, 0
  {
    es == [] || (Roomy(es[0], dom) && RoomyAll(es[1..], dom))
  }

  /** The interval of `e` can be computed without overflow. */
  predicate Roomy(e: Expr, dom: Box)
    decreases e, 1
  {
    match e
    case Const(c) => FitsI64(c)
    case Var(v) => FitsI64(dom(v).lo) && FitsI64(dom(v).hi) && dom(v).lo <= dom(v).hi
    case Neg(a) => Roomy(a, dom) && Reach(a, dom) < CAP
    case Abs(a) => Roomy(a, dom) && Reach(a, dom) < CAP
    case Add(es) => RoomyAll(es, dom)
    case Sub(a, b) => Roomy(a, dom) && Roomy(b, dom)
    case Mul(es) => RoomyAll(es, dom) && ProductRoom(1, es, dom)
    case Div(a, b) => Roomy(a, dom) && Roomy(b, dom) && Reach(a, dom) < CAP
    case Mod(_, b) => Roomy(b, dom) && Reach(b, dom) < CAP
    case Min(es) => RoomyAll(es, dom)
    case Max(es) => RoomyAll(es, dom)
    case Cmp(_, a, b) => Roomy(a, dom) && Roomy(b, dom)
    case Not(a) => Roomy(a, dom)
    case And(es) => RoomyAll(es, dom)
    case Or(es) => RoomyAll(es, dom)
    case Imp(a, b) => Roomy(a, dom) && Roomy(b, dom)
    case Iff(a, b) => Roomy(a, dom) && Roomy(b, dom)
    case IfThenElse(c, t, f) => Roomy(c, dom) && Roomy(t, dom) && Roomy(f, dom)
  }

  // --- one node at a time -------------------------------------------------------------------

  ghost predicate Computes(e: Expr, dom: Box) {
    Reach(e, dom) <= CAP && Bounds(e, dom).Some? && Fits(Bounds(e, dom).value, Reach(e, dom))
  }

  ghost predicate AllFit(es: seq<Expr>, bs: seq<Interval>, dom: Box) {
    |bs| == |es| && forall i | 0 <= i < |bs| :: Reach(es[i], dom) <= CAP && Fits(bs[i], Reach(es[i], dom))
  }

  lemma {:induction false} ProductsFit(acc: Interval, r: nat, es: seq<Expr>, bs: seq<Interval>, dom: Box)
    requires AllFit(es, bs, dom) && ProductRoom(r, es, dom)
    requires acc.lo <= acc.hi && Magnitude(acc) <= r
    ensures IMulAll(acc, bs).Some?
    ensures IMulAll(acc, bs).value.lo <= IMulAll(acc, bs).value.hi
    ensures Magnitude(IMulAll(acc, bs).value) <= ProductReach(r, es, dom)
    decreases |es|
  {
    if es != [] {
      var s := Reach(es[0], dom);
      ProductFits(acc, bs[0], r, s);
      ProductsFit(IMul(acc, bs[0]).value, r * s, es[1..], bs[1..], dom);
    }
  }

  lemma {:induction false} SumsFit(acc: Interval, r: nat, es: seq<Expr>, bs: seq<Interval>, dom: Box)
    requires AllFit(es, bs, dom) && acc.lo <= acc.hi && Magnitude(acc) <= r
    ensures IAddAll(acc, bs).lo <= IAddAll(acc, bs).hi && Magnitude(IAddAll(acc, bs)) <= r + SumReach(es, dom)
    decreases |es|
  {
    if es != [] {
      var s := Reach(es[0], dom);
      SumsFit(Interval(acc.lo + bs[0].lo, acc.hi + bs[0].hi), r + s, es[1..], bs[1..], dom);
    }
  }

  lemma {:induction false} ReachesBelowMax(es: seq<Expr>, dom: Box)
    ensures forall i | 0 <= i < |es| :: Reach(es[i], dom) <= MaxReach(es, dom)
    decreases |es|
  {
    if es != [] {
      ReachesBelowMax(es[1..], dom);
      assert forall i | 1 <= i < |es| :: es[i] == es[1..][i - 1];
    }
  }

  lemma {:induction false} CapAboveMax(es: seq<Expr>, bs: seq<Interval>, dom: Box)
    requires AllFit(es, bs, dom)
    ensures MaxReach(es, dom) <= CAP
    decreases |es|
  {
    if es != [] { CapAboveMax(es[1..], bs[1..], dom); }
  }

  // --- nodes ----------------------------------------------------------------------------------

  lemma NegComputes(a: Expr, dom: Box)
    requires Computes(a, dom) && Reach(a, dom) < CAP
    ensures Computes(Neg(a), dom)
  {
    NegFits(Bounds(a, dom).value, Reach(a, dom));
    assert Bounds(Neg(a), dom) == INeg(Bounds(a, dom).value);
  }

  lemma AbsComputes(a: Expr, dom: Box)
    requires Computes(a, dom) && Reach(a, dom) < CAP
    ensures Computes(Expr.Abs(a), dom)
  {
    AbsFits(Bounds(a, dom).value, Reach(a, dom));
    assert Bounds(Expr.Abs(a), dom) == IAbs(Bounds(a, dom).value);
  }

  lemma SubComputes(a: Expr, b: Expr, dom: Box)
    requires Computes(a, dom) && Computes(b, dom)
    ensures Computes(Sub(a, b), dom)
  {
    var i, j := Bounds(a, dom).value, Bounds(b, dom).value;
    SubFits(i, j, Reach(a, dom), Reach(b, dom));
    assert Bounds(Sub(a, b), dom) == Some(ISub(i, j));
  }

  lemma DivComputes(a: Expr, b: Expr, dom: Box)
    requires Computes(a, dom) && Computes(b, dom) && Reach(a, dom) < CAP
    ensures Computes(Div(a, b), dom)
  {
    var i, j := Bounds(a, dom).value, Bounds(b, dom).value;
    DivFits(i, j, Reach(a, dom));
    assert Bounds(Div(a, b), dom) == DivBounds(i, j);
  }

  lemma ModComputes(a: Expr, b: Expr, dom: Box)
    requires Computes(b, dom) && Reach(b, dom) < CAP
    ensures Computes(Mod(a, b), dom)
  {
    ModFits(Bounds(b, dom).value, Reach(b, dom));
    assert Bounds(Mod(a, b), dom) == IMod(Bounds(b, dom).value);
  }

  lemma CmpComputes(op: Relation, a: Expr, b: Expr, dom: Box)
    requires Computes(a, dom) && Computes(b, dom)
    ensures Computes(Cmp(op, a, b), dom)
  {
    var i, j := Bounds(a, dom).value, Bounds(b, dom).value;
    TruthFits(op, i, j);
    assert Bounds(Cmp(op, a, b), dom) == Some(CompareBounds(op, i, j));
  }

  lemma IffComputes(a: Expr, b: Expr, dom: Box)
    requires Computes(a, dom) && Computes(b, dom)
    ensures Computes(Iff(a, b), dom)
  {
    var i, j := Bounds(a, dom).value, Bounds(b, dom).value;
    TruthFits(Relation.Eq, i, j);
    assert Bounds(Iff(a, b), dom) == Some(IIff(i, j));
  }

  lemma NotComputes(a: Expr, dom: Box)
    requires Computes(a, dom)
    ensures Computes(Not(a), dom)
  {
    var i := Bounds(a, dom).value;
    TruthFits(Relation.Eq, i, i);
    assert Bounds(Not(a), dom) == Some(INot(i));
  }

  lemma ImpComputes(a: Expr, b: Expr, dom: Box)
    requires Computes(a, dom) && Computes(b, dom)
    ensures Computes(Imp(a, b), dom)
  {
    var i := Bounds(a, dom).value;
    assert Bounds(Imp(a, b), dom) ==
           if i == FALSE then Some(TRUE) else if i == TRUE then Bounds(b, dom) else Some(MAYBE);
  }

  lemma ChoiceComputes(c: Expr, t: Expr, f: Expr, dom: Box)
    requires Computes(c, dom) && Computes(t, dom) && Computes(f, dom)
    ensures Computes(IfThenElse(c, t, f), dom)
  {
    var i, j, k := Bounds(c, dom).value, Bounds(t, dom).value, Bounds(f, dom).value;
    HullFits(j, k, Reach(t, dom), Reach(f, dom));
    assert Bounds(IfThenElse(c, t, f), dom) == Some(if i == TRUE then j else if i == FALSE then k else IHull(j, k));
  }

  lemma SumComputes(es: seq<Expr>, dom: Box)
    requires BoundsList(es, dom).Some? && AllFit(es, BoundsList(es, dom).value, dom)
    ensures Computes(Add(es), dom)
  {
    var bs := BoundsList(es, dom).value;
    SumsFit(Interval(0, 0), 0, es, bs, dom);
    ClampedFits(IAddAll(Interval(0, 0), bs), SumReach(es, dom));
    assert Bounds(Add(es), dom) == Some(IClamp(IAddAll(Interval(0, 0), bs)));
  }

  lemma ProductComputes(es: seq<Expr>, dom: Box)
    requires BoundsList(es, dom).Some? && AllFit(es, BoundsList(es, dom).value, dom) && ProductRoom(1, es, dom)
    ensures Computes(Mul(es), dom)
  {
    var bs := BoundsList(es, dom).value;
    ProductsFit(Interval(1, 1), 1, es, bs, dom);
    ClampedFits(IMulAll(Interval(1, 1), bs).value, ProductReach(1, es, dom));
    assert Bounds(Mul(es), dom) == Some(IClamp(IMulAll(Interval(1, 1), bs).value));
  }

  lemma MinMaxCompute(es: seq<Expr>, dom: Box)
    requires BoundsList(es, dom).Some? && AllFit(es, BoundsList(es, dom).value, dom)
    ensures Computes(Min(es), dom) && Computes(Max(es), dom)
  {
    var bs := BoundsList(es, dom).value;
    ReachesBelowMax(es, dom);
    CapAboveMax(es, bs, dom);
    ExtremesFit(bs, if es == [] then CAP else MaxReach(es, dom));
    assert Bounds(Min(es), dom) == Some(IMin(bs)) && Bounds(Max(es), dom) == Some(IMax(bs));
  }

  // --- the theorems ---------------------------------------------------------------------------

  /** A roomy expression has an interval. */
  lemma {:induction false} RoomyComputes(e: Expr, dom: Box)
    requires Roomy(e, dom)
    ensures Computes(e, dom)
    decreases e, 1
  {
    match e
    case Const(_) =>
    case Var(_) =>
    case Neg(a) => RoomyComputes(a, dom); NegComputes(a, dom);
    case Abs(a) => RoomyComputes(a, dom); AbsComputes(a, dom);
    case Not(a) => RoomyComputes(a, dom); NotComputes(a, dom);
    case Sub(a, b) => RoomyComputes(a, dom); RoomyComputes(b, dom); SubComputes(a, b, dom);
    case Div(a, b) => RoomyComputes(a, dom); RoomyComputes(b, dom); DivComputes(a, b, dom);
    case Mod(a, b) => RoomyComputes(b, dom); ModComputes(a, b, dom);
    case Cmp(op, a, b) => RoomyComputes(a, dom); RoomyComputes(b, dom); CmpComputes(op, a, b, dom);
    case Iff(a, b) => RoomyComputes(a, dom); RoomyComputes(b, dom); IffComputes(a, b, dom);
    case Imp(a, b) => RoomyComputes(a, dom); RoomyComputes(b, dom); ImpComputes(a, b, dom);
    case IfThenElse(c, t, f) =>
      RoomyComputes(c, dom); RoomyComputes(t, dom); RoomyComputes(f, dom); ChoiceComputes(c, t, f, dom);
    case Add(es) => RoomyListComputes(es, dom); SumComputes(es, dom);
    case Mul(es) => RoomyListComputes(es, dom); ProductComputes(es, dom);
    case Min(es) => RoomyListComputes(es, dom); MinMaxCompute(es, dom);
    case Max(es) => RoomyListComputes(es, dom); MinMaxCompute(es, dom);
    case And(es) => RoomyLogicComputes(es, dom, true);
    case Or(es) => RoomyLogicComputes(es, dom, true);
  }

  lemma {:induction false} RoomyListComputes(es: seq<Expr>, dom: Box)
    requires RoomyAll(es, dom)
    ensures BoundsList(es, dom).Some? && AllFit(es, BoundsList(es, dom).value, dom)
    decreases es, 0
  {
    if es != [] {
      RoomyComputes(es[0], dom);
      RoomyListComputes(es[1..], dom);
      var bs := BoundsList(es, dom).value;
      forall i | 0 <= i < |bs| ensures Reach(es[i], dom) <= CAP && Fits(bs[i], Reach(es[i], dom)) {
        if i > 0 { assert es[i] == es[1..][i - 1] && bs[i] == bs[1..][i - 1]; }
      }
    }
  }

  /** `flag` is the all-true flag of a conjunction and the all-false flag of a disjunction. */
  lemma {:induction false} RoomyLogicComputes(es: seq<Expr>, dom: Box, flag: bool)
    requires RoomyAll(es, dom)
    ensures AndBounds(es, dom, flag).Some? && AndBounds(es, dom, flag).value in {TRUE, FALSE, MAYBE}
    ensures OrBounds(es, dom, flag).Some? && OrBounds(es, dom, flag).value in {TRUE, FALSE, MAYBE}
    decreases es, 0
  {
    if es != [] {
      RoomyComputes(es[0], dom);
      RoomyLogicComputes(es[1..], dom, flag && Bounds(es[0], dom).value == TRUE);
      RoomyLogicComputes(es[1..], dom, flag && Bounds(es[0], dom).value == FALSE);
    }
  }

  /** For a roomy expression every build computes the same, sound interval. */
  lemma RoomyBoundsSound(e: Expr, val: Valuation, dom: Box)
    requires Roomy(e, dom) && Guarded(e, dom) && InBox(val, dom)
    ensures Bounds(e, dom).Some? && ReleaseBounds(e, dom) == Bounds(e, dom)
    ensures Eval(e, val).Value? ==> In(Eval(e, val).x, ReleaseBounds(e, dom).value)
  {
    RoomyComputes(e, dom);
    ReleaseAgrees(e, dom);
    BoundsSound(e, val, dom);
  }
}
