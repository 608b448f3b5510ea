/**
 Interval bounds as the release profile computes them (src/expr.rs, `bounds`;
 Cargo.toml turns overflow checks off there): arithmetic that leaves its machine
 width wraps around. Where the checked computation succeeds the two agree; a
 condition on the tree and the box guarantees that it does.
 */
module ReleaseBuild {
  import opened Common
  import opened Expressions
  import opened ExprSoundness

  // --- wrap-around ------------------------------------------------------------------------

  /** Two's-complement wrap-around to 64 bits. */
  function Wrap64(x: int): (r: int)
    ensures FitsI64(r) && (FitsI64(x) ==> r == x)
    ensures x == -I64_MIN ==> r == I64_MIN
    ensures (x - r) % 0x1_0000_0000_0000_0000 == 0
  {
    (x + 0x8000_0000_0000_0000) % 0x1_0000_0000_0000_0000 - 0x8000_0000_0000_0000
  }

  /** Two's-complement wrap-around to 128 bits. */
  function Wrap128(x: int): (r: int)
    ensures FitsI128(r) && (FitsI128(x) ==> r == x)
    ensures (x - r) % 0x1_0000_0000_0000_0000_0000_0000_0000_0000 == 0
  {
    (x + 0x8000_0000_0000_0000_0000_0000_0000_0000) % 0x1_0000_0000_0000_0000_0000_0000_0000_0000
      - 0x8000_0000_0000_0000_0000_0000_0000_0000
  }

  function NegWrapped(i: Interval): Interval { Interval(Wrap64(-i.hi), Wrap64(-i.lo)) }

  function AbsWrapped(i: Interval): Interval {
    if i.lo >= 0 then i
    else if i.hi <= 0 then NegWrapped(i)
    else Interval(0, Common.Max(Wrap64(-i.lo), i.hi))
  }

  function MulWrapped(a: Interval, b: Interval): Interval {
    var p, q, r, s := Wrap128(a.lo * b.lo), Wrap128(a.lo * b.hi), Wrap128(a.hi * b.lo), Wrap128(a.hi * b.hi);
    Interval(Min4(p, q, r, s), Max4(p, q, r, s))
  }

  function MulAllWrapped(acc: Interval, bs: seq<Interval>): Interval
    decreases |bs|
  {
    if bs == [] then acc else MulAllWrapped(MulWrapped(acc, bs[0]), bs[1..])
  }

  /** The larger magnitude of the ends. */
  function MagnitudeWrapped(i: Interval): int { Common.Max(Wrap64(Common.Abs(i.lo)), Wrap64(Common.Abs(i.hi))) }

  /** A zero divisor and the quotient of the least value by -1 abort in every profile. */
  function DivWrapped(a: Interval, b: Interval): Option<Interval> {
    if b.lo <= 0 <= b.hi then
      var m := MagnitudeWrapped(a);
      Some(Interval(Wrap64(-m), m))
    else DivBounds(a, b)
  }

  function ModWrapped(b: Interval): Interval {
    var m := MagnitudeWrapped(b);
    if m == 0 then Interval(0, 0) else Interval(Wrap64(-Wrap64(m - 1)), Wrap64(m - 1))
  }

  // --- the release computation ------------------------------------------------------------

  function ReleaseList(es: seq<Expr>, dom: Box): Option<seq<Interval>>
    decreases es, 0
  {
    if es == [] then Some([])
    else
      match (ReleaseBounds(es[0], dom), ReleaseList(es[1..], dom))
      case (Some(b), Some(bs)) => Some([b] + bs)
      case _ => None
  }

  function ReleaseAnd(es: seq<Expr>, dom: Box, allTrue: bool): Option<Interval>
    decreases es, 0
  {
    if es == [] then Some(if allTrue then TRUE else MAYBE)
    else
      match ReleaseBounds(es[0], dom)
      case None => None
      case Some(b) => if b == FALSE then Some(FALSE) else ReleaseAnd(es[1..], dom, allTrue && b == TRUE)
  }

  function ReleaseOr(es: seq<Expr>, dom: Box, allFalse: bool): Option<Interval>
    decreases es, 0
  {
    if es == [] then Some(if allFalse then FALSE else MAYBE)
    else
      match ReleaseBounds(es[0], dom)
      case None => None
      case Some(b) => if b == TRUE then Some(TRUE) else ReleaseOr(es[1..], dom, allFalse && b == FALSE)
  }

  /** The interval the release build returns; `None` when it aborts. */
  function ReleaseBounds(e: Expr, dom: Box): Option<Interval>
    decreases e, 1
  {
    match e
    case Const(c) => Some(Interval(c, c))
    case Var(v) => Some(dom(v))
    case Neg(a) => (match ReleaseBounds(a, dom) case Some(i) => Some(NegWrapped(i)) case None => None)
    case Abs(a) => (match ReleaseBounds(a, dom) case Some(i) => Some(AbsWrapped(i)) case None => None)
    case Add(es) =>
      (match ReleaseList(es, dom) case Some(bs) => Some(IClamp(IAddAll(Interval(0, 0), bs))) case None => None)
    case Sub(a, b) =>
      (match (ReleaseBounds(a, dom), ReleaseBounds(b, dom)) case (Some(i), Some(j)) => Some(ISub(i, j)) case _ => None)
    case Mul(es) =>
      (match ReleaseList(es, dom) case Some(bs) => Some(IClamp(MulAllWrapped(Interval(1, 1), bs))) case None => None)
    case Div(a, b) =>
      (match (ReleaseBounds(a, dom), ReleaseBounds(b, dom)) case (Some(i), Some(j)) => DivWrapped(i, j) case _ => None)
    case Mod(_, b) => (match ReleaseBounds(b, dom) case Some(j) => Some(ModWrapped(j)) case None => None)
    case Min(es) => (match ReleaseList(es, dom) case Some(bs) => Some(IMin(bs)) case None => None)
    case Max(es) => (match ReleaseList(es, dom) case Some(bs) => Some(IMax(bs)) case None => None)
    case Cmp(op, a, b) =>
      (match (ReleaseBounds(a, dom), ReleaseBounds(b, dom))
       case (Some(i), Some(j)) => Some(CompareBounds(op, i, j))
       case _ => None)
    case Not(a) => (match ReleaseBounds(a, dom) case Some(i) => Some(INot(i)) case None => None)
    case And(es) => ReleaseAnd(es, dom, true)
    case Or(es) => ReleaseOr(es, dom, true)
    case Imp(a, b) =>
      (match ReleaseBounds(a, dom)
       case Some(i) => if i == FALSE then Some(TRUE) else if i == TRUE then ReleaseBounds(b, dom) else Some(MAYBE)
       case None => None)
    case Iff(a, b) =>
      (match (ReleaseBounds(a, dom), ReleaseBounds(b, dom)) case (Some(i), Some(j)) => Some(IIff(i, j)) case _ => None)
    case IfThenElse(c, t, f) =>
      (match ReleaseBounds(c, dom)
       case Some(i) =>
         if i == TRUE then ReleaseBounds(t, dom)
         else if i == FALSE then ReleaseBounds(f, dom)
         else
           (match (ReleaseBounds(t, dom), ReleaseBounds(f, dom))
            case (Some(j), Some(k)) => Some(IHull(j, k))
            case _ => None)
       case None => None)
  }

  // --- agreement with the checked computation -----------------------------------------------

  lemma {:induction false} MulAllAgrees(acc: Interval, bs: seq<Interval>)
    requires IMulAll(acc, bs).Some?
    ensures MulAllWrapped(acc, bs) == IMulAll(acc, bs).value
    decreases |bs|
  {
    if bs != [] {
      assert MulWrapped(acc, bs[0]) == IMul(acc, bs[0]).value;
      MulAllAgrees(MulWrapped(acc, bs[0]), bs[1..]);
    }
  }

  lemma DivAgrees(a: Interval, b: Interval)
    requires DivBounds(a, b).Some?
    ensures DivWrapped(a, b) == DivBounds(a, b)
  {
  }

  ghost predicate Agrees(e: Expr, dom: Box) { Bounds(e, dom).Some? ==> ReleaseBounds(e, dom) == Bounds(e, dom) }

  ghost predicate ListAgrees(es: seq<Expr>, dom: Box) {
    BoundsList(es, dom).Some? ==> ReleaseList(es, dom) == BoundsList(es, dom)
  }

  lemma NegAbsAgree(i: Interval)
    ensures INeg(i).Some? ==> INeg(i) == Some(NegWrapped(i))
    ensures IAbs(i).Some? ==> IAbs(i) == Some(AbsWrapped(i))
  {
  }

  lemma NegAgrees(a: Expr, dom: Box)
    requires Agrees(a, dom)
    ensures Agrees(Neg(a), dom)
  {
    if Bounds(a, dom).Some? { NegAbsAgree(Bounds(a, dom).value); }
  }

  lemma AbsAgrees(a: Expr, dom: Box)
    requires Agrees(a, dom)
    ensures Agrees(Expr.Abs(a), dom)
  {
    if Bounds(a, dom).Some? { NegAbsAgree(Bounds(a, dom).value); }
  }

  lemma RemainderAgrees(a: Expr, b: Expr, dom: Box)
    requires Agrees(b, dom)
    ensures Agrees(Mod(a, b), dom)
  {
    if Bounds(Mod(a, b), dom).Some? { ModAgrees(Bounds(b, dom).value); }
  }

  lemma ModAgrees(b: Interval)
    requires IMod(b).Some?
    ensures IMod(b) == Some(ModWrapped(b))
  {
  }

  lemma SubAgrees(a: Expr, b: Expr, dom: Box)
    requires Agrees(a, dom) && Agrees(b, dom)
    ensures Agrees(Sub(a, b), dom)
  {
  }

  lemma LogicAgrees(op: Relation, a: Expr, b: Expr, dom: Box)
    requires Agrees(a, dom) && Agrees(b, dom)
    ensures Agrees(Cmp(op, a, b), dom) && Agrees(Iff(a, b), dom)
  {
  }

  lemma ImpAgrees(a: Expr, b: Expr, dom: Box)
    requires Agrees(a, dom) && Agrees(b, dom)
    ensures Agrees(Imp(a, b), dom)
  {
  }

  lemma ChoiceAgrees(c: Expr, t: Expr, f: Expr, dom: Box)
    requires Agrees(c, dom) && Agrees(t, dom) && Agrees(f, dom)
    ensures Agrees(IfThenElse(c, t, f), dom)
  {
  }

  lemma DivisionAgrees(a: Expr, b: Expr, dom: Box)
    requires Agrees(a, dom) && Agrees(b, dom)
    ensures Agrees(Div(a, b), dom)
  {
    if Bounds(Div(a, b), dom).Some? { DivAgrees(Bounds(a, dom).value, Bounds(b, dom).value); }
  }

  lemma NaryAgrees(es: seq<Expr>, dom: Box)
    requires ListAgrees(es, dom)
    ensures Agrees(Add(es), dom) && Agrees(Mul(es), dom) && Agrees(Min(es), dom) && Agrees(Max(es), dom)
  {
    if Bounds(Mul(es), dom).Some? { MulAllAgrees(Interval(1, 1), BoundsList(es, dom).value); }
  }

  /** Where no step of the checked computation overflows, the release build returns the same interval. */
  lemma {:induction false} ReleaseAgrees(e: Expr, dom: Box)
    ensures Agrees(e, dom)
    decreases e, 1
  {
    match e
    case Const(_) =>
    case Var(_) =>
    case Neg(a) => ReleaseAgrees(a, dom); NegAgrees(a, dom);
    case Abs(a) => ReleaseAgrees(a, dom); AbsAgrees(a, dom);
    case Not(a) => ReleaseAgrees(a, dom);
    case Mod(a, b) => ReleaseAgrees(b, dom); RemainderAgrees(a, b, dom);
    case Sub(a, b) => ReleaseAgrees(a, dom); ReleaseAgrees(b, dom); SubAgrees(a, b, dom);
    case Cmp(op, a, b) => ReleaseAgrees(a, dom); ReleaseAgrees(b, dom); LogicAgrees(op, a, b, dom);
    case Iff(a, b) => ReleaseAgrees(a, dom); ReleaseAgrees(b, dom); LogicAgrees(Relation.Eq, a, b, dom);
    case Imp(a, b) => ReleaseAgrees(a, dom); ReleaseAgrees(b, dom); ImpAgrees(a, b, dom);
    case Div(a, b) => ReleaseAgrees(a, dom); ReleaseAgrees(b, dom); DivisionAgrees(a, b, dom);
    case Add(es) => ListReleaseAgrees(es, dom); NaryAgrees(es, dom);
    case Mul(es) => ListReleaseAgrees(es, dom); NaryAgrees(es, dom);
    case Min(es) => ListReleaseAgrees(es, dom); NaryAgrees(es, dom);
    case Max(es) => ListReleaseAgrees(es, dom); NaryAgrees(es, dom);
    case And(es) => AndReleaseAgrees(es, dom, true);
    case Or(es) => OrReleaseAgrees(es, dom, true);
    case IfThenElse(c, t, f) =>
      ReleaseAgrees(c, dom); ReleaseAgrees(t, dom); ReleaseAgrees(f, dom); ChoiceAgrees(c, t, f, dom);
  }

  lemma {:induction false} ListReleaseAgrees(es: seq<Expr>, dom: Box)
    ensures ListAgrees(es, dom)
    decreases es, 0
  {
    if es != [] {
      ReleaseAgrees(es[0], dom);
      ListReleaseAgrees(es[1..], dom);
    }
  }

  lemma {:induction false} AndReleaseAgrees(es: seq<Expr>, dom: Box, allTrue: bool)
    ensures AndBounds(es, dom, allTrue).Some? ==> ReleaseAnd(es, dom, allTrue) == AndBounds(es, dom, allTrue)
    decreases es, 0
  {
    if es != [] && AndBounds(es, dom, allTrue).Some? {
      ReleaseAgrees(es[0], dom);
      AndReleaseAgrees(es[1..], dom, allTrue && Bounds(es[0], dom).value == TRUE);
    }
  }

  lemma {:induction false} OrReleaseAgrees(es: seq<Expr>, dom: Box, allFalse: bool)
    ensures OrBounds(es, dom, allFalse).Some? ==> ReleaseOr(es, dom, allFalse) == OrBounds(es, dom, allFalse)
    decreases es, 0
  {
    if es != [] && OrBounds(es, dom, allFalse).Some? {
      ReleaseAgrees(es[0], dom);
      OrReleaseAgrees(es[1..], dom, allFalse && Bounds(es[0], dom).value == FALSE);
    }
  }

  // --- where wrapping loses values ------------------------------------------------------------

  /**
   The negated interval contains every representable negation exactly when the least
   value is not one of several members.
   */
  lemma NegationSoundIff(i: Interval)
    requires FitsI64(i.lo) && FitsI64(i.hi) && i.lo <= i.hi
    ensures (forall x | In(x, i) && FitsI64(-x) :: In(-x, NegWrapped(i))) <==> i.lo > I64_MIN || i.hi == I64_MIN
  {
    assert i.lo == I64_MIN < i.hi ==> In(i.hi, i) && FitsI64(-i.hi) && !In(-i.hi, NegWrapped(i));
  }

  /** Absolute values escape when the least value is a member, unless it is the only one or the greatest is one too. */
  lemma AbsoluteSoundIff(i: Interval)
    requires FitsI64(i.lo) && FitsI64(i.hi) && i.lo <= i.hi
    ensures (forall x | In(x, i) && FitsI64(Common.Abs(x)) :: In(Common.Abs(x), AbsWrapped(i))) <==>
            i.lo > I64_MIN || i.hi == I64_MIN || i.hi == I64_MAX
  {
    if i.lo == I64_MIN && I64_MIN < i.hi < I64_MAX {
      var x := if i.hi <= 0 then i.hi else -(i.hi + 1);
      assert In(x, i) && FitsI64(Common.Abs(x)) && !In(Common.Abs(x), AbsWrapped(i));
    }
  }

  ghost predicate RemaindersIn(b: Interval) {
    forall x, d | In(d, b) && d != 0 && FitsI64(x) :: In(Rem(x, d), ModWrapped(b))
  }

  /** A dividend smaller than the divisor is its own remainder. */
  lemma SmallDividend(x: int, d: int)
    requires Common.Abs(x) < Common.Abs(d)
    ensures Quot(x, d) == 0 && Rem(x, d) == x
  {
    assert Common.Abs(x) / Common.Abs(d) == 0;
  }

  lemma LeastDivisor()
    ensures ModWrapped(Interval(I64_MIN, I64_MIN)) == Interval(-I64_MAX, I64_MAX)
  {
    assert MagnitudeWrapped(Interval(I64_MIN, I64_MIN)) == I64_MIN;
    assert Wrap64(I64_MIN - 1) == I64_MAX;
  }

  /** Magnitudes below a divisor's lie in the wrapped interval. */
  lemma BelowDivisor(r: int, d: int, b: Interval)
    requires FitsI64(b.lo) && FitsI64(b.hi) && In(d, b) && Common.Abs(r) < Common.Abs(d)
    requires b.lo > I64_MIN || b.hi == I64_MIN
    ensures In(r, ModWrapped(b))
  {
    if b.lo > I64_MIN {
      ModAgrees(b);
    } else {
      LeastDivisor();
    }
  }

  lemma RemainderIn(x: int, d: int, b: Interval)
    requires FitsI64(b.lo) && FitsI64(b.hi) && In(d, b) && d != 0
    requires b.lo > I64_MIN || b.hi == I64_MIN
    ensures In(Rem(x, d), ModWrapped(b))
  {
    RemMagnitude(x, d);
    BelowDivisor(Rem(x, d), d, b);
  }

  lemma RemainderEscapes(b: Interval)
    requires b.lo == I64_MIN < b.hi <= I64_MAX
    ensures !RemaindersIn(b)
  {
    SmallDividend(I64_MAX, I64_MIN);
    assert !In(I64_MAX, ModWrapped(b));
    assert In(I64_MIN, b) && FitsI64(I64_MAX) && !In(Rem(I64_MAX, I64_MIN), ModWrapped(b));
  }

  /** Remainders escape exactly when the least value is one of several divisors. */
  lemma RemainderSoundIff(b: Interval)
    requires FitsI64(b.lo) && FitsI64(b.hi) && b.lo <= b.hi && b != Interval(0, 0)
    ensures RemaindersIn(b) <==> b.lo > I64_MIN || b.hi == I64_MIN
  {
    if b.lo > I64_MIN || b.hi == I64_MIN {
      forall x, d | In(d, b) && d != 0 && FitsI64(x) ensures In(Rem(x, d), ModWrapped(b)) { RemainderIn(x, d, b); }
    } else {
      RemainderEscapes(b);
    }
  }

  /** Every quotient that 64 bits can hold is in the wrapped interval. */
  ghost predicate QuotientsIn(a: Interval, b: Interval) {
    forall x, d | In(x, a) && In(d, b) && d != 0 && FitsI64(Quot(x, d)) ::
      DivWrapped(a, b).Some? && In(Quot(x, d), DivWrapped(a, b).value)
  }

  lemma UnitQuotient(x: int)
    ensures Quot(x, 1) == x && Quot(x, -1) == -x
  {
  }

  /** Halving or more moves the least value. */
  lemma LargeDivisor(d: int)
    requires Common.Abs(d) >= 2
    ensures I64_MIN < Quot(I64_MIN, d) && FitsI64(Quot(I64_MIN, d))
  {
    DivideAntitone(Common.Abs(I64_MIN), 2, Common.Abs(d));
  }

  /** A quotient by a negative divisor is never the least value. */
  lemma NegativeDivisor(x: int, d: int)
    requires FitsI64(x) && d < 0 && FitsI64(Quot(x, d))
    ensures Common.Abs(Quot(x, d)) <= I64_MAX
  {
    if x > I64_MIN {
      QuotMagnitude(x, d);
    } else if d == -1 {
      UnitQuotient(x);
    } else {
      LargeDivisor(d);
      QuotMagnitude(x, d);
    }
  }

  lemma OneDividendEscapes(b: Interval, d: int)
    requires b.lo <= 0 <= b.hi && In(d, b) && Common.Abs(d) >= 2
    ensures !QuotientsIn(Interval(I64_MIN, I64_MIN), b)
  {
    var a := Interval(I64_MIN, I64_MIN);
    assert DivWrapped(a, b) == Some(a) && In(I64_MIN, a);
    LargeDivisor(d);
  }

  lemma OneDividendUnits(b: Interval)
    requires -1 <= b.lo <= 0 <= b.hi <= 1
    ensures QuotientsIn(Interval(I64_MIN, I64_MIN), b)
  {
    var a := Interval(I64_MIN, I64_MIN);
    assert DivWrapped(a, b) == Some(a);
    UnitQuotient(I64_MIN);
    forall x, d | In(x, a) && In(d, b) && d != 0 && FitsI64(Quot(x, d)) ensures Quot(x, d) == I64_MIN {
      assert x == I64_MIN && (d == 1 || d == -1);
    }
  }

  lemma SeveralDividends(a: Interval, b: Interval)
    requires a.lo == I64_MIN < a.hi <= I64_MAX && b.lo <= 0 <= b.hi && b != Interval(0, 0)
    ensures QuotientsIn(a, b) <==> b.hi == 0 && (a.hi == I64_MAX || a.hi == I64_MIN + 1)
  {
    var m := Common.Abs(a.hi);
    assert DivWrapped(a, b) == Some(Interval(-m, m));
    UnitQuotient(I64_MIN);
    UnitQuotient(I64_MIN + 1);
    if b.hi > 0 {
      assert In(I64_MIN, a) && In(1, b) && FitsI64(Quot(I64_MIN, 1)) && !In(Quot(I64_MIN, 1), Interval(-m, m));
    } else if m < I64_MAX {
      assert In(I64_MIN + 1, a) && In(-1, b) && FitsI64(Quot(I64_MIN + 1, -1));
      assert !In(Quot(I64_MIN + 1, -1), Interval(-m, m));
    } else {
      forall x, d | In(x, a) && In(d, b) && d != 0 && FitsI64(Quot(x, d)) ensures In(Quot(x, d), Interval(-m, m)) {
        NegativeDivisor(x, d);
      }
    }
  }

  /**
   Quotients by divisors around zero escape when the least value is a dividend,
   unless it is the only one and all divisors are units, or no divisor is
   positive and the greatest magnitude is a dividend's as well.
   */
  lemma QuotientSoundIff(a: Interval, b: Interval)
    requires FitsI64(a.lo) && FitsI64(a.hi) && a.lo <= a.hi && b.lo <= 0 <= b.hi && b != Interval(0, 0)
    ensures QuotientsIn(a, b) <==>
            || a.lo > I64_MIN
            || (a.hi == I64_MIN && -1 <= b.lo && b.hi <= 1)
            || (b.hi == 0 && (a.hi == I64_MAX || a.hi == I64_MIN + 1))
  {
    if a.lo > I64_MIN {
      forall x, d | In(x, a) && In(d, b) && d != 0 ensures In(Quot(x, d), DivWrapped(a, b).value) {
        QuotMagnitude(x, d);
      }
    } else if a.hi == I64_MIN {
      if b.lo < -1 {
        OneDividendEscapes(b, b.lo);
      } else if b.hi > 1 {
        OneDividendEscapes(b, b.hi);
      } else {
        OneDividendUnits(b);
      }
    } else {
      SeveralDividends(a, b);
    }
  }

  /** A quotient by a divisor around zero: the interval is `[0, 0]` and misses -5. */
  lemma WideQuotientMisses(val: Valuation, dom: Box)
    requires dom(0) == Interval(I64_MIN, 0) && dom(1) == Interval(0, 1) && val(0) == -5 && val(1) == 1
    ensures
      var e := Div(Var(0), Var(1));
      Guarded(e, dom) && Eval(e, val) == Value(-5) && ReleaseBounds(e, dom) == Some(Interval(0, 0))
  {
    var x, y := Var(0), Var(1);
    UnitQuotient(-5);
    assert Eval(x, val) == Value(-5) && Eval(y, val) == Value(1) && Guarded(x, dom) && Guarded(y, dom);
    assert ReleaseBounds(x, dom) == Some(dom(0)) && ReleaseBounds(y, dom) == Some(dom(1));
  }

  /** A saturated difference under a negation: the interval is inverted and misses every value. */
  lemma SaturatedNegationMisses(val: Valuation, dom: Box)
    requires dom(0) == Interval(0, 10) && 0 <= val(0) <= 4
    ensures
      var e := Neg(Sub(Const(I64_MIN + 5), Var(0)));
      && Guarded(e, dom) && Eval(e, val) == Value(I64_MAX - 4 + val(0))
      && ReleaseBounds(e, dom) == Some(Interval(I64_MAX - 4, I64_MIN))
      && !In(Eval(e, val).x, ReleaseBounds(e, dom).value)
  {
    var c, v := Const(I64_MIN + 5), Var(0);
    var d := Sub(c, v);
    assert Eval(d, val) == Value(I64_MIN + 5 - val(0));
    assert ReleaseBounds(c, dom) == Some(Interval(I64_MIN + 5, I64_MIN + 5)) && ReleaseBounds(v, dom) == Some(dom(0));
    assert ReleaseBounds(d, dom) == Some(Interval(I64_MIN, I64_MIN + 5));
    assert Guarded(c, dom) && Guarded(v, dom) && Guarded(d, dom);
  }

  const WIDE: int := 0x800_0000_0000

  /** The corner product of three factors of 44 bits is a multiple of 2^128. */
  lemma WideCornersWrap(b: Interval)
    requires b == Interval(0, WIDE)
    ensures MulAllWrapped(Interval(1, 1), [b, b, b]) == Interval(0, 0)
  {
    var square := Interval(0, WIDE * WIDE);
    assert MulWrapped(Interval(1, 1), b) == b && MulWrapped(b, b) == square;
    assert MulWrapped(square, b) == Interval(0, 0);
    assert [b, b, b][1..] == [b, b] && [b, b][1..] == [b];
    var none: seq<Interval> := [];
    assert [b][1..] == none && MulAllWrapped(Interval(0, 0), none) == Interval(0, 0);
    assert MulAllWrapped(square, [b]) == Interval(0, 0);
    assert MulAllWrapped(b, [b, b]) == Interval(0, 0);
  }

  lemma ProductOfOnes()
    ensures ProductFrom(1, [1, 1, 1]) == Value(1)
  {
    assert [1, 1, 1][1..] == [1, 1] && [1, 1][1..] == [1] && [1][1..] == [];
  }

  /** Three factors of 44 bits: the corner wraps to 0 and the interval misses the value 1. */
  lemma WideProductMisses(val: Valuation, dom: Box)
    requires dom(0) == Interval(0, WIDE) && val(0) == 1
    ensures
      var e := Mul([Var(0), Var(0), Var(0)]);
      Guarded(e, dom) && Eval(e, val) == Value(1) && ReleaseBounds(e, dom) == Some(Interval(0, 0))
  {
    ThreeOperands(Var(0), val, dom);
    ProductOfOnes();
    WideCornersWrap(dom(0));
  }

  /** What one more operand adds to the list of intervals. */
  lemma OneMore(v: Expr, es: seq<Expr>, val: Valuation, dom: Box)
    requires v == Var(0)
    ensures
      && (EvalList(es, val).Values? ==> EvalList([v] + es, val) == Values([val(0)] + EvalList(es, val).xs))
      && (ReleaseList(es, dom).Some? ==> ReleaseList([v] + es, dom) == Some([dom(0)] + ReleaseList(es, dom).value))
      && (GuardedAll(es, dom) ==> GuardedAll([v] + es, dom))
  {
    assert ([v] + es)[0] == v && ([v] + es)[1..] == es;
    assert Eval(v, val) == Value(val(0)) && ReleaseBounds(v, dom) == Some(dom(0)) && Guarded(v, dom);
  }

  lemma ThreeOperands(v: Expr, val: Valuation, dom: Box)
    requires v == Var(0)
    ensures
      var es, x, b := [v, v, v], val(0), dom(0);
      EvalList(es, val) == Values([x, x, x]) && ReleaseList(es, dom) == Some([b, b, b]) && GuardedAll(es, dom)
  {
    var none: seq<Expr> := [];
    assert EvalList(none, val) == Values([]) && ReleaseList(none, dom) == Some([]) && GuardedAll(none, dom);
    OneMore(v, none, val, dom);
    OneMore(v, [v] + none, val, dom);
    OneMore(v, [v] + ([v] + none), val, dom);
    assert [v] + ([v] + ([v] + none)) == [v, v, v];
    var b, empty: seq<Interval> := dom(0), [];
    assert [b] + ([b] + ([b] + empty)) == [b, b, b];
  }
}
