/** The interval of an expression contains its value (src/expr.rs, `bounds` against `eval`). */
module ExprSoundness {
  import opened Common
  import opened Expressions

  // --- products and quotients at the corners -------------------------------------------

  lemma ScaleBetween(x: int, lo: int, hi: int, c: int)
    requires lo <= x <= hi
    ensures Common.Min(lo * c, hi * c) <= x * c <= Common.Max(lo * c, hi * c)
  {
    if c >= 0 {
      assert (x - lo) * c >= 0 && (hi - x) * c >= 0;
    } else {
      assert (x - lo) * (-c) >= 0 && (hi - x) * (-c) >= 0;
    }
  }

  lemma ProductInCorners(x: int, y: int, a: Interval, b: Interval)
    requires In(x, a) && In(y, b) && IMul(a, b).Some?
    ensures In(x * y, IMul(a, b).value)
  {
    ScaleBetween(x, a.lo, a.hi, y);
    ScaleBetween(y, b.lo, b.hi, a.lo);
    ScaleBetween(y, b.lo, b.hi, a.hi);
  }

  lemma QuotientBounds(a: nat, b: nat)
    requires b > 0
    ensures b * (a / b) <= a < b * (a / b) + b
  {
  }

  lemma StepUp(b: int, p: int, q: int)
    requires b > 0 && p > q
    ensures b * p >= b * q + b
  {
    assert b * (p - q - 1) >= 0;
    assert b * (p - q - 1) == b * p - b * q - b;
  }

  lemma Cancel(b: int, p: int, q: int)
    requires b > 0 && b * p < b * q + b
    ensures p <= q
  {
    if p > q { StepUp(b, p, q); }
  }

  lemma DivideMonotone(a1: nat, a2: nat, b: nat)
    requires a1 <= a2 && b > 0
    ensures a1 / b <= a2 / b
  {
    QuotientBounds(a1, b);
    QuotientBounds(a2, b);
    Cancel(b, a1 / b, a2 / b);
  }

  lemma DivideAntitone(a: nat, b1: nat, b2: nat)
    requires 0 < b1 <= b2
    ensures a / b2 <= a / b1
  {
    QuotientBounds(a, b1);
    QuotientBounds(a, b2);
    ScaleBetween(b1, 0, b2, a / b2);
    Cancel(b1, a / b2, a / b1);
  }

  /** For a fixed positive divisor the truncated quotient is monotone. */
  lemma QuotMonotone(x: int, y: int, b: int)
    requires x <= y && b > 0
    ensures Quot(x, b) <= Quot(y, b)
  {
    DivideMonotone(0, Common.Abs(x), b);
    DivideMonotone(0, Common.Abs(y), b);
    if x >= 0 {
      DivideMonotone(x, y, b);
    } else if y < 0 {
      DivideMonotone(-y, -x, b);
    }
  }

  /** For a fixed dividend it lies between its values at the ends of a positive divisor range. */
  lemma QuotBetween(x: int, d: int, lo: int, hi: int)
    requires 0 < lo <= d <= hi
    ensures Common.Min(Quot(x, lo), Quot(x, hi)) <= Quot(x, d) <= Common.Max(Quot(x, lo), Quot(x, hi))
  {
    DivideAntitone(Common.Abs(x), lo, d);
    DivideAntitone(Common.Abs(x), d, hi);
  }

  lemma QuotInPositiveCorners(x: int, d: int, a: Interval, b: Interval)
    requires In(x, a) && In(d, b) && b.lo > 0
    ensures Min4(Quot(a.lo, b.lo), Quot(a.lo, b.hi), Quot(a.hi, b.lo), Quot(a.hi, b.hi)) <= Quot(x, d)
    ensures Quot(x, d) <= Max4(Quot(a.lo, b.lo), Quot(a.lo, b.hi), Quot(a.hi, b.lo), Quot(a.hi, b.hi))
  {
    QuotMonotone(a.lo, x, d);
    QuotMonotone(x, a.hi, d);
    QuotBetween(a.lo, d, b.lo, b.hi);
    QuotBetween(a.hi, d, b.lo, b.hi);
  }

  lemma QuotNegated(x: int, d: int)
    requires d != 0
    ensures Quot(x, d) == Quot(-x, -d)
  {
    if x == 0 { assert 0 / Common.Abs(d) == 0; }
  }

  lemma QuotMagnitude(x: int, d: int)
    requires d != 0
    ensures Common.Abs(Quot(x, d)) <= Common.Abs(x)
  {
    DivideAntitone(Common.Abs(x), 1, Common.Abs(d));
  }

  lemma RemMagnitude(x: int, d: int)
    requires d != 0
    ensures Common.Abs(Rem(x, d)) < Common.Abs(d)
  {
    var a, b := Common.Abs(x), Common.Abs(d);
    QuotientBounds(a, b);
    assert Rem(x, d) == (if x >= 0 then a - b * (a / b) else -(a - b * (a / b))) by {
      if d > 0 { assert d == b; } else { assert d == -b; assert (-b) * (-(a / b)) == b * (a / b); }
    }
  }

  lemma QuotInNegativeCorners(x: int, d: int, a: Interval, b: Interval)
    requires In(x, a) && In(d, b) && b.hi < 0
    ensures Min4(Quot(a.lo, b.lo), Quot(a.lo, b.hi), Quot(a.hi, b.lo), Quot(a.hi, b.hi)) <= Quot(x, d)
    ensures Quot(x, d) <= Max4(Quot(a.lo, b.lo), Quot(a.lo, b.hi), Quot(a.hi, b.lo), Quot(a.hi, b.hi))
  {
    QuotNegated(x, d);
    QuotNegated(a.lo, b.lo);
    QuotNegated(a.lo, b.hi);
    QuotNegated(a.hi, b.lo);
    QuotNegated(a.hi, b.hi);
    QuotInPositiveCorners(-x, -d, Interval(-a.hi, -a.lo), Interval(-b.hi, -b.lo));
  }

  lemma QuotientSound(x: int, d: int, a: Interval, b: Interval)
    requires In(x, a) && In(d, b) && d != 0 && DivBounds(a, b).Some?
    ensures In(Quot(x, d), DivBounds(a, b).value)
  {
    if b.lo <= 0 <= b.hi {
      QuotMagnitude(x, d);
    } else if b.lo > 0 {
      QuotInPositiveCorners(x, d, a, b);
    } else {
      QuotInNegativeCorners(x, d, a, b);
    }
  }

  // --- how tight the basic intervals are ----------------------------------------------------

  /** A comparison is decided exactly when every pair of values agrees on it. */
  lemma CompareBoundsExact(op: Relation, i: Interval, j: Interval)
    requires i.lo <= i.hi && j.lo <= j.hi
    ensures CompareBounds(op, i, j) == TRUE <==> forall x, y | In(x, i) && In(y, j) :: Compare(op, x, y)
    ensures CompareBounds(op, i, j) == FALSE <==> forall x, y | In(x, i) && In(y, j) :: !Compare(op, x, y)
  {
    assert In(i.lo, i) && In(i.hi, i) && In(j.lo, j) && In(j.hi, j);
    assert Compare(op, i.lo, j.lo) || !Compare(op, i.lo, j.lo);
    assert Compare(op, i.lo, j.hi) || !Compare(op, i.lo, j.hi);
    assert Compare(op, i.hi, j.lo) || !Compare(op, i.hi, j.lo);
    assert Compare(op, i.hi, j.hi) || !Compare(op, i.hi, j.hi);
    var m := Common.Max(i.lo, j.lo);
    assert i.lo <= j.hi && j.lo <= i.hi ==> In(m, i) && In(m, j) && (Compare(op, m, m) || !Compare(op, m, m));
  }

  /** Both ends of a product, and of a quotient by a divisor of one sign, are taken by members. */
  lemma CornersAttained(a: Interval, b: Interval)
    requires a.lo <= a.hi && b.lo <= b.hi
    ensures IMul(a, b).Some? ==>
              && (exists x, y :: In(x, a) && In(y, b) && x * y == IMul(a, b).value.lo)
              && (exists x, y :: In(x, a) && In(y, b) && x * y == IMul(a, b).value.hi)
    ensures !(b.lo <= 0 <= b.hi) && DivBounds(a, b).Some? ==>
              && (exists x, y :: In(x, a) && In(y, b) && y != 0 && Quot(x, y) == DivBounds(a, b).value.lo)
              && (exists x, y :: In(x, a) && In(y, b) && y != 0 && Quot(x, y) == DivBounds(a, b).value.hi)
  {
    assert In(a.lo, a) && In(a.hi, a) && In(b.lo, b) && In(b.hi, b);
    if IMul(a, b).Some? {
      var p, q, r, s := a.lo * b.lo, a.lo * b.hi, a.hi * b.lo, a.hi * b.hi;
      assert IMul(a, b).value.lo in {p, q, r, s} && IMul(a, b).value.hi in {p, q, r, s};
    }
    if !(b.lo <= 0 <= b.hi) && DivBounds(a, b).Some? {
      var p, q, r, s := Quot(a.lo, b.lo), Quot(a.lo, b.hi), Quot(a.hi, b.lo), Quot(a.hi, b.hi);
      assert DivBounds(a, b).value.lo in {p, q, r, s} && DivBounds(a, b).value.hi in {p, q, r, s};
    }
  }

  // --- folds over operand lists ----------------------------------------------------------

  ghost predicate AllIn(xs: seq<int>, bs: seq<Interval>) {
    |xs| == |bs| && forall i | 0 <= i < |xs| :: In(xs[i], bs[i])
  }

  lemma {:induction false} SumSound(acc: int, xs: seq<int>, box: Interval, bs: seq<Interval>)
    requires In(acc, box) && AllIn(xs, bs) && SumFrom(acc, xs).Value?
    ensures In(SumFrom(acc, xs).x, IAddAll(box, bs))
    ensures xs != [] ==> FitsI64(SumFrom(acc, xs).x)
    decreases |xs|
  {
    if xs != [] {
      SumSound(acc + xs[0], xs[1..], Interval(box.lo + bs[0].lo, box.hi + bs[0].hi), bs[1..]);
    }
  }

  lemma {:induction false} ProductSound(acc: int, xs: seq<int>, box: Interval, bs: seq<Interval>)
    requires In(acc, box) && AllIn(xs, bs) && ProductFrom(acc, xs).Value? && IMulAll(box, bs).Some?
    ensures In(ProductFrom(acc, xs).x, IMulAll(box, bs).value)
    ensures xs != [] ==> FitsI64(ProductFrom(acc, xs).x)
    decreases |xs|
  {
    if xs != [] {
      ProductInCorners(acc, xs[0], box, bs[0]);
      ProductSound(acc * xs[0], xs[1..], IMul(box, bs[0]).value, bs[1..]);
    }
  }

  lemma {:induction false} MinMonotone(a: int, xs: seq<int>, b: int, ys: seq<int>)
    requires a <= b && |xs| == |ys| && forall i | 0 <= i < |xs| :: xs[i] <= ys[i]
    ensures MinFrom(a, xs) <= MinFrom(b, ys)
    decreases |xs|
  {
    if xs != [] { MinMonotone(Common.Min(a, xs[0]), xs[1..], Common.Min(b, ys[0]), ys[1..]); }
  }

  lemma {:induction false} MaxMonotone(a: int, xs: seq<int>, b: int, ys: seq<int>)
    requires a <= b && |xs| == |ys| && forall i | 0 <= i < |xs| :: xs[i] <= ys[i]
    ensures MaxFrom(a, xs) <= MaxFrom(b, ys)
    decreases |xs|
  {
    if xs != [] { MaxMonotone(Common.Max(a, xs[0]), xs[1..], Common.Max(b, ys[0]), ys[1..]); }
  }

  // --- implications whose antecedent is certain ---------------------------------------------

  /** Whether an interval contains the truth value of each of its members. */
  predicate KeepsTruth(i: Interval) { i == FALSE || i.lo <= 1 <= i.hi }

  lemma KeepsTruthIff(i: Interval)
    requires i.lo <= i.hi
    ensures KeepsTruth(i) <==> forall x | In(x, i) :: In(Truth(x), i)
  {
    if forall x | In(x, i) :: In(Truth(x), i) {
      assert In(i.lo, i) && In(Truth(i.lo), i);
    }
  }

  /** The condition under which every `Imp` node of the tree is sound. */
  predicate Guarded(e: Expr, dom: Box)
    decreases e, 1
  {
    match e
    case Const(_) => true
    case Var(_) => true
    case Neg(a) => Guarded(a, dom)
    case Abs(a) => Guarded(a, dom)
    case Not(a) => Guarded(a, dom)
    case Add(es) => GuardedAll(es, dom)
    case Mul(es) => GuardedAll(es, dom)
    case Min(es) => GuardedAll(es, dom)
    case Max(es) => GuardedAll(es, dom)
    case And(es) => GuardedAll(es, dom)
    case Or(es) => GuardedAll(es, dom)
    case Sub(a, b) => Guarded(a, dom) && Guarded(b, dom)
    case Div(a, b) => Guarded(a, dom) && Guarded(b, dom)
    case Mod(a, b) => Guarded(a, dom) && Guarded(b, dom)
    case Cmp(_, a, b) => Guarded(a, dom) && Guarded(b, dom)
    case Iff(a, b) => Guarded(a, dom) && Guarded(b, dom)
    case Imp(a, b) =>
      && Guarded(a, dom) && Guarded(b, dom)
      && (Bounds(a, dom) == Some(TRUE) && Bounds(b, dom).Some? ==> KeepsTruth(Bounds(b, dom).value))
    case IfThenElse(c, t, f) => Guarded(c, dom) && Guarded(t, dom) && Guarded(f, dom)
  }

  predicate GuardedAll(es: seq<Expr>, dom: Box)
    decreases es, 0
  {
    es == [] || (Guarded(es[0], dom) && GuardedAll(es[1..], dom))
  }

  // --- the theorem ----------------------------------------------------------------------------

  ghost predicate InBox(val: Valuation, dom: Box) { forall v :: In(val(v), dom(v)) }

  /** If evaluation yields a value and the bounds do not overflow, the value is within them. */
  ghost predicate Within(e: Expr, val: Valuation, dom: Box) {
    Eval(e, val).Value? && Bounds(e, dom).Some? ==> In(Eval(e, val).x, Bounds(e, dom).value)
  }

  ghost predicate AllWithin(es: seq<Expr>, val: Valuation, dom: Box) {
    EvalList(es, val).Values? && BoundsList(es, dom).Some? ==> AllIn(EvalList(es, val).xs, BoundsList(es, dom).value)
  }

  lemma AddWithin(es: seq<Expr>, val: Valuation, dom: Box)
    requires AllWithin(es, val, dom)
    ensures Within(Add(es), val, dom)
  {
    if Eval(Add(es), val).Value? && Bounds(Add(es), dom).Some? {
      SumSound(0, EvalList(es, val).xs, Interval(0, 0), BoundsList(es, dom).value);
    }
  }

  lemma MulWithin(es: seq<Expr>, val: Valuation, dom: Box)
    requires AllWithin(es, val, dom)
    ensures Within(Mul(es), val, dom)
  {
    if Eval(Mul(es), val).Value? && Bounds(Mul(es), dom).Some? {
      ProductSound(1, EvalList(es, val).xs, Interval(1, 1), BoundsList(es, dom).value);
    }
  }

  lemma MinMaxWithin(es: seq<Expr>, val: Valuation, dom: Box)
    requires AllWithin(es, val, dom)
    ensures Within(Min(es), val, dom) && Within(Max(es), val, dom)
  {
    if EvalList(es, val).Values? && BoundsList(es, dom).Some? {
      var xs, bs := EvalList(es, val).xs, BoundsList(es, dom).value;
      MinMonotone(I64_MAX, Los(bs), I64_MAX, xs);
      MinMonotone(I64_MAX, xs, I64_MAX, His(bs));
      MaxMonotone(I64_MIN, Los(bs), I64_MIN, xs);
      MaxMonotone(I64_MIN, xs, I64_MIN, His(bs));
    }
  }

  lemma DivModWithin(a: Expr, b: Expr, val: Valuation, dom: Box)
    requires Within(a, val, dom) && Within(b, val, dom)
    ensures Within(Div(a, b), val, dom) && Within(Mod(a, b), val, dom)
  {
    if Eval(Div(a, b), val).Value? && Bounds(Div(a, b), dom).Some? {
      QuotientSound(Eval(a, val).x, Eval(b, val).x, Bounds(a, dom).value, Bounds(b, dom).value);
    }
    if Eval(Mod(a, b), val).Value? && Bounds(Mod(a, b), dom).Some? {
      RemMagnitude(Eval(a, val).x, Eval(b, val).x);
    }
  }

  /** The unary steps on intervals. */
  lemma UnaryIn(x: int, i: Interval)
    requires In(x, i)
    ensures INeg(i).Some? ==> In(-x, INeg(i).value)
    ensures IAbs(i).Some? ==> In(Common.Abs(x), IAbs(i).value)
    ensures In(1 - Truth(x), INot(i))
  {
  }

  lemma NegWithin(a: Expr, val: Valuation, dom: Box)
    requires Within(a, val, dom)
    ensures Within(Neg(a), val, dom)
  {
    if Eval(a, val).Value? && Bounds(a, dom).Some? { UnaryIn(Eval(a, val).x, Bounds(a, dom).value); }
  }

  lemma AbsWithin(a: Expr, val: Valuation, dom: Box)
    requires Within(a, val, dom)
    ensures Within(Expr.Abs(a), val, dom)
  {
    if Eval(a, val).Value? && Bounds(a, dom).Some? { UnaryIn(Eval(a, val).x, Bounds(a, dom).value); }
  }

  lemma NotWithin(a: Expr, val: Valuation, dom: Box)
    requires Within(a, val, dom)
    ensures Within(Not(a), val, dom)
  {
    if Eval(a, val).Value? && Bounds(a, dom).Some? { UnaryIn(Eval(a, val).x, Bounds(a, dom).value); }
  }

  /** The binary steps on intervals. */
  lemma BinaryIn(op: Relation, x: int, y: int, i: Interval, j: Interval)
    requires In(x, i) && In(y, j)
    ensures FitsI64(x - y) ==> In(x - y, ISub(i, j))
    ensures In(Bit(Compare(op, x, y)), CompareBounds(op, i, j))
    ensures In(Bit(Truth(x) == Truth(y)), IIff(i, j))
  {
  }

  lemma SubWithin(a: Expr, b: Expr, val: Valuation, dom: Box)
    requires Within(a, val, dom) && Within(b, val, dom)
    ensures Within(Sub(a, b), val, dom)
  {
    if Eval(Sub(a, b), val).Value? && Bounds(Sub(a, b), dom).Some? {
      BinaryIn(Relation.Eq, Eval(a, val).x, Eval(b, val).x, Bounds(a, dom).value, Bounds(b, dom).value);
    }
  }

  lemma CmpWithin(op: Relation, a: Expr, b: Expr, val: Valuation, dom: Box)
    requires Within(a, val, dom) && Within(b, val, dom)
    ensures Within(Cmp(op, a, b), val, dom)
  {
    if Eval(Cmp(op, a, b), val).Value? && Bounds(Cmp(op, a, b), dom).Some? {
      BinaryIn(op, Eval(a, val).x, Eval(b, val).x, Bounds(a, dom).value, Bounds(b, dom).value);
    }
  }

  lemma IffWithin(a: Expr, b: Expr, val: Valuation, dom: Box)
    requires Within(a, val, dom) && Within(b, val, dom)
    ensures Within(Iff(a, b), val, dom)
  {
    if Eval(Iff(a, b), val).Value? && Bounds(Iff(a, b), dom).Some? {
      BinaryIn(Relation.Eq, Eval(a, val).x, Eval(b, val).x, Bounds(a, dom).value, Bounds(b, dom).value);
    }
  }

  lemma ImpWithin(a: Expr, b: Expr, val: Valuation, dom: Box)
    requires Within(a, val, dom) && Within(b, val, dom) && Guarded(Imp(a, b), dom)
    ensures Within(Imp(a, b), val, dom)
  {
  }

  /**
   `Bounds` passes the consequent's interval through when the antecedent is
   certainly true, while `Eval` reduces the consequent to 0/1. The result is
   contained exactly when the interval keeps truth values or the consequent is 0.
   */
  lemma ImpExact(a: Expr, b: Expr, val: Valuation, dom: Box)
    requires Within(a, val, dom) && Within(b, val, dom)
    requires Bounds(a, dom) == Some(TRUE) && Bounds(b, dom).Some? && Eval(Imp(a, b), val).Value?
    ensures Within(Imp(a, b), val, dom) <==> KeepsTruth(Bounds(b, dom).value) || Eval(b, val) == Value(0)
  {
    assert Eval(a, val) == Value(1) && Eval(b, val).Value?;
    assert Bounds(Imp(a, b), dom) == Bounds(b, dom);
  }

  /**
   With a variable as consequent, containment under every assignment comes down
   to the variable's interval; `[5, 5]` is one that does not keep truth values.
   */
  lemma ImpliedVariableSoundIff(v: VarId, dom: Box)
    requires dom(v).lo <= dom(v).hi
    ensures (forall val: Valuation | In(val(v), dom(v)) :: Within(Imp(Const(1), Var(v)), val, dom)) <==>
        KeepsTruth(dom(v))
    ensures dom(v) == Interval(5, 5) ==> !KeepsTruth(dom(v))
  {
    var a, b := Const(1), Var(v);
    assert Bounds(a, dom) == Some(TRUE) && Bounds(b, dom) == Some(dom(v));
    forall val: Valuation | In(val(v), dom(v))
      ensures Within(Imp(a, b), val, dom) <==> KeepsTruth(dom(v)) || val(v) == 0
    {
      assert Eval(a, val) == Value(1) && Eval(b, val) == Value(val(v));
      ImpExact(a, b, val, dom);
    }
    if forall val: Valuation | In(val(v), dom(v)) :: Within(Imp(a, b), val, dom) {
      var low: Valuation, high: Valuation := _ => dom(v).lo, _ => dom(v).hi;
      assert In(low(v), dom(v)) && In(high(v), dom(v));
    }
  }

  lemma IteWithin(c: Expr, t: Expr, f: Expr, val: Valuation, dom: Box)
    requires Within(c, val, dom) && Within(t, val, dom) && Within(f, val, dom)
    ensures Within(IfThenElse(c, t, f), val, dom)
  {
  }

  /** Soundness of the interval abstraction, for every expression tree, assignment and box. */
  lemma {:induction false} BoundsSound(e: Expr, val: Valuation, dom: Box)
    requires InBox(val, dom) && Guarded(e, dom)
    ensures Within(e, val, dom)
    decreases e, 1
  {
    match e
    case Const(_) =>
    case Var(_) =>
    case Neg(a) => BoundsSound(a, val, dom); NegWithin(a, val, dom);
    case Abs(a) => BoundsSound(a, val, dom); AbsWithin(a, val, dom);
    case Not(a) => BoundsSound(a, val, dom); NotWithin(a, val, dom);
    case Add(es) => ListSound(es, val, dom); AddWithin(es, val, dom);
    case Mul(es) => ListSound(es, val, dom); MulWithin(es, val, dom);
    case Min(es) => ListSound(es, val, dom); MinMaxWithin(es, val, dom);
    case Max(es) => ListSound(es, val, dom); MinMaxWithin(es, val, dom);
    case Sub(a, b) => BoundsSound(a, val, dom); BoundsSound(b, val, dom); SubWithin(a, b, val, dom);
    case Cmp(op, a, b) => BoundsSound(a, val, dom); BoundsSound(b, val, dom); CmpWithin(op, a, b, val, dom);
    case Iff(a, b) => BoundsSound(a, val, dom); BoundsSound(b, val, dom); IffWithin(a, b, val, dom);
    case Div(a, b) => BoundsSound(a, val, dom); BoundsSound(b, val, dom); DivModWithin(a, b, val, dom);
    case Mod(a, b) => BoundsSound(a, val, dom); BoundsSound(b, val, dom); DivModWithin(a, b, val, dom);
    case And(es) => AndSound(es, val, dom, true);
    case Or(es) => OrSound(es, val, dom, true);
    case Imp(a, b) => BoundsSound(a, val, dom); BoundsSound(b, val, dom); ImpWithin(a, b, val, dom);
    case IfThenElse(c, t, f) =>
      BoundsSound(c, val, dom);
      BoundsSound(t, val, dom);
      BoundsSound(f, val, dom);
      IteWithin(c, t, f, val, dom);
  }

  lemma {:induction false} ListSound(es: seq<Expr>, val: Valuation, dom: Box)
    requires InBox(val, dom) && GuardedAll(es, dom)
    ensures AllWithin(es, val, dom)
    decreases es, 0
  {
    if es != [] {
      BoundsSound(es[0], val, dom);
      ListSound(es[1..], val, dom);
    }
  }

  lemma {:induction false} AndSound(es: seq<Expr>, val: Valuation, dom: Box, allTrue: bool)
    requires InBox(val, dom) && GuardedAll(es, dom)
    ensures EvalList(es, val).Values? && AndBounds(es, dom, allTrue).Some? ==>
              var r, xs := AndBounds(es, dom, allTrue).value, EvalList(es, val).xs;
              && (r == FALSE ==> 0 in xs)
              && (r == TRUE ==> allTrue && 0 !in xs)
              && (r == FALSE || r == TRUE || r == MAYBE)
    decreases es, 0
  {
    if es != [] && EvalList(es, val).Values? && AndBounds(es, dom, allTrue).Some? {
      BoundsSound(es[0], val, dom);
      var x, xs := Eval(es[0], val).x, EvalList(es, val).xs;
      assert xs[0] == x && xs == [x] + EvalList(es[1..], val).xs;
      if Bounds(es[0], dom).value != FALSE {
        AndSound(es[1..], val, dom, allTrue && Bounds(es[0], dom).value == TRUE);
      }
    }
  }

  /** An implication whose antecedent is certainly true, with guarded operands: exactly when its interval is sound. */
  lemma CertainImpIff(a: Expr, b: Expr, val: Valuation, dom: Box)
    requires InBox(val, dom) && Guarded(a, dom) && Guarded(b, dom)
    requires Bounds(a, dom) == Some(TRUE) && Bounds(b, dom).Some? && Eval(Imp(a, b), val).Value?
    ensures Within(Imp(a, b), val, dom) <==> KeepsTruth(Bounds(b, dom).value) || Eval(b, val) == Value(0)
  {
    BoundsSound(a, val, dom);
    BoundsSound(b, val, dom);
    ImpExact(a, b, val, dom);
  }

  lemma AnyTrueCons(x: int, xs: seq<int>)
    ensures AnyTrue([x] + xs) <==> x != 0 || AnyTrue(xs)
  {
    if AnyTrue(xs) {
      var i :| 0 <= i < |xs| && xs[i] != 0;
      assert ([x] + xs)[i + 1] == xs[i];
    }
    if x != 0 { assert ([x] + xs)[0] != 0; }
  }

  lemma {:induction false} OrSound(es: seq<Expr>, val: Valuation, dom: Box, allFalse: bool)
    requires InBox(val, dom) && GuardedAll(es, dom)
    ensures EvalList(es, val).Values? && OrBounds(es, dom, allFalse).Some? ==>
              var r, xs := OrBounds(es, dom, allFalse).value, EvalList(es, val).xs;
              && (r == TRUE ==> AnyTrue(xs))
              && (r == FALSE ==> allFalse && !AnyTrue(xs))
              && (r == FALSE || r == TRUE || r == MAYBE)
    decreases es, 0
  {
    if es != [] && EvalList(es, val).Values? && OrBounds(es, dom, allFalse).Some? {
      BoundsSound(es[0], val, dom);
      var x, xs, rest := Eval(es[0], val).x, EvalList(es, val).xs, EvalList(es[1..], val).xs;
      assert xs[0] == x && xs == [x] + rest;
      if Bounds(es[0], dom).value != TRUE {
        OrSound(es[1..], val, dom, allFalse && Bounds(es[0], dom).value == FALSE);
        AnyTrueCons(x, rest);
      }
    }
  }
}
