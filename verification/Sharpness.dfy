/**
 How sharp the interval of an expression is (src/expr.rs, `bounds`): both ends of
 every node's interval come from values its operands may take.
 */
module Sharpness {
  import opened Common
  import opened Expressions
  import opened ExprSoundness
  import opened ExprMeaning

  predicate Proper(i: Interval) { i.lo <= i.hi }

  predicate IsTruth(i: Interval) { i == FALSE || i == TRUE || i == MAYBE }

  ghost predicate AllProper(bs: seq<Interval>) { forall i | 0 <= i < |bs| :: Proper(bs[i]) }

  ghost predicate AllTruth(bs: seq<Interval>) { forall i | 0 <= i < |bs| :: IsTruth(bs[i]) }

  // --- results reached from members of the operands' intervals ------------------------------------

  ghost predicate FromNegation(i: Interval, x: int) { exists y :: In(y, i) && x == -y }

  ghost predicate FromMagnitude(i: Interval, x: int) { exists y :: In(y, i) && x == Common.Abs(y) }

  ghost predicate FromDenial(i: Interval, x: int) { exists y :: In(y, i) && Tells(x, y == 0) }

  ghost predicate FromDifference(i: Interval, j: Interval, x: int) {
    exists y, z :: In(y, i) && In(z, j) && x == Clamp(y - z)
  }

  ghost predicate FromComparison(op: Relation, i: Interval, j: Interval, x: int) {
    exists y, z :: In(y, i) && In(z, j) && Tells(x, Related(op, y, z))
  }

  ghost predicate FromEquivalence(i: Interval, j: Interval, x: int) {
    exists y, z :: In(y, i) && In(z, j) && Tells(x, y == 0 <==> z == 0)
  }

  /** A divisor that may be 0 only tells that the quotient is no larger than the dividend. */
  ghost predicate FromQuotient(i: Interval, j: Interval, x: int) {
    if In(0, j) then exists y :: In(y, i) && Common.Abs(x) == Common.Abs(y)
    else exists y, z :: In(y, i) && In(z, j) && Truncates(y, z, x)
  }

  /** The remainder is only known to be smaller than the divisor. */
  ghost predicate FromRemainder(j: Interval, x: int) {
    exists z :: In(z, j) && Common.Abs(x) == if z == 0 then 0 else Common.Abs(z) - 1
  }

  /** An undecided antecedent leaves both truth values, whatever the consequent. */
  predicate FromImplication(i: Interval, j: Interval, x: int) {
    (In(0, i) && x == 1) || (In(1, i) && In(x, j)) || (In(0, i) && In(1, i) && x == 0)
  }

  predicate FromChoice(i: Interval, j: Interval, k: Interval, x: int) {
    (In(1, i) && In(x, j)) || (In(0, i) && In(x, k))
  }

  ghost predicate FromSum(bs: seq<Interval>, x: int) { exists xs :: AllIn(xs, bs) && x == Clamp(Total(xs)) }

  ghost predicate FromProduct(bs: seq<Interval>, x: int) { exists xs :: AllIn(xs, bs) && x == Clamp(Product(xs)) }

  ghost predicate FromLeast(bs: seq<Interval>, x: int) { exists xs :: AllIn(xs, bs) && IsLeast(x, I64_MAX, xs) }

  ghost predicate FromGreatest(bs: seq<Interval>, x: int) { exists xs :: AllIn(xs, bs) && IsGreatest(x, I64_MIN, xs) }

  ghost predicate FromAll(bs: seq<Interval>, x: int) {
    exists xs :: AllIn(xs, bs) && Tells(x, forall y | y in xs :: y != 0)
  }

  ghost predicate FromAny(bs: seq<Interval>, x: int) {
    exists xs :: AllIn(xs, bs) && Tells(x, !forall y | y in xs :: y == 0)
  }

  /** The interval of an operand; empty when there is none. */
  function Of(e: Expr, dom: Box): Interval {
    match Bounds(e, dom)
    case Some(i) => i
    case None => Interval(1, 0)
  }

  function AllOf(es: seq<Expr>, dom: Box): seq<Interval> {
    match BoundsList(es, dom)
    case Some(bs) => bs
    case None => []
  }

  /** Values of the operands lead to `x`. */
  ghost predicate Reaches(e: Expr, dom: Box, x: int) {
    match e
    case Const(c) => x == c
    case Var(v) => x == dom(v).lo || x == dom(v).hi
    case Neg(a) => FromNegation(Of(a, dom), x)
    case Abs(a) => FromMagnitude(Of(a, dom), x)
    case Not(a) => FromDenial(Of(a, dom), x)
    case Sub(a, b) => FromDifference(Of(a, dom), Of(b, dom), x)
    case Cmp(op, a, b) => FromComparison(op, Of(a, dom), Of(b, dom), x)
    case Iff(a, b) => FromEquivalence(Of(a, dom), Of(b, dom), x)
    case Div(a, b) => FromQuotient(Of(a, dom), Of(b, dom), x)
    case Mod(_, b) => FromRemainder(Of(b, dom), x)
    case Imp(a, b) => FromImplication(Of(a, dom), Of(b, dom), x)
    case IfThenElse(c, t, f) => FromChoice(Of(c, dom), Of(t, dom), Of(f, dom), x)
    case Add(es) => FromSum(AllOf(es, dom), x)
    case Mul(es) => FromProduct(AllOf(es, dom), x)
    case Min(es) => FromLeast(AllOf(es, dom), x)
    case Max(es) => FromGreatest(AllOf(es, dom), x)
    case And(es) => FromAll(AllOf(es, dom), x)
    case Or(es) => FromAny(AllOf(es, dom), x)
  }

  predicate ProperAt(e: Expr, dom: Box) { Bounds(e, dom).Some? ==> Proper(Bounds(e, dom).value) }

  predicate TruthAt(e: Expr, dom: Box) { Bounds(e, dom).Some? ==> IsTruth(Bounds(e, dom).value) }

  ghost predicate ProperList(es: seq<Expr>, dom: Box) {
    BoundsList(es, dom).Some? && AllProper(BoundsList(es, dom).value)
  }

  ghost predicate TruthList(es: seq<Expr>, dom: Box) {
    BoundsList(es, dom).Some? && AllTruth(BoundsList(es, dom).value)
  }

  /** No operand's interval is empty, and where a truth value is expected it is one. */
  ghost predicate OperandsProper(e: Expr, dom: Box) {
    match e
    case Const(_) => true
    case Var(_) => true
    case Neg(a) => ProperAt(a, dom)
    case Abs(a) => ProperAt(a, dom)
    case Not(a) => TruthAt(a, dom)
    case Add(es) => ProperList(es, dom)
    case Mul(es) => ProperList(es, dom)
    case Min(es) => ProperList(es, dom)
    case Max(es) => ProperList(es, dom)
    case And(es) => TruthList(es, dom)
    case Or(es) => TruthList(es, dom)
    case Sub(a, b) => ProperAt(a, dom) && ProperAt(b, dom)
    case Div(a, b) => ProperAt(a, dom) && ProperAt(b, dom)
    case Mod(_, b) => ProperAt(b, dom)
    case Cmp(_, a, b) => ProperAt(a, dom) && ProperAt(b, dom)
    case Imp(a, b) => TruthAt(a, dom) && ProperAt(b, dom)
    case Iff(a, b) => TruthAt(a, dom) && TruthAt(b, dom)
    case IfThenElse(c, t, f) => TruthAt(c, dom) && ProperAt(t, dom) && ProperAt(f, dom)
  }

  // --- folds ------------------------------------------------------------------------------------

  lemma EndsAllIn(bs: seq<Interval>)
    requires AllProper(bs)
    ensures AllIn(Los(bs), bs) && AllIn(His(bs), bs)
  {
  }

  lemma {:induction false} SumOfEnds(box: Interval, bs: seq<Interval>)
    ensures IAddAll(box, bs) == Interval(box.lo + Total(Los(bs)), box.hi + Total(His(bs)))
    decreases |bs|
  {
    if bs != [] {
      SumOfEnds(Interval(box.lo + bs[0].lo, box.hi + bs[0].hi), bs[1..]);
      TotalFirst(Los(bs));
      TotalFirst(His(bs));
      assert Los(bs)[1..] == Los(bs[1..]) && His(bs)[1..] == His(bs[1..]);
    }
  }

  /** `x` is `a` times a product of members. */
  ghost predicate FromEnd(a: int, bs: seq<Interval>, x: int) { exists xs :: AllIn(xs, bs) && x == a * Product(xs) }

  lemma ProductCons(a: int, c: int, bs: seq<Interval>, x: int)
    requires bs != [] && In(c, bs[0]) && FromEnd(a * c, bs[1..], x)
    ensures FromEnd(a, bs, x)
  {
    var xs :| AllIn(xs, bs[1..]) && x == a * c * Product(xs);
    var all := [c] + xs;
    ProductFirst(all);
    assert all[1..] == xs;
    Associate(a, c, Product(xs));
    assert AllIn(all, bs);
  }

  /** Each end of a product of two intervals is an end of one times an end of the other. */
  lemma CornerOf(a: Interval, b: Interval, n: int) returns (x: int, y: int)
    requires IMul(a, b).Some? && (n == IMul(a, b).value.lo || n == IMul(a, b).value.hi)
    ensures (x == a.lo || x == a.hi) && (y == b.lo || y == b.hi) && n == x * y
  {
    if n == a.lo * b.lo { return a.lo, b.lo; }
    if n == a.lo * b.hi { return a.lo, b.hi; }
    if n == a.hi * b.lo { return a.hi, b.lo; }
    return a.hi, b.hi;
  }

  lemma {:induction false} ProductOfEnds(box: Interval, bs: seq<Interval>, x: int) returns (a: int)
    requires AllProper(bs) && IMulAll(box, bs).Some?
    requires x == IMulAll(box, bs).value.lo || x == IMulAll(box, bs).value.hi
    ensures (a == box.lo || a == box.hi) && FromEnd(a, bs, x)
    decreases |bs|
  {
    if bs == [] {
      var none: seq<int> := [];
      assert AllIn(none, bs) && x * Product(none) == x;
      return x;
    }
    var n := ProductOfEnds(IMul(box, bs[0]).value, bs[1..], x);
    var c;
    a, c := CornerOf(box, bs[0], n);
    ProductCons(a, c, bs, x);
  }

  lemma ProductEnds(bs: seq<Interval>)
    requires AllProper(bs) && IMulAll(Interval(1, 1), bs).Some?
    ensures
      var t := IClamp(IMulAll(Interval(1, 1), bs).value);
      FromProduct(bs, t.lo) && FromProduct(bs, t.hi)
  {
    var t := IMulAll(Interval(1, 1), bs).value;
    var a := ProductOfEnds(Interval(1, 1), bs, t.lo);
    var xs :| AllIn(xs, bs) && t.lo == 1 * Product(xs);
    var b := ProductOfEnds(Interval(1, 1), bs, t.hi);
    var ys :| AllIn(ys, bs) && t.hi == 1 * Product(ys);
    assert Clamp(t.lo) == Clamp(Product(xs)) && Clamp(t.hi) == Clamp(Product(ys));
  }

  lemma ListEnds(bs: seq<Interval>)
    requires AllProper(bs)
    ensures
      var t := IClamp(IAddAll(Interval(0, 0), bs));
      FromSum(bs, t.lo) && FromSum(bs, t.hi)
    ensures FromLeast(bs, IMin(bs).lo) && FromLeast(bs, IMin(bs).hi)
    ensures FromGreatest(bs, IMax(bs).lo) && FromGreatest(bs, IMax(bs).hi)
  {
    var (lows, highs) := (Los(bs), His(bs));
    EndsAllIn(bs);
    SumOfEnds(Interval(0, 0), bs);
    MinIsLeast(I64_MAX, lows);
    MinIsLeast(I64_MAX, highs);
    MaxIsGreatest(I64_MIN, lows);
    MaxIsGreatest(I64_MIN, highs);
  }

  predicate AllAre(bs: seq<Interval>, t: Interval) { forall i | 0 <= i < |bs| :: bs[i] == t }

  function AllOfThem(bs: seq<Interval>): Interval {
    if FALSE in bs then FALSE else if AllAre(bs, TRUE) then TRUE else MAYBE
  }

  function AnyOfThem(bs: seq<Interval>): Interval {
    if TRUE in bs then TRUE else if AllAre(bs, FALSE) then FALSE else MAYBE
  }

  lemma AllAreCons(b: Interval, rest: seq<Interval>, t: Interval)
    ensures AllAre([b] + rest, t) <==> b == t && AllAre(rest, t)
  {
    var all := [b] + rest;
    assert forall i | 0 <= i < |rest| :: all[i + 1] == rest[i];
    assert all[0] == b;
  }

  /** A conjunction is certainly false when an operand is, and certainly true when all are. */
  lemma {:induction false} AndDecides(es: seq<Expr>, dom: Box, allTrue: bool)
    requires BoundsList(es, dom).Some?
    ensures
      var t := AllOfThem(BoundsList(es, dom).value);
      AndBounds(es, dom, allTrue) == Some(if t == TRUE && !allTrue then MAYBE else t)
    decreases |es|
  {
    if es != [] {
      var b := Bounds(es[0], dom).value;
      AndDecides(es[1..], dom, allTrue && b == TRUE);
      var rest := BoundsList(es[1..], dom).value;
      assert BoundsList(es, dom).value == [b] + rest;
      AllAreCons(b, rest, TRUE);
    }
  }

  lemma {:induction false} OrDecides(es: seq<Expr>, dom: Box, allFalse: bool)
    requires BoundsList(es, dom).Some?
    ensures
      var t := AnyOfThem(BoundsList(es, dom).value);
      OrBounds(es, dom, allFalse) == Some(if t == FALSE && !allFalse then MAYBE else t)
    decreases |es|
  {
    if es != [] {
      var b := Bounds(es[0], dom).value;
      OrDecides(es[1..], dom, allFalse && b == FALSE);
      var rest := BoundsList(es[1..], dom).value;
      assert BoundsList(es, dom).value == [b] + rest;
      AllAreCons(b, rest, FALSE);
    }
  }

  /** The least operand values are all 1 only if every operand is certain, and the greatest all 0 likewise. */
  lemma LowsHighs(bs: seq<Interval>)
    requires AllTruth(bs)
    ensures (forall y | y in Los(bs) :: y == 0) <==> TRUE !in bs
    ensures (forall y | y in His(bs) :: y != 0) <==> FALSE !in bs
    ensures (forall y | y in Los(bs) :: y != 0) <==> AllAre(bs, TRUE)
    ensures (forall y | y in His(bs) :: y == 0) <==> AllAre(bs, FALSE)
  {
    var (lows, highs) := (Los(bs), His(bs));
    forall i | 0 <= i < |bs|
      ensures lows[i] in lows && highs[i] in highs && bs[i] in bs
      ensures (lows[i] == 0 <==> bs[i] != TRUE) && (highs[i] == 0 <==> bs[i] == FALSE)
    {
      assert IsTruth(bs[i]);
    }
    if forall y | y in lows :: y != 0 {
      forall i | 0 <= i < |bs| ensures bs[i] == TRUE { assert lows[i] in lows; }
    }
    if forall y | y in highs :: y == 0 {
      forall i | 0 <= i < |bs| ensures bs[i] == FALSE { assert highs[i] in highs; }
    }
  }

  lemma JunctionEnds(bs: seq<Interval>)
    requires AllTruth(bs)
    ensures FromAll(bs, AllOfThem(bs).lo) && FromAll(bs, AllOfThem(bs).hi)
    ensures FromAny(bs, AnyOfThem(bs).lo) && FromAny(bs, AnyOfThem(bs).hi)
  {
    var (lows, highs) := (Los(bs), His(bs));
    assert AllProper(bs) by { forall i | 0 <= i < |bs| ensures Proper(bs[i]) { assert IsTruth(bs[i]); } }
    EndsAllIn(bs);
    LowsHighs(bs);
    if FALSE in bs { assert !AllAre(bs, TRUE); }
    if TRUE in bs { assert !AllAre(bs, FALSE); }
    assert AllIn(lows, bs) && AllIn(highs, bs);
  }

  // --- the theorem --------------------------------------------------------------------------------

  /** Both ends of the node's interval are reached. */
  ghost predicate EndsReached(e: Expr, dom: Box) {
    Bounds(e, dom).Some? ==> Reaches(e, dom, Bounds(e, dom).value.lo) && Reaches(e, dom, Bounds(e, dom).value.hi)
  }

  lemma NegationEnds(i: Interval)
    requires Proper(i) && INeg(i).Some?
    ensures FromNegation(i, INeg(i).value.lo) && FromNegation(i, INeg(i).value.hi)
  {
    assert In(i.lo, i) && INeg(i).value.hi == -i.lo;
    assert In(i.hi, i) && INeg(i).value.lo == -i.hi;
  }

  lemma MagnitudeOf(i: Interval, y: int)
    requires In(y, i)
    ensures FromMagnitude(i, Common.Abs(y))
  {
  }

  lemma MagnitudeEnds(i: Interval)
    requires Proper(i) && IAbs(i).Some?
    ensures FromMagnitude(i, IAbs(i).value.lo) && FromMagnitude(i, IAbs(i).value.hi)
  {
    MagnitudeOf(i, i.lo);
    MagnitudeOf(i, i.hi);
    if i.lo <= 0 <= i.hi { MagnitudeOf(i, 0); }
  }

  lemma DenialEnds(i: Interval)
    requires IsTruth(i)
    ensures FromDenial(i, INot(i).lo) && FromDenial(i, INot(i).hi)
  {
    assert In(i.lo, i) && Tells(1 - i.lo, i.lo == 0);
    assert In(i.hi, i) && Tells(1 - i.hi, i.hi == 0);
  }

  lemma DifferenceEnds(i: Interval, j: Interval)
    requires Proper(i) && Proper(j)
    ensures FromDifference(i, j, ISub(i, j).lo) && FromDifference(i, j, ISub(i, j).hi)
  {
    assert In(i.lo, i) && In(i.hi, i) && In(j.lo, j) && In(j.hi, j);
  }

  lemma EquivalenceEnds(i: Interval, j: Interval)
    requires IsTruth(i) && IsTruth(j)
    ensures FromEquivalence(i, j, IIff(i, j).lo) && FromEquivalence(i, j, IIff(i, j).hi)
  {
    assert In(i.lo, i) && In(i.hi, i) && In(j.lo, j) && In(j.hi, j);
    assert Tells(1, i.lo == 0 <==> j.lo == 0) || Tells(0, i.lo == 0 <==> j.lo == 0);
    assert Tells(1, i.lo == 0 <==> j.hi == 0) || Tells(0, i.lo == 0 <==> j.hi == 0);
    assert Tells(1, i.hi == 0 <==> j.lo == 0) || Tells(0, i.hi == 0 <==> j.lo == 0);
  }

  lemma ComparisonEnds(op: Relation, i: Interval, j: Interval)
    requires Proper(i) && Proper(j)
    ensures FromComparison(op, i, j, CompareBounds(op, i, j).lo) && FromComparison(op, i, j, CompareBounds(op, i, j).hi)
  {
    CompareBoundsExact(op, i, j);
    var r := CompareBounds(op, i, j);
    assert forall y, z :: Compare(op, y, z) <==> Related(op, y, z);
    if r != FALSE {
      var y, z :| In(y, i) && In(z, j) && Compare(op, y, z);
      assert Tells(1, Related(op, y, z));
    }
    if r != TRUE {
      var y, z :| In(y, i) && In(z, j) && !Compare(op, y, z);
      assert Tells(0, Related(op, y, z));
    }
  }

  lemma QuotientEnds(i: Interval, j: Interval)
    requires Proper(i) && Proper(j) && DivBounds(i, j).Some?
    ensures FromQuotient(i, j, DivBounds(i, j).value.lo) && FromQuotient(i, j, DivBounds(i, j).value.hi)
  {
    assert In(i.lo, i) && In(i.hi, i) && In(j.lo, j) && In(j.hi, j);
    if !In(0, j) {
      CornersAttained(i, j);
      var y, z :| In(y, i) && In(z, j) && z != 0 && Quot(y, z) == DivBounds(i, j).value.lo;
      QuotTruncates(y, z);
      var u, v :| In(u, i) && In(v, j) && v != 0 && Quot(u, v) == DivBounds(i, j).value.hi;
      QuotTruncates(u, v);
    }
  }

  lemma RemainderEnds(j: Interval)
    requires Proper(j) && IMod(j).Some?
    ensures FromRemainder(j, IMod(j).value.lo) && FromRemainder(j, IMod(j).value.hi)
  {
    assert In(j.lo, j) && In(j.hi, j);
  }

  lemma NodeEndsUnary(a: Expr, dom: Box)
    requires ProperAt(a, dom)
    ensures EndsReached(Neg(a), dom) && EndsReached(Expr.Abs(a), dom)
  {
    if Bounds(Neg(a), dom).Some? { NegationEnds(Bounds(a, dom).value); }
    if Bounds(Expr.Abs(a), dom).Some? { MagnitudeEnds(Bounds(a, dom).value); }
  }

  lemma NodeEndsNot(a: Expr, dom: Box)
    requires TruthAt(a, dom)
    ensures EndsReached(Not(a), dom)
  {
    if Bounds(a, dom).Some? { DenialEnds(Bounds(a, dom).value); }
  }

  lemma NodeEndsSub(a: Expr, b: Expr, dom: Box)
    requires ProperAt(a, dom) && ProperAt(b, dom)
    ensures EndsReached(Sub(a, b), dom)
  {
    if Bounds(Sub(a, b), dom).Some? { DifferenceEnds(Bounds(a, dom).value, Bounds(b, dom).value); }
  }

  lemma NodeEndsCmp(op: Relation, a: Expr, b: Expr, dom: Box)
    requires ProperAt(a, dom) && ProperAt(b, dom)
    ensures EndsReached(Cmp(op, a, b), dom)
  {
    if Bounds(Cmp(op, a, b), dom).Some? { ComparisonEnds(op, Bounds(a, dom).value, Bounds(b, dom).value); }
  }

  lemma NodeEndsIff(a: Expr, b: Expr, dom: Box)
    requires TruthAt(a, dom) && TruthAt(b, dom)
    ensures EndsReached(Iff(a, b), dom)
  {
    if Bounds(Iff(a, b), dom).Some? { EquivalenceEnds(Bounds(a, dom).value, Bounds(b, dom).value); }
  }

  lemma NodeEndsDivision(a: Expr, b: Expr, dom: Box)
    requires ProperAt(b, dom)
    ensures ProperAt(a, dom) ==> EndsReached(Div(a, b), dom)
    ensures EndsReached(Mod(a, b), dom)
  {
    if Bounds(Div(a, b), dom).Some? && ProperAt(a, dom) { QuotientEnds(Bounds(a, dom).value, Bounds(b, dom).value); }
    if Bounds(Mod(a, b), dom).Some? { RemainderEnds(Bounds(b, dom).value); }
  }

  lemma NodeEndsImp(a: Expr, b: Expr, dom: Box)
    requires TruthAt(a, dom) && ProperAt(b, dom)
    ensures EndsReached(Imp(a, b), dom)
  {
  }

  lemma NodeEndsChoice(c: Expr, t: Expr, f: Expr, dom: Box)
    requires TruthAt(c, dom) && ProperAt(t, dom) && ProperAt(f, dom)
    ensures EndsReached(IfThenElse(c, t, f), dom)
  {
  }

  lemma NodeEndsList(es: seq<Expr>, dom: Box)
    requires ProperList(es, dom)
    ensures EndsReached(Add(es), dom) && EndsReached(Mul(es), dom)
    ensures EndsReached(Min(es), dom) && EndsReached(Max(es), dom)
  {
    var bs := BoundsList(es, dom).value;
    ListEnds(bs);
    if IMulAll(Interval(1, 1), bs).Some? { ProductEnds(bs); }
  }

  lemma NodeEndsJunction(es: seq<Expr>, dom: Box)
    requires TruthList(es, dom)
    ensures EndsReached(And(es), dom) && EndsReached(Or(es), dom)
  {
    AndDecides(es, dom, true);
    OrDecides(es, dom, true);
    JunctionEnds(BoundsList(es, dom).value);
  }

  /** No interval is wider than its operands' intervals make it. */
  lemma BoundsSharp(e: Expr, dom: Box)
    requires OperandsProper(e, dom)
    ensures EndsReached(e, dom)
  {
    match e
    case Const(_) =>
    case Var(_) =>
    case Neg(a) => NodeEndsUnary(a, dom);
    case Abs(a) => NodeEndsUnary(a, dom);
    case Not(a) => NodeEndsNot(a, dom);
    case Add(es) => NodeEndsList(es, dom);
    case Mul(es) => NodeEndsList(es, dom);
    case Min(es) => NodeEndsList(es, dom);
    case Max(es) => NodeEndsList(es, dom);
    case And(es) => NodeEndsJunction(es, dom);
    case Or(es) => NodeEndsJunction(es, dom);
    case Sub(a, b) => NodeEndsSub(a, b, dom);
    case Cmp(op, a, b) => NodeEndsCmp(op, a, b, dom);
    case Iff(a, b) => NodeEndsIff(a, b, dom);
    case Div(a, b) => NodeEndsDivision(a, b, dom);
    case Mod(a, b) => NodeEndsDivision(a, b, dom);
    case Imp(a, b) => NodeEndsImp(a, b, dom);
    case IfThenElse(c, t, f) => NodeEndsChoice(c, t, f, dom);
  }
}
