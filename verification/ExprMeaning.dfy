/**
 What the value of an expression is, operator by operator, in plain arithmetic
 (src/expr.rs, `eval`), and how sharp its interval is.
 */
module ExprMeaning {
  import opened Common
  import opened Expressions
  import opened ExprSoundness

  // --- truncated division ----------------------------------------------------------------

  /** `q` is `a / b` rounded toward zero. */
  predicate Truncates(a: int, b: int, q: int) {
    b != 0 && Common.Abs(b * q) <= Common.Abs(a) && Common.Abs(a - b * q) < Common.Abs(b)
  }

  lemma QuotTimesDivisor(a: int, b: int)
    requires b != 0
    ensures
      var p := Common.Abs(b) * (Common.Abs(a) / Common.Abs(b));
      b * Quot(a, b) == if a >= 0 then p else -p
  {
    var q := Common.Abs(a) / Common.Abs(b);
    if b > 0 {
      assert b * (-q) == -(b * q);
    } else {
      assert b * (-q) == (-b) * q && b * q == -((-b) * q);
    }
  }

  lemma RoundedTowardZero(a: int, b: int, q: int, p: int)
    requires b != 0 && 0 <= p <= Common.Abs(a) < p + Common.Abs(b)
    requires b * q == if a >= 0 then p else 0 - p
    ensures Truncates(a, b, q)
    ensures a - b * q != 0 ==> (a - b * q > 0 <==> a > 0)
  {
  }

  lemma QuotPart(m: nat, n: nat)
    requires n > 0
    ensures 0 <= n * (m / n) <= m < n * (m / n) + n
  {
    QuotientBounds(m, n);
    assert m / n >= 0;
  }

  /** Quotients round toward zero, and a remainder other than 0 has the sign of the dividend. */
  lemma QuotTruncates(a: int, b: int)
    requires b != 0
    ensures Truncates(a, b, Quot(a, b))
    ensures a == b * Quot(a, b) + Rem(a, b)
    ensures Rem(a, b) != 0 ==> (Rem(a, b) > 0 <==> a > 0)
  {
    QuotTimesDivisor(a, b);
    QuotPart(Common.Abs(a), Common.Abs(b));
    var q := Quot(a, b);
    RoundedTowardZero(a, b, q, Common.Abs(b) * (Common.Abs(a) / Common.Abs(b)));
    assert Rem(a, b) == a - b * q;
  }

  /** No other number does. */
  lemma TruncatesOnce(a: int, b: int, q: int, r: int)
    requires Truncates(a, b, q) && Truncates(a, b, r)
    ensures q == r
  {
    if q != r {
      var d := b * q - b * r;
      assert d == b * (q - r);
      Apart(b, q - r);
    }
  }

  lemma Apart(b: int, k: int)
    requires b != 0 && k != 0
    ensures Common.Abs(b * k) >= Common.Abs(b)
  {
    var (m, n) := (Common.Abs(b), Common.Abs(k));
    assert m * (n - 1) >= 0;
    assert Common.Abs(b * k) == m * n by {
      if b > 0 && k < 0 { assert b * k == -(m * n); }
      if b < 0 && k > 0 { assert b * k == -(m * n); }
    }
  }

  // --- folds --------------------------------------------------------------------------------

  function Total(xs: seq<int>): int { if xs == [] then 0 else Total(xs[..|xs| - 1]) + xs[|xs| - 1] }

  function Product(xs: seq<int>): int { if xs == [] then 1 else Product(xs[..|xs| - 1]) * xs[|xs| - 1] }

  lemma {:induction false} TotalFirst(xs: seq<int>)
    requires xs != []
    ensures Total(xs) == xs[0] + Total(xs[1..])
  {
    var front := xs[..|xs| - 1];
    if front != [] {
      TotalFirst(front);
      assert front[1..] == xs[1..][..|xs[1..]| - 1];
    }
  }

  lemma {:induction false} ProductFirst(xs: seq<int>)
    requires xs != []
    ensures Product(xs) == xs[0] * Product(xs[1..])
  {
    var front := xs[..|xs| - 1];
    if front != [] {
      ProductFirst(front);
      assert front[1..] == xs[1..][..|xs[1..]| - 1];
      assert xs[0] * Product(front[1..]) * xs[|xs| - 1] == xs[0] * (Product(front[1..]) * xs[|xs| - 1]);
    }
  }

  lemma TotalOfPrefix(xs: seq<int>, k: nat)
    requires 1 <= k <= |xs|
    ensures Total(xs[..k]) == xs[0] + Total(xs[1..][..k - 1])
  {
    TotalFirst(xs[..k]);
    assert xs[..k][1..] == xs[1..][..k - 1];
  }

  /** Every partial sum fits 64 bits. */
  ghost predicate PartialsFit(acc: int, xs: seq<int>) {
    forall k {:trigger xs[..k]} | 1 <= k <= |xs| :: FitsI64(acc + Total(xs[..k]))
  }

  lemma PartialsFirst(acc: int, xs: seq<int>)
    requires xs != []
    ensures PartialsFit(acc, xs) <==> FitsI64(acc + xs[0]) && PartialsFit(acc + xs[0], xs[1..])
  {
    TotalOfPrefix(xs, 1);
    if PartialsFit(acc, xs) {
      assert FitsI64(acc + Total(xs[..1]));
      forall k | 1 <= k <= |xs[1..]| ensures FitsI64(acc + xs[0] + Total(xs[1..][..k])) {
        TotalOfPrefix(xs, k + 1);
        assert FitsI64(acc + Total(xs[..k + 1]));
      }
    }
    if FitsI64(acc + xs[0]) && PartialsFit(acc + xs[0], xs[1..]) {
      forall k | 1 <= k <= |xs| ensures FitsI64(acc + Total(xs[..k])) {
        TotalOfPrefix(xs, k);
        if k > 1 { assert FitsI64(acc + xs[0] + Total(xs[1..][..k - 1])); }
      }
    }
  }

  /** The checked sum is the sum, and it overflows exactly when a partial sum does not fit. */
  lemma {:induction false} SumIsTotal(acc: int, xs: seq<int>)
    ensures SumFrom(acc, xs).Value? ==> SumFrom(acc, xs).x == acc + Total(xs)
    ensures SumFrom(acc, xs).Value? <==> PartialsFit(acc, xs)
    decreases |xs|
  {
    if xs != [] {
      TotalFirst(xs);
      PartialsFirst(acc, xs);
      SumIsTotal(acc + xs[0], xs[1..]);
    }
  }

  lemma ProductOfPrefix(xs: seq<int>, k: nat)
    requires 1 <= k <= |xs|
    ensures Product(xs[..k]) == xs[0] * Product(xs[1..][..k - 1])
  {
    ProductFirst(xs[..k]);
    assert xs[..k][1..] == xs[1..][..k - 1];
  }

  /** Every partial product fits 64 bits. */
  ghost predicate PartialProductsFit(acc: int, xs: seq<int>) {
    forall k {:trigger xs[..k]} | 1 <= k <= |xs| :: FitsI64(acc * Product(xs[..k]))
  }

  lemma Associate(a: int, b: int, c: int)
    ensures a * b * c == a * (b * c)
  {
  }

  lemma PartialProductsFirst(acc: int, xs: seq<int>)
    requires xs != []
    ensures PartialProductsFit(acc, xs) <==> FitsI64(acc * xs[0]) && PartialProductsFit(acc * xs[0], xs[1..])
  {
    ProductOfPrefix(xs, 1);
    if PartialProductsFit(acc, xs) {
      assert FitsI64(acc * Product(xs[..1]));
      forall k | 1 <= k <= |xs[1..]| ensures FitsI64(acc * xs[0] * Product(xs[1..][..k])) {
        ProductOfPrefix(xs, k + 1);
        Associate(acc, xs[0], Product(xs[1..][..k]));
        assert FitsI64(acc * Product(xs[..k + 1]));
      }
    }
    if FitsI64(acc * xs[0]) && PartialProductsFit(acc * xs[0], xs[1..]) {
      forall k | 1 <= k <= |xs| ensures FitsI64(acc * Product(xs[..k])) {
        ProductOfPrefix(xs, k);
        Associate(acc, xs[0], Product(xs[1..][..k - 1]));
        if k > 1 { assert FitsI64(acc * xs[0] * Product(xs[1..][..k - 1])); }
      }
    }
  }

  /** The checked product is the product, and it overflows exactly when a partial product does not fit. */
  lemma {:induction false} ProductIsProduct(acc: int, xs: seq<int>)
    ensures ProductFrom(acc, xs).Value? ==> ProductFrom(acc, xs).x == acc * Product(xs)
    ensures ProductFrom(acc, xs).Value? <==> PartialProductsFit(acc, xs)
    decreases |xs|
  {
    if xs != [] {
      ProductFirst(xs);
      PartialProductsFirst(acc, xs);
      ProductIsProduct(acc * xs[0], xs[1..]);
      Associate(acc, xs[0], Product(xs[1..]));
    }
  }

  /** `m` is the least of `acc` and the list. */
  predicate IsLeast(m: int, acc: int, xs: seq<int>) {
    (m == acc || m in xs) && m <= acc && forall x | x in xs :: m <= x
  }

  predicate IsGreatest(m: int, acc: int, xs: seq<int>) {
    (m == acc || m in xs) && m >= acc && forall x | x in xs :: m >= x
  }

  lemma {:induction false} MinIsLeast(acc: int, xs: seq<int>)
    ensures IsLeast(MinFrom(acc, xs), acc, xs)
    decreases |xs|
  {
    if xs != [] {
      MinIsLeast(Common.Min(acc, xs[0]), xs[1..]);
      assert xs == [xs[0]] + xs[1..];
    }
  }

  lemma {:induction false} MaxIsGreatest(acc: int, xs: seq<int>)
    ensures IsGreatest(MaxFrom(acc, xs), acc, xs)
    decreases |xs|
  {
    if xs != [] {
      MaxIsGreatest(Common.Max(acc, xs[0]), xs[1..]);
      assert xs == [xs[0]] + xs[1..];
    }
  }

  // --- the value of a node ----------------------------------------------------------------------

  /** The operands evaluate, in order, to `xs`. */
  ghost predicate Operands(es: seq<Expr>, val: Valuation, xs: seq<int>) {
    |xs| == |es| && forall i | 0 <= i < |es| :: Eval(es[i], val) == Value(xs[i])
  }

  lemma {:induction false} ListIsOperands(es: seq<Expr>, val: Valuation)
    ensures EvalList(es, val).Values? ==> Operands(es, val, EvalList(es, val).xs)
    ensures EvalList(es, val).Failed? ==> exists i :: 0 <= i < |es| && Eval(es[i], val) == EvalList(es, val).why
  {
    if es == [] { return; }
    ListIsOperands(es[1..], val);
    if Eval(es[0], val).Value? && EvalList(es[1..], val).Failed? {
      var i :| 0 <= i < |es[1..]| && Eval(es[1..][i], val) == EvalList(es[1..], val).why;
      assert Eval(es[i + 1], val) == EvalList(es, val).why;
    }
  }

  /** `x` is a truth value, 1 exactly when the condition holds. */
  predicate Tells(x: int, condition: bool) { x == if condition then 1 else 0 }

  predicate Related(op: Relation, y: int, z: int) {
    match op
    case Eq => y - z == 0
    case Ne => y - z != 0
    case Lt => z - y > 0
    case Le => z - y >= 0
    case Gt => y - z > 0
    case Ge => y - z >= 0
  }

  /** `x` is what the operator yields for the values of its operands. */
  ghost predicate Yields(e: Expr, val: Valuation, x: int) {
    match e
    case Const(c) => x == c
    case Var(v) => x == val(v)
    case Neg(a) => Eval(a, val) == Value(-x)
    case Abs(a) => x >= 0 && (Eval(a, val) == Value(x) || Eval(a, val) == Value(-x))
    case Sub(a, b) => exists y :: Eval(b, val) == Value(y) && Eval(a, val) == Value(x + y)
    case Add(es) => exists xs :: Operands(es, val, xs) && x == Total(xs)
    case Mul(es) => exists xs :: Operands(es, val, xs) && x == Product(xs)
    case Min(es) => exists xs :: Operands(es, val, xs) && IsLeast(x, I64_MAX, xs)
    case Max(es) => exists xs :: Operands(es, val, xs) && IsGreatest(x, I64_MIN, xs)
    case And(es) => exists xs :: Operands(es, val, xs) && Tells(x, forall y | y in xs :: y != 0)
    case Or(es) => exists xs :: Operands(es, val, xs) && Tells(x, !forall y | y in xs :: y == 0)
    case Div(a, b) => exists y, z :: Eval(a, val) == Value(y) && Eval(b, val) == Value(z) && Truncates(y, z, x)
    case Mod(a, b) =>
      exists y, z, q ::
        && Eval(a, val) == Value(y) && Eval(b, val) == Value(z) && Truncates(y, z, q) && y == z * q + x
        && (x == 0 || (x > 0 <==> y > 0))
    case Cmp(op, a, b) =>
      exists y, z :: Eval(a, val) == Value(y) && Eval(b, val) == Value(z) && Tells(x, Related(op, y, z))
    case Not(a) => exists y :: Eval(a, val) == Value(y) && Tells(x, y == 0)
    case Imp(a, b) =>
      || (Eval(a, val) == Value(0) && x == 1)
      || (exists y, z :: Eval(a, val) == Value(y) && y != 0 && Eval(b, val) == Value(z) && Tells(x, z != 0))
    case Iff(a, b) =>
      exists y, z :: Eval(a, val) == Value(y) && Eval(b, val) == Value(z) && Tells(x, y == 0 <==> z == 0)
    case IfThenElse(c, t, f) =>
      exists y :: Eval(c, val) == Value(y) && Eval(if y != 0 then t else f, val) == Value(x)
  }

  lemma ListYields(es: seq<Expr>, val: Valuation, x: int)
    ensures Eval(Add(es), val) == Value(x) ==> Yields(Add(es), val, x)
    ensures Eval(Mul(es), val) == Value(x) ==> Yields(Mul(es), val, x)
    ensures Eval(Min(es), val) == Value(x) ==> Yields(Min(es), val, x)
    ensures Eval(Max(es), val) == Value(x) ==> Yields(Max(es), val, x)
  {
    ListIsOperands(es, val);
    if EvalList(es, val).Values? {
      var xs := EvalList(es, val).xs;
      assert Operands(es, val, xs);
      SumIsTotal(0, xs);
      ProductIsProduct(1, xs);
      MinIsLeast(I64_MAX, xs);
      MaxIsGreatest(I64_MIN, xs);
    }
  }

  lemma JunctionYields(es: seq<Expr>, val: Valuation, x: int)
    ensures Eval(And(es), val) == Value(x) ==> Yields(And(es), val, x)
    ensures Eval(Or(es), val) == Value(x) ==> Yields(Or(es), val, x)
  {
    ListIsOperands(es, val);
    if EvalList(es, val).Values? {
      var xs := EvalList(es, val).xs;
      assert Operands(es, val, xs);
      if AnyTrue(xs) {
        var i :| 0 <= i < |xs| && xs[i] != 0;
        assert xs[i] in xs;
      }
      assert !AnyTrue(xs) ==> forall i | 0 <= i < |xs| :: xs[i] == 0;
    }
  }

  lemma DivModYields(a: Expr, b: Expr, val: Valuation, x: int)
    ensures Eval(Div(a, b), val) == Value(x) ==> Yields(Div(a, b), val, x)
    ensures Eval(Mod(a, b), val) == Value(x) ==> Yields(Mod(a, b), val, x)
  {
    if Eval(Div(a, b), val) == Value(x) || Eval(Mod(a, b), val) == Value(x) {
      QuotTruncates(Eval(a, val).x, Eval(b, val).x);
    }
  }

  lemma UnaryYields(a: Expr, val: Valuation, x: int)
    ensures Eval(Neg(a), val) == Value(x) ==> Yields(Neg(a), val, x)
    ensures Eval(Expr.Abs(a), val) == Value(x) ==> Yields(Expr.Abs(a), val, x)
    ensures Eval(Not(a), val) == Value(x) ==> Yields(Not(a), val, x)
  {
  }

  lemma SubYields(a: Expr, b: Expr, val: Valuation, x: int)
    requires Eval(Sub(a, b), val) == Value(x)
    ensures Yields(Sub(a, b), val, x)
  {
    var y := Eval(b, val).x;
    assert Eval(b, val) == Value(y) && Eval(a, val) == Value(x + y);
  }

  lemma CmpYields(op: Relation, a: Expr, b: Expr, val: Valuation, x: int)
    requires Eval(Cmp(op, a, b), val) == Value(x)
    ensures Yields(Cmp(op, a, b), val, x)
  {
    var y, z := Eval(a, val).x, Eval(b, val).x;
    assert Eval(a, val) == Value(y) && Eval(b, val) == Value(z) && Tells(x, Related(op, y, z));
  }

  lemma IffYields(a: Expr, b: Expr, val: Valuation, x: int)
    requires Eval(Iff(a, b), val) == Value(x)
    ensures Yields(Iff(a, b), val, x)
  {
    var y, z := Eval(a, val).x, Eval(b, val).x;
    assert Eval(a, val) == Value(y) && Eval(b, val) == Value(z) && Tells(x, y == 0 <==> z == 0);
  }

  lemma BranchYields(a: Expr, b: Expr, c: Expr, val: Valuation, x: int)
    ensures Eval(Imp(a, b), val) == Value(x) ==> Yields(Imp(a, b), val, x)
    ensures Eval(IfThenElse(a, b, c), val) == Value(x) ==> Yields(IfThenElse(a, b, c), val, x)
  {
    if Eval(a, val).Value? { assert Eval(a, val) == Value(Eval(a, val).x); }
    if Eval(b, val).Value? { assert Eval(b, val) == Value(Eval(b, val).x); }
  }

  /** Every value evaluation computes is the one the operator yields. */
  lemma EvalYields(e: Expr, val: Valuation, x: int)
    requires Eval(e, val) == Value(x)
    ensures Yields(e, val, x)
  {
    match e
    case Const(_) =>
    case Var(_) =>
    case Neg(a) => UnaryYields(a, val, x);
    case Abs(a) => UnaryYields(a, val, x);
    case Not(a) => UnaryYields(a, val, x);
    case Sub(a, b) => SubYields(a, b, val, x);
    case Cmp(op, a, b) => CmpYields(op, a, b, val, x);
    case Iff(a, b) => IffYields(a, b, val, x);
    case Imp(a, b) => BranchYields(a, b, b, val, x);
    case IfThenElse(c, t, f) => BranchYields(c, t, f, val, x);
    case Add(es) => ListYields(es, val, x);
    case Mul(es) => ListYields(es, val, x);
    case Min(es) => ListYields(es, val, x);
    case Max(es) => ListYields(es, val, x);
    case And(es) => JunctionYields(es, val, x);
    case Or(es) => JunctionYields(es, val, x);
    case Div(a, b) => DivModYields(a, b, val, x);
    case Mod(a, b) => DivModYields(a, b, val, x);
  }

  /** One of the operands has the outcome. */
  ghost predicate OperandFails(es: seq<Expr>, val: Valuation, o: Outcome) {
    exists i :: 0 <= i < |es| && Eval(es[i], val) == o
  }

  /**
   Why a node has no value: an operand it needs has none, its divisor is 0, or
   its exact result, for a sum or a product a partial one, does not fit 64 bits.
   */
  ghost predicate Blocked(e: Expr, val: Valuation, o: Outcome) {
    match e
    case Const(_) => false
    case Var(_) => false
    case Neg(a) => Eval(a, val) == o || (o.Overflow? && exists y :: Eval(a, val) == Value(y) && !FitsI64(-y))
    case Abs(a) => Eval(a, val) == o || (o.Overflow? && exists y :: Eval(a, val) == Value(y) && !FitsI64(Common.Abs(y)))
    case Sub(a, b) =>
      || Eval(a, val) == o || Eval(b, val) == o
      || (o.Overflow? && exists y, z :: Eval(a, val) == Value(y) && Eval(b, val) == Value(z) && !FitsI64(y - z))
    case Add(es) =>
      OperandFails(es, val, o) || (o.Overflow? && exists xs :: Operands(es, val, xs) && !PartialsFit(0, xs))
    case Mul(es) =>
      OperandFails(es, val, o) || (o.Overflow? && exists xs :: Operands(es, val, xs) && !PartialProductsFit(1, xs))
    case Div(a, b) => DivisionBlocked(a, b, val, o)
    case Mod(a, b) => DivisionBlocked(a, b, val, o)
    case Min(es) => OperandFails(es, val, o)
    case Max(es) => OperandFails(es, val, o)
    case And(es) => OperandFails(es, val, o)
    case Or(es) => OperandFails(es, val, o)
    case Cmp(_, a, b) => Eval(a, val) == o || Eval(b, val) == o
    case Iff(a, b) => Eval(a, val) == o || Eval(b, val) == o
    case Not(a) => Eval(a, val) == o
    case Imp(a, b) => Eval(a, val) == o || (Eval(a, val) != Value(0) && Eval(b, val) == o)
    case IfThenElse(c, t, f) =>
      Eval(c, val) == o || (exists y :: Eval(c, val) == Value(y) && Eval(if y != 0 then t else f, val) == o)
  }

  ghost predicate DivisionBlocked(a: Expr, b: Expr, val: Valuation, o: Outcome) {
    || Eval(b, val) == o || (Eval(a, val) == o && Eval(b, val) != Value(0))
    || (o.Undefined? && Eval(b, val) == Value(0))
    || (o.Overflow? && exists y, z, q ::
          Eval(a, val) == Value(y) && Eval(b, val) == Value(z) && Truncates(y, z, q) && !FitsI64(q))
  }

  lemma DivisionFails(a: Expr, b: Expr, val: Valuation)
    ensures Eval(Div(a, b), val).Value? || Blocked(Div(a, b), val, Eval(Div(a, b), val))
    ensures Eval(Mod(a, b), val).Value? || Blocked(Mod(a, b), val, Eval(Mod(a, b), val))
  {
    if Eval(a, val).Value? && Eval(b, val).Value? && Eval(b, val).x != 0 {
      QuotTruncates(Eval(a, val).x, Eval(b, val).x);
    }
  }

  lemma FoldFails(es: seq<Expr>, val: Valuation)
    ensures Eval(Add(es), val).Value? || Blocked(Add(es), val, Eval(Add(es), val))
    ensures Eval(Mul(es), val).Value? || Blocked(Mul(es), val, Eval(Mul(es), val))
  {
    ListIsOperands(es, val);
    if EvalList(es, val).Values? {
      SumIsTotal(0, EvalList(es, val).xs);
      ProductIsProduct(1, EvalList(es, val).xs);
    }
  }

  /** Evaluation fails only for a reason. */
  lemma EvalFails(e: Expr, val: Valuation)
    requires !Eval(e, val).Value?
    ensures Blocked(e, val, Eval(e, val))
  {
    match e
    case Add(es) => FoldFails(es, val);
    case Mul(es) => FoldFails(es, val);
    case Min(es) => ListIsOperands(es, val);
    case Max(es) => ListIsOperands(es, val);
    case And(es) => ListIsOperands(es, val);
    case Or(es) => ListIsOperands(es, val);
    case Div(a, b) => DivisionFails(a, b, val);
    case Mod(a, b) => DivisionFails(a, b, val);
    case _ =>
  }

  /** `a -> b` is `!a or b` wherever both sides have values. */
  lemma ImpIsOr(a: Expr, b: Expr, val: Valuation)
    requires Eval(a, val).Value? && Eval(b, val).Value?
    ensures Eval(Imp(a, b), val) == Eval(Or([Not(a), b]), val)
  {
    var es := [Not(a), b];
    ListIsOperands(es, val);
    assert es[1..] == [b] && [b][1..] == [];
    var xs := EvalList(es, val).xs;
    assert Eval(es[0], val) == Value(xs[0]) && Eval(es[1], val) == Value(xs[1]);
  }

  /** For machine values the least and the greatest operand are operands. */
  lemma ExtremeIsOperand(es: seq<Expr>, val: Valuation, xs: seq<int>)
    requires Operands(es, val, xs) && xs != [] && forall x | x in xs :: FitsI64(x)
    requires Eval(Min(es), val).Value? && Eval(Max(es), val).Value?
    ensures Eval(Min(es), val).x in xs && forall x | x in xs :: Eval(Min(es), val).x <= x
    ensures Eval(Max(es), val).x in xs && forall x | x in xs :: x <= Eval(Max(es), val).x
  {
    ListIsOperands(es, val);
    assert EvalList(es, val).xs == xs;
    MinIsLeast(I64_MAX, xs);
    MaxIsGreatest(I64_MIN, xs);
    assert xs[0] in xs;
  }
}
