/** Affine normal forms of expressions and the ranged row of a comparison (src/expr.rs). */
module Affine {
  import opened Common
  import opened Expressions

  type Terms = map<VarId, int>

  datatype Form = Form(constant: int, terms: Terms)

  function Coef(terms: Terms, v: VarId): int { if v in terms then terms[v] else 0 }

  /** The weighted sum of the variables below `n`. */
  function Weighted(terms: Terms, val: Valuation, n: nat): int {
    if n == 0 then 0 else Weighted(terms, val, n - 1) + Coef(terms, n - 1) * val(n - 1)
  }

  /** What a form means under an assignment. */
  function Meaning(f: Form, val: Valuation, n: nat): int { f.constant + Weighted(f.terms, val, n) }

  /** No zero coefficient, and only variables below `n`. */
  ghost predicate Normal(terms: Terms, n: nat) { forall v | v in terms :: terms[v] != 0 && v < n }

  // --- checked operations -----------------------------------------------------------------

  /** Pointwise `f + scale * g` over the keys `ks` of `g`, without zero coefficients. */
  function Merge(f: Terms, g: Terms, scale: int, ks: set<VarId>): Terms {
    map v | v in f.Keys + ks && (if v in ks then Coef(f, v) + scale * Coef(g, v) else Coef(f, v)) != 0 ::
      if v in ks then Coef(f, v) + scale * Coef(g, v) else Coef(f, v)
  }

  predicate MergeFits(f: Terms, g: Terms, scale: int) {
    forall v | v in g :: FitsI128(scale * g[v]) && FitsI128(Coef(f, v) + scale * g[v])
  }

  function AddScaled(f: Form, g: Form, scale: int): Option<Form> {
    if FitsI128(scale * g.constant) && FitsI128(f.constant + scale * g.constant) && MergeFits(f.terms, g.terms, scale)
    then Some(Form(f.constant + scale * g.constant, Merge(f.terms, g.terms, scale, g.terms.Keys)))
    else None
  }

  function Scale(f: Form, scale: int): Option<Form> {
    if !FitsI128(f.constant * scale) then None
    else if scale == 0 then Some(Form(0, map[]))
    else if forall v | v in f.terms :: FitsI128(f.terms[v] * scale) then
      Some(Form(f.constant * scale, map v | v in f.terms :: f.terms[v] * scale))
    else None
  }

  /** A product stays affine only when one factor is constant. */
  function Multiply(f: Form, g: Form): Option<Form> {
    if g.terms == map[] then Scale(f, g.constant)
    else if f.terms == map[] then Scale(g, f.constant)
    else None
  }

  /** What one more variable of `g` does to the merged terms. */
  lemma MergeStep(f: Terms, g: Terms, scale: int, done: set<VarId>, v: VarId)
    requires v in g && v !in done && done <= g.Keys && forall w | w in f :: f[w] != 0
    ensures
      var m, c := Merge(f, g, scale, done), Coef(f, v) + scale * g[v];
      Coef(m, v) == Coef(f, v) && Merge(f, g, scale, done + {v}) == if c == 0 then m - {v} else m[v := c]
  {
  }

  /** The in-place loop of `checked_add_scaled`. */
  method CheckedAddScaled(f: Form, g: Form, scale: int) returns (r: Option<Form>)
    requires forall v | v in f.terms :: f.terms[v] != 0
    ensures r == AddScaled(f, g, scale)
  {
    if !FitsI128(scale * g.constant) || !FitsI128(f.constant + scale * g.constant) { return None; }
    var terms := f.terms;
    var pending := g.terms.Keys;
    assert Merge(f.terms, g.terms, scale, {}) == f.terms;
    while pending != {}
      invariant pending <= g.terms.Keys
      invariant terms == Merge(f.terms, g.terms, scale, g.terms.Keys - pending)
      invariant forall v | v in g.terms.Keys - pending ::
          FitsI128(scale * g.terms[v]) && FitsI128(Coef(f.terms, v) + scale * g.terms[v])
      decreases pending
    {
      var v :| v in pending;
      var scaled := g.terms[v] * scale;
      if !FitsI128(scaled) { return None; }
      MergeStep(f.terms, g.terms, scale, g.terms.Keys - pending, v);
      assert g.terms.Keys - pending + {v} == g.terms.Keys - (pending - {v});
      var combined := Coef(terms, v) + scaled;
      if !FitsI128(combined) { return None; }
      if combined == 0 { terms := terms - {v}; } else { terms := terms[v := combined]; }
      pending := pending - {v};
    }
    assert g.terms.Keys - {} == g.terms.Keys;
    return Some(Form(f.constant + scale * g.constant, terms));
  }

  // --- translation --------------------------------------------------------------------------

  function FromSum(acc: Form, es: seq<Expr>): Option<Form>
    decreases es, 0
  {
    if es == [] then Some(acc)
    else
      match FromExpr(es[0])
      case None => None
      case Some(f) =>
        match AddScaled(acc, f, 1)
        case None => None
        case Some(next) => FromSum(next, es[1..])
  }

  function FromProduct(acc: Form, es: seq<Expr>): Option<Form>
    decreases es, 0
  {
    if es == [] then Some(acc)
    else
      match FromExpr(es[0])
      case None => None
      case Some(f) =>
        match Multiply(acc, f)
        case None => None
        case Some(next) => FromProduct(next, es[1..])
  }

  function FromExpr(e: Expr): Option<Form>
    decreases e, 1
  {
    match e
    case Const(c) => Some(Form(c, map[]))
    case Var(v) => Some(Form(0, map[v := 1]))
    case Neg(a) => (match FromExpr(a) case None => None case Some(f) => Scale(f, -1))
    case Add(es) => FromSum(Form(0, map[]), es)
    case Sub(a, b) =>
      (match (FromExpr(a), FromExpr(b))
       case (Some(f), Some(g)) => AddScaled(f, g, -1)
       case _ => None)
    case Mul(es) => FromProduct(Form(1, map[]), es)
    case _ => None
  }

  /** Every variable of `e` is below `n`. */
  predicate VarsBelow(e: Expr, n: nat)
    decreases e, 1
  {
    match e
    case Const(_) => true
    case Var(v) => v < n
    case Neg(a) => VarsBelow(a, n)
    case Abs(a) => VarsBelow(a, n)
    case Not(a) => VarsBelow(a, n)
    case Add(es) => AllVarsBelow(es, n)
    case Mul(es) => AllVarsBelow(es, n)
    case Min(es) => AllVarsBelow(es, n)
    case Max(es) => AllVarsBelow(es, n)
    case And(es) => AllVarsBelow(es, n)
    case Or(es) => AllVarsBelow(es, n)
    case Sub(a, b) => VarsBelow(a, n) && VarsBelow(b, n)
    case Div(a, b) => VarsBelow(a, n) && VarsBelow(b, n)
    case Mod(a, b) => VarsBelow(a, n) && VarsBelow(b, n)
    case Cmp(_, a, b) => VarsBelow(a, n) && VarsBelow(b, n)
    case Imp(a, b) => VarsBelow(a, n) && VarsBelow(b, n)
    case Iff(a, b) => VarsBelow(a, n) && VarsBelow(b, n)
    case IfThenElse(c, t, f) => VarsBelow(c, n) && VarsBelow(t, n) && VarsBelow(f, n)
  }

  predicate AllVarsBelow(es: seq<Expr>, n: nat)
    decreases es, 0
  {
    es == [] || (VarsBelow(es[0], n) && AllVarsBelow(es[1..], n))
  }

  // --- what the operations mean --------------------------------------------------------------

  lemma {:induction false} WeightedMerge(f: Terms, g: Terms, scale: int, val: Valuation, n: nat)
    ensures Weighted(Merge(f, g, scale, g.Keys), val, n) == Weighted(f, val, n) + scale * Weighted(g, val, n)
  {
    if n > 0 {
      WeightedMerge(f, g, scale, val, n - 1);
      var v := n - 1;
      assert Coef(Merge(f, g, scale, g.Keys), v) == Coef(f, v) + scale * Coef(g, v);
      Distribute(Coef(f, v), scale, Coef(g, v), val(v), Weighted(g, val, n - 1));
    }
  }

  lemma Distribute(a: int, s: int, b: int, x: int, w: int)
    ensures (a + s * b) * x == a * x + s * (b * x)
    ensures s * (w + b * x) == s * w + s * (b * x)
  {
    assert (s * b) * x == s * (b * x);
  }

  lemma Spread(s: int, c: int, w: int)
    ensures s * (c + w) == s * c + s * w
  {
  }

  lemma AddScaledMeans(f: Form, g: Form, scale: int, val: Valuation, n: nat)
    requires AddScaled(f, g, scale).Some? && Normal(f.terms, n) && Normal(g.terms, n)
    ensures Normal(AddScaled(f, g, scale).value.terms, n)
    ensures Meaning(AddScaled(f, g, scale).value, val, n) == Meaning(f, val, n) + scale * Meaning(g, val, n)
  {
    WeightedMerge(f.terms, g.terms, scale, val, n);
    Spread(scale, g.constant, Weighted(g.terms, val, n));
  }

  lemma {:induction false} WeightedScale(f: Terms, scale: int, val: Valuation, n: nat)
    ensures Weighted(map v | v in f :: f[v] * scale, val, n) == Weighted(f, val, n) * scale
  {
    if n > 0 {
      WeightedScale(f, scale, val, n - 1);
      var scaled := map v | v in f :: f[v] * scale;
      assert Coef(scaled, n - 1) == Coef(f, n - 1) * scale;
      Distribute(0, scale, Coef(f, n - 1), val(n - 1), Weighted(f, val, n - 1));
    }
  }

  lemma {:induction false} WeightedEmpty(val: Valuation, n: nat)
    ensures Weighted(map[], val, n) == 0
  {
    if n > 0 { WeightedEmpty(val, n - 1); }
  }

  lemma ScaleMeans(f: Form, scale: int, val: Valuation, n: nat)
    requires Scale(f, scale).Some? && Normal(f.terms, n)
    ensures Normal(Scale(f, scale).value.terms, n)
    ensures Meaning(Scale(f, scale).value, val, n) == Meaning(f, val, n) * scale
  {
    WeightedScale(f.terms, scale, val, n);
    WeightedEmpty(val, n);
    assert Meaning(f, val, n) * scale == f.constant * scale + Weighted(f.terms, val, n) * scale;
    if scale != 0 {
      forall v | v in f.terms ensures f.terms[v] * scale != 0 { NonZeroProduct(f.terms[v], scale); }
    }
  }

  lemma NonZeroProduct(a: int, b: int)
    requires a != 0 && b != 0
    ensures a * b != 0
  {
  }

  lemma MultiplyMeans(f: Form, g: Form, val: Valuation, n: nat)
    requires Multiply(f, g).Some? && Normal(f.terms, n) && Normal(g.terms, n)
    ensures Normal(Multiply(f, g).value.terms, n)
    ensures Meaning(Multiply(f, g).value, val, n) == Meaning(f, val, n) * Meaning(g, val, n)
  {
    WeightedEmpty(val, n);
    if g.terms == map[] { ScaleMeans(f, g.constant, val, n); }
    else { ScaleMeans(g, f.constant, val, n); }
  }

  lemma {:induction false} WeightedVar(v: VarId, val: Valuation, n: nat)
    ensures Weighted(map[v := 1], val, n) == if v < n then val(v) else 0
  {
    if n > 0 { WeightedVar(v, val, n - 1); }
  }

  // --- the theorem -----------------------------------------------------------------------------

  /**
   A form has no zero coefficients, and its constant plus weighted sum is the
   value of the expression wherever the expression has one.
   */
  ghost predicate Translates(f: Form, e: Expr, val: Valuation, n: nat) {
    && Normal(f.terms, n)
    && !Eval(e, val).Undefined?
    && (Eval(e, val).Value? ==> Eval(e, val).x == Meaning(f, val, n))
  }

  /** The same for an operand list that is about to be folded onto an accumulated value `x`. */
  ghost predicate SumTranslates(f: Form, x: int, es: seq<Expr>, val: Valuation, n: nat) {
    var list := EvalList(es, val);
    && Normal(f.terms, n)
    && (list.Failed? ==> list.why == Overflow)
    && (list.Values? && SumFrom(x, list.xs).Value? ==> SumFrom(x, list.xs).x == Meaning(f, val, n))
  }

  ghost predicate ProductTranslates(f: Form, x: int, es: seq<Expr>, val: Valuation, n: nat) {
    var list := EvalList(es, val);
    && Normal(f.terms, n)
    && (list.Failed? ==> list.why == Overflow)
    && (list.Values? && ProductFrom(x, list.xs).Value? ==> ProductFrom(x, list.xs).x == Meaning(f, val, n))
  }

  lemma LeafMeans(c: int, v: VarId, val: Valuation, n: nat)
    requires v < n
    ensures Translates(Form(c, map[]), Const(c), val, n) && Translates(Form(0, map[v := 1]), Var(v), val, n)
  {
    WeightedEmpty(val, n);
    WeightedVar(v, val, n);
  }

  lemma NegMeans(a: Expr, f: Form, val: Valuation, n: nat)
    requires Translates(f, a, val, n) && Scale(f, -1).Some?
    ensures Translates(Scale(f, -1).value, Neg(a), val, n)
  {
    ScaleMeans(f, -1, val, n);
  }

  lemma SubMeans(a: Expr, b: Expr, f: Form, g: Form, val: Valuation, n: nat)
    requires Translates(f, a, val, n) && Translates(g, b, val, n) && AddScaled(f, g, -1).Some?
    ensures Translates(AddScaled(f, g, -1).value, Sub(a, b), val, n)
  {
    AddScaledMeans(f, g, -1, val, n);
  }

  lemma SumMeans(es: seq<Expr>, f: Form, val: Valuation, n: nat)
    requires SumTranslates(f, 0, es, val, n)
    ensures Translates(f, Add(es), val, n)
  {
  }

  lemma ProductMeans(es: seq<Expr>, f: Form, val: Valuation, n: nat)
    requires ProductTranslates(f, 1, es, val, n)
    ensures Translates(f, Mul(es), val, n)
  {
  }

  /** What one more operand adds to a list. */
  lemma ListCons(es: seq<Expr>, f: Form, val: Valuation, n: nat)
    requires es != [] && Translates(f, es[0], val, n)
    ensures
      var list, rest := EvalList(es, val), EvalList(es[1..], val);
      && (list.Values? ==>
          rest.Values? && |list.xs| == |es| && list.xs[0] == Meaning(f, val, n) && list.xs[1..] == rest.xs)
      && (list.Failed? ==> list.why == Overflow || (rest.Failed? && list.why == rest.why))
  {
  }

  lemma SumCons(r: Form, f: Form, x: int, es: seq<Expr>, val: Valuation, n: nat)
    requires es != [] && Translates(f, es[0], val, n) && SumTranslates(r, x + Meaning(f, val, n), es[1..], val, n)
    ensures SumTranslates(r, x, es, val, n)
  {
    ListCons(es, f, val, n);
  }

  lemma ProductCons(r: Form, f: Form, x: int, es: seq<Expr>, val: Valuation, n: nat)
    requires es != [] && Translates(f, es[0], val, n) && ProductTranslates(r, x * Meaning(f, val, n), es[1..], val, n)
    ensures ProductTranslates(r, x, es, val, n)
  {
    ListCons(es, f, val, n);
  }

  /** The affine form of an expression means what the expression evaluates to. */
  lemma {:induction false} FromExprMeans(e: Expr, val: Valuation, n: nat)
    requires FromExpr(e).Some? && VarsBelow(e, n)
    ensures Translates(FromExpr(e).value, e, val, n)
    decreases e, 1
  {
    match e
    case Const(c) => WeightedEmpty(val, n);
    case Var(v) => LeafMeans(0, v, val, n);
    case Neg(a) =>
      FromExprMeans(a, val, n);
      NegMeans(a, FromExpr(a).value, val, n);
    case Add(es) =>
      WeightedEmpty(val, n);
      FromSumMeans(Form(0, map[]), es, 0, val, n);
      SumMeans(es, FromExpr(e).value, val, n);
    case Sub(a, b) =>
      FromExprMeans(a, val, n);
      FromExprMeans(b, val, n);
      SubMeans(a, b, FromExpr(a).value, FromExpr(b).value, val, n);
    case Mul(es) =>
      WeightedEmpty(val, n);
      FromProductMeans(Form(1, map[]), es, 1, val, n);
      ProductMeans(es, FromExpr(e).value, val, n);
    case _ =>
  }

  lemma {:induction false} FromSumMeans(acc: Form, es: seq<Expr>, x: int, val: Valuation, n: nat)
    requires FromSum(acc, es).Some? && AllVarsBelow(es, n)
    requires Normal(acc.terms, n) && x == Meaning(acc, val, n)
    ensures SumTranslates(FromSum(acc, es).value, x, es, val, n)
    decreases es, 0
  {
    if es != [] {
      FromExprMeans(es[0], val, n);
      var f := FromExpr(es[0]).value;
      AddScaledMeans(acc, f, 1, val, n);
      FromSumMeans(AddScaled(acc, f, 1).value, es[1..], x + Meaning(f, val, n), val, n);
      SumCons(FromSum(acc, es).value, f, x, es, val, n);
    }
  }

  lemma {:induction false} FromProductMeans(acc: Form, es: seq<Expr>, x: int, val: Valuation, n: nat)
    requires FromProduct(acc, es).Some? && AllVarsBelow(es, n)
    requires Normal(acc.terms, n) && x == Meaning(acc, val, n)
    ensures ProductTranslates(FromProduct(acc, es).value, x, es, val, n)
    decreases es, 0
  {
    if es != [] {
      FromExprMeans(es[0], val, n);
      var f := FromExpr(es[0]).value;
      MultiplyMeans(acc, f, val, n);
      FromProductMeans(Multiply(acc, f).value, es[1..], x * Meaning(f, val, n), val, n);
      ProductCons(FromProduct(acc, es).value, f, x, es, val, n);
    }
  }
}
