/**
 When an expression has an affine form and a comparison a row (src/expr.rs): every
 product has at most one factor with variables, and the numbers have room.
 */
module AffineRoom {
  import opened Common
  import opened Expressions
  import opened Affine
  import opened AffineRow

  const I128_MAX: int := 0x7fff_ffff_ffff_ffff_ffff_ffff_ffff_ffff

  // --- the shape ------------------------------------------------------------------------------

  /** No variable occurs. */
  predicate Ground(e: Expr) { VarsBelow(e, 0) }

  predicate AllGround(es: seq<Expr>) { AllVarsBelow(es, 0) }

  predicate AtMostOneOpen(es: seq<Expr>)
    decreases |es|
  {
    es == [] || (if Ground(es[0]) then AtMostOneOpen(es[1..]) else AllGround(es[1..]))
  }

  /** Sums, differences and products, at most one factor of each product with variables. */
  predicate Linear(e: Expr)
    decreases e, 1
  {
    match e
    case Const(_) => true
    case Var(_) => true
    case Neg(a) => Linear(a)
    case Sub(a, b) => Linear(a) && Linear(b)
    case Add(es) => AllLinear(es)
    case Mul(es) => AllLinear(es) && AtMostOneOpen(es)
    case _ => false
  }

  predicate AllLinear(es: seq<Expr>)
    decreases es, 0
  {
    es == [] || (Linear(es[0]) && AllLinear(es[1..]))
  }

  // --- the room -------------------------------------------------------------------------------

  /** A bound on every number of the form and of its computation. */
  function Weight(e: Expr): nat
    decreases e, 1
  {
    match e
    case Const(c) => Common.Abs(c)
    case Var(_) => 1
    case Neg(a) => Weight(a)
    case Sub(a, b) => Weight(a) + Weight(b)
    case Add(es) => SumWeight(es)
    case Mul(es) => ProductWeight(es)
    case _ => 0
  }

  function SumWeight(es: seq<Expr>): nat
    decreases es, 0
  {
    if es == [] then 0 else Weight(es[0]) + SumWeight(es[1..])
  }

  function ProductWeight(es: seq<Expr>): (w: nat)
    ensures w >= 1
    decreases es, 0
  {
    if es == [] then 1
    else
      var w, rest := Common.Max(1, Weight(es[0])), ProductWeight(es[1..]);
      Grows(w, rest);
      w * rest
  }

  lemma Grows(a: int, b: int)
    requires a >= 1 && b >= 1
    ensures a * b >= a && a * b >= b
  {
    assert (a - 1) * (b - 1) >= 0;
    assert (a - 1) * b >= 0;
    assert a * (b - 1) >= 0;
  }

  /** The numbers of the form are at most `w` in magnitude. */
  ghost predicate Bounded(f: Form, w: int) {
    Common.Abs(f.constant) <= w && forall v | v in f.terms :: Common.Abs(f.terms[v]) <= w
  }

  lemma Magnitude(a: int, b: int, w: int, u: int)
    requires Common.Abs(a) <= w && Common.Abs(b) <= u
    ensures Common.Abs(a * b) <= w * u
  {
    var (m, n) := (Common.Abs(a), Common.Abs(b));
    assert Common.Abs(a * b) == m * n by {
      if a < 0 && b >= 0 { assert a * b == -(m * n); }
      if a >= 0 && b < 0 { assert a * b == -(m * n); }
    }
    assert m * n <= w * n by { assert (w - m) * n >= 0; }
    assert w * n <= w * u by { assert w * (u - n) >= 0; }
  }

  lemma StepHasRoom(a: int, b: int, scale: int, w: int, u: int)
    requires Common.Abs(a) <= w && Common.Abs(b) <= u && (scale == 1 || scale == -1) && w + u <= I128_MAX
    ensures FitsI128(scale * b) && FitsI128(a + scale * b) && Common.Abs(a + scale * b) <= w + u
  {
  }

  lemma TermsHaveRoom(f: Terms, g: Terms, scale: int, w: int, u: int)
    requires 0 <= w && (forall v | v in f :: Common.Abs(f[v]) <= w) && (forall v | v in g :: Common.Abs(g[v]) <= u)
    requires (scale == 1 || scale == -1) && 0 <= u && w + u <= I128_MAX
    ensures MergeFits(f, g, scale)
    ensures forall v | v in Merge(f, g, scale, g.Keys) :: Common.Abs(Merge(f, g, scale, g.Keys)[v]) <= w + u
  {
    forall v | v in g
      ensures FitsI128(scale * g[v]) && FitsI128(Coef(f, v) + scale * g[v])
          && Common.Abs(Coef(f, v) + scale * g[v]) <= w + u
    {
      StepHasRoom(Coef(f, v), g[v], scale, w, u);
    }
  }

  lemma AddHasRoom(f: Form, g: Form, scale: int, w: int, u: int)
    requires Bounded(f, w) && Bounded(g, u) && (scale == 1 || scale == -1) && w + u <= I128_MAX
    ensures AddScaled(f, g, scale).Some? && Bounded(AddScaled(f, g, scale).value, w + u)
    ensures f.terms == map[] && g.terms == map[] ==> AddScaled(f, g, scale).value.terms == map[]
  {
    StepHasRoom(f.constant, g.constant, scale, w, u);
    TermsHaveRoom(f.terms, g.terms, scale, w, u);
  }

  lemma ScaleHasRoom(f: Form, scale: int, w: int, u: int)
    requires Bounded(f, w) && Common.Abs(scale) <= u && w * u <= I128_MAX
    ensures Scale(f, scale).Some? && Bounded(Scale(f, scale).value, w * u)
    ensures f.terms == map[] ==> Scale(f, scale).value.terms == map[]
  {
    Magnitude(f.constant, scale, w, u);
    forall v | v in f.terms ensures Common.Abs(f.terms[v] * scale) <= w * u {
      Magnitude(f.terms[v], scale, w, u);
    }
  }

  lemma MultiplyHasRoom(f: Form, g: Form, w: int, u: int)
    requires Bounded(f, w) && Bounded(g, u) && w * u <= I128_MAX && (f.terms == map[] || g.terms == map[])
    ensures Multiply(f, g).Some? && Bounded(Multiply(f, g).value, w * u)
    ensures f.terms == map[] && g.terms == map[] ==> Multiply(f, g).value.terms == map[]
  {
    if g.terms == map[] {
      ScaleHasRoom(f, g.constant, w, u);
    } else {
      assert u * w == w * u;
      ScaleHasRoom(g, f.constant, u, w);
    }
  }


  // --- the theorem ----------------------------------------------------------------------------

  /** A linear expression with room has an affine form, without terms if it has no variables. */
  lemma {:induction false} LinearHasForm(e: Expr)
    requires Linear(e) && Weight(e) <= I128_MAX
    ensures FromExpr(e).Some? && Bounded(FromExpr(e).value, Weight(e))
    ensures Ground(e) ==> FromExpr(e).value.terms == map[]
    decreases e, 1
  {
    match e
    case Const(_) =>
    case Var(_) =>
    case Neg(a) =>
      LinearHasForm(a);
      ScaleHasRoom(FromExpr(a).value, -1, Weight(a), 1);
    case Sub(a, b) =>
      LinearHasForm(a);
      LinearHasForm(b);
      AddHasRoom(FromExpr(a).value, FromExpr(b).value, -1, Weight(a), Weight(b));
    case Add(es) => LinearHasSum(Form(0, map[]), es, 0);
    case Mul(es) => LinearHasProduct(Form(1, map[]), es, 1);
  }

  lemma {:induction false} LinearHasSum(acc: Form, es: seq<Expr>, w: nat)
    requires Bounded(acc, w) && AllLinear(es) && w + SumWeight(es) <= I128_MAX
    ensures FromSum(acc, es).Some? && Bounded(FromSum(acc, es).value, w + SumWeight(es))
    ensures acc.terms == map[] && AllGround(es) ==> FromSum(acc, es).value.terms == map[]
    decreases es, 0
  {
    if es != [] {
      LinearHasForm(es[0]);
      var f := FromExpr(es[0]).value;
      AddHasRoom(acc, f, 1, w, Weight(es[0]));
      LinearHasSum(AddScaled(acc, f, 1).value, es[1..], w + Weight(es[0]));
    }
  }

  lemma FactorRoom(w: int, x: int, rest: int)
    requires w >= 1 && rest >= 1
    ensures w * (Common.Max(1, x) * rest) == (w * Common.Max(1, x)) * rest
    ensures w * Common.Max(1, x) <= w * (Common.Max(1, x) * rest)
    ensures Common.Max(1, x) <= w * (Common.Max(1, x) * rest)
    ensures w * Common.Max(1, x) >= 1
  {
    var m := Common.Max(1, x);
    Grows(w, m);
    Grows(w * m, rest);
    assert w * (m * rest) == (w * m) * rest;
  }

  lemma {:induction false} LinearHasProduct(acc: Form, es: seq<Expr>, w: int)
    requires w >= 1 && Bounded(acc, w) && AllLinear(es) && w * ProductWeight(es) <= I128_MAX
    requires (acc.terms == map[] && AtMostOneOpen(es)) || AllGround(es)
    ensures FromProduct(acc, es).Some? && Bounded(FromProduct(acc, es).value, w * ProductWeight(es))
    ensures acc.terms == map[] && AllGround(es) ==> FromProduct(acc, es).value.terms == map[]
    decreases es, 0
  {
    if es != [] {
      var u := Common.Max(1, Weight(es[0]));
      FactorRoom(w, Weight(es[0]), ProductWeight(es[1..]));
      LinearHasForm(es[0]);
      var f := FromExpr(es[0]).value;
      MultiplyHasRoom(acc, f, w, u);
      LinearHasProduct(Multiply(acc, f).value, es[1..], w * u);
    }
  }

  /** A comparison of two linear expressions, other than `!=`, with room in 64 bits has a row. */
  lemma LinearHasRow(e: Expr, n: nat)
    requires e.Cmp? && e.op != Ne && Linear(e.a) && Linear(e.b)
    requires Weight(e.a) + Weight(e.b) + 1 <= I64_MAX
    ensures RelationRow(e, n).Some?
  {
    LinearHasForm(e.a);
    LinearHasForm(e.b);
    var f, g := FromExpr(e.a).value, FromExpr(e.b).value;
    assert AffineI64(e.a) == Some(f) && AffineI64(e.b) == Some(g);
    forall v | v in g.terms ensures FitsI64(Coef(f.terms, v) - g.terms[v]) {
      assert Common.Abs(g.terms[v]) <= Weight(e.b);
      assert v in f.terms ==> Common.Abs(f.terms[v]) <= Weight(e.a);
    }
  }
}
