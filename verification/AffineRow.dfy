/** The exact ranged row of a top-level affine comparison (src/expr.rs, `linear_relation_interruptible`). */
module AffineRow {
  import opened Common
  import opened Expressions
  import opened Affine

  type Pairs = seq<(VarId, int)>

  /** `lower <= sum of c * x <= upper`, a missing side being infinite. */
  datatype Row = Row(pairs: Pairs, lower: Option<int>, upper: Option<int>)

  function Dot(pairs: Pairs, val: Valuation): int {
    if pairs == [] then 0 else Dot(pairs[..|pairs| - 1], val) + pairs[|pairs| - 1].1 * val(pairs[|pairs| - 1].0)
  }

  predicate RowHolds(r: Row, val: Valuation) {
    && (r.lower.Some? ==> r.lower.value <= Dot(r.pairs, val))
    && (r.upper.Some? ==> Dot(r.pairs, val) <= r.upper.value)
  }

  /** The terms in increasing order of variable, as an ordered map iterates. */
  function Listing(terms: Terms, n: nat): Pairs {
    if n == 0 then [] else Listing(terms, n - 1) + (if n - 1 in terms then [(n - 1, terms[n - 1])] else [])
  }

  /** Variables occur once, in increasing order, with non-zero coefficients. */
  ghost predicate Canonical(pairs: Pairs, n: nat) {
    && (forall i | 0 <= i < |pairs| :: pairs[i].1 != 0 && pairs[i].0 < n)
    && (forall i, j | 0 <= i < j < |pairs| :: pairs[i].0 < pairs[j].0)
  }

  lemma {:induction false} ListingMeans(terms: Terms, val: Valuation, n: nat, m: nat)
    requires Normal(terms, m) && n <= m
    ensures Canonical(Listing(terms, n), n) && Dot(Listing(terms, n), val) == Weighted(terms, val, n)
  {
    if n > 0 {
      ListingMeans(terms, val, n - 1, m);
      var prefix := Listing(terms, n - 1);
      if n - 1 in terms {
        assert Listing(terms, n)[..|prefix|] == prefix;
      } else {
        assert Listing(terms, n) == prefix;
      }
    }
  }

  /** An affine form all of whose numbers fit 64 bits. */
  function AffineI64(e: Expr): Option<Form> {
    match FromExpr(e)
    case None => None
    case Some(f) => if FitsI64(f.constant) && forall v | v in f.terms :: FitsI64(f.terms[v]) then Some(f) else None
  }

  /** The sides of the row; a strict comparison moves its side by one. */
  function Sides(op: Relation, rhs: int): Option<(Option<int>, Option<int>)> {
    match op
    case Le => Some((None, Some(rhs)))
    case Lt => if FitsI64(rhs - 1) then Some((None, Some(rhs - 1))) else None
    case Ge => Some((Some(rhs), None))
    case Gt => if FitsI64(rhs + 1) then Some((Some(rhs + 1), None)) else None
    case Eq => Some((Some(rhs), Some(rhs)))
    case Ne => None
  }

  predicate DifferenceFits(f: Terms, g: Terms) { forall v | v in g :: FitsI64(Coef(f, v) - g[v]) }

  /** The row of `e`, if `e` is a comparison other than `!=` of two affine forms and nothing overflows. */
  function RelationRow(e: Expr, n: nat): Option<Row> {
    if !e.Cmp? then None
    else
      match (AffineI64(e.a), AffineI64(e.b))
      case (Some(f), Some(g)) =>
        var rhs := g.constant - f.constant;
        if !FitsI64(rhs) || !DifferenceFits(f.terms, g.terms) || Sides(e.op, rhs).None? then None
        else
          var (lower, upper) := Sides(e.op, rhs).value;
          Some(Row(Listing(Merge(f.terms, g.terms, -1, g.terms.Keys), n), lower, upper))
      case _ => None
  }

  /** The row holds exactly when the comparison evaluates to 1. */
  lemma RowExact(e: Expr, val: Valuation, n: nat)
    requires VarsBelow(e, n) && RelationRow(e, n).Some?
    ensures Canonical(RelationRow(e, n).value.pairs, n)
    ensures !Eval(e, val).Undefined?
    ensures Eval(e, val).Value? ==> (Eval(e, val).x == 1 <==> RowHolds(RelationRow(e, n).value, val))
  {
    var f, g := AffineI64(e.a).value, AffineI64(e.b).value;
    FromExprMeans(e.a, val, n);
    FromExprMeans(e.b, val, n);
    var merged := Merge(f.terms, g.terms, -1, g.terms.Keys);
    WeightedMerge(f.terms, g.terms, -1, val, n);
    ListingMeans(merged, val, n, n);
    ComparisonValue(e, val);
  }

  lemma ComparisonValue(e: Expr, val: Valuation)
    requires e.Cmp? && !Eval(e.a, val).Undefined? && !Eval(e.b, val).Undefined?
    ensures !Eval(e, val).Undefined?
    ensures Eval(e, val).Value? ==>
              && Eval(e.a, val).Value? && Eval(e.b, val).Value?
              && Eval(e, val).x == Bit(Compare(e.op, Eval(e.a, val).x, Eval(e.b, val).x))
  {
  }

  /** The first merging loop: the left terms, into an empty map. */
  method MergeLeft(f: Terms) returns (combined: Terms)
    requires forall v | v in f :: f[v] != 0
    ensures combined == f
  {
    combined := map[];
    var pending := f.Keys;
    while pending != {}
      invariant pending <= f.Keys
      invariant combined == map v | v in f && v !in pending :: f[v]
      decreases pending
    {
      var v :| v in pending;
      var updated := Coef(combined, v) + f[v];
      combined := if updated == 0 then combined - {v} else combined[v := updated];
      pending := pending - {v};
    }
  }

  /** The second merging loop: the right terms are subtracted. */
  method SubtractRight(f: Terms, g: Terms) returns (r: Option<Terms>)
    requires forall v | v in f :: f[v] != 0
    ensures r == if DifferenceFits(f, g) then Some(Merge(f, g, -1, g.Keys)) else None
  {
    var combined := f;
    var pending := g.Keys;
    assert Merge(f, g, -1, {}) == f;
    while pending != {}
      invariant pending <= g.Keys
      invariant combined == Merge(f, g, -1, g.Keys - pending)
      invariant forall v | v in g.Keys - pending :: FitsI64(Coef(f, v) - g[v])
      decreases pending
    {
      var v :| v in pending;
      MergeStep(f, g, -1, g.Keys - pending, v);
      assert g.Keys - pending + {v} == g.Keys - (pending - {v});
      var updated := Coef(combined, v) - g[v];
      if !FitsI64(updated) { return None; }
      combined := if updated == 0 then combined - {v} else combined[v := updated];
      pending := pending - {v};
    }
    assert g.Keys - {} == g.Keys;
    return Some(combined);
  }

  lemma NoZeroTerms(e: Expr, n: nat)
    requires VarsBelow(e, n) && FromExpr(e).Some?
    ensures forall v | v in FromExpr(e).value.terms :: FromExpr(e).value.terms[v] != 0
  {
    FromExprMeans(e, _ => 0, n);
  }

  /** The translation with its two merging loops. */
  method LinearRelation(e: Expr, n: nat) returns (r: Option<Row>)
    requires VarsBelow(e, n)
    ensures r == RelationRow(e, n)
  {
    if !e.Cmp? || e.op == Ne { return None; }
    var left, right := AffineI64(e.a), AffineI64(e.b);
    if left.None? || right.None? { return None; }
    var rhs := right.value.constant - left.value.constant;
    if !FitsI64(rhs) { return None; }
    NoZeroTerms(e.a, n);
    var combined := MergeLeft(left.value.terms);
    var merged := SubtractRight(combined, right.value.terms);
    if merged.None? { return None; }
    var sides := Sides(e.op, rhs);
    if sides.None? { return None; }
    return Some(Row(Listing(merged.value, n), sides.value.0, sides.value.1));
  }
}
