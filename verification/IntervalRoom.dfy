/**
 How far the interval steps of `bounds` (src/expr.rs) move the ends of an
 interval: from the magnitude of the operands to that of the result, without
 leaving 64 bits, or 128 bits in a product.
 */
module IntervalRoom {
  import opened Common
  import opened Expressions
  import opened ExprSoundness

  /** The magnitude at which 64-bit arithmetic saturates. */
  const CAP: nat := 0x8000_0000_0000_0000

  const I128_MAX: nat := 0x7fff_ffff_ffff_ffff_ffff_ffff_ffff_ffff

  function Capped(x: nat): nat { if x < CAP then x else CAP }

  function Larger(x: nat, y: nat): nat { if x < y then y else x }

  function Magnitude(i: Interval): nat { Larger(Common.Abs(i.lo), Common.Abs(i.hi)) }

  /** A proper 64-bit interval whose ends have magnitude at most `r`. */
  predicate Fits(i: Interval, r: nat) {
    FitsI64(i.lo) && FitsI64(i.hi) && i.lo <= i.hi && Magnitude(i) <= r
  }

  lemma ClampedFits(i: Interval, r: nat)
    requires i.lo <= i.hi && 0 - r <= i.lo && i.hi <= r
    ensures Fits(IClamp(i), Capped(r))
  {
  }

  lemma ProductFits(a: Interval, b: Interval, r: nat, s: nat)
    requires a.lo <= a.hi && b.lo <= b.hi && Magnitude(a) <= r && Magnitude(b) <= s && r * s <= I128_MAX
    ensures IMul(a, b).Some? && IMul(a, b).value.lo <= IMul(a, b).value.hi && Magnitude(IMul(a, b).value) <= r * s
  {
    CornerFits(a.lo, b.lo, r, s);
    CornerFits(a.lo, b.hi, r, s);
    CornerFits(a.hi, b.lo, r, s);
    CornerFits(a.hi, b.hi, r, s);
  }

  lemma CornerFits(x: int, y: int, r: nat, s: nat)
    requires Common.Abs(x) <= r && Common.Abs(y) <= s
    ensures -(r * s) <= x * y <= r * s
  {
    ScaleBetween(x, 0 - r, r, y);
    ScaleBetween(y, 0 - s, s, r);
    assert (0 - r) * y == -(r * y) && (0 - s) * r == -(r * s) && s * r == r * s && y * r == r * y;
  }

  lemma NegFits(i: Interval, r: nat)
    requires Fits(i, r) && r < CAP
    ensures INeg(i).Some? && Fits(INeg(i).value, r)
  {
  }

  lemma AbsFits(i: Interval, r: nat)
    requires Fits(i, r) && r < CAP
    ensures IAbs(i).Some? && Fits(IAbs(i).value, r)
  {
    NegFits(i, r);
  }

  lemma SubFits(i: Interval, j: Interval, r: nat, s: nat)
    requires Fits(i, r) && Fits(j, s)
    ensures Fits(ISub(i, j), Capped(r + s))
  {
    ClampedFits(Interval(i.lo - j.hi, i.hi - j.lo), r + s);
  }

  lemma CornersFit(p: int, q: int, r: int, s: int, m: nat)
    requires Common.Abs(p) <= m && Common.Abs(q) <= m && Common.Abs(r) <= m && Common.Abs(s) <= m < CAP
    ensures FitsI64(p) && FitsI64(q) && FitsI64(r) && FitsI64(s)
    ensures Fits(Interval(Min4(p, q, r, s), Max4(p, q, r, s)), m)
  {
  }

  lemma DivFits(i: Interval, j: Interval, m: nat)
    requires Fits(i, m) && m < CAP && j.lo <= j.hi
    ensures DivBounds(i, j).Some? && Fits(DivBounds(i, j).value, m)
  {
    if !(j.lo <= 0 <= j.hi) {
      QuotMagnitude(i.lo, j.lo);
      QuotMagnitude(i.lo, j.hi);
      QuotMagnitude(i.hi, j.lo);
      QuotMagnitude(i.hi, j.hi);
      CornersFit(Quot(i.lo, j.lo), Quot(i.lo, j.hi), Quot(i.hi, j.lo), Quot(i.hi, j.hi), m);
    }
  }

  lemma ModFits(j: Interval, s: nat)
    requires Fits(j, s) && s < CAP
    ensures IMod(j).Some? && Fits(IMod(j).value, s)
  {
  }

  lemma TruthFits(op: Relation, i: Interval, j: Interval)
    ensures Fits(CompareBounds(op, i, j), 1) && Fits(INot(i), 1) && Fits(IIff(i, j), 1)
  {
    assert Fits(TRUE, 1) && Fits(FALSE, 1) && Fits(MAYBE, 1);
  }

  lemma HullFits(j: Interval, k: Interval, r: nat, s: nat)
    requires Fits(j, r) && Fits(k, s)
    ensures Fits(IHull(j, k), Larger(r, s))
  {
  }

  /** A least or greatest value found from `acc` on is one of the values, or `acc`. */
  lemma {:induction false} ExtremeWithin(acc: int, xs: seq<int>, lo: int, hi: int)
    requires forall i | 0 <= i < |xs| :: lo <= xs[i] <= hi
    ensures lo <= acc && (xs != [] || acc <= hi) ==> lo <= MinFrom(acc, xs) <= hi
    ensures acc <= hi && (xs != [] || lo <= acc) ==> lo <= MaxFrom(acc, xs) <= hi
    decreases |xs|
  {
    if xs != [] {
      ExtremeWithin(Common.Min(acc, xs[0]), xs[1..], lo, hi);
      ExtremeWithin(Common.Max(acc, xs[0]), xs[1..], lo, hi);
    }
  }

  lemma ExtremesFit(bs: seq<Interval>, r: nat)
    requires r <= CAP && (bs == [] ==> r == CAP) && forall i | 0 <= i < |bs| :: Fits(bs[i], r)
    ensures Fits(IMin(bs), r) && Fits(IMax(bs), r)
  {
    MinMonotone(I64_MAX, Los(bs), I64_MAX, His(bs));
    MaxMonotone(I64_MIN, Los(bs), I64_MIN, His(bs));
    var lo, hi := Common.Max(0 - r, I64_MIN), Common.Min(r, I64_MAX);
    ExtremeWithin(I64_MAX, Los(bs), lo, hi);
    ExtremeWithin(I64_MAX, His(bs), lo, hi);
    ExtremeWithin(I64_MIN, Los(bs), lo, hi);
    ExtremeWithin(I64_MIN, His(bs), lo, hi);
  }
}
