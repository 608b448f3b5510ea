/** Expression trees of `intension` constraints (src/expr.rs): evaluation and interval bounds. */
module Expressions {
  import opened Common

  datatype Relation = Eq | Ne | Lt | Le | Gt | Ge

  datatype Expr =
    | Const(c: int)
    | Var(v: VarId)
    | Neg(a: Expr)
    | Abs(a: Expr)
    | Add(es: seq<Expr>)
    | Sub(a: Expr, b: Expr)
    | Mul(es: seq<Expr>)
    | Div(a: Expr, b: Expr)
    | Mod(a: Expr, b: Expr)
    | Min(es: seq<Expr>)
    | Max(es: seq<Expr>)
    | Cmp(op: Relation, a: Expr, b: Expr)
    | Not(a: Expr)
    | And(es: seq<Expr>)
    | Or(es: seq<Expr>)
    | Imp(a: Expr, b: Expr)
    | Iff(a: Expr, b: Expr)
    | IfThenElse(cond: Expr, thn: Expr, els: Expr)

  const I64_MIN: int := -0x8000_0000_0000_0000
  const I64_MAX: int := 0x7fff_ffff_ffff_ffff

  // --- truncated division -----------------------------------------------------------

  /** Quotient rounded toward zero. */
  function Quot(a: int, b: int): int
    requires b != 0
  {
    if (a >= 0) == (b > 0) then Common.Abs(a) / Common.Abs(b) else -(Common.Abs(a) / Common.Abs(b))
  }

  /** Remainder with the sign of the dividend. */
  function Rem(a: int, b: int): int
    requires b != 0
  {
    a - b * Quot(a, b)
  }

  // --- evaluation -------------------------------------------------------------------

  /** `Undefined` is a division by zero; `Overflow` is arithmetic that leaves 64 bits. */
  datatype Outcome = Value(x: int) | Undefined | Overflow

  datatype ListOutcome = Values(xs: seq<int>) | Failed(why: Outcome)

  type Valuation = VarId -> int

  function Checked(x: int): Outcome { if FitsI64(x) then Value(x) else Overflow }

  function Bit(b: bool): int { if b then 1 else 0 }

  function Truth(x: int): int { Bit(x != 0) }

  predicate Compare(op: Relation, x: int, y: int) {
    match op
    case Eq => x == y
    case Ne => x != y
    case Lt => x < y
    case Le => x <= y
    case Gt => x > y
    case Ge => x >= y
  }

  /** Left-to-right sum; every partial sum must fit. */
  function SumFrom(acc: int, xs: seq<int>): (r: Outcome)
    ensures !r.Undefined?
    decreases |xs|
  {
    if xs == [] then Value(acc)
    else if !FitsI64(acc + xs[0]) then Overflow
    else SumFrom(acc + xs[0], xs[1..])
  }

  /** Left-to-right product; every partial product must fit. */
  function ProductFrom(acc: int, xs: seq<int>): (r: Outcome)
    ensures !r.Undefined?
    decreases |xs|
  {
    if xs == [] then Value(acc)
    else if !FitsI64(acc * xs[0]) then Overflow
    else ProductFrom(acc * xs[0], xs[1..])
  }

  function MinFrom(acc: int, xs: seq<int>): int
    decreases |xs|
  {
    if xs == [] then acc else MinFrom(Common.Min(acc, xs[0]), xs[1..])
  }

  function MaxFrom(acc: int, xs: seq<int>): int
    decreases |xs|
  {
    if xs == [] then acc else MaxFrom(Common.Max(acc, xs[0]), xs[1..])
  }

  predicate AnyTrue(xs: seq<int>) { exists i :: 0 <= i < |xs| && xs[i] != 0 }

  function EvalList(es: seq<Expr>, val: Valuation): (r: ListOutcome)
    ensures r.Values? ==> |r.xs| == |es|
    ensures r.Failed? ==> !r.why.Value?
    decreases es, 0
  {
    if es == [] then Values([])
    else
      match Eval(es[0], val)
      case Value(x) =>
        (match EvalList(es[1..], val)
         case Values(xs) => Values([x] + xs)
         case Failed(why) => Failed(why))
      case other => Failed(other)
  }

  /** The value of `e` under a total assignment. */
  function Eval(e: Expr, val: Valuation): Outcome
    decreases e, 1
  {
    match e
    case Const(c) => Value(c)
    case Var(v) => Value(val(v))
    case Neg(a) => (match Eval(a, val) case Value(x) => Checked(-x) case o => o)
    case Abs(a) => (match Eval(a, val) case Value(x) => Checked(Common.Abs(x)) case o => o)
    case Add(es) => (match EvalList(es, val) case Values(xs) => SumFrom(0, xs) case Failed(o) => o)
    case Sub(a, b) =>
      (match (Eval(a, val), Eval(b, val))
       case (Value(x), Value(y)) => Checked(x - y)
       case (Value(_), o) => o
       case (o, _) => o)
    case Mul(es) => (match EvalList(es, val) case Values(xs) => ProductFrom(1, xs) case Failed(o) => o)
    case Div(a, b) =>
      (match (Eval(b, val), Eval(a, val))
       case (Value(y), Value(x)) => if y == 0 then Undefined else Checked(Quot(x, y))
       case (Value(y), o) => if y == 0 then Undefined else o
       case (o, _) => o)
    case Mod(a, b) =>
      (match (Eval(b, val), Eval(a, val))
       case (Value(y), Value(x)) =>
         if y == 0 then Undefined else if !FitsI64(Quot(x, y)) then Overflow else Value(Rem(x, y))
       case (Value(y), o) => if y == 0 then Undefined else o
       case (o, _) => o)
    case Min(es) => (match EvalList(es, val) case Values(xs) => Value(MinFrom(I64_MAX, xs)) case Failed(o) => o)
    case Max(es) => (match EvalList(es, val) case Values(xs) => Value(MaxFrom(I64_MIN, xs)) case Failed(o) => o)
    case Cmp(op, a, b) =>
      (match (Eval(a, val), Eval(b, val))
       case (Value(x), Value(y)) => Value(Bit(Compare(op, x, y)))
       case (Value(_), o) => o
       case (o, _) => o)
    case Not(a) => (match Eval(a, val) case Value(x) => Value(1 - Truth(x)) case o => o)
    case And(es) => (match EvalList(es, val) case Values(xs) => Value(Bit(0 !in xs)) case Failed(o) => o)
    case Or(es) => (match EvalList(es, val) case Values(xs) => Value(Bit(AnyTrue(xs))) case Failed(o) => o)
    case Imp(a, b) =>
      (match Eval(a, val)
       case Value(x) =>
         if x == 0 then Value(1) else (match Eval(b, val) case Value(y) => Value(Truth(y)) case o => o)
       case o => o)
    case Iff(a, b) =>
      (match (Eval(a, val), Eval(b, val))
       case (Value(x), Value(y)) => Value(Bit(Truth(x) == Truth(y))) case (Value(_), o) => o case (o, _) => o)
    case IfThenElse(c, t, f) =>
      (match Eval(c, val) case Value(x) => if x != 0 then Eval(t, val) else Eval(f, val) case o => o)
  }

  // --- interval bounds --------------------------------------------------------------

  datatype Interval = Interval(lo: int, hi: int)

  predicate In(x: int, i: Interval) { i.lo <= x <= i.hi }

  const FALSE: Interval := Interval(0, 0)
  const TRUE: Interval := Interval(1, 1)
  const MAYBE: Interval := Interval(0, 1)

  type Box = VarId -> Interval

  function Clamp(x: int): int { if x < I64_MIN then I64_MIN else if x > I64_MAX then I64_MAX else x }

  function Min4(a: int, b: int, c: int, d: int): int { Common.Min(Common.Min(a, b), Common.Min(c, d)) }

  function Max4(a: int, b: int, c: int, d: int): int { Common.Max(Common.Max(a, b), Common.Max(c, d)) }

  /** Product of two intervals from its corners, if they fit 128 bits. */
  function IMul(a: Interval, b: Interval): Option<Interval> {
    var p, q, r, s := a.lo * b.lo, a.lo * b.hi, a.hi * b.lo, a.hi * b.hi;
    if FitsI128(p) && FitsI128(q) && FitsI128(r) && FitsI128(s) then Some(Interval(Min4(p, q, r, s), Max4(p, q, r, s)))
    else None
  }

  function IMulAll(acc: Interval, bs: seq<Interval>): Option<Interval>
    decreases |bs|
  {
    if bs == [] then Some(acc)
    else match IMul(acc, bs[0]) case None => None case Some(next) => IMulAll(next, bs[1..])
  }

  function IAddAll(acc: Interval, bs: seq<Interval>): Interval
    decreases |bs|
  {
    if bs == [] then acc else IAddAll(Interval(acc.lo + bs[0].lo, acc.hi + bs[0].hi), bs[1..])
  }

  function Los(bs: seq<Interval>): seq<int> { seq(|bs|, i requires 0 <= i < |bs| => bs[i].lo) }

  function His(bs: seq<Interval>): seq<int> { seq(|bs|, i requires 0 <= i < |bs| => bs[i].hi) }

  function LtBounds(a: Interval, b: Interval): Interval {
    if a.hi < b.lo then TRUE else if a.lo >= b.hi then FALSE else MAYBE
  }

  function LeBounds(a: Interval, b: Interval): Interval {
    if a.hi <= b.lo then TRUE else if a.lo > b.hi then FALSE else MAYBE
  }

  function CompareBounds(op: Relation, i: Interval, j: Interval): Interval {
    match op
    case Eq =>
      if i.hi < j.lo || j.hi < i.lo then FALSE
      else if i.lo == i.hi && j.lo == j.hi && i.lo == j.lo then TRUE
      else MAYBE
    case Ne =>
      if i.hi < j.lo || j.hi < i.lo then TRUE
      else if i.lo == i.hi && j.lo == j.hi && i.lo == j.lo then FALSE
      else MAYBE
    case Lt => LtBounds(i, j)
    case Le => LeBounds(i, j)
    case Gt => LtBounds(j, i)
    case Ge => LeBounds(j, i)
  }

  function DivBounds(a: Interval, b: Interval): Option<Interval> {
    if b.lo <= 0 <= b.hi then
      var m := Common.Max(Common.Abs(a.lo), Common.Abs(a.hi));
      if FitsI64(m) then Some(Interval(-m, m)) else None
    else if b.hi == 0 || b.lo == 0 then None
    else
      var p, q, r, s := Quot(a.lo, b.lo), Quot(a.lo, b.hi), Quot(a.hi, b.lo), Quot(a.hi, b.hi);
      if FitsI64(p) && FitsI64(q) && FitsI64(r) && FitsI64(s) then Some(Interval(Min4(p, q, r, s), Max4(p, q, r, s)))
      else None
  }

  /** Saturated to 64 bits. */
  function IClamp(i: Interval): Interval { Interval(Clamp(i.lo), Clamp(i.hi)) }

  function INeg(i: Interval): Option<Interval> {
    if FitsI64(-i.hi) && FitsI64(-i.lo) then Some(Interval(-i.hi, -i.lo)) else None
  }

  function IAbs(i: Interval): Option<Interval> {
    if i.lo >= 0 then Some(i)
    else if i.hi <= 0 then INeg(i)
    else if FitsI64(-i.lo) then Some(Interval(0, Common.Max(-i.lo, i.hi)))
    else None
  }

  function ISub(i: Interval, j: Interval): Interval { IClamp(Interval(i.lo - j.hi, i.hi - j.lo)) }

  function IMod(j: Interval): Option<Interval> {
    var m := Common.Max(Common.Abs(j.lo), Common.Abs(j.hi));
    if !FitsI64(m) then None else if m == 0 then Some(Interval(0, 0)) else Some(Interval(-(m - 1), m - 1))
  }

  function IMin(bs: seq<Interval>): Interval { Interval(MinFrom(I64_MAX, Los(bs)), MinFrom(I64_MAX, His(bs))) }

  function IMax(bs: seq<Interval>): Interval { Interval(MaxFrom(I64_MIN, Los(bs)), MaxFrom(I64_MIN, His(bs))) }

  function INot(i: Interval): Interval { if i == TRUE then FALSE else if i == FALSE then TRUE else MAYBE }

  function IIff(i: Interval, j: Interval): Interval {
    var decided := (i == TRUE || i == FALSE) && (j == TRUE || j == FALSE);
    if decided then (if i == j then TRUE else FALSE) else MAYBE
  }

  /** The smallest interval around both. */
  function IHull(j: Interval, k: Interval): Interval { Interval(Common.Min(j.lo, k.lo), Common.Max(j.hi, k.hi)) }

  /** `None` when the computation of a bound leaves the machine width. */
  function BoundsList(es: seq<Expr>, dom: Box): Option<seq<Interval>>
    decreases es, 0
  {
    if es == [] then Some([])
    else
      match (Bounds(es[0], dom), BoundsList(es[1..], dom))
      case (Some(b), Some(bs)) => Some([b] + bs)
      case _ => None
  }

  /** Stops at the first operand that is certainly false. */
  function AndBounds(es: seq<Expr>, dom: Box, allTrue: bool): Option<Interval>
    decreases es, 0
  {
    if es == [] then Some(if allTrue then TRUE else MAYBE)
    else
      match Bounds(es[0], dom)
      case None => None
      case Some(b) => if b == FALSE then Some(FALSE) else AndBounds(es[1..], dom, allTrue && b == TRUE)
  }

  /** Stops at the first operand that is certainly true. */
  function OrBounds(es: seq<Expr>, dom: Box, allFalse: bool): Option<Interval>
    decreases es, 0
  {
    if es == [] then Some(if allFalse then FALSE else MAYBE)
    else
      match Bounds(es[0], dom)
      case None => None
      case Some(b) => if b == TRUE then Some(TRUE) else OrBounds(es[1..], dom, allFalse && b == FALSE)
  }

  /** The interval of `e` when every variable lies in its interval of `dom`. */
  function Bounds(e: Expr, dom: Box): Option<Interval>
    decreases e, 1
  {
    match e
    case Const(c) => Some(Interval(c, c))
    case Var(v) => Some(dom(v))
    case Neg(a) => (match Bounds(a, dom) case Some(i) => INeg(i) case None => None)
    case Abs(a) => (match Bounds(a, dom) case Some(i) => IAbs(i) case None => None)
    case Add(es) =>
      (match BoundsList(es, dom) case Some(bs) => Some(IClamp(IAddAll(Interval(0, 0), bs))) case None => None)
    case Sub(a, b) =>
      (match (Bounds(a, dom), Bounds(b, dom)) case (Some(i), Some(j)) => Some(ISub(i, j)) case _ => None)
    case Mul(es) =>
      (match BoundsList(es, dom)
       case Some(bs) =>
         (match IMulAll(Interval(1, 1), bs)
          case Some(t) => Some(IClamp(t))
          case None => None)
       case None => None)
    case Div(a, b) =>
      (match (Bounds(a, dom), Bounds(b, dom))
       case (Some(i), Some(j)) => DivBounds(i, j)
       case _ => None)
    case Mod(_, b) => (match Bounds(b, dom) case Some(j) => IMod(j) case None => None)
    case Min(es) => (match BoundsList(es, dom) case Some(bs) => Some(IMin(bs)) case None => None)
    case Max(es) => (match BoundsList(es, dom) case Some(bs) => Some(IMax(bs)) case None => None)
    case Cmp(op, a, b) =>
      (match (Bounds(a, dom), Bounds(b, dom))
       case (Some(i), Some(j)) => Some(CompareBounds(op, i, j))
       case _ => None)
    case Not(a) => (match Bounds(a, dom) case Some(i) => Some(INot(i)) case None => None)
    case And(es) => AndBounds(es, dom, true)
    case Or(es) => OrBounds(es, dom, true)
    case Imp(a, b) =>
      (match Bounds(a, dom)
       case Some(i) => if i == FALSE then Some(TRUE) else if i == TRUE then Bounds(b, dom) else Some(MAYBE)
       case None => None)
    case Iff(a, b) =>
      (match (Bounds(a, dom), Bounds(b, dom)) case (Some(i), Some(j)) => Some(IIff(i, j)) case _ => None)
    case IfThenElse(c, t, f) =>
      (match Bounds(c, dom)
       case Some(i) =>
         if i == TRUE then Bounds(t, dom)
         else if i == FALSE then Bounds(f, dom)
         else
           (match (Bounds(t, dom), Bounds(f, dom))
            case (Some(j), Some(k)) => Some(IHull(j, k))
            case _ => None)
       case None => None)
  }
}
