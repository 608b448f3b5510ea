/**
 Atoms, literals and their canonical naming per variable layout
 (src/lcg/lit.rs), as far as assumptions and Boolean clauses use them.
 */
module Literals {
  import opened Common

  datatype AtomKind = GeAtom(v: VarId, k: int) | EqAtom(v: VarId, x: int)

  datatype Lit = Lit(atom: AtomKind, positive: bool) {
    function Negate(): Lit { Lit(atom, !positive) }
  }

  datatype LitOrConst = IsLit(lit: Lit) | True | False

  /**
   How a variable's atoms are laid out: one sign atom for `{-1, 1}`, a
   contiguous span, or a sorted explicit support. Eager and on-demand numbering
   name the same atoms.
   */
  datatype Layout = Sign | Span(lo: int, hi: int) | Sparse(values: seq<int>)

  /** Layouts by variable. */
  type Table = seq<Layout>

  predicate LayoutOk(y: Layout) {
    match y
    case Sign => true
    case Span(lo, hi) => lo <= hi
    case Sparse(values) => values != [] && forall i, j | 0 <= i < j < |values| :: values[i] < values[j]
  }

  predicate InSupport(y: Layout, x: int) {
    match y
    case Sign => x == -1 || x == 1
    case Span(lo, hi) => lo <= x <= hi
    case Sparse(values) => x in values
  }

  ghost predicate Supported(table: Table, a: Assignment) {
    |a| == |table| && forall v | 0 <= v < |a| :: InSupport(table[v], a[v])
  }

  predicate TableOk(table: Table) { forall v | 0 <= v < |table| :: LayoutOk(table[v]) }

  /** The first index whose value is at least `k`. */
  function PartitionPoint(values: seq<int>, k: int): (i: nat)
    ensures i <= |values| && (forall j | 0 <= j < i :: values[j] < k) && (i < |values| ==> values[i] >= k)
  {
    if values == [] || values[0] >= k then 0
    else
      var i := PartitionPoint(values[1..], k);
      assert forall j | 1 <= j < i + 1 :: values[j] == values[1..][j - 1];
      i + 1
  }

  /** The literal `[v >= k]`, folding constant ends. */
  function GeLit(table: Table, v: VarId, k: int): LitOrConst
    requires v < |table|
  {
    match table[v]
    case Sign => if k <= -1 then True else if k > 1 then False else IsLit(Lit(GeAtom(v, 1), true))
    case Span(lo, hi) => if k <= lo then True else if k > hi then False else IsLit(Lit(GeAtom(v, k), true))
    case Sparse(values) =>
      var i := PartitionPoint(values, k);
      if i == 0 then True else if i == |values| then False else IsLit(Lit(GeAtom(v, values[i]), true))
  }

  /** The literal `[v = x]`, folding values outside the support. */
  function EqLit(table: Table, v: VarId, x: int): LitOrConst
    requires v < |table|
  {
    match table[v]
    case Sign =>
      if x == -1 then IsLit(Lit(GeAtom(v, 1), false))
      else if x == 1 then IsLit(Lit(GeAtom(v, 1), true))
      else False
    case Span(lo, hi) => if x < lo || x > hi then False else IsLit(Lit(EqAtom(v, x), true))
    case Sparse(values) => if x in values then IsLit(Lit(EqAtom(v, x), true)) else False
  }

  predicate AtomHolds(k: AtomKind, a: Assignment)
    requires k.v < |a|
  {
    match k
    case GeAtom(v, k) => a[v] >= k
    case EqAtom(v, x) => a[v] == x
  }

  predicate Holds(l: Lit, a: Assignment)
    requires l.atom.v < |a|
  {
    AtomHolds(l.atom, a) == l.positive
  }

  predicate ConstOk(c: LitOrConst, n: nat) { c.IsLit? ==> c.lit.atom.v < n }

  predicate ConstHolds(c: LitOrConst, a: Assignment)
    requires ConstOk(c, |a|)
  {
    match c
    case IsLit(l) => Holds(l, a)
    case True => true
    case False => false
  }

  /** On supported assignments the literals mean what they are named for. */
  lemma LiteralsMean(table: Table, a: Assignment, v: VarId, k: int)
    requires TableOk(table) && Supported(table, a) && v < |table|
    ensures ConstHolds(GeLit(table, v, k), a) <==> a[v] >= k
    ensures ConstHolds(EqLit(table, v, k), a) <==> a[v] == k
  {
    assert InSupport(table[v], a[v]) && LayoutOk(table[v]);
    if table[v].Sparse? {
      var values := table[v].values;
      var i := PartitionPoint(values, k);
      var j :| 0 <= j < |values| && values[j] == a[v];
      assert a[v] >= k <==> j >= i;
    }
  }
}
