/** Boolean literals over integer variables, clause normalisation and clause posting (src/search.rs). */
module BoolClauses {
  import opened Common
  import opened Literals

  datatype BoolLit = BoolLit(v: VarId, value: bool)

  predicate BoolHolds(b: BoolLit, a: Assignment)
    requires b.v < |a|
  {
    (a[b.v] == 1) == b.value
  }

  /** The assignments the posted constraints allow. */
  type Theory = Assignment -> bool

  /** Current root domains; they only shrink below the supports the atoms were built from. */
  type Root = seq<set<int>>

  ghost predicate RootOk(table: Table, root: Root) {
    && TableOk(table) && |root| == |table|
    && forall v, x | 0 <= v < |root| && x in root[v] :: InSupport(table[v], x)
  }

  ghost predicate InRoot(a: Assignment, root: Root) { |a| == |root| && forall v | 0 <= v < |a| :: a[v] in root[v] }

  lemma RootSupported(table: Table, root: Root, a: Assignment)
    requires RootOk(table, root) && InRoot(a, root)
    ensures Supported(table, a)
  {
  }

  // --- truth at the root ---------------------------------------------------------------------

  datatype Tri = Yes | No | Unknown

  function AtomValue(root: Root, k: AtomKind): Tri
    requires k.v < |root|
  {
    match k
    case GeAtom(v, k) =>
      if forall x | x in root[v] :: x >= k then Yes
      else if forall x | x in root[v] :: x < k then No
      else Unknown
    case EqAtom(v, x) => if x !in root[v] then No else if |root[v]| == 1 then Yes else Unknown
  }

  function LitValue(root: Root, l: Lit): Tri
    requires l.atom.v < |root|
  {
    match AtomValue(root, l.atom)
    case Yes => if l.positive then Yes else No
    case No => if l.positive then No else Yes
    case Unknown => Unknown
  }

  lemma LitValueMeans(root: Root, l: Lit, a: Assignment)
    requires l.atom.v < |root| && InRoot(a, root)
    ensures LitValue(root, l) == Yes ==> Holds(l, a)
    ensures LitValue(root, l) == No ==> !Holds(l, a)
  {
    var s := root[l.atom.v];
    assert a[l.atom.v] in s;
    if l.atom.EqAtom? && l.atom.x in s && |s| == 1 {
      assert |s - {l.atom.x}| == 0;
      assert s == {l.atom.x};
    }
  }

  /** The literal at one value of its variable. */
  predicate LitHoldsAt(l: Lit, x: int) {
    (match l.atom case GeAtom(_, k) => x >= k case EqAtom(_, y) => x == y) == l.positive
  }

  /** The three values are exact: true or false at the root is true or false at every remaining value. */
  lemma LitValueExact(root: Root, l: Lit)
    requires l.atom.v < |root| && root[l.atom.v] != {}
    ensures LitValue(root, l) == Yes <==> forall x | x in root[l.atom.v] :: LitHoldsAt(l, x)
    ensures LitValue(root, l) == No <==> forall x | x in root[l.atom.v] :: !LitHoldsAt(l, x)
  {
    var s := root[l.atom.v];
    assert (forall x :: x !in s) ==> s == {};
    if l.atom.EqAtom? && l.atom.x in s {
      if |s| == 1 { assert |s - {l.atom.x}| == 0; }
      if forall x | x in s :: x == l.atom.x { assert s == {l.atom.x}; }
    }
  }

  // --- Boolean literals as engine literals -----------------------------------------------------

  predicate IsBool(table: Table, v: VarId) { v < |table| && (table[v] == Span(0, 1) || table[v] == Sign) }

  /** The integer that stands for a truth value: false is 0, or -1 once 0 is gone. */
  function BoolValue(root: Root, v: VarId, value: bool): int
    requires v < |root|
  {
    if value then 1 else if 0 in root[v] then 0 else -1
  }

  function ToLit(table: Table, root: Root, b: BoolLit): LitOrConst
    requires b.v < |table| == |root|
  {
    EqLit(table, b.v, BoolValue(root, b.v, b.value))
  }

  lemma ToLitMeans(table: Table, root: Root, b: BoolLit, a: Assignment)
    requires RootOk(table, root) && IsBool(table, b.v) && InRoot(a, root)
    ensures ConstHolds(ToLit(table, root, b), a) <==> BoolHolds(b, a)
  {
    RootSupported(table, root, a);
    LiteralsMean(table, a, b.v, BoolValue(root, b.v, b.value));
    assert a[b.v] in root[b.v] && InSupport(table[b.v], a[b.v]);
  }

  // --- normalisation --------------------------------------------------------------------------

  predicate BoolClauseHolds(c: seq<BoolLit>, a: Assignment)
    requires forall i | 0 <= i < |c| :: c[i].v < |a|
  {
    exists i :: 0 <= i < |c| && BoolHolds(c[i], a)
  }

  predicate LitsInRange(c: seq<Lit>, n: nat) { forall i | 0 <= i < |c| :: c[i].atom.v < n }

  predicate ClauseHolds(c: seq<Lit>, a: Assignment)
    requires LitsInRange(c, |a|)
  {
    exists i :: 0 <= i < |c| && Holds(c[i], a)
  }

  datatype Normal = NonBoolean(v: VarId) | Satisfied | Clause(lits: seq<Lit>)

  predicate AllBool(table: Table, c: seq<BoolLit>) { forall i | 0 <= i < |c| :: IsBool(table, c[i].v) }

  /** `lits` means what `c` means on every assignment of the root box. */
  ghost predicate SameMeaning(table: Table, root: Root, c: seq<BoolLit>, lits: seq<Lit>) {
    && AllBool(table, c) && LitsInRange(lits, |table|) && |root| == |table|
    && forall a {:trigger InRoot(a, root)} | InRoot(a, root) :: BoolClauseHolds(c, a) <==> ClauseHolds(lits, a)
  }

  ghost predicate AlwaysHolds(table: Table, root: Root, c: seq<BoolLit>) {
    && |root| == |table|
    && exists k :: 0 <= k <= |c| && AllBool(table, c[..k])
                   && forall a {:trigger InRoot(a, root)} | InRoot(a, root) :: BoolClauseHolds(c[..k], a)
  }

  /** No literal repeats, none is decided at the root, and no two are opposites. */
  ghost predicate Reduced(root: Root, lits: seq<Lit>) {
    && LitsInRange(lits, |root|) && Distinct(lits)
    && (forall i | 0 <= i < |lits| :: LitValue(root, lits[i]) == Unknown)
    && (forall i, j | 0 <= i < |lits| && 0 <= j < |lits| :: lits[i] != lits[j].Negate())
  }

  lemma AppendMeaning(c: seq<BoolLit>, k: nat, lits: seq<Lit>, a: Assignment)
    requires k < |c| && (forall i | 0 <= i <= k :: c[i].v < |a|) && LitsInRange(lits, |a|)
    ensures BoolClauseHolds(c[..k + 1], a) <==> BoolClauseHolds(c[..k], a) || BoolHolds(c[k], a)
    ensures forall l: Lit | l.atom.v < |a| :: ClauseHolds(lits + [l], a) <==> ClauseHolds(lits, a) || Holds(l, a)
  {
    if BoolClauseHolds(c[..k], a) {
      var i :| 0 <= i < k && BoolHolds(c[..k][i], a);
      assert c[..k + 1][i] == c[i];
    }
    if BoolHolds(c[k], a) { assert c[..k + 1][k] == c[k]; }
    forall l: Lit | l.atom.v < |a| ensures ClauseHolds(lits + [l], a) <==> ClauseHolds(lits, a) || Holds(l, a) {
      if ClauseHolds(lits, a) {
        var i :| 0 <= i < |lits| && Holds(lits[i], a);
        assert (lits + [l])[i] == lits[i];
      }
      if Holds(l, a) { assert (lits + [l])[|lits|] == l; }
    }
  }

  /** What the next literal of a clause does to the meaning. */
  lemma NextLiteral(table: Table, root: Root, c: seq<BoolLit>, k: nat, lits: seq<Lit>)
    requires RootOk(table, root) && k < |c| && IsBool(table, c[k].v) && SameMeaning(table, root, c[..k], lits)
    ensures
      var t := ToLit(table, root, c[k]);
      && ConstOk(t, |table|)
      && (t.False? || (t.IsLit? && (LitValue(root, t.lit) == No || t.lit in lits)) ==>
          SameMeaning(table, root, c[..k + 1], lits))
      && (t.True? || (t.IsLit? && (LitValue(root, t.lit) == Yes || t.lit.Negate() in lits)) ==>
          AlwaysHolds(table, root, c))
      && (t.IsLit? ==> SameMeaning(table, root, c[..k + 1], lits + [t.lit]))
  {
    var t := ToLit(table, root, c[k]);
    assert c[..k + 1] == c[..k] + [c[k]];
    assert AllBool(table, c[..k + 1]);
    forall a | InRoot(a, root)
      ensures BoolClauseHolds(c[..k + 1], a) <==> ClauseHolds(lits, a) || ConstHolds(t, a)
      ensures t.IsLit? ==> (ClauseHolds(lits + [t.lit], a) <==> ClauseHolds(lits, a) || Holds(t.lit, a))
      ensures t.IsLit? && LitValue(root, t.lit) == No ==> !Holds(t.lit, a)
      ensures t.IsLit? && LitValue(root, t.lit) == Yes ==> Holds(t.lit, a)
      ensures t.IsLit? && t.lit in lits && Holds(t.lit, a) ==> ClauseHolds(lits, a)
      ensures t.IsLit? && t.lit.Negate() in lits && !Holds(t.lit, a) ==> ClauseHolds(lits, a)
    {
      assert forall i | 0 <= i <= k :: c[i] == c[..k + 1][i];
      AppendMeaning(c, k, lits, a);
      ToLitMeans(table, root, c[k], a);
      if t.IsLit? { LitValueMeans(root, t.lit, a); }
    }
    if t.True? || (t.IsLit? && (LitValue(root, t.lit) == Yes || t.lit.Negate() in lits)) {
      assert forall a {:trigger InRoot(a, root)} | InRoot(a, root) :: BoolClauseHolds(c[..k + 1], a);
    }
  }

  /**
   Drop root-false and repeated literals, and the whole clause when it is true
   at the root or a tautology.
   */
  method NormalizeBoolClause(table: Table, root: Root, c: seq<BoolLit>) returns (r: Normal)
    requires RootOk(table, root)
    ensures r.NonBoolean? ==> !IsBool(table, r.v) && exists i :: 0 <= i < |c| && c[i].v == r.v
    ensures r.Satisfied? ==> AlwaysHolds(table, root, c)
    ensures r.Clause? ==> SameMeaning(table, root, c, r.lits) && Reduced(root, r.lits) && |r.lits| <= |c|
  {
    var lits: seq<Lit> := [];
    for k := 0 to |c|
      invariant SameMeaning(table, root, c[..k], lits) && Reduced(root, lits) && |lits| <= k
    {
      if !IsBool(table, c[k].v) { return NonBoolean(c[k].v); }
      NextLiteral(table, root, c, k, lits);
      match ToLit(table, root, c[k])
      case True => return Satisfied;
      case False =>
      case IsLit(l) =>
        match LitValue(root, l)
        case Yes => return Satisfied;
        case No =>
        case Unknown =>
          if l !in lits {
            if l.Negate() in lits { return Satisfied; }
            lits := lits + [l];
          }
    }
    assert c[..|c|] == c;
    return Clause(lits);
  }
}
