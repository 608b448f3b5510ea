/** Temporary assumptions and cores over them (src/search.rs). */
module Assumptions {
  import opened Common
  import opened Literals

  datatype Op = Eq | Ne | Le | Lt | Ge | Gt

  datatype Assumption = Assumption(v: VarId, op: Op, value: int)

  predicate Meets(s: Assumption, a: Assignment)
    requires s.v < |a|
  {
    match s.op
    case Eq => a[s.v] == s.value
    case Ne => a[s.v] != s.value
    case Le => a[s.v] <= s.value
    case Lt => a[s.v] < s.value
    case Ge => a[s.v] >= s.value
    case Gt => a[s.v] > s.value
  }

  function Opposite(c: LitOrConst): LitOrConst {
    match c
    case IsLit(l) => IsLit(l.Negate())
    case True => False
    case False => True
  }

  /** The literal of an assumption; upper bounds and exclusions are negated literals. */
  function AssumptionLit(table: Table, s: Assumption): LitOrConst
    requires s.v < |table|
  {
    match s.op
    case Eq => EqLit(table, s.v, s.value)
    case Ne => Opposite(EqLit(table, s.v, s.value))
    case Ge => GeLit(table, s.v, s.value)
    case Gt => GeLit(table, s.v, s.value + 1)
    case Le => Opposite(GeLit(table, s.v, s.value + 1))
    case Lt => Opposite(GeLit(table, s.v, s.value))
  }

  lemma AssumptionLitMeans(table: Table, s: Assumption, a: Assignment)
    requires TableOk(table) && Supported(table, a) && s.v < |table|
    ensures ConstHolds(AssumptionLit(table, s), a) <==> Meets(s, a)
  {
    LiteralsMean(table, a, s.v, s.value);
    LiteralsMean(table, a, s.v, s.value + 1);
  }

  ghost predicate InTable(table: Table, ss: seq<Assumption>) { forall i | 0 <= i < |ss| :: ss[i].v < |table| }

  ghost predicate CubeOk(cube: seq<Lit>, n: nat) { forall i | 0 <= i < |cube| :: cube[i].atom.v < n }

  ghost predicate CubeHolds(cube: seq<Lit>, a: Assignment)
    requires CubeOk(cube, |a|)
  {
    forall i | 0 <= i < |cube| :: Holds(cube[i], a)
  }

  ghost predicate AllMet(ss: seq<Assumption>, a: Assignment)
    requires forall i | 0 <= i < |ss| :: ss[i].v < |a|
  {
    forall i | 0 <= i < |ss| :: Meets(ss[i], a)
  }

  /** One of the first `j` assumptions is the literal `l`. */
  ghost predicate Named(table: Table, ss: seq<Assumption>, j: nat, l: Lit)
    requires InTable(table, ss) && j <= |ss|
  {
    exists i :: 0 <= i < j && AssumptionLit(table, ss[i]) == IsLit(l)
  }

  lemma NamedStep(table: Table, ss: seq<Assumption>, j: nat, l: Lit)
    requires InTable(table, ss) && j < |ss|
    ensures Named(table, ss, j + 1, l) <==> Named(table, ss, j, l) || AssumptionLit(table, ss[j]) == IsLit(l)
  {
  }

  /** Assumption `j` is false on its own, or names the opposite of an earlier literal. */
  ghost predicate Clashes(table: Table, ss: seq<Assumption>, j: nat)
    requires InTable(table, ss) && j < |ss|
  {
    var c := AssumptionLit(table, ss[j]);
    c.False? || (c.IsLit? && Named(table, ss, j, c.lit.Negate()))
  }

  /** `cube` lists the literals of the first `j` assumptions once each, and none of them clashes. */
  ghost predicate Names(table: Table, ss: seq<Assumption>, j: nat, cube: seq<Lit>)
    requires InTable(table, ss) && j <= |ss|
  {
    && CubeOk(cube, |table|) && Distinct(cube)
    && (forall l {:trigger l in cube} :: l in cube <==> Named(table, ss, j, l))
    && (forall i {:trigger Clashes(table, ss, i)} | 0 <= i < j :: !Clashes(table, ss, i))
  }

  lemma NamesStep(table: Table, ss: seq<Assumption>, j: nat, cube: seq<Lit>)
    requires TableOk(table) && InTable(table, ss) && j < |ss| && Names(table, ss, j, cube)
    ensures
      var c := AssumptionLit(table, ss[j]);
      && (c.False? ==> Clashes(table, ss, j))
      && (c.True? ==> Names(table, ss, j + 1, cube))
      && (c.IsLit? && c.lit in cube ==> Names(table, ss, j + 1, cube))
      && (c.IsLit? && c.lit.Negate() in cube ==> Clashes(table, ss, j))
      && (c.IsLit? && c.lit !in cube && c.lit.Negate() !in cube ==> Names(table, ss, j + 1, cube + [c.lit]))
  {
    var c := AssumptionLit(table, ss[j]);
    forall l ensures Named(table, ss, j + 1, l) <==> Named(table, ss, j, l) || c == IsLit(l) {
      NamedStep(table, ss, j, l);
    }
    if c.IsLit? && c.lit in cube { NoClash(table, ss, j); }
  }

  /**
   The cube of the assumptions: it holds exactly when all of them do, and there
   is none exactly when one folds to false or two name opposite literals.
   */
  method AssumptionCube(table: Table, ss: seq<Assumption>) returns (r: Option<seq<Lit>>)
    requires TableOk(table) && InTable(table, ss)
    ensures r.Some? ==> CubeOk(r.value, |table|) && Distinct(r.value)
    ensures r.Some? ==> forall a | Supported(table, a) :: CubeHolds(r.value, a) <==> AllMet(ss, a)
    ensures r.None? ==> forall a | Supported(table, a) :: !AllMet(ss, a)
    ensures r.None? <==> exists j :: 0 <= j < |ss| && Clashes(table, ss, j)
  {
    var cube: seq<Lit> := [];
    for j := 0 to |ss|
      invariant Names(table, ss, j, cube)
    {
      NamesStep(table, ss, j, cube);
      var c := AssumptionLit(table, ss[j]);
      if c.False? {
        ClashIsUnsatisfiable(table, ss, j);
        return None;
      }
      if c.IsLit? && c.lit !in cube {
        if c.lit.Negate() in cube {
          ClashIsUnsatisfiable(table, ss, j);
          return None;
        }
        cube := cube + [c.lit];
      }
    }
    CubeMeans(table, ss, cube);
    return Some(cube);
  }

  /** A literal that was already assumed without a clash has no opposite among the earlier ones. */
  lemma NoClash(table: Table, ss: seq<Assumption>, j: nat)
    requires InTable(table, ss) && j < |ss| && AssumptionLit(table, ss[j]).IsLit?
    requires Named(table, ss, j, AssumptionLit(table, ss[j]).lit)
    requires forall i | 0 <= i < j :: !Clashes(table, ss, i)
    ensures !Clashes(table, ss, j)
  {
    var l := AssumptionLit(table, ss[j]).lit;
    var i :| 0 <= i < j && AssumptionLit(table, ss[i]) == IsLit(l);
    forall k | 0 <= k < j ensures AssumptionLit(table, ss[k]) != IsLit(l.Negate()) {
      assert !Clashes(table, ss, i) && !Clashes(table, ss, k);
      assert l.Negate().Negate() == l;
    }
  }

  lemma ClashIsUnsatisfiable(table: Table, ss: seq<Assumption>, j: nat)
    requires TableOk(table) && InTable(table, ss) && j < |ss| && Clashes(table, ss, j)
    ensures forall a | Supported(table, a) :: !AllMet(ss, a)
  {
    forall a | Supported(table, a) ensures !AllMet(ss, a) {
      AssumptionLitMeans(table, ss[j], a);
      var c := AssumptionLit(table, ss[j]);
      if c.IsLit? {
        var i :| 0 <= i < j && AssumptionLit(table, ss[i]) == IsLit(c.lit.Negate());
        AssumptionLitMeans(table, ss[i], a);
      }
    }
  }

  lemma CubeMeans(table: Table, ss: seq<Assumption>, cube: seq<Lit>)
    requires TableOk(table) && InTable(table, ss) && Names(table, ss, |ss|, cube)
    ensures forall a | Supported(table, a) :: CubeHolds(cube, a) <==> AllMet(ss, a)
  {
    forall a | Supported(table, a) ensures CubeHolds(cube, a) <==> AllMet(ss, a) {
      forall i | 0 <= i < |ss| ensures Meets(ss[i], a) <==> ConstHolds(AssumptionLit(table, ss[i]), a) {
        AssumptionLitMeans(table, ss[i], a);
      }
      if CubeHolds(cube, a) {
        forall i | 0 <= i < |ss| ensures Meets(ss[i], a) {
          assert !Clashes(table, ss, i);
          var c := AssumptionLit(table, ss[i]);
          if c.IsLit? { assert Named(table, ss, |ss|, c.lit) && c.lit in cube; }
        }
      }
      if AllMet(ss, a) {
        forall k | 0 <= k < |cube| ensures Holds(cube[k], a) {
          assert cube[k] in cube;
          var i :| 0 <= i < |ss| && AssumptionLit(table, ss[i]) == IsLit(cube[k]);
          assert Meets(ss[i], a);
        }
      }
    }
  }

  /** Two different values of one variable: a cube with no solution that is still returned. */
  lemma UnsatisfiableCubeAccepted()
    ensures
      var table, ss := [Span(0, 5)], [Assumption(0, Eq, 1), Assumption(0, Eq, 2)];
      && InTable(table, ss) && (forall j | 0 <= j < |ss| :: !Clashes(table, ss, j))
      && forall a | Supported(table, a) :: !AllMet(ss, a)
  {
    var table, ss := [Span(0, 5)], [Assumption(0, Eq, 1), Assumption(0, Eq, 2)];
    forall j | 0 <= j < |ss| ensures !Clashes(table, ss, j) {
      assert ss[j] == ss[0] || ss[j] == ss[1];
    }
    forall a | Supported(table, a) ensures !AllMet(ss, a) {
      assert Meets(ss[0], a) ==> !Meets(ss[1], a);
    }
  }
}
