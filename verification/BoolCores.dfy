/** Solving under a Boolean cube and mapping the engine's core back (src/search.rs). */
module BoolCores {
  import opened Common
  import opened Literals
  import opened BoolClauses

  datatype Answer = Model(a: Assignment) | Core(lits: seq<Lit>) | Interrupted

  /** The engine under assumption literals. */
  type Query = seq<Lit> -> Answer

  ghost predicate LitsHold(lits: seq<Lit>, a: Assignment)
    requires LitsInRange(lits, |a|)
  {
    forall i | 0 <= i < |lits| :: Holds(lits[i], a)
  }

  /** A model satisfies the constraints and the cube; a core comes from the cube and is inconsistent. */
  ghost predicate SoundQuery(query: Query, theory: Theory, root: Root) {
    forall cube {:trigger query(cube)} | LitsInRange(cube, |root|) ::
      match query(cube)
      case Model(a) => InRoot(a, root) && theory(a) && LitsHold(cube, a)
      case Core(lits) =>
        && (forall l | l in lits :: l in cube)
        && LitsInRange(lits, |root|)
        && forall a {:trigger InRoot(a, root)} | InRoot(a, root) && theory(a) :: !LitsHold(lits, a)
      case Interrupted => true
  }

  datatype Result = Sat(a: Assignment) | Unsat(core: seq<BoolLit>) | Stopped | Malformed(v: VarId)

  ghost predicate BoolsHold(cube: seq<BoolLit>, a: Assignment)
    requires forall i | 0 <= i < |cube| :: cube[i].v < |a|
  {
    forall i | 0 <= i < |cube| :: BoolHolds(cube[i], a)
  }

  /** `b` is a cube member whose literal is `l`. */
  ghost predicate Backs(table: Table, root: Root, cube: seq<BoolLit>, l: Lit, b: BoolLit)
    requires |root| == |table|
  {
    b in cube && IsBool(table, b.v) && ToLit(table, root, b) == IsLit(l)
  }

  /** `b` holds whenever the literals do. */
  ghost predicate Covered(table: Table, root: Root, lits: seq<Lit>, b: BoolLit)
    requires |root| == |table|
  {
    && IsBool(table, b.v)
    && match ToLit(table, root, b)
       case True => true
       case False => false
       case IsLit(l) => l in lits
  }

  /** The translated cube with its reverse map, after the first `k` members. */
  ghost predicate Translated(table: Table, root: Root, cube: seq<BoolLit>, k: nat, lits: seq<Lit>,
      reverse: seq<BoolLit>)
    requires k <= |cube| && |root| == |table|
  {
    && |lits| == |reverse| && LitsInRange(lits, |table|)
    && (forall j {:trigger reverse[j]} {:trigger lits[j]} | 0 <= j < |lits| ::
        Backs(table, root, cube, lits[j], reverse[j]))
    && (forall i {:trigger cube[i]} | 0 <= i < k :: Covered(table, root, lits, cube[i]))
  }

  /** The query's literals: those of the cube, each once, without the ones that always hold. */
  ghost predicate Assumed(table: Table, root: Root, cube: seq<BoolLit>, lits: seq<Lit>)
    requires |root| == |table|
  {
    && Distinct(lits) && LitsInRange(lits, |table|)
    && (forall l | l in lits :: exists b :: Backs(table, root, cube, l, b))
    && (forall b | b in cube :: Covered(table, root, lits, b))
  }

  lemma TranslatedIsAssumed(table: Table, root: Root, cube: seq<BoolLit>, lits: seq<Lit>, reverse: seq<BoolLit>)
    requires |root| == |table| && Translated(table, root, cube, |cube|, lits, reverse) && Distinct(lits)
    ensures Assumed(table, root, cube, lits)
  {
    forall l | l in lits ensures exists b :: Backs(table, root, cube, l, b) {
      var j :| 0 <= j < |lits| && lits[j] == l;
      assert Backs(table, root, cube, lits[j], reverse[j]);
    }
  }

  /** The answer is the query's, a core being mapped back literal by literal; or a member of the cube is impossible. */
  ghost predicate AnswersQuery(table: Table, root: Root, query: Query, cube: seq<BoolLit>, r: Result)
    requires |root| == |table|
  {
    || (r.Unsat? && |r.core| == 1 && r.core[0] in cube && IsBool(table, r.core[0].v)
        && ToLit(table, root, r.core[0]) == False)
    || (exists lits :: Assumed(table, root, cube, lits) && Relays(table, root, cube, query(lits), r))
  }

  ghost predicate Relays(table: Table, root: Root, cube: seq<BoolLit>, answer: Answer, r: Result)
    requires |root| == |table|
  {
    match answer
    case Model(a) => r == Sat(a)
    case Interrupted => r == Stopped
    case Core(lits) =>
      r.Unsat? && |r.core| == |lits| && forall i | 0 <= i < |lits| :: Backs(table, root, cube, lits[i], r.core[i])
  }

  lemma TranslateLit(table: Table, root: Root, cube: seq<BoolLit>, k: nat, lits: seq<Lit>, reverse: seq<BoolLit>)
    requires RootOk(table, root) && k < |cube| && IsBool(table, cube[k].v)
        && Translated(table, root, cube, k, lits, reverse)
    ensures
      var t := ToLit(table, root, cube[k]);
      && (t.True? || (t.IsLit? && t.lit in lits) ==> Translated(table, root, cube, k + 1, lits, reverse))
      && (t.IsLit? ==> Translated(table, root, cube, k + 1, lits + [t.lit], reverse + [cube[k]]))
  {
    var t := ToLit(table, root, cube[k]);
    if t.IsLit? {
      assert cube[k] in cube;
      var lits' := lits + [t.lit];
      forall i | 0 <= i < k + 1 ensures Covered(table, root, lits', cube[i]) {
        if i < k { assert Covered(table, root, lits, cube[i]); }
      }
    }
  }

  /** The first reverse entry of a literal. */
  function Back(lits: seq<Lit>, reverse: seq<BoolLit>, l: Lit): (b: BoolLit)
    requires |lits| == |reverse| && l in lits
    ensures exists j :: 0 <= j < |lits| && lits[j] == l && reverse[j] == b
    decreases |lits|
  {
    if lits[0] == l then reverse[0] else Back(lits[1..], reverse[1..], l)
  }

  /**
   An unsatisfiable answer is a part of the caller's cube that no assignment of
   the constraints satisfies; a satisfiable one meets the whole cube.
   */
  method SolveUnderAssumptions(table: Table, root: Root, theory: Theory, query: Query, cube: seq<BoolLit>)
      returns (r: Result)
    requires RootOk(table, root) && SoundQuery(query, theory, root)
    requires forall i | 0 <= i < |cube| :: cube[i].v < |table|
    ensures r.Sat? ==> InRoot(r.a, root) && theory(r.a) && BoolsHold(cube, r.a)
    ensures r.Unsat? ==>
              && (forall b | b in r.core :: b in cube)
              && (forall i | 0 <= i < |r.core| :: r.core[i].v < |table|)
              && forall a {:trigger InRoot(a, root)} | InRoot(a, root) && theory(a) :: !BoolsHold(r.core, a)
    ensures r.Malformed? ==> !IsBool(table, r.v) && exists i :: 0 <= i < |cube| && cube[i].v == r.v
    ensures !r.Malformed? ==> AnswersQuery(table, root, query, cube, r)
  {
    var lits: seq<Lit>, reverse: seq<BoolLit> := [], [];
    for k := 0 to |cube|
      invariant Translated(table, root, cube, k, lits, reverse) && Distinct(lits)
    {
      var b := cube[k];
      if !IsBool(table, b.v) { return Malformed(b.v); }
      TranslateLit(table, root, cube, k, lits, reverse);
      match ToLit(table, root, b)
      case True =>
      case False =>
        ImpossibleAlone(table, root, b);
        return Unsat([b]);
      case IsLit(l) =>
        if l !in lits {
          lits, reverse := lits + [l], reverse + [b];
        }
    }
    TranslatedIsAssumed(table, root, cube, lits, reverse);
    match query(lits)
    case Model(a) =>
      CubeFollows(table, root, cube, lits, reverse, a);
      return Sat(a);
    case Interrupted =>
      assert Relays(table, root, cube, query(lits), Stopped);
      return Stopped;
    case Core(core) =>
      var mapped := seq(|core|, i requires 0 <= i < |core| => Back(lits, reverse, core[i]));
      CoreMapsBack(table, root, theory, cube, lits, reverse, core, mapped);
      return Unsat(mapped);
  }

  lemma ImpossibleAlone(table: Table, root: Root, b: BoolLit)
    requires RootOk(table, root) && IsBool(table, b.v) && ToLit(table, root, b).False?
    ensures forall a {:trigger InRoot(a, root)} | InRoot(a, root) :: !BoolsHold([b], a)
  {
    forall a | InRoot(a, root) ensures !BoolsHold([b], a) {
      ToLitMeans(table, root, b, a);
      assert !BoolHolds([b][0], a);
    }
  }

  lemma CubeFollows(table: Table, root: Root, cube: seq<BoolLit>, lits: seq<Lit>, reverse: seq<BoolLit>, a: Assignment)
    requires RootOk(table, root) && InRoot(a, root) && forall i | 0 <= i < |cube| :: cube[i].v < |table|
    requires Translated(table, root, cube, |cube|, lits, reverse) && LitsHold(lits, a)
    ensures BoolsHold(cube, a)
  {
    forall i | 0 <= i < |cube| ensures BoolHolds(cube[i], a) {
      assert Covered(table, root, lits, cube[i]);
      ToLitMeans(table, root, cube[i], a);
    }
  }

  lemma CoreMapsBack(table: Table, root: Root, theory: Theory, cube: seq<BoolLit>, lits: seq<Lit>,
                     reverse: seq<BoolLit>,
                     core: seq<Lit>, mapped: seq<BoolLit>)
    requires RootOk(table, root) && Translated(table, root, cube, |cube|, lits, reverse) && LitsInRange(core, |root|)
    requires |mapped| == |core| && forall i | 0 <= i < |core| ::
        core[i] in lits && mapped[i] == Back(lits, reverse, core[i])
    requires forall a {:trigger InRoot(a, root)} | InRoot(a, root) && theory(a) :: !LitsHold(core, a)
    ensures forall i | 0 <= i < |mapped| :: mapped[i] in cube && mapped[i].v < |table|
    ensures forall i | 0 <= i < |mapped| :: Backs(table, root, cube, core[i], mapped[i])
    ensures forall a {:trigger InRoot(a, root)} | InRoot(a, root) && theory(a) :: !BoolsHold(mapped, a)
  {
    forall i | 0 <= i < |mapped| ensures Backs(table, root, cube, core[i], mapped[i]) {
      var j :| 0 <= j < |lits| && lits[j] == core[i] && reverse[j] == mapped[i];
      assert Backs(table, root, cube, lits[j], reverse[j]);
    }
    forall a | InRoot(a, root) && theory(a) ensures !BoolsHold(mapped, a) {
      var i :| 0 <= i < |core| && !Holds(core[i], a);
      assert Backs(table, root, cube, core[i], mapped[i]);
      ToLitMeans(table, root, mapped[i], a);
      assert !BoolHolds(mapped[i], a);
    }
  }
}
