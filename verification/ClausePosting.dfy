/**
 Posting Boolean clauses into a learning engine whose root knowledge grows as
 units are asserted, and cores over Boolean assumptions (src/search.rs).
 */
module ClausePosting {
  import opened Common
  import opened Literals
  import opened BoolClauses

  /** Root propagation and learning: a smaller box, or none when the store is refuted. */
  type Inference = (Root, seq<Lit>, seq<seq<Lit>>) -> Option<Root>

  ghost predicate StoreOk(units: seq<Lit>, clauses: seq<seq<Lit>>, n: nat) {
    LitsInRange(units, n) && forall i | 0 <= i < |clauses| :: LitsInRange(clauses[i], n)
  }

  /** The asserted units and stored clauses hold. */
  ghost predicate StoreHolds(units: seq<Lit>, clauses: seq<seq<Lit>>, a: Assignment)
    requires StoreOk(units, clauses, |a|)
  {
    && (forall i | 0 <= i < |units| :: Holds(units[i], a))
    && (forall i | 0 <= i < |clauses| :: ClauseHolds(clauses[i], a))
  }

  ghost predicate Narrows(before: Root, after: Root) {
    |before| == |after| && forall v | 0 <= v < |before| :: after[v] <= before[v]
  }

  /** Inference loses no assignment that satisfies the theory and the store. */
  ghost predicate SoundInference(infer: Inference, theory: Theory) {
    forall root, units, clauses {:trigger infer(root, units, clauses)} | StoreOk(units, clauses, |root|) ::
      && (infer(root, units, clauses).Some? ==> Narrows(root, infer(root, units, clauses).value))
      && forall a {:trigger InRoot(a, root)} | InRoot(a, root) && theory(a) && StoreHolds(units, clauses, a) ::
           infer(root, units, clauses).Some? && InRoot(a, infer(root, units, clauses).value)
  }

  /** No variable has lost all its values. */
  ghost predicate Live(root: Root) { forall v | 0 <= v < |root| :: root[v] != {} }

  /** The units from position `from` on are true throughout the root box. */
  ghost predicate UnitsTrue(root: Root, units: seq<Lit>, from: nat)
    requires LitsInRange(units, |root|)
  {
    forall i, a {:trigger Holds(units[i], a)} | from <= i < |units| && InRoot(a, root) :: Holds(units[i], a)
  }

  /** Inference that does not fail applies every asserted unit. */
  ghost predicate Applies(infer: Inference) {
    forall root, units, clauses {:trigger infer(root, units, clauses)} | StoreOk(units, clauses, |root|) ::
      match infer(root, units, clauses)
      case None => true
      case Some(next) => |next| == |root| && Live(next) && UnitsTrue(next, units, 0)
  }

  ghost predicate InputsOk(inputs: seq<seq<BoolLit>>, n: nat) {
    forall i | 0 <= i < |inputs| :: InputOk(inputs[i], n)
  }

  ghost predicate InputOk(c: seq<BoolLit>, n: nat) { forall j | 0 <= j < |c| :: c[j].v < n }

  ghost predicate InputsHold(inputs: seq<seq<BoolLit>>, a: Assignment)
    requires InputsOk(inputs, |a|)
  {
    forall i | 0 <= i < |inputs| :: InputOk(inputs[i], |a|) && BoolClauseHolds(inputs[i], a)
  }

  datatype Posting = Posted | Unsatisfiable | NotBoolean(v: VarId)

  /** Every clause literal list posted so far means what the inputs so far mean. */
  ghost predicate Equivalent(initial: Root, theory: Theory, base: (seq<Lit>, seq<seq<Lit>>), inputs: seq<seq<BoolLit>>,
                             units: seq<Lit>, clauses: seq<seq<Lit>>)
    requires InputsOk(inputs, |initial|) && StoreOk(base.0, base.1, |initial|) && StoreOk(units, clauses, |initial|)
  {
    forall a {:trigger InRoot(a, initial)} | InRoot(a, initial) && theory(a) ::
      StoreHolds(base.0, base.1, a) && InputsHold(inputs, a) <==> StoreHolds(units, clauses, a)
  }

  /** Nothing the store allows has been lost from the root box. */
  ghost predicate RootCovers(initial: Root, theory: Theory, root: Root, units: seq<Lit>, clauses: seq<seq<Lit>>)
    requires StoreOk(units, clauses, |initial|)
  {
    forall a {:trigger InRoot(a, initial)} | InRoot(a, initial) && theory(a) && StoreHolds(units, clauses, a) ::
        InRoot(a, root)
  }

  lemma UnitAppend(units: seq<Lit>, clauses: seq<seq<Lit>>, l: Lit, a: Assignment)
    requires StoreOk(units, clauses, |a|) && l.atom.v < |a|
    ensures StoreHolds(units + [l], clauses, a) <==> StoreHolds(units, clauses, a) && Holds(l, a)
  {
    if StoreHolds(units + [l], clauses, a) {
      assert forall i | 0 <= i < |units| :: (units + [l])[i] == units[i];
      assert (units + [l])[|units|] == l;
    }
  }

  lemma ClauseAppend(units: seq<Lit>, clauses: seq<seq<Lit>>, c: seq<Lit>, a: Assignment)
    requires StoreOk(units, clauses, |a|) && LitsInRange(c, |a|)
    ensures StoreHolds(units, clauses + [c], a) <==> StoreHolds(units, clauses, a) && ClauseHolds(c, a)
  {
    if StoreHolds(units, clauses + [c], a) {
      assert forall i | 0 <= i < |clauses| :: (clauses + [c])[i] == clauses[i];
      assert (clauses + [c])[|clauses|] == c;
    }
  }

  lemma InputsAppend(inputs: seq<seq<BoolLit>>, k: nat, a: Assignment)
    requires k < |inputs| && InputsOk(inputs, |a|)
    ensures InputsHold(inputs[..k + 1], a) <==> InputsHold(inputs[..k], a) && BoolClauseHolds(inputs[k], a)
  {
    assert InputOk(inputs[k], |a|);
    assert inputs[..k + 1] == inputs[..k] + [inputs[k]];
    if InputsHold(inputs[..k + 1], a) {
      assert inputs[..k + 1][k] == inputs[k];
      assert forall i | 0 <= i < k :: inputs[..k][i] == inputs[..k + 1][i];
    }
  }

  lemma PrefixHolds(c: seq<BoolLit>, k: nat, a: Assignment)
    requires k <= |c| && InputOk(c, |a|) && BoolClauseHolds(c[..k], a)
    ensures BoolClauseHolds(c, a)
  {
    var i :| 0 <= i < k && BoolHolds(c[..k][i], a);
    assert BoolHolds(c[i], a);
  }

  // --- where each input clause went -------------------------------------------------------

  /** The clause is true throughout the root box. */
  ghost predicate TrueThroughout(root: Root, c: seq<BoolLit>)
    requires InputOk(c, |root|)
  {
    forall a | InRoot(a, root) :: BoolClauseHolds(c, a)
  }

  /** `stored` is a proper clause, no longer than `c`, that means what `c` means in the root box. */
  ghost predicate StandsFor(root: Root, stored: seq<Lit>, c: seq<BoolLit>)
    requires InputOk(c, |root|) && LitsInRange(stored, |root|)
  {
    && 2 <= |stored| <= |c|
    && forall a | InRoot(a, root) :: ClauseHolds(stored, a) <==> BoolClauseHolds(c, a)
  }

  /** Every posted clause was made true at the root or is stored as a clause of at least two literals. */
  ghost predicate Accounted(root: Root, clauses: seq<seq<Lit>>, from: nat, inputs: seq<seq<BoolLit>>)
    requires InputsOk(inputs, |root|) && forall i | 0 <= i < |clauses| :: LitsInRange(clauses[i], |root|)
  {
    forall i | 0 <= i < |inputs| :: AccountedOne(root, clauses, from, inputs[i])
  }

  ghost predicate AccountedOne(root: Root, clauses: seq<seq<Lit>>, from: nat, c: seq<BoolLit>)
    requires forall i | 0 <= i < |clauses| :: LitsInRange(clauses[i], |root|)
  {
    && InputOk(c, |root|)
    && (TrueThroughout(root, c) || exists j :: from <= j < |clauses| && StandsFor(root, clauses[j], c))
  }

  lemma AccountedLater(root: Root, clauses: seq<seq<Lit>>, next: Root, more: seq<seq<Lit>>, from: nat, c: seq<BoolLit>)
    requires (forall i | 0 <= i < |more| :: LitsInRange(more[i], |root|)) && clauses <= more && Narrows(root, next)
    requires (forall i | 0 <= i < |clauses| :: LitsInRange(clauses[i], |root|)) && AccountedOne(root, clauses, from, c)
    ensures AccountedOne(next, more, from, c)
  {
    assert forall a | InRoot(a, next) :: InRoot(a, root);
    if !TrueThroughout(root, c) {
      var j :| from <= j < |clauses| && StandsFor(root, clauses[j], c);
      assert StandsFor(next, more[j], c);
    }
  }

  lemma AllAccountedLater(root: Root, clauses: seq<seq<Lit>>, next: Root, more: seq<seq<Lit>>, from: nat,
      inputs: seq<seq<BoolLit>>, k: nat)
    requires k < |inputs| && InputsOk(inputs, |root|) && Narrows(root, next) && clauses <= more
    requires forall i | 0 <= i < |more| :: LitsInRange(more[i], |root|)
    requires forall i | 0 <= i < |clauses| :: LitsInRange(clauses[i], |root|)
    requires Accounted(root, clauses, from, inputs[..k]) && AccountedOne(next, more, from, inputs[k])
    ensures Accounted(next, more, from, inputs[..k + 1])
  {
    var upto := inputs[..k + 1];
    forall i | 0 <= i < |upto| ensures AccountedOne(next, more, from, upto[i]) {
      if i < k {
        assert inputs[..k][i] == inputs[i];
        AccountedLater(root, clauses, next, more, from, inputs[i]);
      }
    }
  }

  ghost predicate ProperFrom(clauses: seq<seq<Lit>>, from: nat) {
    forall i | from <= i < |clauses| :: |clauses[i]| >= 2
  }

  /** The root box has applied the units posted so far and accounts for the clauses posted so far. */
  ghost predicate Tracked(root: Root, units: seq<Lit>, unitsFrom: nat, clauses: seq<seq<Lit>>, from: nat,
      inputs: seq<seq<BoolLit>>)
  {
    && StoreOk(units, clauses, |root|) && InputsOk(inputs, |root|)
    && Live(root) && UnitsTrue(root, units, unitsFrom) && Accounted(root, clauses, from, inputs)
  }

  /** Two unit clauses of opposite literals. */
  ghost predicate Clashing(inputs: seq<seq<BoolLit>>) {
    exists i, j ::
      0 <= i < |inputs| && 0 <= j < |inputs| && |inputs[i]| == 1 && |inputs[j]| == 1
      && inputs[j][0] == BoolLit(inputs[i][0].v, !inputs[i][0].value)
  }

  /** A live root cannot account for opposite units. */
  lemma ClashUntracked(root: Root, units: seq<Lit>, unitsFrom: nat, clauses: seq<seq<Lit>>, from: nat,
      inputs: seq<seq<BoolLit>>)
    requires Tracked(root, units, unitsFrom, clauses, from, inputs)
    ensures !Clashing(inputs)
  {
    var a := Somewhere(root);
    forall i, j | 0 <= i < |inputs| && 0 <= j < |inputs| && |inputs[i]| == 1 && |inputs[j]| == 1
      ensures inputs[j][0] != BoolLit(inputs[i][0].v, !inputs[i][0].value)
    {
      assert AccountedOne(root, clauses, from, inputs[i]) && AccountedOne(root, clauses, from, inputs[j]);
      assert BoolClauseHolds(inputs[i], a) && BoolClauseHolds(inputs[j], a);
      assert BoolHolds(inputs[i][0], a) && BoolHolds(inputs[j][0], a);
    }
  }

  ghost function Somewhere(root: Root): (a: Assignment)
    requires Live(root)
    ensures InRoot(a, root)
  {
    seq(|root|, v requires 0 <= v < |root| => Pick(root[v]))
  }

  ghost function Pick(s: set<int>): (x: int)
    requires s != {}
    ensures x in s
  {
    assert (forall x :: x !in s) ==> s == {};
    var x :| x in s;
    x
  }

  class Engine {
    const table: Table
    const theory: Theory
    const infer: Inference
    const initial: Root
    var root: Root
    var units: seq<Lit>
    var clauses: seq<seq<Lit>>

    ghost predicate Valid()
      reads this
    {
      && RootOk(table, initial) && RootOk(table, root) && Narrows(initial, root)
      && SoundInference(infer, theory)
      && StoreOk(units, clauses, |table|)
      && RootCovers(initial, theory, root, units, clauses)
    }

    constructor (table: Table, theory: Theory, infer: Inference, initial: Root)
      requires RootOk(table, initial) && SoundInference(infer, theory)
      ensures Valid() && units == [] && clauses == []
      ensures this.table == table && this.theory == theory && this.infer == infer && this.initial == initial
          && root == initial
    {
      this.table, this.theory, this.infer, this.initial := table, theory, infer, initial;
      root, units, clauses := initial, [], [];
    }

    method AddClause(c: seq<Lit>)
      requires Valid() && LitsInRange(c, |table|)
      modifies `clauses
      ensures Valid() && clauses == old(clauses) + [c]
    {
      forall a | InRoot(a, initial) ensures StoreHolds(units, clauses + [c], a) ==> StoreHolds(units, clauses, a) {
        ClauseAppend(units, clauses, c, a);
      }
      clauses := clauses + [c];
    }

    /** Assert a root unit and propagate; failure means no assignment is left. */
    method AssertRootLit(l: Lit) returns (ok: bool)
      requires Valid() && l.atom.v < |table|
      modifies `units, `root
      ensures units == old(units) + [l] && StoreOk(units, clauses, |table|)
      ensures ok ==> Valid() && Narrows(old(root), root) && (Applies(infer) ==> Live(root) && UnitsTrue(root, units, 0))
      ensures !ok ==> forall a {:trigger InRoot(a, initial)} | InRoot(a, initial) && theory(a) ::
          !StoreHolds(units, clauses, a)
    {
      forall a | InRoot(a, initial) && theory(a) && StoreHolds(units + [l], clauses, a) ensures InRoot(a, root) {
        UnitAppend(units, clauses, l, a);
      }
      units := units + [l];
      ghost var before := root;
      match infer(root, units, clauses)
      case None =>
        ok := false;
      case Some(next) =>
        assert Narrows(before, next);
        root := next;
        ok := true;
    }

    /**
     Post clauses one by one. Whenever posting succeeds the store allows exactly
     what the earlier store and the inputs allow; failure means they allow nothing.
     */
    method PostNativeBoolClauses(vars: seq<VarId>, inputs: seq<seq<BoolLit>>) returns (r: Posting)
      requires Valid() && InputsOk(inputs, |table|) && forall i | 0 <= i < |vars| :: vars[i] < |table|
      modifies this
      ensures StoreOk(units, clauses, |table|)
      ensures r.Posted? ==> Valid() && Equivalent(initial, theory, (old(units), old(clauses)), inputs, units, clauses)
      ensures r.Unsatisfiable? ==>
                forall a {:trigger InRoot(a, initial)} | InRoot(a, initial) && theory(a) ::
                  !(StoreHolds(old(units), old(clauses), a) && InputsHold(inputs, a))
      ensures !r.NotBoolean? ==> forall i | 0 <= i < |vars| :: IsBool(table, vars[i])
      ensures r.Posted? ==> old(units) <= units && old(clauses) <= clauses && Narrows(old(root), root)
      ensures r.Posted? ==> ProperFrom(clauses, |old(clauses)|)
      ensures r.Posted? && Applies(infer) && Live(old(root)) ==>
          Tracked(root, units, |old(units)|, clauses, |old(clauses)|, inputs)
      ensures Clashing(inputs) && Applies(infer) && Live(old(root)) ==> !r.Posted?
      ensures r.NotBoolean? ==>
                && !IsBool(table, r.v)
                && (r.v in vars || exists i, j :: 0 <= i < |inputs| && 0 <= j < |inputs[i]| && inputs[i][j].v == r.v)
    {
      for i := 0 to |vars|
        invariant forall j | 0 <= j < i :: IsBool(table, vars[j])
      {
        if !IsBool(table, vars[i]) { return NotBoolean(vars[i]); }
      }
      ghost var base := (units, clauses);
      ghost var start := root;
      for k := 0 to |inputs|
        invariant PostedSoFar(base, start, inputs[..k])
      {
        r := PostClause(base, start, inputs, k);
        if !r.Posted? { return; }
      }
      assert inputs[..|inputs|] == inputs;
      if Applies(infer) && Live(start) { ClashUntracked(root, units, |base.0|, clauses, |base.1|, inputs); }
      return Posted;
    }

    /** The clauses posted so far, on top of the store `base` and the root `start`, have all been dealt with. */
    ghost predicate PostedSoFar(base: (seq<Lit>, seq<seq<Lit>>), start: Root, inputs: seq<seq<BoolLit>>)
      reads this
    {
      && Valid() && InputsOk(inputs, |table|) && StoreOk(base.0, base.1, |table|)
      && Equivalent(initial, theory, base, inputs, units, clauses)
      && base.0 <= units && base.1 <= clauses && Narrows(start, root) && ProperFrom(clauses, |base.1|)
      && (Applies(infer) && Live(start) ==> Tracked(root, units, |base.0|, clauses, |base.1|, inputs))
    }

    /** Post the clause at position `k`. */
    method PostClause(ghost base: (seq<Lit>, seq<seq<Lit>>), ghost start: Root, inputs: seq<seq<BoolLit>>, k: nat)
        returns (r: Posting)
      requires k < |inputs| && InputsOk(inputs, |table|) && PostedSoFar(base, start, inputs[..k])
      modifies this
      ensures StoreOk(units, clauses, |table|)
      ensures r.Posted? ==> PostedSoFar(base, start, inputs[..k + 1])
      ensures r.Unsatisfiable? ==>
                forall a {:trigger InRoot(a, initial)} | InRoot(a, initial) && theory(a) ::
                  !(StoreHolds(base.0, base.1, a) && InputsHold(inputs, a))
      ensures r.NotBoolean? ==> !IsBool(table, r.v) && exists j :: 0 <= j < |inputs[k]| && inputs[k][j].v == r.v
    {
      assert InputOk(inputs[k], |table|);
      ghost var live := Applies(infer) && Live(start);
      ghost var was, hadClauses, hadUnits := root, clauses, units;
      var normal := NormalizeBoolClause(table, root, inputs[k]);
      r := Posted;
      match normal
      case NonBoolean(v) => return NotBoolean(v);
      case Satisfied =>
        SatisfiedStep(this, base, inputs, k);
        if live { SatisfiedTracked(this, |base.0|, |base.1|, inputs, k); }
      case Clause(lits) =>
        ClauseStep(this, base, inputs, k, lits);
        if lits == [] {
          return Unsatisfiable;
        } else if |lits| == 1 {
          var ok := AssertRootLit(lits[0]);
          if !ok {
            UnitClash(this, base, inputs, k);
            return Unsatisfiable;
          }
          if live { UnitTracked(this, was, hadUnits, |base.0|, |base.1|, inputs, k, lits); }
        } else {
          AddClause(lits);
          if live { ClauseTracked(this, hadClauses, |base.0|, |base.1|, inputs, k, lits); }
        }
    }
  }

  /** When the store is refuted after clause `k`, the inputs and the earlier store are. */
  lemma UnitClash(e: Engine, base: (seq<Lit>, seq<seq<Lit>>), inputs: seq<seq<BoolLit>>, k: nat)
    requires k < |inputs| && InputsOk(inputs, |e.initial|) && StoreOk(base.0, base.1, |e.initial|)
    requires StoreOk(e.units, e.clauses, |e.initial|)
    requires Equivalent(e.initial, e.theory, base, inputs[..k + 1], e.units, e.clauses)
    requires forall a {:trigger InRoot(a, e.initial)} | InRoot(a, e.initial) && e.theory(a) ::
        !StoreHolds(e.units, e.clauses, a)
    ensures forall a {:trigger InRoot(a, e.initial)} | InRoot(a, e.initial) && e.theory(a) ::
        !(StoreHolds(base.0, base.1, a) && InputsHold(inputs, a))
  {
    forall a | InRoot(a, e.initial) && e.theory(a) ensures !(StoreHolds(base.0, base.1, a) && InputsHold(inputs, a)) {
      if InputsHold(inputs, a) {
        assert forall i | 0 <= i < k + 1 :: inputs[..k + 1][i] == inputs[i];
        assert InputsHold(inputs[..k + 1], a);
      }
    }
  }

  /** A clause true at the root adds nothing. */
  lemma SatisfiedStep(e: Engine, base: (seq<Lit>, seq<seq<Lit>>), inputs: seq<seq<BoolLit>>, k: nat)
    requires e.Valid() && k < |inputs| && InputsOk(inputs, |e.initial|) && StoreOk(base.0, base.1, |e.initial|)
    requires Equivalent(e.initial, e.theory, base, inputs[..k], e.units, e.clauses)
    requires AlwaysHolds(e.table, e.root, inputs[k])
    ensures Equivalent(e.initial, e.theory, base, inputs[..k + 1], e.units, e.clauses)
  {
    assert InputOk(inputs[k], |e.initial|);
    var m :| 0 <= m <= |inputs[k]| && AllBool(e.table, inputs[k][..m])
             && forall a {:trigger InRoot(a, e.root)} | InRoot(a, e.root) :: BoolClauseHolds(inputs[k][..m], a);
    forall a | InRoot(a, e.initial) && e.theory(a)
      ensures StoreHolds(base.0, base.1, a) && InputsHold(inputs[..k + 1], a) <==> StoreHolds(e.units, e.clauses, a)
    {
      InputsAppend(inputs, k, a);
      if StoreHolds(e.units, e.clauses, a) {
        assert InRoot(a, e.root);
        PrefixHolds(inputs[k], m, a);
      }
    }
  }

  lemma SatisfiedTracked(e: Engine, unitsFrom: nat, from: nat, inputs: seq<seq<BoolLit>>, k: nat)
    requires e.Valid() && k < |inputs| && InputsOk(inputs, |e.root|)
    requires Tracked(e.root, e.units, unitsFrom, e.clauses, from, inputs[..k])
    requires AlwaysHolds(e.table, e.root, inputs[k])
    ensures Tracked(e.root, e.units, unitsFrom, e.clauses, from, inputs[..k + 1])
  {
    assert InputOk(inputs[k], |e.root|);
    var m :| 0 <= m <= |inputs[k]| && AllBool(e.table, inputs[k][..m])
             && forall a {:trigger InRoot(a, e.root)} | InRoot(a, e.root) :: BoolClauseHolds(inputs[k][..m], a);
    forall a | InRoot(a, e.root) ensures BoolClauseHolds(inputs[k], a) { PrefixHolds(inputs[k], m, a); }
    AllAccountedLater(e.root, e.clauses, e.root, e.clauses, from, inputs, k);
  }

  /** An asserted unit makes its clause true throughout the new root. */
  lemma UnitTracked(e: Engine, was: Root, had: seq<Lit>, unitsFrom: nat, from: nat, inputs: seq<seq<BoolLit>>, k: nat,
      lits: seq<Lit>)
    requires e.Valid() && k < |inputs| && InputsOk(inputs, |was|) && RootOk(e.table, was) && Narrows(was, e.root)
    requires Tracked(was, had, unitsFrom, e.clauses, from, inputs[..k]) && SameMeaning(e.table, was, inputs[k], lits)
    requires |lits| == 1 && e.units == had + lits && Live(e.root) && UnitsTrue(e.root, e.units, 0)
    ensures Tracked(e.root, e.units, unitsFrom, e.clauses, from, inputs[..k + 1])
  {
    assert InputOk(inputs[k], |was|);
    forall a | InRoot(a, e.root) ensures BoolClauseHolds(inputs[k], a) {
      assert InRoot(a, was);
      assert Holds(e.units[|e.units| - 1], a);
      assert Holds(lits[0], a);
    }
    AllAccountedLater(was, e.clauses, e.root, e.clauses, from, inputs, k);
  }

  lemma ClauseTracked(e: Engine, had: seq<seq<Lit>>, unitsFrom: nat, from: nat, inputs: seq<seq<BoolLit>>, k: nat,
      lits: seq<Lit>)
    requires e.Valid() && k < |inputs| && InputsOk(inputs, |e.root|) && e.clauses == had + [lits]
    requires from <= |had| && 2 <= |lits| <= |inputs[k]|
    requires forall i | 0 <= i < |had| :: LitsInRange(had[i], |e.root|)
    requires Tracked(e.root, e.units, unitsFrom, had, from, inputs[..k])
    requires SameMeaning(e.table, e.root, inputs[k], lits)
    ensures Tracked(e.root, e.units, unitsFrom, e.clauses, from, inputs[..k + 1])
  {
    assert InputOk(inputs[k], |e.root|);
    assert StandsFor(e.root, e.clauses[|had|], inputs[k]);
    AllAccountedLater(e.root, had, e.root, e.clauses, from, inputs, k);
  }

  /** A reduced clause stands for the input clause wherever the store holds. */
  lemma ClauseStep(e: Engine, base: (seq<Lit>, seq<seq<Lit>>), inputs: seq<seq<BoolLit>>, k: nat, lits: seq<Lit>)
    requires e.Valid() && k < |inputs| && InputsOk(inputs, |e.initial|) && StoreOk(base.0, base.1, |e.initial|)
    requires Equivalent(e.initial, e.theory, base, inputs[..k], e.units, e.clauses)
    requires SameMeaning(e.table, e.root, inputs[k], lits)
    ensures forall a {:trigger InRoot(a, e.initial)} | InRoot(a, e.initial) && e.theory(a) ::
              StoreHolds(base.0, base.1, a) && InputsHold(inputs[..k + 1], a) <==>
                  StoreHolds(e.units, e.clauses, a) && ClauseHolds(lits, a)
    ensures Equivalent(e.initial, e.theory, base, inputs[..k + 1], e.units, e.clauses + [lits])
    ensures |lits| == 1 ==> Equivalent(e.initial, e.theory, base, inputs[..k + 1], e.units + [lits[0]], e.clauses)
    ensures lits == [] ==> forall a {:trigger InRoot(a, e.initial)} | InRoot(a, e.initial) && e.theory(a) ::
        !(StoreHolds(base.0, base.1, a) && InputsHold(inputs, a))
  {
    assert InputOk(inputs[k], |e.initial|);
    forall a | InRoot(a, e.initial) && e.theory(a)
      ensures StoreHolds(base.0, base.1, a) && InputsHold(inputs[..k + 1], a) <==>
          StoreHolds(e.units, e.clauses, a) && ClauseHolds(lits, a)
      ensures StoreHolds(e.units, e.clauses + [lits], a) <==> StoreHolds(e.units, e.clauses, a) && ClauseHolds(lits, a)
      ensures |lits| == 1 ==>
          (StoreHolds(e.units + [lits[0]], e.clauses, a) <==> StoreHolds(e.units, e.clauses, a) && ClauseHolds(lits, a))
      ensures InputsHold(inputs, a) ==> InputsHold(inputs[..k + 1], a)
    {
      InputsAppend(inputs, k, a);
      if StoreHolds(e.units, e.clauses, a) { assert InRoot(a, e.root); }
      ClauseAppend(e.units, e.clauses, lits, a);
      if |lits| == 1 { UnitAppend(e.units, e.clauses, lits[0], a); }
    }
  }
}
