/**
 Explanation bookkeeping under nested selectors (src/store.rs, the mutators and
 their `*_because` variants; src/propagator.rs, `Selected`): every tight reason
 the store records is entailed by the guarded constraint.
 */
module Explanations {
  import opened Common
  import opened Domains

  type Constraint = Assignment -> bool

  /** An atomic domain fact: a premise, or the primary change of an event. */
  datatype Fact = Ge(v: VarId, bound: int) | Le(v: VarId, bound: int) | Eq(v: VarId, val: int) | Ne(v: VarId, val: int)

  function At(a: Assignment, v: VarId): int { if v < |a| then a[v] else 0 }

  predicate Keeps(f: Fact, x: int) {
    match f
    case Ge(_, b) => x >= b
    case Le(_, b) => x <= b
    case Eq(_, k) => x == k
    case Ne(_, k) => x != k
  }

  predicate Holds(f: Fact, a: Assignment) { Keeps(f, At(a, f.v)) }

  predicate AllHold(fs: seq<Fact>, a: Assignment) { forall i | 0 <= i < |fs| :: Holds(fs[i], a) }

  ghost predicate Entails(c: Constraint, why: seq<Fact>, f: Fact) {
    forall a {:trigger c(a)} | c(a) && AllHold(why, a) :: Holds(f, a)
  }

  ghost predicate Refutes(c: Constraint, why: seq<Fact>) {
    forall a {:trigger c(a)} | c(a) :: !AllHold(why, a)
  }

  /** `c`, required only while the guards hold. */
  function Guarded(guards: seq<Fact>, c: Constraint): Constraint { a => AllHold(guards, a) ==> c(a) }

  // --- propagators ------------------------------------------------------------------------

  /**
   One thing a propagator does to the store. `Decide` sets an order, a membership
   or a presence; the presence of a mandatory interval has no variable and is 1.
   */
  datatype Action =
    | Change(fact: Fact, why: Option<seq<Fact>>)
    | Decide(v: Option<VarId>, target: int, reason: seq<Fact>)
    | GiveUp(conflict: Option<seq<Fact>>)

  /** A leaf behaves as some script; a selected propagator guards another one. */
  datatype Propagator = Leaf(script: seq<Action>) | Selected(sel: VarId, inner: Propagator)

  /** The selector facts around the leaf. */
  function Selectors(p: Propagator): seq<Fact> {
    match p
    case Leaf(_) => []
    case Selected(sel, inner) => [Eq(sel, 1)] + Selectors(inner)
  }

  /** Every reason the propagator supplies is entailed by its constraint. */
  ghost predicate ActionOk(c: Constraint, x: Action, n: nat) {
    match x
    case Change(f, why) => f.v < n && (why.Some? ==> Entails(c, why.value, f))
    case Decide(Some(v), target, reason) => v < n && Entails(c, reason, Eq(v, target))
    case Decide(None, target, reason) => target == 1 || Refutes(c, reason)
    case GiveUp(conflict) => conflict.Some? ==> Refutes(c, conflict.value)
  }

  ghost predicate ScriptOk(c: Constraint, p: Propagator, n: nat) {
    match p
    case Leaf(script) => forall i | 0 <= i < |script| :: ActionOk(c, script[i], n)
    case Selected(sel, inner) => sel < n && ScriptOk(c, inner, n)
  }

  // --- guards and entailment ----------------------------------------------------------------

  lemma AllHoldAppend(fs: seq<Fact>, gs: seq<Fact>, a: Assignment)
    ensures AllHold(fs + gs, a) <==> AllHold(fs, a) && AllHold(gs, a)
  {
    if AllHold(fs + gs, a) {
      assert forall i | 0 <= i < |fs| :: (fs + gs)[i] == fs[i];
      assert forall i | 0 <= i < |gs| :: (fs + gs)[|fs| + i] == gs[i];
    }
  }

  /** Stamping the guards onto a reason makes it valid for the guarded constraint. */
  lemma StampedReason(c: Constraint, guards: seq<Fact>, why: seq<Fact>, f: Fact)
    requires Entails(c, why, f)
    ensures Entails(Guarded(guards, c), why + guards, f)
  {
    var g := Guarded(guards, c);
    forall a | g(a) && AllHold(why + guards, a) ensures Holds(f, a) {
      AllHoldAppend(why, guards, a);
      assert c(a);
    }
  }

  /** Adding the selector to a conflict of the inner guarded constraint guards it once more. */
  lemma StampedConflict(c: Constraint, sel: Fact, guards: seq<Fact>, conflict: seq<Fact>)
    requires Refutes(Guarded(guards, c), conflict)
    ensures Refutes(Guarded([sel] + guards, c), conflict + [sel])
  {
    var outer := Guarded([sel] + guards, c);
    forall a | outer(a) ensures !AllHold(conflict + [sel], a) {
      AllHoldAppend(conflict, [sel], a);
      AllHoldAppend([sel], guards, a);
      assert AllHold([sel], a) ==> Guarded(guards, c)(a);
    }
  }

  /** A reason for a value and the opposite current value are jointly inconsistent. */
  lemma OppositeConflict(c: Constraint, v: VarId, target: int, current: int, why: seq<Fact>)
    requires Entails(c, why, Eq(v, target)) && current != target
    ensures Refutes(c, why + [Eq(v, current)])
  {
    forall a | c(a) ensures !AllHold(why + [Eq(v, current)], a) {
      AllHoldAppend(why, [Eq(v, current)], a);
      assert AllHold([Eq(v, current)], a) ==> Holds([Eq(v, current)][0], a);
    }
  }

  lemma Unguarded(c: Constraint, conflict: seq<Fact>)
    requires Refutes(c, conflict)
    ensures Refutes(Guarded([], c), conflict)
  {
    forall a | Guarded([], c)(a) ensures !AllHold(conflict, a) { assert c(a); }
  }

  // --- the store ----------------------------------------------------------------------------------

  datatype Cause = Scope | Premises(ps: seq<Fact>)

  datatype EngineEvent = EngineEvent(primary: Fact, cause: Cause)

  /** Every event that carries premises is entailed by the guarded constraint and those premises. */
  ghost predicate EventsOk(events: seq<EngineEvent>, g: Constraint) {
    forall i | 0 <= i < |events| :: EventOk(events[i], g)
  }

  ghost predicate EventOk(e: EngineEvent, g: Constraint) { e.cause.Premises? ==> Entails(g, e.cause.ps, e.primary) }

  /** The guards are true: each fixes its variable to the value it names. */
  ghost predicate GuardsTrue(guards: seq<Fact>, d: Doms) {
    forall i | 0 <= i < |guards| :: guards[i].Eq? && guards[i].v < |d| && d[guards[i].v] == {guards[i].val}
  }

  /** True guards stay true while domains shrink without a wipeout. */
  lemma GuardsStayTrue(guards: seq<Fact>, d: Doms, e: Doms)
    requires GuardsTrue(guards, d) && Sub(e, d) && Nonempty(e)
    ensures GuardsTrue(guards, e)
  {
    forall i | 0 <= i < |guards| ensures e[guards[i].v] == {guards[i].val} {
      assert e[guards[i].v] <= d[guards[i].v] && e[guards[i].v] != {};
    }
  }

  lemma GuardsAppend(guards: seq<Fact>, more: seq<Fact>, d: Doms)
    ensures GuardsTrue(guards + more, d) <==> GuardsTrue(guards, d) && GuardsTrue(more, d)
  {
    if GuardsTrue(guards + more, d) {
      assert forall i | 0 <= i < |guards| :: (guards + more)[i] == guards[i];
      assert forall i | 0 <= i < |more| :: (guards + more)[|guards| + i] == more[i];
    }
  }

  /** The guards were true whenever one of the events was emitted. */
  ghost predicate TrueAt(guards: seq<Fact>, seen: seq<Doms>) {
    forall i | 0 <= i < |seen| :: GuardsTrue(guards, seen[i])
  }

  /** The domain a mutation leaves. */
  function Narrowed(f: Fact, d: Dom): Dom { set x | x in d && Keeps(f, x) }

  /** The store's guess, before the mutation, of whether it changes the domain. */
  predicate WillChange(f: Fact, d: Dom)
    requires d != {}
  {
    match f
    case Ge(_, b) => b > MinOf(d)
    case Le(_, b) => b < MaxOf(d)
    case Eq(_, k) => k in d && !Fixed(d)
    case Ne(_, k) => k in d
  }

  lemma WillChangeIsRight(f: Fact, d: Dom)
    requires d != {} && (f.Eq? ==> f.val in d)
    ensures WillChange(f, d) <==> Narrowed(f, d) != d
  {
    assert MinOf(d) in d && MaxOf(d) in d;
    FixedIsSingleton(d);
  }

  lemma NarrowOne(d: Doms, v: VarId, s: Dom)
    requires v < |d| && s <= d[v] && Nonempty(d)
    ensures Sub(d[v := s], d) && (s != {} ==> Nonempty(d[v := s])) && Sub(d, d)
    ensures d[v := s] == d <==> s == d[v]
  {
  }

  // --- what a run has to achieve -------------------------------------------------------------------

  predicate ActionIn(x: Action, n: nat) {
    match x
    case Change(f, _) => f.v < n
    case Decide(Some(v), _, _) => v < n
    case _ => true
  }

  predicate ScriptIn(script: seq<Action>, n: nat) { forall i | 0 <= i < |script| :: ActionIn(script[i], n) }

  /** The action's effect is visible in `d`; one that always fails has none. */
  ghost predicate TookEffect(x: Action, d: Doms)
    requires ActionIn(x, |d|)
  {
    match x
    case Change(f, _) => forall y | y in d[f.v] :: Keeps(f, y)
    case Decide(Some(v), target, _) => d[v] == {target}
    case Decide(None, target, _) => target == 1
    case GiveUp(_) => false
  }

  ghost predicate AllTookEffect(script: seq<Action>, d: Doms)
    requires ScriptIn(script, |d|)
  {
    forall i | 0 <= i < |script| :: TookEffect(script[i], d)
  }

  /** `e` is the greatest box below `d`, without an empty domain, on which the script has taken effect. */
  ghost predicate GreatestEffect(script: seq<Action>, d: Doms, e: Doms)
    requires ScriptIn(script, |d|)
  {
    && Sub(e, d) && Nonempty(e) && AllTookEffect(script, e)
    && forall g: Doms | Sub(g, d) && Nonempty(g) && AllTookEffect(script, g) :: Sub(g, e)
  }

  /** A run that succeeds achieves the script's greatest effect, and one that fails shows that it has none. */
  ghost predicate Achieves(script: seq<Action>, d: Doms, ok: bool, e: Doms)
    requires ScriptIn(script, |d|)
  {
    if ok then GreatestEffect(script, d, e)
    else forall g: Doms | Sub(g, d) && Nonempty(g) :: !AllTookEffect(script, g)
  }

  /**
   How a run of a script ends: the domains, or none when it fails; its events;
   the domains at the time of each event; the conflict it states.
   */
  datatype Outcome =
    Outcome(result: Option<Doms>, events: seq<EngineEvent>, seen: seq<Doms>, conflict: Option<seq<Fact>>)

  function ActionResult(x: Action, d: Doms): (r: Option<Doms>)
    requires ActionIn(x, |d|) && Nonempty(d)
    ensures r.Some? ==> Sub(r.value, d) && Nonempty(r.value)
  {
    match x
    case Change(f, _) =>
      var s := Narrowed(f, d[f.v]);
      if s == {} then None else Some(d[f.v := s])
    case Decide(Some(v), target, _) => if target in d[v] then Some(d[v := {target}]) else None
    case Decide(None, target, _) => if target == 1 then Some(d) else None
    case GiveUp(_) => None
  }

  /** The event of an action that changes a domain. */
  function ActionEvent(x: Action, guards: seq<Fact>, forceScope: bool): EngineEvent
    requires x.Change? || (x.Decide? && x.v.Some?)
  {
    match x
    case Change(f, why) =>
      EngineEvent(f, if why.Some? && !forceScope then Premises(why.value + guards) else Cause.Scope)
    case Decide(Some(v), target, reason) =>
      EngineEvent(Eq(v, target), if forceScope then Cause.Scope else Premises(reason + guards))
  }

  /** The conflict a failing action states. */
  function ActionConflict(x: Action, d: Doms): Option<seq<Fact>>
    requires ActionIn(x, |d|) && Nonempty(d)
  {
    match x
    case Change(_, _) => None
    case Decide(Some(v), _, reason) => if Fixed(d[v]) then Some(reason + [Eq(v, MinOf(d[v]))]) else None
    case Decide(None, _, reason) => Some(reason)
    case GiveUp(conflict) => conflict
  }

  /** A script up to its first failure. */
  function ScriptOutcome(script: seq<Action>, d: Doms, guards: seq<Fact>, forceScope: bool): Outcome
    requires ScriptIn(script, |d|) && Nonempty(d)
  {
    if script == [] then Outcome(Some(d), [], [], None)
    else
      match ActionResult(script[0], d)
      case None => Outcome(None, [], [], ActionConflict(script[0], d))
      case Some(e) =>
        var rest := ScriptOutcome(script[1..], e, guards, forceScope);
        if e == d then rest
        else rest.(events := [ActionEvent(script[0], guards, forceScope)] + rest.events, seen := [e] + rest.seen)
  }

  /** After `k` actions the run stands at `d` with the events and boxes so far, and the rest of it ends as `o` says. */
  ghost predicate Running(o: Outcome, script: seq<Action>, k: nat, d: Doms, events: seq<EngineEvent>, seen: seq<Doms>,
      guards: seq<Fact>, forceScope: bool)
  {
    && k <= |script| && ScriptIn(script, |d|) && Nonempty(d)
    && var rest := ScriptOutcome(script[k..], d, guards, forceScope);
       o == rest.(events := events + rest.events, seen := seen + rest.seen)
  }

  lemma RunningStep(o: Outcome, script: seq<Action>, k: nat, d: Doms, events: seq<EngineEvent>, seen: seq<Doms>,
      guards: seq<Fact>, forceScope: bool)
    requires Running(o, script, k, d, events, seen, guards, forceScope) && k < |script|
    ensures
      match ActionResult(script[k], d)
      case None => o == Outcome(None, events, seen, ActionConflict(script[k], d))
      case Some(e) =>
        if e == d then Running(o, script, k + 1, e, events, seen, guards, forceScope)
        else
          Running(o, script, k + 1, e, events + [ActionEvent(script[k], guards, forceScope)], seen + [e],
              guards, forceScope)
  {
    assert script[k..][0] == script[k] && script[k..][1..] == script[k + 1..];
    if ActionResult(script[k], d).Some? {
      var e := ActionResult(script[k], d).value;
      var rest := ScriptOutcome(script[k + 1..], e, guards, forceScope);
      if e != d {
        var ev := ActionEvent(script[k], guards, forceScope);
        assert events + ([ev] + rest.events) == events + [ev] + rest.events;
        assert seen + ([e] + rest.seen) == seen + [e] + rest.seen;
      }
    }
  }

  /** A run ended as `o` says; events are only recorded while explanations are on. */
  ghost predicate EndsAs(o: Outcome, ok: bool, d: Doms, events: seq<EngineEvent>, seen: seq<Doms>,
      conflict: Option<seq<Fact>>, explain: bool)
  {
    && (ok <==> o.result.Some?) && (ok ==> d == o.result.value)
    && events == (if explain then o.events else []) && seen == (if explain then o.seen else [])
    && conflict == o.conflict
  }

  /** One action leaves the greatest box on which it has taken effect, and fails when there is none. */
  lemma ActionTakesEffect(x: Action, d: Doms, g: Doms)
    requires ActionIn(x, |d|) && Nonempty(d) && Sub(g, d) && Nonempty(g) && TookEffect(x, g)
    ensures ActionResult(x, d).Some? && Sub(g, ActionResult(x, d).value)
  {
    match x
    case Change(f, _) =>
      forall y | y in g[f.v] ensures y in Narrowed(f, d[f.v]) { assert g[f.v] <= d[f.v]; }
      assert g[f.v] != {};
    case Decide(Some(v), target, _) => assert target in g[v] && g[v] <= d[v];
    case _ =>
  }

  lemma EffectLasts(x: Action, d: Doms, e: Doms)
    requires ActionIn(x, |d|) && Sub(e, d) && Nonempty(e) && TookEffect(x, d)
    ensures TookEffect(x, e)
  {
    match x
    case Change(f, _) => assert e[f.v] <= d[f.v];
    case Decide(Some(v), _, _) => assert e[v] <= d[v] && e[v] != {};
    case _ =>
  }

  /**
   A script that succeeds leaves the greatest box on which all its actions have
   taken effect, whatever their order; one that fails has no such box.
   */
  lemma {:induction false} ScriptTakesEffect(script: seq<Action>, d: Doms, guards: seq<Fact>, forceScope: bool)
    requires ScriptIn(script, |d|) && Nonempty(d)
    ensures
      var r := ScriptOutcome(script, d, guards, forceScope).result;
      Achieves(script, d, r.Some?, if r.Some? then r.value else d)
  {
    if script == [] { return; }
    var x, rest := script[0], script[1..];
    assert script == [x] + rest;
    var r := ScriptOutcome(script, d, guards, forceScope).result;
    forall g: Doms | Sub(g, d) && Nonempty(g) && AllTookEffect(script, g)
      ensures ActionResult(x, d).Some? && Sub(g, ActionResult(x, d).value) && AllTookEffect(rest, g)
    {
      assert TookEffect(script[0], g);
      ActionTakesEffect(x, d, g);
    }
    if ActionResult(x, d).Some? {
      var e := ActionResult(x, d).value;
      ScriptTakesEffect(rest, e, guards, forceScope);
      if r.Some? {
        assert TookEffect(x, e);
        EffectLasts(x, e, r.value);
        SubTransitive(r.value, e, d);
      }
    }
  }

  /** The events lead from `d` to `e`: each narrows the domain it names to the values its fact keeps. */
  ghost predicate Accounts(d: Doms, events: seq<EngineEvent>, e: Doms)
    decreases |events|
  {
    if events == [] then d == e
    else
      var f := events[0].primary;
      && f.v < |d| && Narrowed(f, d[f.v]) != d[f.v]
      && Accounts(d[f.v := Narrowed(f, d[f.v])], events[1..], e)
  }

  /** The event is that of an action of the script, and carries the reason the action gave with the guards after it. */
  ghost predicate ComesFrom(e: EngineEvent, script: seq<Action>, guards: seq<Fact>, forceScope: bool) {
    exists i :: 0 <= i < |script| && IsEventOf(e, script[i], guards, forceScope)
  }

  ghost predicate IsEventOf(e: EngineEvent, x: Action, guards: seq<Fact>, forceScope: bool) {
    match x
    case Change(f, why) => e.primary == f && CausedBy(e.cause, if forceScope then None else why, guards)
    case Decide(Some(v), target, reason) =>
      e.primary == Eq(v, target) && CausedBy(e.cause, if forceScope then None else Some(reason), guards)
    case _ => false
  }

  /** The cause is the given reason with the guards after it, or the whole scope when no reason was given. */
  ghost predicate CausedBy(cause: Cause, why: Option<seq<Fact>>, guards: seq<Fact>) {
    match why
    case None => cause.Scope?
    case Some(why) =>
      && cause.Premises? && |cause.ps| == |why| + |guards|
      && cause.ps[..|why|] == why && cause.ps[|why|..] == guards
  }

  lemma ActionAccounts(x: Action, d: Doms, guards: seq<Fact>, forceScope: bool)
    requires ActionIn(x, |d|) && Nonempty(d) && ActionResult(x, d).Some? && ActionResult(x, d).value != d
    ensures x.Change? || (x.Decide? && x.v.Some?)
    ensures
      var ev := ActionEvent(x, guards, forceScope);
      var f := ev.primary;
      && IsEventOf(ev, x, guards, forceScope)
      && f.v < |d| && Narrowed(f, d[f.v]) != d[f.v] && ActionResult(x, d).value == d[f.v := Narrowed(f, d[f.v])]
  {
    if x.Decide? { assert Narrowed(Eq(x.v.value, x.target), d[x.v.value]) == {x.target}; }
  }

  lemma AccountsFirst(d: Doms, ev: EngineEvent, rest: seq<EngineEvent>, e: Doms)
    requires
      var f := ev.primary;
      f.v < |d| && Narrowed(f, d[f.v]) != d[f.v] && Accounts(d[f.v := Narrowed(f, d[f.v])], rest, e)
    ensures Accounts(d, [ev] + rest, e)
  {
    assert ([ev] + rest)[1..] == rest;
  }

  lemma ComesFromRest(e: EngineEvent, script: seq<Action>, guards: seq<Fact>, forceScope: bool)
    requires script != [] && ComesFrom(e, script[1..], guards, forceScope)
    ensures ComesFrom(e, script, guards, forceScope)
  {
    var j :| 0 <= j < |script[1..]| && IsEventOf(e, script[1..][j], guards, forceScope);
    assert IsEventOf(e, script[j + 1], guards, forceScope);
  }

  /** The events of a successful script account for every change it made. */
  lemma {:induction false} EventsAccount(script: seq<Action>, d: Doms, guards: seq<Fact>, forceScope: bool)
    requires ScriptIn(script, |d|) && Nonempty(d)
    ensures
      var o := ScriptOutcome(script, d, guards, forceScope);
      o.result.Some? ==> Accounts(d, o.events, o.result.value) && o.conflict.None?
  {
    if script == [] || ActionResult(script[0], d).None? { return; }
    var e := ActionResult(script[0], d).value;
    EventsAccount(script[1..], e, guards, forceScope);
    var rest := ScriptOutcome(script[1..], e, guards, forceScope);
    assert [] + rest.events == rest.events;
    if e != d && rest.result.Some? {
      ActionAccounts(script[0], d, guards, forceScope);
      var ev := ActionEvent(script[0], guards, forceScope);
      AccountsFirst(d, ev, rest.events, rest.result.value);
      assert ScriptOutcome(script, d, guards, forceScope).events == [ev] + rest.events;
    }
  }

  /** Each event is one of the script's actions and carries its reason. */
  lemma {:induction false} EventsComeFrom(script: seq<Action>, d: Doms, guards: seq<Fact>, forceScope: bool, i: nat)
    requires ScriptIn(script, |d|) && Nonempty(d) && i < |ScriptOutcome(script, d, guards, forceScope).events|
    ensures ComesFrom(ScriptOutcome(script, d, guards, forceScope).events[i], script, guards, forceScope)
  {
    var e := ActionResult(script[0], d).value;
    if e == d {
      EventsComeFrom(script[1..], e, guards, forceScope, i);
      ComesFromRest(ScriptOutcome(script, d, guards, forceScope).events[i], script, guards, forceScope);
    } else if i == 0 {
      ActionAccounts(script[0], d, guards, forceScope);
    } else {
      EventsComeFrom(script[1..], e, guards, forceScope, i - 1);
      ComesFromRest(ScriptOutcome(script, d, guards, forceScope).events[i], script, guards, forceScope);
    }
  }

  /** A single action's event and conflict are entailed by the constraint the propagator enforces. */
  lemma ActionEntails(c: Constraint, x: Action, d: Doms, guards: seq<Fact>, forceScope: bool)
    requires ActionOk(c, x, |d|) && Nonempty(d)
    ensures ActionIn(x, |d|)
    ensures
      var r := ActionResult(x, d);
      && (r.Some? && r.value != d ==> EventOk(ActionEvent(x, guards, forceScope), Guarded(guards, c)))
      && (r.None? && ActionConflict(x, d).Some? ==> Refutes(c, ActionConflict(x, d).value))
  {
    match x
    case Change(f, why) =>
      if why.Some? { StampedReason(c, guards, why.value, f); }
    case Decide(Some(v), target, reason) =>
      StampedReason(c, guards, reason, Eq(v, target));
      FixedIsSingleton(d[v]);
      if target !in d[v] { OppositeConflict(c, v, target, MinOf(d[v]), reason); }
    case _ =>
  }

  /** Every event of a script is entailed by the guarded constraint, and its conflict refutes the constraint. */
  lemma {:induction false} ScriptEntails(c: Constraint, script: seq<Action>, d: Doms, guards: seq<Fact>,
      forceScope: bool)
    requires Nonempty(d) && forall i | 0 <= i < |script| :: ActionOk(c, script[i], |d|)
    ensures ScriptIn(script, |d|)
    ensures
      var o := ScriptOutcome(script, d, guards, forceScope);
      EventsOk(o.events, Guarded(guards, c)) && (o.conflict.Some? ==> Refutes(c, o.conflict.value))
  {
    ScriptOkIn(c, Leaf(script), |d|);
    if script == [] { return; }
    assert ActionOk(c, script[0], |d|);
    ActionEntails(c, script[0], d, guards, forceScope);
    if ActionResult(script[0], d).Some? {
      ScriptEntails(c, script[1..], ActionResult(script[0], d).value, guards, forceScope);
    }
  }

  /** While explanations are on, `now` is `before` with the log after it. */
  ghost predicate Recorded<T>(explain: bool, before: seq<T>, log: seq<T>, now: seq<T>) {
    now == before + if explain then log else []
  }

  lemma RecordedMore<T>(explain: bool, before: seq<T>, log: seq<T>, now: seq<T>, x: T, next: seq<T>)
    requires Recorded(explain, before, log, now) && next == if explain then now + [x] else now
    ensures Recorded(explain, before, log + [x], next)
  {
  }

  /** Guards that are true at the start are true at every event. */
  lemma {:induction false} ScriptSeen(script: seq<Action>, d: Doms, guards: seq<Fact>, forceScope: bool)
    requires ScriptIn(script, |d|) && Nonempty(d) && GuardsTrue(guards, d)
    ensures
      var o := ScriptOutcome(script, d, guards, forceScope);
      TrueAt(guards, o.seen) && |o.seen| == |o.events|
  {
    if script == [] || ActionResult(script[0], d).None? { return; }
    var e := ActionResult(script[0], d).value;
    GuardsStayTrue(guards, d, e);
    ScriptSeen(script[1..], e, guards, forceScope);
  }

  /** A run that ended as its outcome says has explained itself and achieved what the script asks for. */
  lemma RunConcludes(c: Constraint, script: seq<Action>, was: Doms, guards: seq<Fact>, forceScope: bool,
      ok: bool, d: Doms, events: seq<EngineEvent>, seen: seq<Doms>,
      conflict: Option<seq<Fact>>, explain: bool)
    requires GuardsTrue(guards, was) && Sub(d, was) && (ok || conflict.Some? ==> Nonempty(d))
    requires Nonempty(was) && ScriptIn(script, |was|) && forall i | 0 <= i < |script| :: ActionOk(c, script[i], |was|)
    requires EndsAs(ScriptOutcome(script, was, guards, forceScope), ok, d, events, seen, conflict, explain)
    ensures EventsOk(events, Guarded(guards, c)) && (conflict.Some? ==> Refutes(c, conflict.value))
    ensures TrueAt(guards, seen) && |seen| == |events| && (ok || conflict.Some? ==> GuardsTrue(guards, d))
    ensures Achieves(script, was, ok, d)
  {
    if ok || conflict.Some? { GuardsStayTrue(guards, was, d); }
    ScriptSeen(script, was, guards, forceScope);
    ScriptEntails(c, script, was, guards, forceScope);
    ScriptTakesEffect(script, was, guards, forceScope);
  }

  /** The script at the heart of a propagator. */
  function LeafScript(p: Propagator): seq<Action> {
    match p
    case Leaf(script) => script
    case Selected(_, inner) => LeafScript(inner)
  }

  /** Every selector is fixed to 1. */
  ghost predicate Active(p: Propagator, d: Doms) {
    match p
    case Leaf(_) => true
    case Selected(sel, inner) => sel < |d| && d[sel] == {1} && Active(inner, d)
  }

  /** A conflict of the leaf with the selectors around it added, innermost first. */
  function Stamped(p: Propagator, conflict: Option<seq<Fact>>): Option<seq<Fact>> {
    match p
    case Leaf(_) => conflict
    case Selected(sel, inner) =>
      var c := Stamped(inner, conflict);
      if c.Some? then Some(c.value + [Eq(sel, 1)]) else None
  }

  /** A stamped conflict is the leaf's own conflict followed by the selectors, innermost first. */
  lemma {:induction false} StampedIsOwn(p: Propagator, conflict: seq<Fact>)
    ensures
      var s := Stamped(p, Some(conflict));
      && s.Some? && |s.value| == |conflict| + |Selectors(p)| && s.value[..|conflict|] == conflict
      && forall i | 0 <= i < |Selectors(p)| :: s.value[|s.value| - 1 - i] == Selectors(p)[i]
  {
    if p.Selected? { StampedIsOwn(p.inner, conflict); }
  }

  /**
   What a run under selectors does: while all of them are 1, the leaf's script,
   with every reason and the conflict stamped; otherwise nothing.
   */
  ghost predicate RanAs(p: Propagator, was: Doms, guards: seq<Fact>, forceScope: bool, explain: bool,
      ok: bool, d: Doms, events: seq<EngineEvent>, seen: seq<Doms>, conflict: Option<seq<Fact>>)
  {
    && ScriptIn(LeafScript(p), |was|) && Nonempty(was)
    && if Active(p, was)
       then
         var o := ScriptOutcome(LeafScript(p), was, guards + Selectors(p), forceScope);
         && EndsAs(o.(conflict := Stamped(p, o.conflict)), ok, d, events, seen, conflict, explain)
         && Achieves(LeafScript(p), was, ok, d)
       else ok && d == was && events == [] && seen == [] && conflict == None
  }

  lemma RanLeaf(script: seq<Action>, was: Doms, guards: seq<Fact>, forceScope: bool, explain: bool,
      ok: bool, d: Doms, events: seq<EngineEvent>, seen: seq<Doms>, conflict: Option<seq<Fact>>)
    requires ScriptIn(script, |was|) && Nonempty(was) && Achieves(script, was, ok, d)
    requires EndsAs(ScriptOutcome(script, was, guards, forceScope), ok, d, events, seen, conflict, explain)
    ensures RanAs(Leaf(script), was, guards, forceScope, explain, ok, d, events, seen, conflict)
  {
    assert guards + [] == guards;
  }

  /** A selector that is 1 guards the reasons of the run inside it and is added to its conflict. */
  lemma RanSelected(sel: VarId, inner: Propagator, was: Doms, guards: seq<Fact>, forceScope: bool, explain: bool,
      ok: bool, d: Doms, events: seq<EngineEvent>, seen: seq<Doms>, conflict: Option<seq<Fact>>)
    requires sel < |was| && was[sel] == {1}
    requires RanAs(inner, was, guards + [Eq(sel, 1)], forceScope, explain, ok, d, events, seen, conflict)
    ensures RanAs(Selected(sel, inner), was, guards, forceScope, explain, ok, d, events, seen,
        if conflict.Some? then Some(conflict.value + [Eq(sel, 1)]) else None)
  {
    assert guards + [Eq(sel, 1)] + Selectors(inner) == guards + Selectors(Selected(sel, inner));
  }

  lemma {:induction false} ScriptOkIn(c: Constraint, p: Propagator, n: nat)
    requires ScriptOk(c, p, n)
    ensures ScriptIn(LeafScript(p), n)
  {
    match p
    case Leaf(script) =>
      forall i | 0 <= i < |script| ensures ActionIn(script[i], n) { assert ActionOk(c, script[i], n); }
    case Selected(_, inner) => ScriptOkIn(c, inner, n);
  }

  class Store {
    var doms: Doms
    var events: seq<EngineEvent>
    var pendingPremises: Option<seq<Fact>>
    var pendingConflict: Option<seq<Fact>>
    var injected: seq<Fact>
    var explain: bool
    var forceScope: bool
    // the domains at the time of each event
    ghost var seen: seq<Doms>

    constructor (doms: Doms, explain: bool, forceScope: bool)
      ensures this.doms == doms && events == [] && injected == [] && pendingPremises == None && pendingConflict == None
      ensures this.explain == explain && this.forceScope == forceScope && seen == []
    {
      seen := [];
      this.doms, this.explain, this.forceScope := doms, explain, forceScope;
      events, injected, pendingPremises, pendingConflict := [], [], None, None;
    }

    /** The reason for an imminent change; staged premises are always consumed. */
    method CauseFor(willChange: bool) returns (c: Cause)
      modifies `pendingPremises
      ensures pendingPremises == None
      ensures c == if old(pendingPremises).Some? && !forceScope
                   then Premises(if willChange then old(pendingPremises).value + injected else [])
                   else Cause.Scope
    {
      var pending := pendingPremises;
      pendingPremises := None;
      if pending.Some? && !forceScope {
        c := Premises(if willChange then pending.value + injected else []);
      } else {
        c := Cause.Scope;
      }
    }

    method Emit(primary: Fact, cause: Cause)
      modifies `events, `seen
      ensures events == if explain then old(events) + [EngineEvent(primary, cause)] else old(events)
      ensures seen == if explain then old(seen) + [doms] else old(seen)
    {
      if explain {
        events := events + [EngineEvent(primary, cause)];
        seen := seen + [doms];
      }
    }

    /** `remove`, `fix`, `remove_below` or `remove_above`; false on wipeout or an absent value. */
    method Mutate(f: Fact) returns (ok: bool)
      requires Nonempty(doms) && f.v < |doms|
      modifies `doms, `events, `seen, `pendingPremises
      ensures pendingPremises == None && |doms| == |old(doms)|
      ensures ok <==> Narrowed(f, old(doms)[f.v]) != {}
      ensures ok ==> doms == old(doms)[f.v := Narrowed(f, old(doms)[f.v])] && Nonempty(doms)
      ensures Sub(doms, old(doms))
      ensures seen == if ok && explain && doms != old(doms) then old(seen) + [doms] else old(seen)
      ensures var cause := if old(pendingPremises).Some? && !forceScope
                           then Premises(old(pendingPremises).value + injected)
                           else Cause.Scope;
              events == if ok && explain && doms != old(doms) then old(events) + [EngineEvent(f, cause)]
                        else old(events)
    {
      var d := doms[f.v];
      var cause := CauseFor(WillChange(f, d));
      if f.Eq? && f.val !in d { return false; }
      WillChangeIsRight(f, d);
      var s := Narrowed(f, d);
      NarrowOne(doms, f.v, s);
      if s == d { return true; }
      doms := doms[f.v := s];
      if s == {} { return false; }
      Emit(f, cause);
      return true;
    }

    /** A mutation explained by `why`, if any is given. */
    method MutateBecause(f: Fact, why: Option<seq<Fact>>) returns (ok: bool)
      requires Nonempty(doms) && f.v < |doms| && pendingPremises == None
      modifies `doms, `events, `seen, `pendingPremises
      ensures pendingPremises == None && |doms| == |old(doms)|
      ensures ok <==> Narrowed(f, old(doms)[f.v]) != {}
      ensures ok ==> doms == old(doms)[f.v := Narrowed(f, old(doms)[f.v])] && Nonempty(doms)
      ensures Sub(doms, old(doms))
      ensures seen == if ok && explain && doms != old(doms) then old(seen) + [doms] else old(seen)
      ensures var cause := if why.Some? && !forceScope then Premises(why.value + injected) else Cause.Scope;
              events == if ok && explain && doms != old(doms) then old(events) + [EngineEvent(f, cause)]
                        else old(events)
    {
      if why.Some? { pendingPremises := why; }
      ok := Mutate(f);
    }

    /** Report a conflict with a tight reason. */
    method FailBecause(why: seq<Fact>)
      modifies `pendingConflict
      ensures pendingConflict == Some(why)
    {
      pendingConflict := Some(why);
    }

    /**
     Set a Boolean decision because of `reason`. The opposite of a decided value
     is a conflict that cites the current value; for a mandatory interval there
     is none to cite, and forbidding it is a conflict of the reason alone.
     */
    method DecideBecause(v: Option<VarId>, target: int, reason: seq<Fact>) returns (ok: bool)
      requires Nonempty(doms) && (v.Some? ==> v.value < |doms|) && pendingPremises == None && pendingConflict == None
      modifies `doms, `events, `seen, `pendingPremises, `pendingConflict
      ensures pendingPremises == None && |doms| == |old(doms)|
      ensures v.None? ==> doms == old(doms) && events == old(events) && (ok <==> target == 1)
      ensures v.None? ==> pendingConflict == if target == 1 then None else Some(reason)
      ensures ok ==> pendingConflict == None && Nonempty(doms)
      ensures v.Some? && ok ==> doms == old(doms)[v.value := {target}]
      ensures Sub(doms, old(doms)) && (pendingConflict.Some? ==> Nonempty(doms))
      ensures seen == if v.Some? && ok && explain && doms != old(doms) then old(seen) + [doms] else old(seen)
      ensures v.Some? ==> (!ok <==> target !in old(doms)[v.value])
      ensures v.Some? ==> pendingConflict ==
                            if ok || !Fixed(old(doms)[v.value]) then None
                            else Some(reason + [Eq(v.value, MinOf(old(doms)[v.value]))])
      ensures var cause := if forceScope then Cause.Scope else Premises(reason + injected);
              events == if v.Some? && ok && explain && doms != old(doms)
                        then old(events) + [EngineEvent(Eq(v.value, target), cause)]
                        else old(events)
    {
      if v.None? {
        if target == 1 { return true; }
        FailBecause(reason);
        return false;
      }
      var d := doms[v.value];
      FixedIsSingleton(d);
      if Fixed(d) {
        var current := MinOf(d);
        if current == target {
          assert doms[v.value := {target}] == doms;
          return true;
        }
        FailBecause(reason + [Eq(v.value, current)]);
        return false;
      }
      assert target in d ==> Narrowed(Eq(v.value, target), d) == {target};
      assert target !in d ==> Narrowed(Eq(v.value, target), d) == {};
      ok := MutateBecause(Eq(v.value, target), Some(reason));
    }

    method PushConflictPremise(f: Fact)
      modifies `pendingConflict
      ensures pendingConflict == if old(pendingConflict).Some? then Some(old(pendingConflict).value + [f]) else None
    {
      if pendingConflict.Some? { pendingConflict := Some(pendingConflict.value + [f]); }
    }

    /** One thing a leaf does: at most one event, entailed by the guarded constraint while the guards are true. */
    method RunAction(c: Constraint, x: Action) returns (ok: bool)
      requires Nonempty(doms) && pendingPremises == None && pendingConflict == None && ActionOk(c, x, |doms|)
      modifies `doms, `events, `seen, `pendingPremises, `pendingConflict
      ensures Sub(doms, old(doms)) && pendingPremises == None
      ensures ok ==> Nonempty(doms) && pendingConflict == None
      ensures pendingConflict.Some? ==> Nonempty(doms) && Refutes(c, pendingConflict.value)
      ensures seen == if ok && explain && doms != old(doms) then old(seen) + [doms] else old(seen)
      ensures ActionIn(x, |doms|) && (ok <==> ActionResult(x, old(doms)).Some?)
      ensures ok ==> doms == ActionResult(x, old(doms)).value
      ensures ok && doms != old(doms) ==> EventOk(ActionEvent(x, injected, forceScope), Guarded(injected, c))
      ensures pendingConflict == if ok then None else ActionConflict(x, old(doms))
      ensures events == if ok && explain && doms != old(doms) then old(events) + [ActionEvent(x, injected, forceScope)]
                        else old(events)
    {
      ActionEntails(c, x, doms, injected, forceScope);
      match x {
        case Change(f, why) => ok := MutateBecause(f, why);
        case Decide(v, target, reason) => ok := DecideBecause(v, target, reason);
        case GiveUp(conflict) =>
          if conflict.Some? { FailBecause(conflict.value); }
          ok := false;
      }
    }

    /** The actions of a script one by one, up to the first failure. */
    method RunScript(c: Constraint, script: seq<Action>) returns (ok: bool)
      requires Nonempty(doms) && pendingPremises == None && pendingConflict == None
      requires forall i | 0 <= i < |script| :: ActionOk(c, script[i], |doms|)
      modifies `doms, `events, `seen, `pendingPremises, `pendingConflict
      ensures Sub(doms, old(doms)) && pendingPremises == None && (ok || pendingConflict.Some? ==> Nonempty(doms))
      ensures old(events) <= events && old(seen) <= seen && ScriptIn(script, |old(doms)|)
      ensures EndsAs(ScriptOutcome(script, old(doms), injected, forceScope), ok, doms, events[|old(events)|..],
                  seen[|old(seen)|..], pendingConflict, explain)
    {
      ScriptOkIn(c, Leaf(script), |doms|);
      ghost var was, eventsBefore, seenBefore := doms, events, seen;
      ghost var o := ScriptOutcome(script, doms, injected, forceScope);
      ghost var log: seq<EngineEvent>, boxes: seq<Doms> := [], [];
      assert script[0..] == script && [] + o.events == o.events && [] + o.seen == o.seen;
      ok := true;
      for k := 0 to |script|
        invariant ok && Sub(doms, was) && Nonempty(doms) && pendingPremises == None && pendingConflict == None
        invariant Recorded(explain, eventsBefore, log, events) && Recorded(explain, seenBefore, boxes, seen)
        invariant Running(o, script, k, doms, log, boxes, injected, forceScope)
      {
        assert ActionOk(c, script[k], |doms|);
        ghost var before, eventsNow, seenNow := doms, events, seen;
        RunningStep(o, script, k, doms, log, boxes, injected, forceScope);
        ok := RunAction(c, script[k]);
        SubTransitive(doms, before, was);
        if !ok { return; }
        if doms != before {
          RecordedMore(explain, eventsBefore, log, eventsNow, ActionEvent(script[k], injected, forceScope), events);
          RecordedMore(explain, seenBefore, boxes, seenNow, doms, seen);
          log, boxes := log + [ActionEvent(script[k], injected, forceScope)], boxes + [doms];
        }
      }
    }

    /** Run a leaf: every reason it records is entailed, and it achieves the greatest effect of its script. */
    method RunLeaf(c: Constraint, script: seq<Action>) returns (ok: bool)
      requires Nonempty(doms) && pendingPremises == None && pendingConflict == None
      requires forall i | 0 <= i < |script| :: ActionOk(c, script[i], |doms|)
      requires GuardsTrue(injected, doms) && |seen| == |events|
      modifies `doms, `events, `seen, `pendingPremises, `pendingConflict
      ensures Sub(doms, old(doms)) && pendingPremises == None
      ensures ok ==> Nonempty(doms) && pendingConflict == None
      ensures |old(events)| <= |events| && events[..|old(events)|] == old(events)
      ensures EventsOk(events[|old(events)|..], Guarded(injected, c))
      ensures pendingConflict.Some? ==> Refutes(c, pendingConflict.value)
      ensures |seen| == |events| && seen[..|old(seen)|] == old(seen) && TrueAt(injected, seen[|old(seen)|..])
      ensures ok || pendingConflict.Some? ==> GuardsTrue(injected, doms)
      ensures ScriptIn(script, |old(doms)|)
      ensures EndsAs(ScriptOutcome(script, old(doms), injected, forceScope), ok, doms, events[|old(events)|..],
                  seen[|old(seen)|..], pendingConflict, explain)
      ensures Achieves(script, old(doms), ok, doms)
    {
      ghost var was, before := doms, |events|;
      ok := RunScript(c, script);
      RunConcludes(c, script, was, injected, forceScope, ok, doms, events[before..], seen[before..], pendingConflict,
          explain);
      EventsAccount(script, was, injected, forceScope);
    }

    /**
     Run a propagator under any nesting of selectors. On every exit the injected
     premises are as they were; every event with premises and every staged
     conflict is entailed by "all selectors are 1 implies the constraint".
     */
    method RunGuarded(c: Constraint, p: Propagator) returns (ok: bool)
      requires Nonempty(doms) && pendingPremises == None && pendingConflict == None && ScriptOk(c, p, |doms|)
      requires GuardsTrue(injected, doms) && |seen| == |events|
      modifies `doms, `events, `seen, `pendingPremises, `pendingConflict, `injected
      ensures Sub(doms, old(doms)) && pendingPremises == None && injected == old(injected)
      ensures ok ==> Nonempty(doms) && pendingConflict == None
      ensures |old(events)| <= |events| && events[..|old(events)|] == old(events)
      ensures EventsOk(events[|old(events)|..], Guarded(old(injected) + Selectors(p), c))
      ensures pendingConflict.Some? ==> Refutes(Guarded(Selectors(p), c), pendingConflict.value)
      ensures |seen| == |events| && seen[..|old(seen)|] == old(seen)
      ensures TrueAt(old(injected) + Selectors(p), seen[|old(seen)|..])
      ensures pendingConflict.Some? ==> GuardsTrue(old(injected) + Selectors(p), doms)
      ensures RanAs(p, old(doms), old(injected), forceScope, explain, ok, doms, events[|old(events)|..],
                  seen[|old(seen)|..], pendingConflict)
      decreases p
    {
      ScriptOkIn(c, p, |doms|);
      match p
      case Leaf(script) =>
        ghost var was, from := doms, |events|;
        ok := RunLeaf(c, script);
        RanLeaf(script, was, injected, forceScope, explain, ok, doms, events[from..], seen[from..],
            pendingConflict);
        assert injected + [] == injected;
        if pendingConflict.Some? { Unguarded(c, pendingConflict.value); }
      case Selected(sel, inner) =>
        assert events[|events|..] == [];
        FixedIsSingleton(doms[sel]);
        if !Fixed(doms[sel]) { return true; }
        if MinOf(doms[sel]) != 1 { return true; }
        var premise := Eq(sel, 1);
        ghost var was, from := doms, |events|;
        GuardsAppend(injected, [premise], doms);
        injected := injected + [premise];
        ok := RunGuarded(c, inner);
        assert old(injected) + [premise] + Selectors(inner) == old(injected) + Selectors(p);
        RanSelected(sel, inner, was, old(injected), forceScope, explain, ok, doms, events[from..], seen[from..],
            pendingConflict);
        if !ok {
          if pendingConflict.Some? { StampedConflict(c, premise, Selectors(inner), pendingConflict.value); }
          PushConflictPremise(premise);
        }
        injected := injected[..|injected| - 1];
        assert injected == old(injected);
    }

    /** A scheduled run: stale reasons are cleared first, so only the propagator's own selectors guard its reasons. */
    method RunProp(c: Constraint, p: Propagator) returns (ok: bool)
      requires Nonempty(doms) && ScriptOk(c, p, |doms|) && |seen| == |events|
      modifies `doms, `events, `seen, `pendingPremises, `pendingConflict, `injected
      ensures |doms| == |old(doms)| && pendingPremises == None && injected == []
      ensures |old(events)| <= |events| && events[..|old(events)|] == old(events)
      ensures EventsOk(events[|old(events)|..], Guarded(Selectors(p), c))
      ensures pendingConflict.Some? ==> !ok && Refutes(Guarded(Selectors(p), c), pendingConflict.value)
      ensures |seen| == |events| && seen[..|old(seen)|] == old(seen) && TrueAt(Selectors(p), seen[|old(seen)|..])
      ensures pendingConflict.Some? ==> GuardsTrue(Selectors(p), doms)
      ensures RanAs(p, old(doms), [], forceScope, explain, ok, doms, events[|old(events)|..],
                  seen[|old(seen)|..], pendingConflict)
    {
      pendingPremises, pendingConflict, injected := None, None, [];
      ok := RunGuarded(c, p);
      assert [] + Selectors(p) == Selectors(p);
    }
  }
}
