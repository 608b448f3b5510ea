/**
 Weighted degrees (src/store.rs): the incremental per-variable cache always
 equals the sum of the weights over the variable's subscription entries.
 */
module WeightCache {
  import opened Common
  import opened Domains

  type PropId = nat

  /** A propagator that is still being registered counts with weight 1. */
  function WeightOf(weights: seq<nat>, p: PropId): nat { if p < |weights| then weights[p] else 1 }

  /** Sum of weights over subscription entries, one term per entry. */
  function Degree(entries: seq<Entry>, weights: seq<nat>): nat {
    if entries == [] then 0
    else Degree(entries[..|entries| - 1], weights) + WeightOf(weights, entries[|entries| - 1].prop)
  }

  /** Number of entries of `p`. */
  function Multiplicity(entries: seq<Entry>, p: PropId): nat {
    if entries == [] then 0
    else Multiplicity(entries[..|entries| - 1], p) + (if entries[|entries| - 1].prop == p then 1 else 0)
  }

  lemma {:induction false} BumpedDegree(entries: seq<Entry>, weights: seq<nat>, p: PropId)
    requires p < |weights|
    ensures Degree(entries, weights[p := weights[p] + 1]) == Degree(entries, weights) + Multiplicity(entries, p)
  {
    if entries != [] { BumpedDegree(entries[..|entries| - 1], weights, p); }
  }

  lemma {:induction false} PostedDegree(entries: seq<Entry>, weights: seq<nat>)
    ensures Degree(entries, weights + [1]) == Degree(entries, weights)
  {
    if entries != [] { PostedDegree(entries[..|entries| - 1], weights); }
  }

  lemma {:induction false} NoEntries(entries: seq<Entry>, p: PropId)
    requires forall k | 0 <= k < |entries| :: entries[k].prop != p
    ensures Multiplicity(entries, p) == 0
  {
    if entries != [] { NoEntries(entries[..|entries| - 1], p); }
  }

  /** First occurrences only, in order. */
  function Dedup(s: seq<VarId>): (r: seq<VarId>)
    ensures Distinct(r) && forall v :: v in r <==> v in s
  {
    if s == [] then []
    else
      var init, last := s[..|s| - 1], s[|s| - 1];
      var r := Dedup(init);
      assert s == init + [last];
      assert forall i | 0 <= i < |r| :: r[i] in r;
      if last in r then r else r + [last]
  }

  /** `u` occurs before the first occurrence of `v`. */
  ghost predicate Before(s: seq<VarId>, u: VarId, v: VarId) {
    exists i :: 0 <= i < |s| && s[i] == u && v !in s[..i + 1]
  }

  lemma BeforeStays(s: seq<VarId>, last: VarId, u: VarId, v: VarId)
    requires Before(s, u, v) || (u in s && v !in s && v == last)
    ensures Before(s + [last], u, v)
  {
    var i :| 0 <= i < |s| && s[i] == u && v !in s[..i + 1];
    assert (s + [last])[..i + 1] == s[..i + 1];
  }

  /** What is left of a list are its first occurrences, in their order. */
  lemma {:induction false} DedupKeepsOrder(s: seq<VarId>)
    ensures var r := Dedup(s); forall j, k | 0 <= j < k < |r| :: Before(s, r[j], r[k])
  {
    if s != [] {
      var init, last := s[..|s| - 1], s[|s| - 1];
      assert s == init + [last];
      DedupKeepsOrder(init);
      var r := Dedup(s);
      assert forall i | 0 <= i < |Dedup(init)| :: Dedup(init)[i] in init;
      forall j, k | 0 <= j < k < |r| ensures Before(s, r[j], r[k]) {
        assert k < |Dedup(init)| || (r[k] == last && last !in init && r[j] == Dedup(init)[j]);
        BeforeStays(init, last, r[j], r[k]);
      }
    }
  }

  /** `v`'s entries belong to allocated propagators whose scope lists `v`. */
  ghost predicate EntriesScoped(entries: seq<Entry>, v: VarId, scope: seq<seq<VarId>>) {
    forall k | 0 <= k < |entries| :: entries[k].prop < |scope| && v in scope[entries[k].prop]
  }

  /** One step of a registration. */
  datatype Registration = NewVariable | SubscribeTo(v: VarId, event: Event)

  /** How many variables the steps create. */
  function Created(steps: seq<Registration>): nat {
    if steps == [] then 0 else Created(steps[..|steps| - 1]) + (if steps[|steps| - 1].NewVariable? then 1 else 0)
  }

  /** The variables the steps subscribe to, in order. */
  function Mentioned(steps: seq<Registration>): seq<VarId> {
    if steps == [] then []
    else
      var last := steps[|steps| - 1];
      Mentioned(steps[..|steps| - 1]) + (if last.SubscribeTo? then [last.v] else [])
  }

  lemma {:induction false} MentionedIff(steps: seq<Registration>, v: VarId)
    ensures v in Mentioned(steps) <==> exists e :: SubscribeTo(v, e) in steps
  {
    if steps != [] {
      var init, last := steps[..|steps| - 1], steps[|steps| - 1];
      MentionedIff(init, v);
      assert steps == init + [last];
    }
  }

  /** Every subscription is to a variable that exists by then, of which there are `n` at the start. */
  ghost predicate StepsOk(steps: seq<Registration>, n: nat) {
    forall k | 0 <= k < |steps| && steps[k].SubscribeTo? :: steps[k].v < n + Created(steps[..k])
  }

  function AfterStep(subs: seq<seq<Entry>>, step: Registration, p: PropId): seq<seq<Entry>> {
    match step
    case NewVariable => subs + [[]]
    case SubscribeTo(v, event) =>
      if v < |subs| && Entry(event, p) !in subs[v] then subs[v := subs[v] + [Entry(event, p)]] else subs
  }

  /** The subscriptions a registration of `p` leaves. */
  function AfterSteps(subs: seq<seq<Entry>>, steps: seq<Registration>, p: PropId): seq<seq<Entry>> {
    if steps == [] then subs else AfterStep(AfterSteps(subs, steps[..|steps| - 1], p), steps[|steps| - 1], p)
  }

  /** Entries of other propagators are the old ones, and no old entry is lost. */
  ghost predicate OnlyAdds(before: seq<seq<Entry>>, p: PropId, after: seq<seq<Entry>>) {
    && |before| <= |after|
    && (forall v | 0 <= v < |before| :: before[v] <= after[v])
    && (forall v, k | 0 <= v < |after| && 0 <= k < |after[v]| && after[v][k].prop != p ::
        v < |before| && k < |before[v]|)
  }

  ghost predicate Subscribed(steps: seq<Registration>, p: PropId, v: VarId, entries: seq<Entry>) {
    forall e :: Entry(e, p) in entries <==> SubscribeTo(v, e) in steps
  }

  ghost predicate AllSubscribed(steps: seq<Registration>, p: PropId, after: seq<seq<Entry>>) {
    && (forall v | 0 <= v < |after| :: Subscribed(steps, p, v, after[v]))
    && (forall s | s in steps && s.SubscribeTo? :: s.v < |after|)
  }

  /** `p` is subscribed exactly as the steps say, and nothing else has changed. */
  ghost predicate Registered(before: seq<seq<Entry>>, steps: seq<Registration>, p: PropId, after: seq<seq<Entry>>) {
    |after| == |before| + Created(steps) && OnlyAdds(before, p, after) && AllSubscribed(steps, p, after)
  }

  /** What the next step adds. */
  lemma PrefixStep(subs: seq<seq<Entry>>, steps: seq<Registration>, k: nat, p: PropId)
    requires k < |steps|
    ensures Created(steps[..k + 1]) == Created(steps[..k]) + (if steps[k].NewVariable? then 1 else 0)
    ensures Mentioned(steps[..k + 1]) == Mentioned(steps[..k]) + (if steps[k].SubscribeTo? then [steps[k].v] else [])
    ensures AfterSteps(subs, steps[..k + 1], p) == AfterStep(AfterSteps(subs, steps[..k], p), steps[k], p)
  {
    assert steps[..k + 1][..k] == steps[..k] && steps[..k + 1][k] == steps[k];
  }

  lemma {:induction false} StepsRegister(subs: seq<seq<Entry>>, steps: seq<Registration>, p: PropId)
    requires StepsOk(steps, |subs|)
    requires forall v, e | 0 <= v < |subs| :: Entry(e, p) !in subs[v]
    ensures Registered(subs, steps, p, AfterSteps(subs, steps, p))
    decreases |steps|
  {
    if steps != [] {
      var init, last := steps[..|steps| - 1], steps[|steps| - 1];
      assert steps == init + [last];
      assert StepsOk(init, |subs|) by {
        forall k | 0 <= k < |init| && init[k].SubscribeTo? ensures init[k].v < |subs| + Created(init[..k]) {
          assert init[..k] == steps[..k] && steps[k] == init[k];
        }
      }
      StepsRegister(subs, init, p);
      assert last.SubscribeTo? ==> last.v < |subs| + Created(init);
      StepRegisters(subs, init, last, p, AfterSteps(subs, init, p));
    }
  }

  lemma StepSubscribes(init: seq<Registration>, last: Registration, p: PropId, mid: seq<seq<Entry>>)
    requires AllSubscribed(init, p, mid) && (last.SubscribeTo? ==> last.v < |mid|)
    ensures AllSubscribed(init + [last], p, AfterStep(mid, last, p))
  {
    var after := AfterStep(mid, last, p);
    forall v | 0 <= v < |after| ensures Subscribed(init + [last], p, v, after[v]) {
      if v < |mid| { assert Subscribed(init, p, v, mid[v]); }
    }
  }

  lemma StepRegisters(before: seq<seq<Entry>>, init: seq<Registration>, last: Registration, p: PropId,
                      mid: seq<seq<Entry>>)
    requires Registered(before, init, p, mid) && (last.SubscribeTo? ==> last.v < |mid|)
    ensures Registered(before, init + [last], p, AfterStep(mid, last, p))
  {
    StepSubscribes(init, last, p, mid);
    assert (init + [last])[..|init|] == init;
  }

  class Degrees {
    var subs: seq<seq<Entry>>
    var scope: seq<seq<VarId>>
    var weights: seq<nat>
    var cache: seq<nat>

    /** The cache agrees with the weights; every entry is in scope; posted scopes have no repeats. */
    ghost predicate Valid()
      reads this
    {
      && |cache| == |subs| && |weights| <= |scope|
      && (forall v | 0 <= v < |subs| :: cache[v] == Degree(subs[v], weights))
      && (forall v | 0 <= v < |subs| :: EntriesScoped(subs[v], v, scope))
      && (forall p | 0 <= p < |scope| :: ScopeOk(scope[p], |subs|))
      && (forall p | 0 <= p < |weights| :: Distinct(scope[p]))
    }

    constructor ()
      ensures Valid() && subs == [] && scope == [] && weights == []
    {
      subs, scope, weights, cache := [], [], [], [];
    }

    method NewVar() returns (v: VarId)
      requires Valid()
      modifies this
      ensures Valid() && v == |old(subs)| && subs == old(subs) + [[]] && weights == old(weights) && scope == old(scope)
    {
      v := |subs|;
      forall p | 0 <= p < |scope| ensures ScopeOk(scope[p], |subs| + 1) { assert ScopeOk(scope[p], |subs|); }
      subs, cache := subs + [[]], cache + [0];
    }

    method AllocProp() returns (p: PropId)
      requires Valid() && |scope| == |weights|
      modifies this
      ensures Valid() && p == |old(scope)| && scope == old(scope) + [[]] && subs == old(subs) && weights == old(weights)
    {
      p := |scope|;
      ghost var before := scope;
      scope := scope + [[]];
      forall v | 0 <= v < |subs| ensures EntriesScoped(subs[v], v, scope) { assert EntriesScoped(subs[v], v, before); }
    }

    /** Subscribe the propagator being registered; a repeated entry adds nothing. */
    method Subscribe(v: VarId, p: PropId, event: Event)
      requires Valid() && v < |subs| && p == |weights| == |scope| - 1
      modifies this
      ensures Valid() && |subs| == |old(subs)| && weights == old(weights) && |scope| == |old(scope)|
      ensures subs == if Entry(event, p) in old(subs)[v] then old(subs)
                      else old(subs)[v := old(subs)[v] + [Entry(event, p)]]
      ensures scope == old(scope)[p := old(scope)[p] + [v]]
    {
      ghost var oldSubs, oldScope := subs, scope;
      scope := scope[p := scope[p] + [v]];
      if Entry(event, p) !in subs[v] {
        var entries := subs[v] + [Entry(event, p)];
        assert entries[..|subs[v]|] == subs[v];
        subs := subs[v := entries];
        cache := cache[v := cache[v] + 1];
      }
      forall w | 0 <= w < |subs| ensures EntriesScoped(subs[w], w, scope) {
        assert EntriesScoped(oldSubs[w], w, oldScope);
      }
      assert ScopeOk(oldScope[p], |subs|);
    }

    /** One step of the registration of `p`. */
    method Register(step: Registration, p: PropId)
      requires Valid() && p == |weights| == |scope| - 1 && (step.SubscribeTo? ==> step.v < |subs|)
      modifies this
      ensures Valid() && weights == old(weights) && subs == AfterStep(old(subs), step, p)
      ensures |scope| == |old(scope)| && scope[..p] == old(scope)[..p]
      ensures scope[p] == old(scope)[p] + (if step.SubscribeTo? then [step.v] else [])
    {
      match step
      case NewVariable => var _ := NewVar();
      case SubscribeTo(v, event) => Subscribe(v, p, event);
    }

    /**
     Registration, scope de-duplication and the initial weight of a complete
     post. A registration may create variables between its subscriptions.
     */
    method Post(steps: seq<Registration>) returns (p: PropId)
      requires Valid() && |scope| == |weights| && StepsOk(steps, |subs|)
      modifies this
      ensures Valid() && |scope| == |weights| && p == |old(weights)| && weights == old(weights) + [1]
      ensures subs == AfterSteps(old(subs), steps, p) && Registered(old(subs), steps, p, subs)
      ensures scope == old(scope) + [Dedup(Mentioned(steps))]
    {
      ghost var before := scope;
      p := AllocProp();
      forall v, e | 0 <= v < |subs| ensures Entry(e, p) !in subs[v] { assert EntriesScoped(subs[v], v, old(scope)); }
      StepsRegister(subs, steps, p);
      for k := 0 to |steps|
        invariant Valid() && p == |weights| == |scope| - 1 && weights == old(weights)
        invariant subs == AfterSteps(old(subs), steps[..k], p) && |subs| == |old(subs)| + Created(steps[..k])
        invariant |scope| == p + 1 && scope[..p] == before && scope[p] == Mentioned(steps[..k])
      {
        PrefixStep(old(subs), steps, k, p);
        Register(steps[k], p);
      }
      assert steps[..|steps|] == steps;
      FinishScope(p);
      assert scope == before + [Dedup(Mentioned(steps))];
    }

    /** Drop the repeated variables of the scope and give the propagator its weight. */
    method FinishScope(p: PropId)
      requires Valid() && p == |weights| == |scope| - 1
      modifies `scope, `weights
      ensures Valid() && |scope| == |weights| && weights == old(weights) + [1]
      ensures scope == old(scope)[p := Dedup(old(scope)[p])]
    {
      ghost var before := scope;
      scope := scope[p := Dedup(scope[p])];
      forall v | 0 <= v < |subs| ensures EntriesScoped(subs[v], v, scope) { assert EntriesScoped(subs[v], v, before); }
      forall q | 0 <= q < |scope| ensures ScopeOk(scope[q], |subs|) {
        assert ScopeOk(before[q], |subs|);
        if q == p { assert forall i | 0 <= i < |scope[p]| :: scope[p][i] in before[p]; }
      }
      forall v | 0 <= v < |subs| ensures Degree(subs[v], weights + [1]) == Degree(subs[v], weights) {
        PostedDegree(subs[v], weights);
      }
      weights := weights + [1];
    }

    /** A propagator failed: bump its weight and mirror the bump into the cache. */
    method Fail(p: PropId)
      requires Valid() && p < |weights|
      modifies `weights, `cache
      ensures Valid() && weights == old(weights)[p := old(weights)[p] + 1]
    {
      ghost var oldWeights := weights;
      weights := weights[p := weights[p] + 1];
      var vars := scope[p];
      for i := 0 to |vars|
        invariant |cache| == |subs| && weights == oldWeights[p := oldWeights[p] + 1]
        invariant forall v | 0 <= v < |subs| ::
                    cache[v] == Degree(subs[v], oldWeights) + (if v in vars[..i] then Multiplicity(subs[v], p) else 0)
      {
        assert ScopeOk(vars, |subs|);
        var v := vars[i];
        assert v !in vars[..i];
        assert vars[..i + 1] == vars[..i] + [v];
        cache := cache[v := cache[v] + Multiplicity(subs[v], p)];
      }
      assert vars[..|vars|] == vars;
      forall v | 0 <= v < |subs| ensures cache[v] == Degree(subs[v], weights) {
        BumpedDegree(subs[v], oldWeights, p);
        if v !in vars {
          assert EntriesScoped(subs[v], v, scope);
          NoEntries(subs[v], p);
        }
      }
    }

    /** The weighted degree by rescanning the subscriptions. */
    function VarWeight(v: VarId): nat
      requires v < |subs|
      reads this
    {
      Common.Max(Degree(subs[v], weights), 1)
    }

    /** The weighted degree from the cache: the same number. */
    method VarWeightCached(v: VarId) returns (w: nat)
      requires Valid() && v < |subs|
      ensures w == VarWeight(v) && w >= 1
    {
      w := Common.Max(cache[v], 1);
    }
  }

  ghost predicate ScopeOk(vars: seq<VarId>, nvars: nat) { forall i | 0 <= i < |vars| :: vars[i] < nvars }
}
