/**
 The store's propagation queue and the fixpoint loop (src/store.rs), over the
 sparse-set domains of a `DomainStore`. A propagator narrows them through the
 store's mutators, and levels are those of the trail.
 */
module Stores {
  import opened Common
  import opened Domains
  import opened DomainStores

  const NBANDS: nat := 3

  function Band(p: Priority): nat {
    match p
    case Cheap => 0
    case Linear => 1
    case Expensive => 2
  }

  type Queues = seq<seq<nat>>

  /** The band a propagator is queued on. */
  function BandOf(props: seq<Propagator>, singleBand: bool, p: nat): nat
    requires p < |props|
  {
    if singleBand then 0 else Band(props[p].priority)
  }

  ghost predicate InBand(q: seq<nat>, b: nat, props: seq<Propagator>, singleBand: bool) {
    && Distinct(q)
    && forall p | p in q :: p < |props| && BandOf(props, singleBand, p) == b
  }

  /** Flagged propagators are exactly the queued ones, each once and in its own band. */
  ghost predicate QueueOk(queues: Queues, enqueued: seq<bool>, props: seq<Propagator>, singleBand: bool) {
    && |queues| == NBANDS && |enqueued| == |props|
    && (forall b | 0 <= b < NBANDS :: InBand(queues[b], b, props, singleBand))
    && (forall p | 0 <= p < |props| :: enqueued[p] <==> p in queues[BandOf(props, singleBand, p)])
  }

  function Length(queues: Queues): nat {
    if queues == [] then 0 else |queues[0]| + Length(queues[1..])
  }

  lemma {:induction false} LengthUpdate(queues: Queues, b: nat, q: seq<nat>)
    requires b < |queues|
    ensures Length(queues[b := q]) == Length(queues) - |queues[b]| + |q|
  {
    if b > 0 {
      assert queues[b := q][1..] == queues[1..][b - 1 := q];
      LengthUpdate(queues[1..], b - 1, q);
    } else {
      assert queues[0 := q][1..] == queues[1..];
    }
  }

  /** What happens to the queues when `p` is pushed on band `b`. */
  function Pushed(queues: Queues, b: nat, p: nat): Queues
    requires b < |queues|
  {
    queues[b := queues[b] + [p]]
  }

  lemma PushKeepsQueue(queues: Queues, enqueued: seq<bool>, props: seq<Propagator>, singleBand: bool, p: nat)
    requires QueueOk(queues, enqueued, props, singleBand) && p < |props| && !enqueued[p]
    ensures QueueOk(Pushed(queues, BandOf(props, singleBand, p), p), enqueued[p := true], props, singleBand)
  {
    var b := BandOf(props, singleBand, p);
    var q := queues[b] + [p];
    assert InBand(queues[b], b, props, singleBand);
    assert forall i | 0 <= i < |queues[b]| :: queues[b][i] in queues[b];
    assert InBand(q, b, props, singleBand);
  }

  lemma PopKeepsQueue(queues: Queues, enqueued: seq<bool>, props: seq<Propagator>, singleBand: bool, b: nat)
    requires QueueOk(queues, enqueued, props, singleBand) && b < NBANDS && queues[b] != []
    ensures queues[b][0] < |props|
    ensures QueueOk(queues[b := queues[b][1..]], enqueued[queues[b][0] := false], props, singleBand)
  {
    var q := queues[b];
    var p := q[0];
    assert InBand(q, b, props, singleBand);
    assert p in q;
    assert q == [p] + q[1..];
    assert forall x | x in q[1..] :: x in q && x != p;
    assert InBand(q[1..], b, props, singleBand);
  }

  /** The order of the costs: cheap before linear before expensive. */
  predicate NoCostlier(a: Priority, b: Priority) { a == Cheap || b == Expensive || a == b }

  /** What is queued on the lowest non-empty band costs no more than anything queued. */
  lemma LowestBandIsCheapest(queues: Queues, enqueued: seq<bool>, props: seq<Propagator>, b: nat, p: nat)
    requires QueueOk(queues, enqueued, props, false) && b < NBANDS && p in queues[b]
    requires forall c | 0 <= c < b :: queues[c] == []
    ensures p < |props|
    ensures forall q | 0 <= q < |props| && enqueued[q] :: NoCostlier(props[p].priority, props[q].priority)
  {
    assert InBand(queues[b], b, props, false);
    forall q | 0 <= q < |props| && enqueued[q] ensures NoCostlier(props[p].priority, props[q].priority) {
      assert q in queues[BandOf(props, false, q)];
      assert BandOf(props, false, p) == b <= BandOf(props, false, q);
    }
  }

  lemma {:induction false} NothingQueued(queues: Queues)
    requires forall b | 0 <= b < |queues| :: queues[b] == []
    ensures Length(queues) == 0
  {
    if queues != [] {
      assert queues[0] == [];
      NothingQueued(queues[1..]);
    }
  }

  /** Every common fixpoint below `start` is below `d`. */
  ghost predicate Bounding(props: seq<Propagator>, start: Doms, d: Doms) {
    forall g | Sub(g, start) && CommonFixpoint(props, g) :: Sub(g, d)
  }

  /** Running one propagator keeps every common fixpoint. */
  lemma FilterBounds(props: seq<Propagator>, subs: seq<seq<Entry>>, p: nat, start: Doms, d: Doms)
    requires Lawful(props, subs) && p < |props| && |start| == |d| == |subs| && Bounding(props, start, d)
    ensures Bounding(props, start, props[p].filter(d))
  {
    assert LawfulProp(props[p], p, subs);
    forall g | Sub(g, start) && CommonFixpoint(props, g) ensures Sub(g, props[p].filter(d)) {
      assert FixedBy(props[p], g);
      assert Sub(g, d);
      assert Sub(props[p].filter(g), props[p].filter(d));
    }
  }

  lemma EmptyRefutes(props: seq<Propagator>, start: Doms, d: Doms)
    requires Bounding(props, start, d) && !Nonempty(d)
    ensures Refuted(props, start)
  {
    var v :| 0 <= v < |d| && d[v] == {};
    forall g | Sub(g, start) && CommonFixpoint(props, g) ensures !Nonempty(g) {
      assert Sub(g, d);
      assert g[v] <= d[v];
    }
  }

  /** Whether an entry for `event` hears a change that moved a bound or fixed the variable. */
  predicate Hears(event: Event, boundsMoved: bool, isFixed: bool) {
    event == DomainChange || (boundsMoved && event == BoundChange) || (isFixed && event == Event.Fix)
  }

  predicate Heard(entries: seq<Entry>, p: nat, boundsMoved: bool, isFixed: bool) {
    exists k | 0 <= k < |entries| :: entries[k].prop == p && Hears(entries[k].event, boundsMoved, isFixed)
  }

  /** Propagator `p` is queued, or has nothing left to do. */
  ghost predicate Settled(props: seq<Propagator>, enqueued: seq<bool>, d: Doms, p: nat)
    requires p < |props| == |enqueued|
  {
    enqueued[p] || FixedBy(props[p], d)
  }

  /** No domain is empty and every propagator but the running one is settled. */
  ghost predicate AllSettled(props: seq<Propagator>, enqueued: seq<bool>, d: Doms, running: Option<nat>) {
    && |enqueued| == |props| && Nonempty(d)
    && forall p {:trigger Settled(props, enqueued, d, p)} | 0 <= p < |props| && running != Some(p) ::
        Settled(props, enqueued, d, p)
  }

  /** Dequeuing a propagator to run it leaves the others settled. */
  lemma SettledWithout(props: seq<Propagator>, enqueued: seq<bool>, d: Doms, p: nat)
    requires AllSettled(props, enqueued, d, None) && p < |props|
    ensures AllSettled(props, enqueued[p := false], d, Some(p))
  {
    forall q | 0 <= q < |props| && Some(p) != Some(q) ensures Settled(props, enqueued[p := false], d, q) {
      assert Settled(props, enqueued, d, q);
    }
  }

  /** A propagator at its fixpoint is settled once it stops running. */
  lemma SettledAgain(props: seq<Propagator>, enqueued: seq<bool>, d: Doms, p: nat)
    requires AllSettled(props, enqueued, d, Some(p)) && p < |props| && FixedBy(props[p], d)
    ensures AllSettled(props, enqueued, d, None)
  {
    forall q | 0 <= q < |props| ensures Settled(props, enqueued, d, q) {
      assert q != p ==> Settled(props, enqueued, d, q);
    }
  }

  /** With an empty queue every propagator is at a fixpoint. */
  lemma SettledIsFixpoint(props: seq<Propagator>, enqueued: seq<bool>, d: Doms)
    requires AllSettled(props, enqueued, d, None) && forall p | 0 <= p < |enqueued| :: !enqueued[p]
    ensures CommonFixpoint(props, d)
  {
    forall p | 0 <= p < |props| ensures FixedBy(props[p], d) { assert Settled(props, enqueued, d, p); }
  }

  /** Waking its subscribers makes a change safe for every propagator that is not running. */
  lemma SettledByWaking(props: seq<Propagator>, subs: seq<seq<Entry>>, was: seq<bool>, now: seq<bool>, d: Doms,
                        running: Option<nat>, v: nat, s: Dom)
    requires Lawful(props, subs) && |d| == |subs| && v < |subs| && s < d[v] && s != {}
    requires AllSettled(props, was, d, running)
    requires Woken(now, was, running, subs[v], MinOf(s) != MinOf(d[v]) || MaxOf(s) != MaxOf(d[v]), Fixed(s))
    ensures AllSettled(props, now, d[v := s], running)
  {
    forall p | 0 <= p < |props| && running != Some(p) ensures Settled(props, now, d[v := s], p) {
      assert Settled(props, was, d, p);
      if !now[p] {
        HeardIsWoken(subs[v], p, d[v], s);
        assert LawfulProp(props[p], p, subs);
        assert FixedBy(props[p], d[v := s]);
      }
    }
  }

  predicate EntriesOk(entries: seq<Entry>, nprops: nat) {
    forall k | 0 <= k < |entries| :: entries[k].prop < nprops
  }

  /** The flags after waking the subscribers in `entries` that hear a change. */
  ghost predicate Woken(now: seq<bool>, was: seq<bool>, current: Option<nat>, entries: seq<Entry>,
                        boundsMoved: bool, isFixed: bool)
  {
    && |now| == |was|
    && forall p | 0 <= p < |now| ::
        now[p] == (was[p] || (current != Some(p) && Heard(entries, p, boundsMoved, isFixed)))
  }

  /** The flags after a domain went from `before` to `after`: those of the subscribers that the change wakes are set. */
  ghost predicate Awake(now: seq<bool>, was: seq<bool>, current: Option<nat>, entries: seq<Entry>, before: Dom,
                        after: Dom)
    requires before != {} && after != {}
  {
    && |now| == |was|
    && forall p | 0 <= p < |now| ::
        now[p] == (was[p] || (before != after && current != Some(p) && Wakes(entries, p, before, after)))
  }

  lemma WokenIsAwake(now: seq<bool>, was: seq<bool>, current: Option<nat>, entries: seq<Entry>, before: Dom, after: Dom)
    requires before != {} && after != {}
    requires if before == after then now == was
             else Woken(now, was, current, entries, MinOf(after) != MinOf(before) || MaxOf(after) != MaxOf(before),
                      Fixed(after))
    ensures Awake(now, was, current, entries, before, after)
  {
    forall p | 0 <= p < |now|
      ensures now[p] == (was[p] || (before != after && current != Some(p) && Wakes(entries, p, before, after)))
    {
      HeardIsWoken(entries, p, before, after);
    }
  }

  /** A mutation of one domain. */
  datatype Mutation = Drop(val: int) | FixAt(val: int) | Floor(bound: int) | Ceiling(bound: int)

  /** The values it keeps; fixing is only asked of a present value. */
  function Kept(m: Mutation, s: Dom): Dom {
    match m
    case Drop(val) => s - {val}
    case FixAt(val) => {val}
    case Floor(bound) => AtLeast(s, bound)
    case Ceiling(bound) => AtMost(s, bound)
  }

  /** The mutation changes `s` and keeps all of `target`. */
  predicate Toward(m: Mutation, s: Dom, target: Dom) {
    target <= Kept(m, s) < s && (m.FixAt? ==> m.val in s)
  }

  lemma TowardTarget(d: Doms, target: Doms, v: nat, m: Mutation)
    requires Sub(target, d) && v < |d| && Toward(m, d[v], target[v])
    ensures
      var e := d[v := Kept(m, d[v])];
      Sub(e, d) && Sub(target, e) && Size(e) < Size(d) && (e[v] == {} ==> !Nonempty(target))
  {
    var e := d[v := Kept(m, d[v])];
    assert e[v] != d[v];
    SizeShrinks(e, d);
  }

  class Solver {
    const props: seq<Propagator>
    const subs: seq<seq<Entry>>
    const singleBand: bool
    const store: DomainStore
    var queues: Queues
    var enqueued: seq<bool>
    var current: Option<nat>

    ghost predicate Valid()
      reads this, store, store.trail
    {
      && store.Valid()
      && Lawful(props, subs)
      && (forall v | 0 <= v < |subs| :: EntriesOk(subs[v], |props|))
      && |store.doms| == |subs|
      && QueueOk(queues, enqueued, props, singleBand)
    }

    /** Every propagator other than the running one is queued or at a fixpoint. */
    ghost predicate Ready()
      reads this, store
    {
      AllSettled(props, enqueued, store.doms, current)
    }

    predicate Drained()
      reads this
    {
      forall p | 0 <= p < |enqueued| :: !enqueued[p]
    }

    constructor (props: seq<Propagator>, subs: seq<seq<Entry>>, singleBand: bool, store: DomainStore)
      requires store.Valid() && store.saved == []
      requires Lawful(props, subs) && |store.doms| == |subs|
      requires forall v | 0 <= v < |subs| :: EntriesOk(subs[v], |props|)
      ensures Valid() && Drained() && current == None
      ensures this.props == props && this.subs == subs && this.singleBand == singleBand && this.store == store
    {
      this.props, this.subs, this.singleBand, this.store := props, subs, singleBand, store;
      queues, current := [[], [], []], None;
      enqueued := seq(|props|, _ => false);
    }

    // --- the queue ----------------------------------------------------------------------

    /** `enqueue`, and the enqueueing half of `wake`. */
    method Enqueue(p: nat)
      requires p < |props| && QueueOk(queues, enqueued, props, singleBand)
      modifies `queues, `enqueued
      ensures QueueOk(queues, enqueued, props, singleBand)
      ensures enqueued == old(enqueued)[p := true]
      ensures queues == if old(enqueued)[p] then old(queues) else Pushed(old(queues), BandOf(props, singleBand, p), p)
    {
      if !enqueued[p] {
        PushKeepsQueue(queues, enqueued, props, singleBand, p);
        enqueued := enqueued[p := true];
        var b := BandOf(props, singleBand, p);
        queues := queues[b := queues[b] + [p]];
      }
    }

    method EnqueueAll()
      requires Valid()
      modifies `queues, `enqueued
      ensures Valid() && forall p | 0 <= p < |props| :: enqueued[p]
      ensures Nonempty(store.doms) ==> Ready()
    {
      for i := 0 to |props|
        invariant QueueOk(queues, enqueued, props, singleBand)
        invariant forall p | 0 <= p < i :: enqueued[p]
      {
        Enqueue(i);
      }
    }

    /** Pop the front of the lowest non-empty band. */
    method Dequeue() returns (r: Option<nat>)
      requires QueueOk(queues, enqueued, props, singleBand)
      modifies `queues, `enqueued
      ensures QueueOk(queues, enqueued, props, singleBand)
      ensures r.None? ==> enqueued == old(enqueued) && queues == old(queues)
      ensures r.None? ==> Drained() && forall b | 0 <= b < NBANDS :: queues[b] == []
      ensures r.Some? ==>
                && r.value < |props| && old(enqueued)[r.value] && enqueued == old(enqueued)[r.value := false]
                && Length(queues) == Length(old(queues)) - 1
                && var b := BandOf(props, singleBand, r.value);
                && old(queues)[b] == [r.value] + queues[b]
                && (forall c | 0 <= c < b :: old(queues)[c] == [])
                && (forall c | 0 <= c < NBANDS && c != b :: queues[c] == old(queues)[c])
      ensures r.Some? && !singleBand ==>
          forall q | 0 <= q < |props| && old(enqueued)[q] :: NoCostlier(props[r.value].priority, props[q].priority)
      ensures r.Some? && singleBand ==> old(queues)[0] == [r.value] + queues[0]
    {
      for b := 0 to NBANDS
        invariant queues == old(queues) && enqueued == old(enqueued)
        invariant forall c | 0 <= c < b :: queues[c] == []
      {
        if queues[b] != [] {
          var p := queues[b][0];
          PopKeepsQueue(queues, enqueued, props, singleBand, b);
          LengthUpdate(queues, b, queues[b][1..]);
          assert InBand(queues[b], b, props, singleBand) && p in queues[b];
          if !singleBand { LowestBandIsCheapest(queues, enqueued, props, b, p); }
          queues := queues[b := queues[b][1..]];
          enqueued := enqueued[p := false];
          return Some(p);
        }
      }
      return None;
    }

    /** Drop every queued propagator. */
    method ClearQueue()
      requires QueueOk(queues, enqueued, props, singleBand)
      modifies `queues, `enqueued
      ensures QueueOk(queues, enqueued, props, singleBand) && Drained()
      ensures forall b | 0 <= b < NBANDS :: queues[b] == []
    {
      for b := 0 to NBANDS
        invariant QueueOk(queues, enqueued, props, singleBand)
        invariant forall c | 0 <= c < b :: queues[c] == []
      {
        while queues[b] != []
          invariant QueueOk(queues, enqueued, props, singleBand)
          invariant forall c | 0 <= c < b :: queues[c] == []
          decreases |queues[b]|
        {
          PopKeepsQueue(queues, enqueued, props, singleBand, b);
          var p := queues[b][0];
          queues := queues[b := queues[b][1..]];
          enqueued := enqueued[p := false];
        }
      }
    }

    // --- domain changes -------------------------------------------------------------------

    /** Wake the subscribers of `v` that hear the change, except the running propagator. */
    method Notify(v: nat, boundsMoved: bool, isFixed: bool)
      requires QueueOk(queues, enqueued, props, singleBand) && v < |subs| && EntriesOk(subs[v], |props|)
      modifies `queues, `enqueued
      ensures QueueOk(queues, enqueued, props, singleBand)
      ensures Woken(enqueued, old(enqueued), current, subs[v], boundsMoved, isFixed)
    {
      var entries := subs[v];
      for k := 0 to |entries|
        invariant QueueOk(queues, enqueued, props, singleBand)
        invariant Woken(enqueued, old(enqueued), current, entries[..k], boundsMoved, isFixed)
      {
        HeardAppend(entries, k, boundsMoved, isFixed);
        assert entries[k].prop < |props|;
        if Hears(entries[k].event, boundsMoved, isFixed) {
          if current != Some(entries[k].prop) { Enqueue(entries[k].prop); }
        }
      }
      assert entries[..|entries|] == entries;
    }

    /** Wipeout check and wake-up after a real change of `v`. */
    method AfterChange(v: nat, oldMin: int, oldMax: int) returns (ok: bool)
      requires Valid() && v < |subs|
      modifies `queues, `enqueued
      ensures Valid() && (ok <==> store.doms[v] != {})
      ensures !ok ==> queues == old(queues) && enqueued == old(enqueued)
      ensures ok ==> Woken(enqueued, old(enqueued), current, subs[v],
                           MinOf(store.doms[v]) != oldMin || MaxOf(store.doms[v]) != oldMax, Fixed(store.doms[v]))
    {
      var size := store.Size(v);
      if size == 0 { return false; }
      var newMin, newMax := store.Bounds(v);
      var boundsMoved := newMin != oldMin || newMax != oldMax;
      Notify(v, boundsMoved, size == 1);
      return true;
    }

    /** The end of every mutator: the store has just replaced the domain of `v`, which was `was`. */
    method Finish(v: nat, changed: bool, oldMin: int, oldMax: int, ghost was: Dom) returns (ok: bool)
      requires Valid() && v < |subs| && store.doms[v] <= was != {} && (changed <==> store.doms[v] != was)
      requires oldMin == MinOf(was) && oldMax == MaxOf(was)
      modifies `queues, `enqueued
      ensures Valid() && (ok <==> store.doms[v] != {})
      ensures !ok || !changed ==> queues == old(queues) && enqueued == old(enqueued)
      ensures ok && AllSettled(props, old(enqueued), store.doms[v := was], current) ==> Ready()
      ensures ok ==> Awake(enqueued, old(enqueued), current, subs[v], was, store.doms[v])
    {
      ok := true;
      if changed {
        ok := AfterChange(v, oldMin, oldMax);
        if ok && AllSettled(props, old(enqueued), store.doms[v := was], current) {
          SettledByWaking(props, subs, old(enqueued), enqueued, store.doms[v := was], current, v, store.doms[v]);
          assert store.doms[v := was][v := store.doms[v]] == store.doms;
        }
      } else {
        assert store.doms[v := was] == store.doms;
      }
      if ok { WokenIsAwake(enqueued, old(enqueued), current, subs[v], was, store.doms[v]); }
    }

    /** Remove one value. */
    method Remove(v: nat, val: int) returns (ok: bool)
      requires Valid() && v < |subs| && Nonempty(store.doms)
      modifies `queues, `enqueued, store, store.trail
      ensures Valid() && store.saved == old(store.saved)
      ensures store.doms == old(store.doms)[v := old(store.doms)[v] - {val}] && (ok <==> store.doms[v] != {})
      ensures ok && old(Ready()) ==> Ready()
      ensures ok ==> Awake(enqueued, old(enqueued), current, subs[v], old(store.doms)[v], store.doms[v])
      ensures !ok ==> queues == old(queues) && enqueued == old(enqueued)
    {
      var oldMin, oldMax := store.Bounds(v);
      var changed := store.Remove(v, val);
      assert store.doms[v := old(store.doms)[v]] == old(store.doms);
      ok := Finish(v, changed, oldMin, oldMax, old(store.doms)[v]);
    }

    /** Fix `v` to `val`; an absent value fails without touching the domain. */
    method FixTo(v: nat, val: int) returns (ok: bool)
      requires Valid() && v < |subs| && Nonempty(store.doms)
      modifies `queues, `enqueued, store, store.trail
      ensures Valid() && store.saved == old(store.saved) && (ok <==> val in old(store.doms)[v])
      ensures store.doms == if ok then old(store.doms)[v := {val}] else old(store.doms)
      ensures ok && old(Ready()) ==> Ready()
      ensures ok ==> Awake(enqueued, old(enqueued), current, subs[v], old(store.doms)[v], store.doms[v])
      ensures !ok ==> queues == old(queues) && enqueued == old(enqueued)
    {
      var oldMin, oldMax := store.Bounds(v);
      var changed;
      ok, changed := store.Fix(v, val);
      if !ok { return false; }
      FixedIsSingleton(old(store.doms)[v]);
      assert store.doms[v := old(store.doms)[v]] == old(store.doms);
      ok := Finish(v, changed, oldMin, oldMax, old(store.doms)[v]);
    }

    /** Remove every value below `bound`. */
    method RemoveBelow(v: nat, bound: int) returns (ok: bool)
      requires Valid() && v < |subs| && Nonempty(store.doms)
      modifies `queues, `enqueued, store, store.trail
      ensures Valid() && store.saved == old(store.saved)
      ensures store.doms == old(store.doms)[v := AtLeast(old(store.doms)[v], bound)] && (ok <==> store.doms[v] != {})
      ensures ok && old(Ready()) ==> Ready()
      ensures ok ==> Awake(enqueued, old(enqueued), current, subs[v], old(store.doms)[v], store.doms[v])
      ensures !ok ==> queues == old(queues) && enqueued == old(enqueued)
    {
      var oldMin, oldMax := store.Bounds(v);
      var changed := store.RemoveBelow(v, bound);
      assert store.doms[v := old(store.doms)[v]] == old(store.doms);
      ok := Finish(v, changed, oldMin, oldMax, old(store.doms)[v]);
    }

    /** Remove every value above `bound`. */
    method RemoveAbove(v: nat, bound: int) returns (ok: bool)
      requires Valid() && v < |subs| && Nonempty(store.doms)
      modifies `queues, `enqueued, store, store.trail
      ensures Valid() && store.saved == old(store.saved)
      ensures store.doms == old(store.doms)[v := AtMost(old(store.doms)[v], bound)] && (ok <==> store.doms[v] != {})
      ensures ok && old(Ready()) ==> Ready()
      ensures ok ==> Awake(enqueued, old(enqueued), current, subs[v], old(store.doms)[v], store.doms[v])
      ensures !ok ==> queues == old(queues) && enqueued == old(enqueued)
    {
      var oldMin, oldMax := store.Bounds(v);
      var changed := store.RemoveAbove(v, bound);
      assert store.doms[v := old(store.doms)[v]] == old(store.doms);
      ok := Finish(v, changed, oldMin, oldMax, old(store.doms)[v]);
    }

    // --- levels ------------------------------------------------------------------------------

    /** Open a level of the trail. */
    method PushLevel()
      requires Valid()
      modifies store, store.trail
      ensures Valid() && store.doms == old(store.doms) && store.saved == old(store.saved) + [store.doms]
    {
      store.PushLevel();
    }

    /** Close a level: the undo log brings back the domains of its opening. */
    method PopLevel()
      requires Valid() && store.saved != []
      modifies store, store.trail
      ensures Valid() && store.doms == old(store.saved)[|old(store.saved)| - 1]
      ensures store.saved == old(store.saved)[..|old(store.saved)| - 1]
    {
      store.PopLevel();
    }

    // --- the fixpoint loop -----------------------------------------------------------------------

    /** Any of the four mutators. */
    method Mutate(v: nat, m: Mutation) returns (ok: bool)
      requires Valid() && v < |subs| && Nonempty(store.doms) && (m.FixAt? ==> m.val in store.doms[v])
      modifies `queues, `enqueued, store, store.trail
      ensures Valid() && store.saved == old(store.saved)
      ensures store.doms == old(store.doms)[v := Kept(m, old(store.doms)[v])] && (ok <==> store.doms[v] != {})
      ensures ok && old(Ready()) ==> Ready()
    {
      match m
      case Drop(val) => ok := Remove(v, val);
      case FixAt(val) => ok := FixTo(v, val);
      case Floor(bound) => ok := RemoveBelow(v, bound);
      case Ceiling(bound) => ok := RemoveAbove(v, bound);
    }

    /** One mutation of a running propagator: some domain moves toward `target`. */
    method NarrowToward(now: Doms, target: Doms) returns (ok: bool, next: Doms)
      requires Valid() && Ready() && now == store.doms && Sub(target, store.doms) && store.doms != target
      modifies `queues, `enqueued, store, store.trail
      ensures Valid() && store.saved == old(store.saved) && next == store.doms
          && Size(store.doms) < Size(old(store.doms))
      ensures if ok then Ready() && Sub(target, store.doms) else !Nonempty(target)
    {
      var v, m := SomeMutation(now, target);
      TowardTarget(now, target, v, m);
      ok := Mutate(v, m);
      next := store.ReadDoms();
    }

    /** Any sequence of mutations down to `target`; giving up shows that it has an empty domain. */
    method RunTo(target: Doms) returns (ok: bool)
      requires Valid() && Ready() && Sub(target, store.doms)
      modifies `queues, `enqueued, store, store.trail
      ensures Valid() && store.saved == old(store.saved) && Size(store.doms) <= Size(old(store.doms))
      ensures if ok then Ready() && store.doms == target else !Nonempty(target)
      ensures queues == old(queues) || Size(store.doms) < Size(old(store.doms))
    {
      var now := store.ReadDoms();
      var gaveUp: bool := *;
      ok := !(gaveUp && !Nonempty(target));
      while ok && now != target
        invariant Valid() && now == store.doms && store.saved == old(store.saved)
        invariant if ok then Ready() && Sub(target, store.doms) else !Nonempty(target)
        invariant Size(store.doms) <= Size(old(store.doms))
            && (queues == old(queues) || Size(store.doms) < Size(old(store.doms)))
        decreases ok, Size(store.doms)
      {
        ok, now := NarrowToward(now, target);
      }
    }

    /** Run propagator `p`, down to the box its filter names. */
    method RunProp(p: nat) returns (ok: bool)
      requires Valid() && p < |props| && current == None && Nonempty(store.doms)
      requires AllSettled(props, enqueued, store.doms, Some(p))
      modifies `queues, `enqueued, `current, store, store.trail
      ensures Valid() && store.saved == old(store.saved) && current == None
      ensures ok ==> Ready() && store.doms == props[p].filter(old(store.doms))
      ensures ok && store.doms == old(store.doms) ==> Length(queues) == Length(old(queues))
      ensures !ok ==> Drained() && !Nonempty(props[p].filter(old(store.doms)))
    {
      var now := store.ReadDoms();
      FilterFacts(props, subs, p, store.doms);
      current := Some(p);
      ok := RunTo(props[p].filter(now));
      if !ok {
        current := None;
        ClearQueue();
        return false;
      }
      SettledAgain(props, enqueued, store.doms, p);
      current := None;
      return true;
    }

    /**
     Run the queue to the fixpoint. Success leaves the greatest common fixpoint
     below the initial domains, failure means it has an empty domain: neither
     depends on the bands or on the queue order.
     */
    method Propagate() returns (ok: bool)
      requires Valid() && current == None && Ready()
      modifies `queues, `enqueued, `current, store, store.trail
      ensures Valid() && store.saved == old(store.saved) && current == None && Drained()
      ensures ok ==> Nonempty(store.doms) && GreatestFixpoint(props, old(store.doms), store.doms)
      ensures !ok ==> Refuted(props, old(store.doms))
    {
      while true
        invariant Valid() && current == None && Ready() && store.saved == old(store.saved)
        invariant Sub(store.doms, old(store.doms)) && Bounding(props, old(store.doms), store.doms)
        decreases Size(store.doms), Length(queues)
      {
        ghost var before, flags := store.doms, enqueued;
        var next := Dequeue();
        if next.None? {
          SettledIsFixpoint(props, enqueued, store.doms);
          return true;
        }
        var p := next.value;
        FilterFacts(props, subs, p, store.doms);
        FilterBounds(props, subs, p, old(store.doms), store.doms);
        SettledWithout(props, flags, store.doms, p);
        ok := RunProp(p);
        if !ok {
          EmptyRefutes(props, old(store.doms), props[p].filter(before));
          return false;
        }
        SizeShrinks(store.doms, before);
        SubTransitive(store.doms, before, old(store.doms));
      }
    }
  }

  lemma ProperSubsetMisses(t: Dom, s: Dom)
    requires t < s
    ensures exists x :: x in s && x !in t
  {
    assert (forall x | x in s :: x in t) ==> s <= t;
  }

  /** Any mutation that moves some domain toward `target`. */
  method SomeMutation(now: Doms, target: Doms) returns (v: nat, m: Mutation)
    requires Sub(target, now) && now != target
    ensures v < |now| && Toward(m, now[v], target[v])
  {
    v := Differing(now, target);
    m := *;
    if !Toward(m, now[v], target[v]) {
      ProperSubsetMisses(target[v], now[v]);
      var val :| val in now[v] && val !in target[v];
      assert target[v] <= now[v] - {val};
      m := Drop(val);
    }
  }

  method Differing(d: Doms, e: Doms) returns (v: nat)
    requires Sub(e, d) && d != e
    ensures v < |d| && e[v] < d[v]
  {
    v := 0;
    while d[v] == e[v]
      invariant v < |d| && forall w | 0 <= w < v :: d[w] == e[w]
      decreases |d| - v
    {
      assert (forall w | 0 <= w < v + 1 :: d[w] == e[w]) && v + 1 == |d| ==> d == e;
      v := v + 1;
    }
    assert e[v] <= d[v];
  }

  lemma HeardAppend(entries: seq<Entry>, k: nat, boundsMoved: bool, isFixed: bool)
    requires k < |entries|
    ensures forall p :: Heard(entries[..k + 1], p, boundsMoved, isFixed) <==>
                        Heard(entries[..k], p, boundsMoved, isFixed)
                            || (entries[k].prop == p && Hears(entries[k].event, boundsMoved, isFixed))
  {
    forall p
      ensures Heard(entries[..k + 1], p, boundsMoved, isFixed) <==>
              Heard(entries[..k], p, boundsMoved, isFixed)
                  || (entries[k].prop == p && Hears(entries[k].event, boundsMoved, isFixed))
    {
      assert entries[..k + 1][k] == entries[k];
      if Heard(entries[..k], p, boundsMoved, isFixed) {
        var j :| 0 <= j < k && entries[..k][j].prop == p && Hears(entries[..k][j].event, boundsMoved, isFixed);
        assert entries[..k + 1][j] == entries[j];
      }
    }
  }

  lemma HeardIsWoken(entries: seq<Entry>, p: nat, before: Dom, after: Dom)
    requires before != {} && after != {}
    ensures Wakes(entries, p, before, after) <==>
            Heard(entries, p, MinOf(after) != MinOf(before) || MaxOf(after) != MaxOf(before), Fixed(after))
  {
  }
}
