/**
 The domains of a store on one trail (src/store.rs, src/domains/int.rs): every
 mutation changes one domain, and opening and closing a level saves and brings
 back all of them, although the trail records single cells only. The propagation
 loop and the search run on such a store.
 */
module DomainStores {
  import opened Domains
  import opened Trails
  import opened SparseSets

  /** Two domains use different cells. */
  predicate Apart(d: Storage, e: Storage) { {d.size, d.min, d.max} !! {e.size, e.min, e.max} }

  ghost predicate AllOk(ds: seq<Storage>, t: Stack) {
    && (forall v | 0 <= v < |ds| :: Ok(ds[v], t))
    && (forall v, w | 0 <= v < w < |ds| :: Apart(ds[v], ds[w]))
  }

  /** The current domains. */
  ghost function DomsOf(ds: seq<Storage>, t: Stack): (r: Doms)
    requires AllOk(ds, t)
    ensures |r| == |ds| && forall v | 0 <= v < |ds| :: r[v] == At(ds[v], t.current)
  {
    seq(|ds|, v requires 0 <= v < |ds| => At(ds[v], t.current))
  }

  /** The domains at every open level. */
  ghost function SavedOf(ds: seq<Storage>, t: Stack): (r: seq<Doms>)
    requires AllOk(ds, t)
    ensures |r| == |t.saved|
    ensures forall k | 0 <= k < |r| :: |r[k]| == |ds| && forall v | 0 <= v < |ds| :: r[k][v] == History(ds[v], t)[k]
  {
    seq(|t.saved|, k requires 0 <= k < |t.saved| => seq(|ds|, v requires 0 <= v < |ds| => History(ds[v], t)[k]))
  }

  /** A change of `d`'s cells leaves a domain with other cells alone. */
  lemma Untouched(d: Storage, e: Storage, s: Stack, t: Stack)
    requires OwnCells(d, s, t) && Apart(d, e) && Ok(e, s)
    ensures Ok(e, t) && At(e, t.current) == At(e, s.current) && History(e, t) == History(e, s)
  {
    assert e.size !in {d.size, d.min, d.max} && e.min !in {d.size, d.min, d.max} && e.max !in {d.size, d.min, d.max};
    forall k | 0 <= k < |t.saved| ensures LevelFits(e, t, k) { assert LevelFits(e, s, k); }
    forall k, l | 0 <= k < l < |t.saved| ensures Nested(e, t, k, l) { assert Nested(e, s, k, l); }
    assert History(e, t) == History(e, s);
  }

  lemma ChangeOne(ds: seq<Storage>, s: Stack, v: nat, e: Storage, t: Stack, target: Dom)
    requires AllOk(ds, s) && v < |ds| && Becomes(ds[v], s, e, t, target)
    ensures AllOk(ds[v := e], t)
    ensures DomsOf(ds[v := e], t) == DomsOf(ds, s)[v := target] && SavedOf(ds[v := e], t) == SavedOf(ds, s)
  {
    var es := ds[v := e];
    forall w | 0 <= w < |es| && w != v
      ensures Ok(es[w], t) && At(es[w], t.current) == At(ds[w], s.current) && History(es[w], t) == History(ds[w], s)
    {
      Untouched(ds[v], ds[w], s, t);
    }
    forall k | 0 <= k < |t.saved| ensures SavedOf(es, t)[k] == SavedOf(ds, s)[k] {
      forall w | 0 <= w < |ds| ensures SavedOf(es, t)[k][w] == SavedOf(ds, s)[k][w] {}
    }
  }

  lemma PushOne(d: Storage, s: Stack)
    requires Ok(d, s)
    ensures Ok(d, StackStep(s, PushLevel))
    ensures History(d, StackStep(s, PushLevel)) == History(d, s) + [At(d, s.current)]
  {
    var t := StackStep(s, PushLevel);
    forall k | 0 <= k < |t.saved| ensures LevelFits(d, t, k) { if k < |s.saved| { assert LevelFits(d, s, k); } }
    forall k, l | 0 <= k < l < |t.saved| ensures Nested(d, t, k, l) {
      assert LevelFits(d, s, k);
      if l < |s.saved| { assert Nested(d, s, k, l); }
    }
    forall k | 0 <= k < |t.saved| ensures History(d, t)[k] == (History(d, s) + [At(d, s.current)])[k] {}
  }

  lemma PopOne(d: Storage, s: Stack)
    requires Ok(d, s) && s.saved != []
    ensures Ok(d, StackStep(s, PopLevel))
    ensures At(d, StackStep(s, PopLevel).current) == History(d, s)[|s.saved| - 1]
    ensures History(d, StackStep(s, PopLevel)) == History(d, s)[..|s.saved| - 1]
  {
    var t, top := StackStep(s, PopLevel), |s.saved| - 1;
    assert LevelFits(d, s, top);
    forall k | 0 <= k < |t.saved| ensures LevelFits(d, t, k) { assert LevelFits(d, s, k) && Nested(d, s, k, top); }
    forall k, l | 0 <= k < l < |t.saved| ensures Nested(d, t, k, l) { assert Nested(d, s, k, l); }
    forall k | 0 <= k < |t.saved| ensures History(d, t)[k] == History(d, s)[k] {}
  }

  /** Opening a level saves every domain. */
  lemma PushAll(ds: seq<Storage>, s: Stack)
    requires AllOk(ds, s)
    ensures AllOk(ds, StackStep(s, PushLevel))
    ensures DomsOf(ds, StackStep(s, PushLevel)) == DomsOf(ds, s)
    ensures SavedOf(ds, StackStep(s, PushLevel)) == SavedOf(ds, s) + [DomsOf(ds, s)]
  {
    var t := StackStep(s, PushLevel);
    forall v | 0 <= v < |ds| ensures Ok(ds[v], t) && History(ds[v], t) == History(ds[v], s) + [At(ds[v], s.current)] {
      PushOne(ds[v], s);
    }
    var r := SavedOf(ds, s) + [DomsOf(ds, s)];
    forall k | 0 <= k < |t.saved| ensures SavedOf(ds, t)[k] == r[k] {
      forall v | 0 <= v < |ds| ensures SavedOf(ds, t)[k][v] == r[k][v] {}
    }
  }

  /** Closing a level brings every domain back to what it was when the level was opened. */
  lemma PopAll(ds: seq<Storage>, s: Stack)
    requires AllOk(ds, s) && s.saved != []
    ensures AllOk(ds, StackStep(s, PopLevel))
    ensures DomsOf(ds, StackStep(s, PopLevel)) == SavedOf(ds, s)[|s.saved| - 1]
    ensures SavedOf(ds, StackStep(s, PopLevel)) == SavedOf(ds, s)[..|s.saved| - 1]
  {
    var t := StackStep(s, PopLevel);
    forall v | 0 <= v < |ds|
      ensures Ok(ds[v], t) && At(ds[v], t.current) == History(ds[v], s)[|s.saved| - 1]
      ensures History(ds[v], t) == History(ds[v], s)[..|s.saved| - 1]
    {
      PopOne(ds[v], s);
    }
    forall k | 0 <= k < |t.saved| ensures SavedOf(ds, t)[k] == SavedOf(ds, s)[k] {
      forall v | 0 <= v < |ds| ensures SavedOf(ds, t)[k][v] == SavedOf(ds, s)[k][v] {}
    }
  }

  /** Cells allocated at the root leave the earlier domains alone. */
  lemma Extended(ds: seq<Storage>, s: Stack, t: Stack)
    requires AllOk(ds, s) && s.saved == t.saved == [] && |s.current| <= |t.current|
        && t.current[..|s.current|] == s.current
    ensures AllOk(ds, t) && DomsOf(ds, t) == DomsOf(ds, s)
  {
    forall v | 0 <= v < |ds| ensures Ok(ds[v], t) && At(ds[v], t.current) == At(ds[v], s.current) {
      var d := ds[v];
      assert HandlesOk(d, |s.current|);
      assert t.current[d.size] == s.current[d.size] && t.current[d.min] == s.current[d.min]
          && t.current[d.max] == s.current[d.max];
    }
  }

  lemma AddOne(ds: seq<Storage>, s: Stack, t: Stack, d: Storage)
    requires AllOk(ds, s) && s.saved == t.saved == [] && |s.current| <= |t.current|
        && t.current[..|s.current|] == s.current
    requires Ok(d, t) && d.size >= |s.current| && d.min >= |s.current| && d.max >= |s.current|
    ensures AllOk(ds + [d], t) && DomsOf(ds + [d], t) == DomsOf(ds, s) + [At(d, t.current)]
  {
    Extended(ds, s, t);
    forall v | 0 <= v < |ds| ensures Apart(ds[v], d) { assert HandlesOk(ds[v], |s.current|); }
  }

  /** The first `n` domains and their cells stand for the first `n` of `doms` and of each of `saved`. */
  ghost predicate Holds(ds: seq<Storage>, t: Stack, doms: Doms, saved: seq<Doms>, n: nat)
    requires n <= |ds|
  {
    && |doms| == |ds| && |saved| == |t.saved| && (forall k | 0 <= k < |saved| :: |saved[k]| == |ds|)
    && (n == 0 || (
          && Holds(ds, t, doms, saved, n - 1)
          && Ok(ds[n - 1], t) && (forall v | 0 <= v < n - 1 :: Apart(ds[v], ds[n - 1]))
          && doms[n - 1] == At(ds[n - 1], t.current)
          && forall k | 0 <= k < |saved| :: saved[k][n - 1] == History(ds[n - 1], t)[k]))
  }

  lemma {:induction false} HoldsAt(ds: seq<Storage>, t: Stack, doms: Doms, saved: seq<Doms>, n: nat, v: nat)
    requires v < n <= |ds| && Holds(ds, t, doms, saved, n)
    ensures Ok(ds[v], t) && doms[v] == At(ds[v], t.current)
    ensures forall k | 0 <= k < |saved| :: saved[k][v] == History(ds[v], t)[k]
    ensures forall w | 0 <= w < v :: Apart(ds[w], ds[v])
  {
    if v < n - 1 { HoldsAt(ds, t, doms, saved, n - 1, v); }
  }

  lemma {:induction false} HoldsFrom(ds: seq<Storage>, t: Stack, n: nat)
    requires n <= |ds| && AllOk(ds, t)
    ensures Holds(ds, t, DomsOf(ds, t), SavedOf(ds, t), n)
  {
    if n > 0 { HoldsFrom(ds, t, n - 1); }
  }

  lemma HoldsAll(ds: seq<Storage>, t: Stack, doms: Doms, saved: seq<Doms>)
    requires Holds(ds, t, doms, saved, |ds|)
    ensures AllOk(ds, t) && doms == DomsOf(ds, t) && saved == SavedOf(ds, t)
  {
    forall v | 0 <= v < |ds|
      ensures Ok(ds[v], t) && doms[v] == At(ds[v], t.current) && forall w | 0 <= w < v :: Apart(ds[w], ds[v])
      ensures forall k | 0 <= k < |saved| :: saved[k][v] == History(ds[v], t)[k]
    {
      HoldsAt(ds, t, doms, saved, |ds|, v);
    }
    assert AllOk(ds, t);
    forall k | 0 <= k < |saved| ensures saved[k] == SavedOf(ds, t)[k] {}
  }

  /** A mutation of one domain, on what the cells stand for. */
  lemma ChangeHolds(ds: seq<Storage>, s: Stack, doms: Doms, saved: seq<Doms>, v: nat, e: Storage, t: Stack, target: Dom)
    requires Holds(ds, s, doms, saved, |ds|) && v < |ds| && Ok(ds[v], s) && Becomes(ds[v], s, e, t, target)
    ensures Holds(ds[v := e], t, doms[v := target], saved, |ds|)
  {
    HoldsAll(ds, s, doms, saved);
    ChangeOne(ds, s, v, e, t, target);
    HoldsFrom(ds[v := e], t, |ds|);
  }

  // --- the store --------------------------------------------------------------------------------

  class DomainStore {
    const trail: Trail
    var domains: seq<Storage>

    // the current domains, and those of every open level
    ghost var doms: Doms
    ghost var saved: seq<Doms>

    ghost predicate Valid()
      reads this, trail
    {
      trail.Valid() && Holds(domains, trail.Snapshots(), doms, saved, |domains|)
    }

    constructor ()
      ensures Valid() && doms == [] && saved == [] && fresh(trail)
    {
      trail := new Trail();
      domains, doms, saved := [], [], [];
    }

    /** A variable over all `n` values of a range or a list; created at the root. */
    method NewVar(m: ValueMap, n: nat) returns (v: nat)
      requires Valid() && saved == [] && MapOk(m, n) && n > 0
      modifies this, trail
      ensures Valid() && saved == [] && v == |old(doms)| && doms == old(doms) + [Support(m, n)]
    {
      HoldsAll(domains, trail.Snapshots(), doms, saved);
      ghost var s := trail.Snapshots();
      var d := Create(trail, m, n);
      AddOne(domains, s, trail.Snapshots(), d);
      v := |domains|;
      domains := domains + [d];
      HoldsFrom(domains, trail.Snapshots(), |domains|);
      doms := doms + [Support(m, n)];
    }

    /** A variable over a compact set with gaps; created at the root. */
    method NewGappedVar(offset: int, present: seq<bool>) returns (v: nat)
      requires Valid() && saved == [] && MapOk(Range(offset), |present|)
      requires present != [] && present[0] && present[|present| - 1]
      modifies this, trail
      ensures Valid() && saved == [] && v == |old(doms)| && doms == old(doms) + [Marked(offset, present)]
    {
      HoldsAll(domains, trail.Snapshots(), doms, saved);
      ghost var s := trail.Snapshots();
      var d := CreateGapped(trail, offset, present);
      AddOne(domains, s, trail.Snapshots(), d);
      v := |domains|;
      domains := domains + [d];
      HoldsFrom(domains, trail.Snapshots(), |domains|);
      doms := doms + [Marked(offset, present)];
    }

    /** Number of values of `v`. */
    method Size(v: nat) returns (n: nat)
      requires Valid() && v < |domains|
      ensures n == |doms[v]| && (n == 0 <==> doms[v] == {})
    {
      HoldsAt(domains, trail.Snapshots(), doms, saved, |domains|, v);
      n := trail.Get(domains[v].size);
      MembersSize(domains[v], n);
    }

    /** Least and greatest value of `v`. */
    method Bounds(v: nat) returns (lo: int, hi: int)
      requires Valid() && v < |domains|
      ensures doms[v] != {} ==> lo == MinOf(doms[v]) && hi == MaxOf(doms[v])
    {
      HoldsAt(domains, trail.Snapshots(), doms, saved, |domains|, v);
      MembersSize(domains[v], trail.values[domains[v].size]);
      lo := trail.Get(domains[v].min);
      hi := trail.Get(domains[v].max);
    }

    /** The values of every variable. */
    method ReadDoms() returns (d: Doms)
      requires Valid()
      ensures d == doms
    {
      d := [];
      for v := 0 to |domains|
        invariant |d| == v && forall w | 0 <= w < v :: d[w] == doms[w]
      {
        HoldsAt(domains, trail.Snapshots(), doms, saved, |domains|, v);
        var n := trail.Get(domains[v].size);
        d := d + [Members(domains[v], n)];
      }
    }

    /** Remove one value. */
    method Remove(v: nat, val: int) returns (changed: bool)
      requires Valid() && v < |domains|
      modifies this, trail
      ensures Valid() && saved == old(saved) && doms == old(doms)[v := old(doms)[v] - {val}]
      ensures changed <==> doms != old(doms)
    {
      HoldsAt(domains, trail.Snapshots(), doms, saved, |domains|, v);
      ghost var s := trail.Snapshots();
      var e;
      e, changed := SparseSets.Remove(domains[v], trail, val);
      ChangeHolds(domains, s, doms, saved, v, e, trail.Snapshots(), doms[v] - {val});
      assert doms[v] - {val} != doms[v] <==> val in doms[v];
      domains, doms := domains[v := e], doms[v := doms[v] - {val}];
    }

    /** Fix to one value; fails without a change if it is absent. */
    method Fix(v: nat, val: int) returns (ok: bool, changed: bool)
      requires Valid() && v < |domains|
      modifies this, trail
      ensures Valid() && saved == old(saved) && (ok <==> val in old(doms)[v])
      ensures doms == if ok then old(doms)[v := {val}] else old(doms)
      ensures changed <==> ok && |old(doms)[v]| > 1
    {
      HoldsAt(domains, trail.Snapshots(), doms, saved, |domains|, v);
      ghost var s := trail.Snapshots();
      var e;
      e, ok, changed := SparseSets.Fix(domains[v], trail, val);
      ghost var target := if ok then {val} else doms[v];
      ChangeHolds(domains, s, doms, saved, v, e, trail.Snapshots(), target);
      domains, doms := domains[v := e], doms[v := target];
    }

    /** Remove the values below `bound`. */
    method RemoveBelow(v: nat, bound: int) returns (changed: bool)
      requires Valid() && v < |domains|
      modifies this, trail
      ensures Valid() && saved == old(saved) && doms == old(doms)[v := AtLeast(old(doms)[v], bound)]
      ensures changed <==> doms != old(doms)
    {
      HoldsAt(domains, trail.Snapshots(), doms, saved, |domains|, v);
      ghost var s := trail.Snapshots();
      var e;
      e, changed := SparseSets.RemoveBelow(domains[v], trail, bound);
      ChangeHolds(domains, s, doms, saved, v, e, trail.Snapshots(), AtLeast(doms[v], bound));
      domains, doms := domains[v := e], doms[v := AtLeast(doms[v], bound)];
    }

    /** Remove the values above `bound`. */
    method RemoveAbove(v: nat, bound: int) returns (changed: bool)
      requires Valid() && v < |domains|
      modifies this, trail
      ensures Valid() && saved == old(saved) && doms == old(doms)[v := AtMost(old(doms)[v], bound)]
      ensures changed <==> doms != old(doms)
    {
      HoldsAt(domains, trail.Snapshots(), doms, saved, |domains|, v);
      ghost var s := trail.Snapshots();
      var e;
      e, changed := SparseSets.RemoveAbove(domains[v], trail, bound);
      ChangeHolds(domains, s, doms, saved, v, e, trail.Snapshots(), AtMost(doms[v], bound));
      domains, doms := domains[v := e], doms[v := AtMost(doms[v], bound)];
    }

    method PushLevel()
      requires Valid()
      modifies `doms, `saved, trail
      ensures Valid() && doms == old(doms) && saved == old(saved) + [old(doms)]
    {
      HoldsAll(domains, trail.Snapshots(), doms, saved);
      PushAll(domains, trail.Snapshots());
      trail.PushLevel();
      HoldsFrom(domains, trail.Snapshots(), |domains|);
      saved := saved + [doms];
    }

    method PopLevel()
      requires Valid() && saved != []
      modifies `doms, `saved, trail
      ensures Valid() && doms == old(saved)[|old(saved)| - 1] && saved == old(saved)[..|old(saved)| - 1]
    {
      HoldsAll(domains, trail.Snapshots(), doms, saved);
      PopAll(domains, trail.Snapshots());
      trail.PopLevel();
      HoldsFrom(domains, trail.Snapshots(), |domains|);
      doms, saved := saved[|saved| - 1], saved[..|saved| - 1];
    }
  }
}
