/** MARCO enumeration over selector indices (src/mus.rs). */
module Marco {
  import opened Common
  import opened Subsets
  import opened QuickXplains
  import opened Mus

  // --- the map of unexplored subsets -------------------------------------------------

  /** `m_i` or its negation. */
  datatype BoolLit = BoolLit(index: nat, value: bool)

  predicate Holds(s: set<nat>, l: BoolLit) { (l.index in s) == l.value }

  predicate SatClause(s: set<nat>, c: seq<BoolLit>) { exists l | l in c :: Holds(s, l) }

  predicate SatAll(s: set<nat>, blocks: seq<seq<BoolLit>>) { forall c | c in blocks :: SatClause(s, c) }

  /** A future seed must include an index outside `mss`. */
  function BlockDown(mss: seq<nat>, n: nat): seq<BoolLit> {
    if n == 0 then [] else BlockDown(mss, n - 1) + (if n - 1 in mss then [] else [BoolLit(n - 1, true)])
  }

  /** A future seed must exclude an index of `mus`. */
  function BlockUp(mus: seq<nat>): seq<BoolLit> {
    seq(|mus|, k requires 0 <= k < |mus| => BoolLit(mus[k], false))
  }

  lemma {:induction false} BlockDownLits(mss: seq<nat>, n: nat)
    ensures forall l :: l in BlockDown(mss, n) <==> l.value && l.index < n && l.index !in mss
  {
    if n > 0 { BlockDownLits(mss, n - 1); }
  }

  lemma BlockDownBlocksSubsets(mss: seq<nat>, n: nat, s: set<nat>)
    requires s <= Below(n)
    ensures SatClause(s, BlockDown(mss, n)) <==> !(s <= Elems(mss))
  {
    BlockDownLits(mss, n);
    if !(s <= Elems(mss)) {
      var i :| i in s && i !in mss;
      assert Holds(s, BoolLit(i, true));
    }
  }

  lemma BlockUpBlocksSupersets(mus: seq<nat>, s: set<nat>)
    ensures SatClause(s, BlockUp(mus)) <==> !(Elems(mus) <= s)
  {
    if !(Elems(mus) <= s) {
      var i :| i in mus && i !in s;
      var k :| 0 <= k < |mus| && mus[k] == i;
      assert BlockUp(mus)[k] == BoolLit(i, false);
      assert Holds(s, BoolLit(i, false));
    }
    if SatClause(s, BlockUp(mus)) {
      var l :| l in BlockUp(mus) && Holds(s, l);
      var k :| 0 <= k < |mus| && BlockUp(mus)[k] == l;
      assert mus[k] in mus;
    }
  }

  datatype MapOutcome = Seed(seed: seq<nat>) | Exhausted | Stopped

  /** Some model of the blocks, a proof that there is none, or an interruption. */
  method MapSeed(blocks: seq<seq<BoolLit>>, n: nat, stop: bool) returns (o: MapOutcome)
    ensures o.Stopped? ==> stop
    ensures o.Seed? ==> InRange(o.seed, n) && SatAll(Elems(o.seed), blocks)
    ensures o.Exhausted? ==> forall s {:trigger SatAll(s, blocks)} | s <= Below(n) :: !SatAll(s, blocks)
  {
    var raised: bool := *;
    if stop && raised { return Stopped; }
    if exists s {:trigger SatAll(s, blocks)} | s <= Below(n) :: SatAll(s, blocks) {
      var model :| model <= Below(n) && SatAll(model, blocks);
      var seed := Ascending(model, n);
      assert Elems(seed) == model;
      assert forall k | 0 <= k < |seed| :: seed[k] in seed;
      return Seed(seed);
    }
    return Exhausted;
  }

  // --- what has been explored --------------------------------------------------------

  ghost predicate Reported(found: seq<seq<nat>>, s: set<nat>) {
    exists k | 0 <= k < |found| :: Elems(found[k]) == s
  }

  ghost predicate NoRepeats(found: seq<seq<nat>>) {
    forall j, k | 0 <= j < k < |found| :: Elems(found[j]) != Elems(found[k])
  }

  ghost predicate AllIncreasing(found: seq<seq<nat>>) { forall k | 0 <= k < |found| :: Increasing(found[k]) }

  ghost predicate AllMuses(bad: Oracle, universe: set<nat>, found: seq<seq<nat>>) {
    forall k | 0 <= k < |found| :: Elems(found[k]) <= universe && IsMus(bad, Elems(found[k]))
  }

  ghost predicate AllMsses(bad: Oracle, universe: set<nat>, found: seq<seq<nat>>) {
    forall k | 0 <= k < |found| :: IsMss(bad, universe, Elems(found[k]))
  }

  /** Every MUS and every MSS of the universe has been reported. */
  ghost predicate Covers(bad: Oracle, universe: set<nat>, muses: seq<seq<nat>>, msses: seq<seq<nat>>) {
    && (forall s | s <= universe && IsMus(bad, s) :: Reported(muses, s))
    && (forall s | IsMss(bad, universe, s) :: Reported(msses, s))
  }

  ghost predicate Above(muses: seq<seq<nat>>, s: set<nat>) {
    exists k | 0 <= k < |muses| :: Elems(muses[k]) <= s
  }

  ghost predicate Under(msses: seq<seq<nat>>, s: set<nat>) {
    exists k | 0 <= k < |msses| :: s <= Elems(msses[k])
  }

  /** The blocking clauses carve out exactly the supersets of MUSes and subsets of MSSes found. */
  ghost predicate MapAgrees(n: nat, blocks: seq<seq<BoolLit>>, muses: seq<seq<nat>>, msses: seq<seq<nat>>) {
    forall s {:trigger SatAll(s, blocks)} | s <= Below(n) :: SatAll(s, blocks) <==> !Above(muses, s) && !Under(msses, s)
  }

  ghost function Unexplored(n: nat, blocks: seq<seq<BoolLit>>): set<set<nat>> {
    set s | s <= Below(n) && SatAll(s, blocks)
  }

  lemma SatAllAppend(s: set<nat>, blocks: seq<seq<BoolLit>>, c: seq<BoolLit>)
    ensures SatAll(s, blocks + [c]) <==> SatAll(s, blocks) && SatClause(s, c)
  {
    assert c in blocks + [c];
    assert forall b | b in blocks :: b in blocks + [c];
  }

  lemma AboveAppend(found: seq<seq<nat>>, m: seq<nat>, s: set<nat>)
    ensures Above(found + [m], s) <==> Above(found, s) || Elems(m) <= s
  {
    if Above(found, s) {
      var k :| 0 <= k < |found| && Elems(found[k]) <= s;
      assert (found + [m])[k] == found[k];
    }
    if Elems(m) <= s { assert (found + [m])[|found|] == m; }
  }

  lemma UnderAppend(found: seq<seq<nat>>, m: seq<nat>, s: set<nat>)
    ensures Under(found + [m], s) <==> Under(found, s) || s <= Elems(m)
  {
    if Under(found, s) {
      var k :| 0 <= k < |found| && s <= Elems(found[k]);
      assert (found + [m])[k] == found[k];
    }
    if s <= Elems(m) { assert (found + [m])[|found|] == m; }
  }

  /** What holds between rounds of the loop. */
  ghost predicate Progress(bad: Oracle, n: nat, blocks: seq<seq<BoolLit>>, muses: seq<seq<nat>>, msses: seq<seq<nat>>) {
    && AllMuses(bad, Below(n), muses) && AllMsses(bad, Below(n), msses)
    && NoRepeats(msses)
    && MapAgrees(n, blocks, muses, msses)
  }

  /** Blocking a MUS keeps the map in step; one that lies below the unexplored seed is new and explores new ground. */
  lemma RecordMus(bad: Oracle, n: nat, blocks: seq<seq<BoolLit>>, muses: seq<seq<nat>>, msses: seq<seq<nat>>,
                  seed: set<nat>, mus: seq<nat>)
    requires Progress(bad, n, blocks, muses, msses)
    requires seed <= Below(n) && SatAll(seed, blocks) && Elems(mus) <= Below(n) && IsMus(bad, Elems(mus))
    ensures Progress(bad, n, blocks + [BlockUp(mus)], muses + [mus], msses)
    ensures Elems(mus) <= seed ==>
              && (NoRepeats(muses) ==> NoRepeats(muses + [mus]))
              && |Unexplored(n, blocks + [BlockUp(mus)])| < |Unexplored(n, blocks)|
    ensures !(Elems(mus) <= seed) ==> SatAll(seed, blocks + [BlockUp(mus)])
  {
    var blocks' := blocks + [BlockUp(mus)];
    forall s | s <= Below(n)
      ensures SatAll(s, blocks') <==> SatAll(s, blocks) && !(Elems(mus) <= s)
      ensures SatAll(s, blocks') <==> !Above(muses + [mus], s) && !Under(msses, s)
    {
      SatAllAppend(s, blocks, BlockUp(mus));
      BlockUpBlocksSupersets(mus, s);
      AboveAppend(muses, mus, s);
    }
    if Elems(mus) <= seed {
      assert forall k | 0 <= k < |muses| :: Elems(muses[k]) != Elems(mus);
      assert seed in Unexplored(n, blocks) && seed !in Unexplored(n, blocks');
      SmallerSet(Unexplored(n, blocks'), Unexplored(n, blocks));
    }
  }

  /** Blocking an MSS that lies above an unexplored seed explores new ground and repeats nothing. */
  lemma RecordMss(bad: Oracle, n: nat, blocks: seq<seq<BoolLit>>, muses: seq<seq<nat>>, msses: seq<seq<nat>>,
                  seed: set<nat>, mss: seq<nat>)
    requires Progress(bad, n, blocks, muses, msses)
    requires seed <= Below(n) && SatAll(seed, blocks) && seed <= Elems(mss) && IsMss(bad, Below(n), Elems(mss))
    ensures Progress(bad, n, blocks + [BlockDown(mss, n)], muses, msses + [mss])
    ensures |Unexplored(n, blocks + [BlockDown(mss, n)])| < |Unexplored(n, blocks)|
  {
    var blocks' := blocks + [BlockDown(mss, n)];
    forall s | s <= Below(n)
      ensures SatAll(s, blocks') <==> SatAll(s, blocks) && !(s <= Elems(mss))
      ensures SatAll(s, blocks') <==> !Above(muses, s) && !Under(msses + [mss], s)
    {
      SatAllAppend(s, blocks, BlockDown(mss, n));
      BlockDownBlocksSubsets(mss, n, s);
      UnderAppend(msses, mss, s);
    }
    assert forall k | 0 <= k < |msses| :: Elems(msses[k]) != Elems(mss);
    assert seed in Unexplored(n, blocks) && seed !in Unexplored(n, blocks');
    SmallerSet(Unexplored(n, blocks'), Unexplored(n, blocks));
  }

  lemma BlockedMusReported(bad: Oracle, n: nat, muses: seq<seq<nat>>, msses: seq<seq<nat>>, s: set<nat>)
    requires Monotone(bad) && AllMuses(bad, Below(n), muses) && AllMsses(bad, Below(n), msses)
    requires IsMus(bad, s) && (Above(muses, s) || Under(msses, s))
    ensures Reported(muses, s)
  {
    assert !Under(msses, s);
    var k :| 0 <= k < |muses| && Elems(muses[k]) <= s;
    assert IsMus(bad, Elems(muses[k]));
    assert Elems(muses[k]) == s;
  }

  lemma BlockedMssReported(bad: Oracle, n: nat, muses: seq<seq<nat>>, msses: seq<seq<nat>>, s: set<nat>)
    requires Monotone(bad) && AllMuses(bad, Below(n), muses) && AllMsses(bad, Below(n), msses)
    requires IsMss(bad, Below(n), s) && (Above(muses, s) || Under(msses, s))
    ensures Reported(msses, s)
  {
    assert !Above(muses, s);
    var k :| 0 <= k < |msses| && s <= Elems(msses[k]);
    assert IsMss(bad, Below(n), Elems(msses[k]));
    assert Elems(msses[k]) == s;
  }

  /** When no unexplored subset is left, nothing is missing. */
  lemma ExhaustedCovers(bad: Oracle, n: nat, blocks: seq<seq<BoolLit>>, muses: seq<seq<nat>>, msses: seq<seq<nat>>)
    requires Monotone(bad) && Progress(bad, n, blocks, muses, msses)
    requires forall s {:trigger SatAll(s, blocks)} | s <= Below(n) :: !SatAll(s, blocks)
    ensures Covers(bad, Below(n), muses, msses)
  {
    forall s | s <= Below(n) && IsMus(bad, s) ensures Reported(muses, s) {
      assert !SatAll(s, blocks);
      BlockedMusReported(bad, n, muses, msses, s);
    }
    forall s | IsMss(bad, Below(n), s) ensures Reported(msses, s) {
      assert !SatAll(s, blocks);
      BlockedMssReported(bad, n, muses, msses, s);
    }
  }

  /** With an inconsistent root the empty set is the only MUS and there is no MSS. */
  lemma RootUnsat(bad: Oracle, universe: set<nat>)
    requires Monotone(bad) && bad({})
    ensures AllMuses(bad, universe, [[]]) && AllMsses(bad, universe, []) && Covers(bad, universe, [[]], [])
  {
    assert Elems<nat>([]) == {};
    forall s | s <= universe && IsMus(bad, s) ensures Reported([[]], s) {
      assert !({} < s);
      assert Elems([[]][0]) == s;
    }
    forall s: set<nat> ensures bad(s) { assert {} <= s; }
  }

  /** No reported set repeats the literal of a smaller index. */
  ghost predicate AllFirst(on: seq<Lit>, muses: seq<seq<nat>>) {
    forall k | 0 <= k < |muses| :: FirstOnly(on, muses[k])
  }

  /** Reported lists are increasing, and reported MUSes repeat no literal of a smaller index. */
  ghost predicate Tidy(on: seq<Lit>, muses: seq<seq<nat>>, msses: seq<seq<nat>>) {
    AllFirst(on, muses) && AllIncreasing(muses) && AllIncreasing(msses)
  }

  lemma TidyMus(on: seq<Lit>, muses: seq<seq<nat>>, msses: seq<seq<nat>>, mus: seq<nat>)
    requires Tidy(on, muses, msses) && FirstOnly(on, mus) && Increasing(mus)
    ensures Tidy(on, muses + [mus], msses)
  {
  }

  lemma TidyMss(on: seq<Lit>, muses: seq<seq<nat>>, msses: seq<seq<nat>>, mss: seq<nat>)
    requires Tidy(on, muses, msses) && Increasing(mss)
    ensures Tidy(on, muses, msses + [mss])
  {
  }

  /** Reports of first occurrences only cannot be complete while some MUS has a repeated literal. */
  lemma CompleteMeansSole(unsat: Oracle, on: seq<Lit>, muses: seq<seq<nat>>, msses: seq<seq<nat>>)
    requires Monotone(unsat) && AllFirst(on, muses) && Covers(Indexed(unsat, on), Below(|on|), muses, msses)
    ensures SoleMuses(unsat, on)
  {
    forall m | m <= Below(|on|) && IsMus(Indexed(unsat, on), m)
      ensures forall k | k in m :: forall q | 0 <= q < k < |on| :: on[q] != on[k]
    {
      assert Reported(muses, m);
      var r :| 0 <= r < |muses| && Elems(muses[r]) == m;
      assert FirstOnly(on, muses[r]) && forall k | k in m :: k in muses[r];
    }
    ReportedFirstMeansSole(unsat, on);
  }

  lemma RootIsSole(unsat: Oracle, on: seq<Lit>)
    requires Monotone(unsat) && unsat({})
    ensures SoleMuses(unsat, on)
  {
    forall m | m <= Below(|on|) && IsMus(Indexed(unsat, on), m) ensures m == {} {
      assert CubeOf(on, {}) == {} && !({} < m);
    }
  }

  /**
   The loop over seeds, on indices. A run without a limit ends because every
   round explores new ground, which holds when no MUS has a repeated literal; a
   complete run shows that none has.
   */
  method EnumerateIndices(unsat: Oracle, on: seq<Lit>, limit: Option<nat>, stop: bool)
      returns (muses: seq<seq<nat>>, msses: seq<seq<nat>>, complete: bool)
    requires Monotone(unsat) && (limit.Some? || SoleMuses(unsat, on))
    ensures
      var bad := Indexed(unsat, on);
      var all := Below(|on|);
      && AllMuses(bad, all, muses) && AllMsses(bad, all, msses)
      && NoRepeats(msses) && AllFirst(on, muses) && AllIncreasing(muses) && AllIncreasing(msses)
      && (SoleMuses(unsat, on) ==> NoRepeats(muses))
      && (complete ==> Covers(bad, all, muses, msses) && SoleMuses(unsat, on))
      && (bad({}) && complete ==> muses == [[]] && msses == [])
      && (limit.Some? && !bad({}) ==> |muses| + |msses| <= limit.value)
      && (!stop && !complete ==> limit.Some? && !bad({}) && |muses| + |msses| == limit.value)
  {
    IndexedMonotone(unsat, on);
    ghost var bad := Indexed(unsat, on);
    var n := |on|;
    var blocks: seq<seq<BoolLit>> := [];
    muses, msses, complete := [], [], false;
    assert Elems<nat>([]) == {} && CubeOf(on, {}) == {};
    var root := Inconsistent(unsat, on, [], stop);
    if root.None? { return; }
    if root.value {
      RootUnsat(bad, Below(n));
      RootIsSole(unsat, on);
      return [[]], [], true;
    }
    while limit.None? || |muses| + |msses| < limit.value
      invariant !bad({})
      invariant Progress(bad, n, blocks, muses, msses) && Tidy(on, muses, msses)
      invariant SoleMuses(unsat, on) ==> NoRepeats(muses)
      invariant limit.Some? ==> |muses| + |msses| <= limit.value
      invariant !complete
      decreases if limit.Some? then limit.value - |muses| - |msses| else |Unexplored(n, blocks)|
    {
      var raised: bool := *;
      if stop && raised { return; }
      var map_ := MapSeed(blocks, n, stop);
      match map_
      case Exhausted =>
        ExhaustedCovers(bad, n, blocks, muses, msses);
        CompleteMeansSole(unsat, on, muses, msses);
        complete := true;
        return;
      case Stopped => return;
      case Seed(seed) =>
        var verdict := Inconsistent(unsat, on, seed, stop);
        if verdict.None? { return; }
        assert Elems(seed) <= Below(n);
        if !verdict.value {
          var mss := Grow(unsat, on, seed, stop);
          if mss.None? { return; }
          TidyMss(on, muses, msses, mss.value);
          RecordMss(bad, n, blocks, muses, msses, Elems(seed), mss.value);
          blocks := blocks + [BlockDown(mss.value, n)];
          msses := msses + [mss.value];
        } else {
          var mus := ShrinkToMus(unsat, on, seed, stop);
          if mus.None? { return; }
          assert Elems(mus.value) <= Below(n);
          if SoleMuses(unsat, on) { SoleStaysActive(unsat, on, Elems(mus.value), Elems(seed)); }
          TidyMus(on, muses, msses, mus.value);
          RecordMus(bad, n, blocks, muses, msses, Elems(seed), mus.value);
          blocks := blocks + [BlockUp(mus.value)];
          muses := muses + [mus.value];
        }
    }
  }

  /**
   A selector listed twice, inconsistent on its own over a consistent root: the
   seed of the second occurrence shrinks to the first one whatever core the
   engine gives, and however often that MUS has been recorded, the seed is
   still unexplored. A run without a limit reports `[0]` without end.
   */
  lemma RepeatedSelectorRepeatsMus(unsat: Oracle, l: Lit, rounds: nat)
    requires Monotone(unsat) && unsat({l}) && !unsat({})
    ensures
      var on := [l, l];
      && IsMus(Indexed(unsat, on), {0}) && IsMus(Indexed(unsat, on), {1}) && !SoleMuses(unsat, on)
      && (forall core | Elems(core) <= {l} && unsat(Elems(core)) :: CoreIndices(on, core) == [0])
      && QuickXplain(Indexed(unsat, on), {}, false, [0]) == [0]
      && SatAll({1}, [BlockDown([], 2)] + seq(rounds, _ => BlockUp([0])))
  {
    var on := [l, l];
    forall i | i == 0 || i == 1 ensures IsMus(Indexed(unsat, on), {i}) {
      assert CubeOf(on, {i}) == {l};
      forall t: set<nat> | t < {i} ensures !Indexed(unsat, on)(t) { assert t == {} && CubeOf(on, t) == {}; }
    }
    assert !Sole(on, 1) by { assert on[0] == on[1]; }
    assert {1} <= Below(2);
    forall core | Elems(core) <= {l} && unsat(Elems(core)) ensures CoreIndices(on, core) == [0] {
      OnlyFirst(l, core);
    }
    BlockDownBlocksSubsets([], 2, {1});
    BlockUpBlocksSupersets([0], {1});
    assert Elems<nat>([]) == {} && 0 in Elems([0]);
  }

  lemma OnlyFirst(l: Lit, core: seq<Lit>)
    requires Elems(core) <= {l} && core != []
    ensures CoreIndices([l, l], core) == [0]
  {
    var r := CoreIndices([l, l], core);
    assert forall k | k in core :: k in Elems(core);
    assert core[0] in core && core[0] == l && Position([l, l], l) == Some(0);
    assert forall k: nat :: k in r <==> k == 0;
    assert Elems(r) == {0};
    IncreasingSize(r);
    assert r[0] in Elems(r);
  }

  lemma SmallerSet<T>(a: set<T>, b: set<T>)
    requires a < b
    ensures |a| < |b|
  {
    var x :| x in b && x !in a;
    assert |b - a| > 0;
    assert |b| == |a| + |b - a| by { assert b == a + (b - a); }
  }
}
