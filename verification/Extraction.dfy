/**
 The public entry points of src/mus.rs, `extract_mus` and `enumerate_mus`, in
 terms of selectors rather than their indices.
 */
module Extraction {
  import opened Common
  import opened Subsets
  import opened Mus
  import opened Marco

  // --- from indices to selectors -----------------------------------------------------

  /** The "on" literal of a selector, or none when it folds to a constant. */
  type LitTable = VarId -> Option<Lit>

  /** `lits` names different selectors by different literals. */
  ghost predicate Injective(lits: LitTable) {
    forall s, t | lits(s).Some? && lits(s) == lits(t) :: s == t
  }

  /** The selectors that can be toggled. */
  function Togglable(lits: LitTable, selectors: seq<VarId>): set<VarId> {
    set s | s in selectors && lits(s).Some?
  }

  function LitsOf(lits: LitTable, t: set<VarId>): set<Lit> {
    set s | s in t && lits(s).Some? :: lits(s).value
  }

  /** Consistency of a set of selectors, all others left free. */
  function OverSelectors(unsat: Oracle, lits: LitTable): Oracle {
    t => unsat(LitsOf(lits, t))
  }

  function Image(selOf: seq<VarId>, s: set<nat>): set<VarId> {
    set i | i in s && i < |selOf| :: selOf[i]
  }

  /** `on` and `selOf` list the togglable selectors and their literals. */
  ghost predicate Table(lits: LitTable, selectors: seq<VarId>, on: seq<Lit>, selOf: seq<VarId>) {
    && |on| == |selOf|
    && (forall i | 0 <= i < |on| :: lits(selOf[i]) == Some(on[i]))
    && Elems(selOf) == Togglable(lits, selectors)
  }

  /** How often a selector is listed. */
  function Listed(selectors: seq<VarId>, v: VarId): nat { multiset(selectors)[v] }

  method BuildTable(lits: LitTable, selectors: seq<VarId>) returns (on: seq<Lit>, selOf: seq<VarId>)
    ensures Table(lits, selectors, on, selOf)
    ensures forall v | lits(v).Some? :: Listed(selOf, v) == Listed(selectors, v)
  {
    on, selOf := [], [];
    for k := 0 to |selectors|
      invariant |on| == |selOf|
      invariant forall i | 0 <= i < |on| :: lits(selOf[i]) == Some(on[i])
      invariant Elems(selOf) == Togglable(lits, selectors[..k])
      invariant forall v | lits(v).Some? :: Listed(selOf, v) == Listed(selectors[..k], v)
    {
      var s := selectors[k];
      assert selectors[..k + 1] == selectors[..k] + [s];
      if lits(s).Some? {
        assert Elems(selOf + [s]) == Elems(selOf) + {s};
        on, selOf := on + [lits(s).value], selOf + [s];
      }
    }
    assert selectors[..|selectors|] == selectors;
  }

  /** A selector is listed once exactly when it has one position. */
  lemma ListedOnceIff(selOf: seq<VarId>, k: nat)
    requires k < |selOf|
    ensures Listed(selOf, selOf[k]) == 1 <==> forall q | 0 <= q < |selOf| && selOf[q] == selOf[k] :: q == k
  {
    var before, after, v := selOf[..k], selOf[k + 1..], selOf[k];
    assert selOf == before + [v] + after;
    assert Listed(selOf, v) == Listed(before, v) + 1 + Listed(after, v);
    if Listed(before, v) > 0 {
      var q :| 0 <= q < |before| && before[q] == v;
      assert selOf[q] == v;
    }
    if Listed(after, v) > 0 {
      var q :| 0 <= q < |after| && after[q] == v;
      assert selOf[k + 1 + q] == v;
    }
    if Listed(selOf, v) == 1 {
      assert v !in before && v !in after;
      forall q | 0 <= q < k ensures selOf[q] != v { assert before[q] in before && before[q] == selOf[q]; }
      forall q | k < q < |selOf| ensures selOf[q] != v {
        assert after[q - k - 1] in after && after[q - k - 1] == selOf[q];
      }
    }
  }

  /** A set of selectors is exactly as consistent as the set of their indices. */
  lemma ImageAgrees(unsat: Oracle, lits: LitTable, selectors: seq<VarId>, on: seq<Lit>, selOf: seq<VarId>, s: set<nat>)
    requires Table(lits, selectors, on, selOf) && s <= Below(|on|)
    ensures OverSelectors(unsat, lits)(Image(selOf, s)) == Indexed(unsat, on)(s)
  {
    assert LitsOf(lits, Image(selOf, s)) == CubeOf(on, s) by {
      forall l | l in CubeOf(on, s) ensures l in LitsOf(lits, Image(selOf, s)) {
        var i :| i in s && i < |on| && on[i] == l;
        assert selOf[i] in Image(selOf, s) && lits(selOf[i]) == Some(l);
      }
    }
  }

  /** The indices of a set of selectors. */
  function Indices(selOf: seq<VarId>, t: set<VarId>): (s: set<nat>)
    ensures s <= Below(|selOf|)
  {
    set i | i in Below(|selOf|) && selOf[i] in t
  }

  lemma ImageOfIndices(selOf: seq<VarId>, t: set<VarId>)
    requires t <= Elems(selOf)
    ensures Image(selOf, Indices(selOf, t)) == t
  {
    forall v | v in t ensures v in Image(selOf, Indices(selOf, t)) {
      var i :| 0 <= i < |selOf| && selOf[i] == v;
      assert i in Below(|selOf|);
    }
  }

  /** No two members of `s` name the same selector. */
  ghost predicate OneEach(selOf: seq<VarId>, s: set<nat>) {
    forall i, j | i in s && j in s && i < |selOf| && j < |selOf| && selOf[i] == selOf[j] :: i == j
  }

  /** The members of `s` that name a selector of `t`. */
  function Naming(selOf: seq<VarId>, s: set<nat>, t: set<VarId>): set<nat> {
    set i | i in s && i < |selOf| && selOf[i] in t
  }

  lemma NamingStrict(selOf: seq<VarId>, s: set<nat>, t: set<VarId>)
    requires s <= Below(|selOf|) && t < Image(selOf, s)
    ensures Naming(selOf, s, t) < s && Image(selOf, Naming(selOf, s, t)) == t
  {
    forall v | v in t ensures v in Image(selOf, Naming(selOf, s, t)) {
      var i :| i in s && i < |selOf| && selOf[i] == v;
      assert i in Naming(selOf, s, t);
    }
    var v :| v in Image(selOf, s) && v !in t;
    var i :| i in s && i < |selOf| && selOf[i] == v;
    assert i !in Naming(selOf, s, t);
  }

  lemma OneEachStrict(selOf: seq<VarId>, s: set<nat>, t: set<nat>)
    requires OneEach(selOf, s) && s <= Below(|selOf|) && t < s
    ensures Image(selOf, t) < Image(selOf, s)
  {
    var i :| i in s && i !in t;
    assert selOf[i] in Image(selOf, s);
    forall j | j in t && j < |selOf| ensures selOf[j] != selOf[i] { assert j != i; }
  }

  /** A set of indices is a MUS exactly when the selectors it names are and none is named twice. */
  lemma MusOverSelectors(unsat: Oracle, lits: LitTable, selectors: seq<VarId>, on: seq<Lit>, selOf: seq<VarId>,
                         s: set<nat>)
    requires Table(lits, selectors, on, selOf) && s <= Below(|on|)
    ensures IsMus(Indexed(unsat, on), s) <==> IsMus(OverSelectors(unsat, lits), Image(selOf, s)) && OneEach(selOf, s)
  {
    var over, bad := OverSelectors(unsat, lits), Indexed(unsat, on);
    ImageAgrees(unsat, lits, selectors, on, selOf, s);
    if IsMus(bad, s) {
      forall t | t < Image(selOf, s) ensures !over(t) {
        NamingStrict(selOf, s, t);
        ImageAgrees(unsat, lits, selectors, on, selOf, Naming(selOf, s, t));
      }
      forall i, j | i in s && j in s && selOf[i] == selOf[j] ensures i == j {
        if i != j {
          assert lits(selOf[i]) == Some(on[i]) && lits(selOf[j]) == Some(on[j]);
          assert i in s - {j} && CubeOf(on, s - {j}) == CubeOf(on, s);
          assert s - {j} < s;
        }
      }
    }
    if IsMus(over, Image(selOf, s)) && OneEach(selOf, s) {
      forall t | t < s ensures !bad(t) {
        OneEachStrict(selOf, s, t);
        ImageAgrees(unsat, lits, selectors, on, selOf, t);
      }
    }
  }

  /** A set of indices is an MSS exactly when the selectors it names are and it holds all their positions. */
  lemma MssOverSelectors(unsat: Oracle, lits: LitTable, selectors: seq<VarId>, on: seq<Lit>, selOf: seq<VarId>,
                         s: set<nat>)
    requires Table(lits, selectors, on, selOf) && s <= Below(|on|)
    ensures IsMss(Indexed(unsat, on), Below(|on|), s) <==>
            IsMss(OverSelectors(unsat, lits), Elems(selOf), Image(selOf, s)) && s == Indices(selOf, Image(selOf, s))
  {
    var over, bad := OverSelectors(unsat, lits), Indexed(unsat, on);
    var closed := Indices(selOf, Image(selOf, s));
    ImageAgrees(unsat, lits, selectors, on, selOf, s);
    assert Image(selOf, s) <= Elems(selOf);
    ImageOfIndices(selOf, Image(selOf, s));
    assert s <= closed by {
      forall i | i in s ensures i in closed { assert selOf[i] in Image(selOf, s); }
    }
    ImageAgrees(unsat, lits, selectors, on, selOf, closed);
    if IsMss(bad, Below(|on|), s) {
      assert s == closed;
      forall t | Image(selOf, s) < t && t <= Elems(selOf) ensures over(t) {
        var i := Indices(selOf, t);
        ImageOfIndices(selOf, t);
        assert closed <= i && (closed == i ==> Image(selOf, i) == Image(selOf, s));
        ImageAgrees(unsat, lits, selectors, on, selOf, i);
      }
    }
    if IsMss(over, Elems(selOf), Image(selOf, s)) && s == closed {
      forall t | s < t && t <= Below(|on|) ensures bad(t) {
        ImageLarger(selOf, s, t);
        ImageAgrees(unsat, lits, selectors, on, selOf, t);
      }
    }
  }

  lemma ImageLarger(selOf: seq<VarId>, s: set<nat>, t: set<nat>)
    requires s == Indices(selOf, Image(selOf, s)) && s < t && t <= Below(|selOf|)
    ensures Image(selOf, s) < Image(selOf, t) && Image(selOf, t) <= Elems(selOf)
  {
    var i :| i in t && i !in s;
    assert i in Below(|selOf|) && selOf[i] in Image(selOf, t) && selOf[i] !in Image(selOf, s);
  }

  /** The first position of each member of `t`. */
  function Firsts(selOf: seq<VarId>, t: set<VarId>): (s: set<nat>)
    ensures s <= Below(|selOf|)
  {
    set i | i in Below(|selOf|) && selOf[i] in t && Position(selOf, selOf[i]) == Some(i)
  }

  lemma ImageOfFirsts(selOf: seq<VarId>, t: set<VarId>)
    requires t <= Elems(selOf)
    ensures Image(selOf, Firsts(selOf, t)) == t && OneEach(selOf, Firsts(selOf, t))
  {
    forall v | v in t ensures v in Image(selOf, Firsts(selOf, t)) {
      assert v in selOf;
      var i := Position(selOf, v).value;
      assert i in Below(|selOf|) && i in Firsts(selOf, t);
    }
  }

  function Named(selOf: seq<VarId>, s: seq<nat>): (r: seq<VarId>)
    requires InRange(s, |selOf|)
    ensures Elems(r) == Image(selOf, Elems(s))
    ensures |r| == |s|
  {
    var r := seq(|s|, k requires 0 <= k < |s| => selOf[s[k]]);
    assert Elems(r) == Image(selOf, Elems(s)) by {
      forall v | v in Image(selOf, Elems(s)) ensures v in r {
        var k :| 0 <= k < |s| && selOf[s[k]] == v;
        assert r[k] == v;
      }
    }
    r
  }

  /** A list of positions names no selector twice exactly when no two positions name the same one. */
  lemma NamedDistinctIff(selOf: seq<VarId>, s: seq<nat>)
    requires InRange(s, |selOf|) && Distinct(s)
    ensures Distinct(Named(selOf, s)) <==> OneEach(selOf, Elems(s))
  {
    var r := seq(|s|, k requires 0 <= k < |s| => selOf[s[k]]);
    assert r == Named(selOf, s);
    if OneEach(selOf, Elems(s)) {
      forall i, j | 0 <= i < j < |s| ensures r[i] != r[j] { assert s[i] in Elems(s) && s[j] in Elems(s); }
    }
    if Distinct(r) {
      forall i, j | i in Elems(s) && j in Elems(s) && i < |selOf| && j < |selOf| && selOf[i] == selOf[j]
        ensures i == j
      {
        var p :| 0 <= p < |s| && s[p] == i;
        var q :| 0 <= q < |s| && s[q] == j;
        assert r[p] == r[q];
      }
    }
  }

  /** Within positions that hold all positions of their selectors, a selector is listed once if it has one position. */
  lemma OnePositionIff(selOf: seq<VarId>, t: set<nat>, i: nat)
    requires t == Indices(selOf, Image(selOf, t)) && i in t
    ensures i < |selOf|
    ensures Listed(selOf, selOf[i]) == 1 <==> forall j | j in t && j < |selOf| && selOf[j] == selOf[i] :: j == i
  {
    assert i in Below(|selOf|);
    ListedOnceIff(selOf, i);
    forall q | 0 <= q < |selOf| && selOf[q] == selOf[i] ensures q in t {
      assert selOf[i] in Image(selOf, t) && q in Below(|selOf|);
    }
  }

  /** Such positions name no selector twice exactly when each is listed once. */
  lemma ClosedDistinctIff(selOf: seq<VarId>, s: seq<nat>)
    requires InRange(s, |selOf|) && Distinct(s) && Elems(s) == Indices(selOf, Image(selOf, Elems(s)))
    ensures Distinct(Named(selOf, s)) <==> forall v | v in Named(selOf, s) :: Listed(selOf, v) == 1
  {
    NamedDistinctIff(selOf, s);
    var t, names := Elems(s), Named(selOf, s);
    assert Elems(names) == Image(selOf, t);
    if OneEach(selOf, t) {
      forall v | v in names ensures Listed(selOf, v) == 1 {
        assert v in Elems(names);
        var i :| i in t && i < |selOf| && selOf[i] == v;
        OnePositionIff(selOf, t, i);
      }
    }
    if forall v | v in names :: Listed(selOf, v) == 1 {
      forall i, j | i in t && j in t && i < |selOf| && j < |selOf| && selOf[i] == selOf[j] ensures i == j {
        assert selOf[i] in Elems(names);
        OnePositionIff(selOf, t, i);
      }
    }
  }

  // --- the entry points ---------------------------------------------------------------

  function NamedAll(selOf: seq<VarId>, found: seq<seq<nat>>): (r: seq<seq<VarId>>)
    requires forall k | 0 <= k < |found| :: InRange(found[k], |selOf|)
    ensures |r| == |found| && forall k | 0 <= k < |found| :: r[k] == Named(selOf, found[k])
  {
    seq(|found|, k requires 0 <= k < |found| => Named(selOf, found[k]))
  }

  /** Different sets of positions that hold all positions of their selectors name different sets. */
  lemma NamedNoRepeats(selOf: seq<VarId>, found: seq<seq<nat>>)
    requires NoRepeats(found)
    requires forall k | 0 <= k < |found| :: InRange(found[k], |selOf|)
    requires forall k | 0 <= k < |found| :: Elems(found[k]) == Indices(selOf, Image(selOf, Elems(found[k])))
    ensures NoRepeats(NamedAll(selOf, found))
  {
    var r := NamedAll(selOf, found);
    forall j, k | 0 <= j < k < |r| ensures Elems(r[j]) != Elems(r[k]) {
      assert Elems(found[j]) != Elems(found[k]);
    }
  }

  lemma WithinRange(s: seq<nat>, n: nat)
    requires Elems(s) <= Below(n)
    ensures InRange(s, n)
  {
    assert forall i | 0 <= i < |s| :: s[i] in Elems(s);
  }

  /** The index-level lists translate into selector-level ones that are as sound and as complete. */
  lemma Translate(unsat: Oracle, lits: LitTable, selectors: seq<VarId>, on: seq<Lit>, selOf: seq<VarId>,
                  muses: seq<seq<nat>>, msses: seq<seq<nat>>)
    requires Table(lits, selectors, on, selOf)
    requires AllMuses(Indexed(unsat, on), Below(|on|), muses) && AllMsses(Indexed(unsat, on), Below(|on|), msses)
    ensures (forall k | 0 <= k < |muses| :: InRange(muses[k], |selOf|))
        && (forall k | 0 <= k < |msses| :: InRange(msses[k], |selOf|))
    ensures AllMuses(OverSelectors(unsat, lits), Elems(selOf), NamedAll(selOf, muses))
    ensures AllMsses(OverSelectors(unsat, lits), Elems(selOf), NamedAll(selOf, msses))
    ensures Covers(Indexed(unsat, on), Below(|on|), muses, msses) ==>
              Covers(OverSelectors(unsat, lits), Elems(selOf), NamedAll(selOf, muses), NamedAll(selOf, msses))
  {
    var over, bad := OverSelectors(unsat, lits), Indexed(unsat, on);
    forall k | 0 <= k < |muses| ensures InRange(muses[k], |selOf|) { WithinRange(muses[k], |on|); }
    forall k | 0 <= k < |msses| ensures InRange(msses[k], |selOf|) { WithinRange(msses[k], |on|); }
    var muses', msses' := NamedAll(selOf, muses), NamedAll(selOf, msses);
    forall k | 0 <= k < |muses'| ensures Elems(muses'[k]) <= Elems(selOf) && IsMus(over, Elems(muses'[k])) {
      MusOverSelectors(unsat, lits, selectors, on, selOf, Elems(muses[k]));
    }
    forall k | 0 <= k < |msses'| ensures IsMss(over, Elems(selOf), Elems(msses'[k])) {
      MssOverSelectors(unsat, lits, selectors, on, selOf, Elems(msses[k]));
    }
    if Covers(bad, Below(|on|), muses, msses) {
      forall t | t <= Elems(selOf) && IsMus(over, t) ensures Reported(muses', t) {
        var i := Firsts(selOf, t);
        ImageOfFirsts(selOf, t);
        MusOverSelectors(unsat, lits, selectors, on, selOf, i);
        var k :| 0 <= k < |muses| && Elems(muses[k]) == i;
        assert Elems(muses'[k]) == t;
      }
      forall t | IsMss(over, Elems(selOf), t) ensures Reported(msses', t) {
        var i := Indices(selOf, t);
        ImageOfIndices(selOf, t);
        MssOverSelectors(unsat, lits, selectors, on, selOf, i);
        var k :| 0 <= k < |msses| && Elems(msses[k]) == i;
        assert Elems(msses'[k]) == t;
      }
    }
  }

  /** Root propagation of a fresh engine; failure means the root constraints are inconsistent. */
  method Init(unsat: Oracle) returns (ok: bool)
    ensures !ok ==> unsat({})
  {
    var refuted: bool := *;
    ok := !(refuted && unsat({}));
  }

  /** No MUS contains a selector that is listed more than once. */
  ghost predicate ListedOnce(unsat: Oracle, lits: LitTable, selectors: seq<VarId>) {
    forall t | t <= Togglable(lits, selectors) && IsMus(OverSelectors(unsat, lits), t) ::
      forall v | v in t :: Listed(selectors, v) == 1
  }

  lemma DistinctIsListedOnce(unsat: Oracle, lits: LitTable, selectors: seq<VarId>)
    requires Distinct(selectors)
    ensures ListedOnce(unsat, lits, selectors)
  {
    forall v | v in selectors ensures Listed(selectors, v) == 1 {
      var k :| 0 <= k < |selectors| && selectors[k] == v;
      ListedOnceIff(selectors, k);
    }
  }

  lemma SoleIffListedOnce(unsat: Oracle, lits: LitTable, selectors: seq<VarId>, on: seq<Lit>, selOf: seq<VarId>)
    requires Injective(lits) && Table(lits, selectors, on, selOf)
    requires forall v | lits(v).Some? :: Listed(selOf, v) == Listed(selectors, v)
    ensures SoleMuses(unsat, on) <==> ListedOnce(unsat, lits, selectors)
  {
    var over, bad := OverSelectors(unsat, lits), Indexed(unsat, on);
    forall k | 0 <= k < |on| ensures Sole(on, k) <==> Listed(selectors, selOf[k]) == 1 {
      ListedOnceIff(selOf, k);
      assert lits(selOf[k]) == Some(on[k]);
      forall q | 0 <= q < |on| ensures on[q] == on[k] <==> selOf[q] == selOf[k] {
        assert lits(selOf[q]) == Some(on[q]);
      }
    }
    if SoleMuses(unsat, on) {
      forall t, v | t <= Togglable(lits, selectors) && IsMus(over, t) && v in t ensures Listed(selectors, v) == 1 {
        ImageOfFirsts(selOf, t);
        MusOverSelectors(unsat, lits, selectors, on, selOf, Firsts(selOf, t));
        assert v in Image(selOf, Firsts(selOf, t));
        var k :| k in Firsts(selOf, t) && k < |selOf| && selOf[k] == v;
        assert Sole(on, k);
      }
    }
    if ListedOnce(unsat, lits, selectors) {
      forall m, k | m <= Below(|on|) && IsMus(bad, m) && k in m ensures Sole(on, k) {
        MusOverSelectors(unsat, lits, selectors, on, selOf, m);
        assert selOf[k] in Image(selOf, m) && Image(selOf, m) <= Elems(selOf);
      }
    }
  }

  /** A MUS without repeated literals holds all positions of the selectors it names. */
  lemma SoleIsClosed(unsat: Oracle, lits: LitTable, selectors: seq<VarId>, on: seq<Lit>, selOf: seq<VarId>, s: set<nat>)
    requires Table(lits, selectors, on, selOf) && SoleMuses(unsat, on) && s <= Below(|on|)
        && IsMus(Indexed(unsat, on), s)
    ensures s == Indices(selOf, Image(selOf, s))
  {
    forall i | i in Below(|selOf|) ensures i in s <==> selOf[i] in Image(selOf, s) {
      if selOf[i] in Image(selOf, s) {
        var k :| k in s && k < |selOf| && selOf[k] == selOf[i];
        assert lits(selOf[k]) == Some(on[k]) && lits(selOf[i]) == Some(on[i]);
        assert Sole(on, k);
      }
    }
  }

  /** What the selector-level lists inherit about repetitions. */
  lemma TranslateRepeats(unsat: Oracle, lits: LitTable, selectors: seq<VarId>, on: seq<Lit>, selOf: seq<VarId>,
                         muses: seq<seq<nat>>, msses: seq<seq<nat>>)
    requires Table(lits, selectors, on, selOf)
    requires AllMuses(Indexed(unsat, on), Below(|on|), muses) && AllMsses(Indexed(unsat, on), Below(|on|), msses)
    requires forall k | 0 <= k < |muses| :: InRange(muses[k], |selOf|)
    requires forall k | 0 <= k < |msses| :: InRange(msses[k], |selOf|)
    ensures NoRepeats(msses) ==> NoRepeats(NamedAll(selOf, msses))
    ensures SoleMuses(unsat, on) && NoRepeats(muses) ==> NoRepeats(NamedAll(selOf, muses))
  {
    forall k | 0 <= k < |msses| ensures Elems(msses[k]) == Indices(selOf, Image(selOf, Elems(msses[k]))) {
      MssOverSelectors(unsat, lits, selectors, on, selOf, Elems(msses[k]));
    }
    if NoRepeats(msses) { NamedNoRepeats(selOf, msses); }
    if SoleMuses(unsat, on) && NoRepeats(muses) {
      forall k | 0 <= k < |muses| ensures Elems(muses[k]) == Indices(selOf, Image(selOf, Elems(muses[k]))) {
        SoleIsClosed(unsat, lits, selectors, on, selOf, Elems(muses[k]));
      }
      NamedNoRepeats(selOf, muses);
    }
  }

  /** No reported MUS lists a selector twice, and a reported MSS does only if the caller listed it more than once. */
  lemma TranslateDistinct(unsat: Oracle, lits: LitTable, selectors: seq<VarId>, on: seq<Lit>, selOf: seq<VarId>,
                          muses: seq<seq<nat>>, msses: seq<seq<nat>>)
    requires Table(lits, selectors, on, selOf) && forall v | lits(v).Some? :: Listed(selOf, v) == Listed(selectors, v)
    requires AllMuses(Indexed(unsat, on), Below(|on|), muses) && AllMsses(Indexed(unsat, on), Below(|on|), msses)
    requires AllIncreasing(muses) && AllIncreasing(msses)
    requires forall k | 0 <= k < |muses| :: InRange(muses[k], |selOf|)
    requires forall k | 0 <= k < |msses| :: InRange(msses[k], |selOf|)
    ensures AllDistinct(NamedAll(selOf, muses))
    ensures DistinctWhereListedOnce(selectors, NamedAll(selOf, msses))
  {
    forall k | 0 <= k < |muses| ensures Distinct(Named(selOf, muses[k])) {
      MusOverSelectors(unsat, lits, selectors, on, selOf, Elems(muses[k]));
      NamedDistinctIff(selOf, muses[k]);
    }
    forall k | 0 <= k < |msses|
      ensures DistinctIffListedOnce(selectors, Named(selOf, msses[k]))
    {
      MssOverSelectors(unsat, lits, selectors, on, selOf, Elems(msses[k]));
      ClosedDistinctIff(selOf, msses[k]);
      forall v | v in Named(selOf, msses[k]) ensures lits(v).Some? {
        assert v in Elems(Named(selOf, msses[k]));
        assert v in Elems(selOf);
      }
    }
  }

  ghost predicate AllDistinct(found: seq<seq<VarId>>) { forall k | 0 <= k < |found| :: Distinct(found[k]) }

  ghost predicate DistinctIffListedOnce(selectors: seq<VarId>, s: seq<VarId>) {
    Distinct(s) <==> forall v | v in s :: Listed(selectors, v) == 1
  }

  ghost predicate DistinctWhereListedOnce(selectors: seq<VarId>, found: seq<seq<VarId>>) {
    forall k | 0 <= k < |found| :: DistinctIffListedOnce(selectors, found[k])
  }

  /**
   Enumerate MUSes and MSSes. On every run each reported set is genuine, and a
   complete run has reported all of them. No set is reported twice, and a run
   without a limit ends, as long as no MUS has a selector that is listed more
   than once; where one has, no run is complete. A run that is never stopped is
   complete unless it reached its limit.
   */
  method EnumerateMus(unsat: Oracle, lits: LitTable, selectors: seq<VarId>, limit: Option<nat>, stop: bool)
      returns (muses: seq<seq<VarId>>, msses: seq<seq<VarId>>, complete: bool)
    requires Monotone(unsat) && Injective(lits) && (limit.Some? || ListedOnce(unsat, lits, selectors))
    ensures
      var over := OverSelectors(unsat, lits);
      var all := Togglable(lits, selectors);
      && AllMuses(over, all, muses) && AllMsses(over, all, msses)
      && NoRepeats(msses) && (ListedOnce(unsat, lits, selectors) ==> NoRepeats(muses))
      && AllDistinct(muses) && DistinctWhereListedOnce(selectors, msses)
      && (complete ==> Covers(over, all, muses, msses) && ListedOnce(unsat, lits, selectors))
      && (unsat({}) && complete ==> muses == [[]] && msses == [])
      && (limit.Some? && !unsat({}) ==> |muses| + |msses| <= limit.value)
      && (!stop && !complete ==> limit.Some? && !unsat({}) && |muses| + |msses| == limit.value)
  {
    ghost var over := OverSelectors(unsat, lits);
    assert LitsOf(lits, {}) == {};
    OverMonotone(unsat, lits);
    var ok := Init(unsat);
    if !ok {
      RootUnsat(over, Togglable(lits, selectors));
      forall t | IsMus(over, t) ensures t == {} { assert !({} < t); }
      return [[]], [], true;
    }
    var on, selOf := BuildTable(lits, selectors);
    SoleIffListedOnce(unsat, lits, selectors, on, selOf);
    assert CubeOf(on, {}) == {};
    var musIndices, mssIndices, done := EnumerateIndices(unsat, on, limit, stop);
    Translate(unsat, lits, selectors, on, selOf, musIndices, mssIndices);
    TranslateRepeats(unsat, lits, selectors, on, selOf, musIndices, mssIndices);
    TranslateDistinct(unsat, lits, selectors, on, selOf, musIndices, mssIndices);
    return NamedAll(selOf, musIndices), NamedAll(selOf, mssIndices), done;
  }

  lemma OverMonotone(unsat: Oracle, lits: LitTable)
    requires Monotone(unsat)
    ensures Monotone(OverSelectors(unsat, lits))
  {
    forall a, b | a <= b && OverSelectors(unsat, lits)(a) ensures OverSelectors(unsat, lits)(b) {
      assert LitsOf(lits, a) <= LitsOf(lits, b);
    }
  }

  datatype MusResult = Satisfiable | Minimal(core: seq<VarId>) | Undecided

  /**
   Extract one core. It is inconsistent on every run; it is a MUS exactly when
   the root constraints are consistent or the core is empty.
   */
  method ExtractMus(unsat: Oracle, lits: LitTable, selectors: seq<VarId>, stop: bool) returns (r: MusResult)
    requires Monotone(unsat)
    ensures
      var over := OverSelectors(unsat, lits);
      && (r.Undecided? ==> stop)
      && (r.Satisfiable? ==> !over(Togglable(lits, selectors)))
      && (r.Minimal? ==>
            && Elems(r.core) <= Togglable(lits, selectors) && over(Elems(r.core))
            && (IsMus(over, Elems(r.core)) <==> r.core == [] || !unsat({}))
            && (r.core == [] ==> unsat({})) && Distinct(r.core))
  {
    ghost var over := OverSelectors(unsat, lits);
    assert LitsOf(lits, {}) == {};
    var ok := Init(unsat);
    if !ok {
      assert Elems<nat>([]) == {};
      return Minimal([]);
    }
    var on, selOf := BuildTable(lits, selectors);
    AllActive(lits, selectors, on, selOf);
    var o := Resolve(unsat, on, stop);
    match o
    case Sat => return Satisfiable;
    case Interrupted => return Undecided;
    case Unsat(core) =>
      var candidates := CoreIndices(on, core);
      CoreIndicesActivate(on, core);
      if candidates == [] {
        assert Elems<nat>([]) == {} && CubeOf(on, {}) == {};
        return Minimal([]);
      }
      var minimal := ShrinkToMus(unsat, on, candidates, stop);
      if minimal.None? { return Undecided; }
      var s := Elems(minimal.value);
      assert s <= Below(|on|);
      ImageAgrees(unsat, lits, selectors, on, selOf, s);
      MusOverSelectors(unsat, lits, selectors, on, selOf, s);
      FirstIsOneEach(lits, selectors, on, selOf, minimal.value);
      NamedDistinctIff(selOf, minimal.value);
      assert CubeOf(on, {}) == {};
      return Minimal(Named(selOf, minimal.value));
  }

  lemma FirstIsOneEach(lits: LitTable, selectors: seq<VarId>, on: seq<Lit>, selOf: seq<VarId>, s: seq<nat>)
    requires Table(lits, selectors, on, selOf) && FirstOnly(on, s)
    ensures OneEach(selOf, Elems(s))
  {
    forall i, j | i in Elems(s) && j in Elems(s) && selOf[i] == selOf[j] ensures i == j {
      assert lits(selOf[i]) == Some(on[i]) && lits(selOf[j]) == Some(on[j]);
    }
  }

  lemma AllActive(lits: LitTable, selectors: seq<VarId>, on: seq<Lit>, selOf: seq<VarId>)
    requires Table(lits, selectors, on, selOf)
    ensures LitsOf(lits, Togglable(lits, selectors)) == Elems(on)
  {
    forall l | l in on ensures l in LitsOf(lits, Elems(selOf)) {
      var i :| 0 <= i < |on| && on[i] == l;
      assert lits(selOf[i]) == Some(l) && selOf[i] in Elems(selOf);
    }
    forall v | v in Elems(selOf) && lits(v).Some? ensures lits(v).value in on {
      var i :| 0 <= i < |selOf| && selOf[i] == v;
      assert lits(selOf[i]) == Some(on[i]);
    }
  }
}
