/**
 Sparse-set domains on the trail (src/domains/int.rs): the values of a domain are
 the first `size` positions of a permutation, and only `size`, `min` and `max` are
 reversible. A removal permutes the current prefix, so the prefixes of the open
 levels still hold the sets they held, and closing a level brings its set back.
 */
module SparseSets {
  import opened Common
  import opened Domains
  import opened Trails

  // --- storage ------------------------------------------------------------------------------

  /** Internal index `i` stands for `offset + i`, or for `values[i]`. */
  datatype ValueMap = Range(offset: int) | Listed(values: seq<int>)

  /** `dense` holds an internal index per position and `sparse` its position; the rest are trail cells. */
  datatype Storage = Storage(map_: ValueMap, dense: seq<nat>, sparse: seq<nat>, size: nat, min: nat, max: nat)

  ghost predicate MapOk(m: ValueMap, n: nat) {
    && (m.Listed? ==> |m.values| == n && forall i, j | 0 <= i < j < n :: m.values[i] < m.values[j])
    && (forall i | 0 <= i < n :: FitsI32(ValueOf(m, i)))
  }

  function ValueOf(m: ValueMap, i: nat): int {
    match m
    case Range(offset) => offset + i
    case Listed(values) => if i < |values| then values[i] else 0
  }

  /** The position of `val` in a sorted table. */
  function Find(values: seq<int>, val: int): (p: Option<nat>)
    ensures p.Some? ==> p.value < |values| && values[p.value] == val
    ensures p.None? ==> val !in values
  {
    if values == [] then None
    else if values[0] == val then Some(0)
    else match Find(values[1..], val) case Some(i) => Some(i + 1) case None => None
  }

  function IndexOf(m: ValueMap, n: nat, val: int): (p: Option<nat>)
    requires MapOk(m, n)
    ensures p.Some? ==> p.value < n && ValueOf(m, p.value) == val
    ensures p.None? ==> forall i | 0 <= i < n :: ValueOf(m, i) != val
  {
    match m
    case Range(offset) => if 0 <= val - offset < n then Some(val - offset) else None
    case Listed(values) => Find(values, val)
  }

  lemma ValuesDiffer(m: ValueMap, n: nat, i: nat, j: nat)
    requires MapOk(m, n) && i < n && j < n && i != j
    ensures ValueOf(m, i) != ValueOf(m, j)
  {
    if m.Listed? { assert if i < j then m.values[i] < m.values[j] else m.values[j] < m.values[i]; }
  }

  ghost predicate PosOk(d: Storage, p: nat)
    requires p < |d.dense|
  {
    d.dense[p] < |d.sparse| && d.sparse[d.dense[p]] == p
  }

  ghost predicate IndexOk(d: Storage, i: nat)
    requires i < |d.sparse|
  {
    d.sparse[i] < |d.dense| && d.dense[d.sparse[i]] == i
  }

  /** `dense` and `sparse` are inverse permutations. */
  ghost predicate PermOk(d: Storage) {
    && |d.sparse| == |d.dense| && MapOk(d.map_, |d.dense|)
    && (forall p | 0 <= p < |d.dense| :: PosOk(d, p))
    && (forall i | 0 <= i < |d.sparse| :: IndexOk(d, i))
  }

  /** The values in the first `n` positions. */
  function Members(d: Storage, n: nat): Dom
    requires n <= |d.dense|
  {
    if n == 0 then {} else Members(d, n - 1) + {ValueOf(d.map_, d.dense[n - 1])}
  }

  lemma {:induction false} MembersAre(d: Storage, n: nat)
    requires n <= |d.dense|
    ensures forall p | 0 <= p < n :: ValueOf(d.map_, d.dense[p]) in Members(d, n)
    ensures forall x | x in Members(d, n) :: exists p | 0 <= p < n :: ValueOf(d.map_, d.dense[p]) == x
  {
    if n > 0 { MembersAre(d, n - 1); }
  }

  /** A value is present exactly when its index sits in the prefix. */
  lemma PresentIff(d: Storage, n: nat, val: int)
    requires PermOk(d) && n <= |d.dense|
    ensures val in Members(d, n) <==>
            IndexOf(d.map_, |d.dense|, val).Some? && d.sparse[IndexOf(d.map_, |d.dense|, val).value] < n
  {
    var o := IndexOf(d.map_, |d.dense|, val);
    MembersAre(d, n);
    if o.Some? {
      assert IndexOk(d, o.value);
      if val in Members(d, n) {
        var p :| 0 <= p < n && ValueOf(d.map_, d.dense[p]) == val;
        assert PosOk(d, p);
        if d.dense[p] != o.value { ValuesDiffer(d.map_, |d.dense|, d.dense[p], o.value); }
      }
    } else {
      forall p | 0 <= p < n ensures ValueOf(d.map_, d.dense[p]) != val { assert PosOk(d, p); }
    }
  }

  lemma {:induction false} MembersSize(d: Storage, n: nat)
    requires PermOk(d) && n <= |d.dense|
    ensures |Members(d, n)| == n
    decreases n
  {
    if n > 0 {
      MembersSize(d, n - 1);
      LastIsNew(d, n);
    }
  }

  lemma LastIsNew(d: Storage, n: nat)
    requires PermOk(d) && 0 < n <= |d.dense|
    ensures ValueOf(d.map_, d.dense[n - 1]) !in Members(d, n - 1)
  {
    MembersAre(d, n - 1);
    forall p | 0 <= p < n - 1 ensures ValueOf(d.map_, d.dense[p]) != ValueOf(d.map_, d.dense[n - 1]) {
      assert PosOk(d, p) && PosOk(d, n - 1);
      ValuesDiffer(d.map_, |d.dense|, d.dense[p], d.dense[n - 1]);
    }
  }

  /** Swap the values at positions `a` and `b`. */
  function Swap(d: Storage, a: nat, b: nat): Storage
    requires PermOk(d) && a < |d.dense| && b < |d.dense|
  {
    assert PosOk(d, a) && PosOk(d, b);
    d.(dense := d.dense[a := d.dense[b]][b := d.dense[a]], sparse := d.sparse[d.dense[a] := b][d.dense[b] := a])
  }

  lemma SwapKeepsPerm(d: Storage, a: nat, b: nat)
    requires PermOk(d) && a < |d.dense| && b < |d.dense|
    ensures PermOk(Swap(d, a, b))
  {
    var e := Swap(d, a, b);
    assert PosOk(d, a) && PosOk(d, b);
    forall p | 0 <= p < |e.dense| ensures PosOk(e, p) { assert PosOk(d, p); }
    forall i | 0 <= i < |e.sparse| ensures IndexOk(e, i) { assert IndexOk(d, i); }
  }

  /** A swap within a prefix changes no longer prefix. */
  lemma SwapKeepsMembers(d: Storage, a: nat, b: nat, n: nat)
    requires PermOk(d) && a < n <= |d.dense| && b < n
    ensures Members(Swap(d, a, b), n) == Members(d, n)
  {
    var e := Swap(d, a, b);
    MembersAre(d, n);
    MembersAre(e, n);
    forall x | x in Members(e, n) ensures x in Members(d, n) {
      var p :| 0 <= p < n && ValueOf(e.map_, e.dense[p]) == x;
      assert e.dense[p] == d.dense[if p == a then b else if p == b then a else p];
    }
    forall x | x in Members(d, n) ensures x in Members(e, n) {
      var p :| 0 <= p < n && ValueOf(d.map_, d.dense[p]) == x;
      assert d.dense[p] == e.dense[if p == a then b else if p == b then a else p];
    }
    assert Members(e, n) == Members(d, n);
  }

  /** Swapping a position to the end of the prefix and cutting it off removes its value. */
  lemma SwapRemoves(d: Storage, a: nat, n: nat)
    requires PermOk(d) && a < n <= |d.dense|
    ensures Members(Swap(d, a, n - 1), n - 1) == Members(d, n) - {ValueOf(d.map_, d.dense[a])}
  {
    var e := Swap(d, a, n - 1);
    SwapKeepsPerm(d, a, n - 1);
    SwapKeepsMembers(d, a, n - 1, n);
    LastIsNew(e, n);
  }

  // --- storage and cells ----------------------------------------------------------------------

  predicate HandlesOk(d: Storage, n: nat) {
    && d.size < n && d.min < n && d.max < n
    && d.size != d.min && d.size != d.max && d.min != d.max
  }

  /** The cells hold a size, and the bounds of the values it selects. */
  ghost predicate Describes(d: Storage, cells: seq<int>) {
    && HandlesOk(d, |cells|) && 0 <= cells[d.size] <= |d.dense|
    && (cells[d.size] > 0 ==>
          var s := Members(d, cells[d.size]);
          s != {} && cells[d.min] == MinOf(s) && cells[d.max] == MaxOf(s))
  }

  /** The domain the cells select. */
  ghost function At(d: Storage, cells: seq<int>): Dom
    requires Describes(d, cells)
  {
    Members(d, cells[d.size])
  }

  ghost predicate LevelFits(d: Storage, t: Stack, k: nat)
    requires k < |t.saved| && HandlesOk(d, |t.current|)
  {
    |t.saved[k]| == |t.current| && Describes(d, t.saved[k]) && t.current[d.size] <= t.saved[k][d.size]
  }

  ghost predicate Nested(d: Storage, t: Stack, k: nat, l: nat)
    requires k < |t.saved| && l < |t.saved|
  {
    d.size < |t.saved[k]| && d.size < |t.saved[l]| && t.saved[l][d.size] <= t.saved[k][d.size]
  }

  /** The current cells and every snapshot describe the domain, and deeper levels are smaller. */
  ghost predicate Ok(d: Storage, t: Stack) {
    && PermOk(d) && Describes(d, t.current)
    && (forall k | 0 <= k < |t.saved| :: LevelFits(d, t, k))
    && (forall k, l | 0 <= k < l < |t.saved| :: Nested(d, t, k, l))
  }

  /** The domain at every open level. */
  ghost function History(d: Storage, t: Stack): seq<Dom>
    requires Ok(d, t)
  {
    seq(|t.saved|, k requires 0 <= k < |t.saved| => assert LevelFits(d, t, k); At(d, t.saved[k]))
  }

  /** `e` is `d` with positions below `n` permuted. */
  ghost predicate PermutedBelow(d: Storage, e: Storage, n: nat) {
    && PermOk(d) && PermOk(e) && e == d.(dense := e.dense, sparse := e.sparse) && |e.dense| == |d.dense|
    && forall m | n <= m <= |d.dense| :: Members(e, m) == Members(d, m)
  }

  /** Only the domain's own cells differ, and no snapshot does. */
  ghost predicate OwnCells(d: Storage, s: Stack, t: Stack) {
    && t.saved == s.saved && |t.current| == |s.current|
    && forall c | 0 <= c < |s.current| && c != d.size && c != d.min && c != d.max :: t.current[c] == s.current[c]
  }

  /** The current domain becomes `target`, and the domain of every open level stays what it was. */
  ghost predicate Becomes(d: Storage, s: Stack, e: Storage, t: Stack, target: Dom)
    requires Ok(d, s)
  {
    && Ok(e, t) && PermutedBelow(d, e, s.current[d.size]) && OwnCells(d, s, t)
    && At(e, t.current) == target && History(e, t) == History(d, s)
  }

  /** A permuted prefix with a smaller size and the right bounds. */
  lemma Shrunk(d: Storage, s: Stack, e: Storage, t: Stack)
    requires Ok(d, s) && PermutedBelow(d, e, s.current[d.size]) && OwnCells(d, s, t)
    requires Describes(e, t.current) && t.current[d.size] <= s.current[d.size]
    ensures Becomes(d, s, e, t, At(e, t.current))
  {
    forall k | 0 <= k < |t.saved| ensures LevelFits(e, t, k) {
      assert LevelFits(d, s, k);
      assert Members(e, t.saved[k][d.size]) == Members(d, s.saved[k][d.size]);
    }
    forall k, l | 0 <= k < l < |t.saved| ensures Nested(e, t, k, l) { assert Nested(d, s, k, l); }
    assert Ok(e, t);
    forall k | 0 <= k < |t.saved| ensures History(e, t)[k] == History(d, s)[k] {
      assert LevelFits(d, s, k) && LevelFits(e, t, k);
    }
    assert History(e, t) == History(d, s);
  }

  lemma BecomesTwice(d: Storage, s: Stack, e: Storage, t: Stack, f: Storage, u: Stack, first: Dom, second: Dom)
    requires Ok(d, s) && Becomes(d, s, e, t, first) && Becomes(e, t, f, u, second)
    requires t.current[d.size] <= s.current[d.size]
    ensures Becomes(d, s, f, u, second)
  {
  }

  // --- bounds ---------------------------------------------------------------------------------

  /** `contains`. */
  method Present(d: Storage, t: Trail, val: int) returns (r: bool)
    requires t.Valid() && PermOk(d) && HandlesOk(d, |t.values|) && 0 <= t.values[d.size] <= |d.dense|
    ensures r <==> val in Members(d, t.values[d.size])
  {
    var i := IndexOf(d.map_, |d.dense|, val);
    PresentIff(d, t.values[d.size], val);
    var n := t.Get(d.size);
    return i.Some? && d.sparse[i.value] < n;
  }

  /** Least and greatest value of a non-empty prefix, by scanning it. */
  method ScanBounds(d: Storage, n: nat) returns (lo: int, hi: int)
    requires PermOk(d) && 0 < n <= |d.dense|
    ensures Members(d, n) != {} && lo == MinOf(Members(d, n)) && hi == MaxOf(Members(d, n))
  {
    lo, hi := 0x7fff_ffff, -0x8000_0000;
    for p := 0 to n
      invariant forall q | 0 <= q < p :: lo <= ValueOf(d.map_, d.dense[q]) <= hi
      invariant p > 0 ==> exists q | 0 <= q < p :: ValueOf(d.map_, d.dense[q]) == lo
      invariant p > 0 ==> exists q | 0 <= q < p :: ValueOf(d.map_, d.dense[q]) == hi
      invariant p == 0 ==> lo == 0x7fff_ffff && hi == -0x8000_0000
    {
      assert PosOk(d, p);
      var v := ValueOf(d.map_, d.dense[p]);
      assert FitsI32(v);
      lo, hi := Common.Min(lo, v), Common.Max(hi, v);
    }
    MembersAre(d, n);
    assert lo in Members(d, n) && hi in Members(d, n);
  }

  /** What `RecomputeMin`, `RecomputeMax` and the mutators need while the bound cells are being repaired. */
  ghost predicate Sized(d: Storage, t: Trail)
    reads t
  {
    t.Valid() && PermOk(d) && HandlesOk(d, |t.values|) && 0 <= t.values[d.size] <= |d.dense|
  }

  /** The least value, once the old one is gone: the next present one of a range, or a scan of a list. */
  method LeastRemaining(d: Storage, t: Trail) returns (least: int)
    requires Sized(d, t) && t.values[d.size] > 0
    requires forall x | x in Members(d, t.values[d.size]) :: t.values[d.min] < x
    ensures Members(d, t.values[d.size]) != {} && least == MinOf(Members(d, t.values[d.size]))
  {
    ghost var s := Members(d, t.values[d.size]);
    MembersAre(d, t.values[d.size]);
    assert ValueOf(d.map_, d.dense[0]) in s;
    if d.map_.Range? {
      least := t.Get(d.min);
      least := least + 1;
      while true
        invariant least <= MinOf(s)
        decreases MinOf(s) - least
      {
        var found := Present(d, t, least);
        if found { return; }
        least := least + 1;
      }
    } else {
      var n := t.Get(d.size);
      var lo, _ := ScanBounds(d, n);
      least := lo;
    }
  }

  method GreatestRemaining(d: Storage, t: Trail) returns (greatest: int)
    requires Sized(d, t) && t.values[d.size] > 0
    requires forall x | x in Members(d, t.values[d.size]) :: x < t.values[d.max]
    ensures Members(d, t.values[d.size]) != {} && greatest == MaxOf(Members(d, t.values[d.size]))
  {
    ghost var s := Members(d, t.values[d.size]);
    MembersAre(d, t.values[d.size]);
    assert ValueOf(d.map_, d.dense[0]) in s;
    if d.map_.Range? {
      greatest := t.Get(d.max);
      greatest := greatest - 1;
      while true
        invariant MaxOf(s) <= greatest
        decreases greatest - MaxOf(s)
      {
        var found := Present(d, t, greatest);
        if found { return; }
        greatest := greatest - 1;
      }
    } else {
      var n := t.Get(d.size);
      var _, hi := ScanBounds(d, n);
      greatest := hi;
    }
  }

  // --- creation -------------------------------------------------------------------------------

  /** The value of every index. */
  function Support(m: ValueMap, n: nat): Dom { set i | 0 <= i < n :: ValueOf(m, i) }

  lemma {:induction false} InOrder(d: Storage, n: nat)
    requires n <= |d.dense| && forall p | 0 <= p < |d.dense| :: d.dense[p] == p
    ensures Members(d, n) == Support(d.map_, n)
  {
    if n > 0 {
      InOrder(d, n - 1);
      assert Support(d.map_, n) == Support(d.map_, n - 1) + {ValueOf(d.map_, n - 1)};
    }
  }

  /** A domain of all `n` values of `m`, at the root. */
  method Create(t: Trail, m: ValueMap, n: nat) returns (d: Storage)
    requires t.Valid() && t.levels == [] && MapOk(m, n) && n > 0
    modifies t
    ensures t.Valid() && t.levels == [] && Ok(d, t.Snapshots()) && At(d, t.Snapshots().current) == Support(m, n)
    ensures d.size >= |old(t.values)| && d.min >= |old(t.values)| && d.max >= |old(t.values)|
    ensures t.values[..|old(t.values)|] == old(t.values) && |t.values| >= |old(t.values)|
  {
    var order: seq<nat> := seq(n, i => i);
    var size := t.NewInt(n);
    d := Storage(m, order, order, size, size + 1, size + 2);
    forall p | 0 <= p < n ensures PosOk(d, p) && IndexOk(d, p) {}
    var lo, hi := ScanBounds(d, n);
    var min := t.NewInt(lo);
    var max := t.NewInt(hi);
    InOrder(d, n);
    assert d.min == min && d.max == max;
  }

  /** Indices below `i`, those marked present in `front` and the others in `back`, each once. */
  ghost predicate Sorted(present: seq<bool>, i: nat, front: seq<nat>, back: seq<nat>)
    requires i <= |present|
  {
    && |front| + |back| == i
    && (forall p | 0 <= p < |front| :: front[p] < i && present[front[p]])
    && (forall p | 0 <= p < |back| :: back[p] < i && !present[back[p]])
    && Distinct(front) && Distinct(back)
    && (forall j | 0 <= j < i :: if present[j] then j in front else j in back)
  }

  lemma SortedStep(present: seq<bool>, i: nat, front: seq<nat>, back: seq<nat>)
    requires i < |present| && Sorted(present, i, front, back)
    ensures if present[i] then Sorted(present, i + 1, front + [i], back) else Sorted(present, i + 1, front, back + [i])
  {
  }

  /** The inverse of a permutation, one position at a time. */
  method Invert(dense: seq<nat>) returns (sparse: seq<nat>)
    requires Distinct(dense) && forall p | 0 <= p < |dense| :: dense[p] < |dense|
    ensures |sparse| == |dense| && forall p | 0 <= p < |dense| :: sparse[dense[p]] == p
  {
    sparse := seq(|dense|, _ => 0);
    for p := 0 to |dense|
      invariant |sparse| == |dense| && forall q | 0 <= q < p :: sparse[dense[q]] == q
    {
      assert forall q | 0 <= q < p :: dense[q] != dense[p];
      sparse := sparse[dense[p] := p];
    }
  }

  /** Both lists together are a permutation, and `sparse` inverts it. */
  lemma GappedPerm(d: Storage, present: seq<bool>, front: seq<nat>, back: seq<nat>)
    requires Sorted(present, |present|, front, back) && MapOk(d.map_, |present|)
    requires d.dense == front + back && |d.sparse| == |d.dense|
    requires forall p | 0 <= p < |d.dense| :: d.dense[p] < |d.sparse| && d.sparse[d.dense[p]] == p
    ensures PermOk(d)
  {
    forall p | 0 <= p < |d.dense| ensures PosOk(d, p) {}
    forall i | 0 <= i < |d.sparse| ensures IndexOk(d, i) {
      assert i in front || i in back;
      assert i in d.dense;
      var p :| 0 <= p < |d.dense| && d.dense[p] == i;
    }
  }

  /** The values of the indices marked present. */
  function Marked(offset: int, present: seq<bool>): Dom {
    set i | 0 <= i < |present| && present[i] :: ValueOf(Range(offset), i)
  }

  lemma FrontIsMarked(offset: int, present: seq<bool>, front: seq<nat>, back: seq<nat>, d: Storage, p: nat)
    requires Sorted(present, |present|, front, back) && d.map_ == Range(offset) && d.dense == front + back
    requires p < |front|
    ensures ValueOf(d.map_, d.dense[p]) in Marked(offset, present)
  {
    var i := front[p];
    assert d.dense[p] == i && present[i];
  }

  lemma MarkedIsFront(offset: int, present: seq<bool>, front: seq<nat>, back: seq<nat>, d: Storage, i: nat)
    requires Sorted(present, |present|, front, back) && d.map_ == Range(offset) && d.dense == front + back
    requires i < |present| && present[i]
    ensures exists p | 0 <= p < |front| :: ValueOf(d.map_, d.dense[p]) == ValueOf(Range(offset), i)
  {
    assert i in front;
    var p :| 0 <= p < |front| && front[p] == i;
    assert d.dense[p] == i;
  }

  /** The first list holds the present values. */
  lemma GappedMembers(offset: int, present: seq<bool>, front: seq<nat>, back: seq<nat>, d: Storage)
    requires Sorted(present, |present|, front, back) && d.map_ == Range(offset) && d.dense == front + back
    ensures Members(d, |front|) == Marked(offset, present)
  {
    MembersAre(d, |front|);
    var s, t := Members(d, |front|), Marked(offset, present);
    forall x | x in s ensures x in t {
      var p: nat :| p < |front| && ValueOf(d.map_, d.dense[p]) == x;
      FrontIsMarked(offset, present, front, back, d, p);
    }
    forall x | x in t ensures x in s {
      var i: nat :| i < |present| && present[i] && ValueOf(Range(offset), i) == x;
      MarkedIsFront(offset, present, front, back, d, i);
    }
    assert s == t;
  }

  /** The present indices in front, the others behind. */
  method Arrange(present: seq<bool>) returns (front: seq<nat>, back: seq<nat>)
    ensures Sorted(present, |present|, front, back)
  {
    front, back := [], [];
    for i := 0 to |present|
      invariant Sorted(present, i, front, back)
    {
      SortedStep(present, i, front, back);
      if present[i] { front := front + [i]; } else { back := back + [i]; }
    }
  }

  /** A compact set with gaps: its present values first, at the root. */
  method CreateGapped(t: Trail, offset: int, present: seq<bool>) returns (d: Storage)
    requires t.Valid() && t.levels == [] && MapOk(Range(offset), |present|)
    requires present != [] && present[0] && present[|present| - 1]
    modifies t
    ensures t.Valid() && t.levels == [] && Ok(d, t.Snapshots())
    ensures At(d, t.Snapshots().current) == Marked(offset, present)
    ensures d.size >= |old(t.values)| && d.min >= |old(t.values)| && d.max >= |old(t.values)|
    ensures t.values[..|old(t.values)|] == old(t.values) && |t.values| >= |old(t.values)|
  {
    var front, back := Arrange(present);
    assert forall p | 0 <= p < |front| :: front[p] in front;
    var sparse := Invert(front + back);
    var size := t.NewInt(|front|);
    var min := t.NewInt(offset);
    var max := t.NewInt(offset + |present| - 1);
    d := Storage(Range(offset), front + back, sparse, size, min, max);
    GappedPerm(d, present, front, back);
    GappedMembers(offset, present, front, back, d);
    GappedBounds(offset, present);
    assert 0 in front && |front| > 0;
  }

  lemma GappedBounds(offset: int, present: seq<bool>)
    requires present != [] && present[0] && present[|present| - 1]
    ensures
      var s := Marked(offset, present);
      s != {} && MinOf(s) == offset && MaxOf(s) == offset + |present| - 1
  {
    var s := Marked(offset, present);
    assert ValueOf(Range(offset), 0) in s && ValueOf(Range(offset), |present| - 1) in s;
    IsBound(s, offset);
    IsBound(s, offset + |present| - 1);
  }

  // --- mutators -------------------------------------------------------------------------------

  /** `t` is `s` after the size was cut to `n` and some bounds of the domain were repaired. */
  ghost predicate Cut(d: Storage, s: Stack, t: Stack, n: nat) {
    OwnCells(d, s, t) && d.size < |t.current| && t.current[d.size] == n
  }

  lemma RemovalPermutes(d: Storage, pos: nat, n: nat)
    requires PermOk(d) && pos < n <= |d.dense|
    ensures PermutedBelow(d, Swap(d, pos, n - 1), n)
    ensures Members(Swap(d, pos, n - 1), n - 1) == Members(d, n) - {ValueOf(d.map_, d.dense[pos])}
  {
    SwapKeepsPerm(d, pos, n - 1);
    SwapRemoves(d, pos, n);
    forall m | n <= m <= |d.dense| ensures Members(Swap(d, pos, n - 1), m) == Members(d, m) {
      SwapKeepsMembers(d, pos, n - 1, m);
    }
  }

  /** A removal moves a bound only if it removes that bound. */
  lemma RemovalBounds(was: Dom, val: int)
    requires val in was && was != {val}
    ensures was - {val} != {}
    ensures val != MinOf(was) ==> MinOf(was - {val}) == MinOf(was)
    ensures val == MinOf(was) ==> MaxOf(was - {val}) == MaxOf(was) && forall x | x in was - {val} :: val < x
    ensures val != MaxOf(was) ==> MaxOf(was - {val}) == MaxOf(was)
    ensures val == MaxOf(was) ==> forall x | x in was - {val} :: x < val
  {
    var rest := was - {val};
    assert rest == {} ==> was == {val};
    if MinOf(was) == MaxOf(was) { FixedIsSingleton(was); }
    if val != MinOf(was) { IsBound(rest, MinOf(was)); }
    if val != MaxOf(was) { IsBound(rest, MaxOf(was)); }
  }

  lemma IsBound(s: Dom, x: int)
    requires x in s
    ensures (forall y | y in s :: x <= y) ==> MinOf(s) == x
    ensures (forall y | y in s :: y <= x) ==> MaxOf(s) == x
  {
  }

  /** Repair the bound that was removed, if any value is left. */
  method RepairBounds(d: Storage, t: Trail, val: int, ghost was: Dom)
    requires Sized(d, t) && HandlesOk(d, |t.Snapshots().current|)
    requires val in was && Members(d, t.values[d.size]) == was - {val}
    requires t.values[d.min] == MinOf(was) && t.values[d.max] == MaxOf(was)
    modifies t
    ensures t.Valid() && Describes(d, t.Snapshots().current)
    ensures Cut(d, old(t.Snapshots()), t.Snapshots(), old(t.values[d.size]))
  {
    var last := t.Get(d.size);
    if last > 0 {
      MembersAre(d, last);
      assert ValueOf(d.map_, d.dense[0]) in Members(d, last);
      RemovalBounds(was, val);
      var min := t.Get(d.min);
      if val == min {
        var least := LeastRemaining(d, t);
        t.Set(d.min, least);
      } else {
        var max := t.Get(d.max);
        if val == max {
          var greatest := GreatestRemaining(d, t);
          t.Set(d.max, greatest);
        }
      }
    }
  }

  /** Remove `val`; an absent value changes nothing. */
  method Remove(d: Storage, t: Trail, val: int) returns (e: Storage, changed: bool)
    requires t.Valid() && Ok(d, t.Snapshots())
    modifies t
    ensures t.Valid()
    ensures Becomes(d, old(t.Snapshots()), e, t.Snapshots(), At(d, old(t.Snapshots()).current) - {val})
    ensures changed <==> val in At(d, old(t.Snapshots()).current)
  {
    ghost var s := t.Snapshots();
    ghost var was := At(d, s.current);
    var n := t.Get(d.size);
    var i := IndexOf(d.map_, |d.dense|, val);
    PresentIff(d, n, val);
    if i.None? || d.sparse[i.value] >= n {
      Shrunk(d, s, d, s);
      assert was - {val} == was;
      return d, false;
    }
    var pos := d.sparse[i.value];
    assert IndexOk(d, i.value);
    RemovalPermutes(d, pos, n);
    e := Swap(d, pos, n - 1);
    t.Set(d.size, n - 1);
    RepairBounds(e, t, val, was);
    Shrunk(d, s, e, t.Snapshots());
    return e, true;
  }

  /** Fix the domain to `val`; fails if it is absent. */
  method Fix(d: Storage, t: Trail, val: int) returns (e: Storage, ok: bool, changed: bool)
    requires t.Valid() && Ok(d, t.Snapshots())
    modifies t
    ensures t.Valid() && (ok <==> val in At(d, old(t.Snapshots()).current))
    ensures Becomes(d, old(t.Snapshots()), e, t.Snapshots(), if ok then {val} else At(d, old(t.Snapshots()).current))
    ensures changed <==> ok && |At(d, old(t.Snapshots()).current)| > 1
  {
    ghost var s := t.Snapshots();
    var n := t.Get(d.size);
    MembersSize(d, n);
    var i := IndexOf(d.map_, |d.dense|, val);
    PresentIff(d, n, val);
    if i.None? || d.sparse[i.value] >= n {
      Shrunk(d, s, d, s);
      return d, false, false;
    }
    var pos := d.sparse[i.value];
    assert IndexOk(d, i.value);
    FixPermutes(d, pos, n);
    e := Swap(d, pos, 0);
    t.Set(d.size, 1);
    t.Set(d.min, val);
    t.Set(d.max, val);
    IsBound({val}, val);
    Shrunk(d, s, e, t.Snapshots());
    return e, true, n > 1;
  }

  lemma FixPermutes(d: Storage, pos: nat, n: nat)
    requires PermOk(d) && pos < n <= |d.dense|
    ensures PermutedBelow(d, Swap(d, pos, 0), n)
    ensures Members(Swap(d, pos, 0), 1) == {ValueOf(d.map_, d.dense[pos])}
  {
    SwapKeepsPerm(d, pos, 0);
    forall m | n <= m <= |d.dense| ensures Members(Swap(d, pos, 0), m) == Members(d, m) {
      SwapKeepsMembers(d, pos, 0, m);
    }
    MembersAre(Swap(d, pos, 0), 1);
    assert Swap(d, pos, 0).dense[0] == d.dense[pos];
  }

  /** What a scan has done: `n` positions are left, those before `pos` are kept, and only dropped values are gone. */
  ghost predicate Scanned(d: Storage, e: Storage, full: nat, n: nat, pos: nat, keep: int -> bool)
    requires full <= |d.dense|
  {
    && PermutedBelow(d, e, full) && pos <= n <= full
    && Members(e, n) <= Members(d, full)
    && (forall p | 0 <= p < pos :: keep(ValueOf(e.map_, e.dense[p])))
    && (forall x | x in Members(d, full) && keep(x) :: x in Members(e, n))
  }

  lemma ScanDrops(d: Storage, e: Storage, full: nat, n: nat, pos: nat, keep: int -> bool)
    requires full <= |d.dense| && Scanned(d, e, full, n, pos, keep) && pos < n
    requires !keep(ValueOf(e.map_, e.dense[pos]))
    ensures Scanned(d, Swap(e, pos, n - 1), full, n - 1, pos, keep)
  {
    RemovalPermutes(e, pos, n);
    MembersAre(e, n);
    var f := Swap(e, pos, n - 1);
    forall p | 0 <= p < pos ensures keep(ValueOf(f.map_, f.dense[p])) { assert f.dense[p] == e.dense[p]; }
  }

  lemma ScanKeeps(d: Storage, e: Storage, full: nat, n: nat, pos: nat, keep: int -> bool)
    requires full <= |d.dense| && Scanned(d, e, full, n, pos, keep) && pos < n
    requires keep(ValueOf(e.map_, e.dense[pos]))
    ensures Scanned(d, e, full, n, pos + 1, keep)
  {
  }

  /** Move the values to drop behind the prefix. */
  method Partition(d: Storage, full: nat, keep: int -> bool) returns (e: Storage, n: nat)
    requires PermOk(d) && full <= |d.dense|
    ensures PermutedBelow(d, e, full) && n <= full
    ensures Members(e, n) == set x | x in Members(d, full) && keep(x)
  {
    e, n := d, full;
    var pos := 0;
    while pos < n
      invariant Scanned(d, e, full, n, pos, keep)
      decreases n - pos
    {
      if !keep(ValueOf(e.map_, e.dense[pos])) {
        ScanDrops(d, e, full, n, pos, keep);
        e := Swap(e, pos, n - 1);
        n := n - 1;
      } else {
        ScanKeeps(d, e, full, n, pos, keep);
        pos := pos + 1;
      }
    }
    ScanEnds(d, e, full, n, keep);
  }

  lemma ScanEnds(d: Storage, e: Storage, full: nat, n: nat, keep: int -> bool)
    requires full <= |d.dense| && Scanned(d, e, full, n, n, keep)
    ensures Members(e, n) == set x | x in Members(d, full) && keep(x)
  {
    var kept := set x | x in Members(d, full) && keep(x);
    MembersAre(e, n);
    forall x | x in Members(e, n) ensures x in kept {
      var p :| 0 <= p < n && ValueOf(e.map_, e.dense[p]) == x;
      assert x in Members(d, full) && keep(x);
    }
    forall x | x in kept ensures x in Members(e, n) {}
    assert Members(e, n) == kept;
  }

  /** Cut the prefix to `n` positions and recompute its bounds. */
  method CutTo(d: Storage, t: Trail, n: nat)
    requires Sized(d, t) && n <= |d.dense|
    modifies t
    ensures t.Valid() && Describes(d, t.Snapshots().current) && Cut(d, old(t.Snapshots()), t.Snapshots(), n)
  {
    t.Set(d.size, n);
    if n > 0 {
      var lo, hi := ScanBounds(d, n);
      t.Set(d.min, lo);
      t.Set(d.max, hi);
    }
  }

  /** The prefix is shorter exactly when some value was dropped. */
  lemma DropsIffShorter(d: Storage, e: Storage, full: nat, n: nat, keep: int -> bool)
    requires PermOk(d) && PermOk(e) && full <= |d.dense| && n <= full && n <= |e.dense|
    requires Members(e, n) == set x | x in Members(d, full) && keep(x)
    ensures n < full <==> Members(e, n) != Members(d, full)
  {
    MembersSize(d, full);
    MembersSize(e, n);
    SubsetSize(Members(e, n), Members(d, full));
  }

  /** Keep the values for which `keep` holds. */
  method RemoveIf(d: Storage, t: Trail, keep: int -> bool) returns (e: Storage, changed: bool)
    requires t.Valid() && Ok(d, t.Snapshots())
    modifies t
    ensures t.Valid()
    ensures Becomes(d, old(t.Snapshots()), e, t.Snapshots(), set x | x in At(d, old(t.Snapshots()).current) && keep(x))
    ensures changed <==> At(e, t.Snapshots().current) != At(d, old(t.Snapshots()).current)
  {
    ghost var s := t.Snapshots();
    var full := t.Get(d.size);
    var n;
    e, n := Partition(d, full, keep);
    DropsIffShorter(d, e, full, n, keep);
    if n == full {
      assert Members(e, n) == Members(d, n);
      Shrunk(d, s, e, s);
      return e, false;
    }
    CutTo(e, t, n);
    Shrunk(d, s, e, t.Snapshots());
    return e, true;
  }

  lemma StepUp(s: Dom, v: int, bound: int)
    requires v < bound
    ensures AtLeast(s, v) - {v} == AtLeast(s, v + 1)
        && (AtLeast(s, v + 1) != s <==> AtLeast(s, v) != s || v in AtLeast(s, v))
    ensures AtLeast(s, v + 1) == {} ==> AtLeast(s, bound) == {}
  {
    assert AtLeast(s, bound) <= AtLeast(s, v + 1) <= AtLeast(s, v) <= s;
  }

  lemma StepDown(s: Dom, v: int, bound: int)
    requires bound < v
    ensures AtMost(s, v) - {v} == AtMost(s, v - 1)
        && (AtMost(s, v - 1) != s <==> AtMost(s, v) != s || v in AtMost(s, v))
    ensures AtMost(s, v - 1) == {} ==> AtMost(s, bound) == {}
  {
    assert AtMost(s, bound) <= AtMost(s, v - 1) <= AtMost(s, v) <= s;
  }

  /** `e` came from `d` by removals that left `target`. */
  ghost predicate Reduced(d: Storage, s: Stack, e: Storage, t: Stack, target: Dom)
  {
    Ok(d, s) && Becomes(d, s, e, t, target) && t.current[d.size] <= s.current[d.size]
  }

  lemma Unreduced(d: Storage, s: Stack)
    requires Ok(d, s)
    ensures Reduced(d, s, d, s, At(d, s.current))
  {
    Shrunk(d, s, d, s);
  }

  /** Remove `v` from a domain that came from `d`. */
  method RemoveNext(ghost d: Storage, ghost s: Stack, e: Storage, t: Trail, v: int, ghost was: Dom)
      returns (f: Storage, removed: bool, left: nat)
    requires t.Valid() && Reduced(d, s, e, t.Snapshots(), was)
    modifies t
    ensures t.Valid() && Reduced(d, s, f, t.Snapshots(), was - {v})
    ensures (removed <==> v in was) && (left == 0 <==> was - {v} == {})
  {
    ghost var mid := t.Snapshots();
    f, removed := Remove(e, t, v);
    left := t.Get(f.size);
    MembersSize(e, mid.current[e.size]);
    MembersSize(f, left);
    SubsetSize(was - {v}, was);
    BecomesTwice(d, s, e, mid, f, t.Snapshots(), was, was - {v});
  }

  /** Remove the values below `bound` one after the other, from `first` on. */
  method RemoveUpwards(ghost s: Stack, ghost was: Dom, d: Storage, t: Trail, first: int, bound: int)
      returns (e: Storage, changed: bool)
    requires t.Valid() && Reduced(d, s, d, t.Snapshots(), was) && first < bound && AtLeast(was, first) == was
    modifies t
    ensures t.Valid() && Reduced(d, s, e, t.Snapshots(), AtLeast(was, bound))
    ensures changed <==> AtLeast(was, bound) != was
  {
    var v := first;
    e, changed := d, false;
    while v < bound
      invariant v <= bound && t.Valid() && Reduced(d, s, e, t.Snapshots(), AtLeast(was, v))
      invariant changed <==> AtLeast(was, v) != was
    {
      StepUp(was, v, bound);
      var removed, left;
      e, removed, left := RemoveNext(d, s, e, t, v, AtLeast(was, v));
      changed := changed || removed;
      v := v + 1;
      if left == 0 { break; }
    }
  }

  /** Remove the values above `bound` one after the other, from `first` on. */
  method RemoveDownwards(ghost s: Stack, ghost was: Dom, d: Storage, t: Trail, first: int, bound: int)
      returns (e: Storage, changed: bool)
    requires t.Valid() && Reduced(d, s, d, t.Snapshots(), was) && bound < first && AtMost(was, first) == was
    modifies t
    ensures t.Valid() && Reduced(d, s, e, t.Snapshots(), AtMost(was, bound))
    ensures changed <==> AtMost(was, bound) != was
  {
    var v := first;
    e, changed := d, false;
    while v > bound
      invariant v >= bound && t.Valid() && Reduced(d, s, e, t.Snapshots(), AtMost(was, v))
      invariant changed <==> AtMost(was, v) != was
    {
      StepDown(was, v, bound);
      var removed, left;
      e, removed, left := RemoveNext(d, s, e, t, v, AtMost(was, v));
      changed := changed || removed;
      v := v - 1;
      if left == 0 { break; }
    }
  }

  /** Keep the values from `bound` on: one removal after the other for a range, a partition for a list. */
  method RemoveBelow(d: Storage, t: Trail, bound: int) returns (e: Storage, changed: bool)
    requires t.Valid() && Ok(d, t.Snapshots())
    modifies t
    ensures t.Valid()
    ensures Becomes(d, old(t.Snapshots()), e, t.Snapshots(), AtLeast(At(d, old(t.Snapshots()).current), bound))
    ensures changed <==> At(e, t.Snapshots().current) != At(d, old(t.Snapshots()).current)
  {
    ghost var s := t.Snapshots();
    ghost var was := At(d, s.current);
    Unreduced(d, s);
    var n := t.Get(d.size);
    var first := t.Get(d.min);
    if n == 0 || bound <= first {
      assert AtLeast(was, bound) == was;
      return d, false;
    }
    assert AtLeast(was, first) == was;
    if d.map_.Range? {
      e, changed := RemoveUpwards(s, was, d, t, first, bound);
    } else {
      e, changed := RemoveIf(d, t, x => x >= bound);
      assert AtLeast(was, bound) == set x | x in was && x >= bound;
    }
  }

  /** Keep the values up to `bound`. */
  method RemoveAbove(d: Storage, t: Trail, bound: int) returns (e: Storage, changed: bool)
    requires t.Valid() && Ok(d, t.Snapshots())
    modifies t
    ensures t.Valid()
    ensures Becomes(d, old(t.Snapshots()), e, t.Snapshots(), AtMost(At(d, old(t.Snapshots()).current), bound))
    ensures changed <==> At(e, t.Snapshots().current) != At(d, old(t.Snapshots()).current)
  {
    ghost var s := t.Snapshots();
    ghost var was := At(d, s.current);
    Unreduced(d, s);
    var n := t.Get(d.size);
    var first := t.Get(d.max);
    if n == 0 || bound >= first {
      assert AtMost(was, bound) == was;
      return d, false;
    }
    assert AtMost(was, first) == was;
    if d.map_.Range? {
      e, changed := RemoveDownwards(s, was, d, t, first, bound);
    } else {
      e, changed := RemoveIf(d, t, x => x <= bound);
      assert AtMost(was, bound) == set x | x in was && x <= bound;
    }
  }
}
