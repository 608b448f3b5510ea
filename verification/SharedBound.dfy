/**
 The incumbent shared by concurrent workers (src/search.rs): value and presence
 are separate cells, written value first and read presence first. Workers take
 the individual loads and stores in any interleaving.
 */
module SharedBound {
  import opened Common

  type Worker = nat

  /** Where a worker is inside `publish` or `load`. */
  datatype Pc = Idle | Publishing(v: int) | Stored(v: int) | SawPresent

  datatype State = State(
    value: int,
    present: bool,
    pcs: map<Worker, Pc>,
    // history: values some worker began or finished publishing, and what loads returned
    begun: set<int>,
    finished: set<int>,
    loads: seq<Option<int>>)

  datatype Action =
    | BeginPublish(w: Worker, v: int)
    | StoreValue(w: Worker)
    | StorePresence(w: Worker)
    | ReadPresence(w: Worker)
    | ReadValue(w: Worker)

  function PcOf(s: State, w: Worker): Pc { if w in s.pcs then s.pcs[w] else Idle }

  predicate Enabled(s: State, x: Action) {
    match x
    case BeginPublish(w, _) => PcOf(s, w) == Idle
    case StoreValue(w) => PcOf(s, w).Publishing?
    case StorePresence(w) => PcOf(s, w).Stored?
    case ReadPresence(w) => PcOf(s, w) == Idle
    case ReadValue(w) => PcOf(s, w) == SawPresent
  }

  function Step(s: State, x: Action): State
    requires Enabled(s, x)
  {
    match x
    case BeginPublish(w, v) => s.(pcs := s.pcs[w := Publishing(v)], begun := s.begun + {v})
    case StoreValue(w) => s.(value := PcOf(s, w).v, pcs := s.pcs[w := Stored(PcOf(s, w).v)])
    case StorePresence(w) => s.(present := true, pcs := s.pcs[w := Idle], finished := s.finished + {PcOf(s, w).v})
    case ReadPresence(w) => if s.present then s.(pcs := s.pcs[w := SawPresent]) else s.(loads := s.loads + [None])
    case ReadValue(w) => s.(pcs := s.pcs[w := Idle], loads := s.loads + [Some(s.value)])
  }

  function Init(initial: Option<int>): State {
    State(if initial.Some? then initial.value else 0, initial.Some?, map[], {}, {}, [])
  }

  /** The values a reader may be shown. */
  function Legitimate(initial: Option<int>, s: State): set<int> {
    s.begun + (if initial.Some? then {initial.value} else {})
  }

  ghost predicate Inv(initial: Option<int>, s: State) {
    && (s.present <==> initial.Some? || s.finished != {})
    && s.finished <= s.begun
    && (forall w | w in s.pcs :: match s.pcs[w]
          case Idle => true
          case Publishing(v) => v in s.begun
          case Stored(v) => v in s.begun && s.value in Legitimate(initial, s)
          case SawPresent => s.present)
    && (s.present ==> s.value in Legitimate(initial, s))
    && (forall k | 0 <= k < |s.loads| :: s.loads[k].Some? ==> s.loads[k].value in Legitimate(initial, s))
  }

  lemma StepKeepsInv(initial: Option<int>, s: State, x: Action)
    requires Inv(initial, s) && Enabled(s, x)
    ensures Inv(initial, Step(s, x))
    ensures s.present ==> Step(s, x).present
  {
    assert forall v | v in Legitimate(initial, s) :: v in Legitimate(initial, Step(s, x));
  }

  predicate Legal(s: State, xs: seq<Action>)
    decreases |xs|
  {
    xs == [] || (Enabled(s, xs[0]) && Legal(Step(s, xs[0]), xs[1..]))
  }

  function Run(s: State, xs: seq<Action>): State
    requires Legal(s, xs)
    decreases |xs|
  {
    if xs == [] then s else Run(Step(s, xs[0]), xs[1..])
  }

  /** From a state that satisfies the invariant, every run keeps it, presence and the history. */
  lemma {:induction false} RunKeepsInv(initial: Option<int>, s: State, xs: seq<Action>)
    requires Inv(initial, s) && Legal(s, xs)
    ensures Inv(initial, Run(s, xs))
    ensures s.present ==> Run(s, xs).present
    ensures s.loads <= Run(s, xs).loads
    decreases |xs|
  {
    if xs != [] {
      StepKeepsInv(initial, s, xs[0]);
      RunKeepsInv(initial, Step(s, xs[0]), xs[1..]);
    }
  }

  /**
   Over every interleaving each value a load returns is the initial one or one
   some worker had begun to publish, and presence never reverts.
   */
  lemma LoadsAreLegitimate(initial: Option<int>, xs: seq<Action>, ys: seq<Action>)
    requires Legal(Init(initial), xs) && Legal(Run(Init(initial), xs), ys)
    ensures
      var s, t := Run(Init(initial), xs), Run(Run(Init(initial), xs), ys);
      && (s.present ==> t.present)
      && (forall k | 0 <= k < |t.loads| && t.loads[k].Some? :: t.loads[k].value in Legitimate(initial, t))
      // a load already finished returned a value begun before it finished
      && s.loads <= t.loads
      && (forall k | 0 <= k < |s.loads| && s.loads[k].Some? :: s.loads[k].value in Legitimate(initial, s))
  {
    RunKeepsInv(initial, Init(initial), xs);
    RunKeepsInv(initial, Run(Init(initial), xs), ys);
  }

  /** A load reads absence exactly when there was no initial value and no publish has finished. */
  lemma AbsentIffNothingPublished(initial: Option<int>, xs: seq<Action>, w: Worker)
    requires Legal(Init(initial), xs) && Enabled(Run(Init(initial), xs), ReadPresence(w))
    ensures
      var s := Run(Init(initial), xs);
      Step(s, ReadPresence(w)).loads == s.loads + [None] <==> initial.None? && s.finished == {}
  {
    RunKeepsInv(initial, Init(initial), xs);
  }

  // --- which value a load returns -----------------------------------------------------------

  /** The publish that worker `w` was last to begin before step `k` was of `v`. */
  ghost predicate LastBegan(xs: seq<Action>, k: nat, w: Worker, v: int)
    requires k <= |xs|
  {
    exists j :: 0 <= j < k && BeganAt(xs, j, k, w, v)
  }

  ghost predicate BeganAt(xs: seq<Action>, j: nat, k: nat, w: Worker, v: int)
    requires j < k <= |xs|
  {
    xs[j] == BeginPublish(w, v) && forall i | j < i < k :: !(xs[i].BeginPublish? && xs[i].w == w)
  }

  /** No value is stored from step `from` on. */
  ghost predicate NoStoreFrom(xs: seq<Action>, from: nat) { forall i | from <= i < |xs| :: !xs[i].StoreValue? }

  /** Step `k` is the last that stored a value, and it stored `v`. */
  ghost predicate LastStored(xs: seq<Action>, k: nat, v: int)
    requires k < |xs|
  {
    xs[k].StoreValue? && LastBegan(xs, k, xs[k].w, v) && NoStoreFrom(xs, k + 1)
  }

  /** `v` is what the latest store of the history carried, or the initial value when there was none. */
  ghost predicate Current(initial: Option<int>, xs: seq<Action>, v: int) {
    || (exists k :: 0 <= k < |xs| && LastStored(xs, k, v))
    || (NoStoreFrom(xs, 0) && v == if initial.Some? then initial.value else 0)
  }

  lemma {:induction false} RunSnoc(s: State, xs: seq<Action>, x: Action)
    ensures Legal(s, xs + [x]) <==> Legal(s, xs) && Enabled(Run(s, xs), x)
    ensures Legal(s, xs + [x]) ==> Run(s, xs + [x]) == Step(Run(s, xs), x)
    decreases |xs|
  {
    if xs == [] {
      assert xs + [x] == [x] && [x][1..] == [];
    } else {
      assert (xs + [x])[0] == xs[0] && (xs + [x])[1..] == xs[1..] + [x];
      if Enabled(s, xs[0]) { RunSnoc(Step(s, xs[0]), xs[1..], x); }
    }
  }

  /** A worker that is about to store carries the value it was last to begin with. */
  ghost predicate Carrying(xs: seq<Action>, s: State) {
    forall w: Worker | PcOf(s, w).Publishing? :: LastBegan(xs, |xs|, w, PcOf(s, w).v)
  }

  lemma BeganStays(xs: seq<Action>, x: Action, k: nat, w: Worker, v: int)
    requires k <= |xs| && LastBegan(xs, k, w, v)
    ensures LastBegan(xs + [x], k, w, v)
    ensures k == |xs| && !(x.BeginPublish? && x.w == w) ==> LastBegan(xs + [x], k + 1, w, v)
  {
    var j :| 0 <= j < k && BeganAt(xs, j, k, w, v);
    assert BeganAt(xs + [x], j, k, w, v);
    if k == |xs| && !(x.BeginPublish? && x.w == w) { assert BeganAt(xs + [x], j, k + 1, w, v); }
  }

  lemma CarryingStep(xs: seq<Action>, s: State, x: Action)
    requires Carrying(xs, s) && Enabled(s, x)
    ensures Carrying(xs + [x], Step(s, x))
  {
    var t := Step(s, x);
    forall w: Worker | PcOf(t, w).Publishing? ensures LastBegan(xs + [x], |xs| + 1, w, PcOf(t, w).v) {
      if x.BeginPublish? && x.w == w {
        assert BeganAt(xs + [x], |xs|, |xs| + 1, w, x.v);
      } else {
        BeganStays(xs, x, |xs|, w, PcOf(s, w).v);
      }
    }
  }

  lemma CurrentStep(initial: Option<int>, xs: seq<Action>, s: State, x: Action)
    requires Carrying(xs, s) && Current(initial, xs, s.value) && Enabled(s, x)
    ensures Current(initial, xs + [x], Step(s, x).value)
  {
    var ys := xs + [x];
    if x.StoreValue? {
      BeganStays(xs, x, |xs|, x.w, PcOf(s, x.w).v);
      assert LastStored(ys, |xs|, Step(s, x).value);
    } else if NoStoreFrom(xs, 0) {
      assert NoStoreFrom(ys, 0);
    } else {
      var k :| 0 <= k < |xs| && LastStored(xs, k, s.value);
      BeganStays(xs, x, k, xs[k].w, s.value);
      assert LastStored(ys, k, s.value);
    }
  }

  /** After every run the value cell holds what the latest store carried. */
  lemma {:induction false} ValueIsCurrent(initial: Option<int>, xs: seq<Action>)
    requires Legal(Init(initial), xs)
    ensures Carrying(xs, Run(Init(initial), xs)) && Current(initial, xs, Run(Init(initial), xs).value)
    decreases |xs|
  {
    if xs != [] {
      var (ys, x) := (xs[..|xs| - 1], xs[|xs| - 1]);
      assert xs == ys + [x];
      RunSnoc(Init(initial), ys, x);
      ValueIsCurrent(initial, ys);
      CarryingStep(ys, Run(Init(initial), ys), x);
      CurrentStep(initial, ys, Run(Init(initial), ys), x);
    }
  }

  /** A load that finds presence returns the value of the latest store, or the initial one. */
  lemma LoadsReadLatest(initial: Option<int>, xs: seq<Action>, w: Worker)
    requires Legal(Init(initial), xs + [ReadValue(w)])
    ensures Legal(Init(initial), xs)
    ensures
      var s, t := Run(Init(initial), xs), Run(Init(initial), xs + [ReadValue(w)]);
      exists v :: t.loads == s.loads + [Some(v)] && Current(initial, xs, v)
  {
    RunSnoc(Init(initial), xs, ReadValue(w));
    ValueIsCurrent(initial, xs);
  }

  lemma CurrentIsUnique(initial: Option<int>, xs: seq<Action>, k: nat, v: int, u: int)
    requires k < |xs| && LastStored(xs, k, v) && Current(initial, xs, u)
    ensures u == v
  {
    var i :| 0 <= i < |xs| && LastStored(xs, i, u);
    assert i == k;
    var w := xs[k].w;
    var j :| 0 <= j < k && BeganAt(xs, j, k, w, v);
    var h :| 0 <= h < k && BeganAt(xs, h, k, w, u);
    assert j == h;
  }

  lemma {:induction false} PresentAfter(initial: Option<int>, xs: seq<Action>, k: nat)
    requires Legal(Init(initial), xs) && k < |xs| && xs[k].StorePresence?
    ensures Run(Init(initial), xs).present
    decreases |xs|
  {
    var (ys, x) := (xs[..|xs| - 1], xs[|xs| - 1]);
    assert xs == ys + [x];
    RunSnoc(Init(initial), ys, x);
    if k < |ys| { PresentAfter(initial, ys, k); }
  }

  /**
   Once a publish of `v` has finished and nothing has been stored since its store
   at step `j`, a load that looks for presence finds it and one that reads the
   value gets exactly `v`.
   */
  lemma FinishedPublishIsRead(initial: Option<int>, xs: seq<Action>, j: nat, k: nat, v: int, r: Worker)
    requires Legal(Init(initial), xs) && j < k < |xs| && LastStored(xs, j, v) && xs[k] == StorePresence(xs[j].w)
    ensures
      var s := Run(Init(initial), xs);
      && (Enabled(s, ReadPresence(r)) ==>
            Step(s, ReadPresence(r)).loads == s.loads && PcOf(Step(s, ReadPresence(r)), r) == SawPresent)
      && (Enabled(s, ReadValue(r)) ==> Step(s, ReadValue(r)).loads == s.loads + [Some(v)])
  {
    ValueIsCurrent(initial, xs);
    CurrentIsUnique(initial, xs, j, v, Run(Init(initial), xs).value);
    PresentAfter(initial, xs, k);
  }
}
