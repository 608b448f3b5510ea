/**
 The reversible-integer trail (src/trail.rs): an undo log whose entries are
 filtered by epoch stamps, shown to be a stack of full snapshots.
 */
module Trails {
  /** The six fields of the trail as one value; what a method does is a function on it. */
  datatype State = State(
    values: seq<int>,
    epochs: seq<nat>,
    log: seq<(nat, int)>,
    levels: seq<(nat, nat)>,
    cur: nat,
    next: nat)

  const EMPTY: State := State([], [], [], [], 0, 0)

  function AfterNewInt(s: State, v: int): State {
    s.(values := s.values + [v], epochs := s.epochs + [0])
  }

  function AfterSet(s: State, i: nat, v: int): State
    requires i < |s.values| == |s.epochs|
  {
    if s.values[i] == v then s
    else if s.epochs[i] == s.cur then s.(values := s.values[i := v])
    else s.(log := s.log + [(i, s.values[i])], epochs := s.epochs[i := s.cur], values := s.values[i := v])
  }

  function AfterPush(s: State): State {
    s.(next := s.next + 1, cur := s.next + 1, levels := s.levels + [(|s.log|, s.next + 1)])
  }

  function AfterPop(s: State): State
    requires s.levels != [] && LogInRange(s.values, s.log)
  {
    var mark := s.levels[|s.levels| - 1].0;
    var levels := s.levels[..|s.levels| - 1];
    s.(values := Undo(s.values, s.log, mark),
       log := if mark <= |s.log| then s.log[..mark] else s.log,
       levels := levels,
       cur := TopEpoch(levels))
  }

  function TopEpoch(levels: seq<(nat, nat)>): nat {
    if levels == [] then 0 else levels[|levels| - 1].1
  }

  predicate LogInRange(values: seq<int>, log: seq<(nat, int)>) {
    forall j | 0 <= j < |log| :: log[j].0 < |values|
  }

  /** The values after replaying the log backwards down to length `mark`. */
  function Undo(values: seq<int>, log: seq<(nat, int)>, mark: nat): (r: seq<int>)
    requires LogInRange(values, log)
    ensures |r| == |values|
    decreases |log|
  {
    if |log| <= mark then values
    else
      var (i, was) := log[|log| - 1];
      Undo(values[i := was], log[..|log| - 1], mark)
  }

  // --- the invariant -------------------------------------------------------

  /** One past the last log entry written while level `k` was the deepest level. */
  function SegmentEnd(s: State, k: nat): nat
    requires k < |s.levels|
  {
    if k + 1 < |s.levels| then s.levels[k + 1].0 else |s.log|
  }

  ghost predicate InSegment(s: State, k: nat, i: nat)
    requires k < |s.levels|
  {
    exists j :: s.levels[k].0 <= j < SegmentEnd(s, k) && j < |s.log| && s.log[j].0 == i
  }

  /** Marks stay within the log and, like epochs, grow from level to level. */
  ghost predicate LevelOk(s: State, k: nat)
    requires k < |s.levels|
  {
    && s.levels[k].0 <= SegmentEnd(s, k) <= |s.log|
    && 0 < s.levels[k].1 <= s.next
    && (k + 1 < |s.levels| ==> s.levels[k].1 < s.levels[k + 1].1)
  }

  /**
   A cell stamped by an open level has an undo entry in that level's segment,
   and one with an entry in a segment carries that level's stamp or a later one.
   */
  ghost predicate StampOk(s: State, k: nat, i: nat)
    requires k < |s.levels| && i < |s.epochs|
  {
    && (s.epochs[i] == s.levels[k].1 ==> InSegment(s, k, i))
    && (InSegment(s, k, i) ==> s.levels[k].1 <= s.epochs[i])
  }

  ghost predicate Inv(s: State) {
    && |s.epochs| == |s.values|
    && LogInRange(s.values, s.log)
    && s.cur == TopEpoch(s.levels)
    && (forall k | 0 <= k < |s.levels| :: LevelOk(s, k))
    && (forall i | 0 <= i < |s.epochs| :: s.epochs[i] <= s.next)
    && (forall k, i | 0 <= k < |s.levels| && 0 <= i < |s.epochs| :: StampOk(s, k, i))
  }

  lemma {:induction false} LevelsOrdered(s: State, k: nat, l: nat)
    requires Inv(s) && k < l < |s.levels|
    ensures s.levels[k].0 <= SegmentEnd(s, k) <= s.levels[l].0 <= |s.log| && s.levels[k].1 < s.levels[l].1
    decreases l
  {
    assert LevelOk(s, l - 1) && LevelOk(s, l);
    if k < l - 1 {
      LevelsOrdered(s, k, l - 1);
    }
  }

  // --- the stack of snapshots ----------------------------------------------

  datatype Stack = Stack(current: seq<int>, saved: seq<seq<int>>)

  datatype Op = NewInt(v: int) | Set(i: nat, v: int) | PushLevel | PopLevel

  predicate Enabled(t: Stack, op: Op) {
    match op
    case Set(i, _) => i < |t.current|
    case PopLevel => t.saved != []
    case _ => true
  }

  /** What each call means for a stack of full snapshots. */
  function StackStep(t: Stack, op: Op): Stack
    requires Enabled(t, op)
  {
    match op
    case NewInt(v) => Stack(t.current + [v], seq(|t.saved|, k requires 0 <= k < |t.saved| => t.saved[k] + [v]))
    case Set(i, v) => t.(current := t.current[i := v])
    case PushLevel => t.(saved := t.saved + [t.current])
    case PopLevel => Stack(t.saved[|t.saved| - 1], t.saved[..|t.saved| - 1])
  }

  /** The snapshots an undo log stands for. */
  function View(s: State): (t: Stack)
    requires LogInRange(s.values, s.log)
    ensures |t.saved| == |s.levels|
  {
    Stack(s.values, seq(|s.levels|, k requires 0 <= k < |s.levels| => Undo(s.values, s.log, s.levels[k].0)))
  }

  function Step(s: State, op: Op): State
    requires |s.epochs| == |s.values| && LogInRange(s.values, s.log) && Enabled(View(s), op)
  {
    match op
    case NewInt(v) => AfterNewInt(s, v)
    case Set(i, v) => AfterSet(s, i, v)
    case PushLevel => AfterPush(s)
    case PopLevel => AfterPop(s)
  }

  // --- facts about replaying the log ---------------------------------------

  lemma {:induction false} UndoOverwritten(values: seq<int>, log: seq<(nat, int)>, mark: nat, i: nat, v: int, j: nat)
    requires LogInRange(values, log) && i < |values| && mark <= j < |log| && log[j].0 == i
    ensures Undo(values[i := v], log, mark) == Undo(values, log, mark)
    decreases |log|
  {
    var (c, was) := log[|log| - 1];
    var rest := log[..|log| - 1];
    if c == i {
      assert values[i := v][c := was] == values[c := was];
    } else {
      assert values[i := v][c := was] == values[c := was][i := v];
      assert rest[j].0 == i;
      UndoOverwritten(values[c := was], rest, mark, i, v, j);
    }
  }

  lemma UndoLogged(values: seq<int>, log: seq<(nat, int)>, mark: nat, i: nat, v: int)
    requires LogInRange(values, log) && i < |values| && mark <= |log|
    ensures LogInRange(values[i := v], log + [(i, values[i])])
    ensures Undo(values[i := v], log + [(i, values[i])], mark) == Undo(values, log, mark)
  {
    assert (log + [(i, values[i])])[..|log|] == log;
    assert values[i := v][i := values[i]] == values;
  }

  lemma {:induction false} UndoCompose(values: seq<int>, log: seq<(nat, int)>, m1: nat, m2: nat)
    requires LogInRange(values, log) && m1 <= m2 <= |log|
    ensures LogInRange(Undo(values, log, m2), log[..m2])
    ensures Undo(Undo(values, log, m2), log[..m2], m1) == Undo(values, log, m1)
    decreases |log|
  {
    if |log| == m2 {
      assert log[..m2] == log;
    } else {
      var (i, was) := log[|log| - 1];
      var rest := log[..|log| - 1];
      assert rest[..m2] == log[..m2];
      UndoCompose(values[i := was], rest, m1, m2);
    }
  }

  lemma {:induction false} UndoExtended(values: seq<int>, log: seq<(nat, int)>, mark: nat, v: int)
    requires LogInRange(values, log)
    ensures Undo(values + [v], log, mark) == Undo(values, log, mark) + [v]
    decreases |log|
  {
    if mark < |log| {
      var (i, was) := log[|log| - 1];
      assert (values + [v])[i := was] == values[i := was] + [v];
      UndoExtended(values[i := was], log[..|log| - 1], mark, v);
    }
  }

  // --- every call keeps the invariant and is a step of the stack -----------

  lemma NewIntRefines(s: State, v: int)
    requires Inv(s)
    ensures Inv(AfterNewInt(s, v)) && View(AfterNewInt(s, v)) == StackStep(View(s), NewInt(v))
  {
    var t := AfterNewInt(s, v);
    forall k | 0 <= k < |t.levels| ensures LevelOk(t, k) {
      assert LevelOk(s, k);
    }
    forall k, i | 0 <= k < |t.levels| && 0 <= i < |t.epochs| ensures StampOk(t, k, i) {
      assert LevelOk(s, k);
      if i < |s.epochs| { assert StampOk(s, k, i); }
      assert InSegment(t, k, i) == InSegment(s, k, i);
    }
    forall k | 0 <= k < |s.levels| ensures View(t).saved[k] == View(s).saved[k] + [v] {
      UndoExtended(s.values, s.log, s.levels[k].0, v);
    }
  }

  lemma SetKeepsStamp(s: State, i: nat, v: int, k: nat, c: nat)
    requires Inv(s) && i < |s.values| && k < |s.levels| && c < |s.epochs|
    ensures StampOk(AfterSet(s, i, v), k, c)
  {
    var t := AfterSet(s, i, v);
    var top := |s.levels| - 1;
    assert StampOk(s, k, c) && LevelOk(s, k);
    if t.log != s.log {
      if k < top { LevelsOrdered(s, k, top); }
      if k == top && c == i { assert t.log[|s.log|].0 == i; }
      if InSegment(s, k, c) {
        var j :| s.levels[k].0 <= j < SegmentEnd(s, k) && j < |s.log| && s.log[j].0 == c;
        assert t.log[j].0 == c;
      }
      if InSegment(t, k, c) && !(k == top && c == i) {
        var j :| t.levels[k].0 <= j < SegmentEnd(t, k) && j < |t.log| && t.log[j].0 == c;
        assert s.log[j].0 == c;
      }
    } else {
      assert InSegment(t, k, c) == InSegment(s, k, c);
    }
  }

  lemma SetKeepsInv(s: State, i: nat, v: int)
    requires Inv(s) && i < |s.values|
    ensures Inv(AfterSet(s, i, v))
  {
    var t := AfterSet(s, i, v);
    if s.levels != [] { assert LevelOk(s, |s.levels| - 1); }
    forall k | 0 <= k < |t.levels| ensures LevelOk(t, k) {
      assert LevelOk(s, k);
    }
    forall k, c | 0 <= k < |t.levels| && 0 <= c < |t.epochs| ensures StampOk(t, k, c) {
      SetKeepsStamp(s, i, v, k, c);
    }
  }

  lemma SetKeepsSnapshot(s: State, i: nat, v: int, k: nat)
    requires Inv(s) && i < |s.values| && k < |s.levels|
    ensures LogInRange(AfterSet(s, i, v).values, AfterSet(s, i, v).log)
    ensures View(AfterSet(s, i, v)).saved[k] == View(s).saved[k]
  {
    var mark := s.levels[k].0;
    var top := |s.levels| - 1;
    assert LevelOk(s, k);
    if s.values[i] == v {
    } else if s.epochs[i] == s.cur {
      assert StampOk(s, top, i);
      var j :| s.levels[top].0 <= j < SegmentEnd(s, top) && j < |s.log| && s.log[j].0 == i;
      if k < top { LevelsOrdered(s, k, top); }
      UndoOverwritten(s.values, s.log, mark, i, v, j);
    } else {
      UndoLogged(s.values, s.log, mark, i, v);
    }
  }

  lemma SetRefines(s: State, i: nat, v: int)
    requires Inv(s) && i < |s.values|
    ensures Inv(AfterSet(s, i, v)) && View(AfterSet(s, i, v)) == StackStep(View(s), Set(i, v))
  {
    SetKeepsInv(s, i, v);
    var t := AfterSet(s, i, v);
    forall k | 0 <= k < |s.levels| ensures View(t).saved[k] == View(s).saved[k] {
      SetKeepsSnapshot(s, i, v, k);
    }
    assert View(t).saved == View(s).saved;
    assert t.values == s.values[i := v];
  }

  lemma PushRefines(s: State)
    requires Inv(s)
    ensures Inv(AfterPush(s)) && View(AfterPush(s)) == StackStep(View(s), PushLevel)
  {
    var t := AfterPush(s);
    if s.levels != [] { assert LevelOk(s, |s.levels| - 1); }
    forall k | 0 <= k < |t.levels| ensures LevelOk(t, k) {
      if k < |s.levels| { assert LevelOk(s, k); }
    }
    forall k, c | 0 <= k < |t.levels| && 0 <= c < |t.epochs| ensures StampOk(t, k, c) {
      if k < |s.levels| {
        assert StampOk(s, k, c) && LevelOk(s, k);
        assert InSegment(t, k, c) == InSegment(s, k, c);
      }
    }
    assert View(t).saved == View(s).saved + [s.values];
  }

  lemma PopSegment(s: State, k: nat, c: nat)
    requires Inv(s) && k + 1 < |s.levels|
    ensures InSegment(AfterPop(s), k, c) <==> InSegment(s, k, c)
    ensures SegmentEnd(AfterPop(s), k) == SegmentEnd(s, k) <= |AfterPop(s).log| && |AfterPop(s).log| <= |s.log|
  {
    var t := AfterPop(s);
    LevelsOrdered(s, k, |s.levels| - 1);
    assert SegmentEnd(t, k) == SegmentEnd(s, k) <= |t.log|;
    if InSegment(s, k, c) {
      var j :| s.levels[k].0 <= j < SegmentEnd(s, k) && j < |s.log| && s.log[j].0 == c;
      assert t.log[j].0 == c;
    }
    if InSegment(t, k, c) {
      var j :| t.levels[k].0 <= j < SegmentEnd(t, k) && j < |t.log| && t.log[j].0 == c;
      assert s.log[j].0 == c;
    }
  }

  lemma PopKeepsInv(s: State)
    requires Inv(s) && s.levels != []
    ensures Inv(AfterPop(s))
  {
    var t := AfterPop(s);
    forall k | 0 <= k < |t.levels| ensures LevelOk(t, k) {
      assert LevelOk(s, k);
      PopSegment(s, k, 0);
    }
    forall k, c | 0 <= k < |t.levels| && 0 <= c < |t.epochs| ensures StampOk(t, k, c) {
      assert StampOk(s, k, c);
      PopSegment(s, k, c);
    }
    assert LogInRange(t.values, t.log);
  }

  lemma PopRefines(s: State)
    requires Inv(s) && s.levels != []
    ensures Inv(AfterPop(s)) && View(AfterPop(s)) == StackStep(View(s), PopLevel)
  {
    PopKeepsInv(s);
    var t := AfterPop(s);
    var top := |s.levels| - 1;
    assert LevelOk(s, top);
    forall k | 0 <= k < top ensures View(t).saved[k] == View(s).saved[k] {
      LevelsOrdered(s, k, top);
      UndoCompose(s.values, s.log, s.levels[k].0, s.levels[top].0);
    }
    assert View(t).saved == View(s).saved[..top];
  }

  /** Every call on the undo log is the same call on the stack of snapshots. */
  lemma StepRefines(s: State, op: Op)
    requires Inv(s) && Enabled(View(s), op)
    ensures Inv(Step(s, op)) && View(Step(s, op)) == StackStep(View(s), op)
  {
    match op
    case NewInt(v) => NewIntRefines(s, v);
    case Set(i, v) => SetRefines(s, i, v);
    case PushLevel => PushRefines(s);
    case PopLevel => PopRefines(s);
  }

  // --- whole runs ----------------------------------------------------------

  predicate Legal(t: Stack, ops: seq<Op>)
    decreases |ops|
  {
    ops == [] || (Enabled(t, ops[0]) && Legal(StackStep(t, ops[0]), ops[1..]))
  }

  function StackRun(t: Stack, ops: seq<Op>): Stack
    requires Legal(t, ops)
    decreases |ops|
  {
    if ops == [] then t else StackRun(StackStep(t, ops[0]), ops[1..])
  }

  ghost function Run(s: State, ops: seq<Op>): State
    requires Inv(s) && Legal(View(s), ops)
    decreases |ops|
  {
    if ops == [] then s
    else
      StepRefines(s, ops[0]);
      Run(Step(s, ops[0]), ops[1..])
  }

  /** Over any run, the trail is the stack of snapshots the same run builds. */
  lemma {:induction false} RunRefines(s: State, ops: seq<Op>)
    requires Inv(s) && Legal(View(s), ops)
    ensures Inv(Run(s, ops)) && View(Run(s, ops)) == StackRun(View(s), ops)
    decreases |ops|
  {
    if ops != [] {
      StepRefines(s, ops[0]);
      RunRefines(Step(s, ops[0]), ops[1..]);
    }
  }

  /** The run never closes a level below depth `d`. */
  predicate StaysAbove(t: Stack, ops: seq<Op>, d: nat)
    requires Legal(t, ops)
    decreases |ops|
  {
    d <= |t.saved| && (ops == [] || StaysAbove(StackStep(t, ops[0]), ops[1..], d))
  }

  /** `b` is `a`, with the cells allocated since appended. */
  predicate Extends(a: seq<int>, b: seq<int>) { |a| <= |b| && b[..|a|] == a }

  lemma {:induction false} FrameRun(t: Stack, ops: seq<Op>, d: nat)
    requires Legal(t, ops) && StaysAbove(t, ops, d)
    ensures d <= |StackRun(t, ops).saved|
    ensures forall k | 0 <= k < d :: Extends(t.saved[k], StackRun(t, ops).saved[k])
    decreases |ops|
  {
    if ops != [] {
      FrameRun(StackStep(t, ops[0]), ops[1..], d);
    }
  }

  /** Levels that stay open keep their mark and epoch. */
  lemma {:induction false} EpochStack(s: State, ops: seq<Op>, d: nat)
    requires Inv(s) && Legal(View(s), ops) && StaysAbove(View(s), ops, d)
    ensures d <= |s.levels| && d <= |Run(s, ops).levels| && Run(s, ops).levels[..d] == s.levels[..d]
    decreases |ops|
  {
    RunRefines(s, ops);
    if ops != [] {
      StepRefines(s, ops[0]);
      EpochStack(Step(s, ops[0]), ops[1..], d);
    }
  }

  /** On the stack: opening a level, a run above it, and closing it undo the run. */
  lemma StackPaired(t: Stack, ops: seq<Op>)
    requires Legal(StackStep(t, PushLevel), ops)
    requires StaysAbove(StackStep(t, PushLevel), ops, |t.saved| + 1)
    requires |StackRun(StackStep(t, PushLevel), ops).saved| == |t.saved| + 1
    ensures
      var r := StackStep(StackRun(StackStep(t, PushLevel), ops), PopLevel);
      && |r.saved| == |t.saved| && Extends(t.current, r.current)
      && forall k | 0 <= k < |t.saved| :: Extends(t.saved[k], r.saved[k])
  {
    var p := StackStep(t, PushLevel);
    FrameRun(p, ops, |t.saved| + 1);
    forall k | 0 <= k < |t.saved|
      ensures Extends(t.saved[k], StackRun(p, ops).saved[k])
    {
      assert p.saved[k] == t.saved[k];
    }
    assert p.saved[|t.saved|] == t.current;
  }

  /**
   Pushing a level, running anything that stays above it and returns to its
   depth, and popping restores every cell, with new cells keeping the value
   they were allocated with.
   */
  lemma PairedLevelRestores(s: State, ops: seq<Op>)
    requires Inv(s) && Inv(AfterPush(s)) && Legal(View(AfterPush(s)), ops)
    requires StaysAbove(View(AfterPush(s)), ops, |s.levels| + 1)
    requires |Run(AfterPush(s), ops).levels| == |s.levels| + 1
    ensures Inv(Run(AfterPush(s), ops))
    ensures
      var t := AfterPop(Run(AfterPush(s), ops));
      && Inv(t) && t.levels == s.levels && t.cur == s.cur
      && Extends(s.values, t.values)
      && forall k | 0 <= k < |s.levels| :: Extends(View(s).saved[k], View(t).saved[k])
  {
    var p := AfterPush(s);
    PushRefines(s);
    RunRefines(p, ops);
    var q := Run(p, ops);
    EpochStack(p, ops, |s.levels| + 1);
    PopRefines(q);
    var t := AfterPop(q);
    assert t.levels == s.levels by {
      var n := |s.levels|;
      assert |q.levels| == n + 1;
      assert t.levels == q.levels[..n] == q.levels[..n + 1][..n];
      assert p.levels[..n + 1][..n] == s.levels;
    }
    StackPaired(View(s), ops);
  }

  // --- how many entries one level incarnation writes ------------------------

  /**
   The remark that N writes in one level incarnation leave a single undo entry
   is false: whenever a child level writes the cell in between, the parent's
   incarnation logs it twice.
   */
  lemma ChildWriteLogsTwice(s: State, i: nat, v1: int, v2: int, v3: int)
    requires Inv(s) && s.levels != [] && i < |s.values| && s.epochs[i] != s.cur
    requires v1 != s.values[i] && v2 != v1 && v3 != v1
    ensures
      var wrote := AfterSet(AfterPush(AfterSet(s, i, v1)), i, v2);
      && Inv(wrote) && wrote.levels != []
      && var closed := AfterPop(wrote);
      && i < |closed.values| == |closed.epochs|
      && AfterSet(closed, i, v3).levels == s.levels && AfterSet(closed, i, v3).cur == s.cur
      && AfterSet(closed, i, v3).log == s.log + [(i, s.values[i])] + [(i, v1)]
  {
    var a := AfterSet(s, i, v1);
    SetRefines(s, i, v1);
    var b := AfterPush(a);
    PushRefines(a);
    var wrote := AfterSet(b, i, v2);
    SetRefines(b, i, v2);
    assert wrote.log == a.log + [(i, v1)];
    PopRefines(wrote);
    var closed := AfterPop(wrote);
    assert closed.log == a.log;
    assert closed.levels == s.levels;
    assert closed.values == a.values by {
      assert View(wrote).saved[|s.levels|] == View(b).saved[|s.levels|] == a.values;
    }
  }

  /** A write logs a cell a second time exactly when a later, closed level last stamped it. */
  lemma LogsAgainIff(s: State, i: nat, v: int)
    requires Inv(s) && i < |s.values| && s.levels != []
    requires InSegment(s, |s.levels| - 1, i)
    ensures |AfterSet(s, i, v).log| > |s.log| <==> s.values[i] != v && s.epochs[i] > s.cur
  {
    assert StampOk(s, |s.levels| - 1, i);
  }

  // --- the class ------------------------------------------------------------

  class Trail {
    var values: seq<int>
    var epochs: seq<nat>
    var log: seq<(nat, int)>
    var levels: seq<(nat, nat)>
    var cur: nat
    var next: nat

    function Fields(): State
      reads this
    {
      State(values, epochs, log, levels, cur, next)
    }

    ghost predicate Valid()
      reads this
    {
      Inv(Fields())
    }

    /** What the trail stands for: the current cells over one snapshot per open level. */
    function Snapshots(): Stack
      requires LogInRange(values, log)
      reads this
    {
      View(Fields())
    }

    constructor ()
      ensures Valid() && Fields() == EMPTY
    {
      values, epochs, log, levels, cur, next := [], [], [], [], 0, 0;
    }

    method NewInt(v: int) returns (r: nat)
      requires Valid()
      modifies this
      ensures Valid() && Fields() == AfterNewInt(old(Fields()), v)
      ensures r == |old(values)| && values == old(values) + [v]
      ensures Snapshots() == StackStep(old(Snapshots()), Op.NewInt(v))
    {
      NewIntRefines(Fields(), v);
      r := |values|;
      values := values + [v];
      epochs := epochs + [0];
    }

    method Get(r: nat) returns (v: int)
      requires Valid() && r < |values|
      ensures v == Snapshots().current[r]
    {
      v := values[r];
    }

    method Set(r: nat, v: int)
      requires Valid() && r < |values|
      modifies this
      ensures Valid() && Fields() == AfterSet(old(Fields()), r, v)
      ensures Snapshots() == StackStep(old(Snapshots()), Op.Set(r, v))
    {
      SetRefines(Fields(), r, v);
      if values[r] != v {
        if epochs[r] != cur {
          log := log + [(r, values[r])];
          epochs := epochs[r := cur];
        }
        values := values[r := v];
      }
    }

    method PushLevel()
      requires Valid()
      modifies this
      ensures Valid() && Fields() == AfterPush(old(Fields()))
      ensures Snapshots() == StackStep(old(Snapshots()), Op.PushLevel)
    {
      PushRefines(Fields());
      next := next + 1;
      cur := next;
      levels := levels + [(|log|, cur)];
    }

    /** The undo loop of `PopLevel`. */
    method UndoTo(mark: nat)
      requires LogInRange(values, log) && mark <= |log|
      modifies `values, `log
      ensures values == Undo(old(values), old(log), mark) && log == old(log)[..mark]
    {
      while |log| > mark
        invariant mark <= |log| <= |old(log)| && log == old(log)[..|log|]
        invariant LogInRange(values, log)
        invariant Undo(values, log, mark) == Undo(old(values), old(log), mark)
      {
        var (i, was) := log[|log| - 1];
        log := log[..|log| - 1];
        values := values[i := was];
      }
    }

    method PopLevel()
      requires Valid() && levels != []
      modifies this
      ensures Valid() && Fields() == AfterPop(old(Fields()))
      ensures Snapshots() == StackStep(old(Snapshots()), Op.PopLevel)
    {
      PopRefines(Fields());
      assert LevelOk(Fields(), |levels| - 1);
      var (mark, _) := levels[|levels| - 1];
      levels := levels[..|levels| - 1];
      UndoTo(mark);
      cur := TopEpoch(levels);
    }
  }
}
