# A verified model of the constraint-solving kernel

The kernel of this finite-domain constraint solver lives in six source files: the
reversible trail, the store with its propagation scheduler, the propagator
contract, the domain search with clause posting and assumptions, the enumeration
of minimal unsatisfiable subsets, and the expression language. This project models
them in Dafny and proves what they are for. `dafny verify dfyconfig.toml` checks it.

| files | what they model | main result |
|---|---|---|
| `Trail` | `src/trail.rs`, the epoch-stamped undo log (a class with the six fields) | it is a stack of full snapshots, over every run |
| `Subsets`, `QuickXplain`, `Mus`, `Marco`, `Extraction` | `src/mus.rs` over a monotone consistency oracle that may be interrupted | every run reports only genuine MUSes and MSSes, a complete run all of them; exactly when none is repeated and the loop ends |
| `Expr`, `ExprMeaning`, `ExprSoundness`, `Sharpness`, `ReleaseBuild`, `IntervalRoom`, `BoundsRoom` | `Expr::eval` and `Expr::bounds` in `src/expr.rs`, with overflow checks and with the wrap-around of the release profile | the value is what each operator stands for; the interval contains it, for every tree, and is no wider than its operands make it; a condition on tree and box under which it contains it in every build |
| `Affine`, `AffineRow`, `AffineRoom` | the affine normal form and the ranged row of a comparison | both mean what the expression means, and exist for every linear expression with room |
| `SparseSet`, `DomainStore` | the sparse-set domains of `src/domains/int.rs` and the store's domains on one trail (class `DomainStore`) | closing a level brings back every domain, although only three cells per domain are trailed |
| `Domains`, `Store` | the banded queue, event-filtered waking, the mutators and the fixpoint loop (class `Solver`, on a `DomainStore`) | the greatest common fixpoint, whatever the schedule |
| `DomainModel`, `DomainSearch`, `ConstraintFilters` | `domain_dfs` and its decisions; the domain-consistent filter of a constraint | every solution exactly once, and the node's state restored; every constraint that respects decided orders has a propagator for which this holds |
| `Literals`, `Assumptions`, `BoolClauses`, `ClausePosting`, `BoolCores` | atoms and literals, assumption cubes, clause normalisation and posting (class `Engine`), cores | literals, cubes and the posted store keep their meaning; every posted clause is true at the root or stored with two literals or more; cores map back to inconsistent parts of the caller's cube |
| `SharedBound` | the incumbent cell shared by workers | under every interleaving of its loads and stores a load returns the value of the latest store |
| `LinearRelaxation` | the big-M rows of guarded linear constraints (class `Recorder`) | the rows follow from the constraint, and are equivalent to it when all were recorded |
| `WeightCache` | incremental weighted degrees (class `Degrees`) | the cache equals the recomputed degree in every reachable state |
| `Explanations` | reasons, injected selector premises and staged conflicts (class `Store`) | under any nesting, a run takes its greatest effect while all selectors are 1 and none otherwise, and every tight reason is entailed by the guarded constraint |

How the outside world appears. The search engine is an oracle: a monotone predicate
on sets of selector literals whose refutations come with some inconsistent subset of
what was assumed. A Boolean parameter `stop` says whether the stop flag may be raised;
a run with `stop` false cannot be interrupted. A propagator is a monotone, contracting,
idempotent function on boxes of finite domains that reacts only to the events it
subscribed to. Partial runs of a propagator are arbitrary sequences of domain
reductions. 32-bit, 64-bit and 128-bit limits are written out wherever the code checks
them, saturates at them or wraps around them.

What the code does differently from its own documentation, or only under a condition:

- The trail's remark that the writes of one level incarnation leave a single undo
  entry is false: a child level that writes the cell restamps it, and the parent logs
  it again afterwards. `Trails.LogsAgainIff` gives the exact condition. Restoration is
  unaffected.
- `bounds` is documented as sound, but an implication whose antecedent is certainly
  true takes over the consequent's interval, while `eval` reduces the consequent to
  0/1. `ExprSoundness.CertainImpIff` gives the exact condition, for any operands, and
  `BoundsSound` asks the consequent's interval to keep truth values at such nodes only.
- Interval arithmetic that leaves its machine width panics with overflow checks on and
  wraps around in the release profile, where the interval can then miss the value
  (`ReleaseBuild.SaturatedNegationMisses`, `WideProductMisses`, `WideQuotientMisses`).
  `NegationSoundIff`, `AbsoluteSoundIff`, `RemainderSoundIff` and `QuotientSoundIff` are
  exact at their nodes. `BoundsRoom.Roomy` is a condition on the tree and the box that
  rules this out: operands of a negation, absolute value, division or remainder may not
  reach saturation, and the magnitudes of the factors of a product must multiply within
  128 bits.
- `extract_mus` does not repeat the root check that `enumerate_mus` makes, so when only
  search can refute the root it returns one blamed selector instead of the empty MUS.
  Its core is a MUS exactly when it is empty or the root is consistent
  (`Extraction.ExtractMus`).
- A core is mapped back by the first selector with a literal, so with a selector listed
  twice it can leave the active set (`Mus.CoresStayActiveIffDistinct`). Then the seed
  that gave the core is never blocked: `enumerate_mus` reports the same MUS again, and
  without a limit it does not end (`Marco.RepeatedSelectorRepeatsMus`). No repetition
  and termination need that no MUS contains a selector listed more than once, which a
  list without repeats guarantees; no run is complete otherwise. What is reported is
  genuine in any case, and `extract_mus` is not affected.
- The start split computes its width in 32 bits. It stays inside the window exactly
  when that width does not wrap or the window is the full range
  (`DomainModels.SplitsInsideIff`); otherwise one branch is the node itself and the
  search meets it again (`DomainModels.OutsideSplitRepeats`). The search is stated for
  splits that stay inside, which windows narrower than 2^31 guarantee
  (`DomainSearch.NarrowIsSplittable`).
- An assumption cube is refused when one assumption folds to false or two literals
  clash. Other unsatisfiable cubes are returned (`Assumptions.UnsatisfiableCubeAccepted`).

## Model

| member | source | states |
|---|---|---|
| `Trails.StepRefines` | src/trail.rs:45-86 | every call on the undo log is the same call on a stack of full snapshots, and keeps the invariant linking stamps, marks and log segments |
| `Trails.SetRefines` | src/trail.rs:58-69 | writing a cell changes that cell and no snapshot, whether or not the old value is logged |
| `Trails.PopRefines` | src/trail.rs:77-86 | closing a level brings back exactly the snapshot taken when it was opened, and leaves the outer snapshots alone |
| `Trails.NewIntRefines` | src/trail.rs:45-50 | a new cell appears in the current state and in every open snapshot with its first value |
| `Trails.PushRefines` | src/trail.rs:71-76 | opening a level saves the current cells; the fresh epoch is one no cell carries |
| `Trails.RunRefines` | src/trail.rs:45-86 | over any run of calls the trail stands for the stack the same run builds |
| `Trails.EpochStack` | src/trail.rs:71-86 | levels that stay open keep their mark and epoch through any run above them |
| `Trails.PairedLevelRestores` | src/trail.rs:71-86 | open a level, run anything above it, close it: every cell, every snapshot, the level stack and the current epoch are as before |
| `Trails.ChildWriteLogsTwice` | src/trail.rs:22-24 | one level incarnation can log a cell twice, for every state and cell: the single-entry remark does not hold after a child level |
| `Trails.LogsAgainIff` | src/trail.rs:58-69 | a cell with an entry in the open segment is logged again exactly when its value changes and a closed child level stamped it last |
| `Trails.Trail.Set` | src/trail.rs:58-69 | the write, on the six fields and on the snapshots |
| `Trails.Trail.NewInt` | src/trail.rs:45-50 | the allocation, on the fields and on the snapshots |
| `Trails.Trail.PushLevel` | src/trail.rs:71-76 | the opening, on the fields and on the snapshots |
| `Trails.Trail.UndoTo` | src/trail.rs:80-83 | the loop replays the log backwards down to the mark |
| `Trails.Trail.PopLevel` | src/trail.rs:77-86 | the closing, on the fields and on the snapshots |
| `QuickXplains.Combine` | src/mus.rs:270-281 | minimising the second half over the first, then the first over what was found, gives disjoint parts whose union is irreducible |
| `QuickXplains.QuickXplainExplains` | src/mus.rs:245-281 | the result comes from the candidates, is inconsistent with the background, and loses inconsistency when any one member is dropped |
| `QuickXplains.QuickXplainKeepsOrder` | src/mus.rs:270-281 | the members found keep the order of the candidates, so sorted candidates give a sorted list without repeats |
| `QuickXplains.UntestedBackgroundBlamesFirst` | src/mus.rs:261-266 | an inconsistent background that did not just grow is never tested, and the first candidate is blamed |
| `QuickXplains.MinimalIffRootConsistent` | src/mus.rs:132 | the outermost call, with its untested empty background, is minimal exactly when the root constraints are consistent |
| `Subsets.IrreducibleIsMus` | src/mus.rs:132 | no single removal restores inconsistency, so no proper subset is inconsistent |
| `Subsets.SaturatedIsMss` | src/mus.rs:430-452 | no single addition stays consistent, so no proper superset does |
| `Mus.Inconsistent` | src/mus.rs:233-243 | the answer is the oracle's verdict on exactly the active selectors, or an interruption |
| `Mus.CoresStayActiveIffDistinct` | src/mus.rs:143-145 | mapping cores back by first position stays inside the active set, for every core of every set, exactly when no two selectors share a literal |
| `Mus.CoreIndicesActivate` | src/mus.rs:104-106 | the sorted, deduplicated indices of a core activate exactly the core's literals |
| `Mus.Refine` | src/mus.rs:135-151 | a trimmed set of an inconsistent one is inconsistent, activates only its literals and names each by its first selector; its indices stay in the set if no literal is repeated |
| `Mus.MinimiseFrom` | src/mus.rs:249-281 | the recursion over slices with an interruptible engine returns the value of the specification function |
| `Mus.ShrinkToMus` | src/mus.rs:117-133 | trimming then minimising gives an increasing list of indices that is inconsistent, over the literals of the start, and a MUS exactly when it is empty or the root is consistent |
| `Mus.ShrunkIsMusIff` | src/mus.rs:132 | the same condition for minimising any inconsistent residue |
| `Mus.SoleStaysActive` | src/mus.rs:143-145 | a MUS without repeated literals lies in every set that has its literals, so shrinking cannot leave the seed |
| `Mus.ExchangeKeepsMus` | src/mus.rs:143-145 | exchanging an index for another one with the same literal keeps a MUS a MUS |
| `Mus.ReportedFirstMeansSole` | src/mus.rs:143-145 | if every MUS consists of first occurrences, none has a repeated literal |
| `Mus.Grow` | src/mus.rs:430-452 | the result is sorted, contains the seed and is a maximal satisfiable subset of all selectors |
| `Mus.Sorted` | src/mus.rs:450 | sorting keeps the grown set a maximal satisfiable subset |
| `Marco.BlockDownBlocksSubsets` | src/mus.rs:377-379 | the clause pushed for an MSS rejects its subsets and nothing else; with all selectors inside it is empty and rejects everything |
| `Marco.BlockUpBlocksSupersets` | src/mus.rs:387-389 | the clause pushed for a MUS rejects its supersets and nothing else |
| `Marco.MapSeed` | src/mus.rs:417-428 | a seed satisfies every block; exhaustion means no subset does |
| `Marco.RecordMus` | src/mus.rs:382-391 | recording a MUS keeps the blocks in step with the lists; one below its seed is new and strictly shrinks the unexplored subsets; one that is not leaves the seed unexplored |
| `Marco.RecordMss` | src/mus.rs:372-381 | recording an MSS above its seed repeats nothing, keeps the blocks in step with the lists and strictly shrinks the unexplored subsets |
| `Marco.ExhaustedCovers` | src/mus.rs:364-367 | when the map is exhausted every MUS and every MSS has been reported |
| `Marco.RootUnsat` | src/mus.rs:342-350 | an inconsistent root has the empty set as its only MUS and no MSS |
| `Marco.CompleteMeansSole` | src/mus.rs:358-367 | lists of first occurrences that cover all MUSes exist only when no MUS has a repeated literal |
| `Marco.RepeatedSelectorRepeatsMus` | src/mus.rs:358-394 | with one selector listed twice the seed of the second occurrence shrinks to the first one whatever core is given, and stays unexplored however often that MUS was recorded |
| `Marco.EnumerateIndices` | src/mus.rs:342-394 | what the loop reports is genuine, as increasing lists of indices, and no MSS repeats; a complete run reports everything; the limit bounds the total; without a limit it ends, and repeats no MUS, when no MUS has a repeated literal, and a complete run shows that none has |
| `Extraction.BuildTable` | src/mus.rs:327-334 | the table lists the selectors that can be toggled, as often as they were given, with their literals |
| `Extraction.MusOverSelectors` | src/mus.rs:390 | a set of indices is a MUS exactly when the selectors it names are and none is named twice |
| `Extraction.MssOverSelectors` | src/mus.rs:380 | a set of indices is an MSS exactly when the selectors it names are and it holds all their positions |
| `Extraction.Translate` | src/mus.rs:380-390 | index lists become selector lists that are as sound and as complete |
| `Extraction.TranslateRepeats` | src/mus.rs:380-390 | the selector lists repeat nothing that the index lists do not, MSSes always and MUSes without repeated literals |
| `Extraction.ClosedDistinctIff` | src/mus.rs:377-391 | positions that hold all positions of their selectors name no selector twice exactly when each of those is listed once |
| `Extraction.TranslateDistinct` | src/mus.rs:372-391 | no reported MUS lists a selector twice; a reported MSS does exactly when the caller listed one of its selectors more than once |
| `Extraction.SoleIffListedOnce` | src/mus.rs:327-334 | no MUS has a repeated literal exactly when no MUS has a selector listed more than once |
| `Extraction.DistinctIsListedOnce` | src/mus.rs:327-334 | a selector list without repeats meets that condition |
| `Extraction.EnumerateMus` | src/mus.rs:309-395 | on every run: genuine sets, no MSS twice, within the limit; no MUS lists a selector twice, and an MSS does only if the caller did; `complete` means all MUSes and all MSSes; as long as no MUS has a selector listed more than once, no MUS is reported twice and a run nobody stops is complete unless the limit was reached; where one has, no run is complete |
| `Extraction.ExtractMus` | src/mus.rs:74-115 | for any selector list, a core lists no selector twice, is inconsistent, and is a MUS exactly when it is empty or the root is consistent; `Satisfiable` only when all selectors together are |
| `ExprSoundness.BoundsSound` | src/expr.rs:297-455 | the value of any expression tree lies in its interval, under every assignment in the box, whenever the interval is computed without overflow; what the value is, operator by operator, is `ExprMeaning.EvalYields` |
| `ExprSoundness.ProductInCorners` | src/expr.rs:600-604 | a product of members lies between the extreme corner products |
| `ExprSoundness.QuotientSound` | src/expr.rs:338-349 | a truncated quotient lies in the interval, with a divisor of one sign and with one that straddles zero |
| `ExprSoundness.QuotInPositiveCorners` | src/expr.rs:346-347 | the truncated quotient lies between the extreme corner quotients |
| `ExprSoundness.DivModWithin` | src/expr.rs:338-358 | division and remainder nodes keep soundness |
| `ExprSoundness.CornersAttained` | src/expr.rs:600-604 | the ends of a product interval, and of a quotient interval with a divisor of one sign, are values of members |
| `ExprSoundness.CompareBoundsExact` | src/expr.rs:564-587 | a comparison is decided exactly when all pairs of members agree on it |
| `ExprSoundness.AndSound` | src/expr.rs:394-408 | the early exit and the all-true flag of a conjunction are sound |
| `ExprSoundness.OrSound` | src/expr.rs:409-423 | the early exit and the all-false flag of a disjunction are sound |
| `ExprSoundness.SumSound` | src/expr.rs:315-324 | running sums stay within the running interval |
| `ExprSoundness.ProductSound` | src/expr.rs:330-337 | running products stay within the running interval |
| `ExprSoundness.MinMaxWithin` | src/expr.rs:589-598 | the least and greatest operand values lie within the folded ends |
| `ExprSoundness.KeepsTruthIff` | src/expr.rs:424-431 | an interval contains the truth value of each member exactly when it is [0, 0] or contains 1 |
| `ExprSoundness.CertainImpIff` | src/expr.rs:424-431 | an implication of guarded operands whose antecedent is certainly true is contained in its interval exactly when the interval keeps truth values or the consequent is 0, for every tree and assignment |
| `ExprSoundness.ImpliedVariableSoundIff` | src/expr.rs:424-431 | with a variable as consequent, containment under every assignment holds exactly when its interval keeps truth values; [5, 5] does not |
| `ExprMeaning.EvalYields` | src/expr.rs:204-293 | every value of a node is the one its operator stands for: the sum, the product, the least or greatest operand, the quotient rounded toward zero, the remainder with the sign of the dividend, or the truth value of the relation or connective |
| `ExprMeaning.EvalFails` | src/expr.rs:204-293 | a node has no value only if an operand it needs has none, its divisor is 0, or its exact result, for sums and products a partial one, does not fit 64 bits |
| `ExprMeaning.QuotTruncates` | src/expr.rs:225-238 | a quotient rounds toward zero, quotient and remainder rebuild the dividend, and a remainder other than 0 has the dividend's sign |
| `ExprMeaning.TruncatesOnce` | src/expr.rs:225-231 | rounding toward zero determines the quotient |
| `ExprMeaning.MinIsLeast` | src/expr.rs:239-245 | the fold is the least of its start and the list, and one of them |
| `ExprMeaning.MaxIsGreatest` | src/expr.rs:246-252 | the fold is the greatest of its start and the list, and one of them |
| `ExprMeaning.ExtremeIsOperand` | src/expr.rs:239-252 | over machine values the minimum and maximum of operands are operands, below and above all others |
| `ExprMeaning.SumIsTotal` | src/expr.rs:210-216 | the checked sum is the sum, and overflows exactly when some partial sum leaves 64 bits |
| `ExprMeaning.ProductIsProduct` | src/expr.rs:218-224 | the checked product is the product, and overflows exactly when some partial product leaves 64 bits |
| `ExprMeaning.ImpIsOr` | src/expr.rs:424-426 | `a -> b` has the value of `!a or b` wherever both operands have values |
| `Sharpness.BoundsSharp` | src/expr.rs:297-455 | no interval is wider than its operands make it: both ends of every node come from members of the operands' intervals, a remainder and a quotient by a divisor around 0 being known by magnitude only |
| `Sharpness.ProductOfEnds` | src/expr.rs:330-337 | both ends of a product of any number of intervals are products of members |
| `Sharpness.SumOfEnds` | src/expr.rs:315-324 | the running interval of a sum is the sum of the lower and of the upper ends |
| `Sharpness.AndDecides` | src/expr.rs:394-408 | a conjunction is certainly false exactly when an operand is, and certainly true exactly when all are |
| `Sharpness.OrDecides` | src/expr.rs:409-423 | a disjunction is certainly true exactly when an operand is, and certainly false exactly when all are |
| `ReleaseBuild.ReleaseAgrees` | src/expr.rs:297-455 | where no step overflows, the wrapping release build returns the same interval, for every tree and box |
| `ReleaseBuild.NegationSoundIff` | src/expr.rs:301-304 | the wrapped negation contains every representable negation exactly when the least 64-bit value is not one of several members |
| `ReleaseBuild.AbsoluteSoundIff` | src/expr.rs:305-314 | the same for absolute values, where the greatest value also saves it |
| `ReleaseBuild.RemainderSoundIff` | src/expr.rs:350-358 | wrapped remainders are contained exactly when the least value is not one of several divisors |
| `ReleaseBuild.QuotientSoundIff` | src/expr.rs:338-344 | wrapped quotients by divisors around zero are contained exactly when the least value is no dividend, or the only one over unit divisors, or no divisor is positive and the greatest magnitude is a dividend's too |
| `ReleaseBuild.WideQuotientMisses` | src/expr.rs:338-344 | a quotient with release interval [0, 0] and value -5 |
| `ReleaseBuild.SaturatedNegationMisses` | src/expr.rs:301-304 | a saturated difference under a negation has an inverted release interval that misses its value |
| `ReleaseBuild.WideProductMisses` | src/expr.rs:330-337 | a product of three 44-bit factors has release interval [0, 0] and value 1 |
| `BoundsRoom.ProductsFit` | src/expr.rs:330-337 | if the factors' magnitudes multiply within 128 bits, so does every corner product |
| `BoundsRoom.RoomyComputes` | src/expr.rs:297-455 | under the condition on tree and box no step of `bounds` overflows |
| `BoundsRoom.RoomyBoundsSound` | src/expr.rs:297-455 | under that condition every build returns the same interval, and it contains the value |
| `Affine.FromExprMeans` | src/expr.rs:465-516 | constant plus weighted sum of a successful form is the value of the expression under every assignment, and no coefficient is zero |
| `Affine.FromSumMeans` | src/expr.rs:473-482 | the accumulating loop of a sum means the sum |
| `Affine.FromProductMeans` | src/expr.rs:488-497 | the accumulating loop of a product means the product |
| `Affine.AddScaledMeans` | src/expr.rs:518-530 | merging adds the meanings and keeps zero coefficients out |
| `Affine.WeightedMerge` | src/expr.rs:520-528 | merging the terms adds the scaled weighted sums |
| `Affine.ScaleMeans` | src/expr.rs:532-542 | scaling multiplies the meaning, also by zero |
| `Affine.MultiplyMeans` | src/expr.rs:544-550 | a product with a constant side multiplies the meanings |
| `Affine.CheckedAddScaled` | src/expr.rs:518-530 | the in-place loop ends in the pointwise merge, or in none exactly when some step overflows |
| `AffineRow.RowExact` | src/expr.rs:81-139 | the ranged row holds exactly when the comparison evaluates to 1; its variables are distinct and its coefficients non-zero |
| `AffineRow.ListingMeans` | src/expr.rs:183-200 | listing the terms in variable order keeps the weighted sum |
| `AffineRow.MergeLeft` | src/expr.rs:110-118 | the left terms arrive unchanged |
| `AffineRow.SubtractRight` | src/expr.rs:119-126 | the right terms are subtracted pointwise, or none exactly when a difference leaves 64 bits |
| `AffineRow.LinearRelation` | src/expr.rs:81-139 | the translation with its loops computes the row of `RowExact` |
| `AffineRoom.LinearHasForm` | src/expr.rs:465-516 | sums, differences and products with at most one factor with variables have an affine form, if a bound on their numbers fits 128 bits |
| `AffineRoom.LinearHasRow` | src/expr.rs:81-139 | a comparison of two such expressions, other than `!=`, has a row if the bounds leave room in 64 bits |
| `AffineRoom.MultiplyHasRoom` | src/expr.rs:544-550 | a product with a constant side succeeds and stays within the product of the bounds |
| `AffineRoom.AddHasRoom` | src/expr.rs:518-530 | merging succeeds and stays within the sum of the bounds |
| `Domains.ScheduleIndependent` | src/propagator.rs:21-23 | two schedules that succeed agree, and none succeeds where another fails |
| `Stores.PushKeepsQueue` | src/store.rs:1195-1201 | queueing keeps each flagged propagator exactly once, in its own band |
| `Stores.PopKeepsQueue` | src/store.rs:1205-1213 | so does dequeuing |
| `Stores.LowestBandIsCheapest` | src/propagator.rs:21-43 | what is queued on the lowest non-empty band costs no more than anything queued: cheap before linear before expensive |
| `Stores.WokenIsAwake` | src/store.rs:1245-1274 | the entries that hear the flags of a change are exactly those its event is raised for |
| `Stores.FilterBounds` | src/store.rs:1548-1567 | running one propagator loses no common fixpoint below the start |
| `Stores.EmptyRefutes` | src/store.rs:1560-1565 | an emptied domain means no common fixpoint below the start is non-empty |
| `Stores.SettledByWaking` | src/store.rs:1245-1274 | waking those that hear a change leaves every idle, unqueued propagator at its fixpoint |
| `Stores.SettledIsFixpoint` | src/store.rs:1510-1515 | an empty queue means a common fixpoint |
| `Stores.Solver.Enqueue` | src/store.rs:1195-1201 | flag, band and position of the queued propagator; nothing if queued already |
| `Stores.Solver.EnqueueAll` | src/store.rs:1502-1506 | every propagator is queued, from any valid state |
| `Stores.Solver.Dequeue` | src/store.rs:1205-1213 | the front of the lowest non-empty band, its flag cleared, and unless all bands are collapsed no queued propagator costs less; none exactly when all bands are empty |
| `Stores.Solver.ClearQueue` | src/store.rs:1236-1242 | all bands empty and all flags cleared |
| `Stores.Solver.Notify` | src/store.rs:1245-1274 | exactly the subscribers that hear the change are queued, except the running propagator |
| `Stores.Solver.AfterChange` | src/store.rs:1051-1062 | a wipeout fails and wakes nobody; otherwise the right subscribers are woken |
| `Stores.Solver.Remove` | src/store.rs:568-579 | one value leaves the trailed domain and exactly the subscribers the change wakes are queued; fails exactly when the domain empties |
| `Stores.Solver.FixTo` | src/store.rs:582-596 | the trailed domain becomes the value, or is untouched and fails exactly when the value is absent; exactly the subscribers the change wakes are queued |
| `Stores.Solver.RemoveBelow` | src/store.rs:599-609 | the values below the bound leave the trailed domain and exactly the subscribers the change wakes are queued; fails exactly when none is left |
| `Stores.Solver.RemoveAbove` | src/store.rs:612-622 | the values above the bound leave the trailed domain and exactly the subscribers the change wakes are queued; fails exactly when none is left |
| `Stores.Solver.PushLevel` | src/store.rs:1308-1311 | opening a level of the trail saves the domains of every variable |
| `Stores.Solver.PopLevel` | src/store.rs:1313-1316 | closing it brings them all back, from the undo log and the permuted arrays |
| `Stores.Solver.RunProp` | src/store.rs:1548-1567 | a run ends at the propagator's box with every other propagator queued or settled; failure drains the queue |
| `Stores.Solver.Propagate` | src/store.rs:1510-1515 | the loop terminates in the greatest common fixpoint below the initial domains, or fails because that fixpoint has an empty domain, whatever the bands and the order |
| `SparseSets.PresentIff` | src/domains/int.rs:201-211 | a value is present exactly when its index sits in the prefix |
| `SparseSets.SwapKeepsMembers` | src/domains/int.rs:370-378 | a swap within a prefix changes no longer prefix |
| `SparseSets.SwapRemoves` | src/domains/int.rs:394-396 | swapping to the end and cutting off removes exactly one value |
| `SparseSets.MembersSize` | src/domains/int.rs:169-179 | the size cell is the number of values |
| `SparseSets.Create` | src/domains/int.rs:89-100 | a new domain holds its whole support |
| `SparseSets.CreateGapped` | src/domains/int.rs:102-134 | a compact set with gaps holds exactly its values, the others behind the prefix |
| `SparseSets.LeastRemaining` | src/domains/int.rs:504-519 | the repaired least value, of a range and of a list |
| `SparseSets.GreatestRemaining` | src/domains/int.rs:521-536 | the repaired greatest value |
| `SparseSets.ScanBounds` | src/domains/int.rs:538-542 | the fold over the prefix finds both bounds |
| `SparseSets.Partition` | src/domains/int.rs:482-493 | the in-place partition keeps exactly the values to keep |
| `SparseSets.Remove` | src/domains/int.rs:382-405 | one value leaves, the bound cells stay exact, and the domain of every open level is untouched |
| `SparseSets.Fix` | src/domains/int.rs:409-433 | the domain becomes the value, or nothing changes and it fails exactly when the value is absent; open levels are untouched |
| `SparseSets.RemoveIf` | src/domains/int.rs:482-502 | the values to drop leave at once; open levels are untouched |
| `SparseSets.RemoveBelow` | src/domains/int.rs:437-457 | exactly the values below the bound leave, one by one or at once; open levels are untouched |
| `SparseSets.RemoveAbove` | src/domains/int.rs:460-480 | exactly the values above the bound leave; open levels are untouched |
| `DomainStores.ChangeOne` | src/store.rs:568-622 | a mutation of one domain changes that domain only, now and at every open level |
| `DomainStores.PushAll` | src/store.rs:1309-1311 | opening a level on the trail saves every domain |
| `DomainStores.PopAll` | src/store.rs:1314-1316 | closing it brings every domain back to what it was when the level was opened |
| `DomainStores.DomainStore.NewVar` | src/store.rs:297-316 | a new variable over a range or a sorted list has its whole support and leaves the others alone |
| `DomainStores.DomainStore.NewGappedVar` | src/domains/int.rs:102-134 | a new variable over a set with gaps has exactly its values and leaves the others alone |
| `DomainStores.DomainStore.Remove` | src/domains/int.rs:382-405 | the current domains change at one variable, by one value, and the domains of the open levels do not |
| `DomainStores.DomainStore.Fix` | src/domains/int.rs:409-433 | the current domain becomes the value, or nothing changes; the domains of the open levels do not change |
| `DomainStores.DomainStore.RemoveBelow` | src/domains/int.rs:437-457 | exactly the values below the bound leave the current domain |
| `DomainStores.DomainStore.RemoveAbove` | src/domains/int.rs:460-480 | exactly the values above the bound leave the current domain |
| `DomainStores.DomainStore.PushLevel` | src/store.rs:1309-1311 | the current domains are added to the saved ones, while the trail records a mark |
| `DomainStores.DomainStore.PopLevel` | src/store.rs:1314-1316 | the last saved domains return, from the undo log and the permuted arrays |
| `DomainModels.SplitMidInsideIff` | src/search.rs:967-970 | the split point lies inside the window exactly when the 32-bit width does not wrap or the window is the full range, and it halves the window when the width does not wrap |
| `DomainModels.SplitsInsideIff` | src/search.rs:964-973 | a chosen split is inside its window exactly when the width fits 32 bits or is the full range |
| `DomainModels.OutsideSplitRepeats` | src/search.rs:1008-1014 | a split outside its window has the whole box as one of its branches, so the search meets the same node again |
| `DomainModels.OutsideSplitKeepsAll` | src/search.rs:1008-1014 | a split point outside the window leaves one branch with every value |
| `DomainModels.CanStrictlyOverlapIff` | src/search.rs:928-936 | the overlap test agrees with sharing an instant, except for a window opening at the largest machine value |
| `DomainModels.FirstPair` | src/search.rs:951-962 | none means no undecided pair of present intervals can still overlap |
| `DomainModels.FirstSplit` | src/search.rs:964-973 | none means every start that is not absent is fixed |
| `DomainModels.ChoicePriority` | src/search.rs:939-985 | presences are decided before orders, orders before starts, starts before memberships, the first undecided one of each kind; no decision is left exactly when nothing is undecided |
| `DomainModels.PresenceMeans` | src/search.rs:941-946 | optional, present and absent are read off the values left to the presence variable |
| `DomainModels.MustOrderIff` | src/search.rs:951-962 | a pair is ordered exactly when both orders are left, both intervals are certain and they can share an instant, short of the largest machine value |
| `DomainModels.MustSplitIff` | src/search.rs:964-973 | a start is split exactly when its interval is not absent and two values are left |
| `DomainModels.OpenIff` | src/search.rs:975-982 | a membership is open exactly when both values are left |
| `DomainModels.ChosenLists` | src/search.rs:1021-1024 | the filter over the universe lists exactly the flagged items, each once and in the order of the universe |
| `DomainModels.CollectLists` | src/search.rs:1021-1024 | every collected list holds exactly the items required so far, without repeats and in the order of the universe |
| `DomainModels.ListIsUnique` | src/search.rs:1021-1024 | no other list does |
| `DomainModels.ListTells` | src/search.rs:1021-1024 | which items are members can be read off the list, and it repeats nothing |
| `DomainModels.DescribedOnce` | src/search.rs:1019-1038 | an assignment stands for one solution |
| `DomainSearch.LeafIsOneSolution` | src/search.rs:1019-1038 | with nothing left to decide every assignment of the box stands for the collected solution and no other: its lists hold the members in universe order, its starts are those of the present intervals |
| `DomainSearch.LeafSolutions` | src/search.rs:1019-1038 | at a decided fixpoint the collected solution is the only one |
| `DomainSearch.BranchesCover` | src/search.rs:987-1017 | every assignment of the node lies in the left or the right branch, as long as a start is split inside its window |
| `DomainSearch.BranchesSeparate` | src/search.rs:987-1017 | feasible assignments of different branches stand for different solutions |
| `DomainSearch.BranchSolutions` | src/search.rs:908-921 | the node's solutions are those of its branches, and no solution has both |
| `DomainSearch.BranchSmaller` | src/search.rs:987-1017 | both branches are strictly smaller boxes, so the search terminates |
| `DomainSearch.PropagationKeepsSolutions` | src/search.rs:889-907 | propagation loses no solution and adds none |
| `DomainSearch.RefutedHasNoSolution` | src/search.rs:891-897 | a node whose propagation fails has no solution |
| `DomainSearch.JoinBranches` | src/search.rs:908-921 | the two branches' reports together are sound, unrepeated and complete for the node |
| `DomainSearch.UnconstrainedIsSearchable` | src/search.rs:854-860 | without constraints and disjunctive pairs the search is exact for any layout |
| `DomainSearch.NarrowIsSplittable` | src/search.rs:964-973 | start windows narrower than 2^31 are split inside at every node of the search |
| `ConstraintFilters.EnforcerIsLawful` | src/propagator.rs:84-85 | the domain-consistent filter of any constraint obeys the propagator contract |
| `ConstraintFilters.FeasibleIffSatisfied` | src/search.rs:1019-1038 | its feasible assignments are those of the constraint |
| `ConstraintFilters.EnforcerIsSearchable` | src/search.rs:889-923 | for every layout and every constraint that respects its decided orders there is a lawful propagator the search is exact for |
| `ConstraintFilters.OrderBranchReachable` | src/search.rs:951-962 | such a propagator reaches a node at which both branches of an order have a solution |
| `ConstraintFilters.ZeroDurationIsUnordered` | src/constraints/interval.rs:366-370 | a zero-duration interval may start inside another one under either order, and the search is exact for it |
| `DomainSearch.FixBoolean` | src/store.rs:738-762 | a decided value is kept, its opposite fails |
| `DomainSearch.ApplyDecision` | src/search.rs:987-1017 | applying a decision leaves exactly its branch, or fails exactly because that branch is empty |
| `DomainSearch.Explore` | src/search.rs:908-921 | one branch is searched and undone by the undo log: domains and levels are those of the node |
| `DomainSearch.ExploreBoth` | src/search.rs:908-922 | both branches together report exactly the node's solutions, once each, those of the left branch first, and leave the node as it was |
| `DomainSearch.DomainDfs` | src/search.rs:889-923 | every run reports solutions only, in the order of the branches, and none twice; exhausted runs report all, drain the queue and stay at the node's own fixpoint; the level is the entry level on both exits; asked for is that splits are inside their windows |
| `DomainSearch.SolveDomains` | src/search.rs:863-871 | the whole search from the root, on domains kept on the trail: sound always, complete unless stopped |
| `Literals.LiteralsMean` | src/lcg/lit.rs:365-499 | the bound and equality literals of every variable layout mean what they are named for, folded constants included |
| `Assumptions.AssumptionLitMeans` | src/search.rs:342-368 | the literal of an assumption holds exactly when the assumption does, for all six operators |
| `Assumptions.AssumptionCube` | src/search.rs:370-383 | the cube holds exactly when all assumptions do; there is none exactly when one folds to false or two clash, and then they are jointly unsatisfiable |
| `Assumptions.UnsatisfiableCubeAccepted` | src/search.rs:370-383 | a cube can be returned although nothing satisfies it |
| `BoolClauses.LitValueMeans` | src/lcg/view.rs:33-64 | a literal decided at the root has that value on every assignment of the root box |
| `BoolClauses.LitValueExact` | src/lcg/view.rs:33-64 | a literal is decided at the root exactly when all values left to its variable agree on it |
| `BoolClauses.ToLitMeans` | src/search.rs:777-785 | the literal of a Boolean holds exactly when the Boolean does, for both Boolean layouts, also after 0 has left a 0/1 domain |
| `BoolClauses.NextLiteral` | src/search.rs:717-740 | what each kind of next literal does to the clause's meaning |
| `BoolClauses.NormalizeBoolClause` | src/search.rs:717-740 | a clause is dropped only if it always holds; otherwise the reduced clause is no longer, means the same on the root box and is free of decided, repeated and opposite literals |
| `ClausePosting.ClauseStep` | src/search.rs:690-704 | a reduced clause, stored or asserted, stands for the input clause wherever the store holds |
| `ClausePosting.SatisfiedStep` | src/search.rs:688-689 | a dropped clause adds nothing |
| `ClausePosting.UnitTracked` | src/search.rs:694-700 | asserting the only literal of a reduced clause makes the clause true throughout the root, and earlier clauses stay accounted for |
| `ClausePosting.ClashUntracked` | src/search.rs:690-700 | a root with values left cannot account for two opposite unit clauses |
| `ClausePosting.Engine.PostClause` | src/search.rs:686-704 | one clause is dropped, asserted, stored or found empty, and everything posted so far is dealt with |
| `ClausePosting.Engine.AssertRootLit` | src/lcg/trail.rs:711-716 | a root unit is added and propagated: if inference applies its units, it is true throughout the new root; failure means no assignment of the theory is left |
| `ClausePosting.Engine.PostNativeBoolClauses` | src/search.rs:678-715 | after posting, the units and stored clauses allow exactly what the inputs and the earlier store allow; every stored clause has two literals or more; if inference applies its units, every other input clause is true throughout the root and opposite unit clauses are refuted; `Unsatisfiable` means nothing is allowed |
| `BoolCores.CubeFollows` | src/search.rs:565-580 | the translated literals imply every member of the caller's cube |
| `BoolCores.CoreMapsBack` | src/search.rs:584-588 | a core mapped back is part of the caller's cube and inconsistent with the constraints |
| `BoolCores.SolveUnderAssumptions` | src/search.rs:556-590 | the answer is the engine's for the distinct literals of the cube, a core being mapped back literal by literal, or one member that is impossible alone; `Unsat` names a part of the cube that no model meets; `Sat` is a model that meets the cube |
| `SharedBound.StepKeepsInv` | src/search.rs:43-53 | each single load or store keeps the invariant and never withdraws presence; which value a store leaves is `ValueIsCurrent` |
| `SharedBound.RunKeepsInv` | src/search.rs:33-53 | so does every interleaving, and returned values are never rewritten |
| `SharedBound.LoadsAreLegitimate` | src/search.rs:33-53 | each value a load returns is the initial one or one some worker had begun to publish |
| `SharedBound.AbsentIffNothingPublished` | src/search.rs:43-53 | a load reads absence exactly when there was no initial value and no publish has finished |
| `SharedBound.ValueIsCurrent` | src/search.rs:43-53 | over every interleaving the value cell holds what the latest store carried, or the initial value |
| `SharedBound.LoadsReadLatest` | src/search.rs:43-45 | a load that finds presence returns the value of the latest store, or the initial one |
| `SharedBound.FinishedPublishIsRead` | src/search.rs:43-53 | once a publish has finished and nothing was stored since, every load that starts finds presence and returns exactly its value |
| `LinearRelaxation.ActivityWithin` | src/store.rs:1602-1621 | a weighted sum lies between the accumulated activity bounds |
| `LinearRelaxation.ActivityAttained` | src/store.rs:1602-1621 | over distinct variables both bounds are sums of an assignment in the root bounds |
| `LinearRelaxation.LinearActivityBounds` | src/store.rs:1602-1621 | the loop computes those bounds, and none exactly on a length mismatch or when 128 bits overflow |
| `LinearRelaxation.Recorder.RecordLower` | src/store.rs:1443-1455 | the big-M row holds exactly when the guarded lower side does, on every assignment in the root bounds, and its side is met by all of them while the selector is 0 |
| `LinearRelaxation.Recorder.RecordUpper` | src/store.rs:1456-1467 | the big-M row holds exactly when the guarded upper side does, and its side is met by all of them while the selector is 0 |
| `LinearRelaxation.Recorder.RecordLinearRelaxation` | src/store.rs:1435-1467 | the new rows follow from the guarded constraint, and are equivalent to it when every requested side was recorded |
| `WeightCache.BumpedDegree` | src/store.rs:1297-1304 | one bump adds the number of entries of that propagator |
| `WeightCache.PostedDegree` | src/store.rs:1403-1405 | the weight of a new propagator leaves the degrees of earlier entries alone |
| `WeightCache.StepsRegister` | src/store.rs:1398 | a registration with new variables in between subscribes exactly what its steps name and keeps every other entry |
| `WeightCache.DedupKeepsOrder` | src/store.rs:1172-1178 | the finished scope lists first occurrences in their order |
| `WeightCache.MentionedIff` | src/store.rs:1087-1099 | the scope records exactly the variables subscribed to |
| `WeightCache.Degrees.Subscribe` | src/store.rs:1087-1099 | a repeated entry adds nothing, a new one adds the propagator's weight-to-be; the scope always records the variable |
| `WeightCache.Degrees.Post` | src/store.rs:1388-1407 | a complete post, which may create variables, subscribes the propagator exactly as its registration says and nothing else, keeps the cache equal to the recomputed degree, and leaves the variables subscribed to, once each in order, as its scope |
| `WeightCache.Degrees.Fail` | src/store.rs:1560-1563 | a failure bumps one weight and the cache follows, once per matching entry |
| `WeightCache.Degrees.VarWeightCached` | src/store.rs:1278-1291 | the cached degree is the recomputed degree, in every reachable state |
| `Explanations.StampedReason` | src/store.rs:835-850 | stamping the selectors onto a reason makes it entail its change under the guarded constraint |
| `Explanations.StampedConflict` | src/propagator.rs:161-165 | adding the selector to a staged conflict guards it once more |
| `Explanations.OppositeConflict` | src/store.rs:275-292 | a reason for one value and the opposite current value contradict the constraint |
| `Explanations.WillChangeIsRight` | src/store.rs:568-622 | the guess made before a mutation, which decides whether premises are recorded, is exact |
| `Explanations.ScriptTakesEffect` | src/propagator.rs:85 | a script that succeeds leaves the greatest box on which all its actions have taken effect, whatever their order; one that fails has no such box |
| `Explanations.EventsAccount` | src/store.rs:1038-1042 | the events of a successful script lead from its initial to its final domains, each narrowing the domain it names |
| `Explanations.EventsComeFrom` | src/store.rs:568-622 | every event is an action of the script and carries the reason that action gave, with the guards after it, or the whole scope if it gave none |
| `Explanations.ScriptEntails` | src/store.rs:835-850 | every event of a script is entailed by the guarded constraint, and its conflict refutes the constraint |
| `Explanations.StampedIsOwn` | src/propagator.rs:161-165 | a stamped conflict is the leaf's own followed by the selectors, innermost first |
| `Explanations.RanSelected` | src/propagator.rs:147-167 | a selector that is 1 guards the reasons of the run inside it and is added to its conflict |
| `Explanations.Store.Mutate` | src/store.rs:568-622 | the narrowed domain, and one event with the right cause when it really changed |
| `Explanations.Store.MutateBecause` | src/store.rs:895-916 | the same with the supplied reason |
| `Explanations.Store.DecideBecause` | src/store.rs:803-831 | the opposite of a decided value stages a conflict that cites the current value; forbidding a mandatory interval stages the reason alone |
| `Explanations.Store.RunLeaf` | src/propagator.rs:85 | a leaf ends in the greatest box on which its whole script has taken effect, and fails exactly when there is none; its events are those of the changes it made, each entailed under the injected selectors, its conflict is entailed by the constraint alone, and the selectors are 1 whenever an event is emitted or a conflict staged |
| `Explanations.Store.RunGuarded` | src/propagator.rs:147-167 | under any nesting of selectors: while all of them are 1 the leaf's script runs to its greatest effect, with every reason and the conflict stamped; otherwise nothing changes; events and conflicts are entailed by "all selectors 1 implies the constraint", and the injected stack is balanced on every exit |
| `Explanations.Store.RunProp` | src/store.rs:1548-1567 | a scheduled run starts without stale reasons, and all of the above holds for its own selectors |

## Left out

- Expr: polling of the stop flag inside the affine translation; an interrupted translation gives no form, as an overflow does.
- Marco.EnumerateIndices: a run without a limit is asked to have no MUS with a repeated literal, because the loop does not end otherwise.
- Extraction.EnumerateMus: the same, for a MUS with a selector listed twice.
- ExprSoundness.BoundsSound: asks of an `Imp` node with a certainly true antecedent that the consequent's interval keeps truth values, and says nothing about trees whose interval arithmetic overflows, because the code is unsound there otherwise (see above).
- BoundsRoom.RoomyComputes: the condition is sufficient, not necessary; whether a step overflows exactly depends on the intervals themselves.
- AffineRow.RowExact: says nothing when evaluation overflows 64 bits; the code panics or wraps there.
- DomainSearch.DomainDfs: the `nodes`, `failures` and `solutions` counters are not modelled. It is stated for boxes whose fixpoints are split inside their windows (see above; a node that splits outside is met again), for propagators that enforce a decided order of two intervals of positive duration as a precedence, and for propagators that accept a fully decided fixpoint only if some feasible assignment remains.
- Stores.Solver.Propagate: `propagate_until` and `propagate_step` are not modelled; the first adds only early exits that void the result.
- DomainStores.DomainStore.NewVar: ranges of more than 4096 values, which keep bounds and a prefix of holes, are not modelled; every other storage is.
- Stores.Solver.Remove: reasons are modelled apart, in `Explanations`; the store of that module keeps its domains as values.
- WeightCache.Degrees.Post: interrupted registration is not modelled, since the solver must then be discarded; weights are unbounded where the code has 64 bits.
- Trails.Trail: epochs are unbounded where the code has 64 bits.
- Explanations.Store.RunGuarded: premises that the engine derives from the whole scope, and the later translation of premises to literals, are not modelled. Guarantees cover the events that carry premises and the staged conflicts.
- ClausePosting.Engine: watches, learned clauses and conflict analysis are abstracted to an inference that loses no assignment of the theory and the store; activity and phase hints and proof logging are left out.
- Literals: atom numbering and the lazy creation of atoms are not modelled; an atom is its kind and variable.
- SharedBound: acquire and release ordering is modelled as an interleaving of the individual loads and stores, not at the level of the hardware memory model.
- BoolCores.SolveUnderAssumptions: an interruption while the engine is still being set up is not modelled; it gives the same answer as an interrupted query.
- Sharpness.BoundsSharp: truth operators are asked to have truth intervals as operands, and the interval of an implication with an undecided antecedent is [0, 1] even when the consequent is certain.
- Extraction.ExtractMus: `explain_mus` and the model inside a satisfiable answer are left out.
- Branch and bound, restarts, clause sharing, vivification, probing and the LP backend are not part of this model.
- Large-neighbourhood search, memory budgets, search policies, identifiers and the problem front end are left out; they would add only easy members.
- Individual constraint propagators are covered by the propagator contract only.
- Call counters, search statistics and finesse samples are left out.
