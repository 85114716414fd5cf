# cor_iter: correlating iterators, modelled in Dafny

`cor_iter` is a Rust crate with two iterator combinators. Each one
interleaves a *primary* and a *secondary* source and yields
`Either::Primary(x)` or `Either::Secondary(y)`:

- `LinearCorIter` (`xs.linear_correlate(ys, a, b)`) follows a fixed
  schedule set by two integer coefficients.
  - First comes a one-shot leading run of `|b|` items from the side of
    `sign(b)`.
  - Then it repeats "`|a|` items from the side of `sign(a)`, then one from
    the other side".
  - Three fields drive it: `a`, `b` (set to zero once the leading run is
    spent) and the live counter `c`. `next` calls itself once at the end of
    the leading run.
- `CorIter` (`xs.correlate_with(ys, f)`) is one step eager.
  - The constructor pulls one primary item.
  - Each `next` yields the pending item. It then asks `f` about that item
    to decide which source refills the pending slot: primary when `f` says
    true, secondary when it says false.

The model follows `src/lib.rs`, one module per part:

- `Tagged`: `Either`, `is_primary`, `is_secondary`, `deref`, and helpers
  that read a stream back into its primary and secondary payloads.
- `Sources`: a source iterator over a finite collection. It is a sequence
  plus a cursor counting the items pulled so far.
- `Linear`: `LinearCorIter` as a class.
  - Its fields are `a`, `b`, `c` and two sources.
  - `Next` is recursive, like the Rust self-call.
  - `Next` is proved against the pure step function `LinearStep`.
- `LinearSchedule`: the closed-form schedule of sides and the proof that
  the calls follow it.
- `LinearCounts`: an exact formula for how many items a `for_each` sees from
  each finite source. It is proved against the iterator and instantiated on
  every `linear_correlate` test case.
- `Predicated`: `CorIter` as a class with its two pending slots. `Next` is
  proved against the pure step function `CorStep`.
- `PredicatedProps`: order, termination, and the always-true, always-false
  and `is_secondary` formulas of the test suite.
- `Correlate`: the two builders.

One place where the documentation and the code disagree (the model follows the code):

- `src/lib.rs:61` says `CorIter` ends when either source is exhausted. In
  the code, only the source the formula picks for the refill matters. An
  always-true formula yields every primary item even when the secondary
  source is empty.

Because the constructor pulls the first primary item at once
(`src/lib.rs:101-102`), an empty primary source yields nothing, even when
the secondary one is not empty.

`LinearSchedule.ScheduleTheorem` also pins down the order the documentation
describes at `src/lib.rs:155-161`: the leading run is followed directly by
the first `a`-run. With `a = 1, b = 1` the stream is therefore
P, P, S, P, S, …, and on 11 + 11 items the totals are 11 and 10.

## Model

| member | source | states |
|---|---|---|
| Tagged.IsPrimary | src/lib.rs:29-34 | true exactly for items from the primary source |
| Tagged.IsSecondary | src/lib.rs:37-42 | true exactly when `is_primary` is false: the two are exclusive and exhaustive |
| Tagged.Deref | src/lib.rs:47-55 | when both sides have one type, yields the item's payload whatever its tag |
| Sources.Pull | src/lib.rs:120-122 | a pull yields the next unpulled item and advances the cursor by one; on an exhausted source it yields nothing and changes nothing |
| Sources.PullConserves | src/lib.rs:120-122 | nothing is lost by a pull: the item pulled followed by what remains is what remained before |
| Sources.FromSeq | src/lib.rs:279 | `into_iter` of a collection: a source that will yield exactly the collection's items, in order, and has pulled nothing |
| Tagged.CountsCons | src/tests.rs:22-35 | prepending an item adds one to the count of its own side and nothing to the other |
| Linear.InitCounters | src/lib.rs:217-222 | `c` starts at `b`, or at `a` when `b == 0`; the field invariant holds at once |
| Linear.LinearStart | src/lib.rs:217-230 | the new iterator stores the counters and has pulled nothing from either source |
| Linear.LinearCorIter.constructor | src/lib.rs:217-230 | the object's state is the initial counters and the untouched sources |
| Linear.Tick | src/lib.rs:236-258 | `a` never changes; `b` only ever becomes 0; `c` stays between 0 and `b` while `b != 0` and between 0 and `a` after; a call ends without pulling exactly when `c == 0` and `a == 0` |
| Linear.LinearStep | src/lib.rs:236-258 | one call pulls only from the side `Tick` names; a yielded item is the head of that source and that source loses exactly it; `None` exactly when the schedule ends or the named source is empty, and then no source changes |
| Linear.LinearCorIter.Next | src/lib.rs:236-258 | the new fields and the result are what `LinearStep` gives for the old fields; `a` unchanged, `b` unchanged or 0 |
| Linear.LinearCorIter.NextPrimary | src/lib.rs:239 | the primary source advances by one pull and its item is tagged primary |
| Linear.LinearCorIter.NextSecondary | src/lib.rs:242 | the secondary source advances by one pull and its item is tagged secondary |
| Linear.LinearDrain | src/tests.rs:22-35 | a `for_each` sees no more items than the two sources hold together |
| LinearSchedule.SteadyTick | src/lib.rs:237-252 | after the leading run, one call moves `c` one position through the period of `a` |
| LinearSchedule.TicksClosedForm | src/lib.rs:155-162 | after `n` calls `c` has counted from `b` toward 0 during the leading run, then cycles through the period of `a` with `b == 0` |
| LinearSchedule.ScheduleTheorem | src/lib.rs:155-204 | call `n` pulls from the side of `b` for `n < abs(b)`; after that it pulls `abs(a)` times from the side of `a`, then once from the other side, repeating; with `a == 0` nothing follows the leading run |
| LinearSchedule.SchedulePeriodic | src/lib.rs:159-161 | after the leading run the schedule repeats with period `abs(a) + 1` |
| LinearSchedule.LinearAfter | src/lib.rs:236-258 | any number of calls keeps the field invariant |
| LinearSchedule.LinearAfterState | src/lib.rs:236-258 | after `n` calls the counters are `n` ticks of the counters before, the sources walk the same items, and each has been pulled at most `n` more times |
| LinearSchedule.ScheduledOutput | src/lib.rs:175-204 | with sources longer than `k`, call `k` yields an item tagged with the scheduled side, and `None` exactly where the schedule ends |
| LinearSchedule.NotFused | src/lib.rs:237-243 | not fused: a `None` from an exhausted primary still moves `c`, and the next call yields a secondary item |
| LinearSchedule.ZeroCoefficients | src/tests.rs:64-85 | with `a == 0` and `b == 0` any number of calls leaves the state as it was, and the next call yields `None` |
| LinearSchedule.EndsAfterLeadingRun | src/lib.rs:244-252 | with `a == 0`, once `c` reaches 0 every call yields `None` and no source moves |
| LinearCounts.LinearCounts | src/lib.rs:155-162 | the reference count of items seen from each side never exceeds that source's length |
| LinearCounts.DrainInOrder | src/tests.rs:22-31 | the items seen from each source are a prefix of it, in order, none skipped or repeated |
| LinearCounts.SteadyStepShape | src/lib.rs:237-252 | in the steady phase with `a > 0`, a call yields a primary while the run lasts and otherwise a secondary and restarts the run; `None` exactly when the side whose turn it is has nothing left |
| LinearCounts.SteadyRun | src/lib.rs:159-161 | in the steady phase with `a > 0`, the counts are runs of `a` primaries each followed by one secondary, cut off when a source runs dry |
| LinearCounts.SteadyRunClosedForm | src/lib.rs:159-161 | those runs in closed form: how many primaries and secondaries a period-by-period count reaches for any items left |
| LinearCounts.LeadRunSpent | src/lib.rs:253-256 | at the end of the leading run, the rest of the output is that of a fresh period of `a` |
| LinearCounts.LeadStepShape | src/lib.rs:237-239 | inside a positive leading run, a call yields a primary and counts `c` down, or `None` exactly when the primary source is empty |
| LinearCounts.LeadEnd | src/lib.rs:253-256 | the state a positive leading run ends in: the `c` primaries pulled and a period of `a` about to start |
| LinearCounts.LeadRunDone | src/lib.rs:253-256 | a spent leading run yields what its end state yields |
| LinearCounts.LeadRun | src/lib.rs:155-157 | a positive leading run yields all primaries left when fewer than `c` are, otherwise `c` primaries and then what its end state yields |
| LinearCounts.TickMirror | src/lib.rs:237-252 | negating the counters makes each call pull from the other side |
| LinearCounts.StepMirror | src/lib.rs:236-258 | negating the counters and exchanging the sources gives the same call with its tag exchanged |
| LinearCounts.StepMirrorPrimary | src/lib.rs:239 | the same for a call that pulls from the primary side |
| LinearCounts.StepMirrorSecondary | src/lib.rs:242 | the same for a call that pulls from the secondary side |
| LinearCounts.DrainMirror | src/lib.rs:155-162 | sign symmetry: negating `a`, `b`, `c` and exchanging the sources yields the same stream with every tag exchanged |
| LinearCounts.MirrorTally | src/lib.rs:155-162 | under that symmetry the two counts exchange |
| LinearCounts.SteadyStart | src/lib.rs:159-162 | from a period start, `a > 0`, `a < 0` and `a == 0` give the steady counts, their mirror, and nothing |
| LinearCounts.CountsOfLeadingPrimaries | src/lib.rs:155-162 | with `b > 0`: all of `xs` when it is shorter than `b`, otherwise `b` primaries and then the steady counts of what is left |
| LinearCounts.CountsOfLeadingSecondaries | src/lib.rs:155-162 | with `b < 0`: the mirror image, `-b` secondaries first |
| LinearCounts.CountsOfStart | src/lib.rs:155-204 | a `for_each` over `linear_correlate(xs, ys, a, b)` sees exactly `LinearCounts(a, b, len(xs), len(ys))` items from each side |
| LinearCounts.LinearCountsTheorem | src/tests.rs:16-37 | ... and those items are the first ones of each source, in source order |
| LinearCounts.SymmetricSampleCounts | src/tests.rs:16-181 | on 11 + 11 items the seven pairs of coefficients of magnitude at most one give the asserted counts, e.g. (1, 1) gives 11 and 10, (0, 0) gives nothing |
| LinearCounts.SymmetricSampleCountsRunOfTwo | src/tests.rs:184-337 | the six pairs with `a = 2` or `a = -2` give the asserted counts, e.g. (2, -1) gives 11 and 6 |
| LinearCounts.SymmetricSampleCountsOverlong | src/tests.rs:340-441 | the four pairs with a coefficient of 12 give the asserted counts, e.g. (12, 1) gives 11 and 0, (-12, 1) gives 1 and 11 |
| Predicated.CorStart | src/lib.rs:101-110 | the constructor pulls exactly one primary item into `cur_i`, leaves `cur_j` empty and the secondary source untouched; the slot invariant holds |
| Predicated.Refill | src/lib.rs:119-123 | a true verdict pulls the next primary item into `cur_i` and leaves the secondary source and `cur_j` alone; a false verdict does the same with the sides exchanged (`src/lib.rs:127-131` reads the same) |
| Predicated.CorStep | src/lib.rs:117-137 | yields the pending item unchanged and tagged by its slot; the verdict on it picks the refill source (true: primary, false: secondary); at most one item is pulled and at most one slot is filled; one item fewer is ahead; with both slots empty nothing changes |
| Predicated.CorStepAhead | src/lib.rs:117-137 | no item is lost, duplicated or reordered: the items ahead on the yielded item's side lose exactly their head, the other side's stay as they were |
| Predicated.CorDrain | src/lib.rs:134-136 | a `for_each` ends with both slots empty and sees no more items than were ahead |
| Predicated.CorIter.constructor | src/lib.rs:101-110 | the object's state is `CorStart` of the sources and it keeps the formula |
| Predicated.CorIter.Next | src/lib.rs:117-137 | the new slots, sources and result are what `CorStep` gives for the old ones |
| PredicatedProps.StepAhead | src/lib.rs:118-133 | the yielded item is the head of what was ahead on its side; the other side is untouched |
| PredicatedProps.CorInOrder | src/lib.rs:117-137 | no item is lost or reordered: the payloads seen from each side, followed by what is still ahead there, are what was ahead at the start |
| PredicatedProps.CorAfter | src/lib.rs:117-137 | any number of calls keeps the slot invariant |
| PredicatedProps.CorStaysFinished | src/lib.rs:134-136 | once a call yields `None` both slots are empty, any number of later calls leaves the state as it was, and the next one yields `None` again |
| PredicatedProps.EmptyPrimaryYieldsNothing | src/lib.rs:101-102 | with an empty primary source nothing is yielded, however long the secondary one, and it is never pulled |
| PredicatedProps.FirstIsPrimary | src/lib.rs:85-86 | otherwise the first item is the first primary item, whatever the formula |
| PredicatedProps.AlwaysTrue | src/lib.rs:119-120 | an always-true formula yields every primary item ahead and never pulls the secondary source |
| PredicatedProps.AlwaysTrueFromStart | src/tests.rs:470-492 | `correlate_with(xs, ys, \|_\| true)` yields all of `xs`, tagged primary, and never pulls `ys` |
| PredicatedProps.AlwaysFalse | src/lib.rs:121-122 | an always-false formula, once no primary item is pending, yields every secondary item ahead and never pulls the primary source again |
| PredicatedProps.AlwaysFalseFromStart | src/tests.rs:495-518 | `correlate_with(xs, ys, \|_\| false)` with `xs` non-empty yields exactly `xs[0]`, then all of `ys`; the primary source is pulled only once |
| PredicatedProps.ZippedPayloads | src/tests.rs:466-467 | a strict alternation carries the first `min(len(xs), len(ys) + 1)` primaries and `min(len(xs), len(ys))` secondaries |
| PredicatedProps.ZippedPrimaries | src/tests.rs:466-467 | the primary payloads of a strict alternation are the first `min(len(xs), len(ys) + 1)` items of `xs` |
| PredicatedProps.ZippedSecondaries | src/tests.rs:466-467 | its secondary payloads are the first `min(len(xs), len(ys))` items of `ys` |
| PredicatedProps.ZippedBalanced | src/tests.rs:463 | along a strict alternation the primary count never falls behind the secondary count and leads it by at most one |
| PredicatedProps.YieldPendingPrimary | src/lib.rs:118-125 | under `is_secondary` a pending primary item is yielded and the refill comes from the secondary source |
| PredicatedProps.YieldPendingSecondary | src/lib.rs:126-133 | under `is_secondary` a pending secondary item is yielded and the refill comes from the primary source |
| PredicatedProps.IsSecondaryAlternates | src/lib.rs:117-137 | with `is_secondary` and a primary item pending, the output alternates strictly, until the side whose turn it is runs dry |
| PredicatedProps.IsSecondaryAlternatesFromSecondary | src/lib.rs:117-137 | the same with a secondary item pending: that item, then the alternation |
| PredicatedProps.IsSecondaryFromStart | src/tests.rs:444-467 | `correlate_with(xs, ys, \|v\| v.is_secondary())` is the strict alternation of `xs` and `ys`, so on 11 + 11 items it yields 11 of each |
| Correlate.LinearCorrelate | src/lib.rs:278-280 | builds a fresh `LinearCorIter` over both collections that has pulled nothing |
| Correlate.CorrelateWith | src/lib.rs:288-290 | builds a fresh `CorIter` with the given formula that has pulled only the first item of `xs` |

## Left out

- `size_hint` (src/lib.rs:140-145, 261-268) is not modelled. It sums the
  sources' hints, and the code calls it a guess. It ignores `CorIter`'s
  pending slot and the end of `LinearCorIter`'s schedule, and its `usize`
  addition can overflow.
- The generic `PrimInt` coefficient type is modelled as unbounded `int`.
  No behaviour is lost by this: `next` (src/lib.rs:237-256) computes
  `c - 1` only when `c > 0` and `c + 1` only when `c < 0`, and otherwise
  only copies `a` or `b`, so no signed or unsigned `T` can wrap there. An
  unsigned `T` never takes the `c < 0` branch, which the model covers.
- The formula of `CorIter` is a pure function of the tagged item. State
  carried by an `FnMut` closure is not modelled.
- corr_with_case04 and corr_with_case05 (src/tests.rs:521-593) use
  value-dependent formulas over concrete samples and `enumerate`. They are
  not stated one by one. `CorStep`, `FirstIsPrimary` and `CorInOrder` cover
  what they check item by item.
- The floating-point ratio assertions inside the tests (for example
  src/tests.rs:201, 225) are not modelled.
- Sources are finite collections, and a pull from an exhausted source
  changes nothing, as the slice iterators of the tests do. Infinite or
  non-fused external iterators are not modelled.
- The `Deref` trait mechanics, `#![no_std]`, `#[derive(Debug)]` and the
  blanket `impl Correlate for T` carry no logic. Only `deref`'s payload
  projection is modelled.
- The builders take collections (`into_iter` is `Sources.FromSeq`). They are
  methods because each returns a newly allocated iterator object.
