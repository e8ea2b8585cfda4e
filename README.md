# init-before-foo, modelled in Dafny

This project models the `INIT_BEFORE_FOO` lint (`clippy_lints/src/init_before_foo.rs`).
The lint checks a crate with an entry function marked `check_main`. By design, it reports a
call of the function marked `foo` when the function marked `init` has not certainly been
called before it in the same function body, that is, when some path through that body to the
call skips a direct call of `init`. The "seen init" fact is computed separately for each body
and always starts false at the body's entry. Only a direct call of `init` itself gens it. So an
`init` call made by a caller is not seen in the callee, and an `init` call inside a helper is
not seen by the helper's caller: on both kinds of program the lint reports the call of `foo`.
The walker descends through direct calls below the entry function and reports the first
violating call it finds, in the entry function or in a callee, with the chain of call sites
that leads to it. As written, the lint
inherits a union join from the dataflow framework, so it reports such a call only when no path
through the body calls `init` (see "The join" and Findings).

The core has two halves that call each other:

- **The call-graph walker.** `check_init` and `check_init_inner` give every function a
  verdict, `Init`, `NotInit` or `NeedsInit(spans)`. It uses a call stack of the functions
  currently being analysed, to bail out of recursion.
- **The "seen init" dataflow.** This is one boolean per program point, forward and gen-only.
  A call terminator gens the bit when the walker, run on a copy of the stack, finds the callee
  to be `Init`. The walker then scans the blocks of a body in order. It reads the fact just
  before each call terminator.

Modules:

- `Mir` (`mir.dfy`): the slice of MIR the lint reads. Functions are identified by id and may
  have no available MIR. A body is a list of basic blocks. Each block ends in a call (to a
  known function or an indirect one), a branch, a goto or a return.
- `Dataflow` (`dataflow.dfy`): a one-bit gen-only analysis over a control-flow graph.
  - The join is a parameter: `Intersect` (must) or `Union` (may).
  - The fixpoint is an explicit iteration (`Iterate`, `Fixpoint`) that takes the place of
    rustc's `do_dataflow`. Its properties are proved: it is a solution, it is the greatest or
    least solution, and under `Intersect` it equals "every path from the entry passes a
    genning block".
  - `DoDataflow` is the imperative solver over an array, proved equal to `Fixpoint`.
- `InitAnalysis` (`analysis.dfy`): the walker and the transfer functions as mutually recursive
  pure functions. They terminate because every descent adds a function with MIR to the stack.
- `InitProperties` (`properties.dfy`): what a verdict means.
  - A violation is the first violating block in declaration order.
  - A reported chain is a list of call spans of the program. Its outermost span is a call made
    by the function walked. Its innermost span is an indirect call, or a call of `foo` where
    the computed fact was false, in a function reachable from the walked one through direct
    calls. The fact is taken on a call stack without `init`, as every stack the walker builds
    is.
  - A crate in which no function reachable from the entry makes such a call gets no diagnostic.
  - Under `Intersect`, the fact is the meet over all paths. A function that calls `foo` only
    after `init` on every path, with no violating callee, passes.
- `InitBeforeFoo` (`lint.dfy`): the lint's imperative form, with the intended join in its
  driver.
  - A `CallStack` class holds the mutable `FxHashSet<DefId>`.
  - `check_init` pushes and pops, and `check_init_inner` is a block loop with early returns.
    The body of one loop iteration is the method `CheckBlock`.
  - The dataflow runs on a clone of the stack, and the driver is `CheckCrate`.
  - The walker methods (`CheckInit`, `CheckInitInner`, `CheckBlock`) are proved equal to their
    `InitAnalysis` functions, and to leave the caller's stack unchanged. `TerminatorEffect`,
    `SeenInit` and `CheckCrate` are proved equal to their functions. `CallStack.Insert` and
    `CallStack.Remove` state the new set.
- `Examples` (`examples.dfy`): the two UI tests as concrete programs, with their verdicts. A
  third program, `main` calling `init` and then `foo`, is shown to pass. Two more show that the
  fact is per body: `main { init(); bar(); }` with `bar { foo(); }`, and
  `main { setup(); foo(); }` with `setup { init(); }`, are both reported, whatever the join.

**The join.** The join where control-flow paths meet is not written in the lint. It comes
from the rustc dataflow framework, selected by `BottomValue` (`BOTTOM_VALUE = false`). In the
framework of that era, that value selects union. The lint's design and its test
`init_before_foo4.rs` need intersection (see Findings). The model keeps both. The driver
`InitBeforeFoo.CheckCrate` uses `Intersect`.

**Seeding.**

- The entry block starts from `start_block_effect`, i.e. false.
- Under `Intersect`, the other blocks start from true, the identity of AND. The iteration then
  descends to the greatest solution.
- Under `Union`, they start from false, as the framework does, and the iteration ascends to
  the least solution.

## Model

| member | source | states |
|---|---|---|
| InitAnalysis.CheckInit | clippy_lints/src/init_before_foo.rs:51-59 | an id already on the stack is NotInit without analysis; the verdict is Init exactly when the id is `init` and not on the stack; a violation carries at least one span |
| InitAnalysis.CheckInitInner | clippy_lints/src/init_before_foo.rs:61-118 | Init exactly when the function is `init`; a function without MIR is NotInit; a violation carries at least one span |
| InitAnalysis.TerminatorEffect | clippy_lints/src/init_before_foo.rs:153-168 | a terminator gens exactly when it is a direct call of `init` while `init` is not on the stack; indirect calls and other terminators never gen |
| InitAnalysis.Gens | clippy_lints/src/init_before_foo.rs:153-168 | the gen bit of every block is that of its terminator |
| InitAnalysis.SeenInitSolves | clippy_lints/src/init_before_foo.rs:74-88 | the facts of the `SeenInit` analysis, run with the gen bits of the body's terminators for the given stack, solve the dataflow equations over the body's control-flow graph |
| InitAnalysis.SeenInit | clippy_lints/src/init_before_foo.rs:74-88 | one entry fact for every block of the body |
| InitAnalysis.StatementEffect | clippy_lints/src/init_before_foo.rs:151 | a statement neither gens nor kills the fact |
| InitAnalysis.Seek | clippy_lints/src/init_before_foo.rs:103-110 | at any location of a block, the cursor reports the block's entry fact |
| InitAnalysis.StatementsAreIdentity | clippy_lints/src/init_before_foo.rs:151 | moving the fact over any statements leaves it unchanged |
| InitAnalysis.SeekBeforeTerminator | clippy_lints/src/init_before_foo.rs:103-110 | the fact the cursor reports at the terminator's location is the block's entry fact |
| InitAnalysis.BlockCheck | clippy_lints/src/init_before_foo.rs:90-115 | only a call terminator can violate, and the last span of its chain is that call's own span |
| InitAnalysis.Scan | clippy_lints/src/init_before_foo.rs:90-117 | the block loop never yields Init, and a violation has a non-empty chain |
| InitAnalysis.CheckCrate | clippy_lints/src/init_before_foo.rs:28-42 | no entry function means no diagnostic; a diagnostic has at least one span |
| Dataflow.StartBlockEffect | clippy_lints/src/init_before_foo.rs:149 | the entry block starts with init not seen, the bottom of the lattice: the exit of a block entered with it is just its gen bit |
| Dataflow.StepAtEquation | clippy_lints/src/init_before_foo.rs:149-168 | the equation of one block: under Intersect, init is seen on entry to a non-entry block exactly when every predecessor has seen it or calls it; under Union, exactly when some predecessor has or does |
| Dataflow.Step | clippy_lints/src/init_before_foo.rs:75-87 | one round recomputes every block's entry fact by its equation from the previous facts |
| Dataflow.JoinTwo | clippy_lints/src/init_before_foo.rs:181-184 | the join yields its identity exactly when both operands are the identity |
| Dataflow.JoinPredsTop | clippy_lints/src/init_before_foo.rs:181-184 | the join over all predecessors yields the identity exactly when every predecessor's exit fact is the identity, as the two-operand join does |
| Dataflow.BlockTransfer | clippy_lints/src/init_before_foo.rs:149-168 | gen-only transfer: the exit fact holds exactly when the entry fact holds or the block gens |
| Dataflow.StepMonotone | clippy_lints/src/init_before_foo.rs:75-87 | one round of the dataflow equations is monotone in the iteration order, for either join |
| Dataflow.CountShrinks | clippy_lints/src/init_before_foo.rs:75-87 | a round that changes the facts strictly lowers the number of blocks still at the join's identity |
| Dataflow.SeedStarts | clippy_lints/src/init_before_foo.rs:149 | the first round from the seed moves only in the iteration direction |
| Dataflow.Iterate | clippy_lints/src/init_before_foo.rs:75-87 | iterating rounds ends in a solution of the equations below the starting point |
| Dataflow.Fixpoint | clippy_lints/src/init_before_foo.rs:75-87 | the computed entry facts satisfy the dataflow equations |
| Dataflow.IterateAbove | clippy_lints/src/init_before_foo.rs:75-87 | iteration never passes a post-fixpoint that lies below its start |
| Dataflow.FixpointExtremal | clippy_lints/src/init_before_foo.rs:181-184 | the computed facts are the greatest solution under Intersect and the least under Union |
| Dataflow.EntryFactFalse | clippy_lints/src/init_before_foo.rs:149 | the entry block's fact is false under Intersect, and under Union when no edge returns to the entry |
| Dataflow.MustSolutionSound | clippy_lints/src/init_before_foo.rs:107-110 | under Intersect, a fact that holds at a block in any solution implies a genning block on every path to it |
| Dataflow.MustPathsPostFixpoint | clippy_lints/src/init_before_foo.rs:107-110 | "every path passes a genning block" is a post-fixpoint of the Intersect equations |
| Dataflow.MustMeetOverPaths | clippy_lints/src/init_before_foo.rs:107-110 | under Intersect, the fact at a block holds exactly when every path from the entry to it passes a genning block first |
| Dataflow.Round | clippy_lints/src/init_before_foo.rs:75-87 | one in-place round over the array of entry facts computes the next round and reports whether anything changed |
| Dataflow.DoDataflow | clippy_lints/src/init_before_foo.rs:75-87 | the array-based solver returns exactly the fixpoint |
| InitProperties.ScanAllPass | clippy_lints/src/init_before_foo.rs:90-117 | the block loop is NotInit exactly when no block from the start point violates |
| InitProperties.ScanStopsAt | clippy_lints/src/init_before_foo.rs:90-117 | the block loop reports the first violating block in declaration order |
| InitProperties.CheckInitReportsFirst | clippy_lints/src/init_before_foo.rs:90-117 | a function's verdict is the violation of its first violating block |
| InitProperties.CheckInitAllPass | clippy_lints/src/init_before_foo.rs:117 | a function that is not `init`, has MIR and has no violating block is NotInit |
| InitProperties.IndirectCallReported | clippy_lints/src/init_before_foo.rs:92-97 | an indirect call reached before any other violation is reported with its own span alone |
| InitProperties.UninitializedFooReported | clippy_lints/src/init_before_foo.rs:103-111 | a call of `foo` reached with the fact false, before any other violation, is reported with its own span alone |
| InitProperties.KnownCallPasses | clippy_lints/src/init_before_foo.rs:103-115 | a direct call passes when the fact before it is true or its callee is not `foo`, and its callee is no violation |
| InitProperties.CalleeChainExtended | clippy_lints/src/init_before_foo.rs:112-115 | a callee's violation is reported with the call's span appended |
| InitProperties.ReachableSelf | clippy_lints/src/init_before_foo.rs:51-59 | the walker reaches the function it starts from |
| InitProperties.ReachableThroughCall | clippy_lints/src/init_before_foo.rs:112 | what a direct callee reaches, its caller reaches too |
| InitProperties.ChainExtends | clippy_lints/src/init_before_foo.rs:112-115 | a callee's reported chain, extended by the span of the caller's call of it, is a reported chain of the caller |
| InitProperties.CheckInitChainOrigin | clippy_lints/src/init_before_foo.rs:51-118 | every reported chain consists of call spans of the program; its last span is a call made by the walked function; its first span is an indirect call, or a call of `foo` where the fact computed on a stack without `init` was false, in a function reachable from the walked one; for any stack without `init` |
| InitProperties.ScanChainOrigin | clippy_lints/src/init_before_foo.rs:90-117 | the same holds for the block loop |
| InitProperties.BlockChainOrigin | clippy_lints/src/init_before_foo.rs:92-115 | the same holds for one block |
| InitProperties.NoReachableRiskyCallNoDiagnostic | clippy_lints/src/init_before_foo.rs:28-42 | when no function reachable from the entry by direct calls makes a call of `foo` or an indirect call, there is no diagnostic, for either join |
| InitProperties.GensAreInitializerCalls | clippy_lints/src/init_before_foo.rs:153-168 | the gen bits are exactly the blocks that call `init` while it is not on the stack |
| InitProperties.SeenInitMeetOverPaths | clippy_lints/src/init_before_foo.rs:107-110 | under Intersect, the fact before a terminator holds exactly when every path to that block passes a call of `init` |
| InitProperties.CorrectFunctionPasses | clippy_lints/src/init_before_foo.rs:107-117 | under Intersect, a function with no indirect call, whose calls of `foo` are preceded by a call of `init` on every path and whose callees are no violations, is NotInit |
| InitBeforeFoo.CallStack.constructor | clippy_lints/src/init_before_foo.rs:32 | the stack holds the given ids (empty in `check_crate`, a clone in `terminator_effect`) |
| InitBeforeFoo.CallStack.Insert | clippy_lints/src/init_before_foo.rs:53 | `insert` adds the id and reports whether it was absent |
| InitBeforeFoo.CallStack.Remove | clippy_lints/src/init_before_foo.rs:57 | `remove` drops the id |
| InitBeforeFoo.CheckInit | clippy_lints/src/init_before_foo.rs:51-59 | returns the verdict `InitAnalysis.CheckInit` specifies, and the stack is as before the call |
| InitBeforeFoo.CheckInitInner | clippy_lints/src/init_before_foo.rs:61-118 | returns the verdict `InitAnalysis.CheckInitInner` specifies, and the stack is as before the call |
| InitBeforeFoo.CheckBlock | clippy_lints/src/init_before_foo.rs:91-115 | one iteration of the block loop returns the violation `InitAnalysis.BlockCheck` specifies, and the stack is as before |
| InitBeforeFoo.TerminatorEffect | clippy_lints/src/init_before_foo.rs:153-168 | the gen bit computed on a fresh copy of the stack is the specified one |
| InitBeforeFoo.SeenInit | clippy_lints/src/init_before_foo.rs:74-87 | gens are computed block by block and the solver returns the specified entry facts |
| InitBeforeFoo.CheckCrate | clippy_lints/src/init_before_foo.rs:28-42 | the diagnostic is the specified one under the intersecting join |
| Examples.Foo3BarVerdict | tests/ui/init_before_foo3.rs:9-11 | `bar` calls `foo` with nothing before it and is reported at that call |
| Examples.Foo3MainVerdict | tests/ui/init_before_foo3.rs:4-7 | `main` reports the chain of `bar` extended by its call of `bar`, although it calls `init` afterwards |
| Examples.Foo3Verdict | tests/ui/init_before_foo3.rs:3-11 | the diagnostic names the call of `foo` in `bar`, then the call of `bar` in `main`, for either join |
| Examples.Foo4PrefixPasses | tests/ui/init_before_foo4.rs:4-7 | the blocks before the call of `foo` do not violate |
| Examples.Foo4PrefixPassesIn | tests/ui/init_before_foo4.rs:4-7 | the same, stated for a program equal to this test's |
| Examples.Foo4FooUnseen | tests/ui/init_before_foo4.rs:5-8 | under Intersect, the fact at the call of `foo` is false because one branch skips `init` |
| Examples.Foo4UnderIntersect | tests/ui/init_before_foo4.rs:3-9 | under Intersect, the call of `foo` is reported |
| Examples.Foo4FooSeenUnderUnion | tests/ui/init_before_foo4.rs:5-8 | under Union, the fact at the call of `foo` is true because one branch calls `init` |
| Examples.Foo4FooPassesUnderUnion | tests/ui/init_before_foo4.rs:8 | under Union, the call of `foo` does not violate |
| Examples.Foo4PassesUnderUnion | tests/ui/init_before_foo4.rs:4-9 | under Union, no block of `main` violates |
| Examples.Foo4PassesUnderUnionIn | tests/ui/init_before_foo4.rs:4-9 | the same, stated for a program equal to this test's |
| Examples.Foo4UnderUnion | tests/ui/init_before_foo4.rs:4-9 | under Union, `main` is NotInit |
| Examples.Foo4UnderUnionCrate | tests/ui/init_before_foo4.rs:3-9 | under Union, the crate gets no diagnostic |
| Examples.InitThenFooSeen | clippy_lints/src/init_before_foo.rs:107-110 | in `main { init(); foo(); }`, every path to the call of `foo` passes the call of `init` |
| Examples.InitThenFooSeenOn | clippy_lints/src/init_before_foo.rs:107-110 | the same on any call stack without `init` |
| Examples.InitThenFooNotReportable | clippy_lints/src/init_before_foo.rs:107-111 | under Intersect, the call of `foo` after `init` is no site the lint may report |
| Examples.InitThenFooPasses | clippy_lints/src/init_before_foo.rs:107-117 | under Intersect, `main { init(); foo(); }` gets no diagnostic |
| Examples.CallerInitBarVerdict | clippy_lints/src/init_before_foo.rs:149 | in `bar { foo(); }` called from `main { init(); bar(); }`, the fact starts false in `bar`, so its call of `foo` is reported |
| Examples.CallerInitInitPasses | clippy_lints/src/init_before_foo.rs:107-111 | the call of `init` in `main` does not violate |
| Examples.CallerInitReportedIn | clippy_lints/src/init_before_foo.rs:111-114 | `main` reports the chain of `bar` extended by its call of `bar`, though it called `init` first |
| Examples.CallerInitReported | clippy_lints/src/init_before_foo.rs:28-42 | the crate `main { init(); bar(); }`, `bar { foo(); }` is reported at `foo` then `bar`, for either join |
| Examples.HelperInitSetupNotInit | clippy_lints/src/init_before_foo.rs:62-64 | a helper `setup { init(); }` is NotInit: only `init` itself is Init |
| Examples.HelperInitSetupCallNoGen | clippy_lints/src/init_before_foo.rs:165-167 | so the call of `setup` in `main` does not gen |
| Examples.OnlyPredecessorNoGen | clippy_lints/src/init_before_foo.rs:149-168 | in a straight line of blocks, a block whose only predecessor neither has seen nor gens init has not seen it |
| Examples.HelperInitFooUnseen | clippy_lints/src/init_before_foo.rs:149-168 | in `main { setup(); foo(); }` the fact is false at the call of `foo` |
| Examples.HelperInitReportedIn | clippy_lints/src/init_before_foo.rs:107-111 | `main` is reported at its call of `foo` |
| Examples.HelperInitReported | clippy_lints/src/init_before_foo.rs:28-42 | the crate `main { setup(); foo(); }`, `setup { init(); }` is reported at `foo`, for either join |

## Left out

- The lint declaration and registration (lines 17-24) and the text of the emitted message (`span_lint`, lines 34-39) are left out. The model returns the span list that would be reported.
- Diagnostic-item lookups (`get_diagnostic_item`, `is_diagnostic_item`) become the fields `init`, `foo` and the `mainFn` parameter. At most one function carries each item.
- Building MIR, `optimized_mir` and resolving `func.ty(..)` are left out. A callee is already classified as `Known(id)` (an `FnDef`) or `Indirect`. Which functions have available MIR is given by the `fns` map.
- `Span` is an opaque label made of a line and a column. The lint only collects spans.
- `NoIdx` and its `Idx` impl (lines 127-137) are left out, because the one-bit set is a `bool`. `name`, `bits_per_block`, the debug formatter and `dead_unwinds` (lines 74, 86, 141-147) have no effect on the facts and are left out too.
- `propagate_call_return` (lines 170-178) does nothing, and the model does the same: a call's exit fact flows to all its successors.
- The results cursor is modelled as "entry fact, then the statements before the location". Its incremental seeking is not modelled. Only its result is.
- The walker is not memoised, and neither is the source. The model recomputes a callee's verdict each time it is reached, as the source does.
- `do_dataflow`'s worklist order is not modelled. The fixpoint is computed in rounds over all blocks. Under either join, both reach the same extremal solution.
- Dataflow.Fixpoint, InitAnalysis.SeenInit: the join is a parameter rather than fixed by `BOTTOM_VALUE`, because the framework that interprets `BOTTOM_VALUE` is not part of this model (see Findings).

## Findings

| source | as written | input that shows it | evidently intended | confidence | as-written member | corrected member |
|---|---|---|---|---|---|---|
| clippy_lints/src/init_before_foo.rs:181-184 | `BOTTOM_VALUE = false` makes the rustc dataflow framework of that era join predecessors with union, so the fact means "init was called on some path" | tests/ui/init_before_foo4.rs: `init` is called on one branch of an `if`, then `foo` is called after the join point; under union the fact there is true and nothing is reported | a must-analysis joining with intersection, so that the call of `foo` is reported (Dataflow.MustMeetOverPaths states the intended meaning) | medium; the framework's join rule is outside this file; not executed | Examples.Foo4UnderUnionCrate | Examples.Foo4UnderIntersect |
