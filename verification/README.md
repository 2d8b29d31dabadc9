# A verified model of the BML compiler core

BML is a language for ARM Cortex-M firmware. Its compiler promises things that
are hard to see in any one function: that shared statics are never raced on,
that a moved-from value is never used, that lowering to basic blocks keeps the
meaning of a program, that compile-time evaluation is exact, and that flattening
imports keeps every name pointing where it pointed. This project models those
parts and proves the promises, or proves exactly when they hold.

All passes share one abstract syntax (`Ast`) and one execution semantics
(`Semantics`). The semantics is generic in the state and in `act`, which
performs one primitive action: a statement about every `act` is a statement
about every evaluation of the leaves, hence about every choice of branches and
every iteration count. Runs carry fuel for loop rounds; a run cut off reports
`Timeout` with the state reached, so statements over all fuels cover diverging
and unfinished runs.

Where the compiler updates objects in place (the emitter, the scope stack, the
diagnostic walks, the import resolver, the renamer, the interpreter, the bit
views) the model has a class whose methods do the same, each proved against a
specification function; the lemmas are about those functions.

## The results

**Priority ceilings, from annotation to schedule** (`Contexts`, `Ceilings`,
`Borrow`, `Claims`, `Sections`, `Calls`, `Preemption`). Context propagation
returns the least solution of its rules, which is unique, and holds exactly the
contexts some call chain brings; every call of every run is one of its edges, so
on a consistent graph no call, through a pointer or not, enters a function that
cannot run in the caller's context. Derived ceilings are the least accessor level, are never
outranked, and cannot be raised. Every run of an accepted body, cut off
anywhere, keeps a discipline on masks, locks and uses; a step system of cores,
each a stack of preempted contexts under ARMv7-M priorities, PRIMASK and
BASEPRI, keeps an invariant over every schedule, from which follow exclusion on
one core, exclusion between cores, and that no core waits for itself.
`AcceptedProgramsAreDisciplined` joins the two halves: its hypotheses are what
the compiler checks plus those listed under "Hypotheses" below. Which mentions
of a static the access walk reports, and which escape it, is stated exactly.

**Control flow** (`ControlFlow`). The return analysis is sound for every run,
and control never leaves an accepted `claim` window early.

**Moves** (`Moves`, `MoveLaws`, `MoveChecker`, `Tapes`, `Paths`, `Oracles`,
`MoveTracking`, `MoveTrackingSound`, `MoveExactness`, `MoveSoundness`). The
effect of a block on move flags is monotone and distributes over union; the loop
fixpoint is reached after at most two dry passes and is the union over all
iteration counts; comparing counts is comparing states. Which bodies use a
moved-from local on some run is decided exactly, by an analysis that follows
every path; a body with no E304 report and guarded jumps and `while` conditions
is among the safe ones, and two accepted programs show that without the guard it
need not be.

**Lowering** (`Ir`, `Emit`, `EmitShape`, `Emitter`, `LowerSim`, `LowerStmt`,
`Switches`, `Trailing`, `TrailingPaths`, `Lowering`). Emitted functions define
each label once and end each block in one terminator. Where the `_` arm of every
match on an enum comes last, they never crash, and halt exactly when the source
run ends, in the same state, for every meaning of the actions, if and only if no
path that ends evaluates a trailing expression. Short-circuit conditions are
covered in branch position (no phi) and in value position (a phi naming exactly
its two predecessors), matches as chains of tests and as switches; a switch
enters the first arm that matches, for every value, if and only if its `_` arm
comes last.

**Compile-time evaluation** (`ConstEval`, `ConstResolution`, `Comptime`,
`ComptimeLaws`, `Interp`, `FoldConsts`). Casts wrap as at run time. Const
resolution reaches one limit whatever the order, and leaves out exactly the
entangled consts. The budgeted interpreter answers exactly where the unbudgeted
semantics has an answer that fits the two limits. Folding keeps every value
exactly when each folded one survives being written as a literal, which is
decided exactly; the plain evaluator of the later passes agrees with the
interpreter on every const it knows.

**Imports and renaming** (`Imports`, `Renaming`, `Renamer`). Flattening ends on
every file graph, restores its stack, reports nothing exactly when everything
reachable is usable, no chain repeats a file and no body refers to what an
import does not export, and then yields each definition once, renamed, after
everything its file imports. Scope-free renaming preserves lexical binding
exactly when no use of a local is captured and no target diverted.

**Constants and bits** (`HalfFloat`, `BitViews`). Half-precision constants are
correctly rounded; bit views behave as sequences of Booleans.

## Hypotheses of the exclusion theorems

1. The call graph is consistent (`Ceilings.Consistent`): no function can run in
   a context other than the one it is declared for. `AcceptedCallsCanStray` says
   exactly which accepted calls break this, and `CalleeContextMustAgree` that a
   call which does lets a shared static be used twice at once.
2. A call runs the function it names, a call through a pointer one the program
   takes, and a context is entered at functions declared for it; functions
   without a body here touch no masks, locks or shared statics and call nothing
   (`Compiled`).
3. Inside a window every shared static named is covered by the outermost mask
   (`IdentOk`), because inner masks are suppressed. `WindowMustCover` shows that
   this is necessary.
4. Outside a window shared statics are read and written by whole name
   (`IdentOk`, `TargetOk`); projections take no section.
5. No call stands in an assignment target inside a window (`TargetOk`); the
   checker walks only the assigned value.
6. No shared static is, or stands inside, a callee (`CallOk`), as the access
   walk passes over callees.

## Where the code and its documentation, or intuition, part

- `bml-core/src/ir.rs:1812-1833` never emits a block's trailing expression, and
  a call without a semicolon at the end of a void function is one
  (`bml-core/src/parser.rs:1676-1679`): `Lowering.TrailingIsDropped`.
  `Lowering.MeaningKeptExactly` says which bodies are affected.
- `bml-core/src/ast.rs:190-192` says a compound assignment evaluates its target
  once. Outside peripheral fields the code evaluates it twice
  (`bml-core/src/ir.rs:4259-4275`); the model follows the code.
- A `break` or `continue` can leave a loop with a local still moved, unreported
  (`MoveSoundness.BreakCanLeakAMove`). A `while` condition is checked once and
  runs many times (`MoveSoundness.WhileConditionCanUseAMovedLocal`).
  `MoveSoundness.SafeExactly` says which bodies are safe.
- The access walk passes over callees, so a shared function pointer that is
  called directly is mentioned but not checked against its ceiling
  (`Borrow.CalleeIsNotChecked`, and exactly `Borrow.EscapesExactly`).
- E403 lets one handler call another and lets a function of no context call
  anything (`Borrow.AcceptedCallsCanStray`); between handlers of different
  priorities that is a race (`Preemption.CalleeContextMustAgree`).
- `bml-core/src/qualify.rs:19-22` rests the renamer on the no-shadowing rule.
  That rule is checked on the flattened program, after renaming, where an
  imported module's names carry prefixes and qualifiers are gone
  (`bml-core/src/checker.rs:193-212`): it does not see the captures
  (`Renaming.FlatCheckMissesCapture`).
- In a module with an own item named like one of its import qualifiers, `q.f` is
  the import's item in an expression and the own item in a target, where it is
  also exempt from the export check (`Renaming.ClashDisagrees`).
- `doc/language.md:1279` has arms tried in order, the first match winning. A
  `match` on an enum becomes one `switch` (`bml-core/src/ir.rs:1880-1924`), which
  enters an arm that lists the value even if a `_` arm stands before it, and the
  coverage check accepts that order (`bml-core/src/checker.rs:1711-1820`):
  `Switches.DefaultFirst`, and exactly `Switches.SwitchFollowsOrder`.
- The written-back literal of a const goes through a 64-bit magnitude; larger
  values change (`FoldConsts.WrittenBackExactly`).
- Compile-time assertions have no identity and are not deduplicated on a
  diamond (`bml-core/src/imports.rs:297-306`); a file imported under two
  qualifiers keeps the first.

## Model

| member | source | states |
|---|---|---|
| `ControlFlow.AcceptedBodyNeverFallsThrough` | bml-core/src/checker.rs:2319-2385 | a body accepted by the return analysis never ends normally, in any run: it returns or has not finished |
| `ControlFlow.LoopWithoutBreakNeverEnds` | bml-core/src/checker.rs:2357-2385 | a `loop` whose body cannot break is left only by returning |
| `ControlFlow.ClaimBodyStaysInside` | bml-core/src/checker.rs:1830-1915 | an accepted window body never returns; at depth 0 it can only finish normally, so the closing half runs |
| `Moves.StmtShape` | bml-core/src/checker.rs:1230-1700 | checking a statement keeps every scope and adds only its own binding to the innermost one |
| `MoveLaws.BlockMonotone` | bml-core/src/checker.rs:4549-4605 | more moved before a block means at least as much moved after it |
| `MoveLaws.BlockDistributes` | bml-core/src/checker.rs:4558-4605 | a block's effect distributes over the union of move-states |
| `MoveLaws.LoopEntryIsStable` | bml-core/src/checker.rs:4576-4605 | after one dry pass another one adds nothing |
| `MoveLaws.LoopEntryIsUnionOfIterations` | bml-core/src/checker.rs:4576-4605 | the converged state contains the state after every number of iterations and is the union of those after zero and one |
| `MoveChecker.SameCountSameState` | bml-core/src/checker.rs:4549-4556 | for growing states, equal counts of moved locals is equality of the states |
| `MoveChecker.CheckLoopBody` | bml-core/src/checker.rs:4576-4605 | the dry passes end, at the union over iteration counts, and one pass reports from there |
| `MoveChecker.CheckBlock` | bml-core/src/checker.rs:1230-1242 | the scope stack and the number of reports are those of the analysis function, and the block's scope is gone |
| `MoveChecker.CheckStmt` | bml-core/src/checker.rs:1242-1700 | likewise for every statement: branch union, loop fixpoint, revival by whole-name assignment |
| `MoveChecker.CheckArms` | bml-core/src/checker.rs:1660-1680 | every arm is checked from the state before the match; the results are united |
| `MoveChecker.CheckExpr` | bml-core/src/checker.rs:2752-2816 | reading a moved local reports; reading a move-typed one for its value moves it; places only look |
| `MoveChecker.ScopeStack.Lookup` | bml-core/src/checker.rs:75-93 | the innermost scope binding the name, or none |
| `MoveChecker.ScopeStack.MergeMoved` | bml-core/src/checker.rs:111-122 | folds in the other state's moved flags and changes nothing else |
| `MoveTrackingSound.ExprSound` | bml-core/src/checker.rs:2752-2816 | following the paths of an expression covers every evaluation of it, short-circuited ones included |
| `MoveTrackingSound.LoopSound` | bml-core/src/checker.rs:4576-4605 | the state at a loop's head after one round covers every number of rounds, and every way out of the loop |
| `MoveExactness.ReportedExactly` | bml-core/src/checker.rs:4549-4605 | following the paths reports a local exactly when some run, for some values and some number of rounds, uses it after a move |
| `MoveSoundness.SafeExactly` | bml-core/src/checker.rs:1377-1680 | no run, finished or cut off, uses a moved-from local exactly when following the paths reports none |
| `MoveSoundness.CleanMeansUntracked` | bml-core/src/checker.rs:1377-1680 | no E304, and guarded jumps and `while` conditions, mean that following the paths reports nothing |
| `MoveSoundness.NoUseAfterMove` | bml-core/src/checker.rs:1377-1680 | so no run of such a body uses a moved-from local, whatever the actions compute and from states of any kind |
| `MoveSoundness.SafeForEveryMeaning` | bml-core/src/checker.rs:1377-1680 | a body safe on every tape of values is safe for every meaning of the actions |
| `MoveSoundness.BreakCanLeakAMove` | bml-core/src/checker.rs:1607-1608 | a program with a `break` on which no E304 is reported, and a run of it that uses a moved-from local |
| `MoveSoundness.WhileConditionCanUseAMovedLocal` | bml-core/src/checker.rs:1522-1543 | the same with a `while` condition that takes a local |
| `EmitShape.FunctionIsWellFormed` | bml-core/src/ir.rs:1557-1833 | every label of a lowered function is defined once; every block ends in exactly one terminator |
| `EmitShape.ClaimBodyStaysOpen` | bml-core/src/ir.rs:2479-2543 | an accepted window body does not end its block, so the closing half is emitted into an open one |
| `LowerSim.ExprSim` | bml-core/src/ir.rs:2688-2908 | emitted expression code performs the same actions in the same order and leaves the value in its register |
| `LowerSim.LogicalSim` | bml-core/src/ir.rs:2863-2908 | a logical operator in value position: same leaves in the same order, same value, and the phi names exactly the block it came from |
| `LowerSim.CondSim` | bml-core/src/ir.rs:5307-5347 | the branch tree reaches the true label exactly when short-circuit evaluation is true, with the same actions |
| `LowerStmt.AssignSim` | bml-core/src/ir.rs:2131-2150 | value first, then the parts of the target, then the store |
| `LowerStmt.IfSim` | bml-core/src/ir.rs:2245-2349 | code for `if` lands where the chosen branch's outcome says |
| `LowerStmt.LoopSim` | bml-core/src/ir.rs:2444-2477 | code for `loop` and `while` runs the same rounds; `break` and `continue` reach end and head |
| `LowerStmt.ForSim` | bml-core/src/ir.rs:2351-2443 | counted loops: bounds and step evaluated once, `continue` goes to the step |
| `LowerStmt.ChainSim` | bml-core/src/ir.rs:1930-2042 | the chain of integer tests selects the first arm that matches |
| `LowerStmt.SwitchSim` | bml-core/src/ir.rs:1880-1924 | the switch on an enum lands where the first arm that matches does, where the `_` arm comes last |
| `LowerStmt.SwitchTakesChosen` | bml-core/src/ir.rs:1880-1924 | looking up the cases of the switch in turn performs the tests of the arms in order and picks the label of the first that holds |
| `LowerStmt.MatchSim` | bml-core/src/ir.rs:2580-2652 | code for `match`, chain or switch, runs the arm the source selects on the scrutinee's value |
| `Switches.SwitchJumps` | bml-core/src/ir.rs:1880-1924 | where variants are told apart by value, the switch enters the arm that lists the value, wherever it stands, else the `_` arm, else the end |
| `Switches.OrderRuns` | bml-core/src/checker.rs:1660-1680 | and trying the arms in order enters the first that lists the value or is `_` |
| `Switches.SwitchFollowsOrder` | bml-core/src/ir.rs:1880-1924 | the two enter the same arm for every value exactly when no arm listing variants follows a `_` arm |
| `Switches.DefaultFirst` | bml-core/src/checker.rs:1711-1820 | for every variant an accepted match whose first arm is `_`: in order that arm takes the variant, by the switch it does not |
| `LowerStmt.ClaimSim` | bml-core/src/ir.rs:2479-2543 | a window's code is entered, run and left as in the source |
| `LowerStmt.StmtSim` | bml-core/src/ir.rs:2043-2686 | code for any statement lands where the source outcome says, in the same state |
| `LowerStmt.BlockSim` | bml-core/src/ir.rs:1812-1833 | likewise for blocks; code reported as ended belongs to no normal run |
| `Lowering.LoweringPreservesMeaning` | bml-core/src/ir.rs:1557-1833 | the lowered function halts in a state exactly when the source run ends in it, for every meaning of the actions, and never crashes, unless a path that ends evaluates a trailing expression; switches with the `_` arm last |
| `Lowering.MeaningKeptExactly` | bml-core/src/ir.rs:1812-1833 | and if one does, there are values under which the lowered function ends otherwise than the source |
| `Lowering.FunctionRuns` | bml-core/src/ir.rs:1557-1833 | step by step: a finished run is a halt in its state, a run cut off is a machine still running, for the body itself unless it drops a trailing expression, and for the body without them always |
| `Lowering.StoppedIsFinished` | bml-core/src/ir.rs:1557-1833 | a machine that has stopped stopped where such a source run ends |
| `Lowering.LoweredIsStripped` | bml-core/src/ir.rs:1812-1833 | whatever the body, the lowered function halts exactly where the body without trailing expressions ends |
| `Lowering.StripIsInvisible` | bml-core/src/ir.rs:1812-1833 | emission does not depend on trailing expressions, at any depth |
| `Lowering.StripIsIdentity` | bml-core/src/ir.rs:1812-1833 | a body without trailing expressions is untouched by removing them |
| `Lowering.NoTrailingDropsNone` | bml-core/src/ir.rs:1812-1833 | and so loses nothing |
| `Lowering.TrailingIsDropped` | bml-core/src/parser.rs:1676-1679 | a call that ends a void function is performed by the source and by no step of the lowered function |
| `Trailing.BlockAlike` | bml-core/src/ir.rs:1812-1833 | a body and its stripped form end alike under every fuel, unless a path of that outcome evaluates a trailing expression |
| `TrailingPaths.FromTrap` | bml-core/src/ir.rs:1812-1833 | every way out the analysis knows is taken by some path, and a flagged one by a path no run can get around |
| `TrailingPaths.SameEndsExactly` | bml-core/src/ir.rs:1812-1833 | a body and its stripped form finish alike under all values exactly when no path that ends evaluates a trailing expression |
| `Emitter.IrEmitter.EmitExpr` | bml-core/src/ir.rs:2688-2908 | appends the code, returns the operand and advances the counters as `Emit.EmitExpr` says |
| `Emitter.IrEmitter.EmitLogical` | bml-core/src/ir.rs:2863-2908 | likewise; the labels for the phi are those current when the operands end |
| `Emitter.IrEmitter.EmitBranchCond` | bml-core/src/ir.rs:5307-5347 | appends the branch tree of `Emit.EmitCond` |
| `Emitter.IrEmitter.EmitBlock` | bml-core/src/ir.rs:1812-1833 | appends statements up to the first that ends the block |
| `Emitter.IrEmitter.EmitStmt` | bml-core/src/ir.rs:2043-2686 | appends the code of the statement and says whether it ended the block |
| `Emitter.IrEmitter.EmitIf` | bml-core/src/ir.rs:2245-2349 | appends the three labelled blocks of `Emit.EmitIf` |
| `Emitter.IrEmitter.EmitLoop` | bml-core/src/ir.rs:2444-2477 | appends head, body and end of `Emit.EmitLoop` |
| `Emitter.IrEmitter.EmitWhile` | bml-core/src/ir.rs:2545-2578 | appends head with condition, body and end of `Emit.EmitWhile` |
| `Emitter.IrEmitter.EmitFor` | bml-core/src/ir.rs:2351-2443 | appends the bounds, then the rounds of `Emit.EmitFor` |
| `Emitter.IrEmitter.EmitMatch` | bml-core/src/ir.rs:2580-2652 | appends the dispatch, then the arms of `Emit.EmitMatch` |
| `Emitter.IrEmitter.EmitSwitch` | bml-core/src/ir.rs:1880-1924 | one walk over the arms finds the first `_` arm and the cases of all others; nothing else changes |
| `Emitter.IrEmitter.EmitAssign` | bml-core/src/ir.rs:4555-4600 | appends value, target parts and store |
| `Emitter.IrEmitter.EmitFunctionBody` | bml-core/src/ir.rs:1557-1805 | a fresh emitter holds exactly the function's code, closed by a return if it was open |
| `Contexts.UnmaskedOnlyAtTheCeiling` | bml-core/src/context.rs:33-53 | the only context let in without a mask is the interrupt whose priority is the ceiling |
| `Ceilings.Scan.ScanBlock` | bml-core/src/ceiling.rs:481-489 | adds exactly the wanted names mentioned anywhere in the block |
| `Ceilings.Scan.ScanStmt` | bml-core/src/ceiling.rs:490-553 | likewise for every statement form |
| `Ceilings.Scan.ScanExpr` | bml-core/src/ceiling.rs:570-663 | likewise for every expression form |
| `Ceilings.PointerCalls.WalkBlock` | bml-core/src/ceiling.rs:211-288 | adds exactly the functions used as values, and raises the flag exactly if some call is indirect |
| `Ceilings.PointerCalls.WalkExpr` | bml-core/src/ceiling.rs:307-418 | likewise; a direct callee is not taken |
| `Ceilings.GatherFacts` | bml-core/src/ceiling.rs:150-209 | mention edges, functions taken (initializers included) and indirect callers of a program |
| `Ceilings.PropagateContexts` | bml-core/src/ceiling.rs:61-142 | ends, with the least solution of the edge and pointer-pool rules |
| `Ceilings.EdgeRound` | bml-core/src/ceiling.rs:82-100 | a round only adds what every solution needs; one that adds nothing has closed every edge |
| `Ceilings.PoolRound` | bml-core/src/ceiling.rs:107-128 | likewise for functions called through pointers |
| `Ceilings.LeastIsUnique` | bml-core/src/ceiling.rs:61-142 | the answer does not depend on the order of visits |
| `Ceilings.PossibleIsCarried` | bml-core/src/ceiling.rs:61-142 | a context is in a function's set exactly when some call chain from a function of that context reaches it |
| `Ceilings.ChainKeepsContext` | bml-core/src/ceiling.rs:61-142 | on a context-consistent graph every call chain keeps the context of its root |
| `Calls.CallsAreFacts` | bml-core/src/ceiling.rs:150-209 | every direct call in any run of a body is an edge of the gathered facts, and a call through a pointer raises the flag |
| `Calls.CallsStayInContext` | bml-core/src/ceiling.rs:61-142 | on a consistent graph every function called in a run, or taken where the run calls through a pointer, can run in the context of the run |
| `Ceilings.MinLevel` | bml-core/src/ceiling.rs:455-465 | the least level among concrete contexts, absent exactly if there are none |
| `Ceilings.DeriveSharedCeilings` | bml-core/src/ceiling.rs:424-475 | each ceiling is the least level of a context in which a function mentioning the static can run, 255 if none |
| `Borrow.MaterializeCeilings` | bml-core/src/resolver.rs:202-222 | bare annotations get the derived ceiling, pinned ones keep theirs, everything else is unchanged |
| `Borrow.BorrowChecker.StaticAccess` | bml-core/src/borrow.rs:352-441 | one access appends exactly the verdicts of the static's annotations, in order |
| `Borrow.BorrowChecker.CallSite` | bml-core/src/borrow.rs:443-493 | one direct call appends E403 exactly for the two refused combinations |
| `Borrow.BorrowChecker.CheckExpr` | bml-core/src/borrow.rs:173-322 | the verdicts of the sites of an expression, in order |
| `Borrow.BorrowChecker.CheckStmt` | bml-core/src/borrow.rs:46-171 | the verdicts of the sites of a statement, in order |
| `Borrow.BorrowChecker.CheckBlock` | bml-core/src/borrow.rs:30-45 | the verdicts of the sites of a body, in order |
| `Borrow.MentionedExactly` | bml-core/src/ceiling.rs:481-663 | what the scan finds is what the walk visits and what stands in callees |
| `Borrow.OutrankedExactly` | bml-core/src/borrow.rs:391-433 | E402 is reported exactly when a visited access can run in an interrupt that outranks a ceiling |
| `Borrow.DerivedCeilingAccepts` | bml-core/src/resolver.rs:202-222 | a derived ceiling never provokes E402 |
| `Borrow.LargerPinRejects` | bml-core/src/ceiling.rs:424-475 | where the minimum comes from an interrupt, every larger pin rejects its access |
| `Borrow.EscapesExactly` | bml-core/src/borrow.rs:197-207 | a mention of an outranked static goes unreported exactly when it stands in callees and nowhere else |
| `Borrow.CalleeIsNotChecked` | bml-core/src/borrow.rs:197-207 | at any table where a handler outranks a static, calling through it is not reported and reading it is |
| `Borrow.AcceptedCallsCanStray` | bml-core/src/borrow.rs:454-493 | the accepted calls that run a function outside its context: between handlers, or from a function that a call chain brings another context |
| `Claims.AcceptedMeansNoReclaim` | bml-core/src/checker.rs:1496-1517 | claims are accepted exactly when each names a shared static no enclosing claim holds |
| `Sections.TouchKeeps` | bml-core/src/ir.rs:5160-5178 | an access by whole name is guarded and leaves masks and locks as they were |
| `Sections.EvalKeeps` | bml-core/src/ir.rs:2776-2783 | so does every evaluation of an accepted expression |
| `Sections.AssignKeeps` | bml-core/src/ir.rs:4582-4588 | so does every accepted assignment, compound ones included |
| `Sections.OpenFollows` | bml-core/src/ir.rs:2495-2527 | opening a window: mask before lock, no second mask inside another window |
| `Sections.CloseFollows` | bml-core/src/ir.rs:2531-2541 | closing undoes exactly what opening did, lock before mask |
| `Sections.ClaimKeeps` | bml-core/src/ir.rs:2479-2543 | a window is opened, kept and closed on every run that ends |
| `Sections.BodyKeepsDiscipline` | bml-core/src/ir.rs:2479-2543 | every run of a body keeps the discipline at every point; one that ends has left every window, lock and use |
| `Sections.AcceptedHasPassed` | bml-core/src/borrow.rs:352-441 | no E402 means every visited access is allowed in every context the function can run in |
| `Preemption.PreemptKeeps` | bml-core/src/context.rs:33-53 | taking an interrupt keeps the core invariant |
| `Preemption.StepKeeps` | bml-core/src/ir.rs:2490-2541 | every step of every core keeps the system invariant |
| `Preemption.PreemptorsAreExcluded` | bml-core/src/ir.rs:2479-2543 | over every schedule, no context uses, or is about to use, a static that code it preempted is using |
| `Preemption.CoresAreExcluded` | bml-core/src/ir.rs:2503-2536 | a core inside a window over a locked static owns its lock, so no two cores are inside windows over one |
| `Preemption.NoCoreWaitsForItself` | bml-core/src/ir.rs:2503-2536 | a context about to take a lock never waits for code it preempted on its own core |
| `Preemption.WindowMustCover` | bml-core/src/ir.rs:5160-5178 | a window and the top accessor of a static exclude each other under every schedule exactly when the window's mask covers it |
| `Preemption.CalleeContextMustAgree` | bml-core/src/borrow.rs:454-493 | code calling a function declared for the ceiling, whose accesses need no mask, and the handler at the ceiling exclude each other under every schedule exactly when the code runs in that context; the call check refuses threads only |
| `Preemption.AcceptedProgramsAreDisciplined` | bml-core/src/borrow.rs:14-45 | the code of an accepted program on a consistent call graph keeps the discipline the exclusion theorems need: propagation places every call in a context its function was checked in |
| `ConstEval.TruncateWraps` | bml-core/src/consteval.rs:211-219 | a cast gives the one value of the type congruent to the operand |
| `ConstEval.MaskIsResidue` | bml-core/src/consteval.rs:211-219 | masking with ones is the residue, for negative operands too |
| `ConstEval.EvalMonotone` | bml-core/src/consteval.rs:61-107 | knowing more consts never changes a value already found |
| `ConstResolution.Collect` | bml-core/src/checker.rs:1086-1110 | the rounds end after at most one more than the number of consts, at the limit of the reference stages |
| `ConstResolution.CollectConstValues` | bml-core/src/ir.rs:6515-6539 | both passes that use the plain evaluator reach that limit |
| `ConstResolution.CollectedIsLimit` | bml-core/src/checker.rs:1086-1110 | values that settle and all follow are the limit |
| `ConstResolution.OrderIsIrrelevant` | bml-core/src/checker.rs:1086-1110 | any order of the items gives the same map |
| `ConstResolution.LeftOutExactly` | bml-core/src/checker.rs:1086-1110 | a const is left out exactly when it belongs to a set none of whose members evaluates without another |
| `ConstResolution.PlainIsMonotone` | bml-core/src/consteval.rs:61-107 | the plain evaluator meets what resolution asks of an evaluator |
| `ConstResolution.ReplacingKeepsValues` | bml-core/src/comptime.rs:138-192 | replacing initializers by ones that always yield the resolved value changes no value and loses none |
| `Interp.Interpreter.Tick` | bml-core/src/comptime.rs:229-232 | counts a step and says whether the limit allows it |
| `Interp.Interpreter.Eval` | bml-core/src/comptime.rs:448-533 | ends, with an answer exactly when the unbudgeted one fits both limits, and that answer; the depth is restored |
| `Interp.Interpreter.CallFn` | bml-core/src/comptime.rs:238-248 | likewise; the depth is restored whatever happened in the call |
| `Interp.Interpreter.CallBody` | bml-core/src/comptime.rs:250-267 | arity, parameters, return value or trailing expression, as in the semantics |
| `Interp.Interpreter.ExecBlock` | bml-core/src/comptime.rs:269-281 | stops at the first statement that does not end normally |
| `Interp.Interpreter.ExecStmt` | bml-core/src/comptime.rs:283-375 | every statement form against the semantics |
| `Interp.Interpreter.ExecLoop` | bml-core/src/comptime.rs:312-333 | a `while` or `loop` answers exactly when its rounds fit the budget |
| `Interp.Interpreter.ExecRound` | bml-core/src/comptime.rs:313-323 | one round: a step, the test, the body, and how the loop ends with it |
| `Interp.Interpreter.ForRounds` | bml-core/src/comptime.rs:341-362 | counted rounds, ended by an overflowing counter |
| `Interp.Interpreter.Store` | bml-core/src/comptime.rs:379-408 | a store changes one element and nothing beside it, or fails |
| `Interp.Interpreter.IndexPath` | bml-core/src/comptime.rs:410-432 | base name and indices, the last index evaluated first |
| `Interp.Interpreter.ReadLValue` | bml-core/src/comptime.rs:434-446 | reads a local or an element of one, never a const |
| `ComptimeLaws.EvalStable` | bml-core/src/comptime.rs:448-533 | an answer stays with more fuel and more consts |
| `ComptimeLaws.LiteralEvaluates` | bml-core/src/comptime.rs:194-210 | the value and the exact cost of a written-back literal, nested arrays included |
| `ComptimeLaws.LiteralRoundTrip` | bml-core/src/comptime.rs:194-210 | the literal evaluates to its value exactly when every integer in it is below 2^64 in magnitude |
| `FoldConsts.EvalToVal` | bml-core/src/comptime.rs:85-101 | a top-level evaluation answers as the budget allows |
| `FoldConsts.MeaningIsUnique` | bml-core/src/comptime.rs:448-533 | an expression means at most one value |
| `FoldConsts.BudgetOnlyWithholds` | bml-core/src/comptime.rs:23-33 | some budget yields a value exactly when the expression means it |
| `FoldConsts.LargerBudgetsAgree` | bml-core/src/comptime.rs:23-33 | raising either limit never changes an answer |
| `FoldConsts.BudgetedIsMonotone` | bml-core/src/comptime.rs:138-170 | the interpreter meets what resolution asks of an evaluator |
| `FoldConsts.FoldConstCalls` | bml-core/src/comptime.rs:138-192 | resolves to the limit and rewrites exactly the initializers that called functions |
| `FoldConsts.WrittenBackExactly` | bml-core/src/comptime.rs:194-210 | a value survives folding exactly when its literal is exact and affordable |
| `FoldConsts.FoldingKeepsValues` | bml-core/src/comptime.rs:138-210 | folding changes no const's value and leaves none out, exactly when every folded value is writable |
| `FoldConsts.PlainIsInterpreted` | bml-core/src/consteval.rs:61-107 | on the forms it knows the plain evaluator answers exactly when the interpreter does, and the same, one step a node |
| `FoldConsts.PlainPassesAgree` | bml-core/src/ir.rs:6515-6539 | every const the plain passes resolve has the interpreter's value |
| `FoldConsts.FoldedAreKnown` | bml-core/src/comptime.rs:172-192 | of the consts whose initializers called functions they know exactly the scalar ones, by the values their literals denote |
| `Imports.ImportResolver.Resolve` | bml-core/src/imports.rs:61-79 | no diagnostics exactly when everything reachable from the root is sound and the root refers to exported names only, and then every definition once, in dependency order, renamed under its qualifier |
| `Imports.ImportResolver.ResolveImports` | bml-core/src/imports.rs:88-192 | ends on every graph, leaves the stack of visited files as it was, and does the above below any file; a violation recorded anywhere earlier counts, as it fails the next load |
| `Imports.ImportResolver.ResolveEntry` | bml-core/src/imports.rs:101-169 | one import is flattened in, or reported exactly when it is not usable |
| `Imports.ImportResolver.CheckCycle` | bml-core/src/imports.rs:258-282 | enters a file exactly when it is not being visited, reports E500 otherwise |
| `Imports.ImportResolver.LoadAndParse` | bml-core/src/imports.rs:206-256 | a parse, cached or not, exactly for files that are there and parse cleanly |
| `Imports.ImportResolver.MergeChild` | bml-core/src/imports.rs:164-168 | merging keeps distinctness and dependency order and loses nothing |
| `Imports.ImportResolver.RenameOwn` | bml-core/src/imports.rs:172-186 | rewrites the file's own definitions and records each unexported reference as E503, in order |
| `Imports.ImportResolver.PushOwn` | bml-core/src/imports.rs:187-191 | the file's own definitions, renamed, come after all it imports |
| `Imports.PushUnique` | bml-core/src/imports.rs:297-306 | an item is added exactly when its definition is not yet there |
| `Imports.SoundImport` | bml-core/src/imports.rs:258-282 | a sound file's imports are sound one level deeper and not being visited |
| `Imports.SoundFromImports` | bml-core/src/imports.rs:258-282 | and the converse |
| `Imports.SoundRoot` | bml-core/src/imports.rs:61-79 | at the root, sound means that nothing reachable is broken or, imported, refers to what its imports do not export, and that no import chain repeats a file |
| `Renaming.RenamingPreservesBinding` | bml-core/src/qualify.rs:202-428 | every reference resolves, in the flattened program, to the renamed form of its definition exactly when no use of a local is captured and no target diverted; then E503 is reported exactly for unexported references, unless the module's prefix names both an own item and a qualifier that does not export that name |
| `Renaming.NoShadowingSuffices` | bml-core/src/qualify.rs:19-22 | where no two of locals, own items and qualifiers share a name, every body is renamed right |
| `Renaming.ClashDisagrees` | bml-core/src/qualify.rs:406-428 | where an own item and a qualifier do, `q.f` keeps its meaning in expressions and is checked for export; in targets it names the own item and is not |
| `Renaming.FlatCheckMissesCapture` | bml-core/src/checker.rs:193-212 | for every own name or qualifier there is a body the flattened check finds nothing in and renaming breaks |
| `Renaming.ExprFaithful` | bml-core/src/qualify.rs:289-404 | the same for expressions, in any scopes |
| `Renaming.PlaceFaithful` | bml-core/src/qualify.rs:406-428 | the same for assignment targets, whose base is rewritten before it is looked at |
| `Renamer.Renamer.CheckExport` | bml-core/src/qualify.rs:84-93 | records a reference exactly if it is not exported |
| `Renamer.Renamer.RewriteExpr` | bml-core/src/qualify.rs:289-404 | the rewritten expression, and its errors appended in order |
| `Renamer.Renamer.RewriteLValue` | bml-core/src/qualify.rs:406-428 | likewise for targets |
| `Renamer.Renamer.RewriteBlock` | bml-core/src/qualify.rs:202-209 | likewise for blocks |
| `Renamer.Renamer.RewriteStmt` | bml-core/src/qualify.rs:211-277 | likewise for statements; declared names stay |
| `HalfFloat.F32ToF16Bits` | bml-core/src/ir.rs:6561-6607 | sign kept, infinity and NaN kept, every finite input rounded to nearest with ties to even |
| `HalfFloat.ShiftRoundIsNearest` | bml-core/src/ir.rs:6582-6588 | the shift-and-round step gives the nearest multiple, even on ties, for every significand and shift |
| `HalfFloat.SubnormalBits` | bml-core/src/ir.rs:6577-6590 | the subnormal branch is that step on the restored significand |
| `HalfFloat.NormalBits` | bml-core/src/ir.rs:6592-6606 | the normal branch, with the carry into the exponent |
| `HalfFloat.RoundedIsNearest` | bml-core/src/ir.rs:6559-6607 | no other pattern is closer |
| `HalfFloat.RoundingIsMonotone` | bml-core/src/ir.rs:6559-6607 | a larger magnitude never gets a smaller pattern, and each magnitude has one |
| `HalfFloat.OverflowsExactly` | bml-core/src/ir.rs:6559-6607 | infinity exactly from 65520 on |
| `BitViews.BitView.Read` | bml-core/src/ir.rs:3440-3493 | reads the bit of the window, at any bit offset |
| `BitViews.BitView.Write` | bml-core/src/ir.rs:4924-4987 | changes that bit and no other of the whole array |
| `BitViews.BitView.WriteAll` | bml-core/src/ir.rs:4924-4987 | a run of writes leaves the window as written and every bit outside it alone |
| `BitViews.OneBit` | bml-core/src/ir.rs:4924-4987 | one byte's bit replaced is one bit of the array replaced |
| `BitViews.WithBitIs` | bml-core/src/ir.rs:4963-4985 | clearing through the mask and setting changes one bit of the byte |
| `BitViews.LastWriteWins` | bml-core/src/ir.rs:3440-3493 | after any writes, a bit reads as last written, or as before if never |

## Left out

- MoveSoundness.NoUseAfterMove: the guard speaks of the checker's own states and is sufficient; the exact condition is that of `SafeExactly`.
- Sections.BodyKeepsDiscipline: says nothing of projections of shared statics outside windows, nor of the read and the write of `x op= v` being one section; the code promises neither.
- Preemption.CoresAreExcluded: covers the windows over statics that have a spinlock; which statics get one, and accesses from another core outside windows, are region.rs, which is not part of this model.
- Preemption.CalleeContextMustAgree: about functions declared for a handler; one declared for the thread accesses under a mask, and calling it from a handler is `WindowMustCover`.
- Preemption.PreemptorsAreExcluded: mask enter and leave are single steps; the erratum on one core revision and the register encoding of BASEPRI are not modelled.
- Renaming.RenamingPreservesBinding: names in value position only; dotted type names and their export errors are not modelled. The reports for a target diverted to an own item are given by `ClashDisagrees` for the single target, not for whole bodies.
- Imports.ImportResolver.Resolve: its diagnostics are E500, E501, E503 and parse errors.
- Imports.ImportResolver.LoadAndParse: file contents are a fixed map; path search, modification times and cache refresh are not modelled.
- LowerStmt.ClaimSim: opening and closing a window are one action each; the two blocks of the spin loop that takes a lock are not emitted. What the actions do to masks and locks is the subject of the exclusion theorems.
- Lowering.LoweringPreservesMeaning: asks that in every match on an enum the `_` arm comes last; `Switches.SwitchFollowsOrder` says, switch by switch, that the order is kept for every value exactly then. Whether the arms of an unordered switch differ in what they do is not asked.
- Lowering.MeaningKeptExactly: likewise.
- Lowering.FunctionRuns: likewise.
- Lowering.StoppedIsFinished: likewise.
- Lowering.LoweredIsStripped: likewise.
- LowerStmt.StmtSim: likewise.
- LowerStmt.BlockSim: likewise.
- Emitter.IrEmitter.EmitStmt: the claim form without the spin loop, as under `LowerStmt.ClaimSim`.
- BitViews.BitView.Read: an index outside the view is undefined behaviour in the emitted code and is excluded.
- HalfFloat.F32ToF16Bits: starts from the single-precision pattern; the rounding from double precision before it is not modelled.
- Interp.Interpreter.Store: arrays are values that are replaced, not storage written in place; the result is the same, aliasing does not arise.
- Expression forms `if`, `match` and block, inline assembly, assumptions and assertions.
- Peripherals, registers, agents, volatile accesses and everything verify mode adds.
- Struct, repeat, view and ring constructors other than the order in which their parts are visited; strings and floating-point operations.
- `len`, `sizeof` and enum discriminants in compile-time evaluation.
- Counters of counted loops that wrap around at run time.
- The order of contexts inside a function's propagated list.
- Text of the emitted code: types, register names, debug metadata, calling-convention attributes.
- The escape check for views taken inside a window, which is lexical and has no clean soundness statement.
- Parsing, type checking, struct layouts, peripheral elaboration and reports.
