# Verified model of the whole-bundle analysis

A Dafny model of the analysis pipeline of a Hermes bytecode decompiler: bytes become
instructions, instructions become basic blocks, blocks get exception regions, dominators and a
generator dispatcher, closures and environments form a graph, and a points-to pass names the
function a call reaches. Each stage has a plain meaning (paths through a graph, runs of a
register machine, the virtual machine's first-match handler rule), and the proofs connect the
fast, stateful algorithm of the source with that meaning.

Loops over mutable state are modelled as methods, arrays or classes and proved against a
specification; the lemmas then say what the specification is worth. `dafny verify
dfyconfig.toml` checks everything.

## How the modules fit together

- **Graph building.** `CfgTypes`, `Sorting`, `SetOrder` hold the shared data types and orders.
  `Blocks` and `BlockFlow` cut instructions into blocks; `Regions` and `Exceptions` turn a
  handler table into a forest; `Generators` adds the resume dispatcher; `Postorder`,
  `DomChains`, `DomIndex`, `DomIteration`, `DomTree` and `Dominators` are the dominator
  computation; `Reach` and `Invariants` are the run-time invariant check, `BuildCfg` puts the
  parts together, and `CheckedCfg` says on which inputs the check fails. `Programs` and
  `CfgLimits` hold concrete bodies, each the decoding of bytes, on which a condition of a theorem
  fails.
- **Environments.** `EnvState` and `EnvFlow` are the abstract domain and worklist, `EnvOps` says
  what the tracker sees in a decoded instruction, `EnvTracker` is the class whose fields the
  source's closures mutate, `EnvRounds` and `EnvCollect` the rounds around it. `EnvMachine` is an
  independent machine with a heap; `EnvSound` and `EnvRuns` prove the tables right about its
  runs, `EnvDirect` does so from a condition on the code alone, `EnvPrograms` and `EnvLimits`
  show where they are not, and `EnvCfg` connects them to built graphs. That nothing is lost on the
  way is the other half: `EnvConflicts` says what the sites must have supplied for a function to be
  in conflict, `EnvArrivals` when a register is known at a block's entry, and `EnvTraces` which
  write an access resolves to. `EnvSubtree`, `EnvCopies`
  and `EnvVisible` are the lexical subtree, the closure copies and the visible environments;
  `EnvCopyRuns` proves the copies right about the machine's runs.
- **Points-to.** `PtMachine` is the machine; `PointsTo`, `PointsToSound`, `PointsToRounds` are
  the slot fixed point and its call edges, and `PointsToTraces` says by the instructions which
  calls get one; `ExportsTraces` does the same for a factory's puts; `LastWrite`, `ExportsPass`, `ExportsSound` and
  `ExportsModule` are a factory's exports, with `ExportsLimits` on what they leave open;
  `PointsToEdges` puts the two together, and `ExportsRuns` says what that means for the object a
  module's requirers get.
- **Smaller parts.** `Decode` (with jump tables) and `Assemble` (the bytes of a decoding),
  `Labels`, `TryGuard` (the `__pc` guard), `SigNormalise` with `SigDebug` and `SigForm`
  (what the form tells apart), `Templates` with `TemplateSites` (which calls and chains are
  searched, by the runs), and `Escape` with `EscapeUses` (the verdict by places of the syntax
  tree), `EscapeRuns`, `EscapeSound`, `EscapeLimits`.

## What the proofs turned up

- **The dominator cap never fires.** The pass cap of dom.ts:75-77 is modelled as a failure
  result, and `Dominators.Iterate` proves it is never returned, also on irreducible graphs.
- **Only CFG-05 can fail.** All other invariants of invariants.ts hold of every graph buildCfg
  returns; CFG-05 fails exactly for an opcode-era generator body with a save to resume from and a
  dead instruction, that is one no steps and handlers lead to from offset 0 or a resume target.
  A return after the last one is enough (`CfgLimits.DeadTailFails`).
- **File order needs inner entries first.** `exceptionSuccs` always lists innermost first. That is
  the table's own order, hence the virtual machine's choice, if and only if the table lists
  strictly inner ranges before outer ones over that block (`CfgLimits.OuterFirstDiffers` has a
  body where it does not).
- **Aligning a jump table overflows.** `alignUp4` (switchtable.ts:50-52) works on signed 32-bit
  values: it is the least multiple of 4 at or above n if and only if n + 3 < 2^31.
- **One piece over the limit.** `flatten` accepts up to MAX_PIECES + 1 pieces, because it tests
  the length before it appends.
- **A settled environment table can still be wrong, in two ways.** (1) A handler that only ever
  receives empty states is never pushed, so what it does is missing from the blocks after it
  (`EnvLimits.UncoveredHandlerIsUnsound`). (2) A parent recorded on an early, less informed visit
  is never revised (`EnvLimits.StaleParentIsUnsound`). The soundness theorem asks for exactly
  these two things: the live blocks are closed under their successors (`Covered`), and every site
  agrees with what is recorded (`SitesAgree`). Both can be checked on the finished tables, and both
  follow from conditions on the code alone: a write in every protected block
  (`EnvFlow.WritesCover`), and environment operands that hold one thing throughout their function
  (`EnvDirect.DirectSitesAgree`).
- **An empty region gets no guard.** `planTries` plans no range for a region that covers no
  block. The structurer makes no try for such a region, except in dispatch mode, which wraps every
  region around one switch over the whole function (structure.ts:362-367): there the handler runs
  for every block. A range that ends inside its first instruction is such a region, and its table
  is accepted (`CfgLimits.EmptyRegionCatches`).
- **Four things go unreported.** `scanUses` reports neither a method call on the name (nor an
  element that stands for one), nor a call in a class heritage expression that receives it, nor a
  destructuring assignment to it, nor a redeclaration; and a function that assigns it in a pattern
  does not count as capturing it. `EscapeLimits` has a complete run for each; the theorem about
  the remaining programs is `EscapeSound.FreshObjectStaysIsolated`. Class, element and pattern
  nodes are made by passes that run after the emitter, which calls the analysis (ast.ts:98-150).
- **Debug-only instructions show in two cases.** Dropping them leaves the signature form alone
  exactly when no instruction is reached by two labels and no unlabelled try boundary lands on
  one (`SigDebug.DebugInvisible`, with a function for each case).
- **The signature form tells everything else apart but one thing.** Two functions have one form
  exactly when a renaming of registers makes them look alike (`SigForm.SameFormIffLooksLike`). What
  a reader cannot see besides debug-only instructions, cache slots and dependency indices is the
  register that a switch tests, and its operands: `normaliseSwitch` prints only the table
  (sig-normalise.ts:164-177).
- **A marker in a text counts as a hole.** `findInjection` counts the marker character, so a text
  that holds it can make a quote pair enclose a hole that is not there
  (`Templates.MarkerInTextMisleads`). The marked positions are the holes exactly when no text
  holds it.
- **A replaced exports object keeps its names.** After `module.exports = x` the names put on the
  old object stay bound (points-to.ts:479-513), whatever x holds
  (`ExportsLimits.ReplacedStaysBound`). A reported edge is right when no put of the factory meets
  the test of points-to.ts:480 and 488 (`ExportsRuns.EdgeCallsFunction`); from the first such put
  of another object on, the names are lost in every run (`ExportsRuns.ReplacementLosesNames`).
- **The reserved key is a possible name.** `exports["module.exports"] = f` is recorded under the key
  that stands for the whole exports object, so the module itself is reported to be f
  (`ExportsLimits.ReservedNameCollides`).
- **A property read forgets its destination first.** In `exportsPass` the clearing of the
  destination comes before the test of the base register (points-to.ts:455-468), so
  `r = r.exports` on a register known to be `module` only from straight-line code is not
  recognised. This is a missed fact, not a wrong one, and the model keeps the order.

## Model

| member | source | states |
|---|---|---|
| Postorder.ComputePostorder | src/cfg/dom.ts:15-44 | The explicit-stack search ends in a finished state of the step-by-step search: every discovered block is finished once, its successors are seen, and every retreating edge it reports closes a path of search-tree edges. |
| Postorder.FinishedRunUnique | src/cfg/dom.ts:15-44 | The edges and their order determine the postorder. |
| Postorder.RunInv | src/cfg/dom.ts:15-44 | The search invariant (states, stack, finish numbers, tree parents, classified edges) holds after any number of turns. |
| DomIteration.Intersect | src/cfg/dom.ts:61-69 | The two-pointer walk returns the meeting point of two chains: what lies above the result is exactly what lies above both arguments. |
| DomChains.ChainInTree | src/cfg/dom.ts:61-90 | While every link goes to an ancestor in the search tree, every chain of links stays inside the tree path. |
| DomChains.UpdateKeepsDoms | src/cfg/dom.ts:79-89 | Replacing one link by the meet of the processed predecessors never drops a true dominator of any node, in the middle of a pass. |
| DomChains.FixpointIsExact | src/cfg/dom.ts:71-91 | Links that lose no dominator and are stable under the meet are exact: a chain holds precisely the dominators. |
| DomIteration.Pass | src/cfg/dom.ts:78-90 | One pass over the reverse postorder keeps the iteration invariant; after as many passes as there are blocks nothing changes any more, and a pass without change leaves settled links. |
| DomIteration.LateRoundsExact | src/cfg/dom.ts:71-91 | After the number of reachable blocks passes the links are exact on any graph, reducible or not. |
| Dominators.Iterate | src/cfg/dom.ts:46-91 | The convergence cap (the None result) is never taken, and the returned links are exact. |
| DomTree.NumberTree | src/cfg/dom.ts:105-125 | The clocked walk of the dominator tree gives tin and tout intervals and a preorder for exactly the nodes of the tree. |
| DomTree.WithinIffAncestor | src/cfg/dom.ts:105-130 | Interval containment is ancestry in the tree, both ways. |
| Dominators.QueryIsDominance | src/cfg/dom.ts:105-130 | dominates(a, b) is true exactly when both blocks are reachable and every path from the entry to b passes through a. |
| Dominators.BackEdges | src/cfg/dom.ts:132-138 | The back edges are exactly the edges whose target dominates their source, each as often as it occurs, sorted. |
| Dominators.TreePathForward | src/cfg/dom.ts:15-44 | Tree edges are never dominance back edges, so a tree path is a path of the reachable graph without its back edges. |
| Dominators.ReducibleIff | src/cfg/dom.ts:140-141 | Every retreating edge is a back edge exactly when the reachable graph without its back edges has no cycle. |
| Dominators.ComputeDominators | src/cfg/dom.ts:46-145 | On every input: the query is dominance, idom is the closest strict dominator, children invert it in reverse postorder, the preorder finishes one child before the next, back edges and the reducible flag are right, rpo is the reversed postorder, both orders list the reachable blocks with dominators first, and the cap never fires. |
| Blocks.ComputeLeaders | src/cfg/blocks.ts:18-46 | An offset is a leader exactly when one of rules 1-7 makes it one; the list ascends. |
| Blocks.SliceInstructions | src/cfg/blocks.ts:80-91 | The linear pass puts every instruction into the slice of the last leader at or before it, and never meets an instruction before the first leader. |
| Blocks.BuildBlocks | src/cfg/blocks.ts:74-175 | No validated input reaches the misaligned or empty-block errors; blocks are the slices between consecutive leaders, with the right terminator and handler flags; every edge has the kind, the target and the case value that its last instruction gives it; the zero-byte body being the one empty block. |
| BuildCfg.ResultEdgesMean | src/cfg/blocks.ts:119-150 | In the graph buildCfg returns: a conditional jump is taken to its target and not taken to what follows, which is there exactly inside the body; jumps and fall-throughs have their own kinds; edge k of a switch goes to the target of case k under its value, and the last edge is the default. |
| Blocks.ComputePreds | src/cfg/blocks.ts:178-184 | preds is the reverse of succs, ascending and without duplicates, and nothing else changes. |
| BlockFlow.FlowPreserved | src/cfg/blocks.ts:74-175 | One instruction can step to another exactly when they are adjacent in one block, or the first ends a block with an edge to the block the second starts. |
| BlockFlow.BuiltPartitions | src/cfg/blocks.ts:93-172 | The blocks partition [0, size) in id order. |
| BlockFlow.BlocksAscend | src/cfg/blocks.ts:74-94 | Block ids follow offsets. |
| Regions.CoveringNests | src/cfg/exceptions.ts:40-61 | Of two accepted entries over one block, the earlier in the sorted table encloses the later. |
| Regions.ParentIsSmallest | src/cfg/exceptions.ts:98-109 | The recorded parent encloses its region, and every other enclosing region encloses the parent. |
| Regions.InnermostIsFileOrder | src/cfg/exceptions.ts:40-61 | Innermost-first order is file order exactly when, over that block, strictly inner entries are listed before outer ones. |
| Regions.HeadIsFirstMatch | src/cfg/exceptions.ts:40-48 | With inner entries first, the head of the innermost-first list is the first table entry that matches the pc. |
| Exceptions.FindCrossing | src/cfg/exceptions.ts:51-61 | The pairwise test on the sorted table finds a crossing pair exactly when there is one. |
| Exceptions.CrossingIsOrderFree | src/cfg/exceptions.ts:49-61 | No crossing in sorted order is no crossing in the file. |
| Exceptions.NearestEncloser | src/cfg/exceptions.ts:98-108 | The backwards search finds the nearest preceding region that contains this one, equal ranges included. |
| Exceptions.LinkRegions | src/cfg/exceptions.ts:98-109 | Parents and child lists form the forest the sorted table implies. |
| Exceptions.ShareHandlers | src/cfg/exceptions.ts:111-121 | Grouping by target gives every region the other regions with its handler block, ascending. |
| Exceptions.DepthSortReverses | src/cfg/exceptions.ts:127-139 | Sorting the covering regions by depth reverses their table order, also between equal ranges. |
| Exceptions.ExceptionSuccessors | src/cfg/exceptions.ts:123-144 | exceptionSuccs maps a block to the handler blocks of the entries covering it, innermost first, and holds no block without one. |
| Exceptions.CarveRegions | src/cfg/exceptions.ts:20-147 | Accepts a table exactly when every entry is valid and no two cross; then regions, forest, sharing and successors are all as specified. |
| Exceptions.SuccsInFileOrder | src/cfg/exceptions.ts:136-144 | For an accepted table, exceptionSuccs(b) is in file order if and only if inner entries over b come first. |
| BuildCfg.BuiltHeadIsVmChoice | src/cfg/exceptions.ts:40-48 | In a built graph whose table has no misaligned end, where inner entries over a block come first: for any pc of the block the head of its exceptionSuccs is the handler block of the first matching table entry, and no match means no successors. |
| CfgLimits.OuterFirstDiffers | src/cfg/exceptions.ts:40-48 | The decoding of a file, with the outer entry listed first: the head of exceptionSuccs is the inner handler, the first matching entry the outer one. |
| Generators.FindSuspendPoints | src/cfg/generators.ts:167-194 | One suspend point per save with a target, numbered from 1, or the misaligned error exactly when a target starts no block. |
| Generators.PointsAscend | src/cfg/generators.ts:183-193 | States count up with save offsets, so the final sort and renumbering change nothing. |
| Generators.DispatchExtendsGraph | src/cfg/generators.ts:205-236 | Appending the dispatcher leaves every block and edge as it was and keeps the edges valid; the new block reaches exactly the real entry and the resume blocks, and by generator state it goes where that state left off. |
| Generators.DispatcherEdges | src/cfg/generators.ts:207-224 | The dispatcher leads to the real entry and to every resume block, to nothing else, with one more edge than its table has cases. |
| Reach.ReachableBlocks | src/cfg/invariants.ts:62-70 | The stack walk visits exactly the blocks reachable over normal and exception edges. |
| Invariants.CheckCfgInvariants | src/cfg/invariants.ts:12-146 | Passes exactly when every invariant holds, and names one that does not. |
| BuildCfg.ResultMeetsInvariants | src/cfg/invariants.ts:12-146 | Every invariant except CFG-05 holds of whatever buildCfg returns. |
| BuildCfg.BuildCfg | src/cfg/index.ts:34-92 | Fails only for too many blocks or an unacceptable handler table, never with an internal error; otherwise the parts compose into a graph whose dominance query and reducible flag are right. |
| CheckedCfg.BuildAndCheck | src/cfg/index.ts:34-92 | The invariant check on a built graph can fail with CFG-05 only, and does exactly when the body is an opcode-era generator with a save to resume from and has an instruction that no steps and handlers lead to from offset 0 or a resume target. |
| CheckedCfg.ReachedIffLive | src/cfg/invariants.ts:62-70 | A block of a resumable body is reachable exactly when its instructions are live: what steps, handlers of protected instructions and resume targets lead to. |
| CfgLimits.DeadTailFails | src/cfg/invariants.ts:62-78 | The decoding of a file on which it fails: a generator with one more return after the last. |
| EnvState.MergeState | src/cfg/env-graph.ts:80-93 | The merge loop computes the meet and reports exactly whether it changed something. |
| EnvState.MergeIsUpper | src/cfg/env-graph.ts:80-93 | The merge claims no more than either side. |
| EnvState.MergeIsLeast | src/cfg/env-graph.ts:80-93 | ... and gives up nothing both sides agree on. |
| EnvState.LearnAscends | src/cfg/env-graph.ts:206-222 | No fact ever retreats: parents and closure environments stay, conflicts and no-environment marks grow, a slot goes from absent to a node to conflict. |
| EnvTracker.Tracker.NoteClosure | src/cfg/env-graph.ts:206-216 | noteClosure moves the facts as specified and sets `learned` exactly when they moved. |
| EnvConflicts.ConflictIffDisagree | src/cfg/env-graph.ts:206-216 | Of what the rounds return, closed: a function is in conflict exactly when the sites they looked at supplied two different environments for it, or one and none; the global code exactly when any was supplied. |
| EnvConflicts.SettledRecords | src/cfg/env-graph.ts:206-222 | On settled tables, what a reachable site supplies is what is recorded, or its function or slot is in conflict. |
| EnvConflicts.OutOfConflictAgrees | src/cfg/env-graph.ts:206-216 | So every reachable site that creates a function out of conflict supplies the environment recorded for it, and one that supplies none has none recorded. |
| EnvTracker.Tracker.NoteStore | src/cfg/env-graph.ts:331-346 | The slot table update of a store, with `learned` set exactly when it changed. |
| EnvTracker.Tracker.ApplyTransfer | src/cfg/env-graph.ts:224-354 | One instruction: register state, facts and `learned` move as specified, for every opcode the pass tracks. |
| EnvTracker.Tracker.VisitNext | src/cfg/env-graph.ts:387-420 | One turn of the worklist refines the abstract visit. |
| EnvTracker.Tracker.RunFunction | src/cfg/env-graph.ts:360-421 | The whole worklist run refines the abstract run, budget included; `learned` is set exactly when the facts grew. |
| EnvFlow.VisitKeepsInv | src/cfg/env-graph.ts:387-420 | Every visit keeps: each block not pending is settled towards its successors, its handlers from every instruction boundary, and its resume blocks. |
| EnvFlow.DrainedIsPostFix | src/cfg/env-graph.ts:385-421 | When the worklist drains and nothing was learned, the entry states are a post-fixpoint over normal, exception and save-to-resume edges. |
| EnvFlow.WritesCover | src/cfg/env-graph.ts:372-421 | When every protected block writes a register, every block control can reach is covered by the post-fixpoint. |
| EnvCfg.BuiltOrderClosed | src/cfg/env-graph.ts:384-384 | On a graph from buildCfg, the initial worklist order is closed under edges and resumes. |
| EnvCfg.BuiltOrderReached | src/cfg/env-graph.ts:384-384 | ... and holds only blocks that edges lead to from the entry. |
| EnvCfg.ReachableIsVisited | src/cfg/env-graph.ts:384-421 | On such a graph every block reachable over normal and exception edges is settled. |
| EnvRounds.MeasureGrows | src/cfg/env-graph.ts:206-222 | Knowing more measures more, strictly when something is new. |
| EnvRounds.MeasureBounded | src/cfg/env-graph.ts:441-447 | The measure is bounded by the size of the module. |
| EnvRounds.Rounds | src/cfg/env-graph.ts:441-447 | The facts are exactly those of the rounds in order. Rounds only ascend; stopping early means nothing more to learn, every other round grows the measure, and a cap above the bound is never reached: the loop ends without it. |
| EnvCollect.SolvedIsPostFix | src/cfg/env-graph.ts:441-451 | Settled, drained and covered tables are a post-fixpoint for every function at once. |
| EnvCollect.ReachableIsLive | src/cfg/env-graph.ts:118-127 | Every block the collecting pass looks at was visited by the worklist. |
| EnvCollect.CollectModule | src/cfg/env-graph.ts:423-451 | The final round on any tables: it goes on learning function by function and block by block, and resolves every reachable access, and no other, with what is known when it gets there. |
| EnvCollect.SettledCollects | src/cfg/env-graph.ts:423-451 | On settled tables that learns nothing, and every reachable access is resolved exactly as the tables say. |
| EnvCollect.ClosedSays | src/cfg/env-graph.ts:453-461 | Closing the functions created without an environment changes nobody's own environment, records every one that was known, and adds to the conflicts exactly the functions created both ways. |
| EnvCollect.BuildEnvFacts | src/cfg/env-graph.ts:129-461 | The whole fact-finding part: the facts are those of at most MAX_ROUNDS rounds from the global function alone, settled means stable, the final round then resolves what it finds, and the no-environment closures are closed; settled tables decide resolvedAt. |
| EnvSound.WalkUpTrue | src/cfg/env-graph.ts:177-185 | Walking up recorded parents describes climbing the heap. |
| EnvSound.TransferTrue | src/cfg/env-graph.ts:224-354 | An abstract instruction describes what the machine does to the registers, as long as the facts are true of the heap. |
| EnvTraces.WalkUpIff | src/cfg/env-graph.ts:177-185 | Walking up finds a node if and only if a chain of that many recorded parents leads to it. |
| EnvTraces.EnvLeft | src/cfg/env-graph.ts:224-354 | An instruction leaves an environment made at m in its destination if and only if it creates it, climbs or loads to it by what is recorded, or copies it: nothing recorded is lost. |
| EnvTraces.ClosureLeft | src/cfg/env-graph.ts:224-354 | ... a closure if and only if it creates it or copies it, with the environment known when its operand is; |
| EnvTraces.NoneLeft | src/cfg/env-graph.ts:224-354 | ... and undefined if and only if it loads or copies it. |
| EnvTraces.SelfIff | src/cfg/env-graph.ts:194-194 | What a function captures is known exactly when an environment was recorded for it, or none was supplied. |
| EnvTraces.SuppliedIff | src/cfg/env-graph.ts:229-237 | A creation site supplies a parent exactly when its source is known: nothing, the own environment, or what a register holds. |
| EnvTraces.ResolvedIffLeft | src/cfg/env-graph.ts:423-438 | Of what the pass returns on settled tables: an access of a reachable block resolves to m if and only if the last write of its register in the block leaves m there. |
| EnvTraces.ResolvedIffEntered | src/cfg/env-graph.ts:423-438 | ... or, without such a write, if and only if the register enters the block with m. |
| EnvArrivals.KnownIffAllAgree | src/cfg/env-graph.ts:360-421 | A register is known at a block's entry if and only if something arrived there with it, along an edge, and everything that did says the same. |
| EnvRuns.ClaimsHoldWhileFactsDo | src/cfg/env-graph.ts:192-439 | In every run, as long as the recorded facts are true of it, every register of every frame is as claimed, at every instruction boundary, through handlers, resumes and calls. |
| EnvRuns.FactsHold | src/cfg/env-graph.ts:192-451 | When every site agrees with the recorded facts, every run keeps them true. |
| EnvRuns.TrackedRegisterIsRight | src/cfg/env-graph.ts:192-451 | In every run, a register tracked as node n is unwritten or holds an environment made at n. |
| EnvRuns.BuiltAccessIsRight | src/cfg/env-graph.ts:129-461 | What the pass returns: with the facts its rounds end with, if the tables are settled and the sites agree, every access the final round resolved to node n touches, in every run, an environment made at n. |
| EnvDirect.DirectSitesAgree | src/cfg/env-graph.ts:224-354 | A condition on the code alone: if every environment operand is a register that only one creation site (or only undefined) is ever written to, and what each function captures is one thing, the sites agree with the settled facts. |
| EnvDirect.DirectAccessIsRight | src/cfg/env-graph.ts:129-461 | With such operands and protected blocks that write a register, once the rounds settle and the worklists drain every resolved access is right in every run. |
| EnvLimits.UncoveredHandlerIsUnsound | src/cfg/env-graph.ts:378-421 | The decoding of a file whose handler only ever receives empty states: whatever graph buildCfg makes of it, the rounds settle and the worklist drains, the handler is not covered, and a run touches another environment than the one resolved. |
| EnvLimits.SilentModule | src/cfg/env-graph.ts:129-461 | ... as on this run of buildCfg, the rounds and the final round. |
| EnvLimits.StaleParentIsUnsound | src/cfg/env-graph.ts:238-252 | The decoding of a file with a loop whose environment changes parent: whatever graph buildCfg makes of it, the rounds settle, the worklist drains and all blocks are covered, a site does not agree with the recorded parent, and a run touches another environment than the one resolved. |
| EnvLimits.LoopModule | src/cfg/env-graph.ts:129-461 | ... as on this run of buildCfg, the rounds and the final round. |
| EnvSubtree.ChildrenOf | src/cfg/env-graph.ts:499-517 | The child lists hold exactly the functions whose captured environment the parent owns. |
| EnvSubtree.LexicalSubtree | src/cfg/env-graph.ts:533-559 | The loop terminates with the least set that holds the root and is closed under ownership and the all-creators-inside rule. |
| EnvSubtree.SubtreeIsOrderFree | src/cfg/env-graph.ts:533-559 | ... whatever order the creator map is iterated in. |
| EnvCopies.ChainUnique | src/cfg/env-graph.ts:476-487 | A node has at most one rooted chain. |
| EnvCopies.ChainOf | src/cfg/env-graph.ts:476-487 | chainOf finds it, and refuses exactly when there is none (a cycle or an unknown parent). |
| EnvCopies.BuildRemap | src/cfg/env-graph.ts:600-612 | The remap is positional between the two chains and holds no identity entries. |
| EnvCopies.RemapCommutes | src/cfg/env-graph.ts:579-628 | Renaming commutes with taking the parent all along the captured chain. |
| EnvCopies.CopyPreservesWalks | src/cfg/env-graph.ts:579-628 | Walking up any number of levels from the copy is the renaming of walking up from copy 0. |
| EnvCopies.CopiesOf | src/cfg/env-graph.ts:561-630 | Ambiguous exactly when the sites have no alignable chains; copies exactly when an environment the subtree uses differs between chains; otherwise one text. There is one copy for each environment, the recorded one first and the others ascending. |
| EnvCopies.EveryCopyPreservesWalks | src/cfg/env-graph.ts:561-630 | Every emitted copy resolves walks to the renaming of what copy 0 resolves; copy 0 renames nothing. |
| EnvCopies.OneTextMeansSameNames | src/cfg/env-graph.ts:613-622 | When one text is kept, every remap is the identity on every environment the subtree names. |
| EnvCopyRuns.WalkSimilar | src/cfg/env-graph.ts:177-185 | Walking up the recorded parents from a renamed environment is climbing the heap, renamed. |
| EnvCopyRuns.RunsFit | src/cfg/env-graph.ts:192-451 | With functions created with several environments: in every run every register of every frame is as claimed, under the renaming of one copy the frame belongs to. |
| EnvCopyRuns.EmittedCopiesFit | src/cfg/env-graph.ts:561-630 | The copies the pass emits are what the run theorems ask for. |
| EnvCopyRuns.CopyAccessIsRenamed | src/cfg/env-graph.ts:129-461 | What the pass returns: in every run, in a frame that captured the environment of copy i, an access the final round resolved to node n touches an environment made at what copy i renames n to. |
| EnvVisible.VisibleIn | src/cfg/env-graph.ts:663-676 | Exactly the environments created in the function and those any number of parents above the captured one, also when the parents run into a cycle. |
| EnvVisible.IsLexical | src/cfg/env-graph.ts:697-705 | A slot is lexical exactly when its environment is visible in every function that reads or writes it. |
| PtMachine.UniqueWriters | src/artifact/points-to.ts:143-183 | The registers of paramRegs and uniqueClosureRegs are exactly those with one such source and no other writer. |
| PointsTo.WalkOne | src/artifact/points-to.ts:553-682 | The loop records exactly the store facts and call edges that the straight-line values give, for every instruction, the first edge of a site staying; which those are by the instructions, the next rows say. |
| PointsToTraces.WriterIsLast | src/artifact/points-to.ts:573-583 | The last write of a register since the last label, and none exactly when every write is behind a label. |
| PointsToTraces.EdgeIffCallsThrough | src/artifact/points-to.ts:647-681 | An instruction has an edge to f if and only if it calls, through copies, resolved slots and require of a dependency index, the module value or a property of a module whose exports table binds that name to f. |
| PointsToTraces.RoundsReportAll | src/artifact/points-to.ts:689-762 | So the whole pass reports an edge for every such call in a walked function, and no other. |
| PointsToTraces.SlotIffAllStores | src/artifact/points-to.ts:720-755 | A round resolves a slot to v if and only if it is stored to, no unresolved store shares its number, and every store of it is in a walked function and puts module v there. |
| PointsTo.ResolveSlotValues | src/artifact/points-to.ts:266-288 | A slot resolves to v exactly when every store site in the bundle proved v for it and no unresolved store shares its number. |
| PointsToSound.ClaimTrue | src/artifact/points-to.ts:553-682 | What the walk claims about a destination holds of any value the instruction may leave there. |
| PointsToSound.ClaimsHold | src/artifact/points-to.ts:553-682 | With truthful slots, every claim of the walk holds in every run that reaches the instruction. |
| PointsToSound.StoreProven | src/artifact/points-to.ts:266-288 | A store into a resolved slot has a fact that proves the slot's value. |
| PointsToSound.NextTruthful | src/artifact/points-to.ts:720-755 | One more round turns truthful slots into truthful slots. |
| PointsToRounds.NextRoundUnique | src/artifact/points-to.ts:738-753 | A round has one outcome, whatever order its sets and maps are iterated in. |
| PointsToRounds.RoundsDetermined | src/artifact/points-to.ts:734-755 | Two runs of the loop go through the same states and stop in the same one. |
| PointsToRounds.StopsAtFixpoint | src/artifact/points-to.ts:747-754 | A loop that stops before its cap stops where another round changes nothing. |
| PointsToRounds.ResolveSlots | src/artifact/points-to.ts:734-755 | The loop goes through exactly the specified rounds; after any number of them, the cap included, every resolved slot only ever receives the exports of its module, in every run. |
| PointsToRounds.EdgeIsTrue | src/artifact/points-to.ts:647-681 | A recorded call edge is right about the callee in every run that reaches the call. |
| PointsToRounds.ResolvePointsToCalls | src/artifact/points-to.ts:689-762 | The whole pass: exactly the edges that the state after the rounds gives, all of them true in every run. |
| LastWrite.Escaping | src/artifact/points-to.ts:228-246 | Backward reachability from the exits with the closure block removed: exactly the blocks from which an exit can be reached around it. |
| LastWrite.ProvenLastWrite | src/artifact/points-to.ts:213-252 | True exactly when every void-0 store is ordered before the closure store in its block, or dominates it and cannot escape it, some void-0 store comes before it, and from each of them up to it no region covers anything and the exports object is not used. |
| LastWrite.LowestTells | src/artifact/points-to.ts:213-227 | Testing the span from the lowest void-0 store is testing the span from each of them. |
| LastWrite.ClosureRunsAfter | src/artifact/points-to.ts:213-252 | On every path to an exit, the closure store runs after every void-0 store on that path. |
| LastWrite.MustPass | src/artifact/points-to.ts:228-246 | A path to an exit from a block that cannot escape passes the closure block. |
| ExportsPass.Pass.StepOver | src/artifact/points-to.ts:333-468 | One instruction of the factory walk: the object's maps and sets are what the history of the code so far says. |
| ExportsPass.Pass.Settle | src/artifact/points-to.ts:470-531 | The names that survive are exactly those one function was stored to and, where void 0 was stored too, with a proven last write. |
| ExportsPass.RunPass | src/artifact/points-to.ts:333-532 | A name is bound to f exactly when the recorded history and the last-write proof say so. |
| ExportsTraces.PutIffRecognised | src/artifact/points-to.ts:470-513 | A put is recorded under a key, as one of its kind, if and only if the writes and puts since the last label make its base the exports object and its value a closure, undefined or neither. |
| ExportsTraces.LeakIffUsed | src/artifact/points-to.ts:378-392 | The exports object counts as used exactly at instructions that read it, other than copies. |
| ExportsTraces.BoundIff | src/artifact/points-to.ts:470-531 | A name is bound to f if and only if f is put under it, nothing else but undefined is, and if undefined is, f is put there once and proven to come last. |
| ExportsSound.LastPutStoresFunction | src/artifact/points-to.ts:470-531 | If a name is bound to f, then on every normal path to an exit that performs a recognised put of it, the last such put stores f. |
| ExportsSound.UndefIsOverwritten | src/artifact/points-to.ts:470-531 | A void-0 put of a bound name is never the last one. |
| ExportsSound.KnownHolds | src/artifact/points-to.ts:333-468 | What the pass believes about the factory's registers holds in every run. |
| ExportsModule.RecognisedPutIsRight | src/artifact/points-to.ts:420-468 | A put the pass recognises really is a put on the exports object, of that name and that value, in every run. |
| ExportsModule.NextClosuresHold | src/artifact/points-to.ts:296-329 | A closure slot resolved from the first walk only ever holds closures of that function. |
| ExportsTraces.ClosureSlotIffAllStores | src/artifact/points-to.ts:296-329 | The second walk knows a slot to hold f if and only if it is stored to, no unresolved store shares its number, and every store of it is in this factory and stores f. |
| ExportsModule.ExportsOfModule | src/artifact/points-to.ts:296-329 | Both walks of one factory: the second runs under the closure slots the first resolves, which are true in every run, and binds exactly what it justifies. |
| ExportsModule.SecondWalkUnique | src/artifact/points-to.ts:296-329 | There is one second walk of a factory, so one set of bindings. |
| ExportsModule.ExportsOfAll | src/artifact/points-to.ts:725-733 | The table over all modules; a factory that does not decode exports nothing. |
| PointsToEdges.ResolveCalls | src/artifact/points-to.ts:689-762 | Exports tables and slot rounds together: exactly the edges of the rounds, named by the tables. |
| PointsToRounds.Factories | src/artifact/points-to.ts:684-711 | Exactly the rows with enough parameters give a factory, its four slots counted from the last parameter; a factory has the id and dependencies of the last row for its function, a module the factory of its first. |
| PointsToEdges.ResolveModules | src/artifact/points-to.ts:684-762 | ... from the module list, walking the factories its rows give. |
| PointsToEdges.EdgesDetermined | src/artifact/points-to.ts:734-762 | Two runs of the pass report the same edges. |
| PointsToEdges.EdgeNamesLastPut | src/artifact/points-to.ts:647-681 | What a reported edge means: the callee was, in every run, read under that name off that module's exports, and the last recognised put of the name on any normal path of the factory to an exit stores the reported function. |
| ExportsRuns.PutsGoToGiven | src/artifact/points-to.ts:479-513 | When no instruction of a factory is a replacing put, module.exports is the object it was given in every run, and every recognised put goes there. |
| ExportsRuns.ReportedNameHolds | src/artifact/points-to.ts:479-513 | So after a whole run of it a bound name holds its function there, once anything was put under it: the last put, in the order of the run, is not the undefined before. |
| ExportsRuns.EdgeCallsFunction | src/artifact/points-to.ts:647-681 | Then whatever is called at the site of a reported edge is a closure of the reported function, or the undefined of a name not put yet. |
| ExportsRuns.ModuleIsFunction | src/artifact/points-to.ts:479-513 | After a whole run of a factory whose module.exports is bound, it holds the bound function, if it was replaced at all. |
| ExportsRuns.ReplacementLosesNames | src/artifact/points-to.ts:479-513 | The converse, for every run: from the first replacing put of another object on, no name is on what module.exports holds. |
| ExportsLimits.ReplacedStaysBound | src/artifact/points-to.ts:479-513 | A factory that replaces its exports object: the name stays bound to the function put on the old one, and in a run of it nothing was put under that name on the new one. |
| ExportsLimits.ReservedNameCollides | src/artifact/points-to.ts:479-513 | A property literally named module.exports is bound as if it replaced the exports object, which nothing in the factory does. |
| Decode.AlignUp4IsLeastMultiple | src/disasm/switchtable.ts:50-52 | For a 32-bit address the result is the least multiple of 4 at or above it if and only if n + 3 < 2^31; for the addresses just below it is -2^31. |
| Decode.ResolveTable | src/disasm/switchtable.ts:69-88 | A table is accepted exactly when its size is allowed, it ends before the footer and its default target lies in the function; it starts at the aligned absolute address. |
| Decode.DecodeUintSwitch | src/disasm/switchtable.ts:98-118 | Case values run from min to max without a gap, each target read from its own entry; refused exactly when there is no such table. |
| Decode.DecodeStringSwitch | src/disasm/switchtable.ts:122-142 | Each case pairs a string id below the count with its target, in table order; refused exactly when there is no such table. |
| Decode.DecodeInsn | src/disasm/decode.ts:256-358 | The instruction at ip is what the bytes there say, non-empty and inside the body; refused exactly when no instruction is. |
| Decode.KindTells | src/disasm/decode.ts:87-98 | An instruction has a kind exactly when its opcode says so; a plain opcode is a conditional jump if and only if it has an address operand. |
| Decode.IdTells | src/disasm/decode.ts:146-178 | An id operand is accepted exactly when its table has it. |
| Decode.DecodeBody | src/disasm/decode.ts:251-367 | Decoded instructions tile [0, size) exactly and byOffset inverts their offsets; refused exactly when no tiling by right instructions exists. |
| Decode.StuckAt | src/disasm/decode.ts:256-359 | Where no right instruction starts, no decoding of the body gets past. |
| Decode.ValidateTargets | src/disasm/decode.ts:179-198 | Accepts exactly when every target is an instruction start inside the body. |
| Decode.TargetsFit | src/disasm/decode.ts:300-344 | Jumps, conditional jumps and switches have the targets their kind needs: what block building takes for granted. |
| Decode.DecodeFunction | src/disasm/decode.ts:241-389 | It returns the decoding of the body, with every target an instruction start, and fails exactly when there is none; what it returns is what block building asks for. |
| Assemble.DecodesIffWritten | src/disasm/decode.ts:251-367 | A list of instructions without jump tables that tiles the body is its decoding if and only if the body holds their bytes. |
| Decode.DecodingUnique | src/disasm/decode.ts:251-367 | A body has at most one tiling by right instructions, so the decoding is determined by the bytes. |
| Labels.AssignLabels | src/disasm/labels.ts:12-30 | An offset is labelled exactly when it is a target; labels are numbered 1 to n in offset order. |
| Labels.UnlabelledIsFallenInto | src/disasm/labels.ts:12-30 | Control enters an unlabelled instruction only by falling through from the one before: why straight-line facts may survive between labels. |
| TryGuard.PlanTries | src/emit/function.ts:95-141 | The stack walk plans a range for exactly the regions that some guardable try over-reaches, and it is [min, max] of the region's blocks. |
| TryGuard.BodyIsInterval | src/cfg/exceptions.ts:65-72 | A region's blocks are consecutive ids. |
| TryGuard.RangeIsMembership | src/emit/function.ts:120-136 | For every real block id the range test is membership in the region. |
| TryGuard.UnplannedMeansCovered | src/emit/function.ts:120-136 | Where no range is planned, no real block of the try body lies outside a non-empty region. |
| TryGuard.HandlerRunsIffCovered | src/emit/function.ts:825-836 | At a guardable try the printed test rethrows exactly for the blocks outside the region; an empty region is the exception and never rethrows. |
| CfgLimits.EmptyRegionCatches | src/emit/function.ts:120-136 | The decoding of a file with an accepted table and a region that covers no block, structured in dispatch mode: the handler runs for an exception that no table entry is for. |
| SigNormalise.SignatureInstructions | src/deps/sig-normalise.ts:58-70 | Exactly the instructions that are not debug-only, in order, each with the labels carried to it. |
| SigNormalise.FindDependencyIndexOperands | src/deps/sig-normalise.ts:85-123 | Masked are exactly the indexed accesses whose base was last written by the load of the last parameter, and the constant loads that were the last write of the index of a keyed access on such a base. |
| SigNormalise.ScanSkipsDebug | src/deps/sig-normalise.ts:85-123 | The mask does not depend on debug-only instructions. |
| SigNormalise.MasksAgree | src/deps/sig-normalise.ts:85-123 | Functions alike up to registers, offsets and debug-only instructions have the same masks, instruction by instruction. |
| SigNormalise.NormaliseFunctionForSignature | src/deps/sig-normalise.ts:124-222 | The emitted lines are the specified form, registers numbered by first use; what that form tells apart, the next rows say. |
| SigForm.SameFormIffLooksLike | src/deps/sig-normalise.ts:124-222 | Two functions have one form if and only if some injective renaming of registers makes them look alike: the same parameters, opcodes, labels, cases, try ranges and operands (strings, functions by being the global one, big integers, builtins, shapes, numbers), but for cache slots, dependency indices and what a switch tests. |
| SigForm.DependencyIff | src/deps/sig-normalise.ts:85-123 | An operand is shown as a dependency index if and only if it is the immediate of an access to the dependency map, or was loaded as the index of one. |
| SigNormalise.WithoutCacheAt | src/deps/sig-normalise.ts:200-207 | The operands shown are those that are no cache slots, each at its place among the others. |
| SigNormalise.AlikeSameForm | src/deps/sig-normalise.ts:184-222 | Alike functions have the same form: it is blind to register names, offsets, debug-only instructions whose labels carry over, and dependency indices. |
| SigNormalise.RenamingInvisible | src/deps/sig-normalise.ts:184-222 | Any injective renaming of registers leaves the form unchanged. |
| SigDebug.DebugInvisible | src/deps/sig-normalise.ts:38-70 | Taking out the debug-only instructions, labels moved to the next kept one and every target, table entry and handler offset re-pointed, leaves the form unchanged exactly when no instruction ends up with two labels and no unlabelled try boundary with one. |
| SigDebug.TwiceLabelledShows | src/deps/sig-normalise.ts:53-70 | A function whose loop head and the debug-only instruction before it are both jumped to: the form shows two labels. |
| SigDebug.BareBoundaryShows | src/deps/sig-normalise.ts:214-219 | A function with a try range that starts behind a labelled debug-only instruction: the form changes. |
| Templates.Flatten | src/artifact/template-injections.ts:142-158 | Appends the leaves of the definition in order, or gives up exactly when they would exceed MAX_PIECES + 1. |
| Templates.DefsHold | src/artifact/template-injections.ts:222-331 | In every run, every definition that reaches an instruction describes its register: with its opaque leaves standing for the values they had at the steps that wrote them, the register holds what the definition builds. |
| Templates.ChainIsConcatenation | src/artifact/template-injections.ts:142-158 | When all leaves are strings, the value of a definition is its flattened pieces with each hole replaced by its value. |
| Templates.AddIsConcatenation | src/artifact/template-injections.ts:280-331 | ... so in every run that executes an Add of strings, the value is the flattened pieces with each hole replaced by the value its leaf had when it was written, left operand first. |
| Templates.ChunkIsText | src/artifact/template-injections.ts:240-279 | In every run, the chunks of a template call are its actual arguments. |
| TemplateSites.CallIsTemplateIff | src/artifact/template-injections.ts:236-255 | A call is searched as a template if and only if, in any run that reaches it, its callee was read as concat off what was read as HermesInternal, and it has an odd number of arguments, at least three, whose even ones were loaded as constants. |
| TemplateSites.PiecesOfCall | src/artifact/template-injections.ts:240-254 | Its pieces are as many as its arguments: piece k is the constant in argument k for even k, and a hole for odd k. |
| TemplateSites.TemplateIsConcatenation | src/artifact/template-injections.ts:240-254 | In every run that reaches it the constants are the values of the even arguments, and when the odd ones are strings too, what the call concatenates is the pieces with those in the holes. |
| TemplateSites.AddIsChainIff | src/artifact/template-injections.ts:270-282 | An Add is searched as a chain, with given pieces, if and only if, in any run that reaches it, its operands were put together from those, at most MAX_PIECES + 1, with a constant and something else among them. |
| TemplateSites.RunTo | src/artifact/template-injections.ts:222-331 | Every site is reached by some run. |
| TemplateSites.RowShowsContext | src/artifact/template-injections.ts:163-198 | What a row shows: the quote stands twice in the text of the pieces, its prefix is the end of what is before and its suffix the start of what is after. |
| Templates.FindInjection | src/artifact/template-injections.ts:163-198 | Among adjacent same-quote pairs it picks the first that encloses the most holes; None exactly when there is no hole or no pair encloses one. |
| Templates.MarkersAreHoles | src/artifact/template-injections.ts:163-198 | The marked positions are exactly the holes if and only if no text holds the marker character. |
| Templates.EnclosedHoles | src/artifact/template-injections.ts:163-198 | ... and then what is counted between two quotes is the number of holes that stand there. |
| Templates.InjectionHasMostHoles | src/artifact/template-injections.ts:163-198 | So without such a text a reported pair has as many holes between its quotes as it says, and no neighbouring same-quote pair has more. |
| Templates.MarkerInTextMisleads | src/artifact/template-injections.ts:163-198 | With one, a quote pair that encloses no hole can count as one that does. |
| Templates.ScanFunction | src/artifact/template-injections.ts:222-331 | One row for every qualifying site, in order, with the right pieces, hole count and quote pair. |
| Escape.FindAllocs | src/emit/iife-escape.ts:142-160 | The allocation of a candidate is the last fresh one assigned to it in the region. |
| Escape.FirstRefusal | src/emit/iife-escape.ts:62-99 | The walk reports the first refused use, and none exactly when there is none. |
| Escape.AnalyseEscapes | src/emit/iife-escape.ts:142-181 | A name used as a member base is proved fresh exactly when it is allocated, unmentioned around the allocation and in functions, and never refused after it; every other candidate gets the code of the first thing that is wrong. |
| EscapeUses.HitIsFirstUse | src/emit/iife-escape.ts:62-99 | The walk reports what the first place of the tree earns that earns a refusal: a function or class that mentions the name, or the name itself other than as a member base, by whether it is assigned to and stands within a call; none if and only if no place does. |
| EscapeUses.CapturedIff | src/emit/iife-escape.ts:183-189 | A name counts as captured if and only if some function or class in the tree mentions it. |
| EscapeUses.BasesIff | src/emit/iife-escape.ts:114-128 | A name is a candidate if and only if some node, heritages and bodies included, accesses a property of it. |
| EscapeUses.AllocatesIff | src/emit/iife-escape.ts:33-56 | A statement allocates a name if and only if it initialises it with, or assigns it, an array or object of plain data without spread or computed key, or the marked constructor over literals. |
| EscapeUses.VerdictIsByUses | src/emit/iife-escape.ts:142-181 | What the analysis returns for a name, by places: nothing unless the region accesses it, not-fresh without an allocation, closure when captured anywhere, else fresh if no later place is refused, else what the first such place earns. |
| EscapeSound.NoHitIsTame | src/emit/iife-escape.ts:62-99 | In an ordinary expression, an unreported name is only used as the base of a plain member access. |
| EscapeSound.EvalSafe | src/emit/iife-escape.ts:62-99 | Evaluating such an expression keeps the object isolated and never yields it, whatever calls do to what they can reach. |
| EscapeSound.RunSafe | src/emit/iife-escape.ts:62-99 | ... and so does running such a statement. |
| EscapeSound.AllocationIsolates | src/emit/iife-escape.ts:33-56 | Whatever statement counts as a fresh allocation of a name, every run of it to completion leaves the new object referenced by that name alone. |
| EscapeSound.FreshObjectStaysIsolated | src/emit/iife-escape.ts:142-181 | In every run of the region from before the allocation of a proved-fresh local name, after any number of statements, the object is referenced by that name alone. |
| EscapeLimits.MethodCallEscapes | src/emit/iife-escape.ts:62-99 | n.f = h; n.f() is not reported, and hands the object to h: a complete run that shares it. |
| EscapeLimits.JsxCallEscapes | src/emit/iife-escape.ts:62-99 | The same for an element whose factory is n.f: it stands for such a call. |
| EscapeLimits.ClassHeritageEscapes | src/emit/iife-escape.ts:62-99 | A class that extends h(n) is not reported, and hands the object to h: a complete run that shares it. |
| EscapeLimits.RedeclarationLosesIt | src/emit/iife-escape.ts:51-60 | A later declaration of the name is not reported as a reassignment: a complete run after which the name no longer holds the object. |
| EscapeLimits.PatternLosesIt | src/emit/iife-escape.ts:62-99 | A destructuring assignment to the name is not reported as a reassignment: a complete run after which the name no longer holds the object. |
| EscapeLimits.HiddenCapture | src/emit/iife-escape.ts:101-110 | A function that assigns the name in a pattern does not count as capturing it: the name is proved fresh. |

## Left out

- EnvRuns.TrackedRegisterIsRight: asks for covered blocks and agreeing sites. That these conditions are sufficient is proved for all programs; that dropping either is unsound is shown by one program each, not for every program that violates it.
- EnvTraces.ResolvedIffEntered: a register that no instruction of the block has written goes back to what arrived at its entry (`EnvArrivals.KnownIffAllAgree`), with the states each visit had at the time; those are not traced further back through the blocks.
- EnvDirect.DirectSitesAgree: sufficient, not necessary; an operand that is loaded from a slot or climbed to from another register is outside it.
- EscapeSound.FreshObjectStaysIsolated: asks for a name local to the function and assigned by no pattern of a nested function, and for a region without a method call on the name, a call in a class heritage that receives it, a pattern that assigns it, or a redeclaration. Each is shown to matter by one complete run, not for every region that has one. An intrinsic prototype without accessors (the premise A-PROTO of iife-escape.ts:15-17) is part of the semantics: a plain object has data properties only, and no key, `__proto__` included, is special.
- BuildCfg.BuildCfg: the resume dispatcher is always enabled; the option that turns it off, the recorded generator opcodes, frame size and parameter count are not part of this model.
- Exceptions.CarveRegions: misaligned handler ends are listed, not turned into diagnostics text.
- Invariants.CheckCfgInvariants: CFG-03 (no exception edges among successors) holds by the edge type and has no check; CFG-12, CFG-15 and CFG-16 are about a module, not a function.
- Decode.DecodeFunction: opcode names, operand types and roles come from a table passed in; doubles stay bits; handler alignment warnings and error context are not modelled.
- EnvTracker.Tracker.RunFunction: the collection at the end of runFunction is `EnvCollect.CollectFunction`; environment slot counts and the `closures` set of a draft node, which nothing in the analysis reads back, are not modelled.
- EnvCollect.CollectModule: the list of accesses with their reasons, and the creation sites of closures (noteSite), are not modelled; of an access only what it resolves to is.
- EnvOps: which registers an instruction outside the tracked groups writes is left open beyond branches, returns, throws, catches and one store; opcode names are numbers; the function operand of a closure creation is its last one.
- EnvRuns.BuiltAccessIsRight: agreeing sites leave out functions created with several environments; those are `EnvCopyRuns.CopyAccessIsRenamed`.
- EnvCopyRuns.CopyAccessIsRenamed: asks that no slot is recorded to hold an environment, because slots are recorded under copy 0's environment only (env-graph.ts:318-321), and that no copied function is created inside a copy of another. Both are sufficient, not necessary. The functions inside a copy are any set closed under creation, not only the lexical subtree.
- EnvCopies.CopiesOf: the creation sites with their environments are a parameter; the orphan bookkeeping at env-graph.ts:632-641 is not modelled.
- EnvVisible.IsLexical: the list of slots itself, with its accesses and sizes (env-graph.ts:678-715), is not modelled.
- PointsToEdges.EdgeNamesLastPut: says which function the last recognised put stores; what that means for the required object is `ExportsRuns`.
- ExportsRuns.EdgeCallsFunction: a factory without a replacing put is a sufficient condition on the code. It is not a necessary one, as a factory may replace the object by itself, or put the names again on the new one; which object a register holds at such a put is not in the code alone. The converse is therefore stated per run (`ExportsRuns.ReplacementLosesNames`). Both ask that module.exports and the name are plain data properties that only the factory writes, and `ExportsRuns.ReportedNameHolds` that the factory ran to an exit without an exception.
- PointsToRounds.Factories: two rows for one function share the later row's dependency list.
- PointsToEdges.ResolveCalls: the environment graph's `resolvedAt` is trusted, as a function of the bundle; every function walked decodes; instructions outside the recognised ones write at most their first operand, so multi-output opcodes and instructions such as ThrowIfEmpty are not covered. Counters and row order are not modelled.
- ExportsSound.LastPutStoresFunction: speaks of recognised puts on normal paths; what a put does to an exports object with setters or an unusual prototype is not modelled.
- SigNormalise.NormaliseFunctionForSignature: a line is a structured value and a token keeps its kind; rendering them as text, where a string that holds quotes or line breaks could read like other tokens, is not modelled. A double is the number its decimal text shows, so 0 and -0 are one value. An immediate, a double and an environment slot of one value are one token, as in the text.
- SigDebug.DebugInvisible: asks for labelled targets, which the decoder guarantees (`Labels.AssignLabels`); the labels themselves keep their names, so renumbering after dropping is not part of it.
- Templates.ScanFunction: which arguments a call instruction has is a parameter of the instruction; the row's function and module ids are not modelled.
- Escape.AnalyseEscapes: every remaining expression kind is one generic node; an element is the call it stands for, without the tag that is only shown; an object literal's computed keys come before its values, where the source takes property by property.
- TryGuard.PlanTries: the structured tree is reduced to what the plan looks at (blocks, nesting, try nodes); printing the guard is represented by the range test it prints.
- Opcodes are an enumeration or a small instruction datatype per pass, instead of names matched by regular expressions.
- The resume edges are kept per source block, the source's `virtualPreds` turned around.
- classifyFunctions (generators.ts:44-163): evidence gathering without a property beyond its own text.
- Command line, user interface, project database, artifact writing, package reading and dependency scoring: input and output, or tuned thresholds.
- The structurer, the pass ladder and the emitter's lowering, apart from the guard plan.
