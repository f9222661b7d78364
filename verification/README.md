# ACRIiL: a verified model

ACRIiL inserts checkpoint and restart code into an LLVM function and comes with a small runtime that
saves records to disk and reads them back. This project models both in Dafny and proves that a restart
is transparent: a process that resumes from a checkpoint goes on as the original run would have.

## The two layers

**The runtime.** `Streams`, `Records`, `Directory`, `Bits` and `RestartSide` model the record files as
bytes: decimal printing and parsing, white-space skipping, the validator, the bit-exact restore loop and
the table of restored pointers; `Grammar` says which texts the validator and the readers take.
`Attempts`, `Runtime` and `Search` model the life of an attempt, the numbered directories it leaves and
the search for the newest one that validates. `std::ws` at the end of a file differs between libraries
(it may or may not set failbit); everything is proved for both behaviours (`Streams.Library`).

**The pass.** `IR` gives blocks with parallel phis, straight-line operations and a switch, and their
meaning: environments from SSA names to words or (allocation, offset) pointers, and memory as the bits
of each allocation. The pieces follow the source:

- `PointerSizes` and `PhiAlias`: the two worklists and the alias loop of `pointerAnalysis`; `PointerAnalysis`
  and `Preparation` put them together over a typed function, `Prepared` splits its blocks and shows that the
  result is what the pass relies on; `Pointers`: what a pointer drags along;
- `Splitting`, `Cfg`, `UseDef`, `Liveness` and `Analysis`: the nodes of the graph, use and def sets, and
  the liveness loop, over the path liveness of `Paths`; `Closure` and `Agreement` say what live sets are
  good for;
- `Emission`, `Plans` and `Slots`: the matched save and restore sequences;
- `Insertion`, `Transform`, `FixDominance` and `TrivialPhi`: the inserted blocks and the three steps of
  `fixDominance`. `Transform` is the specification, the methods of the other modules produce it;
- `Simulation`, `Rewriting`, `Locality` and `Cleaned`: the rewritten function does what the function did;
- `Typing`, `SaveRestore`, `RuntimeCodec` and `Transparency`: what holds of live values while the
  function runs, that saving and restoring rebuilds the state, and the theorem that joins both layers;
- `Pass` puts the steps together and states the results for the function as it is left; `Example` is a
  function that meets its assumptions.

Names that the pass makes are structured (`LivePhi(v, block)`, `Restored(v, block)`), so freshness is
part of their type. The record formats reach the operations of `IR` as function values (`Codec`), which
`RuntimeCodec` instantiates with the byte formats.

## What is assumed

Of the function as it is given (`Preparation.Analysable`): instructions and phis respect types, no name is
made twice, pointers are allocations, derived pointers or phis, chains of derived pointers end in a known
pointer, and every phi on a cycle of pointer phis names one phi. From this the analysis and the splitting
produce what the pass needs to know about types and aliases (`Prepared.PreparedIsTyped`).

Of the function behind that (`Pass.FunctionOk`), so far as it does not follow:

- it is in SSA form: one block defines each name, nothing that is used, or needed to save a pointer, is
  live into the entry, all blocks are reachable, and no argument is live out of the entry block (the
  moved entry block has mappings only for what it defines); sizes, counts and aliases are defined before
  the pointer that needs them;
- a value that the phis of a block need from two predecessors is live into the block by ordinary uses,
  or defined where the edge comes from (`UseDef.SharedUsesLive`): the order of the use sets ignores the
  source block and keeps one of the two uses. The phis of a loop that swaps pointers need each other's
  aliases from both sides, and meet this wherever they are used (`Closure.DraggedAlongLive`;
  `Example.SwapIsOk` is such a loop);
- the alias relation is acyclic apart from allocations naming themselves.

Headers are blocks without phis other than the entry; which blocks they are is left open.

Of the state that is saved (`RuntimeCodec.AllSavable`): sizes are 64-bit words and their product does
not wrap, each body starts with a byte that is not white space, and each alias lookup succeeds. Fresh
memory is assumed to depend on its size only.

## Where the code falls short of its purpose

- A body that starts with one white-space byte is saved and validates but is read back one byte late
  (`Records.PointerRoundTrip` gives the exact condition, `Records.TenIsNotRestored` an instance).
- An alias record is written even when its lookup failed; as the last record of an attempt it completes
  a directory that validates although the attempt was abandoned (`Attempts.LeftAccepted` says exactly when,
  `Attempts.FailedLookupValidates` gives an instance), and the search returns to it
  (`Search.AbandonedIsFound`).
- Where `std::ws` does not fail at the end of a file, an alias record that a crash cut inside its number
  validates and names another record (`Directory.CutAliasRecord`, `Directory.CutNumberIsMisread`).
- A use that two edges into a block share is recorded for one of them, and the value can be lost on the
  other (`Paths.LostUse`); `Paths.SameLiveness` says exactly when nothing is lost.
- The loop over phi alias sets does not end on every graph (`PhiAlias.LoopNeedNotEnd`, and
  `PhiAlias.FiveRealPhis` with a root in each set).
- An abandoned attempt leaves its directory behind, and with it every later attempt of the run fails
  (`Attempts.AbandonedFreezes`).

## Model

| member | source | states |
|---|---|---|
| `Pass.AddCheckpointsToFunction` | lib/Transforms/ACRIiL/acriil.cpp:164-193 | from any analysed and split function that meets the assumptions above, the pass yields a well-formed function without trivial phis that has the same runs and the same values on its edges as the specified transformation; without headers it changes nothing |
| `Pass.ResultRuns` | lib/Transforms/ACRIiL/acriil.cpp:164-193 | for every run and every length, started without a checkpoint: the rewritten function enters exactly the original blocks, in order; on the edge taken every value the function needs there is held, under one growing renaming of allocations, by the operand that stands for it, memory is the same under it, and the runs end together with the same returned operands |
| `Pass.ResultReturnsAtOnce` | lib/Transforms/ACRIiL/acriil.cpp:231-281 | a function that returns in its entry block returns the same operands and memory behind the switch |
| `Pass.ResultCheckpoints` | lib/Transforms/ACRIiL/acriil.cpp:283-323 | whenever a run started without a checkpoint comes to a header in a savable state, the rewritten function comes to complete one attempt more, whose directory holds exactly the records of that state and validates, with the label number of that header |
| `Pass.ResultCheckpointsAgain` | lib/Transforms/ACRIiL/acriil.cpp:283-323 | the same for every header that a restarted process comes to |
| `Pass.SearchAnswers` | acriil_dyn/restart.cpp:112-170 | when that directory is the newest that validates, every answer of the search is its label, and the records to be read are those of the saved state |
| `Pass.ResultRestarts` | lib/Transforms/ACRIiL/acriil.cpp:231-281 | restart is transparent: a fresh process that resumes with those records comes to the header with its restart finished and holding every value the function needs there, and from there goes through the blocks of the original run for any number of steps, with those values, memory and returned operands the same under one growing renaming |
| `Pass.PreparedIsOk` | lib/Transforms/ACRIiL/CFGFunction.cpp:25-34 | a typed function, analysed and split, meets all that the pass asks for once the flow conditions above hold |
| `Pass.HeadersBehindOk` | lib/Transforms/ACRIiL/CFGFunction.cpp:318-327 | each header is replaced by the block split off behind its phis, or stays where it has none; these are distinct blocks without phis, other than the entry |
| `Example.SwapIsOk` | acriil_dyn/vecadd_ptrswp.c:20-31 | a loop that swaps two heap pointers at every turn, analysed and split, meets every assumption of the pass |
| `Transparency.RestartIsTransparent` | lib/Transforms/ACRIiL/acriil.cpp:195-323 | the same before trivial phis are removed, with every live value found under its mapped name after any number of steps, and the same returned |
| `Transparency.CheckpointWrites` | lib/Transforms/ACRIiL/acriil.cpp:283-323 | the checkpoint block, executed under its phis, announces its label and record count, writes one record per live value, a function of the state of the original function alone, and then finishes: exactly this attempt is added to those completed |
| `Transparency.CheckpointValidates` | lib/Transforms/ACRIiL/acriil.cpp:283-323 | what it leaves is accepted by the validator as a checkpoint with that label |
| `Transparency.RestartReaches` | lib/Transforms/ACRIiL/acriil.cpp:231-281 | from the entry the switch and the restart block bring a fresh process to the header in a state that matches the saved one, with reading over and the table of pointers gone |
| `Transparency.WholeRun` | lib/Transforms/ACRIiL/acriil.cpp:597-669 | the function before Step 3 simulates the original from the entry, block for block, and returns the same |
| `Transparency.ReachesCheckpoint` | lib/Transforms/ACRIiL/acriil.cpp:195-229 | every time the original is about to enter a header, the rewritten function is about to enter its checkpoint block with the same live values |
| `Transparency.ReachesCheckpointAgain` | lib/Transforms/ACRIiL/acriil.cpp:195-229 | the same for a run behind a restart |
| `Simulation.StepSim` | lib/Transforms/ACRIiL/acriil.cpp:597-669 | one block of the original is one block of the rewritten function: same branch, same values under the live mapping, same memory up to renaming |
| `Simulation.ReturnSim` | lib/Transforms/ACRIiL/acriil.cpp:597-669 | a block that returns yields the same operands and memory, under a renaming, in the rewritten function |
| `Simulation.CheckpointSim` | lib/Transforms/ACRIiL/acriil.cpp:195-229 | a checkpoint block changes nothing the function can see and hands over to its block |
| `Simulation.EntrySim` | lib/Transforms/ACRIiL/acriil.cpp:240-265 | the entry code does in its new block what it did |
| `Simulation.DispatchSim` | lib/Transforms/ACRIiL/acriil.cpp:267-280 | the switch goes to the moved entry without a label or with one that no header has, and to the restart block of any label below the number of headers |
| `Simulation.RunSim` | lib/Transforms/ACRIiL/acriil.cpp:597-669 | from matching states runs of every length show the same blocks, end together and match again |
| `Simulation.BodySim` | lib/Transforms/ACRIiL/acriil.cpp:638-649 | straight-line code with its operands replaced computes the same values and the same memory |
| `Simulation.PhisSim` | lib/Transforms/ACRIiL/acriil.cpp:615-669 | on every edge the old phis and the phis made for live values read the same values |
| `Rewriting.ShapeHolds` | lib/Transforms/ACRIiL/acriil.cpp:597-669 | the result of Steps 1 and 2 has the shape the simulation asks for, in original, checkpoint, restart and entry blocks |
| `FixDominance.CFGFunctionBody.FixOperands` | lib/Transforms/ACRIiL/acriil.cpp:597-669 | Steps 1 and 2, in place, produce exactly the specified blocks: each phi operand the mapping of its predecessor, each other operand its block's phi |
| `FixDominance.CFGFunctionBody.CreatePhis` | lib/Transforms/ACRIiL/acriil.cpp:607-657 | Step 1 over all nodes: new phis, replaced operands, new mappings, and exactly the updates that are due |
| `FixDominance.CreateNodePhis` | lib/Transforms/ACRIiL/acriil.cpp:616-656 | one node: the phi-only use of a value is scheduled before its ordinary use replaces operands; no other order of the live set matters |
| `FixDominance.FindPhiUses` | lib/Transforms/ACRIiL/acriil.cpp:619-629 | exactly the operands of the block's phis that are the value |
| `FixDominance.CreatePhi` | lib/Transforms/ACRIiL/acriil.cpp:630-655 | a phi for the value, its uses in the block replaced, one placeholder and one update per predecessor |
| `FixDominance.CFGFunctionBody.UpdatePhis` | lib/Transforms/ACRIiL/acriil.cpp:659-669 | Step 2: after all updates every operand is final, whatever their order |
| `FixDominance.MappingIsMapped` | lib/Transforms/ACRIiL/CFGNode.cpp:107-117 | what `getLiveMapping` finds after Step 1 is the name the specification uses |
| `Locality.TransformedLocated` | lib/Transforms/ACRIiL/acriil.cpp:607-669 | after Step 2 each operand is a constant or defined in its own block, and each phi operand a constant or defined in its predecessor |
| `Locality.LookupDefined` | lib/Transforms/ACRIiL/CFGNode.cpp:115-117 | every lookup for a value live on an edge finds a mapping, and a value that is defined there |
| `Cleaned.TransformedWellFormed` | lib/Transforms/ACRIiL/acriil.cpp:597-669 | after Step 2 nothing is live into the entry, every name is defined in one block, every phi has an operand for every edge, and what stands for a value on an edge is defined there |
| `TrivialPhi.RemoveTrivialPhis` | lib/Transforms/ACRIiL/acriil.cpp:671-688 | Step 3 ends, leaves only phis that merge two different values other than themselves, and keeps the function well formed; every run from the entry shows the same blocks and worlds, the same return, and each watched operand, itself or what replaced it, the same value; only phis that are gone differ otherwise |
| `TrivialPhi.HasConstantValue` | lib/Transforms/ACRIiL/acriil.cpp:676-680 | the single value a phi merges, or none when two different ones are merged |
| `TrivialPhi.ConstantUnlessTwo` | lib/Transforms/ACRIiL/acriil.cpp:676-680 | a phi is removed unless it merges two different values that are not itself |
| `TrivialPhi.ValueDominates` | lib/Transforms/ACRIiL/acriil.cpp:676-684 | every walk from the entry to a constant phi passes a definition of its value |
| `TrivialPhi.StepReplaced` | lib/Transforms/ACRIiL/acriil.cpp:681-684 | wherever the phi is live it has its value, so each block runs and returns the same with the phi replaced and erased |
| `TrivialPhi.RunReplaced` | lib/Transforms/ACRIiL/acriil.cpp:681-684 | runs of any length agree on all values but the phi, on what is watched, on memory, returns and the blocks entered |
| `TrivialPhi.WellFormedWithout` | lib/Transforms/ACRIiL/acriil.cpp:681-684 | after erasing, every definition still comes before its uses |
| `TrivialPhi.StaysConstant` | lib/Transforms/ACRIiL/acriil.cpp:676-684 | replacing one phi leaves the others that were collected constant |
| `TrivialPhi.SweepNode` | lib/Transforms/ACRIiL/acriil.cpp:675-685 | one node: every constant phi is gone, and the set of phis shrinks when one was |
| `Liveness.CFGFunction.DoLiveAnalysis` | lib/Transforms/ACRIiL/CFGFunction.cpp:352-392 | the loop ends for any order of the nodes, with in and out sets that are exactly path liveness |
| `Liveness.CFGFunction.Sweep` | lib/Transforms/ACRIiL/CFGFunction.cpp:355-391 | one pass: when nothing changed all equations hold, otherwise the known facts strictly grow inside a finite universe |
| `Liveness.VisitNode` | lib/Transforms/ACRIiL/CFGFunction.cpp:358-389 | one node: the sets stay sound and grow, the change flag is exact |
| `Liveness.SolvedIsExact` | lib/Transforms/ACRIiL/CFGFunction.cpp:352-392 | sound sets that solve the equations are exactly the values live along some path |
| `Cfg.UpdateIn` | lib/Transforms/ACRIiL/CFGFunction.cpp:360-373 | in = use + (out - def), with an exact change flag |
| `Cfg.UpdateOutFrom` | lib/Transforms/ACRIiL/CFGFunction.cpp:375-388 | the part of out from one successor: ordinary uses, and phi uses of this block made ordinary |
| `Cfg.CopyAllOperands` | lib/Transforms/ACRIiL/CFGUtils.cpp:11-17 | union with an exact changed flag |
| `Paths.LeastSolution` | lib/Transforms/ACRIiL/CFGFunction.cpp:352-392 | path liveness is contained in every solution of the equations |
| `Paths.LiveForwards` | lib/Transforms/ACRIiL/CFGFunction.cpp:352-392 | a live value is used, or not defined and live on an outgoing edge |
| `Paths.LiveBackwards` | lib/Transforms/ACRIiL/CFGFunction.cpp:360-373 | live on an outgoing edge and not defined: live in |
| `Paths.SameLiveness` | include/llvm/Transforms/ACRIiL/CFGUse.h:26-30 | leaving out uses on edges keeps liveness if and only if each is made up for: defined in the block the edge leaves, or live there all the same |
| `Paths.LostUse` | include/llvm/Transforms/ACRIiL/CFGUse.h:26-30 | two edges into one block with the same use: recorded for one only, the value is not live on the other way |
| `Agreement.LiveValuesDecide` | lib/Transforms/ACRIiL/CFGFunction.cpp:352-392 | two states that agree on the live values of an edge and on memory, up to a renaming, run through the same blocks for ever |
| `Analysis.LiveValues` | lib/Transforms/ACRIiL/CFGFunction.cpp:25-34 | nodes, edges and analysis together: the live sets of a function are those of its paths, whatever the order of the use sets loses, as long as what it loses is live by ordinary uses |
| `Analysis.RecordedIsEnough` | include/llvm/Transforms/ACRIiL/CFGUse.h:26-30 | the uses recorded under an order that ignores the source block give the same live values as all uses, when shared ones are live by ordinary uses |
| `Analysis.AddEdges` | lib/Transforms/ACRIiL/CFGFunction.cpp:342-349 | the successors of each node are the nodes of its branch targets |
| `Analysis.SetUpLiveSets` | lib/Transforms/ACRIiL/CFGFunction.cpp:394-407 | the live set of a node is its in set |
| `UseDef.CollectUseDef` | lib/Transforms/ACRIiL/CFGNode.cpp:34-87 | the backward walk yields the upward-exposed uses with what pointers drag along, all definitions, and every phi operand |
| `UseDef.BodyNeedsExactly` | lib/Transforms/ACRIiL/CFGNode.cpp:34-87 | code uses exactly what some instruction, or the branch, needs and no earlier instruction defines |
| `UseDef.UsesExactly` | lib/Transforms/ACRIiL/CFGNode.cpp:34-87 | the use set of a block in those terms, its phis and arguments left out |
| `UseDef.DefsExactly` | lib/Transforms/ACRIiL/CFGNode.cpp:34-87 | the def set of a block is its phis, what its instructions make, and the arguments at the entry |
| `UseDef.EdgesExactly` | lib/Transforms/ACRIiL/CFGNode.cpp:34-87 | an edge uses exactly what the operands of its phis need |
| `UseDef.AddPointerUses` | lib/Transforms/ACRIiL/CFGNode.cpp:15-32 | the recursion ends and adds sizes, counts and aliases of a pointer, transitively |
| `Pointers.PointerUsesReach` | lib/Transforms/ACRIiL/CFGNode.cpp:15-32 | what a pointer drags along is exactly what a chain of aliases leads to, with an alias, a size or a count at its end |
| `Pointers.PointerUsesTransitive` | lib/Transforms/ACRIiL/CFGNode.cpp:15-32 | what the uses of a pointer drag along are uses of the pointer |
| `Closure.NeedsUsedTogether` | lib/Transforms/ACRIiL/CFGNode.cpp:15-32 | wherever a pointer is used, so are its size, its count and its aliases, or the block defines them before |
| `Closure.LiveClosed` | lib/Transforms/ACRIiL/CFGNode.cpp:15-32 | live sets are closed under size, count and alias |
| `Closure.DraggedAlongLive` | lib/Transforms/ACRIiL/CFGNode.cpp:15-32 | what a pointer phi drags along is live into its block by ordinary uses when the phi is used behind it, as when a loop swaps pointers |
| `Paths.NotRedefined` | lib/Transforms/ACRIiL/CFGNode.cpp:15-32 | while a pointer is live nothing it depends on is defined again |
| `Paths.LiveInTogether` | lib/Transforms/ACRIiL/CFGFunction.cpp:352-392 | a value that dominates another and is used with it is live wherever the other is |
| `Splitting.SplitBlocks` | lib/Transforms/ACRIiL/CFGFunction.cpp:301-330 | each block with phis is split behind them, the phis of successors renamed |
| `Splitting.SplitKeepsRuns` | lib/Transforms/ACRIiL/CFGFunction.cpp:301-330 | splitting keeps every run: blocks, values and memory |
| `Splitting.NoPhisWithCode` | lib/Transforms/ACRIiL/CFGFunction.cpp:301-341 | no block has phis and code, and a header that is split is a block without phis |
| `Insertion.CreateCheckpointAndRestartBlocksForNode` | lib/Transforms/ACRIiL/acriil.cpp:195-229 | every branch to the header goes to its checkpoint block; both new blocks branch to the header |
| `Insertion.CreateBlocks` | lib/Transforms/ACRIiL/acriil.cpp:170-176 | the same for all headers, whatever their order |
| `Insertion.InsertRestartBlock` | lib/Transforms/ACRIiL/acriil.cpp:231-281 | the entry code moves, phis behind it are renamed, the switch takes its place |
| `Insertion.Instrument` | lib/Transforms/ACRIiL/acriil.cpp:170-185 | all inserted blocks in place and filled: exactly the specified blocks |
| `Emission.CheckpointRestartBlockHelper.CheckpointRestoreLiveValue` | lib/Transforms/ACRIiL/acriil.cpp:325-351 | the recursion ends; saves, restores, indices and restored names all stay those of one order of records, in which each value comes once and after what it needs |
| `Emission.CheckpointRestartBlockHelper.CheckpointRestoreLiveValuePointer` | lib/Transforms/ACRIiL/acriil.cpp:353-485 | sizes and aliases first, then one record by the kind of the pointer |
| `Emission.CheckpointRestartBlockHelper.CheckpointRestoreLiveValueScalar` | lib/Transforms/ACRIiL/acriil.cpp:487-520 | one record unless there is one |
| `Emission.CheckpointRestartBlockHelper.CheckpointRestoreAliases` | lib/Transforms/ACRIiL/acriil.cpp:376-381 | the loop over the alias set |
| `Emission.CheckpointRestartBlockHelper.AddRecord` | lib/Transforms/ACRIiL/acriil.cpp:54-57 | a new index, save and restore for a value not recorded before, the invariant kept |
| `Emission.CheckpointRestartBlockHelper.AddCheckpointAliasArgs` | lib/Transforms/ACRIiL/acriil.cpp:556-567 | size, count, record number and pointer of each candidate |
| `Emission.VisitMembers` | lib/Transforms/ACRIiL/acriil.cpp:353-485 | dealing with a value records it and exactly what it drags along |
| `Emission.NeedsBefore` | lib/Transforms/ACRIiL/acriil.cpp:367-381 | when the turn of a pointer comes, its size, count and other aliases are recorded |
| `Emission.AppendOrdered` | lib/Transforms/ACRIiL/acriil.cpp:54-57 | records stay distinct and behind what they need |
| `Emission.IndexAt` | lib/Transforms/ACRIiL/acriil.cpp:556-567 | the number given for an alias is the position of its record |
| `Plans.FillCheckpointAndRestartBlocksForNode` | lib/Transforms/ACRIiL/acriil.cpp:283-323 | for any order of the live set: the records are exactly the live values, the header counts them, start and finish calls stand around them; what the finish calls do is stated by Transparency.CheckpointWrites and RestartReaches |
| `Plans.FillBlocks` | lib/Transforms/ACRIiL/acriil.cpp:188-190 | the same for all headers, with label numbers by position |
| `Plans.FilledIsLocal` | lib/Transforms/ACRIiL/acriil.cpp:283-323 | the saves use live values only, the restores restored values only, and every live value has a restored name |
| `Plans.LiveHeadersClosed` | lib/Transforms/ACRIiL/acriil.cpp:293-298 | the live set of a header needs nothing from outside itself |
| `Typing.SoundRun` | lib/Transforms/ACRIiL/CFGFunction.cpp:109-197 | in every reachable state every live scalar fits its width and every live pointer points into an allocation |
| `Typing.SizesShadow` | lib/Transforms/ACRIiL/CFGFunction.cpp:224-259 | size times count of a live pointer is the number of bits of the allocation it points into, whatever edges were taken |
| `Typing.SoundStep` | lib/Transforms/ACRIiL/CFGFunction.cpp:109-259 | every block keeps this, through phis, allocations, derived pointers and writes |
| `Typing.EntrySound` | lib/Transforms/ACRIiL/CFGFunction.cpp:76-107 | it holds at the entry when the arguments are scalars of their widths |
| `SaveRestore.SavesRun` | lib/Transforms/ACRIiL/acriil.cpp:528-569 | executing the emitted saves writes one file per record, in order, and changes nothing else |
| `SaveRestore.RestoresRun` | lib/Transforms/ACRIiL/acriil.cpp:571-595 | reading them in a fresh process rebuilds the state: scalars equal, allocations with the same bits, all pointers renamed by one injective map |
| `SaveRestore.RestoreRun` | lib/Transforms/ACRIiL/acriil.cpp:410-485 | each record read in its turn restores its value, fresh memory included |
| `SaveRestore.SamePointers` | acriil_dyn/checkpoint.cpp:172-181 | under that map two saved pointers are equal exactly when their restored pointers are |
| `SaveRestore.LookupIsFoundIn` | acriil_dyn/checkpoint.cpp:172-181 | the candidates of an alias call, evaluated, are searched in the order of the alias set |
| `SaveRestore.FoundExactly` | acriil_dyn/checkpoint.cpp:172-181 | an alias lookup fails exactly when no alias points there, and otherwise yields the record of the first that does |
| `RuntimeCodec.FileIs` | lib/Transforms/ACRIiL/acriil.cpp:528-569 | the file of each value: width and bits of a scalar, element size, count and all bits of an allocation, sizes and first matching record of any other pointer |
| `RuntimeCodec.SavableSurvives` | acriil_dyn/checkpoint.cpp:124-210 | with the runtime's own formats a readable body and a successful lookup come back bit for bit |
| `RuntimeCodec.SavedDirectoryValid` | acriil_dyn/restart.cpp:42-110 | a directory of such records is accepted with its label and record count |
| `Slots.ACRIiLAllocaManager.GetAlloca` | lib/Transforms/ACRIiL/ACRIiLAllocaManager.cpp:16-29 | a slot of the type that is not in use, an old one when there is one |
| `Slots.ACRIiLAllocaManager.ReleaseAlloca` | lib/Transforms/ACRIiL/ACRIiLAllocaManager.cpp:31-35 | exactly that slot becomes free |
| `Slots.SlotsDoNotMixSaves` | lib/Transforms/ACRIiL/acriil.cpp:487-520 | whichever slots are shared, the file of each scalar is that of its own value |
| `Slots.SlotsDoNotMixLoads` | lib/Transforms/ACRIiL/acriil.cpp:511-519 | and each restored scalar is its own value |
| `PhiAlias.PHINodeAliases.VisitPhi` | lib/Transforms/ACRIiL/CFGFunction.cpp:264-290 | one visit replaces the phis in the set by those values behind them that are not ruled out, each by itself, and reports a change exactly when there was one |
| `PhiAlias.VisitTakes` | lib/Transforms/ACRIiL/CFGFunction.cpp:268-279 | of what stands behind a phi of the set, a visit takes over a value exactly when the alias analysis does not rule out that value |
| `PhiAlias.OneRuledOut` | lib/Transforms/ACRIiL/CFGFunction.cpp:268-279 | an instance: with one of two values behind a phi ruled out, the other is taken |
| `PhiAlias.PHINodeAliases.ResolveAliases` | lib/Transforms/ACRIiL/CFGFunction.cpp:261-294 | where each phi on a cycle names one phi, the loop ends for any order and any alias analysis, with no phi in any set, no value added that is ruled out for its phi, and every root kept to which a path leads that is never ruled out |
| `PhiAlias.SimpleWhen` | lib/Transforms/ACRIiL/CFGFunction.cpp:261-294 | acyclic phis are such, and so are sets with one phi at most, as those of two pointers a loop swaps |
| `PhiAlias.CyclicFalls` | lib/Transforms/ACRIiL/CFGFunction.cpp:264-290 | a visit to a phi on a simple cycle takes a phi off it for good |
| `PhiAlias.LedFalls` | lib/Transforms/ACRIiL/CFGFunction.cpp:264-290 | behind the last cycle every visit that finds a phi leaves fewer phis that lead to one another |
| `PhiAlias.VisitKeepsRoots` | lib/Transforms/ACRIiL/CFGFunction.cpp:264-290 | a visit adds no root to any phi and loses none to which a path leads that is never ruled out, on any graph |
| `PhiAlias.WhenItStops` | lib/Transforms/ACRIiL/CFGFunction.cpp:261-294 | partial correctness for any graph, any order and any alias analysis: without phis left, each set holds roots only, none ruled out for its phi, and all to which a path leads that is never ruled out |
| `PhiAlias.PhiPartVisited` | lib/Transforms/ACRIiL/CFGFunction.cpp:264-290 | without pruning, the phis in the sets change as if there were no roots |
| `PhiAlias.LoopNeedNotEnd` | lib/Transforms/ACRIiL/CFGFunction.cpp:261-294 | five phis whose sets, with any roots beside them, come back after every second sweep, so the loop never ends |
| `PhiAlias.FiveRealPhis` | lib/Transforms/ACRIiL/CFGFunction.cpp:261-294 | an instance in which each phi has a root of its own |
| `PointerSizes.InheritSizes` | lib/Transforms/ACRIiL/CFGFunction.cpp:164-222 | the first worklist ends; each derived pointer has size and count of the known pointer its chain ends in, whatever the order of the passes |
| `PointerSizes.Pass` | lib/Transforms/ACRIiL/CFGFunction.cpp:167-221 | each pass finds at least one pointer |
| `PointerSizes.FindPhiSizes` | lib/Transforms/ACRIiL/CFGFunction.cpp:224-259 | the second worklist ends; each size phi has one operand per incoming block, the size of the pointer that comes from it |
| `PointerSizes.SizePhisTrack` | lib/Transforms/ACRIiL/CFGFunction.cpp:238-250 | such phis are those the size shadowing relies on |
| `PointerAnalysis.SortPointers` | lib/Transforms/ACRIiL/CFGFunction.cpp:109-162 | one walk over the function: exactly its allocations, derived pointers and pointer phis, with what they come from |
| `PointerAnalysis.SizedDerived` | lib/Transforms/ACRIiL/CFGFunction.cpp:170-200 | a derived pointer has the sizes of the pointer it is derived from, and names it as its alias |
| `PointerAnalysis.ResolvedArePointers` | lib/Transforms/ACRIiL/CFGFunction.cpp:261-294 | the aliases of a phi are pointers of the function and no phis |
| `PointerAnalysis.ResolvedAliases` | lib/Transforms/ACRIiL/CFGFunction.cpp:261-294 | the same of the aliases that are recorded for the phis |
| `Preparation.AnalysePointers` | lib/Transforms/ACRIiL/CFGFunction.cpp:76-299 | both worklists and the alias loop: every pointer has 64-bit sizes, derived pointers inherit them, phis have their own, size phis take those of the pointer of each edge, and the aliases of phis are the roots that are not ruled out |
| `Preparation.WithSizesTyped` | lib/Transforms/ACRIiL/CFGFunction.cpp:137-155 | each block with its size phis respects types, and its size phis follow its pointer phis |
| `Prepared.SizeBefore` | lib/Transforms/ACRIiL/CFGFunction.cpp:137-155 | in a block in SSA form no size is defined behind the pointer that needs it |
| `Prepared.PrepareFunction` | lib/Transforms/ACRIiL/CFGFunction.cpp:25-341 | analysis, size phis and splitting in turn: a function with exactly the phis named beside the old ones, split, its pointers known and its blocks typed |
| `Prepared.PreparedIsTyped` | lib/Transforms/ACRIiL/CFGFunction.cpp:76-341 | in SSA form it is typed throughout, and all aliases are known pointers |
| `Prepared.MorePhisKeepRuns` | lib/Transforms/ACRIiL/CFGFunction.cpp:137-146 | phis under names the function does not know change no run |
| `Prepared.PreparedRuns` | lib/Transforms/ACRIiL/CFGFunction.cpp:25-341 | every run of the function is one of the result: the same blocks, memory and values, but for the size phis |
| `Records.WritePointer` | acriil_dyn/checkpoint.cpp:124-156 | the byte loop writes header and body |
| `Records.WriteAlias` | acriil_dyn/checkpoint.cpp:158-210 | the scan finds the first candidate; a failed lookup still writes label 0 |
| `Records.FirstMatchIsFirst` | acriil_dyn/checkpoint.cpp:172-181 | the scan yields the label of the first candidate that matches, and none exactly when none does |
| `Records.PointerFileText` | acriil_dyn/checkpoint.cpp:139-155 | the bytes of a pointer record |
| `Records.AliasFileText` | acriil_dyn/checkpoint.cpp:194-207 | the bytes of an alias record |
| `Records.InfoFileText` | acriil_dyn/checkpoint.cpp:113-121 | the bytes of info files |
| `Records.PointerRecordOutcome` | acriil_dyn/restart.cpp:172-239 | what validator and reader make of any written body: read back, read one byte late, or rejected |
| `Records.PointerRoundTrip` | acriil_dyn/restart.cpp:198-236 | the reader recovers every byte exactly when the body starts with something other than white space |
| `Records.AliasRoundTrip` | acriil_dyn/restart.cpp:241-300 | alias records validate and return their number, for all sizes |
| `Records.InfoRoundTrip` | acriil_dyn/restart.cpp:52-63 | the info file returns its label and count |
| `Records.TenIsNotRestored` | acriil_dyn/restart.cpp:199-211 | a 32-bit 10 is saved, validates, and is read back as 167772160 |
| `Streams.ReadDecimal` | acriil_dyn/restart.cpp:79-85 | a printed number is read back, for every 64-bit word |
| `Directory.CheckpointValid` | acriil_dyn/restart.cpp:42-110 | the validator, file by file and byte by byte: it accepts exactly the directories whose info file can be read with a label that is not negative and whose announced records all pass, and returns label and count |
| `Directory.WrittenAccepted` | acriil_dyn/restart.cpp:42-110 | a complete directory is accepted exactly when each body is readable or shifted by one |
| `Directory.CutPointerRecord` | acriil_dyn/restart.cpp:66-108 | for every cut of a pointer record: accepted exactly when nothing but the final newline is missing and the body is readable, or when it is whole and acceptable |
| `Directory.CutAliasRecord` | acriil_dyn/restart.cpp:66-108 | for every cut of an alias record: accepted exactly when it is whole, or, where `std::ws` does not fail at the end of a file, already when its number has begun |
| `Directory.CutNumberIsMisread` | acriil_dyn/restart.cpp:88-104 | an instance of the second case: the number 12 cut to 1 passes and names another record |
| `Directory.CrashVerdict` | acriil_dyn/restart.cpp:42-110 | over all crash points, for records of both kinds: a directory is accepted exactly when writing got far enough into its last record and the others are acceptable, and then with its own label and count |
| `Grammar.RecordExact` | acriil_dyn/restart.cpp:66-108 | the validator takes a file exactly when it is the text of a record: the word, its kind, two sizes, and a number or the announced bytes, with white space around them and nothing else up to the end |
| `Grammar.DirectoryExact` | acriil_dyn/restart.cpp:42-110 | a directory is accepted with a label and a count exactly when these are the numbers of its info file and so many record files are texts of records |
| `Grammar.InfoExact` | acriil_dyn/restart.cpp:52-56 | label and count are read exactly from two numbers with white space around them |
| `Grammar.PointerExact` | acriil_dyn/restart.cpp:172-239 | the pointer reader gets exactly the first bytes behind the header of a pointer record, as many as it asks for |
| `Grammar.AliasExact` | acriil_dyn/restart.cpp:241-300 | the alias reader gets exactly the number behind the header of an alias record |
| `Grammar.AliasTail` | acriil_dyn/restart.cpp:88-104 | whatever stands behind the header of an alias record: it passes exactly when that is one readable number up to the end of the file |
| `Grammar.PointerTail` | acriil_dyn/restart.cpp:92-104 | and behind that of a pointer record: exactly when that is the announced bytes and white space |
| `Directory.CutInfo` | acriil_dyn/restart.cpp:45-63 | a cut info file is rejected or announces less |
| `Bits.RestoreBits` | acriil_dyn/restart.cpp:213-231 | writes exactly the first bits of the target, low bits first in a partial byte, and leaves every other bit |
| `Bits.RestoredBits` | acriil_dyn/restart.cpp:213-231 | the bits of a saved body come back, whatever was there |
| `Bits.UnpackPack` | acriil_dyn/checkpoint.cpp:149-153 | bits put into bytes come back |
| `RestartSide.ACRIiLRestartState.ReadPointerFromCheckpoint` | acriil_dyn/restart.cpp:172-239 | reads the next file into memory bit-exactly and enters the pointer in the table |
| `RestartSide.ACRIiLRestartState.ReadAliasFromCheckpoint` | acriil_dyn/restart.cpp:241-302 | parses the next file, returns the table entry it names, and enters it again |
| `RestartSide.ACRIiLRestartState.OpenNextRestartArgumentFile` | acriil_dyn/ACRIiLState.cpp:119-122 | files are numbered by the records read so far |
| `Attempts.AttemptEffect` | acriil_dyn/checkpoint.cpp:88-218 | one attempt, completely: it makes a directory exactly when it starts in time and `mkdir` succeeds, counts exactly when its lookups succeed as well, moves the next time only then, and leaves checkpointing on unless the clock fails |
| `Attempts.CompletedDirectories` | acriil_dyn/ACRIiLState.cpp:86-91 | over every run with a fresh base directory the completed directories are exactly 0 to counter - 1, each written by one attempt |
| `Attempts.DirectoriesWritten` | acriil_dyn/ACRIiLState.cpp:76-101 | over every run the directories are one for each attempt that got one, in order; at most the last of them was abandoned, and then the counter is its number |
| `Attempts.AbandonedFreezes` | acriil_dyn/ACRIiLState.cpp:98-101 | an attempt that was abandoned with its directory there stops all later ones |
| `Attempts.FailedLookupFreezes` | acriil_dyn/checkpoint.cpp:182-187 | a failed alias lookup is such an attempt |
| `Attempts.IntervalsKept` | acriil_dyn/ACRIiLState.cpp:62-74 | with a monotone clock each completed attempt starts at least one interval after the last one finished |
| `Attempts.CompletedAreDue` | acriil_dyn/ACRIiLState.cpp:62-91 | over whole runs without failures exactly those attempts are completed that start at the time that is due or later, however many come too early in between |
| `Attempts.FirstInterval` | acriil_dyn/ACRIiLState.cpp:32-58 | from the setup on: nothing is completed before an interval has passed since its second clock reading |
| `Attempts.FailedSetup` | acriil_dyn/checkpoint.cpp:66-86 | where the setup fails to read the clock or to make the base directory, no directory is ever written |
| `Attempts.IntervalBehindRestart` | acriil_dyn/ACRIiLState.cpp:132-136 | behind a restart the next checkpoint comes an interval after its end |
| `Attempts.StopsAtFailure` | acriil_dyn/checkpoint.cpp:182-209 | the records of an attempt are those up to and including the first failed lookup |
| `Attempts.AllWritten` | acriil_dyn/checkpoint.cpp:182-209 | every record of an attempt is on disk exactly when no lookup but the last one failed |
| `Attempts.LeftAccepted` | acriil_dyn/restart.cpp:42-110 | what an attempt leaves is accepted if and only if no lookup but its last one failed and every record is acceptable, and then with its label and count |
| `Attempts.FailedLookupValidates` | acriil_dyn/checkpoint.cpp:182-209 | an attempt whose only lookup fails: abandoned, yet its directory is accepted |
| `Runtime.ACRIiLState.constructor` | acriil_dyn/checkpoint.cpp:66-86 | setup leaves the fields as the attempt machine says, for every outcome of the clock and of `mkdir` |
| `Runtime.ACRIiLState.CheckpointStart` | acriil_dyn/checkpoint.cpp:88-122 | the fields change as the attempt machine says |
| `Runtime.ACRIiLState.CheckpointPointer` | acriil_dyn/checkpoint.cpp:124-156 | the record is written exactly while the attempt is live |
| `Runtime.ACRIiLState.CheckpointAlias` | acriil_dyn/checkpoint.cpp:158-210 | the same, and a failed lookup ends the attempt |
| `Runtime.ACRIiLState.CheckpointFinish` | acriil_dyn/ACRIiLState.cpp:86-91 | counter and next time move only for a live attempt |
| `Runtime.ACRIiLState.RestartFinish` | acriil_dyn/ACRIiLState.cpp:132-136 | the next time moves to an interval behind the end of the restart |
| `Runtime.ACRIiLState.GetTimeInMicroseconds` | acriil_dyn/ACRIiLState.cpp:22-30 | a failing clock reads 0 and disables checkpointing |
| `Search.RestartGetLabel` | acriil_dyn/restart.cpp:112-170 | validating directories one by one: the label of the newest that is accepted, or -1 when none is |
| `Search.CrashFallsBack` | acriil_dyn/restart.cpp:112-170 | after any run, with or without a crash at any point inside a further attempt, and with any older runs on disk: the search finds what was being written exactly when the validator misses nothing there; otherwise directory n of this run exactly when it is the last whose records are all written and acceptable, abandoned or not; and it turns to the older runs exactly when there is none |
| `Search.CompletedAreWriters` | acriil_dyn/restart.cpp:112-170 | where every lookup succeeds, these are the directories of the completed checkpoints |
| `Search.AbandonedIsFound` | acriil_dyn/restart.cpp:112-170 | a run that completes no checkpoint, after which the search returns the label of an abandoned attempt |

## Left out

- LLVM itself: alias analysis is an arbitrary relation, the set of headers arbitrary, and there is one function.
- Loads as a source of pointers, and the special case for the arguments of `main`: inheriting sizes through a load is not sound.
- Pointers held in memory, globals, structs, threads and floating point: not saved by the code or not supported.
- Bit sizes of types whose memory layout has padding: an allocation has exactly size times count bits.
- Addresses: two pointers are equal when allocation and offset are, so a pointer behind one allocation never equals the start of another.
- Real files and directories, environment variables and messages: a directory is its info file and its consecutively numbered records, and creating one fails when it exists.
- Wrap-around of counters and of the clock, and directory names across reboots.
- The trees of `__acriilInsertHeap` and `__acriilInsertStack` and all dump functions: never called by the pass.
- Temporary casts to bytes in the emitted code: a save or a restore is one operation, and a scalar passes through its slot in `Slots` only.
- Whether an attempt is performed at all is decided in `Attempts`; the checkpoint operations of `IR` are those of an attempt that is, which counts as completed at its finish call unless a lookup has failed.
- Records.WritePointer: asks for fewer than 2^64 - 8 bits, because the loop counter of the source would wrap and never end.
- Bits.RestoreBits: the same bound, for the same loop on the reading side.
- RestartSide.ACRIiLRestartState.ReadAliasFromCheckpoint: a record number outside the table is undefined behaviour in the source and an exit here.
- TrivialPhi.HasConstantValue: a phi that merges nothing but itself has an undefined value in the source and 0 here; no reachable block has one.
- FixDominance.MappingIsMapped: a lookup without an entry is undefined behaviour in the source and returns the value itself here; `Locality.LookupDefined` shows that live values always have one.
- Insertion.CreateCheckpointAndRestartBlocksForNode: redirects the edges of a snapshot of the blocks, where the source edits them while iterating over predecessors.
- PhiAlias.PHINodeAliases.ResolveAliases: asks that each phi on a cycle names one phi; with two the loop need not end, but it is not said for which of those graphs it does.
- Directory.CheckpointValid: its bit counter does not wrap, where the 64-bit one of the source would on bodies of 2^61 bytes.
- Directory.CrashVerdict: asks that the last record, when it is a pointer record, has a body and a size that does not wrap; cuts of others are not said.
- PointerSizes.FindPhiSizes: asks that every incoming value is a known pointer, without which the source loops for ever.
- Typing.SoundRun: arguments of pointer type are excluded, for which the source has no sizes.
