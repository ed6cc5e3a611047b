# A model of the C-- compiler's middle and back end

The compiler turns syntax trees into three-address code, divides each function
into basic blocks, and optimizes it: peephole optimization and copy propagation
within blocks, liveness analysis with dead code elimination over the whole
function, and register allocation by graph colouring. This project models these
passes in Dafny and proves that they do what they are for: the analyses are
exact, and the transformations keep the meaning of every function, or exactly when
they do.

`Compilation.CompileFunction` ties everything together. It takes a function as a
syntax tree, with loops, calls and return statements, generates its code, and runs
the optimizations that are enabled. Whenever the body of the function ends, the
resulting code makes the same calls and returns with the same value, global
variables and memory, and so does the code that runs on registers; whenever the
body does not end, neither does the code, and it makes the same calls.

## How it is built

* `Instructions`, `Semantics` and `Behaviour` say what three-address code is and
  what it computes. An instruction list is a sequence or an array, a position
  stands for a pointer to an instruction, and a dead instruction is passed over.
  Arithmetic, the fitting of values into types and the effect of calls are
  parameters of a `Machine`, so the theorems hold for 8-bit and 32-bit wrap-around,
  for any result of a division by zero and for any callee.
* `ControlFlow`, `Paths`, `Liveness`, `ReachingDefinitions` and `Dominators` build
  the graph and analyse it. Each analysis is a method with the loops of the
  program, proved to yield exactly the set that a statement about paths defines.
  `LiveWays` brings liveness back to the code: an id is live where a way leads to a use.
* `Peephole` (with `PeepholeRules`, `TemporaryBypass` and `PeepholeLimits`),
  `CopyPropagation` and `DeadCode` change an array of instructions in place. Each
  method is proved against a specification function, and that one against the
  semantics, by simulation. `ReadPaths` and `FirstReads` show that the passes let no
  variable be read before it is assigned.
* `Graphs`, `Heaps`, `Coloring`, `RegisterColoring`, `Interference`,
  `RegisterMachine` and `RegisterAllocation` build the interference graph, colour
  it, and prove that code on registers does what code on variables does.
  `LinkedLists` refines the sequences of `Graphs` to doubly linked lists,
  `StaleNodes` says on which graphs the colouring takes a node that it has removed, and
  `CliqueFunction` gives a function with such a graph. `InterferenceWays` says of the
  graph that it is the one of the final code.
* `SharedIds` and `SharedRegisters` say exactly which ids the variables of a function
  need so that dead code elimination and register allocation are right. The analyses
  are given the number of elements that their sets are made for; an element that has
  no place in a set is never in it.
* `SavedRegisters` says exactly when a value outlasts the restoring of registers in
  front of a return, and `LeavingCode` which functions need not care.
* `SyntaxTrees`, `TemporaryPool` and `CodeGeneration` generate code. `GeneratedRuns`,
  `Arguments`, `StatementRuns`, `Divergence` and `GeneratedFunctions` prove that it
  does what the syntax tree means; `GeneratedLabels`, `GeneratedShape`, `CopiedTypes`,
  `GeneratedAllowed` and `GeneratedIds` that it is what the optimizer takes, or
  exactly when; `CodeOptimization` and `Compilation` chain the passes.
* `GeneratorCounts` says how many instructions and temporaries each construct takes.
* `CharacterCopies` shows where peephole optimization changes generated code.
* `BitSets` refines the sets that the other modules use to the words of `set.c`;
  `FrameLayout` is the layout of a stack frame.

## What the proofs found

* Peephole optimization is wrong on code that the generator makes. For `x = a[i]` with
  an int variable and an array of characters it makes the variable the destination
  of the load (code_optimization.c:110-119 on the code of code_generation.c:336-369),
  and the value is no longer cut to a byte. `CharacterCopies.WideningBreaks` is a
  function on which this happens, `CharacterCopies.AssignmentIsExact` says exactly
  which assignments are affected, and `GeneratedAllowed.FunctionAllowed` that generated
  code meets the conditions of the pass exactly if no assignment and no return widens a
  character of an array, or one that a function gives back, in this way. Without local
  optimization nothing of the kind is asked for.
* Spilling a node (code_optimization.c:637-639) leaves promoted neighbours in
  `nodes_to_spill` and in the heap of nodes to spill, so that a node that has left the
  graph can be taken for spilling. `StaleNodes.LeavingBehindIsExact` says on which graphs a
  node is left behind and `StaleNodes.StaleIsExact` on which graphs one is taken, for
  some costs; two disjoint cliques of 17 nodes are one with the 16 registers of the
  program, and `CliqueFunction.AllocateTwoGroups` takes a function of straight-line code
  through the analyses to that point. The flag `drop` of `ColorGraph` says whether
  promoted nodes are removed as colouring does. With it no such node is taken; without
  it every other property holds as long as none was taken.
* A promoted node may have to avoid all registers and keeps `reg == -1`; lines 593
  and 599 then add -1 to sets. The model adds only registers.
* `create_full_set` is exact for a positive size if and only if that is no multiple
  of 32, and for the size 0 its loop bound wraps around, so that case is excluded.
  The dominators are right if and only if `Dominators.MissingIsMet` holds, which it
  does whenever the number of blocks plus one is no multiple of 32; they are wrong on
  the list of 32 instructions in `Dominators.RowHasFunction`.
* `neighbor_set` is made for one element too few (code_optimization.c:395). Since a set
  is a row of words, the ids fit all the same if and only if their number minus one is
  no multiple of 32 (`BitSets.NeighborSetHoldsIds`); the model of the graph has a place for
  every id.
* Formals all share the id 0 with the first local. That can be harmless on a given
  list, but for any two variables that share an id, not both of them addresses, there
  is a list on which dead code elimination is wrong (`SharedIds.SharedIdBreaks`).
  Register allocation needs exactly that no variable that could get a register shares
  its id with an assigned one (`SharedRegisters.RegisterIdsDecide`).
* Formals are not counted as local variables (liveness_analysis.c:47,
  code_optimization.c:256), so in a function that has no others the sets have no place
  for the id 0 (set.c:14-24), nothing is ever live, and dead code elimination marks
  every assignment of a formal: `x = y; g(x);` loses its assignment
  (`SharedIds.FormalIsLost`, `DeadCode.NoPlaceIsDead`). Only register allocation asks
  for a positive number (line 352). Distinct ids of assigned variables, each with a place
  in the sets, are exactly what dead code elimination needs for all lists
  (`SharedIds.IdsDecide`); with ids as the compiler gives them this is that ids are
  distinct and there is another local variable or no formal is assigned
  (`SharedIds.FormalsDecide`).
* The expression of a return statement is evaluated behind the Leave, which restores
  the callee-saved registers and moves the frame pointer (code_translation.c:195-199
  and 633-651). A value in one of those registers or in memory is lost where there is
  something to restore (`SavedRegisters.LeaveDecides`). Code on registers is proved right
  where nothing that is read behind a Leave is lost (`LeavesSafely`), which is so in
  every function that gives no value back.
* The bypass of temporaries in peephole optimization needs four conditions, which
  `Peephole.Allowed` collects. `PeepholeLimits` shows for each that it is needed. Generated
  code meets all but one of them; that one is the first finding.
* What dead code elimination leaves is used by the ways of the graph, not by those that
  control takes: a value counts as used behind a Goto that control does not fall through
  (`LiveWays.PassedReadIsUsed`), and a local variable with the id 0 where a formal is read
  (`LiveWays.SharedIdIsUsed`). `DeadCode.ExactlyUseful` says exactly which definitions stay,
  and `LiveWays.OwnIdIsRead` when that is the same as being read.
* Copy propagation drops the link of the destination before it replaces operands, so an
  instruction that overwrites a copy still reads it (`CopyPropagation.OwnDestinationIsRead`).
* The generator does not give back the temporaries of comparisons, of element addresses
  and of return values (`GeneratorCounts.CountTest`, `CountExpr` and `CountStmt`), so
  later code cannot use them again.
* EVALUATION.txt:49-52 says that the registers of a function include those of its
  callees. The union at code_optimization.c:471-473 has no such effect, since
  color_graph resets the set at line 532; the model follows the code.

## Model

| member | source | states |
|---|---|---|
| Compilation.CompileFunction | code_optimization.c:50-67 | From a type-checked function body to optimized and allocated code, for every choice of enabled optimizations: whenever the body ends, the produced code makes the same calls with the same arguments, returns the same value and leaves the same globals and memory; whenever the body does not end, no run of the code ends, and within every number of rounds it makes the calls of the body, in order. With local optimization this asks that no character is widened, with global optimization that assigned variables have ids of their own, without them neither. The same holds of the code on registers, with any contents at the start, after calls and behind a Leave, if no stale node was taken, no variable that could get a register is read before it is assigned on the ways that control can take in the generated code, and no value is read behind a Leave from a register that it restores, which needs no check in functions that give nothing back; entries and ids of temporaries are established and not assumed. What the enabled passes must have done is part of the contract as well: every peephole rule applied, every copy in force used, exactly the definitions left whose values are used, and the registers a colouring of the interference graph of the final code that gives one to every variable with fewer than 16 neighbours |
| GeneratedAllowed.FunctionAllowed | code_generation.c:49-375 | The code that the generator makes meets the conditions under which the peephole pass preserves runs if and only if no assignment or return of the function puts a character of an array, or one that a function gives back, into an int place |
| GeneratedAllowed.FunctionWellFormed | code_generation.c:33-375 | Generated code has the operands that each operation needs, declarations of variables, arrays and functions before one Enter instruction, and jumps that lead to labels of the function |
| CopiedTypes.StmtCopies | code_generation.c:49-375 | The copies of temporaries in the code of a statement lose nothing if and only if no assignment or return of it widens a character |
| CharacterCopies.AssignmentIsExact | code_optimization.c:110-119 | For a function that assigns any expression to a global variable: the peephole pass keeps its behaviour on all machines if and only if the expression is no character of an array that goes to an int variable |
| CharacterCopies.CharacterIsNotCut | code_optimization.c:110-119 | For every such function `x = a[e]` with an int variable and an array of characters the pass changes the value that is left in the variable on a machine with bytes |
| CharacterCopies.WideningBreaks | code_generation.c:336-369 | The function `x = a[i]` passes the type checker and its code does not survive the pass |
| GeneratedIds.FunctionNumbered | symbol-table.c:351-364 | In the code of a function whose assigned variables have ids of their own, temporaries included all assigned ids are distinct and have a place in the sets of the analyses, and no variable that could get a register shares one |
| GeneratedIds.FunctionEntered | symbol-table.c:351-364 | All local operands of generated code are in the symbol table, and every id below the number of local variables belongs to one of them |
| GeneratedIds.StmtNumbers | symbol-table.c:351-364 | The code of a statement computes only its targets and temporaries that have entries and new, consecutive ids |
| Compilation.OptimizedComputes | code_optimization.c:50-67 | Whatever keeps the behaviour of the generated code returns with the effects of the body if that ends; if it does not end, the code never ends and makes the calls that the body makes |
| Divergence.FunctionDiverges | code_generation.c:33-375 | If the body of a function does not end, however many rounds its loops take, no run of its code ends, and the calls that the body makes within any number of rounds are made by the code, in order |
| Divergence.StmtLasts | code_generation.c:49-375 | If a statement does not end within a number of rounds of each loop, its code runs for at least as many steps and makes the calls made in these rounds |
| CodeOptimization.OptimizeInstructions | code_optimization.c:50-67 | Graph construction, then local, global and register optimization as enabled. The final code shows the same calls, arguments, globals, memory and result as the code given, if that meets the conditions of the peephole pass where local, and of ids where global optimization is enabled; if no stale node was taken and no id of an assigned variable is shared with a candidate, the allocation is safe, and if besides the code given reads no candidate before it is assigned and nothing is lost by a Leave, the runs on registers show the same as the code given. By Optimized and RegistersAssigned each enabled pass has done all of its work, stated on the lists before and after it and on the ways of the code |
| CodeOptimization.RulesStay | code_optimization.c:59-61 | With local optimization every Goto of the generated code to its next instruction, every assignment of a variable to itself, every repeated assignment, every copy of a temporary from the instruction before it and every Goto behind a test around it is dead at the end |
| CodeOptimization.DefinitionsAreUsed | code_optimization.c:240-244 | With global optimization every definition of a local variable that is alive at the end has its id used along a way of the final code, and the variable read there if it has an id of its own |
| InterferenceWays.AdjacentIsUse | code_optimization.c:412-523 | Two nodes of the graph that is coloured are adjacent if and only if in the final code one variable is assigned where the value of the other one is used along a way |
| CodeOptimization.OptimizeLocally | code_optimization.c:69-74 | Peephole optimization followed by copy propagation, the latter on the graph built before the former: every rule has been applied and every copy in force used, the graph still fits, ids and entries are carried over, and if the code met the conditions of the peephole pass, the observable behaviour is kept and no variable is read before its assignment that was not so before |
| CodeOptimization.OptimizeGlobally | code_optimization.c:240-244 | Dead code elimination leaves exactly the useful definitions and what register allocation needs, and if assigned variables have distinct ids with a place in the sets, it keeps the observable behaviour and makes no variable read before its assignment |
| CodeOptimization.PassesKeep | code_optimization.c:50-67 | Behaviour, early assignments, own ids and returns without values are carried through local and global optimization |
| FirstReads.PeepholeReads | code_optimization.c:76-127 | After peephole optimization no variable may be read before it is assigned, on the ways that control can take, that could not be before |
| FirstReads.PropagationReads | code_optimization.c:129-203 | Nor after copy propagation, although it puts roots in the place of copies |
| DeadCode.PassAddsNoReads | code_optimization.c:254-323 | Nor after a pass of dead code elimination, although it removes assignments |
| CodeOptimization.PeepholePrepares | code_optimization.c:50-96 | The graph built before peephole optimization still fits the rewritten code: blocks, coverage and table entries are as the later passes need them |
| CodeOptimization.PropagationPrepares | code_optimization.c:129-203 | Copy propagation leaves code that the later passes accept on the same graph |
| CodeOptimization.EliminationPrepares | code_optimization.c:246-323 | Dead code elimination leaves code that register allocation accepts on the same graph |
| CodeOptimization.AllocationBehaves | code_optimization.c:351-377 | If runs in memory and runs in registers have the same effects after every number of steps, they show the same, whatever the registers hold at the start |
| ControlFlow.StepPasses | code_translation.c:36-364 | A step of the machine stays, goes on to the next instruction or takes the jump, dead instructions being passed over |
| Semantics.RunAppends | instruction.h:12-28 | A run of n + k steps is a run of n steps followed by one of k steps |
| Semantics.LookupAfterUpdate | code_translation.c:411-441 | After a variable is written it holds the value fitted to its type and every other variable holds what it held |
| Behaviour.LockstepBehaviour | code_optimization.c:48-67 | If two lists show the same after every number of steps, they behave alike |
| Behaviour.SameBehaviourTransitive | code_optimization.c:50-67 | Passes that keep the behaviour can be chained |
| ControlFlow.BuildControlFlowGraph | control_flow.c:16-21 | The graph is the one of the code: blocks begin exactly at Enter, calls, jump targets and behind jumps and partition the instructions from Enter on, children are exactly the passings from block to block, parents mirror children, the last instruction of each block is recorded |
| ControlFlow.GraphBuilder.FindBlockLeaders | control_flow.c:28-82 | Exactly Enter, every call, every jump target and every instruction behind a jump lead a block, one block each |
| ControlFlow.GraphBuilder.UpdateBlocks | control_flow.c:90-136 | Every instruction joins the block of its predecessor unless it is a leader; the edges are exactly those of jumps and of falling through |
| ControlFlow.GraphBuilder.TreatInstruction | control_flow.c:95-133 | One round of the loop extends placement, edges and last instructions by one position |
| ControlFlow.GraphBuilder.CreateBlock | block.c:6-17 | A new block has the next id and no edges |
| ControlFlow.GraphBuilder.ConnectBlocks | block.c:19-35 | One edge is added at the front of both lists and the lists still mirror each other |
| ControlFlow.PassesGiveGraph | control_flow.c:28-136 | What the two passes leave behind is the graph of the code: blocks are ranges, and an edge stands for a possible passing and the other way round |
| ControlFlow.GraphCoversRuns | control_flow.c:90-136 | Every step of every run stays in its block or follows an edge |
| ControlFlow.EveryBlockReachable | control_flow.c:28-136 | Every block is reachable from the Enter block along edges |
| ControlFlow.OnlyEntryHasNoParents | control_flow.c:104-131 | Only the Enter block, which was created first, has no parents |
| Paths.ClosedHoldsArrivals | liveness_analysis.c:12-37 | Whatever satisfies the data flow equations holds everything that can arrive along a path |
| Paths.LeastIsExact | liveness_analysis.c:12-37 | A solution in which every element has a witness path is exactly the set of arrivals |
| Liveness.LivenessAnalysis.FindInAndOutLivenessSets | liveness_analysis.c:12-37 | The loop terminates, and v is in in[B] exactly when it has a place in sets made for the number of local variables and a path of the graph from B reaches a block that uses v upward-exposed with no block before it defining v; out[B] is the union of in over the children |
| Liveness.LivenessAnalysis.FindDefAndUseSets | liveness_analysis.c:44-109 | Every block gets the def and use sets of its backward scan, as far as their ids have a place in the sets |
| Liveness.LivenessAnalysis.SummarizeBlock | liveness_analysis.c:53-106 | The backward scan of one block computes its summary, as far as ids have a place in the sets |
| Liveness.LivenessAnalysis.GetInSetFromSuccessors | liveness_analysis.c:119-135 | The union of the in sets of the children |
| Liveness.FittingIsExact | liveness_analysis.c:12-37 | Where all ids of local operands have a place in the sets, the analysis is the least solution on all paths |
| Liveness.HeldOfFull | liveness_analysis.c:12-37 | Otherwise its sets are those of the least solution, cut to the ids that have a place |
| Liveness.SummaryIsExact | liveness_analysis.c:53-106 | use + (out - def) is what stepping backwards through the block instruction by instruction gives, for every out, although def drops variables that are also used and null assignments are skipped |
| Liveness.SummaryMeaning | liveness_analysis.c:53-106 | use holds exactly the variables read before any write in the block, and def those written that are not in use |
| Liveness.GraphCovers | control_flow.c:56-131 | The graph of the code covers it: wherever control can pass from an instruction to another one, the block goes on or has an edge |
| Liveness.StepIsCovered | liveness_analysis.c:12-37 | Whatever is live where a step leads is live behind the instruction, also where a jump has no edge of its own but only a detour |
| LiveWays.LiveExactly | liveness_analysis.c:12-109 | An id is live behind an instruction that is no jump if and only if a way of the code leads from the next one to an instruction that uses it and none on the way sets it; Return and Goto, too, may go on to the next instruction, as in the graph |
| LiveWays.OwnIdIsRead | liveness_analysis.c:44-109 | A variable with an id of its own that holds no address is used as an id exactly where it is read along a way |
| LiveWays.SharedIdIsUsed | symbol-table.c:232-241 | A variable whose id is that of a formal counts as used where the formal is read, although it is not read itself |
| LiveWays.PassedReadIsUsed | control_flow.c:104-131 | A value that control passes by counts as used, since the graph lets a Goto go on to the next instruction |
| Peephole.PeepholeKeepsCovers | code_optimization.c:50-96 | The direct jump of an inverted If has no edge in the old graph, but is covered through the block of the dead Goto |
| Peephole.DetourAppears | code_optimization.c:78-96 | Where a test is inverted its new jump is covered by an edge or by the detour through the block of the dead Goto |
| DeadCode.DoDeadCodeElimination | code_optimization.c:246-252 | The loop terminates because each round that goes on has marked a definition; an instruction is dead afterwards if and only if it was before, assigns a variable to itself, or defines a local variable whose id has no place in the sets or is used along no way of the resulting code; if assigned variables have distinct ids with a place in the sets, the code means the same as before from the function start |
| DeadCode.RemoveDeadInstructions | code_optimization.c:254-323 | One pass marks exactly the null assignments and the local definitions whose ids are not in the live set, which holds only ids with a place, and reports whether it marked a definition |
| DeadCode.RemoveInBlock | code_optimization.c:263-317 | The backward scan of one block marks exactly those and nothing else |
| DeadCode.PassPreservesMeaning | code_optimization.c:254-323 | Marking on the word of any solution of the liveness equations preserves calls, arguments, globals, memory and result after every number of steps; proved by a simulation in which stores agree on live variables |
| DeadCode.MarkedInstructionAgrees | code_optimization.c:268-314 | One instruction, executed before and skipped after it is marked, keeps the stores in agreement on what is live |
| DeadCode.NoneRemovable | code_optimization.c:246-252 | When a pass marks no definition, none is removable on the liveness of the resulting code |
| DeadCode.NoPlaceIsDead | code_optimization.c:246-323 | When the pass is done, every definition of a variable whose id has no place in the sets is marked, whether its value is read or not |
| SharedIds.SharedIdBreaks | symbol-table.c:232-241 | For any two local variables that share an id, the second of them no address, and sets of any size in which the id has a place: on a list that assigns both and returns the first, the pass meets everything else it takes for granted, marks an assignment that matters and changes the meaning |
| SharedIds.IdsDecide | code_optimization.c:254-323 | With sets made for n elements, dead code elimination is right for all lists that assign variables out of a set if and only if no two of them share an id, two addresses apart, and every id is below 32 * ((n + 31) / 32) |
| SharedIds.FormalsDecide | code_optimization.c:254-323 | With the ids as the compiler gives them, formals 0 and others below the number n of local variables: the pass is right if and only if assigned variables have ids of their own and either 0 < n or no formal is assigned |
| SharedIds.NoPlaceBreaks | set.c:14-24 | For any variable whose id has no place in the sets, the pass marks all assignments of it in a list that returns its value, and changes the meaning |
| SharedIds.FormalIsLost | code_optimization.c:300-310 | In a function whose only variables are the formals x and y, the pass marks the assignment in `x = y; g(x);` and so changes the argument |
| SharedRegisters.RegisterIdsDecide | code_optimization.c:351-377 | Register allocation is right for all lists over a symbol table if and only if no variable that could get a register shares its id with another assigned one that is no address |
| Lists.Remove | symbol-table.c:497-514 | Removal from a list of variables that holds the element takes out its first occurrence |
| CopyPropagation.CopyLinks.AttachVariableToOriginal | code_optimization.c:213-217 | A new copy of a root is linked and the links stay consistent: chains have depth one, copied_from and copied_to are inverse, propagated_vars holds each original at least as often as it has copies |
| CopyPropagation.CopyLinks.DetachVariableFromOriginal | code_optimization.c:219-225 | One link goes, list removal finds its elements, and the links stay consistent |
| CopyPropagation.CopyLinks.DetachCopiesFromOriginal | code_optimization.c:227-238 | All links to an original go, and the links stay consistent |
| CopyPropagation.CopyLinks.ClearPropagatedVars | code_optimization.c:205-211 | Clearing ends, and no link is left |
| CopyPropagation.CopyLinks.PropagateInstruction | code_optimization.c:139-193 | One instruction is rewritten to roots, a redundant assignment is marked dead, and the links become those after the instruction; no operand that is left is still linked, and a copy reads the original that it is linked to |
| CopyPropagation.DetachKeepsConsistent | code_optimization.c:219-225 | Consistency of the three lists survives a detachment |
| CopyPropagation.CopyIsListed | code_optimization.c:205-238 | A linked variable is in the list of its root, its root is in propagated_vars, and it has no copies itself, so no list removal fails |
| CopyPropagation.DoCopyPropagation | code_optimization.c:129-203 | Every live instruction has the roots of its operands, with the links of its own block; in terms of the lists alone: an assignment dies if and only if copies in force make both sides the same, an operand is replaced by its original if and only if it is a copy in force behind the instruction, and no such copy is read any more |
| CopyPropagation.LinksAreCopies | code_optimization.c:139-193 | The links that the pass keeps are exactly the copies in force in the list that it makes: a live assignment of the block from a variable of the same type, with no live instruction behind it that has one of both as destination |
| CopyPropagation.OwnDestinationIsRead | code_optimization.c:160-194 | An instruction that overwrites a copy itself still reads the copy, because its link goes before operands are replaced |
| CopyPropagation.PropagationRun | code_optimization.c:129-203 | After every number of steps original and propagated code are in the same state, so stores, parameters, calls and return values are the same |
| CopyPropagation.LinksFollow | code_optimization.c:139-193 | At every point of a run a linked variable and its root have equal types and hold equal values |
| CopyPropagation.LinksHoldAfter | code_optimization.c:160-193 | An instruction keeps the linked variables equal to their roots under the links that are left after it |
| CopyPropagation.RewrittenDoesTheSame | code_optimization.c:139-178 | Where linked variables are equal, the rewritten instruction has the effect of the original one |
| Peephole.RunPeepholeOptimization | code_optimization.c:76-127 | The forward pass over the list that it changes yields the closed form, and every rule has been applied exactly where the list before the pass calls for it: which instructions are dead, which destinations, tests and targets have changed, and nothing else |
| Peephole.PeepholeBehaves | code_optimization.c:76-127 | Under the stated conditions the pass keeps the behaviour of every run |
| Peephole.PassIsStages | code_optimization.c:76-127 | The pass is the same as removing repeated assignments, then bypassing temporaries, then treating jumps |
| PeepholeRules.IdleDies | code_optimization.c:83-103 | Removing a jump to the next instruction or a null assignment changes no run |
| PeepholeRules.RepeatDies | code_optimization.c:102-108 | Removing an assignment that the next instruction repeats keeps the behaviour if the next one overwrites it |
| PeepholeRules.InversionBehaves | code_optimization.c:84-96 | Replacing "if c goto L1; goto L2; L1:" by the inverted test keeps the behaviour, although runs differ in length |
| PeepholeRules.InvertedCompares | instruction.c:160-183 | The inverted operator holds exactly when the operator does not |
| TemporaryBypass.BypassBehaves | code_optimization.c:110-119 | Computing into the variable instead of the temporary, at all places at once, keeps the behaviour if the value of the temporary is not read later |
| PeepholeLimits.RepeatIsExact | code_optimization.c:102-108 | An assignment followed by one with the same destination and source may be dropped on every machine and state exactly if it is a null assignment or the second one overwrites what it wrote |
| PeepholeLimits.BypassTypesAreExact | code_optimization.c:110-119 | A copy through a temporary is transparent on every machine exactly if the types are equal or the temporary is an integer |
| PeepholeLimits.PassCanBreak | code_optimization.c:110-119 | With a temporary that comes from a dead instruction, or is read again, the pass changes the result of a function; neither input violates another condition |
| Graphs.InterferenceGraph.AddNode | graph.c:23-36 | The node enters the graph without neighbours, and the graph stays consistent |
| Graphs.NodeAdded | graph.c:23-36 | A consistent graph stays one when a node comes in front whose neighbor_set is empty, as create_graph_node leaves it |
| LinkedLists.LinkedList.AddFirst | graph.c:44-62 | A new first item, with the backward pointer of the old one set |
| LinkedLists.LinkedList.RemoveNode | graph.c:76-105 | On the doubly linked list of a node the first item of the neighbour goes, which is what the sequences of the graph lose, although taking off the head leaves a stale backward pointer |
| LinkedLists.LinkedList.SpliceOut | graph.c:88-101 | An item behind the first one is spliced out by its own pointers, whose backward one is valid there |
| Graphs.InterferenceGraph.AddEdge | graph.c:38-65 | The edge is added once and in both directions; adjacency stays symmetric, irreflexive and without duplicates, and num_neighbors stays the list length |
| Graphs.InterferenceGraph.RemoveNode | graph.c:67-131 | Exactly the node and its incident edges leave the graph, and neighbor_set keeps the original graph |
| Graphs.NodeRemoved | graph.c:67-131 | The lists of a graph with one node spliced out are those of the graph without it |
| Heaps.Heap.Heapify | heap.c:21-62 | The entries stay the same as a multiset, and what was a heap but for the entry that may have to sink becomes a heap |
| Heaps.Heap.BuildHeap | heap.c:64-68 | Any array becomes a heap with the same entries |
| Heaps.Heap.ExtractRoot | heap.c:70-81 | Takes out one entry; from a heap it takes one that is at least as good as all others and leaves a heap |
| Heaps.RootIsBest | heap.c:64-81 | The root of a heap is at least as good as every entry |
| Heaps.SinkingKeepsAlmostHeap | heap.c:21-62 | One exchange with the better child moves the only place that may be out of order one level down |
| RegisterColoring.ColoringPass.ColorGraph | code_optimization.c:527-645 | The method ends; if no stale node was taken, every node was removed once and the result is a colouring as described by Coloring.ColoringOf, each register being the least that neighbours and preferences leave; a stale node is taken only on a graph with the layers that make one possible (StaleNodes.HasLayers); with the removal of promoted nodes from nodes_to_spill none is ever taken |
| RegisterColoring.ColoringPass.ColorNext | code_optimization.c:564-611 | Takes the node of highest cost if the heap is in order, gives it the least free preferred register or else the least free one, and moves full neighbours to the heap, which never exceeds its capacity |
| RegisterColoring.ColoringPass.AdvanceNeighbors | code_optimization.c:589-605 | Every neighbour avoids the register, and exactly the full ones enter the heap of nodes to colour and, if asked for, leave nodes_to_spill |
| RegisterColoring.ColoringPass.FindNodeToSpill | code_optimization.c:613-618 | Pops from the heap of nodes to spill until one is still in nodes_to_spill |
| RegisterColoring.ColoringPass.PrepareHeaps | code_optimization.c:538-557 | The nodes are divided by degree into the two heaps, which are in order |
| RegisterColoring.ColoringPass.ChooseRegister | code_optimization.c:568-587 | The register is the one that the stage picks: every smaller one is to be avoided, or is not preferred while it is |
| Coloring.PickMeaning | code_optimization.c:568-587 | A register is picked exactly if one is free, it is free, it is a preferred one if one of those is free, and it is the least of those |
| Coloring.ReachableInvariant | code_optimization.c:559-645 | Every reachable stage keeps the invariant: each remaining node is either to be coloured, with low degree, or to be spilled, with high degree; registers to avoid are at most as many as neighbours that left; coloured neighbours differ |
| Coloring.Progress | code_optimization.c:559-645 | While the graph is not empty one of the heaps is not empty, and every step shrinks graph or heap |
| Coloring.EmptyGraphIsColored | code_optimization.c:559-645 | With the graph empty: registers in range, adjacent nodes differ, every node of low degree has a register, preferred registers are used unless neighbours hold them, registers_used is exactly what was assigned |
| Coloring.FreeNodeIsLeast | code_optimization.c:568-587 | A node without neighbours gets the least of its preferred registers, or register 0 if it prefers none |
| Coloring.LowDegreeIsColored | code_optimization.c:573-587 | A node with fewer original neighbours than registers always finds one free |
| Coloring.SpilledHasLowestCost | code_optimization.c:613-625 | A spilled node has the least cost of all nodes that are left in the graph |
| Coloring.DroppingPreventsStale | code_optimization.c:637-639 | If spilling removed promoted nodes from nodes_to_spill as colouring does, no node outside the graph would be taken for spilling |
| StaleNodes.StaleHasLayers | code_optimization.c:637-639 | As the code is, wherever a node outside the graph is taken for spilling, the graph has two layers: a set whose nodes all have at least as many neighbours inside it as there are registers, in it two neighbours u and w, w with no more than that many, and another such set inside it without u |
| StaleNodes.StaleIsExact | code_optimization.c:637-639 | For every graph: it has such layers if and only if with some costs a stale node can be taken, and if and only if with some costs no run empties the graph without taking one |
| StaleNodes.LeavingBehindIsExact | code_optimization.c:637-639 | A run that empties the graph leaves a promoted node behind in nodes_to_spill if and only if some non-empty set of nodes has, for each of them, as many neighbours inside the set as there are registers |
| StaleNodes.TwoCliquesGoStale | code_optimization.c:637-639 | For every number of registers: two cliques with one node more than registers each, and costs rising by id, make a stale node unavoidable |
| StaleNodes.CliquesGoStale | code_optimization.c:637-639 | So do two such cliques with any preferred registers and any costs, as long as node 0 is cheapest and node 1 comes next |
| StaleNodes.SixteenRegistersGoStale | code_optimization.c:637-639 | With the 16 registers of the program a graph of 34 nodes does so |
| CliqueFunction.AllocateTwoGroups | code_optimization.c:351-377 | For a function of straight-line code with 34 variables the chain of graph construction, liveness, interference graph and colouring takes a stale node, whatever registers callees use |
| CliqueFunction.ExactlyGroupsInterfere | code_optimization.c:412-523 | In a function that assigns and then stores one group of variables, and then another one, exactly the variables of one group interfere, for groups of any size |
| CliqueFunction.CliqueCost | code_generation.c:570-582 | The costs that its mentions add up to make variable 0 cheapest and variable 1 next |
| Interference.InterferenceBuilder.CreateInterferenceGraph | code_optimization.c:379-410 | Exactly the local variables that are no arrays, addresses or formals become nodes, without edges: every local character, integer and truth value among them |
| Interference.InterferenceBuilder.CreateConnections | code_optimization.c:412-523 | The edges are exactly the interferences of a definition with what is live behind it, calls record what is live behind them, and a variable prefers exactly the registers that no callee uses while it is live (up to recursive calls) |
| Interference.InterferenceBuilder.ConnectBlock | code_optimization.c:425-519 | The backward scan of one block adds the conflicts of its instructions |
| Interference.InterferenceBuilder.ConnectInstruction | code_optimization.c:441-514 | What one instruction adds to edges, preferences and call records |
| Interference.InterferenceBuilder.LinkToLive | code_optimization.c:476-512 | The destination gets an edge to every other node that is live |
| Interference.LiveIsNow | code_optimization.c:432-519 | What liveness calls live is in live_now too, for everything but addresses |
| InterferenceWays.NowExactly | code_optimization.c:432-519 | live_now holds, for everything but addresses, exactly what is live and what a live assignment of a variable to itself reads further on in the block |
| RegisterAllocation.ColoringIsSafe | code_optimization.c:351-377 | A proper colouring of the interference graph is a safe allocation |
| RegisterAllocation.OptimizeRegisterAllocation | code_optimization.c:351-377 | Liveness, graph and colouring together: the graph poses a colouring problem with exact nodes, edges and preferences; if no stale node was taken the result is a colouring of it, and without the correction that is claimed only of a problem some run of which empties the graph; every variable that competes with fewer than 16 others has a register; the allocation is safe if assigned ids are not shared with candidates; and if besides no register variable is read before it is assigned and nothing is lost by a Leave, the runs in registers have the effects of the runs in memory after every number of steps |
| RegisterAllocation.LoneIsFirst | code_optimization.c:568-587 | A variable that no other one competes with, in a function without calls, gets register 0 |
| RegisterMachine.AllocationPreservesMeaning | code_optimization.c:351-377 | With a safe allocation every variable with a register that may still be read holds its value there at every step, and effects are equal, whatever calls leave in registers that are not saved and whatever the caller had in those that Leave restores, as long as nothing that is read behind a Leave is lost by it |
| RegisterMachine.InstructionMatches | code_translation.c:36-364 | One instruction on variables and on their registers keeps needed values equal; Leave restores the registers of the caller from the eighth on and loses what is in memory |
| RegisterMachine.AllocatedStep | code_translation.c:36-364 | One step on both sides, Leave included, keeps the values equal that may still be read |
| SavedRegisters.LeaveDecides | code_translation.c:633-651 | The function `x = 5; return x;` is right on registers if and only if no register of the caller has to be restored or x is in a register that is not restored |
| SavedRegisters.AllocatedReturnIsRight | code_translation.c:633-651 | The allocator gives the only variable of that function register 0, so that it is right on registers |
| LeavingCode.FunctionReturnsNothing | code_generation.c:175-193 | In the generated code of a function without return values nothing is read behind a Leave |
| LeavingCode.TemporariesEarly | code_generation.c:49-375 | No temporary of generated code is read before it is computed, on the ways that control can take |
| Dominators.DominatorAnalysis.FindDominators | control_flow.c:138-175 | The loop ends although it stops at the first block without parents, and the sets are determined exactly for whatever set create_full_set yields |
| Dominators.DominatorAnalysis.GetDominatorsFromPredecessors | control_flow.c:186-201 | The intersection of the sets of the parents |
| Dominators.DominatorsOfFunction | control_flow.c:138-175 | For the graph of a function with a number of blocks + 1 that is no multiple of 32, each set is exactly the blocks that stand on every path from the Enter block |
| Dominators.DominatorsExactly | control_flow.c:138-175 | The sets are the dominators if and only if every block that create_full_set leaves out and that dominates another one is met on every walk back along parents |
| Dominators.SolutionDominates | control_flow.c:138-175 | Members of any solution of the equations dominate |
| Dominators.RowIsWrong | control_flow.c:138-175 | With 31 blocks in a row, where the set has 32 places and comes out empty, the sets are wrong |
| Dominators.RowHasFunction | control_flow.c:16-21 | That row is the graph of a list of 32 instructions |
| Dominators.BuiltGraphIsRooted | control_flow.c:104-131 | The graph of a function is as the analysis needs it: only block 0 has no parents and every block is reachable |
| ReachingDefinitions.ReachingDefinitionsAnalysis.FindInAndOutDefSets | reaching_definitions_analysis.c:14-37 | The loop ends, and out holds exactly the definitions with a path to the block end on which no block kills them |
| ReachingDefinitions.ReachingDefinitionsAnalysis.FillDefinitions | reaching_definitions_analysis.c:85-105 | The definitions of a variable are the positions that redefine it |
| ReachingDefinitions.ReachingDefinitionsAnalysis.FindGenAndKillSets | reaching_definitions_analysis.c:44-77 | Every block gets the gen and kill sets of its forward scan |
| ReachingDefinitions.SummaryIsExact | reaching_definitions_analysis.c:50-73 | gen + (in - kill) is what stepping forwards through the block gives, for every in |
| ReachingDefinitions.GenKillMeaning | reaching_definitions_analysis.c:50-73 | gen holds exactly the last definitions in the block, and kill the other definitions of variables that the block defines |
| ReachingDefinitions.BuiltGraphHasShape | control_flow.c:28-136 | The graph of the code is as the analysis needs it |
| FrameLayout.Frame.FillLocalAllocations | symbol-table.c:451-465 | Every local that is no formal, in every bucket chain, gets a place of one byte for each character or truth value and four for anything else, times the elements of an array; places are disjoint and inside [-total, 0), 4-byte entries are 4-aligned, the total is exact and a multiple of 4 |
| FrameLayout.ElementsLieInside | symbol-table.c:422-449 | The bytes of every array element, at the address that an array access computes, lie in the place of the array, which ends with the last one |
| FrameLayout.Frame.Allocate | symbol-table.c:422-449 | One pass places exactly the entries of one size and returns the offset behind them |
| FrameLayout.AlignedMeaning | symbol-table.c:455-461 | The offset is rounded up to the next multiple of 4 and by less than 4 |
| BitSets.BitSet.AddToSet | set.c:42-46 | The bit operations add exactly the element |
| BitSets.BitSet.RemoveFromSet | set.c:48-52 | The bit operations remove exactly the element |
| BitSets.BitSet.DoesElementBelong | set.c:115-121 | The bit test decides membership |
| BitSets.BitSet.AreEqual | set.c:54-66 | Words are equal exactly if the sets are |
| BitSets.BitSet.IsEmpty | set.c:105-113 | All words are zero exactly if the set is empty |
| BitSets.UnifySets | set.c:68-76 | The set union, in a new set |
| BitSets.IntersectSets | set.c:78-86 | The set intersection, in a new set |
| BitSets.DiffSets | set.c:88-96 | The set difference, in a new set |
| BitSets.CloneSet | set.c:98-103 | A new set with the same elements |
| BitSets.CreateFullSet | set.c:26-40 | The loops over words and shifts yield all elements below the size, or, for a multiple of 32, all but the last 32 |
| BitSets.FullSetIsExact | set.c:28-37 | create_full_set yields all elements below a positive size if and only if the size is no multiple of 32 |
| BitSets.SameElements | set.c:54-66 | Two word lists of the same length stand for the same set exactly if they are the same |
| BitSets.ElementAdded | set.c:42-46 | Setting one bit of one word adds exactly one element |
| BitSets.NeighborSetHoldsIds | set.c:14-24 | The neighbor_set of a graph with n ids, made for n - 1 elements, has a place for every id if and only if n - 1 is no multiple of 32 |
| BitSets.PlacesAreExact | set.c:14-24 | A set made for n elements has a place exactly for the elements below 32 * ((n + 31) / 32) |
| CodeGeneration.CodeGenerator.CreateTemporary | symbol-table.c:351-364 | A free temporary of the type, or, exactly if there is none, a new one with the next id |
| CodeGeneration.CodeGenerator.FreeTemporary | symbol-table.c:366-383 | The temporary becomes the first free one of its type |
| CodeGeneration.CodeGenerator.GetFreeTemporary | symbol-table.c:319-349 | The first free temporary of the type, if there is one |
| TemporaryPool.CreatedIsPending | symbol-table.c:319-364 | A temporary that is handed out was available, has the type, and is not available any more |
| TemporaryPool.CreatedReuses | symbol-table.c:319-364 | A new entry is made if and only if no temporary of the type is free; otherwise there is one free temporary less |
| GeneratorCounts.StmtCounts | code_generation.c:49-375 | The code of a statement has exactly the instructions that its constructs call for, and all temporaries are given back but for addresses of elements, operands of comparisons and values of return statements |
| GeneratorCounts.FunctionCounts | code_generation.c:33-375 | The number of instructions of a function, and of temporaries that are never given back, by its body |
| TemporaryPool.FreedIsAvailable | symbol-table.c:366-383 | Giving back a pending temporary keeps the pool sound and every other pending temporary pending |
| TemporaryPool.RetypedIsSame | code_generation.c:336-369 | Writing the element type into the entry of an address changes nothing about which temporaries are available or pending |
| Arguments.ArgumentsPool | code_generation.c:377-392 | The values of arguments are in variables, arrays, or temporaries that differ from each other |
| CodeGeneration.CodeGenerator.GenerateExpression | code_generation.c:49-228 | Code, place and pool are those of GenExpr, for expressions without calls and strings |
| CodeGeneration.CodeGenerator.GenerateBinary | code_generation.c:394-417 | Operands in order, the result in a temporary that is taken before theirs are given back |
| CodeGeneration.CodeGenerator.GenerateAddress | code_generation.c:336-369 | The address of an element in a temporary that is taken after that of the index is given back |
| CodeGeneration.CodeGenerator.GenerateTest | code_generation.c:419-483 | Code and pool are those of GenTest |
| CodeGeneration.CodeGenerator.GenerateStatement | code_generation.c:49-375 | Code and pool are those of GenStmt |
| CodeGeneration.CodeGenerator.GenerateArguments | code_generation.c:377-392 | The loop over the arguments yields their code, one behind the other, and their places |
| CodeGeneration.CodeGenerator.GenerateParams | code_generation.c:128-151 | The loop puts parameters from right to left and gives temporaries back from left to right |
| CodeGeneration.CodeGenerator.GenerateCall | code_generation.c:122-164 | Arguments, parameters, the call and the retrieval of its value into a temporary that is taken after those of the arguments are given back |
| GeneratedRuns.ExprRuns | code_generation.c:49-228 | The code of an expression leaves its value in its place and changes no temporary that is pending |
| GeneratedRuns.ExprPool | code_generation.c:49-228 | The place of a value is a variable or a temporary that was available and is pending now |
| GeneratedRuns.BinaryPool | code_generation.c:394-417 | The temporary of a result differs from those of its operands, which are pending and differ from each other |
| StatementRuns.TestRuns | code_generation.c:419-483 | The code of a test reaches label_true exactly when the test is true and label_false otherwise, with the variables unchanged |
| StatementRuns.StmtRuns | code_generation.c:49-375 | Whenever a statement ends, the run of its code comes to its end, or returns with the same value, having made the same calls and with the same variables and memory |
| StatementRuns.LoopRuns | code_generation.c:268-334 | A loop in the code ends where the loop of the syntax tree ends, round by round, or returns where that returns |
| StatementRuns.InvokeRuns | code_generation.c:122-164 | The code of a call passes the values of the arguments from right to left, calls the function with the globals and memory of the syntax tree, and leaves the value, fitted to the type of the function, in the target |
| StatementRuns.ExitRuns | code_generation.c:175-193 | The code of a return statement ends the run with the value fitted to the type of the function |
| Arguments.ArgumentsRun | code_generation.c:377-392 | After the code of all arguments every one of them still has its value in its place |
| GeneratedFunctions.ReturnExec | syntax-tree.c:673-695 | The body with the appended return statement ends as the body does, and returns without a value where that comes to its end |
| StatementRuns.BranchRuns | code_generation.c:230-266 | Then part and else part, by the value of the test |
| GeneratedLabels.StmtLabels | code_generation.c:49-375 | Labels of a statement are new, stand once each, and all its jumps lead to them |
| GeneratedShape.StmtShape | code_generation.c:49-375 | Every temporary that is read has been computed shortly before in straight-line code, addresses are written through only by their own store, and a value is copied to a temporary only to be returned by the next instruction |
| GeneratedFunctions.FunctionRuns | code_generation.c:33-375 | Whenever the body of a function ends, the run of its code returns with the same value, calls, globals and memory |
| GeneratedFunctions.FunctionLabels | code_generation.c:33-375 | In the code of a function every label stands once, and every jump has its label |

## Left out

- Compilation.CompileFunction: behaviour is claimed with local optimization only where no character is widened (`StmtFits`), and with global optimization only where assigned variables have ids of their own (`TargetsApart`), since the passes are wrong otherwise; callees are functions of their arguments, the globals and the memory that always return.
- Compilation.CompileFunction: on registers it asks besides that the generated code reads no variable that could get a register before it is assigned, which for temporaries is proved, and that no value is returned or, in the final code, nothing read behind a Leave is lost by it; otherwise the program reads what happens to be in a register or in memory.
- Compilation.CompileFunction: takes from the symbol table that the variables of the program have their entries (`ProgramFits`); names, scopes and hash chains are not part of this model.
- CodeGeneration.CodeGenerator.GenerateExpression: leaves out calls inside of larger expressions and string constants; the code reads an operand that is a variable after such a call, so its meaning would turn on what the callee changes.
- CodeGeneration.CodeGenerator.GenerateStatement: a call is a statement of its own or the right side of an assignment to a variable, not to an array element or in a test.
- CharacterCopies.AssignmentIsExact: is about functions with one assignment to a global variable; for all other bodies the condition is exact for the conditions of the pass, not for its effect.
- RegisterAllocation.OptimizeRegisterAllocation: equal effects are claimed where no variable with a register is read before it is assigned, since such a variable would read whatever the register holds, and where a Leave loses nothing that is read behind it.
- RegisterMachine.InstructionMatches: behind a Leave that restores registers a read of a variable in memory gives an arbitrary value; that the frame pointer is moved by a certain number of bytes is not part of this model.
- RegisterColoring.ColoringPass.ColorNext: claims nothing of the cost right after a spill, because the heap of nodes to colour is not put in order again there (code_optimization.c:638).
- Interference.InterferenceBuilder.CreateConnections: where a variable is live over a recursive call, preferences are only bounded, since they depend on the order in which calls are met.
- Peephole.PeepholeBehaves: takes for granted that an int loses nothing that a char would keep (`IntIsWidest`).
- BitSets.UnifySets: asks for sets made for the same size, as all callers have; an undefined set, which has no mask, is not modelled, and an access to the word of an element without a place, which the program does not prevent, finds the element absent.
- ReachingDefinitions.ReachingDefinitionsAnalysis.FindInAndOutDefSets: a definition is numbered by its position in the list.
- Dead instructions stay in the list and are passed over, as the translation passes over them; unlinking does not happen in the program either.
- Pointers between instructions, blocks, nodes and symbols are positions, ids and symbol values; allocation and freeing of memory are not modelled.
- Symbols are values with a key that identifies the entry; the element type that is written into a reused address temporary is part of the value.
- Memory is separate from scalar variables: out-of-bounds array accesses that hit a variable are not modelled.
- Collection of usage costs with loop frequencies: costs are given as numbers, but for the straight-line function of `CliqueFunction`.
- Println as a predefined function.
- generate_function_code appends code through the head and tail pointers of tree nodes; here methods return the code.
- MIPS text, register names, the stack and the calling convention: a call leaves arbitrary values in all registers but those recorded as live, and a Leave restores what the caller had.
- get_boolean_comp_type and the accessors of syntax trees: each is settled by reading one branch.
- The scanner, the parser, error messages, printing, flags and timers.
- stack.c, which is not used, and lookup in the hash table.
