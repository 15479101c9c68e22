# Verified model of the SSA optimizer, the register allocator and the reference IR builder

This project models seven components of a small compiler for the language C-minus-f, and proves what
they compute, for all inputs and all runs:

* **Dominators** (`src/optimization/Dominators.cpp`): post-order numbering, the iterative
  immediate-dominator algorithm, dominance frontiers, the dominator tree.
* **Mem2Reg** (`src/optimization/Mem2Reg.cpp`): phi placement by worklist, renaming over the dominator
  tree with one stack per variable.
* **LoopSearch** (`src/optimization/LoopSearch.cpp`): Tarjan's algorithm, run again and again on a graph
  that loses the base of every component found, to discover nested loops.
* **RegAlloc** (`src/codegen/regalloc.cpp`): numbering of blocks, live intervals, linear scan with expiry
  and spilling over two register classes.
* **PhiElim** (`src/codegen/phi_elim.cpp`): phis back into stack slots.
* **ActiveVars** (`src/optimization/ActiveVars.cpp`): the liveness analysis with its filter on phi operands.
* **The reference builder** (`src/cminusfc/builder_ta.cpp`): syntax trees into basic blocks.

Each component is a class whose fields and methods are those of the C++ class (`Dominators`, `Mem2Reg`,
`LoopSearch`, `RegAlloc`, `PhiElim`, `ActiveVars`, `Builder`). The theory that its loops rely on, and the
theorems about the results, stand beside it in modules of their own. Blocks, values and registers are
numbers; a control-flow graph holds successor and predecessor lists that agree with each other.

## How it is organised

| files | contents |
|---|---|
| Cfg, IdomTheory, SweepTheory, PostOrder, FrontierTheory, Dominators | dominance defined on trails; why one sweep after another reaches exactly it |
| Ssa, RenameSpec, PromotionProof, PhiPlacement, RenameTheory, RenameOrder, PromotionShape, Mem2Reg, Promotion | an SSA machine with undefined values, the simulation between memory and registers, iterated frontiers, when renaming meets an empty stack, what stays in the code, the pass itself |
| Components, TarjanTheory, LoopNest, LoopSearch | components by reachability, the search invariant, nesting of loops under removal of bases |
| ScanTheory, RegisterTheory, ScanLimits, ScanOrigins, ScanTrace, BlockOrder, LiveIntervals, StackFrame, RegAlloc, ScanPrograms | exchange argument, register pools, the scan without registers and what it says of shortage, which interval each register was first taken for, why the allocator follows both, coverage of liveness, stack slots, the pass, programs on which it falls short |
| PhiElimTheory, PhiElim, Passes | the simulation between phis and slots, the allocation of the slots, the pass, promotion followed by it |
| Liveness, ActiveVars | textbook liveness, the equations, the passes over the blocks |
| Sizes | cardinality of subsets |
| Cminus, BlockCode, BuilderSpec, BuilderGrowth, BuilderProof, BuilderStmtProof, IndexSafety, BuilderTypes, BuilderStmtTypes, Builder | big-step source semantics, a machine for blocks, the emitted code, block discipline, simulation, tested indices, types of the emitted code, the visitor |

## What was found about the code

The following promises hold only on a condition. Each condition is proved to be the exact one, and for each
there is a concrete input that fails it.

* The runner of the dominance-frontier walk stops exactly if the predecessor and the join are both reachable
  or both unreachable (`WalkStopsIff`; it never stops in `StrayRunsForEver`). A back edge to the entry block
  never puts the entry block into its own frontier, nor, if it is the only edge there, into any
  (`FrontierGuard`, `EntryMissing`).
* Renaming takes the back of a stack that exists and may be empty, since an earlier block has pushed and
  popped. Given the addresses of the blocks, by which children are visited, it succeeds exactly if no block
  with an uncovered load or phi edge is entered after a block that defines the variable (`Promote`). It
  succeeds for all addresses exactly if every such block dominates all definitions of the variable
  (`SafeWhen`). In `PromoteBranches` the order decides. It always succeeds when every variable is stored in
  the entry block first (`EntryCovers`).
* `find_loop_base` can return null, which its caller dereferences; the search completes exactly if every
  component with two or more blocks has an entry from outside (`LoopSearch.Run`; not so in `NoBase`), which
  holds for functions whose blocks are reachable from an entry without predecessors (`ReachableGraphEntered`).
* A spill hands the register of the interval it drops to the new one, whatever its class. Which intervals are
  kept (`Kept`), who takes over from whom (`Passed`), and so the interval a register was first taken for
  (`Origin`), depend on the intervals alone. Some value is left without a register exactly if at the start of
  some interval fewer than fourteen are active, but the active ones whose origin is of its class, with the
  used arguments of that class, are fifteen or more (`AnyStarved`). Every unspilled value has a register of
  its own class exactly if no interval starves so and each kept one has an origin of its own class
  (`UnspilledRight` in `LinearScanRegisterAllocation`). In `AllocateMixed` a float keeps an integer register;
  in `BackToItsClass` one gives it back, and all is well.
* In two cases this comes down to counting. If at most fourteen intervals meet anywhere, some value is left
  without a register exactly if somewhere the values of a class, with the used arguments of that class, are
  more than fifteen (`FitsShort`). If all values are of one class, spills or not, that is so exactly if two or
  more arguments of the class are used besides (`OneClassShort`), and all registers are of that class
  (`OneClassRight`). `AllocateRow` runs out for fourteen values next to two arguments, and for thirteen next
  to three.
* A spilled value's slot begins its own size below the frame pointer, wherever other slots are, so that any two
  spilled values share bytes (`SpilledOverlap`), with each other and with the saved registers. The slots are
  sound exactly if nothing is spilled, that is, if every interval is kept (`FrameSound` in `RegAlloc.Run`).
* Emitted code is well-typed exactly if pointers are only passed where pointers to the same are expected, and
  only void functions have a `return` without value, as far as it can be reached (`WellTypedWhen`); the builder
  checks neither (`WrongPointer`, `BareReturn`).
* Promotion deletes the allocas of all int and float variables, but not the loads before which no definition
  comes; these then load from a slot that is no longer there (`MemoryGone` and `StorageKept` in `Promote`).
* The liveness loop starts with `changed` false and looks at live-out sets only: its result solves the
  data-flow equations if and only if some use flows from a block to one listed before it, or none flows at all
  (`EnoughPasses` in `ActiveVars.Run`; not so in `AnalyseBackward`, where a live value is missed). Then
  exactly those values are found that have a live walk to an exposed use on which the filter passes every edge
  (`Computes`). A solution is exact on every edge if and only if the phis are separate (`FilterExact`;
  `SwapMissed` is a loop that swaps two values).

## Model

| member | source | states |
|---|---|---|
| Cfg.DominatesPred | src/optimization/Dominators.cpp:92-141 | a strict dominator of a block dominates each of its predecessors, on the definition by all trails from the entry |
| PostOrder.AllNumbered | src/optimization/Dominators.cpp:71-90 | when the depth-first visit of the entry has ended, exactly the reachable blocks are numbered, differently, the entry highest, and each block below its tree parent |
| PostOrder.ReversedDescends | src/optimization/Dominators.cpp:71-78 | the reversed order lists all numbered blocks by falling number |
| IdomTheory.ChainInTree | src/optimization/Dominators.cpp:92-141 | every idom chain stays on the path to the root of the depth-first tree |
| IdomTheory.SoundUpdate | src/optimization/Dominators.cpp:134-138 | one assignment to the idom map that keeps the strict dominators of the block keeps every dominator of every block on its chain |
| IdomTheory.FixpointExact | src/optimization/Dominators.cpp:100-140 | a sound map in which each idom is on the chains of all predecessors has as chains exactly the sets of dominators |
| IdomTheory.ExactIsImmediate | src/optimization/Dominators.cpp:92-141 | then each entry is the immediate dominator |
| IdomTheory.ImmediateUnique | src/optimization/Dominators.cpp:92-141 | and no other block is |
| SweepTheory.MidStep | src/optimization/Dominators.cpp:105-139 | replacing one idom by the meet of the predecessors' chains keeps the invariant of a sweep: sound, inside the tree, nested, never moving down |
| SweepTheory.LinkRises | src/optimization/Dominators.cpp:124-138 | a recomputed idom has a number at least as high as before |
| SweepTheory.ChainAntitone | src/optimization/Dominators.cpp:100-140 | as idoms rise, chains only lose members |
| SweepTheory.MidEnd | src/optimization/Dominators.cpp:100-140 | a finished sweep leaves a map the next one can start from, complete, and a fixpoint if nothing changed |
| SweepTheory.GapShrinks | src/optimization/Dominators.cpp:100-140 | the sum of distances to the root strictly falls when some idom changes, so the sweeps end |
| SweepTheory.ClimbStep | src/optimization/Dominators.cpp:146-158 | climbing from the lower block changes nothing about the common ancestors |
| DominatorAnalysis.Dominators.PostOrderVisit | src/optimization/Dominators.cpp:80-90 | visits what is reachable and unvisited, ends by numbering its block, keeps the search invariant |
| DominatorAnalysis.Dominators.CreateReversePostOrder | src/optimization/Dominators.cpp:71-78 | the order and the numbering describe the reachable blocks and a depth-first tree |
| DominatorAnalysis.Dominators.Intersect | src/optimization/Dominators.cpp:144-160 | returns the block whose chain is the intersection of the two chains; neither assertion can fail |
| DominatorAnalysis.Dominators.NewIdom | src/optimization/Dominators.cpp:112-133 | finds a predecessor with an idom, and returns the meet over all that have one |
| DominatorAnalysis.Dominators.Sweep | src/optimization/Dominators.cpp:104-139 | reports a change exactly when the map changed, then with a smaller gap; without one the map is a fixpoint |
| DominatorAnalysis.Dominators.CreateIdom | src/optimization/Dominators.cpp:92-141 | terminates with idom chains that are exactly the dominators |
| FrontierTheory.WalkStopsIff | src/optimization/Dominators.cpp:170-175 | the runner meets the idom of the join exactly if predecessor and join are both reachable or both not |
| FrontierTheory.StrayRunsForEver | src/optimization/Dominators.cpp:170-175 | a join of three blocks with an unreachable predecessor, from which the runner never meets the idom |
| FrontierTheory.EntryMissing | src/optimization/Dominators.cpp:166-177 | two graphs with a back edge to the entry block, which is in the dominance frontier by definition but not in the computed one |
| FrontierTheory.FrontierExact | src/optimization/Dominators.cpp:162-179 | b is put into the frontier of x exactly if x dominates a predecessor of b and does not strictly dominate b, but for the entry block, which never gets into its own |
| FrontierTheory.ResultsCorrect | src/optimization/Dominators.cpp:5-27 | exact chains and all walks give correct immediate dominators and frontiers; of unreachable blocks, the frontier is the unreachable joins they lead to |
| DominatorAnalysis.Dominators.WalkFrontier | src/optimization/Dominators.cpp:168-176 | adds the join to the frontiers of exactly the blocks between predecessor and idom, and ends |
| DominatorAnalysis.Dominators.JoinFrontier | src/optimization/Dominators.cpp:166-177 | the same for all predecessors of one join |
| DominatorAnalysis.Dominators.CreateDominanceFrontier | src/optimization/Dominators.cpp:162-179 | the frontiers are those that the walks of all joins give |
| DominatorAnalysis.Dominators.CreateDomTreeSucc | src/optimization/Dominators.cpp:181-192 | children are exactly the blocks whose idom is the parent; blocks without idom go to null |
| DominatorAnalysis.Dominators.Run | src/optimization/Dominators.cpp:5-27 | immediate dominators, frontiers and tree are all correct |
| PhiPlacement.WorkDone | src/optimization/Mem2Reg.cpp:56-75 | when the growing worklist is used up, the blocks with a phi are the iterated frontier of the stores |
| Mem2RegPass.Mem2Reg.PlacePhis | src/optimization/Mem2Reg.cpp:56-75 | terminates with exactly one more phi for the variable in front of each block of the iterated frontier, and none elsewhere |
| Mem2RegPass.Mem2Reg.CollectStores | src/optimization/Mem2Reg.cpp:29-50 | the variables with stores, each with exactly the blocks that store it |
| Mem2RegPass.Mem2Reg.GeneratePhi | src/optimization/Mem2Reg.cpp:26-77 | every block has one phi for each variable whose iterated frontier contains it |
| Mem2RegPass.Mem2Reg.PushBlockPhis | src/optimization/Mem2Reg.cpp:83-91 | the stacks are those from above with the phis on top |
| Mem2RegPass.Mem2Reg.RenameBlock | src/optimization/Mem2Reg.cpp:93-121 | loads are replaced by the tops of stacks, stores pushed; what stays is the renamed code, whose operations and array storage StorageStays pins; it fails exactly if a load that nothing above defines is of a variable defined in a block entered before |
| Mem2RegPass.Mem2Reg.FillBlock | src/optimization/Mem2Reg.cpp:125-138 | each phi of a successor gets the top of its variable's stack for this edge; it fails exactly if a variable that nothing above defines is defined in a block entered before |
| Mem2RegPass.Mem2Reg.FillSuccessors | src/optimization/Mem2Reg.cpp:123-139 | the phis of all successors are filled for all edges out of the block, exactly if none of the edges fails |
| Mem2RegPass.Mem2Reg.PopBlock | src/optimization/Mem2Reg.cpp:146-165 | the pops of a block undo its pushes |
| Mem2RegPass.Mem2Reg.ReName | src/optimization/Mem2Reg.cpp:79-171 | exactly the blocks of the dominator subtree are rewritten, exactly the edges out of them filled, and the stacks are as before; it succeeds if and only if no variable of the subtree is uncovered in a block and defined in one entered before it |
| Mem2RegPass.Mem2Reg.ReNameChildren | src/optimization/Mem2Reg.cpp:141-144 | the children come in the order of their addresses, each with the stacks its parent left; it succeeds exactly if all their subtrees do |
| Mem2RegPass.Mem2Reg.RemoveAlloca | src/optimization/Mem2Reg.cpp:173-196 | all allocas of int and float variables are gone, everything else stays |
| RenameTheory.EmptyWhen | src/optimization/Mem2Reg.cpp:102-104 | a variable's stack exists and is empty exactly if nothing above defines it and a finished block does |
| RenameOrder.FailingOrder | src/optimization/Mem2Reg.cpp:141-144 | for an uncovered place in a block that does not dominate some definition of the variable there are addresses for which renaming meets the empty stack |
| RenameOrder.SafeWhen | src/optimization/Mem2Reg.cpp:102-144 | renaming meets no empty stack for any addresses if and only if every block with an uncovered load or phi edge dominates all definitions of the variable |
| PromotionProof.SimLoad | src/optimization/Mem2Reg.cpp:95-108 | leaving a load out and using the top of the stack gives its value, if that is defined |
| PromotionProof.SimBody | src/optimization/Mem2Reg.cpp:93-121 | through a block, each slot's content is the value of the top of its stack, and each register's value that of its replacement, as far as they are defined |
| PromotionProof.SubBelow | src/optimization/Mem2Reg.cpp:104-105 | a replacement known in a dominator is the same in all blocks below it |
| PromotionProof.EnterSlot | src/optimization/Mem2Reg.cpp:123-139 | on an edge into a block, the phi or the inherited top has the slot's content |
| PromotionProof.SimEnter | src/optimization/Mem2Reg.cpp:79-139 | the relation between memory and registers passes over an edge |
| PromotionProof.RunPreserved | src/optimization/Mem2Reg.cpp:9-24 | from related states, runs of any length are equal |
| PromotionProof.PromotionPreservesMeaning | src/optimization/Mem2Reg.cpp:9-24 | block trace, outputs and result of the promoted function are those of the original, whenever that never works with an undefined value (loading and storing one is harmless) |
| Promotion.GeneratedPhisSuffice | src/optimization/Mem2Reg.cpp:52-76 | wherever two definitions of a variable can meet, the worklist has put a phi |
| PromotionShape.StorageStays | src/optimization/Mem2Reg.cpp:167-196 | every block keeps its operations, in order, and allocates each array or pointer as often as before, and no int or float variable |
| PromotionShape.CoveredWhen | src/optimization/Mem2Reg.cpp:93-108 | a load finds a value on the stack exactly if a store before it in the block, a phi of the block or a definition in a strict dominator comes first |
| PromotionShape.MemoryGoes | src/optimization/Mem2Reg.cpp:93-121 | of a reachable block no store is left, and exactly the loads before which no definition comes; unreachable blocks lose nothing but allocas of int and float variables |
| Promotion.EntryCovers | src/optimization/Mem2Reg.cpp:104-134 | if the entry block stores every variable before it loads it, no load and no edge finds an empty stack |
| Promotion.Promote | src/optimization/Mem2Reg.cpp:9-24 | the whole pass: phis exactly in the iterated frontiers, each with one pair per edge; success exactly if no empty stack is met, in particular if the entry block initialises all variables; then the same behaviour, in well-formed SSA with phis; operations and array storage as before, no alloca of an int or float variable, in reachable blocks no store and only loads before which no definition comes |
| Promotion.OutputOk | src/optimization/Mem2Reg.cpp:9-24 | the promoted function meets what the removal of phis asks of its input: no phi at the entry, one per variable and block, no contradictory pairs, branches along edges |
| Promotion.OrderDecides | src/optimization/Mem2Reg.cpp:141-144 | in a function that stores a variable in one branch and loads it in the other, the visit meets no empty stack exactly if the block with the load comes first |
| Promotion.PromoteBranches | src/optimization/Mem2Reg.cpp:9-24 | so the pass succeeds on that function for some addresses and fails for others |
| Components.TrailIsPath | src/optimization/LoopSearch.cpp:17-41 | trails of the function are paths of the searched graph |
| TarjanTheory.MembersAreComponent | src/optimization/LoopSearch.cpp:77-92 | what lies on the stack from a node whose lowlink is its index is its strongly connected component |
| TarjanTheory.NewLow | src/optimization/LoopSearch.cpp:67-70 | the lowlink taken over from a visited successor is the index of a reachable node on the stack |
| TarjanTheory.Stay | src/optimization/LoopSearch.cpp:78-78 | a node with a smaller lowlink stays on the stack, and reaches a node below |
| TarjanTheory.PopInv | src/optimization/LoopSearch.cpp:79-91 | popping a component keeps the invariant; only nodes with complete components have left the stack |
| TarjanTheory.SearchEnd | src/optimization/LoopSearch.cpp:46-56 | after all nodes, the stack is empty and the sets are exactly the components with two or more nodes |
| LoopSearchPass.LoopSearch.Traverse | src/optimization/LoopSearch.cpp:57-92 | visits what is reachable and new, leaves earlier indices and lowlinks alone, and its lowlink covers all arcs to lower stacked nodes |
| LoopSearchPass.LoopSearch.PopMembers | src/optimization/LoopSearch.cpp:80-86 | pops exactly the nodes from the given one up, and clears their flags |
| LoopSearchPass.LoopSearch.StronglyConnectedComponents | src/optimization/LoopSearch.cpp:46-56 | the sets found are exactly the components with two or more nodes, and the stack ends empty |
| LoopNest.StrongInLoop | src/optimization/LoopSearch.cpp:131-183 | a strongly connected set of remaining nodes lies in one component |
| LoopNest.InnerEntered | src/optimization/LoopSearch.cpp:93-113 | if all components of the whole graph have entries, so have those that remain after bases are removed |
| LoopNest.ReachableLoopsEntered | src/optimization/LoopSearch.cpp:93-113 | a component that does not hold the entry block has an entry if the entry block reaches it |
| LoopNest.ReachableGraphEntered | src/optimization/LoopSearch.cpp:93-113 | functions reachable from an entry without predecessors have only components with entries |
| LoopNest.NoBase | src/optimization/LoopSearch.cpp:93-113 | a graph of two blocks whose only loop, through the entry block, has no base |
| LoopNest.RecordOne | src/optimization/LoopSearch.cpp:142-172 | recording one component and removing its base keeps loops nested, the innermost bases right and every strongly connected set accounted for |
| LoopNest.BaseHolds | src/optimization/LoopSearch.cpp:142-172 | of a base removed in a round, the recorded loop holds every strongly connected set of the round that goes through it |
| LoopNest.RoundEnd | src/optimization/LoopSearch.cpp:137-182 | after all components of a round, a strongly connected set of two or more blocks lies in what remains, or goes through the base of a recorded loop around it |
| LoopNest.NewInside | src/optimization/LoopSearch.cpp:137-172 | a component found later is inside an earlier loop, and smaller, or apart from it |
| LoopNest.CycleIsStrong | src/optimization/LoopSearch.cpp:131-183 | the blocks of a cycle are strongly connected, so the cycle goes through the base of a recorded loop around it |
| LoopNest.EdgesWithout | src/optimization/LoopSearch.cpp:164-172 | erasing a base keeps the edge sets those of the remaining graph, and keeps the base's own successors |
| LoopSearchPass.LoopSearch.BuildCfg | src/optimization/LoopSearch.cpp:17-41 | one fresh node per block, with its successors and predecessors |
| LoopSearchPass.LoopSearch.FindLoopBase | src/optimization/LoopSearch.cpp:93-113 | a member with an original predecessor outside, or none exactly if there is no such member |
| LoopSearchPass.LoopSearch.RemoveBase | src/optimization/LoopSearch.cpp:163-172 | the remaining graph without the base |
| LoopSearchPass.LoopSearch.StoreLoop | src/optimization/LoopSearch.cpp:142-161 | the loop is in all four tables, and its blocks have it as their innermost |
| LoopSearchPass.LoopSearch.RecordLoop | src/optimization/LoopSearch.cpp:137-172 | finds a base exactly if there is an entry; then everything recorded stays right |
| LoopSearchPass.LoopSearch.Round | src/optimization/LoopSearch.cpp:131-183 | succeeds exactly if all components of the whole graph have entries; then fewer nodes remain |
| LoopSearchPass.LoopSearch.Run | src/optimization/LoopSearch.cpp:114-192 | terminates; recorded loops are components of remaining graphs, disjoint or strictly nested, with different bases entered from outside; every strongly connected set of two or more blocks goes through the base of a recorded loop around it, so inner loops are found; the innermost base is right |
| LoopSearchPass.LoopSearch.GetInnerLoop | include/optimization/LoopSearch.hpp:42-47 | the smallest recorded loop around a block, or none exactly if there is none |
| ScanTheory.ExchangeAt | src/codegen/regalloc.cpp:161-175 | replacing the interval with the furthest end by one that ends earlier overloads no point |
| ScanTheory.DropLosesNothing | src/codegen/regalloc.cpp:161-175 | a choice that avoids the dropped interval is as large as any |
| ScanTheory.ScanSwap | src/codegen/regalloc.cpp:163-169 | spilling the furthest active interval for a shorter one keeps the invariant of the scan |
| ScanTheory.ScanOptimal | src/codegen/regalloc.cpp:58-69 | what is kept fits everywhere, and no choice that fits keeps more |
| RegisterTheory.ClassSum | include/codegen/regalloc.h:49-52 | free, held and argument registers of a class are fifteen together |
| RegisterTheory.SomeFree | src/codegen/regalloc.cpp:177-189 | a register of the class is free exactly if fewer than fifteen of it are held or taken by arguments |
| RegisterTheory.Supply | src/codegen/regalloc.cpp:62-66 | with at most one argument of the class and a free place there is one |
| RegisterTheory.NeverEmpty | src/codegen/regalloc.cpp:177-179 | the assertion that registers are available cannot fail |
| RegisterTheory.OkExpire | src/codegen/regalloc.cpp:149-159 | expiring an ended interval keeps partition, conflict freedom and optimality |
| RegisterTheory.OkAdd | src/codegen/regalloc.cpp:64-67 | so does giving the next interval a free register |
| RegisterTheory.OkSwap | src/codegen/regalloc.cpp:163-169 | so does taking over the register of the furthest interval |
| RegisterTheory.OkDrop | src/codegen/regalloc.cpp:170-174 | so does sending the next interval to the stack |
| ScanLimits.FitsShort | src/codegen/regalloc.cpp:58-69 | if at most fourteen intervals meet anywhere, the scan runs out of registers exactly if at some point the values of a class and the registers taken by arguments are more than fifteen |
| ScanLimits.OneClassShort | src/codegen/regalloc.cpp:58-69 | if all values are of one class, with or without spills, it runs out exactly if two or more arguments of the class are used and at some point values and arguments are more than fifteen |
| ScanLimits.OneClassRight | src/codegen/regalloc.cpp:161-175 | if all values are of one class, all registers are, also after spills |
| ScanOrigins.RightClasses | src/codegen/regalloc.cpp:161-175 | all values that ever had a register, those that were spilled later included, had one of their own class exactly if registers only pass between values of one class |
| ScanOrigins.OriginOf | src/codegen/regalloc.cpp:161-169 | the origin of an interval is that of the one it took its register from, and one that took over from none is its own |
| ScanOrigins.ShortWhenStarved | src/codegen/regalloc.cpp:58-69 | whatever the classes and spills, the scan runs short exactly if at the start of some interval there is a place, but the active intervals with origins of its class and the arguments of it are fifteen or more |
| ScanOrigins.OriginsDecide | src/codegen/regalloc.cpp:161-175 | what is kept depends on the intervals alone, and each kept value's register is of the class of its origin |
| ScanOrigins.BackToItsClass | src/codegen/regalloc.cpp:161-169 | fourteen integers, a float that takes over an integer register and an integer that takes it over again: registers pass between the classes, but those of all kept values are right |
| ScanTrace.LackingSpill | src/codegen/regalloc.cpp:161-169 | an interval that takes over from one without a register has none either, so once a register was missing a kept value lacks one |
| ScanLimits.CrowdedShort | src/codegen/regalloc.cpp:177-189 | values of one class that all overlap run short exactly if there are two or more arguments, and more than fifteen with them |
| ScanLimits.MixedScan | src/codegen/regalloc.cpp:161-169 | fourteen integers that outlive a float which starts last leave it with an integer register |
| ScanTrace.TracePlace | src/codegen/regalloc.cpp:62-67 | giving an interval a register takes the scan without registers one step further, and giving it none ends it |
| ScanTrace.TraceSpill | src/codegen/regalloc.cpp:161-175 | so does a spill |
| BlockOrder.OrderFinish | src/codegen/regalloc.cpp:87-88 | numbering a finished block keeps the numbers inverse to each other, and upward along edges of an acyclic graph |
| BlockOrder.OrderEnd | src/codegen/regalloc.cpp:77-89 | exactly the reachable blocks are numbered |
| BlockOrder.PathUpward | src/codegen/regalloc.cpp:77-89 | numbers rise along every path |
| LiveIntervals.BuiltLine | src/codegen/regalloc.cpp:121-141 | reading one line keeps each interval from its definition to its last use so far |
| LiveIntervals.SlotsLine | src/codegen/regalloc.cpp:121-129 | an alloca is a value without a slot when it is read, and then has one |
| LiveIntervals.IntervalCovers | src/codegen/regalloc.cpp:118-142 | all points of a path from definition to use are inside the interval |
| LiveIntervals.LiveInside | src/codegen/regalloc.cpp:118-142 | in an acyclic function a value's interval contains every point where it is live |
| StackFrame.FrameAlloca | src/codegen/regalloc.cpp:124-129 | a further alloca keeps slots apart, below the saved registers, and the frame the sum of all sizes |
| StackFrame.FrameSpill | src/codegen/regalloc.cpp:165-173 | a spilled value adds its size to the frame, but its slot begins that size below the frame pointer |
| StackFrame.SoundWhen | src/codegen/regalloc.cpp:161-175 | no two slots share a byte, and none lies where registers are saved, exactly if nothing is spilled |
| StackFrame.SpilledOverlap | src/codegen/regalloc.cpp:161-175 | any two spilled values share bytes |
| RegisterAllocation.RegAlloc.First | include/codegen/regalloc.h:66-72 | the next interval by start and value |
| RegisterAllocation.RegAlloc.LastActive | include/codegen/regalloc.h:59-65 | the last active interval by end and value, so one with the furthest end |
| RegisterAllocation.RegAlloc.ExpireOldIntervals | src/codegen/regalloc.cpp:149-159 | exactly the active intervals that reach the start of the next one stay |
| RegisterAllocation.RegAlloc.AssignReg | src/codegen/regalloc.cpp:177-189 | the first free register of the value's class if there is any, and no register otherwise |
| RegisterAllocation.RegAlloc.SpillAtInterval | src/codegen/regalloc.cpp:161-175 | the furthest of active and new interval gets a stack slot, of its own size below the frame pointer, and the frame grows; the other one its register; the old mapping stays; nothing else changes |
| RegisterAllocation.RegAlloc.PreAllocateArgs | src/codegen/regalloc.cpp:38-56 | exactly the used parameters get registers: each the one counted from 10 by the parameters of its class before it, used or not; those are not available any more; a used one is among the first eight of its class |
| RegisterAllocation.CountIsSize | src/codegen/regalloc.cpp:38-56 | the counter of a class is the number of positions before that hold a parameter of the class |
| RegisterAllocation.RegAlloc.PreAllocated | src/codegen/regalloc.cpp:71-75 | tells parameters from other values |
| RegisterAllocation.RegAlloc.Place | src/codegen/regalloc.cpp:64-67 | the value is left without a register exactly if its class has run out |
| RegisterAllocation.RegAlloc.LinearScanRegisterAllocation | src/codegen/regalloc.cpp:58-69 | overlapping unspilled intervals have different registers, none of a used argument; used parameters keep theirs; as many as possible are unspilled, and which ones depends on the intervals alone; registers are partitioned; a register is missing exactly if some interval starves; unspilled registers are of the classes of their origins, and all right exactly if none starves and all kept intervals are of the class of their origins; stack slots are sound exactly if all are kept |
| RegisterAllocation.RegAlloc.Dfs | src/codegen/regalloc.cpp:77-89 | visits what is reachable and numbers it downwards when it is left |
| RegisterAllocation.RegAlloc.ReadLine | src/codegen/regalloc.cpp:122-141 | an alloca gets a slot below all others, another named value an interval, and operands with intervals are extended to this line |
| RegisterAllocation.RegAlloc.CollectIntervals | src/codegen/regalloc.cpp:114-142 | each interval runs from its definition to its last use in the order of the numbers; exactly the allocas of numbered blocks have slots, apart from each other and from the saved registers, and the frame holds them all |
| RegisterAllocation.RegAlloc.InitFunc | src/codegen/regalloc.cpp:90-147 | numbering, intervals and pools as the scan expects them |
| RegisterAllocation.RegAlloc.Run | src/codegen/regalloc.cpp:24-36 | the intervals are those of the code; a used parameter has the register of its position and no slot; in an acyclic function no two unspilled values live at the same point share a register; at most fourteen kept intervals overlap, no choice keeps more; what is kept, what is missing and of which class registers are is as for the scan, with the same exact conditions; the frame is as large as all slots and the saved registers, and sound exactly if nothing is spilled |
| ScanPrograms.LineInterval | src/codegen/regalloc.cpp:118-142 | in straight-line code a value that is used later lives from its line to the line of its last use |
| ScanPrograms.AllocateRow | src/codegen/regalloc.cpp:177-189 | a function that defines n integers and then uses them with its parameters leaves some without a register exactly if there are two or more parameters and more than fifteen values with them |
| ScanPrograms.AllocateMixed | src/codegen/regalloc.cpp:161-169 | a function with fourteen integers and one float, which keeps an integer register |
| PhiElimTheory.LoadsAssign | src/codegen/phi_elim.cpp:35-42 | the loads at the head of a block do what its phis do in parallel, for all phis that have a pair for the edge |
| PhiElimTheory.StoresDeliver | src/codegen/phi_elim.cpp:45-54 | the stores at the end of a predecessor, in any order, leave each operand's value, defined or not, in its phi's slot and change nothing else |
| PhiElimTheory.RunEliminated | src/codegen/phi_elim.cpp:15-55 | from related states, runs of any length are equal, unless an undefined value is used |
| PhiElimTheory.EliminationPreservesMeaning | src/codegen/phi_elim.cpp:15-55 | trace, outputs and result are the same on every run that works with no undefined value, also where phis feed each other or themselves; if no phi lacks a pair, on every run |
| PhiElimTheory.EntryAllocates | src/codegen/phi_elim.cpp:31-44 | the entry block has exactly one alloca for each phi, before every load and store of its slot |
| PhiElimTheory.WalkAllocates | src/codegen/phi_elim.cpp:31-44 | on every walk from the entry block a phi's slot is allocated before it is loaded or stored to |
| PhiElimTheory.RunsAllocate | src/codegen/phi_elim.cpp:15-55 | so it is in every run, whose blocks are such a walk |
| PhiElimPass.PhiElim.ReplacePhis | src/codegen/phi_elim.cpp:26-42 | each phi of a block has a slot of its own, one alloca of it at the end of the entry block, and a load in its place |
| PhiElimPass.PhiElim.StoreAll | src/codegen/phi_elim.cpp:45-54 | every pair of every phi has exactly one store at the end of the predecessor, before the terminator |
| PhiElimPass.PhiElim.Run | src/codegen/phi_elim.cpp:15-55 | no phis are left, and the function behaves as before, whether or not its phis have pairs for all predecessors; on every walk a slot is allocated before it is loaded or stored to |
| Passes.PromoteAndEliminate | src/codegen/phi_elim.cpp:15-55 | promotion followed by the removal of the phis leaves no phis and preserves the behaviour, exactly when the renaming meets no empty stack; the code is that of the promoted function with the allocated slots of its phis, and without loads and stores of variables that have definitions |
| Liveness.PassedIsFound | src/optimization/ActiveVars.cpp:26-34 | what passes the filter has a live walk whose edges all pass it |
| Liveness.LiveIsFound | src/optimization/ActiveVars.cpp:19-40 | with separate phis a solution contains all that is live |
| Liveness.WalkIsFound | src/optimization/ActiveVars.cpp:19-40 | whatever the phis, a solution contains every value with a live walk to an exposed use all of whose edges pass the filter |
| Liveness.SolutionIsLiveness | src/optimization/ActiveVars.cpp:19-40 | then the live-out sets are textbook liveness |
| Liveness.FilterExact | src/optimization/ActiveVars.cpp:26-34 | a solution passes exactly the live values on every edge if and only if the phis are separate |
| Liveness.OwnOperandMissed | src/optimization/ActiveVars.cpp:37-38 | a phi operand defined earlier in the phi's own block is live but not found |
| Liveness.OtherOperandMissed | src/optimization/ActiveVars.cpp:28-32 | a value live for another reason too is not found on an edge where no phi takes it |
| Liveness.SwapMissed | src/optimization/ActiveVars.cpp:37-38 | a loop with two phis that swap their values, where a live value is not found |
| ActiveVarsPass.CollectStep | src/optimization/ActiveVars.cpp:108-124 | reading one instruction keeps uses the exposed values and definitions the unexposed defined ones |
| ActiveVarsPass.GapShrinks | src/optimization/ActiveVars.cpp:19-40 | a pass that changes something leaves fewer values to add |
| ActiveVarsPass.SolvedLater | src/optimization/ActiveVars.cpp:19-40 | if a later pass changes nothing, the sets solve the equations |
| ActiveVarsPass.SolvedFirst | src/optimization/ActiveVars.cpp:19-40 | if the first pass changes nothing, they do exactly if no use flows over any edge |
| ActiveVarsPass.FlowsOfInput | src/optimization/ActiveVars.cpp:19-40 | whether the passes suffice is a condition on the input: its exposed uses, the operands of its phis, its edges and the order of its blocks |
| ActiveVarsPass.BackwardMissed | src/optimization/ActiveVars.cpp:19-40 | a function listed in an order where a single pass misses a live value: it is not in the live-out set that is computed |
| ActiveVarsPass.AnalyseBackward | src/optimization/ActiveVars.cpp:15-45 | the analysis run on that function misses the value |
| ActiveVarsPass.ComputesAll | src/optimization/ActiveVars.cpp:19-40 | the live-out sets are exactly those of the walks that pass the filter on every edge, and empty if there are too few passes |
| ActiveVarsPass.ActiveVars.CalcDefAndUse | src/optimization/ActiveVars.cpp:104-131 | exposed uses, definitions, and phi operands by predecessor, of every block |
| ActiveVarsPass.ActiveVars.IsFromPhi | src/optimization/ActiveVars.cpp:28-29 | whether any phi of the block takes the value |
| ActiveVarsPass.ActiveVars.Passing | src/optimization/ActiveVars.cpp:27-33 | exactly the values that pass the filter on the edge |
| ActiveVarsPass.ActiveVars.VisitBlock | src/optimization/ActiveVars.cpp:22-39 | adds what arrives from the successors, recomputes the live-in set, and reports whether the live-out set changed |
| ActiveVarsPass.ActiveVars.Run | src/optimization/ActiveVars.cpp:15-45 | terminates; what it finds is live; it solves the equations if and only if some use flows to an earlier listed block or none flows; then a value is found exactly if it has a live walk that passes the filter on every edge, and otherwise none is; on all edges a solution is exact if and only if the phis are separate |
| BuilderGrowth.ExprGrows | src/cminusfc/builder_ta.cpp:297-495 | an expression keeps all closed blocks, and leaves one open block, the current one |
| BuilderGrowth.StmtGrows | src/cminusfc/builder_ta.cpp:194-295 | a statement keeps all other blocks, leaves no new open block but the current one, and branches only to blocks that exist |
| BuilderGrowth.IfGrows | src/cminusfc/builder_ta.cpp:222-255 | so does a selection, whose unused else block is erased |
| BuilderGrowth.WhileGrows | src/cminusfc/builder_ta.cpp:257-278 | so does a loop |
| BuilderProof.OperateRuns | src/cminusfc/builder_ta.cpp:33-48 | the code of a binary operation promotes and computes as the language says |
| BuilderProof.GuardRuns | src/cminusfc/builder_ta.cpp:319-338 | a negative index ends the function after the report; any other goes on, registers and world as they are |
| BuilderProof.SimIndex | src/cminusfc/builder_ta.cpp:316-353 | the code of an index computes the element's address, or ends the function |
| BuilderProof.SimExpr | src/cminusfc/builder_ta.cpp:297-495 | running the code of an expression gives its big-step value and world, or ends the function where evaluation does |
| BuilderProof.SimAssign | src/cminusfc/builder_ta.cpp:356-370 | right-hand side before address, conversion, store, and the converted value as result |
| BuilderProof.SimCall | src/cminusfc/builder_ta.cpp:477-495 | arguments in order, each converted to its parameter's type |
| BuilderStmtProof.SimStmt | src/cminusfc/builder_ta.cpp:194-295 | running the code of a statement ends where and as its big-step meaning says, or runs on |
| BuilderStmtProof.SimIf | src/cminusfc/builder_ta.cpp:222-255 | the same for selections, with early returns in either branch |
| BuilderStmtProof.SimLoop | src/cminusfc/builder_ta.cpp:257-278 | the same for loops, turn by turn |
| BuilderStmtProof.SimFun | src/cminusfc/builder_ta.cpp:118-190 | a call that ends within the bound halts with its result; one that does not runs at least that long |
| BuilderStmtProof.FunClosed | src/cminusfc/builder_ta.cpp:180-188 | in a finished function every block has a terminator, and branches lead to blocks that exist |
| IndexSafety.GuardedBranch | src/cminusfc/builder_ta.cpp:325-338 | a branch taken into a block with an indexed access comes from the test of its index, which was not negative |
| IndexSafety.NeverNegative | src/cminusfc/builder_ta.cpp:316-346 | if every indexed access stands behind its own test, no run, finished or not, reaches one with a negative index |
| IndexSafety.ElemNext | src/cminusfc/builder_ta.cpp:338-346 | an access put into the block that only its test leads to is tested |
| IndexSafety.WhileWatched | src/cminusfc/builder_ta.cpp:257-278 | the jump back to a loop's condition leads around no test |
| IndexSafety.IndicesNotNegative | src/cminusfc/builder_ta.cpp:316-346 | in no run of a translated function, on any arguments, is an element's address computed with a negative index |
| IndexSafety.FaultWhen | src/cminusfc/builder_ta.cpp:322-338 | an access ends the function exactly if the index, converted to int, is negative |
| BuilderGrowth.IfEmits | src/cminusfc/builder_ta.cpp:239-252 | both branches of a selection start in an open block |
| BuilderGrowth.LoopEmits | src/cminusfc/builder_ta.cpp:258-274 | condition and body of a loop start in an open block |
| BuilderStmtProof.TranslationPreservesMeaning | src/cminusfc/builder_ta.cpp:118-190 | the code halts with a result and a world if and only if the call returns them |
| Cminus.FindInnermost | include/cminusf_builder.hpp:42-53 | a name stands for what the innermost scope that has it says |
| Cminus.PushFinds | include/cminusf_builder.hpp:36-40 | a new name is found from then on; a name that the innermost scope has keeps its meaning, and so do all others |
| BuilderTypes.ElemTypes | src/cminusfc/builder_ta.cpp:338-346 | the address of an element of an array, or of what a pointer variable points to, is a pointer to the element type; base and index are of the types that the operation takes |
| BuilderTypes.OperateTypes | src/cminusfc/builder_ta.cpp:33-48 | both operands of an operation are ints or both floats, as it says, and its result is of the type of the expression |
| BuilderTypes.ExprTypes | src/cminusfc/builder_ta.cpp:297-495 | the operand of an expression has the type of the expression, read off the instruction that gives it; all that is emitted gets the types it takes exactly if pointers are passed where pointers to the same are expected |
| BuilderStmtTypes.StmtTypes | src/cminusfc/builder_ta.cpp:194-295 | the same for statements, with returns: conditions of branches are single bits, and results are of the return type exactly if only void functions return nothing |
| BuilderStmtTypes.StmtCloses | src/cminusfc/builder_ta.cpp:209-213 | a statement leaves the block closed exactly if it is a return, or a compound statement one of whose statements does so |
| BuilderStmtTypes.WellTypedWhen | src/cminusfc/builder_ta.cpp:118-190 | for some types of the registers, each assigned in one place, all instructions and terminators of a function get what they take, exactly if its calls pass the right pointers and its returns have values |
| BuilderStmtTypes.BareReturn | src/cminusfc/builder_ta.cpp:280-282 | a function of return type int or float with `return;` is translated to code that is not well-typed |
| BuilderStmtTypes.WrongPointer | src/cminusfc/builder_ta.cpp:477-495 | so is a call that passes an int array where a float array is expected |
| AstBuilder.Builder.VisitExpr | src/cminusfc/builder_ta.cpp:297-495 | emits the code of the expression, with its value and its type in the fields |
| AstBuilder.Builder.VisitVar | src/cminusfc/builder_ta.cpp:297-354 | address or value as required, with its type, and the requirement is cleared |
| AstBuilder.Builder.BranchIfNegative | src/cminusfc/builder_ta.cpp:320-327 | two new blocks, the test, and the branch on it |
| AstBuilder.Builder.GuardIndex | src/cminusfc/builder_ta.cpp:319-338 | emits the test, the block that reports and returns, and goes on in the other |
| AstBuilder.Builder.VisitAssign | src/cminusfc/builder_ta.cpp:356-370 | emits the code of an assignment |
| AstBuilder.Builder.Promote | src/cminusfc/builder_ta.cpp:33-48 | converts an int operand when the other one is a float |
| AstBuilder.Builder.VisitBin | src/cminusfc/builder_ta.cpp:372-475 | emits the code of comparisons, sums and products |
| AstBuilder.Builder.VisitCall | src/cminusfc/builder_ta.cpp:477-495 | emits the code of a call |
| AstBuilder.Builder.VisitIf | src/cminusfc/builder_ta.cpp:222-255 | emits the code of a selection |
| AstBuilder.Builder.VisitWhile | src/cminusfc/builder_ta.cpp:257-278 | emits the code of a loop |
| AstBuilder.Builder.VisitCompound | src/cminusfc/builder_ta.cpp:194-215 | emits declarations and statements up to one that closes the block, in a scope of its own unless the function has opened it |
| AstBuilder.Builder.VisitFunDeclaration | src/cminusfc/builder_ta.cpp:118-190 | instructions and terminators are only ever added to open blocks; in the end all blocks are closed, branches lead to existing ones, scopes are as before, the code does what the source means, no run indexes below zero, and the code is well-typed exactly if the calls and returns are |

## Left out

- Mem2RegPass.Mem2Reg.ReName: the children of a block are a set of pointers; where the blocks lie is a parameter, any numbering without repetitions.
- PromotionProof.PromotionPreservesMeaning: says nothing about runs of the original in which an operation, a branch or the result is given an undefined value, which have no defined behaviour.
- Promotion.Promote: asks, like the code it models, for an entry block without predecessors, and for joins whose predecessors are all reachable.
- DominatorAnalysis.Dominators.Run: asks for joins without unreachable predecessors; where there are some, the walk does not end (`WalkStopsIff`).
- LoopSearchPass.LoopSearch.Run: one function at a time, into empty tables; a missing base is reported instead of dereferenced.
- RegisterAllocation.RegAlloc.Run: a spilled value keeps its old register entry, as in the code, and counts as spilled. A used parameter must be among the first eight of its class, since the ninth is out of the array's bounds. Coverage of liveness is for acyclic functions only, since intervals end at the last use in number order.
- RegisterTheory.Supply: the pools hold seven temporaries and eight argument registers of each class; the flag `d` of a register is left out, since comparisons ignore it.
- PhiElimPass.PhiElim.Run: asks that pairs of a phi for one block have one operand; of a function with phis that lack pairs, runs that work with an undefined value are not compared.
- ActiveVarsPass.ActiveVars.Run: functions are not tracked values, and a name is tracked everywhere in a block or nowhere.
- BuilderStmtTypes.WellTypedWhen: takes for granted that `neg_idx_except` is declared without parameters and result, and that functions return int, float or nothing, as the library and the grammar have it; array lengths are not part of types.
- BuilderStmtProof.TranslationPreservesMeaning: what single operations compute, float rounding included, is an arbitrary function, the same on both sides; recursive calls are operations.
- AstBuilder.Builder.VisitBin: the chains of additive and multiplicative nodes with a missing left operand are one constructor; names of functions are looked up in a table, so a variable cannot shadow one.
- Use lists: `replace_all_use_with` is a substitution, in Mem2Reg applied when the instruction is reached, in PhiElim by letting the load take over the phi's name.
- Instruction lists, vectors and maps are sequences and maps in fields of the pass objects; sharing between C++ objects is not modelled. Iteration over sets and maps of pointers takes any order.
- `Dominators::create_doms`: never called.
- `LoopSearch::get_parent_loop`, `get_loops_in_func`, graph dumps, and all printing, JSON and DOT output.
- Global variables and whole programs in the builder (`src/cminusfc/builder_ta.cpp:58-69`, and globals in 78-116): they are given as a scope.
- `src/cminusfc/cminusf_builder.cpp`, `src/codegen/codegen.cpp`, `src/codegen/instgen.cpp`, `src/optimization/LoopInvHoist.cpp`, `src/optimization/ConstPropagation.cpp`, the parser, logging, the command line and runtime I/O.
