# GPU compute backend: control flow, submissions and buffers

A model of `crates/lichen-compute-gpu`, in two components.

**The SPIR-V control-flow compiler** (`spirv.rs`). A kernel body is a list of blocks that take
arguments; it becomes structured SPIR-V. The planner finds dominators, post-dominators and loop
headers, adds loop merges and pass-throughs, redirects edges through them and picks a writing
order; the emitter turns block arguments into one phi entry per predecessor. The model keeps the
source's algorithms as methods over arrays, stacks and an object's fields, and proves each against
walks of the graph or against a specification function. Its main results:

- the emitted function is never stuck and whatever it returns the body returns, for every accepted
  body and every meaning of the instructions; where no pass-throughs hand on to each other in a
  ring it returns exactly when the body does, and there is an accepted body for which it hangs;
- of the labels the emitted merge instructions name: merge blocks are distinct, headers dominate them under an exact condition that holds of every
  accepted plan, every cycle holds a loop header exactly when no pass-throughs ring, definitions
  precede uses, and across a module, shared literals included, no id is defined twice;
- phi entries are exactly the predecessors, and have their parameter's type under an exact condition
  on what the first edge passes;
- through its prologue and guard an entry point runs the body for the lanes of its launch, once each,
  exactly up to a bound on the count; a lane past the count touches nothing, and no barrier divides;
- the fixed points, searches and the class resolver end and compute exactly what they are for; a class
  comes from a definition or a read, and every refusal, of a body, an edge or a class, is true.

**The dispatch state machine** (`dispatch.rs`, `accounting.rs`). A round-robin pool of submission
slots, resident and recycled buffers with byte counters, batches and a ping-pong chain on buffers the pool
may recycle, and the push-constant block. Every run is a sequence of host calls, with any driver answers, and of
device finishes at any time; the invariants hold after each. Slots take turns and are waited for only
while taken, counters are what the runs did, and a refusal names the first cause there is.

## How the files fit

- Graphs: `Graphs`, `Reachability`, `Dominators`, `PostDominators`, `LoopHeaders`, `DepthFirst`.
- Planning: `Kernel` (bodies), `Structure` (the plan as functions of the body), `Planner`
  (`plan_body`), `Leaving`, `PlanProperties`, `Rings`, `Relays` (redirection in the body's terms),
  `Lifting`, `LoopRules`, `TailGuards`, `RingExample`, `SideEntry`.
- Emission: `Literals`, `Emission` (the specification), `Ssa`, `EmissionInvariant`, `EmissionProof`,
  `EmissionRun`, `EmissionIds`, `FunctionIds`, `Emitter` (the object the source updates), `Modules`,
  `MergeInsts`.
- Meaning: `Machines` (the body's machine and SPIR-V's), `StraightLine`, `Simulation`,
  `Preservation`, `RingRuns`, `Scoping`.
- Classes and words: `Scalars`, `Classes`, `ClassOrigins`, `ClassRanks`, `PhiTypes` (one node's edges),
  `Encoding`, `Words`, `PushConstants`.
- Launches: `Launch`, `Coverage` (the block a launch pushes, through the emitted guard).
- Dispatch: `SlotPool`, `SlotTurns`, `Sums`, `Ledger`, `Counters`, `BuffersInUse`, `DeviceMemory`, `Chains`,
  `Staging`, `StagedElements`, `Batches`, `BatchRuns`.
- `Options` and `Distinctness` are small helpers.

## Where code and comment disagree

The model follows the code.

- `redirect` keeps a candidate that dominates the one it holds (`spirv.rs:3225-3228`): the outermost
  selection, where the comment says innermost. `Rings.ChosenIsOutermost` states what it keeps.
- Pass-throughs of two selections inside one loop can hand on to each other for ever and the plan is
  still accepted. `Rings.BranchesArriveExactlyWithoutRings` gives the exact condition,
  `Relays.NoRingsExactly` says it of the body alone, `RingRuns.TheFunctionNeverReturns` gives a body.
- The planner gives a selection that does not dominate its join a pass-through to merge at, but does
  not check that nothing else enters the selection. `SideEntry.AcceptedYetNotDominated` is an
  accepted body whose merge block its header does not dominate (section 2.11 of the SPIR-V
  specification asks that it does); `Lifting.PassIsDominatedExactly` gives the exact condition.
- Nor does it check that a loop comes back to its header by one edge, as the same section asks.
  `LoopRules.AcceptedWithTwoBackEdges` is a body with two, `LoopRules.OneBackEdgeExactly` the condition.
- `record` types a parameter by the body and coerces only later edges (`spirv.rs:3521-3540`): what the
  first edge passes is filed as it is, so a comparison is an entry of a phi of numbers.
  `PhiTypes.BlockEntriesAgreeExactly` gives the exact condition.
- A parameter that a select chooses is under resolution while the select's arms are asked for, so it counts
  as of the module's class (`spirv.rs:2676-2684`): two integers chosen between in a module of floats are
  refused, where the comment says the class is that of the value held. `Classes.ChosenIsTheModules`.
- `accounting.rs:5-6` says a byte leaves the count exactly once. A record that `relabel` shrank
  leaves with fewer bytes than were allocated, and a failed allocation stays counted.
  `Ledger.NextDrifts` gives the exact difference.
- A token's submission can have finished and its wait still time out, when a later hand-over on the
  slot failed between resetting the fence and the queue. `SlotPool.SyncFailsExactlyWhenRefused`.
- The extent is pushed at four bytes in a module that is not an integer one, the workgroup count and
  the invocation index are numbers of 32 bits, and no count is refused for them.
  `Coverage.LanesAreTheCount` gives the exact bound.
- `scalar_block` checks how many leaves a launch gives and not their classes. An integer given for a
  last member declared narrower is written past the block; `PushConstants.ScalarBlock` says exactly when.
- A run gives its scratch buffers back even when its wait timed out, while the submission may still use
  them. `BuffersInUse.SafeThroughoutExactly` gives the exact condition, `TimedOutIsUnsafe` a run.
- The refusal for arms that never meet again cannot happen: the post-dominator always has an answer.

## Model

| member | source | states |
|---|---|---|
| `Reachability.ReachableFrom` | crates/lichen-compute-gpu/src/spirv.rs:3265-3278 | the explicit-stack search marks exactly the nodes some walk from the start reaches |
| `Reachability.ReachesTo` | crates/lichen-compute-gpu/src/spirv.rs:3261-3263 | answers whether a walk exists |
| `Reachability.InsideSelection` | crates/lichen-compute-gpu/src/spirv.rs:3235-3258 | answers whether some walk from the header gets to the block without meeting the join, the join itself being outside |
| `Dominators.Compute` | crates/lichen-compute-gpu/src/spirv.rs:3285-3316 | the in-place fixed point ends, and `dom[n][d]` says exactly that every walk from the entry to `n` holds `d` (vacuously when there is none) |
| `PostDominators.Immediate` | crates/lichen-compute-gpu/src/spirv.rs:3320-3345 | for every node that can reach a return: its nearest strict post-dominator, and the virtual exit exactly when no real one exists |
| `PostDominators.NearestIsUnique` | crates/lichen-compute-gpu/src/spirv.rs:3331-3343 | a node that can leave has at most one nearest strict post-dominator |
| `LoopHeaders.Find` | crates/lichen-compute-gpu/src/spirv.rs:3349-3374 | the explicit-stack search marks what the recursive depth-first search marks |
| `LoopHeaders.HeadersBreakCycles` | crates/lichen-compute-gpu/src/spirv.rs:3347-3374 | every header is reachable and lies on a cycle, and every reachable edge not into a header goes to a node that finishes earlier: without those edges the graph is acyclic |
| `LoopHeaders.CycleHoldsAHeader` | crates/lichen-compute-gpu/src/spirv.rs:3347-3374 | every closed walk reachable from the entry holds a header |
| `LoopHeaders.EdgeToEntryMarksIt` | crates/lichen-compute-gpu/src/spirv.rs:3347-3374 | a reachable edge back to the entry marks the entry |
| `DepthFirst.Order` | crates/lichen-compute-gpu/src/spirv.rs:3382-3397 | an order exactly when every node is reachable: a permutation, entry first, every other node after one of its predecessors |
| `Planner.CheckLoop` | crates/lichen-compute-gpu/src/spirv.rs:2993-3044 | a header passes exactly the loop conditions it is accepted for: it tests, one branch alone comes back, its body is another block it dominates; each refusal is true of the body |
| `Planner.RedirectEdge` | crates/lichen-compute-gpu/src/spirv.rs:3201-3231 | the loop over the pass-throughs returns the redirection defined from walks and dominance |
| `Planner.PlanBody` | crates/lichen-compute-gpu/src/spirv.rs:2945-3189 | succeeds exactly on plannable bodies; the plan it returns is the one the body determines, up to the writing order; every refusal is true of the body |
| `Leaving.CanAlwaysLeave` | crates/lichen-compute-gpu/src/spirv.rs:2993-3044 | when every header has one branch that comes back and one that does not, every block reaches a return |
| `PlanProperties.AcceptedBodiesLeave` | crates/lichen-compute-gpu/src/spirv.rs:2965-3044 | on an accepted body every block reaches a return, nothing branches to the entry, and each header has exactly one branch that can come back |
| `PlanProperties.ProjectWalk` | crates/lichen-compute-gpu/src/spirv.rs:3089-3168 | every walk of the emitted graph from the entry projects onto a walk of the body through the same real blocks |
| `PlanProperties.OnlyTheDeclaredTarget` | crates/lichen-compute-gpu/src/spirv.rs:3089-3168 | following emitted edges from a real block through added blocks, the first real block met is the branch's declared target |
| `PlanProperties.DefinitionsPrecedeUses` | crates/lichen-compute-gpu/src/spirv.rs:3170-3173 | a block that dominates another in the body comes before it in the writing order of the graph with added blocks |
| `PlanProperties.DominanceSurvives` | crates/lichen-compute-gpu/src/spirv.rs:3089-3168 | dominance between blocks of the body holds in the emitted graph |
| `PlanProperties.HeaderDominatesItsMerge` | crates/lichen-compute-gpu/src/spirv.rs:3038-3044 | in the emitted graph a loop header strictly dominates its merge block |
| `PlanProperties.SelectionDominatesItsJoin` | crates/lichen-compute-gpu/src/spirv.rs:3076-3080 | in the emitted graph a selection strictly dominates the join it merges at |
| `PlanProperties.SelectionDominatesItsPass` | crates/lichen-compute-gpu/src/spirv.rs:3080-3087 | in the emitted graph a selection strictly dominates its pass-through when every block inside it is entered through its header |
| `PlanProperties.MergeBlocksAreDistinct` | crates/lichen-compute-gpu/src/spirv.rs:3038-3087 | no two headers share a merge block (section 2.11 of the SPIR-V specification) |
| `Rings.ChosenIsOutermost` | crates/lichen-compute-gpu/src/spirv.rs:3214-3230 | the redirection keeps the outermost of the candidates that dominate the first one found |
| `Rings.AllSettleExactlyWithoutRings` | crates/lichen-compute-gpu/src/spirv.rs:3201-3231 | every pass-through hands on to its join after finitely many others if and only if no two or three of them hand on to each other in a ring |
| `Rings.BranchesArriveExactlyWithoutRings` | crates/lichen-compute-gpu/src/spirv.rs:3089-3168 | every branch of an accepted body arrives at a real block if and only if there is no ring |
| `Rings.RingNeedsALoop` | crates/lichen-compute-gpu/src/spirv.rs:3201-3258 | a ring needs a cycle through a pass-through's header that avoids its join |
| `Rings.BranchesArriveWithoutLoops` | crates/lichen-compute-gpu/src/spirv.rs:3201-3258 | without such cycles every branch arrives |
| `RingExample.AcceptedYetNeverArrives` | crates/lichen-compute-gpu/src/spirv.rs:3201-3231 | a five-block body whose loop continues and breaks is accepted and has a branch that never arrives |
| `Relays.ChosenExactly` | crates/lichen-compute-gpu/src/spirv.rs:3201-3258 | the redirection chooses a selection exactly when the body picks it: of the selections with a pass-through to the target that the block is inside of and that dominate the lowest-numbered such one, the one that dominates them all; none exactly when there is no such selection |
| `Relays.NoRingsExactly` | crates/lichen-compute-gpu/src/spirv.rs:3201-3258 | there is no ring if and only if no two or three selections of the body each pick the next in a circle, said in insideness, dominance and block order alone |
| `Relays.DeliveredExactly` | crates/lichen-compute-gpu/src/spirv.rs:3201-3231 | a branch gets through its pass-throughs exactly when the body offers it none, or hands it on in finitely many turns to a selection that hands on to none |
| `Lifting.ArrivesExactly` | crates/lichen-compute-gpu/src/spirv.rs:3089-3168 | an emitted edge of a real block arrives if and only if the body delivers its branch |
| `Lifting.LiftWalk` | crates/lichen-compute-gpu/src/spirv.rs:3089-3168 | every walk along delivered branches is, with added blocks put in, a walk of the emitted graph through the same real blocks |
| `Lifting.ProjectCarried` | crates/lichen-compute-gpu/src/spirv.rs:3089-3168 | every emitted walk from a real block is a walk along delivered branches to its last real block |
| `Lifting.DominanceIsTheCarried` | crates/lichen-compute-gpu/src/spirv.rs:3089-3168 | of every accepted plan: one real block dominates another in the emitted graph if and only if it does in the body less the branches that are not delivered |
| `Lifting.DominanceIsTheBodys` | crates/lichen-compute-gpu/src/spirv.rs:3089-3168 | without rings every branch is delivered and the dominance is the body's own |
| `Lifting.FeedsExactly` | crates/lichen-compute-gpu/src/spirv.rs:3201-3231 | a block feeds a pass-through by added blocks alone if and only if it branches to the join and the body hands that branch on to the pass-through's selection |
| `Lifting.PassIsDominatedExactly` | crates/lichen-compute-gpu/src/spirv.rs:3080-3087 | of every accepted plan, rings or not: a block dominates a pass-through in the emitted graph if and only if it dominates, along delivered branches, every block whose branch the pass-through carries |
| `SideEntry.AcceptedYetNotDominated` | crates/lichen-compute-gpu/src/spirv.rs:3080-3087 | a four-block body that jumps into a selection is accepted, and the selection does not dominate its merge block |
| `LoopRules.ContinueIsDominated` | crates/lichen-compute-gpu/src/spirv.rs:3026-3044 | in the emitted graph a loop header strictly dominates its continue target, the loop's first block |
| `LoopRules.OneBackEdgeExactly` | crates/lichen-compute-gpu/src/spirv.rs:3089-3168 | some emitted edge comes back to a block if and only if the body has a way back to it, and at most one does if and only if it has at most one: a way is a branch offered no pass-through, or a selection joining there that hands on to none |
| `LoopRules.HeadersHaveAnEdgeBack` | crates/lichen-compute-gpu/src/spirv.rs:3089-3168 | without rings every loop header has an edge back in the emitted graph |
| `LoopRules.CyclesHoldHeadersExactlyWithoutRings` | crates/lichen-compute-gpu/src/spirv.rs:3089-3168 | of every accepted plan: each cycle of the emitted graph holds a loop header if and only if there is no ring (section 2.11 of the SPIR-V specification) |
| `LoopRules.AcceptedWithTwoBackEdges` | crates/lichen-compute-gpu/src/spirv.rs:2993-3044 | an accepted body whose loop header has two edges back |
| `TailGuards.GuardDominatesItsMerge` | crates/lichen-compute-gpu/src/spirv.rs:3696-3735 | with the guard's two blocks put in, the enter block strictly dominates the guard's merge block, which only it branches to, which no header of the body merges at and which branches nowhere |
| `TailGuards.GuardKeepsDominance` | crates/lichen-compute-gpu/src/spirv.rs:3696-3735 | the guard changes nothing of what dominates what in the body |
| `Ssa.PlanFactsHold` | crates/lichen-compute-gpu/src/spirv.rs:3170-3189 | what emission needs of a plan: distinct labels, distinct targets, matching arities, nothing into the entry, dominators written first |
| `EmissionInvariant.FixKeeps` | crates/lichen-compute-gpu/src/spirv.rs:3521-3532 | fixing a block's parameters takes new ids, gives the block's values those ids and moves nothing else |
| `EmissionInvariant.RecordKeeps` | crates/lichen-compute-gpu/src/spirv.rs:3503-3561 | recording a new edge succeeds, fixes its target, writes the conversions its positions ask for and leaves one phi entry per predecessor, with the ids they leave |
| `EmissionInvariant.RecordForms` | crates/lichen-compute-gpu/src/spirv.rs:3521-3540 | the first edge into a block passes its values as they are, and a later one brings each to the form its target wants: a constant to its class, then the conversion |
| `EmissionInvariant.RecordFiles` | crates/lichen-compute-gpu/src/spirv.rs:3543-3561 | after any recording the block's one entry passes what the edge passes: a second edge out of a block is recorded only with the same ids, and files nothing |
| `EmissionInvariant.RecordRefuses` | crates/lichen-compute-gpu/src/spirv.rs:3512-3520 | an edge is refused for its length, or because its block's entry passes other ids |
| `EmissionProof.InstructionsKeep` | crates/lichen-compute-gpu/src/spirv.rs:1608-1640 | no instruction of a well-formed body lacks an operand's id; each leaves its form's group: a literal's id, its operand's own, or its conversions, every constant in the class its position asks for, and as many ids as it takes |
| `EmissionProof.TerminateKeeps` | crates/lichen-compute-gpu/src/spirv.rs:3563-3681 | a terminator is emitted exactly when it returns one value and does not pass two lists to one target; then its test is placed and every edge is filed |
| `EmissionProof.AddedNodeKeeps` | crates/lichen-compute-gpu/src/spirv.rs:2479-2497 | an added block always emits, and hands on the parameters it received |
| `EmissionProof.RealNodeKeeps` | crates/lichen-compute-gpu/src/spirv.rs:1608-1640 | a real block emits exactly when its terminator fits |
| `EmissionRun.RunKeeps` | crates/lichen-compute-gpu/src/spirv.rs:1596-2500 | over the writing order, emission succeeds exactly when the terminators fit and keeps the invariant; every value a block reads has an id when it is written; a refusal names a block that returns other than one value, or passes two lists to one target |
| `EmissionRun.RunFinishes` | crates/lichen-compute-gpu/src/spirv.rs:1596-2500 | at the end every block is closed, every edge filed once, every block's parameters placed, and no phi entry is from a block that does not branch there |
| `EmissionRun.PhisAreThePredecessors` | crates/lichen-compute-gpu/src/spirv.rs:2884-2904 | the phi entries of a finished block are exactly its predecessors, one for each |
| `EmissionIds.OrderFresh` | crates/lichen-compute-gpu/src/spirv.rs:1596-2500 | a whole run defines ids only off the cursor, phis, conversions, results and literals alike, and none for two of them |
| `FunctionIds.NoIdTwice` | crates/lichen-compute-gpu/src/spirv.rs:1472-1600 | within a function no id has two definers among labels, parameters' loads, phis, conversions, results, literals and the guard's three (section 2.16.1 of the SPIR-V specification) |
| `FunctionIds.FunctionIsDisciplined` | crates/lichen-compute-gpu/src/spirv.rs:1461-2573 | every id a function defines is its own, between its cursors, or an earlier literal's, and no id has two definers |
| `Emitters.Emitter.PlaceOne` | crates/lichen-compute-gpu/src/spirv.rs:4199-4282 | an operand asked for in a class is its constant in that class, then as many ids as the conversion takes |
| `Emitters.Emitter.Lower` | crates/lichen-compute-gpu/src/spirv.rs:1608-1640 | the method leaves the state one instruction's form gives, literal, alias or computation, or its refusal |
| `Emitters.Emitter.Bind` | crates/lichen-compute-gpu/src/spirv.rs:3528-3530 | each received value gets its parameter's id |
| `Emitters.Emitter.Record` | crates/lichen-compute-gpu/src/spirv.rs:3503-3561 | the method leaves the state the edge's specification gives, or its refusal |
| `Emitters.Emitter.RecordLoop` | crates/lichen-compute-gpu/src/spirv.rs:3622-3638 | both branches' operands are read before either edge is recorded |
| `Emitters.Emitter.Terminate` | crates/lichen-compute-gpu/src/spirv.rs:3563-3681 | the method leaves the state the terminator's specification gives, or its refusal; an entry point returns no value |
| `Emitters.Emitter.Emit` | crates/lichen-compute-gpu/src/spirv.rs:1596-2500 | the method leaves the state one node's specification gives, or its refusal |
| `Emitters.Emitter.EmitAll` | crates/lichen-compute-gpu/src/spirv.rs:1596-2500 | the loop leaves what emitting the whole order gives, or its first refusal |
| `Emitters.FunctionFacts` | crates/lichen-compute-gpu/src/spirv.rs:1596-2507 | a planned well-formed body emits exactly when its terminators fit, some return is met, and the result is a finished, guarded function on disciplined ids |
| `Emitters.EmitFunction` | crates/lichen-compute-gpu/src/spirv.rs:1461-2573 | binding, planning, emission and guard together succeed exactly on plannable bodies whose parameters have leaves, whose terminators fit and whose guard has what it compares; every refusal is true; on success the function is finished and its ids come off the module's cursor and pool |
| `MergeInsts.MergesAreNamed` | crates/lichen-compute-gpu/src/spirv.rs:3633-3667 | of every emitted function: a block that ends in a choice has a merge instruction and no other has; read back through the labels, a loop header's names its loop merge and the loop's first block, a selection's its pass-through or its join |
| `MergeInsts.NamedMergesAreDistinct` | crates/lichen-compute-gpu/src/spirv.rs:3633-3667 | no two merge instructions name one label as merge block |
| `MergeInsts.NamedLoopIsDominated` | crates/lichen-compute-gpu/src/spirv.rs:3633-3640 | a loop header strictly dominates, in the function's graph, the merge block and the continue target its instruction names |
| `MergeInsts.NamedSelectionIsDominatedExactly` | crates/lichen-compute-gpu/src/spirv.rs:3660-3667 | a selection strictly dominates the merge block its instruction names if and only if it merges at its join or dominates every block whose branch its pass-through carries |
| `Modules.TakeScope` | crates/lichen-compute-gpu/src/spirv.rs:1256-1351 | the first take is of id 1 and each starts where the one before it ended |
| `Modules.Compile` | crates/lichen-compute-gpu/src/spirv.rs:1396-1424 | after the scope's takes, the loop over a launch's functions on one cursor and one literal pool succeeds exactly when each is accepted, each function starting from the cursor the one before it left; otherwise the first that is not is refused for what is wrong with it |
| `Modules.NoIdDefinedTwice` | crates/lichen-compute-gpu/src/spirv.rs:1396-1440 | across a module, among the scope's ids, the literals' declarations and everything every function defines, each id is defined once, above 0 and below the header's bound |
| `StraightLine.CodeRuns` | crates/lichen-compute-gpu/src/spirv.rs:1608-1640 | a block's code, conversions and shared literals included, does to the ids what its instructions do to the values |
| `Simulation.ExitTakes` | crates/lichen-compute-gpu/src/spirv.rs:3606-3678 | the emitted branch goes to the target of the branch the body takes, with the arms the right way round at loop headers |
| `Simulation.JumpLands` | crates/lichen-compute-gpu/src/spirv.rs:2893-2904 | under parallel phi semantics, branching to a recorded target gives its parameters the words the edge passes |
| `Simulation.RealSteps` | crates/lichen-compute-gpu/src/spirv.rs:3563-3681 | one step from a real block keeps the two machines related and follows an emitted edge |
| `Simulation.AddedSteps` | crates/lichen-compute-gpu/src/spirv.rs:2479-2497 | a step in an added block hands the words on while the body stands still |
| `Simulation.NeverAstray` | crates/lichen-compute-gpu/src/spirv.rs:1596-2500 | after any number of steps the emitted machine is where the body is after some number of its own, and is never stuck |
| `Preservation.CallBegins` | crates/lichen-compute-gpu/src/spirv.rs:1515-1583 | after the prologue and the guard a call stands at the entry with every parameter and literal on its id, or in the guard's merge block with the memory untouched |
| `Preservation.ResultsAreTheBodys` | crates/lichen-compute-gpu/src/spirv.rs:2945-3189 | for every accepted body, inputs and instruction meaning: past its guard the emitted function is never stuck, and whatever it returns, and the memory it leaves, the body returns and leaves |
| `Preservation.MeaningIsPreserved` | crates/lichen-compute-gpu/src/spirv.rs:2945-3189 | where no pass-throughs ring, a call past its guard returns a result and leaves a memory exactly when the body does |
| `Preservation.SurplusLaneReturns` | crates/lichen-compute-gpu/src/spirv.rs:2535-2573 | a lane the guard turns away returns in two steps with the memory untouched, and does nothing else |
| `Preservation.PassageEndsExactlyWhenItArrives` | crates/lichen-compute-gpu/src/spirv.rs:3201-3231 | the emitted machine leaves the added blocks if and only if the edge it is on arrives in the emitted graph |
| `RingRuns.BreakAndContinueIsAccepted` | crates/lichen-compute-gpu/src/spirv.rs:2945-3189 | the example is well formed and accepted |
| `RingRuns.TheBodyReturns` | crates/lichen-compute-gpu/src/spirv.rs:2945-3189 | on inputs 1 and 0 the example returns 1 |
| `RingRuns.TheFunctionNeverReturns` | crates/lichen-compute-gpu/src/spirv.rs:3201-3231 | any function emitted for the example never returns on those inputs |
| `Scoping.NothingUndefinedIsRead` | crates/lichen-compute-gpu/src/spirv.rs:2588-2604 | along every run of a well-formed body, what an instruction or a terminator reads has been defined |
| `Classes.Resolver.ValueOf` | crates/lichen-compute-gpu/src/spirv.rs:2706-2774 | the mutually recursive walk ends, answers what its specification says, and restores `visiting` on success |
| `Classes.Resolver.ReadOf` | crates/lichen-compute-gpu/src/spirv.rs:2638-2654 | a parameter under resolution answers nothing; otherwise it is pushed, asked and popped, whatever the answer |
| `Classes.Resolver.StatedIn` | crates/lichen-compute-gpu/src/spirv.rs:2657-2697 | the loop over a block's instructions gives the merged opinion or the first disagreement |
| `Classes.Resolver.SelectOf` | crates/lichen-compute-gpu/src/spirv.rs:2854-2873 | the arms' common class, or the disagreement by name |
| `Classes.ClassMatchesEveryRead` | crates/lichen-compute-gpu/src/spirv.rs:2656-2697 | a resolved parameter has the class of every read in its block that states one |
| `Classes.ClassIsTheDefinitions` | crates/lichen-compute-gpu/src/spirv.rs:2716-2740 | a value whose definition states a class, a constant or an instruction's result, has that class |
| `Classes.ClassMatchesEveryEdge` | crates/lichen-compute-gpu/src/spirv.rs:2741-2770 | a parameter no instruction of its block reads has the class of every value a branch hands it, and where that value's definition states one it is that one |
| `Classes.SelectHasItsArmsClass` | crates/lichen-compute-gpu/src/spirv.rs:2854-2873 | a select has a class if and only if both its arms have it |
| `Classes.ChosenIsTheModules` | crates/lichen-compute-gpu/src/spirv.rs:2638-2697 | a parameter that a select of its block chooses resolves to the module's class or is refused |
| `ClassOrigins.ClassIsTraced` | crates/lichen-compute-gpu/src/spirv.rs:2638-2774 | a class other than the module's is traced, through arms and the values branches hand over, to a value whose definition states it or whose block reads it in it: the module's is answered only when nothing states another |
| `ClassOrigins.RefusalIsTrue` | crates/lichen-compute-gpu/src/spirv.rs:2638-2774 | every refusal is true: two reads of the parameter, two branches to it or two arms of a select have the two classes it names, in their order |
| `ClassOrigins.ChosenIntegerIsRefused` | crates/lichen-compute-gpu/src/spirv.rs:2676-2684 | a body that chooses between two integers in a module of floats is refused |
| `PhiTypes.Node.KindOf` | crates/lichen-compute-gpu/src/spirv.rs:3448-3481 | a parameter's kind is the class the resolver answers, whatever the edge passes, and a number of another class is refused; in an added block it is the edge's own kind, a constant's the module's |
| `PhiTypes.Node.Record` | crates/lichen-compute-gpu/src/spirv.rs:3503-3561 | the first edge makes the parameters and is filed as it is, a later one is coerced value by value or refused, and a second edge out of one block must pass the same ids |
| `PhiTypes.CoercedOneHasTheType` | crates/lichen-compute-gpu/src/spirv.rs:4199-4282 | whatever a later edge passes, a number, a constant or a comparison, what is filed has the parameter's type: what is of its kind already is filed as it is, and a constant as the same number in the parameter's class |
| `PhiTypes.RecordedIsFiled` | crates/lichen-compute-gpu/src/spirv.rs:3541-3561 | the node then has one entry for the edge's block, passing the ids the edge does, and no other entry is new |
| `PhiTypes.RecordRefusalIsTrue` | crates/lichen-compute-gpu/src/spirv.rs:3503-3561 | an edge is refused for its length, for a number of another class than its parameter's, for a class the resolver refuses, or for other ids than its block's entry passes |
| `PhiTypes.BlockEntriesAgreeExactly` | crates/lichen-compute-gpu/src/spirv.rs:3503-3561 | over every run of arrivals among anything else emitted: every entry of a block's phi has its parameter's type if and only if what the first edge passed is a number or a constant of a class of that type, the class being the resolver's |
| `PhiTypes.AddedEntriesAgreeExactly` | crates/lichen-compute-gpu/src/spirv.rs:3455-3460 | an added block's phi is typed throughout if and only if the first edge passed a number, a comparison, or a constant of a class of the module's type |
| `PhiTypes.ConstantEntersUnread` | crates/lichen-compute-gpu/src/spirv.rs:2741-2770 | a constant has the type of any parameter that nothing in its block reads |
| `PhiTypes.ComparisonEntersAnIntegerPhi` | crates/lichen-compute-gpu/src/spirv.rs:3521-3532 | a body whose one edge passes a comparison is recorded, and the only entry of an integer phi is a truth value |
| `ClassRanks.PlannedBodiesRank` | crates/lichen-compute-gpu/src/spirv.rs:2638-2774 | every well-formed planned body has the operand ranking the walk ends by, even when parameters feed each other in cycles |
| `Literals.Pool.Get` | crates/lichen-compute-gpu/src/spirv.rs:699-717 | a literal's id is taken and declared at its first use and kept for every later one |
| `Literals.LiteralsAreInjective` | crates/lichen-compute-gpu/src/spirv.rs:683-717 | two literals never share an id, each is below the cursor, and one declaration alone has it, of its class and with the word that spells its number: all of it, its low 32 bits, or their high half |
| `Encoding.Encode` | crates/lichen-compute-gpu/src/spirv.rs:602-606 | an instruction is its head word, the word count in the high half and the opcode in the low, then its operands |
| `Encoding.WalkRecoversExactlyTheShort` | crates/lichen-compute-gpu/src/spirv.rs:602-606 | a word-count walk of an encoded stream recovers every opcode and operand list if and only if each has fewer than 65535 operands |
| `Encoding.Census` | crates/lichen-compute-gpu/examples/fma_probe.rs:319-336 | on an encoded module the walk visits exactly the instructions and counts the three opcodes |
| `Encoding.StringRoundTrip` | crates/lichen-compute-gpu/src/spirv.rs:992-1003 | a packed string reads back as its text if and only if the text has no NUL |
| `PushConstants.PushLayout` | crates/lichen-compute-gpu/src/spirv.rs:1032-1042 | the offsets and size of the block |
| `PushConstants.LayoutIsTight` | crates/lichen-compute-gpu/src/spirv.rs:1026-1042 | each offset is aligned to its leaf's width and less than that width past the previous leaf's end, and the block ends at the last leaf |
| `PushConstants.LeavesAreApart` | crates/lichen-compute-gpu/src/spirv.rs:1026-1042 | leaves do not overlap and their offsets increase |
| `PushConstants.WriteLeaf` | crates/lichen-compute-gpu/src/dispatch.rs:359-363 | writes a leaf's low bytes at its offset and nothing before or after them, or panics past the block |
| `PushConstants.ScalarBlock` | crates/lichen-compute-gpu/src/dispatch.rs:2049-2083 | refused for the first of its causes, a number of leaves, a size, an extent that is no integer, or a write past the block, and filled exactly when there is none, every member then holding its leaf cut or filled up to its width |
| `PushConstants.MatchingLeavesFit` | crates/lichen-compute-gpu/src/dispatch.rs:2054-2083 | leaves of the declared classes always fit |
| `PushConstants.LaunchPastTheBlock` | crates/lichen-compute-gpu/src/dispatch.rs:2079-2082 | a launch no check refuses whose last write ends past the block |
| `PushConstants.MemberReadsBack` | crates/lichen-compute-gpu/src/dispatch.rs:353-363 | reading a member at the emitter's offset and width gives the leaf's bits modulo 2^64 for an integer given for an integer of an integer module and modulo 2^32 otherwise, whatever the leaves around it were |
| `Coverage.LaneWordsAreTheLeaves` | crates/lichen-compute-gpu/src/spirv.rs:1534-1583 | what a lane is handed: the count cut to the extent's width, the launch's leaves cut to their members, and its index cut to 32 bits |
| `Coverage.RunsExactly` | crates/lichen-compute-gpu/src/spirv.rs:2535-2573 | through prologue and guard a lane gets into the body if and only if its 32-bit index is below the extent as pushed |
| `Coverage.EachLane` | crates/lichen-compute-gpu/src/spirv.rs:2535-2573 | a lane that gets in returns exactly what the body does; any other leaves the memory untouched |
| `Coverage.StepsAreGuardedEdges` | crates/lichen-compute-gpu/src/spirv.rs:3696-3735 | every step of a guarded call goes along an edge of the guarded graph, until it returns |
| `Coverage.LanesAreTheCount` | crates/lichen-compute-gpu/src/dispatch.rs:1600-1699 | for every count: the lanes that get into the body are those from 0 to the count, once each, if and only if the count is below 2^32, or is 2^32 in an integer module |
| `Coverage.BarriersAreUniformExactly` | crates/lichen-compute-gpu/src/dispatch.rs:382-402 | for every count: some dispatched workgroup parts at its guard if and only if the staged launch would be refused and the workgroup its extent ends in is dispatched, which up to 2^32 lanes it always is |
| `SlotPool.NextKeeps` | crates/lichen-compute-gpu/src/dispatch.rs:1302-1340 | every host call with any driver answer, and every device finish, keeps the pool's invariant |
| `SlotPool.NothingReusedWhileRunning` | crates/lichen-compute-gpu/src/dispatch.rs:1302-1329 | over every run, depth and timing: nothing is reset, recorded or written under a running submission, and an unclaimed slot is idle |
| `SlotPool.SyncedMeansFinished` | crates/lichen-compute-gpu/src/dispatch.rs:1334-1340 | a successful wait means the token's own submission finished, however often its slot was used since |
| `SlotPool.SyncFailsExactlyWhenRefused` | crates/lichen-compute-gpu/src/dispatch.rs:2323-2343 | with the device in time the wait for a submission fails if and only if, after its hand-over, the queue refused one on its slot whose recording had ended and whose fence was reset, and took none on that slot since |
| `SlotPool.FinishedYetUnwaitable` | crates/lichen-compute-gpu/src/dispatch.rs:2323-2343 | a run in which a finished submission can no longer be waited for |
| `SlotPool.Slots.Acquire` | crates/lichen-compute-gpu/src/dispatch.rs:1302-1329 | round-robin; hands out the slot only idle and claimed |
| `SlotPool.Slots.HandToQueue` | crates/lichen-compute-gpu/src/dispatch.rs:3297-3301 | in flight only after the queue took the submission |
| `SlotPool.Slots.Submit` | crates/lichen-compute-gpu/src/dispatch.rs:3309-3312 | the slot stays claimed and its number is the token, or the claim goes back |
| `SlotPool.Slots.SubmitAndReadBack` | crates/lichen-compute-gpu/src/dispatch.rs:3330-3345 | succeeds exactly when the queue took the submission and it finished in time; the staging is read after the wait and inside the claim, and only a failed wait keeps the slot claimed |
| `SlotPool.Slots.Drop` | crates/lichen-compute-gpu/src/dispatch.rs:3372-3379 | the claim goes back unless a submission may still run |
| `SlotPool.Slots.Sync` | crates/lichen-compute-gpu/src/dispatch.rs:1334-1340 | the slot is given back only when its fence has signalled, and then every submission it ever had is finished |
| `SlotTurns.CursorCountsTurns` | crates/lichen-compute-gpu/src/dispatch.rs:1304-1306 | over every run the cursor is the number of acquisitions so far modulo the depth, however each of them ended |
| `SlotTurns.TurnsInARowDiffer` | crates/lichen-compute-gpu/src/dispatch.rs:1304-1306 | of any `depth` acquisitions in a row no two get one slot |
| `SlotTurns.ClaimedExactlyWhileTaken` | crates/lichen-compute-gpu/src/dispatch.rs:1302-1340 | over every run a slot is claimed exactly from its acquisition until it is dropped unsent, read back in time, or waited for successfully |
| `SlotTurns.FreeSlotNeedsNoWait` | crates/lichen-compute-gpu/src/dispatch.rs:1307-1311 | when the slot whose turn it is is not taken, an acquisition gets it at once, whatever the device does |
| `SlotTurns.FreshSlotsNeedNoWait` | crates/lichen-compute-gpu/src/dispatch.rs:1302-1329 | the first `depth` acquisitions of a fresh pool wait for nothing and succeed, whatever is still running |
| `SlotTurns.TakenSlotIsWaitedFor` | crates/lichen-compute-gpu/src/dispatch.rs:1307-1311 | when it is taken, an acquisition gets it exactly when a wait for it comes back |
| `Sums.PoolWith` | crates/lichen-compute-gpu/src/dispatch.rs:2180-2194 | changing one pool list changes the pooled total by what changed in the list |
| `Ledger.NextKeeps` | crates/lichen-compute-gpu/src/dispatch.rs:2103-2194 | every operation keeps the counters equal to the sums, one owner per allocation, records within their allocations and pool lists within the cap |
| `Ledger.OneOwner` | crates/lichen-compute-gpu/src/dispatch.rs:2103-2194 | over every run an allocation is named by at most one id, pool place or holder |
| `Ledger.FetchStaysInside` | crates/lichen-compute-gpu/src/dispatch.rs:2202-2209 | through any mix of relabels, recycling and reuse a fetch copies no byte past the allocation |
| `Ledger.CountersAreSums` | crates/lichen-compute-gpu/src/accounting.rs:161-196 | without driver errors the per-tag counters are the sums over the maps and never wrap below zero, and `alive` is what records claim plus what relabels shed, never above the peak |
| `Ledger.NextDrifts` | crates/lichen-compute-gpu/src/accounting.rs:161-173 | `alive` leaves what the driver holds only by a failed allocation or by freeing a buffer a relabel shrank, by exactly that many bytes |
| `Ledger.AliveIsTheDriversAndTheDrift` | crates/lichen-compute-gpu/src/accounting.rs:139-173 | over every run `alive` is what the driver holds plus the run's drift |
| `Ledger.IdsAreNeverReused` | crates/lichen-compute-gpu/src/dispatch.rs:1502-1514 | an id handed out and released never names anything again |
| `Ledger.ReleaseIsIdempotent` | crates/lichen-compute-gpu/src/dispatch.rs:2278-2292 | releasing again changes nothing |
| `Ledger.Context.Allocate` | crates/lichen-compute-gpu/src/dispatch.rs:2103-2176 | a pooled buffer of the shape, re-tagged, or a new one counted before the driver answers; never one somebody holds |
| `Ledger.Context.Recycle` | crates/lichen-compute-gpu/src/dispatch.rs:2180-2194 | the buffer is the last of its shape's pool, or past four the driver's |
| `Ledger.Context.Issue` | crates/lichen-compute-gpu/src/dispatch.rs:1502-1514 | one new id per buffer, in order, naming it, and no other |
| `Ledger.Context.Release` | crates/lichen-compute-gpu/src/dispatch.rs:2283-2292 | the id is gone and its buffer recycled; a second release is a no-op |
| `Ledger.Context.Relabel` | crates/lichen-compute-gpu/src/dispatch.rs:2256-2276 | refused exactly when the id is not held or the record would claim more bytes |
| `Ledger.Context.FetchSize` | crates/lichen-compute-gpu/src/dispatch.rs:2202-2210 | refused past the record's elements; otherwise the copy is inside the allocation |
| `Ledger.TakenLessFreedIsTheDrivers` | crates/lichen-compute-gpu/src/accounting.rs:139-173 | over every run the bytes the rows say were taken, less those they say were freed, are what the driver holds plus the run's drift |
| `Counters.PeakIsTheMost` | crates/lichen-compute-gpu/src/accounting.rs:139-173 | over every run `peak` is the most `alive` ever was: never less, and it was that |
| `Counters.RowsCountTheirUse` | crates/lichen-compute-gpu/src/accounting.rs:139-173 | over every run each row counts, for its use alone, the bytes asked of the driver and those of it the driver got back |
| `Counters.FreedExactlyWhenSurplus` | crates/lichen-compute-gpu/src/dispatch.rs:2180-2194 | the driver gets an allocation back exactly when its buffer comes back to a pool that holds four of its shape |
| `Counters.MadeExactlyWhenAsked` | crates/lichen-compute-gpu/src/dispatch.rs:2103-2176 | an allocation is made exactly when the pool of the shape is empty and the driver answers |
| `BuffersInUse.SafeThroughoutExactly` | crates/lichen-compute-gpu/src/dispatch.rs:1378-1393 | over joint runs of slots and ledger: all through a run no buffer an unfinished submission uses is in the pool or with the driver, if and only if no event of the run gives back one that is in use |
| `BuffersInUse.AfterTheWait` | crates/lichen-compute-gpu/src/dispatch.rs:1378-1393 | after a wait that succeeded, giving back a buffer its submission alone used gives back none in use |
| `BuffersInUse.TimedOutIsUnsafe` | crates/lichen-compute-gpu/src/dispatch.rs:1378-1393 | a run that waits in vain and gives its upload back all the same leaves a buffer in use in the pool |
| `Chains.RecordLinks` | crates/lichen-compute-gpu/src/dispatch.rs:1956-1979 | the first link reads the source and writes the first buffer; each other reads what the one before it wrote and writes the other of the two |
| `Chains.NoLinkReadsWhatItWrites` | crates/lichen-compute-gpu/src/dispatch.rs:1956-1979 | no link reads and writes one buffer |
| `Chains.LinksIterate` | crates/lichen-compute-gpu/src/dispatch.rs:1860-2001 | after each link the buffer it wrote holds, below the count, the kernel iterated that often |
| `Chains.SettledHoldsNone` | crates/lichen-compute-gpu/src/dispatch.rs:1983-2001 | settling leaves the host holding none of the chain's buffers, the source and the spare given back and nothing lost, and makes only the last link's output resident |
| `Chains.TakeBuffers` | crates/lichen-compute-gpu/src/dispatch.rs:1927-1951 | three different buffers nobody held; when they cannot all be had the source is given back, an output already had is dropped, and the host holds what it held before |
| `Chains.ResultsFollowTheInput` | crates/lichen-compute-gpu/src/dispatch.rs:1860-2001 | a chain's first `count` results are the same for any two inputs that agree below `count`, whatever buffers the pool gave and whatever those held |
| `Chains.RunChain` | crates/lichen-compute-gpu/src/dispatch.rs:1860-2001 | refused, books untouched, for the first cause there is: a length past 64, a shape that is no chain, no module class, two classes, its scalars, no pipeline, a launch with a barrier of no whole workgroups, or nothing to run; failed by the driver only when it does not answer, after a failed wait with the source given back and the outputs dropped; otherwise one resident whose first `count` elements are the kernel applied `links` times to the zero-extended input, on buffers large enough, the source and the unused one given back; and however it ends the host holds what it held before |
| `Staging.NarrowUndoesWiden` | crates/lichen-compute-gpu/src/dispatch.rs:2879-2900 | widening brain floats and narrowing them again loses nothing but a trailing half element |
| `StagedElements.HostsAreStaged` | crates/lichen-compute-gpu/src/dispatch.rs:2879-2900 | by numbers: a host input stages one element for each whole one passed, at its slot's class and width, a float's as its number divided by 2^16 at a brain-float slot, a brain float's times 2^16 at a float slot, any other as it is |
| `Staging.StagedBytes` | crates/lichen-compute-gpu/src/dispatch.rs:1523-1539 | the reservation of one dispatch is the total of its blocks, conversions included |
| `Staging.BatchStaging` | crates/lichen-compute-gpu/src/dispatch.rs:1542-1558 | the reservation of a batch is the offset its recording will reach |
| `Staging.BlocksAreApart` | crates/lichen-compute-gpu/src/dispatch.rs:1568-1650 | two inputs' stretches of the staging never meet and all are inside the reservation |
| `Staging.Bind` | crates/lichen-compute-gpu/src/dispatch.rs:1715-1737 | each input's buffer, or the first input that names nothing there is, by what it names |
| `Batches.ProducedIsEarlier` | crates/lichen-compute-gpu/src/dispatch.rs:1715-1737 | an input binds exactly when it is host data, names a resident, or names an output of an earlier dispatch of the batch, whatever buffers were taken |
| `Batches.UploadFills` | crates/lichen-compute-gpu/src/dispatch.rs:1612-1640 | an upload's bytes and its cleared tail fill the buffer it goes to |
| `Batches.BuffersHaveRoom` | crates/lichen-compute-gpu/src/dispatch.rs:1612-1660 | an upload's buffer holds the greater of a whole launch and what the host holds, an output's the greater of a launch and the extent it declares |
| `Batches.TakeOne` | crates/lichen-compute-gpu/src/dispatch.rs:2103-2176 | one more buffer of the shape asked for, pooled or new, that is none of those taken so far |
| `Batches.DispatchInto` | crates/lichen-compute-gpu/src/dispatch.rs:1568-1711 | stages each host input where the ones before it ended, changes nothing before, takes every buffer from the ledger with room for its use, and stops at the total, or when the driver makes no buffer |
| `Batches.RecordBatch` | crates/lichen-compute-gpu/src/dispatch.rs:1823-1851 | unless the driver makes no buffer, records exactly when every dispatch binds and runs something, and otherwise names the first that does not, by what it names; the final offset is the reservation, every block is where its upload will read it, and the buffers are taken from the ledger |
| `BatchRuns.TakenIsSeparate` | crates/lichen-compute-gpu/src/dispatch.rs:2103-2115 | the buffers a batch takes, pooled or new, are no two one allocation and none a resident's |
| `BatchRuns.BatchIsItsDispatches` | crates/lichen-compute-gpu/src/dispatch.rs:1773-1851 | executing the recorded batch leaves in every output what running the dispatches one by one would, though all inputs were staged first; of the buffers it asks only that they are separate |
| `BatchRuns.RunToItsWait` | crates/lichen-compute-gpu/src/dispatch.rs:1780-1810 | refused for its length, its bindings or the driver; otherwise, on buffers from the ledger, the outputs hold what the dispatches one by one would leave |

## Left out

- Emitters.EmitFunction: which class each position wants and how many ids its conversion takes are data of the body (`Kernel.Lowering`), not the source's tables; the refusals those tables make (a class that disagrees, an operator a target lacks) are not modelled, and an operator is one uninterpreted function of operands and memory.
- EmissionInvariant.RecordKeeps: an edge's value of another class is refused by the source; here it takes the conversions the body's data name. `PhiTypes.Node.Record` has the classes and their refusals.
- Emitters.Emitter.Record: the same; one node's edges with their classes are `PhiTypes.Node`.
- Emitters.Emitter.PlaceOne: the refusal of a number of another class is in `PhiTypes`, not here.
- Emitters.Emitter.Lower: the operator table's refusals are not modelled.
- Emitters.Emitter.Terminate: nor a returned value of another class.
- Emitters.Emitter.Emit: nor either of a node's.
- Emitters.Emitter.EmitAll: nor either over the order.
- Emitters.FunctionFacts: success ignores the refusals of the class and operator tables.
- EmissionProof.InstructionsKeep: success ignores the refusals of the operator table.
- EmissionProof.TerminateKeeps: success ignores the refusals of class coercion.
- EmissionProof.RealNodeKeeps: success ignores both.
- EmissionRun.RunKeeps: success ignores both.
- PhiTypes.BlockEntriesAgreeExactly: what a value's slot holds is given with it; the operator table that decides it is not modelled.
- Preservation.MeaningIsPreserved: a conversion keeps the value's word, so what rounding or truncating between classes does to a number is not modelled; a word read before it is defined counts as zero in both machines, which `Scoping.NothingUndefinedIsRead` shows never happens.
- Modules.Compile: an instruction's own ids are counted, not named by opcode; the scope's takes are counted from the sizes the launch has.
- Classes.Resolver.ValueOf: which class each operator fixes per operand position is data of the model, not the source's table; the walk over it is the source's.
- PlanProperties.SelectionDominatesItsPass: one direction; `Lifting.PassIsDominatedExactly` is the exact condition.
- Coverage.LanesAreTheCount: a device's own limit on workgroups, below 2^32, is not modelled; a count held on the device, and the command block it is read into, neither.
- Chains.RunChain: a kernel is a function of its input and of what its output held, assumed to read below the count; the input slot's and the output slot's classes are given, and the elements are numbers rather than bytes.
- BatchRuns.RunToItsWait: what follows the wait (ids for the outputs, uploads given back) is `Ledger.Context.Issue` and `Recycle`, proved there and not run again here.
- Ledger.CountersAreSums: unbounded integers; `padded * width` wrapping at 64 bits and the counters' upper wrap are not modelled.
- SlotPool.NothingReusedWhileRunning: the pool lock is held by the open segment, so host calls it keeps out do not happen rather than block.
- Batches.DispatchInto: device-held extents and their command blocks, and the refusals of a launch and of its scalars (`Launch`, `PushConstants.ScalarBlock`), which a dispatch comes with already answered.
- Batches.RecordBatch: the same.
- PushConstants.ScalarBlock: bytes are integers below 256; the device's own limit is a parameter.
- Every Vulkan call, device selection, feature probing, memory types and cooperative matrices: foreign calls; submit, finish, fence and allocation answers are parameters or steps.
- `KernelBody::validate` is not part of this model: well-formed SSA (definitions dominate uses, each value defined once, arities match) is assumed of a body.
- Barriers, warp exchange and shared memory beyond a launch's uniformity.
- Section order, annotations and capabilities of the assembled module.
- Pipeline and layout caches, staging growth, display text of refusals.
