# GraphMini, verified

GraphMini counts the occurrences of a small pattern in a large graph. GraphPi schedules
the pattern: a vertex order, restrictions that break its symmetry, and groups for
inclusion-exclusion. The plan compiler turns the schedule into nested loops over sorted
vertex sets and may rewrite them to read pruned adjacency rows ("minigraphs"). GraphPi
also brings an interpreter and a distributed runtime. Every stage must leave the number
of matches unchanged; that is what is proved here, for all patterns, all graphs, all
pruning decisions and all interleavings.

The common yardstick is `Patterns.Matches(g, q, r)`: the injective maps of the pattern `q`
into the graph `g` that keep its edges (and its non-edges if `q.induced`) and obey the
restrictions `r`, where `(a, b)` demands `id(a) > id(b)`.

How the results fit together:

- Symmetry breaking. `restricts_generate` returns exactly the sets that its search emits
  (described in `RestrictEmission`) and that break the symmetry. They, and the
  stabiliser chain of GraphZero, are obeyed by exactly one automorphic image of every
  injective assignment (`Symmetry.BreaksSymmetry`), so that restricted counts times the
  number of automorphisms are unrestricted counts on every graph.
- Inclusion-exclusion. Connected labelled graphs counted with signs give
  (-1)^(n-1) (n-1)!; weighting every set partition with these numbers turns sizes of
  intersections into the number of injective choices.
- Interpreter. `Interpreter.Worker.PatternMatching`, with live prefix sets overwritten in
  place and all its early exits, returns the number of matches, with or without
  inclusion-exclusion.
- Plan compiler. `LoopCode` is a small language with a meaning; the generated program,
  plain or pruned, enumerating or with inclusion-exclusion, counts the matches.
- Minigraphs. Whatever kind of minigraph and whatever run-time decisions, running the pruned
  program (row reads, set operations on sorted lists, builds in order, position lookups)
  counts the matches: `PrunedCount.CountPruned`, and `PrunedCount.CountPrunedIep` with
  inclusion-exclusion.
- Distribution. Every run of the server/worker protocol ends, and announces the number of
  matches; when the second vertex is already a leaf, if and only if no row that starts a
  match is cut (`LeafRows.LeafRunExact`).
- Motifs, the compiled 4-path plan, the CSR builder with its triangle counts, the block
  pool and the 8-bit ring are proved on their own.

Modules follow the source: GraphPi's schedule theory (`Patterns` to `OptimizeNum`; the search
for restriction sets is `Restricts`, `RestrictEmission`, `RestrictSearch`, `RestrictClique`), the
interpreter (`SortedLists`, `LinkedKeys`, `Schedules`, `Completions`, `Matcher`,
`Interpreter`), the plan compiler (`Closure`, `Ir`, `Plans`, `LoopCode`, `PlanCompiler`,
`PlanCorrect`, `PlainPlan`, `IepPlan`, `MgPlan`, `MgOrder`, `MgCollect`, `MgMark`, `MgSkipped`,
`MgCompile`, `MgIepPlan`),
the runtime (`VertexKernels`, `Positions`, `MiniGraphs`, `MgRuntime`, `BlockPool`), pruned
runs (`ListRun`, `MgBuild`, `PrunedRun`, `PrunedCount`), the distributor (`EdgeRanges`,
`RowPieces`, `Distributor`, `RunsEnd`, `DistributedCount`, `LeafRows`, `ByteRing`), and `Motifs`,
`PathPlan`, `GraphConversion`, `CsrBuild`, `Triangles`.

## Where the text and its intent differ

- src/backend/minigraph.h:684 inverts a guard, so the entries of the next loop would never
  be built; `MiniGraphs` follows src/backend_prof/minigraph.h:667-678.
- src/codegen/codegen.cpp:226-230 updates the bounded flag only for the first user at a
  depth; `MgCollect.FlagBounded` is the conjunction over all users.
- src/codegen/codegen.cpp:247-253 erases while iterating; `MgCompile.DropUnused` filters.
- src/codegen/codegen.cpp:235-246 marks the parents of used minigraphs in one ascending pass
  over each loop. A parent in the same loop stands before its child, so its turn is over when
  it is marked, and its own parent may be dropped although it is in use:
  `MgSkipped.ParentSkipped`. `MgMark.ParentsNeededIff` says exactly when no parent is lost.
- src/codegen/ir.cpp:47-68 is not an order when edge and restriction counts disagree;
  `Plans.SortUnique` produces each set once, unbounded twins first.
- dependency/GraphPi/src/mpi_stubs.cpp:68-71 empties the loop of depth 1; the interpreter
  follows dependency/GraphPi/src/graphmpi.cpp:201-207.
- src/backend/graph.h:40 returns the number of triangles as the maximal degree; the rooms
  that builds reserve are proved large enough from the row lengths instead.
- dependency/GraphPi/src/graphmpi.cpp:195-207 hands a range to the loop of depth 1, but a
  leaf at depth 1 has no such loop and counts the whole row, for every range of it.
  `LeafRows.LeafRunExact` says exactly when the result is still right, and
  `LeafRows.TenIsOvercounted` gives a graph on which it is not.
- src/codegen/codegen.cpp:258-286 leaves out the graph's row of a loop when minigraphs serve
  all sets of that loop, but a set without a parent (src/codegen/codegen.cpp:403-441) still
  names the rows of all earlier loops, if only for their vertex: for the complete pattern on
  vertices 0 to 3 with a fifth vertex adjacent to 3 only, loop 3 names the row of loop 1,
  which is not there. The model reads every row that is named.

## Model

| member | source | states |
|---|---|---|
| Symmetry.RestrictedCount | dependency/GraphPi/src/schedule.cpp:1998-2020 | if exactly one automorphic image of every injective assignment obeys the restrictions, then on every graph restricted count times number of automorphisms equals the unrestricted count |
| Symmetry.CompleteGraphDecides | dependency/GraphPi/src/schedule.cpp:1998-2020 | a set that keeps at most one image keeps exactly one if and only if its count on one large enough complete graph is the expected one |
| Symmetry.EdgesSuffice | dependency/GraphPi/src/schedule.cpp:1207-1235 | testing edges in one direction is enough: a permutation sending edges to edges also sends non-edges to non-edges |
| Symmetry.UnrestrictedDivides | dependency/GraphPi/src/schedule.cpp:949-952 | the order of the automorphism group divides every unrestricted count, so the integer division is exact |
| Permutations.AllExtensionsCount | dependency/GraphPi/src/schedule.cpp:1207-1235 | the backtracking enumeration below a partial permutation has (n - depth)! entries |
| Permutations.GetFullPermutation | dependency/GraphPi/src/schedule.cpp:1237-1251 | appends exactly the extensions of the current prefix, in order, and restores the use marks |
| Permutations.GetIsomorphismVec | dependency/GraphPi/src/schedule.cpp:1207-1235 | all automorphisms, each once, in lexicographic order |
| Permutations.CalcPermutationGroup | dependency/GraphPi/src/schedule.cpp:1253-1274 | the cycles of a permutation: each listed in order from its least element, the cycles by their least elements, pairwise disjoint, together covering every index |
| PatternGraph.Pattern.IsDag | dependency/GraphPi/src/pattern.cpp:307-333 | true if and only if the arrows can be ranked, that is, there is no cycle |
| PatternGraph.Pattern.CheckConnected | dependency/GraphPi/src/pattern.cpp:245-267 | true if and only if no proper vertex set containing vertex 0 is closed under edges |
| Restricts.AcyclicIsSatisfiable | dependency/GraphPi/src/schedule.cpp:1078-1130 | arrows are acyclic if and only if some assignment obeys all the restrictions they stand for |
| Restricts.Conflicts | dependency/GraphPi/src/schedule.cpp:1078-1130 | the acyclicity test fails exactly when no assignment obeys the restrictions both before and after the automorphism |
| Restricts.SwapRulesOut | dependency/GraphPi/src/schedule.cpp:1078-1130 | a two-cycle with its own restriction rules the automorphism out |
| Restricts.EliminationKeepsAtMostOne | dependency/GraphPi/src/schedule.cpp:1078-1130 | once every automorphism but the identity is ruled out, no injective assignment has two images that obey the restrictions |
| RestrictEmission.EmissionIs | dependency/GraphPi/src/schedule.cpp:1034-1130 | the list of emitted sets, in search order, holds a set exactly if the description emits it: drop what conflicts; when one automorphism is left the pairs so far are emitted, otherwise take up any two-cycle of the first automorphism left that has one, and go on |
| RestrictEmission.EmittedKeepsOne | dependency/GraphPi/src/schedule.cpp:1034-1130 | every emitted set keeps at most one automorphic image of every assignment and lists smaller vertices first |
| RestrictEmission.SomethingEmitted | dependency/GraphPi/src/schedule.cpp:1034-1130 | something is emitted when every automorphism but the identity swaps two vertices |
| RestrictClique.CliqueEmits | dependency/GraphPi/src/schedule.cpp:1034-1130 | for a complete pattern exactly the set of all pairs is emitted, and it breaks the symmetry |
| RestrictSearch.RecordSwaps | dependency/GraphPi/src/schedule.cpp:1048-1070 | the first pass records, in order, the pair of every automorphism that is one swap, and keeps the others |
| RestrictSearch.DropConflicts | dependency/GraphPi/src/schedule.cpp:1082-1095 | the elimination loop keeps, in order, exactly the automorphisms that some assignment still allows |
| RestrictSearch.AggressiveOptimizeDfs | dependency/GraphPi/src/schedule.cpp:1078-1130 | appends exactly the sets that are emitted below the restrictions so far, in order |
| RestrictSearch.AggressiveOptimizeGetAllPairs | dependency/GraphPi/src/schedule.cpp:1034-1076 | returns all emitted sets and no others, in order; each keeps at most one automorphic image |
| RestrictGeneration.TestDecides | dependency/GraphPi/src/schedule.cpp:1998-2020 | the test on the complete graph with one extra vertex succeeds if and only if the candidate breaks the symmetry |
| RestrictGeneration.CompleteGraph | dependency/GraphPi/src/dataloader.cpp:187-257 | builds the complete graph the test runs on |
| RestrictGeneration.Count | dependency/GraphPi/src/graph.cpp:195-238 | the interpreter on a schedule without inclusion-exclusion returns the number of restricted matches |
| RestrictGeneration.SiftRestricts | dependency/GraphPi/src/schedule.cpp:1998-2020 | the erasing loop keeps exactly the candidates that break the symmetry, in order |
| RestrictGeneration.RestrictsGenerate | dependency/GraphPi/src/schedule.cpp:1998-2020 | a set is returned if and only if it is emitted and breaks the symmetry; every returned set counts right on every graph; a complete pattern gets the one set of all pairs |
| Stabilizer.GraphZeroGetAutomorphisms | dependency/GraphPi/src/schedule.cpp:1183-1205 | exactly the automorphisms |
| Stabilizer.LargestEquivalent | dependency/GraphPi/src/schedule.cpp:1132-1181 | keeping only the largest first vertex per second vertex loses no constraint of the chain |
| Stabilizer.ChainBreaksSymmetry | dependency/GraphPi/src/schedule.cpp:1132-1181 | the stabiliser-chain pairs are obeyed by exactly one automorphic image of every injective assignment |
| Stabilizer.GraphZeroAggressiveOptimize | dependency/GraphPi/src/schedule.cpp:1132-1181 | returns such pairs, one for each second vertex |
| DisjointSets.DisjointSetUnion.Init | dependency/GraphPi/src/disjoint_set_union.cpp:15-19 | every element its own class |
| DisjointSets.DisjointSetUnion.GetFather | dependency/GraphPi/src/disjoint_set_union.cpp:30-33 | returns the root and compresses the path without changing the partition |
| DisjointSets.DisjointSetUnion.Merge | dependency/GraphPi/src/disjoint_set_union.cpp:21-28 | joins two classes; set_size stays the number of classes |
| ConnectedCounts.TotalIsSigned | dependency/GraphPi/src/schedule.cpp:1663-1675 | adding up signs over all bitmasks equals deciding the edges one by one |
| ConnectedCounts.MergedIsConnected | dependency/GraphPi/src/schedule.cpp:1663-1675 | merging the edges of a bitmask leaves one class if and only if the graph they form is connected: no labelling that is constant along its edges tells two vertices apart |
| SignedGraphs.LastVertexExpands | dependency/GraphPi/src/schedule.cpp:1645-1676 | the signed count of connected graphs satisfies c(n) = -(n-1) c(n-1) |
| SignedGraphs.ConnectedCount | dependency/GraphPi/src/schedule.cpp:1645-1676 | so for every n it is the number Mu(n) that this recurrence defines from Mu(1) = 1 |
| SignedGraphs.MuClosedForm | dependency/GraphPi/src/schedule.cpp:1645-1676 | Mu(n) is (-1)^(n-1) (n-1)! |
| ConnectedCounts.FillCounts | dependency/GraphPi/src/schedule.cpp:1639-1676 | slots 2n-2 and 2n-1 hold the numbers of connected graphs on n vertices with an even and with an odd number of edges; their difference is Mu(n), for every n |
| ExclusionGroups.KernelReached | dependency/GraphPi/src/schedule.cpp:1687-1730 | every way to split the elements into blocks is one of the enumerated labellings |
| ExclusionGroups.KernelDecides | dependency/GraphPi/src/schedule.cpp:1687-1730 | two enumerated labellings with the same blocks are equal: each set partition appears once |
| ExclusionGroups.LeavesExact | dependency/GraphPi/src/schedule.cpp:1687-1730 | the recursion reaches exactly the labellings in order of first use |
| ExclusionGroups.GetInExclusionOptimizeGroup | dependency/GraphPi/src/schedule.cpp:1687-1730 | appends the blocks and the signed product of every labelling below the current one, in order, and leaves the current prefix of id in place |
| ExclusionGroups.InitInExclusionOptimize | dependency/GraphPi/src/schedule.cpp:1634-1685 | the stored tables belong to all set partitions |
| InclusionExclusion.PartitionsCountInjective | dependency/GraphPi/src/schedule.cpp:1634-1730 | over all set partitions, the products of block weights and sizes of block intersections add up to the number of injective choices |
| ExclusionGroups.TablesCountInjective | dependency/GraphPi/src/graph.cpp:301-339 | the stored values times sizes of common sets, summed over the stored groups, count exactly the injective tuples |
| OptimizeNum.GetVecOptimizeNum | dependency/GraphPi/src/schedule.cpp:2022-2049 | -1 exactly for orders that do not grow along edges; otherwise the longest independent tail |
| OptimizeNum.TailIsIndependent | dependency/GraphPi/src/schedule.cpp:515-523 | dropping the first vertex of the tail, as one constructor does, keeps what the exclusion leaf needs |
| OptimizeNum.UseExclusion | dependency/GraphPi/src/schedule.cpp:515-523 | turns inclusion-exclusion on whenever at least two final vertices allow it, with fitting tables, and never for a single one |
| Schedules.Schedule.FindFatherPrefix | dependency/GraphPi/src/schedule.cpp:898-914 | finds or stores a prefix: no duplicates, fathers are one element shorter and earlier, lists partition the nodes by last element, only prefixes of the request are added |
| Schedules.Schedule.BuildLoopInvariant | dependency/GraphPi/src/schedule.cpp:884-896 | every loop's set is the node of its neighbour list, and every node is a prefix of some loop's list; the nodes fit in the preallocated slots |
| Schedules.MaxPrefixNumClosed | dependency/GraphPi/src/schedule.cpp:524-526 | there are n(n-1)/2 slots |
| Schedules.EraseImplied | dependency/GraphPi/src/schedule.cpp:916-947 | the erasing loop leaves the set of satisfying assignments unchanged, and no pair that follows from two others |
| Schedules.Schedule.AddRestrict | dependency/GraphPi/src/schedule.cpp:916-947 | stores an equivalent restriction list without implied pairs, threaded by second vertex |
| SortedLists.Intersection | dependency/GraphPi/src/vertex_set.cpp:48-102 | lists the common members in order |
| SortedLists.IntersectionWith | dependency/GraphPi/src/vertex_set.cpp:104-136 | the same in place, overwriting the list being read |
| SortedLists.UnorderedSubtractionSize | dependency/GraphPi/src/vertex_set.cpp:172-184 | the number of members outside an unordered duplicate-free list |
| Interpreter.Worker.BuildVertexSet | dependency/GraphPi/src/vertex_set.cpp:138-149 | overwrites one slot with the row, cut down to the father's set if there is one |
| Matcher.EntryBuilt | dependency/GraphPi/src/vertex_set.cpp:138-149 | the rebuilt slot holds the intersection of all matched neighbourhoods of its prefix |
| Matcher.EmptyEntry | dependency/GraphPi/src/graph.cpp:376-384 | giving up on an empty prefix set drops no match |
| Interpreter.BreakDropsNothing | dependency/GraphPi/src/graph.cpp:368-371 | stopping at the first candidate not below min_vertex drops no match |
| Matcher.FinishingIsChoosing | dependency/GraphPi/src/graph.cpp:301-339 | when the remaining vertices are constrained by their own sets and by being distinct only, completions are injective choices |
| Interpreter.Worker.CountBlock | dependency/GraphPi/src/graph.cpp:311-332 | the number of fresh vertices common to the sets of one block, through the working copy |
| Interpreter.Worker.ExclusionLeaf | dependency/GraphPi/src/graph.cpp:301-339 | the inclusion-exclusion branch adds the number of matches that extend the matched vertices |
| Interpreter.Worker.LastLeaf | dependency/GraphPi/src/graph.cpp:340-359 | the last loop adds the number of matches that extend the matched vertices |
| Interpreter.Worker.AggressiveFunc | dependency/GraphPi/src/graph.cpp:240-391 | adds the number of matches that extend the matched vertices, restores them, and leaves the sets of earlier depths alone |
| Interpreter.Worker.PatternMatching | dependency/GraphPi/src/graph.cpp:195-238 | before the final division, returns the number of maps that obey the restrictions ending before the last in_exclusion_optimize_num vertices: all restrictions when that number is 0 |
| Interpreter.Worker.MatchEdge | dependency/GraphPi/src/graph.cpp:416-430 | one edge range adds the matches through it, unless depth 1 is a leaf, which counts the whole row |
| Closure.RestrictsToMatrix | src/codegen/codegen.cpp:33-59 | for pairs with the smaller vertex first, one ascending pass marks exactly the pairs joined by a chain of restrictions |
| Closure.ReachTransitive | src/codegen/codegen.cpp:33-59 | being joined by a chain is transitive |
| Closure.ClosureKeepsMeaning | src/codegen/codegen.cpp:33-59 | the closed matrix is obeyed by the same assignments |
| Plans.SortUnique | src/codegen/codegen.cpp:123-131 | every set once, an unbounded twin before the set cut from it |
| Plans.CreatePlan | src/codegen/codegen.cpp:82-139 | each loop maintains exactly the sets with an edge that some later vertex needs; the plan is refused exactly when some vertex has no earlier neighbour |
| Ir.GetParentAt | src/codegen/ir.cpp:167-179 | the scan of an earlier loop returns the set's own cut to that loop |
| Ir.GetParentVset | src/codegen/ir.cpp:141-165 | returns the unrestricted twin of the same loop if there is one, else the exact one-shorter prefix |
| PlanCompiler.StepComputes | src/codegen/codegen.cpp:301-450 | one operation on the parent's set and the newest row yields the set |
| PlanCompiler.StartIsDenotes | src/codegen/codegen.cpp:301-450 | without a parent the chain of operations on the newest row yields the set |
| PlanCompiler.DenotesTwin | src/codegen/codegen.cpp:301-450 | cutting the unrestricted twin below the newest vertex yields the set |
| PlanCorrect.IterIsNext | src/codegen/codegen.cpp:82-139 | the set a loop runs over holds exactly the vertices that may come next |
| PlanCorrect.EmptySetKills | src/codegen/codegen.cpp:301-450 | skipping an iteration because any maintained set is empty drops no match |
| PlanCorrect.RunCountsAll | src/codegen/codegen.cpp:763-939 | any program whose pieces compute their sets, and whose last loop counts its completions, counts every match once |
| PlanCorrect.ProblemIsMatches | src/codegen/codegen.cpp:33-59 | compiling the closed restrictions does not change what is counted |
| PlainPlan.GeneratedRuns | src/codegen/codegen.cpp:301-450 | the code generated for a set assigns it, or counts it in the last loop, and gives up only when it is empty |
| PlainPlan.PlainPlanCorrect | src/codegen/codegen.cpp:301-450 | compiler correctness: on every graph the generated loops count exactly the matches, edge- or vertex-induced |
| PlainPlan.CompilePlain | src/codegen/codegen.cpp:82-139 | from pattern and restrictions to such a program, exactly for patterns that grow along edges |
| IepPlan.FindIepSet | src/codegen/codegen.cpp:153-162 | same_iep_computation singles out the cut of a later iterated set |
| IepPlan.TailNext | src/codegen/codegen.cpp:139-163 | a tail vertex is constrained by its set and by being distinct, only |
| IepPlan.ProductIsGroup | src/codegen/codegen.cpp:697-733 | the generated product is the stored value times the sizes of the blocks' common sets, also where two equal sets are not intersected |
| IepPlan.IepCounts | src/codegen/codegen.cpp:816-845 | with the products in place of the last k loops, before the division, the program counts exactly the maps that obey every restriction starting from a looped vertex |
| IepPlan.CompileIep | src/codegen/codegen.cpp:816-845 | compiles such a program; it counts the matches of all restrictions when none of them starts in the last k vertices |
| MgPlan.GetParentMg | src/codegen/ir.cpp:180-198 | no minigraph for loop 0, for a set without an edge to its own loop in an edge-induced plan, or when none listed before the set's loop covers it; otherwise one that covers and has no covering one behind it |
| MgPlan.PrunedRowServes | src/codegen/codegen.cpp:622-695 | a good answer of a covering minigraph can stand in for the graph's row |
| MgPlan.ComputedMeans | src/codegen/ir.cpp:128-139 | the minigraph computes the set exactly if it has the loop's vertices, the set has an edge to its own loop, and the minigraph intersects with the set cut to the loop before |
| MgPlan.ReadsPrunedRow | src/codegen/codegen.cpp:622-695 | the code of a set that has a minigraph names that minigraph's row and no other row |
| MgPlan.DirectRead | src/codegen/ir.cpp:128-139 | when the set is computed by the minigraph, the answer is the set, cut below the vertex if it is restricted |
| MgPlan.ReadRuns | src/codegen/codegen.cpp:622-695 | the rewritten operation yields the same set or count as the plain one |
| MgPlan.PrunedPlanCorrect | src/codegen/codegen.cpp:622-695 | the rewritten loops count exactly the matches whenever the rows they read are good; `PrunedRun` shows that the rows of a run are |
| MgCollect.CollectUnique | src/codegen/codegen.cpp:170-209 | collects exactly the minigraphs wanted by some set of some loop, once each |
| MgCollect.FlagBounded | src/codegen/codegen.cpp:211-233 | a minigraph is flagged bounded exactly when every set that reads it is restricted |
| MgCollect.FlaggedIsSafe | src/codegen/codegen.cpp:211-233 | so bounded minigraphs are read only by restricted operations |
| MgOrder.GetMgParent | src/codegen/ir.cpp:199-213 | none exactly if nothing listed up to the child's loop feeds it; otherwise one that feeds it and has no feeding one behind it |
| MgOrder.ReadIsUnshadowed | src/codegen/ir.cpp:180-198 | no set reads a minigraph that a later one of the same loop can feed |
| MgOrder.ParentIsUnshadowed | src/codegen/ir.cpp:199-213 | nor is such a minigraph the parent of another |
| MgCompile.KeptInOrder | src/codegen/codegen.cpp:235-253 | so, among the minigraphs that are kept, each one's parent is built in an earlier loop or earlier in its own, whatever the order of a loop's list |
| MgMark.MarkUsed | src/codegen/codegen.cpp:211-246 | marks exactly the needed minigraphs: those that a set reads, and the parents of those whose own need is known when their turn comes |
| MgMark.ParentsNeededIff | src/codegen/codegen.cpp:235-246 | needed means read, or parent of a needed one, exactly when no minigraph is marked too late to mark its own parent |
| MgSkipped.ParentSkipped | src/codegen/codegen.cpp:235-246 | a compiled plan where that happens: a needed minigraph's parent is not needed |
| MgCompile.CoverKept | src/codegen/codegen.cpp:235-253 | dropping unmarked minigraphs does not change which one an operation reads |
| MgCompile.CreatePlanMg | src/codegen/codegen.cpp:170-255 | keeps a wanted minigraph if and only if it is needed, in the order they were collected, so that every set still reads the same one; built early enough, each after its parent, and safely flagged |
| MgCompile.CompilePruned | src/codegen/codegen.cpp:170-255 | from pattern and restrictions to such minigraphs and a rewritten program for them, exactly for patterns that grow along edges |
| MgIepPlan.PrunedIepCounts | src/codegen/codegen.cpp:875-915 | pruning and inclusion-exclusion together count what the unpruned products count, whenever the rows they read are good |
| MgIepPlan.CompilePrunedIep | src/codegen/codegen.cpp:875-915 | from a pattern with an independent tail to such minigraphs and a rewritten program with products |
| VertexKernels.Intersect | src/backend/vertex_set.h:146-196 | common members, with an upper bound the ones below it, in order |
| VertexKernels.IntersectCnt | src/backend/vertex_set.h:198-221 | their number |
| VertexKernels.Subtract | src/backend/vertex_set.h:223-257 | members outside the other list and other than its vertex, below the bound if there is one |
| VertexKernels.SubtractCnt | src/backend/vertex_set.h:259-291 | their number |
| VertexKernels.BoundedBy | src/backend/vertex_set.h:293-310 | the members below the bound, by scanning or bisecting |
| VertexKernels.BoundedCnt | src/backend/vertex_set.h:312-329 | their number |
| VertexKernels.RemoveId | src/backend/vertex_set.h:331-361 | everything but one vertex |
| VertexKernels.RemoveCnt | src/backend/vertex_set.h:363-385 | their number |
| Positions.BinarySearch | src/backend/minigraph.h:199-215 | the first position not below the value |
| Positions.GetIndices | src/backend/minigraph.h:217-258 | identity, bisection and merge all list exactly the positions of iterated vertices |
| Positions.LocatesEach | src/backend/minigraph.h:217-258 | for a sub-list of the vertices, entry j is the position of the j-th iterated vertex |
| MgRuntime.SkipMeansPrefix | src/codegen/codegen.cpp:520-530 | where the position lookup is skipped, the iterated set is a front part of the minigraph's vertices |
| MiniGraphs.MiniGraphStore.N | src/backend_prof/minigraph.h:824-854 | a pruned or reserved entry answers its pruned row; any other answers what its parent's linked entry answers, or the whole row without a parent; the answer lies between the pruned and the whole row, and every held slice stays |
| MiniGraphs.AnswerIsPruners | src/backend_prof/minigraph.h:824-854 | a passed-through entry answers the pruned row of the nearest ancestor that prunes its vertex, and the whole row if none does |
| MiniGraphs.AnswerKept | src/backend_prof/minigraph.h:824-854 | filling entries on demand changes no answer of any minigraph |
| MiniGraphs.MiniGraphStore.PruneEntry | src/backend_prof/minigraph.h:578-599 | the pruned row, whether it starts from the parent's answer or from the graph |
| MiniGraphs.PruneAnyRow | src/backend_prof/minigraph.h:578-599 | whichever correct row is intersected, the result is the pruned row |
| MiniGraphs.RowForChild | src/backend_prof/minigraph.h:824-854 | a parent's correct row is a correct starting row for the child |
| MiniGraphs.FillOther | src/backend_prof/minigraph.h:578-599 | materialising one entry changes no other entry's slice |
| MiniGraphs.MiniGraphStore.RoomFor | src/backend_prof/minigraph.h:536-576 | the reserved room is large enough for the pruned row |
| MiniGraphs.MiniGraphStore.BuildEager | src/backend_prof/minigraph.h:305-357 | every entry pruned, earlier minigraphs keep their answers |
| MiniGraphs.MiniGraphStore.BuildLazy | src/backend_prof/minigraph.h:395-461 | the next loop's entries pruned, all others passed through |
| MiniGraphs.MiniGraphStore.BuildOnline | src/backend_prof/minigraph.h:502-576 | the next loop's entries pruned, all others with room to be pruned on demand |
| MiniGraphs.Advance | src/backend_prof/minigraph.h:194-197 | finds an iterated vertex of an ascending walk, and reports another only behind the last iterated one, where memory happens to hold it |
| MiniGraphs.MiniGraphStore.BuildCostModel | src/backend_prof/minigraph.h:649-822 | the iterated entries pruned, and no others save one that memory behind the iterated list happens to name; each other entry reserved or passed through exactly as an arbitrary oracle says |
| MgRuntime.RowAnswers | src/codegen/codegen.cpp:485-518 | any correct row is a good answer for the compiled plan |
| MgRuntime.Answer | src/codegen/codegen.cpp:485-518 | whatever policy built it, the store's answer for a vertex of a built minigraph is good, and the minigraph stays built |
| MgRuntime.FeedsAtRunTime | src/codegen/ir.cpp:199-213 | a minigraph chosen as parent has all the child's vertices and members, and is bounded only if the child is |
| ListRun.RunBody | src/backend/vertex_set.h:146-385 | a loop body executed on sorted lists with the set kernels does what `LoopCode` says it means |
| MgBuild.BuildMini | src/codegen/codegen.cpp:452-483 | the variant picked for a minigraph (eager for the ones the next loop reads in full) is added behind the others with its parent: every entry pruned, reserved or passed through as that variant says |
| MgBuild.BuildOne | src/codegen/codegen.cpp:573-620 | one minigraph of a loop, with the loop's sets, its flag and the last feeding minigraph as parent |
| MgBuild.BuildLevel | src/codegen/codegen.cpp:573-620 | after a loop built its minigraphs in order, each from the parent found by the scan, all of its minigraphs and of the loops before are ready and keep their answers |
| PrunedRun.IndexUsed | src/codegen/codegen.cpp:520-541 | for every minigraph that the next loop reads, looked-up position or loop index finds the iterated vertex |
| PrunedRun.ReadRows | src/codegen/codegen.cpp:485-518 | the rows that a loop reads for its vertex are good, for every state in which the minigraphs of the loops before are ready |
| PrunedRun.RunIteration | src/codegen/codegen.cpp:848-874 | one iteration (row reads, set operations, builds, lookups, next loop) returns the number of matches that extend the chosen vertices, and leaves earlier minigraphs ready |
| PrunedRun.RunPruned | src/codegen/codegen.cpp:763-939 | a whole run of a pruned program counts every match once, for every kind of minigraph and every run-time decision |
| PrunedCount.CountPruned | src/codegen/codegen.cpp:763-939 | from pattern, restrictions and graph to the number of matches, through pruned loops, under any policy; nothing is assumed of the rows |
| PrunedCount.CountPrunedIep | src/codegen/codegen.cpp:875-915 | the same with products for the last k vertices: before the division, the maps that obey every restriction starting from a looped vertex, hence the matches when none starts in the tail |
| BlockPool.MiniGraphPool.AllocateWorkSpace | src/backend/minigraph.h:86-104 | a block that is large enough and was not lent: a free one if one of the right list fits, the smallest that does from the sorted list, and a new one only otherwise |
| BlockPool.MiniGraphPool.FreeWorkSpace | src/backend/minigraph.h:106-116 | returns the block to the right list, which stays sorted; every block stays free once or lent once |
| BlockPool.MiniGraphPool.Resize | src/backend/minigraph.h:118-128 | a larger block with the old contents in front; no other lent block changes |
| PathPlan.CountPaths | src/codegen_output/plan.cpp:14-44 | the counter is the number of induced embeddings of the 4-path in which loop 0's vertex is the greater end of the middle edge |
| PathPlan.EachPathOnce | src/codegen_output/plan.cpp:14-44 | that is each path once: half the unrestricted count |
| EdgeRanges.EveryEdgeOnce | dependency/GraphPi/src/graphmpi.cpp:47-71 | when a range adds the weights of its edges, and skipped edges weigh nothing, all ranges together add the weight of every edge once, for all chunk sizes |
| RowPieces.EveryPieceOnce | dependency/GraphPi/src/graphmpi.cpp:47-71 | when a range adds the same whatever its length, all ranges together add it as often as the row is cut, row by row, with the skips that get_send makes |
| RowPieces.WholeIsOne | dependency/GraphPi/src/graphmpi.cpp:60-69 | a row whose first edge is not skipped is one range if and only if it fits in a local chunk, or what does not fit is skipped |
| Distributor.StepKeeps | dependency/GraphPi/src/graphmpi.cpp:101-159 | every step of server, nodes, threads and channels keeps the invariant and the sum of what was added and what is still to be added |
| Distributor.FinishHasAll | dependency/GraphPi/src/graphmpi.cpp:147-158 | when all reports have arrived the server holds all of it |
| Distributor.EveryRunAccounts | dependency/GraphPi/src/graphmpi.cpp:36-161 | in every reachable state of every run no range is lost or added twice; announced totals do not depend on the interleaving, for any work the ranges do |
| Distributor.NoDeadlock | dependency/GraphPi/src/graphmpi.cpp:36-161 | every reachable unfinished state has a step |
| RunsEnd.StepDrops | dependency/GraphPi/src/graphmpi.cpp:36-161 | every step lowers a natural number: edges not dispatched, threads not gone, messages under way, reports due |
| RunsEnd.RunsAreFinite | dependency/GraphPi/src/graphmpi.cpp:36-161 | so no run is longer than that number at its start |
| RunsEnd.StuckIsOver | dependency/GraphPi/src/graphmpi.cpp:147-161 | a run that cannot go on is over: the server has the total and every other node was told it |
| DistributedCount.RangeWeighs | dependency/GraphPi/src/graph.cpp:416-433 | what a thread adds for a range is the sum of the matches its edges start |
| DistributedCount.RestrictedEdgesWeighNothing | dependency/GraphPi/src/graphmpi.cpp:60 | the edges the server skips start no match |
| DistributedCount.DistributedCounts | dependency/GraphPi/src/graphmpi.cpp:36-161 | for every plan, in every run and over every interleaving, the result is the number of matches, unless depth 1 is a leaf: then it is the matches from each vertex times the number of ranges its row is cut into |
| DistributedCount.DistributedFinishes | dependency/GraphPi/src/graphmpi.cpp:36-161 | every run ends, and when it cannot go on everybody was told that result |
| LeafRows.StartsExactly | dependency/GraphPi/src/graph.cpp:240-391 | with a leaf at depth 1 a vertex starts a match if and only if it has a smaller neighbour (one restricted edge) or enough neighbours (otherwise) |
| LeafRows.LeafRunExact | dependency/GraphPi/src/graphmpi.cpp:195-207 | with a leaf at depth 1 the result of a run is the number of matches if and only if every row that starts a match is whole |
| LeafRows.WholeRowsExact | dependency/GraphPi/src/graphmpi.cpp:195-207 | and otherwise it is greater |
| LeafRows.ShortRowsExact | dependency/GraphPi/src/graphmpi.cpp:28-31 | in particular it is right when no vertex has more neighbours than the local chunk holds |
| LeafRows.TenIsOvercounted | dependency/GraphPi/src/graphmpi.cpp:28-31 | with the chunk sizes the runtime computes and any number of threads, every pattern of at most ten vertices with a leaf at depth 1 is overcounted on the complete graph with ten vertices |
| LeafRows.EdgesOfTenOvercounted | dependency/GraphPi/src/graphmpi.cpp:28-31 | for instance its single edges |
| ByteRing.Bx2k256Queue.Push | dependency/GraphPi/src/graphmpi.cpp:223-228 | appends below 255 entries; one more empties the queue |
| ByteRing.Bx2k256Queue.FrontAndPop | dependency/GraphPi/src/graphmpi.cpp:230-236 | takes the oldest entry |
| ByteRing.NeverFull | dependency/GraphPi/src/graphmpi.cpp:174-189 | with up to 255 threads that queue at most once each, there is always room |
| Motifs.CountAllIsomorphism | dependency/GraphPi/src/pattern.cpp:270-297 | adds exactly the edge sets of the graphs isomorphic to this one |
| Motifs.MotifGenerator.Generate | dependency/GraphPi/src/motif_generator.cpp:5-42 | connected graphs only, pairwise non-isomorphic, one for every connected graph on size vertices |
| GraphConversion.GetId | src/preprocess/graph_converter.cpp:32-42 | old numbers stay, a new id gets the next number and only then is a number used up, numbers are dense |
| GraphConversion.ReadEdges | src/preprocess/graph_converter.cpp:80-97 | the renumbered edges, both directions, without loops; ids are numbered in the order of their first occurrence |
| CsrBuild.PrefixSum | src/preprocess/graph_converter.cpp:62-71 | row starts from degrees |
| CsrBuild.BuildRows | src/preprocess/graph_converter.cpp:99-131 | for any input: strictly sorted, symmetric, loop-free rows that hold exactly the renumbered edges |
| CsrBuild.RowsAreCsr | src/preprocess/graph_converter.cpp:116-131 | no row is empty, as the distributor needs |
| Triangles.CountTriangles | src/preprocess/graph_converter.cpp:135-151 | offsets count the neighbours below a vertex, and the numbers of common neighbours add up to the ordered triangles |
| Triangles.SixTimesTriangles | src/meta.cpp:59 | the stored number is six times the number of triangles, so dividing by six is exact |
| Triangles.Convert | src/preprocess/graph_converter.cpp:72-156 | all of this from one edge list |

## Left out

- The redundancy divisor and its adjustments: results with inclusion-exclusion are stated before the division.
- Cost estimates and performance models: every choice they make is an arbitrary oracle, or an input.
- IepPlan.IepCounts: two tail vertices may be in either order, as in the source; their restrictions are left to the divisor.
- DistributedCount.DistributedCounts: assumes rows without gaps (every vertex has an edge, which `CsrBuild.RowsAreCsr` establishes), positive chunk sizes, at least one worker thread per node and reliable first-in-first-out channels; the sizes of the server's send buffer are not modelled.
- Interpreter.Worker.PatternMatching: one thread; the parallel loop over first vertices only adds up independent counts.
- MiniGraphs.MiniGraphStore.BuildCostModel: when the iterated set shares the buffer it has to be a front part of the vertices; otherwise the source would read beyond its lists.
- Minigraphs are records in one store, a parent before its children; absent links and the two sentinel degrees are constructors; pool blocks are modelled in `BlockPool` and a minigraph's buffer is a growing sequence, so neither pooling of its buffer nor the two copies of the runtime (with and without profiling) are told apart.
- LeafRows.LeafRunExact: leaves aside stars counted by inclusion-exclusion with a restriction between centre and first leaf, which the server would skip by and the leaf ignore; no automorphism moves the centre of a star, so no generated set has one. `DistributedCount.DistributedCounts` covers them too.
- PrunedRun.RunIteration: whether two lists share an address is an arbitrary oracle, heeded only when one list is a front part of the other, which a shared address implies; minigraphs are never freed, since nothing reads those of an iteration that is over.
- Data races on lazily filled minigraphs under nested parallel loops, and the nested and task-parallel code generators.
- Vertex sets are identified by their edge and restriction bits; the ids given to them and to minigraphs are not modelled.
- MgCompile.CreatePlanMg: the order within a loop's list of minigraphs is any order, because the comparison that the source sorts by is not an order.
- Plans.SortUnique, CsrBuild.BuildRows: library sorting is modelled by insertion.
- RestrictGeneration.CompleteGraph: the loader's renumbering by degree is left out; all degrees of a complete graph are equal.
- Restriction pairs always have the smaller vertex first, as the search produces them; the vertex order itself comes from a performance model and is an input.
- Capacities of the preallocated arrays other than the prefix slots (restriction slots, intersection buffers) and integer widths other than the 8-bit ring index.
- Motif search in GraphPi's other entry points, clique-specific functions, the greedy scheduler, and the older restriction generator.
- Files, command lines, timers, logs, queries, converters and plotting scripts.
