# A verified model of `redecomp`

This project models the part of Tribol that moves a distributed mesh, its fields and its matrices between
MPI ranks, and two geometric kernels beside it, and proves what the code relies on.

| files | what they model |
|---|---|
| `BisecTree`, `TreeBroadcast` | the nearly-complete tree of `BisecTree.hpp`, the send tree, and `SendAll` / `RecvSendAll` as a step relation over all ranks with rendezvous sends |
| `Exchange` | `SendRecvEach` as a step relation over program counters and channels, for any number of back-to-back calls, and the array exchange of `MPIArray` as a transposition |
| `CutSearch`, `RCB`, `RCBPartition` | closed boxes, the bisection of the cut coordinate and when it ends, the tree of boxes, the point router, the neighbour lists and the ghost layer |
| `HeapsDomain` | one domain of ten entities on which the build loops for ever, loses ghosts or miscounts |
| `FieldTransfer`, `Repartition` | element numbering with ghosts, the quadrature transfer in both directions, and partition plus round trip as one program |
| `NodeLists`, `RedecompMesh` | the node lists that both sides build on their own, and the renumbering of vertices and elements in `BuildRedecomp` |
| `VDofTransfer`, `NodeTransfer`, `ElementTransfer` | transfer of grid functions by nodes and by elements, on vector dofs with overwriting |
| `VertexRoundTrip` | partition, rebuilding, node lists and both nodal transfers of a vertex field as one program |
| `SparsePacking`, `ColumnMapping`, `CsrAssembly`, `SparseMatrixTransfer` | the element-wise sparse matrix transfer: packing, remote look-up of columns, and the diag/offd/cmap assembly |
| `MatrixPacking`, `TrialDofs`, `TripletMerge`, `ElementMatrices` | parts of the element-matrix transfer: all packing functions, the two-hop look-up of trial dofs, triplets and their merge into compressed rows |
| `MarkedTransfer`, `MatrixTransfer` | the exchange for given tables of marked elements, and the whole transfer, which computes these tables from the element lists |
| `SegOverlap`, `PolyCollapse` | overlap of two collinear edges; collapse, ordering and checking of polygon candidates |
| `BasisFunction` | Lagrange bases, the mapping Jacobian and tangent gradients |

How it is read:

- Code that runs on every rank is modelled once per rank; a program on all ranks is a loop over the ranks, and
  an exchange is `Exchange.Transpose`, which `Exchange.ExchangeTheorem`, `Exchange.OncePerSource` and
  `Exchange.SendRecvArrayEach` justify for every interleaving.
- An array or `std::vector` of one rank that is assigned as a whole is a local `seq`; the tree is a class with
  a mutable field, and the polygon candidates (five parallel arrays) and the permutation are arrays changed in place.
- Heights count tree levels from the bottom (height 0 holds the parts), levels from the top as in the source.
- Coordinates and matrix values are `real`. The cut search works on a finite grid with an arbitrary rounding,
  because with exact reals the bisection need not end. A length is any function `mag` with
  `mag(x, y) >= 0` and `mag(x, y)^2 == x^2 + y^2`, and `atan2` is any function: only its order matters.

Three observations about the code came out of the proofs:

- **`n_try_new_axis <= 0` can loop for ever.** The exit test of the cut loop (`RCB.cpp:202`) compares with `==` a
  counter that only grows and is compared after a possible increment. `CutSearch.CutSearchEndsIff` proves that the
  loop ends on all inputs if and only if `n_try_new_axis >= 1`. A tree build meets such an input: with five entities
  in each of two points and four parts, the root's first cut is accepted and the right half is the search that
  `CutSearch.EndlessSearch` shows to run for ever. On that domain a partition tree exists if and only if
  `n_try_new_axis >= 1` (`HeapsDomain.TreeExistsIff`).
- **A node whose cuts were all rejected gets no ghost box**, so its parts neither receive ghosts nor, when they own
  the entity, hand out ghosts (`RCB.cpp:185-198`). `RCBPartition.ExactGhostLayer` is the exact condition;
  `RCBPartition.GhostLayerWhenAccepted` is the case in which every cut was accepted. `HeapsDomain.RejectedCutsLoseGhosts`
  is an entity that a part does not get as a ghost although it is within the ghost length of the part's box.
- **Counting and routing differ on cut planes.** The boxes are closed and the router prefers the left one. Counts and
  routed numbers agree at every node if and only if no entity lies on a cut plane
  (`RCBPartition.CountingAgreesWithRouting`). `HeapsDomain.CountedNotRouted` is a part that counts five entities and
  gets none.

## Model

| member | source | states |
|---|---|---|
| `BisecTree.LevelFormula` | src/redecomp/utils/BisecTree.hpp:41-44 | ceil(log2(n - 1/4)) has exactly one solution for every n >= 1, and it is one less than the number of levels that repeated halving gives |
| `BisecTree.LevelSizeIsCeiling` | src/redecomp/utils/BisecTree.hpp:46-52 | the size of the level at height h is the ceiling of n / 2^h |
| `BisecTree.OneRoot` | src/redecomp/utils/BisecTree.hpp:41-53 | a level has one node exactly from the top level on: one root, and no level below it has a single node |
| `BisecTree.TreeLinks` | src/redecomp/utils/BisecTree.hpp:176-283 | `root` undoes `left` and `right`; every inner node has a left child; a right child is missing exactly at the last node above a level of odd size |
| `BisecTree.AncInLevel` | src/redecomp/utils/BisecTree.hpp:176-195 | climbing from a bottom node stays inside every level |
| `BisecTree.FirstBelow` | src/redecomp/utils/BisecTree.hpp:220-239 | the left-most leaf of a node is an existing part below it |
| `BisecTree.BisecTree.constructor` | src/redecomp/utils/BisecTree.hpp:41-53 | the levels have the sizes of the halving rule, filled with empty nodes |
| `BisecTree.BisecTree.Set` | src/redecomp/utils/MPIUtility.cpp:105-107 | writing one node leaves all others as they were |
| `SendTree.BuildSendTree` | src/redecomp/utils/MPIUtility.cpp:96-111 | every node holds the source if the source is below it, else its left-most leaf |
| `SendTree.HolderRule` | src/redecomp/utils/MPIUtility.cpp:104-107 | the bottom-up rule of the loop computes those holders |
| `SendTree.HeightIsHighest` | src/redecomp/utils/MPIUtility.hpp:489-496 | a rank holds the node of its path at height h exactly up to the height where the climb stops |
| `SendTree.SourceHoldsRoot` | src/redecomp/utils/MPIUtility.hpp:479-481 | the source, and no other rank, holds the root |
| `SendTree.SenderFacts` | src/redecomp/utils/MPIUtility.hpp:491-497 | the rank waited on exists, is another rank, reaches a greater height, and has the waiting rank's highest node under its path |
| `SendTree.HandoverMeetsWaiter` | src/redecomp/utils/MPIUtility.hpp:508-519 | a rank sends at a level to d if and only if d waits on that rank with its highest node one level below |
| `SendTree.ScriptMeetsWaiter` | src/redecomp/utils/MPIUtility.hpp:502-521 | every message goes to a non-source rank that waits on the sender |
| `SendTree.WaiterIsInScript` | src/redecomp/utils/MPIUtility.hpp:502-521 | every rank that waits on r is named by r's sends |
| `SendTree.ScriptIsInjective` | src/redecomp/utils/MPIUtility.hpp:502-521 | no rank is named twice |
| `SendTree.SendToRest` | src/redecomp/utils/MPIUtility.hpp:502-521 | the loop sends to exactly the destinations of `Sends`, in that order |
| `SendTree.SendAll` | src/redecomp/utils/MPIUtility.hpp:476-482 | the source performs its script from the root |
| `SendTree.FindReceiveNode` | src/redecomp/utils/MPIUtility.hpp:488-496 | the climb stays in the tree, stops at the highest node that the rank holds, and the node above it holds the rank it receives from |
| `SendTree.RecvSendAll` | src/redecomp/utils/MPIUtility.hpp:484-500 | receives from `Sender` and then performs its own script |
| `TreeBroadcast.StepInv` | src/redecomp/utils/MPIUtility.hpp:476-521 | each completed send informs one more rank and keeps: informed ranks hold the source's data, uninformed ranks have sent nothing, a destination is informed exactly if its message was sent |
| `TreeBroadcast.NeverStuck` | src/redecomp/utils/MPIUtility.hpp:476-521 | if no rendezvous can complete, all ranks hold the data and all scripts are done |
| `TreeBroadcast.BroadcastTheorem` | src/redecomp/utils/MPIUtility.hpp:476-521 | for every rank count, source and interleaving: at most n - 1 sends; stuck exactly after n - 1; then every rank holds the source's data |
| `Exchange.RoundsPair` | src/redecomp/utils/MPIUtility.hpp:526-529 | in every round destinations and sources are other ranks and are inverse to each other |
| `Exchange.StepChannel` | src/redecomp/utils/MPIUtility.hpp:526-542 | a step of any rank keeps every channel equal to the messages sent and not yet received, in order |
| `Exchange.StepLog` | src/redecomp/utils/MPIUtility.hpp:537-544 | what a rank has processed is a function of where it stands, whatever the interleaving |
| `Exchange.StepInv` | src/redecomp/utils/MPIUtility.hpp:523-545 | both hold in every reachable state |
| `Exchange.PartnerMoves` | src/redecomp/utils/MPIUtility.hpp:535-541 | if the least advanced rank waits, its partner of the round can move |
| `Exchange.NeverStuck` | src/redecomp/utils/MPIUtility.hpp:523-545 | while a call is incomplete some rank can move, even if a wait returns only after the receive |
| `Exchange.ExchangeTheorem` | src/redecomp/utils/MPIUtility.hpp:523-545 | for every rank count, number of back-to-back calls and interleaving: runs are bounded; a run has full length exactly if all calls are complete; no deadlock; then every rank has processed call after call exactly what was built for it, and the channels are empty |
| `Exchange.OncePerSource` | src/redecomp/utils/MPIUtility.hpp:526-544 | within one call each source is processed exactly once, with what it built for this rank in that call |
| `Exchange.StoreReceipts` | src/redecomp/utils/MPIArray.hpp:104 | each container ends up at its source rank and other places keep what they held |
| `Exchange.SendRecvArrayEach` | src/redecomp/utils/MPIArray.hpp:100-105 | a call leaves row d of the transposed table, whatever the array held before |
| `Exchange.ExchangeTwice` | src/redecomp/transfer/SparseMatrixTransfer.cpp:155-164 | exchanging twice gives every container back to the rank it came from |
| `Boxes.CutPartitions` | src/redecomp/partition/RCB.cpp:264-285 | counting left first and then right misses no entity of the node's box and counts none twice |
| `Boxes.HalvesByCoordinate` | src/redecomp/partition/RCB.cpp:165-168 | the left half of a cut box is its points with coordinate at most the cut, the right half those with at least the cut |
| `Boxes.LeftCountMonotone` | src/redecomp/partition/RCB.cpp:165-172 | raising the cut never loses an entity on the left |
| `Boxes.CountIsCardinality` | src/redecomp/partition/RCB.cpp:263-285 | counting with a property over all meshes gives the number of places, mesh and index, with the property |
| `Boxes.CountEntities` | src/redecomp/partition/RCB.cpp:263-285 | the two counts over all meshes and ranks are the entities in the left box, and those only in the right box |
| `CutSearch.PassDecreases` | src/redecomp/partition/RCB.cpp:164-207 | every pass that does not leave the loop decreases a lexicographic measure of the interval, the cut, the repeats left and the last proportion |
| `CutSearch.StuckEndsIff` | src/redecomp/partition/RCB.cpp:200-206 | once interval, cut and count repeat, the search ends if and only if its repeat count is still below n_try_new_axis, and then gives up on that cut |
| `CutSearch.EndlessSearch` | src/redecomp/partition/RCB.cpp:200-206 | for n_try_new_axis <= 0 the search on the right half of the two heaps is still running after any number of passes |
| `CutSearch.CutSearchEndsIff` | src/redecomp/partition/RCB.cpp:164-207 | the loop ends on every input on a finite grid if and only if n_try_new_axis >= 1 |
| `CutSearch.CountsEntities` | src/redecomp/partition/RCB.cpp:165-172 | what is compared is the number of coordinates of all meshes in the box, and of those among them not above the cut |
| `CutSearch.PassesBisect` | src/redecomp/partition/RCB.cpp:157-207 | in every state that a search reaches, lo is the greatest tried cut with too few on the left or the low end of the box, hi the least with too many or the high end, and the tried cuts are those of such a bisection; once ended they are a whole search |
| `CutSearch.GoodCutsRemain` | src/redecomp/partition/RCB.cpp:177-182 | no cut of the box outside the interval that is left would be accepted |
| `CutSearch.JudgeCut` | src/redecomp/partition/RCB.cpp:170-199 | the cut is to be raised exactly if its share of the entities lies below the desired one by more than max_out_of_balance and by more than two entities, lowered exactly if it lies above by more than both, and kept otherwise, also when there is nothing to split (the 0/0 comparisons) |
| `CutSearch.FindCut` | src/redecomp/partition/RCB.cpp:157-207 | whenever the search ends, the cuts it tried are a bisection: first the weighted cut of the box, then the middle between the greatest cut with too few and the least with too many on the left (or the ends of the box); all but the last are rejected, and the last is accepted, or rejected with the limit of repeated shares reached; the result is the last one, and good exactly if it has neither too few nor too many |
| `RCBTree.ShareIsLeafFraction` | src/redecomp/partition/RCB.cpp:88-110 | the bottom-up sum of a node is (parts below it) / n |
| `RCBTree.RootShare` | src/redecomp/partition/RCB.cpp:96-109 | the root's sum is 1 |
| `RCBTree.FractionTree` | src/redecomp/partition/RCB.cpp:86-110 | the loops fill in these fractions and nothing else |
| `RCBTree.PositiveTryEnds` | src/redecomp/partition/RCB.cpp:164-207 | with n_try_new_axis >= 1 all cut searches on boxes of the rounding grid end |
| `RCBTree.DomainBoundingBox` | src/redecomp/partition/RCB.cpp:238-261 | the box contains every coordinate of every rank, and is the smallest one if there is any; nothing is asked of the rounding or of n_try_new_axis |
| `RCBTree.RankAxesStable` | src/redecomp/partition/RCB.cpp:141-145 | sorting by given lengths: decreasing, ties in axis order, each axis once |
| `RCBTree.AxesByLength` | src/redecomp/partition/RCB.cpp:141-145 | the axes that a split tries, in order: each once, an axis before another exactly if the box is longer along it, or as long and its number is smaller |
| `RCBTree.CutIsSearched` | src/redecomp/partition/RCB.cpp:157-207 | behind the outcome of every search that a split has used stands a whole bisection of the box along that axis, with its last cut |
| `RCBTree.TryAxis` | src/redecomp/partition/RCB.cpp:151-209 | one axis gives the cut plane on which its search ends, with ghost boxes exactly if the cut is balanced |
| `RCBTree.SplitNode` | src/redecomp/partition/RCB.cpp:137-210 | the cut is the one of the longest axis of the box whose search is accepted, the searches of all longer axes having given up (the smaller number counts as longer among equals); if all give up, it is the one of the shortest axis; the halves meet in a plane |
| `RCBTree.SplitLevel` | src/redecomp/partition/RCB.cpp:125-220 | all nodes of a level hand boxes to their children; a node without right child hands down its box and ghost box |
| `RCBTree.BuildProblemTree` | src/redecomp/partition/RCB.cpp:78-220 | whenever the cut searches end, the result is a partition tree: the fractions, the smallest box of the domain at the root, and the chosen cut at every node |
| `RCBPartition.RouteStaysInBoxes` | src/redecomp/partition/RCB.cpp:288-300 | a point of the domain reaches at every level a node that exists and contains it: it never steps to a missing right child |
| `RCBPartition.DetermineDomain` | src/redecomp/partition/RCB.cpp:287-300 | the router returns an existing part whose box contains the point |
| `RCBPartition.RoutedInBox` | src/redecomp/partition/RCB.cpp:264-300 | at most as many entities are routed to a node as its box contains, with equality exactly if all of them are routed there |
| `RCBPartition.CountingAgreesWithRouting` | src/redecomp/partition/RCB.cpp:264-300 | counted and routed numbers agree at all nodes if and only if no entity lies on a cut plane |
| `RCBPartition.DisagreeOnCut` | src/redecomp/partition/RCB.cpp:291-298 | an entity on a cut plane of a node makes the two numbers differ in its right child |
| `RCBPartition.AcceptedSplitIsBalanced` | src/redecomp/partition/RCB.cpp:173-199 | with no entity on a cut plane, after an accepted split the share of the entities really routed to the left differs from the share of parts there by at most max_out_of_balance, or by at most two entities |
| `RCBPartition.NearBelowIsSet` | src/redecomp/partition/RCB.cpp:224-233 | a neighbour list is the strictly ascending list of the other parts that share the root or whose ghost boxes meet |
| `RCBPartition.FindNeighbors` | src/redecomp/partition/RCB.cpp:222-233 | testing every pair once and recording it on both sides gives every part its full neighbour list |
| `RCBPartition.RanksAreSpread` | src/redecomp/partition/RCB.cpp:36-46 | ranks with parts begin with rank 0 and follow in equal steps, and no longer step would fit |
| `RCBPartition.RanksAreDistinct` | src/redecomp/partition/RCB.cpp:36-46 | parts go to distinct existing ranks, in order |
| `RCBPartition.GeneratePartitioning` | src/redecomp/partition/RCB.cpp:40-64 | every rank gets, entity by entity, what the routing and the neighbour lists say |
| `RCBPartition.ListsByRank` | src/redecomp/partition/RCB.cpp:50-64 | the rank that hosts part j gets part j's listing, ranks without a part get nothing |
| `RCBPartition.UniqueOwnership` | src/redecomp/partition/RCB.cpp:50-64 | every entity of the domain is listed without ghost mark on its owner's list only, and no list names an entity twice |
| `RCBPartition.GhostBoxIsInflated` | src/redecomp/partition/RCB.cpp:185-198 | down the whole tree a ghost box reaches exactly the ghost length beyond the node's box, below its low and above its high coordinate on every axis |
| `RCBPartition.GhostBoxContains` | src/redecomp/partition/RCB.cpp:185-198 | it contains exactly the points that are, in every coordinate, at most the ghost length outside the node's box |
| `RCBPartition.SiblingsShareCut` | src/redecomp/partition/RCB.cpp:185-198 | two parts under one root both have a ghost box or both have none |
| `RCBPartition.ExactGhostLayer` | src/redecomp/partition/RCB.cpp:50-64 | for ghost_len >= 0, an entity is a ghost of part j if and only if j does not own it, every coordinate is at least the low one of j's box minus ghost_len and at most the high one plus ghost_len, and both j and the owner have ghost boxes |
| `RCBPartition.GhostLayerWhenAccepted` | src/redecomp/partition/RCB.cpp:50-64 | with every cut accepted the ghosts are exactly the entities not owned whose coordinates are within ghost_len of the box on every axis |
| `HeapsDomain.HeapsTreeIsTree` | src/redecomp/partition/RCB.cpp:78-220 | for n_try_new_axis >= 1 the tree of the two heaps is cut at 1 and then, after both axes of each half gave up, along the second axis with all entities on the cut |
| `HeapsDomain.EndlessIsReached` | src/redecomp/partition/RCB.cpp:117-207 | for n_try_new_axis <= 0 the build on the two heaps meets the endless search: the root's first cut is accepted, for n_try_new_axis = 0 both axes of the left half give up, and the first search of the right half is the endless one |
| `HeapsDomain.NoTree` | src/redecomp/partition/RCB.cpp:117-220 | for n_try_new_axis <= 0 no tree meets the specification of the build on the two heaps: the search of the right half has no end |
| `HeapsDomain.TreeExistsIff` | src/redecomp/partition/RCB.cpp:117-220 | on this domain a partition tree exists if and only if n_try_new_axis >= 1 |
| `HeapsDomain.RejectedCutsLoseGhosts` | src/redecomp/partition/RCB.cpp:185-198 | for every ghost_len >= 0 the left heap is within ghost_len of part 1's box and is not owned by it, and yet is not listed as its ghost |
| `HeapsDomain.CountedNotRouted` | src/redecomp/partition/RCB.cpp:264-300 | part 1 counts the five entities of the left heap, which lie on its cut, and none of them is routed to it |
| `Redecomp.BuildElemOffsets` | src/redecomp/RedecompMesh.cpp:279-289 | the in-place sums are the first elements of the blocks |
| `Redecomp.OffsetCounts` | src/redecomp/RedecompMesh.cpp:279-289 | the first element of a block is the number of elements in the blocks before it |
| `Redecomp.PackGhosts` | src/redecomp/RedecompMesh.cpp:291-304 | the positions of the ghosts of a block, ascending |
| `Redecomp.ShiftGhosts` | src/redecomp/RedecompMesh.cpp:305-309 | shifted by the block's offset they are the ghost elements |
| `Redecomp.CursorTest` | src/redecomp/RedecompTransfer.cpp:122-132 | the cursor's test recognises exactly the ghosts and keeps the cursor past them |
| `FieldTransfer.TransferToSerial` | src/redecomp/RedecompTransfer.cpp:41-98 | on all ranks, redecomp elements get, block after block, the values of the listed parent elements |
| `FieldTransfer.UnpackBlock` | src/redecomp/RedecompTransfer.cpp:81-96 | one received buffer fills exactly its block of elements |
| `FieldTransfer.SerialAt` | src/redecomp/RedecompTransfer.cpp:81-96 | redecomp element Offset(p) + k carries the values of the k-th element that rank p lists |
| `FieldTransfer.PackParallel` | src/redecomp/RedecompTransfer.cpp:112-134 | skipping by cursor packs exactly the values of the elements without ghost mark, in order |
| `FieldTransfer.UnpackParallel` | src/redecomp/RedecompTransfer.cpp:141-151 | skipping by flag reads the same values and writes them to the listed parent elements |
| `FieldTransfer.TransferToParallel` | src/redecomp/RedecompTransfer.cpp:100-153 | on all ranks, the owned values of all blocks are written to the parent fields |
| `FieldTransfer.FieldRoundTrip` | src/redecomp/RedecompTransfer.cpp:41-153 | there and back restores a parent element's values exactly if some redecomp rank holds it without ghost mark, and leaves the old values otherwise |
| `FieldTransfer.AllRestored` | src/redecomp/RedecompTransfer.cpp:41-153 | if every parent element is owned somewhere the whole parent field comes back |
| `FieldTransfer.RoundTrip` | src/redecomp/RedecompTransfer.cpp:41-153 | the two transfers in sequence return the source field on all ranks |
| `Repartition.PartitionAll` | src/redecomp/partition/RCB.cpp:24-76 | the partition gives each rank the lists of its part, for all parent ranks |
| `Repartition.OneOwner` | src/redecomp/partition/RCB.cpp:50-64 | every element of every parent rank is owned by exactly one redecomp rank, the one that hosts its part |
| `Repartition.AllCovered` | src/redecomp/partition/RCB.cpp:50-64 | the partition meets the hypothesis of the field round trip |
| `Repartition.PartitionAndReturn` | src/redecomp/RedecompTransfer.cpp:41-153 | partition, transfer and transfer back restore every field, for all centroids, part counts and rank counts |
| `NodeLists.P2RNodeList` | src/redecomp/transfer/TransferByNodes.cpp:192-234 | nodes in order of first appearance, and a mark that is set exactly if all listed elements with the node are ghosts |
| `NodeLists.R2PNodeList` | src/redecomp/transfer/TransferByNodes.cpp:236-281 | the same from the redecomp elements of a block, with ghosts recognised by a cursor |
| `NodeLists.NodesCommute` | src/redecomp/transfer/TransferByNodes.cpp:213-225 | first-occurrence deduplication and the marks commute with an injective renumbering |
| `NodeLists.NodeListsPairUp` | src/redecomp/transfer/TransferByNodes.cpp:192-281 | both lists have the same length, correspond position by position, and have equal marks |
| `NodeLists.MarkMeaning` | src/redecomp/transfer/TransferByNodes.cpp:217-224 | a mark is false if and only if some element that is no ghost contains the node |
| `NodeLists.NodesComplete` | src/redecomp/transfer/TransferByNodes.cpp:209-226 | every dof of every listed element is in the list |
| `RedecompMesh.Emplace` | src/redecomp/RedecompMesh.cpp:168-172 | a number is given on first appearance only |
| `RedecompMesh.NumberVertices` | src/redecomp/RedecompMesh.cpp:161-174 | received vertices are numbered by first appearance over all ranks, and rewritten in place |
| `RedecompMesh.PlaceVertices` | src/redecomp/RedecompMesh.cpp:193-202 | the received coordinates end up at the new numbers |
| `RedecompMesh.BuildElements` | src/redecomp/RedecompMesh.cpp:258-271 | the flat connectivity is cut into elements by the vertex counts of their types, and renumbered |
| `RedecompMesh.BuildMessage` | src/redecomp/RedecompMesh.cpp:176-250 | a message holds the vertices of the listed elements by first appearance in global numbers, their coordinates, and types, flat connectivity in global numbers and attributes of the elements |
| `RedecompMesh.BuildRedecomp` | src/redecomp/RedecompMesh.cpp:151-272 | the mesh has the renumbered elements of all blocks in order with their types and attributes, and every numbered vertex at its coordinates |
| `RedecompMesh.MeshIsFaithful` | src/redecomp/RedecompMesh.cpp:151-272 | each redecomp element has the type, the attribute and, corner by corner, the coordinates of the parent element it stands for, and the renumbering is injective on its block |
| `RedecompMesh.VertexMapInjective` | src/redecomp/RedecompMesh.cpp:161-174 | the vertex renumbering tells the vertices of the listed elements apart |
| `RedecompMesh.VertexListsPairUp` | src/redecomp/transfer/TransferByNodes.cpp:192-281 | for the rebuilt mesh, the node lists of both sides correspond without any further assumption |
| `VDofTransfer.PutAgreeing` | src/redecomp/transfer/TransferByNodes.cpp:92-107 | writes that agree on a dof leave the agreed value |
| `VDofTransfer.Move` | src/redecomp/transfer/TransferByNodes.cpp:65-107 | reading, exchanging and writing on all ranks moves the listed values, source after source |
| `VDofTransfer.MovedValues` | src/redecomp/transfer/TransferByNodes.cpp:89-107 | a dof ends up with its value exactly if it is written |
| `VDofTransfer.RoundTripValues` | src/redecomp/transfer/TransferByNodes.cpp:45-190 | if the way back runs along the way there, a dof is restored exactly if some rank sends it back |
| `NodeTransfer.VDofInjective` | src/redecomp/transfer/TransferByNodes.cpp:75-79 | components of nodes are told apart in both orderings |
| `NodeTransfer.VDofLayout` | src/redecomp/transfer/TransferByNodes.cpp:75-79 | components of a node lie side by side in one ordering, nodes of a component in the other |
| `NodeTransfer.ListByComponent` | src/redecomp/transfer/TransferByNodes.cpp:72-80 | vector dofs component by component |
| `NodeTransfer.ListByNode` | src/redecomp/transfer/TransferByNodes.cpp:144-152 | vector dofs node by node, ghosts skipped |
| `NodeTransfer.ByNodeMembers` | src/redecomp/transfer/TransferByNodes.cpp:146-152 | they are the components of exactly the nodes without ghost mark |
| `NodeTransfer.NodesReturnAlong` | src/redecomp/transfer/TransferByNodes.cpp:72-181 | although one way goes by component and the other by node, each pair of dofs of the way back is one of the way there |
| `NodeTransfer.ListsConform` | src/redecomp/transfer/TransferByNodes.cpp:192-281 | lists built independently from paired walks conform |
| `NodeTransfer.NodalRoundTrip` | src/redecomp/transfer/TransferByNodes.cpp:45-190 | there and back restores the components of exactly the nodes that some redecomp rank lists without ghost mark |
| `NodeTransfer.NodeComesBack` | src/redecomp/transfer/TransferByNodes.cpp:110-190 | a component comes back from rank q if and only if q owns an element with the node |
| `NodeTransfer.TransferToSerial` | src/redecomp/transfer/TransferByNodes.cpp:45-108 | the transfer on all ranks moves along the by-component lists |
| `NodeTransfer.TransferToParallel` | src/redecomp/transfer/TransferByNodes.cpp:110-190 | the transfer back on all ranks moves along the by-node lists |
| `VertexRoundTrip.PairConforms` | src/redecomp/transfer/TransferByNodes.cpp:192-281 | for a pair of ranks the two vertex lists have equal lengths and marks, and entry by entry the same global vertex |
| `VertexRoundTrip.RebuildAll` | src/redecomp/RedecompMesh.cpp:151-272 | messages, exchange and rebuilding on all ranks give every rank its rebuilt mesh |
| `VertexRoundTrip.MakeLists` | src/redecomp/transfer/TransferByNodes.cpp:19-39 | the spaces of the meshes and the node lists that each side makes by its own walk |
| `VertexRoundTrip.SharedFieldAgrees` | src/redecomp/transfer/TransferByNodes.cpp:89-107 | a field given by global vertices agrees wherever two parent ranks write to one redecomp vertex |
| `VertexRoundTrip.VertexComesBack` | src/redecomp/transfer/TransferByNodes.cpp:110-190 | some rank sends a component back if and only if its vertex belongs to an element |
| `VertexRoundTrip.PartitionAndReturn` | src/redecomp/transfer/TransferByNodes.cpp:45-190 | partition, rebuilding, node lists and both transfers restore every component of every vertex of an element on every parent rank, for all centroids, connectivities, part and rank counts and both component orders; other entries keep what was there |
| `ElementTransfer.ListOwned` | src/redecomp/transfer/TransferByElements.cpp:148-154 | the dofs of the elements without ghost mark by flag, in order |
| `ElementTransfer.SendTable` | src/redecomp/transfer/TransferByElements.cpp:43-51 | on all parent ranks, the dofs of all listed elements |
| `ElementTransfer.RecvTable` | src/redecomp/transfer/TransferByElements.cpp:64-76 | on all redecomp ranks, the dofs of the elements of each block, found by the offsets |
| `ElementTransfer.ResendTable` | src/redecomp/transfer/TransferByElements.cpp:109-128 | on all redecomp ranks, skipping by cursor lists the dofs of the elements of each block that are no ghosts |
| `ElementTransfer.RerecvTable` | src/redecomp/transfer/TransferByElements.cpp:141-154 | on all parent ranks, skipping by flag lists the dofs of the elements that are no ghosts |
| `ElementTransfer.OwnedDofs` | src/redecomp/transfer/TransferByElements.cpp:148-154 | a dof is listed exactly if it belongs to an owned element |
| `ElementTransfer.ElementsReturnAlong` | src/redecomp/transfer/TransferByElements.cpp:48-154 | each pair of dofs of the owned elements is one of the pairs of the way there |
| `ElementTransfer.TransferToSerial` | src/redecomp/transfer/TransferByElements.cpp:18-85 | the transfer on all ranks moves along the lists of all elements |
| `ElementTransfer.TransferToParallel` | src/redecomp/transfer/TransferByElements.cpp:87-165 | the transfer back on all ranks moves along the lists of owned elements, made by cursor on one side and by flag on the other |
| `ElementTransfer.ElementRoundTrip` | src/redecomp/transfer/TransferByElements.cpp:18-165 | a parent dof is restored exactly if it belongs to an element that some redecomp rank owns |
| `ElementTransfer.RoundTrip` | src/redecomp/transfer/TransferByElements.cpp:18-165 | so do the two transfers in sequence, as a program on all ranks |
| `SparsePacking.FindColumnRank` | src/redecomp/transfer/SparseMatrixTransfer.cpp:122-133 | the walk up and down finds the one block of the column, from any starting rank and for unsorted columns |
| `SparsePacking.BlockIsUnique` | src/redecomp/transfer/SparseMatrixTransfer.cpp:125-133 | only one block contains an element |
| `SparsePacking.AdvanceRank` | src/redecomp/transfer/SparseMatrixTransfer.cpp:107-111 | the row cursor reaches the block of the row, across empty blocks, with the ghost cursor at its start |
| `SparsePacking.PackOrSkip` | src/redecomp/transfer/SparseMatrixTransfer.cpp:112-140 | a ghost row is skipped, any other row is packed whole |
| `SparsePacking.PackRow` | src/redecomp/transfer/SparseMatrixTransfer.cpp:120-140 | the entries of a row with row and column offsets and column rank |
| `SparsePacking.PackRows` | src/redecomp/transfer/SparseMatrixTransfer.cpp:101-141 | after all rows, each parent rank's list is done up to the last row |
| `SparsePacking.AllPacked` | src/redecomp/transfer/SparseMatrixTransfer.cpp:101-141 | which means: it holds the rows of its block that are no ghosts, in order |
| `ColumnMapping.BucketByRank` | src/redecomp/transfer/SparseMatrixTransfer.cpp:152-154 | offsets sorted into buckets by column rank, in order |
| `ColumnMapping.BucketPosition` | src/redecomp/transfer/SparseMatrixTransfer.cpp:152-154 | entry i lies behind the earlier entries of its rank in its bucket |
| `ColumnMapping.LookUp` | src/redecomp/transfer/SparseMatrixTransfer.cpp:158-162 | in place, each offset becomes the element it stands for |
| `ColumnMapping.MergeBack` | src/redecomp/transfer/SparseMatrixTransfer.cpp:165-170 | the per-rank counters give every position the answer to its own question |
| `ColumnMapping.MapColumns` | src/redecomp/transfer/SparseMatrixTransfer.cpp:144-171 | bucket, exchange, look up, exchange back and merge yield at every original position the element that the rank of that column has for the offset |
| `CsrAssembly.InsertKey` | src/redecomp/transfer/SparseMatrixTransfer.cpp:214 | the ordered map gets the column, once |
| `CsrAssembly.CountAll` | src/redecomp/transfer/SparseMatrixTransfer.cpp:205-217 | row counts, totals and the set of off-rank columns of everything received |
| `CsrAssembly.SumUp` | src/redecomp/transfer/SparseMatrixTransfer.cpp:218-222 | the in-place prefix sums are the starts of the rows |
| `CsrAssembly.LastStartIsCount` | src/redecomp/transfer/SparseMatrixTransfer.cpp:223-224 | both assertions hold: the last row pointer is the number of entries |
| `CsrAssembly.NumberKeys` | src/redecomp/transfer/SparseMatrixTransfer.cpp:225-231 | columns are numbered in ascending order |
| `CsrAssembly.ReadKeys` | src/redecomp/transfer/SparseMatrixTransfer.cpp:232-236 | cmap is the ascending list of columns |
| `CsrAssembly.RowsApart` | src/redecomp/transfer/SparseMatrixTransfer.cpp:245-260 | the next free slot of a row is not in use in another row |
| `CsrAssembly.FillStep` | src/redecomp/transfer/SparseMatrixTransfer.cpp:250-258 | each write hits a slot in range that is not in use, and keeps all filled slots |
| `CsrAssembly.FillAll` | src/redecomp/transfer/SparseMatrixTransfer.cpp:237-260 | after the loop both parts hold all entries |
| `CsrAssembly.RowsAreFull` | src/redecomp/transfer/SparseMatrixTransfer.cpp:237-260 | row k takes exactly the slots from I[k] to I[k+1], one for each of its entries in order of arrival: every slot is written once |
| `CsrAssembly.Assemble` | src/redecomp/transfer/SparseMatrixTransfer.cpp:191-260 | diag, offd and cmap hold everything received; cmap strictly increases and is inverse to the numbering in offd |
| `CsrAssembly.AssemblyConserves` | src/redecomp/transfer/SparseMatrixTransfer.cpp:187-260 | in every row and global column, diag and offd together are the sum of the received values |
| `CsrAssembly.OffdIsRemote` | src/redecomp/transfer/SparseMatrixTransfer.cpp:206-215 | cmap holds columns of other ranks only |
| `SparseBlocks.ShareOfBlock` | src/redecomp/transfer/SparseMatrixTransfer.cpp:101-141 | what is packed for a block adds up to the source entries of its rows that are no ghosts |
| `SparseBlocks.OneEntryAdds` | src/redecomp/transfer/SparseMatrixTransfer.cpp:120-140 | among entries of different global columns the sum for a column is the value of its entry |
| `SparseMatrixTransfer.BuildParentElementRankOffsets` | src/redecomp/transfer/SparseMatrixTransfer.cpp:275-286 | the global numbers of the ranks' elements are consecutive ranges |
| `SparseMatrixTransfer.PackAll` | src/redecomp/transfer/SparseMatrixTransfer.cpp:93-141 | every redecomp rank packs its block for every parent rank |
| `SparseMatrixTransfer.ConvertAll` | src/redecomp/transfer/SparseMatrixTransfer.cpp:142-178 | every entry arrives with its column converted and everything else unchanged |
| `SparseMatrixTransfer.ReceiveFor` | src/redecomp/transfer/SparseMatrixTransfer.cpp:172-184 | rows are converted on the parent rank |
| `SparseMatrixTransfer.ReceivedAcceptable` | src/redecomp/transfer/SparseMatrixTransfer.cpp:187-217 | received rows and columns exist, so that the assembly never leaves its arrays |
| `SparseMatrixTransfer.MatrixIsConserved` | src/redecomp/transfer/SparseMatrixTransfer.cpp:93-260 | on every parent rank, row and global column, diag and offd hold the sum over all redecomp ranks of the source entries with that row and column whose row is no ghost |
| `SparseMatrixTransfer.OwnersRow` | src/redecomp/transfer/SparseMatrixTransfer.cpp:93-260 | if one row alone is no ghost and stands for a parent element, what the transfer conserves for that element is that row, entry by entry |
| `SparseMatrixTransfer.ColumnByBlock` | src/redecomp/transfer/SparseMatrixTransfer.cpp:122-138 | a column that is element x of the block from rank c stands for the element that the list names there, counted after the elements of the ranks before c |
| `SparseMatrixTransfer.TransferToParallel` | src/redecomp/transfer/SparseMatrixTransfer.cpp:93-266 | the whole transfer on all ranks gives each parent rank such a matrix |
| `MatrixPacking.BuildElemRank` | src/redecomp/transfer/MatrixTransfer.cpp:396-423 | the table of the parent ranks of all elements, with the ghosts marked by cursor on request |
| `MatrixPacking.MarkMeaning` | src/redecomp/transfer/MatrixTransfer.cpp:405-420 | an entry is p if and only if the element lies in p's block and is no ghost |
| `MatrixPacking.BuildSendArrayIDs` | src/redecomp/transfer/MatrixTransfer.cpp:425-449 | for each rank the matrices with a test element owned there, in order |
| `MatrixPacking.BuildSendMatSizes` | src/redecomp/transfer/MatrixTransfer.cpp:473-505 | sizes over the same list of matrices |
| `MatrixPacking.BuildSendTestElemOffsets` | src/redecomp/transfer/MatrixTransfer.cpp:507-533 | test element positions over the same list |
| `MatrixPacking.BuildSendNumMatEntries` | src/redecomp/transfer/MatrixTransfer.cpp:451-471 | for each rank the total size of its matrices |
| `MatrixPacking.PackValues` | src/redecomp/transfer/MatrixTransfer.cpp:243-256 | the buffer is the concatenation of the values of the listed matrices |
| `TrialDofs.BuildQueues` | src/redecomp/transfer/MatrixTransfer.cpp:577-600 | for each test rank, positions by trial rank, ranks and extents stand for the wanted trial elements in matrix order |
| `TrialDofs.CollectDofs` | src/redecomp/transfer/MatrixTransfer.cpp:622-652 | the trial rank answers with the global dofs of the wanted elements, one after the other |
| `TrialDofs.FetchDofs` | src/redecomp/transfer/MatrixTransfer.cpp:608-656 | one round trip for all ranks brings every rank its answers |
| `TrialDofs.ExtentIsBlock` | src/redecomp/transfer/MatrixTransfer.cpp:593-597 | the recorded extent cuts exactly the dofs of the e-th trial element out of the answers of its rank |
| `TrialDofs.SortDofs` | src/redecomp/transfer/MatrixTransfer.cpp:657-667 | the dofs for a test rank are in the order of its matrices |
| `TripletMerge.Sort` | src/redecomp/transfer/MatrixTransfer.cpp:287-291 | a permutation, sorted by row and then by column |
| `TripletMerge.TotalPermutes` | src/redecomp/transfer/MatrixTransfer.cpp:287-291 | what triplets denote does not depend on their order |
| `TripletMerge.CountRuns` | src/redecomp/transfer/MatrixTransfer.cpp:295-304 | the number of distinct positions |
| `TripletMerge.WriteRuns` | src/redecomp/transfer/MatrixTransfer.cpp:316-332 | one slot per distinct position with the values added up, and the number of slots of each row |
| `TripletMerge.PrefixSums` | src/redecomp/transfer/MatrixTransfer.cpp:334-337 | counts become row pointers |
| `TripletMerge.RunsAreStrict` | src/redecomp/transfer/MatrixTransfer.cpp:322-331 | the merged positions strictly increase |
| `TripletMerge.RunsKeepTotal` | src/redecomp/transfer/MatrixTransfer.cpp:322-331 | merging keeps the sum at every position |
| `TripletMerge.RowsAreWellFormed` | src/redecomp/transfer/MatrixTransfer.cpp:306-337 | row pointers rise from 0 to the number of slots and columns strictly increase in each row |
| `TripletMerge.Compress` | src/redecomp/transfer/MatrixTransfer.cpp:286-338 | the rows are well formed, hold at every position the sum of the triplets there, and have a slot exactly where a triplet is |
| `TripletMerge.AddContributions` | src/redecomp/transfer/MatrixTransfer.cpp:186-194 | adding one by one gives the same sums |
| `TripletMerge.PathsAgree` | src/redecomp/transfer/MatrixTransfer.cpp:143-202 | both paths denote the same matrix, whatever the order of arrival on either |
| `ElementMatrices.AddElement` | src/redecomp/transfer/MatrixTransfer.cpp:271-279 | one element matrix gives its triplets, read column by column |
| `ElementMatrices.TripletsTotal` | src/redecomp/transfer/MatrixTransfer.cpp:264-282 | the triplets denote the sum of the scattered element matrices |
| `ElementMatrices.ScatteredEntry` | src/redecomp/transfer/MatrixTransfer.cpp:271-279 | with distinct dofs, row dof i and column dof j get entry i + j * rows of the buffer |
| `ElementMatrices.ElemElsewhere` | src/redecomp/transfer/MatrixTransfer.cpp:271-279 | rows and columns of other dofs get nothing |
| `ElementMatrices.NoDofsNoTriplets` | src/redecomp/transfer/MatrixTransfer.cpp:258-260 | the early return without trial dofs drops nothing |
| `ElementMatrices.ReceiveMessage` | src/redecomp/transfer/MatrixTransfer.cpp:257-283 | the running indices read each matrix, size and dof list at its place |
| `RoundSums.RoundsCoverRanks` | src/redecomp/utils/MPIUtility.hpp:526-544 | a sum over the rounds of the exchange is the sum over all ranks |
| `RoundSums.AllArrivedTotal` | src/redecomp/transfer/MatrixTransfer.cpp:237-283 | all triplets together denote the sum over all ranks |
| `RoundSums.NthIsLogged` | src/redecomp/utils/MPIUtility.hpp:526-544 | the order of the receiving loop, rounds first and the own message last, is the order of the log of the exchange |
| `MarkedTransfer.MessageCarries` | src/redecomp/transfer/MatrixTransfer.cpp:425-671 | positions, sizes, trial dofs and values of a message are aligned: the k-th of each belongs to the k-th matrix |
| `MarkedTransfer.ReservedSize` | src/redecomp/transfer/MatrixTransfer.cpp:451-471 | the counted number of values is the length of the buffer |
| `MarkedTransfer.ResolveTrialDofs` | src/redecomp/transfer/MatrixTransfer.cpp:535-671 | for given trial ranks and offsets, after all round trips the dofs for each test rank are those of its trial elements in matrix order |
| `MarkedTransfer.BuildMessages` | src/redecomp/transfer/MatrixTransfer.cpp:88-100 | positions, sizes, trial dofs and values of each message are taken over one and the same list of matrices |
| `MarkedTransfer.Receive` | src/redecomp/transfer/MatrixTransfer.cpp:237-283 | the receiving loop collects the triplets of the rounds and then those of the own message |
| `MatrixTransfer.SetUp` | src/redecomp/transfer/MatrixTransfer.cpp:102-131 | the constructor's offsets and rank tables come from the element lists: ghosts are marked for the test mesh and not for the trial mesh |
| `MatrixTransfer.MarkIsOwner` | src/redecomp/transfer/MatrixTransfer.cpp:405-420 | a matrix is marked with p if and only if its test element lies in p's block and is no ghost |
| `MatrixTransfer.TrialPart` | src/redecomp/transfer/MatrixTransfer.cpp:577-600 | rank and position found for a trial element are those of the parent element it stands for, and its dofs are as many as asked for |
| `MatrixTransfer.RankIsFit` | src/redecomp/transfer/MatrixTransfer.cpp:67-86 | tables computed from the lists and matrices that pass the validation meet everything the exchange asks for |
| `MatrixTransfer.TripletsAddUp` | src/redecomp/transfer/MatrixTransfer.cpp:217-283 | the triplets that arrive at p denote the sum over all ranks and all element matrices with a non-ghost test element of p of the scattered column-major matrix, with rows and columns of the parent elements |
| `MatrixTransfer.SoleMatrix` | src/redecomp/transfer/MatrixTransfer.cpp:217-283 | if p owns the test element of one matrix alone, that sum is this matrix, scattered |
| `MatrixTransfer.SourceByBlock` | src/redecomp/transfer/MatrixTransfer.cpp:577-600 | a matrix whose test element is entry a of its owner's block and whose trial element is entry x of the block of rank c has the row dofs of the listed test element, the global column dofs of the listed trial element, and its own stretch of the flat buffer |
| `MatrixTransfer.AssembledMatrix` | src/redecomp/transfer/MatrixTransfer.cpp:217-338 | the assembled rows hold that sum over the non-ghost test elements at every row and column |
| `MatrixTransfer.AddedMatrix` | src/redecomp/transfer/MatrixTransfer.cpp:143-202 | so does the path that adds to a sparse matrix |
| `MatrixTransfer.TransferToParallel` | src/redecomp/transfer/MatrixTransfer.cpp:204-338 | from the element lists of both meshes and the matrices: tables, packing, look-up, exchange and assembly on all ranks give every parent rank such rows |
| `MatrixTransfer.TransferToParallelSparse` | src/redecomp/transfer/MatrixTransfer.cpp:143-202 | and so does the whole other path |
| `SegOverlap.CountInside` | src/tribol/geom/GeomUtilities.hpp:2326-2348 | how many vertices of the other edge pass the test, and which one did last |
| `SegOverlap.InsideIsBetween` | src/tribol/geom/GeomUtilities.hpp:2332-2347 | the projection test holds exactly if the vertex lies between the edge's ends |
| `SegOverlap.ContainedEnds` | src/tribol/geom/GeomUtilities.hpp:2350-2363 | an edge inside the other bounds the intersection |
| `SegOverlap.PartialEnds` | src/tribol/geom/GeomUtilities.hpp:2410-2440 | in a partial overlap exactly one end of each edge is inside the other, and these bound the intersection: the "id not set" branch is unreachable |
| `SegOverlap.CheckSegOverlap` | src/tribol/geom/GeomUtilities.hpp:2289-2444 | for any two collinear edges, even of length zero: "no overlap" exactly if they have no common point, else the end points of the intersection, from edge 1 before edge 2 or in the order of the edge that is contained, and always its length |
| `PolyCollapse.CollapsedIsApart` | src/tribol/geom/GeomUtilities.hpp:1373-1394 | after the collapse any two candidates have a distance in the plane of at least the tolerance |
| `PolyCollapse.CollapsedCovers` | src/tribol/geom/GeomUtilities.hpp:1373-1394 | every candidate is kept, or a kept one before it is at a distance in the plane below the tolerance |
| `PolyCollapse.KeptSurvive` | src/tribol/geom/GeomUtilities.hpp:1373-1394 | a candidate is kept if and only if its distance in the plane to every kept one before it is at least the tolerance |
| `PolyCollapse.ApartAllSurvive` | src/tribol/geom/GeomUtilities.hpp:1373-1394 | candidates that are pairwise at least the tolerance apart are all kept, in order |
| `PolyCollapse.ClearByDistance` | src/tribol/geom/GeomUtilities.hpp:1379-1382 | the distance test compares the sum of the squared differences of both coordinates with the squared tolerance |
| `PolyCollapse.CollapsedIsStable` | src/tribol/geom/GeomUtilities.hpp:1373-1394 | collapsing again changes nothing |
| `PolyCollapse.RemoveAt` | src/tribol/geom/GeomUtilities.hpp:1382-1389 | the shifts of the five arrays together remove one candidate with its metadata and keep the others in order |
| `PolyCollapse.RemoveNear` | src/tribol/geom/GeomUtilities.hpp:1377-1393 | of the candidates after i, the inner loop leaves exactly those at a distance in the plane of at least the tolerance from candidate i, in order with their metadata, and candidates up to i as they were |
| `PolyCollapse.Collapse` | src/tribol/geom/GeomUtilities.hpp:1376-1394 | in place, what is left are the candidates whose distance to every kept one before them is at least the tolerance, in order with their metadata |
| `PolyCollapse.SortIds` | src/tribol/geom/GeomUtilities.hpp:895-919 | the in-place insertion sort leaves a permutation that sorts by angle and then by radius |
| `PolyCollapse.SortedIsOrdered` | src/tribol/geom/GeomUtilities.hpp:899-911 | ids that sort the keys put the vertices in order of atan2(y - cy, x - cx), and of the squared distance among equal angles |
| `PolyCollapse.SumsAdd` | src/tribol/geom/GeomUtilities.hpp:355-368 | the sums of the centroid are those of single vertices and additive over lists |
| `PolyCollapse.Reorder` | src/tribol/geom/GeomUtilities.hpp:872-935 | false exactly for fewer than three points, which stay as they are; otherwise the coordinates are permuted by the returned ids, which put them in order of angle, and then of distance, around the vertex average |
| `PolyCollapse.CheckPolySegs` | src/tribol/geom/GeomUtilities.hpp:962-1026 | an id is that of the previous vertex around the polygon exactly if the segment from it is shorter than the tolerance; the points with their own id stay, in order, and fewer than three of them give no output |
| `PolyCollapse.NothingShort` | src/tribol/geom/GeomUtilities.hpp:976-1023 | among points pairwise apart it drops nothing and returns identity ids |
| `PolyCollapse.PermutedApart` | src/tribol/geom/GeomUtilities.hpp:929-932 | permuting keeps points pairwise apart |
| `PolyCollapse.OrderAndCheck` | src/tribol/geom/GeomUtilities.hpp:1396-1430 | after a collapse, ordering and check keep every candidate, and each output vertex keeps its own metadata |
| `PolyCollapse.FinishPolygon` | src/tribol/geom/GeomUtilities.hpp:1371-1454 | the survivors are the candidates whose distance in the plane to every survivor before them is at least the tolerance; an overlap exactly if they are three or more; its vertices are the survivors, each once with its own coordinates and metadata, pairwise at least the tolerance apart, in order around their vertex average |
| `Vectors.DotWithUnit` | src/tribol/integ/BasisFunction.hpp:611-632 | metric entries and the chain rule weigh all components with one |
| `TangentGradients.RankTest` | src/tribol/integ/BasisFunction.hpp:622-635 | the determinant of the metric is never negative, and positive if and only if the Jacobian has full rank |
| `TangentGradients.SpanObeysChainRule` | src/tribol/integ/BasisFunction.hpp:642-656 | a vector of the tangent space obeys the chain rule if and only if its coefficients solve the metric's equations |
| `TangentGradients.GradientIsUnique` | src/tribol/integ/BasisFunction.hpp:642-656 | there is only one such coefficient vector |
| `TangentGradients.TangentGradientIsUnique` | src/tribol/integ/BasisFunction.hpp:642-656 | with full rank there is only one tangent vector that obeys the chain rule |
| `TangentGradients.InverseMetric` | src/tribol/integ/BasisFunction.hpp:611-640 | succeeds exactly for full rank, and then inverts the metric |
| `TangentGradients.ComputePhysicalDerivatives` | src/tribol/integ/BasisFunction.hpp:599-659 | true exactly for full rank; then J-transpose times each gradient is its parent derivatives and the gradient lies in the column span of J; otherwise all zero |
| `TangentGradients.ComputeMappingJacobian` | src/tribol/integ/BasisFunction.hpp:472-487 | entry (p, c) is the sum over the nodes of coordinate p times derivative c; `LagrangeBases.JacobianIsDerivative` and `LagrangeBases.AffineJacobian` say what that is |
| `TangentGradients.JacobianIgnoresTranslation` | src/tribol/integ/BasisFunction.hpp:472-487 | if the derivatives sum to zero, translated nodes give the same Jacobian |
| `LagrangeBases.PartitionOfUnity` | src/tribol/integ/BasisFunction.hpp:275-392 | for every basis and point the values sum to one |
| `LagrangeBases.DerivativesSumToZero` | src/tribol/integ/BasisFunction.hpp:283-414 | for every basis, point and direction the derivatives sum to zero over the nodes |
| `LagrangeBases.DerivativesAreSlopes` | src/tribol/integ/BasisFunction.hpp:275-414 | the derivatives belong to the values: a step h changes the values by h times them plus h^2 times a term free of h |
| `LagrangeBases.NodalBasis` | src/tribol/integ/BasisFunction.hpp:68-199 | function k is one at node k and zero at all other nodes |
| `LagrangeBases.JacobianIsDerivative` | src/tribol/integ/BasisFunction.hpp:472-487 | for every basis, point, node positions, direction c and step h, the interpolated position changes by h times column c of the mapping Jacobian plus h^2 times a term free of h |
| `LagrangeBases.CoordinatesReproduced` | src/tribol/integ/BasisFunction.hpp:68-199 | for every basis, interpolating the parent coordinates of its nodes gives back the point |
| `LagrangeBases.AffineJacobian` | src/tribol/integ/BasisFunction.hpp:472-487 | nodes placed at t + A * (parent node) give the Jacobian A, for every basis and point |
| `LagrangeBases.LinearFunctionsHaveTheirGradient` | src/tribol/integ/BasisFunction.hpp:599-659 | whenever the flag is true, also on curved elements, the nodal values of a linear function with tangent gradient g, times the computed gradients, add up to g |
| `LagrangeBases.ProductsByTable` | src/tribol/integ/BasisFunction.hpp:394-414 | the loop over the factor tables gives the tensor products in node order |
| `LagrangeBases.TranslationInvariance` | src/tribol/integ/BasisFunction.hpp:472-487 | so for every basis translated nodes give the same Jacobian |
| `LagrangeBases.GradientsIgnoreTranslation` | src/tribol/integ/BasisFunction.hpp:599-659 | and for every basis the success flag and all gradients computed from translated nodes are the same |

## Left out

- MFEM, hypre, axom and RAJA: element-to-dof tables, vertex lists, global ids and dof offsets are given tables; boundary and topology finalisation, curvature transfer, `Finalize` and the products with prolongation matrices are not modelled.
- `PartitionElements`, which computes element centroids: the coordinates are inputs of the partition.
- The fraction that a node really received (`actual_frac_`) is stored and handed down but decides nothing; it is not modelled.
- The send of a two-dimensional array as a shape message and a data message (`MPIUtility.hpp:420-428`) is one message here.
- MPI: messages between two ranks arrive in the order of sending and a posted receive is matched with them in that order, as section 3.5 of MPI-3.1 says; buffering is left open, and the theorems hold whether or not a send completes before it is received.
- Floating-point rounding outside the cut search; integer overflow of counts and offsets.
- Device and host memory, ownership flags, profiling and logging; `SLIC_ERROR` checks are preconditions, except where a function reports an outcome.
- Value, row, column and rank of an entry of the sparse transfer, which the source keeps side by side, are lists of records, so that a shift of only some of them cannot be expressed.
- TripletMerge.Sort: `std::sort` is unspecified up to equal keys; the model's order of equal keys is one of the allowed ones, and nothing that is proved depends on it.
- TripletMerge.AddContributions: `mfem::SparseMatrix::Add` is a finite map from positions to sums.
- The fixed array sizes of the polygon routines (`max_nodes_per_overlap`) are not modelled.
- The computation of the polygon's candidates and of its area, `PolyInterYCentroid` and the case analysis in `CompGeom.hpp`: tolerance-driven, without an exact specification.
- CutSearch.FindCut: asks that the search ends, since the method could not return otherwise; `CutSearch.CutSearchEndsIff` and `CutSearch.StuckEndsIff` say when it does.
- RCBTree.BuildProblemTree: asks that the cut searches end, which `RCBTree.PositiveTryEnds` shows for `n_try_new_axis >= 1`; the source does not check that, and `HeapsDomain.NoTree` is a domain on which it does not return.
- The rounding of the cut search is any one that stays between the two ends. The source's `min * (1 - p) + max * p` need not do so in floating point when the two ends almost coincide; such a cut is not modelled.
- VertexRoundTrip.PartitionAndReturn: for fields on the vertices of the mesh; the element-to-dof tables of higher-order spaces are MFEM's on both sides, and `NodeTransfer.NodalRoundTrip` takes their correspondence as given.
- SegOverlap.CheckSegOverlap: for edges on one line, as its documentation asks (both edges projected to a common plane, `GeomUtilities.hpp:1512`); what the test says of edges that are off a common line is not stated.
- `ParVector`, `ParSparseMat`, `MeshBuilder`, containers, parameters, examples and build files: thin wrappers or plumbing.
