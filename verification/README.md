# Verified model of 3Depict's analysis core

3Depict shows atom probe data through a tree of *filters*. A refresh evaluates the tree from its roots down:
each filter passes on the streams it does not block and adds the streams it generates. Filters cache what they
generated, so a refresh does not start at the roots but at the lowest filters that still need work. This project
models that engine and the code below it, and proves what the program relies on.

1. **The refresh engine.** A simple recursive evaluation without caches (`RefreshSpec`) is the reference. The
   program's engine searches its starting points with type masks (`SeedSearch`), walks the rows of the tree with an
   explicit stack (`Walks`, `Refreshing`, `TreeRefresh`) and owns the streams in between with a collector
   (`Collector`). The two agree, in every state that any sequence of edits and refreshes can reach (`CacheRuns`,
   `FilterTrees`), and no stream is ever deleted twice or while it may still be read, also when a refresh is
   stopped by an error or by the user.
2. **The tree container.** Nodes with five links and two sentinels on the heap (`TreeNodes`, `LinkedTree`) refine
   an abstract forest (`Forests`, `LinkAlgebra`, `TreeShapes`): insertion, erasure, surgery, copying (`TreeCopies`,
   `ForestCopies`), stackless iteration (`TreeOrders`, `TreeIterators`, `TreeTours`) and measures (`TreeMeasures`).
   `TreeMoves` and `TreeEdits` show that the filter tree's edits are what its calls to the container do.
3. **Saving and loading** of the tree's shape as nested tags (`TreeXml`, `XmlMeaning`, `XmlLoading`).
4. **Kernels.** Mesh renumbering, the mesh's own check and refinement (`MeshNodes`, `MeshSanity`,
   `MeshRefinement`, `Determinants`), the feedback register and the selection it drives (`Bits`, `ShiftOrbits`,
   `ShiftRegister`), quaternion rotation (`Quaternions`), keyframes (`Animator`) and erasing from vectors
   (`Vectors`). That every entry of the register's table has full period is proved from the algebra of the register
   (`RegisterAlgebra`), words that go through 2^50 clocks in fifty rounds (`RegisterWords`) and the prime factors
   of the periods (`Primes`, `LargePrimes`, `TableCycles`, `TableEntries`).
5. **Laws seen from outside.** `EditLaws` describes every edit of a tree by the pre-order with depths, `StepLaws`
   every step of the engine by what becomes of single filters and paths, and `OrderLaws` compares the orders of the
   iterators.

A forest is a value in first-child, next-sibling form: `Nil`, or an item with the forest of its children and the
forest of its later siblings. `Table(f, 0)` lists its rows in pre-order with their depths; the loops of the program
are loops over these rows. Filters and nodes are classes whose fields the methods update in place; each method is
proved against a function on the abstract values, and the lemmas are about those functions.

`dafny verify dfyconfig.toml` checks everything.

## Model

| member | source | states |
|---|---|---|
| RefreshSpec.RefreshExact | src/backend/filtertree.cpp:463-580 | When caches are coherent and filters keep to their masks, evaluating only from the refresh starts, each with empty input, gives every leaf the same streams as evaluating all filters from the roots without caches |
| StepLaws.LeavesShow | src/backend/filtertree.cpp:696-896 | Each entry of the uncached output is what the filters of one path from a root to a leaf make of the input, one after the other |
| StepLaws.PathsAreShown | src/backend/filtertree.cpp:696-896 | And what comes out of each such path is an entry of that output |
| RefreshSpec.SeedsCutPaths | src/backend/filtertree.cpp:494-557 | Every path from a root to a leaf passes exactly one refresh start |
| RefreshSpec.SeedsApart | src/backend/filtertree.cpp:562-576 | No refresh start lies below another one (what the debug assertions test) |
| RefreshSpec.SeedsDistinct | src/backend/filtertree.cpp:562-576 | No refresh start is listed twice |
| CacheRuns.StepSound | src/backend/filtertree.cpp:624-1955 | Setting a property, clearing caches, adding, removing, moving and copying a branch, and a refresh, finished or stopped, each keep every cache equal to what its filter would generate from the uncached output of its present ancestors |
| CacheRuns.RunSound | src/backend/filtertree.cpp:1600-1955 | That holds all along every sequence of such edits and refreshes, stopped ones among them, from an empty tree on |
| CacheRuns.SoundRefreshExact | src/backend/filtertree.cpp:624-938 | In such a state a refresh shows what full evaluation shows |
| CacheRuns.RunRefreshExact | src/backend/filtertree.cpp:624-938 | So it does at any time in every such sequence |
| CacheRuns.MoveClearsBranch | src/backend/filtertree.cpp:1819-1916 | The clearing loop of a move, which passes over some equal depths, reaches at least the whole moved branch |
| CacheRuns.MoveClearsOnlyBranch | src/backend/filtertree.cpp:1878-1890 | A move clears nothing but its branch if and only if every filter that follows the branch lies at the depth of the moved one |
| CacheRuns.MoveClearsForeign | src/backend/filtertree.cpp:1878-1890 | A tree of two roots in which moving the first clears the child of the second |
| CacheRuns.MovedConserves | src/backend/filtertree.cpp:1819-1916 | A move keeps the set of filters, the moved branch as a whole, and the order of all others |
| EditLaws.OutlineTells | src/backend/filtertree.cpp:1600-1955 | The pre-order with depths determines the tree, so that the laws below say all there is to say about an edit |
| EditLaws.MovedOutline | src/backend/filtertree.cpp:1889-1908 | A moved branch is gone from its place and stands as it was behind the children of its new parent; nothing else changes place or depth |
| EditLaws.MovedToBaseOutline | src/backend/filtertree.cpp:1889-1908 | Moved to the base it stands right after the first base branch; the first one itself stays where it is |
| EditLaws.AddBaseOutline | src/backend/filtertree.cpp:1602-1617 | A branch added at the base stands after the first one, or alone |
| StepLaws.AddFilterStep | src/backend/filtertree.cpp:1600-1621 | A new filter has its settings and no cache; the others stay as they are |
| StepLaws.RemoveStep | src/backend/filtertree.cpp:1742-1773 | Exactly the filters of the branch are gone; the others stay as they are |
| StepLaws.ReparentStep | src/backend/filtertree.cpp:1878-1890 | A move drops the caches that its loop reaches and changes no other filter |
| StepLaws.ClearBranchStep | src/backend/filtertree.cpp:1919-1955 | Clearing a branch drops exactly its caches, with or without that of its root |
| StepLaws.ClearAllStep | src/backend/filtertree.cpp:1579-1583 | Clearing everything drops every cache and nothing else |
| StepLaws.EvaluatedBelow | src/backend/filtertree.cpp:696-896 | A refresh evaluates exactly the starts and what lies below them, and each of these as its input and the caching switch say |
| StepLaws.RefreshStep | src/backend/filtertree.cpp:624-938 | Settings and tree survive a refresh, caches that no monitored filter calls into question stay, and a new cache is one of an evaluated filter that may cache and made something |
| Walks.WalkIsRecursion | src/backend/filtertree.cpp:704-894 | Walking rows with a stack cut to the depth of each row, where only filters with children push, is evaluating recursively; the walk then goes on as if those rows were not there |
| InitWalks.InitIsRecursion | src/backend/filtertree.cpp:313-354 | So is the walk in which every filter pushes: each filter is called with exactly the output of its parent |
| InitWalks.InitWalkIsCalls | src/backend/filtertree.cpp:301-355 | The whole initialisation, from a stack with one empty input, makes the calls of the structural recursion |
| InitWalks.PopBoth | src/backend/filtertree.cpp:319-323 | Cut to the same level, collector and stack have the same height and what the stack still holds stays alive |
| InitWalks.InitFilterTree | src/backend/filtertree.cpp:301-355 | The loop makes exactly those calls, and after every collection the collector's level, the stack's height and the filter's depth plus one agree |
| SeedSearch.AccumulateEmitTypes | src/backend/filtertree.cpp:366-395 | The map of emitted types holds, for each filter, what may reach its children from itself and its uncut ancestors |
| SeedSearch.AccumulateBlockTypes | src/backend/filtertree.cpp:400-456 | The map of blocked types, built one depth at a time, holds the filter's own block mask when it is cached and nothing otherwise, said of the fields of the filters themselves |
| SeedSearch.ScanIsSeeds | src/backend/filtertree.cpp:500-557 | The scan over the whole tree that drops everything below a start already found yields the recursively defined starts, in order |
| SeedSearch.StartsExactly | src/backend/filtertree.cpp:494-557 | A refresh starts at a filter if and only if it starts at none above it and the filter is a leaf or can send something to a child that does not stop it |
| SeedSearch.SeedsAreNeeded | src/backend/filtertree.cpp:463-560 | The same of the whole list of starts, said with the masks and caches of the filters alone |
| SeedSearch.FilterRefreshStarts | src/backend/filtertree.cpp:463-560 | The search returns exactly those starts: a filter is one if and only if none above it is, and it is a leaf or some type that may leave it meets a child that is not cached or does not block that type |
| Streams.MaskOperations | src/backend/filter.h:618-631 | The bitwise operations on type masks are the operations on the sets of types they stand for |
| FilterNodes.Filter.PropagateStreams | src/backend/filter.cpp:976-987 | The output grows by the inputs whose type is not blocked, in order |
| FilterNodes.Filter.CacheAsNeeded | src/backend/filter.cpp:149-163 | A stream is kept, and marked cached, exactly when caching is on |
| FilterNodes.Filter.SetProperty | src/backend/filter.h:759-781 | A value that parses and differs is stored and drops the cache; one that does not parse or is the same changes nothing |
| FilterNodes.Filter.Refresh | src/backend/filter.cpp:962-987 | A refresh gives the unblocked input and the generated or replayed streams, in the order that its kind asks for; made streams are new, alive and owned by the cache exactly when caching is on |
| FilterNodes.Filter.ClearCache | src/backend/filter.cpp:924-937 | All cached streams are deleted, none twice |
| Collector.FilterRefreshCollector.TrackPointers | src/backend/filtertree.cpp:133-164 | A new level tracks exactly the uncached streams that are neither tracked nor forgotten; all levels stay disjoint |
| Collector.FilterRefreshCollector.ForgetPointers | src/backend/filtertree.cpp:166-188 | The given streams leave every level, and those that had been tracked are remembered |
| Collector.FilterRefreshCollector.CollectAll | src/backend/filtertree.cpp:190-203 | All tracked streams are deleted, each once, and nothing is tracked afterwards |
| Collector.FilterRefreshCollector.CollectToLevel | src/backend/filtertree.cpp:205-217 | Exactly the streams of the levels above `level` are deleted; `level` levels remain; every tracked stream is deleted or still tracked if and only if there is none at `level` itself |
| Collector.ResizeKeeps | src/backend/filtertree.cpp:205-217 | Cutting disjoint lists to `level`, with those above accounted for, leaves nothing behind if and only if list `level` is missing or empty |
| LostStreams.LoseStream | src/backend/filtertree.cpp:696-900 | A refresh of four uncached filters, started at the base, at whose end a live uncached stream is neither tracked, nor held by a filter, nor put out |
| LostStreams.Visit | src/backend/filtertree.cpp:716-891 | One row of that walk, with the exact lists that stack and collector hold after it |
| Refreshing.RefreshBase | src/backend/filtertree.cpp:696-896 | The branch of one start is evaluated as the recursion does, or up to the filter that stopped it; every stream recorded as output is alive and belongs to no level |
| TreeRefresh.DiscardOutput | src/backend/filtertree.cpp:841-861 | Of the recorded streams exactly the uncached ones are deleted, each once, however often they were recorded |
| TreeRefresh.GiveUp | src/backend/filtertree.cpp:835-865 | On the exit after an error what was recorded and what is tracked is deleted without meeting a dead or cached stream |
| CacheRuns.StoppedSound | src/backend/filtertree.cpp:835-865 | A refresh that was stopped after any part of its filters leaves every cache coherent |
| TreeRefresh.RefreshFilterTree | src/backend/filtertree.cpp:624-938 | A whole refresh: it stops exactly when a filter to be evaluated stops it; the new state is the model's step of a finished or stopped refresh; when it finishes, the output is that of full evaluation, scrubbed so that each entry stays with the filter that put its streams out first, and all of it is alive |
| OutputScrub.ScrubOutput | src/backend/filtertree.cpp:902-934 | The scrubbing loops compute `Scrubbed`; no stream is lost or kept twice, no entry is empty, and each entry belongs to the filter that put its streams out first (`CleanOf`) |
| OutputScrub.ScrubbedFlat | src/backend/filtertree.cpp:902-934 | Scrubbing keeps exactly the first occurrence of each stream, in order, and no empty entry |
| OutputScrub.ScrubbedOnce | src/backend/filtertree.cpp:904-908 | Afterwards every stream that was there is there exactly once |
| OutputScrub.ScrubbedFrom | src/backend/filtertree.cpp:911-934 | Each entry that is kept belongs to a filter of the output, in the order of the filters, and holds exactly those of its streams that no filter before it put out |
| OutputScrub.ScrubbedClean | src/backend/filtertree.cpp:902-934 | So the scrubbed list is clean in the sense of `CleanOf`, which does not mention how scrubbing goes |
| Scans.ScanVisitsBranch | src/backend/filtertree.cpp:1926-1953 | The pre-order scan that stops at the first node of no greater depth visits exactly the branch |
| Ancestry.IsChild | src/backend/filtertree.cpp:1338-1353 | Climbing parents answers whether a filter lies strictly below another one |
| FilterTrees.FilterTree.SetFilterProperty | src/backend/filtertree.cpp:952-989 | The step of the model; reports whether the value was accepted and whether the output changes |
| FilterTrees.FilterTree.ClearCacheBelow | src/backend/filtertree.cpp:1919-1955 | Exactly the caches of the branch are dropped, with or without its root |
| FilterTrees.FilterTree.ClearAllCaches | src/backend/filtertree.cpp:1579-1583 | Every cache is dropped, and only the caches |
| FilterTrees.FilterTree.AddFilter | src/backend/filtertree.cpp:1600-1621 | The filter becomes the last child of its parent, or a root after the first |
| FilterTrees.FilterTree.RemoveSubtree | src/backend/filtertree.cpp:1742-1773 | Exactly the branch is removed, with its filters and their streams |
| FilterTrees.FilterTree.ReparentFilter | src/backend/filtertree.cpp:1819-1916 | Refused exactly for a target inside the branch; otherwise the branch is moved as it is and coherence is kept |
| FilterTrees.FilterTree.CopyFilter | src/backend/filtertree.cpp:1651-1739 | Refused exactly for a target inside the branch; otherwise clones in the same shape are grafted, one for each filter of the branch in pre-order, each of the kind and with the properties of its original and without a cache |
| FilterTrees.KeepsSound | src/backend/filtertree.cpp:1600-1955 | Every allowed edit of a tree whose caches are coherent leaves them coherent |
| LinkedTree.Tree.Insert | src/backend/tree.hh:1000-1022 | A new node stands before the position; all five links of all nodes agree with the new forest |
| LinkedTree.Tree.InsertAfterNode | src/backend/tree.hh:1055-1076 | A new node stands after the position; all links agree |
| LinkedTree.Tree.AppendChild | src/backend/tree.hh:885-908 | A new node is the last child of the position; all links agree |
| LinkedTree.Tree.PrependChild | src/backend/tree.hh:914-935 | A new node is the first child of the position; all links agree |
| LinkedTree.Tree.EraseChildrenOf | src/backend/tree.hh:572-590 | Exactly the nodes below are deallocated, none twice; all other links agree |
| LinkedTree.Tree.Erase | src/backend/tree.hh:594-618 | Exactly the branch is deallocated and cut out; all other links agree |
| LinkedTree.Tree.FlattenAt | src/backend/tree.hh:1229-1252 | The children follow their parent as siblings, and the pre-order of the whole tree is unchanged |
| LinkAlgebra.FlattenPre | src/backend/tree.hh:1227-1252 | Lifting the children of any node keeps the whole pre-order sequence |
| LinkedTree.Tree.Reparent | src/backend/tree.hh:1255-1302 | Any stretch of siblings is cut out and hung behind the children of the position; nodes are conserved and all links agree |
| LinkedTree.Tree.ReparentChildren | src/backend/tree.hh:1304-1309 | The same for all children of a node, or nothing when it has none |
| LinkedTree.Tree.Wrap | src/backend/tree.hh:1311-1320 | A new node takes the place of the position and has it as its only child |
| LinkedTree.Tree.MoveAfter | src/backend/tree.hh:1322-1349 | The branch is taken out and stands right after the target; nodes are conserved and all links agree |
| EditLaws.EditOutlines | src/backend/tree.hh:572-1320 | Seen in pre-order with depths, removing, replacing children, appending, prepending, inserting before and after, flattening, wrapping and replacing each change the branch of the position as they should, and nothing before or after it |
| EditLaws.CutOutline | src/backend/tree.hh:1255-1302 | Taking a stretch of siblings out takes out its branches, and nothing before or after them |
| TreeCopies.Replace | src/backend/tree.hh:1117-1180 | Terminates; the place of the position holds a copy of the source with its shape and data, made of new nodes, and every other node stands where it was |
| CopyLiveness.SourceSurvives | src/backend/tree.hh:1117-1180 | After the position's branch is deallocated, the source is alive if and only if it was not in that branch, and its whole branch is alive if and only if neither lies in the other's |
| CopyLiveness.BeginReplace | src/backend/tree.hh:1117-1156 | The data read from the source is alive if and only if the source is not below the position, and the source is alive from then on if and only if it is not in the position's branch |
| CopyLiveness.SourceBelowPosition | src/backend/tree.hh:1128-1131 | On the tree 1 with child 2, replacing 1 by a copy of 2 reads data that has been deallocated, although the position is not inside the source's branch |
| CopyLiveness.SourceAtPosition | src/backend/tree.hh:1151-1156 | Replacing a node by a copy of itself reads its data in time, but its link after it has been deallocated |
| ForestCopies.Clear | src/backend/tree.hh:564-570 | Only the sentinels remain, and every other node has been deallocated |
| ForestCopies.CopyForest | src/backend/tree.hh:543-561 | The copy holds the same forest as the source, in the same order although its first loop inserts the roots in reverse, with the same data, in new nodes only |
| TreeMoves.AddDummy | src/backend/filtertree.cpp:1889-1900 | The dummy node stands where the branch is to go |
| TreeMoves.GraftCopy | src/backend/filtertree.cpp:1679-1694 | Dummy and replacement from a temporary tree graft a copy of the branch with the clones as its data |
| TreeMoves.MoveByCopy | src/backend/filtertree.cpp:1889-1908 | Dummy, replacement and erasure in one tree yield the tree with the branch grafted and the original removed |
| TreeMoves.MovedValues | src/backend/filtertree.cpp:1889-1908 | Seen by the filters it holds, that tree is the filter tree after `Moved` |
| TreeEdits.StepTrees | src/backend/filtertree.cpp:1600-1916 | What the model's steps do to the tree: adding and copying plant a branch, removing removes it, moving moves it |
| TreeEdits.AddNode | src/backend/filtertree.cpp:1602-1617 | The calls for adding a filter, also to an empty tree, plant it in the tree of filters, where no filter is held twice |
| TreeEdits.RemoveBranch | src/backend/filtertree.cpp:1763-1765 | Erasing the children and then the node removes exactly the branch from the tree of filters |
| TreeEdits.CopyBranch | src/backend/filtertree.cpp:1691-1694 | Dummy and replacement plant the branch with the clones in place of the filters |
| TreeEdits.MoveBranch | src/backend/filtertree.cpp:1889-1908 | Dummy, replacement and erasure move the branch in the tree of filters, and no filter is held twice afterwards |
| TreeIterators.PreOrderIterator.Increment | src/backend/tree.hh:2052-2068 | One step leads to the next node in pre-order, or past the branch when its children are to be skipped |
| TreeIterators.PreOrderIterator.Decrement | src/backend/tree.hh:2070-2086 | One step back leads to the node before in pre-order |
| TreeIterators.EraseAt | src/backend/tree.hh:594-618 | The iterator that erasing returns stands on the node after the branch, which is still in the tree |
| TreeOrders.BackAndForth | src/backend/tree.hh:2051-2086 | Stepping back from the next node, feet included, leads to the node one came from |
| TreeIterators.PostOrderIterator.Increment | src/backend/tree.hh:2160-2178 | One step leads to the next node in post-order, or to the next sibling itself when children are to be skipped |
| TreeIterators.LeafIterator.Increment | src/backend/tree.hh:2641-2660 | One step leads to the next leaf, or to the first leaf below a node that is no leaf |
| TreeTours.BeginPost | src/backend/tree.hh:645-654 | The begin of a post-order walk is the first node in post-order after the head |
| TreeTours.BeginLeaf | src/backend/tree.hh:729-737 | The begin of a leaf walk is the first leaf after the head |
| TreeTours.PreTour | src/backend/tree.hh:620-631 | Incrementing from begin until feet visits the pre-order sequence of the nodes between the sentinels, each once |
| TreeTours.PostTour | src/backend/tree.hh:645-660 | The same in post-order |
| TreeTours.LeafTour | src/backend/tree.hh:729-743 | The same for the leaves |
| TreeTours.PostOnce | src/backend/tree.hh:2160-2178 | No node is met twice in post-order |
| TreeOrders.LeavesOnce | src/backend/tree.hh:2641-2660 | No leaf is met twice |
| OrderLaws.PreAboveFirst | src/backend/tree.hh:2051-2068 | In pre-order every node comes before those below it |
| OrderLaws.PostAgainstPre | src/backend/tree.hh:2160-2178 | In post-order it comes after them, and nodes of which neither lies below the other come as in pre-order |
| OrderLaws.LeavesAsPre | src/backend/tree.hh:2641-2660 | Leaves come as in pre-order |
| TreeTours.InnerNodes | src/backend/tree.hh:511-531 | The nodes met are all nodes but the sentinels, and the leaves met all of those without children |
| TreeMeasures.TreeSize | src/backend/tree.hh:1606-1616 | Counting increments gives the number of nodes without the sentinels |
| TreeMeasures.BranchSize | src/backend/tree.hh:1618-1630 | Counting until the node after the branch gives the number of nodes in the branch |
| TreeMeasures.NodeDepth | src/backend/tree.hh:1639-1650 | Climbing gives the depth of the node in the forest |
| TreeMeasures.RootDepth | src/backend/tree.hh:1676-1702 | The climb-and-descend loop ends, counts the true depth below a root, and returns the greatest |
| TreeMeasures.TreeDepth | src/backend/tree.hh:1665-1673 | The greatest depth of all nodes, and -1 for an empty tree |
| Ancestry.MaxDepthRows | src/backend/tree.hh:1665-1673 | No node lies deeper, and some node lies that deep |
| TreeXml.WriteTree | src/backend/filtertree.cpp:1198-1300 | The tags written from changes of depth nest exactly as the tree does |
| TreeXml.TagsRead | src/backend/filtertree.cpp:1205-1297 | The tags are always balanced, and parse to the document of the tree |
| XmlLoading.NextElement | src/common/xmlHelper.cpp:104-114 | Moving to the next element skips what is not one, and does not change what loading the rest gives |
| XmlLoading.LoadXml | src/backend/filtertree.cpp:1062-1196 | The loop with its two stacks builds what a recursive reading of the document means, and leaves an empty tree when it means nothing |
| XmlMeaning.MeaningHolds | src/backend/filtertree.cpp:1062-1196 | A document means something if and only if all of its filters can be read and no children element is empty or comes before the first filter; then it means a tree with exactly the filters of the document |
| XmlMeaning.BelowPre | src/backend/filtertree.cpp:1081-1188 | Below a filter the order of the document is the pre-order of what is built |
| XmlMeaning.ShownMeans | src/backend/filtertree.cpp:1081-1188 | A saved tree with roots r1, r2 to rn is loaded as r1, rn down to r2, each with its branch as it was |
| XmlMeaning.RoundTrip | src/backend/filtertree.cpp:1062-1300 | Saving and loading restores a tree of distinct filters if and only if it has at most two roots |
| XmlMeaning.ThreeRootsTurn | src/backend/filtertree.cpp:1163-1173 | A tree of three roots 1, 2, 3 is saved and loaded as 1, 3, 2 |
| MeshNodes.KeptAt | src/common/mesh.cpp:379-440 | The new number of a node that is kept leads to that node |
| MeshNodes.KeptFrom | src/common/mesh.cpp:379-440 | Every node kept is reached by the new number of a node of before |
| MeshNodes.StillUsed | src/common/mesh.cpp:379-440 | An element that used a node uses it under its new number |
| MeshNodes.Mesh.KillOrphans | src/common/mesh.cpp:379-440 | The orphans are removed; every point, line, triangle and tetrahedron has the coordinates it had, and all indices are in range |
| MeshNodes.Mesh.KillAllOrphans | src/common/mesh.cpp:1040-1071 | The same for exactly the nodes that no element uses; afterwards every node is used |
| MeshSanity.IsSane | src/common/mesh.cpp:569-716 | The mesh's own check accepts exactly the elements of different vertices of which none exceeds the number of nodes, with enough nodes and at most four triangles and six lines to a tetrahedron |
| MeshSanity.CrowdLimit | src/common/mesh.cpp:683-714 | Lines and triangles attached to a tetrahedron pass if and only if there are at most six and four of them |
| MeshSanity.AdmittedInRange | src/common/mesh.cpp:590-596 | Vertices that pass are numbers of nodes if and only if none of them equals the number of nodes |
| MeshSanity.SaneIsValid | src/common/mesh.cpp:569-716 | A mesh that passes has only nodes as vertices if and only if no line, triangle or tetrahedron uses the number of nodes, and every single point is a node |
| MeshSanity.OnePastPasses | src/common/mesh.cpp:590-596 | The tetrahedron 1, 2, 3, 4 over four nodes passes |
| MeshSanity.PointPasses | src/common/mesh.cpp:569-716 | A point with number 5 passes without any nodes |
| MeshSanity.StaysSane | src/common/mesh.cpp:379-440 | Renumbering keeps vertices different, the attached triangles and lines, and enough nodes |
| MeshSanity.KillOrphansChecked | src/common/mesh.cpp:1040-1071 | A mesh that passes and whose vertices are nodes passes again once its orphans are gone, as the final assertion demands |
| MeshRefinement.SplitVolume | src/common/mesh.cpp:2080-2111 | The four pieces around any inner vertex have together the signed volume of the tetrahedron |
| MeshRefinement.QuarterVolume | src/common/mesh.cpp:2070-2111 | Around the centre each has a quarter of it, with the same sign |
| MeshRefinement.PiecesQuarter | src/common/mesh.cpp:2070-2111 | So has each of the four pieces that the program makes of a tetrahedron of the mesh |
| MeshRefinement.VolumeSplits | src/common/mesh.cpp:2080-2111 | The signed volume is a measure that the pieces split and the choice of vertices alone decides |
| MeshRefinement.RefineTetrahedra | src/common/mesh.cpp:2062-2126 | Exactly the chosen tetrahedra are replaced by four each, all others are kept despite swap and pop, and the total signed volume is conserved |
| Determinants.ComputedIs | src/common/mesh.cpp:56-119 | The expansion by minors computes the determinant for even sizes and its negation for odd sizes |
| Determinants.ComputedIsDet | src/common/mesh.cpp:56-119 | It is the determinant if and only if the size is even or the determinant is zero |
| Determinants.IdentityNegated | src/common/mesh.cpp:56-119 | For the identity of size three it gives -1 |
| Determinants.Determinant | src/common/mesh.cpp:81-119 | The recursion over scratch arrays computes that expansion |
| Determinants.FourDeterminant | src/common/mesh.cpp:121-151 | For the corners of a tetrahedron it computes six times the signed volume |
| Bits.BitByBit | src/common/mathfuncs.cpp:898-908 | The operations on states go bit by bit |
| Bits.AndOnes | src/common/mathfuncs.cpp:898-908 | Masking with n ones keeps the lowest n bits as they are and cuts off the others |
| ShiftOrbits.ClockShifts | src/common/mathfuncs.cpp:898-908 | On the non-zero states of its mask the register never meets the zero guard, is never cut off, and stays on such states |
| ShiftOrbits.ShiftedInjective | src/common/mathfuncs.cpp:898-908 | Different states lead to different states |
| ShiftOrbits.ShiftedOnto | src/common/mathfuncs.cpp:898-908 | Every state is reached from exactly one state |
| ShiftOrbits.OrbitRepeats | src/common/mathfuncs.cpp:898-908 | An orbit repeats only by returning to its start |
| ShiftOrbits.OrbitFits | src/common/mathfuncs.cpp:863-895 | Until it returns, an orbit visits new states; when it returns after 2^w - 1 clocks it has visited all |
| ShiftOrbits.FullFrom | src/common/mathfuncs.cpp:863-895 | With full period from state 1, every state's orbit visits every state before it returns |
| ShiftOrbits.TableMask | src/common/mathfuncs.cpp:788-861 | The mask set for n has its top bit at place n - 2 |
| ShiftOrbits.PeriodBound | src/common/mathfuncs.h:264-267 | So its period is at most 2^(n-1) - 1, less than the documented 2^n - 1 |
| TableEntries.TableFull | src/common/mathfuncs.cpp:787-845 | Each of the 48 masks of the table, the last one included, has full period: the register meets every non-zero state before it comes back |
| TableCycles.FullCycle | src/common/mathfuncs.cpp:876-894 | A mask of w bits has full period if the top bit comes back after 2^w - 1 clocks and after none of the quotients of that number by its prime factors |
| TableCycles.PowerTells | src/common/mathfuncs.cpp:898-908 | Whether the top bit is back after `e` clocks is told by a word that is computed in as many rounds as `e` has bits |
| RegisterWords.PowerIs | src/common/mathfuncs.cpp:898-908 | That word is the state which `e` clocks lead to |
| RegisterAlgebra.Doubling | src/common/mathfuncs.cpp:898-908 | If `k` clocks lead from the top bit to a state, twice as many lead to its square modulo the polynomial of the mask |
| Primes.FirstReturn | src/common/mathfuncs.cpp:876-894 | If states return after a product of primes, and not after any quotient by one of them, they return after nothing less |
| Primes.PrimeByOrder | src/common/mathfuncs.cpp:787-845 | Primality of the largest factors by the order of a number, for which every divisor is too small |
| ShiftRegister.LinearFeedbackShiftReg.SetMaskPeriod | src/common/mathfuncs.cpp:848-861 | Takes the table's mask, which has full period, and n ones to cut off with |
| ShiftRegister.LinearFeedbackShiftReg.VerifyMask | src/common/mathfuncs.cpp:876-894 | Counting clocks until state 1 returns decides whether the mask has full period |
| ShiftRegister.LinearFeedbackShiftReg.VerifyTable | src/common/mathfuncs.cpp:863-895 | The check of the table succeeds for every length, and each mask has full period |
| ShiftRegister.SelectWith | src/common/basics.h:669-684 | With full period the loop ends, with `num` elements from different places of the source, none of them the first |
| ShiftRegister.PicksOne | src/common/basics.h:648-661 | For each size of the source there is one mask that is used |
| ShiftRegister.RandomSelect | src/common/basics.h:643-686 | The whole weak branch ends, with `num` elements from different places of the source, none of them the first, for every size of the source and every random start, also one outside the register's cycle |
| Quaternions.ProductsRotate | src/common/mathfuncs.cpp:592-609 | The two specialised products together compute the vector part of q p q* |
| Quaternions.RotatedPure | src/common/mathfuncs.cpp:603-609 | q p q* has no scalar part |
| Quaternions.RotationKeepsDot | src/common/mathfuncs.cpp:761-771 | Rotation by q multiplies dot products by the squared norm of q, so that a unit quaternion keeps lengths and angles |
| Quaternions.RotationComposes | src/common/mathfuncs.cpp:761-771 | Rotating twice is rotating by the product |
| Quaternions.NormMul | src/common/mathfuncs.cpp:739-758 | Norms multiply: products of unit quaternions are unit quaternions |
| Quaternions.RotationKeepsAxis | src/common/mathfuncs.cpp:739-771 | The axis stays where it is |
| Quaternions.Rodrigues | src/common/mathfuncs.cpp:739-771 | With a unit axis r the rotation is cos v + sin (r x v) + (1 - cos)(r . v) r, with sine and cosine of twice the half-angle |
| Quaternions.TurnsTowardsY | src/common/mathfuncs.cpp:739-771 | Its direction: about the z axis the x axis turns towards the y axis |
| Quaternions.QuatRotApplyQuat | src/common/mathfuncs.cpp:761-771 | Computes that rotation, although the scalar part of the point's quaternion is never set |
| Quaternions.QuatRot | src/common/mathfuncs.cpp:630-666 | A single point is rotated by that formula |
| Quaternions.QuatRotArray | src/common/mathfuncs.cpp:694-736 | Each point of the array is rotated in place as it would be alone; about a unit axis each turns as Rodrigues' formula says, by twice the angle whose sine and cosine are given |

| Animator.RangesOverlap | src/common/basics.h:90-112 | Two ranges overlap if and only if they share a frame |
| Animator.CheckSelfConsistent | src/backend/animator.cpp:157-191 | All is well if and only if no two keyframes of one property overlap and no conflict was given; the reported frames are those that meet one, and those given |
| Animator.OneActive | src/backend/animator.cpp:194-230 | Without conflicts at most one keyframe of a property is active at a frame |
| Animator.OneHeld | src/backend/animator.cpp:230-269 | Without conflicts the keyframe whose end value is held is unique |
| Animator.GetInterpolatedFilterData | src/backend/animator.cpp:194-269 | The value comes from the active keyframe, or else is the last value of a keyframe that has ended and after which none has ended |
| Animator.ValueUnique | src/backend/animator.cpp:194-269 | Without conflicts there is only one such value |
| Animator.OrderDoesNotMatter | src/backend/animator.cpp:194-269 | Without conflicts the value is the same for every order of the keyframes |
| Vectors.SurvivorsFrom | src/common/basics.h:834-853 | The survivors are the elements not marked, each from its own place and in order |
| Vectors.VectorMultiErase | src/common/basics.h:837-853 | Shifting in place leaves exactly the survivors |

## Findings

- **`replace` frees before it reads.** It erases the children of `position` before it reads the data of `from`
  (src/backend/tree.hh:1128), and deallocates `position` before it reads the links of `from`. The source is alive
  when it is read if and only if it is not in the branch of `position`: `CopyLiveness.BeginReplace` and
  `SourceSurvives` prove both directions; `SourceBelowPosition` and `SourceAtPosition` are runs in which it is lost.
- **The period of the register is half of what is documented.** src/common/mathfuncs.h:266 promises a period of
  2^n - 1 for `setMaskPeriod(n)`. The table's mask for n has n - 1 bits (`ShiftOrbits.TableMask`), so that the
  period is at most 2^(n-1) - 1 (`PeriodBound`), which is also what `verifyTable` checks against
  (src/common/mathfuncs.cpp:863-895). The same line allows n up to 60, but the table ends with 50.
- **The table of the register is right.** Its last entry is marked as unverified in the source, and checking the
  whole table by counting as a matter of months (src/common/mathfuncs.cpp:838-841). `TableEntries.TableFull` proves
  full period of every entry.
- **Weak random selection never chooses the first element** of its source, since the register never takes the value
  zero on its cycle (`ShiftRegister.RandomSelect`). Its start may lie outside the cycle, at zero or above it; the
  first clock leads onto the cycle.
- **`Determinant` negates for odd sizes.** The sign of the expansion begins with minus
  (src/common/mesh.cpp:56-62), so that each level of the recursion turns it. `Determinants.ComputedIsDet` gives the
  exact condition and `IdentityNegated` an input. `fourDeterminant`, its only caller, uses size four and is right.
- **The loader reverses the roots from the second on**: each is inserted before the one read last
  (`XmlMeaning.ShownMeans`). `RoundTrip` gives the exact condition under which a tree comes back as it was,
  `ThreeRootsTurn` one that does not.
- **The mesh's own check does not ensure that vertices are nodes.** src/common/mesh.cpp:591, 625 and 654 compare with
  `>`, so that the number of nodes itself passes, and single points are not looked at at all. `killOrphanNodes`
  asserts this check (src/common/mesh.cpp:386) and then reads by these numbers. `MeshSanity.SaneIsValid` gives the
  exact condition under which a mesh that passes is one whose vertices are nodes, which is what `KillOrphans` needs;
  `OnePastPasses` and `PointPasses` are meshes that pass and are not.
- **`collectToLevel` loses a level.** It deletes the levels above `level` but keeps only the first `level`. Every
  tracked stream is deleted or still tracked if and only if nothing is tracked at `level` itself (`CollectToLevel`,
  `ResizeKeeps`). `LostStreams.LoseStream` is a refresh that loses a stream: a base with two children, of which the
  first has a leaf that blocks its stream. Safety holds, reclamation of everything does not.
- **A move clears more than it must.** The loop in `reparentFilter` that clears caches goes on at nodes of the same
  depth. It clears only the moved branch if and only if all filters that follow lie at that depth
  (`CacheRuns.MoveClearsOnlyBranch`); in `MoveClearsForeign` it clears a filter of another root.
- **A refresh that is stopped leaves coherent caches**, also those filled before the stop (`CacheRuns.StoppedSound`).

## Left out

- TreeRefresh.RefreshFilterTree: a filter that reports an error is taken to have run as its contract says before it does; which filters stop a refresh, and which are allowed to cache, are arbitrary sets, so that cache size and abort timing are not modelled.
- FilterNodes.Filter.Generate: what a filter generates is a deterministic function of its properties and its input within its masks; the single filters and filters that draw random numbers are not part of this model.
- FilterNodes.Filter.SetProperty: properties are a map from keys to strings, and which values parse is a parameter of the filter's kind.
- Collector.FilterRefreshCollector.TrackPointers: demands that a list holds no stream twice and that an uncached stream is younger than the collector, as the streams of a refresh are.
- InitWalks.InitFilterTree: what a filter passes on and makes at initialisation is a parameter; the streams' contents at that time are not modelled.
- TreeCopies.Replace: demands that neither `position` nor `from` lies in the branch of the other; what happens otherwise is in `CopyLiveness`.
- ForestCopies.CopyForest: does not cover assignment of a tree to itself.
- TreeMoves.GraftCopy: the program copies a branch into a temporary tree and replaces each filter there by its clone; the model starts from a temporary tree that holds the clones, since the data of a node is constant. The same holds of `TreeEdits.CopyBranch`.
- FilterTrees.FilterTree.ReparentFilter: the class edits the abstract forest; `TreeEdits` proves that the container operations have that effect.
- LinkedTree.Tree.Erase: without the iterator that `erase` returns, which is that of `TreeIterators.EraseAt`; insertion after and appending to a sentinel are excluded.
- TreeIterators.LeafIterator.Increment: the iterator has no top node.
- TreeMeasures.RootDepth: `max_depth` of a node that is no root is not modelled.
- SeedSearch.AccumulateEmitTypes: type masks are sets of stream types; `Streams.MaskOperations` is the link to the bits.
- XmlLoading.LoadXml: demands at least one node inside the element of the filter tree, as the program does, which passes over the first one unseen; a filter's own state is read only as far as whether reading succeeds.
- TreeXml.WriteTree: file mappings and overrides of paths in a saved package are not modelled.
- MeshNodes.Mesh.KillAllOrphans: indices and sizes are unbounded, the 32 bits of an element's index are not modelled.
- MeshRefinement.RefineTetrahedra: coordinates are reals, and the group of a new tetrahedron, which the program does not set, is arbitrary.
- ShiftRegister.RandomSelect: the strong branch, which draws from a random number generator, is not modelled.
- Quaternions.QuatRotApplyQuat: over the reals; sine and cosine of half the angle are numbers whose squares add up to one.
- Animator.GetInterpolatedFilterData: how a value is interpolated between two keys of one keyframe is a parameter; with conflicts the order of `std::sort` on ties is open, so the value is one of those that ended last.
- Display, plotting, cameras, configuration, parsing of property values, progress counters, console messages and selection devices.
- Other container members: sorting, merging, swapping, fixed-depth iteration, `move_before` and `move_ontop`.
- Other mesh operations: duplicate removal, surfaces, relaxation, point location.
- `stripHazardousContents` and `addFilterTree`.
