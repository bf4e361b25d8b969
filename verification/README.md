# Brindle, modelled and verified

Brindle is a PostgreSQL index access method for approximate nearest-neighbor search: an HNSW graph with filterable
attributes, stored as one versioned image per index, written back when a transaction commits. This project models it in
Dafny and proves what its code and documentation promise. `dafny verify dfyconfig.toml` checks all of it; nothing here
runs the original program.

The modules follow the program, from the outside in.

- **The write-back protocol.** `Images` says what replaying rows and vacuuming do to a stored image, `Stash` and `Pending`
  are one backend's staging state, `Backend` is that state as mutable cells with the source's loops. `Savepoints` and
  `Staging` prove that counts, marks, a lazy rewind and a stash together are a plain stack of snapshots; `Transactions`,
  `Coverage`, `Anchoring`, `Steps`, `Failures` and `Runs` carry that over whole transactions with a heap, rebuilds, failing
  statements and other backends, and `Interleaving` over any number of backends. The theorems about runs assume what
  PostgreSQL guarantees: a heap address is handed out again only once no index entry names it, a build indexes every live
  row and no address twice, and an error aborts the innermost subtransaction before anything else happens (or ends the
  transaction). Every abort in a run must be safe, a condition on the state it starts from that `Failures` proves exact
  and `Shortfalls` ties to the rows lost without it. `GraphHistory` ties the histories used there to the HNSW graph.
- **The graph.** `Graphs`, `Search`, `Queries` and `Insertion` are HNSW on the graph's value; `SearchBounds`,
  `SearchReach`, `SearchOptimal`, `LiveSearch`, `FilteredReach`, `Expansion` and `QueryOptimal` are what searching
  guarantees, `Selection`, `Linking`, `InsertedLinks` and `Isolation` what inserting does; `BeamSteps` carries a
  property of one visit over every part of a search. `FlatLinks` and the class in `Hnsw` are the flat arrays,
  `BeamSearch` and `HnswOperations` the loops of searching and inserting, each proved to compute the corresponding
  function. Writes go through the arrays; the search loops read lists and vectors off the value the arrays stand for,
  which `Hnsw.Hnsw.Neighbors` proves to be what the arrays hold. Distances are an arbitrary function into the
  integers, the drawn level and the degree caps are parameters (`Graphs.Kernel`).
- **Storage.** `ByteStrings`, `Codec`, `Decoder` and `Payload` are the serialized forms, `Layout` the place of each
  field in them, `Unreadable` what can be written and not read, `Pages` the metapage, the chunked pages and the page
  walk, `Loader`, `GraphLoader` and `IndexLoader` decoding off that walk, `Cache` the decoded-index cache.
- **Queries.** `Filter`, `Scan` and `OrderedScan` are predicates and the two kinds of scan, `Fusion` and `Hybrid` rank fusion.

## Where the code falls short

Each of these is proved, with a concrete run or an exact condition.

- Once the entry point reaches no live node on any layer, as after a vacuum of every row, the graph is cut off: rows
  inserted are linked to nothing, one after another, and no search returns anything, although the rows are live and brute
  force finds them. This lasts exactly until an insert draws a level above the top layer and becomes the entry point
  (`Isolation.CutKeptIff`, `Isolation.SearchEmptyIff`, `Unreadable.StaysCut`).
- Tombstones can hide live rows from an unfiltered search whatever its budget: the walk breaks off at a queued tombstone
  farther than the results it has, however few (`LiveSearch.TombstonesShield`). A filtered one goes on
  (`FilteredReach.FilteredLayerReach`).
- A settle or flush empties the pending slot before its replay can fail. When another backend's rows make the graph refuse
  a survivor, the `ROLLBACK TO` that the error forces no longer finds rows staged before the savepoint
  (`Failures.RefusedReplayIff`).
- A row refused right after a rebuild leaves a loaded image pending with nothing staged. The abort's guard passes over it,
  and a later write-back can put the rebuilt relation's image in place of the restored one (`Failures.AbortSafeIff`,
  `Shortfalls.UnsafeAbortLosesRows`).
- Rows staged before a savepoint and written back after a tablespace move inside it are gone when the move is rolled back
  (`Shortfalls.MovedWriteIff`).
- The decoder's ceiling on link slots refuses some valid graphs within all other limits. Inserting and vacuuming builds them
  where degree caps are wide, and once written no backend can read them (`Decoder.ReadableIff`, `Unreadable`).
- `search` answers `k = 0` before it looks at the query's dimension, `brute_force` after (`Queries.SearchIsExact`).
- The comment on `from_bytes` (src/hnsw.rs:1608-1611) says degree caps are trusted as they are; the code refuses a list over
  its cap (src/hnsw.rs:1786-1790). The model follows the code.

## Model

| member | source | states |
|---|---|---|
| `Runs.RunKeeps` | src/index_am/storage.rs:1411-1721 | Over every run of inserts, savepoint starts, commits and safe aborts, rebuilds, scans, write-backs, deletes, statements that fail and force an abort, and other backends' writes and commits, the staging slot, the stash, the counts and the lazy rewind refine a plain snapshot stack, every staged write is anchored to the image its generation names, and every heap row is answered for |
| `Runs.RollbackRestores` | src/index_am/storage.rs:1534-1638 | After any legal run inside a savepoint, failed statements included, the abort that rolls it back, asked for or forced by an error, leaves staged exactly the rows of both kinds staged at its start, unless those were written back in between, when nothing is left staged; relfilenodes are the savepoint's, and so is the heap but for rows other backends committed meanwhile |
| `Runs.OneEntryEach` | src/index_am/storage.rs:802-838 | No reachable state has two stash entries for one subtransaction |
| `Runs.EveryRowAnsweredOnce` | src/index_am/storage.rs:1421-1446 | In every reachable state, mixing savepoints, TRUNCATE or REINDEX and their rollbacks, refused rows, refused replays and failed builds, each live heap row of an index is in the current image or staged, and no row is in the two together more than once |
| `Runs.CommitCoversHeap` | src/index_am/storage.rs:1468-1498 | Once pre-commit has written back, the image alone answers for every live heap row exactly once |
| `Runs.ScanSeesOwnRows` | src/index_am/storage.rs:1326-1338 | After the write-back a scan makes first, the image alone answers for every live heap row of the scanned index exactly once |
| `Steps.FlushIsReplay` | src/index_am/storage.rs:1342-1395 | The image a flush writes, on the same-generation fast path or not, is the replay of the staged rows onto the image then stored |
| `Runs.RunKeepsSnapshot` | src/index_am/storage.rs:1654-1721 | A savepoint's snapshot survives any run above it unchanged, but for heap rows other backends commit, or loses its staged rows only to an image that then answers for them |
| `Steps.InsertKeeps` | src/index_am/storage.rs:1143-1204 | Staging a row, with the settling, the write-back of another index's rows and the first load it may cause, keeps the whole invariant; the row the graph refuses is `Failures.FailKeepsIff` |
| `Steps.RebuildKeeps` | src/index_am/mod.rs:167-245 | A rebuild inside a transaction keeps the whole invariant: the superseded rows are set aside, the new image holds each live heap row once and no address twice, dead rows allowed |
| `Steps.CloseKeeps` | src/index_am/storage.rs:1534-1604 | Committing a subtransaction, or aborting one whose staged write is safe, keeps the invariant |
| `Savepoints.StartRefines` | src/index_am/storage.rs:1606-1612 | Opening a subtransaction pushes a snapshot, although marks may stay shorter than the nesting depth |
| `Savepoints.CloseRefines` | src/index_am/storage.rs:1540-1604 | Aborting leaves staged what the snapshot says, through the pending write or the stash entry that answers for it; committing keeps everything under the parent |
| `Staging.SettleRefines` | src/index_am/storage.rs:1654-1721 | Carrying out a recorded rewind changes nothing the snapshot stack shows |
| `Staging.StageRefines` | src/index_am/storage.rs:1182-1203 | Staging a row appends it to the running snapshot and to no savepoint |
| `Staging.WriteRefines` | src/index_am/storage.rs:1342-1395 | A write-back clears the rows of exactly the snapshots staged for the relation it wrote |
| `Staging.RebuildRefines` | src/index_am/storage.rs:1411-1446 | Setting the pending write aside hides its rows from the running snapshot and from no open savepoint |
| `Stash.LedgerEventSane` | src/index_am/storage.rs:1606-1638 | Marks stay nondecreasing and bounded by what is effectively staged, and an abort makes exactly the popped mark effective |
| `Stash.MovedOwner` | src/index_am/storage.rs:1540-1588 | Closing the innermost subtransaction leaves every outer one the write it had, through drops, re-parenting and restores |
| `Pending.RewoundKeeps` | src/index_am/storage.rs:1671-1718 | A rewind keeps exactly the first rows of each kind its mark counts, in order |
| `Pending.StageAppends` | src/index_am/storage.rs:1182-1203 | A staged row goes last among its kind and disturbs nothing staged before |
| `Images.ReplayLive` | src/index_am/storage.rs:1370-1390 | A replay answers for exactly the rows it was given on top of those stored |
| `Images.VacuumedLive` | src/index_am/mod.rs:364-399 | Vacuum removes exactly the rows it was told of from graph and side table, and no others |
| `Failures.RefusedReplayIff` | src/index_am/storage.rs:1654-1680 | When a replay is refused the pending write is already gone: the rollback that follows restores its savepoint if and only if the stash answers for it or nothing was staged at it, and keeps the whole invariant if and only if what the stash gives back is safe as well |
| `Failures.FailKeepsIff` | src/index_am/storage.rs:1143-1204 | Whatever statement fails, insert, scan, write-back or build, the abort its error forces keeps the whole invariant if and only if it is safe |
| `Shortfalls.RefusedReplayLosesRow` | src/index_am/storage.rs:1654-1680 | The concrete run: a row staged before a savepoint, another backend's row of another dimension, a failing read, and a `ROLLBACK TO` that no longer has the row |
| `Failures.AbortSafeIff` | src/index_am/storage.rs:1606-1638 | An abort keeps the whole invariant if and only if the write it leaves pending staged something, or was loaded from the relation that comes back |
| `Shortfalls.SafeAbortKeepsRows` | src/index_am/storage.rs:1606-1638 | After a safe abort, a commit through a write left pending and empty adds its row to whatever other backends have stored by then |
| `Shortfalls.UnsafeAbortLosesRows` | src/index_am/storage.rs:1606-1638 | After an unsafe one other backends' writes can lead to a commit that replaces what is stored by the image the write was loaded from |
| `Shortfalls.LeftoverCommits` | src/index_am/storage.rs:1342-1369 | Such a commit keeps what is stored if and only if the generations differ or the images agree |
| `Shortfalls.MovedWriteIff` | src/index_am/storage.rs:1158-1162 | Rows written back after `ALTER INDEX ... SET TABLESPACE` reach the new relation only: rolling the move back restores the staging if and only if the stash answers for it or nothing was staged at the savepoint; without the write-back it always does |
| `Shortfalls.RefusedRowThenRollback` | src/index_am/storage.rs:1143-1204 | The concrete run: TRUNCATE in a savepoint, a refused row, `ROLLBACK TO`, an insert; the commit overwrites the restored image exactly when its generation is still the first |
| `Failures.RefusedRowKeepsCore` | src/index_am/storage.rs:1143-1204 | A refused row stages nothing, may leave the image it loaded pending, and keeps the whole invariant |
| `Backend.Backend.FlushLocked` | src/index_am/storage.rs:1342-1395 | Under the image lock the stored image and the outcome are those of the write-back specification; a refusal writes nothing |
| `Backend.Backend.SettlePending` | src/index_am/storage.rs:1654-1721 | The replay loop leaves the pending write, store and outcome of the settling specification |
| `Backend.Backend.PendingInsert` | src/index_am/storage.rs:1143-1204 | Settle, make room, load on first use and stage, as the insertion specification says, refusals included |
| `Backend.Backend.FlushPendingFor` | src/index_am/storage.rs:1326-1338 | Writes back what is staged for one index and leaves another's staging alone |
| `Backend.Backend.FlushPending` | src/index_am/storage.rs:1454-1458 | Writes back whatever is staged, after settling |
| `Backend.Backend.PreCommit` | src/index_am/storage.rs:1468-1498 | Writes back and empties both cells |
| `Backend.Backend.AbortTransaction` | src/index_am/storage.rs:1500-1504 | Empties both cells and writes nothing |
| `Backend.Backend.ForgetPending` | src/index_am/storage.rs:1411-1446 | Moves this index's pending write into the stash under the rebuilding subtransaction, unless that already owns an entry |
| `Backend.Backend.SubxactCallback` | src/index_am/storage.rs:1534-1604 | The loops over stash and marks compute the subtransaction specification |
| `Backend.Server.BulkDelete` | src/index_am/mod.rs:352-420 | Tombstones and drops exactly what vacuum names, counts it, and rewrites only when something changed |
| `Interleaving.RunConsistent` | src/index_am/storage.rs:1342-1395 | Under any interleaving of backends' stages, settles, flushes and vacuums, the stored image is the replay of every flush, in flush order, on what vacuum left, and every backend's staged graph stays anchored |
| `Interleaving.RowsCountedByLog` | src/index_am/storage.rs:369-377 | The image answers for a row as often as the log of flushes and vacuums says: none lost, none twice, none back after vacuum |
| `Interleaving.TombstonesStay` | src/index_am/mod.rs:364-405 | Node ids, their rows and their tombstones only ever extend |
| `GraphHistory.Build` | src/index_am/storage.rs:1213-1222 | The graph of a history is valid and has its nodes, attributes, tombstones and dimension, one for one |
| `GraphHistory.RefusalsAgree` | src/hnsw.rs:1011-1037 | Insertion refuses a row exactly when the protocol's model of the graph does |
| `GraphHistory.ReplayIsInserting` | src/index_am/storage.rs:1370-1390 | Replaying rows onto an image is inserting them one after another into the HNSW graph it holds, refusals included |
| `GraphHistory.ReplayBuildable` | src/index_am/storage.rs:1370-1390 | A replay appends only rows the graph accepts |
| `GraphHistory.VacuumBuildable` | src/index_am/mod.rs:364-399 | A vacuum tombstones only nodes the image has |
| `Insertion.InsertKeepsValid` | src/hnsw.rs:1006-1105 | From any valid graph an accepted insert keeps every list within its cap, duplicate-free and free of self-loops, every layer-L link leading to a node that has layer L, and the entry point owning the top layer |
| `Insertion.InsertKeepsNodes` | src/hnsw.rs:1006-1105 | The new node gets the next id; older vectors, attributes, tombstones, levels and all parameters are unchanged |
| `Linking.InsertLinksBothWays` | src/hnsw.rs:1064-1102 | Each link of the new node is returned, or its target's list is exactly full; and, its candidate pool being at least one, the new node has a link on a layer it shares with the graph if and only if the entry point reaches a live node on that layer or on one above it |
| `Linking.ConnectDownLinkedIff` | src/hnsw.rs:1064-1102 | Layer by layer: linked exactly where the layer's seeds reach a live node, or a layer connected before it did |
| `LiveSearch.FindsLiveIff` | src/hnsw.rs:848-950 | Tombstones or not, an unfiltered layer search returns something if and only if its seeds reach a live node |
| `Linking.ConnectAnswers` | src/hnsw.rs:1066-1097 | Connecting one layer touches no other, links `id` to something exactly when the search found something, and every neighbor answers |
| `InsertedLinks.InsertedListChosen` | src/hnsw.rs:1064-1073 | On each layer it shares with the graph the new node's list is the greedy selection from a pool of at most `ef_construction` live nodes of that layer, truly scored and in order; a live neighbor of one of these is in the pool too, unless the pool is full of nodes no farther than it |
| `InsertedLinks.InsertRelinks` | src/hnsw.rs:1074-1097 | Every older list, on every layer: as it was unless the new node links there; else itself and the new id, or the greedy selection of these when they are over the cap |
| `InsertedLinks.InsertedLinkCount` | src/hnsw.rs:1066-1074 | With nothing tombstoned and a layer strongly connected, the new node gets there exactly the least of the degree cap, `ef_construction` and the number of nodes that have the layer |
| `InsertedLinks.ReachCount` | src/hnsw.rs:848-950 | With nothing tombstoned an unfiltered layer search returns exactly the lesser of `ef` and the number of nodes its seeds reach |
| `QueryOptimal.DescendToNearest` | src/hnsw.rs:1054-1062 | An insertion's greedy descent hands over a node that has no live neighbor nearer to the new vector on the layer above its own |
| `Insertion.SelectOk` | src/hnsw.rs:955-993 | The heuristic returns at most `m` distinct candidates, and fewer only when it took all; which ones is `Selection.SelectGreedy` |
| `Selection.SelectGreedy` | src/hnsw.rs:955-993 | The heuristic returns picks, then fill. Picks ascend in (distance, id), each at least as far from the earlier ones as from the base; while there is room a candidate is passed over only for an earlier pick nearer the base that it is nearer to than to the base. Fill ascends, and nothing passed over comes before it |
| `Selection.SelectionUnique` | src/hnsw.rs:955-993 | That rule allows one selection, order included: whatever obeys it is what the heuristic returns |
| `Insertion.PickSpread` | src/hnsw.rs:964-979 | Before backfill each pick is at least as far from every earlier pick as from the base |
| `Isolation.SearchEmptyIff` | src/hnsw.rs:1168-1244 | An unfiltered query that asks for something comes back empty if and only if on no layer the entry point reaches a live node |
| `Isolation.CutFindsNothing` | src/hnsw.rs:1168-1244 | Then no search returns anything, filtered or not, whatever its budget |
| `Isolation.CutKeptIff` | src/hnsw.rs:1055-1105 | And then an inserted row takes no link and changes none, and the graph stays cut off if and only if the row draws no level above the top |
| `Unreadable.StaysCut` | src/hnsw.rs:1055-1105 | So through any run of inserts and vacuums until such a level is drawn: no node inserted meanwhile has a link on any layer |
| `Isolation.InsertedRowFoundIff` | src/hnsw.rs:1055-1105 | The row inserted into a graph that is cut off is live and in the exact ranking, and a search finds it, and it alone, if and only if it drew a level above the top |
| `SearchBounds.SearchLayerSound` | src/hnsw.rs:848-950 | Results are sorted by (distance, id), distinct, at most `ef`, live, satisfying and truly scored; fewer than `ef` are all the admissible nodes scored, otherwise none left out is strictly nearer than one returned |
| `SearchBounds.SearchLayerWithin` | src/hnsw.rs:748-840 | A search scores nothing outside a set that holds its seeds and that no link of its layer leaves |
| `SearchBounds.FilteredLayerCost` | src/hnsw.rs:873-945 | One predicate-aware layer search conserves its two allowances, rescue rounds included, and computes at most a distance for each seed plus twice the widest list for each expansion |
| `SearchReach.SearchLayerReach` | src/hnsw.rs:848-950 | Unfiltered, with `ef` at least the graph's size and nothing tombstoned, it returns exactly what is reachable from its seeds |
| `SearchOptimal.SearchLayerNearest` | src/hnsw.rs:873-945 | When a layer search may stop: every admissible neighbor of a result is a result too, or the result holds `ef` and nothing farther than that neighbor. A filtered search is excused only once its expansions are spent |
| `SearchOptimal.NothingMissed` | src/hnsw.rs:873-945 | A layer search that comes back empty with expansions left has scored no node that is admissible or has an admissible neighbor |
| `LiveSearch.TombstonesShield` | src/hnsw.rs:874-882 | An unfiltered search from a live node whose neighbors are all tombstoned and farther off returns that node alone, whatever `ef` and whatever lies behind them |
| `FilteredReach.FilteredLayerReach` | src/hnsw.rs:873-945 | A filtered search of layer 0 with `ef`, expansions and detours at least the graph's size returns exactly the live matching nodes its seeds reach, through nodes that do not match, tombstones or not |
| `FilteredReach.LayerExpandsOnce` | src/hnsw.rs:701-718 | A layer search computes exactly one distance for each node it scores, and expands no more nodes than it scored |
| `Expansion.ExpandIs` | src/hnsw.rs:748-812 | Under a filter one expansion scores, in order, the matching neighbors and then, up to `m` matches in all, the matching neighbors of its first `m` others; it bridges out if and only if there are none |
| `Expansion.RescueNearestFirst` | src/hnsw.rs:925-945 | The rescue spends its detours nearest first: while a deferred expansion has a neighbor left unscored, every node newly scored is beside one that is no farther |
| `Queries.SearchSound` | src/hnsw.rs:1168-1244 | On every graph the decoder accepts, whatever a whole search returns is live, satisfying, truly scored, in order and at most `k` |
| `QueryOptimal.SearchLocallyNearest` | src/hnsw.rs:1168-1244 | On every graph the decoder accepts, a query that spent fewer than 16*ef expansions, or has no filter, leaves out a live matching layer-0 neighbor of a result only where it returns `k` that are no farther |
| `QueryOptimal.FilteredSearchIsExact` | src/hnsw.rs:1168-1244 | On every graph the decoder accepts, tombstones or not, with layer 0 strongly connected, `ef_search >= n` and 16*`ef_search` at least n for each layer, a filtered query returns exactly the first `k` of the live matching nodes in (distance, id) order, or the dimension error |
| `QueryOptimal.FootholdFound` | src/hnsw.rs:1212-1234 | Probing a layer under a filter yields at most one node, live and matching, no farther than any such node it started from; with expansions left it yields none only if no node it started from has one beside it, and one that has none nearer beside it |
| `QueryOptimal.DescendKeepsFoothold` | src/hnsw.rs:1200-1236 | A foothold found on any layer is still there at layer 0, or one no farther from the query |
| `QueryOptimal.DescendNearest` | src/hnsw.rs:1200-1211 | Filter or no filter, navigation reaches layer 0 at a node that has no live neighbor nearer to the query on layer 1 |
| `Queries.SearchIsExact` | src/hnsw.rs:1168-1268 | On every graph the decoder accepts, with nothing tombstoned, `ef_search >= n`, layer 0 strongly connected and no predicate or the match-all one, search and brute force give the same list, ties included, and the same error, unless `k = 0` meets a wrong dimension |
| `Queries.FilteredSearchBounded` | src/hnsw.rs:206-287 | On every graph the decoder accepts, a filtered query's predicate-aware searches have 16*ef expansions in all, 4*ef detours in the descent and 4*ef on layer 0: spent and left over add up to exactly that; distances are at most two a layer plus twice the layer-0 cap per expansion, whatever the graph's size |
| `BeamSearch.Visit` | src/hnsw.rs:701-718 | Scores an unseen node and queues it as the specification of a visit says |
| `BeamSearch.Expand` | src/hnsw.rs:748-812 | Classifying, hopping over bridges and bridging out, loop for loop, as specified |
| `BeamSearch.BridgeOut` | src/hnsw.rs:820-840 | Charges one detour for each node it queues, while any are left |
| `BeamSearch.Walk` | src/hnsw.rs:873-899 | The frontier loop computes the specified walk, and terminates |
| `BeamSearch.SearchLayer` | src/hnsw.rs:848-950 | The loops over mutable beams and shared allowances, rescue included, compute the specified layer search, and terminate |
| `HnswOperations.SearchInner` | src/hnsw.rs:1168-1244 | The loops over layers, on the arrays' value: results, costs and errors are those of the specified search |
| `HnswOperations.BruteForce` | src/hnsw.rs:1248-1268 | The loop over nodes, on the arrays' value: the live nodes scored, sorted and cut, or the dimension error |
| `FlatLinks.RunInBounds` | src/hnsw.rs:564-584 | Every slot run lies inside the links array |
| `FlatLinks.RunsDisjoint` | src/hnsw.rs:564-584 | Slot runs of different lists never overlap |
| `FlatLinks.LinkBaseClosed` | src/hnsw.rs:564-569 | The prefix-sum formula is where a walk over the earlier nodes would end |
| `FlatLinks.SetRunLists` | src/hnsw.rs:603-607 | Overwriting a run changes exactly one list of the nested map |
| `FlatLinks.PushRunLists` | src/hnsw.rs:612-619 | Appending to a run with room is replacing that list by itself and the new id |
| `FlatLinks.PushSlotsLists` | src/hnsw.rs:628-650 | A new node's storage starts with empty lists and disturbs none |
| `FlatLinks.StrayPush` | src/hnsw.rs:612-619 | Appending to a node's list on the first layer it lacks appends to the next node's layer-0 list |
| `Hnsw.Hnsw.constructor` | src/hnsw.rs:462-490 | An empty index is valid, with clamped parameters and nonzero seed |
| `Hnsw.Hnsw.Neighbors` | src/hnsw.rs:592-599 | The borrowed slice is the nested map's list; unknown nodes and layers give none |
| `Hnsw.Hnsw.SlotStart` | src/hnsw.rs:571-584 | The arithmetic address is the run's |
| `Hnsw.Hnsw.SetNeighbors` | src/hnsw.rs:603-607 | Exactly one list of the graph's value changes |
| `Hnsw.Hnsw.PushNeighbor` | src/hnsw.rs:612-619 | One list grows by one, even a full one, and nothing else changes |
| `Hnsw.Hnsw.PushNode` | src/hnsw.rs:628-650 | The value gains one node with empty lists; the arrays grow by its full stride |
| `Hnsw.Hnsw.SelectNeighborsHeuristic` | src/hnsw.rs:955-993 | The two loops compute the specified selection |
| `Hnsw.Hnsw.Delete` | src/hnsw.rs:1307-1313 | One tombstone more, idempotently, or the unknown-node error |
| `Hnsw.LinkOne` | src/hnsw.rs:1072-1091 | Append and prune in place is one link added in the graph's value |
| `HnswOperations.ConnectDown` | src/hnsw.rs:1064-1097 | The loop over layers, each seeding the next, computes the specified linking |
| `HnswOperations.InsertWithAttrs` | src/hnsw.rs:1006-1105 | Insertion into the flat arrays is insertion into the value they stand for, so results never depend on slot padding; a full graph still advances its PRNG |
| `Codec.HeaderReads` | src/hnsw.rs:1619-1690 | An accepted header is within every declared limit and is what the writer writes, but for the reserved byte |
| `Codec.NodesRead` | src/hnsw.rs:1744-1811 | Accepted nodes fit caps, id range, layers and room, and are exactly the bytes consumed |
| `Codec.NodesWrite` | src/hnsw.rs:1588-1604 | What is written of fitting nodes is read back, whatever follows |
| `Codec.RowReads` | src/hnsw.rs:1408-1434 | An accepted attribute row is exactly the bytes consumed, tags and bit patterns included |
| `Codec.RowWrites` | src/hnsw.rs:1390-1406 | A written attribute row is read back, NaN and negative values included |
| `Layout.HeaderLayout` | src/hnsw.rs:1573-1588 | An accepted header's 76 bytes, little-endian: magic, version 2, metric code, reserved byte, m, gamma's bits, ef_construction, dimension, top layer, seed, PRNG state, entry point or all ones, node count, each at its place |
| `Layout.NodeLayout` | src/hnsw.rs:1589-1602 | An accepted node's bytes: tombstone flag, layer count, vector words, then the length and ids of its layer-0 list |
| `Layout.ListLayout` | src/hnsw.rs:1597-1600 | A neighbor list is its length and its ids, eight bytes each |
| `Layout.ValueLayout` | src/hnsw.rs:1390-1406 | An attribute value is tag 0, or 1 and a two's complement integer, or 2 and a float's bits |
| `Layout.MetaLayout` | src/index_am/storage.rs:245-263 | The metapage: magic, storage version 3, blob length and generation at bytes 0, 4, 8 and 16 |
| `Decoder.DecodeOfEncode` | src/hnsw.rs:1573-1837 | Encoding then decoding gives back the same graph, everything but slot padding, within the decoder's limits |
| `Decoder.EncodeOfDecode` | src/hnsw.rs:1619-1837 | An accepted string is, but for the reserved byte, the encoding of the graph it decodes to |
| `Decoder.LoadableIff` | src/hnsw.rs:1619-1837 | The decoder's range is exactly the graphs that meet its limits and structural checks |
| `Decoder.TrailingBytesRefused` | src/hnsw.rs:1812-1814 | Any bytes after an accepted string are refused as trailing |
| `Decoder.PrefixRefused` | src/hnsw.rs:1435-1468 | No proper prefix of an accepted string is accepted |
| `Decoder.DecodedIsStructurallyValid` | src/hnsw.rs:1619-1837 | A decoded graph has ids in range, counts within caps, a layer for every node and an entry point that owns the top layer, and no more link slots than its nodes' bytes and 2^22 |
| `Decoder.ReadableIff` | src/hnsw.rs:1696-1784 | A graph insertion built, within the declared limits, is read back if and only if its slots fit that ceiling |
| `Unreadable.ChurnUnreadable` | src/hnsw.rs:1696-1784 | Rounds of insert and vacuum reach it: once the slots reserved beyond the bytes pass the ceiling's floor, the next insert's commit writes a valid graph, within every other limit if its draws are, that is refused when read |
| `Unreadable.UnreadableGraph` | src/hnsw.rs:1696-1784 | With m = 2 and gamma = 512 the 2077th row is enough |
| `Decoder.LinkTargetsUnchecked` | src/hnsw.rs:1800-1806 | The decoder accepts a graph whose link leads to a node without the layer: the invariant insertion keeps is strictly stronger |
| `Graphs.ValidIff` | src/hnsw.rs:1606-1618 | Insertion's invariant is what the decoder checks, and lists without repeats, self-loops or targets that lack the layer |
| `Payload.PayloadIff` | src/index_am/storage.rs:72-181 | A payload splits into exactly the graph bytes, TID table and side table it was framed from, and from no others |
| `Payload.LoadIff` | src/index_am/storage.rs:678-728 | Loading is splitting, decoding the graph's slice, and the arity and length checks, exactly |
| `Payload.LoadOfEncode` | src/index_am/storage.rs:72-181 | What a backend writes, a backend reads back |
| `Pages.Fork.WriteIndexBlob` | src/index_am/storage.rs:332-352 | Into an empty fork only: a valid metapage of the first generation, and pages that join to the blob |
| `Pages.Fork.RewriteIndexBlob` | src/index_am/storage.rs:369-395 | Over any prior contents with a valid metapage: the next generation, and pages that join to exactly the blob, stale tail pages emptied; a bad metapage stops it before any write |
| `Pages.MetaOfEncoded` | src/index_am/storage.rs:245-263 | A written metapage is read as written |
| `Pages.PageBytes.ReadExact` | src/index_am/storage.rs:562-592 | The next `n` bytes across page boundaries and empty pages, or `Truncated` at the limit or the last page |
| `Pages.PageBytes.Advance` | src/index_am/storage.rs:510-542 | The next page's bytes, losing none |
| `Pages.PageBytes.Limit` | src/index_am/storage.rs:546-548 | Moves the fence and no byte |
| `Loader.ReadRow` | src/hnsw.rs:1408-1434 | Off the page walk: the row, error and rest that the slice reader gives |
| `Loader.ReadList` | src/hnsw.rs:1785-1808 | Off the page walk: the neighbor list, error and rest that the slice reader gives |
| `Loader.ReadHeader` | src/hnsw.rs:1619-1690 | Off the page walk: the header, error and rest that the slice reader gives |
| `GraphLoader.ReserveNode` | src/hnsw.rs:1744-1784 | A node's slots are reserved only once its layers and slots are known to fit what is left |
| `GraphLoader.FromGraphBytes` | src/hnsw.rs:1619-1837 | Off the page walk into flat arrays: the graph or error that the slice decoder gives, every byte before the fence consumed, and at most remaining + 2^22 link slots; pages that hold fewer bytes than promised are refused |
| `IndexLoader.LoadIndex` | src/index_am/storage.rs:678-731 | Off the pages, through both fences: graph, TID table, side table, generation and errors are those of decoding the blob as a slice; pages that hold fewer bytes than the metapage declares are refused |
| `IndexLoader.StoredIsLoaded` | src/index_am/storage.rs:369-395 | Pages as a write or rewrite leaves them, whatever they held before, load as exactly the index written |
| `Cache.BackendCache.CachedIndex` | src/index_am/storage.rs:946-1031 | A hit, exactly when a copy of the generation read is kept and still fits, serves the image the metapage named then; a miss serves the image stored when it was loaded, and keeps it for the next lookup when it fits, with any writes in between; entries stay fresh and within the ceiling |
| `Cache.BackendCache.Lookup` | src/index_am/storage.rs:951-994 | Evicts down to the ceiling, serves exactly a kept entry of the asked generation that still fits, drops a stale or oversized one |
| `Cache.BackendCache.Fill` | src/index_am/storage.rs:1000-1030 | Makes room first, so the ceiling holds after the entry joins |
| `Cache.BackendCache.Evict` | src/index_am/storage.rs:951-1030 | Terminates with the total within the ceiling, or with nothing but the spared entry left, and drops nothing while there is room |
| `Cache.FreshEvolves` | src/index_am/storage.rs:373-377 | Other backends' writes turn entries into history and never make a stale one current |
| `Filter.FloatOrder` | src/filter.rs:86-97 | The float comparison is that of the real numbers finite patterns stand for, by sign, exponent and mantissa, with infinities outside them and every NaN equal and greatest; a total preorder in which -0.0 equals 0.0 |
| `Filter.SignsOrder` | src/filter.rs:86-97 | Without NaN, a negative value is below every positive one, and changing both signs reverses the answer |
| `Filter.AtomIsComparison` | src/filter.rs:59-198 | Traversal tests exactly the SQL comparison the atom was made for; NULL, missing columns and foreign families never match |
| `Scan.PushedIffPlain` | src/index_am/attrs.rs:151-212 | A key is pushed exactly when it is a plain comparison within one family, and then as just that comparison |
| `Scan.PredicateFromKeys` | src/index_am/attrs.rs:217-238 | The predicate is the conjunction of the translatable keys; the rest set the recheck flag |
| `Scan.ScanSearch.StartUnordered` | src/index_am/scan.rs:165-196 | Results are the matching live nodes and the matching vectorless rows, in order |
| `Scan.ScanSearch.Next` | src/index_am/scan.rs:211-217 | Each result once, in order, then none |
| `Scan.UnorderedScanExact` | src/index_am/scan.rs:165-196 | With the executor's heap check and recheck the scan returns exactly the TIDs a sequential filter over the covered rows still in the heap would, in order |
| `Scan.UnorderedScanIsFilter` | src/index_am/scan.rs:165-196 | Where the image answers for each heap row once, as after `Runs.ScanSeesOwnRows`, the query gets each heap row that satisfies it once and nothing else, whatever entries of deleted rows await vacuum |
| `OrderedScan.Start` | src/index_am/scan.rs:110-147 | One search with the session's budget, its nodes resolved through the TID table; a failed one leaves no results |
| `OrderedScan.RankedScanSound` | src/index_am/scan.rs:110-147 | On every graph the decoder accepts, every address handed out is that of a live row of the stored image satisfying the predicate, none unmapped, none twice, nearest first |
| `OrderedScan.RankedScanComplete` | src/index_am/scan.rs:110-147 | Where a filtered query is exact, a ranked scan hands out every live row of the stored image that satisfies what was pushed |
| `Fusion.Rrf` | src/fusion.rs:86-115 | Every id of any list exactly once, scored with the sum over lists of 1/(k + first rank), by score then id; a negative or non-finite k is refused |
| `Fusion.FusionIsUnique` | src/fusion.rs:107-114 | That determines the output: neither the hash map's order nor the unstable sort can show |
| `Fusion.Accumulates` | src/fusion.rs:93-106 | The one last-list field counts a repeated id once per list, at its first rank |
| `Hybrid.Fuse` | src/hybrid.rs:564-598 | The first `k` rows of the whole ranking: true ranks in either source, scores they account for exactly, ties broken by signed id |
| `Hybrid.KeyRank` | src/hybrid.rs:157-165 | Mapping ids to keys keeps every first rank |
| `Hybrid.KeysOrdered` | src/hybrid.rs:157-165 | The key mapping is an order-preserving bijection |
| `Hybrid.FlippedIsXor` | src/hybrid.rs:157-165 | On machine words the flip in it is the exclusive or with the sign bit |
| `Hybrid.Ranks` | src/hybrid.rs:574-582 | Each key's first position, from 1 |

## Left out

- PostgreSQL itself: datums, memory contexts, buffer pins, WAL, error unwinding, snapshots. Page locks, the metapage, page contents, relfilenodes and subtransaction callbacks are state and steps of the model.
- Runs.RunKeeps: has no event for `ALTER INDEX ... SET TABLESPACE`; `Shortfalls.MovedWriteIff` states what it breaks, from any state of a run, for a write-back between the move and the abort that undoes it.
- Corrupt page headers, and an index dropped while a transaction has rows staged for it.
- A TRUNCATE that keeps its relfilenode, a documented exception to the cache key: every rebuild gets a fresh one.
- Generation wrap-around, except in `Pages.Fork.RewriteIndexBlob`; elsewhere generations only grow.
- Floating point: distance kernels are an abstract integer-valued function (no NaN), gamma is its bit pattern, degree caps and drawn levels are parameters, and RRF scores are reals.
- The `u32` width of the layer prefix sum and link counts in the in-memory arrays; the decoder's own check of it is modelled.
- HnswOperations.ConnectLayer: gives each layer search a traversal of its own, because the counters one shared across a build would add up are never read.
- GraphLoader.FromGraphBytes: says that pages holding fewer bytes than the metapage declares are refused, and not with which error; `Pages.PageBytes.ReadExact` does, read by read.
- OrderedScan.Start: takes the decoded graph and the TID table its handle would lend; flushing first is `Backend.Backend.FlushPendingFor`, and the lookup is `Cache.BackendCache.CachedIndex`.
- Hybrid.Fuse: ranks are unbounded, so a list longer than 2^31 does not wrap them, and the caller's refusal of a non-positive `k` is not modelled.
- At the node limit a refused insert still advances the PRNG of the graph it was staged on (`HnswOperations.InsertWithAttrs`); the protocol's histories do not record that.
- compact: a fold of insertion over the live rows, with no caller in the index.
- Capacity hints, reservation clamps and resident-byte estimates, except the ceiling on link slots; a cache entry's size is given.
- `parse_literal` and `format_literal`, whose round trip rests on the library's float printing.
- Cost estimation, GUCs, reloptions, operator classes, the parallel-plan hook, hybrid SQL building: plumbing.
- The paged format of docs/STORAGE.md, which no code implements.
- Connectivity of the graph after pruning: the code does not promise it; `Queries.SearchIsExact` takes it as a hypothesis.
