# Match-3 board core, modelled in Dafny

This project models the game logic of a Unity match-3 game. The game is a grid of gems.
The player swaps two neighbouring gems, and every horizontal or vertical line of three or
more gems of one type is matched. Matched lines that share a gem merge into one cluster.
A plain bomb caught in a match clears a square around itself, and a colour bomb clears a
disc. Clusters of four or more leave a new bomb behind. Matched gems are destroyed and
scored. Gems above empty cells fall one row per step, and new gems spawn in the top row.
The spawner prefers the gem type that would form the fewest matches there.

The repository carries two lineages of this logic:

- the older one: `Assets/Scripts/GameBoard.cs` and `Assets/Scripts/Services/`;
- the newer one: `Assets/Scripts/Domain/` and `Assets/Scripts/Service/`.

Both share the same shape, so one Dafny class serves both wherever they agree. Where they
differ, a constant or a parameter selects the variant:

- `MatchScanner.chainsPlainBombs`: the newer lineage also chains plain bombs caught in a blast.
- `AnchorRule`: the older scan hands its one user position to every cluster. The newer one
  anchors a cluster to whichever swap cell one of its members occupies.

The collection and object pools of both lineages are modelled as well.

Modules, one per file:

- `Positions` (`grid_position.dfy`): `GridPosition` equality and hashing.
- `Pieces` (`piece.dfy`): a piece and its flags.
- `Boards` (`board.dfy`): the cell array and the run counting along the four directions.
- `Clusters` (`clusters.dfy`): `MatchInfo` and the merge of a new run into the cluster list.
- `Scanning` (`scanner.dfy`): `FindAllMatches`, the blast areas and the chain reaction, in which every colour bomb, and every plain bomb when bombs chain, that gets flagged sets off its own blast area.
- `Collecting` (`collecting.dfy`): the collection passes of `PathfinderService` and of the older `MatchService`.
- `Bombs` (`bombs.dfy`): `BombService`.
- `Destroying` (`destroy.dfy`): `DestroyService`.
- `Spawning` (`spawn.dfy`): `SpawnService` and its least-matching choice.
- `Dropping` (`drop.dfy`): `DropService` and the older `BoardService`.
- `Swapping` (`swap.dfy`): `SwapService`, the swap direction and `GameStateProvider`.
- `Scores` (`score.dfy`): `ScoreService`.
- `Pooling` (`pools.dfy`) and `ObjectPools` (`object_pool.dfy`): the pools.
- `Wrappers` (`wrappers.dfy`): `Option`.

How the model treats the board and the outside world:

- **The board is a snapshot.** Functions that specify a pass over the board read a
  snapshot `g: Grid`, with `g[x][y]` being the piece at column x, row y. Methods that
  change the board take that snapshot as a ghost argument together with `board.Shows(g)`.
  Their contracts then describe the new board as a function of `g`.
- **Enumeration order is an oracle.** The order in which a `HashSet` or `Dictionary` is
  enumerated is unknown. The model takes it as a parameter: `order` for sets, `keys` for
  dictionaries.
- **Random numbers are parameters.**
  - A random index is `roll % n`.
  - A bomb draw is a number `draw`, and a bomb is spawned exactly when `draw < bombChance`.

## Model

| member | source | states |
|---|---|---|
| Positions.Equals | Assets/Scripts/Domain/GridPosition.cs:36-39 | two positions are equal exactly when both X and Y agree |
| Positions.OpEquality | Assets/Scripts/Domain/GridPosition.cs:26-29 | `==` holds exactly when `Equals` does |
| Positions.OpInequality | Assets/Scripts/Domain/GridPosition.cs:31-34 | `!=` is the exact negation of `==` and of value equality |
| Positions.EqualsObject | Assets/Scripts/Domain/GridPosition.cs:16-19 | `Equals(object)` holds only for a boxed position equal to this one |
| Positions.EqualPositionsHashAlike | Assets/Scripts/Domain/GridPosition.cs:21-24 | positions that are `Equals` have the same hash code, whatever the combining function |
| Positions.EqualsIsEquivalence | Assets/Scripts/Domain/GridPosition.cs:36-39 | `Equals` is reflexive, symmetric and transitive |
| Positions.ZeroIsOrigin | Assets/Scripts/Domain/GridPosition.cs:5-14 | `zero` is the position (0, 0) |
| Pieces.Piece.constructor | Assets/Scripts/Domain/PieceModel.cs:25-34 | a new piece keeps its data, has its current and previous position both equal to the given one, has every flag clear and holds its cancellation source |
| Pieces.Piece.Dispose | Assets/Scripts/Domain/PieceModel.cs:37-41 | disposing releases the cancellation source and touches nothing else |
| Boards.Board.constructor | Assets/Scripts/Domain/GameBoard.cs:16-21 | the width is the column count, the height the row count, and every cell starts empty |
| Boards.Board.SetGem | Assets/Scripts/Domain/GameBoard.cs:68-71 | the cell holds the given piece afterwards and every other cell is unchanged |
| Boards.Board.Run | Assets/Scripts/Domain/MatchCounterService.cs:38-52 | every piece of a run has the scanned type, and a run is shorter than the distance to the edge |
| Boards.Board.RunMember | Assets/Scripts/Domain/GameBoard.cs:47-61 | the k-th piece of a run sits exactly k+1 steps from the start, so a run is contiguous |
| Boards.Board.RunStops | Assets/Scripts/Domain/MatchCounterService.cs:38-52 | the first cell past a run is off the board, empty, or holds another type |
| Boards.Board.RunLength | Assets/Scripts/GameBoard.cs:65-79 | a run is never longer than the board along its axis |
| Boards.Board.CountMatchingGemsInDirection | Assets/Scripts/Domain/GameBoard.cs:47-61 | the loop's count equals the length of the run in that direction |
| Boards.Board.GetMatchingGemsInDirection | Assets/Scripts/Domain/GameBoard.cs:172-183 | the pieces yielded, in order, are exactly the run in that direction |
| Boards.Board.MatchCountBound | Assets/Scripts/Domain/GameBoard.cs:23-45 | the match count of a cell is at most twice the width plus height |
| Boards.Board.GetMatchCountAt | Assets/Scripts/Domain/MatchCounterService.cs:14-36 | the result is the horizontal neighbour count if it is at least 2, plus the vertical one on the same condition; so it is 0 or at least 2, and 0 exactly when neither axis has two neighbours |
| Boards.Board.MatchesAt | Assets/Scripts/GameBoard.cs:43-63 | a cell matches exactly when either axis has two or more same-type neighbours, that is, exactly when its match count is non-zero |
| Boards.Board.AxisRun | Assets/Scripts/Domain/GameBoard.cs:143-170 | the candidate set of a cell holds that cell's piece and only pieces of its type |
| Boards.Board.AxisRunOnBoard | Assets/Scripts/Domain/MatchService.cs:106-133 | every piece of a candidate set is on the board |
| Clusters.FirstOverlap | Assets/Scripts/Domain/GameBoard.cs:121-141 | the index found is the first cluster that overlaps the new set, and no earlier one does |
| Clusters.MergeMembers | Assets/Scripts/Domain/GameBoard.cs:121-141 | after a merge, the pieces of all clusters are the old ones plus the new set |
| Clusters.MergeShape | Assets/Scripts/Domain/MatchService.cs:81-104 | the list grows by one entry, the new match, exactly when no cluster overlaps; otherwise only the first overlapping cluster changes, gaining the new set and keeping its anchor unless it had none |
| Clusters.MergeAbsorbs | Assets/Scripts/GameBoard.cs:129-149 | after a merge the new set lies inside one cluster and no cluster has lost a piece |
| Clusters.MergeKeepsShape | Assets/Scripts/Domain/GameBoard.cs:121-141 | merging a run of three or more of one type keeps every cluster at three or more pieces of one type |
| Clusters.MergeKeepsAnchor | Assets/Scripts/GameBoard.cs:95-149 | when every cluster and the new match carry the same anchor, so does every cluster afterwards |
| Clusters.MergeKeepsSwapAnchor | Assets/Scripts/Domain/MatchService.cs:59-104 | an anchor that is a swap cell under some member stays so through a merge |
| Clusters.MergeSameSets | Assets/Scripts/Domain/MatchService.cs:88-103 | the cluster sets after a merge depend only on the cluster sets before it and on the new set, never on the anchors |
| Scanning.GetUserActionPosForMatch | Assets/Scripts/Domain/MatchService.cs:59-79 | no anchor unless both swap cells are given; otherwise the anchor is a swap cell some member stands on, and it is absent only when no member stands on either |
| Scanning.MatchScanner.MarkGemAsMatched | Assets/Scripts/Domain/MatchService.cs:229-246 | the piece is flagged afterwards; an already-flagged piece changes nothing; a piece that does not chain changes only its own flag; a chaining piece also leaves its whole blast area flagged and exploding, and so do the blast areas of every chaining piece flagged along the way |
| Scanning.MatchScanner.MarkBlastArea | Assets/Scripts/Domain/GameBoard.cs:219-266 | every occupied cell of the square (plain bomb) or disc (colour bomb) ends up flagged and exploding; when no chain is set off, exactly that area is added to the explosions; the blast area of every chaining piece it flags is flagged and exploding too |
| Scanning.MatchScanner.MarkAllAsMatched | Assets/Scripts/Domain/MatchService.cs:81-87 | every piece of the new set is flagged; without a chain the explosions are unchanged; every piece it flags is in the set or an explosion, and the explosions grow only by the blast areas of the chaining pieces it flagged, each of which is flagged and exploding |
| Scanning.MatchScanner.AddMatch | Assets/Scripts/Domain/MatchService.cs:81-104 | the cluster list becomes the merge of the old list with the new match, the new set is inside one cluster, no cluster shrinks, and the clusters stay well formed; the cluster members grow by exactly the new set; every piece flagged is in the new set or an explosion, and the explosions grow only by the blast areas of the chaining pieces flagged, each of which is flagged and exploding |
| Scanning.MatchScanner.CheckMatchesInDirection | Assets/Scripts/Domain/GameBoard.cs:143-170 | no set when the line through the cell along the axis is shorter than three; otherwise a set holding the cell's piece, of three or more pieces of its type, all on the board |
| Scanning.MatchScanner.CheckForBombs | Assets/Scripts/Domain/GameBoard.cs:185-217 | every bomb in a cell next to a clustered piece has gone off, its blast area flagged and exploding, and the clusters stay well formed; the explosions grow only by those blasts and the blast areas of the chaining pieces flagged, those areas are flagged and exploding too, and every piece flagged explodes |
| Scanning.MatchScanner.ColumnMergesSameSets | Assets/Scripts/Domain/MatchService.cs:33-53 | scanning a column from two cluster lists with the same sets gives lists with the same sets, so the anchors picked earlier in the pass never change which pieces later cells merge into which cluster |
| Scanning.MatchScanner.FindAllMatches | Assets/Scripts/Domain/MatchService.cs:22-57 | afterwards the cluster sets are exactly, and in the same order, those the scan-order merges `BoardMerges` give: columns left to right, each column bottom to top, and at each cell the horizontal run merged before the vertical one, each run joining the first cluster it overlaps or else appended; every cluster holds three or more flagged pieces of one type, anchored as the variant prescribes; every clustered piece belongs to a run of three; every run of three lies inside one cluster; every explosion is flagged; every bomb next to a clustered piece has gone off; the explosions lie within those bombs' blasts and the blast areas of the chaining pieces the pass flagged, including pieces flagged as cluster members; each of those areas is flagged and exploding; and the pieces left unflagged are exactly those unflagged before that are neither clustered nor exploding |
| Collecting.CollectBombCreationPositions | Assets/Scripts/Service/PathfinderService.cs:13-35 | the dictionary built is `BombPositions`: anchor (or first member) position to gem type, for clusters of four or more |
| Collecting.BombPositionsKeys | Assets/Scripts/Services/MatchService.cs:14-36 | every cluster of four or more has its key in the dictionary |
| Collecting.BombPositionsFirstWins | Assets/Scripts/Service/PathfinderService.cs:13-35 | when two clusters share a key, the type recorded is that of the first one |
| Collecting.CollectMatchedGems | Assets/Scripts/Service/PathfinderService.cs:37-52 | the list built is every cluster's members in order, leaving out pieces that explode |
| Collecting.MatchedGemsCount | Assets/Scripts/Service/PathfinderService.cs:37-52 | a non-exploding piece appears once per cluster holding it; it appears at all exactly when it is clustered and does not explode |
| Collecting.CollectAndDestroyMatchedGems | Assets/Scripts/Services/MatchService.cs:38-52 | the score grows by the total value of the collected list, and a cell is emptied exactly when its piece was collected and still stands on it |
| Collecting.CollectNonBombExplosions | Assets/Scripts/Service/PathfinderService.cs:54-65 | the list is the explosions in enumeration order that are not new bombs and not bomb pieces |
| Collecting.CollectBombExplosions | Assets/Scripts/Service/PathfinderService.cs:67-78 | the list is the explosions in enumeration order that are bomb pieces and not new bombs |
| Collecting.WavesPartition | Assets/Scripts/Services/MatchService.cs:54-78 | the two waves are disjoint, each holds exactly its kind of explosion, and together they are all explosions except the new bombs |
| Bombs.FirstOfKindIsFirst | Assets/Scripts/Service/BombService.cs:31-39 | the prefab lookup finds a bomb exactly when one of that type exists, and then it is the first such entry |
| Bombs.BombService.GetBombPrefabForType | Assets/Scripts/Services/BombService.cs:33-41 | the prefab returned is the first bomb prefab of the type, or null |
| Bombs.BombService.CreateBombs | Assets/Scripts/Service/BombService.cs:18-29 | every recorded position holds a fresh bomb of its type; those bombs are added to the new-bomb set and removed from the explosions; every other cell is unchanged |
| Destroying.TotalScoreAppend | Assets/Scripts/Service/DestroyService.cs:26-35 | the value of a list with one more piece is the old value plus that piece's score (a null adds nothing) |
| Destroying.DestroyService.DestroyMatchedGems | Assets/Scripts/Service/DestroyService.cs:26-35 | the score grows by the total value of the list; a cell is emptied exactly when it held one of the listed pieces at its own position; every other cell is unchanged |
| Destroying.DestroyService.DestroyGem | Assets/Scripts/Service/DestroyService.cs:37-49 | only the piece's own cell is emptied, and only if it still holds that piece |
| Destroying.DestroyService.DestroyGems | Assets/Scripts/Services/DestroyService.cs:17-27 | the same as `DestroyMatchedGems`, for the older service |
| Destroying.DestroyService.DestroyMatchedGemsAt | Assets/Scripts/Services/DestroyService.cs:29-42 | the same as `DestroyGem`, for the older service |
| Spawning.CandidatesLeast | Assets/Scripts/Service/SpawnService.cs:24-61 | the candidate list is never empty, every candidate has the least match count, and every gem with the least count is a candidate |
| Spawning.SpawnService.ChoiceIsLeast | Assets/Scripts/Services/SpawnService.cs:16-52 | the chosen gem's match count at the cell is no greater than any other gem's |
| Spawning.SpawnService.LeastIsChosen | Assets/Scripts/Service/SpawnService.cs:24-61 | every gem with the least match count is chosen for some random roll |
| Spawning.SpawnService.SelectNonMatchingGem | Assets/Scripts/Service/SpawnService.cs:24-61 | the loop's choice is the least-matching candidate picked by the roll |
| Spawning.SpawnService.SpawnGem | Assets/Scripts/Service/SpawnService.cs:63-70 | the cell holds a fresh piece, built from the bomb exactly when the draw is below the bomb chance and from the given gem otherwise, placed at the cell with the same previous position, marked just spawned and neither matched nor swapping; every other cell is unchanged |
| Spawning.SpawnService.SpawnTopX | Assets/Scripts/Service/SpawnService.cs:72-82 | an occupied top cell is left alone; an empty one gets a fresh bomb or least-matching gem, standing at the top cell with the same previous position, marked just spawned and neither matched nor swapping; nothing else changes |
| Dropping.FirstFallIsFirst | Assets/Scripts/Service/DropService.cs:11-37 | the scan stops at a falling row, and no row scanned before it falls |
| Dropping.SettledIff | Assets/Scripts/Service/DropService.cs:11-37 | a column reports nothing exactly when no piece in rows 1 and up is busy or has an empty cell below |
| Dropping.BottomStays | Assets/Scripts/Service/DropService.cs:11-37 | the bottom piece never moves, and only the falling row and the one below it change |
| Dropping.TotalKept | Assets/Scripts/Services/BoardService.cs:11-40 | a drop step keeps the number of pieces on the board |
| Dropping.DropColumn | Assets/Scripts/Service/DropService.cs:11-37 | the column becomes its dropped form; the result is true exactly when the column was unsettled; only the falling piece's Y drops, by one |
| Dropping.DropService.DropSingleX | Assets/Scripts/Service/DropService.cs:11-37 | the same as `DropColumn`, as the service method |
| Dropping.BoardService.DropSingleRow | Assets/Scripts/Services/BoardService.cs:11-40 | every column takes one drop step; the result is true exactly when some column was unsettled; on a board where no piece stands twice, only the fallen pieces move, one row down |
| Swapping.GameStateProvider.constructor | Assets/Scripts/Service/GameStateProvider.cs:8 | the state starts as `Move` |
| Swapping.GameStateProvider.SetState | Assets/Scripts/Service/GameStateProvider.cs:12-15 | the current state becomes the new one |
| Swapping.BandsCover | Assets/Scripts/Service/SwapService.cs:45-86 | each direction is chosen exactly on its angle range, and no direction is chosen exactly at ±45 degrees |
| Swapping.BandMirror | Assets/Scripts/Service/SwapService.cs:45-86 | the angle bands are symmetric about the x axis: negating the angle swaps up and down and keeps left, right and the two unresolved angles |
| Swapping.SwapStaysOnBoard | Assets/Scripts/Service/SwapService.cs:49-84 | with the corrected guard, the chosen neighbour is always on the board; there is no direction exactly when the angle is ±45 degrees or the neighbour would be off the board |
| Swapping.SquareBoardsAgree | Assets/Scripts/Service/SwapService.cs:49-84 | on a square board the guard as written and the corrected one agree |
| Swapping.AsWrittenLeavesBoard | Assets/Scripts/Service/SwapService.cs:49-58 | on a 2-wide, 3-high board the guard as written lets a swap right from (1, 0) leave the board, where the corrected guard refuses it |
| Swapping.RevertUndoesExchange | Assets/Scripts/Service/SwapService.cs:88-115 | reverting an exchange of two positions gives back the original ones |
| Swapping.SwapService.GetOtherGem | Assets/Scripts/Service/SwapService.cs:45-86 | without a direction nothing changes; otherwise the partner is the neighbour in that direction, it is flagged as swapping, and the two positions are exchanged |
| Swapping.SwapService.CheckMove | Assets/Scripts/Service/SwapService.cs:88-115 | when neither piece matched, the state is `Move` and both pieces and their cells are put back; otherwise the state is `Wait` and nothing else changes |
| Swapping.SwapService.MovePieces | Assets/Scripts/Service/SwapService.cs:33-114 | the two cells are swapped and the partner is flagged as swapping; then, reading the match flags as a preceding `FindAllMatches` on the swapped board left them (line 93), an unmatched swap is undone (state `Move`, both back in place, the dragged piece flagged as swapping too) and a matched one stands (state `Wait`, the dragged piece's swap flag as it was); the match flags and every other cell are unchanged, and no other field is written |
| Scores.SumAppend | Assets/Scripts/Service/ScoreService.cs:11-14 | the sum of the points added grows by exactly the last amount |
| Scores.ScoreService.constructor | Assets/Scripts/Service/ScoreService.cs:7 | the score starts at zero |
| Scores.ScoreService.Score | Assets/Scripts/Service/ScoreService.cs:9 | the score read is the sum of every amount added |
| Scores.ScoreService.AddScore | Assets/Scripts/Services/ScoreService.cs:11-14 | the score grows by exactly the points, and it stays the sum of everything added |
| Pooling.CollectionPool.Get | Assets/Scripts/Domain/Pool/CollectionPool.cs:28-37 | the oldest released collection is handed out (cleared when the type can be cleared); with no released collection a new empty one is made |
| Pooling.CollectionPool.Release | Assets/Scripts/Domain/Pool/CollectionPool.cs:39-45 | null is ignored; otherwise the collection is cleared when it can be and queued at the back |
| Pooling.Bump | Assets/Scripts/Domain/Pool/PoolTracker.cs:12-21 | a counter bump adds the name if missing and raises only that name's count by one |
| Pooling.PoolTracker.constructor | Assets/Scripts/Domain/Pool/PoolTracker.cs:8-10 | all three dictionaries start empty |
| Pooling.PoolTracker.TrackGet | Assets/Scripts/Domain/Pool/PoolTracker.cs:12-21 | the active count and the get count of the name both rise by one |
| Pooling.PoolTracker.TrackRelease | Assets/Scripts/Domain/Pool/PoolTracker.cs:23-31 | the active count drops by one but never below zero; the release count rises by one |
| Pooling.PoolTracker.GetActiveCount | Assets/Scripts/Domain/Pool/PoolTracker.cs:33-36 | 0 for an unknown name; otherwise never negative, never above the gets, and at least the gets not yet released |
| Pooling.PoolTracker.GetStats | Assets/Scripts/Domain/Pool/PoolTracker.cs:38-44 | the three dictionaries are handed out as they are |
| Pooling.PoolTracker.Clear | Assets/Scripts/Domain/Pool/PoolTracker.cs:46-51 | all three dictionaries are emptied |
| Pooling.Pooled.Dispose | Assets/Scripts/Domain/Pool/PooledList.cs:25-36 | the first dispose of a wrapper that holds a collection tracks one release (the active count drops by one unless it is already zero, the release count rises by one) and queues the collection at the back of the pool, cleared when its type can be; any later dispose changes nothing |
| Pooling.GetPooled | Assets/Scripts/Domain/Pool/PooledHashSet.cs:17-23 | one get is tracked (releases unchanged), and the new wrapper holds the pool's oldest released collection, which leaves the queue, or, with an empty queue, a fresh empty one |
| ObjectPools.TotalRemove | Assets/Scripts/Pool/GenericObjectPool.cs:11-20 | the total of the queues does not depend on the order they are added up in |
| ObjectPools.SumIsTotal | Assets/Scripts/Presentation/Pool/GenericObjectPool.cs:13-22 | summing the queue lengths over any enumeration of the dictionary gives the total |
| ObjectPools.GenericObjectPool.AvailableCount | Assets/Scripts/Presentation/Pool/GenericObjectPool.cs:13-22 | the count is the total number of queued instances |
| ObjectPools.GenericObjectPool.Get | Assets/Scripts/Presentation/Pool/GenericObjectPool.cs:32-60 | the instance handed out was inactive and is now active; from a non-empty queue it is the head and the total drops by one; otherwise it is a new instance mapped to the prefab |
| ObjectPools.GenericObjectPool.Return | Assets/Scripts/Pool/GenericObjectPool.cs:59-79 | null or an inactive instance changes nothing; an active one becomes inactive and, when it is mapped, goes to the back of its prefab's queue and the total rises by one |
| ObjectPools.GenericObjectPool.Clear | Assets/Scripts/Presentation/Pool/GenericObjectPool.cs:84-104 | every queue, the instance map and the active set are emptied |

## Left out

- Enumeration order of `HashSet` and `Dictionary`: the model takes it as a parameter (`order`, `keys`), so results hold for every order, not for the runtime's actual one.
- Random numbers: `random.Next` and `Random.Range` become parameters (`roll`, `draw`). The newer lineage draws an integer in 0..99 and the older one a float; both are modelled as one number compared with the bomb chance.
- Views, tweens, Unity calls and `Destroy` of game objects: not part of this model. The gem pool's `SpawnGem` is represented by `Pieces.SpawnGem`, which makes a fresh piece.
- Asynchronous waits (`UniTask.Delay`, coroutines): they are no-ops here, and the busy flags they guard are a ghost set `busy`.
- `Swapping.SwapService.CheckMove`: it reads the match flags as they stand; the matching pass run before it is modelled separately by `FindAllMatches`. The game loop's `DestroyMatches` coroutine is not part of this model.
- `Swapping.SwapService.GetOtherGem`: it requires a piece in the neighbouring cell whenever a case applies, where the source would dereference null. It uses the corrected guard of the finding below.
- `Swapping.SwapService.MovePieces`: it requires an already resolved direction and a partner at the neighbouring position, which `GetOtherGem` provides.
- `Dropping.BoardService.DropSingleRow`: the positions of moved pieces are stated only for a board where no piece stands in two cells.
- `Spawning.SpawnService.SelectNonMatchingGem`: it requires `width + height` below half of `int.MaxValue`, so the match count never reaches the sentinel `int.MaxValue`.
- `Spawning.SpawnService.SelectNonMatchingGem`: it also requires a non-empty gem list. With none, the source's final `random.Next(0, 0)` indexes an empty list and throws (Assets/Scripts/Service/SpawnService.cs:59); the model does not carry that exception.
- `Spawning.SpawnService.SpawnTopX`: it requires a non-empty gem list only when the top cell is empty, since only then does it call `SelectNonMatchingGem`.
- `Scanning.MatchScanner.FindAllMatches`: under the swap anchor rule, a cluster's anchor is the first swap cell found among its members in the set's enumeration order, so only `AnchorFits` is promised for it; the cluster sets themselves are fixed exactly.
- Collection-pool traffic of the matching pass is not modelled. The cluster sets released at the start of `FindAllMatches` (Assets/Scripts/GameBoard.cs:101, Assets/Scripts/Domain/GameBoard.cs:93, Assets/Scripts/Domain/MatchService.cs:28), the set released when a new run merges into an existing cluster (Assets/Scripts/GameBoard.cs:143, Assets/Scripts/Domain/GameBoard.cs:135, Assets/Scripts/Domain/MatchService.cs:96), and the scratch set each direction check takes from the pool and returns when its run is too short (Assets/Scripts/Domain/MatchService.cs:113, :128) are left out: sets are plain values here. Old cluster sets are discarded rather than cleared and queued for reuse, so the model says nothing about the pool's queue or its counters during the pass.
- `Bombs.BombService.CreateBombs`: it requires a bomb prefab for every recorded type; the source would pass null on to the pool.
- `Scores.ScoreService.AddScore`: it does not model 32-bit wrap-around of the score.
- `Pooling.Pooled.Dispose`: the `Pooled*` structs are modelled as classes, so copies of a struct do not each carry their own `disposed` flag.
- `Pooling.GetPooled`: the `PoolTracker` calls, which the source compiles only in editor and development builds, are always made.
- Static pools and the static `PoolTracker` are modelled as instances passed around.
- The reflection lookup of a collection's `Clear` method is modelled as a `clears` flag on the pool.
- The colour-bomb disc test `Math.Sqrt(dx*dx + dy*dy) > radius` is modelled as the integer test `dx*dx + dy*dy <= radius*radius`, which agrees with it for a non-negative radius.
- The gem-type enum does not appear in the sources; it is modelled as `Colour(id) | Bomb`.
- `GetHashCode` is modelled with an arbitrary combining function, since `HashCode.Combine` is not visible.
- The interfaces (`IGameBoard`, `IPiece`, the service interfaces) are left out; the model uses the concrete classes.
- `AddMatch` flags the members of a new match, but only blast pieces enter `explosions`; members are removed through `CollectMatchedGems`.
- `Boards.Board.IsValidPosition` and `Boards.Board.GetGem` have no row: their bodies are the definitions the other contracts use.
- `Swapping.GameStateProvider.CurrentState` (Assets/Scripts/Service/GameStateProvider.cs:10), `ObjectPools.GenericObjectPool.ActiveCount` (Assets/Scripts/Presentation/Pool/GenericObjectPool.cs:24) and `Pooling.Pooled.Value` (Assets/Scripts/Domain/Pool/PooledList.cs:9 and 38) have no row: each is a property that returns one field as it stands, so it has no contract beyond its body.
- `PoolDebugger` and `WaitForSecondsPool`: diagnostics and coroutine helpers, not part of this model.

## Findings

| source | as written | input that shows it | evidently intended | confidence | as-written member | corrected member |
|---|---|---|---|---|---|---|
| Assets/Scripts/Service/SwapService.cs:49-58 | the swap guard compares the neighbour's X with the row count and Y with the column count | a board 2 columns wide and 3 rows high, swiping right (angle 0) from (1, 0): the guard lets X = 2 through and `GetGem(2, 0)` reads outside the board | compare X with the column count (the width) and Y with the row count | not executed | Swapping.AsWrittenLeavesBoard | Swapping.SwapStaysOnBoard |
