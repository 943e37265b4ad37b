# CardCavern rule core in Dafny

CardCavern is a turn-based card game played on a grid of cave islands.
This project models the integer rule code under the engine glue and proves
properties of that model. The core has five parts:

- **Room grids** (`CellularGrid`, `filled_grid.dfy`). A `FilledGrid` is a
  width x height array of 0 (open) and 1 (wall) cells. It is filled from a
  stream of random draws, then smoothed in place by the 8-neighbour
  wall-count rule. That rule counts out-of-grid neighbours as walls and
  applies the game's corner correction.
- **Islands** (`Tilemaps`, `Terrain`, `LegacyTerrain`). An island's grid is
  painted onto a land tile map and a collision tile map. Its entrances are
  then probed, and the island is respawned while a needed entrance is
  missing. Islands are removed and the island above is repainted.
  `TerrainGenerator` is the current builder and `TerrainManager` the
  earlier one.
- **Entities** (`Pathing`, `Entities`, `Players`, `Enemies`). Everything
  stands on one path-finding cost grid. A move frees the old cell and
  blocks the new one. The player does not always keep its own cell
  blocked: a push into lava moves it without touching the grid, and a walk
  whose target is not on the path ends with no cell blocked. The
  player's health is clamped and capped. Enemies step towards the player,
  mark a push or melee threat, and set their threats off on the next turn.
  A threat is kept as its offset from the enemy, so it moves with the enemy
  when the enemy steps or is pushed.
- **Playing a card** (`Cards`, `Targeting`, `MoveScan`, `Actions`). A card's
  actions form a queue worked through front first. Attacks, pushes and
  moves mark cells and wait for a click. Heals, damage, bombs and draws
  finish at once. When the queue is empty, the card loses a use and the
  enemies take their turn.
- **Cross-scene data** (`GameSession`). Score, high score, floor, health,
  the carried hand, and the event registry.

Each class of the game whose fields change in place is a Dafny `class`:
`FilledGrid` over an `array2<int>`, `TerrainGenerator`, `TerrainManager`,
`Entity`, `PlayerController`, `Enemy`, `Card`, `CardHand`, `PlayerData`
and `ActionHandler`. Each method is proved against a specification of the
old state: a function of it, or a relation such as `SpawnedFrom` between
the builder's state before and after. The lemmas beside those
specifications state what the game promises.

## Model

| member | source | states |
|---|---|---|
| Pathing.CostGrid.GetCellCost | Assets/Scripts/Entity.cs:33 | A cost is at least 1, and it is above 1 exactly when the cell is blocked |
| Pathing.CostGrid.BlockCell | Assets/Scripts/Entity.cs:41 | Blocking adds exactly that cell to the blocked cells |
| Pathing.CostGrid.UnblockCell | Assets/Scripts/Entity.cs:35 | Unblocking removes exactly that cell from the blocked cells |
| Entities.Entity.MoveToTile | Assets/Scripts/Entity.cs:30-44 | The entity stands on the new cell. The blocked cells are the old ones with the previous cell freed and the new cell blocked |
| Entities.MoveOccupancy | Assets/Scripts/Entity.cs:33-43 | After a move the destination is blocked and a different source is passable. No third cell changes. Moving onto the current cell leaves it blocked |
| Entities.MovesCompose | Assets/Scripts/Entity.cs:30-44 | Two moves through a free middle cell block the same cells as one move from the first cell to the last |
| CellularGrid.Filled | Assets/Scripts/FilledGrid.cs:52-57 | The filled grid is width x height and holds only 0 and 1. Cell (x, y) is 1 exactly when its draw (x-outer, y-inner order) is below fillPercent |
| CellularGrid.FillExtremes | Assets/Scripts/FilledGrid.cs:50-57 | With draws in 0..99, fillPercent <= 0 fills no cell and fillPercent >= 100 fills every cell |
| CellularGrid.WallCountTerms | Assets/Scripts/FilledGrid.cs:96-118 | The count of a cell is the sum of its eight neighbour terms, minus the corner correction. The cell itself is not counted, and an out-of-grid neighbour counts 1 |
| CellularGrid.WallCountRange | Assets/Scripts/FilledGrid.cs:96-118 | On a 0/1 grid the count of any in-grid cell lies in 0..8, correction included |
| CellularGrid.AllWallsCount | Assets/Scripts/FilledGrid.cs:100-118 | Every cell of an all-wall grid counts at least 7 walls |
| CellularGrid.UncorrectedTopCorner | Assets/Scripts/FilledGrid.cs:114-118 | On a non-square grid the corner (0, height-1) gets no correction, because y is compared with width-1 |
| CellularGrid.Rule | Assets/Scripts/FilledGrid.cs:75-80 | More than 4 walls gives a wall, fewer than 4 an opening, and exactly 4 keeps the cell |
| CellularGrid.SmoothCell | Assets/Scripts/FilledGrid.cs:73-81 | One update sets the cell by the rule on the current grid and leaves every other cell |
| CellularGrid.SmoothKeepsBinary | Assets/Scripts/FilledGrid.cs:67-84 | Any number of in-place passes keeps every cell 0 or 1 |
| CellularGrid.GeneratedIsBinary | Assets/Scripts/FilledGrid.cs:34-38 | A generated grid is width x height with only 0 and 1 cells |
| CellularGrid.AllWallsFixpoint | Assets/Scripts/FilledGrid.cs:71-81 | A smoothing pass leaves an all-wall grid unchanged |
| CellularGrid.FilledGrid.constructor | Assets/Scripts/FilledGrid.cs:133-136 | A fresh width x height array holding the filled grid smoothed smoothIterations times (not smoothed at all when that is 0 or less) |
| CellularGrid.FilledGrid.RandomFillGrid | Assets/Scripts/FilledGrid.cs:48-59 | The array holds the filled grid of the draws |
| CellularGrid.FilledGrid.GetSurroundingWallCount | Assets/Scripts/FilledGrid.cs:92-121 | The loop's count equals the wall count of the current array, correction included |
| CellularGrid.FilledGrid.SmoothGrid | Assets/Scripts/FilledGrid.cs:67-84 | The array holds the old grid smoothed by the in-place x-outer, y-inner passes, each update seeing the ones before it |
| CellularGrid.FilledGrid.SmoothColumn | Assets/Scripts/FilledGrid.cs:73-81 | One column's inner loop applies the rule to its rows in increasing order |
| Tilemaps.PaintBorder | Assets/Scripts/TerrainGenerator.cs:229-254 | The collision cells afterwards are the old ones plus every cell of the ring around the footprint that has no land tile |
| Tilemaps.PaintBody | Assets/Scripts/TerrainGenerator.cs:257-290 | The land and collision maps equal the painted island, cell by cell, for the whole x-outer, y-inner loop |
| Tilemaps.PaintCell | Assets/Scripts/TerrainGenerator.cs:262-288 | One grid cell painted. An open cell gets land and loses collision; an open bottom cell puts lands-end on an empty cell below. A wall with an open cell above gets lands-end. A wall gets collision |
| Tilemaps.PaintedOnEmptyGround | Assets/Scripts/TerrainGenerator.cs:257-290 | On empty ground, a footprint cell holds land exactly when it is open. It collides exactly when it holds no land. Cells off the footprint and its ring are untouched |
| Tilemaps.ClearFootprint | Assets/Scripts/TerrainGenerator.cs:303-310 | Every footprint cell loses its land tile. It gains a collision tile exactly when blocking is asked for. Nothing else changes |
| Tilemaps.ClearThenPaintFootprint | Assets/Scripts/TerrainGenerator.cs:303-330 | Repainting a cleared island from its stored grid restores its land and lands-end tiles, whatever was there before |
| Tilemaps.NeedsRespawnBySides | Assets/Scripts/TerrainGenerator.cs:98-192 | The fifteen cases agree with the type's name. An island is respawned exactly when the probe of some side its letters name has no land tile or holds a lands-end tile |
| Tilemaps.ProbeLocations | Assets/Scripts/TerrainGenerator.cs:101-119 | For even sizes the left and bottom probes lie inside the island. The top probe lies on the row above it and the right probe on the column to its right |
| Tilemaps.TopProbeUnpainted | Assets/Scripts/TerrainGenerator.cs:257-290 | For even sizes painting an island never changes its own top probe cell |
| Tilemaps.FootprintsDisjoint | Assets/Scripts/TerrainGenerator.cs:265 | Islands at different coordinates never share a footprint cell |
| Tilemaps.FirstAt | Assets/Scripts/TerrainGenerator.cs:313-320 | Either no record is at the coordinates, or the index of the first one at them |
| Tilemaps.RemoveFirstTakesOne | Assets/Scripts/TerrainGenerator.cs:313-320 | Removal takes out exactly one record at the coordinates when there is one, and otherwise changes nothing |
| Tilemaps.FindIsland | Assets/Scripts/TerrainGenerator.cs:313-320 | The foreach-with-break search finds the first record at the coordinates |
| Terrain.TerrainGenerator.CreateIsland | Assets/Scripts/TerrainGenerator.cs:220-293 | The new state is CreatedFrom the old one. The given grid, or a freshly generated one, is painted with the border first. The land and collision maps are the painted island's. Exactly one record (coords, grid, type, tile) is appended |
| Terrain.TerrainGenerator.RemoveIsland | Assets/Scripts/TerrainGenerator.cs:300-331 | The new state is RemovedFrom the old one. The footprint loses its land and gets collision. The first matching record is dropped. The first island recorded above is repainted from its stored grid and tile, and recorded a second time |
| Terrain.TerrainGenerator.DropFirst | Assets/Scripts/TerrainGenerator.cs:313-320 | The records lose the first one at the coordinates; the maps are untouched |
| Terrain.TerrainGenerator.SpawnIsland | Assets/Scripts/TerrainGenerator.cs:92-193 | The new state is SpawnedFrom the old one: the island painted from the first draws, then kept when its probes pass, or removed and spawned again. The island is accepted exactly when no probe its type needs fails. The last record is this island with its type and tile |
| Terrain.TerrainGenerator.RespawnIsland | Assets/Scripts/TerrainGenerator.cs:205-209 | Some state RemovedFrom the old one leads to the new state by SpawnedFrom. The acceptance and last record are as for SpawnIsland |
| Terrain.CreatedUnique | Assets/Scripts/TerrainGenerator.cs:220-293 | Painting an island from a given state and grid leaves exactly one state, down to every map cell |
| Terrain.FirstTryDecides | Assets/Scripts/TerrainGenerator.cs:92-193 | If the first painting passes every probe its type needs, the spawn ends exactly there with no respawn. A spawn that ends elsewhere began with a failed probe and spare draws, and went on from that painting's removal |
| LegacyTerrain.TerrainManager.CreateIsland | Assets/Scripts/TerrainManager.cs:176-213 | CreatedFrom: painted exactly as by the later builder, with land and collision maps, and a record of only (coords, grid) appended |
| LegacyTerrain.TerrainManager.RemoveIsland | Assets/Scripts/TerrainManager.cs:214-231 | RemovedFrom: the footprint's land tiles are cleared and collision is left as it was. Only the first matching record is dropped |
| LegacyTerrain.TerrainManager.DropFirst | Assets/Scripts/TerrainManager.cs:223-230 | The records lose the first one at the coordinates; the maps are untouched |
| LegacyTerrain.TerrainManager.SpawnIsland | Assets/Scripts/TerrainManager.cs:58-159 | SpawnedFrom: the first painting is kept when its probes pass; otherwise it is removed, the island above is repainted, and it is spawned again. Acceptance is as for the later builder. The last record is at the island's coordinates |
| LegacyTerrain.TerrainManager.RespawnIsland | Assets/Scripts/TerrainManager.cs:161-174 | The state passes through RemovedFrom, then RepaintedAbove with this island's tile (which records the island above a second time), then SpawnedFrom. Acceptance is as for SpawnIsland |
| LegacyTerrain.TerrainManager.RepaintAbove | Assets/Scripts/TerrainManager.cs:165-172 | RepaintedAbove: the first island recorded above is repainted, land and collision, from its stored grid with the given tile, and recorded a second time. Nothing changes when there is none |
| LegacyTerrain.CreatedUnique | Assets/Scripts/TerrainManager.cs:176-213 | Painting an island from a given state and grid leaves exactly one state |
| LegacyTerrain.FirstTryDecides | Assets/Scripts/TerrainManager.cs:58-174 | If the first painting passes its probes, the spawn ends exactly there. A spawn that ends elsewhere began with a failed probe, then went through removal and the repaint above |
| Cards.Card.CopyCard | Assets/Scripts/ScriptableObjects/Card.cs:81-88 | A fresh card with the same name and uses that shares the same action array |
| Cards.CardHand.AddCard | Assets/Scripts/CardHandler.cs:173-193 | A fresh slot holding the card is appended to the hand |
| Cards.CardHand.RemoveCard | Assets/Scripts/CardHandler.cs:198-208 | The slot leaves the hand and the others keep their order |
| Cards.CardHand.Cards | Assets/Scripts/PlayerData.cs:150-157 | The hand's cards in child order |
| Cards.Without | Assets/Scripts/CardHandler.cs:198-208 | The result holds every other slot, as often as before, and never the removed one |
| Cards.WithoutConcat | Assets/Scripts/CardHandler.cs:198-208 | Removal works piece by piece over a concatenation, so the kept slots keep their order |
| Cards.WithoutAppend | Assets/Scripts/ActionHandler.cs:445-452 | Adding the used copy and then removing the played slot equals removing it first and appending the copy |
| GameSession.Registered | Assets/Scripts/PlayerData.cs:120-133 | The listener is appended to an existing event, or starts a new event. Every other name is unchanged |
| GameSession.Invoked | Assets/Scripts/PlayerData.cs:197-204 | A trigger calls the event's listeners, and none for an unknown name |
| GameSession.RegisterThenTrigger | Assets/Scripts/PlayerData.cs:122-132 | After registering, a trigger calls the old listeners and then the new one |
| GameSession.PlayerData.constructor | Assets/Scripts/PlayerData.cs:45-60 | Score 0, floor 1, health at the maximum, no cards and an empty registry |
| GameSession.PlayerData.IncreaseScore | Assets/Scripts/PlayerData.cs:104-113 | The tally becomes Scored of the old one: score grows by the value and the high score is raised only when beaten, so it ends at least the score. The score event fires |
| GameSession.ScoredKeepsRecord | Assets/Scripts/PlayerData.cs:104-113 | Scoring adds the value, never lowers the high score, and leaves it at least the score |
| GameSession.PlayerData.StartListening | Assets/Scripts/PlayerData.cs:120-133 | The registry becomes Registered of the old one; nothing else changes |
| GameSession.PlayerData.StopListening | Assets/Scripts/PlayerData.cs:179-190 | With the never-set reference the registry never changes. Only if it were set would the listener be removed |
| GameSession.PlayerData.TriggerEvent | Assets/Scripts/PlayerData.cs:197-204 | Calls the event's listeners (none for an unknown name) and leaves every field |
| GameSession.PlayerData.NextFloor | Assets/Scripts/PlayerData.cs:139-166 | The tally becomes FloorLeft of the old one: a completed floor adds 25 to the score and 1 to the floor; otherwise neither changes. The hand is carried over when one is registered. The high score is untouched |
| GameSession.Unregistered | Assets/Scripts/PlayerData.cs:187-189 | The listener list loses every occurrence of the listener and keeps every other one as often as before |
| GameSession.UnregisteredConcat | Assets/Scripts/PlayerData.cs:187-189 | Unregistering works piece by piece over a concatenation, so the other listeners keep their order |
| GameSession.FloorBonusBypassesHighScore | Assets/Scripts/PlayerData.cs:104-146 | When the score trails the high score by less than 25, a completed floor leaves the score above the high score. Scoring the same 25 through IncreaseScore would have raised the high score to it |
| Players.ClampChange | Assets/Scripts/PlayerController.cs:309-316 | The change is clamped to [-5, 5], and a change inside that range is kept |
| Players.ChangedHealthMeaning | Assets/Scripts/PlayerController.cs:309-328 | Health after a change is the clamped change capped at the maximum. It never exceeds the maximum, moves by at most 5 from at or below it, and takes damage in full |
| Players.LethalBlowKills | Assets/Scripts/PlayerController.cs:303-328 | A blow of the maximum health kills, and a heal never kills a living player |
| Players.PlayerController.constructor | Assets/Scripts/PlayerController.cs:67-77 | The player starts with the carried-over health |
| Players.PlayerController.ChangeHealth | Assets/Scripts/PlayerController.cs:303-330 | The new health is the clamped and capped change, and it is stored as the carried-over health |
| Players.PlayerController.IsDead | Assets/Scripts/PlayerController.cs:364-374 | Dead exactly when health is below 1 |
| Players.PlayerController.PushedIntoLava | Assets/Scripts/PlayerController.cs:284-296 | The player stands on the lava cell and loses the maximum health, then loses it again through ChangeHealth |
| Players.PlayerController.WalkToTile | Assets/Scripts/PlayerController.cs:382-409 | The player's cell is freed, and the path is walked from its last entry down. With the target on the path, the walk ends there and blocks it. Otherwise it ends on path[0] and nothing is blocked |
| Enemies.AtMostOneThreat | Assets/Scripts/Enemy.cs:98-324 | The four side tests exclude one another. An enemy marks one threat exactly when it stands next to the player. While the enemy stays put, the threat lies on the player's cell |
| Enemies.PushOrMelee | Assets/Scripts/Enemy.cs:99-121 | Push exactly when the cell beyond the player is blocked and no enemy stands there; otherwise melee. Either mark lies one step from the enemy, in the push direction |
| Enemies.PushKills | Assets/Scripts/Enemy.cs:126-133 | A push going off while its enemy still stands where it marked the player kills a player at or below the maximum health and moves it one cell on, onto a blocked cell |
| Enemies.MovedMarkMisses | Assets/Scripts/Enemy.cs:117-131 | A mark lies on the cell it was made on exactly while its enemy has not moved. Once the enemy steps or is pushed, the mark misses a player who stayed put |
| Enemies.HalvesPartition | Assets/Scripts/Enemy.cs:332-348 | Every threat is either fired and removed, or left marked |
| Enemies.RemovedOnce | Assets/Scripts/Enemy.cs:361 | List.Remove takes out one occurrence of the enemy when it is there, and otherwise nothing |
| Enemies.Enemy.constructor | Assets/Scripts/Enemy.cs:64-68 | An enemy starts at its maximum health with nothing marked |
| Enemies.Enemy.HandleTurn | Assets/Scripts/Enemy.cs:84-325 | Moves to path[1] exactly when 2 < path length < 10, with the player's cell freed for the search. The player's cell ends blocked. The turn adds this enemy's adjacency threats as offsets from its new cell. Older marks keep their offsets, so they move with the enemy's step |
| Enemies.Enemy.StepTowards | Assets/Scripts/Enemy.cs:88-96 | The step, the blocked cells after it, and the re-blocking of the player's cell |
| Enemies.Enemy.Threaten | Assets/Scripts/Enemy.cs:99-154 | One side test appends push or melee exactly as SideThreat decides, scanning every enemy in the list |
| Enemies.Enemy.Activate | Assets/Scripts/Enemy.cs:126-151 | A threat has an effect only when the player stands on the cell under the mark, taken from where the enemy stands now. A push takes the maximum health and moves the player; melee takes 1. The player's session (score, floor, high score, cards, hand, registry) is unchanged |
| Enemies.Enemy.ResolveAttack | Assets/Scripts/Enemy.cs:330-349 | Only the threats at even indices go off, in order, at the cells under them with the enemy where it now stands, and are removed. Those at odd indices stay. Clearing sets none off. The player's session (score, floor, high score, cards, hand, registry) is unchanged |
| Enemies.Enemy.ChangeHealth | Assets/Scripts/Enemy.cs:355-371 | Adds the change. At 0 or below the enemy leaves the list and frees its cell. Health is then capped at the maximum |
| Enemies.Enemy.PushedToTile | Assets/Scripts/Enemy.cs:377-390 | The enemy always moves. A destination blocked beforehand takes the maximum health, which kills an enemy at or below it and frees the cell. Its marks keep their offsets, so they move with it |
| Enemies.Enemy.TakeAt | Assets/Scripts/Enemy.cs:334-347 | One loop round sets off entry i (unless clearing) at the cell under it with the enemy where it stands, and removes it. The enemy does not move. The player's session (score, floor, high score, cards, hand, registry) is unchanged |
| Targeting.MeleeTargetsExact | Assets/Scripts/ActionHandler.cs:145-152 | Melee marks exactly the four orthogonal neighbours, each once |
| Targeting.RangeTargetsExact | Assets/Scripts/ActionHandler.cs:164-179 | Range marks exactly the twelve cells 2, 3 and 4 away along the axes, each once |
| Targeting.PushStepsMeaning | Assets/Scripts/ActionHandler.cs:292-318 | A push stops on the step before the first enemy on its line, and never goes past the push distance. Every step it passes is free of enemies |
| Targeting.ClearLinePushesFully | Assets/Scripts/ActionHandler.cs:314-317 | With no enemy on the line, the push goes the full distance |
| MoveScan.AddNewMembers | Assets/Scripts/ActionHandler.cs:198-212 | Offering a path adds exactly its cells other than the player's. The offered cells stay distinct and never include the player's cell |
| MoveScan.MoveTargetsExact | Assets/Scripts/ActionHandler.cs:186-217 | Exactly the cells other than the player's that lie on the short-enough path of a passable cell within the amount on each axis are offered, each once |
| Actions.VitalsAfterBounded | Assets/Scripts/ActionHandler.cs:153-163 | Running actions never lifts health above the maximum. Actions without heal or damage leave the player as it was |
| Actions.Pending | Assets/Scripts/ActionHandler.cs:141-241 | The number of actions at the front that finish at once: none of them waits, and the next one does |
| Actions.MarksCells | Assets/Scripts/ActionHandler.cs:145-237 | A waiting action marks exactly the melee or push neighbours, the range cells, or the scanned move cells, each once |
| Actions.ReblockInvisible | Assets/Scripts/ActionHandler.cs:181-219 | Re-blocking the player's cell after the scan changes no later scan, mark or queue decision |
| Actions.WaitingFirst | Assets/Scripts/ActionHandler.cs:141-152 | An action that waits stops the queue at once |
| Actions.ChainStep | Assets/Scripts/ActionHandler.cs:411-428 | An action that finishes at once hands the run on: what follows from the rest of the queue follows from the whole of it |
| Actions.FirstIndex | Assets/Scripts/ActionHandler.cs:258-268 | The first enemy index at a cell, or the list length when none stands there |
| Actions.ActionHandler.CheckForActions | Assets/Scripts/ActionHandler.cs:118-135 | The queue runs front first up to the first action that waits. The instant actions take effect in order. A waiting action marks its cells, and an empty queue finishes the card. The player's session (score, floor, high score, cards, hand, registry) is unchanged |
| Actions.ActionHandler.DoAction | Assets/Scripts/ActionHandler.cs:141-241 | Each action type goes to its arm, with the same outcome as CheckForActions. The player's session (score, floor, high score, cards, hand, registry) is unchanged |
| Actions.ActionHandler.MarkTargets | Assets/Scripts/ActionHandler.cs:145-179 | Melee, range and push mark their cells and the queue waits |
| Actions.ActionHandler.SpawnIndicators | Assets/Scripts/ActionHandler.cs:145-237 | The marks of the action around the player's cell are appended |
| Actions.ActionHandler.SpawnPushRing | Assets/Scripts/ActionHandler.cs:230-237 | The four neighbours are marked for pushes away from the player, above, below, right, left |
| Actions.ActionHandler.SpawnAttackRing | Assets/Scripts/ActionHandler.cs:164-178 | The four cells at one distance are marked for attacks, above, below, right, left |
| Actions.ActionHandler.FinishAtOnce | Assets/Scripts/ActionHandler.cs:153-163 | Heal, bomb, damage and draw take effect and complete at once. The player's session (score, floor, high score, cards, hand, registry) is unchanged |
| Actions.ActionHandler.ApplyEffect | Assets/Scripts/ActionHandler.cs:153-163 | A heal raises and damage lowers health through ChangeHealth; other actions leave it. The player's session (score, floor, high score, cards, hand, registry) is unchanged |
| Actions.ActionHandler.MoveAction | Assets/Scripts/ActionHandler.cs:180-226 | A move marks the reachable cells and waits, or completes at once when there are none. The player's session (score, floor, high score, cards, hand, registry) is unchanged |
| Actions.ActionHandler.SpawnAttackIndicator | Assets/Scripts/ActionHandler.cs:249-254 | One attack mark is appended |
| Actions.ActionHandler.SpawnPushIndicator | Assets/Scripts/ActionHandler.cs:279-284 | One push mark is appended |
| Actions.ActionHandler.MarkWalkable | Assets/Scripts/ActionHandler.cs:181-219 | With the player's cell freed, the scanned cells are marked. The player's cell ends blocked |
| Actions.ActionHandler.ScanMove | Assets/Scripts/ActionHandler.cs:183-217 | The three nested loops mark exactly the move targets, in offering order |
| Actions.ActionHandler.CompleteAction | Assets/Scripts/ActionHandler.cs:411-429 | The marks go and the copy's queue loses exactly its first action. The played card's action array is untouched. The rest of the queue then runs. The player's session (score, floor, high score, cards, hand, registry) is unchanged |
| Actions.ActionHandler.AllActionsComplete | Assets/Scripts/ActionHandler.cs:434-459 | A fresh copy with one use fewer and the full action list. With no uses left the played slot leaves the hand; otherwise the copy replaces it at the end. The enemies' turn starts |
| Actions.ActionHandler.CardActivated | Assets/Scripts/ActionHandler.cs:106-112 | Playing a card runs its actions on a copy, up to the first that waits. The player's session (score, floor, high score, cards, hand, registry) is unchanged |
| Actions.ActionHandler.FirstEnemyAt | Assets/Scripts/ActionHandler.cs:258-268 | The foreach-with-break search finds the first enemy on the cell |
| Actions.ActionHandler.PushStop | Assets/Scripts/ActionHandler.cs:295-313 | The nested search gives the push's step count |
| Actions.ActionHandler.AttackClicked | Assets/Scripts/ActionHandler.cs:255-270 | After the hit the action completes. The queue goes on from a board where a killed enemy's cell is free. The player's session (score, floor, high score, cards, hand, registry) is unchanged |
| Actions.ActionHandler.HitEnemyAt | Assets/Scripts/ActionHandler.cs:258-268 | Only the first enemy on the cell takes the damage. It leaves the list and frees its cell when killed. Every other enemy is untouched |
| Actions.ActionHandler.PushClicked | Assets/Scripts/ActionHandler.cs:285-405 | After the push the action completes. The queue goes on from the board after the push. The player's session (score, floor, high score, cards, hand, registry) is unchanged |
| Actions.ActionHandler.PushEnemyAt | Assets/Scripts/ActionHandler.cs:288-402 | Only the first enemy on the cell moves, away from the player, to the push destination. Its health is unchanged unless the destination was a blocked cell (lava, or the enemy's own cell when the push is stopped at once); there it loses the maximum health and dies at or below it. Its threats keep their offsets, so they move with it. Other enemies are untouched |
| Actions.ActionHandler.PushAlong | Assets/Scripts/ActionHandler.cs:295-317 | The enemy ends on the push destination. Its health, the grid and the list are as PushedToTile leaves them. Its threats keep their offsets, so they move with it |
| Actions.ActionHandler.WalkClicked | Assets/Scripts/ActionHandler.cs:206-210 | The player moves onto the cell and the action completes. The player's session (score, floor, high score, cards, hand, registry) is unchanged |

## Left out

- Rendering, animation, audio, screen shake, health UI (`UpdateHealth`), `FlipCharacter` and the card outline image are not modelled. They are floats and engine calls.
- `GridToWorld`/`WorldToGrid` are not defined in the files modelled. A threat's mark is kept as a whole-cell offset from its enemy, as if the two conversions were inverse.
- The path-finding library is an uninterpreted `router` over the blocked cells. A blocked cell's infinite cost is the constant `BlockedCost`, since callers only ask whether a cost exceeds 1.
- Randomness (`System.Random`, `Random.value`, the seed's hash) becomes sequences of draws in 0..99 passed in.
- Coroutines and `WaitForSeconds` are straight-line calls, so events cannot interleave.
- Terrain.TerrainGenerator.SpawnIsland: the unbounded respawn recursion is bounded by `attempts`, one grid's draws per creation. When they run out, the last island stays and the result says whether it was accepted.
- LegacyTerrain.TerrainManager.SpawnIsland: bounded by `attempts` in the same way.
- Tiles are reduced to a map from cells to land or lands-end of a terrain set, plus a set of collision cells. The "End" name test becomes the lands-end kind.
- The `Start` methods of `TerrainGenerator` and `TerrainManager` are not modelled. They are fixed test spawns.
- `TerrainManager` reads `filledGrid.grid` where `FilledGrid` declares `Grid`. The model reads the one array.
- Actions.ActionHandler.CompleteAction: the game destroys the marks but keeps the destroyed objects in its list. The model drops them, because destroyed marks can no longer be clicked.
- Actions.ActionHandler.CompleteAction: the action's child object under the card is destroyed (`cardGameObject` children) in the game; this is not modelled.
- Actions.ActionHandler.CheckForActions: the pointing-finger object is not modelled.
- Actions.ActionHandler.AllActionsComplete: `EnemyHandler.CommenceEnemyTurn` is not modelled; it is counted in `enemyTurns`. `EnemyHandler.cs` is not part of this model.
- Actions.ActionHandler.AttackClicked: states only the queue and board outcome. The enemy's own changes are stated on `HitEnemyAt`.
- Actions.ActionHandler.PushClicked: states only the queue and board outcome. The enemy's own changes are stated on `PushEnemyAt`.
- Actions.ActionHandler.PushAlong: the four direction blocks of the listener are one call with the direction as a parameter. The search returns the step count, and then `PushedToTile` is called once.
- Marks and enemy threats are values. Their listeners are the click methods (`AttackClicked`, `PushClicked`, `WalkClicked`) and `Enemy.Activate`.
- Players.PlayerController.ChangeHealth: the death branch is not modelled. That branch clears every enemy's threats, plays a sound and starts the game-over screen.
- Players.PlayerController.PushedIntoLava: clearing every enemy's threats before the damage is not modelled.
- Enemies.Enemy.ResolveAttack: assumes a threat's effect does not kill the player. A death would clear this enemy's list while the loop runs.
- Players.PlayerController.WalkToTile: the completion callback is not modelled; the method returns the cells stood on.
- `PlayerData`'s singleton set-up (`Awake`/`Init`), `PlayerPrefs` storage, scene loads, `LevelCompleteController` and the `CardMover` flags are not modelled. The stored high score is the field `highScore`.
- Listeners are identities. What an invoked listener does is not modelled.
- C#'s 32-bit `int` wrap-around is not modelled; score, floor and health are unbounded integers.
- `CardHandler` layout (`UpdateRotationAndPosition`), `CardMover`, `CardCreator` and the other interface scripts are not part of this model, beyond the hand's order of slots.
- Entities share one grid through composition. `PlayerController` and `Enemy` hold an `Entity` rather than deriving from it.
