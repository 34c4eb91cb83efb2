# Turn-Based Demo: a verified model of the combat core

This project models the simulation core of a Unity turn-based tactical grid game. It covers:

- the battle grid, a `length` x `width` array of nodes joined by shared edges, with one occupant per cell and cover props marking edges;
- the A* pathfinder and the cost-bounded flood fill that lights the tiles a unit can reach;
- the per-turn momentum pool that every action spends;
- combat resolution: the to-hit roll, damage, death, and combat-log lines;
- the diamond of cells a unit can attack;
- the command layer with its single pending Move or Attack command;
- the player's input-mode and selection state machine;
- the turn scheduler: initiative order, rounds, death pruning and the battle-end check;
- the enemy AI: its decision table, its tile scoring and argmax, and its move/attack state machine;
- the capped combat-log buffer and its message templates.

The model takes the program's own shape. Each MonoBehaviour whose fields change becomes a Dafny
`class` with those fields: GridMap, Pathfinder, MoveUnit, CharacterTurn, Character, UnitRegistry,
CharacterAttack, UnitMovement, CommandManager, CommandInput, SelectCharacter, CommandMenu,
TurnManager, CombatLog, AIManager, GridRenderer and ClearUtility. Their loops stay loops, with the
invariants that prove them. Each method is tied to a pure specification function of its inputs or
of the old state, and lemmas prove what the game promises about those functions.

One file per source file:

| File | Contents |
|---|---|
| `option.dfy` | `Option` (C# `null`) |
| `node.dfy` | cells, edges and cover kinds |
| `grid_map.dfy` | grid construction and edge linking, bounds, placement and cover |
| `pathfinding.dfy` | A* search, neighbours, heuristic and retrace |
| `move_unit.dfy` | flood fill and path lookup |
| `grid_renderer.dfy`, `select_character.dfy` (CommandMenu) | the highlight and menu state the core drives |
| `character_turn.dfy` | the momentum ledger |
| `character.dfy` | unit stats, damage, death and the registry |
| `attack_component.dfy` and `character_attack.dfy` | attacks |
| `unit_movement.dfy` | occupancy transfer and waypoints |
| `command_manager.dfy` and `command_input.dfy` | commands and input |
| `turn_manager.dfy` | the scheduler |
| `ai_manager.dfy` | the AI |
| `combat_log.dfy` | the log |

All files form one default module, so that the classes can refer to each other cyclically as their C# counterparts do.

The scheduler's state is captured as a value, `Schedule`, taken with `TurnManager.Snap()`. Each
scheduler method is proved to move `Snap()` by one pure transition function: `Enlist`,
`StartRound`, `Process`, `Advance`, `WindUp`, `Bury` or `BattleEnd`. The combat log keeps a ghost
`history` of every line since the last clear, and `Valid()` states that the visible entries are
that history trimmed to `maxLogEntries`.

The model follows the code where it behaves in surprising ways, and contracts and lemmas state
the behaviour as written:

- **Vertical cover lands on the wrong edge.** Slot 0 of a cell holds the edge to `(x, y-1)`,
  but `DirectionToIndex((0, 1))` is 0. A prop between two vertical neighbours therefore marks the
  edge on the far side of cell A, never the edge between A and B. `CoverUpwardPropMarksEdgeBelow`
  and `CoverDownwardPropMarksEdgeAbove` prove this.
- **Rejected commands stay pending.** A move or attack refused for lack of momentum (or for an
  invalid path) returns early ("Abort if either fails") and is not cleared, so it stays queued.
- **The turn advance can skip a unit.** A death before the advance prunes the list, and then the
  index is incremented, so the unit that moved into the dead unit's slot is skipped.
  `TurnAdvanceSkipsAfterDeath` proves the skip.
- **Battle end does not stop play.** `CheckForBattleEnd` sets `CombatEnd`, but play goes on:
  the advance continues and a later check logs the battle end again.
- **The AI stalls.** It stops when a move or an attack fails, since nothing schedules `UpdateAI`
  again. It also stops on `Idle`, which only sets `EndTurn`.
- **AI numbers as written.**
  - The score jitter lies in [-5, 4].
  - `optimalRange` is half the attack range rounded down (`HalfRange`).
  - The heuristic weighs 10 per diagonal and 14 per straight step, as the formula writes it.
- **Open-set ties can drop records.** The open set's tie key is a parameter
  `hash: Pos -> int`. An insertion whose key is already present is dropped, as a `SortedSet`
  drops it. The flood fill and the A* search are proved complete only for a tie-break that
  tells cells apart (see "Findings").
- **Stale attack markers.** `fieldHighlight` lights marker i on tile i and leaves later
  markers as they were, and the attack layer is not hidden before an attack area is shown.
  A refused attack returns the input to `Default` without a full clear. If a unit with a
  smaller area is then selected for an attack, the earlier area's extra markers stay lit.
  `StaleMarkerStaysLit` states the step this rests on.
- **The combat log panel starts hidden.** `isExpanded` starts true, yet the panel starts
  hidden.
- **Roll ranges.** `RollToHit` gives 5..24. Damage lies in `[1 + DMGMod, DMG - 1 + DMGMod]`
  because the upper bound of the damage roll is exclusive.

Every draw from `UnityEngine.Random` becomes a parameter with its stated range: the d20s, the
damage roll, the initiative rolls and the score jitters. The pathfinder's hash-code tie-break
is a parameter as well. The cursor cell, the raycast heights and the passability of each cell
are inputs. Each animation wait becomes a begin/resume pair of methods:
`TurnManager.EndCurrentUnitTurn` / `FinishTurnEnd`, `AIManager.PerformAttack` / `MoveToPosition`
with `AnimationStopped`, and `UnitMovement.Move` with `WaypointReached`.

## Model

| member | source | states |
|---|---|---|
| GridMap.constructor | Assets/Script/Grid/GridMap.cs:22-69 | the grid has the given dimensions with every cell linked to its neighbours by shared edges that carry no cover; every cell is empty, passable exactly when no obstacle is found, and at the raycast height (0 where the ray hits nothing) |
| GridMap.LinkNodes | Assets/Script/Grid/GridMap.cs:24-65 | the nested scan leaves every cell linked to its north/south and west/east neighbours and the cells otherwise as created |
| GridMap.LinkCell | Assets/Script/Grid/GridMap.cs:30-63 | one step of the scan extends the scanned-so-far invariant by one cell |
| GridMap.Link | Assets/Script/Grid/GridMap.cs:36-62 | one fresh edge is appended to the edge table and stored in one slot of each of the two cells; every other cell is unchanged |
| GridMap.StepScanned | Assets/Script/Grid/GridMap.cs:30-63 | lemma: the state one scan step produces, described cell by cell, satisfies the invariant at the next cell |
| GridMap.SlotsAfterStep | Assets/Script/Grid/GridMap.cs:33-63 | lemma: how one scan step changes the recorded slots of the cell, of its y-1 neighbour, of its x-1 neighbour, and of no other cell |
| GridMap.NextRow | Assets/Script/Grid/GridMap.cs:26-28 | lemma: the invariant at the end of a row is the invariant at the start of the next row |
| GridMap.AllScanned | Assets/Script/Grid/GridMap.cs:26-65 | lemma: once every row is scanned, every cell is linked (the class invariant) |
| GridMap.CalculateElevation | Assets/Script/Grid/GridMap.cs:71-86 | each cell takes the raycast height when the ray hits and keeps its elevation otherwise; nothing else changes |
| GridMap.CheckPassableGrid | Assets/Script/Grid/GridMap.cs:103-115 | each cell is passable exactly when there is no obstacle in it; nothing else changes |
| GridMap.CheckBoundryOverloads | Assets/Script/Grid/GridMap.cs:244-257 | lemma: the two CheckBoundry overloads (lines 88-101 and 244-257) agree, and both mean 0 <= x < length and 0 <= y < width |
| GridMap.GetPlacedObject | Assets/Script/Grid/GridMap.cs:233-242 | a cell outside the grid has no occupant |
| GridMap.PlaceObject | Assets/Script/Grid/GridMap.cs:220-231 | the cell's occupant becomes `o`, replacing any earlier one, when the cell is on the grid; a cell off the grid is ignored; no other cell changes |
| GridMap.RemoveObject | Assets/Script/Grid/GridMap.cs:207-218 | the cell is cleared only when `o` is its occupant; otherwise the grid is unchanged |
| GridMap.ConvertPathToWorldPosition | Assets/Script/Grid/GridMap.cs:265-278 | a null path gives no points; otherwise one point per tile, in order, at that tile's elevation |
| GridMap.WalkableUnlessObstacle | Assets/Script/Grid/GridMap.cs:259-263 | lemma: once every cell's passability is the obstacle scan's verdict, CheckWalkable holds exactly on the in-bounds cells without an obstacle |
| GridMap.WorldPositionsDistinct | Assets/Script/Grid/GridMap.cs:201-205 | lemma: with a non-zero cell size, different cells have different world positions, at ground level or at their elevation |
| DirectionToIndex | Assets/Script/Grid/GridMap.cs:153-161 | -1 exactly for an offset other than the four unit offsets; otherwise the index 0..3 of the offset in the order up, right, down, left |
| GridMap.CoverStep | Assets/Script/Grid/GridMap.cs:121-140 | one prop: null (the source throws) exactly when both cells are on the grid but not adjacent; otherwise only the edge in A's slot facing B changes, taking the prop's cover type and blocking line of sight |
| GridMap.CoverAll | Assets/Script/Grid/GridMap.cs:121-148 | the props applied in order keep the edge table's size |
| GridMap.PopulateCover | Assets/Script/Grid/GridMap.cs:117-150 | the loop over the props yields exactly CoverAll of the props: the edge table and whether every prop was processed; the grid stays linked |
| GridMap.CoverHorizontalPropMarksSharedEdge | Assets/Script/Grid/GridMap.cs:132-140 | lemma: a prop between horizontal neighbours marks the one edge that the two cells share and that joins them |
| GridMap.CoverUpwardPropMarksEdgeBelow | Assets/Script/Grid/GridMap.cs:132-140 | lemma: a prop whose B is one cell above A never marks the edge between them: slot 0 holds the edge to the cell at y-1, and on row 0 it is empty, so the prop does nothing |
| GridMap.CoverDownwardPropMarksEdgeAbove | Assets/Script/Grid/GridMap.cs:132-140 | lemma: the mirror case, where B is one cell below A: slot 2 holds the edge to the cell at y+1, and on the top row it is empty |
| GridMap.CoverSkipsEmptySlot | Assets/Script/Grid/GridMap.cs:136-137 | lemma: a prop whose slot in A facing B is empty leaves the edge table unchanged |
| Heuristic | Assets/Script/Utility/Pathfinding.cs:156-162 | the estimate is never negative, and it is 0 exactly when the two cells coincide |
| HeuristicSymmetric | Assets/Script/Utility/Pathfinding.cs:156-162 | lemma: the estimate from a to b equals the estimate from b to a |
| SortedAdd | Assets/Script/Utility/Pathfinding.cs:111 | the key is present afterwards; a key already present leaves the set as it was (SortedSet keeps one element per comparer key); a new key maps to the added cell |
| Reversed | Assets/Script/Utility/Pathfinding.cs:175 | the result has the same length, and element i is element \|s\|-1-i of the input |
| Pathfinder.constructor | Assets/Script/Utility/Pathfinding.cs:90-93 | the pathfinder searches the grid it was given |
| Pathfinder.CardinalNeighbors | Assets/Script/Utility/Pathfinding.cs:198-206 | a cell is produced exactly when it is one of the remaining cardinal offsets away and is in bounds, walkable and accepted by the extra check |
| Pathfinder.DiagonalNeighbors | Assets/Script/Utility/Pathfinding.cs:211-232 | a cell is produced exactly when it is one of the remaining diagonal offsets away, open, and, with corner cutting prevented, both flanking cells are open |
| Pathfinder.GetNeighbors | Assets/Script/Utility/Pathfinding.cs:196-233 | every neighbour produced is in bounds, walkable and accepted by the extra check |
| Pathfinder.NeighborsCharacterized | Assets/Script/Utility/Pathfinding.cs:196-233 | lemma: a cell is a neighbour exactly when it is an open cardinal step, or, with diagonals allowed, an open diagonal step that does not cut a corner when that is prevented |
| Pathfinder.NullSettingsNeighborsAdjacent | Assets/Script/Utility/Pathfinding.cs:208-209 | lemma: with no settings (the diagonal option is then not true) every neighbour is at Manhattan distance 1 |
| Pathfinder.NoCornerCutting | Assets/Script/Utility/Pathfinding.cs:218-229 | lemma: with corner cutting prevented, a diagonal neighbour has both flanking cells open |
| Pathfinder.PickMin | Assets/Script/Utility/Pathfinding.cs:116 | the key picked is in the open set and no key in the open set orders before it |
| Pathfinder.ExpandNeighbors | Assets/Script/Utility/Pathfinding.cs:123-150 | relaxing the neighbours of the closed cell keeps every record linked to a closed parent one step back and the open set sound; records are only added, new records are for cells on the grid, and closed records are never changed |
| Pathfinder.Relax | Assets/Script/Utility/Pathfinding.cs:125-149 | one neighbour: out of bounds, unwalkable or closed is skipped; one without a record gets cost+1 through the current cell; a dearer record is re-keyed at cost+1 (the keyed Remove, then Add); a record no dearer than cost+1 leaves records and open set as they were; records stay linked, the open set sound, and closed records unchanged; under a hash that tells cells apart no unclosed record loses its open entry |
| Pathfinder.CompleteAfterSet | Assets/Script/Utility/Pathfinding.cs:140-148 | lemma: under a hash that tells cells apart, the new key of a cell without an open entry collides with no other cell's entry, so Add keeps it and every unclosed record has its key in the open set |
| Pathfinder.CompleteAfterRemove | Assets/Script/Utility/Pathfinding.cs:145 | lemma: under a hash that tells cells apart, removing one cell's key keeps every other unclosed record's key |
| Pathfinder.LinkedAfterSet | Assets/Script/Utility/Pathfinding.cs:128-148 | lemma: giving an unclosed neighbour the record cost+1 with the current cell as parent keeps every record linked |
| Pathfinder.OpenAfterSet | Assets/Script/Utility/Pathfinding.cs:140-148 | lemma: changing the record of a cell that has no open entry, then adding its new key, keeps the open set sound |
| Pathfinder.OpenAfterRemove | Assets/Script/Utility/Pathfinding.cs:145 | lemma: removing an entry keeps the open set sound |
| Pathfinder.OpenAfterClose | Assets/Script/Utility/Pathfinding.cs:116-118 | lemma: removing the least entry and closing its cell keeps the open set sound |
| Pathfinder.LinkedAfterClose | Assets/Script/Utility/Pathfinding.cs:118 | lemma: closing a cell that has a record keeps every record linked |
| Pathfinder.RetracePath | Assets/Script/Utility/Pathfinding.cs:164-177 | the path has cost+1 cells, runs from the start to the end record, the i-th cell has cost i, each cell is a neighbour of the one before, and no cell repeats |
| Pathfinder.RetracedChain | Assets/Script/Utility/Pathfinding.cs:164-177 | lemma: a chain of parent links from the end record to the parentless record, reversed, is such a path |
| Pathfinder.RetracedSteps | Assets/Script/Utility/Pathfinding.cs:164-177 | lemma: every parent link in the chain joins two neighbours, so the reversed chain moves through neighbours only |
| Pathfinder.FindPath | Assets/Script/Utility/Pathfinding.cs:96-154 | a found path is non-empty, starts at start, ends at goal, moves between neighbours and visits no cell twice; a search from a cell to itself gives exactly that cell; a path is found only when some walk through neighbours leads from start to goal, and when no two cells share a hash it is found whenever one does, so null means the goal is unreachable |
| Pathfinder.SearchRound | Assets/Script/Utility/Pathfinding.cs:116-150 | a round that does not reach the goal removes the least entry, closes its cell and relaxes its neighbours; records stay linked, the open set sound and the search covered, and one more cell is closed |
| Pathfinder.CoveredAfterStep | Assets/Script/Utility/Pathfinding.cs:114-150 | lemma: a round that closes a cell other than the goal and records all its neighbours keeps the search covered: the goal is not closed, every closed cell's neighbours have records, and under a hash that tells cells apart no unclosed record has lost its open entry |
| Pathfinder.CompleteAfterClose | Assets/Script/Utility/Pathfinding.cs:116-118 | lemma: under a hash that tells cells apart, removing the least entry and closing its cell leaves every other unclosed record's key in the open set |
| Pathfinder.WalkStaysClosed | Assets/Script/Utility/Pathfinding.cs:114-153 | lemma: when every record is closed and every closed cell's neighbours have records, a walk through neighbours from a closed cell stays in the closed set |
| Pathfinder.Exhausted | Assets/Script/Utility/Pathfinding.cs:114-153 | lemma: when the open set runs dry on a covered search that closed the start, under a hash that tells cells apart, no walk through neighbours leads from the start to the goal |
| Highlighted | Assets/Script/Grid/GridRenderer.cs:26-32 | marker i is active on tile i for every tile; the pool grows to the number of tiles when it is smaller; markers past the tiles are untouched |
| Hidden | Assets/Script/Grid/GridRenderer.cs:42-48 | the pool keeps its size and every marker is inactive where it was |
| StaleMarkerStaysLit | Assets/Script/Grid/GridRenderer.cs:26-32 | lemma: highlighting a shorter list of tiles without hiding first leaves every lit marker past those tiles lit |
| HideThenHighlightLightsExactly | Assets/Script/Grid/GridRenderer.cs:26-48 | lemma: hiding and then highlighting a list of tiles lights exactly the tiles of that list |
| HighlightStep | Assets/Script/Grid/GridRenderer.cs:28-31 | lemma: highlighting one more tile extends the previous highlighting by marker i on that tile (GetPointGO reuses marker i or creates it) |
| GridRenderer.constructor | Assets/Script/Grid/GridRenderer.cs:12-16 | the pool starts empty |
| GridRenderer.FieldHighlight | Assets/Script/Grid/GridRenderer.cs:26-32 | the pool becomes Highlighted of the old pool and the tiles |
| GridRenderer.Hide | Assets/Script/Grid/GridRenderer.cs:42-48 | the pool becomes Hidden of the old pool, so no tile is lit |
| ClearUtility.constructor | Assets/Script/Utility/ClearUtility.cs:6-10 | the utility clears the two renderers it was given |
| ClearUtility.ClearGridHighlightAttack | Assets/Script/Utility/ClearUtility.cs:14-17 | the attack highlight is hidden and lights no tile |
| ClearUtility.ClearGridHighlightMove | Assets/Script/Utility/ClearUtility.cs:20-23 | the movement highlight is hidden and lights no tile |
| ClearUtility.FullClear | Assets/Script/Utility/ClearUtility.cs:26-30 | neither highlight lights a tile; each pool is hidden (when the two renderers are the same one, it is hidden twice, with the same result) |
| CardinalNeighborsAreAdjacent | Assets/Script/UnitManager/MoveUnit.cs:111-121 | lemma: the flood fill's neighbours of a cell are exactly the cells at Manhattan distance 1 |
| MoveWalkCost | Assets/Script/UnitManager/MoveUnit.cs:22-27 | lemma: under CheckWalkableTerrain's settings (no cost override) every step costs 1, so a walk costs its number of steps |
| WalkCostPrefix | Assets/Script/UnitManager/MoveUnit.cs:88-89 | lemma: with no negative step costs, a walk costs at least as much as each of its prefixes |
| Vector2IntHashCollides | Assets/Script/Utility/Pathfinding.cs:37-43 | lemma: the engine's Vector2Int hash gives (4, 2) and (12, 0) the same code 12; both are 5 steps from (8, 1), so at cost 5 their records share a key and SortedSet.Add keeps only the first; the hash is not injective |
| CellTieInjective | Assets/Script/Utility/Pathfinding.cs:37-43 | lemma: the Cantor pairing of the zigzag-coded coordinates gives every cell its own tie-break code |
| MoveUnit.constructor | Assets/Script/UnitManager/MoveUnit.cs:12-15 | the unit mover owns a fresh pathfinder over its own grid |
| MoveUnit.ExpandFlood | Assets/Script/UnitManager/MoveUnit.cs:76-104 | offering the four neighbours keeps every open record sound (one step from a visited cell, at its cost plus the step cost, within the bound, enterable); a recorded cost only goes down, and costs no higher than the visited cell's stay as they are; every neighbour the cell can pay for within the bound ends with a recorded cost no higher than that price; open records are kept, new ones cost at least the visited cell's cost, and every open record costs at least its cell's recorded cost; when no two cells share a hash every lowered cost has its open record |
| MoveUnit.OfferNeighbor | Assets/Script/UnitManager/MoveUnit.cs:78-103 | one neighbour's offer: only that neighbour's recorded cost can change, only downwards, and to no more than the visited cell's cost plus the step cost when the neighbour may be entered within the bound; when another cell's record already holds the key for the new cost the open set is left as it was (SortedSet.Add drops the record), and when no two cells share a hash the new record is always added |
| MoveUnit.FloodEntryAfterAdd | Assets/Script/UnitManager/MoveUnit.cs:93-103 | lemma: adding a record for an enterable neighbour of the last visited cell, within the bound, keeps every open record sound |
| MoveUnit.FloodStep | Assets/Script/UnitManager/MoveUnit.cs:66-105 | one round keeps the loop invariant, and either records a new (cell, cost) pair or shrinks the open set, which bounds the rounds |
| MoveUnit.FloodInvNewOpen | Assets/Script/UnitManager/MoveUnit.cs:76-104 | lemma: the invariant holds again for any open set whose records are sound |
| MoveUnit.PopVisited | Assets/Script/UnitManager/MoveUnit.cs:67-71 | lemma: popping a record of an already visited cell only shrinks the open set and keeps the invariant |
| MoveUnit.PopUnvisited | Assets/Script/UnitManager/MoveUnit.cs:67-74 | lemma: popping the least record of an unvisited cell appends that cell at the record's cost and keeps the invariant |
| MoveUnit.FloodEntryAfterPop | Assets/Script/UnitManager/MoveUnit.cs:68 | lemma: taking a record out of the open set keeps the others sound |
| MoveUnit.FloodEntryAfterVisit | Assets/Script/UnitManager/MoveUnit.cs:73-74 | lemma: appending a visited cell keeps every record sound |
| MoveUnit.FloodFillWalkable | Assets/Script/UnitManager/MoveUnit.cs:44-108 | the result starts at the origin, has no cell twice, every later cell is in bounds, walkable and accepted by the extra check, and was reached from an earlier result cell one step away at that cell's cost plus the step cost, within the cost bound; every cell but the origin ends a walk within the bound; when no two cells share a hash, every cell that ends a walk within the bound is in the result (all tiles reachable within the movement range) |
| MoveUnit.ChainWalk | Assets/Script/UnitManager/MoveUnit.cs:73-103 | following the cells each result cell was reached from back to the origin gives a walk of enterable one-step moves whose cost is the cell's accumulated cost |
| MoveUnit.SettledAfterPopVisited | Assets/Script/UnitManager/MoveUnit.cs:68-72 | popping a record of an already visited cell keeps the Dijkstra bookkeeping (best costs, pop order, offered neighbours) |
| MoveUnit.SettledAfterVisit | Assets/Script/UnitManager/MoveUnit.cs:66-104 | popping the least record of an unvisited cell visits it at its best cost, later records cost at least that much, and visited cells keep their best costs, so the Dijkstra bookkeeping holds after its neighbours are offered |
| MoveUnit.SettledReachesWalk | Assets/Script/UnitManager/MoveUnit.cs:64-107 | once the open set is empty, every cell of a walk within the bound has a best cost no higher than the walk's cost up to it and is in the result |
| MoveUnit.WalkManhattan | Assets/Script/UnitManager/MoveUnit.cs:117-121 | a walk of n cardinal steps ends at most n cells (Manhattan) from its start |
| MoveUnit.MoveReachBound | Assets/Script/UnitManager/MoveUnit.cs:22-27 | with every step costing 1 and the movement allowance as the bound, a reachable cell is at most the allowance away |
| MoveUnit.CellTieRangeComplete | Assets/Script/UnitManager/MoveUnit.cs:44-46 | with the injective tie-break CellTie, a unit's movement range holds every cell within its reach |
| MoveUnit.GetPath | Assets/Script/UnitManager/MoveUnit.cs:36-42 | a path starts at `from`, ends at `to`, moves one cardinal step at a time onto in-bounds walkable cells and visits no cell twice; `from == to` gives the one-cell path; a path comes back only when a walk through neighbours leads from `from` to `to`, and, when no two cells share a hash, null comes back exactly when no such walk exists |
| MoveUnit.CheckWalkableTerrain | Assets/Script/UnitManager/MoveUnit.cs:17-34 | the tiles form the unit's movement range (MoveRange): they start at the unit's cell, hold no cell twice, and every other tile is in bounds, walkable, at most the unit's movement allowance away and one step from an earlier tile; every tile but the start ends a walk of at most that many steps, and when no two cells share a hash every such cell is a tile; the highlight is hidden and then lights exactly those tiles |
| DigitChar | Assets/Script/GameManager/CombatLog.cs:103 | a digit becomes the character whose code is '0' plus the digit |
| NatToString | Assets/Script/GameManager/CombatLog.cs:103 | the decimal rendering of a number in an interpolated string is a non-empty run of digits with no leading zero |
| IntToString | Assets/Script/GameManager/CombatLog.cs:103 | the rendering of an int is never empty |
| NatToStringRoundTrip | Assets/Script/GameManager/CombatLog.cs:103 | lemma: the digits rendered for a number read back as that number |
| IntToStringRoundTrip | Assets/Script/GameManager/CombatLog.cs:103 | lemma: a rendered int starts with '-' exactly when it is negative, and the digits after the sign read back as its magnitude |
| Trimmed | Assets/Script/GameManager/CombatLog.cs:70-75 | at most `cap` lines are kept, and they are the newest ones (a suffix of the input) |
| AddKeepsNewest | Assets/Script/GameManager/CombatLog.cs:56-76 | lemma: after adding, the newest message is last and the count is the old count plus one, capped |
| TrimmedSuffix | Assets/Script/GameManager/CombatLog.cs:70-75 | lemma: trimming a suffix that still holds the newest `cap` lines gives the same result as trimming the whole |
| TrimmedSnoc | Assets/Script/GameManager/CombatLog.cs:56-76 | lemma: trimming after every added line equals trimming the whole history once, so the panel always shows the newest `maxLogEntries` lines of everything logged |
| CombatLog.constructor | Assets/Script/GameManager/CombatLog.cs:14-30 | the log is empty with a cap of 100; `isExpanded` starts true but the panel starts hidden, because Awake applies its negation |
| CombatLog.ToggleLog | Assets/Script/GameManager/CombatLog.cs:32-36 | the expanded flag flips and the panel's visibility follows it |
| CombatLog.AddLogEntry | Assets/Script/GameManager/CombatLog.cs:56-76 | the entries become the trimmed old entries plus the message; the history gains the message; the entries stay the newest lines of the history |
| CombatLog.DropOldest | Assets/Script/GameManager/CombatLog.cs:70-75 | the loop drops from the front exactly down to the cap |
| CombatLog.ClearLog | Assets/Script/GameManager/CombatLog.cs:89-99 | no entries remain |
| CombatLog.LogAttack | Assets/Script/GameManager/CombatLog.cs:101-105 | the history gains exactly the attack line, and the entries stay its newest lines |
| CombatLog.LogMiss | Assets/Script/GameManager/CombatLog.cs:107-111 | the history gains exactly the miss line |
| CombatLog.LogCriticalHit | Assets/Script/GameManager/CombatLog.cs:113-117 | the history gains exactly the critical-hit line |
| CombatLog.LogHeal | Assets/Script/GameManager/CombatLog.cs:119-123 | the history gains exactly the heal line |
| CombatLog.LogStatusEffect | Assets/Script/GameManager/CombatLog.cs:125-129 | the history gains exactly the status-effect line |
| CombatLog.LogUnitDeath | Assets/Script/GameManager/CombatLog.cs:131-135 | the history gains exactly the death line |
| CombatLog.LogTurnStart | Assets/Script/GameManager/CombatLog.cs:137-141 | the history gains exactly the turn-start line |
| CombatLog.LogRoundStart | Assets/Script/GameManager/CombatLog.cs:143-147 | the history gains exactly the round-start line |
| CombatLog.LogBattleStart | Assets/Script/GameManager/CombatLog.cs:149-153 | the history gains exactly the battle-start line |
| CombatLog.LogBattleEnd | Assets/Script/GameManager/CombatLog.cs:155-159 | the history gains exactly the battle-end line |
| Spend | Assets/Script/UnitManager/CharacterTurn.cs:23-40 | the spend goes through exactly when momentum covers the amount, and then takes exactly the amount; a refused spend changes nothing; the turn ends automatically exactly when a spend leaves momentum at 0 or below |
| SpendNeverNegative | Assets/Script/UnitManager/CharacterTurn.cs:18-27 | lemma: a granted spend of a non-negative amount never leaves momentum negative |
| Gain | Assets/Script/UnitManager/CharacterTurn.cs:42-53 | a gain is accepted while the gains so far do not exceed the cap and then adds the amount to both momentum and gains; otherwise nothing changes |
| GainsStayNearCap | Assets/Script/UnitManager/CharacterTurn.cs:42-53 | lemma: under any run of gains of at most `bound` each, the gains counter ends at most `bound` past the cap, the cap never moves, and momentum moves in step with the gains counter (the check happens before adding, so the last accepted gain may overshoot) |
| GainsRefusedPastCap | Assets/Script/UnitManager/CharacterTurn.cs:44-52 | lemma: once the counter is past the cap, every further gain is refused |
| GrantedGainsBounded | Assets/Script/UnitManager/CharacterTurn.cs:11-16 | lemma: from a fresh grant, non-negative gains of at most `bound` never raise momentum above 8 plus `bound` |
| CharacterTurn.constructor | Assets/Script/UnitManager/CharacterTurn.cs:5-8 | the counters start at 0 |
| CharacterTurn.CanSpendMomentum | Assets/Script/UnitManager/CharacterTurn.cs:18-21 | holds exactly when SpendMomentum would take the amount |
| CharacterTurn.GrantTurn | Assets/Script/UnitManager/CharacterTurn.cs:11-16 | momentum 4, gains 4, cap 8 |
| CharacterTurn.SpendMomentum | Assets/Script/UnitManager/CharacterTurn.cs:23-40 | the result and the new counters are those of Spend; the scheduler gets one end-of-turn request exactly when the spend empties the pool |
| CharacterTurn.GainMomentum | Assets/Script/UnitManager/CharacterTurn.cs:42-53 | the new counters are those of Gain |
| CharacterTurn.AutomaticTurnEnd | Assets/Script/UnitManager/CharacterTurn.cs:55-59 | the scheduler's turn end is requested: its ending flag is set and the request is counted once |
| IndexOf | Assets/Script/GameManager/TurnManager.cs:136 | the index of the first occurrence of the element |
| RemoveFirstAbsent | Assets/Script/GameManager/TurnManager.cs:136 | lemma: removing an absent element changes nothing |
| RemoveFirstPresent | Assets/Script/GameManager/TurnManager.cs:136 | lemma: removing a present element cuts the list at its first occurrence |
| RemoveFirstMultiset | Assets/Script/GameManager/TurnManager.cs:136 | lemma: exactly one copy of the element leaves the multiset, if it was there |
| RemoveFirstCutsAtIndex | Assets/Script/GameManager/TurnManager.cs:136 | lemma: List.Remove leaves the list unchanged when the element is absent and otherwise cuts it at the first occurrence, taking exactly one copy out |
| UnitRegistry.constructor | Assets/Script/GameManager/TurnManager.cs:133 | the registry starts empty |
| UnitRegistry.Register | Assets/Script/GameManager/TurnManager.cs:135 | the unit is appended |
| UnitRegistry.Deregister | Assets/Script/GameManager/TurnManager.cs:136 | the first occurrence of the unit is removed |
| Character.constructor | Assets/Script/UnitManager/Character.cs:32-38 | the stats are those given, HP is full and shown as full, and the unit has no pending animation |
| Character.RollToHit | Assets/Script/UnitManager/Character.cs:49-55 | a d20 roll plus the attack modifier of 4 gives 5 to 24 |
| Character.RollToHitHits | Assets/Script/UnitManager/Character.cs:49-55 | the total hits a target exactly when the roll is at least that target's AC less the attack modifier |
| Character.IsAlive | Assets/Script/UnitManager/Character.cs:39-46 | a unit is alive exactly when the scheduler's living-units filter keeps it |
| Character.PlaceOnGrid | Assets/Script/Grid/GridObject.cs:15-26 | the unit takes its cell and is the cell's occupant when the cell is on the grid; no other cell changes |
| Character.TakeDamage | Assets/Script/UnitManager/Character.cs:57-68 | HP drops by exactly the damage; the unit dies exactly when HP reaches 0 or below, and the scheduler then handles the death; otherwise only the health bar is refreshed and the scheduler is untouched |
| Character.Die | Assets/Script/UnitManager/Character.cs:70-89 | the scheduler has handled the unit's death and the death line is logged |
| Killed | Assets/Script/GameManager/TurnManager.cs:139-161 | a death keeps the rota, the current unit, the round and the index; it ends the turn when the dead unit is the current one; the log gains any battle-end lines and then the death line |
| WithKeySnoc | Assets/Script/GameManager/TurnManager.cs:106 | lemma: the elements with a given key of a list with one more element are those of the list, plus that element if its key matches |
| SortedSnoc | Assets/Script/GameManager/TurnManager.cs:106 | lemma: appending an element no greater than every element keeps a list non-increasing |
| InsertByKeyPermutes | Assets/Script/GameManager/TurnManager.cs:106 | lemma: inserting adds exactly that element to the multiset and one to the length |
| InsertByKeySorted | Assets/Script/GameManager/TurnManager.cs:106 | lemma: inserting into a non-increasing list keeps it non-increasing |
| InsertByKeyStable | Assets/Script/GameManager/TurnManager.cs:106 | lemma: the inserted element goes after every element with the same key |
| OrderByDescendingIsStableSort | Assets/Script/GameManager/TurnManager.cs:106 | lemma: OrderByDescending is a permutation of its input, non-increasing in the key, and keeps equal keys in their input order |
| InitiativeOrderMembers | Assets/Script/GameManager/TurnManager.cs:98-106 | lemma: every unit of the initiative order is one of the units |
| Rolled | Assets/Script/GameManager/TurnManager.cs:100-104 | each unit is paired with its roll plus its initiative modifier |
| Units | Assets/Script/GameManager/TurnManager.cs:106 | the units of the pairs, in order |
| Living | Assets/Script/GameManager/TurnManager.cs:87 | filtering never lengthens the list |
| LivingMembers | Assets/Script/GameManager/TurnManager.cs:87 | lemma: the living units are exactly the units (of the list) with HP above 0 |
| LivingAppend | Assets/Script/GameManager/TurnManager.cs:87 | lemma: filtering keeps order: the living units of a concatenation are the concatenated living units |
| OnTeam | Assets/Script/GameManager/TurnManager.cs:93-94 | filtering never lengthens the list |
| OnTeamMembers | Assets/Script/GameManager/TurnManager.cs:93-94 | lemma: a team list holds exactly the units of that team |
| OnTeamLast | Assets/Script/GameManager/TurnManager.cs:93-94 | lemma: the last unit counts toward its own team's list only |
| TeamsPartition | Assets/Script/GameManager/TurnManager.cs:91-96 | lemma: the two team lists split the active units between them, as multisets |
| Process | Assets/Script/GameManager/TurnManager.cs:115-129 | dispatching logs the turn-start line with the game object's name and sets PlayerTurn for a Player unit and EnemyTurn for any other; nothing else changes |
| StartRound | Assets/Script/GameManager/TurnManager.cs:163-175 | the round goes up by 1 from index 0 and one round-start line is logged; with units, the first unit is dispatched; with none, no unit and no state change |
| Advance | Assets/Script/GameManager/TurnManager.cs:260-271 | the index moves on within the round, or past the end a new round starts at 0; the turn end is over either way; the next unit is dispatched when there is one |
| BattleEnd | Assets/Script/GameManager/TurnManager.cs:201-209 | CombatEnd when either team list is empty, with the battle-end line naming Player when the player team is non-empty and Enemy otherwise; on every such call; nothing else changes |
| WindUp | Assets/Script/GameManager/TurnManager.cs:252-258 | the state becomes Awaiting, the dead are pruned, and the battle end is checked, which may set CombatEnd |
| Bury | Assets/Script/GameManager/TurnManager.cs:144-158 | the dead unit leaves its team's list, and its turn end begins when it is the current unit; nothing else changes |
| BuryLeavesOwnTeam | Assets/Script/GameManager/TurnManager.cs:144-152 | lemma: exactly one copy of the dead unit leaves its own team list, and the other list is untouched |
| Enlist | Assets/Script/GameManager/TurnManager.cs:85-106 | the active units become the living units sorted by the initiative the rolls give; nothing else but the team lists changes |
| EnlistSplitsTeams | Assets/Script/GameManager/TurnManager.cs:85-106 | lemma: the two team lists split the living units between them, each holding only its own team |
| TurnManager.constructor | Assets/Script/GameManager/TurnManager.cs:30-57 | empty unit lists, no current unit, state Setup, round 0, index 0, no turn end pending |
| TurnManager.Start | Assets/Script/GameManager/TurnManager.cs:69-75 | the state is Setup, the battle-start line is logged, then the combat starts as StartCombat does; the first unit, if any, gets a fresh turn and the AI handoff |
| TurnManager.StartCombat | Assets/Script/GameManager/TurnManager.cs:77-83 | the scheduler becomes StartRound of Enlist of its state, the living units of the registry and the rolls; the registry is unchanged; the dispatched unit gets a fresh turn |
| TurnManager.Muster | Assets/Script/GameManager/TurnManager.cs:79-81 | the scheduler becomes Enlist of its state; each living unit's initiative is its roll plus its modifier |
| TurnManager.ScanForActiveUnits | Assets/Script/GameManager/TurnManager.cs:85-89 | the active units become the living units of the registry, in registry order, with no repeats |
| TurnManager.AssignUnitsToTeams | Assets/Script/GameManager/TurnManager.cs:91-96 | each team list becomes the active units of that team, in order |
| TurnManager.RollInitiative | Assets/Script/GameManager/TurnManager.cs:98-113 | each unit's initiative is its roll plus its modifier, and the list becomes the stable descending sort by it (a permutation of the units), and nothing else in the schedule changes |
| TurnManager.ProcessCurrentUnit | Assets/Script/GameManager/TurnManager.cs:115-129 | the scheduler becomes Process of its state; a unit that gets a turn (players, and others with an AI) is granted a fresh one, any other unit's turn is untouched; the AI handoff is the unit when it has an AI and is not a player |
| TurnManager.HandlePlayerTurn | Assets/Script/GameManager/TurnManager.cs:177-181 | the current unit's counters are a fresh grant |
| TurnManager.HandleEnemyTurn | Assets/Script/GameManager/TurnManager.cs:183-199 | with no current unit or no AI nothing happens; otherwise the unit is granted a fresh turn and handed to its AI |
| TurnManager.CheckForBattleEnd | Assets/Script/GameManager/TurnManager.cs:201-209 | the scheduler becomes BattleEnd of its state |
| TurnManager.OnCharacterDied | Assets/Script/GameManager/TurnManager.cs:139-161 | the unit leaves the registry (first occurrence) and its team list, its turn end is requested exactly when it is the current unit, then the battle end is checked |
| TurnManager.IncrementRounds | Assets/Script/GameManager/TurnManager.cs:163-175 | the scheduler becomes StartRound of its state, and the dispatched unit gets a fresh turn |
| TurnManager.EndCurrentUnitTurn | Assets/Script/GameManager/TurnManager.cs:244-251 | the ending flag is set, whether or not it was set before (a second call is ignored), and the call is counted |
| TurnManager.FinishTurnEnd | Assets/Script/GameManager/TurnManager.cs:250-273 | once the animation stops, the scheduler becomes Advance of WindUp of its state, with the units living at that moment; the menu is closed; play goes on even after CombatEnd |
| TurnManager.WindUpTurn | Assets/Script/GameManager/TurnManager.cs:252-258 | the menu is closed and the scheduler becomes WindUp of its state |
| TurnManager.AdvanceTurn | Assets/Script/GameManager/TurnManager.cs:260-271 | the scheduler becomes Advance of its state, and the dispatched unit gets a fresh turn |
| LivingTurns | Assets/Script/GameManager/TurnManager.cs:256 | lemma: pruning keeps only turn components the list already had |
| LivingDistinct | Assets/Script/GameManager/TurnManager.cs:256 | lemma: pruning a list without repeats leaves no repeats |
| TurnAdvanceSkipsAfterDeath | Assets/Script/GameManager/TurnManager.cs:256-268 | lemma: when the current unit at index i has died and the next two units live, the pruned list has the unit two places on at index i+1, so the unit right after the dead one is skipped |
| LivingAfterDead | Assets/Script/GameManager/TurnManager.cs:256 | lemma: a dead unit followed by two living ones prunes to a list starting with those two |
| AllLiving | Assets/Script/GameManager/TurnManager.cs:256 | lemma: a list of living units prunes to itself |
| HalfRange | Assets/Script/Utility/AIManager.cs:102 | half the range rounded toward zero, as the int division gives it before CeilToInt sees it (5 gives 2) |
| Wellness | Assets/Script/Utility/AIManager.cs:106-145 | Idle exactly when momentum is below 1, or below 2 with no enemy; SeekingCover exactly when HP is under a fifth of maxHP and momentum is at least 2; Attacking exactly when, otherwise, the nearest enemy is beyond minRange and within optimalRange with 2 momentum; Moving in every other case, including 1 momentum with an enemy in sight |
| WellnessSettles | Assets/Script/Utility/AIManager.cs:57-60 | lemma: the verdict is never Evaluate (or Waiting or EndTurn), so Evaluate re-dispatches only once |
| ScoreTile | Assets/Script/Utility/AIManager.cs:346-376 | before the jitter a score is at most 10, equal to 10 exactly out of pursuit on a tile at the optimal distance (when that distance is not too close); a too-close tile scores at most -5 in pursuit and -20 otherwise; pursuit scores are never positive |
| OptimalTileOutscores | Assets/Script/Utility/AIManager.cs:349-374 | lemma: out of pursuit, with jitters in [-5, 4], a tile at the optimal distance outscores every other tile |
| Foes | Assets/Script/Utility/AIManager.cs:293-310 | every foe is a registered unit |
| FoesExactly | Assets/Script/Utility/AIManager.cs:297-307 | lemma: a unit is a foe exactly when it is registered, of another team, and not the AI's own unit |
| Sightings | Assets/Script/Utility/AIManager.cs:312-321 | one sighting per foe, in order, with its Manhattan distance |
| WithinRange | Assets/Script/Utility/AIManager.cs:196 | exactly the sightings within range are kept |
| Nearest | Assets/Script/Utility/AIManager.cs:121 | the index of the first sighting of least distance (a stable OrderBy then First) |
| NearestWithinRangeIsNearest | Assets/Script/Utility/AIManager.cs:236-243 | lemma: the nearest in-range enemy, when there is one, is the nearest enemy overall, so preferring the in-range enemies never changes the target |
| NearestKeepsPrefix | Assets/Script/Utility/AIManager.cs:121 | lemma: a last sighting that is no nearer leaves the nearest unchanged |
| NearestSnoc | Assets/Script/Utility/AIManager.cs:121 | lemma: an appended sighting becomes the nearest only when strictly nearer |
| NearestDistance | Assets/Script/Utility/AIManager.cs:117-121 | no distance exactly when there is no enemy; otherwise the least distance |
| AttackTarget | Assets/Script/Utility/AIManager.cs:195-201 | no target exactly when every enemy is out of range; otherwise the nearest enemy, within range |
| ChaseTarget | Assets/Script/Utility/AIManager.cs:227-243 | the nearest enemy of all |
| WalkColumnMembers | Assets/Script/Utility/AIManager.cs:274-286 | lemma: a scanned column holds exactly the walkable grid cells of that column within range |
| WalkColumnOrdered | Assets/Script/Utility/AIManager.cs:274-286 | lemma: a scanned column is in increasing y |
| WalkCellsMembers | Assets/Script/Utility/AIManager.cs:272-287 | lemma: the columns scanned so far hold exactly the walkable grid cells of those columns within range |
| WalkCellsOrdered | Assets/Script/Utility/AIManager.cs:272-287 | lemma: the columns scanned so far are in scan order |
| WalkableTilesExactly | Assets/Script/Utility/AIManager.cs:267-290 | lemma: the tiles are exactly the walkable grid cells within Manhattan distance of the unit, its own cell included, in scan order and without repeats |
| BestTileIsFirstMaximum | Assets/Script/Utility/AIManager.cs:250-264 | lemma: the winner is the first tile with a path whose score is maximal among tiles with a path and above int.MinValue; with no such tile it is the fallback |
| BestTileExtend | Assets/Script/Utility/AIManager.cs:250-262 | lemma: one more scanned tile wins exactly when it has a path and beats the best score so far |
| BestTilePrefix | Assets/Script/Utility/AIManager.cs:250-262 | lemma: the argmax of the first n tiles depends only on those n |
| AIManager.constructor | Assets/Script/Utility/AIManager.cs:48-51 | a pathfinder over the AI's grid; no unit, state Idle, nothing awaited |
| AIManager.GetAllEnemiesOnMap | Assets/Script/Utility/AIManager.cs:293-310 | the enemies are exactly the registered units of another team other than the AI's unit, in registry order |
| AIManager.GetEnemiesWithDistance | Assets/Script/Utility/AIManager.cs:312-321 | each enemy with its distance from the AI's cell |
| AIManager.GetWalkableTilesInRange | Assets/Script/Utility/AIManager.cs:267-290 | the loops build exactly WalkableTiles of the unit's cell and range |
| AIManager.CalculateBestMovePosition | Assets/Script/Utility/AIManager.cs:220-265 | with no enemies the current cell; otherwise every walkable tile in move range is scored against the nearest enemy, in pursuit exactly when it is beyond attack range, and the result is the first best-scoring tile with a path (the current cell always has one; a tile has one only when a walk leads to it, and exactly then when no two cells share a hash); the AI never heads outside its move range, since the result is the current cell or one of those tiles |
| AIManager.ChooseTile | Assets/Script/Utility/AIManager.cs:250-262 | the loop yields the argmax BestTile of the scores, each tile scored by ScoreTile with its jitter; a tile counts as having a path only when a walk leads to it from the current cell, and, when no two cells share a hash, exactly then; the winner is one of the tiles or the current cell |
| AIManager.ScanTile | Assets/Script/Utility/AIManager.cs:250-262 | one pass of the loop: the tile's path verdict and score extend the scanned prefix, and the best tile and score become BestTile of the longer prefix |
| AIManager.HasPath | Assets/Script/Utility/AIManager.cs:252-253 | the AI's own cell always has a path; a tile has one only when a walk leads to it, and when no two cells share a hash, exactly then |
| AIManager.TilesScannedSnoc | Assets/Script/Utility/AIManager.cs:250-262 | lemma: one more tile with its score and a path verdict tied to connectivity extends the scanned prefix |
| AIManager.WellnessCheck | Assets/Script/Utility/AIManager.cs:106-145 | the verdict is Wellness of the unit's momentum, health, nearest enemy distance and the range bounds |
| AIManager.CanIAct | Assets/Script/Utility/AIManager.cs:335-345 | holds exactly when the unit's SpendMomentum would take the momentum cost |
| AIManager.IsInRange | Assets/Script/Utility/AIManager.cs:329-333 | holds exactly when the two cells are at most `range` apart (Manhattan), in either order |
| AIManager.InRangeWidens | Assets/Script/Utility/AIManager.cs:329-333 | lemma: a cell in range stays in range of any larger range |
| AIManager.Decision | Assets/Script/Utility/AIManager.cs:55-60 | the state acted on is never Evaluate |
| AIManager.UpdateAI | Assets/Script/Utility/AIManager.cs:53-82 | the state acted on is the stored state, or WellnessCheck's verdict for Evaluate; Idle becomes EndTurn without running again; the unit, the scheduler and the callback end as Outcome says (an attack, a move, the EndTurn request, or nothing); the AI's cell and ranges are kept |
| AIManager.HandleAITurn | Assets/Script/Utility/AIManager.cs:85-104 | outside EnemyTurn nothing at all changes; otherwise the AI takes the unit on its cell, minRange 1, optimalRange HalfRange of the attack range, and runs one UpdateAI from Evaluate, whose result is stated as for UpdateAI |
| AIManager.TakeControl | Assets/Script/Utility/AIManager.cs:93-102 | the AI controls the unit on its cell from Evaluate with the ranges set, and the decision it will take is Wellness from that cell |
| AIManager.AnimationStopped | Assets/Script/Utility/AIManager.cs:184-190 | after a walk the AI takes the unit's new cell, after an attack it keeps its cell; then UpdateAI runs from Evaluate, with no wait pending, and the outcome is stated from that cell |
| AIManager.Resume | Assets/Script/Utility/AIManager.cs:186-188 | the AI stands on the resumed cell back at Evaluate with no wait pending |
| AIManager.Act | Assets/Script/Utility/AIManager.cs:61-80 | every arm of the switch but Evaluate ends as Outcome says |
| AIManager.Proceed | Assets/Script/Utility/AIManager.cs:62-80 | the arms but Evaluate and Attacking end as Outcome says, with the scheduler's end requests counted |
| AIManager.Settle | Assets/Script/Utility/AIManager.cs:62-64 | SeekingCover and Waiting change nothing, Idle becomes EndTurn, and EndTurn requests the turn end once |
| AIManager.PerformAttack | Assets/Script/Utility/AIManager.cs:193-218 | with an enemy in attack range and 2 momentum, 2 are spent, the nearest in-range enemy is attacked with the roll, and the AI waits for the animation; otherwise nothing changes |
| AIManager.MoveToPosition | Assets/Script/Utility/AIManager.cs:169-191 | with a valid path to the best tile and 2 momentum, 2 are spent and the unit walks the path and ends on its last cell, and the AI waits; otherwise nothing changes |
| AIManager.PlanMove | Assets/Script/Utility/AIManager.cs:171-175 | the path found runs from the AI's cell to the best tile, and the move goes ahead exactly when a move command would be allowed |
| AIManager.Walk | Assets/Script/Utility/AIManager.cs:181-190 | paying, walking and waiting come out as MoveOutcome |
| AIManager.Pay | Assets/Script/Utility/AIManager.cs:181 | momentum down by 2 and the scheduler told of an empty pool, as SpendMomentum does it |
| AIManager.Strike | Assets/Script/Utility/AIManager.cs:199-212 | paying, striking and waiting come out as AttackOutcome |
| UnitMovement.constructor | Assets/Script/UnitManager/UnitMovement.cs:9-11 | no waypoints, not moving |
| UnitMovement.Move | Assets/Script/UnitManager/UnitMovement.cs:20-37 | the unit leaves its old cell only if it was that cell's occupant, takes the path's last cell and is placed there over any occupant; one waypoint per path cell; walking starts; the result is always true; no other cell changes |
| UnitMovement.WaypointReached | Assets/Script/UnitManager/UnitMovement.cs:39-62 | with no waypoints nothing happens; otherwise exactly the front waypoint is dropped, and the walk stops exactly when none are left |
| UnitMovement.PathIsValid | Assets/Script/UnitManager/UnitMovement.cs:70-77 | valid exactly when the unit stands still and the path is non-null and non-empty |
| AfterSpend | Assets/Script/GameManager/CommandManager.cs:63 | the scheduler is asked to end the turn exactly when it already was or the spend of 2 empties the pool; nothing else changes |
| RefusedSpendKeepsSchedule | Assets/Script/GameManager/CommandManager.cs:63-66 | lemma: a refused spend leaves the scheduler as it was |
| CommandManager.constructor | Assets/Script/GameManager/CommandManager.cs:34-40 | no command is pending |
| CommandManager.AddMoveCommand | Assets/Script/GameManager/CommandManager.cs:98-102 | a move command with the unit, the cell and the path replaces whatever was pending |
| CommandManager.AddAttackCommand | Assets/Script/GameManager/CommandManager.cs:105-110 | an attack command with the unit and the cell replaces whatever was pending; its target is the one given, null staying null |
| CommandManager.ExecuteCommand | Assets/Script/GameManager/CommandManager.cs:44-55 | a move command ends as ExecuteMoveCommand says, an attack command as ExecuteAttackCommand says, and a Default command changes nothing at all |
| CommandManager.ExecuteAttackCommand | Assets/Script/GameManager/CommandManager.cs:58-72 | 2 momentum is spent or nothing else happens and the command stays pending; once paid, the command is used up and the scheduler and log end as Struck says for the rolled total and damage |
| CommandManager.ExecuteMoveCommand | Assets/Script/GameManager/CommandManager.cs:75-95 | the command is used up exactly when the move is allowed (2 momentum, standing still, a non-empty path); then 2 momentum is spent and the unit stands and is placed on the path's last cell; otherwise momentum, the unit's cell and the pending command are unchanged |
| HitDamage | Assets/Script/UnitManager/AttackComponent.cs:34 | with DMG above 1 the damage lies in [1 + DMGMod, DMG - 1 + DMGMod], because the upper bound of the roll is exclusive; otherwise it is 1 + DMGMod |
| Struck | Assets/Script/UnitManager/AttackComponent.cs:31-42 | the log only grows, and its last line is the attack line on a hit (the total reaches AC) and the miss line otherwise; the rota, the current unit, the round and the index are kept; the turn ends only when a hit kills the current unit; a non-lethal attack adds exactly one line |
| AttackPosition | Assets/Script/UnitManager/AttackComponent.cs:23-46 | the scheduler ends as Struck says; on a hit HP drops by exactly the damage and the health bar shows the new HP unless the target died, when it keeps its old value; on a miss HP and the health bar are unchanged; a killing hit removes the target from the registry; the attack animation plays on both |
| LandHit | Assets/Script/UnitManager/AttackComponent.cs:33-36 | the hit branch: HP drops by exactly the damage, the health bar shows the new HP unless the target died (then it keeps its old value), a kill removes the target from the registry, then the attack line is logged |
| AttackColumnMembers | Assets/Script/UnitManager/CharacterAttack.cs:45-59 | lemma: a scanned column holds exactly the kept offsets of that column |
| AttackColumnOrdered | Assets/Script/UnitManager/CharacterAttack.cs:45-59 | lemma: a scanned column is in increasing y |
| AttackCellsMembers | Assets/Script/UnitManager/CharacterAttack.cs:43-60 | lemma: the columns scanned so far hold exactly the kept cells of those columns |
| AttackCellsOrdered | Assets/Script/UnitManager/CharacterAttack.cs:43-60 | lemma: the columns scanned so far are in scan order |
| AttackAreaExactly | Assets/Script/UnitManager/CharacterAttack.cs:30-64 | lemma: the area holds exactly the grid cells at Manhattan distance 1 to r, so never the unit's own cell, in scan order without repeats; walkability and occupants are not consulted |
| CharacterAttack.constructor | Assets/Script/UnitManager/CharacterAttack.cs:25-27 | no area computed yet |
| CharacterAttack.CalculateAttackArea | Assets/Script/UnitManager/CharacterAttack.cs:30-64 | the list is replaced, not extended, by exactly the cells of AttackAreaExactly, in scan order, and those are highlighted |
| CharacterAttack.CheckInArea | Assets/Script/UnitManager/CharacterAttack.cs:74-77 | lemma: while the stored list is the area around p with range r, `Check` (the list's `Contains`; its `requires` stands for the null list, which would throw) holds exactly on the grid cells at distance 1 to r from p; no caller in the source uses `Check` |
| CharacterAttack.GetAttackTarget | Assets/Script/UnitManager/CharacterAttack.cs:67-71 | the occupant of the cell, null off the grid |
| CommandInput.constructor | Assets/Script/GameManager/CommandInput.cs:20-33 | the input starts in `Default` mode, wired to its selection, command manager, move and attack components |
| CommandInput.SetCommandType | Assets/Script/GameManager/CommandInput.cs:55-58 | the mode becomes exactly the given command type |
| CommandInput.InitCommand | Assets/Script/GameManager/CommandInput.cs:61-74 | `MoveTo` lights exactly the selected unit's movement range (MoveRange: walkable on-grid cells within its movement allowance, each one step from an earlier one, complete when no two cells share a hash) and leaves the attack component untouched; `Attack` stores the selected unit's attack area, exactly the on-grid cells at distance 1..atkRange, and lays it over the attack layer's markers (Highlighted: marker i lit on cell i, later markers as they were); `Default` changes nothing |
| CommandInput.HighlightWalkableTerrain | Assets/Script/GameManager/CommandInput.cs:100-103 | the lit cells are exactly the selected unit's movement range (MoveRange): its cell, then walkable on-grid cells within its movement allowance, each one step from an earlier one, complete when no two cells share a hash |
| CommandInput.MoveCommand | Assets/Script/GameManager/CommandInput.cs:117-133 | a found path runs from the unit's cell to the cursor and is found only when a walk leads there; when no two cells share a hash, the path is null exactly when no walk leads there; the command executes (and clears) exactly when the move is allowed, and then the unit stands on the cursor cell with one action spent; a refused command stays pending and nothing moves; the mode is `Default` afterwards either way |
| CommandInput.AttackCommand | Assets/Script/GameManager/CommandInput.cs:106-114 | on an empty cell nothing at all changes, the mode included; otherwise the mode becomes `Default` and the attack executes exactly when the unit can pay one action, spending it and resolving to-hit and damage against the occupant, of either team and at any distance; a refused attack stays pending |
| CommandInput.HandleLeftClick | Assets/Script/GameManager/CommandInput.cs:77-91 | `Default` selects the hovered unit (if any) and opens the menu; `MoveTo` issues a move to the cursor; `Attack` issues an attack; the mode ends `Default` except for an `Attack` click on an empty cell |
| CommandInput.HandleRightClick | Assets/Script/GameManager/CommandInput.cs:94-97 | any right click deselects: nothing selected, menu closed, both highlight layers empty, mode `Default` |
| CommandMenu.constructor | Assets/Script/GameManager/CommandMenu.cs:5 | the panel starts closed |
| CommandMenu.OpenPanel | Assets/Script/GameManager/CommandMenu.cs:7-10 | the panel is open |
| CommandMenu.ClosePanel | Assets/Script/GameManager/CommandMenu.cs:12-15 | the panel is closed |
| SelectCharacter.constructor | Assets/Script/GameManager/SelectCharacter.cs:19-29 | nothing selected or hovered, and the last seen cell is (-1, -1) |
| SelectCharacter.Update | Assets/Script/GameManager/SelectCharacter.cs:34-55 | the last seen cell becomes the cursor cell; on a new cell the hovered unit is re-read as its occupant, on the same cell it is kept; the hover-tracks-cell invariant is preserved, and established by the first update from the initial state |
| SelectCharacter.UpdateMenu | Assets/Script/GameManager/SelectCharacter.cs:74-84 | the menu is open exactly when a unit is selected |
| SelectCharacter.Select | Assets/Script/GameManager/SelectCharacter.cs:87-93 | with nothing hovered neither the selection nor the menu changes; otherwise the hovered unit, of either team, is selected and the menu is open |
| SelectCharacter.Deselect | Assets/Script/GameManager/SelectCharacter.cs:96-102 | nothing selected, both highlight layers empty, menu closed, input mode `Default` |
| SelectCharacter.MoveCommandSelected | Assets/Script/GameManager/SelectCharacter.cs:58-63 | the input is in `MoveTo`, the attack layer is emptied (unless it is the move layer itself) and the move layer lights exactly the selected unit's movement range (MoveRange) |
| SelectCharacter.AttackCommandSelected | Assets/Script/GameManager/SelectCharacter.cs:66-71 | the input is in `Attack`, the move layer is emptied (unless it is the attack layer itself), the stored attack area is the selected unit's diamond, and the attack layer's markers become Highlighted of that area over the old markers, hidden first when the two layers are one renderer |

## Left out

Each line gives what the model does not capture, and why.

**Engine I/O**

- **Physics and rendering.** Unity physics and rendering are inputs or plain state:
  - The raycast behind `CalculateElevation` becomes a height function `(x, y) -> Option<int>`.
  - The `Physics.CheckBox` behind `CheckPassableGrid` becomes an obstacle predicate.
  - Highlight markers are the set of lit cells in `GridRenderer`.
  - The menu panel is a boolean.
  - The shield sprite `Instantiate`, `OnDrawGizmos` and the health-bar UI are not modelled.
- **Float coordinates.** `GetGridPosition` (world point to cell) is not modelled. `GetWorldPosition` becomes an integer `WorldPoint`, because its float transform plays no part in gameplay. `ConvertPathToWorldPosition` is modelled for its length and order.
- The float interpolation in `UnitMovement.Update` and `RotateTowards` are not modelled, and neither is `AttackComponent.RotateCharacter`. Each arrival at a waypoint is the explicit call `UnitMovement.WaypointReached`.
- **Animation waits.** `AnimatorProxy.WaitUntilAnimationStops` and the animation controller's polling become a begin call and a later resume call. The model does not capture the time between them, or what other input arrives meanwhile. `DelayedUpdateAI`'s `WaitForSeconds` delay is dropped, and its `UpdateAI` call happens in `AIManager.AnimationStopped`.
- **Cursor input.** `CursorData`, `GridControl` and the mouse raycast are not modelled: the cursor cell is a parameter of the click handlers and of `SelectCharacter.Update`. Registering the input callbacks in `OnEnable`/`OnDisable` is not modelled either, so the right-click callback that `OnDisable` never unregisters is not captured.
- **Randomness.** Every `UnityEngine.Random` draw is a parameter constrained to its range. A method that draws a die only on some paths still takes the die as a parameter. `CommandInput.MoveCommand` executes its move with dummy dice `(1, 1)`, which a move never reads. The score jitters arrive as one `randomMods` entry per scanned tile, in scan order, each in [-5, 4] (`Jitters`, required by every AI method that takes them). The source draws a jitter only for a tile that has a path (AIManager.cs:252-255); the entries for the other tiles are draws it never makes and are never read. The draws are independent, so the possible outcomes are the same.
- **Hash-code tie-break.** `GetHashCode` in `NodeRecordComparer` is the parameter `hash`. Nothing is assumed of it; the completeness of the flood fill and of the A* search is stated for a `hash` that gives every cell its own code. The engine's `Vector2Int` is not part of this model; `Vector2IntHash` writes out its hash code, `x ^ (y << 2)`, only to exhibit its collisions.

**Left out of scope**

- **Outside the combat core.**
  - `CameraControl`.
  - `HealthBar`.
  - `CoverProp`'s gizmo drawing. Its three fields are the input record `CoverProp`.
  - `ShowResultScreen`, `RestartBattle` and `QuitToMenu`.
  - The unused `ForceEndTurn`.
  - The singleton and `GetComponent` look-ups. The object graph is passed in explicitly, checked by requires such as `AIManager.Wired`/`Serves` that describe the scene's wiring.
- **Deaths.** The one-second delay of `Character.DeathSequence` and its `Destroy` are not modelled: the death line is logged at once by `Character.Die`.
- **Diagnostics.** `Debug.Log`, `Debug.LogWarning` and `Debug.LogError` are not modelled, including `HandleAITurn`'s warning and the out-of-bounds warning in `PopulateCover`.
- The body of `SeekCover` in AIManager is not modelled. Its cast of the `(Character, int)` tuple's elements to `Character` fails whenever an enemy exists. The model keeps the transition into `SeekingCover`, where the state machine then does nothing.
- **AI hand-off.** `HandleEnemyTurn` hands over to the AI. In the model, the scheduler methods return the unit whose AI takes over (`handoff`), and the caller runs `AIManager.HandleAITurn`. This keeps each scheduler contract an exact transition. The model has no top-level loop that interleaves the scheduler and the AI.

**Weakened contracts**

- AIManager.UpdateAI: after an `Attacking` pass, the count of the scheduler's end-of-turn requests is not stated. The attack's spend and a possible death of its target both add to that count. After every other pass the count is stated. The momentum, position, AI state and scheduler snapshot are stated in every case, through `Outcome`. `AIManager.HandleAITurn`, `AIManager.Act` and `AIManager.AnimationStopped` have the same gap.
- TurnManager.StartCombat: each unit's rolled initiative value is not restated. The contract carries the order and the scheduler state through the first round's turn grant, but not those values. `TurnManager.RollInitiative` and `TurnManager.Muster` state them.
- SelectCharacter.MoveCommandSelected: nothing is said about the attack layer when it is the move layer itself. `SelectCharacter.AttackCommandSelected` likewise says nothing about the move layer when it is the attack layer, though it states the attack markers in both cases. The highlight renderers are not required to be distinct objects, so those contracts hold only when they are.
- AIManager.ChooseTile: which tiles "have a path" is a ghost result. It is tied to connectivity from the AI's cell, both ways only when `hash` gives every cell its own code, through `Pathfinder.FindPath`. The same holds for `AIManager.CalculateBestMovePosition`.
- Pathfinder.FindPath: a null result is proved to mean that no walk leads to the goal only when `hash` gives every cell its own code. With the engine's Vector2Int hash a record can be dropped from the open set, as in the flood fill (see "Findings"). The model does not establish whether the search then misses a path or only a shorter one.
- MoveUnit.FloodFillWalkable: the result is proved to hold every tile reachable within the bound only when `hash` gives every cell its own code. The engine's Vector2Int hash does not, and then a record can be dropped (see "Findings"). The same holds for `MoveUnit.CheckWalkableTerrain`, `CommandInput.HighlightWalkableTerrain`, `CommandInput.InitCommand` and `SelectCharacter.MoveCommandSelected` through `MoveUnit.MoveRange`.

**Number types**

- **Integer width.** Integers are unbounded: 32-bit wrap-around in HP, momentum, counters and sums of costs is not modelled. Float path costs and heuristics are integer-valued and are modelled as `int`. `float.MaxValue` is its exact integer value.
- **Elevations.** A cell's elevation is the `y` of a raycast hit, an arbitrary float. The model takes it as an `int` and loses its fractional part. Elevation reaches only `GetWorldPosition`'s `WorldPoint`, never pathing or combat.
- **Movement allowance.** `Character.MaxMoveSpeed` is a float (`5f`) that bounds the flood fill. The model takes it as the `int` `maxMoveSpeed`. Every step costs a whole 1, so a float bound allows exactly the walks its floor allows. The AI's `(int)` cast of the same value is that floor for a non-negative speed.
- **Health threshold.** `WellnessCheck` tests `HP < maxHP * 0.2` in double precision, and the model tests `5 * HP < maxHP`. The two agree for every 32-bit `HP` and `maxHP`. When 5 divides `maxHP` the product rounds to `maxHP / 5` exactly. Otherwise `maxHP / 5` lies at least 0.2 from every integer, far beyond the product's rounding error.
- Pathfinder.FindPath: the `PathfindingSettings` floats (`MaxSearchCost`, the cost override) are integers. Every caller passes null settings, so the diagonal and corner-cutting branches are modelled and proved but no caller reaches them.

**Excluded by requires**

- CommandInput.MoveCommand: the branch the source guards with its own "no character selected" test is excluded by requires. The guard tests the component reference, which is never null. The null `selected` it is meant for would throw on the next line.
- TurnManager.Start, StartCombat, Muster, FormTeams, ScanForActiveUnits and RollInitiative: the registry (or the active list) must hold each unit once (`Distinct`). No real input is excluded. A unit registers in `OnEnable` and deregisters in `OnDisable` (Character.cs:29-30), and Unity alternates the two. A dead unit's extra `Deregister` (TurnManager.cs:142) is a `List.Remove` of an absent unit, which changes nothing (`RemoveFirstAbsent`).
- CommandManager.ExecuteAttackCommand: a pending attack with a null target is excluded by requires, because the source would throw on it. `CommandInput.AttackCommand` never queues one.
- **Non-adjacent cover props.** In `PopulateCover`, a prop whose cells are not adjacent is modelled as ending the loop. The source indexes slot -1 there, which throws, and the remaining props go unprocessed.
- MoveUnit.FloodFillWalkable: a cost override must give no negative step cost (`CostsNonNegative`). No caller passes an override. With negative costs the source still stops, since each cell is expanded once, but the model's termination argument counts (cell, cost) pairs with costs from 0 up to the bound.
- CombatLog.AddLogEntry: `maxLogEntries` is a `nat`. A negative cap would make the source's trim loop throw on an empty list.

## Findings

| source | as written | input that shows it | evidently intended | confidence | as-written member | corrected member |
|---|---|---|---|---|---|---|
| Assets/Script/UnitManager/MoveUnit.cs:93-103 with Assets/Script/Utility/Pathfinding.cs:37-43 | the flood fill lowers `costSoFar[neighbor]` and then adds the neighbour's record to a `SortedSet` whose comparer calls two records equal when their f-costs and position hash codes agree; `Add` silently drops such a record, and no later offer can undercut the lowered cost, so the cell is never visited | an open grid at least 13 cells long and 3 wide, a unit at (8, 1) with MaxMoveSpeed 5: (4, 2) and (12, 0) are both 5 steps away and both hash to 12, so whichever record comes second is dropped and that tile is not highlighted | "all tiles reachable within movement range" (MoveUnit.cs:44-46): every cell that ends a walk within the bound is in the result | not executed | MoveUnit.OfferNeighbor with Vector2IntHashCollides | MoveUnit.FloodFillWalkable under CellTieInjective (also MoveUnit.CellTieRangeComplete) |
