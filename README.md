# Dungeon crawler core, modelled in Dafny

This project models the core game logic of a small turn-based roguelike.

The game is played on an 80 × 50 tile grid. The world holds entities: the player, monsters and the Amulet of Yala. Each entity is an identity with a set of optional components.

Every frame dispatches on a process-wide turn state. The possible states are:
- awaiting input;
- the player's turn;
- the monsters' turn;
- game over;
- victory;
- next level.

At the end of a turn, the next state is decided in order. First comes the natural successor of the phase. A dead player overrides it with game over. A player standing on the amulet overrides it with victory.

Advancing a level does the following:
- prunes the world down to the player and what it carries;
- marks every field of view for recomputation;
- moves the player one level deeper to the new start;
- either places the amulet, on level 2, or marks an exit tile.

The modules follow the program's files:

| module (file) | models |
|---|---|
| `Prelude` (prelude.dfy) | screen constants, points, turn state, keys, code page 437 glyph codes |
| `GridMap` (grid_map.dfy) | the tile map: index arithmetic, bounds, enterability, neighbour enumeration, opacity |
| `Themes` (themes.dfy) | the two tile-to-glyph tables |
| `Components` (components.dfy) | entity records and the world, a class with a sequence of entities and the next identity |
| `Spawner` (spawner.dfy) | the entity constructors that append one entity each |
| `EndTurnSystem` (end_turn.dfy) | end-of-turn resolution |
| `Game` (game.dfy) | the session class: new game, reset, level advance, the per-frame dispatch |

A few modelling choices:
- The map builder's output (map, player start, amulet start, monster spawns, theme) is a parameter.
- A dice roll is a parameter.
- The key pressed in a frame is a parameter.
- The world is a sequence of entity records. Its order is taken as the iteration order of every query (see Left out).
- Removing entities is done in two passes: queue the identities, then flush.

### Where the model departs from the text

- **The Exit tile.** `src/main.rs:51`, `:118` and `:180` assign an `Exit` tile, but the tile enum at `src/map.rs:5-8` declares only `Wall` and `Floor`. The model's `TileType` has all three.
  - The map predicates stay literal: only Floor can be entered (`src/map.rs:32`), and anything other than Floor blocks sight (`src/map.rs:112`). So an exit tile neither admits the player nor is transparent (`GridMap.ExitTileBlocks`).
  - The theme tables have no glyph for Exit, so `Themes.TileToRender` requires a non-Exit tile.
- **The player component.** `spawn_player` pushes a bare `Player` marker, yet `advance_level` reads and increments `Player.map_level`. The model gives the player record a level field that starts at 0.
- **New fields of view.** `FieldOfView::new(radius)` is taken to give an empty visible set that is marked dirty. The components file is not part of this model.
- **The restart key.** The end screens say "Press 1 to play again", but the code restarts on Escape (`src/main.rs:90`, `:103`). The model follows the code.
- **Index casts.** `map_idx` casts a possibly negative `i32` sum to `usize`. The model reduces that sum modulo 2^64.
- **The checked index conversion.** `point2d_to_index` panics unless its sum is non-negative. The model turns that into a precondition.

## Model

| member | source | states |
|---|---|---|
| GridMap.NumTilesIsGridSize | src/map.rs:2 | the tile count is width × height, 4000 |
| GridMap.MapIdx | src/map.rs:15-17 | the index is below 2^64, and it equals `y*80 + x` whenever that sum is a valid unsigned value |
| GridMap.MapIdxInBounds | src/map.rs:15-17 | for an in-bounds point the index is `y*80 + x` and lies in [0, 4000) |
| GridMap.InBounds | src/map.rs:27-29 | the definition: 0 ≤ x < 80 and 0 ≤ y < 50; its link to indices is stated by TryIdx and IndexRoundTrip |
| GridMap.CanEnterTile | src/map.rs:31-33 | the definition: in bounds and the tile is Floor; its link to opacity is stated by OpaqueIffNotEnterable |
| GridMap.PointToIndex | src/map.rs:60-65 | the definition, `y*80 + x`, requiring a non-negative result as the checked conversion does; its round trips are stated by IndexRoundTrip and PointRoundTrip |
| GridMap.IndexToPoint | src/map.rs:67-74 | the definition, column `idx % 80` and row `idx / 80`; its round trips are stated by IndexRoundTrip and PointRoundTrip |
| GridMap.IsOpaque | src/map.rs:111-113 | the definition: any tile other than Floor blocks sight; stated against enterability by OpaqueIffNotEnterable |
| GridMap.NewMap | src/map.rs:20-25 | a new map has 4000 tiles, all Floor, and 4000 revealed flags, all false |
| GridMap.TryIdx | src/map.rs:35-41 | no index exactly for out-of-bounds points; otherwise an index below 4000 that converts back to the same point |
| GridMap.Dimensions | src/map.rs:76-78 | the dimensions are width 80 and height 50, spanning exactly the 4000 tiles |
| GridMap.IndexRoundTrip | src/map.rs:67-74 | every index converts to a point with column in [0, 80) and back to itself; the point is in bounds iff the index is below 4000 |
| GridMap.PointRoundTrip | src/map.rs:60-65 | an in-bounds point converts to an index below 4000, equal to `map_idx`, that converts back to the point |
| GridMap.MapIdxInjective | src/map.rs:15-17 | distinct in-bounds points get distinct indices |
| GridMap.ValidExit | src/map.rs:43-52 | yields an index exactly when the destination `loc + delta` can be entered, and that index converts back to the destination |
| GridMap.DirectionOf | src/map.rs:90-101 | classifies a destination as the left, right, up or down neighbour, or none of them |
| GridMap.GetAvailableExits | src/map.rs:86-104 | at most four exits, each costing 1, each an enterable orthogonal neighbour, in the order left, right, up, down, with no enterable neighbour omitted |
| GridMap.PushExit | src/map.rs:90-101 | one probe pushes the neighbour towards the k-th direction, with cost 1, exactly when it can be entered, extending a correct partial exit list |
| GridMap.ExitStep | src/map.rs:90-101 | one neighbour probe extends a correct partial exit list to a correct longer one |
| GridMap.ExitsComplete | src/map.rs:86-104 | after all four probes the list meets every guarantee stated for GetAvailableExits |
| GridMap.StrictlyIncreasingBounded | src/map.rs:90-101 | strictly increasing directions out of four allow at most four exits |
| GridMap.DirectionOfDelta | src/map.rs:90-101 | the k-th probe's destination is classified as direction k |
| GridMap.OpaqueIffNotEnterable | src/map.rs:31-33 | for an in-bounds point, the tile blocks sight iff the point cannot be entered |
| GridMap.ExitTileBlocks | src/map.rs:111-113 | an exit tile is opaque and cannot be entered |
| GridMap.NewMapIsOpen | src/map.rs:20-33 | on a new map every in-bounds point can be entered and is transparent |
| Themes.TileToRender | src/map_builder/themes.rs:11-35 | the two glyph tables, restricted to Wall and Floor; their contents are stated by DungeonGlyphs and ForestGlyphs |
| Themes.DungeonGlyphs | src/map_builder/themes.rs:12-17 | the dungeon theme draws Floor as '.' and Wall as '#' |
| Themes.ForestGlyphs | src/map_builder/themes.rs:30-35 | the forest theme draws Floor as ';' and Wall as '"' |
| Themes.GlyphIdentifiesTile | src/map_builder/themes.rs:14-15 | within one theme, Floor and Wall get distinct glyphs |
| Themes.ThemesDiffer | src/map_builder/themes.rs:30-35 | for each tile type the two themes give different glyphs |
| Components.World.constructor | src/main.rs:42 | the default world is empty and hands out identity 0 first |
| Components.World.Push | src/spawner.rs:4 | appends exactly one entity, with the next identity, and leaves the earlier entities unchanged |
| Spawner.AmuletRecord | src/spawner.rs:3-13 | the amulet is an Item and AmuletOfYala at the given position, named "Amulet of Yala", with no player, health or carrier |
| Spawner.PlayerRecord | src/spawner.rs:15-26 | the player is at the given position at level 0, with health 20/20 and a dirty field of view of radius 8 |
| Spawner.Goblin | src/spawner.rs:51-53 | the goblin: 1 hp, named "Goblin", glyph 'g' |
| Spawner.Orc | src/spawner.rs:55-57 | the orc: 2 hp, named "Orc", glyph 'o' |
| Spawner.MonsterForRoll | src/spawner.rs:29-32 | the roll match: 1 to 8 gives the goblin, anything else the orc; stated by MonsterForD10 and GoblinOdds |
| Spawner.MonsterForD10 | src/spawner.rs:29-32 | a roll of 1 to 8 gives a goblin (1 hp, 'g'); 9 or 10 gives an orc (2 hp, 'o') |
| Spawner.GoblinOdds | src/spawner.rs:29-32 | eight of the ten faces of a d10 give a goblin and two give an orc |
| Spawner.MonsterRecord | src/spawner.rs:34-48 | a monster is Enemy and ChasingPlayer at the given position, with current = max health = the rolled kind's hp, that kind's name and glyph, and a field of view of radius 6 |
| Spawner.SpawnAmuletOfYala | src/spawner.rs:3-13 | the world grows by exactly the amulet record, with the next identity |
| Spawner.SpawnPlayer | src/spawner.rs:15-26 | the world grows by exactly the player record, with the next identity |
| Spawner.SpawnMonster | src/spawner.rs:28-49 | the world grows by exactly the monster record for the roll, with the next identity |
| EndTurnSystem.PlayerViews | src/systems/end_turn.rs:9 | a view is seen exactly when some entity has Player, Health and Point components with that health and position; never more views than entities |
| EndTurnSystem.AmuletPositions | src/systems/end_turn.rs:10 | a position is seen exactly when some AmuletOfYala entity stands there; never more positions than entities |
| EndTurnSystem.NaturalNext | src/systems/end_turn.rs:14-19 | the natural successor; stated by NaturalTransitions |
| EndTurnSystem.Step | src/systems/end_turn.rs:21-29 | one iteration over a player: the health test, then the amulet test; its effect over all players is stated by the Resolve lemmas |
| EndTurnSystem.Resolve | src/systems/end_turn.rs:21-29 | the loop over the players as a fold in iteration order; stated by ResolveWithoutOverride, ResolveDefeat, ResolveVictory, ResolveHasCause and ResolveWithoutAmulet |
| EndTurnSystem.NaturalTransitions | src/systems/end_turn.rs:14-19 | PlayerTurn goes to MonsterTurn, MonsterTurn to AwaitingInput, every other state to itself |
| EndTurnSystem.ResolveWithoutOverride | src/systems/end_turn.rs:21-29 | with no dead player and none on the amulet, the natural successor stands |
| EndTurnSystem.ResolveDefeat | src/systems/end_turn.rs:21-24 | a dead player forces GameOver unless it or a later player stands on the amulet |
| EndTurnSystem.ResolveVictory | src/systems/end_turn.rs:26-29 | a player on the amulet forces Victory unless a later player is dead and off the amulet, so a dead player on the amulet still wins |
| EndTurnSystem.ResolveHasCause | src/systems/end_turn.rs:21-29 | the result is the natural successor, GameOver or Victory, and a changed outcome always has a responsible player |
| EndTurnSystem.ResolveWithoutAmulet | src/systems/end_turn.rs:26-29 | without an amulet, no player can produce Victory |
| EndTurnSystem.ResolveTurn | src/systems/end_turn.rs:12-31 | AwaitingInput is returned unchanged; any other state is resolved over the players in iteration order |
| EndTurnSystem.EndTurn | src/systems/end_turn.rs:8-32 | needs an amulet, as the code does; leaves AwaitingInput alone; resolves against the first amulet's position; with no override, gives the natural successor |
| EndTurnSystem.EndTurnAmuletOptional | src/systems/end_turn.rs:8-32 | agrees with EndTurn whenever an amulet exists; resolves without the victory test when none exists, so it never produces Victory from another state |
| EndTurnSystem.PlayerViewsAppend | src/systems/end_turn.rs:9 | the players seen in a concatenated world are those of each part, in order |
| EndTurnSystem.AmuletPositionsAppend | src/systems/end_turn.rs:10 | the amulets seen in a concatenated world are those of each part, in order |
| Game.MarkExit | src/main.rs:50-51 | the map with the tile under a point made an exit, as at src/main.rs:117-118 and :179-180; stated by MarkExitChangesOneTile |
| Game.MarkExitChangesOneTile | src/main.rs:179-180 | marking the exit changes exactly the tile under the amulet start, unless it already was an exit; the revealed flags are untouched |
| Game.FirstPlayerIndex | src/main.rs:132-136 | the index of the first entity that has a player component |
| Game.FlushedMembership | src/main.rs:149-156 | after the flush, an entity survives iff it was present and not queued for removal |
| Game.FlushedKeepsValid | src/main.rs:149-156 | the flush keeps identities unique and below the next identity |
| Game.SurvivorsExactly | src/main.rs:132-156 | the survivors are exactly the first player entity and the entities it carries |
| Game.AdvancedEntitiesValid | src/main.rs:132-173 | the advanced world keeps unique identities below the next one |
| Game.AdvancedEntityAt | src/main.rs:158-173 | each survivor keeps its identity, carrier, tags, health, name and glyph; every field of view becomes dirty; each positioned player goes to the start one level deeper; the others keep position and level |
| Game.LevelAfterMoveSingle | src/main.rs:165-173 | when one positioned player is the only one, the recorded level is its level plus one |
| Game.SinglePlayerReachesNextLevel | src/main.rs:132-175 | when the first player has a position and carries no other player, the level that decides amulet or exit is its old level plus one, whatever other players the world held before pruning |
| Game.FinalLevelHasAmulet | src/main.rs:175-177 | advancing to level 2 leaves the world with an amulet at the amulet start, so end-of-turn resolution can find one |
| Game.NewGameLacksAmulet | src/main.rs:47-48 | a new game's world holds no amulet, only the living player at the start |
| Game.SpawnsSeenByEndTurn | src/spawner.rs:3-49 | a spawned player is seen alive at its position; a spawned monster is neither a player nor an amulet; a spawned amulet adds its position |
| Game.AdvanceStepsCompose | src/main.rs:132-173 | pruning with the collected set and the queued removals gives the survivors, and the marking and moving steps after it give the advanced world and the deciding level |
| Game.Dispatch | src/main.rs:210-223 | the handler of each turn state; stated one-to-one by DispatchIsOneToOne |
| Game.DispatchIsOneToOne | src/main.rs:210-223 | every turn state has its own handler and every handler serves exactly one turn state |
| Game.CollectKept | src/main.rs:138-147 | the kept set is the player plus every entity carried by the player |
| Game.QueueRemovals | src/main.rs:149-154 | a removal is queued for exactly the entities not kept |
| Game.Flush | src/main.rs:156 | the world becomes the flushed sequence: exactly the entities not removed, in order, still valid |
| Game.MarkFieldsOfViewDirty | src/main.rs:158-160 | every field of view is marked dirty in place and nothing else changes |
| Game.MovePlayers | src/main.rs:165-173 | every positioned player is moved to the start one level deeper; the result is the last visited player's new level, or 0 |
| Game.AdvanceWorld | src/main.rs:132-173 | the world becomes exactly the advanced survivors, still valid with the same next identity, and the result is the deciding level |
| Game.StartGame | src/main.rs:42-51 | a fresh world holding only the player at its start, and the builder's map with the exit marked |
| Game.State.constructor | src/main.rs:41-70 | a new game: the player alone at the start, the exit marked, AwaitingInput, the builder's theme |
| Game.State.ResetGame | src/main.rs:108-129 | a fresh world and the same state as a new game |
| Game.State.AwaitRestart | src/main.rs:90-92 | Escape restarts the game; any other key, or none, changes nothing |
| Game.State.InstallOutcome | src/main.rs:211-219 | the world, map, turn state and theme become what a schedule run left behind, in the same world object |
| Game.State.AdvanceLevel | src/main.rs:131-193 | the world becomes the advanced survivors, plus the amulet on level 2; the map is the builder's, with the exit marked unless on level 2; AwaitingInput; the builder's theme |
| Game.State.Tick | src/main.rs:208-223 | runs exactly the handler of the current turn state; restarts from the end screens only on Escape; advances the level on NextLevel; for the input, player and monster states, installs the state their schedule leaves behind |

## Left out

- `get_pathing_distance` (src/map.rs:106-109): floating-point Euclidean distance, outside the integer model.
- The head-up display and all drawing: the end-screen text, console selection, clearing and `render_draw_buffer`. These are rendering and window I/O.
- `main` and the window builder: window I/O.
- The input, player and monster system schedules: their systems are not part of this model. `Game.State.Tick` takes what their run leaves behind as a parameter and installs it.
- The mouse position and key resources that `tick` inserts: the key is a parameter, and the mouse is used only by the schedules.
- The camera resource: it only positions drawing.
- The random number generator: it becomes a dice-roll parameter.
- The map builder: its output is a parameter, and no connectivity or start/goal claims are made about it.
- `spawn_entity` and the spawning over `monster_spawns` in `new`, `reset_game` and `advance_level`: `spawn_entity` is not part of this model. The modelled worlds have no monsters from the builder.
- Colours of rendered entities: drawing only.
- Query order: the world is a sequence whose order is taken as the iteration order of every query and is kept by the flush. The ECS library iterates archetype by archetype and need not keep order across a flush. Results that depend on order matter only with several players or amulets: the "later player" of `EndTurnSystem.ResolveDefeat` and `EndTurnSystem.ResolveVictory`, `Game.FirstPlayerIndex`, and the first amulet taken by `EndTurnSystem.EndTurn`.
- Game.State.Tick: the systems the schedules run are not modelled, so nothing is promised about the state a schedule leaves behind beyond unique identities and a full map.
- GridMap.MapIdx, GridMap.PointToIndex, GridMap.IndexToPoint, GridMap.IndexRoundTrip: `i32` overflow of `y*80 + x` is not modelled; coordinates and indices are unbounded integers, so the round trip is stated for indices of 2^31 and above too, where the program's `i32` arithmetic would overflow. Only the unsigned cast of `map_idx` wraps.
- Game.SinglePlayerReachesNextLevel: pruning removes every player not carried by the first one, so only a player carried by the first player can change the deciding level; the lemma excludes that case, in which the level is that of the last player visited (`Game.LevelAfterMove`).
- `Box<dyn MapTheme>` dispatch becomes the closed `Themes.Theme` datatype.

## Findings

| source | as written | input that shows it | evidently intended | confidence | as-written member | corrected member |
|---|---|---|---|---|---|---|
| src/systems/end_turn.rs:10-11 | the amulet's position is unwrapped before anything else, so end-of-turn resolution panics in a world without an amulet; `new` and `reset_game` never spawn the amulet (src/main.rs:48, :115), and `advance_level` spawns it only on level 2 | a new game: the world `[player at start]` holds no amulet (`Game.NewGameLacksAmulet`), so the first end of turn after the player acts fails the unwrap | a world without an amulet is resolved without the victory test | not executed; depends on the end-turn system being scheduled on the first levels, which the model does not show | EndTurnSystem.EndTurn | EndTurnSystem.EndTurnAmuletOptional |
