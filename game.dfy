/**
 * The game session: the entity world, the current map, the turn state and the
 * theme, with the per-frame dispatch on the turn state, the restart from the
 * end screens and the advance to the next level.  Each new level comes from a
 * map builder run whose output the caller supplies.
 */
module Game {
  import opened Prelude
  import opened GridMap
  import opened Themes
  import opened Components
  import opened Spawner
  import opened EndTurnSystem

  /** The map level on which the amulet is placed instead of an exit. */
  const FINAL_LEVEL: int := 2

  /** The output of one map builder run. */
  datatype MapBuilder = MapBuilder(
    tileMap: Map,
    playerStart: Point,
    amuletStart: Point,
    monsterSpawns: seq<Point>,
    theme: Theme)

  /** The index conversion of p succeeds and yields a tile of the map. */
  predicate IndexableTile(p: Point)
  {
    0 <= p.y * SCREEN_WIDTH + p.x < NUM_TILES
  }

  /** What marking the exit on the builder's map needs. */
  predicate Usable(mb: MapBuilder)
  {
    mb.tileMap.Valid() && IndexableTile(mb.amuletStart)
  }

  /** The map with the tile under p turned into an exit. */
  function MarkExit(m: Map, p: Point): Map
    requires m.Valid() && IndexableTile(p)
  {
    m.(tiles := m.tiles[PointToIndex(p) := Exit])
  }

  /** Marking the exit changes exactly the one tile under p, unless it already was an exit. */
  lemma MarkExitChangesOneTile(m: Map, p: Point)
    requires m.Valid() && IndexableTile(p)
    ensures MarkExit(m, p).Valid() && MarkExit(m, p).revealedTiles == m.revealedTiles
    ensures MarkExit(m, p).tiles[PointToIndex(p)] == Exit
    ensures (set i | 0 <= i < NUM_TILES && MarkExit(m, p).tiles[i] != m.tiles[i])
         == (if m.tiles[PointToIndex(p)] == Exit then {} else {PointToIndex(p)})
  {
    var idx := PointToIndex(p);
    var changed := set i | 0 <= i < NUM_TILES && MarkExit(m, p).tiles[i] != m.tiles[i];
    if m.tiles[idx] == Exit {
      assert MarkExit(m, p).tiles == m.tiles;
      assert changed == {};
    } else {
      assert idx in changed;
      assert changed == {idx};
    }
  }

  // ---------------------------------------------------------------------
  // Specification of advancing a level
  // ---------------------------------------------------------------------

  predicate HasPlayer(w: seq<Entity>)
  {
    exists i :: 0 <= i < |w| && w[i].player.Some?
  }

  /** Position of the first entity with a Player component. */
  function FirstPlayerIndex(w: seq<Entity>): (i: nat)
    requires HasPlayer(w)
    ensures i < |w| && w[i].player.Some?
    ensures forall k :: 0 <= k < i ==> w[k].player.None?
  {
    if w[0].player.Some? then 0
    else
      assert HasPlayer(w[1..]) by {
        var j :| 0 <= j < |w| && w[j].player.Some?;
        assert w[1..][j - 1] == w[j];
      }
      1 + FirstPlayerIndex(w[1..])
  }

  function FirstPlayerId(w: seq<Entity>): EntityId
    requires HasPlayer(w)
  {
    w[FirstPlayerIndex(w)].id
  }

  function CarriedIds(w: seq<Entity>, owner: EntityId): set<EntityId>
  {
    set e | e in w && e.carried == Some(owner) :: e.id
  }

  /** The player and everything it carries. */
  function KeepIds(w: seq<Entity>, player: EntityId): set<EntityId>
  {
    {player} + CarriedIds(w, player)
  }

  /** The removal commands queued for the entities not kept. */
  function RemovalIds(w: seq<Entity>, keep: set<EntityId>): set<EntityId>
  {
    set e | e in w && e.id !in keep :: e.id
  }

  /** The world after the queued removals are applied, in the original order. */
  function Flushed(w: seq<Entity>, removed: set<EntityId>): seq<Entity>
  {
    if w == [] then []
    else
      var last := w[|w| - 1];
      Flushed(w[..|w| - 1], removed) + (if last.id in removed then [] else [last])
  }

  /** The entities that survive the pruning step. */
  function Survivors(w: seq<Entity>): seq<Entity>
    requires HasPlayer(w)
  {
    var keep := KeepIds(w, FirstPlayerId(w));
    Flushed(w, RemovalIds(w, keep))
  }

  function MarkDirty(e: Entity): Entity
  {
    if e.fov.Some? then e.(fov := Some(e.fov.value.(isDirty := true))) else e
  }

  function MarkAllDirty(w: seq<Entity>): seq<Entity>
  {
    seq(|w|, k requires 0 <= k < |w| => MarkDirty(w[k]))
  }

  /** The entities the player-position query visits. */
  predicate IsPlacedPlayer(e: Entity)
  {
    e.player.Some? && e.pos.Some?
  }

  function PlacePlayer(e: Entity, start: Point): Entity
  {
    if IsPlacedPlayer(e) then
      e.(player := Some(PlayerData(e.player.value.mapLevel + 1)), pos := Some(start))
    else e
  }

  function PlaceAllPlayers(w: seq<Entity>, start: Point): seq<Entity>
  {
    seq(|w|, k requires 0 <= k < |w| => PlacePlayer(w[k], start))
  }

  /** The level recorded by the player loop: that of the last player it visits, or 0. */
  function LevelAfterMove(w: seq<Entity>): int
  {
    if w == [] then 0
    else
      var last := w[|w| - 1];
      if IsPlacedPlayer(last) then last.player.value.mapLevel + 1 else LevelAfterMove(w[..|w| - 1])
  }

  /** The world after pruning, marking the fields of view and moving the players. */
  function AdvancedEntities(w: seq<Entity>, start: Point): seq<Entity>
    requires HasPlayer(w)
  {
    PlaceAllPlayers(MarkAllDirty(Survivors(w)), start)
  }

  /** The new map level that decides between the amulet and an exit. */
  function ReachedLevel(w: seq<Entity>): int
    requires HasPlayer(w)
  {
    LevelAfterMove(MarkAllDirty(Survivors(w)))
  }

  /** What advancing a level needs: a player to keep, a full map, and an exit tile when one is marked. */
  predicate AdvanceDefined(w: seq<Entity>, mb: MapBuilder)
  {
    HasPlayer(w) && mb.tileMap.Valid() && (ReachedLevel(w) != FINAL_LEVEL ==> IndexableTile(mb.amuletStart))
  }

  // ---------------------------------------------------------------------
  // Properties of advancing a level
  // ---------------------------------------------------------------------

  lemma {:induction false} FlushedMembership(w: seq<Entity>, removed: set<EntityId>)
    ensures forall e :: e in Flushed(w, removed) <==> e in w && e.id !in removed
  {
    if w != [] {
      var prefix := w[..|w| - 1];
      FlushedMembership(prefix, removed);
      assert w == prefix + [w[|w| - 1]];
    }
  }

  lemma {:induction false} FlushedKeepsValid(w: seq<Entity>, removed: set<EntityId>, bound: EntityId)
    requires UniqueIds(w) && IdsBelow(w, bound)
    ensures UniqueIds(Flushed(w, removed)) && IdsBelow(Flushed(w, removed), bound)
  {
    if w != [] {
      var prefix := w[..|w| - 1];
      var last := w[|w| - 1];
      FlushedKeepsValid(prefix, removed, bound);
      FlushedMembership(prefix, removed);
      var f := Flushed(prefix, removed);
      if last.id !in removed {
        forall i | 0 <= i < |f|
          ensures f[i].id != last.id
        {
          assert f[i] in prefix;
          var j :| 0 <= j < |prefix| && prefix[j] == f[i];
          assert w[j] == f[i];
        }
        assert Flushed(w, removed) == f + [last];
      }
    }
  }

  /** The survivors are exactly the first player entity and the entities it carries. */
  lemma SurvivorsExactly(w: seq<Entity>)
    requires UniqueIds(w) && HasPlayer(w)
    ensures forall e :: e in Survivors(w) <==>
      e in w && (e.id == FirstPlayerId(w) || e.carried == Some(FirstPlayerId(w)))
  {
    var pid := FirstPlayerId(w);
    var keep := KeepIds(w, pid);
    var removed := RemovalIds(w, keep);
    FlushedMembership(w, removed);
    forall e | e in w
      ensures e.id in removed <==> !(e.id == pid || e.carried == Some(pid))
    {
      if e.id in CarriedIds(w, pid) {
        var c :| c in w && c.carried == Some(pid) && c.id == e.id;
        SameIdSameEntity(w, c, e);
      }
    }
  }

  /** Pruning keeps the world's identities unique and below the next identity. */
  lemma AdvancedEntitiesValid(w: seq<Entity>, start: Point, bound: EntityId)
    requires UniqueIds(w) && IdsBelow(w, bound) && HasPlayer(w)
    ensures UniqueIds(AdvancedEntities(w, start)) && IdsBelow(AdvancedEntities(w, start), bound)
  {
    var keep := KeepIds(w, FirstPlayerId(w));
    FlushedKeepsValid(w, RemovalIds(w, keep), bound);
  }

  /**
   * Entity by entity, advancing keeps the survivors' identities and carriers,
   * marks every field of view dirty, and moves each player to the start one
   * level deeper; nothing else about an entity changes.
   */
  lemma AdvancedEntityAt(w: seq<Entity>, start: Point, k: nat)
    requires HasPlayer(w) && k < |Survivors(w)|
    ensures |AdvancedEntities(w, start)| == |Survivors(w)|
    ensures var before, after := Survivors(w)[k], AdvancedEntities(w, start)[k];
      && after.id == before.id && after.carried == before.carried
      && after.markers == before.markers && after.health == before.health
      && after.name == before.name && after.render == before.render
      && (before.fov.None? ==> after.fov.None?)
      && (before.fov.Some? ==> after.fov == Some(before.fov.value.(isDirty := true)))
      && (IsPlacedPlayer(before) ==>
            after.pos == Some(start) && after.player == Some(PlayerData(before.player.value.mapLevel + 1)))
      && (!IsPlacedPlayer(before) ==> after.pos == before.pos && after.player == before.player)
  {
  }

  lemma {:induction false} LevelAfterMoveSingle(w: seq<Entity>, p: Entity)
    requires p in w && IsPlacedPlayer(p)
    requires forall e :: e in w && IsPlacedPlayer(e) ==> e == p
    ensures LevelAfterMove(w) == p.player.value.mapLevel + 1
  {
    var last := w[|w| - 1];
    if !IsPlacedPlayer(last) {
      var prefix := w[..|w| - 1];
      assert w == prefix + [last];
      LevelAfterMoveSingle(prefix, p);
    }
  }

  /**
   * When the first player has a position and carries no other player, the new
   * level is its old level plus one: every other player is pruned first.
   */
  lemma SinglePlayerReachesNextLevel(w: seq<Entity>)
    requires UniqueIds(w) && HasPlayer(w)
    requires w[FirstPlayerIndex(w)].pos.Some?
    requires forall e :: e in w && e.carried == Some(FirstPlayerId(w)) && e.id != FirstPlayerId(w) ==> e.player.None?
    ensures ReachedLevel(w) == w[FirstPlayerIndex(w)].player.value.mapLevel + 1
  {
    var player := w[FirstPlayerIndex(w)];
    var survivors := Survivors(w);
    var marked := MarkAllDirty(survivors);
    SurvivorsExactly(w);
    assert player in survivors;
    var k :| 0 <= k < |survivors| && survivors[k] == player;
    assert marked[k] == MarkDirty(player);
    forall e | e in marked && IsPlacedPlayer(e)
      ensures e == MarkDirty(player)
    {
      var j :| 0 <= j < |marked| && marked[j] == e;
      var s := survivors[j];
      assert s in survivors && s.player.Some?;
      if s.id == player.id {
        SameIdSameEntity(w, s, player);
      }
    }
    LevelAfterMoveSingle(marked, MarkDirty(player));
  }

  /** Advancing to the final level puts an amulet into the world, so end-of-turn resolution can find it. */
  lemma FinalLevelHasAmulet(w: seq<Entity>, start: Point, id: EntityId, amuletStart: Point)
    requires HasPlayer(w)
    ensures var world := AdvancedEntities(w, start) + [AmuletRecord(id, amuletStart)];
      |AmuletPositions(world)| > 0
      && AmuletPositions(world)[|AmuletPositions(world)| - 1] == amuletStart
  {
    AmuletPositionsAppend(AdvancedEntities(w, start), [AmuletRecord(id, amuletStart)]);
  }

  /** The pruning, marking and moving steps, applied one after another, give the advanced world. */
  lemma AdvanceStepsCompose(w0: seq<Entity>, keep: set<EntityId>, commands: set<EntityId>,
                            flushed: seq<Entity>, start: Point)
    requires HasPlayer(w0) && keep == KeepIds(w0, FirstPlayerId(w0))
    requires commands == RemovalIds(w0, keep) && flushed == Flushed(w0, commands)
    ensures flushed == Survivors(w0)
    ensures PlaceAllPlayers(MarkAllDirty(flushed), start) == AdvancedEntities(w0, start)
    ensures LevelAfterMove(MarkAllDirty(flushed)) == ReachedLevel(w0)
  {
  }

  /** A freshly started game holds the player and nothing else, in particular no amulet. */
  lemma NewGameLacksAmulet(pos: Point)
    ensures AmuletPositions([PlayerRecord(0, pos)]) == []
    ensures PlayerViews([PlayerRecord(0, pos)]) == [PlayerView(20, pos)]
  {
  }

  /** The spawned player is seen by end-of-turn resolution alive at its position; monsters are not players. */
  lemma SpawnsSeenByEndTurn(w: seq<Entity>, id: EntityId, pos: Point, roll: int)
    ensures PlayerViews(w + [PlayerRecord(id, pos)]) == PlayerViews(w) + [PlayerView(20, pos)]
    ensures PlayerViews(w + [MonsterRecord(id, pos, roll)]) == PlayerViews(w)
    ensures AmuletPositions(w + [MonsterRecord(id, pos, roll)]) == AmuletPositions(w)
    ensures AmuletPositions(w + [AmuletRecord(id, pos)]) == AmuletPositions(w) + [pos]
  {
    var player, monster, amulet := PlayerRecord(id, pos), MonsterRecord(id, pos, roll), AmuletRecord(id, pos);
    assert PlayerViews([player]) == [PlayerView(20, pos)] by {
      assert [player][1..] == [];
    }
    assert PlayerViews([monster]) == [] && AmuletPositions([monster]) == [] by {
      assert [monster][1..] == [];
    }
    assert AmuletPositions([amulet]) == [pos] by {
      assert [amulet][1..] == [];
    }
    PlayerViewsAppend(w, [player]);
    PlayerViewsAppend(w, [monster]);
    AmuletPositionsAppend(w, [monster]);
    AmuletPositionsAppend(w, [amulet]);
  }

  // ---------------------------------------------------------------------
  // The dispatch of one frame
  // ---------------------------------------------------------------------

  /** What one frame runs. */
  datatype Handler = RunInputSystems | RunPlayerSystems | RunMonsterSystems | ShowGameOver | ShowVictory | RunAdvanceLevel

  function Dispatch(s: TurnState): Handler
  {
    match s
    case AwaitingInput => RunInputSystems
    case PlayerTurn => RunPlayerSystems
    case MonsterTurn => RunMonsterSystems
    case GameOver => ShowGameOver
    case Victory => ShowVictory
    case NextLevel => RunAdvanceLevel
  }

  /** The turn state whose frames run h. */
  function HandledState(h: Handler): TurnState
  {
    match h
    case RunInputSystems => AwaitingInput
    case RunPlayerSystems => PlayerTurn
    case RunMonsterSystems => MonsterTurn
    case ShowGameOver => GameOver
    case ShowVictory => Victory
    case RunAdvanceLevel => NextLevel
  }

  /** Every turn state has its own handler and every handler serves one turn state. */
  lemma DispatchIsOneToOne(s: TurnState, h: Handler)
    ensures HandledState(Dispatch(s)) == s
    ensures Dispatch(HandledState(h)) == h
  {
  }

  predicate RunsSchedule(h: Handler)
  {
    h == RunInputSystems || h == RunPlayerSystems || h == RunMonsterSystems
  }

  /**
   * What one run of the input, player or monster schedule leaves behind: the
   * world's entities and next identity, the map, the turn state and the theme.
   */
  datatype ScheduleOutcome = ScheduleOutcome(
    entities: seq<Entity>,
    nextId: EntityId,
    tileMap: Map,
    turnState: TurnState,
    theme: Theme)

  /** A schedule leaves a world of unique identities below the next one, and a full map. */
  predicate OutcomeValid(o: ScheduleOutcome)
  {
    UniqueIds(o.entities) && IdsBelow(o.entities, o.nextId) && o.tileMap.Valid()
  }

  // ---------------------------------------------------------------------
  // Steps of advancing a level, on the world
  // ---------------------------------------------------------------------

  /** The set of entities to keep: the player and every entity it carries. */
  method CollectKept(w: seq<Entity>, player: EntityId) returns (keep: set<EntityId>)
    ensures keep == KeepIds(w, player)
    ensures forall id :: id in keep <==>
      id == player || exists e :: e in w && e.carried == Some(player) && e.id == id
  {
    keep := {player};
    for i := 0 to |w|
      invariant keep == {player} + CarriedIds(w[..i], player)
    {
      assert w[..i + 1] == w[..i] + [w[i]];
      if w[i].carried == Some(player) {
        keep := keep + {w[i].id};
      }
    }
    assert w[..|w|] == w;
  }

  /** The removal commands: one for each entity not in keep. */
  method QueueRemovals(w: seq<Entity>, keep: set<EntityId>) returns (commands: set<EntityId>)
    ensures commands == RemovalIds(w, keep)
    ensures forall e :: e in w ==> (e.id in commands <==> e.id !in keep)
  {
    commands := {};
    for i := 0 to |w|
      invariant commands == RemovalIds(w[..i], keep)
    {
      assert w[..i + 1] == w[..i] + [w[i]];
      if w[i].id !in keep {
        commands := commands + {w[i].id};
      }
    }
    assert w[..|w|] == w;
  }

  /** Applies the removal commands after the iteration that queued them has finished. */
  method Flush(ecs: World, commands: set<EntityId>)
    requires ecs.Valid()
    modifies ecs
    ensures ecs.Valid() && ecs.nextId == old(ecs.nextId)
    ensures ecs.entities == Flushed(old(ecs.entities), commands)
    ensures forall e :: e in ecs.entities <==> e in old(ecs.entities) && e.id !in commands
  {
    var w := ecs.entities;
    var kept: seq<Entity> := [];
    for i := 0 to |w|
      invariant kept == Flushed(w[..i], commands)
    {
      assert w[..i + 1][..i] == w[..i];
      if w[i].id !in commands {
        kept := kept + [w[i]];
      }
    }
    assert w[..|w|] == w;
    FlushedMembership(w, commands);
    FlushedKeepsValid(w, commands, ecs.nextId);
    ecs.entities := kept;
  }

  /** Marks every field of view dirty, in place. */
  method MarkFieldsOfViewDirty(ecs: World)
    requires ecs.Valid()
    modifies ecs
    ensures ecs.Valid() && ecs.nextId == old(ecs.nextId)
    ensures ecs.entities == MarkAllDirty(old(ecs.entities))
  {
    ghost var w := ecs.entities;
    for i := 0 to |ecs.entities|
      invariant |ecs.entities| == |w| && ecs.nextId == old(ecs.nextId)
      invariant forall k :: 0 <= k < i ==> ecs.entities[k] == MarkDirty(w[k])
      invariant forall k :: i <= k < |w| ==> ecs.entities[k] == w[k]
    {
      var e := ecs.entities[i];
      if e.fov.Some? {
        ecs.entities := ecs.entities[i := e.(fov := Some(e.fov.value.(isDirty := true)))];
      }
    }
    assert ecs.entities == MarkAllDirty(w);
  }

  /** Moves every player to start one level deeper; returns the level of the last one visited, or 0. */
  method MovePlayers(ecs: World, start: Point) returns (mapLevel: int)
    requires ecs.Valid()
    modifies ecs
    ensures ecs.Valid() && ecs.nextId == old(ecs.nextId)
    ensures ecs.entities == PlaceAllPlayers(old(ecs.entities), start)
    ensures mapLevel == LevelAfterMove(old(ecs.entities))
  {
    ghost var w := ecs.entities;
    mapLevel := 0;
    for i := 0 to |ecs.entities|
      invariant |ecs.entities| == |w| && ecs.nextId == old(ecs.nextId)
      invariant forall k :: 0 <= k < i ==> ecs.entities[k] == PlacePlayer(w[k], start)
      invariant forall k :: i <= k < |w| ==> ecs.entities[k] == w[k]
      invariant mapLevel == LevelAfterMove(w[..i])
    {
      assert w[..i + 1][..i] == w[..i];
      var e := ecs.entities[i];
      if e.player.Some? && e.pos.Some? {
        var level := e.player.value.mapLevel + 1;
        mapLevel := level;
        ecs.entities := ecs.entities[i := e.(player := Some(PlayerData(level)), pos := Some(start))];
      }
    }
    assert w[..|w|] == w;
    assert ecs.entities == PlaceAllPlayers(w, start);
  }

  /**
   * The world steps of advancing a level: keep the first player and what it
   * carries, mark every field of view dirty and move the players to start;
   * returns the level the player loop recorded.
   */
  method AdvanceWorld(ecs: World, start: Point) returns (mapLevel: int)
    requires ecs.Valid() && HasPlayer(ecs.entities)
    modifies ecs
    ensures ecs.Valid() && ecs.nextId == old(ecs.nextId)
    ensures ecs.entities == AdvancedEntities(old(ecs.entities), start)
    ensures mapLevel == ReachedLevel(old(ecs.entities))
  {
    var w0 := ecs.entities;
    var player := w0[FirstPlayerIndex(w0)].id;
    var entitiesToKeep := CollectKept(w0, player);
    var commands := QueueRemovals(w0, entitiesToKeep);
    Flush(ecs, commands);
    ghost var flushed := ecs.entities;
    MarkFieldsOfViewDirty(ecs);
    mapLevel := MovePlayers(ecs, start);
    AdvanceStepsCompose(w0, entitiesToKeep, commands, flushed, start);
  }

  /** The world and map a game starts from: the player alone at its start, the exit marked. */
  method StartGame(mb: MapBuilder) returns (world: World, m: Map)
    requires Usable(mb)
    ensures fresh(world) && world.Valid()
    ensures world.entities == [PlayerRecord(0, mb.playerStart)] && world.nextId == 1
    ensures m == MarkExit(mb.tileMap, mb.amuletStart)
  {
    world := new World();
    SpawnPlayer(world, mb.playerStart);
    m := mb.tileMap;
    var exitIdx := PointToIndex(mb.amuletStart);
    m := m.(tiles := m.tiles[exitIdx := Exit]);
  }

  // ---------------------------------------------------------------------
  // The session
  // ---------------------------------------------------------------------

  class State {
    var ecs: World
    var tileMap: Map
    var turnState: TurnState
    var theme: Theme

    ghost predicate Valid()
      reads this, ecs
    {
      ecs.Valid() && tileMap.Valid()
    }

    /** The state of a new game: the player alone at the start, the exit marked, awaiting input. */
    ghost predicate IsFreshGame(mb: MapBuilder)
      reads this, ecs
      requires Usable(mb)
    {
      && ecs.entities == [PlayerRecord(0, mb.playerStart)] && ecs.nextId == 1
      && tileMap == MarkExit(mb.tileMap, mb.amuletStart)
      && turnState == AwaitingInput && theme == mb.theme
    }

    /** The state reached by advancing from world w0, whose next identity was id0. */
    ghost predicate IsAdvancedFrom(w0: seq<Entity>, id0: EntityId, mb: MapBuilder)
      reads this, ecs
      requires AdvanceDefined(w0, mb)
    {
      var final := ReachedLevel(w0) == FINAL_LEVEL;
      && ecs.entities == AdvancedEntities(w0, mb.playerStart)
                         + (if final then [AmuletRecord(id0, mb.amuletStart)] else [])
      && ecs.nextId == (if final then id0 + 1 else id0)
      && tileMap == (if final then mb.tileMap else MarkExit(mb.tileMap, mb.amuletStart))
      && turnState == AwaitingInput && theme == mb.theme
    }

    constructor (mb: MapBuilder)
      requires Usable(mb)
      ensures Valid() && fresh(ecs) && IsFreshGame(mb)
    {
      var world, m := StartGame(mb);
      ecs := world;
      tileMap := m;
      turnState := AwaitingInput;
      theme := mb.theme;
    }

    method ResetGame(mb: MapBuilder)
      requires Usable(mb)
      modifies this
      ensures Valid() && fresh(ecs) && IsFreshGame(mb)
    {
      var world, m := StartGame(mb);
      ecs := world;
      tileMap := m;
      turnState := AwaitingInput;
      theme := mb.theme;
    }

    /** The game-over and victory screens: Escape restarts the game, any other key changes nothing. */
    method AwaitRestart(key: Option<Key>, mb: MapBuilder)
      requires Valid() && (key == Some(Escape) ==> Usable(mb))
      modifies this
      ensures Valid()
      ensures key == Some(Escape) ==> fresh(ecs) && IsFreshGame(mb)
      ensures key != Some(Escape) ==> unchanged(this)
    {
      if key == Some(Escape) {
        ResetGame(mb);
      }
    }

    method AdvanceLevel(mb: MapBuilder)
      requires Valid() && AdvanceDefined(ecs.entities, mb)
      modifies this, ecs
      ensures Valid() && ecs == old(ecs)
      ensures IsAdvancedFrom(old(ecs.entities), old(ecs.nextId), mb)
    {
      var mapLevel := AdvanceWorld(ecs, mb.playerStart);
      var m := mb.tileMap;
      if mapLevel == FINAL_LEVEL {
        SpawnAmuletOfYala(ecs, mb.amuletStart);
      } else {
        var exitIdx := PointToIndex(mb.amuletStart);
        m := m.(tiles := m.tiles[exitIdx := Exit]);
      }
      tileMap := m;
      turnState := AwaitingInput;
      theme := mb.theme;
    }

    /** Installs what a schedule run left behind, keeping the same world object. */
    method InstallOutcome(o: ScheduleOutcome)
      requires OutcomeValid(o)
      modifies this, ecs
      ensures Valid() && ecs == old(ecs)
      ensures ecs.entities == o.entities && ecs.nextId == o.nextId
      ensures tileMap == o.tileMap && turnState == o.turnState && theme == o.theme
    {
      ecs.entities := o.entities;
      ecs.nextId := o.nextId;
      tileMap := o.tileMap;
      turnState := o.turnState;
      theme := o.theme;
    }

    /**
     * One frame: runs the handler of the current turn state and no other.  The
     * systems of the input, player and monster schedules are not modelled; what
     * their run leaves behind is the parameter scheduled, which those frames
     * install.
     */
    method Tick(key: Option<Key>, mb: MapBuilder, scheduled: ScheduleOutcome) returns (handler: Handler)
      requires Valid()
      requires RunsSchedule(Dispatch(turnState)) ==> OutcomeValid(scheduled)
      requires turnState == NextLevel ==> AdvanceDefined(ecs.entities, mb)
      requires (turnState == GameOver || turnState == Victory) && key == Some(Escape) ==> Usable(mb)
      modifies this, ecs
      ensures Valid()
      ensures handler == Dispatch(old(turnState))
      ensures RunsSchedule(handler) ==>
        && ecs == old(ecs) && ecs.entities == scheduled.entities && ecs.nextId == scheduled.nextId
        && tileMap == scheduled.tileMap && turnState == scheduled.turnState && theme == scheduled.theme
      ensures (handler == ShowGameOver || handler == ShowVictory) && key == Some(Escape) ==>
        fresh(ecs) && IsFreshGame(mb)
      ensures (handler == ShowGameOver || handler == ShowVictory) && key != Some(Escape) ==>
        unchanged(this) && unchanged(old(ecs))
      ensures handler == RunAdvanceLevel ==>
        ecs == old(ecs) && IsAdvancedFrom(old(ecs.entities), old(ecs.nextId), mb)
    {
      handler := Dispatch(turnState);
      match turnState
      case AwaitingInput => InstallOutcome(scheduled);
      case PlayerTurn => InstallOutcome(scheduled);
      case MonsterTurn => InstallOutcome(scheduled);
      case GameOver => AwaitRestart(key, mb);
      case Victory => AwaitRestart(key, mb);
      case NextLevel => AdvanceLevel(mb);
    }
  }
}
