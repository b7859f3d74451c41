/**
 * Entity constructors.  Each spawn adds exactly one entity to the world and
 * leaves the existing entities as they were.  The monster choice depends on a
 * ten-sided die roll, which the caller supplies.
 */
module Spawner {
  import opened Prelude
  import opened Components

  /** The amulet: an item named "Amulet of Yala", drawn as '|'. */
  function AmuletRecord(id: EntityId, pos: Point): (e: Entity)
    ensures e.id == id && e.pos == Some(pos)
    ensures e.markers == {Item, AmuletOfYala} && e.name == Some("Amulet of Yala")
    ensures e.player.None? && e.health.None? && e.carried.None?
  {
    Bare(id).(markers := {Item, AmuletOfYala}, pos := Some(pos),
              render := Some(Render(ToCp437('|'))), name := Some("Amulet of Yala"))
  }

  /** The player: map level 0, drawn as '@', 20 of 20 hit points, seeing 8 tiles far. */
  function PlayerRecord(id: EntityId, pos: Point): (e: Entity)
    ensures e.id == id && e.pos == Some(pos) && e.player == Some(PlayerData(0))
    ensures e.health == Some(Health(20, 20)) && e.fov == Some(NewFieldOfView(8))
    ensures e.markers == {} && e.carried.None?
  {
    Bare(id).(player := Some(PlayerData(0)), pos := Some(pos), render := Some(Render(ToCp437('@'))),
              health := Some(Health(20, 20)), fov := Some(NewFieldOfView(8)))
  }

  datatype MonsterStats = MonsterStats(hp: int, name: string, glyph: nat)

  function Goblin(): MonsterStats
  {
    MonsterStats(1, "Goblin", ToCp437('g'))
  }

  function Orc(): MonsterStats
  {
    MonsterStats(2, "Orc", ToCp437('o'))
  }

  /** Rolls 1 to 8 give a goblin; every other roll gives an orc. */
  function MonsterForRoll(roll: int): MonsterStats
  {
    if 1 <= roll <= 8 then Goblin() else Orc()
  }

  /** On a ten-sided die, 1..8 means a goblin (1 hp, 'g') and 9 or 10 an orc (2 hp, 'o'). */
  lemma MonsterForD10(roll: int)
    requires 1 <= roll <= 10
    ensures roll <= 8 ==> MonsterForRoll(roll) == MonsterStats(1, "Goblin", 'g' as nat)
    ensures roll >= 9 ==> MonsterForRoll(roll) == MonsterStats(2, "Orc", 'o' as nat)
  {
  }

  /** Eight of the ten faces of the die give a goblin, the other two an orc. */
  lemma GoblinOdds()
    ensures |set r | 1 <= r <= 10 && MonsterForRoll(r) == Goblin()| == 8
    ensures |set r | 1 <= r <= 10 && MonsterForRoll(r) == Orc()| == 2
  {
    assert Goblin() != Orc();
    assert (set r | 1 <= r <= 10 && MonsterForRoll(r) == Goblin()) == {1, 2, 3, 4, 5, 6, 7, 8};
    assert (set r | 1 <= r <= 10 && MonsterForRoll(r) == Orc()) == {9, 10};
  }

  /** A monster chasing the player, with full health of the rolled kind, seeing 6 tiles far. */
  function MonsterRecord(id: EntityId, pos: Point, roll: int): (e: Entity)
    ensures e.id == id && e.pos == Some(pos) && e.markers == {Enemy, ChasingPlayer}
    ensures e.health.Some? && e.health.value.current == e.health.value.max == MonsterForRoll(roll).hp
    ensures e.render == Some(Render(MonsterForRoll(roll).glyph)) && e.name == Some(MonsterForRoll(roll).name)
    ensures e.fov == Some(NewFieldOfView(6)) && e.player.None? && e.carried.None?
  {
    var stats := MonsterForRoll(roll);
    Bare(id).(markers := {Enemy, ChasingPlayer}, pos := Some(pos), render := Some(Render(stats.glyph)),
              health := Some(Health(stats.hp, stats.hp)), name := Some(stats.name),
              fov := Some(NewFieldOfView(6)))
  }

  method SpawnAmuletOfYala(ecs: World, pos: Point)
    requires ecs.Valid()
    modifies ecs
    ensures ecs.Valid() && ecs.nextId == old(ecs.nextId) + 1
    ensures ecs.entities == old(ecs.entities) + [AmuletRecord(old(ecs.nextId), pos)]
  {
    var _ := ecs.Push(AmuletRecord(0, pos));
  }

  method SpawnPlayer(ecs: World, pos: Point)
    requires ecs.Valid()
    modifies ecs
    ensures ecs.Valid() && ecs.nextId == old(ecs.nextId) + 1
    ensures ecs.entities == old(ecs.entities) + [PlayerRecord(old(ecs.nextId), pos)]
  {
    var _ := ecs.Push(PlayerRecord(0, pos));
  }

  /** `roll` is the result of rolling one ten-sided die. */
  method SpawnMonster(ecs: World, pos: Point, roll: int)
    requires ecs.Valid()
    modifies ecs
    ensures ecs.Valid() && ecs.nextId == old(ecs.nextId) + 1
    ensures ecs.entities == old(ecs.entities) + [MonsterRecord(old(ecs.nextId), pos, roll)]
  {
    var _ := ecs.Push(MonsterRecord(0, pos, roll));
  }
}
