/**
 * Entity records and the entity world.  An entity is an identity owning a
 * set of optional components; the world holds the live entities in
 * iteration order and hands out fresh identities.
 */
module Components {
  import opened Prelude

  type EntityId = nat

  /** Components that carry no data. */
  datatype Marker = Enemy | ChasingPlayer | Item | AmuletOfYala

  datatype Health = Health(current: int, max: int)

  datatype FieldOfView = FieldOfView(visibleTiles: set<Point>, radius: int, isDirty: bool)

  /** A field of view that has seen nothing yet and must be computed. */
  function NewFieldOfView(radius: int): FieldOfView
  {
    FieldOfView({}, radius, true)
  }

  datatype Render = Render(glyph: nat)

  datatype PlayerData = PlayerData(mapLevel: int)

  datatype Entity = Entity(
    id: EntityId,
    player: Option<PlayerData>,
    markers: set<Marker>,
    pos: Option<Point>,
    render: Option<Render>,
    health: Option<Health>,
    name: Option<string>,
    fov: Option<FieldOfView>,
    carried: Option<EntityId>)

  /** An entity with no components but its identity: the base of every spawn. */
  function Bare(id: EntityId): Entity
  {
    Entity(id, None, {}, None, None, None, None, None, None)
  }

  predicate UniqueIds(w: seq<Entity>)
  {
    forall i, j :: 0 <= i < |w| && 0 <= j < |w| && i != j ==> w[i].id != w[j].id
  }

  predicate IdsBelow(w: seq<Entity>, bound: EntityId)
  {
    forall i :: 0 <= i < |w| ==> w[i].id < bound
  }

  /** Two entities of a world with unique identities are the same entity when their identities agree. */
  lemma SameIdSameEntity(w: seq<Entity>, a: Entity, b: Entity)
    requires UniqueIds(w) && a in w && b in w && a.id == b.id
    ensures a == b
  {
  }

  class World {
    var entities: seq<Entity>
    var nextId: EntityId

    ghost predicate Valid()
      reads this
    {
      UniqueIds(entities) && IdsBelow(entities, nextId)
    }

    /** The empty world. */
    constructor ()
      ensures Valid() && entities == [] && nextId == 0
    {
      entities := [];
      nextId := 0;
    }

    /** Adds one entity built from `e` under a fresh identity, which it returns. */
    method Push(e: Entity) returns (id: EntityId)
      requires Valid()
      modifies this
      ensures Valid()
      ensures id == old(nextId) && nextId == old(nextId) + 1
      ensures entities == old(entities) + [e.(id := id)]
    {
      id := nextId;
      entities := entities + [e.(id := id)];
      nextId := nextId + 1;
    }
  }
}
