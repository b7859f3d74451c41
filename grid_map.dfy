/**
 * The tile map: an 80 x 50 grid stored row by row, with the predicates and
 * the neighbour enumeration that field-of-view and path finding use.
 */
module GridMap {
  import opened Prelude

  /** One tile per grid cell. */
  const NUM_TILES: nat := 4000

  /** `as usize` on a 64-bit target reduces the value modulo 2^64. */
  const USIZE_MODULUS: int := 0x1_0000_0000_0000_0000

  /** Exit is assigned by the game session; the map's own predicates treat it like a wall. */
  datatype TileType = Wall | Floor | Exit

  datatype Map = Map(tiles: seq<TileType>, revealedTiles: seq<bool>) {
    /** Both vectors have one entry per tile, as `Map::new` allocates them. */
    predicate Valid()
    {
      |tiles| == NUM_TILES && |revealedTiles| == NUM_TILES
    }
  }

  lemma NumTilesIsGridSize()
    ensures NUM_TILES == SCREEN_WIDTH * SCREEN_HEIGHT
  {
  }

  /** Row-major index of (x, y); a negative sum wraps around in the unsigned cast. */
  function MapIdx(x: int, y: int): (idx: nat)
    ensures idx < USIZE_MODULUS
    ensures 0 <= y * SCREEN_WIDTH + x < USIZE_MODULUS ==> idx == y * SCREEN_WIDTH + x
  {
    (y * SCREEN_WIDTH + x) % USIZE_MODULUS
  }

  /** A map of floor tiles, none of them revealed yet. */
  function NewMap(): (m: Map)
    ensures m.Valid()
    ensures forall i :: 0 <= i < NUM_TILES ==> m.tiles[i] == Floor && !m.revealedTiles[i]
  {
    Map(seq(NUM_TILES, _ => Floor), seq(NUM_TILES, _ => false))
  }

  predicate InBounds(p: Point)
  {
    0 <= p.x < SCREEN_WIDTH && 0 <= p.y < SCREEN_HEIGHT
  }

  /** Grid points inside the map index tiles that exist. */
  lemma MapIdxInBounds(p: Point)
    requires InBounds(p)
    ensures MapIdx(p.x, p.y) == p.y * SCREEN_WIDTH + p.x < NUM_TILES
  {
  }

  predicate CanEnterTile(m: Map, p: Point)
    requires m.Valid()
  {
    InBounds(p) && (MapIdxInBounds(p); m.tiles[MapIdx(p.x, p.y)] == Floor)
  }

  function TryIdx(p: Point): (r: Option<nat>)
    ensures r.None? <==> !InBounds(p)
    ensures r.Some? ==> r.value < NUM_TILES && IndexToPoint(r.value) == p
  {
    if !InBounds(p) then
      None
    else
      MapIdxInBounds(p);
      PointRoundTrip(p);
      Some(MapIdx(p.x, p.y))
  }

  function Dimensions(): (d: Point)
    ensures d.x == SCREEN_WIDTH && d.y == SCREEN_HEIGHT
    ensures d.x * d.y == NUM_TILES
  {
    Point(SCREEN_WIDTH, SCREEN_HEIGHT)
  }

  /** The conversion fails (panics) when the index would be negative. */
  function PointToIndex(p: Point): nat
    requires p.y * SCREEN_WIDTH + p.x >= 0
  {
    var bounds := Dimensions();
    p.y * bounds.x + p.x
  }

  function IndexToPoint(idx: nat): Point
  {
    var w := Dimensions().x;
    Point(idx % w, idx / w)
  }

  /** Every index converts to a point and back unchanged (on unbounded integers; see the README on i32 overflow). */
  lemma IndexRoundTrip(idx: nat)
    ensures var p := IndexToPoint(idx);
      0 <= p.x < SCREEN_WIDTH && p.y >= 0 && PointToIndex(p) == idx
    ensures InBounds(IndexToPoint(idx)) <==> idx < NUM_TILES
  {
  }

  /** Every in-bounds point converts to a tile index and back unchanged. */
  lemma PointRoundTrip(p: Point)
    requires InBounds(p)
    ensures PointToIndex(p) < NUM_TILES && PointToIndex(p) == MapIdx(p.x, p.y)
    ensures IndexToPoint(PointToIndex(p)) == p
  {
    var i := p.y * SCREEN_WIDTH + p.x;
    assert i / SCREEN_WIDTH == p.y && i % SCREEN_WIDTH == p.x by {
      DivModUnique(i, p.y, p.x);
    }
  }

  lemma DivModUnique(i: int, q: int, r: int)
    requires 0 <= r < SCREEN_WIDTH && i == q * SCREEN_WIDTH + r
    ensures i / SCREEN_WIDTH == q && i % SCREEN_WIDTH == r
  {
  }

  /** Distinct in-bounds points have distinct tile indices. */
  lemma MapIdxInjective(p: Point, q: Point)
    requires InBounds(p) && InBounds(q) && MapIdx(p.x, p.y) == MapIdx(q.x, q.y)
    ensures p == q
  {
    PointRoundTrip(p);
    PointRoundTrip(q);
  }

  /** The tile index of the destination `loc + delta` when that tile can be entered. */
  function ValidExit(m: Map, loc: Point, delta: Point): (r: Option<nat>)
    requires m.Valid()
    ensures r.Some? <==> CanEnterTile(m, Add(loc, delta))
    ensures r.Some? ==> r.value < NUM_TILES && IndexToPoint(r.value) == Add(loc, delta)
  {
    var destination := Add(loc, delta);
    if CanEnterTile(m, destination) then
      PointRoundTrip(destination);
      Some(PointToIndex(destination))
    else
      None
  }

  /** The exit directions, in the order they are tried: left, right, up, down. */
  const EXIT_DELTAS: seq<Point> := [Point(-1, 0), Point(1, 0), Point(0, -1), Point(0, 1)]

  /** Position in EXIT_DELTAS of the step from loc to dest, or 4 when dest is not an orthogonal neighbour. */
  function DirectionOf(loc: Point, dest: Point): (k: nat)
    ensures k <= 4
    ensures k < 4 ==> Add(loc, EXIT_DELTAS[k]) == dest
    ensures k == 4 ==> forall j :: 0 <= j < 4 ==> Add(loc, EXIT_DELTAS[j]) != dest
  {
    if Add(loc, EXIT_DELTAS[0]) == dest then 0
    else if Add(loc, EXIT_DELTAS[1]) == dest then 1
    else if Add(loc, EXIT_DELTAS[2]) == dest then 2
    else if Add(loc, EXIT_DELTAS[3]) == dest then 3
    else 4
  }

  /**
   * The enterable orthogonal neighbours of tile idx, each with cost 1:
   * every one is listed, none twice, in the order left, right, up, down.
   */
  method GetAvailableExits(m: Map, idx: nat) returns (exits: seq<(nat, real)>)
    requires m.Valid()
    ensures |exits| <= 4
    ensures forall j :: 0 <= j < |exits| ==> exits[j].1 == 1.0
    ensures forall j :: 0 <= j < |exits| ==>
      exits[j].0 < NUM_TILES
      && DirectionOf(IndexToPoint(idx), IndexToPoint(exits[j].0)) < 4
      && CanEnterTile(m, IndexToPoint(exits[j].0))
    ensures forall i, j :: 0 <= i < j < |exits| ==>
      DirectionOf(IndexToPoint(idx), IndexToPoint(exits[i].0))
        < DirectionOf(IndexToPoint(idx), IndexToPoint(exits[j].0))
    ensures forall k :: 0 <= k < 4 && CanEnterTile(m, Add(IndexToPoint(idx), EXIT_DELTAS[k])) ==>
      exists j :: 0 <= j < |exits| && IndexToPoint(exits[j].0) == Add(IndexToPoint(idx), EXIT_DELTAS[k])
  {
    var location := IndexToPoint(idx);
    exits := [];
    ghost var dirs: seq<nat> := [];
    exits, dirs := PushExit(m, location, exits, dirs, 0);
    exits, dirs := PushExit(m, location, exits, dirs, 1);
    exits, dirs := PushExit(m, location, exits, dirs, 2);
    exits, dirs := PushExit(m, location, exits, dirs, 3);
    ExitsComplete(m, idx, exits, dirs);
  }

  /** One probe: pushes the exit towards EXIT_DELTAS[k], with cost 1, when it can be entered. */
  method PushExit(m: Map, location: Point, exits: seq<(nat, real)>, ghost dirs: seq<nat>, k: nat)
    returns (exits': seq<(nat, real)>, ghost dirs': seq<nat>)
    requires m.Valid() && k < 4 && ExitsUpTo(m, location, exits, dirs, k)
    ensures var e := ValidExit(m, location, EXIT_DELTAS[k]);
      exits' == if e.Some? then exits + [(e.value, 1.0)] else exits
    ensures ExitsUpTo(m, location, exits', dirs', k + 1)
  {
    ExitStep(m, location, exits, dirs, k);
    exits', dirs' := exits, dirs;
    var e := ValidExit(m, location, EXIT_DELTAS[k]);
    if e.Some? {
      exits', dirs' := exits + [(e.value, 1.0)], dirs + [k];
    }
  }

  /**
   * exits lists, with cost 1, the enterable neighbours of loc in the first k
   * directions of EXIT_DELTAS, dirs[j] being the direction of exits[j].
   */
  ghost predicate ExitsUpTo(m: Map, loc: Point, exits: seq<(nat, real)>, dirs: seq<nat>, k: nat)
    requires m.Valid()
  {
    && |exits| == |dirs|
    && (forall j :: 0 <= j < |dirs| ==> dirs[j] < k && dirs[j] < 4)
    && (forall j :: 0 <= j < |exits| ==>
          exits[j].1 == 1.0 && exits[j].0 < NUM_TILES
          && IndexToPoint(exits[j].0) == Add(loc, EXIT_DELTAS[dirs[j]])
          && CanEnterTile(m, IndexToPoint(exits[j].0)))
    && (forall i, j :: 0 <= i < j < |dirs| ==> dirs[i] < dirs[j])
    && (forall d :: 0 <= d < k && d < 4 && CanEnterTile(m, Add(loc, EXIT_DELTAS[d])) ==>
          exists j :: 0 <= j < |dirs| && dirs[j] == d)
  }

  lemma ExitStep(m: Map, loc: Point, exits: seq<(nat, real)>, dirs: seq<nat>, k: nat)
    requires m.Valid() && k < 4 && ExitsUpTo(m, loc, exits, dirs, k)
    ensures var e := ValidExit(m, loc, EXIT_DELTAS[k]);
      if e.Some? then ExitsUpTo(m, loc, exits + [(e.value, 1.0)], dirs + [k], k + 1)
      else ExitsUpTo(m, loc, exits, dirs, k + 1)
  {
    var e := ValidExit(m, loc, EXIT_DELTAS[k]);
    if e.Some? {
      var exits', dirs' := exits + [(e.value, 1.0)], dirs + [k];
      forall d | 0 <= d < k + 1 && d < 4 && CanEnterTile(m, Add(loc, EXIT_DELTAS[d]))
        ensures exists j :: 0 <= j < |dirs'| && dirs'[j] == d
      {
        if d == k {
          assert dirs'[|dirs|] == d;
        } else {
          var j :| 0 <= j < |dirs| && dirs[j] == d;
          assert dirs'[j] == d;
        }
      }
    }
  }

  lemma ExitsComplete(m: Map, idx: nat, exits: seq<(nat, real)>, dirs: seq<nat>)
    requires m.Valid() && ExitsUpTo(m, IndexToPoint(idx), exits, dirs, 4)
    ensures |exits| <= 4
    ensures forall j :: 0 <= j < |exits| ==> exits[j].1 == 1.0
    ensures forall j :: 0 <= j < |exits| ==>
      exits[j].0 < NUM_TILES
      && DirectionOf(IndexToPoint(idx), IndexToPoint(exits[j].0)) < 4
      && CanEnterTile(m, IndexToPoint(exits[j].0))
    ensures forall i, j :: 0 <= i < j < |exits| ==>
      DirectionOf(IndexToPoint(idx), IndexToPoint(exits[i].0))
        < DirectionOf(IndexToPoint(idx), IndexToPoint(exits[j].0))
    ensures forall k :: 0 <= k < 4 && CanEnterTile(m, Add(IndexToPoint(idx), EXIT_DELTAS[k])) ==>
      exists j :: 0 <= j < |exits| && IndexToPoint(exits[j].0) == Add(IndexToPoint(idx), EXIT_DELTAS[k])
  {
    var loc := IndexToPoint(idx);
    forall j | 0 <= j < |exits|
      ensures DirectionOf(loc, IndexToPoint(exits[j].0)) == dirs[j]
    {
      DirectionOfDelta(loc, dirs[j]);
    }
    StrictlyIncreasingBounded(dirs);
    forall k | 0 <= k < 4 && CanEnterTile(m, Add(loc, EXIT_DELTAS[k]))
      ensures exists j :: 0 <= j < |exits| && IndexToPoint(exits[j].0) == Add(loc, EXIT_DELTAS[k])
    {
      var j :| 0 <= j < |dirs| && dirs[j] == k;
      assert IndexToPoint(exits[j].0) == Add(loc, EXIT_DELTAS[k]);
    }
  }

  lemma StrictlyIncreasingBounded(dirs: seq<nat>)
    requires forall j :: 0 <= j < |dirs| ==> dirs[j] < 4
    requires forall i, j :: 0 <= i < j < |dirs| ==> dirs[i] < dirs[j]
    ensures |dirs| <= 4
  {
    if |dirs| > 0 {
      IncreasingAtLeastIndex(dirs, |dirs| - 1);
    }
  }

  lemma {:induction false} IncreasingAtLeastIndex(dirs: seq<nat>, j: nat)
    requires forall i, j :: 0 <= i < j < |dirs| ==> dirs[i] < dirs[j]
    requires j < |dirs|
    ensures dirs[j] >= j
  {
    if j > 0 {
      IncreasingAtLeastIndex(dirs, j - 1);
    }
  }

  lemma DirectionOfDelta(loc: Point, k: nat)
    requires k < 4
    ensures DirectionOf(loc, Add(loc, EXIT_DELTAS[k])) == k
  {
  }

  /** A tile blocks sight unless it is floor. */
  predicate IsOpaque(m: Map, idx: nat)
    requires idx < |m.tiles|
  {
    m.tiles[idx] != Floor
  }

  /** On the grid, exactly the tiles that cannot be entered are opaque. */
  lemma OpaqueIffNotEnterable(m: Map, p: Point)
    requires m.Valid() && InBounds(p)
    ensures PointToIndex(p) < NUM_TILES
    ensures IsOpaque(m, PointToIndex(p)) <==> !CanEnterTile(m, p)
  {
    PointRoundTrip(p);
  }

  /** An Exit tile can neither be entered nor seen through. */
  lemma ExitTileBlocks(m: Map, idx: nat)
    requires m.Valid() && idx < NUM_TILES && m.tiles[idx] == Exit
    ensures IsOpaque(m, idx) && !CanEnterTile(m, IndexToPoint(idx))
  {
    IndexRoundTrip(idx);
    var p := IndexToPoint(idx);
    PointRoundTrip(p);
  }

  /** On a new map every grid point can be entered and every tile is transparent. */
  lemma NewMapIsOpen(p: Point)
    requires InBounds(p)
    ensures CanEnterTile(NewMap(), p)
    ensures PointToIndex(p) < NUM_TILES && !IsOpaque(NewMap(), PointToIndex(p))
  {
    PointRoundTrip(p);
    MapIdxInBounds(p);
  }
}
