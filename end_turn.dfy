/**
 * End-of-turn resolution: after the player's or the monsters' actions, decide
 * the next turn state.  The natural successor of the current state can be
 * overridden by each player in iteration order: a dead player sets GameOver,
 * a player standing on the amulet then sets Victory.
 */
module EndTurnSystem {
  import opened Prelude
  import opened Components

  /** What the resolution reads of one player: current hit points and position. */
  datatype PlayerView = PlayerView(hp: int, pos: Point)

  /** The entities with Player, Health and Point components, in iteration order. */
  function PlayerViews(world: seq<Entity>): (views: seq<PlayerView>)
    ensures |views| <= |world|
    ensures forall v :: v in views <==>
      exists e :: e in world && e.player.Some? && e.health.Some? && e.pos.Some?
                  && v == PlayerView(e.health.value.current, e.pos.value)
  {
    if world == [] then []
    else
      var e := world[0];
      (if e.player.Some? && e.health.Some? && e.pos.Some? then [PlayerView(e.health.value.current, e.pos.value)] else [])
      + PlayerViews(world[1..])
  }

  /** Positions of the entities with AmuletOfYala and Point components, in iteration order. */
  function AmuletPositions(world: seq<Entity>): (positions: seq<Point>)
    ensures |positions| <= |world|
    ensures forall p :: p in positions <==>
      exists e :: e in world && AmuletOfYala in e.markers && e.pos == Some(p)
  {
    if world == [] then []
    else
      var e := world[0];
      (if AmuletOfYala in e.markers && e.pos.Some? then [e.pos.value] else [])
      + AmuletPositions(world[1..])
  }

  /** The state that follows a finished phase when no player overrides it. */
  function NaturalNext(state: TurnState): TurnState
  {
    match state
    case PlayerTurn => MonsterTurn
    case MonsterTurn => AwaitingInput
    case _ => state
  }

  lemma NaturalTransitions(state: TurnState)
    ensures state == PlayerTurn ==> NaturalNext(state) == MonsterTurn
    ensures state == MonsterTurn ==> NaturalNext(state) == AwaitingInput
    ensures state != PlayerTurn && state != MonsterTurn ==> NaturalNext(state) == state
  {
  }

  predicate IsDead(p: PlayerView)
  {
    p.hp < 1
  }

  predicate OnAmulet(p: PlayerView, amulet: Option<Point>)
  {
    amulet == Some(p.pos)
  }

  /** One iteration of the loop over players. */
  function Step(acc: TurnState, p: PlayerView, amulet: Option<Point>): TurnState
  {
    var afterHealth := if IsDead(p) then GameOver else acc;
    if OnAmulet(p, amulet) then Victory else afterHealth
  }

  /** The new state after every player in `players` has been visited, starting from acc. */
  function Resolve(acc: TurnState, players: seq<PlayerView>, amulet: Option<Point>): TurnState
    decreases |players|
  {
    if players == [] then acc
    else Step(Resolve(acc, players[..|players| - 1], amulet), players[|players| - 1], amulet)
  }

  /** Without a dead player and without one on the amulet, the natural successor stands. */
  lemma {:induction false} ResolveWithoutOverride(acc: TurnState, players: seq<PlayerView>, amulet: Option<Point>)
    requires forall j :: 0 <= j < |players| ==> !IsDead(players[j]) && !OnAmulet(players[j], amulet)
    ensures Resolve(acc, players, amulet) == acc
  {
    if players != [] {
      ResolveWithoutOverride(acc, players[..|players| - 1], amulet);
    }
  }

  /** A dead player forces GameOver unless it or a later player stands on the amulet. */
  lemma {:induction false} ResolveDefeat(acc: TurnState, players: seq<PlayerView>, amulet: Option<Point>, j: nat)
    requires j < |players| && IsDead(players[j])
    requires forall k :: j <= k < |players| ==> !OnAmulet(players[k], amulet)
    ensures Resolve(acc, players, amulet) == GameOver
  {
    if j < |players| - 1 {
      ResolveDefeat(acc, players[..|players| - 1], amulet, j);
    }
  }

  /**
   * A player on the amulet forces Victory unless a later player is dead and
   * off the amulet.  A dead player on the amulet still wins: the amulet test
   * comes after the health test.
   */
  lemma {:induction false} ResolveVictory(acc: TurnState, players: seq<PlayerView>, amulet: Option<Point>, j: nat)
    requires j < |players| && OnAmulet(players[j], amulet)
    requires forall k :: j < k < |players| ==> !IsDead(players[k]) || OnAmulet(players[k], amulet)
    ensures Resolve(acc, players, amulet) == Victory
  {
    if j < |players| - 1 {
      ResolveVictory(acc, players[..|players| - 1], amulet, j);
    }
  }

  /** An override always has a cause among the players; nothing else is ever produced. */
  lemma {:induction false} ResolveHasCause(acc: TurnState, players: seq<PlayerView>, amulet: Option<Point>)
    ensures var r := Resolve(acc, players, amulet);
      r == acc || r == GameOver || r == Victory
    ensures Resolve(acc, players, amulet) == Victory && acc != Victory ==>
      exists j :: 0 <= j < |players| && OnAmulet(players[j], amulet)
    ensures Resolve(acc, players, amulet) == GameOver && acc != GameOver ==>
      exists j :: 0 <= j < |players| && IsDead(players[j])
  {
    if players != [] {
      var prefix := players[..|players| - 1];
      ResolveHasCause(acc, prefix, amulet);
      if Resolve(acc, prefix, amulet) == Victory && acc != Victory {
        var j :| 0 <= j < |prefix| && OnAmulet(prefix[j], amulet);
        assert players[j] == prefix[j];
      }
      if Resolve(acc, prefix, amulet) == GameOver && acc != GameOver {
        var j :| 0 <= j < |prefix| && IsDead(prefix[j]);
        assert players[j] == prefix[j];
      }
    }
  }

  /** With no amulet in the world no player can win, whatever the players' positions. */
  lemma {:induction false} ResolveWithoutAmulet(acc: TurnState, players: seq<PlayerView>)
    requires acc != Victory
    ensures Resolve(acc, players, None) != Victory
  {
    if players != [] {
      ResolveWithoutAmulet(acc, players[..|players| - 1]);
    }
  }

  /** The loop of the system: AwaitingInput returns at once, any other state is resolved. */
  method ResolveTurn(turnState: TurnState, players: seq<PlayerView>, amulet: Option<Point>) returns (next: TurnState)
    ensures turnState == AwaitingInput ==> next == AwaitingInput
    ensures turnState != AwaitingInput ==> next == Resolve(NaturalNext(turnState), players, amulet)
  {
    if turnState == AwaitingInput {
      return turnState;
    }
    var newState := NaturalNext(turnState);
    for i := 0 to |players|
      invariant newState == Resolve(NaturalNext(turnState), players[..i], amulet)
    {
      var p := players[i];
      if p.hp < 1 {
        newState := GameOver;
      }
      if Some(p.pos) == amulet {
        newState := Victory;
      }
      assert players[..i + 1][..i] == players[..i];
    }
    assert players[..|players|] == players;
    next := newState;
  }

  /**
   * The end-turn system as written: it takes the position of the first amulet
   * and fails when there is none, even in AwaitingInput.
   */
  method EndTurn(turnState: TurnState, world: seq<Entity>) returns (next: TurnState)
    requires |AmuletPositions(world)| > 0
    ensures turnState == AwaitingInput ==> next == AwaitingInput
    ensures turnState != AwaitingInput ==>
      next == Resolve(NaturalNext(turnState), PlayerViews(world), Some(AmuletPositions(world)[0]))
    ensures turnState != AwaitingInput
      && (forall j :: 0 <= j < |PlayerViews(world)| ==>
            !IsDead(PlayerViews(world)[j]) && PlayerViews(world)[j].pos != AmuletPositions(world)[0])
      ==> next == NaturalNext(turnState)
  {
    var amuletPos := AmuletPositions(world)[0];
    next := ResolveTurn(turnState, PlayerViews(world), Some(amuletPos));
    if turnState != AwaitingInput
      && (forall j :: 0 <= j < |PlayerViews(world)| ==>
            !IsDead(PlayerViews(world)[j]) && PlayerViews(world)[j].pos != amuletPos)
    {
      ResolveWithoutOverride(NaturalNext(turnState), PlayerViews(world), Some(amuletPos));
    }
  }

  /**
   * The end-turn system with the amulet lookup made optional: a world without
   * an amulet is resolved without the victory test, and a world with one is
   * resolved exactly as EndTurn does.
   */
  method EndTurnAmuletOptional(turnState: TurnState, world: seq<Entity>) returns (next: TurnState)
    ensures turnState == AwaitingInput ==> next == AwaitingInput
    ensures turnState != AwaitingInput && |AmuletPositions(world)| > 0 ==>
      next == Resolve(NaturalNext(turnState), PlayerViews(world), Some(AmuletPositions(world)[0]))
    ensures turnState != AwaitingInput && AmuletPositions(world) == [] ==>
      next == Resolve(NaturalNext(turnState), PlayerViews(world), None)
    ensures AmuletPositions(world) == [] && turnState != Victory ==> next != Victory
  {
    var amulets := AmuletPositions(world);
    var amuletPos := if |amulets| > 0 then Some(amulets[0]) else None;
    next := ResolveTurn(turnState, PlayerViews(world), amuletPos);
    if amulets == [] && turnState != AwaitingInput && turnState != Victory {
      ResolveWithoutAmulet(NaturalNext(turnState), PlayerViews(world));
    }
  }

  lemma {:induction false} PlayerViewsAppend(a: seq<Entity>, b: seq<Entity>)
    ensures PlayerViews(a + b) == PlayerViews(a) + PlayerViews(b)
  {
    if a != [] {
      assert (a + b)[1..] == a[1..] + b;
      PlayerViewsAppend(a[1..], b);
    } else {
      assert a + b == b;
    }
  }

  lemma {:induction false} AmuletPositionsAppend(a: seq<Entity>, b: seq<Entity>)
    ensures AmuletPositions(a + b) == AmuletPositions(a) + AmuletPositions(b)
  {
    if a != [] {
      assert (a + b)[1..] == a[1..] + b;
      AmuletPositionsAppend(a[1..], b);
    } else {
      assert a + b == b;
    }
  }
}
