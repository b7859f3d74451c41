/**
 * Shared definitions of the game: the screen (map) dimensions, grid points,
 * the turn state resource, keyboard keys and glyph codes.
 */
module Prelude {

  /** Width and height of the map grid, in tiles. */
  const SCREEN_WIDTH: int := 80
  const SCREEN_HEIGHT: int := 50

  datatype Option<T> = None | Some(value: T)

  /** A grid coordinate; `Add` is the point addition `loc + delta`. */
  datatype Point = Point(x: int, y: int)

  function Add(a: Point, b: Point): Point
  {
    Point(a.x + b.x, a.y + b.y)
  }

  /** The process-wide turn state resource. */
  datatype TurnState = AwaitingInput | PlayerTurn | MonsterTurn | GameOver | Victory | NextLevel

  /** The most recent key of a frame; only Escape is distinguished by the core. */
  datatype Key = Escape | OtherKey(code: nat)

  /**
   * Code page 437 code of a printable ASCII character.  For these characters
   * the code page agrees with ASCII, so the code is the character's ordinal.
   */
  function ToCp437(c: char): nat
    requires ' ' <= c <= '~'
  {
    c as nat
  }
}
