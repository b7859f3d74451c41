/**
 * The two cosmetic map themes.  Each maps a tile type to the glyph drawn for
 * it; the set of themes is closed, so a theme is a datatype value.
 */
module Themes {
  import opened Prelude
  import opened GridMap

  datatype Theme = Dungeon | Forest

  /** Neither theme has a glyph for Exit tiles, so they are excluded. */
  function TileToRender(theme: Theme, tile: TileType): (glyph: nat)
    requires tile != Exit
  {
    match theme
    case Dungeon =>
      (match tile
       case Floor => ToCp437('.')
       case Wall => ToCp437('#'))
    case Forest =>
      (match tile
       case Floor => ToCp437(';')
       case Wall => ToCp437('"'))
  }

  lemma DungeonGlyphs()
    ensures TileToRender(Dungeon, Floor) == '.' as nat
    ensures TileToRender(Dungeon, Wall) == '#' as nat
  {
  }

  lemma ForestGlyphs()
    ensures TileToRender(Forest, Floor) == ';' as nat
    ensures TileToRender(Forest, Wall) == '"' as nat
  {
  }

  /** Within one theme, floor and wall look different. */
  lemma GlyphIdentifiesTile(theme: Theme, a: TileType, b: TileType)
    requires a != Exit && b != Exit
    requires TileToRender(theme, a) == TileToRender(theme, b)
    ensures a == b
  {
  }

  /** The two themes draw every tile type differently. */
  lemma ThemesDiffer(tile: TileType)
    requires tile != Exit
    ensures TileToRender(Dungeon, tile) != TileToRender(Forest, tile)
  {
  }
}
