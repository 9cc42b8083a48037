// Tile kinds, their passability class, and placed tiles.

module Tiles {

  /** The passability classes IMPASSABLE (0), PASSABLE (1) and ITEM (2). */
  datatype Passability = Impassable | Passable | Item

  /** The numeric code the engine gives each class. */
  function Code(p: Passability): (c: nat)
    ensures c < 3
    ensures p == Impassable <==> c == 0
    ensures p == Passable <==> c == 1
  {
    match p
    case Impassable => 0
    case Passable => 1
    case Item => 2
  }

  /** The tile descriptors of level 1; the sprite image each one names is not modelled. */
  datatype TileKind =
    | Key | GreenGem
    | Wood | Wood2 | Grass | Stone | Plain
    | Water | Door | Tree | Wall | RoofSW | RoofSE | RoofS | Rock | Bush | Statue | Block

  /**
   * The passability class each descriptor declares, given by its numeric
   * `type`: 2 for the two collectibles, 1 for the five floor blocks, 0 for
   * every other descriptor.
   */
  function PassabilityOf(k: TileKind): (p: Passability)
    ensures Code(p) == 2 <==> k == Key || k == GreenGem
    ensures Code(p) == 1 <==> k == Wood || k == Wood2 || k == Grass || k == Stone || k == Plain
  {
    match k
    case Key | GreenGem => Item
    case Wood | Wood2 | Grass | Stone | Plain => Passable
    case _ => Impassable
  }

  /** A `Tile`: a descriptor drawn with its top-left corner at (x, y). */
  datatype Tile = Tile(kind: TileKind, x: int, y: int)
}
