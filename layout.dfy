// Level 1: the 10 x 10 grass base layer and the loop that places it, and the
// obstacle, item and building lists built at start-up.

module Layout {
  import opened Tiles

  const TileXSpan := 101
  const TileYSpan := 80
  /** Both bounds of the placement loop. */
  const GridSize := 10

  /** Left edge of a base-layer tile in column `col`. */
  function TileX(col: int): int
  {
    TileXSpan * col
  }

  /** Top edge of a base-layer tile in row `row`: `80 * (row + 1.5)`, computed over halves. */
  function TileY(row: int): (y: int)
    ensures y == 80 * row + 120
  {
    TileYSpan * (2 * row + 3) / 2
  }

  /** `t` moved to the grid position of cell (`row`, `col`). */
  function Placed(t: Tile, row: int, col: int): (p: Tile)
    ensures p.kind == t.kind && p.x == 101 * col && p.y == 80 * row + 120
  {
    t.(x := TileX(col), y := TileY(row))
  }

  /**
   * The placement loop: every cell of the first ten rows and ten columns gets
   * its grid position; its descriptor, and every other cell, stay as they were.
   */
  method LayOutBaseLayer(baseLayer: array2<Tile>)
    requires baseLayer.Length0 >= GridSize && baseLayer.Length1 >= GridSize
    modifies baseLayer
    ensures forall r, c :: 0 <= r < baseLayer.Length0 && 0 <= c < baseLayer.Length1 ==>
              baseLayer[r, c] == if r < GridSize && c < GridSize then Placed(old(baseLayer[r, c]), r, c)
                                 else old(baseLayer[r, c])
  {
    var row := 0;
    while row < GridSize
      invariant 0 <= row <= GridSize
      invariant forall r, c :: 0 <= r < baseLayer.Length0 && 0 <= c < baseLayer.Length1 ==>
                  baseLayer[r, c] == if r < row && c < GridSize then Placed(old(baseLayer[r, c]), r, c)
                                     else old(baseLayer[r, c])
    {
      var col := 0;
      while col < GridSize
        invariant 0 <= col <= GridSize
        invariant forall r, c :: 0 <= r < baseLayer.Length0 && 0 <= c < baseLayer.Length1 ==>
                    baseLayer[r, c] == if (r < row && c < GridSize) || (r == row && c < col)
                                       then Placed(old(baseLayer[r, c]), r, c)
                                       else old(baseLayer[r, c])
      {
        var tile := baseLayer[row, col];
        baseLayer[row, col] := tile.(y := TileY(row), x := TileX(col));
        col := col + 1;
      }
      row := row + 1;
    }
  }

  /** Distinct cells of the grid get distinct positions, columns 101 apart and rows 80 apart. */
  lemma LayoutInjective(r1: int, c1: int, r2: int, c2: int)
    ensures TileX(c1) == TileX(c2) <==> c1 == c2
    ensures TileY(r1) == TileY(r2) <==> r1 == r2
    ensures TileX(c1 + 1) - TileX(c1) == TileXSpan && TileY(r1 + 1) - TileY(r1) == TileYSpan
  {
  }

  /** Every placed cell starts inside the 1010 x 1010 canvas. */
  lemma LayoutOnCanvas(row: int, col: int)
    requires 0 <= row < GridSize && 0 <= col < GridSize
    ensures 0 <= TileX(col) <= 909 && 120 <= TileY(row) <= 840
  {
  }

  /** The obstacles as listed when level 1 is declared, before the doors are pushed. */
  const DeclaredObstacles: seq<Tile> := [
    Tile(Rock, 0, 90), Tile(Bush, 0, 170), Tile(Water, 0, 280),
    Tile(Water, 900, 0), Tile(Water, 800, 0), Tile(Water, 700, 0),
    Tile(Water, 200, 0), Tile(Water, 100, 0), Tile(Water, 0, 0),
    Tile(Tree, 0, 400), Tile(Bush, 0, 500), Tile(Rock, 0, 578),
    Tile(Rock, 0, 740), Tile(Tree, 0, 820), Tile(Bush, 0, 655),
    Tile(Block, 908, 840), Tile(Bush, 908, 730), Tile(Tree, 908, 340),
    Tile(Tree, 908, 170), Tile(Rock, 908, 580), Tile(Bush, 908, 500),
    Tile(Rock, 908, 400), Tile(Tree, 200, 340)
  ]

  const Items: seq<Tile> := [Tile(Key, 135, 500), Tile(GreenGem, 730, 485)]

  /** The entrance to the next level: the two doors pushed onto the obstacles. */
  const Doors: seq<Tile> := [Tile(Door, 505, 80), Tile(Door, 405, 80)]

  const Building: seq<Tile> := [
    Tile(Wall, 605, 82), Tile(Wall, 305, 82), Tile(Wood2, 260, 150),
    Tile(Wood, 605, 150), Tile(RoofSW, 305, 0), Tile(RoofSE, 605, 0),
    Tile(RoofS, 405, 0), Tile(RoofS, 505, 0), Tile(Tree, 270, 130),
    Tile(Tree, 640, 130)
  ]

  /** The level's tile collections, built once at start-up. */
  class Level {
    const baseLayer: array2<Tile>
    var obstacles: seq<Tile>
    var items: seq<Tile>
    var building: seq<Tile>

    /**
     * Start-up in source order: the grass grid, its placement loop, the
     * declared obstacles, the items, the two pushed doors, the building.
     */
    constructor ()
      ensures fresh(baseLayer)
      ensures baseLayer.Length0 == GridSize && baseLayer.Length1 == GridSize
      ensures forall r, c :: 0 <= r < GridSize && 0 <= c < GridSize ==>
                baseLayer[r, c] == Tile(Grass, TileX(c), TileY(r))
      ensures obstacles == DeclaredObstacles + Doors
      ensures items == Items && building == Building
    {
      // A grid tile has no position until the placement loop gives it one.
      baseLayer := new Tile[GridSize, GridSize]((r, c) => Tile(Grass, 0, 0));
      obstacles := DeclaredObstacles;
      items := Items;
      building := [];
      new;
      LayOutBaseLayer(baseLayer);
      PushObstacle(Tile(Door, 505, 80));
      PushObstacle(Tile(Door, 405, 80));
      building := Building;
    }

    /** `obstacles.push`: appends one tile; nothing else changes. */
    method PushObstacle(t: Tile)
      modifies this
      ensures obstacles == old(obstacles) + [t]
      ensures items == old(items) && building == old(building)
    {
      obstacles := obstacles + [t];
    }
  }

  /** The level's 25 obstacles all declare themselves impassable; the doors come last. */
  lemma ObstaclesImpassable()
    ensures |DeclaredObstacles + Doors| == 25
    ensures (DeclaredObstacles + Doors)[23..] == [Tile(Door, 505, 80), Tile(Door, 405, 80)]
    ensures forall t :: t in DeclaredObstacles + Doors ==> PassabilityOf(t.kind) == Impassable
  {
    var all := DeclaredObstacles + Doors;
    forall i | 0 <= i < |all|
      ensures PassabilityOf(all[i].kind) == Impassable
    {
    }
  }

  /** The two items are of the ITEM class. */
  lemma ItemsAreItems()
    ensures forall t :: t in Items ==> PassabilityOf(t.kind) == Item
  {
  }
}
