// The scene composer: each frame clears the canvas, draws the base layer row
// by row, then the obstacles, then the building pieces, then asks every bug
// and finally the player to draw themselves. Calls are modelled as `Draw` values.

module Scene {
  import opened Tiles

  /** The three tile collections a frame draws, back to front. */
  datatype Layer = Background | Obstacles | Structures

  /** One call the composer makes on the canvas or on an entity. */
  datatype Draw =
    | ClearCanvas
    | DrawImage(layer: Layer, kind: TileKind, x: int, y: int)
    | RenderEnemy(index: nat)
    | RenderPlayer

  function TileDraw(layer: Layer, t: Tile): Draw
  {
    DrawImage(layer, t.kind, t.x, t.y)
  }

  /** Depth of a call in the frame: clearing first, the player on top. */
  function Rank(d: Draw): nat
  {
    match d
    case ClearCanvas => 0
    case DrawImage(Background, _, _, _) => 1
    case DrawImage(Obstacles, _, _, _) => 2
    case DrawImage(Structures, _, _, _) => 3
    case RenderEnemy(_) => 4
    case RenderPlayer => 5
  }

  /** The first `n` cells of row `row`, left to right. */
  function RowDraws(grid: array2<Tile>, row: nat, n: nat): seq<Draw>
    requires row < grid.Length0 && n <= grid.Length1
    reads grid
    decreases n
  {
    if n == 0 then [] else RowDraws(grid, row, n - 1) + [TileDraw(Background, grid[row, n - 1])]
  }

  /** The first `rows` rows of the grid, row-major. */
  function GridDraws(grid: array2<Tile>, rows: nat): seq<Draw>
    requires rows <= grid.Length0
    reads grid
    decreases rows
  {
    if rows == 0 then [] else GridDraws(grid, rows - 1) + RowDraws(grid, rows - 1, grid.Length1)
  }

  /** One draw per tile of a list, in list order. */
  function TileDraws(layer: Layer, tiles: seq<Tile>): seq<Draw>
    decreases |tiles|
  {
    if tiles == [] then []
    else TileDraws(layer, tiles[..|tiles| - 1]) + [TileDraw(layer, tiles[|tiles| - 1])]
  }

  /** The bugs' own render calls, in collection order. */
  function EnemyDraws(count: nat): seq<Draw>
  {
    if count == 0 then [] else EnemyDraws(count - 1) + [RenderEnemy(count - 1)]
  }

  /** `renderEntities`: every bug, then the player. */
  function EntityDraws(enemyCount: nat): seq<Draw>
  {
    EnemyDraws(enemyCount) + [RenderPlayer]
  }

  /** A frame around a given background part `g`: the clear, `g`, the two tile passes, the entities. */
  function Compose(g: seq<Draw>, obstacles: seq<Tile>, building: seq<Tile>, enemyCount: nat): seq<Draw>
  {
    [ClearCanvas] + g + TileDraws(Obstacles, obstacles) + TileDraws(Structures, building) + EntityDraws(enemyCount)
  }

  /** Everything `render` does in one frame. */
  function Frame(grid: array2<Tile>, obstacles: seq<Tile>, building: seq<Tile>, enemyCount: nat): seq<Draw>
    reads grid
  {
    Compose(GridDraws(grid, grid.Length0), obstacles, building, enemyCount)
  }

  /** `render`: nested row/column loops over the grid, then one loop per tile list. */
  method Render(grid: array2<Tile>, obstacles: seq<Tile>, building: seq<Tile>, enemyCount: nat)
    returns (draws: seq<Draw>)
    ensures draws == Frame(grid, obstacles, building, enemyCount)
  {
    draws := [ClearCanvas];
    var numRows := grid.Length0;
    var row := 0;
    while row < numRows
      invariant 0 <= row <= numRows
      invariant draws == [ClearCanvas] + GridDraws(grid, row)
    {
      var numCols := grid.Length1;
      var col := 0;
      while col < numCols
        invariant 0 <= col <= numCols
        invariant draws == [ClearCanvas] + GridDraws(grid, row) + RowDraws(grid, row, col)
      {
        var tile := grid[row, col];
        draws := draws + [DrawImage(Background, tile.kind, tile.x, tile.y)];
        col := col + 1;
      }
      row := row + 1;
    }
    ghost var background := draws;
    var index := 0;
    while index < |obstacles|
      invariant 0 <= index <= |obstacles|
      invariant draws == background + TileDraws(Obstacles, obstacles[..index])
    {
      assert obstacles[..index + 1][..index] == obstacles[..index];
      var obstacle := obstacles[index];
      draws := draws + [DrawImage(Obstacles, obstacle.kind, obstacle.x, obstacle.y)];
      index := index + 1;
    }
    assert obstacles[..index] == obstacles;
    ghost var withObstacles := draws;
    index := 0;
    while index < |building|
      invariant 0 <= index <= |building|
      invariant draws == withObstacles + TileDraws(Structures, building[..index])
    {
      assert building[..index + 1][..index] == building[..index];
      var buildingPiece := building[index];
      draws := draws + [DrawImage(Structures, buildingPiece.kind, buildingPiece.x, buildingPiece.y)];
      index := index + 1;
    }
    assert building[..index] == building;
    var entities := RenderEntities(enemyCount);
    draws := draws + entities;
  }

  /** `renderEntities`: each bug in order renders itself, the player last. */
  method RenderEntities(enemyCount: nat) returns (draws: seq<Draw>)
    ensures draws == EntityDraws(enemyCount)
  {
    draws := [];
    var i := 0;
    while i < enemyCount
      invariant 0 <= i <= enemyCount
      invariant draws == EnemyDraws(i)
    {
      draws := draws + [RenderEnemy(i)];
      i := i + 1;
    }
    draws := draws + [RenderPlayer];
  }

  // ------------------------------------------------------------- positions

  lemma {:induction false} RowDrawsAt(grid: array2<Tile>, row: nat, n: nat)
    requires row < grid.Length0 && n <= grid.Length1
    ensures |RowDraws(grid, row, n)| == n
    ensures forall c :: 0 <= c < n ==> RowDraws(grid, row, n)[c] == TileDraw(Background, grid[row, c])
    decreases n
  {
    if n > 0 {
      RowDrawsAt(grid, row, n - 1);
    }
  }

  /** Where row `r` starts among the grid draws: `r * cols`, by repeated addition. */
  function RowStart(r: nat, cols: nat): nat
  {
    if r == 0 then 0 else RowStart(r - 1, cols) + cols
  }

  lemma {:induction false} RowStartIsProduct(r: nat, cols: nat)
    ensures RowStart(r, cols) == r * cols
  {
    if r > 0 {
      RowStartIsProduct(r - 1, cols);
      assert (r - 1) * cols + cols == r * cols;
    }
  }

  lemma {:induction false} RowStartMonotone(r: nat, s: nat, cols: nat)
    requires r < s
    ensures RowStart(r, cols) + cols <= RowStart(s, cols)
    decreases s
  {
    if r + 1 < s {
      RowStartMonotone(r, s - 1, cols);
    }
  }

  lemma {:induction false} GridDrawsLength(grid: array2<Tile>, rows: nat)
    requires rows <= grid.Length0
    ensures |GridDraws(grid, rows)| == RowStart(rows, grid.Length1)
    decreases rows
  {
    if rows > 0 {
      GridDrawsLength(grid, rows - 1);
      RowDrawsAt(grid, rows - 1, grid.Length1);
    }
  }

  /** Cell (r, c) is draw number `RowStart(r) + c` among the first `rows` rows' draws. */
  predicate CellDrawn(grid: array2<Tile>, rows: nat, r: nat, c: nat)
    requires rows <= grid.Length0 && r < grid.Length0 && c < grid.Length1
    reads grid
  {
    RowStart(r, grid.Length1) + c < |GridDraws(grid, rows)| &&
    GridDraws(grid, rows)[RowStart(r, grid.Length1) + c] == TileDraw(Background, grid[r, c])
  }

  /** The grid is drawn row-major: every cell at its own place. */
  lemma {:induction false} GridDrawsAt(grid: array2<Tile>, rows: nat)
    requires rows <= grid.Length0
    ensures forall r: nat, c: nat :: r < rows && c < grid.Length1 ==> CellDrawn(grid, rows, r, c)
    decreases rows
  {
    if rows > 0 {
      GridDrawsAt(grid, rows - 1);
      forall r: nat, c: nat | r < rows && c < grid.Length1
        ensures CellDrawn(grid, rows, r, c)
      {
        if r < rows - 1 {
          assert CellDrawn(grid, rows - 1, r, c);
        }
        GridCellStep(grid, rows, r, c);
      }
    }
  }

  /** One step of `GridDrawsAt`: a cell of an earlier row keeps its place, the new row follows. */
  lemma GridCellStep(grid: array2<Tile>, rows: nat, r: nat, c: nat)
    requires 0 < rows <= grid.Length0 && r < rows && c < grid.Length1
    requires r < rows - 1 ==> CellDrawn(grid, rows - 1, r, c)
    ensures CellDrawn(grid, rows, r, c)
  {
    var cols := grid.Length1;
    GridDrawsLength(grid, rows - 1);
    RowDrawsAt(grid, rows - 1, cols);
    var front := GridDraws(grid, rows - 1);
    var last := RowDraws(grid, rows - 1, cols);
    assert GridDraws(grid, rows) == front + last;
    if r < rows - 1 {
      RowStartMonotone(r, rows - 1, cols);
    } else {
      assert RowStart(r, cols) == |front|;
    }
  }

  lemma AllRankAppend(s: seq<Draw>, t: seq<Draw>, k: nat)
    requires AllRank(s, k) && AllRank(t, k)
    ensures AllRank(s + t, k)
  {
    forall i | 0 <= i < |s + t|
      ensures Rank((s + t)[i]) == k
    {
      if i < |s| {
        assert (s + t)[i] == s[i];
      } else {
        assert (s + t)[i] == t[i - |s|];
      }
    }
  }

  /** Every grid draw belongs to the background layer. */
  lemma {:induction false} GridDrawsRank(grid: array2<Tile>, rows: nat)
    requires rows <= grid.Length0
    ensures AllRank(GridDraws(grid, rows), 1)
    decreases rows
  {
    if rows > 0 {
      GridDrawsRank(grid, rows - 1);
      RowDrawsAt(grid, rows - 1, grid.Length1);
      AllRankAppend(GridDraws(grid, rows - 1), RowDraws(grid, rows - 1, grid.Length1), 1);
    }
  }

  lemma {:induction false} TileDrawsAt(layer: Layer, tiles: seq<Tile>)
    ensures |TileDraws(layer, tiles)| == |tiles|
    ensures forall k :: 0 <= k < |tiles| ==> TileDraws(layer, tiles)[k] == TileDraw(layer, tiles[k])
    decreases |tiles|
  {
    if tiles != [] {
      TileDrawsAt(layer, tiles[..|tiles| - 1]);
    }
  }

  lemma {:induction false} EnemyDrawsAt(count: nat)
    ensures |EnemyDraws(count)| == count
    ensures forall k :: 0 <= k < count ==> EnemyDraws(count)[k] == RenderEnemy(k)
    decreases count
  {
    if count > 0 {
      EnemyDrawsAt(count - 1);
    }
  }

  /**
   * Where the first calls sit in a frame: the clear, then one draw per grid
   * cell row-major, then one per obstacle in list order.
   */
  lemma FrameLayout(grid: array2<Tile>, obstacles: seq<Tile>, building: seq<Tile>, enemyCount: nat)
    ensures |Frame(grid, obstacles, building, enemyCount)| ==
            1 + grid.Length0 * grid.Length1 + |obstacles| + |building| + enemyCount + 1
    ensures Frame(grid, obstacles, building, enemyCount)[0] == ClearCanvas
    ensures forall r, c :: FrameHasCell(grid, obstacles, building, enemyCount, r, c)
    ensures forall k :: 0 <= k < |obstacles| ==>
              Frame(grid, obstacles, building, enemyCount)[1 + grid.Length0 * grid.Length1 + k] ==
              TileDraw(Obstacles, obstacles[k])
  {
    FrameParts(grid, obstacles, building, enemyCount);
    forall r, c
      ensures FrameHasCell(grid, obstacles, building, enemyCount, r, c)
    {
      FrameCell(grid, obstacles, building, enemyCount, r, c);
    }
    var g := GridDraws(grid, grid.Length0);
    ObstaclesDrawnAt(g, obstacles, building, enemyCount);
    EntitiesDrawnAt(g, obstacles, building, enemyCount);
  }

  /**
   * Where the last calls sit in a frame: after the grid and the obstacles,
   * one draw per building piece, one render per bug in order, and the
   * player's render last.
   */
  lemma FrameTail(grid: array2<Tile>, obstacles: seq<Tile>, building: seq<Tile>, enemyCount: nat)
    ensures forall k :: 0 <= k < |building| ==>
              1 + grid.Length0 * grid.Length1 + |obstacles| + k < |Frame(grid, obstacles, building, enemyCount)| &&
              Frame(grid, obstacles, building, enemyCount)[1 + grid.Length0 * grid.Length1 + |obstacles| + k] ==
              TileDraw(Structures, building[k])
    ensures forall k :: 0 <= k < enemyCount ==>
              1 + grid.Length0 * grid.Length1 + |obstacles| + |building| + k < |Frame(grid, obstacles, building, enemyCount)| &&
              Frame(grid, obstacles, building, enemyCount)[1 + grid.Length0 * grid.Length1 + |obstacles| + |building| + k] ==
              RenderEnemy(k)
    ensures |Frame(grid, obstacles, building, enemyCount)| ==
            1 + grid.Length0 * grid.Length1 + |obstacles| + |building| + enemyCount + 1
    ensures Frame(grid, obstacles, building, enemyCount)[1 + grid.Length0 * grid.Length1 + |obstacles| + |building| + enemyCount] ==
            RenderPlayer
  {
    FrameParts(grid, obstacles, building, enemyCount);
    var g := GridDraws(grid, grid.Length0);
    BuildingDrawnAt(g, obstacles, building, enemyCount);
    EntitiesDrawnAt(g, obstacles, building, enemyCount);
  }

  lemma ObstaclesDrawnAt(g: seq<Draw>, obstacles: seq<Tile>, building: seq<Tile>, enemyCount: nat)
    ensures forall k :: 0 <= k < |obstacles| ==>
              1 + |g| + k < |Compose(g, obstacles, building, enemyCount)| &&
              Compose(g, obstacles, building, enemyCount)[1 + |g| + k] == TileDraw(Obstacles, obstacles[k])
  {
    TileDrawsAt(Obstacles, obstacles);
    var p2 := [ClearCanvas] + g + TileDraws(Obstacles, obstacles);
    var rest := TileDraws(Structures, building) + EntityDraws(enemyCount);
    assert Compose(g, obstacles, building, enemyCount) == p2 + rest;
    forall k | 0 <= k < |obstacles|
      ensures (p2 + rest)[1 + |g| + k] == TileDraw(Obstacles, obstacles[k])
    {
      assert (p2 + rest)[1 + |g| + k] == p2[1 + |g| + k];
    }
  }

  lemma BuildingDrawnAt(g: seq<Draw>, obstacles: seq<Tile>, building: seq<Tile>, enemyCount: nat)
    ensures forall k :: 0 <= k < |building| ==>
              1 + |g| + |obstacles| + k < |Compose(g, obstacles, building, enemyCount)| &&
              Compose(g, obstacles, building, enemyCount)[1 + |g| + |obstacles| + k] ==
              TileDraw(Structures, building[k])
  {
    var p := [ClearCanvas] + g + TileDraws(Obstacles, obstacles);
    var t := TileDraws(Structures, building);
    var pt := p + t;
    var rest := EntityDraws(enemyCount);
    TileDrawsAt(Obstacles, obstacles);
    TileDrawsAt(Structures, building);
    assert Compose(g, obstacles, building, enemyCount) == pt + rest;
    forall k | 0 <= k < |building|
      ensures (pt + rest)[|p| + k] == TileDraw(Structures, building[k])
    {
      assert (pt + rest)[|p| + k] == pt[|p| + k] == t[k];
    }
  }

  lemma EntitiesDrawnAt(g: seq<Draw>, obstacles: seq<Tile>, building: seq<Tile>, enemyCount: nat)
    ensures |Compose(g, obstacles, building, enemyCount)| == 1 + |g| + |obstacles| + |building| + enemyCount + 1
    ensures Compose(g, obstacles, building, enemyCount)[0] == ClearCanvas
    ensures forall k :: 0 <= k < enemyCount ==>
              Compose(g, obstacles, building, enemyCount)[1 + |g| + |obstacles| + |building| + k] == RenderEnemy(k)
    ensures Compose(g, obstacles, building, enemyCount)[1 + |g| + |obstacles| + |building| + enemyCount] ==
            RenderPlayer
  {
    TileDrawsAt(Obstacles, obstacles);
    TileDrawsAt(Structures, building);
    EnemyDrawsAt(enemyCount);
    var p3 := [ClearCanvas] + g + TileDraws(Obstacles, obstacles) + TileDraws(Structures, building);
    var e := EntityDraws(enemyCount);
    assert Compose(g, obstacles, building, enemyCount) == p3 + e;
    forall k | 0 <= k < enemyCount
      ensures (p3 + e)[|p3| + k] == RenderEnemy(k)
    {
      assert e[k] == EnemyDraws(enemyCount)[k];
    }
  }

  /** The frame is the concatenation of its parts, and the grid part has one draw per cell. */
  lemma FrameParts(grid: array2<Tile>, obstacles: seq<Tile>, building: seq<Tile>, enemyCount: nat)
    ensures |GridDraws(grid, grid.Length0)| == grid.Length0 * grid.Length1
    ensures Frame(grid, obstacles, building, enemyCount) ==
            [ClearCanvas] + GridDraws(grid, grid.Length0) + TileDraws(Obstacles, obstacles) +
            TileDraws(Structures, building) + EntityDraws(enemyCount)
  {
    GridDrawsLength(grid, grid.Length0);
    RowStartIsProduct(grid.Length0, grid.Length1);
  }

  /** Grid cell (r, c), when it exists, is call `1 + r * columns + c` of the frame. */
  predicate FrameHasCell(grid: array2<Tile>, obstacles: seq<Tile>, building: seq<Tile>, enemyCount: nat,
                         r: int, c: int)
    reads grid
  {
    0 <= r < grid.Length0 && 0 <= c < grid.Length1 ==>
      1 + r * grid.Length1 + c < |Frame(grid, obstacles, building, enemyCount)| &&
      Frame(grid, obstacles, building, enemyCount)[1 + r * grid.Length1 + c] == TileDraw(Background, grid[r, c])
  }

  lemma FrameCell(grid: array2<Tile>, obstacles: seq<Tile>, building: seq<Tile>, enemyCount: nat, r: int, c: int)
    ensures FrameHasCell(grid, obstacles, building, enemyCount, r, c)
  {
    if 0 <= r < grid.Length0 && 0 <= c < grid.Length1 {
      GridDrawsAt(grid, grid.Length0);
      assert CellDrawn(grid, grid.Length0, r, c);
      RowStartIsProduct(r, grid.Length1);
      var i := RowStart(r, grid.Length1) + c;
      var p1 := [ClearCanvas] + GridDraws(grid, grid.Length0);
      var rest := TileDraws(Obstacles, obstacles) + TileDraws(Structures, building) + EntityDraws(enemyCount);
      assert Frame(grid, obstacles, building, enemyCount) == p1 + rest;
      assert (p1 + rest)[1 + i] == p1[1 + i];
    }
  }

  // ---------------------------------------------------------- back to front

  predicate BackToFront(s: seq<Draw>)
  {
    forall i, j :: 0 <= i < j < |s| ==> Rank(s[i]) <= Rank(s[j])
  }

  /** Number of image draws (tiles) in a sequence of calls. */
  function ImageCount(s: seq<Draw>): nat
    decreases |s|
  {
    if s == [] then 0
    else ImageCount(s[..|s| - 1]) + (if s[|s| - 1].DrawImage? then 1 else 0)
  }

  lemma {:induction false} ImageCountAppend(s: seq<Draw>, t: seq<Draw>)
    ensures ImageCount(s + t) == ImageCount(s) + ImageCount(t)
    decreases |t|
  {
    if t != [] {
      var n := |t| - 1;
      assert (s + t)[..|s + t| - 1] == s + t[..n];
      assert (s + t)[|s + t| - 1] == t[n];
      ImageCountAppend(s, t[..n]);
    } else {
      assert s + t == s;
    }
  }

  /** A sequence of calls whose ranks all equal `k`. */
  predicate AllRank(s: seq<Draw>, k: nat)
  {
    forall i :: 0 <= i < |s| ==> Rank(s[i]) == k
  }

  lemma {:induction false} ImageCountAll(s: seq<Draw>, k: nat)
    requires AllRank(s, k)
    ensures ImageCount(s) == if 1 <= k <= 3 then |s| else 0
    decreases |s|
  {
    if s != [] {
      ImageCountAll(s[..|s| - 1], k);
      assert Rank(s[|s| - 1]) == k;
    }
  }

  lemma AppendBackToFront(s: seq<Draw>, t: seq<Draw>, k: nat)
    requires BackToFront(s) && (forall i :: 0 <= i < |s| ==> Rank(s[i]) <= k) && AllRank(t, k)
    ensures BackToFront(s + t) && forall i :: 0 <= i < |s + t| ==> Rank((s + t)[i]) <= k
  {
  }

  /**
   * A frame is drawn back to front: clear, grid, obstacles, building,
   * bugs, player, never out of that order. Exactly one call per grid cell,
   * obstacle and building piece draws an image.
   */
  lemma FrameBackToFront(grid: array2<Tile>, obstacles: seq<Tile>, building: seq<Tile>, enemyCount: nat)
    ensures BackToFront(Frame(grid, obstacles, building, enemyCount))
    ensures ImageCount(Frame(grid, obstacles, building, enemyCount)) ==
            grid.Length0 * grid.Length1 + |obstacles| + |building|
  {
    var clear := [ClearCanvas];
    var gridPart := GridDraws(grid, grid.Length0);
    var obsPart := TileDraws(Obstacles, obstacles);
    var bldPart := TileDraws(Structures, building);
    var enemyPart := EnemyDraws(enemyCount);
    var player := [RenderPlayer];
    GridDrawsRank(grid, grid.Length0);
    GridDrawsLength(grid, grid.Length0);
    RowStartIsProduct(grid.Length0, grid.Length1);
    TileDrawsAt(Obstacles, obstacles);
    TileDrawsAt(Structures, building);
    EnemyDrawsAt(enemyCount);
    AppendBackToFront(clear, gridPart, 1);
    AppendBackToFront(clear + gridPart, obsPart, 2);
    AppendBackToFront(clear + gridPart + obsPart, bldPart, 3);
    AppendBackToFront(clear + gridPart + obsPart + bldPart, enemyPart, 4);
    AppendBackToFront(clear + gridPart + obsPart + bldPart + enemyPart, player, 5);
    assert Frame(grid, obstacles, building, enemyCount) ==
           clear + gridPart + obsPart + bldPart + enemyPart + player;
    ImageCountAll(clear, 0);
    ImageCountAll(gridPart, 1);
    ImageCountAll(obsPart, 2);
    ImageCountAll(bldPart, 3);
    ImageCountAll(enemyPart, 4);
    ImageCountAll(player, 5);
    ImageCountAppend(clear, gridPart);
    ImageCountAppend(clear + gridPart, obsPart);
    ImageCountAppend(clear + gridPart + obsPart, bldPart);
    ImageCountAppend(clear + gridPart + obsPart + bldPart, enemyPart);
    ImageCountAppend(clear + gridPart + obsPart + bldPart + enemyPart, player);
  }
}
