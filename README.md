# Online-2D-Scroller engine, modelled in Dafny

This project models the engine of a small tile-based 2D arcade game
(`js/engine.js`). On every tick the engine does four things, in order:

1. It updates every bug and then the player.
2. It resolves collisions. Each collidable thing gets a fixed hitbox, which is
   its origin offset by (28, 124) with a size of 44 x 47. If the player's
   hitbox overlaps any obstacle's hitbox, the player is rolled back to its
   `previousLocation`. Overlaps between the player and a bug, and between a
   bug and an obstacle, are only reported on the console.
3. It renders the scene back to front. The canvas is cleared, then the drawing
   goes in this order: the 10 x 10 grass grid row by row, the obstacles, the
   building pieces, each bug, and the player last.
4. It records the tick's time.

At start-up, level 1 is built as follows:

- the grass grid is laid out at `x = 101 * col` and `y = 80 * (row + 1.5)`;
- the 23 declared obstacles are listed, and then the two doors of the building
  are pushed onto the end of that list;
- the two items and the ten building pieces are listed.

Modules, one per part of the engine:

- `Geometry`: the `Rectangle` record, the inclusive overlap test
  `doRectanglesIntersect`, and the hitbox.
- `Tiles`: the tile descriptors and their passability classes
  (IMPASSABLE = 0, PASSABLE = 1, ITEM = 2).
- `Collision`: `checkCollisions`.
  - The player is a class whose `x`, `y` and `previousLocation` are fields.
  - The resolver writes `x` and `y` in place.
  - The console reports are `Event` values that carry the indices of the pair
    involved. `Message` gives each one's console text.
  - The log is specified by recursive functions. It is also characterised
    independently: it is the only sequence in report order that holds exactly
    the overlapping pairs.
- `Layout`: the placement loop over the base layer, which is an `array2`
  updated in place, and the `Level` class that builds the obstacle, item and
  building lists.
- `Scene`: `render` and `renderEntities`.
  - Each call on the canvas or on an entity is a `Draw` event.
  - A frame is proved to follow a strict back-to-front order.
  - The lemmas state exactly where each tile lands in the frame.
- `Engine`: `updateEntities`, `main` and `init`, over a `Game` class that holds
  `lastTime`, the player, the bugs and the level.

Three details of `checkCollisions` that the model keeps:

- Only the player is ever moved back. A bug's overlaps are reported and
  nothing more.
- The player hitbox is taken once, on entry to `checkCollisions`, so later
  obstacles and all bugs are tested against the position from before the
  rollback.
- Passability classes are never consulted by the resolver. A tile collides
  exactly when it is in the obstacle list, and the building pieces (walls
  included) are not in it.

## Model

| member | source | states |
|---|---|---|
| Geometry.MakeRect | js/engine.js:52-59 | `right = left + width` and `bottom = top + height`; the other four fields are the arguments |
| Geometry.Hitbox | js/engine.js:62 | the collision box of a thing drawn at (x, y) is (x+28, y+124) to (x+72, y+171), well formed and of non-negative size |
| Geometry.Intersects | js/engine.js:86-88 | for boxes of non-negative size, the exclusion test holds iff the common part of the two boxes, from the larger left and top edges to the smaller right and bottom edges, is non-empty |
| Geometry.IntersectsSymmetric | js/engine.js:86-88 | the overlap test gives the same answer with its arguments swapped |
| Geometry.InclusiveBounds | js/engine.js:87 | rectangles sharing only an edge intersect; a strict gap on either axis means they do not |
| Geometry.SelfIntersects | js/engine.js:52-59 | a rectangle built with non-negative width and height intersects itself |
| Geometry.IntersectsIffCommonPoint | js/engine.js:86-88 | for boxes of non-negative size, the exclusion test holds iff the boxes share a point, edges included |
| Geometry.HitboxesIntersect | js/engine.js:62-65 | two hitboxes overlap iff their origins differ by at most 44 across and at most 47 down |
| Geometry.SameOriginCollides | js/engine.js:62-65 | a player at (0, 90) has hitbox (28, 214, 72, 261) and collides with the rock at (0, 90) |
| Tiles.Code | js/engine.js:90-92 | the class codes are 0 for IMPASSABLE, 1 for PASSABLE and 2 for ITEM, and are distinct |
| Tiles.PassabilityOf | js/engine.js:90-166 | each descriptor's `type`: 2 (ITEM) exactly for Key and Green_Gem, 1 (PASSABLE) exactly for Wood, Wood2, Grass, Stone and Plain, 0 (IMPASSABLE) for the rest |
| Collision.Message | js/engine.js:66-79 | the three console lines, one per kind of report; each line identifies its kind |
| Collision.Player.Update | js/engine.js:50 | the player's own update records where the tick began in `previousLocation` and then moves |
| Collision.CheckCollisions | js/engine.js:61-83 | the player ends at `previousLocation` if its entry hitbox overlaps any obstacle and otherwise stays put; `previousLocation` is untouched; the reports are exactly `CollisionLog` of the entry hitbox |
| Collision.CheckBugs | js/engine.js:71-82 | the per-bug loop reports exactly `EnemyEvents`: for each bug in order, its player report, then its obstacle reports |
| Collision.CheckBugAgainstObstacles | js/engine.js:76-81 | one bug against every obstacle: one report per overlapping obstacle, in list order |
| Collision.BlockedIff | js/engine.js:63-70 | the scan finds a block iff some obstacle's hitbox overlaps the player's |
| Collision.ResolvedRollsBack | js/engine.js:62-70 | with one or many overlapping obstacles the player ends at `previousLocation`; with none, where it was |
| Collision.RollbackIffReported | js/engine.js:63-70 | the player is rolled back iff the player pass reports at least one collision |
| Collision.PlayerObstacleEventsSpec | js/engine.js:63-70 | the player pass reports exactly the overlapping obstacles, each once, in obstacle order |
| Collision.BugObstacleEventsSpec | js/engine.js:76-81 | a bug's obstacle pass reports exactly that bug's overlapping obstacles, in obstacle order |
| Collision.EnemyEventsSpec | js/engine.js:71-82 | the bug pass reports exactly the bug-player and bug-obstacle overlaps; bug by bug, each bug's player report comes before its obstacle reports |
| Collision.CollisionLogSpec | js/engine.js:61-83 | the whole log is in report order and holds an event iff the pair it names overlaps |
| Collision.SortedUnique | js/engine.js:61-83 | two logs in report order with the same reports are equal, so the report order fixes the log |
| Collision.CollisionLogCharacterized | js/engine.js:61-83 | a sequence is the resolver's log iff it is in report order and holds exactly the overlapping pairs |
| Layout.TileY | js/engine.js:198 | `80 * (row + 1.5)` is `80 * row + 120` for every integer row |
| Layout.Placed | js/engine.js:197-199 | a placed tile keeps its descriptor and gets `x = 101 * col`, `y = 80 * row + 120` |
| Layout.LayOutBaseLayer | js/engine.js:193-201 | after the loop every cell of rows and columns 0..9 is placed at its grid position with its descriptor kept; no other cell changes |
| Layout.LayoutInjective | js/engine.js:193-199 | distinct columns get distinct x and distinct rows get distinct y; neighbours are 101 apart across and 80 apart down |
| Layout.LayoutOnCanvas | js/engine.js:195-199 | every placed cell starts inside the 1010 x 1010 canvas, at 0..909 across and 120..840 down |
| Layout.Level.constructor | js/engine.js:181-244 | the level has a fresh 10 x 10 grid of grass, each cell at its grid position; the obstacles are the 23 declared ones followed by the two doors; it also holds the two items and the ten building pieces |
| Layout.Level.PushObstacle | js/engine.js:231-232 | `push` appends one tile to the obstacles and changes nothing else |
| Layout.ObstaclesImpassable | js/engine.js:202-232 | level 1 has 25 obstacles, the two doors are the last two, and every obstacle is of the IMPASSABLE class |
| Layout.ItemsAreItems | js/engine.js:227-230 | both items are of the ITEM class |
| Scene.Render | js/engine.js:246-267 | the calls made are exactly `Frame`: the clear, the grid row by row, the obstacles, the building pieces, then `renderEntities` |
| Scene.RenderEntities | js/engine.js:269-274 | every bug is rendered in list order, and then the player |
| Scene.RowDrawsAt | js/engine.js:251-254 | a row draws one image per column, left to right, each at the tile's own position |
| Scene.GridDrawsLength | js/engine.js:248-255 | the grid part of a frame has one draw per cell |
| Scene.GridDrawsAt | js/engine.js:248-255 | cell (r, c) is drawn at position `r * columns + c` of the grid part, so the grid is drawn row by row |
| Scene.GridDrawsRank | js/engine.js:248-255 | every call of the grid part draws a background tile |
| Scene.TileDrawsAt | js/engine.js:257-265 | the k-th draw of an obstacle or building pass is that list's k-th tile, on its layer |
| Scene.EnemyDrawsAt | js/engine.js:270-272 | the k-th entity render is bug k |
| Scene.FrameParts | js/engine.js:246-274 | a frame is the clear, the grid part (one draw per cell), the obstacle pass, the building pass and the entity renders, in that order |
| Scene.FrameCell | js/engine.js:249-255 | grid cell (r, c) is call `1 + r * columns + c` of the frame |
| Scene.FrameLayout | js/engine.js:246-260 | a frame has `2 + cells + obstacles + building + bugs` calls: the clear first, then grid cell (r, c) at `1 + r * columns + c`, then obstacle k at `1 + cells + k` |
| Scene.FrameTail | js/engine.js:261-274 | after the grid and the obstacles come building piece k, then bug k's render, each at its computed index, and the player's render is the last call |
| Scene.FrameBackToFront | js/engine.js:246-274 | a frame never draws a lower layer after a higher one, and it draws exactly `cells + obstacles + building` images |
| Engine.UpdateEntities | js/engine.js:46-51 | the calls made are exactly `UpdateCalls`: every bug with `dt`, then the player |
| Engine.UpdateOrder | js/engine.js:46-51 | there are bugs + 1 update calls: bug k is the k-th, every bug gets the same `dt`, and the player comes after all of them |
| Engine.LevelOneFrame | js/engine.js:181-267 | a level-1 frame has 137 calls plus one per bug and draws 135 images; the two doors are calls 124 and 125 |
| Engine.DoorsDrawnLast | js/engine.js:231-260 | with 100 cells, 25 obstacles ending in the two doors and 10 building pieces, the doors are the last two obstacle draws |
| Engine.Game.Tick | js/engine.js:26-33 | one tick: updates with `dt = now - lastTime`, then the collision log of the moved player, then the frame's draws; the player ends at its move or back where the tick began, as the move is blocked or not; `lastTime` becomes `now`; every update comes before every report, and every report before every draw |
| Engine.Game.Init | js/engine.js:35-39 | the first tick's `dt` is measured from the start time, and the tick is otherwise `Tick`, phases in the same order |

## Left out

- Canvas and DOM creation, the `global.ctx` export and the pixel effects of
  `clearRect` and `drawImage` (js/engine.js:17-24, 279) are host I/O. A draw is
  recorded as an event naming the tile kind, the layer and the position.
- `Resources.load`, `Resources.get` and `Resources.onReady`
  (js/engine.js:277-278) belong to an asset loader outside this file. The
  sprite paths of the tile table (js/engine.js:90-166) are static data, so only
  each descriptor's passability class is kept.
- `Date.now` is not modelled: the current time is a parameter of `Tick` and
  `Init`.
- The `requestAnimationFrame` rescheduling (js/engine.js:32) is host
  scheduling. The model covers one tick per call and does not model the
  endless loop.
- Engine.Game.Tick: `dt` is kept as an integer number of milliseconds. The
  source's floating-point division by 1000 is not modelled.
- The behaviour of the player's and the bugs' own `update` and `render` is
  defined outside this file.
  - A bug's update is represented by the positions the bugs end at, which are
    given as a parameter.
  - The player's update is represented by `Collision.Player.Update`. It
    records the tick's starting position in `previousLocation` and moves to a
    given point.
  - Entity renders are opaque `RenderEnemy` and `RenderPlayer` events.
- The engine never adds or removes bugs, so `Tick` requires one new position
  per existing bug.
- `console.log` output is not modelled as I/O. Each report is an `Event`, and
  `Collision.Message` gives its text.
- `reset` (js/engine.js:276) is empty.
- Before the placement loop, a grid tile has no position at all (its `x` and
  `y` are undefined). The model starts each one at (0, 0), and the loop
  overwrites both.
- The renderer walks rows of any length. The model's grid is rectangular (an
  `array2`), as level 1's is.
- Layout.LayOutBaseLayer: requires at least 10 rows and 10 columns. The source
  would fail on a smaller grid, and its only grid is 10 x 10.
