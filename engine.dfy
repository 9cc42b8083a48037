// The frame driver: `init` records the start time and runs the first tick;
// each tick (`main`) updates every bug and then the player, resolves
// collisions, renders the scene and records the tick's time.

module Engine {
  import opened Geometry
  import opened Tiles
  import opened Collision
  import opened Layout
  import opened Scene

  /** A call the update phase makes on an entity; `dt` is the elapsed time in milliseconds. */
  datatype UpdateCall = UpdateEnemy(index: nat, dt: int) | UpdatePlayer

  /** One observable step of a tick, in the order the tick performs them. */
  datatype FrameEvent = Updated(call: UpdateCall) | Reported(event: Event) | Drawn(draw: Draw)

  /** Every bug's update, in collection order. */
  function EnemyUpdates(count: nat, dt: int): seq<UpdateCall>
  {
    if count == 0 then [] else EnemyUpdates(count - 1, dt) + [UpdateEnemy(count - 1, dt)]
  }

  /** `updateEntities`: all bugs first, the player last. */
  function UpdateCalls(enemyCount: nat, dt: int): seq<UpdateCall>
  {
    EnemyUpdates(enemyCount, dt) + [UpdatePlayer]
  }

  /** `updateEntities`, as the loop over the bugs followed by the player's update. */
  method UpdateEntities(enemyCount: nat, dt: int) returns (calls: seq<UpdateCall>)
    ensures calls == UpdateCalls(enemyCount, dt)
  {
    calls := [];
    var i := 0;
    while i < enemyCount
      invariant 0 <= i <= enemyCount
      invariant calls == EnemyUpdates(i, dt)
    {
      calls := calls + [UpdateEnemy(i, dt)];
      i := i + 1;
    }
    calls := calls + [UpdatePlayer];
  }

  /** Bug `k` is updated `k`-th, every bug with the same `dt`, and the player after all of them. */
  lemma {:induction false} UpdateOrder(enemyCount: nat, dt: int)
    ensures |UpdateCalls(enemyCount, dt)| == enemyCount + 1
    ensures forall k :: 0 <= k < enemyCount ==> UpdateCalls(enemyCount, dt)[k] == UpdateEnemy(k, dt)
    ensures UpdateCalls(enemyCount, dt)[enemyCount] == UpdatePlayer
    decreases enemyCount
  {
    if enemyCount > 0 {
      UpdateOrder(enemyCount - 1, dt);
      var front := EnemyUpdates(enemyCount - 1, dt);
      assert EnemyUpdates(enemyCount, dt) == front + [UpdateEnemy(enemyCount - 1, dt)];
      assert UpdateCalls(enemyCount - 1, dt) == front + [UpdatePlayer];
      assert forall k :: 0 <= k < enemyCount - 1 ==> front[k] == UpdateCalls(enemyCount - 1, dt)[k];
    }
  }

  function UpdateEvents(calls: seq<UpdateCall>): (r: seq<FrameEvent>)
    ensures |r| == |calls| && forall i :: 0 <= i < |calls| ==> r[i] == Updated(calls[i])
  {
    seq(|calls|, i requires 0 <= i < |calls| => Updated(calls[i]))
  }

  function ReportEvents(log: seq<Event>): (r: seq<FrameEvent>)
    ensures |r| == |log| && forall i :: 0 <= i < |log| ==> r[i] == Reported(log[i])
  {
    seq(|log|, i requires 0 <= i < |log| => Reported(log[i]))
  }

  function DrawEvents(draws: seq<Draw>): (r: seq<FrameEvent>)
    ensures |r| == |draws| && forall i :: 0 <= i < |draws| ==> r[i] == Drawn(draws[i])
  {
    seq(|draws|, i requires 0 <= i < |draws| => Drawn(draws[i]))
  }

  /** The phase a step belongs to: update, then collision check, then render; a tick never goes back a phase. */
  function Phase(e: FrameEvent): nat
  {
    match e
    case Updated(_) => 0
    case Reported(_) => 1
    case Drawn(_) => 2
  }

  /**
   * A level-1 frame: 100 grass cells, 25 obstacles (the two doors included)
   * and 10 building pieces are drawn, 135 images in all, between the clear
   * and the bugs' and player's renders.
   */
  lemma LevelOneFrame(grid: array2<Tile>, obstacles: seq<Tile>, building: seq<Tile>, enemyCount: nat)
    requires grid.Length0 == GridSize && grid.Length1 == GridSize
    requires obstacles == DeclaredObstacles + Doors && building == Building
    ensures |Scene.Frame(grid, obstacles, building, enemyCount)| == 137 + enemyCount
    ensures ImageCount(Scene.Frame(grid, obstacles, building, enemyCount)) == 135
    ensures Scene.Frame(grid, obstacles, building, enemyCount)[124] == DrawImage(Obstacles, Door, 505, 80)
    ensures Scene.Frame(grid, obstacles, building, enemyCount)[125] == DrawImage(Obstacles, Door, 405, 80)
  {
    ObstaclesImpassable();
    assert |building| == 10;
    DoorsDrawnLast(grid, obstacles, building, enemyCount);
  }

  /** The frame arithmetic behind `LevelOneFrame`, for any lists of level 1's sizes ending in the doors. */
  lemma DoorsDrawnLast(grid: array2<Tile>, obstacles: seq<Tile>, building: seq<Tile>, enemyCount: nat)
    requires grid.Length0 == GridSize && grid.Length1 == GridSize
    requires |obstacles| == 25 && obstacles[23..] == Doors && |building| == 10
    ensures |Scene.Frame(grid, obstacles, building, enemyCount)| == 137 + enemyCount
    ensures ImageCount(Scene.Frame(grid, obstacles, building, enemyCount)) == 135
    ensures Scene.Frame(grid, obstacles, building, enemyCount)[124] == DrawImage(Obstacles, Door, 505, 80)
    ensures Scene.Frame(grid, obstacles, building, enemyCount)[125] == DrawImage(Obstacles, Door, 405, 80)
  {
    FrameLayout(grid, obstacles, building, enemyCount);
    FrameBackToFront(grid, obstacles, building, enemyCount);
    assert obstacles[23] == Doors[0] && obstacles[24] == Doors[1];
    assert 1 + grid.Length0 * grid.Length1 + 23 == 124;
  }

  /** The game state the tick loop owns. */
  class Game {
    var lastTime: int
    var enemies: seq<Point>
    const player: Player
    const level: Level

    constructor (level: Level, player: Player, enemies: seq<Point>)
      ensures this.level == level && this.player == player && this.enemies == enemies
      ensures lastTime == 0
    {
      this.level := level;
      this.player := player;
      this.enemies := enemies;
      lastTime := 0;
    }

    /**
     * `main`: one tick at time `now`. The bugs' and the player's own updates
     * are outside the engine; here bug `k` ends its update at `enemyMoves[k]`
     * and the player's update moves it to `playerMove`. The player then ends
     * the tick either at `playerMove` or, if that spot overlaps an obstacle,
     * back where the tick began.
     */
    method Tick(now: int, enemyMoves: seq<Point>, playerMove: Point) returns (frame: seq<FrameEvent>)
      requires |enemyMoves| == |enemies|
      modifies this, player
      ensures lastTime == now && enemies == enemyMoves
      ensures player.previousLocation == old(player.Position())
      ensures player.Position() ==
              if Blocked(Hitbox(playerMove), level.obstacles) then old(player.Position()) else playerMove
      ensures frame ==
              UpdateEvents(UpdateCalls(|enemyMoves|, now - old(lastTime))) +
              ReportEvents(CollisionLog(Hitbox(playerMove), enemyMoves, level.obstacles)) +
              DrawEvents(Scene.Frame(level.baseLayer, level.obstacles, level.building, |enemyMoves|))
      ensures forall i, j :: 0 <= i < j < |frame| ==> Phase(frame[i]) <= Phase(frame[j])
    {
      var dt := now - lastTime;
      var calls := UpdateEntities(|enemies|, dt);
      enemies := enemyMoves;
      player.Update(playerMove);
      var log := CheckCollisions(player, level.obstacles, enemies);
      var draws := Render(level.baseLayer, level.obstacles, level.building, |enemies|);
      lastTime := now;
      frame := UpdateEvents(calls) + ReportEvents(log) + DrawEvents(draws);
    }

    /** `init`: `reset` does nothing; the start time is recorded and the first tick runs. */
    method Init(start: int, now: int, enemyMoves: seq<Point>, playerMove: Point)
      returns (frame: seq<FrameEvent>)
      requires |enemyMoves| == |enemies|
      modifies this, player
      ensures lastTime == now && enemies == enemyMoves
      ensures player.previousLocation == old(player.Position())
      ensures player.Position() ==
              if Blocked(Hitbox(playerMove), level.obstacles) then old(player.Position()) else playerMove
      ensures frame ==
              UpdateEvents(UpdateCalls(|enemyMoves|, now - start)) +
              ReportEvents(CollisionLog(Hitbox(playerMove), enemyMoves, level.obstacles)) +
              DrawEvents(Scene.Frame(level.baseLayer, level.obstacles, level.building, |enemyMoves|))
      ensures forall i, j :: 0 <= i < j < |frame| ==> Phase(frame[i]) <= Phase(frame[j])
    {
      lastTime := start;
      frame := Tick(now, enemyMoves, playerMove);
    }
  }
}
