// The per-frame collision resolver: the player against every obstacle (rolling
// the player back on overlap), then each bug against the player and against
// every obstacle (reported only). Reports are modelled as `Event` values.

module Collision {
  import opened Geometry
  import opened Tiles

  /** One report of the resolver; the console text is fixed by the kind (see `Message`). */
  datatype Event =
    | PlayerHitObstacle(obstacle: nat)
    | PlayerHitBug(enemy: nat)
    | BugHitObstacle(enemy: nat, obstacle: nat)

  /** The line the engine writes to the console for each kind of report; the line tells the kinds apart. */
  function Message(e: Event): (m: string)
    ensures e.PlayerHitObstacle? <==> m == "Player collided with an obstacle!"
    ensures e.PlayerHitBug? <==> m == "Player collided with a bug"
    ensures e.BugHitObstacle? <==> m == "Bug collided with an obstacle"
  {
    match e
    case PlayerHitObstacle(_) => "Player collided with an obstacle!"
    case PlayerHitBug(_) => "Player collided with a bug"
    case BugHitObstacle(_, _) => "Bug collided with an obstacle"
  }

  /** The player: the one entity whose position the resolver writes. */
  class Player {
    var x: int
    var y: int
    var previousLocation: Point

    constructor (start: Point)
      ensures x == start.x && y == start.y && previousLocation == start
    {
      x, y := start.x, start.y;
      previousLocation := start;
    }

    function Position(): Point
      reads this
    {
      Point(x, y)
    }

    /**
     * Stand-in for the player's own update, which lives outside the engine:
     * it records where the tick started and then moves.
     */
    method Update(move: Point)
      modifies this
      ensures previousLocation == old(Position()) && Position() == move
    {
      previousLocation := Point(x, y);
      x, y := move.x, move.y;
    }
  }

  function TileHitbox(t: Tile): Rect
  {
    Hitbox(Point(t.x, t.y))
  }

  /** Some obstacle's hitbox overlaps `box`, obstacles scanned in list order. */
  predicate Blocked(box: Rect, obstacles: seq<Tile>)
    decreases |obstacles|
  {
    |obstacles| > 0 &&
    (Blocked(box, obstacles[..|obstacles| - 1]) ||
     Intersects(TileHitbox(obstacles[|obstacles| - 1]), box))
  }

  /** Where the resolver leaves a player found at `pos` whose tick began at `previous`. */
  function Resolved(pos: Point, previous: Point, obstacles: seq<Tile>): Point
  {
    if Blocked(Hitbox(pos), obstacles) then previous else pos
  }

  /** Reports of the player-against-obstacles pass, in obstacle order. */
  function PlayerObstacleEvents(box: Rect, obstacles: seq<Tile>): seq<Event>
    decreases |obstacles|
  {
    if obstacles == [] then []
    else
      var n := |obstacles| - 1;
      PlayerObstacleEvents(box, obstacles[..n]) +
      (if Intersects(TileHitbox(obstacles[n]), box) then [PlayerHitObstacle(n)] else [])
  }

  /** Reports of one bug against every obstacle, in obstacle order. */
  function BugObstacleEvents(enemy: nat, bugBox: Rect, obstacles: seq<Tile>): seq<Event>
    decreases |obstacles|
  {
    if obstacles == [] then []
    else
      var n := |obstacles| - 1;
      BugObstacleEvents(enemy, bugBox, obstacles[..n]) +
      (if Intersects(bugBox, TileHitbox(obstacles[n])) then [BugHitObstacle(enemy, n)] else [])
  }

  /** Reports of the per-bug pass: for each bug, its player report, then its obstacle reports. */
  function EnemyEvents(box: Rect, enemies: seq<Point>, obstacles: seq<Tile>): seq<Event>
    decreases |enemies|
  {
    if enemies == [] then []
    else
      var e := |enemies| - 1;
      EnemyEvents(box, enemies[..e], obstacles) +
      (if Intersects(Hitbox(enemies[e]), box) then [PlayerHitBug(e)] else []) +
      BugObstacleEvents(e, Hitbox(enemies[e]), obstacles)
  }

  /** Everything one call of the resolver reports, for the player hitbox `box` taken at entry. */
  function CollisionLog(box: Rect, enemies: seq<Point>, obstacles: seq<Tile>): seq<Event>
  {
    PlayerObstacleEvents(box, obstacles) + EnemyEvents(box, enemies, obstacles)
  }

  /** The pair an event names exists and its two hitboxes overlap. */
  predicate Occurs(ev: Event, box: Rect, enemies: seq<Point>, obstacles: seq<Tile>)
  {
    match ev
    case PlayerHitObstacle(o) =>
      o < |obstacles| && Intersects(TileHitbox(obstacles[o]), box)
    case PlayerHitBug(e) =>
      e < |enemies| && Intersects(Hitbox(enemies[e]), box)
    case BugHitObstacle(e, o) =>
      e < |enemies| && o < |obstacles| && Intersects(Hitbox(enemies[e]), TileHitbox(obstacles[o]))
  }

  // The order in which reports are due: the player pass first (group -1), then
  // bug by bug; within a bug its player report (-1) before its obstacle reports.
  function Group(ev: Event): int
  {
    match ev
    case PlayerHitObstacle(_) => -1
    case PlayerHitBug(e) => e
    case BugHitObstacle(e, _) => e
  }

  function Within(ev: Event): int
  {
    match ev
    case PlayerHitObstacle(o) => o
    case PlayerHitBug(_) => -1
    case BugHitObstacle(_, o) => o
  }

  predicate Precedes(a: Event, b: Event)
  {
    Group(a) < Group(b) || (Group(a) == Group(b) && Within(a) < Within(b))
  }

  /** Strictly increasing in report order (so also free of duplicates). */
  predicate Sorted(log: seq<Event>)
  {
    forall i, j :: 0 <= i < j < |log| ==> Precedes(log[i], log[j])
  }

  /**
   * `checkCollisions`. The player hitbox is taken once, on entry; every
   * obstacle overlapping it moves the player back to `previousLocation`.
   * Obstacles and bugs are values here, so they cannot change.
   */
  method CheckCollisions(player: Player, obstacles: seq<Tile>, enemies: seq<Point>)
    returns (log: seq<Event>)
    modifies player
    ensures player.previousLocation == old(player.previousLocation)
    ensures player.Position() ==
            Resolved(old(player.Position()), player.previousLocation, obstacles)
    ensures log == CollisionLog(Hitbox(old(player.Position())), enemies, obstacles)
  {
    var playerRect := Hitbox(Point(player.x, player.y));
    log := [];
    var i := 0;
    while i < |obstacles|
      invariant 0 <= i <= |obstacles|
      invariant player.previousLocation == old(player.previousLocation)
      invariant player.Position() ==
                if Blocked(playerRect, obstacles[..i]) then player.previousLocation
                else old(player.Position())
      invariant log == PlayerObstacleEvents(playerRect, obstacles[..i])
    {
      var obstacleRect := TileHitbox(obstacles[i]);
      assert obstacles[..i + 1][..i] == obstacles[..i];
      if Intersects(obstacleRect, playerRect) {
        log := log + [PlayerHitObstacle(i)];
        player.x := player.previousLocation.x;
        player.y := player.previousLocation.y;
      }
      i := i + 1;
    }
    assert obstacles[..i] == obstacles;
    var bugLog := CheckBugs(playerRect, enemies, obstacles);
    log := log + bugLog;
  }

  /** The per-bug pass of `checkCollisions`: each bug against the player, then against every obstacle; reporting only. */
  method CheckBugs(playerRect: Rect, enemies: seq<Point>, obstacles: seq<Tile>) returns (log: seq<Event>)
    ensures log == EnemyEvents(playerRect, enemies, obstacles)
  {
    log := [];
    var e := 0;
    while e < |enemies|
      invariant 0 <= e <= |enemies|
      invariant log == EnemyEvents(playerRect, enemies[..e], obstacles)
    {
      var bugRect := Hitbox(enemies[e]);
      if Intersects(bugRect, playerRect) {
        log := log + [PlayerHitBug(e)];
      }
      var bugLog := CheckBugAgainstObstacles(e, bugRect, obstacles);
      log := log + bugLog;
      assert enemies[..e + 1][..e] == enemies[..e];
      e := e + 1;
    }
    assert enemies[..e] == enemies;
  }

  /** The inner pass of `checkCollisions`: one bug against every obstacle, reporting only. */
  method CheckBugAgainstObstacles(enemy: nat, bugRect: Rect, obstacles: seq<Tile>)
    returns (log: seq<Event>)
    ensures log == BugObstacleEvents(enemy, bugRect, obstacles)
  {
    log := [];
    var j := 0;
    while j < |obstacles|
      invariant 0 <= j <= |obstacles|
      invariant log == BugObstacleEvents(enemy, bugRect, obstacles[..j])
    {
      assert obstacles[..j + 1][..j] == obstacles[..j];
      var obstacleRect := TileHitbox(obstacles[j]);
      if Intersects(bugRect, obstacleRect) {
        log := log + [BugHitObstacle(enemy, j)];
      }
      j := j + 1;
    }
    assert obstacles[..j] == obstacles;
  }

  // ---------------------------------------------------------------- rollback

  /** The recursive scan agrees with "some obstacle overlaps". */
  lemma {:induction false} BlockedIff(box: Rect, obstacles: seq<Tile>)
    ensures Blocked(box, obstacles) <==>
            exists i :: 0 <= i < |obstacles| && Intersects(TileHitbox(obstacles[i]), box)
    decreases |obstacles|
  {
    if obstacles != [] {
      var n := |obstacles| - 1;
      BlockedIff(box, obstacles[..n]);
      if Blocked(box, obstacles[..n]) {
        var i :| 0 <= i < n && Intersects(TileHitbox(obstacles[..n][i]), box);
        assert obstacles[i] == obstacles[..n][i];
      }
      if exists i :: 0 <= i < |obstacles| && Intersects(TileHitbox(obstacles[i]), box) {
        var i :| 0 <= i < |obstacles| && Intersects(TileHitbox(obstacles[i]), box);
        if i < n {
          assert obstacles[..n][i] == obstacles[i];
        }
      }
    }
  }

  /**
   * The rollback: one overlapping obstacle or many, the player ends at
   * `previous`; with none, the player stays where it was.
   */
  lemma ResolvedRollsBack(pos: Point, previous: Point, obstacles: seq<Tile>)
    ensures (exists i :: 0 <= i < |obstacles| && Intersects(TileHitbox(obstacles[i]), Hitbox(pos)))
            ==> Resolved(pos, previous, obstacles) == previous
    ensures (forall i :: 0 <= i < |obstacles| ==> !Intersects(TileHitbox(obstacles[i]), Hitbox(pos)))
            ==> Resolved(pos, previous, obstacles) == pos
  {
    BlockedIff(Hitbox(pos), obstacles);
  }

  /** The player was rolled back iff the player pass reported something. */
  lemma {:induction false} RollbackIffReported(box: Rect, obstacles: seq<Tile>)
    ensures Blocked(box, obstacles) <==> PlayerObstacleEvents(box, obstacles) != []
    decreases |obstacles|
  {
    if obstacles != [] {
      RollbackIffReported(box, obstacles[..|obstacles| - 1]);
    }
  }

  // ------------------------------------------------------------- report log

  lemma SortedAppend(s: seq<Event>, t: seq<Event>)
    requires Sorted(s) && Sorted(t)
    requires forall a, b :: a in s && b in t ==> Precedes(a, b)
    ensures Sorted(s + t)
  {
    forall i, j | 0 <= i < j < |s + t|
      ensures Precedes((s + t)[i], (s + t)[j])
    {
      if j < |s| {
        assert (s + t)[i] == s[i] && (s + t)[j] == s[j];
      } else if i >= |s| {
        assert (s + t)[i] == t[i - |s|] && (s + t)[j] == t[j - |s|];
      } else {
        assert (s + t)[i] == s[i] && (s + t)[j] == t[j - |s|];
        assert s[i] in s && t[j - |s|] in t;
      }
    }
  }

  lemma {:induction false} PlayerObstacleEventsSpec(box: Rect, obstacles: seq<Tile>)
    ensures Sorted(PlayerObstacleEvents(box, obstacles))
    ensures forall ev :: ev in PlayerObstacleEvents(box, obstacles) <==>
              ev.PlayerHitObstacle? && ev.obstacle < |obstacles| &&
              Intersects(TileHitbox(obstacles[ev.obstacle]), box)
    decreases |obstacles|
  {
    if obstacles != [] {
      var n := |obstacles| - 1;
      var front := obstacles[..n];
      PlayerObstacleEventsSpec(box, front);
      var last := if Intersects(TileHitbox(obstacles[n]), box) then [PlayerHitObstacle(n)] else [];
      SortedAppend(PlayerObstacleEvents(box, front), last);
      assert forall o :: 0 <= o < n ==> front[o] == obstacles[o];
    }
  }

  lemma {:induction false} BugObstacleEventsSpec(enemy: nat, bugBox: Rect, obstacles: seq<Tile>)
    ensures Sorted(BugObstacleEvents(enemy, bugBox, obstacles))
    ensures forall ev :: ev in BugObstacleEvents(enemy, bugBox, obstacles) <==>
              ev.BugHitObstacle? && ev.enemy == enemy && ev.obstacle < |obstacles| &&
              Intersects(bugBox, TileHitbox(obstacles[ev.obstacle]))
    decreases |obstacles|
  {
    if obstacles != [] {
      var n := |obstacles| - 1;
      var front := obstacles[..n];
      BugObstacleEventsSpec(enemy, bugBox, front);
      var last := if Intersects(bugBox, TileHitbox(obstacles[n])) then [BugHitObstacle(enemy, n)] else [];
      SortedAppend(BugObstacleEvents(enemy, bugBox, front), last);
      assert forall o :: 0 <= o < n ==> front[o] == obstacles[o];
    }
  }

  lemma {:induction false} EnemyEventsSpec(box: Rect, enemies: seq<Point>, obstacles: seq<Tile>)
    ensures Sorted(EnemyEvents(box, enemies, obstacles))
    ensures forall ev :: ev in EnemyEvents(box, enemies, obstacles) <==>
              !ev.PlayerHitObstacle? && Occurs(ev, box, enemies, obstacles)
    decreases |enemies|
  {
    if enemies != [] {
      var e := |enemies| - 1;
      var front := enemies[..e];
      var bugBox := Hitbox(enemies[e]);
      EnemyEventsSpec(box, front, obstacles);
      BugObstacleEventsSpec(e, bugBox, obstacles);
      var bug := if Intersects(bugBox, box) then [PlayerHitBug(e)] else [];
      var obs := BugObstacleEvents(e, bugBox, obstacles);
      SortedAppend(bug, obs);
      SortedAppend(EnemyEvents(box, front, obstacles), bug + obs);
      assert EnemyEvents(box, enemies, obstacles) == EnemyEvents(box, front, obstacles) + (bug + obs);
      forall ev: Event | !ev.PlayerHitObstacle? && Group(ev) < e
        ensures Occurs(ev, box, front, obstacles) <==> Occurs(ev, box, enemies, obstacles)
      {
        assert front[Group(ev)] == enemies[Group(ev)];
      }
    }
  }

  /**
   * The resolver's log lists exactly the overlapping pairs, each once, in
   * report order: player pass first in obstacle order, then bug by bug.
   */
  lemma CollisionLogSpec(box: Rect, enemies: seq<Point>, obstacles: seq<Tile>)
    ensures Sorted(CollisionLog(box, enemies, obstacles))
    ensures forall ev :: ev in CollisionLog(box, enemies, obstacles) <==> Occurs(ev, box, enemies, obstacles)
  {
    PlayerObstacleEventsSpec(box, obstacles);
    EnemyEventsSpec(box, enemies, obstacles);
    SortedAppend(PlayerObstacleEvents(box, obstacles), EnemyEvents(box, enemies, obstacles));
  }

  /** Two logs in report order with the same reports are the same log. */
  lemma {:induction false} SortedUnique(s: seq<Event>, t: seq<Event>)
    requires Sorted(s) && Sorted(t)
    requires forall ev :: ev in s <==> ev in t
    ensures s == t
    decreases |s|
  {
    if s == [] {
      assert forall k :: 0 <= k < |t| ==> t[k] in t;
    } else {
      assert s[0] in s;
      assert t != [];
      assert t[0] in t;
      assert s[0] == t[0] by {
        assert t[0] in s && s[0] in t;
      }
      forall ev
        ensures ev in s[1..] <==> ev in t[1..]
      {
        if ev in s[1..] {
          var k :| 0 <= k < |s[1..]| && s[1..][k] == ev;
          assert Precedes(s[0], s[k + 1]);
          assert ev in t;
        }
        if ev in t[1..] {
          var k :| 0 <= k < |t[1..]| && t[1..][k] == ev;
          assert Precedes(t[0], t[k + 1]);
          assert ev in s;
        }
      }
      SortedUnique(s[1..], t[1..]);
      assert s == [s[0]] + s[1..] && t == [t[0]] + t[1..];
    }
  }

  /**
   * An independent description of the log: a sequence is the resolver's log
   * iff it is in report order and holds exactly the overlapping pairs.
   */
  lemma CollisionLogCharacterized(log: seq<Event>, box: Rect, enemies: seq<Point>, obstacles: seq<Tile>)
    ensures log == CollisionLog(box, enemies, obstacles) <==>
            Sorted(log) && forall ev :: ev in log <==> Occurs(ev, box, enemies, obstacles)
  {
    CollisionLogSpec(box, enemies, obstacles);
    if Sorted(log) && forall ev :: ev in log <==> Occurs(ev, box, enemies, obstacles) {
      SortedUnique(log, CollisionLog(box, enemies, obstacles));
    }
  }
}
