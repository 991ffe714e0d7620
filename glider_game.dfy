/** The hang-glider game: a frame of play (clock, scrolling background,
    steering, spawning, scrolling entities, dropping the ones marked for
    deletion, collisions, the goal time) and the title, game-over and goal
    screens that wait for Enter or Space. */
module GliderGame {
  import opened Geometry
  import opened Rand
  import opened GliderEntities

  datatype GameState = Start | Playing | GameOver | Win

  const BgSpeed: real := 2.0
  const MaxTime: real := 270.0
  const EnemyInterval: real := 2000.0
  const ItemInterval: real := 5000.0

  // ---------------------------------------------------------------------
  // The rules on values.

  /** The background offset after one frame's scroll: back to 0 once a
      whole screen width has scrolled by. */
  function Scroll(bgX: real, width: real): real
  {
    var b := bgX - BgSpeed;
    if b <= -width then 0.0 else b
  }

  function MoveAll(vs: seq<Sprite>): seq<Sprite>
  {
    seq(|vs|, i requires 0 <= i < |vs| => Moved(vs[i]))
  }

  /** The sprites not marked for deletion, in their order. */
  function Survivors(vs: seq<Sprite>): seq<Sprite>
  {
    if vs == [] then []
    else Survivors(vs[..|vs| - 1]) + (if vs[|vs| - 1].marked then [] else [vs[|vs| - 1]])
  }

  /** Dropping the marked sprites keeps exactly the unmarked ones. */
  lemma {:induction false} SurvivorsMembers(vs: seq<Sprite>)
    ensures forall s :: s in Survivors(vs) <==> s in vs && !s.marked
  {
    if vs != [] {
      SurvivorsMembers(vs[..|vs| - 1]);
      assert vs == vs[..|vs| - 1] + [vs[|vs| - 1]];
    }
  }

  /** The player's glider overlaps the sprite's hit box, shrunk by `inset`
      on every side, and the sprite is not already marked. */
  predicate Hit(pb: Box, s: Sprite, inset: real)
  {
    !s.marked && ClosedOverlap(pb, Inset(SpriteBox(s), inset))
  }

  function MarkOne(pb: Box, s: Sprite, inset: real): Sprite
  {
    s.(marked := s.marked || Hit(pb, s, inset))
  }

  /** Every sprite the player hits is marked; nothing else changes. */
  function MarkHits(pb: Box, vs: seq<Sprite>, inset: real): seq<Sprite>
  {
    seq(|vs|, i requires 0 <= i < |vs| => MarkOne(pb, vs[i], inset))
  }

  /** The number of sprites the player hits. */
  function CountHits(pb: Box, vs: seq<Sprite>, inset: real): nat
  {
    if vs == [] then 0
    else CountHits(pb, vs[..|vs| - 1], inset) + (if Hit(pb, vs[|vs| - 1], inset) then 1 else 0)
  }

  /** The number of marked sprites. */
  function MarkedCount(vs: seq<Sprite>): nat
  {
    if vs == [] then 0
    else MarkedCount(vs[..|vs| - 1]) + (if vs[|vs| - 1].marked then 1 else 0)
  }

  /** Each hit marks one more sprite: the marks after the collision test
      are the marks before plus the hits. */
  lemma {:induction false} MarkHitsCount(pb: Box, vs: seq<Sprite>, inset: real)
    ensures MarkedCount(MarkHits(pb, vs, inset)) == MarkedCount(vs) + CountHits(pb, vs, inset)
  {
    if vs != [] {
      var n := |vs|;
      MarkHitsCount(pb, vs[..n - 1], inset);
      assert MarkHits(pb, vs, inset)[..n - 1] == MarkHits(pb, vs[..n - 1], inset);
    }
  }

  lemma {:induction false} SurvivorsUnmarkedCount(vs: seq<Sprite>)
    ensures MarkedCount(Survivors(vs)) == 0
  {
    if vs != [] {
      var n := |vs|;
      SurvivorsUnmarkedCount(vs[..n - 1]);
      var rest := Survivors(vs[..n - 1]);
      if !vs[n - 1].marked {
        var t := rest + [vs[n - 1]];
        assert Survivors(vs) == t;
        assert t[..|t| - 1] == rest;
        assert MarkedCount(t) == MarkedCount(rest);
      } else {
        assert Survivors(vs) == rest;
      }
    }
  }

  /** The player's hit box at a position. */
  function PlayerBox(px: real, py: real): Box
  {
    Inset(Box(px, py, 64.0, 64.0), 10.0)
  }

  /** The rule state of the game: the player's position, the obstacles
      and sweets on screen, the background offset, score, lives, play time
      in seconds, the screen, and the two spawn timers in milliseconds. */
  datatype GameView = GameView(
    playerX: real, playerY: real,
    obstacles: seq<Sprite>, items: seq<Sprite>,
    bgX: real, score: int, lives: int, gameTime: real, state: GameState,
    enemyTimer: real, itemTimer: real)

  /** The draws a frame may consume: the obstacle kind and height, and the
      sweet's height. */
  datatype FrameDraws = FrameDraws(kind: real, obstacleY: real, itemY: real)

  predicate FrameDrawsOk(d: FrameDraws) { IsDraw(d.kind) && IsDraw(d.obstacleY) && IsDraw(d.itemY) }

  function NewObstacle(width: real, height: real, d: FrameDraws): Sprite
    requires FrameDrawsOk(d)
  {
    Sprite(width, Scale(d.obstacleY, height - 64.0), 64.0, 64.0, BgSpeed + 2.0, false)
  }

  function NewItem(width: real, height: real, d: FrameDraws): Sprite
    requires FrameDrawsOk(d)
  {
    Sprite(width, Scale(d.itemY, height - 48.0), 48.0, 48.0, BgSpeed + 2.0, false)
  }

  /** A spawn timer: past its interval it releases exactly one new sprite
      and restarts from 0; otherwise it counts the frame's time. */
  function SpawnStep(timer: real, interval: real, dt: real, list: seq<Sprite>, spawn: Sprite): (seq<Sprite>, real)
  {
    if timer > interval then (list + [spawn], 0.0) else (list, timer + dt)
  }

  /** The first phase of a frame of play, `dt` milliseconds long: the
      clock, the background, the glider's move and the spawn timers. */
  function Advanced(g: GameView, width: real, height: real, dt: real, keys: Keys, d: FrameDraws): GameView
    requires FrameDrawsOk(d)
  {
    var spawnedObstacles := SpawnStep(g.enemyTimer, EnemyInterval, dt, g.obstacles, NewObstacle(width, height, d));
    var spawnedItems := SpawnStep(g.itemTimer, ItemInterval, dt, g.items, NewItem(width, height, d));
    g.(gameTime := g.gameTime + dt / 1000.0,
       bgX := Scroll(g.bgX, width),
       playerX := Contain(g.playerX + Axis(keys, "ArrowLeft", "ArrowRight", 5.0), 64.0, width),
       playerY := Contain(g.playerY + Axis(keys, "ArrowUp", "ArrowDown", 5.0), 64.0, height),
       obstacles := spawnedObstacles.0, enemyTimer := spawnedObstacles.1,
       items := spawnedItems.0, itemTimer := spawnedItems.1)
  }

  /** The second phase: every entity moves, then the marked ones are
      dropped. */
  function Scrolled(g: GameView): GameView
  {
    g.(obstacles := Survivors(MoveAll(g.obstacles)), items := Survivors(MoveAll(g.items)))
  }

  /** The third phase, the collision test: hit obstacles are marked and
      cost a life each, the round is lost when a hit leaves no lives, and
      caught sweets are marked and score 100 each. */
  function Collided(g: GameView): GameView
  {
    var pb := PlayerBox(g.playerX, g.playerY);
    var hits := CountHits(pb, g.obstacles, 5.0);
    var lives := g.lives - hits;
    g.(obstacles := MarkHits(pb, g.obstacles, 5.0), lives := lives,
       state := if hits > 0 && lives <= 0 then GameOver else g.state,
       items := MarkHits(pb, g.items, 0.0), score := g.score + 100 * CountHits(pb, g.items, 0.0))
  }

  /** The last phase: reaching the goal time wins, even in the frame that
      lost the last life. */
  function GoalCheck(g: GameView): GameView
  {
    if g.gameTime >= MaxTime then g.(state := Win) else g
  }

  /** One frame of play. */
  function PlayingFrame(g: GameView, width: real, height: real, dt: real, keys: Keys, d: FrameDraws): GameView
    requires FrameDrawsOk(d)
  {
    GoalCheck(Collided(Scrolled(Advanced(g, width, height, dt, keys, d))))
  }

  /** A new round: score, lives, clock and entities reset and the glider
      back at its start. The background and the spawn timers carry on. */
  function Restarted(g: GameView, height: real): GameView
  {
    g.(score := 0, lives := 3, gameTime := 0.0, obstacles := [], items := [],
       playerX := 100.0, playerY := height / 2.0, state := Playing)
  }

  /** One call of the update: a frame of play, or on the other screens a
      check for Enter or Space. */
  function Tick(g: GameView, width: real, height: real, dt: real, keys: Keys, d: FrameDraws): GameView
    requires FrameDrawsOk(d)
  {
    if g.state == Playing then PlayingFrame(g, width, height, dt, keys, d)
    else if "Enter" in keys || "Space" in keys then
      (if g.state != Start then Restarted(g, height) else g.(state := Playing))
    else g
  }

  /** The screens: the title and the end screens wait for Enter or Space,
      which starts play or a fresh round; play goes on, ends at the goal
      time, or ends when a hit leaves no lives. */
  lemma Transitions(g: GameView, width: real, height: real, dt: real, keys: Keys, d: FrameDraws)
    requires FrameDrawsOk(d)
    ensures var r := Tick(g, width, height, dt, keys, d);
            var pressed := "Enter" in keys || "Space" in keys;
            (g.state == Start ==> r == (if pressed then g.(state := Playing) else g)) &&
            (g.state in {GameOver, Win} ==>
               r == (if pressed then Restarted(g, height) else g) &&
               (pressed ==> r.state == Playing && r.score == 0 && r.lives == 3 && r.gameTime == 0.0 &&
                            r.obstacles == [] && r.items == [] && r.playerX == 100.0 && r.playerY == height / 2.0)) &&
            (g.state == Playing ==>
               (r.state == Win <==> g.gameTime + dt / 1000.0 >= MaxTime) &&
               (r.state == GameOver <==> r.state != Win && r.lives <= 0 && r.lives < g.lives) &&
               (r.state == Playing <==> r.state != Win && r.state != GameOver))
  {
  }

  /** After a frame of play, the glider is on screen, every marked entity
      still listed is one the glider hit in this frame, each of those
      obstacles cost one life and each of those sweets gave 100 points. */
  lemma PlayingFrameAccounts(g: GameView, width: real, height: real, dt: real, keys: Keys, d: FrameDraws)
    requires FrameDrawsOk(d) && g.state == Playing
    ensures var r := Tick(g, width, height, dt, keys, d);
            (width >= 64.0 ==> 0.0 <= r.playerX <= width - 64.0) &&
            (height >= 64.0 ==> 0.0 <= r.playerY <= height - 64.0) &&
            (forall s | s in r.obstacles && s.marked ::
               ClosedOverlap(PlayerBox(r.playerX, r.playerY), Inset(SpriteBox(s), 5.0))) &&
            (forall s | s in r.items && s.marked ::
               ClosedOverlap(PlayerBox(r.playerX, r.playerY), Inset(SpriteBox(s), 0.0))) &&
            r.lives == g.lives - MarkedCount(r.obstacles) &&
            r.score == g.score + 100 * MarkedCount(r.items)
  {
    var a := Advanced(g, width, height, dt, keys, d);
    ContainBounds(g.playerX + Axis(keys, "ArrowLeft", "ArrowRight", 5.0), 64.0, width);
    ContainBounds(g.playerY + Axis(keys, "ArrowUp", "ArrowDown", 5.0), 64.0, height);
    ScrolledUnmarked(a);
    CollidedAccounts(Scrolled(a));
  }

  /** After the scroll phase nothing listed is marked. */
  lemma ScrolledUnmarked(g: GameView)
    ensures var r := Scrolled(g);
            (forall s | s in r.obstacles :: !s.marked) && (forall s | s in r.items :: !s.marked) &&
            MarkedCount(r.obstacles) == 0 && MarkedCount(r.items) == 0
  {
    SurvivorsMembers(MoveAll(g.obstacles));
    SurvivorsMembers(MoveAll(g.items));
    SurvivorsUnmarkedCount(MoveAll(g.obstacles));
    SurvivorsUnmarkedCount(MoveAll(g.items));
  }

  /** From unmarked lists, the collision phase marks exactly what the
      glider overlaps, one life per marked obstacle and 100 points per
      marked sweet. */
  lemma CollidedAccounts(g: GameView)
    requires (forall s | s in g.obstacles :: !s.marked) && (forall s | s in g.items :: !s.marked)
    requires MarkedCount(g.obstacles) == 0 && MarkedCount(g.items) == 0
    ensures var r := Collided(g);
            var pb := PlayerBox(r.playerX, r.playerY);
            (forall s | s in r.obstacles && s.marked :: ClosedOverlap(pb, Inset(SpriteBox(s), 5.0))) &&
            (forall s | s in r.items && s.marked :: ClosedOverlap(pb, Inset(SpriteBox(s), 0.0))) &&
            r.lives == g.lives - MarkedCount(r.obstacles) &&
            r.score == g.score + 100 * MarkedCount(r.items)
  {
    var pb := PlayerBox(g.playerX, g.playerY);
    MarkedAreHits(pb, g.obstacles, 5.0);
    MarkedAreHits(pb, g.items, 0.0);
    MarkHitsCount(pb, g.obstacles, 5.0);
    MarkHitsCount(pb, g.items, 0.0);
  }

  /** Among unmarked sprites, the ones marked by the collision test are the
      ones the glider overlaps. */
  lemma MarkedAreHits(pb: Box, vs: seq<Sprite>, inset: real)
    requires forall s | s in vs :: !s.marked
    ensures forall s | s in MarkHits(pb, vs, inset) && s.marked :: ClosedOverlap(pb, Inset(SpriteBox(s), inset))
  {
    forall s | s in MarkHits(pb, vs, inset) && s.marked
      ensures ClosedOverlap(pb, Inset(SpriteBox(s), inset))
    {
      var i :| 0 <= i < |vs| && MarkHits(pb, vs, inset)[i] == s;
      assert SpriteBox(s) == SpriteBox(vs[i]);
    }
  }

  /** What every reachable state satisfies: the score is a non-negative
      multiple of 100, there are never more than three lives, a round in
      play has lives left, and the background offset stays within one
      screen width. */
  ghost predicate Inv(g: GameView, width: real)
  {
    g.score >= 0 && g.score % 100 == 0 && g.lives <= 3 &&
    (g.state in {Start, Playing} ==> g.lives > 0) &&
    (width > 0.0 ==> -width < g.bgX <= 0.0)
  }

  lemma TickKeepsInv(g: GameView, width: real, height: real, dt: real, keys: Keys, d: FrameDraws)
    requires FrameDrawsOk(d) && Inv(g, width)
    ensures Inv(Tick(g, width, height, dt, keys, d), width)
  {
  }

  function Initial(width: real, height: real): (g: GameView)
    ensures Inv(g, width)
  {
    GameView(100.0, height / 2.0, [], [], 0.0, 0, 3, 0.0, Start, 0.0, 0.0)
  }

  // ---------------------------------------------------------------------
  // The game object.

  predicate Distinct<T(==)>(s: seq<T>)
  {
    forall i, j | 0 <= i < j < |s| :: s[i] != s[j]
  }

  lemma DistinctSnoc<T>(s: seq<T>, x: T)
    requires Distinct(s) && x !in s
    ensures Distinct(s + [x])
  {
    forall i, j | 0 <= i < j < |s| + 1
      ensures (s + [x])[i] != (s + [x])[j]
    {
      if j == |s| {
        assert (s + [x])[i] == s[i];
      }
    }
  }

  ghost function ObstacleViews(os: seq<Obstacle>): seq<Sprite>
    reads os
  {
    seq(|os|, i reads os requires 0 <= i < |os| => os[i].View())
  }

  ghost function ItemViews(its: seq<Item>): seq<Sprite>
    reads its
  {
    seq(|its|, i reads its requires 0 <= i < |its| => its[i].View())
  }

  /** The obstacles not marked for deletion (`filter`). */
  function UnmarkedObstacles(os: seq<Obstacle>): (r: seq<Obstacle>)
    reads os
    ensures forall o | o in r :: o in os
  {
    if os == [] then []
    else
      var rest := UnmarkedObstacles(os[..|os| - 1]);
      if os[|os| - 1].markedForDeletion then rest else rest + [os[|os| - 1]]
  }

  /** The filter keeps the views of exactly the unmarked obstacles, in
      order, and lists no obstacle twice. */
  lemma {:induction false} UnmarkedObstaclesFacts(os: seq<Obstacle>)
    ensures ObstacleViews(UnmarkedObstacles(os)) == Survivors(ObstacleViews(os))
    ensures Distinct(os) ==> Distinct(UnmarkedObstacles(os))
  {
    if os != [] {
      var n := |os|;
      UnmarkedObstaclesFacts(os[..n - 1]);
      var rest := UnmarkedObstacles(os[..n - 1]);
      assert ObstacleViews(os)[..n - 1] == ObstacleViews(os[..n - 1]);
      if !os[n - 1].markedForDeletion {
        assert ObstacleViews(rest + [os[n - 1]]) == ObstacleViews(rest) + [os[n - 1].View()];
        if Distinct(os) {
          assert os[n - 1] !in rest by {
            forall o | o in rest
              ensures o != os[n - 1]
            {
              assert o in os[..n - 1];
              var k :| 0 <= k < n - 1 && os[k] == o;
            }
          }
          DistinctSnoc(rest, os[n - 1]);
        }
      }
    }
  }

  /** The sweets not marked for deletion (`filter`). */
  function UnmarkedItems(its: seq<Item>): (r: seq<Item>)
    reads its
    ensures forall o | o in r :: o in its
  {
    if its == [] then []
    else
      var rest := UnmarkedItems(its[..|its| - 1]);
      if its[|its| - 1].markedForDeletion then rest else rest + [its[|its| - 1]]
  }

  lemma {:induction false} UnmarkedItemsFacts(its: seq<Item>)
    ensures ItemViews(UnmarkedItems(its)) == Survivors(ItemViews(its))
    ensures Distinct(its) ==> Distinct(UnmarkedItems(its))
  {
    if its != [] {
      var n := |its|;
      UnmarkedItemsFacts(its[..n - 1]);
      var rest := UnmarkedItems(its[..n - 1]);
      assert ItemViews(its)[..n - 1] == ItemViews(its[..n - 1]);
      if !its[n - 1].markedForDeletion {
        assert ItemViews(rest + [its[n - 1]]) == ItemViews(rest) + [its[n - 1].View()];
        if Distinct(its) {
          assert its[n - 1] !in rest by {
            forall o | o in rest
              ensures o != its[n - 1]
            {
              assert o in its[..n - 1];
              var k :| 0 <= k < n - 1 && its[k] == o;
            }
          }
          DistinctSnoc(rest, its[n - 1]);
        }
      }
    }
  }

  class Game {
    const width: real
    const height: real
    const player: Player
    var obstacles: seq<Obstacle>
    var items: seq<Item>
    var bgX: real
    var score: int
    var lives: int
    var gameTime: real
    var state: GameState
    var enemyTimer: real
    var itemTimer: real

    /** The glider fits the game's screen and speed, and no entity is
        listed twice. */
    ghost predicate Valid()
      reads this, player
    {
      player.gameW == width && player.gameH == height &&
      player.width == 64.0 && player.height == 64.0 && player.speed == 5.0 &&
      Distinct(obstacles) && Distinct(items)
    }

    ghost function View(): GameView
      reads this, player, obstacles, items
    {
      GameView(player.x, player.y, ObstacleViews(obstacles), ItemViews(items),
               bgX, score, lives, gameTime, state, enemyTimer, itemTimer)
    }

    constructor (canvasWidth: real, canvasHeight: real)
      ensures Valid() && View() == Initial(canvasWidth, canvasHeight)
      ensures width == canvasWidth && height == canvasHeight
    {
      width := canvasWidth;
      height := canvasHeight;
      player := new Player(canvasWidth, canvasHeight);
      obstacles := [];
      items := [];
      bgX := 0.0;
      score := 0;
      lives := 3;
      gameTime := 0.0;
      state := Start;
      enemyTimer := 0.0;
      itemTimer := 0.0;
    }

    /** One call of the update loop. */
    method Update(dt: real, keys: Keys, d: FrameDraws)
      requires Valid() && FrameDrawsOk(d)
      modifies this, player, obstacles, items
      ensures Valid()
      ensures View() == Tick(old(View()), width, height, dt, keys, d)
    {
      if state == Playing {
        PlayFrame(dt, keys, d);
      } else if state == Start || state == GameOver || state == Win {
        if state != Start && ("Enter" in keys || "Space" in keys) {
          Reset();
        }
        if state == Start && ("Enter" in keys || "Space" in keys) {
          state := Playing;
        }
      }
    }

    method PlayFrame(dt: real, keys: Keys, d: FrameDraws)
      requires Valid() && FrameDrawsOk(d) && state == Playing
      modifies this, player, obstacles, items
      ensures Valid()
      ensures View() == PlayingFrame(old(View()), width, height, dt, keys, d)
    {
      AdvanceAndScroll(dt, keys, d);
      CheckCollisions();
      CheckGoal();
    }

    /** Reaching the goal time wins. */
    method CheckGoal()
      requires Valid()
      modifies this
      ensures Valid()
      ensures View() == GoalCheck(old(View()))
    {
      if gameTime >= MaxTime {
        state := Win;
      }
    }

    /** The first half of a frame: everything moves and spawns, and the
        marked entities are dropped. */
    method AdvanceAndScroll(dt: real, keys: Keys, d: FrameDraws)
      requires Valid() && FrameDrawsOk(d)
      modifies this, player, obstacles, items
      ensures Valid()
      ensures View() == Scrolled(Advanced(old(View()), width, height, dt, keys, d))
      ensures fresh((set o | o in obstacles) - (set o | o in old(obstacles)))
      ensures fresh((set o | o in items) - (set o | o in old(items)))
    {
      ghost var g0 := View();
      Advance(dt, keys, d);
      ghost var g1 := View();
      assert g1 == Advanced(g0, width, height, dt, keys, d);
      ghost var os1 := set o | o in obstacles;
      ghost var its1 := set o | o in items;
      ScrollEntities();
      assert forall o | o in obstacles :: o in os1;
      assert forall o | o in items :: o in its1;
    }

    /** The clock, the background, the glider and the spawn timers. */
    method Advance(dt: real, keys: Keys, d: FrameDraws)
      requires Valid() && FrameDrawsOk(d)
      modifies this, player
      ensures Valid()
      ensures View() == Advanced(old(View()), width, height, dt, keys, d)
      ensures fresh((set o | o in obstacles) - (set o | o in old(obstacles)))
      ensures fresh((set o | o in items) - (set o | o in old(items)))
    {
      ghost var ov, iv := ObstacleViews(obstacles), ItemViews(items);
      gameTime := gameTime + dt / 1000.0;
      bgX := bgX - BgSpeed;
      if bgX <= -width { bgX := 0.0; }
      player.Update(keys);
      assert ObstacleViews(obstacles) == ov && ItemViews(items) == iv;
      SpawnObstacle(dt, d);
      SpawnItem(dt, d);
    }

    /** Every entity moves, then the marked ones are dropped. */
    method ScrollEntities()
      requires Valid()
      modifies this, obstacles, items
      ensures Valid()
      ensures View() == Scrolled(old(View()))
      ensures (set o | o in obstacles) <= (set o | o in old(obstacles))
      ensures (set o | o in items) <= (set o | o in old(items))
    {
      ScrollObstacles();
      ScrollItems();
    }

    method ScrollObstacles()
      requires Valid()
      modifies this, obstacles
      ensures Valid()
      ensures ObstacleViews(obstacles) == Survivors(MoveAll(old(ObstacleViews(obstacles))))
      ensures forall o | o in obstacles :: o in old(obstacles)
      ensures items == old(items) && bgX == old(bgX) && score == old(score) && lives == old(lives)
      ensures gameTime == old(gameTime) && state == old(state)
      ensures enemyTimer == old(enemyTimer) && itemTimer == old(itemTimer)
    {
      MoveObstacles();
      UnmarkedObstaclesFacts(obstacles);
      obstacles := UnmarkedObstacles(obstacles);
    }

    method ScrollItems()
      requires Valid()
      modifies this, items
      ensures Valid()
      ensures ItemViews(items) == Survivors(MoveAll(old(ItemViews(items))))
      ensures forall o | o in items :: o in old(items)
      ensures obstacles == old(obstacles) && bgX == old(bgX) && score == old(score) && lives == old(lives)
      ensures gameTime == old(gameTime) && state == old(state)
      ensures enemyTimer == old(enemyTimer) && itemTimer == old(itemTimer)
    {
      MoveItems();
      UnmarkedItemsFacts(items);
      items := UnmarkedItems(items);
    }

    method SpawnObstacle(dt: real, d: FrameDraws)
      requires Valid() && FrameDrawsOk(d)
      modifies this
      ensures Valid()
      ensures var s := SpawnStep(old(enemyTimer), EnemyInterval, dt, old(ObstacleViews(obstacles)), NewObstacle(width, height, d));
              ObstacleViews(obstacles) == s.0 && enemyTimer == s.1
      ensures |obstacles| >= |old(obstacles)| && obstacles[..|old(obstacles)|] == old(obstacles)
      ensures forall i | |old(obstacles)| <= i < |obstacles| :: fresh(obstacles[i])
      ensures items == old(items) && bgX == old(bgX) && score == old(score) && lives == old(lives)
      ensures gameTime == old(gameTime) && state == old(state) && itemTimer == old(itemTimer)
    {
      if enemyTimer > EnemyInterval {
        var kind := KindOf(d.kind);
        var o := new Obstacle(width, height, kind, BgSpeed + 2.0, d.obstacleY);
        assert ObstacleViews(obstacles + [o]) == ObstacleViews(obstacles) + [o.View()];
        obstacles := obstacles + [o];
        enemyTimer := 0.0;
      } else {
        enemyTimer := enemyTimer + dt;
      }
    }

    method SpawnItem(dt: real, d: FrameDraws)
      requires Valid() && FrameDrawsOk(d)
      modifies this
      ensures Valid()
      ensures var s := SpawnStep(old(itemTimer), ItemInterval, dt, old(ItemViews(items)), NewItem(width, height, d));
              ItemViews(items) == s.0 && itemTimer == s.1
      ensures |items| >= |old(items)| && items[..|old(items)|] == old(items)
      ensures forall i | |old(items)| <= i < |items| :: fresh(items[i])
      ensures obstacles == old(obstacles) && bgX == old(bgX) && score == old(score) && lives == old(lives)
      ensures gameTime == old(gameTime) && state == old(state) && enemyTimer == old(enemyTimer)
    {
      if itemTimer > ItemInterval {
        var item := new Item(width, height, BgSpeed + 2.0, d.itemY);
        assert ItemViews(items + [item]) == ItemViews(items) + [item.View()];
        items := items + [item];
        itemTimer := 0.0;
      } else {
        itemTimer := itemTimer + dt;
      }
    }

    /** Every obstacle moves once (`forEach(obj => obj.update())`). */
    method MoveObstacles()
      requires Distinct(obstacles)
      modifies obstacles
      ensures ObstacleViews(obstacles) == MoveAll(old(ObstacleViews(obstacles)))
    {
      for i := 0 to |obstacles|
        invariant forall j | 0 <= j < i :: obstacles[j].View() == Moved(old(obstacles[j].View()))
        invariant forall j | i <= j < |obstacles| :: obstacles[j].View() == old(obstacles[j].View())
      {
        obstacles[i].Update();
      }
    }

    /** Every sweet moves once. */
    method MoveItems()
      requires Distinct(items)
      modifies items
      ensures ItemViews(items) == MoveAll(old(ItemViews(items)))
    {
      for i := 0 to |items|
        invariant forall j | 0 <= j < i :: items[j].View() == Moved(old(items[j].View()))
        invariant forall j | i <= j < |items| :: items[j].View() == old(items[j].View())
      {
        items[i].Update();
      }
    }

    /** The collision test: each unmarked obstacle the glider overlaps is
        marked and costs a life, and the round is lost when a hit leaves
        no lives; each unmarked sweet it overlaps is marked and scores
        100. */
    method CheckCollisions()
      requires Valid()
      modifies this, obstacles, items
      ensures Valid()
      ensures obstacles == old(obstacles) && items == old(items)
      ensures bgX == old(bgX) && gameTime == old(gameTime)
      ensures enemyTimer == old(enemyTimer) && itemTimer == old(itemTimer)
      ensures View() == Collided(old(View()))
    {
      ghost var g0 := View();
      var pb := player.Bounds();
      assert pb == PlayerBox(g0.playerX, g0.playerY);
      CheckObstacles(pb);
      ghost var hits := CountHits(pb, g0.obstacles, 5.0);
      assert View() == g0.(obstacles := MarkHits(pb, g0.obstacles, 5.0), lives := g0.lives - hits,
                           state := if hits > 0 && g0.lives - hits <= 0 then GameOver else g0.state);
      CheckItems(pb);
    }

    method CheckObstacles(pb: Box)
      requires Valid()
      modifies this, obstacles
      ensures Valid()
      ensures obstacles == old(obstacles) && items == old(items) && score == old(score)
      ensures bgX == old(bgX) && gameTime == old(gameTime)
      ensures enemyTimer == old(enemyTimer) && itemTimer == old(itemTimer)
      ensures var hits := CountHits(pb, old(ObstacleViews(obstacles)), 5.0);
              ObstacleViews(obstacles) == MarkHits(pb, old(ObstacleViews(obstacles)), 5.0) &&
              lives == old(lives) - hits &&
              state == (if hits > 0 && lives <= 0 then GameOver else old(state))
    {
      var livesLeft, lost := HitObstacles(obstacles, pb, lives);
      lives := livesLeft;
      if lost {
        state := GameOver;
      }
    }

    /** The obstacle loop of the collision test, on the lives count:
        every hit costs a life, and `lost` records that some hit left no
        lives. */
    static method HitObstacles(os: seq<Obstacle>, pb: Box, lives: int) returns (livesLeft: int, lost: bool)
      requires Distinct(os)
      modifies os
      ensures ObstacleViews(os) == MarkHits(pb, old(ObstacleViews(os)), 5.0)
      ensures livesLeft == lives - CountHits(pb, old(ObstacleViews(os)), 5.0)
      ensures lost <==> CountHits(pb, old(ObstacleViews(os)), 5.0) > 0 && livesLeft <= 0
    {
      ghost var vs := ObstacleViews(os);
      livesLeft := lives;
      lost := false;
      for i := 0 to |os|
        invariant forall j | 0 <= j < i :: os[j].View() == MarkOne(pb, vs[j], 5.0)
        invariant forall j | i <= j < |os| :: os[j].View() == vs[j]
        invariant livesLeft == lives - CountHits(pb, vs[..i], 5.0)
        invariant lost <==> CountHits(pb, vs[..i], 5.0) > 0 && livesLeft <= 0
      {
        assert vs[..i + 1][..i] == vs[..i];
        var hit := TestObstacle(os[i], pb);
        if hit {
          livesLeft := livesLeft - 1;
          if livesLeft <= 0 {
            lost := true;
          }
        }
      }
      assert vs[..|os|] == vs;
    }

    method CheckItems(pb: Box)
      requires Valid()
      modifies this, items
      ensures Valid()
      ensures obstacles == old(obstacles) && items == old(items)
      ensures lives == old(lives) && state == old(state)
      ensures bgX == old(bgX) && gameTime == old(gameTime)
      ensures enemyTimer == old(enemyTimer) && itemTimer == old(itemTimer)
      ensures ItemViews(items) == MarkHits(pb, old(ItemViews(items)), 0.0)
      ensures score == old(score) + 100 * CountHits(pb, old(ItemViews(items)), 0.0)
    {
      score := CollectItems(items, pb, score);
    }

    /** The sweet loop of the collision test: every catch scores 100. */
    static method CollectItems(its: seq<Item>, pb: Box, score: int) returns (newScore: int)
      requires Distinct(its)
      modifies its
      ensures ItemViews(its) == MarkHits(pb, old(ItemViews(its)), 0.0)
      ensures newScore == score + 100 * CountHits(pb, old(ItemViews(its)), 0.0)
    {
      ghost var ws := ItemViews(its);
      newScore := score;
      for i := 0 to |its|
        invariant forall j | 0 <= j < i :: its[j].View() == MarkOne(pb, ws[j], 0.0)
        invariant forall j | i <= j < |its| :: its[j].View() == ws[j]
        invariant newScore == score + 100 * CountHits(pb, ws[..i], 0.0)
      {
        assert ws[..i + 1][..i] == ws[..i];
        var hit := TestItem(its[i], pb);
        if hit {
          newScore := newScore + 100;
        }
      }
      assert ws[..|its|] == ws;
    }

    /** One obstacle's test: skipped when already marked, otherwise marked
        when the glider overlaps it. */
    static method TestObstacle(obs: Obstacle, pb: Box) returns (hit: bool)
      modifies obs
      ensures hit <==> Hit(pb, old(obs.View()), 5.0)
      ensures obs.View() == MarkOne(pb, old(obs.View()), 5.0)
    {
      hit := false;
      if !obs.markedForDeletion {
        var ob := obs.Bounds();
        if ClosedOverlap(pb, ob) {
          obs.markedForDeletion := true;
          hit := true;
        }
      }
    }

    /** One sweet's test, likewise. */
    static method TestItem(item: Item, pb: Box) returns (hit: bool)
      modifies item
      ensures hit <==> Hit(pb, old(item.View()), 0.0)
      ensures item.View() == MarkOne(pb, old(item.View()), 0.0)
    {
      hit := false;
      if !item.markedForDeletion {
        var ib := item.Bounds();
        assert ib == Inset(SpriteBox(item.View()), 0.0);
        if ClosedOverlap(pb, ib) {
          item.markedForDeletion := true;
          hit := true;
        }
      }
    }

    /** A fresh round after the game is over or won. */
    method Reset()
      requires Valid()
      modifies this, player
      ensures Valid()
      ensures View() == Restarted(old(View()), height)
    {
      score := 0;
      lives := 3;
      gameTime := 0.0;
      obstacles := [];
      items := [];
      player.x := 100.0;
      player.y := height / 2.0;
      state := Playing;
    }
  }
}
