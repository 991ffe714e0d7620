/** The helicopter game: the player steers up a scrolling valley, trees
    crash it, pairs of rocks form gates that cost 100 per rock touched and
    award 100 for flying through the gap, and a 90-second clock ends the
    mission. The entity records are plain values kept in the game's
    lists; no one else holds them. */
module Helicopter {
  import opened Geometry
  import opened Rand

  const CanvasWidth: int := 600
  const CanvasHeight: int := 800
  const PlayerSpeed: int := 5
  const PlayerSize: int := 60
  const ScrollSpeed: int := 3
  const GameDuration: int := 90

  /** The forgiving collision test: both boxes shrunk by 10 on every side
      must overlap strictly. */
  function CheckCollision(r1: Box, r2: Box): (hit: bool)
    ensures hit <==> StrictOverlap(Inset(r1, 10.0), Inset(r2, 10.0))
  {
    r1.x + 10.0 < r2.x + r2.w - 10.0 &&
    r1.x + r1.w - 10.0 > r2.x + 10.0 &&
    r1.y + 10.0 < r2.y + r2.h - 10.0 &&
    r1.y + r1.h - 10.0 > r2.y + 10.0
  }

  lemma CheckCollisionSymmetric(r1: Box, r2: Box)
    ensures CheckCollision(r1, r2) == CheckCollision(r2, r1)
  {
    StrictOverlapSymmetric(Inset(r1, 10.0), Inset(r2, 10.0));
  }

  /** The four arrow keys' held-down flags. */
  datatype Arrows = Arrows(up: bool, down: bool, left: bool, right: bool)

  /** The player's box. */
  function PlayerRect(x: int, y: int): Box
  {
    Box(x as real, y as real, PlayerSize as real, PlayerSize as real)
  }

  /** The four guarded moves, applied in turn: each key moves by the
      speed only while the player is not yet at that edge. */
  function MovePlayer(x: int, y: int, keys: Arrows): (int, int)
  {
    var y1 := if keys.up && y > 0 then y - PlayerSpeed else y;
    var y2 := if keys.down && y1 < CanvasHeight - PlayerSize then y1 + PlayerSpeed else y1;
    var x1 := if keys.left && x > 0 then x - PlayerSpeed else x;
    var x2 := if keys.right && x1 < CanvasWidth - PlayerSize then x1 + PlayerSpeed else x1;
    (x2, y2)
  }

  /** The positions the player can reach from its start: on the 5-pixel
      grid and on the canvas. */
  predicate OnGrid(x: int, y: int)
  {
    0 <= x <= CanvasWidth - PlayerSize && x % PlayerSpeed == 0 &&
    0 <= y <= CanvasHeight - PlayerSize && y % PlayerSpeed == 0
  }

  /** The guards keep a player on the grid on the canvas; one frame moves
      it by at most the speed on each axis. */
  lemma MovePlayerStaysOnGrid(x: int, y: int, keys: Arrows)
    requires OnGrid(x, y)
    ensures OnGrid(MovePlayer(x, y, keys).0, MovePlayer(x, y, keys).1)
    ensures -PlayerSpeed <= MovePlayer(x, y, keys).0 - x <= PlayerSpeed
    ensures -PlayerSpeed <= MovePlayer(x, y, keys).1 - y <= PlayerSpeed
    ensures !keys.left && !keys.right ==> MovePlayer(x, y, keys).0 == x
    ensures !keys.up && !keys.down ==> MovePlayer(x, y, keys).1 == y
  {
  }

  /** The background offset: down by the scroll speed, back to 0 on
      reaching the canvas height. */
  function ScrollBg(offset: int): (r: int)
    ensures 0 <= offset < CanvasHeight ==> 0 <= r < CanvasHeight
  {
    var o := offset + ScrollSpeed;
    if o >= CanvasHeight then 0 else o
  }

  /** The surviving elements of a sequence, in order: a reference filter
      for the removal loops. */
  function Kept<T>(s: seq<T>, keep: T -> bool): (r: seq<T>)
    ensures |r| <= |s|
    ensures forall t | t in r :: t in s && keep(t)
  {
    if s == [] then []
    else Kept(s[..|s| - 1], keep) + (if keep(s[|s| - 1]) then [s[|s| - 1]] else [])
  }

  /** `Kept` keeps exactly the elements passing the test. */
  lemma {:induction false} KeptMembers<T>(s: seq<T>, keep: T -> bool, t: T)
    ensures t in Kept(s, keep) <==> t in s && keep(t)
  {
    if s != [] {
      KeptMembers(s[..|s| - 1], keep, t);
      assert s == s[..|s| - 1] + [s[|s| - 1]];
    }
  }

  /** `Kept` on a sequence with one more element in front. */
  lemma {:induction false} KeptCons<T>(x: T, s: seq<T>, keep: T -> bool)
    ensures Kept([x] + s, keep) == (if keep(x) then [x] else []) + Kept(s, keep)
    decreases |s|
  {
    if s == [] {
      assert [x] + s == [x];
      assert [x][..0] == [];
    } else {
      var xs := [x] + s;
      assert xs[..|xs| - 1] == [x] + s[..|s| - 1];
      KeptCons(x, s[..|s| - 1], keep);
    }
  }

  datatype Tree = Tree(x: real, y: real, width: real, height: real)

  function TreeBox(t: Tree): Box
  {
    Box(t.x, t.y, t.width, t.height)
  }

  /** A tree scrolled down one frame. */
  function Fall(t: Tree): Tree
  {
    t.(y := t.y + ScrollSpeed as real)
  }

  predicate TreeOnScreen(t: Tree) { t.y <= CanvasHeight as real }

  /** The trees after the tree loop, and whether the player crashed. */
  datatype TreePass = TreePass(trees: seq<Tree>, crashed: bool)

  /** The tree loop, which runs from the last tree to the first: a tree
      moves down, a tree touching the player ends the loop at once, and a
      tree below the canvas is removed. Peeling the first tree off the
      front, the rest of the list is processed before it; after a crash
      further in, the first tree is left as it was. */
  function TreePhase(p: Box, ts: seq<Tree>): TreePass
  {
    if ts == [] then TreePass([], false)
    else
      var rest := TreePhase(p, ts[1..]);
      if rest.crashed then TreePass([ts[0]] + rest.trees, true)
      else
        var t := Fall(ts[0]);
        if CheckCollision(p, TreeBox(t)) then TreePass([t] + rest.trees, true)
        else TreePass((if TreeOnScreen(t) then [t] else []) + rest.trees, false)
  }

  /** The player crashes exactly when some tree, moved down, touches it. */
  lemma {:induction false} TreePhaseCrashIff(p: Box, ts: seq<Tree>)
    ensures TreePhase(p, ts).crashed <==> exists i | 0 <= i < |ts| :: CheckCollision(p, TreeBox(Fall(ts[i])))
  {
    if ts != [] {
      TreePhaseCrashIff(p, ts[1..]);
      if CheckCollision(p, TreeBox(Fall(ts[0]))) {
      } else if exists i | 0 <= i < |ts| :: CheckCollision(p, TreeBox(Fall(ts[i]))) {
        var i :| 0 <= i < |ts| && CheckCollision(p, TreeBox(Fall(ts[i])));
        assert ts[1..][i - 1] == ts[i];
      } else {
        forall i | 0 <= i < |ts[1..]|
          ensures !CheckCollision(p, TreeBox(Fall(ts[1..][i])))
        {
          assert ts[1..][i] == ts[i + 1];
        }
      }
    }
  }

  function FallAll(ts: seq<Tree>): (r: seq<Tree>)
    ensures |r| == |ts| && forall i | 0 <= i < |ts| :: r[i] == Fall(ts[i])
  {
    seq(|ts|, i requires 0 <= i < |ts| => Fall(ts[i]))
  }

  /** Without a crash every tree moves down and exactly those still on
      the canvas remain, in their order. */
  lemma {:induction false} TreePhaseClean(p: Box, ts: seq<Tree>)
    requires !TreePhase(p, ts).crashed
    ensures TreePhase(p, ts).trees == Kept(FallAll(ts), TreeOnScreen)
  {
    if ts != [] {
      TreePhaseClean(p, ts[1..]);
      assert FallAll(ts) == [Fall(ts[0])] + FallAll(ts[1..]);
      KeptCons(Fall(ts[0]), FallAll(ts[1..]), TreeOnScreen);
    }
  }

  /** A crash in a suffix leaves the trees before it untouched. */
  lemma {:induction false} TreePhaseSuffix(p: Box, ts: seq<Tree>, i: nat)
    requires i <= |ts| && TreePhase(p, ts[i..]).crashed
    ensures TreePhase(p, ts) == TreePass(ts[..i] + TreePhase(p, ts[i..]).trees, true)
    decreases i
  {
    if i > 0 {
      assert ts[1..][i - 1..] == ts[i..];
      TreePhaseSuffix(p, ts[1..], i - 1);
      assert ts[..i] == [ts[0]] + ts[1..][..i - 1];
    }
  }

  datatype Rock = Rock(x: real, width: real, height: real, collided: bool)

  /** A gate: two rocks at a common height, the gap between them, and
      whether the player has been through it. */
  datatype RockRow = RockRow(y: real, passed: bool, leftRock: Rock, rightRock: Rock, gapX: real, gapWidth: real)

  function RockBox(r: Rock, y: real): Box
  {
    Box(r.x, y, r.width, r.height)
  }

  /** Whether the player's centre lies strictly inside the rocks' band
      and strictly inside the gap. */
  predicate InGap(px: int, py: int, row: RockRow)
  {
    var cy := py as real + PlayerSize as real / 2.0;
    var cx := px as real + PlayerSize as real / 2.0;
    cy > row.y && cy < row.y + row.leftRock.height &&
    cx > row.gapX && cx < row.gapX + row.gapWidth
  }

  /** One gate's frame: it moves down; each rock not yet hit that the
      player touches costs 100 and is flagged; a gate not yet passed with
      the player's centre in its gap awards 100 and is flagged. */
  function RowStep(px: int, py: int, row: RockRow): (RockRow, int)
  {
    var y := row.y + ScrollSpeed as real;
    var p := PlayerRect(px, py);
    var leftHit := !row.leftRock.collided && CheckCollision(p, RockBox(row.leftRock, y));
    var rightHit := !row.rightRock.collided && CheckCollision(p, RockBox(row.rightRock, y));
    var moved := row.(y := y);
    var pass := !row.passed && InGap(px, py, moved);
    (moved.(leftRock := row.leftRock.(collided := row.leftRock.collided || leftHit),
            rightRock := row.rightRock.(collided := row.rightRock.collided || rightHit),
            passed := row.passed || pass),
     (if pass then 100 else 0) - (if leftHit then 100 else 0) - (if rightHit then 100 else 0))
  }

  function Flag(b: bool): int { if b then 1 else 0 }

  /** The score change of a gate's frame is 100 for each flag it raises,
      added for the gap and taken for a rock; flags are never lowered, and
      only the height moves. So over a gate's life each rock costs at most
      100 and the gap awards at most 100. */
  lemma RowStepAccounting(px: int, py: int, row: RockRow)
    ensures var (r, d) := RowStep(px, py, row);
            d == 100 * (Flag(r.passed) - Flag(row.passed))
                 - 100 * (Flag(r.leftRock.collided) - Flag(row.leftRock.collided))
                 - 100 * (Flag(r.rightRock.collided) - Flag(row.rightRock.collided)) &&
            (row.passed ==> r.passed) &&
            (row.leftRock.collided ==> r.leftRock.collided) &&
            (row.rightRock.collided ==> r.rightRock.collided) &&
            r.y == row.y + 3.0 && r.gapX == row.gapX && r.gapWidth == row.gapWidth &&
            r.leftRock.x == row.leftRock.x && r.rightRock.x == row.rightRock.x
  {
  }

  /** A rock is charged for exactly when it was not yet hit and touches
      the player; the gap pays exactly when it was not yet passed and the
      player's centre is in it. */
  lemma RowStepFlags(px: int, py: int, row: RockRow)
    ensures var (r, _) := RowStep(px, py, row);
            (r.leftRock.collided && !row.leftRock.collided <==>
               !row.leftRock.collided && CheckCollision(PlayerRect(px, py), RockBox(row.leftRock, r.y))) &&
            (r.rightRock.collided && !row.rightRock.collided <==>
               !row.rightRock.collided && CheckCollision(PlayerRect(px, py), RockBox(row.rightRock, r.y))) &&
            (r.passed && !row.passed <==> !row.passed && InGap(px, py, r))
  {
  }

  predicate RowOnScreen(row: RockRow) { row.y <= CanvasHeight as real }

  /** The gate loop: every gate steps and those below the canvas are
      removed; the score changes by the sum of the gates' changes. There
      is no early exit, so the order of processing does not matter. */
  function RowsPhase(px: int, py: int, rows: seq<RockRow>): (seq<RockRow>, int)
  {
    if rows == [] then ([], 0)
    else
      var (r, d) := RowStep(px, py, rows[0]);
      var rest := RowsPhase(px, py, rows[1..]);
      ((if RowOnScreen(r) then [r] else []) + rest.0, d + rest.1)
  }

  function StepAll(px: int, py: int, rows: seq<RockRow>): (r: seq<RockRow>)
    ensures |r| == |rows| && forall i | 0 <= i < |rows| :: r[i] == RowStep(px, py, rows[i]).0
  {
    seq(|rows|, i requires 0 <= i < |rows| => RowStep(px, py, rows[i]).0)
  }

  /** The gates left are the stepped gates still on the canvas, in order,
      and the score moves by 100 at most per gate up and 200 at most per
      gate down. */
  lemma {:induction false} RowsPhaseFacts(px: int, py: int, rows: seq<RockRow>)
    ensures RowsPhase(px, py, rows).0 == Kept(StepAll(px, py, rows), RowOnScreen)
    ensures -200 * |rows| <= RowsPhase(px, py, rows).1 <= 100 * |rows|
  {
    if rows != [] {
      RowsPhaseFacts(px, py, rows[1..]);
      assert StepAll(px, py, rows) == [RowStep(px, py, rows[0]).0] + StepAll(px, py, rows[1..]);
      KeptCons(RowStep(px, py, rows[0]).0, StepAll(px, py, rows[1..]), RowOnScreen);
    }
  }

  /** The random draws of one spawn: the tree's chance and position, the
      gate's chance, gap width and gap position. */
  datatype SpawnDraws = SpawnDraws(tree: real, treeX: real, row: real, gap: real, gapX: real)

  predicate SpawnDrawsOk(d: SpawnDraws)
  {
    IsDraw(d.tree) && IsDraw(d.treeX) && IsDraw(d.row) && IsDraw(d.gap) && IsDraw(d.gapX)
  }

  /** One tree in fifty frames, at a random x that keeps it on the canvas,
      just above the top. */
  function NewTrees(d: SpawnDraws): seq<Tree>
    requires SpawnDrawsOk(d)
  {
    if d.tree < 0.02 then [Tree(Scale(d.treeX, (CanvasWidth - 60) as real), -70.0, 60.0, 60.0)] else []
  }

  /** The gap width, from 120 to 200. */
  function GapWidth(d: SpawnDraws): int
    requires SpawnDrawsOk(d)
  {
    Pick(d.gap, 200 - 120 + 1) + 120
  }

  /** The gap's left edge, from 50 to 50 short of the right edge. */
  function GapLeft(d: SpawnDraws): int
    requires SpawnDrawsOk(d)
  {
    var maxGapX := CanvasWidth - GapWidth(d) - 50;
    Pick(d.gapX, maxGapX - 50 + 1) + 50
  }

  function NewGate(d: SpawnDraws): RockRow
    requires SpawnDrawsOk(d)
  {
    var gapX := GapLeft(d);
    var gapWidth := GapWidth(d);
    RockRow(-100.0, false, Rock((gapX - 70) as real, 70.0, 70.0, false),
            Rock((gapX + gapWidth) as real, 70.0, 70.0, false), gapX as real, gapWidth as real)
  }

  /** One gate in 125 frames. */
  function NewRows(d: SpawnDraws): seq<RockRow>
    requires SpawnDrawsOk(d)
  {
    if d.row < 0.008 then [NewGate(d)] else []
  }

  /** A new gate's geometry: the gap is 120 to 200 wide and at least 50
      from either edge, the rocks end and start exactly at the gap, no
      flag is raised yet, and a new tree lies within the canvas's width. */
  lemma GateGeometry(d: SpawnDraws)
    requires SpawnDrawsOk(d)
    ensures var g := NewGate(d);
            120.0 <= g.gapWidth <= 200.0 &&
            50.0 <= g.gapX <= CanvasWidth as real - g.gapWidth - 50.0 &&
            g.leftRock.x + g.leftRock.width == g.gapX &&
            g.rightRock.x == g.gapX + g.gapWidth &&
            !g.passed && !g.leftRock.collided && !g.rightRock.collided && g.y == -100.0
    ensures forall t | t in NewTrees(d) :: 0.0 <= t.x && t.x + t.width <= CanvasWidth as real && t.y == -70.0
  {
  }

  /** The screens: the start screen, play, and the end screen. */
  datatype GameState = Start | Playing | GameOver

  class Game {
    var state: GameState
    var score: int
    var timeRemaining: int
    var bgOffsetY: int
    var playerX: int
    var playerY: int
    var trees: seq<Tree>
    var rockRows: seq<RockRow>
    /** Which end screen shows: the time ran out (true) or the player
        crashed (false). */
    var missionComplete: bool

    /** The player is on the grid, the background offset on the canvas,
        and while playing there is time left. */
    predicate Valid()
      reads this
    {
      OnGrid(playerX, playerY) && 0 <= bgOffsetY < CanvasHeight &&
      timeRemaining <= GameDuration && (state == Playing ==> timeRemaining > 0)
    }

    constructor ()
      ensures Valid() && state == Start && score == 0 && timeRemaining == GameDuration
      ensures playerX == CanvasWidth / 2 - 25 && playerY == CanvasHeight - 150
      ensures trees == [] && rockRows == [] && bgOffsetY == 0
    {
      state := Start;
      score := 0;
      timeRemaining := GameDuration;
      bgOffsetY := 0;
      playerX := CanvasWidth / 2 - 25;
      playerY := CanvasHeight - 150;
      trees := [];
      rockRows := [];
      missionComplete := false;
    }

    /** Play starts (or restarts) with no score, full time, the player
        centred near the bottom and no obstacles. */
    method StartGame()
      requires Valid()
      modifies this
      ensures Valid() && state == Playing && score == 0 && timeRemaining == GameDuration
      ensures playerX == CanvasWidth / 2 - PlayerSize / 2 && playerY == CanvasHeight - 150
      ensures trees == [] && rockRows == []
      ensures bgOffsetY == old(bgOffsetY) && missionComplete == old(missionComplete)
    {
      state := Playing;
      score := 0;
      timeRemaining := GameDuration;
      playerX := CanvasWidth / 2 - PlayerSize / 2;
      playerY := CanvasHeight - 150;
      trees := [];
      rockRows := [];
    }

    method EndGame(isTimeUp: bool)
      modifies this
      ensures state == GameOver && missionComplete == isTimeUp
      ensures score == old(score) && timeRemaining == old(timeRemaining)
      ensures playerX == old(playerX) && playerY == old(playerY) && bgOffsetY == old(bgOffsetY)
      ensures trees == old(trees) && rockRows == old(rockRows)
    {
      state := GameOver;
      missionComplete := isTimeUp;
    }

    /** The once-a-second clock: while playing, one second less, and the
        mission is complete when none is left. */
    method TimerTick()
      requires Valid()
      modifies this
      ensures Valid()
      ensures old(state) != Playing ==> unchanged(this)
      ensures old(state) == Playing ==>
                timeRemaining == old(timeRemaining) - 1 &&
                (timeRemaining <= 0 ==> state == GameOver && missionComplete) &&
                (timeRemaining > 0 ==> state == Playing && missionComplete == old(missionComplete))
      ensures score == old(score) && trees == old(trees) && rockRows == old(rockRows)
      ensures playerX == old(playerX) && playerY == old(playerY) && bgOffsetY == old(bgOffsetY)
    {
      if state != Playing {
        return;
      }
      timeRemaining := timeRemaining - 1;
      if timeRemaining <= 0 {
        EndGame(true);
      }
    }

    /** One frame: the player moves, the background scrolls, the trees
        move (a crash ends the game and the frame), the gates move and
        score, and new obstacles may appear. */
    method Update(keys: Arrows, d: SpawnDraws)
      requires Valid() && SpawnDrawsOk(d)
      modifies this
      ensures Valid()
      ensures (playerX, playerY) == MovePlayer(old(playerX), old(playerY), keys)
      ensures bgOffsetY == ScrollBg(old(bgOffsetY)) && timeRemaining == old(timeRemaining)
      ensures var tp := TreePhase(PlayerRect(playerX, playerY), old(trees));
              (tp.crashed ==>
                 trees == tp.trees && rockRows == old(rockRows) && score == old(score) &&
                 state == GameOver && !missionComplete) &&
              (!tp.crashed ==>
                 var rp := RowsPhase(playerX, playerY, old(rockRows));
                 trees == tp.trees + NewTrees(d) && rockRows == rp.0 + NewRows(d) &&
                 score == old(score) + rp.1 && state == old(state) && missionComplete == old(missionComplete))
    {
      Steer(keys);
      var crashed := MoveTrees();
      if crashed {
        EndGame(false);
        return;
      }
      MoveRockRows();
      SpawnObstacles(d);
    }

    /** The player's guarded moves and the background scroll. */
    method Steer(keys: Arrows)
      requires Valid()
      modifies this
      ensures Valid()
      ensures (playerX, playerY) == MovePlayer(old(playerX), old(playerY), keys)
      ensures bgOffsetY == ScrollBg(old(bgOffsetY))
      ensures state == old(state) && score == old(score) && timeRemaining == old(timeRemaining)
      ensures trees == old(trees) && rockRows == old(rockRows) && missionComplete == old(missionComplete)
    {
      var x, y := playerX, playerY;
      if keys.up && y > 0 { y := y - PlayerSpeed; }
      if keys.down && y < CanvasHeight - PlayerSize { y := y + PlayerSpeed; }
      if keys.left && x > 0 { x := x - PlayerSpeed; }
      if keys.right && x < CanvasWidth - PlayerSize { x := x + PlayerSpeed; }
      assert (x, y) == MovePlayer(playerX, playerY, keys);
      MovePlayerStaysOnGrid(playerX, playerY, keys);
      playerX, playerY := x, y;

      var offset := bgOffsetY + ScrollSpeed;
      if offset >= CanvasHeight { offset := 0; }
      bgOffsetY := offset;
    }

    /** The tree loop, from the last tree to the first; `crashed` reports
        a tree touching the player, which stops the loop. */
    method MoveTrees() returns (crashed: bool)
      modifies this
      ensures var tp := TreePhase(PlayerRect(playerX, playerY), old(trees));
              trees == tp.trees && crashed == tp.crashed
      ensures state == old(state) && score == old(score) && timeRemaining == old(timeRemaining)
      ensures playerX == old(playerX) && playerY == old(playerY) && bgOffsetY == old(bgOffsetY)
      ensures rockRows == old(rockRows) && missionComplete == old(missionComplete)
    {
      trees, crashed := FallTrees(trees, PlayerRect(playerX, playerY));
    }

    static method FallTrees(ts: seq<Tree>, p: Box) returns (trees: seq<Tree>, crashed: bool)
      ensures TreePass(trees, crashed) == TreePhase(p, ts)
    {
      trees := ts;
      var i := |trees|;
      while i > 0
        invariant 0 <= i <= |ts|
        invariant trees == ts[..i] + TreePhase(p, ts[i..]).trees
        invariant !TreePhase(p, ts[i..]).crashed
        decreases i
      {
        i := i - 1;
        assert ts[i..] == [ts[i]] + ts[i + 1..];
        assert trees[i] == ts[i];
        trees := trees[i := trees[i].(y := trees[i].y + ScrollSpeed as real)];
        if CheckCollision(p, TreeBox(trees[i])) {
          assert trees == ts[..i] + TreePhase(p, ts[i..]).trees;
          TreePhaseSuffix(p, ts, i);
          return trees, true;
        }
        if trees[i].y > CanvasHeight as real {
          trees := trees[..i] + trees[i + 1..];
        }
        assert trees == ts[..i] + TreePhase(p, ts[i..]).trees;
      }
      assert ts[0..] == ts;
      crashed := false;
    }

    /** The gate loop, from the last gate to the first. */
    method MoveRockRows()
      modifies this
      ensures var rp := RowsPhase(playerX, playerY, old(rockRows));
              rockRows == rp.0 && score == old(score) + rp.1
      ensures state == old(state) && timeRemaining == old(timeRemaining)
      ensures playerX == old(playerX) && playerY == old(playerY) && bgOffsetY == old(bgOffsetY)
      ensures trees == old(trees) && missionComplete == old(missionComplete)
    {
      var delta;
      rockRows, delta := StepRows(rockRows, playerX, playerY);
      score := score + delta;
    }

    static method StepRows(rows: seq<RockRow>, px: int, py: int) returns (out: seq<RockRow>, delta: int)
      ensures out == RowsPhase(px, py, rows).0 && delta == RowsPhase(px, py, rows).1
    {
      out := rows;
      delta := 0;
      var i := |out|;
      while i > 0
        invariant 0 <= i <= |rows|
        invariant out == rows[..i] + RowsPhase(px, py, rows[i..]).0
        invariant delta == RowsPhase(px, py, rows[i..]).1
        decreases i
      {
        i := i - 1;
        assert rows[i..] == [rows[i]] + rows[i + 1..];
        assert out[i] == rows[i];
        var row, d := StepRow(out[i], px, py);
        delta := delta + d;
        out := out[i := row];
        if row.y > CanvasHeight as real {
          out := out[..i] + out[i + 1..];
        }
        assert out == rows[..i] + RowsPhase(px, py, rows[i..]).0;
      }
      assert rows[0..] == rows;
    }

    /** The body of the gate loop on one gate. */
    static method StepRow(row: RockRow, px: int, py: int) returns (r: RockRow, delta: int)
      ensures (r, delta) == RowStep(px, py, row)
    {
      var p := PlayerRect(px, py);
      r := row.(y := row.y + ScrollSpeed as real);
      delta := 0;
      if !r.leftRock.collided && CheckCollision(p, RockBox(r.leftRock, r.y)) {
        delta := delta - 100;
        r := r.(leftRock := r.leftRock.(collided := true));
      }
      if !r.rightRock.collided && CheckCollision(p, RockBox(r.rightRock, r.y)) {
        delta := delta - 100;
        r := r.(rightRock := r.rightRock.(collided := true));
      }
      if !r.passed && InGap(px, py, r) {
        r := r.(passed := true);
        delta := delta + 100;
      }
    }

    method SpawnObstacles(d: SpawnDraws)
      requires SpawnDrawsOk(d)
      modifies this
      ensures trees == old(trees) + NewTrees(d) && rockRows == old(rockRows) + NewRows(d)
      ensures state == old(state) && score == old(score) && timeRemaining == old(timeRemaining)
      ensures playerX == old(playerX) && playerY == old(playerY) && bgOffsetY == old(bgOffsetY)
      ensures missionComplete == old(missionComplete)
    {
      if d.tree < 0.02 {
        var treeX := Scale(d.treeX, (CanvasWidth - 60) as real);
        trees := trees + [Tree(treeX, -70.0, 60.0, 60.0)];
      }
      if d.row < 0.008 {
        var rockSize := 70;
        var gapWidth := Pick(d.gap, 200 - 120 + 1) + 120;
        var maxGapX := CanvasWidth - gapWidth - 50;
        var gapX := Pick(d.gapX, maxGapX - 50 + 1) + 50;
        rockRows := rockRows + [RockRow(-100.0, false,
                                        Rock((gapX - rockSize) as real, rockSize as real, rockSize as real, false),
                                        Rock((gapX + gapWidth) as real, rockSize as real, rockSize as real, false),
                                        gapX as real, gapWidth as real)];
      }
    }
  }
}
