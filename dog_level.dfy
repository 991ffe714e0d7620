/** The dog platformer's level generator: a safe 800-pixel start block,
    then a random walk of gaps and islands until the level width is
    reached. Islands step up or down by one tile at most and stay between
    the heights 200 and 550. */
module DogLevel {
  import opened Rand

  /** A platform: its left edge, its top and its width. */
  datatype Platform = Platform(x: real, y: int, width: real)

  /** The draws of one step of the walk: whether it is a gap and how wide,
      whether the ground goes up or down, and the island's tile count. */
  datatype LevelDraw = LevelDraw(gap: real, gapWidth: real, up: real, down: real, island: real)

  predicate LevelDrawOk(d: LevelDraw)
  {
    IsDraw(d.gap) && IsDraw(d.gapWidth) && IsDraw(d.up) && IsDraw(d.down) && IsDraw(d.island)
  }

  /** `Phaser.Math.Clamp`. */
  function Clamp(v: int, lo: int, hi: int): (r: int)
    requires lo <= hi
    ensures lo <= r <= hi
    ensures lo <= v <= hi ==> r == v
  {
    if v < lo then lo else if v > hi then hi else v
  }

  /** The island's tile count, `Math.floor(2 + r * 5)`: from 2 to 6. */
  function Tiles(r: real): (n: int)
    requires IsDraw(r)
    ensures 2 <= n <= 6
  {
    (2.0 + r * 5.0).Floor
  }

  /** The widths an island can have: a whole number of 64-pixel tiles
      from 2 to 6, or cut short at the end of the level. */
  predicate IslandWidthOk(p: Platform, levelWidth: real)
  {
    0.0 < p.width && p.x + p.width <= levelWidth &&
    (p.width in {128.0, 192.0, 256.0, 320.0, 384.0} || p.x + p.width == levelWidth)
  }

  /** What the generator promises of its platforms: the start block first,
      every platform between the heights 200 and 550, platforms left to
      right without overlap, neighbours at most one tile apart in height,
      and the islands within the level with their tile widths. */
  predicate LevelOk(ps: seq<Platform>, levelWidth: real)
  {
    |ps| >= 1 && ps[0] == Platform(0.0, 500, 800.0) &&
    (forall i | 0 <= i < |ps| :: 200 <= ps[i].y <= 550) &&
    (forall i | 1 <= i < |ps| :: IslandWidthOk(ps[i], levelWidth)) &&
    (forall i, j | 0 <= i < j < |ps| :: ps[i].x + ps[i].width <= ps[j].x) &&
    (forall i | 0 <= i < |ps| - 1 :: -64 <= ps[i + 1].y - ps[i].y <= 64)
  }

  /** Appending an island after the last platform keeps the promises. */
  lemma AppendIsland(ps: seq<Platform>, isle: Platform, levelWidth: real)
    requires LevelOk(ps, levelWidth)
    requires forall i | 0 <= i < |ps| :: ps[i].x + ps[i].width <= isle.x
    requires IslandWidthOk(isle, levelWidth) && 200 <= isle.y <= 550
    requires -64 <= isle.y - ps[|ps| - 1].y <= 64
    ensures LevelOk(ps + [isle], levelWidth)
  {
    var qs := ps + [isle];
    assert forall i | 0 <= i < |ps| :: qs[i] == ps[i];
    assert qs[|ps|] == isle;
    forall i | 0 <= i < |qs|
      ensures 200 <= qs[i].y <= 550
    {
    }
    forall i | 1 <= i < |qs|
      ensures IslandWidthOk(qs[i], levelWidth)
    {
    }
    forall i, j | 0 <= i < j < |qs|
      ensures qs[i].x + qs[i].width <= qs[j].x
    {
    }
    forall i | 0 <= i < |qs| - 1
      ensures -64 <= qs[i + 1].y - qs[i].y <= 64
    {
    }
  }

  /** What is left of the level, in whole pixels and one more; the walk's
      termination measure. */
  function Remaining(x: real, levelWidth: real): int
  {
    if x < levelWidth then (levelWidth - x).Floor + 1 else 0
  }

  /** A step that advances by 100 or more, or to the end, leaves less. */
  lemma RemainingShrinks(x: real, x1: real, levelWidth: real)
    requires x < levelWidth && (x1 >= x + 100.0 || x1 == levelWidth)
    ensures 0 <= Remaining(x1, levelWidth) < Remaining(x, levelWidth)
  {
    if x1 < levelWidth {
      assert levelWidth - x1 <= (levelWidth - x) - 100.0;
    }
  }

  /** The islands the walk lays from position `x` at height `y`, with the
      draws of its k-th step onward: nothing once `x` has reached the
      level width; otherwise a gap of 100 to 150 pixels, or an island one
      tile up, one tile down or level, clamped to the heights 200 to 550,
      of 2 to 6 tiles cut short at the end of the level. */
  ghost function Walk(x: real, y: int, k: nat, levelWidth: real, draws: nat -> LevelDraw): (ps: seq<Platform>)
    requires forall j: nat :: LevelDrawOk(draws(j))
    decreases Remaining(x, levelWidth)
  {
    if x >= levelWidth then []
    else
      var d := draws(k);
      assert LevelDrawOk(d);
      if d.gap < 0.1 then
        var x1 := x + 100.0 + d.gapWidth * 50.0;
        RemainingShrinks(x, x1, levelWidth);
        Walk(x1, y, k + 1, levelWidth, draws)
      else
        var y1 := Clamp(if d.up < 0.2 then y - 64 else if d.down < 0.2 then y + 64 else y, 200, 550);
        var w0 := (Tiles(d.island) * 64) as real;
        var w := if x + w0 > levelWidth then levelWidth - x else w0;
        RemainingShrinks(x, x + w, levelWidth);
        [Platform(x, y1, w)] + Walk(x + w, y1, k + 1, levelWidth, draws)
  }

  /** Every island of the walk lies between its starting position and the
      level's end, left to right. */
  lemma {:induction false} WalkWithin(x: real, y: int, k: nat, levelWidth: real, draws: nat -> LevelDraw)
    requires forall j: nat :: LevelDrawOk(draws(j))
    ensures var ps := Walk(x, y, k, levelWidth, draws);
            forall i | 0 <= i < |ps| :: x <= ps[i].x && ps[i].x + ps[i].width <= levelWidth
    decreases Remaining(x, levelWidth)
  {
    if x < levelWidth {
      var d := draws(k);
      assert LevelDrawOk(d);
      if d.gap < 0.1 {
        var x1 := x + 100.0 + d.gapWidth * 50.0;
        RemainingShrinks(x, x1, levelWidth);
        WalkGap(x, y, k, levelWidth, draws);
        WalkWithin(x1, y, k + 1, levelWidth, draws);
      } else {
        var y1 := Clamp(if d.up < 0.2 then y - 64 else if d.down < 0.2 then y + 64 else y, 200, 550);
        var w0 := (Tiles(d.island) * 64) as real;
        var w := if x + w0 > levelWidth then levelWidth - x else w0;
        RemainingShrinks(x, x + w, levelWidth);
        WalkIsland(x, y, k, levelWidth, draws, y1, w);
        WalkWithin(x + w, y1, k + 1, levelWidth, draws);
      }
    }
  }

  /** A gap step of the walk. */
  lemma WalkGap(x: real, y: int, k: nat, levelWidth: real, draws: nat -> LevelDraw)
    requires forall j: nat :: LevelDrawOk(draws(j))
    requires x < levelWidth && draws(k).gap < 0.1
    ensures Walk(x, y, k, levelWidth, draws) == Walk(x + 100.0 + draws(k).gapWidth * 50.0, y, k + 1, levelWidth, draws)
  {
  }

  /** An island step of the walk, at height `y1` and of width `w`. */
  lemma WalkIsland(x: real, y: int, k: nat, levelWidth: real, draws: nat -> LevelDraw, y1: int, w: real)
    requires forall j: nat :: LevelDrawOk(draws(j))
    requires x < levelWidth && LevelDrawOk(draws(k)) && draws(k).gap >= 0.1
    requires y1 == Clamp(if draws(k).up < 0.2 then y - 64 else if draws(k).down < 0.2 then y + 64 else y, 200, 550)
    requires w == if x + (Tiles(draws(k).island) * 64) as real > levelWidth then levelWidth - x
                  else (Tiles(draws(k).island) * 64) as real
    ensures Walk(x, y, k, levelWidth, draws) == [Platform(x, y1, w)] + Walk(x + w, y1, k + 1, levelWidth, draws)
  {
  }

  /** The generator's loop invariant at position `x`, height `y` and step
      `k`: the platforms laid so far keep the promises, end at or before
      `x` with the last one at height `y`, and followed by the rest of the
      walk make up the whole level. */
  ghost predicate GenerateInv(ps: seq<Platform>, x: real, y: int, k: nat, levelWidth: real, draws: nat -> LevelDraw)
    requires forall j: nat :: LevelDrawOk(draws(j))
  {
    800.0 <= x && 200 <= y <= 550 && LevelOk(ps, levelWidth) && ps[|ps| - 1].y == y &&
    (forall i | 0 <= i < |ps| :: ps[i].x + ps[i].width <= x) &&
    ps + Walk(x, y, k, levelWidth, draws) == [Platform(0.0, 500, 800.0)] + Walk(800.0, 500, 0, levelWidth, draws)
  }

  /** A gap keeps the invariant. */
  lemma GapKeeps(ps: seq<Platform>, x: real, y: int, k: nat, levelWidth: real, draws: nat -> LevelDraw)
    requires forall j: nat :: LevelDrawOk(draws(j))
    requires GenerateInv(ps, x, y, k, levelWidth, draws) && x < levelWidth && draws(k).gap < 0.1
    ensures GenerateInv(ps, x + 100.0 + draws(k).gapWidth * 50.0, y, k + 1, levelWidth, draws)
  {
    WalkGap(x, y, k, levelWidth, draws);
  }

  /** Laying an island keeps the invariant. */
  lemma IslandKeeps(ps: seq<Platform>, x: real, y: int, k: nat, levelWidth: real, draws: nat -> LevelDraw, y1: int, w: real)
    requires forall j: nat :: LevelDrawOk(draws(j))
    requires GenerateInv(ps, x, y, k, levelWidth, draws) && x < levelWidth && draws(k).gap >= 0.1
    requires y1 == Clamp(if draws(k).up < 0.2 then y - 64 else if draws(k).down < 0.2 then y + 64 else y, 200, 550)
    requires w == if x + (Tiles(draws(k).island) * 64) as real > levelWidth then levelWidth - x
                  else (Tiles(draws(k).island) * 64) as real
    ensures GenerateInv(ps + [Platform(x, y1, w)], x + w, y1, k + 1, levelWidth, draws)
  {
    var isle := Platform(x, y1, w);
    assert IslandWidthOk(isle, levelWidth);
    AppendIsland(ps, isle, levelWidth);
    WalkIsland(x, y, k, levelWidth, draws, y1, w);
    ShiftIsland(ps, isle, Walk(x + w, y1, k + 1, levelWidth, draws));
  }

  /** Moving a laid island from the walk's rest onto the platforms. */
  lemma ShiftIsland(ps: seq<Platform>, isle: Platform, rest: seq<Platform>)
    ensures ps + ([isle] + rest) == (ps + [isle]) + rest
  {
  }

  /** The generator. `draws(k)` are the random draws of the walk's k-th
      step; the walk ends once the position reaches the level width,
      which it must, since every step advances by at least 100 or to the
      end of the level. */
  method GenerateLevel(levelWidth: real, draws: nat -> LevelDraw) returns (platforms: seq<Platform>)
    requires forall k: nat :: LevelDrawOk(draws(k))
    ensures LevelOk(platforms, levelWidth)
    ensures platforms == [Platform(0.0, 500, 800.0)] + Walk(800.0, 500, 0, levelWidth, draws)
  {
    var x := 0.0;
    var y := 500;
    platforms := [Platform(x, y, 800.0)];
    x := x + 800.0;
    var k: nat := 0;
    while x < levelWidth
      invariant GenerateInv(platforms, x, y, k, levelWidth, draws)
      decreases Remaining(x, levelWidth)
    {
      var d := draws(k);
      assert LevelDrawOk(d);
      ghost var x0, y0, k0, ps0 := x, y, k, platforms;
      k := k + 1;
      if d.gap < 0.1 {
        x := x + 100.0 + d.gapWidth * 50.0;
        RemainingShrinks(x0, x, levelWidth);
        GapKeeps(ps0, x0, y0, k0, levelWidth, draws);
      } else {
        if d.up < 0.2 {
          y := y - 64;
        } else if d.down < 0.2 {
          y := y + 64;
        }
        y := Clamp(y, 200, 550);
        var islandWidth := (Tiles(d.island) * 64) as real;
        if x + islandWidth > levelWidth {
          islandWidth := levelWidth - x;
        }
        platforms := platforms + [Platform(x, y, islandWidth)];
        x := x + islandWidth;
        RemainingShrinks(x0, x, levelWidth);
        IslandKeeps(ps0, x0, y0, k0, levelWidth, draws, y, islandWidth);
      }
    }
  }
}
