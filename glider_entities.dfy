/** The hang-glider's entities: the player's glider, which the arrow keys
    steer and the screen edges contain, and the obstacles and sweets that
    scroll in from the right. */
module GliderEntities {
  import opened Geometry
  import opened Rand

  /** The keys held down, by name. */
  type Keys = set<string>

  /** The movement along one axis for a frame: `speed` towards the
      `plus` key and `speed` back for the `minus` key, so holding both
      cancels out. */
  function Axis(keys: Keys, minus: string, plus: string, speed: real): real
  {
    (if plus in keys then speed else 0.0) - (if minus in keys then speed else 0.0)
  }

  /** The containment rule on one axis: first raise a negative coordinate
      to zero, then pull back a sprite that sticks out past `limit`. */
  function Contain(v: real, size: real, limit: real): real
  {
    var low := if v < 0.0 then 0.0 else v;
    if low + size > limit then limit - size else low
  }

  /** When the sprite fits, the contained coordinate keeps the sprite on
      screen; when it does not fit, the far edge wins. */
  lemma ContainBounds(v: real, size: real, limit: real)
    ensures size <= limit ==> 0.0 <= Contain(v, size, limit) <= limit - size
    ensures size > limit ==> Contain(v, size, limit) == limit - size
  {
  }

  /** A coordinate already on screen is left where it is. */
  lemma ContainKeepsInside(v: real, size: real, limit: real)
    requires 0.0 <= v && v + size <= limit
    ensures Contain(v, size, limit) == v
  {
  }

  /** What an obstacle or a sweet is for the rules: its position, size,
      speed and deletion mark. */
  datatype Sprite = Sprite(x: real, y: real, width: real, height: real, speed: real, marked: bool)

  function SpriteBox(s: Sprite): Box
  {
    Box(s.x, s.y, s.width, s.height)
  }

  /** One frame's move: left by the speed, and marked once wholly off the
      left edge. */
  function Moved(s: Sprite): Sprite
  {
    var x := s.x - s.speed;
    s.(x := x, marked := s.marked || x + s.width < 0.0)
  }

  /** A move changes only `x`, by exactly the speed; the mark is set
      exactly when the sprite has left the screen, and a mark is never
      cleared. */
  lemma MovedFacts(s: Sprite)
    ensures Moved(s).x == s.x - s.speed
    ensures Moved(s).y == s.y && Moved(s).width == s.width && Moved(s).height == s.height
    ensures Moved(s).speed == s.speed
    ensures Moved(s).marked <==> s.marked || Moved(s).x + s.width < 0.0
    ensures s.marked ==> Moved(s).marked
  {
  }

  /** The player's glider. */
  class Player {
    const gameW: real
    const gameH: real
    const width: real
    const height: real
    const speed: real
    var x: real
    var y: real

    constructor (gameW: real, gameH: real)
      ensures this.gameW == gameW && this.gameH == gameH
      ensures width == 64.0 && height == 64.0 && speed == 5.0
      ensures x == 100.0 && y == gameH / 2.0
    {
      this.gameW := gameW;
      this.gameH := gameH;
      width := 64.0;
      height := 64.0;
      x := 100.0;
      y := gameH / 2.0;
      speed := 5.0;
    }

    /** One frame of steering, then containment on both axes. */
    method Update(keys: Keys)
      modifies this
      ensures x == Contain(old(x) + Axis(keys, "ArrowLeft", "ArrowRight", speed), width, gameW)
      ensures y == Contain(old(y) + Axis(keys, "ArrowUp", "ArrowDown", speed), height, gameH)
      ensures width <= gameW ==> 0.0 <= x <= gameW - width
      ensures height <= gameH ==> 0.0 <= y <= gameH - height
    {
      var nx, ny := x, y;
      if "ArrowUp" in keys { ny := ny - speed; }
      if "ArrowDown" in keys { ny := ny + speed; }
      if "ArrowLeft" in keys { nx := nx - speed; }
      if "ArrowRight" in keys { nx := nx + speed; }
      assert nx == x + Axis(keys, "ArrowLeft", "ArrowRight", speed);
      assert ny == y + Axis(keys, "ArrowUp", "ArrowDown", speed);
      ContainBounds(nx, width, gameW);
      ContainBounds(ny, height, gameH);

      if nx < 0.0 { nx := 0.0; }
      if nx + width > gameW { nx := gameW - width; }
      if ny < 0.0 { ny := 0.0; }
      if ny + height > gameH { ny := gameH - height; }
      x, y := nx, ny;
    }

    /** The hit box: the sprite shrunk by 10 on every side. */
    function Bounds(): (r: Box)
      reads this
      ensures r.x == x + 10.0 && r.y == y + 10.0
      ensures r.x + r.w == x + width - 10.0 && r.y + r.h == y + height - 10.0
    {
      Inset(Box(x, y, width, height), 10.0)
    }
  }

  /** The three kinds of obstacle; only the picture differs. */
  datatype ObstacleKind = Roof | Cutter | Construction

  /** The obstacle kind for a draw: `Math.floor(Math.random() * 3)` into
      the list roof, cutter, construction. */
  function KindOf(draw: real): ObstacleKind
    requires IsDraw(draw)
  {
    var k := Pick(draw, 3);
    if k == 0 then Roof else if k == 1 then Cutter else Construction
  }

  class Obstacle {
    const gameW: real
    const gameH: real
    const kind: ObstacleKind
    const width: real
    const height: real
    const speed: real
    var x: real
    var y: real
    var markedForDeletion: bool

    /** A new obstacle at the right edge, at a random height that keeps it
        above the bottom edge. */
    constructor (gameW: real, gameH: real, kind: ObstacleKind, speed: real, draw: real)
      requires IsDraw(draw)
      ensures this.gameW == gameW && this.gameH == gameH && this.kind == kind && this.speed == speed
      ensures View() == Sprite(gameW, Scale(draw, gameH - 64.0), 64.0, 64.0, speed, false)
      ensures gameH > height ==> 0.0 <= y < gameH - height
    {
      this.gameW := gameW;
      this.gameH := gameH;
      this.kind := kind;
      width := 64.0;
      height := 64.0;
      x := gameW;
      y := Scale(draw, gameH - 64.0);
      this.speed := speed;
      markedForDeletion := false;
    }

    function View(): Sprite
      reads this
    {
      Sprite(x, y, width, height, speed, markedForDeletion)
    }

    method Update()
      modifies this
      ensures View() == Moved(old(View()))
    {
      x := x - speed;
      if x + width < 0.0 { markedForDeletion := true; }
    }

    /** The hit box: the sprite shrunk by 5 on every side. */
    function Bounds(): (r: Box)
      reads this
      ensures r.x == x + 5.0 && r.y == y + 5.0
      ensures r.x + r.w == x + width - 5.0 && r.y + r.h == y + height - 5.0
    {
      Inset(Box(x, y, width, height), 5.0)
    }
  }

  /** A sweet to collect. */
  class Item {
    const gameW: real
    const gameH: real
    const width: real
    const height: real
    const speed: real
    var x: real
    var y: real
    var markedForDeletion: bool

    constructor (gameW: real, gameH: real, speed: real, draw: real)
      requires IsDraw(draw)
      ensures this.gameW == gameW && this.gameH == gameH && this.speed == speed
      ensures View() == Sprite(gameW, Scale(draw, gameH - 48.0), 48.0, 48.0, speed, false)
      ensures gameH > height ==> 0.0 <= y < gameH - height
    {
      this.gameW := gameW;
      this.gameH := gameH;
      width := 48.0;
      height := 48.0;
      x := gameW;
      y := Scale(draw, gameH - 48.0);
      this.speed := speed;
      markedForDeletion := false;
    }

    function View(): Sprite
      reads this
    {
      Sprite(x, y, width, height, speed, markedForDeletion)
    }

    method Update()
      modifies this
      ensures View() == Moved(old(View()))
    {
      x := x - speed;
      if x + width < 0.0 { markedForDeletion := true; }
    }

    /** The hit box: the sprite itself. */
    function Bounds(): (r: Box)
      reads this
      ensures r == SpriteBox(View())
    {
      Box(x, y, width, height)
    }
  }
}
