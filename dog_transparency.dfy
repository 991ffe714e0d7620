/** The dog platformer's run-time transparency pass for its tile texture:
    the colours of the four top-left pixels are taken as the background
    (a checkerboard has two), and a breadth-first flood fill from the four
    corners of the image clears the alpha of every background-coloured
    pixel it reaches. */
module DogTransparency {
  import opened Wrappers
  import opened GridPaths

  /** A channel of the canvas's RGBA data. */
  newtype byte = x: int | 0 <= x < 256

  datatype Rgb = Rgb(r: int, g: int, b: int)

  /** The per-channel tolerance. */
  const Tol: int := 30

  function Abs(v: int): int
  {
    if v < 0 then -v else v
  }

  /** Two colours within the tolerance on every channel. A colour read past
      the end of the data (JavaScript's `undefined`) is close to nothing. */
  predicate Close(c: Option<Rgb>, d: Option<Rgb>)
  {
    c.Some? && d.Some? &&
    Abs(c.value.r - d.value.r) < Tol && Abs(c.value.g - d.value.g) < Tol && Abs(c.value.b - d.value.b) < Tol
  }

  predicate CloseToAny(c: Option<Rgb>, colors: seq<Option<Rgb>>)
  {
    exists k | 0 <= k < |colors| :: Close(c, colors[k])
  }

  /** A palette of the samples: no longer than they are, starting with the
      first, drawn from them, no two of its colours close, and every sample
      in it or close to a colour of it. */
  predicate PaletteOf(corners: seq<Option<Rgb>>, bgColors: seq<Option<Rgb>>)
  {
    |bgColors| <= |corners| &&
    (|corners| > 0 ==> |bgColors| > 0 && bgColors[0] == corners[0]) &&
    (forall k | 0 <= k < |bgColors| :: bgColors[k] in corners) &&
    (forall i, j | 0 <= i < j < |bgColors| :: !Close(bgColors[j], bgColors[i])) &&
    (forall m | 0 <= m < |corners| :: corners[m] in bgColors || CloseToAny(corners[m], bgColors))
  }

  /** The palette the first-come loop builds: the samples in order, each
      kept unless it is close to one kept before it. */
  function Greedy(corners: seq<Option<Rgb>>): seq<Option<Rgb>>
  {
    if corners == [] then []
    else
      var bg := Greedy(corners[..|corners| - 1]);
      var c := corners[|corners| - 1];
      if CloseToAny(c, bg) then bg else bg + [c]
  }

  /** The first-come palette is a palette of its samples. */
  lemma {:induction false} GreedyPalette(corners: seq<Option<Rgb>>)
    ensures PaletteOf(corners, Greedy(corners))
  {
    if corners != [] {
      var n := |corners| - 1;
      GreedyPalette(corners[..n]);
      PalettePrefix(corners, n, Greedy(corners[..n]));
      assert corners[..n + 1] == corners;
    }
  }

  /** The loop's order decides the palette: with samples (0,0,0),
      (40,0,0), (60,0,0) it keeps the first two. */
  lemma FirstComePalette()
    ensures Greedy([Some(Rgb(0, 0, 0)), Some(Rgb(40, 0, 0)), Some(Rgb(60, 0, 0))]) ==
            [Some(Rgb(0, 0, 0)), Some(Rgb(40, 0, 0))]
  {
    var a, b, c := Some(Rgb(0, 0, 0)), Some(Rgb(40, 0, 0)), Some(Rgb(60, 0, 0));
    assert [a, b, c][..2] == [a, b] && [a, b][..1] == [a] && [a][..0] == [];
    assert Greedy([a]) == [a];
    assert !Close(b, [a][0]);
    assert Greedy([a, b]) == [a, b];
    assert Close(c, [a, b][1]);
  }

  /** For the same samples the first and the third would also be a
      palette, so `PaletteOf` alone does not fix the loop's result. */
  lemma AnotherPalette()
    ensures PaletteOf([Some(Rgb(0, 0, 0)), Some(Rgb(40, 0, 0)), Some(Rgb(60, 0, 0))],
                      [Some(Rgb(0, 0, 0)), Some(Rgb(60, 0, 0))])
  {
    var a, b, c := Some(Rgb(0, 0, 0)), Some(Rgb(40, 0, 0)), Some(Rgb(60, 0, 0));
    var cs, bg := [a, b, c], [a, c];
    assert Close(cs[1], bg[1]);
  }

  /** The background palette: the corner samples in order, each kept unless
      it is close to one kept before it. */
  method BackgroundColors(corners: seq<Option<Rgb>>) returns (bgColors: seq<Option<Rgb>>)
    ensures bgColors == Greedy(corners)
    ensures PaletteOf(corners, bgColors)
  {
    bgColors := [];
    for n := 0 to |corners|
      invariant bgColors == Greedy(corners[..n])
      invariant PaletteOf(corners[..n], bgColors)
    {
      assert corners[..n + 1][..n] == corners[..n];
      PalettePrefix(corners, n, bgColors);
      if !CloseToAny(corners[n], bgColors) {
        bgColors := bgColors + [corners[n]];
      }
    }
    assert corners[..|corners|] == corners;
  }

  /** `PaletteStep` for the next sample of a prefix. */
  lemma PalettePrefix(corners: seq<Option<Rgb>>, n: nat, bg: seq<Option<Rgb>>)
    requires n < |corners| && PaletteOf(corners[..n], bg)
    ensures PaletteOf(corners[..n + 1], if CloseToAny(corners[n], bg) then bg else bg + [corners[n]])
  {
    assert corners[..n + 1] == corners[..n] + [corners[n]];
    PaletteStep(corners[..n], corners[n], bg);
  }

  /** One more sample keeps the palette one: it joins the palette unless
      it is close to a colour already there. */
  lemma PaletteStep(cs: seq<Option<Rgb>>, c: Option<Rgb>, bg: seq<Option<Rgb>>)
    requires PaletteOf(cs, bg)
    ensures PaletteOf(cs + [c], if CloseToAny(c, bg) then bg else bg + [c])
  {
    if CloseToAny(c, bg) {
      PaletteSkip(cs, c, bg);
    } else {
      PaletteJoin(cs, c, bg);
    }
  }

  /** A sample close to a kept colour leaves the palette as it is. */
  lemma PaletteSkip(cs: seq<Option<Rgb>>, c: Option<Rgb>, bg: seq<Option<Rgb>>)
    requires PaletteOf(cs, bg) && CloseToAny(c, bg)
    ensures PaletteOf(cs + [c], bg)
  {
    var cs' := cs + [c];
    assert forall m | 0 <= m < |cs| :: cs'[m] == cs[m];
    assert cs'[|cs|] == c;
    forall k | 0 <= k < |bg| ensures bg[k] in cs' {
      assert bg[k] in cs;
    }
  }

  /** A sample close to no kept colour joins the palette. */
  lemma PaletteJoin(cs: seq<Option<Rgb>>, c: Option<Rgb>, bg: seq<Option<Rgb>>)
    requires PaletteOf(cs, bg) && !CloseToAny(c, bg)
    ensures PaletteOf(cs + [c], bg + [c])
  {
    var cs', bg' := cs + [c], bg + [c];
    assert forall m | 0 <= m < |cs| :: cs'[m] == cs[m];
    assert forall k | 0 <= k < |bg| :: bg'[k] == bg[k];
    assert cs'[|cs|] == c && bg'[|bg|] == c;
    forall k | 0 <= k < |bg'| ensures bg'[k] in cs' {
      if k < |bg| { assert bg[k] in cs; }
    }
    forall m | 0 <= m < |cs'| ensures cs'[m] in bg' || CloseToAny(cs'[m], bg') {
      if m < |cs| && cs[m] !in bg {
        var k :| 0 <= k < |bg| && Close(cs[m], bg[k]);
        assert Close(cs'[m], bg'[k]);
      }
    }
    forall i, j | 0 <= i < j < |bg'| ensures !Close(bg'[j], bg'[i]) {
      if j == |bg| {
        assert !Close(c, bg[i]);
      }
    }
  }


  /** The pixel number of column `x`, row `y`. */
  function Idx(width: nat, x: int, y: int): int
  {
    y * width + x
  }

  lemma MulLe(a: nat, b: nat, c: nat)
    requires a <= b
    ensures a * c <= b * c
  {
    assert b * c == a * c + (b - a) * c;
  }

  lemma IdxBounds(width: nat, height: nat, x: int, y: int)
    requires 0 <= x < width && 0 <= y < height
    ensures 0 <= Idx(width, x, y) < width * height
  {
    MulLe(y + 1, height, width);
    assert (y + 1) * width == y * width + width;
  }

  /** Different pixels of one row width have different pixel numbers. */
  lemma IdxInjective(width: nat, x: int, y: int, x': int, y': int)
    requires 0 <= x < width && 0 <= x' < width && 0 <= y && 0 <= y'
    requires Idx(width, x, y) == Idx(width, x', y')
    ensures x == x' && y == y'
  {
    if y < y' {
      MulLe(y + 1, y', width);
    } else if y' < y {
      MulLe(y' + 1, y, width);
    }
  }

  /** The fixed inputs of one flood fill: the data as it was before the
      fill, the image size and the background palette. */
  datatype Flood = Flood(pixels: seq<byte>, width: nat, height: nat, bgColors: seq<Option<Rgb>>)
  {
    predicate InImage(q: (int, int))
    {
      0 <= q.0 < width && 0 <= q.1 < height
    }

    predicate IsCorner(q: (int, int))
    {
      q == (0, 0) || q == (width - 1, 0) || q == (0, height - 1) || q == (width - 1, height - 1)
    }

    /** `getPixel`: the colour at a pixel, or `undefined` past the data. */
    function ColourAt(q: (int, int)): Option<Rgb>
    {
      var p := Idx(width, q.0, q.1);
      if 0 <= p && 4 * p + 2 < |pixels| then
        Some(Rgb(pixels[4 * p] as int, pixels[4 * p + 1] as int, pixels[4 * p + 2] as int))
      else
        None
    }

    /** `isBackground`, on the original colours. */
    predicate Bg(q: (int, int))
    {
      CloseToAny(ColourAt(q), bgColors)
    }

    /** The background pixels of the image. */
    ghost function BgMask(): set<(int, int)>
    {
      set x, y | 0 <= x < width && 0 <= y < height && Bg((x, y)) :: (x, y)
    }

    ghost function CornerSet(): set<(int, int)>
    {
      {(0, 0), (width - 1, 0), (0, height - 1), (width - 1, height - 1)}
    }

    /** `q` is joined to a corner by a path of at most `n` steps along
        rows and columns, all of whose pixels are background. */
    ghost predicate ReachIn(q: (int, int), n: nat)
    {
      Reach(BgMask(), CornerSet(), q, n)
    }
  }

  /** The neighbours the fill queues after clearing `q`, in its order,
      without those outside the image. */
  function Neighbours(width: nat, height: nat, q: (int, int)): (ns: seq<(int, int)>)
    ensures 0 <= q.0 < width && 0 <= q.1 < height ==>
              forall j | 0 <= j < |ns| :: 0 <= ns[j].0 < width && 0 <= ns[j].1 < height
    ensures forall j | 0 <= j < |ns| :: ns[j] in Around(q)
    ensures q.0 > 0 ==> (q.0 - 1, q.1) in ns
    ensures q.0 < width - 1 ==> (q.0 + 1, q.1) in ns
    ensures q.1 > 0 ==> (q.0, q.1 - 1) in ns
    ensures q.1 < height - 1 ==> (q.0, q.1 + 1) in ns
  {
    (if q.0 > 0 then [(q.0 - 1, q.1)] else []) +
    (if q.0 < width - 1 then [(q.0 + 1, q.1)] else []) +
    (if q.1 > 0 then [(q.0, q.1 - 1)] else []) +
    (if q.1 < height - 1 then [(q.0, q.1 + 1)] else [])
  }

  /** The number of pixels not yet visited. */
  function Unvisited(s: seq<bool>): nat
  {
    if s == [] then 0 else Unvisited(s[..|s| - 1]) + (if s[|s| - 1] then 0 else 1)
  }

  lemma {:induction false} UnvisitedMark(s: seq<bool>, i: int)
    requires 0 <= i < |s| && !s[i]
    ensures Unvisited(s[i := true]) == Unvisited(s) - 1
    decreases |s|
  {
    var t := s[i := true];
    if i < |s| - 1 {
      assert t[..|t| - 1] == s[..|s| - 1][i := true];
      UnvisitedMark(s[..|s| - 1], i);
    } else {
      assert t[..|t| - 1] == s[..|s| - 1];
    }
  }

  /** The alpha byte of a pixel. */
  function Alpha(s: seq<byte>, width: nat, height: nat, q: (int, int)): byte
    requires |s| == 4 * (width * height) && 0 <= q.0 < width && 0 <= q.1 < height
  {
    IdxBounds(width, height, q.0, q.1);
    s[4 * Idx(width, q.0, q.1) + 3]
  }

  /** What the fill leaves: the colour channels untouched; the alpha of
      exactly the pixels of `cleared` set to 0 and every other alpha kept;
      and `cleared` exactly the background pixels joined to a corner by
      background pixels. */
  ghost predicate Filled(fl: Flood, now: seq<byte>, cleared: set<(int, int)>)
  {
    |now| == |fl.pixels| == 4 * (fl.width * fl.height) &&
    (forall k | 0 <= k < |now| && k % 4 != 3 :: now[k] == fl.pixels[k]) &&
    (forall q | q in cleared :: fl.InImage(q) && Alpha(now, fl.width, fl.height, q) == 0) &&
    (forall x, y | 0 <= x < fl.width && 0 <= y < fl.height && (x, y) !in cleared ::
       Alpha(now, fl.width, fl.height, (x, y)) == Alpha(fl.pixels, fl.width, fl.height, (x, y))) &&
    (forall q | q in cleared :: exists n: nat :: fl.ReachIn(q, n)) &&
    (forall q, n: nat | fl.ReachIn(q, n) :: q in cleared)
  }

  /** Whether the fill has visited a pixel. */
  function Visited(v: seq<bool>, width: nat, height: nat, q: (int, int)): bool
    requires |v| == width * height && 0 <= q.0 < width && 0 <= q.1 < height
  {
    IdxBounds(width, height, q.0, q.1);
    v[Idx(width, q.0, q.1)]
  }

  /** Pixels other than `q` have pixel numbers other than that of `q`. */
  lemma IdxOthers(width: nat, height: nat, q: (int, int))
    requires 0 <= q.0 < width && 0 <= q.1 < height
    ensures forall x, y | 0 <= x < width && 0 <= y < height && (x, y) != q :: Idx(width, x, y) != Idx(width, q.0, q.1)
  {
    forall x, y | 0 <= x < width && 0 <= y < height && (x, y) != q
      ensures Idx(width, x, y) != Idx(width, q.0, q.1)
    {
      if Idx(width, x, y) == Idx(width, q.0, q.1) {
        IdxInjective(width, x, y, q.0, q.1);
      }
    }
  }

  /** Where a queued pixel came from: a corner of the initial queue, or
      the neighbour of a cleared pixel. */
  ghost predicate Origin(fl: Flood, o: Option<(int, int)>, q: (int, int), cleared: set<(int, int)>)
  {
    match o
    case None => fl.IsCorner(q)
    case Some(p) => p in cleared && q in Around(p)
  }

  /** A pixel already visited or waiting in the queue. */
  ghost predicate Covered(fl: Flood, v: seq<bool>, queue: seq<(int, int)>, q: (int, int))
    requires |v| == fl.width * fl.height
  {
    q in queue || (fl.InImage(q) && Visited(v, fl.width, fl.height, q))
  }

  /** The loop's invariant. `from` is where each queued pixel came from,
      `cleared` the pixels cleared so far and `dist` for each of them the
      length of a background path from a corner. */
  ghost predicate FillInv(fl: Flood, d: seq<byte>, v: seq<bool>, queue: seq<(int, int)>,
                          from: seq<Option<(int, int)>>, cleared: set<(int, int)>, dist: map<(int, int), nat>)
  {
    Sizes(fl, d, v) && QueueOk(fl, queue, from, cleared) && PixelsOk(fl, d, v, cleared, dist) &&
    CoverOk(fl, v, queue, cleared)
  }

  ghost predicate Sizes(fl: Flood, d: seq<byte>, v: seq<bool>)
  {
    fl.width >= 1 && fl.height >= 1 &&
    |d| == |fl.pixels| == 4 * (fl.width * fl.height) && |v| == fl.width * fl.height
  }

  /** The queue holds pixels of the image, each with its origin. */
  ghost predicate QueueOk(fl: Flood, queue: seq<(int, int)>, from: seq<Option<(int, int)>>, cleared: set<(int, int)>)
  {
    (forall j | 0 <= j < |queue| :: fl.InImage(queue[j])) &&
    |from| == |queue| &&
    (forall j | 0 <= j < |queue| :: Origin(fl, from[j], queue[j], cleared))
  }

  /** The colours are the original ones; the cleared pixels are visited
      background pixels with alpha 0, each reached from a corner; the other
      pixels keep their alpha; a visited background pixel is cleared. */
  ghost predicate PixelsOk(fl: Flood, d: seq<byte>, v: seq<bool>, cleared: set<(int, int)>, dist: map<(int, int), nat>)
    requires Sizes(fl, d, v)
  {
    ColoursKept(fl, d) && ClearedOk(fl, d, v, cleared, dist) && OthersKept(fl, d, cleared) &&
    VisitedBgCleared(fl, v, cleared)
  }

  ghost predicate ColoursKept(fl: Flood, d: seq<byte>)
    requires |d| == |fl.pixels|
  {
    forall k | 0 <= k < |d| && k % 4 != 3 :: d[k] == fl.pixels[k]
  }

  ghost predicate ClearedOk(fl: Flood, d: seq<byte>, v: seq<bool>, cleared: set<(int, int)>, dist: map<(int, int), nat>)
    requires Sizes(fl, d, v)
  {
    forall q | q in cleared ::
      fl.InImage(q) && fl.Bg(q) && Visited(v, fl.width, fl.height, q) && Alpha(d, fl.width, fl.height, q) == 0 &&
      q in dist && fl.ReachIn(q, dist[q])
  }

  ghost predicate OthersKept(fl: Flood, d: seq<byte>, cleared: set<(int, int)>)
    requires |d| == |fl.pixels| == 4 * (fl.width * fl.height)
  {
    forall x, y | 0 <= x < fl.width && 0 <= y < fl.height && (x, y) !in cleared ::
      Alpha(d, fl.width, fl.height, (x, y)) == Alpha(fl.pixels, fl.width, fl.height, (x, y))
  }

  ghost predicate VisitedBgCleared(fl: Flood, v: seq<bool>, cleared: set<(int, int)>)
    requires |v| == fl.width * fl.height
  {
    forall x, y | 0 <= x < fl.width && 0 <= y < fl.height && Visited(v, fl.width, fl.height, (x, y)) && fl.Bg((x, y)) ::
      (x, y) in cleared
  }

  /** The corners and the neighbours of every cleared pixel are visited or
      queued. */
  ghost predicate CoverOk(fl: Flood, v: seq<bool>, queue: seq<(int, int)>, cleared: set<(int, int)>)
    requires |v| == fl.width * fl.height
  {
    (forall c | fl.IsCorner(c) :: Covered(fl, v, queue, c)) &&
    (forall q | q in cleared :: CoveredAround(fl, v, queue, q))
  }

  /** Every neighbour of `q` inside the image is covered. */
  ghost predicate CoveredAround(fl: Flood, v: seq<bool>, queue: seq<(int, int)>, q: (int, int))
    requires |v| == fl.width * fl.height
  {
    (q.0 > 0 ==> Covered(fl, v, queue, (q.0 - 1, q.1))) &&
    (q.0 < fl.width - 1 ==> Covered(fl, v, queue, (q.0 + 1, q.1))) &&
    (q.1 > 0 ==> Covered(fl, v, queue, (q.0, q.1 - 1))) &&
    (q.1 < fl.height - 1 ==> Covered(fl, v, queue, (q.0, q.1 + 1)))
  }

  /** The four corners the fill starts from. */
  function Corners(width: nat, height: nat): seq<(int, int)>
  {
    [(0, 0), (width - 1, 0), (0, height - 1), (width - 1, height - 1)]
  }

  lemma InitInv(fl: Flood)
    requires fl.width >= 1 && fl.height >= 1 && |fl.pixels| == 4 * (fl.width * fl.height)
    ensures FillInv(fl, fl.pixels, seq(fl.width * fl.height, _ => false), Corners(fl.width, fl.height),
                    [None, None, None, None], {}, map[])
  {
    var v: seq<bool> := seq(fl.width * fl.height, _ => false);
    var queue := Corners(fl.width, fl.height);
    forall c | fl.IsCorner(c)
      ensures Covered(fl, v, queue, c)
    {
      assert c in queue;
    }
    forall x, y | 0 <= x < fl.width && 0 <= y < fl.height
      ensures !Visited(v, fl.width, fl.height, (x, y))
    {
      IdxBounds(fl.width, fl.height, x, y);
    }
  }

  /** Dropping an already visited pixel from the head of the queue. */
  lemma SkipVisited(fl: Flood, d: seq<byte>, v: seq<bool>, queue: seq<(int, int)>,
                    from: seq<Option<(int, int)>>, cleared: set<(int, int)>, dist: map<(int, int), nat>)
    requires FillInv(fl, d, v, queue, from, cleared, dist) && queue != []
    requires Visited(v, fl.width, fl.height, queue[0])
    ensures FillInv(fl, d, v, queue[1..], from[1..], cleared, dist)
  {
    var q0, rest := queue[0], queue[1..];
    assert forall c | c in queue :: c == q0 || c in rest;
    forall j | 0 <= j < |rest|
      ensures fl.InImage(rest[j]) && Origin(fl, from[1..][j], rest[j], cleared)
    {
      assert rest[j] == queue[j + 1];
    }
    forall c | fl.IsCorner(c)
      ensures Covered(fl, v, rest, c)
    {
      assert Covered(fl, v, queue, c);
    }
    forall q | q in cleared
      ensures CoveredAround(fl, v, rest, q)
    {
      assert CoveredAround(fl, v, queue, q);
    }
  }

  /** Visiting a pixel that is not background: it is marked visited and
      nothing else changes. */
  lemma VisitOther(fl: Flood, d: seq<byte>, v: seq<bool>, queue: seq<(int, int)>,
                   from: seq<Option<(int, int)>>, cleared: set<(int, int)>, dist: map<(int, int), nat>)
    requires FillInv(fl, d, v, queue, from, cleared, dist) && queue != []
    requires !Visited(v, fl.width, fl.height, queue[0]) && !fl.Bg(queue[0])
    ensures 0 <= Idx(fl.width, queue[0].0, queue[0].1) < |v|
    ensures FillInv(fl, d, v[Idx(fl.width, queue[0].0, queue[0].1) := true], queue[1..], from[1..], cleared, dist)
  {
    var q0, rest := queue[0], queue[1..];
    IdxBounds(fl.width, fl.height, q0.0, q0.1);
    IdxOthers(fl.width, fl.height, q0);
    var v' := v[Idx(fl.width, q0.0, q0.1) := true];
    assert Visited(v', fl.width, fl.height, q0);
    forall x, y | 0 <= x < fl.width && 0 <= y < fl.height && (x, y) != q0
      ensures Visited(v', fl.width, fl.height, (x, y)) == Visited(v, fl.width, fl.height, (x, y))
    {
      IdxBounds(fl.width, fl.height, x, y);
      assert Idx(fl.width, x, y) != Idx(fl.width, q0.0, q0.1);
    }
    assert forall c | c in queue :: c == q0 || c in rest;
    forall j | 0 <= j < |rest|
      ensures fl.InImage(rest[j]) && Origin(fl, from[1..][j], rest[j], cleared)
    {
      assert rest[j] == queue[j + 1];
    }
    forall c | fl.IsCorner(c)
      ensures Covered(fl, v', rest, c)
    {
      CoverKept(fl, v, queue, c);
    }
    forall q | q in cleared
      ensures CoveredAround(fl, v', rest, q)
    {
      AroundKept(fl, v, queue, q);
    }
  }

  lemma AroundKept(fl: Flood, v: seq<bool>, queue: seq<(int, int)>, q: (int, int))
    requires |v| == fl.width * fl.height && queue != [] && fl.InImage(queue[0])
    requires CoveredAround(fl, v, queue, q)
    ensures 0 <= Idx(fl.width, queue[0].0, queue[0].1) < |v|
    ensures CoveredAround(fl, v[Idx(fl.width, queue[0].0, queue[0].1) := true], queue[1..], q)
  {
    CoverKept(fl, v, queue, (q.0 - 1, q.1));
    CoverKept(fl, v, queue, (q.0 + 1, q.1));
    CoverKept(fl, v, queue, (q.0, q.1 - 1));
    CoverKept(fl, v, queue, (q.0, q.1 + 1));
  }

  /** Taking the head of the queue and marking it visited keeps every
      pixel covered that was. */
  lemma CoverKept(fl: Flood, v: seq<bool>, queue: seq<(int, int)>, m: (int, int))
    requires |v| == fl.width * fl.height && queue != [] && fl.InImage(queue[0])
    ensures 0 <= Idx(fl.width, queue[0].0, queue[0].1) < |v|
    ensures Covered(fl, v, queue, m) ==>
              Covered(fl, v[Idx(fl.width, queue[0].0, queue[0].1) := true], queue[1..], m)
  {
    var q0 := queue[0];
    IdxBounds(fl.width, fl.height, q0.0, q0.1);
    var v' := v[Idx(fl.width, q0.0, q0.1) := true];
    assert queue == [q0] + queue[1..];
    if Covered(fl, v, queue, m) && m !in queue[1..] {
      assert fl.InImage(m);
      if m == q0 {
        assert Visited(v', fl.width, fl.height, m);
      } else {
        IdxBounds(fl.width, fl.height, m.0, m.1);
        if Idx(fl.width, m.0, m.1) == Idx(fl.width, q0.0, q0.1) {
          IdxInjective(fl.width, m.0, m.1, q0.0, q0.1);
        }
        assert Visited(v', fl.width, fl.height, m) == Visited(v, fl.width, fl.height, m);
      }
    }
  }

  /** The path length `dist` records for a pixel about to be cleared:
      zero for a corner, one more than its origin's otherwise. */
  ghost function NextDist(o: Option<(int, int)>, dist: map<(int, int), nat>): nat
  {
    match o
    case None => 0
    case Some(p) => if p in dist then dist[p] + 1 else 0
  }

  /** Visiting a background pixel: it is cleared, marked visited and its
      neighbours in the image are queued. */
  lemma VisitBg(fl: Flood, d: seq<byte>, v: seq<bool>, queue: seq<(int, int)>,
                from: seq<Option<(int, int)>>, cleared: set<(int, int)>, dist: map<(int, int), nat>)
    requires FillInv(fl, d, v, queue, from, cleared, dist) && queue != []
    requires !Visited(v, fl.width, fl.height, queue[0]) && fl.Bg(queue[0])
    ensures 0 <= Idx(fl.width, queue[0].0, queue[0].1) < |v|
    ensures var q0, i := queue[0], Idx(fl.width, queue[0].0, queue[0].1);
            var ns := Neighbours(fl.width, fl.height, q0);
            FillInv(fl, d[4 * i + 3 := 0], v[i := true], queue[1..] + ns,
                    from[1..] + seq(|ns|, _ => Some(q0)), cleared + {q0}, dist[q0 := NextDist(from[0], dist)])
  {
    var q0 := queue[0];
    IdxBounds(fl.width, fl.height, q0.0, q0.1);
    BgQueue(fl, queue, from, cleared);
    BgPixels(fl, d, v, queue, from, cleared, dist);
    BgCover(fl, v, queue, cleared);
  }

  lemma BgQueue(fl: Flood, queue: seq<(int, int)>, from: seq<Option<(int, int)>>, cleared: set<(int, int)>)
    requires QueueOk(fl, queue, from, cleared) && queue != []
    ensures var ns := Neighbours(fl.width, fl.height, queue[0]);
            QueueOk(fl, queue[1..] + ns, from[1..] + seq(|ns|, _ => Some(queue[0])), cleared + {queue[0]})
  {
    var q0, rest := queue[0], queue[1..];
    var ns := Neighbours(fl.width, fl.height, q0);
    var queue', from' := rest + ns, from[1..] + seq(|ns|, _ => Some(q0));
    forall j | 0 <= j < |queue'|
      ensures fl.InImage(queue'[j]) && Origin(fl, from'[j], queue'[j], cleared + {q0})
    {
      if j < |rest| {
        assert queue'[j] == queue[j + 1] && from'[j] == from[j + 1];
        assert Origin(fl, from[j + 1], queue[j + 1], cleared);
      } else {
        assert queue'[j] == ns[j - |rest|] && from'[j] == Some(q0);
      }
    }
  }

  lemma BgPixels(fl: Flood, d: seq<byte>, v: seq<bool>, queue: seq<(int, int)>,
                 from: seq<Option<(int, int)>>, cleared: set<(int, int)>, dist: map<(int, int), nat>)
    requires Sizes(fl, d, v) && QueueOk(fl, queue, from, cleared) && PixelsOk(fl, d, v, cleared, dist)
    requires queue != [] && !Visited(v, fl.width, fl.height, queue[0]) && fl.Bg(queue[0])
    ensures 0 <= Idx(fl.width, queue[0].0, queue[0].1) < |v|
    ensures var q0, i := queue[0], Idx(fl.width, queue[0].0, queue[0].1);
            Sizes(fl, d[4 * i + 3 := 0], v[i := true]) &&
            PixelsOk(fl, d[4 * i + 3 := 0], v[i := true], cleared + {q0}, dist[q0 := NextDist(from[0], dist)])
  {
    var q0 := queue[0];
    var w, h := fl.width, fl.height;
    IdxBounds(w, h, q0.0, q0.1);
    var i := Idx(w, q0.0, q0.1);
    var nd := NextDist(from[0], dist);
    assert q0 !in cleared;
    assert Origin(fl, from[0], q0, cleared);
    if from[0].Some? {
      var p := from[0].value;
      assert p in cleared;
      assert p in dist && fl.ReachIn(p, dist[p]);
    }
    OriginReach(fl, from[0], q0, dist);
    BgColours(fl, d, i);
    BgCleared(fl, d, v, cleared, dist, q0, i, nd);
    BgOthers(fl, d, cleared, q0, i);
    BgVisited(fl, v, cleared, q0, i);
    var d', v' := d[4 * i + 3 := 0], v[i := true];
    assert Sizes(fl, d', v');
    assert PixelsOk(fl, d', v', cleared + {q0}, dist[q0 := nd]);
  }

  /** A pixel about to be cleared is reached in `NextDist` steps. */
  lemma OriginReach(fl: Flood, o: Option<(int, int)>, q: (int, int), dist: map<(int, int), nat>)
    requires fl.InImage(q) && fl.Bg(q)
    requires o.None? ==> fl.IsCorner(q)
    requires o.Some? ==> q in Around(o.value) && o.value in dist && fl.ReachIn(o.value, dist[o.value])
    ensures fl.ReachIn(q, NextDist(o, dist))
  {
    if o.Some? {
      ReachNext(fl, o.value, dist[o.value], q);
    }
  }

  lemma BgColours(fl: Flood, d: seq<byte>, i: int)
    requires |d| == |fl.pixels| && ColoursKept(fl, d) && 0 <= 4 * i + 3 < |d|
    ensures ColoursKept(fl, d[4 * i + 3 := 0])
  {
    forall k | 0 <= k < |d| && k % 4 != 3
      ensures d[4 * i + 3 := 0][k] == fl.pixels[k]
    {
      AlphaSlot(i, k);
    }
  }

  lemma BgCleared(fl: Flood, d: seq<byte>, v: seq<bool>, cleared: set<(int, int)>, dist: map<(int, int), nat>,
                  q0: (int, int), i: int, nd: nat)
    requires Sizes(fl, d, v) && ClearedOk(fl, d, v, cleared, dist)
    requires fl.InImage(q0) && fl.Bg(q0) && fl.ReachIn(q0, nd) && q0 !in cleared
    requires i == Idx(fl.width, q0.0, q0.1) && 0 <= i < |v|
    ensures Sizes(fl, d[4 * i + 3 := 0], v[i := true])
    ensures ClearedOk(fl, d[4 * i + 3 := 0], v[i := true], cleared + {q0}, dist[q0 := nd])
  {
    forall q | q in cleared + {q0}
      ensures Visited(v[i := true], fl.width, fl.height, q) && Alpha(d[4 * i + 3 := 0], fl.width, fl.height, q) == 0
    {
      ClearAt(d, v, fl.width, fl.height, q0, q);
    }
  }

  lemma BgOthers(fl: Flood, d: seq<byte>, cleared: set<(int, int)>, q0: (int, int), i: int)
    requires |d| == |fl.pixels| == 4 * (fl.width * fl.height) && OthersKept(fl, d, cleared)
    requires fl.InImage(q0) && i == Idx(fl.width, q0.0, q0.1) && 0 <= 4 * i + 3 < |d|
    ensures OthersKept(fl, d[4 * i + 3 := 0], cleared + {q0})
  {
    IdxOthers(fl.width, fl.height, q0);
    forall x, y | 0 <= x < fl.width && 0 <= y < fl.height && (x, y) !in cleared + {q0}
      ensures Alpha(d[4 * i + 3 := 0], fl.width, fl.height, (x, y)) == Alpha(fl.pixels, fl.width, fl.height, (x, y))
    {
      IdxBounds(fl.width, fl.height, x, y);
      assert Idx(fl.width, x, y) != i;
    }
  }

  lemma BgVisited(fl: Flood, v: seq<bool>, cleared: set<(int, int)>, q0: (int, int), i: int)
    requires |v| == fl.width * fl.height && VisitedBgCleared(fl, v, cleared)
    requires fl.InImage(q0) && i == Idx(fl.width, q0.0, q0.1) && 0 <= i < |v|
    ensures VisitedBgCleared(fl, v[i := true], cleared + {q0})
  {
    IdxOthers(fl.width, fl.height, q0);
    forall x, y | 0 <= x < fl.width && 0 <= y < fl.height && Visited(v[i := true], fl.width, fl.height, (x, y)) && fl.Bg((x, y))
      ensures (x, y) in cleared + {q0}
    {
      IdxBounds(fl.width, fl.height, x, y);
      if (x, y) != q0 {
        assert Idx(fl.width, x, y) != i;
        assert Visited(v, fl.width, fl.height, (x, y));
      }
    }
  }

  /** A byte that is not an alpha byte is not the alpha byte of pixel `i`. */
  lemma AlphaSlot(i: int, k: int)
    requires k % 4 != 3
    ensures k != 4 * i + 3
  {
  }

  /** One step from a pixel reached in `n` steps. */
  lemma ReachNext(fl: Flood, p: (int, int), n: nat, q: (int, int))
    requires fl.ReachIn(p, n) && fl.InImage(q) && fl.Bg(q)
    requires q in Around(p)
    ensures fl.ReachIn(q, n + 1)
  {
    assert p in Around(q);
  }

  /** Clearing and marking `q0` leaves every pixel marked that was, and
      every alpha 0 that was. */
  lemma ClearAt(d: seq<byte>, v: seq<bool>, width: nat, height: nat, q0: (int, int), q: (int, int))
    requires |d| == 4 * (width * height) && |v| == width * height
    requires 0 <= q0.0 < width && 0 <= q0.1 < height && 0 <= q.0 < width && 0 <= q.1 < height
    ensures 0 <= Idx(width, q0.0, q0.1) < |v|
    ensures var i := Idx(width, q0.0, q0.1);
            (Visited(v, width, height, q) || q == q0 ==> Visited(v[i := true], width, height, q)) &&
            (Alpha(d, width, height, q) == 0 || q == q0 ==> Alpha(d[4 * i + 3 := 0], width, height, q) == 0)
  {
    IdxBounds(width, height, q0.0, q0.1);
    IdxBounds(width, height, q.0, q.1);
  }

  /** A pixel covered by a queue is covered once more pixels join it. */
  lemma CoverGrows(fl: Flood, v: seq<bool>, queue: seq<(int, int)>, more: seq<(int, int)>, m: (int, int))
    requires |v| == fl.width * fl.height
    ensures Covered(fl, v, queue, m) ==> Covered(fl, v, queue + more, m)
  {
    if m in queue {
      var j :| 0 <= j < |queue| && queue[j] == m;
      assert (queue + more)[j] == m;
    }
  }

  lemma BgCover(fl: Flood, v: seq<bool>, queue: seq<(int, int)>, cleared: set<(int, int)>)
    requires |v| == fl.width * fl.height && CoverOk(fl, v, queue, cleared)
    requires queue != [] && fl.InImage(queue[0])
    ensures 0 <= Idx(fl.width, queue[0].0, queue[0].1) < |v|
    ensures var ns := Neighbours(fl.width, fl.height, queue[0]);
            CoverOk(fl, v[Idx(fl.width, queue[0].0, queue[0].1) := true], queue[1..] + ns, cleared + {queue[0]})
  {
    var q0, rest := queue[0], queue[1..];
    IdxBounds(fl.width, fl.height, q0.0, q0.1);
    var v' := v[Idx(fl.width, q0.0, q0.1) := true];
    var ns := Neighbours(fl.width, fl.height, q0);
    forall c | fl.IsCorner(c)
      ensures Covered(fl, v', rest + ns, c)
    {
      CoverKept(fl, v, queue, c);
      CoverGrows(fl, v', rest, ns, c);
    }
    forall q | q in cleared + {q0}
      ensures CoveredAround(fl, v', rest + ns, q)
    {
      if q == q0 {
        NeighboursCovered(fl, v', rest, q0);
      } else {
        AroundKept(fl, v, queue, q);
        AroundGrows(fl, v', rest, ns, q);
      }
    }
  }

  lemma AroundGrows(fl: Flood, v: seq<bool>, queue: seq<(int, int)>, more: seq<(int, int)>, q: (int, int))
    requires |v| == fl.width * fl.height && CoveredAround(fl, v, queue, q)
    ensures CoveredAround(fl, v, queue + more, q)
  {
    CoverGrows(fl, v, queue, more, (q.0 - 1, q.1));
    CoverGrows(fl, v, queue, more, (q.0 + 1, q.1));
    CoverGrows(fl, v, queue, more, (q.0, q.1 - 1));
    CoverGrows(fl, v, queue, more, (q.0, q.1 + 1));
  }

  /** The neighbours just queued are covered. */
  lemma NeighboursCovered(fl: Flood, v: seq<bool>, rest: seq<(int, int)>, q: (int, int))
    requires |v| == fl.width * fl.height
    ensures CoveredAround(fl, v, rest + Neighbours(fl.width, fl.height, q), q)
  {
    var ns := Neighbours(fl.width, fl.height, q);
    forall m | m in ns
      ensures m in rest + ns
    {
      var j :| 0 <= j < |ns| && ns[j] == m;
      assert (rest + ns)[|rest| + j] == m;
    }
  }

  /** With the queue empty the invariant gives what the fill promises. */
  lemma FillDone(fl: Flood, d: seq<byte>, v: seq<bool>, cleared: set<(int, int)>, dist: map<(int, int), nat>)
    requires FillInv(fl, d, v, [], [], cleared, dist)
    ensures Filled(fl, d, cleared)
  {
    forall q | q in cleared
      ensures exists n: nat :: fl.ReachIn(q, n)
    {
      assert fl.ReachIn(q, dist[q]);
    }
    var mask, starts := fl.BgMask(), fl.CornerSet();
    forall c | c in starts && c in mask
      ensures c in cleared
    {
      assert fl.IsCorner(c) && Covered(fl, v, [], c);
    }
    forall p, m | p in cleared && m in Around(p) && m in mask
      ensures m in cleared
    {
      StepCleared(fl, v, cleared, p, m);
    }
    forall q, n: nat | fl.ReachIn(q, n)
      ensures q in cleared
    {
      ReachWithin(mask, starts, cleared, q, n);
    }
  }

  /** Once nothing is queued, a background neighbour of a cleared pixel is
      cleared. */
  lemma StepCleared(fl: Flood, v: seq<bool>, cleared: set<(int, int)>, p: (int, int), m: (int, int))
    requires |v| == fl.width * fl.height && fl.InImage(p)
    requires CoveredAround(fl, v, [], p) && VisitedBgCleared(fl, v, cleared)
    requires m in Around(p) && m in fl.BgMask()
    ensures m in cleared
  {
    assert fl.InImage(m) && fl.Bg(m);
    assert Covered(fl, v, [], m);
    assert Visited(v, fl.width, fl.height, (m.0, m.1));
  }

  /** The colour bytes of pixel `p` are not alpha bytes. */
  lemma ColourSlots(p: int)
    ensures (4 * p) % 4 == 0 && (4 * p + 1) % 4 == 1 && (4 * p + 2) % 4 == 2
  {
  }

  /** The flood fill from the four corners over `data`, an RGBA image of
      `width` by `height` pixels, with the palette `bgColors`. `cleared`
      names the pixels whose alpha it set to 0. */
  method FloodFill(data: array<byte>, width: nat, height: nat, bgColors: seq<Option<Rgb>>)
    returns (ghost cleared: set<(int, int)>)
    requires width >= 1 && height >= 1 && data.Length == 4 * (width * height)
    modifies data
    ensures Filled(Flood(old(data[..]), width, height, bgColors), data[..], cleared)
  {
    ghost var fl := Flood(data[..], width, height, bgColors);
    var queue := [(0, 0), (width - 1, 0), (0, height - 1), (width - 1, height - 1)];
    var visited := new bool[width * height](_ => false);
    ghost var from: seq<Option<(int, int)>> := [None, None, None, None];
    ghost var dist: map<(int, int), nat> := map[];
    cleared := {};
    InitInv(fl);
    assert visited[..] == seq(width * height, _ => false);
    while queue != []
      invariant FillInv(fl, data[..], visited[..], queue, from, cleared, dist)
      decreases Unvisited(visited[..]), |queue|
    {
      ghost var d0, v0, queue0, from0 := data[..], visited[..], queue, from;
      var x, y := queue[0].0, queue[0].1;
      queue := queue[1..];
      from := from[1..];
      IdxBounds(width, height, x, y);
      var visitIdx := y * width + x;
      if visited[visitIdx] {
        SkipVisited(fl, d0, v0, queue0, from0, cleared, dist);
        continue;
      }
      queue, from, cleared, dist :=
        VisitPixel(data, visited, width, height, bgColors, x, y, visitIdx, queue, fl, queue0, from0, cleared, dist);
    }
    FillDone(fl, data[..], visited[..], cleared, dist);
  }

  /** One visit of the fill: the pixel `(x, y)` at the head of `queue0` is
      marked visited and, when it is background, cleared, and its
      neighbours in the image are queued. */
  method VisitPixel(data: array<byte>, visited: array<bool>, width: nat, height: nat, bgColors: seq<Option<Rgb>>,
                    x: int, y: int, visitIdx: int, rest: seq<(int, int)>,
                    ghost fl: Flood, ghost queue0: seq<(int, int)>, ghost from0: seq<Option<(int, int)>>,
                    ghost cleared0: set<(int, int)>, ghost dist0: map<(int, int), nat>)
    returns (queue: seq<(int, int)>, ghost from: seq<Option<(int, int)>>,
             ghost cleared: set<(int, int)>, ghost dist: map<(int, int), nat>)
    requires FillInv(fl, data[..], visited[..], queue0, from0, cleared0, dist0) && queue0 != [] && queue0[0] == (x, y)
    requires fl.width == width && fl.height == height && fl.bgColors == bgColors && rest == queue0[1..]
    requires 0 <= x < width && 0 <= y < height && visitIdx == Idx(width, x, y)
    requires 0 <= visitIdx < visited.Length && !visited[visitIdx]
    modifies data, visited
    ensures FillInv(fl, data[..], visited[..], queue, from, cleared, dist)
    ensures Unvisited(visited[..]) < Unvisited(old(visited[..]))
  {
    ghost var d0, v0 := data[..], visited[..];
    visited[visitIdx] := true;
    assert visited[..] == v0[visitIdx := true];
    UnvisitedMark(v0, visitIdx);
    var idx := 4 * visitIdx;
    ColourSlots(visitIdx);
    var c := Rgb(data[idx] as int, data[idx + 1] as int, data[idx + 2] as int);
    assert fl.ColourAt((x, y)) == Some(c);
    queue := rest;
    from, cleared, dist := from0[1..], cleared0, dist0;
    if CloseToAny(Some(c), bgColors) {
      VisitBg(fl, d0, v0, queue0, from0, cleared0, dist0);
      data[idx + 3] := 0;
      assert data[..] == d0[idx + 3 := 0];
      cleared, dist := cleared + {(x, y)}, dist[(x, y) := NextDist(from0[0], dist)];
      var around := Neighbours(width, height, (x, y));
      queue := queue + around;
      from := from + seq(|around|, _ => Some((x, y)));
    } else {
      VisitOther(fl, d0, v0, queue0, from0, cleared0, dist0);
    }
  }

  /** The four samples the palette is taken from: the pixels numbered 0,
      1, `width` and `width + 1`, as `getPixel` addresses them; a sample
      past the end of the data is `undefined`. */
  function CornerSamples(pixels: seq<byte>, width: nat, height: nat): seq<Option<Rgb>>
  {
    var fl := Flood(pixels, width, height, []);
    [fl.ColourAt((0, 0)), fl.ColourAt((1, 0)), fl.ColourAt((0, 1)), fl.ColourAt((1, 1))]
  }

  /** `makeTransparent` on the image data: the palette from the corner
      samples, then the flood fill. */
  method MakeTransparent(data: array<byte>, width: nat, height: nat)
    returns (bgColors: seq<Option<Rgb>>, ghost cleared: set<(int, int)>)
    requires width >= 1 && height >= 1 && data.Length == 4 * (width * height)
    modifies data
    ensures bgColors == Greedy(CornerSamples(old(data[..]), width, height))
    ensures PaletteOf(CornerSamples(old(data[..]), width, height), bgColors)
    ensures Filled(Flood(old(data[..]), width, height, bgColors), data[..], cleared)
  {
    var corners := CornerSamples(data[..], width, height);
    bgColors := BackgroundColors(corners);
    cleared := FloodFill(data, width, height, bgColors);
  }
}
