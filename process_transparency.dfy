/** The hang-glider's background removal script: a pass that clears the
    gray pixels of a checkerboard by their gray neighbours, and a flood
    fill from each corner of the image that clears the region of gray
    pixels close to the corner's own colour. */
module ProcessTransparency {
  import opened RgbaImage
  import opened GridPaths

  // ----- make_transparent: gray pixels among gray neighbours -----

  /** Gray within 10 on every pair of channels. */
  predicate Gray(p: Rgba)
  {
    Abs(p.r - p.g) < 10 && Abs(p.g - p.b) < 10 && Abs(p.r - p.b) < 10
  }

  /** The looser test the pass applies to a neighbour: red against green
      and green against blue only. */
  predicate GrayNeighbour(p: Rgba)
  {
    Abs(p.r - p.g) < 10 && Abs(p.g - p.b) < 10
  }

  /** The neighbour offsets, in the order the pass tries them. */
  const Offsets: seq<(int, int)> := [(-1, 0), (1, 0), (0, -1), (0, 1)]

  predicate InImage(width: nat, height: nat, q: (int, int))
  {
    0 <= q.0 < width && 0 <= q.1 < height
  }

  /** Whether the `k`-th neighbour of `(x, y)` is inside the image and
      looks gray. */
  ghost predicate GrayAt(g: seq<seq<Rgba>>, width: nat, height: nat, x: int, y: int, k: int)
    requires 0 <= k < 4
  {
    var q := (x + Offsets[k].0, y + Offsets[k].1);
    InImage(width, height, q) && GrayNeighbour(At(g, q))
  }

  /** The gray neighbours of `(x, y)` among the first `k` offsets. */
  ghost function GrayAmong(g: seq<seq<Rgba>>, width: nat, height: nat, x: int, y: int, k: nat): nat
    requires k <= 4
  {
    if k == 0 then 0 else GrayAmong(g, width, height, x, y, k - 1) + (if GrayAt(g, width, height, x, y, k - 1) then 1 else 0)
  }

  /** The pixels inside the image among the first `k` neighbours. */
  function InsideAmong(width: nat, height: nat, x: int, y: int, k: nat): nat
    requires k <= 4
  {
    if k == 0 then 0
    else InsideAmong(width, height, x, y, k - 1) +
         (if InImage(width, height, (x + Offsets[k - 1].0, y + Offsets[k - 1].1)) then 1 else 0)
  }

  /** The pass's rule: an opaque gray pixel with at least three gray
      neighbours inside the image, in the colours the image had. */
  ghost predicate Chequered(g: seq<seq<Rgba>>, width: nat, height: nat, x: int, y: int)
  {
    var p := At(g, (x, y));
    Gray(p) && p.a == 255 && GrayAmong(g, width, height, x, y, 4) >= 3
  }

  /** At most as many gray neighbours as neighbours inside the image. */
  lemma {:induction false} GrayAmongInside(g: seq<seq<Rgba>>, width: nat, height: nat, x: int, y: int, k: nat)
    requires k <= 4
    ensures GrayAmong(g, width, height, x, y, k) <= InsideAmong(width, height, x, y, k)
  {
    if k > 0 {
      GrayAmongInside(g, width, height, x, y, k - 1);
    }
  }

  /** The four corner pixels have only two neighbours inside the image,
      so the pass never clears them. */
  lemma CornersKept(g: seq<seq<Rgba>>, width: nat, height: nat, x: int, y: int)
    requires width >= 2 && height >= 2
    requires (x == 0 || x == width - 1) && (y == 0 || y == height - 1)
    ensures !Chequered(g, width, height, x, y)
  {
    GrayAmongInside(g, width, height, x, y, 4);
    assert InsideAmong(width, height, x, y, 1) == if x == 0 then 0 else 1;
    assert InsideAmong(width, height, x, y, 2) == 1;
    assert InsideAmong(width, height, x, y, 3) == if y == 0 then 1 else 2;
  }

  /** The inner loop over the four offsets. Only the neighbours' colours
      are read, which the pass never changes, so the count is the one of
      the image as it was. */
  method CountGrayNeighbours(img: array2<Rgba>, x: int, y: int, ghost g: seq<seq<Rgba>>) returns (n: nat)
    requires Sized(g, img.Length0, img.Length1)
    requires forall i, j | 0 <= i < img.Length0 && 0 <= j < img.Length1 :: SameColour(img[i, j], g[i][j])
    ensures n == GrayAmong(g, img.Length0, img.Length1, x, y, 4)
  {
    n := 0;
    for k := 0 to 4
      invariant n == GrayAmong(g, img.Length0, img.Length1, x, y, k)
    {
      var nx, ny := x + Offsets[k].0, y + Offsets[k].1;
      if 0 <= nx < img.Length0 && 0 <= ny < img.Length1 {
        var q := img[nx, ny];
        if Abs(q.r - q.g) < 10 && Abs(q.g - q.b) < 10 {
          n := n + 1;
        }
      }
    }
  }

  /** `make_transparent` on the loaded pixels: every pixel the rule
      picks in the image as it was loses its alpha, and every other pixel
      is left as it was, although the pass writes as it goes. */
  method MakeTransparent(img: array2<Rgba>)
    modifies img
    ensures forall x, y | 0 <= x < img.Length0 && 0 <= y < img.Length1 ::
              img[x, y] == KeyOut(old(img[x, y]), Chequered(old(Grid(img)), img.Length0, img.Length1, x, y))
  {
    ghost var g: seq<seq<Rgba>> := Grid(img);
    var width, height := img.Length0, img.Length1;
    for y := 0 to height
      invariant forall i, j | 0 <= i < width && 0 <= j < height ::
                  img[i, j] == if j < y then KeyOut(g[i][j], Chequered(g, width, height, i, j)) else g[i][j]
    {
      for x := 0 to width
        invariant forall i, j | 0 <= i < width && 0 <= j < height ::
                    img[i, j] == if j < y || (j == y && i < x) then KeyOut(g[i][j], Chequered(g, width, height, i, j))
                                 else g[i][j]
      {
        var p := img[x, y];
        if Abs(p.r - p.g) < 10 && Abs(p.g - p.b) < 10 && Abs(p.r - p.b) < 10 && p.a == 255 {
          var neighbours := CountGrayNeighbours(img, x, y, g);
          if neighbours >= 3 {
            img[x, y] := Rgba(p.r, p.g, p.b, 0);
          }
        }
      }
    }
  }

  // ----- flood_fill_transparency: regions grown from the corners -----

  /** The fill's rule: gray within 30 on red against green and green
      against blue, and less than 150 from the start colour summed over
      the three channels. Alpha plays no part. */
  predicate Fillable(c: Rgba, start: Rgba)
  {
    Abs(c.r - c.g) < 30 && Abs(c.g - c.b) < 30 &&
    Abs(c.r - start.r) + Abs(c.g - start.g) + Abs(c.b - start.b) < 150
  }

  /** The pixels of the image the fill from a start of colour `start`
      may clear. */
  ghost function Mask(g: seq<seq<Rgba>>, width: nat, height: nat, start: Rgba): set<(int, int)>
  {
    set x, y | 0 <= x < width && 0 <= y < height && Fillable(At(g, (x, y)), start) :: (x, y)
  }

  /** `q` lies in the region the fill from `s` grows: joined to `s` along
      rows and columns by pixels the rule accepts. */
  ghost predicate InRegion(g: seq<seq<Rgba>>, width: nat, height: nat, s: (int, int), q: (int, int))
  {
    Reached(Mask(g, width, height, At(g, s)), {s}, q)
  }

  /** The corners, in the order the fills start from them. */
  function Corners(width: nat, height: nat): seq<(int, int)>
  {
    [(0, 0), (width - 1, 0), (0, height - 1), (width - 1, height - 1)]
  }

  /** The alpha of `q` after the fills from the first `k` corners. A fill
      runs only when its corner is opaque at its turn, so a corner that an
      earlier fill cleared starts none. */
  ghost function AlphaAfter(g: seq<seq<Rgba>>, width: nat, height: nat, k: nat, q: (int, int)): int
    requires k <= 4
  {
    if k == 0 then At(g, q).a
    else
      var c := Corners(width, height)[k - 1];
      if AlphaAfter(g, width, height, k - 1, c) != 0 && InRegion(g, width, height, c, q) then 0
      else AlphaAfter(g, width, height, k - 1, q)
  }

  /** A pixel a region holds is one its rule accepts. */
  lemma RegionFillable(g: seq<seq<Rgba>>, width: nat, height: nat, s: (int, int), q: (int, int))
    requires InRegion(g, width, height, s, q)
    ensures InImage(width, height, q) && Fillable(At(g, q), At(g, s))
  {
    var n: nat :| Reach(Mask(g, width, height, At(g, s)), {s}, q, n);
  }

  /** The fills only clear: each alpha is the loaded one or 0, and one
      that changed belongs to a pixel some earlier opaque corner's rule
      accepts. */
  lemma {:induction false} ClearedOnlyIfFillable(g: seq<seq<Rgba>>, width: nat, height: nat, k: nat, q: (int, int))
    requires k <= 4
    ensures AlphaAfter(g, width, height, k, q) == At(g, q).a || AlphaAfter(g, width, height, k, q) == 0
    ensures AlphaAfter(g, width, height, k, q) != At(g, q).a ==>
              InImage(width, height, q) &&
              exists j | 0 <= j < k :: Fillable(At(g, q), At(g, Corners(width, height)[j]))
  {
    if k > 0 {
      ClearedOnlyIfFillable(g, width, height, k - 1, q);
      var c := Corners(width, height)[k - 1];
      if AlphaAfter(g, width, height, k - 1, c) != 0 && InRegion(g, width, height, c, q) {
        RegionFillable(g, width, height, c, q);
      }
    }
  }

  /** `flood_fill_transparency` on the loaded pixels: each pixel keeps its
      colour and ends with the alpha the four fills, one per corner and in
      order, leave it. */
  method FloodFillTransparency(img: array2<Rgba>)
    requires img.Length0 >= 1 && img.Length1 >= 1
    modifies img
    ensures forall x, y | 0 <= x < img.Length0 && 0 <= y < img.Length1 ::
              var p := old(img[x, y]);
              img[x, y] == Rgba(p.r, p.g, p.b, AlphaAfter(old(Grid(img)), img.Length0, img.Length1, 4, (x, y)))
  {
    ghost var g: seq<seq<Rgba>> := Grid(img);
    var width, height := img.Length0, img.Length1;
    var corners := Corners(width, height);
    for k := 0 to 4
      invariant forall i, j | 0 <= i < width && 0 <= j < height ::
                  img[i, j] == Rgba(g[i][j].r, g[i][j].g, g[i][j].b, AlphaAfter(g, width, height, k, (i, j)))
    {
      FillCorner(img, corners[k], g);
    }
  }

  /** The fill from one corner `s`: nothing when the corner is already
      transparent; otherwise a depth-first walk over a stack of pixels
      that clears exactly the region of `s`. */
  method FillCorner(img: array2<Rgba>, s: (int, int), ghost g: seq<seq<Rgba>>)
    requires Sized(g, img.Length0, img.Length1) && InImage(img.Length0, img.Length1, s)
    requires forall i, j | 0 <= i < img.Length0 && 0 <= j < img.Length1 :: SameColour(img[i, j], g[i][j])
    modifies img
    ensures forall i, j | 0 <= i < img.Length0 && 0 <= j < img.Length1 ::
              img[i, j] == KeyOut(old(img[i, j]), old(img[s.0, s.1]).a != 0 &&
                                  InRegion(g, img.Length0, img.Length1, s, (i, j)))
  {
    var width, height := img.Length0, img.Length1;
    var startColor := img[s.0, s.1];
    if startColor.a == 0 {
      return;
    }
    ghost var orig: seq<seq<Rgba>> := Grid(img);
    var visited := Walk(img, s, startColor, g, orig);
  }

  /** The walk of one fill, from an opaque corner `s` of colour
      `startColor`: it ends with exactly the region marked and cleared. */
  method Walk(img: array2<Rgba>, s: (int, int), startColor: Rgba, ghost g: seq<seq<Rgba>>, ghost orig: seq<seq<Rgba>>)
    returns (visited: set<(int, int)>)
    requires Sized(g, img.Length0, img.Length1) && InImage(img.Length0, img.Length1, s)
    requires SameColour(startColor, g[s.0][s.1]) && Painted(img, orig, {})
    requires forall i, j | 0 <= i < img.Length0 && 0 <= j < img.Length1 :: SameColour(orig[i][j], g[i][j])
    modifies img
    ensures Painted(img, orig, visited)
    ensures forall q :: q in visited <==> InRegion(g, img.Length0, img.Length1, s, q)
  {
    ghost var mask := Mask(g, img.Length0, img.Length1, At(g, s));
    var stack := [s];
    visited := {};
    assert Reach(mask, {s}, s, 0) <==> s in mask;
    while stack != []
      invariant Painted(img, orig, visited)
      invariant Sound(mask, s, visited, stack)
      invariant Covers(mask, s, visited, stack)
      decreases |mask - visited|, |stack|
    {
      stack, visited := FillStep(img, s, startColor, stack, visited, g, orig, mask);
    }
    FillDone(g, img.Length0, img.Length1, s, visited);
  }

  /** The pixels `visited` holds, and no others, are cleared; the rest of
      each pixel is as it was in `orig`. */
  ghost predicate Painted(img: array2<Rgba>, orig: seq<seq<Rgba>>, visited: set<(int, int)>)
    reads img
  {
    Sized(orig, img.Length0, img.Length1) &&
    forall i, j | 0 <= i < img.Length0 && 0 <= j < img.Length1 :: img[i, j] == KeyOut(orig[i][j], (i, j) in visited)
  }

  /** Everything visited, and everything on the stack the rule accepts, is
      in the region of `s`. */
  ghost predicate Sound(mask: set<(int, int)>, s: (int, int), visited: set<(int, int)>, stack: seq<(int, int)>)
  {
    visited <= mask &&
    (forall q | q in visited :: Reached(mask, {s}, q)) &&
    (forall k | 0 <= k < |stack| && stack[k] in mask :: Reached(mask, {s}, stack[k]))
  }

  /** The start and every neighbour of a visited pixel are visited, still
      on the stack, or refused by the rule. */
  ghost predicate Covers(mask: set<(int, int)>, s: (int, int), visited: set<(int, int)>, stack: seq<(int, int)>)
  {
    (s in visited || s in stack || s !in mask) &&
    forall p, m | p in visited && m in Around(p) :: m in visited || m in stack || m !in mask
  }

  /** One turn of the walk: pop a pixel; skip it when visited, outside the
      image or refused by the rule; otherwise mark it, clear it and push
      its four neighbours. */
  method FillStep(img: array2<Rgba>, s: (int, int), startColor: Rgba, stack0: seq<(int, int)>,
                  visited0: set<(int, int)>, ghost g: seq<seq<Rgba>>, ghost orig: seq<seq<Rgba>>,
                  ghost mask: set<(int, int)>)
    returns (stack: seq<(int, int)>, visited: set<(int, int)>)
    requires stack0 != [] && Sized(g, img.Length0, img.Length1) && InImage(img.Length0, img.Length1, s)
    requires mask == Mask(g, img.Length0, img.Length1, At(g, s)) && SameColour(startColor, g[s.0][s.1])
    requires Painted(img, orig, visited0)
    requires forall i, j | 0 <= i < img.Length0 && 0 <= j < img.Length1 :: SameColour(orig[i][j], g[i][j])
    requires Sound(mask, s, visited0, stack0) && Covers(mask, s, visited0, stack0)
    modifies img
    ensures Painted(img, orig, visited) && Sound(mask, s, visited, stack) && Covers(mask, s, visited, stack)
    ensures |mask - visited| < |mask - visited0| || (|mask - visited| == |mask - visited0| && |stack| < |stack0|)
  {
    var width, height := img.Length0, img.Length1;
    var q := stack0[|stack0| - 1];
    stack, visited := stack0[..|stack0| - 1], visited0;
    assert stack0 == stack + [q];
    if q in visited {
      PopKeeps(mask, s, visited, stack, q);
      return;
    }
    if q.0 < 0 || q.0 >= width || q.1 < 0 || q.1 >= height {
      MaskInImage(g, width, height, At(g, s), q);
      PopKeeps(mask, s, visited, stack, q);
      return;
    }
    var current := img[q.0, q.1];
    assert current == orig[q.0][q.1];
    MaskAgrees(g, width, height, s, startColor, q, current);
    var isGray := Abs(current.r - current.g) < 30 && Abs(current.g - current.b) < 30;
    var diff := Abs(current.r - startColor.r) + Abs(current.g - startColor.g) + Abs(current.b - startColor.b);
    if isGray && diff < 150 {
      ClearPixel(img, q, orig, visited);
      var pushed := [(q.0 + 1, q.1), (q.0 - 1, q.1), (q.0, q.1 + 1), (q.0, q.1 - 1)];
      PushKeeps(mask, s, visited, stack, q, pushed);
      Shrinks(mask, visited, q);
      visited := visited + {q};
      stack := stack + pushed;
    } else {
      PopKeeps(mask, s, visited, stack, q);
    }
  }

  /** The write of the fill: the pixel `q` keeps its colour and loses its
      alpha. */
  method ClearPixel(img: array2<Rgba>, q: (int, int), ghost orig: seq<seq<Rgba>>, ghost visited: set<(int, int)>)
    requires InImage(img.Length0, img.Length1, q) && Painted(img, orig, visited) && q !in visited
    modifies img
    ensures Painted(img, orig, visited + {q})
  {
    var current := img[q.0, q.1];
    img[q.0, q.1] := Rgba(current.r, current.g, current.b, 0);
  }

  /** The rule on the pixels as they are decides membership of the mask,
      which is taken on the colours of the snapshot. */
  lemma MaskAgrees(g: seq<seq<Rgba>>, width: nat, height: nat, s: (int, int), startColor: Rgba,
                   q: (int, int), current: Rgba)
    requires Sized(g, width, height) && InImage(width, height, q) && InImage(width, height, s)
    requires SameColour(startColor, g[s.0][s.1]) && SameColour(current, g[q.0][q.1])
    ensures q in Mask(g, width, height, At(g, s)) <==> Fillable(current, startColor)
  {
    MaskMember(g, width, height, At(g, s), q);
  }

  /** Pixels outside the image are refused. */
  lemma MaskInImage(g: seq<seq<Rgba>>, width: nat, height: nat, c: Rgba, q: (int, int))
    requires !InImage(width, height, q)
    ensures q !in Mask(g, width, height, c)
  {
  }

  /** Inside the image, the mask is the rule. */
  lemma MaskMember(g: seq<seq<Rgba>>, width: nat, height: nat, c: Rgba, q: (int, int))
    requires InImage(width, height, q)
    ensures q in Mask(g, width, height, c) <==> Fillable(At(g, q), c)
  {
    if Fillable(At(g, q), c) {
      assert (q.0, q.1) == q;
    }
  }

  /** Dropping a popped pixel that is visited or refused keeps the walk's
      invariants. */
  lemma PopKeeps(mask: set<(int, int)>, s: (int, int), visited: set<(int, int)>, stack: seq<(int, int)>, q: (int, int))
    requires Sound(mask, s, visited, stack + [q]) && Covers(mask, s, visited, stack + [q])
    requires q in visited || q !in mask
    ensures Sound(mask, s, visited, stack) && Covers(mask, s, visited, stack)
  {
    var st := stack + [q];
    assert forall k | 0 <= k < |stack| :: st[k] == stack[k];
    forall m | m in st
      ensures m in stack || m == q
    {
      var k :| 0 <= k < |st| && st[k] == m;
      if k < |stack| {
        assert stack[k] == m;
      }
    }
  }

  /** Marking a popped pixel of the region and pushing its neighbours
      keeps the walk's invariants. */
  lemma PushKeeps(mask: set<(int, int)>, s: (int, int), visited: set<(int, int)>, stack: seq<(int, int)>,
                  q: (int, int), pushed: seq<(int, int)>)
    requires Sound(mask, s, visited, stack + [q]) && Covers(mask, s, visited, stack + [q])
    requires q in mask
    requires pushed == [(q.0 + 1, q.1), (q.0 - 1, q.1), (q.0, q.1 + 1), (q.0, q.1 - 1)]
    ensures Sound(mask, s, visited + {q}, stack + pushed) && Covers(mask, s, visited + {q}, stack + pushed)
  {
    var st := stack + [q];
    var st' := stack + pushed;
    assert st[|stack|] == q;
    assert Reached(mask, {s}, q);
    forall m | m in Around(q)
      ensures m in st'
    {
      assert m in pushed;
      assert st'[|stack| + 0] == pushed[0];
      assert st'[|stack| + 1] == pushed[1];
      assert st'[|stack| + 2] == pushed[2];
      assert st'[|stack| + 3] == pushed[3];
    }
    forall m | m in st
      ensures m in st' || m == q
    {
      var k :| 0 <= k < |st| && st[k] == m;
      if k < |stack| {
        assert st'[k] == m;
      }
    }
    forall k | 0 <= k < |st'| && st'[k] in mask
      ensures Reached(mask, {s}, st'[k])
    {
      if k < |stack| {
        assert st[k] == st'[k];
      } else {
        assert st'[k] in Around(q);
        ReachStep(mask, {s}, q, st'[k]);
      }
    }
  }

  /** Marking an unvisited pixel of the mask leaves one fewer to mark. */
  lemma Shrinks(mask: set<(int, int)>, visited: set<(int, int)>, q: (int, int))
    requires q in mask && q !in visited
    ensures |mask - (visited + {q})| < |mask - visited|
  {
    assert mask - visited == (mask - (visited + {q})) + {q};
  }

  /** When the stack is empty the visited pixels are the region. */
  lemma FillDone(g: seq<seq<Rgba>>, width: nat, height: nat, s: (int, int), visited: set<(int, int)>)
    requires Sound(Mask(g, width, height, At(g, s)), s, visited, [])
    requires Covers(Mask(g, width, height, At(g, s)), s, visited, [])
    ensures forall q :: q in visited <==> InRegion(g, width, height, s, q)
  {
    var mask := Mask(g, width, height, At(g, s));
    forall q | InRegion(g, width, height, s, q)
      ensures q in visited
    {
      var n: nat :| Reach(mask, {s}, q, n);
      ReachWithin(mask, {s}, visited, q, n);
    }
  }
}
