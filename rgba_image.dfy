/** RGBA images as the hang-glider's asset scripts see them through PIL's
    pixel access: a two-dimensional array indexed by column and row whose
    cells are four-channel tuples. */
module RgbaImage {
  datatype Rgba = Rgba(r: int, g: int, b: int, a: int)

  function Abs(v: int): int
  {
    if v < 0 then -v else v
  }

  /** The channel values PIL stores: 0 to 255. */
  predicate Channels(p: Rgba)
  {
    0 <= p.r < 256 && 0 <= p.g < 256 && 0 <= p.b < 256 && 0 <= p.a < 256
  }

  /** A pixel with its colour kept and its alpha set to 0 when `hit`,
      untouched otherwise: the only write the scripts make. */
  function KeyOut(p: Rgba, hit: bool): (q: Rgba)
    ensures q.r == p.r && q.g == p.g && q.b == p.b
    ensures hit ==> q.a == 0
    ensures !hit ==> q == p
  {
    if hit then Rgba(p.r, p.g, p.b, 0) else p
  }

  /** Two pixels of the same colour, whatever their alpha. */
  predicate SameColour(p: Rgba, q: Rgba)
  {
    p.r == q.r && p.g == q.g && p.b == q.b
  }

  /** A snapshot of an image: column `x`, row `y` at `[x][y]`. */
  ghost function Grid(img: array2<Rgba>): (g: seq<seq<Rgba>>)
    reads img
    ensures |g| == img.Length0
    ensures forall x | 0 <= x < img.Length0 :: |g[x]| == img.Length1
    ensures forall x, y | 0 <= x < img.Length0 && 0 <= y < img.Length1 :: g[x][y] == img[x, y]
  {
    seq(img.Length0, x requires 0 <= x < img.Length0 reads img =>
      seq(img.Length1, y requires 0 <= y < img.Length1 reads img => img[x, y]))
  }

  /** A snapshot with `width` columns of `height` pixels. */
  ghost predicate Sized(g: seq<seq<Rgba>>, width: nat, height: nat)
  {
    |g| == width && forall x | 0 <= x < width :: |g[x]| == height
  }

  /** The pixel of a snapshot at `q`; the image's size keeps every caller
      inside it. */
  ghost function At(g: seq<seq<Rgba>>, q: (int, int)): Rgba
  {
    if 0 <= q.0 < |g| && 0 <= q.1 < |g[q.0]| then g[q.0][q.1] else Rgba(0, 0, 0, 0)
  }

  /** The per-pixel loop of the green-screen and white-background scripts:
      every pixel, row by row, loses its alpha exactly when `clear` holds
      of it, and keeps everything else. */
  method ClearWhere(img: array2<Rgba>, clear: Rgba -> bool)
    modifies img
    ensures forall x, y | 0 <= x < img.Length0 && 0 <= y < img.Length1 ::
              img[x, y] == KeyOut(old(img[x, y]), clear(old(img[x, y])))
  {
    for y := 0 to img.Length1
      invariant forall i, j | 0 <= i < img.Length0 && 0 <= j < img.Length1 ::
                  img[i, j] == if j < y then KeyOut(old(img[i, j]), clear(old(img[i, j]))) else old(img[i, j])
    {
      for x := 0 to img.Length0
        invariant forall i, j | 0 <= i < img.Length0 && 0 <= j < img.Length1 ::
                    img[i, j] == if j < y || (j == y && i < x) then KeyOut(old(img[i, j]), clear(old(img[i, j])))
                                 else old(img[i, j])
      {
        var p := img[x, y];
        if clear(p) {
          img[x, y] := Rgba(p.r, p.g, p.b, 0);
        }
      }
    }
  }
}
