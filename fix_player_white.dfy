/** The hang-glider's pass over a player sprite drawn on white: every
    near-white pixel becomes transparent. */
module FixPlayerWhite {
  import opened RgbaImage
  import FixPlayer

  /** Above 240 on all three channels. */
  predicate NearWhite(p: Rgba)
  {
    p.r > 240 && p.g > 240 && p.b > 240
  }

  /** `remove_white_background` on the loaded pixels. */
  method RemoveWhiteBackground(img: array2<Rgba>)
    modifies img
    ensures forall x, y | 0 <= x < img.Length0 && 0 <= y < img.Length1 ::
              img[x, y] == KeyOut(old(img[x, y]), NearWhite(old(img[x, y])))
  {
    ClearWhere(img, NearWhite);
  }

  /** With channels of at most 255, no pixel is both near white and
      green-screen: the two player passes clear different pixels. */
  lemma WhiteIsNotGreen(p: Rgba)
    requires Channels(p)
    ensures !(NearWhite(p) && FixPlayer.GreenScreen(p))
  {
  }
}
