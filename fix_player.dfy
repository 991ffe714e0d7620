/** The hang-glider's second pass over the player sprite: a looser green
    screen than the chroma key's, on the dominance of green. */
module FixPlayer {
  import opened RgbaImage
  import ChromaKey

  /** A green-ish pixel: bright green, well above red and blue. */
  predicate GreenScreen(p: Rgba)
  {
    p.g > 100 && p.g > p.r + 30 && p.g > p.b + 30
  }

  /** `remove_green_background` on the loaded pixels. */
  method RemoveGreenBackground(img: array2<Rgba>)
    modifies img
    ensures forall x, y | 0 <= x < img.Length0 && 0 <= y < img.Length1 ::
              img[x, y] == KeyOut(old(img[x, y]), GreenScreen(old(img[x, y])))
  {
    ClearWhere(img, GreenScreen);
  }

  /** The looser rule clears every pixel the green keys of the chroma key
      clear, and more: pure mid green is caught by this rule only. */
  lemma GreenScreenCoversGreenKeys(p: Rgba)
    ensures ChromaKey.AnyKey(ChromaKey.GreenKeys, p) ==> GreenScreen(p)
    ensures GreenScreen(Rgba(0, 150, 0, 255)) && !ChromaKey.AnyKey(ChromaKey.GreenKeys, Rgba(0, 150, 0, 255))
  {
    if ChromaKey.AnyKey(ChromaKey.GreenKeys, p) {
      var k :| 0 <= k < |ChromaKey.GreenKeys| && ChromaKey.Matches(ChromaKey.GreenKeys[k], p);
    }
  }
}
