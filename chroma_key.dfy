/** The hang-glider's chroma-key script: every pixel within the
    tolerance of one of the key colours on all three channels becomes
    transparent. */
module ChromaKey {
  import opened RgbaImage

  /** A key colour with its tolerance. */
  datatype Key = Key(r: int, g: int, b: int, tolerance: int)

  predicate Matches(k: Key, p: Rgba)
  {
    Abs(p.r - k.r) < k.tolerance && Abs(p.g - k.g) < k.tolerance && Abs(p.b - k.b) < k.tolerance
  }

  /** Some key matches the pixel. */
  predicate AnyKey(keys: seq<Key>, p: Rgba)
  {
    exists k | 0 <= k < |keys| :: Matches(keys[k], p)
  }

  /** The keys for the player and the candy. */
  const GreenKeys: seq<Key> := [Key(0, 255, 0, 30), Key(0, 238, 0, 30), Key(0, 220, 0, 30), Key(30, 255, 30, 30)]

  /** The keys for the cutter and the construction site. */
  const MagentaKeys: seq<Key> := [Key(255, 0, 255, 30), Key(238, 0, 238, 30), Key(255, 20, 255, 30), Key(220, 0, 220, 30)]

  /** The inner loop over the keys, which stops at the first match:
      stopping early decides the same as asking whether any key matches. */
  method FirstMatch(keys: seq<Key>, p: Rgba) returns (hit: bool)
    ensures hit <==> AnyKey(keys, p)
  {
    hit := false;
    for i := 0 to |keys|
      invariant forall j | 0 <= j < i :: !Matches(keys[j], p)
    {
      if Matches(keys[i], p) {
        hit := true;
        break;
      }
    }
  }

  /** `chroma_key_transparency` on the loaded pixels: row by row, a pixel
      some key matches keeps its colour and loses its alpha; every other
      pixel is left as it was. */
  method ChromaKeyTransparency(img: array2<Rgba>, keys: seq<Key>)
    modifies img
    ensures forall x, y | 0 <= x < img.Length0 && 0 <= y < img.Length1 ::
              img[x, y] == KeyOut(old(img[x, y]), AnyKey(keys, old(img[x, y])))
  {
    for y := 0 to img.Length1
      invariant forall i, j | 0 <= i < img.Length0 && 0 <= j < img.Length1 ::
                  img[i, j] == if j < y then KeyOut(old(img[i, j]), AnyKey(keys, old(img[i, j]))) else old(img[i, j])
    {
      for x := 0 to img.Length0
        invariant forall i, j | 0 <= i < img.Length0 && 0 <= j < img.Length1 ::
                    img[i, j] == if j < y || (j == y && i < x) then KeyOut(old(img[i, j]), AnyKey(keys, old(img[i, j])))
                                 else old(img[i, j])
      {
        var p := img[x, y];
        var hit := FirstMatch(keys, p);
        if hit {
          img[x, y] := Rgba(p.r, p.g, p.b, 0);
        }
      }
    }
  }

  /** No pixel is both green-keyed and magenta-keyed: the two key sets
      pull apart on the green channel. */
  lemma KeySetsDisjoint(p: Rgba)
    ensures !(AnyKey(GreenKeys, p) && AnyKey(MagentaKeys, p))
  {
    if AnyKey(GreenKeys, p) {
      var k :| 0 <= k < |GreenKeys| && Matches(GreenKeys[k], p);
      assert p.g > 190;
    }
  }
}
