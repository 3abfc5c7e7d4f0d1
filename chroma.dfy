/** The chroma-key pass that loot and monster sprites run over their RGBA
    pixel buffer (src/loot.js, src/monster.js): a pixel whose green channel is
    above a threshold and above both red and blue becomes fully transparent. */
module Chroma {

  /** One entry of a Uint8ClampedArray. */
  type byte = x: int | 0 <= x < 256

  /** The loot sprite keys green above 150, the monster sprite above 100. */
  const LOOT_THRESHOLD: int := 150
  const MONSTER_THRESHOLD: int := 100

  /** Green strictly dominates: grey and white pixels are never keyed, and
      pure green is keyed under any threshold below 255. */
  function GreenDominant(r: byte, g: byte, b: byte, threshold: int): (k: bool)
    ensures r == g || b == g ==> !k
    ensures k ==> g > threshold && g > 0
    ensures r == 0 && b == 0 && g == 255 && threshold < 255 ==> k
  {
    g > threshold && g > r && g > b
  }

  /** Whether byte k is the alpha byte of a pixel to be keyed out. */
  predicate KeyedAlpha(s: seq<byte>, k: int, threshold: int)
    requires 0 <= k < |s|
  {
    k % 4 == 3 && GreenDominant(s[k - 3], s[k - 2], s[k - 1], threshold)
  }

  /** The buffer after the pass: keyed alpha bytes are 0, every other byte,
      and the length, are as before. */
  function Keyed(s: seq<byte>, threshold: int): (r: seq<byte>)
    ensures |r| == |s|
    ensures forall k :: 0 <= k < |s| && k % 4 != 3 ==> r[k] == s[k]
    ensures forall k :: 0 <= k < |s| && k % 4 == 3 && !KeyedAlpha(s, k, threshold) ==> r[k] == s[k]
    ensures forall k :: 0 <= k < |s| && KeyedAlpha(s, k, threshold) ==> r[k] == 0
  {
    seq(|s|, k requires 0 <= k < |s| => if KeyedAlpha(s, k, threshold) then 0 else s[k])
  }

  /** Keying an already keyed buffer changes nothing. */
  lemma KeyedIdempotent(s: seq<byte>, threshold: int)
    ensures Keyed(Keyed(s, threshold), threshold) == Keyed(s, threshold)
  {
    var once := Keyed(s, threshold);
    var twice := Keyed(once, threshold);
    forall k | 0 <= k < |s|
      ensures twice[k] == once[k]
    {
      if k % 4 == 3 {
        assert once[k - 3] == s[k - 3] && once[k - 2] == s[k - 2] && once[k - 1] == s[k - 1];
        assert KeyedAlpha(once, k, threshold) == KeyedAlpha(s, k, threshold);
      }
    }
    assert |twice| == |once|;
  }

  /** What the pass does to the four bytes of pixel p, which start at 4p. */
  lemma PixelKeyed(s: seq<byte>, p: nat, threshold: int)
    requires 4 * p + 3 < |s|
    ensures var i := 4 * p;
            Keyed(s, threshold)[i] == s[i] && Keyed(s, threshold)[i + 1] == s[i + 1] &&
            Keyed(s, threshold)[i + 2] == s[i + 2] &&
            Keyed(s, threshold)[i + 3] == if GreenDominant(s[i], s[i + 1], s[i + 2], threshold) then 0 else s[i + 3]
  {
    var i := 4 * p;
    assert i % 4 == 0 && (i + 1) % 4 == 1 && (i + 2) % 4 == 2 && (i + 3) % 4 == 3;
  }

  /** The in-place loop `for (i = 0; i < data.length; i += 4)`. ImageData
      buffers hold whole pixels, so the length is a multiple of 4. */
  method ChromaKey(data: array<byte>, threshold: int)
    requires data.Length % 4 == 0
    modifies data
    ensures data[..] == Keyed(old(data[..]), threshold)
  {
    ghost var orig := data[..];
    ghost var keyed := Keyed(orig, threshold);
    ghost var pixels := data.Length / 4;
    assert data.Length == 4 * pixels;
    var i := 0;
    ghost var p := 0;
    while i < data.Length
      invariant 0 <= p <= pixels && i == 4 * p
      invariant forall k :: 0 <= k < i ==> data[k] == keyed[k]
      invariant forall k :: i <= k < data.Length ==> data[k] == orig[k]
    {
      PixelKeyed(orig, p, threshold);
      var r := data[i];
      var g := data[i + 1];
      var b := data[i + 2];
      if GreenDominant(r, g, b, threshold) {
        data[i + 3] := 0;
      }
      i := i + 4;
      p := p + 1;
    }
    assert data[..] == keyed;
  }
}
