/** The pixel read back from the silhouette pass, reduced to what the hover
    test looks at. */
module Hover {

  type byte = x: int | 0 <= x < 256

  /** One RGBA pixel as `readPixels` writes it into a `Uint8Array(4)`. */
  datatype Rgba = Rgba(r: byte, g: byte, b: byte, a: byte)

  /** The pointer is over the character when some colour channel of the
      sampled pixel is non-zero; alpha is not consulted. */
  function Painted(p: Rgba): (over: bool)
    ensures over <==> p.(a := 0) != Rgba(0, 0, 0, 0)
  {
    p.r != 0 || p.g != 0 || p.b != 0
  }

  /** Only the colour decides: a pixel cleared to black is never painted,
      whatever its alpha, and changing alpha alone never changes the test. */
  lemma PaintedIgnoresAlpha(p: Rgba, alpha: byte)
    ensures Painted(p.(a := alpha)) == Painted(p)
    ensures !Painted(Rgba(0, 0, 0, alpha))
  {
  }
}
