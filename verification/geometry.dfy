/**
  Rectangles of the overlay engine. A mark's rectangle is a System.Drawing
  RectangleF (origin and extent, in scale-independent units); it is scaled to
  device pixels and turned into a Skia SKRect (four edges) just before every
  clip or draw call. Coordinates are reals: float rounding is not modelled.
*/
module Geometry {

  /** RectangleF: X, Y, Width and Height. */
  datatype RectF = RectF(x: real, y: real, width: real, height: real)

  /** SKRect: the four edges; its width and height are derived from them. */
  datatype SkRect = SkRect(left: real, top: real, right: real, bottom: real) {
    function Width(): real { right - left }
    function Height(): real { bottom - top }
  }

  /** SKSize: the pixel size of the surface being painted. */
  datatype Size = Size(width: real, height: real)

  /** DrawingExtensions.Scale on RectangleF: every field multiplied by k. */
  function Scale(r: RectF, k: real): (scaled: RectF)
    ensures 0.0 < k ==> (0.0 <= scaled.width <==> 0.0 <= r.width) && (0.0 <= scaled.height <==> 0.0 <= r.height)
  {
    RectF(r.x * k, r.y * k, r.width * k, r.height * k)
  }

  /** RectangleF.ToSKRect: the right and bottom edges are origin plus extent. */
  function ToSkRect(r: RectF): (edges: SkRect)
    ensures edges.left == r.x && edges.top == r.y
    ensures edges.left <= edges.right <==> 0.0 <= r.width
    ensures edges.top <= edges.bottom <==> 0.0 <= r.height
  {
    SkRect(r.x, r.y, r.x + r.width, r.y + r.height)
  }

  /** RectangleF.FromLTRB: the inverse of ToSkRect. */
  function FromLtrb(s: SkRect): (rect: RectF)
  {
    RectF(s.left, s.top, s.Width(), s.Height())
  }

  /** Scaling by one changes nothing. */
  lemma ScaleByOne(r: RectF)
    ensures Scale(r, 1.0) == r
  {
  }

  /** Scaling twice is scaling once by the product of the factors. */
  lemma ScaleCompose(r: RectF, a: real, b: real)
    ensures Scale(Scale(r, a), b) == Scale(r, a * b)
  {
  }

  /** Scaling by a non-zero factor is undone by scaling by its inverse. */
  lemma ScaleRoundTrip(r: RectF, k: real)
    requires k != 0.0
    ensures Scale(Scale(r, k), 1.0 / k) == r
  {
  }

  /**
    The SKRect handed to the hole and text code has every edge scaled by k,
    and its width and height are the scaled width and height of the mark.
  */
  lemma ScaledEdges(r: RectF, k: real)
    ensures ToSkRect(Scale(r, k)) == SkRect(r.x * k, r.y * k, (r.x + r.width) * k, (r.y + r.height) * k)
    ensures ToSkRect(Scale(r, k)).Width() == r.width * k
    ensures ToSkRect(Scale(r, k)).Height() == r.height * k
  {
  }

  /** Converting a RectangleF to an SKRect and back loses nothing. */
  lemma SkRectRoundTrip(r: RectF)
    ensures FromLtrb(ToSkRect(r)) == r
  {
  }
}
