/**
 * What a frame draws, as a list of primitives instead of pixels: OpenCV's
 * filled rectangle, filled circle, line and text calls, with their
 * coordinates and colours. Only the pixels a filled shape covers are given
 * a meaning (Covers); rasterisation of lines and text is not modelled.
 */
module Canvas {

  /** An OpenCV colour: blue, green, red. */
  datatype Color = Color(b: int, g: int, r: int)

  datatype Pixel = Pixel(x: int, y: int)

  /** The (width, height) that cv2.getTextSize measures for a text. */
  datatype Size = Size(width: int, height: int)

  datatype Prim =
    | Line(x1: int, y1: int, x2: int, y2: int, color: Color, thickness: int)
    | FilledRect(x1: int, y1: int, x2: int, y2: int, color: Color)
    | FilledCircle(cx: int, cy: int, radius: int, color: Color)
    | Text(text: string, x: int, y: int, scale: real, color: Color, thickness: int)

  const Black := Color(0, 0, 0)
  const BarColor := Color(0, 255, 0)
  const TextColor := Color(255, 255, 255)
  const HandColor := Color(0, 255, 255)
  const LineColorNormal := Color(0, 255, 0)
  const LineColorClose := Color(0, 0, 255)

  predicate IsFilled(p: Prim)
  {
    p.FilledRect? || p.FilledCircle?
  }

  /** v lies between a and b, in whichever order they are given. */
  predicate Between(v: int, a: int, b: int)
  {
    (a <= v <= b) || (b <= v <= a)
  }

  /**
   * The pixel (px, py) is painted by a filled shape. cv2.rectangle fills the
   * rectangle spanned by its two corners whichever way round they are given.
   */
  predicate Covers(p: Prim, px: int, py: int)
    requires IsFilled(p)
  {
    match p
    case FilledRect(x1, y1, x2, y2, _) => Between(px, x1, x2) && Between(py, y1, y2)
    case FilledCircle(cx, cy, radius, _) =>
      (px - cx) * (px - cx) + (py - cy) * (py - cy) <= radius * radius
  }

  /** Some filled shape of the list paints (px, py). */
  predicate AnyCovers(prims: seq<Prim>, px: int, py: int)
  {
    exists k :: 0 <= k < |prims| && IsFilled(prims[k]) && Covers(prims[k], px, py)
  }

  /** Every channel of c lies between the same channels of a and b. */
  predicate ColorBetween(c: Color, a: Color, b: Color)
  {
    Between(c.b, a.b, b.b) && Between(c.g, a.g, b.g) && Between(c.r, a.r, b.r)
  }

  /** Channel by channel, c is no brighter than d. */
  predicate ColorAtMost(c: Color, d: Color)
  {
    c.b <= d.b && c.g <= d.g && c.r <= d.r
  }

  predicate NonNegative(c: Color)
  {
    0 <= c.b && 0 <= c.g && 0 <= c.r
  }
}
