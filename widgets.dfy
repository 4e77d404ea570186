/**
 * The drawing helpers of the frame loop: draw_rounded_rect,
 * create_gradient_bar, the fingertip glow, the tapered pinch line and the
 * padded text background, each giving the primitives it draws.
 */
module Widgets {
  import opened Numeric
  import opened Canvas

  // ---------------------------------------------------------------------
  // draw_rounded_rect

  const CornerRadius := 20

  /**
   * A filled rounded rectangle with top-left corner (x, y), width w and
   * height h: a rectangle inset horizontally by the radius, one inset
   * vertically, and a disc at each of the four inset corners.
   */
  function RoundedRect(x: int, y: int, w: int, h: int, color: Color, radius: int): (prims: seq<Prim>)
    ensures |prims| == 6
    ensures forall k :: 0 <= k < |prims| ==> IsFilled(prims[k]) && prims[k].color == color
  {
    [ FilledRect(x + radius, y, x + w - radius, y + h, color),
      FilledRect(x, y + radius, x + w, y + h - radius, color),
      FilledCircle(x + radius, y + radius, radius, color),
      FilledCircle(x + w - radius, y + radius, radius, color),
      FilledCircle(x + radius, y + h - radius, radius, color),
      FilledCircle(x + w - radius, y + h - radius, radius, color) ]
  }

  /** |d| <= r follows from d * d <= r * r. */
  lemma SquareBound(d: int, r: int)
    requires 0 <= r && d * d <= r * r
    ensures -r <= d <= r
  {
    assert (r - d) * (r + d) >= 0;
  }

  /** |d| >= r gives d * d >= r * r. */
  lemma SquareAtLeast(d: int, r: int)
    requires 0 <= r && (d <= -r || r <= d)
    ensures r * r <= d * d
  {
    if r <= d {
      assert r * r <= r * d <= d * d;
    } else {
      assert r * r <= r * (-d) <= (-d) * (-d);
    }
  }

  /** A disc of radius r centred at (cx, cy) stays inside the box. */
  lemma DiscInBox(px: int, py: int, cx: int, cy: int, r: int, left: int, top: int, right: int, bottom: int)
    requires 0 <= r
    requires (px - cx) * (px - cx) + (py - cy) * (py - cy) <= r * r
    requires left <= cx - r && cx + r <= right && top <= cy - r && cy + r <= bottom
    ensures left <= px <= right && top <= py <= bottom
  {
    assert (px - cx) * (px - cx) <= r * r;
    assert (py - cy) * (py - cy) <= r * r;
    SquareBound(px - cx, r);
    SquareBound(py - cy, r);
  }

  /**
   * When the box is at least two radii wide and high, nothing outside the
   * w-by-h box is painted.
   */
  lemma RoundedRectWithinBox(x: int, y: int, w: int, h: int, color: Color, radius: int)
    requires 0 <= radius && 2 * radius <= w && 2 * radius <= h
    ensures forall px, py :: AnyCovers(RoundedRect(x, y, w, h, color, radius), px, py) ==>
      x <= px <= x + w && y <= py <= y + h
  {
    var prims := RoundedRect(x, y, w, h, color, radius);
    forall px, py | AnyCovers(prims, px, py)
      ensures x <= px <= x + w && y <= py <= y + h
    {
      var k :| 0 <= k < |prims| && IsFilled(prims[k]) && Covers(prims[k], px, py);
      if k >= 2 {
        var p := prims[k];
        DiscInBox(px, py, p.cx, p.cy, radius, x, y, x + w, y + h);
      }
    }
  }

  /** The midpoint of each of the four edges of the box is painted. */
  lemma RoundedRectReachesEdges(x: int, y: int, w: int, h: int, color: Color, radius: int)
    requires 0 <= radius && 2 * radius <= w && 2 * radius <= h
    ensures AnyCovers(RoundedRect(x, y, w, h, color, radius), x + w / 2, y)
    ensures AnyCovers(RoundedRect(x, y, w, h, color, radius), x + w / 2, y + h)
    ensures AnyCovers(RoundedRect(x, y, w, h, color, radius), x, y + h / 2)
    ensures AnyCovers(RoundedRect(x, y, w, h, color, radius), x + w, y + h / 2)
  {
    var prims := RoundedRect(x, y, w, h, color, radius);
    assert Covers(prims[0], x + w / 2, y);
    assert Covers(prims[0], x + w / 2, y + h);
    assert Covers(prims[1], x, y + h / 2);
    assert Covers(prims[1], x + w, y + h / 2);
  }

  /** A point at least r away from a disc's centre on both axes is outside the disc. */
  lemma OutsideDisc(dx: int, dy: int, r: int)
    requires 0 < r && (dx <= -r || r <= dx) && (dy <= -r || r <= dy)
    ensures dx * dx + dy * dy > r * r
  {
    SquareAtLeast(dx, r);
    SquareAtLeast(dy, r);
  }

  /** With a positive radius, the four corners of the box are left unpainted. */
  lemma RoundedRectCornersCut(x: int, y: int, w: int, h: int, color: Color, radius: int)
    requires 0 < radius && 2 * radius <= w && 2 * radius <= h
    ensures !AnyCovers(RoundedRect(x, y, w, h, color, radius), x, y)
    ensures !AnyCovers(RoundedRect(x, y, w, h, color, radius), x + w, y)
    ensures !AnyCovers(RoundedRect(x, y, w, h, color, radius), x, y + h)
    ensures !AnyCovers(RoundedRect(x, y, w, h, color, radius), x + w, y + h)
  {
    var prims := RoundedRect(x, y, w, h, color, radius);
    forall k, px, py | 0 <= k < 6 && px in {x, x + w} && py in {y, y + h}
      ensures !Covers(prims[k], px, py)
    {
      if k >= 2 {
        var p := prims[k];
        OutsideDisc(px - p.cx, py - p.cy, radius);
      }
    }
  }

  /**
   * The code has no guard for a box lower than two radii: its second
   * rectangle then has its top edge below its bottom edge.
   */
  lemma RoundedRectInvertedWhenShort(x: int, y: int, w: int, h: int, color: Color, radius: int)
    requires h < 2 * radius
    ensures RoundedRect(x, y, w, h, color, radius)[1].y1 > RoundedRect(x, y, w, h, color, radius)[1].y2
  {
  }

  /**
   * A box lower than two radii is overdrawn: the top corner discs reach
   * below its bottom edge and the bottom corner discs above its top edge.
   */
  lemma RoundedRectSpillsWhenShort(x: int, y: int, w: int, h: int, color: Color, radius: int)
    requires h < 2 * radius
    ensures y + h < y + 2 * radius && AnyCovers(RoundedRect(x, y, w, h, color, radius), x + radius, y + 2 * radius)
    ensures y + h - 2 * radius < y && AnyCovers(RoundedRect(x, y, w, h, color, radius), x + radius, y + h - 2 * radius)
  {
    var prims := RoundedRect(x, y, w, h, color, radius);
    assert Covers(prims[2], x + radius, y + 2 * radius);
    assert Covers(prims[4], x + radius, y + h - 2 * radius);
  }

  // ---------------------------------------------------------------------
  // create_gradient_bar

  /** int(s * (1 - alpha) + e * alpha): a channel blended from s towards e. */
  function Mix(s: int, e: int, alpha: real): (v: int)
    ensures alpha == 0.0 ==> v == s
    ensures alpha == 1.0 ==> v == e
  {
    TruncOfInteger(s);
    TruncOfInteger(e);
    Trunc(s as real * (1.0 - alpha) + e as real * alpha)
  }

  /** One channel of row i of an h-row gradient, blended by alpha = i / h. */
  function GradientChannel(s: int, e: int, i: int, h: int): int
    requires 0 <= i < h
  {
    Mix(s, e, i as real / h as real)
  }

  function GradientColor(start: Color, end: Color, i: int, h: int): (c: Color)
    requires 0 <= i < h
    ensures i == 0 ==> c == start
  {
    Color(GradientChannel(start.b, end.b, i, h),
          GradientChannel(start.g, end.g, i, h),
          GradientChannel(start.r, end.r, i, h))
  }

  /** Row i of the gradient: a one-pixel line across the bar at height y + i. */
  function GradientRow(x: int, y: int, w: int, h: int, start: Color, end: Color, i: int): Prim
    requires 0 <= i < h
  {
    Line(x, y + i, x + w, y + i, GradientColor(start, end, i, h), 1)
  }

  /** The rows create_gradient_bar draws; range(h) is empty for h <= 0. */
  function GradientRows(x: int, y: int, w: int, h: int, start: Color, end: Color): (rows: seq<Prim>)
    ensures |rows| == (if h <= 0 then 0 else h)
  {
    if h <= 0 then [] else seq(h, i requires 0 <= i < h => GradientRow(x, y, w, h, start, end, i))
  }

  method CreateGradientBar(x: int, y: int, w: int, h: int, start: Color, end: Color)
    returns (rows: seq<Prim>)
    ensures rows == GradientRows(x, y, w, h, start, end)
  {
    rows := [];
    var i := 0;
    while i < h
      invariant 0 <= i && (i == 0 || i <= h)
      invariant |rows| == i
      invariant forall k :: 0 <= k < i ==> rows[k] == GradientRow(x, y, w, h, start, end, k)
    {
      rows := rows + [GradientRow(x, y, w, h, start, end, i)];
      i := i + 1;
    }
    assert forall k :: 0 <= k < |rows| ==> rows[k] == GradientRows(x, y, w, h, start, end)[k];
  }

  /** Row i lies a fraction i/h of the way down, which is in [0, 1). */
  lemma GradientFraction(i: int, h: int)
    requires 0 <= i < h
    ensures 0.0 <= i as real / h as real < 1.0
  {
    var alpha := i as real / h as real;
    assert alpha * h as real == i as real;
    assert (1.0 - alpha) * h as real == (h - i) as real;
    PositiveFactor(1.0 - alpha, h as real);
  }

  /** The blend as a step a fraction alpha of the way from s to e. */
  lemma MixAsStep(s: int, e: int, alpha: real)
    ensures Mix(s, e, alpha) == Trunc(alpha * (e as real - s as real) + s as real)
  {
    assert s as real * (1.0 - alpha) + e as real * alpha == alpha * (e as real - s as real) + s as real;
  }

  /** For alpha in [0, 1] the blend lies between s and e. */
  lemma MixBetween(s: int, e: int, alpha: real)
    requires 0.0 <= alpha <= 1.0
    ensures Between(Mix(s, e, alpha), s, e)
  {
    MixAsStep(s, e, alpha);
    ScaledStepBetween(alpha, s as real, e as real);
    var v := alpha * (e as real - s as real) + s as real;
    if s <= e {
      TruncBetween(v, s, e);
    } else {
      TruncBetween(v, e, s);
    }
  }

  /** The blend moves monotonically from s towards e as alpha grows. */
  lemma MixMonotone(s: int, e: int, a1: real, a2: real)
    requires a1 <= a2
    ensures s <= e ==> Mix(s, e, a1) <= Mix(s, e, a2)
    ensures e <= s ==> Mix(s, e, a2) <= Mix(s, e, a1)
  {
    MixAsStep(s, e, a1);
    MixAsStep(s, e, a2);
    TruncStepMonotone(a1, a2, s as real, e as real);
  }

  lemma GradientChannelBetween(s: int, e: int, i: int, h: int)
    requires 0 <= i < h
    ensures Between(GradientChannel(s, e, i, h), s, e)
  {
    GradientFraction(i, h);
    MixBetween(s, e, i as real / h as real);
  }

  /** Going down the bar, each channel moves monotonically from start towards end. */
  lemma GradientChannelMonotone(s: int, e: int, i: int, j: int, h: int)
    requires 0 <= i <= j < h
    ensures s <= e ==> GradientChannel(s, e, i, h) <= GradientChannel(s, e, j, h)
    ensures e <= s ==> GradientChannel(s, e, j, h) <= GradientChannel(s, e, i, h)
  {
    DivMonotone(i as real, j as real, h as real);
    MixMonotone(s, e, i as real / h as real, j as real / h as real);
  }

  /**
   * The gradient draws exactly h one-pixel rows, row i at height y + i
   * across the bar, each channel of each row between the start and end
   * colours, and the first row in the start colour.
   */
  lemma GradientRowsSpec(x: int, y: int, w: int, h: int, start: Color, end: Color)
    ensures |GradientRows(x, y, w, h, start, end)| == (if h <= 0 then 0 else h)
    ensures forall i :: 0 <= i < |GradientRows(x, y, w, h, start, end)| ==>
      var row := GradientRows(x, y, w, h, start, end)[i];
      row.Line? && row.x1 == x && row.x2 == x + w && row.y1 == row.y2 == y + i &&
      row.thickness == 1 && ColorBetween(row.color, start, end)
    ensures 0 < h ==> GradientRows(x, y, w, h, start, end)[0].color == start
  {
    var rows := GradientRows(x, y, w, h, start, end);
    forall i | 0 <= i < |rows|
      ensures ColorBetween(rows[i].color, start, end)
    {
      GradientChannelBetween(start.b, end.b, i, h);
      GradientChannelBetween(start.g, end.g, i, h);
      GradientChannelBetween(start.r, end.r, i, h);
    }
    if 0 < h {
      TruncOfInteger(start.b);
      TruncOfInteger(start.g);
      TruncOfInteger(start.r);
    }
  }

  // ---------------------------------------------------------------------
  // Fingertip glow

  const GlowMaxRadius := 15
  const GlowStep := 3

  /**
   * int(c * (radius / 15)): the channel of the glow disc of the given radius,
   * computed on integers as c * radius divided by 15 with truncation toward
   * zero; GlowChannelIsTrunc shows this is the truncated real quotient.
   */
  function GlowChannel(c: int, radius: int): (v: int)
    ensures 0 <= c * radius ==> 0 <= v && v * GlowMaxRadius <= c * radius < (v + 1) * GlowMaxRadius
  {
    var n := c * radius;
    if 0 <= n then n / GlowMaxRadius else -((-n) / GlowMaxRadius)
  }

  /** The integer form is Python's int(c * (radius / 15)) over exact reals. */
  lemma GlowChannelIsTrunc(c: int, radius: int)
    ensures GlowChannel(c, radius) == Trunc(c as real * (radius as real / GlowMaxRadius as real))
  {
    var n := c * radius;
    assert c as real * (radius as real / GlowMaxRadius as real) == n as real / GlowMaxRadius as real;
    if 0 <= n {
      QuotientOfFifteen(n);
    } else {
      QuotientOfFifteen(-n);
      assert (-n) as real / GlowMaxRadius as real == -(n as real / GlowMaxRadius as real);
    }
  }

  /** n / 15 over the reals truncates to the integer quotient n / 15. */
  lemma QuotientOfFifteen(n: int)
    requires 0 <= n
    ensures Trunc(n as real / GlowMaxRadius as real) == n / GlowMaxRadius
  {
    var q, r := n / GlowMaxRadius, n % GlowMaxRadius;
    assert n as real / GlowMaxRadius as real == q as real + r as real / GlowMaxRadius as real;
    TruncOfNonNegative(n as real / GlowMaxRadius as real, q);
  }

  function GlowColor(base: Color, radius: int): Color
  {
    Color(GlowChannel(base.b, radius), GlowChannel(base.g, radius), GlowChannel(base.r, radius))
  }

  /**
   * The discs of `for radius in range(start, 0, -3)`: at each radius, one
   * disc on each fingertip, larger radii first.
   */
  function GlowDiscs(p: Pixel, q: Pixel, radius: int): (discs: seq<Prim>)
    ensures |discs| % 2 == 0
    ensures forall k :: 0 <= k < |discs| ==> discs[k].FilledCircle? && 0 < discs[k].radius <= radius
    decreases radius
  {
    if radius <= 0 then []
    else
      [ FilledCircle(p.x, p.y, radius, GlowColor(HandColor, radius)),
        FilledCircle(q.x, q.y, radius, GlowColor(HandColor, radius)) ]
      + GlowDiscs(p, q, radius - GlowStep)
  }

  method DrawGlow(p: Pixel, q: Pixel) returns (discs: seq<Prim>)
    ensures discs == GlowDiscs(p, q, GlowMaxRadius)
  {
    discs := [];
    var radius := GlowMaxRadius;
    while radius > 0
      invariant discs + GlowDiscs(p, q, radius) == GlowDiscs(p, q, GlowMaxRadius)
      decreases radius
    {
      var color := GlowColor(HandColor, radius);
      var pair := [FilledCircle(p.x, p.y, radius, color), FilledCircle(q.x, q.y, radius, color)];
      assert GlowDiscs(p, q, radius) == pair + GlowDiscs(p, q, radius - GlowStep);
      discs := discs + pair;
      radius := radius - GlowStep;
    }
  }

  /** Disc k of the glow started at radius 3n: radius 3n - 3(k/2), fingertip by parity. */
  function GlowDiscAt(p: Pixel, q: Pixel, n: int, k: int): Prim
  {
    var r := GlowStep * n - GlowStep * (k / 2);
    var tip := if k % 2 == 0 then p else q;
    FilledCircle(tip.x, tip.y, r, GlowColor(HandColor, r))
  }

  /** Disc k of a glow started at 3n is disc k - 2 of the glow started at 3(n - 1). */
  lemma GlowDiscAtShift(p: Pixel, q: Pixel, n: int, k: int)
    requires 2 <= k
    ensures GlowDiscAt(p, q, n - 1, k - 2) == GlowDiscAt(p, q, n, k)
  {
    assert (k - 2) / 2 == k / 2 - 1 && (k - 2) % 2 == k % 2;
  }

  /**
   * Starting at 3n, the glow draws 2n discs: disc k at radius 3n - 3(k/2),
   * on the first fingertip for even k and on the second for odd k.
   */
  lemma {:induction false} GlowDiscsLayout(p: Pixel, q: Pixel, n: nat)
    ensures |GlowDiscs(p, q, GlowStep * n)| == 2 * n
    ensures forall k :: 0 <= k < 2 * n ==> GlowDiscs(p, q, GlowStep * n)[k] == GlowDiscAt(p, q, n, k)
  {
    GlowDiscsLength(p, q, n);
    forall k | 0 <= k < 2 * n
      ensures GlowDiscs(p, q, GlowStep * n)[k] == GlowDiscAt(p, q, n, k)
    {
      GlowDiscIndex(p, q, n, k);
    }
  }

  lemma {:induction false} GlowDiscsLength(p: Pixel, q: Pixel, n: nat)
    ensures |GlowDiscs(p, q, GlowStep * n)| == 2 * n
  {
    if n > 0 {
      assert GlowStep * n - GlowStep == GlowStep * (n - 1);
      GlowDiscsLength(p, q, n - 1);
    }
  }

  lemma {:induction false} GlowDiscIndex(p: Pixel, q: Pixel, n: nat, k: int)
    requires 0 <= k < 2 * n
    ensures k < |GlowDiscs(p, q, GlowStep * n)|
    ensures GlowDiscs(p, q, GlowStep * n)[k] == GlowDiscAt(p, q, n, k)
  {
    GlowDiscsLength(p, q, n);
    assert GlowStep * n - GlowStep == GlowStep * (n - 1);
    if 2 <= k {
      GlowDiscIndex(p, q, n - 1, k - 2);
      GlowDiscAtShift(p, q, n, k);
    } else {
      assert k / 2 == 0;
    }
  }

  /**
   * The glow draws ten discs, two per radius for the radii 15, 12, 9, 6
   * and 3, alternating between the two fingertips.
   */
  lemma GlowRadii(p: Pixel, q: Pixel)
    ensures |GlowDiscs(p, q, GlowMaxRadius)| == 10
    ensures forall k :: 0 <= k < 10 ==>
      var disc := GlowDiscs(p, q, GlowMaxRadius)[k];
      disc.FilledCircle? && disc.radius in {15, 12, 9, 6, 3} &&
      disc.radius == GlowMaxRadius - GlowStep * (k / 2) &&
      (if k % 2 == 0 then disc.cx == p.x && disc.cy == p.y else disc.cx == q.x && disc.cy == q.y) &&
      disc.color == GlowColor(HandColor, disc.radius)
  {
    GlowDiscsLayout(p, q, 5);
  }

  lemma GlowChannelBounds(c: int, radius: int)
    requires 0 <= c && 0 < radius <= GlowMaxRadius
    ensures 0 <= GlowChannel(c, radius) <= c
    ensures radius == GlowMaxRadius ==> GlowChannel(c, radius) == c
  {
    assert 0 <= c * radius <= c * GlowMaxRadius;
  }

  /**
   * Every glow disc is no brighter than the hand colour in any channel,
   * and the outermost one, at radius 15, is exactly the hand colour.
   */
  lemma GlowColorBounds(base: Color, radius: int)
    requires NonNegative(base) && 0 < radius <= GlowMaxRadius
    ensures NonNegative(GlowColor(base, radius)) && ColorAtMost(GlowColor(base, radius), base)
    ensures radius == GlowMaxRadius ==> GlowColor(base, radius) == base
  {
    GlowChannelBounds(base.b, radius);
    GlowChannelBounds(base.g, radius);
    GlowChannelBounds(base.r, radius);
  }

  lemma GlowChannelMonotone(c: int, r1: int, r2: int)
    requires 0 <= c && r1 <= r2
    ensures GlowChannel(c, r1) <= GlowChannel(c, r2)
  {
    var n1, n2 := c * r1, c * r2;
    assert n2 - n1 == c * (r2 - r1) >= 0;
    if 0 <= n1 {
      assert n1 / GlowMaxRadius <= n2 / GlowMaxRadius;
    } else if n2 < 0 {
      assert (-n2) / GlowMaxRadius <= (-n1) / GlowMaxRadius;
    }
  }

  /** A smaller disc, drawn later on top, is never brighter than a larger one. */
  lemma GlowDimsInward(base: Color, r1: int, r2: int)
    requires NonNegative(base) && r1 <= r2
    ensures ColorAtMost(GlowColor(base, r1), GlowColor(base, r2))
  {
    GlowChannelMonotone(base.b, r1, r2);
    GlowChannelMonotone(base.g, r1, r2);
    GlowChannelMonotone(base.r, r1, r2);
  }

  // ---------------------------------------------------------------------
  // The pinch line, drawn three times with thinning widths

  const PinchLinePasses := 3

  function PinchLines(p: Pixel, q: Pixel, color: Color): (lines: seq<Prim>)
    ensures |lines| == PinchLinePasses
    ensures forall i :: 0 <= i < |lines| ==> lines[i].Line? && 1 <= lines[i].thickness <= PinchLinePasses
  {
    seq(PinchLinePasses, i requires 0 <= i < PinchLinePasses =>
      Line(p.x, p.y, q.x, q.y, color, PinchLinePasses - i))
  }

  method DrawPinchLine(p: Pixel, q: Pixel, color: Color) returns (lines: seq<Prim>)
    ensures lines == PinchLines(p, q, color)
  {
    lines := [];
    for i := 0 to PinchLinePasses
      invariant |lines| == i
      invariant forall k :: 0 <= k < i ==> lines[k] == Line(p.x, p.y, q.x, q.y, color, PinchLinePasses - k)
    {
      lines := lines + [Line(p.x, p.y, q.x, q.y, color, PinchLinePasses - i)];
    }
  }

  /** The same segment in the same colour, with widths 3, 2 and 1 in that order. */
  lemma PinchLinesTaper(p: Pixel, q: Pixel, color: Color)
    ensures |PinchLines(p, q, color)| == 3
    ensures forall i :: 0 <= i < 3 ==>
      var l := PinchLines(p, q, color)[i];
      l.Line? && l.x1 == p.x && l.y1 == p.y && l.x2 == q.x && l.y2 == q.y && l.color == color
    ensures [PinchLines(p, q, color)[0].thickness, PinchLines(p, q, color)[1].thickness,
             PinchLines(p, q, color)[2].thickness] == [3, 2, 1]
  {
  }

  // ---------------------------------------------------------------------
  // Text with an opaque background patch

  const TextPadding := 5
  const TextThickness := 2

  /** The black patch behind a text drawn at `org` whose measured size is `size`. */
  function TextBackground(org: Pixel, size: Size): (patch: Prim)
    ensures IsFilled(patch) && patch.color == Black
    ensures 0 <= size.width && 0 <= size.height ==> Covers(patch, org.x, org.y)
  {
    FilledRect(org.x - TextPadding, org.y - size.height - TextPadding,
               org.x + size.width + TextPadding, org.y + TextPadding, Black)
  }

  /** A text over its background patch, in the order they are drawn. */
  function Label(text: string, org: Pixel, scale: real, size: Size): (prims: seq<Prim>)
    ensures |prims| == 2 && prims[0] == TextBackground(org, size)
    ensures prims[1].Text? && prims[1].text == text && prims[1].x == org.x && prims[1].y == org.y
  {
    [TextBackground(org, size), Text(text, org.x, org.y, scale, TextColor, TextThickness)]
  }

  /** How far (px, py) is from a box, counting the larger of the two axis gaps. */
  function BoxDistance(px: int, py: int, left: int, top: int, right: int, bottom: int): int
  {
    var dx := if px < left then left - px else if right < px then px - right else 0;
    var dy := if py < top then top - py else if bottom < py then py - bottom else 0;
    if dx < dy then dy else dx
  }

  /**
   * The patch is black and paints exactly the pixels within 5 of the text's
   * measured box, which runs from org rightwards by the width and upwards by
   * the height.
   */
  lemma TextBackgroundPads(org: Pixel, size: Size)
    requires 0 <= size.width && 0 <= size.height
    ensures TextBackground(org, size).color == Black
    ensures forall px, py :: Covers(TextBackground(org, size), px, py) <==>
      BoxDistance(px, py, org.x, org.y - size.height, org.x + size.width, org.y) <= TextPadding
  {
  }
}
