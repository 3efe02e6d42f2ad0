/**
 * The coordinate mapper: how normalized landmark coordinates from the camera
 * feed become mirrored canvas pixels. The feed is scaled uniformly so that it
 * covers the whole canvas, centred on both axes; the axis that does not fit
 * exactly overflows by the same amount on each side.
 */
module Geometry {

  /** A 2-D point; landmarks use [0,1] coordinates, targets and particles use pixels. */
  datatype Point = Point(x: real, y: real)

  /** The transform from feed pixels to canvas pixels, with the canvas size it was built for. */
  datatype CanvasSize = CanvasSize(width: real, height: real, offsetX: real, offsetY: real, scale: real)

  /** Feed dimensions assumed until the video reports its own. */
  const DefaultVideoWidth: nat := 640
  const DefaultVideoHeight: nat := 360

  /** `videoWidth || 640`: the feed width, or the default while it is still 0. */
  function SourceWidth(videoWidth: nat): (w: nat)
    ensures w > 0
  {
    if videoWidth == 0 then DefaultVideoWidth else videoWidth
  }

  /** `videoHeight || 360`: the feed height, or the default while it is still 0. */
  function SourceHeight(videoHeight: nat): (h: nat)
    ensures h > 0
  {
    if videoHeight == 0 then DefaultVideoHeight else videoHeight
  }

  /**
   * The feed of size vw x vh, scaled by c.scale, is centred on the canvas on
   * both axes; one axis fits exactly (offset 0) and the other overflows
   * (offset <= 0), so the scaled feed covers the canvas.
   */
  predicate CoversCentred(c: CanvasSize, vw: real, vh: real)
  {
    && 2.0 * c.offsetX + vw * c.scale == c.width
    && 2.0 * c.offsetY + vh * c.scale == c.height
    && ((c.offsetX == 0.0 && c.offsetY <= 0.0) || (c.offsetY == 0.0 && c.offsetX <= 0.0))
  }

  /**
   * Recomputes the canvas transform for a window of cw x ch CSS pixels.
   * The comparison `cw / ch > vw / vh` of the aspect ratios is written
   * cross-multiplied; for nonnegative sizes it decides the same way, including
   * the zero-height window where the source compares Infinity.
   */
  function UpdateCanvasTransform(cw: real, ch: real, videoWidth: nat, videoHeight: nat): (c: CanvasSize)
    requires cw >= 0.0 && ch >= 0.0
    ensures c.width == cw && c.height == ch && c.scale >= 0.0
    ensures CoversCentred(c, SourceWidth(videoWidth) as real, SourceHeight(videoHeight) as real)
  {
    var vw := SourceWidth(videoWidth) as real;
    var vh := SourceHeight(videoHeight) as real;
    if cw * vh > vw * ch then
      var scale := cw / vw;
      FitAxis(cw, vw, ch, vh);
      CanvasSize(cw, ch, 0.0, (ch - vh * scale) / 2.0, scale)
    else
      var scale := ch / vh;
      FitAxis(ch, vh, cw, vw);
      CanvasSize(cw, ch, (cw - vw * scale) / 2.0, 0.0, scale)
  }

  /**
   * Scaling a feed side v to the canvas side c fits that axis exactly; when the
   * canvas is relatively wider on this axis (c / v >= c2 / v2), the other feed
   * side v2 then reaches at least the other canvas side c2.
   */
  lemma FitAxis(c: real, v: real, c2: real, v2: real)
    requires c >= 0.0 && v > 0.0 && c2 >= 0.0 && v2 > 0.0
    requires c * v2 >= v * c2
    ensures c / v >= 0.0 && v * (c / v) == c && v2 * (c / v) >= c2
  {
    var s := c / v;
    assert v * s == c;
    assert (v2 * s - c2) * v == c * v2 - v * c2;
    if v2 * s - c2 < 0.0 {
      assert (v2 * s - c2) * v < 0.0;
    }
  }

  /** Maps a normalized landmark to canvas pixels, mirrored horizontally. */
  function MapToCanvas(c: CanvasSize, videoWidth: nat, videoHeight: nat, p: Point): (q: Point)
  {
    var x := p.x * SourceWidth(videoWidth) as real * c.scale + c.offsetX;
    var y := p.y * SourceHeight(videoHeight) as real * c.scale + c.offsetY;
    Point(c.width - x, y)
  }

  /** The centre of the feed lands on the centre of the canvas. */
  lemma MapCentre(cw: real, ch: real, videoWidth: nat, videoHeight: nat)
    requires cw >= 0.0 && ch >= 0.0
    ensures MapToCanvas(UpdateCanvasTransform(cw, ch, videoWidth, videoHeight), videoWidth, videoHeight, Point(0.5, 0.5))
            == Point(cw / 2.0, ch / 2.0)
  {
    var c := UpdateCanvasTransform(cw, ch, videoWidth, videoHeight);
    assert CoversCentred(c, SourceWidth(videoWidth) as real, SourceHeight(videoHeight) as real);
  }

  /**
   * The display is a mirror: landmarks at normalized x = u and x = 1 - u land
   * symmetrically about the vertical centre line, and a landmark further right
   * in the feed lands further left on the canvas.
   */
  lemma MapMirrored(cw: real, ch: real, videoWidth: nat, videoHeight: nat, u: real, u': real, v: real)
    requires cw >= 0.0 && ch >= 0.0
    ensures var c := UpdateCanvasTransform(cw, ch, videoWidth, videoHeight);
      MapToCanvas(c, videoWidth, videoHeight, Point(u, v)).x
        + MapToCanvas(c, videoWidth, videoHeight, Point(1.0 - u, v)).x == cw
    ensures var c := UpdateCanvasTransform(cw, ch, videoWidth, videoHeight);
      u <= u' ==> MapToCanvas(c, videoWidth, videoHeight, Point(u', v)).x
                  <= MapToCanvas(c, videoWidth, videoHeight, Point(u, v)).x
  {
    var c := UpdateCanvasTransform(cw, ch, videoWidth, videoHeight);
    MirroredFor(c, videoWidth, videoHeight, u, u', v);
  }

  /** MapMirrored for any transform that centres and covers. */
  lemma MirroredFor(c: CanvasSize, videoWidth: nat, videoHeight: nat, u: real, u': real, v: real)
    requires c.scale >= 0.0 && CoversCentred(c, SourceWidth(videoWidth) as real, SourceHeight(videoHeight) as real)
    ensures MapToCanvas(c, videoWidth, videoHeight, Point(u, v)).x
            + MapToCanvas(c, videoWidth, videoHeight, Point(1.0 - u, v)).x == c.width
    ensures u <= u' ==> MapToCanvas(c, videoWidth, videoHeight, Point(u', v)).x
                        <= MapToCanvas(c, videoWidth, videoHeight, Point(u, v)).x
  {
    var a := SourceWidth(videoWidth) as real * c.scale;
    MapX(c, videoWidth, videoHeight, u, v);
    MapX(c, videoWidth, videoHeight, 1.0 - u, v);
    MapX(c, videoWidth, videoHeight, u', v);
    assert (1.0 - u) * a == a - u * a;
    if u <= u' {
      ProductNonneg(u' - u, a);
      assert (u' - u) * a == u' * a - u * a;
    }
  }

  /** The mirrored x coordinate is affine in the normalized x, with slope -(feed width * scale). */
  lemma MapX(c: CanvasSize, videoWidth: nat, videoHeight: nat, u: real, v: real)
    ensures MapToCanvas(c, videoWidth, videoHeight, Point(u, v)).x
            == c.width - u * (SourceWidth(videoWidth) as real * c.scale) - c.offsetX
  {
    var vw := SourceWidth(videoWidth) as real;
    assert u * vw * c.scale == u * (vw * c.scale);
  }

  lemma ProductNonneg(a: real, b: real)
    requires a >= 0.0 && b >= 0.0
    ensures a * b >= 0.0
  {
  }

  /**
   * The unit square of the feed covers the canvas: its mirrored corners lie
   * on or beyond the canvas edges.
   */
  lemma MapCoversCanvas(cw: real, ch: real, videoWidth: nat, videoHeight: nat)
    requires cw >= 0.0 && ch >= 0.0
    ensures var c := UpdateCanvasTransform(cw, ch, videoWidth, videoHeight);
      var topRight := MapToCanvas(c, videoWidth, videoHeight, Point(0.0, 0.0));
      var bottomLeft := MapToCanvas(c, videoWidth, videoHeight, Point(1.0, 1.0));
      topRight.x >= cw && topRight.y <= 0.0 && bottomLeft.x <= 0.0 && bottomLeft.y >= ch
  {
    var c := UpdateCanvasTransform(cw, ch, videoWidth, videoHeight);
    assert CoversCentred(c, SourceWidth(videoWidth) as real, SourceHeight(videoHeight) as real);
  }
}
