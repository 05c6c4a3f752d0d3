/**
 Overlay geometry of the object-detection demo: how a detection's bounding box,
 given in video pixels, becomes the rectangle drawn over the mirrored video.

 There are two policies, kept apart on purpose because the program uses both:
 - the per-frame path (MainRect), which scales each axis independently and adds
   the container margins;
 - the resize / full-window path (ResizeRect), which detects letterboxing,
   uses one uniform scale with a vertical centring offset in that case, and adds
   no margins.
 All arithmetic is exact over `real`.
 */
module Geometry {

  /** A box in video pixels: top-left origin, frame not mirrored. */
  datatype Box = Box(originX: real, originY: real, width: real, height: real)

  /** A rectangle in page pixels (CSS left/top/width/height). */
  datatype Rect = Rect(left: real, top: real, width: real, height: real)

  datatype Point = Point(x: real, y: real)

  /** The box lies inside a frame of the given size. */
  predicate WithinFrame(b: Box, frameWidth: real, frameHeight: real)
  {
    && 0.0 <= b.originX && 0.0 <= b.width && b.originX + b.width <= frameWidth
    && 0.0 <= b.originY && 0.0 <= b.height && b.originY + b.height <= frameHeight
  }

  /** The rectangle lies inside the area [x0, x0 + w] x [y0, y0 + h]. */
  predicate WithinArea(r: Rect, x0: real, y0: real, w: real, h: real)
  {
    && x0 <= r.left && 0.0 <= r.width && r.left + r.width <= x0 + w
    && y0 <= r.top && 0.0 <= r.height && r.top + r.height <= y0 + h
  }

  /** The box as it appears in a horizontally mirrored frame. */
  function Mirror(b: Box, frameWidth: real): (m: Box)
    ensures m.originX + m.width == frameWidth - b.originX
    ensures m.originX == frameWidth - (b.originX + b.width)
    ensures m.originY == b.originY && m.width == b.width && m.height == b.height
  {
    b.(originX := frameWidth - b.originX - b.width)
  }

  lemma MirrorInvolution(b: Box, frameWidth: real)
    ensures Mirror(Mirror(b, frameWidth), frameWidth) == b
  {
  }

  /** Mirroring keeps a box inside its frame. */
  lemma MirrorWithinFrame(b: Box, frameWidth: real, frameHeight: real)
    requires WithinFrame(b, frameWidth, frameHeight)
    ensures WithinFrame(Mirror(b, frameWidth), frameWidth, frameHeight)
  {
  }

  /** The affine placement x -> x * sx + dx, y -> y * sy + dy of a box. */
  function Place(b: Box, sx: real, sy: real, dx: real, dy: real): (r: Rect)
    ensures r.left + r.width == (b.originX + b.width) * sx + dx
    ensures r.top + r.height == (b.originY + b.height) * sy + dy
  {
    Rect(b.originX * sx + dx, b.originY * sy + dy, b.width * sx, b.height * sy)
  }

  /** The centre of a rectangle, where a detection label is anchored. */
  function Centre(r: Rect): (p: Point)
    ensures p.x - r.left == r.left + r.width - p.x
    ensures p.y - r.top == r.top + r.height - p.y
    ensures 0.0 <= r.width ==> r.left <= p.x <= r.left + r.width
    ensures 0.0 <= r.height ==> r.top <= p.y <= r.top + r.height
  {
    Point(r.left + r.width / 2.0, r.top + r.height / 2.0)
  }

  // ---------------------------------------------------------------------------
  // Per-frame path

  /**
   What the per-frame path reads: the video's intrinsic size, the element's
   offset size and the container's left and top margins.
   */
  datatype MainView = MainView(
    videoWidth: real, videoHeight: real,
    offsetWidth: real, offsetHeight: real,
    marginLeft: real, marginTop: real)

  /** The video's intrinsic size is known (the element has loaded data). */
  predicate MainReady(v: MainView)
  {
    v.videoWidth > 0.0 && v.videoHeight > 0.0
  }

  /** The displayed width: the offset width minus a margin on each side. */
  function MainDisplayWidth(v: MainView): (w: real)
    ensures w + 2.0 * v.marginLeft == v.offsetWidth
  {
    v.offsetWidth - v.marginLeft * 2.0
  }

  function MainDisplayHeight(v: MainView): (h: real)
    ensures h + 2.0 * v.marginTop == v.offsetHeight
  {
    v.offsetHeight - v.marginTop * 2.0
  }

  /** Horizontal scale: the whole video width spans the displayed width. */
  function MainScaleX(v: MainView): (s: real)
    requires MainReady(v)
    ensures s * v.videoWidth == v.offsetWidth - 2.0 * v.marginLeft
  {
    MainDisplayWidth(v) / v.videoWidth
  }

  /** Vertical scale, independent of the horizontal one. */
  function MainScaleY(v: MainView): (s: real)
    requires MainReady(v)
    ensures s * v.videoHeight == v.offsetHeight - 2.0 * v.marginTop
  {
    MainDisplayHeight(v) / v.videoHeight
  }

  /**
   The highlighter rectangle of the per-frame path: the box is mirrored
   horizontally, scaled per axis and shifted by the margins.
   */
  function MainRect(v: MainView, b: Box): (r: Rect)
    requires MainReady(v)
    ensures r == Place(Mirror(b, v.videoWidth), MainScaleX(v), MainScaleY(v), v.marginLeft, v.marginTop)
    ensures r.left + r.width == (v.videoWidth - b.originX) * MainScaleX(v) + v.marginLeft
  {
    var scaleX := MainScaleX(v);
    var scaleY := MainScaleY(v);
    Rect((v.videoWidth - b.originX - b.width) * scaleX + v.marginLeft,
         b.originY * scaleY + v.marginTop,
         b.width * scaleX,
         b.height * scaleY)
  }

  /** The label anchor of the per-frame path. */
  function MainAnchor(v: MainView, b: Box): (p: Point)
    requires MainReady(v)
    ensures p == Centre(MainRect(v, b))
  {
    var r := MainRect(v, b);
    Point(r.left + r.width / 2.0, r.top + r.height / 2.0)
  }

  /** Recovers the video-space box from a per-frame rectangle. */
  function MainUnmap(v: MainView, r: Rect): Box
    requires MainReady(v)
    requires MainDisplayWidth(v) != 0.0 && MainDisplayHeight(v) != 0.0
  {
    var scaleX := MainScaleX(v);
    var scaleY := MainScaleY(v);
    Box(v.videoWidth - (r.left - v.marginLeft) / scaleX - r.width / scaleX,
        (r.top - v.marginTop) / scaleY,
        r.width / scaleX,
        r.height / scaleY)
  }

  lemma CancelScale(a: real, s: real)
    requires s != 0.0
    ensures (a * s) / s == a
  {
  }

  /** When the displayed area is not degenerate, the per-frame mapping loses nothing. */
  lemma MainRectInvertible(v: MainView, b: Box)
    requires MainReady(v)
    requires MainDisplayWidth(v) != 0.0 && MainDisplayHeight(v) != 0.0
    ensures MainUnmap(v, MainRect(v, b)) == b
  {
    var sx, sy := MainScaleX(v), MainScaleY(v);
    assert sx != 0.0 && sy != 0.0;
    var r := MainRect(v, b);
    CancelScale(v.videoWidth - b.originX - b.width, sx);
    CancelScale(b.width, sx);
    CancelScale(b.originY, sy);
    CancelScale(b.height, sy);
    assert (r.left - v.marginLeft) / sx == v.videoWidth - b.originX - b.width;
    assert r.width / sx == b.width;
    assert (r.top - v.marginTop) / sy == b.originY;
    assert r.height / sy == b.height;
  }

  lemma ScaleMonotone(a: real, c: real, s: real)
    requires a <= c && 0.0 <= s
    ensures a * s <= c * s
  {
  }

  lemma ScaleNonNegative(a: real, s: real)
    requires 0.0 <= a && 0.0 <= s
    ensures 0.0 <= a * s
  {
  }

  /** Placing a box that lies inside its frame keeps it inside the placed frame. */
  lemma PlaceWithinArea(m: Box, frameWidth: real, frameHeight: real, sx: real, sy: real, dx: real, dy: real)
    requires WithinFrame(m, frameWidth, frameHeight) && 0.0 <= sx && 0.0 <= sy
    ensures WithinArea(Place(m, sx, sy, dx, dy), dx, dy, frameWidth * sx, frameHeight * sy)
  {
    ScaleNonNegative(m.originX, sx);
    ScaleNonNegative(m.width, sx);
    ScaleMonotone(m.originX + m.width, frameWidth, sx);
    ScaleNonNegative(m.originY, sy);
    ScaleNonNegative(m.height, sy);
    ScaleMonotone(m.originY + m.height, frameHeight, sy);
  }

  /**
   A box inside the video frame is drawn inside the displayed area, which
   starts at the margins.
   */
  lemma MainRectWithinDisplay(v: MainView, b: Box)
    requires MainReady(v) && WithinFrame(b, v.videoWidth, v.videoHeight)
    requires 0.0 <= MainDisplayWidth(v) && 0.0 <= MainDisplayHeight(v)
    ensures WithinArea(MainRect(v, b), v.marginLeft, v.marginTop, MainDisplayWidth(v), MainDisplayHeight(v))
  {
    var sx, sy := MainScaleX(v), MainScaleY(v);
    assert 0.0 <= sx && 0.0 <= sy;
    MirrorWithinFrame(b, v.videoWidth, v.videoHeight);
    PlaceWithinArea(Mirror(b, v.videoWidth), v.videoWidth, v.videoHeight, sx, sy, v.marginLeft, v.marginTop);
  }

  // ---------------------------------------------------------------------------
  // Resize / full-window path

  /** What the resize path reads: intrinsic size and offset size, no margins. */
  datatype ResizeView = ResizeView(
    videoWidth: real, videoHeight: real,
    displayWidth: real, displayHeight: real)

  predicate ResizeReady(v: ResizeView)
  {
    v.videoWidth > 0.0 && v.videoHeight > 0.0 && v.displayWidth > 0.0 && v.displayHeight > 0.0
  }

  /** Scale factors and offsets of the resize path. */
  datatype Placement = Placement(scaleX: real, scaleY: real, offsetX: real, offsetY: real)

  /** The video is wider than the display, in aspect ratio. */
  predicate Letterboxed(v: ResizeView)
    requires ResizeReady(v)
  {
    v.videoWidth / v.videoHeight > v.displayWidth / v.displayHeight
  }

  lemma RatioLess(a: real, b: real, c: real, d: real)
    requires b > 0.0 && d > 0.0
    ensures a / b < c / d <==> a * d < c * b
  {
    assert a / b * (b * d) == a * d;
    assert c / d * (b * d) == c * b;
    if a / b < c / d {
      assert a / b * (b * d) < c / d * (b * d);
    }
    if a * d < c * b {
      assert a / b * (b * d) < c / d * (b * d);
    }
  }

  lemma LetterboxedCross(v: ResizeView)
    requires ResizeReady(v)
    ensures Letterboxed(v) <==> v.displayWidth * v.videoHeight < v.videoWidth * v.displayHeight
  {
    RatioLess(v.displayWidth, v.displayHeight, v.videoWidth, v.videoHeight);
  }

  /**
   The placement of the resize path. The full video width always spans the
   display width and there is never a horizontal offset. If letterboxed, the
   vertical scale equals the horizontal one and the scaled video is centred
   vertically with a strictly positive margin above and below; otherwise the
   full video height spans the display height with no offset.
   */
  function ResizePlacement(v: ResizeView): (p: Placement)
    requires ResizeReady(v)
    ensures p.offsetX == 0.0 && 0.0 < p.scaleX && 0.0 < p.scaleY
    ensures p.scaleX * v.videoWidth == v.displayWidth
    ensures Letterboxed(v) ==>
      && p.scaleY == p.scaleX
      && 0.0 < p.offsetY
      && v.videoHeight * p.scaleY + 2.0 * p.offsetY == v.displayHeight
    ensures !Letterboxed(v) ==> p.offsetY == 0.0 && p.scaleY * v.videoHeight == v.displayHeight
  {
    var aspectRatio := v.videoWidth / v.videoHeight;
    var displayAspectRatio := v.displayWidth / v.displayHeight;
    var offsetX := 0.0;
    var scaleX := v.displayWidth / v.videoWidth;
    if aspectRatio > displayAspectRatio then
      var scaleY := v.displayWidth / v.videoWidth;
      var offsetY := (v.displayHeight - v.displayWidth / aspectRatio) / 2.0;
      LetterboxFacts(v);
      Placement(scaleX, scaleY, offsetX, offsetY)
    else
      Placement(scaleX, v.displayHeight / v.videoHeight, offsetX, 0.0)
  }

  lemma LetterboxFacts(v: ResizeView)
    requires ResizeReady(v) && Letterboxed(v)
    ensures var s := v.displayWidth / v.videoWidth;
            var offsetY := (v.displayHeight - v.displayWidth / (v.videoWidth / v.videoHeight)) / 2.0;
            0.0 < offsetY && v.videoHeight * s + 2.0 * offsetY == v.displayHeight
  {
    var s := v.displayWidth / v.videoWidth;
    var aspectRatio := v.videoWidth / v.videoHeight;
    assert aspectRatio > 0.0;
    assert aspectRatio * v.videoHeight == v.videoWidth;
    assert v.displayWidth / aspectRatio == v.videoHeight * s by {
      assert v.videoHeight * s * aspectRatio == v.displayWidth / v.videoWidth * (aspectRatio * v.videoHeight);
    }
    LetterboxedCross(v);
    assert v.videoHeight * s * v.videoWidth == v.displayWidth * v.videoHeight;
    assert v.videoHeight * s * v.videoWidth < v.displayHeight * v.videoWidth;
    assert v.videoHeight * s < v.displayHeight;
  }

  /** The highlighter rectangle of the resize path: mirrored, uniformly placed. */
  function ResizeRect(v: ResizeView, b: Box): (r: Rect)
    requires ResizeReady(v)
    ensures var p := ResizePlacement(v);
            r == Place(Mirror(b, v.videoWidth), p.scaleX, p.scaleY, p.offsetX, p.offsetY)
  {
    var p := ResizePlacement(v);
    Rect((v.videoWidth - b.originX - b.width) * p.scaleX + p.offsetX,
         b.originY * p.scaleY + p.offsetY,
         b.width * p.scaleX,
         b.height * p.scaleY)
  }

  /** The label anchor of the resize path, computed from the box directly. */
  function ResizeAnchor(v: ResizeView, b: Box): (q: Point)
    requires ResizeReady(v)
    ensures q == Centre(ResizeRect(v, b))
  {
    var p := ResizePlacement(v);
    var scaledX := (v.videoWidth - b.originX - b.width) * p.scaleX + p.offsetX;
    var scaledY := b.originY * p.scaleY + p.offsetY;
    Point(scaledX + (b.width * p.scaleX) / 2.0, scaledY + (b.height * p.scaleY) / 2.0)
  }

  /**
   A box inside the video frame lands inside the display; when letterboxed it
   stays strictly inside the bands above and below the scaled video.
   */
  lemma ResizeRectWithinDisplay(v: ResizeView, b: Box)
    requires ResizeReady(v) && WithinFrame(b, v.videoWidth, v.videoHeight)
    ensures WithinArea(ResizeRect(v, b), 0.0, 0.0, v.displayWidth, v.displayHeight)
    ensures Letterboxed(v) ==>
      var r := ResizeRect(v, b);
      0.0 < r.top && r.top + r.height < v.displayHeight
  {
    var p := ResizePlacement(v);
    MirrorWithinFrame(b, v.videoWidth, v.videoHeight);
    PlaceWithinBand(Mirror(b, v.videoWidth), v.videoWidth, v.videoHeight, p.scaleX, p.scaleY, p.offsetY,
                    v.displayWidth, v.displayHeight);
  }

  /** A placed box stays inside a band of height frameHeight * sy starting at offsetY. */
  lemma PlaceWithinBand(m: Box, frameWidth: real, frameHeight: real, sx: real, sy: real, offsetY: real,
                        displayWidth: real, displayHeight: real)
    requires WithinFrame(m, frameWidth, frameHeight) && 0.0 <= sx && 0.0 <= sy
    requires sx * frameWidth == displayWidth
    requires (0.0 < offsetY && frameHeight * sy + 2.0 * offsetY == displayHeight)
          || (offsetY == 0.0 && sy * frameHeight == displayHeight)
    ensures WithinArea(Place(m, sx, sy, 0.0, offsetY), 0.0, 0.0, displayWidth, displayHeight)
    ensures 0.0 < offsetY ==>
      var r := Place(m, sx, sy, 0.0, offsetY);
      0.0 < r.top && r.top + r.height < displayHeight
  {
    PlaceWithinArea(m, frameWidth, frameHeight, sx, sy, 0.0, offsetY);
  }

  // ---------------------------------------------------------------------------
  // How the two paths relate

  /** The resize path reading the same element as the per-frame path. */
  function SameElement(mv: MainView): ResizeView
  {
    ResizeView(mv.videoWidth, mv.videoHeight, mv.offsetWidth, mv.offsetHeight)
  }

  /**
   Without margins and without letterboxing, both paths put every box at the
   same rectangle.
   */
  lemma PathsAgreeWithoutMarginsOrLetterbox(mv: MainView, b: Box)
    requires MainReady(mv) && ResizeReady(SameElement(mv))
    requires mv.marginLeft == 0.0 && mv.marginTop == 0.0
    requires !Letterboxed(SameElement(mv))
    ensures MainRect(mv, b) == ResizeRect(SameElement(mv), b)
  {
    var rv := SameElement(mv);
    var p := ResizePlacement(rv);
    assert MainScaleX(mv) == p.scaleX by {
      assert MainScaleX(mv) * mv.videoWidth == p.scaleX * mv.videoWidth;
    }
    assert MainScaleY(mv) == p.scaleY by {
      assert MainScaleY(mv) * mv.videoHeight == p.scaleY * mv.videoHeight;
    }
  }

  /**
   Under letterboxing the two paths disagree: the resize path shrinks the
   vertical scale below the per-frame path's and shifts boxes down.
   */
  lemma PathsDivergeUnderLetterbox(mv: MainView)
    requires MainReady(mv) && ResizeReady(SameElement(mv))
    requires mv.marginLeft == 0.0 && mv.marginTop == 0.0
    requires Letterboxed(SameElement(mv))
    ensures ResizePlacement(SameElement(mv)).scaleY < MainScaleY(mv)
    ensures ResizePlacement(SameElement(mv)).offsetY > 0.0
  {
    var rv := SameElement(mv);
    var p := ResizePlacement(rv);
    assert mv.videoHeight * p.scaleY < mv.offsetHeight;
    assert MainScaleY(mv) * mv.videoHeight == mv.offsetHeight;
    assert p.scaleY * mv.videoHeight < MainScaleY(mv) * mv.videoHeight;
  }
}
