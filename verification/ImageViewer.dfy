/** Pinch-zoom geometry of the image viewer, over the reals. */
module ImageViewer {
  const MIN_SCALE: real := 1.0

  datatype Size = Size(width: real, height: real)

  datatype Point = Point(x: real, y: real)

  function Min(a: real, b: real): real {
    if a <= b then a else b
  }

  function Max(a: real, b: real): real {
    if a >= b then a else b
  }

  function Clamp(value: real, minimum: real, maximum: real): real {
    Min(maximum, Max(minimum, value))
  }

  predicate Proper(s: Size) {
    s.width > 0.0 && s.height > 0.0
  }

  function FitRatio(image: Size, viewport: Size): real
    requires Proper(image)
  {
    Min(viewport.width / image.width, viewport.height / image.height)
  }

  /** The image scaled to fit; sizes not yet known count as the viewport itself. */
  function Fitted(image: Size, viewport: Size): Size {
    if !Proper(image) || !Proper(viewport) then viewport
    else Size(image.width * FitRatio(image, viewport), image.height * FitRatio(image, viewport))
  }

  /** How far an axis of the scaled image may be moved either way. */
  function AxisBound(scaled: real, viewport: real): real {
    Max(0.0, (scaled - viewport) / 2.0)
  }

  function ClampAxis(scaled: real, viewport: real, t: real): real {
    Clamp(t, -AxisBound(scaled, viewport), AxisBound(scaled, viewport))
  }

  function Scaled(fitted: Size, scale: real): Size {
    Size(fitted.width * scale, fitted.height * scale)
  }

  function ClampTo(scaled: Size, viewport: Size, t: Point): Point {
    Point(ClampAxis(scaled.width, viewport.width, t.x), ClampAxis(scaled.height, viewport.height, t.y))
  }

  function ClampTranslation(image: Size, viewport: Size, scale: real, t: Point): Point {
    ClampTo(Scaled(Fitted(image, viewport), scale), viewport, t)
  }

  /** One axis of a zoom about a focal coordinate, before clamping. */
  function ZoomAxis(viewport: real, from: real, to: real, current: real, focal: real): real {
    current + (focal - viewport / 2.0 - current) * (1.0 - to / Max(MIN_SCALE, from))
  }

  function Unclamped(viewport: Size, from: real, to: real, current: Point, focal: Point): Point {
    Point(ZoomAxis(viewport.width, from, to, current.x, focal.x), ZoomAxis(viewport.height, from, to, current.y, focal.y))
  }

  function Zoom(image: Size, viewport: Size, from: real, to: real, current: Point, focal: Point): Point {
    ClampTranslation(image, viewport, to, Unclamped(viewport, from, to, current, focal))
  }

  // ---------------------------------------------------------------- fitting

  lemma Divides(a: real, b: real, r: real)
    requires b > 0.0
    ensures r <= a / b <==> b * r <= a
    ensures b * (a / b) == a
  {
    var q := a / b;
    assert b * q == a;
    if r <= q { assert b * r <= b * q by { assert b * (q - r) >= 0.0; } }
    if r > q { assert b * r > b * q by { assert b * (r - q) > 0.0; } }
  }

  /** The fitted image keeps its proportions, stays inside the viewport and touches it, so no larger ratio would fit. */
  lemma FittedIsLargest(image: Size, viewport: Size, r: real)
    requires image.width > 0.0 && image.height > 0.0 && viewport.width > 0.0 && viewport.height > 0.0
    ensures var f := Fitted(image, viewport);
            && f.width * image.height == f.height * image.width
            && 0.0 < f.width <= viewport.width && 0.0 < f.height <= viewport.height
            && (f.width == viewport.width || f.height == viewport.height)
    ensures image.width * r <= viewport.width && image.height * r <= viewport.height <==> r <= FitRatio(image, viewport)
  {
    var ratio := FitRatio(image, viewport);
    Divides(viewport.width, image.width, r);
    Divides(viewport.height, image.height, r);
    Divides(viewport.width, image.width, ratio);
    Divides(viewport.height, image.height, ratio);
    Divides(viewport.width, image.width, 0.0);
    Divides(viewport.height, image.height, 0.0);
    assert ratio > 0.0;
    Positive(image.width, ratio);
    Positive(image.height, ratio);
    Proportion(image.width, image.height, ratio);
  }

  lemma Positive(a: real, b: real)
    requires a > 0.0 && b > 0.0
    ensures a * b > 0.0
  {
  }

  lemma Proportion(a: real, b: real, r: real)
    ensures (a * r) * b == (b * r) * a
  {
  }

  /** While a size is not known the image counts as filling the viewport. */
  lemma UnknownSizeFills(image: Size, viewport: Size)
    requires image.width <= 0.0 || image.height <= 0.0 || viewport.width <= 0.0 || viewport.height <= 0.0
    ensures Fitted(image, viewport) == viewport
  {
  }

  lemma FittedInside(image: Size, viewport: Size)
    ensures Fitted(image, viewport).width <= viewport.width && Fitted(image, viewport).height <= viewport.height
  {
    if Proper(image) && Proper(viewport) { FittedIsLargest(image, viewport, 0.0); }
  }

  // ---------------------------------------------------------------- clamping

  /** The scaled image, moved by `t`, leaves no gap on an axis of the viewport. */
  predicate NoGap(scaled: real, viewport: real, t: real) {
    viewport / 2.0 + t - scaled / 2.0 <= 0.0 && viewport / 2.0 + t + scaled / 2.0 >= viewport
  }

  function Apart(a: real, b: real): real {
    Max(a - b, b - a)
  }

  /**
   * One axis: no gap if and only if the scaled image covers the viewport, translation 0 when it does not, and
   * otherwise the nearest translation that shows no gap.
   */
  lemma AxisClamped(scaled: real, viewport: real, t: real)
    ensures var c := ClampAxis(scaled, viewport, t);
            && (NoGap(scaled, viewport, c) <==> scaled >= viewport)
            && (scaled <= viewport ==> c == 0.0)
            && (scaled >= viewport ==> (NoGap(scaled, viewport, t) <==> c == t))
            && (forall u: real | NoGap(scaled, viewport, u) :: Apart(t, c) <= Apart(t, u))
            && ClampAxis(scaled, viewport, c) == c
  {
    forall u: real | NoGap(scaled, viewport, u) ensures Apart(t, ClampAxis(scaled, viewport, t)) <= Apart(t, u) {
      assert -AxisBound(scaled, viewport) <= u <= AxisBound(scaled, viewport);
    }
  }

  /** What clamping promises of an axis: no gap exactly where the image covers it, centred where it does not. */
  predicate AxisSettled(scaled: real, viewport: real, t: real) {
    && (NoGap(scaled, viewport, t) <==> scaled >= viewport)
    && (scaled <= viewport ==> t == 0.0)
    && ClampAxis(scaled, viewport, t) == t
  }

  predicate Settled(scaled: Size, viewport: Size, t: Point) {
    AxisSettled(scaled.width, viewport.width, t.x) && AxisSettled(scaled.height, viewport.height, t.y)
  }

  lemma ClampSettles(scaled: Size, viewport: Size, t: Point)
    ensures Settled(scaled, viewport, ClampTo(scaled, viewport, t))
  {
    AxisClamped(scaled.width, viewport.width, t.x);
    AxisClamped(scaled.height, viewport.height, t.y);
  }

  /** Both axes of a clamped translation, for every image, viewport and scale. */
  lemma ClampedShowsNoGap(image: Size, viewport: Size, scale: real, t: Point)
    ensures Settled(Scaled(Fitted(image, viewport), scale), viewport, ClampTranslation(image, viewport, scale, t))
  {
    ClampSettles(Scaled(Fitted(image, viewport), scale), viewport, t);
  }

  /** At scale 1 the image is always centred. */
  lemma UnzoomedIsCentred(image: Size, viewport: Size, t: Point)
    ensures ClampTranslation(image, viewport, 1.0, t) == Point(0.0, 0.0)
  {
    var f := Fitted(image, viewport);
    FittedInside(image, viewport);
    assert f.width * 1.0 == f.width && f.height * 1.0 == f.height;
    AxisClamped(f.width, viewport.width, t.x);
    AxisClamped(f.height, viewport.height, t.y);
  }

  // ---------------------------------------------------------------- zooming

  /** Where an image coordinate shows, measured from the image's centre, at a scale and translation. */
  function Screen(viewport: real, scale: real, t: real, p: real): real {
    viewport / 2.0 + t + scale * p
  }

  /** The image coordinate under a screen coordinate. */
  function Under(viewport: real, scale: real, t: real, focal: real): real
    requires scale > 0.0
  {
    (focal - viewport / 2.0 - t) / scale
  }

  lemma UnderShows(viewport: real, scale: real, t: real, focal: real)
    requires scale > 0.0
    ensures Screen(viewport, scale, t, Under(viewport, scale, t, focal)) == focal
    ensures forall p: real | Screen(viewport, scale, t, p) == focal :: p == Under(viewport, scale, t, focal)
  {
    var d, u := focal - viewport / 2.0 - t, Under(viewport, scale, t, focal);
    Divides(d, scale, 0.0);
    forall p: real | Screen(viewport, scale, t, p) == focal ensures p == u {
      CancelLeft(scale, p, u);
    }
  }

  lemma CancelLeft(a: real, b: real, c: real)
    requires a != 0.0 && a * b == a * c
    ensures b == c
  {
    assert a * (b - c) == 0.0;
  }

  lemma ZeroProduct(a: real, b: real)
    ensures a * b == 0.0 <==> a == 0.0 || b == 0.0
  {
  }

  /** How far the point under the fingers drifts in an unclamped zoom. */
  lemma Drift(d: real, from: real, to: real, ratio: real, u: real)
    requires from > 0.0 && from * u == d && ratio * Max(MIN_SCALE, from) == to
    ensures to * u - d * ratio == 0.0 <==> from >= 1.0 || d == 0.0 || to == 0.0
  {
    var m := Max(MIN_SCALE, from);
    assert to * u - d * ratio == ratio * u * (m - from) by {
      assert to * u == ratio * m * u;
      assert d * ratio == ratio * u * from;
    }
    ZeroProduct(ratio * u, m - from);
    ZeroProduct(ratio, u);
    ZeroProduct(from, u);
    ZeroProduct(ratio, m);
  }

  /** The image point under the fingers stays there exactly when the start scale is at least 1 or nothing moves it. */
  lemma FocalFixedIff(viewport: real, from: real, to: real, current: real, focal: real)
    requires from > 0.0
    ensures Screen(viewport, to, ZoomAxis(viewport, from, to, current, focal), Under(viewport, from, current, focal)) == focal
            <==> from >= 1.0 || focal == viewport / 2.0 + current || to == 0.0
  {
    var d, m := focal - viewport / 2.0 - current, Max(MIN_SCALE, from);
    var ratio, u := to / m, Under(viewport, from, current, focal);
    Divides(to, m, 0.0);
    Divides(d, from, 0.0);
    Drift(d, from, to, ratio, u);
    Expand(d, ratio);
  }

  lemma Expand(d: real, ratio: real)
    ensures d * (1.0 - ratio) == d - d * ratio
  {
  }

  /** What a zoom leaves between the focal coordinate and the image's centre. */
  lemma ZoomGap(viewport: real, from: real, to: real, current: real, focal: real)
    ensures focal - viewport / 2.0 - ZoomAxis(viewport, from, to, current, focal)
            == (focal - viewport / 2.0 - current) * (to / Max(MIN_SCALE, from))
  {
    Expand(focal - viewport / 2.0 - current, to / Max(MIN_SCALE, from));
  }

  /** Two unclamped zooms at one focal point are one, exactly when the scale between them is at least 1 or it cannot matter. */
  lemma ZoomsComposeIff(viewport: real, a: real, b: real, c: real, current: real, focal: real)
    ensures ZoomAxis(viewport, b, c, ZoomAxis(viewport, a, b, current, focal), focal) == ZoomAxis(viewport, a, c, current, focal)
            <==> b >= 1.0 || c == 0.0 || focal == viewport / 2.0 + current
  {
    var d, ma, mb := focal - viewport / 2.0 - current, Max(MIN_SCALE, a), Max(MIN_SCALE, b);
    ZoomGap(viewport, a, b, current, focal);
    ZoomGap(viewport, b, c, ZoomAxis(viewport, a, b, current, focal), focal);
    ZoomGap(viewport, a, c, current, focal);
    RatiosMultiply(d, b, c, ma, mb);
  }

  lemma RatiosMultiply(d: real, b: real, c: real, ma: real, mb: real)
    requires ma >= 1.0 && mb == Max(MIN_SCALE, b)
    ensures d * (b / ma) * (c / mb) == d * (c / ma) <==> b >= 1.0 || c == 0.0 || d == 0.0
  {
    var x, y := 1.0 / ma, c / mb;
    Divides(1.0, ma, 0.0);
    Divides(c, mb, 0.0);
    OverAsTimes(b, ma, x);
    OverAsTimes(c, ma, x);
    Difference(d, b, c, x, y, mb);
    ZeroProduct(d * x * y, b - mb);
    ZeroProduct(d * x, y);
    ZeroProduct(d, x);
    ZeroProduct(mb, y);
  }

  lemma OverAsTimes(a: real, m: real, x: real)
    requires m > 0.0 && m * x == 1.0
    ensures a / m == a * x
  {
    Divides(a, m, 0.0);
    assert m * (a * x) == a * (m * x);
    CancelLeft(m, a / m, a * x);
  }

  lemma Difference(d: real, b: real, c: real, x: real, y: real, mb: real)
    requires mb * y == c
    ensures d * (b * x) * y - d * (c * x) == d * x * y * (b - mb)
  {
    assert d * (c * x) == d * x * y * mb by { assert c * x == x * (mb * y); Regroup(d, x, mb, y); }
    assert d * (b * x) * y == d * x * y * b by { Regroup(d, x, b, y); }
  }

  lemma Regroup(d: real, x: real, m: real, y: real)
    ensures d * (x * (m * y)) == d * x * y * m
    ensures d * (m * x) * y == d * x * y * m
  {
  }

  /** The point under the fingers stays there exactly when the unclamped zoom shows no gap on this axis. */
  predicate AxisFollows(scaled: real, viewport: real, from: real, to: real, current: real, focal: real, z: real)
    requires from > 0.0
  {
    scaled >= viewport ==>
      (NoGap(scaled, viewport, ZoomAxis(viewport, from, to, current, focal)) <==>
       Screen(viewport, to, z, Under(viewport, from, current, focal)) == focal)
  }

  predicate FollowsFingers(scaled: Size, viewport: Size, from: real, to: real, current: Point, focal: Point, z: Point)
    requires from > 0.0
  {
    && AxisFollows(scaled.width, viewport.width, from, to, current.x, focal.x, z.x)
    && AxisFollows(scaled.height, viewport.height, from, to, current.y, focal.y, z.y)
  }

  lemma AxisClampFollows(scaled: real, viewport: real, from: real, to: real, current: real, focal: real)
    requires from >= 1.0
    ensures AxisFollows(scaled, viewport, from, to, current, focal, ClampAxis(scaled, viewport, ZoomAxis(viewport, from, to, current, focal)))
  {
    var t := ZoomAxis(viewport, from, to, current, focal);
    AxisClamped(scaled, viewport, t);
    FocalFixedIff(viewport, from, to, current, focal);
    Moved(viewport, to, t, ClampAxis(scaled, viewport, t), Under(viewport, from, current, focal));
  }

  lemma ClampFollows(scaled: Size, viewport: Size, from: real, to: real, current: Point, focal: Point)
    requires from >= 1.0
    ensures FollowsFingers(scaled, viewport, from, to, current, focal, ClampTo(scaled, viewport, Unclamped(viewport, from, to, current, focal)))
  {
    AxisClampFollows(scaled.width, viewport.width, from, to, current.x, focal.x);
    AxisClampFollows(scaled.height, viewport.height, from, to, current.y, focal.y);
  }

  lemma Moved(viewport: real, scale: real, t: real, z: real, p: real)
    ensures Screen(viewport, scale, t, p) == Screen(viewport, scale, z, p) <==> t == z
  {
  }

  /**
   * The zoom the viewer applies, from a scale of at least 1: settled on both axes, following the fingers wherever the
   * image covers the viewport and that leaves no gap, and back to the centre at scale 1.
   */
  lemma ZoomKeepsFocal(image: Size, viewport: Size, from: real, to: real, current: Point, focal: Point)
    requires from >= 1.0
    ensures var scaled, z := Scaled(Fitted(image, viewport), to), Zoom(image, viewport, from, to, current, focal);
            && Settled(scaled, viewport, z)
            && FollowsFingers(scaled, viewport, from, to, current, focal, z)
            && (to == 1.0 ==> z == Point(0.0, 0.0))
  {
    var scaled, t := Scaled(Fitted(image, viewport), to), Unclamped(viewport, from, to, current, focal);
    ClampSettles(scaled, viewport, t);
    ClampFollows(scaled, viewport, from, to, current, focal);
    if to == 1.0 { UnzoomedIsCentred(image, viewport, t); }
  }
}
