/** Pure geometry of the map viewer (app.js): clamping, the legal pan range
    for a scale, and the conversions between viewport and image space. */
module PanZoom {

  /** Zoom range reachable by wheel and pinch. */
  const MinScale: real := 0.18
  const MaxScale: real := 4.5
  /** The initial (and resize) fit never zooms in past this. */
  const FitMaxScale: real := 1.2
  /** Viewports narrower than this use the small edge padding. */
  const NarrowWidth: real := 760.0

  datatype Point = Point(x: real, y: real)
  /** The viewport's client rectangle (getBoundingClientRect). */
  datatype Viewport = Viewport(left: real, top: real, width: real, height: real)
  /** The image's natural pixel size. */
  datatype ImageSize = ImageSize(w: real, h: real)
  /** A pan/zoom: image point p is drawn at viewport-relative p * scale + (tx, ty). */
  datatype Transform = Transform(scale: real, tx: real, ty: real)
  datatype PanBounds = PanBounds(minTx: real, maxTx: real, minTy: real, maxTy: real)

  function Abs(x: real): real { if x < 0.0 then -x else x }
  function Min(a: real, b: real): real { if a <= b then a else b }
  function Max(a: real, b: real): real { if a >= b then a else b }

  /** `Math.max(lo, Math.min(hi, n))`. On an empty range (lo > hi) the lower
      end wins, as it does in the source. */
  function Clamp(n: real, lo: real, hi: real): (r: real)
    ensures lo <= r
    ensures lo <= hi ==> r <= hi
    ensures lo <= n <= hi ==> r == n
    ensures lo <= hi && n < lo ==> r == lo
    ensures lo <= hi && hi < n ==> r == hi
    ensures hi < lo ==> r == lo
  {
    Max(lo, Min(hi, n))
  }

  /** Clamping twice is clamping once. */
  lemma ClampIdempotent(n: real, lo: real, hi: real)
    requires lo <= hi
    ensures Clamp(Clamp(n, lo, hi), lo, hi) == Clamp(n, lo, hi)
  {
  }

  /** The clamped value is the point of [lo, hi] nearest to n: the shift that
      clamping makes is the least one that lands in range. */
  lemma ClampIsNearest(n: real, lo: real, hi: real, y: real)
    requires lo <= y <= hi
    ensures Abs(Clamp(n, lo, hi) - n) <= Abs(y - n)
  {
  }

  function EdgePadX(viewWidth: real): real { if viewWidth < NarrowWidth then 16.0 else 24.0 }
  function EdgePadY(viewWidth: real): real { if viewWidth < NarrowWidth then 20.0 else 28.0 }

  /** The pan range along one axis of length `view` for image extent `scaled`.
      An image that fits is pinned at the centring offset; a larger one may
      move until its edge comes within `pad` of the viewport edge. */
  function AxisRange(view: real, scaled: real, pad: real): (r: (real, real))
    requires pad > 0.0
    ensures r.0 <= r.1
    ensures scaled <= view ==> r.0 == r.1 && r.0 + scaled / 2.0 == view / 2.0
    ensures view < scaled ==> r.1 == pad && r.0 + scaled == view - pad
  {
    if scaled <= view then
      var centered := (view - scaled) / 2.0;
      (centered, centered)
    else
      (view - scaled - pad, pad)
  }

  /** getPanBounds: the legal translations for the image at `scale`. The
      range is never empty. */
  function GetPanBounds(vp: Viewport, img: ImageSize, scale: real): (b: PanBounds)
    ensures b.minTx <= b.maxTx && b.minTy <= b.maxTy
  {
    var x := AxisRange(vp.width, img.w * scale, EdgePadX(vp.width));
    var y := AxisRange(vp.height, img.h * scale, EdgePadY(vp.width));
    PanBounds(x.0, x.1, y.0, y.1)
  }

  /** The exact pan range per axis: an image that fits is pinned at the
      centring offset; a larger one may move until its far edge comes within
      the padding (16/20 on viewports narrower than 760, else 24/28) of the
      viewport edge, and its near edge no further in than the padding. */
  lemma PanBoundsShape(vp: Viewport, img: ImageSize, scale: real)
    ensures var b := GetPanBounds(vp, img, scale);
      && (img.w * scale <= vp.width ==> b.minTx == b.maxTx == (vp.width - img.w * scale) / 2.0)
      && (vp.width < img.w * scale ==>
            b.maxTx == EdgePadX(vp.width) && b.minTx + img.w * scale == vp.width - EdgePadX(vp.width))
      && (img.h * scale <= vp.height ==> b.minTy == b.maxTy == (vp.height - img.h * scale) / 2.0)
      && (vp.height < img.h * scale ==>
            b.maxTy == EdgePadY(vp.width) && b.minTy + img.h * scale == vp.height - EdgePadY(vp.width))
  {
    var x := AxisRange(vp.width, img.w * scale, EdgePadX(vp.width));
    var y := AxisRange(vp.height, img.h * scale, EdgePadY(vp.width));
  }

  predicate Contains(b: PanBounds, t: Transform)
  {
    b.minTx <= t.tx <= b.maxTx && b.minTy <= t.ty <= b.maxTy
  }

  /** The translation part of clampTargetsToBounds: the scale is kept, the
      translation is moved into the range, and one already in range stays. */
  function ClampPan(t: Transform, b: PanBounds): (r: Transform)
    ensures r.scale == t.scale
    ensures b.minTx <= b.maxTx && b.minTy <= b.maxTy ==> Contains(b, r)
    ensures Contains(b, t) ==> r == t
  {
    Transform(t.scale, Clamp(t.tx, b.minTx, b.maxTx), Clamp(t.ty, b.minTy, b.maxTy))
  }

  /** Clamping the pan a second time changes nothing. */
  lemma ClampPanIdempotent(t: Transform, vp: Viewport, img: ImageSize)
    ensures var b := GetPanBounds(vp, img, t.scale);
            ClampPan(ClampPan(t, b), b) == ClampPan(t, b)
  {
  }

  /** Within the range, an image wider than the viewport leaves at most the
      edge padding uncovered on either side; one that fits is centred. */
  lemma PanRangeKeepsImageInView(vp: Viewport, img: ImageSize, t: Transform)
    requires Contains(GetPanBounds(vp, img, t.scale), t)
    ensures vp.width < img.w * t.scale ==>
      t.tx <= EdgePadX(vp.width) && vp.width - EdgePadX(vp.width) <= t.tx + img.w * t.scale
    ensures img.w * t.scale <= vp.width ==> t.tx == (vp.width - img.w * t.scale) / 2.0
    ensures vp.height < img.h * t.scale ==>
      t.ty <= EdgePadY(vp.width) && vp.height - EdgePadY(vp.width) <= t.ty + img.h * t.scale
    ensures img.h * t.scale <= vp.height ==> t.ty == (vp.height - img.h * t.scale) / 2.0
  {
    PanBoundsShape(vp, img, t.scale);
  }

  /** An image that fits the viewport at `scale` has one legal translation:
      the one that centres it. */
  lemma FittingImageIsCentred(vp: Viewport, img: ImageSize, scale: real)
    requires img.w * scale <= vp.width && img.h * scale <= vp.height
    ensures var c := Transform(scale, (vp.width - img.w * scale) / 2.0, (vp.height - img.h * scale) / 2.0);
      forall t: Transform :: t.scale == scale ==> ClampPan(t, GetPanBounds(vp, img, scale)) == c
  {
    PanBoundsShape(vp, img, scale);
  }

  /** clientFromWorld: where image point w is drawn, relative to the
      viewport's top-left corner (the viewport origin is not added back).
      For a non-zero scale the drawing can be undone: w is recovered from c. */
  function ClientFromWorld(w: Point, t: Transform): (c: Point)
    ensures t.scale != 0.0 ==> w == Point((c.x - t.tx) / t.scale, (c.y - t.ty) / t.scale)
  {
    Point(w.x * t.scale + t.tx, w.y * t.scale + t.ty)
  }

  /** worldFromClient: the image point under client point c. It is undone by
      ClientFromWorld up to the viewport origin. */
  function WorldFromClient(c: Point, vp: Viewport, t: Transform): (w: Point)
    requires t.scale != 0.0
    ensures ClientFromWorld(w, t) == Point(c.x - vp.left, c.y - vp.top)
  {
    Point((c.x - vp.left - t.tx) / t.scale, (c.y - vp.top - t.ty) / t.scale)
  }

  /** The other direction of the round trip: drawing w and reading it back
      through the viewport origin gives w again. */
  lemma WorldClientRoundTrip(w: Point, vp: Viewport, t: Transform)
    requires t.scale != 0.0
    ensures var c := ClientFromWorld(w, t);
            WorldFromClient(Point(c.x + vp.left, c.y + vp.top), vp, t) == w
  {
  }

  /** The zoom step shared by the wheel and pinch handlers: move to
      `newScale`, choosing the translation so that the image point under the
      client point `anchor` stays under it. */
  function ZoomAt(t: Transform, anchor: Point, vp: Viewport, newScale: real): (r: Transform)
    requires t.scale != 0.0
    ensures r.scale == newScale
  {
    var cx := anchor.x - vp.left;
    var cy := anchor.y - vp.top;
    var wx := (cx - t.tx) / t.scale;
    var wy := (cy - t.ty) / t.scale;
    Transform(newScale, cx - wx * newScale, cy - wy * newScale)
  }

  /** Zooming about an anchor keeps the image point under the anchor. */
  lemma ZoomAtKeepsAnchor(t: Transform, anchor: Point, vp: Viewport, newScale: real)
    requires t.scale != 0.0 && newScale != 0.0
    ensures WorldFromClient(anchor, vp, ZoomAt(t, anchor, vp, newScale)) == WorldFromClient(anchor, vp, t)
  {
  }
}
