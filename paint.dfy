// Paints and compositing: what the canvas hands the renderer besides
// geometry (nona/src/context.rs).
module Paints {
  import opened Numerics
  import opened Geometry
  import opened Colors

  datatype Option<T> = None | Some(value: T)

  /** How a shape is coloured: a gradient or image placed by `xform`, with
      `extent`, `radius` and `feather` shaping the gradient. */
  datatype Paint = Paint(
    xform: Transform,
    extent: Extent,
    radius: real,
    feather: real,
    innerColor: Color,
    outerColor: Color,
    image: Option<nat>)

  datatype Gradient =
    | Linear(start: Point, end: Point, startColor: Color, endColor: Color)
    | Radial(center: Point, inRadius: real, outRadius: real, inner: Color, outer: Color)
    | BoxGradient(rect: Rect, radius: real, feather: real, inner: Color, outer: Color)

  datatype ImagePattern = ImagePattern(center: Point, size: Extent, angle: real, img: nat, alpha: real)

  /** How far a linear gradient reaches on either side of its ramp. */
  const Large: real := 100000.0

  /** The colours a gradient runs between. */
  function InnerOf(g: Gradient): Color
  {
    match g
    case Linear(_, _, c, _) => c
    case Radial(_, _, _, c, _) => c
    case BoxGradient(_, _, _, c, _) => c
  }

  function OuterOf(g: Gradient): Color
  {
    match g
    case Linear(_, _, _, c) => c
    case Radial(_, _, _, _, c) => c
    case BoxGradient(_, _, _, _, c) => c
  }

  /** The unit direction of a linear gradient, and the distance it was
      divided by; endpoints closer than 1e-4 give the direction (0, 1). */
  function RampDirection(start: Point, end: Point, sqrt: real -> real): (r: (real, real, real))
    ensures r.2 == sqrt(SqDist(start, end))
    ensures r.2 <= 0.0001 ==> r.0 == 0.0 && r.1 == 1.0
    ensures r.2 > 0.0001 ==> r.0 == (end.x - start.x) / r.2 && r.1 == (end.y - start.y) / r.2
  {
    var dx := end.x - start.x;
    var dy := end.y - start.y;
    var d := sqrt(SqDist(start, end));
    if d > 0.0001 then (dx / d, dy / d, d) else (0.0, 1.0, d)
  }

  /** `impl From<Gradient> for Paint`: every gradient keeps its two colours,
      has no image and a feather of at least one pixel; a linear one is
      rotated onto its ramp and starts `Large` before it, the others are
      centred on their centre. */
  function GradientPaint(g: Gradient, sqrt: real -> real): (p: Paint)
    ensures p.feather >= 1.0 && p.image == None
    ensures p.innerColor == InnerOf(g) && p.outerColor == OuterOf(g)
    ensures g.Linear? ==>
      var dir := RampDirection(g.start, g.end, sqrt);
      && p.xform == Transform(dir.1, -dir.0, dir.0, dir.1, g.start.x - dir.0 * Large, g.start.y - dir.1 * Large)
      && p.feather == Max(dir.2, 1.0) && p.radius == 0.0
    ensures g.Radial? ==>
      && p.xform == Translate(g.center.x, g.center.y)
      && p.extent.width == p.extent.height == p.radius == (g.inRadius + g.outRadius) * 0.5
      && p.feather == Max(g.outRadius - g.inRadius, 1.0)
    ensures g.BoxGradient? ==>
      && TransformPoint(p.xform, Point(0.0, 0.0)) == Centre(g.rect)
      && p.extent.width * 2.0 == g.rect.size.width && p.extent.height * 2.0 == g.rect.size.height
      && p.radius == g.radius && p.feather == Max(g.feather, 1.0)
  {
    match g
    case Linear(start, end, inner, outer) =>
      var dir := RampDirection(start, end, sqrt);
      var dx, dy, d := dir.0, dir.1, dir.2;
      Paint(Transform(dy, -dx, dx, dy, start.x - dx * Large, start.y - dy * Large),
            Extent(Large, Large + d * 0.5), 0.0, Max(d, 1.0), inner, outer, None)
    case Radial(center, inR, outR, inner, outer) =>
      var r := (inR + outR) * 0.5;
      var f := outR - inR;
      Paint(Transform(1.0, 0.0, 0.0, 1.0, center.x, center.y), Extent(r, r), r, Max(f, 1.0), inner, outer, None)
    case BoxGradient(rect, radius, feather, inner, outer) =>
      Paint(Transform(1.0, 0.0, 0.0, 1.0, rect.xy.x + rect.size.width * 0.5, rect.xy.y + rect.size.height * 0.5),
            Extent(rect.size.width * 0.5, rect.size.height * 0.5), radius, Max(feather, 1.0), inner, outer, None)
  }

  /** `impl From<ImagePattern> for Paint`: the image rotated by `angle`
      about `center`, drawn at full extent, tinted white at `alpha`. */
  function PatternPaint(pat: ImagePattern, lib: Libm): (p: Paint)
    ensures p.image == Some(pat.img) && p.extent == pat.size
    ensures p.innerColor == p.outerColor == Rgba(1.0, 1.0, 1.0, pat.alpha)
    ensures TransformPoint(p.xform, Point(0.0, 0.0)) == pat.center
    ensures p.radius == 0.0 && p.feather == 0.0
  {
    var rot := Rotate(pat.angle, lib);
    Paint(rot.(e := pat.center.x, f := pat.center.y), pat.size, 0.0, 0.0,
          Rgba(1.0, 1.0, 1.0, pat.alpha), Rgba(1.0, 1.0, 1.0, pat.alpha), Some(pat.img))
  }

  /** `impl From<Color> for Paint`: a solid colour, untransformed. */
  function ColorPaint(c: Color): (p: Paint)
    ensures p.innerColor == p.outerColor == c
    ensures p.xform == Identity() && p.feather == 1.0 && p.radius == 0.0 && p.image == None
    ensures p.extent == Extent(0.0, 0.0)
  {
    Paint(Identity(), Extent(0.0, 0.0), 0.0, 1.0, c, c, None)
  }

  /** A paint with both of its colours' alpha scaled by `k`. */
  function FadePaint(p: Paint, k: real): (r: Paint)
    ensures r.innerColor == p.innerColor.(a := p.innerColor.a * k)
    ensures r.outerColor == p.outerColor.(a := p.outerColor.a * k)
    ensures r.xform == p.xform && r.extent == p.extent && r.radius == p.radius
    ensures r.feather == p.feather && r.image == p.image
  {
    p.(innerColor := p.innerColor.(a := p.innerColor.a * k), outerColor := p.outerColor.(a := p.outerColor.a * k))
  }

  /** Fading by 1 leaves a paint as it is, and two fades compose. */
  lemma FadeComposes(p: Paint, j: real, k: real)
    ensures FadePaint(p, 1.0) == p
    ensures FadePaint(FadePaint(p, j), k) == FadePaint(p, j * k)
  {
    assert p.innerColor.a * j * k == p.innerColor.a * (j * k);
    assert p.outerColor.a * j * k == p.outerColor.a * (j * k);
  }

  // ---------------------------------------------------------------------
  // Compositing
  // ---------------------------------------------------------------------

  datatype BlendFactor =
    | Zero | One
    | SrcColor | OneMinusSrcColor | DstColor | OneMinusDstColor
    | SrcAlpha | OneMinusSrcAlpha | DstAlpha | OneMinusDstAlpha
    | SrcAlphaSaturate

  datatype BasicCompositeOperation =
    SrcOver | SrcIn | SrcOut | Atop | DstOver | DstIn | DstOut | DstAtop | Lighter | Copy | Xor

  datatype CompositeOperation =
    | Basic(op: BasicCompositeOperation)
    | BlendFunc(src: BlendFactor, dst: BlendFactor)
    | BlendFuncSeparate(srcRgb: BlendFactor, dstRgb: BlendFactor, srcAlpha: BlendFactor, dstAlpha: BlendFactor)

  datatype CompositeOperationState = CompositeOperationState(
    srcRgb: BlendFactor, dstRgb: BlendFactor, srcAlpha: BlendFactor, dstAlpha: BlendFactor)

  /** The Porter-Duff factors (source, destination) of a basic operation. */
  function PorterDuff(op: BasicCompositeOperation): (f: (BlendFactor, BlendFactor))
    ensures f.0 in {Zero, One, DstAlpha, OneMinusDstAlpha}
    ensures f.1 in {Zero, One, SrcAlpha, OneMinusSrcAlpha}
  {
    match op
    case SrcOver => (One, OneMinusSrcAlpha)
    case SrcIn => (DstAlpha, Zero)
    case SrcOut => (OneMinusDstAlpha, Zero)
    case Atop => (DstAlpha, OneMinusSrcAlpha)
    case DstOver => (OneMinusDstAlpha, One)
    case DstIn => (Zero, SrcAlpha)
    case DstOut => (Zero, OneMinusSrcAlpha)
    case DstAtop => (OneMinusDstAlpha, SrcAlpha)
    case Lighter => (One, One)
    case Copy => (One, Zero)
    case Xor => (OneMinusDstAlpha, OneMinusSrcAlpha)
  }

  /** No two basic operations blend alike. */
  lemma PorterDuffInjective(x: BasicCompositeOperation, y: BasicCompositeOperation)
    requires PorterDuff(x) == PorterDuff(y)
    ensures x == y
  {
  }

  /** `impl Into<CompositeOperationState> for CompositeOperation`. */
  function ToState(op: CompositeOperation): (s: CompositeOperationState)
    ensures op.Basic? ==>
      (s.srcRgb, s.dstRgb) == PorterDuff(op.op) && s.srcAlpha == s.srcRgb && s.dstAlpha == s.dstRgb
    ensures op.BlendFunc? ==>
      s.srcRgb == s.srcAlpha == op.src && s.dstRgb == s.dstAlpha == op.dst
    ensures op.BlendFuncSeparate? ==>
      s == CompositeOperationState(op.srcRgb, op.dstRgb, op.srcAlpha, op.dstAlpha)
  {
    match op
    case Basic(b) =>
      var (src, dst) := PorterDuff(b);
      CompositeOperationState(src, dst, src, dst)
    case BlendFunc(src, dst) => CompositeOperationState(src, dst, src, dst)
    case BlendFuncSeparate(sr, dr, sa, da) => CompositeOperationState(sr, dr, sa, da)
  }

  /** Every state is reached by the separate form, and a basic operation
      is the plain blend function of its Porter-Duff factors. */
  lemma ToStateCovers(s: CompositeOperationState, b: BasicCompositeOperation)
    ensures ToState(BlendFuncSeparate(s.srcRgb, s.dstRgb, s.srcAlpha, s.dstAlpha)) == s
    ensures ToState(Basic(b)) == ToState(BlendFunc(PorterDuff(b).0, PorterDuff(b).1))
  {
  }
}
